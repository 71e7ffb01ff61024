# icpilot front-end file handling, modelled in Dafny

icpilot's React front-end lists the files a user keeps on an Internet
Computer backend. It shows them as a directory tree and uploads,
previews, downloads and deletes them. This project models the logic behind
those pages, not the rendering:

- **FileTree** (`file_tree.dfy`) models `buildFileTree`, which turns the flat
  file list into nested `dirs`/`files` objects by splitting each
  `metadata.name` on `/`. It also models the leaf name the tree displays.
  The tree is a value `Node(dirs, files)`. `Insert`/`Build` are its
  functional specification. `BuildFileTree` is the intended walk: a
  `currentLevel` reference moves through mutable directory objects,
  modelled as indices into a store of objects, and a directory is looked up
  among the object's own properties only. It is proved equal to `Build`.
  The component's own lookup, `!currentLevel.dirs[part]`, also finds the
  properties every object inherits. `InsertAsWritten`/`BuildAsWritten`
  model that lookup; they agree with `Build` whenever no directory segment
  is named like an inherited property (see "## Findings").
- **Utils** (`utils.dfy`) models `convertBigIntValues`, which normalises the
  BigInts in backend answers. A BigInt in the safe integer range becomes a
  Number; any other BigInt becomes its decimal text; arrays and plain
  objects are rebuilt. `Convert` is the specification, and
  `ConvertBigIntValues` is the source's procedure with its `for…in` loop.
  The file also models the unit choice of `formatFileSize`.
  `utils.js` and `utils/index.js` contain the same `convertBigIntValues`,
  so one definition models both.
- **UseFile** (`use_file.dfy`) models the `useFile` hook. It holds the file
  list, the open preview, the loading flag and the message. It also holds
  the upload, view, delete and download rules, and `extractBytes`, which
  pushes every Number of a nested value onto a shared `bytes` array. Backend
  calls and browser file reads are parameters: each method receives the
  answer and sets the state that the source leaves after its `finally`
  block.
- **FilePreview** (`file_preview.dfy`) models which viewer the preview
  overlay renders for a content type, with the download prompt as the
  fallback.
- **JsString**, **JsValue**, **FileRecord** and **Wrappers** are shared
  models. JsString covers `split`/`pop`, `startsWith`, BigInt `toString` and
  `a || b` defaulting. JsValue covers JavaScript values. FileRecord is the
  file list entry. Wrappers has `Option`/`Result`.

Source paths below are relative to the repository root. An absent
`name`/`contentType` is modelled as the empty string. That is exact where
the hook reads them through `||` defaults, which treat both alike
(`useFile.js` lines 113 and 116); the other reads are listed under
"## Left out".

## Model

| member | source | states |
|---|---|---|
| JsString.Split | src/icpilot_frontend/src/components/File/FileTree.jsx:10 | splitting a name on `/` gives at least one part, and no part contains `/` |
| JsString.JoinSplit | src/icpilot_frontend/src/components/File/FileTree.jsx:10 | joining the parts of a split with `/` gives the name back |
| JsString.SplitJoin | src/icpilot_frontend/src/components/File/FileTree.jsx:10 | splitting the `/`-join of parts without `/` gives those parts back |
| JsString.FirstNonEmpty | src/icpilot_frontend/src/hooks/useFile.js:40 | a JavaScript OR chain over strings yields the first non-empty candidate, or the last one when all are empty; the result is empty only when every candidate is |
| JsString.NatDigits | src/icpilot_frontend/src/utils/index.js:17 | a BigInt's decimal text is a non-empty digit string with no leading zero |
| JsString.IntToStringRoundTrip | src/icpilot_frontend/src/utils/index.js:16-17 | the decimal text of any BigInt reads back as the same integer, so the out-of-range conversion preserves the value |
| FileTree.InsertLookup | src/icpilot_frontend/src/components/File/FileTree.jsx:13-23 | walking one file in keeps every existing directory and file, creates exactly the directories along its segments, and appends the file at its own directory only |
| FileTree.BuildFilesAt | src/icpilot_frontend/src/components/File/FileTree.jsx:6-28 | the files listed at any path are exactly the input files whose directory segments equal that path, in input order |
| FileTree.BuildLookup | src/icpilot_frontend/src/components/File/FileTree.jsx:6-28 | a directory exists at a path exactly when the path is the root or a leading run of some file's directory segments |
| FileTree.PlacedExactlyOnce | src/icpilot_frontend/src/components/File/FileTree.jsx:9-25 | every input file is listed at the node of its own directory segments and at no other node |
| FileTree.PlainNameAtRoot | src/icpilot_frontend/src/components/File/FileTree.jsx:14-17 | a name without `/` puts the file in the root's own `files` list |
| FileTree.CountInsert | src/icpilot_frontend/src/components/File/FileTree.jsx:13-24 | walking one file in adds exactly one file to the tree |
| FileTree.BuildCount | src/icpilot_frontend/src/components/File/FileTree.jsx:6-28 | the tree holds as many files as the input list: none lost, none duplicated |
| FileTree.DisplayNameIsLastSegment | src/icpilot_frontend/src/components/File/FileTree.jsx:54 | the displayed name contains no `/`, and the full name is the directory segments joined by `/`, a `/` when there are any, then the displayed name |
| FileTree.PushFileStep | src/icpilot_frontend/src/components/File/FileTree.jsx:14-17 | pushing onto the object reached by the directory segments completes the insertion of the file |
| FileTree.NewDirStep | src/icpilot_frontend/src/components/File/FileTree.jsx:20-22 | creating a missing directory object under the current one and stepping into it extends the walked path by that segment and creates the directory in the tree |
| FileTree.OldDirStep | src/icpilot_frontend/src/components/File/FileTree.jsx:21-22 | stepping into an existing directory object leaves the tree unchanged and extends the walked path |
| FileTree.EnterDir | src/icpilot_frontend/src/components/File/FileTree.jsx:20-22 | for a directory segment, the walk creates the directory object when it is missing and steps into it: the reference now reaches the path extended by that segment, and the tree is the one with every directory along that path ensured |
| FileTree.AddFile | src/icpilot_frontend/src/components/File/FileTree.jsx:9-25 | the per-file callback of the walk leaves the object store consistent and turns its tree into the tree with that file inserted at its directory segments |
| FileTree.BuildFileTree | src/icpilot_frontend/src/components/File/FileTree.jsx:6-28 | the imperative walk over mutable directory objects returns exactly the tree `Build` specifies |
| FileTree.ConstructorDirectoryLosesFile | src/icpilot_frontend/src/components/File/FileTree.jsx:21 | as written, a file named `constructor/notes.txt` leaves the tree empty, while the intended tree lists it under `constructor` and holds one file |
| FileTree.InsertAsWrittenAgrees | src/icpilot_frontend/src/components/File/FileTree.jsx:13-23 | with the lookup as written, walking one file in gives the intended tree whenever none of its directory segments is named like an inherited property |
| FileTree.BuildAsWrittenAgrees | src/icpilot_frontend/src/components/File/FileTree.jsx:6-28 | `buildFileTree` as written returns exactly the intended tree `Build` when no file has a directory segment named like an inherited property, so every property proved of `Build` holds of it there |
| Utils.ConvertBigIntValues | src/icpilot_frontend/src/utils/index.js:6-36 | the procedure, with its array mapping and its `for…in` loop, returns exactly `Convert` of its input; `src/icpilot_frontend/src/utils.js` lines 6-36 hold the same procedure |
| Utils.ConvertRepresents | src/icpilot_frontend/src/utils/index.js:11-18 | a safe-range BigInt becomes the Number of the same value, any other BigInt a text that reads back as the same integer; arrays keep length and positions, objects keep their keys in order, every other value is kept |
| Utils.ConvertNoBigInt | src/icpilot_frontend/src/utils/index.js:6-36 | no BigInt is left anywhere in the result |
| Utils.ConvertKeepsBigIntFree | src/icpilot_frontend/src/utils/index.js:7-9 | a value without BigInts is returned equal to itself |
| Utils.ConvertIdempotent | src/icpilot_frontend/src/utils/index.js:6-36 | converting an already converted value changes nothing |
| Utils.ConvertWellFormed | src/icpilot_frontend/src/utils/index.js:28-33 | objects with distinct keys stay objects with distinct keys |
| Utils.Put | src/icpilot_frontend/src/utils/index.js:31 | a key that the result object does not have yet, arriving in the source object's enumeration order, is appended at the end |
| Utils.FormatFileSize | src/icpilot_frontend/src/utils/index.js:43-50 | below 1024 the exact count followed by " bytes"; otherwise a KB, MB or GB unit whose quotient is at least 1 and, below GB, under 1024 |
| Utils.UnitMonotone | src/icpilot_frontend/src/utils/index.js:47-50 | a larger size never gets a smaller unit |
| UseFile.NumbersAreOccurrences | src/icpilot_frontend/src/hooks/useFile.js:122-130 | a value is extracted exactly when it is a Number somewhere inside the content; strings, booleans, BigInts, `null` and `undefined` contribute nothing |
| UseFile.NumbersOfItemsAppend | src/icpilot_frontend/src/hooks/useFile.js:126 | the items of an array are extracted one after the other, in order |
| UseFile.FlatArrayExtracted | src/icpilot_frontend/src/hooks/useFile.js:123-126 | a flat array of Numbers is extracted as the same sequence |
| UseFile.ScalarContributesNothing | src/icpilot_frontend/src/hooks/useFile.js:122-130 | removing a string, boolean, BigInt, `null` or `undefined` from an array leaves the extracted bytes unchanged |
| UseFile.ByteCollector.constructor | src/icpilot_frontend/src/hooks/useFile.js:119 | the byte list starts empty |
| UseFile.ByteCollector.ExtractBytes | src/icpilot_frontend/src/hooks/useFile.js:122-130 | the shared `bytes` list ends as its old contents followed by every Number of the value, depth first, left to right |
| UseFile.ToUint8 | src/icpilot_frontend/src/hooks/useFile.js:135 | each element becomes its truncation modulo 256, in [0, 255], and a whole number in [0, 255] is kept |
| UseFile.Uint8Array | src/icpilot_frontend/src/hooks/useFile.js:135 | the typed array has one byte in [0, 255] per extracted Number, each the element's ToUint8 conversion, and an array that already holds whole numbers in [0, 255] passes through unchanged |
| UseFile.UploadPath | src/icpilot_frontend/src/hooks/useFile.js:40 | the stored path is the directory-relative path, else the custom name, else the file's own name |
| UseFile.UploadContentType | src/icpilot_frontend/src/hooks/useFile.js:45 | an upload always sends a non-empty content type: the file's own, else `application/octet-stream` |
| UseFile.Find | src/icpilot_frontend/src/hooks/useFile.js:98 | a file is found exactly when some entry has the id, and it is the first such entry |
| UseFile.PreviewContentType | src/icpilot_frontend/src/hooks/useFile.js:113 | the preview's content type is the listed one, else `application/octet-stream`, never empty |
| UseFile.PreviewName | src/icpilot_frontend/src/hooks/useFile.js:116 | the preview's name is the listed one, else `Unknown File`, never empty |
| UseFile.DownloadName | src/icpilot_frontend/src/hooks/useFile.js:177-178 | a download is named after the listed file when the preview's id is still listed, else after the preview, else `download.file` |
| UseFile.DownloadNameOfOpenPreview | src/icpilot_frontend/src/hooks/useFile.js:177-178 | for a preview the hook opened, an unlisted id falls back to the preview's own non-empty name (`Unknown File` at worst) |
| UseFile.FileHook.constructor | src/icpilot_frontend/src/hooks/useFile.js:6-9 | the hook starts with no files, no preview, not loading and no message |
| UseFile.FileHook.FetchFiles | src/icpilot_frontend/src/hooks/useFile.js:11-19 | a successful answer replaces the list; a failure keeps it and sets the `Error fetching files: ` message |
| UseFile.FileHook.UploadFile | src/icpilot_frontend/src/hooks/useFile.js:21-73 | with no file, the message is `Please select a file to upload`, nothing is sent and loading is untouched; otherwise the request carries the chosen path, content type and bytes, each outcome sets its own message, only success refetches the list, and loading ends false |
| UseFile.FileHook.DeleteFile | src/icpilot_frontend/src/hooks/useFile.js:75-91 | each outcome sets its own message, only success refetches, and loading ends false |
| UseFile.View | src/icpilot_frontend/src/hooks/useFile.js:93-164 | the backend is asked exactly when the id is listed; exactly one of preview and message is set; an unlisted id reports `File not found in your files list`, a failed call `Error viewing file: ` with its error, a falsy answer `File content not found or empty`; a preview opens only for a truthy answer, holding the non-empty extracted bytes, the defaulted type and name of the listed file, and the id |
| UseFile.ViewOpensIffNumbers | src/icpilot_frontend/src/hooks/useFile.js:122-154 | for a listed file and a truthy answer, a preview opens exactly when a Number occurs somewhere in the answer; otherwise the message is `File content appears to be empty after processing` |
| UseFile.MakePreview | src/icpilot_frontend/src/hooks/useFile.js:110-138 | the preview carries the listed type and name with their defaults, never empty, the extracted Numbers converted to bytes in [0, 255], and the id |
| UseFile.FileHook.ViewFile | src/icpilot_frontend/src/hooks/useFile.js:93-164 | the hook's new state is what `View` specifies: the preview or the message it sets replaces the old one and the other is kept, the list is unchanged, and loading ends false |
| UseFile.FileHook.ShowContent | src/icpilot_frontend/src/hooks/useFile.js:106-157 | once the file is found, the answer is reported or the preview opened as `View` specifies for the listed metadata, with the list and the loading flag unchanged |
| UseFile.FileHook.CloseFilePreview | src/icpilot_frontend/src/hooks/useFile.js:166-171 | the preview is cleared and nothing else changes |
| UseFile.FileHook.DownloadFile | src/icpilot_frontend/src/hooks/useFile.js:173-205 | with no preview, the message is `No file content available for download`; otherwise the preview's bytes and type go out under `DownloadName`, and a preview whose id is no longer listed is saved under its own non-empty name, never under the `download.file` fallback |
| FilePreview.RenderSelected | src/icpilot_frontend/src/components/File/FilePreview.jsx:18-60 | a viewer is rendered exactly when its own test holds (the video and audio sources typed with the file's content type), and the download prompt exactly when none of the five tests holds; one section is rendered per test that holds, plus the prompt when none does |
| FilePreview.AtMostOneCategory | src/icpilot_frontend/src/components/File/FilePreview.jsx:4-8 | at most one of image, PDF, text, video and audio holds for any content type |
| FilePreview.ExactlyOneViewer | src/icpilot_frontend/src/components/File/FilePreview.jsx:19-60 | exactly one section is rendered for every content type |

## Left out

- The backend (`icpilot_backend`), the browser's `FileReader`, `Blob`, `URL.createObjectURL`/`revokeObjectURL`, DOM anchors and `setTimeout`. Their results are parameters or are not modelled; the object URL is not part of `Preview`.
- UseFile.FileHook.FetchFiles: it receives the list already converted and decoded into `FileEntry` values. Decoding the backend record into `FileEntry` is not modelled.
- UseFile.FileHook.DownloadFile: the `Error downloading file: ` path is not modelled. It needs a DOM operation to throw.
- UseFile.FileHook.ViewFile: an exception thrown while extracting bytes or building the blob is not modelled. Only a failing backend call leads to `Error viewing file: `.
- React rendering, state batching and `useCallback` dependencies. The awaits inside one operation are collapsed, so no interleaving of two operations is modelled.
- Numbers are finite reals. `NaN`, `Infinity` and the precision loss of IEEE doubles are not modelled. A safe-range BigInt converts to a Number of exactly the same value, as it does in the source.
- Utils.FormatFileSize: the text printed for a scaled size (`toFixed(1)` of a floating-point quotient) is not modelled. The model states the unit choice only.
- Class instances are not modelled in `convertBigIntValues` or `extractBytes`. This includes typed arrays and `Principal`. Objects are plain objects whose own enumerable properties come in enumeration order; inherited properties are skipped by both functions (`hasOwnProperty`, `Object.values`), so they are simply not part of the value.
- Utils.ConvertBigIntValues: it requires distinct keys in every object, which JavaScript objects always have. A key named `__proto__` is not modelled, because assigning it changes the prototype.
- The order in which `TreeNode` lists the directory entries is not modelled: `dirs` is a map. The rendering of `TreeNode` is left out, except for the displayed leaf name.
- Utils.Put: JavaScript enumerates array-index keys (`"0"`, `"1"`, …) before the others, whatever the order of assignment. The model appends every new key, which agrees with the source only because the keys arrive in the source object's enumeration order; that ordering rule is not modelled, and `Obj` values need not list their keys in a valid enumeration order.
- UseFile.DownloadName: when the listed file has no `metadata.name`, the source sets `a.download` to `undefined` and the browser saves the file as "undefined". The model has no absent name and returns the empty string there.
- FileTree.BuildFileTree: a file whose `metadata.name` is absent makes `buildFileTree` throw at `split`. The model has no absent name: such a name is the empty string, which places the file at the root with an empty display name.
- FileTree.InsertAsWritten: `__proto__` is not among the inherited names it models. Stepping into it would redirect the walk to `Object.prototype`.
- The remaining components (user profile, balance, canister list, tabs, message banner, upload form) are not part of this model.

## Findings

| source | as written | input that shows it | evidently intended | confidence | as-written member | corrected member |
|---|---|---|---|---|---|---|
| src/icpilot_frontend/src/components/File/FileTree.jsx:21 | `!currentLevel.dirs[part]` also sees properties every object inherits (`constructor`, `toString`, …), so no directory is created for such a segment, and the walk continues on the inherited built-in function | a single file named `constructor/notes.txt` | the file is listed under a directory `constructor`, like any other segment (an own-property test) | not executed | FileTree.ConstructorDirectoryLosesFile | FileTree.BuildFileTree |
