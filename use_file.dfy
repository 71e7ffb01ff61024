/**
 * The file hook (hooks/useFile.js): the state the file pages show (file
 * list, open preview, loading flag, message) and the operations that update
 * it around the backend's answers.
 *
 * Each backend call and each browser file read is a parameter: the method
 * receives the answer the awaited call produced and sets the state the
 * source leaves behind once its `finally` block has run.
 */
module UseFile {

  import opened Wrappers
  import opened JsString
  import opened JsValue
  import opened FileRecord

  // ---------------------------------------------------------------------
  // extractBytes: every Number in a nested value, depth first, left to right

  /** The Numbers of `v` in the order `extractBytes` pushes them: arrays by
      index, objects in `Object.values` order. */
  function Numbers(v: Value): seq<real>
    decreases v
  {
    match v
    case Num(x) => [x]
    case Arr(items) => NumbersOfItems(items)
    case Obj(fields) => NumbersOfFields(fields)
    case _ => []
  }

  function NumbersOfItems(items: seq<Value>): seq<real>
    decreases items
  {
    if items == [] then []
    else NumbersOfItems(items[..|items| - 1]) + Numbers(items[|items| - 1])
  }

  function NumbersOfFields(fields: seq<Field>): seq<real>
    decreases fields
  {
    if fields == [] then []
    else NumbersOfFields(fields[..|fields| - 1]) + Numbers(fields[|fields| - 1].val)
  }

  /** `x` is a Number found somewhere inside `v`. */
  ghost predicate Occurs(x: real, v: Value)
    decreases v
  {
    match v
    case Num(y) => x == y
    case Arr(items) => exists i :: 0 <= i < |items| && Occurs(x, items[i])
    case Obj(fields) => exists i :: 0 <= i < |fields| && Occurs(x, fields[i].val)
    case _ => false
  }

  /** The extracted sequence holds exactly the Numbers found in the value:
      strings, booleans, BigInts, `null` and `undefined` add nothing. */
  lemma {:induction false} NumbersAreOccurrences(v: Value, x: real)
    ensures x in Numbers(v) <==> Occurs(x, v)
    decreases v, 1
  {
    match v
    case Arr(items) => ItemsOccurrences(items, x);
    case Obj(fields) => FieldsOccurrences(fields, x);
    case _ =>
  }

  lemma {:induction false} ItemsOccurrences(items: seq<Value>, x: real)
    ensures x in NumbersOfItems(items) <==> exists i :: 0 <= i < |items| && Occurs(x, items[i])
    decreases items, 0
  {
    if items != [] {
      var init, last := items[..|items| - 1], items[|items| - 1];
      assert NumbersOfItems(items) == NumbersOfItems(init) + Numbers(last);
      ItemsOccurrences(init, x);
      NumbersAreOccurrences(last, x);
      if exists i :: 0 <= i < |items| && Occurs(x, items[i]) {
        var i :| 0 <= i < |items| && Occurs(x, items[i]);
        if i < |init| {
          assert init[i] == items[i];
        }
      }
    }
  }

  lemma {:induction false} FieldsOccurrences(fields: seq<Field>, x: real)
    ensures x in NumbersOfFields(fields) <==> exists i :: 0 <= i < |fields| && Occurs(x, fields[i].val)
    decreases fields, 0
  {
    if fields != [] {
      var init, last := fields[..|fields| - 1], fields[|fields| - 1];
      assert NumbersOfFields(fields) == NumbersOfFields(init) + Numbers(last.val);
      FieldsOccurrences(init, x);
      NumbersAreOccurrences(last.val, x);
      if exists i :: 0 <= i < |fields| && Occurs(x, fields[i].val) {
        var i :| 0 <= i < |fields| && Occurs(x, fields[i].val);
        if i < |init| {
          assert init[i] == fields[i];
        }
      }
    }
  }

  /** The items of an array are extracted one after the other. */
  lemma {:induction false} NumbersOfItemsAppend(a: seq<Value>, b: seq<Value>)
    ensures NumbersOfItems(a + b) == NumbersOfItems(a) + NumbersOfItems(b)
    decreases |b|
  {
    if b == [] {
      assert a + b == a;
    } else {
      var b', x := b[..|b| - 1], b[|b| - 1];
      var ab := a + b;
      assert ab[..|ab| - 1] == a + b' && ab[|ab| - 1] == x;
      assert NumbersOfItems(ab) == NumbersOfItems(a + b') + Numbers(x);
      assert NumbersOfItems(b) == NumbersOfItems(b') + Numbers(x);
      NumbersOfItemsAppend(a, b');
    }
  }

  /** A flat array of Numbers is extracted as the same sequence. */
  lemma {:induction false} FlatArrayExtracted(items: seq<Value>)
    requires forall i :: 0 <= i < |items| ==> items[i].Num?
    ensures Numbers(Arr(items)) == seq(|items|, i requires 0 <= i < |items| => items[i].x)
    decreases |items|
  {
    if items != [] {
      var init := items[..|items| - 1];
      FlatArrayExtracted(init);
      assert Numbers(items[|items| - 1]) == [items[|items| - 1].x];
      assert Numbers(Arr(items)) == Numbers(Arr(init)) + [items[|items| - 1].x];
      assert seq(|items|, i requires 0 <= i < |items| => items[i].x)
          == seq(|init|, i requires 0 <= i < |init| => init[i].x) + [items[|items| - 1].x];
    }
  }

  /** Removing an element that is not a Number, an array or an object from an
      array leaves the extracted sequence unchanged. */
  lemma ScalarContributesNothing(a: seq<Value>, p: Value, b: seq<Value>)
    requires !p.Num? && !p.Arr? && !p.Obj?
    ensures Numbers(Arr(a + [p] + b)) == Numbers(Arr(a + b))
  {
    NumbersOfItemsAppend(a + [p], b);
    NumbersOfItemsAppend(a, [p]);
    NumbersOfItemsAppend(a, b);
    assert [p][..0] == [];
  }

  /** The `bytes` array `extractBytes` pushes onto. */
  class ByteCollector {
    var bytes: seq<real>

    constructor ()
      ensures bytes == []
    {
      bytes := [];
    }

    /** `extractBytes(obj)`: push a Number, recurse into the items of an
        array and the values of an object, ignore anything else. */
    method ExtractBytes(obj: Value)
      modifies this
      ensures bytes == old(bytes) + Numbers(obj)
      decreases obj
    {
      match obj {
        case Num(x) =>
          bytes := bytes + [x];
        case Arr(items) =>
          for i := 0 to |items|
            invariant bytes == old(bytes) + NumbersOfItems(items[..i])
          {
            ExtractBytes(items[i]);
            assert items[..i + 1][..i] == items[..i];
          }
          assert items[..|items|] == items;
        case Obj(fields) =>
          for i := 0 to |fields|
            invariant bytes == old(bytes) + NumbersOfFields(fields[..i])
          {
            ExtractBytes(fields[i].val);
            assert fields[..i + 1][..i] == fields[..i];
          }
          assert fields[..|fields|] == fields;
        case _ =>
      }
    }
  }

  /** ToIntegerOrInfinity on a finite Number: drop the fraction. */
  function Truncate(x: real): int
  {
    if x >= 0.0 then x.Floor else -((-x).Floor)
  }

  /** The element conversion of `new Uint8Array(bytes)`: truncate, then wrap
      modulo 256. A whole number in [0, 255] is kept as it is. */
  function ToUint8(x: real): (b: int)
    ensures 0 <= b < 256
    ensures x == x.Floor as real && 0.0 <= x < 256.0 ==> b == x.Floor
    ensures b == Truncate(x) % 256
  {
    Truncate(x) % 256
  }

  /** `new Uint8Array(bytes)`: one byte per element, each in [0, 255]; an
      array that already holds bytes passes through unchanged. */
  function Uint8Array(xs: seq<real>): (data: seq<int>)
    ensures |data| == |xs|
    ensures forall i :: 0 <= i < |xs| ==> data[i] == ToUint8(xs[i])
    ensures forall i :: 0 <= i < |data| ==> 0 <= data[i] < 256
    ensures (forall i :: 0 <= i < |xs| ==> xs[i] == xs[i].Floor as real && 0.0 <= xs[i] < 256.0) ==>
              forall i :: 0 <= i < |xs| ==> data[i] as real == xs[i]
  {
    seq(|xs|, i requires 0 <= i < |xs| => ToUint8(xs[i]))
  }

  // ---------------------------------------------------------------------
  // Selection and defaulting rules

  /** A file picked in the browser: name, MIME type, the path relative to a
      picked directory ("" when a single file was picked) and its bytes. */
  datatype LocalFile = LocalFile(name: string, mimeType: string, relativePath: string, content: seq<int>)

  /** The arguments of the backend's `uploadFile`. */
  datatype UploadRequest = UploadRequest(path: string, contentType: string, bytes: seq<int>)

  /** The stored path: the path inside a picked directory, else the custom
      name the user typed, else the file's own name. */
  function UploadPath(file: LocalFile, customFileName: string): (path: string)
    ensures file.relativePath != "" ==> path == file.relativePath
    ensures file.relativePath == "" && customFileName != "" ==> path == customFileName
    ensures file.relativePath == "" && customFileName == "" ==> path == file.name
  {
    var cands := [file.relativePath, customFileName, file.name];
    assert cands[0] == file.relativePath && cands[1] == customFileName && cands[2] == file.name;
    FirstNonEmpty(cands)
  }

  /** A content type is always sent: the file's own, or the generic binary type. */
  function UploadContentType(file: LocalFile): (t: string)
    ensures t != ""
    ensures file.mimeType != "" ==> t == file.mimeType
    ensures file.mimeType == "" ==> t == "application/octet-stream"
  {
    FirstNonEmpty([file.mimeType, "application/octet-stream"])
  }

  /** The preview's content type: the listed one, or the generic binary type. */
  function PreviewContentType(md: Metadata): (t: string)
    ensures t != ""
    ensures md.contentType != "" ==> t == md.contentType
    ensures md.contentType == "" ==> t == "application/octet-stream"
  {
    FirstNonEmpty([md.contentType, "application/octet-stream"])
  }

  /** The preview's name: the listed one, or "Unknown File". */
  function PreviewName(md: Metadata): (name: string)
    ensures name != ""
    ensures md.name != "" ==> name == md.name
    ensures md.name == "" ==> name == "Unknown File"
  {
    FirstNonEmpty([md.name, "Unknown File"])
  }

  /** `files.find(f => f.id === id)`: the first entry with that id. */
  function Find(files: seq<FileEntry>, id: int): (r: Option<FileEntry>)
    ensures r.Some? <==> exists i :: 0 <= i < |files| && files[i].id == id
    ensures r.Some? ==> exists i :: 0 <= i < |files| && files[i] == r.value && r.value.id == id
                                    && forall j :: 0 <= j < i ==> files[j].id != id
  {
    if files == [] then None
    else if files[0].id == id then Some(files[0])
    else
      var r := Find(files[1..], id);
      if r.Some? then
        ghost var i :| 0 <= i < |files[1..]| && files[1..][i] == r.value && r.value.id == id
                       && forall j :: 0 <= j < i ==> files[1..][j].id != id;
        assert files[i + 1] == r.value;
        r
      else r
  }

  // ---------------------------------------------------------------------
  // The hook's state

  datatype MessageKind = Error | Success

  datatype Message = Message(kind: MessageKind, text: string)

  /** The open preview: the blob's bytes and type, the shown name and the id
      it was opened for (the object URL is not modelled). */
  datatype Preview = Preview(contentType: string, name: string, data: seq<int>, fileId: int)

  /** What a download hands to the browser: the file name and the blob. */
  datatype Download = Download(fileName: string, data: seq<int>, contentType: string)

  /** How an upload ended after the user picked a file. */
  datatype UploadOutcome =
    | SetupFailed(error: string)     // starting the read threw
    | ReadFailed                     // the browser could not read the file
    | Uploaded                       // the backend answered `ok`
    | UploadRejected(err: string)    // the backend answered `err`
    | UploadFailed(error: string)    // the backend call threw

  /** How a delete ended. */
  datatype DeleteOutcome = Deleted | DeleteRejected(err: string) | DeleteFailed(error: string)

  /** The backend's answer to `getFileContent`. */
  datatype ContentAnswer = Content(content: Value) | ContentFailed(error: string)

  /** The name a download is saved under: the listed file's name when the
      preview's id is still listed, else the preview's name, else
      "download.file". */
  function DownloadName(files: seq<FileEntry>, preview: Preview): (name: string)
    ensures Find(files, preview.fileId).Some? ==> name == Find(files, preview.fileId).value.metadata.name
    ensures Find(files, preview.fileId).None? && preview.name != "" ==> name == preview.name
    ensures Find(files, preview.fileId).None? && preview.name == "" ==> name == "download.file"
  {
    match Find(files, preview.fileId)
    case Some(file) => file.metadata.name
    case None => FirstNonEmpty([preview.name, "download.file"])
  }

  /** The preview `viewFile` builds from a truthy answer: the listed type
      and name with their defaults, and the bytes `extractBytes` collects,
      as a `Uint8Array`. */
  method MakePreview(md: Metadata, content: Value, fileId: int) returns (preview: Preview)
    ensures preview.contentType == PreviewContentType(md) && preview.name == PreviewName(md)
    ensures preview.data == Uint8Array(Numbers(content)) && preview.fileId == fileId
    ensures preview.contentType != "" && preview.name != ""
    ensures forall i :: 0 <= i < |preview.data| ==> 0 <= preview.data[i] < 256
  {
    var contentType := PreviewContentType(md);
    var fileName := PreviewName(md);
    var collector := new ByteCollector();
    collector.ExtractBytes(content);
    assert collector.bytes == Numbers(content);
    preview := Preview(contentType, fileName, Uint8Array(collector.bytes), fileId);
  }

  /** What `viewFile` ends with: whether it asked the backend for the
      content, the preview it opens and the message it sets. */
  datatype ViewResult = ViewResult(requested: bool, preview: Option<Preview>, message: Option<Message>)

  /** `viewFile(fileId)` given the backend's answer: an id missing from the
      list is reported without asking the backend; otherwise a failed call,
      a falsy answer and an answer without bytes are each reported, and any
      other answer opens a preview. Exactly one of preview and message is set. */
  function View(files: seq<FileEntry>, fileId: int, answer: ContentAnswer): (r: ViewResult)
    ensures r.requested <==> Find(files, fileId).Some?
    ensures r.preview.Some? <==> r.message.None?
    ensures !r.requested ==> r.message == Some(Message(Error, "File not found in your files list"))
    ensures r.requested && answer.ContentFailed? ==>
              r.message == Some(Message(Error, "Error viewing file: " + answer.error))
    ensures r.requested && answer.Content? && !Truthy(answer.content) ==>
              r.message == Some(Message(Error, "File content not found or empty"))
    ensures r.preview.Some? ==>
              && r.requested && answer.Content? && Truthy(answer.content)
              && r.preview.value.data == Uint8Array(Numbers(answer.content))
              && |r.preview.value.data| > 0
              && r.preview.value.contentType == PreviewContentType(Find(files, fileId).value.metadata)
              && r.preview.value.name == PreviewName(Find(files, fileId).value.metadata)
              && r.preview.value.fileId == fileId
  {
    match Find(files, fileId)
    case None => ViewResult(false, None, Some(Message(Error, "File not found in your files list")))
    case Some(file) => ViewAnswer(file.metadata, fileId, answer)
  }

  /** The part of `viewFile` after the lookup, for the listed metadata. */
  function ViewAnswer(md: Metadata, fileId: int, answer: ContentAnswer): ViewResult
  {
    match answer
    case ContentFailed(e) => ViewResult(true, None, Some(Message(Error, "Error viewing file: " + e)))
    case Content(content) =>
      if !Truthy(content) then ViewResult(true, None, Some(Message(Error, "File content not found or empty")))
      else
        var data := Uint8Array(Numbers(content));
        if |data| > 0 then
          ViewResult(true, Some(Preview(PreviewContentType(md), PreviewName(md), data, fileId)), None)
        else
          ViewResult(true, None, Some(Message(Error, "File content appears to be empty after processing")))
  }

  /** For a listed file and a truthy answer, a preview opens exactly when
      the answer holds a Number somewhere; otherwise the answer is reported
      as empty after processing. */
  lemma ViewOpensIffNumbers(files: seq<FileEntry>, fileId: int, content: Value)
    requires Find(files, fileId).Some? && Truthy(content)
    ensures View(files, fileId, Content(content)).preview.Some? <==> exists x :: Occurs(x, content)
    ensures View(files, fileId, Content(content)).preview.None? ==>
              View(files, fileId, Content(content)).message
                == Some(Message(Error, "File content appears to be empty after processing"))
  {
    var ns := Numbers(content);
    if exists x :: Occurs(x, content) {
      var x :| Occurs(x, content);
      NumbersAreOccurrences(content, x);
    } else if |ns| > 0 {
      NumbersAreOccurrences(content, ns[0]);
    }
  }

  class FileHook {
    var files: seq<FileEntry>
    var fileContent: Option<Preview>
    var loading: bool
    var message: Option<Message>

    /** A preview always has a content type, a name and at least one byte. */
    ghost predicate Valid()
      reads this
    {
      fileContent.Some? ==>
        && fileContent.value.contentType != ""
        && fileContent.value.name != ""
        && |fileContent.value.data| > 0
        && forall i :: 0 <= i < |fileContent.value.data| ==> 0 <= fileContent.value.data[i] < 256
    }

    constructor ()
      ensures Valid()
      ensures files == [] && fileContent == None && !loading && message == None
    {
      files := [];
      fileContent := None;
      loading := false;
      message := None;
    }

    /** `fetchFiles`, given the backend's list (already BigInt-converted) or its error. */
    method FetchFiles(answer: Result<seq<FileEntry>, string>)
      requires Valid()
      modifies this
      ensures Valid()
      ensures fileContent == old(fileContent) && loading == old(loading)
      ensures answer.Ok? ==> files == answer.value && message == old(message)
      ensures answer.Err? ==> files == old(files)
                              && message == Some(Message(Error, "Error fetching files: " + answer.error))
    {
      match answer {
        case Ok(list) =>
          files := list;
        case Err(e) =>
          message := Some(Message(Error, "Error fetching files: " + e));
      }
    }

    /** `uploadFile(file, customFileName)`: returns the request sent to the
        backend, if any, and whether the list is fetched again. */
    method UploadFile(file: Option<LocalFile>, customFileName: string, outcome: UploadOutcome)
      returns (request: Option<UploadRequest>, refetch: bool)
      requires Valid()
      modifies this
      ensures Valid()
      ensures files == old(files) && fileContent == old(fileContent)
      ensures file.None? ==> && request == None && !refetch
                             && loading == old(loading)
                             && message == Some(Message(Error, "Please select a file to upload"))
      ensures file.Some? ==> !loading
      ensures request.Some? <==> file.Some? && (outcome.Uploaded? || outcome.UploadRejected? || outcome.UploadFailed?)
      ensures request.Some? ==> request.value == UploadRequest(UploadPath(file.value, customFileName),
                                                               UploadContentType(file.value),
                                                               file.value.content)
      ensures refetch <==> file.Some? && outcome.Uploaded?
      ensures file.Some? ==> message == Some(
        match outcome
        case SetupFailed(e) => Message(Error, "Error: " + e)
        case ReadFailed => Message(Error, "Error reading file")
        case Uploaded => Message(Success, "Successfully uploaded file: " + FirstNonEmpty([customFileName, file.value.name]))
        case UploadRejected(err) => Message(Error, "Failed to upload file: " + err)
        case UploadFailed(e) => Message(Error, "Error uploading file: " + e))
    {
      request, refetch := None, false;
      if file.None? {
        message := Some(Message(Error, "Please select a file to upload"));
        return;
      }
      var f := file.value;
      loading := true;
      message := None;
      if outcome.SetupFailed? {
        message := Some(Message(Error, "Error: " + outcome.error));
      } else if outcome.ReadFailed? {
        message := Some(Message(Error, "Error reading file"));
      } else {
        request := Some(UploadRequest(UploadPath(f, customFileName), UploadContentType(f), f.content));
        match outcome {
          case Uploaded =>
            message := Some(Message(Success, "Successfully uploaded file: " + FirstNonEmpty([customFileName, f.name])));
            refetch := true;
          case UploadRejected(err) =>
            message := Some(Message(Error, "Failed to upload file: " + err));
          case UploadFailed(e) =>
            message := Some(Message(Error, "Error uploading file: " + e));
        }
      }
      loading := false;
    }

    /** `deleteFile(fileId)`: returns whether the list is fetched again. */
    method DeleteFile(fileId: int, outcome: DeleteOutcome) returns (refetch: bool)
      requires Valid()
      modifies this
      ensures Valid()
      ensures files == old(files) && fileContent == old(fileContent) && !loading
      ensures refetch <==> outcome.Deleted?
      ensures message == Some(
        match outcome
        case Deleted => Message(Success, "File deleted successfully")
        case DeleteRejected(err) => Message(Error, "Failed to delete file: " + err)
        case DeleteFailed(e) => Message(Error, "Error deleting file: " + e))
    {
      loading := true;
      refetch := false;
      match outcome {
        case Deleted =>
          message := Some(Message(Success, "File deleted successfully"));
          refetch := true;
        case DeleteRejected(err) =>
          message := Some(Message(Error, "Failed to delete file: " + err));
        case DeleteFailed(e) =>
          message := Some(Message(Error, "Error deleting file: " + e));
      }
      loading := false;
    }

    /** `viewFile(fileId)`: the state `View` describes, with loading ended. */
    method ViewFile(fileId: int, answer: ContentAnswer) returns (requested: bool)
      requires Valid()
      modifies this
      ensures Valid()
      ensures files == old(files) && !loading
      ensures requested == View(files, fileId, answer).requested
      ensures fileContent == if View(files, fileId, answer).preview.Some?
                             then View(files, fileId, answer).preview else old(fileContent)
      ensures message == if View(files, fileId, answer).message.Some?
                         then View(files, fileId, answer).message else old(message)
    {
      loading := true;
      var file := Find(files, fileId);
      if file.None? {
        message := Some(Message(Error, "File not found in your files list"));
        loading := false;
        return false;
      }
      requested := true;
      ShowContent(file.value.metadata, fileId, answer);
      loading := false;
    }

    /** The body of `viewFile` once the file was found: report the answer
        or open the preview. */
    method ShowContent(md: Metadata, fileId: int, answer: ContentAnswer)
      requires Valid()
      modifies this
      ensures Valid()
      ensures files == old(files) && loading == old(loading)
      ensures fileContent == if ViewAnswer(md, fileId, answer).preview.Some?
                             then ViewAnswer(md, fileId, answer).preview else old(fileContent)
      ensures message == if ViewAnswer(md, fileId, answer).message.Some?
                         then ViewAnswer(md, fileId, answer).message else old(message)
    {
      match answer {
        case ContentFailed(e) =>
          message := Some(Message(Error, "Error viewing file: " + e));
        case Content(content) =>
          if Truthy(content) {
            var preview := MakePreview(md, content, fileId);
            if |preview.data| > 0 {
              fileContent := Some(preview);
            } else {
              message := Some(Message(Error, "File content appears to be empty after processing"));
            }
          } else {
            message := Some(Message(Error, "File content not found or empty"));
          }
      }
    }

    /** `closeFilePreview`. */
    method CloseFilePreview()
      requires Valid()
      modifies this
      ensures Valid()
      ensures fileContent == None
      ensures files == old(files) && loading == old(loading) && message == old(message)
    {
      fileContent := None;
    }

    /** `downloadFile`: hands the open preview's blob to the browser under
        the chosen name, or reports that nothing is open. A preview whose id
        is no longer listed is saved under its own name, which the hook's
        invariant keeps non-empty, so `download.file` is never chosen. */
    method DownloadFile() returns (download: Option<Download>)
      requires Valid()
      modifies this
      ensures Valid()
      ensures files == old(files) && fileContent == old(fileContent) && loading == old(loading)
      ensures old(fileContent).None? ==> && download == None
                                          && message == Some(Message(Error, "No file content available for download"))
      ensures old(fileContent).Some? ==> && message == old(message)
                                          && download == Some(Download(DownloadName(files, fileContent.value),
                                                                       fileContent.value.data,
                                                                       fileContent.value.contentType))
      ensures old(fileContent).Some? && Find(files, fileContent.value.fileId).None? ==>
                download.value.fileName == fileContent.value.name && download.value.fileName != ""
    {
      if fileContent.None? {
        message := Some(Message(Error, "No file content available for download"));
        return None;
      }
      var content := fileContent.value;
      var file := Find(files, content.fileId);
      var fileName := if file.Some? then file.value.metadata.name else FirstNonEmpty([content.name, "download.file"]);
      download := Some(Download(fileName, content.data, content.contentType));
    }
  }

  /** A preview the hook opened always has a name, so a download whose id is
      no longer listed is saved under the preview's name and the
      "download.file" fallback is never used. */
  lemma DownloadNameOfOpenPreview(files: seq<FileEntry>, md: Metadata, data: seq<int>, fileId: int)
    ensures var preview := Preview(PreviewContentType(md), PreviewName(md), data, fileId);
            var name := DownloadName(files, preview);
            && (Find(files, fileId).None? ==> name == PreviewName(md) && name != "")
            && (Find(files, fileId).None? && md.name == "" ==> name == "Unknown File")
  {
  }
}
