/**
 * The preview overlay (components/File/FilePreview.jsx): which viewer is
 * rendered for an open file, decided by its content type alone.
 */
module FilePreview {

  import opened JsString

  predicate IsImage(contentType: string) { StartsWith(contentType, "image/") }
  predicate IsPdf(contentType: string) { contentType == "application/pdf" }
  predicate IsText(contentType: string) { StartsWith(contentType, "text/") }
  predicate IsVideo(contentType: string) { StartsWith(contentType, "video/") }
  predicate IsAudio(contentType: string) { StartsWith(contentType, "audio/") }

  /** The sections the content area may show; video and audio pass the
      content type on to their `<source>` element. */
  datatype Viewer =
    | ImageView
    | PdfFrame
    | TextFrame
    | VideoPlayer(sourceType: string)
    | AudioPlayer(sourceType: string)
    | DownloadPrompt

  /** The five tests the component evaluates once per render. */
  datatype Tests = Tests(isImage: bool, isPdf: bool, isText: bool, isVideo: bool, isAudio: bool)

  function Classify(contentType: string): Tests
  {
    Tests(IsImage(contentType), IsPdf(contentType), IsText(contentType),
          IsVideo(contentType), IsAudio(contentType))
  }

  /** None of the five tests holds: the file cannot be shown in place. */
  predicate NotPreviewable(t: Tests)
  {
    !t.isImage && !t.isPdf && !t.isText && !t.isVideo && !t.isAudio
  }

  /** How many of the five tests hold. */
  function Count(t: Tests): nat
  {
    (if t.isImage then 1 else 0) + (if t.isPdf then 1 else 0) + (if t.isText then 1 else 0)
    + (if t.isVideo then 1 else 0) + (if t.isAudio then 1 else 0)
  }

  /** `{shown && (<v/>)}` followed by the elements after it. */
  function Part(shown: bool, v: Viewer, rest: seq<Viewer>): seq<Viewer>
  {
    (if shown then [v] else []) + rest
  }

  lemma PartIn(shown: bool, v: Viewer, rest: seq<Viewer>, w: Viewer)
    ensures w in Part(shown, v, rest) <==> (shown && w == v) || w in rest
    ensures |Part(shown, v, rest)| == (if shown then 1 else 0) + |rest|
  {
  }

  /** The content area's children in document order for the given test
      results: each viewer whose test holds, then the download prompt when
      none of them does. */
  function Render(t: Tests, contentType: string): seq<Viewer>
  {
    Part(t.isImage, ImageView,
    Part(t.isPdf, PdfFrame,
    Part(t.isText, TextFrame,
    Part(t.isVideo, VideoPlayer(contentType),
    Part(t.isAudio, AudioPlayer(contentType),
    Part(NotPreviewable(t), DownloadPrompt, []))))))
  }

  /** Whether the component's JSX asks for viewer `v`: each viewer under its
      own test, the sources typed with the file's content type, and the
      download prompt when no test holds. */
  predicate Selected(t: Tests, contentType: string, v: Viewer)
  {
    match v
    case ImageView => t.isImage
    case PdfFrame => t.isPdf
    case TextFrame => t.isText
    case VideoPlayer(sourceType) => t.isVideo && sourceType == contentType
    case AudioPlayer(sourceType) => t.isAudio && sourceType == contentType
    case DownloadPrompt => NotPreviewable(t)
  }

  /** A viewer is rendered exactly when it is selected, and one element is
      rendered per test that holds, plus the prompt when none does. */
  lemma {:induction false} RenderSelected(t: Tests, contentType: string, v: Viewer)
    ensures v in Render(t, contentType) <==> Selected(t, contentType, v)
    ensures |Render(t, contentType)| == Count(t) + (if NotPreviewable(t) then 1 else 0)
  {
    var ct := contentType;
    var prompt := Part(NotPreviewable(t), DownloadPrompt, []);
    var audio := Part(t.isAudio, AudioPlayer(ct), prompt);
    var video := Part(t.isVideo, VideoPlayer(ct), audio);
    var text := Part(t.isText, TextFrame, video);
    var pdf := Part(t.isPdf, PdfFrame, text);
    PartIn(NotPreviewable(t), DownloadPrompt, [], v);
    PartIn(t.isAudio, AudioPlayer(ct), prompt, v);
    PartIn(t.isVideo, VideoPlayer(ct), audio, v);
    PartIn(t.isText, TextFrame, video, v);
    PartIn(t.isPdf, PdfFrame, text, v);
    PartIn(t.isImage, ImageView, pdf, v);
  }

  /** What the preview overlay shows for a content type. */
  function Viewers(contentType: string): seq<Viewer>
  {
    Render(Classify(contentType), contentType)
  }

  /** Two prefixes that differ at a position both reach cannot both start
      the same string. */
  lemma DistinctPrefixes(s: string, p: string, q: string, k: nat)
    requires k < |p| && k < |q| && p[k] != q[k]
    requires StartsWith(s, p)
    ensures !StartsWith(s, q)
  {
    assert s[k] == p[k];
  }

  /** The five tests are mutually exclusive: a content type is at most one
      of image, PDF, text, video and audio. */
  lemma {:induction false} AtMostOneCategory(contentType: string)
    ensures Count(Classify(contentType)) <= 1
  {
    var ct := contentType;
    if IsImage(ct) {
      DistinctPrefixes(ct, "image/", "text/", 0);
      DistinctPrefixes(ct, "image/", "video/", 0);
      DistinctPrefixes(ct, "image/", "audio/", 0);
      DistinctPrefixes(ct, "image/", "application/pdf", 0);
    } else if IsText(ct) {
      DistinctPrefixes(ct, "text/", "video/", 0);
      DistinctPrefixes(ct, "text/", "audio/", 0);
      DistinctPrefixes(ct, "text/", "application/pdf", 0);
    } else if IsVideo(ct) {
      DistinctPrefixes(ct, "video/", "audio/", 0);
      DistinctPrefixes(ct, "video/", "application/pdf", 0);
    } else if IsAudio(ct) {
      DistinctPrefixes(ct, "audio/", "application/pdf", 1);
    }
  }

  /** Exactly one section is rendered for every content type: the matching
      viewer, or the download prompt when nothing matches. */
  lemma ExactlyOneViewer(contentType: string)
    ensures |Viewers(contentType)| == 1
  {
    AtMostOneCategory(contentType);
    RenderSelected(Classify(contentType), contentType, DownloadPrompt);
  }
}
