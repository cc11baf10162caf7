/**
 * The note viewer. Clicking a note opens its external link in a new tab when
 * it has one; otherwise it asks storage for a signed URL of the stored file
 * (valid for an hour) and opens a dialog that previews PDF, text and Markdown
 * files inline. The download button fetches the file and saves it under the
 * note's name.
 *
 * Whether storage answers is a parameter; the tabs opened, the signed-URL
 * requests and the downloads started are recorded so that "never touches
 * storage" can be stated.
 */
module FileViewer {
  import opened Basics
  import opened Text
  import UploadForm

  const SignedUrlSeconds := 3600
  const Previewable := ["pdf", "txt", "md"]

  /** `getFileExtension`: the text after the last '.', lower-cased (the whole path when it
      has no '.'). */
  function FileExtension(path: string): string {
    ToLower(AfterLast(path, '.'))
  }

  /** `canPreview` */
  predicate CanPreview(path: string) {
    FileExtension(path) in Previewable
  }

  /** The extension is read case-insensitively from the last dot on. */
  lemma ExtensionOfName(base: string, ext: string)
    requires '.' !in ext
    ensures FileExtension(base + "." + ext) == ToLower(ext)
    ensures CanPreview(base + "." + ext) <==> ToLower(ext) in Previewable
  {
    assert base + "." + ext == base + ['.'] + ext;
    AfterLastAppend(base, ext, '.');
  }

  /** Without a dot the whole path is the extension. */
  lemma ExtensionWithoutDot(path: string)
    requires '.' !in path
    ensures FileExtension(path) == ToLower(path)
  {
    AfterLastSpec(path, '.');
    assert Split(path, '.') == [path] by {
      SplitJoin([path], '.');
    }
  }

  /** A file stored by the upload form keeps the extension of the chosen file's name, so
      the viewer previews it exactly when that extension, in any letter case, is pdf, txt
      or md. */
  lemma StoredFilePreview(userId: string, now: nat, fileName: string)
    requires '/' !in userId
    ensures FileExtension(UploadForm.FilePath(userId, now, fileName)) == ToLower(AfterLast(fileName, '.'))
    ensures CanPreview(UploadForm.FilePath(userId, now, fileName)) <==> ToLower(AfterLast(fileName, '.')) in Previewable
  {
    UploadForm.FilePathShape(userId, now, fileName);
  }

  /** `fileName || 'download'` */
  function DownloadName(fileName: string): (r: string)
    ensures r != []
    ensures fileName != [] ==> r == fileName
  {
    if fileName != [] then fileName else "download"
  }

  /** The viewer's state and what it has done. */
  datatype ViewerState = ViewerState(
    isOpen: bool, fileUrl: Option<string>, isLoading: bool,
    tabs: seq<string>, signedRequests: seq<(string, int)>, downloads: seq<(string, string)>)

  /** `handleViewFile`; `signed` is storage's answer (None when it fails). */
  function ViewSpec(st: ViewerState, filePath: string, externalLink: Option<string>, signed: Option<string>): ViewerState {
    if Truthy(externalLink) then st.(tabs := st.tabs + [externalLink.value])
    else if filePath == "" then st
    else
      var asked := st.(signedRequests := st.signedRequests + [(filePath, SignedUrlSeconds)], isLoading := false);
      if signed.Some? then asked.(fileUrl := signed, isOpen := true) else asked
  }

  /** `handleDownload`; `ok` says whether the file could be fetched. */
  function DownloadSpec(st: ViewerState, filePath: string, fileName: string, externalLink: Option<string>, ok: bool): ViewerState {
    if Truthy(externalLink) then st.(tabs := st.tabs + [externalLink.value])
    else if filePath == "" || !ok then st
    else st.(downloads := st.downloads + [(filePath, DownloadName(fileName))])
  }

  /** With an external link, view and download open that link and nothing else: storage is
      not asked and nothing is downloaded. */
  lemma ExternalLinkNeverTouchesStorage(st: ViewerState, filePath: string, fileName: string, link: string, signed: Option<string>, ok: bool)
    requires link != ""
    ensures ViewSpec(st, filePath, Some(link), signed) == st.(tabs := st.tabs + [link])
    ensures DownloadSpec(st, filePath, fileName, Some(link), ok) == st.(tabs := st.tabs + [link])
  {
  }

  /** With neither a link nor a path, both handlers do nothing. */
  lemma NothingToShow(st: ViewerState, fileName: string, externalLink: Option<string>, signed: Option<string>, ok: bool)
    requires !Truthy(externalLink)
    ensures ViewSpec(st, "", externalLink, signed) == st
    ensures DownloadSpec(st, "", fileName, externalLink, ok) == st
  {
  }

  /** Every signed URL the viewer requests is for the stored path and lasts an hour, and
      the dialog opens only once a URL was obtained. */
  lemma SignedRequestsLastAnHour(st: ViewerState, filePath: string, externalLink: Option<string>, signed: Option<string>)
    requires forall i :: 0 <= i < |st.signedRequests| ==> st.signedRequests[i].1 == SignedUrlSeconds
    ensures var st' := ViewSpec(st, filePath, externalLink, signed);
      (forall i :: 0 <= i < |st'.signedRequests| ==> st'.signedRequests[i].1 == SignedUrlSeconds)
      && (|st'.signedRequests| > |st.signedRequests| ==> st'.signedRequests[|st.signedRequests|].0 == filePath && filePath != "")
      && (st'.isOpen && !st.isOpen ==> signed.Some? && st'.fileUrl == signed)
      && (|st'.signedRequests| > |st.signedRequests| ==> !st'.isLoading)
  {
  }

  /** What the dialog's body shows. */
  datatype Pane = Spinner | Preview(url: string) | NoPreview | ExternalResource | Blank

  function PaneOf(isLoading: bool, fileUrl: Option<string>, filePath: string, externalLink: Option<string>): (p: Pane)
    ensures p.Preview? <==> !isLoading && Truthy(fileUrl) && CanPreview(filePath)
    ensures p.Preview? ==> p.url == fileUrl.value
    ensures p.NoPreview? <==> !isLoading && Truthy(fileUrl) && !CanPreview(filePath)
  {
    if isLoading then Spinner
    else if Truthy(fileUrl) && CanPreview(filePath) then Preview(fileUrl.value)
    else if Truthy(fileUrl) then NoPreview
    else if Truthy(externalLink) then ExternalResource
    else Blank
  }

  /** The component, with its props as constants. */
  class Viewer {
    const filePath: string
    const fileName: string
    const externalLink: Option<string>
    var isOpen: bool
    var fileUrl: Option<string>
    var isLoading: bool
    var tabs: seq<string>
    var signedRequests: seq<(string, int)>
    var downloads: seq<(string, string)>

    function State(): ViewerState
      reads this
    {
      ViewerState(isOpen, fileUrl, isLoading, tabs, signedRequests, downloads)
    }

    constructor (filePath: string, fileName: string, externalLink: Option<string>)
      ensures this.filePath == filePath && this.fileName == fileName && this.externalLink == externalLink
      ensures State() == ViewerState(false, None, false, [], [], [])
    {
      this.filePath := filePath;
      this.fileName := fileName;
      this.externalLink := externalLink;
      isOpen := false;
      fileUrl := None;
      isLoading := false;
      tabs := [];
      signedRequests := [];
      downloads := [];
    }

    method HandleViewFile(signed: Option<string>)
      modifies this
      ensures State() == ViewSpec(old(State()), filePath, externalLink, signed)
    {
      if externalLink.Some? && externalLink.value != "" {
        tabs := tabs + [externalLink.value];
        return;
      }
      if filePath == "" {
        return;
      }
      isLoading := true;
      signedRequests := signedRequests + [(filePath, SignedUrlSeconds)];
      if signed.Some? {
        fileUrl := signed;
        isOpen := true;
      }
      isLoading := false;
    }

    method HandleDownload(ok: bool)
      modifies this
      ensures State() == DownloadSpec(old(State()), filePath, fileName, externalLink, ok)
    {
      if externalLink.Some? && externalLink.value != "" {
        tabs := tabs + [externalLink.value];
        return;
      }
      if filePath == "" {
        return;
      }
      if ok {
        downloads := downloads + [(filePath, DownloadName(fileName))];
      }
    }
  }
}
