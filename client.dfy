/**
 * The browser script: which chosen files become the selection, what a drop
 * containing a folder does, how a batch answer updates the page, the totals
 * it shows, and the name a downloaded image is saved under. The page's
 * closure variables `selectedFiles` and `processingResults` and the process
 * button's `disabled` flag are the fields of `Page`; `fetch`, the server's
 * answer and the DOM are outside the model.
 */
module Client {
  import opened Wrappers
  import opened Strings
  import Paths
  import Server

  /** The client-side size limit: 50 MiB, inclusive. */
  const MaxSelectableSize: nat := 50 * 1024 * 1024
  const ImagePrefix: string := "image/"
  const DownloadSuffix: string := "-enhanced.jpg"
  const SelectionAlert: string := "Please select valid image files (JPG, PNG, WebP, etc.) under 50MB each."
  const FolderDropAlert: string := "Please use the \"Select Folder\" button for folder uploads in browsers that support it."
  const ErrorAlertPrefix: string := "Error: "

  /** A browser `File`: its name, its declared MIME type and its size in bytes. */
  datatype ClientFile = ClientFile(name: string, mediaType: string, size: nat)

  // ---------------------------------------------------------------------
  // Selection

  /** The `handleFiles` filter: a type starting with `image/` and at most 50 MiB. */
  predicate IsSelectable(f: ClientFile) {
    StartsWith(f.mediaType, ImagePrefix) && f.size <= MaxSelectableSize
  }

  /** `files.filter(IsSelectable)`. */
  function ImageFiles(files: seq<ClientFile>): (kept: seq<ClientFile>)
    ensures |kept| <= |files|
    ensures forall f :: f in kept <==> f in files && IsSelectable(f)
    decreases |files|
  {
    if files == [] then []
    else (if IsSelectable(files[0]) then [files[0]] else []) + ImageFiles(files[1..])
  }

  /** The filter works file by file: filtering a concatenation concatenates the filtered parts, in order. */
  lemma {:induction false} ImageFilesAppend(a: seq<ClientFile>, b: seq<ClientFile>)
    ensures ImageFiles(a + b) == ImageFiles(a) + ImageFiles(b)
    decreases |a|
  {
    if a == [] {
      assert a + b == b;
    } else {
      assert (a + b)[0] == a[0];
      assert (a + b)[1..] == a[1..] + b;
      ImageFilesAppend(a[1..], b);
    }
  }

  /** When every file qualifies, the selection is exactly the chosen list. */
  lemma {:induction false} ImageFilesKeepsAll(files: seq<ClientFile>)
    requires forall i :: 0 <= i < |files| ==> IsSelectable(files[i])
    ensures ImageFiles(files) == files
    decreases |files|
  {
    if files != [] {
      ImageFilesKeepsAll(files[1..]);
    }
  }

  /** Filtering twice keeps what filtering once kept. */
  lemma ImageFilesIdempotent(files: seq<ClientFile>)
    ensures ImageFiles(ImageFiles(files)) == ImageFiles(files)
  {
    var kept := ImageFiles(files);
    assert forall i :: 0 <= i < |kept| ==> kept[i] in kept;
    ImageFilesKeepsAll(kept);
  }

  // ---------------------------------------------------------------------
  // Drops

  /**
   * One `DataTransferItem` as the drop handler probes it: without
   * `webkitGetAsEntry`, with that method returning null (an item that is not
   * a file), or with an entry that is or is not a directory.
   */
  datatype DropItem = NoEntryApi | NullEntry | Entry(isDirectory: bool)

  /** No `stop` among the first `n` items. */
  ghost predicate ClearBefore(items: seq<DropItem>, stop: DropItem, n: int)
    requires 0 <= n <= |items|
  {
    forall j :: 0 <= j < n ==> items[j] != stop
  }

  /** Scanning `items` from the left meets `hit` before any `stop`. */
  ghost predicate MeetsBefore(items: seq<DropItem>, hit: DropItem, stop: DropItem) {
    exists i :: 0 <= i < |items| && items[i] == hit && ClearBefore(items, stop, i)
  }

  /** Dropping a first item that is not `stop` keeps the rest clear of `stop`. */
  lemma ClearBeforeTail(items: seq<DropItem>, stop: DropItem, n: int)
    requires 0 < n <= |items| && items[0] != stop
    ensures ClearBefore(items, stop, n) <==> ClearBefore(items[1..], stop, n - 1)
  {
    if ClearBefore(items[1..], stop, n - 1) {
      forall j | 1 <= j < n ensures items[j] != stop {
        assert items[j] == items[1..][j - 1];
      }
    }
  }

  /** An item that is neither `hit` nor `stop` does not change what the scan meets first. */
  lemma MeetsBeforeShift(items: seq<DropItem>, hit: DropItem, stop: DropItem)
    requires items != [] && items[0] != hit && items[0] != stop
    ensures MeetsBefore(items, hit, stop) <==> MeetsBefore(items[1..], hit, stop)
  {
    var rest := items[1..];
    if i :| 0 <= i < |items| && items[i] == hit && ClearBefore(items, stop, i) {
      ClearBeforeTail(items, stop, i);
      assert rest[i - 1] == hit;
    }
    if i :| 0 <= i < |rest| && rest[i] == hit && ClearBefore(rest, stop, i) {
      ClearBeforeTail(items, stop, i + 1);
      assert items[i + 1] == hit;
    }
  }

  /**
   * `items.some(item => item.webkitGetAsEntry && item.webkitGetAsEntry().isDirectory)`,
   * scanned left to right: `Some(true)` at the first directory, `None` when
   * reading `isDirectory` of a null entry throws first, `Some(false)` otherwise.
   */
  function HasDirectory(items: seq<DropItem>): (r: Option<bool>)
    ensures r == Some(true) <==> MeetsBefore(items, Entry(true), NullEntry)
    ensures r == None <==> MeetsBefore(items, NullEntry, Entry(true))
    decreases |items|
  {
    if items == [] then Some(false)
    else if items[0] == Entry(true) then
      Some(true)
    else if items[0] == NullEntry then
      None
    else
      MeetsBeforeShift(items, Entry(true), NullEntry);
      MeetsBeforeShift(items, NullEntry, Entry(true));
      HasDirectory(items[1..])
  }

  // ---------------------------------------------------------------------
  // Totals and the saved name

  /**
   * `results.reduce((sum, r) => sum + r.originalSize, 0)`, folded from the
   * left: 0 for no results, the one size for one result, and (with
   * `TotalSizeAppend`) additive over concatenation, which pins the sum.
   */
  function TotalSize(results: seq<Server.ResizeResult>): (total: nat)
    ensures results == [] ==> total == 0
    ensures |results| == 1 ==> total == results[0].originalSize
    ensures forall i :: 0 <= i < |results| ==> results[i].originalSize <= total
    decreases |results|
  {
    if results == [] then 0 else TotalSize(results[..|results| - 1]) + results[|results| - 1].originalSize
  }

  /** The total of two lists of results is the sum of their totals. */
  lemma {:induction false} TotalSizeAppend(a: seq<Server.ResizeResult>, b: seq<Server.ResizeResult>)
    ensures TotalSize(a + b) == TotalSize(a) + TotalSize(b)
    decreases |b|
  {
    if b == [] {
      assert a + b == a;
    } else {
      assert (a + b)[..|a + b| - 1] == a + b[..|b| - 1];
      TotalSizeAppend(a, b[..|b| - 1]);
    }
  }

  /** The summary `showResults` prints: how many images, and their original bytes. */
  datatype Summary = Summary(count: nat, totalSize: nat)

  /** The summary the results section shows: how many files were enhanced, and the sum of their original sizes. */
  function Summarize(results: seq<Server.ResizeResult>): (s: Summary)
    ensures s.count == |results|
    ensures s.totalSize == TotalSize(results)
    ensures results == [] ==> s.totalSize == 0
    ensures forall i :: 0 <= i < |results| ==> results[i].originalSize <= s.totalSize
  {
    Summary(|results|, TotalSize(results))
  }

  /** The bytes a successful batch reports are the bytes of the uploaded files. */
  function UploadedBytes(files: seq<Server.UploadedFile>): nat
    decreases |files|
  {
    if files == [] then 0 else UploadedBytes(files[..|files| - 1]) + files[|files| - 1].size
  }

  /** The summary of a successful batch counts its files and adds up their sizes. */
  lemma {:induction false} SummaryOfBatch(files: seq<Server.UploadedFile>)
    ensures Summarize(Server.ResultsFor(files)) == Summary(|files|, UploadedBytes(files))
    decreases |files|
  {
    if files != [] {
      var init := files[..|files| - 1];
      SummaryOfBatch(init);
      var rs := Server.ResultsFor(files);
      assert rs[..|rs| - 1] == Server.ResultsFor(init);
    }
  }

  /** The regular expression `/\.[^/.]+$/` matches at `p`: a '.', then at least one character, none of them '/' or '.', up to the end. */
  ghost predicate ExtensionAt(s: string, p: int) {
    0 <= p < |s| - 1 && s[p] == '.' && forall j :: p < j < |s| ==> s[j] != '/' && s[j] != '.'
  }

  /** `s.replace(/\.[^/.]+$/, "")`: drop the extension match, if there is one. */
  function StripExtension(s: string): (r: string)
    ensures forall p :: ExtensionAt(s, p) ==> r == s[..p]
    ensures (forall p :: !ExtensionAt(s, p)) ==> r == s
  {
    match LastIndexOf(s, '.')
    case None => s
    case Some(k) =>
      assert forall j :: k < j < |s| ==> s[j] == s[k + 1..][j - k - 1];
      if k + 1 < |s| && '/' !in s[k + 1..] then
        assert ExtensionAt(s, k);
        s[..k]
      else
        s
  }

  /** `downloadImage`'s `a.download`: the name without its extension, then `-enhanced.jpg`. */
  function DownloadName(originalName: string): (name: string)
    ensures EndsWith(name, DownloadSuffix)
    ensures StartsWith(originalName, name[..|name| - |DownloadSuffix|])
    ensures forall p :: ExtensionAt(originalName, p) ==> name == originalName[..p] + DownloadSuffix
    ensures (forall p :: !ExtensionAt(originalName, p)) ==> name == originalName + DownloadSuffix
  {
    var stem := StripExtension(originalName);
    EndsWithAppended(stem, DownloadSuffix);
    assert (stem + DownloadSuffix)[..|stem|] == stem;
    stem + DownloadSuffix
  }

  /** A name without a '.' is kept whole. */
  lemma StripExtensionWithoutDot(s: string)
    requires '.' !in s
    ensures StripExtension(s) == s
  {
  }

  /** A name ending in '.' is kept whole: the pattern needs a character after the '.'. */
  lemma StripExtensionTrailingDot(s: string)
    requires s != [] && s[|s| - 1] == '.'
    ensures StripExtension(s) == s
  {
  }

  /** The browser strips an extension of two or more characters exactly. */
  lemma StripExtensionOfSuffix(name: string, ext: string)
    requires '/' !in ext
    requires EndsWith(name, ext) && |ext| > 1 && ext[0] == '.' && '.' !in ext[1..]
    ensures StripExtension(name) + ext == name
  {
    var p := |name| - |ext|;
    assert name[p..] == ext;
    forall j | p < j < |name|
      ensures name[j] != '/' && name[j] != '.'
    {
      assert name[j] == ext[1..][j - p - 1];
    }
    assert ExtensionAt(name, p);
    assert name == name[..p] + name[p..];
  }

  /** The browser's cut, stated against the extension of one path segment. */
  lemma StripExtensionOfSegment(name: string)
    requires '/' !in name
    requires name == [] || name[0] != '.'
    ensures Paths.SegmentExtension(name) == "." ==> StripExtension(name) == name
    ensures Paths.SegmentExtension(name) != "." ==> StripExtension(name) + Paths.SegmentExtension(name) == name
  {
    var ext := Paths.SegmentExtension(name);
    if |ext| > 1 {
      assert ext == name[|name| - |ext|..];
      StripExtensionOfSuffix(name, ext);
    } else if ext == "." {
      StripExtensionTrailingDot(name);
    } else {
      assert name == [] || name == [name[0]] + name[1..];
      StripExtensionWithoutDot(name);
    }
  }

  /**
   * Appending an extension of two or more characters to any stem and then
   * stripping gives back the stem: `a.tar` + `.gz` is cut to `a.tar`.
   */
  lemma StripExtensionAppended(stem: string, ext: string)
    requires '/' !in ext
    requires |ext| > 1 && ext[0] == '.' && '.' !in ext[1..]
    ensures StripExtension(stem + ext) == stem
    ensures DownloadName(stem + ext) == stem + DownloadSuffix
  {
    EndsWithAppended(stem, ext);
    StripExtensionOfSuffix(stem + ext, ext);
    assert (stem + ext)[..|stem|] == stem;
  }

  /**
   * For a plain file name that does not start with '.', the part the browser
   * strips is the extension the server kept in the stored name, unless that
   * extension is a lone '.', which the browser keeps.
   */
  lemma ClientStripsServerExtension(name: string)
    requires '/' !in name
    requires name == [] || name[0] != '.'
    ensures Paths.Extname(name) == "." ==> StripExtension(name) == name
    ensures Paths.Extname(name) != "." ==> StripExtension(name) + Paths.Extname(name) == name
  {
    Paths.ExtnameOfPlainName(name);
    StripExtensionOfSegment(name);
  }

  // ---------------------------------------------------------------------
  // The page

  /** How the batch request ended, as the page sees it. */
  datatype Reply =
    | Answered(body: Server.FolderResponse)
    | Broken(message: string)  // `fetch` rejected, or the body was not JSON

  class Page {
    /** `selectedFiles`. */
    var selected: seq<ClientFile>
    /** `processingResults`. */
    var results: seq<Server.ResizeResult>
    /** `processBtn.disabled`. */
    var processDisabled: bool

    /**
     * What the script keeps true: every selected file passed the
     * `handleFiles` filter, and a non-empty selection has the process
     * button enabled.
     */
    ghost predicate Valid()
      reads this
    {
      && (forall i :: 0 <= i < |selected| ==> IsSelectable(selected[i]))
      && (selected != [] ==> !processDisabled)
    }

    constructor (processDisabled: bool)
      ensures Valid()
      ensures selected == [] && results == [] && this.processDisabled == processDisabled
    {
      selected := [];
      results := [];
      this.processDisabled := processDisabled;
    }

    /**
     * `handleFiles`: when some file qualifies, the qualifying files become
     * the selection and the process button is enabled; otherwise the page
     * alerts and nothing changes.
     */
    method HandleFiles(files: seq<ClientFile>) returns (alert: Option<string>)
      requires Valid()
      modifies this
      ensures Valid()
      ensures results == old(results)
      ensures ImageFiles(files) == [] ==>
        alert == Some(SelectionAlert) && selected == old(selected) && processDisabled == old(processDisabled)
      ensures ImageFiles(files) != [] ==>
        alert == None && selected == ImageFiles(files) && !processDisabled
    {
      var imageFiles := ImageFiles(files);
      if |imageFiles| == 0 {
        return Some(SelectionAlert);
      }
      assert forall i :: 0 <= i < |imageFiles| ==> imageFiles[i] in imageFiles;
      selected := imageFiles;
      processDisabled := false;
      alert := None;
    }

    /**
     * `handleDrop`: a drop with a folder among its items is refused with an
     * alert; a probe that throws ends the handler; otherwise the dropped
     * files go through `handleFiles`.
     */
    method HandleDrop(files: seq<ClientFile>, items: seq<DropItem>) returns (alert: Option<string>, threw: bool)
      requires Valid()
      modifies this
      ensures Valid()
      ensures results == old(results)
      ensures HasDirectory(items) != Some(false) ==>
        selected == old(selected) && processDisabled == old(processDisabled)
      ensures HasDirectory(items) == None ==> threw && alert == None
      ensures HasDirectory(items) == Some(true) ==> !threw && alert == Some(FolderDropAlert)
      ensures HasDirectory(items) == Some(false) ==> !threw
      ensures HasDirectory(items) == Some(false) && ImageFiles(files) == [] ==>
        alert == Some(SelectionAlert) && selected == old(selected) && processDisabled == old(processDisabled)
      ensures HasDirectory(items) == Some(false) && ImageFiles(files) != [] ==>
        alert == None && selected == ImageFiles(files) && !processDisabled
    {
      var hasDirectory := HasDirectory(items);
      if hasDirectory.None? {
        return None, true;
      }
      if hasDirectory.value {
        return Some(FolderDropAlert), false;
      }
      alert := HandleFiles(files);
      threw := false;
    }

    /**
     * `processImages`: with nothing selected it does nothing. Otherwise it
     * posts the selection; a successful answer replaces the results and is
     * summarised, and any failure only raises an alert.
     */
    method ProcessImages(reply: Reply) returns (posted: bool, alert: Option<string>, shown: Option<Summary>)
      requires Valid()
      modifies this`results
      ensures Valid()
      ensures selected == [] ==> !posted && alert == None && shown == None && results == old(results)
      ensures selected != [] ==> posted
      ensures selected != [] && reply.Answered? && reply.body.FolderDone? ==>
        && results == reply.body.results
        && alert == None
        && shown == Some(Summarize(reply.body.results))
      ensures selected != [] && reply.Answered? && reply.body.FolderFailed? ==>
        results == old(results) && alert == Some(ErrorAlertPrefix + reply.body.error) && shown == None
      ensures selected != [] && reply.Broken? ==>
        results == old(results) && alert == Some(ErrorAlertPrefix + reply.message) && shown == None
    {
      if |selected| == 0 {
        return false, None, None;
      }
      posted := true;
      match reply
      case Broken(message) =>
        alert, shown := Some(ErrorAlertPrefix + message), None;
      case Answered(body) =>
        if body.FolderDone? {
          results := body.results;
          alert, shown := None, Some(Summarize(body.results));
        } else {
          alert, shown := Some(ErrorAlertPrefix + body.error), None;
        }
    }
  }
}
