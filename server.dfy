/**
 * The Express server: the upload filter, the naming of stored and enhanced
 * files, the target size handed to the resizer, the two upload routes and
 * the download route. The directories `uploads/` and `enhanced/` are the
 * server's mutable state; the resizer (`sharp`) is an oracle that either
 * writes the output file or throws.
 */
module Server {
  import opened Wrappers
  import opened Strings
  import opened Paths

  /** The alternatives of the filter's regular expression, in order. */
  const AllowedTypes: seq<string> := ["jpeg", "jpg", "png", "webp", "bmp", "tiff"]
  const FilterError: string := "Only image files are allowed!"
  /** Multer's per-file size limit and the batch route's file-count limit; multer enforces both. */
  const MaxFileSize: nat := 50 * 1024 * 1024
  const MaxFiles: nat := 100
  const FallbackDimension: int := 2000
  const JpegQuality: nat := 90
  const UploadDir: string := "uploads"
  const EnhancedDir: string := "enhanced"
  const EnhancedPrefix: string := "enhanced-"
  const ViewPrefix: string := "/enhanced/"
  const DownloadPrefix: string := "/api/download/"
  const SuccessSuffix: string := " images processed successfully"
  const NotFoundError: string := "File not found"
  /** Multer's message when a part exceeds `MaxFileSize`. */
  const FileTooLargeError: string := "File too large"
  /**
   * The message of the TypeError thrown when the single-file route reads
   * `file.filename` with no file, in the wording of Node 16.9 and later.
   */
  const MissingFileError: string := "Cannot read properties of undefined (reading 'filename')"
  /**
   * The message of the TypeError thrown when the batch route iterates
   * `req.files` and multer left it undefined (a request that is not
   * `multipart/form-data`), in V8's wording.
   */
  const NotIterableError: string := "files is not iterable"

  /** The file record multer hands to a route. Multer fills in no `width` or `height`. */
  datatype UploadedFile = UploadedFile(
    originalname: string,
    filename: string,
    path: string,
    size: nat,
    mimetype: string,
    width: Option<int>,
    height: Option<int>)

  /** One entry of the batch route's `results`. */
  datatype ResizeResult = ResizeResult(
    originalName: string,
    originalSize: nat,
    enhancedName: string,
    enhancedPath: string,
    downloadUrl: string)

  /** The JSON body of the batch route, with its status code. */
  datatype FolderResponse =
    | FolderDone(message: string, results: seq<ResizeResult>)
    | FolderFailed(error: string)
  {
    function Status(): nat {
      if FolderDone? then 200 else 500
    }
  }

  /** The JSON body of the single-file route, with its status code. */
  datatype SingleResponse =
    | SingleDone(originalName: string, enhancedPath: string, downloadUrl: string)
    | SingleFailed(error: string)
  {
    function Status(): nat {
      if SingleDone? then 200 else 500
    }
  }

  /** The download route's answer: the file as an attachment, or 404. */
  datatype DownloadResponse =
    | Attachment(name: string)
    | NotFound(error: string)
  {
    function Status(): nat {
      if Attachment? then 200 else 404
    }
  }

  /** What the route asks `sharp` to do for one file. */
  datatype ResizeJob = ResizeJob(
    input: string,
    output: string,
    width: int,
    height: int,
    fit: string,
    withoutEnlargement: bool,
    format: string,
    quality: nat)

  /** What `sharp(...).toFile(...)` does: writes the output file, or throws with a message. */
  datatype Outcome = Written | Threw(message: string)

  // ---------------------------------------------------------------------
  // The upload filter

  /** Some alternative of the filter's pattern occurs somewhere in `s`. */
  ghost predicate AllowedOccurs(s: string) {
    exists k: nat, i: nat :: k < |AllowedTypes| && OccursAt(s, AllowedTypes[k], i)
  }

  /** `/jpeg|jpg|png|webp|bmp|tiff/.test(s)`: the pattern has no anchors, so it is a substring test. */
  function MatchesAllowed(s: string): (b: bool)
    ensures b <==> AllowedOccurs(s)
  {
    exists k :: 0 <= k < |AllowedTypes| && Contains(s, AllowedTypes[k])
  }

  /** The verdict multer receives from the filter callback. */
  datatype FilterVerdict = Accept | Reject(error: string)

  /**
   * `fileFilter`: the lower-cased extension of the client's file name and
   * the declared MIME type must both contain an allowed type. Nothing checks
   * for an `image/` prefix.
   */
  function FileFilter(originalname: string, mimetype: string): (v: FilterVerdict)
    ensures v.Accept? <==> AllowedOccurs(ToLower(Extname(originalname))) && AllowedOccurs(mimetype)
    ensures v.Reject? ==> v.error == FilterError
  {
    var extOk := MatchesAllowed(ToLower(Extname(originalname)));
    var mimeOk := MatchesAllowed(mimetype);
    if mimeOk && extOk then Accept else Reject(FilterError)
  }

  /** A plain name without a '.' has no extension, so it is refused whatever its declared type. */
  lemma FileFilterNeedsExtension(originalname: string, mimetype: string)
    requires '/' !in originalname && '.' !in originalname
    ensures FileFilter(originalname, mimetype) == Reject(FilterError)
  {
    ExtnameOfPlainName(originalname);
    assert originalname == [] || '.' !in originalname[1..];
    assert ToLower("") == "";
    assert forall k :: 0 <= k < |AllowedTypes| ==> |AllowedTypes[k]| > 0;
  }

  // ---------------------------------------------------------------------
  // Names and URLs

  /**
   * `storage.filename`: `Date.now() + '-' + Math.round(Math.random() * 1E9)
   * + path.extname(originalname)`, with the clock and the random value
   * passed in.
   */
  function StoredName(timestamp: nat, random: nat, originalname: string): (name: string)
    ensures EndsWith(name, Extname(originalname))
    ensures '/' !in name
  {
    var stem := NatToString(timestamp) + "-" + NatToString(random);
    EndsWithAppended(stem, Extname(originalname));
    NonDigitNotIn(NatToString(timestamp), '/');
    NonDigitNotIn(NatToString(random), '/');
    stem + Extname(originalname)
  }

  /** The enhanced file's name: the stored name behind a fixed prefix. */
  function OutputName(stored: string): (name: string)
    ensures StripPrefix(EnhancedPrefix, name) == Some(stored)
  {
    StripPrefixAfterPrepend(EnhancedPrefix, stored);
    EnhancedPrefix + stored
  }

  /** The URL path under which the static middleware serves an enhanced file. */
  function ViewPath(output: string): (url: string)
    ensures StripPrefix(ViewPrefix, url) == Some(output)
  {
    StripPrefixAfterPrepend(ViewPrefix, output);
    ViewPrefix + output
  }

  /** The URL of the download route for an enhanced file. */
  function DownloadUrl(output: string): (url: string)
    ensures StripPrefix(DownloadPrefix, url) == Some(output)
  {
    StripPrefixAfterPrepend(DownloadPrefix, output);
    DownloadPrefix + output
  }

  /** The batch message: the file count in decimal, then a fixed suffix. */
  function SuccessMessage(count: nat): (message: string)
    ensures EndsWith(message, SuccessSuffix)
    ensures var count' := message[..|message| - |SuccessSuffix|];
      && 0 < |count'| && AllDigits(count') && DecimalValue(count') == count
      && (|count'| > 1 ==> count'[0] != '0')
  {
    var digits := NatToString(count);
    EndsWithAppended(digits, SuccessSuffix);
    assert (digits + SuccessSuffix)[..|digits|] == digits;
    digits + SuccessSuffix
  }

  /** Two uploads stored with different (timestamp, random) pairs get different names. */
  lemma StoredNamesDiffer(t1: nat, r1: nat, o1: string, t2: nat, r2: nat, o2: string)
    requires t1 != t2 || r1 != r2
    ensures StoredName(t1, r1, o1) != StoredName(t2, r2, o2)
  {
    if StoredName(t1, r1, o1) == StoredName(t2, r2, o2) {
      var a1, b1, e1 := NatToString(t1), NatToString(r1), Extname(o1);
      var a2, b2, e2 := NatToString(t2), NatToString(r2), Extname(o2);
      RegroupRight(a1, "-", b1, e1);
      RegroupRight(a2, "-", b2, e2);
      DigitPrefixSplit(a1, "-" + (b1 + e1), a2, "-" + (b2 + e2));
      assert b1 + e1 == ("-" + (b1 + e1))[1..] == ("-" + (b2 + e2))[1..] == b2 + e2;
      DigitPrefixSplit(b1, e1, b2, e2);
      NatToStringInjective(t1, t2);
      NatToStringInjective(r1, r2);
    }
  }

  /** Different stored names give different enhanced names, so outputs never overwrite each other. */
  lemma OutputNamesDiffer(s1: string, s2: string)
    requires s1 != s2
    ensures OutputName(s1) != OutputName(s2)
  {
  }

  /**
   * What multer's disk storage records for an accepted part: the client's
   * name, type and size as sent, a generated single-entry name that keeps
   * the client's extension, the path of that entry under `uploads/`, and no
   * dimensions.
   */
  function Receive(originalname: string, mimetype: string, size: nat, timestamp: nat, random: nat): (f: UploadedFile)
    ensures f.originalname == originalname && f.mimetype == mimetype && f.size == size
    ensures f.filename == StoredName(timestamp, random, originalname)
    ensures '/' !in f.filename && EndsWith(f.filename, Extname(originalname))
    ensures f.path == UploadDir + "/" + f.filename
    ensures f.width.None? && f.height.None?
  {
    var name := StoredName(timestamp, random, originalname);
    UploadedFile(originalname, name, UploadDir + "/" + name, size, mimetype, None, None)
  }

  /** What multer makes of one uploaded part: a stored file, or the error that fails the request. */
  datatype Intake = Stored(file: UploadedFile) | Refused(error: string)

  // ---------------------------------------------------------------------
  // The target size

  /** A JavaScript number as far as the target-size expression needs one: an integer, or NaN. */
  datatype JsNumber = Finite(value: int) | NaN

  /** `dimension * 2`: an undefined dimension gives NaN. `Math.round` leaves an integer as it is. */
  function TimesTwo(dimension: Option<int>): JsNumber {
    match dimension
    case None => NaN
    case Some(d) => Finite(2 * d)
  }

  /** `n || fallback`: 0 and NaN are falsy. */
  function OrElse(n: JsNumber, fallback: int): int {
    if n.Finite? && n.value != 0 then n.value else fallback
  }

  /**
   * `Math.round(dimension * 2) || 2000`: twice a known, non-zero dimension,
   * and 2000 for an unknown or zero one.
   */
  function TargetDimension(dimension: Option<int>): (t: int)
    ensures dimension.Some? && dimension.value != 0 ==> t == 2 * dimension.value
    ensures dimension.None? || dimension.value == 0 ==> t == FallbackDimension
  {
    OrElse(TimesTwo(dimension), FallbackDimension)
  }

  /**
   * The resize both upload routes ask for: read the stored upload, write
   * the enhanced name inside `enhanced/`, scale to the target size with fit
   * `contain` allowing enlargement, and encode as JPEG at quality 90.
   */
  function JobFor(f: UploadedFile): (job: ResizeJob)
    ensures job.input == f.path
    ensures StripPrefix(EnhancedDir + "/", job.output) == Some(OutputName(f.filename))
    ensures job.width == TargetDimension(f.width) && job.height == TargetDimension(f.height)
    ensures job.fit == "contain" && !job.withoutEnlargement && job.format == "jpeg" && job.quality == JpegQuality
  {
    StripPrefixAfterPrepend(EnhancedDir + "/", OutputName(f.filename));
    ResizeJob(f.path, EnhancedDir + "/" + OutputName(f.filename),
      TargetDimension(f.width), TargetDimension(f.height), "contain", false, "jpeg", JpegQuality)
  }

  /** Multer records no dimensions, so every file it stores is resized to the 2000 x 2000 fallback. */
  lemma ReceivedFilesUseFallback(originalname: string, mimetype: string, size: nat, timestamp: nat, random: nat)
    ensures var job := JobFor(Receive(originalname, mimetype, size, timestamp, random));
      job.width == FallbackDimension && job.height == FallbackDimension
  {
  }

  // ---------------------------------------------------------------------
  // The batch route, as specification functions

  /**
   * The record the batch route pushes for one file: the client's name and
   * size, and an enhanced name, view path and download URL that each lead
   * back to the stored upload.
   */
  function ResultFor(f: UploadedFile): (r: ResizeResult)
    ensures r.originalName == f.originalname && r.originalSize == f.size
    ensures StripPrefix(EnhancedPrefix, r.enhancedName) == Some(f.filename)
    ensures StripPrefix(ViewPrefix, r.enhancedPath) == Some(r.enhancedName)
    ensures StripPrefix(DownloadPrefix, r.downloadUrl) == Some(r.enhancedName)
  {
    var name := OutputName(f.filename);
    ResizeResult(f.originalname, f.size, name, ViewPath(name), DownloadUrl(name))
  }

  /** The records for `files`, in input order. */
  function ResultsFor(files: seq<UploadedFile>): (results: seq<ResizeResult>)
    ensures |results| == |files|
  {
    seq(|files|, i requires 0 <= i < |files| => ResultFor(files[i]))
  }

  /**
   * Record `i` describes input `i`: one record per file, in input order,
   * each carrying that file's name and size and the enhanced name built
   * from its stored name.
   */
  lemma ResultsForAt(files: seq<UploadedFile>, i: nat)
    requires i < |files|
    ensures ResultsFor(files)[i] == ResultFor(files[i])
    ensures ResultsFor(files)[i].originalName == files[i].originalname
    ensures ResultsFor(files)[i].originalSize == files[i].size
    ensures ResultsFor(files)[i].enhancedName == OutputName(files[i].filename)
  {
  }

  /** Adding one file to a batch appends its record. */
  lemma ResultsForSnoc(files: seq<UploadedFile>, f: UploadedFile)
    ensures ResultsFor(files + [f]) == ResultsFor(files) + [ResultFor(f)]
  {
    assert (files + [f])[..|files|] == files;
  }

  /** The names written into `enhanced/` for `files`. */
  ghost function OutputNames(files: seq<UploadedFile>): set<string> {
    set f | f in files :: OutputName(f.filename)
  }

  /** Adding one file to a batch adds its enhanced name. */
  lemma OutputNamesSnoc(files: seq<UploadedFile>, f: UploadedFile)
    ensures OutputNames(files + [f]) == OutputNames(files) + {OutputName(f.filename)}
  {
    assert forall g :: g in files + [f] <==> g in files || g == f;
  }

  /** What the resizer does with each file's job, in input order. */
  function Attempts(files: seq<UploadedFile>, sharp: ResizeJob -> Outcome): (outcomes: seq<Outcome>)
    ensures |outcomes| == |files|
  {
    seq(|files|, i requires 0 <= i < |files| => sharp(JobFor(files[i])))
  }

  /** Attempt `i` is the resizer's answer to the job for file `i`. */
  lemma AttemptsAt(files: seq<UploadedFile>, sharp: ResizeJob -> Outcome, i: nat)
    requires i < |files|
    ensures Attempts(files, sharp)[i] == sharp(JobFor(files[i]))
  {
  }

  /** The position of the first outcome that threw, if any. */
  function FirstThrow(outcomes: seq<Outcome>): (k: Option<nat>)
    ensures k.None? ==> forall i :: 0 <= i < |outcomes| ==> outcomes[i].Written?
    ensures k.Some? ==> k.value < |outcomes| && outcomes[k.value].Threw?
    ensures k.Some? ==> forall i :: 0 <= i < k.value ==> outcomes[i].Written?
    decreases |outcomes|
  {
    if outcomes == [] then None
    else if outcomes[0].Threw? then Some(0)
    else
      match FirstThrow(outcomes[1..])
      case None => None
      case Some(k) => Some(k + 1)
  }

  /** Extending a batch prefix by one file extends its records and output names by that file's. */
  lemma BatchPrefixStep(files: seq<UploadedFile>, i: nat)
    requires i < |files|
    ensures ResultsFor(files[..i + 1]) == ResultsFor(files[..i]) + [ResultFor(files[i])]
    ensures OutputNames(files[..i + 1]) == OutputNames(files[..i]) + {OutputName(files[i].filename)}
  {
    assert files[..i + 1] == files[..i] + [files[i]];
    ResultsForSnoc(files[..i], files[i]);
    OutputNamesSnoc(files[..i], files[i]);
  }

  /** An outcome that threw after only written ones is the first throw. */
  lemma FirstThrowIs(outcomes: seq<Outcome>, i: nat)
    requires i < |outcomes| && outcomes[i].Threw?
    requires forall j :: 0 <= j < i ==> outcomes[j].Written?
    ensures FirstThrow(outcomes) == Some(i)
  {
  }

  /** When every outcome is written there is no first throw. */
  lemma NoFirstThrow(outcomes: seq<Outcome>)
    requires forall j :: 0 <= j < |outcomes| ==> outcomes[j].Written?
    ensures FirstThrow(outcomes) == None
  {
  }

  // ---------------------------------------------------------------------
  // The server's state and routes

  class Server {
    /** Entry names in the intake directory `uploads/`. */
    var uploads: set<string>
    /** Entry names in the output directory `enhanced/`. */
    var enhanced: set<string>

    constructor (uploads: set<string>, enhanced: set<string>)
      ensures this.uploads == uploads && this.enhanced == enhanced
    {
      this.uploads := uploads;
      this.enhanced := enhanced;
    }

    /**
     * Multer's handling of one part: the filter decides first, then a part
     * over the size limit is refused and its partial file removed;
     * otherwise the part is written to `uploads/` under its generated name.
     */
    method Store(originalname: string, mimetype: string, size: nat, timestamp: nat, random: nat) returns (r: Intake)
      modifies this`uploads
      ensures FileFilter(originalname, mimetype).Reject? ==> r == Refused(FilterError) && uploads == old(uploads)
      ensures FileFilter(originalname, mimetype).Accept? && size > MaxFileSize ==>
        r == Refused(FileTooLargeError) && uploads == old(uploads)
      ensures FileFilter(originalname, mimetype).Accept? && size <= MaxFileSize ==>
        && r == Stored(Receive(originalname, mimetype, size, timestamp, random))
        && uploads == old(uploads) + {StoredName(timestamp, random, originalname)}
    {
      var verdict := FileFilter(originalname, mimetype);
      if verdict.Reject? {
        return Refused(verdict.error);
      }
      if size > MaxFileSize {
        return Refused(FileTooLargeError);
      }
      var f := Receive(originalname, mimetype, size, timestamp, random);
      uploads := uploads + {f.filename};
      r := Stored(f);
    }

    /**
     * `POST /api/upload-folder`: resize the files in order, pushing one
     * record per file. The first throw discards every record and answers 500
     * with its message; outputs already written stay in `enhanced/`, and
     * nothing in `uploads/` is removed. `request` is `req.files`, which multer
     * leaves undefined (`None`) for a request that is not multipart; iterating
     * it then throws before any file is touched.
     */
    method UploadFolder(request: Option<seq<UploadedFile>>, sharp: ResizeJob -> Outcome) returns (resp: FolderResponse)
      modifies this`enhanced
      ensures uploads == old(uploads)
      ensures request.None? ==> resp == FolderFailed(NotIterableError) && enhanced == old(enhanced)
      ensures request.Some? && FirstThrow(Attempts(request.value, sharp)).None? ==>
        var files := request.value;
        && resp == FolderDone(SuccessMessage(|files|), ResultsFor(files))
        && enhanced == old(enhanced) + OutputNames(files)
      ensures request.Some? && FirstThrow(Attempts(request.value, sharp)).Some? ==>
        var files := request.value;
        var k := FirstThrow(Attempts(files, sharp)).value;
        && resp == FolderFailed(Attempts(files, sharp)[k].message)
        && enhanced == old(enhanced) + OutputNames(files[..k])
      ensures resp.Status() == if request.Some? && FirstThrow(Attempts(request.value, sharp)).None? then 200 else 500
    {
      if request.None? {
        return FolderFailed(NotIterableError);
      }
      var files := request.value;
      ghost var attempts := Attempts(files, sharp);
      var results: seq<ResizeResult> := [];
      var i := 0;
      while i < |files|
        invariant 0 <= i <= |files|
        invariant forall j :: 0 <= j < i ==> attempts[j].Written?
        invariant results == ResultsFor(files[..i])
        invariant enhanced == old(enhanced) + OutputNames(files[..i])
      {
        var f := files[i];
        var outcome := sharp(JobFor(f));
        AttemptsAt(files, sharp, i);
        if outcome.Threw? {
          FirstThrowIs(attempts, i);
          return FolderFailed(outcome.message);
        }
        enhanced := enhanced + {OutputName(f.filename)};
        results := results + [ResultFor(f)];
        BatchPrefixStep(files, i);
        i := i + 1;
      }
      assert files[..i] == files;
      NoFirstThrow(attempts);
      resp := FolderDone(SuccessMessage(|files|), results);
    }

    /**
     * `POST /api/upload-single`: the same naming, target size and resize as
     * one step of the batch route; a request without a file fails when the
     * route reads its name.
     */
    method UploadSingle(file: Option<UploadedFile>, sharp: ResizeJob -> Outcome) returns (resp: SingleResponse)
      modifies this`enhanced
      ensures uploads == old(uploads)
      ensures file.None? ==> resp == SingleFailed(MissingFileError) && enhanced == old(enhanced)
      ensures file.Some? && sharp(JobFor(file.value)).Threw? ==>
        resp == SingleFailed(sharp(JobFor(file.value)).message) && enhanced == old(enhanced)
      ensures file.Some? && sharp(JobFor(file.value)).Written? ==>
        var r := ResultFor(file.value);
        && resp == SingleDone(r.originalName, r.enhancedPath, r.downloadUrl)
        && enhanced == old(enhanced) + {r.enhancedName}
      ensures resp.Status() == 500 <==> file.None? || sharp(JobFor(file.value)).Threw?
    {
      if file.None? {
        return SingleFailed(MissingFileError);
      }
      var f := file.value;
      var name := OutputName(f.filename);
      var outcome := sharp(JobFor(f));
      if outcome.Threw? {
        return SingleFailed(outcome.message);
      }
      enhanced := enhanced + {name};
      resp := SingleDone(f.originalname, ViewPath(name), DownloadUrl(name));
    }

    /** `GET /api/download/:filename`: the file when `enhanced/` has it, else 404. */
    function Download(name: string): (r: DownloadResponse)
      reads this
      ensures r.Attachment? <==> name in enhanced
      ensures r.Attachment? ==> r.name == name && r.Status() == 200
      ensures r.NotFound? ==> r.error == NotFoundError && r.Status() == 404
    {
      if name in enhanced then Attachment(name) else NotFound(NotFoundError)
    }
  }

  /** Once a batch's outputs are in `enhanced/`, every download URL it returned is served. */
  lemma ResultsDownloadable(s: Server, files: seq<UploadedFile>, i: nat)
    requires OutputNames(files) <= s.enhanced
    requires i < |files|
    ensures var url := ResultsFor(files)[i].downloadUrl;
      StripPrefix(DownloadPrefix, url).Some? && s.Download(StripPrefix(DownloadPrefix, url).value).Attachment?
  {
    ResultsForAt(files, i);
    assert files[i] in files;
    assert OutputName(files[i].filename) in OutputNames(files);
  }
}
