# Image upscaler: a Dafny model of the upload-and-resize pipeline

The system is a small Express server paired with a browser script. The
browser selects image files and posts them as one multipart request.
Multer filters each part by extension and declared type and stores it
under a generated name in `uploads/`. The batch route then asks `sharp` to
resize each stored file, in order, into an "enhanced" JPEG in `enhanced/`.
It answers with one record per file, or with the first error if any resize
throws. A download route serves files from `enhanced/`, and the page shows
a count and a byte total for the batch.

The model has five modules:

- `Wrappers`: the `Option` type.
- `Strings`: decimal rendering of naturals, unanchored substring search,
  last index, ASCII lower-casing and prefixes.
- `Paths`: the POSIX rule of Node's `path.extname`. Trailing slashes are
  ignored, only the last segment counts, and a leading '.' and the segment
  `..` carry no extension.
- `Server`: the upload filter, the stored and enhanced names and their
  URLs, and the `Math.round(w * 2) || 2000` target size. It also holds the
  class `Server`, whose fields are the entry names of `uploads/` and
  `enhanced/`. Its methods are the intake step, the two upload routes and
  the download route.
- `Client`: the selection filter, the drop handler's folder test, the
  batch totals, the download file name, and the class `Page`. The fields of
  `Page` are the script's `selectedFiles`, `processingResults` and the
  process button's disabled flag.

The resizer is a parameter `sharp: ResizeJob -> Outcome`: for each job it
either writes the output or throws with a message. The clock
(`Date.now()`) and the random draw (`Math.round(Math.random() * 1E9)`) are
natural-number parameters. The server's reply to the page is a parameter
of `Page.ProcessImages`.

The server's filter checks neither an `image/` prefix nor the size. It
runs two unanchored substring tests, and the 50 MiB ceiling is multer's
`limits.fileSize`. Only the browser's `handleFiles` tests for `image/`.
`Server.FileFilter` therefore checks only the two substring tests, and
`Server.Server.Store` applies the size limit after the filter, as multer
does.

## Model

| member | source | states |
|---|---|---|
| Strings.Contains | deepseek_javascript_20251223_87bd28.js:30-32 | a literal pattern is found iff it occurs at some index of the string; the search is unanchored |
| Strings.ToLower | deepseek_javascript_20251223_87bd28.js:31 | the lower-cased extension has the same length, and every character is its ASCII lower-case form |
| Strings.NatToString | deepseek_javascript_20251223_87bd28.js:23 | the rendering of a number is a non-empty digit string without a leading zero whose decimal value is that number |
| Strings.NatToStringInjective | deepseek_javascript_20251223_87bd28.js:23 | different numbers render differently |
| Paths.Extname | deepseek_javascript_20251223_87bd28.js:23 | `path.extname` is empty exactly when the last segment of the path, once trailing slashes are dropped, is empty, is `..` or has no '.' after its first character; otherwise it is a '.' followed by characters that are neither '.' nor '/', ending that segment |
| Paths.SegmentExtension | deepseek_javascript_20251223_87bd28.js:23 | a segment has no extension iff it is empty, has no '.' after its first character, or is `..`; otherwise the extension is its suffix from the last '.' |
| Paths.ExtnameOfPlainName | deepseek_javascript_20251223_87bd28.js:23 | for a name without '/', the extension is that of the whole name |
| Server.MatchesAllowed | deepseek_javascript_20251223_87bd28.js:30-32 | the regular expression test is true iff one of jpeg, jpg, png, webp, bmp, tiff occurs anywhere in the string |
| Server.FileFilter | deepseek_javascript_20251223_87bd28.js:29-39 | a part is accepted iff both the lower-cased extension and the declared type contain an allowed word; a rejection carries "Only image files are allowed!" |
| Server.FileFilterNeedsExtension | deepseek_javascript_20251223_87bd28.js:31-37 | a plain name with no '.' is refused whatever its declared type, `image/png` included |
| Server.StoredName | deepseek_javascript_20251223_87bd28.js:23 | the generated name ends with the client file's extension and holds no '/', so it is a single directory entry |
| Server.StoredNamesDiffer | deepseek_javascript_20251223_87bd28.js:23 | different (timestamp, random) pairs give different stored names, whatever the extensions |
| Server.OutputNamesDiffer | deepseek_javascript_20251223_87bd28.js:55 | different stored names give different enhanced names, so outputs never overwrite each other |
| Server.OutputName | deepseek_javascript_20251223_87bd28.js:55 | removing the `enhanced-` prefix from the enhanced name gives back the stored name |
| Server.ViewPath | deepseek_javascript_20251223_87bd28.js:76 | removing `/enhanced/` from the view path gives back the enhanced name |
| Server.DownloadUrl | deepseek_javascript_20251223_87bd28.js:77 | removing `/api/download/` from the download URL gives back the enhanced name |
| Server.SuccessMessage | deepseek_javascript_20251223_87bd28.js:83 | the message is the file count in decimal (non-empty, no leading zero), followed by " images processed successfully" |
| Server.Receive | deepseek_javascript_20251223_87bd28.js:16-26 | multer's record carries the client's name, type and size as sent; its name is the generated one, which has no '/' and ends with the client's extension; its path is that name under `uploads/`; it has no width or height |
| Server.Server.Store | deepseek_javascript_20251223_87bd28.js:29-45 | for one part: a filtered or oversized part is refused and that part adds nothing to `uploads/`; an accepted one adds exactly its generated name to `uploads/` |
| Server.TargetDimension | deepseek_javascript_20251223_87bd28.js:64-65 | the target is twice a known non-zero dimension, and 2000 when the dimension is missing or zero |
| Server.ReceivedFilesUseFallback | deepseek_javascript_20251223_87bd28.js:64-65 | every file multer stores is resized to 2000 x 2000 |
| Server.JobFor | deepseek_javascript_20251223_87bd28.js:62-70 | the job reads the stored upload and writes the enhanced name inside `enhanced/`, at the target width and height, with fit `contain`, enlargement allowed, as JPEG at quality 90 |
| Server.ResultFor | deepseek_javascript_20251223_87bd28.js:72-78 | the record carries the client's name and size; its enhanced name strips to the stored name, and its view path and download URL strip to the enhanced name |
| Server.ResultsFor | deepseek_javascript_20251223_87bd28.js:53-79 | the batch has exactly one record per file |
| Server.ResultsForAt | deepseek_javascript_20251223_87bd28.js:72-78 | record i carries input i's original name, its size and its enhanced name |
| Server.Attempts | deepseek_javascript_20251223_87bd28.js:53-79 | sharp's answer to each file's job, in input order; the route consults those up to the first throw |
| Server.AttemptsAt | deepseek_javascript_20251223_87bd28.js:62-70 | attempt i is the resizer's answer to the job for file i |
| Server.FirstThrow | deepseek_javascript_20251223_87bd28.js:53-79 | the loop stops at the first resize that throws; every earlier resize wrote its output |
| Server.Server.UploadFolder | deepseek_javascript_20251223_87bd28.js:48-90 | a request whose `req.files` is undefined (not multipart) fails with "files is not iterable" and adds nothing; if no resize throws, the reply is "N images processed successfully" with one record per file in input order, and every output is added; otherwise the reply is the first throw's message, and only the outputs before it were added; the status is 200 on success and 500 on failure |
| Server.Server.UploadSingle | deepseek_javascript_20251223_87bd28.js:92-119 | a missing file fails with the TypeError message; a throw fails with its message; success returns the original name, view path and download URL, and adds one output; the status is 500 exactly in the two failure cases |
| Server.Server.Download | deepseek_javascript_20251223_87bd28.js:121-128 | the route serves a name iff it is in `enhanced/`; otherwise it answers 404 "File not found" |
| Server.ResultsDownloadable | deepseek_javascript_20251223_87bd28.js:121-128 | once a batch's outputs are in `enhanced/`, the text after `/api/download/` in every download URL it returned names a file the route serves |
| Client.ImageFiles | deepseek_javascript_20251223_663a36.js:89-92 | a file is kept iff it is in the input, has a type starting with `image/` and is at most 52428800 bytes |
| Client.ImageFilesAppend | deepseek_javascript_20251223_663a36.js:89-92 | filtering works file by file and keeps input order |
| Client.ImageFilesKeepsAll | deepseek_javascript_20251223_663a36.js:89-92 | when every file qualifies, the selection is the chosen list itself |
| Client.ImageFilesIdempotent | deepseek_javascript_20251223_663a36.js:89-92 | filtering a selection again changes nothing |
| Client.HasDirectory | deepseek_javascript_20251223_663a36.js:75-76 | the scan finds a folder iff a directory entry comes before any null entry, and throws iff a null entry comes before any directory entry |
| Client.Page.HandleFiles | deepseek_javascript_20251223_663a36.js:87-103 | with no qualifying file, the page alerts and nothing changes; otherwise the qualifying files become the selection and the process button is enabled; the page invariant is kept |
| Client.Page.HandleDrop | deepseek_javascript_20251223_663a36.js:70-85 | a drop holding a folder alerts and changes nothing; a throwing probe changes nothing; any other drop behaves as `handleFiles` on the dropped files; the page invariant is kept |
| Client.Page.ProcessImages | deepseek_javascript_20251223_663a36.js:126-162 | an empty selection posts nothing; a success reply replaces the results and shows their summary; a failure reply or a broken request alerts "Error: " plus the message and leaves the results unchanged; the page invariant is kept |
| Client.Page.constructor | deepseek_javascript_20251223_663a36.js:18-19 | the page starts with no selection and no results, and satisfies its invariant: every selected file passes the filter, and a non-empty selection has the process button enabled |
| Client.TotalSize | deepseek_javascript_20251223_663a36.js:174 | the total of no results is 0 and of one result is its original size; no single original size exceeds the total |
| Client.TotalSizeAppend | deepseek_javascript_20251223_663a36.js:174 | the byte total of two result lists is the sum of their totals |
| Client.Summarize | deepseek_javascript_20251223_663a36.js:174-175 | the summary the results section shows: one count per result and the byte total `TotalSize` of their original sizes |
| Client.SummaryOfBatch | deepseek_javascript_20251223_663a36.js:170-175 | the summary of a successful batch counts its uploaded files and adds up their sizes |
| Client.StripExtension | deepseek_javascript_20251223_663a36.js:223 | where `/\.[^/.]+$/` matches, the name is cut at the match; where it does not, the name is unchanged |
| Client.DownloadName | deepseek_javascript_20251223_663a36.js:220-224 | where `/\.[^/.]+$/` matches at p, the saved name is the name up to p followed by `-enhanced.jpg`; where it does not match, it is the whole name followed by `-enhanced.jpg` |
| Client.StripExtensionWithoutDot | deepseek_javascript_20251223_663a36.js:223 | a name without '.' is kept whole |
| Client.StripExtensionTrailingDot | deepseek_javascript_20251223_663a36.js:223 | a name ending in '.' is kept whole |
| Client.StripExtensionOfSuffix | deepseek_javascript_20251223_663a36.js:223 | an extension of two or more characters without '/' at the end of a name is removed exactly |
| Client.StripExtensionAppended | deepseek_javascript_20251223_663a36.js:223 | a stem followed by such an extension is cut back to the stem, and saved as the stem plus `-enhanced.jpg` (`a.tar.gz` becomes `a.tar-enhanced.jpg`) |
| Client.StripExtensionOfSegment | deepseek_javascript_20251223_663a36.js:223 | for a slash-free name not starting with '.', the browser cuts exactly the extension `path.extname` gives for that segment, except that it keeps a lone trailing '.' |
| Client.ClientStripsServerExtension | deepseek_javascript_20251223_663a36.js:223 | for a slash-free name not starting with '.', the browser strips exactly the extension the server's `path.extname` finds, unless that extension is a lone '.', which it keeps |

## Left out

- The image work of `sharp` (decoding, resizing with fit `contain`, JPEG encoding at quality 90) is an oracle. `Server.JobFor` records the options; the pixels are not modelled.
- Multer's multipart parsing is not modelled, and neither is the 100-file limit of `upload.array('images', 100)`: `Server.MaxFiles` is a constant only. How a filter or limit error becomes express's default error response is not modelled either.
- Failures of `fs.ensureDir`/`ensureDirSync` and `path.join` are file-system plumbing and are left out.
- `express.static` serving `/uploads` and `/enhanced` is left out; `ViewPath` only builds the URL.
- Server.Server.Download: the routes write outputs to `enhanced/` under the working directory (`path.join('enhanced', …)`, `express.static('enhanced')`), while the download route looks in `enhanced/` under the script's own directory (`__dirname`). The model has one `enhanced` set, so it assumes the process is started from the script's directory; started elsewhere, every download answers 404.
- Server.ResultsDownloadable: holds only under the same assumption that the working directory is the script's directory; otherwise the two `enhanced/` directories differ and the returned download URLs are not served.
- Server.ResultsDownloadable: the download URL is not percent-encoded. A client extension holding '#' or '?' (`x.jpg#1` passes the filter) gives a URL that the browser cuts at that character, and one holding '%' is percent-decoded by Express. The lemma speaks of the text after `/api/download/`, not of the parameter the route then receives.
- Server.Server.Download: the route parameter is used as an entry name of `enhanced/`. Express's percent-decoding and `path.join`'s handling of `..` segments are not modelled, so a name that resolves outside `enhanced/` is outside the model.
- Server.Server.Store: models one part alone. Multer answers a refusal (filter error or `limits.fileSize`) by aborting the whole request: it removes the files already stored for earlier parts of that request and stores no later part. The model does not state that cleanup across parts.
- Server.Server.UploadFolder: an output that the throwing resize may have partly written is not recorded, and no intake file is ever removed, as in the code.
- Server.Server.UploadSingle: likewise, an output that the throwing resize may have partly written is not recorded, and the intake file is not removed.
- Strings.NatToString: renders every natural in plain decimal. JavaScript switches to exponent notation at 1e21, which neither a millisecond clock nor a draw up to 1e9 reaches.
- Server.MissingFileError: the TypeError text is that of Node 16.9 and later; older runtimes word it "Cannot read property 'filename' of undefined".
- Strings.ToLower: lowers ASCII letters only; other characters are kept.
- Server.TargetDimension: width and height are integers or missing. `Math.round` of a non-integer product is not modelled; multer never sets these fields.
- The DOM is not modelled: drag highlighting, the file list, the progress bar, the results gallery, and the unused scale and format inputs.
- `formatFileSize` and `updateProgress` compute with floating point and are left out.
- `handleFolderSelection` and `handleFileSelection` only pass their files to `handleFiles`, which `Client.Page.HandleFiles` models.
- `downloadAllImages` only schedules `downloadImage` for each stored result with a timer; timers and anchor clicks are not modelled.
- Client.Page.ProcessImages: the request itself (`FormData`, `fetch`) is not modelled, and the reply is a parameter rather than tied to the posted files. A reply that is not JSON, or a rejected fetch, is `Broken` with its message.
