/**
 Sorting proof-of-delivery attachments into PDFs and images, staging the accepted ones on
 disk, and merging staged files (app/services/attachment_normalizer.py).
 */
module AttachmentNormalizer {
  import opened Wrappers
  import opened Text
  import opened AttachmentIds

  newtype Byte = b: int | 0 <= b < 256
  type Bytes = seq<Byte>

  datatype Mime = Pdf | Jpeg | Png | Gif | Webp | Heic | OctetStream

  datatype Pending = Pending(ref: string, bytes: Bytes, id: Option<string>)

  datatype Verdict = Verdict(ref: string, valid: bool)

  /**
   What the service calls: downloads, image libraries, the vision classifier (None when it
   fails on an image) and the file system's answers.
   */
  datatype World = World(
    library: Library,
    download: string -> Option<Bytes>,
    heicToJpeg: Bytes -> Option<Bytes>,
    imageSize: Bytes -> Option<(int, int)>,
    classify: Pending -> Option<bool>,
    sourcesDir: string -> string,
    canMakeDir: string -> bool,
    canWrite: string -> bool)

  const PDF_MAGIC: Bytes := [0x25, 0x50, 0x44, 0x46]
  const JPEG_MAGIC: Bytes := [0xFF, 0xD8, 0xFF]
  const PNG_MAGIC: Bytes := [0x89, 0x50, 0x4E, 0x47, 0x0D, 0x0A, 0x1A, 0x0A]
  const GIF87_MAGIC: Bytes := [0x47, 0x49, 0x46, 0x38, 0x37, 0x61]
  const GIF89_MAGIC: Bytes := [0x47, 0x49, 0x46, 0x38, 0x39, 0x61]
  const RIFF_MAGIC: Bytes := [0x52, 0x49, 0x46, 0x46]
  const WEBP_MARK: Bytes := [0x57, 0x45, 0x42, 0x50]
  const FTYP_MARK: Bytes := [0x66, 0x74, 0x79, 0x70]
  const HEIC_BRANDS: seq<Bytes> := [[0x68, 0x65, 0x69, 0x63], [0x68, 0x65, 0x69, 0x78], [0x6D, 0x69, 0x66, 0x31]]

  const MIN_IMAGE_SIZE_BYTES := 10 * 1024
  const MIN_IMAGE_DIMENSION := 100

  function Lower(b: Byte): Byte {
    if 0x41 <= b <= 0x5A then b + 0x20 else b
  }

  predicate BrandAt(bytes: Bytes, k: int, brand: Bytes) {
    && 8 <= k && k + |brand| <= 16 && k + |brand| <= |bytes|
    && forall j | 0 <= j < |brand| :: Lower(bytes[k + j]) == brand[j]
  }

  /** `_detect_mime` */
  function DetectMime(bytes: Bytes): Mime {
    if PDF_MAGIC <= bytes then Pdf
    else if JPEG_MAGIC <= bytes then Jpeg
    else if PNG_MAGIC <= bytes then Png
    else if GIF87_MAGIC <= bytes || GIF89_MAGIC <= bytes then Gif
    else if |bytes| >= 12 && RIFF_MAGIC <= bytes && bytes[8..12] == WEBP_MARK then Webp
    else if |bytes| >= 12 && bytes[4..8] == FTYP_MARK
            && exists k, n | 8 <= k <= 12 && 0 <= n < |HEIC_BRANDS| :: BrandAt(bytes, k, HEIC_BRANDS[n])
    then Heic
    else OctetStream
  }

  predicate SupportedImage(mime: Mime) {
    mime.Jpeg? || mime.Png? || mime.Heic?
  }

  /** `_normalize_image_bytes` */
  function NormalizeImageBytes(w: World, bytes: Bytes, mime: Mime): Option<Bytes> {
    if mime.Heic? then w.heicToJpeg(bytes) else Some(bytes)
  }

  datatype Reason = DownloadFailed | ConversionFailed | TooSmall | TinyDimensions | CorruptImage | Unsupported(mime: Mime) | NotADocument

  /** `_prefilter_image` */
  function PrefilterImage(w: World, bytes: Bytes): Option<Reason> {
    if |bytes| < MIN_IMAGE_SIZE_BYTES then Some(TooSmall)
    else
      match w.imageSize(bytes)
      case None => Some(CorruptImage)
      case Some((width, height)) => if width < MIN_IMAGE_DIMENSION || height < MIN_IMAGE_DIMENSION then Some(TinyDimensions) else None
  }

  // ----- what becomes of one attachment

  datatype Sorted = AsPdf(bytes: Bytes) | AsImage(bytes: Bytes) | Rejected(reason: Reason)

  function SortOne(w: World, ref: string): Sorted {
    match w.download(ref)
    case None => Rejected(DownloadFailed)
    case Some(bytes) => if bytes == [] then Rejected(DownloadFailed) else SortBytes(w, bytes)
  }

  function SortBytes(w: World, bytes: Bytes): Sorted {
    var mime := DetectMime(bytes);
    if mime.Pdf? then AsPdf(bytes)
    else if !SupportedImage(mime) then Rejected(Unsupported(mime))
    else
      var image := NormalizeImageBytes(w, bytes, mime);
      if image.None? then Rejected(ConversionFailed)
      else
        var prefilter := PrefilterImage(w, image.value);
        if prefilter.Some? then Rejected(prefilter.value) else AsImage(image.value)
  }

  datatype Item = Item(ref: string, bytes: Bytes)
  datatype Rejection = Rejection(ref: string, reason: Reason)

  datatype Piles = Piles(pdfs: seq<Item>, pending: seq<Pending>, rejected: seq<Rejection>)

  function Place(piles: Piles, ref: string, sorted: Sorted, id: Option<string>): Piles {
    match sorted
    case AsPdf(bytes) => piles.(pdfs := piles.pdfs + [Item(ref, bytes)])
    case AsImage(bytes) => piles.(pending := piles.pending + [Pending(ref, bytes, id)])
    case Rejected(reason) => piles.(rejected := piles.rejected + [Rejection(ref, reason)])
  }

  /** What becomes of a reference, and the id read from it. */
  datatype Sorter = Sorter(sort: string -> Sorted, id: string -> Option<string>)

  function SorterOf(w: World, ship: Option<string>): Sorter {
    Sorter((ref: string) => SortOne(w, ref), (ref: string) => ExtractAttachmentId(w.library, ref, ship))
  }

  /** The piles after the first `n` keys. */
  function SortKeys(o: Sorter, keys: seq<string>, n: nat): Piles
    requires n <= |keys|
  {
    if n == 0 then Piles([], [], []) else AddKey(o, SortKeys(o, keys, n - 1), keys[n - 1])
  }

  function AddKey(o: Sorter, before: Piles, key: string): Piles {
    var ref := Strip(key);
    if ref == "" then before else Place(before, ref, o.sort(ref), o.id(ref))
  }

  /** `pending_bytes_by_ref`: a reference seen twice keeps the later bytes. */
  function PendingBytes(pending: seq<Pending>, n: nat): map<string, Bytes>
    requires n <= |pending|
  {
    if n == 0 then map[] else PendingBytes(pending, n - 1)[pending[n - 1].ref := pending[n - 1].bytes]
  }

  predicate KnownAre(piles: Piles, known: map<string, Bytes>) {
    known == PendingBytes(piles.pending, |piles.pending|)
  }

  /** The verdicts on the first `n` images in order; None as soon as the classifier fails on one. */
  function ClassifyBatch(w: World, pending: seq<Pending>, n: nat): Option<seq<Verdict>>
    requires n <= |pending|
  {
    if n == 0 then Some([])
    else
      match ClassifyBatch(w, pending, n - 1)
      case None => None
      case Some(before) =>
        match w.classify(pending[n - 1])
        case None => None
        case Some(valid) => Some(before + [Verdict(pending[n - 1].ref, valid)])
  }

  datatype Judged = Judged(images: seq<Item>, rejected: seq<Rejection>)

  /** The images after the first `n` verdicts. */
  function Judge(verdicts: seq<Verdict>, known: map<string, Bytes>, n: nat): Judged
    requires n <= |verdicts|
  {
    if n == 0 then Judged([], [])
    else
      JudgeOne(Judge(verdicts, known, n - 1), verdicts[n - 1], known)
  }

  function JudgeOne(before: Judged, v: Verdict, known: map<string, Bytes>): Judged {
    if v.ref !in known then before
    else if v.valid then before.(images := before.images + [Item(v.ref, known[v.ref])])
    else before.(rejected := before.rejected + [Rejection(v.ref, NotADocument)])
  }

  datatype Failure = ClassifierFailed(rejected: seq<Rejection>) | NoValidAttachments(rejected: seq<Rejection>) | NoStagedPaths | StagedReadFailed | StagedEmpty
    | StagedConversionFailed | StagedUnsupported(mime: Mime)

  datatype Accepted = Accepted(pdfs: seq<Item>, images: seq<Item>, rejected: seq<Rejection>)

  /** What `normalize_async` has accepted when it comes to merge or to stage. */
  function AcceptedOf(w: World, keys: seq<string>, ship: Option<string>): Result<Accepted, Failure> {
    Settle(w, SortKeys(SorterOf(w, ship), keys, |keys|))
  }

  /** From the piles on: the images are judged, and something must be accepted. */
  function Settle(w: World, piles: Piles): Result<Accepted, Failure> {
    var verdicts := ClassifyBatch(w, piles.pending, |piles.pending|);
    if verdicts.None? then Failure(ClassifierFailed(piles.rejected))
    else
      var judged := Judge(verdicts.value, PendingBytes(piles.pending, |piles.pending|), |verdicts.value|);
      if piles.pdfs == [] && judged.images == [] then Failure(NoValidAttachments(piles.rejected + judged.rejected))
      else Success(Accepted(piles.pdfs, judged.images, piles.rejected + judged.rejected))
  }

  /** The loop of `normalize_async` over the references. */
  method SortKeysLoop(o: Sorter, keys: seq<string>) returns (piles: Piles, pendingBytes: map<string, Bytes>)
    ensures piles == SortKeys(o, keys, |keys|)
    ensures KnownAre(piles, pendingBytes)
  {
    piles, pendingBytes := Piles([], [], []), map[];
    for i := 0 to |keys|
      invariant piles == SortKeys(o, keys, i)
      invariant KnownAre(piles, pendingBytes)
    {
      piles, pendingBytes := PileUp(o, piles, pendingBytes, keys[i]);
    }
  }

  method PileUp(o: Sorter, before: Piles, known: map<string, Bytes>, key: string)
    returns (piles: Piles, pendingBytes: map<string, Bytes>)
    requires KnownAre(before, known)
    ensures piles == AddKey(o, before, key)
    ensures KnownAre(piles, pendingBytes)
  {
    piles, pendingBytes := before, known;
    var ref := Strip(key);
    if ref == "" { return; }
    match o.sort(ref) {
      case AsPdf(bytes) => piles := piles.(pdfs := piles.pdfs + [Item(ref, bytes)]);
      case Rejected(reason) => piles := piles.(rejected := piles.rejected + [Rejection(ref, reason)]);
      case AsImage(bytes) =>
        var item := Pending(ref, bytes, o.id(ref));
        PendingBytesPrefix(piles.pending, item);
        piles := piles.(pending := piles.pending + [item]);
        pendingBytes := pendingBytes[ref := bytes];
    }
  }

  /** `classify_images_batch` */
  method ClassifyImagesBatch(w: World, pending: seq<Pending>) returns (verdicts: Option<seq<Verdict>>)
    ensures verdicts == ClassifyBatch(w, pending, |pending|)
  {
    var results: seq<Verdict> := [];
    for i := 0 to |pending|
      invariant ClassifyBatch(w, pending, i) == Some(results)
    {
      var valid := w.classify(pending[i]);
      if valid.None? {
        FailureEndsBatch(w, pending, i + 1, |pending|);
        return None;
      }
      results := results + [Verdict(pending[i].ref, valid.value)];
    }
    return Some(results);
  }

  lemma {:induction false} FailureEndsBatch(w: World, pending: seq<Pending>, n: nat, m: nat)
    requires n <= m <= |pending| && ClassifyBatch(w, pending, n).None?
    ensures ClassifyBatch(w, pending, m).None?
  {
    if n < m { FailureEndsBatch(w, pending, n, m - 1); }
  }

  /** The loop of `normalize_async` over the classifier's verdicts. */
  method JudgeLoop(verdicts: seq<Verdict>, pendingBytes: map<string, Bytes>) returns (judged: Judged)
    ensures judged == Judge(verdicts, pendingBytes, |verdicts|)
  {
    judged := Judged([], []);
    for i := 0 to |verdicts|
      invariant judged == Judge(verdicts, pendingBytes, i)
    {
      var v := verdicts[i];
      if v.ref !in pendingBytes { continue; }
      if v.valid {
        judged := judged.(images := judged.images + [Item(v.ref, pendingBytes[v.ref])]);
      } else {
        judged := judged.(rejected := judged.rejected + [Rejection(v.ref, NotADocument)]);
      }
    }
  }

  method SortAttachments(w: World, keys: seq<string>, ship: Option<string>) returns (r: Result<Accepted, Failure>)
    ensures r == AcceptedOf(w, keys, ship)
  {
    var piles, pendingBytes := SortKeysLoop(SorterOf(w, ship), keys);
    var verdicts := Some([]);
    if piles.pending != [] {
      verdicts := ClassifyImagesBatch(w, piles.pending);
      if verdicts.None? { return Failure(ClassifierFailed(piles.rejected)); }
    }
    var judged := JudgeLoop(verdicts.value, pendingBytes);
    if piles.pdfs == [] && judged.images == [] { return Failure(NoValidAttachments(piles.rejected + judged.rejected)); }
    return Success(Accepted(piles.pdfs, judged.images, piles.rejected + judged.rejected));
  }

  lemma PendingBytesPrefix(pending: seq<Pending>, last: Pending)
    ensures PendingBytes(pending + [last], |pending| + 1) == PendingBytes(pending, |pending|)[last.ref := last.bytes]
  {
    var longer := pending + [last];
    assert longer[|pending|] == last;
    SamePendingBytes(pending, longer, |pending|);
  }

  lemma {:induction false} SamePendingBytes(pending: seq<Pending>, longer: seq<Pending>, n: nat)
    requires n <= |pending| && pending <= longer
    ensures PendingBytes(longer, n) == PendingBytes(pending, n)
  {
    if n > 0 { SamePendingBytes(pending, longer, n - 1); }
  }

  // ----- the direct route

  /** The two lists the merger is given. */
  datatype MergeInputs = MergeInputs(pdfs: seq<Bytes>, images: seq<Bytes>)

  function BytesOf(items: seq<Item>): seq<Bytes> {
    seq(|items|, i requires 0 <= i < |items| => items[i].bytes)
  }

  /** `normalize_async` with `upload_merged`, up to the merger. */
  function DirectInputs(w: World, keys: seq<string>, ship: Option<string>): Result<MergeInputs, Failure> {
    match AcceptedOf(w, keys, ship)
    case Failure(f) => Failure(f)
    case Success(a) => Success(MergeInputs(BytesOf(a.pdfs), BytesOf(a.images)))
  }

  // ----- staged file names

  function Digits(n: nat): string {
    if n < 10 then [('0' as int + n) as char] else Digits(n / 10) + [('0' as int + n % 10) as char]
  }

  /** `f"{index:03d}"` */
  function Pad3(n: nat): string {
    var d := Digits(n);
    if |d| == 1 then "00" + d else if |d| == 2 then "0" + d else d
  }

  /** A path from a reference, a kind, the running index and an extension. */
  type Namer = (string, string, nat, string) -> string

  function StagedName(lib: Library, ref: string, ship: Option<string>, kind: string, index: nat, extension: string): string {
    Pad3(index) + "_" + (SanitizePathSegment(OrText(ExtractAttachmentId(lib, ref, ship), kind + Digits(index))) + extension)
  }

  function Paths(lib: Library, ship: Option<string>, sources: string): Namer {
    (ref: string, kind: string, index: nat, extension: string) => sources + "/" + StagedName(lib, ref, ship, kind, index, extension)
  }

  datatype StagedFile = StagedFile(path: string, bytes: Bytes)

  function StagedPdf(name: Namer, item: Item, index: nat): StagedFile {
    StagedFile(name(item.ref, "pdf", index, ".pdf"), item.bytes)
  }

  function StagedImage(name: Namer, item: Item, index: nat): StagedFile {
    StagedFile(name(item.ref, "img", index, if PNG_MAGIC <= item.bytes then ".png" else ".jpg"), item.bytes)
  }

  /** The `i`-th accepted file, PDFs first; the running index starts at 1. */
  function StagedAt(name: Namer, a: Accepted, i: nat): StagedFile
    requires i < |a.pdfs| + |a.images|
  {
    if i < |a.pdfs| then StagedPdf(name, a.pdfs[i], i + 1)
    else StagedImage(name, a.images[i - |a.pdfs|], i + 1)
  }

  function StagedList(name: Namer, a: Accepted): seq<StagedFile> {
    seq(|a.pdfs| + |a.images|, i requires 0 <= i < |a.pdfs| + |a.images| => StagedAt(name, a, i))
  }

  datatype Stage = Stage(files: map<string, Bytes>, paths: seq<string>)

  /** The disk and the returned paths after the first `n` files; a failed write is skipped. */
  function StageFiles(w: World, files: map<string, Bytes>, staged: seq<StagedFile>, n: nat): Stage
    requires n <= |staged|
  {
    if n == 0 then Stage(files, [])
    else
      WriteTo(w, StageFiles(w, files, staged, n - 1), staged[n - 1])
  }

  function WriteTo(w: World, before: Stage, file: StagedFile): Stage {
    if w.canWrite(file.path) then Stage(before.files[file.path := file.bytes], before.paths + [file.path]) else before
  }

  lemma PdfAt(name: Namer, a: Accepted, k: nat)
    requires k < |a.pdfs|
    ensures StagedList(name, a)[k] == StagedPdf(name, a.pdfs[k], k + 1)
  {
  }

  lemma ImageAt(name: Namer, a: Accepted, k: nat)
    requires k < |a.images|
    ensures StagedList(name, a)[|a.pdfs| + k] == StagedImage(name, a.images[k], |a.pdfs| + k + 1)
  {
  }

  lemma StageStep(w: World, files: map<string, Bytes>, staged: seq<StagedFile>, n: nat)
    requires n < |staged|
    ensures StageFiles(w, files, staged, n + 1) == WriteTo(w, StageFiles(w, files, staged, n), staged[n])
  {
  }

  /** `_stage_accepted_files` */
  function StageAll(w: World, files: map<string, Bytes>, a: Accepted, stageDir: string, ship: Option<string>): Stage {
    var root := Strip(stageDir);
    if root == "" || !w.canMakeDir(root) then Stage(files, [])
    else StageFiles(w, files, StagedList(Paths(w.library, ship, w.sourcesDir(root)), a), |a.pdfs| + |a.images|)
  }

  // ----- merging staged files

  /** The nonblank stripped paths among the first `n`. */
  function CleanPaths(paths: seq<string>, n: nat): seq<string>
    requires n <= |paths|
  {
    if n == 0 then []
    else CleanPaths(paths, n - 1) + (if Strip(paths[n - 1]) == "" then [] else [Strip(paths[n - 1])])
  }

  function ReadOne(w: World, files: map<string, Bytes>, path: string, soFar: MergeInputs): Result<MergeInputs, Failure> {
    if path !in files then Failure(StagedReadFailed)
    else if files[path] == [] then Failure(StagedEmpty)
    else
      var mime := DetectMime(files[path]);
      if mime.Pdf? then Success(soFar.(pdfs := soFar.pdfs + [files[path]]))
      else if !SupportedImage(mime) then Failure(StagedUnsupported(mime))
      else
        match NormalizeImageBytes(w, files[path], mime)
        case None => Failure(StagedConversionFailed)
        case Some(image) => Success(soFar.(images := soFar.images + [image]))
  }

  /** Reading the first `n` paths; the first failure ends it. */
  function ReadFiles(w: World, files: map<string, Bytes>, paths: seq<string>, n: nat): Result<MergeInputs, Failure>
    requires n <= |paths|
  {
    if n == 0 then Success(MergeInputs([], []))
    else
      var before := ReadFiles(w, files, paths, n - 1);
      if before.Failure? then before else ReadOne(w, files, paths[n - 1], before.value)
  }

  /** `merge_staged_local`, up to the merger. */
  function StagedInputs(w: World, files: map<string, Bytes>, mergeSourcePaths: seq<string>): Result<MergeInputs, Failure> {
    var paths := CleanPaths(mergeSourcePaths, |mergeSourcePaths|);
    if paths == [] then Failure(NoStagedPaths) else ReadFiles(w, files, paths, |paths|)
  }

  lemma {:induction false} FailureEndsReading(w: World, files: map<string, Bytes>, paths: seq<string>, n: nat, m: nat)
    requires n <= m <= |paths| && ReadFiles(w, files, paths, n).Failure?
    ensures ReadFiles(w, files, paths, m) == ReadFiles(w, files, paths, n)
  {
    if n < m { FailureEndsReading(w, files, paths, n, m - 1); }
  }

  /** The worker-local disk. */
  class StageDisk {
    var files: map<string, Bytes>

    method StageAcceptedFiles(w: World, a: Accepted, stageDir: string, ship: Option<string>) returns (mergePaths: seq<string>)
      modifies this
      ensures Stage(files, mergePaths) == StageAll(w, old(files), a, stageDir, ship)
    {
      var root := Strip(stageDir);
      if root == "" || !w.canMakeDir(root) { return []; }
      mergePaths := StageUnder(w, a, Paths(w.library, ship, w.sourcesDir(root)));
    }

    method StageUnder(w: World, a: Accepted, name: Namer) returns (mergePaths: seq<string>)
      modifies this
      ensures Stage(files, mergePaths) == StageFiles(w, old(files), StagedList(name, a), |a.pdfs| + |a.images|)
    {
      mergePaths := StagePdfs(w, a, name);
      mergePaths := StageImages(w, a, name, mergePaths, old(files));
    }

    /** The loop over the accepted PDFs. */
    method StagePdfs(w: World, a: Accepted, name: Namer) returns (mergePaths: seq<string>)
      modifies this
      ensures Stage(files, mergePaths) == StageFiles(w, old(files), StagedList(name, a), |a.pdfs|)
    {
      mergePaths := [];
      var index := 0;
      ghost var staged := StagedList(name, a);
      for k := 0 to |a.pdfs|
        invariant index == k
        invariant Stage(files, mergePaths) == StageFiles(w, old(files), staged, k)
      {
        index := index + 1;
        PdfAt(name, a, k);
        StageStep(w, old(files), staged, k);
        mergePaths := Write(w, StagedPdf(name, a.pdfs[k], index), mergePaths);
      }
    }

    /** The loop over the accepted images, whose index goes on from the PDFs. */
    method StageImages(w: World, a: Accepted, name: Namer, paths: seq<string>, ghost disk: map<string, Bytes>) returns (mergePaths: seq<string>)
      requires Stage(files, paths) == StageFiles(w, disk, StagedList(name, a), |a.pdfs|)
      modifies this
      ensures Stage(files, mergePaths) == StageFiles(w, disk, StagedList(name, a), |a.pdfs| + |a.images|)
    {
      mergePaths := paths;
      var index := |a.pdfs|;
      ghost var staged := StagedList(name, a);
      for k := 0 to |a.images|
        invariant index == |a.pdfs| + k
        invariant Stage(files, mergePaths) == StageFiles(w, disk, staged, index)
      {
        index := index + 1;
        ImageAt(name, a, k);
        StageStep(w, disk, staged, |a.pdfs| + k);
        mergePaths := Write(w, StagedImage(name, a.images[k], index), mergePaths);
      }
    }

    /** `write_bytes`, and the path on success. */
    method Write(w: World, file: StagedFile, paths: seq<string>) returns (mergePaths: seq<string>)
      modifies this
      ensures Stage(files, mergePaths) == WriteTo(w, Stage(old(files), paths), file)
    {
      if !w.canWrite(file.path) { return paths; }
      files := files[file.path := file.bytes];
      mergePaths := paths + [file.path];
    }

    method MergeStagedLocal(w: World, mergeSourcePaths: seq<string>) returns (r: Result<MergeInputs, Failure>)
      ensures r == StagedInputs(w, files, mergeSourcePaths)
    {
      var paths: seq<string> := [];
      for i := 0 to |mergeSourcePaths|
        invariant paths == CleanPaths(mergeSourcePaths, i)
      {
        if Strip(mergeSourcePaths[i]) != "" { paths := paths + [Strip(mergeSourcePaths[i])]; }
      }
      if paths == [] { return Failure(NoStagedPaths); }
      var pdfBytesList, imageBytesList := [], [];
      for i := 0 to |paths|
        invariant ReadFiles(w, files, paths, i) == Success(MergeInputs(pdfBytesList, imageBytesList))
      {
        r := ReadOne(w, files, paths[i], MergeInputs(pdfBytesList, imageBytesList));
        if r.Failure? {
          FailureEndsReading(w, files, paths, i + 1, |paths|);
          return r;
        }
        pdfBytesList, imageBytesList := r.value.pdfs, r.value.images;
      }
      return Success(MergeInputs(pdfBytesList, imageBytesList));
    }
  }
}
