/**
 What sorting, judging, naming and reading back say of the bytes themselves: which leading
 bytes make a PDF or an image, why a reference is rejected, and which references end where.
 */
module AttachmentNormalizerMeaning {
  import opened Wrappers
  import opened Text
  import opened AttachmentIds
  import opened AttachmentNormalizer
  import opened AttachmentNormalizerProperties

  // ----- kinds of bytes

  predicate StartsPdf(b: Bytes) {
    |b| >= 4 && b[0] == 0x25 && b[1] == 0x50 && b[2] == 0x44 && b[3] == 0x46
  }

  predicate StartsJpeg(b: Bytes) {
    |b| >= 3 && b[0] == 0xFF && b[1] == 0xD8 && b[2] == 0xFF
  }

  predicate StartsPng(b: Bytes) {
    |b| >= 8 && b[0] == 0x89 && b[1] == 0x50 && b[2] == 0x4E && b[3] == 0x47 && b[4] == 0x0D && b[5] == 0x0A && b[6] == 0x1A && b[7] == 0x0A
  }

  predicate StartsGif(b: Bytes) {
    |b| >= 6 && b[0] == 0x47 && b[1] == 0x49 && b[2] == 0x46 && b[3] == 0x38 && (b[4] == 0x37 || b[4] == 0x39) && b[5] == 0x61
  }

  predicate HoldsWebp(b: Bytes) {
    && |b| >= 12 && b[0] == 0x52 && b[1] == 0x49 && b[2] == 0x46 && b[3] == 0x46
    && b[8] == 0x57 && b[9] == 0x45 && b[10] == 0x42 && b[11] == 0x50
  }

  /** The letter in lower or upper case; a digit as it is. */
  predicate IsLetter(b: Byte, lower: Byte) {
    b == lower || (lower >= 0x61 && b == lower - 0x20)
  }

  predicate HoldsBrand(b: Bytes, k: nat, x: Byte, y: Byte, z: Byte, u: Byte) {
    k + 4 <= |b| && IsLetter(b[k], x) && IsLetter(b[k + 1], y) && IsLetter(b[k + 2], z) && IsLetter(b[k + 3], u)
  }

  /** `heic`, `heix` or `mif1`, in any case, at `k`. */
  predicate HoldsHeicBrand(b: Bytes, k: nat) {
    HoldsBrand(b, k, 0x68, 0x65, 0x69, 0x63) || HoldsBrand(b, k, 0x68, 0x65, 0x69, 0x78) || HoldsBrand(b, k, 0x6D, 0x69, 0x66, 0x31)
  }

  predicate HoldsHeic(b: Bytes) {
    && |b| >= 12 && b[4] == 0x66 && b[5] == 0x74 && b[6] == 0x79 && b[7] == 0x70
    && exists k | 8 <= k <= 12 :: HoldsHeicBrand(b, k)
  }

  /** Leading bytes alone tell PDF, JPEG, PNG and GIF; they, and then WebP, win over a HEIC brand. */
  predicate IsKind(b: Bytes, mime: Mime) {
    match mime
    case Pdf => StartsPdf(b)
    case Jpeg => StartsJpeg(b)
    case Png => StartsPng(b)
    case Gif => StartsGif(b)
    case Webp => HoldsWebp(b)
    case Heic => HoldsHeic(b) && !StartsPdf(b) && !StartsJpeg(b) && !HoldsWebp(b)
    case OctetStream => !StartsPdf(b) && !StartsJpeg(b) && !StartsPng(b) && !StartsGif(b) && !HoldsWebp(b) && !HoldsHeic(b)
  }

  lemma BrandIs(b: Bytes, k: nat, brand: Bytes)
    requires |brand| == 4 && 8 <= k <= 12 && forall j | 0 <= j < 4 :: 0x61 <= brand[j] <= 0x7A || brand[j] < 0x41
    ensures BrandAt(b, k, brand) <==> HoldsBrand(b, k, brand[0], brand[1], brand[2], brand[3])
  {
    if BrandAt(b, k, brand) {
      assert Lower(b[k]) == brand[0] && Lower(b[k + 1]) == brand[1] && Lower(b[k + 2]) == brand[2] && Lower(b[k + 3]) == brand[3];
    }
  }

  predicate SomeBrandAt(b: Bytes, k: int) {
    exists n | 0 <= n < |HEIC_BRANDS| :: BrandAt(b, k, HEIC_BRANDS[n])
  }

  lemma SomeBrandIs(b: Bytes, k: nat)
    requires 8 <= k <= 12
    ensures SomeBrandAt(b, k) <==> HoldsHeicBrand(b, k)
  {
    BrandIs(b, k, HEIC_BRANDS[0]);
    BrandIs(b, k, HEIC_BRANDS[1]);
    BrandIs(b, k, HEIC_BRANDS[2]);
    assert |HEIC_BRANDS| == 3;
  }

  lemma HeicIs(b: Bytes)
    requires |b| >= 12 && b[4..8] == FTYP_MARK
    ensures (exists k, n | 8 <= k <= 12 && 0 <= n < |HEIC_BRANDS| :: BrandAt(b, k, HEIC_BRANDS[n])) <==> HoldsHeic(b)
  {
    assert b[4] == b[4..8][0] && b[5] == b[4..8][1] && b[6] == b[4..8][2] && b[7] == b[4..8][3];
    forall k | 8 <= k <= 12 ensures SomeBrandAt(b, k) <==> HoldsHeicBrand(b, k) {
      SomeBrandIs(b, k);
    }
    if k, n :| 8 <= k <= 12 && 0 <= n < |HEIC_BRANDS| && BrandAt(b, k, HEIC_BRANDS[n]) {
      assert SomeBrandAt(b, k);
    }
    if k :| 8 <= k <= 12 && HoldsHeicBrand(b, k) {
      assert SomeBrandAt(b, k);
    }
  }

  lemma MarkIs(b: Bytes)
    ensures |b| >= 12 && b[4..8] == FTYP_MARK <==> |b| >= 12 && b[4] == 0x66 && b[5] == 0x74 && b[6] == 0x79 && b[7] == 0x70
  {
  }

  lemma PrefixesAre(b: Bytes)
    ensures PDF_MAGIC <= b <==> StartsPdf(b)
    ensures JPEG_MAGIC <= b <==> StartsJpeg(b)
    ensures PNG_MAGIC <= b <==> StartsPng(b)
    ensures GIF87_MAGIC <= b || GIF89_MAGIC <= b <==> StartsGif(b)
    ensures |b| >= 12 && RIFF_MAGIC <= b && b[8..12] == WEBP_MARK <==> HoldsWebp(b)
  {
  }

  lemma DetectIff(b: Bytes, mime: Mime)
    ensures DetectMime(b) == mime <==> IsKind(b, mime)
  {
    PrefixesAre(b);
    MarkIs(b);
    if |b| >= 12 && b[4..8] == FTYP_MARK { HeicIs(b); }
  }

  // ----- what becomes of a reference

  /** The download of the reference gives these bytes. */
  predicate Gives(w: World, ref: string, bytes: Bytes) {
    w.download(ref) == Some(bytes) && bytes != []
  }

  /** A JPEG or PNG as it is, a HEIC file as the converted JPEG. */
  predicate ImageFrom(w: World, bytes: Bytes, image: Bytes) {
    if StartsJpeg(bytes) || StartsPng(bytes) then image == bytes
    else IsKind(bytes, Heic) && w.heicToJpeg(bytes) == Some(image)
  }

  predicate BigEnough(w: World, image: Bytes) {
    && |image| >= 10240
    && w.imageSize(image).Some? && w.imageSize(image).value.0 >= 100 && w.imageSize(image).value.1 >= 100
  }

  /** The image cannot be used, for this reason. */
  predicate BadImage(w: World, image: Bytes, reason: Reason) {
    if |image| < 10240 then reason.TooSmall?
    else if w.imageSize(image).None? then reason.CorruptImage?
    else (w.imageSize(image).value.0 < 100 || w.imageSize(image).value.1 < 100) && reason.TinyDimensions?
  }

  /** Bytes that are neither a PDF nor a usable image, for this reason. */
  predicate BadBytes(w: World, bytes: Bytes, reason: Reason) {
    if StartsPdf(bytes) then false
    else if StartsJpeg(bytes) || StartsPng(bytes) then BadImage(w, bytes, reason)
    else if StartsGif(bytes) then reason == Unsupported(Gif)
    else if HoldsWebp(bytes) then reason == Unsupported(Webp)
    else if !HoldsHeic(bytes) then reason == Unsupported(OctetStream)
    else if w.heicToJpeg(bytes).None? then reason.ConversionFailed?
    else BadImage(w, w.heicToJpeg(bytes).value, reason)
  }

  predicate IsPdf(w: World, ref: string, bytes: Bytes) {
    Gives(w, ref, bytes) && StartsPdf(bytes)
  }

  predicate IsImage(w: World, ref: string, image: Bytes) {
    && w.download(ref).Some? && w.download(ref).value != []
    && ImageFrom(w, w.download(ref).value, image) && BigEnough(w, image)
  }

  predicate IsRejected(w: World, ref: string, reason: Reason) {
    if w.download(ref).None? || w.download(ref).value == [] then reason.DownloadFailed?
    else BadBytes(w, w.download(ref).value, reason)
  }

  lemma PrefilterIs(w: World, image: Bytes)
    ensures PrefilterImage(w, image).None? <==> BigEnough(w, image)
    ensures forall reason :: PrefilterImage(w, image) == Some(reason) <==> BadImage(w, image, reason)
  {
  }

  lemma SortBytesIs(w: World, bytes: Bytes)
    ensures forall b :: SortBytes(w, bytes) == AsPdf(b) <==> StartsPdf(bytes) && b == bytes
    ensures forall image :: SortBytes(w, bytes) == AsImage(image) <==> ImageFrom(w, bytes, image) && BigEnough(w, image)
    ensures forall reason :: SortBytes(w, bytes) == Rejected(reason) <==> BadBytes(w, bytes, reason)
  {
    var mime := DetectMime(bytes);
    DetectIff(bytes, mime);
    if SupportedImage(mime) && NormalizeImageBytes(w, bytes, mime).Some? {
      PrefilterIs(w, NormalizeImageBytes(w, bytes, mime).value);
    }
  }

  /**
   Whether a reference is a PDF, an image for the classifier or rejected, and why, from its
   download's bytes, the HEIC conversion and the image size.
   */
  lemma SortOneIff(w: World, ref: string)
    ensures forall bytes :: SortOne(w, ref) == AsPdf(bytes) <==> IsPdf(w, ref, bytes)
    ensures forall image :: SortOne(w, ref) == AsImage(image) <==> IsImage(w, ref, image)
    ensures forall reason :: SortOne(w, ref) == Rejected(reason) <==> IsRejected(w, ref, reason)
  {
    if w.download(ref).Some? && w.download(ref).value != [] {
      SortBytesIs(w, w.download(ref).value);
    }
  }

  // ----- which references end in which pile

  /** Ascending places of the first `n` keys. */
  predicate Ascends(places: seq<int>, n: nat) {
    && (forall k | 0 <= k < |places| :: 0 <= places[k] < n)
    && (forall i, j | 0 <= i < j < |places| :: places[i] < places[j])
  }

  /** The places, ascending, are exactly those of the nonblank keys that `holds` of. */
  ghost predicate Picks(places: seq<int>, keys: seq<string>, n: nat, holds: string -> bool)
    requires n <= |keys|
  {
    && Ascends(places, n)
    && forall i | 0 <= i < n :: i in places <==> Strip(keys[i]) != "" && holds(Strip(keys[i]))
  }

  /** The places of the PDFs, of the images and of the rejected references among the keys. */
  datatype Places = Places(pdfs: seq<int>, images: seq<int>, rejected: seq<int>)

  predicate PdfRows(o: Sorter, keys: seq<string>, pdfs: seq<Item>, places: seq<int>) {
    && |pdfs| == |places|
    && forall k | 0 <= k < |pdfs| ::
         0 <= places[k] < |keys| && pdfs[k].ref == Strip(keys[places[k]]) && o.sort(pdfs[k].ref) == AsPdf(pdfs[k].bytes)
  }

  predicate ImageRows(o: Sorter, keys: seq<string>, images: seq<Pending>, places: seq<int>) {
    && |images| == |places|
    && forall k | 0 <= k < |images| ::
         && 0 <= places[k] < |keys| && images[k].ref == Strip(keys[places[k]])
         && o.sort(images[k].ref) == AsImage(images[k].bytes) && images[k].id == o.id(images[k].ref)
  }

  predicate RejectedRows(o: Sorter, keys: seq<string>, rejected: seq<Rejection>, places: seq<int>) {
    && |rejected| == |places|
    && forall k | 0 <= k < |rejected| ::
         0 <= places[k] < |keys| && rejected[k].ref == Strip(keys[places[k]]) && o.sort(rejected[k].ref) == Rejected(rejected[k].reason)
  }

  lemma PicksNext(places: seq<int>, keys: seq<string>, j: nat, holds: string -> bool)
    requires j < |keys| && Picks(places, keys, j, holds)
    ensures Strip(keys[j]) != "" && holds(Strip(keys[j])) ==> Picks(places + [j], keys, j + 1, holds)
    ensures !(Strip(keys[j]) != "" && holds(Strip(keys[j]))) ==> Picks(places, keys, j + 1, holds)
  {
    var longer := places + [j];
    assert forall i :: i in longer <==> i in places || i == j;
    assert j !in places;
  }

  ghost predicate SortedInto(o: Sorter, keys: seq<string>, n: nat, piles: Piles, places: Places)
    requires n <= |keys|
  {
    && PdfRows(o, keys, piles.pdfs, places.pdfs) && ImageRows(o, keys, piles.pending, places.images)
    && RejectedRows(o, keys, piles.rejected, places.rejected)
    && Picks(places.pdfs, keys, n, (ref: string) => o.sort(ref).AsPdf?)
    && Picks(places.images, keys, n, (ref: string) => o.sort(ref).AsImage?)
    && Picks(places.rejected, keys, n, (ref: string) => o.sort(ref).Rejected?)
  }

  lemma {:induction false} PilesAreSorted(o: Sorter, keys: seq<string>, n: nat) returns (places: Places)
    requires n <= |keys|
    ensures SortedInto(o, keys, n, SortKeys(o, keys, n), places)
  {
    if n == 0 {
      places := Places([], [], []);
    } else {
      var j := n - 1;
      var before := PilesAreSorted(o, keys, j);
      PicksNext(before.pdfs, keys, j, (ref: string) => o.sort(ref).AsPdf?);
      PicksNext(before.images, keys, j, (ref: string) => o.sort(ref).AsImage?);
      PicksNext(before.rejected, keys, j, (ref: string) => o.sort(ref).Rejected?);
      places := NextPlaces(o, before, j, keys[j]);
      NextRows(o, keys, j, SortKeys(o, keys, j), before);
    }
  }

  function NextPlaces(o: Sorter, before: Places, j: nat, key: string): Places {
    var ref := Strip(key);
    if ref == "" then before
    else
      match o.sort(ref)
      case AsPdf(_) => before.(pdfs := before.pdfs + [j])
      case AsImage(_) => before.(images := before.images + [j])
      case Rejected(_) => before.(rejected := before.rejected + [j])
  }

  lemma NextRows(o: Sorter, keys: seq<string>, j: nat, piles: Piles, before: Places)
    requires j < |keys| && PdfRows(o, keys, piles.pdfs, before.pdfs) && ImageRows(o, keys, piles.pending, before.images)
    requires RejectedRows(o, keys, piles.rejected, before.rejected)
    ensures var after, places := AddKey(o, piles, keys[j]), NextPlaces(o, before, j, keys[j]);
            && PdfRows(o, keys, after.pdfs, places.pdfs) && ImageRows(o, keys, after.pending, places.images)
            && RejectedRows(o, keys, after.rejected, places.rejected)
  {
  }

  // ----- what sorting returns

  predicate StartsAsPdf(w: World, ref: string) {
    w.download(ref).Some? && StartsPdf(w.download(ref).value)
  }

  ghost predicate SomeImage(w: World, ref: string) {
    exists image :: IsImage(w, ref, image)
  }

  ghost predicate SomeReason(w: World, ref: string) {
    exists reason :: IsRejected(w, ref, reason)
  }

  /** The PDFs, in order: exactly the nonblank references whose download starts with the PDF bytes. */
  ghost predicate PdfPile(w: World, keys: seq<string>, pdfs: seq<Item>, places: seq<int>) {
    && Picks(places, keys, |keys|, (ref: string) => StartsAsPdf(w, ref)) && |pdfs| == |places|
    && forall k | 0 <= k < |pdfs| :: pdfs[k].ref == Strip(keys[places[k]]) && IsPdf(w, pdfs[k].ref, pdfs[k].bytes)
  }

  /** The images for the classifier, in order, each with the id read from its reference. */
  ghost predicate ImagePile(w: World, keys: seq<string>, ship: Option<string>, pending: seq<Pending>, places: seq<int>) {
    && Picks(places, keys, |keys|, (ref: string) => SomeImage(w, ref)) && |pending| == |places|
    && forall k | 0 <= k < |pending| ::
         && pending[k].ref == Strip(keys[places[k]]) && IsImage(w, pending[k].ref, pending[k].bytes)
         && pending[k].id == ExtractAttachmentId(w.library, pending[k].ref, ship)
  }

  /** The rejected references, in order, each with its reason. */
  ghost predicate RejectedPile(w: World, keys: seq<string>, rejected: seq<Rejection>, places: seq<int>) {
    && Picks(places, keys, |keys|, (ref: string) => SomeReason(w, ref)) && |rejected| == |places|
    && forall k | 0 <= k < |rejected| :: rejected[k].ref == Strip(keys[places[k]]) && IsRejected(w, rejected[k].ref, rejected[k].reason)
  }

  lemma PicksAlike(places: seq<int>, keys: seq<string>, n: nat, f: string -> bool, g: string -> bool)
    requires n <= |keys| && Picks(places, keys, n, f) && forall ref :: f(ref) <==> g(ref)
    ensures Picks(places, keys, n, g)
  {
  }

  lemma SortsAs(w: World, ref: string)
    ensures SortOne(w, ref).AsPdf? <==> StartsAsPdf(w, ref)
    ensures SortOne(w, ref).AsImage? <==> SomeImage(w, ref)
    ensures SortOne(w, ref).Rejected? <==> SomeReason(w, ref)
  {
    SortOneIff(w, ref);
    match SortOne(w, ref)
    case AsPdf(bytes) => assert IsPdf(w, ref, bytes);
    case AsImage(image) => assert IsImage(w, ref, image);
    case Rejected(reason) => assert IsRejected(w, ref, reason);
  }

  lemma PilesMeaning(w: World, keys: seq<string>, ship: Option<string>) returns (places: Places)
    ensures var piles := SortKeys(SorterOf(w, ship), keys, |keys|);
            && PdfPile(w, keys, piles.pdfs, places.pdfs) && ImagePile(w, keys, ship, piles.pending, places.images)
            && RejectedPile(w, keys, piles.rejected, places.rejected)
  {
    var o := SorterOf(w, ship);
    places := PilesAreSorted(o, keys, |keys|);
    forall ref
      ensures o.sort(ref).AsPdf? <==> StartsAsPdf(w, ref)
      ensures o.sort(ref).AsImage? <==> SomeImage(w, ref)
      ensures o.sort(ref).Rejected? <==> SomeReason(w, ref)
    {
      SortsAs(w, ref);
    }
    PicksAlike(places.pdfs, keys, |keys|, (ref: string) => o.sort(ref).AsPdf?, (ref: string) => StartsAsPdf(w, ref));
    PicksAlike(places.images, keys, |keys|, (ref: string) => o.sort(ref).AsImage?, (ref: string) => SomeImage(w, ref));
    PicksAlike(places.rejected, keys, |keys|, (ref: string) => o.sort(ref).Rejected?, (ref: string) => SomeReason(w, ref));
    RowsMean(w, keys, ship, SortKeys(o, keys, |keys|), places);
  }

  lemma RowsMean(w: World, keys: seq<string>, ship: Option<string>, piles: Piles, places: Places)
    requires var o := SorterOf(w, ship);
             && PdfRows(o, keys, piles.pdfs, places.pdfs) && ImageRows(o, keys, piles.pending, places.images)
             && RejectedRows(o, keys, piles.rejected, places.rejected)
    ensures forall k | 0 <= k < |piles.pdfs| :: IsPdf(w, piles.pdfs[k].ref, piles.pdfs[k].bytes)
    ensures forall k | 0 <= k < |piles.pending| ::
              IsImage(w, piles.pending[k].ref, piles.pending[k].bytes) && piles.pending[k].id == ExtractAttachmentId(w.library, piles.pending[k].ref, ship)
    ensures forall k | 0 <= k < |piles.rejected| :: IsRejected(w, piles.rejected[k].ref, piles.rejected[k].reason)
  {
    forall k | 0 <= k < |piles.pdfs| ensures IsPdf(w, piles.pdfs[k].ref, piles.pdfs[k].bytes) {
      SortOneIff(w, piles.pdfs[k].ref);
    }
    forall k | 0 <= k < |piles.pending|
      ensures IsImage(w, piles.pending[k].ref, piles.pending[k].bytes) && piles.pending[k].id == ExtractAttachmentId(w.library, piles.pending[k].ref, ship)
    {
      SortOneIff(w, piles.pending[k].ref);
    }
    forall k | 0 <= k < |piles.rejected| ensures IsRejected(w, piles.rejected[k].ref, piles.rejected[k].reason) {
      SortOneIff(w, piles.rejected[k].ref);
    }
  }

  /** The images that the classifier finds to be no document, in order. */
  function InvalidImages(w: World, pending: seq<Pending>, n: nat): seq<Rejection>
    requires n <= |pending|
  {
    if n == 0 then []
    else
      var p := pending[n - 1];
      InvalidImages(w, pending, n - 1) + (if w.classify(p) == Some(false) then [Rejection(p.ref, NotADocument)] else [])
  }

  lemma {:induction false} BatchFailsIff(w: World, pending: seq<Pending>, n: nat)
    requires n <= |pending|
    ensures ClassifyBatch(w, pending, n).None? <==> exists k | 0 <= k < n :: w.classify(pending[k]).None?
  {
    if n > 0 { BatchFailsIff(w, pending, n - 1); }
  }

  lemma {:induction false} JudgedRejections(w: World, pending: seq<Pending>, verdicts: seq<Verdict>, known: map<string, Bytes>, n: nat)
    requires n <= |pending| == |verdicts|
    requires forall k | 0 <= k < |pending| :: w.classify(pending[k]).Some? && verdicts[k] == Verdict(pending[k].ref, w.classify(pending[k]).value)
    requires forall k | 0 <= k < |pending| :: pending[k].ref in known
    ensures Judge(verdicts, known, n).rejected == InvalidImages(w, pending, n)
  {
    if n > 0 { JudgedRejections(w, pending, verdicts, known, n - 1); }
  }

  /** Pending images of one reference have the same bytes. */
  predicate OneImageEach(pending: seq<Pending>) {
    forall i, j | 0 <= i < |pending| && 0 <= j < |pending| && pending[i].ref == pending[j].ref :: pending[i].bytes == pending[j].bytes
  }

  lemma SettleMeaning(w: World, piles: Piles)
    requires OneImageEach(piles.pending)
    ensures var valid, invalid := ValidImages(w, piles.pending, |piles.pending|), InvalidImages(w, piles.pending, |piles.pending|);
            Settle(w, piles)
            == if SomeUnanswered(w, piles.pending) then Failure(ClassifierFailed(piles.rejected))
               else if piles.pdfs == [] && valid == [] then Failure(NoValidAttachments(piles.rejected + invalid))
               else Success(Accepted(piles.pdfs, valid, piles.rejected + invalid))
  {
    var pending := piles.pending;
    BatchFailsIff(w, pending, |pending|);
    if ClassifyBatch(w, pending, |pending|).Some? {
      var known := PendingBytes(pending, |pending|);
      BatchAnswers(w, pending, |pending|);
      PendingAreKnown(pending, |pending|);
      JudgedAreValid(w, pending, ClassifyBatch(w, pending, |pending|).value, known, |pending|);
      JudgedRejections(w, pending, ClassifyBatch(w, pending, |pending|).value, known, |pending|);
    }
  }

  lemma ImagesAreOneEach(w: World, keys: seq<string>, ship: Option<string>, pending: seq<Pending>, places: seq<int>)
    requires ImagePile(w, keys, ship, pending, places)
    ensures OneImageEach(pending)
  {
    forall i, j | 0 <= i < |pending| && 0 <= j < |pending| && pending[i].ref == pending[j].ref ensures pending[i].bytes == pending[j].bytes {
      SortOneIff(w, pending[i].ref);
    }
  }

  /**
   What sorting returns: the PDFs, the images that the classifier finds valid, and the
   rejected references followed by the images found invalid, each in the order sent; or the
   failure of the classifier on some image, or of a sending with nothing valid.
   */
  lemma AcceptedMeaning(w: World, keys: seq<string>, ship: Option<string>)
    returns (pdfs: seq<Item>, pending: seq<Pending>, rejected: seq<Rejection>, places: Places)
    ensures PdfPile(w, keys, pdfs, places.pdfs) && ImagePile(w, keys, ship, pending, places.images) && RejectedPile(w, keys, rejected, places.rejected)
    ensures var valid, invalid := ValidImages(w, pending, |pending|), InvalidImages(w, pending, |pending|);
            AcceptedOf(w, keys, ship)
            == if SomeUnanswered(w, pending) then Failure(ClassifierFailed(rejected))
               else if pdfs == [] && valid == [] then Failure(NoValidAttachments(rejected + invalid))
               else Success(Accepted(pdfs, valid, rejected + invalid))
  {
    var piles := SortKeys(SorterOf(w, ship), keys, |keys|);
    places := PilesMeaning(w, keys, ship);
    pdfs, pending, rejected := piles.pdfs, piles.pending, piles.rejected;
    ImagesAreOneEach(w, keys, ship, pending, places.images);
    SettleMeaning(w, piles);
  }

  // ----- names of staged files

  /** The number in decimal, with leading zeros up to three digits and no further. */
  lemma Pad3Meaning(n: nat)
    ensures AllDigits(Pad3(n)) && ValueOf(Pad3(n)) == n && |Pad3(n)| >= 3 && (|Pad3(n)| > 3 ==> Pad3(n)[0] != '0')
  {
    Pad3Value(n);
    DigitsLead(n);
  }

  lemma {:induction false} DigitsLead(n: nat)
    ensures Digits(n) != "" && AllDigits(Digits(n)) && (Digits(n)[0] == '0' ==> n == 0)
  {
    if n >= 10 { DigitsLead(n / 10); }
  }

  /** What a staged file is named by: the id in its reference, or else its kind and number. */
  lemma PathsMeaning(lib: Library, ship: Option<string>, sources: string, ref: string, kind: string, index: nat, extension: string)
    ensures var id := ExtractAttachmentId(lib, ref, ship);
            var named := if id.Some? && id.value != "" then id.value else kind + Digits(index);
            Paths(lib, ship, sources)(ref, kind, index, extension)
            == sources + "/" + (Pad3(index) + "_" + (SanitizePathSegment(Some(named)) + extension))
  {
  }

  /** The PDFs are numbered from one and named `.pdf`, the images after them, by their own first bytes. */
  lemma StagedListMeaning(name: Namer, a: Accepted)
    ensures |StagedList(name, a)| == |a.pdfs| + |a.images|
    ensures forall i | 0 <= i < |a.pdfs| ::
              StagedList(name, a)[i] == StagedFile(name(a.pdfs[i].ref, "pdf", i + 1, ".pdf"), a.pdfs[i].bytes)
    ensures forall i | 0 <= i < |a.images| ::
              var extension := if StartsPng(a.images[i].bytes) then ".png" else ".jpg";
              StagedList(name, a)[|a.pdfs| + i] == StagedFile(name(a.images[i].ref, "img", |a.pdfs| + i + 1, extension), a.images[i].bytes)
  {
    forall i | 0 <= i < |a.images| ensures PNG_MAGIC <= a.images[i].bytes <==> StartsPng(a.images[i].bytes) {
      PrefixesAre(a.images[i].bytes);
    }
  }

  // ----- reading staged files back

  /** The file cannot be read back, for this reason. */
  predicate Unreadable(w: World, files: map<string, Bytes>, path: string, failure: Failure) {
    if path !in files then failure.StagedReadFailed?
    else if files[path] == [] then failure.StagedEmpty?
    else
      var b := files[path];
      if IsKind(b, Heic) then w.heicToJpeg(b).None? && failure.StagedConversionFailed?
      else exists mime :: IsKind(b, mime) && (mime.Gif? || mime.Webp? || mime.OctetStream?) && failure == StagedUnsupported(mime)
  }

  predicate ReadsAsPdf(files: map<string, Bytes>, path: string) {
    path in files && StartsPdf(files[path])
  }

  predicate ReadsAsImage(w: World, files: map<string, Bytes>, path: string, image: Bytes) {
    path in files && files[path] != [] && !StartsPdf(files[path]) && ImageFrom(w, files[path], image)
  }

  lemma ReadOneMeaning(w: World, files: map<string, Bytes>, path: string, soFar: MergeInputs)
    ensures forall failure :: ReadOne(w, files, path, soFar) == Failure(failure) <==> Unreadable(w, files, path, failure)
    ensures ReadsAsPdf(files, path) ==> ReadOne(w, files, path, soFar) == Success(MergeInputs(soFar.pdfs + [files[path]], soFar.images))
    ensures forall image | ReadsAsImage(w, files, path, image) ::
              ReadOne(w, files, path, soFar) == Success(MergeInputs(soFar.pdfs, soFar.images + [image]))
    ensures ReadOne(w, files, path, soFar).Success? ==> ReadsAsPdf(files, path) || exists image :: ReadsAsImage(w, files, path, image)
  {
    if path in files && files[path] != [] {
      var b := files[path];
      DetectIff(b, DetectMime(b));
      if SupportedImage(DetectMime(b)) && NormalizeImageBytes(w, b, DetectMime(b)).Some? {
        assert ReadsAsImage(w, files, path, NormalizeImageBytes(w, b, DetectMime(b)).value);
      }
    }
  }

  /** Nothing is wrong with the file. */
  ghost predicate Readable(w: World, files: map<string, Bytes>, path: string) {
    forall failure :: !Unreadable(w, files, path, failure)
  }

  /** The PDFs among the first `n` paths. */
  function PdfsAt(files: map<string, Bytes>, paths: seq<string>, n: nat): seq<Bytes>
    requires n <= |paths|
  {
    if n == 0 then []
    else PdfsAt(files, paths, n - 1) + if ReadsAsPdf(files, paths[n - 1]) then [files[paths[n - 1]]] else []
  }

  /** The images among the first `n` paths, HEIC files as JPEGs. */
  function ImagesAt(w: World, files: map<string, Bytes>, paths: seq<string>, n: nat): seq<Bytes>
    requires n <= |paths|
  {
    if n == 0 then []
    else
      ImagesAt(w, files, paths, n - 1) + ImageAtPath(w, files, paths[n - 1])
  }

  function ImageAtPath(w: World, files: map<string, Bytes>, path: string): seq<Bytes> {
    if path !in files || StartsPdf(files[path]) then []
    else if StartsJpeg(files[path]) || StartsPng(files[path]) then [files[path]]
    else if IsKind(files[path], Heic) && w.heicToJpeg(files[path]).Some? then [w.heicToJpeg(files[path]).value]
    else []
  }

  /** One more file read, behind those read so far. */
  lemma ReadOneIs(w: World, files: map<string, Bytes>, path: string, soFar: MergeInputs)
    requires Readable(w, files, path)
    ensures ReadOne(w, files, path, soFar)
         == Success(MergeInputs(soFar.pdfs + (if ReadsAsPdf(files, path) then [files[path]] else []), soFar.images + ImageAtPath(w, files, path)))
  {
    ReadOneMeaning(w, files, path, soFar);
    forall failure ensures ReadOne(w, files, path, soFar) != Failure(failure) {
      assert !Unreadable(w, files, path, failure);
    }
    if ReadsAsPdf(files, path) {
      assert ImageAtPath(w, files, path) == [] && soFar.images + [] == soFar.images;
    } else {
      var image :| ReadsAsImage(w, files, path, image);
      assert ImageAtPath(w, files, path) == [image] && soFar.pdfs + [] == soFar.pdfs;
    }
  }

  ghost predicate AllReadable(w: World, files: map<string, Bytes>, paths: seq<string>, n: nat)
    requires n <= |paths|
  {
    forall k | 0 <= k < n :: Readable(w, files, paths[k])
  }

  lemma ReadFilesNext(w: World, files: map<string, Bytes>, paths: seq<string>, j: nat, soFar: MergeInputs)
    requires j < |paths| && ReadFiles(w, files, paths, j) == Success(soFar)
    ensures ReadFiles(w, files, paths, j + 1) == ReadOne(w, files, paths[j], soFar)
  {
  }

  lemma PartsNext(w: World, files: map<string, Bytes>, paths: seq<string>, j: nat)
    requires j < |paths|
    ensures PdfsAt(files, paths, j + 1) == PdfsAt(files, paths, j) + if ReadsAsPdf(files, paths[j]) then [files[paths[j]]] else []
    ensures ImagesAt(w, files, paths, j + 1) == ImagesAt(w, files, paths, j) + ImageAtPath(w, files, paths[j])
  {
  }

  /** Files that can all be read are read in turn, PDFs and images apart. */
  lemma {:induction false} ReadFilesMeaning(w: World, files: map<string, Bytes>, paths: seq<string>, n: nat)
    requires n <= |paths| && AllReadable(w, files, paths, n)
    ensures ReadFiles(w, files, paths, n) == Success(MergeInputs(PdfsAt(files, paths, n), ImagesAt(w, files, paths, n)))
  {
    if n > 0 {
      var j := n - 1;
      var soFar := MergeInputs(PdfsAt(files, paths, j), ImagesAt(w, files, paths, j));
      ReadFilesMeaning(w, files, paths, j);
      ReadFilesNext(w, files, paths, j, soFar);
      ReadOneIs(w, files, paths[j], soFar);
      PartsNext(w, files, paths, j);
    }
  }

  /** The first file that cannot be read decides. */
  lemma ReadFilesFails(w: World, files: map<string, Bytes>, paths: seq<string>, k: nat, failure: Failure)
    requires k < |paths| && AllReadable(w, files, paths, k) && Unreadable(w, files, paths[k], failure)
    ensures ReadFiles(w, files, paths, |paths|) == Failure(failure)
  {
    ReadFilesMeaning(w, files, paths, k);
    ReadOneMeaning(w, files, paths[k], ReadFiles(w, files, paths, k).value);
    assert ReadFiles(w, files, paths, k + 1) == Failure(failure);
    FailureEndsReading(w, files, paths, k + 1, |paths|);
  }

  predicate CleanRows(cleaned: seq<string>, paths: seq<string>, places: seq<int>) {
    |cleaned| == |places| && forall k | 0 <= k < |places| :: 0 <= places[k] < |paths| && cleaned[k] == Strip(paths[places[k]])
  }

  lemma CleanRowsNext(cleaned: seq<string>, paths: seq<string>, places: seq<int>, j: nat)
    requires CleanRows(cleaned, paths, places) && j < |paths|
    ensures CleanRows(cleaned + [Strip(paths[j])], paths, places + [j])
  {
  }

  lemma CleanPathsNext(paths: seq<string>, j: nat)
    requires j < |paths|
    ensures CleanPaths(paths, j + 1) == if Strip(paths[j]) == "" then CleanPaths(paths, j) else CleanPaths(paths, j) + [Strip(paths[j])]
  {
  }

  /** The paths read are the nonblank ones, stripped, in order. */
  lemma {:induction false} CleanPathsMeaning(paths: seq<string>, n: nat) returns (places: seq<int>)
    requires n <= |paths|
    ensures Picks(places, paths, n, (path: string) => true) && CleanRows(CleanPaths(paths, n), paths, places)
  {
    places := [];
    if n > 0 {
      var j := n - 1;
      places := CleanPathsMeaning(paths, j);
      PicksNext(places, paths, j, (path: string) => true);
      CleanPathsNext(paths, j);
      CleanRowsNext(CleanPaths(paths, j), paths, places, j);
      if Strip(paths[j]) != "" { places := places + [j]; }
    }
  }

  /** The later merge: nothing to read, the first file that cannot be read, or the PDFs and images in order. */
  lemma StagedInputsMeaning(w: World, files: map<string, Bytes>, mergeSourcePaths: seq<string>) returns (paths: seq<string>, places: seq<int>)
    ensures Picks(places, mergeSourcePaths, |mergeSourcePaths|, (path: string) => true) && CleanRows(paths, mergeSourcePaths, places)
    ensures paths == [] ==> StagedInputs(w, files, mergeSourcePaths) == Failure(NoStagedPaths)
    ensures paths != [] && AllReadable(w, files, paths, |paths|) ==>
              StagedInputs(w, files, mergeSourcePaths) == Success(MergeInputs(PdfsAt(files, paths, |paths|), ImagesAt(w, files, paths, |paths|)))
    ensures forall k, failure | 0 <= k < |paths| && AllReadable(w, files, paths, k) && Unreadable(w, files, paths[k], failure) ::
              StagedInputs(w, files, mergeSourcePaths) == Failure(failure)
  {
    paths := CleanPaths(mergeSourcePaths, |mergeSourcePaths|);
    places := CleanPathsMeaning(mergeSourcePaths, |mergeSourcePaths|);
    if AllReadable(w, files, paths, |paths|) { ReadFilesMeaning(w, files, paths, |paths|); }
    forall k, failure | 0 <= k < |paths| && AllReadable(w, files, paths, k) && Unreadable(w, files, paths[k], failure)
      ensures StagedInputs(w, files, mergeSourcePaths) == Failure(failure)
    {
      ReadFilesFails(w, files, paths, k, failure);
    }
  }

  /** Staging touches no other file, and returns the written paths in order. */
  lemma {:induction false} StageTouchesOnlyStaged(w: World, files: map<string, Bytes>, staged: seq<StagedFile>, n: nat)
    requires n <= |staged|
    ensures forall path | forall k | 0 <= k < n :: staged[k].path != path ::
              && (path in StageFiles(w, files, staged, n).files <==> path in files)
              && (path in files ==> StageFiles(w, files, staged, n).files[path] == files[path])
    ensures forall k | 0 <= k < |StageFiles(w, files, staged, n).paths| :: w.canWrite(StageFiles(w, files, staged, n).paths[k])
  {
    if n > 0 {
      StageTouchesOnlyStaged(w, files, staged, n - 1);
      StageStep(w, files, staged, n - 1);
    }
  }
}