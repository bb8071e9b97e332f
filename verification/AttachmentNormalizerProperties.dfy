/** Assess-then-merge agrees with direct merge, and no attachment is lost in sorting. */
module AttachmentNormalizerProperties {
  import opened Wrappers
  import opened Text
  import opened AttachmentIds
  import opened AttachmentNormalizer

  // ----- sorting accounts for every attachment

  function Refs(items: seq<Item>): seq<string> {
    seq(|items|, i requires 0 <= i < |items| => items[i].ref)
  }

  function PendingRefs(items: seq<Pending>): seq<string> {
    seq(|items|, i requires 0 <= i < |items| => items[i].ref)
  }

  function RejectedRefs(items: seq<Rejection>): seq<string> {
    seq(|items|, i requires 0 <= i < |items| => items[i].ref)
  }

  function Count(refs: seq<string>, ref: string): nat {
    if refs == [] then 0 else (if refs[0] == ref then 1 else 0) + Count(refs[1..], ref)
  }

  lemma {:induction false} CountOfConcat(x: seq<string>, y: seq<string>, ref: string)
    ensures Count(x + y, ref) == Count(x, ref) + Count(y, ref)
  {
    if x == [] {
      assert x + y == y;
    } else {
      assert (x + y)[1..] == x[1..] + y;
      CountOfConcat(x[1..], y, ref);
    }
  }

  lemma CountOfOne(x: string, ref: string)
    ensures Count([x], ref) == if x == ref then 1 else 0
  {
  }

  lemma RefsGrow(items: seq<Item>, x: Item, ref: string)
    ensures Count(Refs(items + [x]), ref) == Count(Refs(items), ref) + (if x.ref == ref then 1 else 0)
  {
    assert Refs(items + [x]) == Refs(items) + [x.ref];
    CountOfConcat(Refs(items), [x.ref], ref);
    CountOfOne(x.ref, ref);
  }

  lemma PendingRefsGrow(items: seq<Pending>, x: Pending, ref: string)
    ensures Count(PendingRefs(items + [x]), ref) == Count(PendingRefs(items), ref) + (if x.ref == ref then 1 else 0)
  {
    assert PendingRefs(items + [x]) == PendingRefs(items) + [x.ref];
    CountOfConcat(PendingRefs(items), [x.ref], ref);
    CountOfOne(x.ref, ref);
  }

  lemma RejectedRefsGrow(items: seq<Rejection>, x: Rejection, ref: string)
    ensures Count(RejectedRefs(items + [x]), ref) == Count(RejectedRefs(items), ref) + (if x.ref == ref then 1 else 0)
  {
    assert RejectedRefs(items + [x]) == RejectedRefs(items) + [x.ref];
    CountOfConcat(RejectedRefs(items), [x.ref], ref);
    CountOfOne(x.ref, ref);
  }

  function InPiles(piles: Piles, ref: string): nat {
    Count(Refs(piles.pdfs), ref) + Count(PendingRefs(piles.pending), ref) + Count(RejectedRefs(piles.rejected), ref)
  }

  /** How often the reference was sent in; blank keys are no references. */
  function TimesSent(keys: seq<string>, ref: string, n: nat): nat
    requires n <= |keys|
  {
    if n == 0 then 0
    else TimesSent(keys, ref, n - 1) + (if Strip(keys[n - 1]) != "" && Strip(keys[n - 1]) == ref then 1 else 0)
  }

  lemma PlaceHoldsRef(piles: Piles, x: string, sorted: Sorted, id: Option<string>, ref: string)
    ensures InPiles(Place(piles, x, sorted, id), ref) == InPiles(piles, ref) + (if x == ref then 1 else 0)
  {
    match sorted
    case AsPdf(bytes) => RefsGrow(piles.pdfs, Item(x, bytes), ref);
    case AsImage(bytes) => PendingRefsGrow(piles.pending, Pending(x, bytes, id), ref);
    case Rejected(reason) => RejectedRefsGrow(piles.rejected, Rejection(x, reason), ref);
  }

  lemma AddKeyHoldsRef(o: Sorter, before: Piles, key: string, ref: string)
    ensures InPiles(AddKey(o, before, key), ref) == InPiles(before, ref) + (if Strip(key) != "" && Strip(key) == ref then 1 else 0)
  {
    var x := Strip(key);
    if x != "" {
      PlaceHoldsRef(before, x, o.sort(x), o.id(x), ref);
    }
  }

  lemma {:induction false} PilesHoldEveryRef(o: Sorter, keys: seq<string>, ref: string, n: nat)
    requires n <= |keys|
    ensures InPiles(SortKeys(o, keys, n), ref) == TimesSent(keys, ref, n)
  {
    if n > 0 {
      PilesHoldEveryRef(o, keys, ref, n - 1);
      AddKeyHoldsRef(o, SortKeys(o, keys, n - 1), keys[n - 1], ref);
    }
  }

  /** One verdict for each pending image, in order. */
  predicate Answers(pending: seq<Pending>, verdicts: seq<Verdict>) {
    |verdicts| == |pending| && forall k | 0 <= k < |pending| :: verdicts[k].ref == pending[k].ref
  }

  lemma {:induction false} PendingAreKnown(pending: seq<Pending>, n: nat)
    requires n <= |pending|
    ensures forall k | 0 <= k < n :: pending[k].ref in PendingBytes(pending, n)
    ensures forall ref | ref in PendingBytes(pending, n) ::
              exists k | 0 <= k < n :: pending[k].ref == ref && pending[k].bytes == PendingBytes(pending, n)[ref]
  {
    if n > 0 { PendingAreKnown(pending, n - 1); }
  }

  function InJudged(judged: Judged, ref: string): nat {
    Count(Refs(judged.images), ref) + Count(RejectedRefs(judged.rejected), ref)
  }

  lemma JudgeOneHoldsRef(before: Judged, v: Verdict, known: map<string, Bytes>, ref: string)
    requires v.ref in known
    ensures InJudged(JudgeOne(before, v, known), ref) == InJudged(before, ref) + (if v.ref == ref then 1 else 0)
  {
    if v.valid {
      RefsGrow(before.images, Item(v.ref, known[v.ref]), ref);
    } else {
      RejectedRefsGrow(before.rejected, Rejection(v.ref, NotADocument), ref);
    }
  }

  lemma {:induction false} JudgeHoldsEveryRef(pending: seq<Pending>, verdicts: seq<Verdict>, known: map<string, Bytes>, ref: string, n: nat)
    requires n <= |pending| && Answers(pending, verdicts) && forall k | 0 <= k < |pending| :: pending[k].ref in known
    ensures InJudged(Judge(verdicts, known, n), ref) == Count(PendingRefs(pending[..n]), ref)
  {
    if n > 0 {
      var k := n - 1;
      JudgeHoldsEveryRef(pending, verdicts, known, ref, k);
      assert pending[..n] == pending[..k] + [pending[k]];
      PendingRefsGrow(pending[..k], pending[k], ref);
      JudgeOneHoldsRef(Judge(verdicts, known, k), verdicts[k], known, ref);
    }
  }

  lemma {:induction false} BatchAnswers(w: World, pending: seq<Pending>, n: nat)
    requires n <= |pending| && ClassifyBatch(w, pending, n).Some?
    ensures var verdicts := ClassifyBatch(w, pending, n).value;
            |verdicts| == n && forall k | 0 <= k < n :: w.classify(pending[k]).Some? && verdicts[k] == Verdict(pending[k].ref, w.classify(pending[k]).value)
  {
    if n > 0 { BatchAnswers(w, pending, n - 1); }
  }

  /** The classifier fails on some image. */
  predicate SomeUnanswered(w: World, pending: seq<Pending>) {
    exists k | 0 <= k < |pending| :: w.classify(pending[k]).None?
  }

  lemma {:induction false} BatchFails(w: World, pending: seq<Pending>, n: nat)
    requires n <= |pending|
    ensures ClassifyBatch(w, pending, n).None? ==> SomeUnanswered(w, pending)
  {
    if n > 0 { BatchFails(w, pending, n - 1); }
  }

  function JudgedOf(w: World, pending: seq<Pending>): Judged
    requires ClassifyBatch(w, pending, |pending|).Some?
  {
    var verdicts := ClassifyBatch(w, pending, |pending|).value;
    Judge(verdicts, PendingBytes(pending, |pending|), |verdicts|)
  }

  lemma JudgedHoldEveryRef(w: World, pending: seq<Pending>, ref: string)
    requires ClassifyBatch(w, pending, |pending|).Some?
    ensures InJudged(JudgedOf(w, pending), ref) == Count(PendingRefs(pending), ref)
  {
    BatchAnswers(w, pending, |pending|);
    PendingAreKnown(pending, |pending|);
    JudgeHoldsEveryRef(pending, ClassifyBatch(w, pending, |pending|).value, PendingBytes(pending, |pending|), ref, |pending|);
    assert pending[..|pending|] == pending;
  }

  /** A reference that was sent so many times is accounted for as often in the result. */
  predicate Accounted(w: World, piles: Piles, r: Result<Accepted, Failure>, ref: string, sent: nat) {
    if r.Success? then
      Count(Refs(r.value.pdfs), ref) + Count(Refs(r.value.images), ref) + Count(RejectedRefs(r.value.rejected), ref) == sent
    else if r.error.NoValidAttachments? then Count(RejectedRefs(r.error.rejected), ref) == sent
    else
      && r.error.ClassifierFailed? && SomeUnanswered(w, piles.pending)
      && r.error.rejected == piles.rejected && InPiles(piles, ref) == sent
  }

  lemma SettleHoldsEveryRef(w: World, piles: Piles, ref: string)
    ensures Accounted(w, piles, Settle(w, piles), ref, InPiles(piles, ref))
  {
    BatchFails(w, piles.pending, |piles.pending|);
    if ClassifyBatch(w, piles.pending, |piles.pending|).Some? {
      var judged := JudgedOf(w, piles.pending);
      JudgedHoldEveryRef(w, piles.pending, ref);
      assert RejectedRefs(piles.rejected + judged.rejected) == RejectedRefs(piles.rejected) + RejectedRefs(judged.rejected);
      CountOfConcat(RejectedRefs(piles.rejected), RejectedRefs(judged.rejected), ref);
    }
  }

  /**
   Every reference sent in is accepted as a PDF, accepted as an image or rejected, once for
   each time it was sent; when nothing is accepted it is rejected each time. Only when the
   classifier fails on some image are the images, and the PDFs with them, left undecided.
   */
  lemma NoAttachmentIsLost(w: World, keys: seq<string>, ship: Option<string>, ref: string)
    ensures Accounted(w, SortKeys(SorterOf(w, ship), keys, |keys|), AcceptedOf(w, keys, ship), ref, TimesSent(keys, ref, |keys|))
  {
    PilesHoldEveryRef(SorterOf(w, ship), keys, ref, |keys|);
    SettleHoldsEveryRef(w, SortKeys(SorterOf(w, ship), keys, |keys|), ref);
  }

  // ----- accepted bytes are what their reference gives, and are recognised again

  predicate OwnPdfs(o: Sorter, items: seq<Item>) {
    forall k | 0 <= k < |items| :: o.sort(items[k].ref) == AsPdf(items[k].bytes)
  }

  predicate OwnImages(o: Sorter, items: seq<Item>) {
    forall k | 0 <= k < |items| :: o.sort(items[k].ref) == AsImage(items[k].bytes)
  }

  predicate OwnPending(o: Sorter, items: seq<Pending>) {
    forall k | 0 <= k < |items| :: o.sort(items[k].ref) == AsImage(items[k].bytes)
  }

  lemma AddKeyKeepsOwn(o: Sorter, piles: Piles, key: string)
    requires OwnPdfs(o, piles.pdfs) && OwnPending(o, piles.pending)
    ensures var after := AddKey(o, piles, key); OwnPdfs(o, after.pdfs) && OwnPending(o, after.pending)
  {
  }

  lemma {:induction false} PilesAreOwn(o: Sorter, keys: seq<string>, n: nat)
    requires n <= |keys|
    ensures var piles := SortKeys(o, keys, n); OwnPdfs(o, piles.pdfs) && OwnPending(o, piles.pending)
  {
    if n > 0 {
      PilesAreOwn(o, keys, n - 1);
      AddKeyKeepsOwn(o, SortKeys(o, keys, n - 1), keys[n - 1]);
    }
  }

  lemma {:induction false} JudgedAreOwn(o: Sorter, verdicts: seq<Verdict>, known: map<string, Bytes>, n: nat)
    requires n <= |verdicts| && forall ref | ref in known :: o.sort(ref) == AsImage(known[ref])
    ensures OwnImages(o, Judge(verdicts, known, n).images)
  {
    if n > 0 {
      JudgedAreOwn(o, verdicts, known, n - 1);
      var before, after := Judge(verdicts, known, n - 1).images, Judge(verdicts, known, n).images;
      assert forall k | 0 <= k < |after| :: k < |before| ==> after[k] == before[k];
    }
  }

  lemma KnownAreOwn(o: Sorter, pending: seq<Pending>)
    requires OwnPending(o, pending)
    ensures forall ref | ref in PendingBytes(pending, |pending|) :: o.sort(ref) == AsImage(PendingBytes(pending, |pending|)[ref])
  {
    PendingAreKnown(pending, |pending|);
  }

  /** Whatever the classifier answers, an accepted file carries the bytes its own reference gives. */
  lemma AcceptedCarryOwnBytes(w: World, keys: seq<string>, ship: Option<string>)
    requires AcceptedOf(w, keys, ship).Success?
    ensures var a := AcceptedOf(w, keys, ship).value; OwnPdfs(SorterOf(w, ship), a.pdfs) && OwnImages(SorterOf(w, ship), a.images)
  {
    var pending := SortKeys(SorterOf(w, ship), keys, |keys|).pending;
    var verdicts := ClassifyBatch(w, pending, |pending|).value;
    PilesAreOwn(SorterOf(w, ship), keys, |keys|);
    KnownAreOwn(SorterOf(w, ship), pending);
    JudgedAreOwn(SorterOf(w, ship), verdicts, PendingBytes(pending, |pending|), |verdicts|);
  }

  /** The images among the first `n` that the classifier finds valid, in order. */
  function ValidImages(w: World, pending: seq<Pending>, n: nat): seq<Item>
    requires n <= |pending|
  {
    if n == 0 then []
    else
      var p := pending[n - 1];
      ValidImages(w, pending, n - 1) + (if w.classify(p) == Some(true) then [Item(p.ref, p.bytes)] else [])
  }

  lemma {:induction false} JudgedAreValid(w: World, pending: seq<Pending>, verdicts: seq<Verdict>, known: map<string, Bytes>, n: nat)
    requires n <= |pending| == |verdicts|
    requires forall k | 0 <= k < |pending| :: w.classify(pending[k]).Some? && verdicts[k] == Verdict(pending[k].ref, w.classify(pending[k]).value)
    requires forall k | 0 <= k < |pending| :: pending[k].ref in known && known[pending[k].ref] == pending[k].bytes
    ensures Judge(verdicts, known, n).images == ValidImages(w, pending, n)
  {
    if n > 0 { JudgedAreValid(w, pending, verdicts, known, n - 1); }
  }

  /** The accepted images are exactly those the classifier finds valid, in order, however often a reference is repeated. */
  lemma ImagesAreTheValidOnes(w: World, keys: seq<string>, ship: Option<string>)
    requires AcceptedOf(w, keys, ship).Success?
    ensures var pending := SortKeys(SorterOf(w, ship), keys, |keys|).pending;
            AcceptedOf(w, keys, ship).value.images == ValidImages(w, pending, |pending|)
  {
    var pending := SortKeys(SorterOf(w, ship), keys, |keys|).pending;
    var known := PendingBytes(pending, |pending|);
    PilesAreOwn(SorterOf(w, ship), keys, |keys|);
    KnownAreOwn(SorterOf(w, ship), pending);
    PendingAreKnown(pending, |pending|);
    BatchAnswers(w, pending, |pending|);
    forall k | 0 <= k < |pending| ensures pending[k].ref in known && known[pending[k].ref] == pending[k].bytes {
      assert SorterOf(w, ship).sort(pending[k].ref) == AsImage(pending[k].bytes);
    }
    JudgedAreValid(w, pending, ClassifyBatch(w, pending, |pending|).value, known, |pending|);
  }

  /** The image library's JPEG encoder writes the JPEG magic. */
  ghost predicate EncoderWritesJpeg(w: World) {
    forall bytes :: w.heicToJpeg(bytes).Some? ==> JPEG_MAGIC <= w.heicToJpeg(bytes).value
  }

  predicate Remergeable(a: Accepted) {
    && (forall k | 0 <= k < |a.pdfs| :: DetectMime(a.pdfs[k].bytes) == Pdf && a.pdfs[k].bytes != [])
    && (forall k | 0 <= k < |a.images| ::
          && a.images[k].bytes != []
          && (DetectMime(a.images[k].bytes) == Jpeg || DetectMime(a.images[k].bytes) == Png))
  }

  lemma SortedIsRecognised(w: World, ref: string)
    requires EncoderWritesJpeg(w)
    ensures SortOne(w, ref).AsPdf? ==> DetectMime(SortOne(w, ref).bytes) == Pdf && SortOne(w, ref).bytes != []
    ensures SortOne(w, ref).AsImage? ==>
              && SortOne(w, ref).bytes != []
              && (DetectMime(SortOne(w, ref).bytes) == Jpeg || DetectMime(SortOne(w, ref).bytes) == Png)
  {
    var got := w.download(ref);
    if got.Some? && got.value != [] && DetectMime(got.value).Heic? && w.heicToJpeg(got.value).Some? {
      JpegIsRecognised(w.heicToJpeg(got.value).value);
    }
  }

  lemma JpegIsRecognised(bytes: Bytes)
    requires JPEG_MAGIC <= bytes
    ensures DetectMime(bytes) == Jpeg
  {
    assert bytes[0] == JPEG_MAGIC[0] && PDF_MAGIC[0] != JPEG_MAGIC[0];
  }

  lemma AcceptedAreRemergeable(w: World, keys: seq<string>, ship: Option<string>)
    requires EncoderWritesJpeg(w) && AcceptedOf(w, keys, ship).Success?
    ensures Remergeable(AcceptedOf(w, keys, ship).value)
  {
    var a := AcceptedOf(w, keys, ship).value;
    AcceptedCarryOwnBytes(w, keys, ship);
    forall k | 0 <= k < |a.pdfs| ensures DetectMime(a.pdfs[k].bytes) == Pdf && a.pdfs[k].bytes != [] {
      SortedIsRecognised(w, a.pdfs[k].ref);
    }
    forall k | 0 <= k < |a.images|
      ensures a.images[k].bytes != [] && (DetectMime(a.images[k].bytes) == Jpeg || DetectMime(a.images[k].bytes) == Png)
    {
      SortedIsRecognised(w, a.images[k].ref);
    }
  }

  // ----- staged names never collide

  predicate AllDigits(s: string) {
    forall k | 0 <= k < |s| :: '0' <= s[k] <= '9'
  }

  function ValueOf(s: string): nat
    requires AllDigits(s)
  {
    if s == "" then 0 else ValueOf(s[..|s| - 1]) * 10 + (s[|s| - 1] as int - '0' as int)
  }

  lemma {:induction false} DigitsValue(n: nat)
    ensures AllDigits(Digits(n)) && ValueOf(Digits(n)) == n && Digits(n) != ""
  {
    if n >= 10 {
      DigitsValue(n / 10);
      assert Digits(n)[..|Digits(n)| - 1] == Digits(n / 10);
    }
  }

  lemma {:induction false} LeadingZero(s: string)
    requires AllDigits(s)
    ensures AllDigits("0" + s) && ValueOf("0" + s) == ValueOf(s)
  {
    if s != "" {
      LeadingZero(s[..|s| - 1]);
      assert ("0" + s)[..|s|] == "0" + s[..|s| - 1];
    }
  }

  lemma Pad3Value(n: nat)
    ensures AllDigits(Pad3(n)) && ValueOf(Pad3(n)) == n && Pad3(n) != ""
  {
    DigitsValue(n);
    LeadingZero(Digits(n));
    LeadingZero("0" + Digits(n));
    assert "00" + Digits(n) == "0" + ("0" + Digits(n));
  }

  lemma SameBeforeUnderscore(a: string, x: string, b: string, y: string)
    requires AllDigits(a) && AllDigits(b) && a + "_" + x == b + "_" + y
    ensures a == b
  {
    var whole := a + "_" + x;
    assert whole[|a|] == '_' && whole[|b|] == '_';
    assert whole[..|a|] == a && whole[..|b|] == b;
    assert forall k | 0 <= k < |a| :: whole[k] == a[k];
    assert forall k | 0 <= k < |b| :: whole[k] == b[k];
  }

  predicate NumberedPath(path: string, sources: string, index: nat, extension: string) {
    exists k | |sources| <= k <= |path| :: path == sources + "/" + (Pad3(index) + "_" + path[k..]) && EndsWith(path, extension)
  }

  /** A namer whose names start with the padded index and end with the extension, as `Paths` gives. */
  ghost predicate Numbered(name: Namer, sources: string) {
    forall ref, kind, index: nat, extension :: NumberedPath(name(ref, kind, index, extension), sources, index, extension)
  }

  lemma NumberedPathIs(sources: string, index: nat, id: string, extension: string)
    ensures NumberedPath(sources + "/" + (Pad3(index) + "_" + (id + extension)), sources, index, extension)
  {
    var path := sources + "/" + (Pad3(index) + "_" + (id + extension));
    var k := |path| - |id + extension|;
    assert path[k..] == id + extension;
    assert path[|path| - |extension|..] == extension;
  }

  lemma PathsAreNumbered(lib: Library, ship: Option<string>, sources: string)
    ensures Numbered(Paths(lib, ship, sources), sources)
  {
    var name := Paths(lib, ship, sources);
    forall ref, kind, index: nat, extension ensures NumberedPath(name(ref, kind, index, extension), sources, index, extension) {
      NumberedPathIs(sources, index, SanitizePathSegment(OrText(ExtractAttachmentId(lib, ref, ship), kind + Digits(index))), extension);
    }
  }

  lemma NumberedNamesDiffer(i: nat, j: nat, x: string, y: string)
    requires i != j
    ensures Pad3(i) + "_" + x != Pad3(j) + "_" + y
  {
    Pad3Value(i);
    Pad3Value(j);
    if Pad3(i) + "_" + x == Pad3(j) + "_" + y {
      SameBeforeUnderscore(Pad3(i), x, Pad3(j), y);
    }
  }

  lemma SameAfter(prefix: string, x: string, y: string)
    requires prefix + x == prefix + y
    ensures x == y
  {
    assert (prefix + x)[|prefix|..] == x && (prefix + y)[|prefix|..] == y;
  }

  lemma NumberedPathsDiffer(x: string, y: string, sources: string, i: nat, j: nat, e: string, f: string)
    requires NumberedPath(x, sources, i, e) && NumberedPath(y, sources, j, f) && i != j
    ensures x != y
  {
    var k :| |sources| <= k <= |x| && x == sources + "/" + (Pad3(i) + "_" + x[k..]);
    var n :| |sources| <= n <= |y| && y == sources + "/" + (Pad3(j) + "_" + y[n..]);
    NumberedNamesDiffer(i, j, x[k..], y[n..]);
    if x == y {
      SameAfter(sources + "/", Pad3(i) + "_" + x[k..], Pad3(j) + "_" + y[n..]);
    }
  }

  /** Two accepted files are never staged under one path, whatever their ids. */
  lemma StagedPathsDiffer(name: Namer, sources: string, a: Accepted, i: nat, j: nat)
    requires Numbered(name, sources) && i < |a.pdfs| + |a.images| && j < |a.pdfs| + |a.images| && i != j
    ensures StagedAt(name, a, i).path != StagedAt(name, a, j).path
  {
    var e, f := ExtensionAt(a, i), ExtensionAt(a, j);
    NumberedPathsDiffer(StagedAt(name, a, i).path, StagedAt(name, a, j).path, sources, i + 1, j + 1, e, f);
  }

  function ExtensionAt(a: Accepted, i: nat): string
    requires i < |a.pdfs| + |a.images|
  {
    if i < |a.pdfs| then ".pdf" else if PNG_MAGIC <= a.images[i - |a.pdfs|].bytes then ".png" else ".jpg"
  }

  lemma StagedPathIsTrimmed(name: Namer, sources: string, a: Accepted, i: nat)
    requires Numbered(name, sources) && i < |a.pdfs| + |a.images| && sources != "" && !IsSpace(sources[0])
    ensures var path := StagedAt(name, a, i).path; path != "" && Strip(path) == path
  {
    var path, e := StagedAt(name, a, i).path, ExtensionAt(a, i);
    assert NumberedPath(path, sources, i + 1, e);
    assert path[0] == sources[0] && path[|path| - 1] == path[|path| - |e|..][3] == e[3];
    StripTrims(path);
  }

  // ----- staging and reading back

  predicate DistinctPaths(staged: seq<StagedFile>) {
    forall i, j | 0 <= i < j < |staged| :: staged[i].path != staged[j].path
  }

  predicate CleanPathsOnly(staged: seq<StagedFile>) {
    forall i | 0 <= i < |staged| :: staged[i].path != "" && Strip(staged[i].path) == staged[i].path
  }

  /** The first `p` files read back as PDFs, the others as images that need no conversion. */
  predicate ReadsBack(staged: seq<StagedFile>, p: nat) {
    forall i | 0 <= i < |staged| ::
      && staged[i].bytes != []
      && if i < p then DetectMime(staged[i].bytes).Pdf? else DetectMime(staged[i].bytes).Jpeg? || DetectMime(staged[i].bytes).Png?
  }

  lemma StagedPathsAreSound(name: Namer, sources: string, a: Accepted)
    requires Numbered(name, sources) && sources != "" && !IsSpace(sources[0])
    ensures DistinctPaths(StagedList(name, a)) && CleanPathsOnly(StagedList(name, a))
  {
    var staged := StagedList(name, a);
    forall i, j | 0 <= i < j < |staged| ensures staged[i].path != staged[j].path {
      StagedPathsDiffer(name, sources, a, i, j);
    }
    forall i | 0 <= i < |staged| ensures staged[i].path != "" && Strip(staged[i].path) == staged[i].path {
      StagedPathIsTrimmed(name, sources, a, i);
    }
  }

  /** The staged list holds the accepted bytes, PDFs first, each in order. */
  predicate HoldsBytes(staged: seq<StagedFile>, a: Accepted) {
    && |staged| == |a.pdfs| + |a.images|
    && (forall i | 0 <= i < |a.pdfs| :: staged[i].bytes == a.pdfs[i].bytes)
    && (forall i | |a.pdfs| <= i < |staged| :: staged[i].bytes == a.images[i - |a.pdfs|].bytes)
  }

  lemma StagedListHoldsBytes(name: Namer, a: Accepted)
    ensures HoldsBytes(StagedList(name, a), a)
  {
  }

  lemma HeldBytesReadBack(staged: seq<StagedFile>, a: Accepted)
    requires Remergeable(a) && HoldsBytes(staged, a)
    ensures ReadsBack(staged, |a.pdfs|)
  {
  }

  lemma {:induction false} StagedAreOnDisk(w: World, files: map<string, Bytes>, staged: seq<StagedFile>, n: nat, i: nat)
    requires i < n <= |staged| && DistinctPaths(staged) && w.canWrite(staged[i].path)
    ensures var stage := StageFiles(w, files, staged, n);
            staged[i].path in stage.files && stage.files[staged[i].path] == staged[i].bytes
  {
    if i < n - 1 {
      StagedAreOnDisk(w, files, staged, n - 1, i);
    }
  }

  /** What is left of the two lists after failed writes among the first `n` files. */
  function Written(w: World, staged: seq<StagedFile>, p: nat, n: nat): MergeInputs
    requires n <= |staged|
  {
    if n == 0 then MergeInputs([], [])
    else
      var before, file := Written(w, staged, p, n - 1), staged[n - 1];
      if !w.canWrite(file.path) then before
      else if n <= p then before.(pdfs := before.pdfs + [file.bytes])
      else before.(images := before.images + [file.bytes])
  }

  lemma {:induction false} SamePathsReadAlike(w: World, files: map<string, Bytes>, paths: seq<string>, longer: seq<string>, n: nat)
    requires n <= |paths| && paths <= longer
    ensures ReadFiles(w, files, longer, n) == ReadFiles(w, files, paths, n)
  {
    if n > 0 { SamePathsReadAlike(w, files, paths, longer, n - 1); }
  }

  lemma ReadOneBack(w: World, disk: map<string, Bytes>, file: StagedFile, isPdf: bool, soFar: MergeInputs)
    requires file.path in disk && disk[file.path] == file.bytes != []
    requires if isPdf then DetectMime(file.bytes).Pdf? else DetectMime(file.bytes).Jpeg? || DetectMime(file.bytes).Png?
    ensures ReadOne(w, disk, file.path, soFar)
         == Success(if isPdf then soFar.(pdfs := soFar.pdfs + [file.bytes]) else soFar.(images := soFar.images + [file.bytes]))
  {
  }

  lemma ReadOneMore(w: World, disk: map<string, Bytes>, paths: seq<string>, path: string, soFar: MergeInputs)
    requires ReadFiles(w, disk, paths, |paths|) == Success(soFar)
    ensures ReadFiles(w, disk, paths + [path], |paths| + 1) == ReadOne(w, disk, path, soFar)
  {
    var longer := paths + [path];
    assert longer[|paths|] == path;
    SamePathsReadAlike(w, disk, paths, longer, |paths|);
  }

  lemma {:induction false} ReadsBackStaged(w: World, files: map<string, Bytes>, staged: seq<StagedFile>, p: nat, n: nat)
    requires n <= |staged| && DistinctPaths(staged) && ReadsBack(staged, p)
    ensures var disk, paths := StageFiles(w, files, staged, |staged|).files, StageFiles(w, files, staged, n).paths;
            ReadFiles(w, disk, paths, |paths|) == Success(Written(w, staged, p, n))
  {
    if n > 0 {
      var k, file := n - 1, staged[n - 1];
      var disk, before := StageFiles(w, files, staged, |staged|).files, StageFiles(w, files, staged, k).paths;
      ReadsBackStaged(w, files, staged, p, k);
      StageStep(w, files, staged, k);
      if w.canWrite(file.path) {
        StagedAreOnDisk(w, files, staged, |staged|, k);
        ReadOneBack(w, disk, file, n <= p, Written(w, staged, p, k));
        ReadOneMore(w, disk, before, file.path, Written(w, staged, p, k));
      }
    }
  }

  predicate AllClean(paths: seq<string>) {
    forall k | 0 <= k < |paths| :: paths[k] != "" && Strip(paths[k]) == paths[k]
  }

  lemma {:induction false} CleanStaged(w: World, files: map<string, Bytes>, staged: seq<StagedFile>, n: nat)
    requires n <= |staged| && CleanPathsOnly(staged)
    ensures AllClean(StageFiles(w, files, staged, n).paths)
  {
    if n > 0 {
      CleanStaged(w, files, staged, n - 1);
      var before, after := StageFiles(w, files, staged, n - 1).paths, StageFiles(w, files, staged, n).paths;
      assert after == before || after == before + [staged[n - 1].path];
    }
  }

  lemma {:induction false} CleanKeepsClean(paths: seq<string>, n: nat)
    requires n <= |paths| && AllClean(paths)
    ensures CleanPaths(paths, n) == paths[..n]
  {
    if n > 0 { CleanKeepsClean(paths, n - 1); }
  }

  predicate AllWritable(w: World, staged: seq<StagedFile>, n: nat)
    requires n <= |staged|
  {
    forall i | 0 <= i < n :: w.canWrite(staged[i].path)
  }

  /** Nothing is missing from the lists exactly when every write went through. */
  lemma {:induction false} WrittenMeaning(w: World, files: map<string, Bytes>, staged: seq<StagedFile>, p: nat, n: nat)
    requires n <= |staged|
    ensures var left := Written(w, staged, p, n);
            && |left.pdfs| + |left.images| == |StageFiles(w, files, staged, n).paths| <= n
            && (|left.pdfs| + |left.images| == n <==> AllWritable(w, staged, n))
  {
    if n > 0 { WrittenMeaning(w, files, staged, p, n - 1); }
  }

  lemma {:induction false} AllWritten(w: World, a: Accepted, staged: seq<StagedFile>, n: nat)
    requires n <= |staged| == |a.pdfs| + |a.images| && AllWritable(w, staged, n)
    requires HoldsBytes(staged, a)
    ensures var p := if n <= |a.pdfs| then n else |a.pdfs|;
            Written(w, staged, |a.pdfs|, n) == MergeInputs(BytesOf(a.pdfs[..p]), BytesOf(a.images[..n - p]))
  {
    if n > 0 {
      AllWritten(w, a, staged, n - 1);
      if n <= |a.pdfs| {
        assert BytesOf(a.pdfs[..n]) == BytesOf(a.pdfs[..n - 1]) + [staged[n - 1].bytes];
      } else {
        var k := n - |a.pdfs| - 1;
        assert staged[n - 1].bytes == a.images[k].bytes;
        assert BytesOf(a.images[..k + 1]) == BytesOf(a.images[..k]) + [staged[n - 1].bytes];
      }
    }
  }

  /** The stage directory is named and can be made. */
  predicate Stageable(w: World, stageDir: string) {
    Strip(stageDir) != "" && w.canMakeDir(Strip(stageDir))
  }

  /**
   Staging the accepted files and merging the staged paths later gives the merger the same
   PDFs and the same images in the same order as the direct route, exactly when the stage
   directory can be made and every staged write goes through, whatever was on the disk before.
   */
  lemma StagedMergeAgreesIff(w: World, files: map<string, Bytes>, keys: seq<string>, ship: Option<string>, stageDir: string)
    requires EncoderWritesJpeg(w) && AcceptedOf(w, keys, ship).Success?
    requires var sources := w.sourcesDir(Strip(stageDir)); sources != "" && !IsSpace(sources[0])
    ensures var a := AcceptedOf(w, keys, ship).value;
            var stage := StageAll(w, files, a, stageDir, ship);
            StagedInputs(w, stage.files, stage.paths) == DirectInputs(w, keys, ship)
            <==> && Stageable(w, stageDir)
                 && AllWritable(w, StagedList(Paths(w.library, ship, w.sourcesDir(Strip(stageDir))), a), |a.pdfs| + |a.images|)
  {
    var a := AcceptedOf(w, keys, ship).value;
    AcceptedAreRemergeable(w, keys, ship);
    SettledIsNotEmpty(w, SortKeys(SorterOf(w, ship), keys, |keys|));
    DirectInputsMeaning(w, keys, ship);
    AcceptedAgreesIff(w, files, a, ship, stageDir);
  }

  /** The direct route gives the merger the accepted bytes, each list in order, or fails as sorting does. */
  lemma DirectInputsMeaning(w: World, keys: seq<string>, ship: Option<string>)
    ensures var accepted, direct := AcceptedOf(w, keys, ship), DirectInputs(w, keys, ship);
            && (accepted.Failure? ==> direct == Failure(accepted.error))
            && (accepted.Success? ==> direct == Success(MergeInputs(BytesOf(accepted.value.pdfs), BytesOf(accepted.value.images))))
  {
  }

  lemma SettledIsNotEmpty(w: World, piles: Piles)
    ensures Settle(w, piles).Success? ==> |Settle(w, piles).value.pdfs| + |Settle(w, piles).value.images| > 0
  {
  }

  lemma AcceptedAgreesIff(w: World, files: map<string, Bytes>, a: Accepted, ship: Option<string>, stageDir: string)
    requires Remergeable(a) && |a.pdfs| + |a.images| > 0
    requires var sources := w.sourcesDir(Strip(stageDir)); sources != "" && !IsSpace(sources[0])
    ensures var stage := StageAll(w, files, a, stageDir, ship);
            StagedInputs(w, stage.files, stage.paths) == Success(MergeInputs(BytesOf(a.pdfs), BytesOf(a.images)))
            <==> && Stageable(w, stageDir)
                 && AllWritable(w, StagedList(Paths(w.library, ship, w.sourcesDir(Strip(stageDir))), a), |a.pdfs| + |a.images|)
  {
    if Stageable(w, stageDir) {
      StagedUnderSources(w, files, a, stageDir, ship);
      StageableAgreesIff(w, files, a, ship, w.sourcesDir(Strip(stageDir)));
    } else {
      NoStageNoMerge(w, files, a, stageDir, ship);
    }
  }

  lemma StagedUnderSources(w: World, files: map<string, Bytes>, a: Accepted, stageDir: string, ship: Option<string>)
    requires Stageable(w, stageDir)
    ensures var staged := StagedList(Paths(w.library, ship, w.sourcesDir(Strip(stageDir))), a);
            |staged| == |a.pdfs| + |a.images| && StageAll(w, files, a, stageDir, ship) == StageFiles(w, files, staged, |staged|)
  {
  }

  lemma StageableAgreesIff(w: World, files: map<string, Bytes>, a: Accepted, ship: Option<string>, sources: string)
    requires Remergeable(a) && |a.pdfs| + |a.images| > 0 && sources != "" && !IsSpace(sources[0])
    ensures var staged := StagedList(Paths(w.library, ship, sources), a);
            var stage := StageFiles(w, files, staged, |staged|);
            StagedInputs(w, stage.files, stage.paths) == Success(MergeInputs(BytesOf(a.pdfs), BytesOf(a.images)))
            <==> AllWritable(w, staged, |staged|)
  {
    var staged := StagedList(Paths(w.library, ship, sources), a);
    PathsAreNumbered(w.library, ship, sources);
    StagedPathsAreSound(Paths(w.library, ship, sources), sources, a);
    StagedListHoldsBytes(Paths(w.library, ship, sources), a);
    HeldBytesReadBack(staged, a);
    ListAgreesIff(w, files, a, staged);
  }

  lemma ReadsWhatWasWritten(w: World, files: map<string, Bytes>, staged: seq<StagedFile>, p: nat)
    requires DistinctPaths(staged) && CleanPathsOnly(staged) && ReadsBack(staged, p)
    ensures var stage := StageFiles(w, files, staged, |staged|);
            StagedInputs(w, stage.files, stage.paths) == if stage.paths == [] then Failure(NoStagedPaths) else Success(Written(w, staged, p, |staged|))
  {
    var paths := StageFiles(w, files, staged, |staged|).paths;
    ReadsBackStaged(w, files, staged, p, |staged|);
    CleanStaged(w, files, staged, |staged|);
    CleanKeepsClean(paths, |paths|);
    assert paths[..|paths|] == paths;
  }

  /** Everything was written exactly when what was written is the two accepted lists. */
  lemma WrittenIsAllIff(w: World, files: map<string, Bytes>, a: Accepted, staged: seq<StagedFile>)
    requires HoldsBytes(staged, a)
    ensures Written(w, staged, |a.pdfs|, |staged|) == MergeInputs(BytesOf(a.pdfs), BytesOf(a.images)) <==> AllWritable(w, staged, |staged|)
    ensures AllWritable(w, staged, |staged|) ==> |StageFiles(w, files, staged, |staged|).paths| == |staged|
  {
    var left := Written(w, staged, |a.pdfs|, |staged|);
    WrittenMeaning(w, files, staged, |a.pdfs|, |staged|);
    if AllWritable(w, staged, |staged|) {
      AllWritten(w, a, staged, |staged|);
      assert a.pdfs[..|a.pdfs|] == a.pdfs && a.images[..|a.images|] == a.images;
    } else {
      assert |left.pdfs| + |left.images| < |BytesOf(a.pdfs)| + |BytesOf(a.images)|;
    }
  }

  lemma ListAgreesIff(w: World, files: map<string, Bytes>, a: Accepted, staged: seq<StagedFile>)
    requires |staged| == |a.pdfs| + |a.images| > 0
    requires DistinctPaths(staged) && CleanPathsOnly(staged) && ReadsBack(staged, |a.pdfs|)
    requires HoldsBytes(staged, a)
    ensures var stage := StageFiles(w, files, staged, |staged|);
            StagedInputs(w, stage.files, stage.paths) == Success(MergeInputs(BytesOf(a.pdfs), BytesOf(a.images)))
            <==> AllWritable(w, staged, |staged|)
  {
    ReadsWhatWasWritten(w, files, staged, |a.pdfs|);
    WrittenIsAllIff(w, files, a, staged);
  }

  /** Without a usable stage directory nothing is staged, the disk is left alone, and the later merge fails. */
  lemma NoStageNoMerge(w: World, files: map<string, Bytes>, a: Accepted, stageDir: string, ship: Option<string>)
    requires !Stageable(w, stageDir)
    ensures var stage := StageAll(w, files, a, stageDir, ship);
            stage.files == files && StagedInputs(w, stage.files, stage.paths) == Failure(NoStagedPaths)
  {
  }
}
