/** What cleaning an id keeps, when two ids become one object name, and which id a name holds. */
module AttachmentIdsMeaning {
  import opened Wrappers
  import opened Text
  import opened AttachmentIds

  // ----- cleaning

  predicate NoneSafe(s: string) {
    forall k | 0 <= k < |s| :: !Safe(s[k])
  }

  predicate StartsSafe(s: string) {
    s == "" || Safe(s[0])
  }

  /** Hyphen, dot, digits, Latin letters and underscore are kept, by code point, and nothing else is. */
  lemma SafeIff(c: char)
    ensures Safe(c) <==> var n := c as int; n in [0x2D, 0x2E, 0x5F] || 0x30 <= n <= 0x39 || 0x41 <= n <= 0x5A || 0x61 <= n <= 0x7A
  {
  }

  /** Safe text stays as it is, in front of whatever follows. */
  lemma {:induction false} CollapseKeeps(a: string, t: string)
    requires AllSafe(a)
    ensures Collapse(a + t) == a + Collapse(t)
  {
    if a == "" {
      assert a + t == t;
    } else {
      assert (a + t)[0] == a[0] && (a + t)[1..] == a[1..] + t;
      CollapseKeeps(a[1..], t);
      assert a == [a[0]] + a[1..];
    }
  }

  lemma {:induction false} DropsRun(u: string, t: string)
    requires NoneSafe(u) && StartsSafe(t)
    ensures DropUnsafe(u + t) == t
  {
    if u == "" {
      assert u + t == t;
    } else {
      assert (u + t)[0] == u[0] && (u + t)[1..] == u[1..] + t;
      DropsRun(u[1..], t);
    }
  }

  /** A run of unsafe characters becomes one underscore, in front of whatever follows. */
  lemma CollapseRun(u: string, t: string)
    requires u != "" && NoneSafe(u) && StartsSafe(t)
    ensures Collapse(u + t) == "_" + Collapse(t)
  {
    assert (u + t)[0] == u[0] && (u + t)[1..] == u[1..] + t;
    DropsRun(u[1..], t);
  }

  /** The safe characters but the underscore, in order. */
  function Kept(s: string): string {
    if s == "" then "" else (if Safe(s[0]) && s[0] != '_' then [s[0]] else "") + Kept(s[1..])
  }

  lemma {:induction false} KeptOfConcat(a: string, b: string)
    ensures Kept(a + b) == Kept(a) + Kept(b)
  {
    if a == "" {
      assert a + b == b;
    } else {
      assert (a + b)[0] == a[0] && (a + b)[1..] == a[1..] + b;
      KeptOfConcat(a[1..], b);
    }
  }

  lemma {:induction false} DropLosesNothing(s: string)
    ensures Kept(DropUnsafe(s)) == Kept(s)
  {
    if s != "" && !Safe(s[0]) { DropLosesNothing(s[1..]); }
  }

  lemma {:induction false} CollapseLosesNothing(s: string)
    ensures Kept(Collapse(s)) == Kept(s)
    decreases |s|
  {
    if s != "" {
      if Safe(s[0]) {
        CollapseLosesNothing(s[1..]);
        assert ([s[0]] + Collapse(s[1..]))[1..] == Collapse(s[1..]);
      } else {
        CollapseLosesNothing(DropUnsafe(s[1..]));
        DropLosesNothing(s[1..]);
        assert ("_" + Collapse(DropUnsafe(s[1..])))[1..] == Collapse(DropUnsafe(s[1..]));
      }
    }
  }

  /** What a token is made from: the stripped text, or `unknown` for a missing or blank one. */
  function TextOf(value: Option<string>): string {
    if value.None? || Strip(value.value) == "" then "unknown" else Strip(value.value)
  }

  function UpTo(s: string, n: nat): string {
    if |s| <= n then s else s[..n]
  }

  lemma TokenOf(value: Option<string>)
    ensures SanitizePathSegment(value) == UpTo(Collapse(TextOf(value)), 180)
  {
    UnknownIsSafe();
    if value.Some? {
      CollapseMeaning(Strip(value.value));
      StripTrims("");
    }
  }

  lemma UnknownIsSafe()
    ensures AllSafe("unknown") && Collapse("unknown") == "unknown" && Strip("") == ""
  {
    CollapseMeaning("unknown");
  }

  /**
   No safe character of the text is lost or moved, up to the length of 180: the token's safe
   characters are the first ones of the text, and all of them when it is shorter.
   */
  lemma SanitizeLosesNothing(value: Option<string>)
    ensures var token, text := SanitizePathSegment(value), TextOf(value);
            Kept(token) <= Kept(text) && (|token| < 180 ==> Kept(token) == Kept(text))
  {
    var text := TextOf(value);
    var whole := Collapse(text);
    TokenOf(value);
    CollapseLosesNothing(text);
    var token := UpTo(whole, 180);
    KeptOfConcat(token, whole[|token|..]);
    assert whole == token + whole[|token|..];
  }

  // ----- when two ids become one name

  /** The number of unsafe characters the text starts with. */
  function Run(s: string): (n: nat)
    ensures n <= |s|
  {
    if s == "" || Safe(s[0]) then 0 else 1 + Run(s[1..])
  }

  /** The first character as it is written, and the text behind it or behind its run. */
  function First(s: string): char
    requires s != ""
  {
    if Safe(s[0]) then s[0] else '_'
  }

  function Rest(s: string): (r: string)
    requires s != ""
    ensures |r| < |s|
  {
    if Safe(s[0]) then s[1..] else s[Run(s)..]
  }

  /** For `n` written characters the texts go on alike, where an unsafe run counts as one underscore. */
  predicate Alike(s: string, t: string, n: nat) {
    n == 0 || if s == "" || t == "" then s == t else First(s) == First(t) && Alike(Rest(s), Rest(t), n - 1)
  }

  lemma {:induction false} RunIsRun(s: string)
    ensures NoneSafe(s[..Run(s)]) && StartsSafe(s[Run(s)..])
  {
    if s != "" && !Safe(s[0]) {
      RunIsRun(s[1..]);
      assert s[..Run(s)] == [s[0]] + s[1..][..Run(s[1..])] && s[Run(s)..] == s[1..][Run(s[1..])..];
    }
  }

  lemma CollapseFirst(s: string)
    requires s != ""
    ensures Collapse(s) == [First(s)] + Collapse(Rest(s))
  {
    if !Safe(s[0]) {
      RunIsRun(s);
      assert s == s[..Run(s)] + s[Run(s)..];
      CollapseRun(s[..Run(s)], s[Run(s)..]);
    }
  }

  lemma UpToSame(a: char, s: string, b: char, t: string, n: nat)
    requires n > 0
    ensures UpTo([a] + s, n) == UpTo([b] + t, n) <==> a == b && UpTo(s, n - 1) == UpTo(t, n - 1)
  {
    assert UpTo([a] + s, n) == [a] + UpTo(s, n - 1);
    assert UpTo([b] + t, n) == [b] + UpTo(t, n - 1);
    SameHeads(a, UpTo(s, n - 1), b, UpTo(t, n - 1));
  }

  lemma SameHeads(a: char, s: string, b: char, t: string)
    ensures [a] + s == [b] + t <==> a == b && s == t
  {
    if [a] + s == [b] + t {
      assert ([a] + s)[0] == a && ([b] + t)[0] == b && ([a] + s)[1..] == s && ([b] + t)[1..] == t;
    }
  }

  predicate SameUpTo(s: string, t: string, n: nat) {
    UpTo(Collapse(s), n) == UpTo(Collapse(t), n)
  }

  lemma SameUpToNext(s: string, t: string, n: nat)
    requires n > 0 && s != "" && t != ""
    ensures SameUpTo(s, t, n) <==> First(s) == First(t) && SameUpTo(Rest(s), Rest(t), n - 1)
  {
    CollapseFirst(s);
    CollapseFirst(t);
    UpToSame(First(s), Collapse(Rest(s)), First(t), Collapse(Rest(t)), n);
  }

  lemma SameUpToEnds(s: string, t: string, n: nat)
    requires n == 0 || s == "" || t == ""
    ensures SameUpTo(s, t, n) <==> n == 0 || s == t
  {
    CollapseMeaning(s);
    CollapseMeaning(t);
  }

  /** `same` follows the recursion of `Alike` at these texts. */
  predicate FollowsAlike(same: (string, string, nat) -> bool, s: string, t: string, n: nat) {
    if n > 0 && s != "" && t != "" then same(s, t, n) <==> First(s) == First(t) && same(Rest(s), Rest(t), n - 1)
    else same(s, t, n) <==> n == 0 || s == t
  }

  lemma {:induction false} AlikeIs(same: (string, string, nat) -> bool, s: string, t: string, n: nat)
    requires forall x, y, m: nat :: FollowsAlike(same, x, y, m)
    ensures Alike(s, t, n) <==> same(s, t, n)
    decreases n
  {
    assert FollowsAlike(same, s, t, n);
    if n > 0 && s != "" && t != "" { AlikeIs(same, Rest(s), Rest(t), n - 1); }
  }

  lemma AlikeIff(s: string, t: string, n: nat)
    ensures Alike(s, t, n) <==> UpTo(Collapse(s), n) == UpTo(Collapse(t), n)
  {
    var same := (x, y, m: nat) => SameUpTo(x, y, m);
    forall x, y, m: nat ensures FollowsAlike(same, x, y, m) {
      if m > 0 && x != "" && y != "" { SameUpToNext(x, y, m); } else { SameUpToEnds(x, y, m); }
    }
    AlikeIs(same, s, t, n);
  }

  /** The synthetic name, spelled out. */
  lemma RefIs(attachmentId: Option<string>, shipmentNumber: Option<string>)
    ensures var ship := if shipmentNumber.Some? && shipmentNumber.value != "" then shipmentNumber else Some("unknown");
            InMemoryAttachmentRef(attachmentId, shipmentNumber)
            == "pod_attachments" + "/" + ("pod_" + (SanitizePathSegment(attachmentId) + "_" + SanitizePathSegment(ship)) + ".bin")
  {
  }

  /** Two attachments of one shipment share an object name exactly when their ids are alike for 180 written characters. */
  lemma RefsCollideIff(lib: Library, a: Option<string>, b: Option<string>, shipmentNumber: Option<string>)
    ensures InMemoryAttachmentRef(a, shipmentNumber) == InMemoryAttachmentRef(b, shipmentNumber)
       <==> Alike(TextOf(a), TextOf(b), 180)
  {
    SameRefIff(lib, a, b, shipmentNumber);
    TokenOf(a);
    TokenOf(b);
    AlikeIff(TextOf(a), TextOf(b), 180);
  }

  /** The read-back id is one of the two, so a shared name means a shared token. */
  lemma SameRefIff(lib: Library, a: Option<string>, b: Option<string>, shipmentNumber: Option<string>)
    ensures InMemoryAttachmentRef(a, shipmentNumber) == InMemoryAttachmentRef(b, shipmentNumber)
       <==> SanitizePathSegment(a) == SanitizePathSegment(b)
  {
    AttachmentIdRoundTrip(lib, a, shipmentNumber);
    AttachmentIdRoundTrip(lib, b, shipmentNumber);
  }

  // ----- reading an id

  predicate AllSlashes(s: string) {
    forall k | 0 <= k < |s| :: s[k] == '/'
  }

  /** A text whose only leading slashes are `slashes`. */
  predicate LeadBySlashes(s: string, slashes: string, rest: string) {
    s == slashes + rest && AllSlashes(slashes) && (rest != "" ==> rest[0] != '/')
  }

  lemma {:induction false} StripSlashesLeftIs(s: string, slashes: string, rest: string)
    requires LeadBySlashes(s, slashes, rest)
    ensures StripSlashesLeft(s) == rest
  {
    if slashes == "" {
      assert s == rest;
    } else {
      assert s[0] == '/' && s[1..] == slashes[1..] + rest;
      StripSlashesLeftIs(s[1..], slashes[1..], rest);
    }
  }

  /** An object key is the stripped text behind its leading slashes; one with a scheme is none. */
  lemma NormalizeIff(key: string, slashes: string, rest: string)
    requires LeadBySlashes(Strip(key), slashes, rest)
    ensures NormalizeObjectKey(key) == if exists k :: 0 <= k <= |rest| - 3 && rest[k] == ':' && rest[k + 1] == '/' && rest[k + 2] == '/' then None else Some(rest)
  {
    StripSlashesLeftIs(Strip(key), slashes, rest);
    SchemeIff(rest);
    if "http://" <= rest { assert rest[4] == ':' && rest[5] == '/' && rest[6] == '/'; }
    if "https://" <= rest { assert rest[5] == ':' && rest[6] == '/' && rest[7] == '/'; }
  }

  lemma SchemeIff(s: string)
    ensures Contains(s, "://") <==> exists k :: 0 <= k <= |s| - 3 && s[k] == ':' && s[k + 1] == '/' && s[k + 2] == '/'
  {
    if k :| 0 <= k <= |s| - 3 && s[k] == ':' && s[k + 1] == '/' && s[k + 2] == '/' {
      assert "://" <= s[k..];
    }
    if k :| 0 <= k <= |s| && "://" <= s[k..] {
      assert s[k..][0] == ':' && s[k..][1] == '/' && s[k..][2] == '/';
    }
  }

  predicate IsWeb(ref: string) {
    "http://" <= ref || "https://" <= ref
  }

  /** A web address stands for its path without leading slashes, anything else for an object key. */
  lemma KeyOfRefMeaning(lib: Library, attachmentRef: string, slashes: string, rest: string)
    requires IsWeb(Strip(attachmentRef)) ==> LeadBySlashes(lib.urlPath(Strip(attachmentRef)), slashes, rest)
    ensures KeyOfRef(lib, attachmentRef) == if IsWeb(Strip(attachmentRef)) then Some(rest) else NormalizeObjectKey(Strip(attachmentRef))
  {
    if IsWeb(Strip(attachmentRef)) { StripSlashesLeftIs(lib.urlPath(Strip(attachmentRef)), slashes, rest); }
  }

  predicate HintedSuffix(rest: string, hint: Option<string>) {
    hint.Some? && hint.value != "" && |rest| > |SanitizePathSegment(hint)| + 1
    && rest[|rest| - |SanitizePathSegment(hint)| - 1..] == "_" + SanitizePathSegment(hint)
  }

  /**
   The id in a name without the hinted shipment at its end: all of it when it has no
   underscore, else what is before the last one; nothing when that is empty.
   */
  lemma UnhintedIdIs(rest: string, hint: Option<string>, id: string, ship: string)
    requires !HintedSuffix(rest, hint)
    ensures '_' !in rest ==> IdInName(rest, hint) == if rest == "" then None else Some(rest)
    ensures rest == id + "_" + ship && '_' !in ship ==> IdInName(rest, hint) == if id == "" then None else Some(id)
  {
    if rest == id + "_" + ship && '_' !in ship {
      assert rest[|id|] == '_';
      forall k | |id| < k < |rest| ensures rest[k] != '_' { assert rest[k] == ship[k - |id| - 1]; }
      LastIndexIs(rest, '_', |id|);
      assert rest[..|id|] == id;
    }
  }

  /** With the hinted shipment at its end, the id is all that is before. */
  lemma HintedIdIs(id: string, hint: Option<string>)
    requires id != "" && hint.Some? && hint.value != ""
    ensures IdInName(id + "_" + SanitizePathSegment(hint), hint) == Some(id)
  {
    HintedName(id, SanitizePathSegment(hint), hint);
  }

  // ----- any object name

  predicate IsDirectory(dir: string) {
    dir == "" || dir[|dir| - 1] == '/'
  }

  predicate Lacks(s: string, c: char) {
    forall k | 0 <= k < |s| :: s[k] != c
  }

  lemma {:induction false} StripSlashesRightIs(s: string, slashes: string)
    requires (s == "" || s[|s| - 1] != '/') && AllSlashes(slashes)
    ensures StripSlashesRight(s + slashes) == s
  {
    if slashes == "" {
      assert s + slashes == s;
    } else {
      var n := |slashes| - 1;
      assert (s + slashes)[..|s + slashes| - 1] == s + slashes[..n] && (s + slashes)[|s + slashes| - 1] == slashes[n];
      StripSlashesRightIs(s, slashes[..n]);
    }
  }

  lemma LastSlashIs(dir: string, base: string)
    requires IsDirectory(dir) && Lacks(base, '/')
    ensures LastIndex(dir + base, '/') == |dir| - 1
  {
    var key := dir + base;
    assert forall k | |dir| <= k < |key| :: key[k] == base[k - |dir|];
    if dir != "" {
      assert key[|dir| - 1] == '/';
      LastIndexIs(key, '/', |dir| - 1);
    }
  }

  lemma BaseIs(dir: string, base: string, slashes: string)
    requires IsDirectory(dir) && base != "" && Lacks(base, '/') && AllSlashes(slashes)
    ensures BaseName(dir + base + slashes) == base
  {
    var key := dir + base;
    assert key[|key| - 1] == base[|base| - 1] && key[|dir|..] == base;
    StripSlashesRightIs(key, slashes);
    LastSlashIs(dir, base);
  }

  /** In any directory, with any extension and behind any trailing slashes, the id is read from what is between `pod_` and the last dot. */
  lemma ExtractFromPodName(lib: Library, ref: string, dir: string, rest: string, extension: string, slashes: string, hint: Option<string>)
    requires KeyOfRef(lib, ref) == Some(dir + ("pod_" + rest + "." + extension) + slashes)
    requires IsDirectory(dir) && AllSlashes(slashes) && Lacks(rest, '/') && Lacks(extension, '/') && Lacks(extension, '.')
    ensures ExtractAttachmentId(lib, ref, hint) == IdInName(rest, hint)
  {
    var base := "pod_" + rest + "." + extension;
    var dot := 4 + |rest|;
    assert base[dot] == '.' && base[..dot] == "pod_" + rest && base[4..dot] == rest;
    assert forall k | dot < k < |base| :: base[k] == extension[k - dot - 1];
    assert Lacks(base, '/');
    LastIndexIs(base, '.', dot);
    BaseIs(dir, base, slashes);
  }

  // ----- names that only the pattern finds

  /** `prefix` is at `q`, followed by a nonempty text without dots up to `dot`. */
  predicate PatternAt(key: string, prefix: string, q: int, dot: nat)
    requires dot < |key|
  {
    0 <= q && q + |prefix| < dot && key[q..q + |prefix|] == prefix && Lacks(key[q + |prefix|..dot], '.')
  }

  /** The first place from `p` on. */
  predicate FirstPatternAt(key: string, prefix: string, p: nat, q: int, dot: nat)
    requires dot < |key|
  {
    p <= q && PatternAt(key, prefix, q, dot) && forall j | p <= j < q :: !PatternAt(key, prefix, j, dot)
  }

  lemma {:induction false} PatternStartIs(key: string, p: nat, dot: nat)
    requires dot < |key|
    ensures var prefix, start := FOLDER + "/pod_", PatternStart(key, p, dot);
            if start.Some? then FirstPatternAt(key, prefix, p, start.value - |prefix|, dot)
            else forall q | p <= q :: !PatternAt(key, prefix, q, dot)
    decreases |key| - p
  {
    var prefix := FOLDER + "/pod_";
    if p + |prefix| < dot && !PatternAt(key, prefix, p, dot) {
      PatternStartIs(key, p + 1, dot);
    }
  }

  predicate LastDot(key: string, dot: int) {
    0 <= dot < |key| && key[dot] == '.' && forall k | dot < k < |key| :: key[k] != '.'
  }

  /** The extension is not empty and of word characters. */
  predicate WordAfter(lib: Library, key: string, dot: int)
    requires 0 <= dot
  {
    dot < |key| - 1 && forall k | dot < k < |key| :: lib.wordChar(key[k])
  }

  /** The pattern's id is what stands between its first folder prefix and the last dot; without either, or without a proper extension, there is none. */
  lemma PatternIdMeaning(lib: Library, key: string)
    ensures Lacks(key, '.') ==> PatternId(lib, key).None?
    ensures forall dot | LastDot(key, dot) && !WordAfter(lib, key, dot) :: PatternId(lib, key).None?
    ensures forall dot, q | LastDot(key, dot) && WordAfter(lib, key, dot) && FirstPatternAt(key, "pod_attachments/pod_", 0, q, dot) ::
              PatternId(lib, key) == Some(key[q + 20..dot])
    ensures forall dot | LastDot(key, dot) && forall q :: !PatternAt(key, "pod_attachments/pod_", q, dot) :: PatternId(lib, key).None?
  {
    assert FOLDER + "/pod_" == "pod_attachments/pod_";
    var at := LastIndex(key, '.');
    if at >= 0 {
      PatternStartIs(key, 0, at);
      assert LastDot(key, at);
      forall dot | LastDot(key, dot) ensures dot == at { LastIndexIs(key, '.', dot); }
    }
  }

  /** Names that are not of the form `pod_` rest, dot, extension are left to the pattern. */
  lemma ExtractFromOtherName(lib: Library, ref: string, dir: string, base: string, slashes: string, hint: Option<string>)
    requires KeyOfRef(lib, ref) == Some(dir + base + slashes) && IsDirectory(dir) && AllSlashes(slashes) && base != "" && Lacks(base, '/')
    requires forall dot | LastDot(base, dot) :: !("pod_" <= base[..dot])
    ensures ExtractAttachmentId(lib, ref, hint) == PatternId(lib, dir + base + slashes)
  {
    BaseIs(dir, base, slashes);
    assert LastIndex(base, '.') >= 0 ==> LastDot(base, LastIndex(base, '.'));
  }
}
