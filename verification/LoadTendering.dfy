/** The load type of an order from its pallet counts (app/domain/load_tendering_settings.py). */
module LoadTendering {
  import opened Wrappers

  /** A raw dictionary entry, as far as `.get` and `int()` tell entries apart. */
  datatype Field = Absent | Null | Number(n: int) | NotANumber

  datatype Line = Line(palletsCount: Field, pallets: Field, profile: Option<string>, threshold: Field)

  datatype LoadType = Ltl | Ftl

  const DEFAULT_THRESHOLD := 8

  /** `pallets` counts only when there is no `pallets_count` entry at all. */
  function CountOf(line: Line): Option<int> {
    var raw := if line.palletsCount.Absent? then line.pallets else line.palletsCount;
    if raw.Number? then Some(raw.n) else None
  }

  predicate Profiled(line: Line) {
    CountOf(line).Some? && line.profile.Some? && !line.threshold.Absent? && !line.threshold.Null?
  }

  predicate InProfile(line: Line, p: string) {
    Profiled(line) && line.profile.value == p
  }

  function ThresholdOf(line: Line, fallback: int): int {
    if line.threshold.Number? then line.threshold.n else fallback
  }

  function Total(lines: seq<Line>, n: nat): int
    requires n <= |lines|
  {
    if n == 0 then 0 else Total(lines, n - 1) + CountOf(lines[n - 1]).GetOr(0)
  }

  function PalletsIn(line: Line, p: string): int {
    if InProfile(line, p) then CountOf(line).value else 0
  }

  function ProfileTotal(lines: seq<Line>, p: string, n: nat): int
    requires n <= |lines|
  {
    if n == 0 then 0 else ProfileTotal(lines, p, n - 1) + PalletsIn(lines[n - 1], p)
  }

  /** The threshold on the last line of the profile among the first `n`. */
  function LastThreshold(lines: seq<Line>, fallback: int, p: string, n: nat): Option<int>
    requires n <= |lines|
  {
    if n == 0 then None
    else if InProfile(lines[n - 1], p) then Some(ThresholdOf(lines[n - 1], fallback))
    else LastThreshold(lines, fallback, p, n - 1)
  }

  predicate AnyProfiled(lines: seq<Line>) {
    exists k | 0 <= k < |lines| :: Profiled(lines[k])
  }

  /** Line `k` is the last of its profile, whose pallets exceed that line's threshold. */
  predicate Overflows(lines: seq<Line>, fallback: int, k: nat)
    requires k < |lines|
  {
    && Profiled(lines[k])
    && (forall j | k < j < |lines| :: !InProfile(lines[j], lines[k].profile.value))
    && ProfileTotal(lines, lines[k].profile.value, |lines|) > ThresholdOf(lines[k], fallback)
  }

  /** Full truck load, for any lines at all. */
  predicate IsFtl(lines: seq<Line>, fallback: int) {
    if AnyProfiled(lines) then exists k | 0 <= k < |lines| :: Overflows(lines, fallback, k)
    else Total(lines, |lines|) > fallback
  }

  ghost predicate Buckets(lines: seq<Line>, fallback: int, n: nat, perProfile: map<string, (int, int)>)
    requires n <= |lines|
  {
    && (forall p :: p in perProfile <==> LastThreshold(lines, fallback, p, n).Some?)
    && (forall p | p in perProfile :: perProfile[p] == (ProfileTotal(lines, p, n), LastThreshold(lines, fallback, p, n).value))
  }

  method LoadTypeFromPalletTotals(productsCalc: seq<Line>, palletThreshold: Option<int>) returns (r: LoadType)
    ensures palletThreshold.Some? ==> (r.Ftl? <==> IsFtl(productsCalc, palletThreshold.value))
    ensures palletThreshold.None? ==> (r.Ftl? <==> IsFtl(productsCalc, 8))
  {
    var fallback := palletThreshold.GetOr(DEFAULT_THRESHOLD);
    var perProfile: map<string, (int, int)> := map[];
    var totalPallets := 0;
    for i := 0 to |productsCalc|
      invariant totalPallets == Total(productsCalc, i)
      invariant Buckets(productsCalc, fallback, i, perProfile)
    {
      var line := productsCalc[i];
      NoProfileYet(productsCalc, fallback, i);
      var count := CountOf(line);
      if count.None? { continue; }
      totalPallets := totalPallets + count.value;
      if line.profile.None? || line.threshold.Absent? || line.threshold.Null? { continue; }
      var threshold := ThresholdOf(line, fallback);
      var prev := if line.profile.value in perProfile then perProfile[line.profile.value].0 else 0;
      perProfile := perProfile[line.profile.value := (prev + count.value, threshold)];
    }
    BucketsMeaning(productsCalc, fallback, |productsCalc|);
    assert perProfile.Keys != {} <==> AnyProfiled(productsCalc) by {
      assert forall p :: p in perProfile.Keys <==> HasBucket(productsCalc, fallback, p);
    }
    if perProfile.Keys != {} {
      var rest := perProfile.Keys;
      while rest != {}
        invariant rest <= perProfile.Keys
        invariant forall p | p in perProfile && p !in rest :: perProfile[p].0 <= perProfile[p].1
        decreases rest
      {
        var p :| p in rest;
        assert perProfile[p].0 > perProfile[p].1 <==> Exceeded(productsCalc, fallback, p);
        if perProfile[p].0 > perProfile[p].1 { return Ftl; }
        rest := rest - {p};
      }
      return Ltl;
    }
    r := if totalPallets > fallback then Ftl else Ltl;
  }

  lemma {:induction false} NoProfileYet(lines: seq<Line>, fallback: int, n: nat)
    requires n <= |lines|
    ensures forall p | LastThreshold(lines, fallback, p, n).None? :: ProfileTotal(lines, p, n) == 0
  {
    if n > 0 { NoProfileYet(lines, fallback, n - 1); }
  }

  /** Among the first `n` lines, `k` is the last of profile `p`. */
  predicate LastOf(lines: seq<Line>, p: string, n: nat, k: nat)
    requires k < n <= |lines|
  {
    InProfile(lines[k], p) && forall j | k < j < n :: !InProfile(lines[j], p)
  }

  lemma {:induction false} LastThresholdMeaning(lines: seq<Line>, fallback: int, p: string, n: nat)
    requires n <= |lines|
    ensures forall k | 0 <= k < n && LastOf(lines, p, n, k) :: LastThreshold(lines, fallback, p, n) == Some(ThresholdOf(lines[k], fallback))
    ensures LastThreshold(lines, fallback, p, n).Some? ==> exists k | 0 <= k < n :: LastOf(lines, p, n, k)
    ensures LastThreshold(lines, fallback, p, n).None? ==> forall k | 0 <= k < n :: !InProfile(lines[k], p)
  {
    if n > 0 {
      LastThresholdMeaning(lines, fallback, p, n - 1);
      if InProfile(lines[n - 1], p) {
        assert LastOf(lines, p, n, n - 1);
      } else {
        forall k | 0 <= k < n - 1 ensures LastOf(lines, p, n, k) <==> LastOf(lines, p, n - 1, k) {
        }
        if LastThreshold(lines, fallback, p, n - 1).Some? {
          var k :| 0 <= k < n - 1 && LastOf(lines, p, n - 1, k);
          assert LastOf(lines, p, n, k);
        }
      }
    }
  }

  lemma BucketsMeaning(lines: seq<Line>, fallback: int, n: nat)
    requires n == |lines|
    ensures AnyProfiled(lines) <==> exists p :: HasBucket(lines, fallback, p)
    ensures (exists k | 0 <= k < n :: Overflows(lines, fallback, k)) <==> exists p :: Exceeded(lines, fallback, p)
  {
    forall p ensures
      && (HasBucket(lines, fallback, p) ==> AnyProfiled(lines))
      && (Exceeded(lines, fallback, p) ==> exists k | 0 <= k < n :: Overflows(lines, fallback, k))
    {
      LastThresholdMeaning(lines, fallback, p, n);
      if LastThreshold(lines, fallback, p, n).Some? {
        var k :| 0 <= k < n && LastOf(lines, p, n, k);
        assert Profiled(lines[k]);
        assert Exceeded(lines, fallback, p) ==> Overflows(lines, fallback, k);
      }
    }
    forall k | 0 <= k < n && Profiled(lines[k])
      ensures HasBucket(lines, fallback, lines[k].profile.value)
      ensures Overflows(lines, fallback, k) ==> Exceeded(lines, fallback, lines[k].profile.value)
    {
      LastThresholdMeaning(lines, fallback, lines[k].profile.value, n);
      assert Overflows(lines, fallback, k) ==> LastOf(lines, lines[k].profile.value, n, k);
    }
  }

  predicate HasBucket(lines: seq<Line>, fallback: int, p: string) {
    LastThreshold(lines, fallback, p, |lines|).Some?
  }

  predicate Exceeded(lines: seq<Line>, fallback: int, p: string) {
    var last := LastThreshold(lines, fallback, p, |lines|);
    last.Some? && ProfileTotal(lines, p, |lines|) > last.value
  }
}
