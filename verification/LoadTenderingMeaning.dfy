/** The load type read off the lines' own entries: which counts, profiles and thresholds matter. */
module LoadTenderingMeaning {
  import opened Wrappers
  import opened LoadTendering

  /** The line has this many pallets: by `pallets_count`, or by `pallets` when it has no `pallets_count` at all. */
  predicate HasPallets(line: Line, n: int) {
    line.palletsCount == Number(n) || (line.palletsCount == Absent && line.pallets == Number(n))
  }

  /** Some entry of the line decides how many pallets it has. */
  predicate HasCount(line: Line) {
    line.palletsCount.Number? || (line.palletsCount.Absent? && line.pallets.Number?)
  }

  /** The pallets of a line; a line without a count adds none. */
  function PalletsOf(line: Line): int {
    match line.palletsCount
    case Number(n) => n
    case Absent => (match line.pallets case Number(n) => n case _ => 0)
    case _ => 0
  }

  /** The line has a count, the profile, and an entry for the threshold. */
  predicate OfProfile(line: Line, p: string) {
    HasCount(line) && line.profile == Some(p) && (line.threshold.Number? || line.threshold.NotANumber?)
  }

  predicate HasProfile(line: Line) {
    line.profile.Some? && OfProfile(line, line.profile.value)
  }

  /** A threshold that is no number stands for the fallback. */
  function Allowed(line: Line, fallback: int): int {
    match line.threshold
    case Number(n) => n
    case _ => fallback
  }

  /** All pallets of the order. */
  function AllPallets(lines: seq<Line>): int {
    if lines == [] then 0 else PalletsOf(lines[0]) + AllPallets(lines[1..])
  }

  /** The pallets of the profile's lines. */
  function ProfilePallets(lines: seq<Line>, p: string): int {
    if lines == [] then 0 else (if OfProfile(lines[0], p) then PalletsOf(lines[0]) else 0) + ProfilePallets(lines[1..], p)
  }

  /** Line `k` is the last of its profile, and the profile holds more pallets than the line allows. */
  predicate LastAndOver(lines: seq<Line>, fallback: int, k: nat)
    requires k < |lines|
  {
    && HasProfile(lines[k])
    && (forall j | k < j < |lines| :: !OfProfile(lines[j], lines[k].profile.value))
    && ProfilePallets(lines, lines[k].profile.value) > Allowed(lines[k], fallback)
  }

  lemma LineIs(line: Line, p: string, fallback: int)
    ensures forall n :: HasPallets(line, n) <==> CountOf(line) == Some(n)
    ensures HasCount(line) <==> CountOf(line).Some?
    ensures CountOf(line).GetOr(0) == PalletsOf(line)
    ensures InProfile(line, p) <==> OfProfile(line, p)
    ensures Profiled(line) <==> HasProfile(line)
    ensures PalletsIn(line, p) == if OfProfile(line, p) then PalletsOf(line) else 0
    ensures Profiled(line) ==> ThresholdOf(line, fallback) == Allowed(line, fallback)
  {
  }

  lemma {:induction false} LastLine(lines: seq<Line>, p: string)
    requires lines != []
    ensures var n := |lines| - 1;
            && AllPallets(lines) == AllPallets(lines[..n]) + PalletsOf(lines[n])
            && ProfilePallets(lines, p) == ProfilePallets(lines[..n], p) + (if OfProfile(lines[n], p) then PalletsOf(lines[n]) else 0)
  {
    var n := |lines| - 1;
    if n > 0 {
      LastLine(lines[1..], p);
      assert lines[1..][..n - 1] == lines[..n][1..];
    }
  }

  lemma {:induction false} TotalsAre(lines: seq<Line>, p: string, n: nat)
    requires n <= |lines|
    ensures Total(lines, n) == AllPallets(lines[..n]) && ProfileTotal(lines, p, n) == ProfilePallets(lines[..n], p)
  {
    if n > 0 {
      TotalsAre(lines, p, n - 1);
      LineIs(lines[n - 1], p, 0);
      LastLine(lines[..n], p);
      assert lines[..n][..n - 1] == lines[..n - 1];
    }
  }

  lemma OverflowIff(lines: seq<Line>, fallback: int, k: nat)
    requires k < |lines|
    ensures Overflows(lines, fallback, k) <==> LastAndOver(lines, fallback, k)
  {
    LineIs(lines[k], "", fallback);
    if Profiled(lines[k]) {
      var p := lines[k].profile.value;
      forall j | 0 <= j < |lines| ensures InProfile(lines[j], p) <==> OfProfile(lines[j], p) { LineIs(lines[j], p, fallback); }
      TotalsAre(lines, p, |lines|);
      assert lines[..|lines|] == lines;
    }
  }

  /**
   Full truck load, from the entries alone: with a line in a profile, when some profile's
   pallets exceed the threshold on its last line; with none, when all pallets exceed the
   fallback.
   */
  lemma IsFtlIff(lines: seq<Line>, fallback: int)
    ensures IsFtl(lines, fallback)
       <==> if exists k | 0 <= k < |lines| :: HasProfile(lines[k]) then exists k | 0 <= k < |lines| :: LastAndOver(lines, fallback, k)
            else AllPallets(lines) > fallback
  {
    forall k | 0 <= k < |lines|
      ensures HasProfile(lines[k]) <==> Profiled(lines[k])
      ensures Overflows(lines, fallback, k) <==> LastAndOver(lines, fallback, k)
    {
      LineIs(lines[k], "", fallback);
      OverflowIff(lines, fallback, k);
    }
    TotalsAre(lines, "", |lines|);
    assert lines[..|lines|] == lines;
  }
}
