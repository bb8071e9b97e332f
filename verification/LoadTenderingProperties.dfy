/** The load type equals its declarative meaning, does not depend on line order, and grows with the lines. */
module LoadTenderingProperties {
  import opened Wrappers
  import opened LoadTendering

  /** Each profile uses one threshold. */
  predicate SharedThresholds(lines: seq<Line>, fallback: int) {
    forall i, j | 0 <= i < |lines| && 0 <= j < |lines| && Profiled(lines[i]) && InProfile(lines[j], lines[i].profile.value) ::
      ThresholdOf(lines[i], fallback) == ThresholdOf(lines[j], fallback)
  }

  /** The profile of line `k` holds more pallets than the line allows. */
  predicate OverThreshold(lines: seq<Line>, fallback: int, k: nat)
    requires k < |lines|
  {
    Profiled(lines[k]) && ProfileTotal(lines, lines[k].profile.value, |lines|) > ThresholdOf(lines[k], fallback)
  }

  /**
   With one threshold a profile, the order is FTL exactly when some profile's pallets exceed
   it, or, with no profiled line at all, when the order's pallets exceed the fallback.
   */
  lemma MeaningWithSharedThresholds(lines: seq<Line>, fallback: int)
    requires SharedThresholds(lines, fallback)
    ensures IsFtl(lines, fallback)
       <==> if AnyProfiled(lines) then exists k | 0 <= k < |lines| :: OverThreshold(lines, fallback, k) else Total(lines, |lines|) > fallback
  {
    forall k | 0 <= k < |lines| && OverThreshold(lines, fallback, k) ensures exists j | 0 <= j < |lines| :: Overflows(lines, fallback, j) {
      var p := lines[k].profile.value;
      LastThresholdMeaning(lines, fallback, p, |lines|);
      var j :| 0 <= j < |lines| && LastOf(lines, p, |lines|, j);
      assert Overflows(lines, fallback, j);
    }
    forall k | 0 <= k < |lines| && Overflows(lines, fallback, k) ensures OverThreshold(lines, fallback, k) {
    }
  }

  // ----- order

  lemma {:induction false} TotalsWithout(lines: seq<Line>, k: nat, p: string, n: nat)
    requires k < n == |lines|
    ensures var rest := lines[..k] + lines[k + 1..];
            && ProfileTotal(lines, p, n) == ProfileTotal(rest, p, n - 1) + PalletsIn(lines[k], p)
            && Total(lines, n) == Total(rest, n - 1) + CountOf(lines[k]).GetOr(0)
  {
    TotalsPrefix(lines[..n - 1], lines, p, n - 1);
    var rest := lines[..k] + lines[k + 1..];
    if k < n - 1 {
      TotalsWithout(lines[..n - 1], k, p, n - 1);
      var shorter := lines[..n - 1][..k] + lines[..n - 1][k + 1..];
      assert rest == shorter + [lines[n - 1]];
      TotalsPrefix(shorter, rest, p, n - 2);
    } else {
      assert rest == lines[..n - 1];
    }
  }

  lemma {:induction false} TotalsPrefix(lines: seq<Line>, longer: seq<Line>, p: string, n: nat)
    requires n <= |lines| && lines <= longer
    ensures ProfileTotal(longer, p, n) == ProfileTotal(lines, p, n) && Total(longer, n) == Total(lines, n)
  {
    if n > 0 { TotalsPrefix(lines, longer, p, n - 1); }
  }

  lemma {:induction false} TotalsOfPermutation(a: seq<Line>, b: seq<Line>, p: string)
    requires multiset(a) == multiset(b)
    ensures |a| == |b| && ProfileTotal(a, p, |a|) == ProfileTotal(b, p, |b|) && Total(a, |a|) == Total(b, |b|)
    decreases |a|
  {
    SameLength(a, b);
    if a != [] {
      var last := |a| - 1;
      var k := DropLast(a, b);
      TotalsOfPermutation(a[..last], b[..k] + b[k + 1..], p);
      TotalsWithout(b, k, p, |b|);
      TotalsPrefix(a[..last], a, p, last);
    }
  }

  lemma SameLength(a: seq<Line>, b: seq<Line>)
    requires multiset(a) == multiset(b)
    ensures |a| == |b|
  {
    assert |multiset(a)| == |a| && |multiset(b)| == |b|;
  }

  lemma DropLast(a: seq<Line>, b: seq<Line>) returns (k: nat)
    requires multiset(a) == multiset(b) && a != []
    ensures k < |b| && b[k] == a[|a| - 1] && multiset(a[..|a| - 1]) == multiset(b[..k] + b[k + 1..])
  {
    var last := |a| - 1;
    assert a[last] in multiset(b);
    k :| 0 <= k < |b| && b[k] == a[last];
    var rest := b[..k] + b[k + 1..];
    assert b == b[..k] + [b[k]] + b[k + 1..];
    assert multiset(b) == multiset(rest) + multiset{b[k]};
    assert a == a[..last] + [a[last]];
    assert multiset(a) == multiset(a[..last]) + multiset{a[last]};
    assert multiset(a[..last]) == multiset(a) - multiset{a[last]} == multiset(rest);
  }

  lemma IndexIn(a: seq<Line>, b: seq<Line>, i: nat) returns (k: nat)
    requires multiset(a) == multiset(b) && i < |b|
    ensures k < |a| && a[k] == b[i]
  {
    assert b[i] in multiset(a);
    k :| 0 <= k < |a| && a[k] == b[i];
  }

  lemma ProfiledAfterPermutation(a: seq<Line>, b: seq<Line>)
    requires multiset(a) == multiset(b)
    ensures AnyProfiled(b) ==> AnyProfiled(a)
  {
    if k :| 0 <= k < |b| && Profiled(b[k]) {
      var j := IndexIn(a, b, k);
      assert Profiled(a[j]);
    }
  }

  /** The line's profile holds, over `lines`, more pallets than the line allows. */
  predicate Over(lines: seq<Line>, fallback: int, line: Line) {
    Profiled(line) && ProfileTotal(lines, line.profile.value, |lines|) > ThresholdOf(line, fallback)
  }

  /** The profile of line `k` exceeds the threshold of every one of its lines. */
  predicate ExceedsAll(lines: seq<Line>, fallback: int, k: nat)
    requires k < |lines|
  {
    Profiled(lines[k]) && forall j | 0 <= j < |lines| && InProfile(lines[j], lines[k].profile.value) :: Over(lines, fallback, lines[j])
  }

  /** Some profile exceeds all the thresholds on its lines, or no profile exceeds any. */
  predicate Settled(lines: seq<Line>, fallback: int) {
    || (exists k | 0 <= k < |lines| :: ExceedsAll(lines, fallback, k))
    || (forall k | 0 <= k < |lines| :: !Over(lines, fallback, lines[k]))
  }

  lemma OverAfterPermutation(a: seq<Line>, b: seq<Line>, fallback: int, line: Line)
    requires multiset(a) == multiset(b)
    ensures Over(a, fallback, line) <==> Over(b, fallback, line)
  {
    if Profiled(line) { TotalsOfPermutation(a, b, line.profile.value); }
  }

  /** An overflowing line is over its threshold, and a profile that exceeds all its thresholds overflows at its last line. */
  lemma OverflowsAre(b: seq<Line>, fallback: int, k: nat)
    requires k < |b|
    ensures Overflows(b, fallback, k) ==> Over(b, fallback, b[k])
    ensures ExceedsAll(b, fallback, k) ==> exists j | 0 <= j < |b| :: Overflows(b, fallback, j)
  {
    if ExceedsAll(b, fallback, k) {
      var p := b[k].profile.value;
      LastThresholdMeaning(b, fallback, p, |b|);
      var j :| 0 <= j < |b| && LastOf(b, p, |b|, j);
      assert Over(b, fallback, b[j]);
      assert Overflows(b, fallback, j);
    }
  }

  lemma ExceedsAllAfterPermutation(a: seq<Line>, b: seq<Line>, fallback: int, k: nat) returns (j: nat)
    requires multiset(a) == multiset(b) && k < |a| && ExceedsAll(a, fallback, k)
    ensures j < |b| && ExceedsAll(b, fallback, j)
  {
    j := IndexIn(b, a, k);
    forall i | 0 <= i < |b| && InProfile(b[i], b[j].profile.value) ensures Over(b, fallback, b[i]) {
      var x := IndexIn(a, b, i);
      assert InProfile(a[x], a[k].profile.value);
      OverAfterPermutation(a, b, fallback, b[i]);
    }
  }

  lemma SettledIsOrderFree(a: seq<Line>, b: seq<Line>, fallback: int)
    requires multiset(a) == multiset(b) && Settled(a, fallback)
    ensures IsFtl(a, fallback) <==> IsFtl(b, fallback)
  {
    ProfiledAfterPermutation(a, b);
    ProfiledAfterPermutation(b, a);
    if !AnyProfiled(a) {
      TotalsOfPermutation(a, b, "");
    } else if k :| 0 <= k < |a| && ExceedsAll(a, fallback, k) {
      var j := ExceedsAllAfterPermutation(a, b, fallback, k);
      OverflowsAre(a, fallback, k);
      OverflowsAre(b, fallback, j);
    } else {
      NoneOverflows(a, a, fallback);
      NoneOverflows(a, b, fallback);
    }
  }

  lemma NoneOverflows(a: seq<Line>, b: seq<Line>, fallback: int)
    requires multiset(a) == multiset(b) && forall k | 0 <= k < |a| :: !Over(a, fallback, a[k])
    ensures forall k | 0 <= k < |b| :: !Overflows(b, fallback, k)
  {
    forall k | 0 <= k < |b| ensures !Overflows(b, fallback, k) {
      var x := IndexIn(a, b, k);
      OverAfterPermutation(a, b, fallback, b[k]);
      OverflowsAre(b, fallback, k);
    }
  }

  /** An order of the lines in which line `k` comes last. */
  lemma MovedLast(a: seq<Line>, fallback: int, k: nat) returns (b: seq<Line>)
    requires k < |a| && Over(a, fallback, a[k])
    ensures multiset(b) == multiset(a) && IsFtl(b, fallback)
  {
    b := a[..k] + a[k + 1..] + [a[k]];
    assert a == a[..k] + [a[k]] + a[k + 1..];
    assert multiset(b) == multiset(a);
    OverAfterPermutation(a, b, fallback, a[k]);
    SameLength(a, b);
    var last := |b| - 1;
    assert b[last] == a[k];
    assert Overflows(b, fallback, last);
  }

  /** The lines that are over, or those that are not. */
  function Select(lines: seq<Line>, over: Line -> bool, want: bool): (r: seq<Line>)
    ensures forall k | 0 <= k < |r| :: over(r[k]) == want
  {
    if lines == [] then []
    else (if over(lines[0]) == want then [lines[0]] else []) + Select(lines[1..], over, want)
  }

  lemma {:induction false} SelectSplits(lines: seq<Line>, over: Line -> bool)
    ensures multiset(Select(lines, over, true)) + multiset(Select(lines, over, false)) == multiset(lines)
  {
    if lines != [] {
      SelectSplits(lines[1..], over);
      assert lines == [lines[0]] + lines[1..];
    }
  }

  lemma {:induction false} SelectHolds(lines: seq<Line>, over: Line -> bool, want: bool, line: Line)
    ensures line in Select(lines, over, want) <==> line in lines && over(line) == want
  {
    if lines != [] {
      SelectHolds(lines[1..], over, want, line);
      assert line in lines <==> line == lines[0] || line in lines[1..];
    }
  }

  /** The order with all lines that are over in front: where each profile has another line, none overflows. */
  lemma OverFirst(a: seq<Line>, fallback: int) returns (b: seq<Line>)
    requires AnyProfiled(a) && forall k | 0 <= k < |a| :: !ExceedsAll(a, fallback, k)
    ensures multiset(b) == multiset(a) && !IsFtl(b, fallback)
  {
    var over := (line: Line) => Over(a, fallback, line);
    var front, back := Select(a, over, true), Select(a, over, false);
    b := front + back;
    SelectSplits(a, over);
    ProfiledAfterPermutation(b, a);
    forall line | line in front
      ensures line in a && exists j | 0 <= j < |back| :: Profiled(line) && InProfile(back[j], line.profile.value)
    {
      SelectHolds(a, over, true, line);
      var i := HasLineBehind(a, fallback, line);
      SelectHolds(a, over, false, a[i]);
    }
    forall k | 0 <= k < |b| ensures !Overflows(b, fallback, k) {
      OverflowsAre(b, fallback, k);
      OverAfterPermutation(a, b, fallback, b[k]);
      if k < |front| {
        assert front[k] in front;
        FollowedDoesNotOverflow(front, back, fallback, k);
      } else {
        assert b[k] == back[k - |front|];
      }
    }
  }

  lemma FollowedDoesNotOverflow(front: seq<Line>, back: seq<Line>, fallback: int, k: nat)
    requires k < |front| && Profiled(front[k])
    requires exists j | 0 <= j < |back| :: InProfile(back[j], front[k].profile.value)
    ensures !Overflows(front + back, fallback, k)
  {
    var j :| 0 <= j < |back| && InProfile(back[j], front[k].profile.value);
    assert (front + back)[k] == front[k] && (front + back)[|front| + j] == back[j];
  }

  lemma HasLineBehind(a: seq<Line>, fallback: int, line: Line) returns (i: nat)
    requires line in a && Over(a, fallback, line) && forall k | 0 <= k < |a| :: !ExceedsAll(a, fallback, k)
    ensures i < |a| && InProfile(a[i], line.profile.value) && !Over(a, fallback, a[i])
  {
    var k :| 0 <= k < |a| && a[k] == line;
    assert !ExceedsAll(a, fallback, k);
    i :| 0 <= i < |a| && InProfile(a[i], line.profile.value) && !Over(a, fallback, a[i]);
  }

  /**
   For any lines: every order of them gives the same load type exactly when some profile
   exceeds all the thresholds on its lines or no profile exceeds any.
   */
  lemma OrderIsIrrelevantIff(a: seq<Line>, fallback: int)
    ensures (forall b | multiset(b) == multiset(a) :: IsFtl(b, fallback) <==> IsFtl(a, fallback)) <==> Settled(a, fallback)
  {
    if Settled(a, fallback) {
      forall b | multiset(b) == multiset(a) ensures IsFtl(b, fallback) <==> IsFtl(a, fallback) {
        SettledIsOrderFree(a, b, fallback);
      }
    } else {
      var k :| 0 <= k < |a| && Over(a, fallback, a[k]);
      var ftl := MovedLast(a, fallback, k);
      var ltl := OverFirst(a, fallback);
      assert multiset(ftl) == multiset(a) && multiset(ltl) == multiset(a);
    }
  }

  /** With one threshold a profile, reordering the lines never changes the load type. */
  lemma OrderIsIrrelevant(a: seq<Line>, b: seq<Line>, fallback: int)
    requires multiset(a) == multiset(b) && SharedThresholds(a, fallback)
    ensures IsFtl(a, fallback) <==> IsFtl(b, fallback)
  {
    if k :| 0 <= k < |a| && Over(a, fallback, a[k]) {
      assert ExceedsAll(a, fallback, k);
    }
    SettledIsOrderFree(a, b, fallback);
  }

  /** Two orders of two lines with different load types: in one profile the last line's threshold counts. */
  lemma OrderMattersWithoutSharedThresholds() returns (low: Line, high: Line)
    ensures low == Line(Number(5), Absent, Some("p"), Number(4)) && high == low.(threshold := Number(20))
    ensures IsFtl([high, low], DEFAULT_THRESHOLD) && !IsFtl([low, high], DEFAULT_THRESHOLD)
    ensures !Settled([low, high], DEFAULT_THRESHOLD)
  {
    low := Line(Number(5), Absent, Some("p"), Number(4));
    high := low.(threshold := Number(20));
    var a, b := [high, low], [low, high];
    assert ProfileTotal(a, "p", 0) == 0 && ProfileTotal(a, "p", 1) == 5 && ProfileTotal(a, "p", 2) == 10;
    assert ProfileTotal(b, "p", 0) == 0 && ProfileTotal(b, "p", 1) == 5 && ProfileTotal(b, "p", 2) == 10;
    assert Profiled(a[1]) && Overflows(a, DEFAULT_THRESHOLD, 1);
    assert Profiled(b[0]) && InProfile(b[1], "p");
    assert !Overflows(b, DEFAULT_THRESHOLD, 0) && !Overflows(b, DEFAULT_THRESHOLD, 1);
    if Settled(b, DEFAULT_THRESHOLD) {
      SettledIsOrderFree(b, a, DEFAULT_THRESHOLD);
    }
  }

  // ----- more lines

  lemma {:induction false} TotalsOfConcat(a: seq<Line>, b: seq<Line>, p: string, n: nat)
    requires n <= |b|
    ensures ProfileTotal(a + b, p, |a| + n) == ProfileTotal(a, p, |a|) + ProfileTotal(b, p, n)
    ensures Total(a + b, |a| + n) == Total(a, |a|) + Total(b, n)
  {
    if n > 0 {
      TotalsOfConcat(a, b, p, n - 1);
      assert (a + b)[|a| + n - 1] == b[n - 1];
    } else {
      TotalsPrefix(a, a + b, p, |a|);
    }
  }

  predicate NonNegative(lines: seq<Line>) {
    forall k | 0 <= k < |lines| && CountOf(lines[k]).Some? :: CountOf(lines[k]).value >= 0
  }

  lemma {:induction false} NonNegativeTotals(lines: seq<Line>, p: string, n: nat)
    requires n <= |lines| && NonNegative(lines)
    ensures ProfileTotal(lines, p, n) >= 0 && Total(lines, n) >= 0
  {
    if n > 0 { NonNegativeTotals(lines, p, n - 1); }
  }

  /** Adding lines with nonnegative counts under the same thresholds never turns FTL into LTL. */
  lemma MoreLinesKeepFtl(lines: seq<Line>, added: seq<Line>, fallback: int)
    requires SharedThresholds(lines + added, fallback) && NonNegative(added) && IsFtl(lines, fallback)
    requires AnyProfiled(added) ==> AnyProfiled(lines)
    ensures IsFtl(lines + added, fallback)
  {
    var all := lines + added;
    assert forall k | 0 <= k < |lines| :: all[k] == lines[k];
    assert forall k | 0 <= k < |added| :: all[|lines| + k] == added[k];
    SharedInPrefix(lines, added, fallback);
    MeaningWithSharedThresholds(lines, fallback);
    MeaningWithSharedThresholds(all, fallback);
    if AnyProfiled(lines) {
      var k :| 0 <= k < |lines| && OverThreshold(lines, fallback, k);
      var p := lines[k].profile.value;
      TotalsOfConcat(lines, added, p, |added|);
      NonNegativeTotals(added, p, |added|);
      assert OverThreshold(all, fallback, k);
    } else {
      TotalsOfConcat(lines, added, "", |added|);
      NonNegativeTotals(added, "", |added|);
      NoneProfiled(lines, added);
    }
  }

  lemma SharedInPrefix(lines: seq<Line>, added: seq<Line>, fallback: int)
    requires SharedThresholds(lines + added, fallback)
    ensures SharedThresholds(lines, fallback)
  {
    var all := lines + added;
    assert forall k | 0 <= k < |lines| :: all[k] == lines[k];
  }

  lemma NoneProfiled(lines: seq<Line>, added: seq<Line>)
    ensures AnyProfiled(lines + added) <==> AnyProfiled(lines) || AnyProfiled(added)
  {
    var all := lines + added;
    assert forall k | 0 <= k < |lines| :: all[k] == lines[k];
    assert forall k | 0 <= k < |added| :: all[|lines| + k] == added[k];
  }

  /** Lines without a profile stop counting once a profiled line is there: then the added lines alone decide. */
  lemma FirstProfileDecides(lines: seq<Line>, added: seq<Line>, fallback: int)
    requires !AnyProfiled(lines) && AnyProfiled(added)
    ensures IsFtl(lines + added, fallback) <==> IsFtl(added, fallback)
  {
    var all, n := lines + added, |lines|;
    NoneProfiled(lines, added);
    forall k | 0 <= k < |added| ensures Overflows(all, fallback, n + k) <==> Overflows(added, fallback, k) {
      assert all[n + k] == added[k];
      if Profiled(added[k]) {
        var p := added[k].profile.value;
        UnprofiledTotal(lines, p, n);
        TotalsOfConcat(lines, added, p, |added|);
        LastInConcat(lines, added, p, k);
      }
    }
    forall k | 0 <= k < n ensures !Overflows(all, fallback, k) {
      assert all[k] == lines[k];
    }
    if k :| 0 <= k < |all| && Overflows(all, fallback, k) {
      assert k >= n && Overflows(added, fallback, k - n);
    }
  }

  lemma LastInConcat(lines: seq<Line>, added: seq<Line>, p: string, k: nat)
    requires k < |added|
    ensures (forall j | |lines| + k < j < |lines + added| :: !InProfile((lines + added)[j], p))
       <==> forall j | k < j < |added| :: !InProfile(added[j], p)
  {
    var all, n := lines + added, |lines|;
    forall j | k < j < |added| ensures all[n + j] == added[j] {
    }
  }

  lemma {:induction false} UnprofiledTotal(lines: seq<Line>, p: string, n: nat)
    requires n <= |lines| && !AnyProfiled(lines)
    ensures ProfileTotal(lines, p, n) == 0
  {
    if n > 0 { UnprofiledTotal(lines, p, n - 1); }
  }
}
