/** Why the reminder plan is right: catch-up choice, partition, spacing, optimality. */
module ReminderPlanProperties {
  import opened Wrappers
  import opened ReminderPlan

  /** `ReminderStepSpec.delay_hours` is declared with `gt=0`. */
  predicate ValidSteps(steps: seq<Step>) {
    forall i | 0 <= i < |steps| :: steps[i].delayHours > 0.0
  }

  // ----- catch-up

  predicate HasOffset(steps: seq<Step>, d: real) {
    exists i | 0 <= i < |steps| :: steps[i].delayHours == d
  }

  predicate Descending(offsets: seq<real>) {
    forall i, j | 0 <= i < j < |offsets| :: offsets[i] > offsets[j]
  }

  lemma InsertOffsetKeepsOrder(offsets: seq<real>, d: real)
    requires Descending(offsets)
    ensures Descending(InsertOffset(offsets, d))
    ensures forall e :: e in InsertOffset(offsets, d) <==> e in offsets || e == d
  {
    if offsets != [] && d < offsets[0] {
      InsertOffsetKeepsOrder(offsets[1..], d);
      var rest := InsertOffset(offsets[1..], d);
      assert forall e :: e in offsets <==> e == offsets[0] || e in offsets[1..];
      forall k | 0 <= k < |rest| ensures offsets[0] > rest[k] {
        assert rest[k] in offsets[1..] || rest[k] == d;
      }
    }
  }

  lemma OffsetsAreTheDelays(steps: seq<Step>)
    ensures Descending(Offsets(steps))
    ensures forall d :: d in Offsets(steps) <==> HasOffset(steps, d)
  {
    if steps != [] {
      OffsetsAreTheDelays(steps[1..]);
      InsertOffsetKeepsOrder(Offsets(steps[1..]), steps[0].delayHours);
      forall d ensures d in Offsets(steps) <==> HasOffset(steps, d) {
        if HasOffset(steps[1..], d) {
          var i :| 0 <= i < |steps[1..]| && steps[1..][i].delayHours == d;
          assert steps[i + 1].delayHours == d;
        }
        if HasOffset(steps, d) {
          var i :| 0 <= i < |steps| && steps[i].delayHours == d;
          assert i == 0 || steps[1..][i - 1].delayHours == d;
        }
      }
    }
  }

  lemma FirstWithOffsetFinds(steps: seq<Step>, d: real)
    ensures FirstWithOffset(steps, d).Some? <==> HasOffset(steps, d)
    ensures FirstWithOffset(steps, d).Some? ==>
              FirstWithOffset(steps, d).value in steps && FirstWithOffset(steps, d).value.delayHours == d
  {
    if steps != [] && steps[0].delayHours != d {
      FirstWithOffsetFinds(steps[1..], d);
      if HasOffset(steps, d) {
        var i :| 0 <= i < |steps| && steps[i].delayHours == d;
        assert steps[1..][i - 1].delayHours == d;
      }
      if HasOffset(steps[1..], d) {
        var i :| 0 <= i < |steps[1..]| && steps[1..][i].delayHours == d;
        assert steps[i + 1].delayHours == d;
      }
    }
  }

  lemma FindBandFindsLeastCover(steps: seq<Step>, offsets: seq<real>, r: real)
    requires Descending(offsets)
    requires forall d | d in offsets :: d > 0.0 && HasOffset(steps, d)
    requires offsets != [] ==> r <= offsets[0]
    ensures FindBand(steps, offsets, r).Some? <==> r > 0.0 && offsets != []
    ensures FindBand(steps, offsets, r).Some? ==>
              var c := FindBand(steps, offsets, r).value;
              c in steps && c.delayHours in offsets && c.delayHours >= r
              && forall d | d in offsets && d >= r :: c.delayHours <= d
  {
    if offsets != [] {
      FirstWithOffsetFinds(steps, offsets[0]);
      assert forall d :: d in offsets <==> d == offsets[0] || d in offsets[1..];
      var lower := if |offsets| > 1 then offsets[1] else 0.0;
      if lower < r {
        assert |offsets| > 1 ==> offsets[1] in offsets;
        forall d | d in offsets && d >= r ensures offsets[0] <= d {
          var k :| 0 <= k < |offsets| && offsets[k] == d;
        }
      } else {
        FindBandFindsLeastCover(steps, offsets[1..], r);
      }
    }
  }

  /** The largest offset, which bounds the catch-up window. */
  ghost predicate WithinLargestOffset(steps: seq<Step>, r: real) {
    exists d :: HasOffset(steps, d) && r <= d
  }

  /**
   A catch-up step exists exactly when the time left is positive and no larger than
   the largest offset. Its offset is the smallest one that is at least the time left,
   so nothing falls due after it and up to now.
   */
  lemma CatchUpCharacterisation(pickup: real, now: real, steps: seq<Step>)
    requires ValidSteps(steps)
    ensures CatchUpOf(pickup, now, steps, true).Some?
       <==> 0.0 < pickup - now && WithinLargestOffset(steps, pickup - now)
    ensures CatchUpOf(pickup, now, steps, true).Some? ==>
              var c := CatchUpOf(pickup, now, steps, true).value;
              && c in steps
              && FireAt(pickup, c) <= now
              && (forall s | s in steps && s.delayHours >= pickup - now :: c.delayHours <= s.delayHours)
              && (forall s | s in steps :: !(FireAt(pickup, c) < FireAt(pickup, s) <= now))
  {
    var r := pickup - now;
    var offsets := Offsets(steps);
    OffsetsAreTheDelays(steps);
    forall s | s in steps ensures s.delayHours in offsets {
      var i :| 0 <= i < |steps| && steps[i] == s;
      assert HasOffset(steps, s.delayHours);
    }
    if offsets != [] && r <= offsets[0] {
      assert HasOffset(steps, offsets[0]);
      FindBandFindsLeastCover(steps, offsets, r);
    }
    forall d | HasOffset(steps, d) ensures offsets != [] && d <= offsets[0] {
      var k :| 0 <= k < |offsets| && offsets[k] == d;
    }
  }

  // ----- partition

  /** Every input step as a candidate, from position `i` on. */
  function AllFrom(steps: seq<Step>, i: nat, pickup: real): seq<Candidate>
    requires i <= |steps|
    decreases |steps| - i
  {
    if i == |steps| then [] else [CandidateAt(steps, i, pickup)] + AllFrom(steps, i + 1, pickup)
  }

  /** The catch-up step and its duplicates, from position `i` on. */
  function CatchUpsFrom(steps: seq<Step>, i: nat, pickup: real, catchUp: Option<Step>): seq<Candidate>
    requires i <= |steps|
    decreases |steps| - i
  {
    if i == |steps| then []
    else
      var rest := CatchUpsFrom(steps, i + 1, pickup, catchUp);
      if IsCatchUp(steps, i, catchUp) then [CandidateAt(steps, i, pickup)] + rest else rest
  }

  predicate Ascending(cs: seq<Candidate>) {
    forall i, j | 0 <= i < j < |cs| :: cs[i].fireAt <= cs[j].fireAt
  }

  lemma SplitIsPartition(steps: seq<Step>, i: nat, pickup: real, now: real, catchUp: Option<Step>)
    requires i <= |steps|
    ensures multiset(AllFrom(steps, i, pickup))
         == multiset(CatchUpsFrom(steps, i, pickup, catchUp))
          + multiset(PastFrom(steps, i, pickup, now, catchUp))
          + multiset(FutureFrom(steps, i, pickup, now, catchUp))
    decreases |steps| - i
  {
    if i < |steps| {
      SplitIsPartition(steps, i + 1, pickup, now, catchUp);
    }
  }

  lemma AllAreDistinct(steps: seq<Step>, i: nat, pickup: real)
    requires i <= |steps|
    ensures forall c | c in AllFrom(steps, i, pickup) :: i < c.index <= |steps| && c == CandidateAt(steps, c.index - 1, pickup)
    ensures forall c :: multiset(AllFrom(steps, i, pickup))[c] <= 1
    decreases |steps| - i
  {
    if i < |steps| {
      AllAreDistinct(steps, i + 1, pickup);
    }
  }

  lemma PastAndFutureTimes(steps: seq<Step>, i: nat, pickup: real, now: real, catchUp: Option<Step>)
    requires i <= |steps|
    ensures forall c | c in PastFrom(steps, i, pickup, now, catchUp) :: c.fireAt <= now
    ensures forall c | c in FutureFrom(steps, i, pickup, now, catchUp) :: c.fireAt > now
    ensures forall c | c in FutureFrom(steps, i, pickup, now, catchUp) :: c.fireAt == FireAt(pickup, c.step) && c.step in steps
    decreases |steps| - i
  {
    if i < |steps| {
      PastAndFutureTimes(steps, i + 1, pickup, now, catchUp);
    }
  }

  lemma {:induction false} InsertByTimeHolds(c: Candidate, cs: seq<Candidate>)
    ensures multiset(InsertByTime(c, cs)) == multiset(cs) + multiset{c}
  {
    if cs != [] && c.fireAt > cs[0].fireAt {
      assert cs == [cs[0]] + cs[1..];
      InsertByTimeHolds(c, cs[1..]);
    }
  }

  lemma {:induction false} InsertByTimeAdds(c: Candidate, cs: seq<Candidate>)
    ensures forall x | x in InsertByTime(c, cs) :: x == c || x in cs
  {
    if cs != [] && c.fireAt > cs[0].fireAt {
      InsertByTimeAdds(c, cs[1..]);
    }
  }

  lemma AscendingHead(first: Candidate, rest: seq<Candidate>)
    requires Ascending(rest) && forall x | x in rest :: first.fireAt <= x.fireAt
    ensures Ascending([first] + rest)
  {
  }

  lemma {:induction false} InsertByTimeSorts(c: Candidate, cs: seq<Candidate>)
    requires Ascending(cs)
    ensures Ascending(InsertByTime(c, cs))
  {
    if cs != [] {
      HeadIsEarliest(cs);
      if c.fireAt > cs[0].fireAt {
        InsertByTimeSorts(c, cs[1..]);
        InsertByTimeAdds(c, cs[1..]);
        AscendingHead(cs[0], InsertByTime(c, cs[1..]));
      } else {
        AscendingHead(c, cs);
      }
    }
  }

  lemma {:induction false} SortByTimeSorts(cs: seq<Candidate>)
    ensures Ascending(SortByTime(cs))
    ensures multiset(SortByTime(cs)) == multiset(cs)
    ensures forall c :: c in SortByTime(cs) <==> c in cs
  {
    if cs != [] {
      SortByTimeSorts(cs[1..]);
      InsertByTimeSorts(cs[0], SortByTime(cs[1..]));
      InsertByTimeHolds(cs[0], SortByTime(cs[1..]));
      assert cs == [cs[0]] + cs[1..];
    }
    forall c ensures c in SortByTime(cs) <==> c in cs {
      assert c in SortByTime(cs) <==> c in multiset(SortByTime(cs));
      assert c in cs <==> c in multiset(cs);
    }
  }

  lemma GreedySplits(cs: seq<Candidate>, last: Option<real>, minGap: real)
    ensures multiset(Kept(cs, last, minGap)) + multiset(Dropped(cs, last, minGap)) == multiset(cs)
  {
    if cs != [] {
      assert cs == [cs[0]] + cs[1..];
      GreedySplits(cs[1..], if TooSoon(cs[0].fireAt, last, minGap) then last else Some(cs[0].fireAt), minGap);
    }
  }

  /**
   Every input step, counted once by its position, is exactly one of: the catch-up
   step (or a duplicate of it), skipped, scheduled, suppressed. Skipped means not
   later than now; the other two are later than now.
   */
  lemma EveryStepHasOneOutcome(pickup: real, now: real, steps: seq<Step>, minGap: real, enabled: bool)
    ensures multiset(AllFrom(steps, 0, pickup))
         == multiset(CatchUpsFrom(steps, 0, pickup, CatchUpOf(pickup, now, steps, enabled)))
          + multiset(Skipped(pickup, now, steps, enabled))
          + multiset(Scheduled(pickup, now, steps, minGap, enabled))
          + multiset(Suppressed(pickup, now, steps, minGap, enabled))
    ensures forall c :: multiset(AllFrom(steps, 0, pickup))[c] <= 1
    ensures forall c | c in Skipped(pickup, now, steps, enabled) :: c.fireAt <= now
    ensures forall c | c in Scheduled(pickup, now, steps, minGap, enabled) :: c.fireAt > now
    ensures forall c | c in Suppressed(pickup, now, steps, minGap, enabled) :: c.fireAt > now
  {
    var catchUp := CatchUpOf(pickup, now, steps, enabled);
    var future := FutureFrom(steps, 0, pickup, now, catchUp);
    SplitIsPartition(steps, 0, pickup, now, catchUp);
    AllAreDistinct(steps, 0, pickup);
    PastAndFutureTimes(steps, 0, pickup, now, catchUp);
    if enabled {
      SortByTimeSorts(future);
      GreedySplits(SortByTime(future), StartOf(now, catchUp), minGap);
      var scheduled, suppressed := Scheduled(pickup, now, steps, minGap, true), Suppressed(pickup, now, steps, minGap, true);
      assert multiset(scheduled) + multiset(suppressed) == multiset(future);
      forall c | c in scheduled || c in suppressed ensures c.fireAt > now {
        assert c in multiset(scheduled) + multiset(suppressed);
        assert c in multiset(future);
      }
    }
  }

  // ----- spacing

  lemma KeptIsSpaced(cs: seq<Candidate>, last: Option<real>, minGap: real)
    requires Ascending(cs)
    ensures Ascending(Kept(cs, last, minGap))
    ensures forall i, j | 0 <= i < j < |Kept(cs, last, minGap)| ::
              Kept(cs, last, minGap)[j].fireAt - Kept(cs, last, minGap)[i].fireAt >= minGap || minGap < 0.0
    ensures last.Some? && minGap >= 0.0 ==> forall c | c in Kept(cs, last, minGap) :: c.fireAt - last.value >= minGap
    ensures forall c | c in Kept(cs, last, minGap) :: c in cs
  {
    if cs != [] {
      forall c | c in cs ensures cs[0].fireAt <= c.fireAt {
        var i :| 0 <= i < |cs| && cs[i] == c;
      }
      KeptIsSpaced(cs[1..], if TooSoon(cs[0].fireAt, last, minGap) then last else Some(cs[0].fireAt), minGap);
      if !TooSoon(cs[0].fireAt, last, minGap) {
        var rest := Kept(cs[1..], Some(cs[0].fireAt), minGap);
        var kept := Kept(cs, last, minGap);
        assert kept == [cs[0]] + rest;
        forall i, j | 0 <= i < j < |kept|
          ensures kept[i].fireAt <= kept[j].fireAt
          ensures kept[j].fireAt - kept[i].fireAt >= minGap || minGap < 0.0
        {
          assert kept[j] == rest[j - 1] && rest[j - 1] in rest;
          if i > 0 { assert kept[i] == rest[i - 1]; }
        }
      }
    }
  }

  /** The scheduled sends of a catch-up plan lie between now and pickup, in order, and a gap apart. */
  lemma ScheduledIsSpaced(pickup: real, now: real, steps: seq<Step>, minGap: real)
    requires ValidSteps(steps) && minGap >= 0.0
    ensures var sends := Scheduled(pickup, now, steps, minGap, true);
            && Ascending(sends)
            && (forall c | c in sends :: now < c.fireAt < pickup)
            && (forall i, j | 0 <= i < j < |sends| :: sends[j].fireAt - sends[i].fireAt >= minGap)
            && (CatchUpOf(pickup, now, steps, true).Some? ==> forall c | c in sends :: c.fireAt - now >= minGap)
  {
    var catchUp := CatchUpOf(pickup, now, steps, true);
    var future := FutureFrom(steps, 0, pickup, now, catchUp);
    PastAndFutureTimes(steps, 0, pickup, now, catchUp);
    SortByTimeSorts(future);
    KeptIsSpaced(SortByTime(future), StartOf(now, catchUp), minGap);
  }

  /** `c` comes within the gap after the starting send or after one of the kept sends. */
  predicate Crowded(c: Candidate, kept: seq<Candidate>, last: Option<real>, minGap: real) {
    || (last.Some? && last.value <= c.fireAt && c.fireAt - last.value < minGap)
    || exists k | k in kept :: k.fireAt <= c.fireAt && c.fireAt - k.fireAt < minGap
  }

  lemma DroppedIsCrowded(cs: seq<Candidate>, last: Option<real>, minGap: real)
    requires Ascending(cs)
    requires last.Some? ==> forall c | c in cs :: last.value <= c.fireAt
    ensures forall c | c in Dropped(cs, last, minGap) :: Crowded(c, Kept(cs, last, minGap), last, minGap)
  {
    if cs != [] {
      forall c | c in cs ensures cs[0].fireAt <= c.fireAt {
        var i :| 0 <= i < |cs| && cs[i] == c;
      }
      if TooSoon(cs[0].fireAt, last, minGap) {
        DroppedIsCrowded(cs[1..], last, minGap);
        assert Dropped(cs, last, minGap) == [cs[0]] + Dropped(cs[1..], last, minGap);
      } else {
        var next := Some(cs[0].fireAt);
        DroppedIsCrowded(cs[1..], next, minGap);
        var kept := Kept(cs, last, minGap);
        assert kept == [cs[0]] + Kept(cs[1..], next, minGap) && cs[0] in kept;
        forall c | c in Dropped(cs, last, minGap) ensures Crowded(c, kept, last, minGap) {
          assert Crowded(c, kept[1..], next, minGap);
          assert c in multiset(cs[1..]) by { GreedySplits(cs[1..], next, minGap); }
        }
      }
    }
  }

  /** Nothing is suppressed without cause: an earlier send, or the catch-up at `now`, is too close. */
  lemma SuppressedHasCause(pickup: real, now: real, steps: seq<Step>, minGap: real)
    ensures forall c | c in Suppressed(pickup, now, steps, minGap, true) ::
              Crowded(c, Scheduled(pickup, now, steps, minGap, true),
                      StartOf(now, CatchUpOf(pickup, now, steps, true)), minGap)
  {
    var catchUp := CatchUpOf(pickup, now, steps, true);
    var future := FutureFrom(steps, 0, pickup, now, catchUp);
    PastAndFutureTimes(steps, 0, pickup, now, catchUp);
    SortByTimeSorts(future);
    DroppedIsCrowded(SortByTime(future), StartOf(now, catchUp), minGap);
  }

  // ----- optimality

  ghost predicate Spaced(chosen: set<Candidate>, minGap: real) {
    forall a, b | a in chosen && b in chosen && a != b :: a.fireAt - b.fireAt >= minGap || b.fireAt - a.fireAt >= minGap
  }

  ghost predicate AllAfter(chosen: set<Candidate>, last: real, minGap: real) {
    forall c | c in chosen :: c.fireAt - last >= minGap
  }

  /** `chosen` are input steps still to come whose sends keep the gap, also from a catch-up at `now`. */
  ghost predicate Feasible(pickup: real, now: real, steps: seq<Step>, minGap: real, chosen: set<Candidate>) {
    && (forall c | c in chosen :: c in AllFrom(steps, 0, pickup) && c.fireAt > now)
    && Spaced(chosen, minGap)
    && (CatchUpOf(pickup, now, steps, true).Some? ==> AllAfter(chosen, now, minGap))
  }

  lemma EarliestExists(chosen: set<Candidate>) returns (m: Candidate)
    requires chosen != {}
    ensures m in chosen && forall c | c in chosen :: m.fireAt <= c.fireAt
  {
    m :| m in chosen;
    var rest := chosen - {m};
    if rest != {} {
      var m' := EarliestExists(rest);
      if m'.fireAt < m.fireAt { m := m'; }
    }
  }

  /**
   The greedy choice against any other: `chosen` loses at most one send per send kept.
   When the greedy pass keeps a candidate, the first send of `chosen` can be exchanged
   for it, because it comes no earlier.
   */
  lemma {:induction false} GreedyBeats(cs: seq<Candidate>, last: Option<real>, minGap: real, chosen: set<Candidate>)
    requires minGap >= 0.0 && Ascending(cs) && Spaced(chosen, minGap)
    requires forall c | c in chosen :: c in cs
    requires last.Some? ==> AllAfter(chosen, last.value, minGap)
    ensures |chosen| <= |Kept(cs, last, minGap)|
  {
    if cs == [] {
      assert chosen == {};
    } else if chosen != {} {
      if TooSoon(cs[0].fireAt, last, minGap) {
        TooSoonIsOut(cs[0], last, minGap, chosen);
        ChosenInRest(cs, chosen);
        GreedyBeats(cs[1..], last, minGap, chosen);
      } else {
        var out := ExchangeHead(cs, minGap, chosen);
        GreedyBeats(cs[1..], Some(cs[0].fireAt), minGap, chosen - {out});
        assert |Kept(cs, last, minGap)| == 1 + |Kept(cs[1..], Some(cs[0].fireAt), minGap)|;
      }
    }
  }

  /** The head of the candidates takes the place of one of `chosen`. */
  lemma ExchangeHead(cs: seq<Candidate>, minGap: real, chosen: set<Candidate>) returns (out: Candidate)
    requires minGap >= 0.0 && Ascending(cs) && cs != [] && Spaced(chosen, minGap) && chosen != {}
    requires forall c | c in chosen :: c in cs
    ensures Spaced(chosen - {out}, minGap) && AllAfter(chosen - {out}, cs[0].fireAt, minGap)
    ensures |chosen| == |chosen - {out}| + 1
    ensures forall c | c in chosen - {out} :: c in cs[1..]
  {
    var first := EarliestExists(chosen);
    HeadIsEarliest(cs);
    out := if cs[0] in chosen then cs[0] else first;
    Exchange(chosen, out, cs[0].fireAt, minGap);
    ChosenInRest(cs, chosen - {out});
  }

  lemma TooSoonIsOut(c: Candidate, last: Option<real>, minGap: real, chosen: set<Candidate>)
    requires TooSoon(c.fireAt, last, minGap) && AllAfter(chosen, last.value, minGap)
    ensures c !in chosen
  {
  }

  lemma HeadIsEarliest(cs: seq<Candidate>)
    requires Ascending(cs) && cs != []
    ensures forall c | c in cs :: cs[0].fireAt <= c.fireAt
  {
    forall c | c in cs ensures cs[0].fireAt <= c.fireAt {
      var k :| 0 <= k < |cs| && cs[k] == c;
    }
  }

  lemma ChosenInRest(cs: seq<Candidate>, chosen: set<Candidate>)
    requires cs != [] && cs[0] !in chosen && forall c | c in chosen :: c in cs
    ensures forall c | c in chosen :: c in cs[1..]
  {
  }

  /** Exchanging the earliest choice for a send that is no later keeps all other choices a gap away. */
  lemma Exchange(chosen: set<Candidate>, out: Candidate, sent: real, minGap: real)
    requires Spaced(chosen, minGap) && minGap >= 0.0
    requires out in chosen && sent <= out.fireAt && forall c | c in chosen :: out.fireAt <= c.fireAt
    ensures Spaced(chosen - {out}, minGap) && AllAfter(chosen - {out}, sent, minGap)
    ensures |chosen| == |chosen - {out}| + 1
  {
  }

  lemma SendsLength(cs: seq<Candidate>)
    ensures |Sends(cs)| == |cs|
  {
  }

  /** Steps still to come are never the catch-up step, so the greedy pass sees all of them. */
  lemma FutureIsAllToCome(steps: seq<Step>, pickup: real, now: real, c: Candidate)
    requires ValidSteps(steps)
    requires c in AllFrom(steps, 0, pickup) && c.fireAt > now
    ensures c in FutureFrom(steps, 0, pickup, now, CatchUpOf(pickup, now, steps, true))
  {
    var catchUp := CatchUpOf(pickup, now, steps, true);
    CatchUpCharacterisation(pickup, now, steps);
    SplitIsPartition(steps, 0, pickup, now, catchUp);
    PastAndFutureTimes(steps, 0, pickup, now, catchUp);
    CatchUpsHaveCatchUpTime(steps, 0, pickup, catchUp);
    assert c in multiset(AllFrom(steps, 0, pickup));
  }

  lemma CatchUpsHaveCatchUpTime(steps: seq<Step>, i: nat, pickup: real, catchUp: Option<Step>)
    requires i <= |steps|
    ensures forall c | c in CatchUpsFrom(steps, i, pickup, catchUp) :: catchUp.Some? && c.fireAt == FireAt(pickup, catchUp.value)
    decreases |steps| - i
  {
    if i < |steps| {
      CatchUpsHaveCatchUpTime(steps, i + 1, pickup, catchUp);
    }
  }

  /** No feasible choice of future steps sends more reminders than the plan does. */
  lemma GreedyIsOptimal(pickup: real, now: real, steps: seq<Step>, minGap: real, chosen: set<Candidate>)
    requires ValidSteps(steps) && minGap >= 0.0
    requires Feasible(pickup, now, steps, minGap, chosen)
    ensures |chosen| <= |PlanOf(pickup, now, steps, minGap, true).scheduled|
  {
    var catchUp := CatchUpOf(pickup, now, steps, true);
    var future := FutureFrom(steps, 0, pickup, now, catchUp);
    SortByTimeSorts(future);
    forall c | c in chosen ensures c in SortByTime(future) {
      FutureIsAllToCome(steps, pickup, now, c);
    }
    GreedyBeats(SortByTime(future), StartOf(now, catchUp), minGap, chosen);
    SendsLength(Kept(SortByTime(future), StartOf(now, catchUp), minGap));
  }

  lemma DistinctHead(cs: seq<Candidate>)
    requires cs != [] && forall c :: multiset(cs)[c] <= 1
    ensures cs[0] !in cs[1..] && forall c :: multiset(cs[1..])[c] <= 1
  {
    var rest := cs[1..];
    assert cs == [cs[0]] + rest;
    assert multiset(cs) == multiset{cs[0]} + multiset(rest);
    forall c ensures multiset(rest)[c] <= 1 { assert multiset(rest)[c] <= multiset(cs)[c]; }
    assert multiset(rest)[cs[0]] == multiset(cs)[cs[0]] - 1;
    assert cs[0] !in multiset(rest);
  }

  lemma {:induction false} SetOfDistinct(cs: seq<Candidate>)
    requires forall c :: multiset(cs)[c] <= 1
    ensures |set c | c in cs| == |cs|
    ensures forall i, j | 0 <= i < j < |cs| :: cs[i] != cs[j]
  {
    if cs != [] {
      DistinctHead(cs);
      SetOfDistinct(cs[1..]);
      assert (set c | c in cs) == (set c | c in cs[1..]) + {cs[0]};
    }
  }

  /** The plan's own choice is feasible, so with `GreedyIsOptimal` its size is the maximum. */
  lemma ScheduledIsFeasible(pickup: real, now: real, steps: seq<Step>, minGap: real)
    requires ValidSteps(steps) && minGap >= 0.0
    ensures var chosen := set c | c in Scheduled(pickup, now, steps, minGap, true);
            Feasible(pickup, now, steps, minGap, chosen)
            && |chosen| == |PlanOf(pickup, now, steps, minGap, true).scheduled|
  {
    var sends := Scheduled(pickup, now, steps, minGap, true);
    ScheduledIsSpaced(pickup, now, steps, minGap);
    EveryStepHasOneOutcome(pickup, now, steps, minGap, true);
    SendsLength(sends);
    var all := multiset(AllFrom(steps, 0, pickup));
    assert multiset(sends) <= all;
    forall c ensures multiset(sends)[c] <= 1 && (c in sends ==> c in AllFrom(steps, 0, pickup)) {
      assert multiset(sends)[c] <= all[c] <= 1;
      assert c in sends <==> c in multiset(sends);
      assert c in all <==> c in AllFrom(steps, 0, pickup);
    }
    SetOfDistinct(sends);
    SetOfSpaced(sends, minGap);
  }

  lemma SetOfSpaced(sends: seq<Candidate>, minGap: real)
    requires forall i, j | 0 <= i < j < |sends| :: sends[j].fireAt - sends[i].fireAt >= minGap
    ensures Spaced((set c | c in sends), minGap)
  {
    forall a, b | a in sends && b in sends && a != b
      ensures a.fireAt - b.fireAt >= minGap || b.fireAt - a.fireAt >= minGap
    {
      var i :| 0 <= i < |sends| && sends[i] == a;
      var j :| 0 <= j < |sends| && sends[j] == b;
      assert i < j || j < i;
    }
  }

  // ----- input order does not matter

  function Times(cs: seq<Candidate>): seq<real> {
    if cs == [] then [] else [cs[0].fireAt] + Times(cs[1..])
  }

  function KeptTimes(ts: seq<real>, last: Option<real>, minGap: real): seq<real> {
    if ts == [] then []
    else if TooSoon(ts[0], last, minGap) then KeptTimes(ts[1..], last, minGap)
    else [ts[0]] + KeptTimes(ts[1..], Some(ts[0]), minGap)
  }

  lemma KeptDependsOnTimes(cs: seq<Candidate>, last: Option<real>, minGap: real)
    ensures Times(Kept(cs, last, minGap)) == KeptTimes(Times(cs), last, minGap)
  {
    if cs != [] {
      KeptDependsOnTimes(cs[1..], if TooSoon(cs[0].fireAt, last, minGap) then last else Some(cs[0].fireAt), minGap);
    }
  }

  lemma TimesOf(cs: seq<Candidate>)
    ensures |Times(cs)| == |cs| && forall i | 0 <= i < |cs| :: Times(cs)[i] == cs[i].fireAt
  {
  }

  predicate Sorted(ts: seq<real>) {
    forall i, j | 0 <= i < j < |ts| :: ts[i] <= ts[j]
  }

  lemma SameSmallest(a: seq<real>, b: seq<real>)
    requires Sorted(a) && Sorted(b) && multiset(a) == multiset(b) && a != [] && b != []
    ensures a[0] == b[0]
  {
    assert a[0] in multiset(b) && b[0] in multiset(a);
  }

  lemma {:induction false} SortedIsUnique(a: seq<real>, b: seq<real>)
    requires Sorted(a) && Sorted(b) && multiset(a) == multiset(b)
    ensures a == b
  {
    assert |a| == |multiset(a)| == |multiset(b)| == |b|;
    if a != [] {
      SameSmallest(a, b);
      TailMultiset(a);
      TailMultiset(b);
      SortedIsUnique(a[1..], b[1..]);
      assert a == [a[0]] + a[1..] && b == [b[0]] + b[1..];
    }
  }

  lemma TailMultiset<T>(s: seq<T>)
    requires s != []
    ensures multiset(s[1..]) == multiset(s) - multiset{s[0]}
  {
    assert s == [s[0]] + s[1..];
  }

  /** `s` without its element at `k`. */
  function Without<T>(s: seq<T>, k: nat): seq<T>
    requires k < |s|
  {
    s[..k] + s[k + 1..]
  }

  lemma WithoutMultiset<T>(s: seq<T>, k: nat)
    requires k < |s|
    ensures multiset(Without(s, k)) == multiset(s) - multiset{s[k]}
  {
    assert s == s[..k] + [s[k]] + s[k + 1..];
  }

  /** The multiset of times still to come, read off the steps alone. */
  function FutureTimes(steps: seq<Step>, pickup: real, now: real): multiset<real> {
    if steps == [] then multiset{}
    else (if FireAt(pickup, steps[0]) > now then multiset{FireAt(pickup, steps[0])} else multiset{}) + FutureTimes(steps[1..], pickup, now)
  }

  lemma FutureTimesWithout(b: seq<Step>, k: nat, pickup: real, now: real)
    requires k < |b|
    ensures FutureTimes(b, pickup, now) == FutureTimes([b[k]], pickup, now) + FutureTimes(Without(b, k), pickup, now)
  {
    if k > 0 {
      FutureTimesWithout(b[1..], k - 1, pickup, now);
      assert Without(b, k)[1..] == Without(b[1..], k - 1) && Without(b, k)[0] == b[0];
    } else {
      assert Without(b, 0) == b[1..];
    }
  }

  lemma {:induction false} FutureTimesPermute(a: seq<Step>, b: seq<Step>, pickup: real, now: real)
    requires multiset(a) == multiset(b)
    ensures FutureTimes(a, pickup, now) == FutureTimes(b, pickup, now)
  {
    if a == [] {
      assert |multiset(b)| == 0;
    } else {
      assert a[0] in multiset(b);
      var k :| 0 <= k < |b| && b[k] == a[0];
      WithoutMultiset(b, k);
      TailMultiset(a);
      FutureTimesPermute(a[1..], Without(b, k), pickup, now);
      FutureTimesWithout(b, k, pickup, now);
    }
  }

  lemma FutureFromHasFutureTimes(steps: seq<Step>, i: nat, pickup: real, now: real, catchUp: Option<Step>)
    requires i <= |steps| && (catchUp.Some? ==> FireAt(pickup, catchUp.value) <= now)
    ensures multiset(Times(FutureFrom(steps, i, pickup, now, catchUp))) == FutureTimes(steps[i..], pickup, now)
    decreases |steps| - i
  {
    if i < |steps| {
      FutureFromHasFutureTimes(steps, i + 1, pickup, now, catchUp);
      assert steps[i..][1..] == steps[i + 1..];
    }
  }

  lemma TimesOfSorted(cs: seq<Candidate>)
    ensures Sorted(Times(SortByTime(cs))) && multiset(Times(SortByTime(cs))) == multiset(Times(cs))
  {
    SortByTimeSorts(cs);
    TimesOf(SortByTime(cs));
    TimesMultiset(SortByTime(cs), cs);
  }

  predicate TimesAre(cs: seq<Candidate>, ts: seq<real>) {
    |ts| == |cs| && forall i | 0 <= i < |cs| :: ts[i] == cs[i].fireAt
  }

  lemma TimesAreWithout(b: seq<Candidate>, k: nat, ts: seq<real>, us: seq<real>)
    requires k < |b| && TimesAre(b, ts) && TimesAre(Without(b, k), us)
    ensures us == Without(ts, k)
  {
  }

  lemma TimesWithout(b: seq<Candidate>, k: nat)
    requires k < |b|
    ensures multiset(Times(b)) == multiset{b[k].fireAt} + multiset(Times(Without(b, k)))
  {
    var ts, us := Times(b), Times(Without(b, k));
    TimesOf(b);
    TimesOf(Without(b, k));
    TimesAreWithout(b, k, ts, us);
    WithoutMultiset(ts, k);
    assert ts[k] in multiset(ts);
  }

  lemma {:induction false} TimesMultiset(a: seq<Candidate>, b: seq<Candidate>)
    requires multiset(a) == multiset(b)
    ensures multiset(Times(a)) == multiset(Times(b))
  {
    if a == [] {
      assert |multiset(b)| == 0;
    } else {
      assert a[0] in multiset(b);
      var k :| 0 <= k < |b| && b[k] == a[0];
      WithoutMultiset(b, k);
      TailMultiset(a);
      TimesMultiset(a[1..], Without(b, k));
      TimesWithout(b, k);
    }
  }

  /** Reordering the configured steps changes neither the catch-up offset nor the scheduled times. */
  lemma InputOrderIrrelevant(pickup: real, now: real, a: seq<Step>, b: seq<Step>, minGap: real)
    requires ValidSteps(a) && multiset(a) == multiset(b)
    ensures CatchUpOf(pickup, now, a, true).Some? <==> CatchUpOf(pickup, now, b, true).Some?
    ensures CatchUpOf(pickup, now, a, true).Some? ==>
              CatchUpOf(pickup, now, a, true).value.delayHours == CatchUpOf(pickup, now, b, true).value.delayHours
    ensures Times(Scheduled(pickup, now, a, minGap, true)) == Times(Scheduled(pickup, now, b, minGap, true))
  {
    assert forall s :: s in a <==> s in multiset(a);
    assert forall s :: s in b <==> s in multiset(b);
    assert ValidSteps(b) by {
      forall i | 0 <= i < |b| ensures b[i].delayHours > 0.0 { assert b[i] in a; }
    }
    CatchUpCharacterisation(pickup, now, a);
    CatchUpCharacterisation(pickup, now, b);
    SameLargest(a, b, pickup - now);
    SameLargest(b, a, pickup - now);
    var ca, cb := CatchUpOf(pickup, now, a, true), CatchUpOf(pickup, now, b, true);
    var fa, fb := FutureFrom(a, 0, pickup, now, ca), FutureFrom(b, 0, pickup, now, cb);
    FutureFromHasFutureTimes(a, 0, pickup, now, ca);
    FutureFromHasFutureTimes(b, 0, pickup, now, cb);
    assert a[0..] == a && b[0..] == b;
    FutureTimesPermute(a, b, pickup, now);
    TimesOfSorted(fa);
    TimesOfSorted(fb);
    SortedIsUnique(Times(SortByTime(fa)), Times(SortByTime(fb)));
    KeptDependsOnTimes(SortByTime(fa), StartOf(now, ca), minGap);
    KeptDependsOnTimes(SortByTime(fb), StartOf(now, cb), minGap);
  }

  lemma SameLargest(a: seq<Step>, b: seq<Step>, r: real)
    requires forall s :: s in a ==> s in b
    ensures WithinLargestOffset(a, r) ==> WithinLargestOffset(b, r)
  {
    if WithinLargestOffset(a, r) {
      var d :| HasOffset(a, d) && r <= d;
      var i :| 0 <= i < |a| && a[i].delayHours == d;
      assert a[i] in b;
      var j :| 0 <= j < |b| && b[j] == a[i];
      assert HasOffset(b, d);
    }
  }
}
