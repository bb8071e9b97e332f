/**
 What the returned plan itself says, in terms of the input steps, the pickup time and now:
 each row's step, time and reason, the four-way partition, order, bounds, gaps, and that no
 larger choice of steps would do.
 */
module ReminderPlanMeaning {
  import opened Wrappers
  import opened ReminderPlan
  import opened ReminderPlanProperties

  // ----- rows of the plan

  /** The step's own number, or its 1-based place. */
  function NumberOf(steps: seq<Step>, i: nat): int
    requires i < |steps|
  {
    if steps[i].step.Some? then steps[i].step.value else i + 1
  }

  predicate IsSendOf(send: Send, steps: seq<Step>, i: nat, pickup: real) {
    i < |steps| && send.step == steps[i] && send.fireAt == pickup - steps[i].delayHours
  }

  predicate IsInfoOf(info: StepInfo, steps: seq<Step>, i: nat, pickup: real, reason: string) {
    && i < |steps| && info.step == NumberOf(steps, i) && info.delayHours == steps[i].delayHours
    && info.fireAt == pickup - steps[i].delayHours && info.reason == reason
  }

  function Places(cs: seq<Candidate>): seq<int> {
    seq(|cs|, k requires 0 <= k < |cs| => cs[k].index - 1)
  }

  predicate AreCandidates(steps: seq<Step>, pickup: real, cs: seq<Candidate>) {
    forall k | 0 <= k < |cs| :: 1 <= cs[k].index <= |steps| && cs[k] == CandidateAt(steps, cs[k].index - 1, pickup)
  }

  lemma {:induction false} SendsAre(cs: seq<Candidate>)
    ensures |Sends(cs)| == |cs| && forall k | 0 <= k < |cs| :: Sends(cs)[k] == Send(cs[k].step, cs[k].fireAt)
  {
    if cs != [] { SendsAre(cs[1..]); }
  }

  lemma {:induction false} InfosAre(cs: seq<Candidate>, reason: string)
    ensures |Infos(cs, reason)| == |cs|
    ensures forall k | 0 <= k < |cs| :: Infos(cs, reason)[k] == Info(cs[k], reason)
  {
    if cs != [] { InfosAre(cs[1..], reason); }
  }

  lemma SendRows(steps: seq<Step>, pickup: real, cs: seq<Candidate>)
    requires AreCandidates(steps, pickup, cs)
    ensures |Sends(cs)| == |cs| && forall k | 0 <= k < |cs| :: Places(cs)[k] >= 0 && IsSendOf(Sends(cs)[k], steps, Places(cs)[k], pickup)
  {
    SendsAre(cs);
  }

  lemma InfoRows(steps: seq<Step>, pickup: real, cs: seq<Candidate>, reason: string)
    requires AreCandidates(steps, pickup, cs)
    ensures |Infos(cs, reason)| == |cs|
    ensures forall k | 0 <= k < |cs| :: Places(cs)[k] >= 0 && IsInfoOf(Infos(cs, reason)[k], steps, Places(cs)[k], pickup, reason)
  {
    InfosAre(cs, reason);
  }

  // ----- partition

  lemma {:induction false} CountOfPlace(steps: seq<Step>, pickup: real, cs: seq<Candidate>, i: nat)
    requires AreCandidates(steps, pickup, cs) && i < |steps|
    ensures multiset(Places(cs))[i] == multiset(cs)[CandidateAt(steps, i, pickup)]
  {
    if cs != [] {
      var rest := cs[1..];
      assert cs == [cs[0]] + rest && Places(cs) == [cs[0].index - 1] + Places(rest);
      assert AreCandidates(steps, pickup, rest);
      CountOfPlace(steps, pickup, rest, i);
      assert cs[0] == CandidateAt(steps, i, pickup) <==> cs[0].index - 1 == i;
    }
  }

  lemma CandidatesOf(steps: seq<Step>, pickup: real, cs: seq<Candidate>)
    requires multiset(cs) <= multiset(AllFrom(steps, 0, pickup))
    ensures AreCandidates(steps, pickup, cs)
  {
    AllAreDistinct(steps, 0, pickup);
    forall k | 0 <= k < |cs| ensures cs[k] in AllFrom(steps, 0, pickup) {
      assert multiset(cs)[cs[k]] > 0;
      assert cs[k] in multiset(AllFrom(steps, 0, pickup));
    }
  }

  lemma {:induction false} EachIsThere(steps: seq<Step>, i: nat, j: nat, pickup: real)
    requires i <= j < |steps|
    ensures CandidateAt(steps, j, pickup) in AllFrom(steps, i, pickup)
    decreases |steps| - i
  {
    if i < j { EachIsThere(steps, i + 1, j, pickup); }
  }

  lemma {:induction false} CatchUpsAre(steps: seq<Step>, i: nat, pickup: real, catchUp: Option<Step>)
    requires i <= |steps|
    ensures forall c | c in CatchUpsFrom(steps, i, pickup, catchUp) :: 1 <= c.index <= |steps| && SharesStep(steps[c.index - 1], catchUp)
    ensures forall j | i <= j < |steps| && SharesStep(steps[j], catchUp) :: CandidateAt(steps, j, pickup) in CatchUpsFrom(steps, i, pickup, catchUp)
    decreases |steps| - i
  {
    if i < |steps| { CatchUpsAre(steps, i + 1, pickup, catchUp); }
  }

  /** The places of the input steps by outcome. */
  datatype Outcomes = Outcomes(catchUps: seq<int>, scheduled: seq<int>, suppressed: seq<int>, skipped: seq<int>)

  predicate IsPartition(o: Outcomes, n: nat) {
    forall i | 0 <= i < n :: multiset(o.catchUps)[i] + multiset(o.scheduled)[i] + multiset(o.suppressed)[i] + multiset(o.skipped)[i] == 1
  }

  /** The plan's rows are those of the steps at these places. */
  predicate Describes(plan: Plan, steps: seq<Step>, pickup: real, now: real, o: Outcomes) {
    && plan.hoursRemaining == pickup - now
    && |plan.scheduled| == |o.scheduled| && |plan.suppressed| == |o.suppressed| && |plan.skipped| == |o.skipped|
    && (forall k | 0 <= k < |o.scheduled| :: o.scheduled[k] >= 0 && IsSendOf(plan.scheduled[k], steps, o.scheduled[k], pickup))
    && (forall k | 0 <= k < |o.suppressed| :: o.suppressed[k] >= 0 && IsInfoOf(plan.suppressed[k], steps, o.suppressed[k], pickup, "gap_lt_min"))
    && (forall k | 0 <= k < |o.skipped| :: o.skipped[k] >= 0 && IsInfoOf(plan.skipped[k], steps, o.skipped[k], pickup, ""))
    && (forall k | 0 <= k < |o.catchUps| :: 0 <= o.catchUps[k] < |steps|)
  }

  function OutcomesOf(pickup: real, now: real, steps: seq<Step>, minGap: real, enabled: bool): Outcomes {
    Outcomes(
      Places(CatchUpsFrom(steps, 0, pickup, CatchUpOf(pickup, now, steps, enabled))),
      Places(Scheduled(pickup, now, steps, minGap, enabled)),
      Places(Suppressed(pickup, now, steps, minGap, enabled)),
      Places(Skipped(pickup, now, steps, enabled)))
  }

  lemma OutcomesAreCandidates(pickup: real, now: real, steps: seq<Step>, minGap: real, enabled: bool)
    ensures AreCandidates(steps, pickup, CatchUpsFrom(steps, 0, pickup, CatchUpOf(pickup, now, steps, enabled)))
    ensures AreCandidates(steps, pickup, Scheduled(pickup, now, steps, minGap, enabled))
    ensures AreCandidates(steps, pickup, Suppressed(pickup, now, steps, minGap, enabled))
    ensures AreCandidates(steps, pickup, Skipped(pickup, now, steps, enabled))
  {
    EveryStepHasOneOutcome(pickup, now, steps, minGap, enabled);
    CandidatesOf(steps, pickup, CatchUpsFrom(steps, 0, pickup, CatchUpOf(pickup, now, steps, enabled)));
    CandidatesOf(steps, pickup, Scheduled(pickup, now, steps, minGap, enabled));
    CandidatesOf(steps, pickup, Suppressed(pickup, now, steps, minGap, enabled));
    CandidatesOf(steps, pickup, Skipped(pickup, now, steps, enabled));
  }

  lemma PlacesPartition(pickup: real, now: real, steps: seq<Step>, minGap: real, enabled: bool)
    ensures IsPartition(OutcomesOf(pickup, now, steps, minGap, enabled), |steps|)
  {
    OutcomesAreCandidates(pickup, now, steps, minGap, enabled);
    EveryStepHasOneOutcome(pickup, now, steps, minGap, enabled);
    var all := multiset(AllFrom(steps, 0, pickup));
    forall i | 0 <= i < |steps|
      ensures var o := OutcomesOf(pickup, now, steps, minGap, enabled);
              multiset(o.catchUps)[i] + multiset(o.scheduled)[i] + multiset(o.suppressed)[i] + multiset(o.skipped)[i] == 1
    {
      EachIsThere(steps, 0, i, pickup);
      CountOfPlace(steps, pickup, CatchUpsFrom(steps, 0, pickup, CatchUpOf(pickup, now, steps, enabled)), i);
      CountOfPlace(steps, pickup, Scheduled(pickup, now, steps, minGap, enabled), i);
      CountOfPlace(steps, pickup, Suppressed(pickup, now, steps, minGap, enabled), i);
      CountOfPlace(steps, pickup, Skipped(pickup, now, steps, enabled), i);
      assert all[CandidateAt(steps, i, pickup)] == 1;
    }
  }

  /**
   The plan, row by row: every input step is, at exactly one place, the catch-up step (or one
   with its offset and event type), a scheduled send, a suppressed row or a skipped row, each
   with the step's own time; skipped means not after now, the other two after now.
   */
  lemma PlanMeaning(pickup: real, now: real, steps: seq<Step>, minGap: real, enabled: bool) returns (o: Outcomes)
    ensures Describes(PlanOf(pickup, now, steps, minGap, enabled), steps, pickup, now, o) && IsPartition(o, |steps|)
    ensures var catchUp := PlanOf(pickup, now, steps, minGap, enabled).catchUp;
            forall i | 0 <= i < |steps| ::
              i in o.catchUps <==> SharesStep(steps[i], catchUp)
    ensures forall i | 0 <= i < |steps| ::
              && (i in o.skipped ==> pickup - steps[i].delayHours <= now)
              && (i in o.scheduled || i in o.suppressed ==> pickup - steps[i].delayHours > now)
    ensures !enabled ==> PlanOf(pickup, now, steps, minGap, enabled).catchUp == None && o.suppressed == []
    ensures o == OutcomesOf(pickup, now, steps, minGap, enabled)
  {
    o := OutcomesOf(pickup, now, steps, minGap, enabled);
    PlacesPartition(pickup, now, steps, minGap, enabled);
    OutcomesAreCandidates(pickup, now, steps, minGap, enabled);
    EveryStepHasOneOutcome(pickup, now, steps, minGap, enabled);
    SendRows(steps, pickup, Scheduled(pickup, now, steps, minGap, enabled));
    InfoRows(steps, pickup, Suppressed(pickup, now, steps, minGap, enabled), "gap_lt_min");
    InfoRows(steps, pickup, Skipped(pickup, now, steps, enabled), "");
    var catchUp := CatchUpOf(pickup, now, steps, enabled);
    CatchUpPlaces(steps, pickup, catchUp);
    PlaceTimes(steps, pickup, now, Skipped(pickup, now, steps, enabled), false);
    PlaceTimes(steps, pickup, now, Scheduled(pickup, now, steps, minGap, enabled), true);
    PlaceTimes(steps, pickup, now, Suppressed(pickup, now, steps, minGap, enabled), true);
  }

  lemma PlaceTimes(steps: seq<Step>, pickup: real, now: real, cs: seq<Candidate>, future: bool)
    requires AreCandidates(steps, pickup, cs) && forall c | c in cs :: c.fireAt > now <==> future
    ensures forall i | 0 <= i < |steps| && i in Places(cs) :: pickup - steps[i].delayHours > now <==> future
  {
    forall i | 0 <= i < |steps| && i in Places(cs) ensures pickup - steps[i].delayHours > now <==> future {
      var k :| 0 <= k < |cs| && Places(cs)[k] == i;
      assert cs[k] in cs;
    }
  }

  predicate SharesStep(step: Step, catchUp: Option<Step>) {
    catchUp.Some? && step.delayHours == catchUp.value.delayHours && step.eventType == catchUp.value.eventType
  }

  lemma CatchUpPlaces(steps: seq<Step>, pickup: real, catchUp: Option<Step>)
    requires AreCandidates(steps, pickup, CatchUpsFrom(steps, 0, pickup, catchUp))
    ensures forall i | 0 <= i < |steps| :: i in Places(CatchUpsFrom(steps, 0, pickup, catchUp)) <==> SharesStep(steps[i], catchUp)
  {
    CatchUpsAre(steps, 0, pickup, catchUp);
    PlacesShare(steps, pickup, CatchUpsFrom(steps, 0, pickup, catchUp), catchUp);
  }

  lemma PlacesShare(steps: seq<Step>, pickup: real, cs: seq<Candidate>, catchUp: Option<Step>)
    requires AreCandidates(steps, pickup, cs)
    requires forall c | c in cs :: 1 <= c.index <= |steps| && SharesStep(steps[c.index - 1], catchUp)
    requires forall j | 0 <= j < |steps| && SharesStep(steps[j], catchUp) :: CandidateAt(steps, j, pickup) in cs
    ensures forall i | 0 <= i < |steps| :: i in Places(cs) <==> SharesStep(steps[i], catchUp)
  {
    forall i | 0 <= i < |steps| && i in Places(cs) ensures SharesStep(steps[i], catchUp) {
      var k :| 0 <= k < |cs| && Places(cs)[k] == i;
      assert cs[k] in cs;
    }
    forall i | 0 <= i < |steps| && SharesStep(steps[i], catchUp) ensures i in Places(cs) {
      PlaceIsThere(steps, i, pickup, cs);
    }
  }

  lemma PlaceIsThere(steps: seq<Step>, i: nat, pickup: real, cs: seq<Candidate>)
    requires i < |steps| && CandidateAt(steps, i, pickup) in cs
    ensures i in Places(cs)
  {
    var k :| 0 <= k < |cs| && cs[k] == CandidateAt(steps, i, pickup);
    assert Places(cs)[k] == i;
  }

  // ----- order

  /** Earlier, or at the same time and earlier in the input. */
  predicate Before(a: Candidate, b: Candidate) {
    a.fireAt < b.fireAt || (a.fireAt == b.fireAt && a.index < b.index)
  }

  predicate Ordered(cs: seq<Candidate>) {
    forall i, j | 0 <= i < j < |cs| :: Before(cs[i], cs[j])
  }

  predicate InInputOrder(cs: seq<Candidate>) {
    forall i, j | 0 <= i < j < |cs| :: cs[i].index < cs[j].index
  }

  lemma OrderedHead(first: Candidate, rest: seq<Candidate>)
    requires Ordered(rest) && forall x | x in rest :: Before(first, x)
    ensures Ordered([first] + rest)
  {
  }

  lemma HeadIsFirst(cs: seq<Candidate>)
    requires Ordered(cs) && cs != []
    ensures forall x | x in cs[1..] :: Before(cs[0], x)
    ensures Ordered(cs[1..])
  {
  }

  lemma {:induction false} InsertOrdered(c: Candidate, cs: seq<Candidate>)
    requires Ordered(cs) && forall x | x in cs :: c.index < x.index
    ensures Ordered(InsertByTime(c, cs))
  {
    if cs != [] {
      HeadIsFirst(cs);
      if c.fireAt <= cs[0].fireAt {
        assert forall x | x in cs :: x == cs[0] || x in cs[1..];
        OrderedHead(c, cs);
      } else {
        InsertOrdered(c, cs[1..]);
        InsertByTimeAdds(c, cs[1..]);
        OrderedHead(cs[0], InsertByTime(c, cs[1..]));
      }
    } else {
      assert InsertByTime(c, cs) == [c];
    }
  }

  lemma {:induction false} SortOrdered(cs: seq<Candidate>)
    requires InInputOrder(cs)
    ensures Ordered(SortByTime(cs))
  {
    if cs != [] {
      SortOrdered(cs[1..]);
      SortByTimeSorts(cs[1..]);
      InsertOrdered(cs[0], SortByTime(cs[1..]));
    }
  }

  lemma {:induction false} GreedyOrdered(cs: seq<Candidate>, last: Option<real>, minGap: real)
    requires Ordered(cs)
    ensures Ordered(Kept(cs, last, minGap)) && Ordered(Dropped(cs, last, minGap))
    ensures forall x | x in Kept(cs, last, minGap) || x in Dropped(cs, last, minGap) :: x in cs
  {
    if cs != [] {
      HeadIsFirst(cs);
      var next := if TooSoon(cs[0].fireAt, last, minGap) then last else Some(cs[0].fireAt);
      GreedyOrdered(cs[1..], next, minGap);
      assert forall x | x in cs[1..] :: x in cs;
      if TooSoon(cs[0].fireAt, last, minGap) {
        OrderedHead(cs[0], Dropped(cs[1..], next, minGap));
      } else {
        OrderedHead(cs[0], Kept(cs[1..], next, minGap));
      }
    }
  }

  lemma {:induction false} SplitInInputOrder(steps: seq<Step>, i: nat, pickup: real, now: real, catchUp: Option<Step>)
    requires i <= |steps|
    ensures var past, future := PastFrom(steps, i, pickup, now, catchUp), FutureFrom(steps, i, pickup, now, catchUp);
            && InInputOrder(past) && InInputOrder(future)
            && (forall c | c in past || c in future :: c.index > i)
    decreases |steps| - i
  {
    if i < |steps| {
      SplitInInputOrder(steps, i + 1, pickup, now, catchUp);
      InputOrderHead(CandidateAt(steps, i, pickup), PastFrom(steps, i + 1, pickup, now, catchUp));
      InputOrderHead(CandidateAt(steps, i, pickup), FutureFrom(steps, i + 1, pickup, now, catchUp));
    }
  }

  lemma InputOrderHead(first: Candidate, rest: seq<Candidate>)
    requires InInputOrder(rest) && forall c | c in rest :: c.index > first.index
    ensures InInputOrder([first] + rest)
  {
  }

  /**
   Skipped rows come in input order. Scheduled and suppressed rows come by time, and in input
   order at one time; without catch-up the scheduled ones come in input order.
   */
  lemma PlanOrder(pickup: real, now: real, steps: seq<Step>, minGap: real, enabled: bool)
    ensures var o := OutcomesOf(pickup, now, steps, minGap, enabled);
            var plan := PlanOf(pickup, now, steps, minGap, enabled);
            && |plan.scheduled| == |o.scheduled| && |plan.suppressed| == |o.suppressed|
            && (forall i, j | 0 <= i < j < |o.skipped| :: o.skipped[i] < o.skipped[j])
            && (forall i, j | 0 <= i < j < |o.scheduled| ::
                  if enabled then plan.scheduled[i].fireAt < plan.scheduled[j].fireAt
                    || (plan.scheduled[i].fireAt == plan.scheduled[j].fireAt && o.scheduled[i] < o.scheduled[j])
                  else o.scheduled[i] < o.scheduled[j])
            && (forall i, j | 0 <= i < j < |o.suppressed| ::
                  plan.suppressed[i].fireAt < plan.suppressed[j].fireAt
                  || (plan.suppressed[i].fireAt == plan.suppressed[j].fireAt && o.suppressed[i] < o.suppressed[j]))
  {
    var catchUp := CatchUpOf(pickup, now, steps, enabled);
    SplitInInputOrder(steps, 0, pickup, now, catchUp);
    SortOrdered(FutureFrom(steps, 0, pickup, now, catchUp));
    GreedyOrdered(SortByTime(FutureFrom(steps, 0, pickup, now, catchUp)), StartOf(now, catchUp), minGap);
    SendsAre(Scheduled(pickup, now, steps, minGap, enabled));
    InfosAre(Suppressed(pickup, now, steps, minGap, enabled), "gap_lt_min");
  }

  // ----- catch-up, bounds and gaps

  /** Some step's offset is at least the hours remaining. */
  predicate Covered(steps: seq<Step>, hours: real) {
    exists i | 0 <= i < |steps| :: steps[i].delayHours >= hours
  }

  /**
   The plan's catch-up step: there is one exactly when 0 < hours remaining <= the largest
   offset; it is the first input step with the least offset that is at least the hours
   remaining, so no step falls due after it and up to now.
   */
  lemma PlanCatchUp(pickup: real, now: real, steps: seq<Step>, minGap: real) returns (i: nat)
    requires ValidSteps(steps)
    ensures var catchUp := PlanOf(pickup, now, steps, minGap, true).catchUp;
            && (catchUp.Some? <==> 0.0 < pickup - now && Covered(steps, pickup - now))
            && (catchUp.Some? ==>
                  && i < |steps| && steps[i] == catchUp.value
                  && steps[i].delayHours >= pickup - now
                  && (forall j | 0 <= j < |steps| && steps[j].delayHours >= pickup - now :: steps[i].delayHours <= steps[j].delayHours)
                  && (forall j | 0 <= j < i :: steps[j].delayHours != steps[i].delayHours))
  {
    CatchUpCharacterisation(pickup, now, steps);
    CoveredIsWithin(steps, pickup - now);
    var catchUp := CatchUpOf(pickup, now, steps, true);
    i := 0;
    if catchUp.Some? {
      CatchUpIsFirst(steps, Offsets(steps), pickup - now);
      i := FirstPlace(steps, catchUp.value.delayHours);
      assert forall j | 0 <= j < |steps| :: steps[j] in steps;
    }
  }

  lemma CoveredIsWithin(steps: seq<Step>, hours: real)
    ensures Covered(steps, hours) <==> WithinLargestOffset(steps, hours)
  {
    if Covered(steps, hours) {
      var i :| 0 <= i < |steps| && steps[i].delayHours >= hours;
      assert HasOffset(steps, steps[i].delayHours);
    }
    if WithinLargestOffset(steps, hours) {
      var d :| HasOffset(steps, d) && hours <= d;
      var i :| 0 <= i < |steps| && steps[i].delayHours == d;
    }
  }

  lemma {:induction false} CatchUpIsFirst(steps: seq<Step>, offsets: seq<real>, hours: real)
    ensures FindBand(steps, offsets, hours).Some? ==>
              FindBand(steps, offsets, hours) == FirstWithOffset(steps, FindBand(steps, offsets, hours).value.delayHours)
  {
    if offsets != [] {
      FirstWithOffsetFinds(steps, offsets[0]);
      CatchUpIsFirst(steps, offsets[1..], hours);
    }
  }

  lemma {:induction false} FirstPlace(steps: seq<Step>, d: real) returns (i: nat)
    requires FirstWithOffset(steps, d).Some?
    ensures i < |steps| && Some(steps[i]) == FirstWithOffset(steps, d) && forall j | 0 <= j < i :: steps[j].delayHours != d
    ensures steps[i].delayHours == d
  {
    if steps[0].delayHours == d {
      i := 0;
    } else {
      i := FirstPlace(steps[1..], d);
      i := i + 1;
    }
  }

  /** The plan's sends lie between now and pickup, ascend, and keep the gap, also from a catch-up at now. */
  lemma PlanIsSpaced(pickup: real, now: real, steps: seq<Step>, minGap: real)
    requires ValidSteps(steps) && minGap >= 0.0
    ensures var plan := PlanOf(pickup, now, steps, minGap, true);
            && (forall k | 0 <= k < |plan.scheduled| :: now < plan.scheduled[k].fireAt < pickup)
            && (forall i, j | 0 <= i < j < |plan.scheduled| :: plan.scheduled[j].fireAt - plan.scheduled[i].fireAt >= minGap)
            && (plan.catchUp.Some? ==> forall k | 0 <= k < |plan.scheduled| :: plan.scheduled[k].fireAt - now >= minGap)
  {
    var sends := Scheduled(pickup, now, steps, minGap, true);
    ScheduledIsSpaced(pickup, now, steps, minGap);
    SendsAre(sends);
    assert forall k | 0 <= k < |sends| :: sends[k] in sends;
  }

  /** A suppressed row's time comes less than the gap after a send of the plan, or after a catch-up at now. */
  lemma PlanSuppressesForCause(pickup: real, now: real, steps: seq<Step>, minGap: real, k: nat)
    requires k < |PlanOf(pickup, now, steps, minGap, true).suppressed|
    ensures var plan := PlanOf(pickup, now, steps, minGap, true);
            var at := plan.suppressed[k].fireAt;
            || (plan.catchUp.Some? && now <= at && at - now < minGap)
            || (exists j | 0 <= j < |plan.scheduled| :: plan.scheduled[j].fireAt <= at && at - plan.scheduled[j].fireAt < minGap)
  {
    var kept, dropped := Scheduled(pickup, now, steps, minGap, true), Suppressed(pickup, now, steps, minGap, true);
    SuppressedHasCause(pickup, now, steps, minGap);
    SendsAre(kept);
    InfosAre(dropped, "gap_lt_min");
    assert dropped[k] in dropped;
    var last := StartOf(now, CatchUpOf(pickup, now, steps, true));
    if !(last.Some? && last.value <= dropped[k].fireAt && dropped[k].fireAt - last.value < minGap) {
      var c :| c in kept && c.fireAt <= dropped[k].fireAt && dropped[k].fireAt - c.fireAt < minGap;
      var j :| 0 <= j < |kept| && kept[j] == c;
      assert Sends(kept)[j].fireAt == c.fireAt;
    }
  }

  // ----- no larger choice

  /** Input steps still to come whose sends keep the gap, also from a catch-up at now. */
  ghost predicate Sendable(pickup: real, now: real, steps: seq<Step>, minGap: real, chosen: set<int>) {
    && (forall i | i in chosen :: 0 <= i < |steps| && pickup - steps[i].delayHours > now)
    && (forall i, j | i in chosen && j in chosen && i != j ::
          steps[i].delayHours - steps[j].delayHours >= minGap || steps[j].delayHours - steps[i].delayHours >= minGap)
    && (0.0 < pickup - now && Covered(steps, pickup - now) ==> forall i | i in chosen :: pickup - steps[i].delayHours - now >= minGap)
  }

  /** No choice of input steps that could all be sent is larger than the plan's, and the plan's is such a choice. */
  lemma PlanIsOptimal(pickup: real, now: real, steps: seq<Step>, minGap: real, chosen: set<int>)
    requires ValidSteps(steps) && minGap >= 0.0
    ensures Sendable(pickup, now, steps, minGap, chosen) ==> |chosen| <= |PlanOf(pickup, now, steps, minGap, true).scheduled|
    ensures var own := OwnPlaces(pickup, now, steps, minGap);
            Sendable(pickup, now, steps, minGap, own) && |own| == |PlanOf(pickup, now, steps, minGap, true).scheduled|
  {
    if Sendable(pickup, now, steps, minGap, chosen) {
      var cs := set i | i in chosen :: CandidateAt(steps, i, pickup);
      SameSize(steps, pickup, chosen, cs);
      SendableIsFeasible(pickup, now, steps, minGap, chosen);
      GreedyIsOptimal(pickup, now, steps, minGap, cs);
    }
    OwnChoice(pickup, now, steps, minGap);
  }

  lemma {:induction false} SameSize(steps: seq<Step>, pickup: real, chosen: set<int>, cs: set<Candidate>)
    requires forall i | i in chosen :: 0 <= i < |steps|
    requires cs == set i | i in chosen :: CandidateAt(steps, i, pickup)
    ensures |cs| == |chosen|
    decreases cs
  {
    assert forall i | i in chosen :: CandidateAt(steps, i, pickup) in cs;
    if cs == {} {
      forall i ensures i !in chosen {
        if i in chosen { assert false; }
      }
      assert chosen == {};
    } else {
      var c :| c in cs;
      var i := c.index - 1;
      WithoutPlace(steps, pickup, chosen, cs, i);
      SameSize(steps, pickup, chosen - {i}, cs - {c});
    }
  }

  lemma WithoutPlace(steps: seq<Step>, pickup: real, chosen: set<int>, cs: set<Candidate>, i: nat)
    requires i in chosen && forall i | i in chosen :: 0 <= i < |steps|
    requires cs == set i | i in chosen :: CandidateAt(steps, i, pickup)
    ensures CandidateAt(steps, i, pickup) in cs
    ensures cs - {CandidateAt(steps, i, pickup)} == set j | j in chosen - {i} :: CandidateAt(steps, j, pickup)
  {
    var c := CandidateAt(steps, i, pickup);
    forall d | d in cs - {c} ensures exists j | j in chosen - {i} :: d == CandidateAt(steps, j, pickup) {
      var j :| j in chosen && d == CandidateAt(steps, j, pickup);
      assert j in chosen - {i};
    }
    forall j | j in chosen - {i} ensures CandidateAt(steps, j, pickup) in cs - {c} {
      assert CandidateAt(steps, j, pickup).index != c.index;
    }
  }

  lemma SendableIsFeasible(pickup: real, now: real, steps: seq<Step>, minGap: real, chosen: set<int>)
    requires ValidSteps(steps) && Sendable(pickup, now, steps, minGap, chosen)
    ensures Feasible(pickup, now, steps, minGap, set i | i in chosen :: CandidateAt(steps, i, pickup))
  {
    forall i | i in chosen ensures CandidateAt(steps, i, pickup) in AllFrom(steps, 0, pickup) {
      EachIsThere(steps, 0, i, pickup);
    }
    CatchUpCharacterisation(pickup, now, steps);
    CoveredIsWithin(steps, pickup - now);
  }

  /** The places of the plan's sends. */
  function OwnPlaces(pickup: real, now: real, steps: seq<Step>, minGap: real): set<int> {
    set i | i in OutcomesOf(pickup, now, steps, minGap, true).scheduled
  }

  lemma OwnCandidates(pickup: real, now: real, steps: seq<Step>, minGap: real)
    ensures forall i | i in OwnPlaces(pickup, now, steps, minGap) :: 0 <= i < |steps|
    ensures (set i | i in OwnPlaces(pickup, now, steps, minGap) :: CandidateAt(steps, i, pickup))
         == (set c | c in Scheduled(pickup, now, steps, minGap, true))
  {
    OutcomesAreCandidates(pickup, now, steps, minGap, true);
    PlacesAndCandidates(steps, pickup, Scheduled(pickup, now, steps, minGap, true), OwnPlaces(pickup, now, steps, minGap));
  }

  lemma PlacesAndCandidates(steps: seq<Step>, pickup: real, cs: seq<Candidate>, own: set<int>)
    requires AreCandidates(steps, pickup, cs) && own == set i | i in Places(cs)
    ensures forall i | i in own :: 0 <= i < |steps|
    ensures (set i | i in own :: CandidateAt(steps, i, pickup)) == (set c | c in cs)
  {
    forall i | i in own ensures 0 <= i < |steps| && CandidateAt(steps, i, pickup) in cs {
      var k :| 0 <= k < |cs| && Places(cs)[k] == i;
      assert cs[k] in cs;
    }
    forall c | c in cs ensures c.index - 1 in own && c == CandidateAt(steps, c.index - 1, pickup) {
      var k :| 0 <= k < |cs| && cs[k] == c;
      assert Places(cs)[k] == c.index - 1;
    }
  }

  lemma OwnGaps(pickup: real, now: real, steps: seq<Step>, minGap: real, own: set<int>)
    requires forall i | i in own :: 0 <= i < |steps|
    requires Feasible(pickup, now, steps, minGap, set i | i in own :: CandidateAt(steps, i, pickup))
    ensures forall i, j | i in own && j in own && i != j ::
              steps[i].delayHours - steps[j].delayHours >= minGap || steps[j].delayHours - steps[i].delayHours >= minGap
  {
    var cs := set i | i in own :: CandidateAt(steps, i, pickup);
    forall i, j | i in own && j in own && i != j
      ensures steps[i].delayHours - steps[j].delayHours >= minGap || steps[j].delayHours - steps[i].delayHours >= minGap
    {
      var a, b := CandidateAt(steps, i, pickup), CandidateAt(steps, j, pickup);
      assert a in cs && b in cs && a.index != b.index;
    }
  }

  lemma OwnChoice(pickup: real, now: real, steps: seq<Step>, minGap: real)
    requires ValidSteps(steps) && minGap >= 0.0
    ensures var own := OwnPlaces(pickup, now, steps, minGap);
            Sendable(pickup, now, steps, minGap, own) && |own| == |PlanOf(pickup, now, steps, minGap, true).scheduled|
  {
    OwnCandidates(pickup, now, steps, minGap);
    var own := OwnPlaces(pickup, now, steps, minGap);
    var cs := set i | i in own :: CandidateAt(steps, i, pickup);
    ScheduledIsFeasible(pickup, now, steps, minGap);
    OwnGaps(pickup, now, steps, minGap, own);
    SameSize(steps, pickup, own, cs);
    CatchUpCharacterisation(pickup, now, steps);
    CoveredIsWithin(steps, pickup - now);
    forall i | i in own
      ensures pickup - steps[i].delayHours > now
      ensures 0.0 < pickup - now && Covered(steps, pickup - now) ==> pickup - steps[i].delayHours - now >= minGap
    {
      assert CandidateAt(steps, i, pickup) in cs;
    }
  }

  /** Reordering the input steps changes neither the catch-up offset nor the times of the plan. */
  lemma PlanIgnoresInputOrder(pickup: real, now: real, a: seq<Step>, b: seq<Step>, minGap: real)
    requires ValidSteps(a) && multiset(a) == multiset(b)
    ensures var x, y := PlanOf(pickup, now, a, minGap, true), PlanOf(pickup, now, b, minGap, true);
            && (x.catchUp.Some? <==> y.catchUp.Some?)
            && (x.catchUp.Some? ==> x.catchUp.value.delayHours == y.catchUp.value.delayHours)
            && |x.scheduled| == |y.scheduled|
            && (forall k | 0 <= k < |x.scheduled| :: x.scheduled[k].fireAt == y.scheduled[k].fireAt)
  {
    var s, t := Scheduled(pickup, now, a, minGap, true), Scheduled(pickup, now, b, minGap, true);
    InputOrderIrrelevant(pickup, now, a, b, minGap);
    TimesOf(s);
    TimesOf(t);
    SendsAre(s);
    SendsAre(t);
    forall k | 0 <= k < |s| ensures s[k].fireAt == t[k].fireAt {
      assert Times(s)[k] == Times(t)[k];
    }
  }
}
