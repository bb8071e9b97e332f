/**
 The `before_pickup` reminder planner (app/domain/before_pickup_reminder_plan.py).

 Times are hours on one clock and hours are reals, so `pickup - delayHours` is the
 source's `pickup_at - timedelta(hours=...)`. `PlanOf` says what a plan is, the
 methods compute it with the source's loops, and ReminderPlanProperties says why the
 plan is a good one.
 */
module ReminderPlan {
  import opened Wrappers

  datatype Step = Step(delayHours: real, eventType: string, step: Option<int>)

  /** One row of `suppressed` or `skipped`; `reason` is empty for skipped rows. */
  datatype StepInfo = StepInfo(step: int, delayHours: real, fireAt: real, reason: string)

  /** A step with its absolute time and its 1-based place in the input. */
  datatype Candidate = Candidate(step: Step, fireAt: real, index: int)

  datatype Send = Send(step: Step, fireAt: real)

  datatype Plan = Plan(
    hoursRemaining: real,
    catchUp: Option<Step>,
    scheduled: seq<Send>,
    suppressed: seq<StepInfo>,
    skipped: seq<StepInfo>)

  // ----- catch-up band selection

  function FireAt(pickup: real, step: Step): real {
    pickup - step.delayHours
  }

  predicate SameStep(a: Step, b: Step) {
    a.delayHours == b.delayHours && a.eventType == b.eventType
  }

  function InsertOffset(offsets: seq<real>, d: real): seq<real> {
    if offsets == [] then [d]
    else if d == offsets[0] then offsets
    else if d > offsets[0] then [d] + offsets
    else [offsets[0]] + InsertOffset(offsets[1..], d)
  }

  /** The distinct offsets, largest first: `sorted({...}, reverse=True)`. */
  function Offsets(steps: seq<Step>): seq<real> {
    if steps == [] then [] else InsertOffset(Offsets(steps[1..]), steps[0].delayHours)
  }

  function FirstWithOffset(steps: seq<Step>, d: real): Option<Step> {
    if steps == [] then None
    else if steps[0].delayHours == d then Some(steps[0])
    else FirstWithOffset(steps[1..], d)
  }

  function FindBand(steps: seq<Step>, offsets: seq<real>, hoursRemaining: real): Option<Step> {
    if offsets == [] then None
    else
      var lower := if |offsets| > 1 then offsets[1] else 0.0;
      if lower < hoursRemaining <= offsets[0] && FirstWithOffset(steps, offsets[0]).Some?
      then FirstWithOffset(steps, offsets[0])
      else FindBand(steps, offsets[1..], hoursRemaining)
  }

  function SelectCatchUpStep(steps: seq<Step>, hoursRemaining: real): Option<Step> {
    var offsets := Offsets(steps);
    if offsets == [] || hoursRemaining > offsets[0] then None
    else FindBand(steps, offsets, hoursRemaining)
  }

  // ----- what a plan is

  function StepNum(step: Step, index: int): int {
    step.step.GetOr(index)
  }

  function Info(c: Candidate, reason: string): StepInfo {
    StepInfo(StepNum(c.step, c.index), c.step.delayHours, c.fireAt, reason)
  }

  function Infos(cs: seq<Candidate>, reason: string): seq<StepInfo> {
    if cs == [] then [] else [Info(cs[0], reason)] + Infos(cs[1..], reason)
  }

  function Sends(cs: seq<Candidate>): seq<Send> {
    if cs == [] then [] else [Send(cs[0].step, cs[0].fireAt)] + Sends(cs[1..])
  }

  function CandidateAt(steps: seq<Step>, i: nat, pickup: real): Candidate
    requires i < |steps|
  {
    Candidate(steps[i], FireAt(pickup, steps[i]), i + 1)
  }

  /** True when step `i` is the catch-up step or a duplicate of it. */
  predicate IsCatchUp(steps: seq<Step>, i: nat, catchUp: Option<Step>)
    requires i < |steps|
  {
    catchUp.Some? && SameStep(steps[i], catchUp.value)
  }

  /** From position `i` on, the steps whose time is past (or is `now`). */
  function PastFrom(steps: seq<Step>, i: nat, pickup: real, now: real, catchUp: Option<Step>): seq<Candidate>
    requires i <= |steps|
    decreases |steps| - i
  {
    if i == |steps| then []
    else
      var rest := PastFrom(steps, i + 1, pickup, now, catchUp);
      if !IsCatchUp(steps, i, catchUp) && FireAt(pickup, steps[i]) <= now
      then [CandidateAt(steps, i, pickup)] + rest else rest
  }

  /** From position `i` on, the steps whose time is still to come. */
  function FutureFrom(steps: seq<Step>, i: nat, pickup: real, now: real, catchUp: Option<Step>): seq<Candidate>
    requires i <= |steps|
    decreases |steps| - i
  {
    if i == |steps| then []
    else
      var rest := FutureFrom(steps, i + 1, pickup, now, catchUp);
      if !IsCatchUp(steps, i, catchUp) && FireAt(pickup, steps[i]) > now
      then [CandidateAt(steps, i, pickup)] + rest else rest
  }

  function InsertByTime(c: Candidate, cs: seq<Candidate>): seq<Candidate> {
    if cs == [] then [c]
    else if c.fireAt <= cs[0].fireAt then [c] + cs
    else [cs[0]] + InsertByTime(c, cs[1..])
  }

  /** Python's stable `list.sort(key=fire_at)`. */
  function SortByTime(cs: seq<Candidate>): seq<Candidate> {
    if cs == [] then [] else InsertByTime(cs[0], SortByTime(cs[1..]))
  }

  predicate TooSoon(fireAt: real, last: Option<real>, minGap: real) {
    last.Some? && fireAt - last.value < minGap
  }

  /** The sends the greedy pass keeps, given the previous send. */
  function Kept(cs: seq<Candidate>, last: Option<real>, minGap: real): seq<Candidate> {
    if cs == [] then []
    else if TooSoon(cs[0].fireAt, last, minGap) then Kept(cs[1..], last, minGap)
    else [cs[0]] + Kept(cs[1..], Some(cs[0].fireAt), minGap)
  }

  /** The candidates the greedy pass suppresses. */
  function Dropped(cs: seq<Candidate>, last: Option<real>, minGap: real): seq<Candidate> {
    if cs == [] then []
    else if TooSoon(cs[0].fireAt, last, minGap) then [cs[0]] + Dropped(cs[1..], last, minGap)
    else Dropped(cs[1..], Some(cs[0].fireAt), minGap)
  }

  function CatchUpOf(pickup: real, now: real, steps: seq<Step>, catchUpEnabled: bool): Option<Step> {
    if catchUpEnabled then SelectCatchUpStep(steps, pickup - now) else None
  }

  /** What the greedy pass starts from: `now` counts as a send when there is a catch-up. */
  function StartOf(now: real, catchUp: Option<Step>): Option<real> {
    if catchUp.Some? then Some(now) else None
  }

  function Future(pickup: real, now: real, steps: seq<Step>, catchUpEnabled: bool): seq<Candidate> {
    SortByTime(FutureFrom(steps, 0, pickup, now, CatchUpOf(pickup, now, steps, catchUpEnabled)))
  }

  /** The scheduled candidates with their input positions, before the positions are dropped. */
  function Scheduled(pickup: real, now: real, steps: seq<Step>, minGap: real, catchUpEnabled: bool): seq<Candidate> {
    if catchUpEnabled
    then Kept(Future(pickup, now, steps, true), StartOf(now, CatchUpOf(pickup, now, steps, true)), minGap)
    else FutureFrom(steps, 0, pickup, now, None)
  }

  function Suppressed(pickup: real, now: real, steps: seq<Step>, minGap: real, catchUpEnabled: bool): seq<Candidate> {
    if catchUpEnabled
    then Dropped(Future(pickup, now, steps, true), StartOf(now, CatchUpOf(pickup, now, steps, true)), minGap)
    else []
  }

  function Skipped(pickup: real, now: real, steps: seq<Step>, catchUpEnabled: bool): seq<Candidate> {
    PastFrom(steps, 0, pickup, now, CatchUpOf(pickup, now, steps, catchUpEnabled))
  }

  function PlanOf(pickup: real, now: real, steps: seq<Step>, minGap: real, catchUpEnabled: bool): Plan {
    Plan(
      pickup - now,
      CatchUpOf(pickup, now, steps, catchUpEnabled),
      Sends(Scheduled(pickup, now, steps, minGap, catchUpEnabled)),
      Infos(Suppressed(pickup, now, steps, minGap, catchUpEnabled), "gap_lt_min"),
      Infos(Skipped(pickup, now, steps, catchUpEnabled), ""))
  }

  // ----- the planner's loops

  /** `_legacy_plan`: no catch-up, no gap, input order kept. */
  method LegacyPlan(pickup: real, now: real, steps: seq<Step>, hoursRemaining: real) returns (plan: Plan)
    ensures plan == PlanOf(pickup, now, steps, 0.0, false).(hoursRemaining := hoursRemaining)
  {
    var scheduled: seq<Send> := [];
    var skipped: seq<StepInfo> := [];
    for i := 0 to |steps|
      invariant scheduled + Sends(FutureFrom(steps, i, pickup, now, None)) == Sends(FutureFrom(steps, 0, pickup, now, None))
      invariant skipped + Infos(PastFrom(steps, i, pickup, now, None), "") == Infos(PastFrom(steps, 0, pickup, now, None), "")
    {
      var c := CandidateAt(steps, i, pickup);
      if c.fireAt <= now {
        skipped := skipped + [Info(c, "")];
      } else {
        scheduled := scheduled + [Send(c.step, c.fireAt)];
      }
    }
    plan := Plan(hoursRemaining, None, scheduled, [], skipped);
  }

  /** The first loop of `plan_before_pickup_reminders`: steps still to come, and steps past. */
  method SplitByTime(pickup: real, now: real, steps: seq<Step>, catchUp: Option<Step>)
    returns (candidates: seq<Candidate>, skipped: seq<StepInfo>)
    ensures candidates == FutureFrom(steps, 0, pickup, now, catchUp)
    ensures skipped == Infos(PastFrom(steps, 0, pickup, now, catchUp), "")
  {
    candidates, skipped := [], [];
    for i := 0 to |steps|
      invariant candidates + FutureFrom(steps, i, pickup, now, catchUp) == FutureFrom(steps, 0, pickup, now, catchUp)
      invariant skipped + Infos(PastFrom(steps, i, pickup, now, catchUp), "") == Infos(PastFrom(steps, 0, pickup, now, catchUp), "")
    {
      var c := CandidateAt(steps, i, pickup);
      if !IsCatchUp(steps, i, catchUp) {
        if c.fireAt <= now {
          skipped := skipped + [Info(c, "")];
        } else {
          candidates := candidates + [c];
        }
      }
    }
  }

  /** The second loop: keep a send unless it comes too soon after the one before. */
  method KeepSpaced(candidates: seq<Candidate>, start: Option<real>, minGap: real)
    returns (scheduled: seq<Send>, suppressed: seq<StepInfo>)
    ensures scheduled == Sends(Kept(candidates, start, minGap))
    ensures suppressed == Infos(Dropped(candidates, start, minGap), "gap_lt_min")
  {
    var lastSendAt := start;
    scheduled, suppressed := [], [];
    for i := 0 to |candidates|
      invariant scheduled + Sends(Kept(candidates[i..], lastSendAt, minGap)) == Sends(Kept(candidates, start, minGap))
      invariant suppressed + Infos(Dropped(candidates[i..], lastSendAt, minGap), "gap_lt_min")
             == Infos(Dropped(candidates, start, minGap), "gap_lt_min")
    {
      var c := candidates[i];
      assert candidates[i..][1..] == candidates[i + 1..];
      if TooSoon(c.fireAt, lastSendAt, minGap) {
        suppressed := suppressed + [Info(c, "gap_lt_min")];
      } else {
        scheduled := scheduled + [Send(c.step, c.fireAt)];
        lastSendAt := Some(c.fireAt);
      }
    }
  }

  /** `plan_before_pickup_reminders`. */
  method PlanBeforePickupReminders(pickup: real, now: real, steps: seq<Step>, minGap: real, catchUpEnabled: bool)
    returns (plan: Plan)
    ensures plan == PlanOf(pickup, now, steps, minGap, catchUpEnabled)
  {
    var hoursRemaining := pickup - now;
    if !catchUpEnabled {
      plan := LegacyPlan(pickup, now, steps, hoursRemaining);
      return;
    }
    var catchUp := SelectCatchUpStep(steps, hoursRemaining);
    var candidates, skipped := SplitByTime(pickup, now, steps, catchUp);
    candidates := SortByTime(candidates);
    var scheduled, suppressed := KeepSpaced(candidates, StartOf(now, catchUp), minGap);
    plan := Plan(hoursRemaining, catchUp, scheduled, suppressed, skipped);
  }
}
