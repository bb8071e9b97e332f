/**
 The routing-guide waterfall: the attempt counter in lifecycle metadata and the two
 calls that move it (app/services/routing_guide_lifecycle_service.py,
 app/domain/gelita/routing_guide_lifecycle.py).
 */
module RoutingGuide {
  import opened Wrappers
  import opened Text

  /** `metadata["routing_guide_attempt"]`, or the same key in graph state. */
  datatype Stored = NoKey | NotANumber | Number(n: int)

  const MAX_CARRIER_ATTEMPTS := 3

  /** `_parse_attempt` */
  function ParseAttempt(raw: Stored): Option<int> {
    if raw.Number? && raw.n >= 1 then Some(raw.n) else None
  }

  /** `routing_guide_attempt_from_metadata` */
  function LiveAttempt(raw: Stored): int {
    ParseAttempt(raw).GetOr(1)
  }

  /** `routing_guide_max_attempts`: the tenant's setting when it is in range. */
  function MaxAttempts(setting: Option<int>): (max: int)
    ensures setting.Some? && 1 <= setting.value <= 3 ==> max == setting.value
    ensures setting.None? || setting.value < 1 || setting.value > 3 ==> max == 3
  {
    if setting.None? || setting.value < 1 || setting.value > MAX_CARRIER_ATTEMPTS then MAX_CARRIER_ATTEMPTS else setting.value
  }

  /** What a run knows of the counter: the attempt in its state, and the metadata it has read. */
  datatype Belief = Belief(attempt: Stored, cached: Stored)

  function Believed(b: Belief): int {
    if ParseAttempt(b.attempt).Some? then ParseAttempt(b.attempt).value else LiveAttempt(b.cached)
  }

  // ----- what the calls do to the stored counter

  /** `advance` by a run that believes the attempt is `prior`. */
  function Advanced(stored: Stored, prior: int, max: int): Stored {
    var live := LiveAttempt(stored);
    if live > prior || live >= max then stored else Number((if live > prior then live else prior) + 1)
  }

  /** `record_tenant_sent` */
  function TenantSent(stored: Stored): Stored {
    if stored.NoKey? then Number(1) else stored
  }

  // ----- the service

  class WorkflowLifecycles {
    var metadata: map<string, Stored>   // one entry per row

    constructor ()
      ensures metadata == map[]
    {
      metadata := map[];
    }

    method SetRoutingGuideAttempt(lifecycleId: string, attempt: int) returns (ok: bool)
      modifies this
      ensures ok <==> Strip(lifecycleId) in old(metadata) && Strip(lifecycleId) != "" && attempt >= 1
      ensures metadata == if ok then old(metadata)[Strip(lifecycleId) := Number(attempt)] else old(metadata)
    {
      var lid := Strip(lifecycleId);
      if lid == "" || attempt < 1 { return false; }
      if lid !in metadata { return false; }
      metadata := metadata[lid := Number(attempt)];
      ok := true;
    }

    /** Metadata of a row, or no metadata when the row is missing. */
    function Read(lifecycleId: string): Stored
      reads this
    {
      if lifecycleId in metadata then metadata[lifecycleId] else NoKey
    }
  }

  /** One graph run's `state`: `attempt` mirrors the counter, `cached` is the metadata read when it began. */
  class RunState {
    const lifecycleId: string
    const tenantId: string
    const tenderId: string
    const runId: string
    const ftl: bool
    const maxSetting: Option<int>
    const cached: Stored
    var attempt: Stored

    constructor (lifecycleId: string, tenantId: string, tenderId: string, runId: string, ftl: bool, maxSetting: Option<int>, cached: Stored, attempt: Stored)
      ensures this.lifecycleId == lifecycleId && this.tenantId == tenantId && this.tenderId == tenderId && this.runId == runId
      ensures this.ftl == ftl && this.maxSetting == maxSetting && this.cached == cached && this.attempt == attempt
    {
      this.lifecycleId, this.tenantId, this.tenderId, this.runId := lifecycleId, tenantId, tenderId, runId;
      this.ftl, this.maxSetting, this.cached, this.attempt := ftl, maxSetting, cached, attempt;
    }

    /** `_workflow_scope` found all four ids. */
    predicate HasScope() {
      Strip(lifecycleId) != "" && Strip(tenantId) != "" && Strip(tenderId) != "" && Strip(runId) != ""
    }

    /** `routing_guide_attempt_from_state` */
    function AttemptFromState(): int
      reads this
    {
      Believed(Belief(attempt, cached))
    }

    /** `sync_routing_guide_attempt_to_state` */
    method Sync(value: int)
      modifies this`attempt
      ensures attempt == Number(if value >= 1 then value else 1)
    {
      attempt := Number(if value >= 1 then value else 1);
    }
  }

  /** What the service reads: a row's entry, the run's own attempt before its cached one, and whether all four ids are there. */
  lemma ReadsMeaning(lifecycles: WorkflowLifecycles, id: string, state: RunState)
    ensures id in lifecycles.metadata ==> lifecycles.Read(id) == lifecycles.metadata[id]
    ensures id !in lifecycles.metadata ==> lifecycles.Read(id) == NoKey
    ensures forall n :: n >= 1 && state.attempt == Number(n) ==> state.AttemptFromState() == n
    ensures forall n :: n >= 1 && state.cached == Number(n) && (state.attempt.Number? ==> state.attempt.n < 1) ==> state.AttemptFromState() == n
    ensures state.HasScope() <==> forall text | text in [state.lifecycleId, state.tenantId, state.tenderId, state.runId] :: Strip(text) != ""
  {
  }

  class RoutingGuideLifecycleService {
    const lifecycles: WorkflowLifecycles

    constructor (lifecycles: WorkflowLifecycles)
      ensures this.lifecycles == lifecycles
    {
      this.lifecycles := lifecycles;
    }

    method RecordTenantSent(state: RunState) returns (recorded: bool)
      modifies lifecycles, state`attempt
      ensures recorded <==> state.ftl && state.HasScope()
      ensures !recorded ==> lifecycles.metadata == old(lifecycles.metadata) && state.attempt == old(state.attempt)
      ensures recorded ==>
                var id := Strip(state.lifecycleId);
                && lifecycles.metadata == (if id in old(lifecycles.metadata)
                                           then old(lifecycles.metadata)[id := TenantSent(old(lifecycles.metadata)[id])]
                                           else old(lifecycles.metadata))
                && state.attempt == Number(LiveAttempt(TenantSent(old(lifecycles.Read(id)))))
    {
      if !state.ftl || !state.HasScope() { return false; }
      var id := Strip(state.lifecycleId);
      StripTrims(state.lifecycleId);
      StripTrims(id);
      var meta := lifecycles.Read(id);
      var attempt;
      if meta.NoKey? {
        attempt := 1;
        var _ := lifecycles.SetRoutingGuideAttempt(id, attempt);
      } else {
        attempt := LiveAttempt(meta);
      }
      state.Sync(attempt);
      recorded := true;
    }

    /** After a carrier's reject or timeout; without scope nothing changes. */
    method Advance(state: RunState) returns (newAttempt: int)
      modifies lifecycles, state`attempt
      ensures !state.HasScope() ==>
                newAttempt == old(state.AttemptFromState())
                && lifecycles.metadata == old(lifecycles.metadata) && state.attempt == old(state.attempt)
      ensures state.HasScope() ==>
                var id := Strip(state.lifecycleId);
                var after := Advanced(old(lifecycles.Read(id)), old(state.AttemptFromState()), MaxAttempts(state.maxSetting));
                && lifecycles.metadata == (if id in old(lifecycles.metadata) then old(lifecycles.metadata)[id := after] else old(lifecycles.metadata))
                && newAttempt == LiveAttempt(after)
                && state.attempt == Number(newAttempt)
    {
      var statePrior := state.AttemptFromState();
      if !state.HasScope() { return statePrior; }
      var id := Strip(state.lifecycleId);
      StripTrims(state.lifecycleId);
      StripTrims(id);
      var max := MaxAttempts(state.maxSetting);
      var live := LiveAttempt(lifecycles.Read(id));
      if live > statePrior || live >= max {
        newAttempt := live;
      } else {
        var prior := if live > statePrior then live else statePrior;
        newAttempt := prior + 1;
        var _ := lifecycles.SetRoutingGuideAttempt(id, newAttempt);
      }
      state.Sync(newAttempt);
    }
  }

  // ----- which attempt is read

  /** A usable attempt is a number from 1. */
  predicate Usable(raw: Stored, n: int) {
    raw == Number(n) && n >= 1
  }

  /** The stored attempt is the usable number there, or 1. */
  lemma LiveAttemptMeaning(raw: Stored)
    ensures forall n | Usable(raw, n) :: LiveAttempt(raw) == n
    ensures (forall n :: !Usable(raw, n)) ==> LiveAttempt(raw) == 1
  {
    assert LiveAttempt(raw) != 1 ==> Usable(raw, LiveAttempt(raw));
  }

  /** A run believes its own usable attempt first, then the one in the metadata it has read, then 1. */
  lemma BelievedMeaning(b: Belief)
    ensures forall n | Usable(b.attempt, n) :: Believed(b) == n
    ensures forall n | Usable(b.cached, n) && forall m :: !Usable(b.attempt, m) :: Believed(b) == n
    ensures (forall n :: !Usable(b.attempt, n) && !Usable(b.cached, n)) ==> Believed(b) == 1
  {
    assert Usable(b.attempt, Believed(b)) || Usable(b.cached, Believed(b)) || Believed(b) == 1;
  }

  /** Sending to the tenant starts the counter at 1 and touches no counter that is there, usable or not. */
  lemma TenantSentMeaning(stored: Stored)
    ensures TenantSent(NoKey) == Number(1)
    ensures stored != NoKey ==> TenantSent(stored) == stored
  {
  }

  // ----- runs of the queue, one step at a time

  datatype Step = SendToTenant | RejectOrTimeout(prior: int)

  function Next(stored: Stored, step: Step, max: int): Stored {
    match step
    case SendToTenant => TenantSent(stored)
    case RejectOrTimeout(prior) => Advanced(stored, prior, max)
  }

  function Run(stored: Stored, steps: seq<Step>, max: int): Stored
    decreases |steps|
  {
    if steps == [] then stored else Run(Next(stored, steps[0], max), steps[1..], max)
  }

  /** No step believes in an attempt that is yet to come. */
  predicate NoFuturePrior(stored: Stored, steps: seq<Step>, max: int)
    decreases |steps|
  {
    steps != [] ==>
      && (steps[0].RejectOrTimeout? ==> steps[0].prior <= LiveAttempt(stored))
      && NoFuturePrior(Next(stored, steps[0], max), steps[1..], max)
  }

  /** How many steps of a run move the counter away from `k`. */
  function Departures(stored: Stored, steps: seq<Step>, max: int, k: int): nat
    decreases |steps|
  {
    if steps == [] then 0
    else
      var next := Next(stored, steps[0], max);
      (if LiveAttempt(stored) == k && LiveAttempt(next) != k then 1 else 0) + Departures(next, steps[1..], max, k)
  }

  /**
   Over a run whose steps carry attempts no later than the stored one, the counter stays
   within the maximum, never falls, and leaves any one attempt at most once, however
   many rejects and timeouts carry that attempt.
   */
  lemma {:induction false} WaterfallRun(stored: Stored, steps: seq<Step>, max: int, k: int)
    requires LiveAttempt(stored) <= max && NoFuturePrior(stored, steps, max)
    ensures 1 <= LiveAttempt(stored) <= LiveAttempt(Run(stored, steps, max)) <= max
    ensures Departures(stored, steps, max, k) <= (if LiveAttempt(stored) <= k then 1 else 0)
    decreases |steps|
  {
    if steps != [] {
      StepRisesByAtMostOne(stored, steps[0], max);
      WaterfallRun(Next(stored, steps[0], max), steps[1..], max, k);
    }
  }

  lemma StepRisesByAtMostOne(stored: Stored, step: Step, max: int)
    requires LiveAttempt(stored) <= max
    requires step.RejectOrTimeout? ==> step.prior <= LiveAttempt(stored)
    ensures LiveAttempt(stored) <= LiveAttempt(Next(stored, step, max)) <= LiveAttempt(stored) + 1
    ensures LiveAttempt(Next(stored, step, max)) <= max
    ensures LiveAttempt(Next(stored, step, max)) == LiveAttempt(stored) + 1
       <==> step == RejectOrTimeout(LiveAttempt(stored)) && LiveAttempt(stored) < max
  {
  }

  // ----- where the carried attempts come from

  /** One row's counter and the runs about it. */
  datatype Waterfall = Waterfall(stored: Stored, runs: map<nat, Belief>)

  datatype Event =
    | Start(run: nat)                    // a run that carries no attempt
    | Ingress(run: nat)                  // its payload carries the stored attempt (app/services/gelita_email_ingress_service.py)
    | Reminder(run: nat, scheduler: nat) // its payload carries the attempt of the run that scheduled it
    | ReadRow(run: nat)                  // the run caches the metadata and mirrors a stored attempt (app/workflows/nodes/tenders.py)
    | Sent(run: nat)
    | Refused(run: nat)                  // a reject or timeout reaches `advance`

  function Mirrored(w: Waterfall, run: nat, stored: Stored): Waterfall
    requires run in w.runs
  {
    Waterfall(stored, w.runs[run := w.runs[run].(attempt := Number(LiveAttempt(stored)))])
  }

  function Happens(w: Waterfall, e: Event, max: int): Waterfall {
    match e
    case Start(run) => w.(runs := w.runs[run := Belief(NoKey, NoKey)])
    case Ingress(run) => w.(runs := w.runs[run := Belief(Number(LiveAttempt(w.stored)), NoKey)])
    case Reminder(run, scheduler) =>
      if scheduler in w.runs then w.(runs := w.runs[run := Belief(Number(Believed(w.runs[scheduler])), NoKey)]) else w
    case ReadRow(run) =>
      if run !in w.runs then w
      else
        var b := w.runs[run].(cached := w.stored);
        w.(runs := w.runs[run := if w.stored.NoKey? then b else b.(attempt := Number(LiveAttempt(w.stored)))])
    case Sent(run) => if run in w.runs then Mirrored(w, run, TenantSent(w.stored)) else w
    case Refused(run) => if run in w.runs then Mirrored(w, run, Advanced(w.stored, Believed(w.runs[run]), max)) else w
  }

  function HappenAll(w: Waterfall, events: seq<Event>, max: int): Waterfall
    decreases |events|
  {
    if events == [] then w else HappenAll(Happens(w, events[0], max), events[1..], max)
  }

  /** No run knows of an attempt that is yet to come. */
  predicate NoneAhead(w: Waterfall) {
    forall run | run in w.runs :: Believed(w.runs[run]) <= LiveAttempt(w.stored) && LiveAttempt(w.runs[run].cached) <= LiveAttempt(w.stored)
  }

  /** The events as steps on the counter alone. */
  function StepsOf(w: Waterfall, events: seq<Event>, max: int): seq<Step>
    decreases |events|
  {
    if events == [] then []
    else
      var e := events[0];
      (if e.Sent? && e.run in w.runs then [SendToTenant]
       else if e.Refused? && e.run in w.runs then [RejectOrTimeout(Believed(w.runs[e.run]))]
       else []) + StepsOf(Happens(w, e, max), events[1..], max)
  }

  lemma NoneAheadStays(w: Waterfall, e: Event, max: int)
    requires NoneAhead(w) && LiveAttempt(w.stored) <= max
    ensures NoneAhead(Happens(w, e, max)) && LiveAttempt(Happens(w, e, max).stored) <= max
  {
  }

  /** Events on runs are a run of steps on the counter, none of which carries a future attempt. */
  lemma {:induction false} CarriedAreNotAhead(w: Waterfall, events: seq<Event>, max: int)
    requires NoneAhead(w) && LiveAttempt(w.stored) <= max
    ensures HappenAll(w, events, max).stored == Run(w.stored, StepsOf(w, events, max), max)
    ensures NoFuturePrior(w.stored, StepsOf(w, events, max), max)
    ensures NoneAhead(HappenAll(w, events, max))
    decreases |events|
  {
    if events != [] {
      var e := events[0];
      var rest := StepsOf(Happens(w, e, max), events[1..], max);
      NoneAheadStays(w, e, max);
      CarriedAreNotAhead(Happens(w, e, max), events[1..], max);
      if StepsOf(w, events, max) != rest {
        assert StepsOf(w, events, max)[1..] == rest;
      }
    }
  }

  /**
   From a row that no run knows about yet, whatever the runs do, in any order and however
   stale their attempts: the counter stays within the maximum, never falls, and leaves any
   one attempt at most once.
   */
  lemma WaterfallOverRuns(stored: Stored, events: seq<Event>, max: int, k: int)
    requires LiveAttempt(stored) <= max
    ensures var w := Waterfall(stored, map[]);
            && 1 <= LiveAttempt(stored) <= LiveAttempt(HappenAll(w, events, max).stored) <= max
            && Departures(stored, StepsOf(w, events, max), max, k) <= (if LiveAttempt(stored) <= k then 1 else 0)
            && NoneAhead(HappenAll(w, events, max))
  {
    var w := Waterfall(stored, map[]);
    CarriedAreNotAhead(w, events, max);
    WaterfallRun(stored, StepsOf(w, events, max), max, k);
  }

  /**
   One reject or timeout, whatever attempt it carries: the counter rises by at most one
   exactly when that attempt is not ahead of the stored one or the maximum is reached,
   and it passes the maximum exactly when it carries the maximum or more from below it.
   */
  lemma AdvanceIff(stored: Stored, prior: int, max: int)
    requires LiveAttempt(stored) <= max
    ensures LiveAttempt(Advanced(stored, prior, max)) <= LiveAttempt(stored) + 1
       <==> prior <= LiveAttempt(stored) || LiveAttempt(stored) == max
    ensures LiveAttempt(Advanced(stored, prior, max)) > max <==> LiveAttempt(stored) < max <= prior
    ensures Advanced(stored, prior, max) == stored <==> prior < LiveAttempt(stored) || LiveAttempt(stored) == max
    ensures Advanced(stored, prior, max) == stored || Advanced(stored, prior, max) == Number(prior + 1)
  {
  }

  /**
   What a run believes after an event: what its payload or the row gives it, and, after its own
   sending, reject or timeout, the stored attempt; other runs believe what they did.
   */
  lemma BeliefAfter(w: Waterfall, e: Event, max: int)
    ensures var after := Happens(w, e, max);
            && (e.Start? ==> e.run in after.runs && Believed(after.runs[e.run]) == 1)
            && (e.Ingress? ==> e.run in after.runs && Believed(after.runs[e.run]) == LiveAttempt(w.stored))
            && (e.Reminder? && e.scheduler in w.runs ==> e.run in after.runs && Believed(after.runs[e.run]) == Believed(w.runs[e.scheduler]))
            && (e.ReadRow? && e.run in w.runs && !w.stored.NoKey? ==> Believed(after.runs[e.run]) == LiveAttempt(w.stored))
            && ((e.Sent? || e.Refused?) && e.run in w.runs ==> Believed(after.runs[e.run]) == LiveAttempt(after.stored))
            && (!e.Sent? && !e.Refused? ==> after.stored == w.stored)
            && (forall run | run in w.runs && run != e.run :: run in after.runs && after.runs[run] == w.runs[run])
  {
  }
}
