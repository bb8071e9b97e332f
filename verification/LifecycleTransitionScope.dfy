/** Which tenant, lifecycle and run a batch is about: what its texts name, why it is refused, and what it logs. */
module LifecycleTransitionScope {
  import opened Wrappers
  import opened Text
  import opened LifecycleTransition

  // ----- what the texts of a command name

  predicate NamesTenant(env: Env, text: string, tenant: string) {
    Strip(text) != "" && Strip(text) in env.tenants && env.tenants[Strip(text)] == tenant
  }

  predicate NamesUuid(env: Env, text: string, id: string) {
    Strip(text) != "" && Strip(text) in env.uuids && env.uuids[Strip(text)] == id
  }

  predicate HasText(text: Option<string>) {
    text.Some? && Strip(text.value) != ""
  }

  /** A missing or blank run text names no run. */
  predicate NamesRun(env: Env, text: Option<string>, run: Option<string>) {
    if HasText(text) then run.Some? && NamesUuid(env, text.value, run.value) else run.None?
  }

  predicate InScope(env: Env, c: Command, tenant: string, id: string, run: Option<string>) {
    NamesTenant(env, c.tenantId, tenant) && NamesUuid(env, c.lifecycleId, id) && NamesRun(env, c.runId, run)
  }

  predicate AllInScope(env: Env, cs: seq<Command>, n: nat, tenant: string, id: string, run: Option<string>)
    requires n <= |cs|
  {
    forall k | 0 <= k < n :: InScope(env, cs[k], tenant, id, run)
  }

  lemma NamedScope(env: Env, c: Command, tenant: string, id: string, run: Option<string>)
    requires InScope(env, c, tenant, id, run)
    ensures PrepareScope(env, c).Success?
    ensures var s := PrepareScope(env, c).value; s.tenant == tenant && s.lifecycleId == id && s.runId == run
  {
  }

  lemma CheckedIffInScope(env: Env, scope: Scope, c: Command)
    ensures CheckCommand(env, scope, c).None? <==> InScope(env, c, scope.tenant, scope.lifecycleId, scope.runId)
  {
  }

  // ----- when and why a batch is refused

  /** The first command of a batch names no scope; `error` is what it is refused with. */
  predicate NoScope(env: Env, c: Command, error: Error) {
    if Strip(c.tenantId) == "" || Strip(c.tenantId) !in env.tenants then error.UnknownTenant?
    else if Strip(c.lifecycleId) == "" then error.LifecycleRequired?
    else
      && (Strip(c.lifecycleId) !in env.uuids || (HasText(c.runId) && Strip(c.runId.value) !in env.uuids))
      && error.InvalidUuid?
  }

  /** A command is not about this tenant, lifecycle and run; `error` is what it is refused with. */
  predicate OutOfScope(env: Env, c: Command, tenant: string, id: string, run: Option<string>, error: Error) {
    if !NamesTenant(env, c.tenantId, tenant) then error.MixedTenant?
    else if Strip(c.lifecycleId) == "" then error.LifecycleRequired?
    else if Strip(c.lifecycleId) !in env.uuids then error.InvalidUuid?
    else if !NamesUuid(env, c.lifecycleId, id) then error.MixedLifecycle?
    else if HasText(c.runId) && Strip(c.runId.value) !in env.uuids then error.InvalidUuid?
    else !NamesRun(env, c.runId, run) && error.MixedRun?
  }

  lemma ScopeFailsIff(env: Env, c: Command, error: Error)
    ensures PrepareScope(env, c) == Failure(error) <==> NoScope(env, c, error)
  {
  }

  lemma CheckFailsIff(env: Env, scope: Scope, c: Command, error: Error)
    ensures CheckCommand(env, scope, c) == Some(error) <==> OutOfScope(env, c, scope.tenant, scope.lifecycleId, scope.runId, error)
  {
  }

  lemma FirstErrorNext(env: Env, scope: Scope, cs: seq<Command>, k: nat)
    requires k < |cs|
    ensures FirstError(env, scope, cs, k + 1).None? <==> FirstError(env, scope, cs, k).None? && CheckCommand(env, scope, cs[k]).None?
  {
  }

  lemma AllInScopeNext(env: Env, cs: seq<Command>, k: nat, tenant: string, id: string, run: Option<string>)
    requires k < |cs|
    ensures AllInScope(env, cs, k + 1, tenant, id, run) <==> AllInScope(env, cs, k, tenant, id, run) && InScope(env, cs[k], tenant, id, run)
  {
  }

  lemma {:induction false} FirstErrorIff(env: Env, scope: Scope, cs: seq<Command>, n: nat)
    requires n <= |cs|
    ensures FirstError(env, scope, cs, n).None? <==> AllInScope(env, cs, n, scope.tenant, scope.lifecycleId, scope.runId)
  {
    if n > 0 {
      var k := n - 1;
      FirstErrorIff(env, scope, cs, k);
      CheckedIffInScope(env, scope, cs[k]);
      FirstErrorNext(env, scope, cs, k);
      AllInScopeNext(env, cs, k, scope.tenant, scope.lifecycleId, scope.runId);
    }
  }

  lemma FirstErrorOf(env: Env, scope: Scope, cs: seq<Command>, k: nat, error: Error)
    requires k < |cs| && AllInScope(env, cs, k, scope.tenant, scope.lifecycleId, scope.runId)
    requires OutOfScope(env, cs[k], scope.tenant, scope.lifecycleId, scope.runId, error)
    ensures FirstError(env, scope, cs, |cs|) == Some(error) && ErrorAt(env, scope, cs, |cs|) == k
  {
    FirstErrorIff(env, scope, cs, k);
    CheckFailsIff(env, scope, cs[k], error);
    assert FirstError(env, scope, cs, k + 1) == Some(error);
    FirstErrorStays(env, scope, cs, k + 1, |cs|);
    FirstErrorIsAt(env, scope, cs, k);
  }

  /** The row is there, or the batch's first command does without. */
  predicate RowGiven(tables: Tables, first: Command, id: string) {
    id in tables.rows || !first.requireRow
  }

  /**
   A batch succeeds exactly when all its commands name one tenant, one lifecycle and one run
   (or none at all of the last), and the row is there or not required.
   */
  lemma BatchSucceedsIff(env: Env, tables: Tables, cs: seq<Command>)
    requires cs != []
    ensures BatchOutcome(env, tables, cs).Success?
       <==> exists tenant, id, run :: AllInScope(env, cs, |cs|, tenant, id, run) && RowGiven(tables, cs[0], id)
  {
    if BatchOutcome(env, tables, cs).Success? {
      var s := PrepareScope(env, cs[0]).value;
      FirstErrorIff(env, s, cs, |cs|);
      assert RowGiven(tables, cs[0], s.lifecycleId);
    }
    if tenant, id, run :| AllInScope(env, cs, |cs|, tenant, id, run) && RowGiven(tables, cs[0], id) {
      NamedScope(env, cs[0], tenant, id, run);
      FirstErrorIff(env, PrepareScope(env, cs[0]).value, cs, |cs|);
    }
  }

  /** A batch whose first command names no scope, or a missing row it requires, fails for that reason and writes nothing. */
  lemma BatchWithoutScopeFails(env: Env, tables: Tables, cs: seq<Command>, error: Error)
    requires cs != []
    requires || NoScope(env, cs[0], error)
             || (error.RowNotFound? && cs[0].requireRow
                 && exists tenant, id, run :: InScope(env, cs[0], tenant, id, run) && id !in tables.rows)
    ensures BatchOutcome(env, tables, cs) == Failure(error) && Leftover(env, tables, cs) == tables
  {
    if NoScope(env, cs[0], error) {
      ScopeFailsIff(env, cs[0], error);
    } else {
      var tenant, id, run :| InScope(env, cs[0], tenant, id, run) && id !in tables.rows;
      NamedScope(env, cs[0], tenant, id, run);
    }
  }

  /** Any other failing batch fails for the first command that is not about the scope of the first. */
  lemma BatchFailsAt(env: Env, tables: Tables, cs: seq<Command>, tenant: string, id: string, run: Option<string>, k: nat, error: Error)
    requires 0 < k < |cs| && RowGiven(tables, cs[0], id)
    requires AllInScope(env, cs, k, tenant, id, run) && OutOfScope(env, cs[k], tenant, id, run, error)
    ensures BatchOutcome(env, tables, cs) == Failure(error)
  {
    NamedScope(env, cs[0], tenant, id, run);
    FirstErrorOf(env, PrepareScope(env, cs[0]).value, cs, k, error);
  }

  /** The first run that differs from that of the first command, or their number. */
  lemma FirstDifferent(runs: seq<Option<string>>) returns (k: nat)
    requires runs != []
    ensures 0 < k <= |runs| && (forall j | 0 <= j < k :: runs[j] == runs[0]) && (k < |runs| ==> runs[k] != runs[0])
  {
    k := 1;
    while k < |runs| && runs[k] == runs[0]
      invariant 0 < k <= |runs| && forall j | 0 <= j < k :: runs[j] == runs[0]
    {
      k := k + 1;
    }
  }

  lemma OtherRun(env: Env, c: Command, tenant: string, id: string, own: Option<string>, run: Option<string>)
    requires InScope(env, c, tenant, id, own) && own != run
    ensures OutOfScope(env, c, tenant, id, run, MixedRun)
  {
  }

  /** Commands of one tenant and lifecycle: the batch succeeds if they also name one run or none, and otherwise fails as mixing runs. */
  lemma MixedRunIff(env: Env, tables: Tables, cs: seq<Command>, tenant: string, id: string, runs: seq<Option<string>>)
    requires cs != [] && |runs| == |cs| && RowGiven(tables, cs[0], id)
    requires forall k | 0 <= k < |cs| :: InScope(env, cs[k], tenant, id, runs[k])
    ensures BatchOutcome(env, tables, cs).Success? <==> forall k | 0 <= k < |cs| :: runs[k] == runs[0]
    ensures BatchOutcome(env, tables, cs).Failure? ==> BatchOutcome(env, tables, cs) == Failure(MixedRun)
  {
    var k := FirstDifferent(runs);
    assert AllInScope(env, cs, k, tenant, id, runs[0]);
    if k < |cs| {
      OtherRun(env, cs[k], tenant, id, runs[k], runs[0]);
      BatchFailsAt(env, tables, cs, tenant, id, runs[0], k, MixedRun);
    } else {
      BatchSucceedsIff(env, tables, cs);
    }
  }

  // ----- what a batch logs

  /** How many of the first `n` commands are logged. */
  function Recorded(cs: seq<Command>, n: nat): nat
    requires n <= |cs|
  {
    if n == 0 then 0 else Recorded(cs, n - 1) + if cs[n - 1].recordActivity then 1 else 0
  }

  /** The actor of a command: its own, else the first command's, else the system. */
  predicate IsActor(actorType: ActorType, actorId: Option<string>, first: Command, c: Command) {
    && (actorType == if c.actorType.Some? then c.actorType.value else if first.actorType.Some? then first.actorType.value else System)
    && (actorId == if HasText(c.actorId) then Some(Strip(c.actorId.value))
        else if HasText(first.actorId) then Some(Strip(first.actorId.value))
        else if first.actorType == Some(User) then None else Some("00000000-0000-0000-0000-000000000001"))
  }

  /** The log row of `c` in a batch begun by `first`. */
  predicate IsLogOf(row: LogRow, first: Command, c: Command, tenant: string, id: string, run: Option<string>) {
    && row.tenant == tenant && row.lifecycleId == id && row.runId == run
    && row.activityType == c.activityType && row.communicationId == c.communicationId && row.details == c.details
    && IsActor(row.actorType, row.actorId, first, c)
  }

  /** One row per logged command, in order, each with the status columns of its step. */
  predicate IsLog(log: seq<LogRow>, cs: seq<Command>, n: nat, trace: seq<LogFields>, tenant: string, id: string, run: Option<string>)
    requires 0 < |cs| && n <= |cs|
  {
    && |log| == Recorded(cs, n) && |trace| == n
    && forall k | 0 <= k < n && cs[k].recordActivity ::
         && Recorded(cs, k) < |log|
         && IsLogOf(log[Recorded(cs, k)], cs[0], cs[k], tenant, id, run)
         && log[Recorded(cs, k)].fields == trace[k]
  }

  lemma {:induction false} RecordedGrows(cs: seq<Command>, k: nat, n: nat)
    requires k < n <= |cs| && cs[k].recordActivity
    ensures Recorded(cs, k) < Recorded(cs, n)
  {
    if k < n - 1 { RecordedGrows(cs, k, n - 1); }
  }

  lemma StepLogMeaning(env: Env, first: Command, scope: Scope, c: Command, fields: LogFields)
    requires PrepareScope(env, first) == Success(scope)
    ensures |StepLog(scope, c, fields)| == if c.recordActivity then 1 else 0
    ensures c.recordActivity ==>
              var row := StepLog(scope, c, fields)[0];
              IsLogOf(row, first, c, scope.tenant, scope.lifecycleId, scope.runId) && row.fields == fields
  {
  }

  lemma {:induction false} LogSoFar(env: Env, start: Option<Row>, pause: PauseContext, scope: Scope, cs: seq<Command>, n: nat)
    requires cs != [] && n <= |cs| && PrepareScope(env, cs[0]) == Success(scope)
    ensures var p := After(start, pause, scope, cs, n);
            IsLog(p.log, cs, n, p.trace, scope.tenant, scope.lifecycleId, scope.runId)
  {
    if n > 0 {
      var j := n - 1;
      LogSoFar(env, start, pause, scope, cs, j);
      var q, p := After(start, pause, scope, cs, j), After(start, pause, scope, cs, n);
      assert p == Step(start, pause, scope, cs[j], q);
      var fields := StepFields(start, pause, cs[j], q.current);
      StepLogMeaning(env, cs[0], scope, cs[j], fields);
      LogStep(cs, j, q.log, q.trace, StepLog(scope, cs[j], fields), fields, scope.tenant, scope.lifecycleId, scope.runId);
    }
  }

  lemma LogStep(cs: seq<Command>, j: nat, log: seq<LogRow>, trace: seq<LogFields>, more: seq<LogRow>, fields: LogFields,
                tenant: string, id: string, run: Option<string>)
    requires j < |cs| && IsLog(log, cs, j, trace, tenant, id, run)
    requires |more| == if cs[j].recordActivity then 1 else 0
    requires cs[j].recordActivity ==> IsLogOf(more[0], cs[0], cs[j], tenant, id, run) && more[0].fields == fields
    ensures IsLog(log + more, cs, j + 1, trace + [fields], tenant, id, run)
  {
    forall k | 0 <= k < j && cs[k].recordActivity ensures Recorded(cs, k) < |log| {
      RecordedGrows(cs, k, j);
    }
  }

  /**
   A batch about one scope leaves every other row alone, and appends one log row per recorded
   command, in order: with the tenant, lifecycle and run that the commands name, the
   command's own activity, communication and details, its actor, and the status columns of
   its step.
   */
  lemma BatchWrites(env: Env, tables: Tables, cs: seq<Command>, tenant: string, id: string, run: Option<string>) returns (log: seq<LogRow>)
    requires cs != [] && AllInScope(env, cs, |cs|, tenant, id, run) && RowGiven(tables, cs[0], id)
    ensures BatchOutcome(env, tables, cs).Success?
    ensures var after := BatchOutcome(env, tables, cs).value;
            && after.rows.Keys == tables.rows.Keys
            && (forall other | other in tables.rows && other != id :: after.rows[other] == tables.rows[other])
            && after.log == tables.log + log
            && IsLog(log, cs, |cs|, Done(RowAt(tables.rows, id), PrepareScope(env, cs[0]).value, cs).trace, tenant, id, run)
  {
    NamedScope(env, cs[0], tenant, id, run);
    var s := PrepareScope(env, cs[0]).value;
    FirstErrorIff(env, s, cs, |cs|);
    var start := RowAt(tables.rows, id);
    log := BatchLog(start, s, cs);
    LogSoFar(env, start, PauseContextOf(cs), s, cs, |cs|);
    RowPresence(start, PauseContextOf(cs), s, cs, |cs|);
  }

  /** A batch refused at its command `k` has written the rows of the commands before it when the transaction is not its own. */
  lemma LeftoverWrites(env: Env, tables: Tables, cs: seq<Command>, tenant: string, id: string, run: Option<string>, k: nat, error: Error)
    returns (log: seq<LogRow>)
    requires 0 < k < |cs| && RowGiven(tables, cs[0], id)
    requires AllInScope(env, cs, k, tenant, id, run) && OutOfScope(env, cs[k], tenant, id, run, error)
    ensures var left := Leftover(env, tables, cs);
            && left.rows.Keys == tables.rows.Keys
            && (forall other | other in tables.rows && other != id :: left.rows[other] == tables.rows[other])
            && left.log == tables.log + log
            && RowAt(left.rows, id) == After(RowAt(tables.rows, id), PauseContextOf(cs), PrepareScope(env, cs[0]).value, cs, k).row
            && IsLog(log, cs, k, After(RowAt(tables.rows, id), PauseContextOf(cs), PrepareScope(env, cs[0]).value, cs, k).trace, tenant, id, run)
  {
    NamedScope(env, cs[0], tenant, id, run);
    var s := PrepareScope(env, cs[0]).value;
    FirstErrorOf(env, s, cs, k, error);
    var start := RowAt(tables.rows, id);
    log := After(start, PauseContextOf(cs), s, cs, k).log;
    LogSoFar(env, start, PauseContextOf(cs), s, cs, k);
    RowPresence(start, PauseContextOf(cs), s, cs, k);
  }

  lemma {:induction false} RowPresence(start: Option<Row>, pause: PauseContext, scope: Scope, cs: seq<Command>, n: nat)
    requires cs != [] && n <= |cs|
    ensures After(start, pause, scope, cs, n).row.Some? <==> start.Some?
  {
    if n > 0 { RowPresence(start, pause, scope, cs, n - 1); }
  }

  // ----- a batch without a row

  /** The last snapshot among the commands up to `k`, or the first command. */
  predicate IsBase(cs: seq<Command>, k: nat, j: nat)
    requires k < |cs|
  {
    && j <= k
    && (j == 0 || IsSnapshot(cs[j].activityType))
    && forall i | j < i <= k :: !IsSnapshot(cs[i].activityType)
  }

  /**
   Without a row nothing is threaded: each step logs from the pair its command was given, or,
   for a transition, from that of the last snapshot before it or of the first command; a
   snapshot stays there, and a transition goes where it says.
   */
  lemma {:induction false} TraceWithoutRow(pause: PauseContext, scope: Scope, cs: seq<Command>, n: nat, k: nat, j: nat)
    requires k < n <= |cs| && IsBase(cs, k, j)
    ensures |After(None, pause, scope, cs, n).trace| == n
    ensures var fields := After(None, pause, scope, cs, n).trace[k];
            && fields.from.status == cs[j].fromStatus.GetOr(NoStatus) && fields.from.sub == cs[j].fromSub.GetOr(NoSubStatus)
            && (IsSnapshot(cs[k].activityType) ==> fields.to == fields.from)
            && (!IsSnapshot(cs[k].activityType) ==>
                  && fields.to.sub == cs[k].toSub.GetOr(fields.from.sub)
                  && fields.to.status == if cs[k].toStatus.Some? then cs[k].toStatus.value
                                         else if cs[k].updateLifecycle && !pause.hasException && cs[k].toSub.Some? && cs[j].fromStatus == Some(PendingReview)
                                         then Processing else fields.from.status)
  {
    var m := n - 1;
    if k < m {
      TraceWithoutRow(pause, scope, cs, m, k, j);
    } else {
      CurrentWithoutRow(pause, scope, cs, k, j);
      TraceCount(pause, scope, cs, k);
    }
  }

  lemma {:induction false} TraceCount(pause: PauseContext, scope: Scope, cs: seq<Command>, n: nat)
    requires cs != [] && n <= |cs|
    ensures |After(None, pause, scope, cs, n).trace| == n
  {
    if n > 0 { TraceCount(pause, scope, cs, n - 1); }
  }

  /** The state step `k` looks at. */
  lemma {:induction false} CurrentWithoutRow(pause: PauseContext, scope: Scope, cs: seq<Command>, k: nat, j: nat)
    requires k < |cs| && IsBase(cs, k, j)
    ensures StepCurrent(None, cs[k], After(None, pause, scope, cs, k).current) == Current(cs[j].fromStatus, cs[j].fromSub)
  {
    if k > 0 && !IsSnapshot(cs[k].activityType) {
      var i := k - 1;
      assert IsBase(cs, i, j) by { assert j <= i; }
      CurrentWithoutRow(pause, scope, cs, i, j);
      assert After(None, pause, scope, cs, k) == Step(None, pause, scope, cs[i], After(None, pause, scope, cs, i));
    }
  }
}
