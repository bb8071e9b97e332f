/**
 Lifecycle transitions: batches of commands against one locked `workflow_lifecycles`
 row and the `activity_logs` table (app/services/lifecycle_transition_service.py,
 app/domain/activity_log_fields.py, app/repositories/workflow_lifecycles_repository.py).

 The functions say what one step and one batch do; the methods of the service do it
 in place, and `Apply` and `ApplySequence` are tied to `BatchOutcome`.
 */
module LifecycleTransition {
  import opened Wrappers
  import opened Text

  // ----- values

  datatype ActivityType = Action | Exception | Info | StatusChange | SubStatusChange

  predicate IsSnapshot(activityType: ActivityType) {
    activityType.Action? || activityType.Exception? || activityType.Info?
  }

  datatype Status = NoStatus | PendingReview | Processing | Completed | Failed

  datatype SubStatus =
    | NoSubStatus
    | TenderCreated
    | TenderSentToTenant | TenderSentToTenantForCarrier1 | TenderSentToTenantForCarrier2 | TenderSentToTenantForCarrier3
    | TenderSentToCarrier | TenderSentToCarrier1 | TenderSentToCarrier2 | TenderSentToCarrier3
    | Reminder1Sent | Reminder2Sent | Reminder3Sent | Reminder4Sent
    | PodStarted | DriverAssignmentStarted | Accepted | Rejected | DoNothing | Escalated
    | RateconStarted | DocumentUploaded | DocumentProcessed | UploadedToTms | Cancelled | ResolvedManually
    | AppointmentSchedulingStarted | AppointmentDraftCreated | AwaitingCustomerReply | AppointmentScheduled

  datatype PauseType = SystemError | BusinessException

  datatype ActorType = System | User

  const SYSTEM_ACTOR_ID := "00000000-0000-0000-0000-000000000001"

  /** `details` stands for the description and metadata, which are only passed on to the log. */
  datatype Command = Command(
    tenantId: string,
    activityType: ActivityType,
    lifecycleId: string,
    runId: Option<string>,
    toStatus: Option<Status>,
    toSub: Option<SubStatus>,
    details: string,
    communicationId: Option<string>,
    actorType: Option<ActorType>,
    actorId: Option<string>,
    fromStatus: Option<Status>,
    fromSub: Option<SubStatus>,
    updateLifecycle: bool,
    recordActivity: bool,
    requireRow: bool,
    pauseType: Option<PauseType>)

  /** A `workflow_lifecycles` row; None is SQL NULL. */
  datatype Row = Row(status: Option<Status>, sub: Option<SubStatus>, pause: Option<PauseType>)

  datatype LogRow = LogRow(
    tenant: string,
    lifecycleId: string,
    runId: Option<string>,
    activityType: ActivityType,
    fields: LogFields,
    actorType: ActorType,
    actorId: Option<string>,
    communicationId: Option<string>,
    details: string)

  /** The status columns of a log row: from-pair and to-pair. */
  datatype LogFields = LogFields(from: Pair, to: Pair)

  /** A status and sub-status as logged, where NULL reads `none`. */
  datatype Pair = Pair(status: Status, sub: SubStatus)

  /** The state a batch threads from step to step; None is not known (SQL NULL). */
  datatype Current = Current(status: Option<Status>, sub: Option<SubStatus>)

  datatype Error =
    | UnknownTenant | LifecycleRequired | InvalidUuid | RowNotFound
    | MixedTenant | MixedLifecycle | MixedRun

  /** Outside lookups: tenant slug or id to tenant uuid, and `uuid.UUID` parsing. */
  datatype Env = Env(tenants: map<string, string>, uuids: map<string, string>)

  // ----- scope of a command

  /** `_clean`: None for a missing or blank value. */
  function Clean(value: Option<string>): Option<string> {
    if value.Some? && Strip(value.value) != "" then Some(Strip(value.value)) else None
  }

  function ResolveTenant(env: Env, tenantId: string): Option<string> {
    var key := Clean(Some(tenantId));
    if key.Some? && key.value in env.tenants then Some(env.tenants[key.value]) else None
  }

  function ParseUuid(env: Env, raw: string): Result<string, Error> {
    var key := Clean(Some(raw));
    if key.None? then Failure(LifecycleRequired)
    else if key.value in env.uuids then Success(env.uuids[key.value])
    else Failure(InvalidUuid)
  }

  function ParseRun(env: Env, runId: Option<string>): Result<Option<string>, Error> {
    if Clean(runId).None? then Success(None)
    else
      var run :- ParseUuid(env, runId.value);
      Success(Some(run))
  }

  datatype Scope = Scope(tenant: string, lifecycleId: string, runId: Option<string>, actorType: ActorType, actorId: Option<string>)

  /** `_prepare_scope` */
  function PrepareScope(env: Env, c: Command): Result<Scope, Error> {
    var tenant := ResolveTenant(env, c.tenantId);
    if tenant.None? then Failure(UnknownTenant)
    else
      var lifecycleId :- ParseUuid(env, c.lifecycleId);
      var runId :- ParseRun(env, c.runId);
      var actorType := c.actorType.GetOr(System);
      var actorId := Clean(c.actorId);
      Success(Scope(tenant.value, lifecycleId, runId, actorType,
                    if actorId.None? && actorType.System? then Some(SYSTEM_ACTOR_ID) else actorId))
  }

  /** The checks each command of a batch must pass against the scope of the first. */
  function CheckCommand(env: Env, scope: Scope, c: Command): Option<Error> {
    if ResolveTenant(env, c.tenantId) != Some(scope.tenant) then Some(MixedTenant)
    else
      var lifecycleId := ParseUuid(env, c.lifecycleId);
      if lifecycleId.Failure? then Some(lifecycleId.error)
      else if lifecycleId.value != scope.lifecycleId then Some(MixedLifecycle)
      else
        var runId := ParseRun(env, c.runId);
        if runId.Failure? then Some(runId.error)
        else if runId.value != scope.runId then Some(MixedRun)
        else None
  }

  /** The first error among the first `n` commands. */
  function FirstError(env: Env, scope: Scope, cs: seq<Command>, n: nat): Option<Error>
    requires n <= |cs|
  {
    if n == 0 then None
    else
      var earlier := FirstError(env, scope, cs, n - 1);
      if earlier.Some? then earlier else CheckCommand(env, scope, cs[n - 1])
  }

  /** How many of the first `n` commands come before the first one with an error. */
  function ErrorAt(env: Env, scope: Scope, cs: seq<Command>, n: nat): (k: nat)
    requires n <= |cs|
    ensures k <= n
    ensures FirstError(env, scope, cs, k).None?
    ensures k < n ==> FirstError(env, scope, cs, k + 1).Some?
  {
    if n == 0 then 0
    else
      var k := ErrorAt(env, scope, cs, n - 1);
      if k < n - 1 || FirstError(env, scope, cs, n).Some? then k else n
  }

  // ----- one step

  datatype PauseContext = PauseContext(hasException: bool, pauseType: Option<PauseType>)

  function HasException(cs: seq<Command>): bool {
    exists k | 0 <= k < |cs| :: cs[k].activityType.Exception?
  }

  /** The first explicit pause among the exception commands. */
  function FirstPause(cs: seq<Command>): Option<PauseType> {
    if cs == [] then None
    else if cs[0].activityType.Exception? && cs[0].pauseType.Some? then cs[0].pauseType
    else FirstPause(cs[1..])
  }

  function PauseContextOf(cs: seq<Command>): PauseContext {
    PauseContext(HasException(cs),
                 if HasException(cs) && FirstPause(cs).None? then Some(SystemError) else FirstPause(cs))
  }

  /** `status_for_log`, `sub_status_for_log` */
  function Norm(current: Current): Pair {
    Pair(current.status.GetOr(NoStatus), current.sub.GetOr(NoSubStatus))
  }

  function RowCurrent(row: Row): Current {
    Current(row.status, row.sub)
  }

  /** `_resolve_current_status` */
  function ResolveCurrent(c: Command, row: Option<Row>): Current {
    if row.None? then Current(c.fromStatus, c.fromSub)
    else if IsSnapshot(c.activityType) then RowCurrent(row.value)
    else Current(if c.fromStatus.Some? then c.fromStatus else row.value.status,
                 if c.fromSub.Some? then c.fromSub else row.value.sub)
  }

  /** `build_activity_log_status_fields` */
  function BuildLogFields(c: Command, current: Current): LogFields {
    var from := Norm(current);
    if IsSnapshot(c.activityType) then LogFields(from, from)
    else LogFields(from, Pair(c.toStatus.GetOr(from.status), c.toSub.GetOr(from.sub)))
  }

  /** A snapshot step looks at the row fetched when the batch began; others at the threaded state. */
  function StepCurrent(start: Option<Row>, c: Command, current: Current): Current {
    if IsSnapshot(c.activityType) then ResolveCurrent(c, start) else current
  }

  /** The command with `to_status` raised from `pending_review` to `processing` when it moves on. */
  function Effective(c: Command, pause: PauseContext, current: Current): Command {
    if !IsSnapshot(c.activityType) && c.updateLifecycle && !pause.hasException
       && c.toStatus.None? && c.toSub.Some? && current.status == Some(PendingReview)
    then c.(toStatus := Some(Processing)) else c
  }

  function StepCommand(start: Option<Row>, pause: PauseContext, c: Command, current: Current): Command {
    Effective(c, pause, StepCurrent(start, c, current))
  }

  function StepFields(start: Option<Row>, pause: PauseContext, c: Command, current: Current): LogFields {
    BuildLogFields(StepCommand(start, pause, c, current), StepCurrent(start, c, current))
  }

  predicate Moves(start: Option<Row>, c: Command) {
    c.updateLifecycle && !IsSnapshot(c.activityType) && start.Some?
  }

  predicate Writes(start: Option<Row>, c: Command) {
    Moves(start, c) && (c.toStatus.Some? || c.toSub.Some?)
  }

  datatype LifecycleUpdate = LifecycleUpdate(status: Option<Status>, sub: Option<SubStatus>, pause: Option<PauseType>, clearPause: bool)
  {
    predicate HasChanges() {
      status.Some? || sub.Some? || pause.Some? || clearPause
    }
  }

  function Updated(row: Row, update: LifecycleUpdate): Row {
    Row(if update.status.Some? then update.status else row.status,
        if update.sub.Some? then update.sub else row.sub,
        if update.pause.Some? then update.pause else if update.clearPause then None else row.pause)
  }

  function StepUpdate(c: Command, pause: PauseContext): LifecycleUpdate {
    LifecycleUpdate(c.toStatus, c.toSub, if pause.hasException then pause.pauseType else None, !pause.hasException)
  }

  function StepRow(start: Option<Row>, pause: PauseContext, c: Command, current: Current, row: Option<Row>): Option<Row> {
    var eff := StepCommand(start, pause, c, current);
    if Writes(start, eff) && row.Some? then Some(Updated(row.value, StepUpdate(eff, pause))) else row
  }

  function StepNext(start: Option<Row>, pause: PauseContext, c: Command, current: Current): Current {
    var to := StepFields(start, pause, c, current).to;
    if Moves(start, c) then Current(Some(to.status), Some(to.sub)) else StepCurrent(start, c, current)
  }

  /** A command without its own actor takes the one of the batch's first command. */
  function StepActor(scope: Scope, c: Command): (ActorType, Option<string>) {
    (c.actorType.GetOr(scope.actorType), if Clean(c.actorId).Some? then Clean(c.actorId) else scope.actorId)
  }

  function StepLog(scope: Scope, c: Command, fields: LogFields): seq<LogRow> {
    if !c.recordActivity then []
    else
      var (actorType, actorId) := StepActor(scope, c);
      [LogRow(scope.tenant, scope.lifecycleId, scope.runId, c.activityType, fields, actorType, actorId, c.communicationId, c.details)]
  }

  // ----- a batch

  /**
   What a batch has done so far: the threaded state, the row, the log rows written, the
   status columns of every step (logged or not), and whether a step wrote the row.
   */
  datatype Progress = Progress(current: Current, row: Option<Row>, log: seq<LogRow>, trace: seq<LogFields>, wrote: bool)

  /** What `_apply_one_step` does with the threaded state and the stored row. */
  function StepEffect(start: Option<Row>, pause: PauseContext, scope: Scope, c: Command, current: Current, row: Option<Row>): Progress {
    var fields := StepFields(start, pause, c, current);
    Progress(
      StepNext(start, pause, c, current),
      StepRow(start, pause, c, current, row),
      StepLog(scope, c, fields),
      [fields],
      Writes(start, StepCommand(start, pause, c, current)))
  }

  function Step(start: Option<Row>, pause: PauseContext, scope: Scope, c: Command, p: Progress): Progress {
    var effect := StepEffect(start, pause, scope, c, p.current, p.row);
    Progress(effect.current, effect.row, p.log + effect.log, p.trace + effect.trace, p.wrote || effect.wrote)
  }

  function Begin(start: Option<Row>, cs: seq<Command>): Progress
    requires cs != []
  {
    Progress(ResolveCurrent(cs[0], start), start, [], [], false)
  }

  /** The progress after the first `n` commands. */
  function After(start: Option<Row>, pause: PauseContext, scope: Scope, cs: seq<Command>, n: nat): Progress
    requires cs != [] && n <= |cs|
  {
    if n == 0 then Begin(start, cs) else Step(start, pause, scope, cs[n - 1], After(start, pause, scope, cs, n - 1))
  }

  /** The progress after the whole batch. */
  function Done(start: Option<Row>, scope: Scope, cs: seq<Command>): Progress
    requires cs != []
  {
    After(start, PauseContextOf(cs), scope, cs, |cs|)
  }

  /** The row after the steps and the closing pause write. */
  function BatchRow(start: Option<Row>, scope: Scope, cs: seq<Command>): Option<Row>
    requires cs != []
  {
    Closed(PauseContextOf(cs), Done(start, scope, cs))
  }

  function Closed(pause: PauseContext, end: Progress): Option<Row> {
    if pause.hasException && !end.wrote && end.row.Some?
    then Some(Updated(end.row.value, LifecycleUpdate(None, None, pause.pauseType, false))) else end.row
  }

  function BatchLog(start: Option<Row>, scope: Scope, cs: seq<Command>): seq<LogRow>
    requires cs != []
  {
    Done(start, scope, cs).log
  }

  datatype Tables = Tables(rows: map<string, Row>, log: seq<LogRow>)

  function RowAt(rows: map<string, Row>, id: string): Option<Row> {
    if id in rows then Some(rows[id]) else None
  }

  function WithRow(rows: map<string, Row>, id: string, row: Option<Row>): map<string, Row> {
    if row.Some? then rows[id := row.value] else rows
  }

  /** The tables after some progress on one lifecycle. */
  function Extended(tables: Tables, id: string, p: Progress): Tables {
    Tables(WithRow(tables.rows, id, p.row), tables.log + p.log)
  }

  /** What a batch does to the tables as one transaction: all of it, or an error and nothing. */
  function BatchOutcome(env: Env, tables: Tables, cs: seq<Command>): Result<Tables, Error>
    requires cs != []
  {
    var scope :- PrepareScope(env, cs[0]);
    var start := RowAt(tables.rows, scope.lifecycleId);
    if start.None? && cs[0].requireRow then Failure(RowNotFound)
    else if FirstError(env, scope, cs, |cs|).Some? then Failure(FirstError(env, scope, cs, |cs|).value)
    else Success(Tables(WithRow(tables.rows, scope.lifecycleId, BatchRow(start, scope, cs)), tables.log + BatchLog(start, scope, cs)))
  }

  /** What a failing batch has written by the time it fails: the steps before the first command of another scope. */
  function Leftover(env: Env, tables: Tables, cs: seq<Command>): Tables
    requires cs != []
  {
    if PrepareScope(env, cs[0]).Failure? then tables
    else
      var scope := PrepareScope(env, cs[0]).value;
      var start := RowAt(tables.rows, scope.lifecycleId);
      if start.None? && cs[0].requireRow then tables
      else Extended(tables, scope.lifecycleId, After(start, PauseContextOf(cs), scope, cs, ErrorAt(env, scope, cs, |cs|)))
  }

  // ----- the repository and the service

  class Database {
    var rows: map<string, Row>
    var log: seq<LogRow>

    constructor ()
      ensures rows == map[] && log == []
    {
      rows, log := map[], [];
    }

    function Contents(): Tables
      reads this
    {
      Tables(rows, log)
    }

    /** `update_lifecycle`: one UPDATE statement; false when nothing matched. */
    method UpdateLifecycle(lifecycleId: string, update: LifecycleUpdate) returns (updated: bool)
      modifies this
      ensures log == old(log)
      ensures updated <==> update.HasChanges() && lifecycleId in old(rows)
      ensures rows == if updated then old(rows)[lifecycleId := Updated(old(rows)[lifecycleId], update)] else old(rows)
    {
      if !update.HasChanges() { return false; }
      if lifecycleId !in rows { return false; }
      var row := rows[lifecycleId];
      if update.status.Some? { row := row.(status := update.status); }
      if update.sub.Some? { row := row.(sub := update.sub); }
      if update.pause.Some? {
        row := row.(pause := update.pause);
      } else if update.clearPause {
        row := row.(pause := None);
      }
      rows := rows[lifecycleId := row];
      updated := true;
    }
  }

  class LifecycleTransitionService {
    const db: Database
    const env: Env
    const injected: bool   // works in a transaction of its caller's, on the caller's repositories

    constructor (db: Database, env: Env, injected: bool)
      ensures this.db == db && this.env == env && this.injected == injected
    {
      this.db, this.env, this.injected := db, env, injected;
    }

    /** `_apply_one_step` */
    method ApplyOneStep(c: Command, scope: Scope, row: Option<Row>, current: Current, pause: PauseContext)
      returns (pauseWritten: bool, next: Current)
      requires row.Some? <==> scope.lifecycleId in db.rows
      modifies db
      ensures var effect := StepEffect(row, pause, scope, c, current, RowAt(old(db.rows), scope.lifecycleId));
              && db.Contents() == Extended(old(db.Contents()), scope.lifecycleId, effect)
              && pauseWritten == effect.wrote
              && next == effect.current
              && (effect.row.Some? <==> row.Some?)
    {
      var snapshot := IsSnapshot(c.activityType);
      var step := current;
      if snapshot {
        step := ResolveCurrent(c, row);
      }
      var effective := c;
      if !snapshot && c.updateLifecycle && !pause.hasException
         && c.toStatus.None? && c.toSub.Some? && step.status == Some(PendingReview) {
        effective := c.(toStatus := Some(Processing));
      }
      var fields := BuildLogFields(effective, step);
      pauseWritten, next := false, step;
      if effective.updateLifecycle && !snapshot && row.Some? {
        if effective.toStatus.Some? || effective.toSub.Some? {
          var _ := db.UpdateLifecycle(scope.lifecycleId, StepUpdate(effective, pause));
          pauseWritten := true;
        }
        next := Current(Some(fields.to.status), Some(fields.to.sub));
      }
      if effective.recordActivity {
        var (actorType, actorId) := StepActor(scope, effective);
        db.log := db.log + [LogRow(scope.tenant, scope.lifecycleId, scope.runId, effective.activityType, fields,
                                   actorType, actorId, effective.communicationId, effective.details)];
      }
    }

    /** `apply`: one command in its own transaction. */
    method Apply(c: Command) returns (r: Result<(), Error>)
      modifies db
      ensures var outcome := BatchOutcome(env, old(db.Contents()), [c]);
              match outcome
              case Success(tables) => r == Success(()) && db.Contents() == tables
              case Failure(error) => r == Failure(error) && db.Contents() == old(db.Contents())
    {
      var prepared := PrepareScope(env, c);
      if prepared.Failure? { return Failure(prepared.error); }
      var scope := prepared.value;
      var row := RowAt(db.rows, scope.lifecycleId);
      if row.None? && c.requireRow { return Failure(RowNotFound); }
      var current := ResolveCurrent(c, row);
      var pause := PauseContextOf([c]);
      SingleOutcome(env, db.Contents(), c);
      var pauseWritten, _ := ApplyOneStep(c, scope, row, current, pause);
      if pause.hasException && !pauseWritten && row.Some? {
        var _ := db.UpdateLifecycle(scope.lifecycleId, LifecycleUpdate(None, None, pause.pauseType, false));
      }
      r := Success(());
    }

    /** The loop of `_apply_sequence_in_transaction`: stops at the first command of another scope. */
    method ApplySteps(commands: seq<Command>, scope: Scope, row: Option<Row>, pause: PauseContext)
      returns (error: Option<Error>, anyPauseWritten: bool)
      requires commands != [] && row == RowAt(db.rows, scope.lifecycleId)
      modifies db
      ensures error == FirstError(env, scope, commands, |commands|)
      ensures error.None? ==>
                var end := After(row, pause, scope, commands, |commands|);
                && (end.row.Some? <==> row.Some?)
                && db.Contents() == Extended(old(db.Contents()), scope.lifecycleId, end)
                && anyPauseWritten == end.wrote
      ensures error.Some? ==>
                db.Contents() == Extended(old(db.Contents()), scope.lifecycleId,
                                          After(row, pause, scope, commands, ErrorAt(env, scope, commands, |commands|)))
    {
      ghost var before := db.Contents();
      ghost var p := Begin(row, commands);
      var current := ResolveCurrent(commands[0], row);
      anyPauseWritten := false;
      for i := 0 to |commands|
        invariant FirstError(env, scope, commands, i).None?
        invariant p == After(row, pause, scope, commands, i) && (p.row.Some? <==> row.Some?)
        invariant current == p.current && anyPauseWritten == p.wrote
        invariant db.Contents() == Extended(before, scope.lifecycleId, p)
      {
        error := CheckCommand(env, scope, commands[i]);
        if error.Some? {
          FirstErrorStays(env, scope, commands, i + 1, |commands|);
          FirstErrorIsAt(env, scope, commands, i);
          return;
        }
        ExtendedTwice(before, scope.lifecycleId, p, StepEffect(row, pause, scope, commands[i], current, p.row));
        var pauseWritten;
        pauseWritten, current := ApplyOneStep(commands[i], scope, row, current, pause);
        anyPauseWritten := anyPauseWritten || pauseWritten;
        p := Step(row, pause, scope, commands[i], p);
      }
      error := None;
    }

    /** `_apply_sequence_in_transaction`: a failure leaves what had been written so far to the transaction around it. */
    method ApplySequenceInTransaction(commands: seq<Command>) returns (r: Result<(), Error>)
      requires commands != []
      modifies db
      ensures match BatchOutcome(env, old(db.Contents()), commands)
              case Success(tables) => r == Success(()) && db.Contents() == tables
              case Failure(error) => r == Failure(error) && db.Contents() == Leftover(env, old(db.Contents()), commands)
    {
      var prepared := PrepareScope(env, commands[0]);
      if prepared.Failure? { return Failure(prepared.error); }
      var scope := prepared.value;
      var row := RowAt(db.rows, scope.lifecycleId);
      if row.None? && commands[0].requireRow { return Failure(RowNotFound); }
      var pause := PauseContextOf(commands);
      var error, anyPauseWritten := ApplySteps(commands, scope, row, pause);
      if error.Some? { return Failure(error.value); }
      if pause.hasException && !anyPauseWritten && row.Some? {
        var _ := db.UpdateLifecycle(scope.lifecycleId, LifecycleUpdate(None, None, pause.pauseType, false));
      }
      r := Success(());
    }

    /** `apply_sequence`: a batch, undone as a whole on an error when the transaction is its own. */
    method ApplySequence(commands: seq<Command>) returns (r: Result<(), Error>)
      modifies db
      ensures commands == [] ==> r == Success(()) && db.Contents() == old(db.Contents())
      ensures commands != [] ==>
                match BatchOutcome(env, old(db.Contents()), commands)
                case Success(tables) => r == Success(()) && db.Contents() == tables
                case Failure(error) =>
                  && r == Failure(error)
                  && db.Contents() == if injected then Leftover(env, old(db.Contents()), commands) else old(db.Contents())
    {
      if commands == [] { return Success(()); }
      if injected {
        r := ApplySequenceInTransaction(commands);
        return;
      }
      var savedRows, savedLog := db.rows, db.log;
      r := ApplySequenceInTransaction(commands);
      if r.Failure? {
        db.rows, db.log := savedRows, savedLog;
      }
    }
  }

  lemma ExtendedTwice(tables: Tables, id: string, p: Progress, q: Progress)
    requires p.row.Some? <==> id in tables.rows
    ensures RowAt(Extended(tables, id, p).rows, id) == p.row
    ensures (q.row.Some? <==> p.row.Some?) ==> Extended(Extended(tables, id, p), id, q) == Extended(tables, id, q.(log := p.log + q.log))
  {
    assert tables.log + p.log + q.log == tables.log + (p.log + q.log);
  }

  lemma SingleBatch(start: Option<Row>, scope: Scope, c: Command)
    ensures Done(start, scope, [c]) == StepEffect(start, PauseContextOf([c]), scope, c, ResolveCurrent(c, start), start)
  {
    var pause := PauseContextOf([c]);
    assert After(start, pause, scope, [c], 0) == Begin(start, [c]);
    assert After(start, pause, scope, [c], 1) == Step(start, pause, scope, c, Begin(start, [c]));
  }

  /** What a batch of one command does, in terms of its one step. */
  lemma SingleOutcome(env: Env, tables: Tables, c: Command)
    requires PrepareScope(env, c).Success?
    requires PrepareScope(env, c).value.lifecycleId in tables.rows || !c.requireRow
    ensures var scope, pause := PrepareScope(env, c).value, PauseContextOf([c]);
            var row := RowAt(tables.rows, scope.lifecycleId);
            var effect := StepEffect(row, pause, scope, c, ResolveCurrent(c, row), row);
            BatchOutcome(env, tables, [c])
            == Success(Tables(WithRow(tables.rows, scope.lifecycleId, Closed(pause, effect)), tables.log + effect.log))
  {
    var scope := PrepareScope(env, c).value;
    SingleBatch(RowAt(tables.rows, scope.lifecycleId), scope, c);
    assert CheckCommand(env, scope, c).None?;
    assert FirstError(env, scope, [c], 0).None?;
    assert FirstError(env, scope, [c], 1).None?;
  }

  predicate Fails(env: Env, scope: Scope, cs: seq<Command>, n: nat)
    requires n <= |cs|
  {
    FirstError(env, scope, cs, n).Some?
  }

  lemma {:induction false} FailsStays(env: Env, scope: Scope, cs: seq<Command>, n: nat, m: nat)
    requires n <= m <= |cs| && Fails(env, scope, cs, n)
    ensures Fails(env, scope, cs, m)
  {
    if n < m { FailsStays(env, scope, cs, n, m - 1); }
  }

  /** The first failing prefix is the only one whose longer prefixes alone fail. */
  lemma OneFirstError(fails: nat -> bool, i: nat, k: nat)
    requires forall n: nat, m: nat | n <= m && fails(n) :: fails(m)
    requires !fails(i) && fails(i + 1) && !fails(k) && fails(k + 1)
    ensures i == k
  {
    assert k < i ==> fails(i);
    assert i < k ==> fails(k);
  }

  lemma FirstErrorIsAt(env: Env, scope: Scope, cs: seq<Command>, i: nat)
    requires i < |cs| && FirstError(env, scope, cs, i).None? && FirstError(env, scope, cs, i + 1).Some?
    ensures ErrorAt(env, scope, cs, |cs|) == i
  {
    var fails := (n: nat) => if n <= |cs| then Fails(env, scope, cs, n) else true;
    forall n: nat, m: nat | n <= m && fails(n) ensures fails(m) {
      if m <= |cs| { FailsStays(env, scope, cs, n, m); }
    }
    FailsStays(env, scope, cs, i + 1, |cs|);
    var k := ErrorAt(env, scope, cs, |cs|);
    assert fails(i + 1) && !fails(i) && !fails(k) && fails(k + 1);
    OneFirstError(fails, i, k);
  }

  lemma {:induction false} FirstErrorStays(env: Env, scope: Scope, cs: seq<Command>, n: nat, m: nat)
    requires n <= m <= |cs| && FirstError(env, scope, cs, n).Some?
    ensures FirstError(env, scope, cs, m) == FirstError(env, scope, cs, n)
  {
    if n < m { FirstErrorStays(env, scope, cs, n, m - 1); }
  }
}
