/**
 The `communications` table (app/repositories/communications_repository.py): messages
 are inserted and then linked, once, to the workflow run that handled them.
 */
module Communications {
  import opened Wrappers

  /** Ids are canonical uuid texts; None is SQL NULL; times are any linear order. */
  datatype Comm = Comm(
    id: string,
    tenant: string,
    threadId: Option<string>,
    externalId: Option<string>,
    runId: Option<string>,
    lifecycleId: Option<string>,
    createdAt: int)

  // ----- linking

  /** `link_workflow_run` on one row. */
  function LinkRow(c: Comm, id: string, runId: string, lifecycleId: Option<string>): Comm {
    if c.id != id then c
    else if c.runId == Some(runId) then (if c.lifecycleId.None? then c.(lifecycleId := lifecycleId) else c)
    else if c.runId.None? then c.(runId := Some(runId), lifecycleId := if lifecycleId.Some? then lifecycleId else c.lifecycleId)
    else c
  }

  /** `link_workflow_run_to_thread` on one row. */
  function LinkThreadRow(c: Comm, tenant: string, thread: string, runId: string, lifecycleId: Option<string>): Comm {
    if c.tenant == tenant && c.threadId == Some(thread) && c.runId.None?
    then c.(runId := Some(runId), lifecycleId := if lifecycleId.Some? then lifecycleId else c.lifecycleId) else c
  }

  datatype Op =
    | Insert(row: Comm)
    | LinkRun(id: string, runId: string, lifecycleId: Option<string>)
    | LinkThread(tenant: string, thread: string, runId: string, lifecycleId: Option<string>)

  /** A second row with the same tenant and external id is skipped. */
  predicate Conflicts(rows: seq<Comm>, c: Comm) {
    c.externalId.Some? && exists k | 0 <= k < |rows| :: rows[k].tenant == c.tenant && rows[k].externalId == c.externalId
  }

  function UpdateAll(rows: seq<Comm>, f: Comm -> Comm): seq<Comm> {
    seq(|rows|, i requires 0 <= i < |rows| => f(rows[i]))
  }

  /** `insert` has no lifecycle column, so a new row has none. */
  function Next(rows: seq<Comm>, op: Op): seq<Comm> {
    match op
    case Insert(row) => if Conflicts(rows, row) then rows else rows + [row.(lifecycleId := None)]
    case LinkRun(id, runId, lifecycleId) => UpdateAll(rows, c => LinkRow(c, id, runId, lifecycleId))
    case LinkThread(tenant, thread, runId, lifecycleId) => UpdateAll(rows, c => LinkThreadRow(c, tenant, thread, runId, lifecycleId))
  }

  class CommunicationsRepository {
    var rows: seq<Comm>

    constructor ()
      ensures rows == []
    {
      rows := [];
    }

    /** False when the row was skipped as a duplicate. */
    method InsertRow(row: Comm) returns (inserted: bool)
      modifies this
      ensures rows == Next(old(rows), Insert(row))
      ensures inserted <==> |rows| == |old(rows)| + 1
    {
      if Conflicts(rows, row) { return false; }
      rows := rows + [row.(lifecycleId := None)];
      inserted := true;
    }

    /** True when the message is now linked to this run. */
    method LinkWorkflowRun(communicationId: string, workflowRunId: string, lifecycleId: Option<string>) returns (linked: bool)
      requires forall i, j | 0 <= i < j < |rows| :: rows[i].id != rows[j].id
      modifies this
      ensures rows == Next(old(rows), LinkRun(communicationId, workflowRunId, lifecycleId))
      ensures linked <==> exists k | 0 <= k < |rows| :: rows[k].id == communicationId && rows[k].runId == Some(workflowRunId)
    {
      ghost var before := rows;
      var existing := ExistingRun(communicationId);
      if existing == Some(workflowRunId) {
        ghost var k :| 0 <= k < |rows| && rows[k].id == communicationId && rows[k].runId == existing;
        FilledAlike(rows, communicationId, workflowRunId, lifecycleId, k);
        if lifecycleId.Some? {
          rows := UpdateAll(rows, (c: Comm) => if c.id == communicationId && c.lifecycleId.None? then c.(lifecycleId := lifecycleId) else c);
        }
        assert rows[k].id == communicationId && rows[k].runId == Some(workflowRunId);
        return true;
      }
      linked := exists k | 0 <= k < |rows| :: rows[k].id == communicationId && rows[k].runId.None?;
      assert forall k | 0 <= k < |before| && before[k].id == communicationId :: before[k].runId != Some(workflowRunId);
      rows := UpdateAll(rows, (c: Comm) =>
        if c.id == communicationId && c.runId.None?
        then c.(runId := Some(workflowRunId), lifecycleId := if lifecycleId.Some? then lifecycleId else c.lifecycleId) else c);
      assert rows == Next(before, LinkRun(communicationId, workflowRunId, lifecycleId));
      if linked {
        ghost var k :| 0 <= k < |before| && before[k].id == communicationId && before[k].runId.None?;
        assert rows[k].id == communicationId && rows[k].runId == Some(workflowRunId);
      }
    }

    method ExistingRun(communicationId: string) returns (runId: Option<string>)
      ensures (forall k | 0 <= k < |rows| :: rows[k].id != communicationId) ==> runId == None
      ensures (exists k | 0 <= k < |rows| :: rows[k].id == communicationId) ==>
                exists k | 0 <= k < |rows| :: rows[k].id == communicationId && runId == rows[k].runId
    {
      for i := 0 to |rows|
        invariant forall k | 0 <= k < i :: rows[k].id != communicationId
      {
        if rows[i].id == communicationId { return rows[i].runId; }
      }
      runId := None;
    }

    /** How many messages of the thread were linked. */
    method LinkWorkflowRunToThread(tenant: string, thread: string, workflowRunId: string, lifecycleId: Option<string>) returns (count: nat)
      modifies this
      ensures rows == Next(old(rows), LinkThread(tenant, thread, workflowRunId, lifecycleId))
      ensures count == |set i | 0 <= i < |rows| && rows[i] != old(rows)[i]|
    {
      var hit := set i | 0 <= i < |rows| && rows[i].tenant == tenant && rows[i].threadId == Some(thread) && rows[i].runId.None?;
      count := |hit|;
      ghost var before := rows;
      rows := Next(rows, LinkThread(tenant, thread, workflowRunId, lifecycleId));
      assert hit == set i | 0 <= i < |rows| && rows[i] != before[i];
    }
  }

  /** A message of the run, whose id no other has, gets the lifecycle when it has none; linking does no more. */
  lemma FilledAlike(rows: seq<Comm>, id: string, runId: string, lifecycleId: Option<string>, k: nat)
    requires k < |rows| && rows[k].id == id && rows[k].runId == Some(runId)
    requires forall i, j | 0 <= i < j < |rows| :: rows[i].id != rows[j].id
    ensures var after := Next(rows, LinkRun(id, runId, lifecycleId));
            && |after| == |rows|
            && (forall i | 0 <= i < |rows| ::
                  after[i] == if rows[i].id == id && rows[i].lifecycleId.None? then rows[i].(lifecycleId := lifecycleId) else rows[i])
            && (lifecycleId.None? ==> after == rows)
  {
    forall i | 0 <= i < |rows| && rows[i].id == id ensures i == k {
    }
  }

  // ----- what one operation does

  /** The row apart from its links. */
  predicate SameMessage(a: Comm, b: Comm) {
    a.id == b.id && a.tenant == b.tenant && a.threadId == b.threadId && a.externalId == b.externalId && a.createdAt == b.createdAt
  }

  /** A linked row has the operation's run, and its lifecycle when one is given. */
  predicate LinkedTo(c: Comm, later: Comm, runId: string, lifecycleId: Option<string>) {
    && SameMessage(c, later) && later.runId == Some(runId)
    && later.lifecycleId == if lifecycleId.Some? then lifecycleId else c.lifecycleId
  }

  /** A row that has the run already gets the lifecycle when it has none. */
  predicate FilledIn(c: Comm, later: Comm, lifecycleId: Option<string>) {
    SameMessage(c, later) && later.runId == c.runId && later.lifecycleId == if c.lifecycleId.Some? then c.lifecycleId else lifecycleId
  }

  /** A new row goes to the end, without a lifecycle, unless its external id is there for its tenant. */
  lemma InsertMeaning(rows: seq<Comm>, row: Comm)
    ensures var after := Next(rows, Insert(row));
            if row.externalId.Some? && (exists k | 0 <= k < |rows| :: rows[k].tenant == row.tenant && rows[k].externalId == row.externalId)
            then after == rows
            else
              && |after| == |rows| + 1 && after[..|rows|] == rows
              && SameMessage(row, after[|rows|]) && after[|rows|].runId == row.runId && after[|rows|].lifecycleId == None
  {
  }

  /** Linking one message: its unlinked row gets the run, its row of that run the missing lifecycle, and no other row changes. */
  lemma LinkRunMeaning(rows: seq<Comm>, id: string, runId: string, lifecycleId: Option<string>, k: nat)
    requires k < |rows|
    ensures var after := Next(rows, LinkRun(id, runId, lifecycleId));
            && |after| == |rows|
            && (rows[k].id == id && rows[k].runId == None ==> LinkedTo(rows[k], after[k], runId, lifecycleId))
            && (rows[k].id == id && rows[k].runId == Some(runId) ==> FilledIn(rows[k], after[k], lifecycleId))
            && (rows[k].id != id || (rows[k].runId.Some? && rows[k].runId.value != runId) ==> after[k] == rows[k])
  {
  }

  /** Linking a thread: the tenant's unlinked messages of the thread get the run, and no other row changes. */
  lemma LinkThreadMeaning(rows: seq<Comm>, tenant: string, thread: string, runId: string, lifecycleId: Option<string>, k: nat)
    requires k < |rows|
    ensures var after := Next(rows, LinkThread(tenant, thread, runId, lifecycleId));
            && |after| == |rows|
            && (if rows[k].tenant == tenant && rows[k].threadId == Some(thread) && rows[k].runId == None
                then LinkedTo(rows[k], after[k], runId, lifecycleId) else after[k] == rows[k])
  {
  }

  // ----- links are write-once

  function Run(rows: seq<Comm>, ops: seq<Op>): seq<Comm>
    decreases |ops|
  {
    if ops == [] then rows else Run(Next(rows, ops[0]), ops[1..])
  }

  /** A message with no run has no lifecycle. */
  predicate NoOrphanLifecycle(rows: seq<Comm>) {
    forall k | 0 <= k < |rows| :: rows[k].runId.None? ==> rows[k].lifecycleId.None?
  }

  /** `later` is `c` with, at most, a run or a lifecycle added. */
  predicate Extends(c: Comm, later: Comm) {
    && later.(runId := c.runId, lifecycleId := c.lifecycleId) == c
    && (c.runId.Some? ==> later.runId == c.runId)
    && (c.lifecycleId.Some? ==> later.lifecycleId == c.lifecycleId)
  }

  predicate AllExtend(rows: seq<Comm>, later: seq<Comm>) {
    |rows| <= |later| && forall k | 0 <= k < |rows| :: Extends(rows[k], later[k])
  }

  /** The operation replaces the lifecycle of a message that has one but no run. */
  predicate Overwrites(c: Comm, op: Op) {
    && !op.Insert? && c.runId.None? && c.lifecycleId.Some? && op.lifecycleId.Some? && op.lifecycleId != c.lifecycleId
    && (if op.LinkRun? then c.id == op.id else c.tenant == op.tenant && c.threadId == Some(op.thread))
  }

  /** For any table: one operation leaves every set id alone exactly when it overwrites no orphan. */
  lemma StepIsWriteOnceIff(rows: seq<Comm>, op: Op)
    ensures AllExtend(rows, Next(rows, op)) <==> forall k | 0 <= k < |rows| :: !Overwrites(rows[k], op)
  {
    var later := Next(rows, op);
    forall k | 0 <= k < |rows| ensures Extends(rows[k], later[k]) <==> !Overwrites(rows[k], op) {
    }
  }

  lemma StepIsWriteOnce(rows: seq<Comm>, op: Op)
    requires NoOrphanLifecycle(rows)
    ensures NoOrphanLifecycle(Next(rows, op)) && AllExtend(rows, Next(rows, op))
  {
    StepIsWriteOnceIff(rows, op);
  }

  /**
   However links and inserts are mixed, no message without a run has a lifecycle, and a
   run or lifecycle id once set never changes.
   */
  lemma {:induction false} LinksAreWriteOnce(rows: seq<Comm>, ops: seq<Op>)
    requires NoOrphanLifecycle(rows)
    ensures NoOrphanLifecycle(Run(rows, ops)) && AllExtend(rows, Run(rows, ops))
    decreases |ops|
  {
    if ops != [] {
      StepIsWriteOnce(rows, ops[0]);
      LinksAreWriteOnce(Next(rows, ops[0]), ops[1..]);
    } else {
      assert AllExtend(rows, rows);
    }
  }

  /** For any table: links are write-once over every sequence of operations exactly when no message without a run has a lifecycle. */
  lemma WriteOnceIff(rows: seq<Comm>)
    ensures NoOrphanLifecycle(rows) <==> forall ops :: AllExtend(rows, Run(rows, ops))
  {
    if NoOrphanLifecycle(rows) {
      forall ops ensures AllExtend(rows, Run(rows, ops)) { LinksAreWriteOnce(rows, ops); }
    } else {
      var op := Overwriting(rows);
      assert !AllExtend(rows, Run(rows, [op]));
    }
  }

  /** A link that replaces the lifecycle of a message without a run. */
  lemma Overwriting(rows: seq<Comm>) returns (op: Op)
    requires !NoOrphanLifecycle(rows)
    ensures !AllExtend(rows, Run(rows, [op]))
  {
    var k :| 0 <= k < |rows| && rows[k].runId.None? && rows[k].lifecycleId.Some?;
    var other := rows[k].lifecycleId.value + "x";
    assert |other| != |rows[k].lifecycleId.value|;
    op := LinkRun(rows[k].id, "run", Some(other));
    assert Overwrites(rows[k], op);
    StepIsWriteOnceIff(rows, op);
    assert [op][1..] == [];
    assert Run(rows, [op]) == Run(Next(rows, op), []) == Next(rows, op);
  }
}
