/** What a batch of lifecycle transitions promises: chaining, splitting, pausing, scope, audit rows. */
module LifecycleTransitionProperties {
  import opened Wrappers
  import opened LifecycleTransition

  // ----- chaining

  function NormRow(row: Row): Pair {
    Norm(RowCurrent(row))
  }

  /** What the first command of a batch starts from: its overrides over the stored pair, or the stored pair. */
  function FirstPair(base: Pair, c: Command): Pair {
    if IsSnapshot(c.activityType) then base else Pair(c.fromStatus.GetOr(base.status), c.fromSub.GetOr(base.sub))
  }

  /** `pending_review` moves on by itself when a transition that updates the row sets only a sub-status. */
  predicate Promotes(hasException: bool, c: Command, pair: Pair) {
    c.updateLifecycle && !hasException && c.toStatus.None? && c.toSub.Some? && pair.status.PendingReview?
  }

  /** Where a transition goes from `pair`. */
  function Target(hasException: bool, c: Command, pair: Pair): Pair {
    Pair(if Promotes(hasException, c, pair) then Processing else c.toStatus.GetOr(pair.status), c.toSub.GetOr(pair.sub))
  }

  /** One command on the threaded pair: a snapshot goes back to the pair stored when the batch began. */
  function FoldNext(hasException: bool, base: Pair, c: Command, pair: Pair): Pair {
    if IsSnapshot(c.activityType) then base
    else if c.updateLifecycle then Target(hasException, c, pair)
    else pair
  }

  /** The threaded pair after `n` commands, from the stored pair, the commands and nothing else. */
  function Fold(hasException: bool, base: Pair, cs: seq<Command>, n: nat, first: Pair): Pair
    requires n <= |cs|
  {
    if n == 0 then first else FoldNext(hasException, base, cs[n - 1], Fold(hasException, base, cs, n - 1, first))
  }

  /** The pairs a command logs. */
  function StepPairs(hasException: bool, base: Pair, c: Command, pair: Pair): LogFields {
    if IsSnapshot(c.activityType) then LogFields(base, base) else LogFields(pair, Target(hasException, c, pair))
  }

  /** The command sets the stored status, by itself or by promotion. */
  predicate SetsStatus(hasException: bool, c: Command, pair: Pair) {
    !IsSnapshot(c.activityType) && c.updateLifecycle && (c.toStatus.Some? || Promotes(hasException, c, pair))
  }

  predicate SetsSub(c: Command) {
    !IsSnapshot(c.activityType) && c.updateLifecycle && c.toSub.Some?
  }

  function StoredNext(hasException: bool, c: Command, pair: Pair, stored: Pair): Pair {
    Pair(if SetsStatus(hasException, c, pair) then Target(hasException, c, pair).status else stored.status,
         if SetsSub(c) then Target(hasException, c, pair).sub else stored.sub)
  }

  /** The stored pair after `n` commands. */
  function Stored(hasException: bool, base: Pair, cs: seq<Command>, n: nat, first: Pair): Pair
    requires n <= |cs|
  {
    if n == 0 then base
    else StoredNext(hasException, cs[n - 1], Fold(hasException, base, cs, n - 1, first), Stored(hasException, base, cs, n - 1, first))
  }

  lemma FirstPairIsResolved(start: Row, c: Command)
    ensures Norm(ResolveCurrent(c, Some(start))) == FirstPair(NormRow(start), c)
  {
  }

  /** One step of the service against the folds. */
  lemma StepFollowsFold(start: Row, pause: PauseContext, c: Command, current: Current, row: Row)
    ensures StepFields(Some(start), pause, c, current) == StepPairs(pause.hasException, NormRow(start), c, Norm(current))
    ensures Norm(StepNext(Some(start), pause, c, current)) == FoldNext(pause.hasException, NormRow(start), c, Norm(current))
    ensures var next := StepRow(Some(start), pause, c, current, Some(row));
            next.Some? && NormRow(next.value) == StoredNext(pause.hasException, c, Norm(current), NormRow(row))
  {
  }

  predicate FollowsFold(trace: seq<LogFields>, hasException: bool, base: Pair, cs: seq<Command>, n: nat, first: Pair)
    requires n <= |cs|
  {
    && |trace| == n
    && forall k | 0 <= k < n :: trace[k] == StepPairs(hasException, base, cs[k], Fold(hasException, base, cs, k, first))
  }

  lemma FoldStep(hasException: bool, base: Pair, cs: seq<Command>, n: nat, first: Pair)
    requires n < |cs|
    ensures Fold(hasException, base, cs, n + 1, first) == FoldNext(hasException, base, cs[n], Fold(hasException, base, cs, n, first))
    ensures Stored(hasException, base, cs, n + 1, first)
         == StoredNext(hasException, cs[n], Fold(hasException, base, cs, n, first), Stored(hasException, base, cs, n, first))
  {
  }

  /** The threaded state is the fold, and the row holds the stored pair. */
  predicate AtFold(p: Progress, pair: Pair, stored: Pair) {
    Norm(p.current) == pair && p.row.Some? && NormRow(p.row.value) == stored
  }

  lemma StepAtFold(start: Row, pause: PauseContext, scope: Scope, c: Command, p: Progress)
    requires p.row.Some?
    ensures var pair := Norm(p.current);
            AtFold(Step(Some(start), pause, scope, c, p),
                   FoldNext(pause.hasException, NormRow(start), c, pair),
                   StoredNext(pause.hasException, c, pair, NormRow(p.row.value)))
  {
    StepFollowsFold(start, pause, c, p.current, p.row.value);
  }

  lemma {:induction false} StateIsFold(start: Row, pause: PauseContext, scope: Scope, cs: seq<Command>, n: nat)
    requires cs != [] && n <= |cs|
    ensures var base, first := NormRow(start), FirstPair(NormRow(start), cs[0]);
            AtFold(After(Some(start), pause, scope, cs, n),
                   Fold(pause.hasException, base, cs, n, first), Stored(pause.hasException, base, cs, n, first))
  {
    if n == 0 {
      FirstPairIsResolved(start, cs[0]);
    } else {
      var k := n - 1;
      StateIsFold(start, pause, scope, cs, k);
      FoldStep(pause.hasException, NormRow(start), cs, k, FirstPair(NormRow(start), cs[0]));
      StepAtFold(start, pause, scope, cs[k], After(Some(start), pause, scope, cs, k));
    }
  }

  lemma {:induction false} TraceLength(start: Option<Row>, pause: PauseContext, scope: Scope, cs: seq<Command>, n: nat)
    requires cs != [] && n <= |cs|
    ensures |After(start, pause, scope, cs, n).trace| == n
  {
    if n > 0 { TraceLength(start, pause, scope, cs, n - 1); }
  }

  /** Step `k` of the trace is the step taken from the progress after `k` commands. */
  lemma {:induction false} TraceAt(start: Option<Row>, pause: PauseContext, scope: Scope, cs: seq<Command>, n: nat, k: nat)
    requires cs != [] && k < n <= |cs|
    ensures |After(start, pause, scope, cs, n).trace| == n
    ensures After(start, pause, scope, cs, n).trace[k] == StepFields(start, pause, cs[k], After(start, pause, scope, cs, k).current)
  {
    TraceLength(start, pause, scope, cs, n - 1);
    if k < n - 1 { TraceAt(start, pause, scope, cs, n - 1, k); }
  }

  /**
   Any batch on an existing row: step k logs the pairs the fold gives it, logged or not, and
   the row holds the stored pair, up to NULL and `none`.
   */
  lemma TraceIsFold(start: Row, pause: PauseContext, scope: Scope, cs: seq<Command>, n: nat)
    requires cs != [] && n <= |cs|
    ensures var base, first := NormRow(start), FirstPair(NormRow(start), cs[0]);
            var p := After(Some(start), pause, scope, cs, n);
            && FollowsFold(p.trace, pause.hasException, base, cs, n, first)
            && p.row.Some? && NormRow(p.row.value) == Stored(pause.hasException, base, cs, n, first)
            && Norm(p.current) == Fold(pause.hasException, base, cs, n, first)
  {
    StateIsFold(start, pause, scope, cs, n);
    TraceLength(Some(start), pause, scope, cs, n);
    forall k | 0 <= k < n
      ensures After(Some(start), pause, scope, cs, n).trace[k]
           == StepPairs(pause.hasException, NormRow(start), cs[k], Fold(pause.hasException, NormRow(start), cs, k, FirstPair(NormRow(start), cs[0])))
    {
      TraceAt(Some(start), pause, scope, cs, n, k);
      StateIsFold(start, pause, scope, cs, k);
      StepFollowsFold(start, pause, cs[k], After(Some(start), pause, scope, cs, k).current, start);
    }
  }

  lemma BatchRowKeepsStatuses(start: Option<Row>, scope: Scope, cs: seq<Command>)
    requires cs != [] && Done(start, scope, cs).row.Some?
    ensures BatchRow(start, scope, cs).Some?
    ensures RowCurrent(BatchRow(start, scope, cs).value) == RowCurrent(Done(start, scope, cs).row.value)
  {
  }

  /** `TraceIsFold` for the whole batch, the closing pause write included. */
  lemma BatchIsFold(start: Row, scope: Scope, cs: seq<Command>)
    requires cs != []
    ensures var base, first, hasException := NormRow(start), FirstPair(NormRow(start), cs[0]), HasException(cs);
            && FollowsFold(Done(Some(start), scope, cs).trace, hasException, base, cs, |cs|, first)
            && BatchRow(Some(start), scope, cs).Some?
            && NormRow(BatchRow(Some(start), scope, cs).value) == Stored(hasException, base, cs, |cs|, first)
  {
    TraceIsFold(start, PauseContextOf(cs), scope, cs, |cs|);
    BatchRowKeepsStatuses(Some(start), scope, cs);
  }

  // ----- when the logged pairs chain

  predicate Chained(trace: seq<LogFields>) {
    forall k | 0 < k < |trace| :: Linked(trace, k)
  }

  predicate Linked(trace: seq<LogFields>, k: nat)
    requires 0 < k < |trace|
  {
    trace[k].from == trace[k - 1].to
  }

  /** The transition would leave the pair as it is. */
  predicate Stays(hasException: bool, c: Command, pair: Pair) {
    Target(hasException, c, pair) == pair
  }

  /**
   Command `k`, after the first, starts where its predecessor ended: as a snapshot, when the
   predecessor ended at the pair the batch began with; as a transition, unless the
   predecessor is a transition that moves without updating the row.
   */
  predicate LinksBack(hasException: bool, base: Pair, cs: seq<Command>, k: nat, first: Pair)
    requires 0 < k < |cs|
  {
    var before, pair := cs[k - 1], Fold(hasException, base, cs, k - 1, first);
    if IsSnapshot(cs[k].activityType) then IsSnapshot(before.activityType) || Target(hasException, before, pair) == base
    else IsSnapshot(before.activityType) || before.updateLifecycle || Stays(hasException, before, pair)
  }

  /** Any batch chains exactly when each command after the first links back, by the fold over row and commands. */
  lemma ChainedIff(start: Row, scope: Scope, cs: seq<Command>)
    requires cs != []
    ensures var base, first := NormRow(start), FirstPair(NormRow(start), cs[0]);
            Chained(Done(Some(start), scope, cs).trace) <==> forall k | 0 < k < |cs| :: LinksBack(HasException(cs), base, cs, k, first)
  {
    var base, first, hasException := NormRow(start), FirstPair(NormRow(start), cs[0]), HasException(cs);
    var trace := Done(Some(start), scope, cs).trace;
    BatchIsFold(start, scope, cs);
    forall k | 0 < k < |cs| ensures Linked(trace, k) <==> LinksBack(hasException, base, cs, k, first) {
      LinkIff(trace, hasException, base, cs, k, first);
    }
  }

  lemma LinkIff(trace: seq<LogFields>, hasException: bool, base: Pair, cs: seq<Command>, k: nat, first: Pair)
    requires 0 < k < |cs| && FollowsFold(trace, hasException, base, cs, |cs|, first)
    ensures Linked(trace, k) <==> LinksBack(hasException, base, cs, k, first)
  {
    var j := k - 1;
    assert trace[j] == StepPairs(hasException, base, cs[j], Fold(hasException, base, cs, j, first));
    assert trace[k] == StepPairs(hasException, base, cs[k], Fold(hasException, base, cs, k, first));
  }

  predicate TransitionsUpdate(cs: seq<Command>) {
    forall i | 0 <= i < |cs| :: !IsSnapshot(cs[i].activityType) ==> cs[i].updateLifecycle
  }

  /** When every transition updates the row: chained exactly when the fold is back at the stored pair at every later snapshot. */
  lemma {:induction false} ChainedIffBackAtSnapshots(start: Row, scope: Scope, cs: seq<Command>)
    requires cs != [] && TransitionsUpdate(cs)
    ensures var base, first := NormRow(start), FirstPair(NormRow(start), cs[0]);
            Chained(Done(Some(start), scope, cs).trace)
            <==> forall k | 0 < k < |cs| && IsSnapshot(cs[k].activityType) :: Fold(HasException(cs), base, cs, k, first) == base
  {
    var base, first, hasException := NormRow(start), FirstPair(NormRow(start), cs[0]), HasException(cs);
    ChainedIff(start, scope, cs);
    forall k | 0 < k < |cs|
      ensures LinksBack(hasException, base, cs, k, first)
        <==> (IsSnapshot(cs[k].activityType) ==> Fold(hasException, base, cs, k, first) == base)
    {
      assert Fold(hasException, base, cs, k, first)
        == FoldNext(hasException, base, cs[k - 1], Fold(hasException, base, cs, k - 1, first));
    }
  }

  // ----- where the row ends

  predicate NoSnapshotAfterTransition(cs: seq<Command>) {
    forall i, j | 0 <= i < j < |cs| :: !IsSnapshot(cs[i].activityType) ==> !IsSnapshot(cs[j].activityType)
  }

  predicate OnlySnapshots(cs: seq<Command>, n: nat)
    requires n <= |cs|
  {
    forall i | 0 <= i < n :: IsSnapshot(cs[i].activityType)
  }

  lemma {:induction false} FoldOfSnapshots(hasException: bool, base: Pair, cs: seq<Command>, n: nat, first: Pair)
    requires n <= |cs| && OnlySnapshots(cs, n)
    ensures Fold(hasException, base, cs, n, first) == if n == 0 then first else base
    ensures Stored(hasException, base, cs, n, first) == base
  {
    if n > 0 { FoldOfSnapshots(hasException, base, cs, n - 1, first); }
  }

  predicate SomeSetsStatus(hasException: bool, base: Pair, cs: seq<Command>, n: nat, first: Pair)
    requires n <= |cs|
  {
    exists k | 0 <= k < n :: SetsStatus(hasException, cs[k], Fold(hasException, base, cs, k, first))
  }

  predicate SomeSetsSub(cs: seq<Command>, n: nat)
    requires n <= |cs|
  {
    exists k | 0 <= k < n :: SetsSub(cs[k])
  }

  /** The stored pair is the fold's where a command has set it; until then neither has moved. */
  predicate Components(hasException: bool, base: Pair, cs: seq<Command>, n: nat, first: Pair)
    requires n <= |cs|
  {
    var folded, stored := Fold(hasException, base, cs, n, first), Stored(hasException, base, cs, n, first);
    && (if SomeSetsStatus(hasException, base, cs, n, first) then stored.status == folded.status
        else stored.status == base.status && folded.status == first.status)
    && (if SomeSetsSub(cs, n) then stored.sub == folded.sub else stored.sub == base.sub && folded.sub == first.sub)
  }

  lemma SetByStep(hasException: bool, base: Pair, cs: seq<Command>, n: nat, first: Pair)
    requires n < |cs|
    ensures SomeSetsStatus(hasException, base, cs, n + 1, first)
       <==> SomeSetsStatus(hasException, base, cs, n, first) || SetsStatus(hasException, cs[n], Fold(hasException, base, cs, n, first))
  {
  }

  lemma SubSetByStep(cs: seq<Command>, n: nat)
    requires n < |cs|
    ensures SomeSetsSub(cs, n + 1) <==> SomeSetsSub(cs, n) || SetsSub(cs[n])
  {
  }

  lemma ComponentsNext(hasException: bool, base: Pair, cs: seq<Command>, n: nat, first: Pair)
    requires n < |cs| && Components(hasException, base, cs, n, first)
    requires !IsSnapshot(cs[n].activityType) && cs[n].updateLifecycle
    ensures Components(hasException, base, cs, n + 1, first)
  {
    SetByStep(hasException, base, cs, n, first);
    SubSetByStep(cs, n);
  }

  lemma ComponentsOfSnapshots(hasException: bool, base: Pair, cs: seq<Command>, n: nat)
    requires cs != [] && n <= |cs| && OnlySnapshots(cs, n)
    ensures Components(hasException, base, cs, n, FirstPair(base, cs[0]))
  {
    FoldOfSnapshots(hasException, base, cs, n, FirstPair(base, cs[0]));
    assert n > 0 ==> IsSnapshot(cs[0].activityType);
  }

  lemma {:induction false} StoredComponents(hasException: bool, base: Pair, cs: seq<Command>, n: nat)
    requires cs != [] && n <= |cs| && NoSnapshotAfterTransition(cs) && TransitionsUpdate(cs)
    ensures Components(hasException, base, cs, n, FirstPair(base, cs[0]))
  {
    if n == 0 || IsSnapshot(cs[n - 1].activityType) {
      ComponentsOfSnapshots(hasException, base, cs, n);
    } else {
      StoredComponents(hasException, base, cs, n - 1);
      ComponentsNext(hasException, base, cs, n - 1, FirstPair(base, cs[0]));
    }
  }

  lemma LastTo(hasException: bool, base: Pair, cs: seq<Command>, first: Pair)
    requires cs != [] && TransitionsUpdate(cs)
    ensures StepPairs(hasException, base, cs[|cs| - 1], Fold(hasException, base, cs, |cs| - 1, first)).to
         == Fold(hasException, base, cs, |cs|, first)
  {
  }

  /**
   The batch refines the fold: each step's from-pair is the previous step's to-pair, and
   the stored row ends, up to NULL and `none`, at the last to-pair, when the first
   command has no `from_*` override or is a snapshot.
   */
  lemma BatchRefinesFold(start: Row, scope: Scope, cs: seq<Command>)
    requires cs != [] && NoSnapshotAfterTransition(cs) && TransitionsUpdate(cs)
    ensures |Done(Some(start), scope, cs).trace| == |cs|
    ensures Chained(Done(Some(start), scope, cs).trace)
    ensures IsSnapshot(cs[0].activityType) || (cs[0].fromStatus.None? && cs[0].fromSub.None?) ==>
              var row := BatchRow(Some(start), scope, cs);
              && row.Some?
              && NormRow(row.value) == Done(Some(start), scope, cs).trace[|cs| - 1].to
              && NormRow(row.value) == Fold(HasException(cs), NormRow(start), cs, |cs|, NormRow(start))
  {
    var base, first, hasException := NormRow(start), FirstPair(NormRow(start), cs[0]), HasException(cs);
    BatchIsFold(start, scope, cs);
    ChainedIffBackAtSnapshots(start, scope, cs);
    forall k | 0 < k < |cs| && IsSnapshot(cs[k].activityType) ensures Fold(hasException, base, cs, k, first) == base {
      FoldOfSnapshots(hasException, base, cs, k, first);
    }
    StoredComponents(hasException, base, cs, |cs|);
    LastTo(hasException, base, cs, first);
  }

  /** After a last command that starts from `pair` over `stored`, the row's status is the one logged. */
  predicate StatusEnds(hasException: bool, base: Pair, c: Command, pair: Pair, stored: Pair) {
    if IsSnapshot(c.activityType) then stored.status == base.status
    else
      var kept := if c.updateLifecycle then pair.status else c.toStatus.GetOr(pair.status);
      SetsStatus(hasException, c, pair) || stored.status == kept
  }

  predicate SubEnds(base: Pair, c: Command, pair: Pair, stored: Pair) {
    if IsSnapshot(c.activityType) then stored.sub == base.sub
    else
      var kept := if c.updateLifecycle then pair.sub else c.toSub.GetOr(pair.sub);
      SetsSub(c) || stored.sub == kept
  }

  lemma EndsIff(hasException: bool, base: Pair, c: Command, pair: Pair, stored: Pair)
    ensures var to, next := StepPairs(hasException, base, c, pair).to, StoredNext(hasException, c, pair, stored);
            && (next.status == to.status <==> StatusEnds(hasException, base, c, pair, stored))
            && (next.sub == to.sub <==> SubEnds(base, c, pair, stored))
  {
  }

  /**
   Any batch on an existing row: exactly when the row ends at the status and sub-status it
   logged last, from the last command, the pair threaded to it and the pair stored before it.
   */
  lemma StoredStatusIff(start: Row, scope: Scope, cs: seq<Command>)
    requires cs != []
    ensures |Done(Some(start), scope, cs).trace| == |cs|
    ensures var base, first, hasException, n := NormRow(start), FirstPair(NormRow(start), cs[0]), HasException(cs), |cs| - 1;
            var last := Done(Some(start), scope, cs).trace[n].to;
            var pair, stored := Fold(hasException, base, cs, n, first), Stored(hasException, base, cs, n, first);
            var row := BatchRow(Some(start), scope, cs);
            && row.Some?
            && (NormRow(row.value).status == last.status <==> StatusEnds(hasException, base, cs[n], pair, stored))
            && (NormRow(row.value).sub == last.sub <==> SubEnds(base, cs[n], pair, stored))
  {
    var base, first, hasException, n := NormRow(start), FirstPair(NormRow(start), cs[0]), HasException(cs), |cs| - 1;
    BatchIsFold(start, scope, cs);
    FoldStep(hasException, base, cs, n, first);
    EndsIff(hasException, base, cs[n], Fold(hasException, base, cs, n, first), Stored(hasException, base, cs, n, first));
  }

  /** In an ordered batch, exactly when an override on its first command does not show in the end. */
  lemma OrderedStoredStatusIff(start: Row, scope: Scope, cs: seq<Command>)
    requires cs != [] && NoSnapshotAfterTransition(cs) && TransitionsUpdate(cs)
    ensures |Done(Some(start), scope, cs).trace| == |cs|
    ensures var base, first := NormRow(start), FirstPair(NormRow(start), cs[0]);
            var last := Done(Some(start), scope, cs).trace[|cs| - 1].to;
            var row := BatchRow(Some(start), scope, cs);
            && row.Some?
            && (NormRow(row.value).status == last.status
                <==> first.status == base.status || SomeSetsStatus(HasException(cs), base, cs, |cs|, first))
            && (NormRow(row.value).sub == last.sub <==> first.sub == base.sub || SomeSetsSub(cs, |cs|))
  {
    var base, first, hasException := NormRow(start), FirstPair(NormRow(start), cs[0]), HasException(cs);
    BatchIsFold(start, scope, cs);
    StoredComponents(hasException, base, cs, |cs|);
    LastTo(hasException, base, cs, first);
  }

  // ----- an override that is not stored

  function SystemCommand(activityType: ActivityType, toStatus: Option<Status>, toSub: Option<SubStatus>): Command {
    Command("tenant", activityType, "lifecycle", None, toStatus, toSub, "", None, None, None, None, None, true, true, true, None)
  }

  /** A sub-status change that says it comes from `completed`: that is logged, and the row stays `processing`. */
  lemma OverrideIsNotStored(scope: Scope)
    ensures var start := Row(Some(Processing), Some(TenderCreated), None);
            var cs := [SystemCommand(SubStatusChange, None, Some(Accepted)).(fromStatus := Some(Completed))];
            && BatchRow(Some(start), scope, cs) == Some(Row(Some(Processing), Some(Accepted), None))
            && Done(Some(start), scope, cs).trace == [LogFields(Pair(Completed, TenderCreated), Pair(Completed, Accepted))]
  {
    var start := Row(Some(Processing), Some(TenderCreated), None);
    var cs := [SystemCommand(SubStatusChange, None, Some(Accepted)).(fromStatus := Some(Completed))];
    SingleBatch(Some(start), scope, cs[0]);
    FirstPauseIsFirst(cs);
  }

  // ----- pause

  /** The command would write the row of its lifecycle. */
  predicate WritesRow(c: Command) {
    c.updateLifecycle && !IsSnapshot(c.activityType) && (c.toStatus.Some? || c.toSub.Some?)
  }

  predicate SomeWrites(cs: seq<Command>, n: nat)
    requires n <= |cs|
  {
    exists k | 0 <= k < n :: WritesRow(cs[k])
  }

  lemma {:induction false} PauseSoFar(start: Row, pause: PauseContext, scope: Scope, cs: seq<Command>, n: nat)
    requires cs != [] && n <= |cs| && (pause.hasException <==> pause.pauseType.Some?)
    ensures var p := After(Some(start), pause, scope, cs, n);
            && p.row.Some?
            && (p.wrote <==> SomeWrites(cs, n))
            && p.row.value.pause == (if SomeWrites(cs, n) then pause.pauseType else start.pause)
  {
    if n > 0 {
      PauseSoFar(start, pause, scope, cs, n - 1);
      assert SomeWrites(cs, n) <==> SomeWrites(cs, n - 1) || WritesRow(cs[n - 1]);
    }
  }

  lemma FirstPauseIsFirst(cs: seq<Command>)
    ensures FirstPause(cs).Some? ==>
              exists k | 0 <= k < |cs| ::
                && cs[k].activityType.Exception? && cs[k].pauseType == FirstPause(cs)
                && forall j | 0 <= j < k :: cs[j].activityType.Exception? ==> cs[j].pauseType.None?
    ensures FirstPause(cs).None? ==> forall k | 0 <= k < |cs| :: cs[k].activityType.Exception? ==> cs[k].pauseType.None?
  {
    if cs != [] && !(cs[0].activityType.Exception? && cs[0].pauseType.Some?) {
      var rest := cs[1..];
      FirstPauseIsFirst(rest);
      if FirstPause(cs).Some? {
        var k :| 0 <= k < |rest| && rest[k].activityType.Exception? && rest[k].pauseType == FirstPause(rest)
                 && forall j | 0 <= j < k :: rest[j].activityType.Exception? ==> rest[j].pauseType.None?;
        assert cs[k + 1] == rest[k];
        forall j | 0 <= j < k + 1 ensures cs[j].activityType.Exception? ==> cs[j].pauseType.None? {
          if j > 0 { assert cs[j] == rest[j - 1]; }
        }
      } else {
        forall k | 0 <= k < |cs| ensures cs[k].activityType.Exception? ==> cs[k].pauseType.None? {
          if k > 0 { assert cs[k] == rest[k - 1]; }
        }
      }
    }
  }

  /**
   The pause after any batch on an existing row: with an exception step, the first
   explicit pause among the exception steps, or `system_error`; with none and at least
   one write to the row, NULL; otherwise as before. Where the exception sits is irrelevant.
   */
  lemma PauseOutcome(start: Row, scope: Scope, cs: seq<Command>)
    requires cs != []
    ensures var row := BatchRow(Some(start), scope, cs);
            && row.Some?
            && row.value.pause == (if HasException(cs) then Some(FirstPause(cs).GetOr(SystemError))
                                   else if SomeWrites(cs, |cs|) then None
                                   else start.pause)
  {
    if !HasException(cs) {
      FirstPauseIsFirst(cs);
    }
    PauseSoFar(start, PauseContextOf(cs), scope, cs, |cs|);
  }

  // ----- the audit table's CHECK constraint

  /** `activity_logs_action_snapshot_chk`: an action, exception or info row does not move. */
  predicate SnapshotCheck(row: LogRow) {
    row.activityType.Action? || row.activityType.Exception? || row.activityType.Info? ==> row.fields.from == row.fields.to
  }

  /** The other two kinds of activity are the transitions. */
  lemma SnapshotIff(activityType: ActivityType)
    ensures IsSnapshot(activityType) <==> activityType != StatusChange && activityType != SubStatusChange
  {
  }

  /** One UPDATE, column by column: a given value is stored, a pause that is given wins over clearing it, and the rest stays. */
  lemma UpdatedMeaning(row: Row, update: LifecycleUpdate)
    ensures var after := Updated(row, update);
            && (after.status == if update.status.Some? then update.status else row.status)
            && (after.sub == if update.sub.Some? then update.sub else row.sub)
            && (update.pause.Some? ==> after.pause == update.pause)
            && (update.pause.None? ==> after.pause == if update.clearPause then None else row.pause)
    ensures update.HasChanges() <==> update != LifecycleUpdate(None, None, None, false)
  {
  }

  predicate AllChecked(log: seq<LogRow>) {
    forall k | 0 <= k < |log| :: SnapshotCheck(log[k])
  }

  lemma {:induction false} BatchLogChecked(start: Option<Row>, pause: PauseContext, scope: Scope, cs: seq<Command>, n: nat)
    requires cs != [] && n <= |cs|
    ensures AllChecked(After(start, pause, scope, cs, n).log)
  {
    if n > 0 { BatchLogChecked(start, pause, scope, cs, n - 1); }
  }

  /** The tables after a run of batches, where a failed one leaves them as they were. */
  function AfterBatches(env: Env, tables: Tables, batches: seq<seq<Command>>): Tables
    decreases |batches|
  {
    if batches == [] then tables
    else if batches[0] == [] || BatchOutcome(env, tables, batches[0]).Failure? then AfterBatches(env, tables, batches[1..])
    else AfterBatches(env, BatchOutcome(env, tables, batches[0]).value, batches[1..])
  }

  /** No run of batches ever inserts an audit row that the CHECK constraint would refuse. */
  lemma {:induction false} EveryLoggedRowChecked(env: Env, tables: Tables, batches: seq<seq<Command>>)
    requires AllChecked(tables.log)
    ensures AllChecked(AfterBatches(env, tables, batches).log)
    decreases |batches|
  {
    if batches != [] {
      if batches[0] == [] || BatchOutcome(env, tables, batches[0]).Failure? {
        EveryLoggedRowChecked(env, tables, batches[1..]);
      } else {
        var cs := batches[0];
        var scope := PrepareScope(env, cs[0]).value;
        BatchLogChecked(RowAt(tables.rows, scope.lifecycleId), PauseContextOf(cs), scope, cs, |cs|);
        EveryLoggedRowChecked(env, BatchOutcome(env, tables, cs).value, batches[1..]);
      }
    }
  }
}
