/** Applying `a ++ b` as one batch against applying `a` and then `b`. */
module LifecycleTransitionSplit {
  import opened Wrappers
  import opened LifecycleTransition
  import opened LifecycleTransitionProperties
  import opened LifecycleTransitionScope

  const NO_PAUSE := PauseContext(false, None)

  lemma NoExceptionNoPause(cs: seq<Command>)
    requires !HasException(cs)
    ensures PauseContextOf(cs) == NO_PAUSE
  {
    FirstPauseIsFirst(cs);
  }

  /** A log without its actor columns. */
  function EraseActors(log: seq<LogRow>): seq<LogRow> {
    seq(|log|, i requires 0 <= i < |log| => log[i].(actorType := System, actorId := None))
  }

  // ----- the same commands in a longer batch

  lemma {:induction false} PrefixOfBatch(start: Option<Row>, scope: Scope, a: seq<Command>, b: seq<Command>, n: nat)
    requires a != [] && n <= |a|
    ensures After(start, NO_PAUSE, scope, a + b, n) == After(start, NO_PAUSE, scope, a, n)
  {
    if n > 0 { PrefixOfBatch(start, scope, a, b, n - 1); }
  }

  // ----- when splitting shows

  predicate HasSnapshot(cs: seq<Command>) {
    exists k | 0 <= k < |cs| :: IsSnapshot(cs[k].activityType)
  }

  /** The pair `a` threads, and the pair it leaves stored. */
  function ThreadedAfter(base: Pair, a: seq<Command>): Pair
    requires a != []
  {
    Fold(false, base, a, |a|, FirstPair(base, a[0]))
  }

  function StoredAfter(base: Pair, a: seq<Command>): Pair
    requires a != []
  {
    Stored(false, base, a, |a|, FirstPair(base, a[0]))
  }

  /**
   Nothing in `b` can tell whether `a` was in the same batch: a snapshot in `b` finds the
   stored pair where it was before `a`, and a transition that comes first in `b` starts,
   overrides included, from the pair that `a` threads.
   */
  predicate Seamless(base: Pair, a: seq<Command>, b: seq<Command>)
    requires a != [] && b != []
  {
    && (HasSnapshot(b) ==> StoredAfter(base, a) == base)
    && (!IsSnapshot(b[0].activityType) ==> FirstPair(StoredAfter(base, a), b[0]) == ThreadedAfter(base, a))
  }

  lemma {:induction false} FoldOfPrefix(base: Pair, a: seq<Command>, b: seq<Command>, n: nat, first: Pair)
    requires n <= |a|
    ensures Fold(false, base, a + b, n, first) == Fold(false, base, a, n, first)
  {
    if n > 0 { FoldOfPrefix(base, a, b, n - 1, first); }
  }

  lemma {:induction false} FoldOfConcat(base: Pair, a: seq<Command>, b: seq<Command>, j: nat, first: Pair)
    requires j <= |b|
    ensures Fold(false, base, a + b, |a| + j, first) == Fold(false, base, b, j, Fold(false, base, a, |a|, first))
  {
    if j == 0 {
      FoldOfPrefix(base, a, b, |a|, first);
    } else {
      FoldOfConcat(base, a, b, j - 1, first);
      assert (a + b)[|a| + (j - 1)] == b[j - 1];
      FoldStep(false, base, a + b, |a| + (j - 1), first);
    }
  }

  /** Two folds over `b` that agree where `b` looks agree everywhere after. */
  lemma {:induction false} SameFolds(x: Pair, y: Pair, b: seq<Command>, j: nat, p: Pair, q: Pair)
    requires b != [] && j <= |b| && (HasSnapshot(b) ==> x == y) && (!IsSnapshot(b[0].activityType) ==> p == q)
    ensures j > 0 || p == q ==> Fold(false, x, b, j, p) == Fold(false, y, b, j, q)
  {
    if j > 0 {
      SameFolds(x, y, b, j - 1, p, q);
      FoldStep(false, x, b, j - 1, p);
      FoldStep(false, y, b, j - 1, q);
    }
  }

  /** The pairs that `b` logs behind `a` in one batch, and on its own after `a`, are the same exactly when the seam does not show. */
  lemma SamePairsIff(base: Pair, a: seq<Command>, b: seq<Command>)
    requires a != [] && b != []
    ensures Seamless(base, a, b) <==> forall j | 0 <= j < |b| :: SamePairs(base, a, b, j)
  {
    var x, y, p, q := base, StoredAfter(base, a), ThreadedAfter(base, a), FirstPair(StoredAfter(base, a), b[0]);
    if Seamless(base, a, b) {
      forall j | 0 <= j < |b| ensures SamePairs(base, a, b, j) {
        SameFolds(x, y, b, j, p, q);
      }
    } else if HasSnapshot(b) && y != base {
      var k :| 0 <= k < |b| && IsSnapshot(b[k].activityType);
      assert !SamePairs(base, a, b, k);
    } else {
      assert !SamePairs(base, a, b, 0);
    }
  }

  predicate SamePairs(base: Pair, a: seq<Command>, b: seq<Command>, j: nat)
    requires a != [] && j < |b|
  {
    JoinedPairs(base, a, b, j) == SecondPairs(base, a, b, j)
  }

  /** What the two runs log after `a`, step by step. */
  lemma TracesAfterSeam(start: Row, scope: Scope, other: Scope, a: seq<Command>, b: seq<Command>)
    requires a != [] && b != []
    ensures var base := NormRow(start);
            var front := After(Some(start), NO_PAUSE, scope, a, |a|);
            var joined := After(Some(start), NO_PAUSE, scope, a + b, |a + b|);
            var second := After(front.row, NO_PAUSE, other, b, |b|);
            && front.row.Some? && NormRow(front.row.value) == StoredAfter(base, a) && Norm(front.current) == ThreadedAfter(base, a)
            && |front.trace| == |a| && |joined.trace| == |a| + |b| && |second.trace| == |b|
            && joined.trace[..|a|] == front.trace
            && (forall j | 0 <= j < |b| :: joined.trace[|a| + j] == second.trace[j] <==> SamePairs(base, a, b, j))
  {
    var base, first := NormRow(start), FirstPair(NormRow(start), a[0]);
    var front := After(Some(start), NO_PAUSE, scope, a, |a|);
    TraceIsFold(start, NO_PAUSE, scope, a, |a|);
    TraceIsFold(start, NO_PAUSE, scope, a + b, |a + b|);
    TraceIsFold(front.row.value, NO_PAUSE, other, b, |b|);
    var joined := After(Some(start), NO_PAUSE, scope, a + b, |a + b|);
    forall k | 0 <= k < |a| ensures joined.trace[k] == front.trace[k] {
      FoldOfPrefix(base, a, b, k, first);
      assert (a + b)[k] == a[k];
    }
    forall j | 0 <= j < |b|
      ensures joined.trace[|a| + j] == StepPairs(false, base, b[j], Fold(false, base, b, j, ThreadedAfter(base, a)))
    {
      FoldOfConcat(base, a, b, j, first);
      assert (a + b)[|a| + j] == b[j];
    }
  }

  /**
   For any exception-free commands: the joined batch logs the pairs of `a` followed by those
   of `b` run on its own after `a`, exactly when the seam does not show.
   */
  lemma SplitTraceIff(start: Row, scope: Scope, other: Scope, a: seq<Command>, b: seq<Command>)
    requires a != [] && b != []
    ensures var front := After(Some(start), NO_PAUSE, scope, a, |a|);
            var joined := After(Some(start), NO_PAUSE, scope, a + b, |a + b|);
            var second := After(front.row, NO_PAUSE, other, b, |b|);
            joined.trace == front.trace + second.trace <==> Seamless(NormRow(start), a, b)
  {
    var front := After(Some(start), NO_PAUSE, scope, a, |a|);
    var joined := After(Some(start), NO_PAUSE, scope, a + b, |a + b|);
    var second := After(front.row, NO_PAUSE, other, b, |b|);
    TracesAfterSeam(start, scope, other, a, b);
    SamePairsIff(NormRow(start), a, b);
    SameBehind(joined.trace, front.trace, second.trace);
  }

  lemma SameBehind<T>(whole: seq<T>, front: seq<T>, rest: seq<T>)
    requires |whole| == |front| + |rest| && whole[..|front|] == front
    ensures whole == front + rest <==> forall j | 0 <= j < |rest| :: whole[|front| + j] == rest[j]
  {
    var parts := front + rest;
    assert forall j | 0 <= j < |rest| :: parts[|front| + j] == rest[j];
    if forall j | 0 <= j < |rest| :: whole[|front| + j] == rest[j] {
      forall k | 0 <= k < |whole| ensures whole[k] == parts[k] {
        if k < |front| {
          assert whole[k] == whole[..|front|][k];
        } else {
          assert whole[|front| + (k - |front|)] == rest[k - |front|];
        }
      }
    }
  }

  /** Without overrides and with no snapshot after a transition the seam never shows. */
  lemma OrderedIsSeamless(base: Pair, a: seq<Command>, b: seq<Command>)
    requires a != [] && b != [] && NoSnapshotAfterTransition(a + b)
    requires a[0].fromStatus.None? && a[0].fromSub.None? && b[0].fromStatus.None? && b[0].fromSub.None?
    ensures Seamless(base, a, b)
  {
    var cs := a + b;
    forall i, j | 0 <= i < j < |a| ensures !IsSnapshot(a[i].activityType) ==> !IsSnapshot(a[j].activityType) {
      assert cs[i] == a[i] && cs[j] == a[j];
    }
    ThreadedIsStored(base, a, |a|);
    if HasSnapshot(b) {
      var j :| 0 <= j < |b| && IsSnapshot(b[j].activityType);
      assert cs[|a| + j] == b[j];
      forall i | 0 <= i < |a| ensures IsSnapshot(a[i].activityType) { assert cs[i] == a[i]; }
      FoldOfSnapshots(false, base, a, |a|, FirstPair(base, a[0]));
    }
  }

  /** Without an override on the first command, and with no snapshot after a transition, the threaded pair is the stored one. */
  lemma {:induction false} ThreadedIsStored(base: Pair, cs: seq<Command>, n: nat)
    requires cs != [] && n <= |cs| && NoSnapshotAfterTransition(cs)
    requires cs[0].fromStatus.None? && cs[0].fromSub.None?
    ensures Fold(false, base, cs, n, FirstPair(base, cs[0])) == Stored(false, base, cs, n, FirstPair(base, cs[0]))
  {
    if n > 0 {
      ThreadedIsStored(base, cs, n - 1);
      if IsSnapshot(cs[n - 1].activityType) {
        assert OnlySnapshots(cs, n);
        FoldOfSnapshots(false, base, cs, n, FirstPair(base, cs[0]));
      }
    }
  }

  // ----- logs

  predicate SameButActor(scope: Scope, other: Scope) {
    scope.(actorType := other.actorType, actorId := other.actorId) == other
  }

  /** A logged command gets the same actor in both scopes. */
  predicate SameActor(scope: Scope, other: Scope, c: Command) {
    c.recordActivity ==> StepActor(scope, c) == StepActor(other, c)
  }

  /** The logged commands among the first `n` get the same actor in both scopes. */
  predicate ActorsAgree(cs: seq<Command>, n: nat, scope: Scope, other: Scope)
    requires n <= |cs|
  {
    forall k | 0 <= k < n :: SameActor(scope, other, cs[k])
  }

  /** The logged commands among the first `n` of `b` log the same pairs behind `a` and on their own. */
  predicate SameWhereLogged(base: Pair, a: seq<Command>, b: seq<Command>, n: nat)
    requires a != [] && n <= |b|
  {
    forall j | 0 <= j < n :: b[j].recordActivity ==> SamePairs(base, a, b, j)
  }

  lemma EraseConcat(a: seq<LogRow>, b: seq<LogRow>)
    ensures EraseActors(a + b) == EraseActors(a) + EraseActors(b)
  {
  }

  lemma EqualParts<T>(a: seq<T>, x: seq<T>, b: seq<T>, y: seq<T>)
    requires |a| == |b|
    ensures a + x == b + y <==> a == b && x == y
  {
    if a + x == b + y {
      assert a == (a + x)[..|a|] == b && x == (a + x)[|a|..] == y;
    }
  }

  lemma StepLogsIff(scope: Scope, other: Scope, c: Command, f: LogFields, g: LogFields)
    requires SameButActor(scope, other)
    ensures var x, y := StepLog(scope, c, f), StepLog(other, c, g);
            && |x| == |y|
            && (EraseActors(x) == EraseActors(y) <==> (c.recordActivity ==> f == g))
            && (x == y <==> (c.recordActivity ==> f == g) && SameActor(scope, other, c))
  {
    var x, y := StepLog(scope, c, f), StepLog(other, c, g);
    if c.recordActivity {
      assert x == [x[0]] && y == [y[0]];
      assert |EraseActors(x)| == 1 && |EraseActors(y)| == 1;
      assert EraseActors(x)[0].fields == f && EraseActors(y)[0].fields == g;
      if f == g {
        assert EraseActors(x)[0] == EraseActors(y)[0];
      }
    }
  }

  // ----- rows

  /** The rows differ at most in the status, and there only where one was promoted to `processing`. */
  predicate Close(s: Row, t: Row) {
    s.sub == t.sub && s.pause == t.pause && (s.status == t.status || s.status == Some(Processing) || t.status == Some(Processing))
  }

  lemma CloseNext(x: Row, y: Row, c: Command, current: Current, current': Current, s: Row, t: Row)
    requires Close(s, t)
    ensures var s', t' := StepRow(Some(x), NO_PAUSE, c, current, Some(s)), StepRow(Some(y), NO_PAUSE, c, current', Some(t));
            s'.Some? && t'.Some? && Close(s'.value, t'.value)
  {
  }

  lemma CloseIsEqualIff(s: Row, t: Row)
    requires Close(s, t)
    ensures s == t <==> NormRow(s) == NormRow(t)
  {
  }

  // ----- the two runs side by side

  /** The pairs that command `j` of `b` logs behind `a`, and on its own. */
  function JoinedPairs(base: Pair, a: seq<Command>, b: seq<Command>, j: nat): LogFields
    requires a != [] && j < |b|
  {
    StepPairs(false, base, b[j], Fold(false, base, b, j, ThreadedAfter(base, a)))
  }

  function SecondPairs(base: Pair, a: seq<Command>, b: seq<Command>, j: nat): LogFields
    requires a != [] && j < |b|
  {
    StepPairs(false, StoredAfter(base, a), b[j], Fold(false, StoredAfter(base, a), b, j, FirstPair(StoredAfter(base, a), b[0])))
  }

  lemma NextOfBatch(x: Option<Row>, scope: Scope, a: seq<Command>, b: seq<Command>, k: nat)
    requires a != [] && k < |b|
    ensures After(x, NO_PAUSE, scope, a + b, |a| + (k + 1)) == Step(x, NO_PAUSE, scope, b[k], After(x, NO_PAUSE, scope, a + b, |a| + k))
  {
    assert (a + b)[|a| + k] == b[k];
  }

  /** The log of `n` commands, from the stored pair, the pair they start from and the commands. */
  function LogOf(scope: Scope, base: Pair, cs: seq<Command>, n: nat, first: Pair): seq<LogRow>
    requires n <= |cs|
  {
    if n == 0 then []
    else
      var pairs := StepPairs(false, base, cs[n - 1], Fold(false, base, cs, n - 1, first));
      LogOf(scope, base, cs, n - 1, first) + StepLog(scope, cs[n - 1], pairs)
  }

  lemma {:induction false} LogIsFold(start: Row, scope: Scope, cs: seq<Command>, n: nat)
    requires cs != [] && n <= |cs|
    ensures After(Some(start), NO_PAUSE, scope, cs, n).log == LogOf(scope, NormRow(start), cs, n, FirstPair(NormRow(start), cs[0]))
  {
    if n > 0 {
      var p := After(Some(start), NO_PAUSE, scope, cs, n - 1);
      LogIsFold(start, scope, cs, n - 1);
      StateIsFold(start, NO_PAUSE, scope, cs, n - 1);
      StepFollowsFold(start, NO_PAUSE, cs[n - 1], p.current, start);
    }
  }

  lemma {:induction false} LogOfPrefix(scope: Scope, base: Pair, a: seq<Command>, b: seq<Command>, n: nat, first: Pair)
    requires n <= |a|
    ensures LogOf(scope, base, a + b, n, first) == LogOf(scope, base, a, n, first)
  {
    if n > 0 {
      LogOfPrefix(scope, base, a, b, n - 1, first);
      FoldOfPrefix(base, a, b, n - 1, first);
    }
  }

  lemma {:induction false} LogOfConcat(scope: Scope, base: Pair, a: seq<Command>, b: seq<Command>, j: nat, first: Pair)
    requires j <= |b|
    ensures LogOf(scope, base, a + b, |a| + j, first)
         == LogOf(scope, base, a, |a|, first) + LogOf(scope, base, b, j, Fold(false, base, a, |a|, first))
  {
    if j == 0 {
      LogOfPrefix(scope, base, a, b, |a|, first);
    } else {
      var k := j - 1;
      LogOfConcat(scope, base, a, b, k, first);
      FoldOfConcat(base, a, b, k, first);
      assert (a + b)[|a| + k] == b[k];
    }
  }

  lemma LoggedNext(base: Pair, a: seq<Command>, b: seq<Command>, j: nat, scope: Scope, other: Scope)
    requires a != [] && j < |b|
    ensures SameWhereLogged(base, a, b, j + 1)
       <==> SameWhereLogged(base, a, b, j) && (b[j].recordActivity ==> JoinedPairs(base, a, b, j) == SecondPairs(base, a, b, j))
    ensures ActorsAgree(b, j + 1, scope, other) <==> ActorsAgree(b, j, scope, other) && SameActor(scope, other, b[j])
  {
  }

  /** What `b` logs behind `a`, and on its own. */
  function JoinedTail(scope: Scope, base: Pair, a: seq<Command>, b: seq<Command>, n: nat): seq<LogRow>
    requires a != [] && n <= |b|
  {
    LogOf(scope, base, b, n, ThreadedAfter(base, a))
  }

  function SecondTail(other: Scope, base: Pair, a: seq<Command>, b: seq<Command>, n: nat): seq<LogRow>
    requires a != [] && b != [] && n <= |b|
  {
    LogOf(other, StoredAfter(base, a), b, n, FirstPair(StoredAfter(base, a), b[0]))
  }

  predicate TailsMatch(x: seq<LogRow>, y: seq<LogRow>, same: bool, exact: bool) {
    |x| == |y| && (EraseActors(x) == EraseActors(y) <==> same) && (x == y <==> exact)
  }

  lemma TailsMatchNext(x: seq<LogRow>, y: seq<LogRow>, same: bool, exact: bool, u: seq<LogRow>, v: seq<LogRow>)
    requires TailsMatch(x, y, same, exact) && |u| == |v|
    ensures TailsMatch(x + u, y + v, same && EraseActors(u) == EraseActors(v), exact && u == v)
  {
    EraseConcat(x, u);
    EraseConcat(y, v);
    EqualParts(x, u, y, v);
    EqualParts(EraseActors(x), EraseActors(u), EraseActors(y), EraseActors(v));
  }

  lemma {:induction false} TailsIff(scope: Scope, other: Scope, base: Pair, a: seq<Command>, b: seq<Command>, n: nat)
    requires a != [] && b != [] && n <= |b| && SameButActor(scope, other)
    ensures TailsMatch(JoinedTail(scope, base, a, b, n), SecondTail(other, base, a, b, n),
                       SameWhereLogged(base, a, b, n), SameWhereLogged(base, a, b, n) && ActorsAgree(b, n, scope, other))
  {
    if n > 0 {
      var k := n - 1;
      var f, g := JoinedPairs(base, a, b, k), SecondPairs(base, a, b, k);
      var same, actors := SameWhereLogged(base, a, b, k), ActorsAgree(b, k, scope, other);
      TailsIff(scope, other, base, a, b, k);
      StepLogsIff(scope, other, b[k], f, g);
      TailsMatchNext(JoinedTail(scope, base, a, b, k), SecondTail(other, base, a, b, k), same, same && actors,
                     StepLog(scope, b[k], f), StepLog(other, b[k], g));
      LoggedNext(base, a, b, k, scope, other);
    }
  }

  lemma TailsBehind(log: seq<LogRow>, x: seq<LogRow>, y: seq<LogRow>, same: bool, exact: bool)
    requires TailsMatch(x, y, same, exact)
    ensures EraseActors(log + x) == EraseActors(log + y) <==> same
    ensures log + x == log + y <==> exact
  {
    EraseConcat(log, x);
    EraseConcat(log, y);
    EqualParts(log, x, log, y);
    EqualParts(EraseActors(log), EraseActors(x), EraseActors(log), EraseActors(y));
  }

  /** The two ways' logs behind `before`, by what they have in common and what they do not. */
  lemma SplitLogs(before: seq<LogRow>, start: Row, y: Row, scope: Scope, other: Scope, a: seq<Command>, b: seq<Command>)
    requires a != [] && b != [] && SameButActor(scope, other) && NormRow(y) == StoredAfter(NormRow(start), a)
    ensures var base := NormRow(start);
            var joined := before + After(Some(start), NO_PAUSE, scope, a + b, |a + b|).log;
            var second := before + After(Some(start), NO_PAUSE, scope, a, |a|).log + After(Some(y), NO_PAUSE, other, b, |b|).log;
            && (EraseActors(joined) == EraseActors(second) <==> SameWhereLogged(base, a, b, |b|))
            && (joined == second <==> SameWhereLogged(base, a, b, |b|) && ActorsAgree(b, |b|, scope, other))
  {
    var base, n := NormRow(start), |b|;
    var front := After(Some(start), NO_PAUSE, scope, a, |a|).log;
    var x, z := JoinedTail(scope, base, a, b, n), SecondTail(other, base, a, b, n);
    JoinedLog(start, scope, a, b);
    LogIsFold(y, other, b, n);
    TailsIff(scope, other, base, a, b, n);
    assert before + (front + x) == before + front + x;
    TailsBehind(before + front, x, z, SameWhereLogged(base, a, b, n), SameWhereLogged(base, a, b, n) && ActorsAgree(b, n, scope, other));
  }

  lemma JoinedLog(start: Row, scope: Scope, a: seq<Command>, b: seq<Command>)
    requires a != []
    ensures After(Some(start), NO_PAUSE, scope, a + b, |a + b|).log
         == After(Some(start), NO_PAUSE, scope, a, |a|).log + JoinedTail(scope, NormRow(start), a, b, |b|)
  {
    LogIsFold(start, scope, a, |a|);
    LogIsFold(start, scope, a + b, |a + b|);
    LogOfConcat(scope, NormRow(start), a, b, |b|, FirstPair(NormRow(start), a[0]));
    assert |a| + |b| == |a + b| && (a + b)[0] == a[0];
  }

  /** The rows of the two runs stay close. */
  lemma {:induction false} RowsAreClose(x: Row, y: Row, scope: Scope, other: Scope, a: seq<Command>, b: seq<Command>, j: nat)
    requires a != [] && b != [] && j <= |b| && After(Some(x), NO_PAUSE, scope, a, |a|).row == Some(y)
    ensures var s, t := After(Some(x), NO_PAUSE, scope, a + b, |a| + j).row, After(Some(y), NO_PAUSE, other, b, j).row;
            s.Some? && t.Some? && Close(s.value, t.value)
  {
    if j == 0 {
      PrefixOfBatch(Some(x), scope, a, b, |a|);
    } else {
      var k := j - 1;
      var p, q := After(Some(x), NO_PAUSE, scope, a + b, |a| + k), After(Some(y), NO_PAUSE, other, b, k);
      RowsAreClose(x, y, scope, other, a, b, k);
      NextOfBatch(Some(x), scope, a, b, k);
      CloseNext(x, y, b[k], p.current, q.current, p.row.value, q.row.value);
    }
  }

  /** Where the seam does not show, all logged pairs and the stored pair agree. */
  lemma SeamlessIsAlike(base: Pair, a: seq<Command>, b: seq<Command>)
    requires a != [] && b != [] && Seamless(base, a, b)
    ensures SameWhereLogged(base, a, b, |b|) && StoredAfter(base, a + b) == StoredAfter(StoredAfter(base, a), b)
  {
    SamePairsIff(base, a, b);
    SameStores(base, a, b, |b|);
  }

  lemma {:induction false} SameStores(base: Pair, a: seq<Command>, b: seq<Command>, j: nat)
    requires a != [] && b != [] && j <= |b| && Seamless(base, a, b)
    ensures var stored := StoredAfter(base, a);
            Stored(false, base, a + b, |a| + j, FirstPair(base, a[0])) == Stored(false, stored, b, j, FirstPair(stored, b[0]))
  {
    var first, stored := FirstPair(base, a[0]), StoredAfter(base, a);
    if j == 0 {
      StoredOfPrefix(base, a, b, |a|, first);
    } else {
      var k := j - 1;
      SameStores(base, a, b, k);
      assert (a + b)[|a| + k] == b[k];
      FoldStep(false, base, a + b, |a| + k, first);
      FoldStep(false, stored, b, k, FirstPair(stored, b[0]));
      FoldOfConcat(base, a, b, k, first);
      SameFolds(base, stored, b, k, ThreadedAfter(base, a), FirstPair(stored, b[0]));
    }
  }

  lemma {:induction false} StoredOfPrefix(base: Pair, a: seq<Command>, b: seq<Command>, n: nat, first: Pair)
    requires n <= |a|
    ensures Stored(false, base, a + b, n, first) == Stored(false, base, a, n, first)
  {
    if n > 0 {
      StoredOfPrefix(base, a, b, n - 1, first);
      FoldOfPrefix(base, a, b, n - 1, first);
    }
  }

  // ----- as transactions

  lemma JoinedScope(env: Env, a: seq<Command>, b: seq<Command>, tenant: string, id: string, run: Option<string>)
    requires a != [] && b != [] && AllInScope(env, a + b, |a + b|, tenant, id, run)
    ensures forall c | c in [a[0], b[0]] :: PrepareScope(env, c).Success? && PrepareScope(env, c).value.lifecycleId == id
    ensures SameButActor(PrepareScope(env, a[0]).value, PrepareScope(env, b[0]).value)
    ensures FirstError(env, PrepareScope(env, a[0]).value, a + b, |a + b|).None?
    ensures FirstError(env, PrepareScope(env, a[0]).value, a, |a|).None?
    ensures FirstError(env, PrepareScope(env, b[0]).value, b, |b|).None?
  {
    forall k | 0 <= k < |a| ensures InScope(env, a[k], tenant, id, run) { assert (a + b)[k] == a[k]; }
    forall k | 0 <= k < |b| ensures InScope(env, b[k], tenant, id, run) { assert (a + b)[|a| + k] == b[k]; }
    NamedScope(env, a[0], tenant, id, run);
    NamedScope(env, b[0], tenant, id, run);
    FirstErrorIff(env, PrepareScope(env, a[0]).value, a + b, |a + b|);
    FirstErrorIff(env, PrepareScope(env, a[0]).value, a, |a|);
    FirstErrorIff(env, PrepareScope(env, b[0]).value, b, |b|);
  }

  /** Behind `first` or behind `second`, the command gets one actor. */
  ghost predicate SameActorBehind(first: Command, second: Command, c: Command) {
    forall actorType, actorId :: IsActor(actorType, actorId, first, c) <==> IsActor(actorType, actorId, second, c)
  }

  ghost predicate SameActorsBehind(first: Command, second: Command, cs: seq<Command>) {
    forall k | 0 <= k < |cs| && cs[k].recordActivity :: SameActorBehind(first, second, cs[k])
  }

  lemma IsActorIff(env: Env, first: Command, c: Command, actorType: ActorType, actorId: Option<string>)
    requires PrepareScope(env, first).Success?
    ensures IsActor(actorType, actorId, first, c) <==> StepActor(PrepareScope(env, first).value, c) == (actorType, actorId)
  {
  }

  lemma SameActorIff(env: Env, first: Command, second: Command, c: Command)
    requires PrepareScope(env, first).Success? && PrepareScope(env, second).Success? && c.recordActivity
    ensures SameActorBehind(first, second, c) <==> SameActor(PrepareScope(env, first).value, PrepareScope(env, second).value, c)
  {
    forall actorType, actorId
      ensures IsActor(actorType, actorId, first, c) <==> StepActor(PrepareScope(env, first).value, c) == (actorType, actorId)
      ensures IsActor(actorType, actorId, second, c) <==> StepActor(PrepareScope(env, second).value, c) == (actorType, actorId)
    {
      IsActorIff(env, first, c, actorType, actorId);
      IsActorIff(env, second, c, actorType, actorId);
    }
    SamePairIff(StepActor(PrepareScope(env, first).value, c), StepActor(PrepareScope(env, second).value, c), first, second, c);
  }

  lemma SamePairIff(x: (ActorType, Option<string>), y: (ActorType, Option<string>), first: Command, second: Command, c: Command)
    requires forall t, i :: IsActor(t, i, first, c) <==> x == (t, i)
    requires forall t, i :: IsActor(t, i, second, c) <==> y == (t, i)
    ensures SameActorBehind(first, second, c) <==> x == y
  {
    assert IsActor(x.0, x.1, first, c);
  }

  lemma ActorsAgreeIff(env: Env, first: Command, second: Command, cs: seq<Command>)
    requires PrepareScope(env, first).Success? && PrepareScope(env, second).Success?
    ensures ActorsAgree(cs, |cs|, PrepareScope(env, first).value, PrepareScope(env, second).value) <==> SameActorsBehind(first, second, cs)
  {
    forall k | 0 <= k < |cs| && cs[k].recordActivity
      ensures SameActorBehind(first, second, cs[k]) <==> SameActor(PrepareScope(env, first).value, PrepareScope(env, second).value, cs[k])
    {
      SameActorIff(env, first, second, cs[k]);
    }
  }

  lemma NoExceptionInParts(a: seq<Command>, b: seq<Command>)
    requires !HasException(a + b)
    ensures !HasException(a) && !HasException(b)
  {
    forall k | 0 <= k < |a| ensures !a[k].activityType.Exception? { assert (a + b)[k] == a[k]; }
    forall k | 0 <= k < |b| ensures !b[k].activityType.Exception? { assert (a + b)[|a| + k] == b[k]; }
  }

  /** The tables after a batch without exceptions on an existing row. */
  function PlainTables(tables: Tables, scope: Scope, cs: seq<Command>): Tables
    requires cs != []
  {
    Extended(tables, scope.lifecycleId, After(RowAt(tables.rows, scope.lifecycleId), NO_PAUSE, scope, cs, |cs|))
  }

  lemma PlainBatch(env: Env, tables: Tables, cs: seq<Command>)
    requires cs != [] && !HasException(cs) && PrepareScope(env, cs[0]).Success?
    requires PrepareScope(env, cs[0]).value.lifecycleId in tables.rows
    requires FirstError(env, PrepareScope(env, cs[0]).value, cs, |cs|).None?
    ensures BatchOutcome(env, tables, cs) == Success(PlainTables(tables, PrepareScope(env, cs[0]).value, cs))
  {
    NoExceptionNoPause(cs);
  }

  lemma SplitRows(start: Row, y: Row, scope: Scope, other: Scope, a: seq<Command>, b: seq<Command>)
    requires a != [] && b != [] && After(Some(start), NO_PAUSE, scope, a, |a|).row == Some(y)
    ensures var s, t := After(Some(start), NO_PAUSE, scope, a + b, |a + b|).row, After(Some(y), NO_PAUSE, other, b, |b|).row;
            && s.Some? && t.Some?
            && (s == t <==> StoredAfter(NormRow(start), a + b) == StoredAfter(NormRow(y), b))
  {
    RowsAreClose(start, y, scope, other, a, b, |b|);
    StateIsFold(start, NO_PAUSE, scope, a + b, |a + b|);
    StateIsFold(y, NO_PAUSE, other, b, |b|);
    assert |a| + |b| == |a + b| && (a + b)[0] == a[0];
    CloseIsEqualIff(After(Some(start), NO_PAUSE, scope, a + b, |a + b|).row.value, After(Some(y), NO_PAUSE, other, b, |b|).row.value);
  }

  lemma SplitTables(tables: Tables, scope: Scope, other: Scope, a: seq<Command>, b: seq<Command>)
    requires a != [] && b != [] && SameButActor(scope, other) && scope.lifecycleId in tables.rows
    ensures scope.lifecycleId in PlainTables(tables, scope, a).rows
    ensures var base := NormRow(tables.rows[scope.lifecycleId]);
            var joined := PlainTables(tables, scope, a + b);
            var second := PlainTables(PlainTables(tables, scope, a), other, b);
            && (joined.rows == second.rows <==> StoredAfter(base, a + b) == StoredAfter(StoredAfter(base, a), b))
            && (EraseActors(joined.log) == EraseActors(second.log) <==> SameWhereLogged(base, a, b, |b|))
            && (joined.log == second.log <==> SameWhereLogged(base, a, b, |b|) && ActorsAgree(b, |b|, scope, other))
  {
    var id := scope.lifecycleId;
    var start := tables.rows[id];
    var front := After(Some(start), NO_PAUSE, scope, a, |a|);
    StateIsFold(start, NO_PAUSE, scope, a, |a|);
    var y := front.row.value;
    var joined, second := After(Some(start), NO_PAUSE, scope, a + b, |a + b|), After(Some(y), NO_PAUSE, other, b, |b|);
    SplitRows(start, y, scope, other, a, b);
    SplitLogs(tables.log, start, y, scope, other, a, b);
    RowsIff(tables, id, front, joined, second);
  }

  lemma RowsIff(tables: Tables, id: string, front: Progress, joined: Progress, second: Progress)
    requires id in tables.rows && front.row.Some? && joined.row.Some? && second.row.Some?
    ensures Extended(tables, id, joined).rows == Extended(Extended(tables, id, front), id, second).rows <==> joined.row == second.row
  {
    var x, y := Extended(tables, id, joined).rows, Extended(Extended(tables, id, front), id, second).rows;
    assert x[id] == joined.row.value && y[id] == second.row.value;
  }

  /**
   Any exception-free commands of one scope on an existing row, as one batch and as two. The
   rows agree exactly when the two ways store the same pair; the logs agree up to the actor
   columns exactly when every logged command of `b` logs the same pairs; and they agree in
   full exactly when, besides, every logged command of `b` gets the same actor from the first
   command of `a` as from that of `b`.
   */
  lemma SplitIff(env: Env, tables: Tables, a: seq<Command>, b: seq<Command>, tenant: string, id: string, run: Option<string>)
    requires a != [] && b != [] && !HasException(a + b)
    requires AllInScope(env, a + b, |a + b|, tenant, id, run) && id in tables.rows
    ensures var base := NormRow(tables.rows[id]);
            var joined := BatchOutcome(env, tables, a + b);
            var first := BatchOutcome(env, tables, a);
            && joined.Success? && first.Success?
            && var second := BatchOutcome(env, first.value, b);
            && second.Success?
            && (joined.value.rows == second.value.rows <==> StoredAfter(base, a + b) == StoredAfter(StoredAfter(base, a), b))
            && (EraseActors(joined.value.log) == EraseActors(second.value.log) <==> SameWhereLogged(base, a, b, |b|))
            && (joined.value.log == second.value.log
                <==> SameWhereLogged(base, a, b, |b|) && SameActorsBehind(a[0], b[0], b))
  {
    JoinedScope(env, a, b, tenant, id, run);
    ActorsAgreeIff(env, a[0], b[0], b);
    NoExceptionInParts(a, b);
    var scope, other := PrepareScope(env, a[0]).value, PrepareScope(env, b[0]).value;
    assert scope.lifecycleId == id by { assert a[0] in [a[0], b[0]]; }
    assert (a + b)[0] == a[0];
    SplitTables(tables, scope, other, a, b);
    PlainBatch(env, tables, a + b);
    PlainBatch(env, tables, a);
    PlainBatch(env, PlainTables(tables, scope, a), b);
  }

  /** Where the seam does not show, splitting is invisible in the rows, and in the log up to the actor columns. */
  lemma SplitIsInvisible(env: Env, tables: Tables, a: seq<Command>, b: seq<Command>, tenant: string, id: string, run: Option<string>)
    requires a != [] && b != [] && !HasException(a + b)
    requires AllInScope(env, a + b, |a + b|, tenant, id, run) && id in tables.rows
    requires Seamless(NormRow(tables.rows[id]), a, b)
    ensures var joined := BatchOutcome(env, tables, a + b);
            var first := BatchOutcome(env, tables, a);
            && joined.Success? && first.Success?
            && var second := BatchOutcome(env, first.value, b);
            && second.Success?
            && joined.value.rows == second.value.rows
            && EraseActors(joined.value.log) == EraseActors(second.value.log)
            && (joined.value.log == second.value.log
                <==> SameActorsBehind(a[0], b[0], b))
  {
    SplitIff(env, tables, a, b, tenant, id, run);
    SeamlessIsAlike(NormRow(tables.rows[id]), a, b);
  }

  // ----- why no snapshot may follow a transition

  /**
   A snapshot re-reads the row as it was when its batch began. After a transition that
   brings `pending_review` back, so a following sub-status change is promoted to
   `processing` in the joined batch and not in the split one; and the chain of logged
   pairs breaks at the snapshot.
   */
  lemma SnapshotAfterTransitionMatters(scope: Scope)
    ensures var start := Some(Row(Some(PendingReview), Some(TenderCreated), None));
            var a := [SystemCommand(StatusChange, Some(Completed), None)];
            var b := [SystemCommand(Action, None, None), SystemCommand(SubStatusChange, None, Some(Accepted))];
            var joined := After(start, NO_PAUSE, scope, a + b, 3);
            var front := After(start, NO_PAUSE, scope, a, 1);
            var second := After(front.row, NO_PAUSE, scope, b, 2);
            && joined.row == Some(Row(Some(Processing), Some(Accepted), None))
            && second.row == Some(Row(Some(Completed), Some(Accepted), None))
            && |joined.trace| == 3 && joined.trace[1].from != joined.trace[0].to
  {
    var start := Some(Row(Some(PendingReview), Some(TenderCreated), None));
    var a := [SystemCommand(StatusChange, Some(Completed), None)];
    var b := [SystemCommand(Action, None, None), SystemCommand(SubStatusChange, None, Some(Accepted))];
    var j0 := Begin(start, a + b);
    var j1 := Step(start, NO_PAUSE, scope, a[0], j0);
    var j2 := Step(start, NO_PAUSE, scope, b[0], j1);
    var j3 := Step(start, NO_PAUSE, scope, b[1], j2);
    assert After(start, NO_PAUSE, scope, a + b, 0) == j0;
    assert After(start, NO_PAUSE, scope, a + b, 1) == j1;
    assert After(start, NO_PAUSE, scope, a + b, 2) == j2;
    assert After(start, NO_PAUSE, scope, a + b, 3) == j3;
    var f := Step(start, NO_PAUSE, scope, a[0], Begin(start, a));
    assert After(start, NO_PAUSE, scope, a, 0) == Begin(start, a);
    assert After(start, NO_PAUSE, scope, a, 1) == f;
    var s1 := Step(f.row, NO_PAUSE, scope, b[0], Begin(f.row, b));
    assert After(f.row, NO_PAUSE, scope, b, 0) == Begin(f.row, b);
    assert After(f.row, NO_PAUSE, scope, b, 1) == s1;
    assert After(f.row, NO_PAUSE, scope, b, 2) == Step(f.row, NO_PAUSE, scope, b[1], s1);
  }
}
