/** Carrier ordinals are a bijection onto 1..n that all readers agree on. */
module CarrierThreadsProperties {
  import opened Wrappers
  import opened Text
  import opened Communications
  import opened CarrierThreads

  // ----- which messages count

  /**
   A message counts for the queried lifecycle: its tenant is the query's, its run exists and
   handles the queried event, its own lifecycle is the queried one or, when it has none, its
   run's is, and its thread id holds something other than spaces.
   */
  predicate CountsFor(runs: map<string, RunRow>, q: Query, c: Comm) {
    && c.tenant == q.tenant
    && (exists run | run in runs :: c.runId == Some(run) && runs[run].eventType == q.eventType
          && (if c.lifecycleId.Some? then c.lifecycleId.value == q.lifecycle else runs[run].lifecycleId == Some(q.lifecycle)))
    && c.threadId.Some? && exists k | 0 <= k < |c.threadId.value| :: c.threadId.value[k] != ' '
  }

  lemma QualifiesIff(runs: map<string, RunRow>, q: Query, c: Comm)
    ensures Qualifies(runs, q, c) <==> CountsFor(runs, q, c)
  {
  }

  /** Row `k` links `thread` to the lifecycle. */
  predicate Links(runs: map<string, RunRow>, q: Query, c: Comm, thread: string) {
    CountsFor(runs, q, c) && c.threadId.value == thread
  }

  predicate LinkedBefore(runs: map<string, RunRow>, q: Query, rows: seq<Comm>, n: nat, thread: string)
    requires n <= |rows|
  {
    exists k | 0 <= k < n :: Links(runs, q, rows[k], thread)
  }

  /** The anchors of a table: each linked thread once, with the time of its earliest linked message. */
  lemma {:induction false} AnchorsMeaning(runs: map<string, RunRow>, q: Query, rows: seq<Comm>, n: nat, thread: string)
    requires n <= |rows|
    ensures var anchors := ThreadAnchors(runs, q, rows, n);
            && DistinctThreads(anchors)
            && (Anchored(anchors, thread) <==> LinkedBefore(runs, q, rows, n, thread))
            && (Anchored(anchors, thread) ==>
                  && (exists k | 0 <= k < n :: Links(runs, q, rows[k], thread) && rows[k].createdAt == AnchorOf(anchors, thread))
                  && (forall k | 0 <= k < n && Links(runs, q, rows[k], thread) :: AnchorOf(anchors, thread) <= rows[k].createdAt))
            && (Anchored(anchors, thread) ==> !SqlBlank(thread))
  {
    if n > 0 {
      AnchorsMeaning(runs, q, rows, n - 1, thread);
      var c, before := rows[n - 1], ThreadAnchors(runs, q, rows, n - 1);
      QualifiesIff(runs, q, c);
      if CountsFor(runs, q, c) {
        AddAnchorMeaning(before, c.threadId.value, c.createdAt);
      }
    }
  }

  // ----- ranking

  predicate Ascending(anchors: seq<Anchor>) {
    forall i, j | 0 <= i < j < |anchors| :: anchors[i].at <= anchors[j].at
  }

  function CountEarlier(anchors: seq<Anchor>, at: int): nat {
    if anchors == [] then 0 else (if anchors[0].at < at then 1 else 0) + CountEarlier(anchors[1..], at)
  }

  lemma {:induction false} InsertRankedSorts(a: Anchor, ranked: seq<Anchor>)
    requires Ascending(ranked)
    ensures Ascending(InsertRanked(a, ranked))
    ensures |InsertRanked(a, ranked)| == |ranked| + 1
    ensures forall b :: b in InsertRanked(a, ranked) <==> b == a || b in ranked
    ensures forall at :: CountEarlier(InsertRanked(a, ranked), at) == (if a.at < at then 1 else 0) + CountEarlier(ranked, at)
  {
    if ranked != [] && a.at >= ranked[0].at {
      var rest := InsertRanked(a, ranked[1..]);
      InsertRankedSorts(a, ranked[1..]);
      forall k | 0 <= k < |rest| ensures ranked[0].at <= rest[k].at {
        assert rest[k] in rest;
        assert rest[k] == a || rest[k] in ranked[1..];
      }
    }
  }

  lemma {:induction false} RankedSorts(anchors: seq<Anchor>)
    ensures Ascending(Ranked(anchors)) && |Ranked(anchors)| == |anchors|
    ensures forall b :: b in Ranked(anchors) <==> b in anchors
    ensures forall at :: CountEarlier(Ranked(anchors), at) == CountEarlier(anchors, at)
  {
    if anchors != [] {
      RankedSorts(anchors[1..]);
      InsertRankedSorts(anchors[0], Ranked(anchors[1..]));
    }
  }

  lemma InsertRankedDistinct(a: Anchor, ranked: seq<Anchor>)
    requires DistinctThreads(ranked) && !Anchored(ranked, a.thread)
    ensures DistinctThreads(InsertRanked(a, ranked))
    ensures forall t :: Anchored(InsertRanked(a, ranked), t) <==> t == a.thread || Anchored(ranked, t)
  {
    var inserted := InsertRanked(a, ranked);
    if ranked == [] {
      assert inserted[0].thread == a.thread;
    } else if a.at < ranked[0].at {
      HeadAndTail(inserted);
    } else {
      HeadAndTail(ranked);
      InsertRankedDistinct(a, ranked[1..]);
      HeadAndTail(inserted);
      assert inserted[1..] == InsertRanked(a, ranked[1..]);
    }
  }

  lemma {:induction false} RankedDistinct(anchors: seq<Anchor>)
    requires DistinctThreads(anchors)
    ensures DistinctThreads(Ranked(anchors))
    ensures forall t :: Anchored(Ranked(anchors), t) <==> Anchored(anchors, t)
  {
    if anchors != [] {
      HeadAndTail(anchors);
      RankedDistinct(anchors[1..]);
      InsertRankedDistinct(anchors[0], Ranked(anchors[1..]));
    }
  }

  lemma {:induction false} PlaceOfEntry(ranked: seq<Anchor>, k: nat)
    requires k < |ranked| && DistinctThreads(ranked)
    ensures PlaceOf(ranked, ranked[k].thread) == Some(k + 1)
  {
    if k > 0 {
      assert ranked[1..][k - 1] == ranked[k];
      PlaceOfEntry(ranked[1..], k - 1);
    }
  }

  lemma {:induction false} PlaceOfIsEntry(ranked: seq<Anchor>, thread: string)
    ensures PlaceOf(ranked, thread).Some? <==> Anchored(ranked, thread)
    ensures PlaceOf(ranked, thread).Some? ==>
              1 <= PlaceOf(ranked, thread).value <= |ranked| && ranked[PlaceOf(ranked, thread).value - 1].thread == thread
  {
    if ranked != [] {
      HeadAndTail(ranked);
      PlaceOfIsEntry(ranked[1..], thread);
    }
  }

  /** Ordinals are a bijection between the anchored threads and 1..n. */
  lemma OrdinalsAreBijection(anchors: seq<Anchor>, thread: string, attempt: int)
    requires DistinctThreads(anchors)
    ensures ThreadAttemptForLifecycle(anchors, thread).Some? <==> Anchored(anchors, thread)
    ensures Anchored(anchors, thread) ==> 1 <= ThreadAttemptForLifecycle(anchors, thread).value <= |anchors|
    ensures ThreadAttemptForLifecycle(anchors, thread) == Some(attempt)
       <==> 1 <= attempt <= |Ranked(anchors)| && Ranked(anchors)[attempt - 1].thread == thread
    ensures |Ranked(anchors)| == |anchors|
  {
    RankedSorts(anchors);
    RankedDistinct(anchors);
    PlaceOfIsEntry(Ranked(anchors), thread);
    if 1 <= attempt <= |anchors| {
      PlaceOfEntry(Ranked(anchors), attempt - 1);
    }
  }

  /**
   `find_linked_thread_for_lifecycle(attempt)` and `thread_attempt_for_lifecycle(thread)`
   are inverses exactly on threads without outer white space: the first strips what it
   returns, the second looks for the text it is given.
   */
  lemma LookupsAreInverseIff(anchors: seq<Anchor>, thread: string)
    requires DistinctThreads(anchors) && Anchored(anchors, thread) && !SqlBlank(thread)
    ensures ThreadAttemptForLifecycle(anchors, thread).Some?
    ensures var attempt := ThreadAttemptForLifecycle(anchors, thread).value;
            && (FindLinkedThreadForLifecycle(anchors, Some(attempt)) == Some(thread) <==> Trimmed(thread))
            && (FindLinkedThreadForLifecycle(anchors, Some(attempt)).Some?
                && ThreadAttemptForLifecycle(anchors, FindLinkedThreadForLifecycle(anchors, Some(attempt)).value) == Some(attempt)
                <==> Trimmed(thread))
  {
    OrdinalsAreBijection(anchors, thread, 1);
    var attempt := ThreadAttemptForLifecycle(anchors, thread).value;
    OrdinalsAreBijection(anchors, thread, attempt);
    OrdinalsAreBijection(anchors, Strip(thread), attempt);
    StripTrims(thread);
    assert thread != "";
  }

  /** The reader by ordinal: the stripped id of the thread with that ordinal, or nothing without one or for a blank id. */
  lemma LookupReturns(anchors: seq<Anchor>, thread: string, attempt: int)
    requires DistinctThreads(anchors)
    ensures Anchored(anchors, thread) && ThreadAttemptForLifecycle(anchors, thread) == Some(attempt) ==>
              FindLinkedThreadForLifecycle(anchors, Some(attempt)) == if Strip(thread) == "" then None else Some(Strip(thread))
    ensures attempt < 1 || attempt > |anchors| ==> FindLinkedThreadForLifecycle(anchors, Some(attempt)) == None
    ensures FindInboundThreadForLifecycle(anchors, Some(attempt)) == FindLinkedThreadForLifecycle(anchors, Some(attempt))
    ensures FindLinkedThreadForLifecycle([], None) == FindInboundThreadForLifecycle([], None) == None
  {
    OrdinalsAreBijection(anchors, thread, attempt);
  }

  /** Thread " t" has attempt 1, and attempt 1 leads to "t", which has none. */
  lemma UntrimmedThreadIsLost(at: int)
    ensures var anchors := [Anchor(" t", at)];
            && ThreadAttemptForLifecycle(anchors, " t") == Some(1)
            && FindLinkedThreadForLifecycle(anchors, Some(1)) == Some("t")
            && ThreadAttemptForLifecycle(anchors, "t") == None
  {
    var anchors := [Anchor(" t", at)];
    assert anchors[1..] == [] && Ranked(anchors) == anchors;
    assert " t"[1..] == "t" && StripLeft("t") == "t" && StripRight("t") == "t";
    assert Strip(" t") == "t" && |" t"| == 2 && |"t"| == 1;
    assert PlaceOf([], "t") == None && PlaceOf(anchors, "t") == None;
  }

  /** `is_thread_linked_to_lifecycle` agrees with the ordinal, and without an ordinal with having one. */
  lemma LinkedAgrees(anchors: seq<Anchor>, thread: string, attempt: int)
    requires DistinctThreads(anchors)
    ensures IsThreadLinkedToLifecycle(anchors, thread, Some(attempt)) <==> ThreadAttemptForLifecycle(anchors, thread) == Some(attempt)
    ensures IsThreadLinkedToLifecycle(anchors, thread, None) <==> ThreadAttemptForLifecycle(anchors, thread).Some?
  {
    OrdinalsAreBijection(anchors, thread, attempt);
    if 1 <= attempt <= |anchors| && Ranked(anchors)[attempt - 1].thread == thread {
      var k := attempt - 1;
      assert Ranked(anchors)[k].thread == thread && k + 1 == attempt;
    }
  }

  lemma EarliestAndLatest(anchors: seq<Anchor>)
    requires anchors != []
    ensures Earliest(anchors) in anchors && forall a | a in anchors :: Earliest(anchors).at <= a.at
    ensures Latest(anchors) in anchors && forall a | a in anchors :: a.at <= Latest(anchors).at
  {
    if |anchors| > 1 {
      EarliestAndLatest(anchors[1..]);
      assert forall a :: a in anchors <==> a == anchors[0] || a in anchors[1..];
    }
  }

  lemma SameTimeSameAnchor(anchors: seq<Anchor>, a: Anchor, b: Anchor)
    requires DistinctTimes(anchors) && a in anchors && b in anchors && a.at == b.at
    ensures a == b
  {
    var i :| 0 <= i < |anchors| && anchors[i] == a;
    var j :| 0 <= j < |anchors| && anchors[j] == b;
    assert i == j;
  }

  /** Without an attempt, the linked lookup is ordinal 1 and the inbound lookup is ordinal n. */
  lemma AttemptlessLookups(anchors: seq<Anchor>)
    requires DistinctTimes(anchors) && anchors != []
    ensures FindLinkedThreadForLifecycle(anchors, None) == FindLinkedThreadForLifecycle(anchors, Some(1))
    ensures FindInboundThreadForLifecycle(anchors, None) == FindInboundThreadForLifecycle(anchors, Some(|anchors|))
  {
    RankedSorts(anchors);
    EarliestAndLatest(anchors);
    var ranked := Ranked(anchors);
    var first, last := ranked[0], ranked[|ranked| - 1];
    assert first in ranked && last in ranked;
    assert Earliest(anchors) in ranked && Latest(anchors) in ranked;
    SameTimeSameAnchor(anchors, first, Earliest(anchors));
    SameTimeSameAnchor(anchors, last, Latest(anchors));
  }

  // ----- the ordinal without sorting

  lemma {:induction false} CountInAscending(ranked: seq<Anchor>, k: nat)
    requires k < |ranked| && Ascending(ranked)
    requires forall i, j | 0 <= i < j < |ranked| :: ranked[i].at != ranked[j].at
    ensures CountEarlier(ranked, ranked[k].at) == k
  {
    if k > 0 {
      assert ranked[1..][k - 1] == ranked[k];
      CountInAscending(ranked[1..], k - 1);
    } else {
      NoneEarlier(ranked, ranked[0].at);
    }
  }

  lemma NoneEarlier(anchors: seq<Anchor>, at: int)
    requires forall k | 0 <= k < |anchors| :: anchors[k].at >= at
    ensures CountEarlier(anchors, at) == 0
  {
  }

  lemma {:induction false} RankedDistinctTimes(anchors: seq<Anchor>)
    requires DistinctTimes(anchors)
    ensures DistinctTimes(Ranked(anchors))
  {
    if anchors != [] {
      RankedDistinctTimes(anchors[1..]);
      RankedSorts(anchors[1..]);
      forall a | a in Ranked(anchors[1..]) ensures a.at != anchors[0].at {
        assert a in anchors[1..];
      }
      InsertDistinctTimes(anchors[0], Ranked(anchors[1..]));
    }
  }

  lemma {:induction false} InsertDistinctTimes(a: Anchor, ranked: seq<Anchor>)
    requires DistinctTimes(ranked) && forall b | b in ranked :: b.at != a.at
    ensures DistinctTimes(InsertRanked(a, ranked))
    ensures forall b :: b in InsertRanked(a, ranked) <==> b == a || b in ranked
  {
    if ranked != [] && a.at >= ranked[0].at {
      var rest := InsertRanked(a, ranked[1..]);
      InsertDistinctTimes(a, ranked[1..]);
      forall k | 0 <= k < |rest| ensures rest[k].at != ranked[0].at {
        assert rest[k] in rest;
        if rest[k] != a {
          var i :| 0 <= i < |ranked[1..]| && ranked[1..][i] == rest[k];
          assert ranked[i + 1] == rest[k];
        }
      }
    }
  }

  /** A thread's attempt is one more than the number of threads anchored before it. */
  lemma OrdinalCountsEarlier(anchors: seq<Anchor>, thread: string)
    requires DistinctThreads(anchors) && DistinctTimes(anchors) && Anchored(anchors, thread)
    ensures ThreadAttemptForLifecycle(anchors, thread) == Some(1 + CountEarlier(anchors, AnchorOf(anchors, thread)))
  {
    OrdinalsAreBijection(anchors, thread, 1);
    var attempt := ThreadAttemptForLifecycle(anchors, thread).value;
    OrdinalsAreBijection(anchors, thread, attempt);
    RankedSorts(anchors);
    RankedDistinctTimes(anchors);
    var ranked := Ranked(anchors);
    var k := attempt - 1;
    assert ranked[k] in ranked && ranked[k].thread == thread;
    var i :| 0 <= i < |anchors| && anchors[i] == ranked[k];
    AnchorOfIsListed(anchors, i);
    CountInAscending(ranked, k);
  }

  // ----- inserting a linked message

  lemma {:induction false} AddAnchorCount(anchors: seq<Anchor>, thread: string, at: int, x: int)
    requires DistinctThreads(anchors)
    ensures CountEarlier(AddAnchor(anchors, thread, at), x)
         == CountEarlier(anchors, x) + (if at < x && !(Anchored(anchors, thread) && AnchorOf(anchors, thread) < x) then 1 else 0)
  {
    if anchors != [] {
      HeadAndTail(anchors);
      if anchors[0].thread != thread {
        AddAnchorCount(anchors[1..], thread, at, x);
      }
    }
  }

  /**
   A linked message of another thread keeps a thread's ordinal exactly unless it anchors
   that other thread before it for the first time.
   */
  lemma InsertKeepsOrdinalIff(anchors: seq<Anchor>, thread: string, other: string, at: int)
    requires DistinctThreads(anchors) && DistinctTimes(anchors) && DistinctTimes(AddAnchor(anchors, other, at))
    requires Anchored(anchors, thread) && other != thread
    ensures var x := AnchorOf(anchors, thread);
            ThreadAttemptForLifecycle(AddAnchor(anchors, other, at), thread) == ThreadAttemptForLifecycle(anchors, thread)
            <==> at >= x || (Anchored(anchors, other) && AnchorOf(anchors, other) < x)
  {
    AddAnchorMeaning(anchors, other, at);
    OrdinalCountsEarlier(anchors, thread);
    OrdinalCountsEarlier(AddAnchor(anchors, other, at), thread);
    AddAnchorCount(anchors, other, at, AnchorOf(anchors, thread));
  }

  lemma {:induction false} AddNewestAnchor(anchors: seq<Anchor>, thread: string, at: int)
    requires DistinctThreads(anchors) && forall a | a in anchors :: a.at < at
    ensures AddAnchor(anchors, thread, at) == if Anchored(anchors, thread) then anchors else anchors + [Anchor(thread, at)]
  {
    if anchors != [] {
      HeadAndTail(anchors);
      if anchors[0].thread != thread {
        AddNewestAnchor(anchors[1..], thread, at);
      }
    }
  }

  /**
   Inserting a message that is newer than every anchor, linked or not, changes no existing
   ordinal; a thread it anchors for the first time gets the next ordinal.
   */
  lemma NewestKeepsOrdinals(runs: map<string, RunRow>, q: Query, rows: seq<Comm>, c: Comm, thread: string)
    requires var anchors := ThreadAnchors(runs, q, rows, |rows|);
             DistinctTimes(anchors) && forall a | a in anchors :: a.at < c.createdAt
    ensures var anchors := ThreadAnchors(runs, q, rows, |rows|);
            var grown := ThreadAnchors(runs, q, rows + [c], |rows| + 1);
            && (Anchored(anchors, thread) ==> ThreadAttemptForLifecycle(grown, thread) == ThreadAttemptForLifecycle(anchors, thread))
            && (!Anchored(anchors, thread) && Links(runs, q, c, thread) ==>
                  ThreadAttemptForLifecycle(grown, thread) == Some(|anchors| + 1))
  {
    var anchors := ThreadAnchors(runs, q, rows, |rows|);
    AnchorsMeaning(runs, q, rows, |rows|, thread);
    SameRowsSameAnchors(runs, q, rows, rows + [c], |rows|);
    if CountsFor(runs, q, c) {
      NewestAnchorIsLast(anchors, c.threadId.value, c.createdAt);
      if Anchored(anchors, thread) {
        NewestAnchorKeeps(anchors, c.threadId.value, c.createdAt, thread);
      }
    }
  }

  lemma NewestKeepsTimesDistinct(anchors: seq<Anchor>, thread: string, at: int)
    requires DistinctThreads(anchors) && DistinctTimes(anchors) && forall a | a in anchors :: a.at < at
    ensures DistinctTimes(AddAnchor(anchors, thread, at))
  {
    AddNewestAnchor(anchors, thread, at);
    forall i | 0 <= i < |anchors| ensures anchors[i].at < at {
      assert anchors[i] in anchors;
    }
  }

  lemma NewestAnchorKeeps(anchors: seq<Anchor>, other: string, at: int, thread: string)
    requires DistinctThreads(anchors) && DistinctTimes(anchors) && forall a | a in anchors :: a.at < at
    requires Anchored(anchors, thread)
    ensures ThreadAttemptForLifecycle(AddAnchor(anchors, other, at), thread) == ThreadAttemptForLifecycle(anchors, thread)
  {
    AddNewestAnchor(anchors, other, at);
    if other != thread {
      NewestKeepsTimesDistinct(anchors, other, at);
      AnchorIsEntry(anchors, thread);
      InsertKeepsOrdinalIff(anchors, thread, other, at);
    }
  }

  lemma NewestAnchorIsLast(anchors: seq<Anchor>, thread: string, at: int)
    requires DistinctThreads(anchors) && DistinctTimes(anchors) && forall a | a in anchors :: a.at < at
    ensures !Anchored(anchors, thread) ==> ThreadAttemptForLifecycle(AddAnchor(anchors, thread, at), thread) == Some(|anchors| + 1)
  {
    if !Anchored(anchors, thread) {
      NewestKeepsTimesDistinct(anchors, thread, at);
      AddAnchorMeaning(anchors, thread, at);
      OrdinalCountsEarlier(AddAnchor(anchors, thread, at), thread);
      AllEarlier(anchors, at);
      AddAnchorCount(anchors, thread, at, at);
    }
  }

  lemma {:induction false} AnchorIsEntry(anchors: seq<Anchor>, thread: string)
    requires Anchored(anchors, thread)
    ensures Anchor(thread, AnchorOf(anchors, thread)) in anchors
  {
    HeadAndTail(anchors);
    if anchors[0].thread != thread {
      AnchorIsEntry(anchors[1..], thread);
    }
  }

  lemma AllEarlier(anchors: seq<Anchor>, at: int)
    requires forall a | a in anchors :: a.at < at
    ensures CountEarlier(anchors, at) == |anchors|
  {
  }

  lemma {:induction false} SameRowsSameAnchors(runs: map<string, RunRow>, q: Query, rows: seq<Comm>, longer: seq<Comm>, n: nat)
    requires n <= |rows| && rows <= longer
    ensures ThreadAnchors(runs, q, longer, n) == ThreadAnchors(runs, q, rows, n)
  {
    if n > 0 { SameRowsSameAnchors(runs, q, rows, longer, n - 1); }
  }

  // ----- what links do to anchors

  /** What an operation does to a row that is already there. */
  function Applied(c: Comm, op: Op): Comm {
    match op
    case Insert(_) => c
    case LinkRun(id, runId, lifecycleId) => LinkRow(c, id, runId, lifecycleId)
    case LinkThread(tenant, thread, runId, lifecycleId) => LinkThreadRow(c, tenant, thread, runId, lifecycleId)
  }

  /** The operation fills in, for a message linked through its run alone, a lifecycle other than the query's. */
  predicate MovesAway(q: Query, c: Comm, op: Op) {
    && op.LinkRun? && c.id == op.id && c.runId == Some(op.runId) && c.lifecycleId.None?
    && op.lifecycleId.Some? && op.lifecycleId.value != q.lifecycle
  }

  /** A message that counts for a lifecycle goes on counting exactly unless it is moved away. */
  lemma LinkedRowStaysIff(runs: map<string, RunRow>, q: Query, c: Comm, op: Op)
    requires CountsFor(runs, q, c)
    ensures CountsFor(runs, q, Applied(c, op)) <==> !MovesAway(q, c, op)
    ensures Applied(c, op).threadId == c.threadId && Applied(c, op).createdAt == c.createdAt
  {
  }

  /** A row of the new table that links the thread and did not before. */
  predicate NewlyLinks(runs: map<string, RunRow>, q: Query, rows: seq<Comm>, op: Op, thread: string) {
    var after := Next(rows, op);
    exists k | 0 <= k < |after| :: Links(runs, q, after[k], thread) && (k >= |rows| || !CountsFor(runs, q, rows[k]))
  }

  predicate KeepsALink(runs: map<string, RunRow>, q: Query, rows: seq<Comm>, op: Op, thread: string) {
    exists k | 0 <= k < |rows| :: Links(runs, q, rows[k], thread) && !MovesAway(q, rows[k], op)
  }

  lemma RowsAfter(rows: seq<Comm>, op: Op)
    ensures |Next(rows, op)| >= |rows| && forall k | 0 <= k < |rows| :: Next(rows, op)[k] == Applied(rows[k], op)
  {
  }

  /** A thread is anchored after an operation exactly when one of its links was not moved away or a new one was made. */
  lemma OpKeepsAnchorIff(runs: map<string, RunRow>, q: Query, rows: seq<Comm>, op: Op, thread: string)
    ensures var after := Next(rows, op);
            Anchored(ThreadAnchors(runs, q, after, |after|), thread)
            <==> KeepsALink(runs, q, rows, op, thread) || NewlyLinks(runs, q, rows, op, thread)
  {
    var after := Next(rows, op);
    RowsAfter(rows, op);
    AnchorsMeaning(runs, q, after, |after|, thread);
    forall k | 0 <= k < |rows| && CountsFor(runs, q, rows[k])
      ensures Links(runs, q, after[k], thread) <==> Links(runs, q, rows[k], thread) && !MovesAway(q, rows[k], op)
    {
      LinkedRowStaysIff(runs, q, rows[k], op);
    }
    if LinkedBefore(runs, q, after, |after|, thread) {
      var k :| 0 <= k < |after| && Links(runs, q, after[k], thread);
      assert k < |rows| && CountsFor(runs, q, rows[k]) ==> Links(runs, q, rows[k], thread);
    }
    if KeepsALink(runs, q, rows, op, thread) {
      var k :| 0 <= k < |rows| && Links(runs, q, rows[k], thread) && !MovesAway(q, rows[k], op);
      assert Links(runs, q, after[k], thread);
    }
  }

  // ----- what links do to ordinals

  /** The threads anchored before `at`. */
  function EarlierThreads(anchors: seq<Anchor>, at: int): set<string> {
    set a | a in anchors && a.at < at :: a.thread
  }

  predicate AnchoredBefore(anchors: seq<Anchor>, thread: string, at: int) {
    Anchored(anchors, thread) && AnchorOf(anchors, thread) < at
  }

  lemma EarlierIs(anchors: seq<Anchor>, at: int, thread: string)
    requires DistinctThreads(anchors)
    ensures thread in EarlierThreads(anchors, at) <==> AnchoredBefore(anchors, thread, at)
  {
    if Anchored(anchors, thread) {
      var k :| 0 <= k < |anchors| && anchors[k].thread == thread;
      AnchorOfIsListed(anchors, k);
      assert anchors[k] in anchors;
    }
    if a :| a in anchors && a.at < at && a.thread == thread {
      var i :| 0 <= i < |anchors| && anchors[i] == a;
      AnchorOfIsListed(anchors, i);
    }
  }

  lemma {:induction false} EarlierSize(anchors: seq<Anchor>, at: int)
    requires DistinctThreads(anchors)
    ensures |EarlierThreads(anchors, at)| == CountEarlier(anchors, at)
  {
    if anchors != [] {
      var rest := EarlierThreads(anchors[1..], at);
      HeadAndTail(anchors);
      EarlierSize(anchors[1..], at);
      EarlierIs(anchors[1..], at, anchors[0].thread);
      assert anchors[0].thread !in rest;
      EarlierHead(anchors, at);
    }
  }

  lemma EarlierHead(anchors: seq<Anchor>, at: int)
    requires anchors != []
    ensures var rest := EarlierThreads(anchors[1..], at);
            EarlierThreads(anchors, at) == if anchors[0].at < at then rest + {anchors[0].thread} else rest
  {
    assert forall a :: a in anchors <==> a == anchors[0] || a in anchors[1..];
  }

  lemma EarlierThreadsAre(anchors: seq<Anchor>, at: int)
    requires DistinctThreads(anchors)
    ensures |EarlierThreads(anchors, at)| == CountEarlier(anchors, at)
    ensures forall t :: t in EarlierThreads(anchors, at) <==> AnchoredBefore(anchors, t, at)
  {
    EarlierSize(anchors, at);
    forall t ensures t in EarlierThreads(anchors, at) <==> AnchoredBefore(anchors, t, at) {
      EarlierIs(anchors, at, t);
    }
  }

  /** The two tables anchor every thread but `moved` alike. */
  ghost predicate SameButFor(before: seq<Anchor>, after: seq<Anchor>, moved: string) {
    forall t | t != moved ::
      && (Anchored(before, t) <==> Anchored(after, t))
      && (Anchored(before, t) ==> AnchorOf(before, t) == AnchorOf(after, t))
  }

  lemma OrdinalByEarlier(anchors: seq<Anchor>, thread: string)
    requires DistinctThreads(anchors) && DistinctTimes(anchors) && Anchored(anchors, thread)
    ensures ThreadAttemptForLifecycle(anchors, thread) == Some(1 + |EarlierThreads(anchors, AnchorOf(anchors, thread))|)
  {
    OrdinalCountsEarlier(anchors, thread);
    EarlierThreadsAre(anchors, AnchorOf(anchors, thread));
  }

  /** One thread's anchor comes, goes or moves: another keeps its ordinal exactly when that thread stays on its side of it. */
  lemma OtherKeepsOrdinalIff(before: seq<Anchor>, after: seq<Anchor>, moved: string, thread: string)
    requires DistinctThreads(before) && DistinctTimes(before) && DistinctThreads(after) && DistinctTimes(after)
    requires SameButFor(before, after, moved) && thread != moved && Anchored(before, thread)
    ensures Anchored(after, thread)
    ensures var at := AnchorOf(before, thread);
            ThreadAttemptForLifecycle(after, thread) == ThreadAttemptForLifecycle(before, thread)
            <==> (AnchoredBefore(before, moved, at) <==> AnchoredBefore(after, moved, at))
  {
    var at := AnchorOf(before, thread);
    assert Anchored(after, thread) && AnchorOf(after, thread) == at;
    OrdinalByEarlier(before, thread);
    OrdinalByEarlier(after, thread);
    EarlierThreadsAre(before, at);
    EarlierThreadsAre(after, at);
    SizesWithout(EarlierThreads(before, at), EarlierThreads(after, at), moved);
  }

  lemma SizesWithout(x: set<string>, y: set<string>, e: string)
    requires forall t | t != e :: t in x <==> t in y
    ensures |x| == |y| <==> (e in x <==> e in y)
  {
    assert x - {e} == y - {e};
    assert |x - {e}| == if e in x then |x| - 1 else |x|;
    assert |y - {e}| == if e in y then |y| - 1 else |y|;
  }

  /** The thread whose anchor moves keeps its own ordinal exactly when no other thread is anchored between the two times. */
  lemma MovedKeepsOrdinalIff(before: seq<Anchor>, after: seq<Anchor>, moved: string)
    requires DistinctThreads(before) && DistinctTimes(before) && DistinctThreads(after) && DistinctTimes(after)
    requires SameButFor(before, after, moved) && Anchored(before, moved) && Anchored(after, moved)
    ensures var x, y := AnchorOf(before, moved), AnchorOf(after, moved);
            ThreadAttemptForLifecycle(after, moved) == ThreadAttemptForLifecycle(before, moved)
            <==> forall t | t != moved :: AnchoredBefore(before, t, x) <==> AnchoredBefore(before, t, y)
  {
    var x, y := AnchorOf(before, moved), AnchorOf(after, moved);
    OrdinalByEarlier(before, moved);
    OrdinalByEarlier(after, moved);
    EarlierThreadsAre(before, x);
    EarlierThreadsAre(after, y);
    var p, q := EarlierThreads(before, x), EarlierThreads(after, y);
    assert forall t :: t in q <==> t != moved && AnchoredBefore(before, t, y);
    assert forall t :: t in p <==> t != moved && AnchoredBefore(before, t, x);
    if x <= y {
      NestedSizes(p, q);
    } else {
      NestedSizes(q, p);
    }
  }

  lemma NestedSizes(x: set<string>, y: set<string>)
    requires x <= y
    ensures |x| == |y| <==> x == y
  {
    assert |y| == |x| + |y - x| by { assert y == x + (y - x); }
    assert |y - x| == 0 <==> y - x == {};
  }

  /** Every row the operation adds or changes is a message of the thread. */
  predicate TouchesOnly(rows: seq<Comm>, op: Op, thread: string) {
    var after := Next(rows, op);
    forall k | 0 <= k < |after| :: (k >= |rows| || after[k] != rows[k]) ==> after[k].threadId == Some(thread)
  }

  /** A link to a thread touches that thread; one to a message, with ids unique, at most the message's; an insert the new message's. */
  lemma OpsTouchOneThread(rows: seq<Comm>, op: Op, thread: string)
    requires forall i, j | 0 <= i < j < |rows| :: rows[i].id != rows[j].id
    requires op.LinkThread? ==> thread == op.thread
    requires op.Insert? ==> op.row.threadId == Some(thread)
    requires op.LinkRun? ==> forall k | 0 <= k < |rows| && rows[k].id == op.id :: rows[k].threadId == Some(thread)
    ensures TouchesOnly(rows, op, thread)
  {
  }

  lemma UntouchedThread(runs: map<string, RunRow>, q: Query, rows: seq<Comm>, op: Op, touched: string, thread: string)
    requires TouchesOnly(rows, op, touched) && thread != touched
    ensures var before, after := ThreadAnchors(runs, q, rows, |rows|), ThreadAnchors(runs, q, Next(rows, op), |Next(rows, op)|);
            && (Anchored(before, thread) <==> Anchored(after, thread))
            && (Anchored(before, thread) ==> AnchorOf(before, thread) == AnchorOf(after, thread))
  {
    var next := Next(rows, op);
    RowsAfter(rows, op);
    AnchorsMeaning(runs, q, rows, |rows|, thread);
    AnchorsMeaning(runs, q, next, |next|, thread);
    forall k | 0 <= k < |next| && Links(runs, q, next[k], thread) ensures k < |rows| && next[k] == rows[k] {
    }
    forall k | 0 <= k < |rows| && Links(runs, q, rows[k], thread) ensures next[k] == rows[k] {
      assert Applied(rows[k], op).threadId == rows[k].threadId;
    }
  }

  /**
   Whatever one insert or link does to the anchors of the thread it touches: another thread
   keeps its attempt exactly when the touched one stays on the same side of it, and the
   touched one keeps its own exactly when no other is anchored between its two times.
   */
  lemma OpKeepsOrdinalIff(runs: map<string, RunRow>, q: Query, rows: seq<Comm>, op: Op, touched: string, thread: string)
    requires TouchesOnly(rows, op, touched)
    requires DistinctTimes(ThreadAnchors(runs, q, rows, |rows|))
    requires DistinctTimes(ThreadAnchors(runs, q, Next(rows, op), |Next(rows, op)|))
    requires Anchored(ThreadAnchors(runs, q, rows, |rows|), thread)
    requires Anchored(ThreadAnchors(runs, q, Next(rows, op), |Next(rows, op)|), thread)
    ensures var before, after := ThreadAnchors(runs, q, rows, |rows|), ThreadAnchors(runs, q, Next(rows, op), |Next(rows, op)|);
            var x, y := AnchorOf(before, thread), AnchorOf(after, thread);
            ThreadAttemptForLifecycle(after, thread) == ThreadAttemptForLifecycle(before, thread)
            <==> if thread != touched then AnchoredBefore(before, touched, x) <==> AnchoredBefore(after, touched, x)
                 else forall t | t != touched :: AnchoredBefore(before, t, x) <==> AnchoredBefore(before, t, y)
  {
    var before, after := ThreadAnchors(runs, q, rows, |rows|), ThreadAnchors(runs, q, Next(rows, op), |Next(rows, op)|);
    AnchorsMeaning(runs, q, rows, |rows|, thread);
    AnchorsMeaning(runs, q, Next(rows, op), |Next(rows, op)|, thread);
    assert SameButFor(before, after, touched) by {
      forall t | t != touched
        ensures (Anchored(before, t) <==> Anchored(after, t)) && (Anchored(before, t) ==> AnchorOf(before, t) == AnchorOf(after, t))
      {
        UntouchedThread(runs, q, rows, op, touched, t);
      }
    }
    if thread != touched {
      OtherKeepsOrdinalIff(before, after, touched, thread);
    } else {
      MovedKeepsOrdinalIff(before, after, thread);
    }
  }
}
