/**
 Carrier threads of a lifecycle, ranked into routing-guide attempts: the common table
 expressions and the readers over them (app/repositories/communications_repository.py).
 */
module CarrierThreads {
  import opened Wrappers
  import opened Text
  import opened Communications

  /** A `workflow_runs` row, as far as the queries join it. */
  datatype RunRow = RunRow(lifecycleId: Option<string>, eventType: string)

  datatype Query = Query(tenant: string, lifecycle: string, eventType: string)

  /** SQL `TRIM(x) = ''`: nothing but plain spaces. */
  predicate SqlBlank(s: string) {
    forall k | 0 <= k < |s| :: s[k] == ' '
  }

  /** The row passes the join and the WHERE clause of `_carrier_anchors_ranked_sql`. */
  predicate Qualifies(runs: map<string, RunRow>, q: Query, c: Comm) {
    && c.tenant == q.tenant
    && c.runId.Some? && c.runId.value in runs
    && var wr := runs[c.runId.value];
    && (c.lifecycleId == Some(q.lifecycle) || (c.lifecycleId.None? && wr.lifecycleId == Some(q.lifecycle)))
    && wr.eventType == q.eventType
    && c.threadId.Some? && !SqlBlank(c.threadId.value)
  }

  datatype Anchor = Anchor(thread: string, at: int)

  /** One more qualifying row: DISTINCT ON keeps the thread's earliest time. */
  function AddAnchor(anchors: seq<Anchor>, thread: string, at: int): seq<Anchor> {
    if anchors == [] then [Anchor(thread, at)]
    else if anchors[0].thread == thread then [Anchor(thread, if at < anchors[0].at then at else anchors[0].at)] + anchors[1..]
    else [anchors[0]] + AddAnchor(anchors[1..], thread, at)
  }

  /** The `thread_anchors` CTE over the first `n` rows of the table. */
  function ThreadAnchors(runs: map<string, RunRow>, q: Query, rows: seq<Comm>, n: nat): seq<Anchor>
    requires n <= |rows|
  {
    if n == 0 then []
    else
      var c, before := rows[n - 1], ThreadAnchors(runs, q, rows, n - 1);
      if Qualifies(runs, q, c) then AddAnchor(before, c.threadId.value, c.createdAt) else before
  }

  function InsertRanked(a: Anchor, ranked: seq<Anchor>): seq<Anchor> {
    if ranked == [] then [a]
    else if a.at < ranked[0].at then [a] + ranked
    else [ranked[0]] + InsertRanked(a, ranked[1..])
  }

  /** The `ranked` CTE: the `ROW_NUMBER` of an entry is its place, from 1. */
  function Ranked(anchors: seq<Anchor>): seq<Anchor> {
    if anchors == [] then [] else InsertRanked(anchors[0], Ranked(anchors[1..]))
  }

  // ----- the readers

  /** The readers return `str(thread_id).strip() or None`. */
  function CleanThread(thread: string): Option<string> {
    if Strip(thread) == "" then None else Some(Strip(thread))
  }

  /** `SELECT thread_id FROM ranked WHERE anchor_attempt = :n` */
  function FindByOrdinal(anchors: seq<Anchor>, attempt: int): Option<string> {
    var ranked := Ranked(anchors);
    if 1 <= attempt <= |ranked| then CleanThread(ranked[attempt - 1].thread) else None
  }

  /** `ORDER BY anchored_at ASC LIMIT 1` */
  function Earliest(anchors: seq<Anchor>): Anchor
    requires anchors != []
  {
    if |anchors| == 1 then anchors[0]
    else
      var rest := Earliest(anchors[1..]);
      if anchors[0].at <= rest.at then anchors[0] else rest
  }

  /** `ORDER BY anchored_at DESC LIMIT 1` */
  function Latest(anchors: seq<Anchor>): Anchor
    requires anchors != []
  {
    if |anchors| == 1 then anchors[0]
    else
      var rest := Latest(anchors[1..]);
      if anchors[0].at >= rest.at then anchors[0] else rest
  }

  function FindLinkedThreadForLifecycle(anchors: seq<Anchor>, attempt: Option<int>): Option<string> {
    if attempt.Some? then FindByOrdinal(anchors, attempt.value)
    else if anchors == [] then None
    else CleanThread(Earliest(anchors).thread)
  }

  function FindInboundThreadForLifecycle(anchors: seq<Anchor>, attempt: Option<int>): Option<string> {
    if attempt.Some? then FindByOrdinal(anchors, attempt.value)
    else if anchors == [] then None
    else CleanThread(Latest(anchors).thread)
  }

  function PlaceOf(ranked: seq<Anchor>, thread: string): Option<int> {
    if ranked == [] then None
    else if ranked[0].thread == thread then Some(1)
    else
      var rest := PlaceOf(ranked[1..], thread);
      if rest.Some? then Some(rest.value + 1) else None
  }

  function ThreadAttemptForLifecycle(anchors: seq<Anchor>, thread: string): Option<int> {
    PlaceOf(Ranked(anchors), thread)
  }

  predicate IsThreadLinkedToLifecycle(anchors: seq<Anchor>, thread: string, attempt: Option<int>) {
    if attempt.Some?
    then exists k | 0 <= k < |Ranked(anchors)| :: Ranked(anchors)[k].thread == thread && k + 1 == attempt.value
    else Anchored(anchors, thread)
  }

  // ----- what the anchors are

  predicate Anchored(anchors: seq<Anchor>, thread: string) {
    exists k | 0 <= k < |anchors| :: anchors[k].thread == thread
  }

  predicate DistinctThreads(anchors: seq<Anchor>) {
    forall i, j | 0 <= i < j < |anchors| :: anchors[i].thread != anchors[j].thread
  }

  predicate DistinctTimes(anchors: seq<Anchor>) {
    forall i, j | 0 <= i < j < |anchors| :: anchors[i].at != anchors[j].at
  }

  /** The anchor of a thread that is anchored. */
  function AnchorOf(anchors: seq<Anchor>, thread: string): int
    requires Anchored(anchors, thread)
  {
    if anchors[0].thread == thread then anchors[0].at
    else
      assert Anchored(anchors[1..], thread) by {
        var k :| 0 <= k < |anchors| && anchors[k].thread == thread;
        assert anchors[1..][k - 1].thread == thread;
      }
      AnchorOf(anchors[1..], thread)
  }

  lemma AnchorOfIsListed(anchors: seq<Anchor>, k: nat)
    requires k < |anchors| && DistinctThreads(anchors)
    ensures Anchored(anchors, anchors[k].thread) && AnchorOf(anchors, anchors[k].thread) == anchors[k].at
  {
    if k > 0 {
      assert anchors[1..][k - 1] == anchors[k];
      AnchorOfIsListed(anchors[1..], k - 1);
    }
  }

  lemma {:induction false} AddAnchorMeaning(anchors: seq<Anchor>, thread: string, at: int)
    requires DistinctThreads(anchors)
    ensures DistinctThreads(AddAnchor(anchors, thread, at))
    ensures forall t :: Anchored(AddAnchor(anchors, thread, at), t) <==> Anchored(anchors, t) || t == thread
    ensures forall t | Anchored(AddAnchor(anchors, thread, at), t) ::
              AnchorOf(AddAnchor(anchors, thread, at), t)
              == if t != thread then AnchorOf(anchors, t)
                 else if Anchored(anchors, t) && AnchorOf(anchors, t) <= at then AnchorOf(anchors, t) else at
  {
    var added := AddAnchor(anchors, thread, at);
    if anchors == [] {
      assert added == [Anchor(thread, at)];
      assert added[0].thread == thread;
    } else if anchors[0].thread == thread {
      HeadAndTail(anchors);
      HeadAndTail(added);
      assert added[1..] == anchors[1..];
    } else {
      AddAnchorMeaning(anchors[1..], thread, at);
      HeadAndTail(anchors);
      HeadAndTail(added);
      assert added[1..] == AddAnchor(anchors[1..], thread, at);
    }
  }

  lemma HeadAndTail(anchors: seq<Anchor>)
    requires anchors != []
    ensures forall t :: Anchored(anchors, t) <==> anchors[0].thread == t || Anchored(anchors[1..], t)
    ensures DistinctThreads(anchors) <==> DistinctThreads(anchors[1..]) && !Anchored(anchors[1..], anchors[0].thread)
  {
  }
}
