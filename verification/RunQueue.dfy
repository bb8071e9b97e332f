/**
 The per-key run queue: Redis list primitives
 (app/services/lifecycle_run_queue_service.py) and its two publish-bridges
 (app/services/lifecycle_run_serializer_service.py,
 app/services/email_ingress_work_queue_serializer_service.py), each call on its own.
 RunQueueProtocol puts the calls of many processes side by side.
 */
module RunQueue {
  import opened Wrappers
  import opened Text

  datatype Scope = Lifecycle | EmailIngress

  function ScopeName(scope: Scope): string {
    match scope
    case Lifecycle => "lifecycle"
    case EmailIngress => "email_ingress"
  }

  /** A graph payload: its lifecycle id, the serialized flag, and everything else. */
  datatype Payload = Payload(lifecycleId: string, serialized: bool, body: string)

  /** A work item as the JSON object on the list; `payload` is None when absent or not an object. */
  datatype WorkItem = WorkItem(tenantSlug: string, workflowName: string, emailId: string, tenantUuid: string, payload: Option<Payload>)

  /** One list element, by what `json.loads` makes of it. */
  datatype Raw = NotJson | NotObject | Object(item: WorkItem)

  datatype Task =
    | RunWorkflow(tenantSlug: string, workflowName: string, payload: Payload)
    | RunEmailWebhook(tenantUuid: string, tenantSlug: string, payload: Payload, emailId: string)

  datatype Error = ValueError

  // ----- keys

  /** An inbox key by its parts; `id` is the stripped, nonblank id. */
  datatype Key = Key(scope: Scope, id: string)

  predicate ValidKey(key: Key) {
    key.id != "" && Trimmed(key.id)
  }

  function KeyText(key: Key): string {
    "inbox:" + ScopeName(key.scope) + ":" + key.id
  }

  /** `_run_queue_key` */
  function RunQueueKey(scope: Scope, keyId: string): Result<string, Error> {
    if Strip(keyId) == "" then Failure(ValueError) else Success(KeyText(Key(scope, Strip(keyId))))
  }

  /** Keys of different scopes or different ids never collide, and a key survives the re-strip in each primitive. */
  lemma KeyTextIsInjective(a: Key, b: Key)
    requires ValidKey(a)
    ensures KeyText(a) == KeyText(b) <==> a == b
    ensures Strip(KeyText(a)) == KeyText(a)
  {
    var ta, tb := KeyText(a), KeyText(b);
    StripTrims(ta);
    assert ta[0] == 'i' && ta[|ta| - 1] == a.id[|a.id| - 1];
    if ta == tb {
      assert ta[6] == ScopeName(a.scope)[0] && tb[6] == ScopeName(b.scope)[0];
      var n := |ScopeName(a.scope)| + 7;
      assert ta[n..] == a.id && tb[n..] == b.id;
    }
  }

  /** The texts themselves. */
  lemma KeyTexts(id: string)
    ensures KeyText(Key(Lifecycle, id)) == "inbox:lifecycle:" + id
    ensures KeyText(Key(EmailIngress, id)) == "inbox:email_ingress:" + id
  {
    assert "inbox:" + "lifecycle" + ":" == "inbox:lifecycle:";
    assert "inbox:" + "email_ingress" + ":" == "inbox:email_ingress:";
  }

  // ----- Redis

  /** Redis forgets a list when it becomes empty, so a missing key reads as the empty list. */
  function At<K, V>(lists: map<K, seq<V>>, key: K): seq<V> {
    if key in lists then lists[key] else []
  }

  function Put<K, V>(lists: map<K, seq<V>>, key: K, list: seq<V>): map<K, seq<V>> {
    if list == [] then lists - {key} else lists[key := list]
  }

  class Redis {
    var lists: map<string, seq<Raw>>

    constructor ()
      ensures lists == map[]
    {
      lists := map[];
    }

    method RPush(key: string, raw: Raw) returns (length: nat)
      modifies this
      ensures lists == Put(old(lists), key, At(old(lists), key) + [raw])
      ensures length == |At(lists, key)|
    {
      lists := lists[key := At(lists, key) + [raw]];
      length := |lists[key]|;
    }

    method LIndex0(key: string) returns (raw: Option<Raw>)
      ensures raw == if At(lists, key) == [] then None else Some(At(lists, key)[0])
    {
      if At(lists, key) == [] { return None; }
      raw := Some(At(lists, key)[0]);
    }

    method LPop(key: string) returns (raw: Option<Raw>)
      modifies this
      ensures raw == if old(At(lists, key)) == [] then None else Some(old(At(lists, key))[0])
      ensures lists == if old(At(lists, key)) == [] then old(lists) else Put(old(lists), key, old(At(lists, key))[1..])
    {
      var list := At(lists, key);
      if list == [] { return None; }
      raw := Some(list[0]);
      lists := Put(lists, key, list[1..]);
    }

    /** `MULTI LPOP key; LLEN key EXEC` */
    method LPopThenLLen(key: string) returns (raw: Option<Raw>, remaining: nat)
      modifies this
      ensures raw == if old(At(lists, key)) == [] then None else Some(old(At(lists, key))[0])
      ensures lists == if old(At(lists, key)) == [] then old(lists) else Put(old(lists), key, old(At(lists, key))[1..])
      ensures remaining == |At(lists, key)|
    {
      raw := LPop(key);
      remaining := |At(lists, key)|;
    }
  }

  // ----- queue primitives

  datatype AdmitResult = AdmitResult(inboxKey: string, length: nat, shouldEnqueue: bool)

  datatype CompleteResult = CompleteResult(inboxKey: string, popped: Option<WorkItem>, remaining: nat, shouldChain: bool)

  /** What `peek_head` leaves on the list: it pops leading elements that are not JSON objects. */
  function DropCorrupt(list: seq<Raw>): (kept: seq<Raw>)
    ensures kept != [] ==> kept[0].Object?
  {
    if list == [] || list[0].Object? then list else DropCorrupt(list[1..])
  }

  lemma {:induction false} DropCorruptStopsAtFirstObject(list: seq<Raw>)
    ensures |DropCorrupt(list)| <= |list| && DropCorrupt(list) == list[|list| - |DropCorrupt(list)|..]
    ensures forall k | 0 <= k < |list| - |DropCorrupt(list)| :: !list[k].Object?
  {
    if list != [] && !list[0].Object? {
      DropCorruptStopsAtFirstObject(list[1..]);
      forall k | 0 <= k < |list| - |DropCorrupt(list)| ensures !list[k].Object? {
        if k > 0 { assert list[k] == list[1..][k - 1]; }
      }
    }
  }

  /** Every list but the one under `key` is the same. */
  ghost predicate SameElsewhere(before: map<string, seq<Raw>>, after: map<string, seq<Raw>>, key: string) {
    forall k | k != key :: At(after, k) == At(before, k)
  }

  class LifecycleRunQueueService {
    const redis: Redis

    constructor (redis: Redis)
      ensures this.redis == redis
    {
      this.redis := redis;
    }

    method Admit(inboxKey: string, workItem: WorkItem) returns (r: Result<AdmitResult, Error>)
      modifies redis
      ensures Strip(inboxKey) == "" ==> r == Failure(ValueError) && redis.lists == old(redis.lists)
      ensures Strip(inboxKey) != "" ==>
                var key, before := Strip(inboxKey), At(old(redis.lists), Strip(inboxKey));
                && redis.lists == Put(old(redis.lists), key, before + [Object(workItem)])
                && r == Success(AdmitResult(key, |before| + 1, before == []))
    {
      var key := Strip(inboxKey);
      if key == "" { return Failure(ValueError); }
      var length := redis.RPush(key, Object(workItem));
      r := Success(AdmitResult(key, length, length == 1));
    }

    method PeekHead(inboxKey: string) returns (r: Result<Option<WorkItem>, Error>)
      modifies redis
      ensures Strip(inboxKey) == "" ==> r == Failure(ValueError) && redis.lists == old(redis.lists)
      ensures Strip(inboxKey) != "" ==>
                var key, kept := Strip(inboxKey), DropCorrupt(At(old(redis.lists), Strip(inboxKey)));
                && At(redis.lists, key) == kept
                && SameElsewhere(old(redis.lists), redis.lists, key)
                && r.Success?
                && (r.value.None? <==> kept == [])
                && (r.value.Some? ==> kept[0] == Object(r.value.value))
    {
      var key := Strip(inboxKey);
      if key == "" { return Failure(ValueError); }
      while true
        invariant DropCorrupt(At(redis.lists, key)) == DropCorrupt(At(old(redis.lists), key))
        invariant SameElsewhere(old(redis.lists), redis.lists, key)
        decreases |At(redis.lists, key)|
      {
        var raw := redis.LIndex0(key);
        if raw.None? { return Success(None); }
        if raw.value.Object? { return Success(Some(raw.value.item)); }
        var _ := redis.LPop(key);
      }
    }

    method Complete(inboxKey: string) returns (r: Result<CompleteResult, Error>)
      modifies redis
      ensures Strip(inboxKey) == "" ==> r == Failure(ValueError) && redis.lists == old(redis.lists)
      ensures Strip(inboxKey) != "" ==>
                var key, before := Strip(inboxKey), At(old(redis.lists), Strip(inboxKey));
                && redis.lists == (if before == [] then old(redis.lists) else Put(old(redis.lists), key, before[1..]))
                && r.Success?
                && r.value.inboxKey == key
                && r.value.popped == (if before != [] && before[0].Object? then Some(before[0].item) else None)
                && r.value.remaining == (if before == [] then 0 else |before| - 1)
                && (r.value.shouldChain <==> r.value.remaining > 0)
    {
      var key := Strip(inboxKey);
      if key == "" { return Failure(ValueError); }
      var poppedRaw, remaining := redis.LPopThenLLen(key);
      var popped := if poppedRaw.Some? && poppedRaw.value.Object? then Some(poppedRaw.value.item) else None;
      r := Success(CompleteResult(key, popped, remaining, remaining > 0));
    }
  }

  // ----- what the bridges store and publish

  /** `enqueue`'s work item: the payload is stamped serialized. */
  function LifecycleItem(tenantSlug: string, workflowName: string, payload: Payload): WorkItem {
    WorkItem(tenantSlug, workflowName, "", "", Some(payload.(serialized := true)))
  }

  function EmailItem(emailId: string, tenantUuid: string, tenantSlug: string, payload: Payload): WorkItem {
    WorkItem(tenantSlug, "", emailId, tenantUuid, Some(payload))
  }

  /** The Celery task a bridge publishes right after its own RPUSH made the length 1. */
  function FirstTask(scope: Scope, item: WorkItem): Task
    requires item.payload.Some?
  {
    match scope
    case Lifecycle => RunWorkflow(item.tenantSlug, item.workflowName, item.payload.value)
    case EmailIngress => RunEmailWebhook(item.tenantUuid, item.tenantSlug, item.payload.value, item.emailId)
  }

  /** What start-next demands of a head before it publishes it. */
  predicate Startable(scope: Scope, item: WorkItem) {
    && Strip(item.tenantSlug) != ""
    && (scope.Lifecycle? ==> Strip(item.workflowName) != "")
    && item.payload.Some?
  }

  /** The Celery task start-next publishes for the head of `key`. */
  function NextTask(key: Key, item: WorkItem): Task
    requires item.payload.Some?
  {
    match key.scope
    case Lifecycle =>
      var body := item.payload.value.(serialized := true);
      RunWorkflow(Strip(item.tenantSlug), Strip(item.workflowName),
                  if Strip(body.lifecycleId) == "" then body.(lifecycleId := key.id) else body)
    case EmailIngress => RunEmailWebhook(item.tenantUuid, item.tenantSlug, item.payload.value, item.emailId)
  }

  /** The key a finished task completes, from its own arguments (app/tasks/workflows.py, app/tasks/email.py). */
  function CompletionKey(task: Task): Option<Key> {
    match task
    case RunWorkflow(_, _, payload) =>
      if payload.serialized && Strip(payload.lifecycleId) != ""
      then Some(Key(Lifecycle, Strip(payload.lifecycleId))) else None
    case RunEmailWebhook(_, _, _, emailId) =>
      if Strip(emailId) != "" then Some(Key(EmailIngress, Strip(emailId))) else None
  }

  /** An item stored under `key` leads back to `key`. */
  predicate Belongs(key: Key, item: WorkItem) {
    && ValidKey(key)
    && item.payload.Some?
    && match key.scope
       case Lifecycle => item.payload.value.serialized && Strip(item.payload.value.lifecycleId) == key.id
       case EmailIngress => item.emailId == key.id
  }

  /** However an item of `key` is published, the finished task completes `key`. */
  lemma TaskReturnsToItsKey(key: Key, item: WorkItem)
    requires Belongs(key, item)
    ensures CompletionKey(FirstTask(key.scope, item)) == Some(key)
    ensures CompletionKey(NextTask(key, item)) == Some(key)
  {
    StripTrims(key.id);
  }

  /** A run that is not marked serialized, or names no id, completes no key; otherwise it names one by its stripped id. */
  lemma CompletesIff(task: Task, key: Key)
    ensures CompletionKey(task) == Some(key)
       <==> && key.id != ""
            && (if task.RunWorkflow? then key.scope.Lifecycle? && task.payload.serialized && key.id == Strip(task.payload.lifecycleId)
                else key.scope.EmailIngress? && key.id == Strip(task.emailId))
  {
  }

  // ----- the two publish-bridges

  class Broker {
    var tasks: seq<Task>

    constructor ()
      ensures tasks == []
    {
      tasks := [];
    }

    method Publish(task: Task)
      modifies this
      ensures tasks == old(tasks) + [task]
    {
      tasks := tasks + [task];
    }
  }

  datatype Status = Started | Buffered | Drained

  datatype BridgeResult = BridgeResult(status: Status, length: nat)

  class LifecycleRunSerializerService {
    const queue: LifecycleRunQueueService
    const broker: Broker

    constructor (queue: LifecycleRunQueueService, broker: Broker)
      ensures this.queue == queue && this.broker == broker
    {
      this.queue, this.broker := queue, broker;
    }

    method Enqueue(tenantSlug: string, workflowName: string, payload: Payload) returns (r: Result<BridgeResult, Error>)
      modifies queue.redis, broker
      ensures Strip(payload.lifecycleId) == "" ==>
                r == Failure(ValueError) && queue.redis.lists == old(queue.redis.lists) && broker.tasks == old(broker.tasks)
      ensures Strip(payload.lifecycleId) != "" ==>
                var key := KeyText(Key(Lifecycle, Strip(payload.lifecycleId)));
                var before := At(old(queue.redis.lists), key);
                var stamped := payload.(serialized := true);
                && At(queue.redis.lists, key) == before + [Object(WorkItem(tenantSlug, workflowName, "", "", Some(stamped)))]
                && SameElsewhere(old(queue.redis.lists), queue.redis.lists, key)
                && broker.tasks == old(broker.tasks) + (if before == [] then [RunWorkflow(tenantSlug, workflowName, stamped)] else [])
                && r == Success(BridgeResult(if before == [] then Started else Buffered, |before| + 1))
    {
      var lid := Strip(payload.lifecycleId);
      if lid == "" { return Failure(ValueError); }
      var body := payload.(serialized := true);
      StripTrims(payload.lifecycleId);
      KeyTextIsInjective(Key(Lifecycle, lid), Key(Lifecycle, lid));
      StripTrims(lid);
      var inboxKey := RunQueueKey(Lifecycle, lid);
      var admit := queue.Admit(inboxKey.value, WorkItem(tenantSlug, workflowName, "", "", Some(body)));
      if !admit.value.shouldEnqueue {
        return Success(BridgeResult(Buffered, admit.value.length));
      }
      broker.Publish(RunWorkflow(tenantSlug, workflowName, body));
      r := Success(BridgeResult(Started, admit.value.length));
    }

    /** None when the id is blank, as in the source. */
    method CompleteAndStartNext(lifecycleId: string) returns (r: Option<BridgeResult>)
      modifies queue.redis, broker
      ensures Strip(lifecycleId) == "" ==>
                r == None && queue.redis.lists == old(queue.redis.lists) && broker.tasks == old(broker.tasks)
      ensures Strip(lifecycleId) != "" ==>
                var key := Key(Lifecycle, Strip(lifecycleId));
                var before := At(old(queue.redis.lists), KeyText(key));
                var rest := if before == [] then [] else before[1..];
                var kept := DropCorrupt(rest);
                && At(queue.redis.lists, KeyText(key)) == kept
                && SameElsewhere(old(queue.redis.lists), queue.redis.lists, KeyText(key))
                && (kept == [] ==> broker.tasks == old(broker.tasks) && r == Some(BridgeResult(Drained, |rest|)))
                && (kept != [] ==>
                      var item := kept[0].item;
                      if Strip(item.tenantSlug) != "" && Strip(item.workflowName) != "" && item.payload.Some?
                      then
                        var body := item.payload.value;
                        var id := if Strip(body.lifecycleId) == "" then Strip(lifecycleId) else body.lifecycleId;
                        && broker.tasks == old(broker.tasks)
                           + [RunWorkflow(Strip(item.tenantSlug), Strip(item.workflowName), Payload(id, true, body.body))]
                        && r == Some(BridgeResult(Started, |rest|))
                      else broker.tasks == old(broker.tasks) && r == Some(BridgeResult(Buffered, |rest|)))
    {
      var lid := Strip(lifecycleId);
      if lid == "" { return None; }
      StripTrims(lifecycleId);
      StripTrims(lid);
      var key := Key(Lifecycle, lid);
      KeyTextIsInjective(key, key);
      var inboxKey := RunQueueKey(Lifecycle, lid).value;
      var complete := queue.Complete(inboxKey);
      if !complete.value.shouldChain {
        return Some(BridgeResult(Drained, 0));
      }
      var next := queue.PeekHead(inboxKey);
      if next.value.None? {
        return Some(BridgeResult(Drained, complete.value.remaining));
      }
      var item := next.value.value;
      if Strip(item.tenantSlug) == "" || Strip(item.workflowName) == "" || item.payload.None? {
        return Some(BridgeResult(Buffered, complete.value.remaining));
      }
      var body := item.payload.value.(serialized := true);
      if Strip(body.lifecycleId) == "" {
        body := body.(lifecycleId := lid);
      }
      broker.Publish(RunWorkflow(Strip(item.tenantSlug), Strip(item.workflowName), body));
      r := Some(BridgeResult(Started, complete.value.remaining));
    }
  }

  class EmailIngressWorkQueueSerializerService {
    const queue: LifecycleRunQueueService
    const broker: Broker

    constructor (queue: LifecycleRunQueueService, broker: Broker)
      ensures this.queue == queue && this.broker == broker
    {
      this.queue, this.broker := queue, broker;
    }

    method Admit(emailId: string, tenantUuid: string, tenantSlug: string, payload: Payload) returns (r: Result<BridgeResult, Error>)
      modifies queue.redis, broker
      ensures Strip(emailId) == "" ==>
                r == Failure(ValueError) && queue.redis.lists == old(queue.redis.lists) && broker.tasks == old(broker.tasks)
      ensures Strip(emailId) != "" ==>
                var key := KeyText(Key(EmailIngress, Strip(emailId)));
                var before := At(old(queue.redis.lists), key);
                var id := Strip(emailId);
                && At(queue.redis.lists, key) == before + [Object(WorkItem(tenantSlug, "", id, tenantUuid, Some(payload)))]
                && SameElsewhere(old(queue.redis.lists), queue.redis.lists, key)
                && broker.tasks == old(broker.tasks) + (if before == [] then [RunEmailWebhook(tenantUuid, tenantSlug, payload, id)] else [])
                && r == Success(BridgeResult(if before == [] then Started else Buffered, |before| + 1))
    {
      var eid := Strip(emailId);
      if eid == "" { return Failure(ValueError); }
      StripTrims(emailId);
      StripTrims(eid);
      KeyTextIsInjective(Key(EmailIngress, eid), Key(EmailIngress, eid));
      var inboxKey := RunQueueKey(EmailIngress, eid);
      var admit := queue.Admit(inboxKey.value, WorkItem(tenantSlug, "", eid, tenantUuid, Some(payload)));
      if !admit.value.shouldEnqueue {
        return Success(BridgeResult(Buffered, admit.value.length));
      }
      broker.Publish(RunEmailWebhook(tenantUuid, tenantSlug, payload, eid));
      r := Success(BridgeResult(Started, admit.value.length));
    }

    /** None when the id is blank or the queue drained, as in the source. */
    method CompleteAndStartNext(emailId: string) returns (r: Option<BridgeResult>)
      modifies queue.redis, broker
      ensures Strip(emailId) == "" ==>
                r == None && queue.redis.lists == old(queue.redis.lists) && broker.tasks == old(broker.tasks)
      ensures Strip(emailId) != "" ==>
                var key := Key(EmailIngress, Strip(emailId));
                var before := At(old(queue.redis.lists), KeyText(key));
                var rest := if before == [] then [] else before[1..];
                var kept := DropCorrupt(rest);
                && At(queue.redis.lists, KeyText(key)) == kept
                && SameElsewhere(old(queue.redis.lists), queue.redis.lists, KeyText(key))
                && (kept == [] ==> broker.tasks == old(broker.tasks) && r == None)
                && (kept != [] ==>
                      var item := kept[0].item;
                      if Strip(item.tenantSlug) != "" && item.payload.Some?
                      then
                        && broker.tasks == old(broker.tasks)
                           + [RunEmailWebhook(item.tenantUuid, item.tenantSlug, item.payload.value, item.emailId)]
                        && r == Some(BridgeResult(Started, |rest|))
                      else broker.tasks == old(broker.tasks) && r == Some(BridgeResult(Buffered, |rest|)))
    {
      var eid := Strip(emailId);
      if eid == "" { return None; }
      StripTrims(emailId);
      StripTrims(eid);
      var key := Key(EmailIngress, eid);
      KeyTextIsInjective(key, key);
      var inboxKey := RunQueueKey(EmailIngress, eid).value;
      var complete := queue.Complete(inboxKey);
      if !complete.value.shouldChain {
        return None;
      }
      var next := queue.PeekHead(inboxKey);
      if next.value.None? {
        return None;
      }
      var item := next.value.value;
      if Strip(item.tenantSlug) == "" || item.payload.None? {
        return Some(BridgeResult(Buffered, complete.value.remaining));
      }
      broker.Publish(RunEmailWebhook(item.tenantUuid, item.tenantSlug, item.payload.value, item.emailId));
      r := Some(BridgeResult(Started, complete.value.remaining));
    }
  }
}
