/**
 The run queue under concurrency. Web processes admit, workers finish, and any two
 Redis or broker calls of different processes may interleave: a `Step` is one such
 call. An actor is a process that has been told to start, or is running, or is about
 to start, the head of some key; a process that only buffered an item is done.
 */
module RunQueueProtocol {
  import opened Wrappers
  import opened Text
  import opened RunQueue

  // ----- the state machine

  /** One call of a bridge's admitting method. */
  datatype Request =
    | EnqueueLifecycle(tenantSlug: string, workflowName: string, payload: Payload)
    | AdmitEmail(emailId: string, tenantUuid: string, tenantSlug: string, payload: Payload)

  /** None when the id is blank, which the bridge answers with a ValueError. */
  function RequestKey(request: Request): Option<Key> {
    match request
    case EnqueueLifecycle(_, _, payload) =>
      if Strip(payload.lifecycleId) == "" then None else Some(Key(Lifecycle, Strip(payload.lifecycleId)))
    case AdmitEmail(emailId, _, _, _) =>
      if Strip(emailId) == "" then None else Some(Key(EmailIngress, Strip(emailId)))
  }

  function RequestItem(request: Request): WorkItem {
    match request
    case EnqueueLifecycle(tenantSlug, workflowName, payload) => LifecycleItem(tenantSlug, workflowName, payload)
    case AdmitEmail(emailId, tenantUuid, tenantSlug, payload) => EmailItem(Strip(emailId), tenantUuid, tenantSlug, payload)
  }

  datatype Actor =
    | Admitting(key: Key, item: WorkItem)   // RPUSH returned 1; publish not called yet
    | Published(task: Task)                 // on the broker
    | Running(task: Task)                   // in a worker
    | Chaining(key: Key)                    // complete left items; LINDEX not called yet
    | Skipping(key: Key)                    // LINDEX saw a corrupt head; LPOP not called yet
    | Starting(key: Key, item: WorkItem)    // LINDEX saw a good head; publish not called yet

  /** `admitted`, `started` and `completed` record the past of each key. */
  datatype State = State(
    lists: map<Key, seq<Raw>>,
    actors: map<nat, Actor>,
    nextActor: nat,
    admitted: map<Key, seq<Raw>>,
    started: map<Key, seq<Raw>>,
    completed: map<Key, seq<Raw>>)

  const INIT := State(map[], map[], 0, map[], map[], map[])

  datatype Step =
    | Admit(request: Request)
    | Publish(actor: nat)
    | Begin(actor: nat)
    | Finish(actor: nat)
    | Peek(actor: nat)
    | SkipCorrupt(actor: nat)
    | Fault(actor: nat)      // a publish is lost or a process dies

  function Push(histories: map<Key, seq<Raw>>, key: Key, raw: Raw): map<Key, seq<Raw>> {
    histories[key := At(histories, key) + [raw]]
  }

  function Drop(s: State, actor: nat): State {
    s.(actors := s.actors - {actor})
  }

  /** RPUSH; the caller goes on to publish exactly when the length became 1. */
  function DoAdmit(s: State, request: Request): State {
    if RequestKey(request).None? then s
    else
      var key, item := RequestKey(request).value, RequestItem(request);
      var list := At(s.lists, key) + [Object(item)];
      s.(lists := s.lists[key := list],
         admitted := Push(s.admitted, key, Object(item)),
         actors := if |list| == 1 then s.actors[s.nextActor := Admitting(key, item)] else s.actors,
         nextActor := s.nextActor + 1)
  }

  function PublishAs(s: State, actor: nat, key: Key, item: WorkItem, task: Task): State {
    s.(actors := s.actors[actor := Published(task)], started := Push(s.started, key, Object(item)))
  }

  function DoPublish(s: State, actor: nat): State
    requires actor in s.actors
  {
    match s.actors[actor]
    case Admitting(key, item) =>
      if item.payload.None? then s else PublishAs(s, actor, key, item, FirstTask(key.scope, item))
    case Starting(key, item) =>
      if item.payload.None? then s else PublishAs(s, actor, key, item, NextTask(key, item))
    case _ => s
  }

  /** MULTI LPOP LLEN; the caller goes on to start the next item exactly when something remains. */
  function DoFinish(s: State, actor: nat): State
    requires actor in s.actors && s.actors[actor].Running?
  {
    var completionKey := CompletionKey(s.actors[actor].task);
    if completionKey.None? || At(s.lists, completionKey.value) == [] then Drop(s, actor)
    else
      var key := completionKey.value;
      var list := At(s.lists, key);
      var popped := s.(lists := Put(s.lists, key, list[1..]), completed := Push(s.completed, key, list[0]));
      if |list| > 1 then popped.(actors := s.actors[actor := Chaining(key)]) else Drop(popped, actor)
  }

  /** LINDEX 0 */
  function DoPeek(s: State, actor: nat): State
    requires actor in s.actors && s.actors[actor].Chaining?
  {
    var key := s.actors[actor].key;
    var list := At(s.lists, key);
    if list == [] then Drop(s, actor)
    else if !list[0].Object? then s.(actors := s.actors[actor := Skipping(key)])
    else if Startable(key.scope, list[0].item) then s.(actors := s.actors[actor := Starting(key, list[0].item)])
    else Drop(s, actor)
  }

  function DoSkipCorrupt(s: State, actor: nat): State
    requires actor in s.actors && s.actors[actor].Skipping?
  {
    var key := s.actors[actor].key;
    var list := At(s.lists, key);
    s.(lists := if list == [] then s.lists else Put(s.lists, key, list[1..]), actors := s.actors[actor := Chaining(key)])
  }

  predicate Enabled(s: State, step: Step) {
    match step
    case Admit(request) => RequestKey(request).Some?
    case Publish(actor) =>
      actor in s.actors && (s.actors[actor].Admitting? || s.actors[actor].Starting?) && s.actors[actor].item.payload.Some?
    case Begin(actor) => actor in s.actors && s.actors[actor].Published?
    case Finish(actor) => actor in s.actors && s.actors[actor].Running?
    case Peek(actor) => actor in s.actors && s.actors[actor].Chaining?
    case SkipCorrupt(actor) => actor in s.actors && s.actors[actor].Skipping?
    case Fault(actor) => actor in s.actors
  }

  /** A step that is not enabled does nothing. */
  function Next(s: State, step: Step): State {
    if !Enabled(s, step) then s
    else
      match step
      case Admit(request) => DoAdmit(s, request)
      case Publish(actor) => DoPublish(s, actor)
      case Begin(actor) => s.(actors := s.actors[actor := Running(s.actors[actor].task)])
      case Finish(actor) => DoFinish(s, actor)
      case Peek(actor) => DoPeek(s, actor)
      case SkipCorrupt(actor) => DoSkipCorrupt(s, actor)
      case Fault(actor) => Drop(s, actor)
  }

  function Run(s: State, steps: seq<Step>): State
    decreases |steps|
  {
    if steps == [] then s else Run(Next(s, steps[0]), steps[1..])
  }

  // ----- the invariant

  /** The key whose head an actor holds. */
  function ActorKey(actor: Actor): Option<Key> {
    match actor
    case Published(task) => CompletionKey(task)
    case Running(task) => CompletionKey(task)
    case _ => Some(actor.key)
  }

  predicate HasTask(actor: Actor) {
    actor.Published? || actor.Running?
  }

  predicate TaskFor(task: Task, key: Key, raw: Raw) {
    raw.Object? && raw.item.payload.Some? && (task == FirstTask(key.scope, raw.item) || task == NextTask(key, raw.item))
  }

  /** What one key looks like: its list, its actors, its past. */
  datatype View = View(
    list: seq<Raw>,
    actors: map<nat, Actor>,
    admitted: seq<Raw>,
    started: seq<Raw>,
    completed: seq<Raw>)

  function ActorsAt(s: State, key: Key): map<nat, Actor> {
    map a | a in s.actors && ActorKey(s.actors[a]) == Some(key) :: s.actors[a]
  }

  function ViewAt(s: State, key: Key): View {
    View(At(s.lists, key), ActorsAt(s, key), At(s.admitted, key), At(s.started, key), At(s.completed, key))
  }

  /** Every stored element is an object that leads back to its key. */
  predicate ListOk(key: Key, list: seq<Raw>) {
    forall k | 0 <= k < |list| :: list[k].Object? && Belongs(key, list[k].item)
  }

  /** The actor's item is the head of the nonempty list. */
  predicate HoldsHead(key: Key, list: seq<Raw>, actor: Actor) {
    && list != []
    && match actor
       case Admitting(_, item) => list[0] == Object(item)
       case Starting(_, item) => list[0] == Object(item)
       case Published(task) => TaskFor(task, key, list[0])
       case Running(task) => TaskFor(task, key, list[0])
       case Chaining(_) => true
       case Skipping(_) => false
  }

  predicate TaskOut(v: View) {
    exists a | a in v.actors :: HasTask(v.actors[a])
  }

  /**
   At most one actor, and it holds the head. Completed items followed by the list are
   the admissions in order. The items started so far are the completed ones and, while
   a task is out, the head; when a fault took the actor, the head may have been started.
   */
  predicate KeyInv(key: Key, v: View) {
    && ListOk(key, v.list)
    && (forall a, b | a in v.actors && b in v.actors :: a == b)
    && (forall a | a in v.actors :: HoldsHead(key, v.list, v.actors[a]))
    && v.completed + v.list == v.admitted
    && (v.started == v.completed || (v.list != [] && v.started == v.completed + [v.list[0]]))
    && (TaskOut(v) ==> v.started != v.completed)
    && (v.actors != map[] && !TaskOut(v) ==> v.started == v.completed)
  }

  predicate ActorsHaveKeys(s: State) {
    forall a | a in s.actors :: a < s.nextActor && ActorKey(s.actors[a]).Some?
  }

  predicate KeyOk(s: State, key: Key) {
    KeyInv(key, ViewAt(s, key))
  }

  ghost predicate Inv(s: State) {
    ActorsHaveKeys(s) && forall key :: KeyOk(s, key)
  }

  /** The key a step is about. */
  function StepKey(s: State, step: Step): Option<Key> {
    match step
    case Admit(request) => RequestKey(request)
    case _ => if step.actor in s.actors then ActorKey(s.actors[step.actor]) else None
  }

  // ----- every step keeps the invariant

  lemma RequestBelongs(request: Request)
    requires RequestKey(request).Some?
    ensures Belongs(RequestKey(request).value, RequestItem(request))
  {
    match request
    case EnqueueLifecycle(_, _, payload) => StripTrims(payload.lifecycleId);
    case AdmitEmail(emailId, _, _, _) => StripTrims(emailId);
  }

  /** The acting actor is the only one on its key, and its key is in order. */
  ghost predicate MayAct(s: State, step: Step) {
    && Enabled(s, step)
    && ActorsHaveKeys(s)
    && StepKey(s, step).Some?
    && KeyInv(StepKey(s, step).value, ViewAt(s, StepKey(s, step).value))
  }

  lemma OnlyActor(s: State, a: nat, key: Key)
    requires a in s.actors && ActorKey(s.actors[a]) == Some(key) && KeyInv(key, ViewAt(s, key))
    ensures ActorsAt(s, key) == map[a := s.actors[a]]
    ensures HoldsHead(key, At(s.lists, key), s.actors[a])
  {
    assert a in ViewAt(s, key).actors;
  }

  /** What a step does to its own key, told without the other keys. */
  function LocalNext(v: View, nextActor: nat, key: Key, step: Step): View {
    match step
    case Admit(request) =>
      var raw := Object(RequestItem(request));
      v.(list := v.list + [raw], admitted := v.admitted + [raw],
         actors := if v.list == [] then v.actors[nextActor := Admitting(key, raw.item)] else v.actors)
    case Publish(a) =>
      if v.list == [] || !v.list[0].Object? || v.list[0].item.payload.None? || a !in v.actors then v
      else
        var item := v.list[0].item;
        v.(actors := v.actors[a := Published(if v.actors[a].Admitting? then FirstTask(key.scope, item) else NextTask(key, item))],
           started := v.started + [v.list[0]])
    case Begin(a) =>
      if a in v.actors && v.actors[a].Published? then v.(actors := v.actors[a := Running(v.actors[a].task)]) else v
    case Finish(a) =>
      if v.list == [] then v
      else v.(list := v.list[1..], completed := v.completed + [v.list[0]],
              actors := if |v.list| > 1 then v.actors[a := Chaining(key)] else v.actors - {a})
    case Peek(a) =>
      if v.list == [] || !v.list[0].Object? then v
      else v.(actors := if Startable(key.scope, v.list[0].item) then v.actors[a := Starting(key, v.list[0].item)] else v.actors - {a})
    case SkipCorrupt(_) => v
    case Fault(a) => v.(actors := v.actors - {a})
  }

  lemma ActorReplaced(s: State, t: State, a: nat, actor: Actor, key: Key)
    requires a in s.actors && t.actors == s.actors[a := actor] && ActorKey(actor) == ActorKey(s.actors[a])
    ensures ActorsAt(t, key) == if ActorKey(actor) == Some(key) then ActorsAt(s, key)[a := actor] else ActorsAt(s, key)
  {
  }

  lemma ActorDropped(s: State, t: State, a: nat, key: Key)
    requires a in s.actors && t.actors == s.actors - {a}
    ensures ActorsAt(t, key) == if ActorKey(s.actors[a]) == Some(key) then ActorsAt(s, key) - {a} else ActorsAt(s, key)
  {
  }

  /** What `key` looks like after a step: `LocalNext` if the step is about it, else as before. */
  function ViewAfter(s: State, step: Step, key: Key): View {
    if StepKey(s, step) == Some(key) then LocalNext(ViewAt(s, key), s.nextActor, key, step) else ViewAt(s, key)
  }

  lemma ActorAdded(s: State, t: State, a: nat, actor: Actor, key: Key)
    requires a !in s.actors && t.actors == s.actors[a := actor]
    ensures ActorsAt(t, key) == if ActorKey(actor) == Some(key) then ActorsAt(s, key)[a := actor] else ActorsAt(s, key)
  {
  }

  lemma AdmitView(s: State, step: Step, key: Key)
    requires step.Admit? && MayAct(s, step)
    ensures ViewAt(Next(s, step), key) == ViewAfter(s, step, key) && ActorsHaveKeys(Next(s, step))
  {
    var own, item := RequestKey(step.request).value, RequestItem(step.request);
    var t := DoAdmit(s, step.request);
    assert At(t.lists, key) == if key == own then At(s.lists, key) + [Object(item)] else At(s.lists, key);
    assert At(t.admitted, key) == if key == own then At(s.admitted, key) + [Object(item)] else At(s.admitted, key);
    if At(s.lists, own) == [] {
      ActorAdded(s, t, s.nextActor, Admitting(own, item), key);
    } else {
      assert ActorsAt(t, key) == ActorsAt(s, key);
    }
  }

  lemma PublishView(s: State, step: Step, key: Key)
    requires step.Publish? && MayAct(s, step)
    ensures ViewAt(Next(s, step), key) == ViewAfter(s, step, key) && ActorsHaveKeys(Next(s, step))
  {
    var own, actor := StepKey(s, step).value, s.actors[step.actor];
    OnlyActor(s, step.actor, own);
    TaskReturnsToItsKey(own, actor.item);
    var task := if actor.Admitting? then FirstTask(own.scope, actor.item) else NextTask(own, actor.item);
    ActorReplaced(s, Next(s, step), step.actor, Published(task), key);
  }

  lemma BeginView(s: State, step: Step, key: Key)
    requires step.Begin? && MayAct(s, step)
    ensures ViewAt(Next(s, step), key) == ViewAfter(s, step, key) && ActorsHaveKeys(Next(s, step))
  {
    OnlyActor(s, step.actor, StepKey(s, step).value);
    ActorReplaced(s, Next(s, step), step.actor, Running(s.actors[step.actor].task), key);
  }

  lemma AtAfterPut(lists: map<Key, seq<Raw>>, own: Key, list: seq<Raw>, key: Key)
    ensures At(Put(lists, own, list), key) == if key == own then list else At(lists, key)
  {
  }

  lemma FinishView(s: State, step: Step, key: Key)
    requires step.Finish? && MayAct(s, step)
    ensures ViewAt(Next(s, step), key) == ViewAfter(s, step, key) && ActorsHaveKeys(Next(s, step))
  {
    var own := StepKey(s, step).value;
    OnlyActor(s, step.actor, own);
    var list := At(s.lists, own);
    var t := DoFinish(s, step.actor);
    AtAfterPut(s.lists, own, list[1..], key);
    assert At(t.completed, key) == if key == own then At(s.completed, key) + [list[0]] else At(s.completed, key);
    if |list| > 1 {
      ActorReplaced(s, t, step.actor, Chaining(own), key);
    } else {
      ActorDropped(s, t, step.actor, key);
    }
  }

  lemma PeekView(s: State, step: Step, key: Key)
    requires step.Peek? && MayAct(s, step)
    ensures ViewAt(Next(s, step), key) == ViewAfter(s, step, key) && ActorsHaveKeys(Next(s, step))
  {
    var own := StepKey(s, step).value;
    OnlyActor(s, step.actor, own);
    var head := At(s.lists, own)[0].item;
    if Startable(own.scope, head) {
      ActorReplaced(s, Next(s, step), step.actor, Starting(own, head), key);
    } else {
      ActorDropped(s, Next(s, step), step.actor, key);
    }
  }

  /** The step that would pop a corrupt head is never enabled; a fault only loses the actor. */
  lemma FaultView(s: State, step: Step, key: Key)
    requires (step.Fault? || step.SkipCorrupt?) && MayAct(s, step)
    ensures ViewAt(Next(s, step), key) == ViewAfter(s, step, key) && ActorsHaveKeys(Next(s, step))
  {
    OnlyActor(s, step.actor, StepKey(s, step).value);
    ActorDropped(s, Drop(s, step.actor), step.actor, key);
  }

  lemma StepView(s: State, step: Step, key: Key)
    requires MayAct(s, step)
    ensures ViewAt(Next(s, step), key) == ViewAfter(s, step, key) && ActorsHaveKeys(Next(s, step))
  {
    match step
    case Admit(_) => AdmitView(s, step, key);
    case Publish(_) => PublishView(s, step, key);
    case Begin(_) => BeginView(s, step, key);
    case Finish(_) => FinishView(s, step, key);
    case Peek(_) => PeekView(s, step, key);
    case _ => FaultView(s, step, key);
  }

  /** `v` is in order and `a` is its one actor. */
  predicate OneActor(key: Key, v: View, a: nat) {
    a in v.actors && v.actors == map[a := v.actors[a]] && KeyInv(key, v)
  }

  lemma TaskOutOfOne(key: Key, v: View, a: nat)
    requires a in v.actors && v.actors == map[a := v.actors[a]]
    ensures TaskOut(v) <==> HasTask(v.actors[a])
  {
  }

  lemma AdmitKeeps(key: Key, v: View, request: Request, next: nat)
    requires KeyInv(key, v) && RequestKey(request) == Some(key)
    ensures KeyInv(key, LocalNext(v, next, key, Admit(request)))
  {
    RequestBelongs(request);
    var w := LocalNext(v, next, key, Admit(request));
    assert w.completed + w.list == w.admitted;
    if v.list == [] {
      assert v.actors == map[] by {
        forall a ensures a !in v.actors { }
      }
      assert w.actors == map[next := Admitting(key, RequestItem(request))];
      TaskOutOfOne(key, w, next);
    } else {
      assert w.list[0] == v.list[0] && TaskOut(w) == TaskOut(v);
    }
  }

  lemma PublishKeeps(key: Key, v: View, a: nat, next: nat)
    requires OneActor(key, v, a) && (v.actors[a].Admitting? || v.actors[a].Starting?)
    ensures KeyInv(key, LocalNext(v, next, key, Publish(a)))
  {
    TaskOutOfOne(key, v, a);
    var w := LocalNext(v, next, key, Publish(a));
    assert w.actors == map[a := w.actors[a]];
    TaskOutOfOne(key, w, a);
  }

  lemma BeginKeeps(key: Key, v: View, a: nat, next: nat)
    requires OneActor(key, v, a)
    ensures KeyInv(key, LocalNext(v, next, key, Begin(a)))
  {
    TaskOutOfOne(key, v, a);
    var w := LocalNext(v, next, key, Begin(a));
    assert w.actors == map[a := w.actors[a]];
    TaskOutOfOne(key, w, a);
  }

  lemma FinishKeeps(key: Key, v: View, a: nat, next: nat)
    requires OneActor(key, v, a) && v.actors[a].Running?
    ensures KeyInv(key, LocalNext(v, next, key, Finish(a)))
  {
    TaskOutOfOne(key, v, a);
    var w := LocalNext(v, next, key, Finish(a));
    assert v.list == [v.list[0]] + v.list[1..];
    assert w.started == w.completed && w.completed + w.list == w.admitted;
    if |v.list| > 1 {
      assert w.actors == map[a := Chaining(key)];
      TaskOutOfOne(key, w, a);
    } else {
      assert w.actors == map[];
    }
  }

  lemma PeekKeeps(key: Key, v: View, a: nat, next: nat)
    requires OneActor(key, v, a) && v.actors[a].Chaining?
    ensures KeyInv(key, LocalNext(v, next, key, Peek(a)))
  {
    TaskOutOfOne(key, v, a);
    var w := LocalNext(v, next, key, Peek(a));
    if a in w.actors {
      assert w.actors == map[a := w.actors[a]];
      TaskOutOfOne(key, w, a);
    } else {
      assert w.actors == map[];
    }
  }

  lemma StepKeeps(s: State, step: Step)
    requires MayAct(s, step)
    ensures var key := StepKey(s, step).value; KeyInv(key, ViewAfter(s, step, key))
  {
    var key := StepKey(s, step).value;
    var v := ViewAt(s, key);
    if !step.Admit? {
      OnlyActor(s, step.actor, key);
    }
    match step
    case Admit(request) => AdmitKeeps(key, v, request, s.nextActor);
    case Publish(a) => PublishKeeps(key, v, a, s.nextActor);
    case Begin(a) => BeginKeeps(key, v, a, s.nextActor);
    case Finish(a) => FinishKeeps(key, v, a, s.nextActor);
    case Peek(a) => PeekKeeps(key, v, a, s.nextActor);
    case Fault(a) => assert v.actors - {a} == map[];
    case SkipCorrupt(a) =>
  }

  lemma NextKeepsInv(s: State, step: Step)
    requires Inv(s)
    ensures Inv(Next(s, step))
  {
    if Enabled(s, step) {
      var own := StepKey(s, step).value;
      assert KeyOk(s, own);
      StepView(s, step, own);
      StepKeeps(s, step);
      forall key ensures KeyOk(Next(s, step), key) {
        assert KeyOk(s, key);
        StepView(s, step, key);
      }
    }
  }
}
