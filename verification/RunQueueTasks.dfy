/** Every task the run queue publishes is the one its request asked for. */
module RunQueueTasks {
  import opened Wrappers
  import opened Text
  import opened RunQueue
  import opened RunQueueProtocol
  import opened RunQueueTheorems

  /** The requests for one key, in order. */
  function Requests(steps: seq<Step>, key: Key): seq<Request> {
    if steps == [] then []
    else if steps[0].Admit? && RequestKey(steps[0].request) == Some(key) then [steps[0].request] + Requests(steps[1..], key)
    else Requests(steps[1..], key)
  }

  /**
   A published task carries its request's fields: as they were given when the bridge publishes right
   after its own RPUSH, with tenant and workflow stripped when start-next publishes a
   lifecycle item. An email item's fields are never stripped, its id was on admission.
   */
  predicate Carries(task: Task, request: Request, stripped: bool) {
    match request
    case EnqueueLifecycle(tenantSlug, workflowName, payload) =>
      && task.RunWorkflow?
      && task.tenantSlug == (if stripped then Strip(tenantSlug) else tenantSlug)
      && task.workflowName == (if stripped then Strip(workflowName) else workflowName)
      && task.payload.body == payload.body && task.payload.lifecycleId == payload.lifecycleId && task.payload.serialized
    case AdmitEmail(emailId, tenantUuid, tenantSlug, payload) =>
      && task.RunEmailWebhook?
      && task.tenantUuid == tenantUuid && task.tenantSlug == tenantSlug
      && task.payload == payload && task.emailId == Strip(emailId)
  }

  lemma ItemsCarry(request: Request)
    requires RequestKey(request).Some?
    ensures var key, item := RequestKey(request).value, RequestItem(request);
            && item.payload.Some?
            && Carries(FirstTask(key.scope, item), request, false)
            && Carries(NextTask(key, item), request, true)
  {
  }

  lemma {:induction false} AdmissionsAreRequests(steps: seq<Step>, key: Key)
    ensures |Admissions(steps, key)| == |Requests(steps, key)|
    ensures forall i | 0 <= i < |Requests(steps, key)| ::
              RequestKey(Requests(steps, key)[i]) == Some(key) && Admissions(steps, key)[i] == Object(RequestItem(Requests(steps, key)[i]))
  {
    if steps != [] { AdmissionsAreRequests(steps[1..], key); }
  }

  /** The request at the head of a key's list: the one after those that completed. */
  lemma HeadIsRequest(steps: seq<Step>, key: Key)
    requires At(Run(INIT, steps).lists, key) != []
    ensures var t, i := Run(INIT, steps), |At(Run(INIT, steps).completed, key)|;
            && i < |Requests(steps, key)| && RequestKey(Requests(steps, key)[i]) == Some(key)
            && At(t.lists, key)[0] == Object(RequestItem(Requests(steps, key)[i]))
  {
    var t := Run(INIT, steps);
    FifoAndConservation(steps, key);
    AdmissionsAreRequests(steps, key);
    assert At(t.lists, key)[0] == Admissions(steps, key)[|At(t.completed, key)|];
  }

  /**
   Over every run, with faults: a task on the broker or in a worker carries the fields of the
   request admitted at its place, which is the first one whose task has not completed.
   */
  lemma TaskCarriesItsRequest(steps: seq<Step>, a: nat)
    requires a in Run(INIT, steps).actors && HasTask(Run(INIT, steps).actors[a])
    ensures var t := Run(INIT, steps);
            && ActorKey(t.actors[a]).Some?
            && var key := ActorKey(t.actors[a]).value;
            var i := |At(t.completed, key)|;
            && i < |Requests(steps, key)|
            && (Carries(t.actors[a].task, Requests(steps, key)[i], false) || Carries(t.actors[a].task, Requests(steps, key)[i], true))
  {
    AtMostOneInFlight(steps, a, a);
    var key := ActorKey(Run(INIT, steps).actors[a]).value;
    HeadIsRequest(steps, key);
    ItemsCarry(Requests(steps, key)[|At(Run(INIT, steps).completed, key)|]);
  }

  /** What a publish puts on the broker: the request as given after an admission, stripped after a completion. */
  lemma PublishCarriesItsRequest(steps: seq<Step>, a: nat)
    requires Enabled(Run(INIT, steps), Publish(a))
    ensures var s, t := Run(INIT, steps), Next(Run(INIT, steps), Publish(a));
            var key := ActorKey(s.actors[a]).value;
            var i := |At(s.completed, key)|;
            && a in t.actors && t.actors[a].Published?
            && i < |Requests(steps, key)|
            && Carries(t.actors[a].task, Requests(steps, key)[i], s.actors[a].Starting?)
  {
    AtMostOneInFlight(steps, a, a);
    var key := ActorKey(Run(INIT, steps).actors[a]).value;
    HeadIsRequest(steps, key);
    ItemsCarry(Requests(steps, key)[|At(Run(INIT, steps).completed, key)|]);
  }

  /** Start-next goes on to publish the head of a key exactly when the head's own request names a tenant and, for a lifecycle, a workflow. */
  lemma StartsIff(steps: seq<Step>, a: nat)
    requires Enabled(Run(INIT, steps), Peek(a))
    ensures var s, t := Run(INIT, steps), Next(Run(INIT, steps), Peek(a));
            var key := s.actors[a].key;
            var i := |At(s.completed, key)|;
            && i < |Requests(steps, key)|
            && var request := Requests(steps, key)[i];
            && (a in t.actors <==> Strip(request.tenantSlug) != "" && (request.EnqueueLifecycle? ==> Strip(request.workflowName) != ""))
            && (a in t.actors ==> t.actors[a].Starting?)
  {
    AtMostOneInFlight(steps, a, a);
    HeadIsRequest(steps, Run(INIT, steps).actors[a].key);
  }
}
