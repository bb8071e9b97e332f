/** What the run queue promises, over every run of the protocol from empty lists. */
module RunQueueTheorems {
  import opened Wrappers
  import opened RunQueue
  import opened RunQueueProtocol

  /** One step, as one key sees it. */
  lemma OneStep(s: State, step: Step, key: Key)
    requires Inv(s)
    ensures Inv(Next(s, step))
    ensures KeyOk(s, key) && KeyOk(Next(s, step), key)
    ensures if Enabled(s, step) && StepKey(s, step) == Some(key)
            then MayAct(s, step) && ViewAt(Next(s, step), key) == ViewAfter(s, step, key)
            else ViewAt(Next(s, step), key) == ViewAt(s, key)
  {
    NextKeepsInv(s, step);
    assert KeyOk(s, key) && KeyOk(Next(s, step), key);
    if Enabled(s, step) {
      var own := StepKey(s, step).value;
      assert KeyOk(s, own);
      StepView(s, step, key);
    }
  }

  lemma {:induction false} RunKeepsInv(s: State, steps: seq<Step>)
    requires Inv(s)
    ensures Inv(Run(s, steps))
    decreases |steps|
  {
    if steps != [] {
      NextKeepsInv(s, steps[0]);
      RunKeepsInv(Next(s, steps[0]), steps[1..]);
    }
  }

  lemma ReachableInv(steps: seq<Step>)
    ensures Inv(Run(INIT, steps))
  {
    assert Inv(INIT) by {
      forall key ensures KeyOk(INIT, key) {
        assert ViewAt(INIT, key) == View([], map[], [], [], []);
      }
    }
    RunKeepsInv(INIT, steps);
  }

  // ----- safety, with faults

  /**
   However admitters, workers and faults interleave, two actors on one key are the same
   actor, and what it was told to run is the head of that key's list.
   */
  lemma AtMostOneInFlight(steps: seq<Step>, a: nat, b: nat)
    requires var t := Run(INIT, steps);
             a in t.actors && b in t.actors && ActorKey(t.actors[a]) == ActorKey(t.actors[b])
    ensures a == b
    ensures var t := Run(INIT, steps);
            var key := ActorKey(t.actors[a]);
            key.Some? && HoldsHead(key.value, At(t.lists, key.value), t.actors[a])
  {
    ReachableInv(steps);
    var t := Run(INIT, steps);
    assert ActorKey(t.actors[a]).Some?;
    var key := ActorKey(t.actors[a]).value;
    assert KeyOk(t, key);
    assert a in ViewAt(t, key).actors && b in ViewAt(t, key).actors;
  }

  /** The branch of `peek_head` that pops a corrupt head in two calls is never entered. */
  lemma CorruptHeadUnreachable(steps: seq<Step>, a: nat)
    requires a in Run(INIT, steps).actors
    ensures !Run(INIT, steps).actors[a].Skipping?
  {
    AtMostOneInFlight(steps, a, a);
  }

  /** A step about one key leaves the list, the past and the actors of every other key alone. */
  lemma StepIsLocal(steps: seq<Step>, step: Step, key: Key)
    requires StepKey(Run(INIT, steps), step) != Some(key)
    ensures ViewAt(Next(Run(INIT, steps), step), key) == ViewAt(Run(INIT, steps), key)
  {
    ReachableInv(steps);
    var s := Run(INIT, steps);
    if Enabled(s, step) {
      var own := StepKey(s, step).value;
      assert KeyOk(s, own);
      StepView(s, step, key);
    }
  }

  // ----- conservation and order, with faults

  /** The items asked for on one key, in order. */
  function Admissions(steps: seq<Step>, key: Key): seq<Raw> {
    if steps == [] then []
    else if steps[0].Admit? && RequestKey(steps[0].request) == Some(key)
    then [Object(RequestItem(steps[0].request))] + Admissions(steps[1..], key)
    else Admissions(steps[1..], key)
  }

  lemma AdmittedStep(s: State, step: Step, key: Key)
    requires if Enabled(s, step) && StepKey(s, step) == Some(key)
             then ViewAt(Next(s, step), key) == ViewAfter(s, step, key)
             else ViewAt(Next(s, step), key) == ViewAt(s, key)
    ensures ViewAt(Next(s, step), key).admitted == ViewAt(s, key).admitted + Admissions([step], key)
  {
  }

  lemma AdmissionsOfFirst(steps: seq<Step>, key: Key)
    requires steps != []
    ensures Admissions(steps, key) == Admissions([steps[0]], key) + Admissions(steps[1..], key)
  {
  }

  lemma {:induction false} AdmittedIsAdmissions(s: State, steps: seq<Step>, key: Key)
    requires Inv(s)
    ensures ViewAt(Run(s, steps), key).admitted == ViewAt(s, key).admitted + Admissions(steps, key)
    decreases |steps|
  {
    if steps != [] {
      var t := Next(s, steps[0]);
      OneStep(s, steps[0], key);
      AdmittedStep(s, steps[0], key);
      AdmittedIsAdmissions(t, steps[1..], key);
      AdmissionsOfFirst(steps, key);
      Associative(ViewAt(s, key).admitted, Admissions([steps[0]], key), Admissions(steps[1..], key));
    }
  }

  lemma Associative(a: seq<Raw>, b: seq<Raw>, c: seq<Raw>)
    ensures a + b + c == a + (b + c)
  {
  }

  /**
   Completed items followed by the list are the admissions, in order and none lost. The
   started items are the completed ones, and possibly the head: nothing starts twice,
   out of order, or before its predecessor completed.
   */
  lemma FifoAndConservation(steps: seq<Step>, key: Key)
    ensures var t := Run(INIT, steps);
            && At(t.completed, key) + At(t.lists, key) == Admissions(steps, key)
            && (|| At(t.started, key) == At(t.completed, key)
                || (At(t.lists, key) != [] && At(t.started, key) == At(t.completed, key) + [At(t.lists, key)[0]]))
  {
    ReachableInv(steps);
    var t := Run(INIT, steps);
    assert KeyOk(t, key);
    assert Inv(INIT) by { ReachableInv([]); }
    AdmittedIsAdmissions(INIT, steps, key);
  }

  // ----- the bridges' calls are runs of the protocol

  lemma RunOfTwo(s: State, a: Step, b: Step)
    ensures Run(s, [a, b]) == Next(Next(s, a), b)
  {
    assert [a, b][1..] == [b] && [b][1..] == [];
    assert Run(Next(s, a), [b]) == Run(Next(Next(s, a), b), []);
  }

  /** A bridge's admitting call, undisturbed: what `Enqueue` and `Admit` in RunQueue ensure. */
  lemma AdmitCallIsRun(s: State, request: Request)
    requires RequestKey(request).Some? && s.nextActor !in s.actors
    ensures var t := Run(s, [Admit(request), Publish(s.nextActor)]);
            var key, item := RequestKey(request).value, RequestItem(request);
            && t.lists == Put(s.lists, key, At(s.lists, key) + [Object(item)])
            && item.payload.Some?
            && t.actors == if At(s.lists, key) == [] then s.actors[s.nextActor := Published(FirstTask(key.scope, item))] else s.actors
  {
    var key, item, a := RequestKey(request).value, RequestItem(request), s.nextActor;
    var u := DoAdmit(s, request);
    RunOfTwo(s, Admit(request), Publish(a));
    assert Next(s, Admit(request)) == u;
    if At(s.lists, key) == [] {
      assert u.actors == s.actors[a := Admitting(key, item)];
      assert Next(u, Publish(a)) == PublishAs(u, a, key, item, FirstTask(key.scope, item));
    } else {
      assert u.actors == s.actors;
    }
  }

  /** The list a finished task leaves behind. */
  function RestAfter(s: State, key: Key): seq<Raw> {
    if At(s.lists, key) == [] then [] else At(s.lists, key)[1..]
  }

  /** The state once a finished task's item is popped, and the actor that goes on when items remain. */
  lemma FinishState(s: State, a: nat)
    requires Inv(s) && a in s.actors && s.actors[a].Running?
    ensures var key := ActorKey(s.actors[a]).value;
            var u := Next(s, Finish(a));
            && At(u.lists, key) == RestAfter(s, key)
            && u.actors == if RestAfter(s, key) == [] then s.actors - {a} else s.actors[a := Chaining(key)]
    ensures forall raw | raw in RestAfter(s, ActorKey(s.actors[a]).value) :: raw.Object? && raw.item.payload.Some?
  {
    var key := ActorKey(s.actors[a]).value;
    assert KeyOk(s, key);
    OnlyActor(s, a, key);
    AtAfterPut(s.lists, key, RestAfter(s, key), key);
  }

  /** Nothing left: the process is done. */
  lemma StopAfterLast(u: State, a: nat)
    requires a !in u.actors
    ensures Run(u, [Peek(a), Publish(a)]) == u
  {
    RunOfTwo(u, Peek(a), Publish(a));
  }

  /** A head that start-next refuses stays, and the process is done. */
  lemma StopAtRefused(u: State, a: nat, key: Key)
    requires a in u.actors && u.actors[a] == Chaining(key)
    requires At(u.lists, key) != [] && At(u.lists, key)[0].Object? && !Startable(key.scope, At(u.lists, key)[0].item)
    ensures Run(u, [Peek(a), Publish(a)]) == Drop(u, a)
  {
    RunOfTwo(u, Peek(a), Publish(a));
    assert Next(u, Peek(a)) == Drop(u, a);
  }

  /** A head that start-next accepts is published. */
  lemma StartNext(u: State, a: nat, key: Key)
    requires a in u.actors && u.actors[a] == Chaining(key)
    requires At(u.lists, key) != [] && At(u.lists, key)[0].Object? && Startable(key.scope, At(u.lists, key)[0].item)
    ensures var item := At(u.lists, key)[0].item;
            var t := Run(u, [Peek(a), Publish(a)]);
            t.lists == u.lists && t.actors == u.actors[a := Published(NextTask(key, item))]
  {
    RunOfTwo(u, Peek(a), Publish(a));
    assert Next(u, Peek(a)) == u.(actors := u.actors[a := Starting(key, At(u.lists, key)[0].item)]);
  }

  /** A finished task's call, undisturbed: what `CompleteAndStartNext` in RunQueue ensures. */
  lemma CompleteCallIsRun(s: State, a: nat)
    requires Inv(s) && a in s.actors && s.actors[a].Running?
    ensures var t := Run(Next(s, Finish(a)), [Peek(a), Publish(a)]);
            var key := ActorKey(s.actors[a]).value;
            var rest := RestAfter(s, key);
            && At(t.lists, key) == rest
            && (if rest != [] && rest[0].Object? && Startable(key.scope, rest[0].item)
                then t.actors == s.actors[a := Published(NextTask(key, rest[0].item))]
                else t.actors == s.actors - {a})
  {
    var key := ActorKey(s.actors[a]).value;
    var u, rest := Next(s, Finish(a)), RestAfter(s, key);
    FinishState(s, a);
    if rest == [] {
      StopAfterLast(u, a);
    } else if !Startable(key.scope, rest[0].item) {
      StopAtRefused(u, a, key);
    } else {
      StartNext(u, a, key);
    }
  }
}
