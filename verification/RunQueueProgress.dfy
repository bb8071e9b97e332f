/**
 When a key of the run queue stops for good, and when it drains. Faults on other keys,
 and items that start-next would refuse but never looks at, do no harm: each condition
 is about the events on the key itself.
 */
module RunQueueProgress {
  import opened Wrappers
  import opened RunQueue
  import opened RunQueueProtocol
  import opened RunQueueTheorems

  // ----- a stranded key stays as it is

  ghost predicate Stranded(s: State, key: Key) {
    At(s.lists, key) != [] && ActorsAt(s, key) == map[]
  }

  function Buffered(v: View, raws: seq<Raw>): View {
    v.(list := v.list + raws, admitted := v.admitted + raws)
  }

  lemma StrandedStep(s: State, step: Step, key: Key)
    requires Stranded(s, key)
    requires if Enabled(s, step) && StepKey(s, step) == Some(key)
             then ViewAt(Next(s, step), key) == ViewAfter(s, step, key)
             else ViewAt(Next(s, step), key) == ViewAt(s, key)
    ensures ViewAt(Next(s, step), key) == Buffered(ViewAt(s, key), Admissions([step], key))
  {
    ActingIsListed(s, step, key);
  }

  lemma ActingIsListed(s: State, step: Step, key: Key)
    ensures StepKey(s, step) == Some(key) && !step.Admit? ==> ActorsAt(s, key) != map[]
  {
    if StepKey(s, step) == Some(key) && !step.Admit? {
      assert step.actor in ActorsAt(s, key);
    }
  }

  lemma BufferedTwice(v: View, a: seq<Raw>, b: seq<Raw>)
    ensures Buffered(Buffered(v, a), b) == Buffered(v, a + b)
  {
    assert v.list + a + b == v.list + (a + b);
    assert v.admitted + a + b == v.admitted + (a + b);
  }

  /** Later admissions only buffer behind a stranded head: nothing on the key starts or completes again. */
  lemma {:induction false} StrandedStays(s: State, steps: seq<Step>, key: Key)
    requires Inv(s) && Stranded(s, key)
    ensures ViewAt(Run(s, steps), key) == Buffered(ViewAt(s, key), Admissions(steps, key))
    decreases |steps|
  {
    if steps == [] {
      assert ViewAt(s, key).list + [] == ViewAt(s, key).list && ViewAt(s, key).admitted + [] == ViewAt(s, key).admitted;
    } else {
      OneStep(s, steps[0], key);
      StrandedStep(s, steps[0], key);
      StrandedStays(Next(s, steps[0]), steps[1..], key);
      BufferedTwice(ViewAt(s, key), Admissions([steps[0]], key), Admissions(steps[1..], key));
      AdmissionsOfFirst(steps, key);
    }
  }

  // ----- what strands a key

  /** Start-next publishes this head. */
  predicate Good(key: Key, raw: Raw) {
    raw.Object? && Startable(key.scope, raw.item)
  }

  /** An enabled step about `key`. */
  predicate Hits(s: State, step: Step, key: Key) {
    Enabled(s, step) && StepKey(s, step) == Some(key)
  }

  /** Some process that holds the head of `key` dies, or its publish is lost. */
  predicate FaultHits(s: State, steps: seq<Step>, key: Key)
    decreases |steps|
  {
    steps != [] && ((steps[0].Fault? && Hits(s, steps[0], key)) || FaultHits(Next(s, steps[0]), steps[1..], key))
  }

  predicate Refusal(s: State, step: Step, key: Key) {
    step.Peek? && Hits(s, step, key) && At(s.lists, key) != [] && !Good(key, At(s.lists, key)[0])
  }

  /** Start-next looks at a head of `key` and refuses it. */
  predicate RefusalHits(s: State, steps: seq<Step>, key: Key)
    decreases |steps|
  {
    steps != [] && (Refusal(s, steps[0], key) || RefusalHits(Next(s, steps[0]), steps[1..], key))
  }

  lemma StrandingStep(s: State, step: Step, key: Key)
    requires Inv(s) && !Stranded(s, key)
    ensures Stranded(Next(s, step), key) <==> (step.Fault? && Hits(s, step, key)) || Refusal(s, step, key)
  {
    OneStep(s, step, key);
    if Hits(s, step, key) && !step.Admit? {
      OnlyActor(s, step.actor, key);
    }
    var w := ViewAt(Next(s, step), key);
    if step.Admit? && Hits(s, step, key) && At(s.lists, key) == [] {
      assert s.nextActor in w.actors;
    } else if Hits(s, step, key) && !step.Admit? {
      assert step.actor in w.actors || w.actors == map[];
    }
  }

  /** In any state the invariant allows, a fault strands the key whose head the process held. */
  lemma FaultStrands(s: State, a: nat)
    requires Inv(s) && a in s.actors
    ensures ActorKey(s.actors[a]).Some? && Stranded(Next(s, Fault(a)), ActorKey(s.actors[a]).value)
  {
    var key := ActorKey(s.actors[a]).value;
    assert KeyOk(s, key);
    assert a in ActorsAt(s, key);
    StrandingStep(s, Fault(a), key);
  }

  /** For every run: a key ends stranded exactly when a fault took its actor or start-next refused its head. */
  lemma {:induction false} StrandedIff(s: State, steps: seq<Step>, key: Key)
    requires Inv(s) && !Stranded(s, key)
    ensures Stranded(Run(s, steps), key) <==> FaultHits(s, steps, key) || RefusalHits(s, steps, key)
    decreases |steps|
  {
    if steps != [] {
      var t := Next(s, steps[0]);
      NextKeepsInv(s, steps[0]);
      StrandingStep(s, steps[0], key);
      if Stranded(t, key) {
        StrandedStays(t, steps[1..], key);
      } else {
        StrandedIff(t, steps[1..], key);
      }
    }
  }

  /** A key and its one actor go together: no actor on an empty list, one on a nonempty one. */
  ghost predicate OneIffNonempty(s: State, key: Key) {
    && (At(s.lists, key) == [] ==> ActorsAt(s, key) == map[])
    && (At(s.lists, key) != [] ==> exists a :: a in s.actors && ActorsAt(s, key) == map[a := s.actors[a]])
  }

  lemma OneIffNotStranded(s: State, key: Key)
    requires Inv(s)
    ensures OneIffNonempty(s, key) <==> !Stranded(s, key)
  {
    var v := ViewAt(s, key);
    assert KeyOk(s, key);
    if v.list == [] {
      forall a ensures a !in v.actors { }
    } else if v.actors != map[] {
      var a :| a in v.actors;
      OnlyActor(s, a, key);
      assert a in s.actors && ActorsAt(s, key) == map[a := s.actors[a]];
    } else {
      forall a | a in s.actors ensures ActorsAt(s, key) != map[a := s.actors[a]] {
        assert a in map[a := s.actors[a]];
      }
    }
  }

  /**
   Over every run from empty lists a key has an actor exactly when its list is nonempty,
   and then exactly one, if and only if no fault and no refusal hit that key.
   */
  lemma ExactlyOneInFlight(steps: seq<Step>, key: Key)
    ensures OneIffNonempty(Run(INIT, steps), key) <==> !FaultHits(INIT, steps, key) && !RefusalHits(INIT, steps, key)
  {
    ReachableInv([]);
    assert Run(INIT, []) == INIT;
    ReachableInv(steps);
    StrandedIff(INIT, steps, key);
    OneIffNotStranded(Run(INIT, steps), key);
  }

  // ----- which keys can still drain

  /**
   Nothing stands in the way of draining the key: a nonempty list has an actor, and
   start-next will publish every item it has yet to look at. The head is one of these
   only while its predecessor's process is about to look.
   */
  predicate Passing(key: Key, v: View) {
    && (v.list != [] ==> v.actors != map[])
    && (forall k | 1 <= k < |v.list| :: Good(key, v.list[k]))
    && (v.list != [] ==> forall a | a in v.actors :: v.actors[a].Chaining? ==> Good(key, v.list[0]))
  }

  /** An item that start-next would refuse is admitted behind another one. */
  predicate BadBehind(s: State, step: Step, key: Key) {
    step.Admit? && Hits(s, step, key) && At(s.lists, key) != [] && !Good(key, Object(RequestItem(step.request)))
  }

  predicate BadAdmitted(s: State, steps: seq<Step>, key: Key)
    decreases |steps|
  {
    steps != [] && (BadBehind(s, steps[0], key) || BadAdmitted(Next(s, steps[0]), steps[1..], key))
  }

  /** A finished head hands the next one over to a chaining process, or was the last. */
  lemma FinishPassing(key: Key, v: View, a: nat)
    requires v.list != [] && a in v.actors && v.actors == map[a := v.actors[a]] && v.actors[a].Running?
    ensures Passing(key, LocalNext(v, 0, key, Finish(a))) <==> Passing(key, v)
  {
    var w := LocalNext(v, 0, key, Finish(a));
    assert forall k | 1 <= k < |v.list| :: w.list[k - 1] == v.list[k];
    assert forall k | 0 <= k < |w.list| :: w.list[k] == v.list[k + 1];
    if |v.list| > 1 {
      assert w.actors == map[a := Chaining(key)];
    }
  }

  /** Looking at a good head, or refusing a bad one, shows what was true before. */
  lemma PeekPassing(key: Key, v: View, a: nat)
    requires v.list != [] && v.list[0].Object? && a in v.actors && v.actors == map[a := v.actors[a]] && v.actors[a].Chaining?
    ensures Passing(key, LocalNext(v, 0, key, Peek(a))) <==> Passing(key, v)
  {
    var w := LocalNext(v, 0, key, Peek(a));
    if Startable(key.scope, v.list[0].item) {
      assert w.actors == map[a := w.actors[a]];
    } else {
      assert w.actors == map[];
    }
  }

  lemma SameListPassing(key: Key, v: View, w: View, a: nat)
    requires w.list == v.list && a in v.actors && a in w.actors
    requires v.actors == map[a := v.actors[a]] && w.actors == map[a := w.actors[a]]
    requires !v.actors[a].Chaining? && !w.actors[a].Chaining?
    ensures Passing(key, w) <==> Passing(key, v)
  {
  }

  lemma LocalPassing(s: State, step: Step)
    requires MayAct(s, step) && !step.Admit? && !step.Fault?
    ensures var key := StepKey(s, step).value;
            Passing(key, ViewAfter(s, step, key)) <==> Passing(key, ViewAt(s, key))
  {
    var key, a := StepKey(s, step).value, step.actor;
    var v := ViewAt(s, key);
    OnlyActor(s, a, key);
    match step
    case Finish(_) => FinishPassing(key, v, a);
    case Peek(_) => PeekPassing(key, v, a);
    case Publish(_) => SameListPassing(key, v, ViewAfter(s, step, key), a);
    case Begin(_) => SameListPassing(key, v, ViewAfter(s, step, key), a);
    case SkipCorrupt(_) =>
  }

  lemma LocalPassingAdmit(s: State, step: Step)
    requires MayAct(s, step) && step.Admit?
    ensures var key := StepKey(s, step).value;
            Passing(key, ViewAfter(s, step, key)) <==> Passing(key, ViewAt(s, key)) && !BadBehind(s, step, key)
  {
    var key := StepKey(s, step).value;
    var v, w := ViewAt(s, key), ViewAfter(s, step, key);
    var n := |v.list|;
    assert w.list[n] == Object(RequestItem(step.request));
    assert forall k | 0 <= k < n :: w.list[k] == v.list[k];
    if n == 0 {
      forall a ensures a !in v.actors { }
      assert w.actors == map[s.nextActor := w.actors[s.nextActor]];
    }
  }

  /** One step of any kind: a fault on the key and a bad admission behind its head are all that ends its passing. */
  lemma PassingStep(s: State, step: Step, key: Key)
    requires Inv(s)
    ensures Passing(key, ViewAt(Next(s, step), key))
       <==> Passing(key, ViewAt(s, key)) && !(step.Fault? && Hits(s, step, key)) && !BadBehind(s, step, key)
  {
    OneStep(s, step, key);
    if Hits(s, step, key) {
      if step.Admit? {
        LocalPassingAdmit(s, step);
      } else if step.Fault? {
        FaultStrands(s, step.actor);
      } else {
        LocalPassing(s, step);
      }
    }
  }

  /**
   For every run, with faults and bad items anywhere: a passing key is passing at the end
   exactly when no fault hit it and no item that start-next would refuse was admitted
   behind another; and a key that is not passing never is again.
   */
  lemma {:induction false} PassingIff(s: State, steps: seq<Step>, key: Key)
    requires Inv(s)
    ensures Passing(key, ViewAt(Run(s, steps), key))
       <==> Passing(key, ViewAt(s, key)) && !FaultHits(s, steps, key) && !BadAdmitted(s, steps, key)
    decreases |steps|
  {
    if steps != [] {
      NextKeepsInv(s, steps[0]);
      PassingStep(s, steps[0], key);
      PassingIff(Next(s, steps[0]), steps[1..], key);
    }
  }

  /** With no bad item admitted behind another, a passing key ends stranded exactly when a fault hits it. */
  lemma StrandedByFaultIff(s: State, steps: seq<Step>, key: Key)
    requires Inv(s) && Passing(key, ViewAt(s, key)) && !BadAdmitted(s, steps, key)
    ensures Stranded(Run(s, steps), key) <==> FaultHits(s, steps, key)
    ensures !RefusalHits(s, steps, key) || FaultHits(s, steps, key)
  {
    PassingIff(s, steps, key);
    StrandedIff(s, steps, key);
    if FaultHits(s, steps, key) {
      assert Stranded(Run(s, steps), key);
    } else {
      assert Passing(key, ViewAt(Run(s, steps), key));
    }
  }

  // ----- progress

  function Rank(actor: Actor): nat {
    match actor
    case Chaining(_) => 0
    case Skipping(_) => 0
    case Admitting(_, _) => 1
    case Starting(_, _) => 1
    case Published(_) => 2
    case Running(_) => 3
  }

  /** How many steps of its own actors a key is away from empty: four per item, less what is done for the head. */
  ghost function Work(v: View): int {
    if v.actors == map[] then 0
    else var a :| a in v.actors; 4 * |v.list| - Rank(v.actors[a])
  }

  lemma WorkOfOne(v: View, a: nat)
    requires a in v.actors && v.actors == map[a := v.actors[a]]
    ensures Work(v) == 4 * |v.list| - Rank(v.actors[a])
  {
  }

  /** The one move open to an actor. */
  function Move(s: State, a: nat): Step
    requires a in s.actors
  {
    match s.actors[a]
    case Admitting(_, _) => Publish(a)
    case Starting(_, _) => Publish(a)
    case Published(_) => Begin(a)
    case Running(_) => Finish(a)
    case Chaining(_) => Peek(a)
    case Skipping(_) => SkipCorrupt(a)
  }

  /** A step about a key, other than an admission, a fault or a refusal, is one unit of its work. */
  lemma StepIsOneUnit(s: State, step: Step)
    requires MayAct(s, step) && !step.Admit? && !step.Fault? && !Refusal(s, step, StepKey(s, step).value)
    ensures var key := StepKey(s, step).value;
            Work(ViewAfter(s, step, key)) == Work(ViewAt(s, key)) - 1
  {
    var key, a := StepKey(s, step).value, step.actor;
    var v := ViewAt(s, key);
    OnlyActor(s, a, key);
    OneUnit(key, v, a, step);
  }

  lemma OneUnit(key: Key, v: View, a: nat, step: Step)
    requires a in v.actors && v.actors == map[a := v.actors[a]] && v.list != [] && v.list[0].Object? && v.list[0].item.payload.Some?
    requires match step
             case Publish(b) => b == a && (v.actors[a].Admitting? || v.actors[a].Starting?)
             case Begin(b) => b == a && v.actors[a].Published?
             case Finish(b) => b == a && v.actors[a].Running?
             case Peek(b) => b == a && v.actors[a].Chaining? && Good(key, v.list[0])
             case _ => false
    ensures Work(LocalNext(v, 0, key, step)) == Work(v) - 1
  {
    var w := LocalNext(v, 0, key, step);
    WorkOfOne(v, a);
    if a in w.actors {
      assert w.actors == map[a := w.actors[a]];
      WorkOfOne(w, a);
    } else {
      assert w.actors == map[];
    }
  }

  lemma PassingIsNotRefused(s: State, step: Step, key: Key)
    requires Inv(s) && Passing(key, ViewAt(s, key))
    ensures !Refusal(s, step, key)
  {
    if step.Peek? && Hits(s, step, key) {
      assert step.actor in ViewAt(s, key).actors;
    }
  }

  /** The steps of a run that act on `key`. */
  function Moves(s: State, steps: seq<Step>, key: Key): nat
    decreases |steps|
  {
    if steps == [] then 0
    else (if Enabled(s, steps[0]) && StepKey(s, steps[0]) == Some(key) then 1 else 0) + Moves(Next(s, steps[0]), steps[1..], key)
  }

  lemma EmptyListHasNoActor(s: State, key: Key)
    requires Inv(s) && Passing(key, ViewAt(s, key))
    ensures ActorsAt(s, key) == map[] <==> At(s.lists, key) == []
    ensures At(s.lists, key) == [] ==> At(s.started, key) == At(s.completed, key)
  {
    assert KeyOk(s, key);
    var v := ViewAt(s, key);
    if v.list == [] {
      forall a ensures a !in v.actors { }
    }
  }

  /**
   Once admissions to a passing key stop, each step that acts on it is one unit of its
   remaining work, whatever happens on other keys, faults included; the completions since
   then are exactly the items that left the list; and the list is empty exactly when no
   actor is left. So a run that cannot act on the key any more has drained it with one
   completion per item.
   */
  lemma {:induction false} DrainIsForced(s: State, steps: seq<Step>, key: Key)
    requires Inv(s) && Passing(key, ViewAt(s, key))
    requires !FaultHits(s, steps, key) && Admissions(steps, key) == []
    ensures var t := Run(s, steps);
            && Work(ViewAt(t, key)) + Moves(s, steps, key) == Work(ViewAt(s, key))
            && At(t.completed, key) + At(t.lists, key) == At(s.completed, key) + At(s.lists, key)
            && (ActorsAt(t, key) == map[] <==> At(t.lists, key) == [])
            && (At(t.lists, key) == [] ==>
                  && At(t.started, key) == At(t.completed, key)
                  && |At(t.completed, key)| == |At(s.completed, key)| + |At(s.lists, key)|)
    decreases |steps|
  {
    if steps == [] {
      EmptyListHasNoActor(s, key);
    } else {
      DrainStep(s, steps, key);
      DrainIsForced(Next(s, steps[0]), steps[1..], key);
    }
  }

  lemma DrainStep(s: State, steps: seq<Step>, key: Key)
    requires Inv(s) && Passing(key, ViewAt(s, key)) && steps != []
    requires !FaultHits(s, steps, key) && Admissions(steps, key) == []
    ensures var t := Next(s, steps[0]);
            && Inv(t) && Passing(key, ViewAt(t, key))
            && At(t.completed, key) + At(t.lists, key) == At(s.completed, key) + At(s.lists, key)
            && Work(ViewAt(t, key)) == Work(ViewAt(s, key)) - (if Hits(s, steps[0], key) then 1 else 0)
    ensures Admissions(steps[1..], key) == []
  {
    var step := steps[0];
    OneStep(s, step, key);
    AdmittedStep(s, step, key);
    AdmissionsOfFirst(steps, key);
    PassingStep(s, step, key);
    PassingIsNotRefused(s, step, key);
    if Hits(s, step, key) {
      assert !step.Admit?;
      StepIsOneUnit(s, step);
    }
  }

  /** The actor of a key always has an enabled move. */
  lemma MoveHits(s: State, a: nat, key: Key)
    requires Inv(s) && a in ActorsAt(s, key)
    ensures Hits(s, Move(s, a), key) && !Move(s, a).Admit? && !Move(s, a).Fault? && MayAct(s, Move(s, a))
    ensures Work(ViewAt(s, key)) > 0
  {
    assert KeyOk(s, key);
    OnlyActor(s, a, key);
    WorkOfOne(ViewAt(s, key), a);
  }

  predicate Undisturbed(steps: seq<Step>, key: Key) {
    Admissions(steps, key) == [] && forall k | 0 <= k < |steps| :: !steps[k].Fault?
  }

  lemma UndisturbedFirst(step: Step, rest: seq<Step>, key: Key)
    requires !step.Admit? && !step.Fault? && Undisturbed(rest, key)
    ensures Undisturbed([step] + rest, key) && ([step] + rest)[1..] == rest
  {
    assert ([step] + rest)[1..] == rest;
    AdmissionsOfFirst([step] + rest, key);
    assert Admissions([step], key) == [];
  }

  /** A passing key can be run down to an empty list, one unit of work a step, with no fault and no admission. */
  lemma {:induction false} CanDrain(s: State, key: Key) returns (steps: seq<Step>)
    requires Inv(s) && Passing(key, ViewAt(s, key))
    ensures Undisturbed(steps, key) && |steps| == Work(ViewAt(s, key))
    ensures At(Run(s, steps).lists, key) == [] && ActorsAt(Run(s, steps), key) == map[]
    decreases Work(ViewAt(s, key))
  {
    if ActorsAt(s, key) == map[] {
      steps := [];
    } else {
      var a :| a in ActorsAt(s, key);
      var step := Move(s, a);
      MoveHits(s, a, key);
      OneStep(s, step, key);
      PassingStep(s, step, key);
      PassingIsNotRefused(s, step, key);
      StepIsOneUnit(s, step);
      var rest := CanDrain(Next(s, step), key);
      steps := [step] + rest;
      UndisturbedFirst(step, rest, key);
    }
  }

  /** A key that is not passing can be run, with no fault and no admission, to where it is stranded. */
  lemma {:induction false} CanStrand(s: State, key: Key) returns (steps: seq<Step>)
    requires Inv(s) && !Passing(key, ViewAt(s, key))
    ensures Undisturbed(steps, key) && Stranded(Run(s, steps), key)
    decreases Work(ViewAt(s, key))
  {
    if Stranded(s, key) {
      steps := [];
    } else {
      var a :| a in ActorsAt(s, key);
      var step := Move(s, a);
      MoveHits(s, a, key);
      OneStep(s, step, key);
      StrandingStep(s, step, key);
      var rest := [];
      if !Refusal(s, step, key) {
        PassingStep(s, step, key);
        StepIsOneUnit(s, step);
        rest := CanStrand(Next(s, step), key);
      }
      steps := [step] + rest;
      UndisturbedFirst(step, rest, key);
    }
  }

  /**
   A key is passing exactly when no continuation without faults and admissions strands it,
   and exactly when some continuation, of any steps at all, leaves its list empty at the end.
   */
  lemma PassingMeaning(s: State, key: Key)
    requires Inv(s)
    ensures Passing(key, ViewAt(s, key)) <==> forall steps | Undisturbed(steps, key) :: !Stranded(Run(s, steps), key)
    ensures Passing(key, ViewAt(s, key)) <==> exists steps :: At(Run(s, steps).lists, key) == []
  {
    if Passing(key, ViewAt(s, key)) {
      forall steps | Undisturbed(steps, key) ensures !Stranded(Run(s, steps), key) {
        UndisturbedIsHarmless(s, steps, key);
        PassingIff(s, steps, key);
      }
      var steps := CanDrain(s, key);
    } else {
      var steps := CanStrand(s, key);
      forall steps ensures At(Run(s, steps).lists, key) != [] {
        PassingIff(s, steps, key);
        RunKeepsInv(s, steps);
        NotPassingIsNonempty(Run(s, steps), key);
      }
    }
  }

  lemma NotPassingIsNonempty(s: State, key: Key)
    requires Inv(s) && !Passing(key, ViewAt(s, key))
    ensures At(s.lists, key) != []
  {
    assert KeyOk(s, key);
  }

  lemma {:induction false} UndisturbedIsHarmless(s: State, steps: seq<Step>, key: Key)
    requires Undisturbed(steps, key)
    ensures !FaultHits(s, steps, key) && !BadAdmitted(s, steps, key)
    decreases |steps|
  {
    if steps != [] {
      AdmissionsOfFirst(steps, key);
      assert !steps[0].Fault?;
      assert Undisturbed(steps[1..], key) by {
        forall k | 0 <= k < |steps[1..]| ensures !steps[1..][k].Fault? { assert steps[1..][k] == steps[k + 1]; }
      }
      UndisturbedIsHarmless(Next(s, steps[0]), steps[1..], key);
    }
  }

  /** The first three steps from empty lists: the item is admitted, published and running. */
  lemma FirstIsRunning(first: Request)
    requires RequestKey(first).Some?
    ensures var key, item := RequestKey(first).value, RequestItem(first);
            var t := Next(Next(Next(INIT, Admit(first)), Publish(0)), Begin(0));
            && item.payload.Some?
            && t.actors == map[0 := Running(FirstTask(key.scope, item))]
            && t.lists == map[key := [Object(item)]]
  {
    var key := RequestKey(first).value;
    RequestBelongs(first);
    var item := RequestItem(first);
    var s := DoAdmit(INIT, first);
    assert At(INIT.lists, key) + [Object(item)] == [Object(item)];
    assert s.actors == map[0 := Admitting(key, item)] && s.lists == map[key := [Object(item)]];
    var t := PublishAs(s, 0, key, item, FirstTask(key.scope, item));
    assert t == Next(s, Publish(0));
    assert t.actors == map[0 := Published(FirstTask(key.scope, item))];
  }

  /** Another item is admitted behind the running one, whose process goes on as before. */
  lemma SecondIsBehind(s: State, key: Key, item: WorkItem, bad: Request)
    requires RequestKey(bad) == Some(key) && s.lists == map[key := [Object(item)]]
    ensures var u := Next(s, Admit(bad));
            u.actors == s.actors && At(u.lists, key) == [Object(item), Object(RequestItem(bad))]
  {
    assert At(s.lists, key) + [Object(RequestItem(bad))] == [Object(item), Object(RequestItem(bad))];
    assert Next(s, Admit(bad)) == DoAdmit(s, bad);
  }

  /** The running item finishes, and its process is about to look at the one behind. */
  lemma SecondIsNext(u: State, key: Key, task: Task, first: Raw, second: Raw)
    requires CompletionKey(task) == Some(key) && u.actors == map[0 := Running(task)] && At(u.lists, key) == [first, second]
    ensures var t := Next(u, Finish(0));
            t.actors == map[0 := Chaining(key)] && At(t.lists, key) == [second]
  {
    assert Next(u, Finish(0)) == DoFinish(u, 0);
    assert [first, second][1..] == [second];
    AtAfterPut(u.lists, key, [second], key);
  }

  /** From empty lists: a bad item admitted behind another is refused when its turn comes, and strands the key. */
  lemma RefusalStrands(first: Request, bad: Request)
    requires RequestKey(first).Some? && RequestKey(bad) == RequestKey(first)
    requires !Startable(RequestKey(bad).value.scope, RequestItem(bad))
    ensures Stranded(Run(INIT, [Admit(first), Publish(0), Begin(0), Admit(bad), Finish(0), Peek(0)]), RequestKey(bad).value)
  {
    var key := RequestKey(first).value;
    RequestBelongs(first);
    FirstIsRunning(first);
    var s := Next(Next(Next(INIT, Admit(first)), Publish(0)), Begin(0));
    SecondIsBehind(s, key, RequestItem(first), bad);
    TaskReturnsToItsKey(key, RequestItem(first));
    SecondIsNext(Next(s, Admit(bad)), key, FirstTask(key.scope, RequestItem(first)), Object(RequestItem(first)), Object(RequestItem(bad)));
    RefusedIsStranded(Next(Next(s, Admit(bad)), Finish(0)), key);
    RunOfSix(INIT, Admit(first), Publish(0), Begin(0), Admit(bad), Finish(0), Peek(0));
  }

  lemma RefusedIsStranded(s: State, key: Key)
    requires s.actors == map[0 := Chaining(key)] && At(s.lists, key) != []
    requires At(s.lists, key)[0].Object? && !Good(key, At(s.lists, key)[0])
    ensures Stranded(Next(s, Peek(0)), key)
  {
    assert Next(s, Peek(0)) == Drop(s, 0);
    assert s.actors - {0} == map[];
  }

  lemma RunOfSix(s: State, a: Step, b: Step, c: Step, d: Step, e: Step, f: Step)
    ensures Run(s, [a, b, c, d, e, f]) == Next(Next(Next(Next(Next(Next(s, a), b), c), d), e), f)
  {
    var t := Next(Next(Next(Next(s, a), b), c), d);
    RunOfTwo(t, e, f);
    RunOfTwo(s, a, b);
    assert [a, b, c, d, e, f][1..] == [b, c, d, e, f] && [b, c, d, e, f][1..] == [c, d, e, f];
    assert [c, d, e, f][1..] == [d, e, f] && [d, e, f][1..] == [e, f];
    assert Run(Next(s, a), [b, c, d, e, f]) == Run(Next(Next(s, a), b), [c, d, e, f]);
    assert Run(Next(Next(s, a), b), [c, d, e, f]) == Run(Next(Next(Next(s, a), b), c), [d, e, f]) == Run(t, [e, f]);
  }
}
