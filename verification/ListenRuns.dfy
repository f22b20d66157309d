/**
 The listen channel over whole runs, told by their steps: which callbacks are registered, with which
 filters and in which order, and so which events main ends up sending.
 */
module ListenRuns {
  import opened Prelude
  import opened ListenChannel

  /** The filter `c` was added with, if it was not removed since; adding it again changes nothing. */
  function FilterAfter(steps: seq<Step>, e: Event, c: Callback): Option<Filter> {
    if steps == [] then None
    else
      var before := FilterAfter(steps[..|steps| - 1], e, c);
      match steps[|steps| - 1]
      case AddListener(e', c', f) => if e' == e && c' == c && before == None then Some(f) else before
      case RemoveListener(e', c') => if e' == e && c' == c then None else before
      case _ => before
  }

  /** The number of the step that added `c`, if it is registered. */
  function AddedAt(steps: seq<Step>, e: Event, c: Callback): nat {
    if steps == [] then 0
    else
      var init, last := steps[..|steps| - 1], steps[|steps| - 1];
      if last.AddListener? && last.event == e && last.callback == c && FilterAfter(init, e, c) == None
      then |init| else AddedAt(init, e, c)
  }

  /** The listeners are those the steps say, in the order they were added. */
  ghost predicate Follows(registered: seq<Listener>, steps: seq<Step>, e: Event) {
    && (forall c, f :: Listener(c, f) in registered <==> FilterAfter(steps, e, c) == Some(f))
    && (forall i, j :: 0 <= i < j < |registered| ==>
          AddedAt(steps, e, registered[i].callback) < AddedAt(steps, e, registered[j].callback))
    && (forall i :: 0 <= i < |registered| ==> AddedAt(steps, e, registered[i].callback) < |steps|)
  }

  lemma {:induction false} RegisteredFilter(registered: seq<Listener>, steps: seq<Step>, e: Event, i: nat)
    requires Follows(registered, steps, e) && i < |registered|
    ensures FilterAfter(steps, e, registered[i].callback) == Some(registered[i].filter)
  {
    assert registered[i] == Listener(registered[i].callback, registered[i].filter);
    assert registered[i] in registered;
  }

  lemma {:induction false} IndexFinds(registered: seq<Listener>, steps: seq<Step>, e: Event, c: Callback)
    requires Follows(registered, steps, e)
    ensures IndexOf(registered, c) < 0 <==> FilterAfter(steps, e, c) == None
  {
    var i := IndexOf(registered, c);
    if i >= 0 {
      RegisteredFilter(registered, steps, e, i);
    }
    if FilterAfter(steps, e, c).Some? {
      assert exists l <- registered :: l.callback == c by {
        assert Listener(c, FilterAfter(steps, e, c).value) in registered;
      }
    }
  }

  lemma {:induction false} OtherStepFollows(registered: seq<Listener>, steps: seq<Step>, step: Step, e: Event)
    requires Follows(registered, steps, e)
    requires step.AddListener? ==> step.event != e || FilterAfter(steps, e, step.callback).Some?
    requires step.RemoveListener? ==> step.event != e || FilterAfter(steps, e, step.callback) == None
    ensures Follows(registered, steps + [step], e)
  {
    assert (steps + [step])[..|steps|] == steps;
    forall c ensures FilterAfter(steps + [step], e, c) == FilterAfter(steps, e, c)
                  && AddedAt(steps + [step], e, c) == AddedAt(steps, e, c) {
    }
  }

  lemma {:induction false} AddFollows(registered: seq<Listener>, steps: seq<Step>, e: Event, c: Callback, f: Filter)
    requires Follows(registered, steps, e) && FilterAfter(steps, e, c) == None
    ensures Follows(registered + [Listener(c, f)], steps + [AddListener(e, c, f)], e)
  {
    var step, after := AddListener(e, c, f), registered + [Listener(c, f)];
    assert (steps + [step])[..|steps|] == steps;
    forall x ensures FilterAfter(steps + [step], e, x) == if x == c then Some(f) else FilterAfter(steps, e, x) {
    }
    forall x ensures AddedAt(steps + [step], e, x) == if x == c then |steps| else AddedAt(steps, e, x) {
    }
    forall i | 0 <= i < |registered| ensures registered[i].callback != c {
      RegisteredFilter(registered, steps, e, i);
    }
  }

  /** The list without its element number `i`. */
  function Dropped(registered: seq<Listener>, i: nat): seq<Listener>
    requires i < |registered|
  {
    registered[..i] + registered[i + 1..]
  }

  lemma {:induction false} DroppedAt(registered: seq<Listener>, i: nat, k: nat)
    requires i < |registered| && k < |registered| - 1
    ensures Dropped(registered, i)[k] == registered[if k < i then k else k + 1]
  {
  }

  lemma {:induction false} DroppedHas(registered: seq<Listener>, i: nat, l: Listener)
    requires i < |registered| && forall j :: 0 <= j < |registered| && j != i ==> registered[j] != registered[i]
    ensures l in Dropped(registered, i) <==> l in registered && l != registered[i]
  {
    if l in registered && l != registered[i] {
      var k :| 0 <= k < |registered| && registered[k] == l;
      DroppedAt(registered, i, if k < i then k else k - 1);
    }
    if l in Dropped(registered, i) {
      var k :| 0 <= k < |Dropped(registered, i)| && Dropped(registered, i)[k] == l;
      DroppedAt(registered, i, k);
    }
  }

  lemma {:induction false} OneCallbackOnce(registered: seq<Listener>, steps: seq<Step>, e: Event, i: nat, j: nat)
    requires Follows(registered, steps, e) && i < |registered| && j < |registered| && i != j
    ensures registered[i].callback != registered[j].callback
  {
    assert AddedAt(steps, e, registered[i].callback) != AddedAt(steps, e, registered[j].callback);
  }

  lemma {:induction false} RemovedSteps(steps: seq<Step>, e: Event, c: Callback, x: Callback)
    ensures var steps' := steps + [RemoveListener(e, c)];
            && AddedAt(steps', e, x) == AddedAt(steps, e, x)
            && FilterAfter(steps', e, x) == if x == c then None else FilterAfter(steps, e, x)
  {
    assert (steps + [RemoveListener(e, c)])[..|steps|] == steps;
  }

  lemma {:induction false} RemoveFollows(registered: seq<Listener>, steps: seq<Step>, e: Event, i: nat)
    requires Follows(registered, steps, e) && i < |registered|
    ensures Follows(Dropped(registered, i), steps + [RemoveListener(e, registered[i].callback)], e)
  {
    var c := registered[i].callback;
    var steps', after := steps + [RemoveListener(e, c)], Dropped(registered, i);
    forall j | 0 <= j < |registered| && j != i ensures registered[j].callback != c {
      OneCallbackOnce(registered, steps, e, i, j);
    }
    RegisteredFilter(registered, steps, e, i);
    hide FilterAfter, AddedAt;
    forall x, f ensures Listener(x, f) in after <==> FilterAfter(steps', e, x) == Some(f) {
      RemovedSteps(steps, e, c, x);
      DroppedHas(registered, i, Listener(x, f));
    }
    hide Dropped;
    forall j, k | 0 <= j < k < |after|
      ensures AddedAt(steps', e, after[j].callback) < AddedAt(steps', e, after[k].callback)
    {
      DroppedAt(registered, i, j);
      DroppedAt(registered, i, k);
      RemovedSteps(steps, e, c, after[j].callback);
      RemovedSteps(steps, e, c, after[k].callback);
    }
    forall j | 0 <= j < |after| ensures AddedAt(steps', e, after[j].callback) < |steps'| {
      DroppedAt(registered, i, j);
      RemovedSteps(steps, e, c, after[j].callback);
    }
  }

  lemma {:induction false} AddRegisters(s: State, e': Event, c: Callback, f: Filter, e: Event)
    ensures var registered, after := Of(s.registry, e), Of(Apply(s, AddListener(e', c, f)).registry, e);
            after == if e' == e && IndexOf(registered, c) < 0 then registered + [Listener(c, f)] else registered
  {
    hide FiltersToSend, IndexOf, Filtered;
  }

  lemma {:induction false} RemoveRegisters(s: State, e': Event, c: Callback, e: Event)
    ensures var registered, after := Of(s.registry, e), Of(Apply(s, RemoveListener(e', c)).registry, e);
            after == if e' == e && IndexOf(registered, c) >= 0 then Dropped(registered, IndexOf(registered, c))
                     else registered
  {
    hide FiltersToSend, IndexOf, Filtered;
  }

  lemma {:induction false} OthersKeepRegistry(s: State, step: Step)
    requires !step.AddListener? && !step.RemoveListener?
    ensures Apply(s, step).registry == s.registry
  {
    hide Replay, Told;
  }

  /** In every run the registry holds just the listeners whose last word was to add them, in that order. */
  lemma {:induction false} RegistryFollowsSteps(steps: seq<Step>, e: Event)
    ensures Follows(Of(Run(steps).registry, e), steps, e)
  {
    if steps == [] {
    } else {
      hide Apply, Follows, FilterAfter, AddedAt;
      var init, step := steps[..|steps| - 1], steps[|steps| - 1];
      assert steps == init + [step];
      RegistryFollowsSteps(init, e);
      var s := Run(init);
      var registered := Of(s.registry, e);
      if step.AddListener? {
        AddRegisters(s, step.event, step.callback, step.filter, e);
        IndexFinds(registered, init, e, step.callback);
      } else if step.RemoveListener? {
        RemoveRegisters(s, step.event, step.callback, e);
        IndexFinds(registered, init, e, step.callback);
      } else {
        OthersKeepRegistry(s, step);
      }
      if step.AddListener? && step.event == e && IndexOf(registered, step.callback) < 0 {
        AddFollows(registered, init, e, step.callback, step.filter);
      } else if step.RemoveListener? && step.event == e && IndexOf(registered, step.callback) >= 0 {
        RemoveFollows(registered, init, e, IndexOf(registered, step.callback));
      } else {
        OtherStepFollows(registered, init, step, e);
      }
    }
  }

  /** Without lost calls, main ends up knowing just the events that some callback listens to. */
  lemma {:induction false} MainKnowsWhoListens(steps: seq<Step>, lost: seq<bool>, e: Event)
    requires PossibleRun(steps) && Run(steps).streamOpen && |lost| == |Run(steps).chain|
    requires Lossless(steps) && forall l <- lost :: !l
    ensures e in Run(steps + Sends(lost)).main <==> exists c :: FilterAfter(steps, e, c).Some?
  {
    hide Run, FilterAfter, AddedAt, Lossless;
    DrainingAgrees(steps, lost);
    RegistryFollowsSteps(steps, e);
    var registered := Of(Run(steps).registry, e);
    if registered != [] {
      RegisteredFilter(registered, steps, e, 0);
    }
    if c :| FilterAfter(steps, e, c).Some? {
      assert Listener(c, FilterAfter(steps, e, c).value) in registered;
    }
  }

  // ---------- a stream that breaks ----------

  lemma {:induction false} BreakRuns(steps: seq<Step>, kept: set<Event>)
    requires PossibleRun(steps) && Run(steps).streamOpen
    ensures var s, broken := Run(steps), steps + [Break, Forget(kept)];
            && PossibleRun(broken)
            && Run(broken) == s.(streamOpen := false, main := map e | e in s.main && e in kept :: s.main[e])
  {
    var broken := steps + [Break, Forget(kept)];
    assert broken == steps + [Break] + [Forget(kept)];
    RunSnoc(steps, Break);
    RunSnoc(steps + [Break], Forget(kept));
    assert (steps + [Break])[..|steps|] == steps && broken[..|steps| + 1] == steps + [Break];
  }

  lemma {:induction false} AddKeepsStream(s: State, e: Event, c: Callback, f: Filter)
    ensures var s' := Apply(s, AddListener(e, c, f));
            s'.streamOpen == s.streamOpen && s'.connectedBefore == s.connectedBefore
  {
    hide FiltersToSend, IndexOf, Filtered, Of;
  }

  lemma {:induction false} RemoveKeepsStream(s: State, e: Event, c: Callback)
    ensures var s' := Apply(s, RemoveListener(e, c));
            s'.streamOpen == s.streamOpen && s'.connectedBefore == s.connectedBefore
  {
    hide FiltersToSend, IndexOf, Filtered, Of;
  }

  lemma {:induction false} OtherStepOpens(s: State, step: Step)
    requires !step.AddListener? && !step.RemoveListener? && (s.streamOpen ==> s.connectedBefore)
    ensures Apply(s, step).streamOpen ==> Apply(s, step).connectedBefore
  {
    hide Replay, Told, FiltersToSend, IndexOf, Filtered, Of;
  }

  lemma {:induction false} OpenedBefore(steps: seq<Step>)
    ensures Run(steps).streamOpen ==> Run(steps).connectedBefore
  {
    if steps != [] {
      hide Apply;
      var before, step := Run(steps[..|steps| - 1]), steps[|steps| - 1];
      OpenedBefore(steps[..|steps| - 1]);
      match step
      case AddListener(e, c, f) => AddKeepsStream(before, e, c, f);
      case RemoveListener(e, c) => RemoveKeepsStream(before, e, c);
      case _ => OtherStepOpens(before, step);
    }
  }

  /**
   While the stream is down main may forget whatever it knows, all of it included; once it is open again
   and its replay and the calls before it are through, main knows everything again.
   */
  lemma {:induction false} ReconnectRestoresEverything(
    steps: seq<Step>, kept: set<Event>, order: seq<Event>, lost: seq<bool>)
    requires PossibleRun(steps) && Run(steps).streamOpen && Lossless(steps)
    requires forall e :: e in order <==> e in Run(steps).listening
    requires var reopened := steps + [Break, Forget(kept)] + [Connect(order)];
             |lost| == |Run(reopened).chain| && forall l <- lost :: !l
    ensures kept == {} ==> Run(steps + [Break, Forget(kept)]).main == map[]
    ensures Run(steps + [Break, Forget(kept)] + [Connect(order)] + Sends(lost)).main == Expected(Run(steps).registry)
  {
    hide Run, Expected, Lossless, PossibleRun;
    var broken := steps + [Break, Forget(kept)];
    BreakRuns(steps, kept);
    OpenedBefore(steps);
    LosslessIsHeard(steps);
    forall e ensures !Leftover(Run(broken), e) {
      assert e !in Run(broken).unheard;
    }
    ReconnectHealsExactly(broken, order, lost);
  }
}
