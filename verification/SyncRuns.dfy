/**
 The fan-out over whole runs from the start, told by their steps alone: who listens, which tabs are
 open and which changes were committed are read off the steps, and so is who hears what.
 */
module SyncRuns {
  import opened Prelude
  import opened SyncFanout

  /** The last word of `x` about its listeners is that it has one. */
  predicate AddedLast(steps: seq<Step>, x: Context) {
    steps != [] &&
    var last := steps[|steps| - 1];
    last == AddListener(x) || (last != RemoveListener(x) && AddedLast(steps[..|steps| - 1], x))
  }

  /** The tab of script `x` is open at the end, if it was at first or not. */
  predicate OpenLast(steps: seq<Step>, x: Context, open: bool) {
    if steps == [] then open
    else
      var last := steps[|steps| - 1];
      last == OpenScript(x) || (last != CloseScript(x) && OpenLast(steps[..|steps| - 1], x, open))
  }

  /** The context has a listener, and an open tab if it is a script. */
  predicate ListensAfter(steps: seq<Step>, x: Context, open: bool) {
    AddedLast(steps, x) && (x.Script? ==> OpenLast(steps, x, open))
  }

  function WritersOf(steps: seq<Step>): seq<Context> {
    if steps == [] then []
    else
      var last := steps[|steps| - 1];
      WritersOf(steps[..|steps| - 1]) + if last.Write? then [last.writer] else []
  }

  /** At most how many listen messages `x` has sent. */
  function Chatter(steps: seq<Step>, x: Context): nat {
    if steps == [] then 1
    else
      var last := steps[|steps| - 1];
      Chatter(steps[..|steps| - 1], x) + if last == AddListener(x) || last == RemoveListener(x) then 1 else 0
  }

  lemma {:induction false} HandlingKeepsWriters(s: State, m: Message)
    ensures Handle(s, m).writers == s.writers
  {
  }

  lemma {:induction false} StepFollows(s: State, step: Step, x: Context)
    ensures var s' := Apply(s, step);
            && (x in s'.hearing <==> step == AddListener(x) || (step != RemoveListener(x) && x in s.hearing))
            && (x in s'.scripts <==> step == OpenScript(x) || (step != CloseScript(x) && x in s.scripts))
            && s'.writers == s.writers + (if step.Write? then [step.writer] else [])
            && |Waiting(s'.listens, x)|
               <= |Waiting(s.listens, x)| + if step == AddListener(x) || step == RemoveListener(x) then 1 else 0
  {
    if step.Receive? {
      hide Handle;
      HandlingKeepsContexts(s.(net := s.net - multiset{step.m}), step.m);
      HandlingKeepsWriters(s.(net := s.net - multiset{step.m}), step.m);
    }
  }

  /** In every run the steps alone say who listens, which tabs are open and who wrote what. */
  lemma {:induction false} RunFollowsSteps(s: State, steps: seq<Step>, x: Context)
    requires Initial(s)
    ensures var s' := Run(s, steps);
            && (x in s'.hearing <==> AddedLast(steps, x))
            && (x in s'.scripts <==> OpenLast(steps, x, x in s.scripts))
            && s'.writers == WritersOf(steps)
            && |Waiting(s'.listens, x)| <= Chatter(steps, x)
  {
    if steps != [] {
      hide Apply, Waiting;
      RunFollowsSteps(s, steps[..|steps| - 1], x);
      StepFollows(Run(s, steps[..|steps| - 1]), steps[|steps| - 1], x);
    }
  }

  // ---------- heard once ----------

  function Repeated(step: Step, n: nat): seq<Step> { seq(n, _ => step) }

  lemma {:induction false} MainListensOnce(s: State, x: Context)
    requires Listening(s, x)
    ensures var s' := Apply(s, MainListens(Source(x)));
            Listening(s', x) && (Live(s, x) ==> Live(s', x)) &&
            (!Live(s, x) ==> |Waiting(s'.listens, Source(x))| == |Waiting(s.listens, Source(x))| - 1)
  {
  }

  lemma {:induction false} EnoughListensMakeLive(s: State, x: Context, n: nat)
    requires Listening(s, x) && n >= |Waiting(s.listens, Source(x))|
    ensures Live(Run(s, Repeated(MainListens(Source(x)), n)), x)
    decreases n
  {
    var step := MainListens(Source(x));
    if n > 0 {
      hide Run, Apply, Waiting, Listening;
      MainListensOnce(s, x);
      if Live(s, x) {
        StaysLive(s, Repeated(step, n), x);
      } else {
        IsLive(s, x);
        EnoughListensMakeLive(Apply(s, step), x, n - 1);
        RunInParts(s, Repeated(step, n), 1);
        assert Repeated(step, n)[..1] == [step] && Repeated(step, n)[1..] == Repeated(step, n - 1);
        RunOne(s, step);
      }
    } else {
      IsLive(s, x);
      assert Repeated(step, n) == [];
    }
  }

  lemma {:induction false} IsLive(s: State, x: Context)
    requires Listening(s, x)
    ensures Live(s, x) <==> |Waiting(s.listens, Source(x))| == 0
  {
  }

  lemma {:induction false} InitialIsGood(s: State)
    requires Initial(s)
    ensures Inv(s)
  {
    forall x ensures WillKnow(s.hearing, s.registered, s.listens, x) {
    }
  }

  lemma {:induction false} WritersAppend(a: seq<Step>, b: seq<Step>)
    ensures WritersOf(a + b) == WritersOf(a) + WritersOf(b)
    decreases |b|
  {
    if b == [] {
      assert a + b == a;
    } else {
      assert (a + b)[..|a + b| - 1] == a + b[..|b| - 1];
      WritersAppend(a, b[..|b| - 1]);
    }
  }

  /** The run: some steps, main hearing what the source of `x` has said, and more steps. */
  function Settled(before: seq<Step>, x: Context, n: nat): seq<Step> {
    before + Repeated(MainListens(Source(x)), n)
  }

  lemma {:induction false} SettledIsLive(s: State, before: seq<Step>, x: Context, n: nat)
    requires Initial(s) && (forall step <- before :: Sensible(step))
    requires ListensAfter(before, x, x in s.scripts) && n >= Chatter(before, Source(x))
    ensures var r := Run(s, Settled(before, x, n));
            Inv(r) && Live(r, x) && |r.writers| == |WritersOf(before)|
  {
    hide Run, Apply, Waiting, Inv, AddedLast, OpenLast, WritersOf, Chatter;
    var steps := Settled(before, x, n);
    InitialIsGood(s);
    RunKeepsInv(s, steps);
    RunFollowsSteps(s, before, x);
    RunFollowsSteps(s, before, Source(x));
    EnoughListensMakeLive(Run(s, before), x, n);
    RunInParts(s, steps, |before|);
    assert steps[..|before|] == before && steps[|before|..] == Repeated(MainListens(Source(x)), n);
    RunFollowsSteps(s, steps, x);
    WritersAppend(before, Repeated(MainListens(Source(x)), n));
    NoWriters(Repeated(MainListens(Source(x)), n));
  }

  lemma {:induction false} NoWriters(steps: seq<Step>)
    requires forall step <- steps :: !step.Write?
    ensures WritersOf(steps) == []
  {
    if steps != [] {
      NoWriters(steps[..|steps| - 1]);
    }
  }

  /**
   Main result for every run from the start: when `x` has a listener by the steps so far, and main has
   had the chance to hear so, every later write reaches `x` exactly once as long as it keeps listening,
   whoever wrote it and in whatever order messages arrive; draining the network brings it there.
   */
  lemma {:induction false} EveryWriteIsHeardOnce(
    s: State, before: seq<Step>, n: nat, after: seq<Step>, x: Context, k: nat) returns (rest: seq<Step>)
    requires Initial(s) && (forall step <- before :: Sensible(step))
    requires ListensAfter(before, x, x in s.scripts) && n >= Chatter(before, Source(x))
    requires (forall step <- after :: Sensible(step) && Stays(x, step)) && k < |after| && after[k].Write?
    ensures forall step <- rest :: step.Receive?
    ensures var id := |WritersOf(before + after[..k])|;
            && Run(s, Settled(before, x, n) + after).delivered[(x, id)] <= 1
            && Run(s, Settled(before, x, n) + after + rest).net == multiset{}
            && Run(s, Settled(before, x, n) + after + rest).delivered[(x, id)] == 1
  {
    hide Run, Apply, Account, Inv, Stays, AddedLast, OpenLast, WritersOf, Chatter, Live, Initial;
    var r := Run(s, Settled(before, x, n));
    SettledIsLive(s, before, x, n);
    rest := ReceivingDrains(Run(r, after));
    var id := |WritersOf(before + after[..k])|;
    WritersAppend(before, after[..k]);
    CommittedBy(r, after, k);
    CommittedBy(r, after + rest, k);
    assert (after + rest)[..k] == after[..k];
    forall step | step in rest ensures Sensible(step) && Stays(x, step) {
      ReceivesStay(x, step);
    }
    ListenersHearEachChangeOnce(r, after, x, id);
    ListenersHearEachChangeOnce(r, after + rest, x, id);
    AccountCovers(Run(r, after), x, id);
    RunAppends(r, after, rest);
    RunAppends(s, Settled(before, x, n), after);
    RunAppends(s, Settled(before, x, n), after + rest);
    assert Settled(before, x, n) + after + rest == Settled(before, x, n) + (after + rest);
  }

  lemma {:induction false} ReceivesStay(x: Context, step: Step)
    requires step.Receive?
    ensures Sensible(step) && Stays(x, step)
  {
  }

  lemma {:induction false} AccountCovers(s: State, x: Context, id: nat)
    requires id < |s.writers|
    ensures s.delivered[(x, id)] <= Account(s, x, id)
  {
  }

  lemma {:induction false} RunAppends(s: State, a: seq<Step>, b: seq<Step>)
    ensures Run(s, a + b) == Run(Run(s, a), b)
  {
    RunInParts(s, a + b, |a|);
    assert (a + b)[..|a|] == a && (a + b)[|a|..] == b;
  }

  /** The number of a write's change is the number of changes committed before it. */
  lemma {:induction false} CommittedBy(s: State, steps: seq<Step>, k: nat)
    requires k < |steps| && steps[k].Write?
    ensures |Run(s, steps[..k]).writers| == |s.writers| + |WritersOf(steps[..k])|
    ensures |Run(s, steps[..k]).writers| < |Run(s, steps).writers|
  {
    hide Apply;
    WritersGrow(s, steps[..k]);
    WritersGrow(s, steps);
    WritersAppend(steps[..k], steps[k..]);
    assert steps == steps[..k] + steps[k..];
    WritersAppend([steps[k]], steps[k + 1..]);
    assert steps[k..] == [steps[k]] + steps[k + 1..];
    assert [steps[k]][..0] == [];
  }

  lemma {:induction false} WritersGrow(s: State, steps: seq<Step>)
    ensures Run(s, steps).writers == s.writers + WritersOf(steps)
  {
    if steps != [] {
      hide Apply;
      WritersGrow(s, steps[..|steps| - 1]);
      StepFollows(Run(s, steps[..|steps| - 1]), steps[|steps| - 1], Worker);
    }
  }

  // ---------- and only by listeners ----------

  lemma {:induction false} WorkerHearsAlone(s: State, x: Context, id: nat, other: nat, from: Option<Context>)
    requires x != Worker || !Listening(s, x)
    ensures WorkerDelivers(s, other, from).delivered[(x, id)] == s.delivered[(x, id)]
  {
  }

  lemma {:induction false} DeafHearNothing(s: State, x: Context, id: nat, y: Context, other: nat)
    requires x != y || !(x in s.hearing)
    ensures Heard(s, y, other).delivered[(x, id)] == s.delivered[(x, id)]
  {
  }

  lemma {:induction false} HandlingIsHeardByListeners(s: State, m: Message, x: Context, id: nat)
    requires TrueMessage(s, m) && !Listening(s, x)
    ensures Handle(s, m).delivered[(x, id)] == s.delivered[(x, id)]
  {
    hide WorkerDelivers, Heard;
    WorkerHearsAlone(s, x, id, m.id, if m.RelayedReply? then Some(m.script) else None);
    if !m.RelayedReply? && (m.to != x || x !in s.hearing) {
      DeafHearNothing(s, x, id, m.to, m.id);
    }
  }

  lemma {:induction false} OnlyListenersHear(s: State, step: Step, x: Context, id: nat)
    requires Inv(s) && !Listening(s, x)
    ensures Apply(s, step).delivered[(x, id)] == s.delivered[(x, id)]
  {
    hide Handle, TrueMessage, Tracked, Listening;
    if step.Receive? && step.m in s.net {
      var taken := s.(net := s.net - multiset{step.m});
      TakeKeepsInv(s, step.m);
      StillTrue(s, taken, step.m, x);
      HandlingIsHeardByListeners(taken, step.m, x, id);
    }
  }

  lemma {:induction false} StillTrue(s: State, t: State, m: Message, x: Context)
    requires TrueMessage(s, m) && t == s.(net := t.net)
    ensures TrueMessage(t, m) && Listening(t, x) == Listening(s, x)
  {
  }

  /** Nothing is heard by a context that was not listening at some point of the run. */
  lemma {:induction false} HeardOnlyByListeners(s: State, steps: seq<Step>, x: Context, id: nat) returns (i: nat)
    requires Initial(s) && (forall step <- steps :: Sensible(step)) && Run(s, steps).delivered[(x, id)] > 0
    ensures i < |steps| && steps[i].Receive? && ListensAfter(steps[..i], x, x in s.scripts)
  {
    hide Apply, AddedLast, OpenLast;
    InitialIsGood(s);
    var init, step := steps[..|steps| - 1], steps[|steps| - 1];
    RunKeepsInv(s, init);
    RunFollowsSteps(s, init, x);
    if Run(s, init).delivered[(x, id)] > 0 {
      i := HeardOnlyByListeners(s, init, x, id);
      assert steps[..i] == init[..i];
    } else {
      i := |init|;
      if !Listening(Run(s, init), x) {
        OnlyListenersHear(Run(s, init), step, x, id);
      }
      if !step.Receive? {
        OnlyReceivingDelivers(Run(s, init), step);
      }
    }
  }

  lemma {:induction false} OnlyReceivingDelivers(s: State, step: Step)
    requires !step.Receive?
    ensures Apply(s, step).delivered == s.delivered
  {
  }
}
