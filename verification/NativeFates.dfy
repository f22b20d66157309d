/**
 Native messaging ports over whole runs, told by the steps alone: which ports there are, whether and
 how each was answered and ended, what its host's messages came to and what was posted to it.
 */
module NativeFates {
  import opened Prelude
  import opened NativePorts

  datatype Ending = ByCaller | ByItsHost(unanswered: bool) | ByMain

  /** What became of one port; `heard` is what its listeners got from its host. */
  datatype Fate =
    Fate(born: bool, answer: Option<bool>, ending: Option<Ending>, heard: seq<string>, posted: seq<string>)

  const UNBORN := Fate(false, None, None, [], [])

  /** How many ports were connected. */
  function Connects(steps: seq<Step>): nat {
    if steps == [] then 0 else Connects(steps[..|steps| - 1]) + if steps[|steps| - 1].ConnectNative? then 1 else 0
  }

  predicate Usable(fate: Fate) { fate.born && fate.ending == None }

  /** The posts under way, the innermost last: they begin on usable ports only. */
  function UnderWay(steps: seq<Step>): seq<Id>
    decreases |steps|, 1
  {
    if steps == [] then []
    else
      var init, last := steps[..|steps| - 1], steps[|steps| - 1];
      var before := UnderWay(init);
      if last.BeginPost? && Usable(FateOf(init, last.id)) then before + [last.id]
      else if last.EndPost? && before != [] && before[|before| - 1] == last.id then before[..|before| - 1]
      else before
  }

  /** One step, with these posts under way and `connects` ports so far, to port `id`. */
  function Next(fate: Fate, posting: seq<Id>, connects: nat, step: Step, id: Id): Fate {
    match step
    case ConnectNative => if connects + 1 == id then fate.(born := true) else fate
    case BeginPost(_) => fate
    case EndPost(x, json) =>
      if x == id && posting != [] && posting[|posting| - 1] == id && json.Some?
      then fate.(posted := fate.posted + [json.value]) else fate
    case PortDisconnect(x) => if x == id && Usable(fate) then fate.(ending := Some(ByCaller)) else fate
    case ConnectReply(x, ok) =>
      if x != id || posting != [] || !fate.born || fate.answer.Some? then fate
      else
        fate.(answer := Some(ok),
              ending := if !ok && fate.ending == None then Some(ByMain) else fate.ending)
    case HostSends(x, data) =>
      if x == id && posting == [] && Usable(fate) then fate.(heard := fate.heard + [data]) else fate
    case HostDisconnects(x) =>
      if x == id && posting == [] && Usable(fate)
      then fate.(ending := Some(ByItsHost(fate.answer == None))) else fate
  }

  function FateOf(steps: seq<Step>, id: Id): Fate
    decreases |steps|, 0
  {
    if steps == [] then UNBORN
    else
      var init := steps[..|steps| - 1];
      Next(FateOf(init, id), UnderWay(init), Connects(init), steps[|steps| - 1], id)
  }

  /** What the host's messages to one port were. */
  function HeardBy(messages: seq<HostMessage>, id: Id): seq<string> {
    if messages == [] then []
    else
      var last := messages[|messages| - 1];
      HeardBy(messages[..|messages| - 1], id) + if last.id == id then [last.data] else []
  }

  function ClosingOf(ending: Option<Ending>): Closing {
    match ending
    case None => NotClosed
    case Some(ByCaller) => ByExtension
    case Some(ByItsHost(unanswered)) => ByHost(unanswered)
    case Some(ByMain) => ByRefusal
  }

  function ReplyOf(answer: Option<bool>): Reply {
    match answer
    case None => Awaited
    case Some(true) => Accepted
    case Some(false) => Refused
  }

  /** The port stands as its fate says. */
  predicate Fits(s: State, id: Id, fate: Fate) {
    && (id in s.ports <==> fate.born)
    && HeardBy(s.messages, id) == fate.heard
    && (fate.born ==>
          && id in s.pasts
          && s.pasts[id].closing == ClosingOf(fate.ending)
          && s.pasts[id].reply == ReplyOf(fate.answer)
          && s.pasts[id].accepted == fate.posted
          && (id in s.live <==> fate.ending == None)
          && s.ports[id].state == if fate.ending.Some? then Closed
                                  else if fate.answer == Some(true) then Open else Starting)
    && (!fate.born ==> fate == UNBORN)
    && (fate.answer == Some(false) ==> fate.ending.Some?)
  }

  lemma {:induction false} HeardOneMore(messages: seq<HostMessage>, m: HostMessage, id: Id)
    ensures HeardBy(messages + [m], id) == HeardBy(messages, id) + if m.id == id then [m.data] else []
  {
    assert (messages + [m])[..|messages|] == messages;
  }

  lemma {:induction false} HearsOnlyItsHost(s: State, step: Step, id: Id)
    ensures var s' := Apply(s, step);
            s'.messages == if step.HostSends? && s.posting == [] && step.id in s.live
                           then s.messages + [HostMessage(step.id, step.data)] else s.messages
  {
    hide Posts;
  }

  lemma {:induction false} OtherStepFits(s: State, step: Step, id: Id, fate: Fate)
    requires Fits(s, id, fate) && s.ports.Keys == s.pasts.Keys && id != StepId(s, step)
    ensures Fits(Apply(s, step), id, fate)
    ensures Next(fate, s.posting, s.counter, step, id) == fate
  {
    hide HeardBy, Apply;
    HearsOnlyItsHost(s, step, id);
    if step.HostSends? {
      HeardOneMore(s.messages, HostMessage(step.id, step.data), id);
    }
    if id in s.ports {
      OthersUntouched(s, step, id);
    } else {
      NoOtherPortAtAll(s, step, id);
    }
  }

  lemma {:induction false} NoOtherPortAtAll(s: State, step: Step, id: Id)
    requires id != StepId(s, step) && id !in s.ports
    ensures id !in Apply(s, step).ports
  {
    hide Posts;
  }

  lemma {:induction false} OwnStepFits(s: State, step: Step, fate: Fate)
    requires Fits(s, StepId(s, step), fate) && s.ports.Keys == s.pasts.Keys && s.live <= s.ports.Keys
    requires StepId(s, step) in s.ports ==> StepId(s, step) <= s.counter
    requires forall x <- s.posting :: x in s.ports
    ensures Fits(Apply(s, step), StepId(s, step), Next(fate, s.posting, s.counter, step, StepId(s, step)))
  {
    hide HeardBy, Posts;
    if step.HostSends? {
      HeardOneMore(s.messages, HostMessage(step.id, step.data), step.id);
    }
  }

  lemma {:induction false} StepFits(s: State, step: Step, id: Id, fate: Fate)
    requires Fits(s, id, fate) && Inv(s) && (id in s.ports ==> id <= s.counter)
    requires forall x <- s.posting :: x in s.ports
    ensures Fits(Apply(s, step), id, Next(fate, s.posting, s.counter, step, id))
  {
    hide Apply, Fits, Next, Coherent;
    if id == StepId(s, step) {
      OwnStepFits(s, step, fate);
    } else {
      OtherStepFits(s, step, id, fate);
    }
  }

  lemma {:induction false} OnlyPortsPost(s: State, step: Step)
    requires forall x <- s.posting :: x in s.ports
    ensures forall x <- Apply(s, step).posting :: x in Apply(s, step).ports
  {
    hide Posts;
  }

  /** The posts under way and the number of ports are what the steps say. */
  lemma {:induction false} StackStep(s: State, step: Step, fate: Fate)
    requires step.BeginPost? ==> Fits(s, step.id, fate)
    requires forall x <- s.posting :: Known(s, x)
    ensures Apply(s, step).counter == s.counter + if step.ConnectNative? then 1 else 0
    ensures Apply(s, step).posting
         == if step.BeginPost? && Usable(fate) then s.posting + [step.id]
            else if step.EndPost? && s.posting != [] && s.posting[|s.posting| - 1] == step.id
            then s.posting[..|s.posting| - 1] else s.posting
  {
    hide Posts, HeardBy;
    if step.EndPost? && s.posting != [] {
      assert s.posting[|s.posting| - 1] in s.posting;
    }
  }

  lemma {:induction false} StackFollowsSteps(steps: seq<Step>)
    ensures var s := Run(steps);
            && s.posting == UnderWay(steps) && s.counter == Connects(steps)
            && (forall x <- s.posting :: x in s.ports)
    decreases |steps|, 1
  {
    hide Apply, Fits, Inv, Next;
    if steps == [] {
    } else {
      var init, last := steps[..|steps| - 1], steps[|steps| - 1];
      StackFollowsSteps(init);
      RunKeepsInv(init);
      KnownPorts(Run(init));
      OnlyPortsPost(Run(init), last);
      if last.BeginPost? {
        PortFollowsSteps(init, last.id);
        StackStep(Run(init), last, FateOf(init, last.id));
      } else {
        StackStep(Run(init), last, UNBORN);
      }
    }
  }

  lemma {:induction false} KnownPorts(s: State)
    requires Inv(s)
    ensures forall x <- s.ports :: Known(s, x) && x <= s.counter
  {
    forall x | x in s.ports ensures x <= s.counter {
      assert Coherent(s, x);
    }
  }

  /** Main result: in every run each port stands as the steps say. */
  lemma {:induction false} PortFollowsSteps(steps: seq<Step>, id: Id)
    ensures Fits(Run(steps), id, FateOf(steps, id))
    decreases |steps|, 0
  {
    hide Apply, Inv, Next;
    if steps == [] {
    } else {
      hide Fits;
      var init := steps[..|steps| - 1];
      PortFollowsSteps(init, id);
      StackFollowsSteps(init);
      RunKeepsInv(init);
      KnownPorts(Run(init));
      StepFits(Run(init), steps[|steps| - 1], id, FateOf(init, id));
    }
  }

  /** So ports are numbered in the order they were connected. */
  lemma {:induction false} PortsAreNumbered(steps: seq<Step>, id: Id)
    ensures FateOf(steps, id).born <==> 1 <= id <= Connects(steps)
  {
    hide UnderWay;
    if steps != [] {
      PortsAreNumbered(steps[..|steps| - 1], id);
    }
  }

  /**
   What comes of a port in every run, by the steps alone: its onDisconnect listeners run once if its host
   or main ended it and never otherwise; main is told to let go of it once if main accepted it and the
   caller closed it, or its host did before the answer, and never otherwise; and unless it ended, what was
   posted to it was sent, or is queued while it waits for its answer.
   */
  lemma {:induction false} PortsEndAsToldBySteps(steps: seq<Step>, id: Id)
    requires 1 <= id <= Connects(steps)
    ensures id in Run(steps).ports && HeardBy(Run(steps).messages, id) == FateOf(steps, id).heard
    ensures var s, fate := Run(steps), FateOf(steps, id);
            && CountOf(s.disconnects, id)
               == (if fate.ending.Some? && !fate.ending.value.ByCaller? then 1 else 0)
            && (Releases(s.calls, id) == 1 <==>
                  fate.answer == Some(true) && (fate.ending == Some(ByCaller) || fate.ending == Some(ByItsHost(true))))
            && Releases(s.calls, id) <= 1
            && (fate.ending == None && fate.answer == Some(true) ==> SentTo(s.calls, id) == fate.posted)
            && (fate.ending == None && fate.answer == None ==> s.ports[id].queued == fate.posted)
  {
    hide Run, FateOf, SentTo, Releases, CountOf, HeardBy, Connects, Inv;
    PortsAreNumbered(steps, id);
    PortFollowsSteps(steps, id);
    PortsEndOnce(steps, id);
    PostsAreConserved(steps, id);
    PastRemembersPosts(steps, id);
    RunKeepsInv(steps);
    CoherentIn(Run(steps), id);
    var port, sent := Run(steps).ports[id], SentTo(Run(steps).calls, id);
    assert port.queued == [] ==> sent + port.queued == sent;
    assert sent == [] ==> sent + port.queued == port.queued;
  }

  lemma {:induction false} CoherentIn(s: State, id: Id)
    requires Inv(s) && id in s.ports
    ensures Known(s, id) && Coherent(s, id)
  {
  }
}
