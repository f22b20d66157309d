/**
 The listen channel of an extension worker: which events the extension listens to, kept in three
 places that must agree. The listener registry turns adds and removes into listen calls; the worker
 shim remembers the last call for each event and sends the calls through one ordered chain, blocked
 until the event stream first opens and replayed after every later reconnect; main keeps what it was
 told, but may forget any of it while the stream is down. A call that fails is not sent again.
 */
module ListenChannel {
  import opened Prelude

  type Callback = nat
  /** A listener's filter: an object, or anything else. */
  datatype Filter = NoFilter | Filter(n: nat)
  datatype Event = Event(namespace: string, name: string)
  datatype Listener = Listener(callback: Callback, filter: Filter)
  type Filters = Option<seq<Filter>>
  datatype Listen = Listen(event: Event, active: bool, filters: Filters)

  // ---------- the listener registry ----------

  /** Only webRequest sends filters: it is the one event main pre-filters. */
  predicate Filtered(e: Event) { e.namespace == "webRequest" }

  function FiltersOf(registered: seq<Listener>): seq<Filter> {
    seq(|registered|, i requires 0 <= i < |registered| => registered[i].filter)
  }

  function FiltersToSend(e: Event, registered: seq<Listener>): Filters {
    if Filtered(e) && registered != [] && forall l <- registered :: l.filter.Filter?
    then Some(FiltersOf(registered)) else None
  }

  function IndexOf(registered: seq<Listener>, c: Callback): (i: int)
    ensures -1 <= i < |registered|
    ensures i >= 0 ==> registered[i].callback == c
    ensures i < 0 ==> forall l <- registered :: l.callback != c
  {
    if registered == [] then -1
    else if registered[|registered| - 1].callback == c then |registered| - 1
    else IndexOf(registered[..|registered| - 1], c)
  }

  type Registry = map<Event, seq<Listener>>

  function Of(r: Registry, e: Event): seq<Listener> { if e in r then r[e] else [] }

  /** What main should know: every event with a listener, with the filters of all its listeners. */
  ghost function Expected(r: Registry): map<Event, Filters> {
    map e | e in r && r[e] != [] :: FiltersToSend(e, r[e])
  }

  // ---------- the channel ----------

  /** `unheard` are the events whose last call sent so far was lost. */
  datatype State = State(
    registry: Registry,
    listening: map<Event, Filters>,
    chain: seq<Listen>,
    connectedBefore: bool,
    streamOpen: bool,
    main: map<Event, Filters>,
    unheard: set<Event>)

  datatype Step =
    | AddListener(event: Event, callback: Callback, filter: Filter)
    | RemoveListener(event: Event, callback: Callback)
    | Connect(order: seq<Event>)
    | Break
    | Forget(kept: set<Event>)
    | Send(lost: bool)

  const INITIAL := State(map[], map[], [], false, false, map[], {})

  /** Records the call for replay and queues it. */
  function Listening(s: State, e: Event, active: bool, filters: Filters): State {
    s.(listening := if active then s.listening[e := filters] else s.listening - {e},
       chain := s.chain + [Listen(e, active, filters)])
  }

  function Replay(listening: map<Event, Filters>, order: seq<Event>): seq<Listen> {
    if order == [] then []
    else
      var e := order[|order| - 1];
      Replay(listening, order[..|order| - 1])
        + if e in listening then [Listen(e, true, listening[e])] else []
  }

  function Told(main: map<Event, Filters>, call: Listen): map<Event, Filters> {
    if call.active then main[call.event := call.filters] else main - {call.event}
  }

  function Apply(s: State, step: Step): State {
    match step
    case AddListener(e, c, f) =>
      var registered := Of(s.registry, e);
      if IndexOf(registered, c) >= 0 then s
      else
        var after := registered + [Listener(c, f)];
        var s' := s.(registry := s.registry[e := after]);
        if |after| == 1 || Filtered(e) then Listening(s', e, true, FiltersToSend(e, after)) else s'
    case RemoveListener(e, c) =>
      var registered := Of(s.registry, e);
      var i := IndexOf(registered, c);
      if i < 0 then s
      else
        var after := registered[..i] + registered[i + 1..];
        var s' := s.(registry := s.registry[e := after]);
        if after == [] then Listening(s', e, false, None)
        else if Filtered(e) then Listening(s', e, true, FiltersToSend(e, after))
        else s'
    case Connect(order) =>
      if s.streamOpen then s
      else
        s.(connectedBefore := true, streamOpen := true,
           chain := s.chain + if s.connectedBefore then Replay(s.listening, order) else [])
    case Break => s.(streamOpen := false)
    case Forget(kept) =>
      if s.streamOpen then s else s.(main := map e | e in s.main && e in kept :: s.main[e])
    case Send(lost) =>
      if !s.connectedBefore || s.chain == [] then s
      else if lost then s.(chain := s.chain[1..], unheard := s.unheard + {s.chain[0].event})
      else
        s.(main := Told(s.main, s.chain[0]), chain := s.chain[1..], unheard := s.unheard - {s.chain[0].event})
  }

  /** A replay goes through every remembered event, in whatever order they are remembered. */
  ghost predicate Possible(s: State, step: Step) {
    step.Connect? ==> forall e :: e in step.order <==> e in s.listening
  }

  function Run(steps: seq<Step>): State {
    if steps == [] then INITIAL else Apply(Run(steps[..|steps| - 1]), steps[|steps| - 1])
  }

  ghost predicate PossibleRun(steps: seq<Step>) {
    steps != [] ==>
      PossibleRun(steps[..|steps| - 1]) && Possible(Run(steps[..|steps| - 1]), steps[|steps| - 1])
  }

  // ---------- the shim in place ----------

  class WorkerShim {
    var registry: Registry
    var listening: map<Event, Filters>
    var chain: seq<Listen>
    var connectedBefore: bool
    var streamOpen: bool
    /** Main's registrations for this worker. */
    var main: map<Event, Filters>
    ghost var unheard: set<Event>

    ghost function View(): State reads this {
      State(registry, listening, chain, connectedBefore, streamOpen, main, unheard)
    }

    constructor ()
      ensures View() == INITIAL
    {
      registry, listening, chain, connectedBefore, streamOpen, main := map[], map[], [], false, false, map[];
      unheard := {};
    }

    method SendListen(e: Event, active: bool, filters: Filters)
      modifies this`chain
      ensures chain == old(chain) + [Listen(e, active, filters)]
    {
      chain := chain + [Listen(e, active, filters)];
    }

    method BridgeListen(e: Event, active: bool, filters: Filters)
      modifies this`listening, this`chain
      ensures View() == Listening(old(View()), e, active, filters)
    {
      if active {
        listening := listening[e := filters];
      } else {
        listening := listening - {e};
      }
      SendListen(e, active, filters);
    }

    method Add(e: Event, callback: Callback, filter: Filter)
      modifies this
      ensures View() == Apply(old(View()), Step.AddListener(e, callback, filter))
    {
      var registered := Of(registry, e);
      if IndexOf(registered, callback) >= 0 {
        return;
      }
      registered := registered + [Listener(callback, filter)];
      registry := registry[e := registered];
      if |registered| == 1 || Filtered(e) {
        BridgeListen(e, true, FiltersToSend(e, registered));
      }
    }

    method Remove(e: Event, callback: Callback)
      modifies this
      ensures View() == Apply(old(View()), Step.RemoveListener(e, callback))
    {
      var registered := Of(registry, e);
      var i := IndexOf(registered, callback);
      if i < 0 {
        return;
      }
      registered := registered[..i] + registered[i + 1..];
      registry := registry[e := registered];
      if registered == [] {
        BridgeListen(e, false, None);
      } else if Filtered(e) {
        BridgeListen(e, true, FiltersToSend(e, registered));
      }
    }

    method StreamOpened(order: seq<Event>)
      requires !streamOpen
      modifies this
      ensures View() == Apply(old(View()), Connect(order))
    {
      streamOpen := true;
      if !connectedBefore {
        connectedBefore := true;
      } else {
        for k := 0 to |order|
          invariant View() == old(View()).(streamOpen := true, chain := old(chain) + Replay(listening, order[..k]))
        {
          assert order[..k + 1][..k] == order[..k];
          if order[k] in listening {
            SendListen(order[k], true, listening[order[k]]);
          }
        }
        assert order[..|order|] == order;
      }
    }

    /** Calls each listener whose filter takes the event, in the order they were added. */
    method Dispatch(e: Event, passes: Filter -> bool) returns (called: seq<Callback>, ghost at: seq<nat>)
      ensures called == Takers(Of(registry, e), passes)
      ensures Picked(Of(registry, e), passes, at) && |called| == |at|
      ensures forall j :: 0 <= j < |at| ==> at[j] < |Of(registry, e)| && called[j] == Of(registry, e)[at[j]].callback
    {
      called := [];
      var registered := Of(registry, e);
      at := TakersArePicked(registered, passes);
      for k := 0 to |registered|
        invariant called == Takers(registered[..k], passes)
      {
        assert registered[..k + 1][..k] == registered[..k];
        if passes(registered[k].filter) {
          called := called + [registered[k].callback];
        }
      }
      assert registered[..|registered|] == registered;
    }
  }

  function Takers(registered: seq<Listener>, passes: Filter -> bool): seq<Callback> {
    if registered == [] then []
    else
      var last := registered[|registered| - 1];
      Takers(registered[..|registered| - 1], passes) + if passes(last.filter) then [last.callback] else []
  }

  /** The positions, in order, of all listeners whose filter passes. */
  ghost predicate Picked(registered: seq<Listener>, passes: Filter -> bool, at: seq<nat>) {
    && (forall i, j :: 0 <= i < j < |at| ==> at[i] < at[j])
    && (forall j :: 0 <= j < |at| ==> at[j] < |registered| && passes(registered[at[j]].filter))
    && (forall i :: 0 <= i < |registered| && passes(registered[i].filter) ==> i in at)
  }

  lemma {:induction false} PickedOne(registered: seq<Listener>, passes: Filter -> bool, at: seq<nat>)
    requires registered != [] && Picked(registered[..|registered| - 1], passes, at)
    ensures var n := |registered| - 1;
            Picked(registered, passes, if passes(registered[n].filter) then at + [n] else at)
  {
    var n := |registered| - 1;
    var init := registered[..n];
    forall i | 0 <= i < |registered| && passes(registered[i].filter) && i != n ensures i in at {
      assert passes(init[i].filter);
    }
  }

  lemma {:induction false} NothingPicked(passes: Filter -> bool) returns (at: seq<nat>)
    ensures at == [] && Picked([], passes, at) && Takers([], passes) == []
  {
    at := [];
  }

  lemma {:induction false} TakersLast(registered: seq<Listener>, passes: Filter -> bool)
    requires registered != []
    ensures var n := |registered| - 1;
            Takers(registered, passes)
            == Takers(registered[..n], passes) + if passes(registered[n].filter) then [registered[n].callback] else []
  {
  }

  lemma {:induction false} TakersArePicked(registered: seq<Listener>, passes: Filter -> bool) returns (at: seq<nat>)
    ensures Picked(registered, passes, at) && |at| == |Takers(registered, passes)|
    ensures forall j :: 0 <= j < |at| ==>
              at[j] < |registered| && Takers(registered, passes)[j] == registered[at[j]].callback
  {
    hide Takers, Picked;
    if registered == [] {
      at := NothingPicked(passes);
    } else {
      var n := |registered| - 1;
      var before := TakersArePicked(registered[..n], passes);
      PickedOne(registered, passes, before);
      TakersLast(registered, passes);
      at := if passes(registered[n].filter) then before + [n] else before;
    }
  }

  // ---------- the invariant ----------

  /** What a map of registrations says of an event: nothing, or active with filters. */
  function Lookup(m: map<Event, Filters>, e: Event): Option<Filters> { if e in m then Some(m[e]) else None }

  function Says(call: Listen): Option<Filters> { if call.active then Some(call.filters) else None }

  /** What the last call about an event says, if there is one. */
  function LastSaid(chain: seq<Listen>, e: Event): Option<Option<Filters>> {
    if chain == [] then None
    else if chain[|chain| - 1].event == e then Some(Says(chain[|chain| - 1]))
    else LastSaid(chain[..|chain| - 1], e)
  }

  /**
   The last call on its way says the truth. Without one main knows the truth, unless the last call sent
   was lost or main has forgotten the event while the stream is down.
   */
  predicate Agrees(s: State, e: Event) {
    match LastSaid(s.chain, e)
    case Some(said) => said == Lookup(s.listening, e)
    case None =>
      || e in s.unheard
      || Lookup(s.main, e) == Lookup(s.listening, e)
      || (s.connectedBefore && !s.streamOpen && e !in s.main)
  }

  ghost predicate Inv(s: State) {
    && s.listening == Expected(s.registry)
    && (forall e :: Agrees(s, e))
    && (!s.connectedBefore ==> s.main == map[] && !s.streamOpen && s.unheard == {})
  }

  lemma {:induction false} ExpectedUpdate(r: Registry, e: Event, after: seq<Listener>)
    ensures Expected(r[e := after])
         == if after == [] then Expected(r) - {e} else Expected(r)[e := FiltersToSend(e, after)]
  {
  }

  lemma {:induction false} LastSaidAppends(a: seq<Listen>, b: seq<Listen>, e: Event)
    ensures LastSaid(a + b, e) == if LastSaid(b, e).Some? then LastSaid(b, e) else LastSaid(a, e)
    decreases |b|
  {
    if b == [] {
      assert a + b == a;
    } else {
      assert (a + b)[..|a + b| - 1] == a + b[..|b| - 1];
      LastSaidAppends(a, b[..|b| - 1], e);
    }
  }

  lemma {:induction false} LastSaidOne(call: Listen, e: Event)
    ensures LastSaid([call], e) == if call.event == e then Some(Says(call)) else None
  {
    assert [call][..0] == [];
  }

  lemma {:induction false} ListeningKeepsInv(s: State, r: Registry, e: Event, active: bool, filters: Filters)
    requires Inv(s)
    requires Expected(r) == if active then s.listening[e := filters] else s.listening - {e}
    ensures Inv(Listening(s.(registry := r), e, active, filters))
  {
    hide LastSaid, Expected;
    var s' := Listening(s.(registry := r), e, active, filters);
    forall x ensures Agrees(s', x) {
      assert Agrees(s, x);
      LastSaidAppends(s.chain, [Listen(e, active, filters)], x);
      LastSaidOne(Listen(e, active, filters), x);
    }
  }

  lemma {:induction false} RegistryOnly(s: State, r: Registry)
    requires Inv(s) && Expected(r) == s.listening
    ensures Inv(s.(registry := r))
  {
    hide LastSaid, Expected;
    forall x ensures Agrees(s.(registry := r), x) {
      assert Agrees(s, x);
    }
  }

  lemma {:induction false} AddKeepsInv(s: State, e: Event, c: Callback, f: Filter)
    requires Inv(s)
    ensures Inv(Apply(s, AddListener(e, c, f)))
  {
    hide Agrees;
    var registered := Of(s.registry, e);
    if IndexOf(registered, c) < 0 {
      var after := registered + [Listener(c, f)];
      var r := s.registry[e := after];
      ExpectedUpdate(s.registry, e, after);
      if |after| == 1 || Filtered(e) {
        ListeningKeepsInv(s, r, e, true, FiltersToSend(e, after));
      } else {
        assert Expected(r) == s.listening;
        RegistryOnly(s, r);
      }
    }
  }

  lemma {:induction false} RemoveKeepsInv(s: State, e: Event, c: Callback)
    requires Inv(s)
    ensures Inv(Apply(s, RemoveListener(e, c)))
  {
    hide Agrees;
    var registered := Of(s.registry, e);
    var i := IndexOf(registered, c);
    if i >= 0 {
      var after := registered[..i] + registered[i + 1..];
      var r := s.registry[e := after];
      ExpectedUpdate(s.registry, e, after);
      if after == [] {
        ListeningKeepsInv(s, r, e, false, None);
      } else if Filtered(e) {
        ListeningKeepsInv(s, r, e, true, FiltersToSend(e, after));
      } else {
        assert Expected(r) == s.listening;
        RegistryOnly(s, r);
      }
    }
  }

  /** A replay says of every remembered event, in whatever order, what is remembered, and of no other anything. */
  lemma {:induction false} ReplaySays(listening: map<Event, Filters>, order: seq<Event>, e: Event)
    ensures LastSaid(Replay(listening, order), e)
         == if e in order && e in listening then Some(Some(listening[e])) else None
  {
    if order != [] {
      hide LastSaid;
      var init, last := order[..|order| - 1], order[|order| - 1];
      ReplaySays(listening, init, e);
      if last in listening {
        LastSaidAppends(Replay(listening, init), [Listen(last, true, listening[last])], e);
        LastSaidOne(Listen(last, true, listening[last]), e);
      } else {
        assert Replay(listening, init) + [] == Replay(listening, init);
      }
      assert e in order <==> e in init || e == last;
    } else {
      NothingSaid(e);
    }
  }

  lemma {:induction false} NothingSaid(e: Event)
    ensures LastSaid([], e) == None
  {
  }

  lemma {:induction false} ConnectKeepsInv(s: State, order: seq<Event>)
    requires Inv(s) && Possible(s, Connect(order))
    ensures Inv(Apply(s, Connect(order)))
  {
    hide LastSaid, Expected, Replay;
    if !s.streamOpen {
      var s' := Apply(s, Connect(order));
      forall e ensures Agrees(s', e) {
        assert Agrees(s, e);
        LastSaidAppends(s.chain, if s.connectedBefore then Replay(s.listening, order) else [], e);
        ReplaySays(s.listening, order, e);
        NothingSaid(e);
      }
    }
  }

  lemma {:induction false} SendKeepsInv(s: State, lost: bool)
    requires Inv(s)
    ensures Inv(Apply(s, Send(lost)))
  {
    hide LastSaid, Expected;
    if s.connectedBefore && s.chain != [] {
      var s' := Apply(s, Send(lost));
      forall e ensures Agrees(s', e) {
        assert Agrees(s, e);
        assert s.chain == [s.chain[0]] + s.chain[1..];
        LastSaidAppends([s.chain[0]], s.chain[1..], e);
        LastSaidOne(s.chain[0], e);
      }
    }
  }

  lemma {:induction false} StepKeepsInv(s: State, step: Step)
    requires Inv(s) && Possible(s, step)
    ensures Inv(Apply(s, step))
  {
    match step
    case AddListener(e, c, f) => AddKeepsInv(s, e, c, f);
    case RemoveListener(e, c) => RemoveKeepsInv(s, e, c);
    case Connect(order) => ConnectKeepsInv(s, order);
    case Send(lost) => SendKeepsInv(s, lost);
    case _ => StreamStepKeepsInv(s, step);
  }

  lemma {:induction false} StreamStepKeepsInv(s: State, step: Step)
    requires Inv(s) && (step.Break? || step.Forget?)
    ensures Inv(Apply(s, step))
  {
    hide LastSaid, Expected;
    forall e ensures Agrees(Apply(s, step), e) {
      assert Agrees(s, e);
    }
  }

  lemma {:induction false} RunKeepsInv(steps: seq<Step>)
    requires PossibleRun(steps)
    ensures Inv(Run(steps))
  {
    if steps == [] {
      assert Expected(map[]) == map[];
    } else {
      hide Inv, Apply;
      RunKeepsInv(steps[..|steps| - 1]);
      StepKeepsInv(Run(steps[..|steps| - 1]), steps[|steps| - 1]);
    }
  }

  // ---------- main results ----------

  function Sends(lost: seq<bool>): seq<Step> { seq(|lost|, i requires 0 <= i < |lost| => Send(lost[i])) }

  lemma {:induction false} SameLookups(a: map<Event, Filters>, b: map<Event, Filters>)
    ensures a == b <==> forall e :: Lookup(a, e) == Lookup(b, e)
  {
    if forall e :: Lookup(a, e) == Lookup(b, e) {
      assert a.Keys == b.Keys by {
        forall e ensures e in a <==> e in b {
          assert Lookup(a, e) == Lookup(b, e);
        }
      }
      forall e | e in a ensures a[e] == b[e] {
        assert Lookup(a, e) == Lookup(b, e);
      }
    }
  }

  /** With an open stream and nothing left to send, main can be wrong about unheard events only. */
  lemma {:induction false} QuietStateAgrees(s: State)
    requires Inv(s) && s.streamOpen && s.chain == []
    ensures forall e :: e !in s.unheard ==> Lookup(s.main, e) == Lookup(Expected(s.registry), e)
    ensures s.main == Expected(s.registry)
            <==> forall e <- s.unheard :: Lookup(s.main, e) == Lookup(Expected(s.registry), e)
  {
    hide Expected;
    SameLookups(s.main, Expected(s.registry));
    forall e | e !in s.unheard ensures Lookup(s.main, e) == Lookup(Expected(s.registry), e) {
      assert Agrees(s, e);
    }
  }

  lemma {:induction false} RunSnoc(steps: seq<Step>, step: Step)
    ensures Run(steps + [step]) == Apply(Run(steps), step)
  {
    assert (steps + [step])[..|steps|] == steps;
  }

  lemma {:induction false} SendsSnoc(steps: seq<Step>, lost: seq<bool>)
    requires lost != []
    ensures steps + Sends(lost) == steps + Sends(lost[..|lost| - 1]) + [Send(lost[|lost| - 1])]
  {
  }

  lemma {:induction false} SendMoves(s: State, lost: bool)
    requires s.connectedBefore && s.chain != []
    ensures var s' := Apply(s, Send(lost));
            && s'.chain == s.chain[1..] && s'.registry == s.registry
            && s'.streamOpen == s.streamOpen && s'.connectedBefore
  {
  }

  lemma {:induction false} SendIsPossible(steps: seq<Step>, lost: bool)
    requires PossibleRun(steps)
    ensures PossibleRun(steps + [Send(lost)])
  {
    hide Apply;
    assert (steps + [Send(lost)])[..|steps|] == steps;
  }

  /** Sending moves through the chain and changes nothing but what main knows. */
  lemma {:induction false} SendsMove(steps: seq<Step>, lost: seq<bool>)
    requires PossibleRun(steps) && Run(steps).connectedBefore && |lost| <= |Run(steps).chain|
    ensures PossibleRun(steps + Sends(lost))
    ensures var s, s' := Run(steps), Run(steps + Sends(lost));
            && s'.chain == s.chain[|lost|..] && s'.registry == s.registry
            && s'.streamOpen == s.streamOpen && s'.connectedBefore
    decreases |lost|
  {
    if lost == [] {
      assert steps + Sends(lost) == steps;
    } else {
      hide Run, Apply, Sends, PossibleRun;
      var init, last := lost[..|lost| - 1], lost[|lost| - 1];
      SendsMove(steps, init);
      SendsSnoc(steps, lost);
      RunSnoc(steps + Sends(init), Send(last));
      SendMoves(Run(steps + Sends(init)), last);
      SendIsPossible(steps + Sends(init), last);
      assert Run(steps).chain[|init|..][1..] == Run(steps).chain[|lost|..];
    }
  }

  /**
   Main result, with any calls lost: once the stream is open and the chain is sent, main is active on
   exactly the events with a listener, with their latest filters, but for events whose last call was
   lost; and on all of them exactly when it happens to know the truth of those.
   */
  lemma {:induction false} DrainingAgreesExactly(steps: seq<Step>, lost: seq<bool>)
    requires PossibleRun(steps) && Run(steps).streamOpen && |lost| == |Run(steps).chain|
    ensures var s := Run(steps + Sends(lost)); var expected := Expected(Run(steps).registry);
            && s.chain == []
            && (forall e :: e !in s.unheard ==> Lookup(s.main, e) == Lookup(expected, e))
            && (s.main == expected <==> forall e <- s.unheard :: Lookup(s.main, e) == Lookup(expected, e))
  {
    hide Expected, Apply, Run, Agrees;
    RunKeepsInv(steps);
    SendsMove(steps, lost);
    RunKeepsInv(steps + Sends(lost));
    QuietStateAgrees(Run(steps + Sends(lost)));
  }

  predicate Lossless(steps: seq<Step>) { forall step <- steps :: step.Send? ==> !step.lost }

  lemma {:induction false} StepIsHeard(s: State, step: Step)
    requires s.unheard == {} && (step.Send? ==> !step.lost)
    ensures Apply(s, step).unheard == {}
  {
    hide IndexOf, Of, FiltersToSend, Replay, Told;
  }

  lemma {:induction false} LosslessIsHeard(steps: seq<Step>)
    requires Lossless(steps)
    ensures Run(steps).unheard == {}
  {
    if steps != [] {
      hide Apply;
      LosslessIsHeard(steps[..|steps| - 1]);
      assert steps[|steps| - 1] in steps;
      StepIsHeard(Run(steps[..|steps| - 1]), steps[|steps| - 1]);
    }
  }

  /** So without a lost call draining leaves main with exactly the expected registrations. */
  lemma {:induction false} DrainingAgrees(steps: seq<Step>, lost: seq<bool>)
    requires PossibleRun(steps) && Run(steps).streamOpen && |lost| == |Run(steps).chain|
    requires Lossless(steps) && forall l <- lost :: !l
    ensures Run(steps + Sends(lost)).main == Expected(Run(steps).registry)
  {
    hide Run, Expected;
    DrainingAgreesExactly(steps, lost);
    forall step | step in Sends(lost) ensures step.Send? && !step.lost {
      var i :| 0 <= i < |lost| && step == Send(lost[i]);
      assert lost[i] in lost;
    }
    LosslessIsHeard(steps + Sends(lost));
  }

  lemma {:induction false} HeardSend(s: State, e: Event)
    requires s.connectedBefore && s.chain != []
    ensures Lookup(Apply(s, Send(false)).main, e)
         == if s.chain[0].event == e then Says(s.chain[0]) else Lookup(s.main, e)
  {
  }

  /** What main knows of an event after calls that all get through. */
  lemma {:induction false} HeardSends(steps: seq<Step>, lost: seq<bool>, e: Event)
    requires PossibleRun(steps) && Run(steps).connectedBefore && |lost| <= |Run(steps).chain|
    requires forall l <- lost :: !l
    ensures var s, s' := Run(steps), Run(steps + Sends(lost)); var said := LastSaid(s.chain[..|lost|], e);
            Lookup(s'.main, e) == if said.Some? then said.value else Lookup(s.main, e)
    decreases |lost|
  {
    hide LastSaid, Run, Apply, PossibleRun, Lookup, Says;
    var s := Run(steps);
    if lost == [] {
      assert steps + Sends(lost) == steps && s.chain[..0] == [];
      NothingSaid(e);
    } else {
      hide Sends;
      var init, last := lost[..|lost| - 1], lost[|lost| - 1];
      assert last in lost && forall l <- init :: l in lost;
      HeardSends(steps, init, e);
      SendsMove(steps, init);
      SendsSnoc(steps, lost);
      RunSnoc(steps + Sends(init), Send(last));
      HeardSend(Run(steps + Sends(init)), e);
      assert s.chain[..|lost|] == s.chain[..|init|] + [s.chain[|init|]];
      LastSaidAppends(s.chain[..|init|], [s.chain[|init|]], e);
      LastSaidOne(s.chain[|init|], e);
    }
  }

  /** A lost unlisten that nothing has made up for: main still has the event, and nobody listens. */
  predicate Leftover(s: State, e: Event) {
    e in s.unheard && e !in s.listening && LastSaid(s.chain, e) == None && e in s.main
  }

  /**
   Main result for reconnects: once the replay and all calls before it get through, main is right exactly
   when it had no leftover. A replay makes up for lost adds and filter updates, and for no lost removal.
   */
  lemma {:induction false} ReconnectHealsExactly(steps: seq<Step>, order: seq<Event>, lost: seq<bool>)
    requires PossibleRun(steps) && Possible(Run(steps), Connect(order))
    requires Run(steps).connectedBefore && !Run(steps).streamOpen
    requires |lost| == |Run(steps + [Connect(order)]).chain| && forall l <- lost :: !l
    ensures Run(steps + [Connect(order)] + Sends(lost)).main == Expected(Run(steps).registry)
            <==> forall e :: !Leftover(Run(steps), e)
  {
    hide Run, Expected, LastSaid, Replay, Apply;
    var s, reopened := Run(steps), steps + [Connect(order)];
    RunKeepsInv(steps);
    ConnectRuns(steps, order);
    assert Run(reopened).chain[..|lost|] == Run(reopened).chain;
    forall e ensures Lookup(Run(reopened + Sends(lost)).main, e) == Lookup(s.listening, e) <==> !Leftover(s, e) {
      assert Agrees(s, e);
      HeardSends(reopened, lost, e);
      LastSaidAppends(s.chain, Replay(s.listening, order), e);
      ReplaySays(s.listening, order, e);
    }
    SameLookups(Run(reopened + Sends(lost)).main, s.listening);
  }

  lemma {:induction false} ConnectRuns(steps: seq<Step>, order: seq<Event>)
    requires PossibleRun(steps) && Possible(Run(steps), Connect(order))
    requires Run(steps).connectedBefore && !Run(steps).streamOpen
    ensures PossibleRun(steps + [Connect(order)])
    ensures var s, s' := Run(steps), Run(steps + [Connect(order)]);
            s' == s.(streamOpen := true, chain := s.chain + Replay(s.listening, order))
  {
    assert (steps + [Connect(order)])[..|steps|] == steps;
  }

  const TAB: Event := Event("tabs", "onUpdated")

  /** A listener comes and goes, main misses the removal, and the stream breaks and opens again. */
  const LOST_REMOVAL: seq<Step> :=
    [AddListener(TAB, 1, NoFilter), Connect([]), Send(false), RemoveListener(TAB, 1), Send(true), Break, Connect([])]

  const HEARD := State(map[TAB := [Listener(1, NoFilter)]], map[TAB := None], [], true, true, map[TAB := None], {})
  const UNTOLD := State(map[TAB := []], map[], [], true, true, map[TAB := None], {TAB})

  lemma {:induction false} AddIsHeard()
    ensures Run(LOST_REMOVAL[..3]) == HEARD
  {
    hide Run;
    assert LOST_REMOVAL[..0] == [];
    NothingRun();
    RunStep(LOST_REMOVAL, 0);
    assert Of(map[], TAB) + [Listener(1, NoFilter)] == [Listener(1, NoFilter)];
    assert Run(LOST_REMOVAL[..1]).registry == map[TAB := [Listener(1, NoFilter)]];
    assert Run(LOST_REMOVAL[..1]).listening == map[TAB := None];
    assert Run(LOST_REMOVAL[..1]).chain == [Listen(TAB, true, None)];
    RunStep(LOST_REMOVAL, 1);
    RunStep(LOST_REMOVAL, 2);
    var s := Run(LOST_REMOVAL[..3]);
    assert s.main == HEARD.main && s.chain == HEARD.chain && s.unheard == HEARD.unheard;
  }

  lemma {:induction false} RemovalIsLost()
    ensures Run(LOST_REMOVAL[..5]) == UNTOLD
  {
    hide Run;
    AddIsHeard();
    RunStep(LOST_REMOVAL, 3);
    assert Run(LOST_REMOVAL[..4]).chain == [Listen(TAB, false, None)];
    assert Run(LOST_REMOVAL[..4]).registry == map[TAB := []];
    RunStep(LOST_REMOVAL, 4);
  }

  /** Main stays active on an event without a listener. */
  lemma {:induction false} LostRemovalStays()
    ensures var s := Run(LOST_REMOVAL);
            s.streamOpen && s.chain == [] && s.main == map[TAB := None] && Expected(s.registry) == map[]
  {
    hide Run;
    RemovalIsLost();
    RunStep(LOST_REMOVAL, 5);
    RunStep(LOST_REMOVAL, 6);
    assert LOST_REMOVAL[..7] == LOST_REMOVAL;
    assert Replay(map[], []) == [] && UNTOLD.chain + [] == [];
    assert Run(LOST_REMOVAL) == UNTOLD;
  }

  lemma {:induction false} NothingRun()
    ensures Run([]) == INITIAL
  {
  }

  lemma {:induction false} RunStep(steps: seq<Step>, k: nat)
    requires k < |steps|
    ensures Run(steps[..k + 1]) == Apply(Run(steps[..k]), steps[k])
  {
    assert steps[..k + 1] == steps[..k] + [steps[k]];
    RunSnoc(steps[..k], steps[k]);
  }

  /** Main's pre-filter: an event goes out when there is no filter list or some filter passes. */
  predicate MainSends(main: map<Event, Filters>, e: Event, passes: Filter -> bool) {
    e in main && (main[e].None? || exists f <- main[e].value :: passes(f))
  }

  /**
   When main agrees, it sends an event exactly when there is a listener and the pre-filter cannot tell
   that nobody takes it: the event is none of webRequest's, some listener has no filter, or some listener
   takes it.
   */
  lemma {:induction false} PreFilterIsExact(r: Registry, e: Event, passes: Filter -> bool)
    ensures MainSends(Expected(r), e, passes)
            <==> Of(r, e) != [] && (e.namespace != "webRequest" || (exists l <- Of(r, e) :: !l.filter.Filter?)
                                    || Takers(Of(r, e), passes) != [])
  {
    var registered := Of(r, e);
    if FiltersToSend(e, registered).Some? {
      if Takers(registered, passes) != [] {
        var i := TakerExists(registered, passes);
        assert FiltersOf(registered)[i] == registered[i].filter;
      }
      if MainSends(Expected(r), e, passes) {
        var f :| f in FiltersOf(registered) && passes(f);
        var i :| 0 <= i < |registered| && registered[i].filter == f;
        TakersNonempty(registered, passes, i);
      }
    } else if e.namespace == "webRequest" && registered != [] {
      var l :| l in registered && !l.filter.Filter?;
    }
  }

  /** So no event is kept back that some listener takes. */
  lemma {:induction false} PreFilterLosesNothing(r: Registry, e: Event, passes: Filter -> bool)
    requires Takers(Of(r, e), passes) != []
    ensures MainSends(Expected(r), e, passes)
  {
    PreFilterIsExact(r, e, passes);
    assert Takers([], passes) == [];
  }

  /** And no webRequest event goes out, when every listener has a filter, that nobody takes. */
  lemma {:induction false} PreFilterIsTight(r: Registry, e: Event, passes: Filter -> bool)
    requires e.namespace == "webRequest" && (forall l <- Of(r, e) :: l.filter.Filter?)
    requires MainSends(Expected(r), e, passes)
    ensures Takers(Of(r, e), passes) != []
  {
    PreFilterIsExact(r, e, passes);
  }

  lemma {:induction false} TakerExists(registered: seq<Listener>, passes: Filter -> bool) returns (i: nat)
    requires Takers(registered, passes) != []
    ensures i < |registered| && passes(registered[i].filter)
  {
    if passes(registered[|registered| - 1].filter) {
      i := |registered| - 1;
    } else {
      i := TakerExists(registered[..|registered| - 1], passes);
    }
  }

  lemma {:induction false} TakersNonempty(registered: seq<Listener>, passes: Filter -> bool, i: nat)
    requires i < |registered| && passes(registered[i].filter)
    ensures Takers(registered, passes) != []
  {
    if i < |registered| - 1 {
      TakersNonempty(registered[..|registered| - 1], passes, i);
    }
  }
}
