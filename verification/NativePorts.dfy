/**
 The native messaging ports of one extension context. A port starts before main has confirmed its
 host; posts wait until it has. Posts, disconnects, main's connect replies and the host's events
 reach the ports in any order. A listener called here may call back: that is just the next step.

 A post is two steps, since serializing its message runs the extension's own code: the port's state
 is checked before it and decides where the message goes after it. Posts nest; while one is under
 way no reply and no event of the host comes in.
 */
module NativePorts {
  import opened Prelude

  type Id = nat
  datatype PortState = Starting | Open | Closed
  datatype Port = Port(state: PortState, queued: seq<string>)
  /** A call to main about one port. */
  datatype Call = Connect(id: Id) | Post(id: Id, json: string) | Disconnect(id: Id)
  datatype HostMessage = HostMessage(id: Id, data: string)

  /** What happened to a port so far, from outside: not part of the program's own state. */
  datatype Reply = Awaited | Accepted | Refused
  datatype Closing = NotClosed | ByExtension | ByHost(starting: bool) | ByRefusal
  /** `lost` is the queue the port closed with. */
  datatype Past = Past(accepted: seq<string>, sent: seq<string>, lost: seq<string>, reply: Reply, closing: Closing)

  /** `posting` are the ports whose messages are being serialized, the innermost last. */
  datatype State = State(
    ports: map<Id, Port>,
    live: set<Id>,
    counter: nat,
    calls: seq<Call>,
    messages: seq<HostMessage>,
    disconnects: seq<Id>,
    posting: seq<Id>,
    pasts: map<Id, Past>)

  datatype Step =
    | ConnectNative
    | BeginPost(id: Id)
    | EndPost(id: Id, json: Option<string>)
    | PortDisconnect(id: Id)
    | ConnectReply(id: Id, ok: bool)
    | HostSends(id: Id, data: string)
    | HostDisconnects(id: Id)

  const INITIAL := State(map[], {}, 0, [], [], [], [], map[])

  function Posts(id: Id, jsons: seq<string>): seq<Call> {
    seq(|jsons|, i requires 0 <= i < |jsons| => Post(id, jsons[i]))
  }

  predicate Known(s: State, id: Id) { id in s.ports && id in s.pasts }

  function Close(s: State, id: Id, closing: Closing): State
    requires Known(s, id)
  {
    s.(ports := s.ports[id := Port(Closed, [])],
       live := s.live - {id},
       pasts := s.pasts[id := s.pasts[id].(closing := closing, lost := s.ports[id].queued)])
  }

  /** The port ends on its own: its onDisconnect listeners run. */
  function End(s: State, id: Id, closing: Closing): State
    requires Known(s, id)
  {
    Close(s, id, closing).(disconnects := s.disconnects + [id])
  }

  /** The message of the innermost post is serialized: it waits on a starting port and goes out on any other. */
  function Dispatch(s: State, id: Id, json: string): State
    requires Known(s, id)
  {
    var port, past := s.ports[id], s.pasts[id];
    var past' := past.(accepted := past.accepted + [json]);
    if port.state == Starting then
      s.(ports := s.ports[id := port.(queued := port.queued + [json])], pasts := s.pasts[id := past'])
    else
      s.(calls := s.calls + [Post(id, json)], pasts := s.pasts[id := past'.(sent := past.sent + [json])])
  }

  predicate Innermost(s: State, id: Id) { s.posting != [] && s.posting[|s.posting| - 1] == id }

  function Apply(s: State, step: Step): State {
    match step
    case ConnectNative =>
      var id := s.counter + 1;
      s.(ports := s.ports[id := Port(Starting, [])],
         live := s.live + {id},
         counter := id,
         calls := s.calls + [Connect(id)],
         pasts := s.pasts[id := Past([], [], [], Awaited, NotClosed)])
    case BeginPost(id) =>
      if !Known(s, id) || s.ports[id].state == Closed then s else s.(posting := s.posting + [id])
    case EndPost(id, json) =>
      if !(Known(s, id) && Innermost(s, id)) then s
      else
        var ended := s.(posting := s.posting[..|s.posting| - 1]);
        if json.None? then ended else Dispatch(ended, id, json.value)
    case PortDisconnect(id) =>
      if !Known(s, id) || s.ports[id].state == Closed then s
      else
        var after := Close(s, id, ByExtension);
        if s.ports[id].state == Open then after.(calls := s.calls + [Disconnect(id)]) else after
    case ConnectReply(id, ok) =>
      if s.posting != [] || !(Known(s, id) && s.pasts[id].reply == Awaited) then s
      else
        var port, past := s.ports[id], s.pasts[id];
        var heard := s.(pasts := s.pasts[id := past.(reply := if ok then Accepted else Refused)]);
        if !ok then if port.state == Closed then heard else End(heard, id, ByRefusal)
        else if port.state == Closed then heard.(calls := s.calls + [Disconnect(id)])
        else
          heard.(ports := s.ports[id := Port(Open, [])],
                 calls := s.calls + Posts(id, port.queued),
                 pasts := s.pasts[id := past.(reply := Accepted, sent := past.sent + port.queued)])
    case HostSends(id, data) =>
      if s.posting == [] && id in s.live then s.(messages := s.messages + [HostMessage(id, data)]) else s
    case HostDisconnects(id) =>
      if s.posting == [] && id in s.live && Known(s, id)
      then End(s, id, ByHost(s.ports[id].state == Starting)) else s
  }

  function Run(steps: seq<Step>): State {
    if steps == [] then INITIAL else Apply(Run(steps[..|steps| - 1]), steps[|steps| - 1])
  }

  // ---------- the ports in place ----------

  class NativeMessaging {
    /** Every port object the extension holds, open or closed. */
    var ports: map<Id, Port>
    /** The ports that host events can still reach. */
    var live: set<Id>
    var counter: nat
    var calls: seq<Call>
    var messages: seq<HostMessage>
    var disconnects: seq<Id>
    ghost var posting: seq<Id>
    ghost var pasts: map<Id, Past>

    ghost function View(): State reads this {
      State(ports, live, counter, calls, messages, disconnects, posting, pasts)
    }

    /** Every port has a past, and only ports are live. */
    ghost predicate Valid() reads this { ports.Keys == pasts.Keys && live <= ports.Keys }

    constructor ()
      ensures Valid() && View() == INITIAL
    {
      ports, live, counter, calls, messages, disconnects := map[], {}, 0, [], [], [];
      posting, pasts := [], map[];
    }

    method EndPort(id: Id, ghost closing: Closing)
      requires Valid() && id in ports
      modifies this
      ensures Valid() && View() == End(old(View()), id, closing)
    {
      pasts := pasts[id := pasts[id].(closing := closing, lost := ports[id].queued)];
      ports := ports[id := Port(Closed, [])];
      live := live - {id};
      disconnects := disconnects + [id];
    }

    method Connecting() returns (id: Id)
      requires Valid()
      modifies this
      ensures Valid() && View() == Apply(old(View()), ConnectNative) && id == counter
    {
      counter := counter + 1;
      id := counter;
      ports := ports[id := Port(Starting, [])];
      live := live + {id};
      pasts := pasts[id := Past([], [], [], Awaited, NotClosed)];
      calls := calls + [Connect(id)];
    }

    /** A post up to its serialization; it throws on a closed port. */
    method BeginPosting(id: Id) returns (threw: bool)
      requires Valid() && id in ports
      modifies this
      ensures Valid() && View() == Apply(old(View()), BeginPost(id))
      ensures threw == (old(ports[id].state) == Closed)
    {
      if ports[id].state == Closed {
        return true;
      }
      posting := posting + [id];
      return false;
    }

    /** The rest of the post, with the serialized message; without one it throws. */
    method EndPosting(id: Id, json: Option<string>) returns (threw: bool)
      requires Valid() && id in ports && Innermost(View(), id)
      modifies this
      ensures Valid() && View() == Apply(old(View()), EndPost(id, json))
      ensures threw == json.None?
    {
      posting := posting[..|posting| - 1];
      if json.None? {
        return true;
      }
      var port := ports[id];
      ghost var past := pasts[id];
      if port.state == Starting {
        ports := ports[id := port.(queued := port.queued + [json.value])];
        pasts := pasts[id := past.(accepted := past.accepted + [json.value])];
      } else {
        calls := calls + [Post(id, json.value)];
        pasts := pasts[id := past.(accepted := past.accepted + [json.value], sent := past.sent + [json.value])];
      }
      return false;
    }

    method Disconnecting(id: Id)
      requires Valid() && id in ports
      modifies this
      ensures Valid() && View() == Apply(old(View()), PortDisconnect(id))
    {
      var wasOpen := ports[id].state == Open;
      if ports[id].state == Closed {
        return;
      }
      pasts := pasts[id := pasts[id].(closing := ByExtension, lost := ports[id].queued)];
      ports := ports[id := Port(Closed, [])];
      live := live - {id};
      if wasOpen {
        calls := calls + [Disconnect(id)];
      }
    }

    method OnConnectReply(id: Id, ok: bool)
      requires Valid() && id in ports && pasts[id].reply == Awaited && posting == []
      modifies this
      ensures Valid() && View() == Apply(old(View()), ConnectReply(id, ok))
    {
      var port := ports[id];
      pasts := pasts[id := pasts[id].(reply := if ok then Accepted else Refused)];
      if !ok {
        if port.state != Closed {
          EndPort(id, ByRefusal);
        }
        return;
      }
      if port.state == Closed {
        calls := calls + [Disconnect(id)];
        return;
      }
      ports := ports[id := Port(Open, [])];
      pasts := pasts[id := pasts[id].(sent := pasts[id].sent + port.queued)];
      ghost var atOpen := View();
      for k := 0 to |port.queued|
        invariant Valid() && View() == atOpen.(calls := old(calls) + Posts(id, port.queued)[..k])
      {
        calls := calls + [Post(id, port.queued[k])];
      }
    }

    method OnHostMessage(id: Id, data: string)
      requires Valid() && posting == []
      modifies this
      ensures Valid() && View() == Apply(old(View()), HostSends(id, data))
    {
      if id in live {
        messages := messages + [HostMessage(id, data)];
      }
    }

    method OnHostDisconnect(id: Id)
      requires Valid() && posting == []
      modifies this
      ensures Valid() && View() == Apply(old(View()), HostDisconnects(id))
    {
      if id in live {
        EndPort(id, ByHost(ports[id].state == Starting));
      }
    }
  }

  // ---------- the invariant ----------

  /** The messages main was sent for one port, in order. */
  function SentTo(calls: seq<Call>, id: Id): seq<string> {
    if calls == [] then []
    else
      var rest, last := SentTo(calls[..|calls| - 1], id), calls[|calls| - 1];
      if last.Post? && last.id == id then rest + [last.json] else rest
  }

  /** How often main was told to let go of one port. */
  function Releases(calls: seq<Call>, id: Id): nat {
    if calls == [] then 0
    else Releases(calls[..|calls| - 1], id) + if calls[|calls| - 1] == Disconnect(id) then 1 else 0
  }

  function CountOf(ids: seq<Id>, id: Id): nat {
    if ids == [] then 0
    else CountOf(ids[..|ids| - 1], id) + if ids[|ids| - 1] == id then 1 else 0
  }

  /** Main must be told to let go: it runs the host, and the host did not end the port after it opened. */
  predicate MustRelease(past: Past) {
    past.reply == Accepted && (past.closing == ByExtension || past.closing == ByHost(true))
  }

  predicate Coherent(s: State, id: Id)
    requires Known(s, id)
  {
    var port, past := s.ports[id], s.pasts[id];
    && id <= s.counter
    && (port.state == Starting <==> past.reply == Awaited && past.closing == NotClosed)
    && (port.state == Open <==> past.reply == Accepted && past.closing == NotClosed)
    && past.accepted == past.lost + past.sent + port.queued
    && (port.state != Starting ==> port.queued == [])
    && (port.state != Closed ==> past.lost == [])
    && (port.state == Starting ==> past.sent == [])
    && (past.closing == ByRefusal ==> past.reply == Refused)
    && (past.closing == ByHost(false) ==> past.reply == Accepted)
    && (id in s.live <==> port.state != Closed)
    && SentTo(s.calls, id) == past.sent
    && Releases(s.calls, id) == (if MustRelease(past) then 1 else 0)
    && CountOf(s.disconnects, id) == if past.closing.ByHost? || past.closing == ByRefusal then 1 else 0
  }

  ghost predicate Inv(s: State) {
    && s.ports.Keys == s.pasts.Keys
    && s.live <= s.ports.Keys
    && (forall id <- s.ports :: Coherent(s, id))
    && (forall c <- s.calls :: c.id <= s.counter)
    && (forall id <- s.disconnects :: id <= s.counter)
  }

  lemma {:induction false} CallsAppend(a: seq<Call>, b: seq<Call>, id: Id)
    ensures SentTo(a + b, id) == SentTo(a, id) + SentTo(b, id)
    ensures Releases(a + b, id) == Releases(a, id) + Releases(b, id)
    decreases |b|
  {
    if b == [] {
      assert a + b == a;
    } else {
      assert (a + b)[..|a + b| - 1] == a + b[..|b| - 1];
      CallsAppend(a, b[..|b| - 1], id);
    }
  }

  lemma {:induction false} OtherCalls(calls: seq<Call>, id: Id)
    requires forall c <- calls :: c.id != id
    ensures SentTo(calls, id) == [] && Releases(calls, id) == 0
  {
    if calls != [] {
      OtherCalls(calls[..|calls| - 1], id);
    }
  }

  lemma {:induction false} PostsSend(id: Id, jsons: seq<string>)
    ensures SentTo(Posts(id, jsons), id) == jsons && Releases(Posts(id, jsons), id) == 0
  {
    if jsons != [] {
      var init := jsons[..|jsons| - 1];
      assert Posts(id, jsons)[..|jsons| - 1] == Posts(id, init);
      PostsSend(id, init);
    }
  }

  lemma {:induction false} AddCall(calls: seq<Call>, c: Call, id: Id)
    ensures SentTo(calls + [c], id) == SentTo(calls, id) + if c.Post? && c.id == id then [c.json] else []
    ensures Releases(calls + [c], id) == Releases(calls, id) + if c == Disconnect(id) then 1 else 0
  {
    assert (calls + [c])[..|calls|] == calls;
  }

  lemma {:induction false} CountNone(ids: seq<Id>, id: Id)
    requires id !in ids
    ensures CountOf(ids, id) == 0
  {
    if ids != [] {
      CountNone(ids[..|ids| - 1], id);
    }
  }

  lemma {:induction false} AddDisconnect(ids: seq<Id>, id: Id, other: Id)
    ensures CountOf(ids + [id], other) == CountOf(ids, other) + if other == id then 1 else 0
  {
    assert (ids + [id])[..|ids|] == ids;
  }

  function StepId(s: State, step: Step): Id {
    if step.ConnectNative? then s.counter + 1 else step.id
  }

  /** The calls a step makes. */
  function NewCalls(s: State, step: Step): seq<Call> {
    var s' := Apply(s, step);
    if |s.calls| <= |s'.calls| then s'.calls[|s.calls|..] else []
  }

  lemma {:induction false} StepsOnlyAppend(s: State, step: Step)
    ensures var s' := Apply(s, step);
            && s'.calls == s.calls + NewCalls(s, step)
            && (forall c <- NewCalls(s, step) :: c.id == StepId(s, step))
            && (s'.disconnects == s.disconnects || s'.disconnects == s.disconnects + [StepId(s, step)])
            && s.counter <= s'.counter
  {
  }

  lemma {:induction false} OthersUntouched(s: State, step: Step, other: Id)
    requires Known(s, other) && other != StepId(s, step)
    ensures var s' := Apply(s, step);
            && Known(s', other)
            && s'.ports[other] == s.ports[other] && s'.pasts[other] == s.pasts[other]
            && (other in s'.live <==> other in s.live)
  {
  }

  /** A step about one port leaves every other port coherent. */
  lemma {:induction false} OthersStayCoherent(s: State, step: Step, other: Id)
    requires Inv(s) && other in s.ports && other != StepId(s, step)
    ensures Known(Apply(s, step), other) && Coherent(Apply(s, step), other)
  {
    hide Apply, NewCalls, SentTo, Releases, CountOf;
    OthersUntouched(s, step, other);
    StepsOnlyAppend(s, step);
    CallsAppend(s.calls, NewCalls(s, step), other);
    OtherCalls(NewCalls(s, step), other);
    AddDisconnect(s.disconnects, StepId(s, step), other);
    assert Coherent(s, other);
  }

  lemma {:induction false} ConnectIsCoherent(s: State)
    requires Inv(s)
    ensures var s' := Apply(s, ConnectNative); Known(s', s'.counter) && Coherent(s', s'.counter)
  {
    hide SentTo, Releases, CountOf;
    var id := s.counter + 1;
    AddCall(s.calls, Connect(id), id);
    OtherCalls(s.calls, id);
    CountNone(s.disconnects, id);
  }

  lemma {:induction false} PostStaysCoherent(s: State, id: Id, json: Option<string>)
    requires Inv(s) && id in s.ports
    ensures Coherent(Apply(s, EndPost(id, json)), id)
  {
    hide SentTo, Releases, CountOf;
    assert Coherent(s, id);
    if json.Some? {
      AddCall(s.calls, Post(id, json.value), id);
      var past, port := s.pasts[id], s.ports[id];
      assert past.lost + past.sent + (port.queued + [json.value]) == past.accepted + [json.value];
      assert port.queued == [] ==> past.lost + (past.sent + [json.value]) + [] == past.accepted + [json.value];
    }
  }

  lemma {:induction false} DisconnectStaysCoherent(s: State, id: Id)
    requires Inv(s) && id in s.ports
    ensures Coherent(Apply(s, PortDisconnect(id)), id)
  {
    hide SentTo, Releases, CountOf;
    assert Coherent(s, id);
    AddCall(s.calls, Disconnect(id), id);
  }

  lemma {:induction false} HostDisconnectStaysCoherent(s: State, id: Id)
    requires Inv(s) && id in s.ports
    ensures Coherent(Apply(s, HostDisconnects(id)), id)
  {
    hide SentTo, Releases, CountOf;
    assert Coherent(s, id);
    AddDisconnect(s.disconnects, id, id);
  }

  lemma {:induction false} ReplyStaysCoherent(s: State, id: Id, ok: bool)
    requires Inv(s) && id in s.ports
    ensures Coherent(Apply(s, ConnectReply(id, ok)), id)
  {
    hide SentTo, Releases, CountOf, Posts;
    assert Coherent(s, id);
    AddDisconnect(s.disconnects, id, id);
    AddCall(s.calls, Disconnect(id), id);
    CallsAppend(s.calls, Posts(id, s.ports[id].queued), id);
    PostsSend(id, s.ports[id].queued);
  }

  lemma {:induction false} QuietStepStaysCoherent(s: State, step: Step)
    requires Inv(s) && (step.HostSends? || step.BeginPost?) && step.id in s.ports
    ensures Coherent(Apply(s, step), step.id)
  {
    assert Coherent(s, step.id);
  }

  lemma {:induction false} KeysStayTogether(s: State, step: Step)
    requires s.ports.Keys == s.pasts.Keys && s.live <= s.ports.Keys
    ensures var s' := Apply(s, step); s'.ports.Keys == s'.pasts.Keys && s'.live <= s'.ports.Keys
    ensures var id := StepId(s, step); !step.ConnectNative? && !Known(s, id) ==> Apply(s, step) == s
    ensures step.ConnectNative? ==> Apply(s, step).counter == StepId(s, step)
  {
  }

  lemma {:induction false} LogsStayBounded(s: State, step: Step)
    requires Inv(s)
    ensures var s' := Apply(s, step);
            && s'.ports.Keys == s'.pasts.Keys && s'.live <= s'.ports.Keys
            && (forall c <- s'.calls :: c.id <= s'.counter)
            && (forall id <- s'.disconnects :: id <= s'.counter)
  {
    hide Apply, SentTo, Releases, CountOf, NewCalls;
    KeysStayTogether(s, step);
    StepsOnlyAppend(s, step);
    if Known(s, StepId(s, step)) {
      assert Coherent(s, StepId(s, step));
    }
  }

  lemma {:induction false} StepKeepsInv(s: State, step: Step)
    requires Inv(s)
    ensures Inv(Apply(s, step))
  {
    hide Coherent, SentTo, Releases, CountOf;
    var s' := Apply(s, step);
    LogsStayBounded(s, step);
    var id := StepId(s, step);
    assert s'.ports.Keys == s'.pasts.Keys;
    forall other | other in s'.ports ensures Coherent(s', other) {
      if other != id {
        OthersStayCoherent(s, step, other);
      } else {
        match step
        case ConnectNative => ConnectIsCoherent(s);
        case EndPost(_, json) => PostStaysCoherent(s, id, json);
        case PortDisconnect(_) => DisconnectStaysCoherent(s, id);
        case ConnectReply(_, ok) => ReplyStaysCoherent(s, id, ok);
        case HostDisconnects(_) => HostDisconnectStaysCoherent(s, id);
        case _ => QuietStepStaysCoherent(s, step);
      }
    }
  }

  lemma {:induction false} RunKeepsInv(steps: seq<Step>)
    ensures Inv(Run(steps))
  {
    if steps != [] {
      RunKeepsInv(steps[..|steps| - 1]);
      StepKeepsInv(Run(steps[..|steps| - 1]), steps[|steps| - 1]);
    }
  }

  // ---------- every run ----------

  /** The message a step posts to port `id`, if it does not throw. */
  function Posted(s: State, step: Step, id: Id): seq<string> {
    if step.EndPost? && step.id == id && Known(s, id) && Innermost(s, id) && step.json.Some? then [step.json.value]
    else []
  }

  /** The messages the extension posted to a port without an error, in order. */
  function AcceptedPosts(steps: seq<Step>, id: Id): seq<string> {
    if steps == [] then []
    else
      AcceptedPosts(steps[..|steps| - 1], id) + Posted(Run(steps[..|steps| - 1]), steps[|steps| - 1], id)
  }

  lemma {:induction false} OwnPastStep(s: State, step: Step)
    requires s.ports.Keys == s.pasts.Keys
    ensures var s', id := Apply(s, step), StepId(s, step);
            && (id in s.pasts && !step.ConnectNative? ==>
                  id in s'.pasts && s'.pasts[id].accepted == s.pasts[id].accepted + Posted(s, step, id))
            && (id !in s.pasts && id in s'.pasts ==> s'.pasts[id].accepted == [])
  {
  }

  lemma {:induction false} PastStep(s: State, step: Step, id: Id)
    requires Inv(s)
    ensures var s' := Apply(s, step);
            && (id in s.pasts ==> id in s'.pasts && s'.pasts[id].accepted == s.pasts[id].accepted + Posted(s, step, id))
            && (id !in s.pasts && id in s'.pasts ==> s'.pasts[id].accepted == [])
  {
    hide Apply, SentTo, Releases, CountOf;
    if id in s.pasts {
      assert Coherent(s, id);
    }
    if id == StepId(s, step) {
      OwnPastStep(s, step);
    } else if id in s.pasts {
      OthersUntouched(s, step, id);
    } else {
      NoOtherPort(s, step, id);
    }
  }

  lemma {:induction false} NoOtherPort(s: State, step: Step, id: Id)
    requires id != StepId(s, step) && id !in s.pasts
    ensures id !in Apply(s, step).pasts
  {
  }

  lemma {:induction false} PastRemembersPosts(steps: seq<Step>, id: Id)
    ensures AcceptedPosts(steps, id) == if id in Run(steps).pasts then Run(steps).pasts[id].accepted else []
  {
    if steps != [] {
      hide Apply, Posted;
      PastRemembersPosts(steps[..|steps| - 1], id);
      RunKeepsInv(steps[..|steps| - 1]);
      PastStep(Run(steps[..|steps| - 1]), steps[|steps| - 1], id);
    }
  }

  /**
   Main result, on every port in every run: the accepted posts are, in order, those lost with the
   queue when the port closed, those main was sent and those queued. While the port is not closed
   none is lost; while it starts none is sent.
   */
  lemma {:induction false} PostsAreConserved(steps: seq<Step>, id: Id)
    requires id in Run(steps).ports
    ensures id in Run(steps).pasts
    ensures var s := Run(steps); var sent, port := SentTo(s.calls, id), s.ports[id];
            && AcceptedPosts(steps, id) == s.pasts[id].lost + sent + port.queued
            && (port.state != Closed ==> sent + port.queued == AcceptedPosts(steps, id))
            && (port.state == Starting ==> sent == [])
            && (port.state == Closed ==> port.queued == [])
  {
    hide SentTo, Releases, CountOf, Run;
    RunKeepsInv(steps);
    PastRemembersPosts(steps, id);
    var s := Run(steps);
    assert Coherent(s, id);
    assert [] + SentTo(s.calls, id) == SentTo(s.calls, id);
  }

  /** The port map holds exactly the ports not closed, and no port tells of its end twice. */
  lemma {:induction false} PortsEndOnce(steps: seq<Step>, id: Id)
    requires id in Run(steps).ports
    ensures id in Run(steps).pasts
    ensures var s := Run(steps); var past := s.pasts[id];
            && (id in s.live <==> s.ports[id].state != Closed)
            && (CountOf(s.disconnects, id) == 1 <==> past.closing.ByHost? || past.closing == ByRefusal)
            && CountOf(s.disconnects, id) <= 1
            && (past.closing == ByExtension ==> CountOf(s.disconnects, id) == 0)
            && Releases(s.calls, id) <= 1
            && (Releases(s.calls, id) == 1 <==>
                 past.reply == Accepted && (past.closing == ByExtension || past.closing == ByHost(true)))
  {
    hide SentTo, Releases, CountOf, Run;
    RunKeepsInv(steps);
    assert Coherent(Run(steps), id);
  }

  // ---------- posts on closed ports ----------

  /** A message is serialized although its own port closed meanwhile. */
  predicate LatePost(s: State, step: Step) {
    && step.EndPost? && step.json.Some? && Known(s, step.id) && Innermost(s, step.id)
    && s.ports[step.id].state == Closed
  }

  /** Such a message, before main accepted the connection. */
  predicate EarlyPost(s: State, step: Step) { LatePost(s, step) && s.pasts[step.id].reply != Accepted }

  predicate EarlyFor(s: State, step: Step, id: Id) { EarlyPost(s, step) && step.id == id }

  /** No serialization closes its own port. */
  predicate Orderly(steps: seq<Step>) {
    steps != [] ==> Orderly(steps[..|steps| - 1]) && !LatePost(Run(steps[..|steps| - 1]), steps[|steps| - 1])
  }

  /** No serialization closes its own port while it starts. */
  predicate Patient(steps: seq<Step>) {
    steps != [] ==> Patient(steps[..|steps| - 1]) && !EarlyPost(Run(steps[..|steps| - 1]), steps[|steps| - 1])
  }

  predicate IsClosed(s: State, id: Id) { id in s.ports && s.ports[id].state == Closed }

  lemma {:induction false} ClosedNewCalls(s: State, step: Step)
    requires Inv(s) && IsClosed(s, StepId(s, step))
    ensures IsClosed(Apply(s, step), StepId(s, step))
    ensures var id, added := StepId(s, step), NewCalls(s, step);
            if LatePost(s, step) then added == [Post(id, step.json.value)]
            else added == [] || added == [Disconnect(id)]
  {
    assert Coherent(s, StepId(s, step));
  }

  /** On a closed port exactly the late posts go out. */
  lemma {:induction false} ClosedStepSends(s: State, step: Step, id: Id)
    requires Inv(s) && IsClosed(s, id)
    ensures IsClosed(Apply(s, step), id)
    ensures SentTo(Apply(s, step).calls, id)
         == SentTo(s.calls, id) + if LatePost(s, step) && step.id == id then [step.json.value] else []
  {
    hide Apply, NewCalls, SentTo, Releases, CountOf;
    StepsOnlyAppend(s, step);
    CallsAppend(s.calls, NewCalls(s, step), id);
    AddCall([], Disconnect(id), id);
    assert [] + [Disconnect(id)] == [Disconnect(id)];
    OtherCalls([], id);
    if id == StepId(s, step) {
      ClosedNewCalls(s, step);
      if LatePost(s, step) {
        AddCall([], Post(id, step.json.value), id);
        assert [] + [Post(id, step.json.value)] == [Post(id, step.json.value)];
      }
    } else {
      assert Coherent(s, id);
      OthersUntouched(s, step, id);
      OtherCalls(NewCalls(s, step), id);
    }
  }

  /** After a port closed, main is sent nothing more for it. */
  ghost predicate SilentOnceClosed(steps: seq<Step>) {
    forall i: nat, j: nat, id {:trigger IsClosed(Run(steps[..i]), id), steps[..j]} ::
      i <= j <= |steps| && IsClosed(Run(steps[..i]), id) ==>
        SentTo(Run(steps[..j]).calls, id) == SentTo(Run(steps[..i]).calls, id)
  }

  lemma {:induction false} OneMoreStepSendsNothing(steps: seq<Step>, k: nat, id: Id)
    requires Orderly(steps) && k < |steps| && IsClosed(Run(steps[..k]), id)
    ensures IsClosed(Run(steps[..k + 1]), id)
    ensures SentTo(Run(steps[..k + 1]).calls, id) == SentTo(Run(steps[..k]).calls, id)
  {
    hide *;
    NeverLate(steps, k);
    RunSnoc(steps, k);
    RunKeepsInv(steps[..k]);
    ClosedStepSends(Run(steps[..k]), steps[k], id);
  }

  lemma {:induction false} NothingSentAfterClose(steps: seq<Step>, i: nat, j: nat, id: Id)
    requires Orderly(steps) && i <= j <= |steps| && IsClosed(Run(steps[..i]), id)
    ensures IsClosed(Run(steps[..j]), id)
    ensures SentTo(Run(steps[..j]).calls, id) == SentTo(Run(steps[..i]).calls, id)
    decreases j
  {
    hide *;
    if i < j {
      NothingSentAfterClose(steps, i, j - 1, id);
      OneMoreStepSendsNothing(steps, j - 1, id);
    }
  }

  lemma {:induction false} NeverLate(steps: seq<Step>, k: nat)
    requires Orderly(steps) && k < |steps|
    ensures !LatePost(Run(steps[..k]), steps[k])
  {
    var init := steps[..|steps| - 1];
    if k < |init| {
      NeverLate(init, k);
      assert init[..k] == steps[..k];
    }
  }

  lemma {:induction false} FirstLatePost(steps: seq<Step>) returns (k: nat)
    requires !Orderly(steps)
    ensures k < |steps| && LatePost(Run(steps[..k]), steps[k])
  {
    var init := steps[..|steps| - 1];
    if Orderly(init) {
      k := |init|;
    } else {
      k := FirstLatePost(init);
      assert init[..k] == steps[..k];
    }
  }

  /** Main result: closed ports send nothing exactly when no serialization closes its own port. */
  lemma {:induction false} SilentExactlyWhenOrderly(steps: seq<Step>)
    ensures SilentOnceClosed(steps) <==> Orderly(steps)
  {
    hide Run, SentTo, Orderly;
    if Orderly(steps) {
      forall i: nat, j: nat, id | i <= j <= |steps| && IsClosed(Run(steps[..i]), id)
        ensures SentTo(Run(steps[..j]).calls, id) == SentTo(Run(steps[..i]).calls, id)
      {
        NothingSentAfterClose(steps, i, j, id);
      }
    } else {
      var k := FirstLatePost(steps);
      var s, id := Run(steps[..k]), steps[k].id;
      RunKeepsInv(steps[..k]);
      ClosedStepSends(s, steps[k], id);
      RunSnoc(steps, k);
      assert IsClosed(Run(steps[..k]), id) && |steps[..k + 1]| == k + 1;
    }
  }

  lemma {:induction false} RunSnoc(steps: seq<Step>, k: nat)
    requires k < |steps|
    ensures Run(steps[..k + 1]) == Apply(Run(steps[..k]), steps[k])
  {
    assert steps[..k + 1][..k] == steps[..k];
  }

  /** Main was sent nothing for a port whose connection it has not accepted. */
  predicate Waits(s: State, id: Id) {
    Known(s, id) && s.pasts[id].reply != Accepted ==> SentTo(s.calls, id) == []
  }

  /** What the steps that do not come too late do to a port that main has not accepted. */
  lemma {:induction false} ReplyStep(s: State, step: Step)
    requires s.ports.Keys == s.pasts.Keys
    ensures var s', id := Apply(s, step), StepId(s, step);
            && (Known(s, id) && !step.ConnectNative? && s.pasts[id].reply == Accepted ==>
                  Known(s', id) && s'.pasts[id].reply == Accepted)
            && (Known(s, id) && !IsClosed(s, id) && IsClosed(s', id) ==>
                  NewCalls(s, step) == [] || NewCalls(s, step) == [Disconnect(id)])
            && (LatePost(s, step) ==> Known(s', id) && s'.pasts[id].reply == s.pasts[id].reply)
  {
  }

  lemma {:induction false} ClosingStepSends(s: State, step: Step, id: Id)
    requires Inv(s) && Known(s, id) && !IsClosed(s, id) && IsClosed(Apply(s, step), id)
    ensures SentTo(Apply(s, step).calls, id) == SentTo(s.calls, id)
  {
    hide Apply, NewCalls, SentTo, Releases, CountOf, LatePost, Coherent;
    StepsOnlyAppend(s, step);
    CallsAppend(s.calls, NewCalls(s, step), id);
    OtherCalls([], id);
    AddCall([], Disconnect(id), id);
    assert [] + [Disconnect(id)] == [Disconnect(id)];
    if id == StepId(s, step) {
      ReplyStep(s, step);
    } else {
      OthersUntouched(s, step, id);
    }
  }

  lemma {:induction false} StepWaits(s: State, step: Step, id: Id)
    requires Inv(s) && Waits(s, id)
    ensures Waits(Apply(s, step), id) <==> !EarlyFor(s, step, id)
  {
    hide SentTo, Releases, CountOf, Apply, NewCalls;
    var s' := Apply(s, step);
    StepKeepsInv(s, step);
    if EarlyFor(s, step, id) {
      ReplyStep(s, step);
      ClosedStepSends(s, step, id);
    } else if Known(s', id) && s'.pasts[id].reply != Accepted {
      assert Coherent(s', id);
      if Known(s, id) {
        assert Coherent(s, id);
        StepStaysUnaccepted(s, step, id);
        if IsClosed(s, id) {
          ClosedStepSends(s, step, id);
        } else if IsClosed(s', id) {
          ClosingStepSends(s, step, id);
        }
      } else {
        NewPortStarts(s, step, id);
      }
    }
  }

  lemma {:induction false} StepStaysUnaccepted(s: State, step: Step, id: Id)
    requires Inv(s) && Known(s, id) && Known(Apply(s, step), id) && Apply(s, step).pasts[id].reply != Accepted
    ensures s.pasts[id].reply != Accepted
  {
    hide Apply, SentTo, Releases, CountOf, NewCalls;
    assert Coherent(s, id);
    if id == StepId(s, step) {
      ReplyStep(s, step);
    } else {
      OthersUntouched(s, step, id);
    }
  }

  lemma {:induction false} NewPortStarts(s: State, step: Step, id: Id)
    requires s.ports.Keys == s.pasts.Keys && !Known(s, id) && Known(Apply(s, step), id)
    ensures Apply(s, step).ports[id].state == Starting
  {
  }

  ghost predicate AlwaysWaits(steps: seq<Step>) {
    forall i, id {:trigger Waits(Run(steps[..i]), id)} :: 0 <= i <= |steps| ==> Waits(Run(steps[..i]), id)
  }

  /** Main result: nothing goes out before main accepts exactly when no serialization closes a starting port. */
  lemma {:induction false} WaitsExactlyWhenPatient(steps: seq<Step>)
    ensures AlwaysWaits(steps) <==> Patient(steps)
  {
    hide Apply, Waits, EarlyFor, EarlyPost;
    if steps == [] {
      NothingCalled();
    } else {
      var init, last := steps[..|steps| - 1], steps[|steps| - 1];
      WaitsExactlyWhenPatient(init);
      RunKeepsInv(init);
      assert forall i :: 0 <= i <= |init| ==> steps[..i] == init[..i];
      assert steps[..|steps|] == steps && init[..|init|] == init;
      if Patient(init) {
        forall id ensures Waits(Run(steps), id) <==> !EarlyFor(Run(init), last, id) {
          assert Waits(Run(init[..|init|]), id);
          StepWaits(Run(init), last, id);
        }
        EarlyForSome(Run(init), last);
        if EarlyPost(Run(init), last) {
          assert !Waits(Run(steps[..|steps|]), last.id);
        }
      }
    }
  }

  lemma {:induction false} EarlyForSome(s: State, step: Step)
    ensures EarlyPost(s, step) ==> step.EndPost? && EarlyFor(s, step, step.id)
    ensures !EarlyPost(s, step) ==> forall id :: !EarlyFor(s, step, id)
  {
  }

  lemma {:induction false} NothingCalled()
    ensures forall id :: Waits(INITIAL, id)
  {
  }

  // ---------- a serialization that closes its own port ----------

  /** A message that disconnects its own port as it is serialized, right after the connect and after the reply. */
  const EARLY: seq<Step> := [ConnectNative, BeginPost(1), PortDisconnect(1), EndPost(1, Some("1"))]
  const LATE: seq<Step> :=
    [ConnectNative, ConnectReply(1, true), BeginPost(1), PortDisconnect(1), EndPost(1, Some("1"))]

  lemma {:induction false} EarlyPostGoesOut()
    ensures var s := Run(EARLY);
            s.calls == [Connect(1), Post(1, "1")] && IsClosed(s, 1) && Known(s, 1) && s.pasts[1].reply == Awaited
  {
    hide Run;
    assert EARLY[..4] == EARLY && EARLY[..0] == [] && Run([]) == INITIAL by { NothingRun(); }
    RunSnoc(EARLY, 0);
    RunSnoc(EARLY, 1);
    assert Run(EARLY[..2]).ports == map[1 := Port(Starting, [])];
    RunSnoc(EARLY, 2);
    RunSnoc(EARLY, 3);
  }

  lemma {:induction false} LatePostGoesOut()
    ensures IsClosed(Run(LATE[..4]), 1)
    ensures Run(LATE[..4]).calls == [Connect(1), Disconnect(1)]
    ensures Run(LATE).calls == [Connect(1), Disconnect(1), Post(1, "1")]
  {
    hide Run;
    assert LATE[..5] == LATE && LATE[..0] == [] && Run([]) == INITIAL by { NothingRun(); }
    RunSnoc(LATE, 0);
    RunSnoc(LATE, 1);
    assert Run(LATE[..2]).ports == map[1 := Port(Open, [])];
    RunSnoc(LATE, 2);
    RunSnoc(LATE, 3);
    RunSnoc(LATE, 4);
  }

  lemma {:induction false} NothingRun()
    ensures Run([]) == INITIAL
  {
  }
}
