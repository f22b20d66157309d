/**
 The fan-out of storage.sync changes over an extension's pages, its one worker and its content
 scripts. Main notifies every registered context except the caller of a write; the writer fires its
 own listeners from the reply; the worker makes the writes of content scripts and forwards every
 change it sees to all of them, naming the script that wrote it so that this one ignores the echo.

 A change is named by the number of its commit. A context hears a change when its listeners run.
 Messages travel in any order, except that the listen messages of one context reach main in the
 order they were sent; a write may overtake them.
 */
module SyncFanout {
  import opened Prelude

  datatype Context = Page(n: nat) | Worker | Script(n: nat)

  datatype Message =
    | MainEvent(to: Context, id: nat)
    | Reply(to: Context, id: nat)
    | RelayedReply(id: nat, script: Context)
    | Forward(to: Context, id: nat, from: Option<Context>)
    | Answer(to: Context, id: nat)

  /**
   `hearing` are the contexts with a listener, `scripts` the content scripts in some open tab,
   `registered` the contexts main notifies and `listens` the listen messages on their way to it.
   */
  datatype State = State(
    hearing: set<Context>,
    scripts: set<Context>,
    registered: set<Context>,
    listens: Listens,
    writers: seq<Context>,
    net: multiset<Message>,
    delivered: multiset<(Context, nat)>)

  datatype Step =
    | Write(writer: Context)
    | Receive(m: Message)
    | AddListener(x: Context)
    | RemoveListener(x: Context)
    | MainListens(x: Context)
    | OpenScript(x: Context)
    | CloseScript(x: Context)

  type Listens = map<Context, seq<bool>>

  function Waiting(listens: Listens, x: Context): seq<bool> { if x in listens then listens[x] else [] }

  /** Only a page's registration follows its listeners: the worker's stays on, and scripts have none. */
  function Listen(s: State, x: Context, active: bool): State {
    if x.Page? then s.(listens := s.listens[x := Waiting(s.listens, x) + [active]]) else s
  }

  /** The context main sees as the caller of a write. */
  function Caller(writer: Context): Context { if writer.Page? then writer else Worker }

  function Events(to: set<Context>, id: nat): multiset<Message> {
    multiset(set x | x in to :: MainEvent(x, id))
  }

  function Forwards(to: set<Context>, id: nat, from: Option<Context>): multiset<Message> {
    multiset(set x | x in to :: Forward(x, id, from))
  }

  function WriteReply(writer: Context, id: nat): Message {
    if writer.Script? then RelayedReply(id, writer) else Reply(writer, id)
  }

  /** Runs the listeners of `x`, if it has any. */
  function Heard(s: State, x: Context, id: nat): State {
    if x in s.hearing then s.(delivered := s.delivered + multiset{(x, id)}) else s
  }

  /** The worker runs its own listeners and forwards the change with the name of its writer. */
  function WorkerDelivers(s: State, id: nat, from: Option<Context>): State {
    var heard := Heard(s, Worker, id);
    heard.(net := heard.net + Forwards(s.scripts, id, from))
  }

  function Handle(s: State, m: Message): State {
    match m
    case MainEvent(to, id) => if to == Worker then WorkerDelivers(s, id, None) else Heard(s, to, id)
    case Reply(to, id) => if to == Worker then WorkerDelivers(s, id, None) else Heard(s, to, id)
    case RelayedReply(id, from) =>
      var after := WorkerDelivers(s, id, Some(from));
      after.(net := after.net + multiset{Answer(from, id)})
    case Forward(to, id, from) => if from == Some(to) || to !in s.scripts then s else Heard(s, to, id)
    case Answer(to, id) => if to in s.scripts then Heard(s, to, id) else s
  }

  function Apply(s: State, step: Step): State {
    match step
    case Write(writer) =>
      var id := |s.writers|;
      s.(writers := s.writers + [writer],
         net := s.net + Events(s.registered - {Caller(writer)}, id) + multiset{WriteReply(writer, id)})
    case Receive(m) => if m in s.net then Handle(s.(net := s.net - multiset{m}), m) else s
    case AddListener(x) => if x in s.hearing then s else Listen(s.(hearing := s.hearing + {x}), x, true)
    case RemoveListener(x) => if x in s.hearing then Listen(s.(hearing := s.hearing - {x}), x, false) else s
    case MainListens(x) =>
      var waiting := Waiting(s.listens, x);
      if waiting == [] then s
      else s.(registered := if waiting[0] then s.registered + {x} else s.registered - {x},
              listens := s.listens[x := waiting[1..]])
    case OpenScript(x) => s.(scripts := s.scripts + {x})
    case CloseScript(x) => s.(scripts := s.scripts - {x})
  }

  function Run(s: State, steps: seq<Step>): State {
    if steps == [] then s else Apply(Run(s, steps[..|steps| - 1]), steps[|steps| - 1])
  }

  /** A starting worker has sent its listen; main knows of nobody. */
  predicate Initial(s: State) {
    && s.writers == [] && s.net == multiset{} && s.delivered == multiset{} && (forall x <- s.scripts :: x.Script?)
    && s.hearing == {} && s.registered == {} && s.listens == map[Worker := [true]]
  }

  /** Only content scripts open in tabs. */
  predicate Sensible(step: Step) { step.OpenScript? ==> step.x.Script? }

  /** Context `x` keeps its listener, and its tab if it is a content script, through the step. */
  predicate Stays(x: Context, step: Step) {
    step != RemoveListener(x) && step != CloseScript(x)
  }

  // ---------- the accounting invariant ----------

  function From(writer: Context): Option<Context> { if writer.Script? then Some(writer) else None }

  /** Messages that will make the worker deliver change `id`. */
  function AtWorker(net: multiset<Message>, id: nat, writer: Context): nat {
    net[MainEvent(Worker, id)] + net[Reply(Worker, id)] + net[RelayedReply(id, writer)]
  }

  /** Deliveries of change `id` to `x` still under way. */
  function Pending(s: State, x: Context, id: nat): nat
    requires id < |s.writers|
  {
    var writer := s.writers[id];
    match x
    case Page(_) => s.net[MainEvent(x, id)] + s.net[Reply(x, id)]
    case Worker => AtWorker(s.net, id, writer)
    case Script(_) =>
      AtWorker(s.net, id, writer) + if writer == x then s.net[Answer(x, id)] else s.net[Forward(x, id, From(writer))]
  }

  /** Every message under way is about a committed change and names its writer truly. */
  ghost predicate TrueMessage(s: State, m: Message) {
    && m.id < |s.writers|
    && var writer := s.writers[m.id];
       match m
       case MainEvent(to, _) => !to.Script? && to != Caller(writer)
       case Reply(to, _) => to == writer && !to.Script?
       case RelayedReply(_, from) => from == writer && from.Script?
       case Forward(to, _, from) => from == From(writer) && to.Script?
       case Answer(to, _) => to == writer && to.Script?
  }

  ghost predicate Inv(s: State) {
    && (forall m :: m in s.net ==> TrueMessage(s, m))
    && (forall x <- s.scripts :: x.Script?)
    && (forall x, id :: (x, id) in s.delivered ==> id < |s.writers|)
    && Tracked(s.hearing, s.registered, s.listens)
  }

  /** What main believes of a context once it has seen the listen messages on their way. */
  function Believed(registered: bool, waiting: seq<bool>): bool {
    if waiting == [] then registered else waiting[|waiting| - 1]
  }

  predicate Wants(hearing: set<Context>, x: Context) { if x.Page? then x in hearing else x.Worker? }

  predicate WillKnow(hearing: set<Context>, registered: set<Context>, listens: Listens, x: Context) {
    Believed(x in registered, Waiting(listens, x)) == Wants(hearing, x)
  }

  /** Main will come to know the truth: pages with a listener, the worker always, scripts never. */
  ghost predicate Tracked(hearing: set<Context>, registered: set<Context>, listens: Listens) {
    && (forall x <- registered :: !x.Script?)
    && (forall x <- listens :: !x.Script?)
    && (forall x :: WillKnow(hearing, registered, listens, x))
  }

  function Account(s: State, x: Context, id: nat): nat
    requires id < |s.writers|
  {
    s.delivered[(x, id)] + Pending(s, x, id)
  }

  lemma {:induction false} WriteKeepsInv(s: State, writer: Context)
    requires Inv(s)
    ensures Inv(Apply(s, Write(writer)))
  {
    var s' := Apply(s, Write(writer));
    forall m | m in s'.net ensures TrueMessage(s', m) {
      assert m in s.net ==> TrueMessage(s, m);
    }
  }

  lemma {:induction false} HeardKeepsInv(s: State, x: Context, id: nat)
    requires Inv(s) && id < |s.writers|
    ensures Inv(Heard(s, x, id))
  {
    var s' := Heard(s, x, id);
    forall m | m in s'.net ensures TrueMessage(s', m) {
      assert TrueMessage(s, m);
    }
  }

  lemma {:induction false} SendKeepsInv(s: State, sent: multiset<Message>)
    requires Inv(s) && forall m :: m in sent ==> TrueMessage(s, m)
    ensures Inv(s.(net := s.net + sent))
  {
    var s' := s.(net := s.net + sent);
    forall m | m in s'.net ensures TrueMessage(s', m) {
      assert TrueMessage(s, m);
    }
  }

  lemma {:induction false} WorkerKeepsInv(s: State, id: nat)
    requires Inv(s) && id < |s.writers|
    ensures Inv(WorkerDelivers(s, id, From(s.writers[id])))
  {
    HeardKeepsInv(s, Worker, id);
    SendKeepsInv(Heard(s, Worker, id), Forwards(s.scripts, id, From(s.writers[id])));
  }

  lemma {:induction false} HandleKeepsInv(s: State, m: Message)
    requires Inv(s) && TrueMessage(s, m)
    ensures Inv(Handle(s, m))
  {
    hide Tracked;
    WorkerKeepsInv(s, m.id);
    if m.RelayedReply? {
      SendKeepsInv(WorkerDelivers(s, m.id, Some(m.script)), multiset{Answer(m.script, m.id)});
    } else {
      HeardKeepsInv(s, m.to, m.id);
    }
  }

  lemma {:induction false} TakeKeepsInv(s: State, m: Message)
    requires Inv(s) && m in s.net
    ensures TrueMessage(s, m) && Inv(s.(net := s.net - multiset{m}))
  {
    var taken := s.(net := s.net - multiset{m});
    forall n | n in taken.net ensures TrueMessage(taken, n) {
      assert TrueMessage(s, n);
    }
  }

  lemma {:induction false} StepKeepsTracked(s: State, step: Step)
    requires Tracked(s.hearing, s.registered, s.listens)
    requires step.AddListener? || step.RemoveListener? || step.MainListens?
    ensures var s' := Apply(s, step); Tracked(s'.hearing, s'.registered, s'.listens)
  {
    var s' := Apply(s, step);
    forall x ensures WillKnow(s'.hearing, s'.registered, s'.listens, x) {
      assert WillKnow(s.hearing, s.registered, s.listens, x);
    }
  }

  lemma {:induction false} StepKeepsInv(s: State, step: Step)
    requires Inv(s) && Sensible(step)
    ensures Inv(Apply(s, step))
  {
    hide Tracked;
    if step.Write? {
      WriteKeepsInv(s, step.writer);
    } else if step.Receive? && step.m in s.net {
      TakeKeepsInv(s, step.m);
      HandleKeepsInv(s.(net := s.net - multiset{step.m}), step.m);
    } else {
      var s' := Apply(s, step);
      if step.AddListener? || step.RemoveListener? || step.MainListens? {
        StepKeepsTracked(s, step);
      }
      forall m | m in s'.net ensures TrueMessage(s', m) {
        assert TrueMessage(s, m);
      }
    }
  }

  /** A change by `writer` comes to `x`: by its own reply, or from main, or through the worker. */
  predicate Reaches(registered: set<Context>, writer: Context, x: Context) {
    if x.Page? then x == writer || x in registered else !writer.Page? || Worker in registered
  }

  /** A new change is under way once to every context it reaches, and to no other. */
  lemma {:induction false} WriteAccounts(s: State, writer: Context, x: Context)
    requires Inv(s)
    ensures Account(Apply(s, Write(writer)), x, |s.writers|) == if Reaches(s.registered, writer, x) then 1 else 0
  {
    hide Tracked;
    var id := |s.writers|;
    assert s.delivered[(x, id)] == 0;
    forall m: Message | m.id == id ensures s.net[m] == 0 {
      assert m in s.net ==> TrueMessage(s, m);
    }
  }

  lemma {:induction false} OldChangesUntouched(s: State, writer: Context, x: Context, id: nat)
    requires Inv(s) && id < |s.writers|
    ensures Account(Apply(s, Write(writer)), x, id) == Account(s, x, id)
  {
  }

  /** What the worker's delivery puts on its way, seen from one context. */
  lemma {:induction false} WorkerAccounts(s: State, x: Context, id: nat)
    requires Inv(s) && id < |s.writers|
    ensures var s' := WorkerDelivers(s, id, From(s.writers[id]));
            && s'.writers == s.writers
            && (x.Page? ==> Account(s', x, id) == Account(s, x, id))
            && (x.Worker? ==> Account(s', x, id) == Account(s, x, id) + if x in s.hearing then 1 else 0)
            && (x.Script? ==>
                  Account(s', x, id) == Account(s, x, id) + if x in s.scripts && s.writers[id] != x then 1 else 0)
  {
    hide Tracked, TrueMessage;
    var from := From(s.writers[id]);
    assert Forwards(s.scripts, id, from)[Forward(x, id, from)] == if x in s.scripts then 1 else 0;
  }

  lemma {:induction false} WorkerLeavesOthers(s: State, x: Context, id: nat, other: nat, from: Option<Context>)
    requires id < |s.writers| && other != id
    ensures WorkerDelivers(s, other, from).writers == s.writers
    ensures Account(WorkerDelivers(s, other, from), x, id) == Account(s, x, id)
  {
  }

  /** Taking a message off the network takes away exactly the delivery it stood for. */
  lemma {:induction false} TakeAccounts(s: State, m: Message, x: Context, id: nat)
    requires Inv(s) && m in s.net && id < |s.writers|
    ensures var taken := s.(net := s.net - multiset{m});
            && Account(taken, x, id) == Account(s, x, id) - if StandsFor(s, m, x, id) then 1 else 0
  {
    assert TrueMessage(s, m);
  }

  /** Message `m` will lead to a delivery of change `id` to `x`. */
  predicate StandsFor(s: State, m: Message, x: Context, id: nat)
    requires id < |s.writers|
  {
    && m.id == id
    && match m
       case MainEvent(to, _) => to == x || (to == Worker && x.Script?)
       case Reply(to, _) => to == x || (to == Worker && x.Script?)
       case RelayedReply(_, script) => script == s.writers[id] && !x.Page?
       case Forward(to, _, from) => to == x && x.Script? && s.writers[id] != x && from == From(s.writers[id])
       case Answer(to, _) => to == x && x.Script? && s.writers[id] == x
  }

  /** The account of `x` grows by the delivery `m` stood for, unless `x` is gone. */
  predicate Moves(s: State, s': State, m: Message, x: Context, id: nat)
    requires id < |s.writers|
  {
    var gain := if StandsFor(s, m, x, id) then 1 else 0;
    && s'.writers == s.writers
    && Account(s', x, id) <= Account(s, x, id) + gain
    && (x in s.hearing && (x.Script? ==> x in s.scripts) ==> Account(s', x, id) == Account(s, x, id) + gain)
  }

  lemma {:induction false} WorkerMoves(s: State, m: Message, x: Context, id: nat)
    requires Inv(s) && TrueMessage(s, m) && id < |s.writers|
    requires m == MainEvent(Worker, m.id) || m == Reply(Worker, m.id)
    ensures Moves(s, Handle(s, m), m, x, id)
  {
    hide WorkerDelivers, Account;
    if m.id == id {
      WorkerAccounts(s, x, id);
    } else {
      WorkerLeavesOthers(s, x, id, m.id, None);
    }
  }

  lemma {:induction false} AnswerAccounts(s: State, script: Context, m: nat, x: Context, id: nat)
    requires m < |s.writers| && script == s.writers[m] && script.Script? && id < |s.writers|
    ensures Account(s.(net := s.net + multiset{Answer(script, m)}), x, id)
         == Account(s, x, id) + if id == m && x == script then 1 else 0
  {
  }

  lemma {:induction false} RelayedMoves(s: State, m: Message, x: Context, id: nat)
    requires Inv(s) && TrueMessage(s, m) && id < |s.writers| && m.RelayedReply?
    ensures Moves(s, Handle(s, m), m, x, id)
  {
    hide WorkerDelivers, Account;
    if m.id == id {
      WorkerAccounts(s, x, id);
    } else {
      WorkerLeavesOthers(s, x, id, m.id, Some(m.script));
    }
    AnswerAccounts(WorkerDelivers(s, m.id, Some(m.script)), m.script, m.id, x, id);
  }

  lemma {:induction false} ContextMoves(s: State, m: Message, x: Context, id: nat)
    requires Inv(s) && TrueMessage(s, m) && id < |s.writers| && !m.RelayedReply? && m.to != Worker
    ensures Moves(s, Handle(s, m), m, x, id)
  {
    hide Inv, Heard, Account;
    HeardAccounts(s, m.to, m.id, x, id);
  }

  lemma {:induction false} HeardAccounts(s: State, y: Context, other: nat, x: Context, id: nat)
    requires id < |s.writers|
    ensures Heard(s, y, other).writers == s.writers
    ensures Account(Heard(s, y, other), x, id)
         == Account(s, x, id) + if x == y && id == other && x in s.hearing then 1 else 0
  {
  }

  lemma {:induction false} SameWriters(s: State, t: State, m: Message, x: Context, id: nat)
    requires s.writers == t.writers && id < |s.writers|
    ensures StandsFor(s, m, x, id) == StandsFor(t, m, x, id)
  {
  }

  /** A message handled moves its delivery from the network to the listeners, or loses it to a context gone. */
  lemma {:induction false} ReceiveAccounts(s: State, m: Message, x: Context, id: nat)
    requires Inv(s) && m in s.net && id < |s.writers|
    ensures var s' := Apply(s, Receive(m));
            && s'.writers == s.writers
            && Account(s', x, id) <= Account(s, x, id)
            && (x in s.hearing && (x.Script? ==> x in s.scripts) ==> Account(s', x, id) == Account(s, x, id))
  {
    hide Handle, Account, StandsFor;
    TakeKeepsInv(s, m);
    TakeAccounts(s, m, x, id);
    var taken := s.(net := s.net - multiset{m});
    assert StandsFor(taken, m, x, id) == StandsFor(s, m, x, id) by { SameWriters(s, taken, m, x, id); }
    if m.RelayedReply? {
      RelayedMoves(taken, m, x, id);
    } else if m.to == Worker {
      WorkerMoves(taken, m, x, id);
    } else {
      ContextMoves(taken, m, x, id);
    }
  }

  // ---------- whole runs ----------

  /** Context `x` has a listener, and an open tab if it is a content script. */
  predicate Listening(s: State, x: Context) { x in s.hearing && (x.Script? ==> x in s.scripts) }

  lemma {:induction false} RunKeepsInv(s: State, steps: seq<Step>)
    requires Inv(s) && forall step <- steps :: Sensible(step)
    ensures Inv(Run(s, steps))
  {
    if steps != [] {
      RunKeepsInv(s, steps[..|steps| - 1]);
      StepKeepsInv(Run(s, steps[..|steps| - 1]), steps[|steps| - 1]);
    }
  }

  lemma {:induction false} StepAccounts(s: State, step: Step, x: Context, id: nat)
    requires Inv(s) && id < |s.writers|
    ensures var s' := Apply(s, step);
            && s.writers <= s'.writers
            && Account(s', x, id) <= Account(s, x, id)
            && (Listening(s, x) ==> Account(s', x, id) == Account(s, x, id))
  {
    if step.Write? {
      OldChangesUntouched(s, step.writer, x, id);
    } else if step.Receive? && step.m in s.net {
      ReceiveAccounts(s, step.m, x, id);
    }
  }

  /** No listener set ever hears a change twice, in any run, however contexts come and go. */
  lemma {:induction false} NeverTwice(s: State, steps: seq<Step>, x: Context, id: nat)
    requires Initial(s) && (forall step <- steps :: Sensible(step)) && id < |Run(s, steps).writers|
    ensures Account(Run(s, steps), x, id) <= 1
    ensures Run(s, steps).delivered[(x, id)] <= 1
  {
    var before, step := Run(s, steps[..|steps| - 1]), steps[|steps| - 1];
    RunKeepsInv(s, steps[..|steps| - 1]);
    hide Apply, Pending;
    if id < |before.writers| {
      NeverTwice(s, steps[..|steps| - 1], x, id);
      StepAccounts(before, step, x, id);
    } else {
      OnlyWritesCommit(before, step);
      WriteAccounts(before, step.writer, x);
    }
  }

  lemma {:induction false} OnlyWritesCommit(s: State, step: Step)
    ensures |s.writers| <= |Apply(s, step).writers| <= |s.writers| + 1
    ensures |Apply(s, step).writers| == |s.writers| + 1 <==> step.Write?
  {
  }

  predicate SameContexts(s: State, t: State) {
    s.hearing == t.hearing && s.scripts == t.scripts && s.registered == t.registered && s.listens == t.listens
  }

  lemma {:induction false} DeliveriesKeepContexts(s: State, id: nat, from: Option<Context>)
    ensures SameContexts(s, WorkerDelivers(s, id, from)) && forall x :: SameContexts(s, Heard(s, x, id))
  {
  }

  lemma {:induction false} HandlingKeepsContexts(s: State, m: Message)
    ensures SameContexts(s, Handle(s, m))
  {
    hide WorkerDelivers, Heard;
    DeliveriesKeepContexts(s, m.id, if m.RelayedReply? then Some(m.script) else None);
  }

  lemma {:induction false} StepStaysListening(s: State, step: Step, x: Context)
    requires Listening(s, x) && Stays(x, step)
    ensures Listening(Apply(s, step), x)
  {
    hide Handle;
    if step.Receive? {
      HandlingKeepsContexts(s.(net := s.net - multiset{step.m}), step.m);
    }
  }

  /** After a write, a context that keeps listening has its account of that change unchanged. */
  lemma {:induction false} AccountStays(s: State, steps: seq<Step>, x: Context, id: nat)
    requires Inv(s) && Listening(s, x) && id < |s.writers|
    requires forall step <- steps :: Sensible(step) && Stays(x, step)
    ensures var s' := Run(s, steps);
            Inv(s') && Listening(s', x) && id < |s'.writers| && Account(s', x, id) == Account(s, x, id)
  {
    if steps != [] {
      hide Apply, Pending, Listening, Inv, Account;
      var init, step := steps[..|steps| - 1], steps[|steps| - 1];
      AccountStays(s, init, x, id);
      StepKeepsInv(Run(s, init), step);
      StepStaysListening(Run(s, init), step, x);
      StepAccounts(Run(s, init), step, x, id);
    }
  }

  lemma {:induction false} QuietAccount(s: State, x: Context, id: nat)
    requires s.net == multiset{} && id < |s.writers|
    ensures Account(s, x, id) == s.delivered[(x, id)]
  {
  }

  /**
   Main result for one change: a context with a listener that keeps it hears the change exactly once
   if it reaches that context when it is committed, and never otherwise. What was not heard yet is
   under way.
   */
  lemma {:induction false} HeardExactlyWhenReached(s: State, writer: Context, steps: seq<Step>, x: Context)
    requires Inv(s) && Listening(s, x) && forall step <- steps :: Sensible(step) && Stays(x, step)
    ensures var s', id := Run(Apply(s, Write(writer)), steps), |s.writers|;
            var times := if Reaches(s.registered, writer, x) then 1 else 0;
            && id < |s'.writers| && Account(s', x, id) == times
            && (s'.net == multiset{} ==> s'.delivered[(x, id)] == times)
  {
    hide Reaches, Account, Listening, Inv;
    var written := Apply(s, Write(writer));
    StepKeepsInv(s, Write(writer));
    StepStaysListening(s, Write(writer), x);
    WriteAccounts(s, writer, x);
    AccountStays(written, steps, x, |s.writers|);
    if Run(written, steps).net == multiset{} {
      QuietAccount(Run(written, steps), x, |s.writers|);
    }
  }

  /** A writer with a listener hears its own change exactly once, whatever main knows of it yet. */
  lemma {:induction false} OwnWriteIsHeardOnce(s: State, x: Context, steps: seq<Step>)
    requires Inv(s) && Listening(s, x) && forall step <- steps :: Sensible(step) && Stays(x, step)
    ensures var s', id := Run(Apply(s, Write(x)), steps), |s.writers|;
            && id < |s'.writers| && Account(s', x, id) == 1
            && (s'.net == multiset{} ==> s'.delivered[(x, id)] == 1)
  {
    HeardExactlyWhenReached(s, x, steps, x);
  }

  /** The context whose registration with main brings `x` the changes of others. */
  function Source(x: Context): Context { if x.Page? then x else Worker }

  /** Main has heard all that the source of `x` had to say, so it knows it. */
  predicate Live(s: State, x: Context) { Listening(s, x) && Waiting(s.listens, Source(x)) == [] }

  lemma {:induction false} LiveIsReached(s: State, writer: Context, x: Context)
    requires Inv(s) && Live(s, x)
    ensures Reaches(s.registered, writer, x)
  {
    assert WillKnow(s.hearing, s.registered, s.listens, Source(x));
  }

  lemma {:induction false} StepStaysLive(s: State, step: Step, x: Context)
    requires Live(s, x) && Stays(x, step)
    ensures Live(Apply(s, step), x)
  {
    hide Handle;
    if step.Receive? {
      HandlingKeepsContexts(s.(net := s.net - multiset{step.m}), step.m);
    }
  }

  lemma {:induction false} StaysLive(s: State, steps: seq<Step>, x: Context)
    requires Live(s, x) && forall step <- steps :: Stays(x, step)
    ensures Live(Run(s, steps), x)
  {
    if steps != [] {
      StaysLive(s, steps[..|steps| - 1], x);
      StepStaysLive(Run(s, steps[..|steps| - 1]), steps[|steps| - 1], x);
    }
  }

  lemma {:induction false} RunInParts(s: State, steps: seq<Step>, k: nat)
    requires k <= |steps|
    ensures Run(s, steps) == Run(Run(s, steps[..k]), steps[k..])
    decreases |steps|
  {
    if k < |steps| {
      var init := steps[..|steps| - 1];
      assert init[..k] == steps[..k] && steps[k..][..|steps| - 1 - k] == init[k..];
      RunInParts(s, init, k);
    } else {
      assert steps[..k] == steps && steps[k..] == [];
    }
  }

  /** The step of a run that committed change `id`. */
  lemma {:induction false} CommitOf(s: State, steps: seq<Step>, id: nat) returns (k: nat)
    requires |s.writers| <= id < |Run(s, steps).writers|
    ensures k < |steps| && steps[k].Write? && |Run(s, steps[..k]).writers| == id
  {
    hide Apply;
    var init := steps[..|steps| - 1];
    OnlyWritesCommit(Run(s, init), steps[|init|]);
    if id < |Run(s, init).writers| {
      k := CommitOf(s, init, id);
      assert init[..k] == steps[..k];
    } else {
      k := |init|;
    }
  }

  /**
   Main result for every run: a context that main knows and that keeps its listener hears every
   change committed from then on exactly once, whichever context wrote it.
   */
  lemma {:induction false} ListenersHearEachChangeOnce(s: State, steps: seq<Step>, x: Context, id: nat)
    requires Inv(s) && Live(s, x)
    requires forall step <- steps :: Sensible(step) && Stays(x, step)
    requires |s.writers| <= id < |Run(s, steps).writers|
    ensures Live(Run(s, steps), x)
    ensures Account(Run(s, steps), x, id) == 1
    ensures Run(s, steps).net == multiset{} ==> Run(s, steps).delivered[(x, id)] == 1
  {
    hide Run, Apply, Account, Inv, Reaches, Stays;
    StaysLive(s, steps, x);
    var k := CommitOf(s, steps, id);
    var before := Run(s, steps[..k]);
    RunKeepsInv(s, steps[..k]);
    StaysLive(s, steps[..k], x);
    LiveIsReached(before, steps[k].writer, x);
    HeardExactlyWhenReached(before, steps[k].writer, steps[k + 1..], x);
    RunInParts(s, steps, k + 1);
    RunSnoc(s, steps, k);
  }

  lemma {:induction false} RunSnoc(s: State, steps: seq<Step>, k: nat)
    requires k < |steps|
    ensures Run(s, steps[..k + 1]) == Apply(Run(s, steps[..k]), steps[k])
  {
    assert steps[..k + 1][..k] == steps[..k];
  }

  // ---------- everything sent arrives ----------

  /** How many messages handling `m` can lead to, itself included, with `n` content scripts open. */
  function Cost(m: Message, n: nat): nat {
    if m.RelayedReply? then 2 + n else if m.to == Worker && (m.MainEvent? || m.Reply?) then 1 + n else 1
  }

  ghost function Weight(net: multiset<Message>, n: nat): nat {
    if net == multiset{} then 0
    else
      var m :| m in net;
      Cost(m, n) + Weight(net - multiset{m}, n)
  }

  lemma {:induction false} WeightFirst(net: multiset<Message>, n: nat) returns (m: Message)
    requires net != multiset{}
    ensures m in net && Weight(net, n) == Cost(m, n) + Weight(net - multiset{m}, n)
  {
    m :| m in net && Weight(net, n) == Cost(m, n) + Weight(net - multiset{m}, n);
  }

  lemma {:induction false} WeightTakes(net: multiset<Message>, m: Message, n: nat)
    requires m in net
    ensures Weight(net, n) == Cost(m, n) + Weight(net - multiset{m}, n)
    decreases |net|
  {
    hide Cost, Weight;
    var first := WeightFirst(net, n);
    if first != m {
      WeightTakes(net - multiset{first}, m, n);
      WeightTakes(net - multiset{m}, first, n);
      assert net - multiset{first} - multiset{m} == net - multiset{m} - multiset{first};
    }
  }

  lemma {:induction false} WeightAdds(a: multiset<Message>, b: multiset<Message>, n: nat)
    ensures Weight(a + b, n) == Weight(a, n) + Weight(b, n)
    decreases |b|
  {
    hide Cost, Weight;
    if b == multiset{} {
      assert a + b == a;
      WeightOfNone(n);
    } else {
      var m :| m in b;
      WeightTakes(a + b, m, n);
      WeightTakes(b, m, n);
      assert a + b - multiset{m} == a + (b - multiset{m});
      WeightAdds(a, b - multiset{m}, n);
    }
  }

  lemma {:induction false} WeightOfNone(n: nat)
    ensures Weight(multiset{}, n) == 0
  {
  }

  lemma {:induction false} WeightOfOne(m: Message, n: nat)
    ensures Weight(multiset{m}, n) == Cost(m, n)
  {
    WeightTakes(multiset{m}, m, n);
    assert multiset{m} - multiset{m} == multiset{};
  }

  lemma {:induction false} ForwardsWeigh(to: set<Context>, id: nat, from: Option<Context>, n: nat)
    ensures Weight(Forwards(to, id, from), n) == |to|
  {
    hide Weight;
    if to == {} {
      assert Forwards(to, id, from) == multiset{};
      WeightOfNone(n);
    } else {
      var x :| x in to;
      ForwardsWeigh(to - {x}, id, from, n);
      assert Forwards(to, id, from) == Forwards(to - {x}, id, from) + multiset{Forward(x, id, from)};
      WeightAdds(Forwards(to - {x}, id, from), multiset{Forward(x, id, from)}, n);
      WeightOfOne(Forward(x, id, from), n);
    }
  }

  lemma {:induction false} HandlingWeighs(s: State, m: Message)
    ensures Weight(Handle(s, m).net, |s.scripts|) < Weight(s.net, |s.scripts|) + Cost(m, |s.scripts|)
    ensures Handle(s, m).scripts == s.scripts
  {
    hide Weight, Forwards;
    var n := |s.scripts|;
    var from := if m.RelayedReply? then Some(m.script) else None;
    ForwardsWeigh(s.scripts, m.id, from, n);
    WeightAdds(s.net, Forwards(s.scripts, m.id, from), n);
    if m.RelayedReply? {
      WeightAdds(s.net + Forwards(s.scripts, m.id, from), multiset{Answer(m.script, m.id)}, n);
      WeightOfOne(Answer(m.script, m.id), n);
    }
  }

  /** Receiving any message leaves less to receive. */
  lemma {:induction false} ReceivingLowersWeight(s: State, m: Message)
    requires m in s.net
    ensures Weight(Apply(s, Receive(m)).net, |s.scripts|) < Weight(s.net, |s.scripts|)
    ensures Apply(s, Receive(m)).scripts == s.scripts
  {
    hide Weight, Handle, Cost;
    var taken := s.(net := s.net - multiset{m});
    WeightTakes(s.net, m, |s.scripts|);
    HandlingWeighs(taken, m);
  }

  /** Once its source's listen messages have reached main, a context with a listener is live. */
  lemma {:induction false} ListensMakeLive(s: State, x: Context) returns (steps: seq<Step>)
    requires Listening(s, x)
    ensures (forall step <- steps :: step == MainListens(Source(x))) && Live(Run(s, steps), x)
    ensures |steps| == |Waiting(s.listens, Source(x))|
    decreases |Waiting(s.listens, Source(x))|
  {
    var step := MainListens(Source(x));
    if Waiting(s.listens, Source(x)) == [] {
      steps := [];
    } else {
      var rest := ListensMakeLive(Apply(s, step), x);
      steps := [step] + rest;
      RunInParts(s, steps, 1);
      assert steps[..1] == [step] && steps[1..] == rest;
      RunOne(s, step);
    }
  }

  /** Receiving whatever is under way, in any order, comes to an end with nothing under way. */
  lemma {:induction false} ReceivingDrains(s: State) returns (steps: seq<Step>)
    ensures (forall step <- steps :: step.Receive?) && Run(s, steps).net == multiset{}
    ensures |steps| <= Weight(s.net, |s.scripts|)
    decreases Weight(s.net, |s.scripts|)
  {
    if s.net == multiset{} {
      steps := [];
    } else {
      hide Weight, Apply;
      var m :| m in s.net;
      ReceivingLowersWeight(s, m);
      var rest := ReceivingDrains(Apply(s, Receive(m)));
      steps := [Receive(m)] + rest;
      RunInParts(s, steps, 1);
      assert steps[..1] == [Receive(m)] && steps[1..] == rest;
      RunOne(s, Receive(m));
    }
  }

  lemma {:induction false} RunOne(s: State, step: Step)
    ensures Run(s, [step]) == Apply(s, step)
  {
    assert [step][..0] == [];
  }
}
