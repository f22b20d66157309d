/**
 The clipboard owner that serves pastes on Wayland: a fixed table of transfers, refilled by requests
 that arrive in the middle of an iteration, each advanced by partial writes and bounded by a deadline
 that every progress extends. What poll, write and the clock answer is a parameter, and so is when
 requests arrive.
 */
module ClipboardOwner {
  type Byte = b: int | 0 <= b < 256 witness 0
  const MAX_TRANSFERS: nat := 8
  const TRANSFER_TIMEOUT_MS: nat := 2000
  const MAX_WRITE: nat := 65536
  const FREE: int := -1

  datatype Slot = Slot(fd: int, offset: nat, deadline: int)
  /** A paste request: its descriptor, whether it could be made non-blocking, and when it came. */
  datatype Request = Request(fd: nat, nonBlocking: bool, at: int)
  datatype Revents = Revents(writable: bool, broken: bool)
  datatype WriteAnswer = Takes(n: nat) | TryAgain | WriteError
  /** The outside answers while one slot is served: the clock, the write, and the clock after it. */
  datatype Answers = Answers(now: int, write: WriteAnswer, after: int)

  datatype Ending = Completed | TimedOutOrBroken | Failed | Refused
  /** What happened to a descriptor that was closed: how, and the bytes its reader got. */
  datatype Closed = Closed(fd: nat, ending: Ending, bytes: seq<Byte>)

  /** The table, the bytes each open descriptor has received, and the descriptors closed so far. */
  datatype State = State(slots: seq<Slot>, received: map<int, seq<Byte>>, closed: seq<Closed>)

  function Min(a: nat, b: nat): nat { if a < b then a else b }

  // ---------- requests ----------

  /** The first free slot, or the size of the table. */
  function FirstFree(slots: seq<Slot>): (i: nat)
    ensures i <= |slots| && (i < |slots| ==> slots[i].fd == FREE)
    ensures forall j :: 0 <= j < i ==> slots[j].fd != FREE
  {
    if slots == [] || slots[0].fd == FREE then 0
    else
      var j := FirstFree(slots[1..]);
      assert forall k :: 1 <= k < j + 1 ==> slots[k] == slots[1..][k - 1];
      j + 1
  }

  function SourceSend(s: State, r: Request): State {
    var i := FirstFree(s.slots);
    if i < |s.slots| && r.nonBlocking then
      s.(slots := s.slots[i := Slot(r.fd, 0, r.at + TRANSFER_TIMEOUT_MS)], received := s.received[r.fd as int := []])
    else s.(closed := s.closed + [Closed(r.fd, Refused, [])])
  }

  function Requests(s: State, rs: seq<Request>): State {
    if rs == [] then s else SourceSend(Requests(s, rs[..|rs| - 1]), rs[|rs| - 1])
  }

  // ---------- serving ----------

  function CloseSlot(s: State, i: nat, ending: Ending): State
    requires i < |s.slots|
  {
    var fd := s.slots[i].fd;
    if fd < 0 || fd !in s.received then s
    else
      State(s.slots[i := s.slots[i].(fd := FREE)], s.received - {fd}, s.closed + [Closed(fd, ending, s.received[fd])])
  }

  /** The kernel takes at most what is offered: the rest of the text, up to one write's size. */
  function Taken(text: seq<Byte>, slot: Slot, write: WriteAnswer): nat {
    if write.Takes? && slot.offset <= |text| then Min(write.n, Min(|text| - slot.offset, MAX_WRITE)) else 0
  }

  function Progress(text: seq<Byte>, s: State, i: nat, a: Answers): State
    requires i < |s.slots|
  {
    var slot := s.slots[i];
    var n := Taken(text, slot, a.write);
    if n == 0 || slot.offset + n > |text| || slot.fd !in s.received then s
    else
      s.(slots := s.slots[i := Slot(slot.fd, slot.offset + n, a.after + TRANSFER_TIMEOUT_MS)],
         received := s.received[slot.fd := s.received[slot.fd] + text[slot.offset..slot.offset + n]])
  }

  function ServeSlot(text: seq<Byte>, s: State, i: nat, rev: Revents, a: Answers): State
    requires i < |s.slots|
  {
    var slot := s.slots[i];
    if slot.fd == FREE then s
    else if a.now >= slot.deadline || rev.broken then CloseSlot(s, i, TimedOutOrBroken)
    else if !rev.writable then s
    else
      var t := Progress(text, s, i, a);
      if i < |t.slots| && t.slots[i].offset == |text| then CloseSlot(t, i, Completed)
      else if i < |t.slots| && a.write == WriteError then CloseSlot(t, i, Failed)
      else t
  }

  function ServeFirst(text: seq<Byte>, s: State, revents: seq<Revents>, answers: seq<Answers>, n: nat): (t: State)
    requires n <= |s.slots| && n <= |revents| && n <= |answers|
    ensures |t.slots| == |s.slots|
  {
    if n == 0 then s
    else ServeSlot(text, ServeFirst(text, s, revents, answers, n - 1), n - 1, revents[n - 1], answers[n - 1])
  }

  // ---------- the owner in place ----------

  class Owner {
    const text: seq<Byte>
    const slots: array<Slot>
    ghost var received: map<int, seq<Byte>>
    ghost var closed: seq<Closed>

    ghost function View(): State reads this, slots { State(slots[..], received, closed) }

    /** Each open slot's descriptor is open, and has room left up to the end of the text. */
    ghost predicate Valid() reads this, slots { slots.Length == MAX_TRANSFERS && Inv(text, View()) }

    constructor (text: seq<Byte>)
      ensures Valid() && this.text == text && fresh(slots) && View() == Initial()
    {
      this.text := text;
      slots := new Slot[MAX_TRANSFERS](_ => Slot(FREE, 0, 0));
      received, closed := map[], [];
      new;
      assert slots[..] == Initial().slots;
      InitialInv(text);
    }

    method OnSend(r: Request)
      requires Valid() && r.fd !in received
      modifies this, slots
      ensures Valid() && View() == SourceSend(old(View()), r)
    {
      SourceSendKeepsInv(text, View(), r);
      hide Inv;
      var i := 0;
      while i < MAX_TRANSFERS
        invariant 0 <= i <= MAX_TRANSFERS && slots[..] == old(slots[..]) && View() == old(View())
        invariant forall j :: 0 <= j < i ==> slots[j].fd != FREE
      {
        if slots[i].fd == FREE {
          assert FirstFree(slots[..]) == i;
          if !r.nonBlocking {
            break;
          }
          slots[i] := Slot(r.fd, 0, r.at + TRANSFER_TIMEOUT_MS);
          received := received[r.fd as int := []];
          return;
        }
        i := i + 1;
      }
      closed := closed + [Closed(r.fd, Refused, [])];
    }

    /** The descriptors polled for, and how long poll may sleep: -1 when there is nothing to wait for. */
    method Poll(now: int) returns (polled: seq<int>, timeout: int)
      requires Valid()
      ensures polled == Polled(View())
      ensures IsTimeout(slots[..], now, timeout)
    {
      hide IsTimeout, Inv;
      polled, timeout := [], -1;
      TimeoutOfNone(now);
      for i := 0 to MAX_TRANSFERS
        invariant |polled| == i && forall j :: 0 <= j < i ==> polled[j] == slots[j].fd
        invariant IsTimeout(slots[..i], now, timeout)
      {
        assert slots[..i + 1] == slots[..i] + [slots[i]];
        polled := polled + [slots[i].fd];
        if slots[i].fd != FREE {
          var remaining := slots[i].deadline - now;
          if remaining < 0 {
            remaining := 0;
          }
          TimeoutStep(slots[..i], slots[i], now, timeout);
          if timeout == -1 || remaining < timeout {
            timeout := remaining;
          }
        } else {
          TimeoutSkip(slots[..i], slots[i], now, timeout);
        }
      }
      assert slots[..MAX_TRANSFERS] == slots[..];
    }

    method CloseTransfer(i: nat, ghost ending: Ending)
      requires slots.Length == MAX_TRANSFERS && i < MAX_TRANSFERS && slots[i].fd >= 0 && slots[i].fd in received
      modifies this, slots
      ensures View() == CloseSlot(old(View()), i, ending)
    {
      closed := closed + [Closed(slots[i].fd, ending, received[slots[i].fd])];
      received := received - {slots[i].fd};
      slots[i] := slots[i].(fd := FREE);
    }

    method Serve(i: nat, rev: Revents, a: Answers)
      requires Valid() && i < MAX_TRANSFERS
      modifies this, slots
      ensures Valid() && View() == ServeSlot(text, old(View()), i, rev, a)
    {
      ServeSlotKeepsInv(text, View(), i, rev, a);
      var slot := slots[i];
      if slot.fd == FREE {
        return;
      }
      assert OpenSlot(text, View(), i);
      if a.now >= slot.deadline || rev.broken {
        CloseTransfer(i, TimedOutOrBroken);
        return;
      }
      if !rev.writable {
        return;
      }
      var remaining := |text| - slot.offset;
      var count := if a.write.Takes? then Min(a.write.n, Min(remaining, MAX_WRITE)) else 0;
      if count > 0 {
        received := received[slot.fd := received[slot.fd] + text[slot.offset..slot.offset + count]];
        slots[i] := Slot(slot.fd, slot.offset + count, a.after + TRANSFER_TIMEOUT_MS);
      }
      assert View() == Progress(text, old(View()), i, a);
      if slots[i].offset == |text| {
        CloseTransfer(i, Completed);
      } else if a.write == WriteError {
        CloseTransfer(i, Failed);
      }
    }

    method ServeAll(revents: seq<Revents>, answers: seq<Answers>)
      requires Valid() && |revents| == |answers| == MAX_TRANSFERS
      modifies this, slots
      ensures Valid() && View() == ServeFirst(text, old(View()), revents, answers, MAX_TRANSFERS)
    {
      for i := 0 to MAX_TRANSFERS
        invariant Valid() && View() == ServeFirst(text, old(View()), revents, answers, i)
      {
        Serve(i, revents[i], answers[i]);
      }
    }
  }

  function Initial(): State { State(seq(MAX_TRANSFERS, _ => Slot(FREE, 0, 0)), map[], []) }

  // ---------- the poll timeout ----------

  function Wait(slot: Slot, now: int): nat { if slot.deadline > now then slot.deadline - now else 0 }

  /** Poll sleeps until the earliest deadline of an open transfer, and without one for good. */
  ghost predicate IsTimeout(slots: seq<Slot>, now: int, timeout: int) {
    && (timeout == -1 <==> forall slot <- slots :: slot.fd == FREE)
    && (forall slot <- slots :: slot.fd != FREE ==> timeout <= Wait(slot, now))
    && (timeout != -1 ==> exists slot <- slots :: slot.fd != FREE && timeout == Wait(slot, now))
  }

  lemma {:induction false} TimeoutStep(slots: seq<Slot>, slot: Slot, now: int, timeout: int)
    requires IsTimeout(slots, now, timeout) && slot.fd != FREE
    ensures var sooner := timeout == -1 || Wait(slot, now) < timeout;
            IsTimeout(slots + [slot], now, if sooner then Wait(slot, now) else timeout)
  {
    assert (slots + [slot])[|slots|] == slot;
    assert forall x <- slots :: x in slots + [slot];
  }

  lemma {:induction false} TimeoutSkip(slots: seq<Slot>, slot: Slot, now: int, timeout: int)
    requires IsTimeout(slots, now, timeout) && slot.fd == FREE
    ensures IsTimeout(slots + [slot], now, timeout)
  {
    assert forall x <- slots :: x in slots + [slot];
  }

  lemma {:induction false} TimeoutOfNone(now: int)
    ensures IsTimeout([], now, -1)
  {
  }

  // ---------- the invariant ----------

  /** The descriptors poll is asked about, slot by slot. */
  function Polled(s: State): seq<int> { seq(|s.slots|, i requires 0 <= i < |s.slots| => s.slots[i].fd) }

  /** A slot that is in use: its reader got exactly the text up to the offset. */
  ghost predicate OpenSlot(text: seq<Byte>, s: State, i: nat)
    requires i < |s.slots|
  {
    var slot := s.slots[i];
    slot.fd >= 0 && slot.fd in s.received && slot.offset <= |text| && s.received[slot.fd] == text[..slot.offset]
  }

  ghost predicate TrueClosed(text: seq<Byte>, c: Closed) {
    && c.bytes <= text
    && (c.ending == Completed ==> c.bytes == text)
    && (c.ending == Refused ==> c.bytes == [])
  }

  ghost predicate Inv(text: seq<Byte>, s: State) {
    && |s.slots| == MAX_TRANSFERS
    && (forall i :: 0 <= i < |s.slots| && s.slots[i].fd != FREE ==> OpenSlot(text, s, i))
    && (forall i, j :: 0 <= i < j < |s.slots| && s.slots[i].fd != FREE ==> s.slots[i].fd != s.slots[j].fd)
    && (forall fd :: fd in s.received ==> exists i :: 0 <= i < |s.slots| && s.slots[i].fd == fd && fd >= 0)
    && (forall c <- s.closed :: TrueClosed(text, c))
  }

  lemma {:induction false} InitialInv(text: seq<Byte>)
    ensures Inv(text, Initial())
  {
  }

  lemma {:induction false} SourceSendKeepsInv(text: seq<Byte>, s: State, r: Request)
    requires Inv(text, s) && r.fd !in s.received
    ensures Inv(text, SourceSend(s, r))
  {
    hide FirstFree;
    var i, t := FirstFree(s.slots), SourceSend(s, r);
    if i < |s.slots| && r.nonBlocking {
      forall j | 0 <= j < |t.slots| && t.slots[j].fd != FREE ensures OpenSlot(text, t, j) {
        assert j != i ==> OpenSlot(text, s, j);
      }
      forall fd | fd in t.received ensures exists j :: 0 <= j < |t.slots| && t.slots[j].fd == fd && fd >= 0 {
        if fd == r.fd {
          assert t.slots[i].fd == fd;
        } else {
          var j :| 0 <= j < |s.slots| && s.slots[j].fd == fd && fd >= 0;
          assert t.slots[j].fd == fd;
        }
      }
      forall j | 0 <= j < |s.slots| && s.slots[j].fd != FREE ensures s.slots[j].fd != r.fd {
        assert OpenSlot(text, s, j);
      }
    }
  }

  lemma {:induction false} OthersDiffer(text: seq<Byte>, s: State, i: nat)
    requires Inv(text, s) && i < |s.slots| && s.slots[i].fd != FREE
    ensures OpenSlot(text, s, i)
    ensures forall j :: 0 <= j < |s.slots| && j != i ==> s.slots[j].fd != s.slots[i].fd
    ensures forall j :: 0 <= j < |s.slots| && s.slots[j].fd != FREE ==> OpenSlot(text, s, j)
  {
  }

  lemma {:induction false} CloseMeans(text: seq<Byte>, s: State, i: nat, ending: Ending)
    requires i < |s.slots| && OpenSlot(text, s, i) && ending != Refused
    requires ending == Completed ==> s.slots[i].offset == |text|
    ensures var t, fd := CloseSlot(s, i, ending), s.slots[i].fd;
            && t.slots == s.slots[i := s.slots[i].(fd := FREE)] && t.received == s.received - {fd}
            && t.closed == s.closed + [Closed(fd, ending, text[..s.slots[i].offset])]
            && TrueClosed(text, Closed(fd, ending, text[..s.slots[i].offset]))
  {
  }

  lemma {:induction false} CloseKeepsInv(text: seq<Byte>, s: State, i: nat, ending: Ending)
    requires Inv(text, s) && i < |s.slots| && s.slots[i].fd != FREE && ending != Refused
    requires ending == Completed ==> s.slots[i].offset == |text|
    ensures Inv(text, CloseSlot(s, i, ending))
  {
    hide CloseSlot, TrueClosed;
    var t := CloseSlot(s, i, ending);
    OthersDiffer(text, s, i);
    CloseMeans(text, s, i, ending);
    forall j | 0 <= j < |t.slots| && t.slots[j].fd != FREE ensures OpenSlot(text, t, j) {
      assert j != i && t.slots[j] == s.slots[j];
    }
    forall fd | fd in t.received ensures exists j :: 0 <= j < |t.slots| && t.slots[j].fd == fd && fd >= 0 {
      var j :| 0 <= j < |s.slots| && s.slots[j].fd == fd && fd >= 0;
      assert t.slots[j].fd == fd;
    }
  }

  /** A write appends to what the reader got the next bytes of the text. */
  lemma {:induction false} ProgressOpens(text: seq<Byte>, s: State, i: nat, a: Answers)
    requires i < |s.slots| && OpenSlot(text, s, i)
    ensures var t := Progress(text, s, i, a);
            && |t.slots| == |s.slots| && OpenSlot(text, t, i)
            && t.slots[i].fd == s.slots[i].fd && t.closed == s.closed
            && t.slots == s.slots[i := t.slots[i]]
            && t.received == s.received[s.slots[i].fd := t.received[s.slots[i].fd]]
  {
    var slot, n := s.slots[i], Taken(text, s.slots[i], a.write);
    assert text[..slot.offset] + text[slot.offset..slot.offset + n] == text[..slot.offset + n];
  }

  lemma {:induction false} ProgressKeepsInv(text: seq<Byte>, s: State, i: nat, a: Answers)
    requires Inv(text, s) && i < |s.slots| && s.slots[i].fd != FREE
    ensures Inv(text, Progress(text, s, i, a))
  {
    hide Progress;
    var t := Progress(text, s, i, a);
    OthersDiffer(text, s, i);
    ProgressOpens(text, s, i, a);
    forall j | 0 <= j < |t.slots| && t.slots[j].fd != FREE ensures OpenSlot(text, t, j) {
      assert j != i ==> OpenSlot(text, s, j) && t.slots[j] == s.slots[j];
    }
    forall fd | fd in t.received ensures exists j :: 0 <= j < |t.slots| && t.slots[j].fd == fd && fd >= 0 {
      var j :| 0 <= j < |s.slots| && s.slots[j].fd == fd && fd >= 0;
      assert t.slots[j].fd == fd;
    }
  }

  lemma {:induction false} ServeSlotKeepsInv(text: seq<Byte>, s: State, i: nat, rev: Revents, a: Answers)
    requires Inv(text, s) && i < |s.slots|
    ensures Inv(text, ServeSlot(text, s, i, rev, a))
  {
    hide Inv;
    assert |s.slots| == MAX_TRANSFERS by { TableSize(text, s); }
    if s.slots[i].fd != FREE {
      if a.now >= s.slots[i].deadline || rev.broken {
        CloseKeepsInv(text, s, i, TimedOutOrBroken);
      } else if rev.writable {
        ProgressKeepsInv(text, s, i, a);
        var t := Progress(text, s, i, a);
        if t.slots[i].offset == |text| {
          CloseKeepsInv(text, t, i, Completed);
        } else if a.write == WriteError {
          CloseKeepsInv(text, t, i, Failed);
        }
      }
    }
  }

  lemma {:induction false} TableSize(text: seq<Byte>, s: State)
    requires Inv(text, s)
    ensures |s.slots| == MAX_TRANSFERS
  {
  }

  // ---------- whole runs ----------

  /** One turn of the loop: requests before and after poll, and what poll and the writes answered. */
  datatype Turn = Turn(before: seq<Request>, during: seq<Request>, revents: seq<Revents>, answers: seq<Answers>)

  /** The kernel hands out only descriptors that are not open. */
  ghost predicate FreshRequests(s: State, rs: seq<Request>) {
    rs != [] ==>
      FreshRequests(s, rs[..|rs| - 1]) && rs[|rs| - 1].fd as int !in Requests(s, rs[..|rs| - 1]).received
  }

  /** Poll answers for each slot, and nothing for the slots it was not asked about. */
  ghost predicate PossibleTurn(s: State, turn: Turn) {
    var polled := Polled(Requests(s, turn.before));
    && FreshRequests(s, turn.before)
    && FreshRequests(Requests(s, turn.before), turn.during)
    && |turn.revents| == |turn.answers| == MAX_TRANSFERS == |polled|
    && forall i :: 0 <= i < MAX_TRANSFERS && polled[i] == FREE ==> turn.revents[i] == Revents(false, false)
  }

  function TakeTurn(text: seq<Byte>, s: State, turn: Turn): State {
    var ready := Requests(Requests(s, turn.before), turn.during);
    if |turn.revents| == |turn.answers| == MAX_TRANSFERS == |ready.slots|
    then ServeFirst(text, ready, turn.revents, turn.answers, MAX_TRANSFERS) else ready
  }

  function Run(text: seq<Byte>, turns: seq<Turn>): State {
    if turns == [] then Initial() else TakeTurn(text, Run(text, turns[..|turns| - 1]), turns[|turns| - 1])
  }

  ghost predicate PossibleRun(text: seq<Byte>, turns: seq<Turn>) {
    turns != [] ==>
      PossibleRun(text, turns[..|turns| - 1]) && PossibleTurn(Run(text, turns[..|turns| - 1]), turns[|turns| - 1])
  }

  lemma {:induction false} RequestsKeepInv(text: seq<Byte>, s: State, rs: seq<Request>)
    requires Inv(text, s) && FreshRequests(s, rs)
    ensures Inv(text, Requests(s, rs))
  {
    if rs != [] {
      RequestsKeepInv(text, s, rs[..|rs| - 1]);
      SourceSendKeepsInv(text, Requests(s, rs[..|rs| - 1]), rs[|rs| - 1]);
    }
  }

  lemma {:induction false} ServeFirstKeepsInv(
    text: seq<Byte>, s: State, revents: seq<Revents>, answers: seq<Answers>, n: nat)
    requires Inv(text, s) && n <= MAX_TRANSFERS && |revents| == |answers| == MAX_TRANSFERS
    ensures Inv(text, ServeFirst(text, s, revents, answers, n))
  {
    hide ServeSlot;
    if n > 0 {
      ServeFirstKeepsInv(text, s, revents, answers, n - 1);
      ServeSlotKeepsInv(text, ServeFirst(text, s, revents, answers, n - 1), n - 1, revents[n - 1], answers[n - 1]);
    }
  }

  lemma {:induction false} RunKeepsInv(text: seq<Byte>, turns: seq<Turn>)
    requires PossibleRun(text, turns)
    ensures Inv(text, Run(text, turns))
  {
    hide Inv, PossibleTurn, ServeFirst;
    if turns == [] {
      InitialInv(text);
    } else {
      RunKeepsInv(text, turns[..|turns| - 1]);
      TurnKeepsInv(text, Run(text, turns[..|turns| - 1]), turns[|turns| - 1]);
    }
  }

  /**
   Main result: in every run each open descriptor is in exactly one slot and has received exactly the
   text up to its offset; every closed one got a prefix of the text, all of it if its transfer ended by
   completion and nothing if it was refused.
   */
  lemma {:induction false} EveryRunDeliversTheText(text: seq<Byte>, turns: seq<Turn>)
    requires PossibleRun(text, turns)
    ensures var s := Run(text, turns);
            && |s.slots| == MAX_TRANSFERS
            && (forall fd :: fd in s.received ==> exists i :: 0 <= i < |s.slots| && s.slots[i].fd == fd && fd != FREE)
            && (forall i, j :: 0 <= i < j < |s.slots| && s.slots[i].fd != FREE ==> s.slots[i].fd != s.slots[j].fd)
            && (forall i :: 0 <= i < |s.slots| && s.slots[i].fd != FREE ==>
                  && s.slots[i].fd in s.received && s.slots[i].offset <= |text|
                  && s.received[s.slots[i].fd] == text[..s.slots[i].offset])
            && (forall c <- s.closed :: c.bytes <= text)
            && (forall c <- s.closed :: c.ending == Completed ==> c.bytes == text)
            && (forall c <- s.closed :: c.ending == Refused ==> c.bytes == [])
  {
    hide Run;
    RunKeepsInv(text, turns);
    var s := Run(text, turns);
    forall i | 0 <= i < |s.slots| && s.slots[i].fd != FREE ensures OpenSlot(text, s, i) {}
    assert forall c <- s.closed :: TrueClosed(text, c);
  }

  lemma {:induction false} TurnKeepsInv(text: seq<Byte>, s: State, turn: Turn)
    requires Inv(text, s) && PossibleTurn(s, turn)
    ensures Inv(text, TakeTurn(text, s, turn))
  {
    hide Inv, ServeFirst;
    RequestsKeepInv(text, s, turn.before);
    RequestsKeepInv(text, Requests(s, turn.before), turn.during);
    var ready := Requests(Requests(s, turn.before), turn.during);
    TableSize(text, ready);
    ServeFirstKeepsInv(text, ready, turn.revents, turn.answers, MAX_TRANSFERS);
  }

  /** Requests only ever fill free slots. */
  lemma {:induction false} RequestsKeepPolled(s: State, rs: seq<Request>, i: nat)
    requires i < |s.slots| && s.slots[i].fd != FREE
    ensures var t := Requests(s, rs); i < |t.slots| && t.slots[i] == s.slots[i]
  {
    if rs != [] {
      RequestsKeepPolled(s, rs[..|rs| - 1], i);
    }
  }

  lemma {:induction false} ServingTouchesOwnSlot(
    text: seq<Byte>, s: State, revents: seq<Revents>, answers: seq<Answers>, n: nat, i: nat)
    requires n <= i < |s.slots| && n <= |revents| && n <= |answers|
    ensures ServeFirst(text, s, revents, answers, n).slots[i] == s.slots[i]
  {
    if n > 0 {
      ServingTouchesOwnSlot(text, s, revents, answers, n - 1, i);
      ServeSlotTouches(text, ServeFirst(text, s, revents, answers, n - 1), n - 1, revents[n - 1], answers[n - 1], i);
    }
  }

  lemma {:induction false} ServeSlotTouches(text: seq<Byte>, s: State, j: nat, rev: Revents, a: Answers, i: nat)
    requires j < |s.slots| && i < |s.slots| && i != j
    ensures |ServeSlot(text, s, j, rev, a).slots| == |s.slots| && ServeSlot(text, s, j, rev, a).slots[i] == s.slots[i]
  {
  }

  /**
   What poll reported for slot `i` is applied to the very descriptor it was asked about, with requests
   arriving in between and the slots before it already served.
   */
  lemma {:induction false} PollResultsStayWithTheirDescriptor(text: seq<Byte>, s: State, turn: Turn, i: nat)
    requires Inv(text, s) && PossibleTurn(s, turn) && i < MAX_TRANSFERS
    requires turn.revents[i] != Revents(false, false)
    ensures var ready := Requests(Requests(s, turn.before), turn.during);
            && |ready.slots| == MAX_TRANSFERS
            && ServeFirst(text, ready, turn.revents, turn.answers, i).slots[i].fd == Polled(Requests(s, turn.before))[i]
  {
    var polling := Requests(s, turn.before);
    RequestsKeepInv(text, s, turn.before);
    RequestsKeepInv(text, polling, turn.during);
    RequestsKeepPolled(polling, turn.during, i);
    ServingTouchesOwnSlot(text, Requests(polling, turn.during), turn.revents, turn.answers, i, i);
  }

  // ---------- transfers that can be written complete ----------

  /** At its turn slot `i` can be written, takes a byte at least, and is within its deadline. */
  predicate Favours(s: State, turn: Turn, i: nat) {
    var ready := Requests(Requests(s, turn.before), turn.during);
    && i < |ready.slots| && i < |turn.revents| && i < |turn.answers|
    && turn.revents[i] == Revents(true, false)
    && turn.answers[i].now < ready.slots[i].deadline
    && turn.answers[i].write.Takes? && turn.answers[i].write.n > 0
  }

  /** Since `mark` descriptors had been closed, `fd` was closed with the whole text delivered. */
  predicate Delivered(text: seq<Byte>, s: State, fd: int, mark: nat) {
    fd >= 0 && mark <= |s.closed| && Closed(fd, Completed, text) in s.closed[mark..]
  }

  /** Slot `i` still serves `fd`, from at least `offset` on and short of the end; or `fd` was served since `mark`. */
  predicate Advanced(text: seq<Byte>, s: State, i: nat, fd: int, offset: nat, mark: nat) {
    || Delivered(text, s, fd, mark)
    || (i < |s.slots| && s.slots[i].fd == fd && offset <= s.slots[i].offset < |text|)
  }

  lemma {:induction false} FavouredSlotAdvances(
    text: seq<Byte>, s: State, i: nat, rev: Revents, a: Answers, mark: nat)
    requires i < |s.slots| && OpenSlot(text, s, i) && rev == Revents(true, false) && a.now < s.slots[i].deadline
    requires a.write.Takes? && a.write.n > 0 && mark <= |s.closed|
    ensures Advanced(text, ServeSlot(text, s, i, rev, a), i, s.slots[i].fd, s.slots[i].offset + 1, mark)
  {
    hide Progress;
    var t := Progress(text, s, i, a);
    ProgressOpens(text, s, i, a);
    ProgressMoves(text, s, i, a);
    if t.slots[i].offset == |text| {
      assert t.received[t.slots[i].fd] == text;
      var u := CloseSlot(t, i, Completed);
      assert u.closed[|t.closed|] == Closed(s.slots[i].fd, Completed, text);
      assert ServeSlot(text, s, i, rev, a) == u;
    }
  }

  lemma {:induction false} ProgressMoves(text: seq<Byte>, s: State, i: nat, a: Answers)
    requires i < |s.slots| && OpenSlot(text, s, i) && a.write.Takes? && a.write.n > 0
    ensures |Progress(text, s, i, a).slots| == |s.slots|
    ensures Progress(text, s, i, a).slots[i].offset >= s.slots[i].offset
    ensures s.slots[i].offset < |text| ==> Progress(text, s, i, a).slots[i].offset > s.slots[i].offset
  {
  }

  lemma {:induction false} ClosedOnlyGrows(text: seq<Byte>, s: State, i: nat, rev: Revents, a: Answers)
    requires i < |s.slots|
    ensures s.closed <= ServeSlot(text, s, i, rev, a).closed
  {
  }

  lemma {:induction false} RequestsOnlyClose(s: State, rs: seq<Request>)
    ensures s.closed <= Requests(s, rs).closed
  {
    if rs != [] {
      RequestsOnlyClose(s, rs[..|rs| - 1]);
    }
  }

  lemma {:induction false} ServingOnlyCloses(
    text: seq<Byte>, s: State, revents: seq<Revents>, answers: seq<Answers>, n: nat)
    requires n <= |s.slots| && n <= |revents| && n <= |answers|
    ensures s.closed <= ServeFirst(text, s, revents, answers, n).closed
  {
    hide ServeSlot;
    if n > 0 {
      ServingOnlyCloses(text, s, revents, answers, n - 1);
      ClosedOnlyGrows(text, ServeFirst(text, s, revents, answers, n - 1), n - 1, revents[n - 1], answers[n - 1]);
    }
  }

  lemma {:induction false} TurnOnlyCloses(text: seq<Byte>, s: State, turn: Turn)
    ensures s.closed <= TakeTurn(text, s, turn).closed
  {
    hide ServeFirst;
    var polling := Requests(s, turn.before);
    var ready := Requests(polling, turn.during);
    RequestsOnlyClose(s, turn.before);
    RequestsOnlyClose(polling, turn.during);
    if |turn.revents| == |turn.answers| == MAX_TRANSFERS == |ready.slots| {
      ServingOnlyCloses(text, ready, turn.revents, turn.answers, MAX_TRANSFERS);
    }
  }

  /** Serving other slots leaves slot `i` as it is and what was closed as closed. */
  lemma {:induction false} ServingKeepsAdvance(
    text: seq<Byte>, s: State, revents: seq<Revents>, answers: seq<Answers>, m: nat, n: nat,
    i: nat, fd: int, offset: nat, mark: nat)
    requires m <= n <= |s.slots| && n <= |revents| && n <= |answers| && (i < m || n <= i)
    requires Advanced(text, ServeFirst(text, s, revents, answers, m), i, fd, offset, mark)
    ensures Advanced(text, ServeFirst(text, s, revents, answers, n), i, fd, offset, mark)
    decreases n
  {
    if m < n {
      hide ServeSlot;
      ServingKeepsAdvance(text, s, revents, answers, m, n - 1, i, fd, offset, mark);
      var t := ServeFirst(text, s, revents, answers, n - 1);
      ClosedOnlyGrows(text, t, n - 1, revents[n - 1], answers[n - 1]);
      if i < |t.slots| {
        ServeSlotTouches(text, t, n - 1, revents[n - 1], answers[n - 1], i);
      }
    }
  }

  lemma {:induction false} FavouredTurnAdvances(text: seq<Byte>, s: State, turn: Turn, i: nat, mark: nat)
    requires Inv(text, s) && PossibleTurn(s, turn) && i < MAX_TRANSFERS == |s.slots|
    requires s.slots[i].fd != FREE && Favours(s, turn, i) && mark <= |s.closed|
    ensures Advanced(text, TakeTurn(text, s, turn), i, s.slots[i].fd, s.slots[i].offset + 1, mark)
  {
    hide ServeSlot, ServeFirst, Advanced;
    var polling := Requests(s, turn.before);
    var ready := Requests(polling, turn.during);
    RequestsKeepInv(text, s, turn.before);
    RequestsKeepInv(text, polling, turn.during);
    RequestsKeepPolled(s, turn.before, i);
    RequestsKeepPolled(polling, turn.during, i);
    ServeFirstKeepsInv(text, ready, turn.revents, turn.answers, i);
    ServingTouchesOwnSlot(text, ready, turn.revents, turn.answers, i, i);
    var before := ServeFirst(text, ready, turn.revents, turn.answers, i);
    assert OpenSlot(text, before, i);
    RequestsOnlyClose(s, turn.before);
    RequestsOnlyClose(polling, turn.during);
    ServingOnlyCloses(text, ready, turn.revents, turn.answers, i);
    FavouredSlotAdvances(text, before, i, turn.revents[i], turn.answers[i], mark);
    ServeOneMore(text, ready, turn.revents, turn.answers, i);
    ServingKeepsAdvance(
      text, ready, turn.revents, turn.answers, i + 1, MAX_TRANSFERS, i, s.slots[i].fd, s.slots[i].offset + 1, mark);
  }

  lemma {:induction false} ServeOneMore(text: seq<Byte>, s: State, revents: seq<Revents>, answers: seq<Answers>, n: nat)
    requires n < |s.slots| && n < |revents| && n < |answers|
    ensures ServeFirst(text, s, revents, answers, n + 1)
         == ServeSlot(text, ServeFirst(text, s, revents, answers, n), n, revents[n], answers[n])
  {
  }

  function RunFrom(text: seq<Byte>, s: State, turns: seq<Turn>): State {
    if turns == [] then s else TakeTurn(text, RunFrom(text, s, turns[..|turns| - 1]), turns[|turns| - 1])
  }

  /** Possible turns, each favouring slot `i` for as long as it serves `fd`. */
  ghost predicate FavouringRun(text: seq<Byte>, s: State, turns: seq<Turn>, i: nat, fd: int) {
    turns != [] ==>
      var before, turn := RunFrom(text, s, turns[..|turns| - 1]), turns[|turns| - 1];
      && FavouringRun(text, s, turns[..|turns| - 1], i, fd)
      && PossibleTurn(before, turn)
      && (i < |before.slots| && before.slots[i].fd == fd ==> Favours(before, turn, i))
  }

  lemma {:induction false} DeliveredStays(text: seq<Byte>, s: State, turn: Turn, fd: int, mark: nat)
    requires Inv(text, s) && PossibleTurn(s, turn) && Delivered(text, s, fd, mark)
    ensures Delivered(text, TakeTurn(text, s, turn), fd, mark)
  {
    hide ServeFirst, ServeSlot;
    var polling := Requests(s, turn.before);
    var ready := Requests(polling, turn.during);
    RequestsOnlyClose(s, turn.before);
    RequestsOnlyClose(polling, turn.during);
    RequestsKeepInv(text, s, turn.before);
    RequestsKeepInv(text, polling, turn.during);
    ServeNone(text, ready, turn.revents, turn.answers);
    ServingKeepsAdvance(text, ready, turn.revents, turn.answers, 0, MAX_TRANSFERS, MAX_TRANSFERS, fd, 0, mark);
  }

  lemma {:induction false} ServeNone(text: seq<Byte>, s: State, revents: seq<Revents>, answers: seq<Answers>)
    ensures ServeFirst(text, s, revents, answers, 0) == s
  {
  }

  lemma {:induction false} FavouredRunAdvances(text: seq<Byte>, s: State, turns: seq<Turn>, i: nat)
    requires Inv(text, s) && i < |s.slots| && s.slots[i].fd != FREE && turns != []
    requires FavouringRun(text, s, turns, i, s.slots[i].fd)
    ensures Inv(text, RunFrom(text, s, turns)) && |s.closed| <= |RunFrom(text, s, turns).closed|
    ensures Advanced(text, RunFrom(text, s, turns), i, s.slots[i].fd, s.slots[i].offset + |turns|, |s.closed|)
  {
    hide TakeTurn, Inv, PossibleTurn, Favours;
    var init, turn := turns[..|turns| - 1], turns[|turns| - 1];
    var before := RunFrom(text, s, init);
    assert OpenSlot(text, s, i) && i < MAX_TRANSFERS by { OthersDiffer(text, s, i); TableSize(text, s); }
    if init == [] {
      assert before == s;
    } else {
      FavouredRunAdvances(text, s, init, i);
    }
    TurnKeepsInv(text, before, turn);
    TurnOnlyCloses(text, before, turn);
    if init != [] && Delivered(text, before, s.slots[i].fd, |s.closed|) {
      DeliveredStays(text, before, turn, s.slots[i].fd, |s.closed|);
    } else {
      TableSize(text, before);
      FavouredTurnAdvances(text, before, turn, i, |s.closed|);
    }
  }

  /**
   Main result: a transfer that its reader keeps taking from in time, a byte a turn or more, completes
   within as many turns as it has bytes left, or one if it has none. Its descriptor is then among those
   closed in these turns, whatever a transfer on the same number did before.
   */
  lemma {:induction false} WritableTransfersComplete(text: seq<Byte>, s: State, turns: seq<Turn>, i: nat)
    requires Inv(text, s) && i < |s.slots| && s.slots[i].fd != FREE
    requires FavouringRun(text, s, turns, i, s.slots[i].fd)
    requires turns != [] && |turns| >= |text| - s.slots[i].offset
    ensures var closed := RunFrom(text, s, turns).closed;
            |s.closed| <= |closed| && Closed(s.slots[i].fd, Completed, text) in closed[|s.closed|..]
  {
    hide Inv, RunFrom, FavouringRun;
    FavouredRunAdvances(text, s, turns, i);
  }
}
