/**
 Single transfers of the clipboard owner over whole runs: which requests are taken, what a write moves,
 and when a transfer that moves no further is closed.
 */
module ClipboardRuns {
  import opened Prelude
  import opened ClipboardOwner

  // ---------- requests ----------

  /** A request is refused exactly when all eight slots are in use or its descriptor stays blocking. */
  lemma {:induction false} RefusedExactlyWhenFull(text: seq<Byte>, s: State, r: Request)
    requires Inv(text, s) && r.fd !in s.received
    ensures |s.slots| == 8
    ensures var t := SourceSend(s, r);
            var full := forall i :: 0 <= i < 8 ==> s.slots[i].fd != FREE;
            && (full || !r.nonBlocking ==> t == s.(closed := s.closed + [Closed(r.fd, Refused, [])]))
            && (!full && r.nonBlocking ==>
                  && t.closed == s.closed && t.received == s.received[r.fd as int := []]
                  && exists i :: 0 <= i < |s.slots| && s.slots[i].fd == FREE
                                 && t.slots == s.slots[i := Slot(r.fd, 0, r.at + 2000)])
  {
    hide OpenSlot, TrueClosed;
    TableSize(text, s);
    var free := FirstFree(s.slots);
    if free < |s.slots| {
      assert s.slots[free].fd == FREE;
    }
  }

  // ---------- one turn ----------

  function Ready(s: State, turn: Turn): State { Requests(Requests(s, turn.before), turn.during) }

  lemma {:induction false} OpenWhenReady(text: seq<Byte>, s: State, turn: Turn, i: nat)
    requires Inv(text, s) && PossibleTurn(s, turn) && i < |s.slots| && s.slots[i].fd != FREE
    ensures Inv(text, Ready(s, turn)) && |Ready(s, turn).slots| == MAX_TRANSFERS == |s.slots|
    ensures Ready(s, turn).slots[i] == s.slots[i] && s.closed <= Ready(s, turn).closed
    ensures OpenSlot(text, Ready(s, turn), i)
  {
    var polling := Requests(s, turn.before);
    RequestsKeepInv(text, s, turn.before);
    RequestsKeepInv(text, polling, turn.during);
    RequestsKeepPolled(s, turn.before, i);
    RequestsKeepPolled(polling, turn.during, i);
    RequestsOnlyClose(s, turn.before);
    RequestsOnlyClose(polling, turn.during);
  }

  /** The state in which slot `i` is served, and the slots before it have been. */
  function Served(text: seq<Byte>, s: State, turn: Turn, i: nat): State
    requires i <= |Ready(s, turn).slots| && i <= |turn.revents| && i <= |turn.answers|
  {
    ServeFirst(text, Ready(s, turn), turn.revents, turn.answers, i)
  }

  lemma {:induction false} OpenWhenServed(text: seq<Byte>, s: State, turn: Turn, i: nat)
    requires Inv(text, s) && PossibleTurn(s, turn) && i < |s.slots| && s.slots[i].fd != FREE
    ensures |Ready(s, turn).slots| == MAX_TRANSFERS == |s.slots|
    ensures var t := Served(text, s, turn, i);
            && |t.slots| == MAX_TRANSFERS && t.slots[i] == s.slots[i] && OpenSlot(text, t, i) && s.closed <= t.closed
  {
    hide ServeFirst, ServeSlot;
    OpenWhenReady(text, s, turn, i);
    ServeFirstKeepsInv(text, Ready(s, turn), turn.revents, turn.answers, i);
    ServingTouchesOwnSlot(text, Ready(s, turn), turn.revents, turn.answers, i, i);
    ServingOnlyCloses(text, Ready(s, turn), turn.revents, turn.answers, i);
  }

  lemma {:induction false} ServedLater(
    text: seq<Byte>, s: State, revents: seq<Revents>, answers: seq<Answers>, m: nat, n: nat, i: nat)
    requires i < m <= n <= |s.slots| && n <= |revents| && n <= |answers|
    ensures var t, u := ServeFirst(text, s, revents, answers, m), ServeFirst(text, s, revents, answers, n);
            t.slots[i] == u.slots[i] && t.closed <= u.closed
    decreases n
  {
    if m < n {
      hide ServeSlot;
      ServedLater(text, s, revents, answers, m, n - 1, i);
      var t := ServeFirst(text, s, revents, answers, n - 1);
      ClosedOnlyGrows(text, t, n - 1, revents[n - 1], answers[n - 1]);
      ServeSlotTouches(text, t, n - 1, revents[n - 1], answers[n - 1], i);
    }
  }

  /** A turn leaves slot `i` as its own serving left it, and what was closed then stays closed. */
  lemma {:induction false} TurnServes(text: seq<Byte>, s: State, turn: Turn, i: nat)
    requires Inv(text, s) && PossibleTurn(s, turn) && i < |s.slots| && s.slots[i].fd != FREE
    ensures |Ready(s, turn).slots| == MAX_TRANSFERS == |s.slots|
    ensures var u, t := ServeSlot(text, Served(text, s, turn, i), i, turn.revents[i], turn.answers[i]),
                        TakeTurn(text, s, turn);
            && |t.slots| == |u.slots| == MAX_TRANSFERS && t.slots[i] == u.slots[i] && u.closed <= t.closed
  {
    hide ServeFirst, ServeSlot;
    OpenWhenReady(text, s, turn, i);
    ServeOneMore(text, Ready(s, turn), turn.revents, turn.answers, i);
    ServedLater(text, Ready(s, turn), turn.revents, turn.answers, i + 1, MAX_TRANSFERS, i);
  }

  // ---------- what a write moves ----------

  function Least(a: int, b: int): int { if a < b then a else b }

  /**
   In a turn in which the reader of slot `i` takes something in time, it gets the next bytes of the text,
   as many as it takes of at most 65536; the transfer is then complete or has two more seconds.
   */
  lemma {:induction false} WritesMoveOn(text: seq<Byte>, s: State, turn: Turn, i: nat)
    requires Inv(text, s) && PossibleTurn(s, turn) && i < |s.slots| && s.slots[i].fd != FREE
    requires turn.revents[i] == Revents(true, false) && turn.answers[i].now < s.slots[i].deadline
    requires turn.answers[i].write.Takes? && turn.answers[i].write.n > 0 && s.slots[i].offset < |text|
    ensures var slot, t := s.slots[i], TakeTurn(text, s, turn);
            var next := slot.offset + Least(turn.answers[i].write.n, Least(|text| - slot.offset, 65536));
            && |t.slots| == MAX_TRANSFERS && |s.closed| <= |t.closed|
            && if next == |text| then
                 t.slots[i].fd == FREE && Closed(slot.fd, Completed, text) in t.closed[|s.closed|..]
               else t.slots[i] == Slot(slot.fd, next, turn.answers[i].after + 2000)
  {
    hide ServeFirst, TakeTurn, Inv, PossibleTurn, OpenSlot, Served, Ready;
    PossibleAnswers(s, turn);
    TableSize(text, s);
    OpenWhenServed(text, s, turn, i);
    TurnServes(text, s, turn, i);
    WriteMoves(text, Served(text, s, turn, i), i, turn.answers[i], |s.closed|);
  }

  lemma {:induction false} PossibleAnswers(s: State, turn: Turn)
    requires PossibleTurn(s, turn)
    ensures |turn.revents| == |turn.answers| == MAX_TRANSFERS
  {
  }

  lemma {:induction false} WriteMoves(text: seq<Byte>, s: State, i: nat, a: Answers, mark: nat)
    requires i < |s.slots| && OpenSlot(text, s, i) && a.now < s.slots[i].deadline && mark <= |s.closed|
    requires a.write.Takes? && a.write.n > 0 && s.slots[i].offset < |text|
    ensures var slot, t := s.slots[i], ServeSlot(text, s, i, Revents(true, false), a);
            var next := slot.offset + Least(a.write.n, Least(|text| - slot.offset, 65536));
            && |t.slots| == |s.slots| && mark <= |t.closed|
            && if next == |text| then t.slots[i].fd == FREE && Closed(slot.fd, Completed, text) in t.closed[mark..]
               else t.slots[i] == Slot(slot.fd, next, a.after + 2000)
  {
    hide CloseSlot;
    var slot := s.slots[i];
    var next := slot.offset + Least(a.write.n, Least(|text| - slot.offset, 65536));
    ProgressOpens(text, s, i, a);
    var p := Progress(text, s, i, a);
    assert p.slots[i] == Slot(slot.fd, next, a.after + 2000);
    if next == |text| {
      CloseMeans(text, p, i, Completed);
      assert text[..|text|] == text;
      var t := CloseSlot(p, i, Completed);
      assert t.closed[|p.closed|] == Closed(slot.fd, Completed, text);
    }
  }

  // ---------- when a stalled transfer ends ----------

  /** How a turn ends a transfer with this deadline that its reader takes nothing from, if it does. */
  function EndingOf(turn: Turn, i: nat, deadline: int): Option<Ending> {
    if i >= |turn.revents| || i >= |turn.answers| then None
    else if turn.answers[i].now >= deadline || turn.revents[i].broken then Some(TimedOutOrBroken)
    else if turn.revents[i].writable && turn.answers[i].write == WriteError then Some(Failed)
    else None
  }

  function FirstEnding(turns: seq<Turn>, i: nat, deadline: int): Option<Ending> {
    if turns == [] then None
    else
      var before := FirstEnding(turns[..|turns| - 1], i, deadline);
      if before.Some? then before else EndingOf(turns[|turns| - 1], i, deadline)
  }

  /** The turns are possible, and no write to slot `i` takes anything in them. */
  ghost predicate StalledRun(text: seq<Byte>, s: State, turns: seq<Turn>, i: nat) {
    turns != [] ==>
      var before, turn := RunFrom(text, s, turns[..|turns| - 1]), turns[|turns| - 1];
      && StalledRun(text, s, turns[..|turns| - 1], i)
      && PossibleTurn(before, turn)
      && i < |turn.answers| && (turn.answers[i].write.Takes? ==> turn.answers[i].write.n == 0)
  }

  lemma {:induction false} StalledServe(text: seq<Byte>, s: State, i: nat, turn: Turn, mark: nat)
    requires i < |s.slots| && OpenSlot(text, s, i) && s.slots[i].offset < |text| && mark <= |s.closed|
    requires i < |turn.answers| && i < |turn.revents|
    requires turn.answers[i].write.Takes? ==> turn.answers[i].write.n == 0
    ensures var slot, t := s.slots[i], ServeSlot(text, s, i, turn.revents[i], turn.answers[i]);
            && |t.slots| == |s.slots| && mark <= |t.closed|
            && match EndingOf(turn, i, slot.deadline)
               case None => t.slots[i] == slot
               case Some(ending) => Closed(slot.fd, ending, text[..slot.offset]) in t.closed[mark..]
  {
    hide CloseSlot;
    var slot := s.slots[i];
    assert Progress(text, s, i, turn.answers[i]) == s;
    var ending := EndingOf(turn, i, slot.deadline);
    if ending.Some? {
      CloseMeans(text, s, i, ending.value);
      var t := CloseSlot(s, i, ending.value);
      assert t.closed[|s.closed|] == Closed(slot.fd, ending.value, text[..slot.offset]);
    }
  }

  /** The transfer stands as it did, or was closed since `mark` with this ending and what its reader got. */
  predicate StandsOrEnded(text: seq<Byte>, t: State, i: nat, slot: Slot, ending: Option<Ending>, mark: nat) {
    mark <= |t.closed| &&
    match ending
    case None => i < |t.slots| && t.slots[i] == slot
    case Some(e) => slot.offset <= |text| && slot.fd >= 0 && Closed(slot.fd, e, text[..slot.offset]) in t.closed[mark..]
  }

  lemma {:induction false} StalledTurn(text: seq<Byte>, s: State, turn: Turn, i: nat, mark: nat)
    requires Inv(text, s) && PossibleTurn(s, turn) && i < |s.slots| && s.slots[i].fd != FREE
    requires s.slots[i].offset < |text| && mark <= |s.closed|
    requires i < |turn.answers| && (turn.answers[i].write.Takes? ==> turn.answers[i].write.n == 0)
    ensures StandsOrEnded(text, TakeTurn(text, s, turn), i, s.slots[i], EndingOf(turn, i, s.slots[i].deadline), mark)
  {
    hide ServeFirst, ServeSlot, TakeTurn, Inv, PossibleTurn, OpenSlot, Served, Ready;
    PossibleAnswers(s, turn);
    OpenWhenServed(text, s, turn, i);
    TurnServes(text, s, turn, i);
    StalledServe(text, Served(text, s, turn, i), i, turn, mark);
    OpenBounds(text, Served(text, s, turn, i), i);
  }

  lemma {:induction false} OpenBounds(text: seq<Byte>, s: State, i: nat)
    requires i < |s.slots| && OpenSlot(text, s, i)
    ensures s.slots[i].fd >= 0 && s.slots[i].offset <= |text|
  {
  }

  /**
   Main result: a transfer that its reader takes nothing from stands as it is until the first turn in which
   the clock is at its deadline, its pipe is broken or the write fails, and no longer: that turn closes it,
   with what its reader had got.
   */
  lemma {:induction false} StalledTransfersEnd(text: seq<Byte>, s: State, turns: seq<Turn>, i: nat)
    requires Inv(text, s) && i < |s.slots| && s.slots[i].fd != FREE && s.slots[i].offset < |text|
    requires StalledRun(text, s, turns, i)
    ensures Inv(text, RunFrom(text, s, turns))
    ensures StandsOrEnded(text, RunFrom(text, s, turns), i, s.slots[i],
                          FirstEnding(turns, i, s.slots[i].deadline), |s.closed|)
  {
    if turns != [] {
      hide TakeTurn, Inv, PossibleTurn, StandsOrEnded, EndingOf;
      var init, turn := turns[..|turns| - 1], turns[|turns| - 1];
      var before := RunFrom(text, s, init);
      StalledTransfersEnd(text, s, init, i);
      TurnKeepsInv(text, before, turn);
      var ending := FirstEnding(init, i, s.slots[i].deadline);
      if ending.Some? {
        EndedStays(text, before, turn, i, s.slots[i], ending.value, |s.closed|);
      } else {
        StandingMeans(text, before, i, s.slots[i], |s.closed|);
        StalledTurn(text, before, turn, i, |s.closed|);
      }
    }
  }

  lemma {:induction false} StandingMeans(text: seq<Byte>, t: State, i: nat, slot: Slot, mark: nat)
    requires StandsOrEnded(text, t, i, slot, None, mark)
    ensures mark <= |t.closed| && i < |t.slots| && t.slots[i] == slot
  {
  }

  lemma {:induction false} EndedStays(
    text: seq<Byte>, s: State, turn: Turn, i: nat, slot: Slot, ending: Ending, mark: nat)
    requires StandsOrEnded(text, s, i, slot, Some(ending), mark)
    ensures StandsOrEnded(text, TakeTurn(text, s, turn), i, slot, Some(ending), mark)
  {
    hide TakeTurn;
    TurnOnlyCloses(text, s, turn);
    assert s.closed[mark..] <= TakeTurn(text, s, turn).closed[mark..];
  }
}
