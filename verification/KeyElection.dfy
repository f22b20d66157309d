/**
 Any number of mock servers electing one persisted key pair: a race on an exclusively created lock
 file and an atomic rename, with transient read failures, I/O errors, crashes that leave the lock
 behind, and an operator who removes a lock no live process holds.

 A process is a program counter; one step is one file operation of one process. A step that is not
 possible in a world leaves it unchanged, so every sequence of steps is a run.
 */
module KeyElection {
  import opened Prelude

  const LOCK_ATTEMPTS: nat := 50
  const RENAME_ATTEMPTS: nat := 5

  type Pid = nat
  type Key = nat

  datatype KeyFile = Missing | Invalid | Valid(key: Key)
  /** A temporary file before and after its whole content was written. */
  datatype Temporary = Partial | Complete(key: Key)

  datatype Pc =
    | Start
    | TryLock(attempt: nat)
    | Recheck(attempt: nat)
    | FinalRead
    | FinalTry
    | LateRead
    | UnderLock
    | Minting
    | Creating(key: Key)
    | Filling(key: Key)
    | Renaming(key: Key, attempt: nat)
    | Releasing(result: Option<Key>)
    | Done(key: Key)
    | Failed
    | Crashed

  datatype OpenAnswer = Opened | Exists | OpenError

  // ---------- one process ----------

  function OnOpen(pc: Pc, answer: OpenAnswer): Pc {
    match (pc, answer)
    case (TryLock(_), Opened) => UnderLock
    case (TryLock(a), Exists) => Recheck(a)
    case (FinalTry, Opened) => UnderLock
    case (FinalTry, Exists) => LateRead
    case (_, _) => Failed
  }

  function OnRead(pc: Pc, found: Option<Key>): Pc {
    match pc
    case Start => if found.Some? then Done(found.value) else TryLock(0)
    case Recheck(a) =>
      if found.Some? then Done(found.value) else if a + 1 < LOCK_ATTEMPTS then TryLock(a + 1) else FinalRead
    case FinalRead => if found.Some? then Done(found.value) else FinalTry
    case LateRead => if found.Some? then Done(found.value) else Failed
    case UnderLock => if found.Some? then Releasing(found) else Minting
    case _ => pc
  }

  predicate Opens(pc: Pc) { pc.TryLock? || pc.FinalTry? }
  predicate Reads(pc: Pc) { pc.Start? || pc.Recheck? || pc.FinalRead? || pc.LateRead? || pc.UnderLock? }
  predicate Persisting(pc: Pc) { pc.Minting? || pc.Creating? || pc.Filling? || pc.Renaming? }
  predicate Holds(pc: Pc) { pc.UnderLock? || Persisting(pc) || pc.Releasing? }
  predicate Ended(pc: Pc) { pc.Done? || pc.Failed? || pc.Crashed? }

  /** The file operations a process has left at most, whatever the other processes do. */
  function Rank(pc: Pc): nat {
    match pc
    case Start => 14 + 2 * LOCK_ATTEMPTS
    case TryLock(a) => if a < LOCK_ATTEMPTS then 13 + 2 * (LOCK_ATTEMPTS - a) else 14
    case Recheck(a) => if a < LOCK_ATTEMPTS then 12 + 2 * (LOCK_ATTEMPTS - a) else 13
    case FinalRead => 12
    case FinalTry => 11
    case LateRead => 1
    case UnderLock => 10
    case Minting => 9
    case Creating(_) => 8
    case Filling(_) => 7
    case Renaming(_, a) => if a < RENAME_ATTEMPTS then 2 + (RENAME_ATTEMPTS - a) - 1 else 2
    case Releasing(_) => 1
    case _ => 0
  }

  /** Where a process ends up when its file operations get the given answers in turn. */
  function AcquireFrom(pc: Pc, opens: nat -> OpenAnswer, seen: nat -> Option<Key>): Pc
    requires !pc.Start? && (pc.TryLock? || pc.Recheck? ==> pc.attempt < LOCK_ATTEMPTS)
    decreases Rank(pc)
  {
    match pc
    case TryLock(a) => AcquireFrom(OnOpen(pc, opens(a)), opens, seen)
    case Recheck(a) => AcquireFrom(OnRead(pc, seen(a)), opens, seen)
    case FinalRead => AcquireFrom(OnRead(pc, seen(LOCK_ATTEMPTS)), opens, seen)
    case FinalTry => AcquireFrom(OnOpen(pc, opens(LOCK_ATTEMPTS)), opens, seen)
    case LateRead => OnRead(pc, seen(LOCK_ATTEMPTS + 1))
    case _ => pc
  }

  lemma {:induction false} AcquireAttempt(a: nat, opens: nat -> OpenAnswer, seen: nat -> Option<Key>)
    requires a < LOCK_ATTEMPTS
    ensures AcquireFrom(TryLock(a), opens, seen)
         == match opens(a)
            case Opened => UnderLock
            case OpenError => Failed
            case Exists =>
              if seen(a).Some? then Done(seen(a).value)
              else AcquireFrom(if a + 1 < LOCK_ATTEMPTS then TryLock(a + 1) else FinalRead, opens, seen)
  {
    var next := OnOpen(TryLock(a), opens(a));
    if next.Recheck? {
      assert AcquireFrom(next, opens, seen) == AcquireFrom(OnRead(next, seen(a)), opens, seen);
    }
  }

  lemma {:induction false} AcquireLate(opens: nat -> OpenAnswer, seen: nat -> Option<Key>)
    ensures AcquireFrom(FinalRead, opens, seen)
         == if seen(LOCK_ATTEMPTS).Some? then Done(seen(LOCK_ATTEMPTS).value)
            else match opens(LOCK_ATTEMPTS)
            case Opened => UnderLock
            case OpenError => Failed
            case Exists =>
              if seen(LOCK_ATTEMPTS + 1).Some? then Done(seen(LOCK_ATTEMPTS + 1).value) else Failed
  {
    var next := OnOpen(FinalTry, opens(LOCK_ATTEMPTS));
    assert AcquireFrom(FinalTry, opens, seen) == AcquireFrom(next, opens, seen);
  }

  /** The bounded retry loop: the lock, a key another process persisted, or the busy error. */
  method AcquireKeyLock(opens: nat -> OpenAnswer, seen: nat -> Option<Key>) returns (outcome: Pc)
    ensures outcome == AcquireFrom(TryLock(0), opens, seen)
    ensures outcome == UnderLock || outcome.Done? || outcome == Failed
  {
    hide AcquireFrom;
    AcquireLate(opens, seen);
    var attempt := 0;
    while attempt < LOCK_ATTEMPTS
      invariant attempt <= LOCK_ATTEMPTS
      invariant AcquireFrom(TryLock(0), opens, seen)
             == AcquireFrom(if attempt < LOCK_ATTEMPTS then TryLock(attempt) else FinalRead, opens, seen)
    {
      AcquireAttempt(attempt, opens, seen);
      match opens(attempt) {
        case Opened => return UnderLock;
        case OpenError => return Failed;
        case Exists =>
          var concurrent := seen(attempt);
          if concurrent.Some? {
            return Done(concurrent.value);
          }
      }
      attempt := attempt + 1;
    }
    var winner := seen(LOCK_ATTEMPTS);
    if winner.Some? {
      return Done(winner.value);
    }
    match opens(LOCK_ATTEMPTS) {
      case Opened => return UnderLock;
      case OpenError => return Failed;
      case Exists =>
        var lateWinner := seen(LOCK_ATTEMPTS + 1);
        return if lateWinner.Some? then Done(lateWinner.value) else Failed;
    }
  }

  // ---------- the world ----------

  /** `lock` names the process that created the lock file; a process can only see whether it exists. */
  datatype World = World(file: KeyFile, lock: Option<Pid>, temporaries: map<Pid, Temporary>, procs: map<Pid, Pc>)

  datatype RenameAnswer = Renamed | Busy | RenameError

  datatype Step =
    | Spawn(p: Pid)
    | Open(p: Pid, ioError: bool)
    | Read(p: Pid, unreadable: bool)
    | Mint(p: Pid, key: Key)
    | Create(p: Pid, created: bool)
    | Fill(p: Pid, filled: bool)
    | Rename(p: Pid, answer: RenameAnswer)
    | Release(p: Pid, unlinked: bool)
    | Crash(p: Pid)
    | RemoveStaleLock

  function Found(w: World, unreadable: bool): Option<Key> {
    if w.file.Valid? && !unreadable then Some(w.file.key) else None
  }

  function Content(t: Temporary): KeyFile {
    match t
    case Partial => Invalid
    case Complete(k) => Valid(k)
  }

  function Goes(w: World, p: Pid, pc: Pc): World { w.(procs := w.procs[p := pc]) }

  function Apply(w: World, step: Step): World {
    match step
    case Spawn(p) => if p in w.procs then w else Goes(w, p, Start)
    case Open(p, ioError) =>
      if !(p in w.procs && Opens(w.procs[p])) then w
      else if ioError then Goes(w, p, OnOpen(w.procs[p], OpenError))
      else if w.lock.Some? then Goes(w, p, OnOpen(w.procs[p], Exists))
      else Goes(w, p, OnOpen(w.procs[p], Opened)).(lock := Some(p))
    case Read(p, unreadable) =>
      if p in w.procs && Reads(w.procs[p]) then Goes(w, p, OnRead(w.procs[p], Found(w, unreadable))) else w
    case Mint(p, key) =>
      if p in w.procs && w.procs[p].Minting? then Goes(w, p, Creating(key)) else w
    case Create(p, created) =>
      if !(p in w.procs && w.procs[p].Creating?) then w
      else if created then Goes(w, p, Filling(w.procs[p].key)).(temporaries := w.temporaries[p := Partial])
      else Goes(w, p, Releasing(None))
    case Fill(p, filled) =>
      if !(p in w.procs && w.procs[p].Filling?) then w
      else if filled then
        Goes(w, p, Renaming(w.procs[p].key, 0)).(temporaries := w.temporaries[p := Complete(w.procs[p].key)])
      else Goes(w, p, Releasing(None)).(temporaries := w.temporaries - {p})
    case Rename(p, answer) =>
      if !(p in w.procs && w.procs[p].Renaming? && p in w.temporaries) then w
      else if answer == Renamed then
        Goes(w, p, Releasing(Some(w.procs[p].key)))
          .(file := Content(w.temporaries[p]), temporaries := w.temporaries - {p})
      else if answer == Busy && w.procs[p].attempt + 1 < RENAME_ATTEMPTS then
        Goes(w, p, Renaming(w.procs[p].key, w.procs[p].attempt + 1))
      else Goes(w, p, Releasing(None)).(temporaries := w.temporaries - {p})
    case Release(p, unlinked) =>
      if !(p in w.procs && w.procs[p].Releasing?) then w
      else
        var result := w.procs[p].result;
        Goes(w, p, if result.Some? then Done(result.value) else Failed)
          .(lock := if unlinked then None else w.lock)
    case Crash(p) =>
      if p in w.procs && !Ended(w.procs[p]) then Goes(w, p, Crashed) else w
    case RemoveStaleLock =>
      if w.lock.Some? && w.lock.value in w.procs && Holds(w.procs[w.lock.value]) then w else w.(lock := None)
  }

  /** Some earlier process may have left a key, a broken file or a stale lock behind. */
  predicate Initial(w: World) { w.procs == map[] && w.temporaries == map[] }

  function Run(w: World, steps: seq<Step>): World {
    if steps == [] then w else Apply(Run(w, steps[..|steps| - 1]), steps[|steps| - 1])
  }

  /** The one harmful fault: the lock holder finds the persisted key unreadable. */
  predicate BadRead(w: World, step: Step) {
    step.Read? && step.unreadable && w.file.Valid? && step.p in w.procs && w.procs[step.p].UnderLock?
  }

  predicate ReliableUnderLock(w: World, steps: seq<Step>) {
    steps != [] ==>
      && ReliableUnderLock(w, steps[..|steps| - 1])
      && !BadRead(Run(w, steps[..|steps| - 1]), steps[|steps| - 1])
  }

  // ---------- safety ----------

  /** What one process's position says about the shared files. */
  predicate Consistent(w: World, p: Pid, pc: Pc) {
    && (Holds(pc) ==> w.lock == Some(p))
    && (Persisting(pc) ==> !w.file.Valid?)
    && (pc.Renaming? ==> p in w.temporaries && w.temporaries[p] == Complete(pc.key))
    && (pc.Releasing? && pc.result.Some? ==> w.file == Valid(pc.result.value))
    && (pc.Done? ==> w.file == Valid(pc.key))
  }

  ghost predicate Inv(w: World) {
    forall p :: p in w.procs ==> Consistent(w, p, w.procs[p])
  }

  /** A step keeps the invariant exactly when it is not an unreadable answer to the lock holder. */
  lemma {:induction false} StepKeepsInvExactly(w: World, step: Step)
    requires Inv(w)
    ensures Inv(Apply(w, step)) <==> !BadRead(w, step)
  {
    var w' := Apply(w, step);
    if BadRead(w, step) {
      assert !Consistent(w', step.p, w'.procs[step.p]);
    } else {
      forall q | q in w'.procs ensures Consistent(w', q, w'.procs[q]) {
        if step.RemoveStaleLock? || step.p != q {
          BystanderStaysConsistent(w, step, q);
        } else {
          MoverStaysConsistent(w, step);
        }
      }
    }
  }

  lemma {:induction false} MoverStaysConsistent(w: World, step: Step)
    requires !step.RemoveStaleLock? && !BadRead(w, step) && step.p in Apply(w, step).procs
    requires step.p in w.procs ==> Consistent(w, step.p, w.procs[step.p])
    ensures Consistent(Apply(w, step), step.p, Apply(w, step).procs[step.p])
  {
  }

  lemma {:induction false} BystanderStaysConsistent(w: World, step: Step, q: Pid)
    requires q in w.procs && Consistent(w, q, w.procs[q]) && (step.RemoveStaleLock? || step.p != q)
    requires !step.RemoveStaleLock? && step.p in w.procs ==> Consistent(w, step.p, w.procs[step.p])
    ensures q in Apply(w, step).procs && Consistent(Apply(w, step), q, Apply(w, step).procs[q])
  {
  }

  /** No step replaces a persisted key. */
  lemma {:induction false} StepKeepsKey(w: World, step: Step)
    requires Inv(w) && w.file.Valid?
    ensures Apply(w, step).file == w.file
  {
    if step.Rename? && step.p in w.procs {
      assert Consistent(w, step.p, w.procs[step.p]);
    }
  }

  lemma {:induction false} RunKeepsInv(w: World, steps: seq<Step>)
    requires Inv(w) && ReliableUnderLock(w, steps)
    ensures Inv(Run(w, steps))
  {
    if steps != [] {
      RunKeepsInv(w, steps[..|steps| - 1]);
      StepKeepsInvExactly(Run(w, steps[..|steps| - 1]), steps[|steps| - 1]);
    }
  }

  /** At most one process holds the lock, in every reachable world. */
  lemma {:induction false} MutualExclusion(w: World, steps: seq<Step>, p: Pid, q: Pid)
    requires Initial(w) && ReliableUnderLock(w, steps)
    requires var r := Run(w, steps); p in r.procs && q in r.procs && Holds(r.procs[p]) && Holds(r.procs[q])
    ensures p == q
  {
    RunKeepsInv(w, steps);
    var r := Run(w, steps);
    assert Consistent(r, p, r.procs[p]) && Consistent(r, q, r.procs[q]);
  }

  /** The key file turns valid at most once: a key seen at any time is there at every later time. */
  lemma {:induction false} KeyIsPersistedOnce(w: World, steps: seq<Step>, i: nat)
    requires Initial(w) && ReliableUnderLock(w, steps) && i <= |steps|
    requires Run(w, steps[..i]).file.Valid?
    ensures Run(w, steps).file == Run(w, steps[..i]).file
    decreases |steps|
  {
    if i < |steps| {
      var init := steps[..|steps| - 1];
      assert init[..i] == steps[..i];
      KeyIsPersistedOnce(w, init, i);
      RunKeepsInv(w, init);
      StepKeepsKey(Run(w, init), steps[|steps| - 1]);
    } else {
      assert steps[..i] == steps;
    }
  }

  lemma {:induction false} DoneIsFinal(w: World, step: Step, p: Pid)
    requires p in w.procs && w.procs[p].Done?
    ensures p in Apply(w, step).procs && Apply(w, step).procs[p] == w.procs[p]
  {
  }

  lemma {:induction false} ReturnedStaysReturned(w: World, steps: seq<Step>, i: nat, p: Pid)
    requires i <= |steps|
    requires var r := Run(w, steps[..i]); p in r.procs && r.procs[p].Done?
    ensures var r := Run(w, steps); p in r.procs && r.procs[p] == Run(w, steps[..i]).procs[p]
    decreases |steps|
  {
    hide Apply;
    if i < |steps| {
      assert steps[..|steps| - 1][..i] == steps[..i];
      ReturnedStaysReturned(w, steps[..|steps| - 1], i, p);
      DoneIsFinal(Run(w, steps[..|steps| - 1]), steps[|steps| - 1], p);
    } else {
      assert steps[..i] == steps;
    }
  }

  /** Main result: processes that return, at whatever times, return the one persisted key. */
  lemma {:induction false} EveryReturnAgrees(w: World, steps: seq<Step>, i: nat, p: Pid, j: nat, q: Pid)
    requires Initial(w) && ReliableUnderLock(w, steps) && i <= |steps| && j <= |steps|
    requires var r := Run(w, steps[..i]); p in r.procs && r.procs[p].Done?
    requires var r := Run(w, steps[..j]); q in r.procs && r.procs[q].Done?
    ensures Run(w, steps[..i]).procs[p].key == Run(w, steps[..j]).procs[q].key
    ensures Run(w, steps).file == Valid(Run(w, steps[..i]).procs[p].key)
  {
    ReturnedStaysReturned(w, steps, i, p);
    ReturnedStaysReturned(w, steps, j, q);
    RunKeepsInv(w, steps);
    var r := Run(w, steps);
    assert Consistent(r, p, r.procs[p]) && Consistent(r, q, r.procs[q]);
  }

  lemma {:induction false} RunSnoc(w: World, steps: seq<Step>, i: nat)
    requires i < |steps|
    ensures Run(w, []) == w
    ensures Run(w, steps[..i + 1]) == Apply(Run(w, steps[..i]), steps[i])
  {
    assert steps[..i + 1][..i] == steps[..i];
  }

  // Process 0 returns the persisted key 1; process 1, told twice that it is unreadable, persists key 2.
  const FORK_START := World(Valid(1), None, map[], map[])
  const FORK_LOCKED := World(Valid(1), Some(1), map[], map[0 := Done(1), 1 := UnderLock])
  const FORK_FILLED := World(Valid(1), Some(1), map[1 := Complete(2)], map[0 := Done(1), 1 := Renaming(2, 0)])
  const FORK: seq<Step> :=
    [Spawn(0), Read(0, false), Spawn(1), Read(1, true), Open(1, false),
     Read(1, true), Mint(1, 2), Create(1, true), Fill(1, true), Rename(1, Renamed), Release(1, true)]

  lemma {:induction false} ForkLocks()
    ensures Run(FORK_START, FORK[..5]) == FORK_LOCKED
  {
    hide Run;
    RunSnoc(FORK_START, FORK, 0);
    RunSnoc(FORK_START, FORK, 1);
    assert Run(FORK_START, FORK[..2]).procs == map[0 := Done(1)];
    RunSnoc(FORK_START, FORK, 2);
    RunSnoc(FORK_START, FORK, 3);
    assert Run(FORK_START, FORK[..4]).procs == map[0 := Done(1), 1 := TryLock(0)];
    RunSnoc(FORK_START, FORK, 4);
  }

  lemma {:induction false} ForkFills()
    ensures Run(FORK_START, FORK[..9]) == FORK_FILLED
  {
    hide Run;
    ForkLocks();
    RunSnoc(FORK_START, FORK, 5);
    RunSnoc(FORK_START, FORK, 6);
    assert Run(FORK_START, FORK[..7]) == FORK_LOCKED.(procs := map[0 := Done(1), 1 := Creating(2)]);
    RunSnoc(FORK_START, FORK, 7);
    assert Run(FORK_START, FORK[..8]).temporaries == map[1 := Partial];
    RunSnoc(FORK_START, FORK, 8);
  }

  /** A transient read failure under the lock forks the key: two processes return different ones. */
  lemma {:induction false} UnreadableUnderLockForksKey()
    ensures Initial(FORK_START) && !ReliableUnderLock(FORK_START, FORK)
    ensures Run(FORK_START, FORK).procs == map[0 := Done(1), 1 := Done(2)]
  {
    ForkFills();
    RunSnoc(FORK_START, FORK, 9);
    assert Run(FORK_START, FORK[..10]) == World(Valid(2), Some(1), map[], map[0 := Done(1), 1 := Releasing(Some(2))]);
    RunSnoc(FORK_START, FORK, 10);
    assert FORK[..11] == FORK;
    if ReliableUnderLock(FORK_START, FORK) {
      EveryReturnAgrees(FORK_START, FORK, 11, 0, 11, 1);
      assert false;
    }
  }

  // ---------- exactly when keys fork ----------

  ghost predicate Returned(w: World, steps: seq<Step>, p: Pid) {
    var r := Run(w, steps); p in r.procs && r.procs[p].Done?
  }

  /** Whatever happens from here without an unreadable answer to the lock holder, all returned keys agree. */
  ghost predicate KeysAgreeFrom(w: World) {
    forall steps, p, q :: ReliableUnderLock(w, steps) && Returned(w, steps, p) && Returned(w, steps, q) ==>
      Run(w, steps).procs[p] == Run(w, steps).procs[q]
  }

  lemma {:induction false} InvAgrees(w: World)
    requires Inv(w)
    ensures KeysAgreeFrom(w)
  {
    forall steps, p, q | ReliableUnderLock(w, steps) && Returned(w, steps, p) && Returned(w, steps, q)
      ensures Run(w, steps).procs[p] == Run(w, steps).procs[q]
    {
      RunKeepsInv(w, steps);
      var r := Run(w, steps);
      assert Consistent(r, p, r.procs[p]) && Consistent(r, q, r.procs[q]);
    }
  }

  lemma {:induction false} FreshPid(pids: set<Pid>) returns (q: Pid)
    ensures q !in pids && forall p <- pids :: p < q
  {
    if pids == {} {
      q := 0;
    } else {
      var p :| p in pids;
      var r := FreshPid(pids - {p});
      q := if p < r then r else p + 1;
      assert forall x <- pids :: x == p || x in pids - {p};
    }
  }

  /** A new process returns the key in the file, and the minting lock holder then persists its own. */
  function ForkFrom(p: Pid, q: Pid, key: Key): seq<Step> {
    [Spawn(q), Read(q, false), Mint(p, key), Create(p, true), Fill(p, true), Rename(p, Renamed), Release(p, true)]
  }

  /** Process q has returned the key in the file and p is at the given position. */
  ghost predicate Forking(w: World, p: Pid, q: Pid, persisted: Key, pc: Pc) {
    q in w.procs && w.procs[q] == Done(persisted) && p in w.procs && w.procs[p] == pc && p != q
  }

  lemma {:induction false} NewcomerReturns(w: World, p: Pid, q: Pid)
    requires p in w.procs && w.procs[p] == Minting && q !in w.procs && w.file.Valid?
    ensures Forking(Apply(Apply(w, Spawn(q)), Read(q, false)), p, q, w.file.key, Minting)
  {
  }

  lemma {:induction false} HolderFills(w: World, p: Pid, q: Pid, persisted: Key, key: Key)
    requires Forking(w, p, q, persisted, Minting)
    ensures var w' := Apply(Apply(Apply(w, Mint(p, key)), Create(p, true)), Fill(p, true));
            Forking(w', p, q, persisted, Renaming(key, 0)) && p in w'.temporaries
  {
  }

  lemma {:induction false} HolderReturns(w: World, p: Pid, q: Pid, persisted: Key, key: Key)
    requires Forking(w, p, q, persisted, Renaming(key, 0)) && p in w.temporaries
    ensures Forking(Apply(Apply(w, Rename(p, Renamed)), Release(p, true)), p, q, persisted, Done(key))
  {
  }

  lemma {:induction false} ForkRuns(w: World, p: Pid, q: Pid, key: Key)
    requires p in w.procs && w.procs[p] == Minting && q !in w.procs && w.file.Valid?
    ensures Forking(Run(w, ForkFrom(p, q, key)), p, q, w.file.key, Done(key))
    ensures ReliableUnderLock(w, ForkFrom(p, q, key))
  {
    hide Run, ReliableUnderLock, Apply, Forking;
    var steps := ForkFrom(p, q, key);
    assert steps[..7] == steps && steps[..0] == [];
    RunSnoc(w, steps, 0);
    RunSnoc(w, steps, 1);
    RunSnoc(w, steps, 2);
    RunSnoc(w, steps, 3);
    RunSnoc(w, steps, 4);
    RunSnoc(w, steps, 5);
    RunSnoc(w, steps, 6);
    NewcomerReturns(w, p, q);
    HolderFills(Run(w, steps[..2]), p, q, w.file.key, key);
    HolderReturns(Run(w, steps[..5]), p, q, w.file.key, key);
    NoUnreadableIsReliable(w, steps);
  }

  lemma {:induction false} NoUnreadableIsReliable(w: World, steps: seq<Step>)
    requires forall step <- steps :: step.Read? ==> !step.unreadable
    ensures ReliableUnderLock(w, steps)
  {
    if steps != [] {
      NoUnreadableIsReliable(w, steps[..|steps| - 1]);
    }
  }

  /** From every good world, an unreadable answer to the lock holder, and no other step, lets keys fork. */
  lemma {:induction false} OnlyBadReadsForkKeys(w: World, step: Step)
    requires Inv(w)
    ensures KeysAgreeFrom(Apply(w, step)) <==> !BadRead(w, step)
  {
    hide KeysAgreeFrom, Inv;
    StepKeepsInvExactly(w, step);
    var w' := Apply(w, step);
    if BadRead(w, step) {
      var q := FreshPid(w'.procs.Keys);
      ForkRuns(w', step.p, q, w.file.key + 1);
      DisagreementMeans(w', ForkFrom(step.p, q, w.file.key + 1), step.p, q);
    } else {
      InvAgrees(w');
    }
  }

  lemma {:induction false} DisagreementMeans(w: World, steps: seq<Step>, p: Pid, q: Pid)
    requires ReliableUnderLock(w, steps) && Returned(w, steps, p) && Returned(w, steps, q)
    requires Run(w, steps).procs[p] != Run(w, steps).procs[q]
    ensures !KeysAgreeFrom(w)
  {
  }

  /**
   Main result for every run: no world it passes through lets keys fork exactly when the lock holder
   never finds a persisted key unreadable.
   */
  lemma {:induction false} KeysAgreeExactlyWhenReliable(w: World, steps: seq<Step>)
    requires Initial(w)
    ensures ReliableUnderLock(w, steps) <==> forall i :: 0 <= i <= |steps| ==> KeysAgreeFrom(Run(w, steps[..i]))
  {
    hide KeysAgreeFrom, Apply, BadRead;
    if steps == [] {
      InvAgrees(w);
      assert Run(w, steps[..0]) == w;
    } else {
      var init, last := steps[..|steps| - 1], steps[|steps| - 1];
      KeysAgreeExactlyWhenReliable(w, init);
      assert forall i :: 0 <= i <= |init| ==> steps[..i] == init[..i];
      assert steps[..|steps|] == steps;
      if ReliableUnderLock(w, init) {
        RunKeepsInv(w, init);
        OnlyBadReadsForkKeys(Run(w, init), last);
      }
    }
  }

  // ---------- every process ends ----------

  /** One step moves at most one process, and moves it strictly closer to its end. */
  lemma {:induction false} StepsLowerRank(w: World, step: Step, p: Pid)
    requires p in w.procs
    ensures p in Apply(w, step).procs
    ensures var pc := Apply(w, step).procs[p]; pc == w.procs[p] || Rank(pc) < Rank(w.procs[p])
    ensures Apply(w, step).procs[p] != w.procs[p] ==> !step.RemoveStaleLock? && step.p == p
  {
    if !step.RemoveStaleLock? && step.p == p {
      OwnStepLowersRank(w, step);
    }
  }

  lemma {:induction false} OwnStepLowersRank(w: World, step: Step)
    requires !step.RemoveStaleLock? && step.p in w.procs
    ensures step.p in Apply(w, step).procs
    ensures var pc := Apply(w, step).procs[step.p]; pc == w.procs[step.p] || Rank(pc) < Rank(w.procs[step.p])
  {
  }

  /** How many steps of a run moved process `p` after it started. */
  function Moves(w: World, steps: seq<Step>, p: Pid): nat {
    if steps == [] then 0
    else
      var before, after := Run(w, steps[..|steps| - 1]), Run(w, steps);
      Moves(w, steps[..|steps| - 1], p) + if p in before.procs && before.procs[p] != after.procs[p] then 1 else 0
  }

  /** Every process ends within 114 steps of its own, whatever the others do. */
  lemma {:induction false} OwnStepsAreBounded(w: World, steps: seq<Step>, p: Pid)
    requires p !in w.procs
    ensures Moves(w, steps, p) + (if p in Run(w, steps).procs then Rank(Run(w, steps).procs[p]) else Rank(Start))
         <= Rank(Start) == 114
  {
    if steps != [] {
      hide Rank;
      var before := Run(w, steps[..|steps| - 1]);
      OwnStepsAreBounded(w, steps[..|steps| - 1], p);
      if p in before.procs {
        StepsLowerRank(before, steps[|steps| - 1], p);
      }
    }
  }
}
