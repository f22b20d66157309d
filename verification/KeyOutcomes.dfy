/**
 How a process of the key election ends, read off what its own file operations met: a key in the file,
 a key of its own persisted, or trouble. And what the lock file's life is: it goes with its holder,
 a crash leaves it behind, and once it is removed a new process returns a key.
 */
module KeyOutcomes {
  import opened Prelude
  import opened KeyElection

  // ---------- what a process has met ----------

  /** `refusals` counts opens that found the lock taken, `busies` renames that found the file busy. */
  datatype Log = Log(refusals: nat, busies: nat, minted: Option<Key>, learned: Option<Key>, troubled: bool)

  const NOTHING := Log(0, 0, None, None, false)

  /** One step, as process `p` sees it in world `w`. */
  function Logged(log: Log, w: World, step: Step, p: Pid): Log {
    if p !in w.procs || step.RemoveStaleLock? || step.p != p then log
    else
      var pc := w.procs[p];
      match step
      case Open(_, ioError) =>
        if !Opens(pc) then log
        else if ioError then log.(troubled := true)
        else if w.lock.Some? then log.(refusals := log.refusals + 1)
        else log
      case Read(_, unreadable) =>
        if !Reads(pc) then log
        else if w.file.Valid? && !unreadable then log.(learned := Some(w.file.key))
        else if log.refusals == LOCK_ATTEMPTS + 1 then log.(troubled := true)
        else log
      case Mint(_, key) => if pc.Minting? then log.(minted := Some(key)) else log
      case Create(_, created) => if pc.Creating? && !created then log.(troubled := true) else log
      case Fill(_, filled) => if pc.Filling? && !filled then log.(troubled := true) else log
      case Rename(_, answer) =>
        if !pc.Renaming? then log
        else if answer == Renamed then log.(learned := log.minted)
        else if answer == Busy && log.busies + 1 < RENAME_ATTEMPTS then log.(busies := log.busies + 1)
        else log.(troubled := true)
      case _ => log
  }

  function Met(w: World, steps: seq<Step>, p: Pid): Log {
    if steps == [] then NOTHING
    else Logged(Met(w, steps[..|steps| - 1], p), Run(w, steps[..|steps| - 1]), steps[|steps| - 1], p)
  }

  /** Where a process stands says what it has met, and the other way round. */
  predicate Stands(w: World, p: Pid, log: Log) {
    if p !in w.procs then log == NOTHING
    else
      match w.procs[p]
      case Start => log == NOTHING
      case TryLock(a) => a < LOCK_ATTEMPTS && log == NOTHING.(refusals := a)
      case Recheck(a) => a < LOCK_ATTEMPTS && log == NOTHING.(refusals := a + 1)
      case FinalRead => log == NOTHING.(refusals := LOCK_ATTEMPTS)
      case FinalTry => log == NOTHING.(refusals := LOCK_ATTEMPTS)
      case LateRead => log == NOTHING.(refusals := LOCK_ATTEMPTS + 1)
      case UnderLock => log.refusals <= LOCK_ATTEMPTS && log == NOTHING.(refusals := log.refusals)
      case Minting => log == NOTHING.(refusals := log.refusals)
      case Creating(k) => log == NOTHING.(refusals := log.refusals, minted := Some(k))
      case Filling(k) => log == NOTHING.(refusals := log.refusals, minted := Some(k))
      case Renaming(k, a) =>
        && a < RENAME_ATTEMPTS && p in w.temporaries
        && log == NOTHING.(refusals := log.refusals, minted := Some(k), busies := a)
      case Releasing(result) => log.learned == result && log.troubled == result.None?
      case Done(k) => log.learned == Some(k) && !log.troubled
      case Failed => log.learned == None && log.troubled
      case Crashed => true
  }

  lemma {:induction false} OwnStepStands(w: World, step: Step, log: Log)
    requires !step.RemoveStaleLock? && Stands(w, step.p, log)
    ensures Stands(Apply(w, step), step.p, Logged(log, w, step, step.p))
  {
  }

  lemma {:induction false} OtherStepStands(w: World, step: Step, p: Pid, log: Log)
    requires (step.RemoveStaleLock? || step.p != p) && Stands(w, p, log)
    ensures Stands(Apply(w, step), p, log)
  {
  }

  lemma {:induction false} RunStands(w: World, steps: seq<Step>, p: Pid)
    requires p !in w.procs
    ensures Stands(Run(w, steps), p, Met(w, steps, p))
  {
    if steps != [] {
      hide Apply, Stands, Logged;
      var init, step := steps[..|steps| - 1], steps[|steps| - 1];
      RunStands(w, init, p);
      if step.RemoveStaleLock? || step.p != p {
        OtherStepStands(Run(w, init), step, p, Met(w, init, p));
        OthersAreNotMet(Met(w, init, p), Run(w, init), step, p);
      } else {
        OwnStepStands(Run(w, init), step, Met(w, init, p));
      }
    } else {
      NothingMet(w, p);
    }
  }

  lemma {:induction false} OthersAreNotMet(log: Log, w: World, step: Step, p: Pid)
    requires step.RemoveStaleLock? || step.p != p
    ensures Logged(log, w, step, p) == log
  {
  }

  lemma {:induction false} NothingMet(w: World, p: Pid)
    requires p !in w.procs
    ensures Stands(w, p, NOTHING)
  {
  }

  /**
   Main result for one process in every run: one that ends without a crash either met a key, in the file
   or as its own persisted one, and returns that key, or met trouble and fails; never both.
   */
  lemma {:induction false} EndsAsItMet(w: World, steps: seq<Step>, p: Pid)
    requires p !in w.procs
    requires var r := Run(w, steps); p in r.procs && Ended(r.procs[p]) && !r.procs[p].Crashed?
    ensures var log, pc := Met(w, steps, p), Run(w, steps).procs[p];
            && log.troubled == log.learned.None?
            && pc == match log.learned case Some(k) => Done(k) case None => Failed
  {
    hide Run, Met;
    RunStands(w, steps, p);
  }

  /** A process past a reliable read of this key: it will return the key unless it crashes. */
  predicate Knows(w: World, p: Pid, key: Key) {
    p in w.procs && (w.procs[p] == Done(key) || w.procs[p] == Releasing(Some(key)) || w.procs[p].Crashed?)
  }

  lemma {:induction false} StepKeepsKnowing(w: World, step: Step, p: Pid, key: Key)
    requires Knows(w, p, key)
    ensures Knows(Apply(w, step), p, key)
  {
  }

  lemma {:induction false} RunKeepsKnowing(w: World, steps: seq<Step>, p: Pid, key: Key)
    requires Knows(w, p, key)
    ensures Knows(Run(w, steps), p, key)
  {
    if steps != [] {
      hide Apply, Knows;
      RunKeepsKnowing(w, steps[..|steps| - 1], p, key);
      StepKeepsKnowing(Run(w, steps[..|steps| - 1]), steps[|steps| - 1], p, key);
    }
  }

  lemma {:induction false} ReadersKnow(w: World, p: Pid)
    requires p in w.procs && Reads(w.procs[p]) && w.file.Valid?
    ensures Knows(Apply(w, Read(p, false)), p, w.file.key)
  {
  }

  lemma {:induction false} RunInParts(w: World, steps: seq<Step>, k: nat)
    requires k <= |steps|
    ensures Run(w, steps) == Run(Run(w, steps[..k]), steps[k..])
    decreases |steps|
  {
    if k < |steps| {
      var init := steps[..|steps| - 1];
      assert init[..k] == steps[..k] && steps[k..][..|steps| - 1 - k] == init[k..];
      RunInParts(w, init, k);
    } else {
      assert steps[..k] == steps && steps[k..] == [];
    }
  }

  /** Whoever finds a readable key, at whichever of its reads, returns that key unless it crashes. */
  lemma {:induction false} ReadKeyIsReturned(w: World, steps: seq<Step>, i: nat, p: Pid)
    requires i < |steps| && steps[i] == Read(p, false)
    requires var r := Run(w, steps[..i]); p in r.procs && Reads(r.procs[p]) && r.file.Valid?
    requires var r := Run(w, steps); p in r.procs ==> Ended(r.procs[p]) && !r.procs[p].Crashed?
    ensures p in Run(w, steps).procs && Run(w, steps).procs[p] == Done(Run(w, steps[..i]).file.key)
  {
    hide Run, Apply;
    ReadersKnow(Run(w, steps[..i]), p);
    RunSnoc(w, steps, i);
    RunInParts(w, steps, i + 1);
    RunKeepsKnowing(Run(w, steps[..i + 1]), steps[i + 1..], p, Run(w, steps[..i]).file.key);
  }

  /** The next file operation of process `p`, if all goes well with it. */
  function NextStep(p: Pid, pc: Pc, key: Key): Step {
    match pc
    case TryLock(_) => Open(p, false)
    case FinalTry => Open(p, false)
    case Minting => Mint(p, key)
    case Creating(_) => Create(p, true)
    case Filling(_) => Fill(p, true)
    case Renaming(_, _) => Rename(p, Renamed)
    case Releasing(_) => Release(p, true)
    case _ => Read(p, false)
  }

  lemma {:induction false} NextStepMoves(w: World, p: Pid, key: Key, log: Log)
    requires p in w.procs && !Ended(w.procs[p]) && Stands(w, p, log)
    ensures var pc := Apply(w, NextStep(p, w.procs[p], key)).procs[p];
            pc != w.procs[p] && !pc.Crashed?
  {
  }

  /** No process waits for another: left alone at any point of any run, it ends. */
  lemma {:induction false} EndsLeftAlone(w: World, p: Pid, key: Key, log: Log) returns (steps: seq<Step>)
    requires p in w.procs && !w.procs[p].Crashed? && Stands(w, p, log)
    ensures |steps| <= Rank(w.procs[p])
    ensures var r := Run(w, steps); p in r.procs && Ended(r.procs[p]) && !r.procs[p].Crashed?
    decreases Rank(w.procs[p])
  {
    if Ended(w.procs[p]) {
      steps := [];
    } else {
      hide Apply, Stands, Logged, Rank, Run;
      var step := NextStep(p, w.procs[p], key);
      NextStepMoves(w, p, key, log);
      StepsLowerRank(w, step, p);
      OwnStepStands(w, step, log);
      var rest := EndsLeftAlone(Apply(w, step), p, key, Logged(log, w, step, p));
      steps := [step] + rest;
      RunInParts(w, steps, 1);
      assert steps[..1] == [step] && steps[1..] == rest && [step][..0] == [];
      RunSnoc(w, [step], 0);
    }
  }

  // ---------- the life of the lock file ----------

  /** The lock's creator still holds it, or crashed, or could not remove it. */
  predicate Accounted(w: World, steps: seq<Step>) {
    w.lock.Some? ==>
      var p := w.lock.value;
      p in w.procs && (Holds(w.procs[p]) || w.procs[p].Crashed? || Release(p, false) in steps)
  }

  lemma {:induction false} StepKeepsAccounted(w: World, steps: seq<Step>, step: Step)
    requires Accounted(w, steps)
    ensures Accounted(Apply(w, step), steps + [step])
  {
    assert forall s <- steps :: s in steps + [step];
    assert step in steps + [step];
  }

  /** Where no lock lay at first, only crashes and failed removals leave one behind. */
  lemma {:induction false} OnlyFaultsLeaveLocks(w: World, steps: seq<Step>)
    requires w.lock == None
    ensures Accounted(Run(w, steps), steps)
  {
    if steps != [] {
      hide Apply, Accounted;
      var init := steps[..|steps| - 1];
      OnlyFaultsLeaveLocks(w, init);
      assert steps == init + [steps[|init|]];
      StepKeepsAccounted(Run(w, init), init, steps[|init|]);
    } else {
      assert Accounted(w, []);
    }
  }

  /** Temporary files belong to processes that still need them, or crashed with them. */
  predicate Tidy(w: World) {
    forall p <- w.temporaries ::
      p in w.procs && (w.procs[p].Filling? || w.procs[p].Renaming? || w.procs[p].Crashed?)
  }

  lemma {:induction false} StepKeepsTidy(w: World, step: Step)
    requires Tidy(w)
    ensures Tidy(Apply(w, step))
  {
    var w' := Apply(w, step);
    forall p | p in w'.temporaries
      ensures p in w'.procs && (w'.procs[p].Filling? || w'.procs[p].Renaming? || w'.procs[p].Crashed?)
    {
      assert p in w.temporaries || (!step.RemoveStaleLock? && step.p == p);
    }
  }

  /** Only crashes leave temporary files behind, whatever fails. */
  lemma {:induction false} OnlyCrashesLeaveTemporaries(w: World, steps: seq<Step>)
    requires w.temporaries == map[]
    ensures Tidy(Run(w, steps))
  {
    if steps != [] {
      hide Apply, Tidy;
      OnlyCrashesLeaveTemporaries(w, steps[..|steps| - 1]);
      StepKeepsTidy(Run(w, steps[..|steps| - 1]), steps[|steps| - 1]);
    }
  }

  lemma {:induction false} StaleLockStaysOneStep(w: World, step: Step, p: Pid)
    requires Inv(w) && w.lock == Some(p) && p in w.procs && w.procs[p].Crashed? && !step.RemoveStaleLock?
    ensures Apply(w, step).lock == Some(p) && p in Apply(w, step).procs && Apply(w, step).procs[p].Crashed?
  {
    if step.p in w.procs {
      assert Consistent(w, step.p, w.procs[step.p]);
    }
  }

  /** A crash with the lock leaves it in everybody's way until it is removed by hand. */
  lemma {:induction false} CrashLeavesLock(w: World, p: Pid, steps: seq<Step>)
    requires Inv(w) && p in w.procs && Holds(w.procs[p])
    requires forall step <- steps :: !step.RemoveStaleLock?
    requires ReliableUnderLock(Apply(w, Crash(p)), steps)
    ensures var r := Run(Apply(w, Crash(p)), steps);
            r.lock == Some(p) && p in r.procs && r.procs[p].Crashed?
  {
    var crashed := Apply(w, Crash(p));
    if steps == [] {
      assert Consistent(w, p, w.procs[p]);
    } else {
      hide Apply, Inv;
      StepKeepsInvExactly(w, Crash(p));
      CrashLeavesLock(w, p, steps[..|steps| - 1]);
      RunKeepsInv(crashed, steps[..|steps| - 1]);
      StaleLockStaysOneStep(Run(crashed, steps[..|steps| - 1]), steps[|steps| - 1], p);
    }
  }

  // ---------- recovery ----------

  /** A new process alone, after an operator looked at the lock. */
  function Restart(p: Pid, key: Key): seq<Step> {
    [RemoveStaleLock, Spawn(p), Read(p, false), Open(p, false), Read(p, false),
     Mint(p, key), Create(p, true), Fill(p, true), Rename(p, Renamed), Release(p, true)]
  }

  predicate NobodyHolds(w: World) {
    w.lock.Some? && w.lock.value in w.procs ==> !Holds(w.procs[w.lock.value])
  }

  lemma {:induction false} NewcomerGetsLock(w: World, p: Pid)
    requires p !in w.procs && NobodyHolds(w) && !w.file.Valid?
    ensures var w' := Apply(Apply(Apply(Apply(w, RemoveStaleLock), Spawn(p)), Read(p, false)), Open(p, false));
            && w'.lock == Some(p) && p in w'.procs && w'.procs[p] == UnderLock && w'.file == w.file
  {
  }

  lemma {:induction false} HolderFillsKey(w: World, p: Pid, key: Key)
    requires w.lock == Some(p) && p in w.procs && w.procs[p] == UnderLock && !w.file.Valid?
    ensures var w' := Apply(Apply(Apply(Apply(w, Read(p, false)), Mint(p, key)), Create(p, true)), Fill(p, true));
            && p in w'.procs && w'.procs[p] == Renaming(key, 0)
            && p in w'.temporaries && w'.temporaries[p] == Complete(key)
  {
  }

  lemma {:induction false} HolderPersists(w: World, p: Pid, key: Key)
    requires p in w.procs && w.procs[p] == Renaming(key, 0)
    requires p in w.temporaries && w.temporaries[p] == Complete(key)
    ensures var w' := Apply(Apply(w, Rename(p, Renamed)), Release(p, true));
            && w'.file == Valid(key) && w'.lock == None && p in w'.procs && w'.procs[p] == Done(key)
            && p !in w'.temporaries
  {
  }

  /** From every world nobody holds the lock in, however it came about, a new process persists a key. */
  lemma {:induction false} RestartPersists(w: World, p: Pid, key: Key)
    requires p !in w.procs && NobodyHolds(w) && !w.file.Valid?
    ensures var r := Run(w, Restart(p, key));
            r.file == Valid(key) && r.lock == None && p in r.procs && r.procs[p] == Done(key)
  {
    hide Run, Apply;
    var steps := Restart(p, key);
    assert steps[..10] == steps && steps[..0] == [];
    RunSnoc(w, steps, 0);
    RunSnoc(w, steps, 1);
    RunSnoc(w, steps, 2);
    RunSnoc(w, steps, 3);
    NewcomerGetsLock(w, p);
    RunSnoc(w, steps, 4);
    RunSnoc(w, steps, 5);
    RunSnoc(w, steps, 6);
    RunSnoc(w, steps, 7);
    HolderFillsKey(Run(w, steps[..4]), p, key);
    RunSnoc(w, steps, 8);
    RunSnoc(w, steps, 9);
    HolderPersists(Run(w, steps[..8]), p, key);
  }
}
