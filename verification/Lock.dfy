/** The operations on a lock, step by step, among other processes that act at any time in
    between (newLock, checkForOtherLocks, Refresh, RefreshStaleLock, Unlock).

    Each access to the store is a step of the lock protocol, so that every run of these
    methods is one of the protocol's runs. */
module Lock {
  import opened Repository
  import opened LockProtocol

  datatype CheckResult = Passed | AlreadyLocked | CannotLoad

  lemma {:induction false} RunAppend(s: State, steps: seq<Step>, step: Step)
    requires Runs(s, steps) && Enabled(Run(s, steps), step)
    ensures Runs(s, steps + [step]) && Run(s, steps + [step]) == Apply(Run(s, steps), step)
    decreases |steps|
  {
    hide Enabled, Apply;
    if steps == [] {
      assert Runs(Apply(s, step), []);
    } else {
      RunAppend(Apply(s, steps[0]), steps[1..], step);
      assert (steps + [step])[1..] == steps[1..] + [step];
    }
  }

  /** Other processes have acted, and time may have passed. */
  ghost predicate OthersActed(s: State, t: State, p: Pid) {
    && (p in s.procs <==> p in t.procs) && (p in s.procs ==> t.procs[p] == s.procs[p])
    && (forall id :: id in s.files ==> id in t.files && t.files[id] == s.files[id])
    && s.now <= t.now && (p in s.late <==> p in t.late)
  }

  lemma OtherStep(s: State, step: Step, p: Pid)
    requires Enabled(s, step) && (step.Start? || step.Act? ==> step.p != p)
    ensures OthersActed(s, Apply(s, step), p)
  {
    TimePasses(s, step);
    if step.Start? || step.Act? {
      hide Effect, Enabled;
      StepMoves(s, step);
    }
  }

  lemma TimePasses(s: State, step: Step)
    requires Enabled(s, step)
    ensures s.now <= Apply(s, step).now
    ensures forall q :: (step.Start? || step.Act? ==> step.p != q) ==> (q in s.late <==> q in Apply(s, step).late)
    ensures !(step.Act? && step.action.RefreshCreate?) ==> Apply(s, step).late == s.late
  {
  }

  lemma OtherSteps(s: State, t: State, u: State, p: Pid)
    requires OthersActed(s, t, p) && OthersActed(t, u, p)
    ensures OthersActed(s, u, p)
  {
  }

  // ----- What the steps of a check do -----

  ghost predicate CheckAt(s: State, p: Pid, c: Check) {
    p in s.procs && InCheck(s.procs[p]) && CheckOf(s.procs[p]) == c
  }

  lemma ListEffect(s: State, p: Pid, c: Check)
    requires CheckAt(s, p, c) && c.Listing?
    ensures Enabled(s, Act(p, List))
    ensures var t := Apply(s, Act(p, List));
      && p in t.procs && t.procs[p] == Continue(s.procs[p], Loading(s.store - c.checked, c.checked, c.tries)) &&
        t.files == s.files
  {
  }

  lemma LoadEffect(s: State, p: Pid, c: Check, id: FileId)
    requires CheckAt(s, p, c) && c.Loading? && id in c.toLoad
    ensures Enabled(s, Act(p, LoadFail))
    ensures var t := Apply(s, Act(p, LoadFail));
      && p in t.procs && t.files == s.files
      && t.procs[p] == if c.tries + 1 < MAX_TRIES then Continue(s.procs[p], Listing(c.newChecked, c.tries + 1))
        else GiveUp(s.procs[p])
    ensures id in s.store && id in s.files ==>
      && Enabled(s, Act(p, LoadOk(id)))
      && var t := Apply(s, Act(p, LoadOk(id)));
      && p in t.procs && t.files == s.files
      && t.procs[p] == if Conflict(s.procs[p].excl, s.files[id].excl) then GiveUp(s.procs[p])
                       else Continue(s.procs[p], Loading(c.toLoad - {id}, c.newChecked + {id}, c.tries))
  {
  }

  lemma PassEffect(s: State, p: Pid, c: Check)
    requires CheckAt(s, p, c) && c.Loading? && c.toLoad == {}
    ensures Enabled(s, Act(p, Pass))
    ensures var t := Apply(s, Act(p, Pass));
      && p in t.procs && t.files == s.files
      && t.procs[p] == s.procs[p].(phase := if s.procs[p].phase.FirstCheck? then Creating else Holding)
  {
  }

  // ----- What the other steps do -----

  lemma StartEffect(s: State, p: Pid, excl: bool)
    requires p !in s.procs
    ensures Enabled(s, Start(p, excl))
    ensures var t := Apply(s, Start(p, excl));
      p in t.procs && t.procs[p] == Proc(excl, FirstCheck(Listing({}, 0)), s.now, 0) && t.files == s.files
  {
  }

  ghost predicate PhaseIs(s: State, p: Pid, phase: Phase) {
    p in s.procs && s.procs[p].phase == phase
  }

  /** A step by which a process creates a file. */
  ghost predicate Creates(s: State, t: State, p: Pid, id: FileId) {
    && p in s.procs && p in t.procs && id !in s.files && t.now == s.now
    && t.files == s.files[id := LockFile(p, s.procs[p].excl, s.procs[p].time)]
  }

  lemma CreateEffect(s: State, p: Pid, id: FileId)
    requires PhaseIs(s, p, Creating) && Fresh(s, id)
    ensures Enabled(s, Act(p, Create(id))) && Enabled(s, Act(p, CreateFail))
    ensures var t := Apply(s, Act(p, Create(id)));
      Creates(s, t, p, id) && t.procs[p] == s.procs[p].(cur := id, phase := SecondCheck(Listing({id}, 0)))
    ensures var t := Apply(s, Act(p, CreateFail));
      p in t.procs && t.procs[p] == s.procs[p].(phase := Finished) && t.files == s.files
  {
  }

  lemma UnlockEffect(s: State, p: Pid, ok: bool)
    requires p in s.procs
    ensures s.procs[p].phase.Holding? ==>
      && Enabled(s, Act(p, LockProtocol.Unlock))
      && var t := Apply(s, Act(p, LockProtocol.Unlock));
      p in t.procs && t.procs[p] == s.procs[p].(phase := Unlocking) && t.files == s.files
    ensures s.procs[p].phase.Unlocking? ==>
      && Enabled(s, Act(p, UnlockRemove(ok)))
      && var t := Apply(s, Act(p, UnlockRemove(ok)));
      p in t.procs && t.procs[p] == s.procs[p].(phase := Finished) && t.files == s.files &&
        (ok ==> s.procs[p].cur !in t.store)
  {
  }

  lemma RefreshStartEffect(s: State, p: Pid)
    requires PhaseIs(s, p, Holding)
    ensures Enabled(s, Act(p, RefreshStart))
    ensures var t := Apply(s, Act(p, RefreshStart));
      p in t.procs && t.procs[p] == s.procs[p].(phase := Refreshing, time := s.now) && t.files == s.files &&
        t.now == s.now
  {
  }

  lemma RefreshCreateEffect(s: State, p: Pid, id: FileId)
    requires PhaseIs(s, p, Refreshing) && Fresh(s, id)
    ensures Enabled(s, Act(p, RefreshCreate(id))) && Enabled(s, Act(p, RefreshFail))
    ensures var t := Apply(s, Act(p, RefreshCreate(id)));
      && Creates(s, t, p, id) && t.procs[p] == s.procs[p].(cur := id, phase := Replaced(s.procs[p].cur))
      && (s.procs[p].cur in s.files && !Stale(s, s.procs[p].cur) ==> t.late == s.late)
    ensures var t := Apply(s, Act(p, RefreshFail));
      p in t.procs && t.procs[p] == s.procs[p].(phase := Holding) && t.files == s.files
  {
  }

  lemma RemoveOldEffect(s: State, p: Pid, ok: bool)
    requires p in s.procs && s.procs[p].phase.Replaced?
    ensures Enabled(s, Act(p, RemoveOld(ok)))
    ensures var t := Apply(s, Act(p, RemoveOld(ok)));
      && p in t.procs && t.procs[p] == s.procs[p].(phase := Holding) && t.files == s.files
      && (ok ==> s.procs[p].phase.prev !in t.store)
  {
  }

  lemma StaleStartEffect(s: State, p: Pid)
    requires PhaseIs(s, p, Holding)
    ensures Enabled(s, Act(p, StaleStart))
    ensures var t := Apply(s, Act(p, StaleStart));
      p in t.procs && t.procs[p] == s.procs[p].(phase := StaleCheck) && t.files == s.files
  {
  }

  lemma StaleExistsEffect(s: State, p: Pid)
    requires PhaseIs(s, p, StaleCheck)
    ensures Enabled(s, Act(p, StaleExists))
    ensures var t := Apply(s, Act(p, StaleExists));
      && p in t.procs && t.files == s.files && t.now == s.now
      && t.procs[p] == if s.procs[p].cur in s.store then s.procs[p].(phase := StaleCreating, time := s.now)
                       else s.procs[p].(phase := Unlocking)
  {
  }

  lemma StaleCreateEffect(s: State, p: Pid, id: FileId)
    requires PhaseIs(s, p, StaleCreating) && Fresh(s, id)
    ensures Enabled(s, Act(p, StaleCreate(id))) && Enabled(s, Act(p, StaleCreateFail))
    ensures var t := Apply(s, Act(p, StaleCreate(id)));
      Creates(s, t, p, id) && t.procs[p] == s.procs[p].(phase := StaleWaiting(id))
    ensures var t := Apply(s, Act(p, StaleCreateFail));
      p in t.procs && t.procs[p] == s.procs[p].(phase := Unlocking) && t.files == s.files
  {
  }

  lemma StaleRecheckEffect(s: State, p: Pid, id: FileId, listed: bool)
    requires PhaseIs(s, p, StaleWaiting(id))
    ensures Enabled(s, Act(p, StaleRecheck(listed)))
    ensures var t := Apply(s, Act(p, StaleRecheck(listed)));
      && p in t.procs && t.files == s.files && t.now == s.now
      && t.procs[p] == if listed && s.procs[p].cur in s.store then
        s.procs[p].(cur := id, phase := StaleReplaced(s.procs[p].cur))
                       else s.procs[p].(phase := StaleCleanup(id))
  {
  }

  lemma CleanUpEffect(s: State, p: Pid, ok: bool)
    requires p in s.procs && s.procs[p].phase.StaleCleanup?
    ensures Enabled(s, Act(p, CleanUp(ok)))
    ensures var t := Apply(s, Act(p, CleanUp(ok)));
      p in t.procs && t.procs[p] == s.procs[p].(phase := Unlocking) && t.files == s.files
  {
  }

  lemma StaleRemoveOldEffect(s: State, p: Pid, ok: bool)
    requires p in s.procs && s.procs[p].phase.StaleReplaced?
    ensures Enabled(s, Act(p, StaleRemoveOld(ok)))
    ensures var t := Apply(s, Act(p, StaleRemoveOld(ok)));
      && p in t.procs && t.procs[p] == s.procs[p].(phase := if ok then Holding else Unlocking) && t.files == s.files
      && t.now == s.now
  {
  }

  /** No other process that always had a file holds a conflicting lock. */
  ghost predicate Alone(s: State, p: Pid) {
    forall q :: q in s.procs && q != p && Holds(s.procs[q]) && q !in s.lost && p in s.procs ==>
      !s.procs[p].excl && !s.procs[q].excl
  }

  /** No file of the process is left but those that it could not remove. */
  ghost predicate NothingLeft(s: State, p: Pid) {
    forall id :: id in s.store && Owns(s, p, id) ==> id in s.litter
  }

  /** Lock files are added and never change. */
  ghost predicate FilesGrow(s: State, t: State) {
    forall id :: id in s.files ==> id in t.files && t.files[id] == s.files[id]
  }

  /** The repository with everybody who uses it. */
  class World {
    var s: State
    ghost var steps: seq<Step>

    ghost predicate Valid()
      reads this
    {
      Runs(EMPTY, steps) && s == Run(EMPTY, steps)
    }

    constructor ()
      ensures Valid()
    {
      s, steps := EMPTY, [];
    }

    method Do(step: Step)
      requires Valid() && Enabled(s, step)
      modifies this
      ensures Valid() && s == Apply(old(s), step)
      ensures old(s.now) <= s.now && (!(step.Act? && step.action.RefreshCreate?) ==> s.late == old(s.late))
    {
      hide Enabled, Apply;
      TimePasses(s, step);
      RunAppend(EMPTY, steps, step);
      s, steps := Apply(s, step), steps + [step];
    }

    /** Other processes do whatever they can, and any time passes. */
    method Others(p: Pid)
      requires Valid()
      modifies this
      ensures Valid() && OthersActed(old(s), s, p)
    {
      hide Enabled, Apply, Runs, Run;
      var next: seq<Step> := *;
      for i := 0 to |next|
        invariant Valid() && OthersActed(old(s), s, p)
      {
        var step := next[i];
        if Enabled(s, step) && (step.Start? || step.Act? ==> step.p != p) {
          OtherStep(s, step, p);
          OtherSteps(old(s), s, Apply(s, step), p);
          Do(step);
        }
      }
    }

    /** The id of a file with new content. */
    method NewId() returns (id: FileId)
      ensures Fresh(s, id)
    {
      id := 0;
      var ids := s.files.Keys;
      while ids != {}
        invariant ids <= s.files.Keys
        invariant forall x :: x in s.files && x !in ids ==> x < id
      {
        var x :| x in ids;
        ids := ids - {x};
        if id <= x {
          id := x + 1;
        }
      }
    }

    /** What always holds of the lock files. */
    lemma StoreListed()
      requires Valid()
      ensures s.store <= s.files.Keys
    {
      RunInv(EMPTY, steps);
    }
  }

  lemma NewIsNotLate(steps: seq<Step>, p: Pid)
    requires Runs(EMPTY, steps) && p !in Run(EMPTY, steps).procs
    ensures p !in Run(EMPTY, steps).late
  {
    RunContInv(EMPTY, steps);
  }

  lemma HolderIsAlone(steps: seq<Step>, p: Pid)
    requires Runs(EMPTY, steps) && p in Run(EMPTY, steps).procs && Holds(Run(EMPTY, steps).procs[p]) &&
      p !in Run(EMPTY, steps).lost
    ensures Alone(Run(EMPTY, steps), p)
  {
    var s := Run(EMPTY, steps);
    forall q | q in s.procs && q != p && Holds(s.procs[q]) && q !in s.lost
      ensures !s.procs[p].excl && !s.procs[q].excl
    {
      ContinuousHoldersExclude(steps, p, q);
    }
  }

  lemma FinishedLeavesNothing(steps: seq<Step>, p: Pid)
    requires Runs(EMPTY, steps) && PhaseIs(Run(EMPTY, steps), p, Finished)
    ensures NothingLeft(Run(EMPTY, steps), p)
  {
    var s := Run(EMPTY, steps);
    forall id | id in s.store && Owns(s, p, id)
      ensures id in s.litter
    {
      if id !in s.litter {
        NothingLeftBehind(steps, p, id);
      }
    }
  }

  /** newLock: checks, creates a file, waits and checks again. */
  method NewLock(w: World, pid: Pid, exclusive: bool) returns (r: CheckResult, lock: Lock)
    requires w.Valid() && pid !in w.s.procs
    modifies w
    ensures w.Valid() && fresh(lock) && lock.pid == pid && lock.exclusive == exclusive
    ensures r.Passed? ==> lock.In(w.s, Holding) && lock.lockID.Some?
    ensures r.Passed? && (pid !in w.s.lost || !Stale(w.s, lock.lockID.value)) ==> Alone(w.s, pid)
    ensures pid !in w.s.late
    ensures !r.Passed? ==> PhaseIs(w.s, pid, Finished) && NothingLeft(w.s, pid)
  {
    hide Enabled, Apply, Runs, Run, Alone, NothingLeft;
    NewIsNotLate(w.steps, pid);
    lock := new Lock(pid, exclusive, w.s.now);
    StartEffect(w.s, pid, exclusive);
    w.Do(Start(pid, exclusive));
    var checked, listed, tries;
    r, checked, listed, tries := lock.CheckForOtherLocks(w);
    if !r.Passed? {
      FinishedLeavesNothing(w.steps, pid);
      return;
    }
    w.Others(pid);
    var created := lock.CreateFirst(w);
    if !created {
      FinishedLeavesNothing(w.steps, pid);
      r := CannotLoad;
      return;
    }
    // the wait before the second check
    w.Others(pid);
    r, checked, listed, tries := lock.CheckForOtherLocks(w);
    if r.Passed? {
      if !Stale(w.s, lock.lockID.value) {
        FreshLockNeverLost(w.steps, pid);
      }
      if pid !in w.s.lost {
        HolderIsAlone(w.steps, pid);
      }
    } else {
      var ok := lock.Unlock(w);
    }
  }

  class Lock {
    const pid: Pid
    const exclusive: bool
    var time: real
    var lockID: Option<FileId>

    constructor (pid: Pid, exclusive: bool, time: real)
      ensures this.pid == pid && this.exclusive == exclusive && this.time == time && lockID.None?
    {
      this.pid, this.exclusive, this.time, this.lockID := pid, exclusive, time, None;
    }

    /** The lock is that of its process in the protocol. */
    ghost predicate In(s: State, phase: Phase)
      reads this
    {
      && pid in s.procs && s.procs[pid].excl == exclusive && s.procs[pid].time == time && s.procs[pid].phase == phase
      && (lockID.Some? ==> lockID.value == s.procs[pid].cur && lockID.value in s.files)
    }

    ghost function AfterCheck(r: CheckResult, second: bool): Phase {
      if r.Passed? then (if second then Holding else Creating) else (if second then Unlocking else Finished)
    }

    ghost function Checking(second: bool, c: Check): Phase {
      if second then SecondCheck(c) else FirstCheck(c)
    }

    /** Lock files that were loaded and do not conflict with this lock. */
    ghost predicate Compatible(s: State, ids: set<FileId>) {
      forall id :: id in ids ==> id in s.files && !exclusive && !s.files[id].excl
    }

    /** One of the lock files conflicts with this lock. */
    ghost predicate ConflictIn(s: State, ids: set<FileId>) {
      exists id :: id in ids && id in s.files && (exclusive || s.files[id].excl)
    }

    function OwnFile(): set<FileId>
      reads this
    {
      if lockID.Some? then {lockID.value} else {}
    }

    /** Looks for locks of others, up to three times.  It passes once all files of a listing are
        loaded, in this try or before, and none conflicts; it fails at the first conflicting one,
        or after three tries in each of which some listed file could not be loaded. */
    method CheckForOtherLocks(w: World) returns (r: CheckResult, checked: set<FileId>, listed: set<FileId>, tries: nat)
      requires w.Valid() && In(w.s, Checking(lockID.Some?, Listing(OwnFile(), 0)))
      modifies w
      ensures w.Valid() && In(w.s, AfterCheck(r, lockID.Some?))
      ensures old(w.s).files.Keys <= w.s.files.Keys && (pid in w.s.late <==> pid in old(w.s.late))
      ensures OwnFile() <= checked && Compatible(w.s, checked - OwnFile())
      ensures r.Passed? ==> listed <= checked
      ensures r.AlreadyLocked? ==> ConflictIn(w.s, listed - OwnFile())
      ensures r.CannotLoad? ==> tries == 3 && listed - checked != {}
      ensures 1 <= tries <= 3
    {
      hide Compatible;
      checked := if lockID.Some? then {lockID.value} else {};
      NoneCompatible(w.s, checked);
      listed, tries := {}, 0;
      ghost var second := lockID.Some?;
      while tries < MAX_TRIES
        invariant 0 <= tries <= MAX_TRIES && w.Valid() && second == lockID.Some?
        invariant In(w.s, if tries < MAX_TRIES then Checking(second, Listing(checked, tries))
          else AfterCheck(CannotLoad, second))
        invariant old(w.s).files.Keys <= w.s.files.Keys && (pid in w.s.late <==> pid in old(w.s.late))
        invariant OwnFile() <= checked && Compatible(w.s, checked - OwnFile())
        invariant tries > 0 ==> listed - checked != {}
      {
        var before := checked;
        ghost var s := w.s;
        r, checked, listed := LoadAll(w, before, tries);
        tries := tries + 1;
        StaysCompatible(s, w.s, before - OwnFile());
        BothCompatible(w.s, before, checked, OwnFile());
        if r != CannotLoad {
          return;
        }
      }
      r := CannotLoad;
    }

    lemma StaysCompatible(s: State, t: State, ids: set<FileId>)
      requires Compatible(s, ids) && FilesGrow(s, t)
      ensures Compatible(t, ids)
    {
    }

    lemma NoneCompatible(s: State, ids: set<FileId>)
      ensures Compatible(s, ids - ids)
    {
    }

    lemma OneMoreCompatible(s: State, newChecked: set<FileId>, checked: set<FileId>, id: FileId)
      requires Compatible(s, newChecked - checked) && id in s.files && !exclusive && !s.files[id].excl
      ensures Compatible(s, newChecked + {id} - checked)
    {
    }

    lemma BothCompatible(s: State, before: set<FileId>, checked: set<FileId>, own: set<FileId>)
      requires Compatible(s, before - own) && Compatible(s, checked - before)
      ensures Compatible(s, checked - own)
    {
    }

    /** Loads one of the listed files, which may be gone meanwhile. */
    method LoadOne(w: World, id: FileId, toLoad: set<FileId>, newChecked: set<FileId>, i: nat) returns (r: CheckResult)
      requires i < MAX_TRIES && w.Valid() && In(w.s, Checking(lockID.Some?, Loading(toLoad, newChecked, i))) &&
        id in toLoad
      modifies w
      ensures w.Valid() && FilesGrow(old(w.s), w.s) && (pid in w.s.late <==> pid in old(w.s.late))
      ensures r.Passed? ==> In(w.s, Checking(lockID.Some?, Loading(toLoad - {id}, newChecked + {id}, i)))
      ensures r.AlreadyLocked? ==> In(w.s, AfterCheck(r, lockID.Some?))
      ensures r.CannotLoad? ==> In(w.s, if i + 1 < MAX_TRIES then Checking(lockID.Some?, Listing(newChecked, i + 1))
                                        else AfterCheck(r, lockID.Some?))
      ensures !r.CannotLoad? ==> id in w.s.files && (r.AlreadyLocked? <==> exclusive || w.s.files[id].excl)
    {
      hide Enabled, Apply, Runs, Run;
      w.Others(pid);
      w.StoreListed();
      var readable: bool := *;
      LoadEffect(w.s, pid, Loading(toLoad, newChecked, i), id);
      if !readable || id !in w.s.store {
        w.Do(Act(pid, LoadFail));
        return CannotLoad;
      }
      var other := w.s.files[id];
      w.Do(Act(pid, LoadOk(id)));
      if exclusive || other.excl {
        return AlreadyLocked;
      }
      return Passed;
    }

    /** Loads the listed files that were not loaded before. */
    method LoadListed(w: World, checked: set<FileId>, listed: set<FileId>, i: nat)
      returns (r: CheckResult, newChecked: set<FileId>)
      requires i < MAX_TRIES && w.Valid() && In(w.s, Checking(lockID.Some?, Loading(listed - checked, checked, i)))
      modifies w
      ensures w.Valid() && FilesGrow(old(w.s), w.s) && (pid in w.s.late <==> pid in old(w.s.late))
      ensures r.Passed? ==> In(w.s, Checking(lockID.Some?, Loading({}, newChecked, i)))
      ensures !r.Passed? ==>
        In(w.s, if r.CannotLoad? && i + 1 < MAX_TRIES then Checking(lockID.Some?, Listing(newChecked, i + 1))
                else AfterCheck(r, lockID.Some?))
      ensures checked <= newChecked <= checked + listed && Compatible(w.s, newChecked - checked)
      ensures r.Passed? ==> newChecked == checked + listed
      ensures r.AlreadyLocked? ==> ConflictIn(w.s, listed - checked)
      ensures r.CannotLoad? ==> listed - newChecked != {}
    {
      hide Enabled, Apply, Runs, Run, Compatible;
      var toLoad := listed - checked;
      newChecked := checked;
      NoneCompatible(w.s, checked);
      while toLoad != {}
        invariant w.Valid() && In(w.s, Checking(lockID.Some?, Loading(toLoad, newChecked, i)))
        invariant FilesGrow(old(w.s), w.s) && (pid in w.s.late <==> pid in old(w.s.late))
        invariant toLoad !! newChecked && checked <= newChecked && toLoad + newChecked == checked + listed
        invariant Compatible(w.s, newChecked - checked)
      {
        var id :| id in toLoad;
        ghost var before := w.s;
        r := LoadOne(w, id, toLoad, newChecked, i);
        StaysCompatible(before, w.s, newChecked - checked);
        if !r.Passed? {
          assert id in listed && id !in checked && id !in newChecked;
          return r, newChecked;
        }
        OneMoreCompatible(w.s, newChecked, checked, id);
        toLoad := toLoad - {id};
        newChecked := newChecked + {id};
      }
      return Passed, newChecked;
    }

    /** Lists the lock files once and loads those that were not loaded before, until one cannot
        be loaded or conflicts. */
    method LoadAll(w: World, checked: set<FileId>, i: nat)
      returns (r: CheckResult, newChecked: set<FileId>, listed: set<FileId>)
      requires i < MAX_TRIES && w.Valid() && In(w.s, Checking(lockID.Some?, Listing(checked, i)))
      modifies w
      ensures w.Valid() && FilesGrow(old(w.s), w.s) && (pid in w.s.late <==> pid in old(w.s.late))
      ensures In(w.s, if r.CannotLoad? && i + 1 < MAX_TRIES then Checking(lockID.Some?, Listing(newChecked, i + 1))
                      else AfterCheck(r, lockID.Some?))
      ensures checked <= newChecked <= checked + listed && Compatible(w.s, newChecked - checked)
      ensures r.Passed? ==> newChecked == checked + listed
      ensures r.AlreadyLocked? ==> ConflictIn(w.s, listed - checked)
      ensures r.CannotLoad? ==> listed - newChecked != {}
    {
      hide Enabled, Apply, Runs, Run, Compatible;
      w.Others(pid);
      listed := w.s.store;
      ListEffect(w.s, pid, Listing(checked, i));
      w.Do(Act(pid, List));
      r, newChecked := LoadListed(w, checked, listed, i);
      if !r.Passed? {
        return r, newChecked, listed;
      }
      PassEffect(w.s, pid, Loading({}, newChecked, i));
      ghost var last := w.s;
      w.Do(Act(pid, Pass));
      StaysCompatible(last, w.s, newChecked - checked);
      return Passed, newChecked, listed;
    }

    method CreateFirst(w: World) returns (ok: bool)
      requires w.Valid() && In(w.s, Creating) && lockID.None?
      modifies w, this`lockID
      ensures w.Valid() && w.s.late == old(w.s.late)
      ensures ok ==> lockID.Some? && In(w.s, SecondCheck(Listing({lockID.value}, 0)))
      ensures !ok ==> lockID.None? && In(w.s, Finished)
    {
      hide Enabled, Apply, Runs, Run;
      var id := w.NewId();
      CreateEffect(w.s, pid, id);
      ok := *;
      if !ok {
        w.Do(Act(pid, CreateFail));
        return;
      }
      w.Do(Act(pid, Create(id)));
      lockID := Some(id);
    }

    /** Removes the lock file. */
    method Unlock(w: World) returns (ok: bool)
      requires w.Valid() && lockID.Some? && (In(w.s, Holding) || In(w.s, Unlocking))
      modifies w
      ensures w.Valid() && In(w.s, Finished) && NothingLeft(w.s, pid) && (pid in w.s.late <==> pid in old(w.s.late))
      ensures ok ==> lockID.value !in w.s.store
    {
      hide Enabled, Apply, Runs, Run, NothingLeft;
      UnlockEffect(w.s, pid, true);
      if w.s.procs[pid].phase.Holding? {
        w.Do(Act(pid, LockProtocol.Unlock));
      }
      w.Others(pid);
      ok := *;
      UnlockEffect(w.s, pid, ok);
      w.Do(Act(pid, UnlockRemove(ok)));
      FinishedLeavesNothing(w.steps, pid);
    }

    /** Replaces the lock file with a new one, whatever the age of the old one.  The refresh is
        late only if the old one gets stale meanwhile. */
    method Refresh(w: World) returns (ok: bool)
      requires w.Valid() && lockID.Some? && In(w.s, Holding)
      modifies w, this
      ensures w.Valid() && lockID.Some? && In(w.s, Holding)
      ensures ok ==>
        && lockID != old(lockID) && old(lockID).value !in w.s.store
        && w.s.files[lockID.value].time == time == old(w.s.now)
      ensures w.s.now <= old(w.s.files[lockID.value].time) + STALE_TIMEOUT ==>
        (pid in w.s.late <==> pid in old(w.s.late))
    {
      hide Enabled, Apply, Runs, Run;
      RefreshStartEffect(w.s, pid);
      time := w.s.now;
      w.Do(Act(pid, RefreshStart));
      w.Others(pid);
      var id := w.NewId();
      RefreshCreateEffect(w.s, pid, id);
      var created: bool := *;
      if !created {
        w.Do(Act(pid, RefreshFail));
        return false;
      }
      w.Do(Act(pid, RefreshCreate(id)));
      var oldLockID := lockID.value;
      lockID := Some(id);
      w.Others(pid);
      ok := *;
      RemoveOldEffect(w.s, pid, ok);
      w.Do(Act(pid, RemoveOld(ok)));
    }

    /** Refreshes a lock that may be stale already: it must exist from before the replacement
        is created until after that. */
    method RefreshStaleLock(w: World) returns (ok: bool)
      requires w.Valid() && lockID.Some? && In(w.s, Holding)
      modifies w, this
      ensures w.Valid() && lockID.Some? && In(w.s, if ok then Holding else Unlocking)
      ensures pid in w.s.late <==> pid in old(w.s.late)
      ensures ok ==> lockID != old(lockID)
      ensures ok && !Stale(w.s, lockID.value) && pid !in w.s.late ==>
        pid !in w.s.lost && lockID.value in w.s.store && Alone(w.s, pid)
    {
      hide Enabled, Apply, Runs, Run, Alone;
      StaleStartEffect(w.s, pid);
      w.Do(Act(pid, StaleStart));
      w.Others(pid);
      var exists0 := lockID.value in w.s.store;
      StaleExistsEffect(w.s, pid);
      var now := w.s.now;
      w.Do(Act(pid, StaleExists));
      if !exists0 {
        return false;
      }
      time := now;
      w.Others(pid);
      var id := w.NewId();
      StaleCreateEffect(w.s, pid, id);
      var created: bool := *;
      if !created {
        w.Do(Act(pid, StaleCreateFail));
        return false;
      }
      w.Do(Act(pid, StaleCreate(id)));
      // the wait before the second look
      w.Others(pid);
      ok := ReplaceIfThere(w, id);
    }

    method ReplaceIfThere(w: World, id: FileId) returns (ok: bool)
      requires w.Valid() && lockID.Some? && In(w.s, StaleWaiting(id)) && id in w.s.files && id != lockID.value
      modifies w, this`lockID
      ensures w.Valid() && lockID.Some? && In(w.s, if ok then Holding else Unlocking)
      ensures pid in w.s.late <==> pid in old(w.s.late)
      ensures ok ==> lockID == Some(id)
      ensures ok && !Stale(w.s, id) && pid !in w.s.late ==> pid !in w.s.lost && id in w.s.store && Alone(w.s, pid)
    {
      hide Enabled, Apply, Runs, Run, Alone;
      var listed: bool := *;
      var stillThere := listed && lockID.value in w.s.store;
      StaleRecheckEffect(w.s, pid, id, listed);
      w.Do(Act(pid, StaleRecheck(listed)));
      if !stillThere {
        w.Others(pid);
        var removed: bool := *;
        CleanUpEffect(w.s, pid, removed);
        w.Do(Act(pid, CleanUp(removed)));
        return false;
      }
      lockID := Some(id);
      w.Others(pid);
      ok := *;
      StaleRemoveOldEffect(w.s, pid, ok);
      if ok && !Stale(w.s, id) && pid !in w.s.late {
        SucceedsAlone(w.steps, pid);
      }
      w.Do(Act(pid, StaleRemoveOld(ok)));
    }
  }

  lemma SucceedsAlone(steps: seq<Step>, p: Pid)
    requires Runs(EMPTY, steps) && Enabled(Run(EMPTY, steps), Act(p, StaleRemoveOld(true)))
    requires var s := Run(EMPTY, steps);
      s.procs[p].cur in s.files && !Stale(s, s.procs[p].cur) && p !in s.late
    ensures var t := Apply(Run(EMPTY, steps), Act(p, StaleRemoveOld(true)));
      p in t.procs && t.procs[p].cur in t.store && p !in t.lost && Alone(t, p)
  {
    StaleRefreshIsContinuous(steps, p, p);
    forall q | q != p
      ensures var t := Apply(Run(EMPTY, steps), Act(p, StaleRemoveOld(true)));
        q in t.procs && Holds(t.procs[q]) && q !in t.lost ==> !t.procs[p].excl && !t.procs[q].excl
    {
      StaleRefreshIsContinuous(steps, p, q);
    }
  }
}
