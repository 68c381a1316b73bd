/** The repository lock protocol: any number of processes that check for other locks, create
    a lock file, wait and check again, refresh it, refresh it when it is nearly stale, and
    remove it, while others may delete stale files at any time.

    Listing and loading are separate steps, so files come and go while a check is under way.
    A lock file never changes once it exists and its id is never used again. */
module LockProtocol {
  type Pid = nat
  type FileId = nat

  datatype LockFile = LockFile(owner: Pid, excl: bool, time: real)

  // Times in seconds.
  const STALE_TIMEOUT: real := 1800.0
  const MAX_TRIES: nat := 3

  /** checkForOtherLocks: about to list, or with listed files still to load. */
  datatype Check =
    | Listing(checked: set<FileId>, tries: nat)
    | Loading(toLoad: set<FileId>, newChecked: set<FileId>, tries: nat)

  datatype Phase =
    | FirstCheck(c: Check)
    | Creating
    | SecondCheck(c: Check)
    | Holding
    | Refreshing              // Refresh: the new file is not created yet
    | Replaced(prev: FileId)   // a new file is in use, the old one is to be removed
    | StaleCheck              // RefreshStaleLock: does the old file still exist?
    | StaleCreating
    | StaleWaiting(id: FileId)  // the replacement exists, the old file is to be checked again
    | StaleCleanup(id: FileId)  // the replacement is to be removed
    | StaleReplaced(prev: FileId)  // the old file still existed and is to be removed
    | Unlocking
    | Finished

  /** `time` is the field of the lock that goes into the next file; `cur` its lock id. */
  datatype Proc = Proc(excl: bool, phase: Phase, time: real, cur: FileId)

  /** `files` are all files that ever existed and `store` those that exist.  `lost` are the
      processes that had no file in the store at some moment since they created one, `litter`
      the files whose owner failed to remove them, and `late` the processes whose lock was
      stale already when a periodic refresh replaced it. */
  datatype State = State(now: real, store: set<FileId>, files: map<FileId, LockFile>, procs: map<Pid, Proc>,
                         lost: set<Pid>, litter: set<FileId>, late: set<Pid>)

  /** What a process does next. */
  datatype Action =
    | List
    | LoadOk(id: FileId)
    | LoadFail
    | Pass
    | Create(id: FileId)
    | CreateFail
    | RefreshStart
    | RefreshCreate(id: FileId)
    | RefreshFail
    | RemoveOld(ok: bool)
    | StaleStart
    | StaleExists
    | StaleCreate(id: FileId)
    | StaleCreateFail
    | StaleRecheck(listed: bool)
    | CleanUp(ok: bool)
    | StaleRemoveOld(ok: bool)
    | Unlock
    | UnlockRemove(ok: bool)

  datatype Step =
    | Start(p: Pid, excl: bool)
    | Act(p: Pid, action: Action)
    | RemoveStale(id: FileId)
    | Tick(d: real)

  predicate Conflict(a: bool, b: bool) {
    a || b
  }

  /** The process relies on its lock: it may work on the repository. */
  predicate Holds(pr: Proc) {
    pr.phase.Holding? || pr.phase.Refreshing? || pr.phase.Replaced?
  }

  /** The process has created a lock file and has not begun to remove it. */
  predicate Announced(pr: Proc) {
    !(pr.phase.FirstCheck? || pr.phase.Creating? || pr.phase.Unlocking? || pr.phase.Finished?)
  }

  /** ... and has listed the other locks since. */
  predicate HasListed(pr: Proc) {
    Announced(pr) && !(pr.phase.SecondCheck? && pr.phase.c.Listing?)
  }

  predicate InCheck(pr: Proc) {
    pr.phase.FirstCheck? || pr.phase.SecondCheck?
  }

  function CheckOf(pr: Proc): Check
    requires InCheck(pr)
  {
    pr.phase.c
  }

  function Continue(pr: Proc, c: Check): Proc
    requires InCheck(pr)
  {
    pr.(phase := if pr.phase.FirstCheck? then FirstCheck(c) else SecondCheck(c))
  }

  /** A failed check gives up; after the second check the file has to be removed again. */
  function GiveUp(pr: Proc): Proc {
    pr.(phase := if pr.phase.FirstCheck? then Finished else Unlocking)
  }

  predicate Stale(s: State, id: FileId)
    requires id in s.files
  {
    s.now > s.files[id].time + STALE_TIMEOUT
  }

  predicate Fresh(s: State, id: FileId) {
    id !in s.files
  }

  predicate CanAct(s: State, pr: Proc, a: Action) {
    match a
    case List => InCheck(pr) && CheckOf(pr).Listing?
    case LoadOk(id) => InCheck(pr) && CheckOf(pr).Loading? && id in CheckOf(pr).toLoad && id in s.store && id in s.files
    case LoadFail => InCheck(pr) && CheckOf(pr).Loading? && CheckOf(pr).toLoad != {}
    case Pass => InCheck(pr) && CheckOf(pr).Loading? && CheckOf(pr).toLoad == {}
    case Create(id) => pr.phase.Creating? && Fresh(s, id)
    case CreateFail => pr.phase.Creating?
    case RefreshStart => pr.phase.Holding?
    case RefreshCreate(id) => pr.phase.Refreshing? && Fresh(s, id)
    case RefreshFail => pr.phase.Refreshing?
    case RemoveOld(_) => pr.phase.Replaced?
    case StaleStart => pr.phase.Holding?
    case StaleExists => pr.phase.StaleCheck?
    case StaleCreate(id) => pr.phase.StaleCreating? && Fresh(s, id)
    case StaleCreateFail => pr.phase.StaleCreating?
    case StaleRecheck(_) => pr.phase.StaleWaiting?
    case CleanUp(_) => pr.phase.StaleCleanup?
    case StaleRemoveOld(_) => pr.phase.StaleReplaced?
    case Unlock => pr.phase.Holding?
    case UnlockRemove(_) => pr.phase.Unlocking?
  }

  predicate Enabled(s: State, step: Step) {
    match step
    case Start(p, _) => p !in s.procs
    case Act(p, a) => p in s.procs && CanAct(s, s.procs[p], a)
    case RemoveStale(id) => id in s.store && id in s.files && Stale(s, id)
    case Tick(d) => d > 0.0
  }

  function SetProc(s: State, p: Pid, pr: Proc): State {
    s.(procs := s.procs[p := pr])
  }

  function AddFile(s: State, p: Pid, id: FileId, pr: Proc): State
  {
    s.(files := s.files[id := LockFile(p, pr.excl, pr.time)], store := s.store + {id})
  }

  function Remove(s: State, id: FileId, ok: bool): State {
    if ok then s.(store := s.store - {id}) else s.(litter := s.litter + {id})
  }

  function ActEffect(s: State, p: Pid, pr: Proc, a: Action): State
    requires p in s.procs && pr == s.procs[p] && CanAct(s, pr, a)
  {
    match a
    case List =>
      var c := CheckOf(pr);
      SetProc(s, p, Continue(pr, Loading(s.store - c.checked, c.checked, c.tries)))
    case LoadOk(id) =>
      var c := CheckOf(pr);
      if Conflict(pr.excl, s.files[id].excl) then SetProc(s, p, GiveUp(pr))
      else SetProc(s, p, Continue(pr, Loading(c.toLoad - {id}, c.newChecked + {id}, c.tries)))
    case LoadFail =>
      var c := CheckOf(pr);
      if c.tries + 1 < MAX_TRIES then SetProc(s, p, Continue(pr, Listing(c.newChecked, c.tries + 1)))
      else SetProc(s, p, GiveUp(pr))
    case Pass => SetProc(s, p, pr.(phase := if pr.phase.FirstCheck? then Creating else Holding))
    case Create(id) =>
      SetProc(AddFile(s, p, id, pr), p, pr.(cur := id, phase := SecondCheck(Listing({id}, 0))))
    case CreateFail => SetProc(s, p, pr.(phase := Finished))
    case RefreshStart => SetProc(s, p, pr.(phase := Refreshing, time := s.now))
    case RefreshCreate(id) =>
      var t := SetProc(AddFile(s, p, id, pr), p, pr.(cur := id, phase := Replaced(pr.cur)));
      t.(late := if pr.cur in s.files && Stale(s, pr.cur) then s.late + {p} else s.late)
    case RefreshFail => SetProc(s, p, pr.(phase := Holding))
    case RemoveOld(ok) => SetProc(Remove(s, pr.phase.prev, ok), p, pr.(phase := Holding))
    case StaleStart => SetProc(s, p, pr.(phase := StaleCheck))
    case StaleExists =>
      SetProc(s, p, if pr.cur in s.store then pr.(phase := StaleCreating, time := s.now) else pr.(phase := Unlocking))
    case StaleCreate(id) => SetProc(AddFile(s, p, id, pr), p, pr.(phase := StaleWaiting(id)))
    case StaleCreateFail => SetProc(s, p, pr.(phase := Unlocking))
    case StaleRecheck(listed) =>
      SetProc(s, p, if listed && pr.cur in s.store then pr.(cur := pr.phase.id, phase := StaleReplaced(pr.cur))
                    else pr.(phase := StaleCleanup(pr.phase.id)))
    case CleanUp(ok) => SetProc(Remove(s, pr.phase.id, ok), p, pr.(phase := Unlocking))
    // returns an error, and thus gives up the lock, unless the old file was removed
    case StaleRemoveOld(ok) => SetProc(Remove(s, pr.phase.prev, ok), p, pr.(phase := if ok then Holding else Unlocking))
    case Unlock => SetProc(s, p, pr.(phase := Unlocking))
    case UnlockRemove(ok) => SetProc(Remove(s, pr.cur, ok), p, pr.(phase := Finished))
  }

  /** The effect of a step, but for `lost`. */
  function Effect(s: State, step: Step): State
    requires Enabled(s, step)
  {
    match step
    case Start(p, excl) => SetProc(s, p, Proc(excl, FirstCheck(Listing({}, 0)), s.now, 0))
    case Act(p, a) => ActEffect(s, p, s.procs[p], a)
    case RemoveStale(id) => s.(store := s.store - {id})
    case Tick(d) => s.(now := s.now + d)
  }

  predicate HasFile(s: State, p: Pid) {
    exists id :: id in s.store && id in s.files && s.files[id].owner == p
  }

  function Bare(s: State): set<Pid> {
    set p | p in s.procs && Announced(s.procs[p]) && !HasFile(s, p)
  }

  function Apply(s: State, step: Step): State
    requires Enabled(s, step)
  {
    var t := Effect(s, step);
    t.(lost := t.lost + Bare(t))
  }

  ghost function Run(s: State, steps: seq<Step>): State
    requires Runs(s, steps)
    decreases |steps|
  {
    if steps == [] then s else Run(Apply(s, steps[0]), steps[1..])
  }

  ghost predicate Runs(s: State, steps: seq<Step>)
    decreases |steps|
  {
    steps == [] || (Enabled(s, steps[0]) && Runs(Apply(s, steps[0]), steps[1..]))
  }

  const EMPTY: State := State(0.0, {}, map[], map[], {}, {}, {})

  // ----- Mutual exclusion -----

  /** Files of the process itself and files it need not mind. */
  ghost predicate Harmless(s: State, p: Pid, excl: bool, ids: set<FileId>) {
    forall id :: id in ids ==> id in s.files && (s.files[id].owner == p || !Conflict(excl, s.files[id].excl))
  }

  ghost predicate Owns(s: State, p: Pid, id: FileId) {
    id in s.files && s.files[id].owner == p
  }

  ghost predicate ProcOk(s: State, p: Pid) {
    p in s.procs &&
    var pr := s.procs[p];
    && (Announced(pr) || pr.phase.Unlocking? ==> Owns(s, p, pr.cur))
    && (pr.phase.StaleWaiting? || pr.phase.StaleCleanup? ==> Owns(s, p, pr.phase.id) && pr.phase.id != pr.cur)
    && (pr.phase.Replaced? || pr.phase.StaleReplaced? ==> Owns(s, p, pr.phase.prev) && pr.phase.prev != pr.cur)
    && (pr.phase.SecondCheck? ==>
          match pr.phase.c
          case Listing(checked, _) => Harmless(s, p, pr.excl, checked)
          case Loading(toLoad, newChecked, _) => Harmless(s, p, pr.excl, newChecked) && toLoad <= s.files.Keys)
  }

  ghost predicate FilesOk(s: State) {
    && s.store <= s.files.Keys
    && (forall id :: id in s.files ==>
          s.files[id].owner in s.procs && s.files[id].excl == s.procs[s.files[id].owner].excl)
  }

  /** p is still going to load a file of q. */
  ghost predicate Sees(s: State, p: Pid, q: Pid) {
    && p in s.procs && s.procs[p].phase.SecondCheck? && s.procs[p].phase.c.Loading?
    && exists id :: id in s.procs[p].phase.c.toLoad && id in s.files && s.files[id].owner == q
  }

  ghost predicate Guarded(s: State, p: Pid, q: Pid) {
    p in s.procs && q in s.procs && p != q && Conflict(s.procs[p].excl, s.procs[q].excl)
    && HasListed(s.procs[p]) && HasListed(s.procs[q]) && p !in s.lost && q !in s.lost
    ==> Sees(s, p, q) || Sees(s, q, p)
  }

  ghost predicate Inv(s: State) {
    && FilesOk(s)
    && (forall p :: p in s.procs ==> ProcOk(s, p))
    && (forall p :: p in s.procs && Announced(s.procs[p]) && p !in s.lost ==> HasFile(s, p))
    && (forall p, q :: p in s.procs && q in s.procs ==> Guarded(s, p, q))
  }

  /** Only process p moves; files are added, never changed. */
  ghost predicate Moves(s: State, t: State, p: Pid) {
    && t.procs.Keys == s.procs.Keys + {p}
    && (forall q :: q in s.procs && q != p ==> t.procs[q] == s.procs[q])
    && (p in s.procs ==> t.procs[p].excl == s.procs[p].excl)
    && (forall id :: id in s.files ==> id in t.files && t.files[id] == s.files[id])
    && (forall id :: id in t.files && id !in s.files ==> t.files[id].owner == p && t.files[id].excl == t.procs[p].excl)
    && t.store <= s.store + (t.files.Keys - s.files.Keys)
    && t.lost >= s.lost
  }

  ghost predicate ProcStep(step: Step) {
    !step.Tick? && !step.RemoveStale?
  }

  lemma SetProcMoves(s: State, e: State, p: Pid, pr: Proc)
    requires e == s.(store := e.store, litter := e.litter) && e.store <= s.store
    requires p in s.procs ==> pr.excl == s.procs[p].excl
    ensures Moves(s, SetProc(e, p, pr), p)
  {
  }

  lemma AddFileMoves(s: State, p: Pid, id: FileId, pr: Proc, pr': Proc, late: set<Pid>)
    requires p in s.procs && Fresh(s, id) && pr.excl == pr'.excl == s.procs[p].excl
    ensures Moves(s, SetProc(AddFile(s, p, id, pr), p, pr').(late := late), p)
  {
  }

  lemma StepMoves(s: State, step: Step)
    requires Enabled(s, step) && ProcStep(step)
    ensures Moves(s, Effect(s, step), step.p)
  {
    hide Moves;
    var t, p := Effect(s, step), step.p;
    if step.Act? && (step.action.Create? || step.action.RefreshCreate? || step.action.StaleCreate?) {
      AddFileMoves(s, p, step.action.id, s.procs[p], t.procs[p], t.late);
    } else {
      SetProcMoves(s, t.(procs := s.procs), p, t.procs[p]);
    }
  }

  predicate CheckAction(a: Action) {
    a.List? || a.LoadOk? || a.LoadFail? || a.Pass? || a.Create? || a.CreateFail?
  }

  predicate StaleAction(a: Action) {
    a.StaleStart? || a.StaleExists? || a.StaleCreate? || a.StaleCreateFail? || a.StaleRecheck? || a.CleanUp? ||
      a.StaleRemoveOld?
  }

  lemma CheckProcOk(s: State, p: Pid, a: Action)
    requires FilesOk(s) && Enabled(s, Act(p, a)) && CheckAction(a) && ProcOk(s, p)
    ensures ProcOk(Effect(s, Act(p, a)), p)
  {
  }

  lemma StaleProcOk(s: State, p: Pid, a: Action)
    requires FilesOk(s) && Enabled(s, Act(p, a)) && StaleAction(a) && ProcOk(s, p)
    ensures ProcOk(Effect(s, Act(p, a)), p)
  {
  }

  lemma RefreshProcOk(s: State, p: Pid, a: Action)
    requires FilesOk(s) && Enabled(s, Act(p, a)) && !CheckAction(a) && !StaleAction(a) && ProcOk(s, p)
    ensures ProcOk(Effect(s, Act(p, a)), p)
  {
  }

  /** What a step does to the process that takes it. */
  lemma StepProcOk(s: State, step: Step)
    requires FilesOk(s) && Enabled(s, step) && ProcStep(step)
    requires step.p in s.procs ==> ProcOk(s, step.p)
    ensures ProcOk(Effect(s, step), step.p)
  {
    if step.Act? {
      if CheckAction(step.action) {
        CheckProcOk(s, step.p, step.action);
      } else if StaleAction(step.action) {
        StaleProcOk(s, step.p, step.action);
      } else {
        RefreshProcOk(s, step.p, step.action);
      }
    }
  }

  /** The second check of p after the step still lists every conflicting process that it
      listed before, and a process that lists now lists every file there is. */
  ghost predicate KeepsSight(s: State, t: State, p: Pid) {
    p in t.procs && HasListed(t.procs[p]) ==>
      && p in s.procs
      && if HasListed(s.procs[p]) then
           forall q :: q != p && q in s.procs && Conflict(s.procs[p].excl, s.procs[q].excl) && Sees(s, p, q) ==>
             Sees(t, p, q)
         else
           forall q :: q != p && q in s.procs && Conflict(s.procs[p].excl, s.procs[q].excl) && HasFile(s, q) ==>
             Sees(t, p, q)
  }

  lemma StepKeepsSight(s: State, step: Step)
    requires FilesOk(s) && Enabled(s, step) && ProcStep(step)
    requires step.p in s.procs ==> ProcOk(s, step.p)
    ensures KeepsSight(s, Effect(s, step), step.p)
  {
    var t, p := Effect(s, step), step.p;
    if p in s.procs && HasListed(t.procs[p]) {
      forall q | q != p && q in s.procs && Conflict(s.procs[p].excl, s.procs[q].excl)
        ensures HasListed(s.procs[p]) && Sees(s, p, q) ==> Sees(t, p, q)
        ensures !HasListed(s.procs[p]) && HasFile(s, q) ==> Sees(t, p, q)
      {
        if HasListed(s.procs[p]) && Sees(s, p, q) {
          var id :| id in s.procs[p].phase.c.toLoad && id in s.files && s.files[id].owner == q;
          assert step.action.LoadOk?;
          assert id in t.procs[p].phase.c.toLoad;
        } else if !HasListed(s.procs[p]) && HasFile(s, q) {
          var id :| id in s.store && id in s.files && s.files[id].owner == q;
          assert step.action.List?;
          assert id in t.procs[p].phase.c.toLoad;
        }
      }
    }
  }

  lemma OthersOk(s: State, t: State, p: Pid, q: Pid)
    requires Moves(s, t, p) && ProcOk(s, q) && q != p
    ensures ProcOk(t, q)
  {
  }

  lemma OthersSee(s: State, t: State, p: Pid, q: Pid, r: Pid)
    requires Moves(s, t, p) && q in s.procs && q != p && ProcOk(s, q)
    ensures Sees(s, q, r) ==> Sees(t, q, r)
  {
  }

  lemma StepGuarded(s: State, step: Step, q: Pid, r: Pid)
    requires Inv(s) && Enabled(s, step) && ProcStep(step)
    requires q in Apply(s, step).procs && r in Apply(s, step).procs
    ensures Guarded(Apply(s, step), q, r)
  {
    var t, p := Apply(s, step), step.p;
    StepMoves(s, step);
    StepKeepsSight(s, step);
    SightIgnoresLost(s, Effect(s, step), t, p);
    if q != r && Conflict(t.procs[q].excl, t.procs[r].excl) && HasListed(t.procs[q]) && HasListed(t.procs[r]) &&
      q !in t.lost && r !in t.lost {
      if q != p && r != p {
        assert Guarded(s, q, r);
        OthersSee(s, t, p, q, r);
        OthersSee(s, t, p, r, q);
      } else {
        var o := if q == p then r else q;
        assert Guarded(s, p, o);
        OthersSee(s, t, p, o, p);
        assert HasFile(s, o);
      }
    }
  }

  lemma SightIgnoresLost(s: State, e: State, t: State, p: Pid)
    requires t == e.(lost := t.lost) && p in e.procs && KeepsSight(s, e, p)
    ensures KeepsSight(s, t, p)
  {
    assert forall q :: Sees(e, p, q) <==> Sees(t, p, q);
  }

  /** Time and deletions only make processes lose their files. */
  lemma PassiveStepInv(s: State, step: Step)
    requires Inv(s) && Enabled(s, step) && !ProcStep(step)
    ensures Inv(Apply(s, step))
  {
    var t := Apply(s, step);
    forall p | p in t.procs
      ensures ProcOk(t, p)
    {
      assert ProcOk(s, p);
    }
    forall p, q | p in t.procs && q in t.procs
      ensures Guarded(t, p, q)
    {
      assert Guarded(s, p, q);
      assert Sees(t, p, q) <==> Sees(s, p, q);
      assert Sees(t, q, p) <==> Sees(s, q, p);
    }
  }

  lemma ProcStepInv(s: State, step: Step)
    requires Inv(s) && Enabled(s, step) && ProcStep(step)
    ensures Inv(Apply(s, step))
  {
    var t, e := Apply(s, step), Effect(s, step);
    StepMoves(s, step);
    StepProcOk(s, step);
    forall q | q in t.procs
      ensures ProcOk(t, q)
    {
      if q != step.p {
        OthersOk(s, e, step.p, q);
      }
      assert ProcOk(e, q);
    }
    forall q, r | q in t.procs && r in t.procs
      ensures Guarded(t, q, r)
    {
      StepGuarded(s, step, q, r);
    }
    forall q | q in t.procs && Announced(t.procs[q]) && q !in t.lost
      ensures HasFile(t, q)
    {
      assert q !in Bare(e);
      assert HasFile(e, q);
    }
  }

  lemma {:induction false} RunInv(s: State, steps: seq<Step>)
    requires Inv(s) && Runs(s, steps)
    ensures Inv(Run(s, steps))
    decreases |steps|
  {
    if steps != [] {
      if ProcStep(steps[0]) {
        ProcStepInv(s, steps[0]);
      } else {
        PassiveStepInv(s, steps[0]);
      }
      RunInv(Apply(s, steps[0]), steps[1..]);
    }
  }

  /** In no interleaving do two processes hold conflicting locks, as long as each always had
      one of its own files in the store since it created the first. */
  lemma ContinuousHoldersExclude(steps: seq<Step>, p: Pid, q: Pid)
    requires Runs(EMPTY, steps)
    requires var s := Run(EMPTY, steps);
      p != q && p in s.procs && q in s.procs && Holds(s.procs[p]) && Holds(s.procs[q]) && p !in s.lost && q !in s.lost
    ensures var s := Run(EMPTY, steps);
      !s.procs[p].excl && !s.procs[q].excl
  {
    RunInv(EMPTY, steps);
    assert Guarded(Run(EMPTY, steps), p, q);
  }

  // ----- Without anybody who removes stale locks -----

  ghost predicate NobodyRemoves(steps: seq<Step>) {
    forall i :: 0 <= i < |steps| ==> !steps[i].RemoveStale?
  }

  /** The files a process counts on are there. */
  ghost predicate Backed(s: State, p: Pid)
    requires p in s.procs
  {
    var pr := s.procs[p];
    && (Announced(pr) ==> pr.cur in s.store)
    && (pr.phase.StaleWaiting? ==> pr.phase.id in s.store)
  }

  ghost predicate AllBacked(s: State) {
    s.lost == {} && forall p :: p in s.procs ==> Backed(s, p)
  }

  /** A step of p neither adds nor removes a file of another process. */
  /** The file that a step of the process removes, if any. */
  function Removed(pr: Proc, a: Action): set<FileId> {
    match a
    case RemoveOld(ok) => if ok && pr.phase.Replaced? then {pr.phase.prev} else {}
    case CleanUp(ok) => if ok && pr.phase.StaleCleanup? then {pr.phase.id} else {}
    case StaleRemoveOld(ok) => if ok && pr.phase.StaleReplaced? then {pr.phase.prev} else {}
    case UnlockRemove(ok) => if ok then {pr.cur} else {}
    case _ => {}
  }

  lemma ActStore(s: State, p: Pid, a: Action)
    requires p in s.procs && CanAct(s, s.procs[p], a) && s.store <= s.files.Keys
    ensures var t := ActEffect(s, p, s.procs[p], a);
      && t.now == s.now && s.litter <= t.litter && t.lost == s.lost
      && forall id :: id in s.files ==> (id in t.store <==> id in s.store && id !in Removed(s.procs[p], a))
  {
  }

  lemma RemovesOwn(s: State, p: Pid, a: Action)
    requires ProcOk(s, p) && CanAct(s, s.procs[p], a)
    ensures forall id :: id in Removed(s.procs[p], a) ==> Owns(s, p, id)
  {
    hide Harmless;
  }

  lemma OwnFilesOnly(s: State, step: Step)
    requires Inv(s) && Enabled(s, step) && ProcStep(step)
    ensures var t := Effect(s, step);
      && t.now == s.now && s.litter <= t.litter && t.lost == s.lost
      && forall id :: id in s.files && s.files[id].owner != step.p ==> (id in t.store <==> id in s.store)
  {
    assert step.p in s.procs ==> ProcOk(s, step.p);
    assert s.store <= s.files.Keys;
    hide Inv, Guarded, FilesOk, ProcOk, ActEffect, CanAct, Removed;
    if step.Act? {
      ActStore(s, step.p, step.action);
      RemovesOwn(s, step.p, step.action);
    }
  }

  lemma OwnBacked(s: State, step: Step)
    requires FilesOk(s) && Enabled(s, step) && ProcStep(step)
    requires step.p in s.procs ==> ProcOk(s, step.p) && Backed(s, step.p)
    ensures Backed(Effect(s, step), step.p)
  {
  }

  lemma OthersBacked(s: State, step: Step, q: Pid)
    requires Inv(s) && Enabled(s, step) && ProcStep(step) && q != step.p && q in s.procs && Backed(s, q)
    ensures q in Effect(s, step).procs && Backed(Effect(s, step), q)
  {
    StepMoves(s, step);
    OwnFilesOnly(s, step);
    assert ProcOk(s, q);
    hide Inv, Effect, Enabled, Guarded;
  }

  lemma EffectBacked(s: State, step: Step, q: Pid)
    requires Inv(s) && AllBacked(s) && Enabled(s, step) && !step.RemoveStale? && q in Effect(s, step).procs
    ensures Backed(Effect(s, step), q)
  {
    if ProcStep(step) {
      if q == step.p {
        assert q in s.procs ==> ProcOk(s, q);
        OwnBacked(s, step);
      } else {
        StepMoves(s, step);
        OthersBacked(s, step, q);
      }
    }
    hide Inv, Effect, Enabled;
  }

  lemma StepBacked(s: State, step: Step)
    requires Inv(s) && AllBacked(s) && Enabled(s, step) && !step.RemoveStale?
    ensures AllBacked(Apply(s, step))
  {
    var e := Effect(s, step);
    if ProcStep(step) {
      ProcStepInv(s, step);
    } else {
      PassiveStepInv(s, step);
    }
    HistoryGrows(s, step);
    hide Effect, Enabled, Guarded;
    forall p | p in e.procs
      ensures Backed(e, p) && p !in Bare(e)
    {
      EffectBacked(s, step, p);
      assert ProcOk(Apply(s, step), p);
    }
  }

  lemma {:induction false} RunBacked(s: State, steps: seq<Step>)
    requires Inv(s) && AllBacked(s) && Runs(s, steps) && NobodyRemoves(steps)
    ensures AllBacked(Run(s, steps))
    decreases |steps|
  {
    if steps != [] {
      StepBacked(s, steps[0]);
      if ProcStep(steps[0]) {
        ProcStepInv(s, steps[0]);
      } else {
        PassiveStepInv(s, steps[0]);
      }
      RunBacked(Apply(s, steps[0]), steps[1..]);
    }
  }

  /** Among any number of processes that lock, refresh and unlock, in any interleaving and
      at any speed, no two hold conflicting locks, if nobody removes locks of others. */
  lemma MutualExclusion(steps: seq<Step>, p: Pid, q: Pid)
    requires Runs(EMPTY, steps) && NobodyRemoves(steps)
    requires var s := Run(EMPTY, steps);
      p != q && p in s.procs && q in s.procs && Holds(s.procs[p]) && Holds(s.procs[q])
    ensures var s := Run(EMPTY, steps);
      !s.procs[p].excl && !s.procs[q].excl
  {
    RunBacked(EMPTY, steps);
    ContinuousHoldersExclude(steps, p, q);
  }

  // ----- Continuity -----

  /** The files a process knows of besides those it failed to remove. */
  ghost function Known(pr: Proc): set<FileId> {
    (if Announced(pr) || pr.phase.Unlocking? then {pr.cur} else {})
    + (if pr.phase.Replaced? || pr.phase.StaleReplaced? then {pr.phase.prev} else {})
    + (if pr.phase.StaleWaiting? || pr.phase.StaleCleanup? then {pr.phase.id} else {})
  }

  /** A file that is not stale was not deleted. */
  ghost predicate Present(s: State, p: Pid)
    requires p in s.procs
  {
    var pr := s.procs[p];
    && (Announced(pr) && pr.cur in s.files && !Stale(s, pr.cur) ==> pr.cur in s.store)
    && (pr.phase.StaleWaiting? && pr.phase.id in s.files && !Stale(s, pr.phase.id) ==> pr.phase.id in s.store)
  }

  /** While the current file exists, there was never a moment without a file, unless a refresh
      came too late. */
  ghost predicate Unbroken(s: State, p: Pid)
    requires p in s.procs
  {
    var pr := s.procs[p];
    && (Announced(pr) && pr.cur in s.store && p !in s.late ==> p !in s.lost)
    && (pr.phase.FirstCheck? || pr.phase.Creating? ==> p !in s.lost)
  }

  /** No file is left behind. */
  ghost predicate Tidy(s: State, p: Pid)
    requires p in s.procs
  {
    forall id :: id in s.store && Owns(s, p, id) ==> id in Known(s.procs[p]) || id in s.litter
  }

  ghost predicate Continuous(s: State, p: Pid) {
    p in s.procs && Present(s, p) && Unbroken(s, p) && Tidy(s, p)
  }

  ghost predicate ContInv(s: State) {
    && (forall p :: p in s.procs ==> Continuous(s, p))
    && (forall p :: p in s.lost + s.late ==> p in s.procs)
  }

  lemma OthersContinuous(s: State, step: Step, q: Pid)
    requires Inv(s) && Enabled(s, step) && ProcStep(step) && q != step.p && Continuous(s, q)
    ensures Continuous(Effect(s, step), q)
  {
    StepMoves(s, step);
    OwnFilesOnly(s, step);
    LateGrows(s, step);
    assert ProcOk(s, q);
    hide Inv, Effect, Enabled, Guarded;
  }

  lemma LateGrows(s: State, step: Step)
    requires Enabled(s, step) && ProcStep(step)
    ensures s.late <= Effect(s, step).late <= s.late + {step.p}
  {
  }

  lemma StartContinuous(s: State, step: Step)
    requires Inv(s) && ContInv(s) && Enabled(s, step) && step.Start?
    ensures Continuous(Effect(s, step), step.p)
  {
  }

  lemma ActPresent(s: State, p: Pid, a: Action)
    requires FilesOk(s) && Enabled(s, Act(p, a)) && ProcOk(s, p) && Present(s, p)
    ensures Present(Effect(s, Act(p, a)), p)
  {
  }

  lemma ActUnbroken(s: State, p: Pid, a: Action)
    requires FilesOk(s) && Enabled(s, Act(p, a)) && ProcOk(s, p) && Present(s, p) && Unbroken(s, p)
    ensures Unbroken(Effect(s, Act(p, a)), p)
  {
  }

  lemma ActTidy(s: State, p: Pid, a: Action)
    requires FilesOk(s) && Enabled(s, Act(p, a)) && ProcOk(s, p) && Tidy(s, p)
    ensures Tidy(Effect(s, Act(p, a)), p)
  {
  }

  lemma PassiveContinuous(s: State, step: Step, q: Pid)
    requires Inv(s) && ContInv(s) && Enabled(s, step) && !ProcStep(step) && q in s.procs
    ensures Continuous(Effect(s, step), q)
  {
    assert ProcOk(s, q) && Continuous(s, q);
  }

  /** Counting the processes without a file keeps continuity. */
  lemma LostContinuous(e: State, q: Pid)
    requires Continuous(e, q) && (Announced(e.procs[q]) ==>
      e.procs[q].cur in e.files && e.files[e.procs[q].cur].owner == q)
    ensures Continuous(e.(lost := e.lost + Bare(e)), q)
  {
    assert Announced(e.procs[q]) && e.procs[q].cur in e.store ==> HasFile(e, q);
  }

  lemma OwnActContinuous(s: State, p: Pid, a: Action)
    requires Inv(s) && ContInv(s) && Enabled(s, Act(p, a))
    ensures Continuous(Effect(s, Act(p, a)), p)
  {
    assert ProcOk(s, p) && Continuous(s, p);
    hide Present, Unbroken, Tidy, ProcOk, Effect, Enabled;
    ActPresent(s, p, a);
    ActUnbroken(s, p, a);
    ActTidy(s, p, a);
    ActKeepsProc(s, p, a);
  }

  lemma ActKeepsProc(s: State, p: Pid, a: Action)
    requires Enabled(s, Act(p, a))
    ensures p in Effect(s, Act(p, a)).procs
  {
  }

  lemma EffectContinuous(s: State, step: Step, q: Pid)
    requires Inv(s) && ContInv(s) && Enabled(s, step) && q in Effect(s, step).procs
    ensures Continuous(Effect(s, step), q)
  {
    hide Continuous, Inv;
    if !ProcStep(step) {
      PassiveContinuous(s, step, q);
    } else if q != step.p {
      StepMoves(s, step);
      OthersContinuous(s, step, q);
    } else if step.Start? {
      StartContinuous(s, step);
    } else {
      OwnActContinuous(s, q, step.action);
    }
  }

  lemma StepContInv(s: State, step: Step)
    requires Inv(s) && ContInv(s) && Enabled(s, step)
    ensures Inv(Apply(s, step)) && ContInv(Apply(s, step))
  {
    hide Continuous, Effect, Enabled;
    if ProcStep(step) {
      ProcStepInv(s, step);
    } else {
      PassiveStepInv(s, step);
    }
    var e, t := Effect(s, step), Apply(s, step);
    forall q | q in t.procs
      ensures Continuous(t, q)
    {
      EffectContinuous(s, step, q);
      assert ProcOk(t, q);
      LostContinuous(e, q);
    }
    LostAreKnown(s, step);
  }

  lemma LostAreKnown(s: State, step: Step)
    requires ContInv(s) && Enabled(s, step)
    ensures forall p :: p in Apply(s, step).lost + Apply(s, step).late ==> p in Apply(s, step).procs
  {
    HistoryGrows(s, step);
    hide Effect, Enabled, Continuous;
  }

  lemma HistoryGrows(s: State, step: Step)
    requires Enabled(s, step)
    ensures var t := Effect(s, step);
      s.procs.Keys <= t.procs.Keys && t.lost == s.lost && t.late <= s.late + s.procs.Keys
  {
  }

  lemma {:induction false} RunContInv(s: State, steps: seq<Step>)
    requires Inv(s) && ContInv(s) && Runs(s, steps)
    ensures Inv(Run(s, steps)) && ContInv(Run(s, steps))
    decreases |steps|
  {
    if steps != [] {
      StepContInv(s, steps[0]);
      RunContInv(Apply(s, steps[0]), steps[1..]);
    }
  }

  /** A process whose current lock file is not stale never was without a file, unless it once
      refreshed a stale lock as if it was not. */
  lemma FreshLockNeverLost(steps: seq<Step>, p: Pid)
    requires Runs(EMPTY, steps)
    requires var s := Run(EMPTY, steps);
      p in s.procs && Announced(s.procs[p]) && s.procs[p].cur in s.files && !Stale(s, s.procs[p].cur) && p !in s.late
    ensures p !in Run(EMPTY, steps).lost && Run(EMPTY, steps).procs[p].cur in Run(EMPTY, steps).store
  {
    RunContInv(EMPTY, steps);
    assert Continuous(Run(EMPTY, steps), p);
  }

  /** A file can be removed by others exactly while it is in the store and older than 30 minutes. */
  lemma RemovableIff(steps: seq<Step>, id: FileId)
    requires Runs(EMPTY, steps)
    ensures var s := Run(EMPTY, steps);
      Enabled(s, RemoveStale(id)) <==> id in s.store && id in s.files && s.now - s.files[id].time > 1800.0
    ensures var s := Run(EMPTY, steps);
      Enabled(s, RemoveStale(id)) ==> Apply(s, RemoveStale(id)).store == s.store - {id}
  {
  }

  /** Two processes that hold locks which are not stale never conflict, whatever the
      interleaving of checks, refreshes, stale refreshes, unlocks and removals. */
  lemma NoConflictWhileFresh(steps: seq<Step>, p: Pid, q: Pid)
    requires Runs(EMPTY, steps)
    requires var s := Run(EMPTY, steps);
      && p != q && p in s.procs && q in s.procs && Holds(s.procs[p]) && Holds(s.procs[q])
      && s.procs[p].cur in s.files && !Stale(s, s.procs[p].cur)
      && s.procs[q].cur in s.files && !Stale(s, s.procs[q].cur)
      && p !in s.late && q !in s.late
    ensures var s := Run(EMPTY, steps);
      !s.procs[p].excl && !s.procs[q].excl
  {
    FreshLockNeverLost(steps, p);
    FreshLockNeverLost(steps, q);
    ContinuousHoldersExclude(steps, p, q);
  }

  lemma StaleSuccess(s: State, p: Pid)
    requires Inv(s) && ContInv(s) && Enabled(s, Act(p, StaleRemoveOld(true)))
    requires s.procs[p].cur in s.files && !Stale(s, s.procs[p].cur)
    ensures var t := Effect(s, Act(p, StaleRemoveOld(true)));
      && Holds(t.procs[p]) && t.procs[p].cur == s.procs[p].cur && t.procs[p].cur in t.store
      && s.procs[p].phase.prev !in t.store
  {
    assert Continuous(s, p) && ProcOk(s, p);
  }

  /** When a stale refresh succeeds before the replacement is stale itself, the process had one
      of its files in the store at every moment since it created the first one, even if its
      lock was stale all the while; the new file is there, the old one is not, and no other
      holder that always had a file conflicts with it. */
  lemma StaleRefreshIsContinuous(steps: seq<Step>, p: Pid, q: Pid)
    requires Runs(EMPTY, steps) && Enabled(Run(EMPTY, steps), Act(p, StaleRemoveOld(true)))
    requires var s := Run(EMPTY, steps);
      s.procs[p].cur in s.files && !Stale(s, s.procs[p].cur) && p !in s.late
    ensures var s, t := Run(EMPTY, steps), Apply(Run(EMPTY, steps), Act(p, StaleRemoveOld(true)));
      && Holds(t.procs[p]) && t.procs[p].cur == s.procs[p].cur && t.procs[p].cur in t.store
      && s.procs[p].phase.prev !in t.store
      && p !in t.lost
      && (q != p && q in t.procs && Holds(t.procs[q]) && q !in t.lost ==> !t.procs[p].excl && !t.procs[q].excl)
  {
    RunContInv(EMPTY, steps);
    var s, step := Run(EMPTY, steps), Act(p, StaleRemoveOld(true));
    StaleSuccess(s, p);
    StepContInv(s, step);
    HoldersDoNotConflict(Apply(s, step), p, q);
  }

  lemma HoldersDoNotConflict(t: State, p: Pid, q: Pid)
    requires Inv(t) && ContInv(t) && p in t.procs && p !in t.late && Holds(t.procs[p]) && t.procs[p].cur in t.store
    ensures p !in t.lost
    ensures q != p && q in t.procs && Holds(t.procs[q]) && q !in t.lost ==> !t.procs[p].excl && !t.procs[q].excl
  {
    assert Continuous(t, p);
    if q != p && q in t.procs {
      assert Guarded(t, p, q);
    }
  }

  /** After a failed stale refresh, a failed check or an unlock, a process that is done has no
      file in the store but those whose removal failed. */
  lemma NothingLeftBehind(steps: seq<Step>, p: Pid, id: FileId)
    requires Runs(EMPTY, steps)
    requires var s := Run(EMPTY, steps);
      && p in s.procs && (s.procs[p].phase.Finished? || (s.procs[p].phase.Unlocking? && id != s.procs[p].cur))
      && id in s.files && s.files[id].owner == p && id !in s.litter
    ensures id !in Run(EMPTY, steps).store
  {
    RunContInv(EMPTY, steps);
    assert Continuous(Run(EMPTY, steps), p);
  }
}
