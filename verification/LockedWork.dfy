/** Many processes with their locks kept alive: the lock files in the store, and for each
    process that obtained a lock the two goroutines that refresh it.

    A step of the refresher that accesses the store is one step of both the goroutines and
    the lock protocol. */
module LockedWork {
  import P = LockProtocol
  import M = LockMonitor

  datatype System = System(s: P.State, mons: map<P.Pid, M.State>)

  datatype Event =
    | Store(move: P.Step)                                  // of a process that does not work, or a removal
    | Begin(p: P.Pid, m: M.State)                          // the lock is obtained, work begins
    | Internal(p: P.Pid, step: M.Step)                     // of the goroutines alone
    | Access(p: P.Pid, step: M.Step, action: P.Action)     // of the refresher on the store
    | Inside(p: P.Pid, action: P.Action)                   // in the middle of a stale refresh
    | Time(d: real)

  /** The steps of the refresher and what they do to the store. */
  predicate Paired(pr: P.Proc, store: set<P.FileId>, m: M.State, step: M.Step, a: P.Action) {
    match step
    case TakeTick => !TooOld(m) && a.RefreshStart?
    case FileCreated => a.RefreshCreate?
    case RefreshOk => a == P.RemoveOld(true)
    // a new file may exist already, and the old one could not be removed
    case RefreshErr => m.refresher.Refreshing? && a == if m.refresher.created then P.RemoveOld(false) else P.RefreshFail
    case Accept => a.StaleStart?
    case StaleCreated => a.StaleExists? && pr.cur in store
    case StaleOk => a == P.StaleRemoveOld(true)
    case StaleErr =>
      a.StaleCreateFail? || a.CleanUp? || a == P.StaleRemoveOld(false) || (a.StaleExists? && pr.cur !in store)
    case _ => false
  }

  predicate TooOld(m: M.State) {
    m.now - m.rLast > M.REFRESHABILITY_TIMEOUT
  }

  predicate OnItsOwn(m: M.State, step: M.Step) {
    step.TickerFires? || step.Notify? || step.Poll? || step.Report? || step.Cancel? || (step.TakeTick? && TooOld(m))
  }

  /** The process is working or about to be cancelled. */
  predicate Alive(sys: System, p: P.Pid) {
    p in sys.mons && !sys.mons[p].cancelled
  }

  predicate Enabled(sys: System, par: M.Params, e: Event) {
    match e
    case Store(step) =>
      && P.Enabled(sys.s, step) && !step.Tick?
      && (step.Act? ==> !Alive(sys, step.p))
      && (step.Act? && step.p !in sys.mons ==> !step.action.RefreshStart? && !step.action.StaleStart?)
    case Begin(p, m) =>
      && p in sys.s.procs && sys.s.procs[p].phase.Holding? && p !in sys.mons
      && M.Init(m, par) && m.now == sys.s.now
      && sys.s.procs[p].cur in sys.s.files && sys.s.files[sys.s.procs[p].cur].time == m.diskTime
    case Internal(p, step) => Alive(sys, p) && M.Enabled(sys.mons[p], par, step) && OnItsOwn(sys.mons[p], step)
    case Access(p, step, a) =>
      && Alive(sys, p) && M.Enabled(sys.mons[p], par, step) && P.Enabled(sys.s, P.Act(p, a))
      && Paired(sys.s.procs[p], sys.s.store, sys.mons[p], step, a)
    case Inside(p, a) =>
      Alive(sys, p) && sys.mons[p].refresher.StaleRefreshing? && P.Enabled(sys.s, P.Act(p, a))
      && (a.StaleCreate? || a.StaleRecheck?)
    case Time(d) =>
      d > 0.0 && forall p :: p in sys.mons && Alive(sys, p) ==> M.Enabled(sys.mons[p], par, M.Tick(d))
  }

  function Apply(sys: System, par: M.Params, e: Event): System
    requires Enabled(sys, par, e)
  {
    match e
    case Store(step) => sys.(s := P.Apply(sys.s, step))
    case Begin(p, m) => sys.(mons := sys.mons[p := m])
    case Internal(p, step) => sys.(mons := sys.mons[p := M.Apply(sys.mons[p], par, step)])
    case Access(p, step, a) =>
      System(P.Apply(sys.s, P.Act(p, a)), sys.mons[p := M.Apply(sys.mons[p], par, step)])
    case Inside(p, a) => sys.(s := P.Apply(sys.s, P.Act(p, a)))
    case Time(d) => System(P.Apply(sys.s, P.Tick(d)), Later(sys, par, d))
  }

  function Later(sys: System, par: M.Params, d: real): map<P.Pid, M.State>
    requires Enabled(sys, par, Time(d))
  {
    map p | p in sys.mons :: if Alive(sys, p) then M.Apply(sys.mons[p], par, M.Tick(d)) else sys.mons[p]
  }

  const NOTHING: System := System(P.EMPTY, map[])

  /** No periodic refresh is in flight when a monitor fires. */
  predicate Quiet(sys: System) {
    forall p :: p in sys.mons && Alive(sys, p) ==> M.Quiet(sys.mons[p])
  }

  ghost predicate QuietRuns(sys: System, par: M.Params, events: seq<Event>)
    decreases |events|
  {
    Quiet(sys) &&
    (events == [] || (Enabled(sys, par, events[0]) && QuietRuns(Apply(sys, par, events[0]), par, events[1..])))
  }

  ghost function Run(sys: System, par: M.Params, events: seq<Event>): System
    requires QuietRuns(sys, par, events)
    decreases |events|
  {
    if events == [] then sys else Run(Apply(sys, par, events[0]), par, events[1..])
  }

  // ----- What ties the goroutines to the lock files -----

  predicate HasTime(s: P.State, id: P.FileId, time: real) {
    id in s.files && s.files[id].time == time
  }

  /** Where the process is in the protocol, as its refresher knows. */
  predicate InStep(s: P.State, pr: P.Proc, m: M.State) {
    match m.refresher
    case Idle => pr.phase.Holding? && HasTime(s, pr.cur, m.diskTime)
    case Refreshing(start, created) =>
      && HasTime(s, pr.cur, m.diskTime)
      && if created then pr.phase.Replaced? else pr.phase.Refreshing? && pr.time == start
    case Notifying(_) => pr.phase.Holding? && HasTime(s, pr.cur, m.diskTime)
    case StaleRefreshing(_, stamp, created) =>
      if !created then pr.phase.StaleCheck?
      else
        || (pr.phase.StaleCreating? && pr.time == stamp)
        || (pr.phase.StaleWaiting? && HasTime(s, pr.phase.id, stamp))
        || pr.phase.StaleCleanup?
        || (pr.phase.StaleReplaced? && HasTime(s, pr.cur, stamp))
    case Reporting(_, _) => pr.phase.Holding? && HasTime(s, pr.cur, m.diskTime)
  }

  ghost predicate Linked(s: P.State, m: M.State, par: M.Params, p: P.Pid) {
    !m.cancelled ==>
      M.QuietInv(m, par) && m.now == s.now && p in s.procs && p !in s.late && InStep(s, s.procs[p], m)
  }

  ghost predicate SysInv(sys: System, par: M.Params) {
    && P.Inv(sys.s) && P.ContInv(sys.s)
    && (forall p :: p in sys.mons ==> Linked(sys.s, sys.mons[p], par, p))
    && (forall p :: p in sys.mons ==> p in sys.s.procs)
    && OnlyCancelledLate(sys)
  }

  lemma ProtocolKeeps(s: P.State, step: P.Step)
    requires P.Inv(s) && P.ContInv(s) && P.Enabled(s, step)
    ensures P.Inv(P.Apply(s, step)) && P.ContInv(P.Apply(s, step))
  {
    P.StepContInv(s, step);
  }

  /** What a step of a process does to the clock and the history of late refreshes. */
  lemma ClockAndLate(s: P.State, step: P.Step)
    requires P.Enabled(s, step) && P.ProcStep(step)
    ensures var t := P.Apply(s, step);
      t.now == s.now && s.late <= t.late <= s.late + {step.p}
      && (step.p in t.late ==> step.p in s.late || TooLate(s, step))
  {
    hide P.Bare;
  }

  predicate TooLate(s: P.State, step: P.Step)
    requires P.Enabled(s, step)
  {
    step.Act? && step.action.RefreshCreate? && s.procs[step.p].cur in s.files && P.Stale(s, s.procs[step.p].cur)
  }

  /** A process knows the same of its files after the step of another one. */
  lemma OthersLinked(s: P.State, step: P.Step, m: M.State, par: M.Params, q: P.Pid)
    requires P.Enabled(s, step) && P.ProcStep(step) && step.p != q && Linked(s, m, par, q)
    ensures Linked(P.Apply(s, step), m, par, q)
  {
    hide M.QuietInv;
    P.StepMoves(s, step);
    ClockAndLate(s, step);
    SameProcs(s, step);
    hide P.Apply, P.Enabled;
  }

  lemma SameProcs(s: P.State, step: P.Step)
    requires P.Enabled(s, step)
    ensures var e, t := P.Effect(s, step), P.Apply(s, step);
      t.procs == e.procs && t.files == e.files && t.store == e.store
  {
  }

  lemma RemovalLinked(s: P.State, id: P.FileId, m: M.State, par: M.Params, q: P.Pid)
    requires P.Enabled(s, P.RemoveStale(id)) && Linked(s, m, par, q)
    ensures Linked(P.Apply(s, P.RemoveStale(id)), m, par, q)
  {
    hide M.QuietInv, P.Bare;
  }

  lemma TimeLinked(s: P.State, d: real, m: M.State, par: M.Params, q: P.Pid)
    requires P.Enabled(s, P.Tick(d)) && Linked(s, m, par, q) && par.d > 0.0 && par.p > 0.0
    requires !m.cancelled ==> M.Quiet(m) && M.Enabled(m, par, M.Tick(d))
    ensures Linked(P.Apply(s, P.Tick(d)), if m.cancelled then m else M.Apply(m, par, M.Tick(d)), par, q)
  {
    if !m.cancelled {
      M.QuietStep(m, par, M.Tick(d));
    }
    hide M.QuietInv, P.Bare, M.Enabled;
  }

  lemma InternalLinked(s: P.State, m: M.State, par: M.Params, p: P.Pid, step: M.Step)
    requires Linked(s, m, par, p) && par.d > 0.0 && par.p > 0.0 && M.Quiet(m)
    requires !m.cancelled && M.Enabled(m, par, step) && OnItsOwn(m, step)
    ensures Linked(s, M.Apply(m, par, step), par, p)
  {
    M.QuietStep(m, par, step);
    hide M.QuietInv, M.Quiet;
  }

  /** Steps of the refresher on the store keep both in step. */
  lemma AccessInStep(s: P.State, m: M.State, par: M.Params, p: P.Pid, step: M.Step, a: P.Action)
    requires p in s.procs && InStep(s, s.procs[p], m) && m.now == s.now && P.ProcOk(s, p)
    requires M.Enabled(m, par, step) && P.Enabled(s, P.Act(p, a)) && Paired(s.procs[p], s.store, m, step, a)
    ensures var t, n := P.Effect(s, P.Act(p, a)), M.Apply(m, par, step);
      n.cancelled || InStep(t, t.procs[p], n)
  {
    hide P.Harmless, P.Owns;
  }

  /** A periodic refresh creates its file while the old one is not stale. */
  lemma NotTooLate(s: P.State, m: M.State, par: M.Params, p: P.Pid)
    requires p in s.procs && InStep(s, s.procs[p], m) && m.now == s.now && M.QuietInv(m, par)
    requires m.refresher.Refreshing? && !m.refresher.created
    requires par.p > 0.0 && par.d + par.p < M.REFRESH_INTERVAL * 3.0 / 2.0
    ensures s.procs[p].cur in s.files && !P.Stale(s, s.procs[p].cur)
  {
  }

  lemma AccessLinked(s: P.State, m: M.State, par: M.Params, p: P.Pid, step: M.Step, a: P.Action)
    requires P.Inv(s) && Linked(s, m, par, p) && !m.cancelled && M.Quiet(m)
    requires par.d > 0.0 && par.p > 0.0 && par.d + par.p < M.REFRESH_INTERVAL * 3.0 / 2.0
    requires M.Enabled(m, par, step) && P.Enabled(s, P.Act(p, a)) && Paired(s.procs[p], s.store, m, step, a)
    ensures Linked(P.Apply(s, P.Act(p, a)), M.Apply(m, par, step), par, p)
  {
    assert P.ProcOk(s, p);
    M.QuietStep(m, par, step);
    AccessInStep(s, m, par, p, step, a);
    ClockAndLate(s, P.Act(p, a));
    if a.RefreshCreate? {
      NotTooLate(s, m, par, p);
    }
    SameProcs(s, P.Act(p, a));
    SameClock(m, par, step);
    InStepByFiles(P.Effect(s, P.Act(p, a)), P.Apply(s, P.Act(p, a)), p, M.Apply(m, par, step));
    StillThere(s, P.Act(p, a));
    hide P.Inv, P.Apply, P.Effect, P.Enabled, M.QuietInv, M.Apply, M.Enabled, InStep, P.ProcOk;
  }

  lemma StillThere(s: P.State, step: P.Step)
    requires P.Enabled(s, step) && P.ProcStep(step)
    ensures step.p in P.Apply(s, step).procs
  {
  }

  lemma SameClock(m: M.State, par: M.Params, step: M.Step)
    requires M.Enabled(m, par, step) && !step.Tick?
    ensures M.Apply(m, par, step).now == m.now
  {
  }

  lemma InStepByFiles(s: P.State, t: P.State, p: P.Pid, m: M.State)
    requires t.procs == s.procs && t.files == s.files && p in s.procs
    ensures InStep(s, s.procs[p], m) <==> InStep(t, t.procs[p], m)
  {
  }

  lemma InsideLinked(s: P.State, m: M.State, par: M.Params, p: P.Pid, a: P.Action)
    requires Linked(s, m, par, p) && !m.cancelled && m.refresher.StaleRefreshing?
    requires P.Enabled(s, P.Act(p, a)) && (a.StaleCreate? || a.StaleRecheck?)
    ensures Linked(P.Apply(s, P.Act(p, a)), m, par, p)
  {
    hide M.QuietInv, P.Bare;
  }

  ghost predicate Bounded(par: M.Params) {
    par.d > 0.0 && par.p > 0.0 && par.d + par.p < M.REFRESH_INTERVAL * 3.0 / 2.0
  }

  lemma PhaseAfter(s: P.State, step: P.Step)
    requires P.Enabled(s, step) && P.ProcStep(step)
    ensures var t := P.Apply(s, step);
      && t.procs.Keys == s.procs.Keys + {step.p}
      && (forall q :: q in s.procs && q != step.p ==> t.procs[q] == s.procs[q])
      && (t.procs[step.p].phase.Refreshing? ==> step.Act? && step.action.RefreshStart?)
  {
    P.StepMoves(s, step);
    SameProcs(s, step);
    StartsRefresh(s, step);
    hide P.Apply, P.Effect, P.Enabled;
  }

  lemma StartsRefresh(s: P.State, step: P.Step)
    requires P.Enabled(s, step) && P.ProcStep(step)
    ensures var e := P.Effect(s, step);
      step.p in e.procs && (e.procs[step.p].phase.Refreshing? ==> step.Act? && step.action.RefreshStart?)
  {
  }

  /** Processes without goroutines never refresh, so only those that were cancelled are late. */
  ghost predicate OnlyCancelledLate(sys: System) {
    && (forall p :: p in sys.s.late ==> p in sys.mons && sys.mons[p].cancelled)
    && (forall p :: p in sys.s.procs && p !in sys.mons ==> !sys.s.procs[p].phase.Refreshing?)
  }

  lemma ProcStepKeeps(sys: System, par: M.Params, step: P.Step)
    requires SysInv(sys, par) && Enabled(sys, par, Store(step)) && P.ProcStep(step)
    ensures SysInv(Apply(sys, par, Store(step)), par)
  {
    hide P.Inv, P.ContInv, Linked, P.Apply, P.Enabled, OnlyCancelledLate;
    ProtocolKeeps(sys.s, step);
    var t := P.Apply(sys.s, step);
    PhaseAfter(sys.s, step);
    NotLateBeforeRefresh(sys, par, step);
    OnlyCancelledStayLate(sys, par, step);
    forall q | q in sys.mons
      ensures Linked(t, sys.mons[q], par, q)
    {
      if q != step.p {
        OthersLinked(sys.s, step, sys.mons[q], par, q);
      } else {
        CancelledLinked(t, sys.mons[q], par, q);
      }
    }
  }

  lemma NotLateBeforeRefresh(sys: System, par: M.Params, step: P.Step)
    requires SysInv(sys, par) && Enabled(sys, par, Store(step)) && P.ProcStep(step)
    ensures step.p in sys.mons ==> sys.mons[step.p].cancelled
    ensures step.p !in sys.mons ==> !TooLate(sys.s, step) && !(step.Act? && step.action.RefreshStart?)
  {
    hide P.Inv, P.ContInv, Linked;
  }

  lemma OnlyCancelledStayLate(sys: System, par: M.Params, step: P.Step)
    requires SysInv(sys, par) && Enabled(sys, par, Store(step)) && P.ProcStep(step)
    ensures OnlyCancelledLate(Apply(sys, par, Store(step)))
  {
    PhaseAfter(sys.s, step);
    ClockAndLate(sys.s, step);
    NotLateBeforeRefresh(sys, par, step);
    hide P.Inv, P.ContInv, Linked, P.Apply, P.Enabled, TooLate, P.ProcStep, Enabled;
  }

  lemma RemovalKeeps(sys: System, par: M.Params, step: P.Step)
    requires SysInv(sys, par) && Enabled(sys, par, Store(step)) && step.RemoveStale?
    ensures SysInv(Apply(sys, par, Store(step)), par)
  {
    hide P.Inv, P.ContInv, Linked;
    ProtocolKeeps(sys.s, step);
    forall q | q in sys.mons
      ensures Linked(P.Apply(sys.s, step), sys.mons[q], par, q)
    {
      RemovalLinked(sys.s, step.id, sys.mons[q], par, q);
    }
  }

  lemma CancelledLinked(s: P.State, m: M.State, par: M.Params, p: P.Pid)
    requires m.cancelled
    ensures Linked(s, m, par, p)
  {
  }

  lemma BeginKeeps(sys: System, par: M.Params, p: P.Pid, m: M.State)
    requires SysInv(sys, par) && Enabled(sys, par, Begin(p, m)) && Bounded(par)
    ensures SysInv(Apply(sys, par, Begin(p, m)), par)
  {
    hide P.Inv, P.ContInv;
  }

  lemma InternalKeeps(sys: System, par: M.Params, p: P.Pid, step: M.Step)
    requires SysInv(sys, par) && Quiet(sys) && Enabled(sys, par, Internal(p, step)) && Bounded(par)
    ensures SysInv(Apply(sys, par, Internal(p, step)), par)
  {
    hide P.Inv, P.ContInv, Linked, M.Quiet, M.Enabled;
    InternalLinked(sys.s, sys.mons[p], par, p, step);
  }

  lemma AccessKeeps(sys: System, par: M.Params, p: P.Pid, step: M.Step, a: P.Action)
    requires SysInv(sys, par) && Quiet(sys) && Enabled(sys, par, Access(p, step, a)) && Bounded(par)
    ensures SysInv(Apply(sys, par, Access(p, step, a)), par)
  {
    hide P.Inv, P.ContInv, Linked, M.Quiet, M.Enabled, Paired, P.Enabled, P.Apply, M.Apply;
    var move := P.Act(p, a);
    ProtocolKeeps(sys.s, move);
    AccessLinked(sys.s, sys.mons[p], par, p, step, a);
    PhaseAfter(sys.s, move);
    ClockAndLate(sys.s, move);
    forall q | q in sys.mons && q != p
      ensures Linked(P.Apply(sys.s, move), sys.mons[q], par, q)
    {
      OthersLinked(sys.s, move, sys.mons[q], par, q);
    }
    LinkedIsNotLate(P.Apply(sys.s, move), M.Apply(sys.mons[p], par, step), par, p);
  }

  lemma LinkedIsNotLate(s: P.State, m: M.State, par: M.Params, p: P.Pid)
    requires Linked(s, m, par, p)
    ensures p in s.late ==> m.cancelled
  {
  }

  lemma InsideKeeps(sys: System, par: M.Params, p: P.Pid, a: P.Action)
    requires SysInv(sys, par) && Enabled(sys, par, Inside(p, a))
    ensures SysInv(Apply(sys, par, Inside(p, a)), par)
  {
    hide P.Inv, P.ContInv, Linked, P.Enabled, P.Apply;
    var move := P.Act(p, a);
    ProtocolKeeps(sys.s, move);
    InsideLinked(sys.s, sys.mons[p], par, p, a);
    PhaseAfter(sys.s, move);
    ClockAndLate(sys.s, move);
    forall q | q in sys.mons && q != p
      ensures Linked(P.Apply(sys.s, move), sys.mons[q], par, q)
    {
      OthersLinked(sys.s, move, sys.mons[q], par, q);
    }
    LinkedIsNotLate(P.Apply(sys.s, move), sys.mons[p], par, p);
  }

  lemma TimeKeeps(sys: System, par: M.Params, d: real)
    requires SysInv(sys, par) && Quiet(sys) && Enabled(sys, par, Time(d)) && Bounded(par)
    ensures SysInv(Apply(sys, par, Time(d)), par)
  {
    hide P.Inv, P.ContInv, Linked, M.Quiet, M.Enabled, M.Apply;
    ProtocolKeeps(sys.s, P.Tick(d));
    TickOnly(sys.s, d);
    forall p | p in sys.mons
      ensures Linked(P.Apply(sys.s, P.Tick(d)), Later(sys, par, d)[p], par, p)
    {
      TimeLinked(sys.s, d, sys.mons[p], par, p);
    }
    forall p | p in sys.mons && sys.mons[p].cancelled
      ensures Later(sys, par, d)[p].cancelled
    {
    }
    hide P.Apply;
  }

  lemma TickOnly(s: P.State, d: real)
    requires P.Enabled(s, P.Tick(d))
    ensures var t := P.Apply(s, P.Tick(d)); t.procs == s.procs && t.late == s.late
  {
  }

  lemma StoreKeeps(sys: System, par: M.Params, step: P.Step)
    requires SysInv(sys, par) && Enabled(sys, par, Store(step))
    ensures SysInv(Apply(sys, par, Store(step)), par)
  {
    hide SysInv, Apply, P.Enabled;
    if P.ProcStep(step) {
      ProcStepKeeps(sys, par, step);
    } else {
      RemovalKeeps(sys, par, step);
    }
  }

  lemma EventKeeps(sys: System, par: M.Params, e: Event)
    requires SysInv(sys, par) && Quiet(sys) && Enabled(sys, par, e) && Bounded(par)
    ensures SysInv(Apply(sys, par, e), par)
  {
    hide SysInv, Quiet, Enabled, Apply;
    match e
    case Store(step) => StoreKeeps(sys, par, step);
    case Begin(p, m) => BeginKeeps(sys, par, p, m);
    case Internal(p, step) => InternalKeeps(sys, par, p, step);
    case Access(p, step, a) => AccessKeeps(sys, par, p, step, a);
    case Inside(p, a) => InsideKeeps(sys, par, p, a);
    case Time(d) => TimeKeeps(sys, par, d);
  }

  lemma {:induction false} RunKeeps(sys: System, par: M.Params, events: seq<Event>)
    requires SysInv(sys, par) && QuietRuns(sys, par, events) && Bounded(par)
    ensures SysInv(Run(sys, par, events), par)
    decreases |events|
  {
    hide SysInv, Quiet, Enabled, Apply;
    if events != [] {
      EventKeeps(sys, par, events[0]);
      RunKeeps(Apply(sys, par, events[0]), par, events[1..]);
    }
  }

  /** A process that works holds a lock that is in the store and not stale. */
  lemma WorksWithFreshLock(sys: System, par: M.Params, p: P.Pid)
    requires SysInv(sys, par) && Bounded(par) && p in sys.mons && M.Working(sys.mons[p])
    ensures p in sys.s.procs && P.Holds(sys.s.procs[p]) && p !in sys.s.late
    ensures var cur := sys.s.procs[p].cur; cur in sys.s.store && cur in sys.s.files && !P.Stale(sys.s, cur)
  {
    M.QuietIsFresh(sys.mons[p], par);
    assert Linked(sys.s, sys.mons[p], par, p) && P.Continuous(sys.s, p);
  }

  /** Any number of processes, their goroutines, and others that remove stale locks: if a
      refresh and a poll take less than one and a half refresh intervals and no periodic
      refresh is in flight when a monitor fires, no two processes that work have conflicting
      locks. */
  lemma WorkersDoNotConflict(par: M.Params, events: seq<Event>, p: P.Pid, q: P.Pid)
    requires Bounded(par) && QuietRuns(NOTHING, par, events)
    requires var t := Run(NOTHING, par, events);
      p != q && p in t.mons && q in t.mons && M.Working(t.mons[p]) && M.Working(t.mons[q])
    ensures var t := Run(NOTHING, par, events);
      && p in t.s.procs && q in t.s.procs && P.Holds(t.s.procs[p]) && P.Holds(t.s.procs[q])
      && !t.s.procs[p].excl && !t.s.procs[q].excl
  {
    RunKeeps(NOTHING, par, events);
    var t := Run(NOTHING, par, events);
    WorksWithFreshLock(t, par, p);
    WorksWithFreshLock(t, par, q);
    P.HoldersDoNotConflict(t.s, q, p);
    P.HoldersDoNotConflict(t.s, p, q);
  }

  // ----- Nothing is in the way of the goroutines -----

  lemma {:induction false} Unused(ids: set<P.FileId>) returns (id: P.FileId)
    ensures forall x :: x in ids ==> x < id
  {
    if ids == {} {
      id := 0;
    } else {
      var x :| x in ids;
      var y := Unused(ids - {x});
      id := if x >= y then x + 1 else y;
      assert forall z :: z in ids ==> z == x || z in ids - {x};
    }
  }

  /** Whatever the refresher or the monitor may do next on their own, or with the store in a
      periodic refresh or at the beginning of a stale one, is possible. */
  lemma GoroutinesGoOn(sys: System, par: M.Params, p: P.Pid, step: M.Step)
    requires SysInv(sys, par) && Alive(sys, p) && M.Enabled(sys.mons[p], par, step)
    ensures step.TickerFires? || step.Notify? || step.Poll? || step.Report? || step.Cancel? ==>
      Enabled(sys, par, Internal(p, step))
    ensures step.TakeTick? ==>
      if sys.mons[p].now - sys.mons[p].rLast > 1350.0 then Enabled(sys, par, Internal(p, step))
      else Enabled(sys, par, Access(p, step, P.RefreshStart))
    ensures step.FileCreated? ==> exists id :: Enabled(sys, par, Access(p, step, P.RefreshCreate(id)))
    ensures step.RefreshOk? ==> Enabled(sys, par, Access(p, step, P.RemoveOld(true)))
    ensures step.RefreshErr? ==>
      Enabled(sys, par, Access(p, step, if sys.mons[p].refresher.created then P.RemoveOld(false) else P.RefreshFail))
    ensures step.Accept? ==> Enabled(sys, par, Access(p, step, P.StaleStart))
  {
    hide P.Inv, P.ContInv, M.QuietInv;
    assert Linked(sys.s, sys.mons[p], par, p);
    PeriodicGoesOn(sys, par, p, step);
  }

  lemma PeriodicGoesOn(sys: System, par: M.Params, p: P.Pid, step: M.Step)
    requires Alive(sys, p) && Linked(sys.s, sys.mons[p], par, p) && M.Enabled(sys.mons[p], par, step)
    ensures step.FileCreated? ==> exists id :: Enabled(sys, par, Access(p, step, P.RefreshCreate(id)))
    ensures step.RefreshOk? ==> Enabled(sys, par, Access(p, step, P.RemoveOld(true)))
    ensures step.RefreshErr? ==>
      Enabled(sys, par, Access(p, step, if sys.mons[p].refresher.created then P.RemoveOld(false) else P.RefreshFail))
  {
    hide M.QuietInv;
    if step.FileCreated? {
      var id := Unused(sys.s.files.Keys);
      assert Enabled(sys, par, Access(p, step, P.RefreshCreate(id)));
    }
  }

  /** So is whatever a stale refresh may do next: look for the old file, create the new one or
      fail to, look again, and remove one of both files. */
  lemma StaleRefreshGoesOn(sys: System, par: M.Params, p: P.Pid)
    requires SysInv(sys, par) && Alive(sys, p) && sys.mons[p].refresher.StaleRefreshing?
    ensures p in sys.s.procs && StaleNext(sys, par, p)
    ensures sys.mons[p].refresher.created ==>
      var phase := sys.s.procs[p].phase;
      phase.StaleCreating? || phase.StaleWaiting? || phase.StaleCleanup? || phase.StaleReplaced?
  {
    hide P.Inv, P.ContInv, M.QuietInv, StaleNext;
    assert Linked(sys.s, sys.mons[p], par, p);
    FirstLook(sys, par, p);
    SecondFile(sys, par, p);
    LastRemoval(sys, par, p);
    Together(sys, par, p);
  }

  ghost predicate StaleNext(sys: System, par: M.Params, p: P.Pid) {
    Looks(sys, par, p) && Creates(sys, par, p) && Removes(sys, par, p)
  }

  lemma Together(sys: System, par: M.Params, p: P.Pid)
    requires Looks(sys, par, p) && Creates(sys, par, p) && Removes(sys, par, p)
    ensures StaleNext(sys, par, p)
  {
  }

  ghost predicate Looks(sys: System, par: M.Params, p: P.Pid) {
    p in sys.s.procs && p in sys.mons && sys.mons[p].refresher.StaleRefreshing? && (!sys.mons[p].refresher.created ==>
      if sys.s.procs[p].cur in sys.s.store then Enabled(sys, par, Access(p, M.StaleCreated, P.StaleExists))
      else Enabled(sys, par, Access(p, M.StaleErr, P.StaleExists)))
  }

  ghost predicate Creates(sys: System, par: M.Params, p: P.Pid) {
    && p in sys.s.procs
    && (sys.s.procs[p].phase.StaleCreating? ==>
          && (exists id :: Enabled(sys, par, Inside(p, P.StaleCreate(id))))
          && Enabled(sys, par, Access(p, M.StaleErr, P.StaleCreateFail)))
    && (sys.s.procs[p].phase.StaleWaiting? ==>
          Enabled(sys, par, Inside(p, P.StaleRecheck(true))) && Enabled(sys, par, Inside(p, P.StaleRecheck(false))))
  }

  ghost predicate Removes(sys: System, par: M.Params, p: P.Pid) {
    && p in sys.s.procs
    && (sys.s.procs[p].phase.StaleCleanup? ==>
          && Enabled(sys, par, Access(p, M.StaleErr, P.CleanUp(true)))
          && Enabled(sys, par, Access(p, M.StaleErr, P.CleanUp(false))))
    && (sys.s.procs[p].phase.StaleReplaced? ==>
          && Enabled(sys, par, Access(p, M.StaleOk, P.StaleRemoveOld(true)))
          && Enabled(sys, par, Access(p, M.StaleErr, P.StaleRemoveOld(false))))
  }

  lemma FirstLook(sys: System, par: M.Params, p: P.Pid)
    requires Alive(sys, p) && Linked(sys.s, sys.mons[p], par, p) && sys.mons[p].refresher.StaleRefreshing?
    ensures Looks(sys, par, p)
  {
    hide M.QuietInv;
  }

  lemma SecondFile(sys: System, par: M.Params, p: P.Pid)
    requires Alive(sys, p) && Linked(sys.s, sys.mons[p], par, p) && sys.mons[p].refresher.StaleRefreshing?
    ensures Creates(sys, par, p)
  {
    hide M.QuietInv;
    if sys.s.procs[p].phase.StaleCreating? {
      var id := Unused(sys.s.files.Keys);
      assert Enabled(sys, par, Inside(p, P.StaleCreate(id)));
    }
  }

  lemma LastRemoval(sys: System, par: M.Params, p: P.Pid)
    requires Alive(sys, p) && Linked(sys.s, sys.mons[p], par, p) && sys.mons[p].refresher.StaleRefreshing?
    ensures Removes(sys, par, p)
  {
    hide M.QuietInv;
  }
}
