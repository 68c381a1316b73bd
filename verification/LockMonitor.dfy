/** The two goroutines that keep a lock alive: one refreshes it periodically, the other
    watches the time of the last refresh and asks for a stale refresh when it is too long ago
    (refreshLocks, monitorLockRefresh, tryRefreshStaleLock).

    Time is real-valued and in seconds.  Messages on the unbuffered channels are hand-overs
    that both sides have to be ready for. */
module LockMonitor {
  const REFRESH_INTERVAL: real := 300.0
  const STALE_TIMEOUT: real := 1800.0
  /** A lock that was not refreshed for this long is not refreshed periodically any more. */
  const REFRESHABILITY_TIMEOUT: real := STALE_TIMEOUT - REFRESH_INTERVAL * 3.0 / 2.0

  /** Longest time a refresh takes until its message is handed over, and the poll interval. */
  datatype Params = Params(d: real, p: real)

  datatype Refresher =
    | Idle
    | Refreshing(start: real, created: bool)
    | Notifying(start: real)                 // refreshed, wants to tell the monitor
    | StaleRefreshing(accepted: real, stamp: real, created: bool)
    | Reporting(accepted: real, ok: bool)    // stale refresh done, wants to tell the monitor

  datatype Monitor =
    | Watching
    | Requesting(fired: real)   // wants to hand over the request for a stale refresh
    | Waiting                   // for the result of the stale refresh
    | Stopped

  /** `diskTime` is the time in the lock file in use; `rLast` and `mLast` are the last
      refresh as the refresher and the monitor know it.  The refresher's ticker fires at
      `nextTick`; `ticked` says that a tick waits in its channel, which holds one. */
  datatype State = State(now: real, diskTime: real, rLast: real, mLast: real, lastPoll: real,
                         nextTick: real, ticked: bool,
                         refresher: Refresher, monitor: Monitor, frozen: bool, cancelled: bool)

  datatype Step =
    | Tick(d: real)
    | TickerFires
    | TakeTick
    | FileCreated
    | RefreshOk
    | RefreshErr
    | Notify
    | Poll
    | Accept
    | StaleCreated
    | StaleOk
    | StaleErr
    | Report
    | Cancel

  predicate Init(s: State, par: Params) {
    && s.refresher == Idle && s.monitor == Watching && !s.frozen && !s.cancelled
    && s.rLast == s.diskTime <= s.now <= s.diskTime + par.d
    && s.mLast == s.now == s.lastPoll && s.nextTick == s.now + REFRESH_INTERVAL && !s.ticked
  }

  /** Time passes only while nobody has to act: the ticker fires and polls happen in time,
      refreshes end in time and a hand-over happens as soon as both sides are ready. */
  predicate MayPass(s: State, par: Params, now: real) {
    && now <= s.nextTick
    && (s.monitor.Watching? ==> now <= s.lastPoll + par.p)
    && (s.monitor.Requesting? ==> !s.refresher.Idle?)
    && match s.refresher
       case Idle => true
       case Refreshing(start, _) => now <= start + par.d
       case Notifying(start) => !s.monitor.Requesting? ==> now <= start + par.d
       case StaleRefreshing(accepted, _, _) => now <= accepted + par.d
       case Reporting(accepted, _) => now <= accepted + par.d
  }

  predicate Enabled(s: State, par: Params, step: Step) {
    !s.cancelled &&
    match step
    case Tick(d) => d > 0.0 && MayPass(s, par, s.now + d)
    case TickerFires => s.now >= s.nextTick
    case TakeTick => s.refresher.Idle? && s.ticked
    case FileCreated => s.refresher.Refreshing? && !s.refresher.created
    case RefreshOk => s.refresher.Refreshing? && s.refresher.created
    case RefreshErr => s.refresher.Refreshing?
    case Notify => s.refresher.Notifying? && s.monitor.Watching?
    case Poll => s.monitor.Watching?
    case Accept => s.refresher.Idle? && s.monitor.Requesting?
    case StaleCreated => s.refresher.StaleRefreshing? && !s.refresher.created
    case StaleOk => s.refresher.StaleRefreshing? && s.refresher.created
    case StaleErr => s.refresher.StaleRefreshing?
    case Report => s.refresher.Reporting? && s.monitor.Waiting?
    case Cancel => true
  }

  function Apply(s: State, par: Params, step: Step): State
    requires Enabled(s, par, step)
  {
    match step
    case Tick(d) => s.(now := s.now + d)
    case TickerFires => s.(ticked := true, nextTick := s.nextTick + REFRESH_INTERVAL)
    // a lock that is too old is left to the monitor
    case TakeTick => s.(ticked := false,
        refresher := if s.now - s.rLast > REFRESHABILITY_TIMEOUT then Idle else Refreshing(s.now, false))
    case FileCreated => s.(refresher := Refreshing(s.refresher.start, true), diskTime := s.refresher.start)
    case RefreshOk => s.(refresher := Notifying(s.refresher.start), rLast := s.refresher.start)
    case RefreshErr => s.(refresher := Idle)
    case Notify => s.(refresher := Idle, mLast := s.now)
    case Poll =>
      if s.now - s.mLast < REFRESHABILITY_TIMEOUT then s.(lastPoll := s.now)
      else s.(lastPoll := s.now, monitor := Requesting(s.now))
    case Accept => s.(refresher := StaleRefreshing(s.now, s.now, false), monitor := Waiting, frozen := true)
    case StaleCreated => s.(refresher := StaleRefreshing(s.refresher.accepted, s.now, true))
    case StaleOk =>
      s.(refresher := Reporting(s.refresher.accepted, true), diskTime := s.refresher.stamp, frozen := false)
    // the context is cancelled while the backend is still frozen
    case StaleErr => s.(refresher := Reporting(s.refresher.accepted, false), cancelled := true, frozen := false)
    case Report => s.(refresher := Idle, rLast := s.diskTime, mLast := s.now, lastPoll := s.now, monitor := Watching)
    case Cancel => s.(cancelled := true)
  }

  predicate Runs(s: State, par: Params, steps: seq<Step>)
    decreases |steps|
  {
    steps == [] || (Enabled(s, par, steps[0]) && Runs(Apply(s, par, steps[0]), par, steps[1..]))
  }

  function Run(s: State, par: Params, steps: seq<Step>): State
    requires Runs(s, par, steps)
    decreases |steps|
  {
    if steps == [] then s else Run(Apply(s, par, steps[0]), par, steps[1..])
  }

  /** Both goroutines want to send and neither receives: the refresher tells of a periodic
      refresh while the monitor asks for a stale one. */
  predicate Stuck(s: State) {
    s.refresher.Notifying? && s.monitor.Requesting?
  }

  function Age(s: State): real {
    s.now - s.diskTime
  }

  predicate Working(s: State) {
    !s.cancelled && !s.frozen
  }

  ghost predicate Inv(s: State, par: Params) {
    && s.diskTime <= s.now && s.mLast <= s.now && s.now <= s.nextTick
    && s.mLast <= s.diskTime + par.d
    && (s.monitor.Watching? ==>
          && s.now - s.mLast < REFRESHABILITY_TIMEOUT + par.p && s.now <= s.lastPoll + par.p
          && s.lastPoll - s.mLast < REFRESHABILITY_TIMEOUT && s.lastPoll <= s.now)
    && (s.monitor.Watching? || s.monitor.Requesting? ==>
          !s.frozen && !s.refresher.StaleRefreshing? && !s.refresher.Reporting?)
    && (s.monitor.Waiting? ==> s.refresher.StaleRefreshing? || s.refresher.Reporting?)
    && !s.monitor.Stopped?
    && (s.monitor.Requesting? ==>
          var f := s.monitor.fired;
          && f <= s.now && REFRESHABILITY_TIMEOUT <= f - s.mLast < REFRESHABILITY_TIMEOUT + par.p
          && (!Stuck(s) ==> s.now <= f + par.d)
          && (s.refresher.Refreshing? ==> s.refresher.start <= f))
    && match s.refresher
       case Idle => s.rLast <= s.mLast
       case Refreshing(start, created) =>
         start <= s.now <= start + par.d && s.rLast <= s.mLast && s.mLast <= start && (created ==> s.diskTime == start)
       case Notifying(start) => start <= s.now && s.diskTime == start == s.rLast &&
         (!s.monitor.Requesting? ==> s.now <= start + par.d)
       case StaleRefreshing(accepted, stamp, _) => accepted <= stamp <= s.now <= accepted + par.d && s.frozen
       case Reporting(accepted, _) => !s.frozen && (accepted <= s.diskTime <= s.now <= accepted + par.d || s.cancelled)
  }

  lemma TimeInv(s: State, par: Params, step: Step)
    requires Inv(s, par) && par.d > 0.0 && par.p > 0.0 && Enabled(s, par, step)
    requires step.Tick? || step.TickerFires? || step.Cancel?
    ensures Inv(Apply(s, par, step), par)
  {
  }

  lemma PeriodicInv(s: State, par: Params, step: Step)
    requires Inv(s, par) && par.d > 0.0 && par.p > 0.0 && Enabled(s, par, step)
    requires step.TakeTick? || step.FileCreated? || step.RefreshOk? || step.RefreshErr? || step.Notify?
    ensures Inv(Apply(s, par, step), par)
  {
  }

  lemma StaleInv(s: State, par: Params, step: Step)
    requires Inv(s, par) && par.d > 0.0 && par.p > 0.0 && Enabled(s, par, step)
    requires step.Poll? || step.Accept? || step.StaleCreated? || step.StaleOk? || step.StaleErr? || step.Report?
    ensures Inv(Apply(s, par, step), par)
  {
  }

  /** Every step keeps what the goroutines know within bounds of the file's time. */
  lemma StepInv(s: State, par: Params, step: Step)
    requires Inv(s, par) && par.d > 0.0 && par.p > 0.0 && Enabled(s, par, step)
    ensures Inv(Apply(s, par, step), par)
  {
    hide Inv, Apply;
    match step
    case Tick(_) => TimeInv(s, par, step);
    case TickerFires => TimeInv(s, par, step);
    case Cancel => TimeInv(s, par, step);
    case TakeTick => PeriodicInv(s, par, step);
    case FileCreated => PeriodicInv(s, par, step);
    case RefreshOk => PeriodicInv(s, par, step);
    case RefreshErr => PeriodicInv(s, par, step);
    case Notify => PeriodicInv(s, par, step);
    case _ => StaleInv(s, par, step);
  }

  lemma {:induction false} RunInv(s: State, par: Params, steps: seq<Step>)
    requires Inv(s, par) && par.d > 0.0 && par.p > 0.0 && Runs(s, par, steps)
    ensures Inv(Run(s, par, steps), par)
    decreases |steps|
  {
    if steps != [] {
      StepInv(s, par, steps[0]);
      RunInv(Apply(s, par, steps[0]), par, steps[1..]);
    }
  }

  /** If two refreshes and a poll take less than one and a half refresh intervals, a process
      that still works has a lock that is not stale, unless the goroutines are stuck. */
  lemma FreshUnlessStuck(s: State, par: Params, steps: seq<Step>)
    requires Init(s, par) && Runs(s, par, steps) && par.d > 0.0 && par.p > 0.0
    requires 2.0 * par.d + par.p < REFRESH_INTERVAL * 3.0 / 2.0
    ensures var t := Run(s, par, steps);
      Working(t) ==> Age(t) < STALE_TIMEOUT || Stuck(t)
  {
    RunInv(s, par, steps);
  }

  // ----- No refresh in flight when the monitor fires -----

  /** The monitor's request finds the refresher idle. */
  predicate Quiet(s: State) {
    s.monitor.Requesting? ==> s.refresher.Idle?
  }

  ghost predicate QuietRuns(s: State, par: Params, steps: seq<Step>)
    decreases |steps|
  {
    Quiet(s) && (steps == [] || (Enabled(s, par, steps[0]) && QuietRuns(Apply(s, par, steps[0]), par, steps[1..])))
  }

  /** What the refresher knows of the last refresh is not newer than the file. */
  ghost predicate Known(s: State) {
    && s.rLast <= s.diskTime
    && (s.refresher.Refreshing? ==> s.refresher.start - s.rLast <= REFRESHABILITY_TIMEOUT)
    && (s.refresher.StaleRefreshing? ==> s.diskTime <= s.refresher.accepted)
  }

  ghost predicate QuietInv(s: State, par: Params) {
    Inv(s, par) && Known(s) && (s.monitor.Requesting? ==> s.now == s.monitor.fired)
  }

  lemma QuietStep(s: State, par: Params, step: Step)
    requires QuietInv(s, par) && Quiet(s) && par.d > 0.0 && par.p > 0.0 && Enabled(s, par, step)
    ensures QuietInv(Apply(s, par, step), par)
  {
    StepInv(s, par, step);
  }

  /** While it works, a process has a lock that is not stale. */
  lemma QuietIsFresh(s: State, par: Params)
    requires QuietInv(s, par) && Working(s) && par.p > 0.0 && par.d + par.p < REFRESH_INTERVAL * 3.0 / 2.0
    ensures Age(s) < STALE_TIMEOUT
  {
  }

  lemma {:induction false} QuietFresh(s: State, par: Params, steps: seq<Step>)
    requires QuietInv(s, par) && par.d > 0.0 && par.p > 0.0 && QuietRuns(s, par, steps)
    ensures Runs(s, par, steps) && QuietInv(Run(s, par, steps), par)
    decreases |steps|
  {
    hide QuietInv, Enabled, Apply;
    if steps != [] {
      QuietStep(s, par, steps[0]);
      QuietFresh(Apply(s, par, steps[0]), par, steps[1..]);
    }
  }

  /** If a refresh and a poll take less than one and a half refresh intervals and no periodic
      refresh is in flight when the monitor fires, a process that still works has a lock that
      is not stale. */
  lemma FreshWhenQuiet(s: State, par: Params, steps: seq<Step>)
    requires Init(s, par) && QuietRuns(s, par, steps) && par.d > 0.0 && par.p > 0.0
    requires par.d + par.p < REFRESH_INTERVAL * 3.0 / 2.0
    ensures Runs(s, par, steps)
    ensures var t := Run(s, par, steps);
      Working(t) ==> Age(t) < STALE_TIMEOUT
  {
    QuietFresh(s, par, steps);
    if Working(Run(s, par, steps)) {
      QuietIsFresh(Run(s, par, steps), par);
    }
  }

  // ----- When refreshes begin -----

  function Fired(steps: seq<Step>): nat {
    if steps == [] then 0 else (if steps[0].TickerFires? then 1 else 0) + Fired(steps[1..])
  }

  function Taken(steps: seq<Step>): nat {
    if steps == [] then 0 else (if steps[0].TakeTick? then 1 else 0) + Taken(steps[1..])
  }

  /** Each periodic refresh needs a tick of its own, and ticks are five minutes apart. */
  lemma {:induction false} RefreshesNeedTicks(s: State, par: Params, steps: seq<Step>)
    requires Runs(s, par, steps) && s.nextTick <= s.now + 300.0
    ensures Taken(steps) <= Fired(steps) + if s.ticked then 1 else 0
    ensures var t := Run(s, par, steps);
      t.nextTick == s.nextTick + Fired(steps) as real * 300.0 && t.nextTick <= t.now + 300.0
    decreases |steps|
  {
    if steps != [] {
      RefreshesNeedTicks(Apply(s, par, steps[0]), par, steps[1..]);
      if steps[0].TickerFires? {
        assert Fired(steps) as real * 300.0 == Fired(steps[1..]) as real * 300.0 + 300.0;
      }
    }
  }

  /** A stale refresh begins only 1350 seconds after the last refresh that the monitor was told
      of, and a periodic one at most 1350 seconds after the last that the refresher knows of. */
  lemma RefreshesBegin(s: State, par: Params, step: Step)
    requires Inv(s, par) && Enabled(s, par, step)
    ensures step.Accept? ==> s.now - s.mLast >= 1350.0 && s.monitor.Requesting? && Apply(s, par, step).frozen
    ensures step.TakeTick? && s.now - s.rLast > 1350.0 ==> Apply(s, par, step).refresher == Idle
    ensures step.TakeTick? && s.now - s.rLast <= 1350.0 ==> Apply(s, par, step).refresher == Refreshing(s.now, false)
    ensures step.FileCreated? || step.StaleCreated? ==> !s.refresher.created
    ensures step.RefreshOk? || step.StaleOk? ==> s.refresher.created
    ensures step.Report? ==> s.monitor.Waiting?
  {
  }

  /** A refresh, and telling the monitor of it, may take any time up to the bound. */
  lemma RefreshMayTake(s: State, par: Params, until: real)
    requires !s.cancelled && s.now < until <= s.nextTick && !s.refresher.Idle?
    requires s.monitor.Watching? ==> until <= s.lastPoll + par.p
    requires match s.refresher
      case Refreshing(start, _) => until <= start + par.d
      case Notifying(start) => until <= start + par.d
      case StaleRefreshing(accepted, _, _) => until <= accepted + par.d
      case Reporting(accepted, _) => until <= accepted + par.d
    ensures Enabled(s, par, Tick(until - s.now)) && Apply(s, par, Tick(until - s.now)) == s.(now := until)
  {
  }

  // ----- A refresh in flight when the monitor fires -----

  /** Only a periodic refresh gets both stuck: one that succeeds while the request is pending,
      or whose message is not handed over yet when the monitor fires. */
  lemma StuckOnlyThen(s: State, par: Params, step: Step)
    requires Inv(s, par) && Enabled(s, par, step) && !Stuck(s)
    ensures Stuck(Apply(s, par, step)) ==>
      (step == RefreshOk && s.monitor.Requesting?) || (step == Poll && s.refresher.Notifying?)
  {
  }

  /** Once stuck, nothing happens any more but that time passes, unless the process is
      cancelled from outside. */
  lemma {:induction false} StuckForever(s: State, par: Params, steps: seq<Step>)
    requires Stuck(s) && Runs(s, par, steps)
    ensures var t := Run(s, par, steps);
      t.cancelled || (Stuck(t) && t.diskTime == s.diskTime && t.frozen == s.frozen && t.now >= s.now)
    decreases |steps|
  {
    if steps != [] {
      var t := Apply(s, par, steps[0]);
      if !t.cancelled {
        StuckForever(t, par, steps[1..]);
      }
    }
  }

  /** Time passes until the ticker has fired `n` times. */
  lemma {:induction false} StuckWaits(s: State, par: Params, n: nat) returns (steps: seq<Step>)
    requires Stuck(s) && Working(s) && s.now <= s.nextTick
    ensures Runs(s, par, steps)
    ensures var t := Run(s, par, steps);
      Stuck(t) && Working(t) && t.diskTime == s.diskTime && t.now >= s.now &&
        (n > 0 ==> t.now >= s.nextTick + (n - 1) as real * REFRESH_INTERVAL)
    decreases n
  {
    steps := [];
    if n > 0 {
      var u := s.(now := s.nextTick);
      steps := StuckWaits(Apply(u, par, TickerFires), par, n - 1);
      assert n > 1 ==> (n - 2) as real * REFRESH_INTERVAL + REFRESH_INTERVAL == (n - 1) as real * REFRESH_INTERVAL;
      Chain(u, par, TickerFires, steps);
      steps := [TickerFires] + steps;
      if s.now < s.nextTick {
        Chain(s, par, Tick(s.nextTick - s.now), steps);
        steps := [Tick(s.nextTick - s.now)] + steps;
      }
    }
  }

  /** ... so a stuck process comes to work with a lock of any age. */
  lemma StuckGoesStale(s: State, par: Params, age: real)
    requires Stuck(s) && Working(s) && Inv(s, par)
    ensures exists steps :: Runs(s, par, steps) && Working(Run(s, par, steps)) && Age(Run(s, par, steps)) > age
  {
    var missing := age - (s.nextTick - s.diskTime);
    var n: nat := if missing > 0.0 then (missing / REFRESH_INTERVAL).Floor + 2 else 2;
    var steps := StuckWaits(s, par, n);
    assert (n - 1) as real * REFRESH_INTERVAL > missing;
    assert Runs(s, par, steps) && Working(Run(s, par, steps)) && Age(Run(s, par, steps)) > age;
  }

  // ----- Runs in which both get stuck -----

  ghost predicate Reaches(s: State, par: Params, t: State) {
    exists steps :: Runs(s, par, steps) && Run(s, par, steps) == t
  }

  lemma Here(s: State, par: Params)
    ensures Reaches(s, par, s)
  {
    assert Runs(s, par, []) && Run(s, par, []) == s;
  }

  /** One more step at the beginning. */
  lemma First(s: State, par: Params, step: Step, t: State)
    requires Enabled(s, par, step) && Reaches(Apply(s, par, step), par, t)
    ensures Reaches(s, par, t)
  {
    hide Enabled, Apply;
    var rest :| Runs(Apply(s, par, step), par, rest) && Run(Apply(s, par, step), par, rest) == t;
    Chain(s, par, step, rest);
    assert Runs(s, par, [step] + rest);
  }

  lemma One(s: State, par: Params, step: Step)
    requires Enabled(s, par, step)
    ensures Reaches(s, par, Apply(s, par, step))
  {
    Here(Apply(s, par, step), par);
    First(s, par, step, Apply(s, par, step));
  }

  lemma {:induction false} RunThen(s: State, par: Params, steps: seq<Step>, t: State)
    requires Runs(s, par, steps) && Reaches(Run(s, par, steps), par, t)
    ensures Reaches(s, par, t)
    decreases |steps|
  {
    hide Enabled, Apply, Reaches;
    if steps != [] {
      RunThen(Apply(s, par, steps[0]), par, steps[1..], t);
      First(s, par, steps[0], t);
    }
  }

  lemma Then(s: State, par: Params, t: State, u: State)
    requires Reaches(s, par, t) && Reaches(t, par, u)
    ensures Reaches(s, par, u)
  {
    var steps :| Runs(s, par, steps) && Run(s, par, steps) == t;
    RunThen(s, par, steps, u);
  }

  /** The monitor watches and polls in time, and no refresh ends before `until`. */
  predicate Waits(s: State, par: Params, until: real) {
    && !s.cancelled && s.monitor.Watching? && par.p > 0.0
    && s.now <= until <= s.nextTick && s.now <= s.lastPoll + par.p && until - s.mLast <= REFRESHABILITY_TIMEOUT
    && (s.refresher.Idle? || (s.refresher.Refreshing? && until <= s.refresher.start + par.d))
  }

  /** Time passes and the monitor polls without firing, which needs at most `n` polls. */
  lemma {:induction false} Wait(s: State, par: Params, until: real, n: nat) returns (t: State)
    requires Waits(s, par, until) && until - s.now <= n as real * par.p
    ensures Reaches(s, par, t) && Waits(t, par, until)
    ensures t == s.(now := until, lastPoll := t.lastPoll)
    decreases n
  {
    hide Reaches;
    if s.now == until {
      t := s;
      Here(s, par);
    } else {
      var u := s.(lastPoll := s.now);
      assert Apply(s, par, Poll) == u;
      if until <= s.now + par.p {
        t := u.(now := until);
        assert Apply(u, par, Tick(until - s.now)) == t;
        One(u, par, Tick(until - s.now));
      } else {
        var v := u.(now := s.now + par.p);
        assert Apply(u, par, Tick(par.p)) == v;
        assert (n - 1) as real * par.p == n as real * par.p - par.p;
        t := Wait(v, par, until, n - 1);
        First(u, par, Tick(par.p), t);
      }
      First(s, par, Poll, t);
    }
  }

  lemma WaitUntil(s: State, par: Params, until: real) returns (t: State)
    requires Waits(s, par, until)
    ensures Reaches(s, par, t) && Waits(t, par, until)
    ensures t == s.(now := until, lastPoll := t.lastPoll)
  {
    hide Waits, Reaches;
    var n := EnoughPolls(s, par, until);
    t := Wait(s, par, until, n);
  }

  lemma EnoughPolls(s: State, par: Params, until: real) returns (n: nat)
    requires Waits(s, par, until)
    ensures until - s.now <= n as real * par.p
  {
    var r := (until - s.now) / par.p;
    n := r.Floor + 1;
    TimesAtMost(r, n as real, par.p);
  }

  lemma TimesAtMost(a: real, b: real, p: real)
    requires a <= b && p > 0.0
    ensures a * p <= b * p
  {
  }

  /** The refresh of the next tick fails at once. */
  lemma FailedRound(s: State, par: Params) returns (t: State)
    requires Waits(s, par, s.nextTick) && s.refresher.Idle? && s.rLast == s.mLast
    ensures Reaches(s, par, t)
    ensures t == s.(now := s.nextTick, nextTick := s.nextTick + REFRESH_INTERVAL, ticked := false,
                    lastPoll := t.lastPoll)
    ensures t.now <= t.lastPoll + par.p
  {
    hide Reaches;
    var a := WaitUntil(s, par, s.nextTick);
    t := a.(nextTick := s.nextTick + REFRESH_INTERVAL, ticked := false);
    var b, c := t.(ticked := true), t.(refresher := Refreshing(t.now, false));
    assert Apply(a, par, TickerFires) == b && Apply(b, par, TakeTick) == c && Apply(c, par, RefreshErr) == t;
    One(c, par, RefreshErr);
    First(b, par, TakeTick, t);
    First(a, par, TickerFires, t);
    Then(s, par, a, t);
  }

  lemma {:induction false} FailedRounds(s: State, par: Params, n: nat) returns (t: State)
    requires Waits(s, par, s.nextTick) && s.refresher.Idle? && s.rLast == s.mLast && !s.ticked && n > 0
    requires s.nextTick + (n - 1) as real * REFRESH_INTERVAL - s.mLast <= REFRESHABILITY_TIMEOUT
    ensures Reaches(s, par, t) && t.now <= t.lastPoll + par.p
    ensures var last := s.nextTick + (n - 1) as real * REFRESH_INTERVAL;
      t == s.(now := last, nextTick := last + REFRESH_INTERVAL, lastPoll := t.lastPoll)
    decreases n
  {
    hide Reaches;
    t := FailedRound(s, par);
    if n > 1 {
      assert (n - 2) as real * REFRESH_INTERVAL + REFRESH_INTERVAL == (n - 1) as real * REFRESH_INTERVAL;
      var u := FailedRounds(t, par, n - 1);
      Then(s, par, t, u);
      t := u;
    }
  }

  /** The refresh of the next tick creates its file at once. */
  lemma BegunRound(s: State, par: Params) returns (t: State)
    requires Waits(s, par, s.nextTick) && s.refresher.Idle? && s.rLast == s.mLast
    ensures Reaches(s, par, t)
    ensures t == s.(now := s.nextTick, nextTick := s.nextTick + REFRESH_INTERVAL, ticked := false,
                    lastPoll := t.lastPoll,
                    refresher := Refreshing(s.nextTick, true), diskTime := s.nextTick)
    ensures t.now <= t.lastPoll + par.p
  {
    hide Reaches;
    var a := WaitUntil(s, par, s.nextTick);
    var b := a.(nextTick := s.nextTick + REFRESH_INTERVAL, ticked := true);
    var c := b.(ticked := false, refresher := Refreshing(b.now, false));
    t := c.(refresher := Refreshing(b.now, true), diskTime := b.now);
    assert Apply(a, par, TickerFires) == b && Apply(b, par, TakeTick) == c && Apply(c, par, FileCreated) == t;
    One(c, par, FileCreated);
    First(b, par, TakeTick, t);
    First(a, par, TickerFires, t);
    Then(s, par, a, t);
  }

  /** The monitor fires, and the refresh in flight succeeds. */
  lemma FiresInFlight(s: State, par: Params) returns (t: State)
    requires !s.cancelled && !s.frozen && s.monitor.Watching? && s.now - s.mLast == REFRESHABILITY_TIMEOUT
    requires s.refresher.Refreshing? && s.refresher.created
    ensures Reaches(s, par, t) && Stuck(t) && Working(t) && t.now == s.now
  {
    hide Reaches;
    var u := Apply(s, par, Poll);
    t := Apply(u, par, RefreshOk);
    One(u, par, RefreshOk);
    First(s, par, Poll, t);
  }

  /** The monitor fires, and a stale refresh succeeds at once. */
  lemma StaleRound(s: State, par: Params) returns (t: State)
    requires !s.cancelled && !s.frozen && s.monitor.Watching? && s.now - s.mLast == REFRESHABILITY_TIMEOUT
    requires s.refresher.Idle?
    ensures Reaches(s, par, t)
    ensures t == s.(rLast := s.now, mLast := s.now, diskTime := s.now, lastPoll := s.now)
  {
    hide Reaches;
    var a := Apply(s, par, Poll);
    var b := Apply(a, par, Accept);
    var c := Apply(b, par, StaleCreated);
    var e := Apply(c, par, StaleOk);
    t := Apply(e, par, Report);
    One(e, par, Report);
    First(c, par, StaleOk, t);
    First(b, par, StaleCreated, t);
    First(a, par, Accept, t);
    First(s, par, Poll, t);
  }

  const FIRST_STATE: State := State(0.0, 0.0, 0.0, 0.0, 0.0, 300.0, false, Idle, Watching, false, false)

  /** The refreshes of the first three ticks fail at once.  The one begun at the fourth takes
      150 seconds, so that it is still in flight when the monitor fires; then both wait for
      each other. */
  lemma SlowRefreshGetsStuck(par: Params) returns (t: State)
    requires par.d >= 150.0 && par.p > 0.0
    ensures Init(FIRST_STATE, par) && Reaches(FIRST_STATE, par, t) && Stuck(t) && Working(t)
    ensures t.now == 1350.0
  {
    hide Reaches;
    var a := FailedRounds(FIRST_STATE, par, 3);
    var b := BegunRound(a, par);
    var c := WaitUntil(b, par, 1350.0);
    t := FiresInFlight(c, par);
    Then(b, par, c, t);
    Then(a, par, b, t);
    Then(FIRST_STATE, par, a, t);
  }

  /** However fast refreshes and polls are, a run gets there: the refreshes of the first four
      ticks fail, the stale refresh after 1350 seconds succeeds, the next four fail again, and
      the tick after 2700 seconds finds the monitor about to fire. */
  lemma CanGetStuck(par: Params) returns (t: State)
    requires par.d > 0.0 && par.p > 0.0
    ensures Init(FIRST_STATE, par) && Reaches(FIRST_STATE, par, t) && Stuck(t) && Working(t)
  {
    hide Reaches;
    var a := FailedRounds(FIRST_STATE, par, 4);
    var b := WaitUntil(a, par, 1350.0);
    var c := StaleRound(b, par);
    var d := FailedRounds(c, par, 4);
    var e := BegunRound(d, par);
    t := FiresInFlight(e, par);
    Then(d, par, e, t);
    Then(c, par, d, t);
    Then(b, par, c, t);
    Then(a, par, b, t);
    Then(FIRST_STATE, par, a, t);
  }

  lemma Chain(s: State, par: Params, step: Step, rest: seq<Step>)
    requires Enabled(s, par, step) && Runs(Apply(s, par, step), par, rest)
    ensures Runs(s, par, [step] + rest) && Run(s, par, [step] + rest) == Run(Apply(s, par, step), par, rest)
  {
    assert ([step] + rest)[1..] == rest;
  }
}
