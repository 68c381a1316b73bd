/** Locks that do not exclude each other: any number of processes can hold one at the same time,
    and a process that is alone can hold an exclusive one. */
module SharedLocks {
  import opened LockProtocol

  ghost predicate Reaches(s: State, t: State) {
    exists steps :: Runs(s, steps) && NobodyRemoves(steps) && Run(s, steps) == t
  }

  lemma Here(s: State)
    ensures Reaches(s, s)
  {
    assert Runs(s, []) && NobodyRemoves([]) && Run(s, []) == s;
  }

  lemma First(s: State, step: Step, t: State)
    requires Enabled(s, step) && !step.RemoveStale? && Reaches(Apply(s, step), t)
    ensures Reaches(s, t)
  {
    hide Enabled, Apply;
    var u := Apply(s, step);
    var rest :| Runs(u, rest) && NobodyRemoves(rest) && Run(u, rest) == t;
    var steps := [step] + rest;
    assert steps[1..] == rest;
    assert Runs(s, steps) && NobodyRemoves(steps) && Run(s, steps) == t;
  }

  lemma {:induction false} RunThen(s: State, steps: seq<Step>, t: State)
    requires Runs(s, steps) && NobodyRemoves(steps) && Reaches(Run(s, steps), t)
    ensures Reaches(s, t)
    decreases |steps|
  {
    hide Enabled, Apply, Reaches;
    if steps != [] {
      RunThen(Apply(s, steps[0]), steps[1..], t);
      First(s, steps[0], t);
    }
  }

  lemma Then(s: State, t: State, u: State)
    requires Reaches(s, t) && Reaches(t, u)
    ensures Reaches(s, u)
  {
    var steps :| Runs(s, steps) && NobodyRemoves(steps) && Run(s, steps) == t;
    RunThen(s, steps, u);
  }

  /** Only process `p` is at work, with this phase; all else is as in `s`. */
  ghost predicate At(s: State, t: State, p: Pid, phase: Phase) {
    && p in s.procs && t.files == s.files && t.store == s.store && t.procs == s.procs[p := s.procs[p].(phase := phase)]
  }

  ghost predicate Compatible(s: State, excl: bool, ids: set<FileId>) {
    forall id :: id in ids ==> id in s.store && id in s.files && !excl && !s.files[id].excl
  }

  lemma LoadsOne(s: State, p: Pid, c: Check, id: FileId)
    requires p in s.procs && InCheck(s.procs[p]) && CheckOf(s.procs[p]) == c && c.Loading? && id in c.toLoad
    requires Compatible(s, s.procs[p].excl, c.toLoad)
    ensures Enabled(s, Act(p, LoadOk(id)))
    ensures At(s, Apply(s, Act(p, LoadOk(id))), p,
               Continue(s.procs[p], Loading(c.toLoad - {id}, c.newChecked + {id}, c.tries)).phase)
  {
  }

  /** A check loads files none of which conflicts. */
  lemma {:induction false} LoadsAll(s: State, p: Pid, c: Check) returns (t: State)
    requires p in s.procs && InCheck(s.procs[p]) && CheckOf(s.procs[p]) == c && c.Loading?
    requires Compatible(s, s.procs[p].excl, c.toLoad)
    ensures Reaches(s, t)
    ensures At(s, t, p, Continue(s.procs[p], Loading({}, c.newChecked + c.toLoad, c.tries)).phase)
    decreases |c.toLoad|
  {
    hide Reaches, Enabled, Apply;
    if c.toLoad == {} {
      t := s;
      Here(s);
      assert c == Loading({}, c.newChecked + c.toLoad, c.tries);
      assert s.procs == s.procs[p := s.procs[p]];
    } else {
      var id :| id in c.toLoad;
      LoadsOne(s, p, c, id);
      var u := Apply(s, Act(p, LoadOk(id)));
      var rest := Loading(c.toLoad - {id}, c.newChecked + {id}, c.tries);
      t := LoadsAll(u, p, rest);
      assert rest.newChecked + rest.toLoad == c.newChecked + c.toLoad;
      First(s, Act(p, LoadOk(id)), t);
    }
  }

  /** A check lists and loads, and passes. */
  lemma Checks(s: State, p: Pid) returns (t: State)
    requires p in s.procs && InCheck(s.procs[p]) && CheckOf(s.procs[p]).Listing?
    requires Compatible(s, s.procs[p].excl, s.store - CheckOf(s.procs[p]).checked)
    ensures Reaches(s, t) && At(s, t, p, if s.procs[p].phase.FirstCheck? then Creating else Holding)
  {
    hide Reaches;
    var c := CheckOf(s.procs[p]);
    var u := Apply(s, Act(p, List));
    var loading := Loading(s.store - c.checked, c.checked, c.tries);
    assert At(s, u, p, Continue(s.procs[p], loading).phase);
    var v := LoadsAll(u, p, loading);
    t := Apply(v, Act(p, Pass));
    Here(t);
    First(v, Act(p, Pass), t);
    Then(u, v, t);
    First(s, Act(p, List), t);
    assert At(v, t, p, if s.procs[p].phase.FirstCheck? then Creating else Holding);
  }

  /** The first `n` processes hold locks of this kind, and there is nothing else. */
  ghost predicate Share(s: State, n: nat, excl: bool) {
    && (forall p: Pid :: p in s.procs <==> p < n)
    && (forall id: FileId :: id in s.files <==> id < n) && s.store == s.files.Keys
    && (forall p :: p in s.procs ==> s.procs[p].phase == Holding && s.procs[p].excl == excl)
    && (forall id :: id in s.files ==> s.files[id].excl == excl)
  }

  lemma Starts(s: State, n: nat, excl: bool)
    requires Share(s, n, excl)
    ensures Enabled(s, Start(n, excl))
    ensures var t := Apply(s, Start(n, excl));
      && t.files == s.files && t.store == s.store
      && t.procs == s.procs[n := Proc(excl, FirstCheck(Listing({}, 0)), s.now, 0)]
  {
  }

  lemma Creates(s: State, n: nat)
    requires n in s.procs && s.procs[n].phase == Creating && n !in s.files
    ensures Enabled(s, Act(n, Create(n)))
    ensures var t, pr := Apply(s, Act(n, Create(n))), s.procs[n];
      && t.files == s.files[n := LockFile(n, pr.excl, pr.time)] && t.store == s.store + {n}
      && t.procs == s.procs[n := pr.(cur := n, phase := SecondCheck(Listing({n}, 0)))]
  {
  }

  /** One more process obtains a lock. */
  lemma Joins(s: State, n: nat, excl: bool) returns (t: State)
    requires Share(s, n, excl) && (excl ==> n == 0)
    ensures Reaches(s, t) && Share(t, n + 1, excl)
  {
    hide Reaches, Enabled, Apply;
    Starts(s, n, excl);
    var a := Apply(s, Start(n, excl));
    var b := Checks(a, n);
    Creates(b, n);
    var c := Apply(b, Act(n, Create(n)));
    assert c.store - {n} == s.store;
    t := Checks(c, n);
    First(b, Act(n, Create(n)), t);
    Then(a, b, t);
    First(s, Start(n, excl), t);
  }

  lemma Nobody(excl: bool)
    ensures Share(EMPTY, 0, excl)
  {
    assert EMPTY.files.Keys == {} && EMPTY.procs.Keys == {};
    assert EMPTY.store == EMPTY.files.Keys;
  }

  lemma {:induction false} AllJoin(n: nat, excl: bool) returns (t: State)
    requires excl ==> n <= 1
    ensures Reaches(EMPTY, t) && Share(t, n, excl)
  {
    hide Reaches;
    if n == 0 {
      t := EMPTY;
      Here(t);
      Nobody(excl);
    } else {
      var s := AllJoin(n - 1, excl);
      t := Joins(s, n - 1, excl);
      Then(EMPTY, s, t);
    }
  }

  /** Any number of processes hold non-exclusive locks at the same time in some run without
      removals of stale locks; or one process holds an exclusive one. */
  lemma AnyNumberShares(n: nat, excl: bool) returns (steps: seq<Step>)
    requires excl ==> n <= 1
    ensures Runs(EMPTY, steps) && NobodyRemoves(steps)
    ensures var s := Run(EMPTY, steps);
      forall p :: 0 <= p < n ==> p in s.procs && s.procs[p].phase == Holding && s.procs[p].excl == excl
  {
    var t := AllJoin(n, excl);
    steps :| Runs(EMPTY, steps) && NobodyRemoves(steps) && Run(EMPTY, steps) == t;
  }
}
