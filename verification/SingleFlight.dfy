/** Many goroutines asking the blob cache for blobs that it computes when they are missing
    (GetOrCompute): those that ask for a blob under way wait for it. */
module SingleFlight {
  import opened Repository

  type Pid = nat

  /** Where a call is.  The first one to miss a blob owns its entry in `inProgress`. */
  datatype Pos =
    | First | Claiming | Waiting(on: Pid) | Second(owner: bool)
    | Computing(owner: bool) | Adding(owner: bool) | Deleting | Closing | Finished

  datatype Call = Call(id: Id, pos: Pos)

  datatype State = State(
    calls: map<Pid, Call>, cached: set<Id>, inProgress: map<Id, Pid>, closed: set<Pid>,
    started: multiset<Id>)   // the computations so far

  const INITIAL: State := State(map[], {}, map[], {}, multiset{})

  datatype Event =
    | Enter(p: Pid, id: Id)
    | Get(p: Pid)
    | Claim(p: Pid)
    | Wake(p: Pid)
    | GetAgain(p: Pid)
    | Computed(p: Pid, ok: bool)
    | Added(p: Pid, fits: bool)
    | Delete(p: Pid)
    | Close(p: Pid)
    | Evict(id: Id)

  predicate At(s: State, p: Pid, pos: Pos) {
    p in s.calls && s.calls[p].pos == pos
  }

  predicate Enabled(s: State, e: Event) {
    match e
    case Enter(p, _) => p !in s.calls
    case Get(p) => At(s, p, First)
    case Claim(p) => At(s, p, Claiming)
    case Wake(p) => p in s.calls && s.calls[p].pos.Waiting? && s.calls[p].pos.on in s.closed
    case GetAgain(p) => p in s.calls && s.calls[p].pos.Second?
    case Computed(p, _) => p in s.calls && s.calls[p].pos.Computing?
    case Added(p, _) => p in s.calls && s.calls[p].pos.Adding?
    case Delete(p) => At(s, p, Deleting)
    case Close(p) => At(s, p, Closing)
    case Evict(id) => id in s.cached
  }

  function Go(s: State, p: Pid, pos: Pos): State
    requires p in s.calls
  {
    s.(calls := s.calls[p := Call(s.calls[p].id, pos)])
  }

  /** Where a call returns: the owner cleans up first. */
  function Leave(owner: bool): Pos {
    if owner then Deleting else Finished
  }

  function Apply(s: State, e: Event): State
    requires Enabled(s, e)
  {
    match e
    case Enter(p, id) => s.(calls := s.calls[p := Call(id, First)])
    case Get(p) => Go(s, p, if s.calls[p].id in s.cached then Finished else Claiming)
    case Claim(p) =>
      var id := s.calls[p].id;
      if id in s.inProgress then Go(s, p, Waiting(s.inProgress[id]))
      else Go(s, p, Second(true)).(inProgress := s.inProgress[id := p])
    case Wake(p) => Go(s, p, Second(false))
    case GetAgain(p) =>
      var id, owner := s.calls[p].id, s.calls[p].pos.owner;
      if id in s.cached then Go(s, p, Leave(owner))
      else Go(s, p, Computing(owner)).(started := s.started + multiset{id})
    case Computed(p, ok) =>
      var owner := s.calls[p].pos.owner;
      Go(s, p, if ok then Adding(owner) else Leave(owner))
    case Added(p, fits) =>
      var t := Go(s, p, Leave(s.calls[p].pos.owner));
      if fits then t.(cached := s.cached + {s.calls[p].id}) else t
    case Delete(p) => Go(s, p, Closing).(inProgress := s.inProgress - {s.calls[p].id})
    case Close(p) => Go(s, p, Finished).(closed := s.closed + {p})
    case Evict(id) => s.(cached := s.cached - {id})
  }

  ghost predicate Leads(s: State, events: seq<Event>, t: State)
    decreases |events|
  {
    if events == [] then s == t
    else Enabled(s, events[0]) && Leads(Apply(s, events[0]), events[1..], t)
  }

  /** Nothing goes wrong with a blob: computing it succeeds, it fits, and it stays. */
  ghost predicate Smooth(s: State, events: seq<Event>, id: Id)
    decreases |events|
  {
    events == [] ||
    (Enabled(s, events[0]) && SmoothStep(s, events[0], id) && Smooth(Apply(s, events[0]), events[1..], id))
  }

  predicate SmoothStep(s: State, e: Event, id: Id) {
    match e
    case Computed(p, ok) => p in s.calls && s.calls[p].id == id ==> ok
    case Added(p, fits) => p in s.calls && s.calls[p].id == id ==> fits
    case Evict(x) => x != id
    case _ => true
  }

  // ----- Owners -----

  predicate Owns(pos: Pos) {
    pos.Deleting? || ((pos.Second? || pos.Computing? || pos.Adding?) && pos.owner)
  }

  /** Entries of `inProgress` are the calls that own them. */
  ghost predicate Entries(s: State) {
    && (forall id :: id in s.inProgress ==>
      s.inProgress[id] in s.calls && s.calls[s.inProgress[id]].id == id && Owns(s.calls[s.inProgress[id]].pos))
    && (forall p :: p in s.calls && Owns(s.calls[p].pos) ==>
      s.calls[p].id in s.inProgress && s.inProgress[s.calls[p].id] == p)
  }

  ghost predicate ClosedDone(s: State) {
    forall p :: p in s.closed ==> At(s, p, Finished)
  }

  /** Whoever waits, waits for the owner of its own blob. */
  ghost predicate Waits(s: State) {
    forall p :: p in s.calls && s.calls[p].pos.Waiting? ==> WaitsWell(s, p)
  }

  ghost predicate WaitsWell(s: State, p: Pid)
    requires p in s.calls && s.calls[p].pos.Waiting?
  {
    var on := s.calls[p].pos.on;
    on in s.calls && s.calls[on].id == s.calls[p].id &&
      (Owns(s.calls[on].pos) || s.calls[on].pos == Closing || on in s.closed)
  }

  ghost predicate Owners(s: State) {
    Entries(s) && ClosedDone(s) && Waits(s)
  }

  /** Events that neither claim nor give up an entry. */
  predicate LeavesEntries(e: Event) {
    !(e.Claim? || e.Delete?)
  }

  /** Up to the second look. */
  predicate Early(e: Event) {
    e.Enter? || e.Get? || e.Wake? || e.GetAgain?
  }

  lemma EntriesKeptEarly(s: State, e: Event)
    requires Entries(s) && Enabled(s, e) && LeavesEntries(e) && Early(e)
    ensures Entries(Apply(s, e))
  {
  }

  lemma EntriesKeptLate(s: State, e: Event)
    requires Entries(s) && Enabled(s, e) && LeavesEntries(e) && !Early(e)
    ensures Entries(Apply(s, e))
  {
  }

  lemma EntriesKeptByMost(s: State, e: Event)
    requires Entries(s) && Enabled(s, e) && LeavesEntries(e)
    ensures Entries(Apply(s, e))
  {
    if Early(e) {
      EntriesKeptEarly(s, e);
    } else {
      EntriesKeptLate(s, e);
    }
  }

  lemma EntriesKept(s: State, e: Event)
    requires Entries(s) && Enabled(s, e)
    ensures Entries(Apply(s, e))
  {
    if LeavesEntries(e) {
      EntriesKeptByMost(s, e);
    }
  }

  lemma ClosedKept(s: State, e: Event)
    requires ClosedDone(s) && Enabled(s, e)
    ensures ClosedDone(Apply(s, e))
  {
  }

  lemma WaitsKept(s: State, e: Event)
    requires Entries(s) && ClosedDone(s) && Waits(s) && Enabled(s, e)
    ensures Waits(Apply(s, e))
  {
    var t := Apply(s, e);
    forall p | p in t.calls && t.calls[p].pos.Waiting?
      ensures WaitsWell(t, p)
    {
      if p in s.calls && s.calls[p] == t.calls[p] {
        assert WaitsWell(s, p);
      }
    }
  }

  lemma OwnersKept(s: State, e: Event)
    requires Owners(s) && Enabled(s, e)
    ensures Owners(Apply(s, e))
  {
    EntriesKept(s, e);
    ClosedKept(s, e);
    WaitsKept(s, e);
  }

  // ----- One computation -----

  predicate Busy(pos: Pos) {
    pos.Computing? || pos.Adding?
  }

  /** The blob has been computed at most once, and is there or about to be there; only its
      owner computes it. */
  ghost predicate Once(s: State, id: Id) {
    && s.started[id] <= 1
    && (forall p :: p in s.calls && s.calls[p].id == id && Busy(s.calls[p].pos) ==>
      s.calls[p].pos.owner && s.started[id] == 1 && id !in s.cached)
    && (s.started[id] == 1 ==>
          id in s.cached || (id in s.inProgress && s.inProgress[id] in s.calls && Busy(s.calls[s.inProgress[id]].pos)))
    && (forall p :: p in s.calls && s.calls[p].id == id && After(s.calls[p].pos) ==> id in s.cached)
    && (forall p :: p in s.closed && p in s.calls && s.calls[p].id == id ==> id in s.cached)
  }

  /** Past the second look at the cache. */
  predicate After(pos: Pos) {
    pos == Deleting || pos == Closing || pos == Second(false) || pos == Finished
  }

  lemma OnceKeptByWaiting(s: State, e: Event, id: Id)
    requires Owners(s) && Once(s, id) && Enabled(s, e) && SmoothStep(s, e, id)
    requires e.Enter? || e.Get? || e.Claim? || e.Wake? || e.Evict?
    ensures Once(Apply(s, e), id)
  {
  }

  lemma OnceKeptByComputing(s: State, e: Event, id: Id)
    requires Owners(s) && Once(s, id) && Enabled(s, e) && SmoothStep(s, e, id)
    requires e.GetAgain? || e.Computed? || e.Added?
    ensures Once(Apply(s, e), id)
  {
  }

  lemma OnceKept(s: State, e: Event, id: Id)
    requires Owners(s) && Once(s, id) && Enabled(s, e) && SmoothStep(s, e, id)
    ensures Once(Apply(s, e), id)
  {
    if e.GetAgain? || e.Computed? || e.Added? {
      OnceKeptByComputing(s, e, id);
    } else if !e.Delete? && !e.Close? {
      OnceKeptByWaiting(s, e, id);
    }
  }

  lemma {:induction false} SingleFlightFrom(s: State, events: seq<Event>, t: State, id: Id)
    requires Owners(s) && Once(s, id) && Leads(s, events, t) && Smooth(s, events, id)
    ensures Owners(t) && Once(t, id)
    decreases |events|
  {
    hide Owners, Once, Apply, Enabled, SmoothStep;
    if events != [] {
      OwnersKept(s, events[0]);
      OnceKept(s, events[0], id);
      SingleFlightFrom(Apply(s, events[0]), events[1..], t, id);
    }
  }

  /** Whatever the interleaving, a blob is computed at most once if computing it succeeds, it
      fits, and it is not evicted. */
  lemma ComputedAtMostOnce(events: seq<Event>, s: State, id: Id)
    requires Leads(INITIAL, events, s) && Smooth(INITIAL, events, id)
    ensures s.started[id] <= 1
  {
    SingleFlightFrom(INITIAL, events, s, id);
  }

  // ----- Progress -----

  /** What a call does next. */
  function NextEvent(s: State, p: Pid): Event
    requires p in s.calls && s.calls[p].pos != Finished
  {
    match s.calls[p].pos
    case First => Get(p)
    case Claiming => Claim(p)
    case Waiting(_) => Wake(p)
    case Second(_) => GetAgain(p)
    case Computing(_) => Computed(p, true)
    case Adding(_) => Added(p, true)
    case Deleting => Delete(p)
    case _ => Close(p)
  }

  /** Nobody waits forever: a call that cannot go on waits for one that can. */
  lemma NoDeadlock(events: seq<Event>, s: State, p: Pid)
    requires Leads(INITIAL, events, s) && p in s.calls && s.calls[p].pos != Finished
    ensures Enabled(s, NextEvent(s, p))
      || (s.calls[p].pos.Waiting? && s.calls[p].pos.on in s.calls && s.calls[s.calls[p].pos.on].pos != Finished
          && Enabled(s, NextEvent(s, s.calls[p].pos.on)))
  {
    OwnersFrom(INITIAL, events, s);
    if s.calls[p].pos.Waiting? {
      assert WaitsWell(s, p);
    }
  }

  lemma {:induction false} OwnersFrom(s: State, events: seq<Event>, t: State)
    requires Owners(s) && Leads(s, events, t)
    ensures Owners(t)
    decreases |events|
  {
    hide Owners, Apply, Enabled;
    if events != [] {
      OwnersKept(s, events[0]);
      OwnersFrom(Apply(s, events[0]), events[1..], t);
    }
  }

  // ----- After a failure -----

  /** No computation of the blob puts it into the cache: each fails, or its result is too large. */
  ghost predicate NeverCached(s: State, events: seq<Event>, id: Id)
    decreases |events|
  {
    events == [] ||
    (Enabled(s, events[0]) && Uncached(s, events[0], id) && NeverCached(Apply(s, events[0]), events[1..], id))
  }

  predicate Uncached(s: State, e: Event, id: Id) {
    e.Added? && e.p in s.calls && s.calls[e.p].id == id ==> !e.fits
  }

  /** The calls for a blob that have looked into the cache for the second time. */
  function PastSecondLook(s: State, id: Id): set<Pid> {
    set p | p in s.calls && s.calls[p].id == id &&
      (Busy(s.calls[p].pos) || s.calls[p].pos in {Deleting, Closing, Finished})
  }

  /** The second look that does not find the blob starts a computation. */
  lemma GetAgainComputes(s: State, p: Pid, id: Id)
    requires Enabled(s, GetAgain(p)) && id !in s.cached
    ensures var t := Apply(s, GetAgain(p));
      && t.cached == s.cached && t.calls.Keys == s.calls.Keys && p in s.calls
      && (forall q :: q in s.calls && q != p ==> t.calls[q] == s.calls[q])
      && t.calls[p].id == s.calls[p].id && p !in PastSecondLook(s, id)
      && t.started[id] == s.started[id] + (if s.calls[p].id == id then 1 else 0)
      && (s.calls[p].id == id ==> Busy(t.calls[p].pos))
  {
  }

  lemma SecondLook(s: State, p: Pid, id: Id)
    requires Enabled(s, GetAgain(p)) && id !in s.cached
    ensures var t := Apply(s, GetAgain(p));
      id !in t.cached && t.started[id] - s.started[id] == |PastSecondLook(t, id)| - |PastSecondLook(s, id)|
  {
    GetAgainComputes(s, p, id);
    hide Apply;
    var t := Apply(s, GetAgain(p));
    if s.calls[p].id == id {
      assert PastSecondLook(t, id) == PastSecondLook(s, id) + {p};
    } else {
      assert PastSecondLook(t, id) == PastSecondLook(s, id);
    }
  }

  lemma OtherLook(s: State, e: Event, id: Id)
    requires Enabled(s, e) && Uncached(s, e, id) && id !in s.cached && !e.GetAgain?
    ensures var t := Apply(s, e);
      id !in t.cached && t.started == s.started && PastSecondLook(t, id) == PastSecondLook(s, id)
  {
  }

  lemma LookCounted(s: State, e: Event, id: Id)
    requires Enabled(s, e) && Uncached(s, e, id) && id !in s.cached && s.started[id] == |PastSecondLook(s, id)|
    ensures id !in Apply(s, e).cached && Apply(s, e).started[id] == |PastSecondLook(Apply(s, e), id)|
  {
    hide Apply, Enabled, PastSecondLook;
    if e.GetAgain? {
      SecondLook(s, e.p, id);
    } else {
      OtherLook(s, e, id);
    }
  }

  lemma {:induction false} LooksCounted(s: State, events: seq<Event>, t: State, id: Id)
    requires Leads(s, events, t) && NeverCached(s, events, id)
    requires id !in s.cached && s.started[id] == |PastSecondLook(s, id)|
    ensures id !in t.cached && t.started[id] == |PastSecondLook(t, id)|
    decreases |events|
  {
    hide Apply, Enabled, Uncached, PastSecondLook;
    if events != [] {
      LookCounted(s, events[0], id);
      LooksCounted(Apply(s, events[0]), events[1..], t, id);
    }
  }

  /** As long as no computation puts the blob into the cache, every call that gets past its
      second look computes it once more, waiting or not. */
  lemma EachCallComputes(events: seq<Event>, s: State, id: Id)
    requires Leads(INITIAL, events, s) && NeverCached(INITIAL, events, id)
    ensures s.started[id] == |PastSecondLook(s, id)|
  {
    assert PastSecondLook(INITIAL, id) == {};
    LooksCounted(INITIAL, events, s, id);
  }

  lemma {:induction false} LeadsThrough(s: State, a: seq<Event>, t: State, b: seq<Event>, u: State)
    requires Leads(s, a, t) && Leads(t, b, u)
    ensures Leads(s, a + b, u)
    decreases |a|
  {
    hide Apply, Enabled;
    if a == [] {
      assert a + b == b;
    } else {
      LeadsThrough(Apply(s, a[0]), a[1..], t, b, u);
      assert (a + b)[1..] == a[1..] + b;
    }
  }

  /** One step more, at the end of a run. */
  lemma More(s: State, es: seq<Event>, t: State, e: Event) returns (r: seq<Event>, u: State)
    requires Leads(s, es, t) && Enabled(t, e)
    ensures u == Apply(t, e) && Leads(s, r, u)
  {
    u := Apply(t, e);
    assert Leads(u, [], u);
    LeadsThrough(s, es, t, [e], u);
    r := es + [e];
  }

  /** Calls that wait for one whose computation came to nothing. */
  ghost predicate WaitInVain(s: State, id: Id, ws: set<Pid>) {
    id !in s.cached
    && forall p :: p in ws ==>
         p in s.calls && s.calls[p].id == id && s.calls[p].pos.Waiting? && s.calls[p].pos.on in s.closed
  }

  lemma OneComputes(s: State, id: Id, ws: set<Pid>, p: Pid) returns (es: seq<Event>, t: State)
    requires WaitInVain(s, id, ws) && p in ws
    ensures Leads(s, es, t) && WaitInVain(t, id, ws - {p}) && At(t, p, Computing(false))
    ensures t.started[id] == s.started[id] + 1 && forall q :: q in s.calls && q != p ==>
      q in t.calls && t.calls[q] == s.calls[q]
  {
    assert Leads(s, [], s);
    es, t := More(s, [], s, Wake(p));
    es, t := More(s, es, t, GetAgain(p));
  }

  /** All of them can come to compute the blob at the same time, however many they are. */
  lemma {:induction false} WaitersCompute(s: State, id: Id, ws: set<Pid>) returns (es: seq<Event>, t: State)
    requires WaitInVain(s, id, ws)
    ensures Leads(s, es, t) && t.started[id] == s.started[id] + |ws|
    ensures forall p :: p in ws ==> At(t, p, Computing(false))
    ensures forall q :: q in s.calls && q !in ws ==> q in t.calls && t.calls[q] == s.calls[q]
    decreases |ws|
  {
    if ws == {} {
      es, t := [], s;
    } else {
      var p :| p in ws;
      var es1, u := OneComputes(s, id, ws, p);
      var es2;
      es2, t := WaitersCompute(u, id, ws - {p});
      LeadsThrough(s, es1, u, es2, t);
      es := es1 + es2;
    }
  }

  function UpTo(n: nat): (r: set<Pid>)
    ensures |r| == n && forall p: Pid :: p in r <==> 1 <= p <= n
  {
    if n == 0 then {} else UpTo(n - 1) + {n}
  }

  /** Call 0 is about to look for the blob again, and calls 1 to n wait for it. */
  ghost predicate WaitForFirst(s: State, id: Id, n: nat) {
    && s.cached == {} && s.closed == {} && s.inProgress == map[id := 0] && s.started == multiset{}
    && s.calls.Keys == {0} + UpTo(n) && s.calls[0] == Call(id, Second(true))
    && forall p :: 1 <= p <= n ==> s.calls[p] == Call(id, Waiting(0))
  }

  lemma {:induction false} AnyNumberWaits(id: Id, n: nat) returns (es: seq<Event>, s: State)
    ensures Leads(INITIAL, es, s) && WaitForFirst(s, id, n)
  {
    hide Leads, WaitForFirst;
    if n == 0 {
      es, s := FirstClaims(id);
    } else {
      es, s := AnyNumberWaits(id, n - 1);
      es, s := OneMoreWaits(id, n, es, s);
    }
  }

  lemma FirstClaims(id: Id) returns (es: seq<Event>, s: State)
    ensures Leads(INITIAL, es, s) && WaitForFirst(s, id, 0)
  {
    assert Leads(INITIAL, [], INITIAL);
    hide Leads;
    es, s := More(INITIAL, [], INITIAL, Enter(0, id));
    es, s := More(INITIAL, es, s, Get(0));
    es, s := More(INITIAL, es, s, Claim(0));
  }

  lemma OneMoreWaits(id: Id, n: nat, es0: seq<Event>, s0: State) returns (es: seq<Event>, s: State)
    requires n > 0 && Leads(INITIAL, es0, s0) && WaitForFirst(s0, id, n - 1)
    ensures Leads(INITIAL, es, s) && WaitForFirst(s, id, n)
  {
    hide Leads;
    es, s := More(INITIAL, es0, s0, Enter(n, id));
    es, s := More(INITIAL, es, s, Get(n));
    es, s := More(INITIAL, es, s, Claim(n));
    assert s.calls.Keys == s0.calls.Keys + {n};
  }

  /** Call 0 computes, fails and cleans up. */
  lemma FirstFails(id: Id, n: nat, es0: seq<Event>, s0: State) returns (es: seq<Event>, s: State)
    requires Leads(INITIAL, es0, s0) && WaitForFirst(s0, id, n)
    ensures Leads(INITIAL, es, s) && WaitInVain(s, id, UpTo(n)) && s.started[id] == 1
  {
    hide Leads;
    es, s := More(INITIAL, es0, s0, GetAgain(0));
    es, s := More(INITIAL, es, s, Computed(0, false));
    es, s := More(INITIAL, es, s, Delete(0));
    es, s := More(INITIAL, es, s, Close(0));
  }

  /** For any number of calls there is a run in which all of them wait for one that fails, and
      then all compute the blob at the same time. */
  lemma FailureStartsAll(id: Id, n: nat) returns (es: seq<Event>, s: State)
    ensures Leads(INITIAL, es, s) && s.started[id] == n + 1
    ensures forall p :: 1 <= p <= n ==> At(s, p, Computing(false))
  {
    var es1, s1 := AnyNumberWaits(id, n);
    es1, s1 := FirstFails(id, n, es1, s1);
    var es2;
    es2, s := WaitersCompute(s1, id, UpTo(n));
    LeadsThrough(INITIAL, es1, s1, es2, s);
    es := es1 + es2;
  }
}
