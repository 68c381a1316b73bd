/** Repacking with concurrent workers that share the set of blobs to keep (repack).

    One step is one section under the mutex, one hand-over on the unbuffered download
    queue, or one save.  Packs come in any order, and a blob may be listed in many of them. */
module Repack {
  import opened Repository

  datatype Worker =
    | Idle
    | Busy(rest: seq<Handle>)             // blobs of the current pack still to be passed on
    | Saving(h: Handle, rest: seq<Handle>)  // claimed a blob, not saved yet

  datatype State = State(
    keep: set<Handle>,
    unlisted: seq<seq<Handle>>,       // packs the producer has not filtered yet
    hand: Option<seq<Handle>>,        // filtered pack waiting for a worker
    workers: seq<Worker>,
    saved: seq<Handle>)               // SaveBlob calls, in order

  datatype Step = Filter | HandOver(i: nat) | Claim(i: nat) | Save(i: nat) | Finish(i: nat)

  function FilterBlobs(blobs: seq<Handle>, keep: set<Handle>): (r: seq<Handle>)
    ensures |r| <= |blobs|
    ensures forall h :: h in r <==> h in blobs && h in keep
  {
    if blobs == [] then []
    else if blobs[0] in keep then [blobs[0]] + FilterBlobs(blobs[1..], keep)
    else FilterBlobs(blobs[1..], keep)
  }

  predicate Enabled(s: State, step: Step) {
    match step
    case Filter => s.hand.None? && s.unlisted != []
    case HandOver(i) => i < |s.workers| && s.hand.Some? && s.workers[i].Idle?
    case Claim(i) => i < |s.workers| && s.workers[i].Busy? && s.workers[i].rest != []
    case Save(i) => i < |s.workers| && s.workers[i].Saving?
    case Finish(i) => i < |s.workers| && s.workers[i] == Busy([])
  }

  function Apply(s: State, step: Step): State
    requires Enabled(s, step)
  {
    match step
    case Filter =>
      s.(unlisted := s.unlisted[1..], hand := Some(FilterBlobs(s.unlisted[0], s.keep)))
    case HandOver(i) =>
      s.(hand := None, workers := s.workers[i := Busy(s.hand.value)])
    case Claim(i) =>
      var h, rest := s.workers[i].rest[0], s.workers[i].rest[1..];
      if h in s.keep then s.(keep := s.keep - {h}, workers := s.workers[i := Saving(h, rest)])
      else s.(workers := s.workers[i := Busy(rest)])
    case Save(i) =>
      s.(saved := s.saved + [s.workers[i].h], workers := s.workers[i := Busy(s.workers[i].rest)])
    case Finish(i) =>
      s.(workers := s.workers[i := Idle])
  }

  predicate Init(s: State, keep: set<Handle>, packs: seq<seq<Handle>>) {
    && s.keep == keep && s.unlisted == packs && s.hand == None && s.saved == []
    && forall i :: 0 <= i < |s.workers| ==> s.workers[i].Idle?
  }

  /** All goroutines have returned without error. */
  predicate Done(s: State) {
    s.unlisted == [] && s.hand.None? && forall i :: 0 <= i < |s.workers| ==> s.workers[i].Idle?
  }

  ghost function Contents(packs: seq<seq<Handle>>): set<Handle> {
    set p, h | p in packs && h in p :: h
  }

  // ----- The invariant -----

  predicate Saves(w: Worker, h: Handle) {
    w.Saving? && w.h == h
  }

  predicate HasLeft(w: Worker, h: Handle) {
    !w.Idle? && h in w.rest
  }

  ghost predicate InFlight(s: State, h: Handle) {
    exists i :: 0 <= i < |s.workers| && Saves(s.workers[i], h)
  }

  ghost predicate Pending(s: State, h: Handle) {
    || h in Contents(s.unlisted)
    || (s.hand.Some? && h in s.hand.value)
    || exists i :: 0 <= i < |s.workers| && HasLeft(s.workers[i], h)
  }

  /** A claimed blob is being saved by one worker or was saved once. */
  ghost predicate ClaimedOnce(s: State, keep0: set<Handle>) {
    && s.keep <= keep0
    && (forall i, j :: 0 <= i < j < |s.saved| ==> s.saved[i] != s.saved[j])
    && (forall h :: h in s.saved ==> h in keep0 - s.keep && !InFlight(s, h))
    && (forall i :: 0 <= i < |s.workers| && s.workers[i].Saving? ==> s.workers[i].h in keep0 - s.keep)
    && (forall i, j :: 0 <= i < j < |s.workers| && s.workers[i].Saving? && s.workers[j].Saving? ==>
          s.workers[i].h != s.workers[j].h)
    && (forall h :: h in keep0 - s.keep ==> h in s.saved || InFlight(s, h))
  }

  ghost predicate Inv(s: State, keep0: set<Handle>, packs: seq<seq<Handle>>) {
    && ClaimedOnce(s, keep0)
    && (forall h :: Pending(s, h) ==> h in Contents(packs))
    && keep0 - s.keep <= Contents(packs)
    && (forall h :: h in s.keep && h in Contents(packs) ==> Pending(s, h))
  }

  lemma InitInv(s: State, keep: set<Handle>, packs: seq<seq<Handle>>)
    requires Init(s, keep, packs)
    ensures Inv(s, keep, packs)
  {
  }

  lemma WorkerRest(s: State, i: nat, h: Handle)
    requires i < |s.workers| && HasLeft(s.workers[i], h)
    ensures Pending(s, h)
  {
  }

  /** Which blobs are pending after a step: a claim alone may remove one. */
  lemma PendingStep(s: State, step: Step, h: Handle)
    requires Enabled(s, step)
    ensures var t := Apply(s, step);
      && (Pending(t, h) ==> Pending(s, h))
      && (Pending(s, h) && h in t.keep && t.keep <= s.keep ==> Pending(t, h))
  {
    var t := Apply(s, step);
    match step
    case Filter =>
      assert s.unlisted == [s.unlisted[0]] + s.unlisted[1..];
      assert forall i :: 0 <= i < |s.workers| ==> t.workers[i] == s.workers[i];
      assert Contents(s.unlisted) == (set x | x in s.unlisted[0]) + Contents(t.unlisted);
    case HandOver(i) =>
      PendingElsewhere(s, t, i, h);
      if h in s.hand.value {
        WorkerRest(t, i, h);
      }
    case Claim(i) =>
      PendingElsewhere(s, t, i, h);
      var rest := s.workers[i].rest;
      assert rest == [rest[0]] + rest[1..];
    case Save(i) =>
      PendingElsewhere(s, t, i, h);
    case Finish(i) =>
      PendingElsewhere(s, t, i, h);
  }

  /** A step of worker i leaves the other workers' blobs pending. */
  lemma PendingElsewhere(s: State, t: State, i: nat, h: Handle)
    requires i < |s.workers| == |t.workers| && t.workers == s.workers[i := t.workers[i]]
    ensures (exists j :: 0 <= j < |s.workers| && HasLeft(s.workers[j], h))
       <==> HasLeft(s.workers[i], h) || exists j :: 0 <= j < |s.workers| && j != i && HasLeft(s.workers[j], h)
    ensures (exists j :: 0 <= j < |t.workers| && HasLeft(t.workers[j], h))
       <==> HasLeft(t.workers[i], h) || exists j :: 0 <= j < |s.workers| && j != i && HasLeft(s.workers[j], h)
  {
    assert forall j :: 0 <= j < |s.workers| && j != i ==> t.workers[j] == s.workers[j];
    if j :| 0 <= j < |t.workers| && HasLeft(t.workers[j], h) {
      assert j != i ==> HasLeft(s.workers[j], h);
    }
    if j :| 0 <= j < |s.workers| && j != i && HasLeft(s.workers[j], h) {
      assert HasLeft(t.workers[j], h);
    }
  }

  lemma ClaimedOnceStep(s: State, step: Step, keep0: set<Handle>)
    requires ClaimedOnce(s, keep0) && Enabled(s, step)
    ensures ClaimedOnce(Apply(s, step), keep0)
  {
    var t := Apply(s, step);
    match step
    case Filter =>
      assert t.workers == s.workers;
      assert forall h :: InFlight(t, h) <==> InFlight(s, h);
    case HandOver(i) =>
      InFlightOthers(s, t, i);
    case Claim(i) =>
      InFlightOthers(s, t, i);
      if s.workers[i].rest[0] in s.keep {
        assert InFlight(t, s.workers[i].rest[0]) by { assert t.workers[i].Saving?; }
      }
    case Save(i) =>
      InFlightOthers(s, t, i);
      assert InFlight(s, s.workers[i].h);
    case Finish(i) =>
      InFlightOthers(s, t, i);
  }

  lemma InFlightOthers(s: State, t: State, i: nat)
    requires i < |s.workers| == |t.workers| && t.workers == s.workers[i := t.workers[i]]
    ensures forall h :: InFlight(t, h) <==>
      Saves(t.workers[i], h) || exists j :: 0 <= j < |s.workers| && j != i && Saves(s.workers[j], h)
    ensures forall h :: InFlight(s, h) <==>
      Saves(s.workers[i], h) || exists j :: 0 <= j < |s.workers| && j != i && Saves(s.workers[j], h)
  {
    assert forall j :: 0 <= j < |s.workers| && j != i ==> t.workers[j] == s.workers[j];
    forall h
      ensures InFlight(t, h) <==>
        Saves(t.workers[i], h) || exists j :: 0 <= j < |s.workers| && j != i && Saves(s.workers[j], h)
    {
      if j :| 0 <= j < |t.workers| && Saves(t.workers[j], h) {
        assert j != i ==> Saves(s.workers[j], h);
      }
      if j :| 0 <= j < |s.workers| && j != i && Saves(s.workers[j], h) {
        assert Saves(t.workers[j], h);
      }
    }
  }

  /** Every step of every worker keeps the invariant. */
  lemma StepInv(s: State, step: Step, keep0: set<Handle>, packs: seq<seq<Handle>>)
    requires Inv(s, keep0, packs) && Enabled(s, step)
    ensures Inv(Apply(s, step), keep0, packs)
  {
    var t := Apply(s, step);
    ClaimedOnceStep(s, step, keep0);
    forall h
      ensures Pending(t, h) ==> h in Contents(packs)
      ensures h in t.keep && h in Contents(packs) ==> Pending(t, h)
    {
      PendingStep(s, step, h);
    }
    if step.Claim? {
      WorkerRest(s, step.i, s.workers[step.i].rest[0]);
    }
  }

  // ----- All runs -----

  function Run(s: State, steps: seq<Step>): Option<State>
    decreases steps
  {
    if steps == [] then Some(s)
    else if !Enabled(s, steps[0]) then None
    else Run(Apply(s, steps[0]), steps[1..])
  }

  lemma {:induction false} RunInv(s: State, steps: seq<Step>, keep0: set<Handle>, packs: seq<seq<Handle>>)
    requires Inv(s, keep0, packs) && Run(s, steps).Some?
    ensures Inv(Run(s, steps).value, keep0, packs)
    decreases steps
  {
    if steps != [] {
      StepInv(s, steps[0], keep0, packs);
      RunInv(Apply(s, steps[0]), steps[1..], keep0, packs);
    }
  }

  ghost predicate SavedOnce(s: State, keep: set<Handle>, packs: seq<seq<Handle>>) {
    && (forall h :: h in s.saved <==> h in keep && h in Contents(packs))
    && (forall i, j :: 0 <= i < j < |s.saved| ==> s.saved[i] != s.saved[j])
    && s.keep == keep - Contents(packs)
  }

  /** However the workers interleave, a run that ends without error saved every blob to keep
      that the packs hold, each exactly once, and leaves exactly the others in the set. */
  lemma RepackSavesExactlyOnce(init: State, steps: seq<Step>, keep: set<Handle>, packs: seq<seq<Handle>>)
    requires Init(init, keep, packs)
    requires Run(init, steps).Some? && Done(Run(init, steps).value)
    ensures SavedOnce(Run(init, steps).value, keep, packs)
  {
    InitInv(init, keep, packs);
    RunInv(init, steps, keep, packs);
    var s := Run(init, steps).value;
    assert forall h :: !InFlight(s, h) && !Pending(s, h);
  }

  /** A run that was stopped anywhere saved only blobs to keep, and none twice. */
  lemma PartialRepackSaves(init: State, steps: seq<Step>, keep: set<Handle>, packs: seq<seq<Handle>>)
    requires Init(init, keep, packs) && Run(init, steps).Some?
    ensures var s := Run(init, steps).value;
      && (forall h :: h in s.saved ==> h in keep - s.keep && h in Contents(packs))
      && (forall i, j :: 0 <= i < j < |s.saved| ==> s.saved[i] != s.saved[j])
  {
    InitInv(init, keep, packs);
    RunInv(init, steps, keep, packs);
  }

  // ----- Termination -----

  function WorkerWork(w: Worker): nat {
    match w
    case Idle => 0
    case Busy(rest) => 1 + 2 * |rest|
    case Saving(_, rest) => 2 + 2 * |rest|
  }

  function WorkersWork(ws: seq<Worker>): nat {
    if ws == [] then 0 else WorkerWork(ws[0]) + WorkersWork(ws[1..])
  }

  function PacksWork(ps: seq<seq<Handle>>): nat {
    if ps == [] then 0 else 3 + 2 * |ps[0]| + PacksWork(ps[1..])
  }

  function Work(s: State): nat {
    PacksWork(s.unlisted) + (if s.hand.Some? then 2 + 2 * |s.hand.value| else 0) + WorkersWork(s.workers)
  }

  lemma {:induction false} WorkersWorkUpdate(ws: seq<Worker>, i: nat, w: Worker)
    requires i < |ws|
    ensures WorkersWork(ws[i := w]) == WorkersWork(ws) - WorkerWork(ws[i]) + WorkerWork(w)
  {
    if i == 0 {
      assert ws[i := w][1..] == ws[1..];
    } else {
      WorkersWorkUpdate(ws[1..], i - 1, w);
      assert ws[i := w][1..] == ws[1..][i - 1 := w];
    }
  }

  /** Every step leaves less to do, so every schedule ends. */
  lemma StepsEnd(s: State, step: Step)
    requires Enabled(s, step)
    ensures Work(Apply(s, step)) < Work(s)
  {
    var t := Apply(s, step);
    if !step.Filter? {
      WorkersWorkUpdate(s.workers, step.i, t.workers[step.i]);
    }
  }

  /** With at least one worker, a run only stops when everything is done. */
  lemma NeverStuck(s: State)
    requires |s.workers| > 0 && !Done(s)
    ensures exists step :: Enabled(s, step)
  {
    if s.hand.None? && s.unlisted != [] {
      assert Enabled(s, Filter);
    } else if i :| 0 <= i < |s.workers| && !s.workers[i].Idle? {
      var step := if s.workers[i].Saving? then Save(i) else if s.workers[i].rest == [] then Finish(i) else Claim(i);
      assert Enabled(s, step);
    } else {
      assert Enabled(s, HandOver(0));
    }
  }
}
