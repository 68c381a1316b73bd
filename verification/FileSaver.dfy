/** Saving a file: one loop reads chunks, a callback per chunk reports the saved blob, and a
    counter decides who reports the finished file (saveFile). */
module FileSaver {
  import opened Repository
  import opened Trees

  datatype Chunk = Chunk(id: Id, length: nat)

  /** A callback first writes its result and then counts itself as done. */
  datatype Callback = Issued | Written(known: bool, stored: nat) | Completed(known: bool, stored: nat)

  /** Statistics on the blobs that were new. */
  datatype Stats = Stats(blobs: nat, size: nat, stored: nat)

  datatype Result = Saved(content: seq<Id>, size: nat, stats: Stats) | Failed

  /** Where the reading loop is. */
  datatype Position = Started | Reading | Submitted | AtEnd | Closed | Counted | Reported | Returned

  datatype State = State(
    pos: Position, chunks: seq<Chunk>, callbacks: seq<Callback>,
    content: seq<Id>, size: nat, remaining: int, isCompleted: bool, failed: bool, hasNode: bool, stats: Stats,
    readingReported: bool, finished: seq<Result>, panicked: bool)

  const NO_STATS: Stats := Stats(0, 0, 0)
  const INITIAL: State := State(Started, [], [], [], 0, 0, false, false, false, NO_STATS, false, [], false)

  /** What may happen next, in the loop or in a callback. */
  datatype Event =
    | Prepare(ok: bool)                                 // the node of the file
    | Next(chunk: Chunk, ok: bool)                      // a chunk was read
    | EndOfFile
    | Continue(ok: bool)                                // not cancelled after a chunk
    | Close(ok: bool)
    | Count
    | ReportReading
    | Return
    | Write(i: nat, known: bool, stored: nat)           // the first half of a callback
    | Complete(i: nat)                                  // the second half

  // ----- The two ways to complete -----

  function BlobDone(s: State): State {
    var t := s.(remaining := s.remaining - 1);
    if t.remaining != 0 || t.failed then t
    else if t.isCompleted || !t.hasNode || NULL_ID in t.content then t.(panicked := true)
    else t.(isCompleted := true, finished := t.finished + [Saved(t.content, t.size, t.stats)])
  }

  function ErrorDone(s: State): State {
    if s.failed then s
    else if s.isCompleted then s.(panicked := true)
    else s.(isCompleted := true, failed := true, hasNode := false, stats := NO_STATS, finished := s.finished + [Failed])
  }

  function Fail(s: State): State {
    ErrorDone(s).(pos := Returned)
  }

  // ----- Steps -----

  predicate Enabled(s: State, e: Event) {
    match e
    case Prepare(_) => s.pos == Started
    case Next(chunk, _) => s.pos == Reading && chunk.id != NULL_ID
    case EndOfFile => s.pos == Reading
    case Continue(_) => s.pos == Submitted
    case Close(_) => s.pos == AtEnd
    case Count => s.pos == Closed
    case ReportReading => s.pos == Counted
    case Return => s.pos == Reported
    case Write(i, _, _) => i < |s.callbacks| && s.callbacks[i].Issued?
    case Complete(i) => i < |s.callbacks| && s.callbacks[i].Written?
  }

  function AddStats(stats: Stats, length: nat, known: bool, stored: nat): Stats {
    if known then stats else Stats(stats.blobs + 1, stats.size + length, stats.stored + stored)
  }

  function Apply(s: State, e: Event): State
    requires Enabled(s, e) && Shape(s)
  {
    match e
    case Prepare(ok) => if ok then s.(pos := Reading) else Fail(s)
    case Next(chunk, ok) =>
      var t := s.(size := s.size + chunk.length);
      if !ok then Fail(t)
      else
        t.(pos := Submitted, chunks := s.chunks + [chunk], content := s.content + [NULL_ID],
           callbacks := s.callbacks + [Issued])
    case EndOfFile => s.(pos := AtEnd)
    case Continue(ok) => if ok then s.(pos := Reading) else Fail(s)
    case Close(ok) => if ok then s.(pos := Closed, hasNode := true) else Fail(s)
    case Count => s.(pos := Counted, remaining := s.remaining + |s.chunks| + 1)
    case ReportReading => s.(pos := Reported, readingReported := true)
    case Return => BlobDone(s).(pos := Returned)
    case Write(i, known, stored) =>
      s.(stats := AddStats(s.stats, s.chunks[i].length, known, stored), content := s.content[i := s.chunks[i].id],
         callbacks := s.callbacks[i := Written(known, stored)])
    case Complete(i) =>
      BlobDone(s.(callbacks := s.callbacks[i := Completed(s.callbacks[i].known, s.callbacks[i].stored)]))
  }

  ghost predicate Shape(s: State) {
    |s.chunks| == |s.callbacks| == |s.content|
  }

  /** These events, in any interleaving, lead from one state to another. */
  ghost predicate Leads(s: State, events: seq<Event>, t: State)
    decreases |events|
  {
    if events == [] then s == t
    else Enabled(s, events[0]) && Shape(s) && Leads(Apply(s, events[0]), events[1..], t)
  }

  ghost predicate Reaches(events: seq<Event>, s: State) {
    Leads(INITIAL, events, s)
  }

  // ----- What holds in every state -----

  function NumCompleted(cs: seq<Callback>): nat {
    if cs == [] then 0 else NumCompleted(cs[..|cs| - 1]) + if cs[|cs| - 1].Completed? then 1 else 0
  }

  function TotalLength(chunks: seq<Chunk>): nat {
    if chunks == [] then 0 else TotalLength(chunks[..|chunks| - 1]) + chunks[|chunks| - 1].length
  }

  /** The statistics over the chunks whose callbacks have written. */
  function StatsOf(chunks: seq<Chunk>, cs: seq<Callback>): Stats
    requires |chunks| == |cs|
  {
    if chunks == [] then NO_STATS
    else
      var n := |chunks| - 1;
      var rest := StatsOf(chunks[..n], cs[..n]);
      if cs[n].Issued? then rest else AddStats(rest, chunks[n].length, cs[n].known, cs[n].stored)
  }

  /** What is to be counted: the chunks whose blobs were not known. */
  function NewBlobs(cs: seq<Callback>): nat {
    if cs == [] then 0
    else
      var c := cs[|cs| - 1];
      NewBlobs(cs[..|cs| - 1]) + if !c.Issued? && !c.known then 1 else 0
  }

  function NewBytes(chunks: seq<Chunk>, cs: seq<Callback>): nat
    requires |chunks| == |cs|
  {
    if cs == [] then 0
    else
      var n := |cs| - 1;
      NewBytes(chunks[..n], cs[..n]) + if !cs[n].Issued? && !cs[n].known then chunks[n].length else 0
  }

  function StoredBytes(cs: seq<Callback>): nat {
    if cs == [] then 0
    else
      var c := cs[|cs| - 1];
      StoredBytes(cs[..|cs| - 1]) + if !c.Issued? && !c.known then c.stored else 0
  }

  lemma {:induction false} StatsOfNewBlobs(chunks: seq<Chunk>, cs: seq<Callback>)
    requires |chunks| == |cs|
    ensures StatsOf(chunks, cs) == Stats(NewBlobs(cs), NewBytes(chunks, cs), StoredBytes(cs))
  {
    if cs != [] {
      StatsOfNewBlobs(chunks[..|cs| - 1], cs[..|cs| - 1]);
    }
  }

  function IdsOf(chunks: seq<Chunk>): seq<Id> {
    seq(|chunks|, i requires 0 <= i < |chunks| => chunks[i].id)
  }

  ghost predicate AfterCount(s: State) {
    s.readingReported || s.pos == Counted
  }

  /** The counter: the callbacks completed and the loop are taken off what was added. */
  ghost predicate Counting(s: State) {
    s.remaining == (if AfterCount(s) then |s.chunks| + 1 else 0) - NumCompleted(s.callbacks)
                   - if s.readingReported && s.pos == Returned then 1 else 0
  }

  ghost predicate ContentSoFar(s: State)
    requires Shape(s)
  {
    forall i :: 0 <= i < |s.chunks| ==>
      s.chunks[i].id != NULL_ID && s.content[i] == if s.callbacks[i].Issued? then NULL_ID else s.chunks[i].id
  }

  /** What has been reported. */
  ghost predicate Reporting(s: State)
    requires Shape(s)
  {
    && |s.finished| <= 1
    && (s.failed <==> s.finished != [] && s.finished[0].Failed?)
    && (s.failed ==> s.pos == Returned && !s.readingReported)
    && (s.isCompleted <==> s.finished != [])
    && (!s.failed && s.finished != [] ==> AllDone(s) && s.finished[0] == Outcome(s))
    && (AllDone(s) ==> s.finished != [])
  }

  ghost predicate AllDone(s: State) {
    s.pos == Returned && s.readingReported && NumCompleted(s.callbacks) == |s.callbacks|
  }

  function Outcome(s: State): Result
    requires |s.chunks| == |s.callbacks|
  {
    Saved(IdsOf(s.chunks), TotalLength(s.chunks), StatsOf(s.chunks, s.callbacks))
  }

  ghost predicate Progress(s: State) {
    && (s.pos in {Reported, Returned} && !s.failed ==> s.readingReported)
    && (s.readingReported ==> s.pos in {Reported, Returned})
    && (s.pos in {Closed, Counted, Reported, Returned} && !s.failed ==> s.hasNode)
  }

  ghost predicate Inv(s: State) {
    && Shape(s) && Counting(s) && ContentSoFar(s) && Progress(s)
    && (!s.failed ==> s.size == TotalLength(s.chunks) && s.stats == StatsOf(s.chunks, s.callbacks))
    && Reporting(s) && !s.panicked
  }

  lemma {:induction false} CompletedBound(cs: seq<Callback>)
    ensures NumCompleted(cs) <= |cs|
    ensures NumCompleted(cs) == |cs| <==> forall i :: 0 <= i < |cs| ==> cs[i].Completed?
  {
    if cs != [] {
      CompletedBound(cs[..|cs| - 1]);
    }
  }

  lemma {:induction false} CompletedUpdate(cs: seq<Callback>, i: nat, c: Callback)
    requires i < |cs|
    ensures NumCompleted(cs[i := c]) == NumCompleted(cs) - (if cs[i].Completed? then 1 else 0) +
      (if c.Completed? then 1 else 0)
  {
    var n := |cs| - 1;
    if i < n {
      CompletedUpdate(cs[..n], i, c);
      assert cs[i := c][..n] == cs[..n][i := c];
    } else {
      assert cs[i := c][..n] == cs[..n];
    }
  }

  lemma {:induction false} StatsWritten(chunks: seq<Chunk>, cs: seq<Callback>, i: nat, known: bool, stored: nat)
    requires |chunks| == |cs| && i < |cs| && cs[i].Issued?
    ensures StatsOf(chunks, cs[i := Written(known, stored)]) ==
      AddStats(StatsOf(chunks, cs), chunks[i].length, known, stored)
  {
    var n := |cs| - 1;
    var cs' := cs[i := Written(known, stored)];
    if i < n {
      StatsWritten(chunks[..n], cs[..n], i, known, stored);
      assert cs'[..n] == cs[..n][i := Written(known, stored)];
    } else {
      assert cs'[..n] == cs[..n];
    }
  }

  lemma {:induction false} StatsCompleted(chunks: seq<Chunk>, cs: seq<Callback>, i: nat)
    requires |chunks| == |cs| && i < |cs| && cs[i].Written?
    ensures StatsOf(chunks, cs[i := Completed(cs[i].known, cs[i].stored)]) == StatsOf(chunks, cs)
  {
    var n := |cs| - 1;
    var cs' := cs[i := Completed(cs[i].known, cs[i].stored)];
    if i < n {
      StatsCompleted(chunks[..n], cs[..n], i);
      assert cs'[..n] == cs[..n][i := Completed(cs[i].known, cs[i].stored)];
    } else {
      assert cs'[..n] == cs[..n];
    }
  }

  lemma FailKeeps(s: State)
    requires Inv(s) && s.pos != Returned && !AfterCount(s)
    ensures Inv(Fail(s))
  {
    CompletedBound(s.callbacks);
  }

  /** A chunk that could not be read adds to the size of a file that fails anyway. */
  lemma FailAfterChunk(s: State, length: nat)
    requires Inv(s) && s.pos == Reading
    ensures Inv(Fail(s.(size := s.size + length)))
  {
    CompletedBound(s.callbacks);
  }

  lemma OneMoreChunk(chunks: seq<Chunk>, cs: seq<Callback>, chunk: Chunk)
    requires |chunks| == |cs|
    ensures NumCompleted(cs + [Issued]) == NumCompleted(cs)
    ensures TotalLength(chunks + [chunk]) == TotalLength(chunks) + chunk.length
    ensures StatsOf(chunks + [chunk], cs + [Issued]) == StatsOf(chunks, cs)
  {
    assert (chunks + [chunk])[..|chunks|] == chunks && (cs + [Issued])[..|cs|] == cs;
  }

  lemma NextKeeps(s: State, chunk: Chunk)
    requires Inv(s) && Enabled(s, Next(chunk, true))
    ensures Inv(Apply(s, Next(chunk, true)))
  {
    hide NumCompleted, TotalLength, StatsOf, IdsOf;
    OneMoreChunk(s.chunks, s.callbacks, chunk);
  }

  lemma WriteKeeps(s: State, i: nat, known: bool, stored: nat)
    requires Inv(s) && Enabled(s, Write(i, known, stored))
    ensures Inv(Apply(s, Write(i, known, stored)))
  {
    CompletedUpdate(s.callbacks, i, Written(known, stored));
    StatsWritten(s.chunks, s.callbacks, i, known, stored);
    CompletedBound(s.callbacks);
  }

  /** When everything is done, nothing stands in the way of reporting the file. */
  lemma DoneContent(s: State)
    requires Shape(s) && ContentSoFar(s) && NumCompleted(s.callbacks) == |s.callbacks|
    ensures s.content == IdsOf(s.chunks) && NULL_ID !in s.content
  {
    CompletedBound(s.callbacks);
  }

  /** One more is done, but not counted yet. */
  ghost predicate Due(s: State) {
    && Shape(s) && ContentSoFar(s) && Progress(s) && !s.panicked && Counting(s.(remaining := s.remaining - 1))
    && (!s.failed ==> s.size == TotalLength(s.chunks) && s.stats == StatsOf(s.chunks, s.callbacks))
    && (s.failed ==> Reporting(s))
    && (!s.failed ==> s.finished == [] && !s.isCompleted)
    && (NumCompleted(s.callbacks) > 0 || (s.pos == Returned && s.readingReported))
  }

  lemma DoneKeeps(s: State)
    requires Due(s)
    ensures Inv(BlobDone(s))
  {
    hide TotalLength, StatsOf, NumCompleted, ContentSoFar, IdsOf;
    CompletedBound(s.callbacks);
    if NumCompleted(s.callbacks) == |s.callbacks| {
      DoneContent(s);
    }
    SameContent(s, BlobDone(s));
  }

  lemma SameContent(s: State, t: State)
    requires Shape(s) && ContentSoFar(s) && t.chunks == s.chunks && t.callbacks == s.callbacks && t.content == s.content
    ensures ContentSoFar(t)
  {
  }

  lemma CompleteKeeps(s: State, i: nat)
    requires Inv(s) && Enabled(s, Complete(i))
    ensures Inv(Apply(s, Complete(i)))
  {
    hide TotalLength, StatsOf, NumCompleted, IdsOf;
    var t := s.(callbacks := s.callbacks[i := Completed(s.callbacks[i].known, s.callbacks[i].stored)]);
    CompletedUpdate(s.callbacks, i, t.callbacks[i]);
    StatsCompleted(s.chunks, s.callbacks, i);
    CompletedBound(s.callbacks);
    assert Due(t);
    DoneKeeps(t);
  }

  lemma ReturnKeeps(s: State)
    requires Inv(s) && Enabled(s, Return)
    ensures Inv(Apply(s, Return))
  {
    hide TotalLength, StatsOf, NumCompleted, IdsOf;
    CompletedBound(s.callbacks);
    var t := s.(pos := Returned);
    assert Due(t);
    DoneKeeps(t);
  }

  lemma StepKeeps(s: State, e: Event)
    requires Inv(s) && Enabled(s, e)
    ensures Inv(Apply(s, e))
  {
    match e
    case Prepare(ok) => FailKeeps(s);
    case Next(chunk, ok) =>
      if ok {
        NextKeeps(s, chunk);
      } else {
        FailAfterChunk(s, chunk.length);
      }
    case Continue(ok) => FailKeeps(s);
    case Close(ok) => FailKeeps(s);
    case Return => ReturnKeeps(s);
    case Write(i, known, stored) => WriteKeeps(s, i, known, stored);
    case Complete(i) => CompleteKeeps(s, i);
    case _ =>
  }

  lemma {:induction false} LeadsKeeps(s: State, events: seq<Event>, t: State)
    requires Inv(s) && Leads(s, events, t)
    ensures Inv(t)
    decreases |events|
  {
    hide Inv, Apply, Enabled;
    if events != [] {
      StepKeeps(s, events[0]);
      LeadsKeeps(Apply(s, events[0]), events[1..], t);
    }
  }

  lemma AlwaysInv(events: seq<Event>, s: State)
    requires Reaches(events, s)
    ensures Inv(s)
  {
    LeadsKeeps(INITIAL, events, s);
  }

  // ----- What that means -----

  /** In every interleaving the file is reported at most once, and nothing panics. */
  lemma FinishesAtMostOnce(events: seq<Event>, s: State)
    requires Reaches(events, s)
    ensures |s.finished| <= 1 && !s.panicked
  {
    AlwaysInv(events, s);
  }

  /** Before reading has ended and been reported, only an error is reported; and after an
      error, reading is never reported. */
  lemma NotBeforeReadingEnds(events: seq<Event>, s: State)
    requires Reaches(events, s) && s.finished != []
    ensures s.readingReported <==> s.finished[0].Saved?
  {
    AlwaysInv(events, s);
  }

  /** A saved file has the ids of all chunks in their order, its size is the sum of theirs,
      and the statistics cover the blobs that were new. */
  lemma SavedFileIsComplete(events: seq<Event>, s: State)
    requires Reaches(events, s) && s.finished != [] && s.finished[0].Saved?
    ensures Shape(s) && forall i :: 0 <= i < |s.callbacks| ==> s.callbacks[i].Completed?
    ensures var r := s.finished[0];
      && |r.content| == |s.chunks| && (forall i :: 0 <= i < |s.chunks| ==> r.content[i] == s.chunks[i].id)
      && r.size == TotalLength(s.chunks)
      && r.stats == Stats(NewBlobs(s.callbacks), NewBytes(s.chunks, s.callbacks), StoredBytes(s.callbacks))
  {
    AlwaysInv(events, s);
    StatsOfNewBlobs(s.chunks, s.callbacks);
    CompletedBound(s.callbacks);
  }

  /** Once the loop has returned and all callbacks have run, the file has been reported
      exactly once. */
  lemma FinishesWhenAllRan(events: seq<Event>, s: State)
    requires Reaches(events, s) && s.pos == Returned
    requires forall i :: 0 <= i < |s.callbacks| ==> s.callbacks[i].Completed?
    ensures |s.finished| == 1
  {
    AlwaysInv(events, s);
    CompletedBound(s.callbacks);
  }

  /** An event by which the loop gives up. */
  predicate GivesUp(e: Event) {
    (e.Prepare? || e.Next? || e.Continue? || e.Close?) && !e.ok
  }

  lemma {:induction false} FailureHasCause(s: State, events: seq<Event>, t: State)
    requires Inv(s) && Leads(s, events, t) && !s.failed && t.failed
    ensures exists i :: 0 <= i < |events| && GivesUp(events[i])
    decreases |events|
  {
    var u := Apply(s, events[0]);
    StepKeeps(s, events[0]);
    if !GivesUp(events[0]) {
      NoFailure(s, events[0]);
      FailureHasCause(u, events[1..], t);
      var i :| 0 <= i < |events[1..]| && GivesUp(events[1..][i]);
      assert GivesUp(events[i + 1]);
    }
  }

  lemma NoFailure(s: State, e: Event)
    requires Shape(s) && Enabled(s, e) && !s.failed && !GivesUp(e)
    ensures !Apply(s, e).failed
  {
  }

  /** Only the loop makes a file fail; the callbacks cannot. */
  lemma FailsOnlyInTheLoop(events: seq<Event>, s: State)
    requires Reaches(events, s) && s.finished != [] && s.finished[0].Failed?
    ensures exists i :: 0 <= i < |events| && GivesUp(events[i])
  {
    AlwaysInv(events, s);
    FailureHasCause(INITIAL, events, s);
  }

  // ----- A run that saves a file -----

  lemma {:induction false} LeadsSnoc(s: State, events: seq<Event>, t: State, e: Event)
    requires Leads(s, events, t) && Enabled(t, e) && Shape(t)
    ensures Leads(s, events + [e], Apply(t, e))
    decreases |events|
  {
    hide Apply, Enabled, Shape;
    if events == [] {
      assert Leads(Apply(t, e), [], Apply(t, e));
      assert [e][1..] == [];
    } else {
      LeadsSnoc(Apply(s, events[0]), events[1..], t, e);
      assert (events + [e])[1..] == events[1..] + [e];
    }
  }

  /** One more event that is possible. */
  lemma More(events: seq<Event>, s: State, e: Event) returns (more: seq<Event>, t: State)
    requires Reaches(events, s) && Enabled(s, e) && Shape(s)
    ensures t == Apply(s, e) && more == events + [e] && Reaches(more, t)
  {
    LeadsSnoc(INITIAL, events, s, e);
    more, t := events + [e], Apply(s, e);
  }

  function ReadEvents(chunks: seq<Chunk>): seq<Event> {
    if chunks == [] then [Prepare(true)]
    else ReadEvents(chunks[..|chunks| - 1]) + [Next(chunks[|chunks| - 1], true), Continue(true)]
  }

  ghost predicate HasRead(s: State, chunks: seq<Chunk>) {
    && s.pos == Reading && s.chunks == chunks && Shape(s) && s.remaining == 0 && !s.failed
    && forall i :: 0 <= i < |s.callbacks| ==> s.callbacks[i].Issued?
  }

  lemma {:induction false} Reads(chunks: seq<Chunk>) returns (s: State)
    requires forall c :: c in chunks ==> c.id != NULL_ID
    ensures Reaches(ReadEvents(chunks), s) && HasRead(s, chunks)
  {
    hide Leads;
    if chunks == [] {
      assert Leads(INITIAL, [], INITIAL) by { NoEvents(); }
      var es;
      es, s := More([], INITIAL, Prepare(true));
      assert [] + [Prepare(true)] == ReadEvents(chunks);
    } else {
      var n := |chunks| - 1;
      var before := Reads(chunks[..n]);
      var es, t := More(ReadEvents(chunks[..n]), before, Next(chunks[n], true));
      es, s := More(es, t, Continue(true));
      assert chunks == chunks[..n] + [chunks[n]];
      assert es == ReadEvents(chunks);
    }
  }

  lemma NoEvents()
    ensures Leads(INITIAL, [], INITIAL)
  {
  }

  const END_EVENTS: seq<Event> := [EndOfFile, Close(true), Count, ReportReading, Return]

  /** The loop has returned, and the first `k` callbacks have run with these results. */
  ghost predicate HasRun(s: State, chunks: seq<Chunk>, known: seq<bool>, stored: seq<nat>, k: nat) {
    && s.pos == Returned && s.chunks == chunks && Shape(s) && |known| == |stored| == |chunks| && k <= |chunks|
    && (forall i :: 0 <= i < k ==> s.callbacks[i] == Completed(known[i], stored[i]))
    && (forall i :: k <= i < |chunks| ==> s.callbacks[i].Issued?)
  }

  lemma Ends(chunks: seq<Chunk>, known: seq<bool>, stored: seq<nat>, s: State) returns (t: State)
    requires Reaches(ReadEvents(chunks), s) && HasRead(s, chunks) && |known| == |stored| == |chunks|
    ensures Reaches(ReadEvents(chunks) + END_EVENTS, t) && HasRun(t, chunks, known, stored, 0)
  {
    hide Leads, ReadEvents;
    var es;
    es, t := More(ReadEvents(chunks), s, EndOfFile);
    es, t := More(es, t, Close(true));
    es, t := More(es, t, Count);
    es, t := More(es, t, ReportReading);
    es, t := More(es, t, Return);
    assert es == ReadEvents(chunks) + END_EVENTS;
  }

  function CallbackEvents(known: seq<bool>, stored: seq<nat>, k: nat): seq<Event>
    requires k <= |known| == |stored|
  {
    if k == 0 then []
    else CallbackEvents(known, stored, k - 1) + [Write(k - 1, known[k - 1], stored[k - 1]), Complete(k - 1)]
  }

  lemma OneCallback(chunks: seq<Chunk>, known: seq<bool>, stored: seq<nat>, es: seq<Event>, s: State, k: nat)
    returns (more: seq<Event>, t: State)
    requires Reaches(es, s) && 0 < k <= |chunks| && HasRun(s, chunks, known, stored, k - 1)
    ensures more == es + [Write(k - 1, known[k - 1], stored[k - 1]), Complete(k - 1)]
    ensures Reaches(more, t) && HasRun(t, chunks, known, stored, k)
  {
    hide Leads;
    var v;
    more, v := More(es, s, Write(k - 1, known[k - 1], stored[k - 1]));
    more, t := More(more, v, Complete(k - 1));
  }

  lemma {:induction false} CallbacksRun(chunks: seq<Chunk>, known: seq<bool>, stored: seq<nat>,
                                        es: seq<Event>, s: State, k: nat) returns (t: State)
    requires Reaches(es, s) && HasRun(s, chunks, known, stored, 0) && k <= |chunks| == |known| == |stored|
    ensures Reaches(es + CallbackEvents(known, stored, k), t) && HasRun(t, chunks, known, stored, k)
  {
    hide Leads, HasRun, Shape;
    if k == 0 {
      t := s;
      assert es + CallbackEvents(known, stored, 0) == es;
    } else {
      var u := CallbacksRun(chunks, known, stored, es, s, k - 1);
      var more;
      more, t := OneCallback(chunks, known, stored, es + CallbackEvents(known, stored, k - 1), u, k);
      assert more == es + CallbackEvents(known, stored, k);
    }
  }

  /** Any file can be saved: there is a run in which its chunks are read one by one, the loop ends,
      and then all callbacks run; and a saved file is reported. */
  lemma SavesAnyFile(chunks: seq<Chunk>, known: seq<bool>, stored: seq<nat>) returns (s: State)
    requires |known| == |stored| == |chunks| && forall c :: c in chunks ==> c.id != NULL_ID
    ensures Reaches(ReadEvents(chunks) + END_EVENTS + CallbackEvents(known, stored, |chunks|), s)
    ensures s.chunks == chunks && |s.finished| == 1 && s.finished[0].Saved?
    ensures Shape(s) && forall i :: 0 <= i < |chunks| ==> s.callbacks[i] == Completed(known[i], stored[i])
  {
    var read := Reads(chunks);
    var ended := Ends(chunks, known, stored, read);
    var es := ReadEvents(chunks) + END_EVENTS;
    s := CallbacksRun(chunks, known, stored, es, ended, |chunks|);
    es := es + CallbackEvents(known, stored, |chunks|);
    FinishesWhenAllRan(es, s);
    if s.finished[0].Failed? {
      FailsOnlyInTheLoop(es, s);
      NobodyGivesUp(chunks, known, stored);
    }
  }

  lemma NobodyGivesUp(chunks: seq<Chunk>, known: seq<bool>, stored: seq<nat>)
    requires |known| == |stored| == |chunks|
    ensures forall e :: e in ReadEvents(chunks) + END_EVENTS + CallbackEvents(known, stored, |chunks|) ==> !GivesUp(e)
  {
    ReadingDoesNot(chunks);
    CallbacksDoNot(known, stored, |chunks|);
    hide ReadEvents, CallbackEvents;
    assert forall e :: e in END_EVENTS ==> !GivesUp(e);
    hide GivesUp;
  }

  lemma {:induction false} ReadingDoesNot(chunks: seq<Chunk>)
    ensures forall e :: e in ReadEvents(chunks) ==> !GivesUp(e)
  {
    if chunks != [] {
      ReadingDoesNot(chunks[..|chunks| - 1]);
    }
  }

  lemma {:induction false} CallbacksDoNot(known: seq<bool>, stored: seq<nat>, k: nat)
    requires k <= |known| == |stored|
    ensures forall e :: e in CallbackEvents(known, stored, k) ==> !GivesUp(e)
  {
    if k > 0 {
      CallbacksDoNot(known, stored, k - 1);
    }
  }

  // ----- The shared variables -----

  /** What the loop and the callbacks share, under a lock. */
  class FileJob {
    var remaining: int
    var isCompleted: bool
    var failed: bool
    var hasNode: bool
    var content: seq<Id>
    var size: nat
    var stats: Stats
    var finished: seq<Result>
    var panicked: bool

    /** A state with these variables. */
    ghost function In(s: State): State
      reads this
    {
      s.(remaining := remaining, isCompleted := isCompleted, failed := failed, hasNode := hasNode, content := content,
         size := size, stats := stats, finished := finished, panicked := panicked)
    }

    method Finish(r: Result)
      modifies this`finished
      ensures finished == old(finished) + [r]
    {
      finished := finished + [r];
    }

    method CompleteBlob(ghost s: State)
      modifies this
      ensures In(s) == BlobDone(old(In(s)))
    {
      remaining := remaining - 1;
      if remaining == 0 && !failed {
        if isCompleted || !hasNode {
          panicked := true;
          return;
        }
        for i := 0 to |content|
          invariant NULL_ID !in content[..i]
          invariant remaining == 0 && In(s) == old(In(s)).(remaining := 0)
        {
          if content[i] == NULL_ID {
            assert NULL_ID in content;
            panicked := true;
            return;
          }
        }
        assert content[..|content|] == content;
        isCompleted := true;
        Finish(Saved(content, size, stats));
      }
    }

    method CompleteError(ghost s: State)
      modifies this
      ensures In(s) == ErrorDone(old(In(s)))
    {
      if !failed {
        if isCompleted {
          panicked := true;
          return;
        }
        isCompleted := true;
        failed := true;
        hasNode := false;
        stats := NO_STATS;
        Finish(Failed);
      }
    }

    /** What the callback of a chunk writes before it completes the blob. */
    method Store(ghost s: State, i: nat, known: bool, length: nat, stored: nat, id: Id)
      requires i < |content| && Shape(In(s)) && s.chunks[i] == Chunk(id, length) && Enabled(s, Write(i, known, stored))
      modifies this`stats, this`content
      ensures In(s.(callbacks := s.callbacks[i := Written(known, stored)])) ==
        Apply(old(In(s)), Write(i, known, stored))
    {
      if !known {
        stats := Stats(stats.blobs + 1, stats.size + length, stats.stored + stored);
      }
      content := content[i := id];
    }
  }
}
