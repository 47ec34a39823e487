/** Runs of ingestion and retry: positions only grow, and no accepted event is lost. */
module EventRuns {
  import opened EventModel

  datatype Step =
    | IngestStep(event: Event, effect: Effect, saved: bool, now: int)
    | RetryStep(limit: nat, now: int, tries: seq<Try>)

  /** The stored state, the events accepted so far in order, and those applied. */
  datatype World = World(store: Store, accepted: seq<Event>, applied: seq<Event>)

  predicate Enabled(w: World, step: Step) {
    step.RetryStep? ==> |step.tries| == |w.store.letters|
  }

  predicate Accepts(o: Outcome) {
    o.Processed? || o.DeadLettered?
  }

  function Next(lim: Limits, w: World, step: Step): World
    requires Enabled(w, step)
  {
    match step
    case IngestStep(e, effect, saved, now) =>
      var (st, o) := Ingest(lim, w.store, e, effect, saved, now);
      World(st,
            if Accepts(o) then w.accepted + [e] else w.accepted,
            if o.Processed? || (o.Raised? && effect.Works? && StreamFits(lim, w.store, e)) then w.applied + [e] else w.applied)
    case RetryStep(limit, now, tries) =>
      var p := Retry(w.store, w.store.letters, |w.store.letters|, limit, now, tries);
      w.(store := p.store, applied := w.applied + p.applied)
  }

  ghost predicate IsRun(lim: Limits, ws: seq<World>, steps: seq<Step>) {
    && |ws| == |steps| + 1 && ws[0] == World(Empty(), [], [])
    && forall i | 0 <= i < |steps| :: Enabled(ws[i], steps[i]) && ws[i + 1] == Next(lim, ws[i], steps[i])
  }

  /** Distinct events have distinct ids. */
  ghost predicate DistinctIds(steps: seq<Step>) {
    forall i, j | 0 <= i < |steps| && 0 <= j < |steps| && steps[i].IngestStep? && steps[j].IngestStep? ::
      steps[i].event.id == steps[j].event.id ==> steps[i].event == steps[j].event
  }

  // ----- Invariants -----

  ghost predicate Growing(accepted: seq<Event>) {
    forall i, j | 0 <= i < j < |accepted| && accepted[i].stream == accepted[j].stream :: accepted[i].position < accepted[j].position
  }

  /** Each stream's checkpoint has passed every accepted position. */
  ghost predicate Passed(w: World) {
    forall i | 0 <= i < |w.accepted| ::
      var e := w.accepted[i]; e.stream in w.store.checkpoints && e.position <= w.store.checkpoints[e.stream]
  }

  ghost predicate Lettered(letters: seq<Letter>, e: Event) {
    exists i :: 0 <= i < |letters| && letters[i].event == e
  }

  ghost predicate Kept(letters: seq<Letter>, applied: seq<Event>, e: Event) {
    e in applied || Lettered(letters, e)
  }

  ghost predicate NothingLost(w: World) {
    forall i | 0 <= i < |w.accepted| :: Kept(w.store.letters, w.applied, w.accepted[i])
  }

  /** Letters hold only accepted events. */
  ghost predicate LettersAccepted(w: World) {
    forall i | 0 <= i < |w.store.letters| :: w.store.letters[i].event in w.accepted
  }

  ghost predicate Inv(w: World) {
    Growing(w.accepted) && Passed(w) && NothingLost(w) && LettersAccepted(w)
  }

  /** `e` shares its id with no other accepted event. */
  ghost predicate OwnId(accepted: seq<Event>, e: Event) {
    forall i | 0 <= i < |accepted| && accepted[i].id == e.id :: accepted[i] == e
  }

  // ----- Ingestion -----

  /** A letter with the id of `e` means that `e` lies behind its checkpoint. */
  lemma LetterIsBehind(w: World, e: Event, i: nat)
    requires Inv(w) && OwnId(w.accepted, e) && i < |w.store.letters| && w.store.letters[i].event.id == e.id
    ensures e.stream in w.store.checkpoints && e.position <= w.store.checkpoints[e.stream]
  {
    var l := w.store.letters[i].event;
    assert l in w.accepted;
    var j :| 0 <= j < |w.accepted| && w.accepted[j] == l;
    assert w.accepted[j] == e;
  }

  /** An event past its checkpoint has no letter, so failing files a new one. */
  lemma NewLetter(w: World, e: Event)
    requires Inv(w) && OwnId(w.accepted, e)
    requires e.stream in w.store.checkpoints ==> e.position > w.store.checkpoints[e.stream]
    ensures Position(w.store.letters, e.id) == |w.store.letters|
  {
    var i := Position(w.store.letters, e.id);
    if i < |w.store.letters| { LetterIsBehind(w, e, i); }
  }

  /** The state after accepting `e`, with `letters` and `applied` grown. */
  lemma AcceptKeeps(lim: Limits, w: World, e: Event, letters: seq<Letter>, applied: seq<Event>)
    requires Inv(w) && (e.stream in w.store.checkpoints ==> e.position > w.store.checkpoints[e.stream])
    requires w.store.letters <= letters && w.applied <= applied && Kept(letters, applied, e)
    requires forall i | |w.store.letters| <= i < |letters| :: letters[i].event == e
    ensures Inv(World(Settled(lim, w.store.(letters := letters), e), w.accepted + [e], applied))
  {
    var r := World(Settled(lim, w.store.(letters := letters), e), w.accepted + [e], applied);
    AcceptGrows(w, e);
    AcceptPasses(lim, w, e, letters, applied);
    forall i | 0 <= i < |r.accepted| ensures Kept(letters, applied, r.accepted[i]) {
      if i < |w.accepted| { KeptMore(w.store.letters, w.applied, w.accepted[i], letters, applied); }
    }
    forall i | 0 <= i < |letters| ensures letters[i].event in r.accepted {
      if i < |w.store.letters| { assert letters[i] == w.store.letters[i]; }
    }
  }

  lemma KeptMore(letters: seq<Letter>, applied: seq<Event>, e: Event, letters': seq<Letter>, applied': seq<Event>)
    requires Kept(letters, applied, e) && letters <= letters' && applied <= applied'
    ensures Kept(letters', applied', e)
  {
    if e !in applied {
      var i :| 0 <= i < |letters| && letters[i].event == e;
      assert letters'[i].event == e;
    }
  }

  lemma AcceptGrows(w: World, e: Event)
    requires Inv(w) && (e.stream in w.store.checkpoints ==> e.position > w.store.checkpoints[e.stream])
    ensures Growing(w.accepted + [e])
  {
  }

  lemma AcceptPasses(lim: Limits, w: World, e: Event, letters: seq<Letter>, applied: seq<Event>)
    requires Inv(w) && (e.stream in w.store.checkpoints ==> e.position > w.store.checkpoints[e.stream])
    ensures Passed(World(Settled(lim, w.store.(letters := letters), e), w.accepted + [e], applied))
  {
  }

  lemma IngestKeeps(lim: Limits, w: World, step: Step)
    requires Inv(w) && step.IngestStep? && OwnId(w.accepted, step.event)
    ensures Inv(Next(lim, w, step))
  {
    var e := step.event;
    var (st, o) := Ingest(lim, w.store, e, step.effect, step.saved, step.now);
    if o.DeadLettered? {
      NewLetter(w, e);
      var letters := w.store.letters + [Letter(e, 1, step.now + 1, true)];
      assert letters[|w.store.letters|].event == e;
      AcceptKeeps(lim, w, e, letters, w.applied);
    } else if o.Processed? {
      AcceptKeeps(lim, w, e, w.store.letters, w.applied + [e]);
      assert w.store.(letters := w.store.letters) == w.store;
    } else {
      assert st == w.store;
      MoreApplied(w, Next(lim, w, step).applied);
    }
  }

  lemma MoreApplied(w: World, applied: seq<Event>)
    requires Inv(w) && w.applied <= applied
    ensures Inv(w.(applied := applied))
  {
    forall i | 0 <= i < |w.accepted| ensures Kept(w.store.letters, applied, w.accepted[i]) {
      KeptMore(w.store.letters, w.applied, w.accepted[i], w.store.letters, applied);
    }
  }

  // ----- Retry -----

  lemma {:induction false} WithoutKeeps(letters: seq<Letter>, id: string, e: Event)
    requires Lettered(letters, e) && e.id != id
    ensures Lettered(Without(letters, id), e)
  {
    var i :| 0 <= i < |letters| && letters[i].event == e;
    var init, rest := letters[..|letters| - 1], Without(letters[..|letters| - 1], id);
    if i == |letters| - 1 {
      assert Without(letters, id)[|rest|].event == e;
    } else {
      assert init[i].event == e;
      WithoutKeeps(init, id, e);
      var j :| 0 <= j < |rest| && rest[j].event == e;
      assert Without(letters, id)[j].event == e;
    }
  }

  lemma {:induction false} WithoutOnly(letters: seq<Letter>, id: string, i: nat)
    requires i < |Without(letters, id)|
    ensures Lettered(letters, Without(letters, id)[i].event)
  {
    var init, rest := letters[..|letters| - 1], Without(letters[..|letters| - 1], id);
    if i < |rest| {
      WithoutOnly(init, id, i);
      var j :| 0 <= j < |init| && init[j].event == rest[i].event;
      assert letters[j].event == rest[i].event;
    } else {
      assert letters[|letters| - 1].event == Without(letters, id)[i].event;
    }
  }

  lemma UpdatedSame(letters: seq<Letter>, id: string, now: int)
    ensures |Updated(letters, id, now)| == |letters|
    ensures forall i | 0 <= i < |letters| :: Updated(letters, id, now)[i].event == letters[i].event
  {
  }

  /** The world in the middle of a retry pass. */
  function Midway(w: World, p: Pass): World {
    w.(store := p.store, applied := w.applied + p.applied)
  }

  /** Removing the letters of an event that has just been applied loses nothing. */
  lemma RemoveKeeps(w: World, e: Event)
    requires Inv(w) && e in w.applied && OwnId(w.accepted, e)
    ensures Inv(w.(store := w.store.(letters := Without(w.store.letters, e.id))))
  {
    var letters := Without(w.store.letters, e.id);
    forall i | 0 <= i < |w.accepted| ensures Kept(letters, w.applied, w.accepted[i]) {
      var a := w.accepted[i];
      assert Kept(w.store.letters, w.applied, a);
      if a !in w.applied { WithoutKeeps(w.store.letters, e.id, a); }
    }
    forall i | 0 <= i < |letters| ensures letters[i].event in w.accepted {
      WithoutOnly(w.store.letters, e.id, i);
    }
  }

  lemma UpdateKeeps(w: World, id: string, now: int)
    requires Inv(w)
    ensures Inv(w.(store := w.store.(letters := Updated(w.store.letters, id, now))))
  {
    var letters := Updated(w.store.letters, id, now);
    UpdatedSame(w.store.letters, id, now);
    forall i | 0 <= i < |w.accepted| ensures Kept(letters, w.applied, w.accepted[i]) {
      var a := w.accepted[i];
      assert Kept(w.store.letters, w.applied, a);
      if a !in w.applied {
        var j :| 0 <= j < |w.store.letters| && w.store.letters[j].event == a;
        assert letters[j].event == a;
      }
    }
  }

  lemma RetryOneKeeps(w: World, p: Pass, l: Letter, limit: nat, now: int, try: Try)
    requires Inv(Midway(w, p)) && OwnId(w.accepted, l.event)
    ensures Inv(Midway(w, RetryOne(p, l, limit, now, try)))
  {
    var r := RetryOne(p, l, limit, now, try);
    if !p.stopped && p.retried < limit && Due(l, now) {
      var m := Midway(w, p);
      if try.works {
        assert w.applied + (p.applied + [l.event]) == m.applied + [l.event];
        MoreApplied(m, m.applied + [l.event]);
        RemoveKeeps(m.(applied := m.applied + [l.event]), l.event);
      } else {
        UpdateKeeps(m, l.event.id, now);
      }
    }
  }

  lemma {:induction false} RetryKeeps(w: World, n: nat, limit: nat, now: int, tries: seq<Try>)
    requires Inv(w) && n <= |w.store.letters| && n <= |tries|
    requires forall i | 0 <= i < |w.store.letters| :: OwnId(w.accepted, w.store.letters[i].event)
    ensures Inv(Midway(w, Retry(w.store, w.store.letters, n, limit, now, tries)))
  {
    if n == 0 {
      assert Midway(w, Pass(w.store, [], 0, false)) == w;
    } else {
      RetryKeeps(w, n - 1, limit, now, tries);
      RetryOneKeeps(w, Retry(w.store, w.store.letters, n - 1, limit, now, tries), w.store.letters[n - 1], limit, now, tries[n - 1]);
    }
  }

  // ----- Runs -----

  /** Every accepted event was offered by a step of the run. */
  ghost predicate Offered(steps: seq<Step>, n: nat, e: Event) {
    exists i :: 0 <= i < n && i < |steps| && steps[i].IngestStep? && steps[i].event == e
  }

  ghost predicate AllOffered(steps: seq<Step>, n: nat, w: World) {
    forall i | 0 <= i < |w.accepted| :: Offered(steps, n, w.accepted[i])
  }

  lemma OfferedOwn(steps: seq<Step>, n: nat, w: World, e: Event)
    requires DistinctIds(steps) && AllOffered(steps, n, w)
    requires Offered(steps, |steps|, e)
    ensures OwnId(w.accepted, e)
  {
    forall i | 0 <= i < |w.accepted| && w.accepted[i].id == e.id ensures w.accepted[i] == e {
      assert Offered(steps, n, w.accepted[i]);
      var a :| 0 <= a < n && a < |steps| && steps[a].IngestStep? && steps[a].event == w.accepted[i];
      var b :| 0 <= b < |steps| && steps[b].IngestStep? && steps[b].event == e;
    }
  }

  lemma StepKeeps(lim: Limits, steps: seq<Step>, n: nat, w: World)
    requires n < |steps| && DistinctIds(steps) && Inv(w) && AllOffered(steps, n, w) && Enabled(w, steps[n])
    ensures Inv(Next(lim, w, steps[n])) && AllOffered(steps, n + 1, Next(lim, w, steps[n]))
  {
    var step := steps[n];
    if step.IngestStep? {
      assert Offered(steps, |steps|, step.event);
      OfferedOwn(steps, n, w, step.event);
      IngestKeeps(lim, w, step);
    } else {
      forall i | 0 <= i < |w.store.letters| ensures OwnId(w.accepted, w.store.letters[i].event) {
        assert w.store.letters[i].event in w.accepted;
        var j :| 0 <= j < |w.accepted| && w.accepted[j] == w.store.letters[i].event;
        assert Offered(steps, n, w.accepted[j]);
        OfferedOwn(steps, n, w, w.accepted[j]);
      }
      RetryKeeps(w, |w.store.letters|, step.limit, step.now, step.tries);
    }
    StillOffered(lim, steps, n, w);
  }

  lemma StillOffered(lim: Limits, steps: seq<Step>, n: nat, w: World)
    requires n < |steps| && AllOffered(steps, n, w) && Enabled(w, steps[n])
    ensures AllOffered(steps, n + 1, Next(lim, w, steps[n]))
  {
    var r := Next(lim, w, steps[n]);
    forall i | 0 <= i < |r.accepted| ensures Offered(steps, n + 1, r.accepted[i]) {
      if i < |w.accepted| {
        assert Offered(steps, n, w.accepted[i]);
        var a :| 0 <= a < n && a < |steps| && steps[a].IngestStep? && steps[a].event == w.accepted[i];
        assert a < n + 1;
      } else {
        assert steps[n].event == r.accepted[i];
      }
    }
  }

  lemma {:induction false} RunKeeps(lim: Limits, ws: seq<World>, steps: seq<Step>, n: nat)
    requires IsRun(lim, ws, steps) && DistinctIds(steps) && n <= |steps|
    ensures Inv(ws[n]) && AllOffered(steps, n, ws[n])
  {
    if n > 0 {
      RunKeeps(lim, ws, steps, n - 1);
      StepKeeps(lim, steps, n - 1, ws[n - 1]);
    }
  }

  lemma NextGrows(lim: Limits, w: World, step: Step)
    requires Growing(w.accepted) && Passed(w) && Enabled(w, step)
    ensures var r := Next(lim, w, step); Growing(r.accepted) && Passed(r)
  {
    if step.RetryStep? {
      RetryCheckpoints(w.store, w.store.letters, |w.store.letters|, step.limit, step.now, step.tries);
    }
  }

  lemma {:induction false} RetryCheckpoints(st: Store, items: seq<Letter>, n: nat, limit: nat, now: int, tries: seq<Try>)
    requires n <= |items| && n <= |tries|
    ensures Retry(st, items, n, limit, now, tries).store.checkpoints == st.checkpoints
  {
    if n > 0 { RetryCheckpoints(st, items, n - 1, limit, now, tries); }
  }

  lemma {:induction false} RunGrows(lim: Limits, ws: seq<World>, steps: seq<Step>, n: nat)
    requires IsRun(lim, ws, steps) && n <= |steps|
    ensures Growing(ws[n].accepted) && Passed(ws[n])
  {
    if n > 0 {
      RunGrows(lim, ws, steps, n - 1);
      NextGrows(lim, ws[n - 1], steps[n - 1]);
    }
  }

  /**
   Over every run of ingest and retry accepted positions strictly increase within a
   stream, so none is accepted twice, however short the duplicate history and whatever
   the ids.
   */
  lemma AcceptedOnce(lim: Limits, ws: seq<World>, steps: seq<Step>, n: nat, i: nat, j: nat)
    requires IsRun(lim, ws, steps) && n <= |steps|
    requires i < j < |ws[n].accepted| && ws[n].accepted[i].stream == ws[n].accepted[j].stream
    ensures ws[n].accepted[i].position < ws[n].accepted[j].position
  {
    RunGrows(lim, ws, steps, n);
  }

  /** With distinct ids every accepted event has been applied or still waits in the dead-letter list. */
  lemma NeverLost(lim: Limits, ws: seq<World>, steps: seq<Step>, n: nat)
    requires IsRun(lim, ws, steps) && DistinctIds(steps) && n <= |steps|
    ensures NothingLost(ws[n])
  {
    RunKeeps(lim, ws, steps, n);
  }

  /**
   Exactly when a dead-lettered event is kept, whatever the ids: no letter carries its
   id yet, or one is its own, or it was applied before.
   */
  lemma FailureKeepsEvent(lim: Limits, w: World, e: Event, now: int)
    requires Ingest(lim, w.store, e, Fails, true, now).1.DeadLettered?
    ensures var r := Next(lim, w, IngestStep(e, Fails, true, now));
      e in r.accepted
      && (Kept(r.store.letters, r.applied, e) <==>
          Position(w.store.letters, e.id) == |w.store.letters| || Lettered(w.store.letters, e) || e in w.applied)
  {
    var r := Next(lim, w, IngestStep(e, Fails, true, now));
    assert r.accepted[|w.accepted|] == e;
    var n := |w.store.letters|;
    forall i | 0 <= i < n ensures r.store.letters[i].event == w.store.letters[i].event {}
    if Position(w.store.letters, e.id) == n {
      assert r.store.letters[n].event == e;
    } else if Lettered(w.store.letters, e) {
      var i :| 0 <= i < n && w.store.letters[i].event == e;
      assert r.store.letters[i].event == e;
    }
  }

  // ----- The same over whole runs -----

  ghost predicate UniqueLetters(letters: seq<Letter>) {
    forall i, j | 0 <= i < j < |letters| :: letters[i].event.id != letters[j].event.id
  }

  /** Every letter of `letters` is one of `all`, up to its attempts. */
  ghost predicate FromLetters(letters: seq<Letter>, all: seq<Letter>) {
    forall i | 0 <= i < |letters| :: Lettered(all, letters[i].event)
  }

  lemma {:induction false} PositionFirst(letters: seq<Letter>, id: string, k: nat)
    requires k < Position(letters, id)
    ensures letters[k].event.id != id
  {
    if k > 0 { PositionFirst(letters[1..], id, k - 1); }
  }

  lemma FiledUnique(letters: seq<Letter>, e: Event, now: int)
    requires UniqueLetters(letters)
    ensures UniqueLetters(Filed(letters, e, now))
  {
    if Position(letters, e.id) == |letters| {
      forall k | 0 <= k < |letters| ensures letters[k].event.id != e.id {
        PositionFirst(letters, e.id, k);
      }
    }
  }

  /** Filing a failed event keeps every letter's event. */
  lemma FiledKeeps(letters: seq<Letter>, e: Event, now: int, a: Event)
    requires Lettered(letters, a)
    ensures Lettered(Filed(letters, e, now), a)
  {
    var i :| 0 <= i < |letters| && letters[i].event == a;
    assert Filed(letters, e, now)[i].event == a;
  }

  lemma {:induction false} WithoutUnique(letters: seq<Letter>, id: string)
    requires UniqueLetters(letters)
    ensures UniqueLetters(Without(letters, id))
  {
    if letters != [] {
      var init, last := letters[..|letters| - 1], letters[|letters| - 1];
      var rest := Without(init, id);
      WithoutUnique(init, id);
      forall i | 0 <= i < |rest| ensures rest[i].event.id != last.event.id {
        WithoutOnly(init, id, i);
        var j :| 0 <= j < |init| && init[j].event == rest[i].event;
        assert letters[j].event.id != letters[|letters| - 1].event.id;
      }
    }
  }

  /** What a retry pass keeps, whatever the ids; `all` are the letters when it began. */
  ghost predicate PassKeeps(w: World, p: Pass) {
    && NothingLost(Midway(w, p)) && UniqueLetters(p.store.letters) && FromLetters(p.store.letters, w.store.letters)
  }

  lemma SameId(letters: seq<Letter>, a: Event, b: Event)
    requires UniqueLetters(letters) && Lettered(letters, a) && Lettered(letters, b) && a.id == b.id
    ensures a == b
  {
    var i :| 0 <= i < |letters| && letters[i].event == a;
    var j :| 0 <= j < |letters| && letters[j].event == b;
  }

  /** Removing the letters of an id loses nothing once the letter of that id is applied. */
  lemma RemoveLoses(w: World, p: Pass, l: Letter, applied: seq<Event>)
    requires PassKeeps(w, p) && UniqueLetters(w.store.letters) && l in w.store.letters
    requires p.applied <= applied && l.event in applied
    ensures PassKeeps(w, p.(store := p.store.(letters := Without(p.store.letters, l.event.id)), applied := applied))
  {
    var letters := Without(p.store.letters, l.event.id);
    assert Lettered(w.store.letters, l.event) by {
      var i :| 0 <= i < |w.store.letters| && w.store.letters[i] == l;
    }
    WithoutUnique(p.store.letters, l.event.id);
    forall i | 0 <= i < |letters| ensures Lettered(w.store.letters, letters[i].event) {
      WithoutOnly(p.store.letters, l.event.id, i);
      var j :| 0 <= j < |p.store.letters| && p.store.letters[j].event == letters[i].event;
      assert Lettered(w.store.letters, p.store.letters[j].event);
    }
    forall i | 0 <= i < |w.accepted| ensures Kept(letters, w.applied + applied, w.accepted[i]) {
      RemovedKept(w, p, l, applied, w.accepted[i]);
    }
  }

  lemma RemovedKept(w: World, p: Pass, l: Letter, applied: seq<Event>, a: Event)
    requires UniqueLetters(w.store.letters) && Lettered(w.store.letters, l.event) && FromLetters(p.store.letters, w.store.letters)
    requires p.applied <= applied && l.event in applied && Kept(p.store.letters, w.applied + p.applied, a)
    ensures Kept(Without(p.store.letters, l.event.id), w.applied + applied, a)
  {
    assert w.applied + p.applied <= w.applied + applied;
    if a !in w.applied + applied {
      var i :| 0 <= i < |p.store.letters| && p.store.letters[i].event == a;
      assert Lettered(w.store.letters, p.store.letters[i].event);
      if a.id == l.event.id { SameId(w.store.letters, a, l.event); }
      WithoutKeeps(p.store.letters, l.event.id, a);
    }
  }

  lemma PassApplies(w: World, p: Pass, applied: seq<Event>)
    requires PassKeeps(w, p) && p.applied <= applied
    ensures PassKeeps(w, p.(applied := applied))
  {
    assert w.applied + p.applied <= w.applied + applied;
    forall i | 0 <= i < |w.accepted| ensures Kept(p.store.letters, w.applied + applied, w.accepted[i]) {
      assert Kept(Midway(w, p).store.letters, Midway(w, p).applied, w.accepted[i]);
      KeptMore(p.store.letters, w.applied + p.applied, w.accepted[i], p.store.letters, w.applied + applied);
    }
  }

  lemma PassUpdates(w: World, p: Pass, id: string, now: int)
    requires PassKeeps(w, p)
    ensures PassKeeps(w, p.(store := p.store.(letters := Updated(p.store.letters, id, now))))
  {
    var letters := Updated(p.store.letters, id, now);
    UpdatedSame(p.store.letters, id, now);
    forall i | 0 <= i < |w.accepted| ensures Kept(letters, w.applied + p.applied, w.accepted[i]) {
      var a := w.accepted[i];
      assert Kept(Midway(w, p).store.letters, Midway(w, p).applied, a);
      if a !in w.applied + p.applied {
        var j :| 0 <= j < |p.store.letters| && p.store.letters[j].event == a;
        assert letters[j].event == a;
      }
    }
    forall i | 0 <= i < |letters| ensures Lettered(w.store.letters, letters[i].event) {
      assert Lettered(w.store.letters, p.store.letters[i].event);
    }
  }

  /** Only letters and the events applied so far matter to what a pass keeps. */
  lemma PassSame(w: World, p: Pass, q: Pass)
    requires PassKeeps(w, p) && q.store == p.store && q.applied == p.applied
    ensures PassKeeps(w, q)
  {
    assert Midway(w, q) == Midway(w, p);
  }

  lemma RetryOneLoses(w: World, p: Pass, l: Letter, limit: nat, now: int, try: Try)
    requires PassKeeps(w, p) && UniqueLetters(w.store.letters) && l in w.store.letters
    ensures PassKeeps(w, RetryOne(p, l, limit, now, try))
  {
    var r := RetryOne(p, l, limit, now, try);
    if p.stopped || p.retried >= limit || !Due(l, now) {
      PassSame(w, p, r);
    } else if try.works {
      var applied := p.applied + [l.event];
      RemoveLoses(w, p, l, applied);
      PassApplies(w, p, applied);
      PassSame(w, if try.saved then p.(store := p.store.(letters := Without(p.store.letters, l.event.id)), applied := applied)
                  else p.(applied := applied), r);
    } else {
      PassUpdates(w, p, l.event.id, now);
      PassSame(w, if try.saved then p.(store := p.store.(letters := Updated(p.store.letters, l.event.id, now))) else p, r);
    }
  }

  lemma {:induction false} RetryLoses(w: World, n: nat, limit: nat, now: int, tries: seq<Try>)
    requires NothingLost(w) && UniqueLetters(w.store.letters) && n <= |w.store.letters| && n <= |tries|
    ensures PassKeeps(w, Retry(w.store, w.store.letters, n, limit, now, tries))
  {
    if n == 0 {
      assert Midway(w, Pass(w.store, [], 0, false)) == w;
    } else {
      RetryLoses(w, n - 1, limit, now, tries);
      RetryOneLoses(w, Retry(w.store, w.store.letters, n - 1, limit, now, tries), w.store.letters[n - 1], limit, now, tries[n - 1]);
    }
  }

  predicate DeadLetters(lim: Limits, w: World, step: Step) {
    step.IngestStep? && Ingest(lim, w.store, step.event, step.effect, step.saved, step.now).1.DeadLettered?
  }

  /** No letter carries the id of `e` yet, or one is its own, or it was applied before. */
  ghost predicate Fileable(w: World, e: Event) {
    Position(w.store.letters, e.id) == |w.store.letters| || Lettered(w.store.letters, e) || e in w.applied
  }

  lemma IngestLoses(lim: Limits, w: World, step: Step)
    requires NothingLost(w) && UniqueLetters(w.store.letters) && step.IngestStep?
    requires DeadLetters(lim, w, step) ==> Fileable(w, step.event)
    ensures NothingLost(Next(lim, w, step)) && UniqueLetters(Next(lim, w, step).store.letters)
  {
    var e, r := step.event, Next(lim, w, step);
    if DeadLetters(lim, w, step) {
      FailureKeepsEvent(lim, w, e, step.now);
      FiledUnique(w.store.letters, e, step.now);
      forall i | 0 <= i < |r.accepted| ensures Kept(r.store.letters, r.applied, r.accepted[i]) {
        if i < |w.accepted| {
          assert Kept(w.store.letters, w.applied, w.accepted[i]);
          if w.accepted[i] !in w.applied { FiledKeeps(w.store.letters, e, step.now, w.accepted[i]); }
        }
      }
    } else {
      forall i | 0 <= i < |r.accepted| ensures Kept(r.store.letters, r.applied, r.accepted[i]) {
        if i < |w.accepted| { assert Kept(w.store.letters, w.applied, w.accepted[i]); }
      }
    }
  }

  lemma {:induction false} RunLoses(lim: Limits, ws: seq<World>, steps: seq<Step>, n: nat)
    requires IsRun(lim, ws, steps) && n <= |steps|
    requires forall i | 0 <= i < n && DeadLetters(lim, ws[i], steps[i]) :: Fileable(ws[i], steps[i].event)
    ensures NothingLost(ws[n]) && UniqueLetters(ws[n].store.letters)
  {
    if n > 0 {
      var w, step := ws[n - 1], steps[n - 1];
      RunLoses(lim, ws, steps, n - 1);
      if step.IngestStep? {
        IngestLoses(lim, w, step);
      } else {
        RetryLoses(w, |w.store.letters|, step.limit, step.now, step.tries);
      }
    }
  }

  /**
   With no assumption on ids: nothing accepted is lost at any point of a run if and only
   if every failure that is filed finds no letter with its id, or its own, or an event
   that was applied before.
   */
  lemma NeverLostIff(lim: Limits, ws: seq<World>, steps: seq<Step>)
    requires IsRun(lim, ws, steps)
    ensures (forall n | 0 <= n <= |steps| :: NothingLost(ws[n])) <==>
      (forall i | 0 <= i < |steps| && DeadLetters(lim, ws[i], steps[i]) :: Fileable(ws[i], steps[i].event))
  {
    if forall i | 0 <= i < |steps| && DeadLetters(lim, ws[i], steps[i]) :: Fileable(ws[i], steps[i].event) {
      forall n | 0 <= n <= |steps| ensures NothingLost(ws[n]) {
        RunLoses(lim, ws, steps, n);
      }
    }
    if forall n | 0 <= n <= |steps| :: NothingLost(ws[n]) {
      forall i | 0 <= i < |steps| && DeadLetters(lim, ws[i], steps[i]) ensures Fileable(ws[i], steps[i].event) {
        assert NothingLost(ws[i + 1]) && ws[i + 1] == Next(lim, ws[i], steps[i]);
        LostUnlessFileable(lim, ws[i], steps[i]);
      }
    }
  }

  lemma LostUnlessFileable(lim: Limits, w: World, step: Step)
    requires DeadLetters(lim, w, step) && NothingLost(Next(lim, w, step))
    ensures Fileable(w, step.event)
  {
    var e, r := step.event, Next(lim, w, step);
    FailureKeepsEvent(lim, w, e, step.now);
    assert r.accepted[|w.accepted|] == e;
    assert Kept(r.store.letters, r.applied, r.accepted[|w.accepted|]);
  }

  // ----- The condition can fail -----

  const Tiny := Limits(1, 2, 2)
  const First := Event("x", "s", 1, "")
  const Between := Event("y", "s", 2, "")
  const Second := Event("x", "t", 1, "")

  /** A failed event is filed; another then pushes its id out of a history of length one. */
  const JustFiled := World(Store(map["s" := 1], ["x"], [Letter(First, 1, 1, true)]), [First], [])
  const Forgotten := World(Store(map["s" := 2], ["y"], [Letter(First, 1, 1, true)]), [First, Between], [Between])

  lemma FilingIsReached()
    ensures Next(Tiny, World(Empty(), [], []), IngestStep(First, Fails, true, 0)) == JustFiled
  {
    assert [] + [Letter(First, 1, 1, true)] == [Letter(First, 1, 1, true)];
  }

  lemma ForgettingIsReached()
    ensures Next(Tiny, JustFiled, IngestStep(Between, Works, true, 0)) == Forgotten
  {
    assert ["x"][..0] == [] && Dropped(["x"], "y") == ["x"];
    assert Remembered(Tiny, ["x"], "y") == ["y"];
    assert (map["s" := 1])["s" := 2] == map["s" := 2];
  }

  /**
   So ids must be distinct: when the forgotten id is reused by another event, that
   event, accepted, is neither applied nor filed.
   */
  lemma ReusedIdLosesEvent()
    ensures var w := Next(Tiny, World(Empty(), [], []), IngestStep(First, Fails, true, 0));
      var x := Next(Tiny, w, IngestStep(Between, Works, true, 0));
      var r := Next(Tiny, x, IngestStep(Second, Fails, true, 0));
      Second in r.accepted && !Kept(r.store.letters, r.applied, Second)
  {
    FilingIsReached();
    ForgettingIsReached();
    assert Forgotten.store.checkpoints.Keys == {"s"} && |Forgotten.store.checkpoints| == |{"s"}|;
    FailureKeepsEvent(Tiny, Forgotten, Second, 0);
  }
}
