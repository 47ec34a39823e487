/**
 What ingestion answers, told from the events a run has accepted: which ids count as
 duplicates, what is a replay, when capacity refuses, and what a retry pass does.
 */
module EventAnswers {
  import opened EventModel
  import opened EventRuns

  // ----- The duplicate history -----

  function IdsOf(events: seq<Event>): seq<string> {
    if events == [] then [] else IdsOf(events[..|events| - 1]) + [events[|events| - 1].id]
  }

  /** Every id once, in the order in which the ids occurred last. */
  function ByLast(ids: seq<string>): seq<string> {
    if ids == [] then [] else Dropped(ByLast(ids[..|ids| - 1]), ids[|ids| - 1]) + [ids[|ids| - 1]]
  }

  function Tail(s: seq<string>, n: nat): seq<string> {
    if |s| > n then s[|s| - n..] else s
  }

  ghost predicate NoTwice(s: seq<string>) {
    forall i, j | 0 <= i < j < |s| :: s[i] != s[j]
  }

  lemma {:induction false} DroppedMembers(s: seq<string>, x: string, y: string)
    ensures y in Dropped(s, x) <==> y in s && y != x
  {
    if s != [] {
      assert s == s[..|s| - 1] + [s[|s| - 1]];
      DroppedMembers(s[..|s| - 1], x, y);
    }
  }

  lemma {:induction false} DroppedNoTwice(s: seq<string>, x: string)
    requires NoTwice(s)
    ensures NoTwice(Dropped(s, x)) && |Dropped(s, x)| == |s| - (if x in s then 1 else 0)
  {
    if s != [] {
      var init, last := s[..|s| - 1], s[|s| - 1];
      assert s == init + [last];
      DroppedNoTwice(init, x);
      DroppedMembers(init, x, last);
    }
  }

  lemma {:induction false} DroppedAbsent(s: seq<string>, x: string)
    requires x !in s
    ensures Dropped(s, x) == s
  {
    if s != [] {
      assert s == s[..|s| - 1] + [s[|s| - 1]];
      DroppedAbsent(s[..|s| - 1], x);
    }
  }

  lemma {:induction false} DroppedSplit(a: seq<string>, b: seq<string>, x: string)
    ensures Dropped(a + b, x) == Dropped(a, x) + Dropped(b, x)
  {
    if b == [] {
      assert a + b == a;
    } else {
      assert (a + b)[..|a + b| - 1] == a + b[..|b| - 1];
      DroppedSplit(a, b[..|b| - 1], x);
    }
  }

  lemma TailBack(p: seq<string>, q: seq<string>, n: nat)
    requires |q| >= n > 0
    ensures Tail(p + q, n) == q[|q| - n..]
  {
    assert (p + q)[|p + q| - n..] == q[|q| - n..];
  }

  lemma RememberedSplit(lim: Limits, a: seq<string>, b: seq<string>, x: string)
    requires NoTwice(a + b) && NoTwice(b) && |b| == lim.maxSeen > 0
    ensures Remembered(lim, b, x) == Tail(Dropped(a + b, x) + [x], lim.maxSeen)
  {
    var n, q := lim.maxSeen, Dropped(b, x) + [x];
    DroppedSplit(a, b, x);
    DroppedNoTwice(b, x);
    assert Dropped(a + b, x) + [x] == Dropped(a, x) + q;
    TailBack(Dropped(a, x), q, n);
    if x !in b { DroppedAbsent(b, x); }
  }

  /** Forgetting the oldest first and remembering `x` commute. */
  lemma RememberedTail(lim: Limits, u: seq<string>, x: string)
    requires NoTwice(u) && lim.maxSeen > 0
    ensures Remembered(lim, Tail(u, lim.maxSeen), x) == Tail(Dropped(u, x) + [x], lim.maxSeen)
  {
    var n := lim.maxSeen;
    if |u| > n {
      var a, b := u[..|u| - n], u[|u| - n..];
      assert u == a + b;
      RememberedSplit(lim, a, b, x);
    }
  }

  lemma {:induction false} ByLastNoTwice(ids: seq<string>)
    ensures NoTwice(ByLast(ids)) && forall y :: y in ByLast(ids) <==> y in ids
  {
    if ids != [] {
      var init, x := ids[..|ids| - 1], ids[|ids| - 1];
      assert ids == init + [x];
      ByLastNoTwice(init);
      DroppedNoTwice(ByLast(init), x);
      forall y ensures y in ByLast(ids) <==> y in ids {
        DroppedMembers(ByLast(init), x, y);
      }
      DroppedMembers(ByLast(init), x, x);
    }
  }

  /** The ids that occur at position `i` or later. */
  function From(ids: seq<string>, i: nat): set<string> {
    set j | i <= j < |ids| :: ids[j]
  }

  /** From its last occurrence on, at most `n` distinct ids occur: `id` is one of the last `n`. */
  ghost predicate AmongLast(ids: seq<string>, id: string, n: nat) {
    exists i :: 0 <= i < |ids| && ids[i] == id && |From(ids, i)| <= n
  }

  /** In a list without repetition: `id` and what follows it. */
  function Following(s: seq<string>, id: string): set<string> {
    if s == [] then {}
    else if s[|s| - 1] == id then {id}
    else if id in s[..|s| - 1] then Following(s[..|s| - 1], id) + {s[|s| - 1]}
    else {}
  }

  lemma {:induction false} FollowingDropped(s: seq<string>, x: string, id: string)
    requires NoTwice(s) && id in s && id != x
    ensures Following(Dropped(s, x), id) == Following(s, id) - {x} && id in Dropped(s, x)
  {
    var init, last := s[..|s| - 1], s[|s| - 1];
    assert s == init + [last];
    DroppedMembers(s, x, id);
    DroppedMembers(init, x, id);
    if last != id {
      assert id in init && last !in init;
      FollowingDropped(init, x, id);
      FollowingMembers(init, id);
      if last != x {
        assert Dropped(s, x) == Dropped(init, x) + [last];
        assert Dropped(s, x)[..|Dropped(s, x)| - 1] == Dropped(init, x);
        assert Following(Dropped(s, x), id) == Following(Dropped(init, x), id) + {last};
      } else {
        assert Dropped(s, x) == Dropped(init, x);
      }
    } else {
      assert Dropped(s, x)[|Dropped(s, x)| - 1] == id;
    }
  }

  lemma {:induction false} FollowingMembers(s: seq<string>, id: string)
    ensures forall y | y in Following(s, id) :: y in s
    ensures id in s ==> id in Following(s, id)
  {
    if s != [] {
      assert s == s[..|s| - 1] + [s[|s| - 1]];
      FollowingMembers(s[..|s| - 1], id);
    }
  }

  lemma {:induction false} FollowingSize(s: seq<string>, k: nat)
    requires NoTwice(s) && k < |s|
    ensures |Following(s, s[k])| == |s| - k
  {
    var init, last := s[..|s| - 1], s[|s| - 1];
    if k < |init| {
      assert s[k] == init[k];
      FollowingSize(init, k);
      FollowingMembers(init, s[k]);
      assert last !in init;
    }
  }

  /** What follows an id in `ByLast` is what occurs from its last occurrence on, and never more than from an earlier one. */
  lemma {:induction false} FollowingIsFrom(ids: seq<string>, id: string) returns (i: nat)
    requires id in ids
    ensures i < |ids| && ids[i] == id && From(ids, i) == Following(ByLast(ids), id)
    ensures forall j | 0 <= j < |ids| && ids[j] == id :: Following(ByLast(ids), id) <= From(ids, j)
  {
    var init, x := ids[..|ids| - 1], ids[|ids| - 1];
    assert ids == init + [x];
    var u, v := ByLast(init), ByLast(ids);
    assert v[..|v| - 1] == Dropped(u, x);
    if id == x {
      i := |init|;
      assert From(ids, i) == {x};
      forall j | 0 <= j < |ids| && ids[j] == id ensures Following(v, id) <= From(ids, j) {
        assert ids[|init|] in From(ids, j);
      }
    } else {
      i := FollowingIsFrom(init, id);
      ByLastNoTwice(init);
      FollowingDropped(u, x, id);
      forall j: nat | j < |init| ensures From(ids, j) == From(init, j) + {x} {
        FromNext(init, x, j);
      }
    }
  }

  lemma FromNext(ids: seq<string>, x: string, j: nat)
    requires j <= |ids|
    ensures From(ids + [x], j) == From(ids, j) + {x}
  {
    var t := ids + [x];
    assert t[|ids|] == x;
    forall y | y in From(ids, j) ensures y in From(t, j) {
      var k :| j <= k < |ids| && ids[k] == y;
      assert t[k] == y;
    }
  }

  /** The last `n` ids, and only they, are in the tail. */
  lemma TailIsLast(ids: seq<string>, id: string, n: nat)
    ensures id in Tail(ByLast(ids), n) <==> AmongLast(ids, id, n)
  {
    var u := ByLast(ids);
    ByLastNoTwice(ids);
    if id in ids {
      var i := FollowingIsFrom(ids, id);
      var k :| 0 <= k < |u| && u[k] == id;
      FollowingSize(u, k);
      if id in Tail(u, n) {
        var m :| 0 <= m < |Tail(u, n)| && Tail(u, n)[m] == id;
        assert |From(ids, i)| <= n;
      }
      if j :| 0 <= j < |ids| && ids[j] == id && |From(ids, j)| <= n {
        Smaller(Following(u, id), From(ids, j));
        assert |u| - k <= n;
        if |u| > n { assert Tail(u, n)[k - (|u| - n)] == id; }
      }
    } else {
      assert forall y | y in Tail(u, n) :: y in u;
    }
  }

  lemma Smaller(a: set<string>, b: set<string>)
    requires a <= b
    ensures |a| <= |b|
  {
    assert b == a + (b - a);
  }

  lemma {:induction false} IdsAt(events: seq<Event>)
    ensures |IdsOf(events)| == |events| && forall i | 0 <= i < |events| :: IdsOf(events)[i] == events[i].id
  {
    if events != [] { IdsAt(events[..|events| - 1]); }
  }

  // ----- What the store knows of the events accepted -----

  /** The streams of the accepted events. */
  function StreamsOf(events: seq<Event>): set<string> {
    set i | 0 <= i < |events| :: events[i].stream
  }

  /** An accepted event of the stream has that position or a later one. */
  predicate Reached(events: seq<Event>, stream: string, position: nat) {
    exists i | 0 <= i < |events| :: events[i].stream == stream && events[i].position >= position
  }

  /** History and checkpoints are those of the accepted events. */
  ghost predicate Faithful(lim: Limits, w: World) {
    && w.store.seen == Tail(ByLast(IdsOf(w.accepted)), lim.maxSeen)
    && w.store.checkpoints.Keys == StreamsOf(w.accepted)
    && forall s, p: nat | s in w.store.checkpoints :: Reached(w.accepted, s, p) <==> p <= w.store.checkpoints[s]
  }

  lemma StreamsNext(events: seq<Event>, e: Event)
    ensures StreamsOf(events + [e]) == StreamsOf(events) + {e.stream}
  {
    var t := events + [e];
    assert t[|events|] == e;
    forall s | s in StreamsOf(events) ensures s in StreamsOf(t) {
      var i :| 0 <= i < |events| && events[i].stream == s;
      assert t[i].stream == s;
    }
  }

  lemma ReachedNext(events: seq<Event>, e: Event, s: string, p: nat)
    ensures Reached(events + [e], s, p) <==> Reached(events, s, p) || (e.stream == s && e.position >= p)
  {
    var t := events + [e];
    assert t[|events|] == e;
    if Reached(events, s, p) {
      var i :| 0 <= i < |events| && events[i].stream == s && events[i].position >= p;
      assert t[i] == events[i];
    }
  }

  lemma SettledFaithful(lim: Limits, w: World, e: Event, letters: seq<Letter>, applied: seq<Event>)
    requires lim.maxSeen > 0 && Faithful(lim, w) && (e.stream in w.store.checkpoints ==> e.position > w.store.checkpoints[e.stream])
    ensures Faithful(lim, World(Settled(lim, w.store.(letters := letters), e), w.accepted + [e], applied))
  {
    var st, events := Settled(lim, w.store.(letters := letters), e), w.accepted + [e];
    var ids := IdsOf(w.accepted);
    assert events[..|w.accepted|] == w.accepted;
    assert (ids + [e.id])[..|ids|] == ids;
    ByLastNoTwice(ids);
    RememberedTail(lim, ByLast(ids), e.id);
    StreamsNext(w.accepted, e);
    forall s, p: nat | s in st.checkpoints ensures Reached(events, s, p) <==> p <= st.checkpoints[s] {
      ReachedNext(w.accepted, e, s, p);
      if s == e.stream && s !in w.store.checkpoints {
        NotReached(w.accepted, s, p);
      } else {
        assert s in w.store.checkpoints;
      }
    }
  }

  lemma NotReached(events: seq<Event>, s: string, p: nat)
    requires s !in StreamsOf(events)
    ensures !Reached(events, s, p)
  {
  }

  /** The state after an ingest: settled with letters, settled, or as before. */
  lemma NextStore(lim: Limits, w: World, step: Step)
    requires step.IngestStep?
    ensures var (o, r, e) := (Answer(lim, w, step), Next(lim, w, step), step.event);
      && (Accepts(o) ==>
            && (e.stream in w.store.checkpoints ==> e.position > w.store.checkpoints[e.stream])
            && r.accepted == w.accepted + [e]
            && r.store == Settled(lim, w.store.(letters := if o.DeadLettered? then Filed(w.store.letters, e, step.now) else w.store.letters), e))
      && (!Accepts(o) ==> r.accepted == w.accepted && r.store == w.store)
  {
    assert w.store.(letters := w.store.letters) == w.store;
  }

  lemma FaithfulSame(lim: Limits, w: World, x: World)
    requires Faithful(lim, w) && x.accepted == w.accepted && x.store == w.store
    ensures Faithful(lim, x)
  {
  }

  lemma IngestFaithful(lim: Limits, w: World, step: Step)
    requires lim.maxSeen > 0 && Faithful(lim, w) && step.IngestStep?
    ensures Faithful(lim, Next(lim, w, step))
  {
    var o, r, e := Answer(lim, w, step), Next(lim, w, step), step.event;
    NextStore(lim, w, step);
    if Accepts(o) {
      var letters := if o.DeadLettered? then Filed(w.store.letters, e, step.now) else w.store.letters;
      SettledFaithful(lim, w, e, letters, r.applied);
      assert r == World(Settled(lim, w.store.(letters := letters), e), w.accepted + [e], r.applied);
    } else {
      FaithfulSame(lim, w, r);
    }
  }

  lemma RetryFaithful(lim: Limits, w: World, step: Step)
    requires Faithful(lim, w) && step.RetryStep? && Enabled(w, step)
    ensures Faithful(lim, Next(lim, w, step))
  {
    RetrySettles(w.store, w.store.letters, |w.store.letters|, step.limit, step.now, step.tries);
  }

  lemma {:induction false} RetrySettles(st: Store, items: seq<Letter>, n: nat, limit: nat, now: int, tries: seq<Try>)
    requires n <= |items| && n <= |tries|
    ensures var p := Retry(st, items, n, limit, now, tries); p.store.checkpoints == st.checkpoints && p.store.seen == st.seen
  {
    if n > 0 { RetrySettles(st, items, n - 1, limit, now, tries); }
  }

  lemma {:induction false} RunFaithful(lim: Limits, ws: seq<World>, steps: seq<Step>, n: nat)
    requires IsRun(lim, ws, steps) && lim.maxSeen > 0 && n <= |steps|
    ensures Faithful(lim, ws[n])
  {
    if n > 0 {
      RunFaithful(lim, ws, steps, n - 1);
      if steps[n - 1].IngestStep? {
        IngestFaithful(lim, ws[n - 1], steps[n - 1]);
      } else {
        RetryFaithful(lim, ws[n - 1], steps[n - 1]);
      }
    }
  }

  // ----- The answers -----

  /** The id is one of the last `maxSeen` distinct ids accepted. */
  ghost predicate Repeated(lim: Limits, w: World, e: Event) {
    AmongLast(IdsOf(w.accepted), e.id, lim.maxSeen)
  }

  predicate Behind(w: World, e: Event) {
    Reached(w.accepted, e.stream, e.position)
  }

  /** A new stream when as many as are allowed have been accepted. */
  predicate NoRoom(lim: Limits, w: World, e: Event) {
    e.stream !in StreamsOf(w.accepted) && |StreamsOf(w.accepted)| >= lim.maxStreams
  }

  /** No letter has the id, and there are as many letters as are allowed. */
  predicate NoLetterRoom(lim: Limits, w: World, e: Event) {
    |w.store.letters| + (if exists i | 0 <= i < |w.store.letters| :: w.store.letters[i].event.id == e.id then 0 else 1) > lim.maxLetters
  }

  lemma {:induction false} PositionFinds(letters: seq<Letter>, id: string)
    ensures Position(letters, id) < |letters| <==> exists i | 0 <= i < |letters| :: letters[i].event.id == id
  {
    if letters != [] {
      PositionFinds(letters[1..], id);
      if i :| 0 <= i < |letters| && letters[i].event.id == id {
        if i > 0 { assert letters[1..][i - 1].event.id == id; }
      }
    }
  }

  lemma StoreTells(lim: Limits, w: World, e: Event)
    requires lim.maxSeen > 0 && Faithful(lim, w)
    ensures e.id in w.store.seen <==> Repeated(lim, w, e)
    ensures Behind(w, e) <==> e.stream in w.store.checkpoints && e.position <= w.store.checkpoints[e.stream]
    ensures NoRoom(lim, w, e) <==> !StreamFits(lim, w.store, e)
  {
    TailIsLast(IdsOf(w.accepted), e.id, lim.maxSeen);
    assert e.stream in w.store.checkpoints.Keys <==> e.stream in StreamsOf(w.accepted);
    if e.stream !in w.store.checkpoints { NotReached(w.accepted, e.stream, e.position); }
    assert |w.store.checkpoints| == |w.store.checkpoints.Keys|;
  }

  lemma LetterRoom(lim: Limits, w: World, e: Event, now: int)
    ensures NoLetterRoom(lim, w, e) <==> |Filed(w.store.letters, e, now)| > lim.maxLetters
  {
    PositionFinds(w.store.letters, e.id);
  }

  function Answer(lim: Limits, w: World, step: Step): Outcome
    requires step.IngestStep?
  {
    Ingest(lim, w.store, step.event, step.effect, step.saved, step.now).1
  }

  /**
   What ingestion answers in any run, told from the events accepted so far: a duplicate is
   an event whose id is one of the last `maxSeen` distinct ones, else a replay is one at or
   behind an accepted position of its stream, else a new stream beyond the limit and an
   effect that refuses raise, as does whatever is not written, and else the effect decides.
   */
  lemma IngestAnswers(lim: Limits, ws: seq<World>, steps: seq<Step>, n: nat)
    requires IsRun(lim, ws, steps) && lim.maxSeen > 0 && n < |steps| && steps[n].IngestStep?
    ensures var (w, step) := (ws[n], steps[n]);
      var e := step.event;
      Answer(lim, w, step) ==
        if Repeated(lim, w, e) then Duplicate
        else if Behind(w, e) then Replayed
        else if NoRoom(lim, w, e) || step.effect == Refuses || !step.saved then Raised
        else if step.effect == Works then Processed
        else if NoLetterRoom(lim, w, e) then Raised
        else DeadLettered
  {
    RunFaithful(lim, ws, steps, n);
    StoreTells(lim, ws[n], steps[n].event);
    LetterRoom(lim, ws[n], steps[n].event, steps[n].now);
  }

  // ----- Letters -----

  /** A letter's delay doubles with its attempts, from a second to an hour. */
  lemma BackoffDoubles(now: int, attempts: nat)
    requires attempts > 0
    ensures Backoff(now, 1) == now + 1
    ensures var (d, e) := (Backoff(now, attempts) - now, Backoff(now, attempts + 1) - now);
      e == if 2 * d > 3600 then 3600 else 2 * d
  {
    PowerGrows(attempts - 1);
    assert Power2(11) == 2048;
    PowerMono(attempts - 1, 11);
    if attempts < 12 { PowerMono(attempts, 11); }
  }

  lemma PowerGrows(n: nat)
    ensures Power2(n + 1) == 2 * Power2(n) && Power2(n) >= 1
  {
    if n > 0 { PowerGrows(n - 1); }
  }

  lemma PowerMono(a: nat, b: nat)
    ensures a <= b ==> Power2(a) <= Power2(b)
    ensures b <= a ==> Power2(b) <= Power2(a)
    decreases a + b
  {
    if a < b {
      PowerMono(a, b - 1);
      PowerGrows(b - 1);
    } else if b < a {
      PowerMono(a - 1, b);
      PowerGrows(a - 1);
    }
  }

  /** A letter after one more failure. */
  predicate FailedAgain(x: Letter, y: Letter, now: int) {
    y == x.(attempts := x.attempts + 1, retryAfter := Backoff(now, x.attempts + 1), retryable := y.retryable)
  }

  /** What each answer changes. */
  lemma AnswerChanges(lim: Limits, w: World, step: Step)
    requires step.IngestStep?
    ensures var (o, r, e) := (Answer(lim, w, step), Next(lim, w, step), step.event);
      match o
      case Processed =>
        r.accepted == w.accepted + [e] && r.applied == w.applied + [e] && r.store.letters == w.store.letters
      case DeadLettered =>
        && r.accepted == w.accepted + [e] && r.applied == w.applied
        && (if exists i | 0 <= i < |w.store.letters| :: w.store.letters[i].event.id == e.id
            then OneFailedAgain(w.store.letters, r.store.letters, e, step.now)
            else r.store.letters == w.store.letters + [Letter(e, 1, step.now + 1, true)])
      case Raised =>
        && r.store == w.store && r.accepted == w.accepted
        && (r.applied == w.applied || (step.effect == Works && r.applied == w.applied + [e]))
      case _ => r == w
  {
    PositionFinds(w.store.letters, step.event.id);
    if Answer(lim, w, step).DeadLettered? && Position(w.store.letters, step.event.id) < |w.store.letters| {
      var i := Position(w.store.letters, step.event.id);
      var r := Next(lim, w, step).store.letters;
      assert FailedAt(w.store.letters, r, step.event, step.now, i);
    }
  }

  /** One letter with the id has failed again and may be retried; the others are as before. */
  ghost predicate OneFailedAgain(before: seq<Letter>, after: seq<Letter>, e: Event, now: int) {
    |after| == |before| && exists i :: FailedAt(before, after, e, now, i)
  }

  ghost predicate FailedAt(before: seq<Letter>, after: seq<Letter>, e: Event, now: int, i: int)
    requires |after| == |before|
  {
    && 0 <= i < |before| && before[i].event.id == e.id && FailedAgain(before[i], after[i], now) && after[i].retryable
    && forall j | 0 <= j < |before| && j != i :: after[j] == before[j]
  }

  // ----- A retry pass -----

  /** How many of the first `n` letters are due. */
  function DueCount(items: seq<Letter>, n: nat, now: int): nat
    requires n <= |items|
  {
    if n == 0 then 0 else DueCount(items, n - 1, now) + if items[n - 1].retryable && items[n - 1].retryAfter <= now then 1 else 0
  }

  /** Letter number `i` is due, and fewer than `limit` before it are. */
  predicate Tried(items: seq<Letter>, i: nat, limit: nat, now: int)
    requires i < |items|
  {
    items[i].retryable && items[i].retryAfter <= now && DueCount(items, i, now) < limit
  }

  /** The events of the tried letters among the first `n` whose retry works. */
  function Worked(items: seq<Letter>, n: nat, limit: nat, now: int, tries: seq<Try>): seq<Event>
    requires n <= |items| && n <= |tries|
  {
    if n == 0 then []
    else Worked(items, n - 1, limit, now, tries) +
         if Tried(items, n - 1, limit, now) && tries[n - 1].works then [items[n - 1].event] else []
  }

  /** The first `n` letters without those, and those that failed once more. */
  function Left(items: seq<Letter>, n: nat, limit: nat, now: int, tries: seq<Try>): seq<Letter>
    requires n <= |items| && n <= |tries|
  {
    if n == 0 then []
    else Left(items, n - 1, limit, now, tries) +
         if !Tried(items, n - 1, limit, now) then [items[n - 1]]
         else if tries[n - 1].works then []
         else [items[n - 1].(attempts := items[n - 1].attempts + 1, retryAfter := Backoff(now, items[n - 1].attempts + 1))]
  }

  ghost predicate Lacks(letters: seq<Letter>, id: string) {
    forall i | 0 <= i < |letters| :: letters[i].event.id != id
  }

  lemma {:induction false} WithoutLacking(letters: seq<Letter>, id: string)
    requires Lacks(letters, id)
    ensures Without(letters, id) == letters
  {
    if letters != [] {
      assert letters == letters[..|letters| - 1] + [letters[|letters| - 1]];
      WithoutLacking(letters[..|letters| - 1], id);
    }
  }

  lemma {:induction false} WithoutConcat(a: seq<Letter>, b: seq<Letter>, id: string)
    ensures Without(a + b, id) == Without(a, id) + Without(b, id)
  {
    if b == [] {
      assert a + b == a;
    } else {
      assert (a + b)[..|a + b| - 1] == a + b[..|b| - 1];
      WithoutConcat(a, b[..|b| - 1], id);
    }
  }

  lemma WithoutMiddle(a: seq<Letter>, l: Letter, b: seq<Letter>)
    requires Lacks(a, l.event.id) && Lacks(b, l.event.id)
    ensures Without(a + [l] + b, l.event.id) == a + b
  {
    WithoutConcat(a + [l], b, l.event.id);
    WithoutConcat(a, [l], l.event.id);
    WithoutLacking(a, l.event.id);
    WithoutLacking(b, l.event.id);
    assert Without([l], l.event.id) == [] by { assert [l][..0] == []; }
  }

  lemma {:induction false} PositionMiddle(a: seq<Letter>, l: Letter, b: seq<Letter>)
    requires Lacks(a, l.event.id)
    ensures Position(a + [l] + b, l.event.id) == |a|
  {
    var s := a + [l] + b;
    if a != [] {
      assert s[0] == a[0] && s[1..] == a[1..] + [l] + b;
      PositionMiddle(a[1..], l, b);
    }
  }

  lemma UpdatedMiddle(a: seq<Letter>, l: Letter, b: seq<Letter>, now: int)
    requires Lacks(a, l.event.id)
    ensures Updated(a + [l] + b, l.event.id, now) == a + [Again(l, now)] + b
  {
    PositionMiddle(a, l, b);
  }

  lemma {:induction false} LeftLacks(items: seq<Letter>, n: nat, limit: nat, now: int, tries: seq<Try>)
    requires UniqueLetters(items) && n < |items| && n <= |tries|
    ensures forall m | n <= m < |items| :: Lacks(Left(items, n, limit, now, tries), items[m].event.id)
  {
    if n > 0 { LeftLacks(items, n - 1, limit, now, tries); }
  }

  /** The pass after `n` letters, none of whose retries went unwritten. */
  ghost predicate PassIs(st: Store, n: nat, limit: nat, now: int, tries: seq<Try>, p: Pass)
    requires n <= |st.letters| && n <= |tries|
  {
    && p.store == st.(letters := Left(st.letters, n, limit, now, tries) + st.letters[n..])
    && p.applied == Worked(st.letters, n, limit, now, tries)
    && p.retried == (if DueCount(st.letters, n, now) < limit then DueCount(st.letters, n, now) else limit)
    && (p.stopped ==> p.retried >= limit)
  }

  /** One letter more, given what the passes leave of the letters. */
  lemma LettersNext(st: Store, n: nat, limit: nat, now: int, tries: seq<Try>)
    requires UniqueLetters(st.letters) && n < |st.letters| && n < |tries|
    ensures var (l, left) := (st.letters[n], Left(st.letters, n, limit, now, tries) + st.letters[n..]);
      Left(st.letters, n + 1, limit, now, tries) + st.letters[n + 1..] ==
        if !Tried(st.letters, n, limit, now) then left
        else if tries[n].works then Without(left, l.event.id)
        else Updated(left, l.event.id, now)
  {
    var a, l, b := Left(st.letters, n, limit, now, tries), st.letters[n], st.letters[n + 1..];
    FromLetter(st.letters, n, a);
    LeftLacks(st.letters, n, limit, now, tries);
    if Tried(st.letters, n, limit, now) {
      if tries[n].works {
        LaterLack(st.letters, n);
        WithoutMiddle(a, l, b);
        assert a + [] == a;
      } else {
        UpdatedMiddle(a, l, b, now);
      }
    }
  }

  lemma FromLetter(items: seq<Letter>, n: nat, a: seq<Letter>)
    requires n < |items|
    ensures a + items[n..] == a + [items[n]] + items[n + 1..]
  {
  }

  lemma LaterLack(items: seq<Letter>, n: nat)
    requires UniqueLetters(items) && n < |items|
    ensures Lacks(items[n + 1..], items[n].event.id)
  {
    var later := items[n + 1..];
    forall i | 0 <= i < |later| ensures later[i].event.id != items[n].event.id {
      assert later[i] == items[n + 1 + i];
    }
  }

  /** What the pass does with one letter. */
  lemma TriedOne(st: Store, n: nat, limit: nat, now: int, tries: seq<Try>, p: Pass)
    requires n < |st.letters| && n < |tries| && PassIs(st, n, limit, now, tries, p) && Tried(st.letters, n, limit, now) && tries[n].saved
    ensures var l := st.letters[n];
      RetryOne(p, l, limit, now, tries[n]) ==
        Pass(p.store.(letters := if tries[n].works then Without(p.store.letters, l.event.id) else Updated(p.store.letters, l.event.id, now)),
             p.applied + (if tries[n].works then [l.event] else []), p.retried + 1, false)
  {
  }

  lemma UntriedOne(st: Store, n: nat, limit: nat, now: int, tries: seq<Try>, p: Pass)
    requires n < |st.letters| && n < |tries| && PassIs(st, n, limit, now, tries, p) && !Tried(st.letters, n, limit, now)
    ensures var q := RetryOne(p, st.letters[n], limit, now, tries[n]);
      q == p.(stopped := q.stopped) && (q.stopped ==> p.retried >= limit)
  {
  }

  lemma PassNext(st: Store, n: nat, limit: nat, now: int, tries: seq<Try>, p: Pass)
    requires UniqueLetters(st.letters) && n < |st.letters| && n < |tries| && PassIs(st, n, limit, now, tries, p)
    requires Tried(st.letters, n, limit, now) ==> tries[n].saved
    ensures PassIs(st, n + 1, limit, now, tries, RetryOne(p, st.letters[n], limit, now, tries[n]))
  {
    LettersNext(st, n, limit, now, tries);
    if Tried(st.letters, n, limit, now) {
      TriedOne(st, n, limit, now, tries, p);
    } else {
      UntriedOne(st, n, limit, now, tries, p);
    }
  }

  lemma PassStart(st: Store, limit: nat, now: int, tries: seq<Try>)
    ensures PassIs(st, 0, limit, now, tries, Retry(st, st.letters, 0, limit, now, tries))
  {
    assert st.letters[0..] == st.letters;
  }

  lemma RetryNext(st: Store, n: nat, limit: nat, now: int, tries: seq<Try>)
    requires n < |st.letters| && n < |tries|
    ensures Retry(st, st.letters, n + 1, limit, now, tries) ==
      RetryOne(Retry(st, st.letters, n, limit, now, tries), st.letters[n], limit, now, tries[n])
  {
  }

  /**
   A retry pass tries the first `limit` letters that are due, in order.  Those that work
   are applied and gone, those that fail wait longer, and every other letter stays.
   */
  lemma {:induction false} RetryIs(st: Store, n: nat, limit: nat, now: int, tries: seq<Try>)
    requires UniqueLetters(st.letters) && n <= |st.letters| && n <= |tries|
    requires forall i | 0 <= i < n && Tried(st.letters, i, limit, now) :: tries[i].saved
    ensures PassIs(st, n, limit, now, tries, Retry(st, st.letters, n, limit, now, tries))
  {
    if n == 0 {
      PassStart(st, limit, now, tries);
    } else {
      RetryIs(st, n - 1, limit, now, tries);
      PassNext(st, n - 1, limit, now, tries, Retry(st, st.letters, n - 1, limit, now, tries));
      RetryNext(st, n - 1, limit, now, tries);
    }
  }

  /** A retry that is not written ends the pass; only the application of its event remains of it. */
  lemma {:induction false} RetryStops(st: Store, i: nat, n: nat, limit: nat, now: int, tries: seq<Try>)
    requires UniqueLetters(st.letters) && i < n <= |st.letters| && n <= |tries|
    requires forall j | 0 <= j < i && Tried(st.letters, j, limit, now) :: tries[j].saved
    requires Tried(st.letters, i, limit, now) && !tries[i].saved
    ensures var (p, q) := (Retry(st, st.letters, i, limit, now, tries), Retry(st, st.letters, n, limit, now, tries));
      q == Pass(p.store, p.applied + (if tries[i].works then [st.letters[i].event] else []), p.retried + 1, true)
    decreases n
  {
    if n > i + 1 {
      RetryStops(st, i, n - 1, limit, now, tries);
    } else {
      RetryIs(st, i, limit, now, tries);
    }
  }

  lemma {:induction false} RetryUnique(st: Store, items: seq<Letter>, n: nat, limit: nat, now: int, tries: seq<Try>)
    requires UniqueLetters(st.letters) && n <= |items| && n <= |tries|
    ensures UniqueLetters(Retry(st, items, n, limit, now, tries).store.letters)
  {
    if n > 0 {
      RetryUnique(st, items, n - 1, limit, now, tries);
      var p := Retry(st, items, n - 1, limit, now, tries);
      WithoutUnique(p.store.letters, items[n - 1].event.id);
      UpdatedSame(p.store.letters, items[n - 1].event.id, now);
    }
  }

  /** In every run no two letters have the same id, as the retry results ask. */
  lemma {:induction false} LettersUnique(lim: Limits, ws: seq<World>, steps: seq<Step>, n: nat)
    requires IsRun(lim, ws, steps) && n <= |steps|
    ensures UniqueLetters(ws[n].store.letters)
  {
    if n > 0 {
      var w, step := ws[n - 1], steps[n - 1];
      LettersUnique(lim, ws, steps, n - 1);
      if step.IngestStep? {
        NextStore(lim, w, step);
        FiledUnique(w.store.letters, step.event, step.now);
      } else {
        RetryUnique(w.store, w.store.letters, |w.store.letters|, step.limit, step.now, step.tries);
      }
    }
  }
}
