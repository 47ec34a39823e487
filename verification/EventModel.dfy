/** Event ingestion: per-stream checkpoints, bounded duplicate history, and a dead-letter list. */
module EventModel {

  /** `stream` is the length-framed pair of source and stream names. */
  datatype Event = Event(id: string, stream: string, position: nat, payload: string)

  datatype Letter = Letter(event: Event, attempts: nat, retryAfter: int, retryable: bool)

  datatype Store = Store(checkpoints: map<string, nat>, seen: seq<string>, letters: seq<Letter>)

  datatype Limits = Limits(maxSeen: nat, maxStreams: nat, maxLetters: nat)

  /** How applying an event ends: done, failed, or refused by a graph bound or backpressure. */
  datatype Effect = Works | Fails | Refuses

  datatype Outcome = Processed | DeadLettered | Duplicate | Replayed | Raised

  function Empty(): Store {
    Store(map[], [], [])
  }

  function Dropped(seen: seq<string>, id: string): seq<string> {
    if seen == [] then [] else Dropped(seen[..|seen| - 1], id) + (if seen[|seen| - 1] == id then [] else [seen[|seen| - 1]])
  }

  /** Move the id to the end of the history and keep only the newest ones. */
  function Remembered(lim: Limits, seen: seq<string>, id: string): seq<string> {
    var s := Dropped(seen, id) + [id];
    if |s| > lim.maxSeen then s[|s| - lim.maxSeen..] else s
  }

  /** The checkpoint and history once the event is settled. */
  function Settled(lim: Limits, st: Store, e: Event): Store {
    st.(checkpoints := st.checkpoints[e.stream := e.position], seen := Remembered(lim, st.seen, e.id))
  }

  predicate StreamFits(lim: Limits, st: Store, e: Event) {
    e.stream in st.checkpoints || |st.checkpoints| < lim.maxStreams
  }

  function Backoff(now: int, attempts: nat): int {
    now + (if attempts >= 13 then 3600 else Power2(attempts - 1))
  }

  function Power2(n: int): int {
    if n <= 0 then 1 else 2 * Power2(n - 1)
  }

  function Again(l: Letter, now: int): Letter {
    l.(attempts := l.attempts + 1, retryAfter := Backoff(now, l.attempts + 1))
  }

  function Position(letters: seq<Letter>, id: string): (i: nat)
    ensures i <= |letters| && (i < |letters| ==> letters[i].event.id == id)
  {
    if letters == [] then 0
    else if letters[0].event.id == id then 0
    else Position(letters[1..], id) + 1
  }

  /** A failed event: the letter with its id is updated, or a new one appended. */
  function Filed(letters: seq<Letter>, e: Event, now: int): seq<Letter> {
    var i := Position(letters, e.id);
    if i == |letters| then letters + [Letter(e, 1, now + 1, true)]
    else letters[i := Again(letters[i], now).(retryable := true)]
  }

  /** `saved` tells whether the new state passes the byte limits and is written. */
  function Ingest(lim: Limits, st: Store, e: Event, effect: Effect, saved: bool, now: int): (Store, Outcome) {
    if e.id in st.seen then (st, Duplicate)
    else if e.stream in st.checkpoints && e.position <= st.checkpoints[e.stream] then (st, Replayed)
    else if !StreamFits(lim, st, e) || effect.Refuses? then (st, Raised)
    else if effect.Fails? then
      var letters := Filed(st.letters, e, now);
      if |letters| > lim.maxLetters || !saved then (st, Raised)
      else (Settled(lim, st.(letters := letters), e), DeadLettered)
    else if !saved then (st, Raised)
    else (Settled(lim, st, e), Processed)
  }

  function Without(letters: seq<Letter>, id: string): seq<Letter> {
    if letters == [] then []
    else Without(letters[..|letters| - 1], id) +
         (if letters[|letters| - 1].event.id == id then [] else [letters[|letters| - 1]])
  }

  function Updated(letters: seq<Letter>, id: string, now: int): seq<Letter> {
    var i := Position(letters, id);
    if i == |letters| then letters else letters[i := Again(letters[i], now)]
  }

  /** One retry: whether applying works, and whether the new state is written. */
  datatype Try = Try(works: bool, saved: bool)

  /** How far a retry pass has come: what it applied, how many it tried, and whether it was cut short. */
  datatype Pass = Pass(store: Store, applied: seq<Event>, retried: nat, stopped: bool)

  predicate Due(l: Letter, now: int) {
    l.retryable && l.retryAfter <= now
  }

  function RetryOne(p: Pass, l: Letter, limit: nat, now: int, try: Try): Pass {
    if p.stopped || p.retried >= limit then p.(stopped := true)
    else if !Due(l, now) then p
    else
      var id := l.event.id;
      var letters := if try.works then Without(p.store.letters, id) else Updated(p.store.letters, id, now);
      Pass(if try.saved then p.store.(letters := letters) else p.store,
           if try.works then p.applied + [l.event] else p.applied,
           p.retried + 1,
           !try.saved)
  }

  /** The pass over the first `n` of the letters `items`, as they stood when it began. */
  function Retry(st: Store, items: seq<Letter>, n: nat, limit: nat, now: int, tries: seq<Try>): Pass
    requires n <= |items| && n <= |tries|
  {
    if n == 0 then Pass(st, [], 0, false)
    else RetryOne(Retry(st, items, n - 1, limit, now, tries), items[n - 1], limit, now, tries[n - 1])
  }
}
