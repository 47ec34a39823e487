/** The checkpoint store and ingestor with their state updated in place. */
module EventIngestors {
  import opened EventModel

  class EventIngestor {
    const lim: Limits
    var checkpoints: map<string, nat>
    var seen: seq<string>
    var letters: seq<Letter>

    function State(): Store
      reads this
    {
      Store(checkpoints, seen, letters)
    }

    constructor (limits: Limits)
      ensures lim == limits && State() == Empty()
    {
      lim := limits;
      checkpoints, seen, letters := map[], [], [];
    }

    method Forget(id: string) returns (kept: seq<string>)
      ensures kept == Dropped(seen, id)
    {
      kept := [];
      var i := 0;
      while i < |seen|
        invariant i <= |seen| && kept == Dropped(seen[..i], id)
      {
        assert seen[..i + 1][..i] == seen[..i];
        if seen[i] != id {
          kept := kept + [seen[i]];
        }
        i := i + 1;
      }
      assert seen[..i] == seen;
    }

    method FindLetter(id: string) returns (i: nat)
      ensures i == Position(letters, id)
    {
      i := 0;
      assert letters[0..] == letters;
      while i < |letters| && letters[i].event.id != id
        invariant i <= |letters| && Position(letters, id) == i + Position(letters[i..], id)
      {
        assert letters[i..][1..] == letters[i + 1..];
        i := i + 1;
      }
    }

    method Settle(e: Event)
      modifies this`checkpoints, this`seen
      ensures State() == Settled(lim, old(State()), e)
    {
      checkpoints := checkpoints[e.stream := e.position];
      var kept := Forget(e.id);
      kept := kept + [e.id];
      seen := if |kept| > lim.maxSeen then kept[|kept| - lim.maxSeen..] else kept;
    }

    method IngestEvent(e: Event, effect: Effect, saved: bool, now: int) returns (out: Outcome)
      modifies this
      ensures (State(), out) == Ingest(lim, old(State()), e, effect, saved, now)
    {
      if e.id in seen {
        return Duplicate;
      }
      if e.stream in checkpoints && e.position <= checkpoints[e.stream] {
        return Replayed;
      }
      if (e.stream !in checkpoints && |checkpoints| >= lim.maxStreams) || effect.Refuses? {
        return Raised;
      }
      if effect.Fails? {
        out := FileLetter(e, saved, now);
        return;
      }
      if !saved {
        return Raised;
      }
      Settle(e);
      out := Processed;
    }

    /** All or nothing: the letter, the checkpoint and the history are written together. */
    method FileLetter(e: Event, saved: bool, now: int) returns (out: Outcome)
      modifies this
      ensures var filed := Filed(old(letters), e, now);
        (State(), out) == if |filed| > lim.maxLetters || !saved then (old(State()), Raised)
                          else (Settled(lim, old(State()).(letters := filed), e), DeadLettered)
    {
      var i := FindLetter(e.id);
      var filed := letters;
      if i == |letters| {
        filed := letters + [Letter(e, 1, now + 1, true)];
      } else {
        filed := letters[i := Again(letters[i], now).(retryable := true)];
      }
      if |filed| > lim.maxLetters || !saved {
        return Raised;
      }
      letters := filed;
      Settle(e);
      out := DeadLettered;
    }

    method RemoveLetters(id: string) returns (kept: seq<Letter>)
      ensures kept == Without(letters, id)
    {
      kept := [];
      var i := 0;
      while i < |letters|
        invariant i <= |letters| && kept == Without(letters[..i], id)
      {
        assert letters[..i + 1][..i] == letters[..i];
        if letters[i].event.id != id {
          kept := kept + [letters[i]];
        }
        i := i + 1;
      }
      assert letters[..i] == letters;
    }

    method Revised(id: string, works: bool, now: int) returns (next: seq<Letter>)
      ensures next == if works then Without(letters, id) else Updated(letters, id, now)
    {
      if works {
        next := RemoveLetters(id);
      } else {
        var i := FindLetter(id);
        next := if i == |letters| then letters else letters[i := Again(letters[i], now)];
      }
    }

    /** The retry loop over the letters as they stood when it began. */
    method RetryDeadLetters(limit: nat, now: int, tries: seq<Try>) returns (applied: seq<Event>, retried: nat)
      requires |tries| == |letters|
      modifies this`letters
      ensures var p := Retry(old(State()), old(letters), |old(letters)|, limit, now, tries);
        State() == p.store && applied == p.applied && retried == p.retried
    {
      var items, i, stopped := letters, 0, false;
      applied, retried := [], 0;
      while i < |items|
        invariant i <= |items|
        invariant Pass(State(), applied, retried, stopped) == Retry(old(State()), items, i, limit, now, tries)
      {
        if stopped || retried >= limit {
          stopped := true;
        } else if Due(items[i], now) {
          var next := Revised(items[i].event.id, tries[i].works, now);
          retried := retried + 1;
          if tries[i].works {
            applied := applied + [items[i].event];
          }
          if tries[i].saved {
            letters := next;
          } else {
            stopped := true;
          }
        }
        i := i + 1;
      }
    }
  }
}
