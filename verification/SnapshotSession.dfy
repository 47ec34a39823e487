/** The snapshot sender and receiver with their fields updated in place, and the bootstrap transfer loop. */
module SnapshotClasses {
  import opened ByteStrings
  import opened Snapshot

  class SnapshotSession {
    const offer: Offer
    const window: nat
    var next: nat
    var outstanding: set<int>

    function State(): Sender
      reads this
    {
      Sender(next, outstanding)
    }

    constructor (offer: Offer, window: nat)
      ensures this.offer == offer && this.window == window && State() == Sender(0, {})
    {
      this.offer, this.window := offer, window;
      next, outstanding := 0, {};
    }

    /** The next chunk, `None` after the last, or an error while the window is full. */
    method AskChunk() returns (out: Result<Option<Chunk>>)
      modifies this
      ensures (State(), out) == NextChunk(offer, window, old(State()))
      ensures |old(outstanding)| <= window ==> |outstanding| <= window
    {
      if |outstanding| >= window {
        return Err(Backpressure);
      }
      if next >= |offer.chunks| {
        return Ok(None);
      }
      var chunk := offer.chunks[next];
      next := next + 1;
      outstanding := outstanding + {chunk.index};
      return Ok(Some(chunk));
    }

    method Confirm(index: int) returns (out: Result<()>)
      modifies this
      ensures (State(), out) == Acknowledge(old(State()), index)
    {
      if index !in outstanding {
        return Err(UnknownAck);
      }
      outstanding := outstanding - {index};
      return Ok(());
    }
  }

  class SnapshotReceiver {
    const manifest: Manifest
    const limit: nat
    var chunks: map<int, Bytes>
    var received: nat

    function State(): Receiver
      reads this
    {
      Receiver(chunks, received)
    }

    constructor (manifest: Manifest, limit: nat)
      ensures this.manifest == manifest && this.limit == limit && State() == Receiver(map[], 0)
    {
      this.manifest, this.limit := manifest, limit;
      chunks, received := map[], 0;
    }

    method Accept(chunk: Chunk, digest: Bytes -> string) returns (out: Result<()>)
      modifies this
      ensures (State(), out) == Receive(manifest, digest, limit, old(State()), chunk)
    {
      if chunk.id != manifest.id {
        return Err(WrongSnapshot);
      }
      if chunk.index < 0 || chunk.index >= manifest.chunkCount {
        return Err(OutOfRange);
      }
      if chunk.index in chunks {
        return Err(Duplicate);
      }
      if digest(chunk.payload) != chunk.checksum {
        return Err(BadChecksum);
      }
      received := received + |chunk.payload|;
      if received > limit || received > manifest.totalBytes {
        return Err(TooLarge);
      }
      chunks := chunks[chunk.index := chunk.payload];
      return Ok(());
    }

    /** Join the chunks in index order. */
    method JoinChunks() returns (payload: Bytes)
      ensures payload == Assemble(chunks, manifest.chunkCount)
    {
      payload := [];
      var i := 0;
      while i < manifest.chunkCount
        invariant i <= manifest.chunkCount && payload == Assemble(chunks, i)
      {
        payload := payload + (if i in chunks then chunks[i] else []);
        i := i + 1;
      }
    }

    method Finish<R>(c: Codec<R>) returns (out: Result<seq<R>>)
      ensures out == Records(c, manifest, State())
    {
      if |chunks| != manifest.chunkCount {
        return Err(Incomplete);
      }
      var payload := JoinChunks();
      if |payload| != manifest.totalBytes {
        return Err(WrongCount);
      }
      if c.digest(payload) != manifest.checksum {
        return Err(BadChecksum);
      }
      var records := Decode(c, SplitLines(payload));
      if records.None? {
        return Err(BadRecord);
      }
      if |records.value| != manifest.entryCount {
        return Err(WrongCount);
      }
      return Ok(records.value);
    }
  }

  /** The indices from `first` up to `next`. */
  ghost predicate Range(seen: set<int>, first: nat, next: nat) {
    forall i :: i in seen <==> first <= i < next
  }

  lemma RangeGrows(seen: set<int>, first: nat, next: nat)
    requires Range(seen, first, next) && first <= next
    ensures Range(seen + {next}, first, next + 1) && next !in seen
  {
  }

  lemma PulledRecords<R(!new)>(c: Codec<R>, id: string, rs: seq<R>, size: nat, limit: nat, r: Receiver, first: nat, seen: set<int>)
    requires Sound(c) && size > 0 && MakeOffer(c, id, rs, size, limit).Ok?
    requires var parts := Chunks(Payload(c, rs), size);
      Holds(parts, r, seen) && first <= |parts| && Range(seen, first, |parts|)
    ensures Records(c, MakeOffer(c, id, rs, size, limit).value.manifest, r) == if first == 0 then Ok(rs) else Err(Incomplete)
  {
    var parts := Chunks(Payload(c, rs), size);
    RecordsExact(c, id, rs, size, limit, r, seen);
    CountsAll(seen, |parts|);
    if first > 0 {
      assert 0 !in seen && 0 in Below(|parts|);
    } else {
      assert seen == Below(|parts|);
    }
  }

  /** Ask, receive and acknowledge until the sender has no more or its window is full. */
  method PullChunks<R>(c: Codec<R>, ghost id: string, ghost rs: seq<R>, ghost size: nat, limit: nat,
                       session: SnapshotSession, receiver: SnapshotReceiver, ghost parts: seq<Bytes>)
    returns (ok: bool, ghost seen: set<int>)
    requires size > 0 && MakeOffer(c, id, rs, size, limit) == Ok(session.offer) && parts == Chunks(Payload(c, rs), size)
    requires session.next <= |parts|
    requires forall i | i in session.outstanding :: i < session.next
    requires receiver.manifest == session.offer.manifest && receiver.limit == limit && receiver.State() == Receiver(map[], 0)
    modifies session, receiver
    ensures ok == (|old(session.outstanding)| < session.window) && session.outstanding == old(session.outstanding)
    ensures ok ==> session.next == |parts| && Holds(parts, receiver.State(), seen) && Range(seen, old(session.next), |parts|)
  {
    seen := {};
    EmptyAssembly(|parts|);
    while true
      invariant old(session.next) <= session.next <= |parts| && session.outstanding == old(session.outstanding)
      invariant Holds(parts, receiver.State(), seen) && Range(seen, old(session.next), session.next)
      invariant session.next > old(session.next) ==> |session.outstanding| < session.window
      decreases |parts| - session.next
    {
      var next := session.AskChunk();
      if next.Err? {
        return false, seen;
      }
      if next.value.None? {
        return true, seen;
      }
      var chunk := next.value.value;
      RangeGrows(seen, old(session.next), chunk.index);
      ReceiveNew(c, id, rs, size, limit, receiver.State(), seen, chunk.index);
      var received := receiver.Accept(chunk, c.digest);
      seen := seen + {chunk.index};
      var confirmed := session.Confirm(chunk.index);
    }
  }

  /**
   The bootstrap transfer: it ends for every session, and returns the records sent
   exactly when the session is new and its window admits a chunk.
   */
  method Pull<R(!new)>(c: Codec<R>, ghost id: string, ghost rs: seq<R>, ghost size: nat, limit: nat, session: SnapshotSession)
    returns (out: Result<seq<R>>)
    requires Sound(c) && size > 0 && MakeOffer(c, id, rs, size, limit) == Ok(session.offer)
    requires session.next <= |session.offer.chunks|
    requires forall i | i in session.outstanding :: 0 <= i < session.next
    modifies session
    ensures out == if |old(session.outstanding)| >= session.window then Err(Backpressure)
                   else if old(session.next) == 0 then Ok(rs) else Err(Incomplete)
    ensures out.Ok? ==> Complete(session.offer, session.State())
  {
    var receiver := new SnapshotReceiver(session.offer.manifest, limit);
    var ok, seen := PullChunks(c, id, rs, size, limit, session, receiver, Chunks(Payload(c, rs), size));
    if !ok {
      return Err(Backpressure);
    }
    PulledRecords(c, id, rs, size, limit, receiver.State(), old(session.next), seen);
    out := receiver.Finish(c);
  }
}
