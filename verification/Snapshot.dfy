/** Snapshot transfer: newline-framed records cut into chunks, sent under a window, rebuilt in any order. */
module Snapshot {
  import opened ByteStrings

  datatype Error = WrongSnapshot | OutOfRange | Duplicate | BadChecksum | TooLarge | Incomplete | WrongCount
                 | BadRecord | Backpressure | UnknownAck

  datatype Result<+T> = Ok(value: T) | Err(error: Error)

  /** The record encoding and the digest, both opaque. */
  datatype Codec<!R> = Codec(enc: R -> Bytes, dec: Bytes -> Option<R>, digest: Bytes -> string)

  ghost predicate NoBreaks(s: Bytes) {
    forall i | 0 <= i < |s| :: s[i] != LF && s[i] != CR
  }

  /** Every record encodes to one nonempty line, from which it is decoded. */
  ghost predicate Sound<R(!new)>(c: Codec<R>) {
    forall r: R :: LineOf(c, r)
  }

  ghost predicate LineOf<R>(c: Codec<R>, r: R) {
    c.enc(r) != [] && NoBreaks(c.enc(r)) && c.dec(c.enc(r)) == Some(r)
  }

  // ----- Lines -----

  /** Each record encoded and ended by a line feed. */
  function Payload<R>(c: Codec<R>, rs: seq<R>): Bytes {
    if rs == [] then [] else c.enc(rs[0]) + [LF] + Payload(c, rs[1..])
  }

  /** The first line break, or the end. */
  function LineEnd(s: Bytes): (n: nat)
    ensures n <= |s| && NoBreaks(s[..n]) && (n < |s| ==> s[n] == LF || s[n] == CR)
  {
    if s == [] || s[0] == LF || s[0] == CR then 0
    else
      var n := LineEnd(s[1..]);
      assert s[..n + 1] == [s[0]] + s[1..][..n];
      n + 1
  }

  /** `bytes.splitlines`: lines end at LF, CR or CR LF. */
  function SplitLines(s: Bytes): seq<Bytes>
    decreases |s|
  {
    if s == [] then []
    else
      var n := LineEnd(s);
      if n == |s| then [s]
      else if s[n] == CR && n + 1 < |s| && s[n + 1] == LF then [s[..n]] + SplitLines(s[n + 2..])
      else [s[..n]] + SplitLines(s[n + 1..])
  }

  /** Decode the nonempty lines. */
  function Decode<R>(c: Codec<R>, lines: seq<Bytes>): Option<seq<R>> {
    if lines == [] then Some([])
    else if lines[0] == [] then Decode(c, lines[1..])
    else
      var r, rest := c.dec(lines[0]), Decode(c, lines[1..]);
      if r.None? || rest.None? then None else Some([r.value] + rest.value)
  }

  lemma {:induction false} LineEndAt(s: Bytes, n: nat)
    requires n < |s| && NoBreaks(s[..n]) && s[n] == LF
    ensures LineEnd(s) == n
  {
    if n > 0 {
      assert s[1..][..n - 1] == s[..n][1..] && s[0] == s[..n][0];
      LineEndAt(s[1..], n - 1);
    }
  }

  lemma FirstLine(line: Bytes, rest: Bytes)
    requires line != [] && NoBreaks(line)
    ensures SplitLines(line + [LF] + rest) == [line] + SplitLines(rest)
  {
    var s := line + [LF] + rest;
    assert s[..|line|] == line && s[|line|] == LF && s[|line| + 1..] == rest;
    LineEndAt(s, |line|);
  }

  /** Splitting and decoding the payload gives the records back. */
  lemma {:induction false} DecodePayload<R(!new)>(c: Codec<R>, rs: seq<R>)
    requires Sound(c)
    ensures Decode(c, SplitLines(Payload(c, rs))) == Some(rs)
  {
    if rs != [] {
      assert LineOf(c, rs[0]);
      FirstLine(c.enc(rs[0]), Payload(c, rs[1..]));
      DecodePayload(c, rs[1..]);
      var lines := [c.enc(rs[0])] + SplitLines(Payload(c, rs[1..]));
      assert lines[1..] == SplitLines(Payload(c, rs[1..]));
      assert rs == [rs[0]] + rs[1..];
    }
  }

  // ----- Chunks -----

  function Chunks(payload: Bytes, size: nat): seq<Bytes>
    requires size > 0
    decreases |payload|
  {
    if payload == [] then []
    else if |payload| <= size then [payload]
    else [payload[..size]] + Chunks(payload[size..], size)
  }

  function Join(parts: seq<Bytes>): Bytes {
    if parts == [] then [] else Join(parts[..|parts| - 1]) + parts[|parts| - 1]
  }

  lemma {:induction false} JoinFirst(first: Bytes, parts: seq<Bytes>)
    ensures Join([first] + parts) == first + Join(parts)
  {
    var all := [first] + parts;
    if parts == [] {
      assert all[..0] == [];
    } else {
      assert all[..|all| - 1] == [first] + parts[..|parts| - 1];
      JoinFirst(first, parts[..|parts| - 1]);
    }
  }

  /** Cutting at multiples of the chunk size loses nothing. */
  lemma {:induction false} JoinChunks(payload: Bytes, size: nat)
    requires size > 0
    ensures Join(Chunks(payload, size)) == payload
    decreases |payload|
  {
    if 0 < |payload| <= size {
      assert [payload][..0] == [];
    } else if |payload| > size {
      JoinChunks(payload[size..], size);
      JoinFirst(payload[..size], Chunks(payload[size..], size));
    }
  }

  // ----- The sender -----

  datatype Chunk = Chunk(id: string, index: int, payload: Bytes, checksum: string)

  datatype Manifest = Manifest(id: string, chunkCount: nat, entryCount: nat, totalBytes: nat, checksum: string)

  datatype Offer = Offer(manifest: Manifest, chunks: seq<Chunk>)

  function MakeChunks(id: string, parts: seq<Bytes>, digest: Bytes -> string): (r: seq<Chunk>)
    ensures |r| == |parts|
    ensures forall i | 0 <= i < |r| :: r[i] == Chunk(id, i, parts[i], digest(parts[i]))
  {
    seq(|parts|, i requires 0 <= i < |parts| => Chunk(id, i, parts[i], digest(parts[i])))
  }

  /** `_snapshot_session_locked`; `id` is the digest naming the snapshot. */
  function MakeOffer<R>(c: Codec<R>, id: string, rs: seq<R>, size: nat, limit: nat): Result<Offer>
    requires size > 0
  {
    var payload := Payload(c, rs);
    if |payload| > limit then Err(TooLarge)
    else
      var chunks := MakeChunks(id, Chunks(payload, size), c.digest);
      Ok(Offer(Manifest(id, |chunks|, |rs|, |payload|, c.digest(payload)), chunks))
  }

  datatype Sender = Sender(next: nat, outstanding: set<int>)

  function NextChunk(o: Offer, window: nat, s: Sender): (Sender, Result<Option<Chunk>>) {
    if |s.outstanding| >= window then (s, Err(Backpressure))
    else if s.next >= |o.chunks| then (s, Ok(None))
    else (Sender(s.next + 1, s.outstanding + {o.chunks[s.next].index}), Ok(Some(o.chunks[s.next])))
  }

  function Acknowledge(s: Sender, index: int): (Sender, Result<()>) {
    if index !in s.outstanding then (s, Err(UnknownAck)) else (s.(outstanding := s.outstanding - {index}), Ok(()))
  }

  predicate Complete(o: Offer, s: Sender) {
    s.next == |o.chunks| && s.outstanding == {}
  }

  // ----- The receiver -----

  datatype Receiver = Receiver(got: map<int, Bytes>, bytes: nat)

  function Receive(m: Manifest, digest: Bytes -> string, limit: nat, r: Receiver, chunk: Chunk): (Receiver, Result<()>) {
    if chunk.id != m.id then (r, Err(WrongSnapshot))
    else if chunk.index < 0 || chunk.index >= m.chunkCount then (r, Err(OutOfRange))
    else if chunk.index in r.got then (r, Err(Duplicate))
    else if digest(chunk.payload) != chunk.checksum then (r, Err(BadChecksum))
    else
      var bytes := r.bytes + |chunk.payload|;
      if bytes > limit || bytes > m.totalBytes then (r.(bytes := bytes), Err(TooLarge))
      else (Receiver(r.got[chunk.index := chunk.payload], bytes), Ok(()))
  }

  /** The chunks below `n`, joined in index order. */
  function Assemble(got: map<int, Bytes>, n: nat): Bytes {
    if n == 0 then [] else Assemble(got, n - 1) + (if n - 1 in got then got[n - 1] else [])
  }

  function Records<R>(c: Codec<R>, m: Manifest, r: Receiver): Result<seq<R>> {
    if |r.got| != m.chunkCount then Err(Incomplete)
    else
      var payload := Assemble(r.got, m.chunkCount);
      if |payload| != m.totalBytes then Err(WrongCount)
      else if c.digest(payload) != m.checksum then Err(BadChecksum)
      else
        var records := Decode(c, SplitLines(payload));
        if records.None? then Err(BadRecord)
        else if |records.value| != m.entryCount then Err(WrongCount)
        else Ok(records.value)
  }

  // ----- What the receiver has collected -----

  /** The receiver holds exactly the chunks `seen`, unaltered, and has counted their bytes. */
  ghost predicate Holds(parts: seq<Bytes>, r: Receiver, seen: set<int>) {
    && (forall i | i in seen :: 0 <= i < |parts|)
    && r.got.Keys == seen
    && (forall i | i in r.got :: r.got[i] == parts[i])
    && r.bytes == |Assemble(r.got, |parts|)|
  }

  lemma {:induction false} AssembleAdds(got: map<int, Bytes>, k: nat, part: Bytes, n: nat)
    requires k !in got
    ensures |Assemble(got[k := part], n)| == |Assemble(got, n)| + (if k < n then |part| else 0)
  {
    if n > 0 { AssembleAdds(got, k, part, n - 1); }
  }

  /** A subset of the chunks is never longer than the payload. */
  lemma {:induction false} AssembleBound(parts: seq<Bytes>, got: map<int, Bytes>, n: nat)
    requires n <= |parts| && forall i | i in got :: 0 <= i < |parts| && got[i] == parts[i]
    ensures |Assemble(got, n)| <= |Join(parts[..n])|
  {
    if n > 0 {
      AssembleBound(parts, got, n - 1);
      assert parts[..n][..n - 1] == parts[..n - 1];
    }
  }

  lemma {:induction false} AssembleAll(parts: seq<Bytes>, got: map<int, Bytes>, n: nat)
    requires n <= |parts| && forall i | 0 <= i < n :: i in got && got[i] == parts[i]
    ensures Assemble(got, n) == Join(parts[..n])
  {
    if n > 0 {
      AssembleAll(parts, got, n - 1);
      assert parts[..n][..n - 1] == parts[..n - 1];
    }
  }

  lemma GotMembers(parts: seq<Bytes>, r: Receiver, seen: set<int>)
    requires Holds(parts, r, seen)
    ensures forall i | i in r.got :: 0 <= i < |parts| && r.got[i] == parts[i]
  {
    forall i | i in r.got ensures 0 <= i < |parts| && r.got[i] == parts[i] { assert i in seen; }
  }

  /** An offered chunk that is new is always accepted. */
  lemma ReceiveNew<R>(c: Codec<R>, id: string, rs: seq<R>, size: nat, limit: nat, r: Receiver, seen: set<int>, i: nat)
    requires size > 0 && MakeOffer(c, id, rs, size, limit).Ok?
    requires var parts := Chunks(Payload(c, rs), size); i < |parts| && i !in seen && Holds(parts, r, seen)
    ensures var o := MakeOffer(c, id, rs, size, limit).value;
      var (q, out) := Receive(o.manifest, c.digest, limit, r, o.chunks[i]);
      out.Ok? && Holds(Chunks(Payload(c, rs), size), q, seen + {i})
  {
    var payload := Payload(c, rs);
    var parts := Chunks(payload, size);
    GotMembers(parts, r, seen);
    var got := r.got[i := parts[i]];
    AssembleAdds(r.got, i, parts[i], |parts|);
    AssembleBound(parts, got, |parts|);
    assert parts[..|parts|] == parts;
    JoinChunks(payload, size);
  }

  /** The indices below `n`. */
  ghost function Below(n: nat): (s: set<int>)
    ensures |s| == n && forall i :: i in s <==> 0 <= i < n
  {
    if n == 0 then {} else Below(n - 1) + {n - 1}
  }

  lemma CountsAll(s: set<int>, n: nat)
    requires forall i | i in s :: 0 <= i < n
    ensures |s| == n <==> s == Below(n)
  {
    assert s <= Below(n);
    assert Below(n) == s + (Below(n) - s);
    assert |Below(n)| == |s| + |Below(n) - s|;
    if |s| == n {
      assert |Below(n) - s| == 0;
    }
  }

  /** The receiver returns the records sent once it has every chunk, and only then. */
  lemma RecordsExact<R(!new)>(c: Codec<R>, id: string, rs: seq<R>, size: nat, limit: nat, r: Receiver, seen: set<int>)
    requires Sound(c) && size > 0 && MakeOffer(c, id, rs, size, limit).Ok?
    requires Holds(Chunks(Payload(c, rs), size), r, seen)
    ensures var o := MakeOffer(c, id, rs, size, limit).value;
      Records(c, o.manifest, r) == if |seen| == |o.chunks| then Ok(rs) else Err(Incomplete)
  {
    var payload := Payload(c, rs);
    var parts := Chunks(payload, size);
    CountsAll(seen, |parts|);
    assert |r.got| == |r.got.Keys|;
    if |seen| == |parts| {
      AssembledPayload(payload, size, r, seen);
      DecodePayload(c, rs);
    }
  }

  lemma AssembledPayload(payload: Bytes, size: nat, r: Receiver, seen: set<int>)
    requires size > 0 && Holds(Chunks(payload, size), r, seen) && seen == Below(|Chunks(payload, size)|)
    ensures Assemble(r.got, |Chunks(payload, size)|) == payload
  {
    var parts := Chunks(payload, size);
    AssembleAll(parts, r.got, |parts|);
    assert parts[..|parts|] == parts;
    JoinChunks(payload, size);
  }

  // ----- Runs of a transfer -----

  /** Ask for a chunk, deliver a chunk already sent (again, or out of order), acknowledge one received. */
  datatype Step = Ask | Deliver(index: nat) | Ack(index: nat)

  datatype Transfer = Transfer(sender: Sender, receiver: Receiver)

  const Fresh := Transfer(Sender(0, {}), Receiver(map[], 0))

  predicate Enabled(t: Transfer, step: Step) {
    match step
    case Ask => true
    case Deliver(i) => i < t.sender.next
    case Ack(i) => i in t.receiver.got
  }

  function Take(o: Offer, digest: Bytes -> string, window: nat, limit: nat, t: Transfer, step: Step): Transfer {
    match step
    case Ask => t.(sender := NextChunk(o, window, t.sender).0)
    case Deliver(i) => if i < |o.chunks| then t.(receiver := Receive(o.manifest, digest, limit, t.receiver, o.chunks[i]).0) else t
    case Ack(i) => t.(sender := Acknowledge(t.sender, i).0)
  }

  ghost predicate IsRun(o: Offer, digest: Bytes -> string, window: nat, limit: nat, ts: seq<Transfer>, steps: seq<Step>) {
    && |ts| == |steps| + 1 && ts[0] == Fresh
    && forall i | 0 <= i < |steps| :: Enabled(ts[i], steps[i]) && ts[i + 1] == Take(o, digest, window, limit, ts[i], steps[i])
  }

  /** Outstanding stays within the window; a sent chunk is outstanding or was received. */
  ghost predicate Inv(parts: seq<Bytes>, window: nat, t: Transfer) {
    && |t.sender.outstanding| <= window
    && t.sender.next <= |parts|
    && (forall i | i in t.sender.outstanding :: 0 <= i < t.sender.next)
    && (forall i | 0 <= i < t.sender.next :: i in t.sender.outstanding || i in t.receiver.got)
    && Holds(parts, t.receiver, t.receiver.got.Keys)
    && (forall i | i in t.receiver.got :: 0 <= i < t.sender.next)
  }

  lemma StepKeeps<R>(c: Codec<R>, id: string, rs: seq<R>, size: nat, window: nat, limit: nat, t: Transfer, step: Step)
    requires size > 0 && MakeOffer(c, id, rs, size, limit).Ok?
    requires Inv(Chunks(Payload(c, rs), size), window, t) && Enabled(t, step)
    ensures Inv(Chunks(Payload(c, rs), size), window, Take(MakeOffer(c, id, rs, size, limit).value, c.digest, window, limit, t, step))
  {
    if step.Deliver? && step.index !in t.receiver.got {
      ReceiveNew(c, id, rs, size, limit, t.receiver, t.receiver.got.Keys, step.index);
      var o := MakeOffer(c, id, rs, size, limit).value;
      var q := Receive(o.manifest, c.digest, limit, t.receiver, o.chunks[step.index]).0;
      assert q.got.Keys == t.receiver.got.Keys + {step.index as int};
    }
  }

  /**
   Whatever the order of asks, deliveries and acknowledgements: never more than
   `window` chunks are outstanding, and a complete transfer yields the records sent.
   */
  lemma {:induction false} TransferExact<R(!new)>(c: Codec<R>, id: string, rs: seq<R>, size: nat, window: nat, limit: nat,
                                                   ts: seq<Transfer>, steps: seq<Step>)
    requires Sound(c) && size > 0 && MakeOffer(c, id, rs, size, limit).Ok?
    requires IsRun(MakeOffer(c, id, rs, size, limit).value, c.digest, window, limit, ts, steps)
    ensures var o := MakeOffer(c, id, rs, size, limit).value;
      var t := ts[|steps|];
      && |t.sender.outstanding| <= window
      && (Complete(o, t.sender) ==> Records(c, o.manifest, t.receiver) == Ok(rs))
  {
    RunKeeps(c, id, rs, size, window, limit, ts, steps, |steps|);
    var o, t := MakeOffer(c, id, rs, size, limit).value, ts[|steps|];
    var parts := Chunks(Payload(c, rs), size);
    RecordsExact(c, id, rs, size, limit, t.receiver, t.receiver.got.Keys);
    CountsAll(t.receiver.got.Keys, |parts|);
    if Complete(o, t.sender) {
      assert Below(|parts|) <= t.receiver.got.Keys;
    }
  }

  lemma {:induction false} RunKeeps<R>(c: Codec<R>, id: string, rs: seq<R>, size: nat, window: nat, limit: nat,
                                        ts: seq<Transfer>, steps: seq<Step>, n: nat)
    requires size > 0 && MakeOffer(c, id, rs, size, limit).Ok? && n <= |steps|
    requires IsRun(MakeOffer(c, id, rs, size, limit).value, c.digest, window, limit, ts, steps)
    ensures Inv(Chunks(Payload(c, rs), size), window, ts[n])
  {
    if n == 0 {
      AssembleBound(Chunks(Payload(c, rs), size), map[], |Chunks(Payload(c, rs), size)|);
      EmptyAssembly(|Chunks(Payload(c, rs), size)|);
    } else {
      RunKeeps(c, id, rs, size, window, limit, ts, steps, n - 1);
      StepKeeps(c, id, rs, size, window, limit, ts[n - 1], steps[n - 1]);
    }
  }

  lemma {:induction false} EmptyAssembly(n: nat)
    ensures Assemble(map[], n) == []
  {
    if n > 0 { EmptyAssembly(n - 1); }
  }

  // ----- When a snapshot is offered, and in which chunks -----

  /** The bytes of the records, each with its line feed. */
  function Encoded<R>(c: Codec<R>, rs: seq<R>): nat {
    if rs == [] then 0 else Encoded(c, rs[..|rs| - 1]) + |c.enc(rs[|rs| - 1])| + 1
  }

  lemma {:induction false} EncodedFirst<R>(c: Codec<R>, r: R, rs: seq<R>)
    ensures Encoded(c, [r] + rs) == |c.enc(r)| + 1 + Encoded(c, rs)
  {
    var all := [r] + rs;
    if rs == [] {
      assert all[..0] == [];
    } else {
      assert all[..|all| - 1] == [r] + rs[..|rs| - 1];
      EncodedFirst(c, r, rs[..|rs| - 1]);
    }
  }

  lemma {:induction false} PayloadLength<R>(c: Codec<R>, rs: seq<R>)
    ensures |Payload(c, rs)| == Encoded(c, rs)
  {
    if rs != [] {
      PayloadLength(c, rs[1..]);
      EncodedFirst(c, rs[0], rs[1..]);
      assert [rs[0]] + rs[1..] == rs;
    }
  }

  /** Chunk number `i` starts at `i * size`, and only the last one may be shorter than `size`. */
  lemma {:induction false} ChunkIs(payload: Bytes, size: nat, i: nat)
    requires size > 0
    ensures i < |Chunks(payload, size)| <==> i * size < |payload|
    ensures i < |Chunks(payload, size)| ==>
      Chunks(payload, size)[i] == payload[i * size..if (i + 1) * size <= |payload| then (i + 1) * size else |payload|]
    decreases |payload|
  {
    if |payload| > size {
      var rest := payload[size..];
      if i > 0 {
        ChunkIs(rest, size, i - 1);
        assert (i - 1) * size == i * size - size;
        if i * size < |payload| { SliceOfRest(payload, size, i); }
      }
    } else if i > 0 {
      assert i * size >= size;
    }
  }

  lemma SliceOfRest(payload: Bytes, size: nat, i: nat)
    requires i > 0 && size <= i * size < |payload|
    ensures var rest, from := payload[size..], (i - 1) * size;
      && from == i * size - size && i * size == (i - 1 + 1) * size
      && rest[from..if i * size <= |rest| then i * size else |rest|]
         == payload[i * size..if (i + 1) * size <= |payload| then (i + 1) * size else |payload|]
  {
    assert (i + 1) * size == i * size + size;
    assert (i - 1) * size == i * size - size;
  }

  /** A snapshot is offered exactly if its records fit the limit, cut at every multiple of the chunk size. */
  lemma OfferIff<R>(c: Codec<R>, id: string, rs: seq<R>, size: nat, limit: nat)
    requires size > 0
    ensures var o := MakeOffer(c, id, rs, size, limit);
      && (o.Ok? <==> Encoded(c, rs) <= limit) && (o.Err? ==> o.error == TooLarge)
      && (o.Ok? ==>
        && o.value.manifest == Manifest(id, |o.value.chunks|, |rs|, Encoded(c, rs), c.digest(Payload(c, rs)))
        && (forall i: nat :: i < |o.value.chunks| <==> i * size < Encoded(c, rs)))
  {
    PayloadLength(c, rs);
    if MakeOffer(c, id, rs, size, limit).Ok? {
      forall i: nat ensures i < |Chunks(Payload(c, rs), size)| <==> i * size < Encoded(c, rs) {
        ChunkIs(Payload(c, rs), size, i);
      }
    }
  }

  // ----- Chunks that are not what was offered -----

  /** The digest tells different bytes apart. */
  ghost predicate Injective(digest: Bytes -> string) {
    forall a, b :: digest(a) == digest(b) ==> a == b
  }

  /** Whatever chunks a receiver has taken, from whatever source, it returns the records sent or an error. */
  lemma NeverOtherRecords<R(!new)>(c: Codec<R>, id: string, rs: seq<R>, size: nat, limit: nat, r: Receiver)
    requires Sound(c) && Injective(c.digest) && size > 0 && MakeOffer(c, id, rs, size, limit).Ok?
    ensures var out := Records(c, MakeOffer(c, id, rs, size, limit).value.manifest, r); out.Ok? ==> out.value == rs
  {
    var m := MakeOffer(c, id, rs, size, limit).value.manifest;
    if Records(c, m, r).Ok? {
      assert c.digest(Assemble(r.got, m.chunkCount)) == c.digest(Payload(c, rs));
      DecodePayload(c, rs);
    }
  }

  /** A chunk with the offered checksum of its index is taken exactly if it is that chunk and new. */
  lemma TakenIsOffered<R>(c: Codec<R>, id: string, rs: seq<R>, size: nat, limit: nat, r: Receiver, seen: set<int>, chunk: Chunk)
    requires Injective(c.digest) && size > 0 && MakeOffer(c, id, rs, size, limit).Ok?
    requires Holds(Chunks(Payload(c, rs), size), r, seen)
    requires var o := MakeOffer(c, id, rs, size, limit).value;
      0 <= chunk.index < |o.chunks| ==> chunk.checksum == o.chunks[chunk.index].checksum
    ensures var o := MakeOffer(c, id, rs, size, limit).value;
      var (q, out) := Receive(o.manifest, c.digest, limit, r, chunk);
      && (out.Ok? <==> chunk in o.chunks && chunk.index !in seen)
      && (out.Err? ==> q == r)
  {
    var o := MakeOffer(c, id, rs, size, limit).value;
    if chunk in o.chunks {
      var i :| 0 <= i < |o.chunks| && o.chunks[i] == chunk;
      assert i == chunk.index;
      if i !in seen { ReceiveNew(c, id, rs, size, limit, r, seen, i); }
    } else if 0 <= chunk.index < |o.chunks| && chunk.id == id {
      assert chunk.payload != o.chunks[chunk.index].payload;
    }
  }

  /** Bytes that overrun the limits stay counted, so no chunk is ever taken again. */
  lemma OverrunIsFinal(m: Manifest, digest: Bytes -> string, limit: nat, r: Receiver, chunk: Chunk, next: Chunk)
    requires Receive(m, digest, limit, r, chunk).1 == Err(TooLarge)
    ensures Receive(m, digest, limit, Receive(m, digest, limit, r, chunk).0, next).1.Err?
  {
  }
}
