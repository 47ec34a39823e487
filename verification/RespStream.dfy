/** The two readers as loops that consume a stream, proved against the wire format's functions. */
module RespStreams {
  import opened ByteStrings
  import opened Resp

  /** The client's side: the unread bytes of the connection and the response's byte budget. */
  class ResponseReader {
    var stream: Bytes
    var used: nat

    constructor (stream: Bytes)
      ensures this.stream == stream && used == 0
    {
      this.stream, used := stream, 0;
    }

    method TakeLine() returns (out: Reply<Bytes>)
      modifies this
      ensures out == ReadLine(old(stream), old(used))
      ensures out.Ok? ==> stream == out.rest && used == out.used
    {
      var n := LineLength(stream);
      if used + n > MaxResponse || n > MaxLine || !CrlfAt(stream, n - 2) {
        return Failed(Protocol);
      }
      var line := stream[..n - 2];
      stream, used := stream[n..], used + n;
      out := Ok(line, stream, used);
    }

    method TakeBulk(line: Bytes) returns (out: Reply<Value>)
      modifies this
      ensures out == ReadBulk(line, old(stream), old(used))
      ensures out.Ok? ==> stream == out.rest && used == out.used
    {
      var n := ParseInt(line);
      if n.None? {
        return Failed(Protocol);
      }
      if n.value == -1 {
        return Ok(Nil, stream, used);
      }
      if n.value < 0 || n.value > MaxBulk || used + n.value + 2 > MaxResponse || !CrlfAt(stream, n.value) {
        return Failed(Protocol);
      }
      var data := stream[..n.value];
      stream, used := stream[n.value + 2..], used + n.value + 2;
      out := Ok(Bulk(data), stream, used);
    }

    method ReadResponse(depth: nat) returns (out: Reply<Value>)
      modifies this
      ensures out == Read(old(stream), depth, old(used))
      ensures out.Ok? ==> stream == out.rest && used == out.used
      decreases MaxDepth + 1 - depth, 1
    {
      if depth > MaxDepth {
        return Failed(Protocol);
      }
      if stream == [] {
        return Failed(Closed);
      }
      if used + 1 > MaxResponse {
        return Failed(Protocol);
      }
      var marker := stream[0];
      stream, used := stream[1..], used + 1;
      var line := TakeLine();
      if line.Failed? {
        return Failed(line.error);
      }
      out := ReadRest(marker, line.value, depth);
    }

    method ReadRest(marker: Byte, line: Bytes, depth: nat) returns (out: Reply<Value>)
      requires depth <= MaxDepth
      modifies this
      ensures out == ReadBody(marker, line, old(stream), depth, old(used))
      ensures out.Ok? ==> stream == out.rest && used == out.used
      decreases MaxDepth + 1 - depth, 0
    {
      if marker == Plus {
        return Ok(Simple(line), stream, used);
      }
      if marker == Minus {
        return Failed(Command(line));
      }
      if marker == Colon {
        var n := ParseInt(line);
        return if n.None? then Failed(Protocol) else Ok(Int(n.value), stream, used);
      }
      if marker == Dollar {
        out := TakeBulk(line);
        return;
      }
      if marker == Star {
        out := ReadItemsOf(line, depth);
        return;
      }
      return Failed(Protocol);
    }

    ghost function Extend(values: seq<Value>, r: Reply<seq<Value>>): Reply<seq<Value>> {
      if r.Failed? then r else Ok(values + r.value, r.rest, r.used)
    }

    lemma ExtendNothing(r: Reply<seq<Value>>)
      ensures Extend([], r) == r
    {
      if r.Ok? { assert [] + r.value == r.value; }
    }

    lemma ReadNextItem(values: seq<Value>, count: nat, s: Bytes, depth: nat, used: nat)
      requires depth <= MaxDepth + 1
      ensures var first := Read(s, depth, used);
        Extend(values, ReadItems(count + 1, s, depth, used))
        == if first.Failed? then Failed(first.error)
           else Extend(values + [first.value], ReadItems(count, first.rest, depth, first.used))
    {
      var first := Read(s, depth, used);
      if first.Ok? {
        var others := ReadItems(count, first.rest, depth, first.used);
        if others.Ok? {
          assert values + ([first.value] + others.value) == values + [first.value] + others.value;
        }
      }
    }

    /** The array loop: exactly `count` nested responses. */
    method ReadItemsOf(line: Bytes, depth: nat) returns (out: Reply<Value>)
      requires depth <= MaxDepth
      modifies this
      ensures out == ReadArray(line, old(stream), depth, old(used))
      ensures out.Ok? ==> stream == out.rest && used == out.used
      decreases MaxDepth - depth, 3
    {
      var n := ParseInt(line);
      if n.None? {
        return Failed(Protocol);
      }
      if n.value == -1 {
        return Ok(Nil, stream, used);
      }
      if n.value < 0 || n.value > MaxItems {
        return Failed(Protocol);
      }
      var items := ReadMany(n.value, depth + 1);
      return if items.Failed? then Failed(items.error) else Ok(Array(items.value), stream, used);
    }

    method ReadMany(count: nat, depth: nat) returns (out: Reply<seq<Value>>)
      requires depth <= MaxDepth + 1
      modifies this
      ensures out == ReadItems(count, old(stream), depth, old(used))
      ensures out.Ok? ==> stream == out.rest && used == out.used
      decreases MaxDepth + 1 - depth, 2
    {
      ghost var target := ReadItems(count, stream, depth, used);
      ExtendNothing(target);
      var values: seq<Value>, i := [], 0;
      while i < count
        invariant i <= count && Extend(values, ReadItems(count - i, stream, depth, used)) == target
      {
        ReadNextItem(values, count - i - 1, stream, depth, used);
        var item := ReadResponse(depth);
        if item.Failed? {
          return Failed(item.error);
        }
        values := values + [item.value];
        i := i + 1;
      }
      assert values + [] == values;
      out := Ok(values, stream, used);
    }
  }

  /** The server's side: one request from the connection. */
  class RequestReader {
    const maxBody: nat
    var stream: Bytes

    constructor (stream: Bytes, maxBody: nat)
      ensures this.stream == stream && this.maxBody == maxBody
    {
      this.stream, this.maxBody := stream, maxBody;
    }

    method TakeTextLine() returns (out: Piece)
      modifies this
      ensures out == TakeLine(old(stream))
      ensures out.Piece? ==> stream == out.rest
    {
      var n := LineLength(stream);
      if n > MaxLine || !CrlfAt(stream, n - 2) {
        return Broken;
      }
      var line := stream[..n - 2];
      stream := stream[n..];
      out := Piece(line, stream);
    }

    ghost predicate ReaderFor(read: (Bytes, nat) -> Piece) {
      forall s: Bytes, total: nat {:trigger ReadArgument(s, total, maxBody)} :: read(s, total) == ReadArgument(s, total, maxBody)
    }

    method TakeArgument(total: nat, ghost read: (Bytes, nat) -> Piece) returns (out: Piece)
      requires ReaderFor(read)
      modifies this
      ensures out == read(old(stream), total)
      ensures out.Piece? ==> stream == out.rest
    {
      assert read(stream, total) == ReadArgument(stream, total, maxBody);
      if stream == [] || stream[0] != Dollar {
        return Broken;
      }
      stream := stream[1..];
      var line := TakeTextLine();
      if line.Broken? {
        return Broken;
      }
      out := TakeBytes(line.data, total);
    }

    method TakeBytes(line: Bytes, total: nat) returns (out: Piece)
      modifies this
      ensures out == TakeBulk(line, old(stream), total, maxBody)
      ensures out.Piece? ==> stream == out.rest
    {
      var n := ParseInt(line);
      if n.None? || n.value < 0 || n.value > maxBody || total + n.value > maxBody || !CrlfAt(stream, n.value) {
        return Broken;
      }
      var data := stream[..n.value];
      stream := stream[n.value + 2..];
      out := Piece(data, stream);
    }

    static ghost function Extend(parts: seq<Bytes>, r: Request): Request {
      if r.Arguments? then Arguments(parts + r.parts, r.rest) else r
    }

    static lemma ExtendNothing(r: Request)
      ensures Extend([], r) == r
    {
      if r.Arguments? { assert [] + r.parts == r.parts; }
    }

    static lemma ReadNext(parts: seq<Bytes>, count: nat, s: Bytes, total: nat, read: (Bytes, nat) -> Piece)
      ensures var first := read(s, total);
        Extend(parts, ReadArguments(count + 1, s, total, read))
        == if first.Broken? then Malformed
           else Extend(parts + [first.data], ReadArguments(count, first.rest, total + |first.data|, read))
    {
      var first := read(s, total);
      if first.Piece? {
        var others := ReadArguments(count, first.rest, total + |first.data|, read);
        if others.Arguments? {
          assert parts + ([first.data] + others.parts) == parts + [first.data] + others.parts;
        }
      }
    }

    /** The argument loop, accumulating the parts and their total length. */
    method TakeArguments(count: nat, ghost read: (Bytes, nat) -> Piece) returns (out: Request)
      requires ReaderFor(read)
      modifies this
      ensures out == ReadArguments(count, old(stream), 0, read)
      ensures out.Arguments? ==> stream == out.rest
    {
      ghost var target := ReadArguments(count, stream, 0, read);
      ExtendNothing(target);
      var parts: seq<Bytes>, total: nat, i := [], 0, 0;
      while i < count
        invariant i <= count && Extend(parts, ReadArguments(count - i, stream, total, read)) == target
      {
        ReadNext(parts, count - i - 1, stream, total, read);
        var part := TakeArgument(total, read);
        if part.Broken? {
          return Malformed;
        }
        parts, total, i := parts + [part.data], total + |part.data|, i + 1;
      }
      assert parts + [] == parts;
      out := Arguments(parts, stream);
    }

    method TakeRequest() returns (out: Request)
      modifies this
      ensures out == ReadRequest(old(stream), maxBody)
      ensures out.Arguments? ==> stream == out.rest
    {
      if stream == [] {
        return Hangup;
      }
      var marker := stream[0];
      stream := stream[1..];
      var line := TakeTextLine();
      if line.Broken? {
        return Malformed;
      }
      out := TakeMarked(marker, line.data);
    }

    method TakeMarked(marker: Byte, line: Bytes) returns (out: Request)
      modifies this
      ensures out == ReadMarked(marker, line, old(stream), maxBody)
      ensures out.Arguments? ==> stream == out.rest
    {
      if marker != Star {
        var words := Words([marker] + line, []);
        return if words == [] then Malformed else Arguments(words, stream);
      }
      var count := ParseInt(line);
      if count.None? || count.value <= 0 || count.value > MaxArguments {
        return Malformed;
      }
      out := TakeArguments(count.value, ArgumentReader(maxBody));
    }
  }
}
