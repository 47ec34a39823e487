/** The RESP2 wire format: the server's printer and request reader, the client's printer and response parser. */
module Resp {
  import opened ByteStrings

  const MaxResponse := 16 * 1024 * 1024
  const MaxBulk := 16 * 1024 * 1024
  const MaxItems := 100000
  const MaxDepth := 128
  const MaxLine := 65536
  const MaxArguments := 1024

  const Plus: Byte := 43
  const Minus: Byte := 45
  const Zero: Byte := 48
  const Nine: Byte := 57
  const Colon: Byte := 58
  const Dollar: Byte := 36
  const Star: Byte := 42
  const Underscore: Byte := 95
  const Space: Byte := 32

  const Crlf: Bytes := [CR, LF]

  /** What the server answers and the client returns: `Simple` is text, `Bulk` raw bytes. */
  datatype Value = Simple(text: Bytes) | Nil | Bulk(data: Bytes) | Int(n: int) | Array(items: seq<Value>)

  datatype Error = Closed | Protocol | Command(message: Bytes)

  /** A value read, what is left of the stream, and the bytes used so far. */
  datatype Reply<+T> = Ok(value: T, rest: Bytes, used: nat) | Failed(error: Error)

  // ----- Integers -----

  function Digits(n: nat): Bytes {
    if n < 10 then [Zero + n as Byte] else Digits(n / 10) + [Zero + (n % 10) as Byte]
  }

  function Decimal(n: int): Bytes {
    if n < 0 then [Minus] + Digits(-n) else Digits(n)
  }

  predicate IsSpace(b: Byte) {
    b == Space || 9 <= b <= 13
  }

  function StripLeft(s: Bytes): Bytes {
    if s != [] && IsSpace(s[0]) then StripLeft(s[1..]) else s
  }

  function StripRight(s: Bytes): Bytes {
    if s != [] && IsSpace(s[|s| - 1]) then StripRight(s[..|s| - 1]) else s
  }

  /** Decimal digits, with single underscores allowed between them. */
  function ParseNat(s: Bytes): Option<nat> {
    if s == [] || s[|s| - 1] < Zero || s[|s| - 1] > Nine then None
    else
      var d := (s[|s| - 1] - Zero) as nat;
      if |s| == 1 then Some(d)
      else
        var high := ParseNat(if s[|s| - 2] == Underscore then s[..|s| - 2] else s[..|s| - 1]);
        if high.None? then None else Some(10 * high.value + d)
  }

  /** `int(line)`: surrounding white space, a sign, digits. */
  function ParseInt(line: Bytes): Option<int> {
    var s := StripRight(StripLeft(line));
    if s == [] then None
    else if s[0] == Minus then
      var n: Option<int> := ParseNat(s[1..]);
      if n.None? then None else Some(-n.value)
    else ParseNat(if s[0] == Plus then s[1..] else s)
  }

  // ----- The server's printer -----

  function Bulky(data: Bytes): Bytes {
    [Dollar] + Decimal(|data|) + Crlf + data + Crlf
  }

  function Encode(v: Value): Bytes
    decreases v
  {
    match v
    case Simple(text) => [Plus] + text + Crlf
    case Nil => [Dollar] + Decimal(-1) + Crlf
    case Bulk(data) => Bulky(data)
    case Int(n) => [Colon] + Decimal(n) + Crlf
    case Array(items) => [Star] + Decimal(|items|) + Crlf + EncodeAll(items)
  }

  function EncodeAll(vs: seq<Value>): Bytes
    decreases vs
  {
    if vs == [] then [] else Encode(vs[0]) + EncodeAll(vs[1..])
  }

  function Flatten(message: Bytes): Bytes {
    if message == [] then [] else [if message[0] == CR || message[0] == LF then Space else message[0]] + Flatten(message[1..])
  }

  /** "NOAUTH ", "WRONGPASS " and "ERR ". */
  const NoAuth: Bytes := [78, 79, 65, 85, 84, 72, 32]
  const WrongPass: Bytes := [87, 82, 79, 78, 71, 80, 65, 83, 83, 32]
  const Err: Bytes := [69, 82, 82, 32]

  function ErrorText(message: Bytes): Bytes {
    var safe := Flatten(message);
    if NoAuth <= safe || WrongPass <= safe then safe else Err + safe
  }

  function EncodeError(message: Bytes): Bytes {
    [Minus] + ErrorText(message) + Crlf
  }

  // ----- The client's parser -----

  /** The first line feed at or after `i`, or the end. */
  function FirstLF(s: Bytes, i: nat): (n: nat)
    requires i <= |s|
    ensures i <= n <= |s|
    decreases |s| - i
  {
    if i == |s| || s[i] == LF then i else FirstLF(s, i + 1)
  }

  /** How many bytes `readline(65537)` returns. */
  function LineLength(s: Bytes): (n: nat)
    ensures n <= |s|
  {
    var i := FirstLF(s, 0);
    var n := if i < |s| then i + 1 else |s|;
    if n > MaxLine + 1 then MaxLine + 1 else n
  }

  /** CR LF stands at position `i`. */
  predicate CrlfAt(s: Bytes, i: int) {
    0 <= i && i + 2 <= |s| && s[i] == CR && s[i + 1] == LF
  }

  function ReadLine(s: Bytes, used: nat): Reply<Bytes> {
    var n := LineLength(s);
    if used + n > MaxResponse || n > MaxLine || !CrlfAt(s, n - 2) then Failed(Protocol)
    else Ok(s[..n - 2], s[n..], used + n)
  }

  function ReadBulk(line: Bytes, s: Bytes, used: nat): Reply<Value> {
    var n := ParseInt(line);
    if n.None? then Failed(Protocol)
    else if n.value == -1 then Ok(Nil, s, used)
    else if n.value < 0 || n.value > MaxBulk || used + n.value + 2 > MaxResponse then Failed(Protocol)
    else if !CrlfAt(s, n.value) then Failed(Protocol)
    else Ok(Bulk(s[..n.value]), s[n.value + 2..], used + n.value + 2)
  }

  /** `_read_response` on the stream `s` at nesting `depth`, `used` bytes into the budget. */
  function Read(s: Bytes, depth: nat, used: nat): Reply<Value>
    decreases MaxDepth + 1 - depth, 1, 0
  {
    if depth > MaxDepth then Failed(Protocol)
    else if s == [] then Failed(Closed)
    else if used + 1 > MaxResponse then Failed(Protocol)
    else
      var line := ReadLine(s[1..], used + 1);
      if line.Failed? then Failed(line.error) else ReadBody(s[0], line.value, line.rest, depth, line.used)
  }

  function ReadBody(marker: Byte, line: Bytes, s: Bytes, depth: nat, used: nat): Reply<Value>
    requires depth <= MaxDepth
    decreases MaxDepth + 1 - depth, 0, 0
  {
    if marker == Plus then Ok(Simple(line), s, used)
    else if marker == Minus then Failed(Command(line))
    else if marker == Colon then
      var n := ParseInt(line);
      if n.None? then Failed(Protocol) else Ok(Int(n.value), s, used)
    else if marker == Dollar then ReadBulk(line, s, used)
    else if marker == Star then ReadArray(line, s, depth, used)
    else Failed(Protocol)
  }

  function ReadArray(line: Bytes, s: Bytes, depth: nat, used: nat): Reply<Value>
    requires depth <= MaxDepth
    decreases MaxDepth - depth, 3, 0
  {
    var n := ParseInt(line);
    if n.None? then Failed(Protocol)
    else if n.value == -1 then Ok(Nil, s, used)
    else if n.value < 0 || n.value > MaxItems then Failed(Protocol)
    else
      var items := ReadItems(n.value, s, depth + 1, used);
      if items.Failed? then Failed(items.error) else Ok(Array(items.value), items.rest, items.used)
  }

  function ReadItems(count: nat, s: Bytes, depth: nat, used: nat): Reply<seq<Value>>
    requires depth <= MaxDepth + 1
    decreases MaxDepth + 1 - depth, 2, count
  {
    if count == 0 then Ok([], s, used)
    else
      var first := Read(s, depth, used);
      if first.Failed? then Failed(first.error)
      else
        var others := ReadItems(count - 1, first.rest, depth, first.used);
        if others.Failed? then Failed(others.error) else Ok([first.value] + others.value, others.rest, others.used)
  }

  // ----- The client's printer and the server's request reader -----

  function PrintParts(parts: seq<Bytes>): Bytes {
    if parts == [] then [] else Bulky(parts[0]) + PrintParts(parts[1..])
  }

  function PrintCommand(parts: seq<Bytes>): Bytes {
    [Star] + Decimal(|parts|) + Crlf + PrintParts(parts)
  }

  /** The reader's answer: end of stream, an error, or the arguments and what is left. */
  datatype Request = Hangup | Malformed | Arguments(parts: seq<Bytes>, rest: Bytes)

  /** A piece taken off the stream, and what is left. */
  datatype Piece = Broken | Piece(data: Bytes, rest: Bytes)

  /** The server's `_readline`, which has no byte budget. */
  function TakeLine(s: Bytes): Piece {
    var n := LineLength(s);
    if n > MaxLine || !CrlfAt(s, n - 2) then Broken else Piece(s[..n - 2], s[n..])
  }

  /** `split()`: maximal runs without white space. */
  function Words(s: Bytes, word: Bytes): seq<Bytes> {
    if s == [] then (if word == [] then [] else [word])
    else if IsSpace(s[0]) then (if word == [] then [] else [word]) + Words(s[1..], [])
    else Words(s[1..], word + [s[0]])
  }

  function TotalLength(parts: seq<Bytes>): nat {
    if parts == [] then 0 else |parts[0]| + TotalLength(parts[1..])
  }

  function Prepend(p: Bytes, r: Request): Request {
    if r.Arguments? then Arguments([p] + r.parts, r.rest) else r
  }

  /** The bytes of a bulk argument of the announced length, and its CR LF. */
  function TakeBulk(line: Bytes, s: Bytes, total: nat, maxBody: nat): (r: Piece)
    ensures r.Piece? ==> total + |r.data| <= maxBody
  {
    var n := ParseInt(line);
    if n.None? || n.value < 0 || n.value > maxBody || total + n.value > maxBody || !CrlfAt(s, n.value) then Broken
    else Piece(s[..n.value], s[n.value + 2..])
  }

  function ReadArgument(s: Bytes, total: nat, maxBody: nat): (r: Piece)
    ensures r.Piece? ==> total + |r.data| <= maxBody
  {
    if s == [] || s[0] != Dollar then Broken
    else
      var line := TakeLine(s[1..]);
      if line.Broken? then Broken else TakeBulk(line.data, line.rest, total, maxBody)
  }

  function ArgumentReader(maxBody: nat): (Bytes, nat) -> Piece {
    (s: Bytes, total: nat) => ReadArgument(s, total, maxBody)
  }

  /** `count` arguments, each taken by `read` from what the one before left. */
  function ReadArguments(count: nat, s: Bytes, total: nat, read: (Bytes, nat) -> Piece): Request
    decreases count
  {
    if count == 0 then Arguments([], s)
    else
      var first := read(s, total);
      if first.Broken? then Malformed
      else Prepend(first.data, ReadArguments(count - 1, first.rest, total + |first.data|, read))
  }

  function ReadRequest(s: Bytes, maxBody: nat): Request {
    if s == [] then Hangup
    else
      var line := TakeLine(s[1..]);
      if line.Broken? then Malformed else ReadMarked(s[0], line.data, line.rest, maxBody)
  }

  /** An inline command, or an array of counted arguments. */
  function ReadMarked(marker: Byte, line: Bytes, s: Bytes, maxBody: nat): Request {
    if marker != Star then
      var words := Words([marker] + line, []);
      if words == [] then Malformed else Arguments(words, s)
    else
      var count := ParseInt(line);
      if count.None? || count.value <= 0 || count.value > MaxArguments then Malformed
      else ReadArguments(count.value, s, 0, ArgumentReader(maxBody))
  }
}
