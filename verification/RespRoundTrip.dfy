/** Parsing undoes printing, exactly within the parsers' limits. */
module RespRoundTrip {
  import opened ByteStrings
  import opened Resp

  // ----- Integers -----

  predicate IsDigit(b: Byte) {
    Zero <= b <= Nine
  }

  lemma {:induction false} DigitsAreDigits(n: nat)
    ensures Digits(n) != [] && forall i | 0 <= i < |Digits(n)| :: IsDigit(Digits(n)[i])
  {
    if n >= 10 { DigitsAreDigits(n / 10); }
  }

  lemma {:induction false} ParseDigits(n: nat)
    ensures ParseNat(Digits(n)) == Some(n)
  {
    DigitsAreDigits(n);
    var s := Digits(n);
    if n >= 10 {
      DigitsAreDigits(n / 10);
      ParseDigits(n / 10);
      assert s[..|s| - 1] == Digits(n / 10);
      assert s[|s| - 2] == Digits(n / 10)[|s| - 2];
    }
  }

  lemma NothingToStrip(s: Bytes)
    requires s != [] && !IsSpace(s[0]) && !IsSpace(s[|s| - 1])
    ensures StripRight(StripLeft(s)) == s
  {
  }

  lemma ParseDecimal(n: int)
    ensures ParseInt(Decimal(n)) == Some(n) && LF !in Decimal(n)
  {
    var s := Decimal(n);
    var m := if n < 0 then -n else n;
    DigitsAreDigits(m);
    ParseDigits(m);
    assert IsDigit(Digits(m)[|Digits(m)| - 1]) && IsDigit(Digits(m)[0]);
    NothingToStrip(s);
    assert n < 0 ==> s[1..] == Digits(m);
  }

  /** The printed form is the shortest that parses to the number. */
  lemma {:induction false} ShortestDigits(s: Bytes)
    requires ParseNat(s).Some?
    ensures |Digits(ParseNat(s).value)| <= |s|
  {
    if |s| > 1 {
      var t := if s[|s| - 2] == Underscore then s[..|s| - 2] else s[..|s| - 1];
      ShortestDigits(t);
      var high := ParseNat(t).value;
      var d := (s[|s| - 1] - Zero) as nat;
      assert (10 * high + d) / 10 == high;
    }
  }

  lemma {:induction false} StripLeftShorter(s: Bytes)
    ensures |StripLeft(s)| <= |s|
  {
    if s != [] && IsSpace(s[0]) { StripLeftShorter(s[1..]); }
  }

  lemma {:induction false} StripRightShorter(s: Bytes)
    ensures |StripRight(s)| <= |s|
  {
    if s != [] && IsSpace(s[|s| - 1]) { StripRightShorter(s[..|s| - 1]); }
  }

  lemma ShortestDecimal(s: Bytes)
    requires ParseInt(s).Some?
    ensures |Decimal(ParseInt(s).value)| <= |s|
  {
    var t := StripRight(StripLeft(s));
    StripLeftShorter(s);
    StripRightShorter(StripLeft(s));
    if t[0] == Minus || t[0] == Plus {
      ShortestDigits(t[1..]);
    } else {
      ShortestDigits(t);
    }
  }

  function Pow10(k: nat): nat {
    if k == 0 then 1 else 10 * Pow10(k - 1)
  }

  lemma {:induction false} DigitsBound(n: nat, k: nat)
    requires k > 0 && n < Pow10(k)
    ensures |Digits(n)| <= k
  {
    if n >= 10 { DigitsBound(n / 10, k - 1); }
  }

  // ----- Lines -----

  /** A line without a line feed, ended by CR LF, short enough for the reader. */
  predicate LineFits(line: Bytes) {
    LF !in line && |line| + 2 <= MaxLine
  }

  /** Where the first line feed stands. */
  lemma {:induction false} FirstLFIs(s: Bytes, i: nat, n: nat)
    requires i <= n < |s| && s[n] == LF && forall j | i <= j < n :: s[j] != LF
    ensures FirstLF(s, i) == n
    decreases n - i
  {
    if i < n { FirstLFIs(s, i + 1, n); }
  }

  lemma {:induction false} BeforeLF(s: Bytes, i: nat)
    requires i <= |s|
    ensures forall j | i <= j < FirstLF(s, i) :: s[j] != LF
    decreases |s| - i
  {
    if i < |s| && s[i] != LF { BeforeLF(s, i + 1); }
  }

  lemma LineAt(line: Bytes, rest: Bytes)
    requires LineFits(line)
    ensures var s := line + Crlf + rest; var n := LineLength(s);
      n == |line| + 2 && CrlfAt(s, |line|) && s[..n - 2] == line && s[n..] == rest
  {
    var s := line + Crlf + rest;
    assert forall j | 0 <= j < |line| :: s[j] == line[j];
    FirstLFIs(s, 0, |line| + 1);
  }

  lemma ReadPrintedLine(line: Bytes, rest: Bytes, used: nat)
    requires LineFits(line) && used + |line| + 2 <= MaxResponse
    ensures ReadLine(line + Crlf + rest, used) == Ok(line, rest, used + |line| + 2)
  {
    LineAt(line, rest);
  }

  lemma LineRead(s: Bytes, used: nat)
    requires ReadLine(s, used).Ok?
    ensures var r := ReadLine(s, used);
      LineFits(r.value) && s == r.value + Crlf + r.rest && r.used == used + |r.value| + 2 <= MaxResponse
  {
    var n := LineLength(s);
    var line := s[..n - 2];
    assert s[n - 2..n] == Crlf;
    assert s == line + s[n - 2..n] + s[n..];
    BeforeLF(s, 0);
  }

  // ----- Responses -----

  /** The nesting, item, bulk and line limits of the parser, for a value read at `depth`. */
  predicate Fits(v: Value, depth: nat)
    decreases v
  {
    && depth <= MaxDepth
    && match v
       case Simple(text) => LineFits(text)
       case Nil => true
       case Bulk(data) => |data| <= MaxBulk
       case Int(n) => |Decimal(n)| + 2 <= MaxLine
       case Array(items) => |items| <= MaxItems && FitAll(items, depth + 1)
  }

  predicate FitAll(vs: seq<Value>, depth: nat)
    decreases vs
  {
    vs == [] || (Fits(vs[0], depth) && FitAll(vs[1..], depth))
  }

  lemma SmallDecimal(n: nat)
    requires n < 1000000000000
    ensures LineFits(Decimal(n))
  {
    ParseDecimal(n);
    assert Pow10(12) == 1000000000000;
    DigitsBound(n, 12);
  }

  lemma ReadHeader(marker: Byte, line: Bytes, rest: Bytes, depth: nat, used: nat)
    requires depth <= MaxDepth && LineFits(line) && used + 1 + |line| + 2 <= MaxResponse
    ensures Read([marker] + line + Crlf + rest, depth, used) == ReadBody(marker, line, rest, depth, used + 1 + |line| + 2)
  {
    var s := [marker] + line + Crlf + rest;
    assert s[1..] == line + Crlf + rest;
    ReadPrintedLine(line, rest, used + 1);
  }

  lemma ReadPrintedBulk(data: Bytes, rest: Bytes, used: nat)
    requires |data| <= MaxBulk && used + |data| + 2 <= MaxResponse
    ensures ReadBulk(Decimal(|data|), data + Crlf + rest, used) == Ok(Bulk(data), rest, used + |data| + 2)
  {
    ParseDecimal(|data|);
    var s := data + Crlf + rest;
    assert CrlfAt(s, |data|) && s[..|data|] == data && s[|data| + 2..] == rest;
  }

  lemma EncodedBulk(data: Bytes, rest: Bytes, depth: nat, used: nat)
    requires depth <= MaxDepth && |data| <= MaxBulk && used + |Bulky(data)| <= MaxResponse
    ensures Read(Bulky(data) + rest, depth, used) == Ok(Bulk(data), rest, used + |Bulky(data)|)
  {
    var line, after := Decimal(|data|), data + Crlf + rest;
    SmallDecimal(|data|);
    assert Bulky(data) + rest == [Dollar] + line + Crlf + after;
    ReadHeader(Dollar, line, after, depth, used);
    ReadPrintedBulk(data, rest, used + 1 + |line| + 2);
  }

  lemma EncodedNumber(n: int, rest: Bytes, depth: nat, used: nat)
    requires depth <= MaxDepth && |Decimal(n)| + 2 <= MaxLine && used + |Decimal(n)| + 3 <= MaxResponse
    ensures Read([Colon] + Decimal(n) + Crlf + rest, depth, used) == Ok(Int(n), rest, used + |Decimal(n)| + 3)
    ensures n == -1 ==> Read([Dollar] + Decimal(n) + Crlf + rest, depth, used) == Ok(Nil, rest, used + |Decimal(n)| + 3)
  {
    ParseDecimal(n);
    ReadHeader(Colon, Decimal(n), rest, depth, used);
    ReadHeader(Dollar, Decimal(n), rest, depth, used);
  }

  lemma ArrayHeader(line: Bytes, body: Bytes, depth: nat, used: nat)
    requires depth <= MaxDepth && LineFits(line) && used + |line| + 3 <= MaxResponse
    ensures Read([Star] + line + Crlf + body, depth, used) == ReadArray(line, body, depth, used + |line| + 3)
  {
    ReadHeader(Star, line, body, depth, used);
  }

  lemma ArrayBody(items: seq<Value>, line: Bytes, body: Bytes, rest: Bytes, depth: nat, used: nat, after: nat)
    requires depth <= MaxDepth && |items| <= MaxItems && line == Decimal(|items|)
    requires ReadItems(|items|, body, depth + 1, used) == Ok(items, rest, after)
    ensures ReadArray(line, body, depth, used) == Ok(Array(items), rest, after)
  {
    ParseDecimal(|items|);
  }

  lemma FirstThenOthers(vs: seq<Value>, s: Bytes, rest: Bytes, depth: nat, used: nat, mid: nat, after: nat, tail: Bytes)
    requires depth <= MaxDepth + 1 && vs != [] && Read(s, depth, used) == Ok(vs[0], tail, mid)
    requires ReadItems(|vs| - 1, tail, depth, mid) == Ok(vs[1..], rest, after)
    ensures ReadItems(|vs|, s, depth, used) == Ok(vs, rest, after)
  {
    assert vs == [vs[0]] + vs[1..];
  }

  lemma Concat3(a: Bytes, b: Bytes, c: Bytes)
    ensures (a + b) + c == a + (b + c)
  {
  }

  /** Reading an encoded value gives it back and leaves what follows, having counted exactly its bytes. */
  lemma {:induction false} ReadEncoded(v: Value, rest: Bytes, depth: nat, used: nat)
    requires Fits(v, depth) && used + |Encode(v)| <= MaxResponse
    ensures Read(Encode(v) + rest, depth, used) == Ok(v, rest, used + |Encode(v)|)
    decreases v, 0
  {
    match v
    case Simple(text) => ReadHeader(Plus, text, rest, depth, used);
    case Nil =>
      DigitsBound(1, 1);
      EncodedNumber(-1, rest, depth, used);
    case Bulk(data) => EncodedBulk(data, rest, depth, used);
    case Int(n) => EncodedNumber(n, rest, depth, used);
    case Array(items) =>
      ReadEncodedArray(items, rest, depth, used);
  }

  lemma {:induction false} ReadEncodedArray(items: seq<Value>, rest: Bytes, depth: nat, used: nat)
    requires Fits(Array(items), depth) && used + |Decimal(|items|)| + 3 + |EncodeAll(items)| <= MaxResponse
    ensures Read([Star] + Decimal(|items|) + Crlf + EncodeAll(items) + rest, depth, used)
         == Ok(Array(items), rest, used + |Decimal(|items|)| + 3 + |EncodeAll(items)|)
    decreases items, 2
  {
    var line, body := Decimal(|items|), EncodeAll(items) + rest;
    var mid, after := used + |line| + 3, used + |line| + 3 + |EncodeAll(items)|;
    Concat3([Star] + line + Crlf, EncodeAll(items), rest);
    ReadAllEncoded(items, rest, depth + 1, mid);
    ArrayRead(items, line, body, rest, depth, used, mid, after);
  }

  lemma ArrayRead(items: seq<Value>, line: Bytes, body: Bytes, rest: Bytes, depth: nat, used: nat, mid: nat, after: nat)
    requires depth <= MaxDepth && |items| <= MaxItems && line == Decimal(|items|) && mid == used + |line| + 3 <= MaxResponse
    requires ReadItems(|items|, body, depth + 1, mid) == Ok(items, rest, after)
    ensures Read([Star] + line + Crlf + body, depth, used) == Ok(Array(items), rest, after)
  {
    SmallDecimal(|items|);
    ArrayHeader(line, body, depth, used);
    ArrayBody(items, line, body, rest, depth, mid, after);
  }

  lemma {:induction false} ReadAllEncoded(vs: seq<Value>, rest: Bytes, depth: nat, used: nat)
    requires depth <= MaxDepth + 1 && FitAll(vs, depth) && used + |EncodeAll(vs)| <= MaxResponse
    ensures ReadItems(|vs|, EncodeAll(vs) + rest, depth, used) == Ok(vs, rest, used + |EncodeAll(vs)|)
    decreases vs, 1
  {
    if vs == [] {
      assert EncodeAll(vs) + rest == rest;
    } else {
      var first, tail := Encode(vs[0]), EncodeAll(vs[1..]) + rest;
      Concat3(first, EncodeAll(vs[1..]), rest);
      ReadEncoded(vs[0], tail, depth, used);
      ReadAllEncoded(vs[1..], rest, depth, used + |first|);
      FirstThenOthers(vs, EncodeAll(vs) + rest, rest, depth, used, used + |first|, used + |EncodeAll(vs)|, tail);
    }
  }

  // ----- Whatever is read lies within the limits -----

  /** The budget counts every byte taken from the stream. */
  ghost predicate Counted<T>(s: Bytes, used: nat, r: Reply<T>) {
    r.Ok? ==> |s| >= |r.rest| && r.used == used + |s| - |r.rest| && (used <= MaxResponse ==> r.used <= MaxResponse)
  }

  lemma {:induction false} ReadFits(s: Bytes, depth: nat, used: nat)
    requires Read(s, depth, used).Ok?
    ensures Fits(Read(s, depth, used).value, depth) && Counted(s, used, Read(s, depth, used))
    decreases MaxDepth + 1 - depth, 1, 0
  {
    LineRead(s[1..], used + 1);
    var line := ReadLine(s[1..], used + 1);
    BodyFits(s[0], line.value, line.rest, depth, line.used);
  }

  lemma {:induction false} BodyFits(marker: Byte, line: Bytes, s: Bytes, depth: nat, used: nat)
    requires depth <= MaxDepth && LineFits(line) && ReadBody(marker, line, s, depth, used).Ok?
    ensures Fits(ReadBody(marker, line, s, depth, used).value, depth) && Counted(s, used, ReadBody(marker, line, s, depth, used))
    decreases MaxDepth + 1 - depth, 0, 0
  {
    if marker == Colon {
      ShortestDecimal(line);
    } else if marker == Star && ReadArray(line, s, depth, used).value.Array? {
      ItemsFit(ParseInt(line).value, s, depth + 1, used);
    }
  }

  lemma {:induction false} ItemsFit(count: nat, s: Bytes, depth: nat, used: nat)
    requires depth <= MaxDepth + 1 && ReadItems(count, s, depth, used).Ok?
    ensures var r := ReadItems(count, s, depth, used);
      FitAll(r.value, depth) && |r.value| == count && Counted(s, used, r)
    decreases MaxDepth + 1 - depth, 2, count
  {
    if count > 0 {
      ReadFits(s, depth, used);
      var first := Read(s, depth, used);
      ItemsFit(count - 1, first.rest, depth, first.used);
      var others := ReadItems(count - 1, first.rest, depth, first.used);
      assert ([first.value] + others.value)[1..] == others.value;
    }
  }

  /**
   The client reads back the value the server encoded, leaving the following bytes,
   if and only if it lies within the nesting, array, bulk, line and total limits.
   */
  lemma ResponseRoundTrip(v: Value, rest: Bytes)
    ensures Read(Encode(v) + rest, 0, 0) == Ok(v, rest, |Encode(v)|) <==> Fits(v, 0) && |Encode(v)| <= MaxResponse
  {
    if Fits(v, 0) && |Encode(v)| <= MaxResponse {
      ReadEncoded(v, rest, 0, 0);
    } else if Read(Encode(v) + rest, 0, 0) == Ok(v, rest, |Encode(v)|) {
      ReadFits(Encode(v) + rest, 0, 0);
    }
  }

  // ----- Errors -----

  lemma {:induction false} FlattenClean(m: Bytes)
    ensures LF !in Flatten(m) && |Flatten(m)| == |m|
  {
    if m != [] { FlattenClean(m[1..]); }
  }

  /** A server error reaches the client as a command error with its text, if its line is short enough. */
  lemma ErrorRoundTrip(message: Bytes, rest: Bytes)
    ensures Read(EncodeError(message) + rest, 0, 0) == Failed(Command(ErrorText(message)))
       <==> |ErrorText(message)| + 2 <= MaxLine
  {
    var text := ErrorText(message);
    FlattenClean(message);
    var s := EncodeError(message) + rest;
    assert s == [Minus] + text + Crlf + rest && s[1..] == text + Crlf + rest;
    if |text| + 2 <= MaxLine {
      ReadHeader(Minus, text, rest, 0, 0);
    } else if ReadLine(s[1..], 1).Ok? {
      LineRead(s[1..], 1);
    }
  }

  // ----- Commands -----

  lemma TakePrintedLine(line: Bytes, rest: Bytes)
    requires LineFits(line)
    ensures TakeLine(line + Crlf + rest) == Piece(line, rest)
  {
    LineAt(line, rest);
  }

  lemma TakePrintedBulk(p: Bytes, tail: Bytes, total: nat, maxBody: nat)
    requires total + |p| <= maxBody
    ensures TakeBulk(Decimal(|p|), p + Crlf + tail, total, maxBody) == Piece(p, tail)
  {
    var s := p + Crlf + tail;
    ParseDecimal(|p|);
    assert CrlfAt(s, |p|) && s[..|p|] == p && s[|p| + 2..] == tail;
  }

  /** The length of `p` prints on one line. */
  predicate LengthFits(p: Bytes) {
    |Decimal(|p|)| + 2 <= MaxLine
  }

  lemma ReadPrintedArgument(p: Bytes, tail: Bytes, total: nat, maxBody: nat)
    requires total + |p| <= maxBody && LengthFits(p)
    ensures ReadArgument(Bulky(p) + tail, total, maxBody) == Piece(p, tail)
  {
    var line, after := Decimal(|p|), p + Crlf + tail;
    var s := Bulky(p) + tail;
    assert s == [Dollar] + line + Crlf + after && s[1..] == line + Crlf + after;
    ParseDecimal(|p|);
    TakePrintedLine(line, after);
    TakePrintedBulk(p, tail, total, maxBody);
  }

  predicate AllLengthsFit(parts: seq<Bytes>) {
    parts == [] || (LengthFits(parts[0]) && AllLengthsFit(parts[1..]))
  }

  /** What the server's reader accepts: 1 to 1024 arguments within the body limit. */
  predicate CommandFits(parts: seq<Bytes>, maxBody: nat) {
    1 <= |parts| <= MaxArguments && TotalLength(parts) <= maxBody && AllLengthsFit(parts)
  }

  /** `read` takes back a printed argument whenever the body limit allows it. */
  ghost predicate TakesBack(read: (Bytes, nat) -> Piece, maxBody: nat) {
    forall p: Bytes, tail: Bytes, total: nat | total + |p| <= maxBody && LengthFits(p) :: read(Bulky(p) + tail, total) == Piece(p, tail)
  }

  ghost predicate Bounded(read: (Bytes, nat) -> Piece, maxBody: nat) {
    forall s: Bytes, total: nat :: read(s, total).Piece? ==> total + |read(s, total).data| <= maxBody && LengthFits(read(s, total).data)
  }

  lemma TakenLength(s: Bytes, total: nat, maxBody: nat)
    requires ReadArgument(s, total, maxBody).Piece?
    ensures LengthFits(ReadArgument(s, total, maxBody).data)
  {
    var line := TakeLine(s[1..]);
    ShortestDecimal(line.data);
  }

  lemma ReaderIsBounded(maxBody: nat)
    ensures Bounded(ArgumentReader(maxBody), maxBody)
  {
    forall s: Bytes, total: nat | ReadArgument(s, total, maxBody).Piece?
      ensures LengthFits(ReadArgument(s, total, maxBody).data)
    {
      TakenLength(s, total, maxBody);
    }
  }

  lemma ReaderIsExact(maxBody: nat)
    ensures TakesBack(ArgumentReader(maxBody), maxBody)
  {
    forall p: Bytes, tail: Bytes, total: nat | total + |p| <= maxBody && LengthFits(p)
      ensures ArgumentReader(maxBody)(Bulky(p) + tail, total) == Piece(p, tail)
    {
      ReadPrintedArgument(p, tail, total, maxBody);
    }
  }

  lemma {:induction false} ReadPrintedParts(parts: seq<Bytes>, rest: Bytes, total: nat, maxBody: nat, read: (Bytes, nat) -> Piece)
    requires total + TotalLength(parts) <= maxBody && AllLengthsFit(parts) && TakesBack(read, maxBody)
    ensures ReadArguments(|parts|, PrintParts(parts) + rest, total, read) == Arguments(parts, rest)
  {
    if parts == [] {
      assert PrintParts(parts) + rest == rest;
    } else {
      var p, tail := parts[0], PrintParts(parts[1..]) + rest;
      Concat3(Bulky(p), PrintParts(parts[1..]), rest);
      ReadPrintedParts(parts[1..], rest, total + |p|, maxBody, read);
      assert parts == [p] + parts[1..];
    }
  }

  lemma {:induction false} ArgumentsFit(count: nat, s: Bytes, total: nat, maxBody: nat, read: (Bytes, nat) -> Piece)
    requires ReadArguments(count, s, total, read).Arguments? && total <= maxBody && Bounded(read, maxBody)
    ensures var parts := ReadArguments(count, s, total, read).parts;
      |parts| == count && total + TotalLength(parts) <= maxBody && AllLengthsFit(parts)
  {
    if count > 0 {
      var first := read(s, total);
      ArgumentsFit(count - 1, first.rest, total + |first.data|, maxBody, read);
      var others := ReadArguments(count - 1, first.rest, total + |first.data|, read);
      assert ([first.data] + others.parts)[1..] == others.parts;
    }
  }

  lemma PrintedCountRead(parts: seq<Bytes>, rest: Bytes, maxBody: nat)
    requires CommandFits(parts, maxBody)
    ensures ReadMarked(Star, Decimal(|parts|), PrintParts(parts) + rest, maxBody) == Arguments(parts, rest)
  {
    ParseDecimal(|parts|);
    ReaderIsExact(maxBody);
    ReadPrintedParts(parts, rest, 0, maxBody, ArgumentReader(maxBody));
  }

  lemma MarkedAfterLine(s: Bytes, line: Bytes, tail: Bytes, maxBody: nat)
    requires s != [] && TakeLine(s[1..]) == Piece(line, tail)
    ensures ReadRequest(s, maxBody) == ReadMarked(s[0], line, tail, maxBody)
  {
  }

  lemma PrintedCommandLine(parts: seq<Bytes>, rest: Bytes)
    requires |parts| <= MaxArguments
    ensures var s := PrintCommand(parts) + rest;
      s[0] == Star && TakeLine(s[1..]) == Piece(Decimal(|parts|), PrintParts(parts) + rest)
  {
    var s, line, tail := PrintCommand(parts) + rest, Decimal(|parts|), PrintParts(parts) + rest;
    AfterMarker(Star, line, PrintParts(parts), rest);
    SmallDecimal(|parts|);
    TakePrintedLine(line, tail);
  }

  lemma AfterMarker(marker: Byte, line: Bytes, body: Bytes, rest: Bytes)
    ensures var s := [marker] + line + Crlf + body + rest; s[0] == marker && s[1..] == line + Crlf + (body + rest)
  {
  }

  lemma ReadCommandFits(line: Bytes, s: Bytes, maxBody: nat)
    requires ReadMarked(Star, line, s, maxBody).Arguments?
    ensures CommandFits(ReadMarked(Star, line, s, maxBody).parts, maxBody)
  {
    ReaderIsBounded(maxBody);
    ArgumentsFit(ParseInt(line).value, s, 0, maxBody, ArgumentReader(maxBody));
  }

  /**
   The server reads back the arguments the client printed, leaving the following
   bytes, if and only if there are 1 to 1024 of them within the body limit.
   */
  lemma CommandRoundTrip(parts: seq<Bytes>, rest: Bytes, maxBody: nat)
    ensures ReadRequest(PrintCommand(parts) + rest, maxBody) == Arguments(parts, rest) <==> CommandFits(parts, maxBody)
  {
    var s := PrintCommand(parts) + rest;
    if CommandFits(parts, maxBody) {
      PrintedCountRead(parts, rest, maxBody);
      PrintedCommandLine(parts, rest);
      MarkedAfterLine(s, Decimal(|parts|), PrintParts(parts) + rest, maxBody);
    } else if ReadRequest(s, maxBody).Arguments? {
      assert s[0] == Star;
      ReadCommandFits(TakeLine(s[1..]).data, TakeLine(s[1..]).rest, maxBody);
    }
  }
}
