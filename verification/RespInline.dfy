/** Inline commands: words between white space, as a person types them. */
module RespInline {
  import opened ByteStrings
  import opened Resp
  import opened RespRoundTrip

  predicate Blank(s: Bytes) {
    forall i | 0 <= i < |s| :: IsSpace(s[i])
  }

  predicate IsWord(s: Bytes) {
    s != [] && forall i | 0 <= i < |s| :: !IsSpace(s[i])
  }

  /** The words with white space before, between and after them. */
  function Spread(blanks: seq<Bytes>, words: seq<Bytes>): Bytes
    requires |blanks| == |words| + 1
  {
    if words == [] then blanks[0] else blanks[0] + words[0] + Spread(blanks[1..], words[1..])
  }

  /** White space wherever there is some, and at least some between two words. */
  ghost predicate Spaced(blanks: seq<Bytes>, words: seq<Bytes>) {
    && |blanks| == |words| + 1
    && (forall i | 0 <= i < |blanks| :: Blank(blanks[i]))
    && (forall i | 0 <= i < |words| :: IsWord(words[i]))
    && (forall i | 0 < i < |words| :: blanks[i] != [])
  }

  lemma {:induction false} SkipBlank(blank: Bytes, s: Bytes)
    requires Blank(blank)
    ensures Words(blank + s, []) == Words(s, [])
  {
    if blank == [] {
      assert blank + s == s;
    } else {
      assert (blank + s)[1..] == blank[1..] + s;
      SkipBlank(blank[1..], s);
    }
  }

  lemma {:induction false} TakeWord(word: Bytes, s: Bytes, before: Bytes)
    requires forall i | 0 <= i < |word| :: !IsSpace(word[i])
    ensures Words(word + s, before) == Words(s, before + word)
  {
    if word == [] {
      assert word + s == s && before + word == before;
    } else {
      assert (word + s)[1..] == word[1..] + s;
      TakeWord(word[1..], s, before + [word[0]]);
      assert before + [word[0]] + word[1..] == before + word;
    }
  }

  lemma EndWord(s: Bytes, word: Bytes)
    requires word != [] && (s == [] || IsSpace(s[0]))
    ensures Words(s, word) == [word] + Words(s, [])
  {
  }

  lemma SpacedTail(blanks: seq<Bytes>, words: seq<Bytes>)
    requires Spaced(blanks, words) && words != []
    ensures Spaced(blanks[1..], words[1..])
    ensures var s := Spread(blanks[1..], words[1..]); s == [] || IsSpace(s[0])
  {
    assert Blank(blanks[1]);
    if |words| > 1 {
      assert blanks[1] != [];
      assert Spread(blanks[1..], words[1..])[0] == blanks[1][0];
    }
  }

  /** Splitting finds the words, whatever white space there is. */
  lemma {:induction false} SplitFindsWords(blanks: seq<Bytes>, words: seq<Bytes>)
    requires Spaced(blanks, words)
    ensures Words(Spread(blanks, words), []) == words
  {
    if words == [] {
      assert Blank(blanks[0]);
      assert blanks[0] + [] == blanks[0];
      SkipBlank(blanks[0], []);
    } else {
      var s := Spread(blanks[1..], words[1..]);
      assert Blank(blanks[0]) && IsWord(words[0]);
      SpacedTail(blanks, words);
      assert Spread(blanks, words) == blanks[0] + (words[0] + s);
      SkipBlank(blanks[0], words[0] + s);
      TakeWord(words[0], s, []);
      assert [] + words[0] == words[0];
      EndWord(s, words[0]);
      SplitFindsWords(blanks[1..], words[1..]);
    }
  }

  lemma Widen(b: Byte, blanks: seq<Bytes>, words: seq<Bytes>) returns (wide: seq<Bytes>)
    requires Spaced(blanks, words) && IsSpace(b)
    ensures Spaced(wide, words) && Spread(wide, words) == [b] + Spread(blanks, words) && wide[0] != []
  {
    wide := [[b] + blanks[0]] + blanks[1..];
    assert Blank(blanks[0]);
    assert wide[1..] == blanks[1..];
    forall i | 0 <= i < |wide| ensures Blank(wide[i]) {
      assert Blank(blanks[i]);
    }
  }

  lemma PutFirst(word: Bytes, blanks: seq<Bytes>, words: seq<Bytes>) returns (more: seq<Bytes>)
    requires Spaced(blanks, words) && IsWord(word) && blanks[0] != []
    ensures Spaced(more, [word] + words) && Spread(more, [word] + words) == word + Spread(blanks, words)
  {
    more := [[]] + blanks;
    var all := [word] + words;
    assert more[1..] == blanks && all[1..] == words;
    forall i | 0 <= i < |more| ensures Blank(more[i]) {
      if i > 0 { assert Blank(blanks[i - 1]); }
    }
    forall i | 0 <= i < |all| ensures IsWord(all[i]) {
      if i > 0 { assert IsWord(words[i - 1]); }
    }
    forall i | 0 < i < |all| ensures more[i] != [] {
      if i > 1 { assert blanks[i - 1] != []; }
    }
  }

  lemma OnlyWord(word: Bytes) returns (blanks: seq<Bytes>)
    requires IsWord(word)
    ensures Spaced(blanks, [word]) && Spread(blanks, [word]) == word
  {
    blanks := [[], []];
    assert Spread(blanks[1..], [word][1..]) == [];
  }

  lemma EmptyPrefix(s: Bytes)
    ensures [] + s == s
  {
  }

  lemma SkipFirst(s: Bytes)
    requires s != [] && IsSpace(s[0])
    ensures Words(s, []) == Words(s[1..], [])
  {
    EmptyPrefixes(Words(s[1..], []));
  }

  lemma EmptyPrefixes(words: seq<Bytes>)
    ensures [] + words == words
  {
  }

  lemma NoWord() returns (blanks: seq<Bytes>)
    ensures Spaced(blanks, []) && Spread(blanks, []) == []
  {
    blanks := [[]];
  }

  /** And every line is its words and white space around them. */
  lemma {:induction false} EveryLineIsSpread(s: Bytes) returns (blanks: seq<Bytes>)
    ensures Spaced(blanks, Words(s, [])) && Spread(blanks, Words(s, [])) == s
    decreases |s|, 1
  {
    if s == [] {
      blanks := NoWord();
    } else if IsSpace(s[0]) {
      var rest := EveryLineIsSpread(s[1..]);
      SkipFirst(s);
      blanks := Widen(s[0], rest, Words(s[1..], []));
      assert s == [s[0]] + s[1..];
    } else {
      blanks := LineFromWord(s, []);
      EmptyPrefix(s);
    }
  }

  /** In the middle of a word. */
  lemma {:induction false} LineFromWord(s: Bytes, word: Bytes) returns (blanks: seq<Bytes>)
    requires (word != [] || (s != [] && !IsSpace(s[0]))) && forall i | 0 <= i < |word| :: !IsSpace(word[i])
    ensures Spaced(blanks, Words(s, word)) && Spread(blanks, Words(s, word)) == word + s
    decreases |s|, 0
  {
    if s == [] {
      blanks := OnlyWord(word);
      assert word + s == word;
    } else if IsSpace(s[0]) {
      var rest := EveryLineIsSpread(s[1..]);
      var wide := Widen(s[0], rest, Words(s[1..], []));
      blanks := PutFirst(word, wide, Words(s[1..], []));
      assert [s[0]] + s[1..] == s;
    } else {
      blanks := LineFromWord(s[1..], word + [s[0]]);
      assert word + [s[0]] + s[1..] == word + s;
    }
  }

  // ----- The request reader -----

  predicate OneLine(s: Bytes) {
    forall i | 0 <= i < |s| :: s[i] != LF
  }

  lemma LineTooLong(line: Bytes, rest: Bytes)
    requires OneLine(line) && |line| + 2 > MaxLine
    ensures TakeLine(line + Crlf + rest) == Broken
  {
    var s := line + Crlf + rest;
    assert forall j | 0 <= j < |line| :: s[j] == line[j];
    FirstLFIs(s, 0, |line| + 1);
  }

  lemma InlineLine(line: Bytes, rest: Bytes)
    requires OneLine(line)
    ensures TakeLine(line + Crlf + rest) == if |line| + 2 > MaxLine then Broken else Piece(line, rest)
  {
    if |line| + 2 > MaxLine {
      LineTooLong(line, rest);
    } else {
      assert LF !in line;
      TakePrintedLine(line, rest);
    }
  }

  lemma InlineFirst(line: Bytes, rest: Bytes)
    requires line != []
    ensures var s := line + Crlf + rest; s != [] && s[0] == line[0] && s[1..] == line[1..] + Crlf + rest
  {
  }

  lemma NoLine(s: Bytes, maxBody: nat)
    requires s != [] && TakeLine(s[1..]) == Broken
    ensures ReadRequest(s, maxBody) == Malformed
  {
  }

  lemma InlineIs(line: Bytes, rest: Bytes, maxBody: nat)
    requires line != [] && OneLine(line) && line[0] != Star
    ensures ReadRequest(line + Crlf + rest, maxBody) ==
      if |line| + 1 > MaxLine || Words(line, []) == [] then Malformed else Arguments(Words(line, []), rest)
  {
    InlineFirst(line, rest);
    InlineLine(line[1..], rest);
    if |line| + 1 > MaxLine {
      NoLine(line + Crlf + rest, maxBody);
    } else {
      MarkedAfterLine(line + Crlf + rest, line[1..], rest, maxBody);
      InlineMarked(line, rest, maxBody);
    }
  }

  lemma InlineMarked(line: Bytes, rest: Bytes, maxBody: nat)
    requires line != [] && line[0] != Star
    ensures ReadMarked(line[0], line[1..], rest, maxBody) ==
      if Words(line, []) == [] then Malformed else Arguments(Words(line, []), rest)
  {
    assert [line[0]] + line[1..] == line;
  }

  /**
   An inline command: the server reads exactly the words, however they are spaced, unless
   the line is too long or blank.
   */
  lemma InlineRoundTrip(blanks: seq<Bytes>, words: seq<Bytes>, rest: Bytes, maxBody: nat)
    requires Spaced(blanks, words)
    requires var line := Spread(blanks, words); line != [] && OneLine(line) && line[0] != Star
    ensures ReadRequest(Spread(blanks, words) + Crlf + rest, maxBody) ==
      if |Spread(blanks, words)| + 1 > MaxLine || words == [] then Malformed else Arguments(words, rest)
  {
    SplitFindsWords(blanks, words);
    InlineIs(Spread(blanks, words), rest, maxBody);
  }
}
