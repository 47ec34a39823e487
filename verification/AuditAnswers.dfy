/**
 When the audit log accepts, refuses and prunes, and what reload accepts, told from the
 records and files alone.
 */
module AuditAnswers {
  import opened AuditModel
  import opened AuditChain
  import opened AuditReload
  import opened AuditRuns

  // ----- Pruning -----

  /** Some record of the log has that sequence number and that hash. */
  predicate Confirms(l: Log, through: nat, expected: Hash) {
    exists i | 0 <= i < |l.records| :: l.records[i].sequence == through && l.records[i].hash == expected
  }

  lemma ConfirmedIsFound(mac: Mac, lim: Limits, l: Log, through: nat, expected: Hash)
    requires Good(mac, lim, l)
    ensures var i := Find(l.records, through, 0);
      Confirms(l, through, expected) <==> i < |l.records| && l.records[i].hash == expected
  {
    if k :| 0 <= k < |l.records| && l.records[k].sequence == through && l.records[k].hash == expected {
      SequenceAt(mac, l.disk.anchor, l.records, k);
      FindInChain(mac, l.disk.anchor, l.records, k);
    }
  }

  lemma {:induction false} EligibleIff(segments: seq<nat>, n: nat, ranges: map<nat, Range>, through: nat, s: nat)
    requires n <= |segments|
    ensures s in Eligible(segments, n, ranges, through) <==> s in segments[..n] && s in ranges && ranges[s].last <= through
  {
    if n > 0 {
      EligibleIff(segments, n - 1, ranges, through, s);
      assert segments[..n] == segments[..n - 1] + [segments[n - 1]];
    }
  }

  /** The last sequence number in the file of segment `n`. */
  function EndOf(l: Log, n: nat): nat
    requires n in l.disk.files && l.disk.files[n] != []
  {
    l.disk.files[n][|l.disk.files[n]| - 1].sequence
  }

  lemma PlanOkIff(l: Log, through: nat, expected: Hash)
    ensures var (i, gone) := (Find(l.records, through, 0), Eligible(l.segments, |l.segments|, l.ranges, through));
      PlanPrune(l, through, expected).Ok? <==>
        && i < |l.records| && l.records[i].hash == expected
        && (gone != [] ==> Find(l.records, LastOf(l.ranges, gone, |gone|), 0) < |l.records|)
  {
  }

  lemma LastIsFound(mac: Mac, lim: Limits, l: Log, through: nat, gone: seq<nat>)
    requires Good(mac, lim, l) && gone != [] && gone == Eligible(l.segments, |l.segments|, l.ranges, through)
    ensures Find(l.records, LastOf(l.ranges, gone, |gone|), 0) < |l.records|
  {
    GoneIsFront(mac, lim, l, through);
    var k := |gone|;
    assert gone == l.segments[..k];
    FrontPlan(mac, lim, l, k);
  }

  /** A confirmed prune gets as far as its plan. */
  lemma ConfirmedPlans(mac: Mac, lim: Limits, l: Log, through: nat, expected: Hash)
    requires Good(mac, lim, l)
    ensures PlanPrune(l, through, expected).Ok? <==> Confirms(l, through, expected)
  {
    ConfirmedIsFound(mac, lim, l, through, expected);
    PlanOkIff(l, through, expected);
    var gone := Eligible(l.segments, |l.segments|, l.ranges, through);
    if gone != [] { LastIsFound(mac, lim, l, through, gone); }
  }

  lemma GoneIff(mac: Mac, lim: Limits, l: Log, through: nat, expected: Hash, n: nat)
    requires Good(mac, lim, l) && PlanPrune(l, through, expected).Ok? && n in l.disk.files
    ensures l.disk.files[n] != []
    ensures n in Members(PlanPrune(l, through, expected).value.gone) <==> EndOf(l, n) <= through
  {
    var gone := PlanPrune(l, through, expected).value.gone;
    PlanGone(l, through, expected);
    EligibleIff(l.segments, |l.segments|, l.ranges, through, n);
    assert l.segments[..|l.segments|] == l.segments;
    assert FileOk(lim, l, n);
    assert n in Members(l.segments);
    assert n in Members(gone) <==> n in gone;
  }

  lemma PruneFiles(l: Log, through: nat, expected: Hash)
    requires PlanPrune(l, through, expected).Ok?
    ensures var (r, out) := Prune(l, through, expected);
      out == Ok(|PlanPrune(l, through, expected).value.gone|)
      && r.disk.files == l.disk.files - Members(PlanPrune(l, through, expected).value.gone)
  {
    var gone := PlanPrune(l, through, expected).value.gone;
    if gone == [] {
      assert Members(gone) == {};
      assert l.disk.files - {} == l.disk.files;
    }
  }

  /**
   A prune succeeds if and only if a record has the sequence number and the hash given; one
   that is refused changes nothing.
   */
  lemma PruneSucceedsIff(mac: Mac, lim: Limits, l: Log, through: nat, expected: Hash)
    requires Good(mac, lim, l)
    ensures var (r, out) := Prune(l, through, expected);
      && (out.Ok? <==> Confirms(l, through, expected))
      && (out.Err? ==> out == Err(Mismatch) && r == l)
  {
    ConfirmedPlans(mac, lim, l, through, expected);
  }

  /** One that succeeds removes exactly the segments that end at or before the record, and counts them. */
  lemma PruneRemoves(mac: Mac, lim: Limits, l: Log, through: nat, expected: Hash, n: nat)
    requires Good(mac, lim, l) && Prune(l, through, expected).1.Ok?
    ensures var (r, out) := Prune(l, through, expected);
      && (n in l.disk.files ==> l.disk.files[n] != [])
      && (n in r.disk.files <==> n in l.disk.files && EndOf(l, n) > through)
      && (n in r.disk.files ==> r.disk.files[n] == l.disk.files[n])
      && out.value == |l.disk.files| - |r.disk.files|
  {
    var r, out := Prune(l, through, expected).0, Prune(l, through, expected).1;
    assert PlanPrune(l, through, expected).Ok?;
    var gone := PlanPrune(l, through, expected).value.gone;
    PruneFiles(l, through, expected);
    if n in l.disk.files { GoneIff(mac, lim, l, through, expected, n); }
    PlanGone(l, through, expected);
    GoneIsFront(mac, lim, l, through);
    FrontAscends(l.segments, gone);
    AscendingCount(gone);
    FrontInFiles(l, gone);
    assert r.disk.files.Keys == l.disk.files.Keys - Members(gone);
    assert |l.disk.files.Keys - Members(gone)| == |l.disk.files.Keys| - |Members(gone)|;
  }

  lemma FrontAscends(s: seq<nat>, p: seq<nat>)
    requires Ascending(s) && p <= s
    ensures Ascending(p)
  {
  }

  lemma FrontInFiles(l: Log, p: seq<nat>)
    requires IsListing(l.segments, l.disk.files.Keys) && p <= l.segments
    ensures Members(p) <= l.disk.files.Keys
  {
    forall x | x in Members(p) ensures x in l.disk.files.Keys {
      var i :| 0 <= i < |p| && p[i] == x;
      assert l.segments[i] == x;
      assert x in Members(l.segments);
    }
  }

  /** The log `r` is `l` behind its record number `i`. */
  predicate Behind(l: Log, r: Log, i: nat) {
    i < |l.records| && r.disk.anchor == Anchor(l.records[i].sequence, l.records[i].hash) && r.records == l.records[i + 1..]
  }

  lemma RestIsBehind(mac: Mac, lim: Limits, l: Log, k: nat)
    requires Good(mac, lim, l) && 0 < k <= |l.segments|
    ensures End(l, k) > 0 && Behind(l, Rest(l, k), End(l, k) - 1)
  {
    CutAnchor(mac, lim, l, k);
    FindSequence(l.records, l.disk.anchor.sequence + End(l, k), End(l, k) - 1);
  }

  /** The chain then starts at the last record removed. */
  lemma PruneAnchors(mac: Mac, lim: Limits, l: Log, through: nat, expected: Hash)
    requires Good(mac, lim, l) && Prune(l, through, expected).1.Ok?
    ensures var r := Prune(l, through, expected).0;
      if r.disk.files == l.disk.files then r == l else exists i: nat :: Behind(l, r, i)
  {
    assert PlanPrune(l, through, expected).Ok?;
    var gone := PlanPrune(l, through, expected).value.gone;
    PlanGone(l, through, expected);
    if gone != [] {
      PrunedIsRest(mac, lim, l, through, expected, gone, |gone|);
      RestIsBehind(mac, lim, l, |gone|);
      GoneFrom(mac, lim, l, through, gone);
      PruneFiles(l, through, expected);
    }
  }

  lemma FindSequence(records: seq<Record>, sequence: nat, i: nat)
    requires Find(records, sequence, 0) == i < |records|
    ensures records[i].sequence == sequence
  {
  }

  lemma GoneFrom(mac: Mac, lim: Limits, l: Log, through: nat, gone: seq<nat>)
    requires Good(mac, lim, l) && gone != [] && gone == Eligible(l.segments, |l.segments|, l.ranges, through)
    ensures l.disk.files - Members(gone) != l.disk.files
  {
    GoneIsFront(mac, lim, l, through);
    FrontInFiles(l, gone);
    assert gone[0] in Members(gone);
    assert gone[0] in l.disk.files.Keys;
    assert gone[0] !in l.disk.files - Members(gone);
  }

  // ----- Appending -----

  /** An append succeeds if and only if the record is small enough, and the last file has room or another may be opened. */
  lemma AppendSucceedsIff(mac: Mac, lim: Limits, l: Log, keyId: string, body: string, bytes: nat)
    requires Good(mac, lim, l)
    ensures Append(mac, lim, l, keyId, body, bytes).1.Ok? <==>
      && bytes <= lim.maxRecordBytes
      && (l.segments == [] || |l.segments| < lim.maxSegments
          || FileSize(FileOf(l.disk, l.segments[|l.segments| - 1])) + bytes <= lim.segmentBytes)
  {
  }

  /** The record it writes, and where: at the end of the last file, or alone in a new one when that is full. */
  lemma AppendWrites(mac: Mac, lim: Limits, l: Log, keyId: string, body: string, bytes: nat)
    requires Good(mac, lim, l) && Append(mac, lim, l, keyId, body, bytes).1.Ok?
    ensures var (e, out) := Append(mac, lim, l, keyId, body, bytes);
      var head := Head(l.disk.anchor, l.records);
      var r := out.value;
      && r.sequence == head.sequence + 1 && r.previous == head.hash && r.keyId == keyId && r.body == body && r.bytes == bytes
      && r.hash == mac(keyId, r.sequence, r.previous, body)
      && e.records == l.records + [r] && e.disk.anchor == l.disk.anchor
      && exists n :: n in e.disk.files && e.disk.files == l.disk.files[n := e.disk.files[n]]
           && (if l.segments != [] && FileSize(FileOf(l.disk, l.segments[|l.segments| - 1])) + bytes <= lim.segmentBytes
               then n == l.segments[|l.segments| - 1] && n in l.disk.files && e.disk.files[n] == l.disk.files[n] + [r]
               else n !in l.disk.files && e.disk.files[n] == [r])
  {
    var n := SegmentFor(lim, l, bytes).value;
    var e := Append(mac, lim, l, keyId, body, bytes).0;
    forall s | s in l.disk.files ensures s in Members(l.segments) {
      assert s in l.disk.files.Keys;
    }
    if l.segments != [] {
      var current := l.segments[|l.segments| - 1];
      assert current in Members(l.segments);
      if n != current { NextIsNew(l.segments, current + 1); }
    } else {
      assert Members(l.segments) == {};
    }
    assert e.disk.files == l.disk.files[n := e.disk.files[n]];
  }

  lemma NextIsNew(s: seq<nat>, n: nat)
    requires Ascending(s) && s != [] && n > s[|s| - 1]
    ensures n !in Members(s)
  {
    forall i | 0 <= i < |s| ensures s[i] < n {
      if i < |s| - 1 { assert s[i] < s[|s| - 1]; }
    }
  }

  // ----- Reloading -----

  /** The records past a sequence number. */
  function Past(records: seq<Record>, sequence: nat): seq<Record> {
    if records == [] then []
    else
      var r := records[|records| - 1];
      Past(records[..|records| - 1], sequence) + (if r.sequence > sequence then [r] else [])
  }

  lemma {:induction false} PastConcat(a: seq<Record>, b: seq<Record>, sequence: nat)
    ensures Past(a + b, sequence) == Past(a, sequence) + Past(b, sequence)
  {
    if b == [] {
      assert a + b == a;
    } else {
      assert (a + b)[..|a + b| - 1] == a + b[..|b| - 1];
      PastConcat(a, b[..|b| - 1], sequence);
    }
  }

  lemma ChainedLast(mac: Mac, a: Anchor, records: seq<Record>, r: Record)
    ensures Chained(mac, a, records + [r]) <==> Chained(mac, a, records) && Linked(mac, Head(a, records), r)
  {
    var s := records + [r];
    if Chained(mac, a, s) {
      forall i | 0 <= i < |records| ensures LinkedAt(mac, a, records, i) {
        assert LinkedAt(mac, a, s, i);
      }
      assert LinkedAt(mac, a, s, |records|);
    }
    if Chained(mac, a, records) && Linked(mac, Head(a, records), r) {
      ChainedSnoc(mac, a, records, r);
    }
  }

  lemma {:induction false} ChainedFront(mac: Mac, a: Anchor, p: seq<Record>, q: seq<Record>)
    requires Chained(mac, a, p + q)
    ensures Chained(mac, a, p)
  {
    forall i | 0 <= i < |p| ensures LinkedAt(mac, a, p, i) {
      assert LinkedAt(mac, a, p + q, i);
    }
  }

  ghost predicate AllSmall(lim: Limits, file: seq<Record>) {
    forall i | 0 <= i < |file| :: file[i].bytes <= lim.maxRecordBytes
  }

  /** Verification that has kept `records` so far, from the anchor `a`. */
  ghost predicate Kept(a: Anchor, records: seq<Record>, c: Chain) {
    c == Chain(Head(a, records), records)
  }

  /** A file is accepted if its records are small and those past the anchor go on with the chain. */
  lemma {:induction false} ReadFileIff(mac: Mac, lim: Limits, a: Anchor, records: seq<Record>, c: Chain, file: seq<Record>)
    requires Kept(a, records, c) && Chained(mac, a, records)
    ensures var out := ReadFile(mac, lim, a, c, file);
      && (out.Ok? <==> AllSmall(lim, file) && Chained(mac, a, records + Past(file, a.sequence)))
      && (out.Ok? ==> Kept(a, records + Past(file, a.sequence), out.value))
  {
    if file == [] {
      assert records + Past(file, a.sequence) == records;
    } else {
      var init, r := file[..|file| - 1], file[|file| - 1];
      assert file == init + [r];
      ReadFileIff(mac, lim, a, records, c, init);
      var q := records + Past(init, a.sequence);
      if r.sequence > a.sequence {
        assert records + Past(file, a.sequence) == q + [r];
        ChainedLast(mac, a, q, r);
      } else {
        assert Past(file, a.sequence) == Past(init, a.sequence);
      }
    }
  }

  /** Reload part way, with the records of the first `n` names kept. */
  ghost predicate LoadedTo(d: Disk, names: seq<nat>, n: nat, s: Loading)
    requires n <= |names|
  {
    && Kept(d.anchor, Past(Concat(d.files, names, n), d.anchor.sequence), s.chain)
    && forall i | n <= i < |names| :: names[i] in s.files && names[i] in d.files && s.files[names[i]] == d.files[names[i]]
  }

  ghost predicate Readable(mac: Mac, lim: Limits, d: Disk, names: seq<nat>, n: nat)
    requires n <= |names|
  {
    && (forall i | 0 <= i < n :: names[i] in d.files && Small(lim, d.files[names[i]]))
    && Chained(mac, d.anchor, Past(Concat(d.files, names, n), d.anchor.sequence))
  }

  lemma ReadSegmentIff(mac: Mac, lim: Limits, d: Disk, names: seq<nat>, n: nat, s: Loading)
    requires n < |names| && Ascending(names) && (forall i | 0 <= i < |names| :: names[i] in d.files)
    requires Readable(mac, lim, d, names, n) && LoadedTo(d, names, n, s)
    ensures var out := ReadSegment(mac, lim, d.anchor, s, names[n]);
      && (out.Ok? <==> Readable(mac, lim, d, names, n + 1))
      && (out.Ok? ==> LoadedTo(d, names, n + 1, out.value))
  {
    var file := d.files[names[n]];
    var records := Past(Concat(d.files, names, n), d.anchor.sequence);
    PastConcat(Concat(d.files, names, n), file, d.anchor.sequence);
    ReadFileIff(mac, lim, d.anchor, records, s.chain, file);
  }

  lemma ChainedBefore(mac: Mac, lim: Limits, d: Disk, names: seq<nat>, n: nat)
    requires n < |names| && names[n] in d.files && Readable(mac, lim, d, names, n + 1)
    ensures Readable(mac, lim, d, names, n)
  {
    PastConcat(Concat(d.files, names, n), d.files[names[n]], d.anchor.sequence);
    ChainedFront(mac, d.anchor, Past(Concat(d.files, names, n), d.anchor.sequence), Past(d.files[names[n]], d.anchor.sequence));
  }

  lemma ReadSegmentsNext(mac: Mac, lim: Limits, d: Disk, names: seq<nat>, n: nat)
    requires n < |names|
    ensures var before := ReadSegments(mac, lim, d, names[..n]);
      ReadSegments(mac, lim, d, names[..n + 1]) ==
        if before.Err? then before
        else if names[n] !in before.value.files then Err(Mismatch)
        else ReadSegment(mac, lim, d.anchor, before.value, names[n])
  {
    assert names[..n + 1][..n] == names[..n];
  }

  ghost predicate SegmentsIff(mac: Mac, lim: Limits, d: Disk, names: seq<nat>, n: nat)
    requires n <= |names|
  {
    var out := ReadSegments(mac, lim, d, names[..n]);
    && (out.Ok? <==> Readable(mac, lim, d, names, n))
    && (out.Ok? ==> LoadedTo(d, names, n, out.value))
  }

  lemma SegmentsIffNext(mac: Mac, lim: Limits, d: Disk, names: seq<nat>, n: nat)
    requires n < |names| && Ascending(names) && (forall i | 0 <= i < |names| :: names[i] in d.files)
    requires SegmentsIff(mac, lim, d, names, n)
    ensures SegmentsIff(mac, lim, d, names, n + 1)
  {
    var before := ReadSegments(mac, lim, d, names[..n]);
    ReadSegmentsNext(mac, lim, d, names, n);
    if before.Ok? {
      ReadSegmentIff(mac, lim, d, names, n, before.value);
    } else if Readable(mac, lim, d, names, n + 1) {
      ChainedBefore(mac, lim, d, names, n);
    }
  }

  lemma {:induction false} ReadSegmentsIff(mac: Mac, lim: Limits, d: Disk, names: seq<nat>, n: nat)
    requires n <= |names| && Ascending(names) && forall i | 0 <= i < |names| :: names[i] in d.files
    ensures SegmentsIff(mac, lim, d, names, n)
  {
    if n == 0 {
      assert names[..0] == [];
    } else {
      ReadSegmentsIff(mac, lim, d, names, n - 1);
      SegmentsIffNext(mac, lim, d, names, n - 1);
    }
  }

  /**
   What reload accepts, exactly: no more segments than allowed, files and records within
   their sizes, and, past the anchor, an unbroken chain of records each of which carries its
   predecessor's hash and its own digest.  Those records, and no others, are the log.
   */
  lemma ReloadAcceptsIff(mac: Mac, lim: Limits, d: Disk, names: seq<nat>)
    requires IsListing(names, d.files.Keys)
    ensures var out := Reload(mac, lim, d, names);
      var records := Past(Concat(d.files, names, |names|), d.anchor.sequence);
      && (out.Ok? <==>
            && |names| <= lim.maxSegments && (forall n | n in d.files :: Small(lim, d.files[n]))
            && Chained(mac, d.anchor, records))
      && (out.Ok? ==> out.value.records == records && out.value.disk.anchor == d.anchor)
  {
    forall i | 0 <= i < |names| ensures names[i] in d.files {
      assert names[i] in Members(names);
    }
    assert names[..|names|] == names;
    ReadSegmentsIff(mac, lim, d, names, |names|);
    forall n | n in d.files ensures exists i :: 0 <= i < |names| && names[i] == n {
      assert n in Members(names);
    }
  }
}
