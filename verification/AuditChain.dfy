/** Whatever append, rotation and pruning wrote, reload accepts and reproduces, also after a crash mid-prune. */
module AuditChain {
  import opened AuditModel

  ghost predicate Ascending(s: seq<nat>) {
    forall i, j | 0 <= i < j < |s| :: s[i] < s[j]
  }

  /** `names` lists the members of `s` in ascending order. */
  ghost predicate IsListing(names: seq<nat>, s: set<nat>) {
    Ascending(names) && Members(names) == s
  }

  /** The records of the first `n` segments, in order. */
  function Concat(files: map<nat, seq<Record>>, segments: seq<nat>, n: nat): seq<Record>
    requires n <= |segments|
  {
    if n == 0 then [] else Concat(files, segments, n - 1) + (if segments[n - 1] in files then files[segments[n - 1]] else [])
  }

  /** Consecutive sequence numbers from the anchor, each record carrying its predecessor's hash and its own digest. */
  ghost predicate Chained(mac: Mac, a: Anchor, records: seq<Record>) {
    forall i | 0 <= i < |records| :: LinkedAt(mac, a, records, i)
  }

  ghost predicate LinkedAt(mac: Mac, a: Anchor, records: seq<Record>, i: nat)
    requires i < |records|
  {
    Linked(mac, if i == 0 then a else Anchor(records[i - 1].sequence, records[i - 1].hash), records[i])
  }

  ghost predicate Linked(mac: Mac, before: Anchor, r: Record) {
    r.sequence == before.sequence + 1 && r.previous == before.hash && r.hash == mac(r.keyId, r.sequence, r.previous, r.body)
  }

  ghost predicate Small(lim: Limits, file: seq<Record>) {
    && FileSize(file) <= lim.segmentBytes + lim.maxRecordBytes
    && forall i | 0 <= i < |file| :: file[i].bytes <= lim.maxRecordBytes
  }

  ghost predicate FileOk(lim: Limits, l: Log, n: nat) {
    && n in l.disk.files && l.disk.files[n] != [] && Small(lim, l.disk.files[n])
    && n in l.ranges && l.ranges[n] == RangeOf(l.disk.files[n])
  }

  function RangeOf(file: seq<Record>): Range
    requires file != []
  {
    Range(file[0].sequence, file[|file| - 1].sequence)
  }

  /** What every operation keeps. */
  ghost predicate Good(mac: Mac, lim: Limits, l: Log) {
    FilesGood(lim, l) && l.records == Concat(l.disk.files, l.segments, |l.segments|) && Chained(mac, l.disk.anchor, l.records)
  }

  /** The segments list the files, the ranges describe them, and every limit holds. */
  ghost predicate FilesGood(lim: Limits, l: Log) {
    && IsListing(l.segments, l.disk.files.Keys) && |l.segments| <= lim.maxSegments
    && l.ranges.Keys == l.disk.files.Keys
    && forall n | n in l.disk.files :: FileOk(lim, l, n)
  }

  // ----- Concatenation -----

  lemma {:induction false} ConcatFrame(a: map<nat, seq<Record>>, b: map<nat, seq<Record>>, s: seq<nat>, t: seq<nat>, n: nat)
    requires n <= |s| && n <= |t| && forall i | 0 <= i < n :: s[i] == t[i] && s[i] in a && s[i] in b && a[s[i]] == b[s[i]]
    ensures Concat(a, s, n) == Concat(b, t, n)
  {
    if n > 0 { ConcatFrame(a, b, s, t, n - 1); }
  }

  lemma MembersSnoc(s: seq<nat>, n: nat)
    ensures Members(s + [n]) == Members(s) + {n}
  {
    var t := s + [n];
    assert t[|s|] == n;
    forall x | x in Members(s) ensures x in Members(t) {
      var i :| 0 <= i < |s| && s[i] == x;
      assert t[i] == x;
    }
  }

  lemma MembersInit(s: seq<nat>)
    requires s != []
    ensures Members(s) == Members(s[..|s| - 1]) + {s[|s| - 1]}
  {
    assert s == s[..|s| - 1] + [s[|s| - 1]];
    MembersSnoc(s[..|s| - 1], s[|s| - 1]);
  }

  lemma LastIsNew(s: seq<nat>)
    requires Ascending(s) && s != []
    ensures s[|s| - 1] !in Members(s[..|s| - 1])
  {
  }

  // ----- Appending -----

  lemma ChainedSnoc(mac: Mac, a: Anchor, records: seq<Record>, r: Record)
    requires Chained(mac, a, records) && Linked(mac, Head(a, records), r)
    ensures Chained(mac, a, records + [r])
  {
    var s := records + [r];
    forall i | 0 <= i < |s| ensures LinkedAt(mac, a, s, i) {
      if i < |records| { assert LinkedAt(mac, a, records, i); }
    }
  }

  lemma ConcatAppend(files: map<nat, seq<Record>>, segments: seq<nat>, n: nat, r: Record)
    requires IsListing(segments, files.Keys)
    requires (segments != [] && segments[|segments| - 1] == n) || n !in files
    ensures var s := if n in segments then segments else segments + [n];
      Concat(files[n := (if n in files then files[n] else []) + [r]], s, |s|) == Concat(files, segments, |segments|) + [r]
  {
    var after := files[n := (if n in files then files[n] else []) + [r]];
    forall i | 0 <= i < |segments| ensures segments[i] in files { assert segments[i] in Members(segments); }
    if n in files {
      assert n in segments;
      ConcatFrame(files, after, segments, segments, |segments| - 1);
    } else {
      assert n !in segments;
      ConcatFrame(files, after, segments, segments + [n], |segments|);
    }
  }

  /** `n` is the last segment or the next one. */
  ghost predicate Follows(segments: seq<nat>, n: nat) {
    segments != [] ==> n == segments[|segments| - 1] || n == segments[|segments| - 1] + 1
  }

  lemma AppendListing(segments: seq<nat>, keys: set<nat>, n: nat)
    requires IsListing(segments, keys)
    requires Follows(segments, n)
    ensures IsListing(if n in segments then segments else segments + [n], keys + {n})
    ensures n in segments <==> n in keys
    ensures n in keys ==> segments != [] && n == segments[|segments| - 1]
  {
    MembersSnoc(segments, n);
    if n in segments {
      var i :| 0 <= i < |segments| && segments[i] == n;
      assert n in Members(segments);
      assert Members(segments) + {n} == Members(segments);
    }
  }

  /** The file that gets the record stays within what reload accepts. */
  lemma AppendSmall(lim: Limits, file: seq<Record>, r: Record)
    requires r.bytes <= lim.maxRecordBytes && (file == [] || (Small(lim, file) && FileSize(file) + r.bytes <= lim.segmentBytes))
    ensures Small(lim, file + [r])
  {
    assert (file + [r])[..|file|] == file;
  }

  lemma FilesExtend(lim: Limits, l: Log, n: nat, r: Record)
    requires FilesGood(lim, l) && Small(lim, FileOf(l.disk, n) + [r])
    ensures var e := Extend(l, n, r);
      && e.ranges.Keys == e.disk.files.Keys == l.disk.files.Keys + {n}
      && forall m | m in e.disk.files :: FileOk(lim, e, m)
  {
    var e := Extend(l, n, r);
    forall m | m in e.disk.files ensures FileOk(lim, e, m) {
      if m in l.disk.files { assert FileOk(lim, l, m); }
    }
  }

  lemma ExtendFiles(lim: Limits, l: Log, n: nat, r: Record)
    requires FilesGood(lim, l) && Small(lim, FileOf(l.disk, n) + [r])
    requires Follows(l.segments, n)
    requires n in l.disk.files || |l.segments| < lim.maxSegments
    ensures FilesGood(lim, Extend(l, n, r))
  {
    AppendListing(l.segments, l.disk.files.Keys, n);
    FilesExtend(lim, l, n, r);
  }

  lemma ExtendChain(mac: Mac, lim: Limits, l: Log, n: nat, r: Record)
    requires Good(mac, lim, l) && Linked(mac, Head(l.disk.anchor, l.records), r) && Follows(l.segments, n)
    ensures var e := Extend(l, n, r);
      e.records == Concat(e.disk.files, e.segments, |e.segments|) && Chained(mac, e.disk.anchor, e.records)
  {
    AppendListing(l.segments, l.disk.files.Keys, n);
    ConcatAppend(l.disk.files, l.segments, n, r);
    ChainedSnoc(mac, l.disk.anchor, l.records, r);
  }

  lemma ExtendKeeps(mac: Mac, lim: Limits, l: Log, n: nat, r: Record)
    requires Good(mac, lim, l) && Linked(mac, Head(l.disk.anchor, l.records), r) && Follows(l.segments, n)
    requires n in l.disk.files || |l.segments| < lim.maxSegments
    requires Small(lim, FileOf(l.disk, n) + [r])
    ensures Good(mac, lim, Extend(l, n, r))
  {
    ExtendFiles(lim, l, n, r);
    ExtendChain(mac, lim, l, n, r);
  }

  lemma Accepted(mac: Mac, lim: Limits, l: Log, r: Record)
    requires Good(mac, lim, l) && lim.maxSegments > 0 && r.bytes <= lim.maxRecordBytes && SegmentFor(lim, l, r.bytes).Ok?
    requires Linked(mac, Head(l.disk.anchor, l.records), r)
    ensures Good(mac, lim, Extend(l, SegmentFor(lim, l, r.bytes).value, r))
  {
    SegmentFits(mac, lim, l, r);
    ExtendKeeps(mac, lim, l, SegmentFor(lim, l, r.bytes).value, r);
  }

  /** Appending keeps the log good, and the new record heads the chain. */
  lemma AppendKeeps(mac: Mac, lim: Limits, l: Log, keyId: string, body: string, bytes: nat)
    requires Good(mac, lim, l) && lim.maxSegments > 0
    ensures var (e, out) := Append(mac, lim, l, keyId, body, bytes);
      && Good(mac, lim, e)
      && (out.Ok? ==> e.records == l.records + [out.value] && e.disk.anchor == l.disk.anchor)
      && (out.Err? ==> e == l)
  {
    if bytes <= lim.maxRecordBytes && SegmentFor(lim, l, bytes).Ok? {
      Accepted(mac, lim, l, MakeRecord(mac, Head(l.disk.anchor, l.records), keyId, body, bytes));
    }
  }

  lemma SegmentFits(mac: Mac, lim: Limits, l: Log, r: Record)
    requires Good(mac, lim, l) && lim.maxSegments > 0 && r.bytes <= lim.maxRecordBytes && SegmentFor(lim, l, r.bytes).Ok?
    ensures var n := SegmentFor(lim, l, r.bytes).value;
      && Follows(l.segments, n)
      && (n in l.disk.files || |l.segments| < lim.maxSegments)
      && Small(lim, FileOf(l.disk, n) + [r])
  {
    var n := SegmentFor(lim, l, r.bytes).value;
    if l.segments == [] {
      assert l.disk.files.Keys == {};
      AppendSmall(lim, [], r);
    } else {
      var current := l.segments[|l.segments| - 1];
      assert current in Members(l.segments);
      assert FileOk(lim, l, current);
      AppendListing(l.segments, l.disk.files.Keys, n);
      if n == current {
        AppendSmall(lim, l.disk.files[n], r);
      } else {
        AppendSmall(lim, [], r);
      }
    }
  }
}
