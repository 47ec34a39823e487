/** Reload reproduces a good log, ignoring and removing what lies behind the anchor. */
module AuditReload {
  import opened AuditModel
  import opened AuditChain

  // ----- Reading the files -----

  lemma {:induction false} SequenceAt(mac: Mac, a: Anchor, records: seq<Record>, i: nat)
    requires Chained(mac, a, records) && i < |records|
    ensures records[i].sequence == a.sequence + 1 + i
  {
    assert LinkedAt(mac, a, records, i);
    if i > 0 { SequenceAt(mac, a, records, i - 1); }
  }

  lemma HeadSequence(mac: Mac, a: Anchor, records: seq<Record>)
    requires Chained(mac, a, records)
    ensures Head(a, records).sequence == a.sequence + |records|
  {
    if records != [] { SequenceAt(mac, a, records, |records| - 1); }
  }

  lemma ChainedPrefix(mac: Mac, a: Anchor, records: seq<Record>, n: nat)
    requires Chained(mac, a, records) && n <= |records|
    ensures Chained(mac, a, records[..n])
  {
    forall i | 0 <= i < n ensures LinkedAt(mac, a, records[..n], i) { assert LinkedAt(mac, a, records, i); }
  }

  /** The next record of the chain is accepted. */
  lemma ReadNext(mac: Mac, lim: Limits, a: Anchor, p: seq<Record>, r: Record)
    requires Chained(mac, a, p + [r]) && r.bytes <= lim.maxRecordBytes
    ensures ReadRecord(mac, lim, a, Chain(Head(a, p), p), r) == Ok(Chain(Head(a, p + [r]), p + [r]))
  {
    SequenceAt(mac, a, p + [r], |p|);
    assert LinkedAt(mac, a, p + [r], |p|);
  }

  /** A file that continues the chain is read in full. */
  lemma {:induction false} ReadKept(mac: Mac, lim: Limits, a: Anchor, p: seq<Record>, file: seq<Record>)
    requires Chained(mac, a, p + file) && forall i | 0 <= i < |file| :: file[i].bytes <= lim.maxRecordBytes
    ensures ReadFile(mac, lim, a, Chain(Head(a, p), p), file) == Ok(Chain(Head(a, p + file), p + file))
  {
    if file == [] {
      assert p + file == p;
    } else {
      var init, r := file[..|file| - 1], file[|file| - 1];
      assert p + file == (p + init) + [r] && (p + file)[..|p + init|] == p + init;
      ChainedPrefix(mac, a, p + file, |p + init|);
      ReadKept(mac, lim, a, p, init);
      ReadNext(mac, lim, a, p + init, r);
    }
  }

  /** Everything in the file lies behind the anchor. */
  ghost predicate Stale(lim: Limits, a: Anchor, file: seq<Record>) {
    Small(lim, file) && forall i | 0 <= i < |file| :: file[i].sequence <= a.sequence
  }

  lemma {:induction false} ReadStale(mac: Mac, lim: Limits, a: Anchor, c: Chain, file: seq<Record>)
    requires forall i | 0 <= i < |file| :: file[i].sequence <= a.sequence && file[i].bytes <= lim.maxRecordBytes
    ensures ReadFile(mac, lim, a, c, file) == Ok(c)
  {
    if file != [] { ReadStale(mac, lim, a, c, file[..|file| - 1]); }
  }

  // ----- Listings -----

  function Keep(names: seq<nat>, s: set<nat>): seq<nat> {
    if names == [] then []
    else Keep(names[..|names| - 1], s) + (if names[|names| - 1] in s then [names[|names| - 1]] else [])
  }

  lemma AscendingInit(s: seq<nat>)
    requires Ascending(s) && s != []
    ensures Ascending(s[..|s| - 1])
  {
  }

  lemma LastIsGreatest(s: seq<nat>, x: nat)
    requires Ascending(s) && x in Members(s)
    ensures s != [] && x <= s[|s| - 1]
  {
    var i :| 0 <= i < |s| && s[i] == x;
    if i < |s| - 1 { assert s[i] < s[|s| - 1]; }
  }

  /** Of an ascending listing, keeping the members of an ascending sequence gives that sequence. */
  lemma {:induction false} KeepIs(names: seq<nat>, s: seq<nat>)
    requires Ascending(names) && Ascending(s) && Members(s) <= Members(names)
    ensures Keep(names, Members(s)) == s
    decreases |names|
  {
    if names == [] {
      assert s != [] ==> s[0] in Members(s);
    } else {
      var init, x := names[..|names| - 1], names[|names| - 1];
      AscendingInit(names);
      MembersInit(names);
      if x in Members(s) {
        KeepLast(names, s);
      } else {
        KeepIs(init, s);
      }
    }
  }

  lemma {:induction false} KeepLast(names: seq<nat>, s: seq<nat>)
    requires Ascending(names) && Ascending(s) && Members(s) <= Members(names) && names != []
    requires names[|names| - 1] in Members(s)
    ensures Keep(names, Members(s)) == s
    decreases |names|, 0
  {
    var init, x := names[..|names| - 1], names[|names| - 1];
    LastIsGreatest(s, x);
    assert s[|s| - 1] in Members(s);
    LastIsGreatest(names, s[|s| - 1]);
    var t := s[..|s| - 1];
    AscendingInit(names);
    AscendingInit(s);
    MembersInit(s);
    MembersInit(names);
    LastIsNew(s);
    assert Members(t) <= Members(init);
    KeepIs(init, t);
    LastIsNew(names);
    KeepSame(init, Members(t), Members(s), x);
    assert s == t + [x];
  }

  lemma {:induction false} KeepSame(names: seq<nat>, s: set<nat>, t: set<nat>, x: nat)
    requires t == s + {x} && x !in Members(names)
    ensures Keep(names, s) == Keep(names, t)
  {
    if names != [] {
      MembersInit(names);
      KeepSame(names[..|names| - 1], s, t, x);
    }
  }

  // ----- Reading the segments -----

  /** The disk `d` holds the files of `l` and perhaps files that lie behind the anchor. */
  ghost predicate Leftover(lim: Limits, l: Log, d: Disk) {
    && d.anchor == l.disk.anchor
    && (forall n | n in l.disk.files :: n in d.files && d.files[n] == l.disk.files[n])
    && (forall n | n in d.files && n !in l.disk.files :: d.anchor.sequence > 0 && Stale(lim, d.anchor, d.files[n]))
  }

  ghost function RangesOf(l: Log, segments: seq<nat>): map<nat, Range> {
    map n | n in Members(segments) && n in l.ranges :: l.ranges[n]
  }

  /** The loading state once the first `k` segments of `l` have been read and `gone` unlinked. */
  ghost function Loaded(l: Log, d: Disk, k: nat, gone: set<nat>): Loading
    requires k <= |l.segments|
  {
    var p := Concat(l.disk.files, l.segments, k);
    Loading(Chain(Head(l.disk.anchor, p), p), l.segments[..k], RangesOf(l, l.segments[..k]), d.files - gone)
  }

  lemma {:induction false} FrontOf(files: map<nat, seq<Record>>, segments: seq<nat>, k: nat, n: nat)
    requires k <= n <= |segments|
    ensures Concat(files, segments, k) <= Concat(files, segments, n)
    decreases n
  {
    if k < n { FrontOf(files, segments, k, n - 1); }
  }

  lemma PrefixRecords(mac: Mac, lim: Limits, l: Log, k: nat)
    requires Good(mac, lim, l) && k < |l.segments|
    ensures var n, p := l.segments[k], Concat(l.disk.files, l.segments, k);
      && n in l.disk.files && Concat(l.disk.files, l.segments, k + 1) == p + l.disk.files[n]
      && Chained(mac, l.disk.anchor, p + l.disk.files[n])
  {
    assert l.segments[k] in Members(l.segments);
    var q := Concat(l.disk.files, l.segments, k + 1);
    FrontOf(l.disk.files, l.segments, k + 1, |l.segments|);
    ChainedPrefix(mac, l.disk.anchor, l.records, |q|);
    assert l.records[..|q|] == q;
  }

  /** A file's range is where the chain stands before and after it. */
  lemma RangeIs(mac: Mac, a: Anchor, p: seq<Record>, file: seq<Record>)
    requires Chained(mac, a, p + file) && file != []
    ensures RangeOf(file) == Range(Head(a, p).sequence + 1, Head(a, p + file).sequence)
    ensures Head(a, p + file).sequence > Head(a, p).sequence
  {
    SequenceAt(mac, a, p + file, |p|);
    SequenceAt(mac, a, p + file, |p + file| - 1);
    ChainedPrefix(mac, a, p + file, |p|);
    assert (p + file)[..|p|] == p;
    HeadSequence(mac, a, p);
  }

  lemma RangesSnoc(l: Log, kept: seq<nat>, n: nat)
    requires n in l.ranges
    ensures RangesOf(l, kept + [n]) == RangesOf(l, kept)[n := l.ranges[n]]
  {
    MembersSnoc(kept, n);
  }

  lemma SegmentContinues(mac: Mac, lim: Limits, a: Anchor, s: Loading, n: nat, p: seq<Record>)
    requires s.chain == Chain(Head(a, p), p) && n in s.files && s.files[n] != [] && Small(lim, s.files[n])
    requires Chained(mac, a, p + s.files[n])
    ensures var file := s.files[n];
      ReadSegment(mac, lim, a, s, n)
      == Ok(Loading(Chain(Head(a, p + file), p + file), s.segments + [n], s.ranges[n := RangeOf(file)], s.files))
  {
    ReadKept(mac, lim, a, p, s.files[n]);
    RangeIs(mac, a, p, s.files[n]);
  }

  lemma LoadedNext(l: Log, d: Disk, k: nat, gone: set<nat>)
    requires k < |l.segments| && l.segments[k] in l.ranges && l.segments[k] in l.disk.files
    requires l.ranges[l.segments[k]] == RangeOfFile(l.disk.files[l.segments[k]])
    ensures var s, n, p := Loaded(l, d, k, gone), l.segments[k], Concat(l.disk.files, l.segments, k + 1);
      Loaded(l, d, k + 1, gone)
      == Loading(Chain(Head(l.disk.anchor, p), p), s.segments + [n], s.ranges[n := RangeOfFile(l.disk.files[n])], s.files)
  {
    RangesSnoc(l, l.segments[..k], l.segments[k]);
    assert l.segments[..k + 1] == l.segments[..k] + [l.segments[k]];
  }

  function RangeOfFile(file: seq<Record>): Range {
    if file == [] then Range(0, 0) else RangeOf(file)
  }

  lemma ReadKeptSegment(mac: Mac, lim: Limits, l: Log, d: Disk, k: nat, gone: set<nat>)
    requires Good(mac, lim, l) && Leftover(lim, l, d) && k < |l.segments| && l.segments[k] !in gone
    ensures var s, n := Loaded(l, d, k, gone), l.segments[k];
      && n in s.files
      && ReadSegment(mac, lim, d.anchor, s, n) == Ok(Loaded(l, d, k + 1, gone))
  {
    var n := l.segments[k];
    PrefixRecords(mac, lim, l, k);
    assert FileOk(lim, l, n);
    SegmentContinues(mac, lim, d.anchor, Loaded(l, d, k, gone), n, Concat(l.disk.files, l.segments, k));
    LoadedNext(l, d, k, gone);
  }

  lemma ReadStaleSegment(mac: Mac, lim: Limits, l: Log, d: Disk, k: nat, gone: set<nat>, n: nat)
    requires k <= |l.segments| && Leftover(lim, l, d) && n in d.files && n !in l.disk.files && n !in gone
    ensures var s := Loaded(l, d, k, gone);
      && n in s.files
      && ReadSegment(mac, lim, d.anchor, s, n) == Ok(Loaded(l, d, k, gone + {n}))
  {
    var s := Loaded(l, d, k, gone);
    assert Stale(lim, d.anchor, d.files[n]);
    ReadStale(mac, lim, d.anchor, s.chain, d.files[n]);
    assert (d.files - gone) - {n} == d.files - (gone + {n});
  }

  /** Reading the files `names` has kept those of `l` among them and unlinked the others. */
  ghost predicate ReadTo(mac: Mac, lim: Limits, l: Log, d: Disk, names: seq<nat>) {
    var kept := Keep(names, l.disk.files.Keys);
    && kept <= l.segments
    && ReadSegments(mac, lim, d, names) == Ok(Loaded(l, d, |kept|, Members(names) - l.disk.files.Keys))
  }

  lemma ReadNone(mac: Mac, lim: Limits, l: Log, d: Disk)
    requires d.anchor == l.disk.anchor
    ensures ReadTo(mac, lim, l, d, [])
  {
    assert Members([]) - l.disk.files.Keys == {};
    assert d.files - {} == d.files;
    assert RangesOf(l, []) == map[];
  }

  lemma ReadAnother(mac: Mac, lim: Limits, l: Log, d: Disk, before: seq<nat>, n: nat)
    requires Good(mac, lim, l) && Leftover(lim, l, d) && n in d.files && n !in Members(before)
    requires ReadTo(mac, lim, l, d, before) && Keep(before + [n], l.disk.files.Keys) <= l.segments
    ensures ReadTo(mac, lim, l, d, before + [n])
  {
    var names := before + [n];
    assert names[..|names| - 1] == before;
    MembersSnoc(before, n);
    ReadOneMore(mac, lim, l, d, before, n, Keep(before, l.disk.files.Keys), Keep(names, l.disk.files.Keys));
  }

  lemma {:induction false} ReadAll(mac: Mac, lim: Limits, l: Log, d: Disk, names: seq<nat>)
    requires Good(mac, lim, l) && Leftover(lim, l, d)
    requires Ascending(names) && Members(names) <= d.files.Keys && Keep(names, l.disk.files.Keys) <= l.segments
    ensures ReadTo(mac, lim, l, d, names)
    decreases |names|
  {
    if names == [] {
      ReadNone(mac, lim, l, d);
    } else {
      var init, n := names[..|names| - 1], names[|names| - 1];
      assert names == init + [n];
      AscendingInit(names);
      MembersInit(names);
      LastIsNew(names);
      ReadAll(mac, lim, l, d, init);
      ReadAnother(mac, lim, l, d, init, n);
    }
  }

  lemma ReadOneMore(mac: Mac, lim: Limits, l: Log, d: Disk, before: seq<nat>, n: nat, kept: seq<nat>, kept': seq<nat>)
    requires Good(mac, lim, l) && Leftover(lim, l, d) && n in d.files && n !in Members(before)
    requires kept <= l.segments && kept' <= l.segments && kept' == kept + (if n in l.disk.files then [n] else [])
    ensures var gone, gone' := Members(before) - l.disk.files.Keys, (Members(before) + {n}) - l.disk.files.Keys;
      && n in Loaded(l, d, |kept|, gone).files
      && ReadSegment(mac, lim, d.anchor, Loaded(l, d, |kept|, gone), n) == Ok(Loaded(l, d, |kept'|, gone'))
  {
    var gone, gone' := Members(before) - l.disk.files.Keys, (Members(before) + {n}) - l.disk.files.Keys;
    if n in l.disk.files {
      var k := |kept|;
      assert kept == l.segments[..k] && kept' == l.segments[..k + 1] && l.segments[k] == kept'[k] == n;
      assert gone' == gone;
      ReadKeptSegment(mac, lim, l, d, k, gone);
    } else {
      assert kept' == kept && gone' == gone + {n};
      ReadStaleSegment(mac, lim, l, d, |kept|, gone, n);
    }
  }

  lemma LoadedAll(mac: Mac, lim: Limits, l: Log, d: Disk)
    requires Good(mac, lim, l) && Leftover(lim, l, d)
    ensures var s := Loaded(l, d, |l.segments|, d.files.Keys - l.disk.files.Keys);
      s.files == l.disk.files && s.chain.records == l.records && s.segments == l.segments && s.ranges == l.ranges
  {
    FilesLeft(lim, l, d);
    assert l.segments[..|l.segments|] == l.segments;
    assert RangesOf(l, l.segments) == l.ranges;
  }

  /** Reload accepts the disk, drops what lies behind the anchor, and gives the log itself. */
  lemma ReloadGives(mac: Mac, lim: Limits, l: Log, d: Disk, names: seq<nat>)
    requires Good(mac, lim, l) && Leftover(lim, l, d) && IsListing(names, d.files.Keys) && |names| <= lim.maxSegments
    ensures Reload(mac, lim, d, names) == Ok(l)
  {
    KeepIs(names, l.segments);
    ReadAll(mac, lim, l, d, names);
    LoadedAll(mac, lim, l, d);
  }

  lemma FilesLeft(lim: Limits, l: Log, d: Disk)
    requires Leftover(lim, l, d)
    ensures d.files - (d.files.Keys - l.disk.files.Keys) == l.disk.files
  {
    var f := d.files - (d.files.Keys - l.disk.files.Keys);
    forall n ensures n in f <==> n in l.disk.files {}
    forall n | n in f ensures f[n] == l.disk.files[n] {}
  }
}
