/** Pruning keeps the log good, a crash during it changes nothing, and so for whole runs. */
module AuditRuns {
  import opened AuditModel
  import opened AuditChain
  import opened AuditReload

  // ----- Where segments end -----

  /** The position in the chain just after the first `k` segments. */
  ghost function End(l: Log, k: nat): nat
    requires k <= |l.segments|
  {
    |Concat(l.disk.files, l.segments, k)|
  }

  /** Segment `k` ends with the record number `End(k + 1)` after the anchor. */
  ghost predicate EndsAt(l: Log, k: nat)
    requires k < |l.segments|
  {
    && l.segments[k] in l.ranges && End(l, k) < End(l, k + 1) <= |l.records|
    && l.ranges[l.segments[k]].last == l.disk.anchor.sequence + End(l, k + 1)
  }

  lemma SegmentEnd(mac: Mac, lim: Limits, l: Log, k: nat)
    requires Good(mac, lim, l) && k < |l.segments|
    ensures EndsAt(l, k)
  {
    PrefixRecords(mac, lim, l, k);
    assert FileOk(lim, l, l.segments[k]);
    var q := Concat(l.disk.files, l.segments, k + 1);
    FrontOf(l.disk.files, l.segments, k + 1, |l.segments|);
    SequenceAt(mac, l.disk.anchor, q, |q| - 1);
  }

  /** The range end of every segment is less than that of the next. */
  lemma SegmentsStep(mac: Mac, lim: Limits, l: Log, k: nat)
    requires Good(mac, lim, l) && k + 1 < |l.segments|
    ensures l.segments[k] in l.ranges && l.segments[k + 1] in l.ranges
    ensures l.ranges[l.segments[k]].last < l.ranges[l.segments[k + 1]].last
  {
    SegmentEnd(mac, lim, l, k);
    SegmentEnd(mac, lim, l, k + 1);
  }

  /** The range ends of `segments` ascend. */
  ghost predicate EndsGrow(ranges: map<nat, Range>, segments: seq<nat>) {
    && (forall i | 0 <= i < |segments| :: segments[i] in ranges)
    && (forall i, j | 0 <= i < j < |segments| :: ranges[segments[i]].last < ranges[segments[j]].last)
  }

  lemma {:induction false} StepsGrow(ranges: map<nat, Range>, segments: seq<nat>, i: nat, j: nat)
    requires i < j < |segments| && forall k | 0 <= k < |segments| :: segments[k] in ranges
    requires forall k | 0 <= k < |segments| - 1 :: ranges[segments[k]].last < ranges[segments[k + 1]].last
    ensures ranges[segments[i]].last < ranges[segments[j]].last
    decreases j
  {
    assert ranges[segments[j - 1]].last < ranges[segments[j - 1 + 1]].last;
    if i < j - 1 { StepsGrow(ranges, segments, i, j - 1); }
  }

  lemma GoodEndsGrow(mac: Mac, lim: Limits, l: Log)
    requires Good(mac, lim, l)
    ensures EndsGrow(l.ranges, l.segments)
  {
    forall k | 0 <= k < |l.segments| ensures l.segments[k] in l.ranges { SegmentEnd(mac, lim, l, k); }
    forall k | 0 <= k < |l.segments| - 1 ensures l.ranges[l.segments[k]].last < l.ranges[l.segments[k + 1]].last {
      SegmentsStep(mac, lim, l, k);
    }
    forall i, j | 0 <= i < j < |l.segments| ensures l.ranges[l.segments[i]].last < l.ranges[l.segments[j]].last {
      StepsGrow(l.ranges, l.segments, i, j);
    }
  }

  // ----- Eligible segments -----

  lemma {:induction false} EligibleAll(segments: seq<nat>, n: nat, ranges: map<nat, Range>, through: nat)
    requires n <= |segments| && forall i | 0 <= i < n :: segments[i] in ranges && ranges[segments[i]].last <= through
    ensures Eligible(segments, n, ranges, through) == segments[..n]
  {
    if n > 0 {
      EligibleAll(segments, n - 1, ranges, through);
      assert segments[..n] == segments[..n - 1] + [segments[n - 1]];
    }
  }

  /** The eligible segments are the first ones. */
  lemma {:induction false} EligibleIsPrefix(segments: seq<nat>, n: nat, ranges: map<nat, Range>, through: nat)
    requires n <= |segments| && EndsGrow(ranges, segments)
    ensures Eligible(segments, n, ranges, through) <= segments
  {
    if n > 0 {
      if ranges[segments[n - 1]].last <= through {
        EligibleAll(segments, n, ranges, through);
      } else {
        EligibleIsPrefix(segments, n - 1, ranges, through);
      }
    }
  }

  lemma {:induction false} LastOfPrefix(ranges: map<nat, Range>, segments: seq<nat>, n: nat)
    requires EndsGrow(ranges, segments) && 0 < n <= |segments|
    ensures LastOf(ranges, segments, n) == ranges[segments[n - 1]].last
  {
    if n > 1 { LastOfPrefix(ranges, segments, n - 1); }
  }

  // ----- The pruned log -----

  lemma {:induction false} FindAt(records: seq<Record>, sequence: nat, i: nat, j: nat)
    requires i <= j < |records| && records[j].sequence == sequence && forall m | i <= m < j :: records[m].sequence != sequence
    ensures Find(records, sequence, i) == j
    decreases j - i
  {
    if i < j { FindAt(records, sequence, i + 1, j); }
  }

  lemma {:induction false} AfterIs(records: seq<Record>, n: nat, sequence: nat, k: nat)
    requires n <= |records| && forall j | 0 <= j < n :: (records[j].sequence > sequence <==> j >= k)
    ensures After(records, n, sequence) == if k <= n then records[k..n] else []
  {
    if n > 0 {
      AfterIs(records, n - 1, sequence, k);
      if k < n { assert records[k..n] == records[k..n - 1] + [records[n - 1]]; }
    }
  }

  ghost predicate FrontOnly(segments: seq<nat>, gone: set<nat>, k: nat, i: nat)
    requires i < |segments|
  {
    segments[i] in gone <==> i < k
  }

  lemma {:induction false} MinusOf(segments: seq<nat>, n: nat, gone: set<nat>, k: nat)
    requires n <= |segments| && forall i | 0 <= i < n :: FrontOnly(segments, gone, k, i)
    ensures Minus(segments, n, gone) == if k <= n then segments[k..n] else []
  {
    if n > 0 {
      assert FrontOnly(segments, gone, k, n - 1);
      MinusOf(segments, n - 1, gone, k);
      if k < n {
        var before := segments[k..n - 1];
        assert Minus(segments, n, gone) == before + [segments[n - 1]];
        assert segments[k..n] == before + [segments[n - 1]];
      } else {
        assert Minus(segments, n, gone) == Minus(segments, n - 1, gone) + [];
      }
    }
  }

  lemma InFront(s: seq<nat>, k: nat, i: nat)
    requires Ascending(s) && k <= |s| && i < |s|
    ensures FrontOnly(s, Members(s[..k]), k, i)
  {
    var front := s[..k];
    if i < k {
      assert front[i] == s[i];
    } else {
      forall j | 0 <= j < k ensures front[j] != s[i] { assert front[j] == s[j] < s[i]; }
    }
  }

  lemma MinusPrefix(segments: seq<nat>, k: nat)
    requires Ascending(segments) && k <= |segments|
    ensures Minus(segments, |segments|, Members(segments[..k])) == segments[k..]
  {
    var gone := Members(segments[..k]);
    forall i | 0 <= i < |segments| ensures FrontOnly(segments, gone, k, i) { InFront(segments, k, i); }
    MinusOf(segments, |segments|, gone, k);
    assert segments[k..|segments|] == segments[k..];
  }

  /** The log left when its first `k` segments are dropped behind their last record. */
  ghost function Rest(l: Log, k: nat): Log
    requires k <= |l.segments|
  {
    var gone := Members(l.segments[..k]);
    var p := Concat(l.disk.files, l.segments, k);
    Log(Disk(l.disk.files - gone, Head(l.disk.anchor, p)), if |p| <= |l.records| then l.records[|p|..] else [],
        l.segments[k..], l.ranges - gone)
  }

  lemma FrontMember(s: seq<nat>, k: nat, i: nat)
    requires i < k <= |s|
    ensures s[i] in Members(s[..k])
  {
    assert s[..k][i] == s[i];
  }

  lemma NotInFront(s: seq<nat>, k: nat, i: nat)
    requires k <= |s| && i < |s| && s[i] !in Members(s[..k])
    ensures i >= k
  {
    if i < k { FrontMember(s, k, i); }
  }

  lemma SplitMembers(s: seq<nat>, k: nat)
    requires Ascending(s) && k <= |s|
    ensures Ascending(s[k..]) && Members(s[k..]) == Members(s) - Members(s[..k])
  {
    forall x ensures x in Members(s[k..]) <==> x in Members(s) && x !in Members(s[..k]) {
      if x in Members(s[k..]) {
        var i :| 0 <= i < |s[k..]| && s[k..][i] == x;
        assert s[k + i] == x;
      }
      if x in Members(s) && x !in Members(s[..k]) {
        var i :| 0 <= i < |s| && s[i] == x;
        NotInFront(s, k, i);
        assert s[k..][i - k] == x;
      }
    }
  }

  lemma RestChained(mac: Mac, a: Anchor, p: seq<Record>, q: seq<Record>)
    requires Chained(mac, a, p + q)
    ensures Chained(mac, Head(a, p), q)
  {
    forall i | 0 <= i < |q| ensures LinkedAt(mac, Head(a, p), q, i) {
      assert LinkedAt(mac, a, p + q, |p| + i);
    }
  }

  lemma RestFiles(mac: Mac, lim: Limits, l: Log, k: nat)
    requires Good(mac, lim, l) && k <= |l.segments|
    ensures FilesGood(lim, Rest(l, k))
  {
    var r := Rest(l, k);
    SplitMembers(l.segments, k);
    assert r.disk.files.Keys == Members(r.segments);
    forall n | n in r.disk.files ensures FileOk(lim, r, n) { assert FileOk(lim, l, n); }
  }

  lemma {:induction false} BackOf(files: map<nat, seq<Record>>, segments: seq<nat>, k: nat, n: nat)
    requires k <= n <= |segments|
    ensures Concat(files, segments, n) == Concat(files, segments, k) + Concat(files, segments[k..], n - k)
    decreases n
  {
    if k < n {
      BackOf(files, segments, k, n - 1);
      assert segments[k..][n - k - 1] == segments[n - 1];
    }
  }

  lemma RestFilesSame(l: Log, k: nat)
    requires IsListing(l.segments, l.disk.files.Keys) && k <= |l.segments|
    ensures var r := Rest(l, k);
      Concat(l.disk.files, r.segments, |r.segments|) == Concat(r.disk.files, r.segments, |r.segments|)
  {
    var r := Rest(l, k);
    SplitMembers(l.segments, k);
    forall i | 0 <= i < |r.segments| ensures r.segments[i] in l.disk.files && r.segments[i] in r.disk.files {
      assert r.segments[i] in Members(r.segments);
    }
    ConcatFrame(l.disk.files, r.disk.files, r.segments, r.segments, |r.segments|);
  }

  lemma RestRecords(l: Log, k: nat)
    requires IsListing(l.segments, l.disk.files.Keys) && k <= |l.segments|
    requires l.records == Concat(l.disk.files, l.segments, |l.segments|)
    ensures var r := Rest(l, k);
      r.records == Concat(r.disk.files, r.segments, |r.segments|) && l.records == Concat(l.disk.files, l.segments, k) + r.records
  {
    BackOf(l.disk.files, l.segments, k, |l.segments|);
    RestFilesSame(l, k);
  }

  lemma RestGood(mac: Mac, lim: Limits, l: Log, k: nat)
    requires Good(mac, lim, l) && k <= |l.segments|
    ensures Good(mac, lim, Rest(l, k))
  {
    RestFiles(mac, lim, l, k);
    RestRecords(l, k);
    RestChained(mac, l.disk.anchor, Concat(l.disk.files, l.segments, k), Rest(l, k).records);
  }

  /** The record number `i` after the anchor is found where it stands. */
  lemma FindInChain(mac: Mac, a: Anchor, records: seq<Record>, i: nat)
    requires Chained(mac, a, records) && i < |records|
    ensures Find(records, a.sequence + 1 + i, 0) == i
  {
    forall j | 0 <= j <= i ensures records[j].sequence == a.sequence + 1 + j { SequenceAt(mac, a, records, j); }
    FindAt(records, a.sequence + 1 + i, 0, i);
  }

  lemma AfterInChain(mac: Mac, a: Anchor, records: seq<Record>, k: nat)
    requires Chained(mac, a, records) && k <= |records|
    ensures After(records, |records|, a.sequence + k) == records[k..]
  {
    forall j | 0 <= j < |records| ensures records[j].sequence > a.sequence + k <==> j >= k { SequenceAt(mac, a, records, j); }
    AfterIs(records, |records|, a.sequence + k, k);
    assert records[k..|records|] == records[k..];
  }

  lemma HeadOfPrefix(mac: Mac, a: Anchor, records: seq<Record>, p: seq<Record>)
    requires Chained(mac, a, records) && p <= records && p != []
    ensures Head(a, p) == Anchor(a.sequence + |p|, records[|p| - 1].hash)
  {
    SequenceAt(mac, a, records, |p| - 1);
  }

  /** The records of the first `k` segments are the first of the log. */
  lemma FrontRecords(mac: Mac, lim: Limits, l: Log, k: nat)
    requires Good(mac, lim, l) && k <= |l.segments|
    ensures Concat(l.disk.files, l.segments, k) <= l.records
    ensures k > 0 ==> End(l, k) > 0
  {
    FrontOf(l.disk.files, l.segments, k, |l.segments|);
    if k > 0 { SegmentEnd(mac, lim, l, k - 1); }
  }

  lemma CutAnchor(mac: Mac, lim: Limits, l: Log, k: nat)
    requires Good(mac, lim, l) && 0 < k <= |l.segments|
    ensures var last := l.disk.anchor.sequence + End(l, k);
      && 0 < End(l, k) <= |l.records| && Find(l.records, last, 0) == End(l, k) - 1
      && Rest(l, k).disk.anchor == Anchor(last, l.records[End(l, k) - 1].hash)
  {
    FrontRecords(mac, lim, l, k);
    HeadOfPrefix(mac, l.disk.anchor, l.records, Concat(l.disk.files, l.segments, k));
    FindInChain(mac, l.disk.anchor, l.records, End(l, k) - 1);
  }

  lemma CutRecords(mac: Mac, lim: Limits, l: Log, k: nat)
    requires Good(mac, lim, l) && k <= |l.segments|
    ensures After(l.records, |l.records|, l.disk.anchor.sequence + End(l, k)) == Rest(l, k).records
  {
    FrontRecords(mac, lim, l, k);
    AfterInChain(mac, l.disk.anchor, l.records, End(l, k));
  }

  lemma GoneIsFront(mac: Mac, lim: Limits, l: Log, through: nat)
    requires Good(mac, lim, l)
    ensures Eligible(l.segments, |l.segments|, l.ranges, through) <= l.segments
  {
    GoodEndsGrow(mac, lim, l);
    EligibleIsPrefix(l.segments, |l.segments|, l.ranges, through);
  }

  lemma LastOfFront(mac: Mac, lim: Limits, l: Log, k: nat)
    requires Good(mac, lim, l) && 0 < k <= |l.segments|
    ensures LastOf(l.ranges, l.segments[..k], k) == l.disk.anchor.sequence + End(l, k)
  {
    GoodEndsGrow(mac, lim, l);
    assert EndsGrow(l.ranges, l.segments[..k]);
    LastOfPrefix(l.ranges, l.segments[..k], k);
    SegmentEnd(mac, lim, l, k - 1);
  }

  lemma PlanOf(l: Log, through: nat, expected: Hash, gone: seq<nat>, last: nat, j: nat)
    requires PlanPrune(l, through, expected).Ok? && gone == Eligible(l.segments, |l.segments|, l.ranges, through) && gone != []
    requires LastOf(l.ranges, gone, |gone|) == last && Find(l.records, last, 0) == j < |l.records|
    ensures PlanPrune(l, through, expected).value == Plan(Anchor(last, l.records[j].hash), gone)
  {
  }

  lemma PlanGone(l: Log, through: nat, expected: Hash)
    requires PlanPrune(l, through, expected).Ok?
    ensures PlanPrune(l, through, expected).value.gone == Eligible(l.segments, |l.segments|, l.ranges, through)
  {
  }

  lemma FrontPlan(mac: Mac, lim: Limits, l: Log, k: nat)
    requires Good(mac, lim, l) && 0 < k <= |l.segments|
    ensures var last := l.disk.anchor.sequence + End(l, k);
      && LastOf(l.ranges, l.segments[..k], k) == last && 0 < End(l, k) <= |l.records| && Find(l.records, last, 0) == End(l, k) - 1
      && Rest(l, k).disk.anchor == Anchor(last, l.records[End(l, k) - 1].hash)
  {
    LastOfFront(mac, lim, l, k);
    CutAnchor(mac, lim, l, k);
  }

  /** A prune that removes anything removes the first segments, up to a record of the chain. */
  lemma PlanIs(mac: Mac, lim: Limits, l: Log, through: nat, expected: Hash, gone: seq<nat>, k: nat)
    requires Good(mac, lim, l) && PlanPrune(l, through, expected).Ok?
    requires gone == Eligible(l.segments, |l.segments|, l.ranges, through) && gone != [] && k == |gone|
    ensures k <= |l.segments| && gone == l.segments[..k]
    ensures PlanPrune(l, through, expected).value == Plan(Rest(l, k).disk.anchor, gone)
    ensures Rest(l, k).disk.anchor.sequence == l.disk.anchor.sequence + End(l, k)
  {
    GoneIsFront(mac, lim, l, through);
    assert gone == l.segments[..k];
    FrontPlan(mac, lim, l, k);
    PlanOf(l, through, expected, gone, l.disk.anchor.sequence + End(l, k), End(l, k) - 1);
  }

  lemma PrunedBy(l: Log, through: nat, expected: Hash, p: Plan)
    requires PlanPrune(l, through, expected) == Ok(p) && p.gone != []
    ensures Prune(l, through, expected).0
         == Log(Disk(l.disk.files - Members(p.gone), p.anchor), After(l.records, |l.records|, p.anchor.sequence),
                Minus(l.segments, |l.segments|, Members(p.gone)), l.ranges - Members(p.gone))
  {
  }

  lemma PrunedIsRest(mac: Mac, lim: Limits, l: Log, through: nat, expected: Hash, gone: seq<nat>, k: nat)
    requires Good(mac, lim, l) && PlanPrune(l, through, expected).Ok?
    requires gone == Eligible(l.segments, |l.segments|, l.ranges, through) && gone != [] && k == |gone|
    ensures k <= |l.segments| && Prune(l, through, expected).0 == Rest(l, k)
  {
    PlanIs(mac, lim, l, through, expected, gone, k);
    CutRecords(mac, lim, l, k);
    PrunedTo(l, through, expected, k);
  }

  lemma PrunedTo(l: Log, through: nat, expected: Hash, k: nat)
    requires Ascending(l.segments) && 0 < k <= |l.segments|
    requires PlanPrune(l, through, expected) == Ok(Plan(Rest(l, k).disk.anchor, l.segments[..k]))
    requires After(l.records, |l.records|, Rest(l, k).disk.anchor.sequence) == Rest(l, k).records
    ensures Prune(l, through, expected).0 == Rest(l, k)
  {
    PrunedBy(l, through, expected, PlanPrune(l, through, expected).value);
    MinusPrefix(l.segments, k);
  }

  /** Pruning keeps the log good and drops only records up to the confirmed one. */
  lemma PruneKeeps(mac: Mac, lim: Limits, l: Log, through: nat, expected: Hash)
    requires Good(mac, lim, l)
    ensures Good(mac, lim, Prune(l, through, expected).0)
  {
    var p := PlanPrune(l, through, expected);
    if p.Ok? && p.value.gone != [] {
      PlanGone(l, through, expected);
      PrunedIsRest(mac, lim, l, through, expected, p.value.gone, |p.value.gone|);
      RestGood(mac, lim, l, |p.value.gone|);
    }
  }

  lemma {:induction false} EligibleMember(segments: seq<nat>, n: nat, ranges: map<nat, Range>, through: nat, i: nat)
    requires n <= |segments| && i < |Eligible(segments, n, ranges, through)|
    ensures var x := Eligible(segments, n, ranges, through)[i]; x in ranges && ranges[x].last <= through
  {
    if i < |Eligible(segments, n - 1, ranges, through)| { EligibleMember(segments, n - 1, ranges, through, i); }
  }

  lemma RestIsBack(mac: Mac, lim: Limits, l: Log, k: nat)
    requires Good(mac, lim, l) && 0 < k <= |l.segments|
    ensures var r := Rest(l, k);
      && |r.records| <= |l.records| && r.records == l.records[|l.records| - |r.records|..]
      && l.disk.anchor.sequence <= r.disk.anchor.sequence
      && l.segments[k - 1] in l.ranges && r.disk.anchor.sequence == l.ranges[l.segments[k - 1]].last
  {
    FrontRecords(mac, lim, l, k);
    CutAnchor(mac, lim, l, k);
    SegmentEnd(mac, lim, l, k - 1);
  }

  lemma RestConfirmed(mac: Mac, lim: Limits, l: Log, through: nat, gone: seq<nat>, k: nat)
    requires Good(mac, lim, l) && gone == Eligible(l.segments, |l.segments|, l.ranges, through) && gone != [] && k == |gone|
    requires k <= |l.segments| && gone == l.segments[..k]
    ensures Rest(l, k).disk.anchor.sequence <= through
  {
    EligibleMember(l.segments, |l.segments|, l.ranges, through, k - 1);
    RestIsBack(mac, lim, l, k);
  }

  /** What a prune drops is the front of the chain, and nothing after the confirmed record. */
  lemma PruneDropsConfirmed(mac: Mac, lim: Limits, l: Log, through: nat, expected: Hash)
    requires Good(mac, lim, l) && PlanPrune(l, through, expected).Ok?
    ensures var r := Prune(l, through, expected).0;
      && |r.records| <= |l.records| && r.records == l.records[|l.records| - |r.records|..]
      && l.disk.anchor.sequence <= r.disk.anchor.sequence
      && (r.disk.anchor.sequence > l.disk.anchor.sequence ==> r.disk.anchor.sequence <= through)
  {
    var gone := Eligible(l.segments, |l.segments|, l.ranges, through);
    PlanGone(l, through, expected);
    if gone != [] {
      PlanIs(mac, lim, l, through, expected, gone, |gone|);
      PrunedIsRest(mac, lim, l, through, expected, gone, |gone|);
      RestConfirmed(mac, lim, l, through, gone, |gone|);
      RestIsBack(mac, lim, l, |gone|);
    }
  }

  // ----- Crashes -----

  lemma {:induction false} AscendingCount(s: seq<nat>)
    requires Ascending(s)
    ensures |Members(s)| == |s|
  {
    if s != [] {
      MembersInit(s);
      LastIsNew(s);
      AscendingInit(s);
      AscendingCount(s[..|s| - 1]);
    }
  }

  lemma FewerNames(s: seq<nat>, t: seq<nat>)
    requires Ascending(s) && Ascending(t) && Members(s) <= Members(t)
    ensures |s| <= |t|
  {
    AscendingCount(s);
    AscendingCount(t);
    assert Members(t) == Members(s) + (Members(t) - Members(s));
  }

  lemma EndsBefore(mac: Mac, lim: Limits, l: Log, i: nat, k: nat)
    requires Good(mac, lim, l) && i <= k <= |l.segments|
    ensures End(l, i) <= End(l, k)
  {
    FrontOf(l.disk.files, l.segments, i, k);
  }

  lemma BehindEnd(mac: Mac, a: Anchor, p: seq<Record>, file: seq<Record>, last: nat)
    requires Chained(mac, a, p + file) && a.sequence + |p + file| <= last
    ensures forall j | 0 <= j < |file| :: file[j].sequence <= last
  {
    forall j | 0 <= j < |file| ensures file[j].sequence <= last {
      SequenceAt(mac, a, p + file, |p| + j);
    }
  }

  /** The files of the first `k` segments lie behind the record they end with. */
  lemma GoneIsStale(mac: Mac, lim: Limits, l: Log, k: nat, i: nat)
    requires Good(mac, lim, l) && i < k <= |l.segments|
    ensures l.segments[i] in l.disk.files && Stale(lim, Rest(l, k).disk.anchor, l.disk.files[l.segments[i]])
    ensures Rest(l, k).disk.anchor.sequence > 0
  {
    var n, p := l.segments[i], Concat(l.disk.files, l.segments, i);
    PrefixRecords(mac, lim, l, i);
    assert FileOk(lim, l, n);
    CutAnchor(mac, lim, l, k);
    EndsBefore(mac, lim, l, i + 1, k);
    BehindEnd(mac, l.disk.anchor, p, l.disk.files[n], Rest(l, k).disk.anchor.sequence);
  }

  lemma CrashLeavesLeftovers(mac: Mac, lim: Limits, l: Log, k: nat, unlinked: set<nat>)
    requires Good(mac, lim, l) && 0 < k <= |l.segments| && unlinked <= Members(l.segments[..k])
    ensures Leftover(lim, Rest(l, k), Disk(l.disk.files - unlinked, Rest(l, k).disk.anchor))
  {
    var r := Rest(l, k);
    var d := Disk(l.disk.files - unlinked, r.disk.anchor);
    forall n | n in d.files && n !in r.disk.files ensures d.anchor.sequence > 0 && Stale(lim, d.anchor, d.files[n]) {
      assert n in Members(l.segments[..k]);
      var i :| 0 <= i < k && l.segments[..k][i] == n;
      GoneIsStale(mac, lim, l, k, i);
    }
  }

  /** A crash after the anchor is written and any of the files are unlinked: reload completes the prune. */
  lemma CrashCompletesPrune(mac: Mac, lim: Limits, l: Log, through: nat, expected: Hash, unlinked: set<nat>, names: seq<nat>)
    requires Good(mac, lim, l) && PlanPrune(l, through, expected).Ok?
    requires var p := PlanPrune(l, through, expected).value;
      p.gone != [] && unlinked <= Members(p.gone) && IsListing(names, PruneDisk(l.disk, p, unlinked).files.Keys)
    ensures Reload(mac, lim, PruneDisk(l.disk, PlanPrune(l, through, expected).value, unlinked), names)
         == Ok(Prune(l, through, expected).0)
  {
    var p := PlanPrune(l, through, expected).value;
    var k := |p.gone|;
    PlanGone(l, through, expected);
    PlanIs(mac, lim, l, through, expected, p.gone, k);
    PrunedIsRest(mac, lim, l, through, expected, p.gone, k);
    RestGood(mac, lim, l, k);
    CrashLeavesLeftovers(mac, lim, l, k, unlinked);
    FewerNames(names, l.segments);
    ReloadGives(mac, lim, Rest(l, k), PruneDisk(l.disk, p, unlinked), names);
  }

  lemma ReloadSame(mac: Mac, lim: Limits, l: Log, names: seq<nat>)
    requires Good(mac, lim, l) && IsListing(names, l.disk.files.Keys)
    ensures Reload(mac, lim, l.disk, names) == Ok(l)
  {
    FewerNames(names, l.segments);
    ReloadGives(mac, lim, l, l.disk, names);
  }

  // ----- Runs -----

  /** `names` is the directory listing a restart finds. */
  datatype Step =
    | AppendStep(keyId: string, body: string, bytes: nat)
    | PruneStep(through: nat, expected: Hash)
    | RestartStep(names: seq<nat>)
    | CrashStep(through: nat, expected: Hash, unlinked: set<nat>, names: seq<nat>)

  ghost predicate Enabled(l: Log, step: Step) {
    match step
    case RestartStep(names) => IsListing(names, l.disk.files.Keys)
    case CrashStep(through, expected, unlinked, names) =>
      && PlanPrune(l, through, expected).Ok?
      && var p := PlanPrune(l, through, expected).value;
      p.gone != [] && unlinked <= Members(p.gone) && IsListing(names, PruneDisk(l.disk, p, unlinked).files.Keys)
    case _ => true
  }

  /** What the step leaves, or the error a reload raises. */
  ghost function Next(mac: Mac, lim: Limits, l: Log, step: Step): Result<Log>
    requires Enabled(l, step)
  {
    match step
    case AppendStep(keyId, body, bytes) => Ok(Append(mac, lim, l, keyId, body, bytes).0)
    case PruneStep(through, expected) => Ok(Prune(l, through, expected).0)
    case RestartStep(names) => Reload(mac, lim, l.disk, names)
    case CrashStep(through, expected, unlinked, names) =>
      Reload(mac, lim, PruneDisk(l.disk, PlanPrune(l, through, expected).value, unlinked), names)
  }

  ghost predicate IsRun(mac: Mac, lim: Limits, ls: seq<Log>, steps: seq<Step>) {
    && |ls| == |steps| + 1 && ls[0] == Fresh()
    && forall i | 0 <= i < |steps| :: Enabled(ls[i], steps[i]) && (Next(mac, lim, ls[i], steps[i]).Ok? ==> ls[i + 1] == Next(mac, lim, ls[i], steps[i]).value)
  }

  lemma NextKeeps(mac: Mac, lim: Limits, l: Log, step: Step)
    requires Good(mac, lim, l) && Enabled(l, step) && lim.maxSegments > 0
    ensures Next(mac, lim, l, step).Ok? && Good(mac, lim, Next(mac, lim, l, step).value)
    ensures step.RestartStep? ==> Next(mac, lim, l, step).value == l
    ensures step.CrashStep? ==> Next(mac, lim, l, step).value == Prune(l, step.through, step.expected).0
  {
    match step
    case AppendStep(keyId, body, bytes) => AppendKeeps(mac, lim, l, keyId, body, bytes);
    case PruneStep(through, expected) => PruneKeeps(mac, lim, l, through, expected);
    case RestartStep(names) => ReloadSame(mac, lim, l, names);
    case CrashStep(through, expected, unlinked, names) =>
      CrashCompletesPrune(mac, lim, l, through, expected, unlinked, names);
      PruneKeeps(mac, lim, l, through, expected);
  }

  lemma {:induction false} RunIsGood(mac: Mac, lim: Limits, ls: seq<Log>, steps: seq<Step>, n: nat)
    requires IsRun(mac, lim, ls, steps) && lim.maxSegments > 0 && n <= |steps|
    ensures Good(mac, lim, ls[n])
  {
    if n > 0 {
      RunIsGood(mac, lim, ls, steps, n - 1);
      NextKeeps(mac, lim, ls[n - 1], steps[n - 1]);
    }
  }

  /**
   Any log made by appends, rotations, prunes, restarts and crashes inside prunes is
   accepted by reload, which yields the same records, anchor, segments and ranges.
   */
  lemma ReloadReproduces(mac: Mac, lim: Limits, ls: seq<Log>, steps: seq<Step>, n: nat, names: seq<nat>)
    requires IsRun(mac, lim, ls, steps) && lim.maxSegments > 0 && n <= |steps| && IsListing(names, ls[n].disk.files.Keys)
    ensures Reload(mac, lim, ls[n].disk, names) == Ok(ls[n])
  {
    RunIsGood(mac, lim, ls, steps, n);
    ReloadSame(mac, lim, ls[n], names);
  }
}
