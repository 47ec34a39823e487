/** The segmented audit chain: append, rotation, pruning behind a signed anchor, and reload. */
module AuditModel {

  type Hash = string

  const ZeroHash: Hash := "0000000000000000000000000000000000000000000000000000000000000000"

  /** `bytes` is the length of the record's line. */
  datatype Record = Record(sequence: nat, previous: Hash, keyId: string, body: string, bytes: nat, hash: Hash)

  /** The keyed digest of a record's fields, opaque. */
  type Mac = (string, nat, Hash, string) -> Hash

  datatype Limits = Limits(segmentBytes: nat, maxSegments: nat, maxRecordBytes: nat)

  datatype Anchor = Anchor(sequence: nat, hash: Hash)

  /** What survives a crash: the segment files and the anchor. */
  datatype Disk = Disk(files: map<nat, seq<Record>>, anchor: Anchor)

  datatype Range = Range(first: nat, last: nat)

  datatype Log = Log(disk: Disk, records: seq<Record>, segments: seq<nat>, ranges: map<nat, Range>)

  datatype Error = Capacity | BadChain | Mismatch

  datatype Result<+T> = Ok(value: T) | Err(error: Error)

  function Fresh(): Log {
    Log(Disk(map[], Anchor(0, ZeroHash)), [], [], map[])
  }

  function Head(a: Anchor, records: seq<Record>): Anchor {
    if records == [] then a else Anchor(records[|records| - 1].sequence, records[|records| - 1].hash)
  }

  function FileSize(file: seq<Record>): nat {
    if file == [] then 0 else FileSize(file[..|file| - 1]) + file[|file| - 1].bytes
  }

  function FileOf(d: Disk, n: nat): seq<Record> {
    if n in d.files then d.files[n] else []
  }

  function SegmentFor(lim: Limits, l: Log, bytes: nat): Result<nat> {
    if l.segments == [] then Ok(1)
    else
      var current := l.segments[|l.segments| - 1];
      if FileSize(FileOf(l.disk, current)) + bytes <= lim.segmentBytes then Ok(current)
      else if |l.segments| >= lim.maxSegments then Err(Capacity)
      else Ok(current + 1)
  }

  function MakeRecord(mac: Mac, head: Anchor, keyId: string, body: string, bytes: nat): Record {
    Record(head.sequence + 1, head.hash, keyId, body, bytes, mac(keyId, head.sequence + 1, head.hash, body))
  }

  /** Write the record at the end of segment `n`. */
  function Extend(l: Log, n: nat, r: Record): Log {
    Log(l.disk.(files := l.disk.files[n := FileOf(l.disk, n) + [r]]),
        l.records + [r],
        if n in l.segments then l.segments else l.segments + [n],
        l.ranges[n := Range(if n in l.ranges then l.ranges[n].first else r.sequence, r.sequence)])
  }

  function Append(mac: Mac, lim: Limits, l: Log, keyId: string, body: string, bytes: nat): (Log, Result<Record>) {
    var r := MakeRecord(mac, Head(l.disk.anchor, l.records), keyId, body, bytes);
    if bytes > lim.maxRecordBytes then (l, Err(Capacity))
    else
      var n := SegmentFor(lim, l, bytes);
      if n.Err? then (l, Err(n.error)) else (Extend(l, n.value, r), Ok(r))
  }

  // ----- Pruning -----

  /** The first record at or after `i` with that sequence number, or the end. */
  function Find(records: seq<Record>, sequence: nat, i: nat): (j: nat)
    requires i <= |records|
    ensures j <= |records| && (j < |records| ==> records[j].sequence == sequence)
    decreases |records| - i
  {
    if i == |records| || records[i].sequence == sequence then i else Find(records, sequence, i + 1)
  }

  /** Of the first `n` segments those that end at or before `through`, in order. */
  function Eligible(segments: seq<nat>, n: nat, ranges: map<nat, Range>, through: nat): seq<nat>
    requires n <= |segments|
  {
    if n == 0 then []
    else
      var s := segments[n - 1];
      Eligible(segments, n - 1, ranges, through) + (if s in ranges && ranges[s].last <= through then [s] else [])
  }

  /** The greatest range end of the first `n` segments. */
  function LastOf(ranges: map<nat, Range>, segments: seq<nat>, n: nat): nat
    requires n <= |segments|
  {
    if n == 0 then 0
    else
      var s, m := segments[n - 1], LastOf(ranges, segments, n - 1);
      if s in ranges && ranges[s].last > m then ranges[s].last else m
  }

  function Minus(segments: seq<nat>, n: nat, gone: set<nat>): seq<nat>
    requires n <= |segments|
  {
    if n == 0 then [] else Minus(segments, n - 1, gone) + (if segments[n - 1] in gone then [] else [segments[n - 1]])
  }

  function After(records: seq<Record>, n: nat, sequence: nat): seq<Record>
    requires n <= |records|
  {
    if n == 0 then [] else After(records, n - 1, sequence) + (if records[n - 1].sequence > sequence then [records[n - 1]] else [])
  }

  function Members(segments: seq<nat>): set<nat> {
    set i | 0 <= i < |segments| :: segments[i]
  }

  /** What a prune will do: the new anchor and the segments to remove. */
  datatype Plan = Plan(anchor: Anchor, gone: seq<nat>)

  function PlanPrune(l: Log, through: nat, expected: Hash): Result<Plan> {
    var i := Find(l.records, through, 0);
    if i == |l.records| || l.records[i].hash != expected then Err(Mismatch)
    else
      var gone := Eligible(l.segments, |l.segments|, l.ranges, through);
      if gone == [] then Ok(Plan(l.disk.anchor, []))
      else
        var last := LastOf(l.ranges, gone, |gone|);
        var j := Find(l.records, last, 0);
        if j == |l.records| then Err(Mismatch) else Ok(Plan(Anchor(last, l.records[j].hash), gone))
  }

  /** The disk once the anchor is written and the files `unlinked` are gone. */
  function PruneDisk(d: Disk, p: Plan, unlinked: set<nat>): Disk {
    Disk(d.files - unlinked, p.anchor)
  }

  function Prune(l: Log, through: nat, expected: Hash): (Log, Result<nat>) {
    var p := PlanPrune(l, through, expected);
    if p.Err? then (l, Err(p.error))
    else if p.value.gone == [] then (l, Ok(0))
    else
      (Log(PruneDisk(l.disk, p.value, Members(p.value.gone)),
           After(l.records, |l.records|, p.value.anchor.sequence),
           Minus(l.segments, |l.segments|, Members(p.value.gone)),
           l.ranges - Members(p.value.gone)),
       Ok(|p.value.gone|))
  }

  // ----- Reload -----

  /** Where verification has got to: the last hash and sequence, and the records kept. */
  datatype Chain = Chain(head: Anchor, records: seq<Record>)

  /** One line: skipped when behind the anchor, else checked against the chain. */
  function ReadRecord(mac: Mac, lim: Limits, anchor: Anchor, c: Chain, r: Record): Result<Chain> {
    if r.bytes > lim.maxRecordBytes then Err(Capacity)
    else if r.sequence <= anchor.sequence then Ok(c)
    else if r.hash != mac(r.keyId, r.sequence, r.previous, r.body) || r.previous != c.head.hash || r.sequence != c.head.sequence + 1
    then Err(BadChain)
    else Ok(Chain(Anchor(r.sequence, r.hash), c.records + [r]))
  }

  function ReadFile(mac: Mac, lim: Limits, anchor: Anchor, c: Chain, file: seq<Record>): Result<Chain> {
    if file == [] then Ok(c)
    else
      var before := ReadFile(mac, lim, anchor, c, file[..|file| - 1]);
      if before.Err? then before else ReadRecord(mac, lim, anchor, before.value, file[|file| - 1])
  }

  /** Reload part way through the segment files. */
  datatype Loading = Loading(chain: Chain, segments: seq<nat>, ranges: map<nat, Range>, files: map<nat, seq<Record>>)

  function ReadSegment(mac: Mac, lim: Limits, anchor: Anchor, s: Loading, n: nat): Result<Loading>
    requires n in s.files
  {
    if FileSize(s.files[n]) > lim.segmentBytes + lim.maxRecordBytes then Err(Capacity)
    else
      var c := ReadFile(mac, lim, anchor, s.chain, s.files[n]);
      if c.Err? then Err(c.error)
      else if c.value.head.sequence > s.chain.head.sequence then
        Ok(Loading(c.value, s.segments + [n], s.ranges[n := Range(s.chain.head.sequence + 1, c.value.head.sequence)], s.files))
      else if anchor.sequence > 0 then Ok(s.(chain := c.value, files := s.files - {n}))
      else Ok(s.(chain := c.value, segments := s.segments + [n]))
  }

  function ReadSegments(mac: Mac, lim: Limits, d: Disk, names: seq<nat>): Result<Loading> {
    if names == [] then Ok(Loading(Chain(d.anchor, []), [], map[], d.files))
    else
      var before := ReadSegments(mac, lim, d, names[..|names| - 1]);
      if before.Err? then before
      else if names[|names| - 1] !in before.value.files then Err(Mismatch)
      else ReadSegment(mac, lim, d.anchor, before.value, names[|names| - 1])
  }

  /** Reload; `names` lists the segment files in ascending order. */
  function Reload(mac: Mac, lim: Limits, d: Disk, names: seq<nat>): Result<Log> {
    if |names| > lim.maxSegments then Err(Capacity)
    else
      var s := ReadSegments(mac, lim, d, names);
      if s.Err? then Err(s.error)
      else Ok(Log(Disk(s.value.files, d.anchor), s.value.chain.records, s.value.segments, s.value.ranges))
  }
}
