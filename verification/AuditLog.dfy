/** The audit log with its memory and files updated in place. */
module AuditLogs {
  import opened AuditModel

  class AuditLog {
    const mac: Mac
    const lim: Limits
    var files: map<nat, seq<Record>>
    var anchor: Anchor
    var records: seq<Record>
    var segments: seq<nat>
    var ranges: map<nat, Range>

    function State(): Log
      reads this
    {
      Log(Disk(files, anchor), records, segments, ranges)
    }

    constructor (mac: Mac, lim: Limits)
      ensures State() == Fresh() && this.mac == mac && this.lim == lim
    {
      this.mac, this.lim := mac, lim;
      files, anchor, records, segments, ranges := map[], Anchor(0, ZeroHash), [], [], map[];
    }

    method SizeOf(file: seq<Record>) returns (size: nat)
      ensures size == FileSize(file)
    {
      size := 0;
      var i := 0;
      while i < |file|
        invariant i <= |file| && size == FileSize(file[..i])
      {
        assert file[..i + 1][..i] == file[..i];
        size, i := size + file[i].bytes, i + 1;
      }
      assert file[..i] == file;
    }

    method ChooseSegment(bytes: nat) returns (out: Result<nat>)
      ensures out == SegmentFor(lim, State(), bytes)
    {
      if segments == [] {
        return Ok(1);
      }
      var current := segments[|segments| - 1];
      var size := SizeOf(if current in files then files[current] else []);
      if size + bytes <= lim.segmentBytes {
        return Ok(current);
      }
      if |segments| >= lim.maxSegments {
        return Err(Capacity);
      }
      return Ok(current + 1);
    }

    method AppendRecord(keyId: string, body: string, bytes: nat) returns (out: Result<Record>)
      modifies this
      ensures (State(), out) == Append(mac, lim, old(State()), keyId, body, bytes)
    {
      var head := Head(anchor, records);
      var r := MakeRecord(mac, head, keyId, body, bytes);
      if bytes > lim.maxRecordBytes {
        return Err(Capacity);
      }
      var n := ChooseSegment(bytes);
      if n.Err? {
        return Err(n.error);
      }
      Write(n.value, r);
      out := Ok(r);
    }

    method Write(n: nat, r: Record)
      modifies this
      ensures State() == Extend(old(State()), n, r)
    {
      files := files[n := (if n in files then files[n] else []) + [r]];
      records := records + [r];
      segments := if n in segments then segments else segments + [n];
      ranges := ranges[n := Range(if n in ranges then ranges[n].first else r.sequence, r.sequence)];
    }

    method FindRecord(sequence: nat) returns (i: nat)
      ensures i == Find(records, sequence, 0)
    {
      i := 0;
      while i < |records| && records[i].sequence != sequence
        invariant i <= |records| && Find(records, sequence, 0) == Find(records, sequence, i)
      {
        i := i + 1;
      }
    }

    method EligibleSegments(through: nat) returns (gone: seq<nat>)
      ensures gone == Eligible(segments, |segments|, ranges, through)
    {
      gone := [];
      var i := 0;
      while i < |segments|
        invariant i <= |segments| && gone == Eligible(segments, i, ranges, through)
      {
        if segments[i] in ranges && ranges[segments[i]].last <= through {
          gone := gone + [segments[i]];
        }
        i := i + 1;
      }
    }

    method GreatestEnd(gone: seq<nat>) returns (last: nat)
      ensures last == LastOf(ranges, gone, |gone|)
    {
      last := 0;
      var i := 0;
      while i < |gone|
        invariant i <= |gone| && last == LastOf(ranges, gone, i)
      {
        if gone[i] in ranges && ranges[gone[i]].last > last {
          last := ranges[gone[i]].last;
        }
        i := i + 1;
      }
    }

    method PruneExported(through: nat, expected: Hash) returns (out: Result<nat>)
      modifies this
      ensures (State(), out) == Prune(old(State()), through, expected)
    {
      var i := FindRecord(through);
      if i == |records| || records[i].hash != expected {
        return Err(Mismatch);
      }
      var gone := EligibleSegments(through);
      if gone == [] {
        return Ok(0);
      }
      var last := GreatestEnd(gone);
      var j := FindRecord(last);
      if j == |records| {
        return Err(Mismatch);
      }
      anchor := Anchor(last, records[j].hash);
      Unlink(gone);
      segments := KeepSegments(Members(gone));
      records := KeepRecords(last);
      out := Ok(|gone|);
    }

    /** Remove the files and ranges one by one. */
    method Unlink(gone: seq<nat>)
      modifies this`files, this`ranges
      ensures files == old(files) - Members(gone) && ranges == old(ranges) - Members(gone)
    {
      var i := 0;
      assert Members(gone[..0]) == {};
      assert files == old(files) - {} && ranges == old(ranges) - {};
      while i < |gone|
        invariant i <= |gone| && files == old(files) - Members(gone[..i]) && ranges == old(ranges) - Members(gone[..i])
      {
        OneMore(gone, i);
        files, ranges := files - {gone[i]}, ranges - {gone[i]};
        i := i + 1;
      }
      assert gone[..i] == gone;
    }

    static lemma OneMore(gone: seq<nat>, i: nat)
      requires i < |gone|
      ensures Members(gone[..i + 1]) == Members(gone[..i]) + {gone[i]}
    {
      assert gone[..i + 1] == gone[..i] + [gone[i]];
      forall x | x in Members(gone[..i]) ensures x in Members(gone[..i + 1]) {
        var k :| 0 <= k < i && gone[..i][k] == x;
        assert gone[..i + 1][k] == x;
      }
      assert gone[..i + 1][i] == gone[i];
    }

    method KeepSegments(gone: set<nat>) returns (kept: seq<nat>)
      ensures kept == Minus(segments, |segments|, gone)
    {
      kept := [];
      var i := 0;
      while i < |segments|
        invariant i <= |segments| && kept == Minus(segments, i, gone)
      {
        if segments[i] !in gone {
          kept := kept + [segments[i]];
        }
        i := i + 1;
      }
    }

    method KeepRecords(last: nat) returns (kept: seq<Record>)
      ensures kept == After(records, |records|, last)
    {
      kept := [];
      var i := 0;
      while i < |records|
        invariant i <= |records| && kept == After(records, i, last)
      {
        if records[i].sequence > last {
          kept := kept + [records[i]];
        }
        i := i + 1;
      }
    }

    // ----- Reload -----

    method VerifyFile(c: Chain, file: seq<Record>) returns (out: Result<Chain>)
      ensures out == ReadFile(mac, lim, anchor, c, file)
    {
      var chain, i := c, 0;
      while i < |file|
        invariant i <= |file| && ReadFile(mac, lim, anchor, c, file[..i]) == Ok(chain)
      {
        assert file[..i + 1][..i] == file[..i];
        var next := ReadRecord(mac, lim, anchor, chain, file[i]);
        if next.Err? {
          FailsOnward(c, file, i + 1, |file|);
          assert file[..|file|] == file;
          return next;
        }
        chain, i := next.value, i + 1;
      }
      assert file[..i] == file;
      out := Ok(chain);
    }

    /** An error in a prefix of the file is the outcome of reading it. */
    lemma {:induction false} FailsOnward(c: Chain, file: seq<Record>, i: nat, n: nat)
      requires i <= n <= |file| && ReadFile(mac, lim, anchor, c, file[..i]).Err?
      ensures ReadFile(mac, lim, anchor, c, file[..n]) == ReadFile(mac, lim, anchor, c, file[..i])
      decreases n
    {
      if i < n {
        FailsOnward(c, file, i, n - 1);
        assert file[..n][..n - 1] == file[..n - 1];
      }
    }

    /** Size check, chain verification, and the segment's range; a file behind the anchor is unlinked. */
    method VerifySegment(s: Loading, n: nat) returns (out: Result<Loading>)
      requires n in s.files
      ensures out == ReadSegment(mac, lim, anchor, s, n)
    {
      var size := SizeOf(s.files[n]);
      if size > lim.segmentBytes + lim.maxRecordBytes {
        return Err(Capacity);
      }
      var c := VerifyFile(s.chain, s.files[n]);
      if c.Err? {
        return Err(c.error);
      }
      var before, after := s.chain.head.sequence, c.value.head.sequence;
      if after > before {
        out := Ok(Loading(c.value, s.segments + [n], s.ranges[n := Range(before + 1, after)], s.files));
      } else if anchor.sequence > 0 {
        out := Ok(s.(chain := c.value, files := s.files - {n}));
      } else {
        out := Ok(s.(chain := c.value, segments := s.segments + [n]));
      }
    }

    /** Verify the segment files in ascending order, unlinking those behind the anchor. */
    method Load(names: seq<nat>) returns (out: Result<Loading>)
      ensures out == ReadSegments(mac, lim, Disk(files, anchor), names)
    {
      var s, i := Loading(Chain(anchor, []), [], map[], files), 0;
      while i < |names|
        invariant i <= |names| && ReadSegments(mac, lim, Disk(files, anchor), names[..i]) == Ok(s)
      {
        assert names[..i + 1][..i] == names[..i];
        var next := Err(Mismatch);
        if names[i] in s.files {
          next := VerifySegment(s, names[i]);
        }
        if next.Err? {
          LoadFailsOnward(names, i + 1, |names|);
          assert names[..|names|] == names;
          return next;
        }
        s, i := next.value, i + 1;
      }
      assert names[..i] == names;
      out := Ok(s);
    }

    lemma {:induction false} LoadFailsOnward(names: seq<nat>, i: nat, n: nat)
      requires i <= n <= |names| && ReadSegments(mac, lim, Disk(files, anchor), names[..i]).Err?
      ensures ReadSegments(mac, lim, Disk(files, anchor), names[..n]) == ReadSegments(mac, lim, Disk(files, anchor), names[..i])
      decreases n
    {
      if i < n {
        LoadFailsOnward(names, i, n - 1);
        assert names[..n][..n - 1] == names[..n - 1];
      }
    }

    /** Start from what the disk holds. */
    method Restart(names: seq<nat>) returns (ok: bool)
      modifies this
      ensures var r := Reload(mac, lim, old(State()).disk, names);
        ok == r.Ok? && (ok ==> State() == r.value)
    {
      if |names| > lim.maxSegments {
        return false;
      }
      var s := Load(names);
      if s.Err? {
        return false;
      }
      files, records, segments, ranges := s.value.files, s.value.chain.records, s.value.segments, s.value.ranges;
      ok := true;
    }
  }
}
