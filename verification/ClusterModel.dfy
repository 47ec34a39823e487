/**
 The replicated store as a state and pure transitions: membership and fencing,
 quorum writes, deletes and reads, read repair, tombstone collection, flush,
 snapshots and bootstrap.

 A transition reads the clock once (`now`).  What the storage engine of a node
 does to a call is a parameter: `Faults` for writes, sets of nodes for reads and
 repairs.  A node that fails is restored to its checkpoint, which is the exact
 earlier state (see `EngineJournal`).
 */
module ClusterModel {
  import opened HashRing

  type Key = string
  type Value = string

  datatype Option<+T> = None | Some(value: T)

  datatype Version = Version(term: nat, seqno: nat, leader: NodeId) {
    predicate Less(other: Version) {
      || term < other.term
      || (term == other.term && seqno < other.seqno)
      || (term == other.term && seqno == other.seqno && leader < other.leader)
    }
  }

  datatype Meta = Meta(version: Version, deleted: bool)

  datatype Fence = Fence(term: nat, leader: NodeId)

  datatype Status = Active | Joining | Draining | Down | Drained | Removing | Removed

  datatype Node = Node(status: Status, heartbeat: int)

  datatype Profile = One | Majority | All {
    function Required(replicas: nat): nat {
      match this
      case One => 1
      case Majority => replicas / 2 + 1
      case All => replicas
    }
  }

  datatype Error = QuorumError | FenceError | StorageError | LimitError | SnapshotError | RebalanceError

  datatype Outcome<+T> = Ok(value: T) | Err(error: Error)

  /** What a node's engine does to a write: succeed, reject it in validation,
      fail in a way the coordinator tolerates, or fail the whole operation. */
  datatype Fault = Fine | Rejects | Soft | Hard

  type Faults = map<NodeId, Fault>

  function FaultOf(faults: Faults, n: NodeId): Fault {
    if n in faults then faults[n] else Fine
  }

  datatype Config = Config(replicas: nat, timeout: int, tombstoneLimit: nat, token: Key -> nat)

  /** `order` is the insertion order of the node dictionary. */
  datatype Cluster = Cluster(
    ring: Ring,
    order: seq<NodeId>,
    nodes: map<NodeId, Node>,
    stores: map<NodeId, map<Key, Value>>,
    metadata: map<NodeId, map<Key, Meta>>,
    term: nat,
    sequence: nat,
    leader: NodeId,
    watermark: Option<Version>,
    catalog: set<Key>)

  ghost predicate WellFormed(c: Config, s: Cluster) {
    && c.replicas > 0
    && s.ring.Valid()
    && (forall n | n in s.ring.nodes :: n in s.nodes)
    && s.stores.Keys == s.nodes.Keys
    && s.metadata.Keys == s.nodes.Keys
    && (forall n :: n in s.order <==> n in s.nodes)
  }

  function Owners(c: Config, s: Cluster, k: Key): seq<NodeId> {
    s.ring.Owners(c.token(k), c.replicas)
  }

  function MetaAt(s: Cluster, n: NodeId, k: Key): Option<Meta> {
    if n in s.metadata && k in s.metadata[n] then Some(s.metadata[n][k]) else None
  }

  function EntryAt(s: Cluster, n: NodeId, k: Key): Option<Value> {
    if n in s.stores && k in s.stores[n] then Some(s.stores[n][k]) else None
  }

  /** The members of `ns` that are in `keep`, in order. */
  function Select(ns: seq<NodeId>, keep: set<NodeId>): seq<NodeId> {
    if ns == [] then []
    else
      var x := ns[|ns| - 1];
      Select(ns[..|ns| - 1], keep) + (if x in keep then [x] else [])
  }

  // ----- Membership and fencing -----

  predicate LiveStatus(st: Status) {
    st == Active || st == Joining || st == Draining
  }

  predicate Healthy(c: Config, node: Node, now: int) {
    LiveStatus(node.status) && now - node.heartbeat <= c.timeout
  }

  /** The healthy nodes at `now`. */
  function Up(c: Config, s: Cluster, now: int): set<NodeId> {
    set n | n in s.nodes && Healthy(c, s.nodes[n], now)
  }

  function Least(ns: seq<NodeId>): NodeId
    requires ns != []
  {
    var x := ns[|ns| - 1];
    if |ns| == 1 then x
    else
      var m := Least(ns[..|ns| - 1]);
      if x < m then x else m
  }

  /** A new term starts exactly when the leader is no longer a healthy ring member. */
  function Elect(c: Config, s: Cluster, now: int): Cluster {
    var candidates := Select(s.order, s.ring.nodes * Up(c, s, now));
    if s.leader in candidates then s
    else s.(term := s.term + 1, leader := if candidates == [] then s.leader else Least(candidates))
  }

  function TimedOut(c: Config, s: Cluster, now: int): set<NodeId> {
    set n | n in s.nodes && LiveStatus(s.nodes[n].status) && now - s.nodes[n].heartbeat > c.timeout
  }

  function MarkDown(nodes: map<NodeId, Node>, failed: set<NodeId>): map<NodeId, Node> {
    map n | n in nodes :: if n in failed then nodes[n].(status := Down) else nodes[n]
  }

  function Detect(c: Config, s: Cluster, now: int): Cluster {
    var failed := TimedOut(c, s, now);
    if failed == {} then s else Elect(c, s.(nodes := MarkDown(s.nodes, failed)), now)
  }

  predicate FenceHolds(s: Cluster, fence: Option<Fence>) {
    fence.Some? ==> fence.value == Fence(s.term, s.leader)
  }

  function Stamp(s: Cluster, i: nat): Version {
    Version(s.term, s.sequence + i, s.leader)
  }

  // ----- Writes -----

  function PutCell(store: map<Key, Value>, k: Key, e: Option<Value>): map<Key, Value> {
    if e.Some? then store[k := e.value] else store - {k}
  }

  function InstallStores(stores: map<NodeId, map<Key, Value>>, targets: set<NodeId>, k: Key, e: Option<Value>)
    : map<NodeId, map<Key, Value>>
  {
    map n | n in stores :: if n in targets then PutCell(stores[n], k, e) else stores[n]
  }

  function InstallMeta(metadata: map<NodeId, map<Key, Meta>>, targets: set<NodeId>, k: Key, m: Meta)
    : map<NodeId, map<Key, Meta>>
  {
    map n | n in metadata :: if n in targets then metadata[n][k := m] else metadata[n]
  }

  /** Install the same cell for `k` on every node of `targets`. */
  function Install(s: Cluster, targets: set<NodeId>, k: Key, e: Option<Value>, m: Meta): Cluster {
    s.(stores := InstallStores(s.stores, targets, k, e), metadata := InstallMeta(s.metadata, targets, k, m))
  }

  function WithFault(ns: seq<NodeId>, faults: Faults, f: Fault): set<NodeId> {
    set n | n in ns && FaultOf(faults, n) == f
  }

  /** All-or-nothing quorum write: on any error the state is untouched, the sequence included. */
  function ReplicatePut(c: Config, s: Cluster, k: Key, v: Value, p: Profile, up: set<NodeId>, faults: Faults)
    : (Cluster, Outcome<()>)
  {
    var owners := Owners(c, s, k);
    var available := Select(owners, up);
    var required := p.Required(|owners|);
    var fine := WithFault(available, faults, Fine);
    if |available| < required then (s, Err(QuorumError))
    else if WithFault(available, faults, Rejects) != {} then (s, Err(StorageError))
    else if WithFault(available, faults, Hard) != {} then (s, Err(StorageError))
    else if |Select(available, fine)| < required then (s, Err(QuorumError))
    else (Install(s, fine, k, Some(v), Meta(Stamp(s, 1), false)).(sequence := s.sequence + 1), Ok(()))
  }

  function Put(c: Config, s: Cluster, k: Key, v: Value, p: Profile, fence: Option<Fence>, faults: Faults, now: int)
    : (Cluster, Outcome<()>)
  {
    var s1 := Detect(c, s, now);
    if !FenceHolds(s1, fence) then (s1, Err(FenceError))
    else
      var (s2, r) := ReplicatePut(c, s1, k, v, p, Up(c, s1, now), faults);
      if r.Ok? then (s2.(catalog := s2.catalog + {k}), r) else (s2, r)
  }

  // ----- Latest metadata and tombstone collection -----

  /** First maximal metadata for `k` along `ns`, as `max` picks it. */
  function LatestIn(metadata: map<NodeId, map<Key, Meta>>, ns: seq<NodeId>, k: Key): Option<Meta> {
    if ns == [] then None
    else
      var best := LatestIn(metadata, ns[..|ns| - 1], k);
      var n := ns[|ns| - 1];
      if n in metadata && k in metadata[n] && (best.None? || best.value.version.Less(metadata[n][k].version))
      then Some(metadata[n][k]) else best
  }

  function Latest(s: Cluster, k: Key): Option<Meta> {
    LatestIn(s.metadata, s.order, k)
  }

  predicate HasRecord(s: Cluster, n: NodeId, k: Key, expected: Meta) {
    var m := MetaAt(s, n, k);
    m.Some? && m.value.version == expected.version && (m.value.deleted <==> EntryAt(s, n, k).None?)
  }

  predicate Collectable(c: Config, s: Cluster, k: Key, up: set<NodeId>) {
    var latest := Latest(s, k);
    && latest.Some? && latest.value.deleted
    && forall n | n in Owners(c, s, k) :: n in up && HasRecord(s, n, k, latest.value)
  }

  function Raise(watermark: Option<Version>, v: Version): Option<Version> {
    if watermark.None? || watermark.value.Less(v) then Some(v) else watermark
  }

  function DropKey(metadata: map<NodeId, map<Key, Meta>>, k: Key): map<NodeId, map<Key, Meta>> {
    map n | n in metadata :: metadata[n] - {k}
  }

  /** Forget a tombstone that every owner is known to hold; the watermark remembers it. */
  function Collect(c: Config, s: Cluster, k: Key, up: set<NodeId>): Cluster {
    if !Collectable(c, s, k, up) then s
    else s.(metadata := DropKey(s.metadata, k),
            watermark := Raise(s.watermark, Latest(s, k).value.version),
            catalog := s.catalog - {k})
  }

  function CollectAll(c: Config, s: Cluster, keys: seq<Key>, up: set<NodeId>): Cluster {
    if keys == [] then s else Collect(c, CollectAll(c, s, keys[..|keys| - 1], up), keys[|keys| - 1], up)
  }

  // ----- Reads and read repair -----

  datatype Lookup = Miss | Hit(value: Value)

  datatype Response = Response(node: NodeId, entry: Option<Value>, meta: Option<Meta>) {
    function Newness(): Version {
      if meta.None? then Version(0, 0, node) else meta.value.version
    }
    function Rank(): nat {
      if meta.Some? && meta.value.deleted then 2 else if entry.Some? then 1 else 0
    }
    predicate Beats(other: Response) {
      other.Newness().Less(Newness()) || (Newness() == other.Newness() && Rank() > other.Rank())
    }
  }

  function ResponseOf(s: Cluster, n: NodeId, k: Key): Response {
    Response(n, EntryAt(s, n, k), MetaAt(s, n, k))
  }

  /** The first response that no other beats. */
  function Winner(s: Cluster, ns: seq<NodeId>, k: Key): Response
    requires ns != []
  {
    var last := ResponseOf(s, ns[|ns| - 1], k);
    if |ns| == 1 then last
    else
      var best := Winner(s, ns[..|ns| - 1], k);
      if last.Beats(best) then last else best
  }

  function Answer(w: Response): Lookup {
    if w.meta.Some? && w.meta.value.deleted then Miss
    else if w.entry.None? then Miss
    else Hit(w.entry.value)
  }

  /** The replicas `_read_repair_locked` rewrites with the winner's record. */
  predicate NeedsRepair(s: Cluster, k: Key, w: Response, n: NodeId) {
    var m := MetaAt(s, n, k);
    && w.meta.Some?
    && n != w.node
    && !(m.Some? && w.meta.value.version.Less(m.value.version))
    && !(m.Some? && m.value.version == w.meta.value.version
         && (w.meta.value.deleted <==> EntryAt(s, n, k).None?))
  }

  function Repair(s: Cluster, k: Key, w: Response, ns: seq<NodeId>, broken: set<NodeId>): Cluster {
    if w.meta.None? then s
    else
      var targets := set n | n in ns && n !in broken && NeedsRepair(s, k, w, n);
      Install(s, targets, k, if w.meta.value.deleted then None else w.entry, w.meta.value)
  }

  /** `mute` nodes raise on `get`; `broken` nodes raise while being repaired. */
  function Read(c: Config, s: Cluster, k: Key, p: Profile, up: set<NodeId>, mute: set<NodeId>, broken: set<NodeId>)
    : (Cluster, Outcome<Lookup>)
  {
    var owners := Owners(c, s, k);
    var answering := Select(owners, up - mute);
    var asked := if p.One? && answering != [] then answering[..1] else answering;
    var required := p.Required(|owners|);
    if |Select(owners, up)| < required || |asked| < required || asked == [] then (s, Err(QuorumError))
    else
      var w := Winner(s, asked, k);
      if p.One? then (s, Ok(Answer(w)))
      else (Collect(c, Repair(s, k, w, asked, broken), k, up), Ok(Answer(w)))
  }

  function Get(c: Config, s: Cluster, k: Key, p: Profile, mute: set<NodeId>, broken: set<NodeId>, now: int)
    : (Cluster, Outcome<Lookup>)
  {
    var s1 := Detect(c, s, now);
    Read(c, s1, k, p, Up(c, s1, now), mute, broken)
  }

  // ----- Deletes -----

  function Available(c: Config, s: Cluster, k: Key, up: set<NodeId>): seq<NodeId> {
    Select(Owners(c, s, k), up)
  }

  predicate Reachable(c: Config, s: Cluster, k: Key, p: Profile, up: set<NodeId>) {
    |Available(c, s, k, up)| >= p.Required(|Owners(c, s, k)|)
  }

  function Tombstones(s: Cluster): set<Key> {
    set k | k in s.catalog && Latest(s, k).Some? && Latest(s, k).value.deleted
  }

  /** Keys whose new tombstone some owner will miss. */
  function Risky(c: Config, s: Cluster, keys: seq<Key>, up: set<NodeId>): set<Key> {
    set k | k in keys
      && (Latest(s, k).None? || !Latest(s, k).value.deleted)
      && |Available(c, s, k, up)| < |Owners(c, s, k)|
  }

  type Reader = (Cluster, Key) -> (Cluster, Outcome<Lookup>)

  /** Read the keys in turn, counting the hits, and stop at the first error. */
  function ReadEach(s: Cluster, keys: seq<Key>, read: Reader): (Cluster, Outcome<nat>) {
    if keys == [] then (s, Ok(0))
    else
      var (s1, r1) := ReadEach(s, keys[..|keys| - 1], read);
      if r1.Err? then (s1, r1)
      else
        var (s2, r2) := read(s1, keys[|keys| - 1]);
        if r2.Err? then (s2, Err(r2.error)) else (s2, Ok(r1.value + if r2.value.Hit? then 1 else 0))
  }

  function ReaderOf(c: Config, p: Profile, up: set<NodeId>, mute: set<NodeId>, broken: set<NodeId>): Reader {
    (s, k) => Read(c, s, k, p, up, mute, broken)
  }

  /** The reads a delete makes first; they may repair and collect. */
  function ReadAll(c: Config, s: Cluster, keys: seq<Key>, p: Profile, up: set<NodeId>, mute: set<NodeId>, broken: set<NodeId>)
    : (Cluster, Outcome<nat>)
  {
    ReadEach(s, keys, ReaderOf(c, p, up, mute, broken))
  }

  function Participants(c: Config, s: Cluster, keys: seq<Key>, up: set<NodeId>): set<NodeId> {
    set k, n | k in keys && n in Available(c, s, k, up) :: n
  }

  /** The keys of `keys` that node `n` must delete. */
  function KeysAt(c: Config, s: Cluster, keys: seq<Key>, up: set<NodeId>, n: NodeId): set<Key> {
    set k | k in keys && n in Available(c, s, k, up)
  }

  /** Position of `k` in `keys`, counting from one: its share of the reserved sequence numbers. */
  function Rank(keys: seq<Key>, k: Key): nat {
    if keys == [] then 0 else if keys[|keys| - 1] == k then |keys| else Rank(keys[..|keys| - 1], k)
  }

  /** Put back the entries that `base` has (or lacks) for `keys`. */
  function Revert(m: map<Key, Meta>, base: map<Key, Meta>, keys: set<Key>): map<Key, Meta> {
    (m - keys) + (map k | k in keys && k in base :: base[k])
  }

  /**
   The tombstones of one delete.  `s0` is the state at the checkpoints, `s1` the
   state after the initial reads; a node with a soft fault is put back to `s0`.
   */
  function Bury(c: Config, s0: Cluster, s1: Cluster, keys: seq<Key>, up: set<NodeId>, faults: Faults): Cluster {
    var nodes := Participants(c, s0, keys, up);
    var all := set k | k in keys;
    s1.(sequence := s1.sequence + |keys|,
        catalog := s1.catalog + all,
        stores := map n | n in s1.stores ::
          if n !in nodes then s1.stores[n]
          else if FaultOf(faults, n) == Fine then s1.stores[n] - KeysAt(c, s0, keys, up, n)
          else if n in s0.stores then s0.stores[n] else s1.stores[n],
        metadata := map n | n in s1.metadata ::
          if n !in nodes then s1.metadata[n]
          else if FaultOf(faults, n) == Fine
          then s1.metadata[n] + (map k | k in KeysAt(c, s0, keys, up, n) :: Meta(Stamp(s1, Rank(keys, k)), true))
          else if n in s0.metadata then Revert(s1.metadata[n], s0.metadata[n], all) else s1.metadata[n])
  }

  predicate Buried(c: Config, s: Cluster, k: Key, p: Profile, up: set<NodeId>, faults: Faults) {
    var available := Available(c, s, k, up);
    |Select(available, WithFault(available, faults, Fine))| >= p.Required(|Owners(c, s, k)|)
  }

  predicate AllReachable(c: Config, s: Cluster, keys: seq<Key>, p: Profile, up: set<NodeId>) {
    forall k | k in keys :: Reachable(c, s, k, p, up)
  }

  predicate AllBuried(c: Config, s: Cluster, keys: seq<Key>, p: Profile, up: set<NodeId>, faults: Faults) {
    forall k | k in keys :: Buried(c, s, k, p, up, faults)
  }

  predicate Aborts(c: Config, s: Cluster, keys: seq<Key>, up: set<NodeId>, faults: Faults) {
    exists n | n in Participants(c, s, keys, up) :: FaultOf(faults, n).Hard? || FaultOf(faults, n).Rejects?
  }

  /** A delete transaction over distinct keys; on any error the state is that after the first collection. */
  function DeleteKeys(c: Config, s: Cluster, keys: seq<Key>, p: Profile, sweep: seq<Key>, up: set<NodeId>,
                      faults: Faults, mute: set<NodeId>, broken: set<NodeId>)
    : (Cluster, Outcome<nat>)
  {
    if keys == [] then (s, Ok(0))
    else
      var s0 := CollectAll(c, s, sweep, up);
      if !AllReachable(c, s0, keys, p, up) then (s0, Err(QuorumError))
      else if |Tombstones(s0)| + |Risky(c, s0, keys, up)| > c.tombstoneLimit then (s0, Err(LimitError))
      else
        var (s1, existed) := ReadAll(c, s0, keys, p, up, mute, broken);
        if existed.Err? then (s0, existed)
        else if Aborts(c, s0, keys, up, faults) then (s0, Err(StorageError))
        else if !AllBuried(c, s0, keys, p, up, faults) then (s0, Err(QuorumError))
        else
          var s2 := CollectAll(c, Bury(c, s0, s1, keys, up, faults), keys, up);
          if |Tombstones(s2)| > c.tombstoneLimit then (s0, Err(LimitError)) else (s2, existed)
  }

  /** First occurrences, in order. */
  function Unique(keys: seq<Key>): seq<Key> {
    if keys == [] then []
    else
      var r := Unique(keys[..|keys| - 1]);
      if keys[|keys| - 1] in r then r else r + [keys[|keys| - 1]]
  }

  function Delete(c: Config, s: Cluster, keys: seq<Key>, p: Profile, fence: Option<Fence>, sweep: seq<Key>,
                  faults: Faults, mute: set<NodeId>, broken: set<NodeId>, now: int)
    : (Cluster, Outcome<nat>)
  {
    var s1 := Detect(c, s, now);
    if !FenceHolds(s1, fence) then (s1, Err(FenceError))
    else DeleteKeys(c, s1, Unique(keys), p, sweep, Up(c, s1, now), faults, mute, broken)
  }

  /** Everything a node holds, dropped unless the node is removed. */
  function Wiped<T>(nodes: map<NodeId, Node>, held: map<NodeId, map<Key, T>>): map<NodeId, map<Key, T>> {
    map n | n in held :: if n in nodes && nodes[n].status.Removed? then held[n] else map[]
  }

  /** Clears every store that is not removed and fences off every earlier stamp. */
  function FlushReachable(s: Cluster, up: set<NodeId>): (Cluster, Outcome<()>) {
    if !(s.ring.nodes <= up) then (s, Err(QuorumError))
    else
      (s.(stores := Wiped(s.nodes, s.stores), metadata := Wiped(s.nodes, s.metadata),
          watermark := Some(Stamp(s, 1)), sequence := s.sequence + 1, catalog := {}),
       Ok(()))
  }

  function Flush(c: Config, s: Cluster, now: int): (Cluster, Outcome<()>) {
    var s1 := Detect(c, s, now);
    FlushReachable(s1, Up(c, s1, now))
  }

  // ----- Snapshots and bootstrap -----

  datatype Record = Record(key: Key, version: Version, deleted: bool, entry: Option<Value>)

  datatype Snapshot = Snapshot(ringVersion: nat, fence: Fence, records: seq<Record>)

  function RecordOf(s: Cluster, n: NodeId, k: Key): Option<Record> {
    var m, e := MetaAt(s, n, k), EntryAt(s, n, k);
    if m.Some? then Some(Record(k, m.value.version, m.value.deleted || e.None?, e))
    else if e.Some? then Some(Record(k, Version(0, 0, n), false, e))
    else None
  }

  function RecordsOf(s: Cluster, n: NodeId, keys: seq<Key>): seq<Record> {
    if keys == [] then []
    else
      var r := RecordOf(s, n, keys[|keys| - 1]);
      RecordsOf(s, n, keys[..|keys| - 1]) + (if r.Some? then [r.value] else [])
  }

  function TakeSnapshot(s: Cluster, n: NodeId, keys: seq<Key>): Snapshot {
    Snapshot(s.ring.version, Fence(s.term, s.leader), RecordsOf(s, n, keys))
  }

  predicate BoundToFence(r: Record, fence: Fence) {
    r.version.term < fence.term || (r.version.term == fence.term && r.version.leader == fence.leader)
  }

  predicate Deletes(r: Record) {
    r.deleted || r.entry.None?
  }

  predicate Accepts(s: Cluster, n: NodeId, r: Record) {
    var current, latest := MetaAt(s, n, r.key), Latest(s, r.key);
    && !(current.None? && latest.None? && s.watermark.Some? && !s.watermark.value.Less(r.version))
    && !(current.Some? && r.version.Less(current.value.version))
    && !(latest.Some? && r.version.Less(latest.value.version))
    && !(latest.Some? && latest.value.version == r.version && latest.value.deleted != Deletes(r))
    && !(current.Some? && current.value.version == r.version && current.value.deleted != Deletes(r))
    && !(current.Some? && current.value.version == r.version && !current.value.deleted
         && HasRecord(s, n, r.key, current.value))
  }

  /** Install one accepted record on node `n`. */
  function InstallRecord(s: Cluster, n: NodeId, r: Record): Cluster {
    Install(s, {n}, r.key, if Deletes(r) then None else r.entry, Meta(r.version, Deletes(r)))
  }

  /** Acceptance is decided against `base`, before any record is installed. */
  function InstallAll(base: Cluster, s: Cluster, n: NodeId, rs: seq<Record>): Cluster {
    if rs == [] then s
    else
      var s1 := InstallAll(base, s, n, rs[..|rs| - 1]);
      var r := rs[|rs| - 1];
      if Accepts(base, n, r) then InstallRecord(s1, n, r) else s1
  }

  predicate DistinctKeys(rs: seq<Record>) {
    forall i, j | 0 <= i < j < |rs| :: rs[i].key != rs[j].key
  }

  /** Keys of accepted records marked deleted, which bootstrap then tries to collect. */
  function Gravestones(s: Cluster, n: NodeId, rs: seq<Record>): seq<Key> {
    if rs == [] then []
    else
      var r := rs[|rs| - 1];
      Gravestones(s, n, rs[..|rs| - 1]) + (if Accepts(s, n, r) && r.deleted then [r.key] else [])
  }

  function Bootstrap(c: Config, s: Cluster, n: NodeId, snap: Snapshot, fails: bool, now: int): (Cluster, Outcome<()>) {
    if n !in s.nodes || snap.ringVersion != s.ring.version || snap.fence != Fence(s.term, s.leader)
       || !DistinctKeys(snap.records) || (exists r | r in snap.records :: !BoundToFence(r, snap.fence))
    then (s, Err(SnapshotError))
    else if fails && (exists r | r in snap.records :: Accepts(s, n, r)) then (s, Err(StorageError))
    else
      var s1 := InstallAll(s, s, n, snap.records);
      (CollectAll(c, s1, Gravestones(s, n, snap.records), Up(c, s, now)), Ok(()))
  }

  // ----- Rebalancing -----

  datatype Move = Move(key: Key, source: NodeId, target: NodeId)

  datatype Plan = Plan(fence: Fence, baseVersion: nat, target: Ring, moves: seq<Move>,
                       joining: seq<NodeId>, departing: seq<NodeId>)

  function OwnersOn(c: Config, ring: Ring, k: Key): seq<NodeId> {
    ring.Owners(c.token(k), c.replicas)
  }

  function WithStatus(s: Cluster, st: Status): set<NodeId> {
    set n | n in s.nodes && s.nodes[n].status == st
  }

  function Leavers(s: Cluster): set<NodeId> {
    WithStatus(s, Draining) + WithStatus(s, Removing)
  }

  predicate HoldsLatest(s: Cluster, n: NodeId, k: Key) {
    Latest(s, k).Some? && HasRecord(s, n, k, Latest(s, k).value)
  }

  predicate Planned(moves: seq<Move>, k: Key, n: NodeId) {
    exists m | m in moves :: m.key == k && m.target == n
  }

  /**
   What a plan that equals the recomputed one has: the membership it leads to, moves of
   catalogued keys from an old owner to a new one, and a move for every new owner that
   is not an old one with the newest version.
   */
  predicate Fits(c: Config, s: Cluster, plan: Plan) {
    && plan.target.Valid() && plan.target.version == s.ring.version + 1
    && (set n | n in plan.joining) == WithStatus(s, Joining)
    && (set n | n in plan.departing) == Leavers(s) && Distinct(plan.departing)
    && plan.target.nodes == s.ring.nodes + WithStatus(s, Joining) - Leavers(s)
    && (forall m | m in plan.moves :: MoveFits(c, s, plan.target, m))
    && (forall k | k in s.catalog :: AllPlanned(c, s, plan, k))
  }

  predicate MoveFits(c: Config, s: Cluster, target: Ring, m: Move) {
    m.key in s.catalog && m.source in Owners(c, s, m.key) && m.target in OwnersOn(c, target, m.key)
  }

  predicate AllPlanned(c: Config, s: Cluster, plan: Plan, k: Key) {
    forall n | n in OwnersOn(c, plan.target, k) ::
      (n in Owners(c, s, k) && HoldsLatest(s, n, k)) || Planned(plan.moves, k, n)
  }

  predicate CanMove(c: Config, s: Cluster, m: Move, now: int) {
    && Latest(s, m.key).Some?
    && m.source in s.nodes && Healthy(c, s.nodes[m.source], now) && HasRecord(s, m.source, m.key, Latest(s, m.key).value)
    && m.target in s.nodes && Healthy(c, s.nodes[m.target], now)
  }

  /** Stream one record from a healthy holder of its newest version; `false` is any exception. */
  function RunMove(c: Config, s: Cluster, m: Move, fails: bool, now: int): (Cluster, bool) {
    if !CanMove(c, s, m, now) then (s, false)
    else
      var (t, r) := Bootstrap(c, s, m.target, TakeSnapshot(s, m.source, [m.key]), fails, now);
      (t, r.Ok?)
  }

  /** `broken` numbers the moves whose installation raises. */
  function RunMoves(c: Config, s: Cluster, moves: seq<Move>, broken: set<nat>, now: int): (Cluster, bool) {
    if moves == [] then (s, true)
    else
      var (t, ok) := RunMoves(c, s, moves[..|moves| - 1], broken, now);
      if !ok then (t, false) else RunMove(c, t, moves[|moves| - 1], |moves| - 1 in broken, now)
  }

  /** Every owner of `k` under `ring` holds the newest version of `k`. */
  predicate OwnersHoldLatest(c: Config, s: Cluster, ring: Ring, k: Key) {
    Latest(s, k).Some? ==>
      forall n | n in ring.Owners(c.token(k), c.replicas) :: HasRecord(s, n, k, Latest(s, k).value)
  }

  /** Every owner under `ring` holds the newest version of every catalogued key. */
  predicate OwnersCurrent(c: Config, s: Cluster, ring: Ring) {
    forall k | k in s.catalog :: OwnersHoldLatest(c, s, ring, k)
  }

  function Activated(nodes: map<NodeId, Node>, joining: seq<NodeId>): map<NodeId, Node> {
    if joining == [] then nodes
    else
      var r, n := Activated(nodes, joining[..|joining| - 1]), joining[|joining| - 1];
      if n in r then r[n := r[n].(status := Active)] else r
  }

  function Departed(nodes: map<NodeId, Node>, departing: seq<NodeId>): map<NodeId, Node> {
    if departing == [] then nodes
    else
      var r, n := Departed(nodes, departing[..|departing| - 1]), departing[|departing| - 1];
      if n in r then r[n := r[n].(status := if r[n].status == Draining then Drained else Removed)] else r
  }

  function Switch(s: Cluster, plan: Plan): Cluster {
    s.(ring := plan.target, nodes := Departed(Activated(s.nodes, plan.joining), plan.departing))
  }

  /** The catalogued keys that node `n` does not own. */
  function FormerKeys(c: Config, s: Cluster, n: NodeId): set<Key> {
    set k | k in s.catalog && n !in Owners(c, s, k)
  }

  function WithoutFormer<T>(c: Config, s: Cluster, members: set<NodeId>, held: map<NodeId, map<Key, T>>): map<NodeId, map<Key, T>> {
    map n | n in held :: if n in members then held[n] - FormerKeys(c, s, n) else held[n]
  }

  /** The old members drop every catalogued key that they do not own. */
  function DropFormer(c: Config, s: Cluster, members: set<NodeId>): Cluster {
    s.(stores := WithoutFormer(c, s, members, s.stores), metadata := WithoutFormer(c, s, members, s.metadata))
  }

  /** A node of `stuck` raises on a delete. */
  predicate Blocked(c: Config, s: Cluster, members: set<NodeId>, stuck: set<NodeId>) {
    exists n | n in members :: n in stuck && FormerKeys(c, s, n) != {}
  }

  /** The nodes a rebalance checkpoints before it starts. */
  function Affected(members: set<NodeId>, plan: Plan): set<NodeId> {
    members + (set n | n in plan.joining) + (set m | m in plan.moves :: m.target)
  }

  function PutBack<T>(held: map<NodeId, T>, saved: map<NodeId, T>, affected: set<NodeId>): map<NodeId, T> {
    map n | n in held :: if n in affected && n in saved then saved[n] else held[n]
  }

  /** `x` with the ring and the affected nodes' stores, metadata and statuses of `s`. */
  function Undone(s: Cluster, x: Cluster, affected: set<NodeId>): Cluster {
    x.(ring := s.ring,
       nodes := map n | n in x.nodes ::
         if n in affected && n in s.nodes then x.nodes[n].(status := s.nodes[n].status) else x.nodes[n],
       stores := PutBack(x.stores, s.stores, affected),
       metadata := PutBack(x.metadata, s.metadata, affected))
  }

  /** Moves, verification, switch and cleaning; on `false`, the state that is then undone. */
  function MoveAndSwitch(c: Config, s: Cluster, plan: Plan, broken: set<nat>, stuck: set<NodeId>, now: int): (Cluster, bool) {
    var (m, moved) := RunMoves(c, s, plan.moves, broken, now);
    if !moved || !OwnersCurrent(c, m, plan.target) then (m, false)
    else if Blocked(c, Switch(m, plan), s.ring.nodes, stuck) then (Switch(m, plan), false)
    else (DropFormer(c, Switch(m, plan), s.ring.nodes), true)
  }

  function ApplyPlan(c: Config, s: Cluster, plan: Plan, sweep: seq<Key>, broken: set<nat>, stuck: set<NodeId>, now: int)
    : (Cluster, Outcome<()>)
  {
    var (t, done) := MoveAndSwitch(c, s, plan, broken, stuck, now);
    if done then (Elect(c, CollectAll(c, t, sweep, Up(c, t, now)), now), Ok(()))
    else (Undone(s, t, Affected(s.ring.nodes, plan)), Err(RebalanceError))
  }

  /** `sweep` is the order in which the catalogue is swept at the end. */
  function Rebalance(c: Config, s: Cluster, plan: Plan, sweep: seq<Key>, broken: set<nat>, stuck: set<NodeId>, now: int)
    : (Cluster, Outcome<()>)
  {
    var s1 := Detect(c, s, now);
    if plan.fence != Fence(s1.term, s1.leader) then (s1, Err(FenceError))
    else if plan.baseVersion != s1.ring.version || !Fits(c, s1, plan) then (s1, Err(RebalanceError))
    else ApplyPlan(c, s1, plan, sweep, broken, stuck, now)
  }

  /** A new node joins, empty, and waits for a rebalance. */
  function AddNode(s: Cluster, n: NodeId, now: int): Cluster {
    if n in s.nodes then s
    else s.(order := s.order + [n], nodes := s.nodes[n := Node(Joining, now)],
            stores := s.stores[n := map[]], metadata := s.metadata[n := map[]])
  }

  /** A member, unless it is the last one, waits to be drained or removed by a rebalance. */
  function LeaveNode(s: Cluster, n: NodeId, removing: bool): Cluster {
    if n !in s.nodes || n !in s.ring.nodes || |s.ring.nodes| <= 1 then s
    else s.(nodes := s.nodes[n := s.nodes[n].(status := if removing then Removing else Draining)])
  }

  // ----- Node events -----

  function Drop(s: Cluster, n: NodeId, k: Key): Cluster {
    s.(stores := map m | m in s.stores :: if m == n then s.stores[m] - {k} else s.stores[m])
  }

  function NodeDown(c: Config, s: Cluster, n: NodeId, now: int): Cluster {
    if n !in s.nodes then s
    else Elect(c, s.(nodes := MarkDown(s.nodes, {n})), now)
  }

  /** Mark the node seen, return it from `Down`, and elect. */
  function HeartbeatBeforeSweep(c: Config, s: Cluster, n: NodeId, now: int): Cluster
    requires n in s.nodes
  {
    var node := s.nodes[n];
    var status := if node.status == Down then if n in s.ring.nodes then Active else Joining else node.status;
    Elect(c, s.(nodes := s.nodes[n := Node(status, now)]), now)
  }

  function Heartbeat(c: Config, s: Cluster, n: NodeId, sweep: seq<Key>, now: int): Cluster {
    if n !in s.nodes then s
    else
      var s1 := HeartbeatBeforeSweep(c, s, n, now);
      CollectAll(c, s1, sweep, Up(c, s1, now))
  }
}
