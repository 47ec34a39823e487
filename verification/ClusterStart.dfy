/** A coordinator as the original opens it, and that every run of the store may start from it. */
module ClusterStart {
  import opened HashRing
  import opened ClusterModel
  import opened ClusterRuns
  import opened ClusterStorageClass

  /** The statuses with which a node is a ring member from the start. */
  predicate StartsInRing(st: Status) {
    st == Active || st == Draining || st == Down
  }

  function Members(order: seq<NodeId>, statuses: map<NodeId, Status>): set<NodeId> {
    set n | n in order && n in statuses && StartsInRing(statuses[n])
  }

  /** Some member can lead. */
  predicate CanLead(order: seq<NodeId>, statuses: map<NodeId, Status>) {
    exists n | n in order :: n in statuses && (statuses[n] == Active || statuses[n] == Draining)
  }

  function Seen(statuses: map<NodeId, Status>, now: int): map<NodeId, Node> {
    map n | n in statuses :: Node(statuses[n], now)
  }

  /**
   Build the ring of the members and open a cluster on it; null stands for the original's
   value error when no member can lead.  If no node starts as removed or removing, the
   state is one from which runs start.
   */
  method Open(config: Config, order: seq<NodeId>, statuses: map<NodeId, Status>, vnodes: nat,
              hash: (NodeId, nat) -> nat, now: int) returns (cluster: ClusterStorage?)
    requires config.replicas > 0 && config.timeout > 0 && vnodes > 0
    requires Distinct(order) && forall n :: n in order <==> n in statuses
    ensures cluster == null <==> !CanLead(order, statuses)
    ensures cluster != null ==>
      && fresh(cluster) && cluster.Valid() && cluster.config == config && cluster.nodes == Seen(statuses, now)
      && cluster.ring.nodes == Members(order, statuses) && cluster.ring.version == 1
      && IsPlacement(cluster.ring.points, cluster.ring.nodes, vnodes, hash)
      && ((forall n | n in statuses :: !statuses[n].Removed? && !statuses[n].Removing?) ==>
            Init(config, World(cluster.State(), [], [])))
  {
    if !CanLead(order, statuses) {
      return null;
    }
    var members := ListMembers(order, statuses);
    ghost var lead :| lead in order && lead in statuses && (statuses[lead] == Active || statuses[lead] == Draining);
    assert lead in members;
    var ring := Build(members, vnodes, 1, hash);
    assert Healthy(config, Seen(statuses, now)[lead], now);
    assert ring.nodes == Members(order, statuses);
    cluster := new ClusterStorage(config, ring, order, Seen(statuses, now), now);
  }

  lemma MembersNext(order: seq<NodeId>, statuses: map<NodeId, Status>, i: nat)
    requires i < |order| && order[i] in statuses
    ensures Members(order[..i + 1], statuses) ==
      if StartsInRing(statuses[order[i]]) then Members(order[..i], statuses) + {order[i]} else Members(order[..i], statuses)
  {
    assert order[..i + 1] == order[..i] + [order[i]];
  }

  /** The members, in the order in which the nodes are given. */
  method ListMembers(order: seq<NodeId>, statuses: map<NodeId, Status>) returns (members: seq<NodeId>)
    requires Distinct(order) && forall n | n in order :: n in statuses
    ensures Distinct(members) && forall n :: n in members <==> n in Members(order, statuses)
  {
    members := [];
    for i := 0 to |order|
      invariant Distinct(members) && forall n :: n in members <==> n in Members(order[..i], statuses)
    {
      var n := order[i];
      assert n in order;
      MembersNext(order, statuses, i);
      assert n !in order[..i];
      if StartsInRing(statuses[n]) {
        members := members + [n];
      }
    }
    assert order[..|order|] == order;
  }
}
