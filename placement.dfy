/**
 * The pure part of the straight plan executor: for each migrating partition,
 * the expected placement (node to folder, preferred leader first), the
 * broker-move request built from it, and the folder moves that the executor
 * still has to request after comparing it with the replicas the cluster
 * reports.
 */
module Placement {
  import opened Collectors

  type NodeId = int
  type Path = string

  datatype TopicPartition = TopicPartition(topic: string, partition: int)

  datatype TopicPartitionReplica = TopicPartitionReplica(topic: string, partition: int, brokerId: NodeId)

  /** One replica: where it lives and whether it is its partition's preferred leader. */
  datatype Replica = Replica(topic: string, partition: int, nodeId: NodeId, path: Path, isPreferredLeader: bool)

  /** A node-to-path map kept in insertion order: no node appears twice. */
  type NodePlacement = ep: seq<(NodeId, Path)> | DistinctKeys(ep) witness []

  function PartitionOf(k: TopicPartitionReplica): TopicPartition {
    TopicPartition(k.topic, k.partition)
  }

  // ---------------------------------------------------------------------------
  // Sorting by `Comparator.comparing(Replica::isPreferredLeader).reversed()`.

  /** The preferred-leader replicas of `s`, in their order in `s`. */
  function Leaders(s: seq<Replica>): (r: seq<Replica>)
    ensures forall i :: 0 <= i < |r| ==> r[i].isPreferredLeader
  {
    if s == [] then [] else (if s[0].isPreferredLeader then [s[0]] else []) + Leaders(s[1..])
  }

  /** The other replicas of `s`, in their order in `s`. */
  function Followers(s: seq<Replica>): (r: seq<Replica>)
    ensures forall i :: 0 <= i < |r| ==> !r[i].isPreferredLeader
  {
    if s == [] then [] else (if s[0].isPreferredLeader then [] else [s[0]]) + Followers(s[1..])
  }

  /** The leaders of `s` are exactly its preferred-leader replicas. */
  lemma {:induction false} LeadersMembers(s: seq<Replica>)
    ensures forall x :: x in Leaders(s) <==> x in s && x.isPreferredLeader
  {
    if s != [] {
      LeadersMembers(s[1..]);
      assert s == [s[0]] + s[1..];
    }
  }

  /** The followers of `s` are exactly its other replicas. */
  lemma {:induction false} FollowersMembers(s: seq<Replica>)
    ensures forall x :: x in Followers(s) <==> x in s && !x.isPreferredLeader
  {
    if s != [] {
      FollowersMembers(s[1..]);
      assert s == [s[0]] + s[1..];
    }
  }

  lemma {:induction false} LeadersAppend(a: seq<Replica>, b: seq<Replica>)
    ensures Leaders(a + b) == Leaders(a) + Leaders(b)
    ensures Followers(a + b) == Followers(a) + Followers(b)
  {
    if a != [] {
      assert (a + b)[0] == a[0];
      assert (a + b)[1..] == a[1..] + b;
      LeadersAppend(a[1..], b);
    } else {
      assert a + b == b;
    }
  }

  lemma {:induction false} LeadersAndFollowersPermute(s: seq<Replica>)
    ensures multiset(Leaders(s) + Followers(s)) == multiset(s)
  {
    if s != [] {
      LeadersAndFollowersPermute(s[1..]);
      assert s == [s[0]] + s[1..];
    }
  }

  /** Every preferred leader comes before every other replica. */
  predicate LeadersFirst(s: seq<Replica>) {
    forall i, j :: 0 <= i < j < |s| && s[j].isPreferredLeader ==> s[i].isPreferredLeader
  }

  /**
   * The replicas sorted with preferred leaders first. The stream is ordered,
   * so the sort is stable: it is a permutation that keeps the relative order
   * of the leaders and of the others.
   */
  function PreferredFirst(s: seq<Replica>): (r: seq<Replica>)
    ensures multiset(r) == multiset(s)
    ensures LeadersFirst(r)
    ensures Leaders(r) == Leaders(s) && Followers(r) == Followers(s)
  {
    var l, f := Leaders(s), Followers(s);
    LeadersAndFollowersPermute(s);
    LeadersAppend(l, f);
    LeadersOfLeaders(s);
    l + f
  }

  lemma {:induction false} LeadersOfLeaders(s: seq<Replica>)
    ensures Leaders(Leaders(s)) == Leaders(s) && Followers(Leaders(s)) == []
    ensures Leaders(Followers(s)) == [] && Followers(Followers(s)) == Followers(s)
  {
    if s != [] {
      LeadersOfLeaders(s[1..]);
      var h := if s[0].isPreferredLeader then [s[0]] else [];
      var g := if s[0].isPreferredLeader then [] else [s[0]];
      LeadersAppend(h, Leaders(s[1..]));
      LeadersAppend(g, Followers(s[1..]));
    }
  }

  /** A sequence with its leaders first is its leaders followed by its other replicas. */
  lemma {:induction false} LeadersFirstSplits(t: seq<Replica>)
    requires LeadersFirst(t)
    ensures t == Leaders(t) + Followers(t)
  {
    if t != [] {
      LeadersFirstSplits(t[1..]);
      if !t[0].isPreferredLeader {
        assert forall k :: 0 <= k < |t[1..]| ==> !t[1..][k].isPreferredLeader;
        NoLeadersAllFollowers(t[1..]);
      }
    }
  }

  lemma {:induction false} NoLeadersAllFollowers(s: seq<Replica>)
    requires forall k :: 0 <= k < |s| ==> !s[k].isPreferredLeader
    ensures Leaders(s) == [] && Followers(s) == s
  {
    if s != [] {
      NoLeadersAllFollowers(s[1..]);
      assert s == [s[0]] + s[1..];
    }
  }

  /**
   * The sort is determined by its three properties: any arrangement of the
   * replicas that puts leaders first and keeps the relative order within
   * leaders and within the others is `PreferredFirst`.
   */
  lemma PreferredFirstIsTheStableSort(s: seq<Replica>, t: seq<Replica>)
    requires LeadersFirst(t)
    requires Leaders(t) == Leaders(s) && Followers(t) == Followers(s)
    ensures t == PreferredFirst(s)
  {
    LeadersFirstSplits(t);
  }

  // ---------------------------------------------------------------------------
  // The expected placement of one partition.

  function NodePaths(replicas: seq<Replica>): (ps: seq<(NodeId, Path)>)
    ensures |ps| == |replicas|
    ensures forall i :: 0 <= i < |replicas| ==> ps[i] == (replicas[i].nodeId, replicas[i].path)
  {
    seq(|replicas|, i requires 0 <= i < |replicas| => (replicas[i].nodeId, replicas[i].path))
  }

  /**
   * The target replicas of a partition, sorted preferred leader first and
   * collected into an insertion-ordered node-to-path map in which the first
   * occurrence of a node wins.
   */
  function ExpectedPlacement(target: seq<Replica>): (ep: seq<(NodeId, Path)>)
    ensures DistinctKeys(ep)
  {
    FirstWins(NodePaths(PreferredFirst(target)))
  }

  lemma NodePathsOfMember(s: seq<Replica>, x: Replica)
    requires x in s
    ensures (x.nodeId, x.path) in NodePaths(s)
  {
    var j :| 0 <= j < |s| && s[j] == x;
    assert NodePaths(s)[j] == (x.nodeId, x.path);
  }

  lemma ReplicaOfPair(s: seq<Replica>, p: (NodeId, Path)) returns (x: Replica)
    requires p in NodePaths(s)
    ensures x in s && (x.nodeId, x.path) == p
  {
    var j :| 0 <= j < |NodePaths(s)| && NodePaths(s)[j] == p;
    x := s[j];
  }

  /** Sorting moves replicas but neither adds nor drops a (node, path) pair. */
  lemma SortedPairsAreTargetPairs(target: seq<Replica>)
    ensures forall p :: p in NodePaths(PreferredFirst(target)) ==> p in NodePaths(target)
    ensures forall r :: r in target ==> (r.nodeId, r.path) in NodePaths(PreferredFirst(target))
  {
    var sorted := PreferredFirst(target);
    forall p | p in NodePaths(sorted) ensures p in NodePaths(target) {
      var x := ReplicaOfPair(sorted, p);
      assert x in multiset(target);
      NodePathsOfMember(target, x);
    }
    forall r | r in target ensures (r.nodeId, r.path) in NodePaths(sorted) {
      assert r in multiset(sorted);
      NodePathsOfMember(sorted, r);
    }
  }

  /**
   * The keys of the expected placement are exactly the target's node ids, and
   * each entry is the node and path of some target replica.
   */
  lemma ExpectedPlacementNodes(target: seq<Replica>)
    ensures forall r :: r in target ==> KeyIn(ExpectedPlacement(target), r.nodeId)
    ensures forall e :: e in ExpectedPlacement(target) ==> e in NodePaths(target)
  {
    var pairs := NodePaths(PreferredFirst(target));
    var ep := ExpectedPlacement(target);
    SortedPairsAreTargetPairs(target);
    FirstWinsFirstOccurrence(pairs);
    forall r | r in target ensures KeyIn(ep, r.nodeId) {
      var j :| 0 <= j < |pairs| && pairs[j] == (r.nodeId, r.path);
    }
    forall e | e in ep ensures e in NodePaths(target) {
      var x :| 0 <= x < |ep| && ep[x] == e;
      assert pairs[FirstIndex(pairs, e.0)] == e;
    }
  }

  /**
   * Each node keeps the path of its first replica in sorted order, and the
   * nodes are in the order in which the sorted replicas first name them.
   */
  lemma ExpectedPlacementFollowsSortedOrder(target: seq<Replica>)
    ensures KeepsFirst(NodePaths(PreferredFirst(target)), ExpectedPlacement(target))
    ensures InFirstSeenOrder(NodePaths(PreferredFirst(target)), ExpectedPlacement(target))
  {
    FirstWinsFirstOccurrence(NodePaths(PreferredFirst(target)));
  }

  /** Node `n` holds a preferred-leader replica of the target. */
  predicate HostsLeader(target: seq<Replica>, n: NodeId) {
    exists i :: 0 <= i < |target| && target[i].nodeId == n && target[i].isPreferredLeader
  }

  /** In sorted order, a node first appears among the leaders exactly when it hosts one. */
  lemma FirstAmongLeaders(target: seq<Replica>, n: NodeId)
    ensures HostsLeader(target, n) <==> FirstIndex(NodePaths(PreferredFirst(target)), n) < |Leaders(target)|
  {
    if HostsLeader(target, n) {
      LeaderHostSeenEarly(target, n);
    }
    if FirstIndex(NodePaths(PreferredFirst(target)), n) < |Leaders(target)| {
      EarlyNodeHostsLeader(target, n);
    }
  }

  lemma LeaderHostSeenEarly(target: seq<Replica>, n: NodeId)
    requires HostsLeader(target, n)
    ensures FirstIndex(NodePaths(PreferredFirst(target)), n) < |Leaders(target)|
  {
    var l := Leaders(target);
    var pairs := NodePaths(PreferredFirst(target));
    var i :| 0 <= i < |target| && target[i].nodeId == n && target[i].isPreferredLeader;
    LeadersMembers(target);
    assert target[i] in l;
    var j :| 0 <= j < |l| && l[j] == target[i];
    assert PreferredFirst(target)[j] == l[j];
    assert pairs[j].0 == n;
  }

  lemma EarlyNodeHostsLeader(target: seq<Replica>, n: NodeId)
    requires FirstIndex(NodePaths(PreferredFirst(target)), n) < |Leaders(target)|
    ensures HostsLeader(target, n)
  {
    var l := Leaders(target);
    var sorted := PreferredFirst(target);
    var f := FirstIndex(NodePaths(sorted), n);
    assert sorted[f] == l[f];
    assert l[f] in l;
    assert sorted[f] in multiset(target);
    var k :| 0 <= k < |target| && target[k] == sorted[f];
    assert target[k].nodeId == n && target[k].isPreferredLeader;
  }

  /** A node that hosts a preferred leader is listed before every node that does not. */
  lemma ExpectedPlacementLeadersFirst(target: seq<Replica>)
    ensures var ep := ExpectedPlacement(target);
      forall x, y :: 0 <= x < y < |ep| && HostsLeader(target, ep[y].0) ==> HostsLeader(target, ep[x].0)
  {
    var ep := ExpectedPlacement(target);
    ExpectedPlacementFollowsSortedOrder(target);
    forall x, y | 0 <= x < y < |ep| && HostsLeader(target, ep[y].0) ensures HostsLeader(target, ep[x].0) {
      FirstAmongLeaders(target, ep[y].0);
      FirstAmongLeaders(target, ep[x].0);
    }
  }

  /** When no node repeats, nothing is collapsed: the placement is the sorted list itself. */
  lemma ExpectedPlacementOfDistinctNodes(target: seq<Replica>)
    requires forall i, j :: 0 <= i < j < |target| ==> target[i].nodeId != target[j].nodeId
    ensures ExpectedPlacement(target) == NodePaths(PreferredFirst(target))
  {
    var sorted := PreferredFirst(target);
    var pairs := NodePaths(sorted);
    forall i, j | 0 <= i < j < |pairs| ensures pairs[i].0 != pairs[j].0 {
      assert sorted[i] in multiset(target) && sorted[j] in multiset(target);
      var a :| 0 <= a < |target| && target[a] == sorted[i];
      var b :| 0 <= b < |target| && target[b] == sorted[j];
      if a == b {
        MultisetDistinctPositions(sorted, target, i, j);
      }
    }
    FirstWinsKeepsDistinct(pairs);
  }

  /**
   * Two positions of a permutation of a sequence without repeated nodes
   * hold different replicas.
   */
  lemma MultisetDistinctPositions(s: seq<Replica>, t: seq<Replica>, i: nat, j: nat)
    requires multiset(s) == multiset(t)
    requires forall a, b :: 0 <= a < b < |t| ==> t[a].nodeId != t[b].nodeId
    requires i < j < |s|
    ensures s[i] != s[j]
  {
    if s[i] == s[j] {
      var x := s[i];
      assert s == s[..i] + [x] + s[i + 1..j] + [x] + s[j + 1..];
      assert multiset(s)[x] >= 2;
      OccursOnce(t, x);
    }
  }

  lemma {:induction false} OccursOnce(t: seq<Replica>, x: Replica)
    requires forall a, b :: 0 <= a < b < |t| ==> t[a].nodeId != t[b].nodeId
    ensures multiset(t)[x] <= 1
  {
    if t != [] {
      assert t == [t[0]] + t[1..];
      OccursOnce(t[1..], x);
      if t[0] == x {
        assert x !in t[1..] by {
          forall k | 0 <= k < |t[1..]| ensures t[1..][k] != x { assert t[1..][k] == t[k + 1]; }
        }
      }
    }
  }

  // ---------------------------------------------------------------------------
  // What the cluster reports, and the folder moves still needed.

  /** The reported replicas that belong to `tp` (by topic, then by partition number). */
  function PartitionReplicas(reported: seq<Replica>, tp: TopicPartition): (r: seq<Replica>)
    ensures forall x :: x in r <==> x in reported && x.topic == tp.topic && x.partition == tp.partition
  {
    if reported == [] then []
    else
      (if reported[0].topic == tp.topic && reported[0].partition == tp.partition then [reported[0]] else [])
      + PartitionReplicas(reported[1..], tp)
  }

  /** No node hosts two of these replicas. */
  predicate NodesDistinct(rs: seq<Replica>) {
    forall i, j :: 0 <= i < j < |rs| ==> rs[i].nodeId != rs[j].nodeId
  }

  /**
   * The current node-to-path map of a partition, collected without a merge
   * function: a node reported twice for the partition makes it fail.
   */
  function CurrentBrokerPath(reported: seq<Replica>, tp: TopicPartition): (r: Result<map<NodeId, Path>, NodeId>)
    ensures r.Ok? <==> NodesDistinct(PartitionReplicas(reported, tp))
  {
    var rs := PartitionReplicas(reported, tp);
    var pairs := NodePaths(rs);
    assert DistinctKeys(pairs) <==> NodesDistinct(rs) by {
      assert forall i :: 0 <= i < |rs| ==> pairs[i].0 == rs[i].nodeId;
    }
    ToMap(pairs)
  }

  /**
   * When it succeeds, the current map sends the node of every reported
   * replica of the partition to that replica's path, and has no other node.
   */
  lemma CurrentBrokerPathEntries(reported: seq<Replica>, tp: TopicPartition)
    requires CurrentBrokerPath(reported, tp).Ok?
    ensures var current := CurrentBrokerPath(reported, tp).value;
      && (forall x :: x in reported && x.topic == tp.topic && x.partition == tp.partition
            ==> x.nodeId in current && current[x.nodeId] == x.path)
      && current.Keys == set x | x in PartitionReplicas(reported, tp) :: x.nodeId
  {
    var rs := PartitionReplicas(reported, tp);
    var pairs := NodePaths(rs);
    var current := CurrentBrokerPath(reported, tp).value;
    assert current == ToMap(pairs).value;
    forall x | x in rs ensures x.nodeId in current && current[x.nodeId] == x.path {
      NodePathsOfMember(rs, x);
    }
    forall n | n in current ensures n in set x | x in rs :: x.nodeId {
      var p :| p in pairs && p.0 == n;
      var x := ReplicaOfPair(rs, p);
    }
  }

  /**
   * The folder moves of one partition: every entry of the expected
   * placement except those whose node the partition already has while some
   * current replica, on any node, uses the expected path. The second test
   * looks at all current paths, not at the path on that node.
   */
  function FolderMoves(tp: TopicPartition, expected: seq<(NodeId, Path)>, current: map<NodeId, Path>)
    : (moves: map<TopicPartitionReplica, Path>)
    requires DistinctKeys(expected)
    ensures forall k :: k in moves ==>
              && PartitionOf(k) == tp
              && (k.brokerId, moves[k]) in expected
              && !(k.brokerId in current && moves[k] in current.Values)
    ensures forall e :: e in expected && !(e.0 in current && e.1 in current.Values) ==>
              var k := TopicPartitionReplica(tp.topic, tp.partition, e.0);
              k in moves && moves[k] == e.1
  {
    map e | e in expected && !(e.0 in current && e.1 in current.Values)
      :: TopicPartitionReplica(tp.topic, tp.partition, e.0) := e.1
  }

  /** A partition whose replicas already sit where the placement expects needs no folder move. */
  lemma SettledPartitionNeedsNoFolderMove(tp: TopicPartition, expected: seq<(NodeId, Path)>, current: map<NodeId, Path>)
    requires DistinctKeys(expected)
    requires forall e :: e in expected ==> e.0 in current && current[e.0] == e.1
    ensures FolderMoves(tp, expected, current) == map[]
  {
    forall e | e in expected ensures e.1 in current.Values {
      assert current[e.0] == e.1;
    }
    assert FolderMoves(tp, expected, current).Keys == {};
  }

  /**
   * Because the path test looks at every current path, two replicas on
   * distinct nodes that have swapped folders are both left where they are.
   */
  lemma SwappedFoldersAreNotMoved(tp: TopicPartition, n1: NodeId, n2: NodeId, p1: Path, p2: Path)
    requires n1 != n2
    ensures DistinctKeys([(n1, p1), (n2, p2)])
    ensures FolderMoves(tp, [(n1, p1), (n2, p2)], map[n1 := p2, n2 := p1]) == map[]
  {
    var expected: seq<(NodeId, Path)> := [(n1, p1), (n2, p2)];
    var current: map<NodeId, Path> := map[n1 := p2, n2 := p1];
    assert p1 in current.Values by { assert current[n2] == p1; }
    assert p2 in current.Values by { assert current[n1] == p2; }
    assert FolderMoves(tp, expected, current).Keys == {};
  }

  // ---------------------------------------------------------------------------
  // The requests of a whole run.

  /** The node list of a partition's broker move: the keys of its expected placement, in order. */
  function ExpectedNodes(target: seq<Replica>): (nodes: seq<NodeId>)
    ensures forall i, j :: 0 <= i < j < |nodes| ==> nodes[i] != nodes[j]
  {
    KeysOf(ExpectedPlacement(target))
  }

  /**
   * The node list names each target node exactly once, and every node that
   * hosts a preferred leader comes before every node that does not.
   */
  lemma ExpectedNodesOfTarget(target: seq<Replica>)
    ensures var nodes := ExpectedNodes(target);
      && (forall i, j :: 0 <= i < j < |nodes| ==> nodes[i] != nodes[j])
      && (forall i :: 0 <= i < |target| ==> target[i].nodeId in nodes)
      && (forall x :: 0 <= x < |nodes| ==> exists i :: 0 <= i < |target| && target[i].nodeId == nodes[x])
      && (forall x, y :: 0 <= x < y < |nodes| && HostsLeader(target, nodes[y]) ==> HostsLeader(target, nodes[x]))
  {
    var ep := ExpectedPlacement(target);
    var nodes := ExpectedNodes(target);
    ExpectedPlacementLeadersFirst(target);
    ExpectedPlacementNodes(target);
    forall i | 0 <= i < |target| ensures target[i].nodeId in nodes {
      assert target[i] in target;
      var x :| 0 <= x < |ep| && ep[x].0 == target[i].nodeId;
      assert nodes[x] == target[i].nodeId;
    }
    forall x | 0 <= x < |nodes| ensures exists i :: 0 <= i < |target| && target[i].nodeId == nodes[x] {
      assert ep[x] in ep;
      var r := ReplicaOfPair(target, ep[x]);
      var i :| 0 <= i < |target| && target[i] == r;
    }
  }

  /** Each partition's expected placement, as a function. */
  function ExpectedOf(placements: TopicPartition -> seq<Replica>): TopicPartition -> NodePlacement {
    tp => ExpectedPlacement(placements(tp))
  }

  /** Each partition's broker list, as a function. */
  function NodeListsOf(expected: TopicPartition -> NodePlacement): TopicPartition -> seq<NodeId> {
    tp => KeysOf(expected(tp))
  }

  /** The map that sends every key of `keys` to `f` of it. */
  function Tabulate<K, V>(keys: set<K>, f: K -> V): (m: map<K, V>)
    ensures m.Keys == keys
    ensures forall k :: k in m ==> m[k] == f(k)
  {
    map k | k in keys :: f(k)
  }

  lemma TabulateInsert<K, V>(keys: set<K>, k: K, f: K -> V)
    ensures Tabulate(keys + {k}, f) == Tabulate(keys, f)[k := f(k)]
  {
    assert Tabulate(keys + {k}, f).Keys == Tabulate(keys, f)[k := f(k)].Keys;
  }

  /** The broker-move request: every migrating partition to its broker list. */
  function BrokerPlan(migrating: set<TopicPartition>, expected: TopicPartition -> NodePlacement)
    : (plan: map<TopicPartition, seq<NodeId>>)
    ensures plan.Keys == migrating
    ensures forall tp :: tp in plan ==> plan[tp] == KeysOf(expected(tp))
  {
    Tabulate(migrating, NodeListsOf(expected))
  }

  /** Putting one more partition's broker list gives the plan of all partitions seen. */
  lemma BrokerPlanInsert(done: set<TopicPartition>, tp: TopicPartition, expected: TopicPartition -> NodePlacement)
    ensures BrokerPlan(done + {tp}, expected) == BrokerPlan(done, expected)[tp := KeysOf(expected(tp))]
  {
    TabulateInsert(done, tp, NodeListsOf(expected));
    assert NodeListsOf(expected)(tp) == KeysOf(expected(tp));
  }

  /** Every migrating partition's reported replicas put each node once. */
  predicate Ready(migrating: set<TopicPartition>, reported: seq<Replica>) {
    forall tp :: tp in migrating ==> CurrentBrokerPath(reported, tp).Ok?
  }

  /**
   * The folder moves of one migrating partition. When its current map cannot
   * be collected the run fails before any folder move is requested, so the
   * partition contributes nothing.
   */
  function PartitionFolderMoves(tp: TopicPartition, expected: TopicPartition -> NodePlacement, reported: seq<Replica>)
    : (moves: map<TopicPartitionReplica, Path>)
    ensures forall k :: k in moves ==> PartitionOf(k) == tp
  {
    match CurrentBrokerPath(reported, tp)
    case Ok(current) => FolderMoves(tp, expected(tp), current)
    case Err(_) => map[]
  }

  function FolderMovesOf(expected: TopicPartition -> NodePlacement, reported: seq<Replica>)
    : TopicPartition -> map<TopicPartitionReplica, Path>
  {
    tp => PartitionFolderMoves(tp, expected, reported)
  }

  /** A partition's moves name only that partition. */
  ghost predicate OwnKeys(parts: set<TopicPartition>, movesOf: TopicPartition -> map<TopicPartitionReplica, Path>) {
    forall tp, k :: tp in parts && k in movesOf(tp) ==> PartitionOf(k) == tp
  }

  /** The union of the moves of `parts`, as `putAll` builds it. */
  function Merged(parts: set<TopicPartition>, movesOf: TopicPartition -> map<TopicPartitionReplica, Path>)
    : (plan: map<TopicPartitionReplica, Path>)
    ensures forall k :: k in plan ==>
              PartitionOf(k) in parts && k in movesOf(PartitionOf(k)) && plan[k] == movesOf(PartitionOf(k))[k]
    ensures OwnKeys(parts, movesOf) ==> forall tp, k :: tp in parts && k in movesOf(tp) ==> k in plan
  {
    var keys := set tp, k | tp in parts && k in movesOf(tp) && PartitionOf(k) == tp :: k;
    assert OwnKeys(parts, movesOf) ==> forall tp, k :: tp in parts && k in movesOf(tp) ==> k in keys by {
      if OwnKeys(parts, movesOf) {
        forall tp, k | tp in parts && k in movesOf(tp) ensures k in keys {
          assert PartitionOf(k) == tp;
        }
      }
    }
    map k | k in keys :: movesOf(PartitionOf(k))[k]
  }

  lemma MergedInsert(parts: set<TopicPartition>, tp: TopicPartition,
                     movesOf: TopicPartition -> map<TopicPartitionReplica, Path>)
    requires tp !in parts && OwnKeys(parts + {tp}, movesOf)
    ensures Merged(parts + {tp}, movesOf) == Merged(parts, movesOf) + movesOf(tp)
  {
    var a, d, m := Merged(parts + {tp}, movesOf), Merged(parts, movesOf), movesOf(tp);
    assert OwnKeys(parts, movesOf);
    assert a.Keys == (d + m).Keys;
  }

  /** The folder-move request: the folder moves of every migrating partition, merged. */
  function FolderPlan(migrating: set<TopicPartition>, expected: TopicPartition -> NodePlacement, reported: seq<Replica>)
    : (plan: map<TopicPartitionReplica, Path>)
    ensures forall k :: k in plan ==> PartitionOf(k) in migrating
  {
    Merged(migrating, FolderMovesOf(expected, reported))
  }

  /** Every partition's moves name that partition only. */
  lemma FolderMovesOwnKeys(parts: set<TopicPartition>, expected: TopicPartition -> NodePlacement, reported: seq<Replica>)
    ensures OwnKeys(parts, FolderMovesOf(expected, reported))
  {
    var movesOf := FolderMovesOf(expected, reported);
    forall tp, k | tp in parts && k in movesOf(tp) ensures PartitionOf(k) == tp {
      assert movesOf(tp) == PartitionFolderMoves(tp, expected, reported);
    }
  }

  /** The folder-move request holds exactly the folder moves of the migrating partitions. */
  lemma FolderPlanKeys(migrating: set<TopicPartition>, expected: TopicPartition -> NodePlacement, reported: seq<Replica>)
    ensures var plan := FolderPlan(migrating, expected, reported);
      forall k :: k in plan <==>
        PartitionOf(k) in migrating && k in PartitionFolderMoves(PartitionOf(k), expected, reported)
    ensures var plan := FolderPlan(migrating, expected, reported);
      forall k :: k in plan ==> plan[k] == PartitionFolderMoves(PartitionOf(k), expected, reported)[k]
  {
    var movesOf := FolderMovesOf(expected, reported);
    FolderMovesOwnKeys(migrating, expected, reported);
    forall tp | true ensures movesOf(tp) == PartitionFolderMoves(tp, expected, reported) {
    }
  }

  /**
   * A folder move of (partition, node) to path `p` is requested exactly when
   * the partition migrates, (node, p) is in its expected placement, and not
   * both: the node is among its current replicas and some current replica's
   * path is `p`.
   */
  lemma FolderPlanEntry(migrating: set<TopicPartition>, expected: TopicPartition -> NodePlacement,
                        reported: seq<Replica>, tp: TopicPartition, node: NodeId, p: Path)
    requires Ready(migrating, reported) && tp in migrating
    ensures var plan, k := FolderPlan(migrating, expected, reported), TopicPartitionReplica(tp.topic, tp.partition, node);
      var current := CurrentBrokerPath(reported, tp).value;
      (k in plan && plan[k] == p)
      <==> (node, p) in expected(tp) && !(node in current && p in current.Values)
  {
    var k := TopicPartitionReplica(tp.topic, tp.partition, node);
    assert PartitionOf(k) == tp;
    FolderPlanKeys(migrating, expected, reported);
  }

  /** Adding one partition's folder moves to the plan of the others gives the plan of all. */
  lemma FolderPlanInsert(done: set<TopicPartition>, tp: TopicPartition,
                         expected: TopicPartition -> NodePlacement, reported: seq<Replica>)
    requires tp !in done
    ensures FolderPlan(done + {tp}, expected, reported)
         == FolderPlan(done, expected, reported) + PartitionFolderMoves(tp, expected, reported)
  {
    FolderMovesOwnKeys(done + {tp}, expected, reported);
    MergedInsert(done, tp, FolderMovesOf(expected, reported));
  }
}
