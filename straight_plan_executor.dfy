/**
 * The straight plan executor: the order in which it talks to the cluster.
 * The asynchronous run builds the broker-move and folder-move requests for
 * every migrating partition, then asks for broker moves, then folder moves,
 * then preferred-leader elections, each only after the previous one
 * succeeded. The synchronous run asks for every partition's replica
 * placement and waits for the migrations in order until one fails; only when
 * none failed does it ask for the leader elections and wait for them in
 * order until one fails.
 *
 * Each admin is a class whose `log` records the requests it received and the
 * tasks the executor waited on; which requests the cluster refuses is fixed
 * when the admin is made.
 */
module StraightPlanExecutor {
  import opened Collectors
  import opened Placement

  datatype Phase = BrokerMove | FolderMove | LeaderElect

  datatype Request =
    | MoveToBrokers(brokers: map<TopicPartition, seq<NodeId>>)
    | MoveToFolders(folders: map<TopicPartitionReplica, Path>)
    | PreferredLeaderElection(partitions: set<TopicPartition>)
    | AlterReplicaPlacements(partition: TopicPartition, placement: seq<(NodeId, Path)>)
    | AwaitMigration(partition: TopicPartition)
    | LeaderElection(partition: TopicPartition)
    | AwaitElection(partition: TopicPartition)

  /** How an asynchronous run ends. */
  datatype Outcome =
    | Completed
    | DuplicateReplica(partition: TopicPartition, node: NodeId)
    | Rejected(phase: Phase)

  // ---------------------------------------------------------------------------
  // The asynchronous run.

  /** The cluster client of the asynchronous run. */
  class Admin {
    /** The replicas the cluster reports for every topic. */
    const reported: seq<Replica>
    /** The requests whose returned stage completes exceptionally. */
    const rejected: set<Phase>
    var log: seq<Request>

    constructor (reported: seq<Replica>, rejected: set<Phase>)
      ensures this.reported == reported && this.rejected == rejected && log == []
    {
      this.reported := reported;
      this.rejected := rejected;
      log := [];
    }

    method RequestBrokerMoves(brokers: map<TopicPartition, seq<NodeId>>) returns (ok: bool)
      modifies this
      ensures log == old(log) + [MoveToBrokers(brokers)]
      ensures ok <==> BrokerMove !in rejected
    {
      log := log + [MoveToBrokers(brokers)];
      ok := BrokerMove !in rejected;
    }

    method RequestFolderMoves(folders: map<TopicPartitionReplica, Path>) returns (ok: bool)
      modifies this
      ensures log == old(log) + [MoveToFolders(folders)]
      ensures ok <==> FolderMove !in rejected
    {
      log := log + [MoveToFolders(folders)];
      ok := FolderMove !in rejected;
    }

    method RequestPreferredLeaders(partitions: set<TopicPartition>) returns (ok: bool)
      modifies this
      ensures log == old(log) + [PreferredLeaderElection(partitions)]
      ensures ok <==> LeaderElect !in rejected
    {
      log := log + [PreferredLeaderElection(partitions)];
      ok := LeaderElect !in rejected;
    }
  }

  /**
   * The requests of an asynchronous run: none when some partition's current
   * map cannot be collected; otherwise the broker moves, and each later
   * request only when the one before it succeeded.
   */
  function AsyncRequests(migrating: set<TopicPartition>, expected: TopicPartition -> NodePlacement,
                         reported: seq<Replica>, rejected: set<Phase>): (t: seq<Request>)
    ensures |t| <= 3
    ensures t != [] <==> Ready(migrating, reported)
    ensures |t| == 3 <==> Ready(migrating, reported) && BrokerMove !in rejected && FolderMove !in rejected
  {
    if !Ready(migrating, reported) then []
    else
      [MoveToBrokers(BrokerPlan(migrating, expected))]
      + if BrokerMove in rejected then []
        else
          [MoveToFolders(FolderPlan(migrating, expected, reported))]
          + if FolderMove in rejected then [] else [PreferredLeaderElection(migrating)]
  }

  /** The outcome of an asynchronous run whose requests could all be built. */
  function RequestOutcome(rejected: set<Phase>): Outcome {
    if BrokerMove in rejected then Rejected(BrokerMove)
    else if FolderMove in rejected then Rejected(FolderMove)
    else if LeaderElect in rejected then Rejected(LeaderElect)
    else Completed
  }

  /** The two request maps, or the partition whose current map could not be collected. */
  datatype Collected =
    | Plans(brokers: map<TopicPartition, seq<NodeId>>, folders: map<TopicPartitionReplica, Path>)
    | Duplicate(partition: TopicPartition, node: NodeId)

  /** One pass of the `forEach` body keeps both maps equal to the plans of the partitions seen so far. */
  lemma CollectStep(done: set<TopicPartition>, tp: TopicPartition, expected: TopicPartition -> NodePlacement,
                    reported: seq<Replica>)
    requires Ready(done, reported) && tp !in done && CurrentBrokerPath(reported, tp).Ok?
    ensures Ready(done + {tp}, reported)
    ensures BrokerPlan(done + {tp}, expected) == BrokerPlan(done, expected)[tp := KeysOf(expected(tp))]
    ensures FolderPlan(done + {tp}, expected, reported)
         == FolderPlan(done, expected, reported) + FolderMoves(tp, expected(tp), CurrentBrokerPath(reported, tp).value)
  {
    FolderPlanInsert(done, tp, expected, reported);
    BrokerPlanInsert(done, tp, expected);
  }

  /**
   * The `forEach` over the migrating partitions: for each one, compute its
   * expected placement and its current map, then put its node list into the
   * broker-move map and its folder moves into the folder-move map.
   */
  method CollectRequests(admin: Admin, migrating: set<TopicPartition>, expected: TopicPartition -> NodePlacement)
    returns (c: Collected)
    ensures c.Duplicate? <==> !Ready(migrating, admin.reported)
    ensures c.Duplicate? ==> c.partition in migrating && CurrentBrokerPath(admin.reported, c.partition) == Err(c.node)
    ensures c.Plans? ==>
              c.brokers == BrokerPlan(migrating, expected) && c.folders == FolderPlan(migrating, expected, admin.reported)
  {
    var brokerItems: map<TopicPartition, seq<NodeId>> := map[];
    var folderItems: map<TopicPartitionReplica, Path> := map[];
    var remaining := migrating;
    ghost var done: set<TopicPartition> := {};
    while remaining != {}
      invariant remaining <= migrating && done == migrating - remaining
      invariant Ready(done, admin.reported)
      invariant brokerItems == BrokerPlan(done, expected)
      invariant folderItems == FolderPlan(done, expected, admin.reported)
      decreases remaining
    {
      var tp :| tp in remaining;
      var placement := expected(tp);
      var current := CurrentBrokerPath(admin.reported, tp);
      if current.Err? {
        return Duplicate(tp, current.error);
      }
      var moves := FolderMoves(tp, placement, current.value);
      CollectStep(done, tp, expected, admin.reported);
      brokerItems := brokerItems[tp := KeysOf(placement)];
      folderItems := folderItems + moves;
      remaining := remaining - {tp};
      done := done + {tp};
    }
    return Plans(brokerItems, folderItems);
  }

  /**
   * The asynchronous `run`: collect the two request maps, then issue the
   * three requests in phase order, each after the previous one succeeded.
   */
  method RunAsync(admin: Admin, migrating: set<TopicPartition>, placements: TopicPartition -> seq<Replica>)
    returns (outcome: Outcome)
    modifies admin
    ensures admin.log == old(admin.log) + AsyncRequests(migrating, ExpectedOf(placements), admin.reported, admin.rejected)
    ensures outcome.DuplicateReplica? <==> !Ready(migrating, admin.reported)
    ensures outcome.DuplicateReplica? ==>
              outcome.partition in migrating && CurrentBrokerPath(admin.reported, outcome.partition) == Err(outcome.node)
    ensures !outcome.DuplicateReplica? ==> outcome == RequestOutcome(admin.rejected)
  {
    var c := CollectRequests(admin, migrating, ExpectedOf(placements));
    if c.Duplicate? {
      return DuplicateReplica(c.partition, c.node);
    }
    var ok := admin.RequestBrokerMoves(c.brokers);
    if !ok {
      return Rejected(BrokerMove);
    }
    ok := admin.RequestFolderMoves(c.folders);
    if !ok {
      return Rejected(FolderMove);
    }
    ok := admin.RequestPreferredLeaders(migrating);
    if !ok {
      return Rejected(LeaderElect);
    }
    return Completed;
  }

  /**
   * Phase order of the asynchronous run: the broker moves come first, the
   * folder moves second and only when the broker moves succeeded, the
   * elections third and only when the folder moves succeeded.
   */
  lemma AsyncPhaseOrder(migrating: set<TopicPartition>, expected: TopicPartition -> NodePlacement,
                        reported: seq<Replica>, rejected: set<Phase>)
    ensures var t := AsyncRequests(migrating, expected, reported, rejected);
      && |t| <= 3
      && (forall i :: 0 <= i < |t| && t[i].MoveToBrokers? ==> i == 0)
      && (forall i :: 0 <= i < |t| && t[i].MoveToFolders? ==>
            i == 1 && t[0].MoveToBrokers? && BrokerMove !in rejected)
      && (forall i :: 0 <= i < |t| && t[i].PreferredLeaderElection? ==>
            i == 2 && t[1].MoveToFolders? && FolderMove !in rejected)
      && (t != [] <==> Ready(migrating, reported))
  {
  }

  /**
   * The requests of a ready run carry the broker and folder plans of the
   * migrating partitions and elect exactly those partitions.
   */
  lemma AsyncRequestsCarryPlans(migrating: set<TopicPartition>, expected: TopicPartition -> NodePlacement,
                                reported: seq<Replica>, rejected: set<Phase>)
    requires Ready(migrating, reported)
    ensures var t := AsyncRequests(migrating, expected, reported, rejected);
      forall r :: r in t ==>
        && (r.MoveToBrokers? ==>
              r.brokers.Keys == migrating && forall tp :: tp in migrating ==> r.brokers[tp] == KeysOf(expected(tp)))
        && (r.MoveToFolders? ==> forall k :: k in r.folders ==> PartitionOf(k) in migrating)
        && (r.PreferredLeaderElection? ==> r.partitions == migrating)
  {
    FolderPlanKeys(migrating, expected, reported);
  }

  /**
   * With no migrating partition the run still issues its requests, each
   * with an empty argument.
   */
  lemma AsyncEmptyMigration(expected: TopicPartition -> NodePlacement, reported: seq<Replica>, rejected: set<Phase>)
    ensures var t := AsyncRequests({}, expected, reported, rejected);
      && t != []
      && forall r :: r in t ==>
           && (r.MoveToBrokers? ==> r.brokers == map[])
           && (r.MoveToFolders? ==> r.folders == map[])
           && (r.PreferredLeaderElection? ==> r.partitions == {})
  {
    FolderPlanKeys({}, expected, reported);
  }

  // ---------------------------------------------------------------------------
  // The synchronous run.

  /** The cluster client of the synchronous run. */
  class RebalanceAdmin {
    /** Partitions whose replica-migration task completes exceptionally. */
    const failedMigrations: set<TopicPartition>
    /** Partitions whose leader-election task completes exceptionally. */
    const failedElections: set<TopicPartition>
    var log: seq<Request>

    constructor (failedMigrations: set<TopicPartition>, failedElections: set<TopicPartition>)
      ensures this.failedMigrations == failedMigrations && this.failedElections == failedElections
      ensures log == []
    {
      this.failedMigrations := failedMigrations;
      this.failedElections := failedElections;
      log := [];
    }

    method AlterPlacement(tp: TopicPartition, placement: seq<(NodeId, Path)>)
      modifies this
      ensures log == old(log) + [AlterReplicaPlacements(tp, placement)]
    {
      log := log + [AlterReplicaPlacements(tp, placement)];
    }

    /** Waits for a partition's migration; false when it completed exceptionally. */
    method JoinMigration(tp: TopicPartition) returns (ok: bool)
      modifies this
      ensures log == old(log) + [AwaitMigration(tp)]
      ensures ok <==> tp !in failedMigrations
    {
      log := log + [AwaitMigration(tp)];
      ok := tp !in failedMigrations;
    }

    method ElectLeader(tp: TopicPartition)
      modifies this
      ensures log == old(log) + [LeaderElection(tp)]
    {
      log := log + [LeaderElection(tp)];
    }

    /** Waits for a partition's election; false when it completed exceptionally. */
    method JoinElection(tp: TopicPartition) returns (ok: bool)
      modifies this
      ensures log == old(log) + [AwaitElection(tp)]
      ensures ok <==> tp !in failedElections
    {
      log := log + [AwaitElection(tp)];
      ok := tp !in failedElections;
    }
  }

  /** Position of the first partition of `order` in `failed`, or `|order|`. */
  function FirstFailed(order: seq<TopicPartition>, failed: set<TopicPartition>): (i: nat)
    ensures i <= |order|
    ensures i < |order| ==> order[i] in failed
    ensures forall j :: 0 <= j < i ==> order[j] !in failed
  {
    if order == [] || order[0] in failed then 0 else 1 + FirstFailed(order[1..], failed)
  }

  lemma FirstFailedPins(order: seq<TopicPartition>, failed: set<TopicPartition>, i: nat)
    requires i <= |order|
    requires i < |order| ==> order[i] in failed
    requires forall j :: 0 <= j < i ==> order[j] !in failed
    ensures FirstFailed(order, failed) == i
  {
  }

  /** The partitions of `order` waited on: up to and including the first failure. */
  function Joined(order: seq<TopicPartition>, failed: set<TopicPartition>): seq<TopicPartition> {
    var f := FirstFailed(order, failed);
    if f < |order| then order[..f + 1] else order
  }

  function Alters(order: seq<TopicPartition>, expected: TopicPartition -> NodePlacement): (t: seq<Request>)
    ensures |t| == |order|
    ensures forall i :: 0 <= i < |order| ==> t[i] == AlterReplicaPlacements(order[i], expected(order[i]))
  {
    if order == [] then []
    else Alters(order[..|order| - 1], expected) + [AlterReplicaPlacements(order[|order| - 1], expected(order[|order| - 1]))]
  }

  function MigrationAwaits(order: seq<TopicPartition>): (t: seq<Request>)
    ensures |t| == |order|
    ensures forall i :: 0 <= i < |order| ==> t[i] == AwaitMigration(order[i])
  {
    if order == [] then [] else MigrationAwaits(order[..|order| - 1]) + [AwaitMigration(order[|order| - 1])]
  }

  function Elections(order: seq<TopicPartition>): (t: seq<Request>)
    ensures |t| == |order|
    ensures forall i :: 0 <= i < |order| ==> t[i] == LeaderElection(order[i])
  {
    if order == [] then [] else Elections(order[..|order| - 1]) + [LeaderElection(order[|order| - 1])]
  }

  function ElectionAwaits(order: seq<TopicPartition>): (t: seq<Request>)
    ensures |t| == |order|
    ensures forall i :: 0 <= i < |order| ==> t[i] == AwaitElection(order[i])
  {
    if order == [] then [] else ElectionAwaits(order[..|order| - 1]) + [AwaitElection(order[|order| - 1])]
  }

  /**
   * The requests and waits of a synchronous run over the migrating
   * partitions in stream order, given each partition's expected placement:
   * every placement change, then the waits up to the first failed
   * migration; the elections and their waits only when no migration failed.
   */
  function SyncRequests(order: seq<TopicPartition>, expected: TopicPartition -> NodePlacement,
                        failedMigrations: set<TopicPartition>, failedElections: set<TopicPartition>): (t: seq<Request>)
    ensures |t| >= |order|
    ensures forall i :: 0 <= i < |order| ==> t[i] == AlterReplicaPlacements(order[i], expected(order[i]))
    ensures FirstFailed(order, failedMigrations) < |order| ==>
              |t| == |order| + FirstFailed(order, failedMigrations) + 1
    ensures FirstFailed(order, failedMigrations) == |order| ==>
              |t| == 3 * |order| + |Joined(order, failedElections)|
  {
    var alters := Alters(order, expected);
    var awaits := MigrationAwaits(Joined(order, failedMigrations));
    var elections: seq<Request> :=
      if FirstFailed(order, failedMigrations) < |order| then []
      else Elections(order) + ElectionAwaits(Joined(order, failedElections));
    assert forall i :: 0 <= i < |alters| ==> (alters + awaits + elections)[i] == alters[i];
    alters + awaits + elections
  }

  /**
   * The first stage: one placement change per partition, in stream order;
   * `expected` is the run's per-partition placement function.
   */
  method RequestMigrations(admin: RebalanceAdmin, order: seq<TopicPartition>,
                           expected: TopicPartition -> NodePlacement)
    modifies admin
    ensures admin.log == old(admin.log) + Alters(order, expected)
  {
    var i := 0;
    while i < |order|
      invariant 0 <= i <= |order|
      invariant admin.log == old(admin.log) + Alters(order[..i], expected)
    {
      assert order[..i + 1][..i] == order[..i];
      admin.AlterPlacement(order[i], expected(order[i]));
      i := i + 1;
    }
    assert order[..|order|] == order;
  }

  /** The second stage: wait for each migration until one fails. */
  method AwaitMigrations(admin: RebalanceAdmin, order: seq<TopicPartition>) returns (ok: bool)
    modifies admin
    ensures admin.log == old(admin.log) + MigrationAwaits(Joined(order, admin.failedMigrations))
    ensures ok <==> FirstFailed(order, admin.failedMigrations) == |order|
  {
    var i := 0;
    while i < |order|
      invariant 0 <= i <= |order|
      invariant forall j :: 0 <= j < i ==> order[j] !in admin.failedMigrations
      invariant admin.log == old(admin.log) + MigrationAwaits(order[..i])
    {
      assert order[..i + 1][..i] == order[..i];
      ok := admin.JoinMigration(order[i]);
      if !ok {
        FirstFailedPins(order, admin.failedMigrations, i);
        return;
      }
      i := i + 1;
    }
    assert order[..|order|] == order;
    FirstFailedPins(order, admin.failedMigrations, |order|);
    ok := true;
  }

  /** The third stage: one leader election per partition, in stream order. */
  method RequestElections(admin: RebalanceAdmin, order: seq<TopicPartition>)
    modifies admin
    ensures admin.log == old(admin.log) + Elections(order)
  {
    var i := 0;
    while i < |order|
      invariant 0 <= i <= |order|
      invariant admin.log == old(admin.log) + Elections(order[..i])
    {
      assert order[..i + 1][..i] == order[..i];
      admin.ElectLeader(order[i]);
      i := i + 1;
    }
    assert order[..|order|] == order;
  }

  /** The last stage: wait for each election until one fails. */
  method AwaitElections(admin: RebalanceAdmin, order: seq<TopicPartition>) returns (ok: bool)
    modifies admin
    ensures admin.log == old(admin.log) + ElectionAwaits(Joined(order, admin.failedElections))
    ensures ok <==> FirstFailed(order, admin.failedElections) == |order|
  {
    var i := 0;
    while i < |order|
      invariant 0 <= i <= |order|
      invariant forall j :: 0 <= j < i ==> order[j] !in admin.failedElections
      invariant admin.log == old(admin.log) + ElectionAwaits(order[..i])
    {
      assert order[..i + 1][..i] == order[..i];
      ok := admin.JoinElection(order[i]);
      if !ok {
        FirstFailedPins(order, admin.failedElections, i);
        return;
      }
      i := i + 1;
    }
    assert order[..|order|] == order;
    FirstFailedPins(order, admin.failedElections, |order|);
    ok := true;
  }

  /** No partition of `order` is in `failed` exactly when none is found first. */
  lemma NoneFailed(order: seq<TopicPartition>, failed: set<TopicPartition>)
    ensures FirstFailed(order, failed) == |order| <==> forall tp :: tp in order ==> tp !in failed
  {
    if FirstFailed(order, failed) < |order| {
      assert order[FirstFailed(order, failed)] in order;
    }
  }

  /**
   * The synchronous `run`: ask for every partition's new placement, wait for
   * every migration, then ask for and wait for every leader election. A
   * failed wait ends the run.
   */
  method RunSync(admin: RebalanceAdmin, order: seq<TopicPartition>, placements: TopicPartition -> seq<Replica>)
    returns (ok: bool)
    modifies admin
    ensures admin.log == old(admin.log)
              + SyncRequests(order, ExpectedOf(placements), admin.failedMigrations, admin.failedElections)
    ensures ok <==> forall tp :: tp in order ==> tp !in admin.failedMigrations && tp !in admin.failedElections
  {
    NoneFailed(order, admin.failedMigrations);
    NoneFailed(order, admin.failedElections);
    ghost var log0 := admin.log;
    ghost var alters := Alters(order, ExpectedOf(placements));
    ghost var awaits := MigrationAwaits(Joined(order, admin.failedMigrations));
    RequestMigrations(admin, order, ExpectedOf(placements));
    ok := AwaitMigrations(admin, order);
    assert admin.log == log0 + alters + awaits;
    if !ok {
      assert SyncRequests(order, ExpectedOf(placements), admin.failedMigrations, admin.failedElections) == alters + awaits;
      AppendAssoc(log0, alters, awaits);
      return;
    }
    ghost var elections := Elections(order);
    ghost var after := ElectionAwaits(Joined(order, admin.failedElections));
    RequestElections(admin, order);
    ok := AwaitElections(admin, order);
    assert admin.log == log0 + alters + awaits + elections + after;
    assert SyncRequests(order, ExpectedOf(placements), admin.failedMigrations, admin.failedElections)
        == alters + awaits + (elections + after);
    AppendAssoc(alters + awaits, elections, after);
    AppendAssoc(log0, alters, awaits);
    AppendAssoc(log0, alters + awaits, elections + after);
    AppendAssoc(log0 + alters + awaits, elections, after);
  }

  lemma AppendAssoc<T>(a: seq<T>, b: seq<T>, c: seq<T>)
    ensures a + (b + c) == a + b + c
  {
  }

  /** The partitions a request sequence asks to elect leaders for, in order. */
  function Elected(t: seq<Request>): seq<TopicPartition> {
    if t == [] then []
    else (if t[0].LeaderElection? then [t[0].partition] else []) + Elected(t[1..])
  }

  lemma {:induction false} ElectedAppend(a: seq<Request>, b: seq<Request>)
    ensures Elected(a + b) == Elected(a) + Elected(b)
  {
    if a == [] {
      assert a + b == b;
    } else {
      assert (a + b)[0] == a[0];
      assert (a + b)[1..] == a[1..] + b;
      ElectedAppend(a[1..], b);
    }
  }

  lemma {:induction false} NoElectionIn(t: seq<Request>)
    requires forall i :: 0 <= i < |t| ==> !t[i].LeaderElection?
    ensures Elected(t) == []
  {
    if t != [] {
      NoElectionIn(t[1..]);
    }
  }

  lemma {:induction false} ElectedOfElections(order: seq<TopicPartition>)
    ensures Elected(Elections(order)) == order
  {
    if order != [] {
      var init := order[..|order| - 1];
      ElectedOfElections(init);
      ElectedAppend(Elections(init), [LeaderElection(order[|order| - 1])]);
      assert Elected([LeaderElection(order[|order| - 1])]) == [order[|order| - 1]];
      assert init + [order[|order| - 1]] == order;
    }
  }

  /**
   * A synchronous run asks for one leader election per migrating partition,
   * in stream order, when every migration succeeded, and for none when one
   * failed.
   */
  lemma SyncElectsEachPartition(order: seq<TopicPartition>, expected: TopicPartition -> NodePlacement,
                                failedMigrations: set<TopicPartition>, failedElections: set<TopicPartition>)
    ensures Elected(SyncRequests(order, expected, failedMigrations, failedElections))
         == if forall tp :: tp in order ==> tp !in failedMigrations then order else []
  {
    var alters := Alters(order, expected);
    var awaits := MigrationAwaits(Joined(order, failedMigrations));
    var after := ElectionAwaits(Joined(order, failedElections));
    NoneFailed(order, failedMigrations);
    NoElectionIn(alters);
    NoElectionIn(awaits);
    NoElectionIn(after);
    ElectedAppend(alters, awaits);
    if FirstFailed(order, failedMigrations) < |order| {
      assert SyncRequests(order, expected, failedMigrations, failedElections) == alters + awaits;
    } else {
      ElectedOfElections(order);
      ElectedAppend(Elections(order), after);
      ElectedAppend(alters + awaits, Elections(order) + after);
      assert SyncRequests(order, expected, failedMigrations, failedElections) == alters + awaits + (Elections(order) + after);
    }
  }

  /** In a synchronous run every placement change comes before every wait and every election. */
  lemma SyncAltersFirst(order: seq<TopicPartition>, expected: TopicPartition -> NodePlacement,
                        failedMigrations: set<TopicPartition>, failedElections: set<TopicPartition>)
    ensures var t := SyncRequests(order, expected, failedMigrations, failedElections);
      forall i, j :: 0 <= i < |t| && 0 <= j < |t| && t[i].AlterReplicaPlacements? && !t[j].AlterReplicaPlacements?
        ==> i < j
  {
    var n := |order|;
    var alters := Alters(order, expected);
    var awaits := MigrationAwaits(Joined(order, failedMigrations));
    var rest: seq<Request> := if FirstFailed(order, failedMigrations) < n then []
                              else Elections(order) + ElectionAwaits(Joined(order, failedElections));
    AppendAssoc(alters, awaits, rest);
    var later := awaits + rest;
    assert forall i :: 0 <= i < |later| ==> !later[i].AlterReplicaPlacements?;
  }

  /**
   * In a synchronous run every migration has been waited on, successfully,
   * before the first leader election is asked for.
   */
  lemma SyncMigrationsBeforeElections(order: seq<TopicPartition>, expected: TopicPartition -> NodePlacement,
                                      failedMigrations: set<TopicPartition>, failedElections: set<TopicPartition>)
    ensures var t := SyncRequests(order, expected, failedMigrations, failedElections);
      forall j :: 0 <= j < |t| && t[j].LeaderElection? ==>
        forall tp :: tp in order ==> AwaitMigration(tp) in t[..j] && tp !in failedMigrations
  {
    var t := SyncRequests(order, expected, failedMigrations, failedElections);
    var alters := Alters(order, expected);
    var awaits := MigrationAwaits(Joined(order, failedMigrations));
    NoneFailed(order, failedMigrations);
    if FirstFailed(order, failedMigrations) == |order| {
      var rest := Elections(order) + ElectionAwaits(Joined(order, failedElections));
      assert t == alters + MigrationAwaits(order) + rest;
      AwaitedBeforeElections(order, alters, rest);
    } else {
      assert t == alters + awaits;
      assert forall i :: 0 <= i < |t| ==> !t[i].LeaderElection?;
    }
  }

  lemma AwaitedBeforeElections(order: seq<TopicPartition>, before: seq<Request>, rest: seq<Request>)
    requires |before| == |order|
    requires forall i :: 0 <= i < |before| ==> !before[i].LeaderElection?
    ensures var t := before + MigrationAwaits(order) + rest;
      forall j :: 0 <= j < |t| && t[j].LeaderElection? ==> forall tp :: tp in order ==> AwaitMigration(tp) in t[..j]
  {
    var n := |order|;
    var awaits := MigrationAwaits(order);
    var t := before + awaits + rest;
    assert forall i :: 0 <= i < n ==> t[i] == before[i];
    assert forall i :: n <= i < n + n ==> t[i] == awaits[i - n];
    forall j | 0 <= j < |t| && t[j].LeaderElection?
      ensures forall tp :: tp in order ==> AwaitMigration(tp) in t[..j]
    {
      forall tp | tp in order ensures AwaitMigration(tp) in t[..j] {
        var k :| 0 <= k < n && order[k] == tp;
        assert t[..j][n + k] == awaits[k];
      }
    }
  }
}
