# Straight plan executor and cluster wait, modelled in Dafny

This project models two pieces of sequential logic from the admin layer of a partitioned-log cluster balancer.

1. **The convergence wait** in `AsyncAdmin`.
   - `loop` polls a supplier until the observation has been `true` for `debounce + 1` evaluations in a row, until an evaluation fails (the loop then ends with that failure), or until the time budget is spent.
   - `waitCluster` feeds `loop` with a cluster predicate and turns retriable failures into `false`.
   - `brokerFolders` projects each broker to the set of its data-folder paths.
2. **The straight plan executor** in `StraightPlanExecutor`, both `run` overloads.
   - For every migrating partition it builds the expected placement: node to folder, preferred leader first, first occurrence of a node wins.
   - From that it builds the broker-move request and the folder-move request.
   - It talks to the admin in a fixed phase order.

The files are:

- `collectors.dfy` (module `Collectors`) models the two Java collectors the core uses.
  - `Collectors.toMap` without a merge function fails on the first repeated key.
  - `toMap(…, (e1, e2) -> e1, LinkedHashMap::new)` keeps the first value of each key, in first-seen order.
- `async_admin.dfy` (module `AsyncAdmin`) contains `Loop`, `WaitCluster` and `BrokerFolders`.
  - The supplier is a trace of steps. Each step is what one evaluation completes with, plus the wall time it took including the 300 ms pause.
  - A reference description, `Explains`, characterises the outcome without the recursion.
- `placement.dfy` (module `Placement`) holds the pure stream pipelines of the two runs:
  - the stable sort with preferred leaders first (`PreferredFirst`);
  - the expected placement, which both runs use (the synchronous run passes it to each placement change through `ExpectedOf`);
  - the current node-to-path map and the folder-move filter of the asynchronous run;
  - the two request maps of a whole asynchronous run.
- `straight_plan_executor.dfy` (module `StraightPlanExecutor`) holds the admin clients and the two runs.
  - Each admin is a class with a request log.
  - The asynchronous run fills the two maps in a loop over the migrating set, then requests broker moves, folder moves and leader elections, each only after the previous request succeeded.
  - The synchronous run has four stages. It requests every placement change, then waits for the migrations in order until one fails. Only when none failed does it request every leader election, then it waits for them in order until one fails.
  - Each method is proved against a function (`AsyncRequests`, `SyncRequests`) whose properties are proved as lemmas.

Points of the code's behaviour that the model keeps as written:

- **Synchronous run.** The code joins the migration tasks one after another. A failed join throws and ends the run, so later joins and all leader elections are skipped.
- **Asynchronous run.** The code reads each partition's current folders before it requests broker moves.
- **Empty migration set.** The asynchronous code still issues its requests, each with an empty argument (`AsyncEmptyMigration`).
- **Folder filter.** A replica is left out of the folder moves when its node is among the current replicas *and any* current replica of the partition uses the expected path. The code tests `containsKey(node) && containsValue(path)`, not the path on that node. The model keeps this as written: `FolderMoves`, `SwappedFoldersAreNotMoved`.

## Model

| member | source | states |
|---|---|---|
| `AsyncAdmin.Loop` | common/src/main/java/org/astraea/common/admin/AsyncAdmin.java:257-282 | The loop answers `false` without evaluating when the budget is spent on entry. It answers `true` at once on a `true` observation with the countdown at or below 0. A `true` or a failure outcome is the last evaluated step, and a pending outcome has used up the trace. |
| `AsyncAdmin.LoopFollowsTrace` | common/src/main/java/org/astraea/common/admin/AsyncAdmin.java:262-280 | The loop entered at step `next` has the budget minus the time spent so far. Its countdown is `debounce` minus the run of trues just before `next`: a `true` lowers it by one and a `false` resets it. Its result satisfies the reference description. |
| `AsyncAdmin.LoopExplained` | common/src/main/java/org/astraea/common/admin/AsyncAdmin.java:262-280 | Every wait started with the full budget and a full countdown ends as the reference description says. Every step before the last proceeded within budget without settling, and the last step explains the outcome. |
| `AsyncAdmin.LoopConvergesOnlyAfterDebounce` | common/src/main/java/org/astraea/common/admin/AsyncAdmin.java:269-280 | A `true` result means the last `debounce + 1` observations were all `true` (one when `debounce` is negative), all within the budget. |
| `AsyncAdmin.LoopConvergesOnStableStart` | common/src/main/java/org/astraea/common/admin/AsyncAdmin.java:269-277 | With `debounce + 1` leading trues and budget left for them, the wait answers `true` exactly on evaluation `debounce + 1`. |
| `AsyncAdmin.ElapsedAtLeastPauses` | common/src/main/java/org/astraea/common/admin/AsyncAdmin.java:272-274 | When every step includes the 300 ms pause, `n` steps take at least `n * 300` ms. |
| `AsyncAdmin.LoopTerminates` | common/src/main/java/org/astraea/common/admin/AsyncAdmin.java:262-274 | A spent budget evaluates nothing. Every evaluation starts with budget left, so there are at most `timeout / 300 + 1` evaluations. A trace long enough to spend the budget always reaches an outcome. |
| `AsyncAdmin.Recover` | common/src/main/java/org/astraea/common/admin/AsyncAdmin.java:243-250 | A failure becomes an observation exactly when it is a CompletionException with a retriable cause, and then it is `false`. Every other failure is passed on unchanged. |
| `AsyncAdmin.Recovered` | common/src/main/java/org/astraea/common/admin/AsyncAdmin.java:243-250 | Each evaluation's outcome goes through the recovery, and its elapsed time is kept: the recovered trace has one step per step of the raw trace. |
| `AsyncAdmin.WaitCluster` | common/src/main/java/org/astraea/common/admin/AsyncAdmin.java:234-255 | The wait starts with the whole timeout and countdown `debounce`. A non-positive timeout answers `false` at once. A raised failure is a non-retriable failure of the evaluation that raised it. A `true` answer follows `debounce + 1` raw `true` observations. |
| `AsyncAdmin.RetriableFailureIsFalse` | common/src/main/java/org/astraea/common/admin/AsyncAdmin.java:243-250 | Replacing a retriable failure by a `false` observation does not change the outcome of `waitCluster`. |
| `AsyncAdmin.WaitClusterExplained` | common/src/main/java/org/astraea/common/admin/AsyncAdmin.java:239-254 | `waitCluster` ends as the reference description says, on the recovered observations. |
| `AsyncAdmin.BrokerFolders` | common/src/main/java/org/astraea/common/admin/AsyncAdmin.java:81-93 | The projection succeeds iff no broker id repeats. Its keys are exactly the broker ids, and each maps to exactly the set of that broker's folder paths. A failure names an id held by two brokers. |
| `AsyncAdmin.IdFoldersKeySet` | common/src/main/java/org/astraea/common/admin/AsyncAdmin.java:85-92 | The ids paired with folder sets are exactly the brokers' ids. |
| `AsyncAdmin.IdFoldersHas` | common/src/main/java/org/astraea/common/admin/AsyncAdmin.java:85-92 | Every broker's id is paired with the set of that broker's folder paths. |
| `Collectors.ToMap` | common/src/main/java/org/astraea/common/balancer/executor/StraightPlanExecutor.java:125-128 | Collecting without a merge function succeeds iff no key repeats. It then holds exactly the input keys, each with its pair's value. Otherwise it fails on the first key that repeats an earlier one. |
| `Collectors.FirstWins` | common/src/main/java/org/astraea/common/balancer/executor/StraightPlanExecutor.java:109-114 | The first-wins collector has no repeated key, and it holds exactly the keys of its input. |
| `Collectors.FirstWinsFirstOccurrence` | common/src/main/java/org/astraea/common/balancer/executor/StraightPlanExecutor.java:109-114 | Each key of the first-wins collector carries the value of its first occurrence. Keys come in the order of their first occurrences. |
| `Collectors.FirstWinsKeepsDistinct` | common/src/main/java/org/astraea/common/balancer/executor/StraightPlanExecutor.java:109-114 | An input without repeated keys is collected unchanged. |
| `Placement.PreferredFirst` | common/src/main/java/org/astraea/common/balancer/executor/StraightPlanExecutor.java:105-108 | The sort is a permutation of the target replicas. Every preferred leader comes before every other replica, and the relative order within the leaders and within the others is kept. |
| `Placement.LeadersMembers` | common/src/main/java/org/astraea/common/balancer/executor/StraightPlanExecutor.java:105-108 | The leaders picked from a replica list are exactly its preferred-leader replicas. |
| `Placement.FollowersMembers` | common/src/main/java/org/astraea/common/balancer/executor/StraightPlanExecutor.java:105-108 | The others picked from a replica list are exactly its replicas that are not preferred leaders. |
| `Placement.PreferredFirstIsTheStableSort` | common/src/main/java/org/astraea/common/balancer/executor/StraightPlanExecutor.java:105-108 | Any arrangement with leaders first that keeps both relative orders is the sort: the stable sort is unique. |
| `Placement.SortedPairsAreTargetPairs` | common/src/main/java/org/astraea/common/balancer/executor/StraightPlanExecutor.java:105-114 | Sorting neither adds nor drops a (node, path) pair. |
| `Placement.ExpectedPlacement` | common/src/main/java/org/astraea/common/balancer/executor/StraightPlanExecutor.java:104-114 | The expected placement of a partition names no node twice, as a map built from the sorted replicas does. |
| `Placement.ExpectedPlacementNodes` | common/src/main/java/org/astraea/common/balancer/executor/StraightPlanExecutor.java:104-114 | Every target node is a key of the expected placement, and every entry is the node and path of some target replica. |
| `Placement.ExpectedPlacementFollowsSortedOrder` | common/src/main/java/org/astraea/common/balancer/executor/StraightPlanExecutor.java:104-114 | A repeated node keeps the path of its first replica in sorted order. Nodes come in the order the sorted replicas first name them. |
| `Placement.FirstAmongLeaders` | common/src/main/java/org/astraea/common/balancer/executor/StraightPlanExecutor.java:105-114 | A node first appears among the sorted leaders iff it hosts a preferred-leader replica. |
| `Placement.ExpectedPlacementLeadersFirst` | common/src/main/java/org/astraea/common/balancer/executor/StraightPlanExecutor.java:104-114 | A node hosting a preferred leader is listed before every node that does not. |
| `Placement.ExpectedPlacementOfDistinctNodes` | common/src/main/java/org/astraea/common/balancer/executor/StraightPlanExecutor.java:104-114 | When no node repeats in the target, the expected placement is the sorted (node, path) list itself. |
| `Placement.ExpectedNodes` | common/src/main/java/org/astraea/common/balancer/executor/StraightPlanExecutor.java:154 | The key list of the expected placement names no node twice. |
| `Placement.ExpectedNodesOfTarget` | common/src/main/java/org/astraea/common/balancer/executor/StraightPlanExecutor.java:152-154 | The broker list of a partition names each target node exactly once, and nodes that host a preferred leader come first. |
| `Placement.BrokerPlan` | common/src/main/java/org/astraea/common/balancer/executor/StraightPlanExecutor.java:152-154 | The broker-move request has exactly one entry per migrating partition, and each entry is the node list of that partition's expected placement, in order. |
| `Placement.BrokerPlanInsert` | common/src/main/java/org/astraea/common/balancer/executor/StraightPlanExecutor.java:152-154 | Putting one more partition's node list into the broker-move map gives the plan of all partitions seen. |
| `Placement.PartitionReplicas` | common/src/main/java/org/astraea/common/balancer/executor/StraightPlanExecutor.java:118-124 | The replicas kept for a partition are exactly the reported replicas of its topic and partition number. |
| `Placement.CurrentBrokerPath` | common/src/main/java/org/astraea/common/balancer/executor/StraightPlanExecutor.java:116-128 | Collecting a partition's reported replicas by node succeeds iff no node reports the partition twice. |
| `Placement.CurrentBrokerPathEntries` | common/src/main/java/org/astraea/common/balancer/executor/StraightPlanExecutor.java:116-128 | The current map sends each reported replica's node to that replica's path, and has no other node. |
| `Placement.FolderMoves` | common/src/main/java/org/astraea/common/balancer/executor/StraightPlanExecutor.java:131-148 | There is a move for (partition, node) to `p` iff `(node, p)` is expected and not both of these hold: the node is current, and some current replica uses `p`. Every move names the partition itself. |
| `Placement.SettledPartitionNeedsNoFolderMove` | common/src/main/java/org/astraea/common/balancer/executor/StraightPlanExecutor.java:135-148 | A partition whose current map already agrees with its expected placement contributes no folder move. |
| `Placement.SwappedFoldersAreNotMoved` | common/src/main/java/org/astraea/common/balancer/executor/StraightPlanExecutor.java:138-140 | Any two replicas on distinct nodes that swapped their folders get no folder move, because the path test looks at every current path. |
| `Placement.PartitionFolderMoves` | common/src/main/java/org/astraea/common/balancer/executor/StraightPlanExecutor.java:141-148 | Every folder move of a partition names that partition, so merging partitions never overwrites an entry. |
| `Placement.MergedInsert` | common/src/main/java/org/astraea/common/balancer/executor/StraightPlanExecutor.java:155 | When partitions' moves name only their own partition, merging one more partition's moves is the union with the moves merged so far. |
| `Placement.FolderPlan` | common/src/main/java/org/astraea/common/balancer/executor/StraightPlanExecutor.java:99-100 | Every entry of the folder-move request belongs to a migrating partition. |
| `Placement.FolderPlanKeys` | common/src/main/java/org/astraea/common/balancer/executor/StraightPlanExecutor.java:155 | The folder-move request holds exactly the folder moves of the migrating partitions, with their paths. |
| `Placement.FolderPlanEntry` | common/src/main/java/org/astraea/common/balancer/executor/StraightPlanExecutor.java:135-155 | For a migrating partition, a move of (partition, node) to `p` is requested iff `(node, p)` is expected and it is not the case that the node is current while some current replica uses `p`. |
| `Placement.FolderPlanInsert` | common/src/main/java/org/astraea/common/balancer/executor/StraightPlanExecutor.java:155 | `putAll` of one more partition's moves gives the folder plan of all partitions seen. |
| `StraightPlanExecutor.Admin.RequestBrokerMoves` | common/src/main/java/org/astraea/common/balancer/executor/StraightPlanExecutor.java:157-158 | The call is appended to the admin's log with its map, and it succeeds iff the cluster does not refuse broker moves. |
| `StraightPlanExecutor.Admin.RequestFolderMoves` | common/src/main/java/org/astraea/common/balancer/executor/StraightPlanExecutor.java:164 | The call is appended to the log with its map, and it succeeds iff the cluster does not refuse folder moves. |
| `StraightPlanExecutor.Admin.RequestPreferredLeaders` | common/src/main/java/org/astraea/common/balancer/executor/StraightPlanExecutor.java:165 | The call is appended to the log with its partitions, and it succeeds iff the cluster does not refuse elections. |
| `StraightPlanExecutor.AsyncRequests` | common/src/main/java/org/astraea/common/balancer/executor/StraightPlanExecutor.java:157-165 | At most three requests. Nothing is requested iff some current map cannot be collected, and all three are requested iff neither the broker moves nor the folder moves were refused. |
| `StraightPlanExecutor.CollectStep` | common/src/main/java/org/astraea/common/balancer/executor/StraightPlanExecutor.java:152-155 | One pass of the `forEach` body extends both request maps to the plans of the partitions seen so far. |
| `StraightPlanExecutor.CollectRequests` | common/src/main/java/org/astraea/common/balancer/executor/StraightPlanExecutor.java:102-156 | The loop fails iff some migrating partition reports a node twice, and then names that partition and node. Otherwise it yields exactly the broker plan and the folder plan of the migrating set. |
| `StraightPlanExecutor.RunAsync` | common/src/main/java/org/astraea/common/balancer/executor/StraightPlanExecutor.java:83-168 | The admin receives exactly `AsyncRequests`. A duplicate report fails before any request. Otherwise the outcome is the first rejected phase, or success. |
| `StraightPlanExecutor.AsyncPhaseOrder` | common/src/main/java/org/astraea/common/balancer/executor/StraightPlanExecutor.java:157-165 | Broker moves come first, folder moves second and only after the broker moves succeeded, and elections third and only after the folder moves succeeded. Nothing is requested iff a current map cannot be collected. |
| `StraightPlanExecutor.AsyncRequestsCarryPlans` | common/src/main/java/org/astraea/common/balancer/executor/StraightPlanExecutor.java:152-165 | The broker-move request maps each migrating partition to the nodes of its expected placement, in order. Every folder move belongs to a migrating partition, and the election names exactly the migrating set. |
| `StraightPlanExecutor.AsyncEmptyMigration` | common/src/main/java/org/astraea/common/balancer/executor/StraightPlanExecutor.java:157-165 | With no migrating partition the run still issues its requests, each with an empty argument. |
| `StraightPlanExecutor.RebalanceAdmin.AlterPlacement` | common/src/main/java/org/astraea/common/balancer/executor/StraightPlanExecutor.java:54-64 | The placement change is appended to the admin's log with its partition and placement. |
| `StraightPlanExecutor.RebalanceAdmin.JoinMigration` | common/src/main/java/org/astraea/common/balancer/executor/StraightPlanExecutor.java:72 | The wait is appended to the log, and it succeeds iff that partition's migration does not fail. |
| `StraightPlanExecutor.RebalanceAdmin.ElectLeader` | common/src/main/java/org/astraea/common/balancer/executor/StraightPlanExecutor.java:76 | The leader election is appended to the log with its partition. |
| `StraightPlanExecutor.RebalanceAdmin.JoinElection` | common/src/main/java/org/astraea/common/balancer/executor/StraightPlanExecutor.java:79 | The wait is appended to the log, and it succeeds iff that partition's election does not fail. |
| `StraightPlanExecutor.SyncRequests` | common/src/main/java/org/astraea/common/balancer/executor/StraightPlanExecutor.java:67-79 | The placement changes come first, one per partition in stream order. A failed migration ends the requests right after its wait. Otherwise every partition gets a change, a wait and an election, followed by the election waits up to the first failure. |
| `StraightPlanExecutor.RequestMigrations` | common/src/main/java/org/astraea/common/balancer/executor/StraightPlanExecutor.java:51-68 | One placement change per partition, in stream order, each with that partition's expected placement. |
| `StraightPlanExecutor.AwaitMigrations` | common/src/main/java/org/astraea/common/balancer/executor/StraightPlanExecutor.java:69-72 | Migrations are waited on in order up to and including the first failed one. The stage succeeds iff none failed. |
| `StraightPlanExecutor.RequestElections` | common/src/main/java/org/astraea/common/balancer/executor/StraightPlanExecutor.java:75-78 | One leader election per partition, in stream order. |
| `StraightPlanExecutor.AwaitElections` | common/src/main/java/org/astraea/common/balancer/executor/StraightPlanExecutor.java:77-79 | Elections are waited on in order up to and including the first failed one. The stage succeeds iff none failed. |
| `StraightPlanExecutor.RunSync` | common/src/main/java/org/astraea/common/balancer/executor/StraightPlanExecutor.java:45-80 | The admin receives exactly `SyncRequests`. The run succeeds iff no migration and no election failed. |
| `StraightPlanExecutor.SyncElectsEachPartition` | common/src/main/java/org/astraea/common/balancer/executor/StraightPlanExecutor.java:67-79 | When every migration succeeded, the elections requested are exactly the migrating partitions, once each, in stream order. When one failed, there are none. |
| `StraightPlanExecutor.SyncAltersFirst` | common/src/main/java/org/astraea/common/balancer/executor/StraightPlanExecutor.java:67-72 | Every placement change comes before every wait and every election. |
| `StraightPlanExecutor.SyncMigrationsBeforeElections` | common/src/main/java/org/astraea/common/balancer/executor/StraightPlanExecutor.java:67-79 | Before any leader election is requested, every migration has been waited on and none failed. |

## Left out

- Future composition, `join` and concurrent task fan-out are modelled as sequential steps. The calls become an ordered log on an admin object, and a failed stage becomes a `false` answer or an `Outcome`.
- The clock, `Utils.sleep` and the 300 ms pause are inputs. Each step of the loop's trace carries its own elapsed time. The 500 ms settle pause of the asynchronous run is not part of the request log.
- The `System.out.println` in the `exceptionally` handler of `waitCluster` is not modelled.
- `ClusterLogAllocation.of` and `ClusterLogAllocation.findNonFulfilledAllocation` are not part of this model. The migrating set is an input, and `logPlacements` is a function parameter.
- The queries `topicNames`, `clusterInfo`, `replicas` and `brokers` are not modelled as failing. `replicas` is a fixed snapshot of reported replicas, and only a duplicate node in it makes a run fail.
- AsyncAdmin.WaitCluster: a failure that is not a RuntimeException would make the `(RuntimeException) e` cast throw a ClassCastException. The model rethrows the failure unchanged.
- AsyncAdmin.Loop: `remainingMs` is unbounded, so the 64-bit wrap-around of `long` arithmetic on the budget is not modelled.
- AsyncAdmin.Loop: the supplier's answers are a finite trace. A wait that needs more answers than the trace holds ends `Pending`.
- StraightPlanExecutor.RunSync: `alterReplicaPlacements` is modelled as returning one task per partition, although it may return several. Joins happen in the stream order of the partitions; the code joins them in the iteration order of an unmodifiable set. Because one failed join ends the run, which failure surfaces first may differ from the code.
- StraightPlanExecutor.RunAsync: the iteration order of the migrating set is not fixed. Both request maps are proved to be the same for every order.
- The other abstract queries and writes of `AsyncAdmin` are interface signatures without implementation. This covers topics, partitions, consumer groups, transactions, quotas, configs, record deletion and partition creation.
- `preferredLeaderElection` is declared for one `TopicPartition` in `AsyncAdmin`, but the asynchronous run passes it the whole set of migrating partitions. The model follows the call site: `PreferredLeaderElection` carries a set.
- A replica's node information is reduced to its id. The retriable-exception class hierarchy is reduced to two flags on a failure.
