# Slot engine of the Redis cluster operator

A Dafny model of how the operator decides which master serves which hash slot, and of the
commands by which it makes a Redis cluster agree. The number of slots and of masters is
arbitrary, every iteration over a Go map may take any order, sorting may leave equal elements
in any order, and commands may fail in every way a client can meet: refused, lost, or carried
out without an answer.

`RedisWorld` holds what each node believes about the owner of each slot, the keys stored per
node and slot, open slots and replicas; it says when Redis refuses a command (Redis Cluster
Specification, sections "Live reconfiguration" and "ASK redirection"). True ownership is a
node's belief in itself, not the operator's `Slots` lists. `AdminClient` issues the commands
and records the world after each of them, so that a statement about all recorded worlds holds
wherever the operator stops. A client is *reliable* if commands fail only when Redis refuses
them, and *steady* if that holds of all commands but MIGRATE. A world is *sound* if every slot is served by exactly one node and keys are stored only
where they are served; two worlds have the *same contents* if both are sound and the owner of
each slot stores the same keys with the same values; a world is *intact* with respect to an
earlier one if every slot is served by some node and no key of the earlier one is gone.

| modules | what they model |
|---|---|
| Runs, Sync | runs of reconciliations, joining pods and client writes; one reconciliation |
| Placement | masters and slaves per StatefulSet |
| AllocSlots | ranges for a fresh cluster |
| Remainder, TwoPointer, Rebalance, MoveSlotProtocol | scaling up |
| Filling, ScaleDownPlan, BulkMoveProtocol, Dispatch, Scattering | scaling down; what failing commands leave of it |
| RedisWorld, AdminClient, Nodes | Redis, the client, the operator's books |
| SlotLists, SlotText | slot lists, ranges and their text |
| ClusterSplit | detecting a split cluster |
| RedisConf | printing and comparing redis.conf |
| Basics, Sorting, Text | sequences, sorting, strings |

## Where the code is not what one would expect

Each point is a lemma or part of a contract.

- `syncCluster` panics if and only if slaves are to be attached while some node is outside the expected StatefulSets. That is so when more replicas are asked for while masters are removed, because the branch for slaves comes before the one for scaling down; and also with as many slot holders as masters, too few replicas and a StatefulSet left over from an aborted scale-down (`Sync.SyncCluster`, `Sync.SurplusHolders`, `Placement.Ctx.PlaceSlaves`).
- Scaling down removes only StatefulSets numbered below the number of slot holders; one with a higher number, left over from an aborted scale-down, stays (`Sync.NothingElseLeftExactly`).
- `moveSlot` logs a failed SETSLOT NODE and goes on; if only the source was told the slot has no owner (`MoveSlotProtocol.MoveSlot`, `MoveSlotProtocol.SourceFirstOrphans`).
- Scaling down goes on after a failed key migration; the slot is then served by two nodes exactly when the source still stores keys of it (`BulkMoveProtocol.SplitExactly`, `BulkMoveProtocol.ServedExactly`, `Scattering.ScatteredIsServed`).
- The operator strikes such slots from the source's list nevertheless, so the "is not empty" guard cannot notice; the source is forgotten, and its keys are lost exactly if they are not at the new master as well (`Sync.ScaleDown`, `Scattering.NothingLostExactly`, `BulkMoveProtocol.FailedMigrationLosesKeys`).
- The remainder loop never ends if slots are left over and no master is below the average (`Remainder.RemainderLoopEndsExactly`). Scaling up excludes this, because it has a new master and no more masters than slots.
- With more masters than slots `AllocSlots` hands out slots that do not exist (`AllocSlots.RangesFitExactly`).
- `retrieveLostSlots` answers slot 0 when there are no slots at all (`ScaleDownPlan.RetrieveLostSlots`).
- A report without a healthy node counts as a cluster of its own, so that one healthy cluster and one such report are a split; and when two views overlap without being equal the clusters found depend on the order of a Go map, and only then (`ClusterSplit.ElectMainCluster`, `ClusterSplit.OrderIsIrrelevantExactly`, `ClusterSplit.OrderDecidesOnPartialViews`).
- redis.conf without entries always looks changed, and so do values that are empty or end in a space (`RedisConf.EmptyConfigLooksChanged`, `RedisConf.PrinterAndComparerAgree`).
- Ranges are not canonical, and `BuildSlotSlice` does not end, at the largest 64-bit slot (`SlotLists.SlotRangesFromSlots`, `SlotLists.SlotLoopEndsExactly`, `SlotText.RangeRoundTrip`).
- The comment on `DecodeSlotRange` shows open slots in brackets; the code takes them with or without, and then trims a bracket that belongs to the id (`SlotText.ImportingRoundTrip`).

## Model

| member | source | states |
|---|---|---|
| `Runs.Run` | 23-redis-cluster-operator-0.2.3/pkg/controller/distributedrediscluster/sync_handler.go:190-254 | Any sequence of requests to reconcile (with any number of masters, any verdict on replicas), of joining pods and of client writes, answered by the operator one after the other from any orderly cluster, each reconciliation with a fresh reading: the cluster is orderly again after every request, once every slot has exactly one owner it has after each later request, no slot is without owner and no key missing at any command, and from a blank cluster on what is stored is exactly what the writes that reached an owner make of an empty store |
| `Runs.ReconcileFresh` | 23-redis-cluster-operator-0.2.3/pkg/controller/distributedrediscluster/sync_handler.go:190-254 | On an orderly cluster (one owner of each slot or none at all, the owners one each of the first h StatefulSets, replicas only beside an owner) syncCluster with a fresh reading is done, undecided or panicked, never stopped half way; if done the owners are one each of the first masterSize StatefulSets, if not nothing has changed; the cluster is orderly again, which gives the next call all it needs |
| `Runs.StaysOrderly` | 23-redis-cluster-operator-0.2.3/pkg/controller/distributedrediscluster/sync_handler.go:190-254 | What each of the operations achieves leaves exactly the chosen masters serving and replicas only beside them |
| `Runs.JoiningIsOrderly` | 23-redis-cluster-operator-0.2.3/pkg/controller/distributedrediscluster/sync_handler.go:190-254 | A pod that joins an orderly cluster, without slots and not as a replica, leaves it orderly: replicas still live only beside an owner |
| `Runs.ReplayAll` | 23-redis-cluster-operator-0.2.3/pkg/controller/distributedrediscluster/sync_handler.go:190-254 | In any such run the map stored at the owners of a slot is the replay of the writes to it, whatever moved in between |
| `Sync.SyncCluster` | 23-redis-cluster-operator-0.2.3/pkg/controller/distributedrediscluster/sync_handler.go:190-254 | For any client: which operation is chosen for which numbers of slot holders and masters; undecided if and only if one of the expected StatefulSets has no node or two slot holders; otherwise a panic if and only if slaves are to be attached (fewer slot holders than masters, or too few replicas) and some node belongs to none of the expected StatefulSets; neither changes anything; there is one master of each expected StatefulSet, and every slot holder in them is one; the not-empty guard never fires. With a reliable client, replicas only beside slot holders, and none of the two conditions, the operation succeeds: ranges served, fair counts, or all slots with the new masters and exactly the nodes of the counted StatefulSets gone, keys kept throughout, and where slaves are attached every other node replicates, in Redis, the master of its own StatefulSet |
| `Sync.Create` | 23-redis-cluster-operator-0.2.3/pkg/controller/distributedrediscluster/sync_handler.go:206-218 | With a reliable client a blank cluster ends up sound, the i-th master serving exactly the i-th range, and every other node replicates the master of its StatefulSet in Redis; it panics if and only if some StatefulSet has no chosen master |
| `Sync.ScaleUp` | 23-redis-cluster-operator-0.2.3/pkg/controller/distributedrediscluster/sync_handler.go:219-231 | Scaling up keeps all contents, every world on the way is intact, every master serves exactly its fair count of the slots it and the others started with, and every other node replicates the master of its StatefulSet in Redis |
| `Sync.ScaleDown` | 23-redis-cluster-operator-0.2.3/pkg/controller/distributedrediscluster/sync_handler.go:241-252 | Once the slots were dispatched no removed node is found non-empty, because the lists follow the plan and not the keys. For any client: when it is done, no key is lost if and only if whatever a removed node still stores of a slot it was to give away is also at the new master, and a slot is served if and only if its new master was told or its old one neither was nor has left. For a client that loses nothing but MIGRATE it is always done, every new master was told, and an old one exactly of the slots it has no keys of. With a reliable client nothing is lost, the new masters serve everything within the balance bounds, and exactly the nodes of the counted StatefulSets leave |
| `Sync.NothingElseLeftExactly` | 23-redis-cluster-operator-0.2.3/pkg/controller/distributedrediscluster/sync_handler.go:269-312 | After the StatefulSets numbered from the new to the old number of masters were removed only nodes of expected ones are left if and only if no node belonged to one numbered beyond; after an aborted scale-down one may, and it stays |
| `Sync.RemoveStatefulSets` | 23-redis-cluster-operator-0.2.3/pkg/controller/distributedrediscluster/sync_handler.go:269-312 | It reports a non-empty node if and only if one of the removed nodes lists slots; whichever FORGET is lost, only removed nodes leave, and all of them if none is lost; nodes that serve nothing leave without any slot or key lost |
| `Sync.ScaleUpCanSpread` | 23-redis-cluster-operator-0.2.3/pkg/controller/distributedrediscluster/sync_handler.go:219-231 | Pigeonhole: more masters than slot holders, and no more than slots, means that the remainder loop has a master to charge |
| `Sync.MastersPartition` | 23-redis-cluster-operator-0.2.3/pkg/controller/distributedrediscluster/sync_handler.go:219-231 | Masters that include all slot holders list every slot of a sound world exactly once: their counts sum to n |
| `Sync.SurplusHolders` | 23-redis-cluster-operator-0.2.3/pkg/controller/distributedrediscluster/sync_handler.go:232-240 | With more slot holders than masters some StatefulSet has no chosen master, so PlaceSlaves would dereference nil |
| `Sync.RemovedCanBeForgotten` | 23-redis-cluster-operator-0.2.3/pkg/controller/distributedrediscluster/sync_handler.go:274-285 | After a dispatch the removed nodes and all replicas serve nothing |
| `Sync.GoodHoldingsFromWorld` | 23-redis-cluster-operator-0.2.3/pkg/controller/distributedrediscluster/sync_handler.go:241-247 | A fresh reading of a sound world meets what the scale-down plan assumes: disjoint, in-range, duplicate-free holdings, new masters empty |
| `RedisWorld.HandedOverKeepsContents` | 23-redis-cluster-operator-0.2.3/pkg/controller/clustering/rebalance.go:126-144 | A complete hand-over of one slot keeps the world sound and the contents of every slot |
| `RedisWorld.ForgetKeepsContents` | 23-redis-cluster-operator-0.2.3/pkg/redisutil/admin.go:458-509 | Forgetting and resetting nodes that serve nothing changes no owner and loses no key |
| `RedisWorld.SetAllStep` | 23-redis-cluster-operator-0.2.3/pkg/redisutil/admin.go:244-250 | Pipelined SETSLOT commands one by one amount to their joint effect |
| `RedisWorld.AcceptsInPipeline` | 23-redis-cluster-operator-0.2.3/pkg/redisutil/admin.go:244-253 | Whether Redis accepts one SETSLOT of a pipeline does not depend on the others |
| `RedisWorld.TransferMovesKeys` | 23-redis-cluster-operator-0.2.3/pkg/redisutil/admin.go:395-398 | A MIGRATE, complete or broken off, loses no key of source and target together |
| `AdminClient.Admin.AttachSlaveToMaster` | 23-redis-cluster-operator-0.2.3/pkg/redisutil/admin.go:203-218 | Role and referent are updated exactly when the command succeeded; nothing but the replica entry changes |
| `AdminClient.Admin.AddSlots` | 23-redis-cluster-operator-0.2.3/pkg/redisutil/admin.go:221-233 | Nothing for no slots; otherwise all slots are taken or none |
| `AdminClient.Admin.SetSlots` | 23-redis-cluster-operator-0.2.3/pkg/redisutil/admin.go:236-257 | For any client, some subset of the slots was set, at every moment, all of them on success; a client that does not lose this command sets exactly those that Redis accepts |
| `AdminClient.Admin.SetSlot` | 23-redis-cluster-operator-0.2.3/pkg/redisutil/admin.go:260-276 | Success means that the slot was set; a failure may have set it nevertheless |
| `AdminClient.Admin.MigrateKeysInSlot` | 23-redis-cluster-operator-0.2.3/pkg/redisutil/admin.go:407-441 | Terminates; no key of the slot is lost at any command; on success the source has none left and the count is the initial number of keys; it succeeds if the client is reliable and the slot is open |
| `AdminClient.Admin.MigrateKeys` | 23-redis-cluster-operator-0.2.3/pkg/redisutil/admin.go:364-403 | The same for a list of slots, the count being the total number of keys |
| `AdminClient.Admin.ForgetNode` | 23-redis-cluster-operator-0.2.3/pkg/redisutil/admin.go:458-485 | At most the node leaves and its connected slaves are reset; if the command cannot be lost exactly that |
| `Nodes.SortByKey` | 23-redis-cluster-operator-0.2.3/pkg/redisutil/node.go:316-322 | A permutation of the nodes in ascending order of the key, ties in any order |
| `SlotLists.RemoveSlots` | 23-redis-cluster-operator-0.2.3/pkg/redisutil/slot.go:151-164 | The list without the removed slots, in order |
| `SlotLists.WithoutMembers` | 23-redis-cluster-operator-0.2.3/pkg/redisutil/slot.go:151-164 | What stays is what was listed and not removed; no duplicates appear |
| `SlotLists.RemoveSlot` | 23-redis-cluster-operator-0.2.3/pkg/redisutil/slot.go:167-177 | The list without the first occurrence of the slot |
| `SlotLists.WithoutFirstMembers` | 23-redis-cluster-operator-0.2.3/pkg/redisutil/slot.go:167-177 | In a duplicate-free list exactly that slot goes |
| `SlotLists.AddSlots` | 23-redis-cluster-operator-0.2.3/pkg/redisutil/slot.go:180-187 | Old list first, members are the union, no new duplicates; fresh slots are appended in order |
| `SlotLists.Contains` | 23-redis-cluster-operator-0.2.3/pkg/redisutil/slot.go:190-197 | Membership, both directions |
| `SlotLists.BuildSlotSlice` | 23-redis-cluster-operator-0.2.3/pkg/redisutil/slot.go:200-206 | All slots from min to max in order, for every max at which the loop ends |
| `SlotLists.SlotLoopEndsExactly` | 23-redis-cluster-operator-0.2.3/pkg/redisutil/slot.go:200-206 | Counting up in 64 bits from min passes max if and only if max is below the largest 64-bit value |
| `SlotLists.SlotRangesFromSlots` | 23-redis-cluster-operator-0.2.3/pkg/redisutil/slot.go:124-148 | The ranges cover exactly the listed slots; they are sorted, disjoint and non-adjacent if and only if the largest 64-bit slot is listed at most once |
| `SlotLists.CanonicalIsUnique` | 23-redis-cluster-operator-0.2.3/pkg/redisutil/slot.go:124-148 | A set of slots has only one canonical list of ranges |
| `SlotText.RangeRoundTrip` | 23-redis-cluster-operator-0.2.3/pkg/redisutil/slot.go:45-47 | A printed range decodes to exactly its slots in order if the loop that lists them ends, which is decided by SlotLists.SlotLoopEndsExactly, and does not return otherwise |
| `SlotText.SingleSlotDecodes` | 23-redis-cluster-operator-0.2.3/pkg/redisutil/slot.go:18-20 | A printed slot decodes to itself, with the same condition |
| `SlotText.SlotListRoundTrip` | 23-redis-cluster-operator-0.2.3/pkg/redisutil/slot.go:82-148 | Printing the ranges of a duplicate-free list and decoding them one after the other gives the sorted list |
| `SlotText.BracketedImportingRoundTrip` | 23-redis-cluster-operator-0.2.3/pkg/redisutil/slot.go:61-63 | An importing entry in brackets decodes back if and only if its id has no dash |
| `SlotText.BracketedMigratingRoundTrip` | 23-redis-cluster-operator-0.2.3/pkg/redisutil/slot.go:72-74 | A migrating entry in brackets decodes back if and only if its id has no dash |
| `SlotText.ImportingRoundTrip` | 23-redis-cluster-operator-0.2.3/pkg/redisutil/slot.go:82-97 | Without brackets, if and only if the id has no dash and does not end in a bracket |
| `SlotText.MigratingRoundTrip` | 23-redis-cluster-operator-0.2.3/pkg/redisutil/slot.go:82-97 | Without brackets, if and only if the id has no dash and does not end in a bracket |
| `MoveSlotProtocol.MoveSlot` | 23-redis-cluster-operator-0.2.3/pkg/controller/clustering/rebalance.go:126-144 | After every single command, whichever failed: only the two nodes' entries for the slot differ, no key is lost or changed, ownership moves only once the source has no keys; an error leaves the source in charge in Redis and in the books; the slot ends without an owner exactly when only the source was told; with a reliable client the hand-over is complete |
| `MoveSlotProtocol.HandOver` | 23-redis-cluster-operator-0.2.3/pkg/controller/clustering/rebalance.go:127-141 | The same for the commands alone: served at every instant unless only the source was told |
| `MoveSlotProtocol.NobodyElseServes` | 23-redis-cluster-operator-0.2.3/pkg/controller/clustering/rebalance.go:126-144 | In every world met during a move only source or target can serve the slot |
| `MoveSlotProtocol.SourceFirstOrphans` | 23-redis-cluster-operator-0.2.3/pkg/controller/clustering/rebalance.go:136-141 | Telling the source before the target, which Redis accepts, leaves the slot without an owner; telling the target first does not |
| `Rebalance.RebalancedCluster` | 23-redis-cluster-operator-0.2.3/pkg/controller/clustering/rebalance.go:12-85 | For any client: no key is lost at any instant as long as all masters are part of the cluster. With a reliable client and masters that list all slots, one of them short unless n divides evenly: it succeeds, contents are kept, every master serves exactly its fair count, nobody else changes, and every world on the way is intact |
| `Rebalance.FairCountIs` | 23-redis-cluster-operator-0.2.3/pkg/controller/clustering/rebalance.go:13-32 | The fair count is the floor of n/m for masters that had at least that, and for the d others the floor plus r/d or one more, r being the remainder |
| `Rebalance.StageKeepsKeys` | 23-redis-cluster-operator-0.2.3/pkg/controller/clustering/rebalance.go:126-144 | Moving one more slot, however its commands end, loses no key of the world the rebalancing started from |
| `Rebalance.ComputeReshardTable` | 23-redis-cluster-operator-0.2.3/pkg/controller/clustering/rebalance.go:94-124 | Slots of the sources, never more than asked for; for one source exactly the first numSlots, so the length assertion never fails |
| `Rebalance.MoveTable` | 23-redis-cluster-operator-0.2.3/pkg/controller/clustering/rebalance.go:60-69 | Moves exactly the first k slots of the source, whose list shrinks by them; whatever fails, only views and keys of slots that were tried change and no key is lost; with a reliable client exactly these slots change owner |
| `Rebalance.Round` | 23-redis-cluster-operator-0.2.3/pkg/controller/clustering/rebalance.go:47-82 | One round moves what balances an end; sources still list exactly the slots they serve |
| `Rebalance.MoveByBalance` | 23-redis-cluster-operator-0.2.3/pkg/controller/clustering/rebalance.go:44-82 | Terminates with all balances zero and the counts of slots served changed accordingly |
| `Rebalance.SurplusSum` | 23-redis-cluster-operator-0.2.3/pkg/controller/clustering/rebalance.go:13-22 | The balances of masters that list all n slots sum to n mod m |
| `Remainder.RemainderLoopEndsExactly` | 23-redis-cluster-operator-0.2.3/pkg/controller/clustering/rebalance.go:24-32 | The loop ends if and only if nothing is left over or some balance is negative |
| `Remainder.SpreadRemainder` | 23-redis-cluster-operator-0.2.3/pkg/controller/clustering/rebalance.go:24-32 | Ends with the remainder charged to the masters in deficit, shares differing by at most one, the first ones getting more |
| `Remainder.SpreadSum` | 23-redis-cluster-operator-0.2.3/pkg/controller/clustering/rebalance.go:24-32 | Afterwards the balances sum to the old sum minus the remainder |
| `TwoPointer.EndsOpposed` | 23-redis-cluster-operator-0.2.3/pkg/controller/clustering/rebalance.go:44-82 | In an open window the left end is never in surplus and the right end never in deficit |
| `TwoPointer.WindowShrinks` | 23-redis-cluster-operator-0.2.3/pkg/controller/clustering/rebalance.go:47-82 | Each round keeps the window, makes it smaller, and takes slots only from a node that started in surplus for one that started in deficit: no receiver is ever a source |
| `TwoPointer.AllBalanced` | 23-redis-cluster-operator-0.2.3/pkg/controller/clustering/rebalance.go:47-82 | When the window closes every balance is zero |
| `AllocSlots.AllocSlots` | 23-redis-cluster-operator-0.2.3/pkg/controller/clustering/rebalance.go:146-170 | Success implies no more masters than slots; on a blank world with a reliable client it succeeds and every view names the owner of each range and nobody else |
| `AllocSlots.AllocatedIsSound` | 23-redis-cluster-operator-0.2.3/pkg/controller/clustering/rebalance.go:146-170 | The result serves every slot exactly once, each master its own range |
| `AllocSlots.AllocIs` | 23-redis-cluster-operator-0.2.3/pkg/controller/clustering/rebalance.go:152-164 | With at most n masters the ranges are consecutive, non-empty, and neither the cap nor the last < first repair changes anything |
| `AllocSlots.BoundStep` | 23-redis-cluster-operator-0.2.3/pkg/controller/clustering/rebalance.go:149-164 | Every range has the floor or the ceiling of n/m slots |
| `AllocSlots.RangesFitExactly` | 23-redis-cluster-operator-0.2.3/pkg/controller/clustering/rebalance.go:152-164 | No range reaches past the last slot if and only if there are at most n masters |
| `AllocSlots.RangesDisjoint` | 23-redis-cluster-operator-0.2.3/pkg/controller/clustering/rebalance.go:152-164 | No slot is in two ranges |
| `AllocSlots.RangeOfSlot` | 23-redis-cluster-operator-0.2.3/pkg/controller/clustering/rebalance.go:152-164 | Every slot is in some range |
| `ScaleDownPlan.RetrieveLostSlots` | 23-redis-cluster-operator-0.2.3/pkg/controller/clustering/migration.go:266-292 | Strictly increasing, exactly the slots of [0,n) that no old master holds, duplicates in the holdings included; slot 0 if n is 0 |
| `ScaleDownPlan.RetrieveSlotToMigrateFrom` | 23-redis-cluster-operator-0.2.3/pkg/controller/clustering/migration.go:224-237 | For every old master exactly the slots beyond the share |
| `ScaleDownPlan.RetrieveSlotToMigrateFromRemovedNodes` | 23-redis-cluster-operator-0.2.3/pkg/controller/clustering/migration.go:241-263 | Exactly the old masters that are not kept, with all their slots |
| `ScaleDownPlan.BuildPool` | 23-redis-cluster-operator-0.2.3/pkg/controller/clustering/migration.go:184-193 | The pool holds what every old master gives up, and the lost slots |
| `ScaleDownPlan.BuildSlotByNodeFromAvailableSlots` | 23-redis-cluster-operator-0.2.3/pkg/controller/clustering/migration.go:294-325 | For any order of the pool, the slots are dealt out as by the filling function |
| `ScaleDownPlan.KeptAndFree` | 23-redis-cluster-operator-0.2.3/pkg/controller/clustering/migration.go:183-194 | Kept and free slots together are exactly n |
| `ScaleDownPlan.SharesAreGood` | 23-redis-cluster-operator-0.2.3/pkg/controller/clustering/migration.go:183-194 | For any order of the pool: never over-filled, every free slot dealt exactly once, and every share within the balance bounds |
| `ScaleDownPlan.BuildSlotsByNode` | 23-redis-cluster-operator-0.2.3/pkg/controller/clustering/migration.go:178-221 | The same for the whole computation of the shares |
| `ScaleDownPlan.FeedMigInfo` | 23-redis-cluster-operator-0.2.3/pkg/controller/clustering/migration.go:131-174 | For any order of the shares: the plan moves exactly the dealt slots from their holder, or from nobody if lost, to their new master, and nothing a master already holds |
| `Filling.FillDealsAll` | 23-redis-cluster-operator-0.2.3/pkg/controller/clustering/migration.go:305-322 | The dealt shares, one after the other, are exactly the pool |
| `Filling.NeverOverfilled` | 23-redis-cluster-operator-0.2.3/pkg/controller/clustering/migration.go:311-317 | If kept and free slots fit into the shares the over-filling branch is not reached |
| `Filling.BalanceBound` | 23-redis-cluster-operator-0.2.3/pkg/controller/clustering/migration.go:183-194 | With k >= 2 masters and share c = ceil(n/k) every master ends with c-2k+3 to c+1 slots |
| `BulkMoveProtocol.OpenAndDrain` | 23-redis-cluster-operator-0.2.3/pkg/controller/clustering/migration.go:70-90 | For any client nothing but open-slot flags and the place of keys has changed at any moment; it goes on to SETSLOT NODE if no command other than MIGRATE is lost; with a reliable client the source has no keys of the slots left |
| `BulkMoveProtocol.TellBoth` | 23-redis-cluster-operator-0.2.3/pkg/controller/clustering/migration.go:94-101 | Target first, then source. For any client, at every moment: keys are only between the two ends, each end names the target exactly for the slots it was told of, and a source that was told of a slot it served stores no key of it. A client that loses at most MIGRATE has told the target of everything and the source exactly of the slots it has no keys of; with a reliable client every slot is served at every moment and both name the target |
| `BulkMoveProtocol.DoneIsPassedOn` | 23-redis-cluster-operator-0.2.3/pkg/controller/clustering/migration.go:70-101 | Then exactly these slots have passed to the target, with all their keys |
| `BulkMoveProtocol.StageIsIntact` | 23-redis-cluster-operator-0.2.3/pkg/controller/clustering/migration.go:70-101 | Every world met on the way serves every slot and has every key |
| `BulkMoveProtocol.ServedExactly` | 23-redis-cluster-operator-0.2.3/pkg/controller/clustering/migration.go:70-101 | For any client and at every moment only the two ends can serve a slot on the move: it has no owner if and only if the source alone was told, and two if and only if the target alone was |
| `BulkMoveProtocol.SplitExactly` | 23-redis-cluster-operator-0.2.3/pkg/controller/clustering/migration.go:85-101 | With a client that loses at most MIGRATE a slot never loses its owner, and it has two if and only if the source still stores keys of it |
| `BulkMoveProtocol.KeysAreHeld` | 23-redis-cluster-operator-0.2.3/pkg/controller/clustering/migration.go:70-101 | For any client and at every moment every key is at one of the two ends |
| `BulkMoveProtocol.FailedMigrationSplitsSlot` | 23-redis-cluster-operator-0.2.3/pkg/controller/clustering/migration.go:85-101 | After a failed key migration, which is only logged, the target takes the slot, the source is not allowed to give it up, and both serve it |
| `BulkMoveProtocol.FailedMigrationLosesKeys` | 23-redis-cluster-operator-0.2.3/pkg/controller/distributedrediscluster/sync_handler.go:241-252 | If the source is then forgotten no remaining node stores the keys it had |
| `Dispatch.DispatchSlotToNewMasters` | 23-redis-cluster-operator-0.2.3/pkg/controller/clustering/migration.go:56-129 | On success the lists of the new masters partition [0,n) within the balance bounds and removed masters list nothing. For any client, at every command: each slot is with its old owner, with the new master that lists it in the end, with both or with none, exactly as the two were told, and the keys are where they were or at the new one. If nothing but MIGRATE can be lost it succeeds and every new master was told. With a reliable client contents are kept, every world on the way is intact, and new masters that had slots and knew all owners know all new owners |
| `Dispatch.TellOthers` | 23-redis-cluster-operator-0.2.3/pkg/controller/clustering/migration.go:107-123 | All other masters that list slots are told; whatever fails, none of it changes who serves a slot or where its keys are |
| `Dispatch.MoveGroup` | 23-redis-cluster-operator-0.2.3/pkg/controller/clustering/migration.go:70-126 | One entry of the plan: the lists follow the slots; for any client, at every command, views and keys are as the told slots say; owners and contents as above |
| `Dispatch.CarryOut` | 23-redis-cluster-operator-0.2.3/pkg/controller/clustering/migration.go:61-127 | All entries, in any order, put every planned slot where the plan says and leave the others, in the lists, and for any client in Redis as far as the two ends were told |
| `Dispatch.GoalsAreListed` | 23-redis-cluster-operator-0.2.3/pkg/controller/clustering/migration.go:61-128 | After a run without error every slot is listed by its goal, the new master the plan has for it or the owner it had |
| `Scattering.ScatterStep` | 23-redis-cluster-operator-0.2.3/pkg/controller/clustering/migration.go:61-127 | Another entry of the plan, however its commands end, extends what was told and moves keys of its slots only, and only to their goal |
| `Scattering.ScatteredIsServed` | 23-redis-cluster-operator-0.2.3/pkg/controller/clustering/migration.go:61-127 | At any moment of scaling down, whichever commands failed, a slot has no owner if and only if only its old owner was told, and two if and only if it moves and only its goal was told |
| `Scattering.ScatteredKeepsAll` | 23-redis-cluster-operator-0.2.3/pkg/controller/clustering/migration.go:61-127 | And no key is lost as long as no node is forgotten |
| `Scattering.NothingLostExactly` | 23-redis-cluster-operator-0.2.3/pkg/controller/distributedrediscluster/sync_handler.go:241-252 | When nodes are then forgotten no key is lost if and only if whatever a forgotten node still stores of a slot it was to give away is at the slot's goal, too |
| `Scattering.ServedAfterExactly` | 23-redis-cluster-operator-0.2.3/pkg/controller/distributedrediscluster/sync_handler.go:241-252 | And a slot is served if and only if its goal was told, or its old owner neither was told nor is forgotten |
| `Dispatch.PlanIsGood` | 23-redis-cluster-operator-0.2.3/pkg/controller/clustering/migration.go:131-174 | No slot is in two entries and every entry's slots are with its source |
| `Dispatch.NothingLost` | 23-redis-cluster-operator-0.2.3/pkg/controller/clustering/migration.go:131-174 | If every slot is served by a listed master the plan has no entry of lost slots |
| `Dispatch.KeepersAreAnchored` | 23-redis-cluster-operator-0.2.3/pkg/controller/clustering/migration.go:112-117 | A new master that has slots keeps at least one of its own throughout, so it is never skipped as empty |
| `Dispatch.AgreesStep` | 23-redis-cluster-operator-0.2.3/pkg/controller/clustering/migration.go:94-123 | A node that knew all owners and was told knows all owners again |
| `Dispatch.FinalLists` | 23-redis-cluster-operator-0.2.3/pkg/controller/clustering/migration.go:125-128 | Where the plan puts the slots the new masters' lists partition [0,n) and removed masters list nothing |
| `Placement.Ctx.constructor` | 23-redis-cluster-operator-0.2.3/pkg/controller/clustering/placement_v2.go:25-61 | The known nodes grouped by StatefulSet, each in exactly one non-empty group; current masters are exactly the slot-holding ones |
| `Placement.Ctx.DispatchMasters` | 23-redis-cluster-operator-0.2.3/pkg/controller/clustering/placement_v2.go:63-83 | Succeeds if and only if every expected StatefulSet exists and has at most one slot holder; then exactly one master from each, slot holders kept, and all on different machines if no compromise was made and the slot holders were |
| `Placement.Ctx.PlaceMasters` | 23-redis-cluster-operator-0.2.3/pkg/controller/clustering/placement_v2.go:85-106 | The first node on a machine without master if there is one; otherwise the first node, and the compromise is recorded |
| `Placement.Ctx.PlaceSlaves` | 23-redis-cluster-operator-0.2.3/pkg/controller/clustering/placement_v2.go:108-131 | Panics if and only if a StatefulSet has no master; otherwise lists exactly the nodes that are not the master and not yet its slaves |
| `Placement.Ctx.GetNewMasters` | 23-redis-cluster-operator-0.2.3/pkg/controller/clustering/placement_v2.go:137-143 | The chosen masters, each once, in any order |
| `Placement.Ctx.AttachingSlavesToMaster` | 23-redis-cluster-operator-0.2.3/pkg/controller/clustering/roles.go:10-29 | Only replica entries of listed nodes change; without error every listed node of a known master is its slave in Redis and in the books; no error if Redis can accept everything |
| `Placement.Ctx.PlaceAndAttach` | 23-redis-cluster-operator-0.2.3/pkg/controller/clustering/roles.go:10-29 | No chosen master, hence no slot holder of a decided set, is touched; without error every other node is a slave of its own set's master in the operator's books and, if these named the right masters before, in Redis |
| `Placement.OnlyOthersListed` | 23-redis-cluster-operator-0.2.3/pkg/controller/clustering/placement_v2.go:108-131 | No chosen master is listed as a slave and no node is listed under two masters |
| `ClusterSplit.BuildClustersLists` | 23-redis-cluster-operator-0.2.3/pkg/controller/heal/clustersplit.go:90-118 | For any order of the infos, the reports without those that overlap an earlier cluster |
| `ClusterSplit.ClustersAreDisjoint` | 23-redis-cluster-operator-0.2.3/pkg/controller/heal/clustersplit.go:90-118 | The clusters are pairwise disjoint, whatever the reports |
| `ClusterSplit.ClustersCoverReports` | 23-redis-cluster-operator-0.2.3/pkg/controller/heal/clustersplit.go:90-118 | Every cluster was reported, every non-empty report meets a cluster |
| `ClusterSplit.ClustersAreComponents` | 23-redis-cluster-operator-0.2.3/pkg/controller/heal/clustersplit.go:90-118 | If every report is a whole component the clusters are exactly the non-empty components, each once, plus one empty cluster for each report without a healthy node |
| `ClusterSplit.OrderIsIrrelevant` | 23-redis-cluster-operator-0.2.3/pkg/controller/heal/clustersplit.go:92-116 | Then the order of the infos does not matter |
| `ClusterSplit.OrderIsIrrelevantExactly` | 23-redis-cluster-operator-0.2.3/pkg/controller/heal/clustersplit.go:92-116 | All orders of the infos find the same non-empty clusters if and only if every report is a whole component |
| `ClusterSplit.OrderDecidesOnPartialViews` | 23-redis-cluster-operator-0.2.3/pkg/controller/heal/clustersplit.go:92-116 | The verdict may depend on it: of three nodes that each see only the next one, visiting them in line finds two clusters, visiting the middle one first finds one |
| `ClusterSplit.FindInCluster` | 23-redis-cluster-operator-0.2.3/pkg/controller/heal/clustersplit.go:120-129 | Whether an address is in one of the clusters |
| `ClusterSplit.SplitMainCluster` | 23-redis-cluster-operator-0.2.3/pkg/controller/heal/clustersplit.go:68-86 | The first of the largest clusters and all others; with no node anywhere the first cluster alone |
| `ClusterSplit.ElectMainCluster` | 23-redis-cluster-operator-0.2.3/pkg/controller/heal/clustersplit.go:15-40 | If every report is a whole component, a split is reported if and only if there are two components, or an empty report besides another one; in any case the elected cluster is a largest one, shares no node with those to be reset, and together they meet every report |
| `RedisConf.GenerateRedisConfContent` | 23-redis-cluster-operator-0.2.3/pkg/resources/configmaps/configmap.go:77-100 | One line per key with a value, keys in order |
| `RedisConf.PrintedOnce` | 23-redis-cluster-operator-0.2.3/pkg/resources/configmaps/configmap.go:84-88 | The order in which the map hands out its keys does not matter |
| `RedisConf.IsRedisConfChanged` | 23-redis-cluster-operator-0.2.3/pkg/controller/manager/ensurer.go:231-252 | False exactly when there are as many lines as entries and every line with key and value names an entry |
| `RedisConf.LinesRoundTrip` | 23-redis-cluster-operator-0.2.3/pkg/controller/manager/ensurer.go:232-235 | Splitting the printed text gives the lines back, and one empty line for none |
| `RedisConf.ComparerAccepts` | 23-redis-cluster-operator-0.2.3/pkg/controller/manager/ensurer.go:231-252 | What is taken for unchanged: the printable entries less a trailing space, or any single entry if nothing was printed |
| `RedisConf.PrinterAndComparerAgree` | 23-redis-cluster-operator-0.2.3/pkg/controller/manager/ensurer.go:231-252 | For keys without spaces and line breaks and values without line breaks: comparing is equality, for every other configuration, if and only if there is an entry and all values are non-empty and do not end in a space |
| `RedisConf.EmptyConfigLooksChanged` | 23-redis-cluster-operator-0.2.3/pkg/controller/manager/ensurer.go:232-235 | An empty configuration is always taken for changed |

## Left out

What is assumed of the surroundings:

- Nodes are read afresh for every reconciliation, the reading has every node of the cluster, and ids and addresses are distinct; an address is identified with the id of its node.
- Nobody else changes the topology during a reconciliation, and clients write between reconciliations only. Pods join without slots and replicas. Gossip, config epochs and failover inside Redis are not part of this model.
- Replicas hold no data of their own in the model. A StatefulSet without slot holder must have no replicas, since `PlaceMasters` may pick a replica, which then refuses slots; runs with a reliable client that begin so keep it so (`Runs.StaysOrderly`).
- MasterSize is at least one and at most the number of slots; the operator's defaults make it at least three.

What contracts state weaker than one might wish:

- Runs.Run: commands do not fail; a client that fails is the subject of Sync.ScaleDown, Dispatch, Scattering, Rebalance and MoveSlotProtocol, one reconciliation at a time.
- Sync.ScaleUp: for a client that fails the outcome is stated where the commands are, in Rebalance.RebalancedCluster and slot by slot in MoveSlotProtocol.MoveSlot.
- Dispatch.DispatchSlotToNewMasters: the outcome for a client that fails starts from a sound world that the lists describe; entries of lost slots, which need another start, are followed in the operator's lists only.
- AllocSlots.AllocSlots: the float64 quotients are exact reals, rounding errors are not modelled; the number of masters and slots is assumed to stay below 2^64.
- SlotLists.BuildSlotSlice: requires that the loop ends; when it does is SlotLists.SlotLoopEndsExactly.
- AdminClient.Admin.MigrateKeys: the timeout is left out; GETKEYSINSLOT may return the keys in any order.
- AdminClient.Admin.ForgetNode: one step of the record, although it issues several commands; slaves are detached only if their connection is still open.
- ClusterSplit.ElectMainCluster: ends where the nodes of the other clusters are flushed and attached.
- Nodes.SortByKey: keys are integers, as balances and slot counts are; the sort by id is used only by the older placement code.

What is not modelled:

- Slices are values: shifting in place, spare capacity and aliasing of `Slots` are not visible. The nodes and the placement context are objects and are updated in place.
- Connections, retries, timeouts, passwords and logging; ActionsInfo and the status fields of the cluster.
- The Kubernetes layer: StatefulSets, services, pods, volumes, and waiting for their termination.
- Backup and restore, node listing, ghost and untrusted nodes, label handling, command renaming.
- `placement.go` and the free function `DispatchMasters` of `migration.go`, which only tests call.
