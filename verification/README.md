# Verified models of bitalostored

This project models four parts of a distributed key-value store and proves what they are for:

- the shard of the in-memory vector map: a Swiss-table index over a bump-allocated byte arena with
  three value encodings, lent value windows, rehashing, copying collection and use-count eviction
  (`Vm*.dfy`);
- the dashboard's slot topology: the stored mapping of slots to server groups, its cache with dirty
  hooks, the migration states, the rounds of migrations, the slot balancer, and the caches of proxies,
  configurations and migration records (`Topology.dfy`, `DashCore.dfy`, `Rebalance*.dfy`,
  `SlotsRebalance.dfy`, `KeyedCache.dfy`);
- the host side of raft: hosted clusters, snapshot flags, mailboxes and the worker pool, the table of
  proposals with its commit and apply queues, the pool of its request
  objects, and the table of linearizable reads (`Loaders.dfy`, `SnapshotPool.dfy`, `Proposals.dfy`,
  `RequestPool.dfy`, `PendingReads.dfy`);
- three codecs: the packed read-only maps, MD5, and the RESP wire protocol (`SuccinctMap.dfy`,
  `StoreMap.dfy`, `Md5Block.dfy`, `Md5.dfy`, `Md5Vectors.dfy`, `Resp.dfy`).

`dafny verify dfyconfig.toml` checks everything.

How the models are built:

- Objects whose fields the code updates are classes; an operation is a method whose contract ties
  the new state to the old one. Concurrent code is a class whose methods are the atomic steps of its
  threads, and a method `AnyInterleaving` (for the dashboard `AnyOperations`) that takes any steps in
  any order. Where the code would panic, the method
  returns `true`, and the contract says that it never does or exactly when.
- A store write may fail with or without having taken effect, and a load may fail at any point. While the
  store and the proxies answer (`DashCore.Dash.up`) none does, and every operation is then done or refused.
- Integers are unbounded except where width matters: the packed words of the arena, the 32-bit sizes
  of the packed map, the 64-bit arithmetic of RESP and the words of MD5.
- Hashes of keys, clocks, random context names and remote calls are parameters or nondeterministic.

Properties that turned out false of the code are kept as they are, with a concrete case and the
condition under which the code meets them:

- updating a long value to the empty value when the arena is full to its last byte wraps the 24-bit
  offset (`VmRuns.OverflowExample`; exact condition in `VmLfuMap.LfuMap.PutMultiValue`);
- rebalancing cannot always level the groups when actions are under way (`SlotsRebalance.CannotLevel`;
  exact condition in `SlotsRebalance.Rebalance`);
- a migration record whose write fails after taking effect is not shown (`KeyedCache.UnseenRecord`;
  exact condition in `KeyedCache.Cache.WriteThenRefill`);
- a reloading thread can find two incarnations of a cluster, under another replica id
  (`SnapshotPool.TwoIncarnations`) or the same (`SnapshotPool.SameIdClash`); exact conditions in
  `SnapshotPool.Host.LookAt` and `SnapshotPool.StartThenLook`;
- a replica can be closed twice (`SnapshotPool.ClosedTwice`; exact conditions in
  `SnapshotPool.Host.TakeSeen` and `SnapshotPool.Host.ClosedUnheld`);
- a commit notice can panic or go astray when clients release requests early
  (`RequestPool.ReleasedWhileFound`, `RequestPool.StrayNotice`; exact condition in
  `RequestPool.Pool.CommitSignal` and `RequestPool.Pool.MeetsItsOwn`);
- the first distribution of slots divides by zero without groups (`DashCore.InitWithoutGroups`; exact
  condition in `DashCore.Dash.SlotCreateActionInit`);
- the size of the older packed map wraps at 4GB (`StoreMap.SizeWraps`; exact condition in
  `StoreMap.Store.Serialize`);
- offsets do not reach beyond 64MB in an arena whose size is not checked (`VmArena.FarKeyHidden`; exact
  condition in `VmArena.FarIndex`);
- closing the table of reads does not reach reads held by the stepping thread
  (`PendingReads.ForgottenRead`; exact condition in `PendingReads.Reads.CloseEnd`);
- making a packed map unique leaves duplicates (`SuccinctMap.PairsSurvive`; exact condition in
  `SuccinctMap.ThinDistinct`), and items added afterwards can be missed (`SuccinctMap.LateItemMissed`;
  exact condition in `SuccinctMap.LateKey` and `SuccinctMap.FastMap.AnswersWhenSorted`);
- a RESP text with a line feed does not survive (`Resp.SplitStatus`; exact condition in
  `Resp.RoundTrip`).

## Model

| member | source | states |
|---|---|---|
| VmRuns.Run | butils/vectormap/lfumap.go:117-1089 | any list of operations on a shard acts as the same operations on a least frequently used cache, that is, a finite map with a use count for each key: each lookup answers with the very bytes it copied out or shows in the lent window, and these are the bound ones; a window lent to a reader before the run shows the same bytes in a live arena after it; the run stops early only at an empty value put into a completely full 64MB arena |
| VmRuns.ReadsLastStore | butils/vectormap/lfumap.go:117-1089 | in every run a lookup answers with the value stored last, if the key was not deleted, evicted or cleared since, whatever rehashing and collection happened in between |
| VmRuns.StaysAbsent | butils/vectormap/lfumap.go:117-1089 | in every run a key that is not there is not found until a RePut of it succeeds |
| VmRuns.OverflowExample | butils/vectormap/lfumap.go:293-372 | the one failing family exists: after filling the arena to its last byte, an update of a long key to the empty value is acknowledged and then reads as one stray byte |
| VmLfuMap.LfuMap.constructor | butils/vectormap/lfumap.go:46-64 | a new shard stands for the empty map over an arena of the requested size, at most 64MB |
| VmLfuMap.LfuMap.Probe | butils/vectormap/lfumap.go:117-149 | the group walk ends, and finds the slot of a key exactly when the table holds the key, otherwise an empty slot the walk can reach |
| VmLfuMap.LfuMap.Has | butils/vectormap/lfumap.go:117-149 | answers whether the map has the key, changes no entry, and bumps the use count of this key alone, up to the maximum |
| VmLfuMap.LfuMap.Fetch | butils/vectormap/lfumap.go:176-198 | short values are copied out, longer ones are lent as a window on bytes that are never written again, with one more share of the arena |
| VmLfuMap.LfuMap.Get | butils/vectormap/lfumap.go:158-219 | misses exactly the keys not in the map, otherwise returns exactly the bound value and bumps the use count of this key alone |
| VmLfuMap.LfuMap.PutMultiValue | butils/vectormap/lfumap.go:388-565 | succeeds exactly when the key is present, the value is below 4MB and fits, and then binds the key to the joined pieces; otherwise the key is absent afterwards; no lent byte and no use count changes; the 24-bit offset overflow is the stated exception |
| VmLfuMap.LfuMap.Put | butils/vectormap/lfumap.go:221-386 | the same for a value in one piece |
| VmLfuMap.LfuMap.RewriteInPlace | butils/vectormap/lfumap.go:329-336 | a short value that fits its old capacity is overwritten where it is: only this key changes and no lent byte is touched |
| VmLfuMap.LfuMap.RewriteAtTail | butils/vectormap/lfumap.go:259-372 | a value moved to the tail: only this key changes, and the offset overflows exactly for an empty value at the very end of a 64MB arena |
| VmLfuMap.LfuMap.RePut | butils/vectormap/lfumap.go:567-813 | succeeds exactly when the arena was not full and has room for the value, counting what a rebuild of a full table leaves free; then the key is bound to the value, otherwise the key is gone or, in a full arena, nothing changed; a new key counts as used once and no other count changes, even through a rebuild; no lent byte changes, and a replaced arena with readers is not freed |
| VmLfuMap.LfuMap.Delete | butils/vectormap/lfumap.go:815-850 | removes exactly this key, says whether it was there, and keeps every other use count |
| VmLfuMap.LfuMap.Clear | butils/vectormap/lfumap.go:852-878 | the empty map over a fresh arena; an arena with readers is not freed |
| VmLfuMap.LfuMap.Rehash | butils/vectormap/lfumap.go:920-968 | a full table is rebuilt with the same map and the same use counters and has room again; the copy never fails and its tail is exactly the sum of the live records |
| VmLfuMap.LfuMap.GCCopy | butils/vectormap/lfumap.go:1024-1089 | collection keeps the map and the counters, drops all tombstones, leaves exactly the live records packed, and reports the bytes it really gained; skipped exactly below the garbage threshold |
| VmLfuMap.LfuMap.CopyLive | butils/vectormap/lfumap.go:931-952 | the copy of all live records fits and is a faithful image, counters included |
| VmLfuMap.LfuMap.Eliminate | butils/vectormap/lfumap.go:975-1022 | skips exactly when few lookups missed, when the arena is not nearly full, or when the map is empty, giving the reason; otherwise a nineteenth of the entries, rounded up and no more, goes, and nothing evicted was used more than anything kept |
| VmLfuMap.LfuMap.EvictLeast | butils/vectormap/lfumap.go:994-1022 | evicts only present keys, at most as many as asked, fewer only when nothing is left; nothing evicted was used more than anything kept; the threshold is the largest count evicted, and counters of the rest drop by it, not below zero |
| VmLfuMap.LfuMap.Age | butils/vectormap/lfumap.go:1011-1019 | saturating subtraction over all counters |
| VmLfuMap.LfuMap.NextSize | butils/vectormap/lfumap.go:912-918 | the size stays when at least half of the used slots are dead, and grows by a fifth rounded up otherwise, so it never shrinks |
| VmCopy.CopyDone | butils/vectormap/lfumap.go:920-968 | after the last slot the copy stands for the same map, has no tombstones, and its tail is at most the old one |
| VmCopy.CopyFits | butils/vectormap/lfumap.go:1024-1089 | every record still to be copied has room, so copying cannot report failure |
| VmLayout.LayoutAppend | butils/vectormap/lfumap.go:714-805 | appending a record keeps all records aligned, apart from each other and intact, and freezes the bytes it may lend |
| VmLayout.LayoutRelocate | butils/vectormap/lfumap.go:259-372 | moving a value keeps every other record intact and apart |
| VmLayout.LayoutOverwrite | butils/vectormap/lfumap.go:329-336 | overwriting a short value keeps every other record intact and touches no frozen byte |
| VmLayout.LayoutDrop | butils/vectormap/kvholder.go:174-200 | dropping a record keeps the rest of the layout |
| VmArena.ReadStored | butils/vectormap/kvholder.go:77-103 | a stored record reads back as its key and value, in each of the three encodings |
| VmArena.IndexWordFields | butils/vectormap/kvholder.go:34-47 | the packed index word decodes to the offset, type and size it was made of and is never zero |
| VmArena.HeaderWordFields | butils/vectormap/kvholder.go:77-103 | the packed header word decodes to the offset and size it was made of |
| VmArena.FarIndex | butils/vectormap/lrumap.go:755-829 | in an arena of any size the index word of a record leads to its place exactly below 64MB, and otherwise a multiple of 64MB too low |
| VmArena.FarHeader | butils/vectormap/lrumap.go:755-829 | the same for the place of the value in the header |
| VmArena.FarKeyHidden | butils/vectormap/lrumap.go:55-77 | the failing case with the size check skipped: of two records 64MB apart the second shows the key of the first |
| VmArena.RefundBound | butils/vectormap/kvholder.go:174-200 | neither an update nor a delete gives back more bytes than the record was charged for; both give back just that, except that for a short value an update gives back a quarter of it and a delete what the present bytes need |
| VmTable.HashSplit | butils/vectormap/vectormap.go:501-503 | of the low half of the digest nothing is lost: seven bits mark the slot and the others choose where probing starts |
| VmTable.StartScaled | butils/vectormap/vectormap.go:505-511 | the start is the hash, cut to 32 bits, scaled to the number of groups |
| VmHolder.KvHolder.GcSet | butils/vectormap/kvholder.go:114-172 | appends a whole record, or fails exactly when it does not fit and changes nothing |
| VmHolder.KvHolder.WriteRecord | butils/vectormap/lfumap.go:714-805 | the bytes of an appended record and its value are in place and nothing below the tail changed |
| VmHolder.KvHolder.Relocate | butils/vectormap/lfumap.go:259-372 | the value bytes are at the tail, the header points to them, and no frozen byte changed |
| VmHolder.KvHolder.Acquire | butils/vectormap/refcnt.go:32-37 | one more reader; the arena is alive |
| VmHolder.KvHolder.CloseReader | butils/vectormap/refcnt.go:39-48 | the arena is freed exactly when the last share, of owner or reader, is returned |
| VmHolder.KvHolder.ReleaseOwner | butils/vectormap/value.go:34-45 | giving up the owner share does not free an arena that readers hold |
| VmTable.TableInsert | butils/vectormap/lfumap.go:714-805 | filling a reachable empty slot keeps every key reachable and the counts exact |
| VmTable.TableRemove | butils/vectormap/lfumap.go:815-850 | marking a slot dead, or empty when its group has an empty one, keeps every other key reachable |
| VmTable.ProbeMiss | butils/vectormap/lfumap.go:117-149 | a walk that meets an empty slot without the key proves the key absent |
| VmTable.SomeEmpty | butils/vectormap/vectormap.go:486-511 | with the load limit respected some group always has an empty slot, so walks end |
| VmTable.FastModN | butils/vectormap/vectormap.go:509-511 | the multiply-shift reduction stays below the number of groups |
| VmShardState.InsertStep | butils/vectormap/lfumap.go:714-805 | inserting keeps table, layout and usage accounts consistent |
| VmShardState.DropStep | butils/vectormap/lfumap.go:815-850 | dropping keeps table, layout and usage accounts consistent |
| VmMinTop.Down | butils/vectormap/mintop.go:75-93 | sifting restores the heap order below a node and permutes nothing away |
| VmMinTop.Push | butils/vectormap/mintop.go:44-62 | a full heap replaces its maximum by a smaller item and stays a heap |
| VmMinTop.BuildMinTop | butils/vectormap/mintop.go:95-129 | the result is a selection of at most `l` live slots no unselected live value is below, with the threshold at least every selected value |
| VmMinTop.SelectedLeast | butils/vectormap/mintop.go:95-129 | an unselected live slot is at least as large as every selected one, and then the selection is full |
| VmMinTop.SelectedSlots | butils/vectormap/mintop.go:95-129 | selected slots are distinct live slots with their own values |
| SlotsRebalance.Rebalance | dashboard/dashcore/dashcore_slots.go:611-749 | fails exactly without a live group; every planned slot is at rest, goes to one live group other than its own, never pushes a receiver above the upper nor a giver below the lower bound, and no giver receives; every free slot is planned; lower slots go to lower groups and leave from the top; with all slots on live groups the groups end within one of each other exactly when the slots under way leave room; an already level cluster gets the empty plan |
| SlotsRebalance.RestingHasRoom | dashboard/dashcore/dashcore_slots.go:611-724 | with no action under way there is always room, so balance is always reached |
| SlotsRebalance.FinalSizeIs | dashboard/dashcore/dashcore_slots.go:637-639 | each live group ends with exactly the size the books computed |
| SlotsRebalance.LevelNeedsRoom | dashboard/dashcore/dashcore_slots.go:693-724 | a level outcome is impossible without that room |
| SlotsRebalance.TooManyArriving | dashboard/dashcore/dashcore_slots.go:611-724 | no plan for slots at rest, by whatever rule, leaves a group with fewer slots than are under way to it; with more of them than the upper bound no plan is level |
| SlotsRebalance.NoRoomForThree | dashboard/dashcore/dashcore_slots.go:611-724 | the failing case: three of four slots are under way to one of two live groups, so there is no room and no plan for the slot at rest ends level |
| SlotsRebalance.CannotLevel | dashboard/dashcore/dashcore_slots.go:611-749 | in that case the balancer answers with a plan that does not level the groups |
| SlotsRebalance.RoomMakesLevel | dashboard/dashcore/dashcore_slots.go:693-724 | with that room the greedy moves end level |
| SlotsRebalance.Assign | dashboard/dashcore/dashcore_slots.go:740-749 | the docked slots suffice for all receivers, each receiver gets exactly its share, and the order of slots follows the order of groups |
| RebalancePhases.DockFree | dashboard/dashcore/dashcore_slots.go:673-691 | every free slot is docked once, to a group below the upper bound, and the tree stays ordered by current sizes |
| RebalancePhases.Level | dashboard/dashcore/dashcore_slots.go:693-724 | the loop ends, totals are kept, nobody gives more than it has, and at the end large groups are stuck, nobody is below the upper bound, or sizes are level |
| RebalancePhases.MoveTotals | dashboard/dashcore/dashcore_slots.go:718-723 | one move keeps the totals and lowers the sum of squared sizes |
| RebalancePhases.PickLeaving | dashboard/dashcore/dashcore_slots.go:726-738 | whatever the map order, the leaving slots are the highest movable ones, all books stay right, and only receivers are left in the books |
| RebalanceBooks.BookActive | dashboard/dashcore/dashcore_slots.go:641-645 | the opening books count exactly the slots under way |
| RebalanceBooks.BookSitting | dashboard/dashcore/dashcore_slots.go:647-660 | each slot at rest is counted once, kept up to the lower bound and movable beyond it |
| RebalanceBooks.TreePutOrdered | dashboard/dashcore/dashcore_slots.go:662-674 | putting a key back keeps the tree in the comparator order |
| Topology.RunSafe | dashboard/dashcore/dashcore_slots.go:29-609 | in every topology any run of allowed writes reaches, each group a slot owns or targets exists and has a server, no server address occurs twice, and actions under way have distinct indices |
| Topology.RouteServed | dashboard/dashcore/context.go:103-132 | routing of a mapped slot always finds a master: the first server of the group that owns the slot, or of the target once the migration is finished |
| Topology.RouteStep | dashboard/dashcore/dashcore_slots.go:383-435 | one write moves a slot's route only at migrating to finished, from source to target, or when an operator assigns it |
| Topology.RouteHistory | dashboard/dashcore/dashcore_slots.go:294-435 | over a whole run a different route means a finished migration or an assignment in between |
| Topology.Provenance | dashboard/dashcore/dashcore_slots.go:294-435 | an action under way was created by one write for this very target and has since gone through its states one by one, untouched otherwise |
| Topology.MasterStep | dashboard/dashcore/dashcore_group.go:209-254 | the first server of a group in use changes only by an explicit switch, to the server switched to, and a group in use keeps a server |
| Topology.SlotWriteOk | dashboard/dashcore/dashcore_slots.go:29-61 | slot writes keep the topology sound |
| Topology.GroupWriteOk | dashboard/dashcore/dashcore_group.go:27-254 | group writes keep the topology sound |
| DashCore.Dash.NewContext | dashboard/dashcore/dashcore_cache.go:72-151 | after a successful refill the cached slots and groups equal the store, whatever operations ran before and however their loads and writes failed |
| DashCore.Dash.DrainHooks | dashboard/dashcore/dashcore_cache.go:72-76 | running the queued hooks leaves only cached entries that equal the store |
| DashCore.Dash.FillSlots | dashboard/dashcore/dashcore_cache.go:111-130 | missing slots are loaded; a failed load leaves a cache that can be completed later |
| DashCore.Dash.FillGroups | dashboard/dashcore/dashcore_cache.go:132-151 | missing groups are loaded and removed ones forgotten |
| DashCore.Dash.WriteSlot | dashboard/dashcore/dashcore_slots.go:345-378 | a cached slot is changed in place and written; a failed write may or may not have taken effect, and the queued hook keeps the cache coherent either way |
| DashCore.Dash.WriteGroup | dashboard/dashcore/dashcore_group.go:144-254 | the same for a group |
| DashCore.Dash.CreateGroup | dashboard/dashcore/dashcore_group.go:27-48 | refused exactly for a bad or used id; otherwise one write adds an empty group |
| DashCore.Dash.RemoveGroup | dashboard/dashcore/dashcore_group.go:50-70 | refused exactly while a slot owns or targets the group |
| DashCore.Dash.GroupAddServer | dashboard/dashcore/dashcore_group.go:144-175 | refused exactly for an empty or known address, a missing or a promoting group |
| DashCore.Dash.GroupDelServer | dashboard/dashcore/dashcore_group.go:209-254 | the first server with this address goes; refused exactly when there is none, the group is promoting, or it is the master of a group in use or with other servers |
| DashCore.Dash.SwitchMaster | dashboard/dashcore/dashcore_group.go:439-477 | the server meant is the first with the given address, or else the first of the same process; it is swapped to the front and the group marked out of sync; nothing to do when it is in front; refused exactly when there is no such server or group |
| DashCore.Dash.EnableReplica | dashboard/dashcore/dashcore_group.go:479-511 | the first server with this address is meant; if it may serve reads one write sets its flag and marks a group in use with several servers out of sync; any other is refused, and a refusal after the cached group was changed leaves the store alone and the cache coherent |
| DashCore.Dash.ChangeServerRole | dashboard/dashcore/dashcore_group.go:177-207 | for a known group that is not promoting one write sets the role of the first server with this address, if there is one; refused exactly otherwise |
| DashCore.Dash.ResyncGroup | dashboard/dashcore/dashcore_group.go:72-96 | one write clears the out-of-sync mark of the group and changes nothing else |
| DashCore.Dash.ResyncGroupAll | dashboard/dashcore/dashcore_group.go:120-142 | only marks are cleared; on success none is left |
| DashCore.Dash.Reload | dashboard/dashcore/dashcore.go:421-430 | everything cached will be loaded again before the next operation; the store stays |
| DashCore.Dash.SlotCreateAction | dashboard/dashcore/dashcore_slots.go:29-61 | refused exactly when the slot has an action, is already in the group, or the group has no server |
| DashCore.Dash.SlotCreateActionSome | dashboard/dashcore/dashcore_slots.go:63-111 | creates actions for the first slots of the source group, a failed write ending it at a prefix |
| DashCore.FirstOfMeaning | dashboard/dashcore/dashcore_slots.go:77-95 | the slots picked are resting slots of the source group, in order, as many as asked or all there are, and none is passed over |
| DashCore.Dash.SlotCreateActionRange | dashboard/dashcore/dashcore_slots.go:188-245 | creates actions for the movable slots of a range, for all or none when demanded |
| DashCore.Dash.SlotCreateActionInit | dashboard/dashcore/dashcore_slots.go:113-186 | the slots are dealt to all groups in even shares, the first groups taking one more until the remainder is used up, with fresh consecutive indices; it succeeds only and is refused never when there are groups, fewer than slots, all with servers, and every slot is free of group and action; a failed write ends it at a prefix; it panics, dividing by zero, exactly when there is no group and no slot has one |
| DashCore.InitWithoutGroups | dashboard/dashcore/dashcore_slots.go:113-186 | the failing case: a new dashboard has no group, and the first distribution panics |
| DashCore.CreatedMeaning | dashboard/dashcore/context.go:76-83 | actions created together get consecutive fresh indices and nothing else changes |
| DashCore.Dash.SlotRemoveAction | dashboard/dashcore/dashcore_slots.go:247-272 | removes exactly a pending action |
| DashCore.MinActionIndex | dashboard/dashcore/dashcore_slots.go:302-319 | picks the least index among the accepted actions, or none exactly when there is none |
| DashCore.Dash.SlotActionPrepare | dashboard/dashcore/dashcore_slots.go:294-381 | takes up the least accepted action, begun ones first, moves only its state and only forward, and on success leaves it migrating, or finished if it was |
| DashCore.Dash.SlotActionComplete | dashboard/dashcore/dashcore_slots.go:383-435 | on success the target owns the slot and no action is left; a failure leaves it as before, finished, or done |
| DashCore.Dash.SlotsAssignGroup | dashboard/dashcore/dashcore_slots.go:525-573 | assigns the listed slots in order and marks the listed groups, and no other, out of sync; nothing else about a group changes |
| DashCore.AssignedMeaning | dashboard/dashcore/dashcore_slots.go:525-573 | the last assignment of a slot wins; other slots keep their mapping |
| DashCore.Dash.SlotsAssignOffline | dashboard/dashcore/dashcore_slots.go:575-609 | refused exactly when a listed slot is out of range or listed with a group; otherwise the listed slots lose their groups in order, a failed write ending it at a prefix |
| DashCore.Dash.SlotsRebalance | dashboard/dashcore/dashcore_slots.go:611-776 | in every reachable topology the plan moves resting slots only, gives every free slot a live group, and leaves the live groups within one slot of each other, counting every action under way as arrived, exactly when those actions leave room for that; a balanced topology gets an empty plan; a confirmed plan becomes actions lowest slot first, a failed write ending it at a prefix |
| DashCore.Dash.PlanRound | dashboard/dashcore/dashcore_action.go:31-65 | whatever runs between the picks, the migrations of a round involve pairwise different groups, and there are at most 36; a round that ends early leaves out only what shares a group with one in it, or is pending while migrations are disabled |
| DashCore.Dash.AnyOperations | dashboard/dashcore/dashcore_group.go:27-511 | any of the twenty operations in any order, any of whose loads and writes may fail, reach only sound topologies |
| KeyedCache.Cache.Refill | dashboard/dashcore/dashcore_cache.go:72-215 | what is missing is loaded and what is there stays; a filled cache shows the stored record under every key but those written without being queued |
| KeyedCache.Cache.DrainHooks | dashboard/dashcore/dashcore_cache.go:30-76 | a queued key becomes one to be loaded, everything goes when a reload is queued that concerns this cache, and nothing else changes |
| KeyedCache.Cache.Update | dashboard/dashcore/dashcore_pconfig.go:40-119 | the key is queued whatever becomes of the write, so also a write that failed after taking effect is seen |
| KeyedCache.Cache.AnyUpdates | dashboard/dashcore/dashcore_pconfig.go:40-119 | any updates of proxies and configurations with any failures leave nothing unseen |
| KeyedCache.Cache.WriteRecord | dashboard/dashcore/dashcore_action.go:118-140 | a migration record that reached the store is unseen until its key is queued, which happens only after a write that succeeded |
| KeyedCache.Cache.AnyWrites | dashboard/dashcore/dashcore_action.go:118-140 | any writes, queueings, loads and reloads keep the account of unseen keys right |
| KeyedCache.Cache.ShownStored | dashboard/dashcore/dashcore_cache.go:72-109 | a filled cache shows what is stored under a key exactly when the key was not written unseen, or what was written is what it shows anyway |
| KeyedCache.Cache.WriteThenRefill | dashboard/dashcore/dashcore_action.go:127-141 | after one record write and a refill every key shows the store exactly unless the write was reported failed, took effect and changed the record |
| KeyedCache.UnseenRecord | dashboard/dashcore/dashcore_action.go:127-141 | such a record: finished in the store, running in the cache, whatever is refilled |
| KeyedCache.SeenAfterReload | dashboard/dashcore/dashcore_cache.go:63-70 | after a reload every key shows the store |
| SnapshotPool.Host.AnyInterleaving | raft/engine.go:377-471 | under any interleaving of starting and stopping clusters, the lock sections in which the pool and every stepping, committing and applying thread reload, apply threads, scheduling, workers and requests, none of the panics on flags, mailboxes, workers or the ledger can happen; two incarnations are found, or a replica is closed twice, only after a thread had in view another incarnation than the host or loaded a closed replica; where clusters keep their replica id and are stopped only while no thread is on its way to them, neither happens |
| SnapshotPool.Host.ApplyAlone | raft/engine.go:1186-1212 | while a state machine applies entries no worker is recovering it, nor saving it unless it can save concurrently |
| SnapshotPool.Host.ClusterAlone | raft/engine.go:551-585 | two workers share a cluster only to stream |
| SnapshotPool.ExclusiveJobs | raft/engine.go:515-585 | the busy workers of a cluster are exactly its recorded jobs, all of one kind, so a second save or recovery is impossible |
| SnapshotPool.Host.ProcessSaveStatus | raft/node.go:1582-1594 | a finished save lowers its flag and is used up; exactly an unfinished one holds up a state machine that cannot save concurrently |
| SnapshotPool.Host.ProcessStreamStatus | raft/node.go:1596-1607 | a finished stream lowers its flag; streaming on a state machine not on disk cannot be seen |
| SnapshotPool.Host.ProcessRecoverStatus | raft/node.go:1558-1580 | the replica is skipped until its recovery is finished, and is initialized afterwards |
| SnapshotPool.Host.ProcessUninitialized | raft/node.go:1544-1556 | an uninitialized replica asks once for its initial recovery |
| SnapshotPool.Host.HandleTask | raft/node.go:885-887 | applying a batch ends the pass or hands on the first snapshot request queued for the replica |
| SnapshotPool.Host.HandleSnapshotTask | raft/node.go:1458-1524 | a request raises its flag and fills its empty mailbox, unless one of its kind is under way; recovering again is impossible |
| SnapshotPool.Host.CollectJob | raft/engine.go:679-729 | a request leaves its mailbox and becomes one queued job |
| SnapshotPool.Host.ScheduleWorker | raft/engine.go:649-671 | the first job in order that no working worker hinders goes to the first idle worker, or is dropped exactly when its replica is gone; otherwise nothing more can start |
| SnapshotPool.Host.Schedule | raft/engine.go:641-647 | scheduling ends with no idle worker beside a job that no working worker hinders; every queued job is still queued, given to a worker that was idle, or without its replica, and workers get no other job |
| SnapshotPool.FreeToStart | raft/engine.go:551-585 | a job can start exactly when no worker is saving or recovering its cluster and, unless it streams, none is streaming it |
| SnapshotPool.Host.RecordStart | raft/engine.go:606-639 | a job is booked under its kind; it panics exactly for a second save or recovery of a cluster |
| SnapshotPool.Host.RecordEnd | raft/engine.go:515-549 | the booking of a finished job is undone; it panics exactly when the cluster is not booked under one kind alone |
| SnapshotPool.Host.StartJob | raft/engine.go:597-639 | a job goes to an idle worker and is recorded; no worker gets two jobs |
| SnapshotPool.Host.Completed | raft/engine.go:515-604 | exactly one kind of record is found and closed, the worker lets go of the replica, and the list of busy replicas is published again |
| SnapshotPool.Host.LoadNodes | raft/engine.go:486-513 | an undisturbed reload of the pool or of another thread loads exactly the hosted replicas of the clusters with its remainder; it panics exactly when the host has another incarnation of one it holds |
| SnapshotPool.Host.DropAll | raft/engine.go:503-507 | a thread lets go of everything gone; a replica is closed again exactly when one of these was closed already and had no other holder |
| SnapshotPool.Host.LookAt | raft/engine.go:486-501 | one look at the hosted clusters: skipped exactly when nothing changed since the last one, a panic exactly when an incarnation differs, and otherwise the thread has in view just its hosted clusters |
| SnapshotPool.Host.PublishList | raft/engine.go:117-128 | the list others see is what the thread saw, whatever has been stopped or started since |
| SnapshotPool.Host.TakeSeen | raft/engine.go:502-510 | a replica that was seen gets one more holder, even if it was closed in between, and exactly then it counts as loaded again |
| SnapshotPool.Host.DropGone | raft/engine.go:503-507 | a replica that is gone loses a holder; the last one closes it, for the second time exactly if it was closed before |
| SnapshotPool.Host.Complete | raft/engine.go:1077-1087 | from wherever it is, a thread ends its reload with just what it saw loaded and published |
| SnapshotPool.Host.StartCluster | raft/nodehost.go:1470-1556 | accepted exactly when the cluster is not hosted and neither a published list nor the list of busy replicas names it under this id; it makes outdated exactly the views that have the cluster |
| SnapshotPool.Host.StopCluster | raft/nodehost.go:1715-1737 | the cluster is no longer hosted and one share is given up; the last share closes the replica, and closing it again is reported |
| SnapshotPool.Host.ClosedUnheld | raft/engine.go:1479-1483 | a replica is closed exactly when the host, every thread and every worker have let go of it, or when it was loaded again after its closing |
| SnapshotPool.Host.SendSnapshot | raft/nodehost.go:1805-1823 | only a state machine on disk is asked to stream |
| SnapshotPool.StartThenLook | raft/engine.go:486-513 | a start followed by the end of a thread's reload and its next look panics exactly when the start is accepted while the thread has the cluster in view; then its list names another id, or, whatever the id, it was between looking and publishing |
| SnapshotPool.TwoIncarnations | raft/engine.go:486-513 | the panic happens: a cluster stopped and started again with a new replica id before the pool reloads |
| SnapshotPool.SameIdClash | raft/engine.go:486-513 | the panic happens under one and the same id: the cluster is stopped and started between the pool's look and its list |
| SnapshotPool.ClosedTwice | raft/engine.go:486-513 | without any restart, a cluster stopped between the pool's look and its loading is closed a second time when the pool lets go of it |
| Loaders.CalmStop | raft/nodehost.go:1715-1737 | stopping a cluster that every thread which saw it has loaded and published leaves the host calm |
| Loaders.CalmListed | raft/engine.go:92-101 | on a calm host a cluster in somebody's view and not hosted is still listed under its id, so starting it again is refused |
| Loaders.CalmSafe | raft/engine.go:486-513 | on a calm host no view is outdated and no replica with a holder has been closed |
| Loaders.ViewCalm | raft/engine.go:1077-1087 | every step of a thread's reload keeps the host calm, and what it loads has not been closed |
| Loaders.TakenOk | raft/engine.go:502-510 | loading keeps the number of holders of every replica right |
| Loaders.DroppedOk | raft/engine.go:502-510 | letting go keeps the number of holders of every replica right |
| SnapshotPool.Host.Notify | raft/snapshotstate.go:185-215 | the result, with the mark of an initial recovery, goes into an empty mailbox and nothing else changes |
| Proposals.Shard.AnyInterleaving | raft/request.go:1062-1205 | with an object of its own for every request, under any interleaving of ticking, proposing, queueing, committing, commit notices, applying, dropping, expiry, closing the queue and closing the table no request is notified twice of its commit or of its result |
| Proposals.Shard.NeverLost | raft/request.go:1062-1205 | an accepted proposal is pending, in a notifier's hand or notified, and once closed it is not pending |
| Proposals.Shard.CommittedBeforeApplied | raft/node.go:1051-1068 | with commit notices on, and applying only through the queues the commit worker feeds, a request told of its result has been told of its commit before, whatever the clock does between the two lookups |
| Proposals.Shard.Enqueue | raft/queue.go:60-73 | accepted exactly when the queue is open, not paused and below its size; closed is reported exactly when it is closed; nothing else changes |
| Proposals.Shard.PushTask | raft/node.go:570-582 | committed entries go to the commit queue as one task when notices are on, and straight to the apply queue otherwise |
| Proposals.Shard.CommitFind | raft/request.go:1131-1159 | the request of an entry is found exactly when it is pending, matches and is in time at the moment read before |
| Proposals.Shard.CommitSignal | raft/request.go:401-413 | the commit notice goes into an empty channel, once |
| Proposals.Shard.CommitForward | raft/node.go:1051-1068 | a task moves to the apply queue only after the last of its entries was looked at |
| Proposals.Shard.ApplyNext | raft/node.go:258-272 | entries are applied in queue order |
| Proposals.Shard.AppliedInOrder | raft/node.go:570-582 | what was applied is a prefix of what was pushed, all of it when both queues are empty |
| Proposals.Shard.Take | raft/request.go:1136-1153 | a request is taken out exactly when it is pending, in time and from this client and series, and the table is open |
| Proposals.Shard.Notify | raft/request.go:427-434 | the outcome is delivered into an empty channel |
| Proposals.Shard.Gc | raft/request.go:1189-1205 | at most once per period, exactly the overdue requests are timed out; all others and all earlier results stay |
| Proposals.Shard.CloseFinish | raft/request.go:1114-1124 | exactly the waiting requests are told that the table is closed; earlier results stay |
| RequestPool.Pool.AnyInterleaving | raft/request.go:401-472 | with objects released by clients and reused by the pool, a commit notice panics only after a client released an object the commit worker held; if clients release only after their commit notice, where there are notices, nothing panics and no notice goes astray |
| RequestPool.Pool.CommitSignal | raft/request.go:1155-1159 | panics exactly when the object stands for nobody or the channel of the one it stands for has had a notice; otherwise the notice goes to whoever the object stands for now |
| RequestPool.Pool.MeetsItsOwn | raft/request.go:1131-1159 | the notice meets its own request exactly when that has not been released since it was found |
| RequestPool.Pool.Release | raft/request.go:436-456 | the object of a told request goes back; held by the commit worker, it stands for nobody from then on |
| RequestPool.ReleasedWhileFound | raft/request.go:401-456 | the panic happens: a request found by the commit worker times out and is released before the notice |
| RequestPool.StrayNotice | raft/request.go:401-472 | with the object reused, a proposal whose entry was never queued is told that it is committed |
| PendingReads.Queue.Get | raft/queue.go:156-164 | hands out everything added since the last turn, in order |
| PendingReads.Queue.Add | raft/queue.go:141-154 | adds behind the waiting requests unless full or closed, and never writes the buffer handed out |
| PendingReads.Reads.AnyInterleaving | raft/request.go:810-973 | under any interleaving of reading, batching, confirming, applying, expiry and the single steps of closing, over the one shared queue and the slices it lent, no read is told twice, up to the moment the random name of a waiting batch is drawn again |
| PendingReads.Reads.SliceIntact | raft/queue.go:134-164 | the slice the stepping thread works on still shows exactly the reads it took, whatever was added to the queue meanwhile |
| PendingReads.Reads.Read | raft/request.go:830-847 | accepted exactly when the queue has room and is open; then it waits behind the others with its deadline |
| PendingReads.Reads.CloseTake | raft/request.go:815-816 | closing takes what is queued, all at once, through the other slice |
| PendingReads.Reads.CloseTell | raft/request.go:817-819 | each queued read, not told before, is told that the table closed |
| PendingReads.Reads.CloseEnd | raft/request.go:821-828 | at the end of closing, however its steps were interleaved, all accepted reads are told exactly when the stepping thread holds none and none was refused as a batch |
| PendingReads.Reads.ServedInTime | raft/request.go:915-944 | a read told to go ahead had its batch confirmed at an index already applied |
| PendingReads.Reads.Applied | raft/request.go:915-973 | exactly the batches confirmed at or below the applied index are settled: each of their reads completes and may go ahead if its deadline is later than the clock, and times out otherwise; in the others exactly the overdue reads time out when a collection is due |
| PendingReads.Reads.Gc | raft/request.go:946-973 | place by place, a read leaves its batch exactly when it is overdue and is then told; a batch goes exactly when it is empty and out of date |
| PendingReads.Reads.DropBatch | raft/request.go:899-913 | every read of the batch is told it was dropped, and no earlier answer changes |
| PendingReads.Reads.Close | raft/request.go:810-828 | every read in the queue or a batch is told that the table closed, earlier answers stay, and all accepted reads are told exactly when the stepping thread holds none at that moment |
| PendingReads.Reads.Told | raft/request.go:810-828 | once closed, exactly the reads held by the stepping thread, or forgotten from it, are untold |
| PendingReads.ForgottenRead | raft/request.go:882-897 | such a read exists: accepted, taken, and refused as a batch after closing, it is never told |
| SuccinctMap.ThinShard | butils/map2/fast_succinct_map.go:235-265 | the in-place pass over a shard computes its specification and counts what it drops |
| SuccinctMap.ThinKeeps | butils/map2/fast_succinct_map.go:235-265 | the pass keeps the order, keeps no foreign item and loses no key |
| SuccinctMap.ThinDistinct | butils/map2/fast_succinct_map.go:235-265 | its result has distinct keys exactly when no pair of equal keys is followed by the same key or by another pair |
| SuccinctMap.PairsSurvive | butils/map2/fast_succinct_map.go:235-265 | two pairs in a row: a duplicate survives |
| SuccinctMap.FastMap.Add | butils/map2/fast_succinct_map.go:199-215 | adds the item; sorted shards stay sorted exactly when no key of the shard is above it |
| SuccinctMap.FastMap.Unique | butils/map2/fast_succinct_map.go:165-177 | every shard becomes some order of its items sorted by key and then thinned, once; sizes follow |
| SuccinctMap.SortItems | butils/map2/fast_succinct_map.go:235-265 | sorts by key and keeps the items; nothing is promised about equal keys |
| SuccinctMap.TidyOk | butils/map2/fast_succinct_map.go:165-265 | tidying a shard sorts it, invents nothing, loses no key and leaves keys distinct exactly when they were not crowded |
| SuccinctMap.SameCrowding | butils/map2/fast_succinct_map.go:165-265 | whether keys are crowded does not depend on how equal keys were ordered |
| SuccinctMap.FastMap.Serialize | butils/map2/fast_succinct_map.go:179-189 | packs all items into a new buffer of the size left after thinning, or into the one given; panics exactly when a given one is shorter than that; false exactly for the empty map |
| SuccinctMap.FastMap.Pack | butils/map2/fast_succinct_map.go:299-330 | header, running counts and all items are in the buffer at the places lookups use |
| SuccinctMap.Format | butils/map2/fast_succinct_map.go:299-330 | the places in a packed buffer, byte by byte: running counts from byte 8, items from byte 262152, key before value |
| SuccinctMap.Get | butils/map2/fast_succinct_map.go:365-397 | a lookup in the buffer finds what the halving search over the shard finds |
| SuccinctMap.SortedHits | butils/map2/fast_succinct_map.go:487-503 | in a sorted shard the search finds exactly the keys that are there |
| SuccinctMap.FindsAllSorted | butils/map2/fast_succinct_map.go:487-503 | with distinct keys the search finds every key of a shard exactly when the shard is sorted |
| SuccinctMap.FastMap.AnswersWhenSorted | butils/map2/fast_succinct_map.go:365-397 | with distinct keys every key added is answered exactly when all shards are sorted |
| SuccinctMap.LateKey | butils/map2/fast_succinct_map.go:199-215 | a new key added to a sorted map leaves every key answered exactly when it is above all keys of its shard |
| SuccinctMap.FastMap.Lookup | butils/map2/fast_succinct_map.go:365-397 | the buffer answers only for keys added, with a value added for that key; with sorted shards for all of them |
| SuccinctMap.LateItemMissed | butils/map2/fast_succinct_map.go:165-177 | an item added after sorting can be missed by every lookup |
| StoreMap.Store.Put | butils/map2/succinct_map.go:214-252 | in sorted shards the last value stored for a key wins and the shards stay sorted; a key the search misses comes to be there twice, and a repeated key stays repeated; the size grows in any case, in 32 bits |
| StoreMap.Store.Add | butils/map2/succinct_map.go:294-308 | appends unseen; the shards stand for the bindings exactly as long as every key was new, and hold a repeated key otherwise |
| StoreMap.Store.Load | butils/map2/succinct_map.go:394-413 | finds what the halving search finds; in sorted shards without repeated keys exactly the bindings |
| StoreMap.Store.Serialize | butils/map2/succinct_map.go:326-358 | skipped exactly when the map was announced as empty, has no shards or no size; panics exactly when the buffer is shorter than the items need, so never for a buffer of the announced size below 4GB; if every call left an item, the buffer the code makes itself is too short exactly from 4GB on; otherwise the shards are sorted, stand for the same bindings and are laid out |
| StoreMap.SizeSuffices | butils/map2/succinct_map.go:214-358 | the announced size covers all items below 4GB, and if every call left an item only below 4GB |
| StoreMap.SizeWraps | butils/map2/succinct_map.go:214-358 | the failing run: with enough keys the size passes 32 bits, and the buffer made for it panics |
| StoreMap.Store.Pack | butils/map2/succinct_map.go:326-358 | header, entries and items are at the places lookups use |
| StoreMap.GetPacked | butils/map2/succinct_map.go:436-460 | on any bytes it panics exactly when the halving search or the read of the value goes behind the end; on a laid out map it does not, and it finds what the search over the shard finds |
| StoreMap.Store.Get | butils/map2/succinct_map.go:436-460 | for a buffer that was laid out, at whatever time, the answer is for what was laid out then, without a panic; a buffer that was only set is read as it is |
| StoreMap.Store.SerializeThenRead | butils/map2/succinct_map.go:190-212 | right after laying out, the buffer, a reader opened on it and the shards give the same answer for every key, the value bound last or none |
| StoreMap.StoredDistinct | butils/map2/succinct_map.go:214-252 | storing keeps keys distinct and replaces just this key's item, unless the search misses it |
| Md5Block.BlockGeneric | butils/md5hash/md5block.go:22-133 | the unrolled form with cheaper round functions equals the table-driven definition of RFC 1321, block by block |
| Md5Vectors.EmptyDigest | butils/md5hash/md5block.go:22-133 | the MD5 of the empty message is d41d8cd98f00b204e9800998ecf8427e, as section A.5 of RFC 1321 lists it |
| Md5Vectors.AbcDigest | butils/md5hash/md5block.go:22-133 | the MD5 of abc is 900150983cd24fb0d6963f7d28e17f72, as section A.5 of RFC 1321 lists it |
| Md5Block.AbsorbMore | butils/md5hash/md5block.go:22-133 | absorbing blocks in two goes is absorbing them in one |
| Md5.Digest.Write | butils/md5hash/md5.go:110-142 | whatever was buffered, writing appends to the message |
| Md5.Digest.CheckSum | butils/md5hash/md5.go:151-174 | the sum is the MD5 of the whole message as RFC 1321 pads it, and no partial block is left |
| Md5.Digest.SumOf | butils/md5hash/md5.go:144-149 | summing leaves the digest as it was |
| Md5.SumOfChunks | butils/md5hash/md5.go:110-174 | any split of a message over writes gives the same sum |
| Md5.Md5Sum | butils/md5hash/md5.go:201-278 | the fused form, with its own buffering, padding and length, gives the MD5 of the message and its two halves, and never panics |
| Md5.FusedMessage | butils/md5hash/md5.go:201-232 | after the first pass the blocks absorbed and the bytes buffered are the message |
| Md5.FusedTopUp | butils/md5hash/md5.go:207-219 | topping up a partial block loses and reorders nothing |
| Md5.FusedTail | butils/md5hash/md5.go:220-232 | whole blocks are absorbed and the rest is buffered |
| Md5.Resume | butils/md5hash/md5.go:58-87 | a digest saved and restored mid-stream goes on with the same message |
| Md5.Digest.UnmarshalBinary | butils/md5hash/md5.go:71-87 | accepts exactly the right length and mark, and restores the fields saved |
| Md5.SavedParts | butils/md5hash/md5.go:58-69 | the mark is md5 and a byte of one, and each saved field reads back |
| Md5.LittleReversed | butils/md5hash/md5.go:151-174 | the length in the padding is the big-endian encoding, which reads back, in reverse |
| Resp.RoundTrip | proxy/resp/resp_reader.go:39-93 | a reply followed by anything reads back as itself with the rest untouched exactly when no status or error text has a line feed and every line fits the reader's buffer |
| Resp.OnTheWire | proxy/resp/resp_writer.go:48-124 | the bytes of each kind of reply: its type byte, its text or decimal number, and the line end |
| Resp.ArrayOnTheWire | proxy/resp/resp_writer.go:48-124 | an array is its type byte, the decimal number of its items, and the items one after the other |
| Resp.ParsedClean | proxy/resp/resp_reader.go:158-171 | nothing the reader returns has a line feed in a text |
| Resp.SplitStatus | proxy/resp/resp_writer.go:56-60 | a status with an embedded line end is cut short and leaves its tail to be read as the next reply |
| Resp.NullArray | proxy/resp/resp_writer.go:81-85 | a null array reads as a null |
| Resp.IntRoundTrip | proxy/resp/resp_reader.go:195-222 | every 64-bit integer survives, the smallest included |
| Resp.LenRoundTrip | proxy/resp/resp_reader.go:173-193 | every length survives |
| Resp.AccumulateDigits | proxy/resp/resp_reader.go:184-192 | the digit loop computes its specification and rejects any other byte |
| Resp.ReadInt | proxy/resp/resp_reader.go:195-222 | the loop computes its specification, wrap-around and sign included, and fails on any other byte |
| Resp.ReadLen | proxy/resp/resp_reader.go:173-193 | the same for lengths, with the null mark |
| Resp.RespReader.ReadRequest | proxy/resp/resp_reader.go:95-120 | blank lines are skipped, and the arguments and the rest of the input are those of the specification, or it fails |
| Resp.RequestRoundTrip | proxy/resp/resp_reader.go:95-120 | a request of any arguments behind any number of blank lines reads back as itself with the rest untouched exactly when every line fits the reader's buffer |
| Resp.RespWriter.Write | proxy/resp/resp_writer.go:48-124 | the writer appends the encoding of a reply |
| Resp.RespWriter.WriteArray | proxy/resp/resp_writer.go:81-109 | the encoding of an array, item by item |
| Resp.RespReader.Parse | proxy/resp/resp_reader.go:39-93 | the reader consumes and returns what its specification says, or fails |
| Resp.RespReader.ParseArray | proxy/resp/resp_reader.go:78-91 | the items of an array in order, or a failure at the first bad one |

## Left out

- Vector map: the LRU variant as a map. It shares the table code, but its arena is not held below 64MB when the size check is skipped; what its words do then is in `VmArena.FarIndex` and `VmArena.FarHeader`, and the results about whole runs are for the LFU variant.
- Vector map: locks and races; `Close`; the sharded front and its eviction timer. Thresholds given as floating-point factors are exact fractions (999/1000, 45/1000, growth by 6/5 rounded up, a nineteenth of the entries rounded up). SIMD matching is taken by its meaning.
- VmLfuMap.LfuMap.PutMultiValue: the length given beside the pieces is their total, as its callers compute it; another length is not modelled.
- VmMinTop.Push: does not model the branch for a heap that is not full, because its only caller fills the heap first.
- VmMinTop.BuildMinTop: states the threshold as an upper bound that one selected slot attains, not how ties are broken.
- Dashboard: network calls to proxies and servers and their errors (a resynchronisation is a nondeterministic success), promotion and removal of raft nodes, administration, HTTP; the data migration itself between prepare and complete, so that completion is an operation that may be called at any time on a migrating slot. Repeated forms of modelled operations over all groups (`EnableReplicaGroupsAll`, `InverseReplicaGroupsAll`) would only repeat them.
- KeyedCache.Cache: steps run one at a time, although `dirtyMigrateCache` is called without the dashboard's lock and pushes onto the shared list of hooks; a hook lost in such a race is not modelled. One record type at a time; the five tables are loaded one after the other and a failure of one keeps what the others loaded, as `DashCore` models for slots and groups.
- Raft: consensus, log storage, transport, the state machine, snapshot files, and the wake-up channels; a request may be collected at any time.
- SnapshotPool.Host: a step of a thread is what it does under one lock, or one change of a replica's count. Starting and stopping a cluster are one step each, since the host's lock is held throughout. What a closed replica does when it is used, and the closing itself, are left out; asking for it twice is reported as the panic it leads to.
- Proposals.Shard: closing happens once. Release and reuse of request objects are in `RequestPool.Pool`, where a client releases an object once and reads its channels at any time.
- Raft: the tables of config change and snapshot requests, which hold one request at a time under one lock, would only add easy members.
- PendingReads.Reads: batches of a closed table are removed instead of kept unused.
- SuccinctMap: 64-bit values, which only widen the item; the arena allocator.
- SuccinctMap.FastMap.AnswersWhenSorted: is stated for distinct keys; with repeated keys sortedness is sufficient but not necessary, since a repeated key can hide a misplaced one.
- StoreMap.Store: 64-bit values; freeing by `Finish`; buffers of 4GB and more.
- StoreMap.Store.Serialize: does not model a shard of 4G items or more; it takes shards of fewer than 4G items, because the item count of a longer one is cut to 32 bits.
- Resp: the copying of bulks to a writer, which reuses the same line and length reading; lengths beyond memory.
- Resp.RespWriter.WriteArray: takes replies as items; the conversion of other Go types to bulks by formatting is not modelled.
- Md5: assembly kernels.
