# Verified model of the mbb billing daemon

The daemon bills network traffic. Its centre is the question which unit owns an IPv4 address at a
time. This project models the code that answers it, and the protocols around it, and proves what
they promise:

- `slices.dfy`, `mapdata.dfy`, `store.dfy`, `tiling.dfy`, `slicer.dfy`, `map.dfy`: the
  two-dimensional interval map. A slicer keeps an ordered partition of one key axis (a list and a
  tree over the same slices); the data of a slice is a sorted list of disjoint intervals of the
  other axis. `Tiling.Owns(queue, x, y, o)` is the meaning of it all: the owner `o` has the point
  `(x, y)`. Every operation is proved to be a pointwise update of this relation that keeps the
  partition, the tree, the order of the lists, the reference counts and the back-index.
- `inet.dfy`: IPv4 addresses and networks (prefix notation of section 3.1 of RFC 4632), printing
  and reading.
- `separator.dfy`, `unit.dfy`: the entries of a unit in their priority order, and the rebuilding of
  a unit's map from times to addresses.
- `transpose.dfy`, `inetmap.dfy`, `umap.dfy`, `reload.dfy`: the global map from addresses to times,
  mapping and unmapping of units with rollback, the flattened array searched by bisection, and the
  reload of all units with the end-to-end theorem `Reloads.BilledUnit`.
- `gateway.dfy`: the time queues of the links of a gateway, and the time comparisons.
- `module.dfy`, `modulerun.dfy`, `task.dfy`, `msgqueue.dfy`: three concurrent protocols as state
  machines whose theorems hold for every interleaving: use and unload of modules by calls and by the
  tasks that calls create, the life of tasks with pause and cancel, and the queue of outgoing
  messages. In `module.dfy` every step function has a contract that tells its effect.
- `stat.dfy`, `flows.dfy`: the traffic accumulator, and the calculation of the statistics from a
  router's flows, from the reload of the map to each counter (`Flows.Calculate`).
- `xmltag.dfy`: chains of XML tags, their merge sort in place, and the order of children.
- `sequences.dfy`: what the other files need of sequences.

## Conventions

- The number 0 is the NULL pointer: minus infinity as the begin of a slice, plus infinity as its
  end. Times and addresses are numbers from 0 on.
- List links, queues, map entries, pool entries and modules are named by numbers that are never
  used twice; they stand for addresses. A pool entry's node list is kept in `Store.index` and a map
  entry's reference count in `Store.refs`, so that both can be compared with the lists they are
  about. GLib's queue is a sequence, its tree a map from slices to links, its hash table a map.
- Some large definitions are guarded by `Slices.Open` (and one by `Inets.Close`); a proof that needs
  the definition says `assert Open(0)`. This has no meaning beyond steering the verifier.
- The code has limits that its callers must respect; they are preconditions here, and a lemma
  shows for each exactly when the code goes wrong: times must fit an `int`
  (`Slices.TimeCmpOrders`), a begin of 1 or an end at the last address must not be cut off an
  infinite slice (`Slices.SliceCrossExact`), so a key may not begin at 1 (`Slicers.OneCutsWrong`)
  and entries for 0.0.0.1/32 are right only under a condition on the entries before them
  (`Units.CutsExactly`, `Units.WalkableExactly`); adjacent addresses are not recognised
  (`MapData.JoinInets`), so an address interval may have no neighbour of its owner behind a gap
  (`MapData.PlacedMeaning`); a range that ends at address 0 reads as infinite (`Inets.RangeAsSlice`),
  `nice` must fit an `int` (`Separators.NiceLimit`), and the time 0 matches every link
  (`MbbTimes.RCmpMeaning`).
- Some promises of the concurrent protocols do not hold in every interleaving. The model has the
  steps that break them; a lemma gives a run that does, and another says for all runs exactly when
  it cannot happen.
  - A module can be freed before a refused unload or a load without `onready` has read it for the
    last time (`ModuleRuns.LoadCrash`, `ModuleRuns.RefusedCrash`).
  - A task that was created while its module is stopped is refused the use of the module, and both
    runs and gives the module's lock back all the same. The module can be freed under the task
    (`ModuleRuns.TaskCrash`) or under the function that created it (`ModuleRuns.InsideCrash`).
  - Two rules exclude all of that (`ModuleRuns.OrderlySafe`), and every single move against them
    makes a crash possible (`ModuleRuns.RuleExact`): no unload of a
    module begins while such a last read of it is due; and a function begins to create a task only
    while its module runs, and the module is not stopped before the task has its answer. Who stops
    modules keeps to the second one by stopping none while a call is in it
    (`ModuleRuns.CalmOrderly`).
  - A task can be freed before its creator has read its number (`Tasks.CreatorCrash`), exactly when
    one of its hooks returns FALSE or somebody begins to cancel it before that (`Tasks.RuleExact`).
  - A message without bytes blocks the queue for good (`MsgQueues.StuckExactly`).

## Model

| member | source | states |
|---|---|---|
| Slices.ToGint | mbbd/timeslicer.c:19-27 | a difference that fits an `int` survives the conversion, and every result fits one |
| Slices.TimeCmpOrders | mbbd/timeslicer.c:19-27 | `time_cmp` orders all times up to `t` if and only if `t` fits an `int` |
| Slices.SliceCmpMeaning | mbbd/slicer.c:44-91 | the sign of `slice_cmp` says which of two slices ends before the other begins, 0 that neither does, with infinite bounds |
| Slices.SliceCmpMeets | mbbd/slicer.c:84-91 | two non-empty slices compare equal if and only if they share a key |
| Slices.SliceCmpPointMeaning | mbbd/slicer.c:479-486 | `slice_cmp_point` is 0 exactly for the keys of the slice, and its sign tells the side |
| Slices.SliceCrossExact | mbbd/slicer.c:93-131 | the three pieces cover the slice exactly once and only the middle lies in the key, if and only if `dec` and `inc` do not leave the axis |
| Slices.SliceCrossShape | mbbd/slicer.c:93-131 | under that condition the pieces follow one another without a gap and keep the outer bounds |
| MapData.JoinTimes | mbbd/map.c:128-148 | for times the test of `map_data_split` is adjacency, and joining adds no point exactly then |
| MapData.JoinInets | mbbd/map.c:136-137 | for addresses the test always succeeds; the join is right if and only if the intervals are adjacent |
| MapData.OwnerUnique | mbbd/map.c:184-201 | in a sorted list of disjoint intervals no point has two owners |
| MapData.PlacedMeaning | mbbd/map.c:203-234 | putting an interval in its place, joined with touching neighbours of its owner, keeps the list sorted and disjoint, and gives exactly its points to the owner if and only if no gap lies between it and a neighbour of its owner that it is joined with |
| MapData.JoinsMeaning | mbbd/map.c:128-159 | the join covers exactly the points of its parts if and only if there is no such gap; for times there never is |
| MapData.BridgeAtPlace | mbbd/map.c:217-230 | both neighbours are joined exactly when the new interval fills a gap between two intervals of its owner |
| MapData.PiecesSurvive | mbbd/map.c:264-283 | the pieces that a deletion leaves of an interval own exactly its points outside the deleted range, in order |
| MapData.CutsSafeMeaning | mbbd/map.c:253-283 | all cuts of a deletion in one list are safe if and only if it does not begin at 1 or takes nothing from an owner of the point 0 |
| MapData.DelDoneStep | mbbd/map.c:253-283 | one step of the deletion loop: what is done owns exactly the surviving points and stays before the rest |
| MapStore.UniqueAdd | mbbd/mbbinetpool.c:110-119 | a new node keeps every link of a node list unique to one pool entry |
| MapStore.Store.EntryUnref | mbbd/map.c:76-87 | one reference fewer, all other counts unchanged |
| MapStore.Store.NodeAdd | mbbd/mbbinetpool.c:110-119 | the pool entry lists the node once more, nothing else changes |
| MapStore.Store.NodeDel | mbbd/mbbinetpool.c:121-137 | the pool entry lists the node once less if it did, nothing else changes |
| MapStore.Store.Split | mbbd/map.c:128-148 | joins two touching intervals of one owner into a new entry and gives their references back |
| MapStore.Store.DataAdd | mbbd/map.c:162-238 | a crossing is reported exactly when the list meets the interval, and then nothing changes; otherwise exactly its points are added if and only if every neighbour of its owner that it is joined with is adjacent; references and nodes follow the links, but for the node of a bridged link |
| MapStore.Store.AddAt | mbbd/map.c:209-234 | exactly the touching neighbours of the same owner are joined, exactly the points are added if and only if they are adjacent, and a node is lost exactly when both are joined |
| MapStore.Store.DataDel | mbbd/map.c:240-291 | exactly the points hit by the deletion go, the list stays sorted, references and nodes follow the links |
| MapStore.Store.DelLink | mbbd/map.c:256-283 | the links left of one link own exactly its points that are not hit; its node and reference go, theirs come |
| MapStore.Store.DataDup | mbbd/map.c:293-313 | a copy with links of its own, one more reference and node for each |
| MapStore.Store.DataFree | mbbd/map.c:315-325 | every link gives back its reference and its node |
| Tiling.TilesOrdered | mbbd/slicer.c:358-365 | the slices of the partition are in order, so no two overlap |
| Tiling.TilesCover | mbbd/slicer.c:224-242 | no key is left out by the partition |
| Tiling.TilesSplice | mbbd/slicer.c:349-367 | replacing a slice by pieces of its own extent keeps the partition |
| Tiling.TilesGlue | mbbd/slicer.c:561-579 | replacing neighbours by one slice of their extent keeps the partition |
| Tiling.OwnsUnique | mbbd/map.c:162-201 | no point of the plane has two owners |
| Tiling.PiecesChanged | mbbd/slicer.c:332-369 | cutting a slice and changing the middle changes exactly the points of the key |
| Slicers.Slicer.constructor | mbbd/slicer.c:145-163 | one slice without data covers the axis and the invariant holds |
| Slicers.Slicer.InsertBefore | mbbd/slicer.c:274-288 | the entry is in the list and in the tree, which stay in agreement |
| Slicers.Slicer.Replace | mbbd/slicer.c:349-367 | a slice gives way to its pieces: partition, tree, references, nodes and counter follow |
| Slicers.Slicer.ChangeData | mbbd/slicer.c:332-369 | returns 0 and changes nothing exactly when the slice does not meet the key; otherwise it changes exactly the points of the key in that slice |
| Slicers.Slicer.Lookup | mbbd/slicer.c:383-384 | the tree always has a slice that meets a non-empty key |
| Slicers.Slicer.ForwardAll | mbbd/slicer.c:386-392 | the forward loop changes the slices from the found one up to the first that does not meet the key |
| Slicers.Slicer.BackwardAll | mbbd/slicer.c:394-400 | the backward loop changes the slices before the found one down to the first that does not meet the key |
| Slicers.Slicer.ApplyChange | mbbd/slicer.c:371-411 | exactly the points of the key change, each once; a crossing is found exactly when one exists; the back-index gains a surplus only where a gap is bridged; the invariant is kept |
| Slicers.RegionWhole | mbbd/slicer.c:386-400 | the slices visited in both directions are all slices that meet the key |
| Slicers.OneCutsWrong | mbbd/slicer.c:332-347 | a key that begins at 1 always cuts the first slice wrongly |
| Slicers.AlwaysFound | mbbd/slicer.c:493-506 | every key is found in the tree |
| Slicers.Slicer.Find | mbbd/slicer.c:493-506 | the data at a key, that is the list of the only slice that has it |
| Slicers.Slicer.Search | mbbd/slicer.c:508-550 | the data of exactly the slices that meet the key, in order |
| Slicers.SearchRight | mbbd/slicer.c:524-532 | the data of the found slice and of all slices after it that meet the key, in order; the next slice is apart from the key |
| Slicers.SearchLeft | mbbd/slicer.c:534-542 | the data of all slices before the found one that meet the key, in order; the slice before them is apart from the key |
| Slicers.Slicer.Glue | mbbd/slicer.c:552-580 | a run of null slices gives way to one; partition, tree and books are kept |
| Slicers.Slicer.GlueNull | mbbd/slicer.c:582-613 | no two neighbouring null slices are left, every slice with intervals is unchanged, no node is gained or lost |
| Slicers.GlueProgress | mbbd/slicer.c:593-609 | one step of the gluing loop keeps what has been done |
| Slicers.Slicer.FreeAll | mbbd/slicer.c:266-272 | all references and nodes of the slices are given back |
| Slicers.Slicer.Clear | mbbd/map.c:358-364 | the map is as new, and each node list has exactly its surplus left |
| Maps.Map.constructor | mbbd/vmap.h:11-21 | a new map owns no point and has an exact back-index |
| Maps.Map.Add | mbbd/map.c:482-503 | a crossing exactly when the rectangle meets an occupied point, with an owner of such a point; otherwise exactly the rectangle is gained; the back-index stays exact exactly when no gap is bridged; no list of the key may have a neighbour of the owner behind a gap, see `MapStore.Store.DataAdd` |
| Maps.AddMeaning | mbbd/map.c:482-503 | from the outcome in the slices follow exactly the gained points, the crossing, the back-index and the counter |
| Maps.BridgeSeen | mbbd/map.c:150-159 | a link is dropped without its node only where the owner has both sides of the new interval |
| Maps.BridgeMade | mbbd/map.c:150-159 | and it is dropped whenever that is so |
| Maps.Map.Del | mbbd/map.c:505-524 | ownership goes at exactly the points of the rectangle whose owner matches, and an exact back-index stays exact; a rectangle that begins at 1 must not cut an owner of the point 0 |
| Maps.CutsAtPoints | mbbd/map.c:505-524 | that condition holds if and only if every cut of the deletion, in every slice of the key, is safe |
| Maps.Map.Find | mbbd/map.c:558-580 | the owner of a point, None exactly when it has none |
| Maps.FindIn | mbbd/map.c:569-577 | the loop over one list finds the only interval with the point |
| Maps.Map.Search | mbbd/map.c:596-611 | exactly the owners that have a point of the rectangle |
| Maps.SearchIn | mbbd/map.c:582-594 | exactly the owners of the intervals that meet the range, before those found already |
| Maps.SearchMeaning | mbbd/map.c:596-611 | owners of meeting intervals in meeting slices are owners of points of the rectangle |
| Maps.Map.NodeRemove | mbbd/map.c:418-422 | exactly the interval of the link that a node names goes: its points lose their owner, and every other point, of any owner, stays as it was |
| Maps.NodeOwner | mbbd/mbbinetpool.c:110-137 | a node names one link and the owner of its interval alone |
| Maps.Map.RemoveOwner | mbbd/map.c:544-556 | all intervals of an owner go, all others stay |
| Maps.Map.PurgeList | mbbd/map.c:526-542 | exactly the intervals of the owner leave the list, and everything else is kept |
| Maps.PurgedOwns | mbbd/map.c:526-556 | without the intervals of an owner the map has the points of all others |
| Inets.LowMask | mbbd/range.c:18-19 | the shifted and inverted 32-bit masks as numbers |
| Inets.RangeMeaning | mbbd/range.c:9-23 | `inet2range` yields the aligned block of 2^(32-mask) addresses with the prefix, which has the address |
| Inets.NestedOrDisjoint | mbbd/range.c:57-64 | two networks share an address exactly when `range_cmp` is 0, and then one contains the other |
| Inets.RangeAsSlice | mbbd/mbbunit.c:382-388 | a range used as a slice denotes its network if and only if it does not end at 0, which only 0.0.0.0/32 does |
| Inets.Ipv4ToA | mbbd/inet.c:9-31 | prints the four bytes of the address, highest first |
| Inets.ReadByte | mbbd/inet.c:55-76 | reads the longest run of digits, fails exactly without digits or above 255 |
| Inets.PushByte | mbbd/inet.c:97-97 | the shifted and combined bytes lose nothing |
| Inets.StrToIpv4 | mbbd/inet.c:78-105 | reads four bytes separated by points |
| Inets.StrToInet | mbbd/inet.c:107-136 | reads an address and an optional mask of at most 32, from exactly the texts of `Inets.InetExact` |
| Inets.NumberGrows | mbbd/inet.c:65-70 | the check after each digit fails exactly when the whole number is too large |
| Inets.InetRoundTrip | mbbd/inet.c:33-136 | `strtoinet` undoes `inettoa` for every address and every mask from 0 to 32 and stops at the end of its text, whatever text follows that begins neither with a digit nor, behind a mask of 32, which is not printed, with a slash |
| Inets.InetReadAgain | mbbd/inet.c:33-136 | whatever is read is printed as a text that is read as the same network |
| Inets.InetExact | mbbd/inet.c:55-136 | a text is read up to `e`, as this network, if and only if it has there four decimal numbers up to 255 with points between them that are the address, and the mask as a decimal number up to 32 after a slash or, for 32, nothing, and neither a digit nor, without a mask, a slash follows; so every other text is refused |
| Separators.EntryCmpMeaning | mbbd/separator.c:21-32 | `entry_cmp` orders by `nice`, then positive before negative |
| Separators.NiceLimit | mbbd/separator.c:25-25 | it does so for all `nice` up to `n` if and only if `n` fits an `int` |
| Separators.Separator.Has | mbbd/separator.c:58-61 | whether an entry with the number is there |
| Separators.Separator.Add | mbbd/separator.c:34-51 | the entry goes before the first that it precedes |
| Separators.Separator.Del | mbbd/separator.c:53-56 | the entry goes, the others keep their order |
| Separators.InsertInOrder | mbbd/separator.c:34-51 | an addition keeps the order of priorities |
| Separators.InsertPeers | mbbd/separator.c:34-51 | a new entry goes behind all entries of its own priority |
| Separators.AddedStable | mbbd/separator.c:34-51 | additions one by one sort by priority, stable in the order of arrival |
| Separators.InsertUndone | mbbd/separator.c:34-56 | a deletion undoes an addition |
| Separators.Separator.Reorder | mbbd/mbbunit.c:364-374 | an entry with a changed `nice` gets its place, the order is restored, the others keep theirs |
| Transposition.DoneApart | mbbd/mbbinetmap.c:55-63 | the rectangles of a unit map have no point in common |
| Transposition.MappedCrosses | mbbd/mbbinetmap.c:55-63 | during the walk a rectangle meets the map exactly when it met it at the start |
| Transposition.MappedNextCell | mbbd/mbbinetmap.c:55-63 | adding a rectangle without a crossing gives exactly its points, none of which was taken at the start |
| Transposition.MappedNoBridge | mbbd/mbbinetmap.c:55-63 | the walk in ascending time never bridges a gap of an owner that was not mapped |
| Transposition.MappedWhole | mbbd/mbbinetmap.c:48-65 | a complete walk has transposed the unit map onto free points |
| Transposition.MappedCrossed | mbbd/mbbinetmap.c:60-62 | a crossing names an owner of a point that the unit claims; only claimed points were gained |
| InetMaps.AddMap | mbbd/mbbinetmap.c:48-65 | returns TRUE exactly when no claimed point is taken; then exactly the claimed points are gained; the back-index stays exact |
| InetMaps.AddUnit | mbbd/mbbinetmap.c:74-84 | all or nothing: all rectangles are mapped, or every point has the owner it had and the reported owner belongs to another unit |
| InetMaps.UnitRolledBack | mbbd/mbbinetmap.c:78-81 | deleting the unit's entries undoes a partial mapping |
| InetMaps.DelInet | mbbd/mbbinetmap.c:86-98 | the entry loses all points and nodes, no other owner loses any, the back-index stays exact |
| InetMaps.DelUnit | mbbd/mbbinetmap.c:100-106 | exactly the points of the unit's entries go |
| InetMaps.RemapUnit | mbbd/mbbinetmap.c:306-338 | succeeds exactly when no other unit is in the way; the unit's old points go, its new ones come only on success, others keep theirs; a failure, and only that, answers with an entry of another unit that has a point of this one, and leaves no two neighbouring empty slices if gluing is on |
| InetMaps.GlueMap | mbbd/map.c:613-617 | glues null slices without changing a point or the back-index |
| InetMaps.UnitMapped | mbbd/mbbunit.c:432-445 | node lists tell exactly whether the unit has a point |
| InetMaps.NodePoint | mbbd/mbbinetpool.c:110-119 | an entry with a node has a point |
| InetMaps.NoNodePoint | mbbd/mbbinetpool.c:110-137 | an entry without nodes has none |
| Umaps.Bsearch | mbbd/mbbinetmap.c:218-239 | bisection finds the only range with the address, or there is none |
| Umaps.DataSearch | mbbd/mbbinetmap.c:241-261 | the search of the reversed list, with its open-ended head, finds exactly the range with the time |
| InetMaps.MapBooks | mbbd/mbbinetpool.c:110-137 | each map entry has as many references as links; each pool entry has exactly one node for every link that carries it and no other |
| Umaps.AnswersAgree | mbbd/mbbinetmap.c:263-275 | where the flattened map shows what a map has, an answer of the one search is the unit of the answer of the other |
| Umaps.FindBoth | mbbd/mbbinetmap.c:161-275 | `mbb_umap_create` and `mbb_umap_find` return the unit of the owner that `map_find` returns on the global map, and NULL exactly with it |
| Umaps.FindBothInUnit | mbbd/mbbinetmap.c:187-275 | the same for `mbb_umap_from_unit` and the map of a unit |
| Umaps.Find | mbbd/mbbinetmap.c:263-275 | the only unit shown at the address and time, None exactly when there is none |
| Umaps.GetData | mbbd/mbbinetmap.c:124-138 | the reversed list shows exactly the owners' units at every time, latest range first |
| Umaps.FlatteningStep | mbbd/mbbinetmap.c:147-158 | one slice more keeps the array sorted and in agreement with the map |
| Umaps.Init | mbbd/mbbinetmap.c:140-159 | the array is sorted and shows exactly what the map says |
| Umaps.Create | mbbd/mbbinetmap.c:161-185 | the snapshot agrees with the global map at every address and time; it is NULL exactly when no point has an owner |
| Umaps.FromUnit | mbbd/mbbinetmap.c:187-216 | the walk over a unit's map never reports a crossing, and the array agrees with the map at every address and time |
| Umaps.NothingCounted | mbbd/mbbinetmap.c:169-171 | a slicer whose counter is 0 has no owner at any point |
| Units.ReachesTimes | mbbd/mbbinetpool.c:61-75 | an entry covers the addresses of its network at the times between its own two bounds; for each bound that it has not, that of the unit stands in; all four cases are spelled out |
| Units.ReachesRect | mbbd/mbbunit.c:376-388 | key and range of an entry are exactly the times and addresses it covers, see `Units.ReachesTimes` |
| Units.AwardedMeaning | mbbd/mbbunit.c:414-426 | a point belongs to the last entry that covers it, if that is positive |
| Units.ContestedMeaning | mbbd/mbbunit.c:414-426 | a positive entry meets an owned point exactly when an earlier positive entry covers the point and no negative one in between |
| Units.BuiltPositive | mbbd/mbbunit.c:390-391 | a positive entry takes all its points |
| Units.BuiltNegative | mbbd/mbbunit.c:392-395 | a negative entry frees all its points |
| Units.CrossesContested | mbbd/mbbunit.c:414-425 | the first crossing names the contested entries |
| Units.BuiltShape | mbbd/mbbunit.c:412-426 | the owners in the map are entries of the unit |
| Units.WalkableExactly | mbbd/mbbinetmap.c:48-65 | `map_add_map` can walk the map, as no interval begins at address 1, if and only if the entries award the address 1 nowhere without the address 0 |
| Units.CutsExactly | mbbd/mbbunit.c:376-398 | a negative entry splits every interval that it meets correctly if and only if it is not for 0.0.0.1/32 or no earlier entry holds the address 0 at its times |
| Units.WithoutOne | mbbd/mbbunit.c:376-398 | lists without 0.0.0.1/32 meet both conditions |
| Units.AddInet | mbbd/mbbunit.c:376-398 | after one entry more the map has exactly the points awarded so far, or the entry is the first to contest a point |
| Units.Build | mbbd/mbbunit.c:412-426 | without a contested point the map has exactly the awarded points; otherwise the first contesting entry and one it contests are named |
| Units.Unit.TimesMeaning | mbbd/mbbunit.c:150-164 | a unit has each of its two bounds from itself, or else from its consumer if it has one |
| Units.Unit.Rebuild | mbbd/mbbunit.c:400-430 | succeeds exactly when no positive entry contests a point; then each point belongs to the last covering entry, if positive; otherwise the old map stays and both entries are named; needs only that the cuts are correct, see `Units.CutsExactly` |
| Units.Unit.AddEntry | mbbd/mbbunit.c:301-311 | a new entry takes its place in the separator and the pool |
| Units.Unit.DropInet | mbbd/mbbunit.c:316-317 | the entry leaves separator and map, all other points stay |
| Units.Unit.DelInet | mbbd/mbbunit.c:313-321 | the entry leaves unit, map, global map and pool; an entry of another unit changes nothing |
| Units.Unit.ClearInet | mbbd/mbbunit.c:323-337 | all entries leave the global map and the pool, the unit is empty |
| Units.ReloadUnit | mbbd/modules/map_reload/main.c:20-74 | rebuild and remap: succeeds exactly when the unit is uncontested and no other unit is in the way, with the exact global map in every case; the answer names the first contested entries, or else an entry of another unit that has an awarded point |
| Reloads.NoFoeMeaning | mbbd/modules/map_reload/main.c:47-48 | no foe is in the way exactly when the unit overlaps no unit mapped before |
| Reloads.ServingNext | mbbd/modules/map_reload/main.c:76-82 | reloading one unit more adds exactly what it awards if it is accepted, and nothing if not |
| Reloads.ClearMap | mbbd/mbbinetmap.c:493-496 | no point has an owner, the back-index is exact |
| Reloads.Reload | mbbd/modules/map_reload/main.c:76-82 | afterwards the global map has exactly the points that the accepted units award |
| Reloads.ClaimsMeaning | mbbd/mbbunit.c:414-426 | some entry of a unit is awarded a point exactly when the last entry to cover the point is positive |
| Reloads.BilledUnit | mbbd/modules/netflow/calcstat.c:136-137 | after a reload the flattened map shows, for every address and time, exactly the accepted unit whose last covering entry is positive |
| Reloads.ReloadFlat | mbbd/modules/map_reload/main.c:76-82 | reload and flattening: the array shows exactly who bills each address and time, and is NULL exactly when nobody bills anything |
| Reloads.FindBilled | mbbd/mbbinetmap.c:263-275 | after them `mbb_umap_find` returns the accepted unit whose last covering entry is positive, and NULL exactly without one |
| MbbTimes.RCmpMeaning | mbbd/mbbtime.c:101-108 | `mbb_time_rcmp` tells membership in a span for a time if and only if the time is not 0 |
| MbbTimes.SpanOrder | mbbd/mbbtime.c:43-67 | the comparisons of bounds tell which span lies before the other, and an empty one |
| MbbTimes.SpanMeets | mbbd/mbbtime.c:93-132 | the later begin and earlier end bound the common times, the earlier begin and later end the times of both |
| Gateways.InsertGl | mbbd/mbbgateway.c:175-202 | succeeds exactly when no link of the queue shares a time; the queue stays in order; otherwise it names the first such link |
| Gateways.Gateway.CanAdd | mbbd/mbbgateway.c:144-173 | agrees with the insertion when the link is to be created; otherwise it tells whether the link, whose times may just have changed, is in nobody's way but its own |
| Gateways.Gateway.AddLink | mbbd/mbbgateway.c:239-267 | succeeds exactly on that condition, all other queues stay |
| Gateways.Gateway.DelLink | mbbd/mbbgateway.c:269-296 | the link goes, an empty queue with it, the rest stays |
| Gateways.Reordered | mbbd/mbbgateway.c:221-236 | a refused link returns to exactly its old position |
| Gateways.Gateway.ReorderLink | mbbd/mbbgateway.c:204-237 | succeeds exactly when the changed link is in nobody's way; refused, it leaves all queues as they were |
| Gateways.Gateway.SwapTimes | mbbd/mbbgwlinkman.c:258-266 | times are taken exactly when there is room, otherwise restored |
| Gateways.Gateway.ModTime | mbbd/mbbgwlinkman.c:252-266 | from the unset times, which are kept, over the order of the times to the swap: all as before unless the new times are taken, exactly when they are in order and in nobody's way |
| Gateways.Gateway.GetLink | mbbd/mbbgateway.c:306-330 | for a time other than 0 the only link that has it, NULL exactly without one; for 0 the first link |
| Modules.HeldKept | mbbd/mbbplock.h:14-32 | `flock` and `mlock` are held by exactly the threads that have taken them |
| Modules.LocksKept | mbbd/mbbmodule.c:123-155 | the lock of a module, which counts its readers, counts exactly the calls, tasks and `onready` runs that have taken it |
| Modules.TasksKept | mbbd/mbbtask.c:111-135 | a task that has the lock of its module keeps the module from being freed |
| Modules.TableKept | mbbd/mbbfunc.c:31-42 | the table and the `module` fields of functions agree |
| Modules.CallsKept | mbbd/mbbfunc.c:58-92 | a function that is called was found in the table with the capability for it, and stays registered until the thread has left it |
| Modules.ClosingKept | mbbd/mbbmodule.c:489-497 | no call and no task that was granted the module is in it after its unload has stopped it |
| Modules.FreedUntouched | mbbd/mbbmodule.c:499-504 | when a module is freed no other thread is about to touch it, but for the reads without a lock at lines 465 and 492, and no task has its lock |
| Modules.CountsKept | mbbd/mbbmodule.c:137-152 | `use_count` is the number of calls and tasks that the module has admitted |
| Modules.FreshKept | mbbd/mbbmodule.c:437-458 | a module that is being loaded is known to its loader alone, so its lock is free |
| Modules.NamedKept | mbbd/mbbmodule.c:455-458 | modules that run, or are in use by a call or a task, are known by name |
| Modules.InvKept | mbbd/mbbmodule.c:123-155 | every step of every thread and task keeps all of this, but for the end of a task that was refused its module |
| ModuleRuns.RunOk | mbbd/mbbfunc.c:116-151 | every run keeps the invariant until it crashes or such a task ends |
| ModuleRuns.Cleared | mbbd/mbbfunc.c:74-92 | in every run a thread is at a call place of a function only if the last call that it began was of that function and had the capability for it |
| ModuleRuns.SearchExact | mbbd/mbbfunc.c:74-92 | the search of a thread ends at the function that is registered under the name if and only if the call had the capability and there is one |
| ModuleRuns.CallAlone | mbbd/mbbfunc.c:116-136 | a call that no other thread disturbs comes to the function if and only if it is registered, the caller has the capability and the module runs, and then has the module's lock and counts in `use_count`; otherwise it leaves no trace |
| ModuleRuns.LoadAlone | mbbd/mbbmodule.c:395-471 | an undisturbed load is refused without a trace if and only if the name is taken or the module has no functions; otherwise its functions come into the table except where others are, and the module runs if and only if all of them are new and differ; its `onready` runs exactly if it has one, under the module's lock |
| ModuleRuns.UnloadExact | mbbd/mbbmodule.c:473-509 | an undisturbed unload removes the module with its names and with exactly its functions if and only if its lock is free; otherwise it leaves no trace |
| ModuleRuns.SwitchAlone | mbbd/mbbmodule.c:716-744 | starting or stopping sets `run` of the named module as asked and nothing else |
| ModuleRuns.CrashExactly | mbbd/mbbmodule.c:455-494 | in a consistent state a thread touches a freed module exactly in the read of `onready` after a load or of `use_count` after a refused unload, and a task exactly when it was refused its module; each time the module has gone meanwhile |
| ModuleRuns.InsideSafe | mbbd/mbbfunc.c:116-151 | up to the end of such a task: a call in a module has its lock, an unload is refused, and the call leaves by lowering the count it raised |
| ModuleRuns.LeavingSafe | mbbd/mbbmodule.c:146-155 | it then releases the lock it took, and nothing else |
| ModuleRuns.TaskSafe | mbbd/mbbtask.c:111-135 | so does a task that was granted its module keep it from being unloaded until it has ended |
| ModuleRuns.UnloadedForGood | mbbd/mbbmodule.c:473-509 | after an unload has succeeded no thread ever finds, waits for or is in the module, and no task has its lock |
| ModuleRuns.DeadlockFree | mbbd/mbbmodule.c:395-509 | while some thread is under way, such a thread can go on |
| ModuleRuns.Drain | mbbd/mbbmodule.c:395-509 | from every consistent state all threads that are under way can come to their end, by moves that keep to the rules, unless they crash on the way |
| ModuleRuns.LoadCrash | mbbd/mbbmodule.c:460-471 | a run in which a load without `onready` reads a freed module |
| ModuleRuns.RefusedCrash | mbbd/mbbmodule.c:489-494 | a run in which a refused unload reads a freed module |
| ModuleRuns.TaskCrash | mbbd/mbbtask.c:111-141 | a run in which a task runs, or ends, after its module was freed: it was created while the module was stopped |
| ModuleRuns.InsideCrash | mbbd/mbbtask.c:126-141 | a run in which such a task gives back the lock of the call that created it, so that the module is unloaded while the call is in it, and the call returns to nothing |
| ModuleRuns.OrderlySafe | mbbd/mbbmodule.c:395-509 | no run crashes that keeps to two rules: no unload of a module begins while another thread has yet to do its last read of it; tasks are created, and modules stopped, such that no task is refused its module |
| ModuleRuns.HuntCrashes | mbbd/mbbmodule.c:473-509 | from every state in which an unload has begun against the first rule there are further steps that crash, whatever calls and tasks are under way |
| ModuleRuns.MisledCrashes | mbbd/mbbtask.c:87-141 | from every state in which a task was refused its module there are further steps by which the module is freed while the task runs |
| ModuleRuns.RuleExact | mbbd/mbbmodule.c:395-509 | so the rules are exact: a move of a run that has kept to them keeps to them if and only if no continuation that keeps to them crashes |
| ModuleRuns.CalmOrderly | mbbd/mbbmodule.c:716-744 | stopping no module while a call is in it is enough for the second rule |
| Tasks.PauseKept | mbbd/mbbtask.c:151-157 | no step of the pause loop lets the worker wait after a cancellation has finished or while it should run |
| Tasks.WaitingDue | mbbd/mbbtask.c:303-309 | while the worker waits, the lock section of a cancellation ends with a signal |
| Tasks.OperatorKept | mbbd/mbbtask.c:244-312 | no step of an operator loses a wake-up or touches a freed task |
| Tasks.CreateKept | mbbd/mbbtask.c:221-242 | the creator's steps, with and without a thread, keep the invariant |
| Tasks.CrashExactly | mbbd/mbbtask.c:221-242 | worker and operators never touch a freed task; the creator does exactly when the task is freed before it reads the number |
| Tasks.CreatorCrash | mbbd/mbbtask.c:230-241 | a run of five steps in which it does |
| Tasks.OrderlySafe | mbbd/mbbtask.c:182-242 | no run crashes in which, until the creator has returned, no hook ends the task by returning FALSE and no operator begins to cancel it |
| Tasks.BoundCrashes | mbbd/mbbtask.c:126-312 | a task whose end is bound to come before its creator has read the number can be freed before that, whatever operators are under way |
| Tasks.RuleExact | mbbd/mbbtask.c:182-312 | this rule is exact: a move of a run that has kept to it keeps to it if and only if no continuation that keeps to it crashes |
| Tasks.RunsOk | mbbd/mbbtask.c:126-312 | in every interleaving the mutex, the flags and the table stay consistent, until the creator crashes |
| Tasks.CancelWakes | mbbd/mbbtask.c:286-312 | once a cancellation has finished the worker is never again left waiting without a wake-up due, whether it waits between two calls of `hook->work` or in `mbb_task_poll_state` inside a hook |
| Tasks.CancelDue | mbbd/mbbtask.c:303-309 | while it waits with the flag set, wherever it was called from, some operator is on its way to wake it and is not stuck |
| Tasks.CancelStops | mbbd/mbbtask.c:164-199 | after the flag is set `hook->work` starts at most once more |
| Tasks.OperateAlone | mbbd/mbbtask.c:244-312 | an undisturbed run, stop or cancellation sets the two flags as asked and wakes the worker exactly if it waits and the task is started anew; without the task in the table it changes nothing |
| Tasks.StopHolds | mbbd/mbbtask.c:244-274 | when a stop is about to finish and nobody else runs or cancels the task from then on, `run` stays FALSE, `hook->work` is called at most once more, and a worker at its poll stays in the pause and calls it no more |
| Tasks.StopSleeps | mbbd/mbbtask.c:151-180 | and such a worker can always come to wait, by its own moves and those of operators under way |
| Tasks.HooksInOrder | mbbd/mbbtask.c:182-242 | in every run that has freed the task its hooks have returned in this order: `init`; unless that returned FALSE, `work` one or more times, until it returned FALSE or the task was cancelled, and then `fini` once; `fini` alone if there was no thread |
| MsgQueues.PushKept | mbbd/mbbmsgqueue.c:44-63 | a push by any thread at any time keeps the conservation of the bytes that were recorded as pushed |
| MsgQueues.PushesKept | mbbd/mbbmsgqueue.c:44-63 | in every run these are the texts of its push moves, all of them, in order |
| MsgQueues.PopKept | mbbd/mbbmsgqueue.c:110-152 | so does every step of the popper, for any number of bytes written, and it uses no freed entry |
| MsgQueues.Conserved | mbbd/mbbmsgqueue.c:44-152 | in every interleaving the bytes sent, followed by the unsent rest of the queue, are the texts of the push moves of the run in their order |
| MsgQueues.Progress | mbbd/mbbmsgqueue.c:138-149 | a pop shortens what is unsent, and moves the head of the queue on, exactly when a byte is written |
| MsgQueues.JammedForGood | mbbd/mbbmsgqueue.c:110-152 | behind a message without bytes nothing is sent and no message taken out in any later run |
| MsgQueues.StuckExactly | mbbd/mbbmsgqueue.c:110-152 | the messages of a queue stay as they are in every run if and only if the one at the head has no bytes left |
| Stats.HourMeaning | mbbd/modules/stat/mbbstat.h:23-26 | the hour of a time is the multiple of 3600 at or before it, exactly for times from 0 on and whole hours |
| Stats.SumUpdated | mbbd/modules/stat/mbbstat.c:108-122 | an update adds its amount to every sum with its key, modulo the counter width |
| Stats.UnitsBalance | mbbd/modules/stat/mbbstat.c:124-143 | in every hour a unit's record is the sum over its links |
| Stats.LinksBalance | mbbd/modules/stat/mbbstat.c:124-143 | in every hour a link's record is the sum over its units |
| Stats.GrandTotals | mbbd/modules/stat/mbbstat.c:124-143 | the totals of all three tables are what was fed |
| Stats.TotalExact | mbbd/modules/stat/mbbstat.c:120-121 | the total of fed entries is the plain sum of their bytes modulo 2^64, in each direction |
| Stats.StatPool.Feed | mbbd/modules/stat/mbbstat.c:124-143 | the tables are those of the whole history of fed entries |
| Stats.CounterMeaning | mbbd/modules/stat/mbbstat.c:108-143 | each counter is the sum of exactly the entries for its hour, unit and link |
| Flows.GetLinkId | mbbd/modules/netflow/calcstat.c:106-117 | the number of the link of the gateway's queue that has the time, or of the first for the time 0; below 0 without one |
| Flows.HalfBilled | mbbd/modules/netflow/calcstat.c:139-161 | one direction of a flow is billed to exactly the counter of the unit that bills its address and of the link, unless the partner is local or there is no link |
| Flows.ProcessFlow | mbbd/modules/netflow/calcstat.c:127-164 | the counter of an hour, unit and link gains the bytes of the flow as sent if and only if the unit bills the source address, the link is that of `output`, and no local unit bills the destination; as received with `input` and the addresses exchanged; modulo 2^64, and no other counter changes |
| Flows.ProcessFile | mbbd/modules/netflow/calcstat.c:191-231 | after all flows of a file each counter is the sum, modulo its width, of its shares of the flows that begin in the time window, or of all |
| Flows.WindowsAddUp | mbbd/modules/netflow/calcstat.c:199-200 | the updates of two adjoining windows add up to that of both together, so a flow at their border counts once |
| Flows.WindowMeaning | mbbd/modules/netflow/calcstat.c:199-200 | a window counts every flow from its first second to the one before its end, and none outside |
| Flows.Calculate | mbbd/modules/netflow/calcstat.c:279-315 | from the reload of the map to the counters: there is no result exactly when no unit bills anything; otherwise each counter is the sum of the bytes of the flows whose billing unit, link and non-local partner match |
| XmlTags.SortMerge | lib/xmltag.c:168-191 | links two chains in place into the merged chain |
| XmlTags.MergedInOrder | lib/xmltag.c:176-186 | the merge of sorted chains is sorted |
| XmlTags.MergedPeers | lib/xmltag.c:176-186 | equal tags keep their order, those of the first chain first |
| XmlTags.Middle | lib/xmltag.c:202-209 | the split point leaves tags on both sides |
| XmlTags.SortReal | lib/xmltag.c:193-218 | the chain is rearranged in place into a sorted, stable permutation of the same tags |
| XmlTags.Sort | lib/xmltag.c:225-241 | the new head is stored under the name, other names are unchanged |
| XmlTags.AddSecond | lib/xmltag.c:126-127 | a tag is linked right behind the first of a chain in place |
| XmlTags.AddChild | lib/xmltag.c:110-132 | a new child goes right behind the first of its name |
| XmlTags.Reorder | lib/xmltag.c:134-151 | all but the first are reversed in place |
| XmlTags.ReorderRestores | lib/xmltag.c:110-151 | a reorder restores the order in which children were added |

## Left out

- Sockets, poll loops, HTTP and XML transport, the shell, Lua, the database and request handlers other than those above: input, output and foreign libraries.
- GLib's queues, trees and hash tables, memory allocation and freeing other than the reference counts, and the balancing and hashing in them.
- `slicer_copy`, `map_iter_last` and the other parts of the interval map that the modelled code does not call.
- The slicer works on any data in the original; here its data are the interval lists of `map.c`, its only user.
- Times below 0: keys are numbers from 0 on.
- Slicers.Slicer.Replace: the copies for the outer pieces are made before the list is changed, where the original alternates copying and inserting; the outcome is the same.
- Maps.Map.Add: what an addition leaves of the counter when it found a crossing is stated as an inequality, because a slice that is reached after the crossing is counted without data.
- Maps.Map.Del: the temporary entry that carries the rectangle is a parameter here.
- Umaps.Bsearch: the indexes are unbounded; the original's `gint` needs fewer than 2^30 ranges.
- Separators.Separator.Reorder: entries are values, so the change of `nice` that precedes a reorder is a change of one element of the queue.
- ModuleRuns.RuleExact: who may begin an unload, a task or a stop is a question to the callers; the daemon itself keeps to no such rules.
- ModuleRuns.InsideSafe: modules that other modules import are not modelled; an import takes and gives back the lock of a module in the same unchecked way as a task does (lines 316 and 262-263 of `mbbmodule.c`). Neither are module variables, authentication methods of modules (their use is checked), failed loads of shared objects, and calls and tasks of the daemon's own functions, which need no module.
- ModuleRuns.Cleared: what `mbb_cap_check` makes of two masks is one truth value here, and a function keeps its mask.
- ModuleRuns.DeadlockFree: the preference that GLib's locks give to waiting writers is not modelled; it only delays threads that have not begun, as no writer ever waits for the lock of a module.
- Tasks.CancelWakes: fairness is not modelled; `CancelDue` states instead that the waking operator can always go on.
- Flows.Calculate: the gateways do not change while a file is read, and reading the file and saving the counters are not modelled; flows begin at times from 0 on.
- Gateways.Gateway.ModTime: the write to the database that follows in the handler (lines 268-270 of `mbbgwlinkman.c`); when it fails the new times stay.
- XmlTags.SortReal: comparisons look at one immutable key of a tag instead of an attribute table; they may be any total preorder.
- The functions of `mbbtime.c` that print times or check the order of a request.
