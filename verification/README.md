# Verified model of a persistent HNSW index

The repository is a Rust library for approximate nearest-neighbour search: a hierarchical navigable small-world graph
that lives in one memory-mapped file, shared by any number of handles and threads. This project models its hard parts
in Dafny and proves what they promise.

* **Graph.** `Plane.dfy` is the mutable graph as one handle uses it: insert (search, selection with edge removal, node
  write, reverse edges, pruning, promotion), delete with re-election, and search. `Traces.dfy` says what one insert did,
  reverse edge by reverse edge, which of them met a full list, and by which beams it came to its candidates;
  `Connections.dfy` says which nodes it linked to. `Run.dfy` puts the pieces together: a plane built from any records,
  with no list ever over its cap, answers a wide enough search exactly as an exhaustive scan.
  Beneath it: the two-heap beam (`Beam.dfy`), the descent (`Descent.dfy`), the selection scan (`Selection.dfy`), the
  overflow prune (`Prune.dfy`), the per-layer argument (`Layers.dfy`, `Edits.dfy`, `GraphPlane.dfy`), and the visited
  set as a bitmap with a journal (`Scratch.dfy`). `Predicated.dfy` is the search whose filter answers late or never.
* **Locks.** `SeqLock.dfy` is the slot lock with its opener registry as a machine of atomic steps: handles open and die,
  writers store and readers copy one cell at a time, waiters judge owners dead and take over. `SeqLockReads.dfy`
  counts generations: which reads are undisturbed without any proviso on generations. `SeqLockRuns.dfy` holds the runs
  that show its provisos are needed.
* **Allocators and ownership.** `FreeList.dfy` (ids), `UpperPool.dfy` (the chain of free upper entries, threaded through
  the word that also holds the degree of their level-1 list), `Uppers.dfy` (upper entries across insert, delete,
  abandon, raw writes and list updates by a stale index), `UpperAccounts.dfy` (where every entry is), `UpperRuns.dfy`
  (runs in which the promises fail, and how exactly), `KeyStore.dfy` (keys and arena ranges), `KeyRuns.dfy` (a run in
  which a key is lost).
* **Concurrency around the graph.** `Racing.dfy` (the construction beam, the selection and the prune beside other
  writers), `Lists.dfy`, `ListOwners.dfy` and `ListRuns.dfy` (neighbour lists of slots and upper entries under
  concurrent inserts, deletes and reuse), `EntryWord.dfy` (the entry word's compare-and-swaps and an insert's turns at
  it), `Batch.dfy` (batch workers), `Probe.dfy` (the repair probe and its latch).
* **Arithmetic, layout and disk.** `Dot.dfy` (integer kernels as lane arithmetic, quantization), `Geometry.dfy`
  (addresses, regions, header), `Layouts.dfy` (what create accepts, slot sizes, header bytes), `Durability.dfy` (flush,
  invalidation, crashes), `Watermarks.dfy` (the number a host reads after them).

Each concurrent part is a state and a step function; every interleaving is a sequence of steps, invariants are proved
step by step and the results are stated for all step sequences. Several states carry fields that only record history
(a log, a place per id, the last key stored); no branch of a step function that the code decides depends on them.

Some results hold on a condition, and each condition is a check on one step. For each there is a run of the code's own
steps in which it fails and the promise with it, and a lemma that it is exact for its step.

| condition | what it asks | results | exact by | fails in |
|---|---|---|---|---|
| `SeqLock.WordSafe` | no word is stored which a convicted waiter is about to exchange | the slot lock | `SeqLock.WordSafeIsExact` | `SeqLockRuns.RobberyHappens` |
| `SeqLock.GenFresh` | no generation is published which a read under way started from | reads | `SeqLock.GenFreshIsExact` | `SeqLockRuns.StaleReadHappens` |
| `FreeList.SparesInserts` | no delete lands on the slot of an insert still under way | ids | `FreeList.SparingIsExact` | `FreeList.LiveIdHandedOut` |
| `Uppers.SparesInserts` | no tombstone takes an entry that an insert still under way will store again | who names an entry | `UpperRuns.SparingIsExact` | `UpperRuns.DeleteHitsInsert` |
| `Uppers.FreesQuiet` | an entry goes back to the freelist with its levels emptied, or with no list update still holding its index | who names an entry, upper lists | `UpperRuns.FreesQuietIsExact` | `UpperRuns.LinkOverwritten`, `ListRuns.EntryOfTwo` |
| `UpperAccounts.LandsClear` | no delete lands on the slot of an insert still under way | no entry is lost | `UpperAccounts.LandsClearIsExact` | `UpperAccounts.EntryLostHappens` |
| `KeyStore.SettlesWhole` | no insert looks for an arena range to reuse while its slot's record is being written | keys | `KeyStore.SettlesWholeIsExact` | `KeyRuns.KeyOverrun` |
| `ListOwners.SparesInserts` | no delete lands on the slot of an insert still under way | upper lists | `ListRuns.SparingIsExact` | `ListRuns.SelfLoopHappens` |

Distances are values of an ordered field, given as an arbitrary function of the id (`rank`) and of pairs of ids
(`between`). The thresholds of optimizeRouting are computed as the code does.

## Model

| member | source | states |
|---|---|---|
| Run.GrowAndSearch | src/insert.rs:235-473 | Any records inserted in turn, each from the entry point of the time and with its connections chosen as selection chooses, then one search, filtered or not. With caps of at least 2m and upper entries to be had, a run in which no reverse edge met a list at its cap is answered as an exhaustive scan of the admitted nodes, for any number of records, once ef is at least the number admitted and a filter's visit budget the number of nodes; so is any run in which no insert degraded. Degraded is exactly that some insert stored less than it wanted, read off the run. In every run that scan is had of what is reachable from where the descent ended |
| Run.RoomyDegradesByOverflow | src/insert.rs:121-152 | With caps of at least 2m and an upper entry for every record that wants one, a run degrades if and only if some reverse edge of it met a list already at its cap |
| Run.Grow | src/insert.rs:224-232 | Over a whole run each graph follows from the last by one insert that its trace accounts for, from the entry point the inserts before have left and with the connections that beam and selection choose; the plane holds one node per insert that found an id; degraded is exactly that some insert of the run stored less than it wanted; unless so, every layer stays linked; and degrading takes a missing upper entry, caps below 2m or more than 2m records |
| Run.FullListNeedsNodes | src/insert.rs:121-152 | In a linked graph a list can only be at its cap when there are more nodes than the cap |
| Plane.Graph.Insert | src/insert.rs:235-473 | Full exactly when every id is live, and then nothing changes; otherwise one new node, everybody else's level and list count kept, and the whole change accounted for: a finished descent from the entry point, at each level a finished beam entered where the one above led, its hits cut to the nearest 2m and selected among, every other list without just the edges cut, the node written with its connections, then each reverse edge in turn. Degraded is exactly that an own list did not fit, no upper entry was had, or some reverse edge met a full list; unless so, symmetric and connected layers stay so; the entry word, the previous-entry hint and the high-water mark are as claim, promotion and allocation leave them |
| Traces.OnlyOverflowDegrades | src/insert.rs:433-466 | With room for 2m everywhere and an upper entry to be had, an insert stores less than it wanted if and only if one of its reverse edges overflowed |
| Traces.LinkAppends | src/insert.rs:121-152 | A reverse edge that does not overflow puts the new id at the end of that one list and touches no other |
| Plane.Graph.Connect | src/insert.rs:353-431 | The descent and the level loop: the connections and cuts of every shared level are what selection makes of the nearest 2m hits of that level's beam over the graph before, levels above share nothing, and every list has lost just its cuts, in order; connections are live, distinct, at most 2m, taken from that layer, and present wherever the layer has nodes |
| Connections.ConnectionsAreNearest | src/insert.rs:366-431 | At each shared level the candidates are the nearest of all the beam scored, as many as its width and 2m allow; every connection is one of them, at its distance, the nearest of all scored always among them; without optimizeRouting they are exactly the nearest m, or 2m at level 0 |
| Connections.LinkedConnections | src/insert.rs:366-431 | Where efConstruction covers a layer of a linked graph all of it is scored, so that the connections come from the nearest 2m of the whole layer, its nearest node is one, and without optimizeRouting they are the nearest m or 2m of it |
| Connections.DetoursAreShort | src/insert.rs:392-430 | With optimizeRouting, whatever candidate is not linked has a linked neighbour through which the way is less than 1 and twice optimizeRouting times as long as the direct one; and an edge is cut only between two linked nodes, where it is longer, by what its place in its list tolerates, than the way over the new node |
| Plane.Graph.Select | src/insert.rs:392-430 | One level's selection loop comes to what the candidates, considered one by one, each against the connections taken and its own list as the cuts so far have left it, come to; every list has lost just its cuts; at least one candidate is kept, edges are removed only between linked ones, every other level is left alone |
| Selection.SelectedPart | src/insert.rs:392-430 | What is selected are candidates, the first always and first; without optimizeRouting exactly the first m, or 2m at level 0 |
| Selection.ScanNeighbors | src/insert.rs:399-421 | The scan of one candidate's list skips exactly when some already linked neighbour makes it indirect, and asks for exactly the removals its inferior neighbours call for, stopping where the code breaks |
| Plane.Graph.AddReverseEdge | src/insert.rs:121-153 | Only the neighbour's list at that level changes, and only if the neighbour is there and lacks the id: it becomes what the prune makes of the old list plus the id, cut to the entry's 64 at upper levels. Dropped is exactly that the list was at its cap already |
| Plane.Graph.LinkBack | src/insert.rs:460-466 | After all levels, exactly the chosen neighbours have gained the new id, or some list was already full before the insert; the reverse edges are listed in order, each with its exact effect, and dropped is exactly that one of them met a full list |
| GraphPlane.InsertLinked | src/insert.rs:366-471 | A finished insert that dropped nothing keeps every layer symmetric and connected, whatever edges selection removed, and keeps the highest node as entry |
| Layers.SpliceKeepsConnected | src/insert.rs:404-430 | Linking a node both ways to a set and removing edges only inside that set keeps a connected layer connected |
| Layers.SpliceKeepsSymmetric | src/insert.rs:37-51 | The same splice keeps every edge stored at both ends |
| Layers.ConnectedMeansPaths | src/search.rs:304-371 | The closed-set form of connectivity used throughout is the usual one: a path between any two nodes of the layer |
| GraphPlane.OverflowBreaksSymmetry | src/insert.rs:131-138 | Why a full list ends the guarantee: a list shorter than the set of nodes naming its owner cannot be symmetric |
| Plane.Graph.Search | src/search.rs:427-497 | A finished descent, a finished layer-0 beam unless a filter's budget of ef times its expansion was spent, its hits cut to k, every visit counted; a budget is overrun by part of one expansion at most. Hits are live, admitted, ranked and at most k; for k up to ef they are the k nearest of all admitted nodes scored. On any graph, whenever the admitted nodes within reach of where the descent ended are at most ef, and a filter's budget covers all within reach, they are the exhaustive scan of those; on a linked graph, of all admitted nodes. The descent ends no farther than the entry, at a node no neighbour at level 1 is nearer than, on a linked graph with at most 16 nodes there at the nearest of level 1 |
| Plane.Graph.DeleteNode | src/graph.rs:815-858 | Exactly that node leaves; when it was the entry a survivor of highest level among the cheap candidates, else among all, takes over, or the word empties with the graph; deleting an id that is not live changes nothing |
| Plane.Graph.Reelect | src/graph.rs:947-987 | Previous entry and preferred neighbours first, a full scan only when none of those is live; the word empties only if nobody else is live |
| Plane.Graph.CasEntryIfNotBetter | src/format.rs:672-736 | Yields only to another entry of at least its level; records the displaced entry as hint only when live, in range and different |
| Beam.SearchLayer | src/search.rs:304-371 | Terminates; expands best first, each time the nearest node scored and not expanded, and only while fewer than ef admitted ones are strictly nearer; scores what that shows and nothing outside the closed sets around its entry; returns the ef nearest admitted of all it scored, ranked. Unless the budget stopped it, what it did not expand has ef admitted ones no farther, every live neighbour of every result was scored, and with room left in the result or the scored set within the width all within reach was; a budget is overrun by part of one expansion at most |
| Beam.CompactUnvisited | src/search.rs:238-291 | The in-place compaction keeps exactly the unvisited in-range ids, each once, in order, and marks exactly those |
| Beam.ScoreBatch | src/search.rs:346-361 | After an expansion the result heap is still the nearest of all admitted scored nodes, and whatever was not pushed could not have improved a full one |
| Descent.BeamDescend | src/search.rs:384-411 | One finished beam per level from the top down to above the target, each entered at the best hit of the one before; the descent ends at the last one's best hit, a live node no farther than where it began, in the layer it was sent to, with every visit counted |
| Descent.Arrives | src/search.rs:384-411 | Where a finished beam leads, no neighbour at its level is nearer; when the nodes within reach are no more than its width none of them is; on a linked layer of that size none of the layer is |
| Descent.ConnectedBeam | src/search.rs:324-362 | In a symmetric connected layer a beam at least as wide as the layer scores all of it |
| Descent.ExhaustiveBeam | src/search.rs:324-362 | On any graph a beam at least as wide as the reachable set scores exactly that set |
| Snapshot.ReachIsPaths | src/search.rs:324-362 | The reachable set, defined as the least closed set, is the set of nodes a path leads to |
| Ranking.NearestIsBruteForce | src/search.rs:450-468 | Cutting the nearest ef of a set to k gives the k smallest distances any ranking of the whole set gives |
| Ranking.RankingUnique | src/search.rs:363-365 | Rankings of one set differ only in the order of ties: their distances agree position by position |
| Prune.PruneWithCoverage | src/insert.rs:69-96 | The result is what repeated evictions from the distance-sorted live members leave, each eviction being the one the hunt picks |
| Prune.PruneKeeps | src/insert.rs:69-96 | The result is sorted, of length min(cap, live members), a sub-multiset of the live members, and the nearest cap-15 always survive |
| Prune.HuntsRedundant | src/insert.rs:75-94 | What is evicted is the farthest of the last sixteen that one of the nearest sixteen, the last sixteen apart, is closer to than the list's owner; or, if there is none such, the farthest of all |
| Prune.PruneOneOver | src/insert.rs:75-94 | One over the cap, just that one goes, and those it may be redundant to stay |
| Prune.PruneListOk | src/insert.rs:69-96 | A pruned list is duplicate-free, within the cap and holds only ids of the original |
| Scratch.SearchScratch.Visit | src/search.rs:156-177 | True exactly when the id was not visited since the last clear, ids past the sizing snapshot included |
| Scratch.SearchScratch.Finish | src/search.rs:127-137 | Every bitmap word is zero again, through the journal or, after its overflow, wholesale |
| Scratch.SearchScratch.Begin | src/search.rs:113-123 | The set is empty and large enough for the snapshot; a smaller one never shrinks it |
| Scratch.SetBitAddsMember | src/search.rs:163-175 | Setting a bit of a word adds exactly that id to the set the bitmap stands for |
| Predicated.SearchPredicated | src/search.rs:603-733 | For every schedule of accepted, refused, answered and lost batches: a finished descent, a best-first beam, every visit counted, the budget overrun by part of one expansion at most. The hits before the cut are the ef nearest of all approved candidates, and a scored node never sent out is no nearer than any of a full result. Within its budget the search has asked about everything it scored and scored everything reachable, unless it found ef hits; when the budget covers what is reachable (on a linked graph, everything), and ef covers it too or more than was approved, each such node was put to the predicate and the hits are the scan of those approved. It ends with every accepted batch answered, the answers at an end, or its patience spent |
| Predicated.PredicatedBeam | src/search.rs:643-725 | Terminates under any schedule; each turn first takes the verdicts that have come, until nothing is out or a receive finds nothing, and expands the nearest node scored and not expanded, with fewer than ef of those approved by then strictly nearer; scores only within the closed sets around the entry; batches go out 64 ids at a time, only the last smaller; without a budget stop what was not expanded has ef approved no farther, every live neighbour of every hit was scored, and below ef hits the ids sent out are all those scored and no reachable node is unscored |
| Predicated.Pipe.Dispatch | src/search.rs:589-596 | Each id goes out in exactly one batch; a refused batch is never answered |
| Predicated.Drain | src/search.rs:646-656 | Verdicts are only added, only for ids sent out, and the search knows exactly what was answered |
| Predicated.Fold | src/search.rs:661-673 | Candidates with a verdict leave the waiting list, and the result heap stays the nearest of the approved ones |
| SeqLock.MutualExclusion | src/seqlock.rs:119-170 | Over every interleaving of opens, deaths, writers, readers and takeovers, at most one live thread is inside its critical section, so long as no acquisition stores the very word, salt and tag, that a convicted waiter is about to exchange |
| SeqLock.NoLiveOwnerRobbed | src/seqlock.rs:141-149 | A takeover that succeeds finds no live thread inside, in every run whose acquisitions store no word that another convicted thread is about to exchange |
| SeqLock.ReadsAreAtomic | src/seqlock.rs:177-217 | In the same runs a read that returns, with no publication meanwhile of the generation it began with, returns the object that completed operations and sanitizations amount to: one payload or none, never a mix |
| SeqLockReads.OrdinaryReadsAreAtomic | src/seqlock.rs:177-217 | A read into which fall fewer than 2^31 releases and no publication after a takeover is undisturbed: if it returns, it returns the object that the operations completed by then amount to |
| SeqLockReads.FullTurnReturns | src/seqlock.rs:130-149 | The bound is the right one: after exactly 2^31 releases a free word shows the generation the read began with, and the read returns, whatever of it is old |
| SeqLockReads.GenerationsFillTheMask | src/seqlock.rs:19-20 | The generations are all the values of a word whose lock bit is clear, 2^31 of them |
| SeqLockReads.SanitizedIsCleared | src/graph.rs:137-155 | A sanitized payload is not live, its upper index and key length are cleared, and nothing else of it has changed |
| SeqLockReads.TagsAreDistinct | src/format.rs:936-950 | A tag gives back its registry slot, of 64, and its handle's epoch; it is never 0 and fits the identity bits of a lock word |
| SeqLock.PlanHasEffect | src/graph.rs:696-730 | The stores made under the lock, cell by cell with the flag last, have the effect of the whole operation |
| SeqLock.DepartedOwnerConvicted | src/format.rs:985-1008 | A dead registered owner is always convicted when judged, except while a new handle is just entering its registry slot |
| SeqLock.WordSafeIsExact | src/seqlock.rs:119-149 | In every reachable state a step that takes the lock is word-safe if and only if no convicted waiter's exchange would then get it in beside the new owner |
| SeqLock.GenFreshIsExact | src/seqlock.rs:177-217 | In every reachable state a step that publishes a generation is fresh if and only if no read then under way returns when it goes on to its end |
| SeqLockRuns.RobberyHappens | src/seqlock.rs:141-149 | A run that a tag and a salt used again make possible: an opener under a departed tag acquires with a departed salt, and a waiter that convicted the first owner gets in beside it |
| SeqLockRuns.StaleReadHappens | src/seqlock.rs:188-207 | A run in which a takeover publishes the generation a reader started from, and the reader returns a payload that no write ever stored |
| SeqLock.AcquisitionNamesOwner | src/seqlock.rs:28-44 | The lock value reads as locked and names the tag in full |
| SeqLock.AcquisitionsLookAlike | src/seqlock.rs:28-44 | Two lock values agree exactly when the tags do and the salts do modulo 4096: twelve bits of salt, where the comment says thirteen |
| FreeList.ExactlyOnePlace | src/format.rs:575-621 | Over every interleaving of allocations, inserts that write their slot once or again, abandons and deletes, each id below capacity is never issued, held by exactly one caller, live, or on the freelist, and only one of these, so long as no delete lands on the slot of an insert still under way |
| FreeList.SparingIsExact | src/graph.rs:838-857 | A delete lands clear of every insert under way if and only if, once it has freed the id, no insert's last write can make that id live while it is on the freelist |
| FreeList.LiveIdHandedOut | src/insert.rs:434-455 | Otherwise there is a run in which a live node's id is handed to another caller, the freelist's new head being whatever that last write stored over the link |
| FreeList.FreelistAcyclic | src/format.rs:595-621 | In the same runs, following the links from the head meets ids in range, none twice, and ends at the end mark |
| FreeList.StaleExchangeFails | src/format.rs:595-603 | In the same runs, an exchange built from a link overwritten since, by a new owner's live field included, fails on the tag and changes nothing |
| FreeList.AllocationIsExclusive | src/format.rs:575-605 | In the same runs, a popped id was on the freelist and nobody's; a bumped id is the next one never issued, rollbacks at the full mark notwithstanding |
| FreeList.FullMeansAllIssued | src/format.rs:581-588 | In the same runs, a caller overshoots the mark only when every id has been issued |
| UpperPool.PopTakes | src/format.rs:828-857 | A pop takes the entry at the head of the chain that runs through the entries' own list words, or with nothing free the next one never issued, and leaves the rest of the chain |
| UpperPool.PushPuts | src/format.rs:861-876 | A freed entry goes to the front of the chain, which stays in range and without repeats |
| Uppers.NeverNamedTwice | src/graph.rs:568-600 | In every run that keeps to two conditions, deaths, overlapping deletes, deletes of nodes still being inserted and sanitizing takeovers included, no two touched slots name one upper entry, a named entry is neither free nor about to be freed, and the freelist's links, which list updates through stale indices may run into, spell out entries in range, none twice. The conditions: no tombstone takes an entry that an insert still under way means to store again, and an entry is freed with its levels emptied or with no update still holding its index |
| UpperAccounts.NoEntryLost | src/insert.rs:277-290 | On a standalone plane with no death and no wedged lock, so long as no delete lands on the slot of an insert still under way and no entry is freed as written under an update that holds its index: every issued entry is named by one live slot, free, or held by one insert or delete, and only one of these |
| UpperAccounts.LandsClearIsExact | src/graph.rs:838-857 | While an entry is to be had, a tombstone lands clear of every insert under way if and only if every entry is accounted for once its delete and any such insert have ended, at once or after a whole insert that was given the id again |
| UpperAccounts.EntryLostHappens | src/graph.rs:838-857 | A run, taking no entry from any insert, that loses one: a node published without an entry is deleted, its id and a new entry go to another insert, and the first insert's last write leaves that entry nowhere |
| Uppers.TombstoneStep | src/graph.rs:833-857 | Only a valid slot gives up its entry, and from then on it is in the hands of the one thread that tombstoned it: no slot names it, no other thread holds it or refers to it; a slot that is not valid gives nothing |
| Uppers.SecondDeleteFindsNothing | src/graph.rs:838-842 | Of two deletes of one id under way at once the second to reach the lock moves no entry and frees nothing of the first's |
| UpperRuns.SparingIsExact | src/insert.rs:434-455 | A tombstone takes no entry that another insert refers to if and only if no insert's last write will then name a freed entry |
| UpperRuns.DeleteHitsInsert | src/insert.rs:305-340 | Such a run exists: a node published edgeless is deleted and its entry freed before its insert rewrites it |
| UpperRuns.FreesQuietIsExact | src/format.rs:861-876 | A freeing step leaves the old head as the entry's link, and is quiet if and only if no update under way can then change that link, whatever degree it stores |
| UpperRuns.LinkOverwritten | src/insert.rs:277-290 | A run that spares every insert and still names one entry twice: an abandoned insert frees the entry it wrote, an update through an index read long before stores a degree over the link, so that the entry links to itself, and the next two inserts are both given it |
| KeyStore.LookupIsLastStored | src/graph.rs:200-287 | In every run, writers that die or stall in the middle of a record and inserts that share an id included, a lookup returns the last key stored for a live node and nothing for another, the live overflow ranges of different nodes are disjoint and below the mark, and so is every range reserved for a record not yet written, so long as no insert settles on a range while its slot's record is being written |
| KeyStore.AloneSettlesWhole | src/graph.rs:242-250 | That condition holds of itself while inserts share no id, as when no delete lands on an insert under way, and no raw writer dies on a slot that an insert is working on |
| KeyStore.SettlesWholeIsExact | src/graph.rs:225-240 | Beside a node whose range is big enough, a settlement reads a whole record if and only if, whatever a writer in the middle of the record has stored so far, the range it yields keeps clear of that node's |
| KeyRuns.KeyOverrun | src/graph.rs:217-219 | A run in which it does not: one insert's offset is stored over a longer key's, the length not yet, when another insert of the same id looks for a range; both write, and the next node's lookup no longer returns its key |
| KeyStore.OtherKeysUntouched | src/graph.rs:200-248 | In the same runs no store, reuse, recycle, refusal, abandon, death or takeover changes what another node's lookup returns |
| KeyStore.StoreThenLookup | src/graph.rs:200-221 | A store either is refused for want of arena, changing nothing, or makes the lookup return the key |
| KeyStore.SettledExactly | src/graph.rs:225-262 | An overflow key goes to its slot's own range when that is big enough, to new space at the mark when that is left, and is refused only when neither is so |
| KeyStore.ClassIsLeast | src/format.rs:148-153 | An arena range is the least whole number of 64-byte units that holds the key |
| KeyStore.DeleteKeepsRange | src/graph.rs:225-262 | A deleted node has no key to look up but keeps its range, and the next key for that id that fits goes there |
| KeyStore.SettleThenEnd | src/insert.rs:277-290 | An insert that settles a range and ends without having written leaves the mark, the slots and the arena as it found them |
| KeyStore.StoredReads | src/graph.rs:205-220 | An inline key, or an overflow key through its little-endian offset, reads back byte for byte |
| KeyStore.ReleaseClaims | src/format.rs:902-906 | Giving a range back lowers the mark only when every other range lies below it |
| LittleEndian.Le8RoundTrip | src/graph.rs:217-234 | An offset stored as two words reads back |
| Lists.ListsWellFormed | src/graph.rs:629-793 | Over every interleaving of inserts with stale reads, removals, deletes, reuse of ids and entries, and writers dying, with no condition on the run: each slot's list is duplicate-free, within its cap, of allocated ids and never names its own node; each upper list above level 1 is duplicate-free, within its cap and of allocated ids; and a level-1 list, whose degree a freed entry's link can stand in for, has at most 64 ids, all allocated |
| ListOwners.NodeListsOk | src/graph.rs:629-654 | Though a push or a cut may land in an entry freed and written for another node since its index was read: a live node's entry was written for it and is no other live node's, and its lists at every level, 1 included, are duplicate-free, within their caps, of allocated ids and never name it, so long as no delete lands on the slot of an insert still under way and no entry is freed as written under a level-1 update that holds its index |
| ListRuns.SelfLoopHappens | src/insert.rs:142-152 | Without the first condition there is a run in which a node's own upper list names it: its id and a freed entry go to a new insert while the old one still pushes by an index it read |
| ListRuns.SparingIsExact | src/graph.rs:838-857 | A tombstone lands on no slot of an insert under way if and only if the rest of its delete gives back no id that an insert still works on |
| ListRuns.EntryOfTwo | src/graph.rs:629-654 | Without the second there is a run in which a push stores its degree over a free entry's link: two live nodes come to name one entry, and it is written for the second while the first names it |
| Lists.LevelIsChosen | src/insert.rs:366-431 | What one level of racing selection may link to is what a write here may be given: in any run in which the thread saw the entry and read the very lists that level's looks returned, whatever others did meanwhile, the connections are chosen from what the thread has seen |
| Lists.WritesReadBack | src/graph.rs:457-513 | What an insert writes reads back: each of at most eight levels as given, cut to 64, whatever ids the entry held before, and the slot's list cut to the cap; nothing else changes |
| Lists.PushIsAtomic | src/graph.rs:629-654 | A push changes one list of the entry whose index was read, as it stands at that very step: it keeps only what was there and the new id, changes nothing when the id is there already, and with room appends it |
| Lists.RemovalIsAtomic | src/insert.rs:37-51 | A layer-0 removal takes just the one id out of a live node's list as it stands at that very step |
| Lists.CutIsAtomic | src/graph.rs:629-654 | So does a removal at an upper level, in whichever node's entry the index that was read has become |
| Racing.RacingLevel | src/insert.rs:366-431 | Whatever lists and distances each look finds, what one level of an insert links to is what selection takes, in order, of the nearest 2m hits by the distances read; it is duplicate-free, never the node itself, and each is the entry or in one of the lists it returns as read, look by look |
| Racing.RacingBeam | src/search.rs:304-371 | Beside other writers the beam still terminates and goes best first: by the distances read, each node expanded is the nearest measured and not expanded, with fewer than ef measured strictly nearer, and its hits are the ef nearest of all it measured, each the entry or shown by a list it read |
| Racing.RacingPruneFits | src/insert.rs:69-96 | However distances move between hunts a prune leaves a duplicate-free part of the list within the cap |
| Racing.EvictsRaces | src/insert.rs:75-94 | With distances that stand still that prune is the one proved in Prune |
| Lists.ReverseEdgeIsAtomic | src/insert.rs:121-141 | A reverse edge turns the list as it stands at that very step into its replacement, so no update is lost; the contended merge always contains the new id |
| Lists.ReverseEdgeTakes | src/insert.rs:105-141 | The exchange of a live node's list takes effect just when that list is still the one read; the contended merge always does, and leaves the new id behind all that there was room for |
| Lists.MergedOk | src/insert.rs:105-115 | The contended merge keeps lists well formed and displaces another id, never the one it adds |
| EntryWord.InstallsRespectful | src/format.rs:693-774 | Under any interleaving an install other than the plain set replaced the empty word, the id it expected, or a strictly lower level |
| EntryWord.ClaimsNeedClear | src/format.rs:693-697 | Between two claims that won somebody cleared the word, expecting what it named |
| EntryWord.InsertEnds | src/insert.rs:318-352 | However its turns interleave, an insert ends unlinked only by a claim of its own that replaced the empty word, linked to an entry that the word did name at some point of the run, since when it has named one at least as high as the new node, or with an error once all sixteen turns are spent or its edgeless node could not be written |
| EntryWord.PromotesOnlyAbove | src/insert.rs:468-471 | The exchange an insert ends with is the promotion of its own node, expecting the entry it joined, and only when that entry is below it |
| EntryWord.TwoRootsNeedClear | src/insert.rs:321-334 | When two inserts both returned unlinked, somebody cleared the word between their two claims, expecting the entry it named |
| EntryWord.EntryOnlyClimbs | src/format.rs:713-736 | While nobody takes the current entry for gone, each change of the word raises its level |
| EntryWord.ExchangeIsExact | src/format.rs:672-736 | An exchange under which nothing has moved installs unless what stands there rules it out: for a promotion another entry at least as high, for a replacement or a clear any entry but the one expected |
| Probe.Walk | src/graph.rs:912-927 | A pass looks at exactly its residue of ids, never below zero, within its limit, and returns the highest live one it may |
| Probe.RotationsCover | src/graph.rs:902-914 | Any stride consecutive rotations look at every id below the mark |
| Probe.LatchMeansNothingLive | src/graph.rs:897-939 | With probes one at a time, and nodes written, removed and announced meanwhile, the latch fires only when each live node was one a counted pass had to skip or awaits its epoch bump |
| Batch.BatchReports | src/insert.rs:508-570 | However workers interleave and whoever is refused a thread: each record runs at most once, every claimed one finishes, Ok means each either landed or is listed, and a failure names the lowest record with a plane fault and that fault |
| Batch.FailureStopsClaims | src/insert.rs:508-545 | Once a plane fault is recorded no more records are claimed than there were workers already past their look |
| Batch.RejectedAre | src/insert.rs:554-561 | The rejected list is exactly the records with a fault of their own, ascending |
| Batch.CodeRoundTrip | src/insert.rs:192-212 | Fault codes round trip and never read as no fault |
| Dot.DotI16Avx2 | src/distance.rs:221-238 | The chunked kernel equals the plain sum less 2^32 per chunk pair whose four operands are all -32768, so it is exact if and only if there is none; no 64-bit lane wraps |
| Dot.DotI16Stored | src/distance.rs:211-238 | On operands within 32767 of zero it is the plain sum |
| Dot.ExtremePairOverflows | src/distance.rs:372-376 | One such pair is enough to lose 2^32 |
| Dot.DotI8Avx2 | src/distance.rs:266-295 | The int8 kernel is the plain sum, -128 included; no 32-bit lane, fold or tail step wraps |
| Dot.MaddLane | src/distance.rs:211-218 | A madd lane is exact unless all four operands are -32768, and only then does it leave 32 bits |
| Dot.Quantize | src/distance.rs:343-357 | Over exact reals every component lands within half a scale step of its value and within the limit; the scale is 1 for the zero vector and else takes the limit to exactly the largest magnitude, so that component lands exactly on it |
| Dot.BytesInDomain | src/distance.rs:374-376 | True exactly when no stored element is -32768 |
| Dot.StoredBytesInDomain | src/distance.rs:343-376 | What the quantizer stores passes the domain check and reads back as the very values |
| Geometry.CreatedSlots | src/format.rs:335-340 | Every geometry create accepts has what slot addressing rests on: a slot size in whole cache lines, the page grouping that size implies, a slot region that long |
| Geometry.SlotsDisjoint | src/format.rs:546-553 | In every geometry create makes or open adopts, different slots share no byte |
| Geometry.SlotPlaced | src/format.rs:264-280 | Each slot is 64-aligned, inside the slot region, and when grouped inside one page |
| Geometry.RegionsDisjoint | src/format.rs:335-376 | Header, slots, upper entries and key arena follow one another without overlap and end with the file, below 2^64 |
| Geometry.SlotFields | src/format.rs:161-169 | Vector, 4-aligned neighbours and 4-aligned key field lie in order inside the slot |
| Geometry.OpenRecovers | src/format.rs:425-485 | Opening the header create wrote recovers the identical geometry |
| Geometry.CreateThenOpen | src/format.rs:335-485 | Whatever numbers create accepts, opening what it wrote adopts exactly that geometry with those numbers, or refuses if and only if the file is shorter than it made it |
| Geometry.OpenRefuses | src/format.rs:59-65 | A file is adopted only with the magic, one of the two version and codec pairs, and its full length |
| Geometry.OpenedSlots | src/format.rs:459-466 | Whatever header open adopts addresses its slots by the same rules |
| Layouts.CreateAcceptsExactly | src/format.rs:298-352 | Create accepts just the numbers in range whose whole file, header, slots, an upper entry per eighth node and 64 more, and arena, is shorter than 2^64 bytes; an arena length that saturates is never taken for a small one |
| Layouts.SlotSizeIsLeast | src/format.rs:249-252 | A slot is the least whole number of cache lines that holds its fixed part, padded vector, neighbours and key |
| Layouts.UpperFields | src/format.rs:110-123 | An upper entry of 2112 bytes holds eight levels of a degree word and 64 aligned ids each, one after the other |
| Layouts.GroupsExactly | src/format.rs:271-280 | Slots are grouped by pages just when whole slots leave at most 128 bytes of a page, and then as many as fit |
| Layouts.VectorFillsItsBytes | src/format.rs:120-145 | What the quantizer stores takes just the bytes that the slot's other fields are laid out after |
| Layouts.HeaderIsWritten | src/format.rs:353-378 | Byte for byte, where create puts each number of the header, the magic and the version included |
| Layouts.OpenedNumbers | src/format.rs:425-485 | An adopted file's geometry is that of the numbers at those places, in range, no longer than the file, with no more ids issued than it holds |
| Durability.DurableMarkIsCovered | src/format.rs:1029-1038 | With arbitrary writeback, concurrent flushes and a crash anywhere, the mark on disk never claims data that is not on disk |
| Watermarks.WatermarkVouches | src/format.rs:1029-1038 | In every run a watermark other than 0 on disk was given to some flush of that run, and all that had been applied when that flush began is on disk with it, page by page |
| Watermarks.FlushLeavesItsNumber | src/format.rs:1029-1038 | A flush given a number that has returned, with no other stamp and no invalidation after its own, leaves that number as the watermark on disk, or 0 under the latch, and the shutdown marked clean |
| Watermarks.OnlyStampsMove | src/format.rs:1029-1056 | The mark moves only by the stamp of a flush that was given a number, by an invalidation or by a crash |
| Durability.FlushMakesDurable | src/format.rs:1029-1038 | A flush that got as far as its stamp made durable everything applied before it began, the thread's earlier flushes notwithstanding |
| Durability.LatchSticks | src/format.rs:782-787 | Once set, the latch stays and every handle reads 0, whatever a racing flush stamps |
| Durability.InvalidationIsFinal | src/invalidate.rs:56-73 | After an invalidation returned success every later open, and every open of a later crash image, is refused |
| Durability.SidecarComesSecond | src/invalidate.rs:56-66 | By the time the sidecar is written the in-band latch is durable, if its sync succeeded |

## Left out

- Memory is sequentially consistent; weaker orderings and volatile reads are not modelled.
- f32 rounding, cosine values and NaN: distances are exact, and the errors for a wrong dimension or a component that is not finite are left out of `Plane` (they appear as record faults in `Batch`).
- Clocks: the takeover window, the wedge bound and the drain timeout are free choices of the schedule.
- Hosts that set the watermark directly, without a flush (src/napi.rs:976-979).
- Kernel file locks, mapping and msync are taken at their word; a liveness probe of a registry slot is one step.
- Registry: a handle picks any free registry slot, where the code tries them in order.
- Prefetching, page advice, host bindings and packaging.
- Bounded capacities of scratch buffers other than the visited set; heaps are sets, and ties are broken arbitrarily.
- The repair branch of entry resolution and the retry loop around it: with one caller at a time the entry word always names a live node or nothing is live. The probe itself is in `Probe`, the word in `EntryWord`.
- Connectivity after a list overflowed or a node was deleted: the code promises none; searches are then exhaustive over what is still reachable.
- Branches that recover from a damaged file, such as a freelist head out of range, beyond showing in `FreeList` that they are not reached.
- Dispatched batches' keys (`BatchKeys`) are not modelled; `Predicated` follows ids and verdicts only.
- Tag wrap: an exchange in `FreeList` is assumed to complete within 2^32 exchanges of the head; generations are modulo 2^31, and reads disturbed by one that recurs are excluded by a condition, exact by `GenFreshIsExact` and shown necessary by `StaleReadHappens`.
- The upper freelist runs through the level-1 degree words of its entries (`UpperPool`); each of its calls is one step, its exchanges being those of `FreeList`.
- FreeList.ExactlyOnePlace: excludes runs in which a delete lands on the slot of an insert still under way; `LiveIdHandedOut` shows that the code does not keep the promise there. `Uppers` and `Lists` go on through such runs, with a chain of ids that means nothing any more and from which any id may be handed out.
- Plane.Graph.Insert: the random level, the availability of an upper entry and the distances are inputs; key storage is in `KeyStore`.
- SeqLock.ReadsAreAtomic: reads into which a publication of their own generation falls are excluded; `OrdinaryReadsAreAtomic` shows which reads cannot meet one.
- Lists.ListsWellFormed: a level-1 list of an entry whose link was taken for a degree may repeat ids, or hold more than 2m, up to 64; `NodeListsOk` gives a live node's level-1 list in full, on its conditions. A node write replaces its own list, so reverse edges added to a node still being inserted can be lost to it, as in the code; raw mirroring writes, which store the host's lists as given, are left out.
- ListOwners.NodeListsOk: excludes runs in which a delete lands on the slot of an insert still under way, or an entry is freed as written under a level-1 update that holds its index; `SelfLoopHappens` and `EntryOfTwo` show that the code does not keep the promise there.
- Uppers.NeverNamedTwice: excludes runs in which a tombstone takes an entry that an insert still under way will store again, or an entry is freed as written under an update that holds its index; `DeleteHitsInsert` and `LinkOverwritten` show that the code does not keep the promise there.
- UpperAccounts.NoEntryLost: excludes runs in which a delete lands on the slot of an insert still under way, shown necessary by `EntryLostHappens`; a wedged entry lock does lose an entry, as the code accepts, and the theorem excludes it.
- KeyStore.LookupIsLastStored: excludes runs in which a range is settled off a record in the middle of a write; `KeyOverrun` shows that the code does not keep the promise there. Records are written one at a time per slot, under the slot lock of `SeqLock`; a write is its two ends, with arbitrary contents of that slot's record and of its own range in between, and a raw store is one step or a death inside it.
- Probe.LatchMeansNothingLive: the rotation counter does not wrap.
- Where comments and code differ the code is followed: an unregistered handle does reclaim other handles' dead locks (format.rs:985-1008, against the comment at 925-929), and the salt has twelve effective bits, not thirteen (seqlock.rs:20 against 43).
