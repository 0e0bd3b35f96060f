# A verified model of the query engine's runtime and operators

The repository holds two styles of query engine, a compiled one and a vectorised one, over a shared
runtime. This project models the parts of it whose correctness is not plain from reading one function:
resumable operators, concurrent protocols, hash tables that grow while they are used, and the conversions
between numbers, dates and text. `dafny verify dfyconfig.toml` checks everything.

## What is modelled

**Hash join** (`Bits`, `Hashmap`, `ConcurrentInsert`, `BuildSide`, `ProbeQueue`, `Ring`, `JoinSpec`, `HashJoin`,
`JoinAll`). The directory of tagged words is modelled bit by bit. Concurrent insertion is a protocol over its
loads, links and compare-and-swaps, any of which may fail at any time; `BuildSide` is the build of a single worker
and the lookup of a `Hashset`. On the finished table the probe operator is a class with the source's fields and
buffers, which pulls a vector from its child when the one before is done with. A call of a join function is
specified by what it does to the queue of unfinished chains; the theorem about whole runs is that every pair of a
probe tuple and a build entry with the same key is delivered exactly once, whatever the batch size and for each of
five join functions: `joinSelParallel` and `joinSelSIMD` write the selected row, `joinAllParallel`, `joinAllSIMD`
and `joinBoncz` the number of the tuple, for vectors without a selection. The eight-lane probe meets the contract
of the scalar one, and the compacting join agrees with both. `JoinAll` models the older join that follows one chain
after the other, which does not always deliver every match once, and says exactly when it does.

**Two-phase aggregation** (`Folds`, `Chunks`, `Stack`, `PartitionedDeque`, `SlotChains`, `Hashmapx`, `GroupBy`).
Thread-local tables of bounded size, spilling into deques partitioned by the upper bits of the hash, and the
second aggregation of every partition. The result has every key that occurs in the input once, with the fold of all
its values, for any commutative update; each tuple of each thread counts exactly once.

**Protocols** (`GlobalPool`, `PoolGrants`, `Allocator`, `GroupStore`, `Barrier`, `BarrierArrivals`, `BarrierReturns`,
`BarrierRounds`, `BarrierProgress`, `BarrierTree`, `Scan`). State machines whose steps are the single accesses to
shared variables, under sequential consistency: lock-free allocation with a locked refill, the barrier and the tree
of barriers used over and over, and the scan whose workers share a chunk counter. Results are about every reachable
state of every run, for any number of threads. On top of the pool stand the allocator of a worker and the one for
its groups, whose chunks are used again.

**Partitioning and groups** (`HashmapSmall`, `Grouping`, `Tallies`, `Partition`, `PartitionPlaces`, `GroupLookup`,
`GroupCreate`). The small hash table that doubles in the middle of a pass, the two-pass partitioning on top of it,
composite keys, and finding and creating the groups of a vector. Nothing is assumed about growth: a method returns
whether its passes went well (`ok`), and that is exactly when growing separated no elements that had been counted as
one. Then the partitions are the classes of the composite key, wherever the table grew. Nor is it assumed that hashes
tell keys apart. Groups are looked up by hash; tuples that meet another key are followed to older entries in rounds,
as the code does it, and what that comes to is stated exactly: every tuple ends at the group of its key and no key
has two groups if and only if the lookup has listed the tuples without a group and no others.

**Vectorised aggregation** (`GroupVectors`, `Handouts`, `HashGroup`). The operator that puts partitioning, group
creation, spilling and a second phase together: workers pre-aggregate their vectors, and behind a barrier take
partitions from a shared counter and hand out groups block by block. A record is kept of what every vector met in the
tables and how it left them. Every lookup in it lists the tuples without a group and no others if and only if every
vector leaves its tuples at the groups of their keys and no key with two; then under every schedule of the
workers' turns each key is handed out at most once and with its final value, and all are when the workers have seen
the end. That is so if no two keys share a hash and there are one key column, small vectors or few keys. A run ends
early exactly if a vector in the record overruns the buffer for what is not found or has its partitioning divided.

**Query 1.1** (`Primitives`, `Q11`, `Q11Probe`, `Q11Plan`). Both plans, from the selection of the dates to the
result row. The vectorised one is a live pipeline: the join pulls its vectors through the Select from the scan, and
while a batch is resumed the selection buffer and the seven registered column pointers stand on the vector it
belongs to; projections read through these pointers. For every vector size, all selections with or without
branches, and both join functions the plan may be built with, both plans come to the same exactly if some tuple
contributes to the answer.

**Text and numbers** (`Digits`, `Calendar`, `DateTexts`, `Decimal`, `NumberTexts`, `Jsmn`, `JsonTexts`, `JsonBrackets`).
Julian day numbers, dates and decimals to and from text: what every text is read as or why it is rejected, and what
printed texts look like. The JSON tokenizer reads every text of the grammar of RFC 8259 to the tokens of its values, and
how it ends on any input at all is decided by the brackets outside of strings and primitives.

## Conventions

- Hashes are 64 bits wide (`HASH_SIZE` 64). Addresses are naturals below 2^48, so that a tag and an address do
  not share bits; entries of a stack are known by their place in it.
- The load factors 0.7 and 0.3 are the fractions 7/10 and 3/10. Capacities are powers of two, so comparing
  with either fraction never meets equality.
- Hash functions are arbitrary functions of the key.
- Counters and lengths are unbounded unless a width is stated: the 8-bit round of a barrier, the 32-bit
  digits of a date and the 64-bit raw value of a decimal are modelled as wrapping or overflowing.
- Where the source passes a callback (`findOrCreate`), the two callbacks it is used with are written out.

## Findings

- Printing a decimal of precision 18 multiplies the digits after the point by ten in a signed 64-bit
  integer. The product overflows exactly if they exceed 922337203685477580; otherwise what is printed reads
  back as the same value (`Decimal.PrintsUnlessFractionTooLarge`, `Decimal.LargestFractionFails`,
  `Decimal.RoundTrip`).
- A string token that ends in a lone backslash at the last byte makes the tokenizer look at the byte behind the
  input, which is a parameter of the model. The outcome depends on the input alone if and only if the run reaches no
  such token (`Jsmn.OutcomeIsOfInput`); else it is decided by that byte (`Jsmn.BeyondDecides`), as for the input `"\`
  (`Jsmn.LoneBackslash`). A caller need only check that the last byte is no backslash (`Jsmn.NoBackslashAtEnd`).
  Resuming after running out of tokens is one run whatever the byte is.
- `joinAll` parks the rest of a chain as a null pointer when a batch fills up with the last entry of a chain. The
  next call then starts with the same tuple again, so that its matches are delivered twice, or without end: with
  one entry, two tuples and batches of one the join never finishes (`ChainJoin.NeverFinishes`). Every match is
  delivered once exactly if cutting all matches into batches never cuts there; else more than all are delivered, if
  the calls end at all (`ChainJoin.Hashjoin.Run`, `ChainJoin.JoinVector`).
- Partitioning by one column of a composite key may meet equal keys with different hashes, as the hash is of the
  whole key. If the small table grows in the middle of the first pass and separates two such elements that had been
  counted as one, the second pass looks one of them up in vain or runs over into the next group's places; it is
  right if and only if growth separates none (`Tallies.ExactlyUndivided`, `Partitioning.PartitionOne`); otherwise
  an element has no entry, or is written behind the partition or over another one (`PartitionPlaces.DividedGoesWrong`).
  181 tuples
  with two key columns, all of them with different keys and hashes, are enough (`GroupCreation.VectorDivided`). It
  cannot happen if hashes fit the keys within every partition (`Partitioning.FittingParts`), or if there are too few
  keys for the table to grow (`Partitioning.SteadyGrouped`).
- If the newest entry with the hash of a tuple has another key (it clashes), `findGroups` calls `htFollow`. It goes on
  to an older entry with that hash, but lists as not found positions in its own list, one for each entry passed over,
  and a tuple for which there is no older entry not at all (`GroupCreation.HtFollow`). Afterwards every tuple points to
  an entry with its key and no key has two, if and only if every clashing tuple without a group is among what
  `htFollow` lists and no tuple listed there has a group (`GroupCreation.GroupVector`, `GroupLookups.ListsMissing`).
  So with one group in the table and a tuple of another key with the same hash the tuple is counted in the wrong group
  (`GroupCreation.LosesTuple`), while with two groups the older of which is the tuple's all is well
  (`GroupCreation.SurvivesClash`). What a caller can check: it is right if no tuple clashes
  (`GroupLookups.NothingFollowed`); and if no slot of a tuple holds an entry with another hash, exactly if every
  clashing tuple has a group (`GroupLookups.NothingPassedOver`). What is listed may exceed the buffer of one vector's
  size; `GroupCreation.FindGroups` says when.
- `ResetableAllocator::allocate` checks that a chunk has room for the request before it adds the alignment at the
  start of the chunk. The accounts stay right if and only if the request and both alignments fit the chunk
  (`GroupStores.ResetableAllocator.Allocate`). A request for twice the allocation size or more never fits a new chunk
  (`GroupStores.ResetableAllocator.LargeNeverFits`); requests of up to 2 MiB less 128 bytes always fit
  (`GroupStores.ResetableAllocator.SmallFits`). Once `free` has wrapped around, everything asked for is granted behind
  the chunk (`GroupStores.ResetableAllocator.OverrunGrants`).
- `HashGroup::next` never resets its count of groups, so that once the table has been full it is spilled
  after every vector. The result is not affected.
- The plans of query 1.1 differ if no tuple contributes to the answer, and only then (`Q11.OutcomesAgree`,
  `Q11Plan.BothPlans`): if no date is selected, `q11_hyper` calls `setSize(0)`, which its assertion forbids, while the
  vectorised plan returns no row (`Q11.NoDateSelected`); if dates are, but no wanted tuple has one, the former
  returns a row that holds 0 and the latter none (`Q11.NoTupleWanted`).

## Model

| member | source | states |
|---|---|---|
| Hashmap.TaggedBit | include/common/runtime/Hashmap.hpp:85-88 | a word passes the filter for a hash exactly if the one tag bit of that hash is set in it |
| Hashmap.UpdatePoints | include/common/runtime/Hashmap.hpp:99-104 | after update the word points to the new entry, for every old word and hash |
| Hashmap.UpdateTags | include/common/runtime/Hashmap.hpp:99-104 | after update the word passes exactly the hashes it passed before and those that share the new entry's tag |
| Hashmap.FindIsComplete | include/common/runtime/Hashmap.hpp:133-142 | a tagged lookup returns the chain of the slot or nothing, and never nothing when an entry with that hash is stored |
| Hashmap.SetSize | include/common/runtime/Hashmap.hpp:193-208 | the capacity is a power of two with 10n <= 7·capacity < 20n, the returned fill is 7/10 of it and at least n |
| ConcurrentInsert.StepKeeps | include/common/runtime/Hashmap.hpp:153-172 | every step of every thread, failed and spurious swaps included, keeps each slot an acyclic chain of exactly the entries swapped in, with the union of their tags |
| ConcurrentInsert.EveryRunHolds | include/common/runtime/Hashmap.hpp:153-172 | so in every state of every interleaving the table holds exactly the entries inserted so far |
| ConcurrentInsert.BuildThenFind | include/common/runtime/Hashmap.hpp:133-142 | after any finished concurrent build every inserted entry is in the chain a lookup of its hash returns |
| BuildSide.InsertKeeps | include/common/runtime/Hashmap.hpp:153-172 | an undisturbed insertion adds just its entry to what the table holds |
| BuildSide.Build | src/vectorwise/Operators.cpp:755-785 | a single worker's build ends with a table that holds an entry for every key, with the key's hash |
| BuildSide.Contains | include/common/runtime/Hashmap.hpp:446-457 | the lookup in a hash set finds a key if and only if it was inserted |
| ProbeQueue.ParksShorten | src/vectorwise/Operators.cpp:182-199 | visiting a queue of chains once uses up exactly one entry of each |
| ProbeQueue.DrainConserves | src/vectorwise/Operators.cpp:175-209 | a call reports a match as often as it takes it off what the parked chains still lead to, and only matches that pass the test |
| ProbeQueue.DrainProgress | src/vectorwise/Operators.cpp:175-209 | a call with room shortens the parked chains, and reports nothing only if nothing is left |
| Ring.Pop | src/vectorwise/Operators.cpp:183-187 | reading at the front and wrapping takes the first chain off the ring's contents |
| Ring.Push | src/vectorwise/Operators.cpp:193-197 | writing at the back and wrapping appends a chain as long as one place stays free |
| JoinSpec.HeadsOwe | src/vectorwise/Operators.cpp:155-170 | the fresh chains of a vector owe every entry with the hash of a tuple exactly once to that tuple |
| JoinSpec.PassesConserve | src/vectorwise/Operators.cpp:721-748 | the compacting join reports each match as often as it takes it off the parked chains, over all its passes |
| HashJoin.Hashjoin.ProbeScalar | src/vectorwise/Operators.cpp:155-170 | the loop over fresh probes writes the matching heads to the output and the rests of the chains to the followup buffers |
| HashJoin.Hashjoin.Visit | src/vectorwise/Operators.cpp:183-197 | one followup takes the first chain off the ring, reports its entry if hashes agree and appends its rest |
| HashJoin.Hashjoin.FollowChains | src/vectorwise/Operators.cpp:173-209 | the ring loop delivers what the queue specification says and leaves the ring holding the unfinished chains; the ring never overflows and is reset to 0,0 when nothing is left |
| HashJoin.Hashjoin.JoinAllParallel | src/vectorwise/Operators.cpp:149-210 | a call delivers at most a batch, exactly what the queue specification says about the old chains, and keeps the operator resumable; as joinSelParallel (444-502) it writes the selected rows |
| HashJoin.Hashjoin.ProbeLanes | src/vectorwise/Operators.cpp:285-366 | eight lanes at a time with compress-stores and a scalar tail leave output, followups and counters as the scalar loop does |
| HashJoin.Hashjoin.JoinAllSIMD | src/vectorwise/Operators.cpp:212-404 | the same contract as the scalar join, also as joinSelSIMD |
| HashJoin.LanesAgree | src/vectorwise/Operators.cpp:289-366 | the compressed matches and next pointers of eight lanes are the reports and parked chains of the eight tuples |
| HashJoin.Hashjoin.JoinBoncz | src/vectorwise/Operators.cpp:708-751 | on a vector without a selection the compacting join, which writes tuple numbers, delivers what its passes say; found + followupWrite never exceeds the batch size at a loop head |
| HashJoin.Hashjoin.KeysEqual | include/vectorwise/Primitives.hpp:704-719 | in-place compaction keeps exactly the rows whose keys are equal, in order |
| HashJoin.Hashjoin.JoinBatch | src/vectorwise/Operators.cpp:796-799 | any of the five join functions with the key check delivers each key match as often as it takes it off what the unfinished chains owe, and makes progress |
| HashJoin.Hashjoin.Next | src/vectorwise/Operators.cpp:786-805 | a call delivers a non-empty batch of matches of the vector at hand, pulling the next vector only when all of one is delivered, and EndOfStream only when everything is |
| HashJoin.Hashjoin.Run | src/vectorwise/Operators.cpp:786-805 | over a whole run every pair of a probe tuple and a build entry with equal keys is delivered exactly once, and nothing else; the rows are the selected rows of these tuples |
| HashJoin.Hashjoin.EveryPairOnce | src/vectorwise/Operators.cpp:786-805 | on the columns: a probe tuple and a build entry are delivered once if the selected probe key is the entry's key, and never otherwise |
| HashJoin.Hashjoin.RowsInOrder | src/vectorwise/Operators.cpp:786-805 | each row the parent operator sees is the build entry of a match and the selected row of its probe tuple, one row for each match |
| HashJoin.RunsAgree | src/vectorwise/Operators.cpp:708-751 | complete runs of any two of the join functions over the same vectors deliver the same multiset for every vector |
| ChainJoin.FromIsJoin | src/vectorwise/Operators.cpp:123-126 | the matches of all tuples contain every entry with the hash of a tuple exactly once |
| ChainJoin.Hashjoin.JoinAll | src/vectorwise/Operators.cpp:111-147 | a call delivers the next batch of what is ahead; exactly the rest stays ahead unless the batch ends with the last entry of a chain, and else that chain is ahead again |
| ChainJoin.StallExample | src/vectorwise/Operators.cpp:129-135 | an input whose first batch ends there |
| ChainJoin.NeverFinishes | src/vectorwise/Operators.cpp:111-147 | on that input every call delivers the same match again, however many calls are made |
| ChainJoin.Hashjoin.Run | src/vectorwise/Operators.cpp:111-147 | a vector's calls end with every match delivered once, in order, if and only if cutting all matches into batches never cuts at the end of a chain; if they end otherwise, more than all matches were delivered |
| ChainJoin.JoinVector | src/vectorwise/Operators.cpp:111-147 | on a table as the build phase leaves it this means every hash-equal entry exactly once for each tuple, under the same condition |
| GlobalPool.StepKeeps | src/common/runtime/MemoryPool.cpp:26-70 | every atomic step, including separate loads of start and end and both publication orders, keeps start and end of one chunk or the allocation test failing |
| GlobalPool.SwapKeeps | src/common/runtime/MemoryPool.cpp:67-70 | a successful swap hands out memory of the current chunk, above everything handed out of it before |
| GlobalPool.NotPublishing | src/common/runtime/MemoryPool.cpp:51-59 | between the two stores of a refill no thread's swap can succeed |
| GlobalPool.AllocationsDisjoint | src/common/runtime/MemoryPool.cpp:26-70 | over every interleaving the ranges handed out are pairwise disjoint and each lies in one chunk behind its header |
| PoolGrants.ReturnGrants | src/common/runtime/MemoryPool.cpp:67-70 | a step by which a thread comes back from its call is the return of that one thread and grants one range, of the size its call asked for |
| PoolGrants.EveryCallIsServed | src/common/runtime/MemoryPool.cpp:26-70 | in every state of every run there are as many grants as calls that have come back, and the j-th grant has the size that the j-th of them asked for |
| PoolGrants.SomebodySteps | src/common/runtime/MemoryPool.cpp:26-70 | while any thread is inside a call some thread can take a step of its call |
| Allocation.Allocator.SetSource | src/common/runtime/MemoryPool.cpp:72-80 | the allocator begins with a fresh region of the new pool, gives up the rest of the old one and keeps what it has handed out apart from it |
| Allocation.Allocator.Allocate | include/common/runtime/MemoryPool.hpp:55-74 | results are 64-aligned, inside a region of the pool and disjoint from all earlier ones; free never falls below zero although padding is added twice |
| Allocation.WorkersApart | include/common/runtime/MemoryPool.hpp:55-74 | what allocators of different workers hand out is disjoint, over every interleaving of their refills |
| GroupStores.ResetableAllocator.SetSource | src/common/runtime/MemoryPool.cpp:82-93 | the first chunk, all of it free |
| GroupStores.ResetableAllocator.Allocate | include/common/runtime/MemoryPool.hpp:99-131 | exactly if the request with both alignments fits the chunk the result is aligned, in that chunk, apart from all handed out since the last reset, and the accounts are right; else free wraps around |
| GroupStores.ResetableAllocator.NextChunk | include/common/runtime/MemoryPool.hpp:107-121 | the next chunk large enough is taken, else a new one of at least twice the allocation size; nothing handed out is touched |
| GroupStores.ResetableAllocator.LargeNeverFits | include/common/runtime/MemoryPool.hpp:107-125 | no request for twice the allocation size or more fits a new chunk |
| GroupStores.ResetableAllocator.SmallFits | include/common/runtime/MemoryPool.hpp:99-131 | every request that with two alignments is within the first chunk's size fits, whatever has been handed out |
| GroupStores.ResetableAllocator.OverrunGrants | include/common/runtime/MemoryPool.hpp:126-129 | once free has wrapped around every request is granted, behind the end of the chunk |
| GroupStores.ResetableAllocator.Reset | include/common/runtime/MemoryPool.hpp:133-137 | all chunks are free again, from an overrun too |
| BarrierReturns.StepKeeps | include/common/runtime/Barrier.hpp:21-39 | every access to cntr and round keeps: the counter is the number of children still awaited, a waiter is at most one round behind, the last arriver is unique |
| BarrierReturns.AllWait | include/common/runtime/Barrier.hpp:111-120 | when the finalizer runs every agent of the tree has arrived and waits |
| BarrierRounds.FinalizerOncePerRound | include/common/runtime/Barrier.hpp:111-120 | at every moment returns of a thread <= finalizer runs <= arrivals of the thread <= its returns + 1: the finalizer runs once per round, after all arrivals and before any return, with an 8-bit round |
| BarrierRounds.OneWinnerPerRound | include/common/runtime/Barrier.hpp:21-39 | the k-th true is returned from the k-th wait, and exactly one per wait |
| BarrierRounds.NoDeadlock | include/common/runtime/Barrier.hpp:29-35 | when every thread is inside wait some agent can take a step other than spinning on |
| BarrierProgress.EveryWaitEnds | include/common/runtime/Barrier.hpp:21-39 | once all threads have begun the same wait, at most 6·n·(n-1) steps are left without further calls, n being the vertices of the tree, and no step is left exactly if all threads are back from that wait |
| BarrierTree.TreeIsWellFormed | include/common/runtime/Barrier.hpp:57-92 | for every number of threads the tree has one root, and each barrier's thread count is the number of agents that wait at it |
| BarrierTree.Create | include/common/runtime/Barrier.hpp:57-92 | allocates exactly the barriers of the tree, level by level, with the parents of the specification |
| BarrierTree.BuiltIsTree | include/common/runtime/Barrier.hpp:57-92 | what create builds has the counts and parents of the abstract tree the protocol runs on |
| BarrierTree.Destroy | include/common/runtime/Barrier.hpp:94-103 | reads only live barriers, frees each exactly once and nothing else |
| BarrierTree.AssignWorkers | include/common/runtime/Concurrency.hpp:82-114 | worker i waits at barrier i/8, the calling thread at the last |
| BarrierTree.RunGroup | include/common/runtime/Concurrency.hpp:82-122 | every worker waits where the tree has its leaf, and all barriers are freed at the end |
| Scans.Scan.AddConsumer | src/vectorwise/Operators.cpp:53-55 | a registered pointer is tracked from where it stands |
| Scans.Scan.Next | src/vectorwise/Operators.cpp:57-83 | after every call each column pointer is its base plus lastOffset values; state and result are those of the abstract call |
| Scans.NextVector | src/vectorwise/Operators.cpp:60-74 | the skip arithmetic lands on the first vector of the chunk just taken, or on the next of the chunk at hand |
| Scans.RangesDisjoint | src/vectorwise/Operators.cpp:57-83 | for any workers and interleaving the ranges are non-empty, inside the table, at most a vector long and disjoint |
| Scans.EveryTupleReturned | src/vectorwise/Operators.cpp:57-83 | once all workers have got EndOfStream every tuple has been returned |
| SlotChains.LastInGap | include/common/runtime/HashmapSmall.hpp:64-74 | following newest-first chains by their next links skips no entry of the slot |
| SmallTable.HashmapSmall.constructor | include/common/runtime/HashmapSmall.hpp:39-51 | the directory is a power of two that holds size entries under the load factor, and starts at no more than 256 slots |
| SmallTable.HashmapSmall.FindFirst | include/common/runtime/HashmapSmall.hpp:67-75 | returns the newest entry of the hash's slot whose key passes, and null only if there is none |
| SmallTable.HashmapSmall.Insert | include/common/runtime/HashmapSmall.hpp:76-107 | appends the entry; the capacity doubles exactly when the fill limit is passed and never beyond its array |
| SmallTable.HashmapSmall.Grow | include/common/runtime/HashmapSmall.hpp:88-106 | growing in the middle of a pass keeps all entries, found by the new slots |
| SmallTable.HashmapSmall.Clear | include/common/runtime/HashmapSmall.hpp:56-65 | either strategy leaves the table empty if the hashes cleared cover those stored |
| Grouping.SplitGroups | include/vectorwise/Primitives.hpp:815-874 | splitting by first occurrence gives every class whole, in stable order, once |
| Grouping.GroupsRearrange | include/vectorwise/Primitives.hpp:815-874 | a grouping contains every element as often as before |
| Grouping.GroupsBounds | include/vectorwise/Primitives.hpp:815-874 | partition ends are strictly increasing up to the number of elements |
| Grouping.RefineGroups | include/vectorwise/Primitives.hpp:815-874 | splitting the parts of a grouping by a second key is grouping by both keys |
| Partitioning.Lookup | include/vectorwise/Primitives.hpp:843-845 | a lookup during a pass finds the newest entry with the element's key and slot, or none if there is none |
| Partitioning.CountPass | include/vectorwise/Primitives.hpp:839-853 | pass 1 leaves in the table what the abstract count says, for any keys and hashes and however often the table grows |
| Tallies.RightOrShort | include/vectorwise/Primitives.hpp:839-853 | as long as growth divides nothing there is one entry per class with its frequency; once it has, some class keeps more elements than are counted for it, whatever is counted later |
| Tallies.ExactlyUndivided | include/vectorwise/Primitives.hpp:839-873 | every element has an entry with places enough for its class if and only if growth never separated elements counted as one |
| Tallies.DividedExample | include/common/runtime/HashmapSmall.hpp:88-106 | an input with 180 classes whose last element makes the directory grow and separate two elements of one key |
| Partitioning.OffsetPass | include/vectorwise/Primitives.hpp:855-862 | frequencies become places, and the ends of the rooms are appended to the bounds |
| Partitioning.ScatterPass | include/vectorwise/Primitives.hpp:864-873 | pass 2 finds an entry with a place left for every element if and only if no class has more elements than were counted, and then every class stands at its place in stable order |
| Partitioning.PartitionOne | include/vectorwise/Primitives.hpp:838-881 | one partition is split into its classes and the table is empty again, if and only if growth divided nothing |
| PartitionPlaces.PlaceIsNext | include/vectorwise/Primitives.hpp:869-873 | the place an element goes to is what its entry holds when pass 2 comes to it |
| PartitionPlaces.DividedGoesWrong | include/vectorwise/Primitives.hpp:864-873 | every element has an entry and a place of its own within the partition if and only if growth divided nothing |
| Partitioning.PartitionByKey | include/vectorwise/Primitives.hpp:883-945 | the whole primitive splits every incoming partition into the classes the table tells apart at its end, if and only if no pass is divided |
| Partitioning.FittingParts | include/vectorwise/Primitives.hpp:815-882 | no pass is divided if equal keys have equal hashes within every partition |
| Partitioning.KeysGrouped | include/vectorwise/Primitives.hpp:815-882 | with equal hashes for equal keys the output partitions are exactly the classes of equal keys, whatever the capacity |
| Partitioning.PrefixesGrouped | include/vectorwise/Primitives.hpp:815-882 | if the classes are the same in all partitions, then after some operations of a composite key the partitions are the classes of the keys so far and the hash's slot |
| Partitioning.SteadyGrouped | include/vectorwise/Operators.hpp:498-503 | if no partition has more classes than the table takes before it grows, nothing is divided and this is so after every operation |
| Partitioning.CompositeKeysGrouped | include/vectorwise/Operators.hpp:498-503 | after all operations the partitions are exactly the classes of the composite key, wherever the table grew |
| Partitioning.PartitionByKeys | src/vectorwise/Operations.cpp:5-9 | a chain of operations through swapped buffers leaves these partitions in the buffers it returns, if and only if no pass of any operation is divided |
| Stacks.Stack.EmplaceBack | include/common/runtime/Stack.hpp:84-91 | appends one element, in the present chunk or the next, new or reused |
| Stacks.Stack.NewChunk | include/common/runtime/Stack.hpp:103-118 | moving to the next chunk of doubled size changes no contents |
| Stacks.Stack.Clear | include/common/runtime/Stack.hpp:70-76 | empties the stack and keeps the chain of chunks |
| Stacks.Stack.IsEmpty | include/common/runtime/Stack.hpp:78-80 | the code's test holds exactly for the empty stack |
| Stacks.Stack.Iterate | include/common/runtime/Stack.hpp:131-147 | the doubling block iterator visits every element once, in order |
| Deques.Partition.PushBack | include/common/runtime/PartitionedDeque.hpp:117-135 | appends one element whether or not a chunk must be added |
| Deques.Partition.Iterate | include/common/runtime/PartitionedDeque.hpp:137-146 | reading each chunk up to its size gives the contents |
| Deques.PostConstruct | include/common/runtime/PartitionedDeque.hpp:88-98 | there is a power of two of empty partitions, more than asked for and at most twice as many |
| Deques.UpperBits | include/common/runtime/PartitionedDeque.hpp:110-114 | the upper bits of every hash number an existing partition |
| GroupTables.Hashmapx.FindOne | include/common/runtime/Hashmap.hpp:350-363 | finds the entry with the key and hash if there is one |
| GroupTables.Hashmapx.Create | include/common/runtime/Hashmap.hpp:375-384 | appends an entry and puts it on top of its chain |
| GroupTables.Hashmapx.Grow | include/hyper/GroupBy.hpp:125-131 | a resized table holds the same entries and has room for twice as many |
| Folds.UpdateCounts | include/hyper/GroupBy.hpp:53 | updating a group in place counts as one more tuple |
| Folds.SumJoinOnly | include/hyper/GroupBy.hpp:150-164 | if one part only has a key, the fold over all parts is the fold over it |
| TwoPhase.Spill | include/hyper/GroupBy.hpp:29-33 | spilling moves all groups to the partitions of their hashes and keeps every fold |
| TwoPhase.Locals.MakeRoom | include/hyper/GroupBy.hpp:47-51 | a full table is spilled and emptied without changing what table and deque hold together |
| TwoPhase.Locals.Consume | include/hyper/GroupBy.hpp:43-54 | each tuple counts once: table and deque together hold the folds of everything consumed, the table at most maxFill groups |
| TwoPhase.ColumnHoldsKey | include/hyper/GroupBy.hpp:150-157 | one partition of all deques holds all that was spilled for a key |
| TwoPhase.AggregatePartition | include/hyper/GroupBy.hpp:141-168 | in any thread's table, whatever it held, a partition is aggregated to distinct keys with its folds, growing within the load factor |
| TwoPhase.SpillAll | include/hyper/GroupBy.hpp:113-123 | every thread's remaining groups go to the deque of any thread, and no fold changes |
| TwoPhase.PartitionsComplete | include/hyper/GroupBy.hpp:141-172 | groups of different partitions have different keys and together cover every key |
| TwoPhase.ForallGroups | include/hyper/GroupBy.hpp:134-173 | the groups handed out have every spilled key once, with its fold |
| TwoPhase.GroupBy | include/hyper/GroupBy.hpp:43-173 | both phases together, for any split of the input, fill limits and assignment of work: a key is in the result exactly if some thread's input has it, once, and with the fold of all its values |
| TwoPhase.TuplesInOrder | include/hyper/GroupBy.hpp:57-67 | what is aggregated is every tuple of every thread once: they number the sum of the inputs' lengths, and tuple i of thread w stands behind those of the threads before it |
| TwoPhase.TupleCounts | include/hyper/GroupBy.hpp:57-67 | one tuple more, anywhere in any thread's input, changes the fold of its key by its value and no other fold; without tuples every fold is the initial value |
| GroupCreation.KeysNotEqual | include/vectorwise/Primitives.hpp:722-741 | tuples with the entry's key in the column are moved to the front, the others listed, both in order |
| GroupLookups.RoundsEnd | include/vectorwise/Operators.hpp:476-481 | when the rounds end every tuple whose hash the table has is at the entry with its key, or no entry has it |
| GroupLookups.ListsMissing | include/vectorwise/Operators.hpp:469-483 | findGroups lists exactly the tuples without a group if and only if every clashing tuple without one is among what htFollow lists and nothing listed there has one |
| GroupLookups.NothingFollowed | include/vectorwise/Operators.hpp:476-476 | if no tuple clashes htFollow lists nothing and the lookup is right |
| GroupLookups.NothingPassedOver | include/vectorwise/Operators.hpp:447-467 | if no slot of a tuple holds an entry with another hash, the lookup is right exactly if every clashing tuple has a group |
| GroupCreation.FindGroups | include/vectorwise/Operators.hpp:469-483 | lookup, key comparison by columns and all rounds of htFollow leave exactly the matches and the list of the specification, unless more is listed than the buffer holds |
| GroupCreation.HtFollow | include/vectorwise/Operators.hpp:447-467 | each tuple goes on to the next older entry with its hash, or stays where it is; its position in the list of unequal tuples is listed as not found once for each entry passed over |
| GroupCreation.LosesTuple | include/vectorwise/Operators.hpp:447-483 | for any two keys that share a hash: with the one in the table and a tuple of the other the lookup is wrong |
| GroupCreation.SurvivesClash | include/vectorwise/Operators.hpp:447-483 | for any two keys that share a hash: with both in the table a tuple of the older one clashes, and the lookup is right |
| GroupCreation.Representatives | include/vectorwise/Operators.hpp:485-492 | one tuple of each partition, its first |
| GroupCreation.InsertNew | include/vectorwise/Operators.hpp:515-528 | with or without a resize the table holds the old entries and the new ones, and resizing restores the fill limit |
| GroupCreation.WriteBack | include/vectorwise/Operators.hpp:530-538 | the tuples of each partition, and no others, get the pointer to its entry |
| GroupCreation.CreateMissingGroups | include/vectorwise/Operators.hpp:494-540 | one new entry per key listed as not found; all tuples listed point to theirs and no other pointer changes; no key has two entries exactly if no tuple listed had a group; it fails exactly if partitioning what is listed is divided |
| GroupCreation.GroupVector | include/vectorwise/Operators.hpp:469-540 | afterwards every tuple of the vector points to an entry with its key and no key has two entries, if and only if the lookup lists the tuples without a group and no others; it fails exactly if more is listed than the buffer holds or partitioning that is divided |
| GroupCreation.VectorDivided | include/vectorwise/Operators.hpp:494-503 | a vector with different keys and hashes for which it is, whatever the buffer |
| GroupVectors.UpdateGroups | src/vectorwise/Operators.cpp:854 | if every tuple points to the group of its key each counts once there; keys and hashes of the groups stay in any case |
| GroupVectors.NewCountNothing | src/vectorwise/Operators.cpp:852-854 | groups created with the initial value change no fold |
| VectorGroups.HashGroup.AggregateVector | src/vectorwise/Operators.cpp:851-854 | after a vector every tuple points to the group of its key and no key has two, if and only if the lookup lists the tuples without a group and no others; then the table holds the folds of what it held and of the vector's tuples; it ends early exactly if the buffer is overrun or partitioning is divided |
| VectorGroups.HashGroup.FlushAndClear | src/vectorwise/Operators.cpp:836-848 | all blocks go to the deque and the table is emptied, without changing what both hold together |
| VectorGroups.HashGroup.PreAggregate | src/vectorwise/Operators.cpp:829-858 | if all lookups were right, the worker's deque holds the folds of all its tuples after the first phase, and its table nothing; the record of lookups is that of its vectors in order, and it ends early exactly at one that overruns or divides |
| GroupVectors.RowsOfRowVector | include/vectorwise/Operators.hpp:368-385 | reading rows of a deque as a vector gives back these rows |
| VectorGroups.HashGroup.AggregateRows | src/vectorwise/Operators.cpp:875-892 | reading a partition by chunks and vectors aggregates each of its rows once, if all lookups were right |
| VectorGroups.HashGroup.AggregatePartition | src/vectorwise/Operators.cpp:869-896 | the table holds the folds of what all deques hold for the partition, if all lookups were right |
| Handouts.HandedPart | src/vectorwise/Operators.cpp:899-908 | groups handed out have their final values, and keys of their partition only |
| VectorGroups.HashGroup.Step | src/vectorwise/Operators.cpp:868-917 | a turn hands out the next non-empty block, or, the partition being all handed out, takes the next one |
| VectorGroups.HashGroup.Next | src/vectorwise/Operators.cpp:866-919 | a call returns groups not handed out before, or EndOfStream only when no partition is left |
| Handouts.TakeKeeps | src/vectorwise/Operators.cpp:910-915 | taking a partition keeps: each has one owner, nothing is handed out of it before, and all of it before the owner leaves it |
| Handouts.DeliverMore | src/vectorwise/Operators.cpp:899-908 | a block delivers no key that has been delivered |
| Handouts.AllDelivered | src/vectorwise/Operators.cpp:866-919 | when no worker holds a partition any more, what was delivered has every key with its fold |
| VectorGroups.RunWorkers | src/vectorwise/Operators.cpp:866-919 | under any schedule of turns, if all lookups were right, no key is delivered twice and every value is final; at the end nothing is missing; some turn ends early exactly if a lookup of its worker overruns or divides |
| VectorGroups.GroupAll | src/vectorwise/Operators.cpp:827-919 | for any workers, vectors and schedule there is a record of what every vector of every worker met in the tables and how it left them, its input first: the run ends early exactly if one in the record overran the buffer or was divided; all lookups in it were right if and only if every vector left its tuples at the groups of their keys and no key with two; then what is delivered are final groups, each key once, and all of them at the end; so it is if no keys share a hash and there are one key column, vectors of at most 179 tuples or at most 179 keys |
| GroupVectors.KeysOccur | src/vectorwise/Operators.cpp:850-857 | the keys aggregated are those that some tuple of some vector of some worker has, column by column |
| GroupVectors.VectorCounts | src/vectorwise/Operators.cpp:850-857 | one vector more, anywhere among those of any worker, changes each fold by that of its tuples; without vectors every fold is the initial value |
| Primitives.SelColVal | include/vectorwise/Primitives.hpp:14-26 | the selection vector is exactly the positions that pass, in order |
| Primitives.SelColValBf | include/vectorwise/Primitives.hpp:81-93 | the branch-free selection computes the same vector |
| Primitives.SelSelColVal | include/vectorwise/Primitives.hpp:54-66 | narrowing keeps exactly the selected positions that pass |
| Primitives.SelSelColValBf | include/vectorwise/Primitives.hpp:109-123 | the branch-free narrowing computes the same vector |
| Primitives.PassingBoth | src/vectorwise/Operations.cpp:5-9 | narrowing a selection is selecting by the conjunction |
| Primitives.ProjSelBoth | include/vectorwise/Primitives.hpp:194-205 | each result is the product of the two columns at the selected position |
| Primitives.AggrStaticPlus | include/vectorwise/Primitives.hpp:264-272 | adds the sum of the vector to the aggregator and says whether there was anything |
| Q11.FusedRange | src/benchmarks/sbb/queries/q11.cpp:65-81 | the fused loop, looking dates up in the hash set, adds to its start value the revenue of its range |
| Q11.RevenueSplit | src/benchmarks/sbb/queries/q11.cpp:62-84 | the revenue of a range is the sum over any split, as the reduction needs |
| Q11.BuildDates | src/benchmarks/sbb/queries/q11.cpp:37-53 | the build leaves a hash table of exactly the selected dates, and none if there are none |
| Q11.FusedQ11 | src/benchmarks/sbb/queries/q11.cpp:37-93 | wherever the range is cut the fused plan returns one row with the revenue; it is undefined exactly if no date is selected |
| Q11.OutcomesAgree | src/benchmarks/sbb/queries/q11.cpp:86-93 | what the plans return is the same if and only if some wanted tuple has a selected date |
| Q11.TupleCounts | src/benchmarks/sbb/queries/q11.cpp:72-77 | for every database one more tuple adds its price times its discount to what both plans return if its quantity is below the bound, its discount from discountMin to discountMax, both included, and its date one of 1993; any other tuple changes nothing |
| Q11.NoTuples | src/benchmarks/sbb/queries/q11.cpp:86-93 | without tuples the plans return 0 and no row, or the former is undefined as no date is of 1993 |
| Q11.NoDateSelected | src/benchmarks/sbb/queries/q11.cpp:44-52 | a database without a selected date: undefined, and no row |
| Q11.NoTupleWanted | src/benchmarks/sbb/queries/q11.cpp:86-93 | a database with a selected date and no wanted tuple: a row that holds 0, and no row |
| Q11Probe.NextVector | src/vectorwise/Operators.cpp:57-83 | a scan used alone returns the vectors of the table one after the other |
| Q11Probe.Register | src/benchmarks/sbb/queries/q11.cpp:111-138 | the seven column pointers of the plan are registered with the scan, each at the address of its column |
| Q11Probe.LineorderSelect.At | src/vectorwise/Operators.cpp:57-83 | a registered pointer stands as many values into its column as the scan has come |
| Q11Probe.LineorderSelect.Evaluate | src/benchmarks/sbb/queries/q11.cpp:111-123 | the three selections together, all with or all without branches, select exactly the wanted tuples of the vector the pointers stand on |
| Q11Probe.LineorderSelect.Next | src/vectorwise/Operators.cpp:15-22 | skips only vectors in which nothing passes and stops with the column pointers on the vector it returns |
| Q11Plan.Plan.Pull | src/vectorwise/Operators.cpp:788-793 | another vector comes from the Select only when the one before is done with; buffer, pointers and the vector the join works on stay together |
| Q11Plan.Plan.Batch | src/vectorwise/Operators.cpp:794-804 | resuming the join within a vector moves neither the selection buffer nor a pointer, and adds the batch to what is delivered |
| Q11Plan.Plan.JoinNext | src/vectorwise/Operators.cpp:786-805 | a batch belongs to the vector the pointers stand on, or everything is delivered |
| Q11Plan.MatchesOfTuple | src/benchmarks/sbb/queries/q11.cpp:125-132 | with unique dates a probe tuple is matched once if its date is selected and else never |
| Q11Plan.Plan.Project | src/vectorwise/Operators.cpp:24-29 | prices and discounts read through the pointers as they stand are those of the matched tuples |
| Q11Plan.Plan.Aggregate | src/vectorwise/Operators.cpp:24-42 | pulling all batches, the aggregator ends with the total price of all matches delivered, over resumed batches too |
| Q11Plan.LogRevenue | src/benchmarks/sbb/queries/q11.cpp:99-146 | matches delivered exactly once over the vectors of the whole table add up to the revenue |
| Q11Plan.AnyIsMatch | src/benchmarks/sbb/queries/q11.cpp:164-179 | something is delivered if and only if some wanted tuple has a selected date |
| Q11Plan.VectorisedQ11 | src/benchmarks/sbb/queries/q11.cpp:99-180 | for every vector size, both join functions and both variants of the selections the plan returns a row with the revenue if some tuple contributes, and else none |
| Q11Plan.BothPlans | src/benchmarks/sbb/queries/q11.cpp:37-180 | run on the same database both plans return the same if and only if some tuple contributes to the answer |
| Calendar.SplitMerge | src/common/runtime/Types.cpp:119-131 | splitJulianDay inverts mergeJulianDay on every valid date |
| Calendar.NextDayIsNext | src/common/runtime/Types.cpp:108-117 | the next calendar day, leap years included, has the next number |
| Calendar.OrderIsChronological | include/common/runtime/Types.hpp:704-715 | comparing numbers is comparing dates |
| Calendar.CastString | src/common/runtime/Types.cpp:151-199 | the loops accept and read exactly what the field grammar says, digits wrapping at 32 bits |
| Calendar.ParsePrint | src/common/runtime/Types.cpp:151-199 | the printed form of a date up to year 9999 parses to that date |
| Calendar.DateRoundTrip | src/common/runtime/Types.cpp:140-149 | printing a date value and parsing the text gives the value |
| DateTexts.ReadsFields | src/common/runtime/Types.cpp:151-199 | three digit texts with dashes between them, blanks around, are read as the day number of the year, month and day they say (modulo 2^32), in this order, or rejected if one is out of range |
| DateTexts.AcceptsFieldsOnly | src/common/runtime/Types.cpp:151-199 | no other text is accepted |
| DateTexts.PrintedForm | src/common/runtime/Types.cpp:140-149 | a printed date up to year 9999 has four, two and two digits with dashes between them, which say year, month and day |
| DateTexts.KnownDays | src/common/runtime/Types.cpp:108-117 | the numbers of six known days |
| Decimal.CastString | include/common/runtime/Types.hpp:592-648 | the loops compute the abstract parse, with errors and signed overflow |
| Decimal.Print | include/common/runtime/Types.hpp:661-692 | the digit loops write the sign, the whole part and the fraction padded to the precision, or overflow |
| Decimal.PrintsUnlessFractionTooLarge | include/common/runtime/Types.hpp:684-687 | printing overflows if and only if the precision is 18 and the value exceeds 922337203685477580 |
| Decimal.LargestFractionFails | include/common/runtime/Types.hpp:684-687 | a value for which it does |
| Decimal.RoundTrip | include/common/runtime/Types.hpp:592-692 | whatever is printed parses to the raw value, for precision 0 to 18 and values below 10^18 |
| NumberTexts.EveryText | include/common/runtime/Types.hpp:592-648 | every text is, with blanks around it, a number, or nothing but a sign, or breaks off somewhere: which it is decides between the value, the error and overflow |
| NumberTexts.Accepts | include/common/runtime/Types.hpp:592-648 | a number is read as its digits without the zeros at the end, scaled to the precision; it is rejected with more than 18 digits before the point or more than the precision behind it, and overflows beyond 63 bits |
| NumberTexts.ReadsDecimal | include/common/runtime/Types.hpp:642 | within the limits the raw value is whole * 10^precision + fraction * 10^(precision - its digits), with the sign |
| NumberTexts.Rejects | include/common/runtime/Types.hpp:634-636 | a text that breaks off is rejected, unless the digits before that overflow |
| NumberTexts.PrintedForm | include/common/runtime/Types.hpp:661-692 | printed is a minus for negative values, the whole part without zeros in front, and a point with as many digits as the precision says |
| Jsmn.ParseKeeps | 3rdparty/jevents/jsmn.c:173-276 | every run keeps: spans nest or are apart, brackets match types, sizes count direct children, toksuper is innermost |
| Jsmn.SuccessIsNested | 3rdparty/jevents/jsmn.c:173-276 | after success every container is closed by its bracket, spans nest in start order and sizes are the numbers of direct children |
| Jsmn.SuperIsInnermost | 3rdparty/jevents/jsmn.c:196-226 | however a run ends toksuper is the innermost open container or -1 |
| Jsmn.MoreRoom | 3rdparty/jevents/jsmn.c:31-42 | a larger array changes nothing but running out of it |
| Jsmn.ResumeIsOneRun | 3rdparty/jevents/jsmn.c:173-276 | resuming after NOMEM with a larger array ends as one run with it |
| Jsmn.BeyondDecides | 3rdparty/jevents/jsmn.c:141-167 | if a run comes to a string that ends in a lone backslash, the byte behind the input decides between two outcomes; else it has no influence |
| Jsmn.OutcomeIsOfInput | 3rdparty/jevents/jsmn.c:141-167 | so the outcome depends on the input alone if and only if no run comes there |
| Jsmn.NoBackslashAtEnd | 3rdparty/jevents/jsmn.c:141-167 | and none does if the input does not end in a backslash |
| Jsmn.LoneBackslash | 3rdparty/jevents/jsmn.c:141-167 | an input with two outcomes |
| JsonTexts.ReadValue | 3rdparty/jevents/jsmn.c:173-264 | a value of the JSON grammar that stands in the text is read to its tokens, wherever it stands and whatever has been read before |
| JsonTexts.EveryTextRead | 3rdparty/jevents/jsmn.c:173-276 | every JSON text is read to the end with one token per value and name, spans and child counts those of its values; with fewer places it ends in NOMEM |
| JsonBrackets.EveryOutcome | 3rdparty/jevents/jsmn.c:173-276 | every run, on any input, ends as a scan of the characters says, or runs out of room, which it does not with a token for every character |
| JsonBrackets.BracketsDecide | 3rdparty/jevents/jsmn.c:201-226 | if strings and primitives can be read, the outcome is success exactly if the brackets outside of them are balanced, invalid exactly if a closing one has no partner of its kind, and else part |
| JsonBrackets.StrayBrackets | 3rdparty/jevents/jsmn.c:204-213 | a closing bracket alone, and one of the wrong kind, are invalid |
| JsonBrackets.StringEnds | 3rdparty/jevents/jsmn.c:121-163 | a string ends at the first quote that is no part of an escape, with only the listed escapes before it |
| JsonBrackets.PrimitiveEnds | 3rdparty/jevents/jsmn.c:68-95 | a primitive goes on through printable characters to the next separator, or the end |
| Jsmn.Parser.ParsePrimitive | 3rdparty/jevents/jsmn.c:59-107 | adds the primitive's token up to its end, or restores the position and reports the error |
| Jsmn.Parser.ParseString | 3rdparty/jevents/jsmn.c:112-167 | adds the string's token between its quotes, or restores the position and reports the error |
| Jsmn.Parser.Close | 3rdparty/jevents/jsmn.c:201-226 | closes the innermost open container if the bracket has its type and makes the one around it the super token |
| Jsmn.Parser.Run | 3rdparty/jevents/jsmn.c:173-276 | the parser in place computes the abstract run |

## Left out

- Weak memory orders: all protocols assume sequential consistency.
- `Hashjoin::joinSel`: it differs from `joinAll` in writing probeSel[i].
- The build phase of `Hashjoin::next` as part of the operator: it is modelled beside it, for many workers in `ConcurrentInsert` and for one in `BuildSide`; the operator starts from a table as both leave it.
- `joinAllParallel`, `joinAllSIMD` and `joinBoncz` on vectors with a selection: the plans call them only for vectors without one.
- The Scan and the Select on the date table: the vectorised plan's selection of the dates is a loop over the table, as in the fused plan.
- What follows an overrun of the buffer of tuples not found: the model ends there, as what lies behind the buffer is not part of it.
- VectorGroups.GroupAll: for the values delivered it is sufficient, not necessary, that every tuple comes to the group of its key and no key has two: a group made twice in the first phase is merged in the second, and values may cancel.
- What is in memory after a divided pass: the model ends there; `PartitionPlaces` says where the elements would go.
- `partition_by_key` and `partition_by_key_row`: the model is the variant with a second selection vector; the other two are the case in which it is the identity.
- Groups in the memory of `ResetableAllocator`: `HashGroup` models them as a growing sequence, `GroupStore` the memory by itself.
- `Scan::next` after EndOfStream: a worker stops there.
- `keys_equal` over a pushed selection vector: it does not compact the other vectors.
- Several workers of Q1.1: the plan is run by one; sums of several workers meet in one atomic addition.
- 64-bit wrap-around of the Q1.1 revenue: both plans add the same products, so they wrap alike.
- `WorkerGroup::run`: thread pinning, task scheduling and the swap of this_worker around the calling thread's own work.
- Memory of `Stack` and `PartitionedDeque` inside `GroupBy`: the tables and deques of a thread are sequences with the contents those classes are proved to have.
- Parallelism of `forallGroups`: its tasks touch one thread's table each and are run one after the other, in any thread's table.
- Timestamps, number parsing of the other types, hash mixing, huge pages, 32-bit hashes, imports, drivers, profiling and the remaining queries: they add no property of another kind.
