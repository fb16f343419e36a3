# Verified models of the jsdb storage and document code

This project models the parts of the database and of its JavaScript runtime whose correctness
rests on invariants that no single function shows, and proves them in Dafny. Code that changes
state in place is a class or a method with loops; value-level functions say what it computes, and
lemmas say what that means. `dafny verify dfyconfig.toml` verifies everything.

## What is modelled

**Reader/writer lock** (`Counting`, `FutexMutex`, `RwLock`, `RwLockRuns`, `RwLockRest`). The two futex mutexes,
the 16-bit reader count and the type byte, stepped one atomic operation at a time by any number of
threads. A run is any sequence of such steps. `FUTEX_WAIT` compares and sleeps atomically and may
return for no reason. Both 16-bit counters wrap. Mutual exclusion holds for any number of threads;
that a group of readers releases the lock only after its last reader, and that no wakeup is lost,
holds exactly up to 65536 threads. Up to there every run can go on until the lock is at rest.

**Radix tree** (`ArtNodes`, `ArtTree`, `ArtGraft`, `ArtPatches`, `ArtPaths`, `ArtGrowth`,
`ArtHalts`, `ArtInsert`, `ArtFind`, `ArtSplice`, `ArtSchema`, `ArtDepth`, `ArtIndexKey`, `ArtOrder`,
`ArtCursor`, `ArtDocuments`). An arena of numbered nodes: spans, radix nodes of 4, 14, 64 and 256 slots, field and suffix ends. Every slot
in use has a label, the path of key bytes and end-node steps that leads to it, and a tree is valid
when nodes and labels agree. Each change replaces what hangs at one slot by a patch; one theorem
about patches carries all insertions. `Appended` says that a field ends where the insertion says,
that all slots with contents keep label and contents, and that all that is new lies on the way to
the key or inside an edge. The cursor is proved against the list of keys still to come, with the
number of turns left as its measure.

**Property table and marshaled documents** (`Probing`, `ObjectTable`, `MarshalImage`,
`MarshalLayout`, `MarshalRegions`, `MarshalReading`, `MarshalReadBack`, `MarshalWalk`,
`MarshalDoc`, `MarshalBytes`). One module for linear probing serves the in-memory object and the marshaled image.
The object is a class over a pair vector and a hash table, and refines a map with insertion order.
The image is a map from byte offsets to records in a zeroed buffer, and the buffer itself a sequence
of bytes that is read back by address. The hash function is a
parameter.

**B-link tree** (`BtreePages`, `BtreeInsertSlot`, `BtreeSplit`, `BtreeTree`, `BtreeStages`,
`BtreeStep`, `BtreeLink`, `BtreePost`, `BtreeFix`, `BtreeRoot`, `BtreeInsert`, `BtreeHeight`,
`BtreeSpill`, `BtreeIndex`, `BtreeOverflow`). Pages
with slots, librarian slots and a key heap, seen as sorted entries. Every page has a range of keys,
and a tree is sound when every search in it comes to the owner of its key. A level is at one of
three stages: exact, right page linked, left fence posted; a split goes through them in order, and
the tree is sound at each. The last fence is infinite: its key is empty, and on the two lowest
levels its slot is of type stopper. Insertion ends because a split page has at least three entries:
the entries beyond the second of all pages bound the height. A key overflows when a walk up from
its leaf, with the fence that each full page would post, comes to a rightmost page from level 2 on
below the root that is full as well.

**Frames and segments** (`FrameLists`, `FrameStore`, `FrameAlloc`, `FrameFill`, `FrameRegions`,
`FrameAllocator`, `Arena`). Lists of frames of addresses, recycled through a list of the same kind. All addresses that
lists and live objects hold form a multiset in which none occurs twice, and the memory behind them lies apart. The arena part has segments
with objects growing up and document ids growing down.

**JSON** (`Decimal`, `PairVectors`, `JsonPrint`, `JsonMachine`, `JsonParse`, `JsonRoundTrip`,
`JsonCounting`, `JsonExact`, `JsonFaults`, `JsonSpaces`, `Sequences`). The printers as loops, the parser as a loop over characters with its
64-byte buffer and container stack, and the exact set of values for which one undoes the other.

**BSON** (`BsonReader`, `BsonRead`, `BsonRoundTrip`). The reader as a loop over arrays of lengths,
names and values, with 32-bit arithmetic, against an encoder after the BSON specification 1.1.

**Sorting** (`ArraySort`). `Array.prototype.sort` in place, for any strict weak order.

## Where the code does less than it promises

- The 16-bit `waiters` and `readers` of the lock wrap: from 65537 threads on sleepers can be left
  behind, and a group of readers can give the lock back with a reader inside (`WakeupsExactly`,
  `GroupReleaseExactly`).
- A span of more than 248 bytes gets a type code that find and cursor read back as another length
  (`SpanLengthExactly`).
- marshalDoc never stores the count of an array, so a marshaled array reads back empty
  (`RoundTrip`); calcSize forgets `vt_key` values (`CalcExact`).
- The table of a marshaled object with one pair has no empty bucket, so a lookup of another name
  finds no place to stop (`FullExactlyForOne`).
- A B-tree page can be full and impossible to halve exactly when keys longer than 2712 bytes are
  stored (`SplittableExactly`).
- btreeSplitRoot gives the last slot of a new root the type indexed. When the rightmost page of a
  level from 2 on splits below the root, btreeFixKey therefore looks for its fence by the empty key
  and repoints the first entry of the level above: a split is completed exactly when its right page
  has a right sibling or ends in a stopper slot (`FixKey`, `StopperSlot`, `WrongFence`, `Misplaced`).
  An insertion fails so whenever its key overflows, and in trees of keys of up to 33 bytes only then
  (`InsertKey`, `NarrowOnce`); `OverflowCase` is a tree where it does.
- allocFrame loses the head of the free list exactly when that head is empty and the only frame of
  the list, which 64 calls from the start lead to (`AllocFrame`, `LostExactly`, `DrainFrames`).
- initDocIdFrame's space test wraps around when a batch of ids does not fit, and then lets the ids
  grow over the objects (`BatchExactly`).
- The printer exchanges the two infinities, does not escape quotes and backslashes, and prints an object with an
  own property `toString` as that text; the parser cannot finish a literal at the end of the text
  (`RoundTripExactly`, `ContainerReadsBack`, `QuotesBreakText`). It looks at the last container of
  an empty stack exactly when a comma follows a whole value at the top level (`FaultExactly`), and
  refuses whitespace behind a number (`SpaceBreaksNumber`).
- The BSON reader takes 32-bit integers as unsigned and an empty binary for the end of the file
  (`Int32Exactly`, `BinaryExactly`).

## Model

| member | source | states |
|---|---|---|
| `RwLockRuns.Exclusion` | oldjsdb/jsdb_rwlock.c:89-125 | in every interleaving of any number of threads a writer that holds the lock excludes all readers and other writers, `type` is 1 for the writer and 0 for every reader that reaches rwUnlock, and at most one thread is about to give `wrt` back, with the bit set |
| `RwLockRuns.RunKeepsLockInv` | oldjsdb/jsdb_rwlock.c:24-125 | the invariant over `xcl`, `wrt`, `readers` and `type` holds in every state of every run |
| `RwLock.StepKeepsLockInv` | oldjsdb/jsdb_rwlock.c:24-125 | one atomic operation of any thread keeps the invariant |
| `RwLock.InstrKeepsXcl` | oldjsdb/jsdb_rwlock.c:89-125 | after every instruction `xcl` is set exactly while one thread is between acquiring and releasing it |
| `RwLock.JoinKeeps` | oldjsdb/jsdb_rwlock.c:112-119 | when a reader joins, `readers` still counts the members modulo 2^16 and `wrt` still is owned by exactly one writer or group, or awaited for the group |
| `RwLock.LeaveKeeps` | oldjsdb/jsdb_rwlock.c:97-110 | the same when a reader leaves and takes on the release if it read one |
| `RwLock.ReleaseKeeps` | oldjsdb/jsdb_rwlock.c:97-110 | the thread that gives `wrt` back finds it set and leaves it clear, and the owners are again exact |
| `RwLock.ReleaserAlone` | oldjsdb/jsdb_rwlock.c:97-110 | the thread about to release `wrt` is its only owner |
| `RwLock.InstrKeepsType` | oldjsdb/jsdb_rwlock.c:89-125 | `type` is written only while the other side is outside, so it tells writer from readers |
| `RwLock.InsideExcludesWriters` | oldjsdb/jsdb_rwlock.c:112-125 | a reader that has joined and does not wait excludes every writer |
| `RwLockRuns.GroupReleasesLast` | oldjsdb/jsdb_rwlock.c:97-125 | with at most 65536 threads no reader is left inside when its group gives `wrt` back |
| `RwLockRuns.GroupReleaseExactly` | oldjsdb/jsdb_rwlock.c:97-125 | that a reader group releases `wrt` only after its last reader holds for `n` threads exactly when `n` is at most 65536, where the 16-bit `readers` cannot wrap |
| `RwLockRuns.EarlyReleaseReachable` | oldjsdb/jsdb_rwlock.c:97-125 | with more threads a run exists in which a group releases while a reader is inside |
| `FutexMutex.MicroKeepsCount` | oldjsdb/jsdb_rwlock.c:24-65 | `waiters` is the number of registered threads modulo 2^16 after every operation of bt_mutexlock |
| `FutexMutex.MicroKeepsWakeups` | oldjsdb/jsdb_rwlock.c:24-65 | no operation of bt_mutexlock loses a wakeup: a sleeper on a free mutex has a waker or an awake waiter |
| `FutexMutex.ReleaseKeepsWakeups` | oldjsdb/jsdb_rwlock.c:67-85 | nor does the release, as long as the waiter count cannot wrap |
| `RwLockRuns.RunKeepsWakeful` | oldjsdb/jsdb_rwlock.c:24-125 | in every state of every run of at most 65536 threads no wakeup is lost on either mutex |
| `RwLockRuns.WakeupsExactly` | oldjsdb/jsdb_rwlock.c:24-85 | no run of `n` threads ever loses a wakeup exactly when `n` is at most 65536 |
| `RwLockRuns.WakeupLost` | oldjsdb/jsdb_rwlock.c:24-85 | with more threads a run exists that leaves all waiters asleep on a free mutex |
| `RwLockRuns.NoDeadlock` | oldjsdb/jsdb_rwlock.c:24-125 | in every state of every run of at most 65536 threads, while any thread uses the lock, some thread that uses it is awake and its next operation is not one more try for a mutex that is held |
| `RwLockRest.SomeoneAdvances` | oldjsdb/jsdb_rwlock.c:24-125 | and some thread has a step that leaves less work to do |
| `RwLockRest.ComesToRest` | oldjsdb/jsdb_rwlock.c:24-125 | every run of at most 65536 threads can go on to a state in which no thread uses the lock, both words are clear and `readers` is 0 |
| `RwLockRest.UnlockReturns` | oldjsdb/jsdb_rwlock.c:97-110 | with at most 65536 threads a thread in rwUnlock comes back by its own steps alone, and `wrt` is clear then exactly if it was the writer or the last member of its group |
| `ArtNodes.SpanLengthExactly` | oldjsdb/jsdb_dbartinsert.c:58-72 | the span length that find and cursor decode is the one that was stored, exactly up to 248 bytes |
| `ArtNodes.FindByte` | oldjsdb/jsdb_dbartinsert.c:232-270 | the slot of a key byte in a node of any size, or that the node lacks it |
| `ArtNodes.AddInPlace` | oldjsdb/jsdb_dbartinsert.c:232-270 | adding in place keeps the byte-to-child map and adds exactly the new byte |
| `ArtNodes.Promote4` | oldjsdb/jsdb_dbartinsert.c:271-333 | 4 to 14: all bytes keep their children, one new byte is added, slots and bytes stay one to one |
| `ArtNodes.Promote14` | oldjsdb/jsdb_dbartinsert.c:374-437 | 14 to 64: the same through the byte array |
| `ArtNodes.Promote64` | oldjsdb/jsdb_dbartinsert.c:476-523 | 64 to 256: the same with one slot per byte |
| `ArtNodes.EdgesPart` | oldjsdb/jsdb_dbart.h:30-110 | in a proper node different slots part at their first key symbol |
| `ArtGraft.GraftValid` | oldjsdb/jsdb_dbartinsert.c:187-225 | replacing the node behind one slot by a patch keeps the tree valid: owners, labels, one-to-one slots |
| `ArtGraft.GraftPreserves` | oldjsdb/jsdb_dbartinsert.c:187-225 | and every slot with contents keeps label and contents |
| `ArtGrowth.GrewTrans` | oldjsdb/jsdb_dbartinsert.c:104-230 | growing twice on the way to a key is growing: all old paths keep their ends |
| `ArtInsert.ArtIndex.FillKey` | oldjsdb/jsdb_dbartinsert.c:79-102 | an unused slot gets a span of the remaining bytes; nothing else changes |
| `ArtInsert.ArtIndex.Extend` | oldjsdb/jsdb_dbartinsert.c:232-566 | a radix node, promoted if full, leads to the new byte as well |
| `ArtInsert.ArtIndex.SplitSpan` | oldjsdb/jsdb_dbartinsert.c:568-702 | a span that parts from the key, or is longer, is split so that the key gets its slot and the old path stays |
| `ArtInsert.ArtIndex.InsertKeySpan` | oldjsdb/jsdb_dbartinsert.c:568-702 | past the span when the key agrees with it, otherwise it completes the field |
| `ArtInsert.ArtIndex.InsertKeyNode` | oldjsdb/jsdb_dbartinsert.c:232-566 | past the node when it has the byte, otherwise it completes the field |
| `ArtInsert.ArtIndex.AppendKeyFld` | oldjsdb/jsdb_dbartinsert.c:104-230 | for fields of any length: the field ends in the slot returned, every earlier path still ends in a slot with the same contents and nothing else is new; or a complete key already stands in the way and nothing changes; or `long`, exactly if more than 248 bytes would go into the one new span behind the place where the walk along the field halts, and nothing changes |
| `ArtFind.FindNxtFld` | oldjsdb/jsdb_dbartfind.c:7-232 | the slot where the walk along the field halts: where the field ends, or where there is no step for the bytes left |
| `ArtHalts.HaltsOnce` | oldjsdb/jsdb_dbartfind.c:7-232 | a walk halts in one slot, after one number of bytes, whether the field is there or not |
| `ArtHalts.ArrivesOnce` | oldjsdb/jsdb_dbartfind.c:7-232 | a field ends in one slot at most |
| `ArtHalts.NothingFurther` | oldjsdb/jsdb_dbartfind.c:34-227 | nothing along the field lies beyond the slot where the walk halts |
| `ArtHalts.HaltDecides` | oldjsdb/jsdb_dbartinsert.c:79-102 | whether a field needs a span of more than 248 bytes is decided by the slot where its walk halts: the bytes left behind an unused slot, behind the new byte of a radix node, or behind the first byte that parts from a span |
| `ArtFind.FoundAgain` | oldjsdb/jsdb_dbartfind.c:34-227 | after any growth of the tree a field that was there still ends in a slot with the same label and mark |
| `ArtSplice.SpliceValid` | oldjsdb/jsdb_dbartindex.c:40-90 | splicing an end node between a slot and what it held keeps the tree valid |
| `ArtSchema.AppendSchema` | oldjsdb/jsdb_dbartindex.c:40-90 | appending a field where the index does keeps the shape of the index |
| `ArtSchema.NothingBlocks` | oldjsdb/jsdb_dbartindex.c:40-90 | in a tree of that shape no complete key stands in the way of a field |
| `ArtSchema.SpliceSchema` | oldjsdb/jsdb_dbartindex.c:40-90 | so does splicing in a field end, suffix or key end |
| `ArtSchema.SpliceKeys` | oldjsdb/jsdb_dbartindex.c:40-90 | which leaves the set of complete keys as it was |
| `ArtSchema.MarkKeys` | oldjsdb/jsdb_dbartindex.c:84-96 | marking the end of a key adds exactly that key |
| `ArtIndexKey.EmptyIndex` | oldjsdb/jsdb_dbartindex.c:9-99 | the empty index is sound and holds no key |
| `ArtIndexKey.IndexField` | oldjsdb/jsdb_dbartindex.c:35-75 | one field: appended, its end entered or spliced in, unless it needs a span of more than 248 bytes, exactly then nothing changes; the same keys as before |
| `ArtIndexKey.IndexSuffix` | oldjsdb/jsdb_dbartindex.c:76-98 | the suffix and the key end add exactly the complete key |
| `ArtIndexKey.IndexKey` | oldjsdb/jsdb_dbartindex.c:9-99 | the keys of the index afterwards are those before and this one; it fails only at a field that does not fit or that needs too long a span in the tree as it then is, and the keys are those before; fields of up to 248 bytes never fail for that |
| `ArtOrder.NextChild` | oldjsdb/jsdb_dbartcursor.c:209-393 | what is left to list at a node is what lies below its next child and then the rest |
| `ArtOrder.AllListed` | oldjsdb/jsdb_dbartcursor.c:209-393 | every key end at or below a slot is in the list from it |
| `ArtOrder.RestSorted` | oldjsdb/jsdb_dbartcursor.c:209-393 | the list is strictly increasing, field by field and byte by byte |
| `ArtOrder.SchemaPassSlots` | oldjsdb/jsdb_dbartindex.c:9-99 | the trees that artIndexKey builds have no key end right behind a pass slot |
| `ArtOrder.ListsAllKeys` | oldjsdb/jsdb_dbartcursor.c:209-393 | the list from the root is strictly sorted and holds the complete keys of the index and nothing else |
| `ArtCursor.Slot4x14` | oldjsdb/jsdb_dbartcursor.c:133-150 | the allocated slot with the least key byte after the given one, 256 when there is none |
| `ArtCursor.Slot64` | oldjsdb/jsdb_dbartcursor.c:162-171 | the least mapped key byte after the given one, 256 when there is none |
| `ArtCursor.NextKid` | oldjsdb/jsdb_dbartcursor.c:240-390 | the next position with a child in any kind of node |
| `ArtCursor.Cursor.constructor` | oldjsdb/jsdb_dbartcursor.c:6-94 | a fresh cursor has the whole list to come |
| `ArtCursor.Cursor.Turn` | oldjsdb/jsdb_dbartcursor.c:225-390 | one turn takes a key off the front of the list to come, or leaves the list and comes closer to its end |
| `ArtCursor.Cursor.NextKey` | oldjsdb/jsdb_dbartcursor.c:209-393 | each call hands out the first key of the list to come and leaves the rest; it fails at the right end and then stays there, unless the stack is full |
| `ArtCursor.StackDepth` | oldjsdb/jsdb_dbartcursor.c:225-390 | the stack is never deeper than the label of its top |
| `ArtCursor.AllKeys` | oldjsdb/jsdb_dbartcursor.c:209-393 | calling NextKey until it fails gives the keys of the tree from the first on, each once, in order, and all of them unless the cursor stack runs full |
| `ArtDocuments.IndexDocuments` | oldjsdb/jsdb_dbartindex.c:9-99 | indexing documents one after the other into an empty index gives exactly the complete keys of the documents that were added |
| `ArtDocuments.ListedInOrder` | oldjsdb/jsdb_dbartcursor.c:209-393 | the listing of such an index is the complete keys of the documents in strictly increasing order |
| `ArtDocuments.ListDocuments` | oldjsdb/jsdb_dbartcursor.c:209-393 | indexing documents and then calling the cursor until it fails gives the complete keys of the documents added, each once, in strictly increasing order: all of them when no complete key has more than 2046 steps, key bytes and field ends together, and otherwise from the first on until the cursor stack runs full |
| `ArtDocuments.MeasuredShallow` | oldjsdb/jsdb_dbartcursor.c:225-390 | the cursor stack never runs full in an index built from keys of up to 2046 steps |
| `ArtDepth.LabelLength` | oldjsdb/jsdb_dbartindex.c:40-90 | in an index a label has at most one step past an end node behind each other step and one in front |
| `ArtDepth.AppendedWithin` | oldjsdb/jsdb_dbartindex.c:35-75 | appending a field lengthens no label beyond the end of that field |
| `ArtDepth.SplicedWithin` | oldjsdb/jsdb_dbartindex.c:40-90 | splicing in an end node lengthens a label by one step at most, its pass step aside |
| `Probing.Lookup` | js_object.c:350-395 | a probe stops at the pair with the name or at an empty bucket, and then the name is absent |
| `Probing.Scan` | js_object.c:493-524 | the full circle of deleteField finds the pair that the probe finds |
| `Probing.StoreKeeps` | js_object.c:400-454 | storing a pair number in the free bucket a probe reached keeps every other probe |
| `Probing.MissedIsAbsent` | js_object.c:350-395 | a probe that ends without a match proves the name absent |
| `Probing.WidthSuffices` | js_object.c:137-176 | pair numbers survive the entry width chosen for their capacity |
| `ObjectTable.AllocatableFits` | js_vector.c:40-79 | the byte count of vec_grow fits its 32-bit variable up to the stated capacity |
| `ObjectTable.JsObject.LookupValue` | js_object.c:350-395 | the pair number of the name, or the bucket where it can go |
| `ObjectTable.JsObject.SetAttribute` | js_object.c:400-454 | the name goes last, through growth, rehash and change of entry width |
| `ObjectTable.JsObject.Rehash` | js_object.c:420-445 | after growing every pair is reached again |
| `ObjectTable.JsObject.Lookup` | js_object.c:458-489 | an assignment creates the slot, a read of a missing name reports none |
| `ObjectTable.JsObject.Put` | js_object.c:458-489 | the object refines a map: assignment is a map update that keeps the order of names |
| `ObjectTable.JsObject.Get` | js_object.c:458-489 | reading finds the value of the map, and nothing for other names |
| `ObjectTable.JsObject.DeleteField` | js_object.c:493-524 | the slot of the name, the same that the probe finds |
| `MarshalRegions.EmitPacked` | js_marshal.c:31-305 | the regions written lie one after the other, disjoint and gap-free |
| `MarshalRegions.CalcExact` | js_marshal.c:309-480 | calcSize is never above the bytes marshalDoc takes, and equal exactly when the tree has no vt_key value |
| `MarshalReading.EmitHolds` | js_marshal.c:86-251 | every record of the tree is in the image with its contents, names hashed into the table of their object |
| `MarshalReadBack.ReadBack` | js_marshal.c:86-251 | reading by offsets gives the tree with its arrays emptied |
| `MarshalReadBack.RoundTrip` | js_marshal.c:86-251 | reading back gives the same tree exactly when no array has elements: the count of an array is never stored |
| `MarshalReadBack.ReadsOneTree` | js_marshal.c:31-305 | an image reads as one tree at most |
| `MarshalReadBack.FullExactlyForOne` | js_marshal.c:186-251 | the table of a marshaled object has a free bucket exactly when the object does not have one single pair |
| `MarshalReadBack.LookupMarshaled` | js_object.c:350-395 | lookupValue on a marshaled object finds every name with its value; it reports every other name absent, except that with a single pair the probe overflows |
| `MarshalReadBack.CloneObject` | js_dbdoc.c:80-120 | the clone has the same names in the same order with the same values, and every lookup finds them |
| `MarshalWalk.CalcSize` | js_marshal.c:309-480 | the explicit-stack walk computes the size of the tree |
| `MarshalDoc.Marshaler.MarshalDoc` | js_marshal.c:31-305 | the explicit-stack walk writes exactly the image of the tree unless it takes the overflow exit, which it does not when the size given covers the tree |
| `MarshalDoc.Marshaler.MarshalSized` | js_marshal.c:31-480 | with the size from calcSize the overflow exit is unreachable for trees without vt_key, the bytes taken equal that size, the regions are disjoint, and the bytes of the buffer read back as the tree with its arrays emptied |
| `MarshalBytes.OctetsFit` | js_marshal.c:14-27 | the bytes written for a record, count, 16-byte slots, 32-byte pairs, table entries in their width, and string bytes with their length and end, are as many as its region has |
| `MarshalBytes.RecordStands` | js_marshal.c:31-305 | every byte of every record stands in the buffer, none written over and none behind the final offset |
| `MarshalBytes.EntryRead` | js_object.c:137-176 | hashEntry at an entry of the table, by its width, gives the pair number stored there |
| `MarshalBytes.TableRead` | js_marshal.c:186-251 | the entries of a marshaled object, read by address, are those that its lookups go by |
| `MarshalBytes.BytesRoundTrip` | js_marshal.c:14-305 | reading the buffer byte by byte through the offsets in its slots gives the tree with its arrays emptied, and the tree itself exactly when no array has elements |
| `MarshalWalk.FinishIgnoresVal` | js_marshal.c:86-251 | the outcome of the rest of the walk does not depend on a stale `val` |
| `BtreePages.FindSlot` | oldjsdb/jsdb_dbbtreeutil.c:484-518 | the least slot at or above the key; 0 exactly when all keys are below it and there is a right sibling |
| `BtreePages.NextLive` | oldjsdb/jsdb_dbbtreeutil.c:588-612 | the first slot from here on that is not a librarian |
| `BtreePages.FoundSplits` | oldjsdb/jsdb_dbbtreeutil.c:484-518 | the slot found stands where the key belongs among the entries |
| `BtreeInsertSlot.InsertSlot` | oldjsdb/jsdb_dbbtreeinsert.c:74-124 | the page stays sorted, each librarian shares its successor's key, slots stay below the keys, and the entries are the old ones with the new one where it belongs |
| `BtreeInsertSlot.InsertedSorted` | oldjsdb/jsdb_dbbtreeinsert.c:93-124 | shifting the slots over the librarian keeps the page sorted |
| `BtreeInsertSlot.InsertedOk` | oldjsdb/jsdb_dbbtreeinsert.c:74-124 | the same for layout and entries |
| `BtreeSplit.CopyLive` | oldjsdb/jsdb_dbbtreeutil.c:137-195 | a copy loop lays out exactly the live slots of its stretch, each with a librarian before it |
| `BtreeSplit.LaidOk` | oldjsdb/jsdb_dbbtreeutil.c:137-276 | a page laid out from fewer live slots than fit is a proper page with exactly those entries |
| `BtreeSplit.LowerHalf` | oldjsdb/jsdb_dbbtreeutil.c:227-276 | the lower half is not empty exactly when the page can be split |
| `BtreeSplit.Halve` | oldjsdb/jsdb_dbbtreeutil.c:105-276 | left entries followed by right entries are the entries before, laid out slot by slot; neither half has more slots than the page had, so both fit |
| `BtreeSplit.HalvesMarked` | oldjsdb/jsdb_dbbtreeutil.c:137-276 | the upper half keeps the stopper slot and its empty key, the lower half has none |
| `BtreeTree.LoadPage` | oldjsdb/jsdb_dbbtreeutil.c:523-617 | descending by fences and sliding right reaches the page of the level that owns the key, in every sound tree |
| `BtreeTree.OwnerOnce` | oldjsdb/jsdb_dbbtreeutil.c:523-617 | a key has one owner on each level |
| `BtreeStages.HeldOnce` | oldjsdb/jsdb_dbbtreeutil.c:523-617 | and stands there once, with one length |
| `BtreeTree.SlideRight` | oldjsdb/jsdb_dbbtreeutil.c:588-612 | a search above the fence finds a right sibling that begins below the key |
| `BtreeLink.LinkSound` | oldjsdb/jsdb_dbbtreeutil.c:197-276 | with the right page linked and no fence posted yet, the tree is searchable |
| `BtreeLink.LinkOwnStage` | oldjsdb/jsdb_dbbtreeutil.c:197-276 | the level then waits for its two fences |
| `BtreeLink.LinkStages` | oldjsdb/jsdb_dbbtreeutil.c:197-276 | and all other levels stay as far as they were |
| `BtreeLink.LinkCells` | oldjsdb/jsdb_dbbtreeutil.c:197-276 | linking changes no stored key and no length of one |
| `BtreePost.PostSound` | oldjsdb/jsdb_dbbtreeutil.c:274-325 | with the left fence inserted the tree is searchable |
| `BtreePost.PostStage` | oldjsdb/jsdb_dbbtreeutil.c:274-325 | and the level waits for the right fence |
| `BtreePost.LinkedEntry` | oldjsdb/jsdb_dbbtreeutil.c:274-325 | the entry that owns the fence of the split page leads to that page |
| `BtreeFix.FixSound` | oldjsdb/jsdb_dbbtreeinsert.c:40-68 | with the right fence repointed the tree is searchable |
| `BtreeFix.FixStage` | oldjsdb/jsdb_dbbtreeinsert.c:40-68 | and every entry above the level stands for its child's range again |
| `BtreeRoot.SplitSound` | oldjsdb/jsdb_dbbtreeutil.c:32-100 | splitting the root keeps the tree searchable |
| `BtreeRoot.SplitCells` | oldjsdb/jsdb_dbbtreeutil.c:32-100 | and all keys with their lengths as they were |
| `BtreeRoot.RootPageMarked` | oldjsdb/jsdb_dbbtreeutil.c:51-72 | both slots of a new root are of type indexed: from the third level on no slot is a stopper |
| `BtreeRoot.SplitStages` | oldjsdb/jsdb_dbbtreeutil.c:32-100 | and leaves the levels below as far as they were |
| `BtreeInsert.FullIsSplittable` | oldjsdb/jsdb_dbbtreeutil.c:361-369 | with keys of up to 2712 bytes a page without room can be split |
| `BtreeInsert.SplittableExactly` | oldjsdb/jsdb_dbbtreeutil.c:227-276 | that every full page with keys of up to `max` bytes can be split holds exactly for `max` up to 2712 |
| `BtreeInsert.FullHasThree` | oldjsdb/jsdb_dbbtreeutil.c:361-369 | a full page has at least three entries |
| `BtreeInsert.FullAndUnsplittable` | oldjsdb/jsdb_dbbtreeutil.c:227-276 | a page with two keys of 2713 bytes can be full and have no lower half |
| `BtreeInsert.SplitGetsStuck` | oldjsdb/jsdb_dbbtreeutil.c:105-276 | the split of a page with a small key and two keys of 2713 bytes makes such a page |
| `BtreeInsert.LeafDone` | oldjsdb/jsdb_dbbtreeinsert.c:6-36 | a leaf takes a key: the stored keys, each with its length, are those before and this one |
| `BtreeHeight.LinkCeiling` | oldjsdb/jsdb_dbbtreeutil.c:105-330 | the height that the tree can ever reach by splits is bounded: linking a right page lowers the bound by what posting its fence may raise it |
| `BtreeHeight.RootCeiling` | oldjsdb/jsdb_dbbtreeutil.c:32-100 | a root split raises the tree but not the bound |
| `BtreeHeight.OwnerShrinks` | oldjsdb/jsdb_dbbtreeinsert.c:16-33 | after a split the page that owns the key has fewer entries than before, so the retry loop ends |
| `BtreeIndex.SearchDecides` | oldjsdb/jsdb_dbbtreeutil.c:523-617 | the entry that the search finds on the leaves has the key if and only if the key is stored |
| `BtreeIndex.InitSound` | oldjsdb/jsdb_dbbtree.c:43-100 | the initial tree is searchable and empty |
| `BtreeIndex.Btree.constructor` | oldjsdb/jsdb_dbbtree.c:43-100 | btreeInit gives that tree |
| `BtreeIndex.LoadStopper` | oldjsdb/jsdb_dbbtreeutil.c:523-617 | asked for the stopper, the descent ends in the rightmost page of the level |
| `BtreeInsertSlot.InsertedMarked` | oldjsdb/jsdb_dbbtreeinsert.c:74-124 | an insertion leaves the stopper slot where it is |
| `BtreeSpill.EmptyOwner` | oldjsdb/jsdb_dbbtreeutil.c:437-480 | the empty key compares above nothing: the search for it ends at the first entry of the leftmost page |
| `BtreeSpill.Misplaced` | oldjsdb/jsdb_dbbtreeinsert.c:40-68 | with that entry repointed to a page that has a left sibling, no assignment of key ranges makes the tree searchable |
| `BtreeSpill.OwnerOverflows` | oldjsdb/jsdb_dbbtreeinsert.c:6-36 | whether an insertion overflows is decided by the page that owns the key: no room there, and it is a rightmost page from level 2 on below the root, or the fence of its split overflows one level up |
| `BtreeSpill.LowRootHolds` | oldjsdb/jsdb_dbbtreeutil.c:105-330 | in a tree whose root is on level 2 or below no key overflows |
| `BtreeSpill.NarrowHalves` | oldjsdb/jsdb_dbbtreeutil.c:105-276 | a full page of keys of up to 41 bytes has room on both sides of its split |
| `BtreeSpill.NarrowOnce` | oldjsdb/jsdb_dbbtreeinsert.c:6-36 | in a tree with leaf keys of up to 33 bytes and fences of up to 41 no page is split twice for one key |
| `BtreeOverflow.OverflowCase` | oldjsdb/jsdb_dbbtreeutil.c:105-330 | a tree of ten pages that satisfies all that insertions need, and in which the next insertion overflows |
| `BtreeIndex.StopperSlot` | oldjsdb/jsdb_dbbtreeutil.c:137-175 | on marked pages the last slot is a stopper exactly on rightmost pages of the two lowest levels |
| `BtreeIndex.WrongFence` | oldjsdb/jsdb_dbbtreeinsert.c:40-68 | the entry that btreeFixKey repoints for a rightmost page from level 2 on is a wrong one, and the tree is no longer searchable |
| `BtreeIndex.Btree.InsertFence` | oldjsdb/jsdb_dbbtreeinsert.c:6-36 | the fence is posted with its length on the level above, after as many splits there as it takes, and the retry loop ends; a split there that misplaces a fence ends it: always if the fence overflows, and never if it does not and no page is split twice |
| `BtreeIndex.Btree.FixKey` | oldjsdb/jsdb_dbbtreeinsert.c:40-68 | the split becomes complete exactly when the right page has a right sibling or its last slot is a stopper; otherwise the tree is no longer searchable, though the leaves keep their keys and lengths |
| `BtreeIndex.Btree.SplitPage` | oldjsdb/jsdb_dbbtreeutil.c:105-330 | a full page is split with both fences posted, the stored keys and their lengths unchanged, every level exact again, and both halves smaller; or a fence was misplaced and the tree is no longer searchable, always if the page spills, and never if it does not and no page further up is split twice |
| `BtreeIndex.Btree.InsertKey` | oldjsdb/jsdb_dbbtreeinsert.c:6-36 | the stored keys, each with the bytes it takes, are those before and this one and the leaves are exact again; or a fence was misplaced, and the leaves hold the keys they held but the tree is no longer searchable: always if the key overflows, never if the root is on level 2 or below afterwards, never if the key does not overflow and no page is split twice for it; with keys of up to 33 bytes from the empty tree on, exactly if the key overflows; the retry loop and the splits up the tree end |
| `FrameAllocator.Allocator.AllocObj` | oldjsdb/jsdb_dbarena.c:311-340 | the address was not live and now begins a block of its own, apart from the blocks of all live objects and from all frames and below the end of what was allocated; in a list whose stock is for this size the block is the size rounded up to eight bytes, and the list stays so; every other list and live object is as it was |
| `FrameAllocator.Allocator.GetNodeFromFrame` | oldjsdb/jsdb_dbframe.c:205-227 | the address comes out of its list and was not live; 0 exactly when the list has run dry; emptied frames go back to the free list, and all together hold what they held |
| `FrameAllocator.Allocator.AddSlotToFrame` | oldjsdb/jsdb_dbframe.c:133-169 | a freed address moves from the live objects into its list; every other list as it was; all together hold what they held, apart from what allocFrame adds and drops |
| `FrameAllocator.Allocator.ReturnFreeFrame` | oldjsdb/jsdb_dbframe.c:106-129 | an emptied frame is held again; all object lists as they were |
| `FrameAllocator.Allocator.GetFreeFrame` | oldjsdb/jsdb_dbframe.c:174-200 | a frame that is in no list any more, with everything else still held; 0 exactly when the free list is dry |
| `FrameAllocator.Allocator.AllocFrame` | oldjsdb/jsdb_dbframe.c:83-102 | what lists and live objects hold afterwards, with the frame handed out and the dropped head, is what they held before and the new block; a frame is lost exactly when the free list has an empty head and no other frame, and it is that head |
| `FrameAllocator.Allocator.InitFreeFrame` | oldjsdb/jsdb_dbframe.c:51-79 | a block of new frames takes the place of all that the free list held |
| `FrameAllocator.Allocator.InitObjFrame` | oldjsdb/jsdb_dbframe.c:10-46 | a dry list is filled with exactly the batch of new objects, each with a block of the given size, every other list as it was |
| `FrameAllocator.Allocator.constructor` | oldjsdb/jsdb_dbframe.c:10-46 | all lists are empty |
| `FrameStore.ReturnSound` | oldjsdb/jsdb_dbframe.c:106-129 | what all lists and live objects hold together gains exactly the frame given back, and every non-head frame is full |
| `FrameStore.TakeSound` | oldjsdb/jsdb_dbframe.c:174-200 | and loses exactly the frame taken |
| `FrameAlloc.PutSound` | oldjsdb/jsdb_dbframe.c:133-169 | freeing moves one address from the live objects to the list |
| `FrameAlloc.PushSound` | oldjsdb/jsdb_dbframe.c:133-169 | the same with a new head frame before a full one |
| `FrameAlloc.TakeObject` | oldjsdb/jsdb_dbframe.c:205-227 | the address taken was in no other list and not live |
| `FrameAlloc.DropFrame` | oldjsdb/jsdb_dbframe.c:205-227 | the emptied head frame leaves the list, and the next head is full |
| `FrameFill.FreshSound` | oldjsdb/jsdb_dbframe.c:51-79 | a block of new frames keeps all addresses single, and takes the place of exactly what the free list held |
| `FrameFill.LostExactly` | oldjsdb/jsdb_dbframe.c:51-102 | allocFrame loses a frame exactly when the free list has an empty head and nothing else, and loses that head |
| `FrameAllocator.DrainFrames` | oldjsdb/jsdb_dbframe.c:83-102 | calling allocFrame 64 times from the start leads to such a state |
| `FrameFill.FillSound` | oldjsdb/jsdb_dbframe.c:10-46 | a filled list holds exactly the new objects |
| `FrameFill.ObjectsOnce` | oldjsdb/jsdb_dbframe.c:10-46 | the new object addresses are single and lie inside the new region |
| `FrameFill.BlockOnce` | oldjsdb/jsdb_dbframe.c:51-79 | so do the new frame addresses |
| `FrameRegions.PlacedFrames` | oldjsdb/jsdb_dbframe.c:51-79 | the new frames lie apart from each other and from all frames and objects there were |
| `FrameRegions.PlacedObjects` | oldjsdb/jsdb_dbframe.c:10-46 | the blocks of new objects lie apart from each other and from all frames and objects there were |
| `FrameRegions.OwnBlock` | oldjsdb/jsdb_dbarena.c:311-340 | a live object shares no unit with another object or a frame |
| `Arena.DbArena.constructor` | oldjsdb/jsdb_dbarena.c:204-235 | the first object will lie at the first multiple of eight bytes behind the arena's own data, in a segment of at least the initial and the minimal size |
| `Arena.DbArena.NewSeg` | oldjsdb/jsdb_dbarena.c:258-306 | a segment behind the last one in the file, of the smallest doubling that is large enough, up to the limit |
| `Arena.DbArena.AllocMap` | oldjsdb/jsdb_dbarena.c:378-403 | the object begins where the last one ended, or at the start of a new segment exactly when it does not fit below the ids; it lies in its segment, apart from all other objects and from the ids |
| `Arena.DbArena.AllocDocIds` | oldjsdb/jsdb_dbframe.c:268-308 | 64 more ids of the current or a new segment; everything stays apart exactly when the batch fits between the segment's start and the ids it has |
| `Arena.BatchExactly` | oldjsdb/jsdb_dbframe.c:274-280 | the wrapped test keeps ids off objects exactly when the batch fits |
| `Arena.IdsApart` | oldjsdb/jsdb_dbdocs.c:26-34 | no object overlaps an id slot, and id slots do not overlap |
| `Arena.SegmentsApart` | oldjsdb/jsdb_dbarena.c:258-306 | segments do not overlap in the file |
| `Arena.ObjectAdded` | oldjsdb/jsdb_dbarena.c:378-403 | an object on top of the others keeps all of that |
| `JsonPrint.Conv2Str` | js_values.c:567-590 | the text of a value, quoted when asked for |
| `JsonPrint.ArrayToString` | js_object.c:526-557 | the loop appends the texts of all elements with commas between them |
| `JsonPrint.ObjectToString` | js_object.c:777-827 | the loop appends all names and values, colons and commas |
| `JsonParse.JsonParse` | js_jsonparse.c:43-345 | the character loop with its 64-byte buffer and container stack computes the run of the character machine |
| `JsonRoundTrip.ReadsText` | js_jsonparse.c:249-290 | a string of any length without quote or backslash is read up to its closing quote, through any number of full buffers |
| `JsonRoundTrip.ReadsInt` | js_jsonparse.c:292-334 | the decimal text of a 64-bit integer is read as that integer, its terminator still to read |
| `JsonRoundTrip.ReadsContainer` | js_jsonparse.c:157-233 | the text of a container is read as the container, whatever follows |
| `JsonCounting.ParsedCost` | js_jsonparse.c:43-345 | a parsed value has no more strings and names than the text has pairs of quotes, and no more quotes and backslashes in them than the backslashes of the text pay for |
| `JsonCounting.TextCoins` | js_values.c:567-590 | the printed text has the quotes and backslashes of its strings, and fewer quotes where an own `toString` hides strings |
| `JsonExact.RoundTripExactly` | js_lib.c:96-121 | for any strings and names: parsing the printed text gives the value back exactly for integers and containers in which no string or name has a quote or backslash, no number is infinite, and no object has its own `toString` |
| `JsonExact.QuotesBreakText` | js_values.c:579-587 | a string in an array comes back exactly when it has no quote and no backslash |
| `JsonFaults.FaultExactly` | js_jsonparse.c:222-232 | the parser looks at the last container of an empty stack exactly on the texts in which a comma follows a whole value |
| `JsonSpaces.SpacesSkipped` | js_jsonparse.c:117-122 | spaces, tabs, line feeds and carriage returns between tokens do not change what a text parses to |
| `JsonSpaces.SpaceBreaksNumber` | js_jsonparse.c:292-345 | behind a number they do: the text is refused |
| `JsonExact.ContainerReadsBack` | js_props.c:151-159 | the infinities inside come back exchanged |
| `Decimal.FractionOfDigits` | js_strtod.c:139-141 | reading the digits of an integer below 2^63 gives the integer, in wrapping arithmetic |
| `PairVectors.PutKeeps` | js_object.c:458-489 | storing under a name keeps names unique and all other pairs |
| `BsonRead.BsonRead` | js_bson.c:15-235 | the loop with its stacks of lengths, names and values computes the run of the reader |
| `BsonReader.TurnBalances` | js_bson.c:27-232 | one turn keeps bytes consumed plus bytes left over all open levels, as 32-bit counters |
| `BsonReader.RunBalances` | js_bson.c:15-235 | a successful read took as many bytes as all levels had left, as 32-bit counters |
| `BsonReader.ReadsDeclared` | js_bson.c:15-235 | success means exactly the declared length was read, for any input below 2^32 bytes |
| `BsonRoundTrip.ReadsElement` | js_bson.c:53-232 | an element is read up to its end exactly when its names and levels fit |
| `BsonRoundTrip.ReadsBody` | js_bson.c:34-51 | a document or array is read to its end and goes into the one around it |
| `BsonRoundTrip.RoundTripExactly` | js_bson.c:15-235 | decoding an encoding of a document, with any choice among the codes for text, object ids, binaries and 32-bit, 64-bit and timestamp integers, gives it back and leaves what follows unread, exactly when all names are at most 4096 bytes and at most 1024 levels are open |
| `BsonRoundTrip.Int32Exactly` | js_bson.c:186-198 | a negative 32-bit integer comes out 2^32 higher, any other as it was |
| `BsonRoundTrip.BinaryExactly` | js_bson.c:124-150 | a binary comes out as its bytes exactly if it has any |
| `ArraySort.Sort` | systemObj.js:41-86 | the array is sorted and a permutation of what it was |
| `ArraySort.QSort` | systemObj.js:72-86 | the range is sorted and permuted, the rest of the array untouched |
| `ArraySort.Partition` | systemObj.js:55-70 | the split point lies in (left, right], and no element before it is above one from it on |
| `ArraySort.ScanUp` | systemObj.js:61-62 | the unguarded scan to the right stops inside the range |
| `ArraySort.ScanDown` | systemObj.js:63-64 | so does the one to the left |
| `ArraySort.SplitPoint` | systemObj.js:55-70 | when the scans have passed each other the split point lies inside |

## Left out

Weaker than the source, by member:

- BtreeIndex.Btree.InsertKey: takes a key that is not stored yet, and of at most 2704 bytes with its length prefix: its fence is eight bytes longer, and beyond 2712 bytes pages can be full and impossible to split (SplittableExactly). It stops at the first misplaced fence, where the source goes on in a tree that is no longer searchable. For a key that does not overflow, but for which some page has to be split twice, the result says whether the insertion was complete, and no condition known before does.
- BtreeIndex.Btree.SplitPage: the level must be exact, so two splits pending on one level at a time are not covered.
- ArtInsert.ArtIndex.AppendKeyFld: stops with `long` where the source writes a span of more than 248 bytes, whose length is not read back (SpanLengthExactly); what the tree is then is not modelled.
- ArtIndexKey.IndexKey: key fields arrive as byte strings or as too long; their conversion from values is not modelled, and the unique constraint, whose test for duplicates is always false, is left out.
- ArtCursor.Cursor.NextKey: the stack limit of 4096 ends the listing; AllKeys tells when that happened, which it does not for trees whose labels are shorter than that (MeasuredShallow).
- ArtDocuments.ListDocuments: that all keys are listed is promised for complete keys of up to 2046 steps; with longer ones it depends on how many steps past end nodes the tree has.
- ArtFind.FindNxtFld: the cursor stack that the walk fills on the side is not modelled.
- MarshalDoc.Marshaler.MarshalDoc: the three parallel stacks are one sequence of levels; with 64 or more containers nested, the root included, the source writes idx[64] behind the end of its stack, and that is left out.
- MarshalReadBack.LookupMarshaled: for an object with one pair a missing name is not reported at all.
- BsonRead.BsonRead: an element code without a case goes on with a stale value in the source and is the outcome Fault here, as is a level beyond 1024.
- BsonRoundTrip.RoundTripExactly: documents below 2^31 bytes, with binaries that are not empty and 32-bit integers that are not negative (BinaryExactly, Int32Exactly).
- JsonExact.RoundTripExactly: integers of magnitude below 2^63, and as other immediate values null, booleans, integers, not-a-number and infinities.
- JsonParse.JsonParse: js_strtod of text that is not only digits is a parameter; a file as input is left out.
- FrameAllocator.Allocator.AllocObj: does not model the 32-bit wrap of 64 times the size; segments are one growing region there, and that a list is only used for one object size is up to its callers: the block is promised to be large enough for lists whose stock is of that size.
- Arena.DbArena.AllocDocIds: which document gets which id, and the frame of ids, are left out.
- ArraySort.Sort: the comparison is a parameter and does not change the array.

Not modelled:

- Latches, dead bits, restarts under contention and timestamps of the radix tree, B-tree and frames: those models are sequential, except that a B-tree search may come between any two steps of a split.
- Reclamation of radix nodes and of frames through wait queues; nodes that are unlinked leave the arena. In the source a radix node that takes a byte in place stays linked, and is put on the wait list all the same (`oldjsdb/jsdb_dbartinsert.c:211-221`): all radix tree results hold only while nothing on that list is reclaimed.
- Memory and disk running out, files, mapping of segments, and the limit on their number.
- Byte positions of fields and suffix in the cursor, its limits and start positions, and artPrevKey.
- artDeleteKey, btreeCleanPage's compaction (garbage is always zero), left links of B-tree leaves, and page latches.
- The byte order of B-tree keys: keys are numbers from 0 on there, in the order of the keys, and the stopper's empty key is -1. A stored key of a single byte, which btreeKeyCmp treats like the empty one when it is searched for, has no such number.
- Marshaling of values that are marshaled already, document handles, and cloneArray.
- 32-bit overflow of document sizes, and the layout of the 16 bytes inside a value slot of a marshaled document.
- Escapes and floating-point text in JSON, and values of other types in the printers.
- The BSON writer.
- Reference counting, the interpreter, date parsing, math, TCP, the second lock (`oldjsdb/jsdb_rwlock2.c`), the red-black tree, and the newer database submodule, which is not part of this repository's text.
