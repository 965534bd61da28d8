# TeleCrap and its Lua runtime, verified

A Dafny model of the parts of TeleCrap that are easiest to get wrong, and proofs about it.
TeleCrap is a chat server and client that embeds the Lua 5.4 runtime for its addons.

`dafny verify dfyconfig.toml` checks everything. Each group of files models one component:

- **Garbage collector** (`Gc*.dfy`): the incremental tri-colour collector as a step relation
  interleaved with mutator steps, weakness of tables being read from their metatables; its
  invariant and the theorems over whole runs; a class that carries out the collector's loops and
  refines the relation; a driver that runs it beside a program and proves full collections
  total and exact; and two concrete runs in which a parked all-weak table goes wrong.
- **Tables** (`Table*.dfy`): the node vector with Brent's variation, the array part with its
  size hint, rehashing and the length operator, refined to a plain map over whole runs.
- **Code generator** (`Code*.dfy`): jump lists threaded through the code, short-circuit code,
  negation and final values, proved against the meaning of expressions; the final pass over
  jumps; and both together.
- **Line information** (`LineInfo.dfy`), **sort** (`Sort.dfy`), **expression parser**
  (`Parser.dfy`), **interned strings** (`StringTable.dfy`), **upvalues and to-be-closed
  variables** (`Upvalues.dfy`).
- **Server** (`ServerModel.dfy`, `Server.dfy`): sessions, chats, members and bans driven by
  requests, with an invariant and a statement of what each request may change.
- **Secure channel** (`Wire.dfy`, `Secure.dfy`, `Records.dfy`, `SecureSession.dfy`): exact-length
  loops over a chunked stream, frames, nonces, the packed records of the handshake, the handshake
  and two-party conversations.
- **Lists** (`ListStream.dfy`): countdown replies and the client's cache of a chat history.
- **INI files** (`IniText.dfy`, `Ini.dfy`, `IniFile.dfy`, `IniMeaning.dfy`, `IniMap.dfy`): parser,
  generator, what any file means, and the ordered map.

## Findings

Properties that the code does not have, each with the exact condition under which it does:

- An all-weak table visited during propagation is linked in `allweak` and never visited again in
  that cycle (third-party/lualib-5.4/lgc.c:556-557). `lua_setmetatable` uses the forward barrier
  (third-party/lualib-5.4/lapi.c:948-949), which only acts on black objects, so a white metatable
  given to such a table can be freed while in use (`ParkedMetatableIsFreed`).
  `NothingAccessibleDies` states exactly, on the state before the step, when nothing in use dies.
- When such a table is made stronger afterwards, by another metatable or a change of `__mode`, the
  atomic step still clears it as all-weak (third-party/lualib-5.4/lgc.c:1548-1560) and condemns
  what it now holds strongly (`StrengthenedTableLosesEntry`), as section 2.5.4 of the Lua 5.4
  Reference Manual allows. `AtomicPreservesExactly` gives the exact condition.
- `GetChatInfo` reports an existing direct chat as a group (TeleCrap.Server/src/Backend.cpp:676),
  because the record built by `findDirectChat` leaves the owner zero
  (TeleCrap.Server/src/Database.cpp:294-312): `SameChatTwoKinds` and, exactly, `DoGetChatInfo`.
- Opening a direct chat with oneself or with SYSTEM fails after the chat row was committed and
  leaves an orphan chat behind (TeleCrap.Server/src/Database.cpp:499-500): `CreateDirectChat`,
  `OpenDirect`.
- INI structures that are not read back (TeleCrap.Server/include/ini.h:287-317): a key that ends in
  a backslash in plain mode (ini.h:304-305), and keys that start with a bracket and come with a
  semicolon or closing bracket (ini.h:287-303), besides comment marks and line breaks. `FileExact`
  lists them all.
- A list longer than 2^31 is cut short by the signed 32-bit countdown
  (TeleCrap.Server/src/Backend.cpp:715): `Transfer` says how much of it arrives.

## Model

| member | source | states |
|---|---|---|
| `GcTheorems.NoDanglingReference` | third-party/lualib-5.4/lgc.c:208-241 | In every run of mutator and collector steps from an initial heap that respects the metatable condition, metatables and `__mode` fields changing at any time, everything the program can still reach through any reference is allocated and live: nothing reachable is ever freed. |
| `GcTheorems.RunPreserves` | third-party/lualib-5.4/lgc.c:1585-1645 | Along such a run each collector step leaves every strongly reachable object alive and unchanged, except that an open upvalue may be closed with its value and a weak table may lose entries whose weak part is not strongly reachable; at the atomic step this needs the condition on strengthened tables. |
| `GcTheorems.RunKeepsInv` | third-party/lualib-5.4/lgc.c:208-241 | The tri-colour invariant (no black object refers to a white one, every gray object is in a list, whites are flipped consistently) holds in every state of every such run. |
| `GcTheorems.AtomicPreservesExactly` | third-party/lualib-5.4/lgc.c:556-557 | The atomic step keeps every strongly reachable object, with the entries it must keep, if and only if whatever a strongly reachable table that was parked as all-weak and made stronger afterwards holds by now is reached by the marking on another way. |
| `GcTheorems.SurvivalExact` | third-party/lualib-5.4/lgc.c:1525-1562 | The same for survival alone: no strongly reachable object is condemned if and only if that condition holds before the step. |
| `GcTheorems.ReachedIsMarked` | third-party/lualib-5.4/lgc.c:1525-1562 | The marks after the atomic step are exactly what marking reaches from the marks and roots before it when it skips the parked tables. |
| `GcTheorems.NothingAccessibleDies` | third-party/lualib-5.4/lapi.c:946-949 | Nothing that the program can get hold of is condemned by the atomic step if and only if, in the state before it, marking will reach the metatable of every parked table that stays accessible. |
| `GcCounterexample.StrengthenedTableLosesEntry` | third-party/lualib-5.4/lgc.c:542-560 | A concrete run in which the `__mode` of the metatable of a parked table is removed: the table is strong and on the stack, and the atomic step still drops its entry and condemns the value. |
| `GcTheorems.StepKeepsInv` | third-party/lualib-5.4/lgc.c:208-267 | One step of any kind, of mutator or collector, keeps the invariant; changes of weakness included. |
| `GcCounterexample.ParkedMetatableIsFreed` | third-party/lualib-5.4/lgc.c:542-560 | A concrete run in which a table with a weak metatable is visited during propagation and then gets another, white, metatable without a barrier, and that metatable is freed while the table still refers to it. |
| `GcTheorems.FullCycleExact` | third-party/lualib-5.4/lgc.c:1585-1615 | After a cycle with no mutator step in between, an object is condemned if and only if it is not strongly reachable from the roots. |
| `GcDriver.Interpreter.FullInc` | third-party/lualib-5.4/lgc.c:1710-1722 | A full collection, from whatever phase it starts in, terminates and leaves exactly the strongly reachable objects: weak tables without the entries whose weak parts are gone, upvalues of collected threads closed with their values, everything else unchanged. |
| `GcFull.LeftByTheRules` | third-party/lualib-5.4/lgc.c:446-560 | The objects left by a full collection are the least set that contains the roots and obeys the rules of each kind of object, written out from the heap: in particular what an entry keeps alive when the `__mode` of its table's metatable says weak values, ephemeron, all weak or nothing. |
| `GcFull.EntriesLeft` | third-party/lualib-5.4/lgc.c:446-560 | The entries left by a full collection: with weak values exactly those whose value is left, in an ephemeron exactly those whose key is left, their values being left too, in an all-weak table exactly those of which both are left, and in any other table all. |
| `GcFull.ObjectsLeft` | third-party/lualib-5.4/lgc.c:765-785 | All objects but tables are left unchanged, except that an open upvalue of a collected thread is closed with the value of its stack slot. |
| `GcFull.AccessibleByTheRules` | third-party/lualib-5.4/lgc.c:629-655 | What the program can get hold of, as the set closed under rules written out from the heap, in which weakness plays no role. |
| `GcFull.RulesAreClosure` | third-party/lualib-5.4/lgc.c:446-560 | The closed sets behind strong reachability are exactly those that obey the rules of each kind of object. |
| `GcFull.FullCollection` | third-party/lualib-5.4/lgc.c:1710-1722 | The same for any pending sweep followed by a new cycle and its sweep. |
| `GcFull.NewCycle` | third-party/lualib-5.4/lgc.c:1715-1717 | A cycle that goes straight to the atomic phase keeps exactly the strongly reachable objects. |
| `GcFull.SweepStretch` | third-party/lualib-5.4/lgc.c:824-845 | Any stretch of the sweep only drops dead objects and closes the upvalues of dead threads. |
| `GcFull.SameStrong` | third-party/lualib-5.4/lgc.c:765-785 | Freeing dead objects changes nothing about what is strongly reachable. |
| `GcDriver.Interpreter.RunTil` | third-party/lualib-5.4/lgc.c:1652-1656 | Repeated single steps reach any phase, from any phase, in finitely many steps. |
| `GcDriver.Interpreter.CollectorStep` | third-party/lualib-5.4/lgc.c:1585-1645 | A call of `singlestep` extends the recorded run by collector steps and makes progress: a new phase, a new mark, or one object less to do. |
| `GcDriver.Interpreter.Mutate` | third-party/lualib-5.4/lgc.c:208-267 | Every mutator operation, carried out with the barrier the code uses, extends the recorded run by its step. |
| `GcDriver.Interpreter.Safe` | third-party/lualib-5.4/lgc.c:208-241 | Whatever the order of mutator operations, single steps and full collections, everything the program can reach is allocated and live. |
| `GcTheorems.CollectorPreserves` | third-party/lualib-5.4/lgc.c:824-845 | A single collector step neither condemns nor changes what is strongly reachable, under the same condition. |
| `GcTheorems.StoreKeepsInv` | third-party/lualib-5.4/lgc.c:208-241 | Stores into records, userdata, tables and metatables keep the invariant, with the forward or backward barrier each uses, also when they change the weakness of tables. |
| `GcTheorems.UpvalueKeepsInv` | third-party/lualib-5.4/lvm.c:1246-1252 | Assigning through an open or closed upvalue with its barrier keeps the invariant. |
| `GcTheorems.NewObjectKeepsInv` | third-party/lualib-5.4/lgc.c:253-267 | Allocating an object in the current white keeps the invariant in every phase. |
| `GcTheorems.SetStackKeepsInv` | third-party/lualib-5.4/lgc.c:629-655 | Writing to a stack without a barrier keeps the invariant, since threads are never black between steps. |
| `GcTheorems.InternKeepsInv` | third-party/lualib-5.4/lstring.c:196-202 | Resurrecting a dead interned string keeps the invariant. |
| `GcTheorems.CollectKeepsInv` | third-party/lualib-5.4/lgc.c:1525-1645 | Every collector step other than the sweep of an object keeps the invariant. |
| `GcSafety.CloseKeepsInv` | third-party/lualib-5.4/lfunc.c:193-208 | Closing the upvalues of a thread keeps the invariant, whatever the colour of each. |
| `GcSafety.SweepKeepsInv` | third-party/lualib-5.4/lgc.c:824-845 | Freeing one dead object or whitening one survivor keeps the invariant. |
| `GcSafety.PropagateKeepsInv` | third-party/lualib-5.4/lgc.c:660-674 | Traversing one gray object keeps the invariant. |
| `GcSafety.AtomicKeepsInv` | third-party/lualib-5.4/lgc.c:1525-1562 | The atomic step, clearing by the lists it built, establishes the invariant of the sweep, whatever the weakness of the parked tables is by then. |
| `GcSafety.RestartKeepsInv` | third-party/lualib-5.4/lgc.c:403-413 | Restarting a cycle by marking the roots keeps the invariant. |
| `GcCollector.Collector.ReallyMark` | third-party/lualib-5.4/lgc.c:297-329 | Marks exactly objects reachable from its argument through upvalues and userdata, painting each kind as the table in the source says and linking the rest as gray. |
| `GcCollector.Collector.RestartCollection` | third-party/lualib-5.4/lgc.c:403-413 | Clears the gray lists and marks the roots: the restart step of the relation. |
| `GcCollector.Collector.TraverseEphemeron` | third-party/lualib-5.4/lgc.c:480-520 | Visits every entry once, marking values of marked keys, and classifies the table by what remains to clear or to revisit. |
| `GcCollector.Collector.TraverseWeakValue` | third-party/lualib-5.4/lgc.c:446-465 | Marks the metatable and the keys of a weak-value table, and links it for clearing. |
| `GcCollector.Collector.Traverse` | third-party/lualib-5.4/lgc.c:542-563 | Traversal of any gray object marks what its kind requires, for a table by the weakness read from its metatable, and nothing outside what it reaches. |
| `GcCollector.Collector.PropagateMark` | third-party/lualib-5.4/lgc.c:660-674 | One step of propagation: the object leaves `gray`, its references are marked, and it is relinked if it must be seen again. |
| `GcCollector.Collector.PropagateAll` | third-party/lualib-5.4/lgc.c:676-681 | Propagation until `gray` is empty terminates and leaves every marked object done. |
| `GcCollector.Collector.ConvergeEphemerons` | third-party/lualib-5.4/lgc.c:691-713 | Terminates, and on exit no ephemeron table has an entry whose key is marked and whose value is not. |
| `GcCollector.Collector.ConvergeRound` | third-party/lualib-5.4/lgc.c:691-713 | One round either marks something new or leaves all ephemeron tables converged. |
| `GcCollector.Collector.RemarkUpvals` | third-party/lualib-5.4/lgc.c:367-391 | Marks the contents of open upvalues of unmarked threads that are themselves marked, and drops those threads from `twups`. |
| `GcCollector.Collector.ClearTable` | third-party/lualib-5.4/lgc.c:725-757 | Removes exactly the entries whose weak part is cleared, marking strings on the way. |
| `GcCollector.Collector.Atomic` | third-party/lualib-5.4/lgc.c:1525-1562 | The whole atomic phase, loop by loop, refines the atomic step of the relation. |
| `GcCollector.Collector.FreeObject` | third-party/lualib-5.4/lgc.c:765-785 | Freeing a thread first closes its upvalues, each with its barrier. |
| `GcCollector.Collector.SweepObject` | third-party/lualib-5.4/lgc.c:824-845 | One iteration of the sweep is the sweep step of the relation. |
| `GcCollector.Collector.SingleStep` | third-party/lualib-5.4/lgc.c:1585-1645 | Each call is one collector step of the relation, or sweeps a hundred objects or all that are left. |
| `GcCollector.Collector.NewObject` | third-party/lualib-5.4/lgc.c:253-267 | A new object gets the current white. |
| `GcCollector.Collector.Barrier` | third-party/lualib-5.4/lgc.c:208-229 | Marks the white object in the marking phases, and whitens the black one in the sweep. |
| `GcCollector.Collector.BarrierBack` | third-party/lualib-5.4/lgc.c:230-241 | Turns a black table gray again and links it for a second visit. |
| `GcAtomic.ClearedClosed` | third-party/lualib-5.4/lgc.c:1548-1560 | After clearing, the marked set is closed under every reference that a traversal follows, and the parked tables keep their strings. |
| `GcAtomic.ClearedWithin` | third-party/lualib-5.4/lgc.c:1548-1560 | Clearing marks nothing that was not reachable, but strings held by weak tables. |
| `GcAtomic.ClearedEntries` | third-party/lualib-5.4/lgc.c:1548-1560 | The four passes leave in each marked table exactly the entries its list and weakness call for; a table parked before is cleared by keys and values. |
| `GcMarking.VisitedSettles` | third-party/lualib-5.4/lgc.c:660-681 | A visited object needs no further visit in the atomic phase. |
| `GcMarking.RoundConverged` | third-party/lualib-5.4/lgc.c:691-713 | A round without new marks means that every ephemeron table has converged. |
| `TableRuns.Run` | third-party/lualib-5.4/ltable.c:299-311 | For any hash function and any run of sets (including to nil), gets and length queries, with allocations that may fail, the answers are those of a plain map and the final table stands for the final map. |
| `TableRuns.RunOne` | third-party/lualib-5.4/ltable.c:803-843 | One operation answers as a plain map does, and leaves a table that stands for the updated map. |
| `TableRuns.FloatsAreIntegers` | third-party/lualib-5.4/ltable.c:666-680 | A float with an integral value and that integer are one key, whichever is set and whichever is asked for; nil and NaN are no keys. |
| `LuaTable.Table.Set` | third-party/lualib-5.4/ltable.c:839-843 | The table behaves as a map: exactly the normalized key changes, errors change nothing, nil and NaN keys are refused, and with memory and fewer than 2^30 entries it always succeeds. |
| `LuaTable.Table.Get` | third-party/lualib-5.4/ltable.c:803-819 | The value bound to the normalized key. |
| `LuaTable.Table.NewKey` | third-party/lualib-5.4/ltable.c:666-720 | Inserting a missing key; after a rehash the retried insertion always finds room, so there is never a second rehash. |
| `LuaTable.Table.InsertKey` | third-party/lualib-5.4/ltable.c:680-720 | Binds one key without changing the lookup of any other, or reports that every node is taken. |
| `LuaTable.Table.MoveColliding` | third-party/lualib-5.4/ltable.c:695-707 | A colliding node out of its main position moves to the free node: chains, uniqueness of keys and all other lookups are kept. |
| `LuaTable.Table.ChainNew` | third-party/lualib-5.4/ltable.c:708-716 | A new key is chained after a colliding node that is in its main position, with the same guarantees. |
| `LuaTable.Table.PutInMain` | third-party/lualib-5.4/ltable.c:717-720 | Overwriting a free node or a tombstone in the main position, with the same guarantees. |
| `LuaTable.Table.FindPrevious` | third-party/lualib-5.4/ltable.c:698-699 | The walk along the chain ends at the node before the colliding one. |
| `LuaTable.Table.GetFreePos` | third-party/lualib-5.4/ltable.c:645-654 | The cursor finds a free node, or every node has a key. |
| `LuaTable.Table.GetGeneric` | third-party/lualib-5.4/ltable.c:299-311 | The walk from the main position finds the node of a key exactly when some node holds it, and terminates. |
| `LuaTable.Table.GetInt` | third-party/lualib-5.4/ltable.c:745-767 | The bit-mask search agrees with a plain bounds check for every 64-bit key, and any update of `alimit` keeps the real size recoverable. |
| `LuaTable.Table.RealASize` | third-party/lualib-5.4/ltable.c:250-270 | The size recovered from `alimit` is the real size of the array part. |
| `LuaTable.Table.SetLimitToSize` | third-party/lualib-5.4/ltable.c:283-287 | Afterwards `alimit` is the real size. |
| `LuaTable.Table.Store` | third-party/lualib-5.4/ltable.c:829-834 | Storing into a slot changes one key; storing nil leaves a tombstone. |
| `LuaTable.Table.NewNodeVector` | third-party/lualib-5.4/ltable.c:480-502 | The smallest power of two that fits, an overflow error, or a failed allocation. |
| `LuaTable.Table.InsertSlice` | third-party/lualib-5.4/ltable.c:566-573 | The entries of the vanishing slice of the array are all in the new hash part. |
| `LuaTable.Table.Reinsert` | third-party/lualib-5.4/ltable.c:508-522 | The entries of the old hash part are all in the table again, in either part. |
| `LuaTable.Table.Resize` | third-party/lualib-5.4/ltable.c:555-587 | No entry is lost or changed; a failed allocation leaves both parts as they were. |
| `LuaTable.Table.GrowArray` | third-party/lualib-5.4/ltable.c:590-593 | Growing the array part with the same hash size always has room. |
| `LuaTable.Table.ChooseSizes` | third-party/lualib-5.4/ltable.c:598-616 | The array size is optimal for the keys to come, and the hash size is the number of the other keys. |
| `LuaTable.Table.Rehash` | third-party/lualib-5.4/ltable.c:598-617 | The array part gets the largest power of two that is more than half full, nothing is lost, and the extra key has room. |
| `LuaTable.Table.GetN` | third-party/lualib-5.4/ltable.c:938-983 | The result is a border as section 3.4.7 of the Lua 5.4 Reference Manual defines it, and `alimit` stays valid. |
| `LuaTable.Table.BorderBelow` | third-party/lualib-5.4/ltable.c:940-959 | A border inside the array below an empty last element, kept as a hint only when the real size stays recoverable. |
| `LuaTable.Table.SizeIsPow2` | third-party/lualib-5.4/ltable.c:241-246 | The test on the hint tells whether the real size of the array part is a power of two or zero. |
| `LuaTable.Table.HashSearch` | third-party/lualib-5.4/ltable.c:870-893 | Doubling and then bisecting 64-bit indices ends at a border, the largest integer included. |
| `LuaTable.Table.BinSearch` | third-party/lualib-5.4/ltable.c:896-904 | Bisection ends at a border between a present and an absent index. |
| `TableHash.LookupCorrect` | third-party/lualib-5.4/ltable.c:299-311 | In a valid hash part the walk from the main position finds a key exactly when some node holds it. |
| `TableHash.PutMoveFrame` | third-party/lualib-5.4/ltable.c:695-707 | Moving a colliding node keeps the invariant of the hash part and every other binding. |
| `TableHash.PutChainFrame` | third-party/lualib-5.4/ltable.c:708-716 | Chaining a new node keeps the invariant of the hash part and every other binding. |
| `TableHash.PutFreeFrame` | third-party/lualib-5.4/ltable.c:717-720 | Overwriting a tombstone keeps the invariant of the hash part and every other binding. |
| `TableHash.MovedReach` | third-party/lualib-5.4/ltable.c:695-707 | Every element stays reachable from its main position after a move. |
| `TableHash.HasFreeNode` | third-party/lualib-5.4/ltable.c:645-654 | Fewer keys than nodes means that some node is free. |
| `TableBits.SmearRecovers` | third-party/lualib-5.4/ltable.c:254-268 | The shifts recover the power of two from any hint above half of it. |
| `TableBits.MaskTestCorrect` | third-party/lualib-5.4/ltable.c:726-750 | The mask test is a bounds check against the real size, for every unsigned 64-bit key. |
| `TableBits.Pow2TestCorrect` | third-party/lualib-5.4/ltable.c:241-246 | The bit test recognizes exactly zero and the powers of two. |
| `TableSizes.ComputeSizes` | third-party/lualib-5.4/ltable.c:391-411 | The largest power of two with more than half of its slots in use, and the number of keys that go there; the unsigned wrap-around ends the loop. |
| `TableSizes.CeilLog2` | third-party/lualib-5.4/lobject.c:35-50 | The exponent of the smallest power of two not below the argument. |
| `TableContents.NumUseArray` | third-party/lualib-5.4/ltable.c:429-453 | Counts the entries of the array part by slices of powers of two. |
| `TableContents.NumUseHash` | third-party/lualib-5.4/ltable.c:456-470 | Adds the integer candidates of the hash part to the counts, and counts all its entries. |
| `TableContents.CountInt` | third-party/lualib-5.4/ltable.c:413-421 | Counts a key in its slice exactly when it can be an array index. |
| `TableContents.OutsideSize` | third-party/lualib-5.4/ltable.c:598-616 | Every key goes to the array part or stays in the hash part. |
| `LineInfo.FuncState.SaveLineInfo` | third-party/lualib-5.4/lcode.c:330-345 | The table describes one more instruction with the given line, absolute entries staying dense. |
| `LineInfo.FuncState.RemoveLastLineInfo` | third-party/lualib-5.4/lcode.c:354-367 | The information of the last instruction is gone, in a state from which a new one can be saved. |
| `LineInfo.FuncState.FixLine` | third-party/lualib-5.4/lcode.c:1787-1790 | Exactly the line of the last instruction changes. |
| `LineInfo.EstimateIsLow` | third-party/lualib-5.4/ldebug.c:63-80 | The estimate of the base index is a lower bound of the right one. |
| `LineInfo.GetBaseLine` | third-party/lualib-5.4/ldebug.c:63-80 | The nearest base at or before the instruction, with no absolute information after it. |
| `LineInfo.GetFuncLine` | third-party/lualib-5.4/ldebug.c:86-98 | Exactly the line saved for the instruction, or -1 without debug information. |
| `LineInfo.ChangedLine` | third-party/lualib-5.4/ldebug.c:873-891 | Agrees with comparing the two lines. |
| `LineInfo.Compile` | third-party/lualib-5.4/lcode.c:373-391 | For every sequence of emissions, line changes and removals at once followed by an emission, the table describes exactly the lines of the reference. |
| `Sort.TableSort` | third-party/lualib-5.4/ltablib.c:399-409 | For any comparator the array ends as a permutation; for a strict weak order it ends sorted and no error is raised; nested calls are at most logarithmic; too long arrays are refused. |
| `Sort.Sorter.AuxSort` | third-party/lualib-5.4/ltablib.c:345-396 | Sorts an interval, permutes it for any comparator, and nests at most the logarithm of its length. |
| `Sort.Sorter.SortSmaller` | third-party/lualib-5.4/ltablib.c:381-391 | The recursive call on the smaller side leaves a smaller window for the loop. |
| `Sort.Sorter.Divide` | third-party/lualib-5.4/ltablib.c:347-380 | One round leaves the interval sorted or split at the pivot. |
| `Sort.Sorter.Partition` | third-party/lualib-5.4/ltablib.c:298-327 | Indices stay in range for any comparator; for a strict weak order the result splits the interval and no error is raised. |
| `Sort.Sorter.ScanUp` | third-party/lualib-5.4/ltablib.c:304-309 | The scan stops at or before the pivot. |
| `Sort.Sorter.ScanDown` | third-party/lualib-5.4/ltablib.c:312-316 | The scan stops inside the interval, at the first element not above the pivot. |
| `Sort.ChoosePivot` | third-party/lualib-5.4/ltablib.c:334-339 | The pivot is in the second or third quarter. |
| `Parser.RoundTrip` | third-party/lualib-5.4/lparser.c:1194-1291 | Printing an expression with the parentheses the priority table requires and parsing the tokens gives the same tree back; this fails exactly when the text nests deeper than the limit, or ends in a parenthesis and what follows opens a suffix. |
| `Parser.SubSound` | third-party/lualib-5.4/lparser.c:1259-1284 | What is parsed is what was written, grouped by the priorities, within the room, and followed by nothing that the parser would have taken. |
| `Parser.SubComplete` | third-party/lualib-5.4/lparser.c:1259-1284 | Every text grouped by the priorities is parsed to itself, overflows the nesting limit or is followed by a suffix, exactly as its depth and its end say. |
| `Parser.Unambiguous` | third-party/lualib-5.4/lparser.c:1235-1251 | A token sequence groups in one way only. |
| `Parser.Precedence` | third-party/lualib-5.4/lparser.c:1235-1251 | Two binary operators in a row group exactly as section 3.4.8 of the Lua 5.4 Reference Manual orders them, right associativity of `..` and `^` included. |
| `Parser.PrefixPrecedence` | third-party/lualib-5.4/lparser.c:1253-1269 | A prefix operator binds tighter than every binary operator but `^`. |
| `Parser.PrintIsShortest` | third-party/lualib-5.4/lparser.c:1235-1251 | Any text that parses is at least as long as the printing of what it parses to, and the printing parses in the same room. |
| `Parser.LexState.SubExpr` | third-party/lualib-5.4/lparser.c:1259-1284 | The loop over operators with its recursive calls computes the parser function on the tokens from the current position. |
| `Parser.LexState.Operators` | third-party/lualib-5.4/lparser.c:1271-1282 | The operator loop, with the operator handed back by the recursive call. |
| `Parser.LexState.HeadExpr` | third-party/lualib-5.4/lparser.c:1262-1270 | Prefix operators and simple or parenthesized expressions; a suffix after a parenthesis is recognized. |
| `Parser.ParsePrinted` | third-party/lualib-5.4/lparser.c:1287-1289 | Parsing a printed expression gives it back, unless it nests too deep for the level it starts at or a suffix follows its last parenthesis. |
| `Parser.ParseOperator` | third-party/lualib-5.4/lparser.c:1205-1230 | Parsing an operand, an operator token and an operand gives the tree of that operator, for each of the 21 tokens as written. |
| `Parser.ParsePrefix` | third-party/lualib-5.4/lparser.c:1194-1202 | Parsing one of the four prefix tokens and an operand gives the tree of that operator. |
| `Parser.OperatorTokens` | third-party/lualib-5.4/lparser.c:1205-1230 | The parser function reads each of the 21 binary operator tokens as its operator. |
| `Parser.PrefixTokens` | third-party/lualib-5.4/lparser.c:1194-1202 | The parser function reads each of the four prefix tokens as its operator. |
| `Parser.PrecedenceOfTokens` | third-party/lualib-5.4/lparser.c:1235-1251 | Three operands with any two operator tokens, as written, group as the levels of section 3.4.8 of the Lua 5.4 Reference Manual say. |
| `Parser.PrefixOfTokens` | third-party/lualib-5.4/lparser.c:1253-1269 | A prefix token, an operand, an operator token and an operand: the prefix operator binds tighter than every operator but `^`. |
| `Parser.GetBinOpr` | third-party/lualib-5.4/lparser.c:1205-1230 | Each binary operator has one token and each such token one operator. |
| `Parser.GetUnOpr` | third-party/lualib-5.4/lparser.c:1194-1202 | Each prefix operator has one token and each such token one operator. |
| `CodeGen.FuncState.CompileToNextReg` | third-party/lualib-5.4/lcode.c:944-949 | For every expression of constants, variables, comparisons of any such expressions, `and`, `or` and `not`, and every environment, running the emitted code leaves the value of the expression in the target register and no lower register changed; earlier code is untouched. |
| `CodeGen.FuncState.Expr` | third-party/lualib-5.4/lcode.c:1616-1648 | The descriptor and jump lists describe the value of the expression: a run falls through with it, or leaves by a list whose test carries it. |
| `CodeGen.FuncState.AndExpr` | third-party/lualib-5.4/lcode.c:1706-1713 | The second operand is coded after going through the first, and their false lists are joined. |
| `CodeGen.FuncState.OrExpr` | third-party/lualib-5.4/lcode.c:1714-1719 | The second operand is coded after going through the first, and their true lists are joined. |
| `CodeGen.FuncState.CompareExpr` | third-party/lualib-5.4/lcode.c:1553-1579 | Both operands, jumps and all, are put in registers in order and are free again after the test; the descriptor of the test denotes the comparison, operands swapped or not. |
| `CodeGen.FuncState.ToAnyReg` | third-party/lualib-5.4/lcode.c:956-971 | The value of the expression is in the returned register: a local without jumps stays where it is, anything else goes to the next register. |
| `CodeKinds.CompareSound` | third-party/lualib-5.4/lcode.c:1553-1579 | The code of two operands in sequence and a test on their registers denotes the comparison. |
| `CodeGen.FuncState.GoIfTrue` | third-party/lualib-5.4/lcode.c:1135-1157 | The code goes through exactly when the value is true, and otherwise leaves by the returned list, whose tests carry the value. |
| `CodeGen.FuncState.GoIfFalse` | third-party/lualib-5.4/lcode.c:1162-1182 | The code goes through exactly when the value is false, and otherwise leaves by the returned list, whose tests carry the value. |
| `CodeGen.FuncState.JumpOnCond` | third-party/lualib-5.4/lcode.c:1117-1129 | The new jump is taken exactly when the value is the condition, also when a `not` is removed and its operand tested instead. |
| `CodeGen.FuncState.CodeNot` | third-party/lualib-5.4/lcode.c:1188-1215 | The descriptor and the swapped lists describe the negated value; constants become the other truth value without an instruction. |
| `CodeGen.FuncState.Exp2Reg` | third-party/lualib-5.4/lcode.c:916-938 | After patching both lists, every run ends at the end of the code with the value in the register. |
| `CodeGen.FuncState.Discharge2Reg` | third-party/lualib-5.4/lcode.c:827-872 | The value of any descriptor but a pending comparison is in the register. |
| `CodeGen.FuncState.DischargeVars` | third-party/lualib-5.4/lcode.c:773-818 | Variables become registers or relocatable instructions with the same value. |
| `CodeGen.FuncState.Concat` | third-party/lualib-5.4/lcode.c:182-193 | Concatenating jump lists denotes list append; only the last jump of the first list changes. |
| `CodeGen.FuncState.PatchListAux` | third-party/lualib-5.4/lcode.c:290-300 | Exactly the jumps of the list and their tests are patched, each to the target its test calls for. |
| `CodeGen.FuncState.PatchTestReg` | third-party/lualib-5.4/lcode.c:260-273 | A TESTSET gets the register or becomes a TEST; other instructions are left alone. |
| `CodeGen.FuncState.RemoveValues` | third-party/lualib-5.4/lcode.c:278-282 | No test of the list produces a value any more, and nothing else changes. |
| `CodeGen.FuncState.NeedValue` | third-party/lualib-5.4/lcode.c:900-906 | True exactly when some jump of the list carries no value. |
| `CodeLists.ConcatAppends` | third-party/lualib-5.4/lcode.c:182-193 | Linking the end of one list to the head of another gives the appended list. |
| `CodeLists.PatchOne` | third-party/lualib-5.4/lcode.c:290-300 | Patching a list is patching its jumps one by one. |
| `CodeMachine.ExecPatched` | third-party/lualib-5.4/lcode.c:290-300 | Two codes that differ only on pending jumps run alike up to those jumps. |
| `CodeBranch.CloseThrough` | third-party/lualib-5.4/lcode.c:1154-1156 | Joining a jump to one list and bringing the other here leaves code that goes through exactly when it should. |
| `CodeBranch.Compose` | third-party/lualib-5.4/lcode.c:1706-1719 | The code of two operands in sequence, with their lists joined, denotes the short-circuit operator. |
| `CodeValue.NotSound` | third-party/lualib-5.4/lcode.c:1188-1215 | Swapping lists whose tests carry no value denotes negation. |
| `CodeValue.FinishedRuns` | third-party/lualib-5.4/lcode.c:916-938 | Every jump of the finished code puts the right value in the register. |
| `CodeFinish.Finish` | third-party/lualib-5.4/lcode.c:1847-1875 | Each jump is retargeted, in place, to a later point of its original chain, which is no jump unless a hundred were followed; OP_RETURN0 and OP_RETURN1 stay exactly when upvalues need no closing and the function takes a fixed number of arguments, and become OP_RETURN otherwise; every return and tail call closes upvalues if the function needs it and has C set to the number of parameters plus one if it is vararg; all else is unchanged. |
| `CodeFinish.FinalTarget` | third-party/lualib-5.4/lcode.c:1830-1840 | At least one and at most a hundred jumps are followed along the chain. |
| `CodeFinish.SettlesAlike` | third-party/lualib-5.4/lcode.c:1830-1875 | Every chain of jumps ends at the same point before and after the pass, or ends in neither code. |
| `CodeFinish.ResumesAlike` | third-party/lualib-5.4/lcode.c:1830-1875 | For any meaning of the other instructions and any number of steps, the finished code visits the same points in the same states. |
| `CodeWhole.CompileReturn` | third-party/lualib-5.4/lcode.c:1847-1875 | Compiling an expression, adding a return and finishing the code: in every environment the finished code gets from its start to the return with the value of the expression in the register and no lower register changed. |
| `CodeWhole.Follows` | third-party/lualib-5.4/lcode.c:1830-1875 | A run of the code of an expression is a run of the code of the function around it. |
| `StringTable.Table.Intern` | third-party/lualib-5.4/lstring.c:189-216 | The one object with that content: the old one if there was one, and otherwise a new one in the bucket its hash selects. |
| `StringTable.Table.Remove` | third-party/lualib-5.4/lstring.c:165-172 | Exactly that string leaves the table. |
| `StringTable.Table.Resize` | third-party/lualib-5.4/lstring.c:85-103 | Every string sits in the bucket its hash selects for the new size, none is lost, and a failed reallocation restores the old size. |
| `StringTable.TableRehash` | third-party/lualib-5.4/lstring.c:62-77 | Rehashing in place loses nothing and empties the buckets beyond the new size. |
| `Upvalues.Thread.FindUpval` | third-party/lualib-5.4/lfunc.c:87-99 | One upvalue for each level: the existing one, or a new one at the place that keeps the list strictly descending. |
| `Upvalues.Thread.NewUpval` | third-party/lualib-5.4/lfunc.c:65-80 | The new upvalue is linked at the given place. |
| `Upvalues.Thread.CloseUpval` | third-party/lualib-5.4/lfunc.c:193-208 | Exactly the upvalues at or above the level are closed, and every upvalue keeps its value. |
| `Upvalues.TbcStack.Push` | third-party/lualib-5.4/lfunc.c:168-179 | The variable is added to the list across any distance, with dummy nodes where the delta does not fit. |
| `Upvalues.TbcStack.Pop` | third-party/lualib-5.4/lfunc.c:213-220 | Popping undoes the last push, dummy nodes included. |
| `Upvalues.TbcStack.CloseFrom` | third-party/lualib-5.4/lfunc.c:227-238 | The variables at or above the level are closed, last one first, and the others stay. |
| `Server.RunServer` | TeleCrap.Server/src/Backend.cpp:522-602 | Over every list of connections, disconnections and requests, each with the number of its answers that get through, live sockets being distinct: every state satisfies the invariant (group owners stay members, nobody is member and banned, direct chats are unique with exactly their two users and SYSTEM as members, no two connections are logged in as one user), and each event has its exact effect and reply, contents of lists included, and no other effect. |
| `Server.BanHolds` | TeleCrap.Server/src/Backend.cpp:352-387 | Over every run, whoever is banned from a chat is a member again only after the owner has lifted the ban in between. |
| `Server.SessionsAreEarned` | TeleCrap.Server/src/Backend.cpp:558-602 | Over every run, a connection is logged in as a user only after it has presented that user's name and hash and was answered. |
| `Server.NothingIsLost` | TeleCrap.Server/src/Database.cpp:430-536 | Over every run, accounts, chats with their owners, direct chats and messages are never lost or changed. |
| `Server.DeliveredRequestsSucceed` | TeleCrap.Server/src/Backend.cpp:522-602 | A request whose answer gets through succeeds with its effect whenever its guards hold: registering, logging in, fetching updates, opening a group, and sending a message, which is stored and told to all other members; the owner's command is then carried out, written in the chat in its own words, and told to those concerned. |
| `Server.GroupJoins` | TeleCrap.Server/src/Backend.cpp:900-943 | Asking to join by number or name: a group that does not ban the user is joined, and that is the only change; anything else is refused and changes nothing; a bad number is not answered. |
| `Server.DirectJoins` | TeleCrap.Server/src/Backend.cpp:900-943 | Asking to join by user: an existing direct chat is answered as if joined and nothing changes; otherwise it is refused, and nobody becomes or ceases to be a member of a chat there was. |
| `Server.GroupInfo` | TeleCrap.Server/src/Backend.cpp:655-680 | Asking for a chat by number or name: exactly groups are found, and nothing changes. |
| `Server.DirectInfo` | TeleCrap.Server/src/Backend.cpp:655-680 | Asking for the chat with a user: an existing direct chat is reported as a group; a missing one is created and reported as direct, or refused for oneself and SYSTEM; unknown users are refused. |
| `Server.SentIsRead` | TeleCrap.Server/src/Backend.cpp:682-724 | Over every run, a history that is answered holds every message the chat was sent before, and no message of another chat. |
| `Server.UpdatesWait` | TeleCrap.Server/src/Backend.cpp:604-653 | Over every run, an update waits in its queue until its user is handed all pending updates, this one among them, or drops them. |
| `Server.Serve` | TeleCrap.Server/src/Backend.cpp:407-418 | One event has its effect: exact for connections and disconnections, and for requests what is achieved and what is permitted. |
| `Server.SameChatTwoKinds` | TeleCrap.Server/src/Backend.cpp:676-677 | Asking twice for the direct chat of the same two users, it is reported as direct when it is created and, the same chat, as a group afterwards. |
| `Server.DirectReportedAsGroup` | TeleCrap.Server/src/Backend.cpp:676-677 | A concrete database in which that happens. |
| `Server.Backend.ProcessRequest` | TeleCrap.Server/src/Backend.cpp:522-602 | The invariant is kept, nothing changes but what the request allows to the user the connection is logged in as, and the request has exactly the effect and reply that its guards call for; without a valid token or session, or for requests that only read, nothing changes at all. |
| `Server.Backend.DoLogin` | TeleCrap.Server/src/Backend.cpp:558-602 | A login is granted exactly when some account has the name and hash and no other connection uses it; it takes effect once the answer has got through. |
| `Server.Backend.MayLogIn` | TeleCrap.Server/src/Backend.cpp:578-587 | True exactly when no other connection is logged in as that user. |
| `Server.Backend.DoRegister` | TeleCrap.Server/src/Backend.cpp:534-556 | A registration is granted exactly when the name is free; the new account belongs to the connection once the answer has got through. |
| `Server.Backend.DoGetUpdates` | TeleCrap.Server/src/Backend.cpp:604-653 | The whole queue is sent and emptied exactly when all its answers get through; a failed answer changes nothing; dropping empties it without an answer. |
| `Server.Backend.DoGetChatInfo` | TeleCrap.Server/src/Backend.cpp:655-680 | The answer is what the query finds, and what is found without a SYSTEM owner is reported as a group; for a query naming another user, neither of them SYSTEM, it is their direct chat, reported as direct if and only if there was none before. |
| `Server.Backend.DoGetHistory` | TeleCrap.Server/src/Backend.cpp:682-724 | Whoever asks gets all messages of an existing chat, in order, once all answers get through; a missing chat is refused. |
| `Server.Backend.DoGetMembers` | TeleCrap.Server/src/Backend.cpp:726-778 | Members of a chat, and they alone, get its members, each once and without SYSTEM. |
| `Server.Backend.DoGetChats` | TeleCrap.Server/src/Backend.cpp:780-824 | A user gets all chats it is a member of, each once, direct chats under the name of the other user. |
| `Server.Backend.ChatLine` | TeleCrap.Server/src/Backend.cpp:807-821 | A chat of SYSTEM is listed as direct, and with the name of the other user if it is one of the two. |
| `Server.Backend.DoSpawn` | TeleCrap.Server/src/Backend.cpp:861-898 | A new group chat is owned by its creator, its only member; it is refused only for an empty or a used name. |
| `Server.Backend.DoJoin` | TeleCrap.Server/src/Backend.cpp:900-943 | The exact answer and effect for every form of query: a group found that does not ban the requestor, or a direct chat found, gets it as a member; everything else is refused, or not answered for a bad number. |
| `Server.Backend.DoCommit` | TeleCrap.Server/src/Backend.cpp:945-993 | Only members send messages; the message is stored, when the sender is answered every other member gets exactly one update at the end of its queue, and a command of the owner is then carried out, announced and told; nothing else changes, and the reply is the one these conditions call for. |
| `Server.Backend.SlashCommand` | TeleCrap.Server/src/Backend.cpp:185-390 | A service command is carried out exactly for the owner of a group with an admissible target or name: it makes exactly its change for the user its target stands for, writes its message in the name of SYSTEM and tells those concerned; anything else changes nothing. |
| `Server.Backend.DoKick` | TeleCrap.Server/src/Backend.cpp:325-350 | A target that is a member leaves the chat, SYSTEM says so, and all who were members but the owner get one update; a target that is no member is refused. |
| `Server.Backend.DoBan` | TeleCrap.Server/src/Backend.cpp:352-387 | The target is banned and leaves the chat at once, SYSTEM says so, and all who were members and the target get one update. |
| `Server.Backend.DoUnban` | TeleCrap.Server/src/Backend.cpp:290-317 | Exactly that ban is lifted, an error meaning that there was none, SYSTEM says so, and members and target get one update. |
| `Server.Backend.DoRename` | TeleCrap.Server/src/Backend.cpp:216-262 | Exactly the name of the chat changes, SYSTEM says so, and the other members get one update; an empty name is refused. |
| `Server.Backend.OpenDirect` | TeleCrap.Server/src/Backend.cpp:460-476 | The direct chat of two users is found, with its owner field left zero and nothing changed, or created with exactly its rows; it fails exactly for oneself or SYSTEM. |
| `Server.Backend.FindChatByQuery` | TeleCrap.Server/src/Backend.cpp:456-520 | What each form of query finds, exactly: the direct chat with a named user, found without its owner or created; a group by number or name; nothing; or an exception for a bad number. |
| `Server.Backend.CreateDirectChat` | TeleCrap.Server/src/Database.cpp:495-536 | A pair that breaks a primary key leaves an orphan chat with SYSTEM as its only member; any other pair gets its row and its members; the chat is named after both. |
| `Server.Backend.CreateGroupChat` | TeleCrap.Server/src/Database.cpp:461-493 | A fresh chat whose only member is its owner. |
| `Server.Backend.CreateUser` | TeleCrap.Server/src/Database.cpp:430-459 | A fresh user row. |
| `Server.Backend.PushAll` | TeleCrap.Server/src/Backend.cpp:91-100 | Every recipient but the excepted one gets the update exactly once, at the end of its queue. |
| `Server.Backend.Accept` | TeleCrap.Server/src/Backend.cpp:407-411 | A new connection keeps the invariant. |
| `Server.Backend.Disconnect` | TeleCrap.Server/src/Backend.cpp:413-418 | A connection that leaves is logged out. |
| `ServerModel.NewPair` | TeleCrap.Server/src/Database.cpp:495-536 | Completing a direct chat keeps the invariant and changes no chat that existed. |
| `ServerModel.MemberBanned` | TeleCrap.Server/src/Database.cpp:650-699 | A ban with removal keeps the invariant. |
| `SecureSession.Converse` | TeleCrap.Shared/Protocol.cpp:60-114 | Over every list of send and receive events after a handshake and every chunking: each side hands over the messages of its send events up to its first failure and gets one message for each of its receive events up to its first failure, an in-order prefix of what the other sent; operations fail only when the connection is over or a message has the wrong size; no key is used twice with one nonce if and only if no side sends more than 2^64 messages. |
| `SecureSession.NoncesExact` | TeleCrap.Shared/SecureChannel.cpp:14-26 | The pairs of key and nonce used in both directions do not repeat if and only if no side has sent more than 2^64 messages. |
| `SecureSession.Session` | TeleCrap.Shared/Transport.cpp:99-149 | Connecting, shaking hands and conversing, for any cipher with the stated properties and any events: the guarantees of conversations, and without an end of the connection every event with messages of the right sizes succeeds. |
| `SecureSession.Conversation.Do` | TeleCrap.Shared/Protocol.cpp:60-114 | One event of a conversation keeps its invariant and is recorded; a side that has failed does nothing more. |
| `SecureSession.Handshake` | TeleCrap.Shared/Transport.cpp:99-149 | The handshake of the two parties fails only when the connection is over; otherwise each side's receive key is the other's send key, the client sends with the first half of the derived material, the keys of the two directions differ, and both have switched after exactly the plain records of their stream, which hold version 6, the secure mode, the tag and the public keys at their places. |
| `SecureSession.ServerHandshake` | TeleCrap.Shared/Protocol.cpp:146-221 | The server refuses every version but 6; for a secure hello it takes the second half of the derived material to send and the first to receive, answers in plain text and only then enables the secure mode; otherwise it answers with a plain session and no key. |
| `SecureSession.ClientFinish` | TeleCrap.Shared/Transport.cpp:112-149 | The client enables the secure mode exactly when the answer is no error and has its flag, the secure mode and its tag; it takes the first half of the derived material to send and the second to receive. |
| `Records.HelloBack` | TeleCrap.Shared/include/telecrap/Request.ixx:13-21 | Every handshake request is read from its packed bytes as it was written. |
| `Records.WelcomeBack` | TeleCrap.Shared/include/telecrap/Responce.ixx:20-28 | Every handshake answer is read from its packed bytes as it was written. |
| `Records.HelloLayout` | TeleCrap.Shared/include/telecrap/Request.ixx:13-21 | The bytes of a handshake request: type, flag, version, mode, reserved byte, tag and key at their places, numbers least significant byte first. |
| `Records.WelcomeLayout` | TeleCrap.Shared/include/telecrap/Responce.ixx:20-28 | The bytes of a handshake answer: type, flag, token, mode, reserved bytes, tag and key at their places, numbers least significant byte first. |
| `Records.HelloRead` | TeleCrap.Shared/Protocol.cpp:146-221 | What the server reads from any request: a hello exactly if the type is zero, with the fields at their places. |
| `Records.WelcomeRead` | TeleCrap.Shared/Transport.cpp:112-149 | What the client reads from any response: an error exactly if the type is zero, and otherwise the fields at their places. |
| `Secure.IdealIsPossible` | TeleCrap.Shared/SecureChannel.cpp:100-155 | The properties asked of the cipher and the key derivation can be met. |
| `Secure.Transport.SendSecure` | TeleCrap.Shared/Protocol.cpp:60-82 | A whole frame with the next counter, encrypted under the send key and the nonce of that counter, goes out, or a part of it and an error; the nonce is four zero bytes and the counter with its most significant byte first, and the frame is size, padding, counter, tag and ciphertext at their places. |
| `Secure.Transport.RecvSecure` | TeleCrap.Shared/Protocol.cpp:84-114 | What is received is the next message sent and the counter advances by one; it fails only when the connection is over or the message has another size, never on counter or tag. |
| `Secure.NonceInjective` | TeleCrap.Shared/SecureChannel.cpp:14-26 | Different 64-bit counters give different nonces. |
| `Secure.NonceBytes` | TeleCrap.Shared/SecureChannel.cpp:14-26 | Each byte of a nonce: four zeros, and then the counter, most significant byte first. |
| `Secure.FrameLayout` | TeleCrap.Shared/Protocol.cpp:38-82 | Each byte of a frame: the size of the ciphertext, padding, the counter, both least significant byte first, the tag and the ciphertext. |
| `Secure.KeysAgree` | TeleCrap.Shared/SecureChannel.cpp:145-154 | The key split is exchanged between client and server. |
| `Secure.FrameParts` | TeleCrap.Shared/Protocol.cpp:38-43 | Size, counter, tag and plaintext are recovered from a frame. |
| `Wire.Pipe.SendBuffer` | TeleCrap.Shared/SocketHelper.cpp:422-454 | All of the data goes out however it is chunked, or a prefix and an error. |
| `Wire.Pipe.ReceiveBuffer` | TeleCrap.Shared/SocketHelper.cpp:456-488 | Exactly the next bytes of the stream, however they are chunked. |
| `ListStream.Transfer` | TeleCrap.Server/src/Backend.cpp:704-723 | For a list of any length, exactly how many elements arrive, reversed, through the 32-bit countdown: all of them if and only if there are at most 2^31. |
| `ListStream.SendList` | TeleCrap.Server/src/Backend.cpp:759-775 | The reversed countdown, or the sentinel for an empty list. |
| `ListStream.ReceiveList` | TeleCrap.Shared/Protocol.cpp:271-321 | Responses are read up to the first countdown that is not positive. |
| `ListStream.ChatMemory.Store` | TeleCrap.Client/src/MemoryCache.cpp:93-117 | A message already stored is dropped; any other goes to the front or the end. |
| `ListStream.ChatMemory.LoadHistory` | TeleCrap.Client/src/TerminalUI.cpp:399-419 | Front insertion with duplicate removal restores the server's order, also when the cache already holds the end of the history and newer messages. |
| `IniFile.RoundTrip` | TeleCrap.Server/include/ini.h:449-500 | For every structure with normalized keys, plain or pretty and with either line ending, reading what the generator wrote gives the same ordered structure back if and only if it is well formed. |
| `IniFile.FileBack` | TeleCrap.Server/include/ini.h:394-428 | A well-formed structure is read back, as a statement about the text and its lines. |
| `IniFile.FileExact` | TeleCrap.Server/include/ini.h:394-428 | A structure with normalized keys is read back if and only if no name has a semicolon or line break, no key starts with a semicolon, no key that starts with a bracket comes with a semicolon or closing bracket, no key ends in a backslash in plain mode, and keys and values are trimmed and on one line. |
| `IniFile.AllImage` | TeleCrap.Server/include/ini.h:394-428 | Whatever file is read, names, keys and values come out without line breaks, comment marks at the start, or blanks around values. |
| `IniFile.AllGrow` | TeleCrap.Server/include/ini.h:394-428 | If every line of a file has added its section or pair, the result lists them in the order of the lines. |
| `IniFile.Read` | TeleCrap.Server/include/ini.h:394-428 | The reader folds the parsed lines into the structure. |
| `IniMeaning.FileMeans` | TeleCrap.Server/include/ini.h:394-428 | What any list of lines means: the structure has exactly the sections named in them, and each key of a section has exactly the value that the last line giving it one in that section gives it; pairs before the first section are ignored. |
| `IniMeaning.FileLinesMean` | TeleCrap.Server/include/ini.h:333-378 | The lines of any file are its text without a byte order mark, carriage returns and zeros, cut at every line feed. |
| `IniMeaning.EmptyLine` | TeleCrap.Server/include/ini.h:280-286 | A line of blanks holds nothing, and a line that starts with a semicolon after blanks is a comment. |
| `IniMeaning.SectionLineMeans` | TeleCrap.Server/include/ini.h:287-303 | A line with a name in brackets is a section with the name between blanks; the last closing bracket before a semicolon counts. |
| `IniMeaning.PairLineMeans` | TeleCrap.Server/include/ini.h:304-317 | Any other line with an equals sign that is not escaped is a pair: the key before the first such sign, unescaped, and the value after it, both without blanks around them. |
| `IniMeaning.NoPairMeans` | TeleCrap.Server/include/ini.h:304-317 | A line without such a sign is ignored. |
| `IniMeaning.SeparatorMeans` | TeleCrap.Server/include/ini.h:304-307 | Exactly the equals signs that do not follow a backslash are left to separate key and value. |
| `IniMeaning.EscapeMeans` | TeleCrap.Server/include/ini.h:470-471 | Escaping puts a backslash in front of each equals sign and changes nothing else. |
| `IniMeaning.UnescapeMeans` | TeleCrap.Server/include/ini.h:310-311 | Unescaping takes the backslash away in front of each equals sign and changes nothing else. |
| `IniMeaning.TrimExact` | TeleCrap.Server/include/ini.h:101-106 | Trimming takes exactly the spaces, tabs, line breaks, form feeds and vertical tabs around a text. |
| `IniMeaning.NormSame` | TeleCrap.Server/include/ini.h:107-114 | Two keys are one to a map if and only if they differ only by blanks around them and by the case of ASCII letters. |
| `IniMeaning.NormStored` | TeleCrap.Server/include/ini.h:107-114 | A key is stored without blanks around it and without upper-case ASCII letters. |
| `IniFile.ReadFile` | TeleCrap.Server/include/ini.h:333-378 | Lines end at newlines; carriage returns, zeros and a byte order mark are dropped. |
| `IniFile.Generate` | TeleCrap.Server/include/ini.h:449-500 | The output is the lines of the sections joined by line ends. |
| `IniMeaning.SectionText` | TeleCrap.Server/include/ini.h:462-484 | The text of a section: its name in brackets, and on a line of its own each key, the separator and the value without the blanks around it. |
| `IniMeaning.SectionsText` | TeleCrap.Server/include/ini.h:485-496 | Sections follow each other on lines of their own, in pretty mode with an empty line between them. |
| `IniFile.SplitJoin` | TeleCrap.Server/include/ini.h:361-378 | Splitting into lines undoes joining them. |
| `Ini.KeyLineExact` | TeleCrap.Server/include/ini.h:304-317 | A key line is read back, up to normalization, if and only if its key does not end in a backslash in plain mode and, if it starts with a bracket, neither key nor value has a semicolon or closing bracket. |
| `Ini.KeyLineBack` | TeleCrap.Server/include/ini.h:304-317 | Reading a written key line gives key and value back. |
| `Ini.SectionBack` | TeleCrap.Server/include/ini.h:287-303 | Reading a written section line gives the section back. |
| `IniText.EscapeBack` | TeleCrap.Server/include/ini.h:115-126 | Unescaping undoes escaping for every key. |
| `IniText.BlankedKey` | TeleCrap.Server/include/ini.h:304-307 | Every equals sign of an escaped key is blanked out and the separator is not. |
| `IniMap.Map.Set` | TeleCrap.Server/include/ini.h:199-218 | The entry of the key, up to blanks around it and the case of ASCII letters, changes in place or is added at the end; all others stay, stored keys are in lower case, and the index agrees with the vector. |
| `IniMap.SetThenGet` | TeleCrap.Server/include/ini.h:179-218 | A value set under one key is got under another if and only if they differ only by blanks around them and by the case of ASCII letters; otherwise the other key keeps its value. |
| `IniMap.Map.Remove` | TeleCrap.Server/include/ini.h:226-250 | Exactly the entry of the key is gone, up to blanks around it and the case of ASCII letters, later positions move down, and the index agrees with the vector. |
| `IniMap.Map.At` | TeleCrap.Server/include/ini.h:168-178 | The position of the key, up to blanks around it and the case of ASCII letters, which is added with an empty value if missing. |
| `IniMap.Map.Get` | TeleCrap.Server/include/ini.h:179-191 | The value of the entry whose key is the same up to blanks around it and the case of ASCII letters, or an empty one. |
| `IniMap.Map.Has` | TeleCrap.Server/include/ini.h:192-199 | Whether some entry has the key, up to blanks around it and the case of ASCII letters. |

## Left out

- Finalizers, the second convergence and clearing passes they need, generational mode, memory debt
  and pacing, fixed objects and the API string cache in lgc.c and lstring.c.
- The order of the collector's lists: each list is a set, so the proofs cover every order; whether an
  array part forces clearing is left open.
- GcCollector.Collector.Atomic: without finalizers there is nothing to separate, and one convergence
  and one round of clearing passes remain.
- GcCollector.Collector.SingleStep: the phases of the finalizer lists only change the phase.
- GcTheorems.NoDanglingReference: what the `__mode` field of a table says is a value of its own, which
  any store into the table may change; its strings are ordinary entries.
- Dead keys in tables, `luaH_next`, metamethod caches and the barriers of ltable.c: tables are
  modelled without collection. Counters of entries are unbounded where the source uses `int`.
- LuaTable.Table.Resize: requires a node for each key outside the new array, which both callers in
  the source provide; a direct call with too small a size is not modelled.
- LuaTable.Table.GrowArray: its only caller (third-party/lualib-5.4/lvm.c) calls it to grow the array part.
- LuaTable.Table: keys other than integers and integral floats are opaque; equality of strings and
  conversion of floats are not part of this model.
- CodeGen.FuncState.CompileToNextReg: comparisons with immediate or constant operands, arithmetic, calls,
  indexing, concatenation and constant folding are not modelled, nor the merging of a LOADNIL with the
  instruction before the expression, the limits on offsets and registers, and line information.
- CodeGen.FuncState.Discharge2Reg: a LOADNIL is not merged with the instruction before it.
- CodeGen.FuncState.DischargeVars: globals, upvalues, indexed values and calls are one kind of variable.
- CodeFinish.Finish: the operands of returns other than `k` and `C` are not modelled.
- LineInfo.FuncState.RemoveLastLineInfo: two removals in a row are outside the contract, as they are
  outside the use the compiler makes of it.
- Parser.LexState.HeadExpr: a simple expression with its suffixes, and every statement, is one token;
  suffixes after a parenthesized expression are reported and not read.
- Sort.TableSort: the comparator does not change the table or raise errors of its own.
- StringTable.Table.Intern: the resurrection of a dead string is a step of the collector's model.
- StringTable.Table.Resize: chains are sequences, so relinking of the `hnext` fields is prepending;
  collection when the table is full is not modelled.
- Upvalues.Thread.NewUpval: back links are not modelled; the registration in `twups` is in the collector's model.
- Upvalues.TbcStack.Push: false values, which are not registered, and the check for a close method are the caller's.
- Upvalues.TbcStack.CloseFrom: the close methods are not called and upvalues are closed elsewhere.
- Upvalues.Thread.CloseUpval: the doubly linked list is a sequence; barriers are in the collector's model.
- Server.Backend.ProcessRequest: the split of message text into a command and its target, name lengths,
  timestamps and message numbers are not modelled, nor what acknowledgements repeat of a login or a message;
  database errors are not, and each request is one step. Addon commands and GetAddonCommands are left out.
- Server.Backend.DoGetMembers: rows that the database returns in no promised order are listed in some order;
  messages are listed as they were stored.
- Server.DeliveredRequestsSucceed: for requests that only send their answer last, nothing depends on
  whether it gets through.
- Server.Backend.Accept: the handle of a new connection differs from those of live ones.
- Secure.Transport.RecvSecure: X25519, HKDF and AES-GCM are ideal functions, with the two halves of the
  derived material distinct; a call that blocks for ever is a failure; conversations in plain sessions are left out.
- IniFile.RoundTrip: keys are normalized and distinct, as the maps of the library make them; file access and the lazy writer are not modelled; characters are ASCII.
- IniMeaning.FileMeans: the order of sections and keys is that of the first lines that name them; it is stated for
  files in which every line adds one (`IniFile.AllGrow`).
- Terminal UI, console, logging, command line, sockets, SQLite, OpenSSL, sol2, addon bodies and HTTP
  helpers.
- The remaining Lua libraries and the interpreter loop, which would mostly add easy members.
