# The Mozart virtual machine, verified in Dafny

These modules model the data structures, the garbage collector, the emulator's stack, the serialization and the
event loops of the Mozart/Oz virtual machine, and prove what the rest of the machine relies on. Run
`dafny verify dfyconfig.toml` here to check them all.

- **Dictionaries** (`RedBlackTree`, `RedBlackFix`, `SearchOrder`, `Dictionary`). `NodeDictionary` is a class over
  nodes with parent pointers. Its ghost `tree` says what the nodes hold; a place in it is a context (a tree with a
  hole) and the subtree there. `Valid()` is search order, no red node below a red one, equal black heights, a black
  root, and every pointer as the tree has it. Every operation is proved against the finite map `Contents()`.
- **Atoms** (`AtomBits`, `AtomTable`). The PATRICIA trie with uplinks, its ghost `trie` unfolding the cyclic graph,
  and the bytewise scan proved against the bits of the padded strings.
- **Garbage collection** (`GraphStore`, `Replication`, `Isomorphism`, `Worklists`, `GraphReplication`). The store is
  a graph of nodes and pointers. The class `GraphReplicator` runs the six work lists in memory; its ghost `run` is
  the state of the copy, and `todo` what the lists hold. The result is compared with the source by walks from the
  roots.
- **Emulator stack** (`Emulator`). Frames and exception handlers on one stack, proved to stand for activations,
  each with the handlers it has set up itself.
- **Builtin code** (`BuiltinCode`, in it also `BuiltinCall`). The code block made for a builtin, and the part of
  the emulator's loop that runs it.
- **Pickles** (`PickleFormat`, `PickleNumbering`, `PickleMerging`, `PickleRedirection`, `PickleSteps`, `Pickling`,
  `PickleBytes`, `Unpickling`, `VmMessages`). The numbering pass that overwrites nodes, the three write phases with
  redirections, the bytes place by place, the reader, and the two together as a message from one machine to another.
- **Event loops** (`VmProtocol`, `VmLaws`). Virtual machines, their threads and the I/O thread as atomic steps; an
  invariant over every interleaving; and what each step means for each machine, up to what comes of a message sent
  and of the end of a machine.
- **Records** (`Records`), **the allocator** (`Memory`) and **its lists** (`ManagedList`).

`Wrappers` holds what they share. `compareFeatures` is a parameter, assumed to be a total order
(`SearchOrder.IsTotalOrder`); what an operation on the store, the C library or the clock does is a parameter too.

Where the code and what is promised of it differ, the code is modelled, and a lemma says exactly when the promise
holds:

- Strings are padded with ones, so the octet 0xFF cannot be told from the padding. UTF-8 has no such octet
  (section 1 of RFC 3629). `AtomTable.PaddingConfuses` and `AtomTable.UndecidedByFirst` say which other strings
  would be confused.
- Splicing a list that is empty onto one that is not loses the end of the list: `ManagedList.MemManagedList.Splice`
  is right if and only if there is something to splice or nothing to splice it to; `ManagedList.SpliceForgets` is
  such a case.
- Rounding a size up to a chunk, and the test whether the rest of a block is enough, are done in `size_t`:
  `Memory.ChunkLargeEnough` and `Memory.NeedsMoreExactly` say when they are right.
- Byte codes are 16 bits wide and sizes in a pickle 32 bits: `BuiltinCode.CutExactly` and
  `PickleFormat.SizeRoundTrip` say when nothing is cut.

## Model

| member | source | states |
|---|---|---|
| Dictionary.NodeDictionary.constructor | vm/vm/main/dictionary-decl.hh:76 | a new dictionary is valid, has no node and stands for the empty map |
| Dictionary.NodeDictionary.LookupNode | vm/vm/main/dictionary.hh:139-161 | it finds the key's node, or the empty place where the key belongs in the search order, with its parent; it compares no more nodes than the tree is high, as many as the path to the place is long |
| Dictionary.NodeDictionary.Lookup | vm/vm/main/dictionary.hh:44-54 | a key is found exactly when the map binds it, and the slot returned is the one that keeps its value |
| Dictionary.NodeDictionary.LookupOrCreate | vm/vm/main/dictionary.hh:56-80 | an absent key gains exactly one binding, in a fresh node; a present one changes nothing; the slot returned is where the key is bound afterwards; the dictionary stays valid |
| Dictionary.NodeDictionary.LinkNode | vm/vm/main/dictionary.hh:68-73 | comparing with the parent's key picks the side the search came down on: the pointers are those of the tree with the new node in the hole |
| Dictionary.NodeDictionary.FixInsert | vm/vm/main/dictionary.hh:163-207 | from a red node whose parent may be red, all five cases and the recursion upwards lead to a red-black tree with the same entries in the same nodes, its pointers consistent |
| Dictionary.NodeDictionary.RotateLeft | vm/vm/main/dictionary.hh:372-391 | wherever the rotated subtree hangs, at the root or on either side, the pointers are those of the whole tree with the rotated subtree in its place |
| Dictionary.NodeDictionary.RotateRight | vm/vm/main/dictionary.hh:393-412 | the same to the right |
| Dictionary.NodeDictionary.Remove | vm/vm/main/dictionary.hh:82-99 | the map loses exactly the key; one node is given back if the key was there and none otherwise; no new node; the dictionary stays valid |
| Dictionary.NodeDictionary.RemoveInner | vm/vm/main/dictionary.hh:88-97 | the result is red-black, and has the entries left when the predecessor's binding has moved up and its own node, the only one given back, is cut out |
| Dictionary.NodeDictionary.CutOut | vm/vm/main/dictionary.hh:209-217 | a node with at most one child is replaced by that child, and given back |
| Dictionary.NodeDictionary.ReplaceChild | vm/vm/main/dictionary.hh:231-244 | of the remaining nodes, only the parent's link and the new child's parent change; the replaced node is given back |
| Dictionary.NodeDictionary.FixRemove | vm/vm/main/dictionary.hh:246-302 | a subtree one black node short, also an empty one: all six cases and the recursion lead to a red-black tree with the same entries in the same nodes; the sibling always exists |
| RedBlackFix.PushUp | vm/vm/main/dictionary.hh:182-187 | case 3 of insertion: recolouring leaves every condition but the one at the grandparent, and the entries |
| RedBlackFix.TurnUp | vm/vm/main/dictionary.hh:198-204 | case 5 of insertion: recolouring and one rotation end with a red-black tree and the same entries |
| RedBlackFix.ReddenSibling | vm/vm/main/dictionary.hh:268-277 | cases 3 and 4 of removal: a red sibling evens the two sides out; under a red parent that ends it, under a black one the parent's subtree is short instead |
| SearchOrder.PredecessorValues | vm/vm/main/dictionary.hh:88-97 | the two-children removal, on the finite map: the order stays, and the map loses the one key |
| SearchOrder.HeightIsLogarithmic | vm/vm/main/dictionary.hh:146-158 | two to the height is at most (n+1) squared: the lookup loop is logarithmic in the number n of entries |
| Dictionary.NodeDictionary.RemoveAll | vm/vm/main/dictionary.hh:101-115 | the walk gives every node back once and leaves the empty dictionary |
| Dictionary.NodeDictionary.FoldRight | vm/vm/main/dictionary.hh:117-129 | the reversed in-order walk folds the function over every entry once, from the greatest key down |
| Dictionary.NodeDictionary.DictKeys | vm/vm/main/dictionary.hh:545-551 | the keys are strictly ascending and exactly those bound |
| Dictionary.NodeDictionary.DictGet | vm/vm/main/dictionary.hh:458-467 | the value is what the map binds the key to, or there is none |
| Dictionary.NodeDictionary.DictPut | vm/vm/main/dictionary.hh:481-491 | the map binds the key to the new value, whether it was bound or not |
| Dictionary.NodeDictionary.DictCondExchange | vm/vm/main/dictionary.hh:510-527 | the map binds the key to the new value, and the answer is the old value or the default |
| Dictionary.NodeDictionary.Run | vm/vm/main/dictionary.hh:44-115 | any sequence of puts, gets, exchanges, removals and clearings does to the map, and answers, what it does on a finite map |
| Dictionary.OperationIs | vm/vm/main/dictionary.hh:44-115 | on the finite map an operation changes its own key at most, or clears all of them; it answers what the key was bound to |
| Dictionary.InTurn | vm/vm/main/dictionary.hh:44-115 | each operation of a sequence acts on, and answers from, the map that those before it have left |
| SearchOrder.ValuesAre | vm/vm/main/dictionary.hh:44-54 | the finite map binds a key exactly as some node's entry does |
| Dictionary.NodeDictionary.Replicate | vm/vm/main/dictionary.hh:304-327 | a valid copy in fresh nodes, of the same shape and colours, that binds the copies of the keys to the copies of their values, if copying keys keeps their order |
| Dictionary.NodeDictionary.Clone | vm/vm/main/dictionary.hh:131-137 | both dictionaries stand for the same map, and the source is as it was |
| AtomBits.FirstMismatch | vm/vm/main/atomtable.hh:331-348 | a result below the end is the least position from the start at which the padded bits of the two strings differ; otherwise they agree on the whole range, masked first octets and positions past either string included |
| AtomBits.DifferenceBit | vm/vm/main/atomtable.hh:341-344 | a bit of the masked exclusive or is set exactly where the mask allows it and the two padded strings differ |
| AtomTable.AtomTable.GetInternal | vm/vm/main/atomtable.hh:292-321 | the atom returned has the string; it is an old one exactly when an atom with that string exists, and then nothing changes; otherwise it is fresh and the only new one |
| AtomTable.AtomTable.InternAll | vm/vm/main/atomtable.hh:276-321 | over any sequence of calls on strings without 0xFF two results are one node exactly when their strings are equal; old atoms stay; the count is the number of distinct strings |
| AtomTable.AtomTable.Walk | vm/vm/main/atomtable.hh:302-320 | the loop ends, never on a null side, at the atom of the string or where its first differing bit leaves the trie |
| AtomTable.Recognise | vm/vm/main/atomtable.hh:306-309 | an edge the walk has followed is an uplink exactly when its node's critical bit was already checked, and it is never null |
| AtomTable.Arrived | vm/vm/main/atomtable.hh:309-318 | an uplink whose padded bits agree two octets past its end leads to the atom of the string itself |
| AtomTable.GrowSubtree | vm/vm/main/atomtable.hh:314-317 | putting the new node in keeps the whole trie: critical bits increase going down, strings agree below each and are split by it |
| AtomTable.UniqueAtoms | vm/vm/main/atomtable.hh:71-82 | two atoms of a trie with equal strings are one atom |
| AtomTable.PaddingConfuses | vm/vm/main/atomtable.hh:323-330 | the padded bits of two strings are all equal exactly when the strings differ in trailing octets 0xFF at most |
| AtomTable.UndecidedByFirst | vm/vm/main/atomtable.hh:296-300 | with the first atom's critical bit, eight past its end: exactly which pairs of strings no bit up to there tells apart |
| GraphReplication.CollectGarbage | vm/vm/main/gcollect.cc:35-60 | for every well-formed graph and roots: the collection ends; the new graph is well-formed and disjoint from the old one; every path from the new roots sees the value the same path saw from the old ones; two paths to values that are not copyable meet in the new graph exactly when they met in the old; a weak pointer is null exactly when no strong path led to its target; everything copied was reached by strong paths, and no value that is not copyable twice. Marks overwrite the words in which values kept pointers, and none is read after that |
| GraphReplication.GraphReplicator.DoGC | vm/vm/main/gcollect.cc:35-60 | the same, of the replicator that runs it, once the roots are copied |
| GraphReplication.GraphReplicator.RunCopyLoop | vm/vm/main/graphreplicator.hh:116-148 | the loop ends with every list empty and everything done, the weak pointers last |
| GraphReplication.GraphReplicator.CopyOne | vm/vm/main/graphreplicator.hh:124-139 | each pass leaves fewer values uncopied, or as many and less on the lists |
| GraphReplication.GraphReplicator.ProcessNodeInternal | vm/vm/main/graphreplicator.hh:160-168 | the head of either list threaded through the nodes is taken off and dealt with: a value is copied, or nothing new is put on a list |
| GraphReplication.GraphReplicator.ProcessNode | vm/vm/main/gcollect.cc:70-74 | the node becomes a copy of the value or leads to it; afterwards the source is marked with a place that leads to the copy, also when it was marked before with another one; its word is overwritten, and was not needed any more |
| GraphReplication.GraphReplicator.ProcessStableRefInternal | vm/vm/main/graphreplicator.hh:170-190 | a pointer ends at the copy of its old target; a weak one to a value not copied becomes null and copies nothing |
| GraphReplication.GraphReplicator.ProcessOuterInternal | vm/vm/main/gcollect.cc:62-68 | a pointer to a space or a thread ends at its replicate, which is made at the first visit only; a visit copies one more value or puts nothing on a list |
| GraphReplication.GraphReplicator.GCollect | vm/generator/main/implementations.cc:547-562 | a value that has no copy yet gets one, in the node in hand or, for a type that needs a stable node, behind a reference from an unstable one; a stable node holds it itself |
| GraphReplication.GraphReplicator.MakeInline | vm/generator/main/implementations.cc:557-561 | the copy of a value that is one pointer is made in the node's own word, from the old word, which no mark has overwritten yet |
| GraphReplication.GraphReplicator.InitFromUnstable | vm/vm/main/grtypes.hh:66-69 | of a value first reached from an unstable node: the stable node in hand leads to the copy afterwards, and if the unstable one held the copy itself, the stable one does; every place that led to a copy still does, and a value that is not copyable still has one |
| GraphReplication.GraphReplicator.CopyFromUnstable | vm/vm/main/grtypes.hh:71-74 | the same from an unstable node in hand, with new memory only where a stable node must be made; a value that is not copyable still has one copy |
| GraphReplication.GraphReplicator.AgainFromStable | vm/vm/main/grtypes.hh:40-48 | of a value first reached by a stable node: the node in hand leads to the copy, no memory is taken, and a value that is not copyable still has one copy |
| Replication.MoveSound | vm/vm/main/grtypes.hh:66-74 | moving a copy from an unstable node to a stable one keeps the invariant of the copying; every place that led to a copy still does, and every mark stays |
| Worklists.AllIsDone | vm/vm/main/graphreplicator.hh:117-147 | when the lists are empty nothing is left to copy, to redirect or to mark |
| Isomorphism.WalkAlike | vm/vm/main/graphreplicator.hh:48-95 | once all is done, the same path in the new graph and in the old ends at a value and its copy, or at null in both |
| Isomorphism.MarkedIsReachable | vm/vm/main/graphreplicator.hh:183-184 | what got copied is exactly what strong paths from the roots lead to |
| Emulator.Thread.constructor | vm/vm/main/emulate.cc:250-282 | a new thread rests, with one activation at the start of its procedure's code |
| Emulator.Thread.AllocateY | vm/vm/main/emulate.cc:451-460 | the running activation gets an array of its own |
| Emulator.Thread.SetupHandler | vm/vm/main/emulate.cc:492-500 | the running activation, and no other, gets a handler in front of its others, which resumes behind the instruction |
| Emulator.Thread.PopHandler | vm/vm/main/emulate.cc:502-506 | the innermost handler of the running activation goes |
| Emulator.Thread.Call | vm/vm/main/emulate.cc:1284-1345 | a call puts a new activation before the caller's, which will go on behind the call; a tail call puts it in the place of the caller, whose registers are freed; a wrong arity changes nothing |
| Emulator.Thread.Return | vm/vm/main/emulate.cc:673-686 | the activation goes, its registers are freed once, and the caller runs, or the thread is over |
| Emulator.Thread.PushFrame | vm/vm/main/emulate.cc:1253-1261 | a preempted thread rests with the same activations |
| Emulator.Thread.PopFrame | vm/vm/main/emulate.cc:1263-1282 | a resumed thread runs with the same activations |
| Emulator.Thread.FindExceptionHandler | vm/vm/main/emulate.cc:138-163 | the innermost handler of the nearest activation that has one is resumed, in that activation, with its own G and K registers and Y array; exactly the arrays of the activations dropped are freed, each once; without a handler only the last activation is left |
| Emulator.Thread.ApplyRaise | vm/vm/main/emulate.cc:1511-1555 | a raise does that; if no activation has a handler the default handler is called alone, or without one the thread is over |
| Emulator.Thread.Execute | vm/vm/main/emulate.cc:309-345 | any sequence of these steps, preemptions, resumptions and collections that the asserts of the code allow does to the activations, step by step, what each should, so that every handler stays with its own activation; the Y arrays of the activations stay apart and unfreed |
| Emulator.Thread.WhenPossible | vm/vm/main/emulate.cc:451-506 | on activations, when the asserts let a step be taken: a handler is set up whenever the thread runs, and popped exactly when the running activation has one; a return or a tail call only when it has none; Y registers are allocated once |
| Emulator.Thread.Take | vm/vm/main/emulate.cc:451-506 | each step alone does, on the registers and the stack, what it does on activations: `Does` says it without either |
| Emulator.Thread.BeforeGR | vm/vm/main/emulate.cc:1614-1620 | every counter on the stack becomes the offset in its owner's code, which for a handler is the frame above it |
| Emulator.Thread.AfterGR | vm/vm/main/emulate.cc:1622-1628 | every offset becomes a counter in its owner's code, and the G and K registers are read again |
| Emulator.OffsetOf | vm/vm/main/emulate.cc:100-114 | entry by entry: the offset is relative to the code of the nearest frame from the entry up, and nothing else changes |
| Emulator.CounterOf | vm/vm/main/emulate.cc:116-132 | entry by entry: the counter is relative to the code of that frame |
| Emulator.ThreeStages | vm/vm/main/emulate.cc:100-132 | offsets, replication and back together put every entry at the same offset of the replica of its own code |
| Emulator.FramesRelocate | vm/vm/main/emulate.cc:100-132 | so that the stack of some activations becomes the stack of the same activations in the moved code, handlers included |
| Emulator.Thread.Replicate | vm/vm/main/emulate.cc:78-132 | a garbage collection leaves a resting thread its activations at the same offsets of the replicas of their code, each with a fresh array of the replicas of its registers and its debug data |
| BuiltinCode.BaseBuiltin.BuildCodeBlock | vm/vm/main/builtins.hh:73-134 | for every list of parameters the block is filled exactly to the length computed first, with the call, an argument register for each parameter, a unification for each output and the return; an input's argument is its own register, an output's is its register behind all of them |
| BuiltinCode.BlockIs | vm/vm/main/builtins.hh:73-134 | place by place: the call, for parameter i the register i or i plus their number, then for the j-th output a unification of just these two registers, and the return |
| BuiltinCode.BaseBuiltin.GetCallInfo | vm/vm/main/builtins.hh:59-71 | the block is built at the first call only; two registers for each parameter are asked for |
| BuiltinCode.CutExactly | vm/vm/main/builtins.hh:105-114 | the block names the registers it means exactly when each fits in 16 bits |
| BuiltinCall.Run | vm/vm/main/emulate.cc:510-559 | if they fit, running the block is what a call of the builtin means: its inputs from x(i), its outputs in x(i+arity), then each output unified with its argument in order, then the return; a failure or exception leaves it there |
| BuiltinCall.CallMeans | vm/vm/main/emulate.cc:510-559 | input i comes from x(i), and output i is in x(i+arity) before the unifications, each in the order of the parameters; no other register changes |
| BuiltinCall.UnifyInOrder | vm/vm/main/emulate.cc:787-791 | the outputs are unified one after the other, each in the world the one before has left, up to the first that does not succeed |
| PickleNumbering.AsManyNumbers | vm/vm/main/pickler.cc:112-142 | the numbers are as many as the nodes listed |
| Pickling.Pickler.Number | vm/vm/main/pickler.cc:78-142 | every node the root reaches, and no other, has one number from 1 to the count; every reference of its record is bound to the number of what it refers to; futures and resources are found; every overwritten node has its backup |
| Pickling.Pickler.Restore | vm/vm/main/pickler.cc:67-72 | every node holds again what it held |
| Pickling.Pickler.NeedFutures | vm/vm/main/pickler.cc:148-162 | all futures among the nodes are needed, and one of them is waited for |
| Pickling.Pickler.FindFeature | vm/vm/main/pickler.cc:254-264 | an equal feature met before redirects the index to it, and nothing else changes; otherwise the feature is remembered |
| Pickling.Pickler.FindBuiltin | vm/vm/main/pickler.cc:266-289 | the same for a builtin, by module and name, a new module included |
| Pickling.Pickler.FindArity | vm/vm/main/pickler.cc:291-316 | the same for an arity, compared by its label and features with all those written under the redirected label |
| PickleRedirection.LeadsWhen | vm/vm/main/pickler.cc:208-218 | a node is written exactly when no node before it in the list is the same |
| Pickling.Pickler.WriteValues | vm/vm/main/pickler.cc:200-225 | the first phase writes exactly the features, builtins and other values that lead, takes all of them from the list, and has redirected each of the others to the one that leads it |
| Pickling.Pickler.WriteArities | vm/vm/main/pickler.cc:227-244 | the second does so with the arities |
| Pickling.Pickler.WriteOthers | vm/vm/main/pickler.cc:246-252 | the last writes every node that is left |
| Pickling.Pickler.WriteNode | vm/vm/main/pickler.cc:318-483 | the bytes of a node carry the redirected index of each thing it refers to |
| PickleMerging.RootWritten | vm/vm/main/pickler.cc:176-178 | the root is never redirected, so that the header may name it by its own number |
| PickleMerging.WritesFaithfully | vm/vm/main/pickler.cc:187-189 | no index is written twice or for nothing; every node has an index under which its record is written; two nodes have one index exactly when they are the same feature, builtin, arity or node; an arity comes after its label and features |
| Pickling.Pickler.Pickle | vm/vm/main/pickler.cc:74-198 | the store is as before; a pickle is written exactly when the root reaches no future and no resource; then the output is the count of the nodes, the index of the root and such a list of records; otherwise nothing is written, and the outcome names a future, or exactly the resources; each record carries the node's own plain data, and in order the indices of what it refers to |
| PickleMerging.RenamedCopies | vm/vm/main/pickler.cc:318-427 | the record of a node has its type and all its plain data, and in the place of each reference the index of what it refers to |
| PickleMerging.MergesExactly | vm/vm/main/pickler.cc:254-316 | which nodes are merged: equal features, builtins of the same names, arities of equal label and features, and a node with itself |
| PickleFormat.OwnChildren | vm/vm/main/pickler.cc:318-427 | putting a value's own references back gives that value: nothing but references is replaced |
| PickleFormat.WithCopies | vm/vm/main/pickler.cc:318-427 | with other references in their places, a value keeps its constructor and every other field |
| PickleFormat.Types | vm/vm/main/pickler.cc:33-65 | the type numbers, one by one, and which of them are features, carry a UUID or cannot be pickled |
| PickleBytes.ValueBytes | vm/vm/main/pickler.cc:318-427 | the bytes of a record: its type's number, its UUID of sixteen bytes if it has one, and the rest |
| PickleBytes.TextBytes | vm/vm/main/pickler.cc:446-460 | of a number, an atom, a unique name and a string: the length, with the highest byte first, and every octet in its place |
| PickleBytes.SpineBytes | vm/vm/main/pickler.cc:462-480 | of tuples, records, arities, patterns and abstractions: the label, arity or code area first, then the number of the elements, and each of them in its place |
| PickleBytes.CodeAreaSays | vm/vm/main/pickler.cc:318-427 | of a code area: the code, the arity, the registers, the name, the debug data and the constants, each in its place |
| PickleBytes.StreamSays | vm/vm/main/pickler.cc:176-194 | the stream is the count, the root's index, the index and bytes of each record in turn, and a zero |
| PickleFormat.SizeRoundTrip | vm/vm/main/pickler.cc:435-440 | four bytes carry a size exactly when it is below 2^32 |
| Unpickling.Unpickler.ReadValue | vm/vm/main/unpickler.cc:88-133 | from the bytes of a value whose sizes were not cut, that value is made; or, when it has a UUID that the machine knows, the entity known by it, and nothing is made; the machine knows the UUID from then on, and no other new one; all the bytes are consumed |
| Unpickling.Unpickler.Skip | vm/vm/main/unpickler.cc:329-340 | passing over a known entity consumes its bytes and no others |
| Unpickling.Unpickler.BindNode | vm/vm/main/unpickler.cc:80-81 | a value read is bound to its index, if that is in range and unbound |
| Unpickling.Unpickler.Unpickle | vm/vm/main/unpickler.cc:67-85 | from a stream with distinct indices in range the header's node is returned, each index is bound to its value, no other index is bound, and the whole stream is consumed; a value with a UUID known before, or from an earlier record of the stream, is the known entity, every other is made |
| Unpickling.EntityIs | vm/vm/main/unpickler.cc:329-340 | one entity for a UUID: the known one if and only if the machine knows it, otherwise one made of the value read |
| Unpickling.BoundIsMeant | vm/vm/main/unpickler.cc:67-85 | index by index, what a stream binds, and which UUIDs are known after each record |
| VmMessages.Transfer | vm/boostenv/main/boostvm.cc:243-281 | what the receiver rebuilds from a message is the graph the sender's value reached: every node under one index, referring to the indices of what it referred to, or as the entity known by its UUID; two nodes have one index exactly when they are the same; nothing else; a node with a UUID is the receiver's own entity if it knows one, and every other is made with the sender's plain data |
| VmMessages.EntityArrives | vm/vm/main/unpickler.cc:329-340 | what becomes of one node on the way, said of the sender's node alone |
| VmProtocol.EnvLockKept | vm/boostenv/main/boostenv.hh:145-155 | in every step the environment lock is held by exactly the thread that is past its first stage of posting |
| VmProtocol.VmLockKept | vm/boostenv/main/boostvm.hh:77-85 | in every step a machine's lock is held only by its own thread in the loop or by a thread that pushes an event |
| VmProtocol.MembershipKept | vm/boostenv/main/boostenv.hh:141-155 | in every step the machines found are those whose thread has not ended, and none goes while an event is posted to it |
| VmProtocol.CountedKept | vm/boostenv/main/boostvm.hh:38-46 | in every step the count is the number of nodes of the operations not released, plus one while the stream is awaited, and each such operation is in flight, being posted or queued, in one place |
| VmProtocol.AwakeKept | vm/boostenv/main/boostvm.cc:154-168 | in every step a machine that waits with an event on its queue is about to be notified by the thread that posted it |
| VmProtocol.InOrderKept | vm/boostenv/main/boostvm.cc:243-281 | in every step what an open stream holds and the messages queued are the messages pushed, those of one sender in sending order |
| VmProtocol.InvOverRuns | vm/boostenv/main/boostvm.cc:100-174 | all of these hold after any interleaving of steps from the start |
| VmProtocol.ReleaseFindsOp | vm/boostenv/main/boostvm.hh:43-46 | a completion always finds its operation still counted: the count never falls below zero |
| VmProtocol.NormalExit | vm/boostenv/main/boostvm.cc:134-139 | the loop ends unasked if and only if the machine has nothing to do, no event is queued, the stream is not awaited, and none of its operations is in flight, being posted or queued |
| VmProtocol.Delivered | vm/boostenv/main/boostvm.cc:265-281 | a stream holds messages pushed, in order, each sender's in sending order and none twice; on an open machine those not yet there are queued; that a message sent gets that far is `VmLaws.SentArrives` |
| VmProtocol.NoDeadlock | vm/boostenv/main/boostvm.cc:130-169 | in every reachable state some thread can take a step that is not a spurious wake-up, unless every living machine waits with an empty queue and nothing in flight |
| VmProtocol.QuietWaits | vm/boostenv/main/boostvm.cc:154-168 | a machine that waits when all is quiet has an alarm set or awaits its stream |
| VmLaws.SendStarts | vm/boostenv/main/boostvm.cc:243-263 | sending to a machine that lives with its port open starts to post the message with the sender's next number, and changes nothing else; otherwise nothing changes |
| VmLaws.PostStarts | vm/boostenv/main/boostenv.hh:165-170 | which event each step starts to post, and to whom: messages, terminations, requests to monitor, completions, news of an end; no other step posts |
| VmLaws.PostGoesOn | vm/boostenv/main/boostvm.hh:77-85 | a post waits for the environment's lock, then for the target's, and for nothing else; past the first its target lives |
| VmLaws.PostEnds | vm/boostenv/main/boostenv.hh:145-155 | over any run: a post that is over has pushed its event exactly once, on its target's queue, unless no such machine was found, and then nothing |
| VmLaws.QueueChanges | vm/boostenv/main/boostvm.cc:141-152 | a queue changes only by an event pushed at its end, or by the loop taking its head |
| VmLaws.FirstInFirstOut | vm/boostenv/main/boostvm.cc:141-152 | over any run: the events handled, and then those queued, are the events queued at first and those pushed, in that order |
| VmLaws.SentArrives | vm/boostenv/main/boostvm.cc:243-281 | over any run: once the sender of a message to an open machine goes on, and as long as the target lives with its port open, the message is in its stream or its queue |
| VmLaws.StreamChanges | vm/boostenv/main/boostvm.cc:265-281 | a stream grows by exactly the item a callback receives, or the end of a machine that was to be monitored and is not there; never on a closed port |
| VmLaws.PortChanges | vm/boostenv/main/boostvm.cc:219-241 | when the port closes, and from when to when the stream is awaited |
| VmLaws.OpsChange | vm/boostenv/main/boostvm.hh:38-46 | an operation flies from its start to its completion, and is counted until the callback of that completion is run |
| VmLaws.TalkChanges | vm/boostenv/main/boostvm.cc:283-297 | exactly which callbacks add a monitor or ask for the end; only a message that is posted takes a number |
| VmLaws.MembersChange | vm/boostenv/main/boostvm.cc:48-92 | a machine is found from its creation to its removal; a new one runs with an open port, monitored by its creator |
| VmLaws.LoopGoesOn | vm/boostenv/main/boostvm.cc:115-174 | where each step of its own takes a machine around its loop: the end, the wait with or without an alarm, the next round |
| VmLaws.OthersLeaveLoop | vm/boostenv/main/boostvm.cc:154-168 | the steps of others leave it where it is, but for the notification that wakes it |
| VmLaws.CanGoOn | vm/boostenv/main/boostvm.cc:115-174 | when each step is possible, by where the machine is and which locks are free |
| VmLaws.MonitorsAreTold | vm/boostenv/main/boostvm.cc:316-326 | over any run: from the end of its loop to its removal a machine pushes the news of its end once for each monitor that lives all the while, in the order in which they were added |
| Records.ArityLookup | vm/vm/main/records.hh:411-433 | the binary search finds the offset of the feature, or that it is not there |
| Records.LookupFeature | vm/vm/main/records.hh:509-519 | whatever the representation, looking up finds the value the record holds for the feature, or none |
| Records.BuildArity | vm/vm/main/dynbuilders.hh:202-233 | which input is which error, the first feature that is none included; otherwise the sorted features, or unit exactly for a tuple |
| Records.BuildRecord | vm/vm/main/dynbuilders.hh:235-255 | each error if and only if its cause is there; otherwise a feature has a value exactly when a field gave it that value, and the representation is a literal, pair or tuple exactly when the features are 1 to their number; a pair is made exactly of two fields 1 and 2 under '|', and the label alone exactly of none |
| Records.RightRepresentation | vm/vm/main/dynbuilders.hh:86-104 | which representation is made of which label and fields |
| Records.BuiltHolds | vm/vm/main/dynbuilders.hh:235-255 | whatever the representation, the record has the label, and holds for every feature what the fields gave it |
| Records.TupleExactly | vm/vm/main/dynbuilders.hh:158-168 | sorted distinct fields make a tuple exactly when their features are 1 to their number, in whatever order they were given |
| Records.AnyOrder | vm/vm/main/dynbuilders.hh:171-178 | fields in any order make one and the same record |
| Records.FindDuplicate | vm/vm/main/dynbuilders.hh:181-188 | comparing neighbours finds a duplicate in sorted fields exactly when there is one anywhere |
| Memory.MemoryManager.constructor | vm/vm/main/memmanager.cc:38-60 | after a reset no block is handed out, the whole base block is free and every free list is empty |
| Memory.MemoryManager.GetMemory | vm/vm/main/memmanager.hh:53-62 | the block is new and apart from every other, and the bytes allocated grow by its size |
| Memory.MemoryManager.Malloc | vm/vm/main/memmanager.hh:64-86 | the block was not live, is large enough, and is live now; every other block is as it was; free lists stay chunks of their size, linked through their own words; if a block of the size was freed, the last one freed is handed out again and no memory is taken, otherwise exactly one new chunk, or for a big block none of it, is |
| Memory.MemoryManager.Free | vm/vm/main/memmanager.hh:88-102 | a block freed with the size it was asked for is not live any more, and no other block changes; it becomes the first of the free list of its size, or is given back if it is big |
| Memory.MemoryManager.LiveApart | vm/vm/main/memmanager.hh:64-102 | two blocks that are live or free have no byte in common |
| Memory.MemoryManager.Write | vm/vm/main/memmanager.hh:74-76 | whatever the user of a live block writes in it, the free lists are untouched |
| Memory.MemoryManager.AllocatedOutsideFreeList | vm/vm/main/memmanager.hh:124-130 | what the free lists got never exceeds what is allocated: the difference is no underflow |
| Memory.ChunkLargeEnough | vm/vm/main/memmanager.hh:107-109 | the chunk is large enough exactly when rounding up stays in `size_t`, and then it is less than a granule too large |
| Memory.NeedsMoreExactly | vm/vm/main/memmanager.hh:54 | the test for more memory is right exactly when the sum does not wrap, or wraps and is still too much |
| ManagedList.MemManagedList.InsertBefore | vm/vm/main/memmanlist.hh:271-274 | the item is inserted at the iterator's place, which stays at its node, also at either end |
| ManagedList.MemManagedList.Remove | vm/vm/main/memmanlist.hh:225-230 | the item at the iterator goes, and the iterator is at the next place |
| ManagedList.MemManagedList.SpliceOne | vm/vm/main/memmanlist.hh:256-269 | one item goes from its place in the source to the end of this list, and the iterator on to the next |
| ManagedList.MemManagedList.Splice | vm/vm/main/memmanlist.hh:246-254 | the items are joined and the source is empty; the list is still a list if and only if the source was not empty or this list was |
| ManagedList.SpliceForgets | vm/vm/main/memmanlist.hh:246-254 | after splicing an empty list onto a list of one item, the list does not know its end |

## Left out

- Dictionary.NodeDictionary.Replicate: key copies that change the order of keys are not covered. Cloning a space gives
  names fresh UUIDs (vm/vm/main/names.hh:62-63), so a cloned dictionary may be out of order; nothing is proved of one.
- Dictionary.NodeDictionary.Remove: the node of a key with two children is kept for its predecessor's binding, as in
  the code; that slots handed out for other keys stay theirs is not promised, because it is not so.
- Home spaces: the checks that a dictionary belongs to the current space, and the errors for keys that are no
  features, come before the operations modelled and are not part of this model.
- AtomTable.AtomTable.GetInternal: strings with the octet 0xFF are excluded; `PaddingConfuses` and `UndecidedByFirst`
  say what would go wrong with them.
- GraphReplication.CollectGarbage: the roots are one block, none of its pointers in a node's word; which fields of the
  virtual machine they are is not modelled. A type is given by whether it is copyable, how its values are stored, and the block they hold.
- Space cloning, merged spaces, and the table of global nodes (vm/vm/main/graphreplicator.hh:97-107).
- Emulator.Thread.Execute: the steps are those that change the stack. X registers, the other opcodes, the callables
  that are no procedures, the debug data's contents and stack traces are left out; the values in Y registers are
  numbers. Y arrays of activations dropped without a handler being found stay allocated, as in the code.
- BuiltinCall.Run: what an entry point does to the store is a parameter, and failure, suspension and exceptions are
  one way to stop.
- Pickling.Pickler.Pickle: temporary replacements (vm/vm/main/pickler.cc:84-106), names that get a UUID while they are
  serialized, and the printing of numbers (numbers are their texts). Its dictionaries are maps, as `Dictionary` allows.
- Unpickling.Unpickler.Unpickle: an index out of range is undefined in the code; in the model it is a failure, as is an
  index bound twice. Looking a builtin up by name, and the protocols of global entities, are not part of this model.
- VmMessages.Transfer: values with a size of 2^32 or more, and distinct entities with one UUID, are outside `Portable`.
- VmProtocol: timers and preemption are left out, alarms wake a thread as spurious wake-ups do; that a notified thread
  runs at last is left to the scheduler. What becomes of events posted after the loop has ended is not promised.
- Records.SortFeatures: `std::sort` is some sorting algorithm in place.
- Memory.MemoryManager.Malloc: the C library gives memory that is not in use, or none at all and the program ends; the
  block sizes and the total stay below the range of `size_t`.
- Floats, big integers, strings, files, sockets, processes, the code generator and the launchers.
