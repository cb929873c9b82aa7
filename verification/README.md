# Models and proofs for the F-Stack library

This project models the parts of F-Stack that keep state and make promises over whole runs, and proves
these promises. It is written in Dafny 4.11; `dafny verify dfyconfig.toml` checks all of it.

What is modelled:

- **The callout wheel** (`lib/ff_kern_timeout.c`): the hashed timing wheel that one clock advances, with
  handlers that arm, re-arm and stop callouts while a bucket is being swept. Times are 32-bit integers
  that wrap around. `CalloutTrace` says what a client sees, `CalloutSpec` has the invariant, `CalloutWheel`
  the functions as methods, and `CalloutDeeds` accounts for every event of a run.
- **The netgraph core** (`lib/ff_ng_base.c`): the reader/writer gate of a node with its queue and the
  worklist, as atomic steps of any number of activations (`NetgraphGate`), and what becomes of the items
  that are sent (`NetgraphItems`, `NetgraphAlone`); the hook graph with peer links and reference counts on
  the synchronous path (`NetgraphNet` and the modules after it, with the operations in `NetgraphHooks`,
  whole runs in `NetgraphRun` and what they come to in `NetgraphMeaning`); and the growing tables of IDs
  and names (`NodeHash`, `NodeRegistry`).
- **The HTTP/1 parser of the example** (`example/fstack0/http_parser.c`): every state in strict mode
  (`HttpSpec`), the meaning of a sequence of bytes (`HttpFold`), the code with its bulk loops, marks and
  re-executions as a refinement of it (`HttpExecute`), the framing of bodies (`HttpFraming`) and the bit
  field of the matcher (`HttpIndex`). What messages mean is proved from their text: methods and start lines
  (`HttpMethods`, `HttpStart`), and the fields Content-Length (`HttpHeader`), Transfer-Encoding
  (`HttpTransfer`) and Connection (`HttpConnection`).
- **SHA-1** (`freebsd/crypto/sha1.c`) against FIPS 180-1 (`Sha1Spec`, `Sha1`), with the worked example of its
  appendix A (`Sha1Example`).
- **Smaller parts**: the levelled timing wheel and the ring under it, the send queue, Toeplitz hashing and
  its indirection table, the transmit ring, the routing message, and the start-up tasks.

How it is built: functions and lemmas on values say what a step does and what it keeps; classes have the
program's fields and the program's loops, and their methods are proved to do what these functions say.
Pointers are numbers, and objects that are freed leave their map, so that every access shows the object
to be alive. Handlers, callbacks, type methods, `ff_write` and the results of system calls are arbitrary
functions of how often they were called.

Where the code does not do what one might expect, the model follows the code, and a lemma gives the exact
condition:

- `ng_bypass` needs two different hooks: with one hook given twice it makes the hook's peer its own peer
  and drops a reference too many (`NetgraphNet.BridgeKeeps`).
- Connecting a node to itself with one name for both ends gives it two valid hooks of that name
  (`NetgraphPair.LinkedUnique`).
- A node name of 32 characters passes the check, is cut to 31 and is filed under the uncut name; it is never
  found again and never in use (`NodeRegistry.FoundByName`, `NodeRegistry.LongNameTaken`).
- The table of hexadecimal digits has 128 entries of 256: a byte from 0x80 on is the digit 0 of a chunk size
  (`HttpFraming.HexExact`).
- `socket_write` compares its result with a length cast to int, and `socket_write_buffer` adds 8192 in 32
  bits (`SendQueue.ConservesExactly`, `SendQueue.LoopEnds`).
- A wheel timer whose interval is a multiple of the wheel's turn fires one turn late when it is added
  between triggers, and when it re-enters as the last one of its slot (`TimerTrace.FirstFiring`). Two timers
  under 10 ms in one slot can keep a trigger going for ever (`TimingWheel.SweepForever`).
- A routing message with an address of length 0 is not read back as it was written
  (`RouteMessage.RoundTrip`).

## Model

| member | source | states |
|---|---|---|
| `CalloutTrace.ExactlyOnce` | lib/ff_kern_timeout.c:303-331 | A callout that is armed for n ticks (one tick if n is not positive) and then left alone runs exactly once before the clock passes the tick after that, and it runs in that tick |
| `CalloutTrace.LeftAlone` | lib/ff_kern_timeout.c:557-609 | Until it runs it stays armed for n ticks (one if n is not positive) after it was armed, it never runs early, and after the run it is not armed |
| `CalloutDeeds.HandlerArms` | lib/ff_kern_timeout.c:465-469 | A reset by a handler stands in the log behind the run of that handler, in the same tick |
| `CalloutDeeds.AccountsRun` | lib/ff_kern_timeout.c:382-470 | A handler call extends the account by its run and by the events of its operations, in the state it starts from |
| `CalloutDeeds.CalledAsArmed` | lib/ff_kern_timeout.c:350-370 | In every run, what is called for a callout is the function with the argument that it was last armed with |
| `CalloutSpec.UnlinkKeeps` | lib/ff_kern_timeout.c:977-1006 | Taking a pending callout off its bucket, also one that the sweep was about to visit, keeps the wheel and the saved position right |
| `CalloutSpec.AddKeeps` | lib/ff_kern_timeout.c:350-370 | Putting a callout into the bucket of its 32-bit deadline keeps the wheel and the position of a sweep in progress right |
| `CalloutSpec.ResetKeeps` | lib/ff_kern_timeout.c:690-772 | Arming and re-arming, in or outside a sweep, moves the callout to the tick n ticks from now (one if n is not positive) and disturbs nothing else; new deadlines lie behind the tick being swept |
| `CalloutSpec.StopKeeps` | lib/ff_kern_timeout.c:789-1007 | A stop takes the callout off the wheel exactly when it was pending, and otherwise changes nothing |
| `CalloutSpec.TakeKeeps` | lib/ff_kern_timeout.c:637-641 | Taking the head of the free list for timeout leaves the pool right, with that callout in neither the pool nor the wheel |
| `CalloutSpec.ExecKeeps` | lib/ff_kern_timeout.c:690-772 | Whatever a handler or a client does keeps the invariant |
| `CalloutSpec.SweepStarts` | lib/ff_kern_timeout.c:573-580 | At the start of a bucket every callout due at that tick is in it and still ahead of the sweep |
| `CalloutSpec.SweepSkips` | lib/ff_kern_timeout.c:585-586 | Passing a callout of another turn of the wheel passes nothing that is due |
| `CalloutSpec.RunStarts` | lib/ff_kern_timeout.c:587-592 | The callout about to run is armed for the tick being swept, and cc_next is null or a member of the same bucket |
| `CalloutSpec.RunEnds` | lib/ff_kern_timeout.c:593-600 | After the handler every callout still due at this tick is at or after cc_next |
| `CalloutSpec.SweepEnds` | lib/ff_kern_timeout.c:573-603 | At the end of a bucket nothing that was due at its tick is left |
| `CalloutWheel.Wheel.constructor` | lib/ff_kern_timeout.c:269-295 | An empty wheel is idle, with the whole pool free, the last callout of the array first |
| `CalloutWheel.Wheel.UnlinkC` | lib/ff_kern_timeout.c:985-1003 | Refines the removal on states, cursor included |
| `CalloutWheel.Wheel.CalloutCcAdd` | lib/ff_kern_timeout.c:350-370 | Refines the insertion, with the deadline in 32-bit arithmetic |
| `CalloutWheel.Wheel.CalloutCcDel` | lib/ff_kern_timeout.c:372-380 | Refines the return of a pool callout to the free list |
| `CalloutWheel.Wheel.CalloutReset` | lib/ff_kern_timeout.c:690-772 | The callout now has the 32-bit time ticks + n (ticks + 1 if n is not positive), the given function, argument and flag, and is pending; reports whether a pending callout was cancelled |
| `CalloutWheel.Wheel.CalloutStop` | lib/ff_kern_timeout.c:789-1007 | Refines stopping; reports running, cancelled or not pending |
| `CalloutWheel.Wheel.TimeoutC` | lib/ff_kern_timeout.c:627-647 | Refines timeout; the handle is the head of the free list |
| `CalloutWheel.Wheel.UntimeoutC` | lib/ff_kern_timeout.c:649-666 | Stops the callout exactly if it still has this function and this argument |
| `CalloutWheel.Wheel.Perform` | lib/ff_kern_timeout.c:690-772 | Any operation keeps the invariant, writes its events and makes nothing more due in this sweep |
| `CalloutWheel.Wheel.RunHandler` | lib/ff_kern_timeout.c:465-469 | A handler that arms, re-arms and stops arbitrary callouts does exactly that, and keeps the invariant of the sweep |
| `CalloutWheel.Wheel.SoftclockCallCc` | lib/ff_kern_timeout.c:382-470 | The callout leaves the pending state and runs, its handler does exactly what the handler of this call does, and it is no longer current |
| `CalloutWheel.Wheel.RunDue` | lib/ff_kern_timeout.c:587-600 | One call: the number of callouts due at this tick goes down, so that the bucket is finished, and the account of where the events come from goes on |
| `CalloutWheel.Wheel.SweepBucket` | lib/ff_kern_timeout.c:573-603 | The inner loop ends with nothing due left behind; all it added to the log are handler calls with what the handlers did |
| `CalloutWheel.Wheel.Softclock` | lib/ff_kern_timeout.c:557-609 | The sweep catches up with the clock, whatever the handlers do; all it added to the log are handler calls with what the handlers did |
| `CalloutWheel.Wheel.CalloutTick` | lib/ff_kern_timeout.c:303-331 | Skipping empty buckets loses nothing: afterwards no armed callout is overdue; all it added to the log are handler calls with what the handlers did |
| `CalloutWheel.Wheel.Hardclock` | lib/ff_kern_timeout.c:1201-1217 | One tick: the clock advances by one and every due callout has run; the log grew by the tick and by the handler calls, each with the events of what that handler did |
| `CalloutWheel.RunsOnTime` | lib/ff_kern_timeout.c:557-609 | In any idle state of any run, for a callout armed for n ticks (one if n is not positive): its runs since then are none before that tick has passed and exactly one, in the right tick, afterwards |
| `CalloutWheel.HandlerOnTime` | lib/ff_kern_timeout.c:557-609 | The same for a callout that a handler armed: it runs exactly once, n ticks (one if n is not positive) counted from that handler |
| `CalloutWheel.Wheel.ClientCall` | lib/ff_kern_timeout.c:690-772 | An operation between two ticks does what it says and leaves nothing overdue |
| `CalloutWheel.AnyRun` | lib/ff_kern_timeout.c:1201-1217 | Every sequence of ticks and client operations, with arbitrary handlers, leads to a wheel with a punctual trace, and the trace consists of exactly these steps and of the handler calls between them, where the n-th handler did what the n-th handler does, in the state that was left to it |
| `NetgraphGate.StepKeeps` | lib/ff_ng_base.c:1950-2094 | Every atomic step of every activation keeps the invariant of the gate, the queue and the worklist |
| `NetgraphGate.RunInv` | lib/ff_ng_base.c:1950-2094 | So it holds after any interleaving |
| `NetgraphGate.CountedKeeps` | lib/ff_ng_base.c:2047-2094 | The word counts exactly the activations that hold the gate, as readers and as writer |
| `NetgraphGate.MutexedKeeps` | lib/ff_ng_base.c:2019-2044 | The mutex of the queue has one owner |
| `NetgraphGate.FlaggedKeeps` | lib/ff_ng_base.c:1950-2013 | OP_PENDING and the queue agree, except between a queue operation and its flag operation under the mutex |
| `NetgraphGate.InformedKeeps` | lib/ff_ng_base.c:1965-1995 | What an activation has read of the flag word is still good enough where it acts on it |
| `NetgraphGate.FifoKeeps` | lib/ff_ng_base.c:2019-2044 | What has arrived is what has left, followed by what is queued |
| `NetgraphGate.ScheduledKeeps` | lib/ff_ng_base.c:3477-3500 | NGQ2_WORKQ is set exactly while the node is on the worklist or an ngthread works on it, and only once |
| `NetgraphGate.AwakeKeeps` | lib/ff_ng_base.c:2338-2347 | A queued item always has someone who will come back to it |
| `NetgraphGate.WriterExcludes` | lib/ff_ng_base.c:1907-1936 | An active writer excludes all readers and other writers |
| `NetgraphGate.PendingIffQueued` | lib/ff_ng_base.c:2178-2204 | While the mutex is free OP_PENDING is set exactly when something is queued |
| `NetgraphGate.HeadPresent` | lib/ff_ng_base.c:1950-2013 | Wherever the head of the queue is inspected or taken there is one |
| `NetgraphGate.FirstInFirstOut` | lib/ff_ng_base.c:2019-2044 | Items leave the queue in the order in which they came |
| `NetgraphItems.EverythingEnters` | lib/ff_ng_base.c:2231-2347 | Over every interleaving: what an activation has sent is, in order, what got the gate directly or arrived in the queue, and the item it is still carrying |
| `NetgraphItems.ServedInOrder` | lib/ff_ng_base.c:1950-2044 | Over every interleaving: what arrived is, in order, what ng_dequeue returned and the flush freed, what is in the hand of the activation that holds the mutex, and what is queued |
| `NetgraphItems.TakenIsLast` | lib/ff_ng_base.c:2005-2013 | The item that ng_dequeue is about to return is the one that left the queue last |
| `NetgraphItems.NothingLost` | lib/ff_ng_base.c:3426-3470 | When all activations have come to rest, everything sent got the gate or arrived, and everything that arrived was served or freed, in order, or is queued |
| `NetgraphAlone.ReaderSent` | lib/ff_ng_base.c:2047-2073 | A reader that no other step disturbs is let in beside other readers exactly if there is no writer and nothing waits, and goes to the queue otherwise |
| `NetgraphAlone.WriterSent` | lib/ff_ng_base.c:2075-2094 | A writer is let in exactly if nobody is inside and nothing waits, and goes to the queue otherwise |
| `NetgraphAlone.QueuedSent` | lib/ff_ng_base.c:2019-2044 | An item that is to be queued is put at the end of the queue, even if the gate is free |
| `NetgraphAlone.HeadServed` | lib/ff_ng_base.c:1950-2013 | An ngthread that no other step disturbs takes the head of the queue and applies it, a reader if there is no writer, a writer if nobody is inside |
| `NetgraphAlone.HeadWaits` | lib/ff_ng_base.c:3426-3470 | Otherwise it gives the node up and leaves the queue as it is |
| `NetgraphGate.NoOvertaking` | lib/ff_ng_base.c:2047-2094 | A newcomer gets the gate directly only when nothing is queued |
| `NetgraphGate.NoLostWakeup` | lib/ff_ng_base.c:2338-2347 | If something is queued and the mutex is free, then NGQ2_WORKQ is set or a holder or releaser has not yet re-checked the queue |
| `NetgraphGate.NothingStranded` | lib/ff_ng_base.c:3426-3470 | When all activations have come to rest, what is queued is on the worklist |
| `NetgraphGate.ReaderCountExact` | lib/ff_ng_base.c:1907-1936 | The reader count is the number of readers inside and does not overflow its 30 bits |
| `NetgraphNet.FreedWhenUnlinked` | lib/ff_ng_base.c:1050-1062 | A hook that exists is listed, linked or held |
| `NetgraphNet.DropKeeps` | lib/ff_ng_base.c:1050-1062 | Dropping a reference keeps all counts exact and frees the hook with the last one |
| `NetgraphNet.CutKeeps` | lib/ff_ng_base.c:1184-1191 | Parting two peers keeps peers mutual and counts exact |
| `NetgraphNet.BridgeKeeps` | lib/ff_ng_base.c:1253-1257 | The link updates of ng_bypass keep the graph right if and only if the two hooks are different ones |
| `NetgraphNet.EnlistKeeps` | lib/ff_ng_base.c:1110-1116 | Entering a node keeps nd_numhooks equal to the length of the list, and the counts exact |
| `NetgraphNet.UnlistKeeps` | lib/ff_ng_base.c:1216-1232 | So does leaving it |
| `NetgraphNet.UnpinKeeps` | lib/ff_ng_base.c:797-825 | A node is freed exactly with its last reference, and then has no hooks |
| `NetgraphView.SameNet` | lib/ff_ng_base.c:1050-1062 | In a right state the counts follow from what else there is |
| `NetgraphHooks.Graph.UnrefHook` | lib/ff_ng_base.c:1050-1062 | NG_HOOK_UNREF on an existing, held hook |
| `NetgraphHooks.Graph.UnrefNode` | lib/ff_ng_base.c:797-825 | NG_NODE_UNREF on an existing, held node |
| `NetgraphHooks.Graph.FindHook` | lib/ff_ng_base.c:1129-1142 | A valid hook of that name on the node is found exactly when there is one |
| `NetgraphHooks.Graph.AddHook` | lib/ff_ng_base.c:1068-1120 | EEXIST, the veto or a new unconnected hook; after an error nothing has changed |
| `NetgraphHooks.Graph.Leave` | lib/ff_ng_base.c:1210-1234 | The hook is gone from its node, and freed if nobody holds it |
| `NetgraphHooks.Graph.Part` | lib/ff_ng_base.c:1184-1206 | The peers know each other no more, and the peer has destroyed itself unless its node is invalid |
| `NetgraphHooks.Graph.RmhookSelf` | lib/ff_ng_base.c:1632-1643 | The message destroys the hook, or does nothing on an invalid node; the references of the item are gone |
| `NetgraphHooks.Graph.DestroyHook` | lib/ff_ng_base.c:1162-1235 | Takes away the hook and its peer (the peer stays, unlinked, if its node is invalid), frees what nobody holds, and touches nothing else |
| `NetgraphHooks.Graph.Bypass` | lib/ff_ng_base.c:1241-1267 | EINVAL, or the two hooks are gone and their peers are joined; hooks that are each other's peer just go |
| `NetgraphHooks.Graph.Rmnode` | lib/ff_ng_base.c:717-791 | All hooks of the node and their peers are gone, other hooks are untouched, and the node is freed unless its type keeps it or someone holds it |
| `NetgraphHooks.Graph.SendPart3` | lib/ff_ng_base.c:1345-1386 | The first hook becomes valid, or a veto destroys the pair |
| `NetgraphHooks.Graph.Part2` | lib/ff_ng_base.c:1388-1476 | The second hook enters its node and both become valid, or every veto path leaves both unlinked |
| `NetgraphHooks.Graph.SendPart2` | lib/ff_ng_base.c:3759-3793 | The same through an item, whose references are gone afterwards |
| `NetgraphHooks.Graph.Connect` | lib/ff_ng_base.c:1482-1527 | Success exactly if both names are free, the other node is valid and none of the four vetoes is set; EEXIST exactly if a name is taken; EINVAL exactly if both are free, the first node does not refuse and the other node is invalid. On success two valid mutual peers under these names with two references each, on any failure exactly the state before |
| `NetgraphHooks.Graph.ConNodes` | lib/ff_ng_base.c:1482-1527 | The steps of the function: the first of the checks and vetoes that applies decides |
| `NetgraphPair.ConnectMeans` | lib/ff_ng_base.c:1482-1527 | That order of checks means the conditions above |
| `NetgraphHooks.Graph.Couple` | lib/ff_ng_base.c:1557-1602 | The part of ng_mkpeer behind the creation of the node |
| `NetgraphHooks.Graph.TakeBack` | lib/ff_ng_base.c:1561-1566 | A refused second hook: the new node and the first hook go |
| `NetgraphHooks.Graph.Settle` | lib/ff_ng_base.c:1568-1601 | The final vetoes: both hooks valid, or everything taken back |
| `NetgraphHooks.Graph.Mkpeer` | lib/ff_ng_base.c:1545-1602 | Success exactly if the type is known, its constructor agrees, the name is free and no veto is set; ENXIO, EINVAL and EEXIST exactly for an unknown type, a missing constructor and a name that is taken. On success as Connect, with a new node that is gone again after a failure unless its type keeps it |
| `NetgraphMkpeer.MkpeerMeans` | lib/ff_ng_base.c:1545-1602 | The order of checks means these conditions |
| `NetgraphHooks.Graph.NewNode` | lib/ff_ng_base.c:644-692 | A node with one reference and no hooks |
| `NetgraphPair.LinkedUnique` | lib/ff_ng_base.c:1482-1527 | Connecting keeps the hook names of a node different if and only if it is not one node with one name for both ends |
| `NetgraphPair.ShedUnique` | lib/ff_ng_base.c:1162-1235 | Destroying hooks keeps them different |
| `NetgraphPair.BypassUnique` | lib/ff_ng_base.c:1241-1267 | So does a bypass |
| `NetgraphPair.Restored` | lib/ff_ng_base.c:1517-1526 | If nothing is left of the new hooks, the state is the one before |
| `NetgraphRun.RestCounts` | lib/ff_ng_base.c:1050-1120 | Between operations every hook is listed, has a mutual peer and exactly two references, nd_numhooks is the length of the list, and a node has one reference per hook and its own |
| `NetgraphRun.DidUnique` | lib/ff_ng_base.c:1482-1527 | An operation keeps the hook names of every node different, if and only if it does not connect a node to itself under one name |
| `NetgraphRun.Perform` | lib/ff_ng_base.c:2533-2612 | Every operation, with any vetoes, leads from such a state to such a state, by exactly the change it stands for |
| `NetgraphRun.AnyRun` | lib/ff_ng_base.c:2533-2612 | So does every operation of every run that starts with no nodes; and the hooks of a node have different names in every state, as long as no node is connected to itself under one name |
| `NetgraphMeaning.HookGone` | lib/ff_ng_base.c:1162-1235 | Between operations, destroying a hook takes away it and its peer: the hooks are all the others, unchanged, and the lists of the nodes lose just these two |
| `NetgraphMeaning.HooksBypassed` | lib/ff_ng_base.c:1241-1267 | A bypass takes away the two hooks, makes their peers each other's peer, and changes no other hook |
| `NetgraphMeaning.NodeGone` | lib/ff_ng_base.c:717-791 | A shutdown leaves exactly the hooks that are not on the node and whose peers are not, unchanged; the node is gone, or without hooks if its type keeps it |
| `NetgraphMeaning.RmhookMeans` | lib/ff_ng_base.c:2596-2610 | The message rmhook takes a hook of that name and its peer away if there is one, and changes nothing otherwise |
| `NetgraphMeaning.RmnodeMeans` | lib/ff_ng_base.c:2542-2544 | The message shutdown does what the shutdown of the node does |
| `NodeHash.InsertedHolds` | lib/ff_ng_base.c:689-691 | Inserting keeps every node in the list of its hash value, once |
| `NodeHash.RemovedHolds` | lib/ff_ng_base.c:806-818 | So does removing |
| `NodeHash.HashSize` | lib/ff_kern_subr.c:65-68 | The largest power of two that is not above the number asked for |
| `NodeHash.Rehash` | lib/ff_ng_base.c:993-1007 | Moving all lists to a table of another size, by the hash values at that time, loses and doubles no node |
| `NodeRegistry.CheckName` | lib/ff_ng_base.c:863-871 | Accepts exactly the names of 1 to 32 characters without dots and colons |
| `NodeRegistry.FoundByName` | lib/ff_ng_base.c:881-897 | After a node was named, the name given finds that node and no other if the node is valid and the name has fewer than 32 characters; otherwise it finds nothing, whether or not the node had a name before |
| `NodeRegistry.LongNameTaken` | lib/ff_ng_base.c:883-895 | A name of 32 characters is never reported as in use: every node can be given it, and keeps the first 31 |
| `NodeRegistry.NamedMeans` | lib/ff_ng_base.c:856-901 | EINVAL exactly for names that are empty, longer than 32 characters, contain a dot or colon, or have the form of an ID; success, while no name is cut short, exactly if no valid node has the name; then the node has the name, cut to 31 characters, and nothing else changes |
| `NodeRegistry.NamedPlain` | lib/ff_ng_base.c:881-897 | Naming a node cuts no name short if and only if it is refused or the name has fewer than 32 characters |
| `NodeRegistry.PlainFinds` | lib/ff_ng_base.c:930-942 | As long as that is so, the search by name sees exactly the valid nodes that have the name |
| `NodeRegistry.RefiledOk` | lib/ff_ng_base.c:995-1003 | Rehashing puts every node into the list of the name it has kept |
| `NodeRegistry.Registry.FindId` | lib/ff_ng_base.c:202-213 | A valid node with the ID is found exactly when there is one |
| `NodeRegistry.Registry.FindName` | lib/ff_ng_base.c:930-942 | A node is found exactly when one is valid, has the name and was put into the list of that name; while no name is cut short, exactly when a valid node has the name |
| `NodeRegistry.Registry.GrowIds` | lib/ff_ng_base.c:1012-1038 | The table doubles if there is memory, stays as it is otherwise, and both searches stay right |
| `NodeRegistry.Registry.GrowNames` | lib/ff_ng_base.c:981-1007 | The table doubles if there is memory, with every node in the list of the name it has kept, and stays as it is otherwise |
| `NodeRegistry.Registry.ChooseId` | lib/ff_ng_base.c:674-686 | The loop ends, also across the 32-bit wrap, with the next ID that is not 0 and that no valid node has |
| `NodeRegistry.Registry.MakeNode` | lib/ff_ng_base.c:644-692 | The new node is registered under such an ID |
| `NodeRegistry.Registry.NameNode` | lib/ff_ng_base.c:856-901 | EINVAL, EADDRINUSE or the new name, each exactly when it should be, for names of any length; after success the name given finds the node if and only if it has fewer than 32 characters and the node is valid |
| `NodeRegistry.Registry.Rename` | lib/ff_ng_base.c:888-897 | The node moves from the list it is in to that of the new name, and keeps as much of the name as fits |
| `NodeRegistry.Registry.FreeNode` | lib/ff_ng_base.c:797-825 | The node leaves both tables |
| `NodeRegistry.Registry.SetValid` | lib/ff_ng_base.c:757-775 | Invalidating and reviving nodes keeps the tables right |
| `NodeRegistry.AnyRun` | lib/ff_ng_base.c:856-943 | Every step of a run does to the nodes what it stands for, and in the state it leads to the search by ID finds a valid node with the ID exactly when there is one, and the search by name one with the name, if no name of 32 characters was given |
| `HttpSpec.AgainDescends` | example/fstack0/http_parser.c:713-714 | Every re-execution for the same byte goes to a state of lower rank, so that it ends |
| `HttpSpec.TurnKeeps` | example/fstack0/http_parser.c:1823 | No assert statement of the parser fails, and lengths stay below the ULLONG_MAX sentinel |
| `HttpSpec.VisitFits` | example/fstack0/http_parser.c:714-2062 | Each state marks and delivers data only of the field it is in |
| `HttpIndex.IndexFits` | example/fstack0/http_parser.h:299 | Over every input the index of the matcher stays below 128, the size of its bit field |
| `HttpIndex.AlwaysFits` | example/fstack0/http_parser.h:299 | In particular from a new parser on |
| `HttpFold.FoldAppend` | example/fstack0/http_parser.c:638-644 | Reading a and then b means the same as reading their concatenation |
| `HttpFold.NameFold` | example/fstack0/http_parser.c:1248-1382 | What a stretch of header name bytes means, byte by byte |
| `HttpFold.ValueFold` | example/fstack0/http_parser.c:1469-1668 | What a stretch of header value bytes means |
| `HttpFold.ValueTooLong` | example/fstack0/http_parser.c:1469-1500 | A value beyond the header limit is an error, whatever it contains |
| `HttpFold.BodyFold` | example/fstack0/http_parser.c:1873-1907 | What a stretch of body bytes means |
| `HttpExecute.Turns` | example/fstack0/http_parser.c:711-716 | The re-executions of one byte refine its meaning, with the data callbacks |
| `HttpExecute.ScanName` | example/fstack0/http_parser.c:1253-1372 | The loop over a header name stops at its end, with the header state of the name so far |
| `HttpExecute.NamePart` | example/fstack0/http_parser.c:1248-1382 | The bulk loop over a header name equals the byte-by-byte fold, nread included |
| `HttpExecute.ScanGeneral` | example/fstack0/http_parser.c:1499-1519 | The bounded loop over an uninteresting value stops at the first line end within the limit, or refuses a bad character |
| `HttpExecute.ScanValue` | example/fstack0/http_parser.c:1476-1650 | The loop over a header value |
| `HttpExecute.EndValue` | example/fstack0/http_parser.c:1475-1488 | At the line end the value is delivered, and a line feed is handled at once |
| `HttpExecute.ValuePart` | example/fstack0/http_parser.c:1469-1668 | The bulk loop over a header value equals the fold |
| `HttpExecute.BodyPart` | example/fstack0/http_parser.c:1873-1907 | The bulk steps over a body equal the fold; the last byte ends it |
| `HttpExecute.BytePart` | example/fstack0/http_parser.c:705-716 | All other states, one byte |
| `HttpExecute.Flush` | example/fstack0/http_parser.c:2064-2076 | Data that is still marked at the end of the buffer is delivered |
| `HttpExecute.Run` | example/fstack0/http_parser.c:638-2078 | A buffer leads to the state, the notifications and the field bytes of the fold, and to an error exactly when the fold does |
| `HttpExecute.HttpParser.constructor` | example/fstack0/http_parser.c:2148-2156 | Every field of a new parser: the start state of its kind, no flags, nothing counted |
| `HttpExecute.HttpParser.Execute` | example/fstack0/http_parser.c:638-2086 | The same with the stored error, and the end of the input |
| `HttpExecute.RunParts` | example/fstack0/http_parser.c:682-711 | Any number of buffers lead to what the fold of their concatenation says |
| `HttpExecute.AnyFragmentation` | example/fstack0/http_parser.c:682-711 | The same final state, notifications and bytes per field, however an accepted input is cut |
| `HttpMethods.EveryMethod` | example/fstack0/http_parser.c:920-1014 | Each of the 34 methods is recognised from the letters of its name |
| `HttpStart.RequestLine` | example/fstack0/http_parser.c:920-1196 | From the text of a request line, any method and path: the parser has the method, the version by its digits, no flags and no length, has reported the start of the message and every byte of the path, and is at the header |
| `HttpStart.StatusFold` | example/fstack0/http_parser.c:843-886 | The status is the decimal number of the digits, and is refused exactly if that is above 999 |
| `HttpStart.StatusLine` | example/fstack0/http_parser.c:763-918 | The same for the text of a status line, with the status as a number and the bytes of the reason |
| `HttpStart.NextMessage` | example/fstack0/http_parser.c:2088-2127 | The connection is dead after a message exactly if it was HTTP/1.1 or such with close, older without keep-alive, or a response whose body nothing but the end of the connection could end; otherwise the next message of the same kind is expected |
| `HttpConnection.FieldThere` | example/fstack0/http_parser.c:1198-1766 | From the text of a Connection field, its name in any mixture of cases and its value no list: exactly the flag of keep-alive, close or upgrade is set that the value spells, and no other flag changes |
| `HttpConnection.WholeRequest` | example/fstack0/http_parser.c:920-1868 | A whole request without a body, from its text: every part is reported in order, the message is complete with its last byte, and another request may follow exactly if neither version digit is 0 and the field is not close, or one of them is and it is keep-alive |
| `HttpFraming.DecimalExact` | example/fstack0/http_parser.c:1529-1557 | Content-Length digits are accepted exactly until the next one could pass 2^64 - 1, and give the decimal value |
| `HttpFraming.ContentLengthPrefix` | example/fstack0/http_parser.c:1873-1907 | Before the last byte of the announced length only the body is reported |
| `HttpFraming.ContentLengthFraming` | example/fstack0/http_parser.c:1826-1907 | Exactly the next N bytes are the body, and with the last of them the message is complete |
| `HttpHeader.NumberThere` | example/fstack0/http_parser.c:1384-1557 | The number in the text of the field is decoded exactly, or refused exactly when the overflow test says so |
| `HttpHeader.HeaderFraming` | example/fstack0/http_parser.c:1198-1907 | From the header text: a Content-Length field, its name in any mixture of cases, any blanks and a decimal number, is followed by a body of exactly that many bytes, with whose last the message is complete, also when there are none; a number that the overflow test stops is an error |
| `HttpTransfer.FieldThere` | example/fstack0/http_parser.c:1198-1766 | From the text of a Transfer-Encoding field, its name in any mixture of cases and any value: the flag for the chunked coding is set if and only if the value is the word chunked, in any mixture of cases, and spaces; no other flag changes |
| `HttpTransfer.TransferFraming` | example/fstack0/http_parser.c:1198-2045 | From the header text: such a field with the value chunked, the empty line and the coding of any chunks give the end of the header, the data of the chunks and the end of the message |
| `HttpFraming.SizeFold` | example/fstack0/http_parser.c:1925-1976 | A chunk size is accepted if and only if its value is at most 2^64 - 17, and is then that value without wrap-around |
| `HttpFraming.HexExact` | example/fstack0/http_parser.c:224-233 | The value is that of the hexadecimal text if and only if every byte is below 0x80; the table takes the others for the digit 0 |
| `HttpFraming.HighBytes` | example/fstack0/http_parser.c:224-233 | The byte 0x80 alone is a last chunk, and behind a 1 it makes the size 16 |
| `HttpFraming.ChunkFold` | example/fstack0/http_parser.c:1925-2045 | One chunk of the coding of section 4.1 of RFC 7230 gives its data |
| `HttpFraming.ChunksFold` | example/fstack0/http_parser.c:1925-2045 | A list of chunks gives its data in order |
| `HttpFraming.ChunkedFraming` | example/fstack0/http_parser.c:1925-2045 | The chunked coding of any list of non-empty chunks is decoded, and the last chunk and the empty line complete the message |
| `HttpFraming.DecodedBody` | example/fstack0/http_parser.c:2007-2028 | The body bytes reported for the chunks are the concatenation of their data |
| `Sha1Spec.PadWhole` | freebsd/crypto/sha1.c:188-221 | The padding of section 4 of FIPS 180-1 fills whole blocks |
| `Sha1Spec.LengthWorth` | freebsd/crypto/sha1.c:209-220 | The eight bytes of the length are the digits of the number to the base 256, most significant first |
| `Sha1Example.Abc` | freebsd/crypto/sha1.c:90-272 | The worked example of appendix A of FIPS 180-1: with the registers that it lists after every tenth round, the digest of abc is a9993e36 4706816a ba3e2571 7850c26c 9cd0d89d |
| `Sha1.RingNext` | freebsd/crypto/sha1.c:138-163 | The word computed in place in the 16-word ring is the next word of the 80-word schedule |
| `Sha1.RingOthers` | freebsd/crypto/sha1.c:138-163 | and the other 15 places still hold the words that are needed |
| `Sha1.LoadWords` | freebsd/crypto/sha1.c:97-136 | The block as big-endian words is the start of the schedule |
| `Sha1.RoundIs` | freebsd/crypto/sha1.c:58-65 | One round with the macros F0 to F3, S and K of the program is one round of section 7 |
| `Sha1.TwentyRounds` | freebsd/crypto/sha1.c:138-163 | Twenty rounds with the macros of the program, each with its word from the ring, are rounds of section 7 with the words of the schedule |
| `Sha1.Context.constructor` | freebsd/crypto/sha1.c:176-186 | The initial hash value |
| `Sha1.Context.Step` | freebsd/crypto/sha1.c:90-172 | The compression of section 7 of FIPS 180-1 |
| `Sha1.Context.Fill` | freebsd/crypto/sha1.c:236-246 | A full buffer is hashed, a part of one is kept |
| `Sha1.Context.PutPad` | freebsd/crypto/sha1.c:79-85 | One padding byte |
| `Sha1.Context.Loop` | freebsd/crypto/sha1.c:223-249 | However long the input is, it is appended to what was hashed, and its bits are counted modulo 2^64 |
| `Sha1.Context.PadMessage` | freebsd/crypto/sha1.c:188-221 | One bit, the least number of zeros that leaves room for the length, and the length; the buffer is empty then |
| `Sha1.Context.PutLength` | freebsd/crypto/sha1.c:209-220 | The 64-bit length, most significant byte first |
| `Sha1.Context.Result` | freebsd/crypto/sha1.c:251-272 | The digest of everything that was fed in, if that was less than 2^61 bytes |
| `Sha1.HashPieces` | freebsd/crypto/sha1.c:223-272 | For any way of cutting a message under 2^61 bytes into calls the result is the digest of the whole |
| `TimerTrace.EveryNth` | example/fstack0/timingwheel.c:95-129 | A timer of ms / 10 triggers, no multiple of the size, fires at once, twice, three times ... that many triggers after it was added and at no other time, while it answers TW_SUCCESS |
| `TimerTrace.FirstFiring` | example/fstack0/timingwheel.c:71-119 | In every good trace the first firing of a timer comes ms / 10 triggers after it was added if and only if that is no multiple of the size or the sweep still comes by; otherwise one turn later |
| `TimerTrace.GoneForGood` | example/fstack0/timingwheel.c:88-124 | A timer that was deleted or answered TW_CLOSE never fires again unless it is added again |
| `TimerTrace.OneTurnLater` | example/fstack0/timingwheel.c:107-124 | After any other answer the next firing comes one turn of the wheel later |
| `TimerTrace.NeverLate` | example/fstack0/timingwheel.c:95-129 | No timer is ever overdue |
| `TimingSpec.TargetWaits` | example/fstack0/timingwheel.c:74-83 | In slot (p + n) mod size at level n / size a timer waits for the right number of triggers |
| `TimingSpec.CursorMoves` | example/fstack0/timingwheel.c:96-99 | Level times size plus slot distance goes down by one with each trigger |
| `TimingSpec.MovedKeeps` | example/fstack0/timingwheel.c:110-119 | A timer that re-enters the wheel inside a sweep, even in the slot being swept, is where its deadline says |
| `TimingSpec.LoweredKeeps` | example/fstack0/timingwheel.c:125-127 | So is one that goes down a level |
| `TimingSpec.TakenKeeps` | example/fstack0/timingwheel.c:88-93 | Removing a timer, by TW_CLOSE or by tw_del_timer, disturbs no other |
| `TimingSpec.StayedKeeps` | example/fstack0/timingwheel.c:107-124 | After another answer the timer fires again one turn later |
| `TimingSpec.PutKeeps` | example/fstack0/timingwheel.c:71-86 | A timer that is added, between two sweeps or by a callback, is where its deadline says, also in the slot being swept |
| `TimingSpec.ActKeeps` | example/fstack0/timingwheel.c:104-128 | Whatever a callback adds and deletes, the sweep still stands at its timer and goes on with the next one, and no more timers have become due |
| `TimingSpec.Settled` | example/fstack0/timingwheel.c:107-124 | After a call the timer is where its answer says, and the sweep goes on with the timer that followed it, or ends |
| `TimingSpec.CallCloser` | example/fstack0/timingwheel.c:104-128 | Every call brings the sweep nearer to its end, if at most one timer of the slot has an interval under 10 ms |
| `TimingWheel.SweepForever` | example/fstack0/timingwheel.c:104-128 | If two of the timers that are due have intervals under 10 ms, callbacks that ask for another call keep the sweep of the next trigger going for ever; so the condition under which a trigger ends is exact |
| `TimingWheel.OneShortSlot` | example/fstack0/timingwheel.c:96-101 | The timers under 10 ms in the next slot are exactly those that are due with the next trigger |
| `TimingWheel.Wheel.constructor` | example/fstack0/timingwheel.c:23-47 | The number of slots is the interval in units of 10, rounded up |
| `TimingWheel.Wheel.AddTimer` | example/fstack0/timingwheel.c:71-86 | The timer is registered for its deadline, whatever its interval, also when a callback adds it |
| `TimingWheel.Wheel.DelTimer` | example/fstack0/timingwheel.c:88-93 | The timer is gone and no other is touched |
| `TimingWheel.Wheel.Fire` | example/fstack0/timingwheel.c:107-124 | A timer is called when it is due; what its callback adds and deletes is done, and the timer is treated as it answers |
| `TimingWheel.Wheel.RunCallback` | example/fstack0/timingwheel.c:109 | A callback that adds timers and deletes others does exactly that, and the sweep can go on |
| `TimingWheel.Wheel.Lower` | example/fstack0/timingwheel.c:125-127 | A timer of a later turn is not called |
| `TimingWheel.Wheel.Tick` | example/fstack0/timingwheel.c:95-129 | One trigger: the sweep ends, and all timers that are due have fired; the log grew by the trigger and by the calls, each with what its callback did |
| `TimingWheel.AnyRun` | example/fstack0/timingwheel.c:71-129 | The log of every run consists of the events of its steps, one after the other: an added timer is in it, a deleted one leaves it, and a trigger is followed by the calls with what the callbacks do; and in that log timers fire exactly when they are due |
| `ListRing.AddBetween` | example/fstack0/list.h:30-39 | The new node is between its neighbours and all other links still go around |
| `ListRing.ListAdd` | example/fstack0/list.h:49-51 | The new node follows the head |
| `ListRing.ListAddTail` | example/fstack0/list.h:62-64 | The new node is the last one |
| `ListRing.ListDel` | example/fstack0/list.h:88-92 | The others close up, the entry is a ring of its own |
| `ListRing.ForEachSafe` | example/fstack0/list.h:354-361 | Iterating over a ring with a body that keeps, deletes or re-enters the entry it is at visits the entries, and leaves the ring, as the walk over the sequence says |
| `ListRing.EachOnce` | example/fstack0/list.h:354-361 | Without re-entries every entry is visited once, in order, and exactly those that are not deleted stay |
| `ListRing.NoneMissed` | example/fstack0/list.h:354-361 | With re-entries every entry is still visited, and without deletions the entries stay the same |
| `Toeplitz.WindowRolls` | lib/ff_dpdk_if.c:1636-1641 | Shifting in the next key bit gives the next 32-bit window of the key |
| `Toeplitz.FirstWindow` | lib/ff_dpdk_if.c:1633 | The first four bytes are the first window |
| `Toeplitz.ToeplitzHash` | lib/ff_dpdk_if.c:1624-1645 | The rolling loop computes the exclusive or of the key windows at all set data bits |
| `Toeplitz.HashLinear` | lib/ff_dpdk_if.c:1624-1645 | The hash of an exclusive or is the exclusive or of the hashes |
| `Rss.SetRssTable` | lib/ff_dpdk_if.c:508-517 | Entry e of the table names queue e mod nb_queues |
| `Rss.MaskIsRemainder` | lib/ff_dpdk_if.c:1686 | Masking with a power of two minus one takes the remainder |
| `Rss.RssCheck` | lib/ff_dpdk_if.c:1647-1687 | True for one queue; otherwise the comparison of the masked hash |
| `Rss.TableAgrees` | lib/ff_dpdk_if.c:1686 | The entry a hash selects is in the table and is the queue of the comparison |
| `Rss.Claims` | lib/ff_dpdk_if.c:1647-1687 | Of all queues exactly the one that the written table names claims a tuple |
| `TxRing.FreedWhen` | lib/ff_memory.c:164-189 | A buffer is freed exactly when the descriptor TX_QUEUE_SIZE after its last one is used |
| `TxRing.FreedOnce` | lib/ff_memory.c:164-189 | and only once |
| `TxRing.Ring.constructor` | lib/ff_memory.c:208-211 | An empty ring |
| `TxRing.Ring.Use` | lib/ff_memory.c:177-182 | One descriptor: what was in its place is freed |
| `TxRing.Ring.Enqueue` | lib/ff_memory.c:173-189 | The buffer is recorded at the last of its segments, for any number of them |
| `RouteMessage.MsgBuffer` | lib/ff_route.c:239-349 | Without a buffer the length is found, the least multiple of 8 that holds header and addresses; with one writing succeeds exactly when the buffer has that length, and then the addresses are behind the header |
| `RouteMessage.SaSizeLeast` | lib/ff_route.c:192-228 | An address takes the least positive multiple of 8 that is not below its length |
| `RouteMessage.Xaddrs` | lib/ff_route.c:192-228 | The loop finds address after address, and stops at a length that does not fit or is 0 |
| `RouteMessage.RoundTrip` | lib/ff_route.c:192-228 | Reading what was written gives the same addresses in the same slots if and only if none has the length 0 |
| `RouteMessage.MessageRoundTrip` | lib/ff_route.c:290-348 | The same for the buffer that writing leaves |
| `Sysinit.ExactlyOnce` | lib/ff_init_main.c:195-280 | In a good trace no task runs twice, and only registered ones run that are no dummies |
| `Sysinit.InOrder` | lib/ff_init_main.c:200-280 | A task that runs is registered, is no dummy and has not run; every other task for which that holds has a higher subsystem number, or the same and no lower order |
| `Sysinit.Sort` | lib/ff_init_main.c:200-211 | The exchange sort leaves a permutation, ordered by subsystem and order |
| `Sysinit.TraversalFinds` | lib/ff_init_main.c:231-238 | The first task not yet done comes before all others that are registered and not done |
| `Sysinit.TraversalEnds` | lib/ff_init_main.c:231-279 | At the end everything that is no dummy is done |
| `Sysinit.Startup.SysinitAdd` | lib/ff_init_main.c:127-156 | The tasks are those of before and the new ones |
| `Sysinit.Startup.Call` | lib/ff_init_main.c:260-268 | A called task registers what it registers and is marked as done |
| `Sysinit.Startup.RunOne` | lib/ff_init_main.c:260-279 | Each task that is run is the next one of those registered |
| `Sysinit.Startup.Traverse` | lib/ff_init_main.c:200-279 | One sort and traversal, up to the first task that registers others; the log grew by the tasks run, each with what it registers |
| `Sysinit.Startup.MiStartup` | lib/ff_init_main.c:170-282 | Every registered task whose subsystem is above 1 has run, each as the minimal one of those not yet run, whatever they register; the log grew by the tasks run, the n-th with what the n-th task registers |
| `SendQueue.Sock.WriteBuffer` | example/fstack0/socket.c:166-193 | Where the loop ends, the bytes are appended to what waits, in buffers that hold them |
| `SendQueue.LoopEnds` | example/fstack0/socket.c:170-190 | The loop that fills buffers ends if and only if the length is at most 2^32 - 8192 |
| `SendQueue.PieceWraps` | example/fstack0/socket.c:176-187 | For a longer one it copies beyond the end, and begins anew |
| `SendQueue.CutPending` | example/fstack0/socket.c:170-190 | The buffers hold the bytes in their order |
| `SendQueue.Sock.SendQueued` | example/fstack0/socket.c:207-233 | What ff_write takes leaves the queue, and nothing else |
| `SendQueue.DrainMoves` | example/fstack0/socket.c:207-233 | The loop over the queue moves its bytes to the wire, counts them, and stops at the first call that takes less than it is given |
| `SendQueue.ConservesBelow` | example/fstack0/socket.c:195-253 | What is on the wire followed by what waits is what was there followed by the new bytes, or without them after an error; success means that nothing waits, and anything else that ff_write took less than it was given or failed |
| `SendQueue.ConservesExactly` | example/fstack0/socket.c:195-253 | That holds for every socket and every behaviour of ff_write if and only if there are fewer than 2^31 new bytes |
| `SendQueue.LostAbove` | example/fstack0/socket.c:234-250 | From 2^31 bytes on, a call of ff_write that takes nothing makes socket_write report success and lose all bytes |
| `SendQueue.Sock.SocketWrite` | example/fstack0/socket.c:195-253 | Does what the function on values says, which keeps the stream below 2^31 new bytes |

## Left out

- Callout locks, draining, migration between processors and the reentrant clock: locks and sleeping do
  nothing in this build. The panic of `timeout` with an empty pool is modelled as a call without effect.
- CalloutWheel.AnyRun: the wheel's size divides 2^32, as the code's power of two does.
- NetgraphGate.RunInv: fewer than 2^30 activations at a time, as the 30-bit reader count demands.
- NetgraphHooks.Graph.Connect: allocation of hooks and items succeeds, and the types' methods veto but do
  not call back into the graph; a type's own `findhook` is left out. The hk_node of a new hook is set
  together with its place in the list.
- NetgraphHooks.Graph.Mkpeer: allocation succeeds, as above.
- NetgraphHooks.Graph.Rmnode: a type's close method does not touch the graph.
- NetgraphHooks.Graph.AddHook: allocation succeeds, and hk_node is set together with the place in the list.
- NetgraphHooks.Graph.UnrefHook: the reference to the node goes with the place in the list, not with the last
  reference to the hook.
- NetgraphHooks.Graph.Bypass: one valid hook given twice is left out; `NetgraphNet.BridgeKeeps` shows that the
  assignments then break the graph.
- NodeRegistry.Registry.NameNode: whether a name has the form of an ID is a parameter.
- HttpExecute.HttpParser.Execute: callbacks other than on_headers_complete return 0, nothing pauses, and
  the header limit is below 2^32 - 1; which error is reported is not stated, because that depends on the
  buffers. For input longer than 2^32 bytes less the limit only accepted input is described, because the
  32-bit count of header bytes could wrap.
- HttpExecute.AnyFragmentation: for accepted input without upgrade.
- HttpStart.RequestLine: for a URL that is a path; other forms of URL are in `HttpSpec` and `HttpExecute` only.
- HttpConnection.FieldThere: for one value, not a list of them.
- HTTP URL splitting (`http_parser_parse_url`), pausing and the message strings.
- Sha1.Context.Result: for less than 2^61 bytes, beyond which the 64-bit bit count wraps.
- TimingWheel.Wheel.Tick: at most one of the timers that are due has an interval under 10 ms, because the
  callbacks could otherwise keep the sweep going for ever (`TimingWheel.SweepForever`); `TimingWheel.AnyRun` gives
  no other trigger.
- TimingWheel.Wheel.RunCallback: a callback adds no timer under 10 ms, and does not delete its own timer or
  the next one of the slot, which the loop goes on to use. Callbacks are never null.
- The wheel's lists are sequences there; `ListRing` shows their link operations to be those of a sequence.
- RouteMessage.MsgBuffer: the header's own fields are left out, and its length is a parameter, the same for
  finding the length and for writing; scope rewriting is off.
- Rss.Claims: for a table size that is a power of two, as the mask demands.
- Sysinit.Startup.MiStartup: tasks register tasks of a fixed, finite universe.
- SendQueue.Sock.SocketWrite: buffers can be allocated, and the call is one that returns.
- SendQueue.Sock.WriteBuffer: for the lengths for which the loop ends.
- The page stack and `ff_txring_pop` of `lib/ff_memory.c`, burst sending in `lib/ff_dpdk_if.c`, device and
  configuration set-up, system call wrappers and translation tables: these would add easy members only.
- Node-type methods and the conversion of netgraph messages to and from text.
