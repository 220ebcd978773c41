# A verified model of the message broker and its file system

The repository is a small publish/subscribe broker (`mbroker`) that keeps every message box as a file of an
in-memory file system (TécnicoFS), takes requests from a named pipe and hands them to worker threads through a
bounded queue. This project models the parts whose correctness depends on several functions or several threads at
once, and proves what they keep. `dafny verify dfyconfig.toml` checks all of it.

## What is modelled

**TécnicoFS.** `Tfs.dfy` is the C code as a class: inode table, allocation bitmaps and open-file table as arrays,
and one flat byte array that holds the file contents and, packed into 44-byte records, the root directory. Its
methods keep the loops and branches of `fs/state.c` and `fs/operations.c`. Each is proved to compute a function of
`TfsState.dfy` on the whole state, and each array access is in bounds, so no `ALWAYS_ASSERT` there can fire.
About those functions the project proves:

* The *storage layer* (`Storage`): a block is TAKEN iff exactly one non-empty TAKEN inode owns it, and the live
  directory entries are a one-to-one map between names and TAKEN non-root inodes. Every operation keeps it, from
  whatever memory `malloc` returned: entries that were never used keep stale names, but `add_dir_entry` fills the
  first free entry, so they lie behind every live one, where no comparison that counts ever gets.
* The *handle layer* (`Handles`): open handles name live files and are not past their end. A call keeps it **iff**
  it obeys two usage rules (no unlink of an open file, no truncation under an advanced handle).
* *Refinement*: `AbstractFs.dfy` is a file system without inodes, blocks or slots, a map from names to bytes and
  handles that are a name and a position. Every rule-abiding run of calls gives the same replies on both. The
  tables of the C code show only as "no room", which the number of files and of non-empty files decides.
* Isolation in the flat array, and the pigeonhole arguments for when calls cannot fail.

**Publish and subscribe.** `BoxProtocol.dfy` is a step system: one box, any number of publisher and subscriber
sessions, the sessions of other boxes as foreign calls. A step acquires `box->lock`, makes one `tfs_*` call (each
holds the library mutex throughout) or updates shared fields. A fatal error costs the worker, and the lock if it
holds it, while the other sessions go on; the process may end at any point. `box_size`, the file, the handle's position and
`client->offset` are separate and disagree between steps. The theorems of `BoxSafety.dfy` hold for every run, and
`FileIsAcceptedMessages` carries the main one down to the flat array through the refinement. `BoxProgress.dfy`
and `BoxDelivery.dfy` show that such runs start on a fresh file system, what a single publisher or subscriber
achieves, how messages get from one to the other, and how a box fills up or is lost; `BoxAuthors.dfy` ties the
accepted messages to what each client sent.

**Bounded queue.** `PcQueue.dfy` splits `pcq_enqueue` and `pcq_dequeue` into their separate critical sections, with
one producer and any number of consumers. The size is a wrapping `size_t`, beside it the mathematical count. The
critical sections are also methods of a class over the ring buffer.

**Registry and framing.** `Registry.dfy` and `Broker.dfy`: the box table, the workers' `client_t` array, and the
create and remove handlers on top of TécnicoFS, one after the other and with a remove between the halves of a create.
`Requests.dfy`, `Messages.dfy` and `ListReply.dfy`: the three stream formats, each with writer and reader.

## What the proofs brought to light

* The "box is full" path returns with `box->lock` held, and stays there: nothing is accepted on that box again
  (`FullForever`), although the comment there says the box can still be used. With the broker's parameters
  seventeen messages get there (`BrokerBoxFillsUp`). The bytes that fitted stay in the file; a subscriber that was
  already past its wait may still read them.
* Every published message, every subscriber and every create opens a handle that is never closed, all in the one
  open-file table (`HandlesBoundMessages`). In the broker it has 64 entries and creating the box takes one, so
  messages accepted and subscribers opened on a box add up to at most 63.
* Ending a session gives up the worker's box handle without closing it, and a remove needs one to end its own
  session: without it the handler fails fatally (`RemoveSurvives`). A worker serves at most one remove, and none after
  a session it has ended (`RemovesAreBounded`).
* `handle_tfs_create_box` unlocks `boxes_lock` before it opens the file. A remove of the new box that comes in between
  finds it in the table but not in the file system, and fails fatally (`RemoveBetweenSurvives`).
* The queue is first-in first-out iff it has at most one consumer (`NeverEarlyIffOneConsumer`). The broker starts
  `max_sessions` of them, and two can both pass the size test on one element (`RaceIsEarly`).
* The "reached max number of boxes" answer is unreachable: the root takes one of the 64 inodes, so the counter
  stays below 64 (`CountIsFileCount`).
* `parse_message` says it truncates long names. It copies `strlen` bytes: a request comes through iff the pipe name
  is under 255 bytes and the box name under 31 (`OneRoundTrip`).
* `list_boxes` is marked as not working for a single box. At the level of the stream it does (`ListRoundTrip`).
* Creating a box leaves a handle of the manager's session open on its file, so removing the box breaks the first
  usage rule. Registry theorems therefore rest on the storage layer alone, which survives this.

## Model

| member | source | states |
|---|---|---|
| Bytes.CStrOf | fs/state.c:352-353 | the first NUL ends a name: whatever lies behind it in the field is ignored |
| Bytes.LERoundTrip | mbroker/mbroker.c:462-473 | a counter stored in k little-endian bytes is read back unchanged |
| Bytes.LEAt | mbroker/mbroker.c:462-473 | byte i of a stored counter has the weight 256^i: the least significant comes first |
| Directory.EntryWritten | fs/state.c:351-354 | writing one 44-byte record into the block changes exactly that directory entry, name and inumber |
| Directory.InumWritten | fs/state.c:230-232 | storing only an inumber leaves every name, including the one in front of it, as it was |
| Directory.ComparisonsAgree | fs/state.c:309-310 | on a field terminated within 40 bytes `strncmp` of lookup and `strcmp` of clear both mean equality of names, for names of any length |
| Directory.LookupByName | fs/state.c:375-400 | lookup finds a name iff it is live, and then the one inode it is entered for |
| Directory.EntryAdded | fs/state.c:347-357 | filling the first free entry with a new name keeps the one-to-one map, leaves no stale name in front of it, and adds exactly that name |
| Directory.EntryCleared | fs/state.c:297-316 | clearing the first entry that bears a live name, free or not, removes exactly that name and keeps the one-to-one map, whatever names unused entries hold |
| Directory.LiveNameIsComparedOk | fs/state.c:308-310 | every entry compared with a live name, up to the match, is terminated inside its 40 bytes: stale memory is never compared |
| Directory.DirectorySize | fs/state.c:333-360 | as many live names as TAKEN non-root inodes; no free entry iff they fill the directory |
| Inodes.BlockReleased | fs/operations.c:106-111 | truncation or deletion frees the inode's block and keeps "TAKEN iff exactly one owner" |
| Inodes.BlockGained | fs/operations.c:211-223 | the first write gives a FREE block to an empty file and keeps "TAKEN iff exactly one owner" |
| Inodes.BlocksInUse | fs/state.c:410-438 | no leak, no sharing: as many TAKEN blocks as non-empty TAKEN inodes |
| TfsState.PokedBlock | fs/state.c:448-454 | a copy into block b at off patches that block at off |
| TfsState.OtherBlock | fs/state.c:448-454 | a copy inside one block leaves every other block of the flat array byte for byte as it was |
| TfsView.InodesFull | fs/state.c:162-179 | the inode table is full iff files plus root fill it |
| TfsView.BlocksFull | fs/state.c:410-423 | TAKEN blocks are one for the root and one per non-empty file; none FREE iff that is all of them |
| TfsView.FileCount | fs/state.c:333-360 | as many files as live inodes; the directory is full iff the files fill it |
| TfsView.NeverShortOfBlocks | fs/operations.c:211-223 | with at least as many blocks as inodes an empty file always gets a block |
| TfsView.NeverShortOfEntries | fs/state.c:347-360 | with inodes - 1 entries the inode table fills up before the directory |
| TfsStorage.TruncateEmpties | fs/operations.c:106-111 | truncation keeps storage intact, empties the one file, changes no other |
| TfsStorage.CreateAdds | fs/operations.c:118-140 | creating adds one empty file under the new name, keeps storage intact, changes no other file |
| TfsStorage.FailedCreateRestores | fs/operations.c:131-138 | giving the inode back after a failed directory entry restores files and bitmaps: no inode leaks |
| TfsStorage.UnlinkRemoves | fs/operations.c:303-320 | unlink removes exactly the named file, its inode and its block, and keeps storage intact |
| TfsStorage.WriteSplices | fs/operations.c:210-236 | a write puts its bytes into the one file at the position, keeps storage intact, changes no other file |
| TfsRefinement.OpenRefines | fs/operations.c:79-161 | on any intact storage open truncates, appends, creates or refuses as the simple file system says; a failing create leaves the files as they were |
| TfsRefinement.UnlinkRefines | fs/operations.c:286-328 | on any intact storage unlink removes exactly the named file, or returns -1 and changes nothing |
| TfsRefinement.ReadReply | fs/operations.c:245-284 | read returns content[off..min(off+len,size)] and moves only its own handle |
| TfsRefinement.StoringWrite | fs/operations.c:186-243 | a write that finds a block splices min(len, block_size-off) bytes into its file and moves only its own handle |
| TfsRefinement.StepRefines | fs/operations.c:79-328 | every call returns the simple file system's reply and leaves its files, and under the rules its handles |
| TfsRefinement.RulesKeepHandles | fs/operations.c:93-116 | a call from an intact state always keeps the storage layer, and keeps the handle layer iff it obeys the usage rules |
| TfsRefinement.StepKeepsInv | fs/operations.c:79-328 | a rule-abiding call keeps both layers and is the simple file system's step |
| TfsRefinement.Run | fs/operations.c:79-328 | for every rule-abiding sequence of calls: invariant kept, same replies and same abstract state as the simple file system |
| TfsRefinement.WriteNeverFails | fs/operations.c:211-223 | if max_block_count >= max_inode_count, a write through an open handle never returns -1 |
| TfsRefinement.CreateFailsOnlyWhenFull | fs/operations.c:118-151 | with enough directory entries, creating a valid name of at most 39 bytes fails only for lack of inodes or handles |
| TfsRefinement.WriteIsIsolated | fs/operations.c:225-236 | only the cells [block*size+off, +n) of the flat array change; directory and other files' blocks are elsewhere |
| TfsRefinement.InitIsEmpty | fs/operations.c:25-44 | tfs_init succeeds iff there is an inode and a block, and then yields an intact empty file system whatever the memory held |
| TecnicoFs.Tfs.constructor | fs/state.c:95-128 | tables of the given sizes, all separate; data as malloc left it |
| TecnicoFs.Tfs.TfsInit | fs/operations.c:25-44 | in place, exactly the new state and result of the specification InitIsEmpty is about |
| TecnicoFs.Tfs.InodeCreate | fs/state.c:198-244 | takes the first FREE inode for an empty file, or returns -1 and changes nothing |
| TecnicoFs.Tfs.InodeDelete | fs/state.c:252-267 | frees the inode, and its block if it is not empty |
| TecnicoFs.Tfs.DataBlockAlloc | fs/state.c:410-423 | takes the first FREE block, or returns -1 and changes nothing |
| TecnicoFs.Tfs.AddToOpenFileTable | fs/state.c:468-480 | takes the first FREE handle and leaves all others, or returns -1 |
| TecnicoFs.Tfs.FindInDir | fs/state.c:375-400 | the scan over raw bytes returns the inumber of the live entry with that name, or -1 |
| TecnicoFs.Tfs.AddDirEntry | fs/state.c:333-360 | rejects empty and long names; fills the first entry with inumber -1, or fails and changes nothing |
| TecnicoFs.Tfs.ClearDirEntry | fs/state.c:297-316 | overwrites the first entry that bears the name, free or not |
| TecnicoFs.Tfs.LabelEntries | fs/state.c:226-232 | every entry of the block gets inumber -1; names are not touched |
| TecnicoFs.Tfs.TfsOpen | fs/operations.c:79-161 | in place, exactly the state and handle of the specification that OpenRefines is about |
| TecnicoFs.Tfs.TfsClose | fs/operations.c:163-184 | frees an open handle and nothing else; -1 for any other number |
| TecnicoFs.Tfs.TfsWrite | fs/operations.c:186-243 | in place, exactly the state and count of the specification that StoringWrite is about |
| TecnicoFs.Tfs.TfsRead | fs/operations.c:245-284 | in place, the specification's state and count; the caller's buffer gets the bytes and keeps its rest |
| TecnicoFs.Tfs.TfsUnlink | fs/operations.c:286-328 | in place, exactly the state and result of the specification that UnlinkRefines is about |
| Messages.SplitEncodeAll | mbroker/mbroker.c:728-738 | taking the concatenated encodings apart at the NULs gives back the list of messages |
| Messages.SplitLosesNothing | mbroker/mbroker.c:728-738 | for any bytes: the pieces, each with its NUL, are the bytes again, the last one completed if need be |
| Messages.FrameCarries | mbroker/mbroker.c:732-736 | the 1023-byte record begins with the message, has nothing but NULs behind it, and reads as that message |
| Messages.Replay | mbroker/mbroker.c:728-738 | the replay loop on an encoded list sends one 1023-byte record per message, in order, each carrying exactly its message and NULs behind; stays in bounds, ends with offset = bytes read |
| BoxSafety.StepKeepsSafe | mbroker/mbroker.c:572-745 | every step of any session, in any interleaving, keeps the invariant of file, sizes, offsets, lock and handles |
| BoxSafety.WritesLandAtTheEnd | mbroker/mbroker.c:601-618 | in every run, the handle a publisher opened still stands at the end of the file when it writes, a separate TFS critical section: what fits lands behind the accepted messages |
| BoxSafety.FileIsAcceptedMessages | mbroker/mbroker.c:601-626 | in every run, with the lock free, the file on the flat array is the accepted messages in order, one NUL each, and box_size its length; under the lock they are a prefix |
| BoxSafety.SubscribersReceivePrefixes | mbroker/mbroker.c:646-741 | every subscriber's bytes are a prefix of the file and end at its handle's position; client->offset equals both outside the read-to-update window; box_size - offset never wraps; live end-of-file is unreachable; replay sent a prefix of the accepted messages |
| BoxSafety.SubscribersReceiveMessages | mbroker/mbroker.c:646-741 | in messages: the complete strings a subscriber has received are the first of the accepted messages in order, plus at most the one written and not yet counted; the bytes are those of the file on the flat array |
| BoxSafety.SleepersAreUpToDate | mbroker/mbroker.c:619-656 | no lost wakeup: with the lock free a sleeping subscriber has received the whole file |
| BoxSafety.WrittenWholeOrFull | mbroker/mbroker.c:609-618 | the write fails iff an empty box finds no block; otherwise the message is written whole iff it fits, and the box reported full iff not |
| BoxProgress.FullForever | mbroker/mbroker.c:614-618 | once "box is full" was reported the reporter holds the lock, and no run of any sessions frees it or accepts a message |
| BoxProgress.GoneForever | mbroker/mbroker.c:601-618 | the same whenever the holder cannot go on: after a full box, or a fatal error of a publisher or subscriber under the lock |
| BoxSafety.HandlesBoundMessages | mbroker/mbroker.c:601-607 | in every run: handles on the box at the start, subscribers that opened it and accepted messages together never exceed the open-file table |
| BoxProgress.NewBoxStarts | mbroker/mbroker.c:494-527 | for any memory and any table sizes with room for one file, tfs_init and the open of the create handler yield an intact TécnicoFS with one empty file and one handle on it, on which every run theorem applies, for any number of sessions |
| BoxProgress.PublishedIffRoom | mbroker/mbroker.c:601-626 | a publisher left alone with the lock free loses worker and lock iff there is no handle or no block; otherwise reports full with the lock held, having written what fits, iff the message does not fit; otherwise appends it and frees the lock |
| BoxProgress.PublishAll | mbroker/mbroker.c:572-626 | from any safe state with the lock free and room in the tables, any list of messages that fits the box gets through: there is a run that appends exactly them, one handle each, and leaves the lock free |
| BoxProgress.BoxFillsUp | mbroker/mbroker.c:614-618 | publish on, and the first message that does not fit ends in "box is full"; from there no run accepts anything |
| BoxProgress.BrokerBoxFillsUp | mbroker/mbroker.c:31-36 | with the broker's parameters sixteen full-length messages and any seventeenth do that to a new box |
| BoxDelivery.ReplayIsComplete | mbroker/mbroker.c:716-743 | a session leaving replay has sent every accepted message exactly once and received the whole file |
| BoxDelivery.SubscribedIffHandle | mbroker/mbroker.c:701-745 | a new subscriber left alone with the lock free loses worker and lock iff there is no handle; otherwise within eight steps it sleeps with the lock free, every accepted message replayed and the whole file received |
| BoxDelivery.BrokenReplayKeepsLock | mbroker/mbroker.c:735-736 | a pipe that breaks in replay leaves the lock with the worker for good; what was sent is the first of the accepted messages |
| BoxDelivery.CatchesUp | mbroker/mbroker.c:646-692 | from the top of the live loop it takes one round per 1023 unread bytes, then the session sleeps with the whole file received |
| BoxDelivery.SpuriousWakeup | mbroker/mbroker.c:647-656 | a sleeper that wakes without a broadcast tests again and sleeps again, nothing read and nothing lost |
| BoxDelivery.Delivered | mbroker/mbroker.c:572-745 | end to end: what was published before a subscriber joins reaches it in replay, what is published later wakes it and reaches it live; a run ends with it asleep, everything received and the lock free |
| BoxAuthors.AcceptedAsSent | mbroker/mbroker.c:580-626 | in every run, each publisher's accepted messages and the one in hand are what its client sent, in order, none lost and none twice; only a worker lost to a fatal error has lost its last |
| BoxAuthors.OverForever | mbroker/mbroker.c:582-595 | a session that was closed, left, reported full or met a fatal error never does anything again |
| PcQueue.Queue.Create | producer-consumer/producer-consumer.c:3-11 | capacity 0 is refused; otherwise an empty queue with head = tail = 0 |
| PcQueue.Queue.Put | producer-consumer/producer-consumer.c:100-108 | stores at tail and advances it modulo the capacity; head and size stay |
| PcQueue.Queue.Take | producer-consumer/producer-consumer.c:152-160 | returns the element at head and advances it modulo the capacity; buffer, tail and size stay |
| PcQueue.Queue.Resize | producer-consumer/producer-consumer.c:110-118 | the size moves by one modulo 2^64 and nothing else changes |
| QueueSafety.StepKeepsSafe | producer-consumer/producer-consumer.c:85-181 | every critical section of any thread, in any order, keeps the invariant of ring, counts and sleepers |
| QueueSafety.PutKeeps | producer-consumer/producer-consumer.c:100-108 | filling a slot overwrites no element that is still to be popped |
| QueueSafety.EnqueuedAsRequested | producer-consumer/producer-consumer.c:85-106 | in every run the elements stored, and the one in hand, are the arguments of the enqueue calls in order |
| QueueSafety.SingleConsumerIsFifo | producer-consumer/producer-consumer.c:85-181 | one consumer: the k-th pop returns the argument of the k-th enqueue call, already written; size in 0..capacity; never more than capacity unread |
| QueueSafety.ManyConsumersKeep | producer-consumer/producer-consumer.c:85-181 | any consumers: count <= capacity, no unread slot overwritten, the k-th pop returns the argument of the k-th enqueue call whenever that was written in time |
| QueueSafety.NoLostWakeup | producer-consumer/producer-consumer.c:120-179 | while a consumer sleeps the count is covered by the pending signal and the consumers on their way; a producer sleeps while the size differs from the capacity only with a signal coming, and they differ whenever there is room and the size has not wrapped all the way round |
| QueueSafety.RaceIsEarly | producer-consumer/producer-consumer.c:141-157 | a ten-step run, for every capacity, in which two consumers pass the test on one element |
| QueueSafety.NeverEarlyIffOneConsumer | producer-consumer/producer-consumer.c:136-181 | no run pops an unwritten slot iff there is at most one consumer |
| Registry.BrokerNeverShort | mbroker/mbroker.c:31-36 | with the broker's parameters writes never fail, and creating a valid name fails only with 63 files present or all handles taken |
| Registry.CountIsFileCount | mbroker/mbroker.c:503-506 | num_boxes is the number of files, and below 64 |
| Registry.BoxCreated | mbroker/mbroker.c:543-570 | below the maximum get_free_box finds a slot inside create_box; the free slot gets the name with size and counters 0, every other slot stays, and the table is consistent |
| Registry.CreateKeepsAgreement | mbroker/mbroker.c:494-541 | a create that meets no fatal error keeps table and files in agreement; it answers 0 iff the box is new |
| Registry.CreateSurvives | mbroker/mbroker.c:494-541 | a create meets no fatal error iff its pipe works, the name is a path, and there is a handle, and room if the file is new; exactly what table, files and workers are afterwards, either way; a new box starts empty like its file |
| Registry.FinishCreateSurvives | mbroker/mbroker.c:521-541 | the same for the half without `boxes_lock`, on any intact storage |
| Registry.RemoveKeepsAgreement | mbroker/mbroker.c:375-424 | a remove that meets no fatal error keeps them in agreement and leaves no worker on the box; it answers 0 iff there was such a box, now gone |
| Registry.RemoveEndsSessions | mbroker/mbroker.c:401-411 | sessions on other boxes stay as they are whatever the outcome; those on the box are ended when it goes, and so is the requester's |
| Registry.RemoveTakesOneBox | mbroker/mbroker.c:338-354 | iff the box is found and its other sessions can be ended, its slot becomes free and zero and its file goes, whatever becomes of the answer; otherwise table and files stay |
| Registry.RemoveSurvives | mbroker/mbroker.c:280-303 | a remove meets no fatal error iff its pipe works, its worker still holds a box handle, and, if the box exists, every other session on it can be ended |
| Registry.RemoveBetweenSurvives | mbroker/mbroker.c:494-519 | between the two halves of a create, a remove survives under the same conditions iff it is not for the box being created |
| Registry.RaceKeepsAgreement | mbroker/mbroker.c:494-541 | if a create and a remove between its halves both survive, table and files agree again in the end |
| Registry.RemovesAreBounded | mbroker/mbroker.c:280-303 | in a run of creates and removes without fatal error each remove uses up a worker's handle for good: at most one per worker |
| Registry.RegistryAgreesWithFiles | mbroker/mbroker.c:338-570 | from any memory, after any sequence of requests without fatal error: counter = slots in use = files, free iff unnamed, names distinct, boxes = "/" + files, each box the size of its file |
| BrokerTable.Broker.GetBox | mbroker/mbroker.c:366-373 | the first slot with that name, free or not, or none |
| BrokerTable.Broker.GetFreeBox | mbroker/mbroker.c:356-364 | marks and returns the first free slot, or changes nothing |
| BrokerTable.Broker.CreateBox | mbroker/mbroker.c:543-570 | counts first, then fills a free slot; in place, the specification BoxCreated is about |
| BrokerTable.Broker.RemoveBox | mbroker/mbroker.c:338-354 | flag first, then unlink, then name and counters; the half-done state of a failed unlink included |
| BrokerTable.Broker.FinishSession | mbroker/mbroker.c:280-303 | ends a session iff its pipe closes and it lists or holds a handle; forgets name and handle |
| BrokerTable.Broker.EndSessions | mbroker/mbroker.c:402-411 | ends the other sessions on the box in order, up to the first that cannot be ended; in place, the specification RemoveSurvives is about |
| BrokerTable.Broker.FinishCreate | mbroker/mbroker.c:521-541 | the half of the create handler without `boxes_lock`, in place; the specification RaceKeepsAgreement is about |
| BrokerTable.Broker.HandleCreate | mbroker/mbroker.c:494-541 | in place on arrays, workers and TécnicoFS, the outcome CreateKeepsAgreement is about |
| BrokerTable.Broker.HandleRemove | mbroker/mbroker.c:375-424 | in place on arrays, workers and TécnicoFS, the outcome RemoveKeepsAgreement and RemoveSurvives are about |
| Requests.ParseMessage | utils/common.c:21-52 | fills the 287-byte buffer in place: opcode, names at 1 and 256, zeros elsewhere, a long pipe name overlapped by the box name |
| Requests.ReadRequests | mbroker/mbroker.c:92-101 | the main loop reads exactly the requests the stream parses into, and stops where and why the parser fails |
| Requests.OneRoundTrip | mbroker/mbroker.c:305-336 | a request is read back, with the stream left at the next one, iff its names leave room for terminators |
| Requests.ParserDecides | mbroker/mbroker.c:305-336 | for any stream, exactly when the parser refuses an opcode, runs out of bytes or runs past a field, and what it takes from the stream otherwise |
| Requests.StopsAtRefusal | mbroker/mbroker.c:92-101 | good requests in front of a refused one are all read, and the loop stops there with that reason |
| Requests.StreamRoundTrip | mbroker/mbroker.c:305-336 | any sequence of fitting requests is read back in frame, list requests being shorter |
| ListReply.WriteBoxes | mbroker/mbroker.c:443-483 | with a counter that is right the writer emits one record per live box, in slot order, only the final one flagged; with none, a short flagged record per slot |
| ListReply.ListBoxes | manager/manager.c:131-163 | the reader's loop, with its error exits and 64-record array, computes the listing the stream stands for |
| ListReply.RecordRoundTrip | manager/manager.c:138-162 | one record gives back name, size and both counters, and leaves the stream at the next record |
| ListReply.ReaderRefuses | manager/manager.c:138-163 | behind any unflagged records: no room, a wrong opcode, a record cut short or an empty name end the reader's loop, each with its own result |
| ListReply.ListRoundTrip | mbroker/mbroker.c:426-492 | from any consistent table the manager reads exactly num_boxes records, the live boxes in slot order; from an empty one it reports no boxes at the first record |

## Left out

- Pipes: reads and writes are whole records of a stream; `mkfifo`, `open`, signals, argument parsing, printing and the client programs are not modelled.
- Server exit: `close_server` first joins thread 0, so a fatal error on another worker blocks that worker while the process keeps serving. The crashed states of the protocol and the flag `alive` of the registry mean that a handler returned with or without a fatal error; a registry run is followed up to the first one.
- NULL path names, `tfs_destroy`, a second `tfs_init`, failures of `malloc` and of the mutex and condition variable calls, delays and logging.
- `tfs_sym_link`, `tfs_link` and `tfs_copy_from_external_fs` have no body in the repository.
- Memory layout: directory records are 44 bytes with a little-endian 32-bit inumber, as on the usual targets; a `strcmp` that would run past the end of the data array counts as no match.
- TecnicoFs.Tfs.TfsWrite: the caller's buffer is a value, so a source that overlaps the file system's own memory is not captured.
- At most one publisher per box is not claimed, and `n_publishers`, `n_subscribers` are carried but not constrained: a refused publisher decrements a count it never raised, and the test is not under a lock.
- BoxSafety.SubscribersReceivePrefixes: live delivery is a byte stream, since one `tfs_read` may span several messages; the 1023-byte records of live mode, those bytes and NULs, are not modelled; each session starts with offset 0 and a fresh handle, since the reuse of `client->offset` by a worker's next session is not modelled.
- Removal of a box during publish and subscribe: it changes other sessions without their lock, and appears only in the sequential registry.
- Registry.RemoveSurvives: whether a pipe opens, takes a write or closes is an input; publisher, subscriber and list sessions enter a registry run only through the workers they have left at its start, and the worker array itself starts as `malloc` left it.
- PcQueue.Queue.Create: failures of `malloc` and of the lock initialisations.
- Requests.ParseMessage: names so long that the copies run past the 287-byte buffer, where the C code's behaviour is undefined.
- QueueSafety.NoLostWakeup: the unlocked size test is atomic, and lock, signal, unlock count as one step.
- Liveness under interference is not claimed: the broker never closes handles, so opening fails eventually.
- ListReply.WriteBoxes: a counter that disagrees with the table, which no run of the registry produces, and bytes left behind the NUL of a name field are not modelled.
- `qsort` and `strcasecmp` in the manager's printout are library code.
