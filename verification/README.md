# Verified model of the Lind example grates

A grate is a user-level library that answers system calls for *cages*, the isolated programs of Lind.
This project models the parts of the grates that keep shared state and proves what their callers rely on.

- **The ipc-grate** (`Pipes`, `PipeBuffer`, `Iovec`, `Holdings`, `Descriptors`, `Readiness`, `IpcState`,
  `SocketState`, `IpcEffects`, `IpcGrate`, `IpcSelect`, `Witnesses`, `Ports`) replaces kernel pipes and local
  sockets with ring buffers. One class, `IpcGrate`, holds every cage's descriptor table, the pipes, the sockets, the
  accept queues and the snapshot of a clone in flight; each system call is a method. Its invariant says that each
  pipe's two counts are the numbers of owners of its two ends, that EOF is latched exactly when no write end is
  left, and that connection pipes are cross-wired. `IpcEffects` says what each call does to the visible state and
  answers, the calls of a child that runs before its parent's clone() returns included. `IpcGrate.Run` carries both
  over every run and returns its trace. Three theorems hold of every such trace:
  no byte of a pipe is lost, made up or reordered, whatever descriptors of whatever cages were used
  (`StreamsConserved`); what a socket receives is what its peer sent (`PeersAreStreams`); and the connections to
  an address are accepted once each in connect order (`AcceptsInOrder`).
- **The C in-memory filesystem** (`ChunkFile`) stores a file as a linked list of 1024-byte chunks. `FileTable.Run`
  shows that it answers as a flat byte string does, and `Node.Write` says exactly when a single write does.
- **select()** (`FdSet`, `Select`): 32-word bit sets are sets of descriptors, and the renaming to another
  descriptor space and back is right exactly when it is injective on what was asked. `IpcSelect` says what the bits
  of the ipc-grate's own descriptors mean.
- **Paths and socket addresses** (`Paths`) of the chroot and routing grates.
- **The routing grate's tables** (`MmapRanges`, `Routes`) and **the resource grate's accounting** (`Nanny`).

A call that waits runs beside the other endpoint. What the others do between two laps of its retry loop is a
finite script passed to the call; a call whose script runs out is `Waiting`. Statements for all scripts are
statements for all finite interleavings. Clock readings, kernel answers and replies of the runtime are parameters.

## Where the code does not do what it should

Each has a lemma or contract with the exact condition, and a lemma or method with an input that fails.

- A write that starts at or past the end of the last chunk lands 1024 bytes too early, so appending to a file whose
  size is a positive multiple of 1024 overwrites it; a write of no bytes past the end still moves the recorded size
  (`ChunkFiles.Node.Write`, `AppendExact`, `SecondChunkOverwrites`).
- A reader can be told end of file with bytes still in the ring (`EarlyEof`, `ZeroMeansDrainedUnless`).
- poll() and select() on a connected socket never report room to send when input is asked for too (`SocketReady`,
  `SelectSocket`, `WritableSocketUnannounced`).
- connect() on a socket that several descriptors name, or that is connected already, leaves the counts wrong
  (`IpcGrate.Connect`, `DupThenConnect`); so do ioctl(FIONBIO) on a descriptor with pipe ends (`IoctlNonblocking`,
  `PipeThenNonblocking`) and shutdown for writing (`ShutdownWrite`, `PairThenShutdown`).
- A child's close of an inherited pipe end before its parent's clone() returns is undone, and leaves the counts
  wrong, unless it is a vfork child (`CloneWithEarlyClose`, `CloneThenEarlyClose`).
- A cage that misses a descriptor while another's clone() is in flight is given the parent's descriptors
  (`CloneWithStranger`, `CloneThenStranger`).
- An empty read through the single-copy path answers 0 where the staged path may wait (`SingleCopyAgrees`,
  `EmptyReadsDiffer`).
- An AF_UNIX address does not come back from the chroot when the chroot directory is written with a trailing
  slash, and an abstract address is damaged when it is empty (`SockAddrRoundTrip`, `TrailingSlashLosesName`,
  `AbstractKept`, `EmptyChrootDamagesAbstract`).

Where comments and code differ the code is followed: an append moves the descriptor's offset by the count and not
to the end of the file, and lseek() with an unknown mode answers one less than the offset.

## Model

| member | source | states |
|---|---|---|
| `Pipes.WriteMeaning` | rust-grates/ipc-grate/src/pipe.rs:147-189 | for every script: bytes drained then ring equal old ring then the accepted prefix; a result of 0 or more is the number accepted; EAGAIN and EINTR mean none; EPIPE means no reader is left |
| `Pipes.WriteEnds` | rust-grates/ipc-grate/src/pipe.rs:147-189 | a blocking write gets everything in and answers so, or answers the first disturbance: EPIPE when the readers leave, the short count or EINTR when a signal comes; it waits only with a full ring and neither |
| `Pipes.NonblockingWrite` | rust-grates/ipc-grate/src/pipe.rs:147-189 | a non-blocking write with a reader accepts exactly what fits, with the code that says so |
| `Pipes.WriteFinishes` | rust-grates/ipc-grate/src/pipe.rs:147-189 | a blocking write ends with everything accepted when readers drain at least one byte a lap |
| `Pipes.EpipeMayFollowPartialPush` | rust-grates/ipc-grate/src/pipe.rs:159-180 | a run in which EPIPE follows two accepted bytes |
| `Pipes.WriteFullNonblocking` | rust-grates/ipc-grate/src/pipe.rs:159-186 | a full ring with a reader answers EAGAIN to a non-blocking write and is unchanged |
| `Pipes.ReadConserves` | rust-grates/ipc-grate/src/pipe.rs:107-134 | for every script: bytes delivered then ring equal old ring then arrivals, within capacity |
| `Pipes.ReadMeaning` | rust-grates/ipc-grate/src/pipe.rs:107-134 | a positive result is the number delivered; anything else delivers nothing and found the ring empty; 0 means EOF; with bytes in the ring the answer is the front of the ring at once |
| `Pipes.ReadEnds` | rust-grates/ipc-grate/src/pipe.rs:107-134 | a blocking read never answers EAGAIN, answers EINTR only after a signal, and waits only at an empty open ring that nobody pushed to, closed or interrupted |
| `Pipes.NonblockingRead` | rust-grates/ipc-grate/src/pipe.rs:107-134 | on an empty ring a non-blocking read answers 0 at EOF and EAGAIN otherwise |
| `Pipes.NoZeroWhileOpen` | rust-grates/ipc-grate/src/pipe.rs:107-134 | no read returns 0 while a write end stays open |
| `Pipes.EarlyEof` | rust-grates/ipc-grate/src/pipe.rs:111-124 | a run in which 0 is returned with a byte in the ring |
| `Pipes.ZeroMeansDrainedUnless` | rust-grates/ipc-grate/src/pipe.rs:111-124 | 0 with bytes in the ring happens exactly when the last writer pushes and closes between the empty pop and the EOF check |
| `Pipes.StepConserves` | rust-grates/ipc-grate/src/pipe.rs:107-189 | every read, write, dup and close keeps delivered bytes followed by the ring equal to accepted bytes |
| `Pipes.FreshPipeIsAStream` | rust-grates/ipc-grate/src/pipe.rs:86-189 | after any run on a new pipe, what came out is a prefix of what went in, and the difference is in the ring and within capacity |
| `Pipes.DrainsThenZero` | rust-grates/ipc-grate/src/pipe.rs:107-134 | after EOF, the k-th non-empty read gets exactly the next slice of the ring, and 0 exactly when earlier reads asked for all of it |
| `Pipes.SingleCopyAgrees` | rust-grates/ipc-grate/src/pipe.rs:301-313 | the two read paths answer alike exactly when the request is not empty or an EOF check ends it |
| `Pipes.EmptyReadsDiffer` | rust-grates/ipc-grate/src/pipe.rs:301-313 | on an open empty pipe an empty non-blocking read answers 0 on one path and EAGAIN on the other |
| `Pipes.EmptyReadIsEofTest` | rust-grates/ipc-grate/src/pipe.rs:107-134 | a staged read of no bytes answers 0 exactly when it gets to an EOF check that holds |
| `PipeBuffers.PipeBuffer.constructor` | rust-grates/ipc-grate/src/pipe.rs:86-97 | an empty ring with one reference to each end |
| `PipeBuffers.PipeBuffer.PushSlice` | rust-grates/ipc-grate/src/pipe.rs:156-163 | as many bytes as fit go behind the ring's content, at every wrap position |
| `PipeBuffers.PipeBuffer.PopSlice` | rust-grates/ipc-grate/src/pipe.rs:110-116 | up to the wanted number of bytes leave the front of the ring |
| `PipeBuffers.PipeBuffer.Write` | rust-grates/ipc-grate/src/pipe.rs:147-189 | the loop on the circular array computes `Pipes.Write` |
| `PipeBuffers.PipeBuffer.FillFree` | rust-grates/ipc-grate/src/pipe.rs:228-266 | the two copies of a single-copy push fill the free slots in ring order and no occupied one |
| `PipeBuffers.PipeBuffer.PushFromCage` | rust-grates/ipc-grate/src/pipe.rs:228-266 | a single-copy push leaves the ring a staged push of the same bytes leaves |
| `PipeBuffers.PipeBuffer.WriteFromCage` | rust-grates/ipc-grate/src/pipe.rs:206-295 | single-copy write: the same code, ring and bytes as the staged write, cage memory untouched |
| `PipeBuffers.PipeBuffer.ReadStaged` | rust-grates/ipc-grate/src/pipe.rs:107-134 | the loop on the circular array computes `Pipes.Read` |
| `PipeBuffers.PipeBuffer.PopToCage` | rust-grates/ipc-grate/src/pipe.rs:314-348 | a single-copy pop moves the front of the ring to the address given and changes no other byte |
| `PipeBuffers.PipeBuffer.ReadToCage` | rust-grates/ipc-grate/src/pipe.rs:301-369 | single-copy read: the code and ring of the staged read, its bytes at the address given, every other byte of memory unchanged |
| `Iovecs.Gather` | rust-grates/ipc-grate/src/handlers.rs:3465-3490 | the segments' bytes in order, or EINVAL past 1024 segments |
| `Iovecs.Scatter` | rust-grates/ipc-grate/src/handlers.rs:3496-3526 | the segments, read as one stream, start with the data; the rest of the stream and all other memory are unchanged |
| `Iovecs.Writev` | rust-grates/ipc-grate/src/handlers.rs:3564-3571 | one pipe write of the gathered bytes, nothing for an empty gather |
| `Iovecs.Readv` | rust-grates/ipc-grate/src/handlers.rs:3609-3635 | one pipe read of the total capacity, scattered; what was read heads the segments' stream |
| `Iovecs.Transfer` | rust-grates/ipc-grate/src/handlers.rs:3465-3635 | for any two segmentations, scripts and ring contents, writev then readv are the pipe's write of the gathered bytes and its read of the total capacity, with their codes and the empty and EINVAL cases; what was read heads the destination segments and the byte stream is preserved, also when both memories are one |
| `Iovecs.VectorsConserve` | rust-grates/ipc-grate/src/handlers.rs:3465-3635 | any writev then readv on a pipe lose, make up and reorder no byte, and their codes count the bytes moved |
| `Iovecs.VectorsAsk` | rust-grates/ipc-grate/src/handlers.rs:3465-3635 | how much the two calls ask of the pipe: all bytes and the whole capacity, nothing past 1024 segments or with nothing to move |
| `Iovecs.CapacityAdds` | rust-grates/ipc-grate/src/handlers.rs:3609-3620 | the capacity is the total of the lengths |
| `Iovecs.StreamAt` | rust-grates/ipc-grate/src/handlers.rs:3465-3490 | byte by byte, each segment begins in the stream where the ones before it end |
| `Descriptors.PipeFlagsTellEnds` | rust-grates/ipc-grate/src/ipc.rs:137-168 | the flags pipe() stores tell its two ends apart by the direction tests |
| `Descriptors.NewEntriesBits` | rust-grates/ipc-grate/src/ipc.rs:137-168 | a new entry is non-blocking and close-on-exec exactly if the call said so, with its direction and no other bit |
| `Descriptors.SetStatusFlagsKeepsEnd` | rust-grates/ipc-grate/src/handlers.rs:1528-1540 | F_SETFL keeps the direction of an end |
| `Descriptors.SetStatusFlagsBits` | rust-grates/ipc-grate/src/handlers.rs:1528-1540 | F_SETFL keeps the access mode and takes every other bit from its argument |
| `Descriptors.NonblockingFlagsBits` | rust-grates/ipc-grate/src/handlers.rs:3667-3686 | FIONBIO sets or clears one bit and keeps the others |
| `Readiness.PipeReady` | rust-grates/ipc-grate/src/handlers.rs:511-589 | on a pipe end, poll for its direction reports something exactly when a one-byte non-blocking call would not get EAGAIN |
| `Readiness.PipeIsPolled` | rust-grates/ipc-grate/src/handlers.rs:511-589 | each bit of a pipe end by itself, for its direction and when asked: POLLIN exactly when a one-byte read gets a byte, POLLHUP when it gets 0, POLLOUT when the ring has room, POLLERR when it is full with no reader left; no other bit |
| `Readiness.SocketReady` | rust-grates/ipc-grate/src/handlers.rs:511-589 | on a connected socket the input bits are exact; the output bits are set exactly when a write would be answered, it was asked for and input was not |
| `Readiness.WritableSocketUnannounced` | rust-grates/ipc-grate/src/handlers.rs:511-589 | a socket with room to send that poll for input and output reports as not ready |
| `Readiness.SocketIsPolled` | rust-grates/ipc-grate/src/handlers.rs:511-589 | each bit of any socket: POLLIN for a waiting connection at a listening one, the bits of the receive or the send pipe of a connected one, POLLNVAL without pipes or a question |
| `Holdings.BumpKeepsAgree` | rust-grates/ipc-grate/src/pipe.rs:372-393 | one reference more for each end of a new owner keeps counts equal to owners |
| `Holdings.DropKeepsAgree` | rust-grates/ipc-grate/src/handlers.rs:249-259 | dropping an owner with its references keeps counts equal to owners and latches EOF exactly at the last write end |
| `Holdings.UncountedOwners` | rust-grates/ipc-grate/src/handlers.rs:1679-1695 | owners installed without counting keep the counts right exactly when they stand for no pipe end |
| `IpcStates.ForkConfluent` | rust-grates/ipc-grate/src/handlers.rs:1596-1718 | a child gets the same table from the snapshot as from the parent's copy, and a later merge changes nothing as long as it closed nothing |
| `IpcStates.ViewSeen` | rust-grates/ipc-grate/src/ipc.rs:218-242 | whenever the snapshot is merged into an early child, all of it is there and every counted reference has landed |
| `IpcStates.CleanWhenKept` | rust-grates/ipc-grate/src/handlers.rs:1679-1695 | once an early child has looked anything up, the return of clone() keeps the counts right exactly when every inherited descriptor the child no longer has stands for no pipe end |
| `IpcGrates.IpcGrate.CloseSlot` | rust-grates/ipc-grate/src/handlers.rs:249-259 | removing a pipe entry drops its one reference; the invariant holds |
| `IpcGrates.IpcGrate.DropRefs` | rust-grates/ipc-grate/src/handlers.rs:320-328 | a socket entry drops one write reference on its send pipe and one read reference on its receive pipe |
| `IpcGrates.IpcGrate.UnusedFd` | rust-grates/ipc-grate/src/handlers.rs:174-190 | the lowest descriptor from the bound on that the table does not hold |
| `IpcGrates.IpcGrate.MergeTable` | rust-grates/ipc-grate/src/ipc.rs:218-242 | entries go only where the table has none; counts stay right exactly when each was counted at the clone or stands for no end |
| `IpcGrates.IpcGrate.Install` | rust-grates/ipc-grate/src/ipc.rs:218-242 | the newest pending snapshot is merged, or nothing changes when there is none |
| `IpcGrates.IpcGrate.Lookup` | rust-grates/ipc-grate/src/ipc.rs:262-288 | a hit is answered from the table, a miss after merging the newest snapshot |
| `IpcGrates.IpcGrate.EnsureCage` | rust-grates/ipc-grate/src/handlers.rs:72-81 | a cage without a table gets the pending snapshot or the three reserved descriptors |
| `IpcGrates.IpcGrate.Open` | rust-grates/ipc-grate/src/handlers.rs:1198-1218 | a forwarded open takes the lowest unused descriptor with its runtime descriptor, flags and close-on-exec mark; a failed one answers its error and changes nothing |
| `IpcGrates.IpcGrate.DupFrom` | rust-grates/ipc-grate/src/handlers.rs:1252-1322 | the copy at the lowest unused descriptor names the same thing and is counted; EBADF and forwarding cases with their codes; the rest of the state as it was; the invariant holds |
| `IpcGrates.IpcGrate.Dup2` | rust-grates/ipc-grate/src/handlers.rs:1324-1416 | the target becomes a counted copy, what it held is closed once, also when both name one pipe; equal descriptors change nothing; the invariant holds |
| `IpcGrates.IpcGrate.SetStatus` | rust-grates/ipc-grate/src/handlers.rs:1528-1540 | F_SETFL changes the status flags of one entry, and no count |
| `IpcGrates.IpcGrate.SetCloexec` | rust-grates/ipc-grate/src/handlers.rs:1548-1552 | F_SETFD changes the close-on-exec mark of one entry, and no count |
| `IpcGrates.IpcGrate.Close` | rust-grates/ipc-grate/src/handlers.rs:1149-1189 | exactly the entry goes; 0 for one of ours and the forwarded code otherwise; the invariant holds |
| `IpcGrates.IpcGrate.Exit` | rust-grates/ipc-grate/src/handlers.rs:273-318 | exactly the cage's entries go, each dropping its references; every other entry is as it was |
| `IpcGrates.IpcGrate.Exec` | rust-grates/ipc-grate/src/handlers.rs:1732-1776 | entry by entry: what was not marked close-on-exec stays, what was marked is gone or makes room for a reserved descriptor, 0, 1, 2 are reserved where free, other cages' entries stay; the invariant holds |
| `IpcGrates.IpcGrate.CloneBegin` | rust-grates/ipc-grate/src/handlers.rs:1596-1648 | the parent's table is published and each end in it counted once more before the child exists |
| `IpcGrates.IpcGrate.FailedClone` | rust-grates/ipc-grate/src/handlers.rs:1649-1672 | a failed clone restores every count and every EOF latch |
| `IpcGrates.IpcGrate.CloneReturned` | rust-grates/ipc-grate/src/handlers.rs:1673-1722 | the parent's merge or copy; counts stay right exactly when each entry it installs was counted at the beginning or stands for no end |
| `IpcGrates.IpcGrate.Clone` | rust-grates/ipc-grate/src/handlers.rs:1563-1718 | entry by entry, the child has its parent's descriptors and no others, and nobody else's table moves; each inherited end is counted once |
| `IpcGrates.IpcGrate.CloneWithEarlyChild` | rust-grates/ipc-grate/src/handlers.rs:1596-1718 | for any pipes, opens, dups and dup2s of a child that runs first: each has its effect and answer on the tables as the child sees them, the return adds to its table only what it lacks and nothing once it was seen, each parent descriptor that is not the target of one of its dup2s equals the parent's, other tables are untouched, and the counts are exact |
| `IpcEffects.ChildEntrySurvives` | rust-grates/ipc-grate/src/handlers.rs:1697-1701 | whatever an early child has put at a descriptor is there after clone() has returned, unless the child redirected it again |
| `IpcEffects.RedirectionSurvives` | rust-grates/ipc-grate/src/handlers.rs:1697-1701 | a dup2 of an early child: the copy of its source, or the runtime's descriptor, is what the child ends with |
| `IpcEffects.InheritedRedirection` | rust-grates/ipc-grate/src/handlers.rs:1697-1701 | a dup2 of an early child from a descriptor it inherited: the child ends with a copy of what its parent has there |
| `IpcGrates.IpcGrate.CloneWithEarlyClose` | rust-grates/ipc-grate/src/handlers.rs:1596-1718 | a child's close before clone() returns is undone unless it is a vfork child; the counts are those of the tables without the descriptor, so right exactly for a vfork child or a descriptor that stood for no pipe end |
| `IpcGrates.IpcGrate.CloneWithStranger` | rust-grates/ipc-grate/src/ipc.rs:218-242 | a cage that misses a descriptor while a clone is in flight gets the parent's whole table under its own and its answer from there, the child gets the table too; the counts stay right exactly when every inherited pipe end fell on a descriptor the cage already had |
| `IpcGrates.IpcGrate.MakePipe` | rust-grates/ipc-grate/src/ipc.rs:137-168 | a new pipe with one counted read and one counted write descriptor, the two lowest unused ones |
| `IpcGrates.IpcGrate.MakeSocket` | rust-grates/ipc-grate/src/handlers.rs:1814-1831 | an AF_UNIX socket: unconnected, under a fresh id and the lowest unused descriptor, with its type's flags |
| `IpcGrates.IpcGrate.SocketPair` | rust-grates/ipc-grate/src/socket.rs:184-209 | two sockets over two new pipes, each sending what the other receives |
| `IpcGrates.IpcGrate.Bind` | rust-grates/ipc-grate/src/handlers.rs:1951-1990 | an AF_UNIX address is recorded on the socket and in the registry, with code 0; on anything else nothing changes and the call is forwarded, or answered EBADF when the descriptor is unknown |
| `IpcGrates.IpcGrate.Listen` | rust-grates/ipc-grate/src/handlers.rs:2058-2089 | exactly the socket's state changes, with code 0; ENOTSOCK on a pipe; forwarded or EBADF otherwise |
| `IpcGrates.IpcGrate.AddConnection` | rust-grates/ipc-grate/src/handlers.rs:2189-2224 | two new pipes, the connection queued last; counts stay right exactly when one descriptor names an unconnected socket |
| `IpcGrates.IpcGrate.Connect` | rust-grates/ipc-grate/src/handlers.rs:2173-2225 | refused when nobody is bound there, forwarded when the descriptor names no socket of ours; otherwise the two pipes, the socket and the queue of AddConnection and nothing else, with code 0 and the exact condition on the counts |
| `SocketStates.ConnectAgrees` | rust-grates/ipc-grate/src/handlers.rs:2189-2224 | one reference for the connector is right exactly for one descriptor on an unconnected socket |
| `IpcGrates.IpcGrate.TakeConnection` | rust-grates/ipc-grate/src/handlers.rs:2307-2335 | the oldest queued connection becomes a socket cross-wired to its connector and takes over the two references kept for it |
| `IpcGrates.IpcGrate.Accept` | rust-grates/ipc-grate/src/handlers.rs:2231-2375 | the head of the address's queue under a new descriptor; EAGAIN, EINTR or waiting when it is empty; ENOTSOCK and EINVAL; on a runtime descriptor the new runtime descriptor gets a place, EBADF on an unknown one; the invariant holds |
| `IpcGrates.IpcGrate.IoctlNonblocking` | rust-grates/ipc-grate/src/handlers.rs:3667-3686 | the flags change; the counts become those of the tables without the descriptor, so they stay right exactly when it stands for no pipe end |
| `IpcGrates.IpcGrate.ShutdownWrite` | rust-grates/ipc-grate/src/handlers.rs:2412-2421 | the send pipe loses a write reference its descriptors still stand for, so the counts are wrong exactly when there is a send pipe; the connection state moves on |
| `IpcGrates.IpcGrate.PollState` | rust-grates/ipc-grate/src/handlers.rs:511-589 | in every valid state each bit of a pipe end as PipeIsPolled, of a socket as SocketIsPolled |
| `IpcGrates.IpcGrate.ReadFd` | rust-grates/ipc-grate/src/handlers.rs:402-454 | the read goes to the pipe the descriptor stands for and to no other |
| `IpcGrates.IpcGrate.WriteFd` | rust-grates/ipc-grate/src/handlers.rs:457-507 | the write goes to the pipe the descriptor stands for and to no other; an empty one answers 0 |
| `IpcGrates.IpcGrate.CountsAreVisible` | rust-grates/ipc-grate/src/handlers.rs:1679-1695 | with no clone in flight the counts are right exactly when, in all tables, a pipe's are its open write and read descriptors, a connection pipe's the descriptors of the sockets at its ends and one for an acceptor still to come, and EOF holds exactly when no write end is left |
| `IpcEffects.AgreeIsExact` | rust-grates/ipc-grate/src/handlers.rs:2189-2224 | the same for each pipe by itself |
| `IpcGrates.IpcGrate.Run` | rust-grates/ipc-grate/src/handlers.rs:249-2375 | every run of these calls over any number of cages goes through sound states, each call with its effect and answer, those of early children included, from the state before to the state after; the counts of every pipe and connection are those the tables and queues show, sockets cross-wired; EOF stays and the ring then only drains |
| `IpcEffects.StreamsConserved` | rust-grates/ipc-grate/src/pipe.rs:107-189 | over any run, what was read from a pipe followed by its ring is its old ring followed by what was written to it, through any descriptors of any cages |
| `IpcEffects.PeersAreStreams` | rust-grates/ipc-grate/src/handlers.rs:2189-2335 | over any run, what a connected socket received followed by what is on the way is what was on the way followed by what its peer sent; for a connection made in the run, a prefix of what the peer sent |
| `IpcEffects.AcceptsInOrder` | rust-grates/ipc-grate/src/handlers.rs:2189-2309 | over any run, the connections accepted at an address followed by those waiting are those that waited followed by those made, none twice |
| `IpcEffects.StepMoves` | rust-grates/ipc-grate/src/pipe.rs:107-189 | one call, of whatever kind, conserves the bytes of every pipe |
| `IpcEffects.StepLines` | rust-grates/ipc-grate/src/handlers.rs:2189-2309 | one call adds at most its own connection at the end of a queue or takes the first one out |
| `IpcEffects.RunKeeps` | rust-grates/ipc-grate/src/handlers.rs:2189-2335 | once a socket has pipes it keeps them for the rest of a run |
| `IpcEffects.ReadCallMeans` | rust-grates/ipc-grate/src/handlers.rs:402-454 | read() in a run, in terms of rings and bits: which pipe for which entry, the front of its ring, 0, EAGAIN exactly with O_NONBLOCK, waiting otherwise, EBADF and forwarding |
| `IpcEffects.WriteCallMeans` | rust-grates/ipc-grate/src/handlers.rs:457-507 | write() in a run: which pipe, as many bytes as fit behind its ring, EPIPE, EAGAIN exactly with O_NONBLOCK, waiting otherwise |
| `IpcEffects.CageCallMeans` | rust-grates/ipc-grate/src/handlers.rs:1563-1776 | clone(), exec() and exit() in a run, entry by entry |
| `Witnesses.DupThenConnect` | rust-grates/ipc-grate/src/handlers.rs:2189-2224 | socket, bind, socket, dup, connect: the call succeeds, and two descriptors send on a pipe that counts one writer |
| `Witnesses.PipeThenNonblocking` | rust-grates/ipc-grate/src/handlers.rs:3667-3686 | pipe, FIONBIO on its write end: no writer is counted and EOF is latched with the write end open |
| `Witnesses.PairThenShutdown` | rust-grates/ipc-grate/src/handlers.rs:2412-2421 | socketpair, shutdown for writing: no writer is counted and EOF is latched with the sender's descriptor open |
| `Witnesses.CloneThenEarlyClose` | rust-grates/ipc-grate/src/handlers.rs:1673-1722 | pipe, clone, the child closes the write end before clone() returns: parent and child both have the write end and one is counted |
| `Witnesses.CloneThenStranger` | rust-grates/ipc-grate/src/ipc.rs:218-242 | a cage with a file looks up a descriptor it does not have while another clones a pipe: three cages have the write end and the counts do not say so |
| `Ports.PortAllocator.Allocate` | rust-grates/ipc-grate/src/socket.rs:163-176 | terminates with the first free port below the cursor, or none exactly when all are bound |
| `Ports.PortAllocator.AllocateMany` | rust-grates/ipc-grate/src/socket.rs:163-176 | consecutive allocations are free and distinct; as many as there are free ports return each once |
| `Pieces.SplicePiece` | c-grates/imfs-grate/src/imfs.c:649-667 | splicing into one chunk is splicing into the file |
| `Pieces.SpliceNewPiece` | c-grates/imfs-grate/src/imfs.c:637-667 | so is adding a chunk after full ones |
| `ChunkFiles.Chunk.Store` | c-grates/imfs-grate/src/imfs.c:649-663 | the used part becomes the splice of what it held, holes zeroed |
| `ChunkFiles.Node.Seek` | c-grates/imfs-grate/src/imfs.c:625-634 | the chunk and local offset of the offset, or the last chunk with one chunk's bytes taken off |
| `ChunkFiles.Node.Copy` | c-grates/imfs-grate/src/imfs.c:636-667 | the bytes are spliced where the walk ended, adding chunks; every chunk but the last stays full |
| `ChunkFiles.WriteExact` | c-grates/imfs-grate/src/imfs.c:625-670 | content and recorded size are the flat file's exactly on the domain |
| `ChunkFiles.Node.Write` | c-grates/imfs-grate/src/imfs.c:608-678 | what is stored and recorded for every offset; right exactly when the offset is in an existing chunk, in the first chunk of an empty file, or the write is empty and not past the end |
| `ChunkFiles.AppendExact` | c-grates/imfs-grate/src/imfs.c:618-634 | a non-empty append works exactly on empty files and those not ending at a chunk boundary |
| `ChunkFiles.SecondChunkOverwrites` | c-grates/imfs-grate/src/imfs.c:628-634 | one byte after a full first chunk replaces the first byte |
| `ChunkFiles.Node.Read` | c-grates/imfs-grate/src/imfs.c:535-580 | exactly that slice of the flat file |
| `FileCalls.FileTable.Read` | c-grates/imfs-grate/src/imfs.c:535-580 | read takes the bytes at the descriptor's offset and moves it by as many, pread takes them at its own and moves nothing; no other descriptor and no byte of the file changes; a write-only descriptor fails |
| `FileCalls.FileTable.Write` | c-grates/imfs-grate/src/imfs.c:608-678 | write and append store at the offset or the end and move the offset by the count, pwrite moves nothing, no other byte or descriptor changes; the flat file's result exactly in the domain |
| `FileCalls.FileTable.Seek` | c-grates/imfs-grate/src/imfs.c:1316-1361 | the new offset for each mode, and the failing modes, which leave it; no other descriptor changes |
| `FileCalls.FileTable.Run` | c-grates/imfs-grate/src/imfs.c:535-678 | any run of in-domain calls through any descriptors gives the flat file's answers and content, and keeps the chunk invariant |
| `FileCalls.FlatStepMeans` | c-grates/imfs-grate/src/imfs.c:535-678 | each call on the flat file byte by byte and descriptor by descriptor |
| `FileCalls.ReadsInARow` | c-grates/imfs-grate/src/imfs.c:535-580 | reads of any sizes in a row hand out the file from the offset on, every byte once and in order, up to its end |
| `FileCalls.WritesInARow` | c-grates/imfs-grate/src/imfs.c:608-678 | two writes in a row are one write of both |
| `FileCalls.ReadsBack` | c-grates/imfs-grate/src/imfs.c:535-678 | what was written at an offset is read there, through any descriptors |
| `FdSets.MembersAdd` | lib/grate-rs/src/fd_support.rs:25-30 | setting a bit adds exactly that descriptor to the set |
| `FdSets.FirstBit` | lib/grate-rs/src/fd_support.rs:25-30 | descriptor 0 of a word is its lowest bit |
| `FdSets.NextBit` | lib/grate-rs/src/fd_support.rs:25-30 | each next descriptor is the next bit |
| `FdSets.FdSet.Has` | lib/grate-rs/src/fd_support.rs:25-27 | the bit test is membership, false from 1024 on |
| `FdSets.FdSet.Add` | lib/grate-rs/src/fd_support.rs:28-30 | set union with one descriptor, nothing from 1024 on |
| `FdSets.FdSet.AddAll` | rust-grates/ipc-grate/src/handlers.rs:1112-1138 | or-ing the words is set union |
| `Selects.Classify` | rust-grates/ipc-grate/src/handlers.rs:925-978 | the kernel sets are the images of what was asked, the local sets what polling reports, the reverse map the last owner of each image |
| `Selects.ClassifyOne` | lib/grate-rs/src/fd_support.rs:448-466 | the same for one descriptor |
| `Selects.BackTranslate` | lib/grate-rs/src/fd_support.rs:637-648 | each answered image sets the bit of its last owner, and nothing else is set |
| `Selects.RenamingExact` | lib/grate-rs/src/fd_support.rs:407-482 | bit f comes back exactly when f was asked and its image answered, for every answer, if and only if the renaming is injective on what was asked |
| `Selects.AnswerExact` | rust-grates/ipc-grate/src/handlers.rs:1094-1141 | on an injective renaming the kernel's count plus the local count is the number of bits set |
| `Selects.AwaitReady` | rust-grates/ipc-grate/src/handlers.rs:987-1050 | scans until something is ready, the time is up or a signal comes, and waits on only if none of these happened; the count is the number of bits of the last scan; EINTR leaves the caller's sets as they were |
| `Selects.Select` | rust-grates/ipc-grate/src/handlers.rs:853-1142 | the whole call: which sets come back and that the result is their total size, in each case; errors leave the caller's sets as they were |
| `IpcSelects.Scan` | rust-grates/ipc-grate/src/handlers.rs:925-978 | every requested descriptor of the grate is polled once, in a valid state, and its bits are right |
| `IpcSelects.SelectPipe` | rust-grates/ipc-grate/src/handlers.rs:925-978 | whatever the kernel answers, a pipe end comes back readable exactly when a one-byte read would be answered, writable exactly when a one-byte write would be, and in the exception set exactly when output was asked for too and its pipe is full with no reader left |
| `IpcSelects.SelectSocket` | rust-grates/ipc-grate/src/handlers.rs:925-978 | a connected socket comes back readable exactly when a read would be answered, and writable exactly when a write would be and input was not asked for |
| `IpcSelects.SelectListener` | rust-grates/ipc-grate/src/handlers.rs:925-978 | a listening socket comes back readable exactly when a connection waits at its address |
| `IpcSelects.ScanAlone` | rust-grates/ipc-grate/src/handlers.rs:987-1050 | so it is for each scan of a wait without kernel descriptors |
| `Paths.SplitJoin` | rust-grates/chroot-grate/src/paths.rs:105-116 | splitting what was joined gives the components back |
| `Paths.NormalizePath` | rust-grates/chroot-grate/src/paths.rs:94-117 | the stack loop computes the normal form, which the laws below determine: absolute, names kept, a double dot takes the last one away |
| `Paths.NormalizeIsNormal` | rust-grates/chroot-grate/src/paths.rs:94-117 | the result is absolute and every component stands for itself |
| `Paths.NormalizeIdempotent` | rust-grates/chroot-grate/src/paths.rs:94-117 | normalising twice is normalising once, whatever the current directories |
| `Paths.NormalizeComposes` | rust-grates/chroot-grate/src/paths.rs:94-117 | a relative p2 from where p1 leads is p1/p2 |
| `Paths.DotDotIsParent` | rust-grates/chroot-grate/src/paths.rs:105-116 | from a normal path a double dot leads to its parent, in both grates |
| `Paths.DotDotAtRoot` | rust-grates/chroot-grate/src/paths.rs:105-116 | there is nothing above the root |
| `Paths.DotDotUndoes` | rust-grates/fs-routing-clamp/src/helpers.rs:414-441 | into a name and out again is where one was, and so is a dot, for any path and both grates |
| `Paths.AbsoluteIgnoresCwd` | rust-grates/chroot-grate/src/paths.rs:94-104 | an absolute path does not look at the current directory |
| `Paths.ResolveForComposes` | rust-grates/fs-routing-clamp/src/helpers.rs:414-441 | the routing grate's resolution composes, is normal and is idempotent; an empty first path is the current directory |
| `Paths.ResolveNames` | rust-grates/fs-routing-clamp/src/helpers.rs:414-425 | the component loop computes the resolution of the split path |
| `Chroots.VirtualizeInverts` | rust-grates/chroot-grate/src/paths.rs:120-151 | mapping into the chroot and back gives the normal form, for every chroot directory |
| `Chroots.Confined` | rust-grates/chroot-grate/src/paths.rs:120-132 | a host path is the chroot directory and then a normal path, so no dots lead out of it |
| `Chroots.VirtualizeOutside` | rust-grates/chroot-grate/src/paths.rs:133-151 | a host directory outside the chroot is shown as it is |
| `Chroots.TranslateMeans` | rust-grates/chroot-grate/src/sockets.rs:218-248 | only AF_UNIX addresses with a name are touched, and those name a path inside the chroot |
| `Chroots.StripMeans` | rust-grates/chroot-grate/src/sockets.rs:249-290 | what is under the directory as written loses it, the directory is the root, the rest stays |
| `Chroots.Untranslate` | rust-grates/chroot-grate/src/sockets.rs:249-290 | the buffer is rewritten in place, cut to leave room for its NUL, the rest kept |
| `Chroots.SockAddrRoundTrip` | rust-grates/chroot-grate/src/sockets.rs:218-290 | an address translated and back holds the normal form, with its NUL inside the buffer, exactly when the chroot directory has no trailing slash or in two named cases |
| `Chroots.TrailingSlashLosesName` | rust-grates/chroot-grate/src/sockets.rs:218-290 | with the directory written "/jail/" the address "/x" comes back as another |
| `Chroots.AbstractKept` | rust-grates/chroot-grate/src/sockets.rs:222-290 | an abstract address survives exactly when the chroot directory is not empty or there is no room |
| `Chroots.EmptyChrootDamagesAbstract` | rust-grates/chroot-grate/src/sockets.rs:222-290 | with an empty directory the abstract address "a" comes back as another |
| `MmapRanges.ClampedMmaps.Record` | rust-grates/fs-routing-clamp/src/helpers.rs:521-534 | exactly the range's addresses are added; nothing for an empty or overflowing one |
| `MmapRanges.ClampedMmaps.IsClamped` | rust-grates/fs-routing-clamp/src/helpers.rs:536-551 | true exactly when the query meets the recorded addresses, overlapping ranges included |
| `MmapRanges.ClampedMmaps.Remove` | rust-grates/fs-routing-clamp/src/helpers.rs:553-598 | exactly the range's addresses go; no empty range is stored |
| `MmapRanges.ClampedMmaps.Run` | rust-grates/fs-routing-clamp/src/helpers.rs:521-598 | after any run a cage's list stands for the addresses recorded and not since removed |
| `Routes.ClampState.Register` | rust-grates/fs-routing-clamp/src/handlers/clamped_lifecycle.rs:41-48 | the request becomes the most recent one for its cage and call, and the runtime's reply is handed back |
| `Routes.ClampState.FindRequest` | rust-grates/fs-routing-clamp/src/helpers.rs:289-301 | the backward search finds the most recent request |
| `Routes.ClampState.RouteCall` | rust-grates/fs-routing-clamp/src/handlers/clamped_lifecycle.rs:84-103 | the call reaches the handler through a number nobody used, all other calls reach what they did; a refusal changes no route |
| `Routes.ClampState.RegisterTarget` | rust-grates/fs-routing-clamp/src/handlers/clamped_lifecycle.rs:51-111 | every call of the list with a request reaches its most recent handler, one by one up to the first refusal, and all others what they did; 0 exactly when no registration was refused |
| `Routes.ClampState.CloneRoutes` | rust-grates/fs-routing-clamp/src/helpers.rs:326-341 | the child has every route of the parent, its other routes stay |
| `Routes.ClampState.Fork` | rust-grates/fs-routing-clamp/src/handlers/clamped_lifecycle.rs:294-311 | a clamped parent's child reaches what the parent does, nobody else's routes move; an unclamped one's nothing new |
| `Routes.ClampState.Exit` | rust-grates/fs-routing-clamp/src/helpers.rs:368-383 | exactly the cage's routes go |
| `Routes.OneCallPerNumber` | rust-grates/fs-routing-clamp/src/helpers.rs:207-214 | a routed number is below the allocator and stands for one call across all cages |
| `Routes.RouteIsLatest` | rust-grates/fs-routing-clamp/src/helpers.rs:289-324 | a cage's own route reaches its most recent handler unless one was registered since |
| `Routes.ClampState.Run` | rust-grates/fs-routing-clamp/src/handlers/clamped_lifecycle.rs:41-111 | any run of registrations, boundaries, forks and exits does to what the calls reach what its operations do one by one, with their results; every routed number stands for one call; and a route set by a boundary that answered 0 leads to the most recent handler unless a later operation replaced it |
| `Routes.CurrentAfter` | rust-grates/fs-routing-clamp/src/handlers/clamped_lifecycle.rs:41-111 | which calls reach their most recent handler after an operation that does not replace their route: those that did, and those a successful boundary sets |
| `Routes.CurrentReplaced` | rust-grates/fs-routing-clamp/src/handlers/clamped_lifecycle.rs:41-48 | and after one that does: exactly when the new handler or the parent's is the one reached, never after an exit |
| `Routes.RewireRefuses` | rust-grates/fs-routing-clamp/src/handlers/clamped_lifecycle.rs:81-111 | the boundary answers 0 exactly when every visible registration, and the alternative one of each call with a request, was granted |
| `Routes.RewireCode` | rust-grates/fs-routing-clamp/src/handlers/clamped_lifecycle.rs:81-111 | the first refused registration decides the answer |
| `Routes.ClampedExactly` | rust-grates/fs-routing-clamp/src/helpers.rs:250-281 | after any run a cage is inside the clamp exactly from its entry to its boundary or exit |
| `Routes.TablesAfter` | rust-grates/fs-routing-clamp/src/handlers/clamped_lifecycle.rs:294-330 | fork and exit, call by call |
| `Nannies.Renewable.Sleep` | rust-grates/resource-grate/src/nanny.rs:11-16 | the busy wait returns at the first reading at which the clock has moved on by the duration, and exactly when there is one |
| `Nannies.Renewable.Charge` | rust-grates/resource-grate/src/nanny.rs:138-174 | one call in plain numbers: exactly the rate times the time has drained; within the budget it finishes at once without sleeping, else it sleeps the excess over the rate and finishes at the first reading after that or runs out of readings; at most quantity / rate |
| `Nannies.Renewable.ChargeAll` | rust-grates/resource-grate/src/nanny.rs:138-174 | calls in a row, each from where the one before left the bucket, up to the first that runs out of readings, which then asked for more than the time was worth or than the rate; those finished charge at most rate times (elapsed + 1 second) |
| `Nannies.RateBound` | rust-grates/resource-grate/src/nanny.rs:138-174 | that bound for every trace of finished calls from any bucket between calls |
| `Nannies.ChargedPaid` | rust-grates/resource-grate/src/nanny.rs:138-174 | one finished call keeps the bucket at or below the rate and drains at most the time's worth |
| `Nannies.ChargedPlain` | rust-grates/resource-grate/src/nanny.rs:138-174 | every finished call of a trace, in plain numbers |
| `Nannies.IdleForgives` | rust-grates/resource-grate/src/nanny.rs:146-157 | after a wait that drains everything a charge up to the rate does not sleep and is all that is left |
| `Nannies.ShortWaitDrains` | rust-grates/resource-grate/src/nanny.rs:146-157 | after a shorter wait exactly the rate times the time is gone |
| `Nannies.SteadyNeverSleeps` | rust-grates/resource-grate/src/nanny.rs:146-165 | charges that the time since the last one is worth never sleep |
| `Nannies.Fungible.Run` | rust-grates/resource-grate/src/nanny.rs:178-202 | a slot is granted exactly while the count before the call is below the limit; never more slots out than the limit; the count is exact just while no release found none held |

## Left out

- The runtime: cross-cage copies always succeed, forwarded calls and registrations answer arbitrarily.
- The descriptor-table library is modelled by what its callers rely on: removal and overwriting fire the close handler, copying does not, a new descriptor is the lowest unused one.
- Threads inside a handler: each handler is one step, except that the retry loops of pipe reads and writes interleave with the other endpoint.
- The waits for an inherited table are one lookup: a snapshot that appears while a child naps is a snapshot that was there.
- Shared ownership of pipes: a pipe is a value under its name in one map, and the circular buffer with its loops is modelled apart from the tables.
- Table and id limits (EMFILE), overflow of counts and ids, and 32-bit results of more than 2 GiB.
- Several clones in flight at once, and epoll, sendmsg, recvmsg, socket options and fstat of the ipc-grate.
- AF_INET sockets taken over by the ipc-grate, beyond their ephemeral ports; addresses too short to have a family, and the placeholder file and address write-back of bind() and accept().
- The directory descriptor of openat(), which is translated and may answer EBADF; the rest is open().
- dup3() is dup2() there, so it has no method of its own; F_GETFD and F_GETFL only read.
- `IpcGrates.IpcGrate.Run`: leaves out ioctl(FIONBIO), shutdown(), closes of a child in flight and other cages' calls while a clone is in flight, and skips connects outside their domain, because they do not keep the counts; their exact conditions are stated on their own methods. Reads and writes of a run are single laps.
- The C filesystem's directories, links, free lists, descriptor copies and pipes; negative offsets and failed allocations. A write whose local offset exceeds a chunk is undefined in C and ends the model's call with `Fault`.
- `Iovecs.Scatter`: the segment list is a value, so a list that lies inside its own destination is not modelled.
- Null sets of select() are empty sets, and the time-out arithmetic is a flag of each scan.
- Text is one character a byte; UTF-8 replacement is not modelled.
- Current directories of cages are parameters of path resolution.
- Rounding of floating-point time and a rate of zero; resources that are not configured are unlimited and need no account; the per-port allow lists are a set lookup.
- The nesting of clamp markers in exec(), prefix matching of routed paths, and what the handlers themselves do.
- The other grates, which forward, log or apply a one-branch policy.
