/**
 The ipc-grate's system calls over any number of cages: descriptor tables, pipe reference
 counts, sockets with their accept queues, and the clone protocol.

 `held` is a history variable: it names the owner of every reference. `Valid` ties it to the
 tables, the queues and the clone in flight, and says that every count agrees with it.
 */
module IpcGrates {
  import opened Bytes
  import opened Pipes
  import opened Holdings
  import opened Descriptors
  import opened IpcStates
  import opened SocketStates
  import opened IpcEffects
  import opened Readiness

  class IpcGrate {
    var cages: set<nat>
    var fds: map<Slot, Entry>
    var pipes: map<PipeRef, Pipe>
    var nextPipe: nat
    var nextConn: nat
    var sockets: map<nat, Socket>
    var nextSocket: nat
    var queues: map<string, seq<Pending>>
    var boundPaths: map<string, nat>
    var pending: seq<Snapshot>

    ghost var held: Holding
    ghost var flight: map<nat, Entry>            // inherited entries counted but not yet in a table
    ghost var line: map<nat, string>             // waiting connection -> the address it waits at

    /** Everything but the agreement of the counts. */
    ghost predicate Shape()
      reads this
    {
      ShapeOf(fds, cages, pipes, sockets, nextPipe, nextConn, nextSocket, pending, flight, held, queues, line)
    }

    ghost predicate Valid()
      reads this
    {
      Shape() && Agree(held, pipes)
    }

    ghost function Now(): State
      reads this
    {
      State(cages, fds, pipes, sockets, queues, boundPaths, nextPipe, nextConn, nextSocket)
    }

    constructor ()
      ensures Valid() && Now() == State({}, map[], map[], map[], map[], map[], 0, 0, 0)
      ensures cages == {} && fds == map[] && pending == [] && flight == map[]
    {
      cages, fds, pipes, sockets, queues, boundPaths := {}, map[], map[], map[], map[], map[];
      nextPipe, nextConn, nextSocket, pending := 0, 0, 0, [];
      held, flight, line := map[], map[], map[];
    }

    /** With no clone in flight the counts are right exactly when every pipe's are what the tables and queues show. */
    lemma CountsAreVisible()
      requires Shape() && flight == map[]
      ensures Agree(held, pipes) <==> forall r :: r in pipes ==> Exact(Now(), r)
    {
      hide FlightOk, PipesOk, NumbersOk, WiredOk, HalfWiredOk, QueuesOk, LineOk, OrderOk, OwnersOk, SocketsOk;
      hide Refers, AgreeOn, Exact;
      forall r | r in pipes ensures AgreeOn(held, r, pipes[r]) <==> Exact(Now(), r) {
        AgreeIsExact(Now(), held, line, r);
      }
    }

    // ------------------------------------------------------------------
    // Reference counts
    // ------------------------------------------------------------------

    method AddRefs(e: Entry)
      requires Refers(e, pipes.Keys, sockets.Keys) && SocketsOk(sockets, pipes.Keys)
      modifies this`pipes
      ensures pipes == Bumped(old(pipes), Ends(sockets, e))
    {
      match e.kind
      case Kernel =>
      case PipeFd =>
        var r := Plain(e.underfd);
        if IsReadEnd(e.flags) {
          pipes := pipes[r := IncrRead(pipes[r])];
        } else {
          pipes := pipes[r := IncrWrite(pipes[r])];
        }
      case SocketFd =>
        var s := sockets[e.underfd];
        if s.send.Some? {
          pipes := pipes[s.send.value := IncrWrite(pipes[s.send.value])];
        }
        if s.recv.Some? {
          pipes := pipes[s.recv.value := IncrRead(pipes[s.recv.value])];
        }
    }

    /** The close handlers registered with the descriptor tables. */
    method DropRefs(e: Entry)
      requires Refers(e, pipes.Keys, sockets.Keys) && SocketsOk(sockets, pipes.Keys)
      requires forall r :: r in pipes ==> Droppable(r, pipes[r], Ends(sockets, e))
      modifies this`pipes
      ensures pipes == Dropped(old(pipes), Ends(sockets, e))
    {
      match e.kind
      case Kernel =>
      case PipeFd =>
        var r := Plain(e.underfd);
        if IsReadEnd(e.flags) {
          pipes := pipes[r := DecrRead(pipes[r])];
        } else {
          pipes := pipes[r := DecrWrite(pipes[r])];
        }
      case SocketFd =>
        var s := sockets[e.underfd];
        if s.send.Some? {
          pipes := pipes[s.send.value := DecrWrite(pipes[s.send.value])];
        }
        if s.recv.Some? {
          pipes := pipes[s.recv.value := DecrRead(pipes[s.recv.value])];
        }
    }

    /** Removing an entry fires its close handler. */
    method CloseSlot(s: Slot)
      requires Valid() && s in fds
      modifies this`fds, this`pipes, this`held
      ensures Valid() && fds == old(fds) - {s} && held == old(held) - {s}
      ensures pipes.Keys == old(pipes).Keys && Recounted(old(pipes), pipes)
    {
      hide TablesOk, FlightOk, PipesOk, NumbersOk, SocketsOk, OwnersOk, WiredOk, HalfWiredOk, QueuesOk, LineOk;
      hide OrderOk, Agree, Recounted, Droppable, Dropped, Ends, Refers;
      EntryAt(s);
      OwnersRemove(held, fds, sockets, flight, line, s);
      TablesRemove(fds, cages, pipes.Keys, sockets.Keys, s);
      DropKeepsAgree(held, s, pipes);
      DroppedRecounted(pipes, held[s]);
      DropRefs(fds[s]);
      fds := fds - {s};
      held := held - {s};
    }

    lemma EntryAt(s: Slot)
      requires TablesOk(fds, cages, pipes.Keys, sockets.Keys) && s in fds
      ensures s.Live? && s.cage in cages && Refers(fds[s], pipes.Keys, sockets.Keys)
    {
    }

    /** A second descriptor for what `src` names. */
    method CopySlot(src: Slot, s: Slot, cloexec: bool)
      requires Valid() && src in fds && s !in fds && s.Live? && s.cage in cages
      modifies this`fds, this`pipes, this`held
      ensures Valid() && fds == old(fds)[s := old(fds)[src].(cloexec := cloexec)]
      ensures pipes.Keys == old(pipes).Keys && Recounted(old(pipes), pipes)
    {
      hide TablesOk, FlightOk, PipesOk, NumbersOk, SocketsOk, OwnersOk, WiredOk, HalfWiredOk, QueuesOk, LineOk;
      hide OrderOk, Agree, Recounted, Bumped, Ends, Refers;
      EntryAt(src);
      var e := fds[src].(cloexec := cloexec);
      SameEnds(sockets, pipes.Keys, fds[src], e);
      OwnersRemove(held, fds, sockets, flight, line, src);
      OwnersAdd(held, fds, sockets, flight, line, s, e);
      TablesAdd(fds, cages, pipes.Keys, sockets.Keys, s, e);
      BumpKeepsAgree(held, src, s, pipes);
      BumpedRecounted(pipes, held[src]);
      AddRefs(e);
      fds := fds[s := e];
      held := held[s := held[src]];
    }

    /** An entry for a descriptor that belongs to the runtime. */
    method PutKernel(s: Slot, underfd: nat, cloexec: bool, flags: bv32)
      requires Valid() && s !in fds && s.Live? && s.cage in cages
      modifies this`fds, this`held
      ensures Valid() && fds == old(fds)[s := Entry(Kernel, underfd, cloexec, flags)]
    {
      hide TablesOk, FlightOk, PipesOk, NumbersOk, SocketsOk, OwnersOk, WiredOk, HalfWiredOk, QueuesOk, LineOk;
      hide OrderOk, Agree;
      var e := Entry(Kernel, underfd, cloexec, flags);
      OwnersAdd(held, fds, sockets, flight, line, s, e);
      TablesAdd(fds, cages, pipes.Keys, sockets.Keys, s, e);
      UncountedOwner(held, s, {}, pipes);
      fds := fds[s := e];
      held := held[s := {}];
    }

    /** The lowest unused descriptor from `from` on. */
    method UnusedFd(cage: nat, from: nat) returns (fd: nat)
      ensures LowestFree(fds, cage, from, fd)
    {
      fd := from;
      ghost var left := fds.Keys;
      while Live(cage, fd) in fds
        invariant fd >= from
        invariant forall k :: from <= k < fd ==> Live(cage, k) in fds
        invariant forall k :: k >= fd && Live(cage, k) in fds ==> Live(cage, k) in left
        decreases left
      {
        left := left - {Live(cage, fd)};
        fd := fd + 1;
      }
    }

    // ------------------------------------------------------------------
    // Inherited tables
    // ------------------------------------------------------------------

    lemma SnapshotRefers(i: nat)
      requires FlightOk(flight, pending, pipes.Keys, sockets.Keys) && i < |pending|
      ensures forall fd :: fd in pending[i].table ==> Refers(pending[i].table[fd], pipes.Keys, sockets.Keys)
    {
    }

    lemma TableRefers(cage: nat)
      requires TablesOk(fds, cages, pipes.Keys, sockets.Keys)
      ensures var t := TableOf(fds, cage); forall fd :: fd in t ==> Refers(t[fd], pipes.Keys, sockets.Keys)
    {
    }

    /**
     One inherited entry goes into a free slot; no reference is taken. Either the clone's own
     reference changes owner, or the new owner is one that nobody counts.
     */
    method PlaceInherited(cage: nat, fd: nat, e: Entry, ghost counted: Holding, ghost extra: Holding)
      returns (ghost counted': Holding, ghost extra': Holding)
      requires Shape() && cage in cages && Live(cage, fd) !in fds && Refers(e, pipes.Keys, sockets.Keys)
      requires held == counted + extra && counted.Keys !! extra.Keys && Agree(counted, pipes)
      requires forall s :: s in extra ==> s.Live?
      modifies this`fds, this`held, this`flight
      ensures Shape() && fds == old(fds)[Live(cage, fd) := e]
      ensures flight == if Counted(old(flight), fd, e) then old(flight) - {fd} else old(flight)
      ensures held == counted' + extra' && counted'.Keys !! extra'.Keys && Agree(counted', pipes)
      ensures extra' == if Counted(old(flight), fd, e) then extra else extra[Live(cage, fd) := Ends(sockets, e)]
    {
      hide TablesOk, FlightOk, PipesOk, NumbersOk, SocketsOk, OwnersOk, WiredOk, HalfWiredOk, QueuesOk, LineOk;
      hide OrderOk, Agree, Ends, Refers;
      var s := Live(cage, fd);
      TablesAdd(fds, cages, pipes.Keys, sockets.Keys, s, e);
      if Counted(flight, fd, e) {
        FlightShrinks(flight, pending, pipes.Keys, sockets.Keys, fd);
        OwnersLand(held, fds, sockets, flight, line, fd, s);
        MoveKeepsAgree(counted, InFlight(fd), s, pipes);
        SumMove(counted, extra, InFlight(fd), s);
        counted' := (counted - {InFlight(fd)})[s := counted[InFlight(fd)]];
        extra' := extra;
        held := (held - {InFlight(fd)})[s := held[InFlight(fd)]];
        flight := flight - {fd};
      } else {
        OwnersAdd(held, fds, sockets, flight, line, s, e);
        SumAdd(counted, extra, s, Ends(sockets, e));
        counted' := counted;
        extra' := extra[s := Ends(sockets, e)];
        held := held[s := Ends(sockets, e)];
      }
      fds := fds[s := e];
    }

    /** The entries `done` of an inherited table are merged; `counted` and `extra` split the owners. */
    ghost predicate Merging(cage: nat, fds0: map<Slot, Entry>, flight0: map<nat, Entry>, done: map<nat, Entry>,
                            counted: Holding, extra: Holding)
      reads this
    {
      && Shape() && fds == Merged(fds0, cage, done)
      && flight == flight0 - Landing(fds0, flight0, cage, done)
      && extra == Extra(fds0, flight0, sockets, cage, done)
      && held == counted + extra && counted.Keys !! extra.Keys && Agree(counted, pipes)
      && forall s :: s in extra ==> s.Live?
    }

    method MergeOne(cage: nat, fd: nat, e: Entry, ghost fds0: map<Slot, Entry>, ghost flight0: map<nat, Entry>,
                    ghost done: map<nat, Entry>, ghost counted: Holding, ghost extra: Holding)
      returns (ghost counted': Holding, ghost extra': Holding)
      requires Merging(cage, fds0, flight0, done, counted, extra) && fd !in done
      requires cage in cages && Refers(e, pipes.Keys, sockets.Keys)
      modifies this`fds, this`held, this`flight
      ensures Merging(cage, fds0, flight0, done[fd := e], counted', extra')
    {
      hide TablesOk, FlightOk, PipesOk, NumbersOk, SocketsOk, OwnersOk, WiredOk, HalfWiredOk, QueuesOk, LineOk;
      hide OrderOk, Agree, Ends, Refers, Merged, Landing, Extra, ExtraSlots;
      MergedMiss(fds0, flight0, cage, done, fd);
      MergedOne(fds0, cage, done, fd, e);
      ExtraOne(fds0, flight0, sockets, cage, done, fd, e);
      ExtraSlotsOne(fds0, flight0, cage, done, fd, e);
      counted', extra' := counted, extra;
      if Live(cage, fd) !in fds {
        counted', extra' := PlaceInherited(cage, fd, e, counted, extra);
      }
    }

    /**
     `cage` gets the entries of `table` at the descriptors it does not use, and no reference
     is taken for them. The counts stay right exactly when every entry so installed was
     counted when the clone began, or stands for no pipe end.
     */
    method MergeTable(cage: nat, table: map<nat, Entry>)
      requires Valid() && cage in cages
      requires forall fd :: fd in table ==> Refers(table[fd], pipes.Keys, sockets.Keys)
      modifies this`fds, this`held, this`flight
      ensures Shape() && fds == Merged(old(fds), cage, table)
      ensures flight == old(flight) - Landing(old(fds), old(flight), cage, table)
      ensures Agree(held, pipes) <==> CleanMerge(old(fds), old(flight), sockets, cage, table)
    {
      hide TablesOk, FlightOk, PipesOk, NumbersOk, SocketsOk, OwnersOk, WiredOk, HalfWiredOk, QueuesOk, LineOk;
      hide OrderOk, Agree, Ends, Refers, Merged, Landing, Extra, CleanMerge, Known, Rest;
      var todo := table.Keys;
      ghost var counted, extra: Holding := held, map[];
      RestEnds(table);
      MergedNothing(fds, cage);
      ExtraNothing(fds, flight, sockets, cage);
      while todo != {}
        invariant todo <= table.Keys
        invariant Merging(cage, old(fds), old(flight), Rest(table, todo), counted, extra)
      {
        var fd :| fd in todo;
        RestStep(table, todo, fd);
        counted, extra := MergeOne(cage, fd, table[fd], old(fds), old(flight), Rest(table, todo), counted, extra);
        todo := todo - {fd};
      }
      ExtraKnown(old(fds), old(flight), sockets, cage, table, pipes);
      ExtraClean(old(fds), old(flight), sockets, cage, table);
      UncountedOwners(counted, extra, pipes);
    }

    /** A cage that looks something up while a clone is in flight gets the newest snapshot. */
    method Install(cage: nat) returns (found: bool)
      requires Valid()
      modifies this`cages, this`fds, this`held, this`flight
      ensures found <==> pending != []
      ensures !found ==> unchanged(`cages) && unchanged(`fds) && unchanged(`held) && unchanged(`flight)
      ensures found ==>
                var table := pending[|pending| - 1].table;
                && Shape() && cages == old(cages) + {cage} && fds == Merged(old(fds), cage, table)
                && flight == old(flight) - Landing(old(fds), old(flight), cage, table)
                && (Agree(held, pipes) <==> CleanMerge(old(fds), old(flight), sockets, cage, table))
    {
      hide TablesOk, FlightOk, PipesOk, NumbersOk, SocketsOk, OwnersOk, WiredOk, HalfWiredOk, QueuesOk, LineOk;
      hide OrderOk, Agree, Ends, Refers, Merged, CleanMerge, Recounted, Landing;
      if pending == [] {
        return false;
      }
      TablesGrow(fds, cages, pipes.Keys, sockets.Keys, cage);
      cages := cages + {cage};
      SnapshotRefers(|pending| - 1);
      MergeTable(cage, pending[|pending| - 1].table);
      return true;
    }

    /** Look a descriptor up, waiting for an inherited table if need be. */
    method Lookup(cage: nat, fd: nat) returns (e: Option<Entry>)
      requires Valid() && CleanLookup(fds, pending, flight, sockets, cage, fd)
      modifies this`cages, this`fds, this`held, this`flight
      ensures Valid() && fds == Looked(old(fds), pending, cage, fd)
      ensures cages == if Live(cage, fd) in old(fds) || pending == [] then old(cages) else old(cages) + {cage}
      ensures e == if Live(cage, fd) in fds then Some(fds[Live(cage, fd)]) else None
      ensures cage !in cages ==> pending == [] && cage !in old(cages) && e.None?
      ensures Live(cage, fd) in old(fds) ==> cage in old(cages)
      ensures Now() == LookedState(old(Now()), pending, cage, fd)
      ensures e.None? && cage in cages ==> cage in old(cages) || pending != []
      ensures flight == LookedFlight(old(fds), old(flight), pending, cage, fd)
    {
      hide TablesOk, FlightOk, PipesOk, NumbersOk, SocketsOk, OwnersOk, WiredOk, HalfWiredOk, QueuesOk, LineOk;
      hide OrderOk, Agree, Ends, Refers, Merged, CleanMerge, Recounted, Landing;
      if Live(cage, fd) in fds {
        EntryAt(Live(cage, fd));
      }
      if cage !in cages {
        var found := Install(cage);
        if !found {
          return None;
        }
      }
      if Live(cage, fd) in fds {
        return Some(fds[Live(cage, fd)]);
      }
      if pending != [] {
        MergedTwice(old(fds), cage, pending[|pending| - 1].table);
        LandedTwice(old(fds), flight, cage, pending[|pending| - 1].table);
        MergedIsClean(old(fds), flight, sockets, cage, pending[|pending| - 1].table);
      }
      var _ := Install(cage);
      return if Live(cage, fd) in fds then Some(fds[Live(cage, fd)]) else None;
    }

    /** Keep descriptors 0, 1 and 2 away from pipe() and socket(). */
    method ReserveStdio(cage: nat)
      requires Valid() && cage in cages
      modifies this`fds, this`held
      ensures Valid() && fds == Merged(old(fds), cage, Stdio(3))
    {
      hide TablesOk, FlightOk, PipesOk, NumbersOk, SocketsOk, OwnersOk, WiredOk, HalfWiredOk, QueuesOk, LineOk;
      hide OrderOk, Agree, Ends, Refers, Merged, CleanMerge, Recounted, Stdio;
      MergedNothing(fds, cage);
      StdioStep(0);
      for fd := 0 to 3
        invariant Valid() && fds == Merged(old(fds), cage, Stdio(fd))
      {
        StdioStep(fd);
        MergedMiss(old(fds), map[], cage, Stdio(fd), fd);
        MergedOne(old(fds), cage, Stdio(fd), fd, Entry(Kernel, fd, false, 0));
        if Live(cage, fd) !in fds {
          PutKernel(Live(cage, fd), fd, false, 0);
        }
      }
    }

    method EnsureCage(cage: nat)
      requires Valid() && CleanEnsure(fds, cages, pending, flight, sockets, cage)
      modifies this`cages, this`fds, this`held, this`flight
      ensures Valid() && cages == old(cages) + {cage} && fds == Ensured(old(fds), old(cages), pending, cage)
      ensures flight == EnsuredFlight(old(fds), old(flight), old(cages), pending, cage)
    {
      hide TablesOk, FlightOk, PipesOk, NumbersOk, SocketsOk, OwnersOk, WiredOk, HalfWiredOk, QueuesOk, LineOk;
      hide OrderOk, Agree, Ends, Refers, Merged, CleanMerge, Recounted, Landing, Stdio;
      if cage !in cages {
        var found := Install(cage);
        if !found {
          TablesGrow(fds, cages, pipes.Keys, sockets.Keys, cage);
          cages := cages + {cage};
          ReserveStdio(cage);
        }
      }
    }

    // ------------------------------------------------------------------
    // Descriptor system calls. `forwarded` is the runtime's answer where the call is passed on.
    // ------------------------------------------------------------------

    /** A fresh descriptor for one the runtime has just opened. */
    method RegisterKernel(cage: nat, underfd: nat, cloexec: bool, flags: bv32, from: nat) returns (r: nat)
      requires Valid() && CleanEnsure(fds, cages, pending, flight, sockets, cage)
      modifies this`cages, this`fds, this`held, this`flight
      ensures Valid() && cages == old(cages) + {cage} && r >= from
      ensures var base := Ensured(old(fds), old(cages), pending, cage);
              LowestFree(base, cage, from, r) && fds == base[Live(cage, r) := Entry(Kernel, underfd, cloexec, flags)]
      ensures flight == EnsuredFlight(old(fds), old(flight), old(cages), pending, cage)
    {
      hide TablesOk, FlightOk, PipesOk, NumbersOk, SocketsOk, OwnersOk, WiredOk, HalfWiredOk, QueuesOk, LineOk;
      hide OrderOk, Agree, Ends, Refers, Merged, CleanMerge, Recounted, Stdio;
      EnsureCage(cage);
      r := UnusedFd(cage, from);
      PutKernel(Live(cage, r), underfd, cloexec, flags);
    }

    /** open() */
    method Open(cage: nat, cloexec: bool, flags: bv32, forwarded: int) returns (r: int)
      requires Valid() && CleanEnsure(fds, cages, pending, flight, sockets, cage)
      modifies this`cages, this`fds, this`held, this`flight
      ensures Valid()
      ensures OpenEffect(old(Now()), Ensured(old(fds), old(cages), pending, cage), Now(), cage, cloexec, flags,
                         forwarded, r)
      ensures flight == if forwarded < 0 then old(flight)
                        else EnsuredFlight(old(fds), old(flight), old(cages), pending, cage)
    {
      hide TablesOk, FlightOk, PipesOk, NumbersOk, SocketsOk, OwnersOk, WiredOk, HalfWiredOk, QueuesOk, LineOk;
      hide OrderOk, Agree, Ends, Refers, Merged, CleanMerge, Recounted, Stdio;
      if forwarded < 0 {
        return forwarded;
      }
      r := RegisterKernel(cage, forwarded, cloexec, flags, 0);
    }

    /**
     dup(), and fcntl(F_DUPFD) with a lower bound: the new descriptor names the same thing and takes
     its own references.
     */
    method DupFrom(cage: nat, fd: nat, from: nat, cloexec: bool, forwarded: int) returns (r: int)
      requires Valid() && CleanLookup(fds, pending, flight, sockets, cage, fd)
      modifies this`cages, this`fds, this`pipes, this`held, this`flight
      ensures Valid() && DupEffect(LookedState(old(Now()), pending, cage, fd), Now(), cage, fd, from, cloexec,
                                   forwarded, r)
      ensures flight == LookedFlight(old(fds), old(flight), pending, cage, fd)
    {
      hide TablesOk, FlightOk, PipesOk, NumbersOk, SocketsOk, OwnersOk, WiredOk, HalfWiredOk, QueuesOk, LineOk;
      hide OrderOk, Agree, Ends, Refers, Merged, CleanMerge, DupEffect, LookedFlight;
      var _ := Lookup(cage, fd);
      r := DupSeen(cage, fd, from, cloexec, forwarded);
    }

    /** dup() after its lookup. */
    method DupSeen(cage: nat, fd: nat, from: nat, cloexec: bool, forwarded: int) returns (r: int)
      requires Valid() && (cage in cages || pending == [])
      modifies this`cages, this`fds, this`pipes, this`held, this`flight
      ensures Valid() && flight == old(flight) && DupEffect(old(Now()), Now(), cage, fd, from, cloexec, forwarded, r)
    {
      hide TablesOk, FlightOk, PipesOk, NumbersOk, SocketsOk, OwnersOk, WiredOk, HalfWiredOk, QueuesOk, LineOk;
      hide OrderOk, Agree, Ends, Refers, Merged, CleanMerge, Recounted, Stdio, LowestFree;
      RecountedRefl(pipes);
      var s := Live(cage, fd);
      if s in fds {
        EntryAt(s);
      }
      if Ours(fds, s) {
        r := UnusedFd(cage, from);
        FreeSlot(fds, cage, from, r);
        CopySlot(s, Live(cage, r), cloexec);
        return;
      }
      if s !in fds && cage in cages {
        return EBADF;
      }
      if forwarded < 0 {
        return forwarded;
      }
      r := RegisterKernel(cage, forwarded, cloexec, 0, from);
    }

    /** Make room at a slot: what was there is closed. */
    method Vacate(s: Slot)
      requires Valid()
      modifies this`fds, this`pipes, this`held
      ensures Valid() && fds == old(fds) - {s}
      ensures pipes.Keys == old(pipes).Keys && Recounted(old(pipes), pipes)
    {
      hide TablesOk, FlightOk, PipesOk, NumbersOk, SocketsOk, OwnersOk, WiredOk, HalfWiredOk, QueuesOk, LineOk;
      hide OrderOk, Agree, Ends, Refers, Merged, CleanMerge, Recounted;
      if s in fds {
        CloseSlot(s);
      } else {
        RecountedRefl(pipes);
      }
    }

    /** Overwrite `t` with a copy of `s`: close the old entry, install the new one, then count it. */
    method Redirect(s: Slot, t: Slot)
      requires Valid() && s in fds && t.Live? && t.cage == s.cage && s != t
      modifies this`fds, this`pipes, this`held
      ensures Valid() && fds == old(fds)[t := old(fds)[s].(cloexec := false)]
      ensures pipes.Keys == old(pipes).Keys && Recounted(old(pipes), pipes)
    {
      hide TablesOk, FlightOk, PipesOk, NumbersOk, SocketsOk, OwnersOk, WiredOk, HalfWiredOk, QueuesOk, LineOk;
      hide OrderOk, Agree, Ends, Refers, Merged, CleanMerge, Recounted;
      EntryAt(s);
      Vacate(t);
      ghost var mid := pipes;
      CopySlot(s, t, false);
      RecountedTrans(old(pipes), mid, pipes);
    }

    method RedirectKernel(t: Slot, underfd: nat)
      requires Valid() && t.Live? && t.cage in cages
      modifies this`fds, this`pipes, this`held
      ensures Valid() && fds == old(fds)[t := Entry(Kernel, underfd, false, 0)]
      ensures pipes.Keys == old(pipes).Keys && Recounted(old(pipes), pipes)
    {
      hide TablesOk, FlightOk, PipesOk, NumbersOk, SocketsOk, OwnersOk, WiredOk, HalfWiredOk, QueuesOk, LineOk;
      hide OrderOk, Agree, Ends, Refers, Merged, CleanMerge, Recounted;
      Vacate(t);
      PutKernel(t, underfd, false, 0);
    }

    /** dup2(): the target is closed before the copy is counted, also when both name the same pipe. */
    method Dup2(cage: nat, oldfd: nat, newfd: nat, forwarded: int) returns (r: int)
      requires Valid() && CleanLookup(fds, pending, flight, sockets, cage, oldfd)
      modifies this`cages, this`fds, this`pipes, this`held, this`flight
      ensures Valid()
      ensures Dup2Effect(if oldfd == newfd then old(Now()) else LookedState(old(Now()), pending, cage, oldfd), Now(),
                         cage, oldfd, newfd, forwarded, r)
      ensures flight == if oldfd == newfd then old(flight)
                        else LookedFlight(old(fds), old(flight), pending, cage, oldfd)
    {
      hide TablesOk, FlightOk, PipesOk, NumbersOk, SocketsOk, OwnersOk, WiredOk, HalfWiredOk, QueuesOk, LineOk;
      hide OrderOk, Agree, Ends, Refers, Merged, CleanMerge, Dup2Effect, LookedFlight;
      if oldfd == newfd {
        KeptFd(Now(), cage, newfd, forwarded);
        return newfd;
      }
      var _ := Lookup(cage, oldfd);
      r := Dup2Seen(cage, oldfd, newfd, forwarded);
    }

    /** dup2() of two different descriptors after its lookup. */
    method Dup2Seen(cage: nat, oldfd: nat, newfd: nat, forwarded: int) returns (r: int)
      requires Valid() && (cage in cages || pending == []) && oldfd != newfd
      modifies this`cages, this`fds, this`pipes, this`held, this`flight
      ensures Valid() && flight == old(flight) && Dup2Effect(old(Now()), Now(), cage, oldfd, newfd, forwarded, r)
    {
      hide TablesOk, FlightOk, PipesOk, NumbersOk, SocketsOk, OwnersOk, WiredOk, HalfWiredOk, QueuesOk, LineOk;
      hide OrderOk, Agree, Ends, Refers, Merged, CleanMerge, Recounted, Stdio;
      RecountedRefl(pipes);
      var s, t := Live(cage, oldfd), Live(cage, newfd);
      if s in fds {
        EntryAt(s);
      }
      if Ours(fds, s) {
        Redirect(s, t);
        return newfd;
      }
      if s !in fds && cage in cages {
        return EBADF;
      }
      if forwarded < 0 {
        return forwarded;
      }
      EnsureCage(cage);
      RedirectKernel(t, forwarded);
      return newfd;
    }

    /** fcntl(F_SETFL) */
    method SetStatus(cage: nat, fd: nat, arg: bv32, forwarded: int) returns (r: int)
      requires Valid() && CleanLookup(fds, pending, flight, sockets, cage, fd)
      modifies this`cages, this`fds, this`held, this`flight
      ensures Valid() && flight == LookedFlight(old(fds), old(flight), pending, cage, fd)
      ensures SetStatusEffect(LookedState(old(Now()), pending, cage, fd), Now(), cage, fd, arg, forwarded, r)
    {
      hide TablesOk, FlightOk, PipesOk, NumbersOk, SocketsOk, OwnersOk, WiredOk, HalfWiredOk, QueuesOk, LineOk;
      hide OrderOk, Agree, Ends, Refers, Merged, CleanMerge, Recounted, SetStatusFlags, IsReadEnd, LookedFlight;
      var e := Lookup(cage, fd);
      if e.Some? && !e.value.kind.Kernel? {
        SetStatusFlagsKeepsEnd(e.value.flags, arg);
        Rewrite(Live(cage, fd), e.value.(flags := SetStatusFlags(e.value.flags, arg)));
        return 0;
      }
      return if e.None? && cage in cages then EBADF else forwarded;
    }

    /** fcntl(F_SETFD) */
    method SetCloexec(cage: nat, fd: nat, on: bool, forwarded: int) returns (r: int)
      requires Valid() && CleanLookup(fds, pending, flight, sockets, cage, fd)
      modifies this`cages, this`fds, this`held, this`flight
      ensures Valid() && flight == LookedFlight(old(fds), old(flight), pending, cage, fd)
      ensures SetCloexecEffect(LookedState(old(Now()), pending, cage, fd), Now(), cage, fd, on, forwarded, r)
    {
      hide TablesOk, FlightOk, PipesOk, NumbersOk, SocketsOk, OwnersOk, WiredOk, HalfWiredOk, QueuesOk, LineOk;
      hide OrderOk, Agree, Ends, Refers, Merged, CleanMerge, Recounted, LookedFlight;
      var e := Lookup(cage, fd);
      if e.Some? && !e.value.kind.Kernel? {
        Rewrite(Live(cage, fd), e.value.(cloexec := on));
        return 0;
      }
      return if e.None? && cage in cages then EBADF else forwarded;
    }

    /** Change an entry without changing what it stands for. */
    method Rewrite(s: Slot, e: Entry)
      requires Valid() && s in fds
      requires e.kind == fds[s].kind && e.underfd == fds[s].underfd && IsReadEnd(e.flags) == IsReadEnd(fds[s].flags)
      modifies this`fds
      ensures Valid() && fds == old(fds)[s := e]
    {
      hide TablesOk, FlightOk, PipesOk, NumbersOk, SocketsOk, OwnersOk, WiredOk, HalfWiredOk, QueuesOk, LineOk;
      hide OrderOk, Agree, Ends, Refers, Merged, CleanMerge, Recounted;
      EntryAt(s);
      SameEnds(sockets, pipes.Keys, fds[s], e);
      OwnersRewrite(held, fds, sockets, flight, line, s, e);
      TablesAdd(fds, cages, pipes.Keys, sockets.Keys, s, e);
      fds := fds[s := e];
    }

    /** close() */
    method Close(cage: nat, fd: nat, forwarded: int) returns (r: int)
      requires Valid() && CleanLookup(fds, pending, flight, sockets, cage, fd)
      modifies this`cages, this`fds, this`pipes, this`held, this`flight
      ensures Valid() && flight == LookedFlight(old(fds), old(flight), pending, cage, fd)
      ensures CloseEffect(LookedState(old(Now()), pending, cage, fd), Now(), cage, fd, forwarded, r)
    {
      hide TablesOk, FlightOk, PipesOk, NumbersOk, SocketsOk, OwnersOk, WiredOk, HalfWiredOk, QueuesOk, LineOk;
      hide OrderOk, Agree, Ends, Refers, Merged, CleanMerge, Recounted, Looked, LookedFlight;
      var e := Lookup(cage, fd);
      Vacate(Live(cage, fd));
      return if e.Some? && !e.value.kind.Kernel? then 0 else forwarded;
    }

    /** Close every entry of `doomed`; each one fires its close handler. */
    method CloseAll(doomed: set<Slot>)
      requires Valid() && doomed <= fds.Keys
      modifies this`fds, this`pipes, this`held
      ensures Valid() && fds == old(fds) - doomed
      ensures pipes.Keys == old(pipes).Keys && Recounted(old(pipes), pipes)
    {
      hide TablesOk, FlightOk, PipesOk, NumbersOk, SocketsOk, OwnersOk, WiredOk, HalfWiredOk, QueuesOk, LineOk;
      hide OrderOk, Agree, Ends, Refers, Merged, CleanMerge, Recounted;
      var todo := doomed;
      RecountedRefl(pipes);
      while todo != {}
        invariant todo <= doomed && todo <= fds.Keys && Valid() && fds == old(fds) - (doomed - todo)
        invariant pipes.Keys == old(pipes).Keys && Recounted(old(pipes), pipes)
      {
        var s :| s in todo;
        ghost var mid := pipes;
        CloseSlot(s);
        RecountedTrans(old(pipes), mid, pipes);
        todo := todo - {s};
      }
    }

    /** exit(): the cage's table goes, and with it every reference it held. */
    method Exit(cage: nat)
      requires Valid()
      modifies this`cages, this`fds, this`pipes, this`held
      ensures Valid() && cages == old(cages) - {cage}
      ensures fds == old(fds) - SlotsOf(old(fds), cage) && ExitView(old(fds), fds, cage)
      ensures pipes.Keys == old(pipes).Keys && Recounted(old(pipes), pipes)
    {
      hide TablesOk, FlightOk, PipesOk, NumbersOk, SocketsOk, OwnersOk, WiredOk, HalfWiredOk, QueuesOk, LineOk;
      hide OrderOk, Agree, Ends, Refers, Merged, CleanMerge, Recounted;
      ExitViews(fds, cage);
      CloseAll(SlotsOf(fds, cage));
      TablesLeave(fds, cages, pipes.Keys, sockets.Keys, cage);
      cages := cages - {cage};
    }

    /** exec(): close-on-exec descriptors go, and 0, 1, 2 are reserved unless something is there. */
    method Exec(cage: nat)
      requires Valid() && CleanEnsure(fds, cages, pending, flight, sockets, cage)
      modifies this`cages, this`fds, this`pipes, this`held, this`flight
      ensures Valid() && pipes.Keys == old(pipes).Keys && Recounted(old(pipes), pipes)
      ensures pending == [] ==> flight == old(flight) && cages == old(cages)
      ensures cage !in old(cages) && pending == [] ==> fds == old(fds)
      ensures cage in old(cages) || pending != [] ==>
                var base := Ensured(old(fds), old(cages), pending, cage);
                fds == Merged(base - CloexecOf(base, cage), cage, Stdio(3)) && ExecView(base, fds, cage)
      ensures cage in old(cages) ==> ExecView(old(fds), fds, cage)
    {
      hide TablesOk, FlightOk, PipesOk, NumbersOk, SocketsOk, OwnersOk, WiredOk, HalfWiredOk, QueuesOk, LineOk;
      hide OrderOk, Agree, Ends, Refers, Merged, CleanMerge, Recounted, Landing, Stdio, CloexecOf;
      hide ExecView;
      RecountedRefl(pipes);
      if cage !in cages {
        var found := Install(cage);
        if !found {
          return;
        }
      }
      CloexecOfIn(fds, cage);
      ExecViews(fds, cage);
      CloseAll(CloexecOf(fds, cage));
      ReserveStdio(cage);
    }

    // ------------------------------------------------------------------
    // clone(): snapshot and pre-count, then lazy install or copy
    // ------------------------------------------------------------------

    /** Count one inherited entry before the child exists. */
    method TakeOff(parent: nat, fd: nat)
      requires Valid() && Live(parent, fd) in fds && fd !in flight
      modifies this`flight, this`pipes, this`held
      ensures Valid() && flight == old(flight)[fd := fds[Live(parent, fd)]]
      ensures Recounted(old(pipes), pipes)
    {
      hide TablesOk, FlightOk, PipesOk, NumbersOk, SocketsOk, OwnersOk, WiredOk, HalfWiredOk, QueuesOk, LineOk;
      hide OrderOk, Agree, Ends, Refers, Merged, CleanMerge, Recounted, Bumped;
      var s := Live(parent, fd);
      EntryAt(s);
      OwnersRemove(held, fds, sockets, flight, line, s);
      OwnersTakeOff(held, fds, sockets, flight, line, fd, fds[s]);
      FlightGrows(flight, pending, pipes.Keys, sockets.Keys, fd, fds[s]);
      BumpKeepsAgree(held, s, InFlight(fd), pipes);
      BumpedRecounted(pipes, held[s]);
      AddRefs(fds[s]);
      held := held[InFlight(fd) := held[s]];
      flight := flight[fd := fds[s]];
    }

    /** Give one inherited entry's references back. */
    method Abort(fd: nat, e: Entry)
      requires Valid() && fd in flight && flight[fd] == e
      modifies this`flight, this`pipes, this`held
      ensures Valid() && flight == old(flight) - {fd}
      ensures Recounted(old(pipes), pipes)
    {
      hide TablesOk, FlightOk, PipesOk, NumbersOk, SocketsOk, OwnersOk, WiredOk, HalfWiredOk, QueuesOk, LineOk;
      hide OrderOk, Agree, Ends, Refers, Merged, CleanMerge, Recounted, Dropped, Droppable;
      FlightEntry(flight, pending, pipes.Keys, sockets.Keys, fd);
      OwnersAbort(held, fds, sockets, flight, line, fd);
      FlightShrinks(flight, pending, pipes.Keys, sockets.Keys, fd);
      DropKeepsAgree(held, InFlight(fd), pipes);
      DroppedRecounted(pipes, held[InFlight(fd)]);
      DropRefs(e);
      held := held - {InFlight(fd)};
      flight := flight - {fd};
    }

    /** Before clone() goes to the runtime: publish the parent's table and count every end in it once more. */
    method CloneBegin(parent: nat)
      requires Valid() && parent in cages && pending == [] && flight == map[]
      modifies this`pending, this`flight, this`pipes, this`held
      ensures Valid() && flight == TableOf(fds, parent) && pending == [Snapshot(parent, TableOf(fds, parent))]
      ensures Recounted(old(pipes), pipes)
    {
      hide TablesOk, FlightOk, PipesOk, NumbersOk, SocketsOk, OwnersOk, WiredOk, HalfWiredOk, QueuesOk, LineOk;
      hide OrderOk, Agree, Ends, Refers, Merged, CleanMerge, Recounted, TableOf, Rest;
      var table := TableOf(fds, parent);
      TableRefers(parent);
      FlightSnapshot(flight, pipes.Keys, sockets.Keys, Snapshot(parent, table), pending);
      pending := [Snapshot(parent, table)];
      RecountedRefl(pipes);
      RestEnds(table);
      var todo := table.Keys;
      while todo != {}
        invariant todo <= table.Keys && Valid() && flight == Rest(table, todo) && pending == [Snapshot(parent, table)]
        invariant Recounted(old(pipes), pipes)
      {
        var fd :| fd in todo;
        TableOfAt(fds, parent, fd);
        RestStep(table, todo, fd);
        ghost var mid := pipes;
        TakeOff(parent, fd);
        RecountedTrans(old(pipes), mid, pipes);
        todo := todo - {fd};
      }
    }

    /** clone() failed: nobody was created, so the counts taken for the child go back. */
    method CloneFailed(parent: nat)
      requires Valid() && |pending| == 1 && pending[0].parent == parent && flight == pending[0].table
      modifies this`pending, this`flight, this`pipes, this`held
      ensures Valid() && flight == map[] && pending == []
      ensures Recounted(old(pipes), pipes)
    {
      hide TablesOk, FlightOk, PipesOk, NumbersOk, SocketsOk, OwnersOk, WiredOk, HalfWiredOk, QueuesOk, LineOk;
      hide OrderOk, Agree, Ends, Refers, Merged, CleanMerge, Recounted, Rest;
      var table := pending[0].table;
      RecountedRefl(pipes);
      var todo := table.Keys;
      RestrictAll(table);
      while todo != {}
        invariant todo <= table.Keys && Valid() && flight == Restrict(table, todo) && pending == old(pending)
        invariant Recounted(old(pipes), pipes)
      {
        var fd :| fd in todo;
        RestrictStep(table, todo, fd);
        ghost var mid := pipes;
        Abort(fd, table[fd]);
        RecountedTrans(old(pipes), mid, pipes);
        todo := todo - {fd};
      }
      SnapshotRefers(0);
      FlightSnapshot(flight, pipes.Keys, sockets.Keys, pending[0], pending);
      pending := [];
    }

    /** A clone that fails leaves every count and every EOF latch as it was. */
    method FailedClone(parent: nat)
      requires Valid() && parent in cages && pending == [] && flight == map[]
      modifies this`pending, this`flight, this`pipes, this`held
      ensures Valid() && pipes == old(pipes) && held == old(held) && pending == [] && flight == map[]
    {
      hide TablesOk, FlightOk, PipesOk, NumbersOk, SocketsOk, OwnersOk, WiredOk, HalfWiredOk, QueuesOk, LineOk;
      hide OrderOk, Agree, Ends, Refers, Merged, CleanMerge, Recounted, TableOf;
      CloneBegin(parent);
      ghost var mid := pipes;
      CloneFailed(parent);
      RecountedTrans(old(pipes), mid, pipes);
      OwnersDetermined(old(held), held, fds, sockets, flight, line);
      AgreeDetermines(held, old(pipes), pipes);
    }

    /**
     clone() returned `child`. A child that already has a table keeps it, and unless it is a
     vfork child gets the snapshot's entries at the descriptors it lacks; a child without one
     gets a copy of the parent's. The counts stay right exactly when every entry so installed
     was counted at the beginning or stands for no pipe end; in particular when the child has
     closed nothing and the parent's table is still the snapshot.
     */
    method CloneReturned(parent: nat, child: nat, vfork: bool)
      requires Valid() && |pending| == 1 && pending[0].parent == parent
      modifies this`cages, this`pending, this`fds, this`flight, this`held
      ensures Shape() && pending == [] && cages == old(cages) + {child}
      ensures var table := if child in old(cages) then old(pending)[0].table else TableOf(old(fds), parent);
              if child in old(cages) && vfork then
                Valid() && fds == old(fds) && flight == old(flight)
              else
                && fds == Merged(old(fds), child, table)
                && flight == old(flight) - Landing(old(fds), old(flight), child, table)
                && (Agree(held, pipes) <==> CleanMerge(old(fds), old(flight), sockets, child, table))
    {
      hide TablesOk, FlightOk, PipesOk, NumbersOk, SocketsOk, OwnersOk, WiredOk, HalfWiredOk, QueuesOk, LineOk;
      hide OrderOk, Agree, Ends, Refers, Merged, CleanMerge, Recounted, Landing, TableOf;
      var table := pending[0].table;
      SnapshotRefers(0);
      FlightSnapshot(flight, pipes.Keys, sockets.Keys, pending[0], pending);
      pending := [];
      if child in cages {
        if !vfork {
          MergeTable(child, table);
        }
      } else {
        TableRefers(parent);
        TablesGrow(fds, cages, pipes.Keys, sockets.Keys, child);
        var copy := TableOf(fds, parent);
        cages := cages + {child};
        MergeTable(child, copy);
      }
    }

    /** clone() as one step: the child starts with a copy of the parent's table, counted once. */
    method Clone(parent: nat, child: nat)
      requires Valid() && parent in cages && child !in cages && pending == [] && flight == map[]
      modifies this`cages, this`pending, this`fds, this`flight, this`pipes, this`held
      ensures Valid() && pending == [] && flight == map[] && cages == old(cages) + {child}
      ensures fds == Merged(old(fds), child, TableOf(old(fds), parent))
      ensures TableOf(fds, child) == TableOf(old(fds), parent) && CloneView(old(fds), fds, parent, child)
      ensures Recounted(old(pipes), pipes)
    {
      hide TablesOk, FlightOk, PipesOk, NumbersOk, SocketsOk, OwnersOk, WiredOk, HalfWiredOk, QueuesOk, LineOk;
      hide OrderOk, Agree, Ends, Refers, Merged, CleanMerge, Recounted, Landing, TableOf;
      NoSlots(fds, cages, pipes.Keys, sockets.Keys, child);
      CloneBegin(parent);
      SnapshotIsClean(fds, flight, sockets, child);
      CloneViews(fds, parent, child);
      CloneReturned(parent, child, false);
      ForkConfluent(old(fds), parent, child, fds);
    }

    /** A clone is in flight: either the child has not been seen, or it has the snapshot and all its references. */
    ghost predicate ChildRunning(fds0: map<Slot, Entry>, parent: nat, child: nat, touched: set<nat>)
      reads this
    {
      && Valid() && pending == [Snapshot(parent, TableOf(fds0, parent))]
      && if child in cages then flight == map[] && ChildView(fds0, fds, parent, child, touched)
         else flight == TableOf(fds0, parent) && fds == fds0 && touched == {}
    }

    method ChildOpens(parent: nat, child: nat, cloexec: bool, flags: bv32, forwarded: int,
                      ghost fds0: map<Slot, Entry>, ghost touched: set<nat>)
      returns (ghost touched': set<nat>, r: int)
      requires ChildRunning(fds0, parent, child, touched) && forall fd :: Live(child, fd) !in fds0
      modifies this`cages, this`fds, this`pipes, this`held, this`flight
      ensures ChildRunning(fds0, parent, child, touched') && touched <= touched'
      ensures forall k :: k in touched' && k !in touched ==> Live(parent, k) !in fds0
      ensures ChildEffect(ChildOpen(cloexec, flags, forwarded), old(Now()), pending, child, Now(), Code(r))
      ensures cages <= old(cages) + {child} && old(cages) <= cages && Grown(old(pipes), pipes)
    {
      hide TablesOk, FlightOk, PipesOk, NumbersOk, SocketsOk, OwnersOk, WiredOk, HalfWiredOk, QueuesOk, LineOk;
      hide OrderOk, Agree, TableOf, ChildView, Ensured, EnsuredFlight, CleanEnsure, Recounted, Grown, OpenTable;
      RecountedRefl(pipes);
      touched' := touched;
      ghost var base := Ensured(fds, cages, pending, child);
      ViewEnsured(fds0, fds, flight, sockets, cages, parent, child, touched, pending);
      r := Open(child, cloexec, flags, forwarded);
      if forwarded >= 0 {
        OpenView(fds0, old(Now()), base, Now(), parent, child, cloexec, flags, forwarded, r, touched);
        touched' := touched + {r};
      } else {
        OpenRefused(old(Now()), base, Now(), child, cloexec, flags, forwarded, r);
      }
      RecountedGrown(old(pipes), pipes);
    }

    method ChildDups(parent: nat, child: nat, fd: nat, from: nat, cloexec: bool, forwarded: int,
                     ghost fds0: map<Slot, Entry>, ghost touched: set<nat>)
      returns (ghost touched': set<nat>, r: int)
      requires ChildRunning(fds0, parent, child, touched) && forall fd :: Live(child, fd) !in fds0
      modifies this`cages, this`fds, this`pipes, this`held, this`flight
      ensures ChildRunning(fds0, parent, child, touched') && touched <= touched'
      ensures forall k :: k in touched' && k !in touched ==> Live(parent, k) !in fds0
      ensures ChildEffect(ChildDup(fd, from, cloexec, forwarded), old(Now()), pending, child, Now(), Code(r))
      ensures cages <= old(cages) + {child} && old(cages) <= cages && Grown(old(pipes), pipes)
    {
      hide TablesOk, FlightOk, PipesOk, NumbersOk, SocketsOk, OwnersOk, WiredOk, HalfWiredOk, QueuesOk, LineOk;
      hide OrderOk, Agree, TableOf, ChildView, Looked, LookedFlight, CleanLookup, Recounted, Grown, DupEffect;
      touched' := touched;
      ViewLooked(fds0, fds, flight, sockets, cages, parent, child, touched, pending, fd);
      ghost var seen := LookedState(Now(), pending, child, fd);
      r := DupFrom(child, fd, from, cloexec, forwarded);
      DupView(fds0, seen, Now(), parent, child, fd, from, cloexec, forwarded, r, touched);
      if r >= 0 {
        touched' := touched + {r};
      }
      RecountedGrown(old(pipes), pipes);
    }

    method ChildRedirects(parent: nat, child: nat, oldfd: nat, newfd: nat, forwarded: int,
                          ghost fds0: map<Slot, Entry>, ghost touched: set<nat>)
      returns (ghost touched': set<nat>, r: int)
      requires ChildRunning(fds0, parent, child, touched) && forall fd :: Live(child, fd) !in fds0
      modifies this`cages, this`fds, this`pipes, this`held, this`flight
      ensures ChildRunning(fds0, parent, child, touched') && touched <= touched'
      ensures touched' <= touched + {newfd}
      ensures ChildEffect(ChildDup2(oldfd, newfd, forwarded), old(Now()), pending, child, Now(), Code(r))
      ensures cages <= old(cages) + {child} && old(cages) <= cages && Grown(old(pipes), pipes)
    {
      hide TablesOk, FlightOk, PipesOk, NumbersOk, SocketsOk, OwnersOk, WiredOk, HalfWiredOk, QueuesOk, LineOk;
      hide OrderOk, Agree, TableOf, ChildView, Looked, LookedFlight, CleanLookup, Recounted, Grown, Dup2Effect;
      touched' := touched;
      RecountedRefl(pipes);
      ViewLooked(fds0, fds, flight, sockets, cages, parent, child, touched, pending, oldfd);
      ghost var seen := LookedState(Now(), pending, child, oldfd);
      r := Dup2(child, oldfd, newfd, forwarded);
      if oldfd == newfd {
        Dup2Same(old(Now()), Now(), child, newfd, forwarded, r);
      } else {
        Dup2View(fds0, seen, Now(), parent, child, oldfd, newfd, forwarded, r, touched);
        if r >= 0 {
          touched' := touched + {newfd};
        }
      }
      RecountedGrown(old(pipes), pipes);
    }

    method ChildMakesPipe(parent: nat, child: nat, flags: bv32, ghost fds0: map<Slot, Entry>, ghost touched: set<nat>)
      returns (ghost touched': set<nat>, rfd: nat, wfd: nat)
      requires ChildRunning(fds0, parent, child, touched) && forall fd :: Live(child, fd) !in fds0
      modifies this`cages, this`fds, this`pipes, this`nextPipe, this`held, this`flight
      ensures ChildRunning(fds0, parent, child, touched') && touched <= touched'
      ensures forall k :: k in touched' && k !in touched ==> Live(parent, k) !in fds0
      ensures ChildEffect(ChildPipe(flags), old(Now()), pending, child, Now(), Answer(Done(0), [rfd, wfd], Nothing))
      ensures cages <= old(cages) + {child} && old(cages) <= cages && Grown(old(pipes), pipes)
    {
      hide TablesOk, FlightOk, PipesOk, SocketsOk, OwnersOk, WiredOk, HalfWiredOk, QueuesOk, LineOk;
      hide OrderOk, Agree, Ends, Refers, Merged, CleanMerge, TableOf, ChildView, Stdio, Looked, LookedFlight;
      hide Ensured, EnsuredFlight, CleanLookup, CleanEnsure, Grown, WithPipes, ReadEntry, WriteEntry, AllOnward;
      ghost var base := Ensured(fds, cages, pending, child);
      ViewEnsured(fds0, fds, flight, sockets, cages, parent, child, touched, pending);
      NewPipesGrown(pipes, {Plain(nextPipe)}, PIPE_CAPACITY);
      rfd, wfd := MakePipe(child, flags);
      ViewNew(fds0, base, parent, child, touched, rfd);
      ViewNew(fds0, base, parent, child, touched, wfd);
      ghost var once := base[Live(child, rfd) := fds[Live(child, rfd)]];
      ViewPut(fds0, base, parent, child, touched, rfd, fds[Live(child, rfd)]);
      ViewPut(fds0, once, parent, child, touched + {rfd}, wfd, fds[Live(child, wfd)]);
      touched' := touched + {rfd} + {wfd};
    }

    method ChildCall(parent: nat, child: nat, op: ChildOp, ghost fds0: map<Slot, Entry>, ghost touched: set<nat>)
      returns (ghost touched': set<nat>, a: Answer)
      requires ChildRunning(fds0, parent, child, touched) && forall fd :: Live(child, fd) !in fds0
      modifies this`cages, this`fds, this`pipes, this`nextPipe, this`held, this`flight
      ensures ChildRunning(fds0, parent, child, touched') && touched <= touched'
      ensures forall k :: k in touched' && k !in touched && Live(parent, k) in fds0 ==> op.ChildDup2? && k == op.newfd
      ensures ChildEffect(op, old(Now()), pending, child, Now(), a)
      ensures cages <= old(cages) + {child} && old(cages) <= cages && Grown(old(pipes), pipes)
    {
      hide *;
      match op {
        case ChildPipe(flags) =>
          var rfd, wfd;
          touched', rfd, wfd := ChildMakesPipe(parent, child, flags, fds0, touched);
          a := Answer(Done(0), [rfd, wfd], Nothing);
        case ChildOpen(cloexec, flags, forwarded) =>
          var r;
          touched', r := ChildOpens(parent, child, cloexec, flags, forwarded, fds0, touched);
          a := Code(r);
        case ChildDup(fd, from, cloexec, forwarded) =>
          var r;
          touched', r := ChildDups(parent, child, fd, from, cloexec, forwarded, fds0, touched);
          a := Code(r);
        case ChildDup2(oldfd, newfd, forwarded) =>
          var r;
          touched', r := ChildRedirects(parent, child, oldfd, newfd, forwarded, fds0, touched);
          a := Code(r);
      }
    }

    /** The calls of a child whose parent's clone() is in flight, one after the other. */
    method RunChild(parent: nat, child: nat, ops: seq<ChildOp>, ghost fds0: map<Slot, Entry>)
      returns (answers: seq<Answer>, ghost states: seq<State>, ghost touched: set<nat>)
      requires ChildRunning(fds0, parent, child, {}) && forall fd :: Live(child, fd) !in fds0
      modifies this`cages, this`fds, this`pipes, this`nextPipe, this`held, this`flight
      ensures ChildRunning(fds0, parent, child, touched)
      ensures forall k :: k in touched && Live(parent, k) in fds0 ==> k in Targets(ops)
      ensures cages <= old(cages) + {child} && old(cages) <= cages && Grown(old(pipes), pipes)
      ensures ChildSteps(states, ops, answers, pending, child) && states[0] == old(Now()) && states[|ops|] == Now()
    {
      hide TablesOk, FlightOk, PipesOk, NumbersOk, SocketsOk, OwnersOk, WiredOk, HalfWiredOk, QueuesOk, LineOk;
      hide OrderOk, Agree, TableOf, ChildView, ChildSteps, ChildEffect, Grown, Recounted, ChildRunning;
      RecountedRefl(pipes);
      RecountedGrown(pipes, pipes);
      touched := {};
      answers, states := [], [Now()];
      ChildStepsNone(Now(), pending, child);
      for i := 0 to |ops|
        invariant ChildRunning(fds0, parent, child, touched)
        invariant forall k :: k in touched && Live(parent, k) in fds0 ==> k in Targets(ops)
        invariant cages <= old(cages) + {child} && old(cages) <= cages && Grown(old(pipes), pipes)
        invariant |states| == i + 1 && states[0] == old(Now()) && states[i] == Now()
        invariant ChildSteps(states, ops[..i], answers, pending, child)
      {
        ghost var mid := pipes;
        var a;
        touched, a := ChildCall(parent, child, ops[i], fds0, touched);
        GrownTrans(old(pipes), mid, pipes);
        ChildStepsMore(states, ops[..i], answers, pending, child, ops[i], Now(), a);
        assert ops[..i + 1] == ops[..i] + [ops[i]];
        answers, states := answers + [a], states + [Now()];
      }
      assert ops[..|ops|] == ops;
    }

    /**
     clone() whose child runs before it returns. `states` and `answers` are what the child's
     calls went through and answered, each with its effect; whatever it made, opened,
     duplicated or redirected survives the return, it ends with every descriptor of its parent,
     each one it did not redirect as the parent had it, nobody else's table has moved, and
     every reference is counted once.
     */
    method CloneWithEarlyChild(parent: nat, child: nat, ops: seq<ChildOp>, vfork: bool)
      returns (answers: seq<Answer>, ghost states: seq<State>)
      requires AtRest() && parent in cages && child !in cages
      modifies this`cages, this`pending, this`fds, this`flight, this`pipes, this`nextPipe, this`held
      ensures AtRest() && cages == old(cages) + {child} && Grown(old(pipes), pipes)
      ensures EarlyChild(old(Now()), Now(), states, parent, child, ops, answers)
      ensures ChildView(old(fds), fds, parent, child, Targets(ops))
    {
      hide TablesOk, FlightOk, PipesOk, NumbersOk, SocketsOk, OwnersOk, WiredOk, HalfWiredOk, QueuesOk, LineOk;
      hide OrderOk, Agree, Ends, Refers, Merged, CleanMerge, Recounted, TableOf, ChildView, Landing, ChildEffect;
      hide Grown;
      NoSlots(fds, cages, pipes.Keys, sockets.Keys, child);
      CloneBegin(parent);
      ghost var mid := pipes;
      RecountedGrown(old(pipes), pipes);
      ghost var touched;
      answers, states, touched := RunChild(parent, child, ops, old(fds));
      GrownTrans(old(pipes), mid, pipes);
      ViewSeen(old(fds), fds, flight, sockets, cages, parent, child, touched);
      if child in cages {
        ViewMerges(old(fds), fds, flight, sockets, parent, child, touched);
      }
      CloneReturned(parent, child, vfork);
      ViewWider(old(fds), fds, parent, child, touched, Targets(ops));
    }

    /**
     A child that closes an inherited descriptor before its parent's clone() returns: unless it
     is a vfork child the close is undone. The counts are those of the tables without that
     descriptor, so they stay right exactly when it is gone or stood for no pipe end.
     */
    method CloneWithEarlyClose(parent: nat, child: nat, fd: nat, vfork: bool, forwarded: int)
      requires AtRest() && parent in cages && child !in cages
      modifies this`cages, this`pending, this`fds, this`flight, this`pipes, this`held
      ensures Shape() && pending == [] && flight == map[] && cages == old(cages) + {child}
      ensures Recounted(old(pipes), pipes)
      ensures var inherited := Merged(old(fds), child, TableOf(old(fds), parent));
              fds == if vfork then inherited - {Live(child, fd)} else inherited
      ensures forall r :: r in pipes ==>
                Exact(Now().(fds := Merged(old(fds), child, TableOf(old(fds), parent)) - {Live(child, fd)}), r)
      ensures Agree(held, pipes) <==>
                vfork || Live(parent, fd) !in old(fds) || Ends(sockets, old(fds)[Live(parent, fd)]) == {}
    {
      hide TablesOk, FlightOk, PipesOk, NumbersOk, SocketsOk, OwnersOk, WiredOk, HalfWiredOk, QueuesOk, LineOk;
      hide OrderOk, Agree, Ends, Refers, Merged, CleanMerge, TableOf, ChildView, Landing, CleanLookup, Recounted;
      hide Exact;
      ghost var fds0, table := fds, TableOf(fds, parent);
      NoSlots(fds, cages, pipes.Keys, sockets.Keys, child);
      CloneBegin(parent);
      ghost var mid := pipes;
      EarlyLook(fds, flight, sockets, pending, child, fd);
      var _ := Close(child, fd, forwarded);
      RecountedTrans(old(pipes), mid, pipes);
      EarlyCloseMerges(fds0, fds, sockets, parent, child, fd);
      CountsAreVisible();
      ghost var closed := Now();
      CloneReturned(parent, child, vfork);
      forall r | r in pipes ensures Exact(Now().(fds := closed.fds), r) {
        ExactSame(closed, Now().(fds := closed.fds), r);
      }
    }

    /**
     A cage that misses a descriptor while somebody else's clone() is in flight is given the
     parent's table, and the child its copy all the same. The counts stay right exactly when
     every inherited descriptor that stands for a pipe end was one the cage had already.
     */
    method CloneWithStranger(parent: nat, child: nat, stranger: nat, fd: nat) returns (e: Option<Entry>)
      requires AtRest() && parent in cages && child !in cages && stranger in cages && Live(stranger, fd) !in fds
      modifies this`cages, this`pending, this`fds, this`flight, this`pipes, this`held
      ensures Shape() && pending == [] && flight == map[] && cages == old(cages) + {child}
      ensures Recounted(old(pipes), pipes)
      ensures var table := TableOf(old(fds), parent);
              && fds == Merged(Merged(old(fds), stranger, table), child, table)
              && e == (if fd in table then Some(table[fd]) else None)
              && (Agree(held, pipes) <==>
                    forall k :: k in table && Live(stranger, k) !in old(fds) ==> Ends(sockets, table[k]) == {})
    {
      hide TablesOk, FlightOk, PipesOk, NumbersOk, SocketsOk, OwnersOk, WiredOk, HalfWiredOk, QueuesOk, LineOk;
      hide OrderOk, Agree, Ends, Refers, Merged, CleanMerge, TableOf, Landing, CleanLookup, Looked, LookedFlight;
      ghost var fds0, table := fds, TableOf(fds, parent);
      NoSlots(fds, cages, pipes.Keys, sockets.Keys, child);
      CloneBegin(parent);
      StrangerLook(fds, flight, sockets, pending, stranger, fd);
      e := Lookup(stranger, fd);
      StrangerMerges(fds0, sockets, parent, child, stranger, fd);
      CloneReturned(parent, child, false);
    }

    // ------------------------------------------------------------------
    // Pipes and sockets
    // ------------------------------------------------------------------

    /** New pipes, with two new descriptors that between them own each end of each. */
    method AdoptPair(s: Slot, e: Entry, t: Slot, f: Entry, made: set<PipeRef>, cap: nat)
      requires s.Live? && t.Live? && s != t && s !in fds && t !in fds && s.cage in cages && t.cage in cages
      requires made !! pipes.Keys
      requires TablesOk(fds, cages, pipes.Keys, sockets.Keys) && FlightOk(flight, pending, pipes.Keys, sockets.Keys)
      requires SocketsOk(sockets, pipes.Keys + made) && LineOk(line, pipes.Keys, nextConn)
      requires OwnersOk(held, fds, sockets, flight, line) && PipesOk(pipes)
      requires Agree(held, pipes) && Known(held, pipes)
      requires Refers(e, pipes.Keys + made, sockets.Keys) && Refers(f, pipes.Keys + made, sockets.Keys)
      requires SplitBetween(made, Ends(sockets, e), Ends(sockets, f))
      modifies this`fds, this`pipes, this`held
      ensures TablesOk(fds, cages, pipes.Keys, sockets.Keys) && FlightOk(flight, pending, pipes.Keys, sockets.Keys)
      ensures LineOk(line, pipes.Keys, nextConn) && OwnersOk(held, fds, sockets, flight, line) && PipesOk(pipes)
      ensures Agree(held, pipes) && AllOnward(old(pipes), pipes)
      ensures fds == old(fds)[s := e][t := f] && pipes == WithPipes(old(pipes), made, cap)
              && pipes.Keys == old(pipes).Keys + made
    {
      hide TablesOk, FlightOk, PipesOk, NumbersOk, SocketsOk, OwnersOk, WiredOk, HalfWiredOk, QueuesOk, LineOk;
      hide OrderOk, Agree, Ends, Refers, Merged, CleanMerge, AllOnward, WithPipes, SplitBetween, Known;
      WithPipesOnward(pipes, made, cap);
      Widen(fds, cages, flight, pending, sockets, line, pipes.Keys, sockets.Keys, nextConn,
            pipes.Keys + made, sockets.Keys, nextConn);
      TablesAdd(fds, cages, pipes.Keys + made, sockets.Keys, s, e);
      TablesAdd(fds[s := e], cages, pipes.Keys + made, sockets.Keys, t, f);
      OwnersAdd(held, fds, sockets, flight, line, s, e);
      OwnersAdd(held[s := Ends(sockets, e)], fds[s := e], sockets, flight, line, t, f);
      NewPipesKeepAgree(held, pipes, made, s, Ends(sockets, e), t, Ends(sockets, f), cap);
      pipes := WithPipes(pipes, made, cap);
      fds := fds[s := e][t := f];
      held := held[s := Ends(sockets, e)][t := Ends(sockets, f)];
    }

    /** pipe() and pipe2() */
    method MakePipe(cage: nat, flags: bv32) returns (rfd: nat, wfd: nat)
      requires Valid() && CleanEnsure(fds, cages, pending, flight, sockets, cage)
      modifies this`cages, this`fds, this`pipes, this`nextPipe, this`held, this`flight
      ensures Valid() && AllOnward(old(pipes), pipes)
      ensures MakePipeEffect(old(Now()), Ensured(old(fds), old(cages), pending, cage), Now(), cage, flags, rfd, wfd)
      ensures flight == EnsuredFlight(old(fds), old(flight), old(cages), pending, cage)
    {
      hide TablesOk, FlightOk, PipesOk, NumbersOk, SocketsOk, OwnersOk, WiredOk, HalfWiredOk, QueuesOk, LineOk;
      hide OrderOk, Agree, Ends, Refers, Merged, CleanMerge, AllOnward, ReadEntry, WriteEntry, WithPipes, Ensured;
      hide CleanEnsure, LowestFree, EnsuredFlight;
      EnsureCage(cage);
      rfd, wfd := AddPipe(cage, flags);
    }

    /** A new pipe for a cage that has a table. */
    method AddPipe(cage: nat, flags: bv32) returns (rfd: nat, wfd: nat)
      requires Valid() && cage in cages
      modifies this`fds, this`pipes, this`nextPipe, this`held
      ensures Valid() && AllOnward(old(pipes), pipes)
              && MakePipeEffect(old(Now()), old(fds), Now(), cage, flags, rfd, wfd)
    {
      hide TablesOk, FlightOk, PipesOk, NumbersOk, SocketsOk, OwnersOk, WiredOk, HalfWiredOk, QueuesOk, LineOk;
      hide OrderOk, Agree, Ends, Refers, Merged, CleanMerge, AllOnward, Known, ReadEntry, WriteEntry, WithPipes;
      hide SplitBetween;
      KnownHeld(held, fds, cages, sockets, flight, pending, line, pipes, nextConn);
      NumbersConn(pipes.Keys, sockets.Keys, nextPipe, nextConn, nextSocket);
      var id := nextPipe;
      nextPipe := nextPipe + 1;
      rfd := UnusedFd(cage, 0);
      wfd := UnusedFd(cage, rfd + 1);
      NewPipeEntries(sockets, pipes.Keys, id, flags);
      AdoptPair(Live(cage, rfd), ReadEntry(id, flags), Live(cage, wfd), WriteEntry(id, flags), {Plain(id)},
                PIPE_CAPACITY);
    }

    method AddSocket(s: Slot, kind: bv32)
      requires Valid() && s.Live? && s.cage in cages && s !in fds
      modifies this`fds, this`sockets, this`nextSocket, this`held
      ensures Valid() && nextSocket == old(nextSocket) + 1 && fds == old(fds)[s := SocketEntry(old(nextSocket), kind)]
      ensures sockets == old(sockets)[old(nextSocket) := FreshSocket] && old(nextSocket) !in old(sockets)
    {
      hide TablesOk, FlightOk, PipesOk, NumbersOk, SocketsOk, OwnersOk, WiredOk, HalfWiredOk, QueuesOk, LineOk;
      hide OrderOk, Agree, Ends, Refers, Merged, CleanMerge, AllOnward, Known, SocketEntry;
      NumbersConn(pipes.Keys, sockets.Keys, nextPipe, nextConn, nextSocket);
      var id := nextSocket;
      var e := SocketEntry(id, kind);
      SocketEntryNames(id, kind);
      OwnersNewSocket(held, fds, cages, sockets, flight, pending, line, pipes.Keys, id, FreshSocket);
      WiredFresh(sockets, line, pipes.Keys, nextConn, id);
      NewSocketEntry(sockets, pipes.Keys, id, e);
      Widen(fds, cages, flight, pending, sockets, line, pipes.Keys, sockets.Keys, nextConn,
            pipes.Keys, sockets.Keys + {id}, nextConn);
      nextSocket := nextSocket + 1;
      sockets := sockets[id := FreshSocket];
      OwnersAdd(held, fds, sockets, flight, line, s, e);
      TablesAdd(fds, cages, pipes.Keys, sockets.Keys, s, e);
      UncountedOwner(held, s, {}, pipes);
      fds := fds[s := e];
      held := held[s := {}];
    }

    /** socket() for a local domain; `kind` carries the close-on-exec and non-blocking bits. */
    method MakeSocket(cage: nat, kind: bv32) returns (fd: nat)
      requires Valid() && CleanEnsure(fds, cages, pending, flight, sockets, cage)
      modifies this`cages, this`fds, this`sockets, this`nextSocket, this`held, this`flight
      ensures Valid() && flight == EnsuredFlight(old(fds), old(flight), old(cages), pending, cage)
      ensures MakeSocketEffect(old(Now()), Ensured(old(fds), old(cages), pending, cage), Now(), cage, kind, fd)
    {
      hide TablesOk, FlightOk, PipesOk, NumbersOk, SocketsOk, OwnersOk, WiredOk, HalfWiredOk, QueuesOk, LineOk;
      hide OrderOk, Agree, Ends, Refers, Merged, CleanMerge, AllOnward, SocketEntry, Ensured, CleanEnsure;
      EnsureCage(cage);
      fd := UnusedFd(cage, 0);
      AddSocket(Live(cage, fd), kind);
    }

    /** Two fresh sockets, each sending what the other receives. */
    method RegisterPair(i: nat, j: nat)
      requires Valid() && nextSocket == i && j == i + 1
      modifies this`sockets, this`nextSocket
      ensures sockets == old(sockets)[i := Plugged(FreshSocket, nextConn, nextConn + 1, None)]
                                     [j := Plugged(FreshSocket, nextConn + 1, nextConn, None)]
      ensures nextSocket == old(nextSocket) + 2 && sockets.Keys == old(sockets).Keys + {i, j}
      ensures WiredOk(sockets) && HalfWiredOk(sockets, line) && SocketsOk(sockets, pipes.Keys + ConnPair(nextConn))
      ensures ConnPair(nextConn) !! pipes.Keys
      ensures OwnersOk(held, fds, sockets, flight, line)
      ensures TablesOk(fds, cages, pipes.Keys, sockets.Keys) && FlightOk(flight, pending, pipes.Keys, sockets.Keys)
      ensures NumbersOk(pipes.Keys + ConnPair(nextConn), sockets.Keys, nextPipe, nextConn + 2, nextSocket)
    {
      hide TablesOk, FlightOk, PipesOk, NumbersOk, SocketsOk, OwnersOk, WiredOk, HalfWiredOk, QueuesOk, LineOk;
      hide OrderOk, Agree, Ends, Refers, Merged, CleanMerge, AllOnward, ConnPair, Plugged;
      var n := nextConn;
      NumbersConn(pipes.Keys, sockets.Keys, nextPipe, nextConn, nextSocket);
      NumbersConn(pipes.Keys, sockets.Keys + {i}, nextPipe, nextConn, nextSocket + 1);
      NumbersConn(pipes.Keys, sockets.Keys + {i} + {j}, nextPipe, nextConn, nextSocket + 2);
      WiredPair(sockets, line, pipes.Keys, n, i, j);
      var s, t := Plugged(FreshSocket, n, n + 1, None), Plugged(FreshSocket, n + 1, n, None);
      OwnersNewSocket(held, fds, cages, sockets, flight, pending, line, pipes.Keys, i, s);
      Widen(fds, cages, flight, pending, sockets, line, pipes.Keys, sockets.Keys, nextConn,
            pipes.Keys, sockets.Keys + {i}, nextConn);
      assert sockets[i := s].Keys == sockets.Keys + {i};
      OwnersNewSocket(held, fds, cages, sockets[i := s], flight, pending, line, pipes.Keys, j, t);
      Widen(fds, cages, flight, pending, sockets, line, pipes.Keys, sockets.Keys + {i}, nextConn,
            pipes.Keys, sockets.Keys + {i} + {j}, nextConn);
      sockets := sockets[i := s][j := t];
      nextSocket := nextSocket + 2;
      assert sockets.Keys == old(sockets).Keys + {i} + {j};
    }

    method AddSocketPair(s: Slot, t: Slot, kind: bv32)
      requires Valid() && s.Live? && t.Live? && s.cage in cages && t.cage in cages && s !in fds && t !in fds && s != t
      modifies this`fds, this`sockets, this`nextSocket, this`pipes, this`nextConn, this`held
      ensures Valid() && AllOnward(old(pipes), pipes)
      ensures var i, j, n := old(nextSocket), old(nextSocket) + 1, old(nextConn);
              && nextSocket == i + 2 && nextConn == n + 2
              && pipes == WithPipes(old(pipes), ConnPair(n), UDSOCK_CAPACITY)
              && sockets == old(sockets)[i := Plugged(FreshSocket, n, n + 1, None)]
                                        [j := Plugged(FreshSocket, n + 1, n, None)]
              && fds == old(fds)[s := SocketEntry(i, kind)][t := SocketEntry(j, kind)]
    {
      hide TablesOk, FlightOk, PipesOk, NumbersOk, SocketsOk, OwnersOk, WiredOk, HalfWiredOk, QueuesOk, LineOk;
      hide OrderOk, Agree, Ends, Refers, Merged, CleanMerge, AllOnward, Known, SocketEntry, SplitBetween, WithPipes;
      hide ConnPair, Plugged;
      KnownHeld(held, fds, cages, sockets, flight, pending, line, pipes, nextConn);
      var i, j, n := nextSocket, nextSocket + 1, nextConn;
      RegisterPair(i, j);
      var e, f := SocketEntry(i, kind), SocketEntry(j, kind);
      SocketEntryNames(i, kind);
      SocketEntryNames(j, kind);
      SocketRefers(e, pipes.Keys + ConnPair(n), sockets.Keys);
      SocketRefers(f, pipes.Keys + ConnPair(n), sockets.Keys);
      NewPairEntries(sockets, n, i, j, e, f);
      AdoptPair(s, e, t, f, ConnPair(n), UDSOCK_CAPACITY);
      Widen(fds, cages, flight, pending, sockets, line, pipes.Keys, sockets.Keys, nextConn,
            pipes.Keys, sockets.Keys, nextConn + 2);
      OrderWiden(queues, nextConn, nextConn + 2);
      nextConn := nextConn + 2;
    }

    /** socketpair() */
    method SocketPair(cage: nat, kind: bv32) returns (fd1: nat, fd2: nat)
      requires Valid() && CleanEnsure(fds, cages, pending, flight, sockets, cage)
      modifies this`cages, this`fds, this`sockets, this`nextSocket, this`pipes, this`nextConn, this`held, this`flight
      ensures Valid() && AllOnward(old(pipes), pipes)
      ensures SocketPairEffect(old(Now()), Ensured(old(fds), old(cages), pending, cage), Now(), cage, kind, fd1, fd2)
      ensures flight == EnsuredFlight(old(fds), old(flight), old(cages), pending, cage)
    {
      hide TablesOk, FlightOk, PipesOk, NumbersOk, SocketsOk, OwnersOk, WiredOk, HalfWiredOk, QueuesOk, LineOk;
      hide OrderOk, Agree, Ends, Refers, Merged, CleanMerge, AllOnward, SocketEntry, Ensured, CleanEnsure, WithPipes;
      hide ConnPair, Plugged, SocketPairEffect, EnsuredFlight;
      EnsureCage(cage);
      fd1 := UnusedFd(cage, 0);
      fd2 := UnusedFd(cage, fd1 + 1);
      AddSocketPair(Live(cage, fd1), Live(cage, fd2), kind);
      SocketPairIntro(old(Now()), Ensured(old(fds), old(cages), pending, cage), Now(), cage, kind, fd1, fd2);
    }

    /** bind() to a local address. */
    method Bind(cage: nat, fd: nat, addr: string, forwarded: int) returns (r: int)
      requires Valid() && CleanLookup(fds, pending, flight, sockets, cage, fd)
      modifies this`cages, this`fds, this`sockets, this`boundPaths, this`held, this`flight
      ensures Valid() && flight == LookedFlight(old(fds), old(flight), pending, cage, fd)
      ensures BindEffect(LookedState(old(Now()), pending, cage, fd), Now(), cage, fd, addr, forwarded, r)
    {
      hide TablesOk, FlightOk, PipesOk, NumbersOk, SocketsOk, OwnersOk, WiredOk, HalfWiredOk, QueuesOk, LineOk;
      hide OrderOk, Agree, Ends, Refers, Merged, CleanMerge, AllOnward, LookedFlight;
      var e := Lookup(cage, fd);
      if e.Some? && e.value.kind.SocketFd? {
        SocketAt(Live(cage, fd));
        var id := e.value.underfd;
        Relabel(sockets, id, sockets[id].(local := Some(addr)), held, fds, flight, line, pipes.Keys);
        sockets := sockets[id := sockets[id].(local := Some(addr))];
        boundPaths := boundPaths[addr := id];
        return 0;
      }
      return if e.None? && cage in cages then EBADF else forwarded;
    }

    /** listen() */
    method Listen(cage: nat, fd: nat, forwarded: int) returns (r: int)
      requires Valid() && CleanLookup(fds, pending, flight, sockets, cage, fd)
      modifies this`cages, this`fds, this`sockets, this`held, this`flight
      ensures Valid() && flight == LookedFlight(old(fds), old(flight), pending, cage, fd)
      ensures ListenEffect(LookedState(old(Now()), pending, cage, fd), Now(), cage, fd, forwarded, r)
    {
      hide TablesOk, FlightOk, PipesOk, NumbersOk, SocketsOk, OwnersOk, WiredOk, HalfWiredOk, QueuesOk, LineOk;
      hide OrderOk, Agree, Ends, Refers, Merged, CleanMerge, AllOnward, LookedFlight;
      var e := Lookup(cage, fd);
      if e.None? || e.value.kind.Kernel? {
        return if e.None? && cage in cages then EBADF else forwarded;
      }
      if e.value.kind.PipeFd? {
        return ENOTSOCK;
      }
      SocketAt(Live(cage, fd));
      var id := e.value.underfd;
      Relabel(sockets, id, sockets[id].(state := Listening), held, fds, flight, line, pipes.Keys);
      sockets := sockets[id := sockets[id].(state := Listening)];
      return 0;
    }

    lemma SocketAt(s: Slot)
      requires TablesOk(fds, cages, pipes.Keys, sockets.Keys) && s in fds && fds[s].kind.SocketFd?
      ensures fds[s].underfd in sockets
    {
    }

    /** The assignments of a connect. */
    method RecordConnect(id: nat, sock: Socket, target: string, c: Pending, ghost owners: Holding)
      modifies this`pipes, this`nextConn, this`sockets, this`queues, this`held, this`line
      ensures pipes == WithPipes(old(pipes), ConnPair(old(nextConn)), UDSOCK_CAPACITY) && nextConn == old(nextConn) + 2
      ensures sockets == old(sockets)[id := sock] && queues == old(queues)[target := At(old(queues), target) + [c]]
      ensures held == owners && line == old(line)[old(nextConn) := target]
    {
      hide WithPipes, ConnPair, At;
      sockets := sockets[id := sock];
      queues := queues[target := At(queues, target) + [c]];
      held := owners;
      line := line[nextConn := target];
      pipes := WithPipes(pipes, ConnPair(nextConn), UDSOCK_CAPACITY);
      nextConn := nextConn + 2;
    }

    /**
     Two new pipes between socket `id` and the queue of `target`. The counts stay right
     exactly when one descriptor names the socket and it was not connected before.
     */
    method AddConnection(s: Slot, id: nat, target: string)
      requires Valid() && s in fds && fds[s].kind.SocketFd? && fds[s].underfd == id && id in sockets
      modifies this`pipes, this`nextConn, this`sockets, this`queues, this`held, this`line
      ensures Shape() && AllOnward(old(pipes), pipes)
      ensures Agree(held, pipes) <==> |Users(fds, flight, id)| == 1 && old(sockets)[id].send.None?
      ensures pipes == WithPipes(old(pipes), ConnPair(old(nextConn)), UDSOCK_CAPACITY) && nextConn == old(nextConn) + 2
      ensures Connecting(old(sockets), old(queues), id, old(nextConn), target, sockets, queues)
    {
      hide TablesOk, FlightOk, PipesOk, NumbersOk, SocketsOk, OwnersOk, WiredOk, HalfWiredOk, QueuesOk, LineOk;
      hide OrderOk, Agree, Ends, Refers, Merged, CleanMerge, AllOnward, Known, Users, ConnectorEnds, AcceptorEnds;
      hide Reclaimed, WithPipes, SocketEnds, ConnPair, Plugged, At, ShapeOf, Connecting;
      var n := nextConn;
      ConnectingIntro(sockets, queues, id, n, target);
      var c := Pending(Text(sockets[id].local), Conn(n), Conn(n + 1));
      ConnectShape(fds, cages, pipes, sockets, nextPipe, nextConn, nextSocket, pending, flight, held, queues, line,
                   id, target, c, UDSOCK_CAPACITY);
      ConnectCounts(s, id);
      RecordConnect(id, Plugged(sockets[id], n, n + 1, Some(target)), target, c,
                    Reclaimed(held, Users(fds, flight, id), ConnectorEnds(n))[Queued(n) := AcceptorEnds(n)]);
    }

    lemma ConnectCounts(s: Slot, id: nat)
      requires Valid() && s in fds && fds[s].kind.SocketFd? && fds[s].underfd == id && id in sockets
      ensures var n := nextConn;
              Agree(Reclaimed(held, Users(fds, flight, id), ConnectorEnds(n))[Queued(n) := AcceptorEnds(n)],
                    WithPipes(pipes, ConnPair(n), UDSOCK_CAPACITY))
              <==> |Users(fds, flight, id)| == 1 && sockets[id].send.None?
    {
      hide TablesOk, FlightOk, PipesOk, NumbersOk, SocketsOk, OwnersOk, WiredOk, HalfWiredOk, QueuesOk, LineOk;
      hide OrderOk, Agree, Ends, Refers, Merged, CleanMerge, AllOnward, Known, Users, ConnectorEnds, AcceptorEnds;
      hide Reclaimed, WithPipes, SocketEnds, ConnPair;
      KnownHeld(held, fds, cages, sockets, flight, pending, line, pipes, nextConn);
      NumbersConn(pipes.Keys, sockets.Keys, nextPipe, nextConn, nextSocket);
      NotQueued(held, fds, sockets, flight, line, pipes.Keys, nextConn);
      UsersClaim(held, fds, cages, pipes.Keys, sockets, flight, line, id);
      UsersHas(fds, flight, s, id);
      NoEndsIffUnconnected(sockets, pipes.Keys, id);
      ConnectAgrees(held, pipes, Users(fds, flight, id), SocketEnds(sockets[id]), nextConn, UDSOCK_CAPACITY);
    }

    /**
     connect() to a local address. Nobody but the caller's socket, the queue of the address and
     two new pipes are touched. The counts stay right exactly when one descriptor names the
     socket and it was not connected before.
     */
    method Connect(cage: nat, fd: nat, target: string, forwarded: int) returns (r: int)
      requires Valid() && CleanLookup(fds, pending, flight, sockets, cage, fd)
      modifies this`cages, this`fds, this`pipes, this`nextConn, this`sockets, this`queues, this`held, this`line,
               this`flight
      ensures Shape() && AllOnward(old(pipes), pipes)
              && flight == LookedFlight(old(fds), old(flight), pending, cage, fd)
      ensures var s, x, t := LookedState(old(Now()), pending, cage, fd), Live(cage, fd), Now();
              if !NamesSocket(s, x) then Valid() && t == s && r == Forwarded(s.fds, cage in s.cages, x, forwarded)
              else if target !in s.boundPaths then Valid() && t == s && r == ECONNREFUSED
              else
                var id := s.fds[x].underfd;
                && r == 0 && Connecting(s.sockets, s.queues, id, s.nextConn, target, t.sockets, t.queues)
                && t == s.(pipes := WithPipes(s.pipes, ConnPair(s.nextConn), UDSOCK_CAPACITY),
                           nextConn := s.nextConn + 2,
                           sockets := t.sockets, queues := t.queues)
                && (Agree(held, pipes) <==> |Users(fds, flight, id)| == 1 && s.sockets[id].send.None?)
    {
      hide TablesOk, FlightOk, PipesOk, NumbersOk, SocketsOk, OwnersOk, WiredOk, HalfWiredOk, QueuesOk, LineOk;
      hide OrderOk, Agree, Ends, Refers, Merged, CleanMerge, AllOnward, LookedFlight, Users, WithPipes, At, Plugged;
      hide ConnPair, Connecting;
      OnwardRefl(pipes);
      var e := Lookup(cage, fd);
      if !(e.Some? && e.value.kind.SocketFd?) {
        return if e.None? && cage in cages then EBADF else forwarded;
      }
      SocketAt(Live(cage, fd));
      if target !in boundPaths {
        return ECONNREFUSED;
      }
      AddConnection(Live(cage, fd), e.value.underfd, target);
      return 0;
    }

    /** The assignments of an accept, the owner of the waiting references included. */
    method RecordAccept(s: Slot, e: Entry, a: string, n: nat, sock: Socket)
      requires a in queues && queues[a] != [] && Queued(n) in held
      modifies this`fds, this`sockets, this`nextSocket, this`queues, this`held, this`line
      ensures fds == old(fds)[s := e] && sockets == old(sockets)[old(nextSocket) := sock]
              && nextSocket == old(nextSocket) + 1
      ensures queues == old(queues)[a := old(queues)[a][1..]] && line == old(line) - {n}
      ensures held == (old(held) - {Queued(n)})[s := old(held)[Queued(n)]]
    {
      queues := queues[a := queues[a][1..]];
      sockets := sockets[nextSocket := sock];
      nextSocket := nextSocket + 1;
      fds := fds[s := e];
      held := (held - {Queued(n)})[s := held[Queued(n)]];
      line := line - {n};
    }

    /** The oldest connection waiting at `a` becomes a descriptor, which takes over the two references kept for it. */
    method TakeConnection(s: Slot, a: string, kind: bv32)
      requires Valid() && s.Live? && s.cage in cages && s !in fds && a in queues && queues[a] != []
      modifies this`fds, this`sockets, this`nextSocket, this`queues, this`held, this`line
      ensures Valid() && nextSocket == old(nextSocket) + 1
      ensures TookHead(old(fds), old(sockets), old(queues), s, old(nextSocket), a, kind, fds, sockets, queues)
    {
      hide TablesOk, FlightOk, PipesOk, NumbersOk, SocketsOk, OwnersOk, WiredOk, HalfWiredOk, QueuesOk, LineOk;
      hide OrderOk, Agree, Ends, Refers, Merged, CleanMerge, AllOnward, Known, AcceptorEnds, SocketEntry, SocketEnds;
      hide ShapeOf, Plugged, TookHead;
      var c := queues[a][0];
      var n := IdOf(c.toListener);
      SocketEntryNames(nextSocket, kind);
      var e := SocketEntry(nextSocket, kind);
      AcceptShape(fds, cages, pipes, sockets, nextPipe, nextConn, nextSocket, pending, flight, held, queues, line,
                  s, e, a);
      TookHeadIntro(fds, sockets, queues, s, nextSocket, a, kind);
      RecordAccept(s, e, a, n, Plugged(FreshSocket, n + 1, n, Some(c.remote)));
    }

    /**
     accept(), one lap of its wait: the oldest connection waiting at the socket's address, or
     `Waiting` when the caller naps again.
     */
    method Accept(cage: nat, fd: nat, kind: bv32, interrupted: bool, forwarded: int) returns (o: Outcome, deed: Deed)
      requires Valid() && CleanLookup(fds, pending, flight, sockets, cage, fd)
      modifies this`cages, this`fds, this`sockets, this`nextSocket, this`queues, this`held, this`flight, this`line
      ensures Valid() && flight == LookedFlight(old(fds), old(flight), pending, cage, fd)
      ensures AcceptEffect(LookedState(old(Now()), pending, cage, fd), Now(), Answer(o, [], deed),
                           cage, fd, kind, interrupted, forwarded)
    {
      hide TablesOk, FlightOk, PipesOk, NumbersOk, SocketsOk, OwnersOk, WiredOk, HalfWiredOk, QueuesOk, LineOk;
      hide OrderOk, Agree, Ends, Refers, Merged, CleanMerge, AcceptEffect, LookedFlight;
      var _ := Lookup(cage, fd);
      o, deed := AcceptSeen(cage, fd, kind, interrupted, forwarded);
    }

    /** accept() after its lookup. */
    method AcceptSeen(cage: nat, fd: nat, kind: bv32, interrupted: bool, forwarded: int)
      returns (o: Outcome, deed: Deed)
      requires Valid() && (cage in cages || pending == [])
      modifies this`cages, this`fds, this`sockets, this`nextSocket, this`queues, this`held, this`flight, this`line
      ensures Valid() && flight == old(flight)
      ensures AcceptEffect(old(Now()), Now(), Answer(o, [], deed), cage, fd, kind, interrupted, forwarded)
    {
      hide TablesOk, FlightOk, PipesOk, NumbersOk, SocketsOk, OwnersOk, WiredOk, HalfWiredOk, QueuesOk, LineOk;
      hide OrderOk, Agree, Ends, Refers, Merged, CleanMerge, LowestFree, SocketEntry, SocketEnds, Stdio;
      hide AcceptForwarded;
      deed := Nothing;
      var x := Live(cage, fd);
      if !Ours(fds, x) {
        o := AcceptKernel(cage, fd, forwarded);
        return;
      }
      if fds[x].kind.PipeFd? {
        return Done(ENOTSOCK), Nothing;
      }
      SocketAt(x);
      EntryAt(x);
      var local := sockets[fds[x].underfd].local;
      if local.None? {
        return Done(EINVAL), Nothing;
      }
      if local.value in queues && queues[local.value] != [] {
        var newFd := UnusedFd(cage, 0);
        FreeSlot(fds, cage, 0, newFd);
        deed := Accepts(local.value, IdOf(queues[local.value][0].toListener));
        TakeConnection(Live(cage, newFd), local.value, kind);
        return Done(newFd), deed;
      }
      if fds[x].flags & O_NONBLOCK != 0 {
        return Done(EAGAIN), Nothing;
      }
      return if interrupted then Done(EINTR) else Waiting, Nothing;
    }

    /** accept() on a descriptor of the runtime, after its lookup. */
    method AcceptKernel(cage: nat, fd: nat, forwarded: int) returns (o: Outcome)
      requires Valid() && !Ours(fds, Live(cage, fd)) && (pending == [] || cage in cages)
      modifies this`cages, this`fds, this`held, this`flight
      ensures Valid() && flight == old(flight)
      ensures AcceptForwarded(old(fds), cage in old(cages), cage, fd, forwarded, o, fds)
      ensures cages == if forwarded < 0 || cage in old(cages) then old(cages) else old(cages) + {cage}
    {
      hide TablesOk, FlightOk, PipesOk, NumbersOk, SocketsOk, OwnersOk, WiredOk, HalfWiredOk, QueuesOk, LineOk;
      hide OrderOk, Agree, Ends, Refers, Merged, CleanMerge, AllOnward, LowestFree, Stdio;
      if Live(cage, fd) in fds {
        EntryAt(Live(cage, fd));
      } else if cage in cages {
        return Done(EBADF);
      }
      if forwarded < 0 {
        return Done(forwarded);
      }
      var r := RegisterKernel(cage, forwarded, false, 0, 0);
      return Done(r);
    }

    // ------------------------------------------------------------------
    // Two calls that do not keep the counts
    // ------------------------------------------------------------------

    /** A descriptor that is put in place without taking references. */
    method PutUncounted(s: Slot, e: Entry)
      requires Valid() && s.Live? && s.cage in cages && s !in fds && Refers(e, pipes.Keys, sockets.Keys)
      modifies this`fds, this`held
      ensures Shape() && fds == old(fds)[s := e]
      ensures Agree(held, pipes) <==> Ends(sockets, e) == {}
    {
      hide TablesOk, FlightOk, PipesOk, NumbersOk, SocketsOk, OwnersOk, WiredOk, HalfWiredOk, QueuesOk, LineOk;
      hide OrderOk, Agree, Ends, Refers, Known;
      EndsKnown(sockets, pipes.Keys, e);
      OwnersAdd(held, fds, sockets, flight, line, s, e);
      TablesAdd(fds, cages, pipes.Keys, sockets.Keys, s, e);
      UncountedOwner(held, s, Ends(sockets, e), pipes);
      fds := fds[s := e];
      held := held[s := Ends(sockets, e)];
    }

    /**
     ioctl(FIONBIO) overwrites the entry with itself under new status flags. The overwrite
     fires the close handler and takes no reference: the counts are those of the tables without
     the descriptor, so they stay right exactly when it stands for no pipe end.
     */
    method IoctlNonblocking(s: Slot, on: bool)
      requires Valid() && s in fds && !fds[s].kind.Kernel?
      modifies this`fds, this`pipes, this`held
      ensures Shape() && Recounted(old(pipes), pipes)
      ensures fds == old(fds)[s := old(fds)[s].(flags := NonblockingFlags(old(fds)[s].flags, on))]
      ensures flight == map[] ==> forall r :: r in pipes ==> Exact(Now().(fds := fds - {s}), r)
      ensures Agree(held, pipes) <==> Ends(sockets, old(fds)[s]) == {}
    {
      hide TablesOk, FlightOk, PipesOk, NumbersOk, SocketsOk, OwnersOk, WiredOk, HalfWiredOk, QueuesOk, LineOk;
      hide OrderOk, Agree, Ends, Refers, Recounted, NonblockingFlags, IsReadEnd, Exact;
      EntryAt(s);
      var e := fds[s].(flags := NonblockingFlags(fds[s].flags, on));
      NonblockingKeepsEnd(fds[s].flags, on);
      SameEnds(sockets, pipes.Keys, fds[s], e);
      CloseSlot(s);
      ghost var closed := Now();
      if flight == map[] {
        CountsAreVisible();
      }
      PutUncounted(s, e);
      assert fds - {s} == closed.fds;
      assert Now().(fds := fds - {s}) == closed;
    }

    /**
     shutdown(SHUT_WR) drops the send pipe's write reference and leaves the descriptor in
     place, so the counts stay right exactly when the socket has no send pipe.
     */
    method ShutdownWrite(s: Slot, id: nat)
      requires Valid() && s in fds && fds[s].kind.SocketFd? && fds[s].underfd == id && id in sockets
      modifies this`pipes, this`sockets
      ensures Shape()
      ensures var was := old(sockets)[id];
              sockets == old(sockets)[id := was.(state := if was.state.Connected? then ReadOnly else NotConnected)]
      ensures var send := sockets[id].send;
              if send.None? then Valid() && pipes == old(pipes)
              else
                && send.value in old(pipes) && old(pipes)[send.value].writeRefs > 0 && !Agree(held, pipes)
                && pipes == old(pipes)[send.value := DecrWrite(old(pipes)[send.value])]
    {
      hide TablesOk, FlightOk, PipesOk, NumbersOk, SocketsOk, OwnersOk, WiredOk, HalfWiredOk, QueuesOk, LineOk;
      hide OrderOk, Agree, Ends, Refers, Merged, CleanMerge, AllOnward, SocketEnds;
      if sockets[id].send.Some? {
        var r := sockets[id].send.value;
        SendPipe(s, id);
        ShortCount(held, pipes, r);
        PipesUpdate(pipes, r, DecrWrite(pipes[r]));
        pipes := pipes[r := DecrWrite(pipes[r])];
      }
      var sock := sockets[id].(state := ShutState(sockets[id].state));
      Relabel(sockets, id, sock, held, fds, flight, line, pipes.Keys);
      sockets := sockets[id := sock];
    }

    lemma SendPipe(s: Slot, id: nat)
      requires Valid() && s in fds && fds[s].kind.SocketFd? && fds[s].underfd == id && id in sockets
               && sockets[id].send.Some?
      ensures var r := sockets[id].send.value; r in pipes && pipes[r].writeRefs > 0 && Fits(pipes[r])
    {
      hide FlightOk, NumbersOk, OwnersOk, WiredOk, HalfWiredOk, QueuesOk, LineOk, OrderOk, Agree;
      EntryAt(s);
      OwnersRemove(held, fds, sockets, flight, line, s);
      OwnerIsCounted(held, s, pipes);
      assert WriteEnd(sockets[id].send.value) in held[s];
      assert Droppable(sockets[id].send.value, pipes[sockets[id].send.value], held[s]);
    }

    // ------------------------------------------------------------------
    // Readiness, and reads and writes taken as one step each
    // ------------------------------------------------------------------

    /**
     What poll() answers for one IPC descriptor. On a pipe end the bits for its direction are
     set exactly when a one-byte non-blocking call would not get EAGAIN; on a listening socket
     exactly when a connection waits at its address; on a connected socket input is exact, and
     output exact as long as input is not asked for too.
     */
    method PollState(s: Slot, requested: bv16) returns (revents: bv16)
      requires Valid() && s in fds && !fds[s].kind.Kernel?
      ensures fds[s].kind.PipeFd? ==>
                && Plain(fds[s].underfd) in pipes && Fits(pipes[Plain(fds[s].underfd)])
                && PipePolled(pipes[Plain(fds[s].underfd)], IsReadEnd(fds[s].flags), requested, revents)
      ensures fds[s].kind.SocketFd? ==>
                && fds[s].underfd in sockets && SocketsOk(sockets, pipes.Keys) && PipesOk(pipes)
                && SocketPolled(sockets[fds[s].underfd], pipes, queues, requested, revents)
    {
      hide TablesOk, FlightOk, PipesOk, NumbersOk, SocketsOk, OwnersOk, WiredOk, HalfWiredOk, QueuesOk, LineOk;
      hide OrderOk, Agree, Ends, Refers, Merged, CleanMerge, PollPipe, PollSocket, ReadAnswers, WriteAnswers, Asks;
      hide SocketPolled, PipePolled;
      EntryAt(s);
      if fds[s].kind.PipeFd? {
        PipeAt(s);
        var p, isReader := pipes[Plain(fds[s].underfd)], IsReadEnd(fds[s].flags);
        revents := PollPipe(p, isReader, requested);
        PipeIsPolled(p, isReader, requested);
      } else {
        SocketAt(s);
        PipesReady();
        revents := PollSocket(sockets[fds[s].underfd], pipes, queues, requested);
        SocketPipes(fds[s].underfd);
        SocketIsPolled(sockets[fds[s].underfd], pipes, queues, requested);
      }
    }

    lemma SocketPipes(id: nat)
      requires SocketsOk(sockets, pipes.Keys) && id in sockets
      ensures sockets[id].send.Some? ==> sockets[id].send.value in pipes
      ensures sockets[id].recv.Some? ==> sockets[id].recv.value in pipes
    {
    }

    lemma PipesReady()
      requires Valid()
      ensures forall r :: r in pipes ==> Fits(pipes[r]) && LatchExact(pipes[r])
    {
      hide FlightOk, NumbersOk, SocketsOk, OwnersOk, WiredOk, HalfWiredOk, QueuesOk, LineOk, OrderOk;
      forall r | r in pipes ensures LatchExact(pipes[r]) {
        assert AgreeOn(held, r, pipes[r]);
      }
    }

    lemma PipeAt(s: Slot)
      requires Valid() && s in fds && fds[s].kind.PipeFd?
      ensures var r := Plain(fds[s].underfd); r in pipes && Fits(pipes[r]) && LatchExact(pipes[r])
    {
      hide FlightOk, NumbersOk, SocketsOk, OwnersOk, WiredOk, HalfWiredOk, QueuesOk, LineOk, OrderOk;
      assert AgreeOn(held, Plain(fds[s].underfd), pipes[Plain(fds[s].underfd)]);
    }

    lemma EndPipe(s: Slot)
      requires Valid() && s in fds
      ensures SourceOf(sockets, fds[s]).Some? ==> Usable(SourceOf(sockets, fds[s]), pipes)
      ensures SinkOf(sockets, fds[s]).Some? ==>
                && Usable(SinkOf(sockets, fds[s]), pipes)
                && var p := pipes[SinkOf(sockets, fds[s]).value]; p.writeRefs > 0 && !p.eof
    {
      hide FlightOk, NumbersOk, OwnersOk, WiredOk, HalfWiredOk, QueuesOk, LineOk, OrderOk;
      EntryAt(s);
      OwnersRemove(held, fds, sockets, flight, line, s);
      OwnerIsCounted(held, s, pipes);
      if SinkOf(sockets, fds[s]).Some? {
        var r := SinkOf(sockets, fds[s]).value;
        assert WriteEnd(r) in held[s];
        assert Droppable(r, pipes[r], held[s]) && AgreeOn(held, r, pipes[r]);
      }
    }

    /** read() on an IPC descriptor, one lap of its loop. */
    method ReadFd(s: Slot, want: nat) returns (o: Outcome, out: seq<byte>)
      requires Valid() && Ours(fds, s)
      modifies this`pipes
      ensures Valid() && AllOnward(old(pipes), pipes)
      ensures Transfer(o, out, pipes) == ReadOn(old(pipes), sockets, fds[s], want)
    {
      hide TablesOk, FlightOk, PipesOk, NumbersOk, SocketsOk, OwnersOk, WiredOk, HalfWiredOk, QueuesOk, LineOk;
      hide OrderOk, Agree, Ends, Refers, Merged, CleanMerge, AllOnward, ReadToCage, Pop, Onward, SourceOf, SinkOf;
      EndPipe(s);
      var src := SourceOf(sockets, fds[s]);
      if src.None? {
        OnwardRefl(pipes);
        return Done(EBADF), [];
      }
      var p := pipes[src.value];
      var r := ReadToCage(p, want, fds[s].flags & O_NONBLOCK != 0, []);
      ReadStep(p, want, fds[s].flags & O_NONBLOCK != 0);
      RingUpdate(held, pipes, src.value, r.pipe);
      pipes := pipes[src.value := r.pipe];
      return r.outcome, r.delivered;
    }

    /** write() on an IPC descriptor, one lap of its loop. */
    method WriteFd(s: Slot, bytes: seq<byte>) returns (o: Outcome, taken: seq<byte>)
      requires Valid() && Ours(fds, s)
      modifies this`pipes
      ensures Valid() && AllOnward(old(pipes), pipes)
      ensures Transfer(o, taken, pipes) == WriteOn(old(pipes), sockets, fds[s], bytes)
    {
      hide TablesOk, FlightOk, PipesOk, NumbersOk, SocketsOk, OwnersOk, WiredOk, HalfWiredOk, QueuesOk, LineOk;
      hide OrderOk, Agree, Ends, Refers, Merged, CleanMerge, AllOnward, Write, Onward, SourceOf, SinkOf;
      EndPipe(s);
      OnwardRefl(pipes);
      var dst := SinkOf(sockets, fds[s]);
      if dst.None? {
        return Done(EBADF), [];
      }
      if bytes == [] {
        return Done(0), [];
      }
      var p := pipes[dst.value];
      var r := Write(p, bytes, fds[s].flags & O_NONBLOCK != 0, []);
      WriteStep(p, bytes, fds[s].flags & O_NONBLOCK != 0);
      OpenOnward(p, r.pipe);
      RingUpdate(held, pipes, dst.value, r.pipe);
      pipes := pipes[dst.value := r.pipe];
      return r.outcome, bytes[..r.sent];
    }

    // ------------------------------------------------------------------
    // Whole runs
    // ------------------------------------------------------------------

    ghost predicate AtRest()
      reads this
    {
      Valid() && pending == [] && flight == map[]
    }

    lemma RestIsSound()
      requires AtRest()
      ensures Sound(Now())
    {
      hide TablesOk, FlightOk, PipesOk, OwnersOk, HalfWiredOk, QueuesOk, LineOk, Agree, Exact;
      hide NumbersOk, SocketsOk, WiredOk, OrderOk;
      CountsAreVisible();
    }

    method StepFd(op: FdOp) returns (a: Answer)
      requires AtRest()
      modifies this
      ensures AtRest() && EffectFd(op, old(Now()), Now(), a) && AllOnward(old(pipes), pipes)
    {
      hide TablesOk, FlightOk, PipesOk, NumbersOk, SocketsOk, OwnersOk, WiredOk, HalfWiredOk, QueuesOk, LineOk;
      hide OrderOk, Agree, Ends, Refers, Merged, CleanMerge, AllOnward, Recounted, Stdio, LowestFree, ReadOn, WriteOn;
      hide SourceOf, SinkOf, DupTable, Dup2Table;
      hide WithPipes, ReadEntry, WriteEntry, SetStatusFlags;
      OnwardRefl(pipes);
      match op {
        case MakePipeCall(cage, flags) =>
          var rfd, wfd := MakePipe(cage, flags);
          return Answer(Done(0), [rfd, wfd], Nothing);
        case OpenCall(cage, cloexec, flags, forwarded) =>
          var r := Open(cage, cloexec, flags, forwarded);
          return Code(r);
        case DupCall(cage, fd, from, cloexec, forwarded) =>
          var r := DupFrom(cage, fd, from, cloexec, forwarded);
          RecountedOnward(old(pipes), pipes);
          return Code(r);
        case Dup2Call(cage, oldfd, newfd, forwarded) =>
          var r := Dup2(cage, oldfd, newfd, forwarded);
          RecountedOnward(old(pipes), pipes);
          return Code(r);
        case SetStatusCall(cage, fd, arg, forwarded) =>
          var r := SetStatus(cage, fd, arg, forwarded);
          return Code(r);
        case SetCloexecCall(cage, fd, on, forwarded) =>
          var r := SetCloexec(cage, fd, on, forwarded);
          return Code(r);
        case CloseCall(cage, fd, forwarded) =>
          var r := Close(cage, fd, forwarded);
          RecountedOnward(old(pipes), pipes);
          return Code(r);
        case ReadCall(cage, fd, want, forwarded) =>
          var x := Live(cage, fd);
          if !Ours(fds, x) {
            return Code(Forwarded(fds, cage in cages, x, forwarded));
          }
          var o, out := ReadFd(x, want);
          return Answer(o, [], Moved(SourceOf(sockets, fds[x]), fds[x], out, false));
        case WriteCall(cage, fd, bytes, forwarded) =>
          var x := Live(cage, fd);
          if !Ours(fds, x) {
            return Code(Forwarded(fds, cage in cages, x, forwarded));
          }
          var o, taken := WriteFd(x, bytes);
          return Answer(o, [], Moved(SinkOf(sockets, fds[x]), fds[x], taken, true));
      }
    }

    method StepCage(op: CageOp) returns (a: Answer)
      requires AtRest()
      modifies this
      ensures AtRest() && EffectCage(op, old(Now()), Now(), a) && AllOnward(old(pipes), pipes)
    {
      hide TablesOk, FlightOk, PipesOk, NumbersOk, SocketsOk, OwnersOk, WiredOk, HalfWiredOk, QueuesOk, LineOk;
      hide OrderOk, Agree, Ends, Refers, Merged, CleanMerge, AllOnward, Recounted, Stdio, CloexecOf, SlotsOf, TableOf;
      hide ChildView, Targets, EarlyChild, Grown;
      OnwardRefl(pipes);
      match op {
        case CloneCall(parent, child) =>
          if !(parent in cages && child !in cages) {
            return Skipped;
          }
          Clone(parent, child);
          RecountedOnward(old(pipes), pipes);
          return Code(child);
        case EarlyChildCall(parent, child, ops, vfork) =>
          if !(parent in cages && child !in cages) {
            return Skipped;
          }
          ghost var states;
          var answers;
          answers, states := CloneWithEarlyChild(parent, child, ops, vfork);
          GrownOnward(old(pipes), pipes);
          return Answer(Done(child), [], ChildRan(answers));
        case FailedCloneCall(parent, error) =>
          if parent !in cages {
            return Skipped;
          }
          FailedClone(parent);
          return Code(error);
        case ExecCall(cage, forwarded) =>
          Exec(cage);
          RecountedOnward(old(pipes), pipes);
          return Code(forwarded);
        case ExitCall(cage, forwarded) =>
          Exit(cage);
          RecountedOnward(old(pipes), pipes);
          return Code(forwarded);
      }
    }

    /** The domain of connect() in a run: one descriptor names the socket, and it has no pipes yet. */
    method SoleUnconnected(s: Slot) returns (sole: bool)
      requires AtRest() && NamesSocket(Now(), s)
      ensures sole <==> Sole(Now(), s)
    {
      hide TablesOk, FlightOk, PipesOk, NumbersOk, SocketsOk, OwnersOk, WiredOk, HalfWiredOk, QueuesOk, LineOk;
      hide OrderOk, Agree, Ends, Refers, Merged, CleanMerge;
      var id := fds[s].underfd;
      var users := set t | t in fds && fds[t].kind.SocketFd? && fds[t].underfd == id;
      assert Users(fds, map[], id) == users;
      return sockets[id].send.None? && |users| == 1;
    }

    method StepSocket(op: SocketOp) returns (a: Answer)
      requires AtRest()
      modifies this
      ensures AtRest() && EffectSocket(op, old(Now()), Now(), a) && AllOnward(old(pipes), pipes)
    {
      hide TablesOk, FlightOk, PipesOk, NumbersOk, SocketsOk, OwnersOk, WiredOk, HalfWiredOk, QueuesOk, LineOk;
      hide OrderOk, Agree, Ends, Refers, Merged, CleanMerge, AllOnward, Stdio, LowestFree, WithPipes, SocketEntry;
      hide Plugged, ConnPair, Users, At, Connecting, AcceptEffect;
      OnwardRefl(pipes);
      match op {
        case MakeSocketCall(cage, kind) =>
          var fd := MakeSocket(cage, kind);
          return Code(fd);
        case SocketPairCall(cage, kind) =>
          var fd1, fd2 := SocketPair(cage, kind);
          return Answer(Done(0), [fd1, fd2], Nothing);
        case BindCall(cage, fd, addr, forwarded) =>
          var r := Bind(cage, fd, addr, forwarded);
          return Code(r);
        case ListenCall(cage, fd, forwarded) =>
          var r := Listen(cage, fd, forwarded);
          return Code(r);
        case AcceptCall(cage, fd, kind, interrupted, forwarded) =>
          var o, deed := Accept(cage, fd, kind, interrupted, forwarded);
          return Answer(o, [], deed);
        case ConnectCall(cage, fd, target, forwarded) =>
          a := StepConnect(cage, fd, target, forwarded);
      }
    }

    method StepConnect(cage: nat, fd: nat, target: string, forwarded: int) returns (a: Answer)
      requires AtRest()
      modifies this
      ensures AtRest() && ConnectEffect(old(Now()), Now(), a, cage, fd, target, forwarded)
              && AllOnward(old(pipes), pipes)
    {
      hide TablesOk, FlightOk, PipesOk, NumbersOk, SocketsOk, OwnersOk, WiredOk, HalfWiredOk, QueuesOk, LineOk;
      hide OrderOk, Agree, Ends, Refers, Merged, CleanMerge, AllOnward, WithPipes, Plugged, ConnPair, Users, At;
      hide Connecting;
      OnwardRefl(pipes);
      var x := Live(cage, fd);
      if x in fds && fds[x].kind.SocketFd? {
        SocketAt(x);
        var sole := SoleUnconnected(x);
        if target in boundPaths && !sole {
          return Skipped;
        }
      }
      var n := nextConn;
      var r := Connect(cage, fd, target, forwarded);
      return if r == 0 && nextConn > n then Answer(Done(0), [], Connects(target, n)) else Code(r);
    }

    /**
     Every run of these calls over any number of cages, from any state at rest, goes through
     sound states, each call with its effect on the one before. What this means for the bytes
     and the connections of a run is stated by `StreamsConserved`, `PeersAreStreams` and
     `AcceptsInOrder`. Once a pipe is at EOF it stays there and its ring only drains.
     */
    method Run(ops: seq<Op>) returns (answers: seq<Answer>, ghost states: seq<State>)
      requires AtRest()
      modifies this
      ensures AtRest() && AllOnward(old(pipes), pipes)
      ensures Steps(states, ops, answers) && states[0] == old(Now()) && states[|ops|] == Now()
    {
      hide TablesOk, FlightOk, PipesOk, NumbersOk, SocketsOk, OwnersOk, WiredOk, HalfWiredOk, QueuesOk, LineOk;
      hide OrderOk, Agree, Ends, Refers, Merged, CleanMerge, AllOnward, Sound, Effect, Steps;
      OnwardRefl(pipes);
      RestIsSound();
      answers, states := [], [Now()];
      StepsNone(Now());
      for i := 0 to |ops|
        invariant AtRest() && AllOnward(old(pipes), pipes)
        invariant Steps(states, ops[..i], answers) && |states| == i + 1 && states[0] == old(Now()) && states[i] == Now()
      {
        ghost var mid := pipes;
        var a := Step(ops[i]);
        OnwardTrans(old(pipes), mid, pipes);
        RestIsSound();
        StepsMore(states, ops[..i], answers, ops[i], Now(), a);
        assert ops[..i + 1] == ops[..i] + [ops[i]];
        answers, states := answers + [a], states + [Now()];
      }
      assert ops[..|ops|] == ops;
    }

    method Step(op: Op) returns (a: Answer)
      requires AtRest()
      modifies this
      ensures AtRest() && Effect(op, old(Now()), Now(), a) && AllOnward(old(pipes), pipes)
    {
      hide TablesOk, FlightOk, PipesOk, NumbersOk, SocketsOk, OwnersOk, WiredOk, HalfWiredOk, QueuesOk, LineOk;
      hide OrderOk, Agree, Ends, Refers, Merged, CleanMerge, AllOnward, EffectFd, EffectCage, EffectSocket;
      match op {
        case OnFd(o) => a := StepFd(o);
        case OnCage(o) => a := StepCage(o);
        case OnSocket(o) => a := StepSocket(o);
      }
    }
  }
}
