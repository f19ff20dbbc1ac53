/** Runs of the ipc-grate that end with counts that are wrong, one for each condition on them. */
module Witnesses {
  import opened Pipes
  import opened Holdings
  import opened Descriptors
  import opened IpcStates
  import opened SocketStates
  import opened IpcEffects
  import opened IpcGrates

  // ------------------------------------------------------------------
  // Counts below the number of descriptors
  // ------------------------------------------------------------------

  lemma Fewer(a: set<Slot>, b: set<Slot>)
    requires a <= b
    ensures |a| <= |b|
  {
    if a != {} {
      var x :| x in a;
      Fewer(a - {x}, b - {x});
    }
  }

  /** More descriptors write to a pipe than are counted. */
  lemma TooFew(s: State, r: PipeRef, writers: set<Slot>)
    requires r in s.pipes && |writers| > s.pipes[r].writeRefs
    requires writers <= if r.Plain? then OpenEnds(s.fds, r.id, true) else PeerFds(s.fds, s.sockets, r, true)
    ensures !Exact(s, r)
  {
    hide OpenEnds, PeerFds;
    Fewer(writers, if r.Plain? then OpenEnds(s.fds, r.id, true) else PeerFds(s.fds, s.sockets, r, true));
  }

  // ------------------------------------------------------------------
  // connect() on a socket that two descriptors name
  // ------------------------------------------------------------------

  method BoundName() returns (g: IpcGrate)
    ensures fresh(g) && g.AtRest() && "s" in g.boundPaths && 1 in g.cages
  {
    hide TablesOk, FlightOk, PipesOk, NumbersOk, SocketsOk, OwnersOk, WiredOk, HalfWiredOk, QueuesOk, LineOk, OrderOk;
    hide Agree, Ends, Refers, Merged, CleanMerge, AllOnward, Stdio, Recounted, WithPipes, SocketEntry, LowestFree;
    g := new IpcGrate();
    var a := g.MakeSocket(1, 0);
    SocketEntryNames(0, 0);
    var _ := g.Bind(1, a, "s", 0);
  }

  /** Two descriptors of one socket. */
  ghost predicate SameSocket(fds: map<Slot, Entry>, b: nat, c: nat, id: nat) {
    && b != c && Live(1, b) in fds && Live(1, c) in fds && Via(fds[Live(1, b)], id) && Via(fds[Live(1, c)], id)
  }

  lemma TwoUsers(fds: map<Slot, Entry>, b: nat, c: nat, id: nat)
    requires SameSocket(fds, b, c, id)
    ensures |Users(fds, map[], id)| != 1
  {
    var users := Users(fds, map[], id);
    assert Live(1, b) in users && Live(1, c) in users;
    if |users| == 1 {
      Singleton(users, Live(1, b));
      assert false;
    }
  }

  /** A bound name, and another socket that two descriptors name. */
  method NameAndCopies() returns (g: IpcGrate, b: nat, c: nat, ghost id: nat)
    ensures fresh(g) && g.AtRest() && "s" in g.boundPaths && id in g.sockets && SameSocket(g.fds, b, c, id)
  {
    hide TablesOk, FlightOk, PipesOk, NumbersOk, SocketsOk, OwnersOk, WiredOk, HalfWiredOk, QueuesOk, LineOk, OrderOk;
    hide Agree, Ends, Refers, Merged, CleanMerge, AllOnward, Stdio, Recounted, WithPipes, Users, SocketEntry;
    hide LowestFree;
    g := BoundName();
    id := g.nextSocket;
    b := g.MakeSocket(1, 0);
    SocketEntryNames(id, 0);
    ghost var before := g.fds;
    var r := g.DupFrom(1, b, 0, false, 0);
    FreeSlot(before, 1, 0, r);
    c := r;
  }

  /** socket, bind, socket, dup, connect: two descriptors send on a pipe that counts one. */
  method DupThenConnect() returns (g: IpcGrate, r: int, b: nat, c: nat, ghost id: nat, ghost n: nat)
    ensures r == 0 && g.Shape() && g.pending == [] && g.flight == map[]
    ensures SameSocket(g.fds, b, c, id) && id in g.sockets && g.sockets[id].send == Some(Conn(n))
    ensures Conn(n) in g.pipes && g.pipes[Conn(n)].writeRefs == 1 && !Exact(g.Now(), Conn(n))
  {
    hide TablesOk, FlightOk, PipesOk, NumbersOk, SocketsOk, OwnersOk, WiredOk, HalfWiredOk, QueuesOk, LineOk, OrderOk;
    hide Agree, Ends, Refers, Merged, CleanMerge, AllOnward, Users, Exact;
    g, b, c, id := NameAndCopies();
    n := g.nextConn;
    TwoUsers(g.fds, b, c, id);
    r := g.Connect(1, b, "s", 0);
    TooFew(g.Now(), Conn(n), {Live(1, b), Live(1, c)});
  }

  // ------------------------------------------------------------------
  // Calls that drop a reference and leave the descriptor
  // ------------------------------------------------------------------

  /** A descriptor that writes to the pipe of number 0. */
  ghost predicate WritesZero(fds: map<Slot, Entry>, x: Slot) {
    x in fds && fds[x].kind.PipeFd? && fds[x].underfd == 0 && !IsReadEnd(fds[x].flags)
  }

  lemma OnlyWriter(fds: map<Slot, Entry>, cage: nat, rfd: nat, wfd: nat)
    requires rfd != wfd
    requires fds == Merged(map[], cage, Stdio(3))[Live(cage, rfd) := ReadEntry(0, 0)]
                                                 [Live(cage, wfd) := WriteEntry(0, 0)]
    ensures WritesZero(fds, Live(cage, wfd)) && OpenEnds(fds, 0, true) == {Live(cage, wfd)}
  {
    PipeFlagsTellEnds(0);
    hide ReadFlags, WriteFlags, IsReadEnd;
  }

  /** One cage with one pipe. */
  method OnePipe() returns (g: IpcGrate, wfd: nat)
    ensures fresh(g) && g.AtRest() && g.cages == {1} && g.pipes.Keys == {Plain(0)}
    ensures WritesZero(g.fds, Live(1, wfd)) && OpenEnds(g.fds, 0, true) == {Live(1, wfd)}
  {
    hide TablesOk, FlightOk, PipesOk, NumbersOk, SocketsOk, OwnersOk, WiredOk, HalfWiredOk, QueuesOk, LineOk, OrderOk;
    hide Agree, Refers, Merged, CleanMerge, AllOnward, Stdio, OpenEnds, ReadEntry, WriteEntry, WritesZero;
    g := new IpcGrate();
    var rfd;
    rfd, wfd := g.MakePipe(1, 0);
    OnlyWriter(g.fds, 1, rfd, wfd);
  }

  lemma OtherWriters(before: map<Slot, Entry>, after: map<Slot, Entry>, wfd: nat)
    requires OpenEnds(before, 0, true) == {Live(1, wfd)} && WritesZero(after, Live(1, wfd))
    requires after - {Live(1, wfd)} == before - {Live(1, wfd)}
    ensures OpenEnds(after - {Live(1, wfd)}, 0, true) == {} && {Live(1, wfd)} <= OpenEnds(after, 0, true)
  {
    var rest := after - {Live(1, wfd)};
    assert OpenEnds(rest, 0, true) == OpenEnds(before, 0, true) - {Live(1, wfd)};
  }

  /** pipe, FIONBIO on its write end: end of file is latched with the write end open. */
  method PipeThenNonblocking() returns (g: IpcGrate, wfd: nat)
    ensures g.Shape() && g.pending == [] && g.flight == map[] && WritesZero(g.fds, Live(1, wfd))
    ensures Plain(0) in g.pipes && g.pipes[Plain(0)].writeRefs == 0 && g.pipes[Plain(0)].eof
    ensures !Exact(g.Now(), Plain(0))
  {
    hide TablesOk, FlightOk, PipesOk, NumbersOk, SocketsOk, OwnersOk, WiredOk, HalfWiredOk, QueuesOk, LineOk, OrderOk;
    hide Agree, Refers, NonblockingFlags, IsReadEnd, OpenEnds;
    g, wfd := OnePipe();
    ghost var before := g.fds;
    NonblockingKeepsEnd(g.fds[Live(1, wfd)].flags, true);
    g.IoctlNonblocking(Live(1, wfd), true);
    assert g.fds - {Live(1, wfd)} == before - {Live(1, wfd)};
    OtherWriters(before, g.fds, wfd);
    assert Exact(g.Now().(fds := g.fds - {Live(1, wfd)}), Plain(0));
    TooFew(g.Now(), Plain(0), {Live(1, wfd)});
  }

  /** socketpair, shutdown for writing: end of file is latched with the sender's descriptor open. */
  method PairThenShutdown() returns (g: IpcGrate, b: nat)
    ensures g.Shape() && g.pending == [] && g.flight == map[] && Live(1, b) in g.fds && Via(g.fds[Live(1, b)], 1)
    ensures 1 in g.sockets && g.sockets[1].send == Some(Conn(1))
    ensures Conn(1) in g.pipes && g.pipes[Conn(1)].writeRefs == 0 && g.pipes[Conn(1)].eof && !Exact(g.Now(), Conn(1))
  {
    hide TablesOk, FlightOk, PipesOk, NumbersOk, SocketsOk, OwnersOk, WiredOk, HalfWiredOk, QueuesOk, LineOk, OrderOk;
    hide Agree, Ends, Refers, Merged, CleanMerge, AllOnward, Stdio, Recounted, LowestFree, SocketEntry, Exact;
    g := new IpcGrate();
    var a;
    a, b := g.SocketPair(1, 0);
    SocketEntryNames(1, 0);
    g.ShutdownWrite(Live(1, b), 1);
    TooFew(g.Now(), Conn(1), {Live(1, b)});
  }

  // ------------------------------------------------------------------
  // Clones
  // ------------------------------------------------------------------

  lemma InheritedWriter(fds: map<Slot, Entry>, parent: nat, child: nat, wfd: nat)
    requires parent != child && (forall k :: Live(child, k) !in fds) && OpenEnds(fds, 0, true) == {Live(parent, wfd)}
    ensures var after := Merged(fds, child, TableOf(fds, parent));
            && WritesZero(after, Live(parent, wfd)) && WritesZero(after, Live(child, wfd))
            && OpenEnds(after - {Live(child, wfd)}, 0, true) == {Live(parent, wfd)}
  {
    hide IsReadEnd, TableOf;
    assert Live(parent, wfd) in OpenEnds(fds, 0, true);
    TableOfAt(fds, parent, wfd);
    var after := Merged(fds, child, TableOf(fds, parent)) - {Live(child, wfd)};
    forall x | x in after && x !in fds ensures x !in OpenEnds(after, 0, true) {
      TableOfAt(fds, parent, x.fd);
      assert Live(parent, x.fd) in OpenEnds(fds, 0, true) <==> x in OpenEnds(after, 0, true);
    }
    assert OpenEnds(after, 0, true) == OpenEnds(fds, 0, true);
  }

  lemma BothWrite(fds: map<Slot, Entry>, x: Slot, y: Slot)
    requires WritesZero(fds, x) && WritesZero(fds, y)
    ensures {x, y} <= OpenEnds(fds, 0, true)
  {
  }

  /** pipe, clone, the child closes the write end before clone() returns: two write ends, one counted. */
  method CloneThenEarlyClose() returns (g: IpcGrate, wfd: nat)
    ensures g.Shape() && g.pending == [] && g.flight == map[]
    ensures WritesZero(g.fds, Live(1, wfd)) && WritesZero(g.fds, Live(2, wfd))
    ensures Plain(0) in g.pipes && g.pipes[Plain(0)].writeRefs == 1 && !Exact(g.Now(), Plain(0))
  {
    hide TablesOk, FlightOk, PipesOk, NumbersOk, SocketsOk, OwnersOk, WiredOk, HalfWiredOk, QueuesOk, LineOk, OrderOk;
    hide Agree, Refers, Merged, TableOf, OpenEnds, IsReadEnd, WritesZero;
    g, wfd := OnePipe();
    NoSlots(g.fds, g.cages, g.pipes.Keys, g.sockets.Keys, 2);
    ghost var left := Merged(g.fds, 2, TableOf(g.fds, 1)) - {Live(2, wfd)};
    InheritedWriter(g.fds, 1, 2, wfd);
    g.CloneWithEarlyClose(1, 2, wfd, false, 0);
    assert Exact(g.Now().(fds := left), Plain(0));
    BothWrite(g.fds, Live(1, wfd), Live(2, wfd));
    TooFew(g.Now(), Plain(0), {Live(1, wfd), Live(2, wfd)});
  }

  /** The first descriptor of a cage that had no table is 3. */
  lemma FirstFd(fds: map<Slot, Entry>, cage: nat, r: int)
    requires (forall k :: Live(cage, k) !in fds) && LowestFree(Merged(fds, cage, Stdio(3)), cage, 0, r)
    ensures r == 3
  {
    var base := Merged(fds, cage, Stdio(3));
    assert Live(cage, 0) in base && Live(cage, 1) in base && Live(cage, 2) in base;
    assert Live(cage, 3) !in base;
  }

  lemma OnlyFd(fds: map<Slot, Entry>, cage: nat, fd: nat)
    requires fds == Merged(map[], cage, Stdio(3))[Live(cage, fd) := Entry(Kernel, 7, false, 0)]
    ensures forall k :: k > fd && k > 2 ==> Live(cage, k) !in fds
    ensures forall s :: s in fds ==> s.Live? && s.cage == cage
  {
  }

  lemma PipeFds(fds: map<Slot, Entry>, fds': map<Slot, Entry>, cage: nat, other: nat, rfd: nat, wfd: nat)
    requires cage != other && (forall s :: s in fds ==> s.Live? && s.cage == other)
    requires LowestFree(Merged(fds, cage, Stdio(3)), cage, 0, rfd)
             && LowestFree(Merged(fds, cage, Stdio(3)), cage, rfd + 1, wfd)
    requires fds' == Merged(fds, cage, Stdio(3))[Live(cage, rfd) := ReadEntry(0, 0)]
                                                [Live(cage, wfd) := WriteEntry(0, 0)]
    ensures wfd > 3 && WritesZero(fds', Live(cage, wfd))
    ensures forall k :: Live(other, k) in fds' <==> Live(other, k) in fds
  {
    FirstFd(fds, cage, rfd);
    PipeFlagsTellEnds(0);
    hide ReadFlags, WriteFlags, IsReadEnd;
  }

  /** One cage with a file, another with a pipe whose write end has a number the first does not use. */
  method FileAndPipe() returns (g: IpcGrate, wfd: nat)
    ensures fresh(g) && g.AtRest() && 1 in g.cages && 2 !in g.cages && 3 in g.cages && Live(3, wfd) !in g.fds
    ensures WritesZero(g.fds, Live(1, wfd)) && g.pipes.Keys == {Plain(0)}
  {
    hide TablesOk, FlightOk, PipesOk, NumbersOk, SocketsOk, OwnersOk, WiredOk, HalfWiredOk, QueuesOk, LineOk, OrderOk;
    hide Agree, Ends, Refers, Merged, CleanMerge, AllOnward, Stdio, Recounted, LowestFree;
    hide ReadEntry, WriteEntry, WritesZero;
    g := new IpcGrate();
    var fd := g.Open(3, false, 0, 7);
    FirstFd(map[], 3, fd);
    ghost var before := g.fds;
    OnlyFd(before, 3, 3);
    var rfd;
    rfd, wfd := g.MakePipe(1, 0);
    PipeFds(before, g.fds, 1, 3, rfd, wfd);
  }

  lemma ThreeWriters(fds: map<Slot, Entry>, wfd: nat)
    requires WritesZero(fds, Live(1, wfd)) && Live(3, wfd) !in fds && forall k :: Live(2, k) !in fds
    ensures var table := TableOf(fds, 1);
            var after := Merged(Merged(fds, 3, table), 2, table);
            && WritesZero(after, Live(1, wfd)) && WritesZero(after, Live(2, wfd)) && WritesZero(after, Live(3, wfd))
            && wfd in table && table[wfd] == fds[Live(1, wfd)]
  {
    hide IsReadEnd, TableOf;
    TableOfAt(fds, 1, wfd);
  }

  /**
   A cage with a file looks up a descriptor it does not have while another clones a pipe: it is
   given the write end, and the pipe's counts are not those of the tables.
   */
  method CloneThenStranger() returns (g: IpcGrate, wfd: nat)
    ensures g.Shape() && g.pending == [] && g.flight == map[]
    ensures WritesZero(g.fds, Live(1, wfd)) && WritesZero(g.fds, Live(2, wfd)) && WritesZero(g.fds, Live(3, wfd))
    ensures Plain(0) in g.pipes && !Exact(g.Now(), Plain(0))
  {
    hide TablesOk, FlightOk, PipesOk, NumbersOk, SocketsOk, OwnersOk, WiredOk, HalfWiredOk, QueuesOk, LineOk, OrderOk;
    hide Agree, Refers, Merged, TableOf, Exact, IsReadEnd;
    g, wfd := FileAndPipe();
    NoSlots(g.fds, g.cages, g.pipes.Keys, g.sockets.Keys, 2);
    ThreeWriters(g.fds, wfd);
    var _ := g.CloneWithStranger(1, 2, 3, wfd);
    g.CountsAreVisible();
  }
}
