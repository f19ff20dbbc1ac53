/**
 The invariant of the ipc-grate, part by part, over the values of its fields, and how each
 part survives one elementary change.
 */
module IpcStates {
  import opened Bytes
  import opened Pipes
  import opened Holdings
  import opened Descriptors

  /** A parent's table as it was before its clone() went to the runtime. */
  datatype Snapshot = Snapshot(parent: nat, table: map<nat, Entry>)

  predicate Refers(e: Entry, refs: set<PipeRef>, ids: set<nat>) {
    && (e.kind.PipeFd? ==> Plain(e.underfd) in refs)
    && (e.kind.SocketFd? ==> e.underfd in ids)
  }

  /** Entries sit in tables of known cages and name known pipes and sockets. */
  ghost predicate TablesOk(fds: map<Slot, Entry>, cages: set<nat>, refs: set<PipeRef>, ids: set<nat>) {
    forall s :: s in fds ==> s.Live? && s.cage in cages && Refers(fds[s], refs, ids)
  }

  ghost predicate FlightOk(flight: map<nat, Entry>, pending: seq<Snapshot>, refs: set<PipeRef>, ids: set<nat>) {
    && (forall fd :: fd in flight ==> Refers(flight[fd], refs, ids))
    && (forall i, fd :: 0 <= i < |pending| && fd in pending[i].table ==> Refers(pending[i].table[fd], refs, ids))
  }

  ghost predicate PipesOk(pipes: map<PipeRef, Pipe>) {
    forall r :: r in pipes ==> Fits(pipes[r])
  }

  /** Ids are handed out in order. */
  ghost predicate NumbersOk(refs: set<PipeRef>, ids: set<nat>, nextPipe: nat, nextConn: nat, nextSocket: nat) {
    && (forall r :: r in refs ==> if r.Plain? then r.id < nextPipe else r.n < nextConn)
    && (forall k :: k in ids ==> k < nextSocket)
    && nextConn % 2 == 0
  }

  ghost predicate SocketsOk(sockets: map<nat, Socket>, refs: set<PipeRef>) {
    forall k :: k in sockets ==>
      && (sockets[k].send.Some? <==> sockets[k].recv.Some?)
      && (sockets[k].send.Some? ==> sockets[k].send.value.Conn? && sockets[k].send.value in refs)
      && (sockets[k].recv.Some? ==> sockets[k].recv.value.Conn? && sockets[k].recv.value in refs)
  }

  /** What a slot stands for, if it is occupied. */
  ghost function Claim(s: Slot, fds: map<Slot, Entry>, sockets: map<nat, Socket>, flight: map<nat, Entry>,
                       line: map<nat, string>): Option<set<End>> {
    match s
    case Live(_, _) => if s in fds then Some(Ends(sockets, fds[s])) else None
    case InFlight(fd) => if fd in flight then Some(Ends(sockets, flight[fd])) else None
    case Queued(n) => if n in line then Some({WriteEnd(Conn(n + 1)), ReadEnd(Conn(n))}) else None
  }

  ghost predicate SlotOk(s: Slot, held: Holding, fds: map<Slot, Entry>, sockets: map<nat, Socket>,
                         flight: map<nat, Entry>, line: map<nat, string>) {
    var c := Claim(s, fds, sockets, flight, line);
    (s in held <==> c.Some?) && (s in held ==> held[s] == c.value)
  }

  /** The holding is exactly what the tables, the clone in flight and the queues stand for. */
  ghost predicate OwnersOk(held: Holding, fds: map<Slot, Entry>, sockets: map<nat, Socket>, flight: map<nat, Entry>,
                           line: map<nat, string>) {
    forall s :: SlotOk(s, held, fds, sockets, flight, line)
  }

  /** Each connection pipe has one sender and one receiver, and the two sockets are each other's peers. */
  ghost predicate WiredOk(sockets: map<nat, Socket>) {
    && (forall i, j ::
          i in sockets && j in sockets && sockets[i].send.Some? && sockets[i].send == sockets[j].send ==> i == j)
    && (forall i, j ::
          i in sockets && j in sockets && sockets[i].recv.Some? && sockets[i].recv == sockets[j].recv ==> i == j)
    && (forall i, j :: i in sockets && j in sockets && sockets[i].send.Some? && sockets[i].send == sockets[j].recv ==>
          i != j && sockets[i].recv == sockets[j].send)
  }

  /** A waiting connection has its connector at one end and nobody at the other. */
  ghost predicate HalfWiredOk(sockets: map<nat, Socket>, line: map<nat, string>) {
    forall n, i :: n in line && i in sockets ==>
      && sockets[i].send != Some(Conn(n + 1)) && sockets[i].recv != Some(Conn(n))
      && (sockets[i].send == Some(Conn(n)) <==> sockets[i].recv == Some(Conn(n + 1)))
  }

  ghost predicate WaitsAt(c: Pending, line: map<nat, string>, a: string) {
    var n := IdOf(c.toListener);
    c.toListener == Conn(n) && c.toConnector == Conn(n + 1) && n in line && line[n] == a
  }

  /** A queue holds the connections made to its address and not yet accepted, oldest first. */
  ghost predicate QueuesOk(queues: map<string, seq<Pending>>, line: map<nat, string>) {
    && (forall a, i :: a in queues && 0 <= i < |queues[a]| ==> WaitsAt(queues[a][i], line, a))
    && (forall n :: n in line ==> line[n] in queues && n in Ids(queues[line[n]]))
  }

  ghost predicate LineOk(line: map<nat, string>, refs: set<PipeRef>, nextConn: nat) {
    forall n :: n in line ==> n % 2 == 0 && n + 1 < nextConn && Conn(n) in refs && Conn(n + 1) in refs
  }

  /** Connections wait in the order in which they were made. */
  ghost predicate OrderOk(queues: map<string, seq<Pending>>, nextConn: nat) {
    forall a :: a in queues ==>
      Increasing(Ids(queues[a])) && forall i :: 0 <= i < |queues[a]| ==> Ids(queues[a])[i] < nextConn
  }

  /** All of the invariant but the agreement of the counts. */
  ghost predicate ShapeOf(fds: map<Slot, Entry>, cages: set<nat>, pipes: map<PipeRef, Pipe>, sockets: map<nat, Socket>,
                          nextPipe: nat, nextConn: nat, nextSocket: nat, pending: seq<Snapshot>,
                          flight: map<nat, Entry>, held: Holding, queues: map<string, seq<Pending>>,
                          line: map<nat, string>)
  {
    && TablesOk(fds, cages, pipes.Keys, sockets.Keys)
    && FlightOk(flight, pending, pipes.Keys, sockets.Keys)
    && PipesOk(pipes)
    && NumbersOk(pipes.Keys, sockets.Keys, nextPipe, nextConn, nextSocket)
    && SocketsOk(sockets, pipes.Keys)
    && OwnersOk(held, fds, sockets, flight, line)
    && WiredOk(sockets) && HalfWiredOk(sockets, line)
    && QueuesOk(queues, line) && LineOk(line, pipes.Keys, nextConn)
    && OrderOk(queues, nextConn)
  }

  // ------------------------------------------------------------------
  // Elementary changes to tables and owners
  // ------------------------------------------------------------------

  lemma OwnersRemove(held: Holding, fds: map<Slot, Entry>, sockets: map<nat, Socket>, flight: map<nat, Entry>,
                     line: map<nat, string>, s: Slot)
    requires OwnersOk(held, fds, sockets, flight, line) && s in fds && s.Live?
    ensures s in held && held[s] == Ends(sockets, fds[s])
    ensures OwnersOk(held - {s}, fds - {s}, sockets, flight, line)
  {
    assert SlotOk(s, held, fds, sockets, flight, line);
    forall t ensures SlotOk(t, held - {s}, fds - {s}, sockets, flight, line) {
      assert SlotOk(t, held, fds, sockets, flight, line);
    }
  }

  lemma OwnersAdd(held: Holding, fds: map<Slot, Entry>, sockets: map<nat, Socket>, flight: map<nat, Entry>,
                  line: map<nat, string>, s: Slot, e: Entry)
    requires OwnersOk(held, fds, sockets, flight, line) && s !in fds && s.Live?
    ensures s !in held
    ensures OwnersOk(held[s := Ends(sockets, e)], fds[s := e], sockets, flight, line)
  {
    assert SlotOk(s, held, fds, sockets, flight, line);
    var h, f := held[s := Ends(sockets, e)], fds[s := e];
    forall t ensures SlotOk(t, h, f, sockets, flight, line) {
      assert SlotOk(t, held, fds, sockets, flight, line);
    }
  }

  lemma OwnersRewrite(held: Holding, fds: map<Slot, Entry>, sockets: map<nat, Socket>, flight: map<nat, Entry>,
                      line: map<nat, string>, s: Slot, e: Entry)
    requires OwnersOk(held, fds, sockets, flight, line) && s in fds && s.Live?
    requires Ends(sockets, e) == Ends(sockets, fds[s])
    ensures OwnersOk(held, fds[s := e], sockets, flight, line)
  {
    var f := fds[s := e];
    forall t ensures SlotOk(t, held, f, sockets, flight, line) {
      assert SlotOk(t, held, fds, sockets, flight, line);
    }
  }

  /** An inherited entry leaves the flight for a table slot. */
  lemma OwnersLand(held: Holding, fds: map<Slot, Entry>, sockets: map<nat, Socket>, flight: map<nat, Entry>,
                   line: map<nat, string>, fd: nat, s: Slot)
    requires OwnersOk(held, fds, sockets, flight, line) && fd in flight && s !in fds && s.Live?
    ensures InFlight(fd) in held && s !in held && held[InFlight(fd)] == Ends(sockets, flight[fd])
    ensures OwnersOk((held - {InFlight(fd)})[s := held[InFlight(fd)]], fds[s := flight[fd]], sockets, flight - {fd},
                     line)
  {
    assert SlotOk(s, held, fds, sockets, flight, line);
    assert SlotOk(InFlight(fd), held, fds, sockets, flight, line);
    var h, f, g := (held - {InFlight(fd)})[s := held[InFlight(fd)]], fds[s := flight[fd]], flight - {fd};
    forall t ensures SlotOk(t, h, f, sockets, g, line) {
      assert SlotOk(t, held, fds, sockets, flight, line);
    }
  }

  lemma OwnersTakeOff(held: Holding, fds: map<Slot, Entry>, sockets: map<nat, Socket>, flight: map<nat, Entry>,
                      line: map<nat, string>, fd: nat, e: Entry)
    requires OwnersOk(held, fds, sockets, flight, line) && fd !in flight
    ensures InFlight(fd) !in held
    ensures OwnersOk(held[InFlight(fd) := Ends(sockets, e)], fds, sockets, flight[fd := e], line)
  {
    assert SlotOk(InFlight(fd), held, fds, sockets, flight, line);
    var h, g := held[InFlight(fd) := Ends(sockets, e)], flight[fd := e];
    forall t ensures SlotOk(t, h, fds, sockets, g, line) {
      assert SlotOk(t, held, fds, sockets, flight, line);
    }
  }

  lemma OwnersAbort(held: Holding, fds: map<Slot, Entry>, sockets: map<nat, Socket>, flight: map<nat, Entry>,
                    line: map<nat, string>, fd: nat)
    requires OwnersOk(held, fds, sockets, flight, line) && fd in flight
    ensures InFlight(fd) in held && held[InFlight(fd)] == Ends(sockets, flight[fd])
    ensures OwnersOk(held - {InFlight(fd)}, fds, sockets, flight - {fd}, line)
  {
    assert SlotOk(InFlight(fd), held, fds, sockets, flight, line);
    forall t ensures SlotOk(t, held - {InFlight(fd)}, fds, sockets, flight - {fd}, line) {
      assert SlotOk(t, held, fds, sockets, flight, line);
    }
  }

  lemma SameEnds(sockets: map<nat, Socket>, refs: set<PipeRef>, d: Entry, e: Entry)
    requires d.kind == e.kind && d.underfd == e.underfd && IsReadEnd(d.flags) == IsReadEnd(e.flags)
    ensures Ends(sockets, d) == Ends(sockets, e)
    ensures Refers(d, refs, sockets.Keys) == Refers(e, refs, sockets.Keys)
  {
  }

  lemma SocketRefers(e: Entry, refs: set<PipeRef>, ids: set<nat>)
    requires e.kind.SocketFd? && e.underfd in ids
    ensures Refers(e, refs, ids)
  {
  }

  lemma TablesAdd(fds: map<Slot, Entry>, cages: set<nat>, refs: set<PipeRef>, ids: set<nat>, s: Slot, e: Entry)
    requires TablesOk(fds, cages, refs, ids) && s.Live? && s.cage in cages && Refers(e, refs, ids)
    ensures TablesOk(fds[s := e], cages, refs, ids)
  {
  }

  lemma TablesRemove(fds: map<Slot, Entry>, cages: set<nat>, refs: set<PipeRef>, ids: set<nat>, s: Slot)
    requires TablesOk(fds, cages, refs, ids)
    ensures TablesOk(fds - {s}, cages, refs, ids)
  {
  }

  /** Only counts move, and an EOF latch only goes up. */
  ghost predicate Recounted(a: map<PipeRef, Pipe>, b: map<PipeRef, Pipe>) {
    && a.Keys == b.Keys
    && forall r :: r in a ==> a[r].data == b[r].data && a[r].cap == b[r].cap && (a[r].eof ==> b[r].eof)
  }

  lemma RecountedRefl(a: map<PipeRef, Pipe>)
    ensures Recounted(a, a)
  {
  }

  /** As `Recounted`, but there may be new pipes, with nothing in them. */
  ghost predicate Grown(a: map<PipeRef, Pipe>, b: map<PipeRef, Pipe>) {
    && a.Keys <= b.Keys
    && (forall r :: r in a ==> a[r].data == b[r].data && a[r].cap == b[r].cap && (a[r].eof ==> b[r].eof))
    && forall r :: r in b && r !in a ==> b[r].data == []
  }

  lemma RecountedGrown(a: map<PipeRef, Pipe>, b: map<PipeRef, Pipe>)
    requires Recounted(a, b)
    ensures Grown(a, b)
  {
  }

  lemma GrownTrans(a: map<PipeRef, Pipe>, b: map<PipeRef, Pipe>, c: map<PipeRef, Pipe>)
    requires Grown(a, b) && Grown(b, c)
    ensures Grown(a, c)
  {
  }

  lemma NewPipesGrown(pipes: map<PipeRef, Pipe>, made: set<PipeRef>, cap: nat)
    requires made !! pipes.Keys
    ensures Grown(pipes, WithPipes(pipes, made, cap))
  {
  }

  lemma RecountedTrans(a: map<PipeRef, Pipe>, b: map<PipeRef, Pipe>, c: map<PipeRef, Pipe>)
    requires Recounted(a, b) && Recounted(b, c)
    ensures Recounted(a, c)
  {
  }

  lemma RecountedOnward(a: map<PipeRef, Pipe>, b: map<PipeRef, Pipe>)
    requires Recounted(a, b)
    ensures AllOnward(a, b) && (PipesOk(a) ==> PipesOk(b))
  {
    forall r | r in a ensures r in b && Onward(a[r], b[r]) {
      assert b[r].data == a[r].data[0..];
    }
  }

  lemma GrownOnward(a: map<PipeRef, Pipe>, b: map<PipeRef, Pipe>)
    requires Grown(a, b) && PipesOk(b)
    ensures AllOnward(a, b)
  {
  }

  lemma BumpedRecounted(pipes: map<PipeRef, Pipe>, ends: set<End>)
    ensures Recounted(pipes, Bumped(pipes, ends)) && Bumped(pipes, ends).Keys == pipes.Keys
    ensures PipesOk(pipes) ==> PipesOk(Bumped(pipes, ends))
  {
    assert Bumped(pipes, ends).Keys == pipes.Keys;
  }

  lemma DroppedRecounted(pipes: map<PipeRef, Pipe>, ends: set<End>)
    requires forall r :: r in pipes ==> Droppable(r, pipes[r], ends)
    ensures Recounted(pipes, Dropped(pipes, ends)) && Dropped(pipes, ends).Keys == pipes.Keys
    ensures PipesOk(pipes) ==> PipesOk(Dropped(pipes, ends))
  {
    assert Dropped(pipes, ends).Keys == pipes.Keys;
  }

  // ------------------------------------------------------------------
  // Merging an inherited table
  // ------------------------------------------------------------------

  function FdsOf(fds: map<Slot, Entry>, cage: nat): set<nat> {
    set s | s in fds && s.Live? && s.cage == cage :: s.fd
  }

  lemma FdsOfAt(fds: map<Slot, Entry>, cage: nat, fd: nat)
    ensures fd in FdsOf(fds, cage) <==> Live(cage, fd) in fds
  {
    if Live(cage, fd) in fds {
      assert Live(cage, fd).fd == fd;
    }
  }

  /** One cage's table. */
  function TableOf(fds: map<Slot, Entry>, cage: nat): map<nat, Entry> {
    map fd | fd in FdsOf(fds, cage) && Live(cage, fd) in fds :: fds[Live(cage, fd)]
  }

  lemma TableOfAt(fds: map<Slot, Entry>, cage: nat, fd: nat)
    ensures fd in TableOf(fds, cage) <==> Live(cage, fd) in fds
    ensures fd in TableOf(fds, cage) ==> TableOf(fds, cage)[fd] == fds[Live(cage, fd)]
  {
    FdsOfAt(fds, cage, fd);
  }

  /** `cage` gets the entries of `table` at the descriptors it does not use. */
  function Merged(fds: map<Slot, Entry>, cage: nat, table: map<nat, Entry>): map<Slot, Entry> {
    var slots := set fd | fd in table :: Live(cage, fd);
    map s | s in fds.Keys + slots :: if s in fds then fds[s] else table[s.fd]
  }

  /** The inherited entries whose references are already counted. */
  ghost function Landing(fds: map<Slot, Entry>, flight: map<nat, Entry>, cage: nat, table: map<nat, Entry>): set<nat> {
    set fd | fd in table && Live(cage, fd) !in fds && Counted(flight, fd, table[fd])
  }

  /** Every entry that a merge would install is counted already, or stands for no pipe end. */
  ghost predicate CleanMerge(fds: map<Slot, Entry>, flight: map<nat, Entry>, sockets: map<nat, Socket>,
                             cage: nat, table: map<nat, Entry>) {
    forall fd :: fd in table ==>
      || Live(cage, fd) in fds
      || Counted(flight, fd, table[fd])
      || Ends(sockets, table[fd]) == {}
  }

  /**
   The order of the child's first lookup and the parent's copy does not matter. A child
   without a table gets the same one from the snapshot and from the copy; and once it has
   it, as long as it closes nothing, the parent's merge changes nothing: redirections
   survive and the other inherited entries are the parent's.
   */
  lemma ForkConfluent(fds: map<Slot, Entry>, parent: nat, child: nat, later: map<Slot, Entry>)
    requires forall fd :: Live(child, fd) !in fds
    requires Merged(fds, child, TableOf(fds, parent)).Keys <= later.Keys
    ensures TableOf(Merged(fds, child, TableOf(fds, parent)), child) == TableOf(fds, parent)
    ensures Merged(later, child, TableOf(fds, parent)) == later
  {
    hide TableOf;
    MergedCopy(fds, parent, child);
    var table := TableOf(fds, parent);
    forall fd | fd in table ensures Live(child, fd) in later {
      assert Live(child, fd) in Merged(fds, child, table);
    }
    MergedFull(later, child, table);
  }

  lemma MergedCopy(fds: map<Slot, Entry>, parent: nat, child: nat)
    requires forall fd :: Live(child, fd) !in fds
    ensures TableOf(Merged(fds, child, TableOf(fds, parent)), child) == TableOf(fds, parent)
  {
    hide TableOf;
    var table := TableOf(fds, parent);
    var early := Merged(fds, child, table);
    forall fd
      ensures fd in TableOf(early, child) <==> fd in table
      ensures fd in table ==> TableOf(early, child)[fd] == table[fd]
    {
      TableOfAt(early, child, fd);
      assert Live(child, fd) !in fds;
    }
    assert TableOf(early, child) == table;
  }

  lemma MergedFull(fds: map<Slot, Entry>, cage: nat, table: map<nat, Entry>)
    requires forall fd :: fd in table ==> Live(cage, fd) in fds
    ensures Merged(fds, cage, table) == fds
  {
  }

  /** What a lookup of `fd` leaves in the tables: a miss installs the newest pending snapshot. */
  function Looked(fds: map<Slot, Entry>, pending: seq<Snapshot>, cage: nat, fd: nat): map<Slot, Entry> {
    if Live(cage, fd) in fds || pending == [] then fds
    else Merged(fds, cage, pending[|pending| - 1].table)
  }

  /** What the descriptor tables hand out: the lowest unused descriptor from `from` on. */
  ghost predicate LowestFree(fds: map<Slot, Entry>, cage: nat, from: nat, r: int) {
    && r >= from && Live(cage, r) !in fds
    && forall k :: from <= k < r ==> Live(cage, k) in fds
  }

  lemma FreeSlot(fds: map<Slot, Entry>, cage: nat, from: nat, r: int)
    requires LowestFree(fds, cage, from, r)
    ensures r >= 0 && Live(cage, r) !in fds
  {
  }

  /** The lookup installs nothing, or nothing that is not counted. */
  ghost predicate CleanLookup(fds: map<Slot, Entry>, pending: seq<Snapshot>, flight: map<nat, Entry>,
                              sockets: map<nat, Socket>, cage: nat, fd: nat) {
    || Live(cage, fd) in fds
    || pending == []
    || CleanMerge(fds, flight, sockets, cage, pending[|pending| - 1].table)
  }

  lemma MergedTwice(fds: map<Slot, Entry>, cage: nat, table: map<nat, Entry>)
    ensures Merged(Merged(fds, cage, table), cage, table) == Merged(fds, cage, table)
  {
  }

  lemma MergedNothing(fds: map<Slot, Entry>, cage: nat)
    ensures Merged(fds, cage, map[]) == fds
  {
  }

  lemma MergedOne(fds: map<Slot, Entry>, cage: nat, table: map<nat, Entry>, fd: nat, e: Entry)
    requires fd !in table
    ensures Merged(fds, cage, table[fd := e])
            == if Live(cage, fd) in fds then Merged(fds, cage, table) else Merged(fds, cage, table)[Live(cage, fd) := e]
  {
    var big, small := Merged(fds, cage, table[fd := e]), Merged(fds, cage, table);
    if Live(cage, fd) in fds {
      assert big == small;
    } else {
      assert big == small[Live(cage, fd) := e];
    }
  }

  lemma TablesGrow(fds: map<Slot, Entry>, cages: set<nat>, refs: set<PipeRef>, ids: set<nat>, cage: nat)
    requires TablesOk(fds, cages, refs, ids)
    ensures TablesOk(fds, cages + {cage}, refs, ids)
  {
  }

  predicate Counted(flight: map<nat, Entry>, fd: nat, e: Entry) {
    fd in flight && flight[fd] == e
  }

  ghost function ExtraSlots(fds: map<Slot, Entry>, flight: map<nat, Entry>, cage: nat,
                            table: map<nat, Entry>): set<Slot>
  {
    set fd | fd in table && Live(cage, fd) !in fds && !Counted(flight, fd, table[fd]) :: Live(cage, fd)
  }

  /** The owners that a merge adds and nobody has counted. */
  ghost function Extra(fds: map<Slot, Entry>, flight: map<nat, Entry>, sockets: map<nat, Socket>,
                       cage: nat, table: map<nat, Entry>): Holding {
    map s | s in ExtraSlots(fds, flight, cage, table) && s.fd in table :: Ends(sockets, table[s.fd])
  }

  lemma ExtraNothing(fds: map<Slot, Entry>, flight: map<nat, Entry>, sockets: map<nat, Socket>, cage: nat)
    ensures Extra(fds, flight, sockets, cage, map[]) == map[]
    ensures Landing(fds, flight, cage, map[]) == {}
  {
  }

  lemma ExtraSlotsOne(fds: map<Slot, Entry>, flight: map<nat, Entry>, cage: nat, table: map<nat, Entry>, fd: nat,
                      e: Entry)
    requires fd !in table
    ensures ExtraSlots(fds, flight, cage, table[fd := e])
            == ExtraSlots(fds, flight, cage, table)
               + if Live(cage, fd) in fds || Counted(flight, fd, e) then {} else {Live(cage, fd)}
    ensures Landing(fds, flight, cage, table[fd := e])
            == Landing(fds, flight, cage, table) + if Live(cage, fd) !in fds && Counted(flight, fd, e) then {fd} else {}
  {
    hide Counted;
    var more := table[fd := e];
    forall k | k in table ensures k in more && more[k] == table[k] {}
  }

  lemma ExtraSlotsNamed(fds: map<Slot, Entry>, flight: map<nat, Entry>, cage: nat, table: map<nat, Entry>)
    ensures forall s :: s in ExtraSlots(fds, flight, cage, table) ==> s.Live? && s.cage == cage && s.fd in table
  {
  }

  lemma ExtraOne(fds: map<Slot, Entry>, flight: map<nat, Entry>, sockets: map<nat, Socket>,
                 cage: nat, table: map<nat, Entry>, fd: nat, e: Entry)
    requires fd !in table
    ensures Extra(fds, flight, sockets, cage, table[fd := e])
            == var x := Extra(fds, flight, sockets, cage, table);
               if Live(cage, fd) in fds || Counted(flight, fd, e) then x else x[Live(cage, fd) := Ends(sockets, e)]
  {
    hide Ends, Counted, ExtraSlots;
    ExtraSlotsOne(fds, flight, cage, table, fd, e);
    ExtraSlotsNamed(fds, flight, cage, table);
    var big, x := Extra(fds, flight, sockets, cage, table[fd := e]), Extra(fds, flight, sockets, cage, table);
    if Live(cage, fd) in fds || Counted(flight, fd, e) {
      assert big.Keys == x.Keys;
    } else {
      assert big.Keys == x.Keys + {Live(cage, fd)};
    }
  }

  lemma MergedMiss(fds: map<Slot, Entry>, flight: map<nat, Entry>, cage: nat, table: map<nat, Entry>, fd: nat)
    requires fd !in table
    ensures Live(cage, fd) in Merged(fds, cage, table) <==> Live(cage, fd) in fds
    ensures fd !in Landing(fds, flight, cage, table)
  {
  }

  /** The part of a table that is no longer to do. */
  function Rest(table: map<nat, Entry>, todo: set<nat>): map<nat, Entry> {
    map fd | fd in table && fd !in todo :: table[fd]
  }

  lemma RestStep(table: map<nat, Entry>, todo: set<nat>, fd: nat)
    requires fd in todo && todo <= table.Keys
    ensures fd !in Rest(table, todo) && Rest(table, todo - {fd}) == Rest(table, todo)[fd := table[fd]]
  {
  }

  lemma RestEnds(table: map<nat, Entry>)
    ensures Rest(table, table.Keys) == map[] && Rest(table, {}) == table
  {
  }

  lemma SumMove(counted: Holding, extra: Holding, s: Slot, t: Slot)
    requires counted.Keys !! extra.Keys && s in counted && t !in counted && t !in extra
    ensures var v := counted[s];
            && (counted + extra)[s] == v
            && ((counted + extra) - {s})[t := v] == (counted - {s})[t := v] + extra
            && (counted - {s})[t := v].Keys !! extra.Keys
  {
  }

  lemma SumAdd(counted: Holding, extra: Holding, s: Slot, ends: set<End>)
    requires counted.Keys !! extra.Keys && s !in counted + extra
    ensures (counted + extra)[s := ends] == counted + extra[s := ends]
    ensures counted.Keys !! extra[s := ends].Keys
  {
  }

  lemma FlightShrinks(flight: map<nat, Entry>, pending: seq<Snapshot>, refs: set<PipeRef>, ids: set<nat>, fd: nat)
    requires FlightOk(flight, pending, refs, ids)
    ensures FlightOk(flight - {fd}, pending, refs, ids)
  {
  }

  lemma ExtraClean(fds: map<Slot, Entry>, flight: map<nat, Entry>, sockets: map<nat, Socket>,
                   cage: nat, table: map<nat, Entry>)
    ensures var x := Extra(fds, flight, sockets, cage, table);
            (forall s :: s in x ==> x[s] == {}) <==> CleanMerge(fds, flight, sockets, cage, table)
  {
    var x := Extra(fds, flight, sockets, cage, table);
    forall fd | fd in table && Live(cage, fd) !in fds && !Counted(flight, fd, table[fd])
      ensures Live(cage, fd) in x && x[Live(cage, fd)] == Ends(sockets, table[fd])
    {
    }
  }

  lemma ExtraKnown(fds: map<Slot, Entry>, flight: map<nat, Entry>, sockets: map<nat, Socket>,
                   cage: nat, table: map<nat, Entry>, pipes: map<PipeRef, Pipe>)
    requires forall fd :: fd in table ==> Refers(table[fd], pipes.Keys, sockets.Keys)
    requires SocketsOk(sockets, pipes.Keys)
    ensures Known(Extra(fds, flight, sockets, cage, table), pipes)
  {
  }

  lemma MergedIsClean(fds: map<Slot, Entry>, flight: map<nat, Entry>, sockets: map<nat, Socket>, cage: nat,
                      table: map<nat, Entry>)
    ensures CleanMerge(Merged(fds, cage, table), flight, sockets, cage, table)
  {
  }

  /** Standard input, output and error, below `n`, as runtime descriptors. */
  function Stdio(n: nat): map<nat, Entry> {
    map fd | 0 <= fd < n :: Entry(Kernel, fd, false, 0)
  }

  lemma StdioStep(n: nat)
    ensures Stdio(0) == map[]
    ensures n !in Stdio(n) && Stdio(n + 1) == Stdio(n)[n := Entry(Kernel, n, false, 0)]
  {
  }

  /** The tables once `cage` is known: inherited, or fresh with the standard descriptors reserved. */
  function Ensured(fds: map<Slot, Entry>, cages: set<nat>, pending: seq<Snapshot>, cage: nat): map<Slot, Entry> {
    if cage in cages then fds
    else if pending != [] then Merged(fds, cage, pending[|pending| - 1].table)
    else Merged(fds, cage, Stdio(3))
  }

  ghost predicate CleanEnsure(fds: map<Slot, Entry>, cages: set<nat>, pending: seq<Snapshot>, flight: map<nat, Entry>,
                              sockets: map<nat, Socket>, cage: nat) {
    || cage in cages
    || pending == []
    || CleanMerge(fds, flight, sockets, cage, pending[|pending| - 1].table)
  }

  function SlotsOf(fds: map<Slot, Entry>, cage: nat): set<Slot> {
    set s | s in fds && s.Live? && s.cage == cage
  }

  function CloexecOf(fds: map<Slot, Entry>, cage: nat): set<Slot> {
    set s | s in fds && s.Live? && s.cage == cage && fds[s].cloexec
  }

  /**
   The tables after exec(), entry by entry: what was not marked stays, what was marked is gone
   or makes room for a reserved descriptor, 0, 1 and 2 are taken, and nobody else's table moves.
   */
  ghost predicate ExecView(before: map<Slot, Entry>, after: map<Slot, Entry>, cage: nat) {
    && (forall k :: Live(cage, k) in before && !before[Live(cage, k)].cloexec ==>
          Live(cage, k) in after && after[Live(cage, k)] == before[Live(cage, k)])
    && (forall k: nat :: Live(cage, k) in after
                         && (Live(cage, k) !in before || before[Live(cage, k)].cloexec) ==>
          k < 3 && after[Live(cage, k)] == Entry(Kernel, k, false, 0))
    && (forall k: nat :: k < 3 ==> Live(cage, k) in after)
    && OthersKeep(before, after, cage)
  }

  /** Every other cage's table is as it was. */
  ghost predicate OthersKeep(before: map<Slot, Entry>, after: map<Slot, Entry>, cage: nat) {
    forall s: Slot :: !(s.Live? && s.cage == cage) ==>
      (s in after <==> s in before) && (s in before ==> after[s] == before[s])
  }

  lemma ExecViews(fds: map<Slot, Entry>, cage: nat)
    ensures ExecView(fds, Merged(fds - CloexecOf(fds, cage), cage, Stdio(3)), cage)
  {
    hide Merged;
    var kept := fds - CloexecOf(fds, cage);
    var after := Merged(kept, cage, Stdio(3));
    forall s: Slot
      ensures s in after <==> s in kept || (s.Live? && s.cage == cage && s.fd < 3)
      ensures s in kept ==> s in after && after[s] == kept[s]
      ensures s in after && s !in kept ==> s.Live? && after[s] == Entry(Kernel, s.fd, false, 0)
    {
      MergedAt(kept, cage, Stdio(3), s);
    }
    forall s: Slot | !(s.Live? && s.cage == cage) ensures s in kept <==> s in fds {
    }
  }

  lemma MergedAt(fds: map<Slot, Entry>, cage: nat, table: map<nat, Entry>, s: Slot)
    ensures var after := Merged(fds, cage, table);
            && (s in after <==> s in fds || (s.Live? && s.cage == cage && s.fd in table))
            && (s in fds ==> s in after && after[s] == fds[s])
            && (s in after && s !in fds ==> s.Live? && s.cage == cage && s.fd in table && after[s] == table[s.fd])
  {
  }

  /** The tables after exit(): exactly the cage's entries are gone. */
  ghost predicate ExitView(before: map<Slot, Entry>, after: map<Slot, Entry>, cage: nat) {
    (forall k :: Live(cage, k) !in after) && OthersKeep(before, after, cage)
  }

  lemma ExitViews(fds: map<Slot, Entry>, cage: nat)
    ensures ExitView(fds, fds - SlotsOf(fds, cage), cage)
  {
  }

  /** The tables after clone(): the child has its parent's descriptors and no others. */
  ghost predicate CloneView(before: map<Slot, Entry>, after: map<Slot, Entry>, parent: nat, child: nat) {
    && (forall k :: Live(child, k) in after <==> Live(parent, k) in before)
    && (forall k :: Live(child, k) in after ==> after[Live(child, k)] == before[Live(parent, k)])
    && OthersKeep(before, after, child)
  }

  lemma CloneViews(fds: map<Slot, Entry>, parent: nat, child: nat)
    requires forall k :: Live(child, k) !in fds
    ensures CloneView(fds, Merged(fds, child, TableOf(fds, parent)), parent, child)
  {
    hide Merged, TableOf;
    var table := TableOf(fds, parent);
    forall k
      ensures Live(child, k) in Merged(fds, child, table) <==> Live(parent, k) in fds
      ensures Live(parent, k) in fds ==> Merged(fds, child, table)[Live(child, k)] == fds[Live(parent, k)]
    {
      TableOfAt(fds, parent, k);
      MergedAt(fds, child, table, Live(child, k));
      assert Live(child, k) !in fds;
    }
    forall s: Slot | !(s.Live? && s.cage == child)
      ensures s in Merged(fds, child, table) <==> s in fds
      ensures s in fds ==> Merged(fds, child, table)[s] == fds[s]
    {
      MergedAt(fds, child, table, s);
    }
  }

  lemma CloexecOfIn(fds: map<Slot, Entry>, cage: nat)
    ensures CloexecOf(fds, cage) <= fds.Keys
  {
  }

  lemma TablesLeave(fds: map<Slot, Entry>, cages: set<nat>, refs: set<PipeRef>, ids: set<nat>, cage: nat)
    requires TablesOk(fds, cages, refs, ids) && forall fd :: Live(cage, fd) !in fds
    ensures TablesOk(fds, cages - {cage}, refs, ids)
  {
    forall s | s in fds ensures s.Live? && s.cage in cages - {cage} {
      assert s == Live(s.cage, s.fd);
    }
  }

  /** The owners and the rings determine every count and every latch. */
  lemma AgreeDetermines(h: Holding, a: map<PipeRef, Pipe>, b: map<PipeRef, Pipe>)
    requires Agree(h, a) && Agree(h, b) && Recounted(a, b)
    ensures a == b
  {
    forall r | r in a ensures a[r] == b[r] {
      assert AgreeOn(h, r, a[r]) && AgreeOn(h, r, b[r]);
    }
  }

  lemma OwnersDetermined(h: Holding, k: Holding, fds: map<Slot, Entry>, sockets: map<nat, Socket>,
                         flight: map<nat, Entry>, line: map<nat, string>)
    requires OwnersOk(h, fds, sockets, flight, line) && OwnersOk(k, fds, sockets, flight, line)
    ensures h == k
  {
    forall s ensures (s in h <==> s in k) && (s in h ==> h[s] == k[s]) {
      assert SlotOk(s, h, fds, sockets, flight, line) && SlotOk(s, k, fds, sockets, flight, line);
    }
  }

  lemma FlightGrows(flight: map<nat, Entry>, pending: seq<Snapshot>, refs: set<PipeRef>, ids: set<nat>, fd: nat,
                    e: Entry)
    requires FlightOk(flight, pending, refs, ids) && Refers(e, refs, ids)
    ensures FlightOk(flight[fd := e], pending, refs, ids)
  {
  }

  lemma FlightEntry(flight: map<nat, Entry>, pending: seq<Snapshot>, refs: set<PipeRef>, ids: set<nat>, fd: nat)
    requires FlightOk(flight, pending, refs, ids) && fd in flight
    ensures Refers(flight[fd], refs, ids)
  {
  }

  lemma FlightSnapshot(flight: map<nat, Entry>, refs: set<PipeRef>, ids: set<nat>, snap: Snapshot,
                       pending: seq<Snapshot>)
    requires FlightOk(flight, pending, refs, ids)
    requires forall fd :: fd in snap.table ==> Refers(snap.table[fd], refs, ids)
    ensures FlightOk(flight, [snap], refs, ids) && FlightOk(flight, [], refs, ids)
  {
  }

  lemma NoSlots(fds: map<Slot, Entry>, cages: set<nat>, refs: set<PipeRef>, ids: set<nat>, cage: nat)
    requires TablesOk(fds, cages, refs, ids) && cage !in cages
    ensures forall fd :: Live(cage, fd) !in fds
  {
  }

  function Restrict(table: map<nat, Entry>, todo: set<nat>): map<nat, Entry> {
    map fd | fd in table && fd in todo :: table[fd]
  }

  lemma RestrictAll(table: map<nat, Entry>)
    ensures Restrict(table, table.Keys) == table && Restrict(table, {}) == map[]
  {
  }

  lemma RestrictStep(table: map<nat, Entry>, todo: set<nat>, fd: nat)
    requires fd in todo && todo <= table.Keys
    ensures fd in Restrict(table, todo) && Restrict(table, todo)[fd] == table[fd]
    ensures Restrict(table, todo - {fd}) == Restrict(table, todo) - {fd}
  {
  }

  /** With the parent's table still the snapshot and nothing landed, every entry of the copy is counted. */
  lemma SnapshotIsClean(fds: map<Slot, Entry>, flight: map<nat, Entry>, sockets: map<nat, Socket>, child: nat)
    ensures CleanMerge(fds, flight, sockets, child, flight)
    ensures (forall fd :: Live(child, fd) !in fds) ==> flight - Landing(fds, flight, child, flight) == map[]
  {
  }

  // ------------------------------------------------------------------
  // Changes to one pipe
  // ------------------------------------------------------------------

  lemma EndsKnown(sockets: map<nat, Socket>, refs: set<PipeRef>, e: Entry)
    requires Refers(e, refs, sockets.Keys) && SocketsOk(sockets, refs)
    ensures forall x :: x in Ends(sockets, e) ==> x.pipe in refs
  {
  }

  /** One reference given back with no owner gone. */
  lemma ShortCount(h: Holding, pipes: map<PipeRef, Pipe>, r: PipeRef)
    requires Agree(h, pipes) && r in pipes && pipes[r].writeRefs > 0
    ensures !Agree(h, pipes[r := DecrWrite(pipes[r])])
  {
    assert AgreeOn(h, r, pipes[r]);
    assert !AgreeOn(h, r, pipes[r := DecrWrite(pipes[r])][r]);
  }

  lemma PipesUpdate(pipes: map<PipeRef, Pipe>, r: PipeRef, p: Pipe)
    requires PipesOk(pipes) && r in pipes && Fits(p)
    ensures pipes[r := p].Keys == pipes.Keys && PipesOk(pipes[r := p])
  {
    assert pipes[r := p].Keys == pipes.Keys;
  }

  /** Bytes move, references do not. */
  lemma RingUpdate(h: Holding, pipes: map<PipeRef, Pipe>, r: PipeRef, p: Pipe)
    requires Agree(h, pipes) && PipesOk(pipes) && r in pipes && Fits(p) && Onward(pipes[r], p)
    requires p.writeRefs == pipes[r].writeRefs && p.readRefs == pipes[r].readRefs && p.eof == pipes[r].eof
    ensures Agree(h, pipes[r := p]) && PipesOk(pipes[r := p]) && pipes[r := p].Keys == pipes.Keys
            && AllOnward(pipes, pipes[r := p])
  {
    PipesUpdate(pipes, r, p);
    OnwardRefl(pipes);
    var after := pipes[r := p];
    forall q | q in after ensures AgreeOn(h, q, after[q]) {
      assert AgreeOn(h, q, pipes[q]);
    }
  }

  lemma OpenOnward(p: Pipe, q: Pipe)
    requires !p.eof && q.cap == p.cap && Fits(q)
    ensures Onward(p, q)
  {
  }

  ghost function LookedFlight(fds: map<Slot, Entry>, flight: map<nat, Entry>, pending: seq<Snapshot>, cage: nat,
                              fd: nat): map<nat, Entry>
  {
    if Live(cage, fd) in fds || pending == [] then flight
    else flight - Landing(fds, flight, cage, pending[|pending| - 1].table)
  }

  ghost function EnsuredFlight(fds: map<Slot, Entry>, flight: map<nat, Entry>, cages: set<nat>, pending: seq<Snapshot>,
                               cage: nat): map<nat, Entry> {
    if cage in cages || pending == [] then flight
    else flight - Landing(fds, flight, cage, pending[|pending| - 1].table)
  }

  lemma LandedTwice(fds: map<Slot, Entry>, flight: map<nat, Entry>, cage: nat, table: map<nat, Entry>)
    ensures Landing(Merged(fds, cage, table), flight, cage, table) == {}
  {
  }

  // ------------------------------------------------------------------
  // A child that runs before its parent's clone() returns
  // ------------------------------------------------------------------

  /**
   The child has every descriptor its parent had, the untouched ones with the parent's
   entries, and nobody else's table has changed.
   */
  ghost predicate ChildView(fds0: map<Slot, Entry>, fds: map<Slot, Entry>, parent: nat, child: nat, touched: set<nat>) {
    && (forall fd :: Live(parent, fd) in fds0 ==> Live(child, fd) in fds)
    && (forall fd :: Live(parent, fd) in fds0 && fd !in touched ==> fds[Live(child, fd)] == fds0[Live(parent, fd)])
    && (forall s: Slot :: s.Live? && s.cage != child ==> (s in fds <==> s in fds0) && (s in fds ==> fds[s] == fds0[s]))
  }

  lemma ViewInstall(fds0: map<Slot, Entry>, parent: nat, child: nat)
    requires forall fd :: Live(child, fd) !in fds0
    ensures ChildView(fds0, Merged(fds0, child, TableOf(fds0, parent)), parent, child, {})
  {
    var after := Merged(fds0, child, TableOf(fds0, parent));
    forall fd | Live(parent, fd) in fds0
      ensures Live(child, fd) in after && after[Live(child, fd)] == fds0[Live(parent, fd)]
    {
      TableOfAt(fds0, parent, fd);
    }
  }

  lemma NothingMerged(fds: map<Slot, Entry>, flight: map<nat, Entry>, sockets: map<nat, Socket>, cage: nat,
                      table: map<nat, Entry>)
    requires forall fd :: fd in table ==> Live(cage, fd) in fds
    ensures Merged(fds, cage, table) == fds && Landing(fds, flight, cage, table) == {}
    ensures CleanMerge(fds, flight, sockets, cage, table)
  {
    hide Ends, Counted;
  }

  lemma ViewMerges(fds0: map<Slot, Entry>, fds: map<Slot, Entry>, flight: map<nat, Entry>, sockets: map<nat, Socket>,
                   parent: nat, child: nat, touched: set<nat>)
    requires ChildView(fds0, fds, parent, child, touched)
    ensures Merged(fds, child, TableOf(fds0, parent)) == fds
    ensures CleanMerge(fds, flight, sockets, child, TableOf(fds0, parent))
    ensures Landing(fds, flight, child, TableOf(fds0, parent)) == {}
  {
    hide TableOf, Ends, Counted;
    var table := TableOf(fds0, parent);
    forall fd | fd in table ensures Live(child, fd) in fds {
      TableOfAt(fds0, parent, fd);
    }
    NothingMerged(fds, flight, sockets, child, table);
  }

  /** A descriptor free in the child's table was free in the parent's. */
  lemma ViewNew(fds0: map<Slot, Entry>, fds: map<Slot, Entry>, parent: nat, child: nat, touched: set<nat>, r: nat)
    requires ChildView(fds0, fds, parent, child, touched) && Live(child, r) !in fds
    ensures Live(parent, r) !in fds0
  {
  }

  lemma ViewPut(fds0: map<Slot, Entry>, fds: map<Slot, Entry>, parent: nat, child: nat, touched: set<nat>, r: nat,
                e: Entry)
    requires ChildView(fds0, fds, parent, child, touched)
    ensures ChildView(fds0, fds[Live(child, r) := e], parent, child, touched + {r})
  {
  }

  /** A redirection that misses every inherited descriptor is not worth a mention. */
  lemma ViewWider(fds0: map<Slot, Entry>, fds: map<Slot, Entry>, parent: nat, child: nat, touched: set<nat>,
                  wider: set<nat>)
    requires ChildView(fds0, fds, parent, child, touched)
    requires forall k :: k in touched && Live(parent, k) in fds0 ==> k in wider
    ensures ChildView(fds0, fds, parent, child, wider)
  {
  }

  /** Whenever the snapshot is merged, the child ends with all of it and every reference has landed. */
  lemma ViewSeen(fds0: map<Slot, Entry>, fds: map<Slot, Entry>, flight: map<nat, Entry>, sockets: map<nat, Socket>,
                 cages: set<nat>, parent: nat, child: nat, touched: set<nat>)
    requires forall k :: Live(child, k) !in fds0
    requires if child in cages then flight == map[] && ChildView(fds0, fds, parent, child, touched)
             else flight == TableOf(fds0, parent) && fds == fds0 && touched == {}
    ensures var table := TableOf(fds0, parent);
            && CleanMerge(fds, flight, sockets, child, table)
            && flight - Landing(fds, flight, child, table) == map[]
            && ChildView(fds0, Merged(fds, child, table), parent, child, touched)
  {
    hide TableOf, ChildView, Merged, CleanMerge, Landing, Ends;
    if child in cages {
      ViewMerges(fds0, fds, flight, sockets, parent, child, touched);
    } else {
      ViewInstall(fds0, parent, child);
      SnapshotIsClean(fds0, flight, sockets, child);
    }
  }

  lemma ViewEnsured(fds0: map<Slot, Entry>, fds: map<Slot, Entry>, flight: map<nat, Entry>, sockets: map<nat, Socket>,
                    cages: set<nat>, parent: nat, child: nat, touched: set<nat>, pending: seq<Snapshot>)
    requires forall k :: Live(child, k) !in fds0
    requires pending == [Snapshot(parent, TableOf(fds0, parent))]
    requires if child in cages then flight == map[] && ChildView(fds0, fds, parent, child, touched)
             else flight == TableOf(fds0, parent) && fds == fds0 && touched == {}
    ensures CleanEnsure(fds, cages, pending, flight, sockets, child)
    ensures ChildView(fds0, Ensured(fds, cages, pending, child), parent, child, touched)
    ensures EnsuredFlight(fds, flight, cages, pending, child) == map[]
  {
    hide TableOf, ChildView, Merged, CleanMerge, Landing, Ends;
    ViewSeen(fds0, fds, flight, sockets, cages, parent, child, touched);
  }

  lemma ViewLooked(fds0: map<Slot, Entry>, fds: map<Slot, Entry>, flight: map<nat, Entry>, sockets: map<nat, Socket>,
                   cages: set<nat>, parent: nat, child: nat, touched: set<nat>, pending: seq<Snapshot>, fd: nat)
    requires forall k :: Live(child, k) !in fds0
    requires pending == [Snapshot(parent, TableOf(fds0, parent))]
    requires if child in cages then flight == map[] && ChildView(fds0, fds, parent, child, touched)
             else flight == TableOf(fds0, parent) && fds == fds0 && touched == {}
    ensures CleanLookup(fds, pending, flight, sockets, child, fd)
    ensures Live(child, fd) in fds ==> child in cages
    ensures ChildView(fds0, Looked(fds, pending, child, fd), parent, child, touched)
    ensures LookedFlight(fds, flight, pending, child, fd) == map[]
  {
    hide TableOf, ChildView, Merged, CleanMerge, Landing, Ends;
    ViewSeen(fds0, fds, flight, sockets, cages, parent, child, touched);
  }

  // ------------------------------------------------------------------
  // Lookups that a snapshot was not meant for
  // ------------------------------------------------------------------

  /** Once every reference has landed, a merge is clean exactly where the child still has what it inherited. */
  lemma CleanWhenKept(fds: map<Slot, Entry>, sockets: map<nat, Socket>, child: nat, table: map<nat, Entry>)
    ensures CleanMerge(fds, map[], sockets, child, table)
            <==> forall fd :: fd in table && Live(child, fd) !in fds ==> Ends(sockets, table[fd]) == {}
  {
    hide Ends;
  }

  /** The child's first lookup, of any descriptor. */
  lemma EarlyLook(fds: map<Slot, Entry>, flight: map<nat, Entry>, sockets: map<nat, Socket>, pending: seq<Snapshot>,
                  child: nat, fd: nat)
    requires |pending| == 1 && pending[0].table == flight && forall k :: Live(child, k) !in fds
    ensures CleanLookup(fds, pending, flight, sockets, child, fd)
    ensures Looked(fds, pending, child, fd) == Merged(fds, child, flight)
    ensures LookedFlight(fds, flight, pending, child, fd) == map[]
  {
    hide Merged, CleanMerge, Landing;
    SnapshotIsClean(fds, flight, sockets, child);
  }

  lemma EarlyCloseMerges(fds0: map<Slot, Entry>, fds: map<Slot, Entry>, sockets: map<nat, Socket>, parent: nat,
                         child: nat, fd: nat)
    requires (forall k :: Live(child, k) !in fds0)
    requires fds == Merged(fds0, child, TableOf(fds0, parent)) - {Live(child, fd)}
    ensures var table := TableOf(fds0, parent);
            && Merged(fds, child, table) == Merged(fds0, child, table)
            && Landing(fds, map[], child, table) == {}
            && (CleanMerge(fds, map[], sockets, child, table)
                <==> Live(parent, fd) !in fds0 || Ends(sockets, fds0[Live(parent, fd)]) == {})
  {
    hide Ends, TableOf;
    var table := TableOf(fds0, parent);
    TableOfAt(fds0, parent, fd);
    CleanWhenKept(fds, sockets, child, table);
    assert Merged(fds, child, table) == Merged(fds0, child, table);
    forall k | k in table && k != fd ensures Live(child, k) in fds {
    }
  }

  lemma StrangerLook(fds: map<Slot, Entry>, flight: map<nat, Entry>, sockets: map<nat, Socket>, pending: seq<Snapshot>,
                     stranger: nat, fd: nat)
    requires |pending| == 1 && pending[0].table == flight && Live(stranger, fd) !in fds
    ensures CleanLookup(fds, pending, flight, sockets, stranger, fd)
    ensures Looked(fds, pending, stranger, fd) == Merged(fds, stranger, flight)
    ensures LookedFlight(fds, flight, pending, stranger, fd) == flight - Landing(fds, flight, stranger, flight)
  {
    hide Merged, CleanMerge, Landing;
    SnapshotIsClean(fds, flight, sockets, stranger);
  }

  /** The stranger has the table where it had nothing, and the parent's is as it was. */
  lemma StrangerTables(fds0: map<Slot, Entry>, parent: nat, child: nat, stranger: nat)
    requires (forall k :: Live(child, k) !in fds0) && child != stranger
    ensures var table := TableOf(fds0, parent);
            var fds := Merged(fds0, stranger, table);
            && TableOf(fds, parent) == table && (forall k :: Live(child, k) !in fds)
            && (forall k :: Live(stranger, k) !in fds0 ==> (Live(stranger, k) in fds <==> k in table))
            && (forall k :: Live(stranger, k) !in fds0 && k in table ==> fds[Live(stranger, k)] == table[k])
  {
    hide TableOf;
    var table := TableOf(fds0, parent);
    var fds := Merged(fds0, stranger, table);
    forall k
      ensures k in TableOf(fds, parent) <==> k in table
      ensures k in table ==> TableOf(fds, parent)[k] == table[k]
    {
      TableOfAt(fds, parent, k);
      TableOfAt(fds0, parent, k);
    }
    assert TableOf(fds, parent) == table;
  }

  /** What the stranger took is no longer counted for the child; the rest lands there. */
  lemma LeftForChild(fds0: map<Slot, Entry>, fds: map<Slot, Entry>, sockets: map<nat, Socket>, child: nat,
                     stranger: nat, table: map<nat, Entry>)
    requires forall k :: Live(child, k) !in fds
    ensures var left := table - Landing(fds0, table, stranger, table);
            && left - Landing(fds, left, child, table) == map[]
            && (CleanMerge(fds, left, sockets, child, table)
                <==> forall k :: k in table && Live(stranger, k) !in fds0 ==> Ends(sockets, table[k]) == {})
  {
    hide Ends;
    var left := table - Landing(fds0, table, stranger, table);
    forall k | k in table ensures Counted(left, k, table[k]) <==> Live(stranger, k) in fds0 {
    }
  }

  lemma StrangerMerges(fds0: map<Slot, Entry>, sockets: map<nat, Socket>, parent: nat, child: nat, stranger: nat,
                       fd: nat)
    requires (forall k :: Live(child, k) !in fds0) && child != stranger && child != parent
             && Live(stranger, fd) !in fds0
    ensures var table := TableOf(fds0, parent);
            var fds := Merged(fds0, stranger, table);
            var left := table - Landing(fds0, table, stranger, table);
            && TableOf(fds, parent) == table && (Live(stranger, fd) in fds <==> fd in table)
            && (fd in table ==> fds[Live(stranger, fd)] == table[fd])
            && left - Landing(fds, left, child, table) == map[]
            && (CleanMerge(fds, left, sockets, child, table)
                <==> forall k :: k in table && Live(stranger, k) !in fds0 ==> Ends(sockets, table[k]) == {})
  {
    hide Ends, TableOf, Merged, Landing, CleanMerge;
    StrangerTables(fds0, parent, child, stranger);
    var table := TableOf(fds0, parent);
    LeftForChild(fds0, Merged(fds0, stranger, table), sockets, child, stranger, table);
  }
}
