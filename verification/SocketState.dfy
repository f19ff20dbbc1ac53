/** How the invariant of the ipc-grate survives new pipes, new sockets, connect() and accept(). */
module SocketStates {
  import opened Bytes
  import opened Pipes
  import opened Holdings
  import opened Descriptors
  import opened IpcStates

  const ENOTSOCK := -88
  const ECONNREFUSED := -111

  // ------------------------------------------------------------------
  // New pipes and new sockets
  // ------------------------------------------------------------------

  lemma KnownHeld(held: Holding, fds: map<Slot, Entry>, cages: set<nat>, sockets: map<nat, Socket>,
                  flight: map<nat, Entry>,
                  pending: seq<Snapshot>, line: map<nat, string>, pipes: map<PipeRef, Pipe>, nextConn: nat)
    requires OwnersOk(held, fds, sockets, flight, line)
    requires TablesOk(fds, cages, pipes.Keys, sockets.Keys) && FlightOk(flight, pending, pipes.Keys, sockets.Keys)
    requires SocketsOk(sockets, pipes.Keys) && LineOk(line, pipes.Keys, nextConn)
    ensures Known(held, pipes)
  {
    forall s, e | s in held && e in held[s] ensures e.pipe in pipes {
      assert SlotOk(s, held, fds, sockets, flight, line);
    }
  }

  lemma WithPipesOnward(pipes: map<PipeRef, Pipe>, made: set<PipeRef>, cap: nat)
    requires made !! pipes.Keys
    ensures WithPipes(pipes, made, cap).Keys == pipes.Keys + made
    ensures PipesOk(pipes) ==> PipesOk(WithPipes(pipes, made, cap))
    ensures AllOnward(pipes, WithPipes(pipes, made, cap))
  {
    OnwardRefl(pipes);
  }

  lemma NewPipeEntries(sockets: map<nat, Socket>, refs: set<PipeRef>, id: nat, flags: bv32)
    requires SocketsOk(sockets, refs)
    ensures Refers(ReadEntry(id, flags), refs + {Plain(id)}, sockets.Keys)
    ensures Refers(WriteEntry(id, flags), refs + {Plain(id)}, sockets.Keys)
    ensures SplitBetween({Plain(id)}, Ends(sockets, ReadEntry(id, flags)), Ends(sockets, WriteEntry(id, flags)))
    ensures SocketsOk(sockets, refs + {Plain(id)})
  {
    PipePairEnds(sockets, id, flags);
  }

  /** Everything that only asks for known names still holds when more names are known. */
  lemma Widen(fds: map<Slot, Entry>, cages: set<nat>, flight: map<nat, Entry>, pending: seq<Snapshot>,
              sockets: map<nat, Socket>, line: map<nat, string>, refs: set<PipeRef>, ids: set<nat>, nextConn: nat,
              refs': set<PipeRef>, ids': set<nat>, nextConn': nat)
    requires refs <= refs' && ids <= ids' && nextConn <= nextConn'
    ensures TablesOk(fds, cages, refs, ids) ==> TablesOk(fds, cages, refs', ids')
    ensures FlightOk(flight, pending, refs, ids) ==> FlightOk(flight, pending, refs', ids')
    ensures SocketsOk(sockets, refs) ==> SocketsOk(sockets, refs')
    ensures LineOk(line, refs, nextConn) ==> LineOk(line, refs', nextConn')
  {
  }

  lemma OrderWiden(queues: map<string, seq<Pending>>, nextConn: nat, nextConn': nat)
    requires OrderOk(queues, nextConn) && nextConn <= nextConn'
    ensures OrderOk(queues, nextConn')
  {
  }

  /** A socket that no descriptor names yet changes nobody's claim. */
  lemma OwnersNewSocket(held: Holding, fds: map<Slot, Entry>, cages: set<nat>, sockets: map<nat, Socket>,
                        flight: map<nat, Entry>, pending: seq<Snapshot>, line: map<nat, string>, refs: set<PipeRef>,
                        id: nat, sock: Socket)
    requires OwnersOk(held, fds, sockets, flight, line) && id !in sockets
    requires TablesOk(fds, cages, refs, sockets.Keys) && FlightOk(flight, pending, refs, sockets.Keys)
    ensures OwnersOk(held, fds, sockets[id := sock], flight, line)
  {
    var more := sockets[id := sock];
    forall t ensures SlotOk(t, held, fds, more, flight, line) {
      assert SlotOk(t, held, fds, sockets, flight, line);
    }
  }

  /** The two pipes of a connection made now. */
  function ConnPair(n: nat): set<PipeRef> {
    {Conn(n), Conn(n + 1)}
  }

  /** A socket that sends on `n` and receives on `m`. */
  function Plugged(base: Socket, n: nat, m: nat, remote: Option<string>): Socket {
    base.(state := Connected, send := Some(Conn(n)), recv := Some(Conn(m)), remote := remote)
  }

  lemma NumbersConn(refs: set<PipeRef>, ids: set<nat>, nextPipe: nat, nextConn: nat, nextSocket: nat)
    requires NumbersOk(refs, ids, nextPipe, nextConn, nextSocket)
    ensures ConnPair(nextConn) !! refs && nextSocket !in ids && nextSocket + 1 !in ids && Plain(nextPipe) !in refs
    ensures NumbersOk(refs + ConnPair(nextConn), ids, nextPipe, nextConn + 2, nextSocket)
    ensures NumbersOk(refs, ids + {nextSocket}, nextPipe, nextConn, nextSocket + 1)
    ensures NumbersOk(refs + {Plain(nextPipe)}, ids, nextPipe + 1, nextConn, nextSocket)
  {
  }

  /** A socket without pipes, or at both ends of fresh pipes, breaks no wiring. */
  lemma WiredFresh(sockets: map<nat, Socket>, line: map<nat, string>, refs: set<PipeRef>, nextConn: nat, id: nat)
    requires WiredOk(sockets) && HalfWiredOk(sockets, line) && SocketsOk(sockets, refs) && id !in sockets
    ensures var more := sockets[id := FreshSocket]; WiredOk(more) && HalfWiredOk(more, line) && SocketsOk(more, refs)
  {
    hide WiredOk, HalfWiredOk;
    WiredIdle(sockets, id);
    HalfWiredIdle(sockets, line, id);
  }

  lemma WiredIdle(sockets: map<nat, Socket>, id: nat)
    requires WiredOk(sockets) && id !in sockets
    ensures WiredOk(sockets[id := FreshSocket])
  {
  }

  lemma HalfWiredIdle(sockets: map<nat, Socket>, line: map<nat, string>, id: nat)
    requires HalfWiredOk(sockets, line) && id !in sockets
    ensures HalfWiredOk(sockets[id := FreshSocket], line)
  {
  }

  /**
   Socket `id` may be plugged into `x` and `y` when at most its one peer is plugged into them, the
   other way round.
   */
  ghost predicate Unplugged(sockets: map<nat, Socket>, id: nat, x: PipeRef, y: PipeRef) {
    forall j :: j in sockets && j != id ==>
      && sockets[j].send != Some(x) && sockets[j].recv != Some(y)
      && (sockets[j].send == Some(y) <==> sockets[j].recv == Some(x))
  }

  lemma WiredPlug(sockets: map<nat, Socket>, id: nat, sock: Socket, x: PipeRef, y: PipeRef)
    requires WiredOk(sockets) && sock.send == Some(x) && sock.recv == Some(y) && x != y
    requires Unplugged(sockets, id, x, y)
    ensures WiredOk(sockets[id := sock])
  {
  }

  lemma HalfWiredPlug(sockets: map<nat, Socket>, line: map<nat, string>, id: nat, sock: Socket)
    requires HalfWiredOk(sockets, line)
    requires forall n :: n in line ==>
               && sock.send != Some(Conn(n + 1)) && sock.recv != Some(Conn(n))
               && (sock.send == Some(Conn(n)) <==> sock.recv == Some(Conn(n + 1)))
    ensures HalfWiredOk(sockets[id := sock], line)
  {
  }

  lemma SocketsPlug(sockets: map<nat, Socket>, refs: set<PipeRef>, id: nat, sock: Socket, x: nat, y: nat)
    requires SocketsOk(sockets, refs) && sock.send == Some(Conn(x)) && sock.recv == Some(Conn(y))
    requires Conn(x) in refs && Conn(y) in refs
    ensures SocketsOk(sockets[id := sock], refs)
  {
  }

  /** Pipes outside `refs` are in nobody's socket. */
  lemma UnknownPipes(sockets: map<nat, Socket>, refs: set<PipeRef>, id: nat, x: PipeRef, y: PipeRef)
    requires SocketsOk(sockets, refs) && x !in refs && y !in refs
    ensures Unplugged(sockets, id, x, y)
  {
  }

  lemma WiredPair(sockets: map<nat, Socket>, line: map<nat, string>, refs: set<PipeRef>, n: nat, i: nat, j: nat)
    requires WiredOk(sockets) && HalfWiredOk(sockets, line) && SocketsOk(sockets, refs) && LineOk(line, refs, n)
    requires ConnPair(n) !! refs && i !in sockets && j !in sockets && i != j
    ensures var more := sockets[i := Plugged(FreshSocket, n, n + 1, None)][j := Plugged(FreshSocket, n + 1, n, None)];
            WiredOk(more) && HalfWiredOk(more, line) && SocketsOk(more, refs + ConnPair(n))
  {
    var s, t := Plugged(FreshSocket, n, n + 1, None), Plugged(FreshSocket, n + 1, n, None);
    assert Conn(n) in ConnPair(n) && Conn(n + 1) in ConnPair(n);
    UnknownPipes(sockets, refs, i, Conn(n), Conn(n + 1));
    UnknownPipes(sockets, refs, j, Conn(n + 1), Conn(n));
    assert SocketsOk(sockets, refs + ConnPair(n));
    assert forall m :: m in line ==> m + 1 < n;
    {
      hide WiredOk, HalfWiredOk, SocketsOk, LineOk;
      WiredPlug(sockets, i, s, Conn(n), Conn(n + 1));
      HalfWiredPlug(sockets, line, i, s);
      SocketsPlug(sockets, refs + ConnPair(n), i, s, n, n + 1);
      WiredPlug(sockets[i := s], j, t, Conn(n + 1), Conn(n));
      HalfWiredPlug(sockets[i := s], line, j, t);
      SocketsPlug(sockets[i := s], refs + ConnPair(n), j, t, n + 1, n);
    }
  }

  // ------------------------------------------------------------------
  // connect()
  // ------------------------------------------------------------------

  /** The descriptors, live or in flight, that name socket `id`. */
  ghost function Users(fds: map<Slot, Entry>, flight: map<nat, Entry>, id: nat): set<Slot> {
    (set s | s in fds && fds[s].kind.SocketFd? && fds[s].underfd == id)
    + (set fd | fd in flight && flight[fd].kind.SocketFd? && flight[fd].underfd == id :: InFlight(fd))
  }

  /** The holding after the users of a socket all stand for `ends` instead. */
  ghost function Reclaimed(held: Holding, users: set<Slot>, ends: set<End>): Holding {
    map s | s in held :: if s in users then ends else held[s]
  }

  ghost function AcceptorEnds(n: nat): set<End> {
    {WriteEnd(Conn(n + 1)), ReadEnd(Conn(n))}
  }

  ghost function ConnectorEnds(n: nat): set<End> {
    {WriteEnd(Conn(n)), ReadEnd(Conn(n + 1))}
  }

  lemma OwnersConnect(held: Holding, fds: map<Slot, Entry>, cages: set<nat>, refs: set<PipeRef>,
                      sockets: map<nat, Socket>,
                      flight: map<nat, Entry>, line: map<nat, string>, id: nat, sock: Socket, n: nat, addr: string)
    requires OwnersOk(held, fds, sockets, flight, line) && id in sockets && n !in line
    requires TablesOk(fds, cages, refs, sockets.Keys)
    requires SocketEnds(sock) == ConnectorEnds(n)
    ensures Queued(n) !in held
    ensures OwnersOk(Reclaimed(held, Users(fds, flight, id), ConnectorEnds(n))[Queued(n) := AcceptorEnds(n)],
                     fds, sockets[id := sock], flight, line[n := addr])
  {
    var users := Users(fds, flight, id);
    var h := Reclaimed(held, users, ConnectorEnds(n))[Queued(n) := AcceptorEnds(n)];
    var more, longer := sockets[id := sock], line[n := addr];
    assert SlotOk(Queued(n), held, fds, sockets, flight, line);
    forall t ensures SlotOk(t, h, fds, more, flight, longer) {
      assert SlotOk(t, held, fds, sockets, flight, line);
    }
  }

  lemma UsersClaim(held: Holding, fds: map<Slot, Entry>, cages: set<nat>, refs: set<PipeRef>, sockets: map<nat, Socket>,
                   flight: map<nat, Entry>, line: map<nat, string>, id: nat)
    requires OwnersOk(held, fds, sockets, flight, line) && id in sockets && TablesOk(fds, cages, refs, sockets.Keys)
    ensures forall u :: u in Users(fds, flight, id) ==> u in held && held[u] == SocketEnds(sockets[id])
  {
    forall u | u in Users(fds, flight, id) ensures u in held && held[u] == SocketEnds(sockets[id]) {
      assert SlotOk(u, held, fds, sockets, flight, line);
    }
  }

  /**
   connect() gives each of its two new pipes one reference for the connector. The counts stay
   right exactly when one descriptor names the socket and the socket had no pipes before.
   */
  lemma ConnectAgrees(h: Holding, pipes: map<PipeRef, Pipe>, users: set<Slot>, before: set<End>, n: nat, cap: nat)
    requires Agree(h, pipes) && Known(h, pipes) && ConnPair(n) !! pipes.Keys
    requires users != {} && Queued(n) !in h
    requires forall u :: u in users ==> u in h && h[u] == before
    ensures Agree(Reclaimed(h, users, ConnectorEnds(n))[Queued(n) := AcceptorEnds(n)],
                  WithPipes(pipes, ConnPair(n), cap))
            <==> |users| == 1 && before == {}
  {
    var k := Reclaimed(h, users, ConnectorEnds(n))[Queued(n) := AcceptorEnds(n)];
    var pipes' := WithPipes(pipes, ConnPair(n), cap);
    if before != {} {
      ConnectLosesEnds(h, pipes, users, before, n, cap);
    } else if |users| != 1 {
      ConnectorsCounted(h, pipes, users, n);
      assert !AgreeOn(k, Conn(n), pipes'[Conn(n)]);
    } else {
      var u :| u in users;
      assert users == {u} by { Singleton(users, u); }
      ConnectOnce(h, pipes, u, n, cap);
    }
  }

  lemma Singleton(users: set<Slot>, u: Slot)
    requires |users| == 1 && u in users
    ensures users == {u}
  {
    assert |users - {u}| == 0;
    assert users - {u} == {};
  }

  lemma ConnectorsCounted(h: Holding, pipes: map<PipeRef, Pipe>, users: set<Slot>, n: nat)
    requires Known(h, pipes) && ConnPair(n) !! pipes.Keys && users <= h.Keys && Queued(n) !in h
    ensures Holders(Reclaimed(h, users, ConnectorEnds(n))[Queued(n) := AcceptorEnds(n)], WriteEnd(Conn(n))) == users
  {
    var k := Reclaimed(h, users, ConnectorEnds(n))[Queued(n) := AcceptorEnds(n)];
    forall s | s in h && s !in users ensures WriteEnd(Conn(n)) !in k[s] {
      assert k[s] == h[s];
    }
  }

  lemma ConnectLosesEnds(h: Holding, pipes: map<PipeRef, Pipe>, users: set<Slot>, before: set<End>, n: nat, cap: nat)
    requires Agree(h, pipes) && Known(h, pipes) && ConnPair(n) !! pipes.Keys
    requires users != {} && Queued(n) !in h && before != {}
    requires forall u :: u in users ==> u in h && h[u] == before
    ensures !Agree(Reclaimed(h, users, ConnectorEnds(n))[Queued(n) := AcceptorEnds(n)],
                   WithPipes(pipes, ConnPair(n), cap))
  {
    var k := Reclaimed(h, users, ConnectorEnds(n))[Queued(n) := AcceptorEnds(n)];
    var e :| e in before;
    var u :| u in users;
    assert u in Holders(h, e) && e.pipe in pipes;
    assert e !in ConnectorEnds(n) && e !in AcceptorEnds(n) by {
      assert e.pipe !in ConnPair(n);
    }
    var was, now := Holders(h, e), Holders(k, e);
    assert now <= was && u !in now;
    FewerHolders(now, was, u);
    assert AgreeOn(h, e.pipe, pipes[e.pipe]);
    assert !AgreeOn(k, e.pipe, WithPipes(pipes, ConnPair(n), cap)[e.pipe]);
  }

  lemma FewerHolders(a: set<Slot>, b: set<Slot>, u: Slot)
    requires a <= b && u in b && u !in a
    ensures |a| < |b|
  {
    assert b == a + (b - a);
    assert |b| == |a| + |b - a|;
    assert b - a != {};
  }

  lemma ConnectOnce(h: Holding, pipes: map<PipeRef, Pipe>, u: Slot, n: nat, cap: nat)
    requires Agree(h, pipes) && Known(h, pipes) && ConnPair(n) !! pipes.Keys
    requires u in h && h[u] == {} && Queued(n) !in h
    ensures Agree(Reclaimed(h, {u}, ConnectorEnds(n))[Queued(n) := AcceptorEnds(n)], WithPipes(pipes, ConnPair(n), cap))
  {
    var less := h - {u};
    forall r | r in pipes ensures AgreeOn(less, r, pipes[r]) {
      HoldersRemove(h, u, WriteEnd(r));
      HoldersRemove(h, u, ReadEnd(r));
      assert AgreeOn(h, r, pipes[r]);
    }
    NewPipesKeepAgree(less, pipes, ConnPair(n), u, ConnectorEnds(n), Queued(n), AcceptorEnds(n), cap);
    assert less[u := ConnectorEnds(n)] == Reclaimed(h, {u}, ConnectorEnds(n));
  }

  lemma WiredConnect(sockets: map<nat, Socket>, line: map<nat, string>, refs: set<PipeRef>, n: nat, id: nat,
                     remote: Option<string>, addr: string)
    requires WiredOk(sockets) && HalfWiredOk(sockets, line) && SocketsOk(sockets, refs) && LineOk(line, refs, n)
    requires ConnPair(n) !! refs && id in sockets && n % 2 == 0
    ensures var more := sockets[id := Plugged(sockets[id], n, n + 1, remote)];
            && WiredOk(more) && HalfWiredOk(more, line[n := addr]) && SocketsOk(more, refs + ConnPair(n))
            && n !in line && LineOk(line[n := addr], refs + ConnPair(n), n + 2)
            && SocketEnds(more[id]) == ConnectorEnds(n)
  {
    var sock := Plugged(sockets[id], n, n + 1, remote);
    assert Conn(n) in ConnPair(n) && Conn(n + 1) in ConnPair(n);
    assert forall m :: m in line ==> m + 1 < n;
    LineConnect(line, refs, n, addr);
    HalfWiredConnect(sockets, line, refs, n, id, sock, addr);
    UnknownPipes(sockets, refs, id, Conn(n), Conn(n + 1));
    assert SocketsOk(sockets, refs + ConnPair(n));
    {
      hide WiredOk, HalfWiredOk, SocketsOk, LineOk;
      WiredPlug(sockets, id, sock, Conn(n), Conn(n + 1));
      SocketsPlug(sockets, refs + ConnPair(n), id, sock, n, n + 1);
    }
  }

  lemma LineConnect(line: map<nat, string>, refs: set<PipeRef>, n: nat, addr: string)
    requires LineOk(line, refs, n) && n % 2 == 0
    ensures n !in line && LineOk(line[n := addr], refs + ConnPair(n), n + 2)
  {
  }

  lemma HalfWiredConnect(sockets: map<nat, Socket>, line: map<nat, string>, refs: set<PipeRef>, n: nat, id: nat,
                         sock: Socket, addr: string)
    requires HalfWiredOk(sockets, line) && SocketsOk(sockets, refs) && LineOk(line, refs, n) && ConnPair(n) !! refs
    requires sock.send == Some(Conn(n)) && sock.recv == Some(Conn(n + 1))
    ensures HalfWiredOk(sockets[id := sock], line[n := addr])
  {
    hide SocketsOk, ConnPair;
    HalfWiredPlug(sockets, line, id, sock);
    var more, longer := sockets[id := sock], line[n := addr];
    NobodyElse(sockets, refs, n, id, sock);
    forall m, i | m in longer && i in more
      ensures more[i].send != Some(Conn(m + 1)) && more[i].recv != Some(Conn(m))
      ensures more[i].send == Some(Conn(m)) <==> more[i].recv == Some(Conn(m + 1))
    {
      if m != n {
        assert m in line;
      }
    }
  }

  lemma NobodyElse(sockets: map<nat, Socket>, refs: set<PipeRef>, n: nat, id: nat, sock: Socket)
    requires SocketsOk(sockets, refs) && ConnPair(n) !! refs
    requires sock.send == Some(Conn(n)) && sock.recv == Some(Conn(n + 1))
    ensures var more := sockets[id := sock];
            forall i :: i in more ==>
              && more[i].send != Some(Conn(n + 1)) && more[i].recv != Some(Conn(n))
              && (more[i].send == Some(Conn(n)) <==> more[i].recv == Some(Conn(n + 1)))
  {
    assert Conn(n) in ConnPair(n) && Conn(n + 1) in ConnPair(n);
  }

  function At<T>(m: map<string, seq<T>>, a: string): seq<T> {
    if a in m then m[a] else []
  }

  lemma IdsAppend(q: seq<Pending>, c: Pending)
    ensures Ids(q + [c]) == Ids(q) + [IdOf(c.toListener)]
  {
  }

  lemma IdsRest(q: seq<Pending>)
    requires q != []
    ensures Ids(q) == [IdOf(q[0].toListener)] + Ids(q[1..])
  {
  }

  lemma QueuesConnect(queues: map<string, seq<Pending>>, line: map<nat, string>, a: string, c: Pending, n: nat)
    requires QueuesOk(queues, line) && n !in line
    requires c.toListener == Conn(n) && c.toConnector == Conn(n + 1)
    ensures QueuesOk(queues[a := At(queues, a) + [c]], line[n := a])
  {
    var q := At(queues, a);
    IdsAppend(q, c);
    var more, longer := queues[a := q + [c]], line[n := a];
    forall b, i | b in more && 0 <= i < |more[b]| ensures WaitsAt(more[b][i], longer, b) {
      if b == a && i == |q| {
        assert more[b][i] == c;
      } else {
        assert WaitsAt(queues[b][i], line, b);
      }
    }
    forall m | m in longer ensures longer[m] in more && m in Ids(more[longer[m]]) {
      if m == n {
        assert Ids(more[a])[|q|] == n;
      } else {
        assert m in Ids(queues[line[m]]);
        if line[m] == a {
          assert m in Ids(q);
        }
      }
    }
  }

  lemma OrderConnect(queues: map<string, seq<Pending>>, a: string, c: Pending, n: nat)
    requires OrderOk(queues, n) && IdOf(c.toListener) == n
    ensures OrderOk(queues[a := At(queues, a) + [c]], n + 2)
  {
    IdsAppend(At(queues, a), c);
    OrderWiden(queues, n, n + 2);
    var longer := Ids(At(queues, a) + [c]);
    forall i, j | 0 <= i < j < |longer| ensures longer[i] < longer[j] {
      assert longer[i] == Ids(At(queues, a))[i];
    }
  }

  lemma QueuesAccept(queues: map<string, seq<Pending>>, line: map<nat, string>, a: string, nextConn: nat)
    requires QueuesOk(queues, line) && OrderOk(queues, nextConn)
    requires a in queues && queues[a] != []
    ensures var c := queues[a][0];
            var n := IdOf(c.toListener);
            && c.toListener == Conn(n) && c.toConnector == Conn(n + 1) && n in line
            && QueuesOk(queues[a := queues[a][1..]], line - {n})
            && OrderOk(queues[a := queues[a][1..]], nextConn)
  {
    var q := queues[a];
    var n := IdOf(q[0].toListener);
    assert WaitsAt(queues[a][0], line, a);
    IdsRest(q);
    HeadIsOut(queues, a, nextConn);
    var less, shorter := queues[a := q[1..]], line - {n};
    forall b, i | b in less && 0 <= i < |less[b]| ensures WaitsAt(less[b][i], shorter, b) {
      if b == a {
        assert less[b][i] == q[i + 1] && WaitsAt(queues[a][i + 1], line, a);
        assert Ids(q[1..])[i] == IdOf(q[i + 1].toListener);
      } else {
        assert WaitsAt(queues[b][i], line, b);
      }
    }
    forall m | m in shorter ensures shorter[m] in less && m in Ids(less[shorter[m]]) {
      assert m in Ids(queues[line[m]]);
    }
    OrderRest(queues, a, nextConn);
  }

  lemma OrderRest(queues: map<string, seq<Pending>>, a: string, nextConn: nat)
    requires OrderOk(queues, nextConn) && a in queues && queues[a] != []
    ensures OrderOk(queues[a := queues[a][1..]], nextConn)
  {
    var q := queues[a];
    IdsRest(q);
    forall i | 0 <= i < |q| - 1 ensures Ids(q[1..])[i] == Ids(q)[i + 1] {
    }
  }

  /** The connection at the head of a queue is nowhere else in it. */
  lemma HeadIsOut(queues: map<string, seq<Pending>>, a: string, nextConn: nat)
    requires OrderOk(queues, nextConn) && a in queues && queues[a] != []
    ensures IdOf(queues[a][0].toListener) !in Ids(queues[a][1..])
  {
    var q := queues[a];
    IdsRest(q);
    forall i | 0 <= i < |q| - 1 ensures Ids(q[1..])[i] > IdOf(q[0].toListener) {
      assert Ids(q)[0] < Ids(q)[i + 1];
    }
  }

  lemma WiredAccept(sockets: map<nat, Socket>, line: map<nat, string>, refs: set<PipeRef>, nextConn: nat, n: nat,
                    id: nat,
                    remote: Option<string>)
    requires WiredOk(sockets) && HalfWiredOk(sockets, line) && SocketsOk(sockets, refs) && LineOk(line, refs, nextConn)
    requires n in line && id !in sockets
    ensures var more := sockets[id := Plugged(FreshSocket, n + 1, n, remote)];
            && WiredOk(more) && HalfWiredOk(more, line - {n})
            && SocketsOk(more, refs) && LineOk(line - {n}, refs, nextConn)
            && SocketEnds(more[id]) == AcceptorEnds(n)
  {
    hide WiredOk, HalfWiredOk, SocketsOk, LineOk, Unplugged;
    var sock := Plugged(FreshSocket, n + 1, n, remote);
    WaitingEndIsFree(sockets, line, n, id);
    LineAccept(line, refs, nextConn, n);
    WiredPlug(sockets, id, sock, Conn(n + 1), Conn(n));
    HalfWiredPlug(sockets, line - {n}, id, sock);
    SocketsPlug(sockets, refs, id, sock, n + 1, n);
  }

  lemma WaitingEndIsFree(sockets: map<nat, Socket>, line: map<nat, string>, n: nat, id: nat)
    requires HalfWiredOk(sockets, line) && n in line
    ensures Unplugged(sockets, id, Conn(n + 1), Conn(n)) && HalfWiredOk(sockets, line - {n})
  {
  }

  lemma LineAccept(line: map<nat, string>, refs: set<PipeRef>, nextConn: nat, n: nat)
    requires LineOk(line, refs, nextConn) && n in line
    ensures LineOk(line - {n}, refs, nextConn) && Conn(n) in refs && Conn(n + 1) in refs
    ensures forall m :: m in line - {n} ==> m != n + 1 && m + 1 != n
  {
  }

  lemma OwnersAccept(held: Holding, fds: map<Slot, Entry>, sockets: map<nat, Socket>, flight: map<nat, Entry>,
                     line: map<nat, string>, n: nat, s: Slot, e: Entry)
    requires OwnersOk(held, fds, sockets, flight, line) && n in line && s !in fds && s.Live?
    requires Ends(sockets, e) == AcceptorEnds(n)
    ensures Queued(n) in held && s !in held
    ensures OwnersOk((held - {Queued(n)})[s := held[Queued(n)]], fds[s := e], sockets, flight, line - {n})
  {
    assert SlotOk(s, held, fds, sockets, flight, line) && SlotOk(Queued(n), held, fds, sockets, flight, line);
    var h, f, l := (held - {Queued(n)})[s := held[Queued(n)]], fds[s := e], line - {n};
    forall t ensures SlotOk(t, h, f, sockets, flight, l) {
      assert SlotOk(t, held, fds, sockets, flight, line);
    }
  }

  /** A change of a socket that leaves its pipes alone leaves the invariant alone. */
  lemma Relabel(sockets: map<nat, Socket>, id: nat, sock: Socket, held: Holding, fds: map<Slot, Entry>,
                flight: map<nat, Entry>, line: map<nat, string>, refs: set<PipeRef>)
    requires id in sockets && sock.send == sockets[id].send && sock.recv == sockets[id].recv
    requires OwnersOk(held, fds, sockets, flight, line) && WiredOk(sockets) && HalfWiredOk(sockets, line)
             && SocketsOk(sockets, refs)
    ensures sockets[id := sock].Keys == sockets.Keys
    ensures OwnersOk(held, fds, sockets[id := sock], flight, line)
    ensures WiredOk(sockets[id := sock]) && HalfWiredOk(sockets[id := sock], line)
            && SocketsOk(sockets[id := sock], refs)
  {
    hide *;
    assert sockets[id := sock].Keys == sockets.Keys;
    RelabelOwners(sockets, id, sock, held, fds, flight, line);
    RelabelWires(sockets, id, sock, line, refs);
  }

  lemma RelabelOwners(sockets: map<nat, Socket>, id: nat, sock: Socket, held: Holding, fds: map<Slot, Entry>,
                      flight: map<nat, Entry>, line: map<nat, string>)
    requires id in sockets && sock.send == sockets[id].send && sock.recv == sockets[id].recv
    requires OwnersOk(held, fds, sockets, flight, line)
    ensures OwnersOk(held, fds, sockets[id := sock], flight, line)
  {
    var more := sockets[id := sock];
    forall t ensures SlotOk(t, held, fds, more, flight, line) {
      assert SlotOk(t, held, fds, sockets, flight, line);
    }
  }

  lemma RelabelWires(sockets: map<nat, Socket>, id: nat, sock: Socket, line: map<nat, string>, refs: set<PipeRef>)
    requires id in sockets && sock.send == sockets[id].send && sock.recv == sockets[id].recv
    requires WiredOk(sockets) && HalfWiredOk(sockets, line) && SocketsOk(sockets, refs)
    ensures WiredOk(sockets[id := sock]) && HalfWiredOk(sockets[id := sock], line)
            && SocketsOk(sockets[id := sock], refs)
  {
  }

  lemma NewSocketEntry(sockets: map<nat, Socket>, refs: set<PipeRef>, id: nat, e: Entry)
    requires e.kind.SocketFd? && e.underfd == id
    ensures Ends(sockets[id := FreshSocket], e) == {} && Refers(e, refs, sockets[id := FreshSocket].Keys)
    ensures sockets[id := FreshSocket].Keys == sockets.Keys + {id}
  {
  }

  lemma NewPairEntries(sockets: map<nat, Socket>, n: nat, i: nat, j: nat, e: Entry, f: Entry)
    requires e.kind.SocketFd? && e.underfd == i && f.kind.SocketFd? && f.underfd == j && i != j
    requires sockets[i := Plugged(FreshSocket, n, n + 1, None)][j := Plugged(FreshSocket, n + 1, n, None)] == sockets
    ensures SplitBetween(ConnPair(n), Ends(sockets, e), Ends(sockets, f))
  {
    assert sockets[i] == Plugged(FreshSocket, n, n + 1, None) && sockets[j] == Plugged(FreshSocket, n + 1, n, None);
  }

  lemma NumbersEven(refs: set<PipeRef>, ids: set<nat>, nextPipe: nat, nextConn: nat, nextSocket: nat)
    requires NumbersOk(refs, ids, nextPipe, nextConn, nextSocket)
    ensures nextConn % 2 == 0
  {
  }

  lemma UsersHas(fds: map<Slot, Entry>, flight: map<nat, Entry>, s: Slot, id: nat)
    requires s in fds && fds[s].kind.SocketFd? && fds[s].underfd == id
    ensures s in Users(fds, flight, id)
  {
  }

  lemma NoEndsIffUnconnected(sockets: map<nat, Socket>, refs: set<PipeRef>, id: nat)
    requires SocketsOk(sockets, refs) && id in sockets
    ensures SocketEnds(sockets[id]) == {} <==> sockets[id].send.None?
  {
    if sockets[id].send.Some? {
      assert WriteEnd(sockets[id].send.value) in SocketEnds(sockets[id]);
    }
  }

  lemma SocketEndsOf(sockets: map<nat, Socket>, e: Entry)
    requires e.kind.SocketFd? && e.underfd in sockets
    ensures Ends(sockets, e) == SocketEnds(sockets[e.underfd])
  {
  }

  /** The connector's own address, or nothing. */
  function Text(local: Option<string>): string {
    if local.Some? then local.value else ""
  }

  lemma ConnectShape(fds: map<Slot, Entry>, cages: set<nat>, pipes: map<PipeRef, Pipe>, sockets: map<nat, Socket>,
                     nextPipe: nat, n: nat, nextSocket: nat, pending: seq<Snapshot>, flight: map<nat, Entry>,
                     held: Holding, queues: map<string, seq<Pending>>, line: map<nat, string>,
                     id: nat, target: string, c: Pending, cap: nat)
    requires ShapeOf(fds, cages, pipes, sockets, nextPipe, n, nextSocket, pending, flight, held, queues, line)
    requires id in sockets && c.toListener == Conn(n) && c.toConnector == Conn(n + 1)
    ensures var more := WithPipes(pipes, ConnPair(n), cap);
            && ShapeOf(fds, cages, more, sockets[id := Plugged(sockets[id], n, n + 1, Some(target))], nextPipe, n + 2,
                       nextSocket,
                       pending, flight,
                       Reclaimed(held, Users(fds, flight, id), ConnectorEnds(n))[Queued(n) := AcceptorEnds(n)],
                       queues[target := At(queues, target) + [c]], line[n := target])
            && AllOnward(pipes, more)
  {
    hide TablesOk, FlightOk, PipesOk, NumbersOk, SocketsOk, OwnersOk, WiredOk, HalfWiredOk, QueuesOk, LineOk;
    hide OrderOk, Agree, Ends, Refers, AllOnward, Known, Users, ConnectorEnds, AcceptorEnds, Reclaimed, WithPipes;
    hide SocketEnds, ConnPair, Plugged, At;
    var sock := Plugged(sockets[id], n, n + 1, Some(target));
    NumbersConn(pipes.Keys, sockets.Keys, nextPipe, n, nextSocket);
    NumbersEven(pipes.Keys, sockets.Keys, nextPipe, n, nextSocket);
    WithPipesOnward(pipes, ConnPair(n), cap);
    WiredConnect(sockets, line, pipes.Keys, n, id, Some(target), target);
    assert sockets[id := sock].Keys == sockets.Keys;
    OwnersConnect(held, fds, cages, pipes.Keys, sockets, flight, line, id, sock, n, target);
    QueuesConnect(queues, line, target, c, n);
    IdOfConn(n);
    OrderConnect(queues, target, c, n);
    Widen(fds, cages, flight, pending, sockets, line, pipes.Keys, sockets.Keys, n, pipes.Keys + ConnPair(n),
          sockets.Keys, n + 2);
  }

  lemma IdOfConn(n: nat)
    ensures IdOf(Conn(n)) == n
  {
  }

  lemma AcceptShape(fds: map<Slot, Entry>, cages: set<nat>, pipes: map<PipeRef, Pipe>, sockets: map<nat, Socket>,
                    nextPipe: nat, nextConn: nat, id: nat, pending: seq<Snapshot>, flight: map<nat, Entry>,
                    held: Holding, queues: map<string, seq<Pending>>, line: map<nat, string>,
                    s: Slot, e: Entry, a: string)
    requires ShapeOf(fds, cages, pipes, sockets, nextPipe, nextConn, id, pending, flight, held, queues, line)
    requires s.Live? && s.cage in cages && s !in fds && e.kind.SocketFd? && e.underfd == id
    requires a in queues && queues[a] != [] && Agree(held, pipes)
    ensures var c := queues[a][0];
            var n := IdOf(c.toListener);
            && c.toListener == Conn(n) && c.toConnector == Conn(n + 1) && Queued(n) in held
            && var held' := (held - {Queued(n)})[s := held[Queued(n)]];
               && Agree(held', pipes)
               && ShapeOf(fds[s := e], cages, pipes, sockets[id := Plugged(FreshSocket, n + 1, n, Some(c.remote))],
                          nextPipe, nextConn,
                          id + 1, pending, flight, held', queues[a := queues[a][1..]], line - {n})
  {
    hide TablesOk, FlightOk, PipesOk, NumbersOk, SocketsOk, OwnersOk, WiredOk, HalfWiredOk, QueuesOk, LineOk;
    hide OrderOk, Agree, Ends, Refers, AllOnward, Known, AcceptorEnds, SocketEnds, Plugged;
    var c := queues[a][0];
    var n := IdOf(c.toListener);
    var sock := Plugged(FreshSocket, n + 1, n, Some(c.remote));
    var more := sockets[id := sock];
    QueuesAccept(queues, line, a, nextConn);
    NumbersConn(pipes.Keys, sockets.Keys, nextPipe, nextConn, id);
    WiredAccept(sockets, line, pipes.Keys, nextConn, n, id, Some(c.remote));
    OwnersNewSocket(held, fds, cages, sockets, flight, pending, line, pipes.Keys, id, sock);
    assert more.Keys == sockets.Keys + {id};
    Widen(fds, cages, flight, pending, sockets, line, pipes.Keys, sockets.Keys, nextConn, pipes.Keys, more.Keys,
          nextConn);
    SocketRefers(e, pipes.Keys, more.Keys);
    SocketEndsOf(more, e);
    TablesAdd(fds, cages, pipes.Keys, more.Keys, s, e);
    OwnersAccept(held, fds, more, flight, line, n, s, e);
    MoveKeepsAgree(held, Queued(n), s, pipes);
  }

  lemma NotQueued(held: Holding, fds: map<Slot, Entry>, sockets: map<nat, Socket>, flight: map<nat, Entry>,
                  line: map<nat, string>, refs: set<PipeRef>, n: nat)
    requires OwnersOk(held, fds, sockets, flight, line) && LineOk(line, refs, n)
    ensures Queued(n) !in held
  {
    assert SlotOk(Queued(n), held, fds, sockets, flight, line);
  }

  /** The head of the queue at `a` is taken by slot `s` through the new socket `id`. */
  ghost predicate TookHead(fds: map<Slot, Entry>, sockets: map<nat, Socket>, queues: map<string, seq<Pending>>,
                           s: Slot, id: nat, a: string, kind: bv32,
                           fds': map<Slot, Entry>, sockets': map<nat, Socket>, queues': map<string, seq<Pending>>)
    requires a in queues && queues[a] != []
  {
    var c := queues[a][0];
    && c.toListener.Conn? && c.toConnector == Conn(c.toListener.n + 1)
    && sockets' == sockets[id := FreshSocket.(state := Connected, remote := Some(c.remote),
                                              send := Some(c.toConnector), recv := Some(c.toListener))]
    && fds' == fds[s := SocketEntry(id, kind)]
    && queues' == queues[a := queues[a][1..]]
  }

  /** Socket `id` is connected through two new pipes, and the connection waits at `target`. */
  ghost predicate Connecting(sockets: map<nat, Socket>, queues: map<string, seq<Pending>>, id: nat, n: nat,
                             target: string, sockets': map<nat, Socket>, queues': map<string, seq<Pending>>)
    requires id in sockets
  {
    var k := sockets[id];
    && sockets' == sockets[id := Socket(Connected, k.local, Some(target), Some(Conn(n)), Some(Conn(n + 1)))]
    && queues' == queues[target := (if target in queues then queues[target] else [])
                                   + [Pending(if k.local.Some? then k.local.value else "", Conn(n), Conn(n + 1))]]
  }

  lemma ConnectingIntro(sockets: map<nat, Socket>, queues: map<string, seq<Pending>>, id: nat, n: nat, target: string)
    requires id in sockets
    ensures Connecting(sockets, queues, id, n, target, sockets[id := Plugged(sockets[id], n, n + 1, Some(target))],
                       queues[target := At(queues, target) + [Pending(Text(sockets[id].local), Conn(n), Conn(n + 1))]])
  {
  }

  lemma TookHeadIntro(fds: map<Slot, Entry>, sockets: map<nat, Socket>, queues: map<string, seq<Pending>>,
                      s: Slot, id: nat, a: string, kind: bv32)
    requires a in queues && queues[a] != []
    requires var c := queues[a][0];
             c.toListener == Conn(IdOf(c.toListener)) && c.toConnector == Conn(IdOf(c.toListener) + 1)
    ensures var c := queues[a][0];
            var n := IdOf(c.toListener);
            TookHead(fds, sockets, queues, s, id, a, kind, fds[s := SocketEntry(id, kind)],
                     sockets[id := Plugged(FreshSocket, n + 1, n, Some(c.remote))], queues[a := queues[a][1..]])
  {
  }
}
