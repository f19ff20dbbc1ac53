/** select() on descriptors of the ipc-grate: its bits are what reads, writes and accepts would find. */
module IpcSelects {
  import opened Bytes
  import opened Pipes
  import opened Holdings
  import opened Descriptors
  import opened Readiness
  import opened IpcStates
  import opened SocketStates
  import opened IpcEffects
  import opened IpcGrates
  import opened Selects

  /** The events polled for on behalf of the sets a descriptor is in. */
  function Events(a: Ask, f: nat): bv16 {
    (if f in a.r then POLLIN else 0) | (if f in a.w then POLLOUT else 0)
  }

  lemma EventsAsk(a: Ask, f: nat)
    ensures Asks(Events(a, f), POLLIN) <==> f in a.r
    ensures Asks(Events(a, f), POLLOUT) <==> f in a.w
  {
  }

  /** The pipe of a pipe end. */
  ghost predicate PipeEnd(s: State, x: Slot, p: Pipe) {
    && x in s.fds && s.fds[x].kind.PipeFd? && Plain(s.fds[x].underfd) in s.pipes
    && p == s.pipes[Plain(s.fds[x].underfd)] && Fits(p)
  }

  /** A socket that is no listener, with the pipes it sends and receives on. */
  ghost predicate ConnectedSocket(s: State, x: Slot, send: Pipe, recv: Pipe) {
    && NamesSocket(s, x)
    && var k := s.sockets[s.fds[x].underfd];
       && !(k.state.Listening? && k.local.Some?) && k.send.Some? && k.recv.Some?
       && k.send.value in s.pipes && k.recv.value in s.pipes
       && send == s.pipes[k.send.value] && recv == s.pipes[k.recv.value] && Fits(send) && Fits(recv)
  }

  /** A listening socket, and whether a connection waits at its address. */
  ghost predicate Listener(s: State, x: Slot, waiting: bool) {
    && NamesSocket(s, x)
    && var k := s.sockets[s.fds[x].underfd];
       && k.state.Listening? && k.local.Some?
       && (waiting <==> k.local.value in s.queues && s.queues[k.local.value] != [])
  }

  /** Full, and nobody is left to read it. */
  predicate Broken(p: Pipe) {
    |p.data| >= p.cap && p.readRefs == 0
  }

  /** What select() takes from polling a descriptor, given the sets it is in: readable, writable, an error. */
  ghost predicate BitsRight(s: State, x: Slot, inR: bool, inW: bool, revents: bv16) {
    && (forall p :: PipeEnd(s, x, p) ==>
          && (inR ==> (ReadBits(revents) <==> IsReadEnd(s.fds[x].flags) && ReadAnswers(p)))
          && (inW ==> (WriteBits(revents) <==> !IsReadEnd(s.fds[x].flags) && WriteAnswers(p)))
          && (Asks(revents, POLLERR) <==> inW && !IsReadEnd(s.fds[x].flags) && Broken(p)))
    && (forall send, recv :: ConnectedSocket(s, x, send, recv) ==>
          && (inR ==> (ReadBits(revents) <==> ReadAnswers(recv)))
          && (inW ==> (WriteBits(revents) <==> !inR && WriteAnswers(send)))
          && (Asks(revents, POLLERR) <==> inW && !inR && Broken(send)))
    && (forall waiting :: Listener(s, x, waiting) ==>
          && (inR ==> (ReadBits(revents) <==> waiting)) && !WriteBits(revents) && !Asks(revents, POLLERR))
  }

  /** What one scan of the requested descriptors found. */
  ghost predicate Scanned(s: State, cage: nat, a: Ask, n: nat, revents: map<nat, bv16>) {
    && (forall f: nat :: f in revents <==> f < n && f in Any(a) && Ours(s.fds, Live(cage, f)))
    && (forall f: nat :: f in revents ==> BitsRight(s, Live(cage, f), f in a.r, f in a.w, revents[f]))
  }

  method PollOne(g: IpcGrate, x: Slot, a: Ask, f: nat) returns (revents: bv16)
    requires g.Valid() && Ours(g.fds, x)
    ensures BitsRight(g.Now(), x, f in a.r, f in a.w, revents)
  {
    hide TablesOk, FlightOk, NumbersOk, OwnersOk, WiredOk, HalfWiredOk, QueuesOk, LineOk, OrderOk, Agree;
    hide ReadAnswers, WriteAnswers, Asks, Events, ReadBits, WriteBits, IsReadEnd;
    EventsAsk(a, f);
    OneBit();
    revents := g.PollState(x, Events(a, f));
  }

  /** The scan: every requested descriptor of ours is polled once. */
  method Scan(g: IpcGrate, cage: nat, n: nat, a: Ask) returns (revents: map<nat, bv16>)
    requires g.Valid()
    ensures Scanned(g.Now(), cage, a, n, revents)
  {
    hide TablesOk, FlightOk, PipesOk, NumbersOk, SocketsOk, OwnersOk, WiredOk, HalfWiredOk, QueuesOk, LineOk, OrderOk;
    hide Agree, Scanned, BitsRight, Any, Ours;
    revents := map[];
    assert Scanned(g.Now(), cage, a, 0, revents) by {
      ScannedNone(g.Now(), cage, a);
    }
    for f := 0 to n
      invariant Scanned(g.Now(), cage, a, f, revents)
    {
      if f in Any(a) && Ours(g.fds, Live(cage, f)) {
        var bits := PollOne(g, Live(cage, f), a, f);
        ScannedMore(g.Now(), cage, a, f, revents, bits);
        revents := revents[f := bits];
      } else {
        ScannedSame(g.Now(), cage, a, f, revents);
      }
    }
  }

  lemma ScannedNone(s: State, cage: nat, a: Ask)
    ensures Scanned(s, cage, a, 0, map[])
  {
  }

  lemma ScannedMore(s: State, cage: nat, a: Ask, f: nat, revents: map<nat, bv16>, bits: bv16)
    requires Scanned(s, cage, a, f, revents) && f in Any(a) && Ours(s.fds, Live(cage, f))
    requires BitsRight(s, Live(cage, f), f in a.r, f in a.w, bits)
    ensures Scanned(s, cage, a, f + 1, revents[f := bits])
  {
    hide BitsRight, Any, Ours;
  }

  lemma ScannedSame(s: State, cage: nat, a: Ask, f: nat, revents: map<nat, bv16>)
    requires Scanned(s, cage, a, f, revents) && !(f in Any(a) && Ours(s.fds, Live(cage, f)))
    ensures Scanned(s, cage, a, f + 1, revents)
  {
    hide BitsRight, Any, Ours;
  }

  /** No answer of the kernel comes back as a descriptor of ours. */
  lemma NotFromKernel(k: set<nat>, all: set<nat>, n: nat, env: Env, f: nat)
    requires f in env.revents
    ensures f !in Back(k, all, n, env)
  {
    forall u | u in k ensures Owner(all, n, env, u) != Some(f) {
      OwnerMeans(all, n, env, u);
    }
  }

  /** The sets select() hands back, whatever the kernel answered. */
  ghost function HandedBack(k: Ask, a: Ask, n: nat, env: Env): Ask {
    Union(Backs(k, Any(a), n, env), ReadyOf(a, n, env))
  }

  lemma BitsOut(s: State, cage: nat, a: Ask, n: nat, env: Env, k: Ask, f: nat)
    requires Scanned(s, cage, a, n, env.revents) && f < n && Ours(s.fds, Live(cage, f)) && f in Any(a)
    ensures f in env.revents && BitsRight(s, Live(cage, f), f in a.r, f in a.w, env.revents[f])
    ensures f in HandedBack(k, a, n, env).r <==> f in a.r && ReadBits(env.revents[f])
    ensures f in HandedBack(k, a, n, env).w <==> f in a.w && WriteBits(env.revents[f])
    ensures f in HandedBack(k, a, n, env).e <==> f in a.e && Asks(env.revents[f], POLLERR)
  {
    hide BitsRight;
    NotFromKernel(k.r, Any(a), n, env, f);
    NotFromKernel(k.w, Any(a), n, env, f);
    NotFromKernel(k.e, Any(a), n, env, f);
  }

  /**
   A pipe end comes back readable exactly when a one-byte read on it would be answered, and
   writable exactly when a one-byte write would be; in the exception set it comes back exactly
   when it was asked for output too and its pipe is full with no reader left.
   */
  lemma SelectPipe(s: State, cage: nat, a: Ask, n: nat, env: Env, k: Ask, f: nat, p: Pipe)
    requires Scanned(s, cage, a, n, env.revents) && f < n && f in Any(a) && PipeEnd(s, Live(cage, f), p)
    ensures f in HandedBack(k, a, n, env).r <==> f in a.r && IsReadEnd(s.fds[Live(cage, f)].flags) && ReadAnswers(p)
    ensures f in HandedBack(k, a, n, env).w <==> f in a.w && !IsReadEnd(s.fds[Live(cage, f)].flags) && WriteAnswers(p)
    ensures f in HandedBack(k, a, n, env).e
            <==> f in a.e && f in a.w && !IsReadEnd(s.fds[Live(cage, f)].flags) && Broken(p)
  {
    hide Scanned, HandedBack, IsReadEnd, ReadAnswers, WriteAnswers, ReadBits, WriteBits;
    BitsOut(s, cage, a, n, env, k, f);
  }

  /**
   A connected socket comes back readable exactly when a one-byte read would be answered, but
   writable exactly when a one-byte write would be and it was not asked for input as well.
   */
  lemma SelectSocket(s: State, cage: nat, a: Ask, n: nat, env: Env, k: Ask, f: nat, send: Pipe, recv: Pipe)
    requires Scanned(s, cage, a, n, env.revents) && f < n && f in Any(a)
    requires ConnectedSocket(s, Live(cage, f), send, recv)
    ensures f in HandedBack(k, a, n, env).r <==> f in a.r && ReadAnswers(recv)
    ensures f in HandedBack(k, a, n, env).w <==> f in a.w && f !in a.r && WriteAnswers(send)
    ensures f in HandedBack(k, a, n, env).e <==> f in a.e && f in a.w && f !in a.r && Broken(send)
  {
    hide Scanned, HandedBack, IsReadEnd, ReadAnswers, WriteAnswers, ReadBits, WriteBits;
    BitsOut(s, cage, a, n, env, k, f);
  }

  /** A listening socket comes back readable exactly when a connection waits for it. */
  lemma SelectListener(s: State, cage: nat, a: Ask, n: nat, env: Env, k: Ask, f: nat, waiting: bool)
    requires Scanned(s, cage, a, n, env.revents) && f < n && f in Any(a) && Listener(s, Live(cage, f), waiting)
    ensures f in HandedBack(k, a, n, env).r <==> f in a.r && waiting
    ensures f !in HandedBack(k, a, n, env).w && f !in HandedBack(k, a, n, env).e
  {
    hide Scanned, HandedBack, IsReadEnd, ReadAnswers, WriteAnswers, ReadBits, WriteBits;
    BitsOut(s, cage, a, n, env, k, f);
  }

  /** A wait that no kernel descriptor takes part in hands back what its last scan found. */
  lemma ScanAlone(a: Ask, n: nat, revents: map<nat, bv16>)
    ensures HandedBack(Ask({}, {}, {}), a, n, Env(map[], revents)) == ReadyOf(a, n, Env(map[], revents))
  {
    var env := Env(map[], revents);
    assert Back({}, Any(a), n, env) == {};
  }
}
