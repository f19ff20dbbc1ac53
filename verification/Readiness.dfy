/** poll() on pipe ends and sockets, and what it promises about the next read or write. */
module Readiness {
  import opened Bytes
  import opened Pipes
  import opened Holdings
  import opened Descriptors

  const POLLIN: bv16 := 0x01
  const POLLOUT: bv16 := 0x04
  const POLLERR: bv16 := 0x08
  const POLLHUP: bv16 := 0x10
  const POLLNVAL: bv16 := 0x20

  predicate Asks(requested: bv16, event: bv16) {
    requested & event != 0
  }

  function PollReader(p: Pipe): bv16 {
    if p.data != [] then POLLIN else if p.writeRefs == 0 then POLLHUP else 0
  }

  function PollWriter(p: Pipe): bv16 {
    if |p.data| < p.cap then POLLOUT else if p.readRefs == 0 then POLLERR else 0
  }

  function PollPipe(p: Pipe, isReader: bool, requested: bv16): bv16 {
    (if Asks(requested, POLLIN) && isReader then PollReader(p) else 0)
    | (if Asks(requested, POLLOUT) && !isReader then PollWriter(p) else 0)
  }

  /** A socket is polled through its receive pipe if input is asked for, otherwise through its send pipe. */
  function PollSocket(s: Socket, pipes: map<PipeRef, Pipe>, queues: map<string, seq<Pending>>, requested: bv16): bv16 {
    if s.state.Listening? && s.local.Some? then
      if Asks(requested, POLLIN) && s.local.value in queues && queues[s.local.value] != [] then POLLIN else 0
    else
      var r := if Asks(requested, POLLIN) then s.recv else if Asks(requested, POLLOUT) then s.send else None;
      if r.Some? && r.value in pipes then PollPipe(pipes[r.value], Asks(requested, POLLIN), requested) else POLLNVAL
  }

  /** A one-byte non-blocking read would be answered at once. */
  predicate ReadAnswers(p: Pipe)
    requires Fits(p)
  {
    ReadToCage(p, 1, true, []).outcome != Done(EAGAIN)
  }

  /** A one-byte non-blocking write would be answered at once. */
  predicate WriteAnswers(p: Pipe)
    requires Fits(p)
  {
    Write(p, [0], true, []).outcome != Done(EAGAIN)
  }

  lemma ReaderReady(p: Pipe)
    requires Fits(p) && LatchExact(p)
    ensures PollReader(p) != 0 <==> ReadAnswers(p)
  {
    ReadMeaning(p, 1, true, []);
  }

  lemma WriterReady(p: Pipe)
    requires Fits(p)
    ensures PollWriter(p) != 0 <==> WriteAnswers(p)
  {
    WriteMeaning(p, [0], true, []);
    if |p.data| == p.cap && p.readRefs > 0 {
      WriteFullNonblocking(p, [0]);
    }
  }

  lemma EventBits(a: bv16, b: bv16)
    requires a == 0 || b == 0
    ensures a | b != 0 <==> a != 0 || b != 0
  {
  }

  /**
   On a pipe end, poll for its direction reports an event exactly when the operation would
   not get EAGAIN. This rests on the EOF latch agreeing with the count of write ends.
   */
  lemma PipeReady(p: Pipe, isReader: bool, requested: bv16)
    requires Fits(p) && LatchExact(p) && Asks(requested, if isReader then POLLIN else POLLOUT)
    ensures PollPipe(p, isReader, requested) != 0 <==> if isReader then ReadAnswers(p) else WriteAnswers(p)
  {
    ReaderReady(p);
    WriterReady(p);
    EventBits(if Asks(requested, POLLIN) && isReader then PollReader(p) else 0,
              if Asks(requested, POLLOUT) && !isReader then PollWriter(p) else 0);
  }

  lemma NothingAsked(p: Pipe, isReader: bool, requested: bv16)
    requires !Asks(requested, if isReader then POLLIN else POLLOUT)
    ensures PollPipe(p, isReader, requested) == 0
  {
    hide PollReader, PollWriter, Asks;
    EventBits(if Asks(requested, POLLIN) && isReader then PollReader(p) else 0,
              if Asks(requested, POLLOUT) && !isReader then PollWriter(p) else 0);
  }

  /** The bits a select() takes for readable, and those it takes for writable. */
  predicate ReadBits(revents: bv16) {
    Asks(revents, POLLIN | POLLHUP)
  }

  predicate WriteBits(revents: bv16) {
    Asks(revents, POLLOUT | POLLERR)
  }

  lemma NoEvents()
    ensures !ReadBits(0) && !WriteBits(0) && !ReadBits(POLLNVAL) && !WriteBits(POLLNVAL)
  {
  }

  /** The input bits, each by itself: POLLIN when a one-byte read gets a byte, POLLHUP when it gets 0. */
  ghost predicate InputExact(p: Pipe, asked: bool, revents: bv16)
    requires Fits(p)
  {
    && (Asks(revents, POLLIN) <==> asked && |ReadToCage(p, 1, true, []).delivered| == 1)
    && (Asks(revents, POLLHUP) <==> asked && ReadToCage(p, 1, true, []).outcome == Done(0))
  }

  /** The output bits: POLLOUT when there is room, POLLERR when there is none and nobody left to make some. */
  ghost predicate OutputExact(p: Pipe, asked: bool, revents: bv16) {
    && (Asks(revents, POLLOUT) <==> asked && |p.data| < p.cap)
    && (Asks(revents, POLLERR) <==> asked && |p.data| >= p.cap && p.readRefs == 0)
  }

  /**
   What poll() says of a pipe end: the input bits of a reader and the output bits of a writer,
   if they were asked for, and no other. It is readable exactly when a one-byte read would be
   answered, and writable exactly when a one-byte write would be.
   */
  ghost predicate PipePolled(p: Pipe, isReader: bool, requested: bv16, revents: bv16)
    requires Fits(p)
  {
    && InputExact(p, isReader && Asks(requested, POLLIN), revents)
    && OutputExact(p, !isReader && Asks(requested, POLLOUT), revents)
    && revents in {0, POLLIN, POLLHUP, POLLOUT, POLLERR}
    && (ReadBits(revents) <==> isReader && Asks(requested, POLLIN) && ReadAnswers(p))
    && (WriteBits(revents) <==> !isReader && Asks(requested, POLLOUT) && WriteAnswers(p))
    && (revents != 0 <==> ReadBits(revents) || WriteBits(revents))
  }

  lemma OneBit()
    ensures var bits := {POLLIN, POLLHUP, POLLOUT, POLLERR, POLLNVAL};
            forall v, w :: v in bits && w in bits ==> (Asks(v, w) <==> v == w)
    ensures forall w :: !Asks(0, w)
  {
  }

  lemma PollPipeIs(p: Pipe, isReader: bool, requested: bv16)
    ensures PollPipe(p, isReader, requested)
         == if isReader then (if Asks(requested, POLLIN) then PollReader(p) else 0)
            else (if Asks(requested, POLLOUT) then PollWriter(p) else 0)
  {
    hide PollReader, PollWriter, Asks;
    OrZero(if Asks(requested, POLLIN) && isReader then PollReader(p) else 0);
    OrZero(if Asks(requested, POLLOUT) && !isReader then PollWriter(p) else 0);
  }

  lemma OrZero(a: bv16)
    ensures a | 0 == a == 0 | a
  {
  }

  lemma OneByteRead(p: Pipe)
    requires Fits(p) && LatchExact(p)
    ensures |ReadToCage(p, 1, true, []).delivered| == 1 <==> p.data != []
    ensures ReadToCage(p, 1, true, []).outcome == Done(0) <==> p.data == [] && p.writeRefs == 0
  {
    ReadMeaning(p, 1, true, []);
  }

  lemma PipeBits(p: Pipe, isReader: bool, requested: bv16)
    requires Fits(p) && LatchExact(p)
    ensures var revents := PollPipe(p, isReader, requested);
            && InputExact(p, isReader && Asks(requested, POLLIN), revents)
            && OutputExact(p, !isReader && Asks(requested, POLLOUT), revents)
            && revents in {0, POLLIN, POLLHUP, POLLOUT, POLLERR}
  {
    hide PollPipe, ReadToCage, Asks;
    PollPipeIs(p, isReader, requested);
    OneByteRead(p);
    OneBit();
  }

  lemma PipeIsPolled(p: Pipe, isReader: bool, requested: bv16)
    requires Fits(p) && LatchExact(p)
    ensures PipePolled(p, isReader, requested, PollPipe(p, isReader, requested))
  {
    hide ReadAnswers, WriteAnswers, InputExact, OutputExact;
    PipeBits(p, isReader, requested);
    if Asks(requested, if isReader then POLLIN else POLLOUT) {
      PipeReady(p, isReader, requested);
      OutputBits(p, isReader, requested);
      InputBits(p, isReader, requested);
    } else {
      NothingAsked(p, isReader, requested);
      NoEvents();
    }
  }

  lemma OutputBits(p: Pipe, isReader: bool, requested: bv16)
    ensures isReader ==> !WriteBits(PollPipe(p, isReader, requested))
    ensures !isReader ==> (WriteBits(PollPipe(p, isReader, requested)) <==> PollPipe(p, isReader, requested) != 0)
  {
    if isReader {
      assert PollPipe(p, isReader, requested) in {0, POLLIN, POLLHUP};
    } else {
      assert PollPipe(p, isReader, requested) in {0, POLLOUT, POLLERR};
    }
  }

  lemma InputBits(p: Pipe, isReader: bool, requested: bv16)
    ensures !isReader ==> !ReadBits(PollPipe(p, isReader, requested))
    ensures isReader ==> (ReadBits(PollPipe(p, isReader, requested)) <==> PollPipe(p, isReader, requested) != 0)
  {
    if isReader {
      assert PollPipe(p, isReader, requested) in {0, POLLIN, POLLHUP};
    } else {
      assert PollPipe(p, isReader, requested) in {0, POLLOUT, POLLERR};
    }
  }

  /**
   On a connected socket input readiness is exact, but output readiness is reported exactly
   when a write would be answered and input was not asked for in the same call.
   */
  lemma SocketReady(s: Socket, pipes: map<PipeRef, Pipe>, queues: map<string, seq<Pending>>, requested: bv16)
    requires !(s.state.Listening? && s.local.Some?) && s.send.Some? && s.recv.Some?
    requires s.send.value in pipes && s.recv.value in pipes
    requires forall r :: r in pipes ==> Fits(pipes[r]) && LatchExact(pipes[r])
    ensures Asks(requested, POLLIN) ==>
              (PollSocket(s, pipes, queues, requested) != 0 <==> ReadAnswers(pipes[s.recv.value]))
    ensures ReadBits(PollSocket(s, pipes, queues, requested))
            <==> Asks(requested, POLLIN) && ReadAnswers(pipes[s.recv.value])
    ensures WriteBits(PollSocket(s, pipes, queues, requested))
            <==> Asks(requested, POLLOUT) && !Asks(requested, POLLIN) && WriteAnswers(pipes[s.send.value])
    ensures InputExact(pipes[s.recv.value], Asks(requested, POLLIN), PollSocket(s, pipes, queues, requested))
    ensures OutputExact(pipes[s.send.value], Asks(requested, POLLOUT) && !Asks(requested, POLLIN),
                        PollSocket(s, pipes, queues, requested))
  {
    hide ReadAnswers, WriteAnswers, PollPipe, ReadBits, WriteBits, Asks, ReadToCage;
    var isReader := Asks(requested, POLLIN);
    if isReader || Asks(requested, POLLOUT) {
      PipeIsPolled(pipes[if isReader then s.recv.value else s.send.value], isReader, requested);
    }
    NoEvents();
    OneBit();
  }

  /**
   What poll() says of a socket: whether a connection waits at a listening one, and otherwise
   what its pipes would answer.
   */
  ghost predicate SocketPolled(s: Socket, pipes: map<PipeRef, Pipe>, queues: map<string, seq<Pending>>, requested: bv16,
                               revents: bv16)
    requires s.send.Some? ==> s.send.value in pipes && Fits(pipes[s.send.value])
    requires s.recv.Some? ==> s.recv.value in pipes && Fits(pipes[s.recv.value])
  {
    var listening := s.state.Listening? && s.local.Some?;
    && (listening ==>
          && revents == (if Asks(requested, POLLIN) && s.local.value in queues && queues[s.local.value] != []
                         then POLLIN else 0)
          && (revents != 0 <==> ReadBits(revents)) && !WriteBits(revents))
    && (!listening && s.send.Some? && s.recv.Some? ==>
          && InputExact(pipes[s.recv.value], Asks(requested, POLLIN), revents)
          && OutputExact(pipes[s.send.value], Asks(requested, POLLOUT) && !Asks(requested, POLLIN), revents)
          && (Asks(requested, POLLIN) ==> (revents != 0 <==> ReadAnswers(pipes[s.recv.value])))
          && (ReadBits(revents) <==> Asks(requested, POLLIN) && ReadAnswers(pipes[s.recv.value]))
          && (WriteBits(revents) <==>
                Asks(requested, POLLOUT) && !Asks(requested, POLLIN) && WriteAnswers(pipes[s.send.value])))
    && (!listening && s.send.None? && s.recv.None? ==> revents == POLLNVAL)
    && (!listening && !Asks(requested, POLLIN) && !Asks(requested, POLLOUT) ==> revents == POLLNVAL)
  }

  lemma SocketIsPolled(s: Socket, pipes: map<PipeRef, Pipe>, queues: map<string, seq<Pending>>, requested: bv16)
    requires s.send.Some? ==> s.send.value in pipes
    requires s.recv.Some? ==> s.recv.value in pipes
    requires forall r :: r in pipes ==> Fits(pipes[r]) && LatchExact(pipes[r])
    ensures SocketPolled(s, pipes, queues, requested, PollSocket(s, pipes, queues, requested))
  {
    hide ReadAnswers, WriteAnswers, PollPipe, InputExact, OutputExact;
    if !(s.state.Listening? && s.local.Some?) && s.send.Some? && s.recv.Some? {
      SocketReady(s, pipes, queues, requested);
    }
  }

  /** A socket with room to send that poll() does not announce as writable: input was asked for too. */
  lemma WritableSocketUnannounced()
    ensures var s := Socket(Connected, None, None, Some(Conn(0)), Some(Conn(1)));
            var pipes := map[Conn(0) := NewPipe(1), Conn(1) := NewPipe(1)];
            WriteAnswers(pipes[Conn(0)]) && PollSocket(s, pipes, map[], POLLIN | POLLOUT) == 0
  {
    WriterReady(NewPipe(1));
    assert Asks(POLLIN | POLLOUT, POLLIN);
  }

  // ------------------------------------------------------------------
  // One read or write, taken as one step
  // ------------------------------------------------------------------

  lemma ReadStep(p: Pipe, want: nat, nonblocking: bool)
    requires Fits(p)
    ensures var r := ReadToCage(p, want, nonblocking, []);
            && r.pipe == p.(data := p.data[|r.delivered|..])
            && r.delivered == p.data[..Min(want, |p.data|)] && Onward(p, r.pipe)
  {
    assert p.data + [] == p.data;
    assert p.data[0..] == p.data;
  }

  lemma WriteStep(p: Pipe, src: seq<byte>, nonblocking: bool)
    requires Fits(p)
    ensures var r := Write(p, src, nonblocking, []);
            r.pipe == p.(data := p.data + src[..r.sent]) && r.drained == [] && Fits(r.pipe)
  {
    assert p.data + src[..0] == p.data;
    if p.readRefs > 0 {
      var n := Min(|src|, Space(p));
      var p1 := Push(p, src[0..n]);
      assert p1.data[0..] == p1.data;
      assert src[0..n] == src[..n];
    }
  }
}
