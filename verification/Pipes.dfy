/**
 The value of one userspace pipe and what its blocking calls mean.

 A blocking call runs beside the other endpoint. What the other side does between two
 iterations of the retry loop is given by a finite script; a call whose script runs out is
 still waiting. Statements for all scripts are statements for all finite interleavings.
 */
module Pipes {
  import opened Bytes

  const EINTR := -4
  const EAGAIN := -11
  const EINVAL := -22
  const EPIPE := -32

  /** `data` is the content of the ring, oldest byte first. */
  datatype Pipe = Pipe(writeRefs: nat, readRefs: nat, eof: bool, cap: nat, data: seq<byte>)

  function NewPipe(cap: nat): Pipe {
    Pipe(1, 1, false, cap, [])
  }

  function IncrWrite(p: Pipe): Pipe {
    p.(writeRefs := p.writeRefs + 1)
  }

  function IncrRead(p: Pipe): Pipe {
    p.(readRefs := p.readRefs + 1)
  }

  /** The last write end to go latches EOF. */
  function DecrWrite(p: Pipe): Pipe
    requires p.writeRefs > 0
  {
    p.(writeRefs := p.writeRefs - 1, eof := p.eof || p.writeRefs == 1)
  }

  function DecrRead(p: Pipe): Pipe
    requires p.readRefs > 0
  {
    p.(readRefs := p.readRefs - 1)
  }

  /** The latch tells exactly whether a write end is left. */
  ghost predicate LatchExact(p: Pipe) {
    p.eof <==> p.writeRefs == 0
  }

  predicate Fits(p: Pipe) {
    |p.data| <= p.cap
  }

  function Space(p: Pipe): nat
    requires Fits(p)
  {
    p.cap - |p.data|
  }

  function Push(p: Pipe, bytes: seq<byte>): Pipe {
    p.(data := p.data + bytes)
  }

  function Pop(p: Pipe, n: nat): Pipe
    requires n <= |p.data|
  {
    p.(data := p.data[n..])
  }

  // ------------------------------------------------------------------
  // What the other side may do
  // ------------------------------------------------------------------

  /** Readers take up to `taken` bytes and leave `readRefs` read ends open. */
  datatype Drain = Drain(taken: nat, readRefs: nat)

  /** One lap of a blocked writer: reader activity before the broken-pipe check, then during the nap. */
  datatype WriterLap = WriterLap(mid: Drain, nap: Drain, interrupted: bool)

  /** Writers offer `pushed`; `closed` says the last write end then goes away. */
  datatype Arrival = Arrival(pushed: seq<byte>, closed: bool)

  /** One lap of a blocked reader: writer activity before the EOF check, then during the nap. */
  datatype ReaderLap = ReaderLap(mid: Arrival, nap: Arrival, interrupted: bool)

  function Taken(p: Pipe, d: Drain): (n: nat)
    ensures n <= |p.data|
  {
    Min(d.taken, |p.data|)
  }

  function Drained(p: Pipe, d: Drain): Pipe {
    Pop(p, Taken(p, d)).(readRefs := d.readRefs)
  }

  /** Once EOF is latched there is no write end left, so nothing arrives. */
  function Arriving(p: Pipe, a: Arrival): (bytes: seq<byte>)
    requires Fits(p)
    ensures |bytes| <= Space(p)
  {
    if p.eof then [] else a.pushed[..Min(|a.pushed|, Space(p))]
  }

  function Arrived(p: Pipe, a: Arrival): (q: Pipe)
    requires Fits(p)
    ensures Fits(q)
  {
    var q := Push(p, Arriving(p, a));
    if a.closed then q.(writeRefs := 0, eof := true) else q
  }

  // ------------------------------------------------------------------
  // Blocking write
  // ------------------------------------------------------------------

  datatype Outcome = Done(code: int) | Waiting

  /** `sent`: bytes of the source accepted; `drained`: what the readers took meanwhile. */
  datatype WriteResult = WriteResult(pipe: Pipe, sent: nat, drained: seq<byte>, outcome: Outcome)

  function ShortCode(sent: nat, errno: int): int {
    if sent > 0 then sent else errno
  }

  /** One lap of the retry loop ends the call, or leaves it to go on after `got` went to readers. */
  datatype LapEnd = Stop(result: WriteResult) | Again(pipe: Pipe, sent: nat, got: seq<byte>)

  function Lap(p: Pipe, src: seq<byte>, sent: nat, nonblocking: bool, script: seq<WriterLap>): (e: LapEnd)
    requires Fits(p) && sent <= |src|
    ensures e.Again? ==> script != [] && sent <= e.sent < |src| && Fits(e.pipe)
    ensures e.Stop? ==> sent <= e.result.sent <= |src|
  {
    var n := Min(|src| - sent, Space(p));
    var p1 := Push(p, src[sent..sent + n]);
    if sent + n == |src| then
      Stop(WriteResult(p1, sent + n, [], Done(sent + n)))
    else
      var mid := if script == [] then Drain(0, p1.readRefs) else script[0].mid;
      var p2 := Drained(p1, mid);
      var got := p1.data[..Taken(p1, mid)];
      if p2.readRefs == 0 then
        Stop(WriteResult(p2, sent + n, got, Done(EPIPE)))
      else if nonblocking then
        Stop(WriteResult(p2, sent + n, got, Done(ShortCode(sent + n, EAGAIN))))
      else if script == [] then
        Stop(WriteResult(p2, sent + n, got, Waiting))
      else
        var p3 := Drained(p2, script[0].nap);
        var got3 := got + p2.data[..Taken(p2, script[0].nap)];
        if script[0].interrupted then
          Stop(WriteResult(p3, sent + n, got3, Done(ShortCode(sent + n, EINTR))))
        else
          Again(p3, sent + n, got3)
  }

  function WriteLoop(p: Pipe, src: seq<byte>, sent: nat, nonblocking: bool, script: seq<WriterLap>): (r: WriteResult)
    requires Fits(p) && sent <= |src|
    ensures sent <= r.sent <= |src|
    decreases |script|
  {
    match Lap(p, src, sent, nonblocking, script)
    case Stop(r) => r
    case Again(q, sent1, got) =>
      var rest := WriteLoop(q, src, sent1, nonblocking, script[1..]);
      rest.(drained := got + rest.drained)
  }

  function Write(p: Pipe, src: seq<byte>, nonblocking: bool, script: seq<WriterLap>): (r: WriteResult)
    requires Fits(p)
    ensures r.sent <= |src|
  {
    if p.readRefs == 0 then
      WriteResult(p, 0, [], Done(EPIPE))
    else
      WriteLoop(p, src, 0, nonblocking, script)
  }

  // ------------------------------------------------------------------
  // Blocking read
  // ------------------------------------------------------------------

  /** `delivered`: what this call returned to its caller; `arrived`: what the writers pushed meanwhile. */
  datatype ReadResult = ReadResult(pipe: Pipe, delivered: seq<byte>, arrived: seq<byte>, outcome: Outcome)

  const Quiet := Arrival([], false)

  function Read(p: Pipe, want: nat, nonblocking: bool, script: seq<ReaderLap>): (r: ReadResult)
    requires Fits(p)
    ensures Fits(r.pipe)
    decreases |script|
  {
    var n := Min(want, |p.data|);
    if n > 0 then
      ReadResult(Pop(p, n), p.data[..n], [], Done(n))
    else
      var mid := if script == [] then Quiet else script[0].mid;
      var p1 := Arrived(p, mid);
      var came := Arriving(p, mid);
      if p1.eof then
        ReadResult(p1, [], came, Done(0))
      else if nonblocking then
        ReadResult(p1, [], came, Done(EAGAIN))
      else if script == [] then
        ReadResult(p1, [], came, Waiting)
      else
        var p2 := Arrived(p1, script[0].nap);
        var came2 := came + Arriving(p1, script[0].nap);
        if script[0].interrupted then
          ReadResult(p2, [], came2, Done(EINTR))
        else
          var rest := Read(p2, want, nonblocking, script[1..]);
          rest.(arrived := came2 + rest.arrived)
  }

  /** The single-copy entry point answers an empty request before looking at the ring. */
  function ReadToCage(p: Pipe, want: nat, nonblocking: bool, script: seq<ReaderLap>): ReadResult
    requires Fits(p)
  {
    if want == 0 then ReadResult(p, [], [], Done(0)) else Read(p, want, nonblocking, script)
  }

  // ------------------------------------------------------------------
  // No byte is lost, repeated or reordered
  // ------------------------------------------------------------------

  lemma Chain(got: seq<byte>, rest: seq<byte>, ring: seq<byte>, mid: seq<byte>, more: seq<byte>)
    requires rest + ring == mid + more
    ensures (got + rest) + ring == (got + mid) + more
  {
    assert (got + rest) + ring == got + (rest + ring);
    assert got + (mid + more) == (got + mid) + more;
  }

  lemma Joined(ring: seq<byte>, src: seq<byte>, i: nat, j: nat, k: nat)
    requires i <= j <= k <= |src|
    ensures (ring + src[i..j]) + src[j..k] == ring + src[i..k]
  {
    assert src[i..j] + src[j..k] == src[i..k];
  }

  lemma DrainedSplits(p: Pipe, d: Drain)
    ensures p.data[..Taken(p, d)] + Drained(p, d).data == p.data
    ensures Drained(p, d).cap == p.cap && (Fits(p) ==> Fits(Drained(p, d)))
  {
  }

  lemma DrainedTwice(p: Pipe, d: Drain, e: Drain)
    ensures var q := Drained(p, d);
            && (p.data[..Taken(p, d)] + q.data[..Taken(q, e)]) + Drained(q, e).data == p.data
            && Drained(q, e).cap == p.cap && (Fits(p) ==> Fits(Drained(q, e)))
  {
    hide Drained, Taken;
    var q := Drained(p, d);
    var a, b, c := p.data[..Taken(p, d)], q.data[..Taken(q, e)], Drained(q, e).data;
    DrainedSplits(p, d);
    DrainedSplits(q, e);
    assert (a + b) + c == a + (b + c);
  }

  lemma LapConserves(p: Pipe, src: seq<byte>, sent: nat, nonblocking: bool, script: seq<WriterLap>)
    requires Fits(p) && sent <= |src|
    ensures match Lap(p, src, sent, nonblocking, script)
            case Stop(r) => sent <= r.sent <= |src| && r.drained + r.pipe.data == p.data + src[sent..r.sent]
                            && Fits(r.pipe) && r.pipe.cap == p.cap
            case Again(q, sent1, got) => got + q.data == p.data + src[sent..sent1] && q.cap == p.cap
  {
    hide Drained, Taken;
    var sent1 := sent + Min(|src| - sent, Space(p));
    var p1 := Push(p, src[sent..sent1]);
    if sent1 == |src| {
      assert [] + p1.data == p1.data;
    } else if script == [] {
      DrainedSplits(p1, Drain(0, p1.readRefs));
    } else {
      DrainedSplits(p1, script[0].mid);
      DrainedTwice(p1, script[0].mid, script[0].nap);
    }
  }

  lemma {:induction false} WriteLoopConserves(p: Pipe, src: seq<byte>, sent: nat, nonblocking: bool,
                                              script: seq<WriterLap>)
    requires Fits(p) && sent <= |src|
    ensures var r := WriteLoop(p, src, sent, nonblocking, script);
            && sent <= r.sent <= |src|
            && r.drained + r.pipe.data == p.data + src[sent..r.sent]
            && Fits(r.pipe) && r.pipe.cap == p.cap
    decreases |script|
  {
    LapConserves(p, src, sent, nonblocking, script);
    match Lap(p, src, sent, nonblocking, script)
    case Stop(_) =>
    case Again(q, sent1, got) =>
      WriteLoopConserves(q, src, sent1, nonblocking, script[1..]);
      var rest := WriteLoop(q, src, sent1, nonblocking, script[1..]);
      Chain(got, rest.drained, rest.pipe.data, q.data, src[sent1..rest.sent]);
      Joined(p.data, src, sent, sent1, rest.sent);
  }

  /** One blocked lap of a reader: the call goes on from `p2` with `came` pushed by writers. */
  lemma ReadLap(p: Pipe, want: nat, script: seq<ReaderLap>) returns (p2: Pipe, came: seq<byte>)
    requires Fits(p) && Min(want, |p.data|) == 0 && script != []
    ensures Fits(p2) && p2.cap == p.cap && p2.data == p.data + came
    ensures !Arrived(p, script[0].mid).eof && script[0].interrupted ==>
              Read(p, want, false, script) == ReadResult(p2, [], came, Done(EINTR))
    ensures !Arrived(p, script[0].mid).eof && !script[0].interrupted ==>
              Read(p, want, false, script)
              == var rest := Read(p2, want, false, script[1..]); rest.(arrived := came + rest.arrived)
  {
    var p1 := Arrived(p, script[0].mid);
    p2 := Arrived(p1, script[0].nap);
    came := Arriving(p, script[0].mid) + Arriving(p1, script[0].nap);
  }

  /** A read that ends within its first lap. */
  lemma ReadEndsConserving(p: Pipe, want: nat, nonblocking: bool, script: seq<ReaderLap>)
    requires Fits(p)
    requires var mid := if script == [] then Quiet else script[0].mid;
             Min(want, |p.data|) > 0 || Arrived(p, mid).eof || nonblocking || script == []
    ensures var r := Read(p, want, nonblocking, script);
            r.delivered + r.pipe.data == p.data + r.arrived && Fits(r.pipe) && r.pipe.cap == p.cap
  {
    var n := Min(want, |p.data|);
    if n > 0 {
      assert p.data[..n] + p.data[n..] == p.data + [];
    }
  }

  lemma {:induction false} ReadConserves(p: Pipe, want: nat, nonblocking: bool, script: seq<ReaderLap>)
    requires Fits(p)
    ensures var r := Read(p, want, nonblocking, script);
            r.delivered + r.pipe.data == p.data + r.arrived && Fits(r.pipe) && r.pipe.cap == p.cap
    decreases |script|
  {
    hide Read, Arrived, Arriving;
    var mid := if script == [] then Quiet else script[0].mid;
    if Min(want, |p.data|) > 0 || Arrived(p, mid).eof || nonblocking || script == [] {
      ReadEndsConserving(p, want, nonblocking, script);
    } else {
      var p2, came := ReadLap(p, want, script);
      if !script[0].interrupted {
        ReadConserves(p2, want, nonblocking, script[1..]);
        var rest := Read(p2, want, nonblocking, script[1..]);
        assert (p.data + came) + rest.arrived == p.data + (came + rest.arrived);
      }
    }
  }

  lemma {:induction false} WriteLoopCodes(p: Pipe, src: seq<byte>, sent: nat, nonblocking: bool, script: seq<WriterLap>)
    requires Fits(p) && sent <= |src|
    ensures var r := WriteLoop(p, src, sent, nonblocking, script);
            && (r.outcome.Done? ==>
                  var code := r.outcome.code;
                  && (code >= 0 ==> r.sent == code && (code == 0 ==> src == []))
                  && (code < 0 ==> code in {EPIPE, EAGAIN, EINTR})
                  && (code == EAGAIN || code == EINTR ==> r.sent == 0)
                  && (code == EAGAIN ==> nonblocking)
                  && (code == EINTR ==> !nonblocking)
                  && (code == EPIPE ==> r.pipe.readRefs == 0))
            && (r.outcome.Waiting? ==> !nonblocking && r.sent < |src| && r.pipe.readRefs > 0)
    decreases |script|
  {
    match Lap(p, src, sent, nonblocking, script)
    case Stop(_) =>
    case Again(q, sent1, _) => WriteLoopCodes(q, src, sent1, nonblocking, script[1..]);
  }

  /**
   What a write return code says about the bytes, whatever the readers do meanwhile: a
   positive code is exactly the number accepted, EAGAIN and EINTR mean none were, and after
   EPIPE any prefix may have been. The accepted bytes are a prefix of the source, and they
   come after everything that was already in the ring.
   */
  lemma WriteMeaning(p: Pipe, src: seq<byte>, nonblocking: bool, script: seq<WriterLap>)
    requires Fits(p)
    ensures var r := Write(p, src, nonblocking, script);
            && r.sent <= |src|
            && r.drained + r.pipe.data == p.data + src[..r.sent]
            && Fits(r.pipe) && r.pipe.cap == p.cap
            && (r.outcome.Done? && r.outcome.code >= 0 ==> r.sent == r.outcome.code)
            && (r.outcome.Done? && r.outcome.code < 0 ==> r.outcome.code in {EPIPE, EAGAIN, EINTR})
            && (r.outcome in {Done(EAGAIN), Done(EINTR)} ==> r.sent == 0 && src != [])
            && (r.outcome == Done(0) ==> src == [])
            && (r.outcome == Done(EPIPE) ==> r.pipe.readRefs == 0)
            && (r.outcome.Waiting? ==> !nonblocking && r.sent < |src| && r.pipe.readRefs > 0)
            && (p.readRefs == 0 ==> r == WriteResult(p, 0, [], Done(EPIPE)))
  {
    if p.readRefs != 0 {
      WriteLoopConserves(p, src, 0, nonblocking, script);
      WriteLoopCodes(p, src, 0, nonblocking, script);
    }
  }

  /** EPIPE after a partial push: four bytes offered to a two-byte ring whose reader leaves. */
  lemma EpipeMayFollowPartialPush()
    ensures var r := Write(NewPipe(2), [1, 2, 3, 4], false, [WriterLap(Drain(0, 0), Drain(0, 0), false)]);
            r.outcome == Done(EPIPE) && r.sent == 2
  {
  }

  /** On a full ring with a reader, a non-blocking write gets EAGAIN and changes nothing. */
  lemma WriteFullNonblocking(p: Pipe, src: seq<byte>)
    requires Fits(p) && Space(p) == 0 && p.readRefs > 0 && src != []
    ensures Write(p, src, true, []) == WriteResult(p, 0, [], Done(EAGAIN))
  {
    assert p.data + src[0..0] == p.data;
    assert Drained(p, Drain(0, p.readRefs)) == p;
  }

  // ------------------------------------------------------------------
  // When a write ends
  // ------------------------------------------------------------------

  /** What ends a blocked writer first: its readers leave, a signal comes, or nothing does yet. */
  datatype Disturbance = ReadersGone | Signal | Undisturbed

  /** It depends on the readers and the signals alone, not on the bytes or the room. */
  function FirstDisturbance(readRefs: nat, script: seq<WriterLap>): Disturbance
    decreases |script|
  {
    if script == [] then (if readRefs == 0 then ReadersGone else Undisturbed)
    else if script[0].mid.readRefs == 0 then ReadersGone
    else if script[0].interrupted then Signal
    else FirstDisturbance(script[0].nap.readRefs, script[1..])
  }

  lemma {:induction false} SignalMeans(readRefs: nat, script: seq<WriterLap>)
    ensures match FirstDisturbance(readRefs, script)
            case Signal => exists i :: 0 <= i < |script| && script[i].interrupted
            case Undisturbed => forall i :: 0 <= i < |script| ==> !script[i].interrupted && script[i].mid.readRefs > 0
            case ReadersGone =>
              || readRefs == 0
              || exists i :: 0 <= i < |script| && (script[i].mid.readRefs == 0 || script[i].nap.readRefs == 0)
    decreases |script|
  {
    if script != [] && script[0].mid.readRefs > 0 && !script[0].interrupted {
      var rest := script[1..];
      SignalMeans(script[0].nap.readRefs, rest);
      assert forall i :: 0 <= i < |rest| ==> rest[i] == script[i + 1];
      if i :| 0 <= i < |rest| && (rest[i].interrupted || rest[i].mid.readRefs == 0 || rest[i].nap.readRefs == 0) {
        assert script[i + 1] == rest[i];
      }
    }
  }

  /** What a write that did not get everything in answers to each disturbance. */
  function AnswerTo(d: Disturbance, sent: nat): Outcome {
    match d
    case ReadersGone => Done(EPIPE)
    case Signal => Done(if sent > 0 then sent else EINTR)
    case Undisturbed => Waiting
  }

  lemma FullAfterPush(p: Pipe, src: seq<byte>, sent: nat)
    requires Fits(p) && sent <= |src| && sent + Min(|src| - sent, Space(p)) < |src|
    ensures var n := Min(|src| - sent, Space(p)); |Push(p, src[sent..sent + n]).data| == p.cap
  {
  }

  lemma {:induction false} WriteLoopEnds(p: Pipe, src: seq<byte>, sent: nat, script: seq<WriterLap>)
    requires Fits(p) && sent <= |src|
    ensures var r := WriteLoop(p, src, sent, false, script);
            && r.outcome == (if r.sent == |src| then Done(|src|)
                             else AnswerTo(FirstDisturbance(p.readRefs, script), r.sent))
            && (r.outcome.Waiting? ==> |r.pipe.data| == p.cap)
    decreases |script|
  {
    match Lap(p, src, sent, false, script)
    case Stop(_) =>
      if sent + Min(|src| - sent, Space(p)) < |src| {
        FullAfterPush(p, src, sent);
      }
    case Again(q, sent1, _) =>
      LapConserves(p, src, sent, false, script);
      WriteLoopEnds(q, src, sent1, script[1..]);
  }

  /**
   A blocking write gets everything in and answers so, or answers the first disturbance: it
   never returns a short count that no signal asked for, nor waits with room in the ring.
   */
  lemma WriteEnds(p: Pipe, src: seq<byte>, script: seq<WriterLap>)
    requires Fits(p) && p.readRefs > 0
    ensures var r := Write(p, src, false, script);
            && r.outcome == (if r.sent == |src| then Done(|src|)
                             else AnswerTo(FirstDisturbance(p.readRefs, script), r.sent))
            && (r.outcome.Waiting? ==> |r.pipe.data| == p.cap)
            && (r.outcome.Done? && r.outcome.code < |src| && r.outcome.code != EPIPE ==>
                  exists i :: 0 <= i < |script| && script[i].interrupted)
  {
    WriteLoopEnds(p, src, 0, script);
    SignalMeans(p.readRefs, script);
  }

  /** A non-blocking write takes what fits now; EPIPE if the rest finds no reader. */
  lemma NonblockingWrite(p: Pipe, src: seq<byte>, script: seq<WriterLap>)
    requires Fits(p) && p.readRefs > 0
    ensures var r := Write(p, src, true, script);
            && r.sent == Min(|src|, Space(p))
            && r.outcome == if |src| <= Space(p) then Done(|src|)
                            else if script != [] && script[0].mid.readRefs == 0 then Done(EPIPE)
                            else if Space(p) > 0 then Done(Space(p)) else Done(EAGAIN)
  {
  }

  /** Readers keep taking something, stay, and nobody interrupts. */
  ghost predicate KeptDraining(script: seq<WriterLap>) {
    forall i :: 0 <= i < |script| ==>
      && script[i].mid.readRefs > 0 && script[i].nap.readRefs > 0 && !script[i].interrupted
      && script[i].mid.taken + script[i].nap.taken > 0
  }

  lemma LapProgress(p: Pipe, src: seq<byte>, sent: nat, script: seq<WriterLap>)
    requires Fits(p) && sent <= |src| && p.cap > 0 && script != [] && KeptDraining(script)
    ensures match Lap(p, src, sent, false, script)
            case Stop(r) => r.sent == |src|
            case Again(q, sent1, _) => q.cap == p.cap && Space(q) > 0 && q.readRefs > 0
  {
    var n := Min(|src| - sent, Space(p));
    if sent + n < |src| {
      FullAfterPush(p, src, sent);
      LapConserves(p, src, sent, false, script);
    }
  }

  /** With room for a byte to begin with, and as many laps of draining as bytes, a write gets everything in. */
  lemma {:induction false} DrainedWriteFinishes(p: Pipe, src: seq<byte>, sent: nat, script: seq<WriterLap>)
    requires Fits(p) && sent <= |src| && p.cap > 0 && p.readRefs > 0 && KeptDraining(script)
    requires Space(p) > 0 && |script| + 1 >= |src| - sent
    ensures WriteLoop(p, src, sent, false, script).sent == |src|
    decreases |script|
  {
    hide Lap;
    LapMeans(p, src, sent, script);
    if script != [] {
      LapProgress(p, src, sent, script);
    }
    match Lap(p, src, sent, false, script)
    case Stop(_) =>
    case Again(q, sent1, _) => DrainedWriteFinishes(q, src, sent1, script[1..]);
  }

  lemma LapMeans(p: Pipe, src: seq<byte>, sent: nat, script: seq<WriterLap>)
    requires Fits(p) && sent <= |src|
    ensures var sent1 := sent + Min(|src| - sent, Space(p));
            match Lap(p, src, sent, false, script)
            case Stop(r) => r.sent == sent1 && (sent1 == |src| ==> r.outcome == Done(|src|))
            case Again(_, s, _) => s == sent1
  {
  }

  /** A blocking write ends, with everything, when readers drain at least one byte a lap. */
  lemma WriteFinishes(p: Pipe, src: seq<byte>, script: seq<WriterLap>)
    requires Fits(p) && p.cap > 0 && p.readRefs > 0 && KeptDraining(script) && |script| >= |src|
    ensures Write(p, src, false, script).outcome == Done(|src|)
  {
    WriteEnds(p, src, script);
    if Space(p) > 0 || script == [] {
      if src != [] {
        DrainedWriteFinishes(p, src, 0, script);
      }
    } else {
      LapProgress(p, src, 0, script);
      LapMeans(p, src, 0, script);
      match Lap(p, src, 0, false, script)
      case Stop(_) =>
      case Again(q, sent1, _) => DrainedWriteFinishes(q, src, sent1, script[1..]);
    }
  }

  // ------------------------------------------------------------------
  // End of file
  // ------------------------------------------------------------------

  lemma {:induction false} ReadMeaning(p: Pipe, want: nat, nonblocking: bool, script: seq<ReaderLap>)
    requires Fits(p) && want > 0
    ensures var r := Read(p, want, nonblocking, script);
            && (r.outcome.Done? && r.outcome.code > 0 ==> |r.delivered| == r.outcome.code <= want)
            && (r.outcome.Done? && r.outcome.code < 0 ==> r.outcome.code in {EAGAIN, EINTR})
            && (!(r.outcome.Done? && r.outcome.code > 0) ==> r.delivered == [] && p.data == [])
            && (r.outcome == Done(0) ==> r.pipe.eof)
            && (p.data != [] ==> r == ReadResult(Pop(p, Min(want, |p.data|)), p.data[..Min(want, |p.data|)],
                                                 [], Done(Min(want, |p.data|))))
    decreases |script|
  {
    if p.data == [] && script != [] {
      var p1 := Arrived(p, script[0].mid);
      var p2 := Arrived(p1, script[0].nap);
      if !p1.eof && !nonblocking && !script[0].interrupted {
        ReadMeaning(p2, want, nonblocking, script[1..]);
      }
    }
  }

  /** On an empty ring a non-blocking read answers at once: 0 at EOF, else EAGAIN. */
  lemma NonblockingRead(p: Pipe, want: nat, script: seq<ReaderLap>)
    requires Fits(p) && want > 0 && p.data == []
    ensures var r := Read(p, want, true, script);
            && r.delivered == []
            && r.outcome == if p.eof || (script != [] && script[0].mid.closed) then Done(0) else Done(EAGAIN)
  {
  }

  /**
   A blocking read ends with bytes, at EOF, or with EINTR if a signal came before either; it
   waits only at an empty, open ring that nobody has pushed to, closed or interrupted.
   */
  lemma {:induction false} ReadEnds(p: Pipe, want: nat, script: seq<ReaderLap>)
    requires Fits(p) && want > 0
    ensures var r := Read(p, want, false, script);
            && r.outcome != Done(EAGAIN)
            && (r.outcome == Done(EINTR) ==> exists i :: 0 <= i < |script| && script[i].interrupted)
            && (r.outcome.Waiting? ==>
                  && p.data == [] == r.arrived && r.pipe.data == [] && !p.eof && !r.pipe.eof
                  && forall i :: 0 <= i < |script| ==>
                       !script[i].interrupted && !script[i].mid.closed && !script[i].nap.closed)
    decreases |script|
  {
    if p.data == [] && script != [] {
      var p1 := Arrived(p, script[0].mid);
      var p2 := Arrived(p1, script[0].nap);
      if !p1.eof && !script[0].interrupted {
        var rest := script[1..];
        ReadEnds(p2, want, rest);
        assert forall i :: 0 <= i < |rest| ==> rest[i] == script[i + 1];
        if i :| 0 <= i < |rest| && rest[i].interrupted {
          assert script[i + 1].interrupted;
        }
        assert forall i :: 1 <= i < |script| ==> script[i] == rest[i - 1];
      }
    }
  }

  /**
   A write end is open as long as the latch is down, so while no arrival closes the pipe a
   read never returns 0.
   */
  lemma {:induction false} NoZeroWhileOpen(p: Pipe, want: nat, nonblocking: bool, script: seq<ReaderLap>)
    requires Fits(p) && want > 0 && !p.eof
    requires forall i :: 0 <= i < |script| ==> !script[i].mid.closed && !script[i].nap.closed
    ensures Read(p, want, nonblocking, script).outcome != Done(0)
    decreases |script|
  {
    if p.data == [] && script != [] {
      var p2 := Arrived(Arrived(p, script[0].mid), script[0].nap);
      if !nonblocking && !script[0].interrupted {
        NoZeroWhileOpen(p2, want, nonblocking, script[1..]);
      }
    }
  }

  /**
   In some lap the last writer pushes bytes and leaves between the reader's empty pop and its
   EOF check, and the reader gets as far as that lap.
   */
  ghost predicate PushThenClose(p: Pipe, nonblocking: bool, script: seq<ReaderLap>)
    requires Fits(p)
    decreases |script|
  {
    && script != [] && p.data == [] && !p.eof
    && if script[0].mid.closed then Arriving(p, script[0].mid) != []
       else !nonblocking && !script[0].interrupted
            && PushThenClose(Arrived(Arrived(p, script[0].mid), script[0].nap), nonblocking, script[1..])
  }

  /**
   A read that returns 0 promises that the ring is drained. With the pop and the EOF check
   as two steps this is false: a writer that pushes and closes between them is announced as
   end of file with its bytes still in the ring.
   */
  lemma EarlyEof()
    ensures var r := Read(NewPipe(4), 1, false, [ReaderLap(Arrival([7], true), Quiet, false)]);
            r.outcome == Done(0) && r.pipe.data == [7]
  {
  }

  /** Exactly when end of file is announced with bytes still in the ring. */
  lemma {:induction false} ZeroMeansDrainedUnless(p: Pipe, want: nat, nonblocking: bool, script: seq<ReaderLap>)
    requires Fits(p) && want > 0
    ensures var r := Read(p, want, nonblocking, script);
            r.outcome == Done(0) && r.pipe.data != [] <==> PushThenClose(p, nonblocking, script)
    decreases |script|
  {
    if p.data == [] && !p.eof && script != [] {
      var p1 := Arrived(p, script[0].mid);
      if !p1.eof && !nonblocking && !script[0].interrupted {
        ZeroMeansDrainedUnless(Arrived(p1, script[0].nap), want, nonblocking, script[1..]);
      }
    }
  }

  // ------------------------------------------------------------------
  // Whole runs
  // ------------------------------------------------------------------

  /** The system calls a pipe sees; each blocking one carries what the other side did meanwhile. */
  datatype Call =
    | WriteCall(src: seq<byte>, nonblockingWrite: bool, writerScript: seq<WriterLap>)
    | ReadCall(want: nat, nonblockingRead: bool, readerScript: seq<ReaderLap>)
    | DupWrite
    | CloseWrite
    | DupRead
    | CloseRead

  /** A pipe with everything ever accepted into it and everything ever delivered from it. */
  datatype History = History(pipe: Pipe, accepted: seq<byte>, delivered: seq<byte>)

  function Step(h: History, c: Call): History
    requires Fits(h.pipe)
  {
    match c
    case WriteCall(src, nb, script) =>
      var r := Write(h.pipe, src, nb, script);
      History(r.pipe, h.accepted + src[..r.sent], h.delivered + r.drained)
    case ReadCall(want, nb, script) =>
      var r := Read(h.pipe, want, nb, script);
      History(r.pipe, h.accepted + r.arrived, h.delivered + r.delivered)
    case DupWrite => if h.pipe.writeRefs > 0 then h.(pipe := IncrWrite(h.pipe)) else h
    case CloseWrite => if h.pipe.writeRefs > 0 then h.(pipe := DecrWrite(h.pipe)) else h
    case DupRead => if h.pipe.readRefs > 0 then h.(pipe := IncrRead(h.pipe)) else h
    case CloseRead => if h.pipe.readRefs > 0 then h.(pipe := DecrRead(h.pipe)) else h
  }

  /** Bytes delivered so far followed by the ring's content are the bytes accepted so far. */
  ghost predicate Conserved(h: History) {
    && Fits(h.pipe)
    && h.delivered + h.pipe.data == h.accepted
  }

  lemma WriteStepConserves(h: History, r: WriteResult, more: seq<byte>)
    requires Conserved(h)
    requires r.drained + r.pipe.data == h.pipe.data + more
    ensures (h.delivered + r.drained) + r.pipe.data == h.accepted + more
  {
    Chain(h.delivered, r.drained, r.pipe.data, h.pipe.data, more);
  }

  lemma StepConserves(h: History, c: Call)
    requires Conserved(h)
    ensures Conserved(Step(h, c)) && Step(h, c).pipe.cap == h.pipe.cap
  {
    match c
    case WriteCall(src, nb, script) =>
      var r := Write(h.pipe, src, nb, script);
      WriteMeaning(h.pipe, src, nb, script);
      WriteStepConserves(h, r, src[..r.sent]);
    case ReadCall(want, nb, script) =>
      var r := Read(h.pipe, want, nb, script);
      ReadConserves(h.pipe, want, nb, script);
      Chain(h.delivered, r.delivered, r.pipe.data, h.pipe.data, r.arrived);
    case _ =>
  }

  function Run(h: History, calls: seq<Call>): (r: History)
    requires Conserved(h)
    ensures Conserved(r) && r.pipe.cap == h.pipe.cap
    decreases |calls|
  {
    if calls == [] then h
    else
      StepConserves(h, calls[0]);
      Run(Step(h, calls[0]), calls[1..])
  }

  /** A fresh pipe is a stream: after any run, what came out is a prefix of what went in, ring-bounded. */
  lemma FreshPipeIsAStream(cap: nat, calls: seq<Call>)
    ensures var h := Run(History(NewPipe(cap), [], []), calls);
            && h.delivered <= h.accepted
            && |h.accepted| - |h.delivered| == |h.pipe.data| <= cap
  {
    var h := Run(History(NewPipe(cap), [], []), calls);
    assert h.delivered == h.accepted[..|h.delivered|];
  }

  // ------------------------------------------------------------------
  // After the last write end closes
  // ------------------------------------------------------------------

  /** The answers of successive reads of the given sizes. */
  function Reads(p: Pipe, sizes: seq<nat>, nonblocking: bool): (out: seq<ReadResult>)
    requires Fits(p)
    ensures |out| == |sizes|
    decreases |sizes|
  {
    if sizes == [] then []
    else
      var r := Read(p, sizes[0], nonblocking, []);
      [r] + Reads(r.pipe, sizes[1..], nonblocking)
  }

  /** Bytes asked for by the first `k` reads. */
  function Asked(sizes: seq<nat>, k: nat): nat
    requires k <= |sizes|
  {
    if k == 0 then 0 else sizes[0] + Asked(sizes[1..], k - 1)
  }

  /** The answer that hands out `data[from..]`, at most `want` bytes of it. */
  function Slice(p: Pipe, from: nat, want: nat): ReadResult
    requires from <= |p.data|
  {
    var to := Min(from + want, |p.data|);
    ReadResult(p.(data := p.data[to..]), p.data[from..to], [], Done(to - from))
  }

  lemma EofRead(p: Pipe, want: nat, nonblocking: bool)
    requires Fits(p) && p.eof && want > 0
    ensures Read(p, want, nonblocking, []) == Slice(p, 0, want)
  {
    assert p.data + [] == p.data;
  }

  lemma SliceOfRest(p: Pipe, n: nat, from: nat, want: nat)
    requires n + from <= |p.data|
    ensures Slice(p.(data := p.data[n..]), from, want) == Slice(p, n + from, want)
  {
    var to := Min(n + from + want, |p.data|);
    assert p.data[n..][from..to - n] == p.data[n + from..to];
    assert p.data[n..][to - n..] == p.data[to..];
  }

  lemma ReadsUnfold(p: Pipe, sizes: seq<nat>, nonblocking: bool)
    requires Fits(p) && p.eof && sizes != [] && sizes[0] > 0
    ensures Reads(p, sizes, nonblocking)
            == [Slice(p, 0, sizes[0])] + Reads(p.(data := p.data[Min(sizes[0], |p.data|)..]), sizes[1..], nonblocking)
  {
    EofRead(p, sizes[0], nonblocking);
  }

  lemma {:induction false} ReadsSlices(p: Pipe, sizes: seq<nat>, nonblocking: bool, k: nat)
    requires Fits(p) && p.eof && k < |sizes|
    requires forall i :: 0 <= i < |sizes| ==> sizes[i] > 0
    ensures Reads(p, sizes, nonblocking)[k] == Slice(p, Min(Asked(sizes, k), |p.data|), sizes[k])
    decreases k
  {
    hide Read, Slice, Reads;
    ReadsUnfold(p, sizes, nonblocking);
    if k > 0 {
      var n := Min(sizes[0], |p.data|);
      var q := p.(data := p.data[n..]);
      assert sizes[1..][k - 1] == sizes[k];
      ReadsSlices(q, sizes[1..], nonblocking, k - 1);
      SliceOfRest(p, n, Min(Asked(sizes[1..], k - 1), |q.data|), sizes[k]);
    }
  }

  /**
   After the last write end closes, read `k` gets the next slice of the bytes then in the
   ring, in order, and 0 exactly when the earlier reads asked for all of them.
   */
  lemma DrainsThenZero(p: Pipe, sizes: seq<nat>, nonblocking: bool, k: nat)
    requires Fits(p) && p.eof && k < |sizes|
    requires forall i :: 0 <= i < |sizes| ==> sizes[i] > 0
    ensures var r := Reads(p, sizes, nonblocking)[k];
            var from := Min(Asked(sizes, k), |p.data|);
            var to := Min(from + sizes[k], |p.data|);
            && r.delivered == p.data[from..to]
            && r.pipe == p.(data := p.data[to..])
            && r.outcome == Done(to - from)
            && (r.outcome == Done(0) <==> Asked(sizes, k) >= |p.data|)
  {
    ReadsSlices(p, sizes, nonblocking, k);
  }

  // ------------------------------------------------------------------
  // Single-copy read against staged read
  // ------------------------------------------------------------------

  /**
   The two read entry points agree on every non-empty request. On an empty one the
   single-copy path answers 0 at once and the staged path goes on to its EOF check, so they
   agree exactly when that check ends the call.
   */
  lemma SingleCopyAgrees(p: Pipe, want: nat, nonblocking: bool, script: seq<ReaderLap>)
    requires Fits(p)
    ensures ReadToCage(p, want, nonblocking, script).outcome == Read(p, want, nonblocking, script).outcome
            <==> want > 0 || EofSeen(p.eof, nonblocking, script)
  {
    if want == 0 {
      EmptyReadIsEofTest(p, nonblocking, script);
    }
  }

  /** An empty read of an open, empty pipe: 0 on one path, EAGAIN on the other. */
  lemma EmptyReadsDiffer()
    ensures ReadToCage(NewPipe(1), 0, true, []).outcome == Done(0)
    ensures Read(NewPipe(1), 0, true, []).outcome == Done(EAGAIN)
  {
  }

  /** The latch is up, or goes up before an EOF check the caller gets to. */
  predicate EofSeen(latched: bool, nonblocking: bool, script: seq<ReaderLap>)
    decreases |script|
  {
    || latched
    || (script != [] && script[0].mid.closed)
    || (script != [] && !nonblocking && !script[0].interrupted
        && EofSeen(script[0].nap.closed, nonblocking, script[1..]))
  }

  lemma {:induction false} EmptyReadIsEofTest(p: Pipe, nonblocking: bool, script: seq<ReaderLap>)
    requires Fits(p)
    ensures Read(p, 0, nonblocking, script).outcome == Done(0) <==> EofSeen(p.eof, nonblocking, script)
    decreases |script|
  {
    if !p.eof && script != [] && !script[0].mid.closed && !nonblocking && !script[0].interrupted {
      EmptyReadIsEofTest(Arrived(Arrived(p, script[0].mid), script[0].nap), nonblocking, script[1..]);
    }
  }
}
