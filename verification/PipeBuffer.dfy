/**
 The ring buffer behind a pipe, and the four ways to move bytes through it. The staged
 calls go byte by byte through a grate-side buffer; the single-copy calls move whole blocks
 between cage memory and the two contiguous halves of the ring. Both are proved against the
 same functions on pipe values, for every wrap position.
 */
module PipeBuffers {
  import opened Bytes
  import opened Pipes

  /** Storage index of the `i`-th byte of a ring that starts at `start`. */
  function Slot(start: nat, i: nat, cap: nat): int {
    if start + i < cap then start + i else start + i - cap
  }

  /** The `len` bytes of the ring, oldest first. */
  function Content(storage: seq<byte>, start: nat, len: nat): (s: seq<byte>)
    requires len <= |storage| && (start < |storage| || start == |storage| == 0)
    ensures |s| == len
  {
    seq(len, i requires 0 <= i < len => storage[Slot(start, i, |storage|)])
  }

  /** `mem` with `bytes` written at `addr` and every other byte kept. */
  function Overwrite(mem: seq<byte>, addr: nat, bytes: seq<byte>): (r: seq<byte>)
    requires addr + |bytes| <= |mem|
    ensures |r| == |mem|
    ensures forall a :: 0 <= a < |mem| ==> r[a] == if addr <= a < addr + |bytes| then bytes[a - addr] else mem[a]
  {
    mem[..addr] + bytes + mem[addr + |bytes|..]
  }

  lemma Extended(before: seq<byte>, after: seq<byte>, start: nat, len: nat, more: seq<byte>)
    requires |before| == |after| && len + |more| <= |before| && (start < |before| || start == |before| == 0)
    requires forall i :: 0 <= i < len ==>
               after[Slot(start, i, |before|)] == before[Slot(start, i, |before|)]
    requires forall k :: len <= k < len + |more| ==> after[Slot(start, k, |before|)] == more[k - len]
    ensures Content(after, start, len + |more|) == Content(before, start, len) + more
  {
  }

  lemma Advanced(storage: seq<byte>, start: nat, len: nat, n: nat)
    requires n <= len <= |storage| && (start < |storage| || start == |storage| == 0)
    ensures Content(storage, Slot(start, n, |storage|), len - n) == Content(storage, start, len)[n..]
  {
  }

  lemma OverwriteNothing(mem: seq<byte>, addr: nat)
    requires addr <= |mem|
    ensures Overwrite(mem, addr, []) == mem
  {
  }

  /** The result of a call of which readers had already taken `gone` when it went on as `rest`. */
  ghost function Resumed(gone: seq<byte>, rest: WriteResult): WriteResult {
    rest.(drained := gone + rest.drained)
  }

  lemma ResumedLast(gone: seq<byte>, p: Pipe, src: seq<byte>, sent: nat, nonblocking: bool, script: seq<WriterLap>)
    requires Fits(p) && sent <= |src|
    ensures Min(|src| - sent, Space(p)) == |src| - sent ==>
              Resumed(gone, WriteLoop(p, src, sent, nonblocking, script))
              == WriteResult(Push(p, src[sent..]), |src|, gone, Done(|src|))
    ensures Lap(p, src, sent, nonblocking, script).Stop? ==>
              var r := Lap(p, src, sent, nonblocking, script).result;
              Resumed(gone, WriteLoop(p, src, sent, nonblocking, script)) == r.(drained := gone + r.drained)
  {
  }

  lemma ResumedOnce(gone: seq<byte>, p: Pipe, src: seq<byte>, sent: nat, nonblocking: bool, script: seq<WriterLap>)
    requires Fits(p) && sent <= |src| && Lap(p, src, sent, nonblocking, script).Again?
    ensures var e := Lap(p, src, sent, nonblocking, script);
            Resumed(gone, WriteLoop(p, src, sent, nonblocking, script))
            == Resumed(gone + e.got, WriteLoop(e.pipe, src, e.sent, nonblocking, script[1..]))
  {
    var e := Lap(p, src, sent, nonblocking, script);
    var rest := WriteLoop(e.pipe, src, e.sent, nonblocking, script[1..]);
    assert gone + (e.got + rest.drained) == (gone + e.got) + rest.drained;
  }

  /** The result of a call during which writers had already pushed `came` when it went on as `rest`. */
  ghost function Later(came: seq<byte>, rest: ReadResult): ReadResult {
    rest.(arrived := came + rest.arrived)
  }

  lemma ReadNow(came: seq<byte>, p: Pipe, want: nat, nonblocking: bool, script: seq<ReaderLap>)
    requires Fits(p)
    ensures var n := Min(want, |p.data|);
            n > 0 ==>
              Later(came, Read(p, want, nonblocking, script)) == ReadResult(Pop(p, n), p.data[..n], came, Done(n))
  {
  }

  lemma LaterTwice(came: seq<byte>, more: seq<byte>, rest: ReadResult)
    ensures Later(came, Later(more, rest)) == Later(came + more, rest)
  {
    assert came + (more + rest.arrived) == (came + more) + rest.arrived;
  }

  class PipeBuffer {
    const buf: array<byte>
    var start: nat
    var len: nat
    var writeRefs: nat
    var readRefs: nat
    var eof: bool

    ghost predicate Valid()
      reads this
    {
      && len <= buf.Length
      && (start < buf.Length || (start == 0 && buf.Length == 0))
    }

    /** The bytes in the ring, oldest first. */
    ghost function Data(): (s: seq<byte>)
      requires Valid()
      reads this, buf
    {
      Content(buf[..], start, len)
    }

    ghost function Value(): Pipe
      requires Valid()
      reads this, buf
    {
      Pipe(writeRefs, readRefs, eof, buf.Length, Data())
    }

    constructor (capacity: nat)
      ensures Valid() && fresh(buf)
      ensures Value() == NewPipe(capacity)
    {
      buf := new byte[capacity](_ => 0);
      start, len := 0, 0;
      writeRefs, readRefs, eof := 1, 1, false;
    }

    /** Index of the first free slot. */
    function Tail(): (t: nat)
      requires Valid()
      reads this
      ensures len < buf.Length ==> t < buf.Length
    {
      if start + len < buf.Length then start + len else start + len - buf.Length
    }

    method PushByte(b: byte)
      requires Valid() && len < buf.Length
      modifies this`len, buf
      ensures Valid() && Value() == Push(old(Value()), [b])
    {
      buf[Tail()] := b;
      len := len + 1;
    }

    method PopByte() returns (b: byte)
      requires Valid() && len > 0
      modifies this`start, this`len
      ensures Valid() && b == old(Data())[0] && Value() == Pop(old(Value()), 1)
    {
      b := buf[start];
      start, len := if start + 1 == buf.Length then 0 else start + 1, len - 1;
    }

    /** Staged push: as many bytes of `src` as fit. */
    method PushSlice(src: seq<byte>) returns (n: nat)
      requires Valid()
      modifies this`len, buf
      ensures Valid() && n == Min(|src|, Space(old(Value())))
      ensures Value() == Push(old(Value()), src[..n])
    {
      n := 0;
      while n < |src| && len < buf.Length
        invariant n <= |src| && Valid() && len == old(len) + n
        invariant Value() == Push(old(Value()), src[..n])
      {
        PushByte(src[n]);
        assert src[..n + 1] == src[..n] + [src[n]];
        n := n + 1;
      }
    }

    /** Staged pop of up to `want` bytes. */
    method PopSlice(want: nat) returns (out: seq<byte>)
      requires Valid()
      modifies this`start, this`len
      ensures Valid() && var n := Min(want, old(len));
              out == old(Data())[..n] && Value() == Pop(old(Value()), n)
    {
      out := [];
      while |out| < want && len > 0
        invariant |out| <= want && Valid() && len + |out| == old(len)
        invariant out == old(Data())[..|out|] && Value() == Pop(old(Value()), |out|)
      {
        var b := PopByte();
        out := out + [b];
      }
    }

    /** Block copy out of cage memory into the ring storage. */
    method CopyIn(mem: array<byte>, addr: nat, at: nat, n: nat)
      requires mem != buf && addr + n <= mem.Length && at + n <= buf.Length
      modifies buf
      ensures forall i :: 0 <= i < buf.Length ==>
                buf[i] == if at <= i < at + n then mem[addr + i - at] else old(buf[i])
    {
      forall i | 0 <= i < n { buf[at + i] := mem[addr + i]; }
    }

    /** Block copy out of the ring storage into cage memory. */
    method CopyOut(mem: array<byte>, addr: nat, at: nat, n: nat)
      requires mem != buf && addr + n <= mem.Length && at + n <= buf.Length
      modifies mem
      ensures forall i :: 0 <= i < mem.Length ==>
                mem[i] == if addr <= i < addr + n then buf[at + i - addr] else old(mem[i])
    {
      forall i | 0 <= i < n { mem[addr + i] := buf[at + i]; }
    }

    /** The copies of a single-copy push: up to the end of the storage, then from its beginning. */
    method FillFree(mem: array<byte>, addr: nat, want: nat) returns (n: nat)
      requires Valid() && mem != buf && addr + want <= mem.Length
      modifies buf
      ensures n == Min(want, buf.Length - len)
      ensures forall i :: 0 <= i < len ==>
                buf[Slot(start, i, buf.Length)] == old(buf[Slot(start, i, buf.Length)])
      ensures forall k :: len <= k < len + n ==> buf[Slot(start, k, buf.Length)] == mem[addr + (k - len)]
    {
      var tail := Tail();
      var left := if start + len < buf.Length then buf.Length - tail else buf.Length - len;
      var right := if start + len < buf.Length then start else 0;
      n := 0;
      var nLeft := Min(want, left);
      if nLeft > 0 {
        CopyIn(mem, addr, tail, nLeft);
        n := n + nLeft;
      }
      var nRight := Min(want - n, right);
      if nRight > 0 {
        CopyIn(mem, addr + n, 0, nRight);
        n := n + nRight;
      }
    }

    /** Single-copy push of `src[from..]`, which is in cage memory at `addr`. */
    method PushFromCage(mem: array<byte>, addr: nat, want: nat, ghost src: seq<byte>, ghost from: nat) returns (n: nat)
      requires Valid() && mem != buf && addr + want <= mem.Length
      requires from + want == |src| && forall k :: from <= k < |src| ==> src[k] == mem[addr + (k - from)]
      modifies this`len, buf
      ensures Valid() && n == Min(want, Space(old(Value())))
      ensures Value() == Push(old(Value()), src[from..from + n])
    {
      n := FillFree(mem, addr, want);
      Extended(old(buf[..]), buf[..], start, len, src[from..from + n]);
      len := len + n;
    }

    /** The copies of a single-copy pop: up to the end of the storage, then the wrapped part. */
    method TakeOccupied(mem: array<byte>, addr: nat, want: nat) returns (n: nat)
      requires Valid() && mem != buf && addr + want <= mem.Length
      modifies mem
      ensures n == Min(want, len)
      ensures forall i :: 0 <= i < mem.Length ==>
                mem[i] == if addr <= i < addr + n then buf[Slot(start, i - addr, buf.Length)] else old(mem[i])
    {
      var left := if start + len <= buf.Length then len else buf.Length - start;
      var right := len - left;
      n := 0;
      var nLeft := Min(want, left);
      if nLeft > 0 {
        CopyOut(mem, addr, start, nLeft);
        n := n + nLeft;
      }
      var nRight := Min(want - n, right);
      if nRight > 0 {
        CopyOut(mem, addr + n, 0, nRight);
        n := n + nRight;
      }
    }

    method PopToCage(mem: array<byte>, addr: nat, want: nat) returns (n: nat)
      requires Valid() && mem != buf && addr + want <= mem.Length
      modifies this`start, this`len, mem
      ensures Valid() && n == Min(want, old(len))
      ensures Value() == Pop(old(Value()), n)
      ensures mem[..] == Overwrite(old(mem[..]), addr, old(Data())[..n])
    {
      n := TakeOccupied(mem, addr, want);
      ghost var d := Data();
      assert mem[..] == Overwrite(old(mem[..]), addr, d[..n]);
      Advanced(buf[..], start, len, n);
      start := if start + n < buf.Length then start + n else start + n - buf.Length;
      len := len - n;
    }

    /** What readers do while a writer waits. */
    method LetReadersRun(d: Drain) returns (ghost got: seq<byte>)
      requires Valid()
      modifies this`start, this`len, this`readRefs
      ensures Valid() && Value() == Drained(old(Value()), d)
      ensures got == old(Data())[..Taken(old(Value()), d)]
    {
      got := PopSlice(Min(d.taken, len));
      readRefs := d.readRefs;
    }

    /** What writers do while a reader waits. */
    method LetWritersRun(a: Arrival) returns (ghost came: seq<byte>)
      requires Valid()
      modifies this`len, this`writeRefs, this`eof, buf
      ensures Valid() && Value() == Arrived(old(Value()), a)
      ensures came == Arriving(old(Value()), a)
    {
      came := [];
      if eof {
        assert Data() + [] == Data();
      } else {
        var n := PushSlice(a.pushed);
        came := a.pushed[..n];
      }
      if a.closed {
        writeRefs, eof := 0, true;
      }
    }

    /** A writer's lap after its push left bytes over: broken pipe, then non-blocking, then a nap. */
    method WriterTail(total: nat, nonblocking: bool, script: seq<WriterLap>, i: nat,
                      ghost p: Pipe, ghost src: seq<byte>, ghost from: nat)
      returns (stop: bool, outcome: Outcome, ghost got: seq<byte>)
      requires Valid() && i <= |script| && Fits(p) && from <= total < |src|
      requires total - from == Min(|src| - from, Space(p))
      requires Value() == Push(p, src[from..total])
      modifies this`start, this`len, this`readRefs
      ensures Valid() && (stop || i < |script|)
      ensures Lap(p, src, from, nonblocking, script[i..])
              == if stop then Stop(WriteResult(Value(), total, got, outcome)) else Again(Value(), total, got)
    {
      if i < |script| {
        got := LetReadersRun(script[i].mid);
      } else {
        got := LetReadersRun(Drain(0, readRefs));
      }
      if readRefs == 0 {
        return true, Done(EPIPE), got;
      }
      if nonblocking {
        return true, Done(if total > 0 then total else EAGAIN), got;
      }
      if i == |script| {
        return true, Waiting, got;
      }
      ghost var more := LetReadersRun(script[i].nap);
      got := got + more;
      return script[i].interrupted, Done(if total > 0 then total else EINTR), got;
    }

    method Write(src: seq<byte>, count: nat, nonblocking: bool, script: seq<WriterLap>)
      returns (outcome: Outcome, ghost sent: nat, ghost gone: seq<byte>)
      requires Valid()
      modifies this, buf
      ensures Valid()
      ensures WriteResult(Value(), sent, gone, outcome)
              == Pipes.Write(old(Value()), src[..Min(count, |src|)], nonblocking, script)
    {
      hide Lap, WriteLoop, Content;
      sent, gone := 0, [];
      if readRefs == 0 {
        return Done(EPIPE), 0, [];
      }
      var writeCount := Min(count, |src|);
      ghost var all := src[..writeCount];
      ghost var want := WriteLoop(Value(), all, 0, nonblocking, script);
      var total: nat, i: nat := 0, 0;
      while total < writeCount
        invariant Valid() && total <= writeCount && i <= |script|
        invariant want == Resumed(gone, WriteLoop(Value(), all, total, nonblocking, script[i..]))
        decreases |script| - i
      {
        ghost var p, from := Value(), total;
        var n := PushSlice(src[total..writeCount]);
        assert src[total..writeCount][..n] == all[total..total + n];
        total := total + n;
        ResumedLast(gone, p, all, from, nonblocking, script[i..]);
        if total >= writeCount {
          return Done(total), total, gone;
        }
        var stop, o, got := WriterTail(total, nonblocking, script, i, p, all, from);
        if stop {
          return o, total, gone + got;
        }
        ResumedOnce(gone, p, all, from, nonblocking, script[i..]);
        assert script[i..][1..] == script[i + 1..];
        gone := gone + got;
        i := i + 1;
      }
      ResumedLast(gone, Value(), all, total, nonblocking, script[i..]);
      assert Data() + [] == Data();
      return Done(total), total, gone;
    }

    /** Single-copy write out of cage memory: the same answer, the same ring, and `mem` untouched. */
    method WriteFromCage(mem: array<byte>, addr: nat, count: nat, nonblocking: bool, script: seq<WriterLap>)
      returns (outcome: Outcome, ghost sent: nat, ghost gone: seq<byte>)
      requires Valid() && mem != buf && addr + count <= mem.Length
      modifies this, buf
      ensures Valid()
      ensures WriteResult(Value(), sent, gone, outcome)
              == Pipes.Write(old(Value()), mem[addr..addr + count], nonblocking, script)
    {
      hide Lap, WriteLoop, Content;
      sent, gone := 0, [];
      if readRefs == 0 {
        return Done(EPIPE), 0, [];
      }
      ghost var all := mem[addr..addr + count];
      ghost var want := WriteLoop(Value(), all, 0, nonblocking, script);
      if count == 0 {
        ResumedLast([], Value(), all, 0, nonblocking, script);
        assert Data() + [] == Data();
        return Done(0), 0, [];
      }
      var total: nat, i: nat := 0, 0;
      while total < count
        invariant Valid() && total <= count && i <= |script|
        invariant want == Resumed(gone, WriteLoop(Value(), all, total, nonblocking, script[i..]))
        decreases |script| - i
      {
        ghost var p, from := Value(), total;
        var pushed := PushFromCage(mem, addr + total, count - total, all, total);
        total := total + pushed;
        ResumedLast(gone, p, all, from, nonblocking, script[i..]);
        if total >= count {
          return Done(total), total, gone;
        }
        var stop, o, got := WriterTail(total, nonblocking, script, i, p, all, from);
        if stop {
          return o, total, gone + got;
        }
        ResumedOnce(gone, p, all, from, nonblocking, script[i..]);
        assert script[i..][1..] == script[i + 1..];
        gone := gone + got;
        i := i + 1;
      }
      ResumedLast(gone, Value(), all, total, nonblocking, script[i..]);
      assert Data() + [] == Data();
      return Done(total), total, gone;
    }

    /** A reader's lap after an empty pop: EOF, then non-blocking, then a nap. */
    method ReaderTail(nonblocking: bool, script: seq<ReaderLap>, i: nat, ghost want: nat)
      returns (stop: bool, outcome: Outcome, ghost came: seq<byte>)
      requires Valid() && i <= |script| && Min(want, len) == 0
      modifies this`len, this`writeRefs, this`eof, buf
      ensures Valid() && (stop || i < |script|)
      ensures Read(old(Value()), want, nonblocking, script[i..])
              == if stop then ReadResult(Value(), [], came, outcome)
                 else Later(came, Read(Value(), want, nonblocking, script[i..][1..]))
    {
      if i < |script| {
        came := LetWritersRun(script[i].mid);
      } else {
        came := LetWritersRun(Quiet);
      }
      if eof {
        return true, Done(0), came;
      }
      if nonblocking {
        return true, Done(EAGAIN), came;
      }
      if i == |script| {
        return true, Waiting, came;
      }
      ghost var more := LetWritersRun(script[i].nap);
      came := came + more;
      return script[i].interrupted, Done(EINTR), came;
    }

    /** Staged read into a grate-side buffer of `room` bytes. */
    method ReadStaged(room: nat, count: nat, nonblocking: bool, script: seq<ReaderLap>)
      returns (outcome: Outcome, out: seq<byte>, ghost came: seq<byte>)
      requires Valid()
      modifies this, buf
      ensures Valid()
      ensures ReadResult(Value(), out, came, outcome) == Read(old(Value()), Min(count, room), nonblocking, script)
    {
      hide Read, Content;
      var readCount := Min(count, room);
      ghost var want := Read(Value(), readCount, nonblocking, script);
      came := [];
      var i: nat := 0;
      while true
        invariant Valid() && i <= |script|
        invariant want == Later(came, Read(Value(), readCount, nonblocking, script[i..]))
        decreases |script| - i
      {
        ghost var p := Value();
        ReadNow(came, p, readCount, nonblocking, script[i..]);
        out := PopSlice(readCount);
        if |out| > 0 {
          return Done(|out|), out, came;
        }
        assert Value() == p;
        var stop, o, more := ReaderTail(nonblocking, script, i, readCount);
        if stop {
          return o, [], came + more;
        }
        LaterTwice(came, more, Read(Value(), readCount, nonblocking, script[i..][1..]));
        came := came + more;
        assert script[i..][1..] == script[i + 1..];
        i := i + 1;
      }
    }

    /** Single-copy read into cage memory: the bytes land at `addr` and no other byte of `mem` changes. */
    method ReadToCage(mem: array<byte>, addr: nat, count: nat, nonblocking: bool, script: seq<ReaderLap>)
      returns (outcome: Outcome, ghost out: seq<byte>, ghost came: seq<byte>)
      requires Valid() && mem != buf && addr + count <= mem.Length
      modifies this, buf, mem
      ensures Valid()
      ensures ReadResult(Value(), out, came, outcome) == Pipes.ReadToCage(old(Value()), count, nonblocking, script)
      ensures |out| <= count && mem[..] == Overwrite(old(mem[..]), addr, out)
    {
      hide Read, Content, Overwrite;
      out, came := [], [];
      OverwriteNothing(mem[..], addr);
      if count == 0 {
        return Done(0), [], [];
      }
      ghost var want := Read(Value(), count, nonblocking, script);
      var i: nat := 0;
      while true
        invariant Valid() && i <= |script|
        invariant want == Later(came, Read(Value(), count, nonblocking, script[i..]))
        invariant mem[..] == old(mem[..])
        decreases |script| - i
      {
        ghost var p := Value();
        ReadNow(came, p, count, nonblocking, script[i..]);
        var popped := PopToCage(mem, addr, count);
        if popped > 0 {
          return Done(popped), p.data[..popped], came;
        }
        assert Value() == p;
        var stop, o, more := ReaderTail(nonblocking, script, i, count);
        if stop {
          return o, [], came + more;
        }
        LaterTwice(came, more, Read(Value(), count, nonblocking, script[i..][1..]));
        came := came + more;
        assert script[i..][1..] == script[i + 1..];
        i := i + 1;
      }
    }
  }
}
