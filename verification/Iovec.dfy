/**
 readv() and writev() on a pipe: scatter and gather over segments of a cage's memory.

 The segment list is a value, so it lies outside the memory being written.
 */
module Iovecs {
  import opened Bytes
  import opened Pipes
  import opened PipeBuffers

  const MAX_IOV := 1024

  datatype Segment = Segment(base: nat, len: nat)

  datatype Result<T> = Ok(value: T) | Err(code: int)

  ghost predicate Within(segs: seq<Segment>, size: nat) {
    forall i :: 0 <= i < |segs| ==> segs[i].base + segs[i].len <= size
  }

  predicate Inside(s: Segment, a: nat) {
    s.base <= a < s.base + s.len
  }

  /** No two segments share an address. */
  ghost predicate Apart(segs: seq<Segment>) {
    forall i, j, a :: 0 <= i < j < |segs| && Inside(segs[i], a) ==> !Inside(segs[j], a)
  }

  ghost predicate Covered(segs: seq<Segment>, a: nat) {
    exists i :: 0 <= i < |segs| && Inside(segs[i], a)
  }

  /** The bytes of the segments, one segment after the other. */
  ghost function Stream(mem: seq<byte>, segs: seq<Segment>): (s: seq<byte>)
    requires Within(segs, |mem|)
    ensures |s| == Capacity(segs)
  {
    if segs == [] then []
    else
      var k := |segs| - 1;
      Stream(mem, segs[..k]) + mem[segs[k].base..segs[k].base + segs[k].len]
  }

  ghost function Capacity(segs: seq<Segment>): nat {
    if segs == [] then 0 else Capacity(segs[..|segs| - 1]) + segs[|segs| - 1].len
  }

  lemma WithinFront(segs: seq<Segment>, size: nat, i: nat)
    requires Within(segs, size) && i < |segs|
    ensures Within(segs[..i], size) && Within(segs[..i + 1], size) && segs[i].base + segs[i].len <= size
  {
  }

  lemma {:induction false} StreamDepends(mem: seq<byte>, mem': seq<byte>, segs: seq<Segment>)
    requires |mem| == |mem'| && Within(segs, |mem|)
    requires forall a :: 0 <= a < |mem| && Covered(segs, a) ==> mem[a] == mem'[a]
    ensures Stream(mem, segs) == Stream(mem', segs)
  {
    hide Within;
    if segs != [] {
      var k := |segs| - 1;
      WithinFront(segs, |mem|, k);
      forall a | 0 <= a < |mem| && Covered(segs[..k], a) ensures mem[a] == mem'[a] {
        var i :| 0 <= i < k && Inside(segs[..k][i], a);
        assert Inside(segs[i], a);
      }
      StreamDepends(mem, mem', segs[..k]);
      forall a | segs[k].base <= a < segs[k].base + segs[k].len ensures mem[a] == mem'[a] {
        assert Inside(segs[k], a);
      }
    }
  }

  lemma StreamSnoc(mem: seq<byte>, segs: seq<Segment>, i: nat)
    requires Within(segs, |mem|) && i < |segs|
    ensures Stream(mem, segs[..i + 1]) == Stream(mem, segs[..i]) + mem[segs[i].base..segs[i].base + segs[i].len]
    ensures Capacity(segs[..i + 1]) == Capacity(segs[..i]) + segs[i].len
  {
    hide *;
    WithinFront(segs, |mem|, i);
    var front, last := segs[..i], segs[i];
    assert segs[..i + 1] == front + [last];
    StreamGrows(mem, front, last);
  }

  lemma WithinGrows(front: seq<Segment>, last: Segment, size: nat)
    requires Within(front, size) && last.base + last.len <= size
    ensures Within(front + [last], size)
  {
  }

  lemma StreamGrows(mem: seq<byte>, front: seq<Segment>, last: Segment)
    requires Within(front, |mem|) && last.base + last.len <= |mem|
    ensures Within(front + [last], |mem|)
    ensures Stream(mem, front + [last]) == Stream(mem, front) + mem[last.base..last.base + last.len]
    ensures Capacity(front + [last]) == Capacity(front) + last.len
  {
    hide Within;
    WithinGrows(front, last, |mem|);
    assert (front + [last])[..|front|] == front;
  }

  /** Byte by byte: segment `i` begins in the stream where the segments before it end. */
  lemma {:induction false} StreamAt(mem: seq<byte>, segs: seq<Segment>, i: nat, k: nat)
    requires Within(segs, |mem|) && i < |segs| && k < segs[i].len
    ensures Capacity(segs[..i]) + k < |Stream(mem, segs)|
    ensures Stream(mem, segs)[Capacity(segs[..i]) + k] == mem[segs[i].base + k]
    decreases |segs|
  {
    hide Stream, Capacity;
    var n := |segs| - 1;
    StreamSnoc(mem, segs, n);
    assert segs[..n + 1] == segs;
    if i < n {
      StreamAt(mem, segs[..n], i, k);
      assert segs[..n][..i] == segs[..i];
    }
  }

  /** The total of the lengths. */
  lemma CapacityAdds(segs: seq<Segment>, last: Segment)
    ensures Capacity([]) == 0 && Capacity(segs + [last]) == Capacity(segs) + last.len
  {
    assert (segs + [last])[..|segs|] == segs;
  }

  /** What a whole-segment store leaves in its segment: the new bytes, then what was there. */
  ghost predicate Stored(was: seq<byte>, now: seq<byte>, base: nat, bytes: seq<byte>) {
    && |now| == |was| && base + |bytes| <= |now|
    && (forall a :: base <= a < base + |bytes| ==> now[a] == bytes[a - base])
    && (forall a :: 0 <= a < |now| && !(base <= a < base + |bytes|) ==> now[a] == was[a])
  }

  /** The first `written` bytes of the first `i` segments are the data's; nothing else has moved. */
  ghost predicate Spread(mem0: seq<byte>, mem: seq<byte>, segs: seq<Segment>, i: nat, data: seq<byte>, written: nat) {
    && |mem0| == |mem| && Within(segs, |mem|) && i <= |segs| && written <= |data|
    && written <= Capacity(segs[..i])
    && Stream(mem, segs[..i]) == data[..written] + Stream(mem0, segs[..i])[written..]
    && forall a :: 0 <= a < |mem| && !Covered(segs[..i], a) ==> mem[a] == mem0[a]
  }

  lemma SpreadStart(mem: seq<byte>, segs: seq<Segment>, data: seq<byte>)
    requires Within(segs, |mem|)
    ensures Spread(mem, mem, segs, 0, data, 0)
  {
  }

  lemma SpreadEnd(mem0: seq<byte>, mem: seq<byte>, segs: seq<Segment>, data: seq<byte>, written: nat)
    requires Spread(mem0, mem, segs, |segs|, data, written)
    ensures written <= |data| && written <= Capacity(segs) && |mem| == |mem0| && Within(segs, |mem|)
    ensures Stream(mem, segs) == data[..written] + Stream(mem0, segs)[written..]
    ensures forall a :: 0 <= a < |mem| && !Covered(segs, a) ==> mem[a] == mem0[a]
  {
    assert segs[..|segs|] == segs;
  }

  lemma CoveredMeans(segs: seq<Segment>, i: nat, a: nat)
    requires i < |segs|
    ensures Covered(segs[..i + 1], a) <==> Covered(segs[..i], a) || Inside(segs[i], a)
    ensures Apart(segs) && Inside(segs[i], a) ==> !Covered(segs[..i], a)
  {
    if Covered(segs[..i], a) {
      var j :| 0 <= j < i && Inside(segs[..i][j], a);
      assert segs[..i + 1][j] == segs[j] && Inside(segs[j], a);
    }
    if Inside(segs[i], a) {
      assert Inside(segs[..i + 1][i], a);
    }
    if Covered(segs[..i + 1], a) {
      var j :| 0 <= j < i + 1 && Inside(segs[..i + 1][j], a);
      assert j < i ==> segs[..i][j] == segs[j];
    }
  }

  lemma StoreInSegment(mem0: seq<byte>, mem: seq<byte>, mem': seq<byte>, s: Segment, bytes: seq<byte>)
    requires |mem0| == |mem| && s.base + s.len <= |mem| && |bytes| <= s.len
    requires Stored(mem, mem', s.base, bytes)
    requires forall a :: s.base <= a < s.base + s.len ==> mem[a] == mem0[a]
    ensures mem'[s.base..s.base + s.len] == bytes + mem0[s.base..s.base + s.len][|bytes|..]
  {
  }

  /** Storing the next bytes at the head of segment `i` extends the written part of the stream. */
  lemma StoreExtends(mem0: seq<byte>, mem: seq<byte>, mem': seq<byte>, segs: seq<Segment>, i: nat,
                     data: seq<byte>, written: nat, n: nat)
    requires Spread(mem0, mem, segs, i, data, written) && Apart(segs) && i < |segs|
    requires written + n <= |data| && n <= segs[i].len && (n > 0 ==> written == Capacity(segs[..i]))
    requires Stored(mem, mem', segs[i].base, data[written..written + n])
    ensures Spread(mem0, mem', segs, i + 1, data, written + n)
  {
    hide Stream, Covered, Apart;
    var s := segs[i];
    forall a | 0 <= a < |mem|
      ensures Covered(segs[..i], a) ==> mem[a] == mem'[a]
      ensures Inside(s, a) ==> mem[a] == mem0[a]
      ensures !Covered(segs[..i + 1], a) ==> mem'[a] == mem0[a]
    {
      CoveredMeans(segs, i, a);
    }
    forall a | s.base <= a < s.base + s.len ensures mem[a] == mem0[a] {
      assert Inside(s, a);
    }
    StreamDepends(mem, mem', segs[..i]);
    StreamSnoc(mem', segs, i);
    StreamSnoc(mem0, segs, i);
    StoreInSegment(mem0, mem, mem', s, data[written..written + n]);
    Spliced(Stream(mem0, segs[..i]), mem0[s.base..s.base + s.len], data, written, n);
  }

  /** Once the data has run out, the segments not visited add nothing. */
  lemma {:induction false} SpreadRest(mem0: seq<byte>, mem: seq<byte>, segs: seq<Segment>, i: nat, data: seq<byte>)
    requires Spread(mem0, mem, segs, i, data, |data|) && Apart(segs)
    ensures Spread(mem0, mem, segs, |segs|, data, |data|)
    decreases |segs| - i
  {
    if i < |segs| {
      StoreExtends(mem0, mem, mem, segs, i, data, |data|, 0);
      SpreadRest(mem0, mem, segs, i + 1, data);
    }
  }

  lemma Spliced(front: seq<byte>, back: seq<byte>, data: seq<byte>, written: nat, n: nat)
    requires written <= |front| && written + n <= |data| && n <= |back| && (n > 0 ==> written == |front|)
    ensures data[..written] + front[written..] + (data[written..written + n] + back[n..])
            == data[..written + n] + (front + back)[written + n..]
  {
    if n > 0 {
      assert front[written..] == [];
    }
  }

  method StoreAt(mem: array<byte>, base: nat, bytes: seq<byte>)
    requires base + |bytes| <= mem.Length
    modifies mem
    ensures Stored(old(mem[..]), mem[..], base, bytes)
  {
    forall k | 0 <= k < |bytes| {
      mem[base + k] := bytes[k];
    }
  }

  method Gather(mem: array<byte>, segs: seq<Segment>) returns (r: Result<seq<byte>>)
    requires Within(segs, mem.Length)
    ensures r == if |segs| > MAX_IOV then Err(EINVAL) else Ok(Stream(mem[..], segs))
  {
    if |segs| > MAX_IOV {
      return Err(EINVAL);
    }
    var gathered: seq<byte> := [];
    for i := 0 to |segs|
      invariant gathered == Stream(mem[..], segs[..i])
    {
      StreamSnoc(mem[..], segs, i);
      if segs[i].len == 0 {
        continue;
      }
      gathered := gathered + mem[segs[i].base..segs[i].base + segs[i].len];
    }
    assert segs[..|segs|] == segs;
    return Ok(gathered);
  }

  /** The segments, read as one stream, start with the data; nothing else moves. */
  method Scatter(data: seq<byte>, mem: array<byte>, segs: seq<Segment>) returns (r: Result<nat>)
    requires Within(segs, mem.Length) && Apart(segs)
    modifies mem
    ensures if |segs| > MAX_IOV then r == Err(EINVAL) && mem[..] == old(mem[..])
            else
              && r == Ok(Min(|data|, Capacity(segs)))
              && Stream(mem[..], segs) == data[..r.value] + Stream(old(mem[..]), segs)[r.value..]
              && forall a :: 0 <= a < mem.Length && !Covered(segs, a) ==> mem[a] == old(mem[a])
  {
    hide Spread, Apart, Stored, Covered, Stream;
    if |segs| > MAX_IOV {
      return Err(EINVAL);
    }
    var written, remaining, i := 0, |data|, 0;
    SpreadStart(mem[..], segs, data);
    while i < |segs| && remaining > 0
      invariant 0 <= i <= |segs| && 0 <= remaining && written + remaining == |data|
      invariant remaining > 0 ==> written == Capacity(segs[..i])
      invariant Spread(old(mem[..]), mem[..], segs, i, data, written)
    {
      StreamSnoc(old(mem[..]), segs, i);
      var chunk := Min(segs[i].len, remaining);
      ghost var before := mem[..];
      StoreAt(mem, segs[i].base, data[written..written + chunk]);
      StoreExtends(old(mem[..]), before, mem[..], segs, i, data, written, chunk);
      written, remaining, i := written + chunk, remaining - chunk, i + 1;
    }
    if remaining == 0 {
      SpreadRest(old(mem[..]), mem[..], segs, i, data);
    }
    SpreadEnd(old(mem[..]), mem[..], segs, data, written);
    assert segs[..|segs|] == segs;
    return Ok(written);
  }

  /** What writev() of `n` segments with these bytes does to a pipe. */
  function WritevOf(p: Pipe, n: nat, bytes: seq<byte>, nonblocking: bool, script: seq<WriterLap>): WriteResult
    requires Fits(p)
  {
    if n > MAX_IOV then WriteResult(p, 0, [], Done(EINVAL))
    else if bytes == [] then WriteResult(p, 0, [], Done(0))
    else Pipes.Write(p, bytes, nonblocking, script)
  }

  /** What readv() into `n` segments of this total size does to a pipe. */
  function ReadvOf(p: Pipe, n: nat, size: nat, nonblocking: bool, script: seq<ReaderLap>): ReadResult
    requires Fits(p)
  {
    if n > MAX_IOV then ReadResult(p, [], [], Done(EINVAL))
    else if size == 0 then ReadResult(p, [], [], Done(0))
    else Read(p, size, nonblocking, script)
  }

  /** writev(): one pipe write of the gathered bytes. */
  method Writev(pipe: PipeBuffer, mem: array<byte>, segs: seq<Segment>, nonblocking: bool, script: seq<WriterLap>)
    returns (outcome: Outcome, ghost sent: nat, ghost gone: seq<byte>)
    requires pipe.Valid() && Within(segs, mem.Length) && mem != pipe.buf
    modifies pipe, pipe.buf
    ensures pipe.Valid()
    ensures WriteResult(pipe.Value(), sent, gone, outcome)
         == WritevOf(old(pipe.Value()), |segs|, Stream(mem[..], segs), nonblocking, script)
  {
    sent, gone := 0, [];
    var gathered := Gather(mem, segs);
    if gathered.Err? {
      return Done(gathered.code), 0, [];
    }
    if gathered.value == [] {
      return Done(0), 0, [];
    }
    assert gathered.value[..|gathered.value|] == gathered.value;
    outcome, sent, gone := pipe.Write(gathered.value, |gathered.value|, nonblocking, script);
  }

  method Room(segs: seq<Segment>) returns (total: nat)
    ensures total == Capacity(segs)
  {
    total := 0;
    for i := 0 to |segs|
      invariant total == Capacity(segs[..i])
    {
      assert segs[..i + 1][..i] == segs[..i];
      total := total + segs[i].len;
    }
    assert segs[..|segs|] == segs;
  }

  /** readv(): one pipe read of the segments' total size, scattered. */
  method Readv(pipe: PipeBuffer, mem: array<byte>, segs: seq<Segment>, nonblocking: bool, script: seq<ReaderLap>)
    returns (outcome: Outcome, ghost out: seq<byte>, ghost came: seq<byte>)
    requires pipe.Valid() && Within(segs, mem.Length) && Apart(segs) && mem != pipe.buf
    modifies pipe, pipe.buf, mem
    ensures pipe.Valid()
    ensures ReadResult(pipe.Value(), out, came, outcome)
         == ReadvOf(old(pipe.Value()), |segs|, Capacity(segs), nonblocking, script)
    ensures |out| <= Capacity(segs) && Stream(mem[..], segs) == out + Stream(old(mem[..]), segs)[|out|..]
    ensures forall a :: 0 <= a < mem.Length && !Covered(segs, a) ==> mem[a] == old(mem[a])
  {
    hide Read, Stream, Covered, Apart;
    out, came := [], [];
    if |segs| > MAX_IOV {
      return Done(EINVAL), [], [];
    }
    var total := Room(segs);
    if total == 0 {
      return Done(0), [], [];
    }
    var bytes;
    outcome, bytes, came := pipe.ReadStaged(total, total, nonblocking, script);
    out := bytes;
    ReadMeaning(old(pipe.Value()), total, nonblocking, script);
    if outcome.Done? && outcome.code > 0 {
      var _ := Scatter(bytes, mem, segs);
    }
  }

  /**
   How much the two calls ask of the pipe: writev() all of its bytes, readv() its whole
   capacity; nothing at all past the segment limit, or with nothing to move.
   */
  lemma VectorsAsk(p: Pipe, n: nat, bytes: seq<byte>, size: nat, writing: seq<WriterLap>, reading: seq<ReaderLap>)
    requires Fits(p)
    ensures forall nb :: n > MAX_IOV ==>
              && WritevOf(p, n, bytes, nb, writing) == WriteResult(p, 0, [], Done(EINVAL))
              && ReadvOf(p, n, size, nb, reading) == ReadResult(p, [], [], Done(EINVAL))
    ensures forall nb :: n <= MAX_IOV ==>
              && WritevOf(p, n, [], nb, writing) == WriteResult(p, 0, [], Done(0))
              && ReadvOf(p, n, 0, nb, reading) == ReadResult(p, [], [], Done(0))
    ensures n <= MAX_IOV && p.readRefs > 0 ==> WritevOf(p, n, bytes, true, writing).sent == Min(|bytes|, Space(p))
    ensures n <= MAX_IOV && p.readRefs > 0 && bytes != [] ==>
              var r := WritevOf(p, n, bytes, false, writing);
              r.sent == |bytes| || r.outcome == AnswerTo(FirstDisturbance(p.readRefs, writing), r.sent)
    ensures forall nb :: n <= MAX_IOV && p.data != [] && size > 0 ==>
              ReadvOf(p, n, size, nb, reading).delivered == p.data[..Min(size, |p.data|)]
  {
    hide Read, Pipes.Write;
    if p.readRefs > 0 {
      NonblockingWrite(p, bytes, writing);
      WriteEnds(p, bytes, writing);
    }
    if size > 0 {
      ReadMeaning(p, size, false, reading);
      ReadMeaning(p, size, true, reading);
    }
  }

  lemma Joined(gone: seq<byte>, out: seq<byte>, d0: seq<byte>, d1: seq<byte>, d2: seq<byte>, sent: seq<byte>,
               came: seq<byte>)
    requires gone + d1 == d0 + sent && out + d2 == d1 + came
    ensures gone + out + d2 == d0 + sent + came
  {
    assert gone + out + d2 == gone + (out + d2);
    assert gone + (d1 + came) == gone + d1 + came;
  }

  /**
   Any writev() and then any readv() on a pipe: what the other readers took, what was read and
   what is left in the ring are, in this order, what was in the ring, the bytes accepted and
   what other writers pushed.
   */
  lemma VectorsConserve(p: Pipe, n: nat, bytes: seq<byte>, m: nat, size: nat, nonblocking: bool,
                        writing: seq<WriterLap>, reading: seq<ReaderLap>)
    requires Fits(p)
    ensures var w := WritevOf(p, n, bytes, nonblocking, writing);
            && Fits(w.pipe) && w.sent <= |bytes|
            && (w.outcome.Done? && w.outcome.code >= 0 ==> w.sent == w.outcome.code)
            && (w.outcome in {Done(EAGAIN), Done(EINTR), Done(EINVAL)} ==> w.sent == 0)
            && var r := ReadvOf(w.pipe, m, size, nonblocking, reading);
               && w.drained + r.delivered + r.pipe.data == p.data + bytes[..w.sent] + r.arrived
               && |r.delivered| <= size
               && (r.outcome.Done? && r.outcome.code >= 0 ==> |r.delivered| == r.outcome.code)
               && (r.outcome.Waiting? || r.outcome.code < 0 ==> r.delivered == [])
  {
    hide Read, Pipes.Write;
    WriteMeaning(p, bytes, nonblocking, writing);
    var w := WritevOf(p, n, bytes, nonblocking, writing);
    if size > 0 {
      ReadMeaning(w.pipe, size, nonblocking, reading);
      ReadConserves(w.pipe, size, nonblocking, reading);
    }
    var r := ReadvOf(w.pipe, m, size, nonblocking, reading);
    assert w.drained + w.pipe.data == p.data + bytes[..w.sent];
    Joined(w.drained, r.delivered, p.data, w.pipe.data, r.pipe.data, bytes[..w.sent], r.arrived);
  }

  /**
   writev() and then readv() through one pipe, for any two segmentations: the two calls are
   those of the pipe, what was read heads the destination segments, and the stream is kept
   from the source segments to the destination ones. The two memories may be the same one.
   */
  method Transfer(pipe: PipeBuffer, src: array<byte>, from: seq<Segment>, dst: array<byte>, to: seq<Segment>,
                  nonblocking: bool, writing: seq<WriterLap>, reading: seq<ReaderLap>)
    returns (w: Outcome, r: Outcome, ghost sent: nat, ghost out: seq<byte>, ghost gone: seq<byte>,
             ghost came: seq<byte>)
    requires pipe.Valid() && src != pipe.buf && dst != pipe.buf
    requires Within(from, src.Length) && Within(to, dst.Length) && Apart(to)
    modifies pipe, pipe.buf, dst
    ensures pipe.Valid() && |out| <= Capacity(to) && sent <= Capacity(from)
    ensures var written := WritevOf(old(pipe.Value()), |from|, Stream(old(src[..]), from), nonblocking, writing);
            && Fits(written.pipe) && written == WriteResult(written.pipe, sent, gone, w)
            && ReadResult(pipe.Value(), out, came, r)
               == ReadvOf(written.pipe, |to|, Capacity(to), nonblocking, reading)
    ensures gone + out + pipe.Value().data == old(pipe.Value().data) + Stream(old(src[..]), from)[..sent] + came
    ensures Stream(dst[..], to) == out + Stream(old(dst[..]), to)[|out|..]
    ensures forall a :: 0 <= a < dst.Length && !Covered(to, a) ==> dst[a] == old(dst[a])
    ensures w.Done? && w.code >= 0 ==> sent == w.code
    ensures r.Done? && r.code >= 0 ==> |out| == r.code
    ensures w in {Done(EAGAIN), Done(EINTR), Done(EINVAL)} ==> sent == 0
    ensures r.Waiting? || r.code < 0 ==> out == []
  {
    hide WritevOf, ReadvOf, Stream, Covered, Apart;
    VectorsConserve(pipe.Value(), |from|, Stream(src[..], from), |to|, Capacity(to), nonblocking, writing, reading);
    w, sent, gone := Writev(pipe, src, from, nonblocking, writing);
    r, out, came := Readv(pipe, dst, to, nonblocking, reading);
  }
}
