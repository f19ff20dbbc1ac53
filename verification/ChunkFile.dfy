/**
 The in-memory file of the C filesystem grate: a linked list of 1024-byte chunks, and the
 flat byte string it stands for.
 */
module Pieces {
  import opened Bytes

  const CHUNK := 1024

  /** Write `bytes` at `off`; a hole between the old end and `off` reads as zeros. */
  ghost function Splice(f: seq<byte>, off: nat, bytes: seq<byte>): (g: seq<byte>)
    ensures |g| == Max(|f|, off + |bytes|)
  {
    seq(Max(|f|, off + |bytes|), k requires 0 <= k < Max(|f|, off + |bytes|) =>
      if off <= k < off + |bytes| then bytes[k - off] else if k < |f| then f[k] else 0)
  }

  /** Byte by byte: the new ones, then the old ones, then zeros. */
  lemma SpliceAt(f: seq<byte>, off: nat, bytes: seq<byte>, k: nat)
    requires k < Max(|f|, off + |bytes|)
    ensures off <= k < off + |bytes| ==> Splice(f, off, bytes)[k] == bytes[k - off]
    ensures !(off <= k < off + |bytes|) ==> Splice(f, off, bytes)[k] == if k < |f| then f[k] else 0
  {
  }

  lemma SpliceTwice(f: seq<byte>, off: nat, a: seq<byte>, b: seq<byte>)
    ensures Splice(Splice(f, off, a), off + |a|, b) == Splice(f, off, a + b)
  {
  }

  /** Every piece but the last is a full chunk, and no piece is empty. */
  ghost predicate Shaped(ps: seq<seq<byte>>) {
    forall i :: 0 <= i < |ps| ==> 0 < |ps[i]| <= CHUNK && (i < |ps| - 1 ==> |ps[i]| == CHUNK)
  }

  ghost function Length(ps: seq<seq<byte>>): (n: nat)
    requires Shaped(ps)
    ensures CHUNK * (|ps| - 1) < n <= CHUNK * |ps| || (ps == [] && n == 0)
  {
    if ps == [] then 0 else CHUNK * (|ps| - 1) + |ps[|ps| - 1]|
  }

  lemma PieceAt(ps: seq<seq<byte>>, k: nat)
    requires Shaped(ps) && k < Length(ps)
    ensures k / CHUNK < |ps| && k % CHUNK < |ps[k / CHUNK]|
  {
  }

  ghost function Flat(ps: seq<seq<byte>>): (f: seq<byte>)
    requires Shaped(ps)
    ensures |f| == Length(ps)
  {
    seq(Length(ps), k requires 0 <= k < Length(ps) => PieceAt(ps, k); ps[k / CHUNK][k % CHUNK])
  }

  /** Splicing into one piece is splicing into the whole. */
  lemma SplicePiece(ps: seq<seq<byte>>, i: nat, lo: nat, bytes: seq<byte>)
    requires Shaped(ps) && i < |ps| && lo + |bytes| <= CHUNK
    ensures var qs := ps[i := Splice(ps[i], lo, bytes)];
            Shaped(qs) && Flat(qs) == Splice(Flat(ps), CHUNK * i + lo, bytes)
  {
    var qs := ps[i := Splice(ps[i], lo, bytes)];
    var want := Splice(Flat(ps), CHUNK * i + lo, bytes);
    assert |Flat(qs)| == |want|;
    forall k | 0 <= k < |want| ensures Flat(qs)[k] == want[k] {
      PieceAt(qs, k);
    }
  }

  /** So is adding a piece after full ones. */
  lemma SpliceNewPiece(ps: seq<seq<byte>>, lo: nat, bytes: seq<byte>)
    requires Shaped(ps) && Length(ps) == CHUNK * |ps| && 0 < lo + |bytes| <= CHUNK
    ensures var qs := ps + [Splice([], lo, bytes)];
            Shaped(qs) && Flat(qs) == Splice(Flat(ps), CHUNK * |ps| + lo, bytes)
  {
    var qs := ps + [Splice([], lo, bytes)];
    var want := Splice(Flat(ps), CHUNK * |ps| + lo, bytes);
    assert |Flat(qs)| == |want|;
    forall k | 0 <= k < |want| ensures Flat(qs)[k] == want[k] {
      PieceAt(qs, k);
      if k < Length(ps) {
        PieceAt(ps, k);
      }
    }
  }
}

module ChunkFiles {
  import opened Bytes
  import opened Pieces

  datatype WriteEnd = Wrote(count: nat) | Fault

  function ChunksFor(size: nat): nat {
    (size + CHUNK - 1) / CHUNK
  }

  /** The local offset with which the seek loop ends. */
  function Leftover(chunks: nat, off: nat): nat {
    if chunks == 0 then off else if off < CHUNK * chunks then off % CHUNK else off - CHUNK * chunks
  }

  /** Where the seek loop really puts a write at `off`. */
  function LandsAt(chunks: nat, off: nat): nat {
    if 0 < chunks && off >= CHUNK * chunks then off - CHUNK else off
  }

  ghost function FlatWrite(f: seq<byte>, off: nat, bytes: seq<byte>): seq<byte> {
    if bytes == [] then f else Splice(f, off, bytes)
  }

  ghost function FlatRead(f: seq<byte>, off: nat, count: nat): seq<byte> {
    if off >= |f| then [] else f[off..off + Min(count, |f| - off)]
  }

  lemma SliceOfPiece(ps: seq<seq<byte>>, i: nat, lo: nat, n: nat)
    requires Shaped(ps) && i < |ps| && lo + n <= |ps[i]|
    ensures CHUNK * i + lo + n <= Length(ps) == |Flat(ps)|
    ensures ps[i][lo..lo + n] == Flat(ps)[CHUNK * i + lo..CHUNK * i + lo + n]
  {
    var part := Flat(ps)[CHUNK * i + lo..CHUNK * i + lo + n];
    forall k | 0 <= k < n ensures ps[i][lo..lo + n][k] == part[k] {
      PieceAt(ps, CHUNK * i + lo + k);
    }
  }

  lemma Joined(f: seq<byte>, a: nat, b: nat, c: nat)
    requires a <= b <= c <= |f|
    ensures f[a..b] + f[b..c] == f[a..c]
  {
  }

  /** The state of the read loop, which wants `n` bytes in all, about to visit chunk `i`. */
  ghost predicate ReadTo(ps: seq<seq<byte>>, off: nat, n: nat, out: seq<byte>, i: nat, lo: nat) {
    && Shaped(ps) && off + n <= Length(ps) && |out| <= n && out == Flat(ps)[off..off + |out|]
    && (|out| < n ==> CHUNK * i + lo == off + |out| && lo < CHUNK)
  }

  lemma ReadNone(ps: seq<seq<byte>>, off: nat, n: nat, i: nat, lo: nat)
    requires Shaped(ps) && off + n <= Length(ps) && CHUNK * i + lo == off && lo < CHUNK
    ensures ReadTo(ps, off, n, [], i, lo)
  {
    CountOfPieces(ps);
  }

  lemma ReadLap(ps: seq<seq<byte>>, off: nat, n: nat, out: seq<byte>, i: nat, lo: nat)
    requires ReadTo(ps, off, n, out, i, lo) && |out| < n
    ensures i < |ps| && lo < |ps[i]|
    ensures var take := Min(n - |out|, |ps[i]| - lo);
            ReadTo(ps, off, n, out + ps[i][lo..lo + take], i + 1, 0)
  {
    hide Flat;
    PieceAt(ps, off + |out|);
    var take := Min(n - |out|, |ps[i]| - lo);
    SliceOfPiece(ps, i, lo, take);
    Joined(Flat(ps), off, off + |out|, off + |out| + take);
  }

  lemma ReadDone(ps: seq<seq<byte>>, off: nat, n: nat, out: seq<byte>, i: nat, lo: nat)
    requires ReadTo(ps, off, n, out, i, lo) && (|out| >= n || i >= |ps|)
    ensures out == Flat(ps)[off..off + n]
  {
    hide Flat;
    if |out| < n {
      PieceAt(ps, off + |out|);
    }
  }

  /** The state of the write loop about to visit chunk `i`. */
  ghost predicate CopiedTo(ps: seq<seq<byte>>, f: seq<byte>, at: nat, bytes: seq<byte>, written: nat, i: nat,
                           started: bool)
  {
    && Shaped(ps) && written <= |bytes|
    && if started then Flat(ps) == Splice(f, at, bytes[..written])
       else written == 0 && Flat(ps) == f && (i == |ps| ==> ps == [])
  }

  lemma CopyLap(ps: seq<seq<byte>>, f: seq<byte>, at: nat, bytes: seq<byte>, written: nat, i: nat, lo: nat, n: nat,
                started: bool)
    requires CopiedTo(ps, f, at, bytes, written, i, started) && i <= |ps| && CHUNK * i + lo == at + written
    requires written + n <= |bytes|
    ensures i == |ps| ==> Length(ps) == CHUNK * |ps|
    ensures Splice(Flat(ps), CHUNK * i + lo, bytes[written..written + n]) == Splice(f, at, bytes[..written + n])
  {
    hide Flat;
    CountOfPieces(ps);
    if started {
      SpliceTwice(f, at, bytes[..written], bytes[written..written + n]);
      assert bytes[..written] + bytes[written..written + n] == bytes[..written + n];
    }
  }

  lemma CopiedNone(ps: seq<seq<byte>>, at: nat, bytes: seq<byte>, i: nat)
    requires Shaped(ps) && (i == |ps| ==> ps == [])
    ensures CopiedTo(ps, Flat(ps), at, bytes, 0, i, false)
  {
  }

  lemma CopiedMore(ps: seq<seq<byte>>, f: seq<byte>, at: nat, bytes: seq<byte>, written: nat, i: nat)
    requires Shaped(ps) && written <= |bytes| && Flat(ps) == Splice(f, at, bytes[..written])
    ensures CopiedTo(ps, f, at, bytes, written, i, true)
  {
  }

  lemma CopiedAll(ps: seq<seq<byte>>, f: seq<byte>, at: nat, bytes: seq<byte>, i: nat)
    requires CopiedTo(ps, f, at, bytes, |bytes|, i, true)
    ensures Flat(ps) == Splice(f, at, bytes)
  {
    assert bytes[..|bytes|] == bytes;
  }

  /** An offset at which a write of `count` bytes to a file of `size` bytes does what it should. */
  predicate InDomain(size: nat, off: nat, count: nat) {
    if count == 0 then off <= size
    else off < CHUNK * ChunksFor(size) || (size == 0 && off <= CHUNK)
  }

  lemma CountOfPieces(ps: seq<seq<byte>>)
    requires Shaped(ps)
    ensures |ps| == ChunksFor(Length(ps)) && |Flat(ps)| == Length(ps)
  {
  }

  /** The right bytes with the right recorded size: exactly on the domain. */
  lemma WriteExact(f: seq<byte>, off: nat, bytes: seq<byte>)
    ensures var n := ChunksFor(|f|);
            var g := FlatWrite(f, LandsAt(n, off), bytes);
            (bytes == [] || Leftover(n, off) <= CHUNK)
            && |g| == Max(|f|, off + |bytes|) && g == FlatWrite(f, off, bytes)
            <==> InDomain(|f|, off, |bytes|)
  {
  }

  /** Appending works exactly on files that do not end at a chunk boundary, and on empty ones. */
  lemma AppendExact(size: nat, count: nat)
    requires count > 0
    ensures InDomain(size, size, count) <==> size == 0 || size % CHUNK != 0
  {
  }

  /** One byte after a full chunk overwrites the first byte of the file. */
  lemma SecondChunkOverwrites(f: seq<byte>, b: byte)
    requires |f| == CHUNK
    ensures FlatWrite(f, LandsAt(ChunksFor(|f|), CHUNK), [b]) == f[0 := b]
    ensures Leftover(ChunksFor(|f|), CHUNK) == 0
  {
    var g := FlatWrite(f, LandsAt(ChunksFor(|f|), CHUNK), [b]);
    assert |g| == |f| && forall k :: 0 <= k < |g| ==> g[k] == f[0 := b][k];
  }

  class Chunk {
    const data: array<byte>
    var used: nat
    var next: Chunk?

    ghost predicate Ok()
      reads this`used
    {
      data.Length == CHUNK && used <= CHUNK
    }

    ghost function Content(): (s: seq<byte>)
      requires Ok()
      reads this`used, data
      ensures |s| == used
    {
      data[..used]
    }

    constructor ()
      ensures Ok() && Content() == [] && next == null && fresh(data)
    {
      data := new byte[CHUNK](_ => 0);
      used, next := 0, null;
    }

    /** Zero the hole between the used part and `lo`, then copy. */
    method Store(lo: nat, bytes: seq<byte>)
      requires Ok() && lo + |bytes| <= CHUNK
      modifies this`used, data
      ensures Ok() && Content() == Splice(old(Content()), lo, bytes)
    {
      if lo > used {
        forall k | used <= k < lo {
          data[k] := 0;
        }
      }
      forall k | 0 <= k < |bytes| {
        data[lo + k] := bytes[k];
      }
      if lo + |bytes| > used {
        used := lo + |bytes|;
      }
    }

    method Fetch(lo: nat, n: nat) returns (bytes: seq<byte>)
      requires Ok() && lo + n <= used
      ensures bytes == Content()[lo..lo + n]
    {
      return data[lo..lo + n];
    }
  }

  class Node {
    var head: Chunk?
    var tail: Chunk?
    var totalSize: nat
    ghost var chunks: seq<Chunk>
    ghost var pieces: seq<seq<byte>>

    /** `chunks` is the linked list from `head` to `tail`. */
    ghost predicate Linked()
      reads this`head, this`tail, this`chunks, chunks`next
    {
      && head == (if chunks == [] then null else chunks[0])
      && tail == (if chunks == [] then null else chunks[|chunks| - 1])
      && (forall i {:trigger chunks[i].next} :: 0 <= i < |chunks| ==>
            chunks[i].next == if i + 1 < |chunks| then chunks[i + 1] else null)
    }

    ghost predicate Separate()
      reads this`chunks
    {
      forall i, j :: 0 <= i < j < |chunks| ==> chunks[i] != chunks[j] && chunks[i].data != chunks[j].data
    }

    /** `pieces` is what the chunks hold. */
    ghost predicate Held()
      reads this`chunks, this`pieces, chunks`used, set c | c in chunks :: c.data
    {
      && |pieces| == |chunks|
      && forall i :: 0 <= i < |chunks| ==> chunks[i].Ok() && pieces[i] == chunks[i].Content()
    }

    ghost predicate Shape()
      reads this, chunks, set c | c in chunks :: c.data
    {
      Linked() && Separate() && Held() && Shaped(pieces)
    }

    /** The recorded size is the length of what the chunks hold. */
    ghost predicate Valid()
      reads this, chunks, set c | c in chunks :: c.data
    {
      Shape() && totalSize == Length(pieces)
    }

    constructor ()
      ensures Valid() && Flat(pieces) == [] && totalSize == 0
    {
      head, tail, totalSize, chunks, pieces := null, null, 0, [], [];
    }

    lemma Links(i: nat)
      requires Linked() && Held()
      ensures |pieces| == |chunks| && head == if chunks == [] then null else chunks[0]
      ensures i < |chunks| ==> chunks[i].next == if i + 1 < |chunks| then chunks[i + 1] else null
      ensures i < |chunks| ==> chunks[i].Ok() && pieces[i] == chunks[i].Content()
    {
    }

    method AddChunk() returns (c: Chunk)
      requires Linked() && Separate() && Held()
      modifies this`head, this`tail, this`chunks, this`pieces, chunks`next
      ensures Linked() && Separate() && Held() && fresh(c) && fresh(c.data)
      ensures chunks == old(chunks) + [c] && pieces == old(pieces) + [[]]
    {
      hide Chunk.Content;
      c := new Chunk();
      if tail != null {
        tail.next := c;
      }
      tail := c;
      if head == null {
        head := c;
      }
      chunks, pieces := chunks + [c], pieces + [[]];
    }

    method StoreAt(ghost i: nat, c: Chunk, lo: nat, bytes: seq<byte>)
      requires Separate() && Held() && i < |chunks| && chunks[i] == c && lo + |bytes| <= CHUNK
      modifies this`pieces, c`used, c.data
      ensures Held() && pieces == old(pieces)[i := Splice(old(pieces)[i], lo, bytes)]
    {
      hide Splice, Chunk.Content;
      c.Store(lo, bytes);
      pieces := pieces[i := Splice(pieces[i], lo, bytes)];
    }

    /**
     Walk to the chunk of `off`. Past the end the walk stays on the last chunk, having
     still taken that chunk's bytes off the local offset.
     */
    method Seek(off: nat) returns (c: Chunk?, lo: nat, ghost i: nat)
      requires Linked()
      ensures chunks == [] ==> c == null && i == 0
      ensures chunks != [] ==> i < |chunks| && c == chunks[i]
      ensures lo == Leftover(|chunks|, off) && CHUNK * i + lo == LandsAt(|chunks|, off)
    {
      c, lo, i := head, off, 0;
      while c != null && lo >= CHUNK
        invariant CHUNK * i + lo == off
        invariant if chunks == [] then c == null && i == 0 else i < |chunks| && c == chunks[i]
        decreases lo
      {
        lo := lo - CHUNK;
        if c.next == null {
          break;
        }
        c, i := c.next, i + 1;
      }
    }

    /** One lap of the write loop: make the chunk if there is none, store, step to the next. */
    method Put(c: Chunk?, ghost i: nat, lo: nat, bytes: seq<byte>) returns (next: Chunk?)
      requires Shape() && i <= |chunks| && c == if i < |chunks| then chunks[i] else null
      requires 0 < lo + |bytes| <= CHUNK && (i == |chunks| ==> Length(pieces) == CHUNK * |chunks|)
      modifies this`head, this`tail, this`chunks, this`pieces, chunks, set x | x in chunks :: x.data
      ensures Shape() && Flat(pieces) == Splice(old(Flat(pieces)), CHUNK * i + lo, bytes)
      ensures |chunks| == Max(|old(chunks)|, i + 1) && old(chunks) <= chunks
      ensures forall k :: |old(chunks)| <= k < |chunks| ==> fresh(chunks[k]) && fresh(chunks[k].data)
      ensures next == if i + 1 < |chunks| then chunks[i + 1] else null
    {
      hide Splice, Chunk.Content, Flat, Shaped, Separate, Held, Linked;
      Links(i);
      ghost var before := pieces;
      var at := c;
      if at == null {
        at := AddChunk();
        SpliceNewPiece(before, lo, bytes);
      } else {
        SplicePiece(before, i, lo, bytes);
      }
      StoreAt(i, at, lo, bytes);
      assert pieces == if c == null then before + [Splice([], lo, bytes)]
                       else before[i := Splice(before[i], lo, bytes)];
      Links(i);
      return at.next;
    }

    /** The write loop: the bytes land from local offset `lo` of chunk `i` on, adding chunks as needed. */
    method Copy(start: Chunk?, ghost first: nat, from: nat, bytes: seq<byte>) returns (written: nat)
      requires Shape() && from <= CHUNK && bytes != []
      requires if chunks == [] then start == null && first == 0 else first < |chunks| && start == chunks[first]
      modifies this`head, this`tail, this`chunks, this`pieces, chunks, set x | x in chunks :: x.data
      ensures old(chunks) <= chunks
      ensures forall k :: |old(chunks)| <= k < |chunks| ==> fresh(chunks[k]) && fresh(chunks[k].data)
      ensures Shape() && written == |bytes| && Flat(pieces) == Splice(old(Flat(pieces)), CHUNK * first + from, bytes)
    {
      hide Splice, Chunk.Content, Flat, Shaped, Separate, Held, Linked, CopiedTo;
      ghost var f, at := Flat(pieces), CHUNK * first + from;
      Links(0);
      CopiedNone(pieces, at, bytes, first);
      var c, lo: nat := start, from;
      ghost var i: nat, started := first, false;
      written := 0;
      while written < |bytes|
        invariant Shape() && written <= |bytes| && lo <= CHUNK && i <= |chunks|
        invariant c == if i < |chunks| then chunks[i] else null
        invariant written < |bytes| ==> CHUNK * i + lo == at + written
        invariant old(chunks) <= chunks
        invariant forall k :: |old(chunks)| <= k < |chunks| ==> fresh(chunks[k]) && fresh(chunks[k].data)
        invariant CopiedTo(pieces, f, at, bytes, written, i, started) && (started ==> lo == 0)
        invariant written < |bytes| || started
        decreases |bytes| - written, lo
      {
        var n := Min(|bytes| - written, CHUNK - lo);
        Links(0);
        CopyLap(pieces, f, at, bytes, written, i, lo, n, started);
        c := Put(c, i, lo, bytes[written..written + n]);
        CopiedMore(pieces, f, at, bytes, written + n, i + 1);
        written, lo, i, started := written + n, 0, i + 1, true;
      }
      CopiedAll(pieces, f, at, bytes, i);
    }

    /**
     Write at an offset. The chunks then hold the bytes where the seek loop landed, and the
     recorded size covers where they should have gone: the result is the flat file's exactly
     when the offset is in an existing chunk, or in the first chunk of an empty file.
     */
    method Write(off: nat, bytes: seq<byte>) returns (r: WriteEnd)
      requires Valid()
      modifies this, chunks, set x | x in chunks :: x.data
      ensures old(chunks) <= chunks
      ensures forall k :: |old(chunks)| <= k < |chunks| ==> fresh(chunks[k]) && fresh(chunks[k].data)
      ensures r == if bytes != [] && Leftover(ChunksFor(old(totalSize)), off) > CHUNK then Fault else Wrote(|bytes|)
      ensures Shape()
      ensures r.Wrote? ==>
                && totalSize == Max(old(totalSize), off + |bytes|)
                && Flat(pieces) == FlatWrite(old(Flat(pieces)), LandsAt(ChunksFor(old(totalSize)), off), bytes)
      ensures r.Wrote? && Valid() && Flat(pieces) == FlatWrite(old(Flat(pieces)), off, bytes)
              <==> InDomain(old(totalSize), off, |bytes|)
    {
      hide Splice, Chunk.Content, Flat, Shaped, Separate, Held, Linked;
      CountOfPieces(pieces);
      Links(0);
      WriteExact(Flat(pieces), off, bytes);
      var c, lo, i := Seek(off);
      if bytes != [] && lo > CHUNK {
        return Fault;
      }
      var written := 0;
      if bytes != [] {
        written := Copy(c, i, lo, bytes);
      }
      totalSize := Max(totalSize, off + written);
      CountOfPieces(pieces);
      return Wrote(written);
    }

    /** The chunk that holds the byte at `off`. */
    method ChunkOf(off: nat) returns (c: Chunk?, lo: nat, ghost i: nat)
      requires Valid() && off < totalSize
      ensures i < |chunks| && c == chunks[i] && CHUNK * i + lo == off && lo < CHUNK
    {
      hide Splice, Flat, Separate, Shaped, Linked, Held, Chunk.Content;
      CountOfPieces(pieces);
      Links(0);
      c, lo, i := head, off, 0;
      while c != null && lo >= CHUNK
        invariant i < |chunks| && c == chunks[i] && CHUNK * i + lo == off
      {
        Links(i);
        lo, c, i := lo - CHUNK, c.next, i + 1;
      }
    }

    /** Read at an offset: exactly that slice of the flat file. */
    method Read(off: nat, count: nat) returns (out: seq<byte>)
      requires Valid()
      ensures out == FlatRead(Flat(pieces), off, count)
    {
      hide Splice, Flat, Separate, Shaped, Linked, Held, Chunk.Content, ReadTo;
      CountOfPieces(pieces);
      Links(0);
      out := [];
      if off >= totalSize {
        return;
      }
      var n := Min(count, totalSize - off);
      var c, lo: nat, i: nat := ChunkOf(off);
      ReadNone(pieces, off, n, i, lo);
      while |out| < n && c != null
        invariant ReadTo(pieces, off, n, out, i, lo)
        invariant i <= |chunks| && c == if i < |chunks| then chunks[i] else null
        decreases |chunks| - i
      {
        ReadLap(pieces, off, n, out, i, lo);
        Links(i);
        var take := Min(n - |out|, c.used - lo);
        var part := c.Fetch(lo, take);
        out := out + part;
        lo, c, i := 0, c.next, i + 1;
      }
      ReadDone(pieces, off, n, out, i, lo);
    }
  }
}

/** Descriptors on a chunked file, against the same calls on a flat one. */
module FileCalls {
  import opened Bytes
  import opened Pieces
  import opened ChunkFiles

  datatype Access = ReadOnly | WriteOnly | ReadWrite

  datatype FileDesc = FileDesc(offset: int, access: Access, append: bool)

  /** At the descriptor's own offset, or at a given one as in pread() and pwrite(). */
  datatype Position = Here | At(off: int)

  datatype Whence = SeekSet | SeekCur | SeekEnd | SeekHole | SeekData | SeekOther

  datatype FileOp =
    | ReadCall(fd: nat, count: nat, pos: Position)
    | WriteCall(fd: nat, bytes: seq<byte>, pos: Position)
    | SeekCall(fd: nat, off: int, whence: Whence)

  datatype Answer = Data(bytes: seq<byte>) | Count(n: int) | Failed | Crashed

  datatype FlatFile = FlatFile(data: seq<byte>, fds: seq<FileDesc>)

  function ReadsAt(d: FileDesc, pos: Position): int {
    match pos
    case At(off) => off
    case Here => d.offset
  }

  function WritesAt(size: nat, d: FileDesc, pos: Position): int {
    match pos
    case At(off) => off
    case Here => if d.append then size else d.offset
  }

  /** The descriptor's offset moves by the count, also after an append elsewhere. */
  function Advanced(fds: seq<FileDesc>, fd: nat, pos: Position, n: nat): seq<FileDesc>
    requires fd < |fds|
  {
    if pos.Here? then fds[fd := fds[fd].(offset := fds[fd].offset + n)] else fds
  }

  function SeekTarget(size: nat, offset: int, off: int, whence: Whence): (r: (bool, int)) {
    match whence
    case SeekSet => (true, off)
    case SeekCur => (true, offset + off)
    case SeekEnd => (true, size + off)
    case SeekHole => if offset >= size then (true, size) else (false, -1)
    case SeekData => if offset >= size then (false, -1) else (true, offset)
    case SeekOther => (false, offset - 1)
  }

  /** An open descriptor, and an offset that is not negative. */
  ghost predicate Sane(s: FlatFile, op: FileOp) {
    && op.fd < |s.fds|
    && match op
       case ReadCall(fd, count, pos) => s.fds[fd].access.WriteOnly? || ReadsAt(s.fds[fd], pos) >= 0
       case WriteCall(fd, bytes, pos) => s.fds[fd].access.ReadOnly? || WritesAt(|s.data|, s.fds[fd], pos) >= 0
       case SeekCall(_, _, _) => true
  }

  /** Besides, a write is in the domain. */
  ghost predicate InRange(s: FlatFile, op: FileOp) {
    && Sane(s, op)
    && (op.WriteCall? && !s.fds[op.fd].access.ReadOnly? ==>
          InDomain(|s.data|, WritesAt(|s.data|, s.fds[op.fd], op.pos), |op.bytes|))
  }

  /** The same call on a flat byte string. */
  ghost function FlatStep(s: FlatFile, op: FileOp): (FlatFile, Answer)
    requires Sane(s, op)
  {
    match op
    case ReadCall(fd, count, pos) =>
      if s.fds[fd].access.WriteOnly? then (s, Failed)
      else
        var out := FlatRead(s.data, ReadsAt(s.fds[fd], pos), count);
        (s.(fds := Advanced(s.fds, fd, pos, |out|)), Data(out))
    case WriteCall(fd, bytes, pos) =>
      if s.fds[fd].access.ReadOnly? then (s, Failed)
      else
        var off := WritesAt(|s.data|, s.fds[fd], pos);
        (FlatFile(FlatWrite(s.data, off, bytes), Advanced(s.fds, fd, pos, |bytes|)), Count(|bytes|))
    case SeekCall(fd, off, whence) =>
      var (moved, r) := SeekTarget(|s.data|, s.fds[fd].offset, off, whence);
      (if moved then s.(fds := s.fds[fd := s.fds[fd].(offset := r)]) else s, Count(r))
  }

  ghost predicate AllInRange(s: FlatFile, ops: seq<FileOp>)
    decreases |ops|
  {
    ops == [] || (InRange(s, ops[0]) && AllInRange(FlatStep(s, ops[0]).0, ops[1..]))
  }

  ghost function FlatRun(s: FlatFile, ops: seq<FileOp>): (FlatFile, seq<Answer>)
    requires AllInRange(s, ops)
    decreases |ops|
  {
    if ops == [] then (s, [])
    else
      var (t, a) := FlatStep(s, ops[0]);
      var (u, rest) := FlatRun(t, ops[1..]);
      (u, [a] + rest)
  }

  // ------------------------------------------------------------------
  // What the calls do to offsets and bytes, without the functions above
  // ------------------------------------------------------------------

  /** Only the offset of descriptor `fd` may differ, and it is `offset`. */
  ghost predicate OnlyOffset(fds: seq<FileDesc>, fd: nat, offset: int, fds': seq<FileDesc>) {
    && |fds'| == |fds| && fd < |fds| && fds'[fd] == fds[fd].(offset := offset)
    && forall g :: 0 <= g < |fds| && g != fd ==> fds'[g] == fds[g]
  }

  /** read() takes what is at the offset and moves it by as much; pread() moves nothing. */
  ghost predicate ReadMeans(s: FlatFile, fd: nat, count: nat, pos: Position, t: FlatFile, a: Answer)
    requires fd < |s.fds|
  {
    var off := if pos.At? then pos.off else s.fds[fd].offset;
    && t.data == s.data
    && if s.fds[fd].access.WriteOnly? then t == s && a == Failed
       else
         && a.Data? && |a.bytes| <= count
         && (if off >= |s.data| then a.bytes == []
             else 0 <= off && off + |a.bytes| <= |s.data| && a.bytes == s.data[off..off + |a.bytes|]
                  && (|a.bytes| == count || off + |a.bytes| == |s.data|))
         && OnlyOffset(s.fds, fd, if pos.At? then s.fds[fd].offset else s.fds[fd].offset + |a.bytes|, t.fds)
  }

  /** `f` with `bytes` at `off`: nothing else has changed, and a hole before them reads as zeros. */
  ghost predicate Stored(f: seq<byte>, off: int, bytes: seq<byte>, g: seq<byte>) {
    if bytes == [] then g == f
    else
      && off >= 0 && |g| == (if off + |bytes| > |f| then off + |bytes| else |f|)
      && g[off..off + |bytes|] == bytes
      && (forall k :: 0 <= k < |f| && !(off <= k < off + |bytes|) ==> g[k] == f[k])
      && (forall k :: |f| <= k < off ==> g[k] == 0)
  }

  /** write() goes to the offset, or to the end, and moves the offset by the count; pwrite() moves nothing. */
  ghost predicate WriteMeans(s: FlatFile, fd: nat, bytes: seq<byte>, pos: Position, t: FlatFile, a: Answer)
    requires fd < |s.fds|
  {
    var d := s.fds[fd];
    var off := if pos.At? then pos.off else if d.append then |s.data| else d.offset;
    if d.access.ReadOnly? then t == s && a == Failed
    else
      && a == Count(|bytes|) && Stored(s.data, off, bytes, t.data)
      && OnlyOffset(s.fds, fd, if pos.At? then d.offset else d.offset + |bytes|, t.fds)
  }

  /** lseek(): where each mode goes, and which of them fail and leave the offset. */
  ghost predicate SeekMeans(s: FlatFile, fd: nat, off: int, whence: Whence, t: FlatFile, a: Answer)
    requires fd < |s.fds|
  {
    var was, size := s.fds[fd].offset, |s.data|;
    && t.data == s.data
    && (whence.SeekSet? ==> a == Count(off) && OnlyOffset(s.fds, fd, off, t.fds))
    && (whence.SeekCur? ==> a == Count(was + off) && OnlyOffset(s.fds, fd, was + off, t.fds))
    && (whence.SeekEnd? ==> a == Count(size + off) && OnlyOffset(s.fds, fd, size + off, t.fds))
    && (whence.SeekHole? && was >= size ==> a == Count(size) && OnlyOffset(s.fds, fd, size, t.fds))
    && (whence.SeekData? && was < size ==> a == Count(was) && t.fds == s.fds)
    && (whence.SeekHole? && was < size ==> a == Count(-1) && t.fds == s.fds)
    && (whence.SeekData? && was >= size ==> a == Count(-1) && t.fds == s.fds)
    && (whence.SeekOther? ==> a == Count(was - 1) && t.fds == s.fds)
  }

  ghost predicate CallMeans(s: FlatFile, op: FileOp, t: FlatFile, a: Answer)
    requires op.fd < |s.fds|
  {
    match op
    case ReadCall(fd, count, pos) => ReadMeans(s, fd, count, pos, t, a)
    case WriteCall(fd, bytes, pos) => WriteMeans(s, fd, bytes, pos, t, a)
    case SeekCall(fd, off, whence) => SeekMeans(s, fd, off, whence, t, a)
  }

  lemma SpliceStored(f: seq<byte>, off: nat, bytes: seq<byte>)
    ensures Stored(f, off, bytes, FlatWrite(f, off, bytes))
  {
    hide Splice;
    if bytes != [] {
      var g := Splice(f, off, bytes);
      forall k: nat | k < |g|
        ensures off <= k < off + |bytes| ==> g[k] == bytes[k - off]
        ensures !(off <= k < off + |bytes|) ==> g[k] == if k < |f| then f[k] else 0
      {
        SpliceAt(f, off, bytes, k);
      }
      assert g[off..off + |bytes|] == bytes;
    }
  }

  /** Each call on the flat file, in plain terms. */
  lemma FlatStepMeans(s: FlatFile, op: FileOp)
    requires Sane(s, op)
    ensures CallMeans(s, op, FlatStep(s, op).0, FlatStep(s, op).1)
  {
    hide FlatWrite, Stored;
    if op.WriteCall? && !s.fds[op.fd].access.ReadOnly? {
      SpliceStored(s.data, WritesAt(|s.data|, s.fds[op.fd], op.pos), op.bytes);
    }
  }

  /** Reads of the given sizes in a row through one descriptor. */
  function ReadCalls(fd: nat, sizes: seq<nat>): seq<FileOp> {
    seq(|sizes|, i requires 0 <= i < |sizes| => ReadCall(fd, sizes[i], Here))
  }

  function Total(sizes: seq<nat>): nat
    decreases |sizes|
  {
    if sizes == [] then 0 else sizes[0] + Total(sizes[1..])
  }

  /** The bytes of some answers, one after the other. */
  ghost function AllBytes(answers: seq<Answer>): seq<byte>
    decreases |answers|
  {
    if answers == [] then []
    else (if answers[0].Data? then answers[0].bytes else []) + AllBytes(answers[1..])
  }

  lemma ReadCallsRest(fd: nat, sizes: seq<nat>)
    requires sizes != []
    ensures ReadCalls(fd, sizes)[0] == ReadCall(fd, sizes[0], Here)
    ensures ReadCalls(fd, sizes)[1..] == ReadCalls(fd, sizes[1..])
  {
  }

  /**
   Reads in a row hand out the file from the descriptor's offset on, every byte once and in
   order, and end at its end; the file and the other descriptors stay as they were.
   */
  lemma {:induction false} ReadsInARow(s: FlatFile, fd: nat, sizes: seq<nat>)
    requires fd < |s.fds| && !s.fds[fd].access.WriteOnly? && 0 <= s.fds[fd].offset <= |s.data|
    ensures AllInRange(s, ReadCalls(fd, sizes))
    ensures var (t, answers) := FlatRun(s, ReadCalls(fd, sizes));
            var from := s.fds[fd].offset;
            var to := Min(from + Total(sizes), |s.data|);
            t.data == s.data && AllBytes(answers) == s.data[from..to] && OnlyOffset(s.fds, fd, to, t.fds)
    decreases |sizes|
  {
    hide FlatStep;
    var from := s.fds[fd].offset;
    if sizes == [] {
      assert s.data[from..from] == [];
    } else {
      ReadCallsRest(fd, sizes);
      var op := ReadCall(fd, sizes[0], Here);
      FlatStepMeans(s, op);
      var (t, a) := FlatStep(s, op);
      ReadsInARow(t, fd, sizes[1..]);
      var mid := from + |a.bytes|;
      var (u, rest) := FlatRun(t, ReadCalls(fd, sizes[1..]));
      assert ([a] + rest)[1..] == rest;
      var to := Min(from + Total(sizes), |s.data|);
      assert s.data[from..mid] + s.data[mid..to] == s.data[from..to];
    }
  }

  /** A write in a row after another continues it: together they are one write of both. */
  lemma WritesInARow(s: FlatFile, fd: nat, a: seq<byte>, b: seq<byte>)
    requires fd < |s.fds| && !s.fds[fd].access.ReadOnly? && !s.fds[fd].append && s.fds[fd].offset >= 0
    ensures var t := FlatStep(s, WriteCall(fd, a, Here)).0;
            && Sane(t, WriteCall(fd, b, Here))
            && FlatStep(t, WriteCall(fd, b, Here)).0 == FlatStep(s, WriteCall(fd, a + b, Here)).0
  {
    hide Splice;
    var off := s.fds[fd].offset;
    SpliceTwice(s.data, off, a, b);
    if a == [] {
      assert a + b == b;
    } else if b == [] {
      assert a + b == a;
    }
  }

  /** What was written at an offset is read there. */
  lemma ReadsBack(s: FlatFile, fd: nat, g: nat, bytes: seq<byte>, off: nat)
    requires fd < |s.fds| && g < |s.fds| && !s.fds[fd].access.ReadOnly? && !s.fds[g].access.WriteOnly?
    ensures var t := FlatStep(s, WriteCall(fd, bytes, At(off))).0;
            && Sane(t, ReadCall(g, |bytes|, At(off)))
            && FlatStep(t, ReadCall(g, |bytes|, At(off))).1 == Data(bytes)
  {
    hide FlatStep, Stored, FlatWrite, FlatRead;
    var t := FlatStep(s, WriteCall(fd, bytes, At(off))).0;
    FlatStepMeans(s, WriteCall(fd, bytes, At(off)));
    FlatStepMeans(t, ReadCall(g, |bytes|, At(off)));
    if bytes != [] {
      StoredIsThere(s.data, off, bytes, t.data);
    }
  }

  lemma StoredIsThere(f: seq<byte>, off: nat, bytes: seq<byte>, g: seq<byte>)
    requires Stored(f, off, bytes, g) && bytes != []
    ensures off + |bytes| <= |g| && g[off..off + |bytes|] == bytes
  {
  }

  class FileTable {
    const node: Node
    var fds: seq<FileDesc>

    ghost predicate Valid()
      reads this, node, node.chunks, set c | c in node.chunks :: c.data
    {
      node.Valid()
    }

    ghost function Value(): FlatFile
      requires Valid()
      reads this, node, node.chunks, set c | c in node.chunks :: c.data
    {
      FlatFile(Flat(node.pieces), fds)
    }

    /** A new file opened once for each access wanted. */
    constructor (fds: seq<FileDesc>)
      ensures Valid() && Value() == FlatFile([], fds)
    {
      node := new Node();
      this.fds := fds;
    }

    method Read(fd: nat, count: nat, pos: Position) returns (a: Answer)
      requires Valid() && Sane(Value(), ReadCall(fd, count, pos))
      modifies this`fds
      ensures Valid() && (Value(), a) == FlatStep(old(Value()), ReadCall(fd, count, pos))
      ensures ReadMeans(old(Value()), fd, count, pos, Value(), a)
    {
      hide Flat, Shaped, FlatRead, ReadMeans;
      FlatStepMeans(Value(), ReadCall(fd, count, pos));
      if fds[fd].access.WriteOnly? {
        return Failed;
      }
      var out := node.Read(ReadsAt(fds[fd], pos), count);
      fds := Advanced(fds, fd, pos, |out|);
      return Data(out);
    }

    /** In the domain a write is the flat file's; outside it the result is not, whatever the bytes. */
    method Write(fd: nat, bytes: seq<byte>, pos: Position) returns (a: Answer)
      requires Valid() && Sane(Value(), WriteCall(fd, bytes, pos))
      modifies this`fds, node, node.chunks, set c | c in node.chunks :: c.data
      ensures old(node.chunks) <= node.chunks
      ensures forall k :: |old(node.chunks)| <= k < |node.chunks| ==>
                fresh(node.chunks[k]) && fresh(node.chunks[k].data)
      ensures old(InRange(Value(), WriteCall(fd, bytes, pos)))
              <==> Valid() && (Value(), a) == FlatStep(old(Value()), WriteCall(fd, bytes, pos))
      ensures a in {Failed, Crashed} ==> fds == old(fds)
      ensures a !in {Failed, Crashed} ==>
                a == Count(|bytes|)
                && OnlyOffset(old(fds), fd, old(fds)[fd].offset + (if pos.Here? then |bytes| else 0), fds)
      ensures old(InRange(Value(), WriteCall(fd, bytes, pos))) ==>
                Valid() && WriteMeans(old(Value()), fd, bytes, pos, Value(), a)
    {
      hide Flat, Shaped, FlatWrite, InDomain, Splice, Length, WriteMeans;
      CountOfPieces(node.pieces);
      FlatStepMeans(Value(), WriteCall(fd, bytes, pos));
      if fds[fd].access.ReadOnly? {
        return Failed;
      }
      var r := node.Write(WritesAt(node.totalSize, fds[fd], pos), bytes);
      if r.Fault? {
        return Crashed;
      }
      fds := Advanced(fds, fd, pos, r.count);
      return Count(r.count);
    }

    method Seek(fd: nat, off: int, whence: Whence) returns (a: Answer)
      requires Valid() && fd < |fds|
      modifies this`fds
      ensures Valid() && (Value(), a) == FlatStep(old(Value()), SeekCall(fd, off, whence))
      ensures SeekMeans(old(Value()), fd, off, whence, Value(), a)
    {
      hide Flat, Shaped, SeekMeans;
      FlatStepMeans(Value(), SeekCall(fd, off, whence));
      var ret := fds[fd].offset;
      match whence {
        case SeekSet => ret := off;
        case SeekCur => ret := ret + off;
        case SeekEnd => ret := node.totalSize + off;
        case SeekHole =>
          if ret < node.totalSize {
            return Count(-1);
          }
          ret := node.totalSize;
        case SeekData =>
          if ret >= node.totalSize {
            return Count(-1);
          }
        case SeekOther => return Count(ret - 1);
      }
      fds := fds[fd := fds[fd].(offset := ret)];
      return Count(ret);
    }

    method Step(op: FileOp) returns (a: Answer)
      requires Valid() && InRange(Value(), op)
      modifies this`fds, node, node.chunks, set c | c in node.chunks :: c.data
      ensures old(node.chunks) <= node.chunks
      ensures forall k :: |old(node.chunks)| <= k < |node.chunks| ==>
                fresh(node.chunks[k]) && fresh(node.chunks[k].data)
      ensures Valid() && (Value(), a) == FlatStep(old(Value()), op)
    {
      hide Flat, FlatStep, Node.Valid;
      match op
      case ReadCall(fd, count, pos) => a := Read(fd, count, pos);
      case WriteCall(fd, bytes, pos) => a := Write(fd, bytes, pos);
      case SeekCall(fd, off, whence) => a := Seek(fd, off, whence);
    }

    /** Any run of in-domain calls through any descriptors answers as the flat file does. */
    method Run(ops: seq<FileOp>) returns (answers: seq<Answer>)
      requires Valid() && AllInRange(Value(), ops)
      modifies this`fds, node, node.chunks, set c | c in node.chunks :: c.data
      ensures Valid() && (Value(), answers) == FlatRun(old(Value()), ops)
    {
      hide Flat, FlatStep, Node.Valid, InRange;
      ghost var start := Value();
      answers := [];
      assert ops[0..] == ops;
      assert answers + FlatRun(start, ops).1 == FlatRun(start, ops).1;
      for i := 0 to |ops|
        invariant Valid() && AllInRange(Value(), ops[i..])
        invariant old(node.chunks) <= node.chunks
        invariant forall k :: |old(node.chunks)| <= k < |node.chunks| ==>
                    fresh(node.chunks[k]) && fresh(node.chunks[k].data)
        invariant var (t, rest) := FlatRun(Value(), ops[i..]); FlatRun(start, ops) == (t, answers + rest)
      {
        assert ops[i..][1..] == ops[i + 1..];
        var a := Step(ops[i]);
        assert answers + [a] + FlatRun(Value(), ops[i + 1..]).1 == answers + ([a] + FlatRun(Value(), ops[i + 1..]).1);
        answers := answers + [a];
      }
      assert answers + [] == answers;
    }
  }
}
