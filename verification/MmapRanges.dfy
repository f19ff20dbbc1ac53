/** The clamped-mmap ranges of each cage, as lists that may overlap. */
module MmapRanges {

  const U64_LIMIT := 0x1_0000_0000_0000_0000

  datatype Range = Range(start: nat, end: nat)

  /** Whether a call with these arguments has any effect: not empty, and its end is a 64-bit number. */
  predicate Counts(addr: nat, len: nat) {
    len > 0 && addr + len < U64_LIMIT
  }

  predicate In(r: Range, a: nat) {
    r.start <= a < r.end
  }

  ghost predicate Covered(ranges: seq<Range>, a: nat) {
    exists r :: r in ranges && In(r, a)
  }

  ghost predicate NonEmpty(ranges: seq<Range>) {
    forall r :: r in ranges ==> r.start < r.end < U64_LIMIT
  }

  lemma CoveredCat(xs: seq<Range>, ys: seq<Range>, a: nat)
    ensures Covered(xs + ys, a) <==> Covered(xs, a) || Covered(ys, a)
  {
    if Covered(xs, a) {
      var r :| r in xs && In(r, a);
      assert r in xs + ys;
    }
    if Covered(ys, a) {
      var r :| r in ys && In(r, a);
      assert r in xs + ys;
    }
  }

  /** What is left of one range when [addr, end) goes. */
  function Rest(r: Range, addr: nat, end: nat): seq<Range> {
    if end <= r.start || addr >= r.end then [r]
    else
      (if addr > r.start then [Range(r.start, addr)] else [])
      + if end < r.end then [Range(end, r.end)] else []
  }

  lemma RestCovers(r: Range, addr: nat, end: nat, a: nat)
    requires r.start < r.end && addr < end
    ensures Covered(Rest(r, addr, end), a) <==> In(r, a) && !(addr <= a < end)
  {
    if In(r, a) && !(addr <= a < end) {
      var q := if end <= r.start || addr >= r.end then r
               else if a < addr then Range(r.start, addr) else Range(end, r.end);
      assert q in Rest(r, addr, end) && In(q, a);
    }
  }

  /** The first `i` ranges have been cut, the others are as they were. */
  ghost predicate CutTo(ranges: seq<Range>, i: nat, cut: seq<Range>, addr: nat, end: nat) {
    && i <= |ranges| && NonEmpty(cut)
    && forall a: nat :: Covered(cut, a) <==> Covered(ranges[..i], a) && !(addr <= a < end)
  }

  lemma CutNone(ranges: seq<Range>, addr: nat, end: nat)
    ensures CutTo(ranges, 0, [], addr, end)
  {
  }

  lemma CutStep(ranges: seq<Range>, i: nat, cut: seq<Range>, addr: nat, end: nat)
    requires CutTo(ranges, i, cut, addr, end) && i < |ranges| && NonEmpty(ranges) && addr < end
    ensures CutTo(ranges, i + 1, cut + Rest(ranges[i], addr, end), addr, end)
  {
    var r := ranges[i];
    assert ranges[..i + 1] == ranges[..i] + [r];
    forall a: nat ensures Covered(cut + Rest(r, addr, end), a) <==> Covered(ranges[..i + 1], a) && !(addr <= a < end) {
      CoveredCat(cut, Rest(r, addr, end), a);
      CoveredCat(ranges[..i], [r], a);
      RestCovers(r, addr, end, a);
      assert r in [r];
    }
  }

  datatype RangeOp = RecordCall(cage: nat, addr: nat, len: nat) | RemoveCall(cage: nat, addr: nat, len: nat)

  predicate Touches(op: RangeOp, cage: nat, a: nat) {
    op.cage == cage && op.addr + op.len < U64_LIMIT && op.addr <= a < op.addr + op.len
  }

  /** Recorded, and not removed since. */
  ghost predicate Standing(ops: seq<RangeOp>, cage: nat, a: nat) {
    ops != [] && var last := ops[|ops| - 1];
    if Touches(last, cage, a) then last.RecordCall? else Standing(ops[..|ops| - 1], cage, a)
  }

  class ClampedMmaps {
    var maps: map<nat, seq<Range>>

    /** No stored range is empty, and no stored list is. */
    ghost predicate Valid()
      reads this
    {
      forall c :: c in maps ==> maps[c] != [] && NonEmpty(maps[c])
    }

    /** The addresses a cage's list stands for. */
    ghost predicate Clamped(cage: nat, a: nat)
      reads this
    {
      cage in maps && Covered(maps[cage], a)
    }

    constructor ()
      ensures Valid() && forall c: nat, a: nat :: !Clamped(c, a)
    {
      maps := map[];
    }

    method Record(cage: nat, addr: nat, len: nat)
      requires Valid()
      modifies this
      ensures Valid()
      ensures forall c: nat, a: nat :: Clamped(c, a)
                <==> old(Clamped(c, a)) || Touches(RecordCall(cage, addr, len), c, a)
    {
      if !Counts(addr, len) {
        return;
      }
      var r, was := Range(addr, addr + len), if cage in maps then maps[cage] else [];
      forall a: nat ensures Covered(was + [r], a) <==> Covered(was, a) || In(r, a) {
        CoveredCat(was, [r], a);
        assert r in [r];
      }
      maps := maps[cage := was + [r]];
    }

    /** True exactly when the query meets the recorded addresses, also where ranges overlap. */
    method IsClamped(cage: nat, addr: nat, len: nat) returns (b: bool)
      requires Valid()
      ensures b <==> exists a: nat :: Touches(RecordCall(cage, addr, len), cage, a) && Clamped(cage, a)
    {
      if !Counts(addr, len) || cage !in maps {
        return false;
      }
      var ranges, end := maps[cage], addr + len;
      for i := 0 to |ranges|
        invariant forall j, a: nat :: 0 <= j < i && addr <= a < end ==> !In(ranges[j], a)
      {
        var r := ranges[i];
        if addr < r.end && end > r.start {
          ghost var a := if addr < r.start then r.start else addr;
          assert r in ranges && In(r, a);
          assert Touches(RecordCall(cage, addr, len), cage, a) && Clamped(cage, a);
          return true;
        }
      }
      return false;
    }

    method Cut(ranges: seq<Range>, addr: nat, end: nat) returns (cut: seq<Range>)
      requires NonEmpty(ranges) && addr < end
      ensures NonEmpty(cut) && forall a: nat :: Covered(cut, a) <==> Covered(ranges, a) && !(addr <= a < end)
    {
      hide Covered, NonEmpty;
      cut := [];
      CutNone(ranges, addr, end);
      for i := 0 to |ranges|
        invariant CutTo(ranges, i, cut, addr, end)
      {
        hide CutTo;
        CutStep(ranges, i, cut, addr, end);
        var r := ranges[i];
        if end <= r.start || addr >= r.end {
          cut := cut + [r];
          continue;
        }
        ghost var before := cut;
        if addr > r.start {
          cut := cut + [Range(r.start, addr)];
        }
        if end < r.end {
          cut := cut + [Range(end, r.end)];
        }
        assert cut == before + Rest(r, addr, end);
      }
      assert ranges[..|ranges|] == ranges;
    }

    method Remove(cage: nat, addr: nat, len: nat)
      requires Valid()
      modifies this
      ensures Valid()
      ensures forall c: nat, a: nat :: Clamped(c, a)
                <==> old(Clamped(c, a)) && !Touches(RemoveCall(cage, addr, len), c, a)
    {
      if !Counts(addr, len) || cage !in maps {
        return;
      }
      var cut := Cut(maps[cage], addr, addr + len);
      maps := if cut == [] then maps - {cage} else maps[cage := cut];
    }

    /** Any run of calls: a cage's list stands for what was recorded and not since removed. */
    method Run(ops: seq<RangeOp>)
      requires Valid() && forall c: nat, a: nat :: !Clamped(c, a)
      modifies this
      ensures Valid() && forall c: nat, a: nat :: Clamped(c, a) <==> Standing(ops, c, a)
    {
      for i := 0 to |ops|
        invariant Valid() && forall c: nat, a: nat :: Clamped(c, a) <==> Standing(ops[..i], c, a)
      {
        assert ops[..i + 1][..i] == ops[..i];
        match ops[i]
        case RecordCall(cage, addr, len) => Record(cage, addr, len);
        case RemoveCall(cage, addr, len) => Remove(cage, addr, len);
      }
      assert ops[..|ops|] == ops;
    }
  }
}
