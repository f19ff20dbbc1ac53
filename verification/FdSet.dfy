/** The descriptor sets of select(): 1024 bits in 32 words. */
module FdSets {

  const FD_SETSIZE := 1024
  const WORDS := FD_SETSIZE / 32

  function Mask(k: nat): bv32
    requires k < 32
  {
    1 << k
  }

  function Both(v: bv32, w: bv32): bv32 {
    v & w
  }

  function Either(v: bv32, w: bv32): bv32 {
    v | w
  }

  predicate HasBit(w: bv32, k: nat)
    requires k < 32
  {
    Both(w, Mask(k)) != 0
  }

  function WithBit(w: bv32, k: nat): bv32
    requires k < 32
  {
    Either(w, Mask(k))
  }

  predicate IsSet(words: seq<bv32>, fd: nat)
    requires |words| == WORDS
  {
    fd < FD_SETSIZE && HasBit(words[fd / 32], fd % 32)
  }

  function Members(words: seq<bv32>): set<nat>
    requires |words| == WORDS
  {
    set fd: nat | fd < FD_SETSIZE && IsSet(words, fd)
  }

  lemma Distributes(v: bv32, w: bv32, m: bv32)
    ensures (v | w) & m == (v & m) | (w & m)
  {
  }

  lemma BothDistributes(v: bv32, w: bv32, m: bv32)
    ensures Both(v | w, m) == Both(v, m) | Both(w, m)
  {
    hide Either;
    Distributes(v, w, m);
  }

  lemma BothOfEither(v: bv32, w: bv32, m: bv32)
    ensures Both(Either(v, w), m) == Either(Both(v, m), Both(w, m))
  {
    hide Both;
    BothDistributes(v, w, m);
  }

  lemma EitherZero(v: bv32, w: bv32)
    ensures Either(v, w) == 0 <==> v == 0 && w == 0
  {
  }

  lemma MasksMeet(j: nat, k: nat)
    requires j < 32 && k < 32
    ensures Both(Mask(k), Mask(j)) != 0 <==> j == k
  {
  }

  lemma BitOr(v: bv32, w: bv32, j: nat)
    requires j < 32
    ensures HasBit(Either(v, w), j) <==> HasBit(v, j) || HasBit(w, j)
  {
    hide Mask, Both, Either;
    BothOfEither(v, w, Mask(j));
    EitherZero(Both(v, Mask(j)), Both(w, Mask(j)));
  }

  lemma BitSet(w: bv32, j: nat, k: nat)
    requires j < 32 && k < 32
    ensures HasBit(WithBit(w, k), j) <==> HasBit(w, j) || j == k
  {
    hide Mask, Both, Either;
    BitOr(w, Mask(k), j);
    MasksMeet(j, k);
  }

  /** The layout: a word's descriptors are its bits, the least first. */
  lemma FirstBit(w: bv32)
    ensures HasBit(w, 0) <==> w & 1 == 1
  {
  }

  lemma NextBit(k: nat)
    requires k < 31
    ensures Mask(k + 1) == Mask(k) << 1
  {
  }

  lemma BitNone(j: nat)
    requires j < 32
    ensures !HasBit(0, j)
  {
  }

  lemma MembersAdd(words: seq<bv32>, fd: nat)
    requires |words| == WORDS && fd < FD_SETSIZE
    ensures Members(words[fd / 32 := WithBit(words[fd / 32], fd % 32)]) == Members(words) + {fd}
  {
    hide HasBit, WithBit;
    var after := words[fd / 32 := WithBit(words[fd / 32], fd % 32)];
    forall f: nat | f < FD_SETSIZE ensures IsSet(after, f) <==> IsSet(words, f) || f == fd {
      BitSet(words[fd / 32], f % 32, fd % 32);
    }
  }

  lemma MembersOr(v: seq<bv32>, w: seq<bv32>, both: seq<bv32>)
    requires |v| == |w| == |both| == WORDS
    requires forall i :: 0 <= i < WORDS ==> both[i] == Either(v[i], w[i])
    ensures Members(both) == Members(v) + Members(w)
  {
    hide HasBit, Either;
    forall f: nat | f < FD_SETSIZE ensures IsSet(both, f) <==> IsSet(v, f) || IsSet(w, f) {
      BitOr(v[f / 32], w[f / 32], f % 32);
    }
  }

  lemma MembersNone(words: seq<bv32>)
    requires |words| == WORDS && forall i :: 0 <= i < WORDS ==> words[i] == 0
    ensures Members(words) == {}
  {
    hide HasBit;
    forall f: nat | f < FD_SETSIZE ensures !IsSet(words, f) {
      BitNone(f % 32);
    }
  }

  class FdSet {
    const words: array<bv32>

    ghost predicate Valid() {
      words.Length == WORDS
    }

    ghost function Value(): set<nat>
      requires Valid()
      reads words
    {
      Members(words[..])
    }

    constructor ()
      ensures Valid() && Value() == {} && fresh(words)
    {
      words := new bv32[WORDS](_ => 0);
      new;
      MembersNone(words[..]);
    }

    method Has(fd: nat) returns (b: bool)
      requires Valid()
      ensures b <==> fd in Value()
    {
      b := fd < FD_SETSIZE && HasBit(words[fd / 32], fd % 32);
    }

    method Add(fd: nat)
      requires Valid()
      modifies words
      ensures Value() == if fd < FD_SETSIZE then old(Value()) + {fd} else old(Value())
    {
      hide HasBit, WithBit, Members;
      if fd < FD_SETSIZE {
        MembersAdd(words[..], fd);
        ghost var before := words[..];
        words[fd / 32] := WithBit(words[fd / 32], fd % 32);
        assert words[..] == before[fd / 32 := WithBit(before[fd / 32], fd % 32)];
      }
    }

    method AddAll(other: FdSet)
      requires Valid() && other.Valid() && words != other.words
      modifies words
      ensures Value() == old(Value()) + other.Value()
    {
      hide HasBit, Either, Members;
      for i := 0 to WORDS
        invariant forall k :: 0 <= k < i ==> words[k] == Either(old(words[k]), other.words[k])
        invariant forall k :: i <= k < WORDS ==> words[k] == old(words[k])
      {
        words[i] := Either(words[i], other.words[i]);
      }
      MembersOr(old(words[..]), other.words[..], words[..]);
    }
  }
}
