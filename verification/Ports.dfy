/** The ephemeral port cursor of the socket registry: it counts down and wraps. */
module Ports {
  import opened Descriptors

  const FIRST := 32768
  const LAST := 60999
  const COUNT := LAST - FIRST + 1

  predicate IsEphemeral(p: int) {
    FIRST <= p <= LAST
  }

  function Down(p: nat): (q: nat)
    requires IsEphemeral(p)
    ensures IsEphemeral(q)
  {
    if p > FIRST then p - 1 else LAST
  }

  /** How many steps down lead from `start` to `p`. */
  function Steps(start: nat, p: nat): (n: nat)
    requires IsEphemeral(start) && IsEphemeral(p)
    ensures n < COUNT
  {
    if p <= start then start - p else start - p + COUNT
  }

  /** The port `n` steps down from `start`. */
  function Below(start: nat, n: nat): (p: nat)
    requires IsEphemeral(start) && n <= COUNT
    ensures IsEphemeral(p) && (n < COUNT ==> Steps(start, p) == n) && (n == 0 ==> p == start)
  {
    if start - n >= FIRST then start - n else start - n + COUNT
  }

  /** Distances seen from a cursor that has already come `n` steps. */
  lemma StepsFrom(start: nat, n: nat, p: nat)
    requires IsEphemeral(start) && IsEphemeral(p) && n <= COUNT
    ensures Steps(Below(start, n), p)
            == if n == COUNT then Steps(start, p)
               else if Steps(start, p) >= n then Steps(start, p) - n
               else Steps(start, p) - n + COUNT
  {
  }

  ghost function Free(bound: set<nat>): set<nat> {
    set p: nat | FIRST <= p <= LAST && p !in bound
  }

  /** Free ports a cursor passes on its first `n` steps from `start`. */
  ghost function Passed(bound: set<nat>, start: nat, n: nat): set<nat>
    requires IsEphemeral(start)
  {
    set p | p in Free(bound) && Steps(start, p) < n
  }

  lemma SameSize<T>(a: set<T>, b: set<T>)
    requires a <= b
    ensures |a| <= |b| && (|a| == |b| ==> a == b)
  {
    assert b == a + (b - a);
    if b - a == {} {
    } else {
      assert |b| == |a| + |b - a|;
    }
  }

  lemma Ahead<T>(a: set<T>, b: set<T>) returns (x: T)
    requires a <= b && |a| < |b|
    ensures x in b && x !in a
  {
    assert b == a + (b - a);
    x :| x in b - a;
  }

  lemma PassedEnds(bound: set<nat>, start: nat, n: nat)
    requires IsEphemeral(start)
    ensures Passed(bound, start, n) <= Free(bound) && Passed(bound, start, 0) == {}
  {
  }

  /** The nearest free port from a cursor that has come `n` steps is the next one it passes. */
  lemma PassedNext(bound: set<nat>, start: nat, n: nat, port: nat)
    requires IsEphemeral(start) && n <= COUNT && port in Free(bound)
    requires |Passed(bound, start, n)| < |Free(bound)|
    requires forall p :: p in Free(bound) ==> Steps(Below(start, n), port) <= Steps(Below(start, n), p)
    ensures IsEphemeral(port) && port !in Passed(bound, start, n)
    ensures Passed(bound, start, Steps(start, port) + 1) == Passed(bound, start, n) + {port}
    ensures Below(start, Steps(start, port) + 1) == Down(port)
  {
    var ahead := Ahead(Passed(bound, start, n), Free(bound));
    StepsFrom(start, n, port);
    StepsFrom(start, n, ahead);
    forall p | p in Free(bound) && Steps(start, p) < Steps(start, port) + 1 ensures Steps(start, p) < n || p == port {
      StepsFrom(start, n, p);
    }
  }

  class PortAllocator {
    var bound: map<nat, nat>
    var cursor: nat

    ghost predicate Valid()
      reads this
    {
      IsEphemeral(cursor)
    }

    constructor ()
      ensures Valid() && bound == map[]
    {
      bound, cursor := map[], LAST;
    }

    /** The first free port at or below the cursor, wrapping once; nothing exactly when all are bound. */
    method Allocate() returns (r: Option<nat>)
      requires Valid()
      modifies this`cursor
      ensures Valid()
      ensures r.None? <==> Free(bound.Keys) == {}
      ensures r.None? ==> cursor == old(cursor)
      ensures r.Some? ==> r.value in Free(bound.Keys) && cursor == Down(r.value)
      ensures r.Some? ==> forall p :: p in Free(bound.Keys) ==> Steps(old(cursor), r.value) <= Steps(old(cursor), p)
    {
      var start := cursor;
      var port := start;
      while true
        invariant IsEphemeral(port) && cursor == start
        invariant forall p :: p in Free(bound.Keys) ==> Steps(start, port) <= Steps(start, p)
        decreases COUNT - Steps(start, port)
      {
        if port !in bound {
          assert port in Free(bound.Keys);
          cursor := Down(port);
          return Some(port);
        }
        assert port !in Free(bound.Keys);
        forall p | p in Free(bound.Keys) ensures Steps(start, p) > Steps(start, port) {
          assert p != port;
        }
        port := Down(port);
        if port == start {
          return None;
        }
      }
    }

    /**
     Consecutive allocations while the bound set stays as it is: as many as there are free
     ports return each free port exactly once.
     */
    method AllocateMany(n: nat) returns (ports: seq<nat>)
      requires Valid() && n <= |Free(bound.Keys)|
      modifies this`cursor
      ensures Valid() && |ports| == n
      ensures forall i :: 0 <= i < n ==> ports[i] in Free(bound.Keys)
      ensures forall i, j :: 0 <= i < j < n ==> ports[i] != ports[j]
      ensures n == |Free(bound.Keys)| ==> (set p | p in ports) == Free(bound.Keys)
    {
      hide Free, Passed, Steps, Below, Down;
      ghost var start, free := cursor, Free(bound.Keys);
      PassedEnds(bound.Keys, start, 0);
      ghost var gone: nat := 0;
      ports := [];
      for k := 0 to n
        invariant Valid() && |ports| == k && gone <= COUNT && cursor == Below(start, gone)
        invariant forall p :: p in ports <==> p in Passed(bound.Keys, start, gone)
        invariant |Passed(bound.Keys, start, gone)| == k
        invariant forall i, j :: 0 <= i < j < k ==> ports[i] != ports[j]
      {
        ghost var got := Passed(bound.Keys, start, gone);
        PassedEnds(bound.Keys, start, gone);
        SameSize(got, free);
        var r := Allocate();
        var port := r.value;
        PassedNext(bound.Keys, start, gone, port);
        gone := Steps(start, port) + 1;
        assert Passed(bound.Keys, start, gone) == got + {port};
        ports := ports + [port];
      }
      PassedEnds(bound.Keys, start, gone);
      SameSize(Passed(bound.Keys, start, gone), free);
    }
  }
}
