/**
 Who holds which end of which pipe.

 Every reference to a pipe end has one owner: a descriptor in some cage's table, a
 connection waiting to be accepted, or a descriptor of a clone that is still in flight. A
 holding maps each owner to the ends it stands for; the reference counts of the pipes have
 to agree with it.
 */
module Holdings {
  import opened Bytes
  import opened Pipes

  /** A pipe made by pipe(), under its registry id, or the n-th pipe made for a socket connection. */
  datatype PipeRef = Plain(id: nat) | Conn(n: nat)

  datatype End = WriteEnd(pipe: PipeRef) | ReadEnd(pipe: PipeRef)

  datatype Slot =
    | Live(cage: nat, fd: nat)
    | Queued(n: nat)
    | InFlight(inheritedFd: nat)

  type Holding = map<Slot, set<End>>

  ghost function Holders(h: Holding, e: End): set<Slot> {
    set s | s in h && e in h[s]
  }

  ghost predicate AgreeOn(h: Holding, r: PipeRef, p: Pipe) {
    && p.writeRefs == |Holders(h, WriteEnd(r))|
    && p.readRefs == |Holders(h, ReadEnd(r))|
    && LatchExact(p)
  }

  /** Each count is the number of owners of that end, and EOF is latched exactly when no write end is left. */
  ghost predicate Agree(h: Holding, pipes: map<PipeRef, Pipe>) {
    forall r :: r in pipes ==> AgreeOn(h, r, pipes[r])
  }

  /** No owner names a pipe that does not exist. */
  ghost predicate Known(h: Holding, pipes: map<PipeRef, Pipe>) {
    forall s, e :: s in h && e in h[s] ==> e.pipe in pipes
  }

  // ------------------------------------------------------------------
  // Counting owners
  // ------------------------------------------------------------------

  lemma HoldersAdd(h: Holding, s: Slot, ends: set<End>, e: End)
    requires s !in h
    ensures Holders(h[s := ends], e) == Holders(h, e) + (if e in ends then {s} else {})
    ensures |Holders(h[s := ends], e)| == |Holders(h, e)| + if e in ends then 1 else 0
  {
    assert Holders(h[s := ends], e) == Holders(h, e) + (if e in ends then {s} else {});
  }

  lemma HoldersRemove(h: Holding, s: Slot, e: End)
    requires s in h
    ensures Holders(h - {s}, e) == Holders(h, e) - {s}
    ensures |Holders(h - {s}, e)| == |Holders(h, e)| - if e in h[s] then 1 else 0
  {
    assert Holders(h - {s}, e) == Holders(h, e) - {s};
    if e in h[s] {
      assert s in Holders(h, e);
    } else {
      assert Holders(h, e) - {s} == Holders(h, e);
    }
  }

  /** Handing all ends of one owner to a new one changes no count. */
  lemma HoldersMove(h: Holding, s: Slot, t: Slot, e: End)
    requires s in h && t !in h
    ensures |Holders((h - {s})[t := h[s]], e)| == |Holders(h, e)|
  {
    HoldersRemove(h, s, e);
    HoldersAdd(h - {s}, t, h[s], e);
  }

  lemma MoveKeepsAgree(h: Holding, s: Slot, t: Slot, pipes: map<PipeRef, Pipe>)
    requires s in h && t !in h && Agree(h, pipes)
    ensures Agree((h - {s})[t := h[s]], pipes)
  {
    forall r | r in pipes ensures AgreeOn((h - {s})[t := h[s]], r, pipes[r]) {
      HoldersMove(h, s, t, WriteEnd(r));
      HoldersMove(h, s, t, ReadEnd(r));
    }
  }

  // ------------------------------------------------------------------
  // Reference counting
  // ------------------------------------------------------------------

  function Bump(r: PipeRef, p: Pipe, ends: set<End>): Pipe {
    var q := if WriteEnd(r) in ends then IncrWrite(p) else p;
    if ReadEnd(r) in ends then IncrRead(q) else q
  }

  function Bumped(pipes: map<PipeRef, Pipe>, ends: set<End>): map<PipeRef, Pipe> {
    map r | r in pipes :: Bump(r, pipes[r], ends)
  }

  ghost predicate Droppable(r: PipeRef, p: Pipe, ends: set<End>) {
    (WriteEnd(r) in ends ==> p.writeRefs > 0) && (ReadEnd(r) in ends ==> p.readRefs > 0)
  }

  function Drop(r: PipeRef, p: Pipe, ends: set<End>): Pipe
    requires Droppable(r, p, ends)
  {
    var q := if WriteEnd(r) in ends then DecrWrite(p) else p;
    if ReadEnd(r) in ends then DecrRead(q) else q
  }

  function Dropped(pipes: map<PipeRef, Pipe>, ends: set<End>): map<PipeRef, Pipe>
    requires forall r :: r in pipes ==> Droppable(r, pipes[r], ends)
  {
    map r | r in pipes :: Drop(r, pipes[r], ends)
  }

  /** A new owner of ends that someone already holds. */
  lemma BumpKeepsAgree(h: Holding, src: Slot, s: Slot, pipes: map<PipeRef, Pipe>)
    requires Agree(h, pipes) && src in h && s !in h
    ensures Agree(h[s := h[src]], Bumped(pipes, h[src]))
  {
    var ends := h[src];
    var pipes' := Bumped(pipes, ends);
    forall r | r in pipes' ensures AgreeOn(h[s := ends], r, pipes'[r]) {
      HoldersAdd(h, s, ends, WriteEnd(r));
      HoldersAdd(h, s, ends, ReadEnd(r));
      if WriteEnd(r) in ends { assert src in Holders(h, WriteEnd(r)); }
    }
  }

  lemma OwnerIsCounted(h: Holding, s: Slot, pipes: map<PipeRef, Pipe>)
    requires Agree(h, pipes) && s in h
    ensures forall r :: r in pipes ==> Droppable(r, pipes[r], h[s])
  {
    forall r | r in pipes ensures Droppable(r, pipes[r], h[s]) {
      if WriteEnd(r) in h[s] { assert s in Holders(h, WriteEnd(r)); }
      if ReadEnd(r) in h[s] { assert s in Holders(h, ReadEnd(r)); }
    }
  }

  /** An owner that goes away gives its references back; no count can underflow. */
  lemma DropKeepsAgree(h: Holding, s: Slot, pipes: map<PipeRef, Pipe>)
    requires Agree(h, pipes) && s in h
    ensures forall r :: r in pipes ==> Droppable(r, pipes[r], h[s])
    ensures Agree(h - {s}, Dropped(pipes, h[s]))
  {
    OwnerIsCounted(h, s, pipes);
    var pipes' := Dropped(pipes, h[s]);
    forall r | r in pipes' ensures AgreeOn(h - {s}, r, pipes'[r]) {
      HoldersRemove(h, s, WriteEnd(r));
      HoldersRemove(h, s, ReadEnd(r));
    }
  }

  /** Two new owners between them hold each end of each new pipe once. */
  ghost predicate SplitBetween(made: set<PipeRef>, a: set<End>, b: set<End>) {
    && (forall e :: e in a || e in b ==> e.pipe in made)
    && (forall r :: r in made ==> (WriteEnd(r) in a <==> WriteEnd(r) !in b) && (ReadEnd(r) in a <==> ReadEnd(r) !in b))
  }

  function WithPipes(pipes: map<PipeRef, Pipe>, made: set<PipeRef>, cap: nat): map<PipeRef, Pipe> {
    pipes + map r | r in made :: NewPipe(cap)
  }

  lemma NewPipesKeepAgree(h: Holding, pipes: map<PipeRef, Pipe>, made: set<PipeRef>, s: Slot, a: set<End>,
                          t: Slot, b: set<End>, cap: nat)
    requires Agree(h, pipes) && Known(h, pipes) && made !! pipes.Keys
    requires s !in h && t !in h && s != t && SplitBetween(made, a, b)
    ensures Agree(h[s := a][t := b], WithPipes(pipes, made, cap))
  {
    var h' := h[s := a][t := b];
    var pipes' := WithPipes(pipes, made, cap);
    forall r | r in pipes' ensures AgreeOn(h', r, pipes'[r]) {
      HoldersAdd(h, s, a, WriteEnd(r));
      HoldersAdd(h, s, a, ReadEnd(r));
      HoldersAdd(h[s := a], t, b, WriteEnd(r));
      HoldersAdd(h[s := a], t, b, ReadEnd(r));
      if r in made {
        assert Holders(h, WriteEnd(r)) == {} && Holders(h, ReadEnd(r)) == {};
      } else {
        assert WriteEnd(r).pipe !in made && ReadEnd(r).pipe !in made;
      }
    }
  }

  // ------------------------------------------------------------------
  // Owners nobody counted
  // ------------------------------------------------------------------

  /** Installing an owner without counting it keeps the counts right exactly when it stands for no end. */
  lemma UncountedOwner(h: Holding, s: Slot, ends: set<End>, pipes: map<PipeRef, Pipe>)
    requires Agree(h, pipes) && s !in h
    requires forall e :: e in ends ==> e.pipe in pipes
    ensures Agree(h[s := ends], pipes) <==> ends == {}
  {
    forall e | e in ends ensures !AgreeOn(h[s := ends], e.pipe, pipes[e.pipe]) {
      HoldersAdd(h, s, ends, e);
      assert AgreeOn(h, e.pipe, pipes[e.pipe]);
    }
    if ends == {} {
      forall r | r in pipes ensures AgreeOn(h[s := ends], r, pipes[r]) {
        HoldersAdd(h, s, ends, WriteEnd(r));
        HoldersAdd(h, s, ends, ReadEnd(r));
      }
    }
  }

  /** Some owners are counted and some are not: the counts are right exactly when the latter stand for nothing. */
  lemma UncountedOwners(counted: Holding, extra: Holding, pipes: map<PipeRef, Pipe>)
    requires Agree(counted, pipes) && counted.Keys !! extra.Keys && Known(extra, pipes)
    ensures Agree(counted + extra, pipes) <==> forall s :: s in extra ==> extra[s] == {}
  {
    var h := counted + extra;
    forall s, e | s in extra && e in extra[s] ensures !AgreeOn(h, e.pipe, pipes[e.pipe]) {
      assert AgreeOn(counted, e.pipe, pipes[e.pipe]);
      MoreHolders(counted, extra, s, e);
    }
    if s, e :| s in extra && e in extra[s] {
      assert !AgreeOn(h, e.pipe, pipes[e.pipe]);
    } else {
      forall r | r in pipes ensures AgreeOn(h, r, pipes[r]) {
        assert Holders(h, WriteEnd(r)) == Holders(counted, WriteEnd(r));
        assert Holders(h, ReadEnd(r)) == Holders(counted, ReadEnd(r));
      }
    }
  }

  lemma MoreHolders(counted: Holding, extra: Holding, s: Slot, e: End)
    requires counted.Keys !! extra.Keys && s in extra && e in extra[s]
    ensures |Holders(counted + extra, e)| > |Holders(counted, e)|
  {
    var big, small := Holders(counted + extra, e), Holders(counted, e);
    assert small <= big && s in big - small;
    assert big == small + (big - small);
    assert |big| == |small| + |big - small|;
    assert big - small != {};
  }

  // ------------------------------------------------------------------
  // What may happen to a pipe from step to step
  // ------------------------------------------------------------------

  /** EOF is for ever, and after it the ring only loses bytes from the front. */
  ghost predicate Onward(p: Pipe, q: Pipe) {
    && q.cap == p.cap
    && (Fits(p) ==> Fits(q))
    && (p.eof ==> q.eof && |q.data| <= |p.data| && q.data == p.data[|p.data| - |q.data|..])
  }

  ghost predicate AllOnward(before: map<PipeRef, Pipe>, after: map<PipeRef, Pipe>) {
    forall r :: r in before ==> r in after && Onward(before[r], after[r])
  }

  lemma OnwardTrans(a: map<PipeRef, Pipe>, b: map<PipeRef, Pipe>, c: map<PipeRef, Pipe>)
    requires AllOnward(a, b) && AllOnward(b, c)
    ensures AllOnward(a, c)
  {
    forall r | r in a ensures r in c && Onward(a[r], c[r]) {
      assert Onward(a[r], b[r]) && Onward(b[r], c[r]);
    }
  }

  lemma OnwardRefl(a: map<PipeRef, Pipe>)
    ensures AllOnward(a, a)
  {
    forall r | r in a ensures Onward(a[r], a[r]) {
      assert a[r].data == a[r].data[0..];
    }
  }
}
