/**
 What each system call of the ipc-grate answers and changes, as a relation on states, and
 what follows for every run from these relations alone.
 */
module IpcEffects {
  import opened Bytes
  import opened Pipes
  import opened Holdings
  import opened Descriptors
  import opened IpcStates
  import opened SocketStates
  import opened Readiness

  const EBADF := -9
  const PIPE_CAPACITY := 65536
  const UDSOCK_CAPACITY := 212992

  // ------------------------------------------------------------------
  // Calls and answers
  // ------------------------------------------------------------------

  /** What a child may do before its parent's clone() returns without losing an inherited descriptor. */
  datatype ChildOp =
    | ChildPipe(pipeFlags: bv32)
    | ChildOpen(cloexec: bool, openFlags: bv32, forwarded: int)
    | ChildDup(fd: nat, from: nat, cloexec: bool, forwarded: int)
    | ChildDup2(oldfd: nat, newfd: nat, forwarded: int)

  /** The descriptors a child redirects. */
  function Targets(ops: seq<ChildOp>): set<nat> {
    set op | op in ops && op.ChildDup2? :: op.newfd
  }

  /** `forwarded` is what the runtime answers if the call is passed on to it. */
  datatype FdOp =
    | MakePipeCall(cage: nat, flags: bv32)
    | OpenCall(cage: nat, cloexec: bool, openFlags: bv32, forwarded: int)
    | DupCall(cage: nat, fd: nat, from: nat, cloexec: bool, forwarded: int)
    | Dup2Call(cage: nat, oldfd: nat, newfd: nat, forwarded: int)
    | SetStatusCall(cage: nat, fd: nat, arg: bv32, forwarded: int)
    | SetCloexecCall(cage: nat, fd: nat, on: bool, forwarded: int)
    | CloseCall(cage: nat, fd: nat, forwarded: int)
    | ReadCall(cage: nat, fd: nat, want: nat, forwarded: int)
    | WriteCall(cage: nat, fd: nat, bytes: seq<byte>, forwarded: int)

  datatype CageOp =
    | CloneCall(parent: nat, child: nat)
    | EarlyChildCall(parent: nat, child: nat, childOps: seq<ChildOp>, vfork: bool)
    | FailedCloneCall(parent: nat, error: int)
    | ExecCall(cage: nat, forwarded: int)
    | ExitCall(cage: nat, forwarded: int)

  datatype SocketOp =
    | MakeSocketCall(cage: nat, kind: bv32)
    | SocketPairCall(cage: nat, kind: bv32)
    | BindCall(cage: nat, fd: nat, addr: string, forwarded: int)
    | ListenCall(cage: nat, fd: nat, forwarded: int)
    | ConnectCall(cage: nat, fd: nat, target: string, forwarded: int)
    | AcceptCall(cage: nat, fd: nat, kind: bv32, interrupted: bool, forwarded: int)

  datatype Op = OnFd(fdOp: FdOp) | OnCage(cageOp: CageOp) | OnSocket(socketOp: SocketOp)

  /**
   What a call did to a ring or to a queue, and through which descriptor entry; or what the
   calls of a child answered that ran before its parent's clone() returned.
   */
  datatype Deed =
    | Nothing
    | Sent(via: Entry, pipe: PipeRef, bytes: seq<byte>)
    | Received(via: Entry, pipe: PipeRef, bytes: seq<byte>)
    | Connects(addr: string, n: nat)
    | Accepts(addr: string, n: nat)
    | ChildRan(answers: seq<Answer>)

  /** `Skipped`: outside the domain of the run. */
  datatype Answer = Skipped | Answer(outcome: Outcome, fds: seq<nat>, deed: Deed)

  function DeedOf(a: Answer): Deed {
    if a.Skipped? then Nothing else a.deed
  }

  function Code(r: int): Answer {
    Answer(Done(r), [], Nothing)
  }

  datatype State = State(cages: set<nat>, fds: map<Slot, Entry>, pipes: map<PipeRef, Pipe>, sockets: map<nat, Socket>,
                         queues: map<string, seq<Pending>>, boundPaths: map<string, nat>,
                         nextPipe: nat, nextConn: nat, nextSocket: nat)

  /** After a lookup of `fd`: a miss installs the newest pending snapshot. */
  ghost function LookedState(s: State, pending: seq<Snapshot>, cage: nat, fd: nat): State {
    s.(fds := Looked(s.fds, pending, cage, fd),
       cages := if Live(cage, fd) in s.fds || pending == [] then s.cages else s.cages + {cage})
  }

  // ------------------------------------------------------------------
  // Descriptor calls, the tables having been looked up as `seen`
  // ------------------------------------------------------------------

  predicate Ours(seen: map<Slot, Entry>, s: Slot) {
    s in seen && !seen[s].kind.Kernel?
  }

  /** A call that is passed on: EBADF for a descriptor missing from a table that exists. */
  function Forwarded(seen: map<Slot, Entry>, known: bool, s: Slot, forwarded: int): int {
    if s in seen || !known then forwarded else EBADF
  }

  /** The tables from which a descriptor of the runtime gets its place. */
  function KernelBase(seen: map<Slot, Entry>, cage: nat, s: Slot): map<Slot, Entry> {
    if s in seen then seen else Merged(seen, cage, Stdio(3))
  }

  ghost predicate DupTable(seen: map<Slot, Entry>, known: bool, cage: nat, fd: nat, from: nat, cloexec: bool,
                            forwarded: int, r: int, fds: map<Slot, Entry>) {
    var s := Live(cage, fd);
    if Ours(seen, s) then
      LowestFree(seen, cage, from, r) && fds == seen[Live(cage, r) := seen[s].(cloexec := cloexec)]
    else if s !in seen && known then
      r == EBADF && fds == seen
    else if forwarded < 0 then
      r == forwarded && fds == seen
    else
      var base := KernelBase(seen, cage, s);
      LowestFree(base, cage, from, r) && fds == base[Live(cage, r) := Entry(Kernel, forwarded, cloexec, 0)]
  }

  ghost predicate Dup2Table(seen: map<Slot, Entry>, known: bool, cage: nat, oldfd: nat, newfd: nat,
                             forwarded: int, r: int, fds: map<Slot, Entry>) {
    var s, t := Live(cage, oldfd), Live(cage, newfd);
    if Ours(seen, s) then
      r == newfd && fds == seen[t := seen[s].(cloexec := false)]
    else if s !in seen && known then
      r == EBADF && fds == seen
    else if forwarded < 0 then
      r == forwarded && fds == seen
    else
      r == newfd && fds == KernelBase(seen, cage, s)[t := Entry(Kernel, forwarded, false, 0)]
  }

  ghost predicate OpenTable(fds0: map<Slot, Entry>, base: map<Slot, Entry>, cage: nat, cloexec: bool, flags: bv32,
                             forwarded: int, r: int, fds: map<Slot, Entry>) {
    if forwarded < 0 then r == forwarded && fds == fds0
    else LowestFree(base, cage, 0, r) && fds == base[Live(cage, r) := Entry(Kernel, forwarded, cloexec, flags)]
  }

  /** The pipe a read on this entry takes from. */
  function SourceOf(sockets: map<nat, Socket>, e: Entry): Option<PipeRef> {
    match e.kind
    case Kernel => None
    case PipeFd => if IsReadEnd(e.flags) then Some(Plain(e.underfd)) else None
    case SocketFd => if e.underfd in sockets then sockets[e.underfd].recv else None
  }

  /** The pipe a write on this entry goes to. */
  function SinkOf(sockets: map<nat, Socket>, e: Entry): Option<PipeRef> {
    match e.kind
    case Kernel => None
    case PipeFd => if IsWriteEnd(e.flags) then Some(Plain(e.underfd)) else None
    case SocketFd => if e.underfd in sockets then sockets[e.underfd].send else None
  }

  /** The answer of a read or write, the bytes it moved, and the pipes after it. */
  datatype Transfer = Transfer(outcome: Outcome, bytes: seq<byte>, pipes: map<PipeRef, Pipe>)

  predicate Usable(r: Option<PipeRef>, pipes: map<PipeRef, Pipe>) {
    r.Some? && r.value in pipes && Fits(pipes[r.value])
  }

  /** One lap of read() on an entry of ours: the front of its pipe's ring, and no other pipe. */
  function ReadOn(pipes: map<PipeRef, Pipe>, sockets: map<nat, Socket>, e: Entry, want: nat): Transfer {
    var src := SourceOf(sockets, e);
    if !Usable(src, pipes) then Transfer(Done(EBADF), [], pipes)
    else
      var r := ReadToCage(pipes[src.value], want, e.flags & O_NONBLOCK != 0, []);
      Transfer(r.outcome, r.delivered, pipes[src.value := r.pipe])
  }

  /** One lap of write() on an entry of ours: behind its pipe's ring, and no other pipe. */
  function WriteOn(pipes: map<PipeRef, Pipe>, sockets: map<nat, Socket>, e: Entry, bytes: seq<byte>): Transfer {
    var dst := SinkOf(sockets, e);
    if !Usable(dst, pipes) then Transfer(Done(EBADF), [], pipes)
    else if bytes == [] then Transfer(Done(0), [], pipes)
    else
      var r := Write(pipes[dst.value], bytes, e.flags & O_NONBLOCK != 0, []);
      Transfer(r.outcome, bytes[..r.sent], pipes[dst.value := r.pipe])
  }

  // ------------------------------------------------------------------
  // Effects on states with no clone in flight
  // ------------------------------------------------------------------

  ghost function Base(s: State, cage: nat): map<Slot, Entry> {
    Ensured(s.fds, s.cages, [], cage)
  }

  /** A new pipe, with a descriptor for each of its ends. */
  ghost predicate MakePipeEffect(s: State, base: map<Slot, Entry>, t: State, cage: nat, flags: bv32, rfd: nat,
                                 wfd: nat)
  {
    && t == s.(cages := s.cages + {cage}, fds := t.fds, nextPipe := s.nextPipe + 1,
               pipes := WithPipes(s.pipes, {Plain(s.nextPipe)}, PIPE_CAPACITY))
    && LowestFree(base, cage, 0, rfd) && LowestFree(base, cage, rfd + 1, wfd)
    && t.fds == base[Live(cage, rfd) := ReadEntry(s.nextPipe, flags)][Live(cage, wfd) := WriteEntry(s.nextPipe, flags)]
  }

  ghost predicate OpenEffect(s: State, base: map<Slot, Entry>, t: State, cage: nat, cloexec: bool, flags: bv32,
                             forwarded: int, r: int) {
    && t == s.(cages := if forwarded < 0 then s.cages else s.cages + {cage}, fds := t.fds)
    && OpenTable(s.fds, base, cage, cloexec, flags, forwarded, r, t.fds)
  }

  /** The cages once a duplicate has its place: one that had no table may get one. */
  function DupCages(s: State, x: Slot, cage: nat, forwarded: int): set<nat> {
    if forwarded < 0 || Ours(s.fds, x) || cage in s.cages then s.cages else s.cages + {cage}
  }

  ghost predicate DupEffect(s: State, t: State, cage: nat, fd: nat, from: nat, cloexec: bool, forwarded: int, r: int) {
    && t == s.(cages := DupCages(s, Live(cage, fd), cage, forwarded), fds := t.fds, pipes := t.pipes)
    && Recounted(s.pipes, t.pipes)
    && DupTable(s.fds, cage in s.cages, cage, fd, from, cloexec, forwarded, r, t.fds)
  }

  ghost predicate Dup2Effect(s: State, t: State, cage: nat, oldfd: nat, newfd: nat, forwarded: int, r: int) {
    if oldfd == newfd then t == s && r == newfd
    else
      && t == s.(cages := DupCages(s, Live(cage, oldfd), cage, forwarded), fds := t.fds, pipes := t.pipes)
      && Recounted(s.pipes, t.pipes)
      && Dup2Table(s.fds, cage in s.cages, cage, oldfd, newfd, forwarded, r, t.fds)
  }

  lemma KeptFd(s: State, cage: nat, fd: nat, forwarded: int)
    ensures Dup2Effect(s, s, cage, fd, fd, forwarded, fd)
  {
  }

  ghost predicate SetStatusEffect(s: State, t: State, cage: nat, fd: nat, arg: bv32, forwarded: int, r: int) {
    var x := Live(cage, fd);
    && t == s.(fds := t.fds)
    && if Ours(s.fds, x) then r == 0 && t.fds == s.fds[x := s.fds[x].(flags := SetStatusFlags(s.fds[x].flags, arg))]
       else r == Forwarded(s.fds, cage in s.cages, x, forwarded) && t.fds == s.fds
  }

  ghost predicate SetCloexecEffect(s: State, t: State, cage: nat, fd: nat, on: bool, forwarded: int, r: int) {
    var x := Live(cage, fd);
    && t == s.(fds := t.fds)
    && if Ours(s.fds, x) then r == 0 && t.fds == s.fds[x := s.fds[x].(cloexec := on)]
       else r == Forwarded(s.fds, cage in s.cages, x, forwarded) && t.fds == s.fds
  }

  ghost predicate CloseEffect(s: State, t: State, cage: nat, fd: nat, forwarded: int, r: int) {
    && t == s.(fds := s.fds - {Live(cage, fd)}, pipes := t.pipes) && Recounted(s.pipes, t.pipes)
    && r == if Ours(s.fds, Live(cage, fd)) then 0 else forwarded
  }

  ghost predicate ReadEffect(s: State, t: State, cage: nat, fd: nat, want: nat, forwarded: int, a: Answer) {
    var x := Live(cage, fd);
    if !Ours(s.fds, x) then t == s && a == Code(Forwarded(s.fds, cage in s.cages, x, forwarded))
    else
      var r := ReadOn(s.pipes, s.sockets, s.fds[x], want);
      && t == s.(pipes := r.pipes)
      && a == Answer(r.outcome, [], Moved(SourceOf(s.sockets, s.fds[x]), s.fds[x], r.bytes, false))
  }

  ghost predicate WriteEffect(s: State, t: State, cage: nat, fd: nat, bytes: seq<byte>, forwarded: int, a: Answer) {
    var x := Live(cage, fd);
    if !Ours(s.fds, x) then t == s && a == Code(Forwarded(s.fds, cage in s.cages, x, forwarded))
    else
      var r := WriteOn(s.pipes, s.sockets, s.fds[x], bytes);
      && t == s.(pipes := r.pipes)
      && a == Answer(r.outcome, [], Moved(SinkOf(s.sockets, s.fds[x]), s.fds[x], r.bytes, true))
  }

  /** An answer that is just a code. */
  ghost predicate IsCode(a: Answer) {
    a.Answer? && a.outcome.Done? && a == Code(a.outcome.code)
  }

  ghost predicate IsPair(a: Answer) {
    a.Answer? && |a.fds| == 2 && a == Answer(Done(0), a.fds, Nothing)
  }

  ghost predicate EffectFd(op: FdOp, s: State, t: State, a: Answer) {
    match op
    case MakePipeCall(cage, flags) =>
      IsPair(a) && MakePipeEffect(s, Base(s, cage), t, cage, flags, a.fds[0], a.fds[1])
    case OpenCall(cage, cloexec, flags, forwarded) =>
      IsCode(a) && OpenEffect(s, Base(s, cage), t, cage, cloexec, flags, forwarded, a.outcome.code)
    case DupCall(cage, fd, from, cloexec, forwarded) =>
      IsCode(a) && DupEffect(s, t, cage, fd, from, cloexec, forwarded, a.outcome.code)
    case Dup2Call(cage, oldfd, newfd, forwarded) =>
      IsCode(a) && Dup2Effect(s, t, cage, oldfd, newfd, forwarded, a.outcome.code)
    case SetStatusCall(cage, fd, arg, forwarded) =>
      IsCode(a) && SetStatusEffect(s, t, cage, fd, arg, forwarded, a.outcome.code)
    case SetCloexecCall(cage, fd, on, forwarded) =>
      IsCode(a) && SetCloexecEffect(s, t, cage, fd, on, forwarded, a.outcome.code)
    case CloseCall(cage, fd, forwarded) =>
      IsCode(a) && CloseEffect(s, t, cage, fd, forwarded, a.outcome.code)
    case ReadCall(cage, fd, want, forwarded) => ReadEffect(s, t, cage, fd, want, forwarded, a)
    case WriteCall(cage, fd, bytes, forwarded) => WriteEffect(s, t, cage, fd, bytes, forwarded, a)
  }

  function Moved(r: Option<PipeRef>, e: Entry, bytes: seq<byte>, sending: bool): Deed {
    if r.None? then Nothing else if sending then Sent(e, r.value, bytes) else Received(e, r.value, bytes)
  }

  /** A call of a child that runs while its parent's clone() is in flight: what it misses it inherits first. */
  ghost predicate ChildEffect(op: ChildOp, s: State, pending: seq<Snapshot>, child: nat, t: State, a: Answer) {
    match op
    case ChildPipe(flags) =>
      IsPair(a) && MakePipeEffect(s, Ensured(s.fds, s.cages, pending, child), t, child, flags, a.fds[0], a.fds[1])
    case ChildOpen(cloexec, flags, forwarded) =>
      && IsCode(a)
      && OpenEffect(s, Ensured(s.fds, s.cages, pending, child), t, child, cloexec, flags, forwarded, a.outcome.code)
    case ChildDup(fd, from, cloexec, forwarded) =>
      && IsCode(a)
      && DupEffect(LookedState(s, pending, child, fd), t, child, fd, from, cloexec, forwarded, a.outcome.code)
    case ChildDup2(oldfd, newfd, forwarded) =>
      && IsCode(a)
      && Dup2Effect(if oldfd == newfd then s else LookedState(s, pending, child, oldfd), t,
                    child, oldfd, newfd, forwarded, a.outcome.code)
  }

  ghost predicate ChildSteps(states: seq<State>, ops: seq<ChildOp>, answers: seq<Answer>, pending: seq<Snapshot>,
                             child: nat)
  {
    && |states| == |ops| + 1 && |answers| == |ops|
    && forall i :: 0 <= i < |ops| ==> ChildEffect(ops[i], states[i], pending, child, states[i + 1], answers[i])
  }

  /**
   clone() with a child that runs before it returns: the inherited references are counted, the
   child's calls have their effects one by one, and the return adds to the child's table only
   what it lacks, which is nothing once the child has been seen.
   */
  ghost predicate EarlyChild(s: State, t: State, states: seq<State>, parent: nat, child: nat, ops: seq<ChildOp>,
                             answers: seq<Answer>)
  {
    var table := TableOf(s.fds, parent);
    && ChildSteps(states, ops, answers, [Snapshot(parent, table)], child)
    && states[0] == s.(pipes := states[0].pipes) && Recounted(s.pipes, states[0].pipes)
    && var last := states[|ops|];
       && t == last.(cages := s.cages + {child}, fds := Merged(last.fds, child, table))
       && (child in last.cages ==> t.fds == last.fds)
  }

  lemma ChildStepsNone(s: State, pending: seq<Snapshot>, child: nat)
    ensures ChildSteps([s], [], [], pending, child)
  {
  }

  lemma ChildStepsMore(states: seq<State>, ops: seq<ChildOp>, answers: seq<Answer>, pending: seq<Snapshot>, child: nat,
                       op: ChildOp, t: State, a: Answer)
    requires ChildSteps(states, ops, answers, pending, child)
    requires ChildEffect(op, states[|ops|], pending, child, t, a)
    ensures ChildSteps(states + [t], ops + [op], answers + [a], pending, child)
  {
    hide ChildEffect;
  }

  lemma MergedKeeps(fds: map<Slot, Entry>, cage: nat, table: map<nat, Entry>, x: Slot)
    requires x in fds
    ensures x in Merged(fds, cage, table) && Merged(fds, cage, table)[x] == fds[x]
  {
  }

  lemma FreeIsOther(fds: map<Slot, Entry>, cage: nat, from: nat, r: int, k: nat)
    requires LowestFree(fds, cage, from, r) && Live(cage, k) in fds
    ensures r != k
  {
  }

  // What a child's call does to its view of the parent's table

  lemma OpenView(fds0: map<Slot, Entry>, s: State, base: map<Slot, Entry>, t: State, parent: nat, child: nat,
                 cloexec: bool, flags: bv32, forwarded: int, r: int, touched: set<nat>)
    requires OpenEffect(s, base, t, child, cloexec, flags, forwarded, r) && forwarded >= 0
    requires ChildView(fds0, base, parent, child, touched)
    ensures r >= 0 && Live(parent, r) !in fds0 && ChildView(fds0, t.fds, parent, child, touched + {r})
    ensures t == s.(cages := s.cages + {child}, fds := t.fds)
  {
    hide ChildView;
    FreeSlot(base, child, 0, r);
    ViewNew(fds0, base, parent, child, touched, r);
    ViewPut(fds0, base, parent, child, touched, r, t.fds[Live(child, r)]);
  }

  lemma OpenRefused(s: State, base: map<Slot, Entry>, t: State, child: nat, cloexec: bool, flags: bv32, forwarded: int,
                    r: int)
    requires OpenEffect(s, base, t, child, cloexec, flags, forwarded, r) && forwarded < 0
    ensures t == s
  {
  }

  lemma DupView(fds0: map<Slot, Entry>, s: State, t: State, parent: nat, child: nat, fd: nat, from: nat, cloexec: bool,
                forwarded: int, r: int, touched: set<nat>)
    requires DupEffect(s, t, child, fd, from, cloexec, forwarded, r) && child in s.cages
    requires ChildView(fds0, s.fds, parent, child, touched)
    ensures t.cages == s.cages && Recounted(s.pipes, t.pipes)
    ensures r >= 0 ==> Live(parent, r) !in fds0
    ensures ChildView(fds0, t.fds, parent, child, if r >= 0 then touched + {r} else touched)
  {
    hide ChildView, Recounted, Merged, Stdio;
    if r >= 0 {
      ViewNew(fds0, s.fds, parent, child, touched, r);
      ViewPut(fds0, s.fds, parent, child, touched, r, t.fds[Live(child, r)]);
    }
  }

  lemma Dup2View(fds0: map<Slot, Entry>, s: State, t: State, parent: nat, child: nat, oldfd: nat, newfd: nat,
                 forwarded: int, r: int, touched: set<nat>)
    requires Dup2Effect(s, t, child, oldfd, newfd, forwarded, r) && oldfd != newfd && child in s.cages
    requires ChildView(fds0, s.fds, parent, child, touched)
    ensures t.cages == s.cages && Recounted(s.pipes, t.pipes)
    ensures ChildView(fds0, t.fds, parent, child, if r >= 0 then touched + {newfd} else touched)
  {
    hide ChildView, Recounted, Merged, Stdio;
    if r >= 0 {
      ViewPut(fds0, s.fds, parent, child, touched, newfd, t.fds[Live(child, newfd)]);
    }
  }

  lemma Dup2Same(s: State, t: State, child: nat, fd: nat, forwarded: int, r: int)
    requires Dup2Effect(s, t, child, fd, fd, forwarded, r)
    ensures t == s
  {
  }

  /** No call of the child but a dup2 onto it changes a descriptor the child has. */
  lemma ChildKeeps(op: ChildOp, s: State, pending: seq<Snapshot>, child: nat, t: State, a: Answer, k: nat)
    requires ChildEffect(op, s, pending, child, t, a) && Live(child, k) in s.fds
    requires op.ChildDup2? ==> op.newfd != k
    ensures Live(child, k) in t.fds && t.fds[Live(child, k)] == s.fds[Live(child, k)]
  {
    hide Merged, LowestFree, Stdio, Recounted, WithPipes, ReadEntry, WriteEntry;
    var x := Live(child, k);
    if pending != [] {
      MergedKeeps(s.fds, child, pending[|pending| - 1].table, x);
    }
    MergedKeeps(s.fds, child, Stdio(3), x);
    match op
    case ChildPipe(flags) =>
      var base := Ensured(s.fds, s.cages, pending, child);
      FreeIsOther(base, child, 0, a.fds[0], k);
      FreeIsOther(base, child, a.fds[0] + 1, a.fds[1], k);
    case ChildOpen(cloexec, flags, forwarded) =>
      if forwarded >= 0 {
        FreeIsOther(Ensured(s.fds, s.cages, pending, child), child, 0, a.outcome.code, k);
      }
    case ChildDup(fd, from, cloexec, forwarded) =>
      var seen := Looked(s.fds, pending, child, fd);
      MergedKeeps(seen, child, Stdio(3), x);
      if t.fds != seen {
        var base := if Ours(seen, Live(child, fd)) then seen else KernelBase(seen, child, Live(child, fd));
        FreeIsOther(base, child, from, a.outcome.code, k);
      }
    case ChildDup2(oldfd, newfd, forwarded) =>
      MergedKeeps(Looked(s.fds, pending, child, oldfd), child, Stdio(3), x);
  }

  lemma {:induction false} EntryKept(states: seq<State>, ops: seq<ChildOp>, answers: seq<Answer>,
                                     pending: seq<Snapshot>, child: nat, i: nat, k: nat)
    requires ChildSteps(states, ops, answers, pending, child) && i <= |ops| && Live(child, k) in states[i].fds
    requires forall j :: i <= j < |ops| && ops[j].ChildDup2? ==> ops[j].newfd != k
    ensures Live(child, k) in states[|ops|].fds && states[|ops|].fds[Live(child, k)] == states[i].fds[Live(child, k)]
    decreases |ops| - i
  {
    hide ChildEffect;
    if i < |ops| {
      ChildKeeps(ops[i], states[i], pending, child, states[i + 1], answers[i], k);
      EntryKept(states, ops, answers, pending, child, i + 1, k);
    }
  }

  /**
   Whatever an early child has put at a descriptor is there after its parent's clone() has
   returned, unless the child itself redirected it again.
   */
  lemma ChildEntrySurvives(s: State, t: State, states: seq<State>, parent: nat, child: nat, ops: seq<ChildOp>,
                           answers: seq<Answer>, i: nat, k: nat)
    requires EarlyChild(s, t, states, parent, child, ops, answers) && i <= |ops| && Live(child, k) in states[i].fds
    requires forall j :: i <= j < |ops| && ops[j].ChildDup2? ==> ops[j].newfd != k
    ensures Live(child, k) in t.fds && t.fds[Live(child, k)] == states[i].fds[Live(child, k)]
  {
    hide ChildEffect, Merged;
    EntryKept(states, ops, answers, [Snapshot(parent, TableOf(s.fds, parent))], child, i, k);
    MergedKeeps(states[|ops|].fds, child, TableOf(s.fds, parent), Live(child, k));
  }

  /** In particular a dup2(): the copy of what the child had at its source is what it ends with. */
  lemma RedirectionSurvives(s: State, t: State, states: seq<State>, parent: nat, child: nat, ops: seq<ChildOp>,
                            answers: seq<Answer>, i: nat)
    requires EarlyChild(s, t, states, parent, child, ops, answers) && i < |ops| && ops[i].ChildDup2?
    requires ops[i].oldfd != ops[i].newfd
    requires forall j :: i < j < |ops| && ops[j].ChildDup2? ==> ops[j].newfd != ops[i].newfd
    ensures var seen := Looked(states[i].fds, [Snapshot(parent, TableOf(s.fds, parent))], child, ops[i].oldfd);
            var x, y := Live(child, ops[i].oldfd), Live(child, ops[i].newfd);
            && IsCode(answers[i])
            && (Ours(seen, x) ==>
                  answers[i] == Code(ops[i].newfd) && y in t.fds && t.fds[y] == seen[x].(cloexec := false))
            && (!Ours(seen, x) && answers[i].outcome.code >= 0 ==>
                  ops[i].forwarded >= 0 && y in t.fds && t.fds[y] == Entry(Kernel, ops[i].forwarded, false, 0))
  {
    hide Looked, TableOf, Merged, Recounted, Ours, Stdio;
    var pending := [Snapshot(parent, TableOf(s.fds, parent))];
    assert ChildEffect(ops[i], states[i], pending, child, states[i + 1], answers[i]);
    if Live(child, ops[i].newfd) in states[i + 1].fds {
      ChildEntrySurvives(s, t, states, parent, child, ops, answers, i + 1, ops[i].newfd);
    }
  }

  /** Nothing of the child is in the tables yet. */
  ghost predicate Unseen(s: State, child: nat) {
    child !in s.cages && forall k :: Live(child, k) !in s.fds
  }

  /** A call either leaves the child unseen, or gives it the whole snapshot but for the descriptor it redirects. */
  lemma FirstSight(op: ChildOp, s: State, snap: Snapshot, child: nat, t: State, a: Answer, k: nat)
    requires ChildEffect(op, s, [snap], child, t, a) && Unseen(s, child) && k in snap.table
    requires op.ChildDup2? ==> op.newfd != k
    ensures t == s || (Live(child, k) in t.fds && t.fds[Live(child, k)] == snap.table[k])
  {
    hide LowestFree, Stdio, Recounted, WithPipes, ReadEntry, WriteEntry, Merged;
    var x, seen := Live(child, k), Merged(s.fds, child, snap.table);
    MergedAt(s.fds, child, snap.table, x);
    match op
    case ChildPipe(flags) =>
      FreeIsOther(seen, child, 0, a.fds[0], k);
      FreeIsOther(seen, child, a.fds[0] + 1, a.fds[1], k);
    case ChildOpen(cloexec, flags, forwarded) =>
      if forwarded >= 0 {
        FreeIsOther(seen, child, 0, a.outcome.code, k);
      }
    case ChildDup(fd, from, cloexec, forwarded) =>
      MergedAt(seen, child, Stdio(3), x);
      if t.fds != seen {
        var base := if Ours(seen, Live(child, fd)) then seen else KernelBase(seen, child, Live(child, fd));
        FreeIsOther(base, child, from, a.outcome.code, k);
      }
    case ChildDup2(oldfd, newfd, forwarded) =>
      MergedAt(seen, child, Stdio(3), x);
  }

  /** Until it redirects an inherited descriptor, the child finds there what its parent had. */
  lemma {:induction false} InheritedSeen(states: seq<State>, ops: seq<ChildOp>, answers: seq<Answer>, snap: Snapshot,
                                         child: nat, i: nat, k: nat)
    requires ChildSteps(states, ops, answers, [snap], child) && i <= |ops| && Unseen(states[0], child)
    requires k in snap.table && forall j :: 0 <= j < i && ops[j].ChildDup2? ==> ops[j].newfd != k
    ensures states[i] == states[0]
            || (Live(child, k) in states[i].fds && states[i].fds[Live(child, k)] == snap.table[k])
  {
    hide ChildEffect;
    if i > 0 {
      InheritedSeen(states, ops, answers, snap, child, i - 1, k);
      if states[i - 1] == states[0] {
        FirstSight(ops[i - 1], states[i - 1], snap, child, states[i], answers[i - 1], k);
      } else {
        ChildKeeps(ops[i - 1], states[i - 1], [snap], child, states[i], answers[i - 1], k);
      }
    }
  }

  /**
   An early child's dup2() of a descriptor of ours that it inherited: the child ends with a copy
   of what its parent has there.
   */
  lemma InheritedRedirection(s: State, t: State, states: seq<State>, parent: nat, child: nat, ops: seq<ChildOp>,
                             answers: seq<Answer>, i: nat)
    requires EarlyChild(s, t, states, parent, child, ops, answers) && Unseen(s, child) && i < |ops|
    requires ops[i].ChildDup2? && ops[i].oldfd != ops[i].newfd && Ours(s.fds, Live(parent, ops[i].oldfd))
    requires forall j :: 0 <= j < i && ops[j].ChildDup2? ==> ops[j].newfd != ops[i].oldfd
    requires forall j :: i < j < |ops| && ops[j].ChildDup2? ==> ops[j].newfd != ops[i].newfd
    ensures answers[i] == Code(ops[i].newfd)
    ensures var y := Live(child, ops[i].newfd);
            y in t.fds && t.fds[y] == s.fds[Live(parent, ops[i].oldfd)].(cloexec := false)
  {
    hide TableOf, Merged, Recounted, ChildEffect;
    var snap, k := Snapshot(parent, TableOf(s.fds, parent)), ops[i].oldfd;
    TableOfAt(s.fds, parent, k);
    InheritedSeen(states, ops, answers, snap, child, i, k);
    if states[i] == states[0] {
      MergedAt(s.fds, child, snap.table, Live(child, k));
    }
    RedirectionSurvives(s, t, states, parent, child, ops, answers, i);
  }

  ghost predicate EffectCage(op: CageOp, s: State, t: State, a: Answer) {
    match op
    case CloneCall(parent, child) =>
      if !(parent in s.cages && child !in s.cages) then t == s && a == Skipped
      else
        && t == s.(cages := s.cages + {child}, fds := Merged(s.fds, child, TableOf(s.fds, parent)), pipes := t.pipes)
        && Recounted(s.pipes, t.pipes) && a == Code(child)
    case EarlyChildCall(parent, child, childOps, vfork) =>
      if !(parent in s.cages && child !in s.cages) then t == s && a == Skipped
      else
        && t == s.(cages := s.cages + {child}, fds := t.fds, pipes := t.pipes, nextPipe := t.nextPipe)
        && Grown(s.pipes, t.pipes) && ChildView(s.fds, t.fds, parent, child, Targets(childOps))
        && a.Answer? && a.deed.ChildRan? && a == Answer(Done(child), [], ChildRan(a.deed.answers))
        && exists states :: EarlyChild(s, t, states, parent, child, childOps, a.deed.answers)
    case FailedCloneCall(parent, error) =>
      t == s && a == if parent in s.cages then Code(error) else Skipped
    case ExecCall(cage, forwarded) =>
      && t == s.(fds := t.fds, pipes := t.pipes) && Recounted(s.pipes, t.pipes) && a == Code(forwarded)
      && t.fds == if cage in s.cages then Merged(s.fds - CloexecOf(s.fds, cage), cage, Stdio(3)) else s.fds
    case ExitCall(cage, forwarded) =>
      && t == s.(cages := s.cages - {cage}, fds := s.fds - SlotsOf(s.fds, cage), pipes := t.pipes)
      && Recounted(s.pipes, t.pipes) && a == Code(forwarded)
  }

  /** The socket a descriptor of ours names. */
  predicate NamesSocket(s: State, x: Slot) {
    x in s.fds && s.fds[x].kind.SocketFd? && s.fds[x].underfd in s.sockets
  }

  /** One descriptor names the socket, and it has no pipes yet. */
  ghost predicate Sole(s: State, x: Slot)
    requires NamesSocket(s, x)
  {
    s.sockets[s.fds[x].underfd].send.None? && |Users(s.fds, map[], s.fds[x].underfd)| == 1
  }

  ghost predicate ConnectEffect(s: State, t: State, a: Answer, cage: nat, fd: nat, target: string, forwarded: int) {
    var x := Live(cage, fd);
    if !NamesSocket(s, x) then t == s && a == Code(Forwarded(s.fds, cage in s.cages, x, forwarded))
    else if target !in s.boundPaths then t == s && a == Code(ECONNREFUSED)
    else if !Sole(s, x) then t == s && a == Skipped
    else
      && t == s.(pipes := WithPipes(s.pipes, ConnPair(s.nextConn), UDSOCK_CAPACITY), nextConn := s.nextConn + 2,
                 sockets := t.sockets, queues := t.queues)
      && Connecting(s.sockets, s.queues, s.fds[x].underfd, s.nextConn, target, t.sockets, t.queues)
      && a == Answer(Done(0), [], Connects(target, s.nextConn))
  }

  /** accept() through the runtime: its new descriptor gets a place here. */
  ghost predicate AcceptForwarded(seen: map<Slot, Entry>, known: bool, cage: nat, fd: nat, forwarded: int, o: Outcome,
                                  fds: map<Slot, Entry>) {
    var s := Live(cage, fd);
    if s !in seen && known then o == Done(EBADF) && fds == seen
    else if forwarded < 0 then o == Done(forwarded) && fds == seen
    else
      && o.Done? && LowestFree(KernelBase(seen, cage, s), cage, 0, o.code)
      && fds == KernelBase(seen, cage, s)[Live(cage, o.code) := Entry(Kernel, forwarded, false, 0)]
  }

  ghost predicate AcceptEffect(s: State, t: State, a: Answer, cage: nat, fd: nat, kind: bv32, interrupted: bool,
                               forwarded: int)
  {
    var x := Live(cage, fd);
    if !Ours(s.fds, x) then
      && t == s.(cages := t.cages, fds := t.fds) && a.Answer? && a == Answer(a.outcome, [], Nothing)
      && t.cages == (if forwarded < 0 || cage in s.cages then s.cages else s.cages + {cage})
      && AcceptForwarded(s.fds, cage in s.cages, cage, fd, forwarded, a.outcome, t.fds)
    else if s.fds[x].kind.PipeFd? then t == s && a == Code(ENOTSOCK)
    else
      && NamesSocket(s, x)
      && var local := s.sockets[s.fds[x].underfd].local;
         if local.None? then t == s && a == Code(EINVAL)
         else if At(s.queues, local.value) == [] then
           && t == s
           && a == Answer(if s.fds[x].flags & O_NONBLOCK != 0 then Done(EAGAIN)
                          else if interrupted then Done(EINTR) else Waiting,
                          [], Nothing)
         else
           && a.Answer? && a.outcome.Done? && LowestFree(s.fds, cage, 0, a.outcome.code)
           && TookHead(s.fds, s.sockets, s.queues, Live(cage, a.outcome.code), s.nextSocket, local.value, kind,
                       t.fds, t.sockets, t.queues)
           && t == s.(fds := t.fds, sockets := t.sockets, queues := t.queues, nextSocket := s.nextSocket + 1)
           && a == Answer(a.outcome, [], Accepts(local.value, IdOf(s.queues[local.value][0].toListener)))
  }

  ghost predicate MakeSocketEffect(s: State, base: map<Slot, Entry>, t: State, cage: nat, kind: bv32, fd: int) {
    && t == s.(cages := s.cages + {cage}, fds := t.fds, nextSocket := s.nextSocket + 1,
               sockets := s.sockets[s.nextSocket := Socket(NotConnected, None, None, None, None)])
    && LowestFree(base, cage, 0, fd) && t.fds == base[Live(cage, fd) := SocketEntry(s.nextSocket, kind)]
  }

  /** Two sockets over two new pipes, each sending what the other receives. */
  ghost predicate SocketPairEffect(s: State, base: map<Slot, Entry>, t: State, cage: nat, kind: bv32, fd1: nat,
                                   fd2: nat)
  {
    var i, j, n := s.nextSocket, s.nextSocket + 1, s.nextConn;
    && t == s.(cages := s.cages + {cage}, fds := t.fds, nextSocket := i + 2, nextConn := n + 2,
               pipes := WithPipes(s.pipes, ConnPair(n), UDSOCK_CAPACITY),
               sockets := s.sockets[i := Socket(ConnState.Connected, None, None, Some(Conn(n)), Some(Conn(n + 1)))]
                                   [j := Socket(ConnState.Connected, None, None, Some(Conn(n + 1)), Some(Conn(n)))])
    && LowestFree(base, cage, 0, fd1) && LowestFree(base, cage, fd1 + 1, fd2)
    && t.fds == base[Live(cage, fd1) := SocketEntry(i, kind)][Live(cage, fd2) := SocketEntry(j, kind)]
  }

  lemma SocketPairIntro(s: State, base: map<Slot, Entry>, t: State, cage: nat, kind: bv32, fd1: nat, fd2: nat)
    requires var i, j, n := s.nextSocket, s.nextSocket + 1, s.nextConn;
             && t == s.(cages := s.cages + {cage}, fds := t.fds, nextSocket := i + 2, nextConn := n + 2,
                        pipes := WithPipes(s.pipes, ConnPair(n), UDSOCK_CAPACITY),
                        sockets := s.sockets[i := Plugged(FreshSocket, n, n + 1, None)]
                                            [j := Plugged(FreshSocket, n + 1, n, None)])
             && t.fds == base[Live(cage, fd1) := SocketEntry(i, kind)][Live(cage, fd2) := SocketEntry(j, kind)]
    requires LowestFree(base, cage, 0, fd1) && LowestFree(base, cage, fd1 + 1, fd2)
    ensures SocketPairEffect(s, base, t, cage, kind, fd1, fd2)
  {
    hide LowestFree, WithPipes, ConnPair, SocketEntry;
  }

  ghost predicate BindEffect(s: State, t: State, cage: nat, fd: nat, addr: string, forwarded: int, r: int) {
    var x := Live(cage, fd);
    if !NamesSocket(s, x) then t == s && r == Forwarded(s.fds, cage in s.cages, x, forwarded)
    else
      var id := s.fds[x].underfd;
      && t == s.(sockets := s.sockets[id := s.sockets[id].(local := Some(addr))],
                 boundPaths := s.boundPaths[addr := id])
      && r == 0
  }

  ghost predicate ListenEffect(s: State, t: State, cage: nat, fd: nat, forwarded: int, r: int) {
    var x := Live(cage, fd);
    if !Ours(s.fds, x) then t == s && r == Forwarded(s.fds, cage in s.cages, x, forwarded)
    else if s.fds[x].kind.PipeFd? then t == s && r == ENOTSOCK
    else
      && NamesSocket(s, x)
      && var id := s.fds[x].underfd;
         t == s.(sockets := s.sockets[id := s.sockets[id].(state := Listening)]) && r == 0
  }

  ghost predicate EffectSocket(op: SocketOp, s: State, t: State, a: Answer) {
    match op
    case MakeSocketCall(cage, kind) =>
      IsCode(a) && MakeSocketEffect(s, Base(s, cage), t, cage, kind, a.outcome.code)
    case SocketPairCall(cage, kind) =>
      IsPair(a) && SocketPairEffect(s, Base(s, cage), t, cage, kind, a.fds[0], a.fds[1])
    case BindCall(cage, fd, addr, forwarded) =>
      IsCode(a) && BindEffect(s, t, cage, fd, addr, forwarded, a.outcome.code)
    case ListenCall(cage, fd, forwarded) =>
      IsCode(a) && ListenEffect(s, t, cage, fd, forwarded, a.outcome.code)
    case ConnectCall(cage, fd, target, forwarded) => ConnectEffect(s, t, a, cage, fd, target, forwarded)
    case AcceptCall(cage, fd, kind, interrupted, forwarded) =>
      AcceptEffect(s, t, a, cage, fd, kind, interrupted, forwarded)
  }

  ghost predicate Effect(op: Op, s: State, t: State, a: Answer) {
    match op
    case OnFd(o) => EffectFd(o, s, t, a)
    case OnCage(o) => EffectCage(o, s, t, a)
    case OnSocket(o) => EffectSocket(o, s, t, a)
  }

  /** The descriptors open on one end of a pipe made by pipe(), in all tables. */
  ghost function OpenEnds(fds: map<Slot, Entry>, id: nat, writing: bool): set<Slot> {
    set x | x in fds && fds[x].kind.PipeFd? && fds[x].underfd == id && IsReadEnd(fds[x].flags) == !writing
  }

  /** The counts are the numbers of open descriptors, and EOF means no write end is open. */
  ghost predicate CountsExact(fds: map<Slot, Entry>, p: Pipe, id: nat) {
    && p.writeRefs == |OpenEnds(fds, id, true)| && p.readRefs == |OpenEnds(fds, id, false)|
    && (p.eof <==> OpenEnds(fds, id, true) == {})
  }

  /** The descriptors of the socket that sends on a connection pipe, or receives on it, in all tables. */
  ghost function PeerFds(fds: map<Slot, Entry>, sockets: map<nat, Socket>, r: PipeRef, writing: bool): set<Slot> {
    set x | x in fds && fds[x].kind.SocketFd? && fds[x].underfd in sockets
            && (if writing then sockets[fds[x].underfd].send else sockets[fds[x].underfd].recv) == Some(r)
  }

  /** A waiting connection keeps the end that its acceptor will have. */
  ghost predicate Awaited(queues: map<string, seq<Pending>>, r: PipeRef, writing: bool) {
    exists a, i :: a in queues && 0 <= i < |queues[a]|
                   && (if writing then queues[a][i].toConnector else queues[a][i].toListener) == r
  }

  ghost function PeerCount(s: State, r: PipeRef, writing: bool): nat {
    |PeerFds(s.fds, s.sockets, r, writing)| + if Awaited(s.queues, r, writing) then 1 else 0
  }

  /**
   The counts of a pipe are what the tables and the queues show: of one made by pipe() the
   descriptors open on each end, of one made for a connection the descriptors of the socket at
   each end, and one more for an acceptor still to come.
   */
  ghost predicate Exact(s: State, r: PipeRef)
    requires r in s.pipes
  {
    var p := s.pipes[r];
    match r
    case Plain(id) => CountsExact(s.fds, p, id)
    case Conn(_) =>
      && p.writeRefs == PeerCount(s, r, true) && p.readRefs == PeerCount(s, r, false)
      && (p.eof <==> PeerCount(s, r, true) == 0)
  }

  /** What the counts of a pipe are depends on the tables, the sockets, the queues and the pipe alone. */
  lemma ExactSame(s: State, t: State, r: PipeRef)
    requires r in s.pipes && r in t.pipes && s.pipes[r] == t.pipes[r]
    requires s.fds == t.fds && s.sockets == t.sockets && s.queues == t.queues
    ensures Exact(s, r) <==> Exact(t, r)
  {
  }

  /** What holds in every state between calls. */
  ghost predicate Sound(s: State) {
    && (forall r :: r in s.pipes ==> Exact(s, r)) && PipesOk(s.pipes)
    && TablesOk(s.fds, s.cages, s.pipes.Keys, s.sockets.Keys)
    && NumbersOk(s.pipes.Keys, s.sockets.Keys, s.nextPipe, s.nextConn, s.nextSocket)
    && SocketsOk(s.sockets, s.pipes.Keys) && WiredOk(s.sockets) && OrderOk(s.queues, s.nextConn)
  }

  lemma PlainHolders(held: Holding, fds: map<Slot, Entry>, sockets: map<nat, Socket>, line: map<nat, string>,
                     refs: set<PipeRef>, id: nat)
    requires OwnersOk(held, fds, sockets, map[], line) && SocketsOk(sockets, refs)
    requires forall x :: x in fds ==> x.Live?
    ensures Holders(held, WriteEnd(Plain(id))) == OpenEnds(fds, id, true)
    ensures Holders(held, ReadEnd(Plain(id))) == OpenEnds(fds, id, false)
  {
    forall x
      ensures x in Holders(held, WriteEnd(Plain(id))) <==> x in OpenEnds(fds, id, true)
      ensures x in Holders(held, ReadEnd(Plain(id))) <==> x in OpenEnds(fds, id, false)
    {
      assert SlotOk(x, held, fds, sockets, map[], line);
    }
  }

  /** The owners of an end of a connection pipe: its socket's descriptors, and a waiting connection. */
  lemma ConnHolders(held: Holding, fds: map<Slot, Entry>, sockets: map<nat, Socket>, line: map<nat, string>, m: nat)
    requires OwnersOk(held, fds, sockets, map[], line) && forall x :: x in fds ==> x.Live?
    ensures Holders(held, ReadEnd(Conn(m)))
         == PeerFds(fds, sockets, Conn(m), false) + if m in line then {Queued(m)} else {}
    ensures Holders(held, WriteEnd(Conn(m)))
         == PeerFds(fds, sockets, Conn(m), true) + if m > 0 && m - 1 in line then {Queued(m - 1)} else {}
  {
    forall x
      ensures x in Holders(held, ReadEnd(Conn(m))) <==>
                x in PeerFds(fds, sockets, Conn(m), false) || (m in line && x == Queued(m))
      ensures x in Holders(held, WriteEnd(Conn(m))) <==>
                x in PeerFds(fds, sockets, Conn(m), true) || (m > 0 && m - 1 in line && x == Queued(m - 1))
    {
      assert SlotOk(x, held, fds, sockets, map[], line);
    }
  }

  lemma InLineAwaited(queues: map<string, seq<Pending>>, line: map<nat, string>, n: nat)
    requires QueuesOk(queues, line) && n in line
    ensures Awaited(queues, Conn(n), false) && Awaited(queues, Conn(n + 1), true)
  {
    var a := line[n];
    assert n in Ids(queues[a]);
    var i :| 0 <= i < |queues[a]| && Ids(queues[a])[i] == n;
    assert WaitsAt(queues[a][i], line, a);
  }

  lemma AwaitedInLine(queues: map<string, seq<Pending>>, line: map<nat, string>, m: nat)
    requires QueuesOk(queues, line)
    ensures Awaited(queues, Conn(m), false) <==> m in line
    ensures Awaited(queues, Conn(m), true) <==> m > 0 && m - 1 in line
  {
    hide Ids;
    if m in line {
      InLineAwaited(queues, line, m);
    }
    if m > 0 && m - 1 in line {
      InLineAwaited(queues, line, m - 1);
    }
  }

  lemma OneMore(a: set<Slot>, x: Slot, on: bool)
    requires x !in a
    ensures |a + if on then {x} else {}| == |a| + if on then 1 else 0
  {
    if !on {
      assert a + {} == a;
    }
  }

  lemma ConnCounts(s: State, held: Holding, line: map<nat, string>, m: nat)
    requires OwnersOk(held, s.fds, s.sockets, map[], line) && QueuesOk(s.queues, line)
    requires forall x :: x in s.fds ==> x.Live?
    ensures |Holders(held, ReadEnd(Conn(m)))| == PeerCount(s, Conn(m), false)
    ensures |Holders(held, WriteEnd(Conn(m)))| == PeerCount(s, Conn(m), true)
  {
    hide OwnersOk, QueuesOk, Holders, Awaited;
    ConnHolders(held, s.fds, s.sockets, line, m);
    AwaitedInLine(s.queues, line, m);
    OneMore(PeerFds(s.fds, s.sockets, Conn(m), false), Queued(m), m in line);
    if m > 0 {
      OneMore(PeerFds(s.fds, s.sockets, Conn(m), true), Queued(m - 1), m - 1 in line);
    }
  }

  /** With no clone in flight, a pipe's counts agree with the owners exactly when the tables and queues show them. */
  lemma AgreeIsExact(s: State, held: Holding, line: map<nat, string>, r: PipeRef)
    requires r in s.pipes && OwnersOk(held, s.fds, s.sockets, map[], line) && QueuesOk(s.queues, line)
    requires SocketsOk(s.sockets, s.pipes.Keys) && forall x :: x in s.fds ==> x.Live?
    ensures AgreeOn(held, r, s.pipes[r]) <==> Exact(s, r)
  {
    hide OwnersOk, QueuesOk, SocketsOk, Holders, OpenEnds, PeerCount;
    match r
    case Plain(id) => PlainHolders(held, s.fds, s.sockets, line, s.pipes.Keys, id);
    case Conn(m) => ConnCounts(s, held, line, m);
  }

  /** A run through sound states: each call has its effect on the state the one before it left. */
  ghost predicate Steps(states: seq<State>, ops: seq<Op>, answers: seq<Answer>) {
    && |states| == |ops| + 1 && |answers| == |ops|
    && (forall i :: 0 <= i < |states| ==> Sound(states[i]))
    && forall i :: 0 <= i < |ops| ==> Effect(ops[i], states[i], states[i + 1], answers[i])
  }

  lemma StepsNone(s: State)
    requires Sound(s)
    ensures Steps([s], [], [])
  {
    hide Sound;
  }

  lemma StepsPrefix(states: seq<State>, ops: seq<Op>, answers: seq<Answer>)
    requires Steps(states, ops, answers) && ops != []
    ensures Steps(states[..|ops|], ops[..|ops| - 1], answers[..|ops| - 1])
    ensures var k := |ops| - 1; Effect(ops[k], states[k], states[k + 1], answers[k])
  {
    hide Effect, Sound;
  }

  lemma StepsMore(states: seq<State>, ops: seq<Op>, answers: seq<Answer>, op: Op, t: State, a: Answer)
    requires Steps(states, ops, answers) && Sound(t) && Effect(op, states[|ops|], t, a)
    ensures Steps(states + [t], ops + [op], answers + [a])
  {
    hide Effect, Sound;
  }

  // ------------------------------------------------------------------
  // Calls in terms of rings, bits and entries alone
  // ------------------------------------------------------------------

  /** One lap of read() on a ring. */
  ghost predicate ReadPlain(p: Pipe, want: nat, nonblocking: bool, o: Outcome, out: seq<byte>, q: Pipe) {
    if want == 0 then o == Done(0) && out == [] && q == p
    else if p.data == [] then
      out == [] && q == p && o == if p.eof then Done(0) else if nonblocking then Done(EAGAIN) else Waiting
    else
      var n := if want < |p.data| then want else |p.data|;
      o == Done(n) && out == p.data[..n] && q == p.(data := p.data[n..])
  }

  /** One lap of write() on a ring. */
  ghost predicate WritePlain(p: Pipe, bytes: seq<byte>, nonblocking: bool, o: Outcome, taken: seq<byte>, q: Pipe) {
    if bytes == [] then o == Done(0) && taken == [] && q == p
    else if p.readRefs == 0 then o == Done(EPIPE) && taken == [] && q == p
    else
      && (if |bytes| <= p.cap - |p.data| then taken == bytes
          else taken <= bytes && |p.data| + |taken| == p.cap)
      && q == p.(data := p.data + taken)
      && o == if taken == bytes then Done(|bytes|) else if !nonblocking then Waiting
              else if taken == [] then Done(EAGAIN) else Done(|taken|)
  }

  lemma ReadIsPlain(p: Pipe, want: nat, nonblocking: bool)
    requires Fits(p)
    ensures var r := ReadToCage(p, want, nonblocking, []);
            ReadPlain(p, want, nonblocking, r.outcome, r.delivered, r.pipe)
  {
    assert p.data + [] == p.data && p.data[0..] == p.data;
  }

  lemma WriteIsPlain(p: Pipe, bytes: seq<byte>, nonblocking: bool)
    requires Fits(p) && bytes != []
    ensures var r := Write(p, bytes, nonblocking, []);
            WritePlain(p, bytes, nonblocking, r.outcome, bytes[..r.sent], r.pipe)
  {
    WriteStep(p, bytes, nonblocking);
    if p.readRefs > 0 {
      NonblockingWrite(p, bytes, []);
      WriteEnds(p, bytes, []);
      WriteMeaning(p, bytes, nonblocking, []);
    }
    assert bytes[..|bytes|] == bytes && p.data + [] == p.data;
  }

  /** A read through entry `e` took from pipe `r` and from no other. */
  ghost predicate TookFrom(s: State, t: State, a: Answer, e: Entry, r: PipeRef, want: nat) {
    && a.Answer? && a.deed.Received? && a == Answer(a.outcome, [], Received(e, r, a.deed.bytes))
    && r in s.pipes && r in t.pipes && t == s.(pipes := s.pipes[r := t.pipes[r]])
    && ReadPlain(s.pipes[r], want, e.flags & 0x800 != 0, a.outcome, a.deed.bytes, t.pipes[r])
  }

  /** A write through entry `e` went to pipe `r` and to no other; nothing moves for an empty one. */
  ghost predicate WentTo(s: State, t: State, a: Answer, e: Entry, r: PipeRef, bytes: seq<byte>) {
    && a.Answer? && a.deed.Sent? && a == Answer(a.outcome, [], Sent(e, r, a.deed.bytes))
    && r in s.pipes && r in t.pipes && t == s.(pipes := s.pipes[r := t.pipes[r]])
    && WritePlain(s.pipes[r], bytes, e.flags & 0x800 != 0, a.outcome, a.deed.bytes, t.pipes[r])
  }

  /** read(): which pipe for which entry, and what happens where there is none. */
  ghost predicate ReadMeans(s: State, t: State, a: Answer, cage: nat, fd: nat, want: nat, forwarded: int) {
    var x := Live(cage, fd);
    if x !in s.fds then t == s && a == Code(if cage in s.cages then -9 else forwarded)
    else
      var e := s.fds[x];
      match e.kind
      case Kernel => t == s && a == Code(forwarded)
      case PipeFd =>
        if e.flags & 3 == 0 then TookFrom(s, t, a, e, Plain(e.underfd), want) else t == s && a == Code(-9)
      case SocketFd =>
        && e.underfd in s.sockets
        && var recv := s.sockets[e.underfd].recv;
           if recv.Some? then TookFrom(s, t, a, e, recv.value, want) else t == s && a == Code(-9)
  }

  ghost predicate WriteMeans(s: State, t: State, a: Answer, cage: nat, fd: nat, bytes: seq<byte>, forwarded: int) {
    var x := Live(cage, fd);
    if x !in s.fds then t == s && a == Code(if cage in s.cages then -9 else forwarded)
    else
      var e := s.fds[x];
      match e.kind
      case Kernel => t == s && a == Code(forwarded)
      case PipeFd =>
        if e.flags & 3 == 1 then WentTo(s, t, a, e, Plain(e.underfd), bytes) else t == s && a == Code(-9)
      case SocketFd =>
        && e.underfd in s.sockets
        && var send := s.sockets[e.underfd].send;
           if send.Some? then WentTo(s, t, a, e, send.value, bytes) else t == s && a == Code(-9)
  }

  lemma SamePipe(pipes: map<PipeRef, Pipe>, r: PipeRef)
    requires r in pipes
    ensures pipes[r := pipes[r]] == pipes
  {
  }

  lemma ReadCallMeans(s: State, t: State, a: Answer, cage: nat, fd: nat, want: nat, forwarded: int)
    requires Sound(s) && EffectFd(FdOp.ReadCall(cage, fd, want, forwarded), s, t, a)
    ensures ReadMeans(s, t, a, cage, fd, want, forwarded)
  {
    hide Exact, WiredOk, OrderOk, NumbersOk, ReadToCage, ReadPlain;
    var x := Live(cage, fd);
    if Ours(s.fds, x) {
      var src := SourceOf(s.sockets, s.fds[x]);
      if src.Some? && src.value in s.pipes {
        ReadIsPlain(s.pipes[src.value], want, s.fds[x].flags & O_NONBLOCK != 0);
      }
    }
  }

  lemma WriteCallMeans(s: State, t: State, a: Answer, cage: nat, fd: nat, bytes: seq<byte>, forwarded: int)
    requires Sound(s) && EffectFd(FdOp.WriteCall(cage, fd, bytes, forwarded), s, t, a)
    ensures WriteMeans(s, t, a, cage, fd, bytes, forwarded)
  {
    hide Exact, WiredOk, OrderOk, NumbersOk, Write;
    var x := Live(cage, fd);
    if Ours(s.fds, x) {
      var dst := SinkOf(s.sockets, s.fds[x]);
      if dst.Some? && dst.value in s.pipes {
        SamePipe(s.pipes, dst.value);
        if bytes != [] {
          hide WritePlain;
          WriteIsPlain(s.pipes[dst.value], bytes, s.fds[x].flags & O_NONBLOCK != 0);
        }
      }
    }
  }

  /** clone(), exec() and exit(), entry by entry. */
  lemma CageCallMeans(op: CageOp, s: State, t: State, a: Answer)
    requires Sound(s) && EffectCage(op, s, t, a)
    ensures op.CloneCall? && a != Skipped ==> CloneView(s.fds, t.fds, op.parent, op.child)
    ensures op.ExecCall? ==> if op.cage in s.cages then ExecView(s.fds, t.fds, op.cage) else t.fds == s.fds
    ensures op.ExitCall? ==> ExitView(s.fds, t.fds, op.cage)
  {
    hide Exact, WiredOk, OrderOk, NumbersOk, Merged, TableOf, Recounted, Grown, EarlyChild, ChildView, Targets;
    hide CloneView, ExecView, ExitView, CloexecOf, SlotsOf, Stdio;
    match op
    case CloneCall(parent, child) =>
      if a != Skipped {
        assert forall k :: Live(child, k) !in s.fds;
        CloneViews(s.fds, parent, child);
      }
    case ExecCall(cage, _) => ExecViews(s.fds, cage);
    case ExitCall(cage, _) => ExitViews(s.fds, cage);
    case _ =>
  }

  // ------------------------------------------------------------------
  // Bytes over a run
  // ------------------------------------------------------------------

  function Ring(s: State, r: PipeRef): seq<byte> {
    if r in s.pipes then s.pipes[r].data else []
  }

  function Took(d: Deed, r: PipeRef): seq<byte> {
    if d.Received? && d.pipe == r then d.bytes else []
  }

  function Gave(d: Deed, r: PipeRef): seq<byte> {
    if d.Sent? && d.pipe == r then d.bytes else []
  }

  /** Everything read from a pipe during a run, through any descriptor of any cage. */
  function TookAll(answers: seq<Answer>, r: PipeRef): seq<byte> {
    if answers == [] then []
    else TookAll(answers[..|answers| - 1], r) + Took(DeedOf(answers[|answers| - 1]), r)
  }

  /** Everything a pipe accepted during a run. */
  function GaveAll(answers: seq<Answer>, r: PipeRef): seq<byte> {
    if answers == [] then []
    else GaveAll(answers[..|answers| - 1], r) + Gave(DeedOf(answers[|answers| - 1]), r)
  }

  ghost predicate RingMoves(s: State, t: State, a: Answer, r: PipeRef) {
    Took(DeedOf(a), r) + Ring(t, r) == Ring(s, r) + Gave(DeedOf(a), r)
  }

  lemma ReadMoves(pipes: map<PipeRef, Pipe>, sockets: map<nat, Socket>, e: Entry, want: nat, src: PipeRef)
    requires SourceOf(sockets, e) == Some(src)
    ensures var x := ReadOn(pipes, sockets, e, want);
            && x.pipes.Keys == pipes.Keys && (forall r :: r in pipes && r != src ==> x.pipes[r] == pipes[r])
            && (src in pipes ==> x.bytes + x.pipes[src].data == pipes[src].data)
            && (src !in pipes ==> x.bytes == [])
  {
    hide ReadToCage, SourceOf;
    if Usable(Some(src), pipes) {
      ReadStep(pipes[src], want, e.flags & O_NONBLOCK != 0);
    }
  }

  lemma WriteMoves(pipes: map<PipeRef, Pipe>, sockets: map<nat, Socket>, e: Entry, bytes: seq<byte>, dst: PipeRef)
    requires SinkOf(sockets, e) == Some(dst)
    ensures var x := WriteOn(pipes, sockets, e, bytes);
            && x.pipes.Keys == pipes.Keys && (forall r :: r in pipes && r != dst ==> x.pipes[r] == pipes[r])
            && (dst in pipes ==> x.pipes[dst].data == pipes[dst].data + x.bytes)
            && (dst !in pipes ==> x.bytes == [])
  {
    hide Write, SinkOf;
    if Usable(Some(dst), pipes) {
      WriteStep(pipes[dst], bytes, e.flags & O_NONBLOCK != 0);
    }
  }

  lemma NoPipe(pipes: map<PipeRef, Pipe>, sockets: map<nat, Socket>, e: Entry, want: nat, bytes: seq<byte>)
    ensures SourceOf(sockets, e).None? ==> ReadOn(pipes, sockets, e, want).pipes == pipes
    ensures SinkOf(sockets, e).None? ==> WriteOn(pipes, sockets, e, bytes).pipes == pipes
  {
  }

  lemma FdMoves(op: FdOp, s: State, t: State, a: Answer, r: PipeRef)
    requires Sound(s) && EffectFd(op, s, t, a)
    ensures RingMoves(s, t, a, r)
  {
    hide ReadOn, WriteOn, SourceOf, SinkOf, OpenTable, DupTable, Dup2Table, LowestFree, Base, Forwarded;
    hide Exact, SocketsOk, WiredOk, OrderOk, TablesOk, PipesOk, ReadEntry, WriteEntry, SetStatusFlags;
    assert [] + Ring(s, r) == Ring(s, r) + [];
    match op
    case ReadCall(cage, fd, want, _) =>
      if Ours(s.fds, Live(cage, fd)) {
        var e := s.fds[Live(cage, fd)];
        NoPipe(s.pipes, s.sockets, e, want, []);
        if SourceOf(s.sockets, e).Some? {
          ReadMoves(s.pipes, s.sockets, e, want, SourceOf(s.sockets, e).value);
        }
      }
    case WriteCall(cage, fd, bytes, _) =>
      if Ours(s.fds, Live(cage, fd)) {
        var e := s.fds[Live(cage, fd)];
        NoPipe(s.pipes, s.sockets, e, 0, bytes);
        if SinkOf(s.sockets, e).Some? {
          WriteMoves(s.pipes, s.sockets, e, bytes, SinkOf(s.sockets, e).value);
        }
      }
    case _ =>
  }

  lemma GrownMoves(s: State, t: State, a: Answer, r: PipeRef)
    requires Grown(s.pipes, t.pipes) && !DeedOf(a).Sent? && !DeedOf(a).Received?
    ensures RingMoves(s, t, a, r)
  {
    assert [] + Ring(s, r) == Ring(s, r) + [];
  }

  lemma CageGrows(op: CageOp, s: State, t: State, a: Answer)
    requires EffectCage(op, s, t, a)
    ensures Grown(s.pipes, t.pipes) && !DeedOf(a).Sent? && !DeedOf(a).Received?
  {
    hide Recounted, Grown, Merged, TableOf, ChildView, CloexecOf, SlotsOf, Stdio, Targets, EarlyChild;
    RecountedRefl(s.pipes);
    if !op.EarlyChildCall? || t == s {
      RecountedGrown(s.pipes, t.pipes);
    }
  }

  lemma CageMoves(op: CageOp, s: State, t: State, a: Answer, r: PipeRef)
    requires Sound(s) && EffectCage(op, s, t, a)
    ensures RingMoves(s, t, a, r)
  {
    hide *;
    CageGrows(op, s, t, a);
    GrownMoves(s, t, a, r);
  }

  /** A call on sockets leaves every pipe alone, and adds two empty ones or none. */
  lemma SocketPipes(op: SocketOp, s: State, t: State, a: Answer)
    requires EffectSocket(op, s, t, a)
    ensures t.pipes in {s.pipes, WithPipes(s.pipes, ConnPair(s.nextConn), UDSOCK_CAPACITY)}
    ensures !DeedOf(a).Sent? && !DeedOf(a).Received?
  {
    hide LowestFree, Base, Forwarded, SocketEntry, Users, At, Connecting, TookHead, AcceptForwarded, Plugged;
    hide WithPipes, ConnPair, Sole;
  }

  lemma NewRings(s: State, t: State, r: PipeRef)
    requires Sound(s) && t.pipes in {s.pipes, WithPipes(s.pipes, ConnPair(s.nextConn), UDSOCK_CAPACITY)}
    ensures Ring(t, r) == Ring(s, r)
  {
    hide Exact, SocketsOk, WiredOk, OrderOk, TablesOk, PipesOk;
  }

  lemma SocketMoves(op: SocketOp, s: State, t: State, a: Answer, r: PipeRef)
    requires Sound(s) && EffectSocket(op, s, t, a)
    ensures RingMoves(s, t, a, r)
  {
    hide Sound, EffectSocket, Ring, WithPipes, ConnPair;
    SocketPipes(op, s, t, a);
    NewRings(s, t, r);
    assert [] + Ring(s, r) == Ring(s, r) + [];
  }

  lemma StepMoves(op: Op, s: State, t: State, a: Answer, r: PipeRef)
    requires Sound(s) && Effect(op, s, t, a)
    ensures RingMoves(s, t, a, r)
  {
    hide Sound, EffectFd, EffectCage, EffectSocket, RingMoves;
    match op
    case OnFd(o) => FdMoves(o, s, t, a, r);
    case OnCage(o) => CageMoves(o, s, t, a, r);
    case OnSocket(o) => SocketMoves(o, s, t, a, r);
  }

  lemma Chained(took: seq<byte>, now: seq<byte>, ring: seq<byte>, mid: seq<byte>, ring0: seq<byte>, gave: seq<byte>,
                more: seq<byte>)
    requires took + mid == ring0 + gave && now + ring == mid + more
    ensures (took + now) + ring == ring0 + (gave + more)
  {
    assert (took + now) + ring == took + (now + ring);
    assert took + (mid + more) == (took + mid) + more;
    assert (ring0 + gave) + more == ring0 + (gave + more);
  }

  /**
   Over any run, through any descriptors of any cages: what was read from a pipe and what is
   left in its ring are what was in it before and what was written to it, in order.
   */
  lemma {:induction false} StreamsConserved(states: seq<State>, ops: seq<Op>, answers: seq<Answer>, r: PipeRef)
    requires Steps(states, ops, answers)
    ensures TookAll(answers, r) + Ring(states[|ops|], r) == Ring(states[0], r) + GaveAll(answers, r)
    decreases |ops|
  {
    hide Effect, Sound, RingMoves;
    if ops == [] {
      assert [] + Ring(states[0], r) == Ring(states[0], r) + [];
    } else {
      var k := |ops| - 1;
      StepsPrefix(states, ops, answers);
      StreamsConserved(states[..k + 1], ops[..k], answers[..k], r);
      StepMoves(ops[k], states[k], states[k + 1], answers[k], r);
      MovesMeans(states[k], states[k + 1], answers[k], r);
      var d := DeedOf(answers[k]);
      Chained(TookAll(answers[..k], r), Took(d, r), Ring(states[k + 1], r), Ring(states[k], r), Ring(states[0], r),
              GaveAll(answers[..k], r), Gave(d, r));
    }
  }

  lemma MovesMeans(s: State, t: State, a: Answer, r: PipeRef)
    requires RingMoves(s, t, a, r)
    ensures Took(DeedOf(a), r) + Ring(t, r) == Ring(s, r) + Gave(DeedOf(a), r)
  {
  }

  // ------------------------------------------------------------------
  // Connections over a run
  // ------------------------------------------------------------------

  function Joins(d: Deed, addr: string): seq<nat> {
    if d.Connects? && d.addr == addr then [d.n] else []
  }

  function Leaves(d: Deed, addr: string): seq<nat> {
    if d.Accepts? && d.addr == addr then [d.n] else []
  }

  /** The connections made to an address during a run, in order. */
  function Connected(answers: seq<Answer>, addr: string): seq<nat> {
    if answers == [] then []
    else Connected(answers[..|answers| - 1], addr) + Joins(DeedOf(answers[|answers| - 1]), addr)
  }

  /** The connections accepted at an address during a run, in order. */
  function Accepted(answers: seq<Answer>, addr: string): seq<nat> {
    if answers == [] then []
    else Accepted(answers[..|answers| - 1], addr) + Leaves(DeedOf(answers[|answers| - 1]), addr)
  }

  function InLine(s: State, addr: string): seq<nat> {
    Ids(At(s.queues, addr))
  }

  ghost predicate LineMoves(s: State, t: State, a: Answer, addr: string) {
    && Leaves(DeedOf(a), addr) + InLine(t, addr) == InLine(s, addr) + Joins(DeedOf(a), addr)
    && s.nextConn <= t.nextConn && forall n :: n in Joins(DeedOf(a), addr) ==> s.nextConn <= n < t.nextConn
  }

  lemma LineStays(s: State, t: State, a: Answer, addr: string)
    requires t.queues == s.queues && s.nextConn <= t.nextConn && !DeedOf(a).Connects? && !DeedOf(a).Accepts?
    ensures LineMoves(s, t, a, addr)
  {
    assert [] + InLine(s, addr) == InLine(s, addr) + [];
  }

  lemma ConnectMoves(s: State, t: State, a: Answer, cage: nat, fd: nat, target: string, forwarded: int, addr: string)
    requires ConnectEffect(s, t, a, cage, fd, target, forwarded)
    ensures LineMoves(s, t, a, addr)
  {
    hide Forwarded, WithPipes, ConnPair, Plugged, Users;
    if a.Answer? && a.deed.Connects? {
      var id := s.fds[Live(cage, fd)].underfd;
      IdsAppend(At(s.queues, target), Pending(Text(s.sockets[id].local), Conn(s.nextConn), Conn(s.nextConn + 1)));
      IdOfConn(s.nextConn);
      assert [] + InLine(s, addr) == InLine(s, addr) + [];
    } else {
      LineStays(s, t, a, addr);
    }
  }

  lemma AcceptMoves(s: State, t: State, a: Answer, cage: nat, fd: nat, kind: bv32, interrupted: bool, forwarded: int,
                    addr: string)
    requires AcceptEffect(s, t, a, cage, fd, kind, interrupted, forwarded)
    ensures LineMoves(s, t, a, addr)
  {
    hide AcceptForwarded, LowestFree, SocketEntry;
    if a.Answer? && a.deed.Accepts? {
      IdsRest(s.queues[a.deed.addr]);
      assert [] + InLine(s, addr) == InLine(s, addr) + [];
    } else {
      LineStays(s, t, a, addr);
    }
  }

  lemma FdLines(op: FdOp, s: State, t: State, a: Answer, addr: string)
    requires EffectFd(op, s, t, a)
    ensures LineMoves(s, t, a, addr)
  {
    hide OpenTable, DupTable, Dup2Table, LowestFree, Base, Forwarded, Ours, ReadOn, WriteOn, LineMoves;
    hide WithPipes, Recounted, ReadEntry, WriteEntry, SetStatusFlags, SourceOf, SinkOf;
    LineStays(s, t, a, addr);
  }

  lemma CageLines(op: CageOp, s: State, t: State, a: Answer, addr: string)
    requires EffectCage(op, s, t, a)
    ensures LineMoves(s, t, a, addr)
  {
    hide Merged, TableOf, ChildView, CloexecOf, SlotsOf, Stdio, Targets, Recounted, Grown, LineMoves, EarlyChild;
    LineStays(s, t, a, addr);
  }

  lemma SocketLines(op: SocketOp, s: State, t: State, a: Answer, addr: string)
    requires EffectSocket(op, s, t, a)
    ensures LineMoves(s, t, a, addr)
  {
    hide LowestFree, Base, Forwarded, Ours, WithPipes, Plugged, ConnPair, SocketEntry, ConnectEffect, AcceptEffect;
    hide LineMoves;
    match op
    case ConnectCall(cage, fd, target, forwarded) => ConnectMoves(s, t, a, cage, fd, target, forwarded, addr);
    case AcceptCall(cage, fd, kind, interrupted, forwarded) =>
      AcceptMoves(s, t, a, cage, fd, kind, interrupted, forwarded, addr);
    case _ => LineStays(s, t, a, addr);
  }

  lemma StepLines(op: Op, s: State, t: State, a: Answer, addr: string)
    requires Effect(op, s, t, a)
    ensures LineMoves(s, t, a, addr)
  {
    hide EffectFd, EffectCage, EffectSocket, LineMoves;
    match op
    case OnFd(o) => FdLines(o, s, t, a, addr);
    case OnCage(o) => CageLines(o, s, t, a, addr);
    case OnSocket(o) => SocketLines(o, s, t, a, addr);
  }

  lemma Ordered(left: seq<nat>, now: seq<nat>, line: seq<nat>, mid: seq<nat>, line0: seq<nat>, made: seq<nat>,
                more: seq<nat>)
    requires left + mid == line0 + made && now + line == mid + more
    ensures (left + now) + line == line0 + (made + more)
  {
    assert (left + now) + line == left + (now + line);
    assert left + (mid + more) == (left + mid) + more;
    assert (line0 + made) + more == line0 + (made + more);
  }

  lemma IncreasingMore(s: seq<nat>, more: seq<nat>, bound: nat, bound': nat)
    requires Increasing(s) && (forall i :: 0 <= i < |s| ==> s[i] < bound) && |more| <= 1
    requires bound <= bound' && forall n :: n in more ==> bound <= n < bound'
    ensures Increasing(s + more) && forall i :: 0 <= i < |s + more| ==> (s + more)[i] < bound'
  {
    if more != [] {
      assert more[0] in more;
    }
  }

  lemma JoinsOne(d: Deed, addr: string)
    ensures |Joins(d, addr)| <= 1
  {
  }

  /**
   Over any run, the connections accepted at an address and those still waiting are, in this
   order, those that waited before and those made since: each is accepted once, in connect
   order.
   */
  lemma {:induction false} AcceptsInOrder(states: seq<State>, ops: seq<Op>, answers: seq<Answer>, addr: string)
    requires Steps(states, ops, answers)
    ensures Accepted(answers, addr) + InLine(states[|ops|], addr) == InLine(states[0], addr) + Connected(answers, addr)
    ensures var all := InLine(states[0], addr) + Connected(answers, addr);
            Increasing(all) && forall i :: 0 <= i < |all| ==> all[i] < states[|ops|].nextConn
    decreases |ops|
  {
    hide Effect, LineMoves, Sound, InLine, Increasing, Leaves, Joins, DeedOf;
    var all := InLine(states[0], addr) + Connected(answers, addr);
    if ops == [] {
      assert all == InLine(states[0], addr);
      LineOrdered(states[0], addr);
    } else {
      var k := |ops| - 1;
      StepsPrefix(states, ops, answers);
      AcceptsInOrder(states[..k + 1], ops[..k], answers[..k], addr);
      StepLines(ops[k], states[k], states[k + 1], answers[k], addr);
      var d, s, t := DeedOf(answers[k]), states[k], states[k + 1];
      LineMeans(s, t, answers[k], addr);
      Ordered(Accepted(answers[..k], addr), Leaves(d, addr), InLine(t, addr), InLine(s, addr), InLine(states[0], addr),
              Connected(answers[..k], addr), Joins(d, addr));
      var before := InLine(states[0], addr) + Connected(answers[..k], addr);
      JoinsOne(d, addr);
      IncreasingMore(before, Joins(d, addr), s.nextConn, t.nextConn);
      assert all == before + Joins(d, addr);
    }
  }

  lemma LineMeans(s: State, t: State, a: Answer, addr: string)
    requires LineMoves(s, t, a, addr)
    ensures Leaves(DeedOf(a), addr) + InLine(t, addr) == InLine(s, addr) + Joins(DeedOf(a), addr)
    ensures s.nextConn <= t.nextConn && forall n :: n in Joins(DeedOf(a), addr) ==> s.nextConn <= n < t.nextConn
  {
  }

  lemma LineOrdered(s: State, addr: string)
    requires Sound(s)
    ensures var line := InLine(s, addr); Increasing(line) && forall i :: 0 <= i < |line| ==> line[i] < s.nextConn
  {
  }

  // ------------------------------------------------------------------
  // Two connected sockets over a run
  // ------------------------------------------------------------------

  predicate Via(e: Entry, id: nat) {
    e.kind.SocketFd? && e.underfd == id
  }

  /** What was received through descriptors of a socket during a run. */
  function ReceivedBy(answers: seq<Answer>, id: nat): seq<byte> {
    if answers == [] then []
    else
      var d := DeedOf(answers[|answers| - 1]);
      ReceivedBy(answers[..|answers| - 1], id) + if d.Received? && Via(d.via, id) then d.bytes else []
  }

  /** What was sent through descriptors of a socket during a run. */
  function SentBy(answers: seq<Answer>, id: nat): seq<byte> {
    if answers == [] then []
    else
      var d := DeedOf(answers[|answers| - 1]);
      SentBy(answers[..|answers| - 1], id) + if d.Sent? && Via(d.via, id) then d.bytes else []
  }

  /** A socket keeps the pipes it has. */
  ghost predicate Keeps(before: map<nat, Socket>, after: map<nat, Socket>) {
    forall x :: x in before ==>
      && x in after
      && (before[x].send.Some? ==> after[x].send == before[x].send)
      && (before[x].recv.Some? ==> after[x].recv == before[x].recv)
  }

  lemma SocketKeeps(op: SocketOp, s: State, t: State, a: Answer)
    requires Sound(s) && EffectSocket(op, s, t, a)
    ensures Keeps(s.sockets, t.sockets)
  {
    hide Exact, WiredOk, OrderOk, LowestFree, Base, Forwarded, SocketEntry, Users, At, WithPipes, AcceptForwarded;
    hide TablesOk, PipesOk;
    hide ConnPair;
  }

  lemma FdKeeps(op: FdOp, s: State, t: State, a: Answer)
    requires EffectFd(op, s, t, a)
    ensures t.sockets == s.sockets
  {
    hide OpenTable, DupTable, Dup2Table, LowestFree, Base, Forwarded, Ours, ReadOn, WriteOn, Moved, DupCages, IsCode;
    hide IsPair;
    hide WithPipes, Recounted, ReadEntry, WriteEntry, SetStatusFlags, SourceOf, SinkOf;
  }

  lemma CageKeeps(op: CageOp, s: State, t: State, a: Answer)
    requires EffectCage(op, s, t, a)
    ensures t.sockets == s.sockets
  {
    hide Merged, TableOf, ChildView, CloexecOf, SlotsOf, Stdio, Targets, Recounted, Grown, EarlyChild;
  }

  lemma StepKeeps(op: Op, s: State, t: State, a: Answer)
    requires Sound(s) && Effect(op, s, t, a)
    ensures Keeps(s.sockets, t.sockets)
  {
    hide EffectFd, EffectCage, EffectSocket, Sound;
    match op
    case OnFd(o) => FdKeeps(o, s, t, a);
    case OnCage(o) => CageKeeps(o, s, t, a);
    case OnSocket(o) => SocketKeeps(o, s, t, a);
  }

  lemma {:induction false} RunKeeps(states: seq<State>, ops: seq<Op>, answers: seq<Answer>, k: nat)
    requires Steps(states, ops, answers) && k <= |ops|
    ensures Keeps(states[k].sockets, states[|ops|].sockets)
    decreases |ops| - k
  {
    hide Effect, Sound;
    if k < |ops| {
      StepKeeps(ops[k], states[k], states[k + 1], answers[k]);
      RunKeeps(states, ops, answers, k + 1);
    }
  }

  lemma DeedPlace(op: Op, s: State, t: State, a: Answer)
    requires Effect(op, s, t, a)
    ensures var d := DeedOf(a);
            && (d.Received? ==> SourceOf(s.sockets, d.via) == Some(d.pipe))
            && (d.Sent? ==> SinkOf(s.sockets, d.via) == Some(d.pipe))
  {
    hide OpenTable, DupTable, Dup2Table, LowestFree, Base, Forwarded, Ours, ReadOn, WriteOn;
    hide WithPipes, Recounted, ReadEntry, WriteEntry, SetStatusFlags, SourceOf, SinkOf, Users, At, SocketEntry;
    hide AcceptForwarded;
    hide Merged, TableOf, ChildView, CloexecOf, SlotsOf, Stdio, Targets, Connecting, TookHead, Plugged, EarlyChild;
    hide Grown;
  }

  /** Socket `i` sends into the pipe from which socket `j` receives. */
  ghost predicate Wired(sockets: map<nat, Socket>, i: nat, j: nat, r: PipeRef) {
    && i in sockets && j in sockets && sockets[i].send == Some(r) && sockets[j].recv == Some(r)
  }

  /** What this deed moves on the pipe it moves through one of the two sockets, and the other way round. */
  ghost predicate Theirs(d: Deed, i: nat, j: nat, r: PipeRef) {
    && (d.Received? ==> (d.pipe == r <==> Via(d.via, j)))
    && (d.Sent? ==> (d.pipe == r <==> Via(d.via, i)))
  }

  lemma DeedIsTheirs(s: State, last: State, d: Deed, i: nat, j: nat, r: PipeRef)
    requires Keeps(s.sockets, last.sockets) && WiredOk(last.sockets) && Wired(last.sockets, i, j, r) && r.Conn?
    requires d.Received? ==> SourceOf(s.sockets, d.via) == Some(d.pipe)
    requires d.Sent? ==> SinkOf(s.sockets, d.via) == Some(d.pipe)
    ensures Theirs(d, i, j, r)
  {
  }

  lemma {:induction false} TheirBytes(answers: seq<Answer>, i: nat, j: nat, r: PipeRef)
    requires forall k :: 0 <= k < |answers| ==> Theirs(DeedOf(answers[k]), i, j, r)
    ensures TookAll(answers, r) == ReceivedBy(answers, j) && GaveAll(answers, r) == SentBy(answers, i)
    decreases |answers|
  {
    if answers != [] {
      var k := |answers| - 1;
      assert Theirs(DeedOf(answers[k]), i, j, r);
      TheirBytes(answers[..k], i, j, r);
    }
  }

  lemma ConnWired(s: State, i: nat, j: nat, r: PipeRef)
    requires Sound(s) && Wired(s.sockets, i, j, r)
    ensures r.Conn? && WiredOk(s.sockets)
  {
  }

  /**
   Two connected sockets after any run: what one has received and what is still on the way are
   what was on the way before and what the other has sent, in order, however many descriptors
   of however many cages name them.
   */
  lemma PeersAreStreams(states: seq<State>, ops: seq<Op>, answers: seq<Answer>, i: nat, j: nat, r: PipeRef)
    requires Steps(states, ops, answers) && Wired(states[|ops|].sockets, i, j, r)
    ensures ReceivedBy(answers, j) + Ring(states[|ops|], r) == Ring(states[0], r) + SentBy(answers, i)
    ensures r !in states[0].pipes ==> ReceivedBy(answers, j) <= SentBy(answers, i)
  {
    hide Effect, Sound, Wired, Theirs, Keeps, WiredOk;
    ConnWired(states[|ops|], i, j, r);
    forall k | 0 <= k < |answers| ensures Theirs(DeedOf(answers[k]), i, j, r) {
      RunKeeps(states, ops, answers, k);
      DeedPlace(ops[k], states[k], states[k + 1], answers[k]);
      DeedIsTheirs(states[k], states[|ops|], DeedOf(answers[k]), i, j, r);
    }
    TheirBytes(answers, i, j, r);
    StreamsConserved(states, ops, answers, r);
    if r !in states[0].pipes {
      assert SentBy(answers, i) == ReceivedBy(answers, j) + Ring(states[|ops|], r);
    }
  }
}
