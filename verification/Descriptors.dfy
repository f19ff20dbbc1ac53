/** Descriptor table entries, sockets, and the pipe ends they stand for. */
module Descriptors {
  import opened Holdings

  datatype Option<T> = None | Some(value: T)

  const O_RDONLY: bv32 := 0
  const O_WRONLY: bv32 := 1
  const O_ACCMODE: bv32 := 3
  const O_NONBLOCK: bv32 := 0x800
  const O_CLOEXEC: bv32 := 0x80000

  predicate IsReadEnd(flags: bv32) {
    flags & O_ACCMODE == O_RDONLY
  }

  predicate IsWriteEnd(flags: bv32) {
    flags & O_ACCMODE == O_WRONLY
  }

  datatype Kind = Kernel | PipeFd | SocketFd

  /** `underfd` is the runtime's descriptor, the pipe id or the socket id, by kind. */
  datatype Entry = Entry(kind: Kind, underfd: nat, cloexec: bool, flags: bv32)

  datatype ConnState = NotConnected | Connected | Listening | ReadOnly

  /** A connection shut down for writing; anything else is taken for unconnected. */
  function ShutState(c: ConnState): ConnState {
    if c.Connected? then ReadOnly else NotConnected
  }

  datatype Socket = Socket(state: ConnState, local: Option<string>, remote: Option<string>,
                           send: Option<PipeRef>, recv: Option<PipeRef>)

  /** A connection between connect() and accept(). */
  datatype Pending = Pending(remote: string, toListener: PipeRef, toConnector: PipeRef)

  const FreshSocket := Socket(NotConnected, None, None, None, None)

  function PlainEnd(id: nat, flags: bv32): End {
    if IsReadEnd(flags) then ReadEnd(Plain(id)) else WriteEnd(Plain(id))
  }

  function SocketEnds(s: Socket): set<End> {
    (if s.send.Some? then {WriteEnd(s.send.value)} else {}) + (if s.recv.Some? then {ReadEnd(s.recv.value)} else {})
  }

  /** The pipe ends one descriptor entry stands for. */
  function Ends(sockets: map<nat, Socket>, e: Entry): set<End> {
    match e.kind
    case Kernel => {}
    case PipeFd => {PlainEnd(e.underfd, e.flags)}
    case SocketFd => if e.underfd in sockets then SocketEnds(sockets[e.underfd]) else {}
  }

  /** fcntl(F_SETFL) keeps the access mode, which is how the two ends of a pipe are told apart. */
  function SetStatusFlags(flags: bv32, arg: bv32): bv32 {
    (flags & O_ACCMODE) | (arg & !O_ACCMODE)
  }

  lemma SetStatusFlagsKeepsEnd(flags: bv32, arg: bv32)
    ensures IsReadEnd(SetStatusFlags(flags, arg)) == IsReadEnd(flags)
    ensures IsWriteEnd(SetStatusFlags(flags, arg)) == IsWriteEnd(flags)
  {
  }

  /** The access mode stays, and every other bit is the caller's. */
  lemma SetStatusFlagsBits(flags: bv32, arg: bv32)
    ensures SetStatusFlags(flags, arg) & 3 == flags & 3
    ensures SetStatusFlags(flags, arg) & 0xFFFF_FFFC == arg & 0xFFFF_FFFC
  {
  }

  predicate WantsCloexec(flags: bv32) {
    flags & O_CLOEXEC != 0
  }

  function ReadFlags(flags: bv32): bv32 {
    O_RDONLY | (flags & O_NONBLOCK)
  }

  function WriteFlags(flags: bv32): bv32 {
    O_WRONLY | (flags & O_NONBLOCK)
  }

  lemma PipeFlagsTellEnds(flags: bv32)
    ensures IsReadEnd(ReadFlags(flags)) && !IsReadEnd(WriteFlags(flags)) && IsWriteEnd(WriteFlags(flags))
  {
  }

  /** The two entries a new pipe starts with. */
  function ReadEntry(id: nat, flags: bv32): Entry {
    Entry(PipeFd, id, WantsCloexec(flags), ReadFlags(flags))
  }

  function WriteEntry(id: nat, flags: bv32): Entry {
    Entry(PipeFd, id, WantsCloexec(flags), WriteFlags(flags))
  }

  /** Each entry is non-blocking, and close-on-exec, exactly if the call said so. */
  lemma NewEntriesBits(id: nat, flags: bv32)
    ensures forall e :: e in {ReadEntry(id, flags), WriteEntry(id, flags), SocketEntry(id, flags)} ==>
              && e.underfd == id && (e.cloexec <==> flags & 0x80000 != 0)
              && (e.flags & 0x800 != 0 <==> flags & 0x800 != 0) && e.flags & 0xFFFF_F7FC == 0
    ensures ReadEntry(id, flags).flags & 3 == 0 && WriteEntry(id, flags).flags & 3 == 1
    ensures SocketEntry(id, flags).flags & 3 == 0
  {
  }

  lemma PipePairEnds(sockets: map<nat, Socket>, id: nat, flags: bv32)
    ensures Ends(sockets, ReadEntry(id, flags)) == {ReadEnd(Plain(id))}
    ensures Ends(sockets, WriteEntry(id, flags)) == {WriteEnd(Plain(id))}
  {
    PipeFlagsTellEnds(flags);
  }

  function SocketEntry(id: nat, kind: bv32): Entry {
    Entry(SocketFd, id, WantsCloexec(kind), kind & O_NONBLOCK)
  }

  lemma SocketEntryNames(id: nat, kind: bv32)
    ensures SocketEntry(id, kind).kind.SocketFd? && SocketEntry(id, kind).underfd == id
  {
  }

  function NonblockingFlags(flags: bv32, on: bool): bv32 {
    if on then flags | O_NONBLOCK else flags & !O_NONBLOCK
  }

  /** One bit is set or cleared, the others stay. */
  lemma NonblockingFlagsBits(flags: bv32, on: bool)
    ensures NonblockingFlags(flags, on) & 0x800 != 0 <==> on
    ensures NonblockingFlags(flags, on) & 0xFFFF_F7FF == flags & 0xFFFF_F7FF
  {
  }

  lemma NonblockingKeepsEnd(flags: bv32, on: bool)
    ensures IsReadEnd(NonblockingFlags(flags, on)) == IsReadEnd(flags)
  {
  }

  function IdOf(r: PipeRef): nat {
    match r case Plain(i) => i case Conn(n) => n
  }

  /** The connections of a queue, in order. */
  function Ids(q: seq<Pending>): seq<nat> {
    seq(|q|, i requires 0 <= i < |q| => IdOf(q[i].toListener))
  }

  ghost predicate Increasing(s: seq<nat>) {
    forall i, j :: 0 <= i < j < |s| ==> s[i] < s[j]
  }
}
