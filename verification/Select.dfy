/**
 select() over two descriptor spaces: descriptors served here are answered here, the others
 are renamed, handed to the kernel and renamed back.

 A null set is the empty set. What the kernel and the pipes answer is given from outside.
 */
module Selects {
  import opened Bytes
  import opened Descriptors
  import opened FdSets
  import opened Pipes
  import opened Readiness

  /** The three sets of a call. */
  datatype Ask = Ask(r: set<nat>, w: set<nat>, e: set<nat>)

  function Any(a: Ask): set<nat> {
    a.r + a.w + a.e
  }

  function Total(a: Ask): nat {
    |a.r| + |a.w| + |a.e|
  }

  predicate Within(a: Ask, b: Ask) {
    a.r <= b.r && a.w <= b.w && a.e <= b.e
  }

  /** `under` renames the kernel's descriptors, `revents` is what polling each of the others reported. */
  datatype Env = Env(under: map<nat, nat>, revents: map<nat, bv16>)

  predicate Sent(env: Env, f: nat) {
    f !in env.revents && f in env.under && env.under[f] < FD_SETSIZE
  }

  ghost function Image(s: set<nat>, n: nat, env: Env): set<nat> {
    set f | f in s && f < n && f !in env.revents && f in env.under && env.under[f] < FD_SETSIZE :: env.under[f]
  }

  ghost function Images(a: Ask, n: nat, env: Env): Ask {
    Ask(Image(a.r, n, env), Image(a.w, n, env), Image(a.e, n, env))
  }

  predicate Reports(env: Env, f: nat, events: bv16) {
    f in env.revents && Asks(env.revents[f], events)
  }

  ghost function Ready(s: set<nat>, n: nat, env: Env, events: bv16): set<nat> {
    set f | f in s && f < n && Reports(env, f, events)
  }

  ghost function ReadyOf(a: Ask, n: nat, env: Env): Ask {
    Ask(Ready(a.r, n, env, POLLIN | POLLHUP), Ready(a.w, n, env, POLLOUT | POLLERR), Ready(a.e, n, env, POLLERR))
  }

  /** The last requested descriptor that was renamed to `u`. */
  function Owner(all: set<nat>, n: nat, env: Env, u: nat): Option<nat> {
    if n == 0 then None
    else if n - 1 in all && Sent(env, n - 1) && env.under[n - 1] == u then Some(n - 1)
    else Owner(all, n - 1, env, u)
  }

  lemma {:induction false} OwnerMeans(all: set<nat>, n: nat, env: Env, u: nat)
    ensures match Owner(all, n, env, u)
            case Some(f) => f in all && f < n && Sent(env, f) && env.under[f] == u
                            && forall g :: f < g < n && g in all && Sent(env, g) ==> env.under[g] != u
            case None => forall g :: g < n && g in all && Sent(env, g) ==> env.under[g] != u
  {
    if n > 0 {
      OwnerMeans(all, n - 1, env, u);
    }
  }

  /** What the kernel's answer comes back as. */
  ghost function Back(k: set<nat>, all: set<nat>, n: nat, env: Env): set<nat> {
    set u | u in k && Owner(all, n, env, u).Some? :: Owner(all, n, env, u).value
  }

  ghost function Backs(k: Ask, all: set<nat>, n: nat, env: Env): Ask {
    Ask(Back(k.r, all, n, env), Back(k.w, all, n, env), Back(k.e, all, n, env))
  }

  /** What it should come back as: requested, and its image set. */
  ghost function Proper(k: set<nat>, s: set<nat>, n: nat, env: Env): set<nat> {
    set f | f in s && f < n && f !in env.revents && f in env.under && env.under[f] < FD_SETSIZE && env.under[f] in k
  }

  ghost function Propers(k: Ask, a: Ask, n: nat, env: Env): Ask {
    Ask(Proper(k.r, a.r, n, env), Proper(k.w, a.w, n, env), Proper(k.e, a.e, n, env))
  }

  /** No two requested descriptors share an image. */
  ghost predicate Injective(all: set<nat>, n: nat, env: Env) {
    forall f, g :: f in all && g in all && f < g < n && Sent(env, f) && Sent(env, g) ==> env.under[f] != env.under[g]
  }

  lemma OwnerOfImage(all: set<nat>, n: nat, env: Env, f: nat)
    requires Injective(all, n, env) && f in all && f < n && Sent(env, f)
    ensures Owner(all, n, env, env.under[f]) == Some(f)
  {
    OwnerMeans(all, n, env, env.under[f]);
  }

  lemma BackProper(k: set<nat>, s: set<nat>, all: set<nat>, n: nat, env: Env)
    requires Injective(all, n, env) && s <= all && k <= Image(s, n, env)
    ensures Back(k, all, n, env) == Proper(k, s, n, env)
  {
    forall f | f in Back(k, all, n, env) ensures f in Proper(k, s, n, env) {
      var u :| u in k && Owner(all, n, env, u) == Some(f);
      var g :| g in s && g < n && Sent(env, g) && env.under[g] == u;
      OwnerOfImage(all, n, env, g);
    }
    forall f | f in Proper(k, s, n, env) ensures f in Back(k, all, n, env) {
      OwnerOfImage(all, n, env, f);
    }
  }

  /** One image more comes back as one descriptor more. */
  lemma BackOneMore(k: set<nat>, u: nat, all: set<nat>, n: nat, env: Env, f: nat)
    requires u !in k && Owner(all, n, env, u) == Some(f)
    ensures Back(k + {u}, all, n, env) == Back(k, all, n, env) + {f}
    ensures f !in Back(k, all, n, env)
  {
    hide Owner;
    OwnerMeans(all, n, env, u);
    if f in Back(k, all, n, env) {
      var v :| v in k && Owner(all, n, env, v) == Some(f);
      OwnerMeans(all, n, env, v);
      assert false;
    }
  }

  lemma ImageOf(s: set<nat>, n: nat, env: Env, u: nat) returns (f: nat)
    requires u in Image(s, n, env)
    ensures f in s && f < n && Sent(env, f) && env.under[f] == u
  {
    f :| f in s && f < n && Sent(env, f) && env.under[f] == u;
  }

  /** Each image comes back as one descriptor. */
  lemma {:induction false} BackCounts(k: set<nat>, s: set<nat>, all: set<nat>, n: nat, env: Env)
    requires Injective(all, n, env) && s <= all && k <= Image(s, n, env)
    ensures |Back(k, all, n, env)| == |k|
    decreases |k|
  {
    hide Owner, Injective, Image, Sent;
    if k == {} {
      assert Back(k, all, n, env) == {};
    } else {
      var u :| u in k;
      var rest := k - {u};
      assert rest + {u} == k;
      BackCounts(rest, s, all, n, env);
      var f := ImageOf(s, n, env, u);
      OwnerOfImage(all, n, env, f);
      BackOneMore(rest, u, all, n, env, f);
    }
  }

  /** Every answer the kernel may give comes back right, exactly when the renaming is injective on what was asked. */
  lemma RenamingExact(a: Ask, n: nat, env: Env)
    ensures (forall k :: Within(k, Images(a, n, env)) ==> Backs(k, Any(a), n, env) == Propers(k, a, n, env))
            <==> Injective(Any(a), n, env)
  {
    var all := Any(a);
    if Injective(all, n, env) {
      forall k | Within(k, Images(a, n, env)) ensures Backs(k, all, n, env) == Propers(k, a, n, env) {
        BackProper(k.r, a.r, all, n, env);
        BackProper(k.w, a.w, all, n, env);
        BackProper(k.e, a.e, all, n, env);
      }
    } else {
      var f, g :| f in all && g in all && f < g < n && Sent(env, f) && Sent(env, g) && env.under[f] == env.under[g];
      var k := Images(a, n, env);
      NeverBack(k, all, n, env, f, g);
      assert f in Any(Propers(k, a, n, env));
      assert Within(k, Images(a, n, env));
    }
  }

  lemma NeverBack(k: Ask, all: set<nat>, n: nat, env: Env, f: nat, g: nat)
    requires f in all && g in all && f < g < n && Sent(env, f) && Sent(env, g) && env.under[f] == env.under[g]
    ensures f !in Any(Backs(k, all, n, env))
  {
    if f in Any(Backs(k, all, n, env)) {
      var u :| Owner(all, n, env, u) == Some(f);
      OwnerMeans(all, n, env, u);
    }
  }

  // ------------------------------------------------------------------
  // The handler
  // ------------------------------------------------------------------

  function With(s: set<nat>, fd: nat, yes: bool): set<nat> {
    if yes then s + {fd} else s
  }

  class FdTriple {
    const r: FdSet
    const w: FdSet
    const e: FdSet

    ghost predicate Valid() {
      && r.Valid() && w.Valid() && e.Valid()
      && r.words != w.words && r.words != e.words && w.words != e.words
    }

    ghost function Value(): Ask
      requires Valid()
      reads r.words, w.words, e.words
    {
      Ask(r.Value(), w.Value(), e.Value())
    }

    constructor ()
      ensures Valid() && Value() == Ask({}, {}, {}) && fresh(r.words) && fresh(w.words) && fresh(e.words)
    {
      r := new FdSet();
      w := new FdSet();
      e := new FdSet();
    }

    method Add(fd: nat, inR: bool, inW: bool, inE: bool)
      requires Valid() && fd < FD_SETSIZE
      modifies r.words, w.words, e.words
      ensures Value() == var was := old(Value()); Ask(With(was.r, fd, inR), With(was.w, fd, inW), With(was.e, fd, inE))
    {
      hide FdSet.Value;
      if inR {
        r.Add(fd);
      }
      if inW {
        w.Add(fd);
      }
      if inE {
        e.Add(fd);
      }
    }
  }

  lemma ImageStep(s: set<nat>, n: nat, env: Env)
    ensures Image(s, n + 1, env)
         == if n in s && Sent(env, n) then Image(s, n, env) + {env.under[n]} else Image(s, n, env)
  {
    forall u | u in Image(s, n + 1, env)
      ensures u in Image(s, n, env) || (n in s && Sent(env, n) && u == env.under[n])
    {
      var f :| f in s && f < n + 1 && f !in env.revents && f in env.under && env.under[f] < FD_SETSIZE
               && env.under[f] == u;
      assert Sent(env, f);
      assert f < n ==> u in Image(s, n, env);
    }
  }

  lemma ReadyStep(s: set<nat>, n: nat, env: Env, events: bv16)
    ensures Ready(s, n + 1, env, events) == With(Ready(s, n, env, events), n, n in s && Reports(env, n, events))
    ensures n !in Ready(s, n, env, events)
  {
  }

  /** One descriptor more. */
  lemma StepAll(a: Ask, n: nat, env: Env)
    ensures Images(a, n + 1, env)
            == if Sent(env, n) then
                 var u, was := env.under[n], Images(a, n, env);
                 Ask(With(was.r, u, n in a.r), With(was.w, u, n in a.w), With(was.e, u, n in a.e))
               else Images(a, n, env)
    ensures var was := ReadyOf(a, n, env);
            var inR, inW, inE := n in a.r && Reports(env, n, POLLIN | POLLHUP),
                                 n in a.w && Reports(env, n, POLLOUT | POLLERR), n in a.e && Reports(env, n, POLLERR);
            && ReadyOf(a, n + 1, env) == Ask(With(was.r, n, inR), With(was.w, n, inW), With(was.e, n, inE))
            && Total(ReadyOf(a, n + 1, env))
               == Total(was) + (if inR then 1 else 0) + (if inW then 1 else 0) + (if inE then 1 else 0)
  {
    hide Image, Ready, Sent, Reports;
    ImageStep(a.r, n, env);
    ImageStep(a.w, n, env);
    ImageStep(a.e, n, env);
    ReadyStep(a.r, n, env, POLLIN | POLLHUP);
    ReadyStep(a.w, n, env, POLLOUT | POLLERR);
    ReadyStep(a.e, n, env, POLLERR);
  }

  ghost predicate Apart(s: FdTriple, t: FdTriple) {
    {s.r.words, s.w.words, s.e.words} !! {t.r.words, t.w.words, t.e.words}
  }

  /** Every entry of the reverse map is the last owner, and lies at or below the highest image. */
  ghost predicate Reversed(rev: seq<Option<nat>>, maxUnder: nat, all: set<nat>, n: nat, env: Env) {
    && |rev| == FD_SETSIZE && maxUnder < FD_SETSIZE
    && (forall u :: 0 <= u < FD_SETSIZE ==> rev[u] == Owner(all, n, env, u))
    && (forall u :: maxUnder < u < FD_SETSIZE ==> rev[u] == None)
  }

  lemma ReversedStart(rev: seq<Option<nat>>, all: set<nat>, env: Env)
    requires |rev| == FD_SETSIZE && forall u :: 0 <= u < FD_SETSIZE ==> rev[u] == None
    ensures Reversed(rev, 0, all, 0, env)
  {
  }

  lemma ReversedStep(rev: seq<Option<nat>>, maxUnder: nat, all: set<nat>, n: nat, env: Env)
    requires Reversed(rev, maxUnder, all, n, env)
    ensures if n in all && Sent(env, n) then
              Reversed(rev[env.under[n] := Some(n)], Max(maxUnder, env.under[n]), all, n + 1, env)
            else Reversed(rev, maxUnder, all, n + 1, env)
  {
  }

  lemma SentStep(all: set<nat>, n: nat, env: Env)
    ensures Image(all, n + 1, env) != {} <==> Image(all, n, env) != {} || (n in all && Sent(env, n))
  {
    ImageStep(all, n, env);
  }

  /** The wants of one descriptor. */
  method Wants(want: FdTriple, fd: nat) returns (inR: bool, inW: bool, inE: bool)
    requires want.Valid()
    ensures inR == (fd in want.Value().r) && inW == (fd in want.Value().w) && inE == (fd in want.Value().e)
    ensures inR || inW || inE <==> fd in Any(want.Value())
    ensures inR || inW || inE ==> fd < FD_SETSIZE
  {
    inR := want.r.Has(fd);
    inW := want.w.Has(fd);
    inE := want.e.Has(fd);
  }

  /** Poll one descriptor served here and note for which of its wants it is ready. */
  method Note(ready: FdTriple, fd: nat, revents: bv16, inR: bool, inW: bool, inE: bool) returns (n: nat)
    requires ready.Valid() && fd < FD_SETSIZE
    modifies ready.r.words, ready.w.words, ready.e.words
    ensures var was := old(ready.Value());
            var r, w, e := inR && Asks(revents, POLLIN | POLLHUP), inW && Asks(revents, POLLOUT | POLLERR),
                           inE && Asks(revents, POLLERR);
            && ready.Value() == Ask(With(was.r, fd, r), With(was.w, fd, w), With(was.e, fd, e))
            && n == (if r then 1 else 0) + (if w then 1 else 0) + (if e then 1 else 0)
  {
    var r, w, e := inR && Asks(revents, POLLIN | POLLHUP), inW && Asks(revents, POLLOUT | POLLERR),
                   inE && Asks(revents, POLLERR);
    ready.Add(fd, r, w, e);
    n := (if r then 1 else 0) + (if w then 1 else 0) + (if e then 1 else 0);
  }

  /** One lap of the classification. */
  method ClassifyOne(fd: nat, want: FdTriple, env: Env, kernel: FdTriple, ready: FdTriple,
                     rev: array<Option<nat>>, maxUnder: nat)
    returns (maxUnder': nat, more: nat, sent: bool)
    requires want.Valid() && kernel.Valid() && ready.Valid()
    requires Apart(kernel, ready) && Apart(want, kernel) && Apart(want, ready)
    requires kernel.Value() == Images(want.Value(), fd, env) && ready.Value() == ReadyOf(want.Value(), fd, env)
    requires rev.Length == FD_SETSIZE && Reversed(rev[..], maxUnder, Any(want.Value()), fd, env)
    modifies kernel.r.words, kernel.w.words, kernel.e.words, ready.r.words, ready.w.words, ready.e.words, rev
    ensures want.Value() == old(want.Value())
    ensures kernel.Value() == Images(want.Value(), fd + 1, env) && ready.Value() == ReadyOf(want.Value(), fd + 1, env)
    ensures Total(ready.Value()) == old(Total(ready.Value())) + more
    ensures Reversed(rev[..], maxUnder', Any(want.Value()), fd + 1, env)
    ensures sent <==> fd in Any(want.Value()) && Sent(env, fd)
  {
    hide Image, Ready, Owner, Asks, FdSet.Value, Any, Reversed, Images, ReadyOf;
    StepAll(want.Value(), fd, env);
    ReversedStep(rev[..], maxUnder, Any(want.Value()), fd, env);
    maxUnder', more, sent := maxUnder, 0, false;
    var inR, inW, inE := Wants(want, fd);
    if !inR && !inW && !inE {
      return;
    }
    if fd in env.revents {
      more := Note(ready, fd, env.revents[fd], inR, inW, inE);
      return;
    }
    if fd !in env.under {
      return;
    }
    var under := env.under[fd];
    if under < FD_SETSIZE {
      ghost var before := rev[..];
      rev[under] := Some(fd);
      assert rev[..] == before[under := Some(fd)];
      kernel.Add(under, inR, inW, inE);
      return Max(maxUnder, under), 0, true;
    }
  }

  method Classify(n: nat, want: FdTriple, env: Env)
    returns (kernel: FdTriple, ready: FdTriple, rev: array<Option<nat>>, maxUnder: nat, count: nat, haveKernel: bool)
    requires want.Valid()
    ensures kernel.Valid() && kernel.Value() == Images(want.Value(), n, env)
    ensures ready.Valid() && ready.Value() == ReadyOf(want.Value(), n, env) && count == Total(ready.Value())
    ensures Reversed(rev[..], maxUnder, Any(want.Value()), n, env)
    ensures haveKernel <==> Image(Any(want.Value()), n, env) != {}
  {
    hide Image, Ready, FdSet.Value, Any, Reversed, Images, ReadyOf, Sent;
    kernel := new FdTriple();
    ready := new FdTriple();
    rev := new Option<nat>[FD_SETSIZE](_ => None);
    maxUnder, count, haveKernel := 0, 0, false;
    ghost var a := want.Value();
    ReversedStart(rev[..], Any(a), env);
    NothingYet(a, env);
    for fd := 0 to n
      invariant want.Value() == a && kernel.Valid() && ready.Valid()
      invariant Apart(kernel, ready) && Apart(want, kernel) && Apart(want, ready)
      invariant fresh({kernel.r.words, kernel.w.words, kernel.e.words})
                && fresh({ready.r.words, ready.w.words, ready.e.words})
      invariant kernel.Value() == Images(a, fd, env)
      invariant ready.Value() == ReadyOf(a, fd, env) && count == Total(ready.Value())
      invariant fresh(rev) && rev.Length == FD_SETSIZE && Reversed(rev[..], maxUnder, Any(a), fd, env)
      invariant haveKernel <==> Image(Any(a), fd, env) != {}
    {
      SentStep(Any(a), fd, env);
      var more, sent;
      maxUnder, more, sent := ClassifyOne(fd, want, env, kernel, ready, rev, maxUnder);
      count := count + more;
      haveKernel := haveKernel || sent;
    }
  }

  lemma NothingYet(a: Ask, env: Env)
    ensures Images(a, 0, env) == Ask({}, {}, {}) == ReadyOf(a, 0, env) && Total(Ask({}, {}, {})) == 0
    ensures Image(Any(a), 0, env) == {}
  {
  }

  ghost function Below(k: Ask, u: nat): Ask {
    Ask((set x | x in k.r && x < u), (set x | x in k.w && x < u), (set x | x in k.e && x < u))
  }

  lemma BackStep(k: set<nat>, u: nat, all: set<nat>, n: nat, env: Env)
    ensures var o := Owner(all, n, env, u);
            Back((set x | x in k && x < u + 1), all, n, env)
            == Back((set x | x in k && x < u), all, n, env) + if u in k && o.Some? then {o.value} else {}
  {
  }

  lemma BackEnd(k: set<nat>, u: nat, all: set<nat>, n: nat, env: Env)
    requires forall x :: x in k && x >= u ==> Owner(all, n, env, x) == None
    ensures Back((set x | x in k && x < u), all, n, env) == Back(k, all, n, env)
  {
  }

  /** What the reverse map leaves out has no owner. */
  lemma BelowMax(k: Ask, rev: seq<Option<nat>>, maxUnder: nat, all: set<nat>, n: nat, env: Env)
    requires Reversed(rev, maxUnder, all, n, env) && forall x :: x in Any(k) ==> x < FD_SETSIZE
    ensures Backs(Below(k, maxUnder + 1), all, n, env) == Backs(k, all, n, env)
  {
    forall x | maxUnder < x < FD_SETSIZE ensures Owner(all, n, env, x) == None {
      assert rev[x] == None;
    }
    assert forall x :: x in k.r || x in k.w || x in k.e ==> x in Any(k);
    BackEnd(k.r, maxUnder + 1, all, n, env);
    BackEnd(k.w, maxUnder + 1, all, n, env);
    BackEnd(k.e, maxUnder + 1, all, n, env);
  }

  lemma MembersInRange(t: FdTriple)
    requires t.Valid()
    ensures forall f :: f in Any(t.Value()) ==> f < FD_SETSIZE
  {
  }

  lemma BacksStep(k: Ask, u: nat, all: set<nat>, n: nat, env: Env)
    ensures var o, was := Owner(all, n, env, u), Backs(Below(k, u), all, n, env);
            Backs(Below(k, u + 1), all, n, env)
            == if o.Some? then
                 Ask(With(was.r, o.value, u in k.r), With(was.w, o.value, u in k.w), With(was.e, o.value, u in k.e))
               else was
  {
    hide Back, Owner;
    BackStep(k.r, u, all, n, env);
    BackStep(k.w, u, all, n, env);
    BackStep(k.e, u, all, n, env);
  }

  lemma BacksStart(k: Ask, all: set<nat>, n: nat, env: Env)
    ensures Backs(Below(k, 0), all, n, env) == Ask({}, {}, {})
  {
  }

  lemma ReversedAt(rev: seq<Option<nat>>, maxUnder: nat, all: set<nat>, n: nat, env: Env, u: nat)
    requires Reversed(rev, maxUnder, all, n, env)
    ensures |rev| == FD_SETSIZE && maxUnder < FD_SETSIZE
    ensures u < FD_SETSIZE ==> rev[u] == Owner(all, n, env, u) && (rev[u].Some? ==> rev[u].value in all)
  {
    OwnerMeans(all, n, env, u);
  }

  method BackTranslate(kernel: FdTriple, rev: array<Option<nat>>, maxUnder: nat, ghost all: set<nat>, ghost n: nat,
                       ghost env: Env)
    returns (out: FdTriple)
    requires kernel.Valid() && Reversed(rev[..], maxUnder, all, n, env) && forall f :: f in all ==> f < FD_SETSIZE
    ensures out.Valid() && fresh(out.r.words) && fresh(out.w.words) && fresh(out.e.words)
    ensures out.Value() == Backs(kernel.Value(), all, n, env)
  {
    hide Back, Backs, Below, Owner, Reversed, FdSet.Value;
    out := new FdTriple();
    ghost var k := kernel.Value();
    BacksStart(k, all, n, env);
    ReversedAt(rev[..], maxUnder, all, n, env, 0);
    for u := 0 to maxUnder + 1
      invariant out.Valid() && fresh({out.r.words, out.w.words, out.e.words}) && kernel.Value() == k
      invariant out.Value() == Backs(Below(k, u), all, n, env)
      invariant Reversed(rev[..], maxUnder, all, n, env)
    {
      BacksStep(k, u, all, n, env);
      ReversedAt(rev[..], maxUnder, all, n, env, u);
      if rev[u].Some? {
        var inR, inW, inE := Wants(kernel, u);
        out.Add(rev[u].value, inR, inW, inE);
      }
    }
    MembersInRange(kernel);
    BelowMax(k, rev[..], maxUnder, all, n, env);
  }

  // ------------------------------------------------------------------
  // The whole call
  // ------------------------------------------------------------------

  ghost function Union(a: Ask, b: Ask): Ask {
    Ask(a.r + b.r, a.w + b.w, a.e + b.e)
  }

  lemma UnionCounts(k: set<nat>, s: set<nat>, all: set<nat>, n: nat, env: Env, events: bv16)
    requires Injective(all, n, env) && s <= all && k <= Image(s, n, env)
    ensures Back(k, all, n, env) == Proper(k, s, n, env)
    ensures |Back(k, all, n, env) + Ready(s, n, env, events)| == |k| + |Ready(s, n, env, events)|
  {
    BackProper(k, s, all, n, env);
    BackCounts(k, s, all, n, env);
    var back, ready := Back(k, all, n, env), Ready(s, n, env, events);
    assert back !! ready;
    assert |back + ready| == |back| + |ready|;
  }

  /** On an injective renaming the call's answer is right, and the two counts add up to its size. */
  lemma AnswerExact(k: Ask, a: Ask, n: nat, env: Env)
    requires Injective(Any(a), n, env) && Within(k, Images(a, n, env))
    ensures Backs(k, Any(a), n, env) == Propers(k, a, n, env)
    ensures Total(Union(Backs(k, Any(a), n, env), ReadyOf(a, n, env))) == Total(k) + Total(ReadyOf(a, n, env))
  {
    UnionCounts(k.r, a.r, Any(a), n, env, POLLIN | POLLHUP);
    UnionCounts(k.w, a.w, Any(a), n, env, POLLOUT | POLLERR);
    UnionCounts(k.e, a.e, Any(a), n, env, POLLERR);
  }

  /** One re-scan while only descriptors served here are waited for. */
  datatype SelectLap = SelectLap(revents: map<nat, bv16>, timedOut: bool, interrupted: bool)

  ghost function LapReady(a: Ask, n: nat, lap: SelectLap): Ask {
    ReadyOf(a, n, Env(map[], lap.revents))
  }

  /** The first `i` laps found nothing, were in time and were not interrupted. */
  ghost predicate NothingIn(a: Ask, n: nat, laps: seq<SelectLap>, i: int)
    requires i <= |laps|
  {
    forall j :: 0 <= j < i ==> Total(LapReady(a, n, laps[j])) == 0 && !laps[j].timedOut && !laps[j].interrupted
  }

  /**
   Lap `i` is the first that ends the wait, with what it found; or with EINTR if it found
   nothing in time, which leaves the caller's sets as they were.
   */
  ghost predicate EndsAt(a: Ask, n: nat, laps: seq<SelectLap>, i: int, out: Ask, o: Outcome) {
    && 0 <= i < |laps|
    && NothingIn(a, n, laps, i)
    && var found := LapReady(a, n, laps[i]);
    && (Total(found) > 0 || laps[i].timedOut || laps[i].interrupted)
    && if Total(found) == 0 && !laps[i].timedOut then o == Done(EINTR) && out == a
       else o == Done(Total(found)) && out == found
  }

  /** Scan until something is ready or the time is up. */
  method AwaitReady(n: nat, want: FdTriple, laps: seq<SelectLap>) returns (ready: FdTriple, outcome: Outcome)
    requires want.Valid()
    ensures outcome.Done? ==> ready.Valid() && exists i :: EndsAt(want.Value(), n, laps, i, ready.Value(), outcome)
    ensures outcome.Waiting? ==> NothingIn(want.Value(), n, laps, |laps|)
  {
    hide Images, ReadyOf, Reversed, Image, Any, FdSet.Value;
    ready := want;
    ghost var a := want.Value();
    for i := 0 to |laps|
      invariant NothingIn(a, n, laps, i)
    {
      var kernel, rev, maxUnder, count, haveKernel;
      kernel, ready, rev, maxUnder, count, haveKernel := Classify(n, want, Env(map[], laps[i].revents));
      if count > 0 || laps[i].timedOut {
        assert EndsAt(a, n, laps, i, ready.Value(), Done(count));
        return ready, Done(count);
      }
      if laps[i].interrupted {
        assert EndsAt(a, n, laps, i, a, Done(EINTR));
        return want, Done(EINTR);
      }
    }
    return want, Waiting;
  }

  /**
   The select handler. What the kernel did is given: `answer` within what it was asked, and
   the size of it as `kernelRet`, or an error.
   */
  method Select(n: nat, want: FdTriple, env: Env, laps: seq<SelectLap>, answer: FdTriple, kernelRet: int)
    returns (outcome: Outcome, out: FdTriple)
    requires want.Valid() && answer.Valid()
    requires 0 < n <= FD_SETSIZE && kernelRet >= 0 ==>
               Within(answer.Value(), Images(want.Value(), n, env)) && kernelRet == Total(answer.Value())
    ensures var a := want.Value();
            if n == 0 || n > FD_SETSIZE then outcome == Done(kernelRet) && out == want
            else if Image(Any(a), n, env) == {} then
              if Total(ReadyOf(a, n, env)) > 0 then
                out.Valid() && out.Value() == ReadyOf(a, n, env) && outcome == Done(Total(out.Value()))
              else
                && (outcome.Done? ==> out.Valid() && exists i :: EndsAt(a, n, laps, i, out.Value(), outcome))
                && (outcome.Waiting? ==> NothingIn(a, n, laps, |laps|))
            else if kernelRet < 0 then outcome == Done(kernelRet) && out == want
            else
              && out.Valid() && outcome.Done?
              && out.Value() == Union(Backs(answer.Value(), Any(a), n, env), ReadyOf(a, n, env))
              && (Injective(Any(a), n, env) ==>
                    && out.Value() == Union(Propers(answer.Value(), a, n, env), ReadyOf(a, n, env))
                    && outcome.code == Total(out.Value()))
  {
    hide Images, ReadyOf, Reversed, Image, Any, FdSet.Value, Backs, Propers, Injective, LapReady, Within, EndsAt;
    hide NothingIn;
    if n == 0 || n > FD_SETSIZE {
      return Done(kernelRet), want;
    }
    MembersInRange(want);
    var kernel, ready, rev, maxUnder, count, haveKernel := Classify(n, want, env);
    if !haveKernel {
      if count > 0 {
        return Done(count), ready;
      }
      out, outcome := AwaitReady(n, want, laps);
      return;
    }
    if kernelRet < 0 {
      return Done(kernelRet), want;
    }
    out := BackTranslate(answer, rev, maxUnder, Any(want.Value()), n, env);
    out.r.AddAll(ready.r);
    out.w.AddAll(ready.w);
    out.e.AddAll(ready.e);
    outcome := Done(kernelRet + count);
    if Injective(Any(want.Value()), n, env) {
      AnswerExact(answer.Value(), want.Value(), n, env);
    }
  }
}
