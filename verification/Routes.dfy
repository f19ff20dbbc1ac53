/**
 The routing grate's tables: which alternative system call number stands for a clamped call,
 and which handler that number reaches.

 Registrations go to the runtime; what it replies is given from outside, and `handlers` is
 what it has registered for this grate's alternative numbers.
 */
module Routes {
  import opened Descriptors

  const FIRST_ALT := 3000

  datatype Handler = Handler(grate: nat, fn: nat)

  datatype Request = Request(target: nat, nr: nat, handler: Handler)

  /** The most recently recorded handler for a cage and call. */
  function Latest(requests: seq<Request>, target: nat, nr: nat): Option<Handler> {
    if requests == [] then None
    else
      var last := requests[|requests| - 1];
      if last.target == target && last.nr == nr then Some(last.handler)
      else Latest(requests[..|requests| - 1], target, nr)
  }

  lemma {:induction false} LatestUnchanged(requests: seq<Request>, n: nat, target: nat, nr: nat)
    requires n <= |requests| && forall i :: n <= i < |requests| ==> requests[i].target != target || requests[i].nr != nr
    ensures Latest(requests, target, nr) == Latest(requests[..n], target, nr)
    decreases |requests|
  {
    if n < |requests| {
      var rest := requests[..|requests| - 1];
      LatestUnchanged(rest, n, target, nr);
      assert rest[..n] == requests[..n];
    } else {
      assert requests[..n] == requests;
    }
  }

  /** For whom an alternative number was allocated, and how many requests had been recorded then. */
  datatype Origin = Origin(target: nat, nr: nat, seen: nat)

  type Key = (nat, nat)

  /** Every number reaches the handler that was the most recent one for its cage and call when it was allocated. */
  ghost predicate AltsOk(origins: map<nat, Origin>, handlers: map<nat, Handler>, requests: seq<Request>, next: nat) {
    && origins.Keys == handlers.Keys && next >= FIRST_ALT
    && forall alt :: alt in origins ==>
         && FIRST_ALT <= alt < next && origins[alt].seen <= |requests|
         && Latest(requests[..origins[alt].seen], origins[alt].target, origins[alt].nr) == Some(handlers[alt])
  }

  /** Every route leads to a number of its own call. */
  ghost predicate RoutesOk(routes: map<Key, nat>, origins: map<nat, Origin>) {
    forall k :: k in routes ==> routes[k] in origins && origins[routes[k]].nr == k.1
  }

  ghost function ReachedIn(routes: map<Key, nat>, handlers: map<nat, Handler>, cage: nat, nr: nat): Option<Handler> {
    if (cage, nr) in routes && routes[(cage, nr)] in handlers then Some(handlers[routes[(cage, nr)]]) else None
  }

  /** The tables without the numbers: what every routed call ends up at. */
  ghost function Reaches(routes: map<Key, nat>, handlers: map<nat, Handler>): map<Key, Handler> {
    map k | k in routes && routes[k] in handlers :: handlers[routes[k]]
  }

  /** A number nobody has used takes nothing from anybody. */
  lemma NewRoute(routes: map<Key, nat>, origins: map<nat, Origin>, handlers: map<nat, Handler>,
                 requests: seq<Request>, alt: nat, target: nat, nr: nat, handler: Handler)
    requires AltsOk(origins, handlers, requests, alt) && RoutesOk(routes, origins)
    requires Latest(requests, target, nr) == Some(handler)
    ensures var routes', handlers' := routes[(target, nr) := alt], handlers[alt := handler];
            var origins' := origins[alt := Origin(target, nr, |requests|)];
            && AltsOk(origins', handlers', requests, alt + 1) && RoutesOk(routes', origins')
            && ReachedIn(routes', handlers', target, nr) == Some(handler)
            && (forall c, n :: c != target || n != nr ==>
                  ReachedIn(routes', handlers', c, n) == ReachedIn(routes, handlers, c, n))
            && Reaches(routes', handlers') == Reaches(routes, handlers)[(target, nr) := handler]
  {
    hide Latest, ReachedIn, Reaches;
    assert requests[..|requests|] == requests;
    NewReach(routes, handlers, alt, target, nr, handler);
  }

  lemma NewReach(routes: map<Key, nat>, handlers: map<nat, Handler>, alt: nat, target: nat, nr: nat, handler: Handler)
    requires alt !in handlers && forall k :: k in routes ==> routes[k] in handlers
    ensures var routes', handlers' := routes[(target, nr) := alt], handlers[alt := handler];
            && ReachedIn(routes', handlers', target, nr) == Some(handler)
            && (forall c, n :: c != target || n != nr ==>
                  ReachedIn(routes', handlers', c, n) == ReachedIn(routes, handlers, c, n))
            && Reaches(routes', handlers') == Reaches(routes, handlers)[(target, nr) := handler]
  {
    var routes', handlers' := routes[(target, nr) := alt], handlers[alt := handler];
    assert (target, nr) in routes';
    forall c, n | c != target || n != nr
      ensures ReachedIn(routes', handlers', c, n) == ReachedIn(routes, handlers, c, n)
    {
      assert (c, n) != (target, nr);
    }
    assert Reaches(routes', handlers') == Reaches(routes, handlers)[(target, nr) := handler];
  }

  /** A route set for the cage itself leads to its most recent handler unless one was registered since. */
  lemma RouteIsLatest(routes: map<Key, nat>, origins: map<nat, Origin>, handlers: map<nat, Handler>,
                      requests: seq<Request>, next: nat, k: Key)
    requires AltsOk(origins, handlers, requests, next) && RoutesOk(routes, origins) && k in routes
    requires origins[routes[k]].target == k.0
    requires forall i :: origins[routes[k]].seen <= i < |requests| ==>
               requests[i].target != k.0 || requests[i].nr != k.1
    ensures ReachedIn(routes, handlers, k.0, k.1) == Latest(requests, k.0, k.1)
  {
    LatestUnchanged(requests, origins[routes[k]].seen, k.0, k.1);
  }

  /** Every route of the parent is also the child's. */
  ghost function Copied<V>(routes: map<Key, V>, parent: nat, child: nat): map<Key, V> {
    map k | k in routes.Keys + ChildKeys(routes, parent, child) ::
      if k.0 == child && (parent, k.1) in routes then routes[(parent, k.1)] else routes[k]
  }

  ghost function ChildKeys<V>(routes: map<Key, V>, parent: nat, child: nat): set<Key> {
    set k | k in routes && k.0 == parent :: (child, k.1)
  }

  lemma CopiedAt<V>(routes: map<Key, V>, parent: nat, child: nat, k: Key)
    ensures var copied := Copied(routes, parent, child);
            if k.0 == child && (parent, k.1) in routes then k in copied && copied[k] == routes[(parent, k.1)]
            else (k in copied <==> k in routes) && (k in routes ==> copied[k] == routes[k])
  {
    assert k in ChildKeys(routes, parent, child) <==> k.0 == child && (parent, k.1) in routes;
  }

  /** A copied route leads where the parent's does, and the others where they did. */
  lemma CopiedReaches(routes: map<Key, nat>, handlers: map<nat, Handler>, parent: nat, child: nat, c: nat, n: nat)
    ensures ReachedIn(Copied(routes, parent, child), handlers, c, n)
            == if c == child && (parent, n) in routes then ReachedIn(routes, handlers, parent, n)
               else ReachedIn(routes, handlers, c, n)
  {
    hide Copied;
    CopiedAt(routes, parent, child, (c, n));
  }

  lemma CopiedOk(routes: map<Key, nat>, origins: map<nat, Origin>, handlers: map<nat, Handler>, parent: nat, child: nat)
    requires RoutesOk(routes, origins) && origins.Keys == handlers.Keys
    ensures RoutesOk(Copied(routes, parent, child), origins)
    ensures Reaches(Copied(routes, parent, child), handlers) == Copied(Reaches(routes, handlers), parent, child)
  {
    hide Copied;
    var copied := Copied(routes, parent, child);
    forall k | k in copied ensures copied[k] in origins && origins[copied[k]].nr == k.1 {
      CopiedAt(routes, parent, child, k);
    }
    CopiedMeaning(routes, handlers, parent, child);
  }

  lemma CopiedMeaning(routes: map<Key, nat>, handlers: map<nat, Handler>, parent: nat, child: nat)
    requires forall k :: k in routes ==> routes[k] in handlers
    ensures Reaches(Copied(routes, parent, child), handlers) == Copied(Reaches(routes, handlers), parent, child)
  {
    hide Copied;
    var l, r := Reaches(Copied(routes, parent, child), handlers), Copied(Reaches(routes, handlers), parent, child);
    forall k ensures (k in l <==> k in r) && (k in l ==> l[k] == r[k]) {
      CopiedAt(routes, parent, child, k);
      CopiedAt(Reaches(routes, handlers), parent, child, k);
    }
    assert l == r;
  }

  /** Two routes share a number only for the same call, whatever the cages. */
  lemma OneCallPerNumber(routes: map<Key, nat>, origins: map<nat, Origin>, handlers: map<nat, Handler>,
                         requests: seq<Request>, next: nat, k: Key, l: Key)
    requires AltsOk(origins, handlers, requests, next) && RoutesOk(routes, origins) && k in routes && l in routes
    ensures FIRST_ALT <= routes[k] < next && routes[k] in handlers && (routes[k] == routes[l] ==> k.1 == l.1)
  {
    assert routes[k] in origins;
  }

  /** A call of the boundary's list, with what the runtime replied to its two registrations. */
  datatype Asked = Asked(nr: nat, alt: int, visible: bool)

  datatype ClampOp =
    | RegisterCall(target: nat, nr: nat, handler: Handler, reply: int)
    | BoundaryCall(target: nat, calls: seq<Asked>, defaults: bool)
    | ClampCall(cage: nat)
    | ForkCall(parent: nat, child: nat)
    | ExitCall(cage: nat)

  /** What the tables mean: no numbers, only what each call reaches. */
  datatype Routing = Routing(reaches: map<Key, Handler>, requests: seq<Request>, clamped: set<nat>)

  predicate Asks(calls: seq<Asked>, nr: nat) {
    exists i :: 0 <= i < |calls| && calls[i].nr == nr
  }

  /** The calls that have a request reach it, one by one until the runtime refuses a registration. */
  ghost function Rewire(reaches: map<Key, Handler>, requests: seq<Request>, target: nat, calls: seq<Asked>)
    : (map<Key, Handler>, int)
    decreases |calls|
  {
    if calls == [] then (reaches, 0)
    else
      var q, h := calls[0], Latest(requests, target, calls[0].nr);
      if h.Some? && q.alt != 0 then (reaches, q.alt)
      else
        var reaches' := if h.Some? then reaches[(target, q.nr) := h.value] else reaches;
        if !q.visible then (reaches', -1) else Rewire(reaches', requests, target, calls[1..])
  }

  /** One operation on the meaning of the tables. */
  ghost function After(s: Routing, op: ClampOp): (Routing, int) {
    match op
    case RegisterCall(target, nr, handler, reply) =>
      (s.(requests := s.requests + [Request(target, nr, handler)]), reply)
    case BoundaryCall(target, calls, defaults) =>
      var r := Rewire(s.reaches, s.requests, target, calls);
      (s.(reaches := r.0, clamped := s.clamped - {target}), if r.1 == 0 && !defaults then -1 else r.1)
    case ClampCall(cage) => (s.(clamped := s.clamped + {cage}), 0)
    case ForkCall(parent, child) =>
      (if parent in s.clamped then s.(reaches := Copied(s.reaches, parent, child)) else s, 0)
    case ExitCall(cage) =>
      (s.(reaches := map k | k in s.reaches && k.0 != cage :: s.reaches[k], clamped := s.clamped - {cage}), 0)
  }

  /** The meaning after the first `n` operations of a run. */
  ghost function RoutingAt(s: Routing, ops: seq<ClampOp>, n: nat): Routing
    requires n <= |ops|
  {
    if n == 0 then s else After(RoutingAt(s, ops, n - 1), ops[n - 1]).0
  }

  /** The call reaches its most recent handler. */
  ghost predicate Current(s: Routing, k: Key) {
    k in s.reaches && Latest(s.requests, k.0, k.1) == Some(s.reaches[k])
  }

  /** Only the boundary's own calls move, and those only to their most recent handler. */
  lemma {:induction false} RewireOnlyAsked(reaches: map<Key, Handler>, requests: seq<Request>, target: nat,
                                           calls: seq<Asked>, k: Key)
    ensures var reaches' := Rewire(reaches, requests, target, calls).0;
            || ((k in reaches' <==> k in reaches) && (k in reaches ==> reaches'[k] == reaches[k]))
            || (k.0 == target && Asks(calls, k.1) && k in reaches' && Latest(requests, k.0, k.1) == Some(reaches'[k]))
    ensures k in reaches && Latest(requests, k.0, k.1) == Some(reaches[k]) ==>
              var reaches' := Rewire(reaches, requests, target, calls).0; k in reaches' && reaches'[k] == reaches[k]
    decreases |calls|
  {
    hide Latest;
    if calls != [] {
      var q, h := calls[0], Latest(requests, target, calls[0].nr);
      var reaches' := if h.Some? then reaches[(target, q.nr) := h.value] else reaches;
      RewireOnlyAsked(reaches', requests, target, calls[1..], k);
      assert Asks(calls, q.nr);
      if i :| 0 <= i < |calls[1..]| && calls[1..][i].nr == k.1 {
        assert calls[i + 1].nr == k.1;
      }
    }
  }

  /** No refusal: every call of the list with a request reaches it. */
  lemma {:induction false} RewireReachesLatest(reaches: map<Key, Handler>, requests: seq<Request>, target: nat,
                                               calls: seq<Asked>, nr: nat)
    requires Rewire(reaches, requests, target, calls).1 == 0 && Asks(calls, nr) && Latest(requests, target, nr).Some?
    ensures var reaches' := Rewire(reaches, requests, target, calls).0;
            (target, nr) in reaches' && Latest(requests, target, nr) == Some(reaches'[(target, nr)])
    decreases |calls|
  {
    hide Latest;
    var q, h := calls[0], Latest(requests, target, calls[0].nr);
    var reaches' := if h.Some? then reaches[(target, q.nr) := h.value] else reaches;
    if q.nr == nr {
      RewireOnlyAsked(reaches', requests, target, calls[1..], (target, nr));
    } else {
      var i :| 0 <= i < |calls| && calls[i].nr == nr;
      assert calls[1..][i - 1].nr == nr;
      RewireReachesLatest(reaches', requests, target, calls[1..], nr);
    }
  }

  /** The boundary refuses exactly when a registration was refused. */
  lemma {:induction false} RewireRefuses(reaches: map<Key, Handler>, requests: seq<Request>, target: nat,
                                         calls: seq<Asked>)
    ensures Rewire(reaches, requests, target, calls).1 == 0 <==>
              forall i :: 0 <= i < |calls| ==>
                calls[i].visible && (Latest(requests, target, calls[i].nr).Some? ==> calls[i].alt == 0)
    decreases |calls|
  {
    hide Latest;
    if calls != [] {
      var q, h := calls[0], Latest(requests, target, calls[0].nr);
      var reaches' := if h.Some? then reaches[(target, q.nr) := h.value] else reaches;
      RewireRefuses(reaches', requests, target, calls[1..]);
      assert forall i :: 1 <= i < |calls| ==> calls[i] == calls[1..][i - 1];
      if forall i :: 0 <= i < |calls[1..]| ==>
           calls[1..][i].visible && (Latest(requests, target, calls[1..][i].nr).Some? ==> calls[1..][i].alt == 0)
      {
        assert forall i :: 1 <= i < |calls| ==>
                 calls[i].visible && (Latest(requests, target, calls[i].nr).Some? ==> calls[i].alt == 0);
      }
    }
  }

  lemma AsksNone(calls: seq<Asked>)
    ensures forall nr :: !Asks(calls[..0], nr)
  {
  }

  lemma AsksMore(calls: seq<Asked>, i: nat)
    requires i < |calls|
    ensures forall nr :: Asks(calls[..i + 1], nr) <==> Asks(calls[..i], nr) || nr == calls[i].nr
    ensures forall nr :: Asks(calls[..i], nr) ==> Asks(calls, nr)
    ensures Asks(calls, calls[i].nr)
  {
    forall nr | Asks(calls[..i], nr) ensures Asks(calls, nr) {
      var j :| 0 <= j < i && calls[..i][j].nr == nr;
      assert calls[j].nr == nr;
    }
    forall nr ensures Asks(calls[..i + 1], nr) <==> Asks(calls[..i], nr) || nr == calls[i].nr {
      if Asks(calls[..i], nr) {
        var j :| 0 <= j < i && calls[..i][j].nr == nr;
        assert calls[..i + 1][j].nr == nr;
      }
      assert calls[..i + 1][i] == calls[i];
      if Asks(calls[..i + 1], nr) && nr != calls[i].nr {
        var j :| 0 <= j < i + 1 && calls[..i + 1][j].nr == nr;
        assert calls[..i][j].nr == nr;
      }
    }
  }

  lemma KeysOf(origins: map<nat, Origin>, handlers: map<nat, Handler>, requests: seq<Request>, next: nat)
    requires AltsOk(origins, handlers, requests, next)
    ensures origins.Keys == handlers.Keys
  {
  }

  /** The first registration the runtime refused decides the answer: its reply, or -1 for the visible one. */
  lemma {:induction false} RewireCode(reaches: map<Key, Handler>, requests: seq<Request>, target: nat,
                                      calls: seq<Asked>, i: nat)
    requires i < |calls|
    requires forall j :: 0 <= j < i ==>
               calls[j].visible && (Latest(requests, target, calls[j].nr).Some? ==> calls[j].alt == 0)
    ensures var r := Rewire(reaches, requests, target, calls).1;
            && (Latest(requests, target, calls[i].nr).Some? && calls[i].alt != 0 ==> r == calls[i].alt)
            && (!(Latest(requests, target, calls[i].nr).Some? && calls[i].alt != 0) && !calls[i].visible ==> r == -1)
    decreases i
  {
    hide Latest;
    if i > 0 {
      var q, h := calls[0], Latest(requests, target, calls[0].nr);
      var reaches' := if h.Some? then reaches[(target, q.nr) := h.value] else reaches;
      assert calls[0].visible && forall j :: 0 <= j < i - 1 ==> calls[1..][j] == calls[j + 1];
      RewireCode(reaches', requests, target, calls[1..], i - 1);
    }
  }

  /** A cage is inside the clamp from its entry to the boundary or its exit. */
  predicate Inside(was: bool, ops: seq<ClampOp>, cage: nat) {
    if ops == [] then was
    else
      var last := ops[|ops| - 1];
      if last == ClampCall(cage) then true
      else if last == ExitCall(cage) || (last.BoundaryCall? && last.target == cage) then false
      else Inside(was, ops[..|ops| - 1], cage)
  }

  lemma {:induction false} ClampedExactly(s: Routing, ops: seq<ClampOp>, n: nat, cage: nat)
    requires n <= |ops|
    ensures cage in RoutingAt(s, ops, n).clamped <==> Inside(cage in s.clamped, ops[..n], cage)
  {
    if n > 0 {
      ClampedExactly(s, ops, n - 1, cage);
      assert ops[..n][..n - 1] == ops[..n - 1];
    }
  }

  /** fork() and exit() in terms of single calls. */
  lemma TablesAfter(s: Routing, op: ClampOp, k: Key)
    requires op.ForkCall? || op.ExitCall?
    ensures var t := After(s, op).0;
            && t.requests == s.requests
            && (op.ExitCall? ==>
                  && (k in t.reaches <==> k in s.reaches && k.0 != op.cage)
                  && (k in t.reaches ==> t.reaches[k] == s.reaches[k]))
            && (op.ForkCall? ==>
                  if op.parent in s.clamped && k.0 == op.child && (op.parent, k.1) in s.reaches then
                    k in t.reaches && t.reaches[k] == s.reaches[(op.parent, k.1)]
                  else (k in t.reaches <==> k in s.reaches) && (k in s.reaches ==> t.reaches[k] == s.reaches[k]))
  {
    if op.ForkCall? {
      CopiedAt(s.reaches, op.parent, op.child, k);
    }
  }

  /** The operation takes the call's route away, or makes another handler its most recent one. */
  predicate Replaces(s: Routing, op: ClampOp, k: Key) {
    match op
    case RegisterCall(target, nr, _, _) => (target, nr) == k
    case ForkCall(parent, child) => child == k.0 && parent in s.clamped && (parent, k.1) in s.reaches
    case ExitCall(cage) => cage == k.0
    case _ => false
  }

  /** A boundary that was not refused and had the call on its list, when a handler was requested for it. */
  ghost predicate SetsRoute(s: Routing, op: ClampOp, r: int, k: Key) {
    op.BoundaryCall? && op.target == k.0 && Asks(op.calls, k.1) && r == 0 && Latest(s.requests, k.0, k.1).Some?
  }

  lemma LatestAfter(requests: seq<Request>, q: Request, target: nat, nr: nat)
    ensures Latest(requests + [q], target, nr)
            == if (q.target, q.nr) == (target, nr) then Some(q.handler) else Latest(requests, target, nr)
  {
    assert (requests + [q])[..|requests|] == requests;
  }

  /** What is current after an operation that replaces nothing: what was, and what a boundary sets. */
  lemma CurrentAfter(s: Routing, op: ClampOp, k: Key)
    requires !Replaces(s, op, k)
    ensures Current(s, k) || SetsRoute(s, op, After(s, op).1, k) ==> Current(After(s, op).0, k)
    ensures Current(After(s, op).0, k) ==>
              Current(s, k) || (op.BoundaryCall? && op.target == k.0 && Asks(op.calls, k.1))
  {
    hide Latest, Rewire, Copied;
    match op
    case RegisterCall(target, nr, handler, _) => LatestAfter(s.requests, Request(target, nr, handler), k.0, k.1);
    case BoundaryCall(target, calls, defaults) =>
      RewireOnlyAsked(s.reaches, s.requests, target, calls, k);
      if SetsRoute(s, op, After(s, op).1, k) {
        RewireReachesLatest(s.reaches, s.requests, target, calls, k.1);
      }
    case ForkCall(parent, child) => CopiedAt(s.reaches, parent, child, k);
    case _ =>
  }

  /** After an operation that does replace the route: the same handler again, or nothing current. */
  lemma CurrentReplaced(s: Routing, op: ClampOp, k: Key)
    requires Replaces(s, op, k)
    ensures Current(After(s, op).0, k) <==>
            match op
            case RegisterCall(_, _, handler, _) => k in s.reaches && s.reaches[k] == handler
            case ForkCall(parent, _) => Latest(s.requests, k.0, k.1) == Some(s.reaches[(parent, k.1)])
            case _ => false
  {
    hide Latest, Copied;
    match op
    case RegisterCall(target, nr, handler, _) => LatestAfter(s.requests, Request(target, nr, handler), k.0, k.1);
    case ForkCall(parent, child) => CopiedAt(s.reaches, parent, child, k);
    case _ =>
  }

  /** The boundary at `i` set the call's route and nothing later in the run replaced it. */
  ghost predicate SetAndKept(s: Routing, ops: seq<ClampOp>, results: seq<int>, i: int, k: Key)
    requires |results| == |ops|
  {
    && 0 <= i < |ops| && SetsRoute(RoutingAt(s, ops, i), ops[i], results[i], k)
    && forall j: nat :: i < j < |ops| ==> !Replaces(RoutingAt(s, ops, j), ops[j], k)
  }

  lemma {:induction false} StaysCurrent(s: Routing, ops: seq<ClampOp>, i: nat, n: nat, k: Key)
    requires i <= n <= |ops| && Current(RoutingAt(s, ops, i), k)
    requires forall j: nat :: i <= j < n ==> !Replaces(RoutingAt(s, ops, j), ops[j], k)
    ensures Current(RoutingAt(s, ops, n), k)
    decreases n
  {
    hide Current, Replaces, After;
    if i < n {
      StaysCurrent(s, ops, i, n - 1, k);
      CurrentAfter(RoutingAt(s, ops, n - 1), ops[n - 1], k);
    }
  }

  lemma SetIsCurrent(s: Routing, ops: seq<ClampOp>, results: seq<int>, i: int, k: Key)
    requires |results| == |ops| && SetAndKept(s, ops, results, i, k)
    requires results[i] == After(RoutingAt(s, ops, i), ops[i]).1
    ensures Current(RoutingAt(s, ops, |ops|), k)
  {
    hide Current, After;
    CurrentAfter(RoutingAt(s, ops, i), ops[i], k);
    StaysCurrent(s, ops, i + 1, |ops|, k);
  }

  lemma SetAreReached(s: Routing, ops: seq<ClampOp>, results: seq<int>, routes: map<Key, nat>,
                      handlers: map<nat, Handler>)
    requires |results| == |ops| && RoutingAt(s, ops, |ops|).reaches == Reaches(routes, handlers)
    requires forall i: nat :: i < |ops| ==> results[i] == After(RoutingAt(s, ops, i), ops[i]).1
    ensures var requests := RoutingAt(s, ops, |ops|).requests;
            forall i, k :: SetAndKept(s, ops, results, i, k) ==>
              ReachedIn(routes, handlers, k.0, k.1) == Latest(requests, k.0, k.1) != None
  {
    hide After, RoutingAt, SetsRoute, Replaces, Latest;
    forall i, k | SetAndKept(s, ops, results, i, k)
      ensures ReachedIn(routes, handlers, k.0, k.1) == Latest(RoutingAt(s, ops, |ops|).requests, k.0, k.1) != None
    {
      SetIsCurrent(s, ops, results, i, k);
      assert k == (k.0, k.1);
    }
  }

  lemma RoutingStart(s: Routing, ops: seq<ClampOp>)
    ensures RoutingAt(s, ops, 0) == s
  {
  }

  lemma RoutingNext(s: Routing, ops: seq<ClampOp>, i: nat)
    requires i < |ops|
    ensures RoutingAt(s, ops, i + 1) == After(RoutingAt(s, ops, i), ops[i]).0
  {
    hide After;
  }

  lemma NumbersApart(routes: map<Key, nat>, origins: map<nat, Origin>, handlers: map<nat, Handler>,
                     requests: seq<Request>, next: nat)
    requires AltsOk(origins, handlers, requests, next) && RoutesOk(routes, origins)
    ensures forall k, l :: k in routes && l in routes ==>
              FIRST_ALT <= routes[k] < next && routes[k] in handlers && (routes[k] == routes[l] ==> k.1 == l.1)
  {
    hide AltsOk, RoutesOk;
    forall k, l | k in routes && l in routes
      ensures FIRST_ALT <= routes[k] < next && routes[k] in handlers && (routes[k] == routes[l] ==> k.1 == l.1)
    {
      OneCallPerNumber(routes, origins, handlers, requests, next, k, l);
    }
  }

  class ClampState {
    var routes: map<Key, nat>
    var nextAlt: nat
    var requests: seq<Request>
    var clamped: set<nat>
    var handlers: map<nat, Handler>
    ghost var origins: map<nat, Origin>

    ghost predicate Valid()
      reads this
    {
      AltsOk(origins, handlers, requests, nextAlt) && RoutesOk(routes, origins)
    }

    /** What the tables mean. */
    ghost function Meaning(): Routing
      reads this
    {
      Routing(Reaches(routes, handlers), requests, clamped)
    }

    constructor ()
      ensures Valid() && Meaning() == Routing(map[], [], {})
    {
      routes, nextAlt, requests, clamped := map[], FIRST_ALT, [], {};
      handlers, origins := map[], map[];
    }

    /** register_handler() by an inner grate: recorded, then passed on; `reply` is what the runtime answers. */
    method Register(target: nat, nr: nat, handler: Handler, reply: int) returns (r: int)
      requires Valid()
      modifies this`requests
      ensures Valid() && requests == old(requests) + [Request(target, nr, handler)]
      ensures Latest(requests, target, nr) == Some(handler) && r == reply
    {
      hide RoutesOk, ReachedIn;
      requests := requests + [Request(target, nr, handler)];
      assert forall n: nat :: n <= |old(requests)| ==> requests[..n] == old(requests)[..n];
      return reply;
    }

    method FindRequest(target: nat, nr: nat) returns (h: Option<Handler>)
      ensures h == Latest(requests, target, nr)
    {
      var i := |requests|;
      assert requests[..i] == requests;
      while i > 0
        invariant 0 <= i <= |requests| && Latest(requests[..i], target, nr) == Latest(requests, target, nr)
      {
        i := i - 1;
        assert requests[..i + 1][..i] == requests[..i];
        if requests[i].target == target && requests[i].nr == nr {
          return Some(requests[i].handler);
        }
      }
      return None;
    }

    method AllocAlt() returns (alt: nat)
      modifies this`nextAlt
      ensures alt == old(nextAlt) && nextAlt == alt + 1
    {
      alt := nextAlt;
      nextAlt := nextAlt + 1;
    }

    /** Where a routed call ends up. */
    ghost function Reached(cage: nat, nr: nat): Option<Handler>
      reads this
    {
      ReachedIn(routes, handlers, cage, nr)
    }

    /** A number of its own for one clamped call of the target, unless the runtime refuses it. */
    method RouteCall(target: nat, nr: nat, handler: Handler, reply: int) returns (ok: bool)
      requires Valid() && Latest(requests, target, nr) == Some(handler)
      modifies this`routes, this`nextAlt, this`handlers, this`origins
      ensures Valid() && ok == (reply == 0)
      ensures Meaning().reaches
           == if ok then old(Meaning()).reaches[(target, nr) := handler] else old(Meaning()).reaches
      ensures ok ==> Reached(target, nr) == Some(handler)
      ensures forall c, n :: !ok || c != target || n != nr ==> Reached(c, n) == old(Reached(c, n))
    {
      hide ReachedIn, Latest, RoutesOk, Reaches;
      NewRoute(routes, origins, handlers, requests, nextAlt, target, nr, handler);
      var alt := AllocAlt();
      if reply != 0 {
        return false;
      }
      handlers := handlers[alt := handler];
      origins := origins[alt := Origin(target, nr, |requests|)];
      routes := routes[(target, nr) := alt];
      return true;
    }

    /** After this the call is routed to its most recent handler if it has one, and as before if not. */
    ghost predicate RouteRenewed(target: nat, nr: nat, before: Option<Handler>)
      reads this
    {
      var h := Latest(requests, target, nr);
      Reached(target, nr) == if h.Some? then h else before
    }

    /** The clamp boundary: the target's calls are routed one by one, stopping at the first refusal. */
    method RegisterTarget(target: nat, calls: seq<Asked>, defaults: bool) returns (r: int)
      requires Valid()
      modifies this`routes, this`nextAlt, this`handlers, this`origins
      ensures Valid()
      ensures var s := Rewire(old(Meaning()).reaches, requests, target, calls);
              Meaning().reaches == s.0 && r == if s.1 == 0 && !defaults then -1 else s.1
      ensures forall c, nr :: c != target || !Asks(calls, nr) ==> Reached(c, nr) == old(Reached(c, nr))
      ensures r == 0 <==> defaults && forall i :: 0 <= i < |calls| ==>
                calls[i].visible && (Latest(requests, target, calls[i].nr).Some? ==> calls[i].alt == 0)
      ensures r == 0 ==> forall nr :: Asks(calls, nr) ==> RouteRenewed(target, nr, old(Reached(target, nr)))
    {
      hide Reached, Latest, AltsOk, RoutesOk, Reaches, Asks;
      RewireRefuses(Meaning().reaches, requests, target, calls);
      AsksNone(calls);
      for i := 0 to |calls|
        invariant Valid()
        invariant Rewire(old(Meaning()).reaches, requests, target, calls)
               == Rewire(Meaning().reaches, requests, target, calls[i..])
        invariant forall c, nr :: c != target || !Asks(calls[..i], nr) ==> Reached(c, nr) == old(Reached(c, nr))
        invariant forall nr :: Asks(calls[..i], nr) ==> RouteRenewed(target, nr, old(Reached(target, nr)))
      {
        var nr := calls[i].nr;
        AsksMore(calls, i);
        assert calls[i..][1..] == calls[i + 1..];
        var h := FindRequest(target, nr);
        if h.Some? {
          var ok := RouteCall(target, nr, h.value, calls[i].alt);
          if !ok {
            return calls[i].alt;
          }
        }
        if !calls[i].visible {
          return -1;
        }
      }
      assert calls[..|calls|] == calls;
      return if defaults then 0 else -1;
    }

    method CloneRoutes(parent: nat, child: nat)
      modifies this`routes
      ensures routes == Copied(old(routes), parent, child)
    {
      var mine := set k | k in routes && k.0 == parent;
      ghost var start := routes;
      var todo := mine;
      while todo != {}
        invariant todo <= mine
        invariant forall k :: k in start && k.0 != child ==> k in routes && routes[k] == start[k]
        invariant forall k :: k in routes && k.0 != child ==> k in start
        invariant forall n :: (child, n) in routes
                    <==> (child, n) in start || ((parent, n) in mine && (parent, n) !in todo)
        invariant forall n :: (child, n) in routes ==>
                    routes[(child, n)] == if (parent, n) in mine && (parent, n) !in todo then start[(parent, n)]
                                          else start[(child, n)]
      {
        var k :| k in todo;
        routes := routes[(child, k.1) := routes[k]];
        todo := todo - {k};
      }
    }

    /** fork() of a cage; only inside the clamp does the child get routes. */
    method Fork(parent: nat, child: nat)
      requires Valid()
      modifies this`routes
      ensures Valid() && routes == if parent in clamped then Copied(old(routes), parent, child) else old(routes)
      ensures Meaning() == After(old(Meaning()), ForkCall(parent, child)).0
      ensures parent in clamped ==> forall n: nat ::
                Reached(child, n) == old(if (parent, n) in routes then Reached(parent, n) else Reached(child, n))
    {
      hide AltsOk, RoutesOk, ReachedIn, Copied, Reaches;
      if parent !in clamped {
        return;
      }
      assert origins.Keys == handlers.Keys by {
        KeysOf(origins, handlers, requests, nextAlt);
      }
      CopiedOk(routes, origins, handlers, parent, child);
      forall n: nat ensures ReachedIn(Copied(routes, parent, child), handlers, child, n)
                       == if (parent, n) in routes then ReachedIn(routes, handlers, parent, n)
                          else ReachedIn(routes, handlers, child, n)
      {
        CopiedReaches(routes, handlers, parent, child, child, n);
      }
      CloneRoutes(parent, child);
    }

    /** exit() of a cage: its routes go and nobody else's. */
    method Exit(cage: nat)
      requires Valid()
      modifies this`routes, this`clamped
      ensures Valid() && Meaning() == After(old(Meaning()), ExitCall(cage)).0
      ensures forall c: nat, n: nat :: Reached(c, n) == if c == cage then None else old(Reached(c, n))
    {
      hide AltsOk, Latest;
      ghost var before := routes;
      routes := map k | k in routes && k.0 != cage :: routes[k];
      clamped := clamped - {cage};
      forall c: nat, n: nat
        ensures ReachedIn(routes, handlers, c, n) == if c == cage then None else ReachedIn(before, handlers, c, n)
      {
        assert (c, n) in routes <==> (c, n) in before && c != cage;
      }
    }

    method Step(op: ClampOp) returns (r: int)
      requires Valid()
      modifies this
      ensures Valid() && (Meaning(), r) == After(old(Meaning()), op)
    {
      hide AltsOk, RoutesOk, Reaches, Latest, Rewire;
      r := 0;
      match op
      case RegisterCall(target, nr, handler, reply) => r := Register(target, nr, handler, reply);
      case BoundaryCall(target, calls, defaults) =>
        r := RegisterTarget(target, calls, defaults);
        clamped := clamped - {target};
      case ClampCall(cage) => clamped := clamped + {cage};
      case ForkCall(parent, child) => Fork(parent, child);
      case ExitCall(cage) => Exit(cage);
    }

    /**
     Any run does to the meaning of the tables what its operations do, each with its result.
     Every routed number is below the allocator, has a handler and belongs to one call across
     all cages; and a route set at a boundary leads to the most recent handler unless a later
     operation of the run replaced one of the two.
     */
    method Run(ops: seq<ClampOp>) returns (results: seq<int>)
      requires Valid()
      modifies this
      ensures Valid() && |results| == |ops| && Meaning() == RoutingAt(old(Meaning()), ops, |ops|)
      ensures forall i: nat :: i < |ops| ==> results[i] == After(RoutingAt(old(Meaning()), ops, i), ops[i]).1
      ensures forall k, l :: k in routes && l in routes ==>
                FIRST_ALT <= routes[k] < nextAlt && routes[k] in handlers && (routes[k] == routes[l] ==> k.1 == l.1)
      ensures forall i, k :: SetAndKept(old(Meaning()), ops, results, i, k) ==>
                Reached(k.0, k.1) == Latest(requests, k.0, k.1) != None
    {
      hide AltsOk, RoutesOk, Reaches, After, RoutingAt, SetAndKept, Latest, ReachedIn;
      ghost var s := Meaning();
      assert Meaning() == RoutingAt(s, ops, 0) by {
        RoutingStart(s, ops);
      }
      results := [];
      for i := 0 to |ops|
        invariant Valid() && |results| == i && Meaning() == RoutingAt(s, ops, i)
        invariant forall j: nat :: j < i ==> results[j] == After(RoutingAt(s, ops, j), ops[j]).1
      {
        RoutingNext(s, ops, i);
        var r := Step(ops[i]);
        results := results + [r];
      }
      NumbersApart(routes, origins, handlers, requests, nextAlt);
      SetAreReached(s, ops, results, routes, handlers);
    }
  }
}
