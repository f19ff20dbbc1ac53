/**
 The resource grate's accounting. Time is real-valued and read from outside: the readings of
 one call are a list that never decreases, and a call that uses them up is still waiting.
 */
module Nannies {

  ghost predicate Monotone(clock: seq<real>) {
    forall i, j :: 0 <= i <= j < |clock| ==> clock[i] <= clock[j]
  }

  /** What is left of the consumption after some time. */
  function Drained(consumed: real, elapsed: real, rate: real): (c: real)
    ensures rate > 0.0 && elapsed >= 0.0 && consumed >= 0.0 ==> 0.0 <= c <= consumed && c >= consumed - elapsed * rate
  {
    if consumed - elapsed * rate < 0.0 then 0.0 else consumed - elapsed * rate
  }

  lemma OverBudget(consumed: real, rate: real, elapsed: real)
    requires rate > 0.0 && consumed > rate && elapsed >= (consumed - rate) / rate
    ensures elapsed * rate >= consumed - rate
  {
    var sleep := (consumed - rate) / rate;
    assert sleep * rate == consumed - rate;
    assert (elapsed - sleep) * rate >= 0.0;
  }

  lemma SleepBound(consumed: real, quantity: real, rate: real)
    requires rate > 0.0 && consumed <= rate
    ensures (consumed + quantity - rate) / rate <= quantity / rate
  {
    var a, b := (consumed + quantity - rate) / rate, quantity / rate;
    assert a * rate == consumed + quantity - rate && b * rate == quantity;
    assert (b - a) * rate == rate - consumed;
  }

  lemma Spread(rate: real, a: real, b: real)
    ensures rate * a + rate * b == rate * (a + b)
  {
  }

  /** Charging `q` took the consumption from `c1` to `c2`: at most the time's worth has drained. */
  ghost predicate Paid(rate: real, q: real, c1: real, c2: real, t1: real, t2: real) {
    c2 >= c1 + q - rate * (t2 - t1)
  }

  /** `total` was charged between two moments. */
  ghost predicate Balanced(rate: real, total: real, c0: real, c1: real, t0: real, t1: real) {
    total <= c1 - c0 + rate * (t1 - t0)
  }

  /** One more call in the balance. */
  lemma Balance(rate: real, total: real, q: real, c0: real, c1: real, c2: real, t0: real, t1: real, t2: real)
    requires Balanced(rate, total, c0, c1, t0, t1) && Paid(rate, q, c1, c2, t1, t2)
    ensures Balanced(rate, total + q, c0, c2, t0, t2)
  {
    Spread(rate, t1 - t0, t2 - t1);
    assert (t1 - t0) + (t2 - t1) == t2 - t0;
  }

  lemma NothingCharged(rate: real, c: real, t: real)
    ensures Balanced(rate, 0.0, c, c, t, t)
  {
  }

  lemma Bounded(rate: real, total: real, c0: real, c1: real, t0: real, t1: real)
    requires Balanced(rate, total, c0, c1, t0, t1) && c0 >= 0.0 && c1 <= rate
    ensures total <= rate * (t1 - t0 + 1.0)
  {
    Spread(rate, t1 - t0, 1.0);
  }

  function Sum(xs: seq<real>): real {
    if xs == [] then 0.0 else Sum(xs[..|xs| - 1]) + xs[|xs| - 1]
  }

  /** The readings of consecutive calls. */
  ghost predicate Successive(clocks: seq<seq<real>>, start: real) {
    && (forall i :: 0 <= i < |clocks| ==> clocks[i] != [] && Monotone(clocks[i]))
    && (forall i, x :: 0 <= i < |clocks| && x in clocks[i] ==> x >= start)
    && (forall i, j, x, y :: 0 <= i < j < |clocks| && x in clocks[i] && y in clocks[j] ==> x <= y)
  }

  // ------------------------------------------------------------------
  // One call, and calls in a row
  // ------------------------------------------------------------------

  datatype Bucket = Bucket(consumed: real, lastUpdate: real)

  /** A bucket between calls. */
  ghost predicate Level(rate: real, b: Bucket) {
    rate > 0.0 && 0.0 <= b.consumed <= rate
  }

  /** A sleep that begins with reading `from` is over at reading `k` and not before. */
  ghost predicate WakesAt(clock: seq<real>, from: nat, dur: real, k: nat) {
    && from < k < |clock| && clock[k] >= clock[from] + dur
    && forall j :: from < j < k ==> clock[j] < clock[from] + dur
  }

  /** The consumption a call starts from, its own quantity included. */
  function Over(rate: real, b: Bucket, q: real, clock: seq<real>): real
    requires clock != []
  {
    Drained(b.consumed, clock[0] - b.lastUpdate, rate) + q
  }

  /** How long a call over budget sleeps. */
  function Pause(rate: real, over: real): real
    requires rate > 0.0
  {
    if over > rate then (over - rate) / rate else 0.0
  }

  /** What is left of `c` when the rate times the time has drained, and nothing if that is more. */
  function Left(c: real, rate: real, time: real): real {
    if rate * time >= c then 0.0 else c - rate * time
  }

  /** Exactly the rate times the time drains, down to nothing and no further. */
  lemma DrainedMeans(consumed: real, elapsed: real, rate: real)
    requires consumed >= 0.0
    ensures Drained(consumed, elapsed, rate) == Left(consumed, rate, elapsed)
  {
    assert elapsed * rate == rate * elapsed;
  }

  /**
   One call in plain numbers, from the consumption, the rate and the clock. Within the budget
   it finishes at once and does not sleep; over it the sleep is the excess over the rate.
   */
  ghost predicate ChargePlain(rate: real, b: Bucket, q: real, clock: seq<real>, finished: bool, slept: real, b': Bucket)
    requires rate > 0.0 && clock != []
  {
    var over := Left(b.consumed, rate, clock[0] - b.lastUpdate) + q;
    if over <= rate then finished && slept == 0.0 && b' == Bucket(over, clock[0])
    else slept == (over - rate) / rate && (finished ==> Slept(rate, over, clock, slept, b'.consumed, b'.lastUpdate))
  }

  /** A reading that comes after the sleep, and what has drained by then. */
  ghost predicate Slept(rate: real, over: real, clock: seq<real>, slept: real, left: real, now: real)
    requires clock != []
  {
    now in clock && now >= clock[0] + slept && left == Left(over, rate, now - clock[0])
  }

  lemma WakesPlain(rate: real, over: real, clock: seq<real>, slept: real, k: nat)
    requires over >= 0.0 && Monotone(clock) && WakesAt(clock, 1, slept, k) && k + 1 < |clock|
    ensures Slept(rate, over, clock, slept, Drained(over, clock[k + 1] - clock[0], rate), clock[k + 1])
  {
    hide Drained, Left;
    assert clock[k + 1] in clock && clock[0] <= clock[1] && clock[k] <= clock[k + 1];
    DrainedMeans(over, clock[k + 1] - clock[0], rate);
  }

  lemma OverPlain(rate: real, b: Bucket, q: real, clock: seq<real>)
    requires b.consumed >= 0.0 && clock != []
    ensures Over(rate, b, q, clock) == Left(b.consumed, rate, clock[0] - b.lastUpdate) + q
  {
    DrainedMeans(b.consumed, clock[0] - b.lastUpdate, rate);
  }

  lemma ChargedPlain(rate: real, b: Bucket, q: real, clock: seq<real>, b': Bucket)
    requires Level(rate, b) && q >= 0.0 && Monotone(clock) && clock != [] && clock[0] >= b.lastUpdate
    requires Charged(rate, b, q, clock, b')
    ensures ChargePlain(rate, b, q, clock, true, Pause(rate, Over(rate, b, q, clock)), b')
  {
    hide Drained, Left, Over, Slept, Monotone, WakesAt;
    var over := Over(rate, b, q, clock);
    OverPlain(rate, b, q, clock);
    if over > rate {
      var slept := Pause(rate, over);
      var k: nat :| WakesAt(clock, 1, slept, k) && k + 1 < |clock|
                    && b' == Bucket(Drained(over, clock[k + 1] - clock[0], rate), clock[k + 1]);
      WakesPlain(rate, over, clock, slept, k);
    }
  }

  lemma RunsOutPlain(rate: real, b: Bucket, q: real, clock: seq<real>, b': Bucket)
    requires Level(rate, b) && q >= 0.0 && clock != []
    requires RunsOut(rate, b, q, clock)
    ensures ChargePlain(rate, b, q, clock, false, Pause(rate, Over(rate, b, q, clock)), b')
  {
    hide Drained, Left, Over;
    OverPlain(rate, b, q, clock);
  }

  /** After a wait that drains everything, a charge up to the rate does not sleep and is all that is left. */
  lemma IdleForgives(rate: real, b: Bucket, q: real, clock: seq<real>, finished: bool, slept: real, b': Bucket)
    requires Level(rate, b) && 0.0 <= q <= rate && clock != []
    requires ChargePlain(rate, b, q, clock, finished, slept, b') && rate * (clock[0] - b.lastUpdate) >= b.consumed
    ensures finished && slept == 0.0 && b' == Bucket(q, clock[0])
  {
  }

  /** After a shorter wait exactly the rate times the time is gone. */
  lemma ShortWaitDrains(rate: real, b: Bucket, q: real, clock: seq<real>, finished: bool, slept: real, b': Bucket)
    requires Level(rate, b) && q >= 0.0 && clock != []
    requires ChargePlain(rate, b, q, clock, finished, slept, b') && rate * (clock[0] - b.lastUpdate) < b.consumed
    ensures var over := b.consumed - rate * (clock[0] - b.lastUpdate) + q;
            if over <= rate then finished && slept == 0.0 && b' == Bucket(over, clock[0])
            else slept == (over - rate) / rate
  {
  }

  /** Charges that the time since the last one is worth never sleep. */
  lemma SteadyNeverSleeps(rate: real, b: Bucket, q: real, clock: seq<real>, finished: bool, slept: real, b': Bucket)
    requires Level(rate, b) && 0.0 <= q <= rate && clock != []
    requires ChargePlain(rate, b, q, clock, finished, slept, b') && q <= rate * (clock[0] - b.lastUpdate)
    ensures finished && slept == 0.0
  {
  }

  lemma SteadyFinishes(rate: real, b: Bucket, q: real, clock: seq<real>)
    requires Level(rate, b) && q >= 0.0 && clock != [] && RunsOut(rate, b, q, clock)
    ensures q > rate || q > rate * (clock[0] - b.lastUpdate)
  {
    RunsOutPlain(rate, b, q, clock, b);
    if q <= rate && q <= rate * (clock[0] - b.lastUpdate) {
      SteadyNeverSleeps(rate, b, q, clock, false, Pause(rate, Over(rate, b, q, clock)), b);
      assert false;
    }
  }

  lemma PauseBound(rate: real, b: Bucket, q: real, clock: seq<real>)
    requires Level(rate, b) && q >= 0.0 && clock != [] && clock[0] >= b.lastUpdate
    ensures 0.0 <= Pause(rate, Over(rate, b, q, clock)) <= q / rate
  {
    var drained := Drained(b.consumed, clock[0] - b.lastUpdate, rate);
    SleepBound(drained, q, rate);
    assert q / rate >= 0.0;
  }

  /** The call finishes: at once within the budget, and else after its sleep and one more reading. */
  ghost predicate Charged(rate: real, b: Bucket, q: real, clock: seq<real>, b': Bucket)
    requires rate > 0.0 && clock != []
  {
    var over := Over(rate, b, q, clock);
    if over <= rate then b' == Bucket(over, clock[0])
    else exists k: nat :: WakesAt(clock, 1, Pause(rate, over), k) && k + 1 < |clock|
                          && b' == Bucket(Drained(over, clock[k + 1] - clock[0], rate), clock[k + 1])
  }

  /** The call is over budget and the clock has no reading past its sleep. */
  ghost predicate RunsOut(rate: real, b: Bucket, q: real, clock: seq<real>)
    requires rate > 0.0 && clock != []
  {
    var over := Over(rate, b, q, clock);
    over > rate && forall k: nat :: 1 < k && k + 1 < |clock| ==> clock[k] < clock[1] + Pause(rate, over)
  }

  lemma OverPaid(rate: real, consumed: real, q: real, t0: real, t1: real)
    requires rate > 0.0 && 0.0 <= consumed <= rate && q >= 0.0 && t0 <= t1
    ensures var over := Drained(consumed, t1 - t0, rate) + q;
            Paid(rate, q, consumed, over, t0, t1) && over >= 0.0
  {
    var worth := (t1 - t0) * rate;
    assert worth == rate * (t1 - t0);
  }

  lemma SleepPaid(rate: real, over: real, t1: real, t2: real)
    requires rate > 0.0 && over > rate && t2 - t1 >= (over - rate) / rate
    ensures var c := Drained(over, t2 - t1, rate); 0.0 <= c <= rate && Paid(rate, 0.0, over, c, t1, t2)
  {
    var worth := (t2 - t1) * rate;
    assert worth == rate * (t2 - t1);
    OverBudget(over, rate, t2 - t1);
  }

  lemma PaidTwice(rate: real, q: real, c0: real, c1: real, c2: real, t0: real, t1: real, t2: real)
    requires Paid(rate, q, c0, c1, t0, t1) && Paid(rate, 0.0, c1, c2, t1, t2)
    ensures Paid(rate, q, c0, c2, t0, t2)
  {
    Spread(rate, t1 - t0, t2 - t1);
    assert (t1 - t0) + (t2 - t1) == t2 - t0;
  }

  /** A finished call leaves the bucket at or below the rate and has drained at most the time's worth. */
  lemma ChargedPaid(rate: real, b: Bucket, q: real, clock: seq<real>, b': Bucket)
    requires Level(rate, b) && q >= 0.0 && Monotone(clock) && clock != [] && clock[0] >= b.lastUpdate
    requires Charged(rate, b, q, clock, b')
    ensures Level(rate, b') && b'.lastUpdate in clock && b'.lastUpdate >= b.lastUpdate
    ensures Paid(rate, q, b.consumed, b'.consumed, b.lastUpdate, b'.lastUpdate)
  {
    hide Paid, Drained;
    var over := Over(rate, b, q, clock);
    OverPaid(rate, b.consumed, q, b.lastUpdate, clock[0]);
    if over > rate {
      var k: nat :| WakesAt(clock, 1, Pause(rate, over), k) && k + 1 < |clock|
                    && b' == Bucket(Drained(over, clock[k + 1] - clock[0], rate), clock[k + 1]);
      assert clock[0] <= clock[1] && clock[k] <= clock[k + 1];
      assert b'.lastUpdate == clock[k + 1] && clock[0] <= clock[k + 1];
      SleepPaid(rate, over, clock[0], b'.lastUpdate);
      PaidTwice(rate, q, b.consumed, over, b'.consumed, b.lastUpdate, clock[0], b'.lastUpdate);
    }
  }

  /** Calls in a row, each finished, and the bucket before and after each. */
  ghost predicate Trace(rate: real, quantities: seq<real>, clocks: seq<seq<real>>, n: nat, trace: seq<Bucket>) {
    && rate > 0.0 && n <= |quantities| && |clocks| == |quantities| && |trace| == n + 1
    && (forall i :: 0 <= i < |clocks| ==> clocks[i] != [])
    && forall i :: 0 <= i < n ==> Charged(rate, trace[i], quantities[i], clocks[i], trace[i + 1])
  }

  /** No reading of a call still to come lies before the bucket's last update. */
  ghost predicate Ahead(clocks: seq<seq<real>>, n: nat, now: real) {
    forall i, x :: n <= i < |clocks| && x in clocks[i] ==> x >= now
  }

  lemma NonemptyClocks(clocks: seq<seq<real>>, start: real)
    requires Successive(clocks, start)
    ensures forall i :: 0 <= i < |clocks| ==> clocks[i] != []
  {
  }

  lemma NextClock(clocks: seq<seq<real>>, start: real, n: nat, now: real)
    requires Successive(clocks, start) && n < |clocks| && Ahead(clocks, n, now)
    ensures Monotone(clocks[n]) && clocks[n] != [] && clocks[n][0] >= now
  {
    assert clocks[n][0] in clocks[n];
  }

  lemma AheadNext(clocks: seq<seq<real>>, start: real, n: nat, now: real)
    requires Successive(clocks, start) && n < |clocks| && now in clocks[n]
    ensures Ahead(clocks, n + 1, now)
  {
  }

  /**
   The rate limit over any calls in a row, from any bucket between calls: what they charged is
   at most the rate times the time that passed, plus one second's worth.
   */
  lemma {:induction false} TraceBalanced(rate: real, quantities: seq<real>, clocks: seq<seq<real>>, n: nat,
                                         trace: seq<Bucket>)
    requires Trace(rate, quantities, clocks, n, trace) && Level(rate, trace[0])
    requires Successive(clocks, trace[0].lastUpdate) && forall q :: q in quantities ==> q >= 0.0
    ensures Level(rate, trace[n]) && trace[n].lastUpdate >= trace[0].lastUpdate
    ensures Ahead(clocks, n, trace[n].lastUpdate)
    ensures Balanced(rate, Sum(quantities[..n]), trace[0].consumed, trace[n].consumed,
                     trace[0].lastUpdate, trace[n].lastUpdate)
  {
    hide Paid, Balanced, Charged, Level;
    var b := trace[0];
    if n == 0 {
      NothingCharged(rate, b.consumed, b.lastUpdate);
    } else {
      var k := n - 1;
      TraceBalanced(rate, quantities, clocks, k, trace[..n]);
      var c, d := trace[k], trace[n];
      assert clocks[k][0] in clocks[k] && quantities[k] in quantities;
      ChargedPaid(rate, c, quantities[k], clocks[k], d);
      AheadNext(clocks, b.lastUpdate, k, d.lastUpdate);
      assert quantities[..n][..k] == quantities[..k];
      Balance(rate, Sum(quantities[..k]), quantities[k], b.consumed, c.consumed, d.consumed,
              b.lastUpdate, c.lastUpdate, d.lastUpdate);
    }
  }

  lemma RateBound(rate: real, quantities: seq<real>, clocks: seq<seq<real>>, n: nat, trace: seq<Bucket>)
    requires Trace(rate, quantities, clocks, n, trace) && Level(rate, trace[0])
    requires Successive(clocks, trace[0].lastUpdate) && forall q :: q in quantities ==> q >= 0.0
    ensures Sum(quantities[..n]) <= rate * (trace[n].lastUpdate - trace[0].lastUpdate + 1.0)
  {
    hide Charged, Successive, Sum;
    TraceBalanced(rate, quantities, clocks, n, trace);
    Bounded(rate, Sum(quantities[..n]), trace[0].consumed, trace[n].consumed, trace[0].lastUpdate, trace[n].lastUpdate);
  }

  /** A token bucket: consumption drains at the rate, which is also the burst it allows. */
  class Renewable {
    const rate: real
    var consumed: real
    var lastUpdate: real

    ghost predicate Valid()
      reads this
    {
      Level(rate, Now())
    }

    ghost function Now(): Bucket
      reads this
    {
      Bucket(consumed, lastUpdate)
    }

    constructor (rate: real, now: real)
      requires rate > 0.0
      ensures Valid() && this.rate == rate && Now() == Bucket(0.0, now)
    {
      this.rate, consumed, lastUpdate := rate, 0.0, now;
    }

    /** Drain up to `now`. */
    method Drain(now: real)
      modifies this`consumed, this`lastUpdate
      ensures Now() == Bucket(Drained(old(consumed), now - old(lastUpdate), rate), now)
    {
      consumed := consumed - (now - lastUpdate) * rate;
      if consumed < 0.0 {
        consumed := 0.0;
      }
      lastUpdate := now;
    }

    /**
     Spin until the clock has moved on by `dur`; `next` is the first reading not used. It wakes
     at the first reading that is late enough, and sleeps on exactly when there is none.
     */
    method Sleep(dur: real, clock: seq<real>, from: nat) returns (awake: bool, next: nat)
      requires from <= |clock|
      ensures from <= next <= |clock|
      ensures awake ==> next > 0 && WakesAt(clock, from, dur, next - 1)
      ensures awake <==> from < |clock| && exists k :: from < k < |clock| && clock[k] >= clock[from] + dur
    {
      if from == |clock| {
        return false, from;
      }
      var deadline := clock[from] + dur;
      next := from + 1;
      while next < |clock|
        invariant from < next <= |clock| && forall k :: from < k < next ==> clock[k] < deadline
      {
        next := next + 1;
        if clock[next - 1] >= deadline {
          return true, next;
        }
      }
      return false, next;
    }

    /**
     Charge a quantity, sleeping first if that is over budget. The call finishes unless it runs
     out of readings; it then leaves the consumption within the rate, has drained at most what
     the time allows, and has asked to sleep no longer than the quantity takes at the rate.
     */
    method Charge(quantity: real, clock: seq<real>) returns (finished: bool, slept: real)
      requires Valid() && quantity >= 0.0 && Monotone(clock) && clock != [] && clock[0] >= lastUpdate
      modifies this`consumed, this`lastUpdate
      ensures ChargePlain(rate, old(Now()), quantity, clock, finished, slept, Now())
      ensures slept == Pause(rate, Over(rate, old(Now()), quantity, clock)) && 0.0 <= slept <= quantity / rate
      ensures if finished then
                && Charged(rate, old(Now()), quantity, clock, Now()) && Valid()
                && Paid(rate, quantity, old(consumed), consumed, old(lastUpdate), lastUpdate)
              else
                && RunsOut(rate, old(Now()), quantity, clock)
                && Now() == Bucket(Over(rate, old(Now()), quantity, clock), clock[0])
    {
      hide Drained, Paid, Left;
      ghost var before := Now();
      OverPaid(rate, consumed, quantity, lastUpdate, clock[0]);
      ghost var over := Over(rate, before, quantity, clock);
      PauseBound(rate, before, quantity, clock);
      Drain(clock[0]);
      consumed := consumed + quantity;
      assert Now() == Bucket(over, clock[0]);
      slept := 0.0;
      if consumed > rate {
        slept := (consumed - rate) / rate;
        var awake, next := Sleep(slept, clock, 1);
        if !awake || next == |clock| {
          RunsOutPlain(rate, before, quantity, clock, Now());
          return false, slept;
        }
        ghost var k: nat := next - 1;
        assert WakesAt(clock, 1, Pause(rate, over), k) && k + 1 < |clock|;
        Drain(clock[next]);
        assert Now() == Bucket(Drained(over, clock[k + 1] - clock[0], rate), clock[k + 1]);
      }
      finished := true;
      ChargedPaid(rate, before, quantity, clock, Now());
      ChargedPlain(rate, before, quantity, clock, Now());
    }

    /**
     Any calls in a row, from any state between calls, up to the first that runs out of
     readings: those that finished charged no more than the rate times the time that passed,
     plus one second's worth.
     */
    method ChargeAll(quantities: seq<real>, clocks: seq<seq<real>>) returns (n: nat, ghost trace: seq<Bucket>)
      requires Valid() && (forall q :: q in quantities ==> q >= 0.0)
      requires |clocks| == |quantities| && Successive(clocks, lastUpdate)
      modifies this`consumed, this`lastUpdate
      ensures Trace(rate, quantities, clocks, n, trace) && trace[0] == old(Now())
      ensures if n == |quantities| then Valid() && trace[n] == Now()
              else RunsOut(rate, trace[n], quantities[n], clocks[n])
      ensures n < |quantities| ==>
                quantities[n] > rate || quantities[n] > rate * (clocks[n][0] - trace[n].lastUpdate)
      ensures Sum(quantities[..n]) <= rate * (trace[n].lastUpdate - old(lastUpdate) + 1.0)
    {
      hide Charged, RunsOut, Ahead, Successive, Monotone, Sum, Balanced;
      n, trace := 0, [Now()];
      assert Trace(rate, quantities, clocks, 0, trace) by {
        NonemptyClocks(clocks, lastUpdate);
      }
      while n < |quantities|
        invariant Valid() && Trace(rate, quantities, clocks, n, trace) && trace[0] == old(Now()) && trace[n] == Now()
      {
        TraceBalanced(rate, quantities, clocks, n, trace);
        NextClock(clocks, old(lastUpdate), n, lastUpdate);
        assert quantities[n] in quantities;
        var finished, _ := Charge(quantities[n], clocks[n]);
        if !finished {
          SteadyFinishes(rate, trace[n], quantities[n], clocks[n]);
          break;
        }
        n, trace := n + 1, trace + [Now()];
      }
      RateBound(rate, quantities, clocks, n, trace);
    }
  }

  datatype ItemOp = AddItem | RemoveItem

  /** Slots granted, less slots given back. */
  ghost function Outstanding(ops: seq<ItemOp>, answers: seq<bool>): int
    requires |ops| == |answers|
  {
    if ops == [] then 0
    else
      var k := |ops| - 1;
      Outstanding(ops[..k], answers[..k])
      + if ops[k].RemoveItem? then -1 else if answers[k] then 1 else 0
  }

  /** At no point are more slots out than the limit. */
  ghost predicate NeverAbove(ops: seq<ItemOp>, answers: seq<bool>, start: int, limit: nat)
    requires |ops| == |answers|
  {
    && start + Outstanding(ops, answers) <= limit
    && (ops != [] ==> NeverAbove(ops[..|ops| - 1], answers[..|ops| - 1], start, limit))
  }

  /** At no point have more slots been given back than were out. */
  ghost predicate NeverBelow(ops: seq<ItemOp>, answers: seq<bool>, start: int)
    requires |ops| == |answers|
  {
    && start + Outstanding(ops, answers) >= 0
    && (ops != [] ==> NeverBelow(ops[..|ops| - 1], answers[..|ops| - 1], start))
  }

  /** The count after some calls: taken while below the limit, given back while any is out. */
  function CountAfter(ops: seq<ItemOp>, start: nat, limit: nat): nat {
    if ops == [] then start
    else
      var k := |ops| - 1;
      var c := CountAfter(ops[..k], start, limit);
      match ops[k]
      case AddItem => if c < limit then c + 1 else c
      case RemoveItem => if c > 0 then c - 1 else 0
  }

  /** A slot is granted exactly while the count is below the limit. */
  ghost predicate Granted(ops: seq<ItemOp>, answers: seq<bool>, start: nat, limit: nat) {
    && |answers| == |ops|
    && forall k :: 0 <= k < |ops| ==> (answers[k] <==> ops[k].RemoveItem? || CountAfter(ops[..k], start, limit) < limit)
  }

  /** What holds of the calls so far. */
  ghost predicate Tally(ops: seq<ItemOp>, answers: seq<bool>, start: nat, limit: nat) {
    && |answers| == |ops| && start + Outstanding(ops, answers) <= CountAfter(ops, start, limit) <= limit
    && NeverAbove(ops, answers, start, limit)
    && (NeverBelow(ops, answers, start) <==> CountAfter(ops, start, limit) == start + Outstanding(ops, answers))
  }

  lemma GrantedMore(ops: seq<ItemOp>, answers: seq<bool>, op: ItemOp, start: nat, limit: nat)
    requires Granted(ops, answers, start, limit)
    ensures Granted(ops + [op], answers + [op.RemoveItem? || CountAfter(ops, start, limit) < limit], start, limit)
  {
    hide CountAfter;
    assert forall k :: 0 <= k <= |ops| ==> (ops + [op])[..k] == ops[..k];
    assert ops[..|ops|] == ops;
  }

  lemma TallyNone(start: nat, limit: nat)
    requires start <= limit
    ensures Tally([], [], start, limit) && Granted([], [], start, limit)
  {
  }

  lemma TallyMeans(ops: seq<ItemOp>, answers: seq<bool>, start: nat, limit: nat)
    requires Tally(ops, answers, start, limit)
    ensures |answers| == |ops| && NeverAbove(ops, answers, start, limit)
    ensures NeverBelow(ops, answers, start) <==> CountAfter(ops, start, limit) == start + Outstanding(ops, answers)
  {
  }

  lemma TallyMore(ops: seq<ItemOp>, answers: seq<bool>, op: ItemOp, start: nat, limit: nat)
    requires Tally(ops, answers, start, limit)
    ensures Tally(ops + [op], answers + [op.RemoveItem? || CountAfter(ops, start, limit) < limit], start, limit)
  {
    var ok := op.RemoveItem? || CountAfter(ops, start, limit) < limit;
    assert (ops + [op])[..|ops|] == ops && (answers + [ok])[..|ops|] == answers;
  }

  /** A counted resource. */
  class Fungible {
    const limit: nat
    var count: nat

    ghost predicate Valid()
      reads this
    {
      count <= limit
    }

    constructor (limit: nat)
      ensures Valid() && this.limit == limit && count == 0
    {
      this.limit, count := limit, 0;
    }

    method Add() returns (ok: bool)
      requires Valid()
      modifies this`count
      ensures Valid() && (ok <==> old(count) < limit) && count == if ok then old(count) + 1 else old(count)
    {
      if count >= limit {
        return false;
      }
      count := count + 1;
      return true;
    }

    method Remove()
      requires Valid()
      modifies this`count
      ensures Valid() && count == if old(count) > 0 then old(count) - 1 else 0
    {
      count := if count > 0 then count - 1 else 0;
    }

    /**
     Over any calls a slot is granted exactly while the count is below the limit, no more slots
     are out than the limit, and the count is exact just while no release found none held.
     */
    method Run(ops: seq<ItemOp>) returns (answers: seq<bool>)
      requires Valid()
      modifies this`count
      ensures Valid() && |answers| == |ops| && count == CountAfter(ops, old(count), limit)
      ensures Granted(ops, answers, old(count), limit)
      ensures NeverAbove(ops, answers, old(count), limit)
      ensures NeverBelow(ops, answers, old(count)) <==> count == old(count) + Outstanding(ops, answers)
    {
      hide Granted, Tally, Outstanding, NeverAbove, NeverBelow;
      answers := [];
      TallyNone(count, limit);
      for k := 0 to |ops|
        invariant Valid() && count == CountAfter(ops[..k], old(count), limit)
        invariant Granted(ops[..k], answers, old(count), limit) && Tally(ops[..k], answers, old(count), limit)
      {
        GrantedMore(ops[..k], answers, ops[k], old(count), limit);
        TallyMore(ops[..k], answers, ops[k], old(count), limit);
        assert ops[..k + 1] == ops[..k] + [ops[k]] && ops[..k + 1][..k] == ops[..k];
        var ok := true;
        if ops[k].AddItem? {
          ok := Add();
        } else {
          Remove();
        }
        answers := answers + [ok];
      }
      assert ops[..|ops|] == ops;
      TallyMeans(ops, answers, old(count), limit);
    }
  }
}
