/**
 What a timer service promises, without any wheel: a clock and a map from armed timers
 to the tick at which their callback is due.
 */
module TimerSpec {
  import opened DivMod

  /** An armed timer: the tick it is due at, and the interval it rearms itself with (0: never). */
  datatype Alarm = Alarm(deadline: nat, repeat: nat)

  datatype Clock<!K> = Clock(now: nat, armed: map<K, Alarm>)

  function Arm<K>(c: Clock<K>, k: K, delay: nat, repeat: nat): Clock<K> {
    c.(armed := c.armed[k := Alarm(c.now + delay, repeat)])
  }

  function Disarm<K>(c: Clock<K>, k: K): Clock<K> {
    c.(armed := c.armed - {k})
  }

  /** The timers whose callbacks the next tick runs. */
  function Due<K>(c: Clock<K>): set<K> {
    set k | k in c.armed && c.armed[k].deadline == c.now
  }

  /** A due timer leaves the map, or is due again after its repeat interval when that is legal. */
  function Expire<K>(c: Clock<K>, k: K, longest: nat): Clock<K>
    requires k in c.armed
  {
    var repeat := c.armed[k].repeat;
    if 0 < repeat <= longest then Arm(c, k, repeat, repeat) else Disarm(c, k)
  }

  function Tick<K>(c: Clock<K>, longest: nat): Clock<K> {
    Clock(c.now + 1, Expired(c, Due(c), longest))
  }

  /** The map once the timers of f have expired at the current tick. */
  function Expired<K>(c: Clock<K>, f: set<K>, longest: nat): map<K, Alarm> {
    map k | k in c.armed && (k !in f || 0 < c.armed[k].repeat <= longest) ::
      if k in f then Alarm(c.now + c.armed[k].repeat, c.armed[k].repeat) else c.armed[k]
  }

  lemma Rearm<K>(c: Clock<K>, k: K, delay: nat)
    requires k in c.armed && c.armed[k].deadline == c.now + delay
    ensures Arm(Disarm(c, k), k, delay, c.armed[k].repeat) == c
  {
    assert Arm(Disarm(c, k), k, delay, c.armed[k].repeat).armed == c.armed;
  }

  /** Expiring timers one at a time reaches the same map. */
  lemma ExpiredNext<K>(c: Clock<K>, f: set<K>, k: K, longest: nat)
    requires k in c.armed && k !in f
    ensures k in Expired(c, f, longest) && Expired(c, f, longest)[k] == c.armed[k]
    ensures Expire(c.(armed := Expired(c, f, longest)), k, longest) == c.(armed := Expired(c, f + {k}, longest))
  {
    assert Expire(c.(armed := Expired(c, f, longest)), k, longest).armed == Expired(c, f + {k}, longest);
  }

  /** A timer found due while others of this tick have expired has itself not expired yet. */
  lemma ExpiredDue<K>(c: Clock<K>, f: set<K>, k: K, longest: nat)
    requires k in Expired(c, f, longest) && Expired(c, f, longest)[k].deadline == c.now
    ensures k in c.armed && k in Due(c) && k !in f
  {
  }

  /** Expiry is complete when nothing due is left. */
  lemma ExpiredAll<K>(c: Clock<K>, f: set<K>, longest: nat)
    requires f <= Due(c)
    requires forall k <- Expired(c, f, longest) :: c.now < Expired(c, f, longest)[k].deadline
    ensures f == Due(c)
  {
    forall k | k in Due(c)
      ensures k in f
    {
      assert k !in f ==> k in Expired(c, f, longest);
    }
  }

  /** Part of a tick: those of f have been disarmed. */
  lemma DisarmDue<K>(c: Clock<K>, f: set<K>, k: K)
    requires k in Due(c.(armed := c.armed - f))
    ensures Disarm(c.(armed := c.armed - f), k) == c.(armed := c.armed - (f + {k}))
    ensures Due(c.(armed := c.armed - (f + {k}))) == Due(c.(armed := c.armed - f)) - {k}
    ensures k !in f && k in Due(c)
  {
    assert c.armed - f - {k} == c.armed - (f + {k});
  }

  /** When no timer repeats, a tick just removes those that are due. */
  lemma OneShotTick<K>(c: Clock<K>, longest: nat)
    requires forall k <- c.armed :: c.armed[k].repeat == 0
    ensures Tick(c, longest) == Clock(c.now + 1, c.armed - Due(c))
  {
  }

  /** No deadline lies in the past. */
  ghost predicate Timely<K>(c: Clock<K>) {
    forall k <- c.armed :: c.now <= c.armed[k].deadline
  }

  // ----- runs

  datatype Op<K> = Add(k: K, delay: nat, repeat: nat) | Del(k: K) | Reset(k: K, delay: nat) | TickOp

  /** One call. A delay beyond the longest makes Add do nothing, and Reset only disarm. */
  function Step<K>(c: Clock<K>, op: Op<K>, longest: nat): Clock<K> {
    match op
    case Add(k, delay, repeat) => if delay <= longest then Arm(c, k, delay, repeat) else c
    case Del(k) => Disarm(c, k)
    case Reset(k, delay) => if delay <= longest then Arm(c, k, delay, 0) else Disarm(c, k)
    case TickOp => Tick(c, longest)
  }

  function Run<K>(c: Clock<K>, ops: seq<Op<K>>, longest: nat): Clock<K>
    decreases |ops|
  {
    if ops == [] then c else Run(Step(c, ops[0], longest), ops[1..], longest)
  }

  /** What a run fires: one set of timers for each tick of the run, in order. */
  function Fired<K>(c: Clock<K>, ops: seq<Op<K>>, longest: nat): seq<set<K>>
    decreases |ops|
  {
    if ops == [] then []
    else (if ops[0].TickOp? then [Due(c)] else []) + Fired(Step(c, ops[0], longest), ops[1..], longest)
  }

  function Ticks<K>(ops: seq<Op<K>>): nat {
    if ops == [] then 0 else (if ops[0].TickOp? then 1 else 0) + Ticks(ops[1..])
  }

  /** Add is only called on a timer that is not armed. */
  ghost predicate Legal<K>(c: Clock<K>, ops: seq<Op<K>>, longest: nat)
    decreases |ops|
  {
    ops == [] ||
    ((ops[0].Add? ==> ops[0].k !in c.armed) && Legal(Step(c, ops[0], longest), ops[1..], longest))
  }

  /** No call of the run names timer k. */
  ghost predicate Untouched<K>(ops: seq<Op<K>>, k: K) {
    forall op <- ops :: op.TickOp? || op.k != k
  }

  lemma TimelyStep<K>(c: Clock<K>, op: Op<K>, longest: nat)
    requires Timely(c)
    ensures Timely(Step(c, op, longest))
  {
  }

  /** A timer that nobody touches and nobody armed is never fired. */
  lemma {:induction false} IdleNeverFires<K>(c: Clock<K>, ops: seq<Op<K>>, longest: nat, k: K)
    requires k !in c.armed && Untouched(ops, k)
    ensures |Fired(c, ops, longest)| == Ticks(ops)
    ensures forall i :: 0 <= i < Ticks(ops) ==> k !in Fired(c, ops, longest)[i]
    ensures k !in Run(c, ops, longest).armed
    decreases |ops|
  {
    if ops != [] {
      assert ops[0] in ops;
      assert forall op <- ops[1..] :: op in ops;
      IdleNeverFires(Step(c, ops[0], longest), ops[1..], longest, k);
    }
  }

  /**
   None lost, early, late or twice: a one-shot timer that nobody touches during a run is fired
   by the tick whose time is its deadline, by no other, and is disarmed from then on.
   */
  lemma {:induction false} FiresExactlyAtDeadline<K>(c: Clock<K>, ops: seq<Op<K>>, longest: nat, k: K)
    requires Timely(c) && k in c.armed && c.armed[k].repeat == 0 && Untouched(ops, k)
    ensures |Fired(c, ops, longest)| == Ticks(ops)
    ensures forall i :: 0 <= i < Ticks(ops) ==>
                          (k in Fired(c, ops, longest)[i] <==> c.now + i == c.armed[k].deadline)
    ensures k in Run(c, ops, longest).armed <==> c.now + Ticks(ops) <= c.armed[k].deadline
    decreases |ops|
  {
    if ops != [] {
      assert ops[0] in ops;
      assert forall op <- ops[1..] :: op in ops;
      var c' := Step(c, ops[0], longest);
      TimelyStep(c, ops[0], longest);
      if k in c'.armed {
        FiresExactlyAtDeadline(c', ops[1..], longest, k);
      } else {
        IdleNeverFires(c', ops[1..], longest, k);
      }
    }
  }

  /** Tick x is deadline d or some whole number of intervals r after it. */
  predicate InTurn(x: nat, d: nat, r: nat)
    requires r > 0
  {
    d <= x && (x - d) % r == 0
  }

  lemma NextTurn(x: nat, d: nat, r: nat)
    requires r > 0
    ensures x > d ==> (InTurn(x, d + r, r) <==> InTurn(x, d, r))
    ensures x <= d ==> (InTurn(x, d, r) <==> x == d)
  {
    if d + r <= x {
      Split(x - d - r, r);
      QuotientUnique(x - d, (x - d - r) / r + 1, (x - d - r) % r, r);
    } else if d <= x {
      SmallMod(x - d, r);
    }
  }

  lemma TickFires<K>(c: Clock<K>, longest: nat, k: K)
    requires Timely(c) && k in c.armed && 0 < c.armed[k].repeat <= longest
    ensures var c' := Tick(c, longest);
            && k in c'.armed && c'.now == c.now + 1 && c'.armed[k].repeat == c.armed[k].repeat
            && (k in Due(c) <==> c.now == c.armed[k].deadline)
            && c'.armed[k].deadline == c.armed[k].deadline + if k in Due(c) then c.armed[k].repeat else 0
  {
  }

  /** A repeating timer that nobody touches is fired at its deadline and every repeat interval after it. */
  lemma {:induction false} FiresEveryInterval<K>(c: Clock<K>, ops: seq<Op<K>>, longest: nat, k: K)
    requires Timely(c) && k in c.armed && 0 < c.armed[k].repeat <= longest && Untouched(ops, k)
    ensures |Fired(c, ops, longest)| == Ticks(ops)
    ensures forall i :: 0 <= i < Ticks(ops) ==>
                          (k in Fired(c, ops, longest)[i] <==> InTurn(c.now + i, c.armed[k].deadline, c.armed[k].repeat))
    decreases |ops|
  {
    if ops != [] {
      assert ops[0] in ops;
      assert forall op <- ops[1..] :: op in ops;
      var c', d, r := Step(c, ops[0], longest), c.armed[k].deadline, c.armed[k].repeat;
      TimelyStep(c, ops[0], longest);
      if ops[0].TickOp? {
        TickFires(c, longest, k);
      } else {
        assert k in c'.armed && c'.armed[k] == c.armed[k] && c'.now == c.now;
      }
      hide Step, InTurn, Due, Tick;
      FiresEveryInterval(c', ops[1..], longest, k);
      NextTurn(c.now, d, r);
      forall i | 0 <= i < Ticks(ops)
        ensures k in Fired(c, ops, longest)[i] <==> InTurn(c.now + i, d, r)
      {
        if c.now == d {
          NextTurn(c.now + i, d, r);
        }
      }
    }
  }

  lemma FiredNext<K>(c: Clock<K>, op: Op<K>, ops: seq<Op<K>>, longest: nat)
    requires !op.TickOp?
    ensures Fired(c, [op] + ops, longest) == Fired(Step(c, op, longest), ops, longest)
  {
    assert ([op] + ops)[1..] == ops;
  }

  /** A timer started or reset with a legal delay, and then left alone, fires after exactly so many ticks, once. */
  lemma FiresAfterDelay<K>(c: Clock<K>, op: Op<K>, ops: seq<Op<K>>, longest: nat, k: K, delay: nat)
    requires Timely(c) && Untouched(ops, k) && delay <= longest && (op == Add(k, delay, 0) || op == Reset(k, delay))
    ensures |Fired(c, [op] + ops, longest)| == Ticks(ops)
    ensures forall i :: 0 <= i < Ticks(ops) ==> (k in Fired(c, [op] + ops, longest)[i] <==> i == delay)
  {
    FiredNext(c, op, ops, longest);
    TimelyStep(c, op, longest);
    FiresExactlyAtDeadline(Step(c, op, longest), ops, longest, k);
  }

  /** One started with a legal repeat interval fires after the delay, and from then on every interval. */
  lemma RepeatsAfterDelay<K>(c: Clock<K>, ops: seq<Op<K>>, longest: nat, k: K, delay: nat, repeat: nat)
    requires Timely(c) && Untouched(ops, k) && delay <= longest && 0 < repeat <= longest
    ensures var fired := Fired(c, [Add(k, delay, repeat)] + ops, longest);
            && |fired| == Ticks(ops)
            && forall i :: 0 <= i < Ticks(ops) ==> (k in fired[i] <==> i >= delay && (i - delay) % repeat == 0)
  {
    var op := Add(k, delay, repeat);
    FiredNext(c, op, ops, longest);
    TimelyStep(c, op, longest);
    FiresEveryInterval(Step(c, op, longest), ops, longest, k);
  }

  /** One stopped, or reset with too long a delay, does not fire again; nor does an idle one started with such a delay. */
  lemma StaysSilent<K>(c: Clock<K>, op: Op<K>, ops: seq<Op<K>>, longest: nat, k: K, delay: nat, repeat: nat)
    requires Untouched(ops, k)
    requires || op == Del(k) || (op == Reset(k, delay) && delay > longest)
             || (op == Add(k, delay, repeat) && delay > longest && k !in c.armed)
    ensures |Fired(c, [op] + ops, longest)| == Ticks(ops)
    ensures forall i :: 0 <= i < Ticks(ops) ==> k !in Fired(c, [op] + ops, longest)[i]
  {
    FiredNext(c, op, ops, longest);
    IdleNeverFires(Step(c, op, longest), ops, longest, k);
  }
}
