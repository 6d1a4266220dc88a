/**
 The two-level timing wheel: 2 * B buckets, each a circular doubly linked list through a
 sentinel, refining TimerSpec. The bucket count B is a parameter; the program uses 2^18, so a
 shift by TIMER_WHEEL_BITS is a division by B here.
 */
module TimerWheel {
  import opened DivMod
  import opened Sequences
  import opened TimerSpec

  const WHEEL_COUNT := 2

  // ----- where a timer may be

  /** TIMER_MAX_TIMEOUT. */
  function MaxTimeout(b: nat): nat
    requires b > 0
  {
    b * b - 1
  }

  /** The bucket index (counted over both wheels) that a delay d leads to at tick now. */
  function SlotOf(b: nat, now: nat, d: nat): nat
    requires b > 0
  {
    if d < b then (now + d) % b else b + (now / b + d / b) % b
  }

  function BlockOf(b: nat, now: nat, d: nat): nat
    requires b > 0
  {
    now / b + d / b
  }

  /** The 64-bit sum of the clock and a delay, saturating when it wraps around. */
  method ClampedDeadline(now: nat, timeout: nat) returns (r: nat)
    requires now < UINT64_LIMIT && timeout < UINT64_LIMIT
    ensures r == if now + timeout < UINT64_LIMIT then now + timeout else UINT64_LIMIT - 1
  {
    r := (now + timeout) % UINT64_LIMIT;
    if r < timeout {
      r := UINT64_LIMIT - 1;
    }
  }

  /** What holds of a start with delay d of a timer that has been through m cascades. */
  ghost predicate MayStart(b: nat, now: nat, d: nat, m: nat)
    requires b > 0
  {
    && m <= 2
    && (m == 1 ==> now % b == 0 && d < 2 * b - 1)
    && (m == 2 ==> d < b)
  }

  /** TIMER_WHEEL_CUR_INDEX: a shift by widx * TIMER_WHEEL_BITS, modulo the bucket count. */
  function CurIndex(b: nat, now: nat, widx: nat): nat
    requires b > 0 && widx < WHEEL_COUNT
  {
    (if widx == 0 then now else now / b) % b
  }

  /** The search for the wheel and bucket of a legal delay; the -2 return is unreachable. */
  method FindSlot(b: nat, now: nat, timeout: nat) returns (s: nat)
    requires b >= 2 && timeout <= MaxTimeout(b)
    ensures s == SlotOf(b, now, timeout)
  {
    hide SlotOf, CurIndex, MaxTimeout;
    SlotValue(b, now, timeout);
    QuotientBelow(timeout, b);
    var widx, left, cur, bidx := 0, timeout, CurIndex(b, now, 0), timeout % b;
    while left >= b
      invariant widx == 0 || (widx == 1 && timeout >= b)
      invariant left == (if widx == 0 then timeout else timeout / b) && bidx == left % b
      invariant cur == CurIndex(b, now, widx)
      decreases WHEEL_COUNT - widx
    {
      widx := widx + 1;
      left := left / b;
      bidx := left % b;
      cur := CurIndex(b, now, widx);
    }
    s := widx * b + (cur + bidx) % b;
  }

  lemma SlotValue(b: nat, now: nat, d: nat)
    requires b > 0
    ensures d < b ==> SlotOf(b, now, d) == (CurIndex(b, now, 0) + d % b) % b
    ensures d >= b ==> SlotOf(b, now, d) == b + (CurIndex(b, now, 1) + d / b % b) % b
  {
    AddMod(now, d, b);
    AddMod(now / b, d / b, b);
  }

  lemma QuotientBelow(d: nat, b: nat)
    requires b >= 2 && d <= MaxTimeout(b)
    ensures d / b < b && (d >= b ==> d / b >= 1)
  {
    Split(d, b);
    if d / b >= b {
      MulMono(b, d / b, b);
    }
  }

  /** The legal delays are exactly those for which two wheels are enough. */
  lemma LegalDelays(b: nat, d: nat)
    requires b >= 2
    ensures d <= MaxTimeout(b) <==> d / b / b == 0
  {
    Split(d, b);
    if d <= MaxTimeout(b) {
      QuotientBelow(d, b);
      SmallMod(d / b, b);
    } else {
      if d / b < b {
        MulMono(d / b + 1, b, b);
      }
      Split(d / b, b);
    }
  }

  /**
   A timer in slot s, due at timeout and cascaded m times so far, is where the wheel will find it
   in time. In the lower wheel s is the remainder of the deadline. In the upper wheel the slot is
   emptied at tick block * b, no later than the deadline; what is then left to wait is below
   2b - 1 ticks for a timer that has not been cascaded, and below b for one that has.
   */
  ghost predicate PlacedAt(b: nat, now: nat, s: nat, timeout: nat, block: nat, m: nat)
    requires b > 0
  {
    now <= timeout &&
    if s < b then timeout < now + b && timeout % b == s && m <= 2
    else
      && block % b == s - b && now <= block * b <= timeout && block < CeilDiv(now, b) + b
      && m <= 1 && timeout - block * b < (if m == 0 then 2 * b - 1 else b)
  }

  lemma StartPlaced(b: nat, now: nat, d: nat, m: nat)
    requires b >= 2 && d <= MaxTimeout(b) && MayStart(b, now, d, m)
    ensures SlotOf(b, now, d) < WHEEL_COUNT * b
    ensures PlacedAt(b, now, SlotOf(b, now, d), now + d, BlockOf(b, now, d), m)
    ensures d >= b ==> now < BlockOf(b, now, d) * b
  {
    if d >= b {
      UpperPlaced(b, now, d);
    }
  }

  /** The upper wheel empties the slot of a long delay after now, and by at most 2b - 2 ticks early. */
  lemma UpperPlaced(b: nat, now: nat, d: nat)
    requires b >= 2 && b <= d <= MaxTimeout(b)
    ensures now < BlockOf(b, now, d) * b <= now + d
    ensures now + d - BlockOf(b, now, d) * b == now % b + d % b
    ensures BlockOf(b, now, d) < CeilDiv(now, b) + b
  {
    Split(now, b);
    Split(d, b);
    QuotientBelow(d, b);
    MulMono(1, d / b, b);
    assert BlockOf(b, now, d) * b == now / b * b + d / b * b;
  }

  /** The upper slot that is emptied at a multiple of b holds exactly the timers of that block. */
  lemma CascadeBlock(b: nat, now: nat, s: nat, timeout: nat, block: nat, m: nat)
    requires b >= 2 && now % b == 0 && b <= s && s == b + now / b % b
    requires PlacedAt(b, now, s, timeout, block, m)
    ensures block * b == now <= timeout && m <= 1 && timeout - now < (if m == 0 then 2 * b - 1 else b)
  {
    Split(now, b);
    CeilDivBound(now, block, b);
    ModUnique(now / b, block, b);
  }

  /** Block q is cascaded after tick now. */
  ghost predicate Later(b: nat, now: nat, q: nat) {
    now < q * b
  }

  /** Reinsertion by a cascade never lands in the slot being drained, nor in one due before now. */
  lemma CascadeTarget(b: nat, now: nat, s: nat, d: nat)
    requires b >= 2 && now % b == 0 && s == b + now / b % b && d < 2 * b - 1
    ensures d <= MaxTimeout(b) && SlotOf(b, now, d) != s
    ensures SlotOf(b, now, d) >= b ==> Later(b, now, BlockOf(b, now, d))
  {
    MulMono(2, b, b);
    if d >= b {
      UpperPlaced(b, now, d);
      QuotientUnique(d, 1, d - b, b);
      if SlotOf(b, now, d) == s {
        ModUnique(now / b, now / b + 1, b);
      }
    } else {
      assert (now + d) % b < b;
    }
  }

  /** A settled timer that is due now is in the lower slot of this tick. */
  lemma DueSlot(b: nat, now: nat, s: nat, timeout: nat, block: nat, m: nat)
    requires b >= 2 && PlacedAt(b, now, s, timeout, block, m)
    requires s >= b ==> Later(b, now, block)
    ensures timeout == now ==> s == now % b
    ensures now <= timeout
  {
  }

  /** An upper timer outside the slot of tick now is cascaded later. */
  lemma UpperLater(b: nat, now: nat, s: nat, timeout: nat, block: nat, m: nat)
    requires b >= 2 && s >= b && PlacedAt(b, now, s, timeout, block, m)
    requires now % b == 0 ==> s != b + now / b % b
    ensures Later(b, now, block)
  {
    if now == block * b {
      QuotientUnique(now, block, 0, b);
    }
  }

  /** Rearming with a positive interval never lands in the slot of tick now. */
  lemma AgainTarget(b: nat, now: nat, d: nat)
    requires b >= 2 && 0 < d <= MaxTimeout(b)
    ensures SlotOf(b, now, d) != now % b
    ensures SlotOf(b, now, d) >= b ==> Later(b, now, BlockOf(b, now, d))
  {
    if d >= b {
      UpperPlaced(b, now, d);
    } else if (now + d) % b == now % b {
      ModUnique(now, now + d, b);
    } else {
      assert (now + d) % b < b;
    }
  }

  /** The lower slot of tick now holds only timers due now. */
  lemma LowerDue(b: nat, now: nat, s: nat, timeout: nat, block: nat, m: nat)
    requires b >= 2 && s == now % b && PlacedAt(b, now, s, timeout, block, m)
    ensures timeout == now
  {
    SmallMod(s, b);
    ModUnique(now, timeout, b);
  }

  /** A timer that is not due, and not in a slot to be cascaded now, stays well placed. */
  lemma PlacedLater(b: nat, now: nat, s: nat, timeout: nat, block: nat, m: nat)
    requires b >= 2 && PlacedAt(b, now, s, timeout, block, m)
    requires timeout != now && (s >= b ==> Later(b, now, block))
    ensures PlacedAt(b, now + 1, s, timeout, block, m)
  {
    if s >= b {
      Split(now, b);
      Split(now + 1, b);
      CeilDivBound(now, CeilDiv(now + 1, b), b);
      CeilDivBound(now + 1, CeilDiv(now + 1, b), b);
    }
  }

  type BucketCount = b: nat | b >= 2 witness 2

  /** A timer callback; NoCallback is the null pointer. */
  datatype Callback = NoCallback | Callback(id: nat)

  /** A timer, or the sentinel of a bucket. Ghost fields say where it is linked. */
  class Timer {
    var cb: Callback
    var timeout: nat
    var repeat: nat
    var prev: Timer?
    var next: Timer?
    ghost var owner: Bucket? // the bucket whose ring holds this node
    ghost var block: nat     // in the upper wheel: it is cascaded at tick block * B
    ghost var moves: nat     // cascades it has been through since it was armed

    constructor ()
      ensures Idle() && cb.NoCallback?
    {
      cb, timeout, repeat, prev, next := NoCallback, 0, 0, null, null;
      owner, block, moves := null, 0, 0;
    }

    ghost predicate Idle()
      reads this
    {
      owner == null && prev == null
    }
  }

  /** A bucket is its sentinel; the ghost ring lists its nodes, sentinel first. */
  class Bucket {
    const head: Timer
    ghost const index: nat   // wheels[w].buckets[j] has index w * B + j
    ghost var ring: seq<Timer>

    constructor (ghost index: nat)
      ensures Valid() && ring == [head] && fresh(head) && this.index == index
    {
      head := new Timer();
      this.index := index;
      new;
      head.prev, head.next := head, head;
      head.owner := this;
      ring := [head];
    }

    ghost predicate Valid()
      reads this`ring, ring`prev, ring`next, ring`owner
    {
      |ring| >= 1 && ring[0] == head && Ring(ring)
    }

    /** r is a circular doubly linked list without repetition whose nodes belong here. */
    ghost predicate Ring(r: seq<Timer>)
      requires |r| >= 1
      reads r`prev, r`next, r`owner
    {
      && (forall i :: 0 <= i < |r| ==> r[i].owner == this)
      && (forall i, j :: 0 <= i < j < |r| ==> r[i] != r[j])
      && (forall i {:trigger r[i].next} :: 0 <= i < |r| - 1 ==> r[i].next == r[i + 1])
      && (forall i {:trigger r[i].prev} :: 1 <= i < |r| ==> r[i].prev == r[i - 1])
      && r[|r| - 1].next == r[0] && r[0].prev == r[|r| - 1]
    }

    method Append(t: Timer)
      requires Valid() && t.owner == null
      modifies this, ring`prev, ring`next, t`prev, t`next, t`owner
      ensures Valid() && ring == old(ring) + [t]
    {
      t.prev := head.prev;
      t.next := head;
      t.prev.next := t;
      head.prev := t;
      t.owner := this;
      ring := ring + [t];
    }

    static ghost function Without<T>(r: seq<T>, k: nat): seq<T>
      requires k < |r|
    {
      r[..k] + r[k + 1..]
    }

    /** If the neighbours of node k bypass it, the other nodes form a ring. */
    lemma Bypassed(r: seq<Timer>, k: nat, n: nat)
      requires 0 < k < |r| && n == (if k + 1 < |r| then k + 1 else 0)
      requires forall i :: 0 <= i < |r| && i != k ==> r[i].owner == this
      requires forall i, j :: 0 <= i < j < |r| ==> r[i] != r[j]
      requires forall i {:trigger r[i].next} :: 0 <= i < |r| - 1 && i != k && i != k - 1 ==> r[i].next == r[i + 1]
      requires forall i {:trigger r[i].prev} :: 1 <= i < |r| && i != k && i != k + 1 ==> r[i].prev == r[i - 1]
      requires n != 0 ==> r[|r| - 1].next == r[0] && r[0].prev == r[|r| - 1]
      requires r[k - 1].next == r[n] && r[n].prev == r[k - 1]
      ensures Ring(Without(r, k))
    {
      var r' := Without(r, k);
      assert forall i :: 0 <= i < |r'| ==> r'[i] == r[if i < k then i else i + 1];
    }

    /** Unlinks t from the ring of b; the program does not know which bucket that is. */
    static method Remove(ghost b: Bucket, t: Timer) returns (ghost k: nat)
      requires b.Valid() && t in b.ring && t != b.head && t.prev != null && t.next != null
      modifies b, b.ring`prev, b.ring`next, t`owner
      ensures b.Valid() && t.Idle() && t.next == null
      ensures 0 < k < |old(b.ring)| && old(b.ring)[k] == t
      ensures forall j :: 0 <= j < |old(b.ring)| && old(b.ring)[j] == t ==> j == k
      ensures b.ring == Without(old(b.ring), k)
    {
      ghost var r := b.ring;
      k :| 0 < k < |r| && r[k] == t;
      ghost var n := if k + 1 < |r| then k + 1 else 0;
      assert t.prev == r[k - 1] && t.next == r[n];
      t.prev.next := t.next;
      t.next.prev := t.prev;
      t.prev, t.next := null, null;
      t.owner := null;
      b.Bypassed(r, k, n);
      b.ring := Without(r, k);
    }
  }

  method MakeBuckets(n: nat) returns (bs: seq<Bucket>)
    ensures |bs| == n && fresh(bs)
    ensures forall i :: 0 <= i < n ==>
                          && bs[i].Valid() && bs[i].index == i && bs[i].ring == [bs[i].head]
                          && fresh(bs[i].head) && bs[i].head.owner == bs[i]
  {
    bs := [];
    for i := 0 to n
      invariant |bs| == i && fresh(bs)
      invariant forall j :: 0 <= j < i ==>
                              && bs[j].Valid() && bs[j].index == j && bs[j].ring == [bs[j].head]
                              && fresh(bs[j].head) && bs[j].head.owner == bs[j]
    {
      var b := new Bucket(i);
      assert b.ring[0].owner == b;
      bs := bs + [b];
    }
  }

  class TimerMgr {
    const B: BucketCount            // buckets a wheel
    const buckets: seq<Bucket>      // wheels[w].buckets[j] is buckets[w * B + j]
    const startStmp: nat            // the time stamp at which the wheel was made
    const gap: nat                  // time stamp cycles between two ticks
    var now: nat                    // the tick to run next
    ghost var nodes: set<Timer>     // every sentinel, and every timer ever linked

    constructor (b: BucketCount, startStmp: nat, gap: nat)
      requires MaxTimeout(b) < UINT64_LIMIT
      ensures Valid() && Time() == Clock(0, map[]) && B == b && fresh(nodes) && fresh(buckets)
      ensures this.startStmp == startStmp && this.gap == gap
    {
      B, now := b, 0;
      this.startStmp, this.gap := startStmp, gap;
      var bs := MakeBuckets(WHEEL_COUNT * b);
      buckets := bs;
      nodes := set i | 0 <= i < |bs| :: bs[i].head;
    }

    // ----- the linked structure

    /** The rings are disjoint and hold exactly the linked nodes. */
    ghost predicate Linked()
      reads this`nodes, buckets, nodes`prev, nodes`next, nodes`owner
    {
      && |buckets| == WHEEL_COUNT * B
      && (forall s, t :: 0 <= s < |buckets| && t in buckets[s].ring ==> t in nodes)
      && (forall s :: 0 <= s < |buckets| ==> buckets[s].index == s && buckets[s].Valid())
      && (forall t :: t in nodes ==> t.owner == null || t.owner in buckets)
      && (forall t :: t in nodes ==> LinkOk(t))
    }

    ghost predicate LinkOk(t: Timer)
      reads t`owner, t`prev, if t.owner == null then {} else {t.owner}
    {
      if t.owner == null then t.prev == null else t in t.owner.ring
    }

    /** t is linked, and is not a sentinel. */
    ghost predicate IsArmed(t: Timer)
      reads this`nodes, t`owner
    {
      t in nodes && t.owner != null && t != t.owner.head
    }

    ghost function Armed(): map<Timer, Alarm>
      reads this`nodes, nodes`owner, nodes`timeout, nodes`repeat
    {
      map t | t in nodes && IsArmed(t) :: Alarm(t.timeout, t.repeat)
    }

    ghost function Time(): Clock<Timer>
      reads this, nodes
    {
      Clock(now, Armed())
    }

    method Link(t: Timer, s: nat)
      requires Linked() && s < |buckets| && t.owner == null
      modifies this`nodes, buckets, nodes`prev, nodes`next, t`prev, t`next, t`owner
      ensures Linked() && nodes == old(nodes) + {t} && t.owner == buckets[s] && buckets[s].index == s
      ensures IsArmed(t)
      ensures buckets[s].ring == old(buckets[s].ring) + [t]
      ensures forall q :: 0 <= q < |buckets| && q != s ==> buckets[q].ring == old(buckets[q].ring)
    {
      var b := buckets[s];
      b.Append(t);
      nodes := nodes + {t};
      forall q | 0 <= q < |buckets| && q != s
        ensures buckets[q].Valid()
      {
        assert old(buckets[q].Valid());
        assert buckets[q].index == q && buckets[q] != b;
      }
      forall u | u in nodes
        ensures LinkOk(u)
      {
        assert u != t ==> old(LinkOk(u));
      }
    }

    method Unlink(t: Timer) returns (ghost k: nat)
      requires Linked() && (IsArmed(t) || t.Idle())
      modifies buckets, nodes`prev, nodes`next, t`owner
      ensures Linked() && t.Idle()
      ensures !old(IsArmed(t)) ==> forall q :: 0 <= q < |buckets| ==> buckets[q].ring == old(buckets[q].ring)
      ensures old(IsArmed(t)) ==>
                && 0 < k < |old(t.owner.ring)| && old(t.owner.ring)[k] == t
                && (forall j :: 0 <= j < |old(t.owner.ring)| && old(t.owner.ring)[j] == t ==> j == k)
                && old(t.owner).ring == Bucket.Without(old(t.owner.ring), k)
      ensures forall q :: 0 <= q < |buckets| && buckets[q] != old(t.owner) ==> buckets[q].ring == old(buckets[q].ring)
    {
      ghost var o := t.owner;
      if o != null {
        assert LinkOk(t);
        HasNeighbours(t);
      }
      k := 0;
      if t.prev != null && t.next != null {
        k := Bucket.Remove(o, t);
        forall q | 0 <= q < |buckets| && buckets[q] != o
          ensures buckets[q].Valid()
        {
          assert old(buckets[q].Valid());
        }
        forall u | u in nodes
          ensures LinkOk(u)
        {
          assert old(LinkOk(u));
        }
      }
    }

    lemma HasNeighbours(t: Timer)
      requires Linked() && IsArmed(t)
      ensures t.prev != null && t.next != null
    {
      assert LinkOk(t) && t.owner.Valid();
      var i :| 0 <= i < |t.owner.ring| && t.owner.ring[i] == t;
      assert i == |t.owner.ring| - 1 || t.owner.ring[i].next == t.owner.ring[i + 1];
    }

    // ----- the schedule

    ghost predicate Placed(t: Timer)
      requires t.owner != null
      reads this`now, t`cb, t`owner, t`timeout, t`block, t`moves
    {
      t.cb.Callback? && PlacedAt(B, now, t.owner.index, t.timeout, t.block, t.moves)
    }

    /** Every armed timer is well placed, and the 64-bit clock is not about to wrap. */
    ghost predicate Valid()
      reads this, buckets, nodes
    {
      && Linked() && |buckets| == WHEEL_COUNT * B && now + MaxTimeout(B) < UINT64_LIMIT
      && (forall t :: t in nodes && IsArmed(t) ==> Placed(t))
    }

    /** The second half of timer_start: fill in t and append it to bucket s. */
    method Enter(t: Timer, cb: Callback, deadline: nat, repeat: nat, s: nat, ghost block: nat, ghost m: nat)
      requires Valid() && t.owner == null && s < |buckets| && cb.Callback? && PlacedAt(B, now, s, deadline, block, m)
      modifies this`nodes, buckets, nodes`prev, nodes`next, t
      ensures Valid()
      ensures Armed() == old(Armed())[t := Alarm(deadline, repeat)]
      ensures nodes == old(nodes) + {t} && IsArmed(t) && t.owner == buckets[s] && t.owner.index == s
      ensures t.cb == cb && t.timeout == deadline && t.repeat == repeat && t.block == block && t.moves == m
      ensures buckets[s].ring == old(buckets[s].ring) + [t]
      ensures forall q :: 0 <= q < |buckets| && q != s ==> buckets[q].ring == old(buckets[q].ring)
    {
      hide PlacedAt, MaxTimeout, Linked;
      t.cb, t.timeout, t.repeat := cb, deadline, repeat;
      t.block, t.moves := block, m;
      Link(t, s);
      ArmedAfter(t);
      forall u | u in nodes && IsArmed(u) && u != t
        ensures Placed(u)
      {
        assert old(IsArmed(u)) && old(Placed(u));
      }
    }

    /**
     timer_start. The ghost m counts the cascades the timer has been through; only a cascade
     passes a value other than 0. The ghost s is the bucket it goes to.
     */
    method Start(t: Timer, cb: Callback, timeout: nat, repeat: nat, ghost m: nat := 0)
      returns (r: int, ghost s: nat)
      requires Valid() && t.owner == null && MayStart(B, now, timeout, m)
      modifies this`nodes, buckets, nodes`prev, nodes`next, t
      ensures Valid() && s < |buckets|
      ensures r == if cb.NoCallback? || MaxTimeout(B) < timeout then -1 else 0
      ensures r == -1 ==> Time() == old(Time()) && unchanged(t) && nodes == old(nodes)
      ensures r == 0 ==> Time() == TimerSpec.Arm(old(Time()), t, timeout, repeat)
      ensures r == 0 ==> && nodes == old(nodes) + {t} && IsArmed(t) && t.owner == buckets[s] && t.cb == cb && t.repeat == repeat
                         && t.owner.index == s == SlotOf(B, now, timeout) && t.block == BlockOf(B, now, timeout) && t.moves == m
      ensures buckets[s].ring == old(buckets[s].ring) + if r == 0 then [t] else []
      ensures forall q :: 0 <= q < |buckets| && q != s ==> buckets[q].ring == old(buckets[q].ring)
    {
      hide MaxTimeout, SlotOf, BlockOf, PlacedAt, MayStart, Linked;
      if cb.NoCallback? || MaxTimeout(B) < timeout {
        return -1, 0;
      }
      var clamped := ClampedDeadline(now, timeout);
      var slot := FindSlot(B, now, timeout);
      StartPlaced(B, now, timeout, m);
      Enter(t, cb, clamped, repeat, slot, BlockOf(B, now, timeout), m);
      return 0, slot;
    }

    /** Linking and setting only t leaves every other timer armed as before. */
    twostate lemma ArmedAfter(t: Timer)
      requires IsArmed(t) && nodes == old(nodes) + {t} && old(t.owner) == null
      requires forall u <- old(nodes) :: u != t ==> u.owner == old(u.owner) && u.timeout == old(u.timeout) && u.repeat == old(u.repeat)
      ensures Armed() == old(Armed())[t := Alarm(t.timeout, t.repeat)]
    {
    }

    /** timer_stop; k is where in its ring t was. */
    method Stop(t: Timer) returns (ghost k: nat)
      requires Valid() && (IsArmed(t) || t.Idle())
      modifies buckets, nodes`prev, nodes`next, t`owner
      ensures Valid() && t.Idle() && Time() == Disarm(old(Time()), t)
      ensures !old(IsArmed(t)) ==> forall q :: 0 <= q < |buckets| ==> buckets[q].ring == old(buckets[q].ring)
      ensures old(IsArmed(t)) ==>
                && 0 < k < |old(t.owner.ring)| && old(t.owner.ring)[k] == t
                && (forall j :: 0 <= j < |old(t.owner.ring)| && old(t.owner.ring)[j] == t ==> j == k)
                && old(t.owner).ring == Bucket.Without(old(t.owner.ring), k)
      ensures forall q :: 0 <= q < |buckets| && buckets[q] != old(t.owner) ==> buckets[q].ring == old(buckets[q].ring)
    {
      hide PlacedAt, MaxTimeout, Linked;
      k := Unlink(t);
      assert Armed() == old(Armed()) - {t};
      forall u | u in nodes && IsArmed(u)
        ensures Placed(u)
      {
        assert old(IsArmed(u)) && old(Placed(u));
      }
    }

    lemma IdleIsDisarmed(t: Timer)
      requires Valid() && t.Idle()
      ensures t !in Armed() && Armed() - {t} == Armed() && |buckets| > 0
    {
    }

    /** timer_again. */
    method Again(t: Timer) returns (r: int, ghost s: nat)
      requires Valid() && t.Idle()
      modifies this`nodes, buckets, nodes`prev, nodes`next, t
      ensures Valid() && s < |buckets|
      ensures r == if t.cb.NoCallback? then -1 else 0
      ensures var arm := t.cb.Callback? && 0 < t.repeat <= MaxTimeout(B);
              && Time() == (if arm then TimerSpec.Arm(old(Time()), t, t.repeat, t.repeat) else old(Time()))
              && (arm ==> && nodes == old(nodes) + {t} && IsArmed(t) && t.owner == buckets[s]
                          && t.owner.index == s == SlotOf(B, now, t.repeat) && t.block == BlockOf(B, now, t.repeat) && t.moves == 0)
              && (!arm ==> nodes == old(nodes) && t.Idle())
              && buckets[s].ring == old(buckets[s].ring) + if arm then [t] else []
      ensures t.cb == old(t.cb) && t.repeat == old(t.repeat)
      ensures forall q :: 0 <= q < |buckets| && q != s ==> buckets[q].ring == old(buckets[q].ring)
    {
      hide PlacedAt, MaxTimeout, Linked, SlotOf, BlockOf, Valid, Armed;
      s := 0;
      IdleIsDisarmed(t);
      if t.cb.NoCallback? {
        return -1, 0;
      }
      if t.repeat > 0 {
        var _ := Stop(t);
        var _, slot := Start(t, t.cb, t.repeat, t.repeat);
        s := slot;
      }
      return 0, s;
    }

    /** timer_reset. A delay that is too long leaves the timer disarmed. */
    method Reset(t: Timer, timeout: nat) returns (r: int)
      requires Valid() && (IsArmed(t) || t.Idle())
      modifies this`nodes, buckets, nodes`prev, nodes`next, t
      ensures Valid()
      ensures r == if old(t.cb).NoCallback? then -1 else 0
      ensures t.cb == old(t.cb) && old(nodes) <= nodes <= old(nodes) + {t} && (t in nodes || t.Idle())
      ensures Time() == if r != 0 then old(Time())
                        else if timeout <= MaxTimeout(B) then TimerSpec.Arm(old(Time()), t, timeout, 0)
                        else Disarm(old(Time()), t)
    {
      hide PlacedAt, MaxTimeout, Linked, SlotOf, BlockOf, Valid, Armed;
      if t.cb.NoCallback? {
        return -1;
      }
      var _ := Stop(t);
      var _, _ := Start(t, t.cb, timeout, 0);
      return 0;
    }

    // ----- cascading

    /** Where a traversal of a bucket starts: its first timer, or the sentinel when it is empty. */
    ghost function First(b: Bucket): Timer
      reads b
    {
      if |b.ring| > 1 then b.ring[1] else b.head
    }

    lemma FirstLinks(s: nat)
      requires Valid() && s < |buckets|
      ensures var b := buckets[s];
              && b.index == s && |b.ring| >= 1 && b.ring[0] == b.head && b.head.next == First(b)
              && (|b.ring| > 1 ==>
                    && IsArmed(b.ring[1]) && b.ring[1].owner == b
                    && b.ring[1].next == if |b.ring| > 2 then b.ring[2] else b.head)
    {
      var b := buckets[s];
      assert b.Valid() && b.ring[0].next == First(b);
      if |b.ring| > 1 {
        assert b.ring[1] in b.ring && b.ring[0] != b.ring[1];
      }
    }

    /** Outside bucket s, the upper wheel holds only timers to be cascaded after this tick. */
    ghost predicate SettledBut(s: nat)
      reads this, buckets, nodes
    {
      forall t :: t in nodes && IsArmed(t) && t.owner.index >= B && t.owner.index != s ==> Later(B, now, t.block)
    }

    /** One round of the loop of timer_cascade, for the first timer of upper bucket s. */
    method CascadeOne(timer: Timer, ghost s: nat)
      requires Valid() && now % B == 0 && s == B + now / B % B && s < |buckets|
      requires |buckets[s].ring| > 1 && timer == buckets[s].ring[1] && SettledBut(s)
      modifies this`nodes, buckets, nodes
      ensures Valid() && Time() == old(Time()) && nodes == old(nodes)
      ensures forall t <- nodes :: t.cb == old(t.cb)
      ensures buckets[s].ring == old(Bucket.Without(buckets[s].ring, 1)) && SettledBut(s)
      ensures timer.moves == old(timer.moves) + 1
    {
      hide PlacedAt, MaxTimeout, Linked, SlotOf, BlockOf, Later, Valid, Armed, Time, LinkOk, CeilDiv, TimerSpec.Arm, TimerSpec.Disarm;
      FirstLinks(s);
      ArmedAlarm(timer);
      CascadeBlock(B, now, s, timer.timeout, timer.block, timer.moves);
      assert timer.timeout >= now;
      var timeout := timer.timeout - now;
      CascadeTarget(B, now, s, timeout);
      TimerSpec.Rearm(Time(), timer, timeout);
      var _ := Stop(timer);
      var _, _ := Start(timer, timer.cb, timeout, timer.repeat, timer.moves + 1);
    }

    lemma ArmedAlarm(t: Timer)
      requires Valid() && IsArmed(t)
      ensures Time().now == now && t in Time().armed && Time().armed[t] == Alarm(t.timeout, t.repeat) && Placed(t)
      ensures t.owner.index < |buckets| && t.owner == buckets[t.owner.index] && t in t.owner.ring
    {
      assert LinkOk(t);
    }

    /** timer_cascade on the upper wheel: drains bucket bidx back into the two wheels. */
    method Cascade(bidx: nat) returns (r: nat)
      requires Valid() && now % B == 0 && bidx == now / B % B && B + bidx < |buckets|
      requires SettledBut(B + bidx)
      modifies this`nodes, buckets, nodes
      ensures Valid() && Time() == old(Time()) && nodes == old(nodes) && r == bidx
      ensures forall t <- nodes :: t.cb == old(t.cb)
      ensures Settled()
    {
      hide Valid, Armed, Time, Later, IsArmed, SettledBut;
      ghost var s := B + bidx;
      var bucket := buckets[B + bidx];
      FirstLinks(s);
      var timer := bucket.head.next;
      while timer != bucket.head
        invariant Valid() && Time() == old(Time()) && nodes == old(nodes)
        invariant |bucket.ring| >= 1 && bucket.ring[0] == bucket.head && timer == First(bucket)
        invariant SettledBut(s) && forall t <- nodes :: t.cb == old(t.cb)
        decreases |bucket.ring|
      {
        FirstLinks(s);
        var next := timer.next;
        CascadeOne(timer, s);
        FirstLinks(s);
        timer := next;
      }
      EmptyIsSettled(s);
      return bidx;
    }

    /** The upper wheel holds only timers to be cascaded after this tick. */
    ghost predicate Settled()
      reads this, buckets, nodes
    {
      forall t :: t in nodes && IsArmed(t) && t.owner.index >= B ==> Later(B, now, t.block)
    }

    lemma EmptyIsSettled(s: nat)
      requires Valid() && SettledBut(s) && s < |buckets| && First(buckets[s]) == buckets[s].head
      ensures Settled()
    {
      forall t | t in nodes && IsArmed(t) && t.owner.index == s
        ensures false
      {
        ArmedAlarm(t);
        FirstLinks(s);
      }
    }

    // ----- ticks

    /** One round of the loop of timer_tick, up to the callback, for the first timer of bucket s. */
    method FireOne(timer: Timer, ghost s: nat)
      requires Valid() && Settled() && s == now % B && s < |buckets|
      requires |buckets[s].ring| > 1 && timer == buckets[s].ring[1]
      modifies this`nodes, buckets, nodes
      ensures Valid() && Settled() && nodes == old(nodes)
      ensures forall t <- nodes :: t.cb == old(t.cb)
      ensures old(timer in Time().armed && Time().armed[timer].deadline == now)
      ensures Time() == Expire(old(Time()), timer, MaxTimeout(B))
      ensures buckets[s].ring == old(Bucket.Without(buckets[s].ring, 1))
    {
      hide PlacedAt, MaxTimeout, Linked, SlotOf, BlockOf, Later, Valid, Armed, Time, LinkOk, CeilDiv;
      FirstLinks(s);
      ArmedAlarm(timer);
      LowerDue(B, now, s, timer.timeout, timer.block, timer.moves);
      if 0 < timer.repeat <= MaxTimeout(B) {
        AgainTarget(B, now, timer.repeat);
      }
      var _ := Stop(timer);
      RearmExpires(old(Time()), timer);
      var _, _ := Again(timer);
    }

    lemma RearmExpires(c: Clock<Timer>, t: Timer)
      requires t in c.armed
      ensures var repeat := c.armed[t].repeat;
              Expire(c, t, MaxTimeout(B)) == if 0 < repeat <= MaxTimeout(B)
                                             then TimerSpec.Arm(Disarm(c, t), t, repeat, repeat) else Disarm(c, t)
    {
      assert (c.armed - {t})[t := Alarm(c.now + c.armed[t].repeat, c.armed[t].repeat)]
          == c.armed[t := Alarm(c.now + c.armed[t].repeat, c.armed[t].repeat)];
    }

    /** Before bucket 0 of the lower wheel runs, the cascade leaves nothing due in the upper wheel. */
    lemma SettledElsewhere()
      requires Valid()
      ensures now % B == 0 ==> SettledBut(B + now / B % B)
      ensures now % B != 0 ==> Settled()
    {
      hide PlacedAt, Later;
      forall t | t in nodes && IsArmed(t) && t.owner.index >= B && (now % B == 0 ==> t.owner.index != B + now / B % B)
        ensures Later(B, now, t.block)
      {
        assert Placed(t);
        UpperLater(B, now, t.owner.index, t.timeout, t.block, t.moves);
      }
    }

    lemma CascadeIndex()
      requires Valid()
      ensures now % B < |buckets| && CurIndex(B, now, 1) == now / B % B && B + now / B % B < |buckets|
    {
    }

    /** Once its bucket is empty and the upper wheel is settled, no timer is due now. */
    lemma NothingDue(s: nat)
      requires Valid() && Settled() && s == now % B && s < |buckets| && First(buckets[s]) == buckets[s].head
      ensures forall t <- Time().armed :: now < Time().armed[t].deadline
    {
      hide Later;
      forall t | t in nodes && IsArmed(t)
        ensures now < t.timeout
      {
        ArmedAlarm(t);
        FirstLinks(s);
        DueSlot(B, now, t.owner.index, t.timeout, t.block, t.moves);
      }
    }

    /** ++timer_mgr->timeout, when no timer is due. */
    method Advance()
      requires Valid() && Settled() && now + 1 + MaxTimeout(B) < UINT64_LIMIT
      requires forall t <- Time().armed :: now < Time().armed[t].deadline
      modifies this`now
      ensures Valid() && now == old(now) + 1 && Armed() == old(Armed())
    {
      hide PlacedAt, MaxTimeout, Linked, Later;
      forall t | t in nodes && IsArmed(t)
        ensures PlacedAt(B, now + 1, t.owner.index, t.timeout, t.block, t.moves)
      {
        ArmedAlarm(t);
        PlacedLater(B, now, t.owner.index, t.timeout, t.block, t.moves);
      }
      now := now + 1;
    }

    /**
     timer_tick: runs the callbacks of exactly the timers due at this tick, each once, and rearms
     those that repeat. The callbacks themselves are the result, in the order they run.
     */
    method Tick() returns (fired: seq<Timer>)
      requires Valid() && now + 1 + MaxTimeout(B) < UINT64_LIMIT
      modifies this`now, this`nodes, buckets, nodes
      ensures Valid() && nodes == old(nodes) && Time() == TimerSpec.Tick(old(Time()), MaxTimeout(B))
      ensures Elements(fired) == Due(old(Time())) && |fired| == |Due(old(Time()))| && now == old(now) + 1
      ensures forall t <- nodes :: t.cb == old(t.cb)
    {
      hide Valid, Armed, Later, IsArmed, SettledBut, Settled, CurIndex, MaxTimeout, Expired, Due, Expire, Elements;
      ghost var c := Time();
      ghost var longest := MaxTimeout(B);
      var bidx := now % B;
      SettledElsewhere();
      if bidx == 0 {
        var widx := 1;
        while widx < WHEEL_COUNT
          invariant Valid() && Time() == c && nodes == old(nodes) && 1 <= widx <= WHEEL_COUNT
          invariant forall t <- nodes :: t.cb == old(t.cb)
          invariant if widx == 1 then SettledBut(B + now / B % B) else Settled()
        {
          CascadeIndex();
          var r := Cascade(CurIndex(B, now, widx));
          if r != 0 {
            break;
          }
          widx := widx + 1;
        }
      }
      CascadeIndex();
      var bucket := buckets[bidx];
      FirstLinks(bidx);
      var timer: Timer := bucket.head.next;
      fired := [];
      NothingExpired(c, longest);
      while timer != bucket.head
        invariant Valid() && Settled() && nodes == old(nodes) && now == c.now
        invariant |bucket.ring| >= 1 && bucket.ring[0] == bucket.head && timer == First(bucket)
        invariant forall t <- nodes :: t.cb == old(t.cb)
        invariant Elements(fired) <= Due(c) && |fired| == |Elements(fired)|
        invariant Time() == c.(armed := Expired(c, Elements(fired), longest))
        decreases |bucket.ring|
      {
        FirstLinks(bidx);
        var next: Timer := timer.next;
        FireOne(timer, bidx);
        ExpiredDue(c, Elements(fired), timer, longest);
        ExpiredNext(c, Elements(fired), timer, longest);
        FirstLinks(bidx);
        ElementsPush(fired, timer);
        fired := fired + [timer];
        timer := next;
      }
      NothingDue(bidx);
      ExpiredAll(c, Elements(fired), longest);
      Advance();
    }

    /** flowQoS_timer_tick: no callback runs before the time stamp of its tick. */
    method PollTick(tsc: nat) returns (fired: seq<Timer>)
      requires Valid() && now + 1 + MaxTimeout(B) < UINT64_LIMIT && startStmp + now * gap < UINT64_LIMIT
      modifies this`now, this`nodes, buckets, nodes
      ensures Valid() && nodes == old(nodes)
      ensures var run := startStmp + old(now) * gap < tsc;
              && Time() == (if run then TimerSpec.Tick(old(Time()), MaxTimeout(B)) else old(Time()))
              && Elements(fired) == (if run then Due(old(Time())) else {})
              && |fired| == |Elements(fired)|
    {
      hide Valid, Armed, MaxTimeout, Due, TimerSpec.Tick;
      fired := [];
      if startStmp + now * gap < tsc {
        fired := Tick();
      }
    }

    /** No armed timer has been moved by more than two cascades. */
    lemma MovedAtMostTwice(t: Timer)
      requires Valid() && IsArmed(t)
      ensures t.moves <= 2
    {
    }

    /** Every timer of ks can be named in a call: no sentinel, idle unless linked, with a callback. */
    ghost predicate Usable(ks: set<Timer>)
      reads this`nodes, ks
    {
      forall k <- ks :: k.cb.Callback? && (forall b <- buckets :: b.head != k) && (k in nodes || k.Idle())
    }

    lemma UsableNow(ks: set<Timer>, k: Timer)
      requires Valid() && Usable(ks) && k in ks
      ensures IsArmed(k) || k.Idle()
      ensures k !in Time().armed ==> k.Idle()
    {
      if k in nodes {
        assert LinkOk(k);
      }
    }

    /** One call on the wheel does to the map, and fires, what TimerSpec says. */
    method Perform(op: Op<Timer>, ghost ks: set<Timer>) returns (log: seq<set<Timer>>)
      requires Valid() && Usable(ks) && (op.TickOp? || op.k in ks) && (op.Add? ==> op.k !in Time().armed)
      requires op.TickOp? ==> now + 1 + MaxTimeout(B) < UINT64_LIMIT
      modifies this`now, this`nodes, buckets, nodes, ks
      ensures Valid() && Usable(ks) && nodes <= old(nodes) + ks
      ensures Time() == TimerSpec.Step(old(Time()), op, MaxTimeout(B))
      ensures now == old(now) + if op.TickOp? then 1 else 0
      ensures log == if op.TickOp? then [Due(old(Time()))] else []
    {
      hide Valid, Armed, MaxTimeout, Due, IsArmed, TimerSpec.Tick;
      log := [];
      if !op.TickOp? {
        UsableNow(ks, op.k);
      }
      match op {
        case Add(k, delay, repeat) =>
          var _, _ := Start(k, k.cb, delay, repeat);
        case Del(k) =>
          var _ := Stop(k);
        case Reset(k, delay) =>
          var _ := Reset(k, delay);
        case TickOp =>
          var fired := Tick();
          log := [set t | t in fired];
          assert log[0] == Elements(fired);
      }
    }

    /** A whole run of calls on the wheel fires what the same run fires on the map. */
    method RunAll(ops: seq<Op<Timer>>, ghost ks: set<Timer>) returns (log: seq<set<Timer>>)
      requires Valid() && Usable(ks) && now + |ops| + MaxTimeout(B) < UINT64_LIMIT
      requires forall op <- ops :: op.TickOp? || op.k in ks
      requires Legal(Time(), ops, MaxTimeout(B))
      modifies this`now, this`nodes, buckets, nodes, ks
      ensures Valid() && Time() == TimerSpec.Run(old(Time()), ops, MaxTimeout(B))
      ensures log == TimerSpec.Fired(old(Time()), ops, MaxTimeout(B))
      decreases |ops|
    {
      hide Valid, Armed, MaxTimeout, Due, Usable, Time, TimerSpec.Step;
      if ops == [] {
        return [];
      }
      assert ops[0] in ops;
      assert forall op <- ops[1..] :: op in ops;
      log := Perform(ops[0], ks);
      var rest := RunAll(ops[1..], ks);
      log := log + rest;
    }
  }

  lemma NothingExpired(c: Clock<Timer>, longest: nat)
    ensures Elements<Timer>([]) == {} && Expired(c, {}, longest) == c.armed
  {
  }
}
