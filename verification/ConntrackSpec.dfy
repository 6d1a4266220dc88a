/**
 The life of connection contexts on one worker core as a state machine: a context moves from the
 pool into the hash table, through the priority queues into the hardware table, and back by software
 or hardware aging. Contexts are identified by values of any type C.
 */
module ConntrackSpec {
  import opened Rules
  import TimerSpec
  import opened Sequences

  const QUEUES := 4
  const DEFAULT_EXPIRE := 10

  datatype CtState = SwFwd | FlowQos | HwFwd

  /** A context; serial says which admission it serves, enqueues how often it was queued since. */
  datatype Ctx = Ctx(entry: Entry, state: CtState, serial: nat, enqueues: nat)

  datatype World<!C(==)> = World(
    enabled: bool,                // ENABLE_FLOWQOS
    limit: nat,                   // MaxOffloadedEntry
    longest: nat,                 // TIMER_MAX_TIMEOUT
    ctxs: map<C, Ctx>,            // every context there is
    pool: set<C>,
    table: map<Match, C>,
    timers: TimerSpec.Clock<C>,
    queues: seq<seq<C>>,
    hw: map<C, HwRule>,           // installed rules by their user_data
    tokens: int,                  // maxEntry
    ctNum: int,
    total: seq<nat>,              // entries ever queued, by priority
    enqueued: nat,                // FILTER_ENQUEUED_TOTAL
    admitted: seq<Entry>,         // every connection ever admitted
    live: map<nat, C>,            // those still live
    aged: map<nat, Entry>         // those whose aging callback ran, and what it was told
  )

  // ----- the invariant

  predicate Consistent(e: Entry, longest: nat) {
    && e.key.flags == e.pipe.matchFlags && e.action.flags == e.pipe.actionFlags
    && ((e.pipe.matchFlags == TCP_MATCH_FLAGS && e.key.proto == L4_TCP)
        || (e.pipe.matchFlags == UDP_MATCH_FLAGS && e.key.proto == L4_UDP))
    && e.action.flags != {AGING} && 0 < e.expireTime && e.expireTime * 1000 <= longest
  }

  /** What an aging callback is told about a connection is what the application admitted. */
  ghost predicate SameConn(e: Entry, admitted: Entry) {
    e.key == admitted.key && e.action == admitted.action && e.pipe == admitted.pipe
  }

  /**
   What a context has of the other details of the admitted entry: how long it may be idle (10 seconds
   if that was 0), and the priority, which names one of the queues once it has been queued.
   */
  ghost predicate Kept(x: Ctx, admitted: Entry) {
    && x.entry.expireTime == (if admitted.expireTime > 0 then admitted.expireTime else 10)
    && x.entry.priority == if x.enqueues == 0 then admitted.priority else admitted.priority % 4
  }

  ghost predicate InUse<C>(w: World<C>, c: C) {
    c in w.ctxs && c !in w.pool
  }

  ghost predicate Unqueued<C>(w: World<C>, c: C) {
    forall q <- w.queues :: c !in q
  }

  /** In the pool, and linked nowhere. */
  ghost predicate Free<C>(w: World<C>, c: C) {
    && c in w.pool && c !in w.timers.armed && c !in w.hw && Unqueued(w, c)
    && (forall k <- w.table :: w.table[k] != c) && (forall n <- w.live :: w.live[n] != c)
  }

  /** In the hash table, under its own key and no other, serving one admission. */
  ghost predicate Tabled<C>(w: World<C>, c: C) {
    InUse(w, c) &&
    var x := w.ctxs[c];
    && x.entry.key in w.table && w.table[x.entry.key] == c && Consistent(x.entry, w.longest)
    && (forall k <- w.table :: w.table[k] == c ==> k == x.entry.key)
    && x.serial in w.live && w.live[x.serial] == c && (forall n <- w.live :: w.live[n] == c ==> n == x.serial)
    && x.serial < |w.admitted| && SameConn(x.entry, w.admitted[x.serial]) && Kept(x, w.admitted[x.serial])
  }

  ghost predicate Armed<C>(w: World<C>, c: C) {
    c in w.timers.armed && w.timers.armed[c].repeat == 0 && w.timers.now <= w.timers.armed[c].deadline
  }

  /** SW_FWD: timer armed, unqueued, not in the hardware. */
  ghost predicate InSoftware<C>(w: World<C>, c: C) {
    && Tabled(w, c) && w.ctxs[c].state == SwFwd && w.ctxs[c].enqueues == 0
    && Armed(w, c) && c !in w.hw && Unqueued(w, c)
  }

  /** FLOW_QOS: timer armed, in exactly the queue its priority names, not in the hardware. */
  ghost predicate InQueue<C>(w: World<C>, c: C) {
    && Tabled(w, c) && w.ctxs[c].state == FlowQos && w.ctxs[c].enqueues == 1 && w.enabled
    && Armed(w, c) && c !in w.hw && w.ctxs[c].entry.priority < |w.queues|
    && forall p :: 0 <= p < |w.queues| ==> (c in w.queues[p] <==> p == w.ctxs[c].entry.priority)
  }

  /** HW_FWD: its rule in the hardware, timer unlinked, unqueued. */
  ghost predicate InHardware<C>(w: World<C>, c: C) {
    && Tabled(w, c) && w.ctxs[c].state == HwFwd && w.ctxs[c].enqueues == (if w.enabled then 1 else 0)
    && c !in w.timers.armed && c in w.hw && w.hw[c] == CompiledRule(w.ctxs[c].entry) && Unqueued(w, c)
  }

  /** Each context is in one of four situations. */
  ghost predicate Placed<C>(w: World<C>, c: C) {
    Free(w, c) || InSoftware(w, c) || InQueue(w, c) || InHardware(w, c)
  }

  /** What the structures hold are contexts; no queue holds one twice. */
  ghost predicate Closed<C>(w: World<C>) {
    && (forall c <- w.pool :: c in w.ctxs) && (forall k <- w.table :: w.table[k] in w.ctxs)
    && (forall c <- w.timers.armed :: c in w.ctxs) && (forall c <- w.hw :: c in w.ctxs)
    && (forall n <- w.live :: w.live[n] in w.ctxs)
    && |w.queues| == |w.total| == QUEUES
    && (forall q <- w.queues :: NoDuplicates(q) && forall c <- q :: c in w.ctxs)
  }

  /** Conservation of hardware entries, and the filter's count of queued connections. */
  ghost predicate Counted<C>(w: World<C>) {
    && (if w.enabled then w.tokens + |w.hw| == w.limit && w.ctNum == w.limit
        else w.ctNum + |w.hw| == w.limit)
    && w.enqueued == Sum(w.total)
  }

  /** Every connection ever admitted is either live or has had its aging callback, not both. */
  ghost predicate Ledger<C>(w: World<C>) {
    && (forall n :: n in w.live || n in w.aged <==> 0 <= n < |w.admitted|)
    && (forall n <- w.live :: n !in w.aged)
    && (forall n <- w.aged :: SameConn(w.aged[n], w.admitted[n]))
  }

  ghost predicate Inv<C>(w: World<C>) {
    (forall c <- w.ctxs :: Placed(w, c)) && Closed(w) && Counted(w) && Ledger(w)
  }

  /** Everywhere but at c, w' agrees with w. */
  ghost predicate Touches<C>(w: World<C>, w': World<C>, c: C) {
    && w'.enabled == w.enabled && w'.longest == w.longest && w'.timers.now == w.timers.now
    && (forall d <- w.ctxs :: d in w'.ctxs && (d != c ==> w'.ctxs[d] == w.ctxs[d]))
    && (forall d <- w.pool :: d != c ==> d in w'.pool) && (forall d <- w'.pool :: d != c ==> d in w.pool)
    && (forall k <- w.table :: w.table[k] != c ==> k in w'.table && w'.table[k] == w.table[k])
    && (forall k <- w'.table :: w'.table[k] != c ==> k in w.table && w'.table[k] == w.table[k])
    && (forall d <- w.timers.armed :: d != c ==> d in w'.timers.armed && w'.timers.armed[d] == w.timers.armed[d])
    && (forall d <- w'.timers.armed :: d != c ==> d in w.timers.armed)
    && (forall d <- w.hw :: d != c ==> d in w'.hw && w'.hw[d] == w.hw[d])
    && (forall d <- w'.hw :: d != c ==> d in w.hw)
    && (forall n <- w.live :: w.live[n] != c ==> n in w'.live && w'.live[n] == w.live[n])
    && (forall n <- w'.live :: w'.live[n] != c ==> n in w.live && w'.live[n] == w.live[n])
    && |w'.queues| == |w.queues|
    && (forall p, d :: 0 <= p < |w.queues| && d in w.queues[p] && d != c ==> d in w'.queues[p])
    && (forall p, d :: 0 <= p < |w.queues| && d in w'.queues[p] && d != c ==> d in w.queues[p])
    && w.admitted <= w'.admitted
  }

  lemma Untouched<C>(w: World<C>, w': World<C>, c: C, d: C)
    requires Touches(w, w', c) && d in w.ctxs && d != c && Placed(w, d)
    ensures Placed(w', d)
  {
    hide Consistent, CompiledRule;
    assert Unqueued(w, d) ==> Unqueued(w', d) by {
      if Unqueued(w, d) {
        forall p | 0 <= p < |w'.queues|
          ensures d !in w'.queues[p]
        {
          assert w.queues[p] in w.queues;
        }
      }
    }
    hide Unqueued;
    if Free(w, d) {
      assert Free(w', d);
    } else {
      assert Tabled(w', d);
    }
  }

  // ----- steps

  function Defaulted(e: Entry): Entry {
    e.(expireTime := if e.expireTime == 0 then DEFAULT_EXPIRE else e.expireTime)
  }

  /** flowQoS_addConnToHash, when it succeeds with context c. */
  ghost predicate CanAdmit<C>(w: World<C>, c: C, e: Entry) {
    c in w.pool && e.key !in w.table && Consistent(Defaulted(e), w.longest)
  }

  ghost function Admit<C>(w: World<C>, c: C, e: Entry): World<C> {
    var e' := Defaulted(e);
    w.(ctxs := w.ctxs[c := Ctx(e', SwFwd, |w.admitted|, 0)], pool := w.pool - {c}, table := w.table[e.key := c],
       timers := TimerSpec.Arm(w.timers, c, e'.expireTime * 1000, 0),
       admitted := w.admitted + [e], live := w.live[|w.admitted| := c])
  }

  /** A packet refreshes the software timer. */
  ghost predicate CanRefresh<C>(w: World<C>, c: C) {
    InUse(w, c) && w.ctxs[c].state != HwFwd
  }

  ghost function Refresh<C>(w: World<C>, c: C): World<C>
    requires CanRefresh(w, c)
  {
    w.(timers := TimerSpec.Arm(w.timers, c, w.ctxs[c].entry.expireTime * 1000, 0))
  }

  /** The filter lets a connection through to the scheduler. */
  ghost predicate CanEnqueue<C>(w: World<C>, c: C) {
    w.enabled && InUse(w, c) && w.ctxs[c].state == SwFwd
  }

  ghost function Enqueue<C>(w: World<C>, c: C): World<C>
    requires CanEnqueue(w, c) && |w.queues| == |w.total| == QUEUES
  {
    var x := w.ctxs[c];
    var p := x.entry.priority % QUEUES;
    w.(ctxs := w.ctxs[c := Ctx(x.entry.(priority := p), FlowQos, x.serial, x.enqueues + 1)],
       queues := w.queues[p := w.queues[p] + [c]],
       total := w.total[p := w.total[p] + 1], enqueued := w.enqueued + 1)
  }

  /** The state of c once flowQoS_add_entry and flowQoS_qosHandler have succeeded for it. */
  ghost function Installing<C>(w: World<C>, c: C): World<C>
    requires c in w.ctxs
  {
    var x := w.ctxs[c];
    w.(ctxs := w.ctxs[c := x.(entry := Installed(x.entry), state := HwFwd)],
       timers := TimerSpec.Disarm(w.timers, c), hw := w.hw[c := CompiledRule(x.entry)])
  }

  /** The scheduler offloads the head of queue p. */
  ghost predicate CanOffloadHead<C>(w: World<C>, p: nat) {
    w.enabled && p < |w.queues| && w.queues[p] != [] && w.queues[p][0] in w.ctxs && w.tokens > 0
  }

  ghost function OffloadHead<C>(w: World<C>, p: nat): World<C>
    requires CanOffloadHead(w, p)
  {
    Installing(w, w.queues[p][0]).(queues := w.queues[p := w.queues[p][1..]], tokens := w.tokens - 1)
  }

  /** Without the scheduler, a packet offloads its connection at once. */
  ghost predicate CanOffloadNow<C>(w: World<C>, c: C) {
    !w.enabled && InUse(w, c) && w.ctxs[c].state == SwFwd && w.ctNum > 0
  }

  ghost function OffloadNow<C>(w: World<C>, c: C): World<C>
    requires CanOffloadNow(w, c)
  {
    Installing(w, c).(ctNum := w.ctNum - 1)
  }

  /** A packet of c offers it to the scheduler or the hardware, if the filter lets it through. */
  ghost function Offered<C>(w: World<C>, c: C, ready: bool, accept: bool): World<C> {
    if ready && CanEnqueue(w, c) && |w.queues| == |w.total| == QUEUES then Enqueue(w, c)
    else if ready && accept && CanOffloadNow(w, c) then OffloadNow(w, c)
    else w
  }

  /** A packet of c refreshes its timer, if the last refresh is long enough ago. */
  ghost function Refreshed<C>(w: World<C>, c: C, stale: bool): World<C> {
    if stale && CanRefresh(w, c) then Refresh(w, c) else w
  }

  /** flowQoS_delConnFromHash and the application's aging callback. */
  ghost function Released<C>(w: World<C>, c: C): World<C>
    requires c in w.ctxs
  {
    var x := w.ctxs[c];
    w.(pool := w.pool + {c}, table := w.table - {x.entry.key},
       live := w.live - {x.serial}, aged := w.aged[x.serial := x.entry])
  }

  /** The software timer of c expires. */
  ghost predicate CanExpire<C>(w: World<C>, c: C) {
    c in w.timers.armed && c in w.ctxs && w.timers.armed[c].deadline == w.timers.now
  }

  ghost function Expire<C>(w: World<C>, c: C): World<C>
    requires CanExpire(w, c)
  {
    var x := w.ctxs[c];
    Released(w, c).(
      timers := TimerSpec.Disarm(w.timers, c),
      queues := if w.enabled && x.state == FlowQos && x.entry.priority < |w.queues|
                then w.queues[x.entry.priority := Remove(w.queues[x.entry.priority], c)] else w.queues)
  }

  /** The hardware reports the rule of c as aged, and its removal succeeds. */
  ghost predicate CanAge<C>(w: World<C>, c: C) {
    c in w.hw && c in w.ctxs
  }

  ghost function Age<C>(w: World<C>, c: C): World<C>
    requires CanAge(w, c)
  {
    var back := w.enabled && w.ctxs[c].state == HwFwd;
    Released(w, c).(
      hw := w.hw - {c},
      tokens := if back then (if w.tokens + 1 > w.limit then w.limit else w.tokens + 1) else w.tokens,
      ctNum := if back then w.ctNum else w.ctNum + 1)
  }

  /** The tick ends, once no timer is due any more. */
  ghost predicate CanAdvance<C>(w: World<C>) {
    TimerSpec.Due(w.timers) == {}
  }

  ghost function Advance<C>(w: World<C>): World<C> {
    w.(timers := w.timers.(now := w.timers.now + 1))
  }

  function Sum(s: seq<nat>): nat {
    if s == [] then 0 else s[0] + Sum(s[1..])
  }

  lemma {:induction false} SumBump(s: seq<nat>, i: nat)
    requires i < |s|
    ensures Sum(s[i := s[i] + 1]) == Sum(s) + 1
  {
    var t := s[i := s[i] + 1];
    if i > 0 {
      assert t[1..] == s[1..][i - 1 := s[1..][i - 1] + 1];
      SumBump(s[1..], i - 1);
    } else {
      assert t[1..] == s[1..];
    }
  }

  // ----- every step keeps the invariant

  /** A step that touches only c keeps the invariant if it leaves c placed and the totals right. */
  lemma StepInv<C>(w: World<C>, w': World<C>, c: C)
    requires Inv(w) && Touches(w, w', c) && w'.ctxs.Keys == w.ctxs.Keys && c in w.ctxs
    requires Placed(w', c) && Closed(w') && Counted(w') && Ledger(w')
    ensures Inv(w')
  {
    hide Touches, Placed, Closed, Counted, Ledger;
    forall d <- w'.ctxs
      ensures Placed(w', d)
    {
      if d != c {
        Untouched(w, w', c, d);
      }
    }
  }

  lemma PlacedInUse<C>(w: World<C>, c: C)
    requires Inv(w) && c in w.ctxs
    ensures Closed(w) && Counted(w) && Ledger(w) && Placed(w, c)
    ensures c in w.pool ==> Free(w, c)
    ensures c !in w.pool ==> Tabled(w, c)
    ensures InUse(w, c) && w.ctxs[c].state == SwFwd ==> InSoftware(w, c)
    ensures InUse(w, c) && w.ctxs[c].state == FlowQos ==> InQueue(w, c)
    ensures InUse(w, c) && w.ctxs[c].state == HwFwd ==> InHardware(w, c)
  {
    hide Consistent, CompiledRule, Unqueued, Closed, Counted, Ledger;
    assert Placed(w, c);
  }

  // admission

  lemma AdmitTouches<C>(w: World<C>, c: C, e: Entry)
    requires Free(w, c) && e.key !in w.table && |w.admitted| !in w.live
    ensures Touches(w, Admit(w, c, e), c)
  {
    hide Consistent, Unqueued;
  }

  lemma AdmitPlaced<C>(w: World<C>, c: C, e: Entry)
    requires Free(w, c) && CanAdmit(w, c, e) && c in w.ctxs
    ensures InSoftware(Admit(w, c, e), c)
  {
    hide Consistent;
  }

  lemma AdmitTotals<C>(w: World<C>, c: C, e: Entry)
    requires Closed(w) && Counted(w) && c in w.ctxs
    ensures var w' := Admit(w, c, e); Closed(w') && Counted(w')
  {
    hide Consistent, NoDuplicates, Sum;
  }

  lemma AdmitLedger<C>(w: World<C>, c: C, e: Entry)
    requires Ledger(w)
    ensures Ledger(Admit(w, c, e)) && |w.admitted| !in w.live
  {
  }

  lemma AdmitInv<C>(w: World<C>, c: C, e: Entry)
    requires Inv(w) && CanAdmit(w, c, e)
    ensures Inv(Admit(w, c, e))
  {
    assert c in w.ctxs;
    hide Inv, Placed, Free, Touches, Ledger, Closed, Counted, Consistent, InSoftware;
    PlacedInUse(w, c);
    AdmitTotals(w, c, e);
    AdmitLedger(w, c, e);
    AdmitTouches(w, c, e);
    AdmitPlaced(w, c, e);
    AnyPlace(Admit(w, c, e), c);
    StepInv(w, Admit(w, c, e), c);
  }

  lemma AnyPlace<C>(w: World<C>, c: C)
    ensures Free(w, c) || InSoftware(w, c) || InQueue(w, c) || InHardware(w, c) ==> Placed(w, c)
  {
  }

  /** A new connection starts in software, with its timer due after the time it may be idle. */
  lemma JustAdmitted<C>(w: World<C>, c: C, e: Entry)
    requires CanAdmit(w, c, e) && c in w.ctxs
    ensures var w', idle := Admit(w, c, e), if e.expireTime > 0 then e.expireTime else 10;
            && InUse(w', c) && w'.ctxs[c].state == SwFwd && w'.ctxs[c].entry == e.(expireTime := idle)
            && w'.timers.now == w.timers.now && c in w'.timers.armed
            && w'.timers.armed[c] == TimerSpec.Alarm(w.timers.now + 1000 * idle, 0)
  {
  }

  // a refreshed timer

  lemma RefreshPlaced<C>(w: World<C>, c: C)
    requires CanRefresh(w, c) && (InSoftware(w, c) || InQueue(w, c))
    ensures var w' := Refresh(w, c); Touches(w, w', c) && (InSoftware(w', c) || InQueue(w', c))
  {
    hide Consistent, CompiledRule;
    var w' := Refresh(w, c);
    assert Touches(w, w', c);
    assert Tabled(w', c);
  }

  lemma RefreshTotals<C>(w: World<C>, c: C)
    requires CanRefresh(w, c) && Closed(w) && Counted(w) && Ledger(w)
    ensures var w' := Refresh(w, c); Closed(w') && Counted(w') && Ledger(w')
  {
  }

  lemma RefreshInv<C>(w: World<C>, c: C)
    requires Inv(w) && CanRefresh(w, c)
    ensures Inv(Refresh(w, c))
  {
    hide Inv, Placed, Free, Touches, Ledger, Closed, Counted, InSoftware, InQueue, InHardware;
    PlacedInUse(w, c);
    RefreshTotals(w, c);
    RefreshPlaced(w, c);
    AnyPlace(Refresh(w, c), c);
    StepInv(w, Refresh(w, c), c);
  }

  // queueing

  lemma EnqueuePlaced<C>(w: World<C>, c: C)
    requires CanEnqueue(w, c) && InSoftware(w, c) && |w.queues| == |w.total| == QUEUES
    ensures var w' := Enqueue(w, c); Touches(w, w', c) && InQueue(w', c) && w'.ctxs.Keys == w.ctxs.Keys
  {
    hide Consistent, CompiledRule;
    var w' := Enqueue(w, c);
    assert Touches(w, w', c);
    KeepsConsistent(w.ctxs[c].entry, w.ctxs[c].entry.priority % QUEUES, w.longest);
    assert Tabled(w', c);
    forall p | 0 <= p < |w'.queues|
      ensures c in w'.queues[p] <==> p == w'.ctxs[c].entry.priority
    {
      assert w.queues[p] in w.queues;
    }
  }

  lemma KeepsConsistent(e: Entry, priority: nat, longest: nat)
    requires Consistent(e, longest)
    ensures Consistent(e.(priority := priority), longest)
  {
  }

  lemma EnqueueClosed<C>(w: World<C>, c: C)
    requires CanEnqueue(w, c) && Closed(w) && Unqueued(w, c)
    ensures Closed(Enqueue(w, c))
  {
    var w', p := Enqueue(w, c), w.ctxs[c].entry.priority % QUEUES;
    assert NoDuplicates(w'.queues[p]) && forall d <- w'.queues[p] :: d in w'.ctxs by {
      assert w.queues[p] in w.queues;
    }
    hide NoDuplicates, Unqueued;
    forall q <- w'.queues
      ensures NoDuplicates(q) && forall d <- q :: d in w'.ctxs
    {
      assert q == w'.queues[p] || q in w.queues;
    }
  }

  lemma EnqueueTotals<C>(w: World<C>, c: C)
    requires CanEnqueue(w, c) && Counted(w) && Ledger(w) && |w.queues| == |w.total| == QUEUES
    ensures var w' := Enqueue(w, c); Counted(w') && Ledger(w')
  {
    SumBump(w.total, w.ctxs[c].entry.priority % QUEUES);
    hide Sum;
  }

  lemma EnqueueInv<C>(w: World<C>, c: C)
    requires Inv(w) && CanEnqueue(w, c)
    ensures |w.queues| == |w.total| == QUEUES && Inv(Enqueue(w, c))
  {
    hide Inv, Placed, Free, Touches, Ledger, Counted, InSoftware, InQueue, InHardware, Unqueued, Enqueue, NoDuplicates;
    assert |w.queues| == |w.total| == QUEUES && Unqueued(w, c) by {
      PlacedInUse(w, c);
      SoftwareUnqueued(w, c);
    }
    hide Closed;
    PlacedInUse(w, c);
    EnqueueClosed(w, c);
    EnqueueTotals(w, c);
    EnqueuePlaced(w, c);
    AnyPlace(Enqueue(w, c), c);
    StepInv(w, Enqueue(w, c), c);
  }

  lemma SoftwareUnqueued<C>(w: World<C>, c: C)
    requires InSoftware(w, c)
    ensures Unqueued(w, c)
  {
  }

  // offloading

  lemma InstallingPlaced<C>(w: World<C>, w': World<C>, c: C)
    requires InUse(w, c) && (InQueue(w, c) || (InSoftware(w, c) && !w.enabled))
    requires var i := Installing(w, c);
             w' == i.(queues := w'.queues, tokens := w'.tokens, ctNum := w'.ctNum)
    requires |w'.queues| == |w.queues| && Unqueued(w', c)
    requires forall p, d :: 0 <= p < |w.queues| && d != c ==> (d in w'.queues[p] <==> d in w.queues[p])
    ensures Touches(w, w', c) && InHardware(w', c)
  {
    InstalledSame(w.ctxs[c].entry, w.longest);
    hide Consistent, CompiledRule, Unqueued, Installed;
    assert Touches(w, w', c);
    assert Tabled(w', c);
  }

  /** flowQoS_add_entry's overwriting of the flags does not change the key the table knows. */
  lemma InstalledSame(e: Entry, longest: nat)
    requires Consistent(e, longest)
    ensures Installed(e) == e
  {
  }

  lemma OffloadTotals<C>(w: World<C>, w': World<C>, c: C)
    requires Closed(w) && Counted(w) && Ledger(w) && c in w.ctxs && c !in w.hw
    requires var i := Installing(w, c);
             w' == i.(queues := w'.queues, tokens := w.tokens - (if w.enabled then 1 else 0),
                      ctNum := w.ctNum - (if w.enabled then 0 else 1))
    requires |w'.queues| == |w.queues| && forall q <- w'.queues :: NoDuplicates(q) && forall d <- q :: d in w.ctxs
    ensures Closed(w') && Counted(w') && Ledger(w')
  {
    hide Closed, Counted, Ledger, CompiledRule, NoDuplicates;
    OffloadCounted(w, w', c);
    OffloadClosed(w, w', c);
    OffloadLedger(w, w', c);
  }

  lemma OffloadClosed<C>(w: World<C>, w': World<C>, c: C)
    requires Closed(w) && c in w.ctxs
    requires var i := Installing(w, c); w' == i.(queues := w'.queues, tokens := w'.tokens, ctNum := w'.ctNum)
    requires |w'.queues| == |w.queues| && forall q <- w'.queues :: NoDuplicates(q) && forall d <- q :: d in w.ctxs
    ensures Closed(w')
  {
    hide CompiledRule, NoDuplicates;
  }

  lemma OffloadLedger<C>(w: World<C>, w': World<C>, c: C)
    requires Ledger(w) && c in w.ctxs
    requires var i := Installing(w, c); w' == i.(queues := w'.queues, tokens := w'.tokens, ctNum := w'.ctNum)
    ensures Ledger(w')
  {
    hide CompiledRule;
  }

  lemma OffloadCounted<C>(w: World<C>, w': World<C>, c: C)
    requires Counted(w) && c in w.ctxs && c !in w.hw
    requires var i := Installing(w, c);
             w' == i.(queues := w'.queues, tokens := w.tokens - (if w.enabled then 1 else 0),
                      ctNum := w.ctNum - (if w.enabled then 0 else 1))
    ensures Counted(w')
  {
    hide CompiledRule, Sum;
  }

  lemma NowQueues<C>(w: World<C>, c: C)
    requires Closed(w) && CanOffloadNow(w, c) && InSoftware(w, c)
    ensures var w' := OffloadNow(w, c);
            && InUse(w, c) && c !in w.hw && Unqueued(w', c) && w'.queues == w.queues
            && forall q <- w'.queues :: NoDuplicates(q) && forall d <- q :: d in w.ctxs
  {
    hide Tabled, CompiledRule, NoDuplicates;
  }

  lemma OffloadNowInv<C>(w: World<C>, c: C)
    requires Inv(w) && CanOffloadNow(w, c)
    ensures Inv(OffloadNow(w, c))
  {
    hide Inv, Placed, Free, Touches, Ledger, Counted, Closed, InSoftware, InQueue, InHardware, NoDuplicates, Unqueued, CompiledRule;
    var w' := OffloadNow(w, c);
    PlacedInUse(w, c);
    NowQueues(w, c);
    OffloadTotals(w, w', c);
    InstallingPlaced(w, w', c);
    AnyPlace(w', c);
    StepInv(w, w', c);
  }

  lemma HeadQueues<C>(w: World<C>, p: nat)
    requires Closed(w) && CanOffloadHead(w, p) && InQueue(w, w.queues[p][0])
    ensures var w', c := OffloadHead(w, p), w.queues[p][0];
            && |w'.queues| == |w.queues| && Unqueued(w', c)
            && (forall q, d :: 0 <= q < |w.queues| && d != c ==> (d in w'.queues[q] <==> d in w.queues[q]))
            && (forall q <- w'.queues :: NoDuplicates(q) && forall d <- q :: d in w.ctxs)
  {
    hide Tabled, Consistent, CompiledRule;
    var w', c := OffloadHead(w, p), w.queues[p][0];
    assert w.queues[p] in w.queues && w.queues[p] == [c] + w'.queues[p];
    forall q <- w'.queues
      ensures c !in q && NoDuplicates(q) && forall d <- q :: d in w.ctxs
    {
      var i :| 0 <= i < |w'.queues| && w'.queues[i] == q;
      assert w.queues[i] in w.queues;
    }
  }

  lemma QueuedHead<C>(w: World<C>, p: nat)
    requires Inv(w) && CanOffloadHead(w, p)
    ensures var c := w.queues[p][0]; InQueue(w, c) && InUse(w, c) && c !in w.hw
  {
    hide Consistent, CompiledRule, Ledger, Counted;
    var c := w.queues[p][0];
    assert w.queues[p] in w.queues && c in w.queues[p];
    assert Placed(w, c);
  }

  lemma OffloadHeadInv<C>(w: World<C>, p: nat)
    requires Inv(w) && CanOffloadHead(w, p)
    ensures Inv(OffloadHead(w, p)) && InQueue(w, w.queues[p][0])
  {
    hide Inv, Placed, Free, Touches, Ledger, Counted, Closed, InSoftware, InQueue, InHardware, NoDuplicates, Unqueued, CompiledRule;
    var w', c := OffloadHead(w, p), w.queues[p][0];
    QueuedHead(w, p);
    PlacedInUse(w, c);
    HeadQueues(w, p);
    OffloadTotals(w, w', c);
    InstallingPlaced(w, w', c);
    AnyPlace(w', c);
    StepInv(w, w', c);
  }

  // aging

  /** Releasing c, together with what removes it from the timers, the queues or the hardware. */
  lemma ReleasedPlaced<C>(w: World<C>, w': World<C>, c: C)
    requires Tabled(w, c) && c !in w'.timers.armed && c !in w'.hw && Unqueued(w', c)
    requires w' == Released(w, c).(timers := w'.timers, queues := w'.queues, hw := w'.hw, tokens := w'.tokens, ctNum := w'.ctNum)
    requires w'.timers == TimerSpec.Disarm(w.timers, c) && w'.hw == w.hw - {c} && |w'.queues| == |w.queues|
    requires forall p, d :: 0 <= p < |w.queues| && d != c ==> (d in w'.queues[p] <==> d in w.queues[p])
    ensures Touches(w, w', c) && Free(w', c)
  {
    hide Consistent, CompiledRule, Unqueued;
  }

  lemma ReleasedTotals<C>(w: World<C>, w': World<C>, c: C)
    requires Closed(w) && Ledger(w) && Tabled(w, c)
    requires w' == Released(w, c).(timers := w'.timers, queues := w'.queues, hw := w'.hw, tokens := w'.tokens, ctNum := w'.ctNum)
    requires w'.timers == TimerSpec.Disarm(w.timers, c) && w'.hw == w.hw - {c} && |w'.queues| == |w.queues|
    requires forall q <- w'.queues :: NoDuplicates(q) && forall d <- q :: d in w.ctxs
    ensures Closed(w') && Ledger(w') && w.ctxs[c].serial !in w.aged && w.ctxs[c].serial in w.live
  {
    hide Consistent, CompiledRule, NoDuplicates;
  }

  lemma ExpireQueues<C>(w: World<C>, c: C)
    requires Closed(w) && CanExpire(w, c) && (InSoftware(w, c) || InQueue(w, c))
    ensures var w' := Expire(w, c);
            && |w'.queues| == |w.queues| && Unqueued(w', c)
            && (forall q, d :: 0 <= q < |w.queues| && d != c ==> (d in w'.queues[q] <==> d in w.queues[q]))
            && (forall q <- w'.queues :: NoDuplicates(q) && forall d <- q :: d in w.ctxs)
  {
    hide Tabled, Consistent, CompiledRule;
    var w', p := Expire(w, c), w.ctxs[c].entry.priority;
    if w.ctxs[c].state == FlowQos && p < |w.queues| {
      assert w.queues[p] in w.queues;
      RemoveOne(w.queues[p], c);
      forall q <- w'.queues
        ensures c !in q && NoDuplicates(q) && forall d <- q :: d in w.ctxs
      {
        var i :| 0 <= i < |w'.queues| && w'.queues[i] == q;
        assert w.queues[i] in w.queues;
      }
    }
  }

  lemma ExpireWho<C>(w: World<C>, c: C)
    requires Inv(w) && CanExpire(w, c)
    ensures (InSoftware(w, c) || InQueue(w, c)) && c !in w.pool && w.hw - {c} == w.hw
  {
    hide Consistent, CompiledRule, Ledger, Counted, Closed, Unqueued;
    assert Placed(w, c);
    assert c !in w.hw ==> w.hw - {c} == w.hw;
  }

  lemma ExpireCounted<C>(w: World<C>, c: C)
    requires Counted(w) && CanExpire(w, c) && w.hw - {c} == w.hw
    ensures Counted(Expire(w, c))
  {
  }

  lemma ExpireInv<C>(w: World<C>, c: C)
    requires Inv(w) && CanExpire(w, c)
    ensures Inv(Expire(w, c)) && (InSoftware(w, c) || InQueue(w, c))
    ensures w.ctxs[c].serial !in w.aged
  {
    hide Inv, Placed, Free, Touches, Ledger, Counted, Closed, InSoftware, InQueue, InHardware, NoDuplicates, Unqueued, Tabled;
    var w' := Expire(w, c);
    ExpireWho(w, c);
    PlacedInUse(w, c);
    ExpireQueues(w, c);
    ExpireCounted(w, c);
    ReleasedTotals(w, w', c);
    ReleasedPlaced(w, w', c);
    AnyPlace(w', c);
    StepInv(w, w', c);
  }

  lemma AgeWho<C>(w: World<C>, c: C)
    requires Inv(w) && CanAge(w, c)
    ensures InHardware(w, c) && c !in w.pool && Unqueued(w, c) && TimerSpec.Disarm(w.timers, c) == w.timers
  {
    hide Consistent, CompiledRule, Ledger, Counted, Closed, Unqueued;
    assert Placed(w, c);
    assert c !in w.timers.armed ==> w.timers.armed - {c} == w.timers.armed;
  }

  lemma AgeCounted<C>(w: World<C>, c: C)
    requires Counted(w) && CanAge(w, c) && InHardware(w, c)
    ensures Counted(Age(w, c)) && (w.enabled ==> w.tokens < w.limit)
  {
    hide Tabled, CompiledRule, Unqueued;
    RemoveCard(w.hw, c);
  }

  lemma AgeInv<C>(w: World<C>, c: C)
    requires Inv(w) && CanAge(w, c)
    ensures Inv(Age(w, c)) && InHardware(w, c) && (w.enabled ==> w.tokens < w.limit)
    ensures w.ctxs[c].serial !in w.aged
  {
    hide Inv, Placed, Free, Touches, Ledger, Counted, InSoftware, InQueue, InHardware, NoDuplicates, Unqueued, Tabled;
    var w' := Age(w, c);
    AgeWho(w, c);
    PlacedInUse(w, c);
    AgeCounted(w, c);
    ReleasedTotals(w, w', c);
    hide Closed;
    UnqueuedFor(w, w', c);
    ReleasedPlaced(w, w', c);
    AnyPlace(w', c);
    StepInv(w, w', c);
  }

  lemma UnqueuedFor<C>(w: World<C>, w': World<C>, c: C)
    requires Unqueued(w, c) && w'.queues == w.queues
    ensures Unqueued(w', c)
  {
  }

  // time

  lemma AdvanceInv<C>(w: World<C>)
    requires Inv(w) && CanAdvance(w)
    ensures Inv(Advance(w))
  {
    var w' := Advance(w);
    hide Consistent, CompiledRule, Ledger, Counted, NoDuplicates;
    assert Closed(w') && Counted(w') && Ledger(w') by {
      AdvanceTotals(w);
    }
    forall c <- w'.ctxs
      ensures Placed(w', c)
    {
      assert Placed(w, c);
      assert c !in TimerSpec.Due(w.timers);
      AdvancePlaced(w, c);
    }
  }

  lemma AdvanceTotals<C>(w: World<C>)
    requires Closed(w) && Counted(w) && Ledger(w)
    ensures Closed(Advance(w)) && Counted(Advance(w)) && Ledger(Advance(w))
  {
  }

  lemma AdvancePlaced<C>(w: World<C>, c: C)
    requires Placed(w, c) && c !in TimerSpec.Due(w.timers)
    ensures Placed(Advance(w), c)
  {
    hide Consistent, CompiledRule;
    assert Tabled(w, c) ==> Tabled(Advance(w), c);
    assert Armed(w, c) ==> Armed(Advance(w), c);
  }

  // ----- runs

  datatype Event<C> =
    | Admission(c: C, e: Entry) | Refreshing(c: C) | Enqueueing(c: C) | HeadOffload(p: nat) | DirectOffload(c: C)
    | SoftwareAging(c: C) | HardwareAging(c: C) | ClockTick

  ghost predicate Enabled<C>(w: World<C>, ev: Event<C>) {
    match ev
    case Admission(c, e) => CanAdmit(w, c, e)
    case Refreshing(c) => CanRefresh(w, c)
    case Enqueueing(c) => CanEnqueue(w, c) && |w.queues| == |w.total| == QUEUES
    case HeadOffload(p) => CanOffloadHead(w, p)
    case DirectOffload(c) => CanOffloadNow(w, c)
    case SoftwareAging(c) => CanExpire(w, c)
    case HardwareAging(c) => CanAge(w, c)
    case ClockTick => CanAdvance(w)
  }

  ghost function Next<C>(w: World<C>, ev: Event<C>): World<C>
    requires Enabled(w, ev)
  {
    match ev
    case Admission(c, e) => Admit(w, c, e)
    case Refreshing(c) => Refresh(w, c)
    case Enqueueing(c) => Enqueue(w, c)
    case HeadOffload(p) => OffloadHead(w, p)
    case DirectOffload(c) => OffloadNow(w, c)
    case SoftwareAging(c) => Expire(w, c)
    case HardwareAging(c) => Age(w, c)
    case ClockTick => Advance(w)
  }

  // what an event is, one at a time

  lemma AdmissionEvent<C>(w: World<C>, c: C, e: Entry)
    requires CanAdmit(w, c, e)
    ensures Enabled(w, Admission(c, e)) && Next(w, Admission(c, e)) == Admit(w, c, e)
  {
  }

  lemma RefreshEvent<C>(w: World<C>, c: C)
    requires CanRefresh(w, c)
    ensures Enabled(w, Refreshing(c)) && Next(w, Refreshing(c)) == Refresh(w, c)
  {
  }

  lemma EnqueueEvent<C>(w: World<C>, c: C)
    requires CanEnqueue(w, c) && |w.queues| == |w.total| == QUEUES
    ensures Enabled(w, Enqueueing(c)) && Next(w, Enqueueing(c)) == Enqueue(w, c)
  {
  }

  lemma HeadEvent<C>(w: World<C>, p: nat)
    requires CanOffloadHead(w, p)
    ensures Enabled(w, HeadOffload(p)) && Next(w, HeadOffload(p)) == OffloadHead(w, p)
  {
  }

  lemma DirectEvent<C>(w: World<C>, c: C)
    requires CanOffloadNow(w, c)
    ensures Enabled(w, DirectOffload(c)) && Next(w, DirectOffload(c)) == OffloadNow(w, c)
  {
  }

  lemma ExpireEvent<C>(w: World<C>, c: C)
    requires CanExpire(w, c)
    ensures Enabled(w, SoftwareAging(c)) && Next(w, SoftwareAging(c)) == Expire(w, c)
  {
  }

  lemma AgeEvent<C>(w: World<C>, c: C)
    requires CanAge(w, c)
    ensures Enabled(w, HardwareAging(c)) && Next(w, HardwareAging(c)) == Age(w, c)
  {
  }

  lemma TickEvent<C>(w: World<C>)
    requires CanAdvance(w)
    ensures Enabled(w, ClockTick) && Next(w, ClockTick) == Advance(w)
  {
  }

  /** w' is reached from w by some interleaving of events. */
  ghost predicate Reaches<C>(w: World<C>, evs: seq<Event<C>>, w': World<C>)
    decreases |evs|
  {
    if evs == [] then w' == w else Enabled(w, evs[0]) && Reaches(Next(w, evs[0]), evs[1..], w')
  }

  lemma {:induction false} ReachesPush<C>(w: World<C>, evs: seq<Event<C>>, w': World<C>, ev: Event<C>)
    requires Reaches(w, evs, w') && Enabled(w', ev)
    ensures Reaches(w, evs + [ev], Next(w', ev))
    decreases |evs|
  {
    hide Enabled, Next;
    if evs == [] {
      ReachesNone(Next(w, ev));
      assert ([ev])[1..] == [];
      assert evs + [ev] == [ev];
    } else {
      ReachesPush(Next(w, evs[0]), evs[1..], w', ev);
      assert (evs + [ev])[1..] == evs[1..] + [ev];
    }
  }

  lemma ReachesNone<C>(w: World<C>)
    ensures Reaches(w, [], w)
  {
  }

  /** A packet leaves its connection's entry as it is, but for the priority. */
  lemma OfferedKeeps<C>(w: World<C>, c: C, ready: bool, accept: bool)
    requires Inv(w) && InUse(w, c)
    ensures var w' := Offered(w, c, ready, accept); InUse(w', c) && SameConn(w'.ctxs[c].entry, w.ctxs[c].entry)
    ensures w.ctxs[c].state != SwFwd ==> Offered(w, c, ready, accept) == w
  {
    hide Inv, CompiledRule, Consistent, Installed;
    ConsistentInUse(w, c);
  }

  lemma ArmedInSoftware<C>(w: World<C>, c: C)
    requires Inv(w) && InUse(w, c)
    ensures |w.queues| == |w.total| == 4 && Installed(w.ctxs[c].entry) == w.ctxs[c].entry
    ensures c in w.timers.armed <==> w.ctxs[c].state != HwFwd
  {
    PlacedInUse(w, c);
    ConsistentInUse(w, c);
    hide Inv, Tabled, Unqueued;
  }

  /**
   What the offer of a packet comes to: a software connection that is let through moves to the end of the
   queue of its priority, or without the scheduler to the hardware if that has an entry and accepts.
   */
  lemma OfferMeans<C>(w: World<C>, c: C, ready: bool, accept: bool)
    requires Inv(w) && InUse(w, c) && (ready ==> w.ctxs[c].state == SwFwd)
    ensures |w.queues| == 4
    ensures var w' := Offered(w, c, ready, accept);
            c in w'.ctxs &&
            var x, queued := w.ctxs[c], ready && w.enabled;
            && w'.ctxs[c].state == (if queued then FlowQos else if ready && accept && w.ctNum > 0 then HwFwd else x.state)
            && w'.ctxs[c].entry == (if queued then x.entry.(priority := x.entry.priority % 4) else x.entry)
            && (!queued ==> w'.queues == w.queues)
            && (queued ==> var p := x.entry.priority % 4; w'.queues == w.queues[p := w.queues[p] + [c]])
            && w'.timers == if w'.ctxs[c].state == HwFwd && x.state != HwFwd then TimerSpec.Disarm(w.timers, c) else w.timers
  {
    ArmedInSoftware(w, c);
    hide Inv, CompiledRule, Installed;
  }

  /** A packet of c makes at most these two steps. */
  lemma PacketSteps<C>(w: World<C>, c: C, ready: bool, accept: bool, stale: bool) returns (evs: seq<Event<C>>)
    requires Inv(w)
    ensures Reaches(w, evs, Refreshed(Offered(w, c, ready, accept), c, stale))
    ensures forall ev <- evs :: (ev.Enqueueing? || ev.DirectOffload? || ev.Refreshing?) && ev.c == c
  {
    hide Inv, Enqueue, OffloadNow, Refresh, Reaches;
    evs := [];
    ReachesNone(w);
    var w1 := Offered(w, c, ready, accept);
    if ready && CanEnqueue(w, c) && |w.queues| == |w.total| == QUEUES {
      ReachesPush(w, evs, w, Enqueueing(c));
      evs := evs + [Enqueueing(c)];
    } else if ready && accept && CanOffloadNow(w, c) {
      ReachesPush(w, evs, w, DirectOffload(c));
      evs := evs + [DirectOffload(c)];
    }
    if stale && CanRefresh(w1, c) {
      ReachesPush(w, evs, w1, Refreshing(c));
      evs := evs + [Refreshing(c)];
    }
  }

  lemma NextInv<C>(w: World<C>, ev: Event<C>)
    requires Inv(w) && Enabled(w, ev)
    ensures Inv(Next(w, ev))
  {
    hide Inv, Admit, Refresh, Enqueue, OffloadHead, OffloadNow, Expire, Age, Advance;
    match ev {
      case Admission(c, e) => AdmitInv(w, c, e);
      case Refreshing(c) => RefreshInv(w, c);
      case Enqueueing(c) => EnqueueInv(w, c);
      case HeadOffload(p) => OffloadHeadInv(w, p);
      case DirectOffload(c) => OffloadNowInv(w, c);
      case SoftwareAging(c) => ExpireInv(w, c);
      case HardwareAging(c) => AgeInv(w, c);
      case ClockTick => AdvanceInv(w);
    }
  }

  /** The state after initialisation: every context in the pool, every other structure empty. */
  ghost predicate Initial<C>(w: World<C>) {
    && w.pool == w.ctxs.Keys && w.table == map[] && w.timers == TimerSpec.Clock(0, map[]) && w.hw == map[]
    && w.queues == [[], [], [], []] && w.total == [0, 0, 0, 0] && w.enqueued == 0
    && w.tokens == w.limit && w.ctNum == w.limit && w.admitted == [] && w.live == map[] && w.aged == map[]
  }

  ghost function Blank<C>(enabled: bool, limit: nat, longest: nat, ctxs: map<C, Ctx>): (w: World<C>)
    ensures Initial(w) && w.enabled == enabled && w.limit == limit && w.longest == longest && w.ctxs == ctxs
    ensures w.pool == ctxs.Keys && w.table == map[] && w.hw == map[] && w.tokens == w.ctNum == limit && w.enqueued == 0
    ensures w.timers == TimerSpec.Clock(0, map[]) && |w.queues| == |w.total| == QUEUES
    ensures forall p :: 0 <= p < QUEUES ==> w.queues[p] == [] && w.total[p] == 0
  {
    World(enabled, limit, longest, ctxs, ctxs.Keys, map[], TimerSpec.Clock(0, map[]), [[], [], [], []], map[],
          limit, limit, [0, 0, 0, 0], 0, [], map[], map[])
  }

  lemma InitialInv<C>(w: World<C>)
    requires Initial(w)
    ensures Inv(w)
  {
    assert Sum([0, 0, 0, 0]) == 0 by {
      assert [0, 0, 0, 0][1..] == [0, 0, 0] && [0, 0, 0][1..] == [0, 0] && [0, 0][1..] == [0] && [0][1..] == [];
    }
    assert forall c <- w.ctxs :: Free(w, c);
  }

  /** Every reachable state satisfies the invariant. */
  lemma {:induction false} ReachableInv<C>(w: World<C>, evs: seq<Event<C>>, w': World<C>)
    requires Inv(w) && Reaches(w, evs, w')
    ensures Inv(w')
    decreases |evs|
  {
    hide Inv, Enabled, Next;
    if evs != [] {
      NextInv(w, evs[0]);
      ReachableInv(Next(w, evs[0]), evs[1..], w');
    }
  }

  // ----- what the invariant gives

  /** The scheduler offloads the heads of several queues, in the order of done. */
  ghost function OffloadAll<C>(w: World<C>, done: seq<(nat, C)>): World<C> {
    if done == [] then w
    else
      var w1 := OffloadAll(w, done[..|done| - 1]);
      var p := done[|done| - 1].0;
      if CanOffloadHead(w1, p) then OffloadHead(w1, p) else w1
  }

  lemma OffloadAllNone<C>(w: World<C>)
    ensures OffloadAll(w, []) == w
  {
  }

  lemma OffloadAllPush<C>(w: World<C>, done: seq<(nat, C)>, p: nat, c: C)
    requires CanOffloadHead(OffloadAll(w, done), p)
    ensures OffloadAll(w, done + [(p, c)]) == OffloadHead(OffloadAll(w, done), p)
  {
    assert (done + [(p, c)])[..|done|] == done;
  }

  /** Several software timers expire in one tick. */
  ghost function ExpireAll<C>(w: World<C>, cs: seq<C>): World<C> {
    if cs == [] then w
    else
      var w1 := ExpireAll(w, cs[..|cs| - 1]);
      if CanExpire(w1, cs[|cs| - 1]) then Expire(w1, cs[|cs| - 1]) else w1
  }

  lemma ExpireAllNone<C>(w: World<C>)
    ensures ExpireAll(w, []) == w
  {
  }

  lemma ExpireAllPush<C>(w: World<C>, cs: seq<C>, c: C)
    requires CanExpire(ExpireAll(w, cs), c)
    ensures ExpireAll(w, cs + [c]) == Expire(ExpireAll(w, cs), c)
  {
    assert (cs + [c])[..|cs|] == cs;
  }

  lemma OneShots<C>(w: World<C>)
    requires Inv(w)
    ensures forall c <- w.timers.armed :: c in w.ctxs && w.timers.armed[c].repeat == 0
  {
    hide Consistent, CompiledRule, Counted, Ledger, Unqueued;
    forall c <- w.timers.armed
      ensures w.timers.armed[c].repeat == 0
    {
      assert Placed(w, c);
    }
  }

  lemma NotQueuedYet<C>(w: World<C>, c: C)
    requires Inv(w) && CanEnqueue(w, c)
    ensures |w.queues| == QUEUES && c !in w.queues[w.ctxs[c].entry.priority % QUEUES]
  {
    PlacedInUse(w, c);
    assert w.queues[w.ctxs[c].entry.priority % QUEUES] in w.queues;
  }

  lemma HeadInUse<C>(w: World<C>, p: nat)
    requires Inv(w) && p < |w.queues| && w.queues[p] != []
    ensures InUse(w, w.queues[p][0])
  {
    hide Consistent, CompiledRule, Ledger, Counted;
    var c := w.queues[p][0];
    assert w.queues[p] in w.queues && c in w.queues[p];
    assert Placed(w, c);
  }

  lemma ConsistentInUse<C>(w: World<C>, c: C)
    requires Inv(w) && InUse(w, c)
    ensures var e := w.ctxs[c].entry; Consistent(e, w.longest) && e.action.flags != {AGING} && Installed(e) == e
  {
    PlacedInUse(w, c);
    InstalledSame(w.ctxs[c].entry, w.longest);
  }

  /** An offload takes the head off its queue, installs its rule, stops its timer and uses one token. */
  lemma HeadMeans<C>(w: World<C>, p: nat)
    requires Inv(w) && CanOffloadHead(w, p)
    ensures var w', c := OffloadHead(w, p), w.queues[p][0];
            w' == w.(ctxs := w.ctxs[c := w.ctxs[c].(state := HwFwd)], timers := w.timers.(armed := w.timers.armed - {c}),
                     hw := w.hw[c := CompiledRule(w.ctxs[c].entry)],
                     queues := w.queues[p := w.queues[p][1..]], tokens := w.tokens - 1)
  {
    HeadInUse(w, p);
    ConsistentInUse(w, w.queues[p][0]);
    hide Inv, CompiledRule, Installed;
  }

  /** Several hardware rules age in one poll. */
  ghost function AgeAll<C>(w: World<C>, cs: seq<C>, removed: seq<bool>): World<C>
    requires |cs| == |removed|
  {
    if cs == [] then w
    else
      var w1 := AgeAll(w, cs[..|cs| - 1], removed[..|cs| - 1]);
      if removed[|cs| - 1] && CanAge(w1, cs[|cs| - 1]) then Age(w1, cs[|cs| - 1]) else w1
  }

  lemma AgeAllNone<C>(w: World<C>)
    ensures AgeAll(w, [], []) == w
  {
  }

  lemma AgeAllNext<C>(w: World<C>, cs: seq<C>, removed: seq<bool>, i: nat)
    requires i < |cs| == |removed|
    ensures var w1 := AgeAll(w, cs[..i], removed[..i]);
            AgeAll(w, cs[..i + 1], removed[..i + 1]) == if removed[i] && CanAge(w1, cs[i]) then Age(w1, cs[i]) else w1
  {
    assert cs[..i + 1][..i] == cs[..i] && removed[..i + 1][..i] == removed[..i];
  }

  lemma QueuedPriority<C>(w: World<C>, c: C)
    requires Inv(w) && InUse(w, c) && w.ctxs[c].state == FlowQos
    ensures w.ctxs[c].entry.priority < |w.queues| && c in w.queues[w.ctxs[c].entry.priority]
  {
    PlacedInUse(w, c);
  }

  /** In a reachable state each context is in exactly one of the four situations. */
  lemma ExactlyOneSituation<C>(w: World<C>, c: C)
    requires Inv(w) && c in w.ctxs
    ensures (if Free(w, c) then 1 else 0) + (if InSoftware(w, c) then 1 else 0)
            + (if InQueue(w, c) then 1 else 0) + (if InHardware(w, c) then 1 else 0) == 1
  {
    hide Consistent, CompiledRule, Closed, Counted, Ledger, Unqueued;
    assert Placed(w, c);
  }

  /** No queue entry, no armed timer and no hardware user_data points to a freed context. */
  lemma NothingDangles<C>(w: World<C>, c: C)
    requires Inv(w) && c in w.pool
    ensures c !in w.timers.armed && c !in w.hw && Unqueued(w, c)
  {
    hide Consistent, CompiledRule, Counted, Ledger, Unqueued;
    assert Placed(w, c);
  }

  /**
   Hardware entries are conserved: the rules installed are those of the HW_FWD connections, and with
   the entries left, tokens or CT_NUM, they add up to the limit.
   */
  lemma EntriesConserved<C>(w: World<C>)
    requires Inv(w)
    ensures w.hw.Keys == set c | c in w.ctxs && InUse(w, c) && w.ctxs[c].state == HwFwd
    ensures |w.hw| + (if w.enabled then w.tokens else w.ctNum) == w.limit
  {
    hide Consistent, CompiledRule, Ledger, Unqueued;
    forall c <- w.ctxs
      ensures c in w.hw <==> InUse(w, c) && w.ctxs[c].state == HwFwd
    {
      assert Placed(w, c);
    }
  }

  /** A connection is queued at most once in its life, and the filter counts what the queues count. */
  lemma QueuedAtMostOnce<C>(w: World<C>, c: C)
    requires Inv(w) && InUse(w, c)
    ensures w.ctxs[c].enqueues <= 1 && (w.ctxs[c].state == SwFwd ==> w.ctxs[c].enqueues == 0)
    ensures w.enqueued == Sum(w.total)
  {
    PlacedInUse(w, c);
  }

  lemma {:induction false} InjectiveCard<K, V>(m: map<K, V>, s: set<V>)
    requires forall k <- m :: m[k] in s
    requires forall v <- s :: exists k <- m :: m[k] == v
    requires forall k, k' :: k in m && k' in m && m[k] == m[k'] ==> k == k'
    ensures |m| == |s|
    decreases s
  {
    if s == {} {
      assert m == map[];
    } else {
      var v :| v in s;
      var k :| k in m && m[k] == v;
      forall u <- s - {v}
        ensures exists k' <- m - {k} :: (m - {k})[k'] == u
      {
        var k' :| k' in m && m[k'] == u;
        assert (m - {k})[k'] == u;
      }
      InjectiveCard(m - {k}, s - {v});
      RemoveCard(m, k);
    }
  }

  /** Contexts are conserved: those in the pool and those in the table add up to all there are. */
  lemma PoolConserved<C>(w: World<C>)
    requires Inv(w)
    ensures |w.pool| + |w.table| == |w.ctxs|
  {
    var used := w.ctxs.Keys - w.pool;
    hide Consistent, CompiledRule, Counted, Ledger, Unqueued;
    forall c <- used
      ensures exists k <- w.table :: w.table[k] == c
    {
      PlacedInUse(w, c);
      assert w.table[w.ctxs[c].entry.key] == c;
    }
    forall k <- w.table
      ensures w.table[k] in used && k == w.ctxs[w.table[k]].entry.key
    {
      PlacedInUse(w, w.table[k]);
    }
    assert w.pool <= w.ctxs.Keys;
    hide Inv, Closed;
    InjectiveCard(w.table, used);
    assert w.pool + used == w.ctxs.Keys;
  }

  /** A packet of a connection that is already offloaded finds nothing to do to its context. */
  lemma LatePacketChangesNothing<C>(w: World<C>, c: C)
    requires Inv(w) && InUse(w, c) && w.ctxs[c].state == HwFwd
    ensures InHardware(w, c)
    ensures forall ready, accept, stale :: Refreshed(Offered(w, c, ready, accept), c, stale) == w
  {
    PlacedInUse(w, c);
    hide Inv, InHardware;
  }

  /** A round of the scheduler, the timers of a tick and a poll of aged rules are runs of single events. */
  lemma {:induction false} OffloadAllRuns<C>(w: World<C>, done: seq<(nat, C)>) returns (evs: seq<Event<C>>)
    ensures Reaches(w, evs, OffloadAll(w, done)) && forall ev <- evs :: ev.HeadOffload?
  {
    hide Reaches, OffloadHead;
    if done == [] {
      ReachesNone(w);
      evs := [];
    } else {
      var w1, p := OffloadAll(w, done[..|done| - 1]), done[|done| - 1].0;
      evs := OffloadAllRuns(w, done[..|done| - 1]);
      if CanOffloadHead(w1, p) {
        ReachesPush(w, evs, w1, HeadOffload(p));
        evs := evs + [HeadOffload(p)];
      }
    }
  }

  lemma {:induction false} ExpireAllRuns<C>(w: World<C>, cs: seq<C>) returns (evs: seq<Event<C>>)
    ensures Reaches(w, evs, ExpireAll(w, cs)) && forall ev <- evs :: ev.SoftwareAging?
  {
    hide Reaches, Expire;
    if cs == [] {
      ReachesNone(w);
      evs := [];
    } else {
      var w1, c := ExpireAll(w, cs[..|cs| - 1]), cs[|cs| - 1];
      evs := ExpireAllRuns(w, cs[..|cs| - 1]);
      if CanExpire(w1, c) {
        ReachesPush(w, evs, w1, SoftwareAging(c));
        evs := evs + [SoftwareAging(c)];
      }
    }
  }

  lemma {:induction false} AgeAllRuns<C>(w: World<C>, cs: seq<C>, removed: seq<bool>) returns (evs: seq<Event<C>>)
    requires |cs| == |removed|
    ensures Reaches(w, evs, AgeAll(w, cs, removed)) && forall ev <- evs :: ev.HardwareAging?
  {
    hide Reaches, Age;
    if cs == [] {
      ReachesNone(w);
      evs := [];
    } else {
      var n := |cs| - 1;
      var w1 := AgeAll(w, cs[..n], removed[..n]);
      evs := AgeAllRuns(w, cs[..n], removed[..n]);
      if removed[n] && CanAge(w1, cs[n]) {
        ReachesPush(w, evs, w1, HardwareAging(cs[n]));
        evs := evs + [HardwareAging(cs[n])];
      }
    }
  }

  /**
   The rule of an offloaded connection is hit by its packets only, and does what software does: the same
   header, out of the other port of its pair. What the pipe does not hit goes to software.
   */
  lemma OffloadedPathAgrees<C>(w: World<C>, c: C, rss: nat, h: Header)
    requires Inv(w) && c in w.hw && w.longest < 0x8000_0000 * 1000
    ensures c in w.ctxs &&
            var e := w.ctxs[c].entry;
            var pipe := CompiledPipe(e.pipe, rss);
            && (Hits(pipe, w.hw[c], h) <==> SameTuple(e.key, h)) && Execute(pipe, w.hw[c], h) == Rewrite(e.action, h)
            && pipe.hit.HwPort? && pipe.hit.portId != e.pipe.portId && pipe.hit.portId / 2 == e.pipe.portId / 2
            && pipe.miss == HwPipeFwd(rss)
  {
    hide Inv, CompiledRule, CompiledPipe, Hits, Execute, Rewrite, AgingArgument;
    RuleOf(w, c);
    var e := w.ctxs[c].entry;
    PositiveAging(e.expireTime);
    RuleHitsTuple(e, rss, h);
    HardwareRefinesSoftware(e, rss, h);
  }

  /** The rule of a connection whose action ages is reported after the seconds that were admitted (10 for 0). */
  lemma OffloadedAges<C>(w: World<C>, c: C)
    requires Inv(w) && c in w.hw && w.longest < 0x8000_0000 * 1000
    ensures c in w.ctxs && w.ctxs[c].serial < |w.admitted| &&
            var e := w.admitted[w.ctxs[c].serial];
            w.hw[c].monitor.aging == (AGING in e.action.flags)
            && (AGING in e.action.flags ==> w.hw[c].monitor.agingTime == if e.expireTime > 0 then e.expireTime else 10)
  {
    hide Inv, CompiledRule;
    RuleOf(w, c);
    RuleMonitor(w.ctxs[c].entry);
  }

  lemma RuleOf<C>(w: World<C>, c: C)
    requires Inv(w) && c in w.hw && w.longest < 0x8000_0000 * 1000
    ensures c in w.ctxs && w.ctxs[c].serial < |w.admitted| &&
            var e, e0 := w.ctxs[c].entry, w.admitted[w.ctxs[c].serial];
            && w.hw[c] == CompiledRule(e) && Tracked(e) && Installed(e) == e && 0 < e.expireTime < 0x8000_0000
            && e.action.flags == e.pipe.actionFlags && SameConn(e, e0) && Kept(w.ctxs[c], e0)
  {
    AgeWho(w, c);
    InstalledSame(w.ctxs[c].entry, w.longest);
    hide Inv, CompiledRule, Installed, Unqueued;
  }

  /** A queued connection waits in the queue of its admitted priority modulo the number of queues, and in no other. */
  lemma QueueOfPriority<C>(w: World<C>, c: C)
    requires Inv(w) && InUse(w, c) && w.ctxs[c].state == FlowQos
    ensures w.ctxs[c].serial < |w.admitted| && |w.queues| == 4
    ensures forall p :: 0 <= p < |w.queues| ==> (c in w.queues[p] <==> p == w.admitted[w.ctxs[c].serial].priority % 4)
  {
    PlacedInUse(w, c);
  }

  /** How many aging callbacks a run makes. */
  function Callbacks<C>(evs: seq<Event<C>>): nat {
    if evs == [] then 0
    else (if evs[0].SoftwareAging? || evs[0].HardwareAging? then 1 else 0) + Callbacks(evs[1..])
  }

  lemma NextLedger<C>(w: World<C>, ev: Event<C>)
    requires Inv(w) && Enabled(w, ev)
    ensures var w' := Next(w, ev);
            && (forall n <- w.aged :: n in w'.aged && w'.aged[n] == w.aged[n])
            && |w'.aged| == |w.aged| + (if ev.SoftwareAging? || ev.HardwareAging? then 1 else 0)
  {
    hide Inv, InSoftware, InQueue, InHardware, Consistent, CompiledRule, Installed, Remove;
    if ev.SoftwareAging? {
      ExpireInv(w, ev.c);
    } else if ev.HardwareAging? {
      AgeInv(w, ev.c);
    } else {
      assert Next(w, ev).aged == w.aged;
    }
  }

  /**
   Exactly one aging callback per connection: over any run the callbacks made are as many as the
   connections that left, what a callback was told stays on record, and every connection admitted
   is afterwards either live or has had its callback.
   */
  lemma {:induction false} AgedExactlyOnce<C>(w: World<C>, evs: seq<Event<C>>, w': World<C>)
    requires Inv(w) && Reaches(w, evs, w')
    ensures |w'.aged| == |w.aged| + Callbacks(evs)
    ensures forall n <- w.aged :: n in w'.aged && w'.aged[n] == w.aged[n]
    ensures forall n :: 0 <= n < |w'.admitted| ==> (n in w'.live <==> n !in w'.aged)
    decreases |evs|
  {
    hide Enabled, Next;
    if evs != [] {
      var w1 := Next(w, evs[0]);
      NextInv(w, evs[0]);
      NextLedger(w, evs[0]);
      AgedExactlyOnce(w1, evs[1..], w');
    }
  }

  // ----- when a connection ages

  /** The event refreshes the timer of connection n, or offloads it. */
  ghost predicate Disturbs<C>(w: World<C>, ev: Event<C>, n: nat) {
    n in w.live &&
    var c := w.live[n];
    || ev == Refreshing(c) || ev == DirectOffload(c)
    || (ev.HeadOffload? && ev.p < |w.queues| && w.queues[ev.p] != [] && w.queues[ev.p][0] == c)
  }

  /** Whatever else happens in the run, connection n is neither refreshed nor offloaded. */
  ghost predicate LeftAlone<C>(w: World<C>, evs: seq<Event<C>>, n: nat)
    decreases |evs|
  {
    evs == [] || (!Disturbs(w, evs[0], n) && (Enabled(w, evs[0]) ==> LeftAlone(Next(w, evs[0]), evs[1..], n)))
  }

  /** Connection n is live and its software timer is due at tick d, which has not passed. */
  ghost predicate DueAt<C>(w: World<C>, n: nat, d: nat) {
    n in w.live && w.live[n] in w.timers.armed && w.timers.armed[w.live[n]].deadline == d && w.timers.now <= d
  }

  lemma LiveInUse<C>(w: World<C>, n: nat)
    requires Inv(w) && n in w.live
    ensures InUse(w, w.live[n]) && Tabled(w, w.live[n]) && w.ctxs[w.live[n]].serial == n && n !in w.aged
    ensures n < |w.admitted| && Kept(w.ctxs[w.live[n]], w.admitted[n])
    ensures w.live[n] in w.timers.armed ==> w.live[n] !in w.hw && w.timers.now <= w.timers.armed[w.live[n]].deadline
  {
    hide Consistent, CompiledRule, Unqueued, Counted;
    assert Placed(w, w.live[n]);
  }

  /** Other timers than that of the event's connection keep their deadlines, until time moves on. */
  lemma OthersKeepDeadlines<C>(w: World<C>, ev: Event<C>, c: C)
    requires Enabled(w, ev) && c in w.timers.armed && (ev.HeadOffload? ==> w.queues[ev.p][0] != c)
    requires !ev.ClockTick? && !ev.HeadOffload? && !ev.HardwareAging? && !ev.Enqueueing? ==> ev.c != c
    ensures var t := Next(w, ev).timers;
            && c in t.armed && t.armed[c] == w.timers.armed[c] && t.now == w.timers.now + if ev.ClockTick? then 1 else 0
  {
    hide CompiledRule, Installed, Remove;
  }

  /** An aging takes the one connection that its context serves from the live ones. */
  lemma AgingTakesOwn<C>(w: World<C>, ev: Event<C>)
    requires Inv(w) && Enabled(w, ev) && (ev.SoftwareAging? || ev.HardwareAging?)
    ensures var n := w.ctxs[ev.c].serial;
            n in w.live && w.live[n] == ev.c && Next(w, ev).live == w.live - {n} && n in Next(w, ev).aged
  {
    AgedWasLive(w, ev.c, ev);
    if ev.SoftwareAging? {
      ExpireWho(w, ev.c);
    } else {
      AgeWho(w, ev.c);
    }
    hide Inv, Consistent, CompiledRule, Unqueued, Remove;
  }

  /** Admissions, packets, the scheduler and the clock leave the timer of a connection they do not disturb alone. */
  lemma DueThrough<C>(w: World<C>, ev: Event<C>, n: nat, d: nat)
    requires Inv(w) && Enabled(w, ev) && DueAt(w, n, d) && !Disturbs(w, ev, n) && !ev.SoftwareAging? && !ev.HardwareAging?
    ensures DueAt(Next(w, ev), n, d)
  {
    LiveInUse(w, n);
    hide Inv, Tabled, Next;
    if ev.Admission? {
      NextAdmitted(w, ev.c, ev.e);
      AdmissionEvent(w, ev.c, ev.e);
    } else {
      LiveStays(w, ev);
      assert ev.ClockTick? ==> w.live[n] !in TimerSpec.Due(w.timers);
    }
    OthersKeepDeadlines(w, ev, w.live[n]);
  }

  /** An event that does not disturb connection n leaves its timer alone, or is its aging in the tick it is due at. */
  lemma DueStays<C>(w: World<C>, ev: Event<C>, n: nat, d: nat)
    requires Inv(w) && Enabled(w, ev) && DueAt(w, n, d) && !Disturbs(w, ev, n)
    ensures var w' := Next(w, ev);
            if ev == SoftwareAging(w.live[n]) then w'.timers.now == d && n in w'.aged else DueAt(w', n, d)
  {
    if ev.SoftwareAging? || ev.HardwareAging? {
      LiveInUse(w, n);
      AgingTakesOwn(w, ev);
      hide Inv, Tabled, Next;
      if ev.c == w.live[n] {
        NowAtAging(w, ev);
      } else {
        OthersKeepDeadlines(w, ev, w.live[n]);
      }
    } else {
      DueThrough(w, ev, n, d);
    }
  }

  lemma NowAtAging<C>(w: World<C>, ev: Event<C>)
    requires Enabled(w, ev) && ev.SoftwareAging?
    ensures w.timers.armed[ev.c].deadline == w.timers.now == Next(w, ev).timers.now
  {
  }

  lemma NowGrows<C>(w: World<C>, ev: Event<C>)
    requires Enabled(w, ev)
    ensures w.timers.now <= Next(w, ev).timers.now
  {
  }

  /** Who has aged stays aged, and time does not run backwards. */
  lemma {:induction false} AgedStays<C>(w: World<C>, evs: seq<Event<C>>, w': World<C>, n: nat)
    requires Inv(w) && Reaches(w, evs, w') && n in w.aged
    ensures n in w'.aged && w.timers.now <= w'.timers.now
    decreases |evs|
  {
    hide Inv, Enabled, Next;
    if evs != [] {
      NextInv(w, evs[0]);
      NextLedger(w, evs[0]);
      NowGrows(w, evs[0]);
      AgedStays(Next(w, evs[0]), evs[1..], w', n);
    }
  }

  /**
   A connection whose timer is due at tick d, and that is then neither refreshed nor offloaded, ages in
   tick d and in no other: at no point of any run has it aged before d, or not aged after d.
   */
  lemma {:induction false} AgesWhenDue<C>(w: World<C>, evs: seq<Event<C>>, w': World<C>, n: nat, d: nat)
    requires Inv(w) && Reaches(w, evs, w') && DueAt(w, n, d) && LeftAlone(w, evs, n)
    ensures if n in w'.aged then d <= w'.timers.now else DueAt(w', n, d)
    decreases |evs|
  {
    LiveInUse(w, n);
    hide Inv, Enabled, Next, DueAt, Disturbs, Tabled;
    if evs != [] {
      var w1 := Next(w, evs[0]);
      NextInv(w, evs[0]);
      DueStays(w, evs[0], n, d);
      if evs[0] == SoftwareAging(w.live[n]) {
        AgedStays(w1, evs[1..], w', n);
      } else {
        AgesWhenDue(w1, evs[1..], w', n, d);
      }
    }
  }

  lemma DueOnceAdmitted<C>(w: World<C>, c: C, e: Entry)
    ensures DueAt(Admit(w, c, e), |w.admitted|, w.timers.now + 1000 * if e.expireTime > 0 then e.expireTime else 10)
  {
  }

  /**
   A connection admitted at tick T that is never refreshed nor offloaded ages in tick
   T + 1000 * expireTime (10 for 0), and in no other, whatever else happens.
   */
  lemma AdmittedAgesOnTime<C>(w: World<C>, c: C, e: Entry, evs: seq<Event<C>>, w': World<C>)
    requires Inv(w) && CanAdmit(w, c, e) && Reaches(Admit(w, c, e), evs, w') && LeftAlone(Admit(w, c, e), evs, |w.admitted|)
    ensures var d := w.timers.now + 1000 * if e.expireTime > 0 then e.expireTime else 10;
            if |w.admitted| in w'.aged then d <= w'.timers.now else w'.timers.now <= d
  {
    var d := w.timers.now + 1000 * if e.expireTime > 0 then e.expireTime else 10;
    AdmitInv(w, c, e);
    DueOnceAdmitted(w, c, e);
    hide Inv, LeftAlone, Reaches, Admit, CanAdmit, DueAt;
    AgesWhenDue(Admit(w, c, e), evs, w', |w.admitted|, d);
  }

  lemma DueOnceRefreshed<C>(w: World<C>, n: nat)
    requires Inv(w) && n in w.live && CanRefresh(w, w.live[n])
    ensures n < |w.admitted| && w.live[n] in w.ctxs &&
            var idle := w.ctxs[w.live[n]].entry.expireTime;
            && DueAt(Refresh(w, w.live[n]), n, w.timers.now + 1000 * idle)
            && idle == if w.admitted[n].expireTime > 0 then w.admitted[n].expireTime else 10
  {
    LiveInUse(w, n);
    hide Inv, Tabled;
  }

  /**
   A software connection last refreshed at tick T, and not offloaded since, ages in tick
   T + 1000 * expireTime (10 for 0), and in no other, whatever else happens.
   */
  lemma RefreshedAgesOnTime<C>(w: World<C>, n: nat, evs: seq<Event<C>>, w': World<C>)
    requires Inv(w) && n in w.live && CanRefresh(w, w.live[n])
    requires Reaches(Refresh(w, w.live[n]), evs, w') && LeftAlone(Refresh(w, w.live[n]), evs, n)
    ensures n < |w.admitted| &&
            var e := w.admitted[n];
            var d := w.timers.now + 1000 * if e.expireTime > 0 then e.expireTime else 10;
            if n in w'.aged then d <= w'.timers.now else w'.timers.now <= d
  {
    RefreshInv(w, w.live[n]);
    DueOnceRefreshed(w, n);
    hide Inv, LeftAlone, Reaches, Refresh, CanRefresh, DueAt;
    AgesWhenDue(Refresh(w, w.live[n]), evs, w', n, w.timers.now + 1000 * w.ctxs[w.live[n]].entry.expireTime);
  }

  // ----- what an application sees

  lemma NextAdmitted<C>(w: World<C>, c: C, e: Entry)
    requires Inv(w)
    ensures var w' := Admit(w, c, e);
            && |w.admitted| !in w.live && w'.admitted == w.admitted + [e] && w'.live == w.live[|w.admitted| := c]
  {
    AdmitLedger(w, c, e);
  }

  /** The callback is told the entry of a connection that was live, as it was admitted, but for details. */
  lemma AgedWasLive<C>(w: World<C>, c: C, ev: Event<C>)
    requires Inv(w) && Enabled(w, ev) && (ev == SoftwareAging(c) || ev == HardwareAging(c))
    ensures var n := w.ctxs[c].serial;
            && n in w.live && n < |w.admitted| && SameConn(w.ctxs[c].entry, w.admitted[n])
            && Next(w, ev).live == w.live - {n} && Next(w, ev).admitted == w.admitted
  {
    if ev.SoftwareAging? {
      ExpireWho(w, c);
    } else {
      AgeWho(w, c);
    }
  }

  lemma LiveStays<C>(w: World<C>, ev: Event<C>)
    requires Enabled(w, ev) && !ev.Admission? && !ev.SoftwareAging? && !ev.HardwareAging?
    ensures Next(w, ev).live == w.live && Next(w, ev).admitted == w.admitted
  {
  }

  /** A tracker and the run that has brought it where it is. */
  class Tracker<C(==)> {
    ghost var start: World<C>
    ghost var history: seq<Event<C>>
    ghost var w: World<C>

    ghost predicate Valid()
      reads this
    {
      Initial(start) && Reaches(start, history, w) && Inv(w)
    }

    ghost constructor (w: World<C>)
      requires Initial(w)
      ensures Valid() && this.w == w && start == w && history == []
    {
      start, history, this.w := w, [], w;
      new;
      InitialInv(w);
      ReachesNone(w);
    }

    ghost method Record(ev: Event<C>)
      requires Valid() && Enabled(w, ev)
      modifies this`w, this`history
      ensures Valid() && w == Next(old(w), ev) && history == old(history) + [ev]
    {
      hide Initial, Enabled, Next, Reaches, Inv;
      ReachesPush(start, history, w, ev);
      NextInv(w, ev);
      w := Next(w, ev);
      history := history + [ev];
    }

    /** A connection is admitted; what that does to the record of live ones. */
    ghost method Admits(c: C, e: Entry)
      requires Valid() && CanAdmit(w, c, e)
      modifies this`w, this`history
      ensures Valid() && w == Admit(old(w), c, e)
      ensures var n := |old(w).admitted|;
              n !in old(w).live && w.live.Keys == old(w).live.Keys + {n} && w.admitted == old(w).admitted + [e]
    {
      InvOf();
      hide Valid, Enabled, Next, Admit, CanAdmit;
      NextAdmitted(w, c, e);
      AdmissionEvent(w, c, e);
      Record(Admission(c, e));
    }

    lemma InvOf()
      requires Valid()
      ensures Inv(w) && Initial(start) && Reaches(start, history, w)
    {
    }
  }
}
