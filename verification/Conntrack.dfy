/**
 The connection tracker of one worker core: the in-place code, whose state represents a World of
 ConntrackSpec. Each method does to that World exactly the steps its contract names. The timers are
 the map that the timing wheel of TimerWheel refines.
 */
module Conntrack {
  import opened DivMod
  import opened Rules
  import opened ConntrackSpec
  import Filter
  import TimerSpec
  import Qos
  import QosSpec
  import QosTokens
  import QosWaiting
  import opened Sequences

  const QOS_WEIGHTS: seq<int> := [1, 1, 2, 4]

  /** A connection context. The ghost fields count its lives and how often it was queued in this one. */
  class Conn {
    var entry: Entry
    var startTimeStmp: nat
    var lastResetTimerStmp: nat
    var pktCount: nat
    var state: CtState
    ghost var serial: nat
    ghost var enqueues: nat

    ghost function Value(): Ctx
      reads this`entry, this`state, this`serial, this`enqueues
    {
      Ctx(entry, state, serial, enqueues)
    }

    /** Time stamps are 64-bit values. */
    ghost predicate Stamped()
      reads this`startTimeStmp, this`lastResetTimerStmp
    {
      startTimeStmp < UINT64_LIMIT && lastResetTimerStmp < UINT64_LIMIT
    }
  }

  /** What the new-connection handler of an application decides about a packet's entry. */
  datatype Handling = Handling(port: int, action: Action, expireTime: nat)

  /** The time stamp counter as one packet's processing reads it, one reading after the other. */
  datatype Readings = Readings(admit: Stamp64, tune: Stamp64, gate: Stamp64, check: Stamp64, reset: Stamp64)

  /** The hash key under which a packet's connection is kept. */
  function KeyOf(h: Header, rss: U32): Match {
    Match(if h.proto == L4_TCP then TCP_MATCH_FLAGS else UDP_MATCH_FLAGS,
          h.srcIp, h.dstIp, h.proto, h.srcPort, h.dstPort, rss)
  }

  /** Only TCP and UDP over IPv4 is tracked. */
  predicate IsL4(ipv4: bool, h: Header) {
    ipv4 && (h.proto == L4_TCP || h.proto == L4_UDP)
  }

  /** The free entries, the congestion flag and the time threshold, of a limit and a maximum that do not change. */
  datatype Signals = Signals(limit: nat, max: nat, free: int, flag: bool, time: nat) {

    /**
     n offloads of a round lead to s. The flag is then up exactly if 80 percent of the entries are taken. The
     time threshold has doubled once, up to its maximum, if the round reached those 80 percent with the
     flag down at its start or lowered by the round itself, and is as it was if not.
     */
    ghost predicate After(n: nat, s: Signals) {
      var watermark := limit * 80 / 100;
      var full := limit - s.free >= watermark;
      && s.limit == limit && s.max == max && s.free == free - n && s.flag == (if n == 0 then flag else full)
      && s.time == if n > 0 && full && (!flag || limit - free + 1 < watermark)
                   then (if 2 * time < max then 2 * time else max) else time
    }

    /** One more offload, or none, carries the round on. */
    lemma AfterNext(n: nat, s: Signals, k: nat, s': Signals)
      requires After(n, s) && k <= 1 && s.After(k, s')
      ensures After(n + k, s')
    {
    }

    lemma AfterNone()
      ensures After(0, this)
    {
    }
  }

  class Worker {
    const filter: Filter.ConnFilter
    const qos: Qos.QosContext<Conn>
    const capacity: nat                 // of the hash table
    const maxOffloaded: nat             // MaxOffloadedEntry
    const longest: nat                  // TIMER_MAX_TIMEOUT
    const ports: map<nat, set<Flag>>    // ports with conntrack enabled, and their action flags
    ghost const universe: set<Conn>     // the contexts the pool was created with
    var pool: set<Conn>
    var table: map<Match, Conn>
    var timers: TimerSpec.Clock<Conn>
    var ctNum: nat
    var hw: map<Conn, HwRule>           // installed rules by their user_data
    ghost var w: World<Conn>            // the state that all of this represents
    ghost var start: World<Conn>        // the state it began with
    ghost var history: seq<Event<Conn>> // the steps made since

    ghost predicate RepresentsCtxs(w: World<Conn>)
      reads universe
    {
      w.ctxs.Keys == universe && forall c <- universe :: w.ctxs[c] == c.Value() && c.Stamped()
    }

    ghost predicate RepresentsTables(w: World<Conn>)
      reads this`pool, this`table, this`timers, this`ctNum, this`hw
    {
      && w.pool == pool && w.table == table && w.timers == timers && w.ctNum == ctNum && w.hw == hw
      && w.enabled == filter.enableFlowQoS && w.limit == maxOffloaded && w.longest == longest
    }

    ghost predicate RepresentsQueues(w: World<Conn>)
      reads qos`buckets, qos`maxEntry, qos`total, filter`enqueuedTotal
    {
      && w.queues == qos.buckets && w.tokens == qos.maxEntry && w.total == qos.total
      && w.enqueued == filter.enqueuedTotal && |qos.buckets| == QUEUES
    }

    /** How the parts are put together; none of this ever changes. */
    ghost predicate Static() {
      && qos.handler == filter && qos.limit == maxOffloaded && DEFAULT_EXPIRE * 1000 <= longest
      && (forall p <- ports :: ports[p] != {AGING})
    }

    /** The state is the one that the history of steps leads to. */
    ghost predicate Recorded()
      reads this`w, this`start, this`history
    {
      Initial(start) && Reaches(start, history, w)
    }

    ghost predicate Valid()
      reads this, qos, filter, universe
    {
      && Static() && filter.Valid() && qos.Valid()
      && RepresentsCtxs(w) && RepresentsTables(w) && RepresentsQueues(w) && Inv(w) && Recorded()
    }

    /** The state makes a step. */
    ghost method Record(ev: Event<Conn>)
      requires Recorded() && Enabled(w, ev)
      modifies this`w, this`history
      ensures Recorded() && w == Next(old(w), ev) && history == old(history) + [ev]
    {
      hide Initial, Enabled, Next, Reaches;
      ReachesPush(start, history, w, ev);
      w := Next(w, ev);
      history := history + [ev];
    }

    /** The state makes a step that the parts have already made. */
    ghost method Commit(ev: Event<Conn>)
      requires Static() && filter.Valid() && qos.Valid() && Inv(w) && Recorded() && Enabled(w, ev)
      requires var w' := Next(w, ev); RepresentsCtxs(w') && RepresentsTables(w') && RepresentsQueues(w')
      modifies this`w, this`history
      ensures Valid() && w == Next(old(w), ev)
    {
      hide Static, Qos.QosContext.Valid, Filter.ConnFilter.Valid, Inv, Enabled, Next, Recorded;
      hide RepresentsCtxs, RepresentsTables, RepresentsQueues;
      NextInv(w, ev);
      Record(ev);
    }

    /**
     Whatever has been called, the worker is in a state that its history of steps leads to from the
     initial one. The aging callbacks of that history are as many as the connections that have left,
     and every connection ever admitted is live or has had its callback, never both.
     */
    lemma EveryRun()
      requires Valid()
      ensures Initial(start) && Reaches(start, history, w) && Inv(w)
      ensures |w.aged| == Callbacks(history)
      ensures forall n :: 0 <= n < |w.admitted| ==> (n in w.live <==> n !in w.aged)
    {
      InitialInv(start);
      hide Inv, Reaches;
      AgedExactlyOnce(start, history, w);
    }

    /** flowQoS_conntrack_init_env: a pool of n contexts and, when a speed is given, the scheduler. */
    constructor (n: nat, maxOffloaded: nat, offloadTime: nat, offloadSpeed: int, cpuHz: nat, tsc: nat, gap: nat,
                 capacity: nat, longest: nat, ports: map<nat, set<Flag>>)
      requires offloadTime < INT32_LIMIT && 0 < cpuHz < Filter.MAX_CPU_HZ && tsc < UINT64_LIMIT
      requires maxOffloaded * QosTokens.HW_WATERMARK_PERCENT < INT32_LIMIT
      requires DEFAULT_EXPIRE * 1000 <= longest && forall p <- ports :: ports[p] != {AGING}
      ensures Valid() && Initial(w) && history == [] && |universe| == n
      ensures filter.enableFlowQoS == (offloadSpeed > 0) && qos.weights == QOS_WEIGHTS == [1, 1, 2, 4]
    {
      hide Inv, Qos.QosContext.Valid, Filter.ConnFilter.Valid, Conn.Value, Conn.Stamped, Initial, Valid;
      var f := MakeFilter(offloadTime, offloadSpeed, cpuHz, tsc);
      var q := new Qos.QosContext<Conn>(QOS_WEIGHTS, maxOffloaded, gap, tsc, f);
      var conns := MakePool(n);
      filter, qos, pool, universe := f, q, conns, conns;
      this.capacity, this.maxOffloaded, this.longest, this.ports := capacity, maxOffloaded, longest, ports;
      table, timers, ctNum, hw := map[], TimerSpec.Clock(0, map[]), maxOffloaded, map[];
      new;
      Begin();
    }

    /** The state that a fresh worker represents. */
    ghost method Begin()
      requires Static() && filter.Valid() && filter.enqueuedTotal == 0 && forall c <- universe :: c.Stamped()
      requires pool == universe && table == map[] && timers == TimerSpec.Clock(0, map[]) && hw == map[]
      requires qos.Valid() && qos.maxEntry == ctNum == maxOffloaded && |qos.buckets| == |qos.total| == QUEUES
      requires forall p :: 0 <= p < QUEUES ==> qos.buckets[p] == [] && qos.total[p] == 0
      modifies this`w, this`start, this`history
      ensures Valid() && Initial(w) && history == []
    {
      hide Inv, Qos.QosContext.Valid, Filter.ConnFilter.Valid, Conn.Value, Conn.Stamped, Initial, Blank, Static;
      w := Blank(filter.enableFlowQoS, maxOffloaded, longest, map c | c in universe :: c.Value());
      start, history := w, [];
      InitialInv(w);
      ReachesNone(w);
      hide Reaches;
      assert w.queues == qos.buckets && w.total == qos.total;
    }

    static method MakeFilter(time: nat, speed: int, cpuHz: nat, tsc: nat) returns (f: Filter.ConnFilter)
      requires time < INT32_LIMIT && 0 < cpuHz < Filter.MAX_CPU_HZ && tsc < UINT64_LIMIT
      ensures fresh(f) && f.Valid() && f.enableFlowQoS == (speed > 0) && f.enqueuedTotal == 0
    {
      f := new Filter.ConnFilter(time, speed, cpuHz, tsc);
    }

    static method MakePool(n: nat) returns (conns: set<Conn>)
      ensures |conns| == n && fresh(conns) && forall c <- conns :: c.Stamped()
    {
      conns := {};
      for i := 0 to n
        invariant |conns| == i && fresh(conns) && forall c <- conns :: c.Stamped()
      {
        var c := new Conn;
        c.startTimeStmp, c.lastResetTimerStmp := 0, 0;
        conns := conns + {c};
      }
    }

    // ----- admission

    /** Connection c begins with entry e: in software, and due after the time it may be idle (10 seconds for 0). */
    ghost predicate Begun(c: Conn, e: Entry)
      reads this`timers, c`state, c`entry
    {
      && c.state == SwFwd && c.entry == e.(expireTime := if e.expireTime > 0 then e.expireTime else 10)
      && c in timers.armed && timers.armed[c] == TimerSpec.Alarm(timers.now + 1000 * c.entry.expireTime, 0)
    }

    /** The steps of flowQoS_addConnToHash that fill in the context. */
    method Fill(c: Conn, e: Entry, tsc: nat)
      requires c in universe && Consistent(Defaulted(e), longest) && tsc < UINT64_LIMIT && c.Stamped()
      modifies this`timers, c
      ensures c.Value() == Ctx(Defaulted(e), SwFwd, |w.admitted|, 0) && c.startTimeStmp == tsc && c.pktCount == 0
      ensures c.lastResetTimerStmp == old(c.lastResetTimerStmp)
      ensures timers == TimerSpec.Arm(old(timers), c, Defaulted(e).expireTime * 1000, 0)
      ensures Begun(c, e)
    {
      c.entry := e;
      if c.entry.action.flags != {AGING} {
        if c.entry.expireTime == 0 {
          c.entry := c.entry.(expireTime := DEFAULT_EXPIRE);
        }
        timers := TimerSpec.Step(timers, TimerSpec.Add(c, c.entry.expireTime * 1000, 0), longest);
        c.startTimeStmp := tsc;
      }
      c.pktCount := 0;
      c.state := SwFwd;
      c.serial, c.enqueues := |w.admitted|, 0;
    }

    /** flowQoS_addConnToHash; hashOk says whether the hash table finds room for the key. */
    method AddConnFields(e: Entry, tsc: nat, hashOk: bool) returns (r: Conn?)
      requires pool <= universe && Consistent(Defaulted(e), longest) && tsc < UINT64_LIMIT
      requires forall c <- universe :: c.Stamped()
      modifies this`pool, this`table, this`timers, pool
      ensures r == null <==> old(pool) == {} || !hashOk || |old(table)| >= capacity
      ensures r == null ==> pool == old(pool) && table == old(table) && timers == old(timers)
      ensures r != null ==>
                && r in old(pool) && pool == old(pool) - {r} && table == old(table)[e.key := r]
                && timers == TimerSpec.Arm(old(timers), r, Defaulted(e).expireTime * 1000, 0)
                && r.Value() == Ctx(Defaulted(e), SwFwd, |w.admitted|, 0) && r.Stamped()
                && r.startTimeStmp == tsc && r.pktCount == 0 && r.lastResetTimerStmp == old(r.lastResetTimerStmp)
                && Begun(r, e)
      ensures forall c <- universe :: (c != r ==> c.Value() == old(c.Value())) && c.Stamped()
    {
      hide Consistent, TimerSpec.Arm, Defaulted;
      if pool == {} {
        return null;
      }
      var c :| c in pool;
      pool := pool - {c};
      if !hashOk || |table| >= capacity {
        pool := pool + {c};
        assert pool == old(pool);
        return null;
      }
      table := table[e.key := c];
      Fill(c, e, tsc);
      return c;
    }

    /** Admission: on success the state makes the step Admit. */
    method AddConnToHash(e: Entry, tsc: nat, hashOk: bool) returns (r: Conn?)
      requires Valid() && e.key !in table && Consistent(Defaulted(e), longest) && tsc < UINT64_LIMIT
      modifies this`pool, this`table, this`timers, this`w, this`history, universe
      ensures Valid()
      ensures r == null <==> old(pool) == {} || !hashOk || |old(table)| >= capacity
      ensures r == null ==> w == old(w)
      ensures r != null ==>
                && r in old(pool) && r in universe && w == Admit(old(w), r, e)
                && r.startTimeStmp == tsc && r.pktCount == 0 && r.lastResetTimerStmp == old(r.lastResetTimerStmp)
                && Begun(r, e)
    {
      hide Recorded, Begun, Next, Enabled, Inv, Consistent, TimerSpec.Arm, Defaulted, Static;
      hide Qos.QosContext.Valid, Filter.ConnFilter.Valid, Conn.Value, Conn.Stamped;
      PooledInUniverse();
      r := AddConnFields(e, tsc, hashOk);
      if r != null {
        AdmitInv(w, r, e);
        AdmissionEvent(w, r, e);
        Record(Admission(r, e));
        assert RepresentsCtxs(w);
        hide RepresentsCtxs;
      }
    }

    lemma PooledInUniverse()
      requires Inv(w) && RepresentsCtxs(w) && w.pool == pool
      ensures pool <= universe
    {
      hide Recorded, Placed, Counted, Ledger;
      assert Closed(w);
    }

    // ----- aging

    /** flowQoS_delConnFromHash. */
    method DelConnFromHash(c: Conn)
      requires c in universe
      modifies this`pool, this`table
      ensures pool == old(pool) + {c} && table == old(table) - {c.entry.key}
    {
      table := table - {c.entry.key};
      pool := pool + {c};
    }

    /** flowQoS_conn_expire_sw_cb, together with the unlinking of the timer by the tick. */
    method ExpireFields(c: Conn)
      requires c in universe && qos.Valid()
      requires filter.enableFlowQoS && c.state == FlowQos ==>
                 c.entry.priority < |qos.buckets| && c in qos.buckets[c.entry.priority]
      modifies this`pool, this`table, this`timers, qos`buckets, qos`aged
      ensures qos.Valid() && timers == TimerSpec.Disarm(old(timers), c)
      ensures pool == old(pool) + {c} && table == old(table) - {c.entry.key}
      ensures qos.buckets == if filter.enableFlowQoS && c.state == FlowQos
                             then var p := c.entry.priority;
                                  old(qos.buckets)[p := Remove(old(qos.buckets)[p], c)]
                             else old(qos.buckets)
    {
      timers := TimerSpec.Disarm(timers, c);
      DelConnFromHash(c);
      if filter.enableFlowQoS && c.state == FlowQos {
        qos.DelEntryEvent(c, c.entry.priority);
      }
    }

    /** A software timer expires: the state makes the step Expire. */
    method ExpireSw(c: Conn)
      requires Valid() && c in universe && CanExpire(w, c)
      modifies this`pool, this`table, this`timers, this`w, this`history, qos`buckets, qos`aged
      ensures Valid() && w == Expire(old(w), c) && timers == TimerSpec.Disarm(old(timers), c)
    {
      hide Recorded, Next, Enabled, Inv, InSoftware, InQueue, Static, Qos.QosContext.Valid, Filter.ConnFilter.Valid, Remove;
      ExpireInv(w, c);
      ExpireWho(w, c);
      if c.state == FlowQos {
        QueuedPriority(w, c);
      }
      ExpireFields(c);
      ExpireEvent(w, c);
      Record(SoftwareAging(c));
    }

    lemma DueCanExpire(c: Conn)
      requires Valid() && c in TimerSpec.Due(timers)
      ensures c in universe && CanExpire(w, c)
    {
      hide Recorded, Placed, Counted, Ledger;
    }

    lemma Repeatless()
      requires Valid()
      ensures w.timers == timers && forall c <- timers.armed :: timers.armed[c].repeat == 0
    {
      hide Recorded, Next, Enabled, Inv;
      OneShots(w);
    }

    method EndTick()
      requires Valid() && TimerSpec.Due(timers) == {}
      modifies this`timers, this`w, this`history
      ensures Valid() && w == Advance(old(w)) && timers == old(timers).(now := old(timers).now + 1)
    {
      hide Recorded, Next, Enabled, Inv, Qos.QosContext.Valid, Filter.ConnFilter.Valid, Static, TimerSpec.Due;
      AdvanceInv(w);
      timers := timers.(now := timers.now + 1);
      TickEvent(w);
      Record(ClockTick);
    }

    /** One tick of the core's timers: every connection whose timer is due ages, in some order. */
    method TimerTick() returns (ghost order: seq<Conn>)
      requires Valid()
      modifies this`pool, this`table, this`timers, this`w, this`history, qos`buckets, qos`aged
      ensures Valid() && timers == TimerSpec.Tick(old(timers), longest)
      ensures NoDuplicates(order) && Elements(order) == TimerSpec.Due(old(timers))
      ensures w == Advance(ExpireAll(old(w), order))
    {
      hide Valid, Expire, CanExpire, ExpireAll, Advance, TimerSpec.Due, TimerSpec.Disarm, Elements, NoDuplicates;
      ghost var w0, t0 := w, timers;
      Repeatless();
      order := [];
      NoneTwice<Conn>();
      ExpireAllNone(w0);
      TimerSpec.OneShotTick(t0, longest);
      ElementsNone<Conn>();
      assert t0.armed - {} == t0.armed;
      while TimerSpec.Due(timers) != {}
        invariant Valid() && w == ExpireAll(w0, order) && NoDuplicates(order)
        invariant timers == t0.(armed := t0.armed - Elements(order))
        invariant Elements(order) + TimerSpec.Due(timers) == TimerSpec.Due(t0)
        decreases |TimerSpec.Due(timers)|
      {
        var c :| c in TimerSpec.Due(timers);
        DueCanExpire(c);
        TimerSpec.DisarmDue(t0, Elements(order), c);
        ElementsPush(order, c);
        Append(order, c);
        ExpireAllPush(w0, order, c);
        ExpireSw(c);
        order := order + [c];
      }
      EndTick();
    }

    /** flowQoS_conn_expire_hw_cb, after the hardware has dropped the rule of c. */
    method AgeFields(c: Conn)
      requires c in universe && qos.Valid() && c in hw
      requires filter.enableFlowQoS && c.state == HwFwd ==> qos.maxEntry < qos.limit
      modifies this`pool, this`table, this`hw, this`ctNum, qos`maxEntry, qos`history
      ensures qos.Valid() && hw == old(hw) - {c}
      ensures pool == old(pool) + {c} && table == old(table) - {c.entry.key}
      ensures var back := filter.enableFlowQoS && c.state == HwFwd;
              && qos.maxEntry == old(qos.maxEntry) + (if back then 1 else 0)
              && ctNum == old(ctNum) + (if back then 0 else 1)
    {
      hw := hw - {c};
      DelConnFromHash(c);
      if filter.enableFlowQoS && c.state == HwFwd {
        qos.ReturnEntryEvent();
      } else {
        ctNum := ctNum + 1;
      }
    }

    /** A hardware rule ages: the state makes the step Age, and the clamp on the tokens never acts. */
    method AgeHw(c: Conn)
      requires Valid() && c in universe && CanAge(w, c)
      modifies this`pool, this`table, this`hw, this`ctNum, this`w, this`history, qos`maxEntry, qos`history
      ensures Valid() && w == Age(old(w), c)
    {
      hide Recorded, Next, Enabled, Inv, InHardware, Qos.QosContext.Valid, Filter.ConnFilter.Valid;
      AgeInv(w, c);
      AgeFields(c);
      AgeEvent(w, c);
      Record(HardwareAging(c));
    }

    /**
     flowQoS_aging_handle: the hardware reports aged rules by their user_data, and says for each
     whether its removal succeeds.
     */
    method AgingHandle(reported: seq<Conn>, removed: seq<bool>) returns (n: nat)
      requires Valid() && |reported| == |removed| && NoDuplicates(reported)
      requires forall c <- reported :: c in hw
      modifies this`pool, this`table, this`hw, this`ctNum, this`w, this`history, qos`maxEntry, qos`history
      ensures Valid() && w == AgeAll(old(w), reported, removed) && n == |reported|
      ensures forall i :: 0 <= i < |reported| ==>
                            if removed[i] then reported[i] !in hw && reported[i] in pool else reported[i] in hw
      ensures (forall c <- hw :: c in old(hw)) && forall c <- old(hw) :: c !in reported ==> c in hw && hw[c] == old(hw)[c]
    {
      hide Valid, Age, AgeAll, CanAge;
      ghost var w0 := w;
      assert reported[..0] == [] && removed[..0] == [];
      AgeAllNone(w0);
      for i := 0 to |reported|
        invariant Valid() && forall j :: i <= j < |reported| ==> reported[j] in hw
        invariant w == AgeAll(w0, reported[..i], removed[..i])
        invariant forall j :: 0 <= j < i ==> if removed[j] then reported[j] !in hw && reported[j] in pool else reported[j] in hw
        invariant (forall c <- hw :: c in old(hw)) && forall c <- old(hw) :: c !in reported ==> c in hw && hw[c] == old(hw)[c]
      {
        AgeAllNext(w0, reported, removed, i);
        InHwInUniverse(reported[i]);
        if removed[i] {
          AgeKeepsOthers(reported[i]);
          AgeHw(reported[i]);
          HwOfState();
        }
      }
      assert reported[..|reported|] == reported && removed[..|removed|] == removed;
      return |reported|;
    }

    lemma InHwInUniverse(c: Conn)
      requires Valid() && c in hw
      ensures c in universe && CanAge(w, c)
    {
      hide Recorded, Placed, Counted, Ledger;
    }

    lemma AgeKeepsOthers(c: Conn)
      requires Valid() && CanAge(w, c)
      ensures Age(w, c).hw == hw - {c} && Age(w, c).pool == pool + {c}
    {
      hide Recorded, Next, Enabled, Inv;
    }

    lemma HwOfState()
      requires Valid()
      ensures w.hw == hw && w.pool == pool
    {
      hide Recorded, Next, Enabled, Inv;
    }

    // ----- the filter

    /** The filter lets a connection through: old enough, and with enough packets. */
    ghost predicate LetThrough(state: CtState, start: nat, tsc: nat, packets: nat)
      requires start < UINT64_LIMIT && tsc < UINT64_LIMIT
      reads filter
    {
      state == SwFwd && Sub64(tsc, start) > filter.offloadTime && packets > filter.packetThreshold
    }

    /** flowQoS_should_offload_ct. */
    method ShouldOffload(c: Conn, tsc: nat) returns (ready: bool)
      requires tsc < UINT64_LIMIT && c.Stamped()
      modifies filter`rejectedTotal
      ensures ready == LetThrough(c.state, c.startTimeStmp, tsc, c.pktCount)
      ensures ready <==> && c.state == SwFwd && (tsc + UINT64_LIMIT - c.startTimeStmp) % UINT64_LIMIT > filter.offloadTime
                         && c.pktCount > filter.packetThreshold
      ensures filter.rejectedTotal == old(filter.rejectedTotal) + if !ready && c.state == SwFwd then 1 else 0
    {
      var gap := Sub64(tsc, c.startTimeStmp);
      ready := c.state == SwFwd && gap > filter.offloadTime && c.pktCount > filter.packetThreshold;
      if !ready && c.state == SwFwd {
        filter.rejectedTotal := filter.rejectedTotal + 1;
      }
    }

    /** The branch of flowQoS_offload_conn that hands a connection to the scheduler. */
    method EnqueueFields(c: Conn)
      requires c in universe && qos.Valid() && |qos.buckets| == QUEUES && filter.Valid()
      requires c !in qos.buckets[c.entry.priority % QUEUES]
      modifies c`entry, c`state, c`enqueues, qos`buckets, qos`total, filter`windowEnqueued, filter`enqueuedTotal
      ensures qos.Valid() && filter.Valid()
      ensures var x, p := old(c.Value()), old(c.entry.priority) % QUEUES;
              && c.Value() == Ctx(x.entry.(priority := p), FlowQos, x.serial, x.enqueues + 1)
              && qos.buckets == old(qos.buckets)[p := old(qos.buckets)[p] + [c]]
              && qos.total == old(qos.total)[p := old(qos.total)[p] + 1]
      ensures filter.enqueuedTotal == old(filter.enqueuedTotal) + 1
      ensures filter.windowEnqueued == old(filter.windowEnqueued) + 1
    {
      var p := c.entry.priority % QUEUES;
      c.entry := c.entry.(priority := p);
      qos.AddEntryEvent(c, p);
      c.state := FlowQos;
      c.enqueues := c.enqueues + 1;
      filter.windowEnqueued := filter.windowEnqueued + 1;
      filter.enqueuedTotal := filter.enqueuedTotal + 1;
    }

    method EnqueueConn(c: Conn)
      requires Valid() && c in universe && CanEnqueue(w, c)
      modifies this`w, this`history, c`entry, c`state, c`enqueues
      modifies qos`buckets, qos`total, filter`windowEnqueued, filter`enqueuedTotal
      ensures Valid() && w == Offered(old(w), c, true, false) == Offered(old(w), c, true, true)
      ensures filter.windowEnqueued == old(filter.windowEnqueued) + 1
    {
      hide Recorded, Next, Enabled, Inv, Qos.QosContext.Valid, Filter.ConnFilter.Valid, Static;
      EnqueueInv(w, c);
      NotQueuedYet(w, c);
      EnqueueFields(c);
      EnqueueEvent(w, c);
      ghost var w' := Enqueue(w, c);
      assert RepresentsCtxs(w') && RepresentsTables(w') && RepresentsQueues(w');
      hide RepresentsCtxs, RepresentsTables, RepresentsQueues;
      Commit(Enqueueing(c));
    }

    /** flowQoS_qosHandler. */
    method QosHandler(c: Conn)
      modifies c`state, this`timers
      ensures c.state == HwFwd
      ensures timers == if c.entry.action.flags != {AGING} then TimerSpec.Disarm(old(timers), c) else old(timers)
    {
      if c.entry.action.flags != {AGING} {
        timers := TimerSpec.Disarm(timers, c);
      }
      c.state := HwFwd;
    }

    /** The branch of flowQoS_offload_conn without the scheduler; accept is the hardware's answer. */
    method DirectFields(c: Conn, accept: bool) returns (ret: int)
      requires c in universe && c.entry.action.flags != {AGING} && Installed(c.entry) == c.entry
      modifies c`entry, c`state, this`hw, this`timers, this`ctNum
      ensures ret == if old(ctNum) > 0 && accept then 1 else 0
      ensures ret == 0 ==> hw == old(hw) && timers == old(timers) && ctNum == old(ctNum) && c.Value() == old(c.Value())
      ensures ret == 1 ==>
                && hw == old(hw)[c := CompiledRule(c.entry)] && timers == TimerSpec.Disarm(old(timers), c)
                && ctNum == old(ctNum) - 1 && c.Value() == old(c.Value()).(state := HwFwd)
    {
      hide CompiledRule, Installed;
      if ctNum == 0 {
        return 0;
      }
      var e, rule := PrepareRule(c.entry);
      c.entry := e;
      if accept {
        hw := hw[c := rule];
        if c.entry.action.flags != {AGING} {
          timers := TimerSpec.Disarm(timers, c);
        }
        c.state := HwFwd;
        ctNum := ctNum - 1;
        return 1;
      }
      return 0;
    }

    method OffloadDirect(c: Conn, accept: bool) returns (ret: int)
      requires Valid() && c in universe && InUse(w, c) && c.state == SwFwd && !filter.enableFlowQoS
      modifies c`entry, c`state, this`hw, this`timers, this`ctNum, this`w, this`history
      ensures Valid() && ret == (if old(ctNum) > 0 && accept then 1 else 0)
      ensures w == Offered(old(w), c, true, accept)
    {
      hide Recorded, Next, Enabled, Inv, Qos.QosContext.Valid, Filter.ConnFilter.Valid, Static, CompiledRule, Installed;
      ConsistentInUse(w, c);
      ret := DirectFields(c, accept);
      if ret == 1 {
        OffloadNowInv(w, c);
        DirectEvent(w, c);
        Record(DirectOffload(c));
      }
    }

    method Tune(now: nat)
      requires Valid() && now < UINT64_LIMIT
      modifies filter`offloadTime, filter`windowStart, filter`windowEnqueued
      ensures Valid() && old(filter.windowStart) < UINT64_LIMIT && filter.cpuHz > 0
      ensures filter.Thr() == old(filter.Tuned(now)) && filter.windowEnqueued == old(filter.TunedCount(now))
    {
      hide Recorded, Next, Enabled, Inv, Qos.QosContext.Valid, Filter.ConnFilter.Tuned, Filter.ConnFilter.TunedCount;
      filter.RuntimeTune(now);
    }

    method Gate(c: Conn, tsc: nat) returns (ready: bool)
      requires Valid() && c in universe && tsc < UINT64_LIMIT
      modifies filter`rejectedTotal
      ensures Valid() && c.Stamped() && ready == LetThrough(c.state, c.startTimeStmp, tsc, c.pktCount)
      ensures filter.rejectedTotal == old(filter.rejectedTotal) + if !ready && c.state == SwFwd then 1 else 0
    {
      hide Recorded, Next, Enabled, Inv, Qos.QosContext.Valid;
      ready := ShouldOffload(c, tsc);
    }

    /**
     flowQoS_offload_conn; now and tsc are its two readings of the time stamp counter. A connection
     still in software that has lived longer than the tuned time threshold and has sent more packets
     than the packet threshold is queued, or without the scheduler offloaded at once if an entry is
     left and the hardware accepts; any other is left alone.
     */
    method OffloadConn(c: Conn, now: nat, tsc: nat, accept: bool) returns (ret: int)
      requires Valid() && c in universe && InUse(w, c) && now < UINT64_LIMIT && tsc < UINT64_LIMIT
      modifies this`w, this`history, this`hw, this`timers, this`ctNum, c`entry, c`state, c`enqueues
      modifies qos`buckets, qos`total, filter
      ensures Valid() && old(filter.windowStart) < UINT64_LIMIT && filter.cpuHz > 0 && old(c.startTimeStmp) < UINT64_LIMIT
      ensures filter.Thr() == old(filter.Tuned(now)) && filter.packetThreshold == old(filter.packetThreshold)
      ensures var ready := LetThrough(old(c.state), old(c.startTimeStmp), tsc, old(c.pktCount));
              && ret == (if ready && !filter.enableFlowQoS && old(ctNum) > 0 && accept then 1 else 0)
              && w == Offered(old(w), c, ready, accept)
              && filter.windowEnqueued == old(filter.TunedCount(now)) + (if ready && filter.enableFlowQoS then 1 else 0)
              && filter.rejectedTotal == old(filter.rejectedTotal) + if !ready && old(c.state) == SwFwd then 1 else 0
    {
      hide Recorded, Next, Enabled, Inv, Qos.QosContext.Valid, Filter.ConnFilter.Valid, Static, OffloadNow, Enqueue;
      hide Filter.ConnFilter.Tuned, Filter.ConnFilter.TunedCount;
      ret := 0;
      Tune(now);
      var ready := Gate(c, tsc);
      if ready {
        if filter.enableFlowQoS {
          EnqueueConn(c);
        } else {
          ret := OffloadDirect(c, accept);
        }
      }
    }

    /** flowQoS_conntrack_tune_filter, called by the operator while the worker runs. */
    method TuneFilter(timeUs: int, packets: int, deltaUs: int, speed: int)
      requires Valid()
      requires timeUs < INT32_LIMIT && packets < INT32_LIMIT
      requires deltaUs < INT32_LIMIT && speed < INT32_LIMIT
      modifies filter`offloadTime, filter`offloadTimeMin, filter`delta, filter`packetThreshold, filter`maxOffloadSpeed
      ensures Valid()
      ensures filter.Thr() == Filter.Step(old(filter.Thr()),
                                          Filter.Operator(if timeUs >= 0 then timeUs * (filter.cpuHz / 1000000) else -1,
                                                          if deltaUs >= 0 then deltaUs * (filter.cpuHz / 1000000) else -1))
      ensures var unit, max := filter.cpuHz / 1000000, filter.offloadTimeMax;
              && (timeUs < 0 ==> && filter.offloadTime == old(filter.offloadTime)
                                 && filter.offloadTimeMin == old(filter.offloadTimeMin))
              && (timeUs >= 0 ==> filter.offloadTime == filter.offloadTimeMin
                                  == if timeUs * unit < max then timeUs * unit else max)
              && filter.delta == (if deltaUs >= 0 then deltaUs * unit else old(filter.delta))
      ensures filter.packetThreshold == if packets >= 0 then packets else old(filter.packetThreshold)
      ensures filter.maxOffloadSpeed == if speed >= 0 then speed else old(filter.maxOffloadSpeed)
    {
      hide Recorded, Next, Enabled, Inv, Qos.QosContext.Valid, Filter.Step;
      var _ := filter.TuneFilter(timeUs, packets, deltaUs, speed);
    }

    // ----- the scheduler

    ghost function Signalled(): Signals
      reads qos`maxEntry, qos`hwCongested, filter`offloadTime, filter`offloadTimeMax
    {
      Signals(qos.limit, filter.offloadTimeMax, qos.maxEntry, qos.hwCongested, filter.offloadTime)
    }

    /** One entry of flowQoS_do_entry_event: the head of queue p. */
    method HeadFields(p: nat, accept: bool) returns (ret: int)
      requires qos.Valid() && filter.Valid() && qos.handler == filter
      requires p < |qos.buckets| && qos.buckets[p] != [] && qos.maxEntry > 0
      requires var c := qos.buckets[p][0];
               c in universe && c.entry.action.flags != {AGING} && Installed(c.entry) == c.entry
      modifies this`hw, this`timers, qos.buckets[p][0]
      modifies qos`maxEntry, qos`finished, qos`hwCongested, qos`buckets, qos`history, filter`offloadTime
      ensures qos.Valid() && filter.Valid() && ret == if accept then 1 else 0
      ensures var c := old(qos.buckets[p][0]);
              && c.Value() == (if accept then old(c.Value()).(state := HwFwd) else old(c.Value()))
              && hw == (if accept then old(hw)[c := CompiledRule(old(c.Value()).entry)] else old(hw))
              && timers == (if accept then TimerSpec.Disarm(old(timers), c) else old(timers))
              && (old(c.Stamped()) ==> c.Stamped())
              && forall d <- universe :: d != c ==> d.Value() == old(d.Value()) && (old(d.Stamped()) ==> d.Stamped())
      ensures qos.buckets == if accept then old(qos.buckets)[p := old(qos.buckets)[p][1..]] else old(qos.buckets)
      ensures qos.maxEntry == old(qos.maxEntry) - ret
      ensures filter.enableFlowQoS ==> old(Signalled()).After(ret, Signalled())
    {
      hide CompiledRule, Installed;
      var c := qos.buckets[p][0];
      var e, rule := PrepareRule(c.entry);
      c.entry := e;
      if !accept {
        return 0;
      }
      hw := hw[c := rule];
      QosHandler(c);
      var _ := qos.Finish(p);
      return 1;
    }

    lemma HeadReady(p: nat)
      requires Valid() && filter.enableFlowQoS && p < |qos.buckets| && qos.buckets[p] != [] && qos.maxEntry > 0
      ensures qos.handler == filter && CanOffloadHead(w, p)
      ensures var c := qos.buckets[p][0];
              && c in universe && c.Value().entry == c.entry && Installed(c.entry) == c.entry
              && c.entry.action.flags != {AGING} && c.Value() == w.ctxs[c]
    {
      hide Recorded, Next, Enabled, Inv, Qos.QosContext.Valid, Filter.ConnFilter.Valid, Installed, Consistent;
      HeadInUse(w, p);
      ConsistentInUse(w, qos.buckets[p][0]);
    }

    /** What HeadFields has made of the state w is OffloadHead. */
    lemma HeadStands(p: nat)
      requires Inv(w) && CanOffloadHead(w, p) && w.ctxs.Keys == universe
      requires var c := w.queues[p][0];
               && (forall d <- universe :: d.Stamped() && d.Value() == if d == c then w.ctxs[c].(state := HwFwd) else w.ctxs[d])
               && w.pool == pool && w.table == table && w.ctNum == ctNum && timers == TimerSpec.Disarm(w.timers, c)
               && hw == w.hw[c := CompiledRule(w.ctxs[c].entry)]
      requires w.enabled == filter.enableFlowQoS && w.limit == maxOffloaded && w.longest == longest
      requires qos.buckets == w.queues[p := w.queues[p][1..]] && qos.maxEntry == w.tokens - 1 && qos.total == w.total
      requires filter.enqueuedTotal == w.enqueued && |qos.buckets| == QUEUES
      ensures var w' := OffloadHead(w, p); RepresentsCtxs(w') && RepresentsTables(w') && RepresentsQueues(w')
    {
      hide Inv, CompiledRule, Conn.Value, Conn.Stamped;
      HeadMeans(w, p);
      hide OffloadHead;
    }

    /** The head of queue p goes to the hardware, if that accepts it: the step OffloadHead. */
    method OffloadHeadOf(p: nat, accept: bool) returns (ret: nat)
      requires Valid() && filter.enableFlowQoS && p < |qos.buckets| && qos.buckets[p] != [] && qos.maxEntry > 0
      modifies this`w, this`history, this`hw, this`timers, universe
      modifies qos`maxEntry, qos`finished, qos`hwCongested, qos`buckets, qos`history, filter`offloadTime
      ensures Valid() && ret == if accept then 1 else 0
      ensures CanOffloadHead(old(w), p) && w == if accept then OffloadHead(old(w), p) else old(w)
      ensures qos.buckets == if accept then old(qos.buckets)[p := old(qos.buckets)[p][1..]] else old(qos.buckets)
      ensures qos.maxEntry == old(qos.maxEntry) - ret >= 0
      ensures old(Signalled()).After(ret, Signalled())
    {
      hide Recorded, Next, Enabled, Inv, Static, Qos.QosContext.Valid, Filter.ConnFilter.Valid;
      hide CompiledRule, Installed, CanOffloadHead, Conn.Value, Conn.Stamped, Signals.After;
      HeadReady(p);
      OffloadHeadInv(w, p);
      ret := HeadFields(p, accept);
      if accept {
        HeadStands(p);
        hide RepresentsCtxs, RepresentsTables, RepresentsQueues, OffloadHead;
        HeadEvent(w, p);
        Commit(HeadOffload(p));
      }
    }

    lemma RoundState()
      requires Valid()
      ensures |qos.buckets| == |qos.weights| && 0 <= qos.maxEntry && qos.lastStmp < UINT64_LIMIT
    {
      hide Recorded, Next, Enabled, Inv;
    }

    method Stamp(cur: nat)
      requires Valid() && cur < UINT64_LIMIT
      modifies qos`lastStmp
      ensures Valid() && qos.lastStmp == cur
    {
      hide Recorded, Next, Enabled, Inv;
      qos.lastStmp := cur;
    }

    /**
     flowQoS_do_entry_event at time cur; accepts(k) is the hardware's answer to attempt k. The entries
     offloaded are a prefix of the plan for the round, all of it unless an attempt fails; then the
     entry that failed is the next of the plan, still at the head of its queue, and the round is
     due again.
     */
    method DoEntryEvent(cur: nat, accepts: nat -> bool) returns (res: nat, ghost done: seq<(nat, Conn)>)
      requires Valid() && filter.enableFlowQoS && cur < UINT64_LIMIT
      modifies this`w, this`history, this`hw, this`timers, universe
      modifies qos`maxEntry, qos`finished, qos`hwCongested, qos`buckets, qos`history, qos`lastStmp, filter`offloadTime
      ensures Valid() && w == OffloadAll(old(w), done)
      ensures old(Signalled()).After(|done|, Signalled())
      ensures |old(qos.buckets)| == |qos.buckets| == |qos.weights| && old(qos.maxEntry) >= 0
      ensures var plan := QosSpec.Plan(old(qos.buckets), qos.weights, old(qos.maxEntry), |qos.weights|);
              var due := Sub64(cur, old(qos.lastStmp)) > qos.gap;
              && (forall k :: 0 <= k < |done| ==> accepts(k))
              && (forall p :: 0 <= p < |qos.buckets| ==> old(qos.buckets)[p] == QosSpec.Of(done, p) + qos.buckets[p])
              && (!due ==> res == 0 && done == [] && qos.lastStmp == old(qos.lastStmp))
              && (due && (forall k :: 0 <= k < |plan| ==> accepts(k)) ==>
                    && done == plan && res == |plan| && qos.lastStmp == cur
                    && qos.buckets == QosWaiting.Step(old(qos.buckets), qos.weights, QosWaiting.Round(old(qos.maxEntry))))
              && (due && !(forall k :: 0 <= k < |plan| ==> accepts(k)) ==>
                    && |done| < |plan| && done == plan[..|done|] && !accepts(|done|)
                    && res == 0 && qos.lastStmp == old(qos.lastStmp)
                    && var (p, c) := plan[|done|]; p < |qos.buckets| && qos.buckets[p] != [] && qos.buckets[p][0] == c)
    {
      hide Valid, OffloadAll, CanOffloadHead, OffloadHead;
      hide QosSpec.Underway, QosSpec.Plan, QosSpec.Of, QosWaiting.Step, Signals.After, Signalled;
      res, done := 0, [];
      RoundState();
      ghost var w0, q0, t0 := w, qos.buckets, qos.maxEntry;
      QosSpec.UnderwayStart(q0, qos.weights, t0);
      OffloadAllNone(w0);
      QosSpec.UnderwayEnd(q0, qos.weights, t0, [], q0, qos.weights, t0, |q0|);
      ghost var s0 := Signalled();
      s0.AfterNone();
      if Sub64(cur, qos.lastStmp) > qos.gap {
        var i := |qos.buckets|;
        while i > 0
          invariant Valid() && 0 <= i <= |qos.buckets| == |q0| && 0 <= qos.maxEntry && qos.lastStmp == old(qos.lastStmp)
          invariant res == |done| && (forall k :: 0 <= k < |done| ==> accepts(k)) && w == OffloadAll(w0, done)
          invariant s0.After(|done|, Signalled())
          invariant QosSpec.Underway(q0, qos.weights, t0, done, qos.buckets, qos.weights, qos.maxEntry, i)
        {
          i := i - 1;
          var weight := qos.weights[i];
          assert qos.weights[i := weight] == qos.weights;
          while qos.buckets[i] != []
            invariant Valid() && |qos.buckets| == |q0| && 0 <= qos.maxEntry && qos.lastStmp == old(qos.lastStmp)
            invariant res == |done| && (forall k :: 0 <= k < |done| ==> accepts(k)) && w == OffloadAll(w0, done)
            invariant s0.After(|done|, Signalled())
            invariant QosSpec.Underway(q0, qos.weights, t0, done, qos.buckets, qos.weights[i := weight], qos.maxEntry, i + 1)
            decreases |qos.buckets[i]|
          {
            if weight <= 0 || qos.maxEntry <= 0 {
              break;
            }
            QosSpec.UnderwayTake(q0, qos.weights, t0, done, qos.buckets, qos.weights[i := weight], qos.maxEntry, i);
            ghost var c := qos.buckets[i][0];
            ghost var s := Signalled();
            var ret := OffloadHeadOf(i, accepts(res));
            s0.AfterNext(|done|, s, ret, Signalled());
            if ret <= 0 {
              QosSpec.UnderwayEnd(q0, qos.weights, t0, done, qos.buckets, qos.weights[i := weight], qos.maxEntry, i + 1);
              return 0, done;
            }
            OffloadAllPush(w0, done, i, c);
            assert qos.weights[i := weight][i := weight - 1] == qos.weights[i := weight - 1];
            done := done + [(i, c)];
            res := res + ret;
            weight := weight - 1;
          }
          QosSpec.UnderwaySkip(q0, qos.weights, t0, done, qos.buckets, qos.weights[i := weight], qos.maxEntry, i);
        }
        QosSpec.UnderwayEnd(q0, qos.weights, t0, done, qos.buckets, qos.weights, qos.maxEntry, 0);
        QosWaiting.RoundLeaves(q0, qos.weights, t0, qos.buckets);
        Stamp(cur);
      }
    }

    // ----- packets

    lemma CtxOf(c: Conn)
      requires Valid() && c in universe
      ensures c in w.ctxs && w.ctxs[c] == c.Value() && c.Stamped()
    {
      hide Recorded, Next, Enabled, Inv;
    }

    lemma Known(k: Match)
      requires Valid() && k in table
      ensures table[k] in universe && InUse(w, table[k]) && table[k].entry.key == k
    {
      hide Recorded, Counted, Ledger;
      assert Placed(w, table[k]);
    }

    /** flowQoS_packet_parser. */
    method Parse(m: Packet, ipv4: bool) returns (r: Option<Entry>)
      requires m.port in ports
      ensures r.Some? <==> IsL4(ipv4, m.hdr)
      ensures r.Some? <==> ipv4 && m.hdr.proto in {6, 17}
      ensures r.Some? ==>
                var e := r.value;
                && e.key == KeyOf(m.hdr, m.rss) && e.key.flags == e.pipe.matchFlags && Tracked(e) && SameTuple(e.key, m.hdr)
                && e.key.rss == m.rss && e.action.flags == e.pipe.actionFlags == ports[m.port]
                && e.pipe.portId == m.port && e.priority == m.tos
    {
      if !ipv4 {
        return None;
      }
      var h := m.hdr;
      var flags := ports[m.port];
      var action := Action(flags, NO_MAC, NO_MAC, 0, 0, 0, 0);
      if h.proto == L4_TCP {
        return Some(Entry(Match(TCP_MATCH_FLAGS, h.srcIp, h.dstIp, h.proto, h.srcPort, h.dstPort, m.rss), action,
                          Pipe(m.port, TCP_MATCH_FLAGS, flags), 0, m.tos));
      } else if h.proto == L4_UDP {
        return Some(Entry(Match(UDP_MATCH_FLAGS, h.srcIp, h.dstIp, h.proto, h.srcPort, h.dstPort, m.rss), action,
                          Pipe(m.port, UDP_MATCH_FLAGS, flags), 0, m.tos));
      } else {
        return None;
      }
    }

    method CountPacket(c: Conn)
      requires Valid() && c in universe
      modifies c`pktCount
      ensures Valid() && c.pktCount == old(c.pktCount) + 1
    {
      hide Recorded, Next, Enabled, Inv, Static, Qos.QosContext.Valid, Filter.ConnFilter.Valid, Conn.Value, Conn.Stamped;
      c.pktCount := c.pktCount + 1;
    }

    /** The part of flowQoS_packet_modifyer that refreshes the software timer about once a second. */
    method RefreshTimer(c: Conn, check: Stamp64, reset: Stamp64)
      requires Valid() && c in universe && InUse(w, c)
      modifies this`w, this`history, this`timers, c`lastResetTimerStmp
      ensures Valid()
      ensures old(c.lastResetTimerStmp) < UINT64_LIMIT
      ensures var stale := AGING in c.entry.action.flags && Sub64(check, old(c.lastResetTimerStmp)) > filter.cpuHz;
              && w == Refreshed(old(w), c, stale)
              && c.lastResetTimerStmp == (if stale && c.state != HwFwd then reset else old(c.lastResetTimerStmp))
              && timers == if stale && c.state != HwFwd
                           then var due := TimerSpec.Alarm(timers.now + 1000 * c.entry.expireTime, 0);
                                old(timers).(armed := old(timers).armed[c := due])
                           else old(timers)
    {
      hide Recorded, Next, Enabled, Inv, Static, Qos.QosContext.Valid, Filter.ConnFilter.Valid, Conn.Value, CompiledRule;
      CtxOf(c);
      StateOf(c);
      if AGING in c.entry.action.flags {
        if Sub64(check, c.lastResetTimerStmp) > filter.cpuHz && c.state != HwFwd {
          RefreshInv(w, c);
          ConsistentInUse(w, c);
          c.lastResetTimerStmp := reset;
          timers := TimerSpec.Step(timers, TimerSpec.Reset(c, c.entry.expireTime * 1000), longest);
          RefreshEvent(w, c);
          Record(Refreshing(c));
        }
      }
    }

    /** What the state shows of connection c, and of what its packets move. */
    lemma Shown(c: Conn)
      requires Valid() && c in universe
      ensures Inv(w) && c in w.ctxs && w.ctxs[c].state == c.state && w.ctxs[c].entry == c.entry && c.Stamped()
      ensures w.queues == qos.buckets && w.timers == timers && w.ctNum == ctNum && w.enabled == filter.enableFlowQoS
    {
      hide Recorded, Next, Enabled, Inv;
    }

    lemma StateOf(c: Conn)
      ensures c.Value().state == c.state && c.Value().entry == c.entry
    {
    }

    /** The handler of an unknown connection says what to do with it, or None: none is registered. */
    method NewConn(e: Entry, handler: Option<Handling>, tsc: Stamp64, hashOk: bool) returns (r: Conn?)
      requires Valid() && e.key !in table && Tracked(e) && e.key.flags == e.pipe.matchFlags
      requires e.action.flags == e.pipe.actionFlags != {AGING}
      requires handler.Some? && handler.value.port >= 0 ==> handler.value.expireTime * 1000 <= longest
      modifies this`pool, this`table, this`timers, this`w, this`history, universe
      ensures Valid()
      ensures r == null <==> || handler.None? || handler.value.port < 0
                             || old(pool) == {} || !hashOk || |old(table)| >= capacity
      ensures r == null ==> w == old(w)
      ensures r != null ==>
                var e' := e.(action := handler.value.action.(flags := e.action.flags), expireTime := handler.value.expireTime);
                && r in universe && CanAdmit(old(w), r, e') && w == Admit(old(w), r, e')
                && r.startTimeStmp == tsc && r.pktCount == 0 && r.lastResetTimerStmp == old(r.lastResetTimerStmp)
                && r.state == SwFwd && r.entry == e'.(expireTime := if e'.expireTime > 0 then e'.expireTime else 10)
                && timers.now == old(timers.now) && r in timers.armed
                && timers.armed[r] == TimerSpec.Alarm(timers.now + 1000 * r.entry.expireTime, 0)
    {
      hide Recorded, Next, Enabled, Inv, Static, Qos.QosContext.Valid, Filter.ConnFilter.Valid, Conn.Value, Conn.Stamped, Admit;
      if handler.None? {
        return null;
      }
      var decision := handler.value;
      if decision.port < 0 {
        return null;
      }
      var e' := e.(action := decision.action.(flags := e.action.flags), expireTime := decision.expireTime);
      assert Consistent(Defaulted(e'), longest) by {
        DefaultFits();
      }
      Timers();
      r := AddConnToHash(e', tsc, hashOk);
      if r != null {
        CtxOf(r);
        StateOf(r);
        Timers();
        JustAdmitted(old(w), r, e');
      }
    }

    lemma Timers()
      requires Valid()
      ensures w.timers == timers && w.ctxs.Keys == universe
    {
      hide Recorded, Next, Enabled, Inv;
    }

    lemma DefaultFits()
      requires Valid()
      ensures DEFAULT_EXPIRE * 1000 <= longest
      ensures w.table == table && w.longest == longest && w.pool == pool
    {
      hide Recorded, Next, Enabled, Inv;
    }

    lemma OfferedEntry(c: Conn, ready: bool, accept: bool, w0: World<Conn>)
      requires Valid() && c in universe && Inv(w0) && InUse(w0, c) && w == Offered(w0, c, ready, accept)
      ensures InUse(w, c) && SameConn(c.entry, w0.ctxs[c].entry)
    {
      hide Recorded, Next, Enabled, Inv, Offered;
      OfferedKeeps(w0, c, ready, accept);
    }

    /**
     Where a packet has moved connection c: to the end of the queue of its priority modulo 4, to the hardware,
     or nowhere. The entry is otherwise as it was.
     */
    ghost predicate Moved(c: Conn, state: CtState, e: Entry, queues: seq<seq<Conn>>, ready: bool, takes: bool)
      reads c`state, c`entry, qos`buckets
    {
      && |queues| == 4
      && if ready && filter.enableFlowQoS
         then var p := e.priority % 4;
              c.state == FlowQos && c.entry == e.(priority := p) && qos.buckets == queues[p := queues[p] + [c]]
         else && c.state == (if ready && takes then HwFwd else state)
              && c.entry == e && qos.buckets == queues
    }

    /** flowQoS_conntrack_packet_processor, once it has the connection c of packet m. */
    method Serve(c: Conn, m: Packet, t: Readings, accept: bool) returns (ret: int)
      requires Valid() && c in universe && InUse(w, c)
      modifies this`w, this`history, this`hw, this`timers, this`ctNum, c, qos`buckets, qos`total, filter, m
      ensures Valid() && old(filter.windowStart) < UINT64_LIMIT && filter.cpuHz > 0 && old(c.Stamped())
      ensures filter.Thr() == old(filter.Tuned(t.tune)) && filter.packetThreshold == old(filter.packetThreshold)
      ensures var ready := LetThrough(old(c.state), old(c.startTimeStmp), t.gate, old(c.pktCount) + 1);
              var stale := && AGING in old(c.entry.action.flags)
                           && Sub64(t.check, old(c.lastResetTimerStmp)) > filter.cpuHz;
              && w == Refreshed(Offered(old(w), c, ready, accept), c, stale)
              && c.lastResetTimerStmp == (if stale && c.state != HwFwd then t.reset else old(c.lastResetTimerStmp))
              && filter.windowEnqueued == old(filter.TunedCount(t.tune)) + (if ready && filter.enableFlowQoS then 1 else 0)
              && filter.rejectedTotal == old(filter.rejectedTotal) + (if !ready && old(c.state) == SwFwd then 1 else 0)
              && (ready <==> && old(c.state) == SwFwd && Sub64(t.gate, old(c.startTimeStmp)) > filter.offloadTime
                             && c.pktCount > filter.packetThreshold)
              && Moved(c, old(c.state), old(c.entry), old(qos.buckets), ready, accept && old(ctNum) > 0)
              && timers.now == old(timers.now) && (c in timers.armed <==> c.state != HwFwd)
              && (c.state != HwFwd && stale ==> timers.armed[c] == TimerSpec.Alarm(timers.now + 1000 * c.entry.expireTime, 0))
              && (c.state != HwFwd && !stale ==> c in old(timers.armed) && timers.armed[c] == old(timers.armed)[c])
      ensures m.hdr == Rewrite(old(c.entry.action), old(m.hdr))
      ensures ret == Peer(old(c.entry.pipe.portId))
      ensures ret != old(c.entry.pipe.portId) && ret / 2 == old(c.entry.pipe.portId) / 2
      ensures m.ipCksum == (old(m.ipCksum) || SIP in old(c.entry.action.flags) || DIP in old(c.entry.action.flags)
                            || TTL_DECREASE in old(c.entry.action.flags))
      ensures m.l4Cksum == (old(m.l4Cksum) || L4Requested(old(c.entry.action), old(c.entry.key.proto)))
      ensures c.pktCount == old(c.pktCount) + 1 && c.startTimeStmp == old(c.startTimeStmp)
    {
      hide Valid, Inv, Offered, Refreshed, Filter.ConnFilter.Tuned, Filter.ConnFilter.TunedCount, Rewrite;
      hide Sub64, Peer, Filter.ConnFilter.Thr;
      ghost var w0 := w;
      CtxOf(c);
      InvOf();
      Shown(c);
      CountPacket(c);
      var _ := OffloadConn(c, t.tune, t.gate, accept);
      ghost var ready := LetThrough(old(c.state), c.startTimeStmp, t.gate, c.pktCount);
      OfferedEntry(c, ready, accept, w0);
      Shown(c);
      OfferMeans(w0, c, ready, accept);
      ArmedInSoftware(w, c);
      ArmedInSoftware(w0, c);
      var port := c.entry.pipe.portId;
      m.Modify(c.entry.action, c.entry.key.proto);
      RefreshTimer(c, t.check, t.reset);
      return Peer(port);
    }

    lemma EnabledPort(m: Packet)
      requires Valid() && m.port in ports
      ensures ports[m.port] != {AGING}
    {
      hide Recorded, Next, Enabled, Inv;
    }

    /** The entry a new connection is admitted with. */
    static ghost predicate NewEntry(e: Entry, h: Header, rss: U32, port: nat, tos: nat, flags: set<Flag>, d: Handling) {
      && e.key == KeyOf(h, rss) && SameTuple(e.key, h) && Tracked(e) && e.pipe.portId == port && e.priority == tos
      && e.action == d.action.(flags := flags) && e.pipe.actionFlags == flags && e.expireTime == d.expireTime
    }

    /**
     flowQoS_conntrack_packet_processor. The answers of the outside world: the new-connection handler's
     decision, whether the hash table finds room, the time stamps, and the hardware's answer.
     A packet is ignored, dropped without a trace, or served as one of its connection, which may just
     have been admitted.
     */
    method PacketProcessor(m: Packet, ipv4: bool, handler: Option<Handling>, t: Readings, hashOk: bool, accept: bool)
      returns (ret: int, ghost c: Conn?, ghost e: Entry)
      requires Valid()
      requires handler.Some? && handler.value.port >= 0 ==> handler.value.expireTime * 1000 <= longest
      modifies this`pool, this`w, this`history, this`table, this`hw, this`timers, this`ctNum
      modifies universe, qos`buckets, qos`total, filter, m
      ensures Valid()
      ensures var tracked := m.port in ports && IsL4(ipv4, old(m.hdr));
              var known := KeyOf(old(m.hdr), m.rss) in old(table);
              var admits := && handler.Some? && handler.value.port >= 0
                            && old(pool) != {} && hashOk && |old(table)| < capacity;
              && (c != null <==> tracked && (known || admits))
              && (!tracked ==> ret == IGNORE_PACKETS) && (tracked && c == null ==> ret == DROP_PACKETS)
              && (c != null && known ==> c == old(table)[KeyOf(old(m.hdr), m.rss)])
              && (c != null && !known ==> CanAdmit(old(w), c, e)
                                          && NewEntry(e, old(m.hdr), m.rss, m.port, m.tos, ports[m.port], handler.value))
      ensures c == null ==> w == old(w) && unchanged(m) && unchanged(filter)
      ensures old(filter.windowStart) < UINT64_LIMIT && filter.cpuHz > 0
      ensures c != null ==> filter.Thr() == old(filter.Tuned(t.tune)) && filter.packetThreshold == old(filter.packetThreshold)
      ensures c != null ==>
                var known := KeyOf(old(m.hdr), m.rss) in old(table);
                && c in universe && old(c.Stamped())
                && var action := if known then old(c.entry.action) else e.action;
                   var port := if known then old(c.entry.pipe.portId) else m.port;
                   var start := if known then old(c.startTimeStmp) else t.admit;
                   var state := if known then old(c.state) else SwFwd;
                   var idle := if e.expireTime > 0 then e.expireTime else 10;
                   var entry := if known then old(c.entry) else e.(expireTime := idle);
                   var ready := LetThrough(state, start, t.gate, if known then old(c.pktCount) + 1 else 1);
                   var stale := AGING in action.flags && Sub64(t.check, old(c.lastResetTimerStmp)) > filter.cpuHz;
                   && m.hdr == Rewrite(action, old(m.hdr)) && ret == Peer(port) && ret != port && ret / 2 == port / 2
                   && (ready <==> && state == SwFwd && Sub64(t.gate, start) > filter.offloadTime
                                  && c.pktCount > filter.packetThreshold)
                   && Moved(c, state, entry, old(qos.buckets), ready, accept && old(ctNum) > 0)
                   && timers.now == old(timers.now) && (c in timers.armed <==> c.state != HwFwd)
                   && (c.state != HwFwd && (stale || !known) ==>
                         timers.armed[c] == TimerSpec.Alarm(timers.now + 1000 * c.entry.expireTime, 0))
                   && (c.state != HwFwd && !stale && known ==> c in old(timers.armed) && timers.armed[c] == old(timers.armed)[c])
                   && m.ipCksum == (old(m.ipCksum) || SIP in action.flags || DIP in action.flags || TTL_DECREASE in action.flags)
                   && m.l4Cksum == (old(m.l4Cksum) || L4Requested(action, old(m.hdr).proto))
                   && c.pktCount == (if known then old(c.pktCount) + 1 else 1)
                   && filter.windowEnqueued == old(filter.TunedCount(t.tune)) + (if ready && filter.enableFlowQoS then 1 else 0)
                   && filter.rejectedTotal
                      == old(filter.rejectedTotal) + (if !ready && (known ==> old(c.state) == SwFwd) then 1 else 0)
                   && w == Refreshed(Offered(if known then old(w) else Admit(old(w), c, e), c, ready, accept), c, stale)
    {
      hide Recorded, Next, Enabled, Inv, Static, Qos.QosContext.Valid, Filter.ConnFilter.Valid;
      hide Offered, Refreshed, Admit, Rewrite, CanAdmit;
      hide Valid, Sub64, Peer, Filter.ConnFilter.Thr, Filter.ConnFilter.Tuned;
      hide Filter.ConnFilter.TunedCount, Conn.Value, Conn.Stamped, L4Requested;
      c := null;
      e := *;
      InvOf();
      if m.port !in ports {
        return IGNORE_PACKETS, null, e;
      }
      EnabledPort(m);
      var parsed := Parse(m, ipv4);
      if parsed.None? {
        return IGNORE_PACKETS, null, e;
      }
      var newEntry := parsed.value;
      var ctx: Conn? := if newEntry.key in table then table[newEntry.key] else null;
      if ctx == null {
        ctx := NewConn(newEntry, handler, t.admit, hashOk);
        if ctx == null {
          return DROP_PACKETS, null, e;
        }
        e := newEntry.(action := handler.value.action.(flags := newEntry.action.flags), expireTime := handler.value.expireTime);
        CtxOf(ctx);
        JustAdmitted(old(w), ctx, e);
        StateOf(ctx);
      } else {
        Known(newEntry.key);
        CtxOf(ctx);
      }
      ret := Serve(ctx, m, t, accept);
      return ret, ctx, e;
    }

    lemma InvOf()
      requires Valid()
      ensures Inv(w) && filter.Valid() && filter.windowStart < UINT64_LIMIT && filter.cpuHz > 0
      ensures w.ctxs.Keys == universe && forall c <- universe :: c.Stamped()
    {
      hide Recorded, Next, Enabled, Inv;
    }
  }
}
