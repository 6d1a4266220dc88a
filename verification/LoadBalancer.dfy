/**
 Round-robin load balancing over the connection tracker: which real server a new connection gets,
 and how many live connections each real server has.
 */
module LoadBalancer {
  import opened DivMod
  import opened Rules
  import opened ConntrackSpec

  const MAX_RIP_PER_VIP := 8
  const CONN_EXPIRE := 3
  const UINT32_LIMIT: nat := 0x1_0000_0000
  const WAN_FLAGS := {DPORT, DIP, SMAC, TTL_DECREASE, DMAC, AGING}

  datatype ServiceKey = ServiceKey(dport: U16, proto: U8, dip: U32)

  function ServiceOf(k: Match): ServiceKey {
    ServiceKey(k.dstPort, k.proto, k.dstIp)
  }

  /** A packet asks for the service at the address, port and protocol it is sent to. */
  lemma ServiceAddressed(k: Match, h: Header)
    requires SameTuple(k, h)
    ensures ServiceOf(k) == ServiceKey(h.dstPort, h.proto, h.dstIp)
  {
  }

  // ----- fairness

  /** The server that selection number i gets, for a 32-bit counter that starts at t. */
  function Selected(t: nat, i: nat, servers: nat): nat
    requires servers > 0
  {
    (t + i) % UINT32_LIMIT % servers
  }

  /** How often server r is among the first n selections. */
  function Picks(t: nat, n: nat, servers: nat, r: nat): nat
    requires servers > 0
  {
    if n == 0 then 0 else Picks(t, n - 1, servers, r) + if Selected(t, n - 1, servers) == r then 1 else 0
  }

  /** How many numbers below x leave remainder r. */
  function Below(x: nat, servers: nat, r: nat): nat
    requires r < servers
  {
    (x + servers - 1 - r) / servers
  }

  /** Where x lies in its lap tells how many numbers below it leave remainder r. */
  lemma BelowLap(q: nat, m: nat, servers: nat, r: nat)
    requires r < servers && m <= servers
    ensures Below(q * servers + m, servers, r) == q + if m > r then 1 else 0
  {
    var p := q * servers;
    if m > r {
      Carry(q, servers);
      QuotientUnique(p + m + servers - 1 - r, q + 1, m - 1 - r, servers);
    } else {
      QuotientUnique(p + m + servers - 1 - r, q, m + servers - 1 - r, servers);
    }
  }

  lemma Carry(q: nat, b: nat)
    ensures (q + 1) * b == q * b + b
  {
  }

  lemma BelowNext(x: nat, servers: nat, r: nat)
    requires r < servers
    ensures Below(x + 1, servers, r) == Below(x, servers, r) + if x % servers == r then 1 else 0
  {
    Split(x, servers);
    BelowLap(x / servers, x % servers, servers, r);
    BelowLap(x / servers, x % servers + 1, servers, r);
  }

  /** The counter's wrap does not disturb the turns. */
  ghost predicate Smooth(t: nat, n: nat, servers: nat)
    requires servers > 0
  {
    t + n <= UINT32_LIMIT || UINT32_LIMIT % servers == 0
  }

  lemma WrapKeepsTurn(x: nat, servers: nat)
    requires servers > 0 && (x < UINT32_LIMIT || UINT32_LIMIT % servers == 0)
    ensures x % UINT32_LIMIT % servers == x % servers
  {
    if x >= UINT32_LIMIT {
      var laps, turns := x / UINT32_LIMIT, UINT32_LIMIT / servers;
      Split(x, UINT32_LIMIT);
      Split(UINT32_LIMIT, servers);
      var y := x % UINT32_LIMIT;
      Split(y, servers);
      QuotientSum(laps, turns, servers, y / servers);
      QuotientUnique(x, laps * turns + y / servers, y % servers, servers);
    }
  }

  lemma QuotientSum(laps: nat, turns: nat, servers: nat, q: nat)
    ensures laps * (turns * servers) + q * servers == (laps * turns + q) * servers
  {
  }

  lemma {:induction false} PicksBelow(t: nat, n: nat, servers: nat, r: nat)
    requires r < servers && Smooth(t, n, servers)
    ensures Picks(t, n, servers, r) == Below(t + n, servers, r) - Below(t, servers, r)
  {
    if n > 0 {
      PicksBelow(t, n - 1, servers, r);
      WrapKeepsTurn(t + n - 1, servers);
      BelowNext(t + n - 1, servers, r);
    }
  }

  /** In n consecutive turns every server gets its share, rounded down or up. */
  lemma BelowSpan(x: nat, n: nat, servers: nat, r: nat)
    requires r < servers
    ensures n / servers <= Below(x + n, servers, r) - Below(x, servers, r)
         <= n / servers + (if n % servers == 0 then 0 else 1)
  {
    var y := x + servers - 1 - r;
    Split(y, servers);
    Split(n, servers);
    Laps(y / servers, n / servers, servers);
    var laps, m := y / servers + n / servers, y % servers + n % servers;
    if m < servers {
      QuotientUnique(y + n, laps, m, servers);
    } else {
      Carry(laps, servers);
      QuotientUnique(y + n, laps + 1, m - servers, servers);
    }
  }

  lemma Laps(p: nat, q: nat, b: nat)
    ensures (p + q) * b == p * b + q * b
  {
  }

  /** Over any stretch of selections that the wrap does not disturb, loads differ by at most one. */
  lemma Balanced(t: nat, n: nat, servers: nat, r: nat, s: nat)
    requires r < servers && s < servers && Smooth(t, n, servers)
    ensures Picks(t, n, servers, r) <= Picks(t, n, servers, s) + 1
  {
    PicksBelow(t, n, servers, r);
    PicksBelow(t, n, servers, s);
    BelowSpan(t, n, servers, r);
    BelowSpan(t, n, servers, s);
  }

  /** Loads never differ by more than one, whatever stretch of selections is looked at. */
  ghost predicate AlwaysBalanced(servers: nat)
    requires servers > 0
  {
    forall t: nat, n: nat, r: nat, s: nat | t < UINT32_LIMIT && r < servers && s < servers ::
      Picks(t, n, servers, r) <= Picks(t, n, servers, s) + 1
  }

  /** They do so for good if and only if the number of servers divides the range of the counter. */
  lemma BalancedForever(servers: nat)
    requires 0 < servers < UINT32_LIMIT
    ensures AlwaysBalanced(servers) <==> UINT32_LIMIT % servers == 0
  {
    if UINT32_LIMIT % servers == 0 {
      forall t: nat, n: nat, r: nat, s: nat | t < UINT32_LIMIT && r < servers && s < servers
        ensures Picks(t, n, servers, r) <= Picks(t, n, servers, s) + 1
      {
        Balanced(t, n, servers, r, s);
      }
    } else {
      WrapUnbalances(servers);
    }
  }

  /** Just before and after the wrap, server 0 is selected twice and the last server not at all. */
  lemma WrapUnbalances(servers: nat)
    requires 0 < servers < UINT32_LIMIT && UINT32_LIMIT % servers != 0
    ensures var m := UINT32_LIMIT % servers;
            Picks(UINT32_LIMIT - m, m + 1, servers, 0) == 2 && Picks(UINT32_LIMIT - m, m + 1, servers, servers - 1) == 0
  {
    var m, q := UINT32_LIMIT % servers, UINT32_LIMIT / servers;
    Split(UINT32_LIMIT, servers);
    LastLap(q, m, servers);
  }

  lemma LastLap(q: nat, m: nat, servers: nat)
    requires 0 < m < servers && q * servers + m == UINT32_LIMIT
    ensures var t := q * servers;
            && t + m == UINT32_LIMIT && Picks(t, m + 1, servers, 0) == 2 && Picks(t, m + 1, servers, servers - 1) == 0
  {
    var t := q * servers;
    PicksBelow(t, m, servers, 0);
    PicksBelow(t, m, servers, servers - 1);
    BelowLap(q, 0, servers, 0);
    BelowLap(q, m, servers, 0);
    BelowLap(q, 0, servers, servers - 1);
    BelowLap(q, m, servers, servers - 1);
    hide Below;
    FirstTurn(t, m, servers);
    PicksNext(t, m, servers, 0);
    PicksNext(t, m, servers, servers - 1);
  }

  lemma FirstTurn(t: nat, m: nat, servers: nat)
    requires servers > 0 && t + m == UINT32_LIMIT
    ensures Selected(t, m, servers) == 0
  {
  }

  lemma PicksNext(t: nat, n: nat, servers: nat, r: nat)
    requires servers > 0
    ensures Picks(t, n + 1, servers, r) == Picks(t, n, servers, r) + if Selected(t, n, servers) == r then 1 else 0
  {
  }

  // ----- the counters

  class Service {
    const rip: seq<U32>
    const rport: seq<U32>
    const totalRealServers: nat
    var totalConnections: U32
    const flowStats: array<U32>
    ghost var selections: nat

    ghost predicate Valid()
      reads this
    {
      && 0 < totalRealServers <= MAX_RIP_PER_VIP == |rip| == |rport| == flowStats.Length
      && totalConnections == selections % UINT32_LIMIT
    }

    constructor (rip: seq<U32>, rport: seq<U32>, servers: nat)
      requires 0 < servers <= MAX_RIP_PER_VIP == |rip| == |rport|
      ensures Valid() && selections == 0 && forall r :: 0 <= r < MAX_RIP_PER_VIP ==> flowStats[r] == 0
      ensures this.rip == rip && this.rport == rport && totalRealServers == servers && fresh(flowStats)
    {
      this.rip, this.rport, totalRealServers, totalConnections, selections := rip, rport, servers, 0, 0;
      flowStats := new U32[MAX_RIP_PER_VIP](_ => 0);
    }

    /** The next server in turn. */
    method Select() returns (r: nat)
      requires Valid()
      modifies this`totalConnections, this`selections
      ensures Valid() && r == Selected(0, old(selections), totalRealServers) < totalRealServers
      ensures selections == old(selections) + 1
    {
      r := totalConnections % totalRealServers;
      AddMod(selections, 1, UINT32_LIMIT);
      totalConnections := (totalConnections + 1) % UINT32_LIMIT;
      selections := selections + 1;
    }
  }

  /** A 32-bit counter of n things. */
  function Wrapped(n: nat): U32 {
    n % UINT32_LIMIT
  }

  /** ++ and -- on a 32-bit counter. */
  function Up(x: U32): U32 {
    (x + 1) % UINT32_LIMIT
  }

  function Down(x: U32): U32 {
    (x + UINT32_LIMIT - 1) % UINT32_LIMIT
  }

  lemma WrappedNext(n: nat)
    ensures Wrapped(n + 1) == Up(Wrapped(n)) && Wrapped(n) == Down(Wrapped(n + 1))
    ensures Down(Wrapped(0)) != Wrapped(0)
  {
  }

  ghost predicate Agrees(stats: map<(ServiceKey, nat), U32>, live: multiset<(ServiceKey, nat)>) {
    forall x <- stats :: stats[x] == Wrapped(live[x])
  }

  lemma AgreesMore(stats: map<(ServiceKey, nat), U32>, live: multiset<(ServiceKey, nat)>, x: (ServiceKey, nat))
    requires Agrees(stats, live) && x in stats
    ensures Agrees(stats[x := Up(stats[x])], live + multiset{x})
  {
    hide Up, Down, Wrapped;
    WrappedNext(live[x]);
  }

  /** Counting down stays right if and only if there was something to count down. */
  lemma AgreesLess(stats: map<(ServiceKey, nat), U32>, live: multiset<(ServiceKey, nat)>, x: (ServiceKey, nat))
    requires Agrees(stats, live) && x in stats
    ensures Agrees(stats[x := Down(stats[x])], live - multiset{x}) <==> x in live
  {
    var stats' := stats[x := Down(stats[x])];
    hide Up, Down, Wrapped;
    if x in live {
      WrappedNext(live[x] - 1);
    } else {
      WrappedNext(0);
      assert x in stats' && stats'[x] != Wrapped((live - multiset{x})[x]);
    }
  }

  class Balancer {
    const wanPort: nat
    const lanPort: nat
    const services: map<ServiceKey, Service>
    ghost var live: multiset<(ServiceKey, nat)>  // a server of a service, for each live connection

    ghost predicate Static() {
      && (forall k <- services :: services[k].flowStats.Length == MAX_RIP_PER_VIP)
      && (forall j, k | j in services && k in services && j != k ::
            services[j] != services[k] && services[j].flowStats != services[k].flowStats)
    }

    /** The counters, by service and server. */
    ghost function Stats(): map<(ServiceKey, nat), U32>
      requires Static()
      reads set k | k in services :: services[k].flowStats
    {
      map k, r | k in services && 0 <= r < MAX_RIP_PER_VIP :: (k, r) := services[k].flowStats[r]
    }

    /** Each counter holds the number of live connections of its server. */
    ghost predicate Counted()
      requires Static()
      reads this, set k | k in services :: services[k].flowStats
    {
      Agrees(Stats(), live)
    }

    ghost predicate Valid()
      reads this, set k | k in services :: services[k], set k | k in services :: services[k].flowStats
    {
      && Static() && (forall k <- services :: services[k].Valid()) && Counted()
      && (forall x <- live :: x.0 in services && x.1 < services[x.0].totalRealServers)
    }

    constructor (wanPort: nat, lanPort: nat, services: map<ServiceKey, Service>)
      requires forall k <- services :: services[k].Valid() && forall r :: 0 <= r < MAX_RIP_PER_VIP ==> services[k].flowStats[r] == 0
      requires forall j, k | j in services && k in services && j != k ::
                 services[j] != services[k] && services[j].flowStats != services[k].flowStats
      ensures Valid() && live == multiset{} && this.services == services
    {
      this.wanPort, this.lanPort, this.services, live := wanPort, lanPort, services, multiset{};
    }

    method Turn(s: ServiceKey) returns (r: nat)
      requires Valid() && s in services
      modifies services[s]
      ensures Valid() && r == Selected(0, old(services[s].selections), services[s].totalRealServers) < services[s].totalRealServers
      ensures services[s].selections == old(services[s].selections) + 1
    {
      r := services[s].Select();
    }

    lemma InStats(s: ServiceKey, r: nat)
      requires Static() && s in services && r < MAX_RIP_PER_VIP
      ensures (s, r) in Stats() && Stats()[(s, r)] == services[s].flowStats[r]
    {
    }

    /** The counter of server r of service s becomes x. */
    method SetCounter(s: ServiceKey, r: nat, x: U32)
      requires Static() && s in services && r < MAX_RIP_PER_VIP
      modifies services[s].flowStats
      ensures services[s].flowStats[r] == x
      ensures forall q | 0 <= q < MAX_RIP_PER_VIP && q != r :: services[s].flowStats[q] == old(services[s].flowStats[q])
      ensures Stats() == old(Stats())[(s, r) := x]
    {
      InStats(s, r);
      var stats := services[s].flowStats;
      stats[r] := x;
    }

    method Count(s: ServiceKey, r: nat)
      requires Valid() && s in services && r < services[s].totalRealServers
      modifies this`live, services[s].flowStats
      ensures Valid() && live == old(live) + multiset{(s, r)}
    {
      assert services[s].Valid() && r < MAX_RIP_PER_VIP;
      hide Agrees, Stats, Up, Service.Valid;
      ghost var stats, before := Stats(), live;
      InStats(s, r);
      SetCounter(s, r, Up(services[s].flowStats[r]));
      live := live + multiset{(s, r)};
      Gained(stats, before, (s, r));
      hide Valid;
    }

    /** One more of x in both counts. */
    lemma Gained(stats: map<(ServiceKey, nat), U32>, before: multiset<(ServiceKey, nat)>, x: (ServiceKey, nat))
      requires Static() && forall k <- services :: services[k].Valid()
      requires Agrees(stats, before) && x in stats && Stats() == stats[x := Up(stats[x])] && live == before + multiset{x}
      requires forall y <- live :: y.0 in services && y.1 < services[y.0].totalRealServers
      ensures Valid()
    {
      AgreesMore(stats, before, x);
      hide Agrees, Stats, Up, Service.Valid;
    }

    /** One less of (s, r) in both counts: right if and only if there was one. */
    lemma Judge(stats: map<(ServiceKey, nat), U32>, before: multiset<(ServiceKey, nat)>, x: (ServiceKey, nat))
      requires Static() && forall k <- services :: services[k].Valid()
      requires Agrees(stats, before) && x in stats && Stats() == stats[x := Down(stats[x])] && live == before - multiset{x}
      requires forall y <- before :: y.0 in services && y.1 < services[y.0].totalRealServers
      ensures Valid() <==> x in before
    {
      AgreesLess(stats, before, x);
      hide Agrees, Stats, Down, Service.Valid;
    }

    method Uncount(s: ServiceKey, r: nat)
      requires Valid() && s in services && r < MAX_RIP_PER_VIP
      modifies this`live, services[s].flowStats
      ensures live == old(live) - multiset{(s, r)} && (Valid() <==> (s, r) in old(live))
      ensures var stats := services[s].flowStats;
              && stats[r] == Down(old(stats[r]))
              && forall q | 0 <= q < MAX_RIP_PER_VIP && q != r :: stats[q] == old(stats[q])
    {
      hide Agrees, Stats, Down, Service.Valid;
      ghost var stats, before := Stats(), live;
      InStats(s, r);
      SetCounter(s, r, Down(services[s].flowStats[r]));
      live := live - multiset{(s, r)};
      Judge(stats, before, (s, r));
      hide Valid;
    }

    /**
     newConn_handler. srcMac is the address of the LAN port, arp what the ARP table knows. A connection
     whose server is not in the ARP table uses up its turn but is not counted.
     */
    method NewConn(x: Entry, srcMac: Mac, arp: U32 -> Option<Mac>) returns (port: int, x': Entry)
      requires Valid()
      modifies this`live, set k | k in services :: services[k]
      modifies set k | k in services :: services[k].flowStats
      ensures Valid()
      ensures var s := ServiceKey(x.key.dstPort, x.key.proto, x.key.dstIp);
              && x'.key == x.key && x'.pipe == x.pipe && x'.action.flags == x.action.flags
              && (x.pipe.portId != wanPort || s !in services ==>
                    && port == IGNORE_PACKETS && live == old(live)
                    && forall k <- services :: services[k].selections == old(services[k].selections))
              && (x.pipe.portId == wanPort && s in services ==>
                    var ser := services[s];
                    var r := Selected(0, old(ser.selections), ser.totalRealServers);
                    && r < ser.totalRealServers && x'.expireTime == CONN_EXPIRE && ser.selections == old(ser.selections) + 1
                    && x'.action.srcIp == r && x'.action.dstIp == ser.rip[r] && x'.action.dstPort == ser.rport[r] % 0x1_0000
                    && x'.action.srcMac == srcMac
                    && (arp(ser.rip[r]).None? ==> port == IGNORE_PACKETS && live == old(live))
                    && (arp(ser.rip[r]).Some? ==>
                          port == lanPort && x'.action.dstMac == arp(ser.rip[r]).value && live == old(live) + multiset{(s, r)}))
    {
      hide Selected, Counted;
      x' := x;
      if x.pipe.portId != wanPort {
        return IGNORE_PACKETS, x';
      }
      var s := ServiceOf(x.key);
      x' := x'.(expireTime := CONN_EXPIRE);
      if s !in services {
        return IGNORE_PACKETS, x';
      }
      var ser := services[s];
      var r := Turn(s);
      x' := x'.(action := x'.action.(dstIp := ser.rip[r], dstPort := ser.rport[r] % 0x1_0000, srcIp := r, srcMac := srcMac));
      if arp(x'.action.dstIp).Some? {
        x' := x'.(action := x'.action.(dstMac := arp(x'.action.dstIp).value));
        Count(s, r);
        return lanPort, x';
      }
      return IGNORE_PACKETS, x';
    }

    /**
     agingConn_handler: takes one off the server named in the entry, if the service is known. The
     counters stay right if and only if that server had a live connection of the service.
     */
    method AgingConn(x: Entry)
      requires Valid() && (ServiceOf(x.key) in services ==> x.action.srcIp < MAX_RIP_PER_VIP)
      modifies this`live, set k | k in services && k == ServiceOf(x.key) :: services[k].flowStats
      ensures var s, r := ServiceKey(x.key.dstPort, x.key.proto, x.key.dstIp), x.action.srcIp;
              && (s !in services ==> Valid() && live == old(live))
              && (s in services ==>
                    var stats := services[s].flowStats;
                    && live == old(live) - multiset{(s, r)} && (Valid() <==> (s, r) in old(live))
                    && stats[r] == Down(old(stats[r]))
                    && forall q | 0 <= q < MAX_RIP_PER_VIP && q != r :: stats[q] == old(stats[q]))
    {
      hide Agrees, Stats;
      var s := ServiceOf(x.key);
      if s !in services {
        return;
      }
      Uncount(s, x.action.srcIp);
    }
  }

  /** The server index that rides in the source address never reaches a packet. */
  lemma IndexStaysInside(a: Action, h: Header)
    requires a.flags == WAN_FLAGS
    ensures Rewrite(a, h).srcIp == h.srcIp && forall r: U32 :: Rewrite(a.(srcIp := r), h) == Rewrite(a, h)
  {
  }

  // ----- counters and connection tracking

  ghost predicate Assigned(e: Entry, s: ServiceKey, r: nat) {
    e.key.dstPort == s.dport && e.key.proto == s.proto && e.key.dstIp == s.dip && e.action.srcIp == r
  }

  /** The live connections of server r of service s. */
  ghost function LiveOn<C>(w: World<C>, s: ServiceKey, r: nat): set<nat> {
    OnServer(w.live.Keys, w.admitted, s, r)
  }

  ghost function OnServer(live: set<nat>, admitted: seq<Entry>, s: ServiceKey, r: nat): set<nat> {
    set n | n in live && n < |admitted| && Assigned(admitted[n], s, r)
  }

  /** What an event does to the counter of server r of service s, the handlers being told what they are. */
  ghost function Delta<C>(w: World<C>, ev: Event<C>, s: ServiceKey, r: nat): int
    requires Enabled(w, ev)
  {
    match ev
    case Admission(c, e) => if Assigned(e, s, r) then 1 else 0
    case SoftwareAging(c) => if Assigned(w.ctxs[c].entry, s, r) then -1 else 0
    case HardwareAging(c) => if Assigned(w.ctxs[c].entry, s, r) then -1 else 0
    case _ => 0
  }

  ghost function Tally<C>(w: World<C>, evs: seq<Event<C>>, w': World<C>, s: ServiceKey, r: nat): int
    requires Reaches(w, evs, w')
    decreases |evs|
  {
    if evs == [] then 0 else Delta(w, evs[0], s, r) + Tally(Next(w, evs[0]), evs[1..], w', s, r)
  }

  lemma NextLive<C>(w: World<C>, ev: Event<C>, s: ServiceKey, r: nat)
    requires Inv(w) && Enabled(w, ev)
    ensures |LiveOn(Next(w, ev), s, r)| == |LiveOn(w, s, r)| + Delta(w, ev, s, r)
  {
    hide Inv, Admit, Refresh, Enqueue, OffloadHead, OffloadNow, Expire, Age, Advance, OnServer;
    if ev.Admission? {
      NextAdmitted(w, ev.c, ev.e);
      ServerGains(w.live.Keys, w.admitted, ev.e, s, r);
      assert Next(w, ev).live.Keys == w.live.Keys + {|w.admitted|};
    } else if ev.SoftwareAging? || ev.HardwareAging? {
      AgedWasLive(w, ev.c, ev);
      var n := w.ctxs[ev.c].serial;
      ServerLoses(w.live.Keys, w.admitted, n, s, r);
      assert Next(w, ev).live.Keys == w.live.Keys - {n};
    } else {
      LiveStays(w, ev);
    }
  }

  lemma ServerGains(live: set<nat>, admitted: seq<Entry>, e: Entry, s: ServiceKey, r: nat)
    requires |admitted| !in live
    ensures |OnServer(live + {|admitted|}, admitted + [e], s, r)|
         == |OnServer(live, admitted, s, r)| + if Assigned(e, s, r) then 1 else 0
  {
    hide Assigned;
    var before, after := OnServer(live, admitted, s, r), OnServer(live + {|admitted|}, admitted + [e], s, r);
    if Assigned(e, s, r) {
      assert after == before + {|admitted|};
    } else {
      assert after == before;
    }
  }

  lemma ServerLoses(live: set<nat>, admitted: seq<Entry>, n: nat, s: ServiceKey, r: nat)
    requires n in live && n < |admitted|
    ensures |OnServer(live - {n}, admitted, s, r)|
         == |OnServer(live, admitted, s, r)| - if Assigned(admitted[n], s, r) then 1 else 0
  {
    hide Assigned;
    var before, after := OnServer(live, admitted, s, r), OnServer(live - {n}, admitted, s, r);
    if Assigned(admitted[n], s, r) {
      assert before == after + {n};
    } else {
      assert before == after;
    }
  }

  /**
   Over any run of the tracker, a counter that goes up with each admission to a server and down with
   each aging callback about it has changed by exactly as much as its live connections have.
   */
  lemma {:induction false} CountersFollowLive<C>(w: World<C>, evs: seq<Event<C>>, w': World<C>, s: ServiceKey, r: nat)
    requires Inv(w) && Reaches(w, evs, w')
    ensures |LiveOn(w', s, r)| == |LiveOn(w, s, r)| + Tally(w, evs, w', s, r)
    decreases |evs|
  {
    hide Inv, Enabled, Next, LiveOn, Delta;
    if evs != [] {
      NextInv(w, evs[0]);
      NextLive(w, evs[0], s, r);
      CountersFollowLive(Next(w, evs[0]), evs[1..], w', s, r);
    }
  }

  // ----- tracker and application together

  function Slot(e: Entry): (ServiceKey, nat) {
    (ServiceOf(e.key), e.action.srcIp)
  }

  /** The servers of the live ones among the first n connections admitted. */
  ghost function Placement(live: set<nat>, admitted: seq<Entry>, n: nat): multiset<(ServiceKey, nat)>
    requires n <= |admitted|
  {
    if n == 0 then multiset{}
    else Placement(live, admitted, n - 1) + if n - 1 in live then multiset{Slot(admitted[n - 1])} else multiset{}
  }

  lemma {:induction false} PlacementLocal(live: set<nat>, admitted: seq<Entry>, live': set<nat>, admitted': seq<Entry>, n: nat)
    requires n <= |admitted| && admitted <= admitted' && forall m: nat | m < n :: m in live <==> m in live'
    ensures Placement(live', admitted', n) == Placement(live, admitted, n)
  {
    if n > 0 {
      PlacementLocal(live, admitted, live', admitted', n - 1);
    }
  }

  lemma PlacementGains(live: set<nat>, admitted: seq<Entry>, e: Entry)
    requires |admitted| !in live
    ensures Placement(live + {|admitted|}, admitted + [e], |admitted| + 1)
         == Placement(live, admitted, |admitted|) + multiset{Slot(e)}
  {
    PlacementLocal(live, admitted, live + {|admitted|}, admitted + [e], |admitted|);
  }

  lemma {:induction false} PlacementLoses(live: set<nat>, admitted: seq<Entry>, m: nat, n: nat)
    requires m in live && m < n <= |admitted|
    ensures Placement(live, admitted, n) == Placement(live - {m}, admitted, n) + multiset{Slot(admitted[m])}
  {
    if m == n - 1 {
      PlacementLocal(live, admitted, live - {m}, admitted, m);
    } else {
      PlacementLoses(live, admitted, m, n - 1);
    }
  }

  lemma SlotAssigned(e: Entry, s: ServiceKey, r: nat)
    ensures Assigned(e, s, r) <==> Slot(e) == (s, r)
  {
  }

  /** One more admission adds itself to its server's connections, if it is live. */
  lemma OnServerNext(live: set<nat>, admitted: seq<Entry>, n: nat, s: ServiceKey, r: nat)
    requires 0 < n <= |admitted|
    ensures var before, after := set m | m in live && m < n - 1 && Assigned(admitted[m], s, r),
                                 set m | m in live && m < n && Assigned(admitted[m], s, r);
            |after| == |before| + if n - 1 in live && Assigned(admitted[n - 1], s, r) then 1 else 0
  {
    hide Assigned;
    var before, after := set m | m in live && m < n - 1 && Assigned(admitted[m], s, r),
                         set m | m in live && m < n && Assigned(admitted[m], s, r);
    if n - 1 in live && Assigned(admitted[n - 1], s, r) {
      assert after == before + {n - 1};
    } else {
      assert after == before;
    }
  }

  /** How many live connections a server has. */
  lemma {:induction false} PlacementCounts(live: set<nat>, admitted: seq<Entry>, n: nat, s: ServiceKey, r: nat)
    requires n <= |admitted|
    ensures Placement(live, admitted, n)[(s, r)] == |set m | m in live && m < n && Assigned(admitted[m], s, r)|
  {
    hide Assigned, Slot;
    if n > 0 {
      SlotAssigned(admitted[n - 1], s, r);
      OnServerNext(live, admitted, n, s, r);
      PlacementCounts(live, admitted, n - 1, s, r);
    }
  }

  /**
   A balancer behind a tracker. The handlers are called with what the tracker tells them, every
   admission after a successful selection succeeds, and any other events happen in between.
   */
  class Site<C(==)> {
    const balancer: Balancer
    ghost const tracker: Tracker<C>

    /** What the balancer takes to be live is what the tracker has live, server by server. */
    ghost predicate Agreed()
      reads tracker`w, balancer`live
    {
      balancer.live == Placement(tracker.w.live.Keys, tracker.w.admitted, |tracker.w.admitted|)
    }

    ghost predicate Valid()
      reads tracker, balancer, set k | k in balancer.services :: balancer.services[k]
      reads set k | k in balancer.services :: balancer.services[k].flowStats
    {
      balancer.Valid() && tracker.Valid() && Agreed()
    }

    constructor (balancer: Balancer, ghost tracker: Tracker<C>)
      requires balancer.Valid() && balancer.live == multiset{} && tracker.Valid() && Initial(tracker.w)
      ensures Valid() && this.balancer == balancer && this.tracker == tracker
    {
      hide Tracker.Valid, Balancer.Valid;
      this.balancer, this.tracker := balancer, tracker;
    }

    /** An event that concerns no handler. */
    ghost method Happens(ev: Event<C>)
      requires Valid() && Enabled(tracker.w, ev) && !ev.Admission? && !ev.SoftwareAging? && !ev.HardwareAging?
      modifies tracker`w, tracker`history
      ensures Valid() && tracker.w == Next(old(tracker.w), ev)
    {
      hide Tracker.Valid, Enabled, Next, Balancer.Valid;
      LiveStays(tracker.w, ev);
      tracker.Record(ev);
    }

    /** A new connection: the handler chooses a server, and the tracker admits what the handler made of it. */
    method NewConn(ghost c: C, x: Entry, srcMac: Mac, arp: U32 -> Option<Mac>) returns (port: int, x': Entry)
      requires Valid() && CanAdmit(tracker.w, c, x.(expireTime := CONN_EXPIRE))
      modifies tracker`w, tracker`history, balancer`live, set k | k in balancer.services :: balancer.services[k]
      modifies set k | k in balancer.services :: balancer.services[k].flowStats
      ensures Valid()
      ensures var w0 := old(tracker.w);
              if port == balancer.lanPort then CanAdmit(w0, c, x') && tracker.w == Admit(w0, c, x') && x'.key == x.key
              else tracker.w == w0
    {
      hide Tracker.Valid, Balancer.Valid, Placement, Admit;
      ghost var before := tracker.w;
      port, x' := balancer.NewConn(x, srcMac, arp);
      if port == balancer.lanPort {
        tracker.Admits(c, x');
        OneMore(before, x');
      }
      hide Agreed;
    }

    lemma OneMore(before: World<C>, e: Entry)
      requires |before.admitted| !in before.live && tracker.w.live.Keys == before.live.Keys + {|before.admitted|}
      requires tracker.w.admitted == before.admitted + [e]
      requires balancer.live == Placement(before.live.Keys, before.admitted, |before.admitted|) + multiset{Slot(e)}
      ensures Agreed()
    {
      PlacementGains(before.live.Keys, before.admitted, e);
    }

    /** A connection ages, in software or hardware: the handler is told its entry, and always knows it. */
    method Ages(ghost ev: Event<C>, x: Entry)
      requires Valid() && (ev.SoftwareAging? || ev.HardwareAging?) && Enabled(tracker.w, ev) && x == tracker.w.ctxs[ev.c].entry
      modifies tracker`w, tracker`history, balancer`live
      modifies set k | k in balancer.services :: balancer.services[k].flowStats
      ensures Valid() && tracker.w == Next(old(tracker.w), ev)
    {
      hide Tracker.Valid, Next, Balancer.Valid, Placement, Inv;
      tracker.InvOf();
      ghost var before := tracker.w;
      AgedWasLive(before, ev.c, ev);
      PlacementLoses(before.live.Keys, before.admitted, before.ctxs[ev.c].serial, |before.admitted|);
      KnownSlot(x);
      balancer.AgingConn(x);
      tracker.Record(ev);
    }

    lemma KnownSlot(x: Entry)
      requires balancer.Valid() && Slot(x) in balancer.live
      ensures ServiceOf(x.key) in balancer.services && x.action.srcIp < MAX_RIP_PER_VIP
    {
      assert balancer.services[ServiceOf(x.key)].Valid();
    }

    /** After every run each counter is the number of live connections of its server, modulo 2^32. */
    lemma StatsAreLive(s: ServiceKey, r: nat)
      requires Valid() && s in balancer.services && r < MAX_RIP_PER_VIP
      ensures Initial(tracker.start) && Reaches(tracker.start, tracker.history, tracker.w)
      ensures balancer.services[s].flowStats.Length == MAX_RIP_PER_VIP
      ensures balancer.services[s].flowStats[r] == Wrapped(|LiveOn(tracker.w, s, r)|)
    {
      hide Reaches, Initial, Inv;
      var w := tracker.w;
      balancer.InStats(s, r);
      PlacementCounts(w.live.Keys, w.admitted, |w.admitted|, s, r);
      assert LiveOn(w, s, r) == set m | m in w.live.Keys && m < |w.admitted| && Assigned(w.admitted[m], s, r);
    }
  }
}
