/**
 Entries, packets, and the compilation of an entry to a hardware rule. The hardware reads a pipe's
 template as follows: a zero field is ignored, an all-ones field takes the value of the rule that
 is hit, any other field takes the template's own value.
 */
module Rules {

  type U8 = x: nat | x < 0x100
  type U16 = x: nat | x < 0x1_0000
  type U32 = x: nat | x < 0x1_0000_0000
  type Mac = s: seq<U8> | |s| == MAC_LEN witness [0, 0, 0, 0, 0, 0]

  const MAC_LEN := 6
  const ONES8: U8 := 0xff
  const ONES16: U16 := 0xffff
  const ONES32: U32 := 0xffff_ffff
  const NO_MAC: Mac := [0, 0, 0, 0, 0, 0]
  const ONES_MAC: Mac := [0xff, 0xff, 0xff, 0xff, 0xff, 0xff]
  const L4_TCP: U8 := 6
  const L4_UDP: U8 := 17

  // what a packet processor returns instead of a port
  const DROP_PACKETS := -1
  const IGNORE_PACKETS := -2

  datatype Option<T> = None | Some(value: T)

  datatype Flag = SMAC | DMAC | SIP | DIP | TCP | UDP | SPORT | DPORT | TTL_DECREASE | AGING | COUNTER

  const TCP_MATCH_FLAGS := {SIP, DIP, TCP, SPORT, DPORT}
  const UDP_MATCH_FLAGS := {SIP, DIP, UDP, SPORT, DPORT}

  datatype Match = Match(flags: set<Flag>, srcIp: U32, dstIp: U32, proto: U8, srcPort: U16, dstPort: U16, rss: U32)

  datatype Action = Action(flags: set<Flag>, srcMac: Mac, dstMac: Mac, srcIp: U32, dstIp: U32, srcPort: U16, dstPort: U16)

  /** FlowQoS_PIPE: the port it serves and the patterns every entry of it follows. */
  datatype Pipe = Pipe(portId: nat, matchFlags: set<Flag>, actionFlags: set<Flag>)

  datatype Entry = Entry(key: Match, action: Action, pipe: Pipe, expireTime: nat, priority: nat)

  datatype Header = Header(srcMac: Mac, dstMac: Mac, srcIp: U32, dstIp: U32, ttl: U8, proto: U8, srcPort: U16, dstPort: U16)

  // ----- the hardware

  datatype L4Type = AnyL4 | OnlyTcp | OnlyUdp

  datatype HwMatch = HwMatch(srcIp: U32, dstIp: U32, l4: L4Type, srcPort: U16, dstPort: U16)

  datatype HwAction = HwAction(srcMac: Mac, dstMac: Mac, srcIp: U32, dstIp: U32, ttl: U8, srcPort: U16, dstPort: U16)

  datatype HwMonitor = HwMonitor(count: bool, aging: bool, agingTime: int)

  /** Actions, the descriptor that turns the ttl field into an addition, and the monitor. */
  datatype HwMeta = HwMeta(actions: HwAction, ttlAdd: bool, monitor: HwMonitor)

  datatype Fwd = Drop | ToPort | RssToQueue | NextPipe(pipe: nat)

  datatype HwFwd = HwDrop | HwPort(portId: nat) | HwRss | HwPipeFwd(pipe: nat)

  datatype HwPipe = HwPipe(match_: HwMatch, meta: HwMeta, hit: HwFwd, miss: HwFwd)

  datatype HwRule = HwRule(match_: HwMatch, actions: HwAction, monitor: HwMonitor)

  const NO_MATCH := HwMatch(0, 0, AnyL4, 0, 0)
  const NO_ACTION := HwAction(NO_MAC, NO_MAC, 0, 0, 0, 0, 0)

  /** The value a packet field must have to hit, if any. */
  predicate FieldHit(template: nat, value: nat, field: nat, ones: nat) {
    template == 0 || field == (if template == ones then value else template)
  }

  predicate L4Hit(l4: L4Type, proto: U8) {
    l4 == AnyL4 || (l4 == OnlyTcp && proto == L4_TCP) || (l4 == OnlyUdp && proto == L4_UDP)
  }

  predicate Hits(pipe: HwPipe, rule: HwRule, h: Header) {
    && FieldHit(pipe.match_.srcIp, rule.match_.srcIp, h.srcIp, ONES32)
    && FieldHit(pipe.match_.dstIp, rule.match_.dstIp, h.dstIp, ONES32)
    && L4Hit(pipe.match_.l4, h.proto)
    && FieldHit(pipe.match_.srcPort, rule.match_.srcPort, h.srcPort, ONES16)
    && FieldHit(pipe.match_.dstPort, rule.match_.dstPort, h.dstPort, ONES16)
  }

  function SetField<T(==)>(template: T, value: T, field: T, zero: T, ones: T): T {
    if template == zero then field else if template == ones then value else template
  }

  /** What the hardware does to a packet that hits the rule. */
  function Execute(pipe: HwPipe, rule: HwRule, h: Header): Header {
    var t, v := pipe.meta.actions, rule.actions;
    h.(srcMac := SetField(t.srcMac, v.srcMac, h.srcMac, NO_MAC, ONES_MAC),
       dstMac := SetField(t.dstMac, v.dstMac, h.dstMac, NO_MAC, ONES_MAC),
       srcIp := SetField(t.srcIp, v.srcIp, h.srcIp, 0, ONES32),
       dstIp := SetField(t.dstIp, v.dstIp, h.dstIp, 0, ONES32),
       ttl := if pipe.meta.ttlAdd then (h.ttl + t.ttl) % 0x100 else h.ttl,
       srcPort := SetField(t.srcPort, v.srcPort, h.srcPort, 0, ONES16),
       dstPort := SetField(t.dstPort, v.dstPort, h.dstPort, 0, ONES16))
  }

  // ----- the adapters

  /** port_id ^ 1: the other port of the pair. */
  function Peer(portId: nat): (r: nat)
    ensures r != portId && r / 2 == portId / 2
  {
    if portId % 2 == 0 then portId + 1 else portId - 1
  }

  /** Ports come in pairs: q is the peer of p exactly when it is the other one of p's pair, and so is p of q. */
  lemma PeerExactly(p: nat, q: nat)
    ensures q == Peer(p) <==> q != p && q / 2 == p / 2
    ensures Peer(Peer(p)) == p
  {
  }

  /** A 64-bit value passed as a C int. */
  function ToInt32(x: nat): int {
    var y := x % 0x1_0000_0000;
    if y < 0x8000_0000 then y else y - 0x1_0000_0000
  }

  function CompiledMatch(m: Match, isEntry: bool): HwMatch {
    HwMatch(if SIP in m.flags then (if isEntry then m.srcIp else ONES32) else 0,
            if DIP in m.flags then (if isEntry then m.dstIp else ONES32) else 0,
            if isEntry then AnyL4
            else if UDP in m.flags then OnlyUdp else if TCP in m.flags then OnlyTcp else AnyL4,
            if SPORT in m.flags then (if isEntry then m.srcPort else ONES16) else 0,
            if DPORT in m.flags then (if isEntry then m.dstPort else ONES16) else 0)
  }

  method MatchAdapter(m: Match, isEntry: int) returns (d: HwMatch)
    ensures d == if isEntry < 0 then CompiledMatch(m, false).(l4 := AnyL4) else CompiledMatch(m, isEntry > 0)
  {
    d := NO_MATCH;
    if SIP in m.flags {
      d := d.(srcIp := if isEntry > 0 then m.srcIp else ONES32);
    }
    if DIP in m.flags {
      d := d.(dstIp := if isEntry > 0 then m.dstIp else ONES32);
    }
    if TCP in m.flags {
      if isEntry == 0 {
        d := d.(l4 := OnlyTcp);
      }
    }
    if UDP in m.flags {
      if isEntry == 0 {
        d := d.(l4 := OnlyUdp);
      }
    }
    if SPORT in m.flags {
      d := d.(srcPort := if isEntry > 0 then m.srcPort else ONES16);
    }
    if DPORT in m.flags {
      d := d.(dstPort := if isEntry > 0 then m.dstPort else ONES16);
    }
  }

  /** agingTime is 0 for a pipe's template; a rule carries the entry's values when it is positive. */
  function CompiledAction(a: Action, agingTime: int): HwMeta {
    var rule := agingTime > 0;
    HwMeta(
      HwAction(if SMAC in a.flags then (if rule then a.srcMac else ONES_MAC) else NO_MAC,
               if DMAC in a.flags then (if rule then a.dstMac else ONES_MAC) else NO_MAC,
               if SIP in a.flags then (if rule then a.srcIp else ONES32) else 0,
               if DIP in a.flags then (if rule then a.dstIp else ONES32) else 0,
               if TTL_DECREASE in a.flags && agingTime == 0 then ONES8 else 0,
               if SPORT in a.flags then (if rule then a.srcPort else ONES16) else 0,
               if DPORT in a.flags then (if rule then a.dstPort else ONES16) else 0),
      TTL_DECREASE in a.flags && agingTime == 0,
      HwMonitor(COUNTER in a.flags && agingTime == 0, AGING in a.flags,
                if AGING in a.flags then agingTime else 0))
  }

  /** The byte loop that fills a hardware address. */
  method MacAdapter(mac: Mac, agingTime: int) returns (r: Mac)
    ensures r == if agingTime > 0 then mac else ONES_MAC
  {
    r := NO_MAC;
    for i := 0 to MAC_LEN
      invariant forall j :: 0 <= j < i ==> r[j] == if agingTime > 0 then mac[j] else ONES8
    {
      r := r[i := if agingTime > 0 then mac[i] else ONES8];
    }
  }

  method ActionAdapter(a: Action, agingTime: int) returns (d: HwMeta)
    ensures d == CompiledAction(a, agingTime)
  {
    var act, ttlAdd, mon := NO_ACTION, false, HwMonitor(false, false, 0);
    if SMAC in a.flags {
      var mac := MacAdapter(a.srcMac, agingTime);
      act := act.(srcMac := mac);
    }
    if DMAC in a.flags {
      var mac := MacAdapter(a.dstMac, agingTime);
      act := act.(dstMac := mac);
    }
    if SIP in a.flags {
      act := act.(srcIp := if agingTime > 0 then a.srcIp else ONES32);
    }
    if DIP in a.flags {
      act := act.(dstIp := if agingTime > 0 then a.dstIp else ONES32);
    }
    if TTL_DECREASE in a.flags {
      if agingTime == 0 {
        ttlAdd := true;
        act := act.(ttl := ONES8);
      }
    }
    if SPORT in a.flags {
      act := act.(srcPort := if agingTime > 0 then a.srcPort else ONES16);
    }
    if DPORT in a.flags {
      act := act.(dstPort := if agingTime > 0 then a.dstPort else ONES16);
    }
    if COUNTER in a.flags {
      if agingTime == 0 {
        mon := mon.(count := true);
      }
    }
    if AGING in a.flags {
      mon := mon.(aging := true);
      if agingTime != 0 {
        mon := mon.(aging := true, agingTime := agingTime);
      }
    }
    d := HwMeta(act, ttlAdd, mon);
  }

  function FwdAdapter(fwd: Fwd, portId: nat): HwFwd {
    match fwd
    case Drop => HwDrop
    case ToPort => HwPort(Peer(portId))
    case RssToQueue => HwRss
    case NextPipe(p) => HwPipeFwd(p)
  }

  const NO_KEY := Match({}, 0, 0, 0, 0, 0, 0)
  const NO_REWRITE := Action({}, NO_MAC, NO_MAC, 0, 0, 0, 0)

  /** A hardware pipe: the patterns of p as templates, and where packets go that hit or miss. */
  function PipeTemplate(p: Pipe, hit: Fwd, miss: Fwd): HwPipe {
    HwPipe(CompiledMatch(NO_KEY.(flags := p.matchFlags), false),
           CompiledAction(NO_REWRITE.(flags := p.actionFlags), 0), FwdAdapter(hit, p.portId), FwdAdapter(miss, p.portId))
  }

  /** The hardware pipe that flowQoS_conntrack_init_port builds: hit to the port, miss to software. */
  function CompiledPipe(p: Pipe, rss: nat): HwPipe {
    PipeTemplate(p, ToPort, NextPipe(rss))
  }

  /** Where the hardware takes packets that the pipe forwards by f, as said by the forward it was given. */
  ghost predicate Forwards(f: HwFwd, fwd: Fwd, portId: nat) {
    && (f.HwDrop? <==> fwd.Drop?) && (f.HwRss? <==> fwd.RssToQueue?)
    && (f.HwPort? <==> fwd.ToPort?) && (f.HwPort? ==> f.portId != portId && f.portId / 2 == portId / 2)
    && (f.HwPipeFwd? <==> fwd.NextPipe?) && (f.HwPipeFwd? ==> f.pipe == fwd.pipe)
  }

  /**
   flowQoS_build_pipe. A packet that hits is forwarded as asked, one to the port leaves by the other port
   of the pair, and one that misses likewise; the pipe counts and ages as its action flags say.
   */
  method BuildPipe(p: Pipe, hit: Fwd, miss: Fwd) returns (hw: HwPipe)
    ensures hw == PipeTemplate(p, hit, miss)
    ensures Forwards(hw.hit, hit, p.portId) && Forwards(hw.miss, miss, p.portId)
    ensures hw.meta.monitor == HwMonitor(COUNTER in p.actionFlags, AGING in p.actionFlags, 0)
  {
    var m := MatchAdapter(NO_KEY.(flags := p.matchFlags), 0);
    var a := ActionAdapter(NO_REWRITE.(flags := p.actionFlags), 0);
    hw := HwPipe(m, a, FwdAdapter(hit, p.portId), FwdAdapter(miss, p.portId));
  }

  /** The int that flowQoS_add_entry hands to the action adapter. */
  function AgingArgument(expireTime: nat): int {
    ToInt32(if expireTime > 0 then expireTime else 1)
  }

  /** flowQoS_add_entry overwrites the entry's flags with those of its pipe. */
  function Installed(e: Entry): Entry {
    e.(key := e.key.(flags := e.pipe.matchFlags), action := e.action.(flags := e.pipe.actionFlags))
  }

  function CompiledRule(e: Entry): HwRule {
    var i := Installed(e);
    var meta := CompiledAction(i.action, AgingArgument(e.expireTime));
    HwRule(CompiledMatch(i.key, true), meta.actions, meta.monitor)
  }

  /**
   The part of flowQoS_add_entry that comes before the call into the hardware library. A rule of an
   aging pipe ages after the entry's expireTime in seconds, as a C int, or after one second for 0.
   */
  method PrepareRule(e: Entry) returns (e': Entry, rule: HwRule)
    ensures e' == Installed(e) && rule == CompiledRule(e)
    ensures e'.key.flags == e.pipe.matchFlags && e'.action.flags == e.pipe.actionFlags
    ensures e' == e.(key := e.key.(flags := e'.key.flags), action := e.action.(flags := e'.action.flags))
    ensures 0 < e.expireTime < 0x8000_0000 ==>
              rule.monitor == HwMonitor(false, AGING in e.pipe.actionFlags, if AGING in e.pipe.actionFlags then e.expireTime else 0)
    ensures e.expireTime == 0 && AGING in e.pipe.actionFlags ==> rule.monitor.aging && rule.monitor.agingTime == 1
  {
    e' := e.(key := e.key.(flags := e.pipe.matchFlags));
    e' := e'.(action := e'.action.(flags := e.pipe.actionFlags));
    var m := MatchAdapter(e'.key, 1);
    var a := ActionAdapter(e'.action, ToInt32(if e'.expireTime > 0 then e'.expireTime else 1));
    rule := HwRule(m, a.actions, a.monitor);
  }

  // ----- the software path

  /** What an action means: the header it turns h into. */
  function Rewrite(a: Action, h: Header): Header {
    h.(srcMac := if SMAC in a.flags then a.srcMac else h.srcMac,
       dstMac := if DMAC in a.flags then a.dstMac else h.dstMac,
       srcIp := if SIP in a.flags then a.srcIp else h.srcIp,
       dstIp := if DIP in a.flags then a.dstIp else h.dstIp,
       ttl := if TTL_DECREASE in a.flags then (if h.ttl == 0 then 0xff else h.ttl - 1) else h.ttl,
       srcPort := if SPORT in a.flags then a.srcPort else h.srcPort,
       dstPort := if DPORT in a.flags then a.dstPort else h.dstPort)
  }

  /** A rewritten header has the action's values in the flagged fields, one hop less to live, and the rest as it was. */
  lemma RewritesFlagged(a: Action, h: Header)
    ensures var r, f := Rewrite(a, h), a.flags;
            && r.srcMac == (if SMAC in f then a.srcMac else h.srcMac) && r.dstMac == (if DMAC in f then a.dstMac else h.dstMac)
            && r.srcIp == (if SIP in f then a.srcIp else h.srcIp) && r.dstIp == (if DIP in f then a.dstIp else h.dstIp)
            && r.srcPort == (if SPORT in f then a.srcPort else h.srcPort)
            && r.dstPort == (if DPORT in f then a.dstPort else h.dstPort) && r.proto == h.proto
            && (r.ttl + if TTL_DECREASE in f then 1 else 0) % 0x100 == h.ttl
  {
  }

  /** A received packet: its header and the checksums it asks the interface to compute. */
  class Packet {
    const port: nat
    const tos: U8
    const rss: U32
    var hdr: Header
    var ipCksum: bool
    var l4Cksum: bool

    constructor (port: nat, tos: U8, rss: U32, hdr: Header)
      ensures this.port == port && this.tos == tos && this.rss == rss && this.hdr == hdr && !ipCksum && !l4Cksum
    {
      this.port, this.tos, this.rss, this.hdr := port, tos, rss, hdr;
      ipCksum, l4Cksum := false, false;
    }

    /** The header part of flowQoS_packet_modifyer; proto is that of the connection. */
    method Modify(a: Action, proto: U8)
      modifies this
      ensures hdr == Rewrite(a, old(hdr))
      ensures ipCksum == (old(ipCksum) || SIP in a.flags || DIP in a.flags || TTL_DECREASE in a.flags)
      ensures l4Cksum == (old(l4Cksum) || L4Requested(a, proto))
    {
      var ip, l4 := false, false;
      if SMAC in a.flags {
        hdr := hdr.(srcMac := a.srcMac);
      }
      if DMAC in a.flags {
        hdr := hdr.(dstMac := a.dstMac);
      }
      if SIP in a.flags {
        hdr := hdr.(srcIp := a.srcIp);
        ip := true;
      }
      if DIP in a.flags {
        hdr := hdr.(dstIp := a.dstIp);
        ip := true;
      }
      if TTL_DECREASE in a.flags {
        hdr := hdr.(ttl := if hdr.ttl == 0 then 0xff else hdr.ttl - 1);
        ip := true;
      }
      if SPORT in a.flags {
        hdr := hdr.(srcPort := a.srcPort);
        l4 := true;
      }
      if DPORT in a.flags {
        hdr := hdr.(dstPort := a.dstPort);
        l4 := true;
      }
      if ip {
        ipCksum := true;
      }
      if l4 {
        if proto == L4_TCP || proto == L4_UDP {
          l4Cksum := true;
        }
      }
    }
  }

  // ----- the two paths agree

  /** A connection of a conntrack pipe: a full 5-tuple match on the protocol of its key. */
  ghost predicate Tracked(e: Entry) {
    || (e.pipe.matchFlags == TCP_MATCH_FLAGS && e.key.proto == L4_TCP)
    || (e.pipe.matchFlags == UDP_MATCH_FLAGS && e.key.proto == L4_UDP)
  }

  ghost predicate SameTuple(m: Match, h: Header) {
    m.srcIp == h.srcIp && m.dstIp == h.dstIp && m.proto == h.proto && m.srcPort == h.srcPort && m.dstPort == h.dstPort
  }

  /** The rule of a connection is hit by exactly the packets of its 5-tuple. */
  lemma RuleHitsTuple(e: Entry, rss: nat, h: Header)
    requires Tracked(e)
    ensures Hits(CompiledPipe(e.pipe, rss), CompiledRule(e), h) <==> SameTuple(e.key, h)
  {
  }

  /**
   The fast path refines the slow path: on every header, for every action, the hardware produces
   the header and the egress port of the software modifier, also when expireTime is 0.
   */
  lemma HardwareRefinesSoftware(e: Entry, rss: nat, h: Header)
    requires AgingArgument(e.expireTime) > 0
    ensures Execute(CompiledPipe(e.pipe, rss), CompiledRule(e), h) == Rewrite(Installed(e).action, h)
    ensures var pipe := CompiledPipe(e.pipe, rss);
            && pipe.hit.HwPort? && pipe.hit.portId != e.pipe.portId && pipe.hit.portId / 2 == e.pipe.portId / 2
            && pipe.miss == HwPipeFwd(rss)
  {
    assert (h.ttl + 0xff) % 0x100 == if h.ttl == 0 then 0xff else h.ttl - 1;
  }

  /** What the hardware sends from one port of a pair to the other, it sends back when the answer arrives there. */
  lemma ReplyGoesBack(p: Pipe, q: Pipe, rss: nat, rss': nat)
    requires CompiledPipe(p, rss).hit == HwPort(q.portId)
    ensures CompiledPipe(q, rss').hit == HwPort(p.portId)
  {
    PeerExactly(p.portId, q.portId);
  }

  /** The rule of an aging pipe ages after the entry's expireTime; rules do not count, their pipe does. */
  lemma RuleMonitor(e: Entry)
    requires 0 < e.expireTime < 0x8000_0000
    ensures var aging := AGING in e.pipe.actionFlags;
            CompiledRule(e).monitor == HwMonitor(false, aging, if aging then e.expireTime else 0)
  {
  }

  /** 2^31 seconds is the least expireTime that is not positive as a C int. */
  lemma PositiveAging(expireTime: nat)
    ensures expireTime < 0x8000_0000 ==> AgingArgument(expireTime) > 0
    ensures AgingArgument(0x8000_0000) < 0
  {
  }

  /** Every field that the action rewrites gets all ones. */
  predicate AllOnes(a: Action) {
    && (SMAC in a.flags ==> a.srcMac == ONES_MAC) && (DMAC in a.flags ==> a.dstMac == ONES_MAC)
    && (SIP in a.flags ==> a.srcIp == ONES32) && (DIP in a.flags ==> a.dstIp == ONES32)
    && (SPORT in a.flags ==> a.srcPort == ONES16) && (DPORT in a.flags ==> a.dstPort == ONES16)
  }

  /**
   The fast path is the slow path exactly when the aging time is positive as a C int, or when all
   that is rewritten becomes all ones anyway: otherwise the adapter takes the entry for a template.
   */
  lemma HardwareRefinesExactly(e: Entry, rss: nat)
    ensures (forall h: Header :: Execute(CompiledPipe(e.pipe, rss), CompiledRule(e), h) == Rewrite(Installed(e).action, h))
            <==> AgingArgument(e.expireTime) > 0 || AllOnes(Installed(e).action)
  {
    var h := Header(NO_MAC, NO_MAC, 0, 0, 0, 0, 0, 0);
    var a := Installed(e).action;
    if AgingArgument(e.expireTime) > 0 {
      forall h: Header
        ensures Execute(CompiledPipe(e.pipe, rss), CompiledRule(e), h) == Rewrite(a, h)
      {
        HardwareRefinesSoftware(e, rss, h);
      }
    } else if AllOnes(a) {
      forall h: Header
        ensures Execute(CompiledPipe(e.pipe, rss), CompiledRule(e), h) == Rewrite(a, h)
      {
        assert (h.ttl + 0xff) % 0x100 == if h.ttl == 0 then 0xff else h.ttl - 1;
      }
    } else {
      assert Execute(CompiledPipe(e.pipe, rss), CompiledRule(e), h) != Rewrite(a, h);
    }
  }

  /** The part of a header that the layer 4 checksum covers (the rewritten part of it). */
  function L4Covered(h: Header): (U32, U32, U16, U16) {
    (h.srcIp, h.dstIp, h.srcPort, h.dstPort)
  }

  /** The software path asks the interface for a fresh layer 4 checksum. */
  predicate L4Requested(a: Action, proto: U8) {
    (SPORT in a.flags || DPORT in a.flags) && proto in {L4_TCP, L4_UDP}
  }

  /**
   The software path refreshes the layer 4 checksum on every packet whose covered fields it changes
   exactly when the action rewrites a port whenever it rewrites an address. An action with SIP
   alone, say, leaves a stale checksum.
   */
  lemma L4ChecksumFresh(a: Action, proto: U8)
    requires proto in {L4_TCP, L4_UDP}
    ensures (forall h: Header :: L4Covered(Rewrite(a, h)) != L4Covered(h) ==> L4Requested(a, proto))
            <==> (SIP in a.flags || DIP in a.flags ==> SPORT in a.flags || DPORT in a.flags)
  {
    if !(SPORT in a.flags || DPORT in a.flags) && (SIP in a.flags || DIP in a.flags) {
      var other := (x: U32) => if x == 0 then 1 as U32 else 0;
      var h := Header(NO_MAC, NO_MAC, other(a.srcIp), other(a.dstIp), 0, proto, 0, 0);
      assert L4Covered(Rewrite(a, h)) != L4Covered(h);
    }
  }
}
