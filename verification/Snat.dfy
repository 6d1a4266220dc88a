/**
 Source address translation: a pool of the 65536 ports of the WAN address, and one table that holds
 for every live connection the key of its packets and the key of the replies to them.
 */
module Snat {
  import opened Rules
  import opened Sequences

  const LAN_PORT := 0
  const WAN_PORT := 1
  const PORTS := 65536
  const CONN_EXPIRE := 50
  const LAN_FLAGS := {SIP, SPORT, DMAC, AGING}
  const WAN_FLAGS := {DIP, DPORT, DMAC, AGING}

  /** struct snat_match. */
  datatype Flow = Flow(sip: U32, dip: U32, sport: U16, dport: U16, proto: U8)

  function FlowOf(k: Match): Flow {
    Flow(k.srcIp, k.dstIp, k.srcPort, k.dstPort, k.proto)
  }

  function Tuple(h: Header): Flow {
    Flow(h.srcIp, h.dstIp, h.srcPort, h.dstPort, h.proto)
  }

  /** An entry's key and a packet's header name the same flow exactly when they are the same 5-tuple. */
  lemma FlowIsTuple(m: Match, h: Header)
    ensures FlowOf(m) == Tuple(h) <==> SameTuple(m, h)
  {
  }

  /** Packet r answers packet h: it goes back from where h went to where h came from. */
  ghost predicate Answers(r: Header, h: Header) {
    && r.srcIp == h.dstIp && r.dstIp == h.srcIp && r.srcPort == h.dstPort && r.dstPort == h.srcPort && r.proto == h.proto
  }

  /** struct snat_pool_entry: an address of the WAN side, and the client it currently stands for. */
  class PoolEntry {
    const sip: U32
    const sport: U16
    var dip: U32
    var dport: U16

    constructor (sip: U32, sport: U16)
      ensures this.sip == sip && this.sport == sport
    {
      this.sip, this.sport := sip, sport;
    }
  }

  /** The key of the replies to flow k when it is sent from the address of e. */
  function Reverse(k: Flow, e: PoolEntry): Flow {
    Flow(k.dip, e.sip, k.dport, e.sport, k.proto)
  }

  /** The table holds exactly two keys for each connection, and no key serves two. */
  ghost predicate Translates(table: map<Flow, PoolEntry>, flows: map<PoolEntry, Flow>) {
    && (forall e <- flows :: flows[e] in table && table[flows[e]] == e)
    && (forall e <- flows :: Reverse(flows[e], e) in table && table[Reverse(flows[e], e)] == e)
    && (forall e <- flows :: flows[e] != Reverse(flows[e], e))
    && (forall k <- table :: table[k] in flows && (k == flows[table[k]] || k == Reverse(flows[table[k]], table[k])))
  }

  /** Both keys of a new connection are new. */
  ghost predicate Fresh(table: map<Flow, PoolEntry>, k: Flow, e: PoolEntry) {
    k !in table && Reverse(k, e) !in table && k != Reverse(k, e)
  }

  /** Adding a connection keeps the table exact if and only if both its keys are new. */
  lemma AddTranslates(table: map<Flow, PoolEntry>, flows: map<PoolEntry, Flow>, k: Flow, e: PoolEntry)
    requires Translates(table, flows) && e !in flows
    ensures Translates(table[k := e][Reverse(k, e) := e], flows[e := k]) <==> Fresh(table, k, e)
  {
    var table', flows' := table[k := e][Reverse(k, e) := e], flows[e := k];
    if Fresh(table, k, e) {
      forall d <- flows'
        ensures flows'[d] in table' && table'[flows'[d]] == d
        ensures Reverse(flows'[d], d) in table' && table'[Reverse(flows'[d], d)] == d
        ensures flows'[d] != Reverse(flows'[d], d)
      {
        assert d != e ==> flows'[d] == flows[d];
      }
      assert Translates(table', flows');
    } else if k in table {
      Stolen(table, flows, table', flows', k, e);
    } else if Reverse(k, e) in table {
      Stolen(table, flows, table', flows', Reverse(k, e), e);
    } else {
      assert flows'[e] == Reverse(flows'[e], e);
    }
  }

  /** A key of a live connection that leads to another entry breaks the table. */
  lemma Stolen(table: map<Flow, PoolEntry>, flows: map<PoolEntry, Flow>,
               table': map<Flow, PoolEntry>, flows': map<PoolEntry, Flow>, k: Flow, e: PoolEntry)
    requires Translates(table, flows) && k in table && e !in flows
    requires k in table' && table'[k] == e && forall d <- flows :: d in flows' && flows'[d] == flows[d]
    ensures !Translates(table', flows')
  {
    var d := table[k];
    assert d in flows && d != e;
  }

  /** Taking out both keys of a connection keeps the table exact. */
  lemma RemoveTranslates(table: map<Flow, PoolEntry>, flows: map<PoolEntry, Flow>, e: PoolEntry)
    requires Translates(table, flows) && e in flows
    ensures Translates(table - {flows[e], Reverse(flows[e], e)}, flows - {e})
  {
  }

  /** Two keys for every connection. */
  lemma {:induction false} TableSize(table: map<Flow, PoolEntry>, flows: map<PoolEntry, Flow>)
    requires Translates(table, flows)
    ensures |table| == 2 * |flows|
    decreases |flows|
  {
    if flows == map[] {
      assert table == map[];
    } else {
      var e :| e in flows;
      var k, r := flows[e], Reverse(flows[e], e);
      assert k in table && r in table && k != r;
      RemoveTranslates(table, flows, e);
      hide Translates;
      RemoveCard(flows, e);
      TableSize(table - {k, r}, flows - {e});
      RemoveTwo(table, k, r);
    }
  }

  lemma RemoveTwo<K, V>(m: map<K, V>, k: K, r: K)
    requires k in m && r in m && k != r
    ensures |m - {k, r}| == |m| - 2
  {
    RemoveCard(m, k);
    RemoveCard(m - {k}, r);
    assert m - {k} - {r} == m - {k, r};
  }

  /** A connection to an address other than the WAN's own, whose own key is new, is new altogether. */
  lemma OutboundFresh(table: map<Flow, PoolEntry>, flows: map<PoolEntry, Flow>, k: Flow, e: PoolEntry)
    requires Translates(table, flows) && k !in table && k.dip != e.sip
    requires forall d <- flows :: flows[d].dip != e.sip && d.sport != e.sport
    ensures Fresh(table, k, e)
  {
    var r := Reverse(k, e);
    assert forall d <- flows :: r != flows[d] && r != Reverse(flows[d], d);
  }

  /** Aging gives back what admission took: both keys leave, and the address is the next to be used. */
  lemma AgingUndoes(table: map<Flow, PoolEntry>, bucket: seq<PoolEntry>, flows: map<PoolEntry, Flow>, k: Flow)
    requires bucket != [] && Fresh(table, k, bucket[0]) && bucket[0] !in flows
    ensures var e := bucket[0];
            && table[k := e][Reverse(k, e) := e] - {k, Reverse(k, e)} == table
            && [e] + bucket[1..] == bucket && flows[e := k] - {e} == flows
  {
  }

  /** Aging a key that is not the forward key of its connection breaks the table. */
  lemma OnlyForwardAges(table: map<Flow, PoolEntry>, flows: map<PoolEntry, Flow>, k: Flow)
    requires Translates(table, flows) && k in table
    ensures var e := table[k];
            Translates(table - {k, Reverse(k, e)}, flows - {e}) <==> k == flows[e]
  {
    var e := table[k];
    if k == flows[e] {
      RemoveTranslates(table, flows, e);
    } else {
      var table' := table - {k, Reverse(k, e)};
      assert k == Reverse(flows[e], e);
      assert flows[e] in table' && table'[flows[e]] == e;
    }
  }

  lemma {:induction false} DistinctCount<T>(s: seq<T>)
    requires NoDuplicates(s)
    ensures |Elements(s)| == |s|
  {
    if s == [] {
      ElementsNone<T>();
    } else {
      var t, x := s[..|s| - 1], s[|s| - 1];
      assert s == t + [x];
      assert x !in Elements(t);
      DistinctCount(t);
      ElementsPush(t, x);
    }
  }

  class Nat {
    const wanIp: U32
    const capacity: nat              // MAX_CT_IN_POOL
    const entries: seq<PoolEntry>
    var bucket: seq<PoolEntry>       // the free ones
    var table: map<Flow, PoolEntry>
    ghost var flows: map<PoolEntry, Flow>  // the others, and the connection each stands for

    ghost predicate Ports() {
      |entries| == PORTS && forall i :: 0 <= i < PORTS ==> entries[i].sport == i && entries[i].sip == wanIp
    }

    /** Each of the 65536 ports is either free, and then once, or in use. */
    ghost predicate Partition()
      reads this
    {
      && NoDuplicates(bucket) && (forall e <- bucket :: e in entries && e !in flows)
      && (forall e <- flows :: e in entries) && (forall e <- entries :: e in bucket || e in flows)
    }

    /** An entry in use remembers the client. */
    ghost predicate Clients()
      reads this, entries
    {
      forall e <- entries :: e in flows ==> e.dip == flows[e].sip && e.dport == flows[e].sport
    }

    ghost predicate Valid()
      reads this, entries
    {
      Ports() && Partition() && Translates(table, flows) && Clients()
    }

    /** flowQoS_snat_pool_init: the ports are put into the pool in ascending order. */
    constructor (wanIp: U32, capacity: nat)
      ensures Valid() && flows == map[] && table == map[] && |bucket| == PORTS
      ensures this.wanIp == wanIp && this.capacity == capacity
    {
      var made, list: seq<PoolEntry> := [], [];
      for i := 0 to PORTS
        invariant |made| == |list| == i && forall j :: 0 <= j < i ==> list[j] == made[i - 1 - j]
        invariant forall j :: 0 <= j < i ==> fresh(made[j]) && made[j].sport == j && made[j].sip == wanIp
      {
        var e := new PoolEntry(wanIp, i);
        made := made + [e];
        list := [e] + list;
      }
      this.wanIp, this.capacity, entries, bucket, table, flows := wanIp, capacity, made, list, map[], map[];
      new;
      assert forall i :: 0 <= i < PORTS ==> entries[i] == bucket[PORTS - 1 - i];
    }

    /** flowQoS_snat_pool_put. */
    method Put(e: PoolEntry)
      modifies this`bucket
      ensures bucket == [e] + old(bucket)
    {
      bucket := [e] + bucket;
    }

    /** flowQoS_snat_pool_get. */
    method Get() returns (e: PoolEntry?)
      modifies this`bucket
      ensures e == null <==> old(bucket) == []
      ensures e == null ==> bucket == old(bucket)
      ensures e != null ==> e == old(bucket)[0] && bucket == old(bucket)[1..]
    {
      if bucket == [] {
        return null;
      }
      e := bucket[0];
      bucket := bucket[1..];
    }

    /** The table takes a key it already has, and a new one if there is room. */
    ghost predicate Takes(t: map<Flow, PoolEntry>, k: Flow, room: bool) {
      k in t || (room && |t| < capacity)
    }

    /** rte_hash_add_key_data. */
    method AddKey(k: Flow, e: PoolEntry, room: bool) returns (ok: bool)
      modifies this`table
      ensures ok == Takes(old(table), k, room) && table == if ok then old(table)[k := e] else old(table)
    {
      ok := k in table || (room && |table| < capacity);
      if ok {
        table := table[k := e];
      }
    }

    /** The steps of the LAN half of newConn_handler. */
    method UpstreamFields(x: Entry, arp: Option<Mac>, room1: bool, room2: bool) returns (port: int, x': Entry)
      requires forall e <- bucket :: e in entries
      modifies this`bucket, this`table, entries
      ensures port == WAN_PORT <==> Admits(old(table), old(bucket), FlowOf(x.key), arp, room1, room2)
      ensures port != WAN_PORT ==>
                && port == DROP_PACKETS && x' == x && bucket == old(bucket)
                && table == if arp.None? || old(bucket) == [] || !Takes(old(table), FlowOf(x.key), room1) then old(table)
                            else old(table)[FlowOf(x.key) := old(bucket)[0]] - {FlowOf(x.key)}
      ensures port == WAN_PORT ==>
                var k, e := FlowOf(x.key), old(bucket)[0];
                && x' == x.(expireTime := CONN_EXPIRE,
                            action := x.action.(srcIp := e.sip, srcPort := e.sport, dstMac := arp.value))
                && bucket == old(bucket)[1..] && table == old(table)[k := e][Reverse(k, e) := e]
                && e.dip == k.sip && e.dport == k.sport
      ensures forall d <- entries :: old(bucket) == [] || d != old(bucket)[0] ==> d.dip == old(d.dip) && d.dport == old(d.dport)
    {
      if arp.None? {
        return DROP_PACKETS, x;
      }
      var e := Get();
      if e == null {
        return DROP_PACKETS, x;
      }
      assert e in old(bucket);
      var k := FlowOf(x.key);
      e.dip := x.key.srcIp;
      e.dport := x.key.srcPort;
      var ok := AddKey(k, e, room1);
      if !ok {
        Put(e);
        return DROP_PACKETS, x;
      }
      ok := AddKey(Reverse(k, e), e, room2);
      if !ok {
        table := table - {k};
        Put(e);
        return DROP_PACKETS, x;
      }
      x' := x.(expireTime := CONN_EXPIRE);
      x' := x'.(action := x'.action.(srcIp := e.sip, srcPort := e.sport));
      x' := x'.(action := x'.action.(dstMac := arp.value));
      return WAN_PORT, x';
    }

    /** The destination is known, a port is free, and the table takes both keys. */
    ghost predicate Admits(t: map<Flow, PoolEntry>, free: seq<PoolEntry>, k: Flow, arp: Option<Mac>, room1: bool, room2: bool) {
      && arp.Some? && free != [] && Takes(t, k, room1)
      && Takes(t[k := free[0]], Reverse(k, free[0]), room2)
    }

    /** A new connection gets in exactly if its destination is known and there is room for its two keys. */
    lemma FreshAdmits(k: Flow, arp: Option<Mac>, room1: bool, room2: bool)
      ensures bucket != [] && Fresh(table, k, bucket[0]) ==>
                (Admits(table, bucket, k, arp, room1, room2) <==> arp.Some? && room1 && room2 && |table| + 2 <= capacity)
    {
      assert bucket != [] && k !in table ==> |table[k := bucket[0]]| == |table| + 1;
    }

    /** Packets like h are in use by a connection that leaves with the source address in a. */
    ghost predicate Translated(h: Header, a: Action)
      reads this`flows
    {
      exists e :: e in flows && flows[e] == Tuple(h) && a.srcIp == e.sip && a.srcPort == e.sport
    }

    /**
     A new flow k from the WAN is handled right: if it answers what has left translated, it goes to the LAN,
     and action b turns it into an answer to what the client sent.
     */
    ghost predicate Restores(k: Match, port: int, b: Action)
      reads this`flows
    {
      forall h: Header, a: Action, r: Header ::
        Translated(h, a) && a.flags == LAN_FLAGS && Answers(r, Rewrite(a, h)) && SameTuple(k, r) ==>
          port == LAN_PORT && (b.flags == WAN_FLAGS ==> Answers(Rewrite(b, r), h))
    }

    /**
     The LAN half of newConn_handler; arp is the hardware address of the destination, and room1 and
     room2 say whether the table has room for each key. A connection that is turned away leaves no
     trace if its key is new; the translation stays exact precisely when both keys of an admitted
     connection, or the forward key of one that fails late, are new.
     */
    method NewUpstream(x: Entry, arp: Option<Mac>, room1: bool, room2: bool) returns (port: int, x': Entry)
      requires Valid()
      modifies this, entries
      ensures var k := FlowOf(x.key);
              && port == (if Admits(old(table), old(bucket), k, arp, room1, room2) then WAN_PORT else DROP_PACKETS)
              && (port == DROP_PACKETS ==>
                    && x' == x && bucket == old(bucket) && flows == old(flows)
                    && (k !in old(table) ==> table == old(table)))
              && (port == WAN_PORT ==>
                    var e := old(bucket)[0];
                    && x' == x.(expireTime := CONN_EXPIRE,
                                action := x.action.(srcIp := e.sip, srcPort := e.sport, dstMac := arp.value))
                    && bucket == old(bucket)[1..] && flows == old(flows)[e := k]
                    && table == old(table)[k := e][Reverse(k, e) := e])
              && (Valid() <==> if port == WAN_PORT then Fresh(old(table), k, old(bucket)[0])
                               else arp.None? || old(bucket) == [] || k !in old(table))
      ensures old(bucket) != [] && Fresh(old(table), FlowOf(x.key), old(bucket)[0]) ==>
                (port == WAN_PORT <==> arp.Some? && room1 && room2 && |old(table)| + 2 <= capacity)
      ensures port == WAN_PORT ==> forall h: Header :: SameTuple(x.key, h) ==> Translated(h, x'.action)
      ensures forall h: Header, a: Action :: old(Translated(h, a)) ==> Translated(h, a)
    {
      FreshAdmits(FlowOf(x.key), arp, room1, room2);
      hide Translates, Fresh;
      port, x' := UpstreamFields(x, arp, room1, room2);
      ghost var k := FlowOf(x.key);
      if port == WAN_PORT {
        ghost var e := old(bucket)[0];
        assert e in old(bucket);
        AddTranslates(old(table), flows, k, e);
        PartitionMoves(old(bucket), flows, k);
        flows := flows[e := k];
        assert e in flows && flows[e] == k;
      } else if arp.Some? && old(bucket) != [] && Takes(old(table), k, room1) {
        assert old(bucket)[0] in old(bucket);
        LateFailure(old(table), table, flows, k, old(bucket)[0]);
      }
    }

    static lemma PartitionMoves(free: seq<PoolEntry>, used: map<PoolEntry, Flow>, k: Flow)
      requires free != [] && NoDuplicates(free) && forall e <- free :: e !in used
      ensures NoDuplicates(free[1..]) && free[0] !in free[1..]
      ensures forall e <- free :: e == free[0] || e in free[1..]
      ensures forall e <- free[1..] :: e in free && e !in used[free[0] := k]
    {
      assert free == [free[0]] + free[1..];
    }

    static lemma LateFailure(t: map<Flow, PoolEntry>, t': map<Flow, PoolEntry>, flows: map<PoolEntry, Flow>,
                             k: Flow, e: PoolEntry)
      requires Translates(t, flows) && t' == t[k := e] - {k}
      ensures k !in t ==> t' == t
      ensures k in t ==> !Translates(t', flows)
    {
    }

    /** The WAN half of newConn_handler: only packets with a translation get through. */
    method NewDownstream(x: Entry, arp: Option<Mac>) returns (port: int, x': Entry)
      requires Valid()
      ensures port == if FlowOf(x.key) in table && arp.Some? then LAN_PORT else DROP_PACKETS
      ensures port == LAN_PORT ==>
                var e := table[FlowOf(x.key)];
                && e in flows && x'.expireTime == CONN_EXPIRE && x'.key == x.key && x'.pipe == x.pipe
                && x'.action == x.action.(dstIp := flows[e].sip, dstPort := flows[e].sport, dstMac := arp.value)
      ensures arp.Some? ==> Restores(x.key, port, x'.action)
    {
      hide Rewrite, Restores, Answers;
      x' := x;
      var k := FlowOf(x.key);
      if k !in table {
        Restored(x.key, DROP_PACKETS, x'.action);
        return DROP_PACKETS, x';
      }
      var e := table[k];
      assert e in entries;
      x' := x'.(expireTime := CONN_EXPIRE, action := x'.action.(dstIp := e.dip, dstPort := e.dport));
      if arp.None? {
        return DROP_PACKETS, x';
      }
      x' := x'.(action := x'.action.(dstMac := arp.value));
      Restored(x.key, LAN_PORT, x'.action);
      return LAN_PORT, x';
    }

    /** newConn_handler: connections from the LAN get a translation, all others must have one already. */
    method NewConn(x: Entry, arp: Option<Mac>, room1: bool, room2: bool) returns (port: int, x': Entry)
      requires Valid()
      modifies this, entries
      ensures x.pipe.portId != LAN_PORT ==>
                && Valid() && table == old(table) && bucket == old(bucket) && flows == old(flows)
                && (port == LAN_PORT || port == DROP_PACKETS) && (port == LAN_PORT ==> FlowOf(x.key) in table)
      ensures x.pipe.portId == LAN_PORT ==> port == WAN_PORT || (port == DROP_PACKETS && flows == old(flows))
      ensures port != DROP_PACKETS ==>
                x'.key == x.key && x'.pipe == x.pipe && x'.action.flags == x.action.flags && x'.expireTime == CONN_EXPIRE
      ensures x.pipe.portId == LAN_PORT && port == WAN_PORT ==>
                && old(bucket) != [] && old(bucket)[0] !in old(flows) && flows == old(flows)[old(bucket)[0] := FlowOf(x.key)]
                && FlowOf(x.key) in flows.Values && FlowOf(x.key) in table
                && x'.action.srcIp == wanIp == old(bucket)[0].sip && x'.action.srcPort == old(bucket)[0].sport
                && forall h: Header :: SameTuple(x.key, h) ==> Translated(h, x'.action)
      ensures x.pipe.portId != LAN_PORT && arp.Some? ==> Restores(x.key, port, x'.action)
      ensures forall h: Header, a: Action :: old(Translated(h, a)) ==> Translated(h, a)
      ensures old(Outbound()) && (x.pipe.portId == LAN_PORT ==> FlowOf(x.key) !in old(table) && x.key.dstIp != wanIp) ==>
                Valid() && Outbound()
    {
      hide Translates, Fresh;
      if x.pipe.portId == LAN_PORT {
        ghost var k := FlowOf(x.key);
        if bucket != [] {
          assert bucket[0] in bucket;
          if k !in table && k.dip != wanIp && Outbound() {
            OutboundKeeps(k);
          }
        }
        port, x' := NewUpstream(x, arp, room1, room2);
        if port == WAN_PORT {
          assert flows[old(bucket)[0]] == k;
        }
      } else {
        port, x' := NewDownstream(x, arp);
      }
    }

    /** No connection goes to the WAN address itself. */
    ghost predicate Outbound()
      reads this
    {
      forall e <- flows :: flows[e].dip != wanIp
    }

    /** agingConn_handler. Only a forward key takes its connection out cleanly. */
    method AgingConn(x: Entry)
      requires Valid()
      modifies this`table, this`bucket, this`flows
      ensures var k := FlowOf(x.key);
              && (x.pipe.portId != LAN_PORT || k !in old(table) ==>
                    Valid() && table == old(table) && bucket == old(bucket) && flows == old(flows))
              && (x.pipe.portId == LAN_PORT && k in old(table) ==>
                    var e := old(table)[k];
                    && e in old(flows) && table == old(table) - {k, Reverse(k, e)}
                    && bucket == [e] + old(bucket) && flows == old(flows) - {e}
                    && (Valid() <==> k == old(flows)[e]))
    {
      if x.pipe.portId == LAN_PORT {
        var k := FlowOf(x.key);
        if k !in table {
          return;
        }
        var e := table[k];
        table := table - {k};
        table := table - {Reverse(k, e)};
        assert table == old(table) - {k, Reverse(k, e)};
        Put(e);
        OnlyForwardAges(old(table), flows, k);
        Prepend(e, old(bucket));
        flows := flows - {e};
      }
    }

    // ----- what the translation promises

    /** Ports are conserved, and the table holds two keys for every one in use. */
    lemma Conserved()
      requires Valid()
      ensures |bucket| + |flows| == PORTS && |table| == 2 * (PORTS - |bucket|)
    {
      assert NoDuplicates(entries);
      DistinctCount(entries);
      DistinctCount(bucket);
      TableSize(table, flows);
      assert Elements(entries) == Elements(bucket) + flows.Keys;
    }

    /** Two connections share a translated source port only if they are the same. */
    lemma Injective(d: PoolEntry, e: PoolEntry)
      requires Valid() && d in flows && e in flows
      ensures d.sport == e.sport <==> d == e
      ensures flows[d] == flows[e] <==> d == e
    {
    }

    /** A new connection to an address other than the WAN's own is fresh as soon as its key is. */
    lemma OutboundKeeps(k: Flow)
      requires Valid() && bucket != [] && k !in table && k.dip != wanIp
      requires Outbound()
      ensures Fresh(table, k, bucket[0])
    {
      assert bucket[0] in bucket;
      OutboundFresh(table, flows, k, bucket[0]);
    }

    /**
     Round trip: what answers a packet h of a translated connection is found in the table, and leads to
     the client that sent h.
     */
    lemma RoundTrip(h: Header, a: Action, r: Header, k: Match)
      requires Valid() && Translated(h, a) && a.flags == LAN_FLAGS && Answers(r, Rewrite(a, h)) && SameTuple(k, r)
      ensures FlowOf(k) in table && table[FlowOf(k)] in flows && table[FlowOf(k)].dip == h.srcIp && table[FlowOf(k)].dport == h.srcPort
    {
      var e :| e in flows && flows[e] == Tuple(h) && a.srcIp == e.sip && a.srcPort == e.sport;
      FlowIsTuple(k, r);
      assert FlowOf(k) == Reverse(flows[e], e);
    }

    /** So the handler lets it through to the LAN, and the action turns it into an answer to h. */
    lemma Restored(k: Match, port: int, b: Action)
      requires Valid()
      requires if FlowOf(k) in table then port == LAN_PORT && table[FlowOf(k)] in flows
                                          && b.dstIp == table[FlowOf(k)].dip && b.dstPort == table[FlowOf(k)].dport
               else port != LAN_PORT
      ensures Restores(k, port, b)
    {
      hide Valid;
      forall h: Header, a: Action, r: Header
        | Translated(h, a) && a.flags == LAN_FLAGS && Answers(r, Rewrite(a, h)) && SameTuple(k, r)
        ensures port == LAN_PORT && (b.flags == WAN_FLAGS ==> Answers(Rewrite(b, r), h))
      {
        RoundTrip(h, a, r, k);
      }
    }
  }
}
