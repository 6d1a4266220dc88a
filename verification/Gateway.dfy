/** Source address translation behind a tracker: who the entries in use belong to, over every run. */
module Gateway {
  import opened Rules
  import opened ConntrackSpec
  import opened Snat

  predicate FromLan(e: Entry) {
    e.pipe.portId == LAN_PORT
  }

  /** The connection's packets leave with the address of entry e. */
  predicate LeavesFrom(x: Entry, e: PoolEntry) {
    x.action.srcIp == e.sip && x.action.srcPort == e.sport
  }

  /**
   The entries in use and the live LAN connections correspond one to one: owner says which connection
   an entry serves, holder which entry a connection holds.
   */
  ghost predicate Accord(flows: map<PoolEntry, Flow>, owner: map<PoolEntry, nat>, holder: map<nat, PoolEntry>,
                         live: set<nat>, admitted: seq<Entry>)
  {
    && owner.Keys == flows.Keys
    && (forall e <- owner :: && owner[e] in holder && holder[owner[e]] == e && owner[e] in live && owner[e] < |admitted|
                             && FromLan(admitted[owner[e]]) && FlowOf(admitted[owner[e]].key) == flows[e]
                             && LeavesFrom(admitted[owner[e]], e))
    && (forall n <- holder :: holder[n] in owner && owner[holder[n]] == n)
    && (forall n <- live :: n < |admitted| && FromLan(admitted[n]) ==> n in holder)
  }

  lemma LanGains(flows: map<PoolEntry, Flow>, owner: map<PoolEntry, nat>, holder: map<nat, PoolEntry>,
                 live: set<nat>, admitted: seq<Entry>, e: PoolEntry, x: Entry)
    requires Accord(flows, owner, holder, live, admitted) && e !in flows && |admitted| !in live && FromLan(x) && LeavesFrom(x, e)
    ensures Accord(flows[e := FlowOf(x.key)], owner[e := |admitted|], holder[|admitted| := e],
                   live + {|admitted|}, admitted + [x])
  {
  }

  lemma OtherGains(flows: map<PoolEntry, Flow>, owner: map<PoolEntry, nat>, holder: map<nat, PoolEntry>,
                   live: set<nat>, admitted: seq<Entry>, x: Entry)
    requires Accord(flows, owner, holder, live, admitted) && |admitted| !in live && !FromLan(x)
    ensures Accord(flows, owner, holder, live + {|admitted|}, admitted + [x])
  {
  }

  lemma LanLoses(flows: map<PoolEntry, Flow>, owner: map<PoolEntry, nat>, holder: map<nat, PoolEntry>,
                 live: set<nat>, admitted: seq<Entry>, n: nat)
    requires Accord(flows, owner, holder, live, admitted) && n in holder
    ensures var e := holder[n]; Accord(flows - {e}, owner - {e}, holder - {n}, live - {n}, admitted)
  {
  }

  lemma OtherLoses(flows: map<PoolEntry, Flow>, owner: map<PoolEntry, nat>, holder: map<nat, PoolEntry>,
                   live: set<nat>, admitted: seq<Entry>, n: nat)
    requires Accord(flows, owner, holder, live, admitted) && n !in holder
    ensures Accord(flows, owner, holder, live - {n}, admitted)
  {
  }

  /**
   The translation behind a tracker. The handlers are called with what the tracker tells them, LAN
   connections are new flows to other addresses than the WAN's, and admission succeeds once the
   handler has allocated.
   */
  class Site<C(==)> {
    const snat: Nat
    ghost const tracker: Tracker<C>
    ghost var owner: map<PoolEntry, nat>
    ghost var holder: map<nat, PoolEntry>

    ghost predicate Agreed()
      reads this`owner, this`holder, tracker`w, snat`flows
    {
      Accord(snat.flows, owner, holder, tracker.w.live.Keys, tracker.w.admitted)
    }

    ghost predicate Valid()
      reads this, tracker, snat, snat.entries
    {
      snat.Valid() && snat.Outbound() && tracker.Valid() && Agreed()
    }

    constructor (snat: Nat, ghost tracker: Tracker<C>)
      requires snat.Valid() && snat.flows == map[] && tracker.Valid() && Initial(tracker.w)
      ensures Valid() && this.snat == snat && this.tracker == tracker
    {
      hide Tracker.Valid, Nat.Valid;
      this.snat, this.tracker, owner, holder := snat, tracker, map[], map[];
    }

    /** An event that concerns no handler. */
    ghost method Happens(ev: Event<C>)
      requires Valid() && Enabled(tracker.w, ev) && !ev.Admission? && !ev.SoftwareAging? && !ev.HardwareAging?
      modifies tracker`w, tracker`history
      ensures Valid() && tracker.w == Next(old(tracker.w), ev)
    {
      hide Tracker.Valid, Enabled, Next, Nat.Valid, Accord;
      LiveStays(tracker.w, ev);
      tracker.Record(ev);
    }

    /** A new connection: the handler finds or makes a translation, and the tracker admits it. */
    method NewConn(ghost c: C, x: Entry, arp: Option<Mac>, room1: bool, room2: bool) returns (port: int, x': Entry)
      requires Valid() && CanAdmit(tracker.w, c, x.(expireTime := CONN_EXPIRE))
      requires FromLan(x) ==> FlowOf(x.key) !in snat.table && x.key.dstIp != snat.wanIp
      modifies this`owner, this`holder, tracker`w, tracker`history, snat, snat.entries
      ensures Valid()
      ensures var w0 := old(tracker.w);
              if port >= 0 then CanAdmit(w0, c, x') && tracker.w == Admit(w0, c, x') && x'.key == x.key else tracker.w == w0
      ensures !FromLan(x) && arp.Some? ==> snat.Restores(x.key, port, x'.action)
    {
      hide Tracker.Valid, Nat.Valid, Nat.Outbound, Admit, Accord;
      port, x' := snat.NewConn(x, arp, room1, room2);
      if port >= 0 {
        Gains(c, x', old(snat.flows), if FromLan(x) then old(snat.bucket)[0] else null);
      }
    }

    /** The packets of every live LAN connection leave translated, by the action it was admitted with. */
    lemma LiveTranslated(n: nat, h: Header)
      requires Valid() && n in tracker.w.live && n < |tracker.w.admitted| && FromLan(tracker.w.admitted[n])
      requires SameTuple(tracker.w.admitted[n].key, h)
      ensures snat.Translated(h, tracker.w.admitted[n].action)
    {
      hide Tracker.Valid, Nat.Valid;
      FlowIsTuple(tracker.w.admitted[n].key, h);
      var e := holder[n];
      assert e in snat.flows && LeavesFrom(tracker.w.admitted[n], e);
    }

    /**
     After every run, a flow k from the WAN that answers what a live LAN connection n sends out as packet h
     is let through to the LAN, and turned into an answer to h.
     */
    lemma AnswersReach(n: nat, h: Header, r: Header, k: Match, port: int, b: Action)
      requires Valid() && snat.Restores(k, port, b)
      requires n in tracker.w.live && n < |tracker.w.admitted| && FromLan(tracker.w.admitted[n])
      requires var e := tracker.w.admitted[n];
               e.action.flags == LAN_FLAGS && SameTuple(e.key, h) && Answers(r, Rewrite(e.action, h)) && SameTuple(k, r)
      ensures port == LAN_PORT && (b.flags == WAN_FLAGS ==> Answers(Rewrite(b, r), h))
    {
      hide Valid, Rewrite, Answers;
      LiveTranslated(n, h);
    }

    /** The tracker's side of an admission: a connection arrives, and takes entry e if it is from the LAN. */
    ghost method Gains(c: C, x: Entry, flows: map<PoolEntry, Flow>, e: PoolEntry?)
      requires snat.Valid() && snat.Outbound() && tracker.Valid() && CanAdmit(tracker.w, c, x)
      requires Accord(flows, owner, holder, tracker.w.live.Keys, tracker.w.admitted)
      requires (FromLan(x) <==> e != null) && (e != null ==> LeavesFrom(x, e))
      requires if e != null then e !in flows && snat.flows == flows[e := FlowOf(x.key)] else snat.flows == flows
      modifies this`owner, this`holder, tracker`w, tracker`history
      ensures Valid() && tracker.w == Admit(old(tracker.w), c, x)
    {
      hide Tracker.Valid, Accord, Nat.Valid, Nat.Outbound, Admit, CanAdmit;
      var live, admitted := tracker.w.live.Keys, tracker.w.admitted;
      tracker.Admits(c, x);
      if e != null {
        LanGains(flows, owner, holder, live, admitted, e, x);
        owner, holder := owner[e := |admitted|], holder[|admitted| := e];
      } else {
        OtherGains(flows, owner, holder, live, admitted, x);
      }
    }

    /** agingConn_handler for connection n: a forward key, if it came from the LAN. */
    method GiveBack(x: Entry, ghost n: nat)
      requires Valid() && n in tracker.w.live && n < |tracker.w.admitted| && SameConn(x, tracker.w.admitted[n])
      modifies snat`table, snat`bucket, snat`flows
      ensures snat.Valid() && snat.Outbound() && (FromLan(x) <==> n in holder)
      ensures snat.flows == if FromLan(x) then old(snat.flows) - {holder[n]} else old(snat.flows)
    {
      hide Tracker.Valid, Accord, Nat.Valid;
      Served(x, n);
      snat.AgingConn(x);
    }

    /** A connection ages: for one from the LAN the handler is told a forward key, and gives its port back. */
    method Ages(ghost ev: Event<C>, x: Entry)
      requires Valid() && (ev.SoftwareAging? || ev.HardwareAging?) && Enabled(tracker.w, ev) && x == tracker.w.ctxs[ev.c].entry
      modifies this`owner, this`holder, tracker`w, tracker`history, snat`table, snat`bucket, snat`flows
      ensures Valid() && tracker.w == Next(old(tracker.w), ev)
    {
      hide Tracker.Valid, Next, Inv, Accord, Nat.Valid, Nat.Outbound;
      tracker.InvOf();
      ghost var before := tracker.w;
      ghost var n := before.ctxs[ev.c].serial;
      AgedWasLive(before, ev.c, ev);
      GiveBack(x, n);
      Loses(ev, n, old(snat.flows));
    }

    /** The tracker's side of an aging: connection n leaves, and with it the entry it held, if any. */
    ghost method Loses(ev: Event<C>, n: nat, flows: map<PoolEntry, Flow>)
      requires snat.Valid() && snat.Outbound() && tracker.Valid() && Enabled(tracker.w, ev)
      requires Next(tracker.w, ev).live == tracker.w.live - {n} && Next(tracker.w, ev).admitted == tracker.w.admitted
      requires Accord(flows, owner, holder, tracker.w.live.Keys, tracker.w.admitted)
      requires snat.flows == if n in holder then flows - {holder[n]} else flows
      modifies this`owner, this`holder, tracker`w, tracker`history
      ensures Valid() && tracker.w == Next(old(tracker.w), ev)
    {
      hide Tracker.Valid, Next, Enabled, Accord, Nat.Valid, Nat.Outbound;
      var live, admitted := tracker.w.live.Keys, tracker.w.admitted;
      tracker.Record(ev);
      assert tracker.w.live.Keys == live - {n};
      if n in holder {
        LanLoses(flows, owner, holder, live, admitted, n);
        owner, holder := owner - {holder[n]}, holder - {n};
      } else {
        OtherLoses(flows, owner, holder, live, admitted, n);
      }
    }

    /** What the tracker says of a live connection is what the table has of it. */
    lemma Served(x: Entry, n: nat)
      requires Valid() && n in tracker.w.live && n < |tracker.w.admitted| && SameConn(x, tracker.w.admitted[n])
      ensures FromLan(x) <==> n in holder
      ensures FromLan(x) ==>
                var k, e := FlowOf(x.key), holder[n];
                k in snat.table && snat.table[k] == e && e in snat.flows && snat.flows[e] == k
    {
      hide Tracker.Valid;
    }

    /** After every run the translated flows are exactly the keys of the live LAN connections. */
    lemma FlowsAreLive()
      requires Valid()
      ensures Initial(tracker.start) && Reaches(tracker.start, tracker.history, tracker.w)
      ensures var w := tracker.w;
              snat.flows.Values
              == set n | n in w.live.Keys && 0 <= n < |w.admitted| && FromLan(w.admitted[n]) :: FlowOf(w.admitted[n].key)
    {
      tracker.InvOf();
      var w, flows := tracker.w, snat.flows;
      hide Reaches, Initial, Inv, Nat.Valid;
      forall n | n in w.live.Keys && 0 <= n < |w.admitted| && FromLan(w.admitted[n])
        ensures FlowOf(w.admitted[n].key) in flows.Values
      {
        assert flows[holder[n]] == FlowOf(w.admitted[n].key);
      }
      forall k <- flows.Values
        ensures exists n :: n in w.live.Keys && 0 <= n < |w.admitted| && FromLan(w.admitted[n]) && FlowOf(w.admitted[n].key) == k
      {
        var e :| e in flows && flows[e] == k;
        var n := owner[e];
      }
    }
  }
}
