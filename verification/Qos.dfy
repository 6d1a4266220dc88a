/** The per-core context of the offload scheduler: priority queues, tokens, congestion flag. */
module Qos {
  import opened DivMod
  import Filter
  import opened QosTokens
  import QosWaiting
  import opened Sequences

  class QosContext<T(==)> {
    const weights: seq<int>
    const limit: nat           // maxEntryLimit
    const gap: nat
    const handler: Filter.ConnFilter  // the registered congestion handler acts on this
    var maxEntry: int          // tokens left
    var hwCongested: bool
    var total: seq<nat>
    var finished: seq<nat>
    var lastStmp: nat
    var buckets: seq<seq<T>>
    ghost var aged: seq<nat>   // entries that left each queue by aging
    ghost var history: seq<Event>

    ghost function Tok(): Tokens
      reads this
    {
      Tokens(maxEntry, limit, hwCongested)
    }

    /**
     Every entry ever queued is finished, queued or aged, queues hold no entry twice, and the token
     state is the one that the history of offloads and returns leads to.
     */
    ghost predicate Valid()
      reads this
    {
      && |weights| == |total| == |finished| == |buckets| == |aged|
      && (forall p :: 0 <= p < |buckets| ==>
                        NoDuplicates(buckets[p]) && total[p] == finished[p] + |buckets[p]| + aged[p])
      && Legal(limit, history) && Tok() == Run(limit, history) && 0 <= maxEntry <= limit
      && lastStmp < UINT64_LIMIT && limit * HW_WATERMARK_PERCENT < INT32_LIMIT
    }

    /** flowQoS_qos_init. */
    constructor (weights: seq<int>, maxEntry: nat, gap: nat, tsc: nat, handler: Filter.ConnFilter)
      requires maxEntry * HW_WATERMARK_PERCENT < INT32_LIMIT && tsc < UINT64_LIMIT
      ensures Valid() && this.weights == weights && limit == maxEntry && this.maxEntry == maxEntry
      ensures history == [] && this.handler == handler && this.gap == gap
      ensures forall p :: 0 <= p < |buckets| ==> buckets[p] == [] && total[p] == 0
    {
      this.weights, limit, this.gap, this.handler := weights, maxEntry, gap, handler;
      this.maxEntry, hwCongested, lastStmp := maxEntry, false, tsc;
      total, finished, aged := seq(|weights|, _ => 0), seq(|weights|, _ => 0), seq(|weights|, _ => 0);
      buckets := seq(|weights|, _ => []);
      history := [];
    }

    /** flowQoS_add_entry_event. */
    method AddEntryEvent(x: T, p: nat)
      requires Valid() && p < |buckets| && x !in buckets[p]
      modifies this`buckets, this`total
      ensures Valid() && buckets == old(buckets)[p := old(buckets)[p] + [x]]
      ensures total == old(total)[p := old(total)[p] + 1]
      ensures buckets == QosWaiting.Step(old(buckets), weights, QosWaiting.Arrive(p, x))
    {
      buckets := buckets[p := buckets[p] + [x]];
      total := total[p := total[p] + 1];
    }

    /** flowQoS_del_entry_event, for an entry that ages while it is queued. */
    method DelEntryEvent(x: T, p: nat)
      requires Valid() && p < |buckets| && x in buckets[p]
      modifies this`buckets, this`aged
      ensures Valid() && buckets == old(buckets)[p := Remove(old(buckets)[p], x)]
      ensures buckets == QosWaiting.Step(old(buckets), weights, QosWaiting.Leave(p, x))
      ensures x !in buckets[p] && (forall y <- buckets[p] :: y in old(buckets)[p])
      ensures forall y <- old(buckets)[p] :: y != x ==> y in buckets[p]
    {
      RemoveOne(buckets[p], x);
      buckets := buckets[p := Remove(buckets[p], x)];
      aged := aged[p := aged[p] + 1];
    }

    /** flowQoS_return_entry_event. The clamp acts only when no entry is out. */
    method ReturnEntryEvent()
      requires Valid()
      modifies this`maxEntry, this`history
      ensures Valid() && maxEntry == (if old(maxEntry) < limit then old(maxEntry) + 1 else limit)
      ensures history == old(history) + if old(maxEntry) < limit then [Return] else []
    {
      hide Run, Legal;
      if maxEntry < limit {
        LegalPush(limit, history, Return);
        history := history + [Return];
      }
      maxEntry := maxEntry + 1;
      if maxEntry > limit {
        maxEntry := limit;
      }
    }

    /**
     What flowQoS_do_entry_event does once the hardware has taken the head of queue p: token,
     counter, congestion flag and callback, and removal of the entry. The flag is up afterwards exactly
     if occupancy has reached 80 percent of the limit; if that raises it, the handler doubles the
     filter's time threshold, up to its maximum.
     */
    method Finish(p: nat) returns (alarm: bool)
      requires Valid() && p < |buckets| && buckets[p] != [] && maxEntry > 0
      requires handler.Valid()
      modifies this`maxEntry, this`finished, this`hwCongested, this`buckets, this`history, handler`offloadTime
      ensures Valid() && handler.Valid() && maxEntry == old(maxEntry) - 1
      ensures buckets == old(buckets)[p := old(buckets)[p][1..]]
      ensures finished == old(finished)[p := old(finished)[p] + 1]
      ensures history == old(history) + [Offload] && alarm == Alarm(old(Tok()), Offload)
      ensures history[..|old(history)|] == old(history) && alarm == AlarmAt(limit, history, |old(history)|)
      ensures var full := limit - maxEntry >= limit * 80 / 100;
              && alarm == (full && !old(hwCongested)) && hwCongested == full
              && handler.offloadTime == if alarm && handler.enableFlowQoS
                                        then (if 2 * old(handler.offloadTime) < handler.offloadTimeMax
                                              then 2 * old(handler.offloadTime) else handler.offloadTimeMax)
                                        else old(handler.offloadTime)
      ensures handler.Thr() == if alarm && handler.enableFlowQoS then Filter.Step(old(handler.Thr()), Filter.Congestion)
                               else old(handler.Thr())
    {
      hide Run, Legal;
      LegalPush(limit, history, Offload);
      history := history + [Offload];
      maxEntry := maxEntry - 1;
      finished := finished[p := finished[p] + 1];
      var occupied := limit - maxEntry;
      var watermark := limit * HW_WATERMARK_PERCENT / 100;
      if limit > 0 && occupied < watermark {
        hwCongested := false;
      }
      alarm := limit > 0 && occupied >= watermark && !hwCongested;
      if alarm {
        hwCongested := true;
        handler.CongestionCb();
      }
      buckets := buckets[p := buckets[p][1..]];
    }
  }
}
