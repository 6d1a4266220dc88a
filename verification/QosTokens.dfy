/**
 The token counter and congestion flag of the scheduler over whole runs. An Offload event is one
 entry added to the hardware, a Return event one entry aged out of it.
 */
module QosTokens {

  const HW_WATERMARK_PERCENT: nat := 80

  datatype Tokens = Tokens(free: int, limit: nat, congested: bool)

  datatype Event = Offload | Return

  function Watermark(limit: nat): nat {
    limit * HW_WATERMARK_PERCENT / 100
  }

  function Initial(limit: nat): Tokens {
    Tokens(limit, limit, false)
  }

  function Occupied(t: Tokens): int {
    t.limit - t.free
  }

  /** The counter update, the flag update and the decision to call the congestion handler. */
  function Step(t: Tokens, e: Event): Tokens {
    match e
    case Return => t.(free := if t.free + 1 > t.limit then t.limit else t.free + 1)
    case Offload =>
      var u := t.(free := t.free - 1);
      if t.limit == 0 then u
      else if Occupied(u) < Watermark(t.limit) then u.(congested := false) else u.(congested := true)
  }

  /** The congestion handler is called in this step. */
  predicate Alarm(t: Tokens, e: Event) {
    e.Offload? && t.limit > 0 && !t.congested && Occupied(t) + 1 >= Watermark(t.limit)
  }

  /** An entry is only offloaded while tokens are left, and only returned after it was offloaded. */
  predicate Enabled(t: Tokens, e: Event) {
    match e
    case Offload => t.free > 0
    case Return => t.free < t.limit
  }

  function Run(limit: nat, es: seq<Event>): Tokens {
    if es == [] then Initial(limit) else Step(Run(limit, es[..|es| - 1]), es[|es| - 1])
  }

  /** es[i] is enabled in the state before it, and so on. */
  ghost predicate Legal(limit: nat, es: seq<Event>) {
    forall i {:trigger es[i]} :: 0 <= i < |es| ==> Enabled(Run(limit, es[..i]), es[i])
  }

  /** The handler is called by event i of the run. */
  ghost predicate AlarmAt(limit: nat, es: seq<Event>, i: nat)
    requires i < |es|
  {
    Alarm(Run(limit, es[..i]), es[i])
  }

  /** How many of the events i, ..., j - 1 are returns. */
  function Returns(es: seq<Event>, i: nat, j: nat): nat
    requires i <= j <= |es|
  {
    if i == j then 0 else Returns(es, i, j - 1) + if es[j - 1].Return? then 1 else 0
  }

  lemma RunNext(limit: nat, es: seq<Event>, i: nat)
    requires i < |es|
    ensures Run(limit, es[..i + 1]) == Step(Run(limit, es[..i]), es[i])
  {
    assert es[..i + 1][..i] == es[..i];
  }

  lemma LegalPush(limit: nat, es: seq<Event>, e: Event)
    requires Legal(limit, es) && Enabled(Run(limit, es), e)
    ensures Legal(limit, es + [e]) && Run(limit, es + [e]) == Step(Run(limit, es), e)
  {
    var es' := es + [e];
    assert es'[..|es|] == es;
    forall i | 0 <= i < |es'|
      ensures Enabled(Run(limit, es'[..i]), es'[i])
    {
      if i < |es| {
        assert es'[..i] == es[..i];
        assert Enabled(Run(limit, es[..i]), es[i]);
      }
    }
  }

  /** Tokens stay within bounds, and while the flag is down occupancy is below the watermark. */
  ghost predicate Bounded(t: Tokens) {
    0 <= t.free <= t.limit && (t.limit >= 2 && !t.congested ==> Occupied(t) < Watermark(t.limit))
  }

  lemma {:induction false} RunBounded(limit: nat, es: seq<Event>, i: nat)
    requires Legal(limit, es) && i <= |es|
    ensures Bounded(Run(limit, es[..i])) && Run(limit, es[..i]).limit == limit
  {
    if i == 0 {
      assert es[..0] == [];
    } else {
      RunBounded(limit, es, i - 1);
      RunNext(limit, es, i - 1);
      assert Enabled(Run(limit, es[..i - 1]), es[i - 1]);
    }
  }

  /** Every call of the handler happens with occupancy exactly at the watermark. */
  lemma AlarmAtWatermark(limit: nat, es: seq<Event>, i: nat)
    requires limit >= 2 && Legal(limit, es) && i < |es| && AlarmAt(limit, es, i)
    ensures Occupied(Run(limit, es[..i + 1])) == Watermark(limit) && Run(limit, es[..i + 1]).congested
  {
    RunBounded(limit, es, i);
    RunNext(limit, es, i);
  }

  /**
   A climb: occupancy starts at 0 or at most at the watermark minus two, at point m of the run, and stays
   below the watermark up to point i.
   */
  ghost predicate Climbing(limit: nat, es: seq<Event>, m: nat, i: nat)
    requires m <= i <= |es|
  {
    && (m == 0 || Occupied(Run(limit, es[..m])) <= Watermark(limit) - 2)
    && forall k :: m <= k <= i ==> Occupied(Run(limit, es[..k])) < Watermark(limit)
  }

  /** During a climb the flag is only up as long as occupancy is at most the watermark minus two. */
  lemma {:induction false} DownNearTop(limit: nat, es: seq<Event>, m: nat, i: nat)
    requires limit >= 2 && Legal(limit, es) && m <= i <= |es| && Climbing(limit, es, m, i)
    ensures Run(limit, es[..i]).congested ==> Occupied(Run(limit, es[..i])) <= Watermark(limit) - 2
  {
    if m == i {
      assert es[..0] == [];
    } else {
      hide Run;
      assert Climbing(limit, es, m, i - 1);
      DownNearTop(limit, es, m, i - 1);
      RunNext(limit, es, i - 1);
      RunBounded(limit, es, i - 1);
    }
  }

  /** With the flag down occupancy is below the watermark, and was a token lower before an offload. */
  lemma DownBefore(limit: nat, es: seq<Event>, i: nat)
    requires limit >= 2 && Legal(limit, es) && i <= |es| && !Run(limit, es[..i]).congested
    ensures Occupied(Run(limit, es[..i])) < Watermark(limit)
    ensures i > 0 && es[i - 1].Offload? ==> Occupied(Run(limit, es[..i - 1])) <= Watermark(limit) - 2
    ensures i > 0 && es[i - 1].Return? ==> !Run(limit, es[..i - 1]).congested
  {
    hide Run;
    RunBounded(limit, es, i);
    if i > 0 {
      RunNext(limit, es, i - 1);
      RunBounded(limit, es, i - 1);
    }
  }

  /** While the flag is down, a climb is under way. */
  lemma {:induction false} DownInClimb(limit: nat, es: seq<Event>, i: nat) returns (m: nat)
    requires limit >= 2 && Legal(limit, es) && i <= |es| && !Run(limit, es[..i]).congested
    ensures m <= i && Climbing(limit, es, m, i)
  {
    hide Run, Occupied, Watermark, Legal;
    DownBefore(limit, es, i);
    if i == 0 {
      m := 0;
    } else if es[i - 1].Offload? {
      m := i - 1;
    } else {
      m := DownInClimb(limit, es, i - 1);
    }
  }

  /**
   The handler is called exactly when an offload takes occupancy to the watermark at the end of a climb
   from empty or from at most the watermark minus two. It is never missed, and never called otherwise.
   */
  lemma AlarmExactly(limit: nat, es: seq<Event>, i: nat)
    requires limit >= 2 && Legal(limit, es) && i < |es|
    ensures AlarmAt(limit, es, i) <==>
            && Occupied(Run(limit, es[..i + 1])) == Watermark(limit)
            && exists m :: 0 <= m <= i && Climbing(limit, es, m, i)
  {
    hide Run;
    RunNext(limit, es, i);
    RunBounded(limit, es, i);
    if AlarmAt(limit, es, i) {
      AlarmAtWatermark(limit, es, i);
      var m := DownInClimb(limit, es, i);
    } else if exists m :: 0 <= m <= i && Climbing(limit, es, m, i) {
      var m :| 0 <= m <= i && Climbing(limit, es, m, i);
      DownNearTop(limit, es, m, i);
    }
  }

  /** A climb from point m that first reaches the watermark at point j contains one call, by its last event. */
  lemma OneCallPerClimb(limit: nat, es: seq<Event>, m: nat, j: nat)
    requires limit >= 2 && Legal(limit, es) && m < j <= |es| && Climbing(limit, es, m, j - 1)
    requires Occupied(Run(limit, es[..j])) >= Watermark(limit)
    ensures forall i :: m <= i < j ==> (AlarmAt(limit, es, i) <==> i == j - 1)
  {
    hide Run, AlarmAt;
    RunNext(limit, es, j - 1);
    RunBounded(limit, es, j - 1);
    forall i | m <= i < j
      ensures AlarmAt(limit, es, i) <==> i == j - 1
    {
      AlarmExactly(limit, es, i);
    }
  }

  /** If the flag went down between two points of a run, occupancy had fallen to watermark - 2. */
  lemma {:induction false} FlagCleared(limit: nat, es: seq<Event>, i: nat, j: nat) returns (m: nat)
    requires limit >= 2 && Legal(limit, es) && i <= j <= |es|
    requires Run(limit, es[..i]).congested && !Run(limit, es[..j]).congested
    ensures i <= m <= j && Occupied(Run(limit, es[..m])) <= Watermark(limit) - 2
  {
    hide Run;
    RunNext(limit, es, j - 1);
    RunBounded(limit, es, j - 1);
    if Run(limit, es[..j - 1]).congested {
      m := j - 1;
    } else {
      m := FlagCleared(limit, es, i, j - 1);
    }
  }

  /** Occupancy falls by at most one for each return. */
  lemma {:induction false} OccupancyByReturns(limit: nat, es: seq<Event>, i: nat, j: nat)
    requires Legal(limit, es) && i <= j <= |es|
    ensures Occupied(Run(limit, es[..i])) - Occupied(Run(limit, es[..j])) <= Returns(es, i, j)
  {
    hide Run;
    if i < j {
      OccupancyByReturns(limit, es, i, j - 1);
      RunNext(limit, es, j - 1);
      RunBounded(limit, es, j - 1);
    }
  }

  lemma {:induction false} ReturnsSplit(es: seq<Event>, i: nat, m: nat, j: nat)
    requires i <= m <= j <= |es|
    ensures Returns(es, i, j) == Returns(es, i, m) + Returns(es, m, j)
  {
    if m < j {
      ReturnsSplit(es, i, m, j - 1);
    }
  }

  /**
   Hysteresis: between two calls of the congestion handler, occupancy fell to at most the watermark
   minus two, so at least two hardware entries were returned.
   */
  lemma Hysteresis(limit: nat, es: seq<Event>, i: nat, j: nat) returns (m: nat)
    requires limit >= 2 && Legal(limit, es) && i < j < |es|
    requires AlarmAt(limit, es, i) && AlarmAt(limit, es, j)
    ensures i < m <= j && Occupied(Run(limit, es[..m])) <= Watermark(limit) - 2
    ensures Returns(es, i + 1, j) >= 2
  {
    AlarmAtWatermark(limit, es, i);
    m := FlagCleared(limit, es, i + 1, j);
    OccupancyByReturns(limit, es, i + 1, m);
    ReturnsSplit(es, i + 1, m, j);
  }
}
