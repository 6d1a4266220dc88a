/** How long an entry waits in the scheduler's queues, and how fast the scheduler offloads. */
module QosWaiting {
  import opened DivMod
  import opened QosSpec
  import opened Sequences

  // ----- waiting: no starvation

  /** An arrival at a queue, an entry aged out while queued, or a completed round. */
  datatype Event<T> = Arrive(p: nat, x: T) | Leave(p: nat, x: T) | Round(tokens: nat)

  function Step<T(==)>(queues: seq<seq<T>>, weights: seq<int>, e: Event<T>): (r: seq<seq<T>>)
    requires |queues| == |weights|
    ensures |r| == |queues|
  {
    match e
    case Arrive(p, x) => if p < |queues| then queues[p := queues[p] + [x]] else queues
    case Leave(p, x) => if p < |queues| then queues[p := Remove(queues[p], x)] else queues
    case Round(tokens) =>
      seq(|queues|, p requires 0 <= p < |queues| =>
        queues[p][Share(weights[p], |queues[p]|, TokensAt(queues, weights, tokens, |queues|, p))..])
  }

  function Run<T(==)>(queues: seq<seq<T>>, weights: seq<int>, es: seq<Event<T>>): (r: seq<seq<T>>)
    requires |queues| == |weights|
    ensures |r| == |queues|
    decreases |es|
  {
    if es == [] then queues else Run(Step(queues, weights, es[0]), weights, es[1..])
  }

  function Rounds<T>(es: seq<Event<T>>): nat {
    if es == [] then 0 else (if es[0].Round? then 1 else 0) + Rounds(es[1..])
  }

  /** A round takes from queue p exactly the entries that its plan lists for p. */
  lemma RoundServesPlan<T>(queues: seq<seq<T>>, weights: seq<int>, tokens: nat, p: nat)
    requires p < |queues| == |weights|
    ensures queues[p] == Of(Plan(queues, weights, tokens, |queues|), p)
                         + Step(queues, weights, Round(tokens))[p]
  {
    hide Plan, Of, TokensAt, Share;
    PlanFifo(queues, weights, tokens, |queues|, p);
    TakeDrop(queues[p], Share(weights[p], |queues[p]|, TokensAt(queues, weights, tokens, |queues|, p)));
  }

  /** What is left once the whole plan has been handed over is what a round leaves. */
  lemma RoundLeaves<T>(queues: seq<seq<T>>, weights: seq<int>, tokens: nat, rest: seq<seq<T>>)
    requires |queues| == |weights| == |rest|
    requires forall p :: 0 <= p < |queues| ==> queues[p] == Of(Plan(queues, weights, tokens, |queues|), p) + rest[p]
    ensures rest == Step(queues, weights, Round(tokens))
  {
    hide Plan, Of, Step;
    var after := Step(queues, weights, Round(tokens));
    forall p | 0 <= p < |queues|
      ensures rest[p] == after[p]
    {
      RoundServesPlan(queues, weights, tokens, p);
      SameRest(Of(Plan(queues, weights, tokens, |queues|), p), rest[p], after[p]);
    }
  }

  lemma SameRest<T>(a: seq<T>, b: seq<T>, c: seq<T>)
    requires a + b == a + c
    ensures b == c
  {
    assert b == (a + b)[|a|..] && c == (a + c)[|a|..];
  }

  lemma TakeDrop<T>(s: seq<T>, k: nat)
    requires k <= |s|
    ensures s == s[..k] + s[k..]
  {
  }

  /** x occurs in s at position k and nowhere else. */
  ghost predicate At<T>(s: seq<T>, x: T, k: nat) {
    k < |s| && s[k] == x && forall i :: 0 <= i < |s| && s[i] == x ==> i == k
  }

  lemma {:induction false} RemoveKeeps<T>(s: seq<T>, y: T, x: T, k: nat) returns (k': nat)
    requires At(s, x, k) && x != y
    ensures k' <= k && At(Remove(s, y), x, k')
  {
    if s[0] == y {
      k' := k - 1;
    } else if s[0] == x {
      assert k == 0;
      RemoveAbsent(s[1..], y, x);
      k' := 0;
    } else {
      assert forall i :: 0 <= i < |s[1..]| ==> s[1..][i] == s[i + 1];
      k' := RemoveKeeps(s[1..], y, x, k - 1);
      k' := k' + 1;
    }
  }

  lemma {:induction false} RemoveAbsent<T>(s: seq<T>, y: T, x: T)
    requires x !in s
    ensures x !in Remove(s, y)
  {
    if s != [] && s[0] != y {
      RemoveAbsent(s[1..], y, x);
    }
  }

  /** x does not arrive (again) at queue p during the run. */
  ghost predicate NoArrival<T>(es: seq<Event<T>>, p: nat, x: T) {
    forall e <- es :: e.Arrive? && e.p == p ==> e.x != x
  }

  ghost predicate EnoughTokens<T>(es: seq<Event<T>>, weights: seq<int>) {
    forall e <- es :: e.Round? ==> TotalWeight(weights, |weights|) <= e.tokens
  }

  lemma {:induction false} StaysAway<T>(queues: seq<seq<T>>, weights: seq<int>, es: seq<Event<T>>, p: nat, x: T)
    requires p < |queues| == |weights| && x !in queues[p] && NoArrival(es, p, x)
    ensures x !in Run(queues, weights, es)[p]
    decreases |es|
  {
    if es != [] {
      assert es[0] in es && forall e <- es[1..] :: e in es;
      if es[0].Leave? && es[0].p == p {
        RemoveAbsent(queues[p], es[0].x, x);
      }
      StaysAway(Step(queues, weights, es[0]), weights, es[1..], p, x);
    }
  }

  /** One event: an entry that is still queued has not moved back, and a round moved it w forward. */
  lemma StepAt<T>(queues: seq<seq<T>>, weights: seq<int>, e: Event<T>, p: nat, x: T, k: nat) returns (k': nat)
    requires p < |queues| == |weights| && At(queues[p], x, k)
    requires e.Arrive? && e.p == p ==> e.x != x
    requires e.Round? ==> TotalWeight(weights, |weights|) <= e.tokens
    ensures var queue' := Step(queues, weights, e)[p];
            x in queue' ==> At(queue', x, k') && k' + (if e.Round? then Max(weights[p], 0) else 0) <= k
  {
    k' := k;
    match e {
      case Arrive(q, y) =>
      case Leave(q, y) =>
        if q == p && y == x {
          RemovedOnce(queues[p], x, k);
        } else if q == p {
          k' := RemoveKeeps(queues[p], y, x, k);
        }
      case Round(tokens) =>
        TokensEnough(queues, weights, tokens, |queues|, p);
        if k >= Max(weights[p], 0) {
          k' := k - Max(weights[p], 0);
        }
    }
  }

  lemma RoundsTimes<T>(es: seq<Event<T>>, w: nat)
    requires es != []
    ensures Rounds(es) * w == Rounds(es[1..]) * w + if es[0].Round? then w else 0
  {
    assert Rounds(es) == Rounds(es[1..]) + if es[0].Round? then 1 else 0;
    hide Rounds;
    Distribute(Rounds(es[1..]), if es[0].Round? then 1 else 0, w);
  }

  lemma Distribute(x: nat, y: nat, w: nat)
    ensures (x + y) * w == x * w + y * w
  {
  }

  /** Each completed round moves an entry forward by the weight of its queue, or serves it. */
  lemma {:induction false} Progress<T>(queues: seq<seq<T>>, weights: seq<int>, es: seq<Event<T>>, p: nat, x: T, k: nat)
    requires p < |queues| == |weights| && weights[p] >= 1 && At(queues[p], x, k)
    requires NoArrival(es, p, x) && EnoughTokens(es, weights)
    ensures x in Run(queues, weights, es)[p] ==> Rounds(es) * weights[p] <= k
    decreases |es|
  {
    if es != [] {
      hide Step, At, Rounds;
      assert es[0] in es && forall e <- es[1..] :: e in es;
      var queues' := Step(queues, weights, es[0]);
      var k' := StepAt(queues, weights, es[0], p, x, k);
      if x in queues'[p] {
        Progress(queues', weights, es[1..], p, x, k');
        RoundsTimes(es, weights[p]);
      } else {
        StaysAway(queues', weights, es[1..], p, x);
      }
    }
  }

  lemma {:induction false} RemovedOnce<T>(s: seq<T>, x: T, k: nat)
    requires At(s, x, k)
    ensures x !in Remove(s, x)
  {
    if s[0] != x {
      assert forall i :: 0 <= i < |s[1..]| ==> s[1..][i] == s[i + 1];
      RemovedOnce(s[1..], x, k - 1);
    }
  }

  /**
   No starvation: with a token for every unit of weight in every round, the entry at position k of
   a queue of weight w has left after ceil((k + 1) / w) completed rounds, whatever else happens.
   */
  lemma NoStarvation<T>(queues: seq<seq<T>>, weights: seq<int>, es: seq<Event<T>>, p: nat, x: T, k: nat)
    requires p < |queues| == |weights| && weights[p] >= 1 && At(queues[p], x, k)
    requires NoArrival(es, p, x) && EnoughTokens(es, weights)
    requires Rounds(es) >= (k + weights[p]) / weights[p]
    ensures x !in Run(queues, weights, es)[p]
  {
    Progress(queues, weights, es, p, x, k);
    CeilReached(k, weights[p], Rounds(es));
  }

  lemma CeilReached(k: nat, w: nat, r: nat)
    requires w > 0 && r >= (k + w) / w
    ensures r * w > k
  {
    Split(k, w);
    QuotientUnique(k + w, k / w + 1, k % w, w);
    MulMono(k / w + 1, r, w);
  }

  // ----- rate

  /** What happens around the scheduler: queue events, and polls at a time stamp with the tokens left. */
  datatype Timed<T> = Between(e: Event<T>) | Poll(cur: Stamp64, tokens: nat)

  /**
   How many entries are offloaded in [from, from + length], when a poll runs a round exactly if more
   than gap cycles have passed since the last one, in 64-bit arithmetic.
   */
  function Offloads<T(==)>(queues: seq<seq<T>>, weights: seq<int>, ts: seq<Timed<T>>, last: Stamp64, gap: nat,
                           from: nat, length: nat): nat
    requires |queues| == |weights|
    decreases |ts|
  {
    if ts == [] then 0
    else match ts[0]
      case Between(e) => Offloads(Step(queues, weights, e), weights, ts[1..], last, gap, from, length)
      case Poll(cur, tokens) =>
        if Sub64(cur, last) > gap then
          (if from <= cur <= from + length then |Plan(queues, weights, tokens, |queues|)| else 0)
          + Offloads(Step(queues, weights, Round(tokens)), weights, ts[1..], cur, gap, from, length)
        else Offloads(queues, weights, ts[1..], last, gap, from, length)
  }

  /** The clock does not run backwards, and rounds are run by polls only. */
  ghost predicate Onward<T>(ts: seq<Timed<T>>, now: nat)
    decreases |ts|
  {
    ts == [] || match ts[0]
      case Between(e) => !e.Round? && Onward(ts[1..], now)
      case Poll(cur, _) => now <= cur && Onward(ts[1..], cur)
  }

  /** The most rounds that fit between the first possible round after last and the window's end. */
  function RoomFor(last: nat, gap: nat, from: nat, length: nat): nat {
    var first := Max(from, last + gap + 1);
    if first > from + length then 0 else (from + length - first) / (gap + 1) + 1
  }

  lemma {:induction false} RateFrom<T>(queues: seq<seq<T>>, weights: seq<int>, ts: seq<Timed<T>>, last: Stamp64, gap: nat,
                                       from: nat, length: nat, now: nat)
    requires |queues| == |weights| && Onward(ts, now) && last <= now
    ensures Offloads(queues, weights, ts, last, gap, from, length)
         <= TotalWeight(weights, |weights|) * RoomFor(last, gap, from, length)
    decreases |ts|
  {
    if ts != [] {
      hide RoomFor, Step, Plan, TotalWeight;
      match ts[0] {
        case Between(e) => RateFrom(Step(queues, weights, e), weights, ts[1..], last, gap, from, length, now);
        case Poll(cur, tokens) =>
          if Sub64(cur, last) > gap {
            RateFrom(Step(queues, weights, Round(tokens)), weights, ts[1..], cur, gap, from, length, cur);
            RoundBound(queues, weights, tokens);
            RoomAfter(last, cur, gap, from, length);
            Room(TotalWeight(weights, |weights|), RoomFor(cur, gap, from, length), RoomFor(last, gap, from, length),
                 from <= cur <= from + length);
          } else {
            RateFrom(queues, weights, ts[1..], last, gap, from, length, cur);
          }
      }
    }
  }

  lemma Room(most: nat, room': nat, room: nat, inside: bool)
    requires room' + (if inside then 1 else 0) <= room
    ensures most * room' + (if inside then most else 0) <= most * room
  {
    Scale(most, room' + (if inside then 1 else 0), room);
    assert most * (room' + 1) == most * room' + most;
  }

  lemma Scale(c: nat, x: nat, y: nat)
    requires x <= y
    ensures c * x <= c * y
  {
  }

  lemma RoomAfter(last: nat, cur: nat, gap: nat, from: nat, length: nat)
    requires cur > last + gap
    ensures RoomFor(cur, gap, from, length) + (if from <= cur <= from + length then 1 else 0)
         <= RoomFor(last, gap, from, length)
  {
    var g := gap + 1;
    var first, first' := Max(from, last + g), Max(from, cur + g);
    if from <= cur <= from + length && first' <= from + length {
      Spread(from + length - first', from + length - first, g);
    } else if first' <= from + length {
      Spread'(from + length - first', from + length - first, g);
    }
  }

  lemma Spread(x: nat, y: nat, g: nat)
    requires g > 0 && x + g <= y
    ensures x / g + 1 <= y / g
  {
    Split(x, g);
    QuotientUnique(x + g, x / g + 1, x % g, g);
    Spread'(x + g, y, g);
  }

  lemma Spread'(x: nat, y: nat, g: nat)
    requires g > 0 && x <= y
    ensures x / g <= y / g
  {
    Split(x, g);
    Split(y, g);
    if x / g > y / g {
      MulMono(y / g + 1, x / g, g);
    }
  }

  /**
   Rate bound: whatever arrives, ages and is polled, any window of length cycles sees at most the sum
   of the weights times length / (gap + 1) + 1 offloads.
   */
  lemma RateBound<T>(queues: seq<seq<T>>, weights: seq<int>, ts: seq<Timed<T>>, last: Stamp64, gap: nat,
                     from: nat, length: nat)
    requires |queues| == |weights| && Onward(ts, last)
    ensures Offloads(queues, weights, ts, last, gap, from, length)
         <= TotalWeight(weights, |weights|) * (length / (gap + 1) + 1)
  {
    hide RoomFor, Offloads, TotalWeight;
    RateFrom(queues, weights, ts, last, gap, from, length, last);
    RoomBound(last, gap, from, length);
    Scale(TotalWeight(weights, |weights|), RoomFor(last, gap, from, length), length / (gap + 1) + 1);
  }

  lemma RoomBound(last: nat, gap: nat, from: nat, length: nat)
    ensures RoomFor(last, gap, from, length) <= length / (gap + 1) + 1
  {
    var first := Max(from, last + gap + 1);
    if first <= from + length {
      Spread'(from + length - first, length, gap + 1);
    }
  }

  /** A round offloads at most the sum of the weights. */
  lemma RoundBound<T>(queues: seq<seq<T>>, weights: seq<int>, tokens: nat)
    requires |queues| == |weights|
    ensures |Plan(queues, weights, tokens, |queues|)| <= TotalWeight(weights, |weights|)
  {
    PlanLength(queues, weights, tokens, |queues|);
  }
}
