/** What the offload scheduler promises: rounds, tokens, hysteresis, waiting times and rate. */
module QosSpec {

  function Max(a: int, b: int): int { if a > b then a else b }

  function Min(a: int, b: int): int { if a < b then a else b }

  // ----- one round

  /** How many entries a queue may hand over: its weight, its length and the tokens bound it. */
  function Share(weight: int, queued: nat, tokens: nat): (k: nat)
    ensures k <= queued && k <= tokens
  {
    Min(Min(Max(weight, 0), queued), tokens)
  }

  /** The offloads of a round over priorities n - 1 down to 0, in order, each with its priority. */
  function Plan<T>(queues: seq<seq<T>>, weights: seq<int>, tokens: nat, n: nat): seq<(nat, T)>
    requires n <= |queues| == |weights|
  {
    if n == 0 then []
    else
      var k := Share(weights[n - 1], |queues[n - 1]|, tokens);
      Tag(n - 1, queues[n - 1][..k]) + Plan(queues, weights, tokens - k, n - 1)
  }

  function Tag<T>(p: nat, xs: seq<T>): (r: seq<(nat, T)>)
    ensures |r| == |xs|
  {
    seq(|xs|, i requires 0 <= i < |xs| => (p, xs[i]))
  }

  /** The entries of priority p in a list of offloads. */
  function Of<T>(plan: seq<(nat, T)>, p: nat): seq<T> {
    if plan == [] then []
    else (if plan[0].0 == p then [plan[0].1] else []) + Of(plan[1..], p)
  }

  /** What the queues ask for when tokens are no constraint. */
  function Demand<T>(queues: seq<seq<T>>, weights: seq<int>, n: nat): nat
    requires n <= |queues| == |weights|
  {
    if n == 0 then 0
    else Min(Max(weights[n - 1], 0), |queues[n - 1]|) + Demand(queues, weights, n - 1)
  }

  function TotalWeight(weights: seq<int>, n: nat): nat
    requires n <= |weights|
  {
    if n == 0 then 0 else Max(weights[n - 1], 0) + TotalWeight(weights, n - 1)
  }

  lemma {:induction false} OfConcat<T>(a: seq<(nat, T)>, b: seq<(nat, T)>, p: nat)
    ensures Of(a + b, p) == Of(a, p) + Of(b, p)
  {
    if a == [] {
      assert a + b == b;
    } else {
      hide Of;
      var ab, rest := a + b, a[1..];
      assert ab[0] == a[0] && ab[1..] == rest + b;
      OfConcat(rest, b, p);
      OfHead(a, p);
      OfHead(ab, p);
    }
  }

  lemma OfHead<T>(plan: seq<(nat, T)>, p: nat)
    requires plan != []
    ensures Of(plan, p) == (if plan[0].0 == p then [plan[0].1] else []) + Of(plan[1..], p)
  {
  }

  lemma {:induction false} OfTag<T>(p: nat, xs: seq<T>, q: nat)
    ensures Of(Tag(p, xs), q) == if p == q then xs else []
  {
    if xs != [] {
      assert Tag(p, xs)[1..] == Tag(p, xs[1..]);
      OfTag(p, xs[1..], q);
    }
  }

  lemma PlanStep<T>(queues: seq<seq<T>>, weights: seq<int>, tokens: nat, n: nat)
    requires 0 < n <= |queues| == |weights|
    ensures var k := Share(weights[n - 1], |queues[n - 1]|, tokens);
            Plan(queues, weights, tokens, n)
            == Tag(n - 1, queues[n - 1][..k]) + Plan(queues, weights, tokens - k, n - 1)
  {
  }

  lemma PlanOfStep<T>(queues: seq<seq<T>>, weights: seq<int>, tokens: nat, n: nat, p: nat)
    requires 0 < n <= |queues| == |weights|
    ensures var k := Share(weights[n - 1], |queues[n - 1]|, tokens);
            Of(Plan(queues, weights, tokens, n), p)
            == (if p == n - 1 then queues[p][..k] else []) + Of(Plan(queues, weights, tokens - k, n - 1), p)
  {
    var k := Share(weights[n - 1], |queues[n - 1]|, tokens);
    PlanStep(queues, weights, tokens, n);
    hide Plan, Of, Tag;
    OfTag(n - 1, queues[n - 1][..k], p);
    OfConcat(Tag(n - 1, queues[n - 1][..k]), Plan(queues, weights, tokens - k, n - 1), p);
  }

  lemma {:induction false} PlanBelow<T>(queues: seq<seq<T>>, weights: seq<int>, tokens: nat, n: nat, p: nat)
    requires n <= |queues| == |weights| && n <= p
    ensures Of(Plan(queues, weights, tokens, n), p) == []
  {
    if n > 0 {
      hide Plan, Of;
      PlanOfStep(queues, weights, tokens, n, p);
      PlanBelow(queues, weights, tokens - Share(weights[n - 1], |queues[n - 1]|, tokens), n - 1, p);
    }
  }

  /** The tokens left when the round reaches priority p. */
  function TokensAt<T>(queues: seq<seq<T>>, weights: seq<int>, tokens: nat, n: nat, p: nat): nat
    requires p < n <= |queues| == |weights|
  {
    if p == n - 1 then tokens
    else TokensAt(queues, weights, tokens - Share(weights[n - 1], |queues[n - 1]|, tokens), n - 1, p)
  }

  /** FIFO: each queue hands over its oldest entries, as many as its share at that point. */
  lemma {:induction false} PlanFifo<T>(queues: seq<seq<T>>, weights: seq<int>, tokens: nat, n: nat, p: nat)
    requires p < n <= |queues| == |weights|
    ensures Of(Plan(queues, weights, tokens, n), p)
         == queues[p][..Share(weights[p], |queues[p]|, TokensAt(queues, weights, tokens, n, p))]
  {
    hide Plan, Of;
    var k := Share(weights[n - 1], |queues[n - 1]|, tokens);
    PlanOfStep(queues, weights, tokens, n, p);
    if p == n - 1 {
      PlanBelow(queues, weights, tokens - k, n - 1, p);
    } else {
      PlanFifo(queues, weights, tokens - k, n - 1, p);
    }
  }

  /** No token is wasted: a round serves the whole demand, or every token. */
  lemma {:induction false} PlanLength<T>(queues: seq<seq<T>>, weights: seq<int>, tokens: nat, n: nat)
    requires n <= |queues| == |weights|
    ensures |Plan(queues, weights, tokens, n)| == Min(Demand(queues, weights, n), tokens)
    ensures Demand(queues, weights, n) <= TotalWeight(weights, n)
  {
    if n > 0 {
      PlanLength(queues, weights, tokens - Share(weights[n - 1], |queues[n - 1]|, tokens), n - 1);
    }
  }

  /** Strict priority: a queue that is cut short by tokens leaves none for lower priorities. */
  lemma {:induction false} PlanPriority<T>(queues: seq<seq<T>>, weights: seq<int>, tokens: nat, n: nat, p: nat, q: nat)
    requires q < p < n <= |queues| == |weights|
    requires |Of(Plan(queues, weights, tokens, n), p)| < Min(Max(weights[p], 0), |queues[p]|)
    ensures Of(Plan(queues, weights, tokens, n), q) == []
  {
    PlanFifo(queues, weights, tokens, n, p);
    PlanFifo(queues, weights, tokens, n, q);
    TokensFall(queues, weights, tokens, n, p, q);
  }

  lemma {:induction false} TokensFall<T>(queues: seq<seq<T>>, weights: seq<int>, tokens: nat, n: nat, p: nat, q: nat)
    requires q < p < n <= |queues| == |weights|
    ensures TokensAt(queues, weights, tokens, n, q)
         <= TokensAt(queues, weights, tokens, n, p)
            - Share(weights[p], |queues[p]|, TokensAt(queues, weights, tokens, n, p))
    ensures TokensAt(queues, weights, tokens, n, p) <= tokens
  {
    var left := tokens - Share(weights[n - 1], |queues[n - 1]|, tokens);
    if p < n - 1 {
      TokensFall(queues, weights, left, n - 1, p, q);
    } else if q < n - 2 {
      TokensFall(queues, weights, left, n - 1, n - 2, q);
    }
  }

  /** With a token for every unit of weight, no queue is cut short. */
  lemma {:induction false} TokensEnough<T>(queues: seq<seq<T>>, weights: seq<int>, tokens: nat, n: nat, p: nat)
    requires p < n <= |queues| == |weights| && TotalWeight(weights, n) <= tokens
    ensures Max(weights[p], 0) <= TokensAt(queues, weights, tokens, n, p)
  {
    if p < n - 1 {
      TokensEnough(queues, weights, tokens - Share(weights[n - 1], |queues[n - 1]|, tokens), n - 1, p);
    }
  }

  /** The plan as the scheduler's loops unfold it: a queue that is done, or one more entry. */
  lemma PlanSkip<T>(queues: seq<seq<T>>, weights: seq<int>, tokens: nat, n: nat)
    requires n < |queues| == |weights|
    requires weights[n] <= 0 || tokens == 0 || queues[n] == []
    ensures Plan(queues, weights, tokens, n + 1) == Plan(queues, weights, tokens, n)
  {
    PlanStep(queues, weights, tokens, n + 1);
    hide Plan;
    assert Tag(n, queues[n][..0]) == [];
  }

  lemma PlanTake<T>(queues: seq<seq<T>>, weights: seq<int>, tokens: nat, n: nat)
    requires n < |queues| == |weights|
    requires weights[n] > 0 && tokens > 0 && queues[n] != []
    ensures Plan(queues, weights, tokens, n + 1)
         == [(n, queues[n][0])]
            + Plan(queues[n := queues[n][1..]], weights[n := weights[n] - 1], tokens - 1, n + 1)
  {
    var queues', weights' := queues[n := queues[n][1..]], weights[n := weights[n] - 1];
    var k := Share(weights[n], |queues[n]|, tokens);
    var first, tail := [(n, queues[n][0])], Tag(n, queues[n][1..][..k - 1]);
    var rest := Plan(queues, weights, tokens - k, n);
    PlanLocal(queues, weights, queues', weights', tokens - k, n);
    PlanStep(queues, weights, tokens, n + 1);
    PlanStep(queues', weights', tokens - 1, n + 1);
    hide Plan, Tag;
    TagFirst(n, queues[n], k);
    Assoc(first, tail, rest);
  }

  lemma TagFirst<T>(p: nat, xs: seq<T>, k: nat)
    requires 0 < k <= |xs|
    ensures Tag(p, xs[..k]) == [(p, xs[0])] + Tag(p, xs[1..][..k - 1])
  {
  }

  lemma Assoc<T>(a: seq<T>, b: seq<T>, c: seq<T>)
    ensures (a + b) + c == a + (b + c)
  {
  }

  /** A plan depends only on the priorities it covers. */
  lemma {:induction false} PlanLocal<T>(queues: seq<seq<T>>, weights: seq<int>,
                                        queues': seq<seq<T>>, weights': seq<int>, tokens: nat, n: nat)
    requires n <= |queues| == |weights| == |queues'| == |weights'|
    requires queues[..n] == queues'[..n] && weights[..n] == weights'[..n]
    ensures Plan(queues, weights, tokens, n) == Plan(queues', weights', tokens, n)
  {
    if n > 0 {
      assert queues[n - 1] == queues[..n][n - 1] == queues'[n - 1];
      assert weights[n - 1] == weights[..n][n - 1] == weights'[n - 1];
      assert queues[..n - 1] == queues[..n][..n - 1] && weights[..n - 1] == weights[..n][..n - 1];
      assert queues'[..n - 1] == queues'[..n][..n - 1] && weights'[..n - 1] == weights'[..n][..n - 1];
      PlanLocal(queues, weights, queues', weights', tokens - Share(weights[n - 1], |queues[n - 1]|, tokens), n - 1);
    }
  }

  // ----- a round under way

  /**
   Of a round that began with queues q0, weights w0 and t0 tokens, done is what has been offloaded;
   what is still to come is the plan for queues q, weights v and t tokens over the priorities below n.
   */
  ghost predicate Underway<T>(q0: seq<seq<T>>, w0: seq<int>, t0: nat,
                              done: seq<(nat, T)>, q: seq<seq<T>>, v: seq<int>, t: nat, n: nat)
  {
    && n <= |q0| == |w0| == |q| == |v| && t0 == t + |done|
    && Plan(q0, w0, t0, |q0|) == done + Plan(q, v, t, n)
    && forall p :: 0 <= p < |q0| ==> q0[p] == Of(done, p) + q[p]
  }

  lemma UnderwayStart<T>(q0: seq<seq<T>>, w0: seq<int>, t0: nat)
    requires |q0| == |w0|
    ensures Underway(q0, w0, t0, [], q0, w0, t0, |q0|)
  {
    hide Plan;
    assert [] + Plan(q0, w0, t0, |q0|) == Plan(q0, w0, t0, |q0|);
    assert forall p :: 0 <= p < |q0| ==> Of([], p) + q0[p] == q0[p];
  }

  /** The queue of priority n has served its weight, is empty, or no token is left. */
  lemma UnderwaySkip<T>(q0: seq<seq<T>>, w0: seq<int>, t0: nat,
                        done: seq<(nat, T)>, q: seq<seq<T>>, v: seq<int>, t: nat, n: nat)
    requires Underway(q0, w0, t0, done, q, v, t, n + 1) && v[..n] == w0[..n]
    requires v[n] <= 0 || t == 0 || q[n] == []
    ensures Underway(q0, w0, t0, done, q, w0, t, n)
  {
    PlanSkip(q, v, t, n);
    PlanLocal(q, v, q, w0, t, n);
    hide Plan, Of;
  }

  /** The head of the queue of priority n has been offloaded. */
  lemma UnderwayTake<T>(q0: seq<seq<T>>, w0: seq<int>, t0: nat,
                        done: seq<(nat, T)>, q: seq<seq<T>>, v: seq<int>, t: nat, n: nat)
    requires Underway(q0, w0, t0, done, q, v, t, n + 1) && v[n] > 0 && t > 0 && q[n] != []
    ensures Underway(q0, w0, t0, done + [(n, q[n][0])], q[n := q[n][1..]], v[n := v[n] - 1], t - 1, n + 1)
    ensures var plan := Plan(q0, w0, t0, |q0|); |done| < |plan| && plan[|done|] == (n, q[n][0])
  {
    PlanTake(q, v, t, n);
    ghost var q', v' := q[n := q[n][1..]], v[n := v[n] - 1];
    hide Plan, Of;
    Shift(done, (n, q[n][0]), Plan(q', v', t - 1, n + 1), Plan(q, v, t, n + 1));
    forall p | 0 <= p < |q0|
      ensures q0[p] == Of(done + [(n, q[n][0])], p) + q'[p]
    {
      HandedOver(q0[p], done, q, n, p);
    }
  }

  /** A round that has come to its end, or stops before its next entry, has done a prefix of the plan. */
  lemma UnderwayEnd<T>(q0: seq<seq<T>>, w0: seq<int>, t0: nat,
                       done: seq<(nat, T)>, q: seq<seq<T>>, v: seq<int>, t: nat, n: nat)
    requires Underway(q0, w0, t0, done, q, v, t, n)
    ensures var plan := Plan(q0, w0, t0, |q0|);
            && |done| <= |plan| && done == plan[..|done|] && (n == 0 ==> done == plan)
            && forall p :: 0 <= p < |q0| ==> q0[p] == Of(done, p) + q[p]
  {
    hide Of;
  }

  lemma Shift<T>(done: seq<T>, x: T, rest: seq<T>, all: seq<T>)
    requires all == [x] + rest
    ensures done + all == (done + [x]) + rest && (done + all)[|done|] == x
  {
  }

  lemma HandedOver<T>(was: seq<T>, done: seq<(nat, T)>, q: seq<seq<T>>, n: nat, p: nat)
    requires n < |q| && p < |q| && q[n] != [] && was == Of(done, p) + q[p]
    ensures was == Of(done + [(n, q[n][0])], p) + q[n := q[n][1..]][p]
  {
    OfPush(done, (n, q[n][0]), p);
    hide Of;
    assert q[n] == [q[n][0]] + q[n][1..];
  }

  lemma OfPush<T>(done: seq<(nat, T)>, x: (nat, T), p: nat)
    ensures Of(done + [x], p) == Of(done, p) + (if x.0 == p then [x.1] else [])
  {
    OfConcat(done, [x], p);
    OfHead([x], p);
    assert Of([x][1..], p) == [];
  }
}
