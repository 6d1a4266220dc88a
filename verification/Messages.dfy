/**
 The task protocol between the master core and the workers, as interleaved atomic steps on rings and
 a shared pool of message buffers. A call sends every worker a task, then waits for every reply.
 */
module Messages {
  import opened Sequences

  const RING_CAPACITY := 7  // a ring created with 8 slots holds one less
  const POLLS := 300

  type Buf = nat

  datatype Content<T> = Task(t: T) | Ret(value: int)

  /** Where a worker is in flowQoS_message_multiThread_do_slave. */
  datatype WPhase<T> =
    | Idle
    | TookTask(b: Buf)    // dequeued, about to copy and free
    | Calling(t: T)       // about to run the callback
    | Replying            // about to take a buffer for the reply
    | ReplyReady(b: Buf)  // about to enqueue it
    | ReplyLost(b: Buf)   // ring full, about to free it

  /** Where the master is in flowQoS_message_multiThread_do. */
  datatype MPhase =
    | Sending(i: nat)
    | SendReady(i: nat, b: Buf)
    | SendLost(i: nat, b: Buf)
    | Polling(i: nat, count: nat, res: int)
    | TookReply(i: nat, res: int, b: Buf)
    | Returned(ret: int)

  /** A worker with its two rings; ran lists the callbacks it ran, got says that its reply was taken. */
  datatype Lane<T> = Lane(tasks: seq<Buf>, replies: seq<Buf>, phase: WPhase<T>, ran: seq<T>, got: bool)

  datatype State<T> = State(task: T, buffers: set<Buf>, pool: set<Buf>, mem: map<Buf, Content<T>>,
                            lanes: seq<Lane<T>>, master: MPhase, dequeued: nat)

  // ----- steps

  /** The master's next atomic step; buf is the buffer the pool would hand out. */
  function MasterStep<T>(s: State<T>, buf: Buf): State<T> {
    var n := |s.lanes|;
    match s.master
    case Sending(i) =>
      if i >= n then s.(master := Polling(0, 0, 0))
      else if s.pool == {} then s.(master := Sending(i + 1))
      else s.(master := SendReady(i, buf), pool := s.pool - {buf}, mem := s.mem[buf := Task(s.task)])
    case SendReady(i, b) =>
      if i < n && |s.lanes[i].tasks| < RING_CAPACITY
      then s.(master := Sending(i + 1), lanes := s.lanes[i := s.lanes[i].(tasks := s.lanes[i].tasks + [b])])
      else s.(master := SendLost(i, b))
    case SendLost(i, b) =>
      s.(master := Sending(i + 1), pool := s.pool + {b})
    case Polling(i, count, res) =>
      if i >= n then s.(master := Returned(if res == n then 1 else 0))
      else if s.lanes[i].replies == [] then
        s.(master := if count + 1 == POLLS then Polling(i + 1, 0, res - 1 + 1) else Polling(i, count + 1, res))
      else
        var l := s.lanes[i];
        s.(master := TookReply(i, res, l.replies[0]), dequeued := s.dequeued + 1,
           lanes := s.lanes[i := l.(replies := l.replies[1..], got := true)])
    case TookReply(i, res, b) =>
      s.(master := Polling(i + 1, 0, res + 1), pool := s.pool + {b})
    case Returned(_) => s
  }

  /** Worker j's next atomic step. */
  function WorkerStep<T>(s: State<T>, j: nat, buf: Buf): State<T>
    requires j < |s.lanes|
  {
    var l := s.lanes[j];
    match l.phase
    case Idle =>
      if l.tasks == [] then s
      else s.(lanes := s.lanes[j := l.(phase := TookTask(l.tasks[0]), tasks := l.tasks[1..])])
    case TookTask(b) =>
      s.(pool := s.pool + {b},
         lanes := s.lanes[j := l.(phase := if b in s.mem && s.mem[b].Task? then Calling(s.mem[b].t) else Idle)])
    case Calling(t) => s.(lanes := s.lanes[j := l.(phase := Replying, ran := l.ran + [t])])
    case Replying =>
      if s.pool == {} then s.(lanes := s.lanes[j := l.(phase := Idle)])
      else s.(lanes := s.lanes[j := l.(phase := ReplyReady(buf))], pool := s.pool - {buf}, mem := s.mem[buf := Ret(1)])
    case ReplyReady(b) =>
      if |l.replies| < RING_CAPACITY
      then s.(lanes := s.lanes[j := l.(phase := Idle, replies := l.replies + [b])])
      else s.(lanes := s.lanes[j := l.(phase := ReplyLost(b))])
    case ReplyLost(b) => s.(lanes := s.lanes[j := l.(phase := Idle)], pool := s.pool + {b})
  }

  datatype Event = ByMaster(buf: Buf) | ByWorker(j: nat, buf: Buf)

  ghost predicate Enabled<T>(s: State<T>, ev: Event) {
    (ev.ByWorker? ==> ev.j < |s.lanes|) && (s.pool != {} ==> ev.buf in s.pool)
  }

  function Next<T>(s: State<T>, ev: Event): State<T>
    requires ev.ByWorker? ==> ev.j < |s.lanes|
  {
    match ev
    case ByMaster(buf) => MasterStep(s, buf)
    case ByWorker(j, buf) => WorkerStep(s, j, buf)
  }

  ghost predicate Reaches<T>(s: State<T>, evs: seq<Event>, s': State<T>)
    decreases |evs|
  {
    if evs == [] then s' == s else Enabled(s, evs[0]) && Reaches(Next(s, evs[0]), evs[1..], s')
  }

  lemma ReachesNone<T>(s: State<T>)
    ensures Reaches(s, [], s)
  {
  }

  lemma ReachesBefore<T>(s: State<T>, ev: Event, evs: seq<Event>, s': State<T>)
    requires Enabled(s, ev) && Reaches(Next(s, ev), evs, s')
    ensures Reaches(s, [ev] + evs, s')
  {
    assert ([ev] + evs)[1..] == evs;
  }

  /** A call begins: all rings empty, all workers idle, every buffer in the pool. */
  ghost predicate Start<T>(s: State<T>) {
    && s.pool == s.buffers && s.master == Sending(0) && s.dequeued == 0
    && forall j :: 0 <= j < |s.lanes| ==> s.lanes[j] == Lane([], [], Idle, [], false)
  }

  // ----- the invariant

  /** The task for worker j is on its way, or was given up. */
  predicate Sent(m: MPhase, j: nat) {
    (m.Sending? || m.SendReady? || m.SendLost?) ==> j < m.i
  }

  ghost predicate LaneInv<T>(s: State<T>, j: nat)
    requires j < |s.lanes|
  {
    var l := s.lanes[j];
    var quiet := l.tasks == [] && l.replies == [];
    && (match l.phase
        case Idle =>
          || (quiet && (l.ran == [] || l.ran == [s.task]))
          || (|l.tasks| == 1 && l.replies == [] && l.ran == [] && Holds(s, l.tasks[0], Task(s.task)))
          || (l.tasks == [] && |l.replies| == 1 && l.ran == [s.task] && Holds(s, l.replies[0], Ret(1)))
        case TookTask(b) => quiet && l.ran == [] && Holds(s, b, Task(s.task))
        case Calling(t) => quiet && l.ran == [] && t == s.task
        case Replying => quiet && l.ran == [s.task]
        case ReplyReady(b) => quiet && l.ran == [s.task] && Holds(s, b, Ret(1))
        case ReplyLost(b) => quiet && l.ran == [s.task])
    && (l.got ==> l.phase == Idle && quiet && l.ran == [s.task])
    && (!Sent(s.master, j) ==> l == Lane([], [], Idle, [], false))
  }

  ghost predicate Holds<T>(s: State<T>, b: Buf, c: Content<T>) {
    b !in s.pool && b in s.mem && s.mem[b] == c
  }

  ghost predicate AllGot<T>(s: State<T>, n: nat) {
    forall j :: 0 <= j < n && j < |s.lanes| ==> s.lanes[j].got
  }

  ghost predicate NoneGot<T>(s: State<T>, n: nat) {
    forall j :: n <= j < |s.lanes| ==> !s.lanes[j].got
  }

  ghost predicate MasterInv<T>(s: State<T>) {
    var n := |s.lanes|;
    match s.master
    case Sending(i) => i <= n && NoneGot(s, 0) && s.dequeued == 0
    case SendReady(i, b) => i < n && NoneGot(s, 0) && s.dequeued == 0 && Holds(s, b, Task(s.task))
    case SendLost(i, b) => i < n && NoneGot(s, 0) && s.dequeued == 0
    case Polling(i, count, res) =>
      i <= n && 0 <= res <= i && count < POLLS && s.dequeued == res && (res == i ==> AllGot(s, i)) && NoneGot(s, i)
    case TookReply(i, res, b) =>
      i < n && 0 <= res <= i && s.dequeued == res + 1 && (res == i ==> AllGot(s, i + 1)) && s.lanes[i].got && NoneGot(s, i + 1)
    case Returned(ret) => s.dequeued <= n && ret == (if s.dequeued == n then 1 else 0) && (ret == 1 ==> AllGot(s, n))
  }

  // buffers

  function One(yes: bool): nat {
    if yes then 1 else 0
  }

  function HeldBy<T>(p: WPhase<T>, b: Buf): bool {
    (p.TookTask? || p.ReplyReady? || p.ReplyLost?) && p.b == b
  }

  function MasterHolds(m: MPhase, j: nat, b: Buf): bool {
    (m.SendReady? || m.SendLost? || m.TookReply?) && m.i == j && m.b == b
  }

  /** How often buffer b is in the rings and hands of worker j, or in the master's hand on its account. */
  function At<T>(s: State<T>, j: nat, b: Buf): nat
    requires j < |s.lanes|
  {
    var l := s.lanes[j];
    multiset(l.tasks)[b] + multiset(l.replies)[b] + One(HeldBy(l.phase, b)) + One(MasterHolds(s.master, j, b))
  }

  function Out<T>(s: State<T>, n: nat, b: Buf): nat
    requires n <= |s.lanes|
  {
    if n == 0 then 0 else Out(s, n - 1, b) + At(s, n - 1, b)
  }

  /** No buffer is ever lost or in two places. */
  ghost predicate Conserved<T>(s: State<T>) {
    forall b :: One(b in s.pool) + Out(s, |s.lanes|, b) == One(b in s.buffers)
  }

  ghost predicate Inv<T>(s: State<T>) {
    MasterInv(s) && Conserved(s) && forall j :: 0 <= j < |s.lanes| ==> LaneInv(s, j)
  }

  /** A step on account of worker k changes what is out by what it changes there. */
  lemma {:induction false} OutChanges<T>(s: State<T>, s': State<T>, k: nat, n: nat, b: Buf)
    requires |s.lanes| == |s'.lanes| && n <= |s.lanes|
    requires forall j :: 0 <= j < |s.lanes| && j != k ==> At(s', j, b) == At(s, j, b)
    ensures if k < n then Out(s', n, b) + At(s, k, b) == Out(s, n, b) + At(s', k, b) else Out(s', n, b) == Out(s, n, b)
  {
    hide At;
    if n > 0 {
      OutChanges(s, s', k, n - 1, b);
    }
  }

  lemma {:induction false} OutHas<T>(s: State<T>, j: nat, n: nat, b: Buf)
    requires j < n <= |s.lanes|
    ensures At(s, j, b) <= Out(s, n, b)
  {
    hide At;
    if j < n - 1 {
      OutHas(s, j, n - 1, b);
    }
  }

  /** What worker j has on its account is not in the pool. */
  lemma OutApart<T>(s: State<T>, j: nat, b: Buf)
    requires Conserved(s) && j < |s.lanes| && At(s, j, b) > 0
    ensures b in s.buffers && b !in s.pool
  {
    OutHas(s, j, |s.lanes|, b);
  }

  lemma InRing(q: seq<Buf>)
    requires q != []
    ensures multiset(q)[q[0]] > 0
  {
    assert q[0] in multiset(q);
  }

  lemma RingPuts(q: seq<Buf>, x: Buf, b: Buf)
    ensures multiset(q + [x])[b] == multiset(q)[b] + One(b == x)
  {
  }

  lemma RingTakes(q: seq<Buf>, b: Buf)
    requires q != []
    ensures multiset(q)[b] == multiset(q[1..])[b] + One(b == q[0])
  {
    assert q == [q[0]] + q[1..];
  }

  // ----- every step keeps the invariant

  /** From s to s' nothing happens outside worker k's account, the pool and fresh memory. */
  ghost predicate OnlyAt<T>(s: State<T>, s': State<T>, k: nat) {
    && s'.task == s.task && s'.buffers == s.buffers && |s'.lanes| == |s.lanes|
    && (forall j :: 0 <= j < |s.lanes| && j != k ==>
                      && s'.lanes[j] == s.lanes[j] && (Sent(s'.master, j) <==> Sent(s.master, j))
                      && forall b :: MasterHolds(s'.master, j, b) == MasterHolds(s.master, j, b))
    && (forall b <- s.mem :: b !in s.pool ==> b in s'.mem && s'.mem[b] == s.mem[b])
  }

  /** Buffers only move between the pool and worker k's account. */
  ghost predicate Exchanged<T>(s: State<T>, s': State<T>, k: nat)
    requires |s'.lanes| == |s.lanes|
  {
    forall b :: if k < |s.lanes| then One(b in s'.pool) + At(s', k, b) == One(b in s.pool) + At(s, k, b)
                else b in s'.pool <==> b in s.pool
  }

  lemma StepConserved<T>(s: State<T>, s': State<T>, k: nat)
    requires Conserved(s) && OnlyAt(s, s', k) && Exchanged(s, s', k)
    ensures Conserved(s')
  {
    forall b: Buf
      ensures One(b in s'.pool) + Out(s', |s'.lanes|, b) == One(b in s'.buffers)
    {
      OutChanges(s, s', k, |s.lanes|, b);
      assert One(b in s.pool) + Out(s, |s.lanes|, b) == One(b in s.buffers);
    }
  }

  lemma HoldsStill<T>(s: State<T>, s': State<T>, k: nat, j: nat, b: Buf, c: Content<T>)
    requires Conserved(s) && Conserved(s') && OnlyAt(s, s', k) && j < |s.lanes| && j != k
    requires At(s, j, b) > 0 && Holds(s, b, c)
    ensures Holds(s', b, c)
  {
    assert At(s', j, b) == At(s, j, b);
    OutApart(s', j, b);
  }

  lemma OthersKeep<T>(s: State<T>, s': State<T>, k: nat, j: nat)
    requires Conserved(s) && Conserved(s') && OnlyAt(s, s', k) && j < |s.lanes| && j != k && LaneInv(s, j)
    ensures LaneInv(s', j)
  {
    LaneSame(s, s', k, j);
    hide Conserved, Holds, OnlyAt, Sent;
    var l := s.lanes[j];
    if l.phase.TookTask? {
      HoldsStill(s, s', k, j, l.phase.b, Task(s.task));
    } else if l.phase.ReplyReady? {
      HoldsStill(s, s', k, j, l.phase.b, Ret(1));
    } else if l.phase.Idle? && |l.tasks| == 1 {
      InRing(l.tasks);
      HoldsStill(s, s', k, j, l.tasks[0], Task(s.task));
    } else if l.phase.Idle? && |l.replies| == 1 {
      InRing(l.replies);
      HoldsStill(s, s', k, j, l.replies[0], Ret(1));
    }
  }

  lemma LaneSame<T>(s: State<T>, s': State<T>, k: nat, j: nat)
    requires OnlyAt(s, s', k) && j < |s.lanes| && j != k
    ensures |s'.lanes| == |s.lanes| && s'.lanes[j] == s.lanes[j] && s'.task == s.task
    ensures Sent(s'.master, j) <==> Sent(s.master, j)
  {
  }

  lemma StepInv<T>(s: State<T>, s': State<T>, k: nat)
    requires Inv(s) && OnlyAt(s, s', k) && Exchanged(s, s', k)
    requires MasterInv(s') && (k < |s.lanes| ==> LaneInv(s', k))
    ensures Inv(s')
  {
    StepConserved(s, s', k);
    hide MasterInv, Conserved, LaneInv, OnlyAt, Exchanged;
    forall j | 0 <= j < |s.lanes| && j != k
      ensures LaneInv(s', j)
    {
      OthersKeep(s, s', k, j);
    }
    SameLanes(s, s', k);
  }

  lemma SameLanes<T>(s: State<T>, s': State<T>, k: nat)
    requires OnlyAt(s, s', k)
    ensures |s'.lanes| == |s.lanes|
  {
  }

  lemma SendMoves<T>(s: State<T>, buf: Buf)
    requires (s.master.Sending? || s.master.SendReady? || s.master.SendLost?) && s.master.i < |s.lanes|
    requires (s.pool != {} ==> buf in s.pool) && (s.master.SendLost? ==> s.master.b !in s.pool)
    ensures Exchanged(s, MasterStep(s, buf), s.master.i)
  {
    var s', k := MasterStep(s, buf), s.master.i;
    forall b: Buf
      ensures One(b in s'.pool) + At(s', k, b) == One(b in s.pool) + At(s, k, b)
    {
      if s.master.SendReady? {
        RingPuts(s.lanes[k].tasks, s.master.b, b);
      }
    }
  }

  lemma SendOnly<T>(s: State<T>, buf: Buf)
    requires (s.master.Sending? || s.master.SendReady? || s.master.SendLost?) && s.master.i <= |s.lanes|
    requires s.master.i == |s.lanes| ==> s.master.Sending?
    requires s.pool != {} ==> buf in s.pool
    ensures OnlyAt(s, MasterStep(s, buf), s.master.i)
  {
    var s', k := MasterStep(s, buf), s.master.i;
    assert forall j :: 0 <= j < |s.lanes| && j != k ==> s'.lanes[j] == s.lanes[j];
    assert forall j :: 0 <= j < |s.lanes| && j != k ==> (Sent(s'.master, j) <==> Sent(s.master, j));
    assert forall j, b :: 0 <= j < |s.lanes| && j != k ==> MasterHolds(s'.master, j, b) == MasterHolds(s.master, j, b);
  }

  lemma SendKeeps<T>(s: State<T>, buf: Buf)
    requires (s.master.Sending? || s.master.SendReady? || s.master.SendLost?) && MasterInv(s)
    requires s.master.i < |s.lanes| ==> LaneInv(s, s.master.i)
    requires s.pool != {} ==> buf in s.pool
    requires s.master.SendReady? ==> s.master.b !in s.pool
    ensures var s' := MasterStep(s, buf);
            MasterInv(s') && (s.master.i < |s.lanes| ==> LaneInv(s', s.master.i))
  {
  }

  lemma MasterSends<T>(s: State<T>, buf: Buf)
    requires Inv(s) && (s.pool != {} ==> buf in s.pool) && (s.master.Sending? || s.master.SendReady? || s.master.SendLost?)
    ensures Inv(MasterStep(s, buf))
  {
    var k := s.master.i;
    if k < |s.lanes| {
      if !s.master.Sending? {
        OutApart(s, k, s.master.b);
      }
      SendMoves(s, buf);
    }
    SendOnly(s, buf);
    SendKeeps(s, buf);
    hide Conserved, OnlyAt, LaneInv, MasterInv;
    StepInv(s, MasterStep(s, buf), k);
  }

  // receiving

  lemma RecvMoves<T>(s: State<T>, buf: Buf)
    requires (s.master.Polling? || s.master.TookReply?) && s.master.i < |s.lanes|
    requires s.master.TookReply? ==> s.master.b !in s.pool
    ensures Exchanged(s, MasterStep(s, buf), s.master.i)
  {
    var s', k := MasterStep(s, buf), s.master.i;
    forall b: Buf
      ensures One(b in s'.pool) + At(s', k, b) == One(b in s.pool) + At(s, k, b)
    {
      if s.lanes[k].replies != [] {
        RingTakes(s.lanes[k].replies, b);
      }
    }
  }

  lemma RecvOnly<T>(s: State<T>, buf: Buf)
    requires (s.master.Polling? || s.master.TookReply?) && s.master.i <= |s.lanes|
    requires s.master.i == |s.lanes| ==> s.master.Polling?
    ensures OnlyAt(s, MasterStep(s, buf), s.master.i)
  {
    var s', k := MasterStep(s, buf), s.master.i;
    assert forall j :: 0 <= j < |s.lanes| && j != k ==> s'.lanes[j] == s.lanes[j];
    assert forall j :: 0 <= j < |s.lanes| && j != k ==> (Sent(s'.master, j) <==> Sent(s.master, j));
    assert forall j, b :: 0 <= j < |s.lanes| && j != k ==> MasterHolds(s'.master, j, b) == MasterHolds(s.master, j, b);
  }

  lemma RecvKeeps<T>(s: State<T>, buf: Buf)
    requires (s.master.Polling? || s.master.TookReply?) && MasterInv(s)
    requires s.master.i < |s.lanes| ==> LaneInv(s, s.master.i)
    ensures var s' := MasterStep(s, buf);
            MasterInv(s') && (s.master.i < |s.lanes| ==> LaneInv(s', s.master.i))
  {
  }

  lemma MasterReceives<T>(s: State<T>, buf: Buf)
    requires Inv(s) && (s.master.Polling? || s.master.TookReply?)
    ensures Inv(MasterStep(s, buf))
  {
    var k := s.master.i;
    if k < |s.lanes| {
      if s.master.TookReply? {
        OutApart(s, k, s.master.b);
      }
      RecvMoves(s, buf);
    }
    RecvOnly(s, buf);
    RecvKeeps(s, buf);
    hide Conserved, OnlyAt, LaneInv, MasterInv;
    StepInv(s, MasterStep(s, buf), k);
  }

  // the workers

  lemma WorkMoves<T>(s: State<T>, j: nat, buf: Buf)
    requires j < |s.lanes| && (s.pool != {} ==> buf in s.pool)
    requires s.lanes[j].phase.TookTask? || s.lanes[j].phase.ReplyLost? ==> s.lanes[j].phase.b !in s.pool
    ensures Exchanged(s, WorkerStep(s, j, buf), j)
  {
    forall b: Buf
      ensures One(b in WorkerStep(s, j, buf).pool) + At(WorkerStep(s, j, buf), j, b) == One(b in s.pool) + At(s, j, b)
    {
      hide At, WorkerStep;
      if s.lanes[j].phase.Idle? {
        TaskMoves(s, j, buf, b);
      } else if s.lanes[j].phase.ReplyReady? {
        ReplyMoves(s, j, buf, b);
      } else {
        HandMoves(s, j, buf, b);
      }
    }
  }

  lemma TaskMoves<T>(s: State<T>, j: nat, buf: Buf, b: Buf)
    requires j < |s.lanes| && s.lanes[j].phase.Idle?
    ensures var s' := WorkerStep(s, j, buf); s'.pool == s.pool && At(s', j, b) == At(s, j, b)
  {
    if s.lanes[j].tasks != [] {
      RingTakes(s.lanes[j].tasks, b);
    }
  }

  lemma ReplyMoves<T>(s: State<T>, j: nat, buf: Buf, b: Buf)
    requires j < |s.lanes| && s.lanes[j].phase.ReplyReady?
    ensures var s' := WorkerStep(s, j, buf); s'.pool == s.pool && At(s', j, b) == At(s, j, b)
  {
    RingPuts(s.lanes[j].replies, s.lanes[j].phase.b, b);
  }

  lemma HandMoves<T>(s: State<T>, j: nat, buf: Buf, b: Buf)
    requires j < |s.lanes| && (s.pool != {} ==> buf in s.pool)
    requires !s.lanes[j].phase.Idle? && !s.lanes[j].phase.ReplyReady?
    requires s.lanes[j].phase.TookTask? || s.lanes[j].phase.ReplyLost? ==> s.lanes[j].phase.b !in s.pool
    ensures var s' := WorkerStep(s, j, buf); One(b in s'.pool) + At(s', j, b) == One(b in s.pool) + At(s, j, b)
  {
    var s', l := WorkerStep(s, j, buf), s.lanes[j];
    assert s'.lanes[j].tasks == l.tasks && s'.lanes[j].replies == l.replies;
  }

  lemma WorkOnly<T>(s: State<T>, j: nat, buf: Buf)
    requires j < |s.lanes| && (s.pool != {} ==> buf in s.pool)
    ensures OnlyAt(s, WorkerStep(s, j, buf), j)
  {
  }

  lemma WorkKeeps<T>(s: State<T>, j: nat, buf: Buf)
    requires j < |s.lanes| && (s.pool != {} ==> buf in s.pool) && LaneInv(s, j)
    ensures LaneInv(WorkerStep(s, j, buf), j)
    ensures WorkerStep(s, j, buf).lanes[j].got == s.lanes[j].got
  {
  }

  lemma WorkAside<T>(s: State<T>, j: nat, buf: Buf)
    requires j < |s.lanes| && MasterInv(s) && OnlyAt(s, WorkerStep(s, j, buf), j)
    requires WorkerStep(s, j, buf).lanes[j].got == s.lanes[j].got
    requires s.master.SendReady? ==> Holds(WorkerStep(s, j, buf), s.master.b, Task(s.task))
    ensures MasterInv(WorkerStep(s, j, buf))
  {
    var s' := WorkerStep(s, j, buf);
    assert s'.master == s.master && s'.dequeued == s.dequeued;
    assert forall i :: 0 <= i < |s.lanes| ==> s'.lanes[i].got == s.lanes[i].got;
    hide WorkerStep, OnlyAt;
  }

  lemma WorkerWorks<T>(s: State<T>, j: nat, buf: Buf)
    requires Inv(s) && j < |s.lanes| && (s.pool != {} ==> buf in s.pool)
    ensures Inv(WorkerStep(s, j, buf))
  {
    var l, s' := s.lanes[j], WorkerStep(s, j, buf);
    if l.phase.TookTask? || l.phase.ReplyLost? {
      OutApart(s, j, l.phase.b);
    }
    WorkMoves(s, j, buf);
    WorkOnly(s, j, buf);
    WorkKeeps(s, j, buf);
    StepConserved(s, s', j);
    assert s'.master == s.master;
    if s.master.SendReady? && s.master.i != j {
      HoldsStill(s, s', j, s.master.i, s.master.b, Task(s.task));
    } else if s.master.SendReady? {
      assert s' == s;
    }
    hide WorkerStep, Conserved, OnlyAt, LaneInv, Exchanged;
    WorkAside(s, j, buf);
    hide MasterInv;
    StepInv(s, s', j);
  }

  // ----- runs

  lemma NextInv<T>(s: State<T>, ev: Event)
    requires Inv(s) && Enabled(s, ev)
    ensures Inv(Next(s, ev))
  {
    hide Inv, WorkerStep;
    if ev.ByWorker? {
      WorkerWorks(s, ev.j, ev.buf);
    } else if s.master.Polling? || s.master.TookReply? {
      MasterReceives(s, ev.buf);
    } else if !s.master.Returned? {
      MasterSends(s, ev.buf);
    }
  }

  lemma {:induction false} NoneOut<T>(s: State<T>, n: nat, b: Buf)
    requires Start(s) && n <= |s.lanes|
    ensures Out(s, n, b) == 0
  {
    if n > 0 {
      NoneOut(s, n - 1, b);
    }
  }

  lemma StartInv<T>(s: State<T>)
    requires Start(s)
    ensures Inv(s)
  {
    forall b: Buf
      ensures One(b in s.pool) + Out(s, |s.lanes|, b) == One(b in s.buffers)
    {
      NoneOut(s, |s.lanes|, b);
    }
  }

  lemma {:induction false} ReachesInv<T>(s: State<T>, evs: seq<Event>, s': State<T>)
    requires Inv(s) && Reaches(s, evs, s')
    ensures Inv(s') && s'.task == s.task && s'.buffers == s.buffers && |s'.lanes| == |s.lanes|
    decreases |evs|
  {
    hide Inv;
    if evs != [] {
      NextInv(s, evs[0]);
      ReachesInv(Next(s, evs[0]), evs[1..], s');
    }
  }

  /**
   If a call that began with empty rings returns 1, then under every interleaving each worker has run
   the callback exactly once since, is idle again, both its rings are empty and all buffers are back.
   */
  lemma CallsRunOnce<T>(s: State<T>, evs: seq<Event>, s': State<T>)
    requires Start(s) && Reaches(s, evs, s') && s'.master == Returned(1)
    ensures |s'.lanes| == |s.lanes| && s'.pool == s.buffers && s'.dequeued == |s.lanes|
    ensures forall j :: 0 <= j < |s.lanes| ==> s'.lanes[j] == Lane([], [], Idle, [s.task], true)
  {
    StartInv(s);
    ReachesInv(s, evs, s');
    forall j | 0 <= j < |s'.lanes|
      ensures LaneInv(s', j) && s'.lanes[j] == Lane([], [], Idle, [s.task], true)
    {
      assert s'.lanes[j].got;
    }
    forall b: Buf
      ensures b in s'.pool <==> b in s.buffers
    {
      AllQuiet(s', |s'.lanes|, b);
    }
  }

  lemma {:induction false} AllQuiet<T>(s: State<T>, n: nat, b: Buf)
    requires n <= |s.lanes| && s.master.Returned? && forall j :: 0 <= j < n ==> LaneInv(s, j) && s.lanes[j].got
    ensures Out(s, n, b) == 0
  {
    if n > 0 {
      AllQuiet(s, n - 1, b);
      assert LaneInv(s, n - 1);
    }
  }

  /** At every moment of a call the receive count is the number of replies taken from the rings. */
  lemma CountsReplies<T>(s: State<T>, evs: seq<Event>, s': State<T>)
    requires Start(s) && Reaches(s, evs, s')
    ensures s'.master.Polling? ==> s'.dequeued == s'.master.res
    ensures s'.master.TookReply? ==> s'.dequeued == s'.master.res + 1
    ensures s'.master.Returned? ==> (s'.master.ret == 1 <==> s'.dequeued == |s.lanes|)
  {
    StartInv(s);
    ReachesInv(s, evs, s');
  }

  /** Buffers are conserved: at every moment each is in the pool or in exactly one other place. */
  lemma BuffersConserved<T>(s: State<T>, evs: seq<Event>, s': State<T>, b: Buf)
    requires Start(s) && Reaches(s, evs, s') && b in s.buffers
    ensures One(b in s'.pool) + Out(s', |s'.lanes|, b) == 1
  {
    StartInv(s);
    ReachesInv(s, evs, s');
  }

  // ----- nothing is lost

  /** The buffers on worker j's account. */
  ghost function LaneBufs<T>(s: State<T>, j: nat): set<Buf>
    requires j < |s.lanes|
  {
    var l := s.lanes[j];
    Elements(l.tasks) + Elements(l.replies)
    + (if l.phase.TookTask? || l.phase.ReplyReady? || l.phase.ReplyLost? then {l.phase.b} else {})
    + (if (s.master.SendReady? || s.master.SendLost? || s.master.TookReply?) && s.master.i == j then {s.master.b} else {})
  }

  ghost function AllBufs<T>(s: State<T>, n: nat): set<Buf>
    requires n <= |s.lanes|
  {
    if n == 0 then {} else AllBufs(s, n - 1) + LaneBufs(s, n - 1)
  }

  lemma LaneBufsAt<T>(s: State<T>, j: nat, b: Buf)
    requires j < |s.lanes|
    ensures b in LaneBufs(s, j) <==> At(s, j, b) > 0
  {
    var l := s.lanes[j];
    assert b in l.tasks <==> multiset(l.tasks)[b] > 0;
    assert b in l.replies <==> multiset(l.replies)[b] > 0;
  }

  lemma {:induction false} AllBufsOut<T>(s: State<T>, n: nat, b: Buf)
    requires n <= |s.lanes|
    ensures b in AllBufs(s, n) <==> Out(s, n, b) > 0
  {
    hide At, LaneBufs;
    if n > 0 {
      AllBufsOut(s, n - 1, b);
      LaneBufsAt(s, n - 1, b);
    }
  }

  /** At most one buffer is in use for each worker. */
  lemma OnePerWorker<T>(s: State<T>, j: nat)
    requires MasterInv(s) && j < |s.lanes| && LaneInv(s, j)
    ensures |LaneBufs(s, j)| <= 1
  {
    var l := s.lanes[j];
    var x := if l.tasks != [] then l.tasks[0] else if l.replies != [] then l.replies[0]
             else if l.phase.TookTask? || l.phase.ReplyReady? || l.phase.ReplyLost? then l.phase.b
             else if s.master.SendReady? || s.master.SendLost? || s.master.TookReply? then s.master.b else 0;
    hide Holds;
    assert LaneBufs(s, j) <= {x};
    SubsetSize(LaneBufs(s, j), {x});
  }

  lemma {:induction false} FewBufs<T>(s: State<T>, n: nat, k: nat)
    requires MasterInv(s) && n <= |s.lanes| && forall j :: 0 <= j < |s.lanes| ==> LaneInv(s, j)
    requires k < n ==> LaneBufs(s, k) == {}
    ensures |AllBufs(s, n)| <= n - One(k < n)
  {
    hide LaneBufs, LaneInv, MasterInv;
    if n > 0 {
      FewBufs(s, n - 1, k);
      OnePerWorker(s, n - 1);
    }
  }

  /** With a buffer for each worker, one is free whenever worker k's account is clear. */
  lemma BufferFree<T>(s: State<T>, k: nat)
    requires Inv(s) && |s.buffers| >= |s.lanes| && k < |s.lanes| && LaneBufs(s, k) == {}
    ensures s.pool != {}
  {
    var n := |s.lanes|;
    FewBufs(s, n, k);
    if s.pool == {} {
      forall b <- s.buffers
        ensures b in AllBufs(s, n)
      {
        AllBufsOut(s, n, b);
      }
      SubsetSize(s.buffers, AllBufs(s, n));
    }
  }

  lemma SubsetSize(a: set<Buf>, b: set<Buf>)
    requires a <= b
    ensures |a| <= |b|
  {
    assert b == a + (b - a);
  }

  /** No send of the call has failed. */
  ghost predicate Lossless<T>(s: State<T>) {
    !s.master.SendLost? && forall j :: 0 <= j < |s.lanes| ==> !s.lanes[j].phase.ReplyLost?
  }

  lemma NextLossless<T>(s: State<T>, ev: Event)
    requires Inv(s) && Enabled(s, ev) && Lossless(s)
    ensures Lossless(Next(s, ev))
  {
    if ev.ByWorker? {
      assert LaneInv(s, ev.j);
    } else if s.master.SendReady? {
      assert LaneInv(s, s.master.i);
    }
  }

  /** Every task and every reply finds a buffer, when there are as many as workers. */
  lemma BufferAlways<T>(s: State<T>)
    requires Inv(s) && |s.buffers| >= |s.lanes|
    ensures s.master.Sending? && s.master.i < |s.lanes| ==> s.pool != {}
    ensures forall j :: 0 <= j < |s.lanes| && s.lanes[j].phase.Replying? ==> s.pool != {}
  {
    if s.master.Sending? && s.master.i < |s.lanes| {
      assert LaneInv(s, s.master.i);
      ClearAccount(s, s.master.i);
      BufferFree(s, s.master.i);
    }
    forall j | 0 <= j < |s.lanes| && s.lanes[j].phase.Replying?
      ensures s.pool != {}
    {
      assert LaneInv(s, j);
      ClearAccount(s, j);
      BufferFree(s, j);
    }
  }

  lemma ClearAccount<T>(s: State<T>, j: nat)
    requires MasterInv(s) && j < |s.lanes| && LaneInv(s, j)
    requires s.lanes[j].phase.Replying? || s.master == Sending(j)
    ensures LaneBufs(s, j) == {}
  {
    hide Holds;
  }

  /** No message of a call that began with empty rings is lost, given a buffer for each worker. */
  lemma {:induction false} NothingLost<T>(s: State<T>, evs: seq<Event>, s': State<T>)
    requires Inv(s) && Lossless(s) && Reaches(s, evs, s') && |s.buffers| >= |s.lanes|
    ensures Lossless(s')
    ensures s'.master.Sending? && s'.master.i < |s'.lanes| ==> s'.pool != {}
    ensures forall j :: 0 <= j < |s'.lanes| && s'.lanes[j].phase.Replying? ==> s'.pool != {}
    decreases |evs|
  {
    if evs == [] {
      BufferAlways(s);
    } else {
      NextInv(s, evs[0]);
      NextLossless(s, evs[0]);
      ReachesInv(s, evs[..1], Next(s, evs[0]));
      NothingLost(Next(s, evs[0]), evs[1..], s');
    }
  }
}
