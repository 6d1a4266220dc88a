/**
 Several calls of the task protocol, one after the other. A call that gives up leaves its worker
 behind; when a return value of 1 can be trusted, and how it comes to lie.
 */
module Sessions {
  import opened Messages
  import opened Sequences

  /** The next call: a new task, and nothing run or received yet. Rings, hands and buffers stay. */
  function NewCall<T>(s: State<T>, t: T): State<T> {
    s.(task := t, master := Sending(0), dequeued := 0,
       lanes := seq(|s.lanes|, j requires 0 <= j < |s.lanes| => s.lanes[j].(ran := [], got := false)))
  }

  /** The worker owes nothing: its rings are empty and it is idle. */
  ghost predicate Clear<T>(l: Lane<T>) {
    l.tasks == [] && l.replies == [] && l.phase == Idle
  }

  ghost predicate AllClear<T>(s: State<T>) {
    forall j :: 0 <= j < |s.lanes| ==> Clear(s.lanes[j])
  }

  /** More buffers than rings and hands can hold; the program's 112 are ample for its 7 workers. */
  ghost predicate Ample<T>(s: State<T>) {
    |s.buffers| > (2 * RING_CAPACITY + 1) * |s.lanes|
  }

  // ----- what holds over any number of calls

  ghost predicate HoldsTask<T>(s: State<T>, b: Buf) {
    b !in s.pool && b in s.mem && s.mem[b].Task?
  }

  /** The master has sent worker j its task of this call and has not yet polled its reply. */
  predicate Paid(m: MPhase, j: nat) {
    match m
    case Sending(i) => j < i
    case SendReady(i, _) => j < i
    case SendLost(i, _) => j <= i
    case Polling(i, _, _) => j >= i
    case TookReply(i, _, _) => j > i
    case Returned(_) => false
  }

  /** Task buffers hold tasks, and a worker whose reply was lost still has something in its rings. */
  ghost predicate LaneSane<T>(s: State<T>, j: nat)
    requires j < |s.lanes|
  {
    var l := s.lanes[j];
    && |l.tasks| <= RING_CAPACITY && |l.replies| <= RING_CAPACITY
    && (forall i :: 0 <= i < |l.tasks| ==> HoldsTask(s, l.tasks[i]))
    && (l.phase.TookTask? ==> HoldsTask(s, l.phase.b))
    && (l.phase.ReplyLost? ==> |l.tasks| + |l.replies| >= RING_CAPACITY - 1 + One(Paid(s.master, j)))
  }

  ghost predicate MasterSane<T>(s: State<T>) {
    match s.master
    case Sending(i) => i <= |s.lanes|
    case SendReady(i, b) => i < |s.lanes| && HoldsTask(s, b)
    case SendLost(i, _) => i < |s.lanes|
    case Polling(i, count, _) => i <= |s.lanes| && count < POLLS
    case TookReply(i, _, _) => i < |s.lanes|
    case Returned(_) => true
  }

  ghost predicate Sane<T>(s: State<T>) {
    Conserved(s) && MasterSane(s) && Ample(s) && forall j :: 0 <= j < |s.lanes| ==> LaneSane(s, j)
  }

  // a free buffer

  /** How many hands hold a buffer on worker j's account. */
  function Hands<T>(s: State<T>, j: nat): nat
    requires j < |s.lanes|
  {
    var p, m := s.lanes[j].phase, s.master;
    One(p.TookTask? || p.ReplyReady? || p.ReplyLost?) + One((m.SendReady? || m.SendLost? || m.TookReply?) && m.i == j)
  }

  lemma LaneBufsFew<T>(s: State<T>, j: nat)
    requires j < |s.lanes| && |s.lanes[j].tasks| <= RING_CAPACITY && |s.lanes[j].replies| <= RING_CAPACITY
    ensures |LaneBufs(s, j)| <= 2 * RING_CAPACITY + Hands(s, j)
  {
    var l, m := s.lanes[j], s.master;
    ElementsSize(l.tasks);
    ElementsSize(l.replies);
    hide Elements;
    UnionSize(Elements(l.tasks), Elements(l.replies),
              if l.phase.TookTask? || l.phase.ReplyReady? || l.phase.ReplyLost? then {l.phase.b} else {},
              if (m.SendReady? || m.SendLost? || m.TookReply?) && m.i == j then {m.b} else {});
  }

  lemma UnionSize(a: set<Buf>, b: set<Buf>, c: set<Buf>, d: set<Buf>)
    ensures |a + b + c + d| <= |a| + |b| + |c| + |d|
  {
    assert a + b == a + (b - a);
    assert a + b + c == (a + b) + (c - (a + b));
    assert a + b + c + d == (a + b + c) + (d - (a + b + c));
  }

  /** The master has one hand, and worker k's is empty. */
  lemma {:induction false} AllBufsFew<T>(s: State<T>, n: nat, k: nat)
    requires n <= |s.lanes| && forall j :: 0 <= j < |s.lanes| ==> LaneSane(s, j)
    requires k < n ==> !(s.lanes[k].phase.TookTask? || s.lanes[k].phase.ReplyReady? || s.lanes[k].phase.ReplyLost?)
    ensures var m := s.master;
            |AllBufs(s, n)| <= (2 * RING_CAPACITY + 1) * n - One(k < n)
                               + One((m.SendReady? || m.SendLost? || m.TookReply?) && m.i < n)
  {
    hide LaneBufs;
    if n > 0 {
      AllBufsFew(s, n - 1, k);
      assert LaneSane(s, n - 1);
      hide LaneSane;
      LaneBufsFew(s, n - 1);
    }
  }

  lemma BufferThere<T>(s: State<T>, k: nat)
    requires Sane(s) && if k < |s.lanes| then s.lanes[k].phase.Replying? else s.master.Sending?
    ensures s.pool != {}
  {
    var n := |s.lanes|;
    AllBufsFew(s, n, k);
    if s.pool == {} {
      forall b <- s.buffers
        ensures b in AllBufs(s, n)
      {
        AllBufsOut(s, n, b);
      }
      SubsetSize(s.buffers, AllBufs(s, n));
    }
  }

  // every step keeps it

  lemma TaskStill<T>(s: State<T>, s': State<T>, k: nat, j: nat, b: Buf)
    requires Conserved(s) && Conserved(s') && OnlyAt(s, s', k) && j < |s.lanes| && j != k
    requires At(s, j, b) > 0 && HoldsTask(s, b)
    ensures HoldsTask(s', b)
  {
    HoldsStill(s, s', k, j, b, s.mem[b]);
  }

  lemma InTasks(q: seq<Buf>, i: nat)
    requires i < |q|
    ensures multiset(q)[q[i]] > 0
  {
    assert q[i] in multiset(q);
  }

  lemma OthersSane<T>(s: State<T>, s': State<T>, k: nat, j: nat)
    requires Conserved(s) && Conserved(s') && OnlyAt(s, s', k) && j < |s.lanes| && j != k && LaneSane(s, j)
    requires Paid(s'.master, j) ==> Paid(s.master, j)
    ensures LaneSane(s', j)
  {
    LaneSame(s, s', k, j);
    var l := s.lanes[j];
    hide Conserved, HoldsTask, OnlyAt, Paid;
    forall i | 0 <= i < |l.tasks|
      ensures HoldsTask(s', l.tasks[i])
    {
      InTasks(l.tasks, i);
      TaskStill(s, s', k, j, l.tasks[i]);
    }
    if l.phase.TookTask? {
      TaskStill(s, s', k, j, l.phase.b);
    }
  }

  lemma StepSane<T>(s: State<T>, s': State<T>, k: nat)
    requires Sane(s) && OnlyAt(s, s', k) && Exchanged(s, s', k)
    requires forall j :: 0 <= j < |s.lanes| && j != k ==> (Paid(s'.master, j) ==> Paid(s.master, j))
    requires |s'.lanes| == |s.lanes| && MasterSane(s') && (k < |s.lanes| ==> LaneSane(s', k))
    ensures Sane(s')
  {
    StepConserved(s, s', k);
    SameLanes(s, s', k);
    assert s'.buffers == s.buffers;
    hide MasterSane, Conserved, LaneSane, OnlyAt, Exchanged, Paid;
    forall j | 0 <= j < |s.lanes| && j != k
      ensures LaneSane(s', j)
    {
      OthersSane(s, s', k, j);
    }
  }

  /** A task buffer of worker k's account that stays there still holds its task. */
  lemma TaskKept<T>(s: State<T>, s': State<T>, k: nat, b: Buf)
    requires OnlyAt(s, s', k) && Conserved(s') && k < |s.lanes| && At(s', k, b) > 0 && HoldsTask(s, b)
    ensures HoldsTask(s', b)
  {
    OutApart(s', k, b);
  }

  lemma SendLane<T>(s: State<T>, buf: Buf)
    requires (s.master.Sending? || s.master.SendReady? || s.master.SendLost?) && MasterSane(s) && s.master.i < |s.lanes|
    requires LaneSane(s, s.master.i) && Conserved(MasterStep(s, buf)) && OnlyAt(s, MasterStep(s, buf), s.master.i)
    requires s.master.Sending? ==> s.pool != {}
    ensures LaneSane(MasterStep(s, buf), s.master.i)
  {
    SendTasks(s, buf);
    SendRings(s, buf);
    hide MasterStep, Conserved, OnlyAt, HoldsTask;
  }

  lemma SendMaster<T>(s: State<T>, buf: Buf)
    requires (s.master.Sending? || s.master.SendReady? || s.master.SendLost?) && MasterSane(s)
    requires s.pool != {} ==> buf in s.pool
    ensures MasterSane(MasterStep(s, buf)) && |MasterStep(s, buf).lanes| == |s.lanes|
  {
  }

  lemma SendSane<T>(s: State<T>, buf: Buf)
    requires Sane(s) && (s.pool != {} ==> buf in s.pool) && (s.master.Sending? || s.master.SendReady? || s.master.SendLost?)
    ensures Sane(MasterStep(s, buf))
  {
    var k, s' := s.master.i, MasterStep(s, buf);
    SendMaster(s, buf);
    SendPaid(s, buf);
    SendOnly(s, buf);
    if k < |s.lanes| {
      if s.master.Sending? {
        BufferThere(s, |s.lanes|);
      } else {
        OutApart(s, k, s.master.b);
      }
      SendMoves(s, buf);
    }
    hide Conserved, OnlyAt, LaneSane, MasterStep, Exchanged, Paid, MasterSane;
    StepConserved(s, s', k);
    if k < |s.lanes| {
      SendLane(s, buf);
    }
    StepSane(s, s', k);
  }

  lemma SendPaid<T>(s: State<T>, buf: Buf)
    requires s.master.Sending? || s.master.SendReady? || s.master.SendLost?
    ensures forall j :: 0 <= j < |s.lanes| && j != s.master.i ==> (Paid(MasterStep(s, buf).master, j) ==> Paid(s.master, j))
  {
  }

  lemma SendTasks<T>(s: State<T>, buf: Buf)
    requires (s.master.Sending? || s.master.SendReady? || s.master.SendLost?) && MasterSane(s) && s.master.i < |s.lanes|
    requires LaneSane(s, s.master.i) && Conserved(MasterStep(s, buf)) && OnlyAt(s, MasterStep(s, buf), s.master.i)
    ensures var k, s' := s.master.i, MasterStep(s, buf);
            && (forall i :: 0 <= i < |s'.lanes[k].tasks| ==> HoldsTask(s', s'.lanes[k].tasks[i]))
            && (s'.lanes[k].phase.TookTask? ==> HoldsTask(s', s'.lanes[k].phase.b))
  {
    var k, s' := s.master.i, MasterStep(s, buf);
    var l, l' := s.lanes[k], s'.lanes[k];
    assert l'.tasks == l.tasks || (s.master.SendReady? && l'.tasks == l.tasks + [s.master.b]);
    hide MasterStep, Conserved, OnlyAt, HoldsTask;
    forall i | 0 <= i < |l'.tasks|
      ensures HoldsTask(s', l'.tasks[i])
    {
      InTasks(l'.tasks, i);
      TaskKept(s, s', k, l'.tasks[i]);
    }
    if l.phase.TookTask? {
      TaskKept(s, s', k, l.phase.b);
    }
  }

  lemma SendRings<T>(s: State<T>, buf: Buf)
    requires (s.master.Sending? || s.master.SendReady? || s.master.SendLost?) && MasterSane(s) && s.master.i < |s.lanes|
    requires LaneSane(s, s.master.i) && (s.master.Sending? ==> s.pool != {})
    ensures var l := MasterStep(s, buf).lanes[s.master.i];
            && |l.tasks| <= RING_CAPACITY && |l.replies| <= RING_CAPACITY
            && (l.phase.ReplyLost? ==>
                  |l.tasks| + |l.replies| >= RING_CAPACITY - 1 + One(Paid(MasterStep(s, buf).master, s.master.i)))
  {
    hide HoldsTask;
  }

  lemma RecvLane<T>(s: State<T>, buf: Buf)
    requires (s.master.Polling? || s.master.TookReply?) && s.master.i < |s.lanes|
    requires LaneSane(s, s.master.i) && Conserved(MasterStep(s, buf)) && OnlyAt(s, MasterStep(s, buf), s.master.i)
    ensures LaneSane(MasterStep(s, buf), s.master.i)
  {
    RecvTasks(s, buf);
    RecvRings(s, buf);
    hide MasterStep, Conserved, OnlyAt, HoldsTask;
  }

  lemma RecvSane<T>(s: State<T>, buf: Buf)
    requires Sane(s) && (s.master.Polling? || s.master.TookReply?)
    ensures Sane(MasterStep(s, buf))
  {
    var k, s' := s.master.i, MasterStep(s, buf);
    RecvPaid(s, buf);
    RecvOnly(s, buf);
    if k < |s.lanes| {
      if s.master.TookReply? {
        OutApart(s, k, s.master.b);
      }
      RecvMoves(s, buf);
    }
    hide Conserved, OnlyAt, LaneSane, MasterStep, Exchanged, Paid, MasterSane;
    StepConserved(s, s', k);
    if k < |s.lanes| {
      RecvLane(s, buf);
    }
    StepSane(s, s', k);
  }

  lemma RecvPaid<T>(s: State<T>, buf: Buf)
    requires s.master.Polling? || s.master.TookReply?
    ensures forall j :: 0 <= j < |s.lanes| && j != s.master.i ==> (Paid(MasterStep(s, buf).master, j) ==> Paid(s.master, j))
    ensures MasterSane(s) ==> MasterSane(MasterStep(s, buf))
    ensures |MasterStep(s, buf).lanes| == |s.lanes|
  {
  }

  lemma RecvTasks<T>(s: State<T>, buf: Buf)
    requires (s.master.Polling? || s.master.TookReply?) && s.master.i < |s.lanes|
    requires LaneSane(s, s.master.i) && Conserved(MasterStep(s, buf)) && OnlyAt(s, MasterStep(s, buf), s.master.i)
    ensures var k, s' := s.master.i, MasterStep(s, buf);
            && (forall i :: 0 <= i < |s'.lanes[k].tasks| ==> HoldsTask(s', s'.lanes[k].tasks[i]))
            && (s'.lanes[k].phase.TookTask? ==> HoldsTask(s', s'.lanes[k].phase.b))
  {
    var k, s' := s.master.i, MasterStep(s, buf);
    var l, l' := s.lanes[k], s'.lanes[k];
    assert l'.tasks == l.tasks && l'.phase == l.phase;
    hide MasterStep, Conserved, OnlyAt, HoldsTask;
    forall i | 0 <= i < |l'.tasks|
      ensures HoldsTask(s', l'.tasks[i])
    {
      InTasks(l'.tasks, i);
      TaskKept(s, s', k, l'.tasks[i]);
    }
    if l.phase.TookTask? {
      TaskKept(s, s', k, l.phase.b);
    }
  }

  lemma RecvRings<T>(s: State<T>, buf: Buf)
    requires (s.master.Polling? || s.master.TookReply?) && s.master.i < |s.lanes| && LaneSane(s, s.master.i)
    ensures var l := MasterStep(s, buf).lanes[s.master.i];
            && |l.tasks| <= RING_CAPACITY && |l.replies| <= RING_CAPACITY
            && (l.phase.ReplyLost? ==>
                  |l.tasks| + |l.replies| >= RING_CAPACITY - 1 + One(Paid(MasterStep(s, buf).master, s.master.i)))
  {
    hide HoldsTask;
  }

  // the workers

  lemma WorkLane<T>(s: State<T>, j: nat, buf: Buf)
    requires j < |s.lanes| && LaneSane(s, j) && Conserved(WorkerStep(s, j, buf)) && OnlyAt(s, WorkerStep(s, j, buf), j)
    ensures LaneSane(WorkerStep(s, j, buf), j)
  {
    WorkTasks(s, j, buf);
    WorkRings(s, j, buf);
    WorkerAlone(s, j, buf);
    hide WorkerStep, Conserved, OnlyAt, HoldsTask;
  }

  lemma WorkMaster<T>(s: State<T>, j: nat, buf: Buf)
    requires j < |s.lanes| && MasterSane(s) && Conserved(s)
    requires Conserved(WorkerStep(s, j, buf)) && OnlyAt(s, WorkerStep(s, j, buf), j)
    ensures MasterSane(WorkerStep(s, j, buf))
  {
    var s' := WorkerStep(s, j, buf);
    WorkerAlone(s, j, buf);
    hide WorkerStep, Conserved, OnlyAt, HoldsTask;
    if s.master.SendReady? {
      if s.master.i == j {
        TaskKept(s, s', j, s.master.b);
      } else {
        TaskStill(s, s', j, s.master.i, s.master.b);
      }
    }
  }

  lemma WorkSane<T>(s: State<T>, j: nat, buf: Buf)
    requires Sane(s) && j < |s.lanes| && (s.pool != {} ==> buf in s.pool)
    ensures Sane(WorkerStep(s, j, buf))
  {
    var l, s' := s.lanes[j], WorkerStep(s, j, buf);
    if l.phase.TookTask? || l.phase.ReplyLost? {
      OutApart(s, j, l.phase.b);
    }
    WorkMoves(s, j, buf);
    WorkOnly(s, j, buf);
    hide Conserved, OnlyAt, LaneSane, WorkerStep, Exchanged, Paid, MasterSane;
    StepConserved(s, s', j);
    WorkLane(s, j, buf);
    WorkMaster(s, j, buf);
    WorkerAlone(s, j, buf);
    StepSane(s, s', j);
  }

  lemma WorkerAlone<T>(s: State<T>, j: nat, buf: Buf)
    requires j < |s.lanes|
    ensures WorkerStep(s, j, buf).master == s.master && |WorkerStep(s, j, buf).lanes| == |s.lanes|
  {
  }

  lemma WorkTasks<T>(s: State<T>, j: nat, buf: Buf)
    requires j < |s.lanes| && LaneSane(s, j) && Conserved(WorkerStep(s, j, buf)) && OnlyAt(s, WorkerStep(s, j, buf), j)
    ensures var s' := WorkerStep(s, j, buf);
            && (forall i :: 0 <= i < |s'.lanes[j].tasks| ==> HoldsTask(s', s'.lanes[j].tasks[i]))
            && (s'.lanes[j].phase.TookTask? ==> HoldsTask(s', s'.lanes[j].phase.b))
  {
    var s' := WorkerStep(s, j, buf);
    var l, l' := s.lanes[j], s'.lanes[j];
    assert l'.tasks == l.tasks || (l.tasks != [] && l'.tasks == l.tasks[1..]);
    assert l'.phase.TookTask? ==> l.phase.Idle? && l.tasks != [] && l'.phase.b == l.tasks[0];
    hide WorkerStep, Conserved, OnlyAt, HoldsTask;
    forall i | 0 <= i < |l'.tasks|
      ensures HoldsTask(s', l'.tasks[i])
    {
      InTasks(l'.tasks, i);
      TaskKept(s, s', j, l'.tasks[i]);
    }
    if l'.phase.TookTask? {
      TaskKept(s, s', j, l'.phase.b);
    }
  }

  lemma WorkRings<T>(s: State<T>, j: nat, buf: Buf)
    requires j < |s.lanes| && LaneSane(s, j)
    ensures var l := WorkerStep(s, j, buf).lanes[j];
            && |l.tasks| <= RING_CAPACITY && |l.replies| <= RING_CAPACITY
            && (l.phase.ReplyLost? ==> |l.tasks| + |l.replies| >= RING_CAPACITY - 1 + One(Paid(s.master, j)))
  {
    hide HoldsTask;
  }

  lemma NextSane<T>(s: State<T>, ev: Event)
    requires Sane(s) && Enabled(s, ev)
    ensures Sane(Next(s, ev))
  {
    hide Sane, WorkerStep;
    if ev.ByWorker? {
      WorkSane(s, ev.j, ev.buf);
    } else if s.master.Polling? || s.master.TookReply? {
      RecvSane(s, ev.buf);
    } else if !s.master.Returned? {
      SendSane(s, ev.buf);
    }
  }

  // ----- sessions

  datatype Happening<T> = Step(ev: Event) | Call(t: T)

  /** s' is reached from s by steps of master and workers, and new calls whenever the last has returned. */
  ghost predicate Session<T>(s: State<T>, hs: seq<Happening<T>>, s': State<T>)
    decreases |hs|
  {
    if hs == [] then s' == s
    else match hs[0]
      case Step(ev) => Enabled(s, ev) && Session(Next(s, ev), hs[1..], s')
      case Call(t) => s.master.Returned? && Session(NewCall(s, t), hs[1..], s')
  }

  /** Before the first call. */
  ghost predicate Boot<T>(s: State<T>) {
    s.master.Returned? && AllClear(s) && s.pool == s.buffers && Ample(s)
  }

  lemma {:induction false} OutOfClear<T>(s: State<T>, n: nat, b: Buf)
    requires AllClear(s) && s.master.Returned? && n <= |s.lanes|
    ensures Out(s, n, b) == 0
  {
    if n > 0 {
      OutOfClear(s, n - 1, b);
      assert Clear(s.lanes[n - 1]);
    }
  }

  lemma BootSane<T>(s: State<T>)
    requires Boot(s)
    ensures Sane(s)
  {
    forall b: Buf
      ensures One(b in s.pool) + Out(s, |s.lanes|, b) == One(b in s.buffers)
    {
      OutOfClear(s, |s.lanes|, b);
    }
    forall j | 0 <= j < |s.lanes|
      ensures LaneSane(s, j)
    {
      assert Clear(s.lanes[j]);
    }
  }

  lemma {:induction false} OutOfCall<T>(s: State<T>, t: T, n: nat, b: Buf)
    requires s.master.Returned? && n <= |s.lanes|
    ensures Out(NewCall(s, t), n, b) == Out(s, n, b)
  {
    hide At;
    if n > 0 {
      OutOfCall(s, t, n - 1, b);
      AtOfCall(s, t, n - 1, b);
    }
  }

  lemma AtOfCall<T>(s: State<T>, t: T, j: nat, b: Buf)
    requires s.master.Returned? && j < |s.lanes|
    ensures At(NewCall(s, t), j, b) == At(s, j, b)
  {
  }

  lemma CallSane<T>(s: State<T>, t: T)
    requires Sane(s) && s.master.Returned?
    ensures Sane(NewCall(s, t))
  {
    var s' := NewCall(s, t);
    forall b: Buf
      ensures One(b in s'.pool) + Out(s', |s'.lanes|, b) == One(b in s'.buffers)
    {
      OutOfCall(s, t, |s.lanes|, b);
      assert One(b in s.pool) + Out(s, |s.lanes|, b) == One(b in s.buffers);
    }
    hide Conserved;
    forall j | 0 <= j < |s'.lanes|
      ensures LaneSane(s', j)
    {
      assert LaneSane(s, j);
    }
  }

  lemma {:induction false} SessionSane<T>(s: State<T>, hs: seq<Happening<T>>, s': State<T>)
    requires Sane(s) && Session(s, hs, s')
    ensures Sane(s')
    decreases |hs|
  {
    hide Sane;
    if hs != [] {
      match hs[0] {
        case Step(ev) =>
          NextSane(s, ev);
          SessionSane(Next(s, ev), hs[1..], s');
        case Call(t) =>
          CallSane(s, t);
          SessionSane(NewCall(s, t), hs[1..], s');
      }
    }
  }

  /** A call that starts with every worker clear starts as Messages.Start says. */
  lemma ClearStarts<T>(s: State<T>, t: T)
    requires Sane(s) && s.master.Returned? && AllClear(s)
    ensures Start(NewCall(s, t))
  {
    forall b: Buf
      ensures b in s.pool <==> b in s.buffers
    {
      OutOfClear(s, |s.lanes|, b);
      assert One(b in s.pool) + Out(s, |s.lanes|, b) == One(b in s.buffers);
    }
    forall j | 0 <= j < |s.lanes|
      ensures NewCall(s, t).lanes[j] == Lane([], [], Idle, [], false)
    {
      assert Clear(s.lanes[j]);
    }
  }

  // ----- runs

  lemma {:induction false} ReachesThen<T>(s: State<T>, evs: seq<Event>, s1: State<T>, evs': seq<Event>, s': State<T>)
    requires Reaches(s, evs, s1) && Reaches(s1, evs', s')
    ensures Reaches(s, evs + evs', s')
    decreases |evs|
  {
    if evs == [] {
      assert evs + evs' == evs';
    } else {
      ReachesThen(Next(s, evs[0]), evs[1..], s1, evs', s');
      assert (evs + evs')[1..] == evs[1..] + evs';
    }
  }

  /** A buffer that the pool may hand out. */
  ghost function Any<T>(s: State<T>): (b: Buf)
    ensures s.pool != {} ==> b in s.pool
  {
    if s.pool == {} then 0 else var b :| b in s.pool; b
  }

  /** Nothing has happened but at worker j. */
  ghost predicate OnlyWorker<T>(s: State<T>, s': State<T>, j: nat) {
    && s'.task == s.task && s'.buffers == s.buffers && s'.master == s.master && s'.dequeued == s.dequeued
    && |s'.lanes| == |s.lanes| && forall i :: 0 <= i < |s.lanes| && i != j ==> s'.lanes[i] == s.lanes[i]
  }

  /** Worker j will run task u before it sends its next reply. */
  ghost predicate Pending<T>(s: State<T>, j: nat, u: T)
    requires j < |s.lanes|
  {
    var l := s.lanes[j];
    match l.phase
    case Calling(v) => v == u
    case TookTask(b) => b in s.mem && s.mem[b] == Task(u)
    case Idle => l.tasks != [] && l.tasks[0] in s.mem && s.mem[l.tasks[0]] == Task(u)
    case ReplyLost(_) => l.tasks != [] && l.tasks[0] in s.mem && s.mem[l.tasks[0]] == Task(u)
    case _ => false
  }

  /** Worker j has a reply out or is due to send one. */
  ghost predicate Owes<T>(l: Lane<T>) {
    l.replies != [] || l.tasks != [] || !(l.phase.Idle? || l.phase.ReplyLost?)
  }

  function Rank<T>(p: WPhase<T>): nat {
    match p
    case ReplyReady(_) => 1
    case Replying => 2
    case Calling(_) => 3
    case TookTask(_) => 4
    case Idle => 5
    case ReplyLost(_) => 6
  }

  lemma WorkTowards<T>(s: State<T>, j: nat, buf: Buf)
    requires j < |s.lanes| && LaneSane(s, j) && Owes(s.lanes[j]) && s.lanes[j].replies == []
    requires s.lanes[j].phase.Replying? ==> s.pool != {}
    ensures var s', l := WorkerStep(s, j, buf), s.lanes[j];
            && OnlyWorker(s, s', j) && Owes(s'.lanes[j])
            && (s'.lanes[j].replies != [] || Rank(s'.lanes[j].phase) < Rank(l.phase))
            && s'.lanes[j].ran == l.ran + (if l.phase.Calling? then [l.phase.t] else [])
            && (forall u: T :: Pending(s', j, u) && s'.lanes[j].replies == [] ==> Pending(s, j, u))
            && (l.phase.Calling? ==> s'.lanes[j].phase == Replying)
  {
  }

  /** Left to itself, a worker that owes a reply gets to where one is in its ring. */
  lemma {:induction false} Produce<T>(s: State<T>, j: nat) returns (evs: seq<Event>, s': State<T>, ran: seq<T>)
    requires Sane(s) && j < |s.lanes| && Owes(s.lanes[j])
    ensures Reaches(s, evs, s') && Sane(s') && OnlyWorker(s, s', j) && s'.lanes[j].replies != []
    ensures s'.lanes[j].ran == s.lanes[j].ran + ran && |ran| <= 1 && forall u <- ran :: Pending(s, j, u)
    ensures s.lanes[j].replies != [] ==> s' == s
    decreases Rank(s.lanes[j].phase)
  {
    if s.lanes[j].replies != [] {
      evs, s', ran := [], s, [];
    } else {
      var ev := ByWorker(j, Any(s));
      if s.lanes[j].phase.Replying? {
        BufferThere(s, j);
      }
      assert LaneSane(s, j);
      WorkTowards(s, j, Any(s));
      NextSane(s, ev);
      hide Sane, WorkerStep, LaneSane, Owes, Rank;
      var s1 := Next(s, ev);
      ReachesNone(s1);
      if s1.lanes[j].replies != [] {
        ReachesBefore(s, ev, [], s1);
        evs, s', ran := [ev], s1, [];
      } else {
        var evs1, ran1;
        evs1, s', ran1 := Produce(s1, j);
        ReachesBefore(s, ev, evs1, s');
        evs, ran := [ev] + evs1, if s.lanes[j].phase.Calling? then [s.lanes[j].phase.t] else ran1;
        if s.lanes[j].phase.Calling? && ran1 != [] {
          FirstPending(s1, j, ran1);
          assert false;
        }
      }
    }
  }

  lemma FirstPending<T>(s: State<T>, j: nat, ran: seq<T>)
    requires j < |s.lanes| && ran != [] && forall u <- ran :: Pending(s, j, u)
    ensures Pending(s, j, ran[0])
  {
  }

  /** A task has been sent to l, or its ring was full; nothing else has changed there. */
  ghost predicate Tasked<T>(l: Lane<T>, l': Lane<T>) {
    l'.tasks != [] && l' == l.(tasks := l'.tasks)
  }

  ghost predicate SameCall<T>(s: State<T>, s': State<T>) {
    s'.task == s.task && s'.buffers == s.buffers && |s'.lanes| == |s.lanes|
  }

  /** The buffer goes into the worker's ring, or back to the pool when that is full. */
  lemma SendRest<T>(s: State<T>) returns (evs: seq<Event>, s': State<T>)
    requires Sane(s) && s.master.SendReady? && s.master.i < |s.lanes|
    ensures Reaches(s, evs, s') && Sane(s') && SameCall(s, s') && s'.master == Sending(s.master.i + 1)
    ensures Tasked(s.lanes[s.master.i], s'.lanes[s.master.i])
    ensures forall j :: 0 <= j < |s.lanes| && j != s.master.i ==> s'.lanes[j] == s.lanes[j]
  {
    var e1 := ByMaster(Any(s));
    NextSane(s, e1);
    var s1 := Next(s, e1);
    hide Sane, Any, Reaches;
    if s1.master.SendLost? {
      var e2 := ByMaster(Any(s1));
      NextSane(s1, e2);
      s' := Next(s1, e2);
      ReachesNone(s');
      ReachesBefore(s1, e2, [], s');
      evs := [e2];
    } else {
      s' := s1;
      ReachesNone(s');
      evs := [];
    }
    ReachesBefore(s, e1, evs, s');
    evs := [e1] + evs;
  }

  lemma SendOne<T>(s: State<T>) returns (evs: seq<Event>, s': State<T>)
    requires Sane(s) && s.master.Sending? && s.master.i < |s.lanes|
    ensures Reaches(s, evs, s') && Sane(s') && SameCall(s, s') && s'.master == Sending(s.master.i + 1)
    ensures Tasked(s.lanes[s.master.i], s'.lanes[s.master.i])
    ensures forall j :: 0 <= j < |s.lanes| && j != s.master.i ==> s'.lanes[j] == s.lanes[j]
  {
    BufferThere(s, |s.lanes|);
    var e0 := ByMaster(Any(s));
    NextSane(s, e0);
    hide Sane, Reaches;
    evs, s' := SendRest(Next(s, e0));
    ReachesBefore(s, e0, evs, s');
    evs := [e0] + evs;
  }

  /** The master's sends, one after the other, while the workers stand still. */
  lemma {:induction false} SendAll<T>(s: State<T>) returns (evs: seq<Event>, s': State<T>)
    requires Sane(s) && s.master.Sending?
    ensures Reaches(s, evs, s') && Sane(s') && SameCall(s, s') && s'.master == Polling(0, 0, 0)
    ensures forall j :: s.master.i <= j < |s.lanes| ==> Tasked(s.lanes[j], s'.lanes[j])
    ensures forall j :: 0 <= j < |s.lanes| && j < s.master.i ==> s'.lanes[j] == s.lanes[j]
    decreases |s.lanes| - s.master.i
  {
    if s.master.i < |s.lanes| {
      var evs0, s0 := SendOne(s);
      hide Sane, Reaches, Tasked;
      evs, s' := SendAll(s0);
      ReachesThen(s, evs0, s0, evs, s');
      evs := evs0 + evs;
    } else {
      var ev := ByMaster(Any(s));
      NextSane(s, ev);
      s' := Next(s, ev);
      ReachesNone(s');
      ReachesBefore(s, ev, [], s');
      evs := [ev];
    }
  }

  lemma TakeOne<T>(s: State<T>) returns (evs: seq<Event>, s': State<T>)
    requires Sane(s) && s.master.Polling? && s.master.i < |s.lanes| && s.lanes[s.master.i].replies != []
    ensures Reaches(s, evs, s') && Sane(s') && SameCall(s, s')
    ensures s'.master == Polling(s.master.i + 1, 0, s.master.res + 1)
    ensures var l, l' := s.lanes[s.master.i], s'.lanes[s.master.i]; l'.tasks == l.tasks && l'.ran == l.ran
    ensures forall j :: 0 <= j < |s.lanes| && j != s.master.i ==> s'.lanes[j] == s.lanes[j]
  {
    var e0 := ByMaster(Any(s));
    NextSane(s, e0);
    var s1 := Next(s, e0);
    var e1 := ByMaster(Any(s1));
    NextSane(s1, e1);
    s' := Next(s1, e1);
    hide Sane, Any;
    ReachesNone(s');
    ReachesBefore(s1, e1, [], s');
    ReachesBefore(s, e0, [e1], s');
    evs := [e0] + [e1];
  }

  /** Every worker still to be polled owes a reply, and worker k has one in its ring: the call returns 1. */
  lemma {:induction false} ReceiveAll<T>(s: State<T>, k: nat) returns (evs: seq<Event>, s': State<T>)
    requires Sane(s) && s.master.Polling? && s.master.res == s.master.i && k < |s.lanes|
    requires forall j :: s.master.i <= j < |s.lanes| ==> Owes(s.lanes[j])
    requires k >= s.master.i ==> s.lanes[k].replies != []
    ensures Reaches(s, evs, s') && SameCall(s, s') && s'.master == Returned(1)
    ensures s'.lanes[k].tasks == s.lanes[k].tasks && s'.lanes[k].ran == s.lanes[k].ran
    decreases |s.lanes| - s.master.i
  {
    var i := s.master.i;
    if i < |s.lanes| {
      var evs0, s0, _ := Produce(s, i);
      assert i == k ==> s0 == s;
      hide Sane, Reaches, Owes;
      var evs1, s1 := TakeOne(s0);
      ReachesThen(s, evs0, s0, evs1, s1);
      evs, s' := ReceiveAll(s1, k);
      ReachesThen(s, evs0 + evs1, s1, evs, s');
      evs := evs0 + evs1 + evs;
    } else {
      var ev := ByMaster(Any(s));
      s' := Next(s, ev);
      ReachesNone(s');
      ReachesBefore(s, ev, [], s');
      evs := [ev];
    }
  }

  // ----- when 1 can be trusted

  /** Every run of the call that returns 1 leaves each worker having run task t, once, and clear. */
  ghost predicate Trusted<T(!new)>(s: State<T>, t: T)
    requires s.master.Returned?
  {
    forall evs, s' | Reaches(NewCall(s, t), evs, s') && s'.master == Returned(1) ::
      forall j :: 0 <= j < |s'.lanes| ==> s'.lanes[j] == Lane([], [], Idle, [t], true)
  }

  /** Every run of the call that returns 1 has each worker run task t and nothing else, once. */
  ghost predicate RunsTask<T(!new)>(s: State<T>, t: T)
    requires s.master.Returned?
  {
    forall evs, s' | Reaches(NewCall(s, t), evs, s') && s'.master == Returned(1) ::
      forall j :: 0 <= j < |s'.lanes| ==> s'.lanes[j].ran == [t]
  }

  lemma UnclearOwes<T>(s: State<T>, k: nat)
    requires k < |s.lanes| && LaneSane(s, k) && !Clear(s.lanes[k])
    ensures Owes(s.lanes[k])
  {
    hide HoldsTask, Paid;
  }

  /** A worker left unclear can answer the next call, which returns 1 before that worker has run the task. */
  lemma Misled<T>(s: State<T>, t: T, k: nat) returns (evs: seq<Event>, s': State<T>)
    requires Sane(s) && s.master.Returned? && k < |s.lanes| && !Clear(s.lanes[k])
    ensures Reaches(NewCall(s, t), evs, s') && s'.master == Returned(1) && |s'.lanes| == |s.lanes|
    ensures s'.lanes[k].tasks != [] && (t in s'.lanes[k].ran ==> Pending(s, k, t))
  {
    var s0 := NewCall(s, t);
    CallSane(s, t);
    assert LaneSane(s, k);
    UnclearOwes(s, k);
    assert forall u: T :: Pending(s0, k, u) ==> Pending(s, k, u);
    assert s0.lanes[k].ran == [] && s0.master == Sending(0) && Owes(s0.lanes[k]);
    hide Sane, Reaches, NewCall, Pending;
    var evs0, s1, ran := Produce(s0, k);
    var evs1, s2 := SendAll(s1);
    assert forall j :: 0 <= j < |s2.lanes| ==> Tasked(s1.lanes[j], s2.lanes[j]) && Owes(s2.lanes[j]);
    var evs2;
    evs2, s' := ReceiveAll(s2, k);
    ReachesThen(s0, evs0, s1, evs1, s2);
    ReachesThen(s0, evs0 + evs1, s2, evs2, s');
    evs := evs0 + evs1 + evs2;
  }

  lemma ClearTrusted<T>(s: State<T>, t: T, evs: seq<Event>, s': State<T>)
    requires Sane(s) && s.master.Returned? && AllClear(s)
    requires Reaches(NewCall(s, t), evs, s') && s'.master == Returned(1)
    ensures |s'.lanes| == |s.lanes| && forall j :: 0 <= j < |s'.lanes| ==> s'.lanes[j] == Lane([], [], Idle, [t], true)
  {
    ClearStarts(s, t);
    CallsRunOnce(NewCall(s, t), evs, s');
  }

  /** A return of 1 can be trusted if and only if no worker was left with anything to do. */
  lemma TrustedExactly<T(!new)>(s: State<T>, t: T)
    requires Sane(s) && s.master.Returned?
    ensures Trusted(s, t) <==> AllClear(s)
  {
    hide Sane, Reaches, NewCall;
    if AllClear(s) {
      forall evs, s' | Reaches(NewCall(s, t), evs, s') && s'.master == Returned(1)
        ensures forall j :: 0 <= j < |s'.lanes| ==> s'.lanes[j] == Lane([], [], Idle, [t], true)
      {
        ClearTrusted(s, t, evs, s');
      }
    } else {
      var k :| 0 <= k < |s.lanes| && !Clear(s.lanes[k]);
      var evs, s' := Misled(s, t, k);
    }
  }

  /** The same of the callbacks alone, when no worker is about to run an equal task of an earlier call. */
  lemma RunsTaskExactly<T(!new)>(s: State<T>, t: T)
    requires Sane(s) && s.master.Returned? && forall j :: 0 <= j < |s.lanes| ==> !Pending(s, j, t)
    ensures RunsTask(s, t) <==> AllClear(s)
  {
    hide Sane, Reaches, NewCall, Pending;
    if AllClear(s) {
      forall evs, s' | Reaches(NewCall(s, t), evs, s') && s'.master == Returned(1)
        ensures forall j :: 0 <= j < |s'.lanes| ==> s'.lanes[j].ran == [t]
      {
        ClearTrusted(s, t, evs, s');
      }
    } else {
      var k :| 0 <= k < |s.lanes| && !Clear(s.lanes[k]);
      var evs, s' := Misled(s, t, k);
      assert t !in s'.lanes[k].ran;
    }
  }

  /** Over any session: between two calls, the next one can be trusted if and only if all are clear. */
  lemma SessionTrust<T(!new)>(s0: State<T>, hs: seq<Happening<T>>, s: State<T>, t: T)
    requires Boot(s0) && Session(s0, hs, s) && s.master.Returned?
    ensures Trusted(s, t) <==> AllClear(s)
  {
    BootSane(s0);
    SessionSane(s0, hs, s);
    TrustedExactly(s, t);
  }

  /** Trust carries on: a call that began with all clear and returned 1 leaves all clear. */
  lemma TrustCarries<T>(s: State<T>, t: T, evs: seq<Event>, s': State<T>)
    requires Sane(s) && s.master.Returned? && AllClear(s)
    requires Reaches(NewCall(s, t), evs, s') && s'.master == Returned(1)
    ensures Sane(s') && AllClear(s')
  {
    ClearTrusted(s, t, evs, s');
    CallSane(s, t);
    RunSane(NewCall(s, t), evs, s');
  }

  lemma {:induction false} RunSane<T>(s: State<T>, evs: seq<Event>, s': State<T>)
    requires Sane(s) && Reaches(s, evs, s')
    ensures Sane(s')
    decreases |evs|
  {
    hide Sane;
    if evs != [] {
      NextSane(s, evs[0]);
      RunSane(Next(s, evs[0]), evs[1..], s');
    }
  }

  // ----- how trust is lost

  /** The master polls in vain while the workers stand still. */
  lemma {:induction false} PollOut<T>(s: State<T>) returns (evs: seq<Event>, s': State<T>)
    requires Sane(s) && s.master.Polling? && forall j :: s.master.i <= j < |s.lanes| ==> s.lanes[j].replies == []
    ensures Reaches(s, evs, s') && Sane(s') && s'.lanes == s.lanes && s'.mem == s.mem
    ensures s'.master == Returned(if s.master.res == |s.lanes| then 1 else 0)
    decreases |s.lanes| - s.master.i, POLLS - s.master.count
  {
    var ev := ByMaster(Any(s));
    NextSane(s, ev);
    var s1 := Next(s, ev);
    ReachesNone(s1);
    if s.master.i == |s.lanes| {
      ReachesBefore(s, ev, [], s1);
      evs, s' := [ev], s1;
    } else {
      var evs1;
      evs1, s' := PollOut(s1);
      ReachesBefore(s, ev, evs1, s');
      evs := [ev] + evs1;
    }
  }

  /** A call of clear workers can give up and leave every one of them with its task still to run. */
  lemma TimesOut<T>(s: State<T>, t: T) returns (evs: seq<Event>, s': State<T>)
    requires Sane(s) && s.master.Returned? && AllClear(s) && s.lanes != []
    ensures Reaches(NewCall(s, t), evs, s') && s'.master == Returned(0) && |s'.lanes| == |s.lanes|
    ensures forall j :: 0 <= j < |s.lanes| ==> s'.lanes[j].tasks != [] && forall u: T :: Pending(s', j, u) <==> u == t
  {
    var s0 := NewCall(s, t);
    CallSane(s, t);
    ClearStarts(s, t);
    StartInv(s0);
    var evs0, s1 := SendAll(s0);
    assert forall j :: 0 <= j < |s1.lanes| ==> Tasked(s0.lanes[j], s1.lanes[j]) && s1.lanes[j].replies == [];
    var evs1;
    evs1, s' := PollOut(s1);
    ReachesThen(s0, evs0, s1, evs1, s');
    evs := evs0 + evs1;
    ReachesInv(s0, evs, s');
    hide Sane, Reaches, LaneInv, Conserved, MasterInv, Pending;
    forall j | 0 <= j < |s.lanes|
      ensures s'.lanes[j].tasks != [] && forall u: T :: Pending(s', j, u) <==> u == t
    {
      assert Tasked(s0.lanes[j], s1.lanes[j]);
      Waiting(s', j);
    }
  }

  /** A task in the ring is the one to run next. */
  lemma Waiting<T>(s: State<T>, j: nat)
    requires j < |s.lanes| && LaneInv(s, j) && s.lanes[j].tasks != []
    ensures forall u: T :: Pending(s, j, u) <==> u == s.task
  {
  }

  lemma {:induction false} SessionOf<T>(s: State<T>, evs: seq<Event>, s': State<T>)
    requires Reaches(s, evs, s')
    ensures Session(s, seq(|evs|, i requires 0 <= i < |evs| => Step(evs[i])), s')
    decreases |evs|
  {
    if evs != [] {
      var rest := evs[1..];
      SessionOf(Next(s, evs[0]), rest, s');
      var hs: seq<Happening<T>> := seq(|evs|, i requires 0 <= i < |evs| => Step(evs[i]));
      assert hs[1..] == seq(|rest|, i requires 0 <= i < |rest| => Step(rest[i]));
    }
  }

  /**
   A stale reply: after a first call has given up, a second one can return 1 on the strength of the
   first one's reply, with its own task still waiting in the ring.
   */
  lemma StaleReply<T>(s: State<T>, t0: T, t1: T)
    returns (hs: seq<Happening<T>>, mid: State<T>, evs: seq<Event>, s': State<T>)
    requires Boot(s) && s.lanes != [] && t0 != t1
    ensures Session(s, hs, mid) && mid.master == Returned(0) && |mid.lanes| == |s.lanes| == |s'.lanes|
    ensures Reaches(NewCall(mid, t1), evs, s') && s'.master == Returned(1)
    ensures t1 !in s'.lanes[0].ran && s'.lanes[0].tasks != []
  {
    BootSane(s);
    var evs0;
    evs0, mid := TimesOut(s, t0);
    var steps: seq<Happening<T>> := seq(|evs0|, i requires 0 <= i < |evs0| => Step(evs0[i]));
    SessionOf(NewCall(s, t0), evs0, mid);
    hs := [Call(t0)] + steps;
    assert hs[1..] == steps;
    CallSane(s, t0);
    RunSane(NewCall(s, t0), evs0, mid);
    assert Pending(mid, 0, t1) <==> t1 == t0;
    hide Sane, Reaches, NewCall, Pending;
    evs, s' := Misled(mid, t1, 0);
  }
}
