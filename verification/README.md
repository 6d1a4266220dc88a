# FlowQoS: a model of its stateful core

FlowQoS tracks connections on worker cores, forwards their packets in software, and moves those that
live long enough into a bounded hardware table. This project models the parts that hold state, in the
form the source gives them, and proves what they promise over all inputs and all runs.

| file | what it models |
|---|---|
| `TimerSpec`, `TimerWheel` | the two-level timing wheel on intrusive circular lists, refining a timer-to-deadline map; the number of buckets per wheel is a parameter |
| `QosSpec`, `QosTokens`, `QosWaiting`, `Qos` | the weighted priority scheduler: one round, tokens and congestion hysteresis, waiting times and rate, the per-core context |
| `Filter` | the adaptive offload filter and its thresholds |
| `Rules` | entries, packets, and the compilation of an entry to a hardware rule |
| `ConntrackSpec`, `Conntrack` | the life of connection contexts: a state machine with its invariant, and the in-place code of a worker that makes exactly its steps |
| `Snat`, `Gateway` | source address translation, and the translation behind a tracker |
| `LoadBalancer` | the load balancer's turns and counters, and the balancer behind a tracker |
| `Messages`, `Sessions` | the task protocol between master and workers as interleaved atomic steps: one call, and any number of calls |
| `PipesManager` | the three tables of the pipes manager |
| `Sequences`, `DivMod` | lists, sizes of collections, and division |

The layers meet as follows. `TimerWheel` refines the map of `TimerSpec`, and the worker of `Conntrack`
is built on that map. `Worker.DoEntryEvent` is proved against `QosSpec.Plan`, about which the
scheduling properties are proved. Every method of `Worker` that changes state says which steps of
`ConntrackSpec` it makes and records them, so by `Worker.EveryRun` what is proved there about every run
holds of every sequence of calls. `LoadBalancer.Site` and `Gateway.Site` put an application's handlers
behind a tracker that runs any events, and relate what the application keeps to the live connections.

Assumptions, stated as preconditions or built into the types:

- There is one worker core per tracker, so events do not overlap. `apps/flowQoS_snat.c:360` insists on this.
- A hash table is a finite map that may refuse a new key, a mempool a finite set, and a rule is added
  to or removed from the hardware at once or not at all. Their answers are parameters. A poll of the
  hardware reports installed rules, each once.
- The action flags of a port are not AGING alone: the test at `src/flowQoS_conntrack.c:296` is an
  exclusive or, so such a connection would have no timer.
- A connection's expireTime * 1000 is at most TIMER_MAX_TIMEOUT, and an entry's rule is installed
  with the pipe flags it was admitted with.
- Timer callbacks touch no other timer. The wheel's clock stays B * B below 2^64 ticks, and the time
  stamp that a tick waits for does not overflow.
- The CPU frequency is positive and below 2^40 Hz, operator values fit a C int, and limit * 80 fits an int.
- The filter's congestion handler is registered whenever FlowQoS is enabled, as
  `src/flowQoS_conntrack.c:781` does.
- Counters that only report (FILTER_ENQUEUED_TOTAL, total, finished, pktCount) are unbounded.

Where the code and its comments or intent disagree, the model follows the code:

- `pipes_manager_pipe_add_entry` looks for a duplicate under the address bytes of a pointer
  (`src/common/src/flow_pipes_manager.c:298`), so duplicates are not refused. `PipeAddEntry` says
  exactly when the tables still match.
- The adapters take an aging time that is not positive as a C int for a template
  (`src/flowQoS_pipe.c:101-136`). `HardwareRefinesExactly` gives the condition.
- The software modifier requests a layer 4 checksum only when a port changes
  (`src/flowQoS_conntrack.c:643-652`). `L4ChecksumFresh` gives the condition.
- Round robin is disturbed when the 32-bit counter wraps unless the number of servers divides 2^32.
  `BalancedForever` gives the condition.
- A message call that returns 1 promises that every worker has run its task. After a call that gave up
  the next one may return 1 on a stale reply: `Sessions.StaleReply` has the runs, and
  `Sessions.TrustedExactly` the condition, that no worker still has a message in its rings or is in the
  middle of a task. The pool is taken to have more buffers than rings and hands can hold, as the
  program's 112 are for its 7 workers.

## Model

| member | source | states |
|---|---|---|
| TimerSpec.FiresExactlyAtDeadline | src/flowQoS_timer.c:54-89 | over any run of add, delete, reset and tick, a one-shot timer that nobody touches runs its callback in the tick whose time is its deadline, in no other, and is disarmed from then on |
| TimerSpec.FiresEveryInterval | src/flowQoS_timer.c:103-115 | a repeating timer that nobody touches runs exactly at its deadline and at every whole number of intervals after it |
| TimerSpec.IdleNeverFires | src/flowQoS_timer.c:92-101 | a timer that is not armed, and that no call names, never runs |
| TimerSpec.FiresAfterDelay | src/flowQoS_timer.c:54-90 | a timer started or reset with a legal delay and then left alone runs in the tick exactly delay ticks later, and in no other, whatever the rest of the run does |
| TimerSpec.RepeatsAfterDelay | src/flowQoS_timer.c:103-115 | one started with a repeat interval runs delay ticks later and every interval from then on, and at no other time |
| TimerSpec.StaysSilent | src/flowQoS_timer.c:92-126 | one that is stopped, reset with too long a delay, or idle and refused, never runs again until it is named |
| TimerWheel.TimerMgr.RunAll | src/flowQoS_timer.c:54-173 | a whole run of calls on the wheel ends in the timer-to-deadline map, and runs tick by tick exactly the callbacks, that the map alone would: the wheel refines the map |
| TimerWheel.TimerMgr.Perform | src/flowQoS_timer.c:54-173 | one call on the wheel does to the map what the map's own operation does |
| TimerWheel.TimerMgr.Tick | src/flowQoS_timer.c:146-173 | a tick runs each timer due now once and no other, rearms those with a legal repeat, and leaves every other timer armed as it was |
| TimerWheel.TimerMgr.PollTick | src/flowQoS_timer.c:194-201 | a tick, and so any callback, happens only when the time stamp counter is past startStmp + timeout * GAP |
| TimerWheel.TimerMgr.Start | src/flowQoS_timer.c:54-90 | rejects a null callback or a timeout above TIMER_MAX_TIMEOUT and then changes nothing; otherwise arms exactly this timer and returns 0, never -2 |
| TimerWheel.TimerMgr.Stop | src/flowQoS_timer.c:92-101 | unlinks exactly this timer, and is a no-op on an idle one |
| TimerWheel.TimerMgr.Again | src/flowQoS_timer.c:103-115 | rearms a repeating timer at its interval, or leaves it disarmed when the interval is illegal |
| TimerWheel.TimerMgr.Reset | src/flowQoS_timer.c:117-126 | rearms once at the new delay; a delay that is too long leaves the timer disarmed |
| TimerWheel.TimerMgr.Cascade | src/flowQoS_timer.c:128-144 | drains an upper bucket back into the two wheels without changing the map; afterwards the upper wheel holds only timers to be cascaded later |
| TimerWheel.TimerMgr.CascadeOne | src/flowQoS_timer.c:135-141 | one reinsertion: the deadline is not in the past, and the timer does not land in the bucket being drained |
| TimerWheel.CascadeBlock | src/flowQoS_timer.c:128-144 | the upper bucket drained at a multiple of B holds exactly the timers of that block, with up to 2B - 2 ticks left the first time and fewer than B the second |
| TimerWheel.CascadeTarget | src/flowQoS_timer.c:70-84 | the slot chosen for a legal delay during a cascade is never the one being drained nor one cascaded before |
| TimerWheel.AgainTarget | src/flowQoS_timer.c:164-169 | a rearmed timer never lands in the bucket that the current tick is traversing |
| TimerWheel.FindSlot | src/flowQoS_timer.c:70-84 | the search over the wheels ends at a wheel that exists, for every legal timeout |
| TimerWheel.LegalDelays | src/flowQoS_timer.h:24-25 | a delay is legal exactly if two wheels are enough for it |
| TimerWheel.ClampedDeadline | src/flowQoS_timer.c:60-64 | the 64-bit deadline saturates instead of wrapping |
| TimerWheel.TimerMgr.MovedAtMostTwice | src/flowQoS_timer.c:128-144 | no armed timer has been moved by more than two cascades |
| TimerWheel.TimerMgr.NothingDue | src/flowQoS_timer.c:160-171 | when the tick ends, no timer with the current deadline is left anywhere in the wheels |
| TimerWheel.Bucket.Append | src/flowQoS_timer.c:84-88 | linking before the sentinel keeps a circular doubly linked list and adds the node at its end |
| TimerWheel.Bucket.Remove | src/flowQoS_timer.c:94-99 | bypassing a node keeps a circular doubly linked list of exactly the other nodes |
| QosSpec.PlanFifo | src/flowQoS_qos.c:105-146 | a round takes from each queue its oldest entries, min(weight, length, tokens left at that point) of them |
| QosSpec.PlanLength | src/flowQoS_qos.c:109-112 | a round serves the whole weighted demand or every token |
| QosSpec.PlanPriority | src/flowQoS_qos.c:105 | a queue cut short by tokens leaves nothing for lower priorities |
| QosSpec.TokensEnough | src/flowQoS_qos.c:111 | with a token for each unit of weight no queue is cut short by tokens |
| QosSpec.UnderwayTake | src/flowQoS_qos.c:109-146 | offloading the head of the current queue advances the round along its plan |
| Conntrack.Worker.DoEntryEvent | src/flowQoS_qos.c:99-151 | a round that is due offloads exactly its plan, or after a failed add the prefix before it, with the failing entry still at its queue's head, 0 returned and the round due again; a complete round is the round of QosWaiting; a round that is not due does nothing. The congestion handler is called once, doubling the time threshold, exactly if the round takes occupancy to 80 percent of the limit with the flag down or lowered by the round; the flag is then up exactly at or above 80 percent |
| Conntrack.Worker.OffloadHeadOf | src/flowQoS_qos.c:114-143 | one entry of a round: on success the head of the queue becomes HW_FWD with its rule installed, timer gone and one token used; on failure nothing changes |
| Qos.QosContext.constructor | src/flowQoS_qos.c:260-283 | an empty context with every token free |
| Qos.QosContext.AddEntryEvent | src/flowQoS_qos.c:66-71 | appends the entry to exactly its queue and counts it: the arrival of QosWaiting |
| Qos.QosContext.DelEntryEvent | src/flowQoS_qos.c:73-76 | removes exactly this entry from its queue, keeping total = finished + queued + aged: the departure of QosWaiting |
| Qos.QosContext.ReturnEntryEvent | src/flowQoS_qos.c:78-85 | gives one token back, or stays at the limit when none is out |
| Qos.QosContext.Finish | src/flowQoS_qos.c:126-145 | accounting of one offload: one token less, finished counted, head removed; the flag is up afterwards exactly if limit - maxEntry has reached limit * 80 / 100, and if that raised it the handler doubles the time threshold, up to its maximum; the call is the event of the context's run that QosTokens.AlarmExactly speaks of |
| QosTokens.AlarmAtWatermark | src/flowQoS_qos.c:129-139 | with a limit of at least 2, every call of the congestion handler happens with occupied exactly equal to the watermark |
| QosTokens.AlarmExactly | src/flowQoS_qos.c:129-139 | over any legal run with a limit of at least 2, an event calls the handler if and only if it takes occupancy to the watermark at the end of a climb from empty, or from at most the watermark minus two: never missed, never otherwise |
| QosTokens.OneCallPerClimb | src/flowQoS_qos.c:129-139 | each such climb, up to the first point at the watermark, contains exactly one call, by its last event |
| QosTokens.Hysteresis | src/flowQoS_qos.c:131-139 | between two calls of the handler occupancy fell to at most the watermark minus two, so at least two entries were returned |
| QosTokens.RunBounded | src/flowQoS_qos.c:78-85 | over every legal run tokens stay between 0 and the limit, and while the flag is down occupancy is below the watermark |
| QosWaiting.RoundServesPlan | src/flowQoS_qos.c:105-146 | after a round each queue is what its plan did not take |
| QosWaiting.Progress | src/flowQoS_qos.c:103-149 | each completed round moves a queued entry forward by its queue's weight or serves it |
| QosWaiting.NoStarvation | src/flowQoS_qos.c:103-149 | with enough tokens, an entry at position k of a queue of weight w >= 1 is served or aged within ceil((k+1)/w) rounds, whatever else happens |
| QosWaiting.RateBound | src/flowQoS_qos.c:102-148 | whatever arrives, ages and is polled, with a clock that does not run backwards and no failed add, any window of L cycles sees at most (sum of weights) * (L/(gap+1) + 1) offloads of the plans of the rounds run |
| QosWaiting.RoundBound | src/flowQoS_qos.c:107-111 | a round offloads at most the sum of the weights |
| QosWaiting.RoundLeaves | src/flowQoS_qos.c:105-146 | queues from which the whole plan has been taken are those a round leaves |
| Filter.RunInRange | src/flowQoS_conntrack.c:446-489 | every interleaving of tuning windows, congestion callbacks and operator commands keeps MIN <= threshold <= MAX |
| Filter.QuietWindows | src/flowQoS_conntrack.c:470-474 | n windows without overload lower the threshold by n * delta, stopping at MIN |
| Filter.ReachesMin | src/flowQoS_conntrack.c:470-474 | with delta > 0 the threshold is at MIN after n quiet windows if and only if n >= ceil((threshold - MIN) / delta) |
| Filter.BusyWindows | src/flowQoS_conntrack.c:463-468 | n overloaded windows raise the threshold by n * delta, stopping at MAX |
| Filter.ReachesMax | src/flowQoS_conntrack.c:463-468 | with delta > 0 the threshold is at MAX after n overloaded windows if and only if n >= ceil((MAX - threshold) / delta) |
| Filter.QuietUndoesBusy | src/flowQoS_conntrack.c:463-475 | as many quiet windows bring the threshold back to where it was before n overloaded ones if and only if those did not run into MAX, or it was at MIN |
| Filter.NoDeltaNoDecay | src/flowQoS_conntrack.c:470-474 | with delta 0 quiet windows never lower the threshold |
| Filter.Doublings | src/flowQoS_conntrack.c:486-488 | n congestion callbacks multiply the threshold by 2^n, capped at MAX |
| Filter.ZeroIsStuck | src/flowQoS_conntrack.c:486-488 | congestion eventually raises the threshold to MAX if and only if it is not 0 (or MAX is 0); 0 is a fixed point |
| Filter.ConnFilter.RuntimeTune | src/flowQoS_conntrack.c:446-479 | when a window has lasted a second by the 64-bit time stamps, the threshold rises by delta up to MAX if more than maxOffloadSpeed connections a second were enqueued (in 64-bit arithmetic), and falls by delta down to MIN if not, and a new window begins; otherwise only a missing window start changes |
| Filter.ConnFilter.CongestionCb | src/flowQoS_conntrack.c:481-489 | doubles the threshold up to MAX, if FlowQoS is enabled |
| Filter.ConnFilter.TuneFilter | src/flowQoS_conntrack.c:805-834 | the threshold and MIN become what the operator asks in microseconds, capped at MAX, and so do delta, the packet threshold and the speed; a negative value keeps what there is |
| Filter.ConnFilter.constructor | src/flowQoS_conntrack.c:761-773 | the initial thresholds are in range |
| ConntrackSpec.ReachableInv | src/flowQoS_conntrack.c:260-394 | every interleaving of packets, refreshes, timers, scheduler rounds and hardware aging keeps the invariant: each context is placed in one of four situations, and all totals agree |
| ConntrackSpec.InitialInv | src/flowQoS_conntrack.c:745-800 | the state after initialisation satisfies the invariant |
| ConntrackSpec.NextInv | src/flowQoS_conntrack.c:260-556 | each single event keeps the invariant |
| ConntrackSpec.ExactlyOneSituation | src/flowQoS_conntrack.c:61-66 | a context is free, SW_FWD, FLOW_QOS or HW_FWD, exactly one of them, each with its membership in pool, hash table, timers, queues and hardware |
| ConntrackSpec.NothingDangles | src/flowQoS_conntrack.c:335-394 | no armed timer, queue entry or hardware user_data points to a freed context |
| ConntrackSpec.PoolConserved | src/flowQoS_conntrack.c:335-353 | contexts in the pool and in the hash table add up to the pool size |
| ConntrackSpec.EntriesConserved | src/flowQoS_conntrack.c:532-549 | the installed rules are exactly those of the HW_FWD connections, and with the tokens left (or CT_NUM, without FlowQoS) they add up to the limit |
| ConntrackSpec.QueuedAtMostOnce | src/flowQoS_conntrack.c:519-527 | a connection is queued at most once in its life, and FILTER_ENQUEUED_TOTAL is the sum of the queues' totals |
| ConntrackSpec.LatePacketChangesNothing | src/flowQoS_conntrack.c:654-663 | a software packet of a connection that is already offloaded changes nothing of its state |
| ConntrackSpec.OffloadedPathAgrees | src/flowQoS_conntrack.c:608-725 | the installed rule of an offloaded connection is hit by its packets only, does to them what the software modifier does and sends them out of the other port of the pair; what the pipe does not hit goes to software |
| ConntrackSpec.OffloadedAges | src/flowQoS_pipe.c:273-277 | the rule of an offloaded connection whose action ages carries the expireTime it was admitted with, or 10 for 0 |
| ConntrackSpec.QueueOfPriority | src/flowQoS_conntrack.c:519-523 | a queued connection waits in the queue of the priority it was admitted with modulo 4, and in no other |
| ConntrackSpec.AdmittedAgesOnTime | src/flowQoS_conntrack.c:294-304 | over any run, a connection admitted at tick T and then neither refreshed nor offloaded has its aging callback in tick T + 1000 * expireTime (10 for 0) and in no other, whatever else happens |
| ConntrackSpec.RefreshedAgesOnTime | src/flowQoS_conntrack.c:654-663 | over any run, a software connection last refreshed at tick T and not offloaded since has its aging callback in tick T + 1000 * expireTime and in no other |
| ConntrackSpec.AgesWhenDue | src/flowQoS_conntrack.c:358-373 | at no point of any run has a connection that is left alone aged before the tick its timer is due at, or not aged after it |
| ConntrackSpec.OfferMeans | src/flowQoS_conntrack.c:496-556 | an offered connection goes to the end of the queue of its priority modulo 4, or without the scheduler to the hardware if an entry is left and it accepts, and nowhere else |
| ConntrackSpec.HeadMeans | src/flowQoS_qos.c:114-145 | offloading a head takes it off its queue, installs its rule, stops its timer and uses one token, and changes nothing else |
| ConntrackSpec.AgedExactlyOnce | src/flowQoS_conntrack.c:358-394 | over any run the aging callbacks are as many as the connections that left, each admitted connection is live or has had its callback, never both, and what it was told stays |
| ConntrackSpec.NextLedger | src/flowQoS_conntrack.c:369-371 | an aging event makes exactly one callback and no other event makes one |
| ConntrackSpec.AdmitInv | src/flowQoS_conntrack.c:260-315 | admission keeps the invariant |
| ConntrackSpec.RefreshInv | src/flowQoS_conntrack.c:654-663 | refreshing a software timer keeps the invariant |
| ConntrackSpec.EnqueueInv | src/flowQoS_conntrack.c:519-528 | handing a connection to the scheduler keeps the invariant |
| ConntrackSpec.OffloadHeadInv | src/flowQoS_conntrack.c:496-506 | an offload by the scheduler keeps the invariant, with one token less and one rule more |
| ConntrackSpec.OffloadNowInv | src/flowQoS_conntrack.c:530-550 | an offload without the scheduler keeps the invariant |
| ConntrackSpec.ExpireInv | src/flowQoS_conntrack.c:358-373 | software aging keeps the invariant; only SW_FWD and FLOW_QOS connections age that way |
| ConntrackSpec.AgeInv | src/flowQoS_conntrack.c:375-394 | hardware aging keeps the invariant; only HW_FWD connections age that way, and a token is missing when one is returned |
| ConntrackSpec.AdvanceInv | src/flowQoS_timer.c:171 | the clock may advance once nothing is due |
| ConntrackSpec.PacketSteps | src/flowQoS_conntrack.c:514-663 | what a packet does to its connection is at most an enqueue or an offload, then a refresh |
| ConntrackSpec.OffloadAllRuns | src/flowQoS_qos.c:105-147 | a round of the scheduler is a run of single offload events |
| ConntrackSpec.ExpireAllRuns | src/flowQoS_timer.c:162-170 | the callbacks of a tick are a run of single software-aging events |
| ConntrackSpec.AgeAllRuns | src/flowQoS_pipe.c:309-321 | a poll of aged rules is a run of single hardware-aging events |
| Conntrack.Worker.EveryRun | src/flowQoS_conntrack.c:260-729 | after any sequence of calls the worker is in a state that its recorded history of events leads to from the initial one, with exactly one aging callback for each connection that left |
| ConntrackSpec.Tracker.Record | src/flowQoS_conntrack.c:260-556 | a tracker that makes an enabled event extends its run and keeps the invariant |
| ConntrackSpec.Tracker.Admits | src/flowQoS_conntrack.c:260-315 | admission adds one live connection under a number never used before |
| Conntrack.Worker.constructor | src/flowQoS_conntrack.c:745-803 | a worker that represents an initial state, its queues with the weights 1, 1, 2, 4 |
| Conntrack.Worker.AddConnToHash | src/flowQoS_conntrack.c:260-315 | makes the admission step: the context is in SW_FWD with the entry given, expireTime 10 for 0, and a timer due 1000 * expireTime ticks from now; or changes nothing when the pool is empty or the hash table refuses the key |
| Conntrack.Worker.DelConnFromHash | src/flowQoS_conntrack.c:335-356 | takes the key out and puts the context back |
| Conntrack.Worker.ExpireSw | src/flowQoS_conntrack.c:358-373 | makes the software-aging step, also for a queued connection |
| Conntrack.Worker.AgeHw | src/flowQoS_conntrack.c:375-394 | makes the hardware-aging step, with the token or CT_NUM given back |
| Conntrack.Worker.AgingHandle | src/flowQoS_pipe.c:303-323 | ages exactly the reported rules whose removal succeeds, whose contexts are free afterwards, leaves every other rule installed, and returns how many were reported |
| Conntrack.Worker.ShouldOffload | src/flowQoS_conntrack.c:422-444 | true exactly for an SW_FWD connection that has lived longer than the time threshold, by the 64-bit time stamps, and sent more packets than the packet threshold; counts a rejected one |
| Conntrack.Worker.QosHandler | src/flowQoS_conntrack.c:496-506 | turns the connection into HW_FWD and removes its timer |
| Conntrack.Worker.OffloadConn | src/flowQoS_conntrack.c:514-556 | tunes the filter, then queues or offloads the connection exactly when the filter lets it through, and otherwise leaves it alone; with thresholds, window and rejection counters |
| Conntrack.Worker.TuneFilter | src/flowQoS_conntrack.c:805-834 | the operator may tune the filter at any time without breaking the worker; threshold, MIN, delta, packet threshold and speed become what was asked |
| Conntrack.Worker.TimerTick | src/flowQoS_timer.c:146-173 | ages every connection whose timer is due, in some order, and no other, then advances the clock |
| Conntrack.Worker.Parse | src/flowQoS_conntrack.c:565-600 | accepts TCP and UDP over IPv4 only, with the 5-tuple and hash of the packet, the flags and pipe of its port, and its priority |
| Conntrack.Worker.NewConn | src/flowQoS_conntrack.c:700-718 | a new connection is admitted with the handler's decision, or dropped without a trace |
| Conntrack.Worker.RefreshTimer | src/flowQoS_conntrack.c:654-663 | a packet more than a second after the last restart sets the timer of a connection that is not in the hardware to 1000 * expireTime ticks from now; any other leaves all timers alone |
| Conntrack.Worker.Serve | src/flowQoS_conntrack.c:719-725 | a packet of a known connection: header rewritten by its action and sent out of the other port of the connection's pair; queued or offloaded exactly if old enough, with enough packets and still in software; a stale timer is due 1000 * expireTime ticks from now, any other stays |
| Conntrack.Worker.PacketProcessor | src/flowQoS_conntrack.c:690-729 | every packet is ignored, dropped without a trace, or served as one of its connection: the conditions of each case, header and checksum requests, egress by the other port of the pair, where the connection moves, when its timer is due, the packet count, and the filter's thresholds and counters |
| Rules.HardwareRefinesSoftware | src/flowQoS_pipe.c:92-190 | for every header, every action and flag set, the compiled rule produces the header of the software modifier, sends it out of the other port of the pair, and a miss goes to software |
| Rules.PeerExactly | src/flowQoS_pipe.c:171-175 | the port that packets are sent to is the other one of the pair, and that of the other is the port itself |
| Rules.ReplyGoesBack | src/flowQoS_pipe.c:171-175 | a packet that the hardware sends from one port of a pair to the other is answered through the port it came in on |
| Rules.RuleMonitor | src/flowQoS_pipe.c:123-138 | the rule of an aging pipe carries the entry's expireTime as aging time, and counts nothing itself |
| Rules.HardwareRefinesExactly | src/flowQoS_pipe.c:273-277 | the two paths agree on all headers if and only if the aging time is positive as a C int or everything rewritten becomes all ones |
| Rules.PositiveAging | src/flowQoS_pipe.c:277 | an expireTime below 2^31 (0 included) is positive as a C int; 2^31 is not |
| Rules.RuleHitsTuple | src/flowQoS_pipe.c:50-84 | the rule of a connection is hit by exactly the packets of its 5-tuple |
| Rules.MatchAdapter | src/flowQoS_pipe.c:50-84 | fills in the match field by field as the specification says |
| Rules.ActionAdapter | src/flowQoS_pipe.c:92-155 | fills in actions, descriptor and monitor as the specification says |
| Rules.PrepareRule | src/flowQoS_pipe.c:258-280 | overwrites the entry's flags by its pipe's and nothing else, and compiles the rule; it ages after expireTime, or after 1 for 0, exactly if the pipe ages |
| Rules.BuildPipe | src/flowQoS_pipe.c:192-248 | compiles a pipe's template; hits and misses are dropped, spread, sent to the other port of the pair or to the given pipe exactly as asked, and the pipe counts and ages as its flags say |
| Rules.Packet.Modify | src/flowQoS_conntrack.c:608-682 | rewrites exactly the flagged fields and requests the checksums |
| Rules.L4ChecksumFresh | src/flowQoS_conntrack.c:643-682 | the layer 4 checksum is requested whenever a covered field changes if and only if the action rewrites a port whenever it rewrites an address |
| Snat.AddTranslates | apps/flowQoS_snat.c:180-207 | adding a connection keeps the table exact (two keys per entry in use, no key shared) if and only if both its keys are new |
| Snat.OnlyForwardAges | apps/flowQoS_snat.c:279-297 | aging keeps the table exact if and only if it is given a forward key |
| Snat.AgingUndoes | apps/flowQoS_snat.c:265-297 | aging directly after admission restores the table, the free list and its order |
| Snat.TableSize | apps/flowQoS_snat.c:180-207 | the table holds two keys for each connection |
| Snat.Nat.constructor | apps/flowQoS_snat.c:86-134 | 65536 free ports and an empty table |
| Snat.Nat.Put | apps/flowQoS_snat.c:64-67 | puts an entry at the head of the pool |
| Snat.Nat.Get | apps/flowQoS_snat.c:73-80 | takes the entry at the head of the pool, if any |
| Snat.Nat.NewUpstream | apps/flowQoS_snat.c:158-217 | every branch for a LAN connection: what it returns, what it takes or gives back, exactly when the tables stay exact, and that a flow with new keys gets in exactly if its destination is known and there is room for two keys; the packets of an admitted one leave translated, as do those of every connection before |
| Snat.Nat.NewDownstream | apps/flowQoS_snat.c:219-254 | a WAN packet gets through exactly when its key has a translation and the client is in the ARP table; one that answers what a translated LAN packet h became on leaving always gets through, and its action turns it into an answer to h |
| Snat.Nat.NewConn | apps/flowQoS_snat.c:156-258 | with destinations other than the WAN address and a new key, every outcome keeps the tables exact; LAN packets leave translated and answers from the WAN are restored, as in the two halves |
| Snat.Nat.AgingConn | apps/flowQoS_snat.c:265-299 | takes both keys out and gives the port back; the tables stay exact exactly when the key was the forward one |
| Snat.Nat.Conserved | apps/flowQoS_snat.c:112-130 | free and used ports add up to 65536, and the table size is twice the number of used ports |
| Snat.Nat.Injective | apps/flowQoS_snat.c:180-211 | distinct live connections have distinct translated source ports, and an entry serves one connection |
| Snat.Nat.OutboundKeeps | apps/flowQoS_snat.c:172-207 | a connection to another address with a new forward key is new altogether |
| Gateway.Site.NewConn | apps/flowQoS_snat.c:156-258 | a LAN connection that is a new flow to another address takes one entry and is admitted with its translation, answers from the WAN are restored, and everything stays in agreement |
| Gateway.Site.Ages | apps/flowQoS_snat.c:265-299 | an aging LAN connection always presents a forward key of the table, and gives back the very entry it took |
| Gateway.Site.FlowsAreLive | apps/flowQoS_snat.c:156-299 | after every run of the tracker with its handlers, the translated flows are exactly the keys of the live LAN connections |
| Gateway.Site.LiveTranslated | apps/flowQoS_snat.c:173-208 | after every run, the packets of each live LAN connection leave by the action it was admitted with, under the address of an entry in use for their 5-tuple |
| Gateway.Site.AnswersReach | apps/flowQoS_snat.c:196-252 | after every run, a WAN flow that answers what a live LAN connection sends out goes to the LAN, turned into an answer to the client's packet |
| Snat.Nat.RoundTrip | apps/flowQoS_snat.c:196-243 | what answers a translated packet h is found in the table under its own 5-tuple, and leads to the address and port that sent h |
| Snat.FlowIsTuple | apps/flowQoS_snat.c:180-192 | the key made from an entry and the 5-tuple of a packet are the same exactly when entry and packet agree in all five fields |
| LoadBalancer.Balanced | apps/flowQoS_l4_load_balancing.c:98 | over any stretch of selections that the 32-bit wrap does not disturb, the numbers of selections of two servers differ by at most one |
| LoadBalancer.BalancedForever | apps/flowQoS_l4_load_balancing.c:98 | they never differ by more than one if and only if the number of servers divides 2^32 |
| LoadBalancer.WrapUnbalances | apps/flowQoS_l4_load_balancing.c:98 | otherwise a stretch around the wrap selects server 0 twice and the last server not at all |
| LoadBalancer.Service.Select | apps/flowQoS_l4_load_balancing.c:98 | the index is in range and is the next one in turn |
| LoadBalancer.Balancer.constructor | apps/flowQoS_l4_load_balancing.c:248-286 | no live connections, all counters 0 |
| LoadBalancer.Balancer.NewConn | apps/flowQoS_l4_load_balancing.c:79-120 | chooses the next server, fills in its address, and counts the connection for it exactly when the server is in the ARP table |
| LoadBalancer.Balancer.AgingConn | apps/flowQoS_l4_load_balancing.c:127-141 | takes one off the counter of the server named in the entry; the counters stay right if and only if that server had a live connection of the service |
| LoadBalancer.Site.NewConn | apps/flowQoS_l4_load_balancing.c:79-120 | a new connection is admitted with the server the handler chose, and tracker and balancer stay in agreement |
| LoadBalancer.Site.Ages | apps/flowQoS_l4_load_balancing.c:127-141 | an aging connection is one the balancer has counted, and both forget it |
| LoadBalancer.Site.StatsAreLive | apps/flowQoS_l4_load_balancing.c:98-140 | after every run of the tracker with its handlers, given that admission succeeds after a selection, flowStats[r] is the number of live connections of server r, modulo 2^32 |
| LoadBalancer.PlacementCounts | apps/flowQoS_l4_load_balancing.c:101-112 | the servers of the live connections, counted one by one, are the live connections of each server |
| LoadBalancer.CountersFollowLive | src/flowQoS_conntrack.c:358-394 | over any run of the tracker, the admissions to a server less the aging callbacks about it are the change in its live connections |
| ConntrackSpec.AgedWasLive | src/flowQoS_conntrack.c:369-371 | the callback is told the key and action its connection was admitted with |
| LoadBalancer.IndexStaysInside | apps/flowQoS_l4_load_balancing.c:101 | the server index kept in the source address never reaches a packet |
| Messages.CallsRunOnce | src/flowQoS_message.c:255-283 | under every interleaving, if a call that began with empty rings, idle workers and a full pool returns 1, each worker has run the callback exactly once since, all rings are empty and all buffers are back |
| Messages.CountsReplies | src/flowQoS_message.c:183-212 | the receive count is the number of replies dequeued, and 1 is returned exactly when it is the number of workers |
| Messages.BuffersConserved | src/flowQoS_message.c:65-160 | at every moment each buffer is in the pool or in exactly one ring or hand |
| Messages.NothingLost | src/flowQoS_message.c:101-127 | with as many buffers as workers no send of a call that so began ever fails |
| Sessions.TrustedExactly | src/flowQoS_message.c:255-283 | between calls: every run of the next one that returns 1 has each worker run its task exactly once and leaves it clear, if and only if no worker was left with a message in a ring or in the middle of a task |
| Sessions.RunsTaskExactly | src/flowQoS_message.c:255-283 | the same of the callbacks alone: each worker runs the new task and no other, once, if and only if all workers were clear |
| Sessions.SessionTrust | src/flowQoS_message.c:255-283 | over any session of calls from start-up, the next call can be trusted if and only if all workers are clear |
| Sessions.TrustCarries | src/flowQoS_message.c:268-283 | a call that began with all workers clear and returned 1 leaves all clear, so the next can be trusted too |
| Sessions.Misled | src/flowQoS_message.c:183-283 | any worker left unclear can make the next call return 1 with its task still in the ring |
| Sessions.TimesOut | src/flowQoS_message.c:190-202 | a call of clear workers can give up after 300 polls each, return 0, and leave every worker with its task still to run |
| Sessions.StaleReply | src/flowQoS_message.c:183-283 | from start-up, a call that gave up and then one that returns 1 on the first one's reply, before running its own task |
| Sessions.SessionSane | src/flowQoS_message.c:65-283 | over any number of calls buffers are conserved, rings stay within capacity and hold what they should, and a worker whose reply was lost still has something in its rings |
| Sessions.ClearStarts | src/flowQoS_message.c:268-274 | a call that begins with all workers clear begins with a full pool |
| Messages.NextInv | src/flowQoS_message.c:101-269 | every atomic step of master or worker keeps the protocol invariant |
| Messages.ReachesInv | src/flowQoS_message.c:101-283 | so does every run |
| PipesManager.Manager.PipeCreate | src/common/src/flow_pipes_manager.c:180-272 | registers the pipe in both tables, or rolls back completely |
| PipesManager.Manager.PipeAddEntry | src/common/src/flow_pipes_manager.c:274-320 | maps the entry in both tables or rolls back; the tables keep matching if and only if the id is not another pipe's |
| PipesManager.Manager.GetPipe | src/common/src/flow_pipes_manager.c:322-333 | finds exactly the pipes that some port lists, with their own pointer |
| PipesManager.Manager.GetEntry | src/common/src/flow_pipes_manager.c:335-354 | finds exactly the entries that some pipe has, with their own pointer |
| PipesManager.Manager.PipeDestroy | src/common/src/flow_pipes_manager.c:356-392 | removes exactly this pipe and the entries mapped to it |
| PipesManager.Manager.PipeRmEntry | src/common/src/flow_pipes_manager.c:394-430 | removes exactly this entry from both tables |
| PipesManager.Manager.PipesFlush | src/common/src/flow_pipes_manager.c:432-476 | removes exactly the pipes of the port and their entries |
| PipesManager.EntryAdded | src/common/src/flow_pipes_manager.c:298-315 | the tables match after an insertion if and only if the id was new or the pipe's own |
| PipesManager.PipeGone | src/common/src/flow_pipes_manager.c:380-388 | what a pipe's entry table lists is exactly what was mapped to it |

## Left out

- Cross-core races: the filter attributes, the counters and the context pool are shared without
  synchronisation when there are several workers.
- Use of a context after it went back to the pool in the expire callbacks (`src/flowQoS_conntrack.c:361-371`): safe with one worker only.
- The wheel inside the worker: `Conntrack.Worker` holds the timer-to-deadline map that the wheel is proved to refine, not the linked buckets.
- Intrusive queue links: the scheduler's queues, the address pool and the hash tables are sequences and maps that the methods reassign.
- Conntrack.Worker.NewConn: a handler decides the action's values, the expire time and the port, as those of the applications do; one that changes flags, pipe or priority is not modelled. An application's allocation is not undone when the admission after it fails.
- LoadBalancer.Site.NewConn: admission succeeds after a server was selected; otherwise the counter stays too high.
- Gateway.Site.NewConn: LAN connections are new flows to other addresses than the WAN's, and admission succeeds; Snat.Nat.NewUpstream says what happens to the tables otherwise.
- LoadBalancer.Balancer.AgingConn: an index that is not one of the MAX_RIP_PER_VIP counters; LoadBalancer.Site.Ages shows that no admitted connection has one.
- Snat.Nat.NewDownstream: the tracker's own entry for a WAN-side connection outlives the translation, because aging only acts on the LAN side.
- QosWaiting.RateBound: no failed adds, which leave the round due at once, and no clock that runs backwards.
- Qos.QosContext.Finish: the congestion flag when no handler is registered.
- Rules.Packet.Modify: which checksums are requested, not their values.
- Messages.CountsReplies: the layout of the reply buffer; replies are counted, not stored.
- Per-core caches of the memory pools, and the test task that runs when the message module starts.
- A port's ARP table, routes and the routing module: `src/flowQoS_router.c` depends on a library that is not part of this model.
- The worker loop and its packet buffers (`src/flowQoS_worker.c`).
- Command line, printing, dumps, statistics and process start-up.
- The other applications: firewall, adaptive routing, packet spraying, DPI, telemetry.
