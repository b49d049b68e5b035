/**
 Where the scheduler fails, reached by legal runs from initialisation, and the exact conditions of the calls that
 break its books. The runs use real-time tasks only, so that level 0 is the whole story.
 */
module SchedWitnesses {
  import opened Types
  import opened LinkedList
  import opened SchedSpec
  import opened SchedProofs
  import opened SchedCalls

  ghost predicate Reachable(s: Sched) {
    exists ops :: LegalRun(Fresh(), ops) && Run(Fresh(), ops) == s
  }

  lemma ReachFresh()
    ensures Reachable(Fresh())
  {
    assert Run(Fresh(), []) == Fresh();
  }

  lemma {:induction false} Extend(s: Sched, ops: seq<Op>, op: Op)
    requires Shaped(s) && LegalRun(s, ops) && Legal(Run(s, ops), op)
    ensures LegalRun(s, ops + [op]) && Run(s, ops + [op]) == Step(Run(s, ops), op)
    decreases |ops|
  {
    hide Shaped, Step, Legal;
    if ops == [] {
      assert ops + [op] == [op] && [op][1..] == [];
      assert LegalRun(Step(s, op), []) && Run(Step(s, op), []) == Step(s, op);
    } else {
      assert (ops + [op])[0] == ops[0] && (ops + [op])[1..] == ops[1..] + [op];
      Extend(Step(s, ops[0]), ops[1..], op);
    }
  }

  lemma ReachStep(s: Sched, op: Op)
    requires Reachable(s) && Shaped(s) && Legal(s, op)
    ensures Reachable(Step(s, op))
  {
    hide Step, Legal, Run, LegalRun;
    var ops :| LegalRun(Fresh(), ops) && Run(Fresh(), ops) == s;
    Extend(Fresh(), ops, op);
  }

  lemma ReachInv(s: Sched)
    requires Reachable(s)
    ensures Inv(s)
  {
    hide Inv, Run, LegalRun;
    var ops :| LegalRun(Fresh(), ops) && Run(Fresh(), ops) == s;
    FreshInv();
    RunKeepsInv(Fresh(), ops);
  }

  // ---------- runs of real-time tasks ----------

  /** A reachable state in which only level 0 is in use. */
  ghost predicate Looks(s: Sched, ts: seq<Task>, q: seq<nat>, current: Option<nat>) {
    && Reachable(s) && Shaped(s) && s.tasks == ts && s.queues[REALTIME] == q && s.current == current
    && (forall k :: 0 < k < LEVELS ==> s.queues[k] == [])
    && (forall i :: 0 <= i < |ts| ==> ts[i].policy == REALTIME && ts[i].id == i + 1)
    && (forall i :: i in s.queued <==> i in q)
  }

  lemma LooksFresh()
    ensures Looks(Fresh(), [], [], None)
  {
    ReachFresh();
  }

  function NewTask(n: nat, priority: int, deadline: nat, slice: nat): Task {
    Task(n + 1, Ready, REALTIME, priority, deadline, slice, 0, 0, 0)
  }

  lemma LooksCreate(s: Sched, ts: seq<Task>, q: seq<nat>, c: Option<nat>, priority: int, deadline: nat, slice: nat) returns (s': Sched)
    requires Looks(s, ts, q, c) && |ts| < MAX_TASKS
    ensures Looks(s', ts + [NewTask(|ts|, priority, deadline, slice)], q, c)
  {
    hide Reachable;
    ReachStep(s, CreateOp(REALTIME, priority, deadline, slice));
    s' := Step(s, CreateOp(REALTIME, priority, deadline, slice));
  }

  lemma FindAt(ts: seq<Task>, i: nat, n: nat)
    requires n <= i < |ts| && forall j :: 0 <= j < |ts| ==> ts[j].id == j + 1
    ensures Find(ts, i + 1, n) == Some(i)
    decreases i - n
  {
    if n < i {
      FindAt(ts, i, n + 1);
    }
  }

  /** An insertion at level 0, wherever the task belongs. */
  lemma EnqueuedLooks(s: Sched, i: nat)
    requires Shaped(s) && i < |s.tasks| && s.tasks[i].policy == REALTIME
    ensures var s' := Enqueue(s, i); var q := s.queues[REALTIME];
            && s'.tasks == s.tasks[i := s.tasks[i].(state := Ready)] && s'.current == s.current
            && s'.queues[REALTIME] == Insert(q, Pos(s.tasks, q, s.tasks[i].vruntime, 0), i)
            && (forall k :: 0 < k < LEVELS ==> s'.queues[k] == s.queues[k]) && s'.queued == s.queued + {i}
  {
  }

  lemma InsertHolds(q: seq<nat>, p: nat, i: nat)
    requires p <= |q|
    ensures forall x :: x in Insert(q, p, i) <==> x in q || x == i
  {
    var r := Insert(q, p, i);
    InsertMember(q, p, i);
    forall a | 0 <= a < |r| ensures r[a] in q || r[a] == i {
    }
  }

  lemma LooksSubmit(s: Sched, ts: seq<Task>, q: seq<nat>, c: Option<nat>, i: nat, v: nat, p: nat) returns (s': Sched)
    requires Looks(s, ts, q, c) && i < |ts| && i !in q && ts[i].state == Ready
    requires forall j :: 0 <= j < |q| ==> q[j] < |ts|
    requires v == (if q == [] then ts[i].vruntime else ts[q[0]].vruntime) && p == Pos(ts[i := ts[i].(vruntime := v)], q, v, 0)
    ensures Looks(s', ts[i := ts[i].(vruntime := v)], Insert(q, p, i), c)
  {
    hide Reachable, Pos, Insert, Find;
    FindAt(ts, i, 0);
    ReachStep(s, SubmitOp(i + 1));
    s' := Step(s, SubmitOp(i + 1));
    EnqueuedLooks(WithTask(s, i, ts[i].(vruntime := v)), i);
    InsertHolds(q, p, i);
  }

  lemma LooksPick(s: Sched, ts: seq<Task>, q: seq<nat>, now: nat) returns (s': Sched)
    requires Looks(s, ts, q, None) && q != [] && q[0] < |ts| && !Missed(ts[q[0]])
    ensures Looks(s', ts[q[0] := ts[q[0]].(state := Executing, lastScheduled := now)], q[1..], Some(q[0]))
  {
    hide Reachable, Inv;
    ReachStep(s, PickOp(now));
    ReachInv(s);
    s' := Step(s, PickOp(now));
    PickedQueues(s, REALTIME, now);
    HeadLeaves(s);
  }

  /** The head of level 0 leaves the handed-over tasks as it leaves the queue. */
  lemma HeadLeaves(s: Sched)
    requires Inv(s) && s.queues[REALTIME] != []
    ensures var q := s.queues[REALTIME]; forall i :: i in q[1..] <==> i in q && i != q[0]
  {
    var q := s.queues[REALTIME];
    assert QueueOk(s, REALTIME);
    forall i | i in q[1..] ensures i != q[0] {
      var k :| 0 <= k < |q[1..]| && q[1..][k] == i;
      assert Before(s, q[0], q[k + 1]);
    }
  }

  lemma LooksTick(s: Sched, ts: seq<Task>, q: seq<nat>, i: nat, now: nat) returns (s': Sched)
    requires Looks(s, ts, q, Some(i)) && i < |ts| && Weight(ts[i]) != 0 && Elapsed(ts[i], now) < ts[i].slice
    ensures Looks(s', ts[i := Charge(ts[i], Elapsed(ts[i], now))], q, Some(i))
  {
    hide Reachable, Weight, Elapsed;
    ReachStep(s, TickOp(now));
    s' := Step(s, TickOp(now));
  }

  lemma LooksYield(s: Sched, ts: seq<Task>, q: seq<nat>, i: nat, p: nat) returns (s': Sched)
    requires Looks(s, ts, q, Some(i)) && i < |ts| && i !in q && forall j :: 0 <= j < |q| ==> q[j] < |ts|
    requires p == Pos(ts, q, ts[i].vruntime, 0)
    ensures Looks(s', ts[i := ts[i].(state := Ready)], Insert(q, p, i), None)
  {
    hide Reachable, Pos, Insert;
    ReachStep(s, YieldOp);
    s' := Step(s, YieldOp);
    EnqueuedLooks(s.(current := None), i);
    InsertHolds(q, p, i);
  }

  // ---------- the processor idles while a task waits ----------

  /**
   Two real-time tasks. The first is charged past its deadline, yields, and becomes the head again after the second
   was charged more. pick_next then fails the first and picks nothing, although the second one waits.
   */
  lemma IdlesWhileWaiting() returns (s: Sched)
    ensures Reachable(s) && Shaped(s) && s.current.None? && PickNext(s, 30).1 == None
    ensures PickNext(s, 30).0.queues[REALTIME] == [1] && !ServesHighest(s, PickNext(s, 30).0, None)
  {
    hide Reachable;
    s := Contended();
    var ts, q := s.tasks, s.queues[REALTIME];
    ReachInv(s);
    assert RealtimeMissed(s);
    PickNextMeans(s, 30);
    FailKeeps(s);
    assert q[1..] == [1];
  }

  lemma Contended() returns (s: Sched)
    ensures Reachable(s) && Shaped(s) && s.current.None? && s.queues[REALTIME] == [0, 1]
    ensures (forall k :: 0 < k < LEVELS ==> s.queues[k] == []) && |s.tasks| == 2 && Missed(s.tasks[0])
  {
    hide Reachable, Shaped;
    s := TwoWaiting(100, 1, 0);
    var a, b := NewTask(0, 100, 1, 1000), NewTask(1, 0, 0, 1000);
    s := LooksPick(s, [a, b], [0, 1], 0);
    var a1 := a.(state := Executing);
    assert [a, b][0 := a1] == [a1, b] && [0, 1][1..] == [1];
    assert Weight(a1) == 101 && Elapsed(a1, 2) == 2;
    s := LooksTick(s, [a1, b], [1], 0, 2);
    var a2 := a1.(exec := 2);
    assert [a1, b][0 := Charge(a1, 2)] == [a2, b];
    s := FirstYields(s, a2, b);
    s := SecondRuns(s, a2.(state := Ready), b);
  }

  lemma TwoCreated(p: int, d: nat, q: int) returns (s: Sched)
    ensures Looks(s, [NewTask(0, p, d, 1000), NewTask(1, q, 0, 1000)], [], None)
  {
    hide Looks;
    var a, b := NewTask(0, p, d, 1000), NewTask(1, q, 0, 1000);
    LooksFresh();
    s := LooksCreate(Fresh(), [], [], None, p, d, 1000);
    assert [] + [a] == [a];
    s := LooksCreate(s, [a], [], None, q, 0, 1000);
    assert [a] + [b] == [a, b];
  }

  lemma TwoWaiting(p: int, d: nat, q: int) returns (s: Sched)
    ensures Looks(s, [NewTask(0, p, d, 1000), NewTask(1, q, 0, 1000)], [0, 1], None)
  {
    hide Looks;
    var ts: seq<Task>, none: seq<nat>, one: seq<nat> := [NewTask(0, p, d, 1000), NewTask(1, q, 0, 1000)], [], [0];
    s := TwoCreated(p, d, q);
    assert ts[0 := ts[0].(vruntime := 0)] == ts && ts[1 := ts[1].(vruntime := 0)] == ts;
    assert Insert(none, 0, 0) == one && Insert(one, 1, 1) == [0, 1];
    s := LooksSubmit(s, ts, none, None, 0, 0, 0);
    assert Pos(ts, one, 0, 1) == 1 && Pos(ts, one, 0, 0) == 1;
    s := LooksSubmit(s, ts, one, None, 1, 0, 1);
  }

  lemma FirstYields(s: Sched, a: Task, b: Task) returns (s': Sched)
    requires Looks(s, [a, b], [1], Some(0)) && a.vruntime >= b.vruntime
    ensures Looks(s', [a.(state := Ready), b], [1, 0], None)
  {
    hide Reachable, Shaped;
    assert Pos([a, b], [1], a.vruntime, 1) == 1 && Pos([a, b], [1], a.vruntime, 0) == 1;
    s' := LooksYield(s, [a, b], [1], 0, 1);
    assert Insert([1], 1, 0) == [1, 0] && [a, b][0 := a.(state := Ready)] == [a.(state := Ready), b];
  }

  lemma SecondRuns(s: Sched, a: Task, b: Task) returns (s': Sched)
    requires Looks(s, [a, b], [1, 0], None) && a.vruntime == 0 && a.deadline == 1 && a.exec == 2
    requires b == NewTask(1, 0, 0, 1000)
    ensures Reachable(s') && Shaped(s') && s'.current.None? && s'.queues[REALTIME] == [0, 1]
    ensures (forall k :: 0 < k < LEVELS ==> s'.queues[k] == []) && |s'.tasks| == 2 && Missed(s'.tasks[0])
  {
    hide Reachable, Shaped;
    s' := LooksPick(s, [a, b], [1, 0], 10);
    var b1 := b.(state := Executing, lastScheduled := 10);
    assert [a, b][1 := b1] == [a, b1] && [1, 0][1..] == [0];
    assert Weight(b1) == 1 && Elapsed(b1, 20) == 10;
    s' := LooksTick(s', [a, b1], [0], 1, 20);
    var b2 := b1.(vruntime := 10, exec := 10);
    assert [a, b1][1 := Charge(b1, 10)] == [a, b2];
    assert Pos([a, b2], [0], 10, 1) == 1 && Pos([a, b2], [0], 10, 0) == 1;
    s' := LooksYield(s', [a, b2], [0], 1, 1);
    assert Insert([0], 1, 1) == [0, 1];
  }

  // ---------- the lower priority leads ----------

  /** Two real-time tasks of priority 0 (the highest) and 100 ran for the same 500; the one of priority 100 leads. */
  lemma LowerPriorityLeads() returns (s: Sched)
    ensures Reachable(s) && Shaped(s) && |s.tasks| == 2 && s.queues[REALTIME] == [1, 0]
    ensures s.tasks[0].priority == 0 && s.tasks[1].priority == 100 && s.tasks[0].exec == s.tasks[1].exec == 500
  {
    hide Reachable, Shaped;
    var a, b := NewTask(0, 0, 0, 1000), NewTask(1, 100, 0, 1000);
    s := TwoWaiting(0, 0, 100);
    s := LooksPick(s, [a, b], [0, 1], 0);
    var a1 := a.(state := Executing);
    assert [a, b][0 := a1] == [a1, b] && [0, 1][1..] == [1];
    assert Weight(a1) == 1 && Elapsed(a1, 500) == 500;
    s := LooksTick(s, [a1, b], [1], 0, 500);
    var a2 := a1.(exec := 500, vruntime := 500);
    assert [a1, b][0 := Charge(a1, 500)] == [a2, b];
    s := FirstYields(s, a2, b);
    s := SecondLeads(s, a2.(state := Ready), b);
  }

  lemma SecondLeads(s: Sched, a: Task, b: Task) returns (s': Sched)
    requires Looks(s, [a, b], [1, 0], None) && a.vruntime == 500 && a.exec == 500 && b == NewTask(1, 100, 0, 1000)
    ensures Reachable(s') && Shaped(s') && |s'.tasks| == 2 && s'.queues[REALTIME] == [1, 0]
    ensures s'.tasks[0] == a && s'.tasks[1].priority == 100 && s'.tasks[1].exec == 500
  {
    hide Reachable, Shaped;
    s' := LooksPick(s, [a, b], [1, 0], 1000);
    var b1 := b.(state := Executing, lastScheduled := 1000);
    assert [a, b][1 := b1] == [a, b1] && [1, 0][1..] == [0];
    assert Weight(b1) == 101 && Elapsed(b1, 1500) == 500 && 500 / 101 == 4;
    s' := LooksTick(s', [a, b1], [0], 1, 1500);
    var b2 := b1.(vruntime := 4, exec := 500);
    assert [a, b1][1 := Charge(b1, 500)] == [a, b2];
    assert Pos([a, b2], [0], 4, 0) == 0;
    s' := LooksYield(s', [a, b2], [0], 1, 0);
    assert Insert([0], 0, 1) == [1, 0];
  }

  // ---------- the other failures ----------

  /** One task is picked at 0; ticks at 1 and 2 charge it 3, although 2 passed. */
  lemma OvercountReached() returns (s: Sched)
    ensures Reachable(s) && Shaped(s) && s.current == Some(0) && |s.tasks| == 1 && s.tasks[0].lastScheduled == 0
    ensures s.tasks[0].exec == 3
  {
    hide Reachable, Shaped;
    var a := NewTask(0, 0, 0, 1000);
    s := OneWaiting(0);
    s := LooksPick(s, [a], [0], 0);
    var a1 := a.(state := Executing);
    assert [a][0 := a1] == [a1] && [0][1..] == [];
    assert Weight(a1) == 1 && Elapsed(a1, 1) == 1;
    s := LooksTick(s, [a1], [], 0, 1);
    var a2 := a1.(exec := 1, vruntime := 1);
    assert [a1][0 := Charge(a1, 1)] == [a2];
    assert Weight(a2) == 1 && Elapsed(a2, 2) == 2;
    s := LooksTick(s, [a2], [], 0, 2);
    assert Charge(a2, 2).exec == 3;
  }

  lemma OneWaiting(priority: int) returns (s: Sched)
    ensures Looks(s, [NewTask(0, priority, 0, 1000)], [0], None)
  {
    hide Reachable, Shaped;
    var a := NewTask(0, priority, 0, 1000);
    LooksFresh();
    s := LooksCreate(Fresh(), [], [], None, priority, 0, 1000);
    assert [] + [a] == [a];
    s := LooksSubmit(s, [a], [], None, 0, 0, 0);
    assert [a][0 := a] == [a] && Insert([], 0, 0) == [0];
  }

  /** One task waits, another is created; a change of the priority of the second drops the first from its queue. */
  lemma QueueDropReached() returns (s: Sched)
    ensures Reachable(s) && Shaped(s) && s.queues[REALTIME] == [0] && |s.tasks| == 2
    ensures var s' := SetPriority(s, 2, 7).0;
            s'.tasks[0].state == Ready && (forall l :: 0 <= l < LEVELS ==> 0 !in s'.queues[l]) && !Inv(s')
  {
    hide Reachable, Inv, SetPriority;
    var a, b := NewTask(0, 0, 0, 1000), NewTask(1, 5, 0, 1000);
    s := OneWaiting(0);
    s := LooksCreate(s, [a], [0], None, 5, 0, 1000);
    assert [a] + [b] == [a, b];
    ReachInv(s);
    SetPriorityKeepsIff(s, 1, 7);
    QueueDropped(s, 7);
  }

  lemma QueueDropped(s: Sched, priority: int)
    requires Shaped(s) && |s.tasks| == 2 && s.tasks[0].id == 1 && s.tasks[1].id == 2
    requires s.tasks[1].state == Ready && s.tasks[1].policy == REALTIME && s.queues[REALTIME] == [0]
    requires forall k :: 0 < k < LEVELS ==> s.queues[k] == []
    ensures var s' := SetPriority(s, 2, priority).0;
            && s'.tasks[0] == s.tasks[0] && s'.queues[REALTIME] == [1]
            && forall k :: 0 < k < LEVELS ==> s'.queues[k] == []
  {
    hide Insert;
    FindAt(s.tasks, 1, 0);
    var s1 := Dequeue(s, 1);
    assert s1.queues[REALTIME] == [];
    EnqueuedLooks(WithTask(s1, 1, s.tasks[1].(priority := priority)), 1);
    InsertFirst(1);
  }

  lemma InsertFirst(i: nat)
    ensures Insert([], 0, i) == [i]
  {
  }

  /** Destroying a task keeps the invariant exactly when it is running, suspended or waiting in its queue. */
  lemma DestroyKeepsIff(s: Sched, i: nat)
    requires Inv(s) && i < |s.tasks|
    ensures Inv(Destroy(s, i + 1).0) <==> Detachable(s, i)
  {
    hide QueueOk;
    FindIs(s, i);
    if Detachable(s, i) {
      DestroyKeeps(s, i);
    } else {
      CountUpdate(s.tasks, i, s.tasks[i].(state := Completed), |s.tasks|, Completed);
      CountUpdate(s.tasks, i, s.tasks[i].(state := Completed), |s.tasks|, Failed);
      if s.tasks[i].state == Ready {
        QueueBroken(s, i, Destroy(s, i + 1).0);
      }
    }
  }

  /** The same for suspending it. */
  lemma SuspendKeepsIff(s: Sched, i: nat)
    requires Inv(s) && i < |s.tasks|
    ensures Inv(Suspend(s, i + 1).0) <==> Detachable(s, i)
  {
    hide QueueOk;
    FindIs(s, i);
    if Detachable(s, i) {
      SuspendKeeps(s, i);
    } else {
      CountUpdate(s.tasks, i, s.tasks[i].(state := Suspended), |s.tasks|, Completed);
      CountUpdate(s.tasks, i, s.tasks[i].(state := Suspended), |s.tasks|, Failed);
      if s.tasks[i].state == Ready {
        QueueBroken(s, i, Suspend(s, i + 1).0);
      }
    }
  }

  /** Taking a ready task that is on no queue off its level drops whoever waits there, or miscounts an empty queue. */
  lemma QueueBroken(s: Sched, i: nat, s': Sched)
    requires Inv(s) && i < |s.tasks| && s.tasks[i].state == Ready && i !in s.queued && Shaped(s')
    requires var d := Dequeue(s, i); s'.queues == d.queues && s'.sizes == d.sizes && s'.queued == d.queued
    requires |s'.tasks| == |s.tasks| && forall j :: 0 <= j < |s.tasks| ==> s'.tasks[j].policy == s.tasks[j].policy
    ensures !Inv(s')
  {
    hide QueueOk, StatsOk, CurrentOk, IdsOk;
    var l := s.tasks[i].policy;
    NotQueued(s, i);
    SizeOf(s, l);
    if s.queues[l] != [] {
      WaitingIsQueued(s, l, 0);
      var j := s.queues[l][0];
      assert j in s'.queued && s'.tasks[j].policy == l && j !in s'.queues[l];
    }
    assert Inv(s') ==> QueueOk(s', l);
    SizeIf(s', l);
  }

  lemma SizeIf(s: Sched, l: nat)
    requires Shaped(s) && l < LEVELS
    ensures QueueOk(s, l) ==> s.sizes[l] == |s.queues[l]|
  {
  }

  /** Destroying a finished task again counts it twice: the number of active tasks goes below zero. */
  lemma DestroyTwice() returns (s: Sched)
    ensures Reachable(s) && Shaped(s) && |s.tasks| == 1 && s.tasks[0].state == Completed && !Inv(Destroy(s, 1).0)
    ensures Destroy(s, 1).0.stats.active == -1
  {
    hide Reachable, Inv;
    var w := OneWaiting(0);
    ReachInv(w);
    FindAt(w.tasks, 0, 0);
    ReachStep(w, DestroyOp(1));
    s := Step(w, DestroyOp(1));
    ReachInv(s);
    DestroyKeepsIff(s, 0);
    OneActive(s);
  }

  lemma OneActive(s: Sched)
    requires Inv(s) && |s.tasks| == 1 && s.tasks[0].state == Completed
    ensures s.stats.active == 0
  {
    hide QueuesOk;
    assert Count(s.tasks, 0, Completed) == 0 && Count(s.tasks, 0, Failed) == 0;
    assert Count(s.tasks, 1, Completed) == 1 && Count(s.tasks, 1, Failed) == 0;
  }

  /** A tick divides by zero exactly when the running task has a priority that cancels the weight of its policy. */
  lemma ZeroWeightIff(t: Task)
    requires t.policy < LEVELS && -0x8000_0000 <= t.priority < 0x8000_0000
    ensures Weight(t) == 0 <==> t.priority == -(WEIGHTS[t.policy] as int)
  {
    WeightIs(t);
  }

  /** A task created with such a priority is submitted and picked like any other: the next tick divides by zero. */
  lemma ZeroWeightReached() returns (s: Sched)
    ensures Reachable(s) && Shaped(s) && s.current == Some(0) && |s.tasks| == 1 && Weight(s.tasks[0]) == 0
  {
    hide Reachable, Shaped;
    var a := NewTask(0, -1, 0, 1000);
    s := OneWaiting(-1);
    s := LooksPick(s, [a], [0], 0);
  }
}
