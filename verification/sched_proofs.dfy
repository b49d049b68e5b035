/**
 The scheduler invariant over every run that keeps the call protocol: each queue is ordered by
 virtual runtime and arrival and holds exactly the tasks handed over to it, the running task is
 the only one of its state, and the counters add up.
 */
module SchedProofs {
  import opened Types
  import opened LinkedList
  import opened SchedSpec

  /** Virtual runtime first; among equals the one that was enqueued earlier. */
  predicate Before(s: Sched, i: nat, j: nat)
    requires i < |s.tasks| && j < |s.tasks| && |s.stamps| == |s.tasks|
  {
    || s.tasks[i].vruntime < s.tasks[j].vruntime
    || (s.tasks[i].vruntime == s.tasks[j].vruntime && s.stamps[i] < s.stamps[j])
  }

  ghost predicate Ordered(s: Sched, q: seq<nat>)
    requires |s.stamps| == |s.tasks| && forall k :: 0 <= k < |q| ==> q[k] < |s.tasks|
  {
    forall a, b :: 0 <= a < b < |q| ==> Before(s, q[a], q[b])
  }

  ghost predicate QueueOk(s: Sched, l: nat)
    requires Shaped(s) && l < LEVELS
  {
    && Ordered(s, s.queues[l]) && s.sizes[l] == |s.queues[l]|
    && forall k :: 0 <= k < |s.queues[l]| ==>
         s.tasks[s.queues[l][k]].policy == l && s.tasks[s.queues[l][k]].state == Ready && s.queues[l][k] in s.queued
  }

  /** What was handed over is in its queue; arrival stamps are in the past. */
  ghost predicate QueuedOk(s: Sched)
    requires Shaped(s)
  {
    && (forall i :: i in s.queued ==> i < |s.tasks| && i in s.queues[s.tasks[i].policy])
    && (forall i :: 0 <= i < |s.stamps| && i in s.queued ==> s.stamps[i] < s.clock)
  }

  ghost predicate QueuesOk(s: Sched)
    requires Shaped(s)
  {
    QueuedOk(s) && forall l :: 0 <= l < LEVELS ==> QueueOk(s, l)
  }

  ghost predicate CurrentOk(s: Sched) {
    forall i :: 0 <= i < |s.tasks| ==> (s.tasks[i].state == Executing <==> s.current == Some(i))
  }

  function Count(ts: seq<Task>, n: nat, state: TaskState): (c: nat)
    requires n <= |ts|
    ensures c <= n
  {
    if n == 0 then 0 else Count(ts, n - 1, state) + (if ts[n - 1].state == state then 1 else 0)
  }

  /** The counters are the numbers of tasks in the final states, and of all the others. */
  ghost predicate StatsOk(s: Sched) {
    && s.stats.total == |s.tasks|
    && s.stats.completed == Count(s.tasks, |s.tasks|, Completed) && s.stats.failed == Count(s.tasks, |s.tasks|, Failed)
    && s.stats.active + s.stats.completed + s.stats.failed == s.stats.total
  }

  ghost predicate IdsOk(s: Sched) {
    |s.tasks| <= MAX_TASKS && forall i :: 0 <= i < |s.tasks| ==> s.tasks[i].id == i + 1
  }

  ghost predicate Inv(s: Sched) {
    Shaped(s) && QueuesOk(s) && CurrentOk(s) && StatsOk(s) && IdsOk(s)
  }

  // ---------- counting ----------

  lemma {:induction false} CountUpdate(ts: seq<Task>, i: nat, t: Task, n: nat, state: TaskState)
    requires i < |ts| && n <= |ts|
    ensures Count(ts[i := t], n, state)
            == Count(ts, n, state) + (if i < n && t.state == state then 1 else 0) - (if i < n && ts[i].state == state then 1 else 0)
  {
    if n > 0 {
      CountUpdate(ts, i, t, n - 1, state);
    }
  }

  lemma {:induction false} CountAppend(ts: seq<Task>, t: Task, n: nat, state: TaskState)
    requires n <= |ts|
    ensures Count(ts + [t], n, state) == Count(ts, n, state)
  {
    if n > 0 {
      CountAppend(ts, t, n - 1, state);
    }
  }

  /** Changes between the live states leave the counters right. */
  lemma StatsLive(s: Sched, s': Sched, i: nat, t: Task)
    requires StatsOk(s) && i < |s.tasks| && s'.tasks == s.tasks[i := t]
    requires t.state != Completed && t.state != Failed && s.tasks[i].state != Completed && s.tasks[i].state != Failed
    requires s'.stats.total == s.stats.total && s'.stats.active == s.stats.active
    requires s'.stats.completed == s.stats.completed && s'.stats.failed == s.stats.failed
    ensures StatsOk(s')
  {
    CountUpdate(s.tasks, i, t, |s.tasks|, Completed);
    CountUpdate(s.tasks, i, t, |s.tasks|, Failed);
  }

  // ---------- enqueue ----------

  lemma InsertMember(q: seq<nat>, k: nat, i: nat)
    requires k <= |q|
    ensures i in Insert(q, k, i) && forall x :: x in q ==> x in Insert(q, k, i)
  {
    var r := Insert(q, k, i);
    assert r[k] == i;
    forall a | 0 <= a < |q| ensures q[a] in r {
      assert r[if a < k then a else a + 1] == q[a];
    }
  }

  /** Where the new task goes relative to any other, and any two others to each other. */
  lemma EnqueuedPair(s: Sched, i: nat, a: nat, b: nat)
    requires Shaped(s) && QueuesOk(s) && i < |s.tasks| && i !in s.queued
    requires a < b < |Enqueue(s, i).queues[s.tasks[i].policy]|
    ensures var s' := Enqueue(s, i); var r := s'.queues[s.tasks[i].policy]; Before(s', r[a], r[b])
  {
    var l, v := s.tasks[i].policy, s.tasks[i].vruntime;
    var q := s.queues[l];
    var p := Pos(s.tasks, q, v, 0);
    assert QueueOk(s, l);
    if a != p && b != p {
      var a', b' := if a < p then a else a - 1, if b < p then b else b - 1;
      assert Before(s, q[a'], q[b']);
    } else if b == p {
      assert s.tasks[q[a]].vruntime <= v;
    } else {
      assert b - 1 > p ==> Before(s, q[p], q[b - 1]);
    }
  }

  /** The queue of the task's own level after an insertion is still ordered. */
  lemma EnqueuedOrdered(s: Sched, i: nat)
    requires Shaped(s) && QueuesOk(s) && i < |s.tasks| && i !in s.queued
    ensures QueueOk(Enqueue(s, i), s.tasks[i].policy)
  {
    hide Before;
    var l := s.tasks[i].policy;
    var s' := Enqueue(s, i);
    var r := s'.queues[l];
    assert QueueOk(s, l);
    forall a, b | 0 <= a < b < |r| ensures Before(s', r[a], r[b]) {
      EnqueuedPair(s, i, a, b);
    }
  }

  /** Another queue does not see an insertion. */
  lemma OtherQueue(s: Sched, s': Sched, i: nat, l: nat)
    requires Shaped(s) && Shaped(s') && l < LEVELS && QueueOk(s, l) && i < |s.tasks|
    requires s'.queues[l] == s.queues[l] && s'.sizes[l] == s.sizes[l] && i !in s.queues[l]
    requires |s'.tasks| >= |s.tasks| && s.queued - {i} <= s'.queued
    requires forall j :: 0 <= j < |s.tasks| && j != i ==> s'.tasks[j] == s.tasks[j] && s'.stamps[j] == s.stamps[j]
    ensures QueueOk(s', l)
  {
    var q := s.queues[l];
    forall a, b | 0 <= a < b < |q| ensures Before(s', q[a], q[b]) {
      assert Before(s, q[a], q[b]);
    }
  }

  lemma EnqueueKeeps(s: Sched, i: nat)
    requires Shaped(s) && QueuesOk(s) && i < |s.tasks| && i !in s.queued
    ensures QueuesOk(Enqueue(s, i))
  {
    hide QueueOk;
    var s' := Enqueue(s, i);
    var level := s.tasks[i].policy;
    EnqueuedOrdered(s, i);
    NotQueued(s, i);
    forall l | 0 <= l < LEVELS ensures QueueOk(s', l) {
      if l != level {
        OtherQueue(s, s', i, l);
      }
    }
    InsertMember(s.queues[level], Pos(s.tasks, s.queues[level], s.tasks[i].vruntime, 0), i);
  }

  /** A task that was not handed over is on no queue. */
  lemma NotQueued(s: Sched, i: nat)
    requires Shaped(s) && QueuesOk(s) && i !in s.queued
    ensures forall l :: 0 <= l < LEVELS ==> i !in s.queues[l]
  {
    forall l | 0 <= l < LEVELS ensures i !in s.queues[l] {
      assert QueueOk(s, l);
    }
  }

  /** A task sits only on the queue of its policy. */
  lemma OnlyOwnQueue(s: Sched, i: nat, l: nat)
    requires Shaped(s) && QueuesOk(s) && i < |s.tasks| && l < LEVELS && l != s.tasks[i].policy
    ensures i !in s.queues[l]
  {
    assert QueueOk(s, l);
  }

  // ---------- dequeue ----------

  lemma RemovedMember(q: seq<nat>, k: nat)
    requires k < |q|
    ensures forall x :: x in q && x != q[k] ==> x in Remove(q, k)
  {
    var r := Remove(q, k);
    forall a | 0 <= a < |q| && a != k ensures q[a] in r {
      assert r[if a < k then a else a - 1] == q[a];
    }
  }

  lemma DequeuedPair(s: Sched, i: nat, a: nat, b: nat)
    requires Shaped(s) && QueuesOk(s) && i in s.queued
    requires i < |s.tasks| && a < b < |Dequeue(s, i).queues[s.tasks[i].policy]|
    ensures var s' := Dequeue(s, i); var r := s'.queues[s.tasks[i].policy]; Before(s', r[a], r[b])
  {
    var l := s.tasks[i].policy;
    var q := s.queues[l];
    var k := IndexOf(q, i);
    assert QueueOk(s, l);
    var a', b' := if a < k then a else a + 1, if b < k then b else b + 1;
    assert Before(s, q[a'], q[b']);
  }

  /** The removed task occurred only once. */
  lemma DequeuedOnce(s: Sched, i: nat, a: nat)
    requires Shaped(s) && QueuesOk(s) && i in s.queued
    requires i < |s.tasks| && a < |Dequeue(s, i).queues[s.tasks[i].policy]|
    ensures var r := Dequeue(s, i).queues[s.tasks[i].policy]; r[a] != i && r[a] in s.queues[s.tasks[i].policy]
  {
    var l := s.tasks[i].policy;
    var q := s.queues[l];
    var k := IndexOf(q, i);
    var a' := if a < k then a else a + 1;
    assert QueueOk(s, l);
    assert Dequeue(s, i).queues[l][a] == q[a'];
    assert a' < k ==> Before(s, q[a'], q[k]);
    assert k < a' ==> Before(s, q[k], q[a']);
  }

  lemma DequeuedOrdered(s: Sched, i: nat)
    requires Shaped(s) && QueuesOk(s) && i in s.queued
    ensures i < |s.tasks| && i in s.queues[s.tasks[i].policy] && QueueOk(Dequeue(s, i), s.tasks[i].policy)
  {
    hide Before;
    var l := s.tasks[i].policy;
    var s' := Dequeue(s, i);
    var r := s'.queues[l];
    assert QueueOk(s, l);
    forall a, b | 0 <= a < b < |r| ensures Before(s', r[a], r[b]) {
      DequeuedPair(s, i, a, b);
    }
    forall a | 0 <= a < |r| ensures r[a] != i && r[a] in s.queues[l] {
      DequeuedOnce(s, i, a);
    }
  }

  lemma DequeueKeeps(s: Sched, i: nat)
    requires Shaped(s) && QueuesOk(s) && i in s.queued
    ensures i < |s.tasks| && QueuesOk(Dequeue(s, i)) && i !in Dequeue(s, i).queued
  {
    hide QueueOk;
    var s' := Dequeue(s, i);
    var level := s.tasks[i].policy;
    DequeuedOrdered(s, i);
    forall l | 0 <= l < LEVELS ensures QueueOk(s', l) {
      if l != level {
        OnlyOwnQueue(s, i, l);
        OtherQueue(s, s', i, l);
      }
    }
    RemovedMember(s.queues[level], IndexOf(s.queues[level], i));
  }

  /** A task on no queue can change freely, as long as its policy stays a level. */
  lemma LooseKeeps(s: Sched, i: nat, t: Task)
    requires Shaped(s) && QueuesOk(s) && i < |s.tasks| && i !in s.queued && t.policy < LEVELS
    ensures Shaped(WithTask(s, i, t)) && QueuesOk(WithTask(s, i, t))
  {
    hide QueueOk;
    NotQueued(s, i);
    forall l | 0 <= l < LEVELS ensures QueueOk(WithTask(s, i, t), l) {
      OtherQueue(s, WithTask(s, i, t), i, l);
    }
  }

  // ---------- every call keeps the invariant ----------

  lemma FindIs(s: Sched, i: nat)
    requires IdsOk(s) && i < |s.tasks|
    ensures Find(s.tasks, i + 1, 0) == Some(i)
  {
    var f := Find(s.tasks, i + 1, 0);
    assert s.tasks[i].id == i + 1;
    assert f.Some? && s.tasks[f.value].id == f.value + 1;
  }

  lemma QueuedIsReady(s: Sched, i: nat)
    requires Inv(s) && i in s.queued
    ensures i < |s.tasks| && s.tasks[i].state == Ready && s.current != Some(i)
  {
    var l := s.tasks[i].policy;
    assert QueueOk(s, l) && i in s.queues[l];
  }

  /** A task may be taken away only when it is running, suspended, or waiting in its queue. */
  ghost predicate Detachable(s: Sched, i: nat)
    requires i < |s.tasks|
  {
    match s.tasks[i].state
    case Ready => i in s.queued
    case Executing => true
    case Suspended => true
    case _ => false
  }

  lemma CreateKeeps(s: Sched, policy: nat, priority: int, deadline: nat, slice: nat)
    requires Inv(s) && policy < LEVELS
    ensures Inv(Create(s, policy, priority, deadline, slice).0)
  {
    hide QueueOk;
    if |s.tasks| < MAX_TASKS {
      var s' := Create(s, policy, priority, deadline, slice).0;
      forall l | 0 <= l < LEVELS ensures QueueOk(s', l) {
        GrownQueue(s, s', l);
      }
      var t := s'.tasks[|s.tasks|];
      CountAppend(s.tasks, t, |s.tasks|, Completed);
      CountAppend(s.tasks, t, |s.tasks|, Failed);
      assert s'.current == s.current && t.state == Ready;
    }
  }

  lemma GrownQueue(s: Sched, s': Sched, l: nat)
    requires Shaped(s) && Shaped(s') && l < LEVELS && QueueOk(s, l)
    requires s'.queues == s.queues && s'.sizes == s.sizes && s'.queued == s.queued
    requires s.tasks <= s'.tasks && s.stamps <= s'.stamps
    ensures QueueOk(s', l)
  {
    var q := s.queues[l];
    forall a, b | 0 <= a < b < |q| ensures Before(s', q[a], q[b]) {
      assert Before(s, q[a], q[b]);
    }
  }

  /** After Detach the task is on no queue and not running; nothing else changed. */
  lemma DetachKeeps(s: Sched, i: nat)
    requires Inv(s) && i < |s.tasks| && Detachable(s, i)
    ensures var s' := Detach(s, i);
            && QueuesOk(s') && i !in s'.queued && s'.tasks == s.tasks && s'.stats == s.stats
            && (forall j :: 0 <= j < |s.tasks| && j != i ==> (s.tasks[j].state == Executing <==> s'.current == Some(j)))
            && s'.current != Some(i)
  {
    hide QueueOk;
    if i in s.queued {
      QueuedIsReady(s, i);
      DequeueKeeps(s, i);
    }
    if s.tasks[i].state == Executing {
      CurrentIrrelevant(s, None);
    }
  }

  lemma CurrentIrrelevant(s: Sched, c: Option<nat>)
    requires Shaped(s) && QueuesOk(s) && (c.Some? ==> c.value < |s.tasks|)
    ensures Shaped(s.(current := c)) && QueuesOk(s.(current := c))
  {
    forall l | 0 <= l < LEVELS ensures QueueOk(s.(current := c), l) {
      assert QueueOk(s, l);
      OnlyQueues(s, s.(current := c), l);
    }
  }

  /** A queue depends only on the tasks, the stamps, the queues and what was handed over. */
  lemma OnlyQueues(s: Sched, s': Sched, l: nat)
    requires Shaped(s) && Shaped(s') && l < LEVELS && QueueOk(s, l)
    requires s'.tasks == s.tasks && s'.stamps == s.stamps && s'.queues == s.queues && s'.sizes == s.sizes && s'.queued == s.queued
    ensures QueueOk(s', l)
  {
    var q := s.queues[l];
    forall a, b | 0 <= a < b < |q| ensures Before(s', q[a], q[b]) {
      assert Before(s, q[a], q[b]);
    }
  }

  lemma StatsIrrelevant(s: Sched, st: Stats)
    requires Shaped(s) && QueuesOk(s)
    ensures Shaped(s.(stats := st)) && QueuesOk(s.(stats := st))
  {
    forall l | 0 <= l < LEVELS ensures QueueOk(s.(stats := st), l) {
      assert QueueOk(s, l);
      OnlyQueues(s, s.(stats := st), l);
    }
  }

  lemma DestroyKeeps(s: Sched, i: nat)
    requires Inv(s) && i < |s.tasks| && Detachable(s, i)
    ensures Inv(Destroy(s, i + 1).0)
  {
    hide QueueOk;
    FindIs(s, i);
    DetachKeeps(s, i);
    var s1 := Detach(s, i);
    var t := s.tasks[i].(state := Completed);
    LooseKeeps(s1, i, t);
    StatsIrrelevant(WithTask(s1, i, t), Destroy(s, i + 1).0.stats);
    CountUpdate(s.tasks, i, t, |s.tasks|, Completed);
    CountUpdate(s.tasks, i, t, |s.tasks|, Failed);
  }

  lemma SuspendKeeps(s: Sched, i: nat)
    requires Inv(s) && i < |s.tasks| && Detachable(s, i)
    ensures Inv(Suspend(s, i + 1).0)
  {
    hide QueueOk;
    FindIs(s, i);
    DetachKeeps(s, i);
    LooseKeeps(Detach(s, i), i, s.tasks[i].(state := Suspended));
    StatsLive(s, Suspend(s, i + 1).0, i, s.tasks[i].(state := Suspended));
  }

  /** A loose task that is ready or suspended enters its queue. */
  lemma AdmitKeeps(s: Sched, i: nat, t: Task)
    requires Inv(s) && i < |s.tasks| && i !in s.queued && (s.tasks[i].state == Ready || s.tasks[i].state == Suspended)
    requires t.policy < LEVELS && t.id == s.tasks[i].id && t.state == s.tasks[i].state
    ensures Inv(Enqueue(WithTask(s, i, t), i))
  {
    hide QueueOk;
    LooseKeeps(s, i, t);
    var s1 := WithTask(s, i, t);
    EnqueueKeeps(s1, i);
    StatsLive(s, Enqueue(s1, i), i, t.(state := Ready));
    assert s1.tasks[i := t.(state := Ready)] == s.tasks[i := t.(state := Ready)];
  }

  lemma SubmitKeeps(s: Sched, id: nat)
    requires Inv(s) && (Find(s.tasks, id, 0).Some? ==> Find(s.tasks, id, 0).value !in s.queued)
    ensures Inv(Submit(s, id).0)
  {
    hide QueueOk, Ordered;
    var f := Find(s.tasks, id, 0);
    if f.Some? && (s.tasks[f.value].state == Ready || s.tasks[f.value].state == Suspended) {
      var i := f.value;
      var q := s.queues[s.tasks[i].policy];
      AdmitKeeps(s, i, if q == [] then s.tasks[i] else s.tasks[i].(vruntime := s.tasks[q[0]].vruntime));
    }
  }

  lemma ResumeKeeps(s: Sched, id: nat)
    requires Inv(s)
    ensures Inv(Resume(s, id).0)
  {
    hide QueueOk;
    var f := Find(s.tasks, id, 0);
    if f.Some? && s.tasks[f.value].state == Suspended {
      var i := f.value;
      if i in s.queued {
        QueuedIsReady(s, i);
      }
      AdmitKeeps(s, i, s.tasks[i]);
      assert WithTask(s, i, s.tasks[i]) == s;
    }
  }

  /** Changing a priority keeps the invariant for a task that is waiting in its queue or not ready at all. */
  lemma SetPriorityKeeps(s: Sched, i: nat, priority: int)
    requires Inv(s) && i < |s.tasks| && (s.tasks[i].state == Ready ==> i in s.queued)
    ensures Inv(SetPriority(s, i + 1, priority).0) && SetPriority(s, i + 1, priority).1 == Ok
  {
    hide QueueOk;
    FindIs(s, i);
    if s.tasks[i].state == Ready {
      RequeuedKeeps(s, i, priority);
    } else {
      if i in s.queued {
        QueuedIsReady(s, i);
      }
      var t := s.tasks[i].(priority := priority);
      LooseKeeps(s, i, t);
      CountUpdate(s.tasks, i, t, |s.tasks|, Completed);
      CountUpdate(s.tasks, i, t, |s.tasks|, Failed);
    }
  }

  lemma RequeuedKeeps(s: Sched, i: nat, priority: int)
    requires Inv(s) && i < |s.tasks| && s.tasks[i].state == Ready && i in s.queued
    ensures Inv(Enqueue(WithTask(Dequeue(s, i), i, s.tasks[i].(priority := priority)), i))
  {
    hide QueueOk;
    var t := s.tasks[i].(priority := priority);
    DequeueKeeps(s, i);
    var s1 := Dequeue(s, i);
    LooseKeeps(s1, i, t);
    EnqueueKeeps(WithTask(s1, i, t), i);
    StatsLive(s, Enqueue(WithTask(s1, i, t), i), i, t);
    assert s.tasks[i := t][i := t.(state := Ready)] == s.tasks[i := t];
  }

  /** What a change of priority does: that field of that task, and nothing about who waits where. */
  lemma SetPriorityMeans(s: Sched, i: nat, priority: int)
    requires Inv(s) && i < |s.tasks| && (s.tasks[i].state == Ready ==> i in s.queued)
    ensures var s' := SetPriority(s, i + 1, priority).0;
            && s'.tasks == s.tasks[i := s.tasks[i].(priority := priority)]
            && s'.queued == s.queued && s'.current == s.current && s'.stats == s.stats
            && (forall l :: 0 <= l < LEVELS ==> |s'.queues[l]| == |s.queues[l]| && multiset(s'.queues[l]) == multiset(s.queues[l]))
  {
    hide QueuesOk, Enqueue, Dequeue;
    FindIs(s, i);
    if s.tasks[i].state == Ready {
      RequeuedMeans(s, i, s.tasks[i].(priority := priority));
    }
  }

  lemma RequeuedMeans(s: Sched, i: nat, t: Task)
    requires Inv(s) && i < |s.tasks| && s.tasks[i].state == Ready && i in s.queued
    requires t == s.tasks[i].(priority := t.priority)
    ensures var s' := Enqueue(WithTask(Dequeue(s, i), i, t), i);
            && s'.tasks == s.tasks[i := t] && s'.queued == s.queued && s'.current == s.current && s'.stats == s.stats
            && (forall l :: 0 <= l < LEVELS ==> |s'.queues[l]| == |s.queues[l]| && multiset(s'.queues[l]) == multiset(s.queues[l]))
  {
    hide QueueOk;
    var l := s.tasks[i].policy;
    var q := s.queues[l];
    var k := IndexOf(q, i);
    var s1 := WithTask(Dequeue(s, i), i, t);
    RemoveMultiset(q, k);
    InsertMultiset(Remove(q, k), Pos(s1.tasks, Remove(q, k), t.vruntime, 0), i);
    assert s.tasks[i := t][i := t.(state := Ready)] == s.tasks[i := t];
    assert s.queued - {i} + {i} == s.queued;
  }

  lemma RemoveMultiset(q: seq<nat>, k: nat)
    requires k < |q|
    ensures multiset(Remove(q, k)) + multiset{q[k]} == multiset(q)
  {
    assert Remove(q, k) == q[..k] + q[k + 1..];
    assert q == q[..k] + [q[k]] + q[k + 1..];
  }

  lemma InsertMultiset(q: seq<nat>, k: nat, x: nat)
    requires k <= |q|
    ensures multiset(Insert(q, k, x)) == multiset(q) + multiset{x}
  {
    assert Insert(q, k, x) == q[..k] + [x] + q[k..];
    assert q == q[..k] + q[k..];
  }

  /**
   The call protocol matters: on a task that was created but never submitted, a change of priority
   drops every task that waits at its level. The invariant survives the call exactly when the
   task is not in that state.
   */
  lemma SetPriorityKeepsIff(s: Sched, i: nat, priority: int)
    requires Inv(s) && i < |s.tasks|
    ensures Inv(SetPriority(s, i + 1, priority).0) <==> !(s.tasks[i].state == Ready && i !in s.queued)
  {
    hide QueueOk;
    FindIs(s, i);
    if s.tasks[i].state == Ready && i !in s.queued {
      var l := s.tasks[i].policy;
      NotQueued(s, i);
      var s' := SetPriority(s, i + 1, priority).0;
      assert |s'.queues[l]| == 1 && s'.queues[l][0] == i && s'.sizes[l] == s.sizes[l];
      assert s.sizes[l] == |s.queues[l]| by {
        SizeOf(s, l);
      }
      if Inv(s') {
        SizeOf(s', l);
        WaitingIsQueued(s, l, 0);
        assert false;
      }
    } else {
      SetPriorityKeeps(s, i, priority);
    }
  }

  lemma InvShaped(s: Sched)
    requires Inv(s)
    ensures Shaped(s)
  {
  }

  lemma ShapedSizes(s: Sched)
    requires Shaped(s)
    ensures |s.queues| == LEVELS && forall l :: 0 <= l < LEVELS && s.queues[l] != [] ==> s.queues[l][0] < |s.tasks|
  {
  }

  lemma SizeOf(s: Sched, l: nat)
    requires Inv(s) && l < LEVELS
    ensures s.sizes[l] == |s.queues[l]|
  {
    assert QueueOk(s, l);
  }

  lemma WaitingIsQueued(s: Sched, l: nat, k: nat)
    requires Inv(s) && l < LEVELS && k < |s.queues[l]|
    ensures var j := s.queues[l][k];
            j < |s.tasks| && j in s.queued && s.tasks[j].policy == l && s.tasks[j].state == Ready && s.current != Some(j)
  {
    assert QueueOk(s, l);
  }

  // ---------- picking ----------

  lemma HeadFirst(q: seq<nat>)
    requires q != []
    ensures IndexOf(q, q[0]) == 0
  {
  }

  lemma StartKeeps(s: Sched, l: nat, now: nat)
    requires Inv(s) && l < LEVELS && s.queues[l] != [] && s.current.None?
    ensures Inv(Start(s, l, now))
  {
    hide QueueOk;
    WaitingIsQueued(s, l, 0);
    var i := s.queues[l][0];
    DequeueKeeps(s, i);
    var t := s.tasks[i].(state := Executing, lastScheduled := now);
    LooseKeeps(Dequeue(s, i), i, t);
    var s1 := WithTask(Dequeue(s, i), i, t);
    CurrentIrrelevant(s1, Some(i));
    StatsIrrelevant(s1.(current := Some(i)), Start(s, l, now).stats);
    StatsLive(s, Start(s, l, now), i, t);
  }

  lemma FailKeeps(s: Sched)
    requires Inv(s) && s.queues[REALTIME] != []
    ensures Inv(Fail(s)) && Fail(s).current == s.current
    ensures forall l :: 0 < l < LEVELS ==> Fail(s).queues[l] == s.queues[l]
    ensures Fail(s).queues[REALTIME] == s.queues[REALTIME][1..]
  {
    hide QueueOk;
    WaitingIsQueued(s, REALTIME, 0);
    var i := s.queues[REALTIME][0];
    DequeueKeeps(s, i);
    var t := s.tasks[i].(state := Failed);
    LooseKeeps(Dequeue(s, i), i, t);
    StatsIrrelevant(WithTask(Dequeue(s, i), i, t), Fail(s).stats);
    CountUpdate(s.tasks, i, t, |s.tasks|, Completed);
    CountUpdate(s.tasks, i, t, |s.tasks|, Failed);
    HeadFirst(s.queues[REALTIME]);
    assert Remove(s.queues[REALTIME], 0) == s.queues[REALTIME][1..];
  }

  lemma {:induction false} PickFromKeeps(s: Sched, l: nat, now: nat)
    requires Inv(s) && l <= LEVELS && s.current.None?
    ensures Inv(PickFrom(s, l, now).0)
    decreases LEVELS - l
  {
    hide Inv, Start, Fail;
    InvShaped(s);
    if l < LEVELS {
      if s.queues[l] == [] {
        PickFromKeeps(s, l + 1, now);
      } else if l == REALTIME && Missed(s.tasks[s.queues[l][0]]) {
        FailKeeps(s);
        PickFromKeeps(Fail(s), l + 1, now);
      } else {
        StartKeeps(s, l, now);
      }
    }
  }

  lemma PickNextKeeps(s: Sched, now: nat)
    requires Inv(s) && s.current.None?
    ensures Inv(PickNext(s, now).0)
  {
    PickFromKeeps(s, 0, now);
  }

  /** The first task of level `l` is ahead of everything that waits there. */
  lemma HeadLeads(s: Sched, l: nat)
    requires Inv(s) && l < LEVELS && s.queues[l] != []
    ensures forall k :: 0 < k < |s.queues[l]| ==> Before(s, s.queues[l][0], s.queues[l][k])
  {
    assert QueueOk(s, l);
  }

  predicate RealtimeMissed(s: Sched)
    requires Shaped(s)
  {
    s.queues[REALTIME] != [] && Missed(s.tasks[s.queues[REALTIME][0]])
  }

  /** Level `l` is the first that pick_next finds something to run at. */
  ghost predicate Chosen(s: Sched, l: nat)
    requires Shaped(s)
  {
    && l < LEVELS && s.queues[l] != [] && (l == REALTIME ==> !RealtimeMissed(s))
    && forall k :: 0 <= k < l && k != REALTIME ==> s.queues[k] == []
  }

  lemma {:induction false} PickFromMeans(s: Sched, l: nat, now: nat)
    requires Inv(s) && 0 < l <= LEVELS && s.current.None?
    ensures var (s', p) := PickFrom(s, l, now);
            match p
            case None => s' == s && forall k :: l <= k < LEVELS ==> s.queues[k] == []
            case Some(i) =>
              exists k :: l <= k < LEVELS && s.queues[k] != [] && s.queues[k][0] == i && s' == Start(s, k, now)
                          && forall m :: l <= m < k ==> s.queues[m] == []
    decreases LEVELS - l
  {
    hide QueuesOk, Start, StatsOk, IdsOk, CurrentOk;
    if l < LEVELS && s.queues[l] == [] {
      PickFromMeans(s, l + 1, now);
    }
  }

  /**
   pick_next runs the head of the first level that has one. A real-time head that missed its
   deadline fails instead, and the search goes on at the next level.
   */
  lemma PickNextMeans(s: Sched, now: nat)
    requires Inv(s) && s.current.None?
    ensures var s0 := if RealtimeMissed(s) then Fail(s) else s; var (s', p) := PickNext(s, now);
            match p
            case None => s' == s0 && (RealtimeMissed(s) || s.queues[REALTIME] == []) && forall k :: 0 < k < LEVELS ==> s.queues[k] == []
            case Some(i) =>
              exists l: nat :: l < LEVELS && Chosen(s, l) && (l != REALTIME ==> RealtimeMissed(s) || s.queues[REALTIME] == [])
                          && i == s.queues[l][0] && s0.queues[l] == s.queues[l] && s' == Start(s0, l, now)
  {
    hide QueuesOk, Start, Fail, StatsOk, IdsOk, CurrentOk;
    if RealtimeMissed(s) {
      FailKeeps(s);
      PickFromMeans(Fail(s), 1, now);
    } else if s.queues[REALTIME] == [] {
      PickFromMeans(s, 1, now);
    } else {
      assert Chosen(s, REALTIME);
    }
  }

  /**
   The scheduler serves the highest level that has something to run: the picked task led its queue and nothing waits
   above it; when nothing is picked, nothing waits at all.
   */
  ghost predicate ServesHighest(s: Sched, s': Sched, picked: Option<nat>)
    requires Shaped(s) && Shaped(s')
  {
    match picked
    case None => forall k :: 0 <= k < LEVELS ==> s'.queues[k] == []
    case Some(i) =>
      && i < |s.tasks|
      && var l := s.tasks[i].policy;
      && l < LEVELS && s.queues[l] != [] && s.queues[l][0] == i
      && forall k :: 0 <= k < l ==> s'.queues[k] == []
  }

  /**
   pick_next serves the highest level, in every sound state with a free processor, exactly unless a real-time head
   missed its deadline while more real-time tasks wait behind it. Those are then passed over, for a lower level or for
   nothing at all.
   */
  lemma PickIsHighestIff(s: Sched, now: nat)
    requires Inv(s) && s.current.None?
    ensures ServesHighest(s, PickNext(s, now).0, PickNext(s, now).1) <==> !(RealtimeMissed(s) && |s.queues[REALTIME]| > 1)
  {
    hide QueuesOk, StatsOk, IdsOk, CurrentOk, Start, Fail, PickFrom;
    PickNextMeans(s, now);
    if RealtimeMissed(s) {
      FailKeeps(s);
    }
    var (s', p) := PickNext(s, now);
    if p.Some? {
      var s0 := if RealtimeMissed(s) then Fail(s) else s;
      var l: nat :| l < LEVELS && Chosen(s, l) && p.value == s.queues[l][0] && s0.queues[l] == s.queues[l] && s' == Start(s0, l, now)
        && (l != REALTIME ==> RealtimeMissed(s) || s.queues[REALTIME] == []);
      WaitingIsQueued(s, l, 0);
      PickedQueues(s0, l, now);
    }
  }

  lemma PickedQueues(s: Sched, l: nat, now: nat)
    requires Inv(s) && l < LEVELS && s.queues[l] != []
    ensures forall k :: 0 <= k < LEVELS && k != l ==> Start(s, l, now).queues[k] == s.queues[k]
    ensures Start(s, l, now).queues[l] == s.queues[l][1..]
  {
    hide QueueOk;
    WaitingIsQueued(s, l, 0);
    HeadFirst(s.queues[l]);
    assert Remove(s.queues[l], 0) == s.queues[l][1..];
  }

  // ---------- the running task ----------

  lemma RequeueKeeps(s: Sched)
    requires Inv(s) && s.current.Some?
    ensures Inv(Requeue(s)) && Requeue(s).current.None?
  {
    hide QueueOk;
    var i := s.current.value;
    if i in s.queued {
      QueuedIsReady(s, i);
    }
    CurrentIrrelevant(s, None);
    EnqueueKeeps(s.(current := None), i);
    StatsLive(s, Requeue(s), i, s.tasks[i].(state := Ready));
  }

  lemma ChargeKeeps(s: Sched, i: nat, t: Task)
    requires Inv(s) && s.current == Some(i) && t.policy < LEVELS && t.id == s.tasks[i].id && t.state == Executing
    ensures Inv(WithTask(s, i, t))
  {
    hide QueueOk;
    if i in s.queued {
      QueuedIsReady(s, i);
    }
    LooseKeeps(s, i, t);
    StatsLive(s, WithTask(s, i, t), i, t);
  }

  lemma TickKeeps(s: Sched, now: nat)
    requires Inv(s) && (s.current.Some? ==> Weight(s.tasks[s.current.value]) != 0)
    ensures Inv(Tick(s, now))
  {
    hide QueuesOk, Requeue, Weight;
    if s.current.Some? {
      var i := s.current.value;
      var t := s.tasks[i];
      var delta := Elapsed(t, now);
      var s1 := WithTask(s, i, Charge(t, delta));
      ChargeKeeps(s, i, Charge(t, delta));
      if delta >= t.slice || HigherWaiting(s1.queues, t.policy) {
        RequeueKeeps(s1);
        StatsOnly(Requeue(s1), Preempted(Requeue(s1)).stats);
      }
    }
  }

  lemma StatsOnly(s: Sched, st: Stats)
    requires Inv(s) && st == s.stats.(switches := st.switches, preemptions := st.preemptions)
    ensures Inv(s.(stats := st))
  {
    hide QueueOk;
    StatsIrrelevant(s, st);
  }

  /** After a tick the remaining running task has time left and nothing waits above it. */
  lemma TickMeans(s: Sched, now: nat)
    requires Inv(s) && (s.current.Some? ==> Weight(s.tasks[s.current.value]) != 0)
    requires Tick(s, now).current.Some?
    ensures var s' := Tick(s, now); var t := s'.tasks[s'.current.value];
            && s'.current == s.current && Elapsed(t, now) < t.slice
            && forall k :: 0 <= k < t.policy ==> s'.queues[k] == []
  {
    hide QueuesOk, Weight;
    RequeueKeeps(s);
  }

  /**
   A tick charges the time since the task was scheduled, not since the last tick: after two ticks
   the first interval is counted twice, and the total is right only if that interval was empty.
   */
  lemma TwoTicksOvercount(s: Sched, now1: nat, now2: nat)
    requires Shaped(s) && s.current.Some? && Weight(s.tasks[s.current.value]) != 0
    requires Tick(s, now1).current == s.current && Tick(Tick(s, now1), now2).current == s.current
    ensures var i := s.current.value; var t := s.tasks[i];
            Tick(Tick(s, now1), now2).tasks[i].exec == (t.exec + Elapsed(t, now2)) % U64_LIMIT <==> Elapsed(t, now1) == 0
  {
    hide Tick, Weight, Elapsed;
    var i := s.current.value;
    var t := s.tasks[i];
    TickStays(s, now1);
    var s1 := Tick(s, now1);
    SameTiming(t, s1.tasks[i], now1);
    SameTiming(t, s1.tasks[i], now2);
    TickStays(s1, now2);
    ModTwice(t.exec, Elapsed(t, now1), Elapsed(t, now2));
  }

  lemma SameTiming(t: Task, t': Task, now: nat)
    requires t'.lastScheduled == t.lastScheduled && t'.policy == t.policy && t'.priority == t.priority
    ensures Elapsed(t', now) == Elapsed(t, now) && Elapsed(t, now) < U64_LIMIT && Weight(t') == Weight(t)
  {
  }

  lemma TickStays(s: Sched, now: nat)
    requires Shaped(s) && s.current.Some? && Weight(s.tasks[s.current.value]) != 0 && Tick(s, now).current.Some?
    ensures var i := s.current.value; var t := s.tasks[i]; Tick(s, now) == WithTask(s, i, Charge(t, Elapsed(t, now)))
  {
    hide Weight, Elapsed, Charge;
  }

  lemma ModTwice(x: nat, a: nat, b: nat)
    requires a < U64_LIMIT
    ensures ((x + a) % U64_LIMIT + b) % U64_LIMIT == (x + b) % U64_LIMIT <==> a == 0
  {
  }

  lemma YieldKeeps(s: Sched)
    requires Inv(s)
    ensures Inv(Yield(s)) && Yield(s).current.None?
  {
    hide QueuesOk, Requeue;
    if s.current.Some? {
      RequeueKeeps(s);
    }
  }

  lemma PreemptKeeps(s: Sched, id: nat)
    requires Inv(s)
    ensures Inv(Preempt(s, id))
  {
    hide QueuesOk, Enqueue;
    var f := Find(s.tasks, id, 0);
    if f.Some? && s.tasks[f.value].state == Executing {
      RequeueKeeps(s);
      StatsOnly(Requeue(s), Preempted(Requeue(s)).stats);
    }
  }

  // ---------- whole runs ----------

  datatype Op =
    | CreateOp(policy: nat, priority: int, deadline: nat, slice: nat)
    | SubmitOp(id: nat)
    | SuspendOp(id: nat)
    | ResumeOp(id: nat)
    | DestroyOp(id: nat)
    | PriorityOp(id: nat, priority: int)
    | PickOp(now: nat)
    | TickOp(now: nat)
    | YieldOp
    | PreemptOp(id: nat)

  /** The call protocol: what callers must respect for the queues to stay sound. */
  ghost predicate Legal(s: Sched, op: Op)
    requires Shaped(s)
  {
    match op
    case CreateOp(policy, _, _, _) => policy < LEVELS
    case SubmitOp(id) => var f := Find(s.tasks, id, 0); f.Some? ==> f.value !in s.queued
    case SuspendOp(id) => var f := Find(s.tasks, id, 0); f.Some? ==> Detachable(s, f.value)
    case DestroyOp(id) => var f := Find(s.tasks, id, 0); f.Some? ==> Detachable(s, f.value)
    case PriorityOp(id, _) => Settable(s, id)
    case PickOp(_) => s.current.None?
    case TickOp(_) => s.current.Some? ==> Weight(s.tasks[s.current.value]) != 0
    case _ => true
  }

  /** The task does not exist, or is not a created task that was never submitted. */
  ghost predicate Settable(s: Sched, id: nat)
    requires Shaped(s)
  {
    var f := Find(s.tasks, id, 0);
    f.Some? ==> (s.tasks[f.value].state == Ready ==> f.value in s.queued)
  }

  ghost function Step(s: Sched, op: Op): (s': Sched)
    requires Shaped(s) && Legal(s, op)
    ensures Shaped(s')
  {
    match op
    case CreateOp(policy, priority, deadline, slice) => Create(s, policy, priority, deadline, slice).0
    case SubmitOp(id) => Submit(s, id).0
    case SuspendOp(id) => Suspend(s, id).0
    case ResumeOp(id) => Resume(s, id).0
    case DestroyOp(id) => Destroy(s, id).0
    case PriorityOp(id, priority) => SetPriority(s, id, priority).0
    case PickOp(now) => PickNext(s, now).0
    case TickOp(now) => Tick(s, now)
    case YieldOp => Yield(s)
    case PreemptOp(id) => Preempt(s, id)
  }

  lemma StepKeeps(s: Sched, op: Op)
    requires Inv(s) && Legal(s, op)
    ensures Inv(Step(s, op))
  {
    hide QueuesOk, StatsOk, CurrentOk, Create, Submit, Resume, PickNext, Tick, Yield, Preempt, Enqueue, Dequeue, Weight;
    match op
    case CreateOp(policy, priority, deadline, slice) => CreateKeeps(s, policy, priority, deadline, slice);
    case SubmitOp(id) => SubmitKeeps(s, id);
    case SuspendOp(id) =>
      if Find(s.tasks, id, 0).Some? {
        SuspendKeeps(s, Find(s.tasks, id, 0).value);
      }
    case ResumeOp(id) => ResumeKeeps(s, id);
    case DestroyOp(id) =>
      if Find(s.tasks, id, 0).Some? {
        DestroyKeeps(s, Find(s.tasks, id, 0).value);
      }
    case PriorityOp(id, priority) =>
      if Find(s.tasks, id, 0).Some? {
        SetPriorityKeeps(s, Find(s.tasks, id, 0).value, priority);
      }
    case PickOp(now) => PickNextKeeps(s, now);
    case TickOp(now) => TickKeeps(s, now);
    case YieldOp => YieldKeeps(s);
    case PreemptOp(id) => PreemptKeeps(s, id);
  }

  ghost predicate LegalRun(s: Sched, ops: seq<Op>)
    requires Shaped(s)
    decreases |ops|
  {
    ops == [] || (Legal(s, ops[0]) && LegalRun(Step(s, ops[0]), ops[1..]))
  }

  ghost function Run(s: Sched, ops: seq<Op>): (s': Sched)
    requires Shaped(s) && LegalRun(s, ops)
    ensures Shaped(s')
    decreases |ops|
  {
    if ops == [] then s else Run(Step(s, ops[0]), ops[1..])
  }

  lemma FreshInv()
    ensures Inv(Fresh())
  {
  }

  /** The scheduler invariant, over every run that keeps the protocol. */
  lemma {:induction false} RunKeepsInv(s: Sched, ops: seq<Op>)
    requires Inv(s) && LegalRun(s, ops)
    ensures Inv(Run(s, ops))
    decreases |ops|
  {
    hide QueuesOk, StatsOk, CurrentOk, IdsOk, Step, Legal;
    if ops != [] {
      StepKeeps(s, ops[0]);
      RunKeepsInv(Step(s, ops[0]), ops[1..]);
    }
  }

  /** What the invariant says after every legal run. */
  lemma RunMeans(ops: seq<Op>, l: nat, a: nat, b: nat)
    requires LegalRun(Fresh(), ops) && l < LEVELS && a < b < |Run(Fresh(), ops).queues[l]|
    ensures var s := Run(Fresh(), ops); var i, j := s.queues[l][a], s.queues[l][b];
            && i != j && s.tasks[i].policy == s.tasks[j].policy == l && s.tasks[i].state == s.tasks[j].state == Ready
            && s.current != Some(i) && s.tasks[i].vruntime <= s.tasks[j].vruntime
            && (s.tasks[i].vruntime == s.tasks[j].vruntime ==> s.stamps[i] < s.stamps[j])
            && s.stats.active + s.stats.completed + s.stats.failed == s.stats.total
  {
    hide Run, LegalRun;
    FreshInv();
    RunKeepsInv(Fresh(), ops);
    var s := Run(Fresh(), ops);
    assert QueueOk(s, l);
    assert Before(s, s.queues[l][a], s.queues[l][b]);
  }
}
