/**
 What each scheduler call leaves behind, spelled out in plain arithmetic on the records, the queues and the counters:
 who was charged how much, who runs, who waits where, and what stayed as it was.
 */
module SchedCalls {
  import opened Types
  import opened LinkedList
  import opened SchedSpec
  import opened SchedProofs
  import opened SchedEffects

  /** The weight of each policy before the priority is added. */
  const WEIGHTS: seq<nat> := [1, 4, 16, 32, 64, 128]

  lemma WeightIs(t: Task)
    requires t.policy < LEVELS
    ensures Weight(t) == (WEIGHTS[t.policy] + t.priority) % U64_LIMIT
  {
  }

  /** Task `i` waits at its level behind exactly the tasks that do not have a larger virtual runtime; nobody else moved. */
  ghost predicate Waits(s: Sched, s': Sched, i: nat)
    requires Shaped(s) && Shaped(s') && i < |s.tasks| == |s'.tasks|
  {
    var l, v := s'.tasks[i].policy, s'.tasks[i].vruntime;
    && l < LEVELS && OthersWait(s, s', l)
    && exists p :: Joined(s.queues[l], s'.queues[l], i, p) && Divides(s, l, p, v)
  }

  /** The first `p` waiting tasks of level `l` have at most virtual runtime `v`, the others more. */
  ghost predicate Divides(s: Sched, l: nat, p: nat, v: nat)
    requires Shaped(s) && l < LEVELS
  {
    && p <= |s.queues[l]| && (forall j :: 0 <= j < p ==> s.tasks[s.queues[l][j]].vruntime <= v)
    && (forall j :: p <= j < |s.queues[l]| ==> v < s.tasks[s.queues[l][j]].vruntime)
  }

  /** enqueue_task of a task that is on no queue. */
  lemma EnqueueWaits(s: Sched, i: nat)
    requires Shaped(s) && QueuesOk(s) && i < |s.tasks|
    ensures var s' := Enqueue(s, i);
            && s'.tasks == s.tasks[i := s.tasks[i].(state := Ready)] && s'.stats == s.stats && s'.current == s.current
            && Waits(s, s', i)
  {
    hide QueueOk, Joined, Pos, Insert;
    var l, v := s.tasks[i].policy, s.tasks[i].vruntime;
    var p := Pos(s.tasks, s.queues[l], v, 0);
    PosSplits(s, l, v);
    InsertJoins(s.queues[l], i, p);
    assert Divides(s, l, p, v);
  }

  /** The running task goes back to its queue. */
  lemma RequeueWaits(s: Sched)
    requires Inv(s) && s.current.Some?
    ensures var i := s.current.value; var s' := Requeue(s);
            && s'.tasks == s.tasks[i := s.tasks[i].(state := Ready)] && s'.stats == s.stats && s'.current == None
            && Waits(s, s', i)
  {
    hide QueueOk, Enqueue, Joined, QueuedOk, StatsOk, CurrentOk;
    var i := s.current.value;
    CurrentIrrelevant(s, None);
    EnqueueWaits(s.(current := None), i);
  }

  // ---------- the running task ----------

  ghost predicate WaitsAbove(s: Sched, l: nat)
    requires Shaped(s)
  {
    exists k :: 0 <= k < l && k < LEVELS && s.queues[k] != []
  }

  /**
   ai_sched_tick, in all its branches: the running task is charged the time since it was scheduled, divided by its
   weight for the virtual runtime. It leaves the processor exactly when its slice is used up or some higher level waits,
   and only the second case, with time left, counts as a preemption. No other record changes.
   */
  lemma TickCharges(s: Sched, now: nat)
    requires Inv(s) && s.current.Some?
    requires var t := s.tasks[s.current.value]; (WEIGHTS[t.policy] + t.priority) % U64_LIMIT != 0
    ensures Weight(s.tasks[s.current.value]) != 0
    ensures var i := s.current.value; var t := s.tasks[i]; var s' := Tick(s, now);
            var w := (WEIGHTS[t.policy] + t.priority) % U64_LIMIT;
            var e := (now - t.lastScheduled) % U64_LIMIT;
            var leaves := e >= t.slice || WaitsAbove(s, t.policy);
            && |s'.tasks| == |s.tasks| && (forall j :: 0 <= j < |s.tasks| && j != i ==> s'.tasks[j] == s.tasks[j])
            && s'.tasks[i] == t.(exec := (t.exec + e) % U64_LIMIT, vruntime := (t.vruntime + e / w) % U64_LIMIT,
                                 state := if leaves then Ready else Executing)
            && s'.current == (if leaves then None else Some(i))
            && (if leaves then Waits(s, s', i) else s'.queues == s.queues)
            && s'.stats == s.stats.(preemptions := s.stats.preemptions + (if leaves && e < t.slice then 1 else 0))
  {
    hide QueuesOk, StatsOk, IdsOk, Weight, Requeue, Joined;
    var i := s.current.value;
    var t := s.tasks[i];
    WeightIs(t);
    var e := Elapsed(t, now);
    var s1 := WithTask(s, i, Charge(t, e));
    assert t.state == Executing;
    ChargeKeeps(s, i, Charge(t, e));
    assert HigherWaiting(s1.queues, t.policy) <==> WaitsAbove(s, t.policy);
    if e >= t.slice || WaitsAbove(s, t.policy) {
      RequeueWaits(s1);
      WaitsFrom(s, s1, Requeue(s1), i);
    }
  }

  /** What waits does not depend on the record of the task that joins. */
  lemma WaitsFrom(s: Sched, s1: Sched, s': Sched, i: nat)
    requires Inv(s) && s.current == Some(i) && Shaped(s1) && Shaped(s') && i < |s.tasks| == |s1.tasks| == |s'.tasks|
    requires s1.queues == s.queues && (forall j :: 0 <= j < |s.tasks| && j != i ==> s1.tasks[j] == s.tasks[j])
    requires Waits(s1, s', i)
    ensures Waits(s, s', i)
  {
    hide Joined, StatsOk, IdsOk;
    if i in s.queued {
      QueuedIsReady(s, i);
    }
    NotQueued(s, i);
    var l, v := s'.tasks[i].policy, s'.tasks[i].vruntime;
    var q := s.queues[l];
    var p :| Joined(q, s'.queues[l], i, p) && Divides(s1, l, p, v);
    assert forall j :: 0 <= j < |q| ==> q[j] != i && s1.tasks[q[j]] == s.tasks[q[j]];
    assert Divides(s, l, p, v);
  }

  /** ai_sched_yield: the running task waits again, uncharged; nothing is counted. */
  lemma YieldWaits(s: Sched)
    requires Inv(s)
    ensures var s' := Yield(s);
            match s.current
            case None => s' == s
            case Some(i) =>
              && s'.tasks == s.tasks[i := s.tasks[i].(state := Ready)] && s'.stats == s.stats && s'.current == None
              && Waits(s, s', i)
  {
    hide QueuesOk, StatsOk, IdsOk, Requeue, Waits;
    if s.current.Some? {
      RequeueWaits(s);
    }
  }

  /** ai_sched_preempt: the same for the named task if it is the running one, and counted; anything else changes nothing. */
  lemma PreemptWaits(s: Sched, id: nat)
    requires Inv(s)
    ensures var s' := Preempt(s, id);
            if s.current.Some? && id == s.current.value + 1 then
              var i := s.current.value;
              && s'.tasks == s.tasks[i := s.tasks[i].(state := Ready)] && s'.current == None
              && s'.stats == s.stats.(preemptions := s.stats.preemptions + 1) && Waits(s, s', i)
            else s' == s
  {
    hide QueuesOk, StatsOk, Enqueue, Waits;
    var f := Find(s.tasks, id, 0);
    if s.current.Some? {
      FindIs(s, s.current.value);
      RequeueWaits(s);
      if id == s.current.value + 1 {
        CountedWaits(s, Requeue(s), s.current.value);
      }
    }
  }

  lemma CountedWaits(s: Sched, s': Sched, i: nat)
    requires Shaped(s) && Shaped(s') && i < |s.tasks| == |s'.tasks| && Waits(s, s', i)
    ensures Shaped(Preempted(s')) && Waits(s, Preempted(s'), i)
  {
    hide Joined;
  }

  /** ai_task_resume: exactly a suspended task waits again, with the virtual runtime it had. */
  lemma ResumeWaits(s: Sched, id: nat)
    requires Inv(s)
    ensures var (s', status) := Resume(s, id);
            if 1 <= id <= |s.tasks| && s.tasks[id - 1].state == Suspended then
              && status == Ok && s'.tasks == s.tasks[id - 1 := s.tasks[id - 1].(state := Ready)]
              && s'.stats == s.stats && s'.current == s.current && Waits(s, s', id - 1)
            else s' == s && status == Inval
  {
    hide QueuesOk, StatsOk, Enqueue, Waits;
    if 1 <= id <= |s.tasks| {
      FindIs(s, id - 1);
      EnqueueWaits(s, id - 1);
    }
  }

  /** ai_task_create: the next id, the parameters as given, never charged, on no queue; refused exactly when the pool is full. */
  lemma CreateMeans(s: Sched, policy: nat, priority: int, deadline: nat, slice: nat)
    requires Inv(s) && policy < LEVELS
    ensures var (s', status) := Create(s, policy, priority, deadline, slice); var n := |s.tasks|;
            if n < 256 then
              && status == Ok && |s'.tasks| == n + 1 && s'.tasks[..n] == s.tasks
              && s'.tasks[n].id == n + 1 && s'.tasks[n].state == Ready && s'.tasks[n].policy == policy
              && s'.tasks[n].priority == priority && s'.tasks[n].deadline == deadline && s'.tasks[n].slice == slice
              && s'.tasks[n].vruntime == s'.tasks[n].exec == s'.tasks[n].lastScheduled == 0
              && s'.queues == s.queues && (forall l :: 0 <= l < LEVELS ==> n !in s'.queues[l]) && s'.current == s.current
              && s'.stats == s.stats.(total := s.stats.total + 1, active := s.stats.active + 1)
            else s' == s && status == NoMem
  {
    hide QueuesOk, StatsOk;
  }

  /** ai_task_set_priority of a waiting task: it is queued again, so it falls behind every task it ties with. */
  lemma PriorityRequeues(s: Sched, i: nat, priority: int, a: nat, b: nat)
    requires Inv(s) && i < |s.tasks| && s.tasks[i].state == Ready && i in s.queued
    requires var q := SetPriority(s, i + 1, priority).0.queues[s.tasks[i].policy]; a < b < |q| && q[a] == i
    ensures var s' := SetPriority(s, i + 1, priority).0; var j := s'.queues[s.tasks[i].policy][b];
            j < |s.tasks| && j != i && s.tasks[i].vruntime < s.tasks[j].vruntime
  {
    hide Enqueue, Dequeue, StatsOk, CurrentOk;
    FindIs(s, i);
    SetPriorityKeeps(s, i, priority);
    SetPriorityMeans(s, i, priority);
    var s', l := SetPriority(s, i + 1, priority).0, s.tasks[i].policy;
    var j := s'.queues[l][b];
    assert QueueOk(s', l);
    assert Before(s', i, j);
    PriorityStamps(s, i, priority, j);
  }

  lemma PriorityStamps(s: Sched, i: nat, priority: int, j: nat)
    requires Inv(s) && i < |s.tasks| && s.tasks[i].state == Ready && i in s.queued && Find(s.tasks, i + 1, 0) == Some(i)
    requires j < |s.tasks| && j != i && j in s.queued
    ensures var s' := SetPriority(s, i + 1, priority).0; |s'.stamps| == |s.tasks| && s'.stamps[j] < s'.stamps[i]
  {
    hide QueueOk, StatsOk, CurrentOk, Pos, Insert, Remove, IndexOf;
  }

  /** An id that no task has is refused by every call, and a running or finished task cannot be submitted; nothing changes. */
  lemma CallsRefused(s: Sched, id: nat, priority: int)
    requires Inv(s)
    ensures !(1 <= id <= |s.tasks|) ==>
              && Submit(s, id) == (s, Inval) && Suspend(s, id) == (s, Inval) && Resume(s, id) == (s, Inval)
              && Destroy(s, id) == (s, Inval) && SetPriority(s, id, priority) == (s, Inval) && Preempt(s, id) == s
    ensures 1 <= id <= |s.tasks| && s.tasks[id - 1].state in {Executing, Completed, Failed} ==> Submit(s, id) == (s, Inval)
  {
    hide QueuesOk, StatsOk, Enqueue, Dequeue;
    var f := Find(s.tasks, id, 0);
    if 1 <= id <= |s.tasks| {
      FindIs(s, id - 1);
    }
  }

  // ---------- picking ----------

  /** The head of the real-time queue has run longer than its deadline allows. */
  predicate Late(s: Sched)
    requires Shaped(s)
  {
    && s.queues[0] != []
    && var t := s.tasks[s.queues[0][0]]; t.deadline > 0 && t.exec > t.deadline
  }

  /** The record after a pick: the picked task runs from now on, a late head has failed. */
  ghost predicate Picked(s: Sched, s': Sched, picked: Option<nat>, now: nat)
    requires Shaped(s)
  {
    && |s'.tasks| == |s.tasks|
    && forall j :: 0 <= j < |s.tasks| ==>
         s'.tasks[j] == if picked == Some(j) then s.tasks[j].(state := Executing, lastScheduled := now)
                        else if Late(s) && j == s.queues[0][0] then s.tasks[j].(state := Failed)
                        else s.tasks[j]
  }

  /** Task `i` leads level `l`, the first from `from` on at which somebody waits. */
  ghost predicate Serves(s: Sched, from: nat, l: nat, i: nat)
    requires Shaped(s)
  {
    from <= l < LEVELS && s.queues[l] != [] && i == s.queues[l][0] && forall k :: from <= k < l ==> s.queues[k] == []
  }

  /** A late head left the real-time queue, and the picked head left level `l`. */
  ghost predicate QueuesAfter(s: Sched, s': Sched, l: nat)
    requires Shaped(s)
  {
    |s'.queues| == LEVELS && forall k :: 0 <= k < LEVELS ==> s'.queues[k] == Behind(s.queues[k], k == l || (k == 0 && Late(s)))
  }

  function Behind(q: seq<nat>, gone: bool): seq<nat> { if gone && q != [] then q[1..] else q }

  /**
   ai_sched_pick_next with a free processor. A late real-time head fails. Then the head of the first level that has one
   runs from now on, but after a failure the real-time level is passed over. The head leaves its queue, a switch is
   counted, and nothing else changes.
   */
  lemma PickMeans(s: Sched, now: nat)
    requires Inv(s) && s.current.None?
    ensures var (s', picked) := PickNext(s, now); var from := if Late(s) then 1 else 0;
            var failed := if Late(s) then 1 else 0;
            && s'.current == picked && Picked(s, s', picked, now)
            && s'.stats == s.stats.(failed := s.stats.failed + failed, active := s.stats.active - failed,
                                    switches := s.stats.switches + (if picked.Some? then 1 else 0))
            && (match picked
                case None => forall k :: from <= k < LEVELS ==> s.queues[k] == []
                case Some(i) => exists l :: Serves(s, from, l, i) && QueuesAfter(s, s', l))
            && (picked.None? ==> QueuesAfter(s, s', LEVELS))
  {
    hide QueuesOk, StatsOk, IdsOk, CurrentOk, Start, Fail, PickFrom;
    PickNextMeans(s, now);
    assert RealtimeMissed(s) <==> Late(s);
    if Late(s) {
      FailKeeps(s);
      FailMeans(s);
    }
    var s0 := if Late(s) then Fail(s) else s;
    var (s', picked) := PickNext(s, now);
    if picked.Some? {
      var l: nat :| l < LEVELS && Chosen(s, l) && (l != REALTIME ==> RealtimeMissed(s) || s.queues[REALTIME] == [])
                    && picked.value == s.queues[l][0] && s0.queues[l] == s.queues[l] && s' == Start(s0, l, now);
      StartMeans(s0, l, now);
      assert Serves(s, if Late(s) then 1 else 0, l, picked.value) && QueuesAfter(s, s', l);
    }
  }

  lemma FailMeans(s: Sched)
    requires Inv(s) && s.queues[REALTIME] != []
    ensures var s' := Fail(s); var i := s.queues[REALTIME][0];
            && i < |s.tasks| && s'.tasks == s.tasks[i := s.tasks[i].(state := Failed)] && s'.current == s.current
            && s'.stats == s.stats.(failed := s.stats.failed + 1, active := s.stats.active - 1)
  {
    hide QueuesOk, StatsOk, IdsOk, CurrentOk;
  }

  lemma StartMeans(s: Sched, l: nat, now: nat)
    requires Inv(s) && l < LEVELS && s.queues[l] != [] && s.current.None?
    ensures var s' := Start(s, l, now); var i := s.queues[l][0];
            && i < |s.tasks| && s'.tasks == s.tasks[i := s.tasks[i].(state := Executing, lastScheduled := now)]
            && s'.current == Some(i) && s'.stats == s.stats.(switches := s.stats.switches + 1)
            && forall k :: 0 <= k < LEVELS ==> s'.queues[k] == if k == l then s.queues[k][1..] else s.queues[k]
  {
    hide QueuesOk, StatsOk, IdsOk, CurrentOk;
    PickedQueues(s, l, now);
  }
}
