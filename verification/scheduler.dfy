/**
 The workload scheduler as the source runs it: intrusive run queues threaded through the task
 pool. Every call does to the abstract scheduler exactly what SchedSpec says.
 */
module Scheduler {
  import opened Types
  import opened LinkedList
  import opened SchedSpec
  import Proofs = SchedProofs

  /** The cells hold exactly the tasks of the pool. */
  ghost predicate Sync(m: Store<Task>, pool: seq<Task>) {
    && (forall i :: 0 <= i < |pool| ==> i in m && m[i].val == pool[i])
    && (forall i :: i in m ==> i < |pool|)
  }

  lemma SyncAt(m: Store<Task>, pool: seq<Task>, i: nat)
    requires Sync(m, pool) && i < |pool|
    ensures i in m && m[i].val == pool[i]
  {
  }

  lemma SyncSame(m: Store<Task>, m': Store<Task>, pool: seq<Task>)
    requires Sync(m, pool) && SameVals(m, m')
    ensures Sync(m', pool)
  {
  }

  lemma SyncSet(m: Store<Task>, pool: seq<Task>, i: nat, t: Task)
    requires Sync(m, pool) && i < |pool| && i in m
    ensures Sync(m[i := m[i].(val := t)], pool[i := t])
  {
  }

  lemma SyncNew(m: Store<Task>, pool: seq<Task>, c: Cell<Task>)
    requires Sync(m, pool)
    ensures |pool| !in m && Sync(m[|pool| := c], pool + [c.val])
  {
  }

  lemma {:induction false} PosIs(ts: seq<Task>, q: seq<nat>, v: nat, k: nat, p: nat)
    requires k <= p <= |q| && forall j :: 0 <= j < |q| ==> q[j] < |ts|
    requires forall j :: k <= j < p ==> ts[q[j]].vruntime <= v
    requires p < |q| ==> v < ts[q[p]].vruntime
    ensures Pos(ts, q, v, k) == p
    decreases p - k
  {
    if k < p {
      PosIs(ts, q, v, k + 1, p);
    }
  }

  lemma {:induction false} IndexIs(q: seq<nat>, k: nat)
    requires k < |q| && Distinct(q)
    ensures IndexOf(q, q[k]) == k
  {
  }

  lemma {:induction false} FirstIs(ts: seq<Task>, id: nat, n: nat, p: nat)
    requires n <= p <= |ts| && forall j :: n <= j < p ==> ts[j].id != id
    requires p < |ts| ==> ts[p].id == id
    ensures Find(ts, id, n) == if p < |ts| then Some(p) else None
    decreases p - n
  {
    if n < p {
      FirstIs(ts, id, n + 1, p);
    }
  }

  class RunQueues {
    const lists: Lists<Task>
    var poolNext: nat
    var sizes: seq<int>
    var current: Option<nat>
    var stats: Stats
    ghost var stamps: seq<nat>
    ghost var clock: nat
    ghost var queued: set<nat>
    ghost var pool: seq<Task>

    ghost predicate Linked()
      reads this, lists
    {
      && lists.Valid() && |lists.chains| == LEVELS
      && Sync(lists.cells, pool) && |pool| == poolNext
    }

    ghost predicate Valid()
      reads this, lists
    {
      Linked() && Shaped(Abs())
    }

    ghost function Abs(): Sched
      reads this, lists
    {
      Sched(pool, lists.chains, sizes, current, stats, stamps, clock, queued)
    }

    /** ai_sched_init on a fresh boot. */
    constructor ()
      ensures Valid() && fresh(lists) && Abs() == Fresh()
    {
      lists := new Lists(LEVELS);
      poolNext, sizes, current := 0, seq(LEVELS, _ => 0), None;
      stats := Stats(0, 0, 0, 0, 0, 0);
      pool, stamps, clock, queued := [], [], 0, {};
    }

    /** find_task */
    method FindTask(id: nat) returns (i: Option<nat>)
      requires Linked()
      ensures i == Find(pool, id, 0)
    {
      hide lists.Valid, Sync;
      var n := 0;
      while n < poolNext
        invariant 0 <= n <= poolNext && forall j :: 0 <= j < n ==> pool[j].id != id
      {
        SyncAt(lists.cells, pool, n);
        if lists.cells[n].val.id == id {
          FirstIs(pool, id, 0, n);
          return Some(n);
        }
        n := n + 1;
      }
      FirstIs(pool, id, 0, n);
      i := None;
    }

    /** One field update of a task that is on no queue. */
    method SetTask(i: nat, t: Task)
      requires Valid() && i < poolNext && t.policy < LEVELS && OnNone(lists.chains, i)
      modifies this`pool, lists`cells
      ensures Valid() && Abs() == WithTask(old(Abs()), i, t) && lists.chains == old(lists.chains)
    {
      hide lists.Valid, Shaped, Sync, OnNone;
      WithTaskShaped(Abs(), i, t);
      SyncAt(lists.cells, pool, i);
      SyncSet(lists.cells, pool, i, t);
      lists.SetLoose(i, t);
      pool := pool[i := t];
    }

    /** The walk of enqueue_task: the last task that stays ahead of virtual runtime `v`, if any. */
    method FindPlace(l: nat, v: nat) returns (after: Option<nat>, ghost k: nat)
      requires Linked() && l < LEVELS && forall j :: 0 <= j < |lists.chains[l]| ==> lists.chains[l][j] < |pool|
      ensures Pos(pool, lists.chains[l], v, 0) == if after.Some? then k + 1 else 0
      ensures after.Some? ==> k < |lists.chains[l]| && lists.chains[l][k] == after.value
    {
      hide lists.Valid, LinkAt, Sync;
      ghost var chain := lists.chains[l];
      lists.Sizes();
      lists.ListAt(l);
      HeadIs(lists.cells, lists.heads[l], chain);
      var head := lists.heads[l];
      k := 0;
      if head.Some? {
        SyncAt(lists.cells, pool, head.value);
      }
      if head.None? || v < lists.cells[head.value].val.vruntime {
        PosIs(pool, chain, v, 0, 0);
        return None, k;
      }
      var curr := head.value;
      lists.Around(l, 0);
      while true
        invariant 0 <= k < |chain| && chain[k] == curr && curr in lists.cells && lists.cells[curr].next == At(chain, k + 1)
        invariant forall j :: 0 <= j <= k ==> pool[chain[j]].vruntime <= v
        decreases |chain| - k
      {
        var next := lists.cells[curr].next;
        if next.Some? {
          SyncAt(lists.cells, pool, next.value);
        }
        if next.None? || lists.cells[next.value].val.vruntime > v {
          break;
        }
        curr := next.value;
        k := k + 1;
        lists.Around(l, k);
      }
      PosIs(pool, chain, v, 0, k + 1);
      after := Some(curr);
    }

    /** The pointer writes of enqueue_task. */
    method Link(i: nat, l: nat, after: Option<nat>, ghost k: nat)
      requires Linked() && i < poolNext && l < LEVELS && OnNone(lists.chains, i)
      requires after.Some? ==> k < |lists.chains[l]| && lists.chains[l][k] == after.value
      modifies lists
      ensures Linked()
      ensures var p := if after.Some? then k + 1 else 0;
              p <= |old(lists.chains)[l]| && lists.chains == old(lists.chains)[l := Insert(old(lists.chains)[l], p, i)]
    {
      hide lists.Valid, Sync, OnNone;
      SyncAt(lists.cells, pool, i);
      if after.None? {
        lists.PushFront(l, i);
      } else {
        lists.InsertAfter(l, after.value, i, k);
      }
      SyncSame(old(lists.cells), lists.cells, pool);
    }

    /** enqueue_task */
    method EnqueueTask(i: nat)
      requires Valid() && i < poolNext && OnNone(lists.chains, i)
      modifies this, lists
      ensures Valid() && Abs() == Enqueue(old(Abs()), i) && poolNext == old(poolNext)
    {
      hide lists.Valid, Shaped, Sync, OnNone, Insert;
      ShapedTask(Abs(), i);
      SyncAt(lists.cells, pool, i);
      var t := lists.cells[i].val;
      var l := t.policy;
      ShapedQueue(Abs(), l);
      var after;
      ghost var k;
      after, k := FindPlace(l, t.vruntime);
      SetTask(i, t.(state := Ready));
      Link(i, l, after, k);
      sizes := sizes[l := sizes[l] + 1];
      stamps, clock, queued := stamps[i := clock], clock + 1, queued + {i};
      assert Abs() == Enqueue(old(Abs()), i);
    }

    /** dequeue_task of a task that waits in its queue. */
    method DequeueTask(i: nat)
      requires Valid() && i < poolNext && pool[i].policy < LEVELS && i in lists.chains[pool[i].policy]
      modifies this`sizes, this`queued, lists
      ensures Valid() && Abs() == Dequeue(old(Abs()), i) && OnNone(lists.chains, i)
    {
      hide lists.Valid, Shaped, Sync, OnNone, Remove;
      ShapedTask(Abs(), i);
      SyncAt(lists.cells, pool, i);
      var l := lists.cells[i].val.policy;
      lists.Unlink(l, i, IndexOf(lists.chains[l], i));
      SyncSame(old(lists.cells), lists.cells, pool);
      sizes := sizes[l := sizes[l] - 1];
      queued := queued - {i};
      assert Abs() == Dequeue(old(Abs()), i);
    }

    /** The links are sound and the scheduler they spell keeps its invariant. */
    ghost predicate Sound()
      reads this, lists
    {
      Valid() && Proofs.Inv(Abs())
    }

    /** ai_task_create */
    method CreateTask(policy: nat, priority: int, deadline: nat, slice: nat) returns (status: Status)
      requires Sound() && policy < LEVELS
      modifies this, lists
      ensures Sound() && (Abs(), status) == Create(old(Abs()), policy, priority, deadline, slice)
    {
      hide lists.Valid, Shaped, Sync, Proofs.Inv;
      Proofs.CreateKeeps(Abs(), policy, priority, deadline, slice);
      if poolNext >= MAX_TASKS {
        return NoMem;
      }
      var t := Task(poolNext + 1, Ready, policy, priority, deadline, slice, 0, 0, 0);
      SyncNew(lists.cells, pool, Cell(t, None, None));
      lists.NewCell(poolNext, t);
      pool, stamps := pool + [t], stamps + [0];
      poolNext := poolNext + 1;
      stats := stats.(total := stats.total + 1, active := stats.active + 1);
      status := Ok;
      assert Abs() == Create(old(Abs()), policy, priority, deadline, slice).0;
    }

    /** The task leaves the processor or its queue. */
    method DetachTask(i: nat)
      requires Sound() && i < poolNext && Proofs.Detachable(Abs(), i)
      modifies this`current, this`sizes, this`queued, lists
      ensures Valid() && Abs() == Detach(old(Abs()), i) && OnNone(lists.chains, i)
    {
      hide lists.Valid, Shaped, Sync, OnNone, Proofs.Inv;
      ShapedTask(Abs(), i);
      SyncAt(lists.cells, pool, i);
      var state := lists.cells[i].val.state;
      if state == Executing {
        LooseOnNone(Abs(), i);
        current := None;
        assert Abs() == Detach(old(Abs()), i);
      } else if state == Ready {
        QueuedOn(Abs(), i);
        DequeueTask(i);
      } else {
        LooseOnNone(Abs(), i);
      }
    }

    /** ai_task_destroy */
    method DestroyTask(id: nat) returns (status: Status)
      requires Sound() && (Find(pool, id, 0).Some? ==> Proofs.Detachable(Abs(), Find(pool, id, 0).value))
      modifies this, lists
      ensures Sound() && (Abs(), status) == Destroy(old(Abs()), id)
    {
      hide lists.Valid, Shaped, Sync, OnNone, Proofs.Inv, Detach;
      var found := FindTask(id);
      if found.None? {
        return Inval;
      }
      var i := found.value;
      IdOf(Abs(), i);
      Proofs.DestroyKeeps(Abs(), i);
      ShapedTask(Abs(), i);
      DetachTask(i);
      SyncAt(lists.cells, pool, i);
      SetTask(i, lists.cells[i].val.(state := Completed));
      stats := stats.(active := stats.active - 1, completed := stats.completed + 1);
      status := Ok;
      assert Abs() == Destroy(old(Abs()), id).0;
    }

    /** ai_task_suspend */
    method SuspendTask(id: nat) returns (status: Status)
      requires Sound() && (Find(pool, id, 0).Some? ==> Proofs.Detachable(Abs(), Find(pool, id, 0).value))
      modifies this, lists
      ensures Sound() && (Abs(), status) == Suspend(old(Abs()), id)
    {
      hide lists.Valid, Shaped, Sync, OnNone, Proofs.Inv, Detach;
      var found := FindTask(id);
      if found.None? {
        return Inval;
      }
      var i := found.value;
      IdOf(Abs(), i);
      Proofs.SuspendKeeps(Abs(), i);
      ShapedTask(Abs(), i);
      DetachTask(i);
      SyncAt(lists.cells, pool, i);
      SetTask(i, lists.cells[i].val.(state := Suspended));
      status := Ok;
      assert Abs() == Suspend(old(Abs()), id).0;
    }

    /** ai_task_submit */
    method SubmitTask(id: nat) returns (status: Status)
      requires Sound() && (Find(pool, id, 0).Some? ==> Find(pool, id, 0).value !in queued)
      modifies this, lists
      ensures Sound() && (Abs(), status) == Submit(old(Abs()), id)
    {
      hide lists.Valid, Shaped, Sync, OnNone, Proofs.Inv, LinkAt, Enqueue;
      Proofs.SubmitKeeps(Abs(), id);
      var found := FindTask(id);
      if found.None? {
        return Inval;
      }
      var i := found.value;
      SyncAt(lists.cells, pool, i);
      var t := lists.cells[i].val;
      if t.state != Ready && t.state != Suspended {
        return Inval;
      }
      ShapedTask(Abs(), i);
      ShapedQueue(Abs(), t.policy);
      LooseOnNone(Abs(), i);
      var v := HeadRuntime(t.policy);
      if v.Some? {
        SetTask(i, t.(vruntime := v.value));
      } else {
        assert WithTask(Abs(), i, t) == Abs();
      }
      EnqueueTask(i);
      status := Ok;
      assert Abs() == Submit(old(Abs()), id).0;
    }

    /** The virtual runtime at the head of a queue. */
    method HeadRuntime(l: nat) returns (v: Option<nat>)
      requires Linked() && l < LEVELS && forall j :: 0 <= j < |lists.chains[l]| ==> lists.chains[l][j] < |pool|
      ensures v == if lists.chains[l] == [] then None else Some(pool[lists.chains[l][0]].vruntime)
    {
      hide lists.Valid, LinkAt, Sync;
      lists.Sizes();
      lists.ListAt(l);
      HeadIs(lists.cells, lists.heads[l], lists.chains[l]);
      var head := lists.heads[l];
      if head.None? {
        return None;
      }
      SyncAt(lists.cells, pool, head.value);
      v := Some(lists.cells[head.value].val.vruntime);
    }

    /** ai_task_resume */
    method ResumeTask(id: nat) returns (status: Status)
      requires Sound()
      modifies this, lists
      ensures Sound() && (Abs(), status) == Resume(old(Abs()), id)
    {
      hide lists.Valid, Shaped, Sync, OnNone, Proofs.Inv, Enqueue;
      Proofs.ResumeKeeps(Abs(), id);
      var found := FindTask(id);
      if found.None? {
        return Inval;
      }
      var i := found.value;
      SyncAt(lists.cells, pool, i);
      if lists.cells[i].val.state != Suspended {
        return Inval;
      }
      NotReadyOnNone(Abs(), i);
      EnqueueTask(i);
      status := Ok;
    }

    /** ai_task_set_priority */
    method SetPriorityOf(id: nat, priority: int) returns (status: Status)
      requires Sound() && Proofs.Settable(Abs(), id)
      modifies this, lists
      ensures Sound() && (Abs(), status) == SetPriority(old(Abs()), id, priority)
    {
      hide lists.Valid, Shaped, Sync, OnNone, Proofs.Inv, Enqueue, Dequeue;
      var found := FindTask(id);
      if found.None? {
        return Inval;
      }
      var i := found.value;
      IdOf(Abs(), i);
      Proofs.SetPriorityKeeps(Abs(), i, priority);
      ShapedTask(Abs(), i);
      SyncAt(lists.cells, pool, i);
      var wasQueued := lists.cells[i].val.state == Ready;
      if wasQueued {
        QueuedOn(Abs(), i);
        DequeueTask(i);
      } else {
        NotReadyOnNone(Abs(), i);
      }
      SyncAt(lists.cells, pool, i);
      SetTask(i, lists.cells[i].val.(priority := priority));
      if wasQueued {
        EnqueueTask(i);
      }
      status := Ok;
      assert Abs() == SetPriority(old(Abs()), id, priority).0;
    }

    /** ai_task_get_priority */
    method GetPriorityOf(id: nat) returns (priority: Option<int>)
      requires Linked()
      ensures var f := Find(pool, id, 0); priority == if f.Some? then Some(pool[f.value].priority) else None
    {
      hide lists.Valid, Sync;
      var found := FindTask(id);
      if found.None? {
        return None;
      }
      SyncAt(lists.cells, pool, found.value);
      priority := Some(lists.cells[found.value].val.priority);
    }

    method HeadOf(l: nat) returns (head: Option<nat>)
      requires Linked() && l < LEVELS
      ensures head == At(lists.chains[l], 0)
    {
      hide lists.Valid, LinkAt, Sync;
      lists.Sizes();
      lists.ListAt(l);
      head := lists.heads[l];
    }

    /** The head of level `l` leaves its queue with a new record. */
    method TakeHead(l: nat, i: nat, t: Task)
      requires Sound() && l < LEVELS && lists.chains[l] != [] && lists.chains[l][0] == i && t.policy < LEVELS
      modifies this, lists
      ensures Valid() && current == old(current) && stats == old(stats) && i < |old(Abs()).tasks|
      ensures Abs() == WithTask(Dequeue(old(Abs()), i), i, t)
    {
      hide lists.Valid, Shaped, Sync, OnNone, Proofs.Inv, Dequeue;
      Proofs.WaitingIsQueued(Abs(), l, 0);
      QueuedOn(Abs(), i);
      DequeueTask(i);
      SetTask(i, t);
    }

    /** pick_next at one level that has a waiting task to run. */
    method StartTask(l: nat, i: nat, now: nat)
      requires Sound() && l < LEVELS && lists.chains[l] != [] && lists.chains[l][0] == i && current.None?
      modifies this, lists
      ensures Sound() && Abs() == Start(old(Abs()), l, now)
    {
      hide lists.Valid, Shaped, Sync, Proofs.Inv, Dequeue;
      Proofs.StartKeeps(Abs(), l, now);
      Proofs.WaitingIsQueued(Abs(), l, 0);
      SyncAt(lists.cells, pool, i);
      TakeHead(l, i, lists.cells[i].val.(state := Executing, lastScheduled := now));
      if current != Some(i) {
        stats := stats.(switches := stats.switches + 1);
      }
      current := Some(i);
      assert Abs() == Start(old(Abs()), l, now);
    }

    /** pick_next on a real-time head that missed its deadline. */
    method FailTask(i: nat)
      requires Sound() && lists.chains[REALTIME] != [] && lists.chains[REALTIME][0] == i
      modifies this, lists
      ensures Sound() && Abs() == Fail(old(Abs())) && current == old(current)
    {
      hide lists.Valid, Shaped, Sync, Proofs.Inv, Dequeue;
      Proofs.FailKeeps(Abs());
      Proofs.WaitingIsQueued(Abs(), REALTIME, 0);
      SyncAt(lists.cells, pool, i);
      TakeHead(REALTIME, i, lists.cells[i].val.(state := Failed));
      stats := stats.(failed := stats.failed + 1, active := stats.active - 1);
      assert Abs() == Fail(old(Abs()));
    }

    /** ai_sched_pick_next */
    method PickNextTask(now: nat) returns (picked: Option<nat>)
      requires Sound() && current.None?
      modifies this, lists
      ensures Sound() && (Abs(), picked) == PickNext(old(Abs()), now)
    {
      hide lists.Valid, Shaped, Sync, Proofs.Inv, Start, Fail, Missed;
      for level := 0 to LEVELS
        invariant Sound() && current.None?
        invariant PickFrom(Abs(), level, now) == PickFrom(old(Abs()), 0, now)
      {
        ShapedQueue(Abs(), level);
        var head := HeadOf(level);
        if head.Some? {
          var i := head.value;
          SyncAt(lists.cells, pool, i);
          if level == REALTIME && Missed(lists.cells[i].val) {
            FailTask(i);
            continue;
          }
          StartTask(level, i, now);
          return Some(i);
        }
      }
      picked := None;
    }

    /** The running task goes back to its queue. */
    method RequeueTask()
      requires Sound() && current.Some?
      modifies this, lists
      ensures Sound() && Abs() == Requeue(old(Abs())) && current.None?
    {
      hide lists.Valid, Shaped, Sync, OnNone, Proofs.Inv, Enqueue;
      Proofs.RequeueKeeps(Abs());
      var i := RunningTask();
      NotReadyOnNone(Abs(), i);
      CurrentShaped(Abs());
      current := None;
      EnqueueTask(i);
    }

    method RunningTask() returns (i: nat)
      requires Sound() && current.Some?
      ensures current == Some(i) && i < poolNext && i in lists.cells && lists.cells[i].val == pool[i]
      ensures pool[i].state == Executing && pool[i].policy < LEVELS
    {
      hide lists.Valid, Sync;
      i := current.value;
      SyncAt(lists.cells, pool, i);
    }

    /** ai_sched_tick */
    method TickTask(now: nat)
      requires Sound() && (current.Some? ==> current.value < |pool| && Weight(pool[current.value]) != 0)
      modifies this, lists
      ensures Sound() && Abs() == Tick(old(Abs()), now)
    {
      hide lists.Valid, Shaped, Sync, OnNone, Proofs.Inv, Requeue, Charge, Weight, Elapsed;
      Proofs.TickKeeps(Abs(), now);
      if current.None? {
        return;
      }
      var i := RunningTask();
      var t := lists.cells[i].val;
      var delta := Elapsed(t, now);
      ChargeFacts(t, delta);
      NotReadyOnNone(Abs(), i);
      Proofs.ChargeKeeps(Abs(), i, Charge(t, delta));
      SetTask(i, Charge(t, delta));
      if delta >= t.slice {
        RequeueTask();
        return;
      }
      ShapedQueue(Abs(), 0);
      var waiting := AnyAbove(t.policy);
      if waiting {
        RequeueTask();
        Proofs.StatsOnly(Abs(), stats.(preemptions := stats.preemptions + 1));
        stats := stats.(preemptions := stats.preemptions + 1);
        assert Abs() == Preempted(Requeue(WithTask(old(Abs()), i, Charge(t, delta))));
      }
    }

    /** The loop of ai_sched_tick over the levels above the running task. */
    method AnyAbove(l: nat) returns (waiting: bool)
      requires Linked() && l <= LEVELS
      ensures waiting == HigherWaiting(lists.chains, l)
    {
      hide lists.Valid, Sync;
      for level := 0 to l
        invariant forall k :: 0 <= k < level ==> lists.chains[k] == []
      {
        var head := HeadOf(level);
        if head.Some? {
          return true;
        }
      }
      waiting := false;
    }

    /** ai_sched_yield */
    method YieldTask()
      requires Sound()
      modifies this, lists
      ensures Sound() && Abs() == Yield(old(Abs()))
    {
      hide lists.Valid, Shaped, Sync, Proofs.Inv, Requeue;
      if current.Some? {
        RequeueTask();
      }
    }

    /** ai_sched_preempt */
    method PreemptTask(id: nat)
      requires Sound()
      modifies this, lists
      ensures Sound() && Abs() == Preempt(old(Abs()), id)
    {
      hide lists.Valid, Shaped, Sync, Proofs.Inv, Enqueue;
      var found := FindTask(id);
      if found.None? {
        return;
      }
      SyncAt(lists.cells, pool, found.value);
      if lists.cells[found.value].val.state != Executing {
        return;
      }
      IsCurrent(Abs(), found.value);
      RequeueTask();
      Proofs.StatsOnly(Abs(), stats.(preemptions := stats.preemptions + 1));
      stats := stats.(preemptions := stats.preemptions + 1);
      assert Abs() == Preempt(old(Abs()), id);
    }
  }

  lemma WithTaskShaped(s: Sched, i: nat, t: Task)
    requires Shaped(s) && i < |s.tasks| && t.policy < LEVELS
    ensures Shaped(WithTask(s, i, t))
  {
  }

  lemma ShapedQueue(s: Sched, l: nat)
    requires Shaped(s) && l < LEVELS
    ensures |s.queues| == |s.sizes| == LEVELS && forall j :: 0 <= j < |s.queues[l]| ==> s.queues[l][j] < |s.tasks|
  {
  }

  lemma ShapedTask(s: Sched, i: nat)
    requires Shaped(s) && i < |s.tasks|
    ensures |s.queues| == |s.sizes| == LEVELS && |s.stamps| == |s.tasks| && s.tasks[i].policy < LEVELS
  {
  }

  lemma HeadIs<T>(m: Store<T>, head: Option<nat>, chain: seq<nat>)
    requires LinkedList.Linked(m, head, chain)
    ensures head == At(chain, 0) && (chain != [] ==> chain[0] in m)
  {
  }

  lemma LooseOnNone(s: Sched, i: nat)
    requires Proofs.Inv(s) && i < |s.tasks| && (i !in s.queued || s.tasks[i].state != Ready)
    ensures OnNone(s.queues, i)
  {
    if i in s.queued {
      Proofs.QueuedIsReady(s, i);
    }
    Proofs.NotQueued(s, i);
  }

  lemma NotReadyOnNone(s: Sched, i: nat)
    requires Proofs.Inv(s) && i < |s.tasks| && s.tasks[i].state != Ready
    ensures OnNone(s.queues, i)
  {
    LooseOnNone(s, i);
  }

  lemma QueuedOn(s: Sched, i: nat)
    requires Proofs.Inv(s) && i in s.queued
    ensures i < |s.tasks| && s.tasks[i].policy < LEVELS && i in s.queues[s.tasks[i].policy]
  {
  }

  lemma IdOf(s: Sched, i: nat)
    requires Proofs.Inv(s) && i < |s.tasks|
    ensures s.tasks[i].id == i + 1
  {
  }

  lemma IsCurrent(s: Sched, i: nat)
    requires Proofs.Inv(s) && i < |s.tasks| && s.tasks[i].state == Executing
    ensures s.current == Some(i)
  {
  }

  lemma CurrentShaped(s: Sched)
    requires Shaped(s)
    ensures Shaped(s.(current := None))
  {
  }

  lemma ChargeFacts(t: Task, delta: nat)
    requires Weight(t) != 0
    ensures var c := Charge(t, delta); c == t.(vruntime := c.vruntime, exec := c.exec)
  {
  }
}
