/**
 The workload scheduler: one run queue per policy, ordered by virtual runtime, and at most one
 running task. Tasks are named by their position in the task pool. The fields `stamps`, `clock`
 and `queued` record arrival order and which tasks the callers have handed over; no decision
 depends on them.
 */
module SchedSpec {
  import opened Types
  import opened LinkedList

  const LEVELS: nat := 6
  const REALTIME: nat := 0
  const MAX_TASKS: nat := 256

  datatype TaskState = Ready | Executing | Suspended | Completed | Failed

  datatype Task = Task(
    id: nat, state: TaskState, policy: nat, priority: int, deadline: nat, slice: nat,
    vruntime: nat, exec: nat, lastScheduled: nat)

  datatype Stats = Stats(total: nat, active: int, completed: nat, failed: nat, switches: nat, preemptions: nat)

  datatype Sched = Sched(
    tasks: seq<Task>, queues: seq<seq<nat>>, sizes: seq<int>, current: Option<nat>, stats: Stats,
    stamps: seq<nat>, clock: nat, queued: set<nat>)

  function Fresh(): Sched {
    Sched([], seq(LEVELS, _ => []), seq(LEVELS, _ => 0), None, Stats(0, 0, 0, 0, 0, 0), [], 0, {})
  }

  /** All positions that occur are positions of the pool, and all policies are levels. */
  ghost predicate Shaped(s: Sched) {
    && |s.queues| == |s.sizes| == LEVELS && |s.stamps| == |s.tasks|
    && (forall i :: 0 <= i < |s.tasks| ==> s.tasks[i].policy < LEVELS)
    && (forall l, k :: 0 <= l < LEVELS && 0 <= k < |s.queues[l]| ==> s.queues[l][k] < |s.tasks|)
    && (s.current.Some? ==> s.current.value < |s.tasks|)
  }

  /** find_task */
  function Find(ts: seq<Task>, id: nat, n: nat): (i: Option<nat>)
    requires n <= |ts|
    ensures i.Some? ==> n <= i.value < |ts| && ts[i.value].id == id
    ensures i.None? ==> forall j :: n <= j < |ts| ==> ts[j].id != id
    decreases |ts| - n
  {
    if n == |ts| then None else if ts[n].id == id then Some(n) else Find(ts, id, n + 1)
  }

  /** Where enqueue_task inserts: before the first task with a larger virtual runtime. */
  function Pos(ts: seq<Task>, q: seq<nat>, v: nat, k: nat): (p: nat)
    requires k <= |q| && forall j :: 0 <= j < |q| ==> q[j] < |ts|
    ensures k <= p <= |q|
    ensures forall j :: k <= j < p ==> ts[q[j]].vruntime <= v
    ensures p < |q| ==> v < ts[q[p]].vruntime
    decreases |q| - k
  {
    if k == |q| || v < ts[q[k]].vruntime then k else Pos(ts, q, v, k + 1)
  }

  function IndexOf(q: seq<nat>, i: nat): (k: nat)
    requires i in q
    ensures k < |q| && q[k] == i
  {
    if q[0] == i then 0 else 1 + IndexOf(q[1..], i)
  }

  function WithTask(s: Sched, i: nat, t: Task): Sched
    requires i < |s.tasks|
  {
    s.(tasks := s.tasks[i := t])
  }

  /** enqueue_task */
  function Enqueue(s: Sched, i: nat): (r: Sched)
    requires Shaped(s) && i < |s.tasks|
    ensures Shaped(r)
  {
    var t := s.tasks[i];
    var l := t.policy;
    var q := Insert(s.queues[l], Pos(s.tasks, s.queues[l], t.vruntime, 0), i);
    s.(tasks := s.tasks[i := t.(state := Ready)], queues := s.queues[l := q], sizes := s.sizes[l := s.sizes[l] + 1],
       stamps := s.stamps[i := s.clock], clock := s.clock + 1, queued := s.queued + {i})
  }

  /** dequeue_task. A task that is on no list has null links, so its whole queue is dropped. */
  function Dequeue(s: Sched, i: nat): (r: Sched)
    requires Shaped(s) && i < |s.tasks|
    ensures Shaped(r) && r.tasks == s.tasks && r.current == s.current && r.stats == s.stats
  {
    var l := s.tasks[i].policy;
    var q := if i in s.queues[l] then Remove(s.queues[l], IndexOf(s.queues[l], i)) else [];
    s.(queues := s.queues[l := q], sizes := s.sizes[l := s.sizes[l] - 1], queued := s.queued - {i})
  }

  /** ai_task_create */
  function Create(s: Sched, policy: nat, priority: int, deadline: nat, slice: nat): (r: (Sched, Status))
    requires Shaped(s) && policy < LEVELS
    ensures Shaped(r.0)
  {
    if |s.tasks| >= MAX_TASKS then (s, NoMem)
    else
      var t := Task(|s.tasks| + 1, Ready, policy, priority, deadline, slice, 0, 0, 0);
      (s.(tasks := s.tasks + [t], stamps := s.stamps + [0],
          stats := s.stats.(total := s.stats.total + 1, active := s.stats.active + 1)), Ok)
  }

  /** The common part of destroy and suspend: the task leaves the processor or its queue. */
  function Detach(s: Sched, i: nat): (r: Sched)
    requires Shaped(s) && i < |s.tasks|
    ensures Shaped(r)
  {
    match s.tasks[i].state
    case Executing => s.(current := None)
    case Ready => Dequeue(s, i)
    case _ => s
  }

  /** ai_task_destroy */
  function Destroy(s: Sched, id: nat): (r: (Sched, Status))
    requires Shaped(s)
    ensures Shaped(r.0)
  {
    match Find(s.tasks, id, 0)
    case None => (s, Inval)
    case Some(i) =>
      (WithTask(Detach(s, i), i, s.tasks[i].(state := Completed)).(
         stats := s.stats.(active := s.stats.active - 1, completed := s.stats.completed + 1)), Ok)
  }

  /** ai_task_suspend */
  function Suspend(s: Sched, id: nat): (r: (Sched, Status))
    requires Shaped(s)
    ensures Shaped(r.0)
  {
    match Find(s.tasks, id, 0)
    case None => (s, Inval)
    case Some(i) => (WithTask(Detach(s, i), i, s.tasks[i].(state := Suspended)), Ok)
  }

  /** ai_task_submit: the task starts at the virtual runtime of the head of its queue. */
  function Submit(s: Sched, id: nat): (r: (Sched, Status))
    requires Shaped(s)
    ensures Shaped(r.0)
  {
    match Find(s.tasks, id, 0)
    case None => (s, Inval)
    case Some(i) =>
      if s.tasks[i].state != Ready && s.tasks[i].state != Suspended then (s, Inval)
      else
        var q := s.queues[s.tasks[i].policy];
        var t := if q == [] then s.tasks[i] else s.tasks[i].(vruntime := s.tasks[q[0]].vruntime);
        (Enqueue(WithTask(s, i, t), i), Ok)
  }

  /** ai_task_resume */
  function Resume(s: Sched, id: nat): (r: (Sched, Status))
    requires Shaped(s)
    ensures Shaped(r.0)
  {
    match Find(s.tasks, id, 0)
    case None => (s, Inval)
    case Some(i) => if s.tasks[i].state != Suspended then (s, Inval) else (Enqueue(s, i), Ok)
  }

  /** ai_task_set_priority */
  function SetPriority(s: Sched, id: nat, priority: int): (r: (Sched, Status))
    requires Shaped(s)
    ensures Shaped(r.0)
  {
    match Find(s.tasks, id, 0)
    case None => (s, Inval)
    case Some(i) =>
      if s.tasks[i].state == Ready then
        var s1 := Dequeue(s, i);
        (Enqueue(WithTask(s1, i, s1.tasks[i].(priority := priority)), i), Ok)
      else (WithTask(s, i, s.tasks[i].(priority := priority)), Ok)
  }

  predicate Missed(t: Task) { t.deadline > 0 && t.exec > t.deadline }

  /** The head of level `l` becomes the running task. */
  function Start(s: Sched, l: nat, now: nat): (r: Sched)
    requires Shaped(s) && l < LEVELS && s.queues[l] != []
    ensures Shaped(r)
  {
    var i := s.queues[l][0];
    var s1 := Dequeue(s, i);
    WithTask(s1, i, s1.tasks[i].(state := Executing, lastScheduled := now)).(
      current := Some(i),
      stats := s.stats.(switches := s.stats.switches + (if s.current == Some(i) then 0 else 1)))
  }

  /** A real-time head that missed its deadline leaves the queue as a failure. */
  function Fail(s: Sched): (r: Sched)
    requires Shaped(s) && s.queues[REALTIME] != []
    ensures Shaped(r)
  {
    var i := s.queues[REALTIME][0];
    var s1 := Dequeue(s, i);
    WithTask(s1, i, s1.tasks[i].(state := Failed)).(
      stats := s.stats.(failed := s.stats.failed + 1, active := s.stats.active - 1))
  }

  /** ai_sched_pick_next from level `l` on; a missed deadline moves on to the next level. */
  function PickFrom(s: Sched, l: nat, now: nat): (r: (Sched, Option<nat>))
    requires Shaped(s) && l <= LEVELS
    ensures Shaped(r.0)
    decreases LEVELS - l
  {
    if l == LEVELS then (s, None)
    else if s.queues[l] == [] then PickFrom(s, l + 1, now)
    else if l == REALTIME && Missed(s.tasks[s.queues[l][0]]) then PickFrom(Fail(s), l + 1, now)
    else (Start(s, l, now), Some(s.queues[l][0]))
  }

  function PickNext(s: Sched, now: nat): (r: (Sched, Option<nat>))
    requires Shaped(s)
    ensures Shaped(r.0)
  {
    PickFrom(s, 0, now)
  }

  /** calc_weight, on 64-bit words: a negative priority wraps. */
  function Weight(t: Task): nat {
    var base := match t.policy case 0 => 1 case 1 => 4 case 2 => 16 case 3 => 32 case 4 => 64 case _ => 128;
    (base + t.priority) % U64_LIMIT
  }

  function Elapsed(t: Task, now: nat): nat { (now - t.lastScheduled) % U64_LIMIT }

  /** update_vruntime */
  function Charge(t: Task, delta: nat): Task
    requires Weight(t) != 0
  {
    t.(vruntime := (t.vruntime + delta / Weight(t)) % U64_LIMIT, exec := (t.exec + delta) % U64_LIMIT)
  }

  /** The running task goes back to its queue. */
  function Requeue(s: Sched): (r: Sched)
    requires Shaped(s) && s.current.Some?
    ensures Shaped(r)
  {
    Enqueue(s.(current := None), s.current.value)
  }

  predicate HigherWaiting(queues: seq<seq<nat>>, l: nat)
    requires l <= |queues|
  {
    exists k :: 0 <= k < l && queues[k] != []
  }

  function Preempted(s: Sched): Sched { s.(stats := s.stats.(preemptions := s.stats.preemptions + 1)) }

  /** ai_sched_tick */
  function Tick(s: Sched, now: nat): (r: Sched)
    requires Shaped(s) && (s.current.Some? ==> Weight(s.tasks[s.current.value]) != 0)
    ensures Shaped(r)
  {
    if s.current.None? then s
    else
      var i := s.current.value;
      var t := s.tasks[i];
      var delta := Elapsed(t, now);
      var s1 := WithTask(s, i, Charge(t, delta));
      if delta >= t.slice then Requeue(s1)
      else if HigherWaiting(s1.queues, t.policy) then Preempted(Requeue(s1))
      else s1
  }

  /** ai_sched_yield */
  function Yield(s: Sched): (r: Sched)
    requires Shaped(s)
    ensures Shaped(r)
  {
    if s.current.None? then s else Requeue(s)
  }

  /** ai_sched_preempt: the named task is the running one, so clearing `current` frees it. */
  function Preempt(s: Sched, id: nat): (r: Sched)
    requires Shaped(s)
    ensures Shaped(r)
  {
    match Find(s.tasks, id, 0)
    case None => s
    case Some(i) =>
      if s.tasks[i].state != Executing then s else Preempted(Enqueue(s.(current := None), i))
  }
}
