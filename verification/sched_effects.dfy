/**
 What single scheduler calls mean for the tasks that wait: who moves, who is overtaken, and who
 runs first among tasks that were charged the same time.
 */
module SchedEffects {
  import opened Types
  import opened LinkedList
  import opened SchedSpec
  import opened SchedProofs

  /** The same tasks wait in the same order at every level but `l`. */
  ghost predicate OthersWait(s: Sched, s': Sched, l: nat)
    requires Shaped(s) && Shaped(s')
  {
    forall k :: 0 <= k < LEVELS && k != l ==> s'.queues[k] == s.queues[k]
  }

  /** The queue of level `l` gained task `i` and kept the order of all others. */
  ghost predicate Joined(q: seq<nat>, q': seq<nat>, i: nat, p: nat) {
    |q'| == |q| + 1 && p <= |q| && q'[p] == i && q'[..p] == q[..p] && q'[p + 1..] == q[p..]
  }

  lemma InsertJoins(q: seq<nat>, i: nat, p: nat)
    requires p <= |q|
    ensures Joined(q, Insert(q, p, i), i, p)
  {
    var q' := Insert(q, p, i);
    assert q'[..p] == q[..p] && q'[p + 1..] == q[p..];
  }

  /** The place for virtual runtime `v` splits an ordered queue. */
  lemma PosSplits(s: Sched, l: nat, v: nat)
    requires Shaped(s) && l < LEVELS && QueueOk(s, l)
    ensures var q := s.queues[l]; var p := Pos(s.tasks, q, v, 0);
            && p <= |q| && (forall j :: 0 <= j < p ==> s.tasks[q[j]].vruntime <= v)
            && (forall j :: p <= j < |q| ==> v < s.tasks[q[j]].vruntime)
  {
    var q := s.queues[l];
    var p := Pos(s.tasks, q, v, 0);
    forall j | p <= j < |q| ensures v < s.tasks[q[j]].vruntime {
      if j > p {
        assert Before(s, q[p], q[j]);
      }
    }
  }

  /** An insertion goes behind every waiting task that is not ahead in virtual runtime, and nobody else moves. */
  lemma EnqueueMeans(s: Sched, i: nat) returns (p: nat)
    requires Inv(s) && i < |s.tasks|
    ensures var s' := Enqueue(s, i); var l := s.tasks[i].policy; var q := s.queues[l];
            && Joined(q, s'.queues[l], i, p) && OthersWait(s, s', l)
            && s'.tasks == s.tasks[i := s.tasks[i].(state := Ready)]
            && (forall j :: 0 <= j < p ==> s.tasks[q[j]].vruntime <= s.tasks[i].vruntime)
            && (forall j :: p <= j < |q| ==> s.tasks[i].vruntime < s.tasks[q[j]].vruntime)
  {
    hide QueueOk, Joined, Pos, Insert, QueuedOk, StatsOk, CurrentOk;
    var l, v := s.tasks[i].policy, s.tasks[i].vruntime;
    p := Pos(s.tasks, s.queues[l], v, 0);
    PosSplits(s, l, v);
    InsertJoins(s.queues[l], i, p);
  }

  /**
   ai_task_submit: the task starts level with the first waiting one and behind every task that ties with it, so it
   overtakes only tasks that already ran longer; the head of the queue stays the head.
   */
  lemma SubmitMeans(s: Sched, i: nat) returns (p: nat)
    requires Inv(s) && i < |s.tasks| && i !in s.queued && (s.tasks[i].state == Ready || s.tasks[i].state == Suspended)
    ensures var (s', status) := Submit(s, i + 1); var l := s.tasks[i].policy; var q := s.queues[l];
            && status == Ok && Joined(q, s'.queues[l], i, p) && OthersWait(s, s', l)
            && s'.tasks[i] == s.tasks[i].(state := Ready, vruntime := s'.tasks[i].vruntime)
            && s'.current == s.current && s'.stats == s.stats
            && (q == [] ==> s'.tasks[i].vruntime == s.tasks[i].vruntime)
            && (q != [] ==> p > 0 && s'.tasks[i].vruntime == s.tasks[q[0]].vruntime)
            && (forall j :: 0 <= j < p ==> s.tasks[q[j]].vruntime == s'.tasks[i].vruntime)
            && (forall j :: p <= j < |q| ==> s'.tasks[i].vruntime < s.tasks[q[j]].vruntime)
            && (forall j :: 0 <= j < |s.tasks| && j != i ==> s'.tasks[j] == s.tasks[j])
  {
    hide QueueOk, Joined, Pos, Insert, QueuedOk, StatsOk, CurrentOk;
    FindIs(s, i);
    var l := s.tasks[i].policy;
    var q := s.queues[l];
    var v := StartRuntime(s, i);
    NotQueued(s, i);
    PosWith(s, i, s.tasks[i].(vruntime := v), q);
    p := Pos(s.tasks, q, v, 0);
    PosSplits(s, l, v);
    InsertJoins(q, i, p);
    HeadLeast(s, l);
  }

  function StartRuntime(s: Sched, i: nat): nat
    requires Shaped(s) && i < |s.tasks|
  {
    var q := s.queues[s.tasks[i].policy];
    if q == [] then s.tasks[i].vruntime else s.tasks[q[0]].vruntime
  }

  lemma HeadLeast(s: Sched, l: nat)
    requires Shaped(s) && l < LEVELS && QueueOk(s, l)
    ensures var q := s.queues[l]; forall j :: 0 <= j < |q| ==> s.tasks[q[0]].vruntime <= s.tasks[q[j]].vruntime
  {
    var q := s.queues[l];
    forall j | 0 < j < |q| ensures s.tasks[q[0]].vruntime <= s.tasks[q[j]].vruntime {
      assert Before(s, q[0], q[j]);
    }
  }

  /** The place of a task does not depend on its own record. */
  lemma PosWith(s: Sched, i: nat, t: Task, q: seq<nat>)
    requires i < |s.tasks| && i !in q && forall j :: 0 <= j < |q| ==> q[j] < |s.tasks|
    ensures Pos(s.tasks[i := t], q, t.vruntime, 0) == Pos(s.tasks, q, t.vruntime, 0)
  {
    PosFrom(s.tasks, s.tasks[i := t], q, t.vruntime, 0);
  }

  lemma {:induction false} PosFrom(ts: seq<Task>, us: seq<Task>, q: seq<nat>, v: nat, k: nat)
    requires k <= |q| && |ts| == |us| && forall j :: 0 <= j < |q| ==> q[j] < |ts| && us[q[j]] == ts[q[j]]
    ensures Pos(us, q, v, k) == Pos(ts, q, v, k)
    decreases |q| - k
  {
    if k < |q| {
      PosFrom(ts, us, q, v, k + 1);
    }
  }

  /** Suspend and destroy take exactly that task out of its queue and touch no other record. */
  lemma DetachMeans(s: Sched, i: nat)
    requires Inv(s) && i < |s.tasks| && Detachable(s, i)
    ensures var s' := Suspend(s, i + 1).0; var d := Destroy(s, i + 1).0; var l := s.tasks[i].policy;
            && s'.tasks == s.tasks[i := s.tasks[i].(state := Suspended)] && d.tasks == s.tasks[i := s.tasks[i].(state := Completed)]
            && s'.queues == d.queues && OthersWait(s, s', l) && i !in s'.queues[l]
            && (s'.current == if s.current == Some(i) then None else s.current) && d.current == s'.current && s'.stats == s.stats
            && d.stats == s.stats.(active := s.stats.active - 1, completed := s.stats.completed + 1)
            && multiset(s'.queues[l]) + (if i in s.queued then multiset{i} else multiset{}) == multiset(s.queues[l])
  {
    FindIs(s, i);
    DetachKeeps(s, i);
    NotQueued(Detach(s, i), i);
    if i in s.queued {
      QueuedIsReady(s, i);
      var q := s.queues[s.tasks[i].policy];
      RemoveMultiset(q, IndexOf(q, i));
    }
  }

  /**
   Charged the same time from the same virtual runtime, the task with the larger weight never falls behind, and is
   strictly ahead once the time is long enough to tell the two apart.
   */
  lemma HeavierRunsFirst(t: Task, u: Task, delta: nat)
    requires 0 < Weight(t) <= Weight(u) && t.vruntime == u.vruntime && t.vruntime + delta < U64_LIMIT
    ensures Charge(u, delta).vruntime <= Charge(t, delta).vruntime
    ensures Weight(t) < Weight(u) && delta >= Weight(t) * Weight(u) ==> Charge(u, delta).vruntime < Charge(t, delta).vruntime
  {
    hide Weight;
    var a, b := Weight(t), Weight(u);
    Division(delta, a);
    Division(delta, b);
    NotBehind(delta, a, b, delta / a, delta / b, delta % a, delta % b);
    if a < b && delta >= a * b {
      StrictlyAhead(delta, a, b, delta / a, delta / b, delta % a, delta % b);
    }
    AtMost(delta, a);
    AtMost(delta, b);
    Small(t.vruntime, delta / a, delta);
    Small(t.vruntime, delta / b, delta);
  }

  /**
   The sources promise more processor time to the higher priority, where 0 is the highest. Between two tasks of one
   level that were charged the same time the code never keeps that promise: the higher priority is never ahead of the
   lower one, and falls behind it once the time is long enough.
   */
  lemma HigherPriorityFallsBehind(t: Task, u: Task, delta: nat)
    requires t.policy == u.policy && 0 <= t.priority < u.priority <= 255
    requires t.vruntime == u.vruntime && t.vruntime + delta < U64_LIMIT
    ensures Weight(t) > 0 && Weight(u) > 0 && !(Charge(t, delta).vruntime < Charge(u, delta).vruntime)
    ensures delta >= Weight(t) * Weight(u) ==> Charge(u, delta).vruntime < Charge(t, delta).vruntime
  {
    Weights(t, u);
    HeavierRunsFirst(t, u, delta);
  }

  lemma Weights(t: Task, u: Task)
    requires t.policy == u.policy && 0 <= t.priority < u.priority <= 255
    ensures 0 < Weight(t) < Weight(u)
  {
  }

  lemma Division(n: nat, a: nat)
    requires a > 0
    ensures n == a * (n / a) + n % a && 0 <= n % a < a && n / a >= 0
  {
  }

  lemma AtMost(n: nat, a: nat)
    requires a > 0
    ensures n / a <= n
  {
    Division(n, a);
    Mono(n / a, 1, a);
  }

  lemma Small(v: nat, x: int, delta: nat)
    requires 0 <= x <= delta && v + delta < U64_LIMIT
    ensures (v + x) % U64_LIMIT == v + x
  {
  }

  lemma Times(a: nat, x: nat)
    ensures a * (x + 1) == a * x + a && (a + 1) * x == a * x + x
  {
  }

  lemma Mono(a: nat, x: nat, y: nat)
    requires x <= y
    ensures a * x <= a * y && x * a <= y * a
  {
  }

  lemma NotBehind(n: nat, a: nat, b: nat, x: nat, y: nat, r: nat, s: nat)
    requires 0 < a <= b && r < a && n == a * x + r && n == b * y + s
    ensures y <= x
  {
    if y > x {
      Mono(a, x + 1, y);
      Mono(y, a, b);
      Times(a, x);
    }
  }

  lemma StrictlyAhead(n: nat, a: nat, b: nat, x: nat, y: nat, r: nat, s: nat)
    requires 0 < a < b && r < a && s < b && n == a * x + r && n == b * y + s && n >= b * a && y <= x
    ensures y < x
  {
    if y == x {
      Mono(y, a + 1, b);
      Times(a, y);
      Mono(b, y + 1, a);
      Times(b, y);
    }
  }
}
