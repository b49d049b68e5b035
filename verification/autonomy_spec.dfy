/**
 The autonomy control plane on top of the scheduler: actions are proposed, wait in a bounded
 queue, are committed in order and can be rolled back once. The fields `approvals` and `leavers`
 record the order in which actions entered and left; no decision depends on them.
 */
module AutonomySpec {
  import opened Types
  import opened SchedSpec
  import Proofs = SchedProofs

  const ACTION_CAP: nat := 128
  const EVENT_CAP: nat := 256
  const TARGET_SCHED: nat := 1
  const TARGET_LAST: nat := 3

  datatype Action = Action(id: nat, risk: nat, target: nat, delta: int)

  datatype ActionState = Approved | Committed | RolledBack | Rejected
  datatype Reason = Fine | BadTarget | BadRisk | BadDelta | ModeBlocked | Unsupported | QueueFull
  datatype Event = Event(id: nat, target: nat, state: ActionState, reason: Reason)

  datatype Health = Stable | Degraded | Unsafe

  /** What a rollback needs to know. */
  datatype Context = Context(target: nat, id: nat, previous: int)

  datatype Auto = Auto(
    sched: Sched, queue: seq<Action>, log: seq<Event>, last: Option<Action>, context: Option<Context>,
    proposed: nat, approved: nat, committed: nat, rejected: nat, rollbacks: nat,
    observation: bool, safe: bool, approvals: seq<Action>, leavers: seq<Action>)

  /** autonomy_init */
  function Fresh(s: Sched): Auto {
    Auto(s, [], [], None, None, 0, 0, 0, 0, 0, true, false, [], [])
  }

  predicate RiskAllowed(a: Auto, risk: nat, health: Health) {
    && health != Unsafe && !(health == Degraded && risk > 0) && !(a.safe && risk > 0) && !a.observation
  }

  function Logged(a: Auto, x: Action, state: ActionState, reason: Reason): Auto {
    a.(log := a.log + [Event(x.id, x.target, state, reason)])
  }

  function Refused(a: Auto, x: Action, reason: Reason): Auto {
    Logged(a.(rejected := a.rejected + 1), x, Rejected, reason)
  }

  /** The first check that a proposal fails, in the order of the source. */
  function Objection(a: Auto, x: Action, health: Health): (r: (Reason, Status)) {
    if |a.queue| >= ACTION_CAP then (QueueFull, Busy)
    else if x.risk > 3 then (BadRisk, Inval)
    else if x.target > TARGET_LAST then (BadTarget, Inval)
    else if x.target != TARGET_SCHED then (Unsupported, NoSys)
    else if !(-32 <= x.delta <= 32) then (BadDelta, Inval)
    else if !RiskAllowed(a, x.risk, health) then (ModeBlocked, Perm)
    else (Fine, Ok)
  }

  /** autonomy_action_propose */
  function Propose(a: Auto, x: Action, health: Health): (r: (Auto, Status)) {
    var a1 := a.(proposed := a.proposed + 1);
    var (reason, status) := Objection(a, x, health);
    if status != Ok then (Refused(a1, x, reason), status)
    else (Logged(a1.(queue := a.queue + [x], approved := a.approved + 1, approvals := a.approvals + [x]), x, Approved, Fine), Ok)
  }

  function ClampPriority(v: int): int { if v < 0 then 0 else if v > 255 then 255 else v }

  /** apply_action: only scheduler actions change anything. */
  function Apply(a: Auto, x: Action): (r: (Auto, Status))
    requires Shaped(a.sched)
    ensures Shaped(r.0.sched)
  {
    if x.target != TARGET_SCHED then (a, NoSys)
    else match Find(a.sched.tasks, x.id, 0)
      case None => (a, Inval)
      case Some(i) =>
        var current := a.sched.tasks[i].priority;
        var (s, status) := SetPriority(a.sched, x.id, ClampPriority(current + x.delta));
        (a.(sched := s, context := Some(Context(x.target, x.id, current))), status)
  }

  function Least(x: nat, y: nat): nat { if x < y then x else y }

  /** compute_eval_score; the average wait is never measured and stays zero. */
  function Score(fragmentation: nat, stats: Stats): nat {
    1000000 - Least(fragmentation * 500 % U64_LIMIT, 250000) - Least(stats.failed * 10000 % U64_LIMIT, 250000)
    - Least(stats.active * 1000 % U64_LIMIT, 100000)
  }

  /** autonomy_action_rollback_last */
  function Rollback(a: Auto): (r: (Auto, Status))
    requires Shaped(a.sched)
    ensures Shaped(r.0.sched)
  {
    if a.last.None? || a.context.None? then (a, Inval)
    else if a.context.value.target != TARGET_SCHED then (a, NoSys)
    else
      var (s, status) := SetPriority(a.sched, a.context.value.id, a.context.value.previous);
      if status != Ok then (a.(sched := s), status)
      else
        (Logged(a.(sched := s, rollbacks := a.rollbacks + 1, context := None, last := None),
                a.last.value, RolledBack, Fine), Ok)
  }

  /** The committed action, before its effect is judged. */
  function CommitHead(a: Auto): (r: (Auto, Status))
    requires Shaped(a.sched) && a.queue != []
    ensures Shaped(r.0.sched)
  {
    var x := a.queue[0];
    var a1 := a.(queue := a.queue[1..], leavers := a.leavers + [x]);
    var (a2, status) := Apply(a1, x);
    if status != Ok then (Refused(a2, x, if x.target > TARGET_LAST then BadTarget
                                         else if x.target != TARGET_SCHED then Unsupported else ModeBlocked), status)
    else (Logged(a2.(last := Some(x), committed := a.committed + 1), x, Committed, Fine), Ok)
  }

  /** autonomy_action_commit_next; with `judge` the caller asks for an evaluation, which may roll back. */
  function Commit(a: Auto, fragmentation: nat, judge: bool): (r: (Auto, Status, bool))
    requires Shaped(a.sched)
    ensures Shaped(r.0.sched)
  {
    if a.queue == [] then (a, Inval, false)
    else
      var (a1, status) := CommitHead(a);
      if status != Ok then (a1, status, false)
      else if judge && Score(fragmentation, a1.sched.stats) + 5000 < Score(fragmentation, a.sched.stats) then
        var (a2, st) := Rollback(a1);
        (a2, Ok, st == Ok)
      else (a1, Ok, false)
  }

  // ---------- the invariant ----------

  ghost predicate Inv(a: Auto) {
    && Proofs.Inv(a.sched) && |a.queue| <= ACTION_CAP
    && a.proposed == a.committed + a.rejected + |a.queue|
    && a.approved == |a.approvals| && a.approvals == a.leavers + a.queue
    && (forall k :: 0 <= k < |a.queue| ==> a.queue[k].target == TARGET_SCHED && -32 <= a.queue[k].delta <= 32)
    && (a.last.Some? <==> a.context.Some?)
    && (a.last.Some? ==> a.context.value.target == TARGET_SCHED && a.context.value.id == a.last.value.id)
    && a.rollbacks + (if a.last.Some? then 1 else 0) <= a.committed
  }

  lemma FreshInv(s: Sched)
    requires Proofs.Inv(s)
    ensures Inv(Fresh(s))
  {
  }

  lemma ProposeKeeps(a: Auto, x: Action, health: Health)
    requires Inv(a)
    ensures Inv(Propose(a, x, health).0)
  {
    hide Proofs.Inv;
    assert a.leavers + a.queue + [x] == a.leavers + (a.queue + [x]);
  }

  lemma ApplyOutcome(a: Auto, x: Action)
    requires Proofs.Inv(a.sched) && x.target == TARGET_SCHED && Proofs.Settable(a.sched, x.id)
    ensures var (a', status) := Apply(a, x);
            && Proofs.Inv(a'.sched) && a' == a.(sched := a'.sched, context := a'.context)
            && a'.sched.stats == a.sched.stats
            && (status != Ok ==> a' == a)
            && (status == Ok ==> a'.context.Some? && a'.context.value.target == TARGET_SCHED && a'.context.value.id == x.id)
  {
    hide Proofs.QueuesOk, Proofs.StatsOk, SetPriority;
    var f := Find(a.sched.tasks, x.id, 0);
    if f.Some? {
      var p := ClampPriority(a.sched.tasks[f.value].priority + x.delta);
      Proofs.SetPriorityKeeps(a.sched, f.value, p);
      Proofs.SetPriorityMeans(a.sched, f.value, p);
    }
  }

  lemma CommitHeadOutcome(a: Auto)
    requires Inv(a) && a.queue != [] && Proofs.Settable(a.sched, a.queue[0].id)
    ensures Inv(CommitHead(a).0) && CommitHead(a).0.sched.stats == a.sched.stats
    ensures CommitHead(a).0.leavers == a.leavers + [a.queue[0]] && CommitHead(a).0.queue == a.queue[1..]
  {
    hide Proofs.Inv, Apply;
    var x := a.queue[0];
    var a1 := a.(queue := a.queue[1..], leavers := a.leavers + [x]);
    ApplyOutcome(a1, x);
    assert a.leavers + a.queue == a.leavers + [x] + a.queue[1..];
  }

  /** The task of a commit may be changed again right after it. */
  lemma CommittedSettable(a: Auto)
    requires Inv(a) && a.queue != [] && Proofs.Settable(a.sched, a.queue[0].id) && CommitHead(a).1 == Ok
    ensures CommitHead(a).0.context.Some?
    ensures Proofs.Settable(CommitHead(a).0.sched, CommitHead(a).0.context.value.id)
  {
    hide Proofs.QueuesOk, Proofs.StatsOk, SetPriority;
    var f := Find(a.sched.tasks, a.queue[0].id, 0);
    if f.Some? {
      var p := ClampPriority(a.sched.tasks[f.value].priority + a.queue[0].delta);
      Proofs.SetPriorityKeeps(a.sched, f.value, p);
      Proofs.SetPriorityMeans(a.sched, f.value, p);
      Proofs.FindIs(CommitHead(a).0.sched, f.value);
    }
  }

  /** A commit keeps the books, and its automatic rollback can never fire: the score does not see priorities. */
  lemma CommitKeeps(a: Auto, fragmentation: nat, judge: bool)
    requires Inv(a) && (a.queue != [] ==> Proofs.Settable(a.sched, a.queue[0].id))
    ensures Inv(Commit(a, fragmentation, judge).0)
    ensures !Commit(a, fragmentation, judge).2
    ensures a.queue != [] ==> Commit(a, fragmentation, judge).0 == CommitHead(a).0
  {
    hide Proofs.Inv, CommitHead, Rollback, Score;
    if a.queue != [] {
      CommitHeadOutcome(a);
    }
  }

  lemma RollbackKeeps(a: Auto)
    requires Inv(a) && (a.context.Some? ==> Proofs.Settable(a.sched, a.context.value.id))
    ensures Inv(Rollback(a).0)
  {
    hide Proofs.QueuesOk, Proofs.StatsOk, SetPriority;
    if a.context.Some? {
      var f := Find(a.sched.tasks, a.context.value.id, 0);
      if f.Some? {
        Proofs.SetPriorityKeeps(a.sched, f.value, a.context.value.previous);
      } else {
        NoSuchTask(a.sched, a.context.value.id, a.context.value.previous);
      }
    }
  }

  lemma NoSuchTask(s: Sched, id: nat, priority: int)
    requires Shaped(s) && Find(s.tasks, id, 0).None?
    ensures SetPriority(s, id, priority) == (s, Inval)
  {
  }

  // ---------- whole runs ----------

  datatype Op =
    | ProposeOp(action: Action, health: Health)
    | CommitOp(fragmentation: nat, judge: bool)
    | RollbackOp
    | ModeOp(observation: bool, safe: bool)
    | TaskOp(op: Proofs.Op)

  /** The scheduler's call protocol, which commits and rollbacks must respect as well. */
  ghost predicate Legal(a: Auto, op: Op)
    requires Shaped(a.sched)
  {
    match op
    case CommitOp(_, _) => a.queue != [] ==> Proofs.Settable(a.sched, a.queue[0].id)
    case RollbackOp => a.context.Some? ==> Proofs.Settable(a.sched, a.context.value.id)
    case TaskOp(o) => Proofs.Legal(a.sched, o)
    case _ => true
  }

  ghost function Step(a: Auto, op: Op): (a': Auto)
    requires Shaped(a.sched) && Legal(a, op)
    ensures Shaped(a'.sched)
  {
    match op
    case ProposeOp(x, health) => Propose(a, x, health).0
    case CommitOp(fragmentation, judge) => Commit(a, fragmentation, judge).0
    case RollbackOp => Rollback(a).0
    case ModeOp(observation, safe) => a.(observation := observation, safe := safe)
    case TaskOp(o) => a.(sched := Proofs.Step(a.sched, o))
  }

  lemma StepKeeps(a: Auto, op: Op)
    requires Inv(a) && Legal(a, op)
    ensures Inv(Step(a, op))
  {
    hide Proofs.Inv, Propose, Commit, Rollback, Proofs.Step, Proofs.Legal;
    match op
    case ProposeOp(x, health) => ProposeKeeps(a, x, health);
    case CommitOp(fragmentation, judge) => CommitKeeps(a, fragmentation, judge);
    case RollbackOp => RollbackKeeps(a);
    case ModeOp(observation, safe) =>
    case TaskOp(o) => Proofs.StepKeeps(a.sched, o);
  }

  ghost predicate LegalRun(a: Auto, ops: seq<Op>)
    requires Shaped(a.sched)
    decreases |ops|
  {
    ops == [] || (Legal(a, ops[0]) && LegalRun(Step(a, ops[0]), ops[1..]))
  }

  ghost function Run(a: Auto, ops: seq<Op>): (a': Auto)
    requires Shaped(a.sched) && LegalRun(a, ops)
    ensures Shaped(a'.sched)
    decreases |ops|
  {
    if ops == [] then a else Run(Step(a, ops[0]), ops[1..])
  }

  /** Conservation, order and the rollback context, over every legal run. */
  lemma {:induction false} RunKeepsInv(a: Auto, ops: seq<Op>)
    requires Inv(a) && LegalRun(a, ops)
    ensures Inv(Run(a, ops))
    decreases |ops|
  {
    hide Proofs.Inv, Step, Legal;
    Proofs.InvShaped(a.sched);
    if ops != [] {
      StepKeeps(a, ops[0]);
      RunKeepsInv(Step(a, ops[0]), ops[1..]);
    }
  }

  /** What the invariant says from initialisation on. */
  lemma RunMeans(s: Sched, ops: seq<Op>)
    requires Proofs.Inv(s) && LegalRun(Fresh(s), ops)
    ensures var a := Run(Fresh(s), ops);
            && a.proposed == a.committed + a.rejected + |a.queue| && a.rollbacks <= a.committed
            && a.leavers <= a.approvals && a.queue == a.approvals[|a.leavers|..]
            && (a.last.Some? <==> a.context.Some?) && (a.last.Some? ==> a.context.value.id == a.last.value.id)
  {
    hide Run, LegalRun, Proofs.Inv;
    FreshInv(s);
    RunKeepsInv(Fresh(s), ops);
  }

  // ---------- rollback undoes the commit ----------

  predicate Between(op: Op) { !op.CommitOp? && !op.RollbackOp? }

  lemma {:induction false} PickGrows(s: Sched, l: nat, now: nat)
    requires Shaped(s) && l <= LEVELS
    ensures |PickFrom(s, l, now).0.tasks| == |s.tasks|
    decreases LEVELS - l
  {
    hide Shaped, Dequeue;
    Proofs.ShapedSizes(s);
    if l < LEVELS && s.queues[l] == [] {
      PickGrows(s, l + 1, now);
    } else if l < LEVELS && l == REALTIME && Missed(s.tasks[s.queues[l][0]]) {
      PickGrows(Fail(s), l + 1, now);
    }
  }

  /** Tasks are never forgotten. */
  lemma TasksStay(s: Sched, op: Proofs.Op)
    requires Shaped(s) && Proofs.Legal(s, op)
    ensures |Proofs.Step(s, op).tasks| >= |s.tasks|
  {
    hide Dequeue, Weight;
    if op.PickOp? {
      PickGrows(s, 0, op.now);
    }
  }

  /** Between a commit and its rollback the context stays, and so does the task it names. */
  lemma {:induction false} ContextStays(a: Auto, ops: seq<Op>)
    requires Inv(a) && LegalRun(a, ops) && forall k :: 0 <= k < |ops| ==> Between(ops[k])
    ensures Run(a, ops).context == a.context && Run(a, ops).last == a.last
    ensures |Run(a, ops).sched.tasks| >= |a.sched.tasks|
    decreases |ops|
  {
    hide Proofs.Inv, Propose, Commit, Rollback, Proofs.Step, Proofs.Legal, Shaped;
    Proofs.InvShaped(a.sched);
    if ops != [] {
      assert Between(ops[0]);
      ProposalStays(a, ops[0]);
      StepKeeps(a, ops[0]);
      ContextStays(Step(a, ops[0]), ops[1..]);
    }
  }

  lemma ProposalStays(a: Auto, op: Op)
    requires Inv(a) && Shaped(a.sched) && Legal(a, op) && Between(op)
    ensures var a' := Step(a, op); a'.context == a.context && a'.last == a.last && |a'.sched.tasks| >= |a.sched.tasks|
  {
    hide Proofs.Inv, Proofs.Step, Proofs.Legal, Shaped, Objection;
    if op.TaskOp? {
      TasksStay(a.sched, op.op);
    }
  }

  /**
   A rollback after a commit gives the task the exact priority it had before the commit, whatever
   else happened in between, and changes neither who waits at which level nor any other task.
   */
  lemma RollbackRestores(a: Auto, ops: seq<Op>, i: nat)
    requires Inv(a) && a.queue != [] && i < |a.sched.tasks| && a.queue[0].id == i + 1
    requires Proofs.Settable(a.sched, i + 1)
    requires LegalRun(CommitHead(a).0, ops) && forall k :: 0 <= k < |ops| ==> Between(ops[k])
    requires Proofs.Settable(Run(CommitHead(a).0, ops).sched, i + 1)
    ensures var a2 := Run(CommitHead(a).0, ops); var (a3, status) := Rollback(a2);
            && status == Ok && Inv(a3) && i < |a2.sched.tasks|
            && a3.sched.tasks == a2.sched.tasks[i := a2.sched.tasks[i].(priority := a.sched.tasks[i].priority)]
            && a3.sched.queued == a2.sched.queued && a3.sched.current == a2.sched.current
            && forall l :: 0 <= l < LEVELS ==> multiset(a3.sched.queues[l]) == multiset(a2.sched.queues[l])
  {
    hide Run, LegalRun, Proofs.Inv, SetPriority, Shaped;
    Proofs.InvShaped(a.sched);
    CommittedContext(a, i);
    CommitHeadOutcome(a);
    var a1 := CommitHead(a).0;
    ContextStays(a1, ops);
    RunKeepsInv(a1, ops);
    RestoredBy(Run(a1, ops), i);
  }

  /** A committed action moves the priority of its task by the delta, within 0..255, and nothing else about any task. */
  lemma CommitApplies(a: Auto, i: nat)
    requires Inv(a) && a.queue != [] && i < |a.sched.tasks| && a.queue[0].id == i + 1 && Proofs.Settable(a.sched, i + 1)
    ensures var (a1, status) := CommitHead(a); var t := a.sched.tasks[i]; var wanted := t.priority + a.queue[0].delta;
            && status == Ok && a1.committed == a.committed + 1
            && a1.sched.tasks == a.sched.tasks[i := t.(priority := ClampPriority(wanted))]
            && 0 <= ClampPriority(wanted) <= 255 && (0 <= wanted <= 255 ==> a1.sched.tasks[i].priority - t.priority == a.queue[0].delta)
            && (forall l :: 0 <= l < LEVELS ==> multiset(a1.sched.queues[l]) == multiset(a.sched.queues[l]))
  {
    hide SetPriority;
    Proofs.FindIs(a.sched, i);
    Proofs.SetPriorityMeans(a.sched, i, ClampPriority(a.sched.tasks[i].priority + a.queue[0].delta));
    Proofs.SetPriorityKeeps(a.sched, i, ClampPriority(a.sched.tasks[i].priority + a.queue[0].delta));
  }

  lemma CommittedContext(a: Auto, i: nat)
    requires Inv(a) && a.queue != [] && i < |a.sched.tasks| && a.queue[0].id == i + 1 && Proofs.Settable(a.sched, i + 1)
    ensures var a1 := CommitHead(a).0;
            && CommitHead(a).1 == Ok && a1.last == Some(a.queue[0]) && |a1.sched.tasks| == |a.sched.tasks|
            && a1.context == Some(Context(TARGET_SCHED, i + 1, a.sched.tasks[i].priority))
  {
    hide Proofs.QueuesOk, Proofs.StatsOk, SetPriority;
    Proofs.FindIs(a.sched, i);
    var p := ClampPriority(a.sched.tasks[i].priority + a.queue[0].delta);
    Proofs.SetPriorityKeeps(a.sched, i, p);
    Proofs.SetPriorityMeans(a.sched, i, p);
  }

  lemma RestoredBy(a: Auto, i: nat)
    requires Inv(a) && a.last.Some? && i < |a.sched.tasks| && a.context.value.id == i + 1 && Proofs.Settable(a.sched, i + 1)
    ensures var (a', status) := Rollback(a);
            && status == Ok && Inv(a')
            && a'.sched.tasks == a.sched.tasks[i := a.sched.tasks[i].(priority := a.context.value.previous)]
            && a'.sched.queued == a.sched.queued && a'.sched.current == a.sched.current
            && forall l :: 0 <= l < LEVELS ==> multiset(a'.sched.queues[l]) == multiset(a.sched.queues[l])
  {
    hide Proofs.QueuesOk, Proofs.StatsOk, SetPriority;
    RollbackKeeps(a);
    Proofs.FindIs(a.sched, i);
    Proofs.SetPriorityKeeps(a.sched, i, a.context.value.previous);
    Proofs.SetPriorityMeans(a.sched, i, a.context.value.previous);
  }
}
