/**
 What the control plane admits, and what each of its calls leaves behind, in the fields alone; and what observation mode
 guarantees over whole runs.
 */
module AutonomyEffects {
  import opened Types
  import opened SchedSpec
  import Proofs = SchedProofs
  import opened AutonomySpec

  /** The caller-visible conditions for an approval. */
  predicate Admissible(a: Auto, x: Action, health: Health) {
    && |a.queue| < 128 && x.risk <= 3 && x.target == 1 && -32 <= x.delta <= 32
    && health != Unsafe && (x.risk > 0 ==> health == Stable && !a.safe) && !a.observation
  }

  /**
   autonomy_action_propose approves exactly the admissible actions and puts them at the end of the queue. Everything
   else is refused with nothing but the books changed. Either way exactly one event is logged.
   */
  lemma ProposeOkIff(a: Auto, x: Action, health: Health)
    ensures var (a', status) := Propose(a, x, health);
            && (status == Ok <==> Admissible(a, x, health))
            && a'.proposed == a.proposed + 1 && |a'.log| == |a.log| + 1 && a'.log[..|a.log|] == a.log
            && a'.sched == a.sched && a'.last == a.last && a'.context == a.context && a'.committed == a.committed
            && a'.rollbacks == a.rollbacks && a'.observation == a.observation && a'.safe == a.safe && a'.leavers == a.leavers
            && (status == Ok ==> a'.queue == a.queue + [x] && a'.approvals == a.approvals + [x]
                                 && a'.approved == a.approved + 1 && a'.rejected == a.rejected
                                 && a'.log[|a.log|] == Event(x.id, x.target, Approved, Fine))
            && (status != Ok ==> a'.queue == a.queue && a'.approvals == a.approvals && a'.approved == a.approved
                                 && a'.rejected == a.rejected + 1)
  {
  }

  /** The status and the logged reason of every refusal: the first condition that fails decides. */
  lemma RefusalReason(a: Auto, x: Action, health: Health)
    requires !Admissible(a, x, health)
    ensures var (a', status) := Propose(a, x, health); var e := a'.log[|a'.log| - 1];
            && |a'.log| > 0 && e.id == x.id && e.target == x.target && e.state == Rejected
            && (e.reason, status) == (if |a.queue| >= 128 then (QueueFull, Busy)
                                      else if x.risk > 3 then (BadRisk, Inval)
                                      else if x.target > 3 then (BadTarget, Inval)
                                      else if x.target != 1 then (Unsupported, NoSys)
                                      else if x.delta < -32 || x.delta > 32 then (BadDelta, Inval)
                                      else (ModeBlocked, Perm))
  {
  }

  /** A task that a commit or a rollback may name. */
  ghost predicate Known(s: Sched, id: nat) { 1 <= id <= |s.tasks| }

  /**
   autonomy_action_commit_next takes the oldest action. A known task gets its priority moved by the delta, cut off at 0
   and 255, and its old priority is kept for a rollback; an unknown one is refused. No other task changes.
   */
  lemma CommitMeans(a: Auto, fragmentation: nat, judge: bool)
    requires Inv(a) && a.queue != [] && Proofs.Settable(a.sched, a.queue[0].id)
    ensures var (a', status, undone) := Commit(a, fragmentation, judge); var x := a.queue[0];
            && !undone && a'.queue == a.queue[1..] && a'.proposed == a.proposed && a'.approved == a.approved
            && a'.rollbacks == a.rollbacks && a'.observation == a.observation && a'.safe == a.safe
            && if Known(a.sched, x.id) then
                 var t := a.sched.tasks[x.id - 1]; var p := t.priority + x.delta;
                 && status == Ok && a'.committed == a.committed + 1 && a'.rejected == a.rejected
                 && a'.sched.tasks == a.sched.tasks[x.id - 1 := t.(priority := if p < 0 then 0 else if p > 255 then 255 else p)]
                 && a'.sched.current == a.sched.current && a'.sched.stats == a.sched.stats
                 && a'.last == Some(x) && a'.context == Some(Context(1, x.id, t.priority))
                 && a'.log == a.log + [Event(x.id, x.target, Committed, Fine)]
               else
                 && status == Inval && a'.committed == a.committed && a'.rejected == a.rejected + 1
                 && a'.sched == a.sched && a'.last == a.last && a'.context == a.context
                 && a'.log == a.log + [Event(x.id, x.target, Rejected, ModeBlocked)]
  {
    hide Proofs.QueuesOk, Proofs.StatsOk, SetPriority, Score, Rollback;
    CommitKeeps(a, fragmentation, judge);
    CommitHeadOutcome(a);
    var x := a.queue[0];
    if Known(a.sched, x.id) {
      var i := x.id - 1;
      Proofs.FindIs(a.sched, i);
      var p := ClampPriority(a.sched.tasks[i].priority + x.delta);
      Proofs.SetPriorityKeeps(a.sched, i, p);
      Proofs.SetPriorityMeans(a.sched, i, p);
    } else {
      Unknown(a.sched, x.id);
    }
  }

  lemma Unknown(s: Sched, id: nat)
    requires Proofs.Inv(s) && !Known(s, id)
    ensures Find(s.tasks, id, 0).None?
  {
    hide Proofs.QueuesOk, Proofs.StatsOk;
    var f := Find(s.tasks, id, 0);
  }

  /**
   autonomy_action_rollback_last works exactly when there is a commit to undo and its task is known. Then the task gets
   the kept priority, the context is used up and the undone action is logged; otherwise nothing changes.
   */
  lemma RollbackMeans(a: Auto)
    requires Inv(a) && (a.context.Some? ==> Proofs.Settable(a.sched, a.context.value.id))
    ensures var (a', status) := Rollback(a);
            if a.last.Some? && Known(a.sched, a.context.value.id) then
              var id := a.context.value.id; var x := a.last.value;
              && status == Ok && a'.rollbacks == a.rollbacks + 1 && a'.last == None && a'.context == None
              && a'.sched.tasks == a.sched.tasks[id - 1 := a.sched.tasks[id - 1].(priority := a.context.value.previous)]
              && a'.sched.current == a.sched.current && a'.sched.stats == a.sched.stats
              && a'.log == a.log + [Event(x.id, x.target, RolledBack, Fine)]
              && a'.queue == a.queue && a'.committed == a.committed && a'.rejected == a.rejected && a'.proposed == a.proposed
            else a' == a && status == Inval
  {
    hide Proofs.QueuesOk, Proofs.StatsOk, SetPriority;
    if a.last.Some? {
      var id := a.context.value.id;
      if Known(a.sched, id) {
        Proofs.FindIs(a.sched, id - 1);
        Proofs.SetPriorityKeeps(a.sched, id - 1, a.context.value.previous);
        Proofs.SetPriorityMeans(a.sched, id - 1, a.context.value.previous);
      } else {
        Unknown(a.sched, id);
        NoSuchTask(a.sched, id, a.context.value.previous);
      }
    }
  }

  // ---------- observation mode ----------

  /** No call of the run leaves observation mode. */
  predicate Observing(ops: seq<Op>) { forall k :: 0 <= k < |ops| && ops[k].ModeOp? ==> ops[k].observation }

  lemma StepObserves(a: Auto, op: Op)
    requires Inv(a) && Shaped(a.sched) && Legal(a, op) && a.observation && (op.ModeOp? ==> op.observation)
    ensures var a' := Step(a, op); a'.observation && a'.approvals == a.approvals && a'.approved == a.approved
  {
    hide Proofs.Inv, Proofs.Step, Proofs.Legal, Shaped, Score, Proofs.Settable, SetPriority;
  }

  /** While observation mode lasts, nothing is approved, whatever is proposed. */
  lemma {:induction false} ObservationApprovesNothing(a: Auto, ops: seq<Op>)
    requires Inv(a) && LegalRun(a, ops) && a.observation && Observing(ops)
    ensures var a' := Run(a, ops); a'.observation && a'.approvals == a.approvals && a'.approved == a.approved
    decreases |ops|
  {
    hide Inv, Step, Legal;
    if ops != [] {
      SoundShape(a);
      StepObserves(a, ops[0]);
      StepKeeps(a, ops[0]);
      assert Observing(ops[1..]);
      ObservationApprovesNothing(Step(a, ops[0]), ops[1..]);
    }
  }

  lemma SoundShape(a: Auto)
    requires Inv(a)
    ensures Shaped(a.sched)
  {
    hide Proofs.QueuesOk, Proofs.StatsOk;
  }

  /** The calls of the run that go to the scheduler directly. */
  function TaskCalls(ops: seq<Op>): seq<Proofs.Op> {
    if ops == [] then [] else if ops[0].TaskOp? then [ops[0].op] + TaskCalls(ops[1..]) else TaskCalls(ops[1..])
  }

  /** Nothing approved is left to commit, and no commit is left to undo. */
  predicate Quiet(a: Auto) { a.queue == [] && a.last.None? && a.context.None? }

  lemma StepQuiet(a: Auto, op: Op)
    requires Shaped(a.sched) && Legal(a, op) && a.observation && Quiet(a)
    ensures Quiet(Step(a, op)) && Step(a, op).sched == if op.TaskOp? then Proofs.Step(a.sched, op.op) else a.sched
  {
    hide Proofs.Step, Proofs.Legal, Shaped, Proofs.Settable, SetPriority;
  }

  /**
   From a quiet state, such as after autonomy_init, a run in observation mode leaves the scheduler exactly as the
   direct calls of the run alone would: no proposal, commit or rollback ever touches a task.
   */
  lemma {:induction false} ObservationTouchesNoTask(a: Auto, ops: seq<Op>)
    requires Inv(a) && LegalRun(a, ops) && a.observation && Observing(ops) && Quiet(a)
    ensures Shaped(a.sched) && Proofs.LegalRun(a.sched, TaskCalls(ops)) && Run(a, ops).sched == Proofs.Run(a.sched, TaskCalls(ops))
    decreases |ops|
  {
    hide Inv, Step, Proofs.Step, Proofs.Legal, Quiet;
    SoundShape(a);
    if ops != [] {
      StepObserves(a, ops[0]);
      StepQuiet(a, ops[0]);
      StepKeeps(a, ops[0]);
      assert Observing(ops[1..]);
      ObservationTouchesNoTask(Step(a, ops[0]), ops[1..]);
      if ops[0].TaskOp? {
        assert TaskCalls(ops)[1..] == TaskCalls(ops[1..]);
      }
    } else {
      assert TaskCalls(ops) == [];
    }
  }

  /** autonomy_init starts in observation mode: until somebody leaves it, nothing is approved and no task is touched. */
  lemma ObservationFromInit(s: Sched, ops: seq<Op>)
    requires Proofs.Inv(s) && Shaped(s) && LegalRun(AutonomySpec.Fresh(s), ops) && Observing(ops)
    ensures var a := Run(AutonomySpec.Fresh(s), ops);
            && a.approvals == [] && a.approved == 0
            && Proofs.LegalRun(s, TaskCalls(ops)) && a.sched == Proofs.Run(s, TaskCalls(ops))
  {
    hide Proofs.Inv, Run, LegalRun, Proofs.Run, Proofs.LegalRun, Observing, TaskCalls, Shaped;
    FreshInv(s);
    ObservationApprovesNothing(AutonomySpec.Fresh(s), ops);
    ObservationTouchesNoTask(AutonomySpec.Fresh(s), ops);
  }
}
