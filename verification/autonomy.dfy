/**
 The autonomy control plane as the source runs it: actions wait in a ring, events go to a log,
 and one rollback context remembers the last commit.
 */
module Autonomy {
  import opened Types
  import opened SchedSpec
  import opened Scheduler
  import opened AutonomySpec
  import opened Rings
  import Proofs = SchedProofs

  class ControlPlane {
    const sched: RunQueues
    const actions: Queue<Action>
    const events: Log<Event>
    var last: Option<Action>
    var context: Option<Context>
    var proposed: nat
    var approved: nat
    var committed: nat
    var rejected: nat
    var rollbacks: nat
    var observation: bool
    var safe: bool
    ghost var approvals: seq<Action>
    ghost var leavers: seq<Action>

    ghost predicate Valid()
      reads actions, actions.slots, events, events.slots, sched, sched.lists
    {
      && actions.Valid() && actions.slots.Length == ACTION_CAP
      && events.Valid() && events.slots.Length == EVENT_CAP && sched.Sound()
    }

    ghost function Abs(): Auto
      requires actions.Valid()
      reads this, actions, actions.slots, events, sched, sched.lists
    {
      Auto(sched.Abs(), actions.Contents(), events.entries, last, context,
           proposed, approved, committed, rejected, rollbacks, observation, safe, approvals, leavers)
    }

    /** autonomy_init */
    constructor (sched: RunQueues)
      requires sched.Sound()
      ensures Valid() && this.sched == sched && fresh(actions) && fresh(actions.slots) && fresh(events) && fresh(events.slots)
      ensures Abs() == AutonomySpec.Fresh(sched.Abs())
    {
      this.sched := sched;
      actions := new Queue(ACTION_CAP, Action(0, 0, 0, 0));
      events := new Log(EVENT_CAP, Event(0, 0, Rejected, Fine));
      last, context := None, None;
      proposed, approved, committed, rejected, rollbacks := 0, 0, 0, 0, 0;
      observation, safe := true, false;
      approvals, leavers := [], [];
    }

    /** The checks of autonomy_action_propose, in order. */
    method CheckProposal(x: Action, health: Health) returns (reason: Reason, status: Status)
      requires Valid()
      ensures (reason, status) == Objection(Abs(), x, health)
    {
      hide actions.Valid, events.Valid, sched.Sound;
      if actions.count >= ACTION_CAP {
        return QueueFull, Busy;
      }
      if x.risk > 3 {
        return BadRisk, Inval;
      }
      if x.target > TARGET_LAST {
        return BadTarget, Inval;
      }
      if x.target != TARGET_SCHED {
        return Unsupported, NoSys;
      }
      if x.delta < -32 || x.delta > 32 {
        return BadDelta, Inval;
      }
      if health == Unsafe || (health == Degraded && x.risk > 0) || (safe && x.risk > 0) || observation {
        return ModeBlocked, Perm;
      }
      reason, status := Fine, Ok;
    }

    method LogAction(x: Action, state: ActionState, reason: Reason)
      requires Valid()
      modifies events, events.slots
      ensures Valid() && Abs() == Logged(old(Abs()), x, state, reason)
    {
      hide actions.Valid, events.Valid, sched.Sound;
      events.Add(Event(x.id, x.target, state, reason));
    }

    method RefuseAction(x: Action, reason: Reason)
      requires Valid()
      modifies this`rejected, events, events.slots
      ensures Valid() && Abs() == Refused(old(Abs()), x, reason)
    {
      hide actions.Valid, events.Valid, sched.Sound;
      rejected := rejected + 1;
      LogAction(x, Rejected, reason);
    }

    /** An approved action joins the queue. */
    method AdmitAction(x: Action)
      requires Valid() && actions.count < ACTION_CAP
      modifies this`approved, this`approvals, actions, actions.slots
      ensures Valid()
      ensures Abs() == old(Abs()).(queue := old(Abs()).queue + [x], approved := old(approved) + 1, approvals := old(approvals) + [x])
    {
      hide actions.Valid, events.Valid, sched.Sound;
      actions.Push(x);
      approved := approved + 1;
      approvals := approvals + [x];
    }

    /** The oldest action leaves the queue for good. */
    method TakeAction() returns (x: Action)
      requires Valid() && actions.count > 0
      modifies this`leavers, actions
      ensures Valid() && old(Abs()).queue != [] && x == old(Abs()).queue[0]
      ensures Abs() == old(Abs()).(queue := old(Abs()).queue[1..], leavers := old(leavers) + [x])
    {
      hide actions.Valid, events.Valid, sched.Sound;
      x := actions.Pop();
      leavers := leavers + [x];
    }

    /** autonomy_action_propose */
    method ProposeAction(x: Action, health: Health) returns (status: Status)
      requires Valid()
      modifies this, actions, actions.slots, events, events.slots
      ensures Valid() && (Abs(), status) == Propose(old(Abs()), x, health)
    {
      hide actions.Valid, events.Valid, sched.Sound, Objection;
      var reason;
      reason, status := CheckProposal(x, health);
      proposed := proposed + 1;
      if status != Ok {
        RefuseAction(x, reason);
        return;
      }
      OkMeansRoom(old(Abs()), x, health);
      AdmitAction(x);
      LogAction(x, Approved, Fine);
    }

    /** apply_action */
    method ApplyAction(x: Action) returns (status: Status)
      requires Valid() && Proofs.Settable(sched.Abs(), x.id)
      modifies this`context, sched, sched.lists
      ensures Valid() && (Abs(), status) == Apply(old(Abs()), x)
    {
      hide actions.Valid, events.Valid, SetPriority, Proofs.Inv;
      if x.target != TARGET_SCHED {
        return NoSys;
      }
      var current := sched.GetPriorityOf(x.id);
      if current.None? {
        return Inval;
      }
      context := Some(Context(x.target, x.id, current.value));
      status := sched.SetPriorityOf(x.id, ClampPriority(current.value + x.delta));
    }

    /** autonomy_action_commit_next up to the evaluation. */
    method CommitOne() returns (status: Status)
      requires Valid() && actions.count > 0 && Proofs.Settable(sched.Abs(), actions.Contents()[0].id)
      modifies this, actions, events, events.slots, sched, sched.lists
      ensures Valid() && old(Abs()).queue != [] && (Abs(), status) == CommitHead(old(Abs()))
    {
      hide actions.Valid, events.Valid, Apply, Proofs.Inv, Proofs.Settable;
      var x := TakeAction();
      status := ApplyAction(x);
      if status != Ok {
        var reason := if x.target > TARGET_LAST then BadTarget else if x.target != TARGET_SCHED then Unsupported else ModeBlocked;
        RefuseAction(x, reason);
        return;
      }
      last := Some(x);
      committed := committed + 1;
      LogAction(x, Committed, Fine);
    }

    /** autonomy_action_rollback_last */
    method RollbackLast() returns (status: Status)
      requires Valid() && (context.Some? ==> Proofs.Settable(sched.Abs(), context.value.id))
      modifies this, events, events.slots, sched, sched.lists
      ensures Valid() && (Abs(), status) == Rollback(old(Abs()))
    {
      hide actions.Valid, events.Valid, SetPriority, Proofs.Inv, Proofs.Settable;
      if last.None? || context.None? {
        return Inval;
      }
      if context.value.target != TARGET_SCHED {
        return NoSys;
      }
      status := sched.SetPriorityOf(context.value.id, context.value.previous);
      if status != Ok {
        return;
      }
      rollbacks := rollbacks + 1;
      events.Add(Event(last.value.id, last.value.target, RolledBack, Fine));
      context, last := None, None;
    }

    /** autonomy_action_commit_next */
    method CommitNext(fragmentation: nat, judge: bool) returns (status: Status, rolledBack: bool)
      requires Valid() && Inv(Abs())
      requires actions.count > 0 ==> Proofs.Settable(sched.Abs(), actions.Contents()[0].id)
      modifies this, actions, events, events.slots, sched, sched.lists
      ensures Valid() && Inv(Abs()) && (Abs(), status, rolledBack) == Commit(old(Abs()), fragmentation, judge)
      ensures !rolledBack
    {
      hide actions.Valid, events.Valid, CommitHead, Rollback, Score, Proofs.Inv, Proofs.Settable;
      rolledBack := false;
      if actions.count == 0 {
        return Inval, false;
      }
      var before := Score(fragmentation, sched.stats);
      status := CommitOne();
      if status == Ok {
        var after := Score(fragmentation, sched.stats);
        if judge && after + 5000 < before {
          CommittedSettable(old(Abs()));
          var st := RollbackLast();
          rolledBack := st == Ok;
        }
      }
      CommitKeeps(old(Abs()), fragmentation, judge);
    }
  }

  lemma OkMeansRoom(a: Auto, x: Action, health: Health)
    requires Objection(a, x, health).1 == Ok
    ensures |a.queue| < ACTION_CAP
  {
  }
}
