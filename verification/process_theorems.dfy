/**
 Ownership, fail-closed guards and the evidence journal, over every run of protocol calls,
 whatever writes the hardware loses.
 */
module ProcessTheorems {
  import opened Types
  import P = Paging
  import opened ProcessSpec

  /** Callers panic when a failed call leaves the outer guard live; a panic halts the machine. */
  datatype World = Running(sys: Sys, guard: Guard) | Halted

  datatype Cmd =
    | InitCmd
    | PrepareCmd(slot: nat, executable: bool)
    | CancelCmd(p: nat)
    | ActivateCmd(p: nat)
    | FinishCmd(p: nat)
    | TrapCmd(frame: Frame, liveAc: bool)
    | UserCmd(run: RunState, canary: bool, memory: seq<Byte>)
    | IrqCmd(on: bool)

  /** A process pointer is only obtained from prepare. */
  predicate Legal(s: Sys, cmd: Cmd) {
    match cmd
    case CancelCmd(p) => p < SLOTS && p < |s.procs| && s.procs[p].generation > 0
    case ActivateCmd(p) => p < SLOTS && p < |s.procs| && s.procs[p].generation > 0
    case FinishCmd(p) => p < SLOTS && p < |s.procs| && s.procs[p].generation > 0
    case UserCmd(_, _, memory) => |memory| == USER_SIZE
    case _ => true
  }

  // ---------- the journal's grammar ----------

  /** How far the run that the journal is in has got; Broken when the events make no sense. */
  datatype Phase = Idle | Open(slot: nat, generation: nat, capture: nat) | Broken

  /** Acquire, at most one capture, release; the release cites the capture of its own run or nothing. */
  function Next(ph: Phase, e: Event): Phase {
    match e.kind
    case Acquire => if ph.Idle? && e.capture == 0 then Open(e.slot, e.generation, 0) else Broken
    case Capture =>
      if ph == Open(e.slot, e.generation, 0) && e.capture != 0 then Open(e.slot, e.generation, e.capture) else Broken
    case Release => if ph == Open(e.slot, e.generation, e.capture) then Idle else Broken
  }

  function PhaseAfter(events: seq<Event>): Phase {
    if events == [] then Idle else Next(PhaseAfter(events[..|events| - 1]), events[|events| - 1])
  }

  lemma PhaseAppend(events: seq<Event>, e: Event)
    ensures PhaseAfter(events + [e]) == Next(PhaseAfter(events), e)
  {
    assert (events + [e])[..|events|] == events;
  }

  // ---------- the invariant ----------

  ghost predicate ProcOk(s: Sys, c: Config, p: nat)
    requires Wf(s, c) && p < SLOTS
  {
    var q := s.procs[p];
    && DescriptorOk(q, p) && q.space.cr3 == c.layout.pml4[p] && q.space.backing == c.layout.backing[p]
    && (q.prepared ==> q.space.executable == s.spaces.executable[p])
    && (q.prepared && s.current != Some(p) ==> q.trap.None?)
  }

  ghost predicate TrapOk(s: Sys, c: Config, p: nat)
    requires Wf(s, c) && p < SLOTS
  {
    var q := s.procs[p];
    q.trap.Some? ==>
      && q.trap.value.sequence != 0 && q.trap.value.generation == q.generation
      && q.trap.value.cr3 == q.space.cr3 && q.trap.value.rsp0 == Top(c, p) && FrameOk(q.trap.value.frame, Top(c, p))
  }

  /** The state while process `p` owns the machine. */
  ghost predicate Owned(s: Sys, g: Guard, c: Config, p: nat)
    requires Wf(s, c)
  {
    && p < SLOTS && s.initialized && s.procs[p].active && !s.procs[1 - p].active && s.procs[p].prepared
    && s.procs[p].generation > 0
    && s.activeSlot == Some(p) && s.hw.cr3 == s.procs[p].space.cr3
    && s.hw.rsp0 == Top(c, p) && s.stackGuarded && !s.hw.irq && s.currentPid == Pid(p)
    && g.active && g.space.active && g.space.slot == p && g.space.previousCr3 == s.baseCr3 && !g.space.irqPending
    && g.stack == StackGuard(s.baseRsp0, Top(c, p), true, true, false)
    && TrapOk(s, c, p)
  }

  /** The state while nothing is owned. */
  ghost predicate Free(s: Sys, g: Guard, c: Config)
    requires Wf(s, c)
  {
    && !s.procs[0].active && !s.procs[1].active && s.activeSlot.None? && !s.stackGuarded && s.currentPid == 0 && !g.active
    && (s.initialized ==> s.hw.cr3 == s.baseCr3 && s.hw.rsp0 == s.baseRsp0)
  }

  ghost predicate Ownership(s: Sys, g: Guard, c: Config)
    requires Wf(s, c)
  {
    && (match s.current case Some(p) => Owned(s, g, c, p) case None => Free(s, g, c))
    && (s.initialized ==> s.spaces.ready && ProcOk(s, c, 0) && ProcOk(s, c, 1))
  }

  /** Sequence numbers are dense from one and every event is still valid. */
  ghost predicate Recorded(s: Sys, c: Config)
    requires Wf(s, c)
  {
    && s.sequence == |s.events| <= CAPACITY
    && forall i :: 0 <= i < |s.events| ==> s.events[i].sequence == i + 1 && FieldsValid(s.events[i], s, c)
  }

  /** The journal is recorded in order, keeps the grammar, and has room for the rest of an open run. */
  ghost predicate Journal(s: Sys, c: Config)
    requires Wf(s, c)
  {
    && Recorded(s, c)
    && PhaseAfter(s.events) == PhaseNow(s)
    && (s.current.Some? ==> |s.events| + EventsLeft(s) <= CAPACITY)
    && (s.events != [] ==> s.initialized)
  }

  ghost function PhaseNow(s: Sys): Phase
    requires |s.procs| == SLOTS
  {
    if s.current.Some? && s.current.value < SLOTS then
      var q := s.procs[s.current.value];
      Open(s.current.value, q.generation, if q.trap.Some? then q.trap.value.sequence else 0)
    else Idle
  }

  /** The events an open run may still add: its capture, if there was none yet, and its release. */
  ghost function EventsLeft(s: Sys): nat
    requires |s.procs| == SLOTS
  {
    if s.current.Some? && s.current.value < SLOTS && s.procs[s.current.value].trap.Some? then 1 else 2
  }

  ghost predicate Inv(s: Sys, g: Guard, c: Config) {
    Wf(s, c) && Ownership(s, g, c) && Journal(s, c)
  }

  ghost predicate WorldInv(w: World, c: Config) {
    w.Running? ==> Inv(w.sys, w.guard, c)
  }

  // ---------- journal steps ----------

  /** Appending a valid event to a journal with room succeeds and takes the next number. */
  lemma AppendWorks(s: Sys, c: Config, e: Event)
    requires Wf(s, c) && FieldsValid(e, s, c)
    requires s.sequence == |s.events| < CAPACITY && forall i :: 0 <= i < |s.events| ==> s.events[i].sequence == i + 1
    ensures Append(s, c, e)
            == (s.(events := s.events + [e.(sequence := |s.events| + 1)], sequence := |s.events| + 1), Ok)
  {
  }

  /** An event stays valid as long as generations only grow and the descriptors stay in place. */
  lemma StaysValid(e: Event, s: Sys, s': Sys, c: Config)
    requires Wf(s, c) && Wf(s', c) && FieldsValid(e, s, c)
    requires s'.baseCr3 == s.baseCr3 && s'.baseRsp0 == s.baseRsp0
    requires forall p :: 0 <= p < SLOTS ==>
               && s.procs[p].generation <= s'.procs[p].generation
               && (DescriptorOk(s.procs[p], p) ==> DescriptorOk(s'.procs[p], p))
               && s'.procs[p].space.cr3 == s.procs[p].space.cr3
    ensures FieldsValid(e, s', c)
  {
    hide P.Inv;
  }

  // ---------- guards fail closed ----------

  /** CR3, rsp0 and the interrupt flag are as before, and nothing is owned or guarded. */
  ghost predicate Undone(s: Sys, s': Sys) {
    && s'.hw.cr3 == s.hw.cr3 && s'.hw.rsp0 == s.hw.rsp0 && s'.hw.irq == s.hw.irq
    && s'.current == s.current && s'.activeSlot == s.activeSlot && s'.stackGuarded == s.stackGuarded
  }

  /** The switch to a private CR3 happened, or was undone, or the guard is live with interrupts off. */
  lemma SpaceActivateOutcome(s: Sys, c: Config, sp: Space)
    requires s.activeSlot.None?
    ensures var (s', g, st) := SpaceActivate(s, c, sp, NoGuard().space);
            && s' == s.(hw := s'.hw, activeSlot := s'.activeSlot) && s'.hw.rsp0 == s.hw.rsp0
            && (st == Ok ==> s'.activeSlot == Some(sp.slot) && s'.hw.cr3 == sp.cr3 && !s'.hw.irq
                             && g == SpaceGuard(s.hw.cr3, s.hw.irq, sp.slot, false, false, false, true))
            && (st != Ok && !g.active && !g.irqPending ==> Undone(s, s'))
            && (g.active || g.irqPending ==> !s'.hw.irq)
  {
  }

  lemma SpaceRestoreOutcome(s: Sys, c: Config, g: SpaceGuard)
    requires g.active && s.activeSlot == Some(g.slot) && !s.hw.irq
    ensures var (s', g', st) := SpaceRestore(s, c, g);
            && s' == s.(hw := s'.hw, activeSlot := s'.activeSlot) && s'.hw.rsp0 == s.hw.rsp0
            && (st == Ok <==> !g'.active && !g'.irqPending)
            && (st == Ok ==> s'.activeSlot.None? && s'.hw.cr3 == g.previousCr3 && s'.hw.irq == g.previousIrq)
            && (st != Ok ==> !s'.hw.irq)
  {
  }

  lemma StackPublishOutcome(s: Sys, c: Config, base: nat)
    requires !s.stackGuarded
    ensures var (s', g, st) := StackPublish(s, c, base, NoGuard().stack);
            && s' == s.(hw := s'.hw, stackGuarded := s'.stackGuarded)
            && s'.hw.cr3 == s.hw.cr3 && s'.hw.irq == s.hw.irq
            && (st == Ok ==> s'.hw.rsp0 == base + STACK_SIZE && s'.stackGuarded
                             && g == StackGuard(s.hw.rsp0, base + STACK_SIZE, true, true, false))
            && (!g.active ==> s' == s && st != Ok)
  {
  }

  lemma StackRestoreOutcome(s: Sys, c: Config, g: StackGuard)
    ensures var (s', g', st) := StackRestore(s, c, g);
            && s' == s.(hw := s'.hw, stackGuarded := s'.stackGuarded)
            && s'.hw.cr3 == s.hw.cr3 && s'.hw.irq == s.hw.irq
            && (st == Ok ==> s'.hw.rsp0 == g.previous && !s'.stackGuarded && !s'.hw.irq && g' == g.(restored := true, active := false))
  {
  }

  /** What activation with a fresh guard leaves behind when it does not succeed. */
  ghost predicate FailedClosed(s: Sys, s': Sys, g: Guard) {
    if g.active then !s'.hw.irq else Undone(s, s')
  }

  lemma RollbackOutcome(s0: Sys, s: Sys, c: Config, g: Guard)
    requires Wf(s, c) && g.space.active && s.activeSlot == Some(g.space.slot) && !s.hw.irq
    requires s0.activeSlot.None? && !s0.stackGuarded && s.current == s0.current
    requires g.space.previousCr3 == s0.hw.cr3 && g.space.previousIrq == s0.hw.irq && g.stack.previous == s0.hw.rsp0
    ensures var (s', g', st) := Rollback(s, c, g);
            && st != Ok && FailedClosed(s0, s', g')
            && s' == s.(hw := s'.hw, stackGuarded := s'.stackGuarded, activeSlot := s'.activeSlot)
  {
    hide P.Inv, StackRestore, SpaceRestore;
    StackRestoreOutcome(s, c, g.stack);
    SpaceRestoreOutcome(StackRestore(s, c, g.stack).0, c, g.space);
  }

  /** Everything but the hardware, the two guard flags and the telemetry of process `p` is as before. */
  ghost predicate OnlyMachine(s0: Sys, s: Sys, p: nat) {
    && |s0.procs| == SLOTS && p < SLOTS
    && s == s0.(hw := s.hw, activeSlot := s.activeSlot, stackGuarded := s.stackGuarded, procs := s.procs,
                dropped := s.dropped, overflow := s.overflow)
    && (s.procs == s0.procs || s.procs == s0.procs[p := s0.procs[p].(run := FreshRun())])
  }

  /** The machine right before process `p` becomes current. */
  ghost predicate Switched(s0: Sys, s: Sys, c: Config, p: nat, g: Guard)
    requires |s0.procs| == SLOTS && |c.stackBase| == SLOTS && p < SLOTS
  {
    && OnlyMachine(s0, s, p) && s.activeSlot == Some(p) && s.stackGuarded
    && s.hw.cr3 == s0.procs[p].space.cr3 && s.hw.rsp0 == Top(c, p) && !s.hw.irq
    && g.space == SpaceGuard(s0.hw.cr3, s0.hw.irq, p, false, false, false, true)
    && g.stack == StackGuard(s0.hw.rsp0, Top(c, p), true, true, false)
  }

  /** Either the machine is switched and `Own` decides, or activation failed closed. */
  lemma PublishStackOutcome(s0: Sys, s: Sys, c: Config, p: nat, space: SpaceGuard) returns (sm: Sys, gm: Guard)
    requires Wf(s0, c) && Wf(s, c) && p < SLOTS && s0.activeSlot.None? && !s0.stackGuarded
    requires OnlyMachine(s0, s, p) && s.activeSlot == Some(p) && !s.stackGuarded
    requires s.hw.cr3 == s0.procs[p].space.cr3 && s.hw.rsp0 == s0.hw.rsp0 && !s.hw.irq
    requires space == SpaceGuard(s0.hw.cr3, s0.hw.irq, p, false, false, false, true)
    ensures Wf(sm, c)
    ensures var (s', g', st) := PublishStack(s, c, p, space);
            || (st != Ok && FailedClosed(s0, s', g') && OnlyMachine(s0, s', p))
            || (Switched(s0, sm, c, p, gm) && sm.procs == s.procs && (s', g', st) == Own(sm, c, p, gm))
  {
    hide P.Inv, StackPublish, SpaceRestore, Rollback, Own;
    var (s1, stack, st1) := StackPublish(s, c, c.stackBase[p], NoGuard().stack);
    StackPublishOutcome(s, c, c.stackBase[p]);
    sm, gm := s1, NoGuard().(space := space, stack := stack);
    if st1 != Ok && !stack.active {
      SpaceRestoreOutcome(s1, c, space);
    } else if st1 == Ok && stack.previous == stack.target {
      RollbackOutcome(s0, s1, c, gm);
    }
  }

  lemma ActivateOutcome(s: Sys, c: Config, p: nat) returns (sm: Sys, gm: Guard)
    requires Wf(s, c) && p < SLOTS && s.activeSlot.None? && !s.stackGuarded
    ensures Wf(sm, c)
    ensures var (s', g', st) := Activate(s, c, p, NoGuard());
            || (st != Ok && FailedClosed(s, s', g') && OnlyMachine(s, s', p))
            || (Switched(s, sm, c, p, gm) && s.initialized && s.current.None? && s.procs[p].prepared
                && |s.events| + EVENTS_PER_RUN <= CAPACITY && sm.procs == s.procs[p := s.procs[p].(run := FreshRun())]
                && (s', g', st) == Own(sm, c, p, gm))
  {
    hide P.Inv, SpaceActivate, PublishStack, Own;
    sm, gm := s, NoGuard();
    var (s0, st0) := Preflight(s, EVENTS_PER_RUN);
    var s1 := WithProc(s0, p, s.procs[p].(run := FreshRun()));
    SpaceActivateOutcome(s1, c, s1.procs[p].space);
    var (s2, space, st1) := SpaceActivate(s1, c, s1.procs[p].space, NoGuard().space);
    if s.initialized && DescriptorOk(s.procs[p], p) && s.procs[p].prepared && s.current.None? && !s.procs[p].active
       && st0 == Ok && st1 == Ok {
      sm, gm := PublishStackOutcome(s, s2, c, p, space);
    }
  }

  // ---------- every call keeps the invariant ----------

  /** What a journal event can see of the system did not get worse. */
  ghost predicate Ages(s: Sys, s': Sys, c: Config)
    requires Wf(s, c) && Wf(s', c)
  {
    && s'.baseCr3 == s.baseCr3 && s'.baseRsp0 == s.baseRsp0
    && forall p :: 0 <= p < SLOTS ==>
         && s.procs[p].generation <= s'.procs[p].generation
         && (DescriptorOk(s.procs[p], p) ==> DescriptorOk(s'.procs[p], p))
         && s'.procs[p].space.cr3 == s.procs[p].space.cr3
  }

  lemma RecordedAges(s: Sys, s': Sys, c: Config)
    requires Wf(s, c) && Wf(s', c) && Recorded(s, c) && Ages(s, s', c)
    requires s'.events == s.events && s'.sequence == s.sequence
    ensures Recorded(s', c)
  {
    hide P.Inv, FieldsValid;
    forall i | 0 <= i < |s'.events| ensures s'.events[i].sequence == i + 1 && FieldsValid(s'.events[i], s', c) {
      StaysValid(s.events[i], s, s', c);
    }
  }

  /** A valid event joins the journal, whose grammar moves on by that event. */
  lemma RecordedAppend(s: Sys, c: Config, e: Event)
    requires Wf(s, c) && Recorded(s, c) && |s.events| < CAPACITY && FieldsValid(e, s, c)
    ensures var (s', st) := Append(s, c, e);
            && st == Ok && Wf(s', c) && Recorded(s', c) && |s'.events| == |s.events| + 1
            && s' == s.(events := s'.events, sequence := s'.sequence)
            && PhaseAfter(s'.events) == Next(PhaseAfter(s.events), e)
  {
    hide P.Inv, FieldsValid, PhaseAfter;
    var e' := e.(sequence := |s.events| + 1);
    AppendWorks(s, c, e);
    var s' := Append(s, c, e).0;
    PhaseAppend(s.events, e');
    SequenceIrrelevant(e, s, c, |s.events| + 1);
    forall i | 0 <= i < |s'.events| ensures s'.events[i].sequence == i + 1 && FieldsValid(s'.events[i], s', c) {
      if i < |s.events| {
        StaysValid(s.events[i], s, s', c);
      } else {
        StaysValid(e', s, s', c);
      }
    }
  }

  lemma SequenceIrrelevant(e: Event, s: Sys, c: Config, n: nat)
    requires Wf(s, c) && FieldsValid(e, s, c)
    ensures FieldsValid(e.(sequence := n), s, c)
  {
    hide P.Inv;
  }

  /** Once the machine is switched, the process becomes current and the acquisition is journalled. */
  lemma OwnWorks(s: Sys, g: Guard, sm: Sys, gm: Guard, c: Config, p: nat)
    requires Inv(s, g, c) && s.current.None? && s.initialized && p < SLOTS && s.procs[p].prepared && s.procs[p].generation > 0
    requires |s.events| + EVENTS_PER_RUN <= CAPACITY && Wf(sm, c) && Switched(s, sm, c, p, gm)
    ensures var (s', g', st) := Own(sm, c, p, gm);
            st == Ok && Inv(s', g', c) && s'.current == Some(p) && g'.space.previousIrq == s.hw.irq
  {
    hide P.Inv, PhaseAfter, Append, FieldsValid;
    var g1 := gm.(active := true);
    var s1 := WithProc(sm, p, sm.procs[p].(active := true)).(current := Some(p), currentPid := Pid(p));
    RecordedAges(s, s1, c);
    AcquireValid(s1, c, p, g1);
    RecordedAppend(s1, c, AcquireEvent(s1, c, p, g1));
  }

  lemma AcquireValid(s: Sys, c: Config, p: nat, g: Guard)
    requires Wf(s, c) && p < SLOTS && DescriptorOk(s.procs[p], p) && s.procs[p].generation > 0
    requires s.current == Some(p) && s.procs[p].active && s.currentPid == Pid(p) && !s.hw.irq
    requires s.hw.cr3 == s.procs[p].space.cr3 && s.hw.rsp0 == g.stack.target == Top(c, p)
    requires g.space.previousCr3 == s.baseCr3 && g.stack.previous == s.baseRsp0
    ensures FieldsValid(AcquireEvent(s, c, p, g), s, c)
  {
    hide P.Inv;
  }

  /** An idle state whose machine was put back is still sound. */
  lemma UndoneKeeps(s: Sys, g: Guard, s': Sys, c: Config, p: nat)
    requires Inv(s, g, c) && s.current.None? && Wf(s', c) && OnlyMachine(s, s', p) && Undone(s, s')
    ensures Inv(s', g, c)
  {
    hide P.Inv, PhaseAfter, FieldsValid;
    RecordedAges(s, s', c);
  }

  lemma BusyActivate(s: Sys, c: Config, p: nat)
    requires Wf(s, c) && p < SLOTS && s.current.Some?
    ensures var (s', g', st) := Activate(s, c, p, NoGuard()); s' == s && g' == NoGuard() && st != Ok
  {
    hide P.Inv;
  }

  /** Activation with a fresh guard succeeds and owns the machine, or fails closed. */
  lemma ActivateKeeps(s: Sys, g: Guard, c: Config, p: nat)
    requires Inv(s, g, c) && p < SLOTS && s.procs[p].generation > 0
    ensures var (s', g', st) := Activate(s, c, p, NoGuard());
            if st == Ok then Inv(s', g', c) && s'.current == Some(p) && g'.space.previousIrq == s.hw.irq
            else FailedClosed(s, s', g') && (!g'.active ==> Inv(s', g, c))
  {
    hide P.Inv, Activate, Own, PhaseAfter, FieldsValid;
    if s.current.Some? {
      BusyActivate(s, c, p);
    } else {
      var sm, gm := ActivateOutcome(s, c, p);
      var (s', g', st) := Activate(s, c, p, NoGuard());
      if st != Ok && FailedClosed(s, s', g') && OnlyMachine(s, s', p) {
        if !g'.active {
          UndoneKeeps(s, g, s', c, p);
        }
      } else {
        OwnWorks(s, g, sm, gm, c, p);
      }
    }
  }

  // ---------- finish ----------

  lemma DeferredOutcome(s: Sys, c: Config, g: SpaceGuard)
    ensures var (s', g', st) := RestoreDeferred(s, c, g);
            && s' == s.(hw := s'.hw, activeSlot := s'.activeSlot)
            && s'.hw.rsp0 == s.hw.rsp0 && s'.hw.irq == s.hw.irq
            && (st == Ok ==> s'.activeSlot.None? && s'.hw.cr3 == g.previousCr3
                             && g' == g.(cr3Restored := true, active := false, irqPending := true))
  {
  }

  /** The state of finish right before the release is journalled. */
  ghost predicate Restored(s: Sys, s': Sys, g: Guard, g': Guard, c: Config, p: nat)
    requires Wf(s, c) && Wf(s', c) && p < SLOTS
  {
    && s' == s.(hw := s'.hw, spaces := s'.spaces, activeSlot := None, stackGuarded := false,
                procs := s.procs[p := s.procs[p].(active := false, prepared := false)], current := None, currentPid := 0)
    && s'.hw.cr3 == s.baseCr3 && s'.hw.rsp0 == s.baseRsp0 && !s'.hw.irq && s'.spaces.ready
    && s'.spaces.executable[1 - p] == s.spaces.executable[1 - p]
    && g'.space == g.space.(cr3Restored := true, active := false, irqPending := true)
    && g'.stack == g.stack.(restored := true, active := false) && g'.active
  }

  lemma SealFacts(s: Sys, c: Config, p: nat)
    requires Wf(s, c) && p < SLOTS && s.spaces.ready
    ensures var s' := SlotSeal(s, c, p).0;
            s'.spaces.ready && s'.spaces.executable[1 - p] == s.spaces.executable[1 - p]
  {
    hide P.Policy;
    P.PolicySparesOther(s.spaces, c.layout, c.sec, p, false);
  }

  /** Finish of the owner either reaches the journal with everything restored, or keeps the guard with interrupts off. */
  lemma FinishOutcome(s: Sys, g: Guard, c: Config, p: nat) returns (sm: Sys, gm: Guard)
    requires Inv(s, g, c) && s.current == Some(p)
    ensures Wf(sm, c) && p < SLOTS
    ensures var (s', g', st) := Finish(s, c, p, g);
            || (st != Ok && g'.active && !s'.hw.irq && s'.dropped == s.dropped && s'.overflow == s.overflow)
            || (Restored(s, sm, g, gm, c, p) && (s', g', st) == Publish(sm, c, p, gm))
  {
    hide P.Inv, StackRestore, RestoreDeferred, SlotSeal, Publish, Recorded, PhaseAfter;
    sm, gm := s, g;
    var q := s.procs[p];
    var (s1, stack, st1) := StackRestore(s, c, g.stack);
    StackRestoreOutcome(s, c, g.stack);
    if st1 == Ok {
      var (s2, space, st2) := RestoreDeferred(s1, c, g.space);
      DeferredOutcome(s1, c, g.space);
      if st2 == Ok {
        var (s3, nx, st3) := SlotSeal(s2, c, p);
        SealFacts(s2, c, p);
        gm := g.(stack := stack, space := space, sealed := st3 == Ok, nxEnforced := nx);
        sm := WithProc(s3, p, q.(active := false, prepared := false)).(current := None, currentPid := 0);
      }
    }
  }

  lemma ReleaseValid(s: Sys, s': Sys, g: Guard, g': Guard, c: Config, p: nat)
    requires Inv(s, g, c) && s.current == Some(p) && Wf(s', c) && Restored(s, s', g, g', c, p)
    ensures FieldsValid(ReleaseEvent(s', c, p, g'), s', c)
    ensures Next(PhaseNow(s), ReleaseEvent(s', c, p, g')) == Idle
  {
    hide P.Inv, Recorded, PhaseAfter;
  }

  /**
   With everything restored the release is journalled; then interrupts return to their old state, or
   the guard stays live with interrupts off.
   */
  lemma PublishWorks(s: Sys, g: Guard, sm: Sys, gm: Guard, c: Config, p: nat)
    requires Inv(s, g, c) && s.current == Some(p) && Wf(sm, c) && Restored(s, sm, g, gm, c, p)
    ensures var (s', g', st) := Publish(sm, c, p, gm);
            && s'.dropped == s.dropped && s'.overflow == s.overflow && s'.spaces == sm.spaces
            && (g.space.previousIrq ==> !c.drop(sm.hw.writes)) == !g'.active
            && if g'.active then st != Ok && !s'.hw.irq
               else
                 && st == Ok && Inv(s', g', c)
                 && s'.hw.cr3 == g.space.previousCr3 && s'.hw.rsp0 == g.stack.previous && s'.hw.irq == g.space.previousIrq
                 && s'.current.None? && s'.activeSlot.None? && !s'.stackGuarded
  {
    hide P.Inv, PhaseAfter, Append, FieldsValid;
    RecordedAges(s, sm, c);
    ReleaseValid(s, sm, g, gm, c, p);
    RecordedAppend(sm, c, ReleaseEvent(sm, c, p, gm));
    var s1 := Append(sm, c, ReleaseEvent(sm, c, p, gm)).0;
    RecordedAges(s1, RestoreInterrupts(s1, c, gm.space).0, c);
  }

  /** Finish releases the machine and the guard together, or keeps the guard with interrupts off. */
  lemma FinishKeeps(s: Sys, g: Guard, c: Config, p: nat)
    requires Inv(s, g, c) && p < SLOTS
    ensures var (s', g', st) := Finish(s, c, p, g);
            if g'.active then st != Ok && !s'.hw.irq
            else Inv(s', g', c) && s'.current.None?
                 && (g.active ==> st == Ok && s'.hw.cr3 == g.space.previousCr3 && s'.hw.rsp0 == g.stack.previous
                                  && s'.hw.irq == g.space.previousIrq)
    ensures Finish(s, c, p, g).0.dropped == s.dropped && Finish(s, c, p, g).0.overflow == s.overflow
  {
    hide P.Inv, Finish, Publish, Recorded, PhaseAfter;
    if s.current == Some(p) {
      var sm, gm := FinishOutcome(s, g, c, p);
      if Restored(s, sm, g, gm, c, p) {
        PublishWorks(s, g, sm, gm, c, p);
      }
    } else {
      NotFinished(s, g, c, p);
    }
  }

  lemma NotFinished(s: Sys, g: Guard, c: Config, p: nat)
    requires Wf(s, c) && p < SLOTS && s.current != Some(p)
    ensures Finish(s, c, p, g) == (s, g, Inval)
  {
    hide P.Inv;
  }

  // ---------- the other calls ----------

  lemma PrepareFacts(s: Sys, c: Config, slot: nat, executable: bool)
    requires Wf(s, c) && slot < SLOTS && s.spaces.ready
    ensures var (s', space, st) := SlotPrepare(s, c, slot, executable);
            && s'.spaces.ready && s'.spaces.executable[1 - slot] == s.spaces.executable[1 - slot]
            && (st == Ok ==>
                  && space == Space(slot, c.layout.pml4[slot], c.layout.backing[slot], true, executable)
                  && s'.spaces.executable[slot] == executable)
            && (st != Ok ==> s'.spaces.executable == s.spaces.executable)
  {
    hide P.Zeroes, P.SlotRanges;
    P.PolicySparesOther(s.spaces, c.layout, c.sec, slot, executable);
  }

  lemma PrepareKeeps(s: Sys, g: Guard, c: Config, slot: nat, executable: bool)
    requires Inv(s, g, c)
    ensures Inv(Prepare(s, c, slot, executable).0, g, c)
  {
    hide P.Inv, SlotPrepare, FieldsValid, PhaseAfter;
    if s.initialized && slot < SLOTS && s.current.None? && !s.procs[slot].active && s.procs[slot].generation != U64_MAX {
      PrepareFacts(s, c, slot, executable);
      RecordedAges(s, Prepare(s, c, slot, executable).0, c);
    }
  }

  lemma CancelKeeps(s: Sys, g: Guard, c: Config, p: nat)
    requires Inv(s, g, c) && p < SLOTS
    ensures Inv(Cancel(s, c, p).0, g, c)
  {
    hide P.Inv, SlotSeal, FieldsValid, PhaseAfter;
    if s.initialized && DescriptorOk(s.procs[p], p) && s.procs[p].prepared && s.current.None? && !s.procs[p].active {
      SealFacts(s, c, p);
      RecordedAges(s, Cancel(s, c, p).0, c);
    }
  }

  lemma CaptureValid(s: Sys, g: Guard, c: Config, p: nat, f: Frame)
    requires Inv(s, g, c) && s.current == Some(p) && s.procs[p].trap.None? && FrameOk(f, Top(c, p))
    ensures FieldsValid(CaptureEvent(s, c, p, f), s, c)
    ensures Next(PhaseNow(s), CaptureEvent(s, c, p, f)) == Open(p, s.procs[p].generation, s.trapSequence + 1)
  {
    hide P.Inv, Recorded, PhaseAfter;
  }

  /** A capture that passes the checks is always journalled: its place was reserved at activation. */
  lemma TrapKeeps(s: Sys, g: Guard, c: Config, f: Frame, liveAc: bool)
    requires Inv(s, g, c)
    ensures Inv(CaptureTrap(s, c, f, liveAc).0, g, c)
    ensures CaptureTrap(s, c, f, liveAc).0.overflow == s.overflow && CaptureTrap(s, c, f, liveAc).0.dropped == s.dropped
  {
    hide P.Inv, Append, FieldsValid, PhaseAfter;
    if s.current.Some? {
      var p := s.current.value;
      if s.procs[p].trap.None? && FrameOk(f, Top(c, p)) {
        CaptureValid(s, g, c, p, f);
        RecordedAppend(s, c, CaptureEvent(s, c, p, f));
        var s1 := Append(s, c, CaptureEvent(s, c, p, f)).0;
        var trap := Snapshot(f, s.trapSequence + 1, s.procs[p].generation, s.hw.cr3, s.hw.rsp0);
        RecordedAges(s1, WithProc(s1, p, s.procs[p].(trap := Some(trap))).(trapSequence := s.trapSequence + 1), c);
      }
    }
  }

  lemma FirstPrepareFacts(s: Sys, c: Config, slot: nat)
    requires Wf(s, c) && slot < SLOTS && s.activeSlot.None?
    ensures var (s', space, st) := SlotPrepare(s, c, slot, false);
            st == Ok ==>
              && s'.spaces.ready && !s'.spaces.executable[slot]
              && space == Space(slot, c.layout.pml4[slot], c.layout.backing[slot], true, false)
  {
    hide P.Policy;
    if SlotPrepare(s, c, slot, false).2 == Ok {
      P.PolicyDoes(s.spaces, c.layout, c.sec, slot, false);
    }
  }

  lemma NothingRecorded(s: Sys, c: Config)
    requires Wf(s, c) && s.events == [] && s.sequence == 0 && s.current.None?
    ensures Journal(s, c)
  {
    hide P.Inv, FieldsValid;
  }

  lemma InitFirst(s: Sys, g: Guard, c: Config) returns (s0: Sys)
    requires Inv(s, g, c) && s.current.None? && !s.initialized
    ensures Wf(s0, c) && Inv(s0, g, c) && !s0.initialized
    ensures s0.procs == [BlankProc(), BlankProc()] && s0.current.None? && s0.activeSlot.None?
    ensures s0.baseCr3 == s0.hw.cr3 && s0.baseRsp0 == s0.hw.rsp0
    ensures Init(s, c) == if !c.scaffold || s0.baseCr3 == 0 || s0.baseRsp0 == 0 then (s0, Io) else InitProcs(s0, c)
  {
    hide P.Inv, InitProcs, Recorded, PhaseAfter;
    s0 := Cleared(s);
    NothingRecorded(s0, c);
  }

  /** Initialisation establishes the boot baseline and leaves nothing owned. */
  lemma InitKeeps(s: Sys, g: Guard, c: Config)
    requires Inv(s, g, c)
    ensures Inv(Init(s, c).0, g, c)
    ensures Init(s, c).1 == Ok ==> Init(s, c).0.initialized
  {
    hide P.Inv, InitProcs, Recorded, PhaseAfter;
    if s.current.None? && !s.initialized {
      var s0 := InitFirst(s, g, c);
      InitProcsKeeps(s0, g, c);
    }
  }

  lemma InitProcsKeeps(s0: Sys, g: Guard, c: Config)
    requires Inv(s0, g, c) && !s0.initialized && s0.procs == [BlankProc(), BlankProc()] && s0.current.None? && s0.activeSlot.None?
    requires s0.baseCr3 == s0.hw.cr3 && s0.baseRsp0 == s0.hw.rsp0
    ensures Inv(InitProcs(s0, c).0, g, c)
    ensures InitProcs(s0, c).1 == Ok ==> InitProcs(s0, c).0.initialized
  {
    hide P.Inv, SlotPrepare, FieldsValid, PhaseAfter, SelftestOk;
    assert s0.events == [] && s0.sequence == 0;
    var (s1, st1) := InitProc(s0, c, 0);
    FirstPrepareFacts(s0, c, 0);
    if st1 == Ok {
      FirstPrepareFacts(s1, c, 1);
      PrepareFacts(s1, c, 1, false);
    }
    NothingRecorded(InitProcs(s0, c).0, c);
  }

  // ---------- whole runs ----------

  /** Ring 3 runs on its own window and its own entry stack while its process is current. */
  function UserStep(s: Sys, run: RunState, canary: bool, memory: seq<Byte>): Sys
    requires |s.procs| == SLOTS && |s.spaces.backing| == SLOTS
  {
    if s.current.None? || s.current.value >= SLOTS then s
    else
      var p := s.current.value;
      WithProc(s, p, s.procs[p].(run := run, canary := canary)).(
        spaces := s.spaces.(backing := s.spaces.backing[p := memory]))
  }

  lemma UserKeeps(s: Sys, g: Guard, c: Config, run: RunState, canary: bool, memory: seq<Byte>)
    requires Inv(s, g, c)
    ensures Inv(UserStep(s, run, canary, memory), g, c)
  {
    hide FieldsValid, PhaseAfter, P.SlotRanges;
    var s' := UserStep(s, run, canary, memory);
    if s.current.Some? {
      BackingIrrelevant(s.spaces, s'.spaces, c.layout);
      RecordedAges(s, s', c);
    }
  }

  lemma BackingIrrelevant(s: P.Spaces, s': P.Spaces, l: P.Layout)
    requires P.Inv(s, l) && s' == s.(backing := s'.backing) && |s'.backing| == |s.backing|
    ensures P.Inv(s', l)
  {
    hide P.SlotRanges, P.LayoutOk;
  }

  lemma IrqKeeps(s: Sys, g: Guard, c: Config, on: bool)
    requires Inv(s, g, c) && s.current.None?
    ensures Inv(s.(hw := s.hw.(irq := on)), g, c)
  {
    hide P.Inv, FieldsValid, PhaseAfter;
    RecordedAges(s, s.(hw := s.hw.(irq := on)), c);
  }

  /** One protocol call, or one step of the world around it. */
  function Step(w: World, c: Config, cmd: Cmd): World
    requires w.Running? ==> Wf(w.sys, c) && Legal(w.sys, cmd)
  {
    hide P.Inv;
    if w.Halted? then Halted
    else
      var s, g := w.sys, w.guard;
      match cmd
      case InitCmd => Running(Init(s, c).0, g)
      case PrepareCmd(slot, executable) => Running(Prepare(s, c, slot, executable).0, g)
      case CancelCmd(p) => Running(Cancel(s, c, p).0, g)
      case ActivateCmd(p) =>
        var (s', g', status) := Activate(s, c, p, NoGuard());
        if status == Ok then Running(s', g') else if g'.active then Halted else Running(s', g)
      case FinishCmd(p) =>
        var (s', g', _) := Finish(s, c, p, g);
        if g'.active then Halted else Running(s', g')
      case TrapCmd(frame, liveAc) =>
        if s.current.Some? && s.current.value >= SLOTS then w else Running(CaptureTrap(s, c, frame, liveAc).0, g)
      case UserCmd(run, canary, memory) =>
        if |s.spaces.backing| == SLOTS then Running(UserStep(s, run, canary, memory), g) else w
      case IrqCmd(on) => if s.current.Some? then w else Running(s.(hw := s.hw.(irq := on)), g)
  }

  lemma StepKeeps(w: World, c: Config, cmd: Cmd)
    requires WorldInv(w, c) && (w.Running? ==> Legal(w.sys, cmd))
    ensures WorldInv(Step(w, c, cmd), c)
  {
    hide P.Inv, Init, Prepare, Cancel, Activate, Finish, CaptureTrap, UserStep, Ownership, Journal, FailedClosed;
    if w.Running? {
      var s, g := w.sys, w.guard;
      match cmd
      case InitCmd => InitKeeps(s, g, c);
      case PrepareCmd(slot, executable) => PrepareKeeps(s, g, c, slot, executable);
      case CancelCmd(p) => CancelKeeps(s, g, c, p);
      case ActivateCmd(p) => ActivateKeeps(s, g, c, p);
      case FinishCmd(p) => FinishKeeps(s, g, c, p);
      case TrapCmd(frame, liveAc) => TrapKeeps(s, g, c, frame, liveAc);
      case UserCmd(run, canary, memory) => UserKeeps(s, g, c, run, canary, memory);
      case IrqCmd(on) =>
        if s.current.None? {
          IrqKeeps(s, g, c, on);
        }
    }
  }

  ghost predicate LegalRun(w: World, c: Config, cmds: seq<Cmd>)
    requires WorldInv(w, c)
    decreases |cmds|
  {
    cmds == [] ||
    ((w.Running? ==> Legal(w.sys, cmds[0])) && (StepKeeps(w, c, cmds[0]); LegalRun(Step(w, c, cmds[0]), c, cmds[1..])))
  }

  /** Ownership and journal safety, over every legal run and every pattern of lost writes. */
  ghost function Run(w: World, c: Config, cmds: seq<Cmd>): (w': World)
    requires WorldInv(w, c) && LegalRun(w, c, cmds)
    ensures WorldInv(w', c)
    decreases |cmds|
  {
    if cmds == [] then w
    else
      StepKeeps(w, c, cmds[0]);
      Run(Step(w, c, cmds[0]), c, cmds[1..])
  }

  /** A machine that has just booted: nothing is owned, nothing is guarded, nothing is recorded. */
  lemma BootWorld(s: Sys, c: Config)
    requires Wf(s, c) && s.procs == [BlankProc(), BlankProc()] && s.current.None? && s.currentPid == 0
    requires s.activeSlot.None? && !s.stackGuarded && s.events == [] && s.sequence == 0 && !s.initialized
    ensures WorldInv(Running(s, NoGuard()), c)
  {
    hide P.Inv;
    NothingRecorded(s, c);
  }

  /** What the invariant says between calls: one owner with its whole machine, or the boot baseline. */
  lemma OwnershipMeans(w: World, c: Config, cmds: seq<Cmd>)
    requires WorldInv(w, c) && LegalRun(w, c, cmds) && Run(w, c, cmds).Running? && Run(w, c, cmds).sys.initialized
    ensures var s := Run(w, c, cmds).sys;
            match s.current
            case Some(p) =>
              && p < SLOTS && (forall q :: 0 <= q < SLOTS ==> (s.procs[q].active <==> q == p))
              && s.activeSlot == Some(p) && s.hw.cr3 == c.layout.pml4[p] && s.hw.rsp0 == c.stackBase[p] + STACK_SIZE
              && !s.hw.irq
            case None =>
              && (forall q :: 0 <= q < SLOTS ==> !s.procs[q].active)
              && s.hw.cr3 == s.baseCr3 && s.hw.rsp0 == s.baseRsp0 && s.activeSlot.None? && !s.stackGuarded
  {
    hide P.Inv, Run, LegalRun, Recorded, PhaseAfter;
  }

  /** What the invariant says of the journal, for any two positions of it. */
  lemma JournalMeans(w: World, c: Config, cmds: seq<Cmd>, i: nat)
    requires WorldInv(w, c) && LegalRun(w, c, cmds) && Run(w, c, cmds).Running?
    requires i < |Run(w, c, cmds).sys.events|
    ensures var s := Run(w, c, cmds).sys; var e := s.events[i];
            && e.sequence == i + 1 && FieldsValid(e, s, c)
            && (e.fromPid == 0 || e.toPid == 0 || e.fromPid == e.toPid)
            && PhaseAfter(s.events) != Broken
            && (s.current.None? ==> GetEvent(s, c, i) == (Some(e), Ok))
  {
    hide P.Inv, Run, LegalRun, PhaseAfter;
  }

  /** A run of events that is not broken never was. */
  lemma {:induction false} NeverBroken(events: seq<Event>, n: nat)
    requires PhaseAfter(events) != Broken && n <= |events|
    ensures PhaseAfter(events[..n]) != Broken
    decreases |events|
  {
    if n < |events| {
      var init := events[..|events| - 1];
      NeverBroken(init, n);
      assert init[..n] == events[..n];
    } else {
      assert events[..n] == events;
    }
  }

  /** A release cites the capture right before it, in the same run, or none at all. */
  lemma ReleaseCites(events: seq<Event>, n: nat)
    requires PhaseAfter(events) != Broken && 0 < n < |events| && events[n].kind == Release
    ensures var e, d := events[n], events[n - 1];
            && d.slot == e.slot && d.generation == e.generation && d.kind != Release
            && e.capture == (if d.kind == Capture then d.capture else 0)
  {
    NeverBroken(events, n + 1);
    NeverBroken(events, n);
    assert events[..n + 1][..n] == events[..n] && events[..n][..n - 1] == events[..n - 1];
    assert PhaseAfter(events[..n + 1]) == Next(PhaseAfter(events[..n]), events[n]);
    assert PhaseAfter(events[..n]) == Next(PhaseAfter(events[..n - 1]), events[n - 1]);
  }

  // ---------- the slot after a run ----------

  /** After a successful finish the slot is zeroed, and not executable when the processor can enforce it. */
  lemma FinishSeals(s: Sys, g: Guard, c: Config, p: nat)
    requires Inv(s, g, c) && s.current == Some(p) && Finish(s, c, p, g).2 == Ok
    ensures p < SLOTS && c.sec.Some?
    ensures P.Sealed(Finish(s, c, p, g).0.spaces, c.layout, p, c.sec.value)
  {
    hide P.Inv, StackRestore, RestoreDeferred, P.Policy, Publish, Recorded, PhaseAfter;
    var q := s.procs[p];
    var (s1, stack, st1) := StackRestore(s, c, g.stack);
    StackRestoreOutcome(s, c, g.stack);
    var (s2, space, st2) := RestoreDeferred(s1, c, g.space);
    DeferredOutcome(s1, c, g.space);
    var (s3, nx, st3) := SlotSeal(s2, c, p);
    P.PolicyDoes(s2.spaces, c.layout, c.sec, p, false);
    var gm := g.(stack := stack, space := space, sealed := st3 == Ok, nxEnforced := nx);
    var sm := WithProc(s3, p, q.(active := false, prepared := false)).(current := None, currentPid := 0);
    SealFacts(s2, c, p);
    PublishWorks(s, g, sm, gm, c, p);
  }

  /** The same for a cancelled preparation. */
  lemma CancelSeals(s: Sys, c: Config, p: nat)
    requires Wf(s, c) && p < SLOTS && Cancel(s, c, p).1 == Ok
    ensures c.sec.Some?
    ensures P.Sealed(Cancel(s, c, p).0.spaces, c.layout, p, c.sec.value)
  {
    hide P.Inv, P.Policy;
    P.PolicyDoes(s.spaces, c.layout, c.sec, p, false);
  }

  // ---------- with truthful hardware the calls succeed ----------

  ghost predicate Truthful(c: Config) { forall n: nat :: !c.drop(n) }

  /** A prepared process with a sound entry stack and journal room is always activated. */
  lemma ActivateSucceeds(s: Sys, g: Guard, c: Config, p: nat)
    requires Inv(s, g, c) && Truthful(c) && s.initialized && s.current.None?
    requires p < SLOTS && s.procs[p].prepared && s.procs[p].generation > 0
    requires c.scaffold && StackOk(c.stackBase[p]) && EntryOk(s.baseRsp0) && s.baseRsp0 != Top(c, p)
    requires |s.events| + EVENTS_PER_RUN <= CAPACITY
    ensures Activate(s, c, p, NoGuard()).2 == Ok
  {
    hide P.Inv, Own, FieldsValid, PhaseAfter;
    P.Sizes(s.spaces, c.layout);
    var s1 := WithProc(s, p, s.procs[p].(run := FreshRun()));
    var (s2, space, st1) := SpaceActivate(s1, c, s1.procs[p].space, NoGuard().space);
    assert st1 == Ok;
    var (s3, stack, st2) := StackPublish(s2, c, c.stackBase[p], NoGuard().stack);
    assert st2 == Ok;
    assert PublishStack(s2, c, p, space) == Own(s3, c, p, NoGuard().(space := space, stack := stack));
    assert Activate(s, c, p, NoGuard()) == PublishStack(s2, c, p, space);
    OwnWorks(s, g, s3, NoGuard().(space := space, stack := stack), c, p);
  }

  /** An owner whose entry stack was not damaged always finishes. */
  lemma FinishSucceeds(s: Sys, g: Guard, c: Config, p: nat)
    requires Inv(s, g, c) && Truthful(c) && s.current == Some(p) && c.sec.Some?
    requires p < SLOTS && EntriesWithin(s.procs[p], c, p) && s.procs[p].canary
    ensures Finish(s, c, p, g).2 == Ok && !Finish(s, c, p, g).1.active
  {
    hide P.Inv, Publish, P.SetLeaf, Recorded, PhaseAfter, P.Policy;
    var q := s.procs[p];
    var (s1, stack, st1) := StackRestore(s, c, g.stack);
    assert st1 == Ok;
    var (s2, space, st2) := RestoreDeferred(s1, c, g.space);
    assert st2 == Ok;
    var (s3, nx, st3) := SlotSeal(s2, c, p);
    P.PolicyWorks(s2.spaces, c.layout, c.sec, p, false);
    SealFacts(s2, c, p);
    var gm := g.(stack := stack, space := space, sealed := true, nxEnforced := nx);
    var sm := WithProc(s3, p, q.(active := false, prepared := false)).(current := None, currentPid := 0);
    PublishWorks(s, g, sm, gm, c, p);
  }

  /** In every reachable state each slot means what boot means outside the window, and itself inside. */
  lemma SpacesKeepMeaning(w: World, c: Config, cmds: seq<Cmd>, slot: nat, va: nat)
    requires WorldInv(w, c) && LegalRun(w, c, cmds) && Run(w, c, cmds).Running? && Run(w, c, cmds).sys.initialized
    requires slot < SLOTS && va < P.VA_LIMIT
    ensures |c.layout.pml4| == |c.layout.backing| == SLOTS
    ensures var t := Run(w, c, cmds).sys.spaces.tables; var here := P.Translate(t, c.layout.pml4[slot], va);
            if P.InWindow(va) then here.Mapped? && here.phys == c.layout.backing[slot] + (va - USER_BASE)
            else here == P.Translate(t, c.layout.p4, va)
  {
    hide Run, LegalRun, Recorded, PhaseAfter, P.Translate, P.SlotOk, P.BootOk;
    var s := Run(w, c, cmds).sys.spaces;
    P.Sizes(s, c.layout);
    if P.InWindow(va) {
      P.WindowMapped(s, c.layout, slot, va);
    } else {
      P.SameOutside(s, c.layout, slot, va);
    }
  }
}
