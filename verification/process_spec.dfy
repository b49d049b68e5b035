/**
 Bootstrap process ownership as a state machine over CR3, the TSS entry stack, the interrupt
 flag, the active slot and the current process. A write of CR3 or rsp0, or an sti, may silently not
 take effect; cli works and reads are truthful. Guards record what to restore, and stay live when it cannot be
 restored.
 */
module ProcessSpec {
  import opened Types
  import P = Paging

  const SLOTS: nat := 2
  const PID_BASE: nat := 1
  const STACK_SIZE: nat := 16 * KIB
  const ENTRY_FRAME: nat := 40
  const TRAPFRAME_SIZE: nat := 176
  const USER_CS: nat := 0x23
  const USER_DS: nat := 0x1B
  const CAPACITY: nat := 8
  const EVENTS_PER_RUN: nat := 3

  /** What does not change after boot: addresses, processor features, and which writes get lost. */
  datatype Config = Config(layout: P.Layout, stackBase: seq<nat>, sec: Option<bool>, scaffold: bool, drop: nat -> bool)

  datatype Hw = Hw(cr3: nat, rsp0: nat, irq: bool, writes: nat)

  datatype Space = Space(slot: nat, cr3: nat, backing: nat, ready: bool, executable: bool)

  datatype RunState = RunState(entries: nat, rspMin: nat, rspMax: nat, exited: bool)

  /** The part of a trap frame that becomes evidence; the three flags are RFLAGS bits 1, 10 and 18. */
  datatype Frame = Frame(
    addr: nat, rip: nat, rsp: nat, cs: nat, ss: nat, vector: nat, error: nat, fixed: bool, direction: bool, ac: bool)

  datatype Snapshot = Snapshot(frame: Frame, sequence: nat, generation: nat, cr3: nat, rsp0: nat)

  datatype Proc = Proc(
    space: Space, run: RunState, canary: bool, prepared: bool, active: bool, generation: nat, trap: Option<Snapshot>)

  datatype Kind = Acquire | Capture | Release

  datatype Event = Event(
    sequence: nat, kind: Kind, slot: nat, generation: nat, capture: nat, frame: Option<Frame>,
    fromPid: nat, toPid: nat, currentPid: nat, fromCr3: nat, toCr3: nat, fromRsp0: nat, toRsp0: nat,
    ownerOk: bool, cr3Ok: bool, rsp0Ok: bool, irqOff: bool)

  datatype SpaceGuard = SpaceGuard(
    previousCr3: nat, previousIrq: bool, slot: nat, cr3Restored: bool, irqRestored: bool, irqPending: bool, active: bool)

  datatype StackGuard = StackGuard(previous: nat, target: nat, active: bool, published: bool, restored: bool)

  datatype Guard = Guard(space: SpaceGuard, stack: StackGuard, sealed: bool, nxEnforced: bool, active: bool)

  datatype Sys = Sys(
    hw: Hw, spaces: P.Spaces, activeSlot: Option<nat>, stackGuarded: bool,
    procs: seq<Proc>, current: Option<nat>, currentPid: nat,
    events: seq<Event>, sequence: nat, dropped: nat, overflow: bool,
    baseCr3: nat, baseRsp0: nat, trapSequence: nat, initialized: bool)

  function NoGuard(): Guard {
    Guard(SpaceGuard(0, false, 0, false, false, false, false), StackGuard(0, 0, false, false, false), false, false, false)
  }

  ghost predicate Wf(s: Sys, c: Config) {
    && P.Inv(s.spaces, c.layout) && |s.procs| == SLOTS && |c.stackBase| == SLOTS
  }

  function Top(c: Config, slot: nat): nat
    requires slot < |c.stackBase|
  {
    c.stackBase[slot] + STACK_SIZE
  }

  function Pid(slot: nat): nat { PID_BASE + slot }

  // ---------- hardware ----------

  function WriteCr3(h: Hw, c: Config, v: nat): Hw {
    h.(cr3 := if c.drop(h.writes) then h.cr3 else v, writes := h.writes + 1)
  }

  function WriteRsp0(h: Hw, c: Config, v: nat): Hw {
    h.(rsp0 := if c.drop(h.writes) then h.rsp0 else v, writes := h.writes + 1)
  }

  /** sti may be lost, cli may not. */
  function WriteIrq(h: Hw, c: Config, on: bool): Hw {
    h.(irq := on && !c.drop(h.writes), writes := h.writes + 1)
  }

  // ---------- address-space slots ----------

  /** address_space_bootstrap_slot_prepare */
  function SlotPrepare(s: Sys, c: Config, slot: nat, executable: bool): (r: (Sys, Space, Status))
    requires Wf(s, c) && slot < SLOTS
    ensures Wf(r.0, c)
    ensures r.0 == s.(spaces := r.0.spaces)
  {
    var none := Space(0, 0, 0, false, false);
    if s.activeSlot.Some? then (s, none, Busy)
    else
      var (spaces, status) := P.Policy(s.spaces, c.layout, c.sec, slot, executable);
      (s.(spaces := spaces),
       if status == Ok then Space(slot, c.layout.pml4[slot], c.layout.backing[slot], true, executable) else none, status)
  }

  /** address_space_bootstrap_slot_seal */
  function SlotSeal(s: Sys, c: Config, slot: nat): (r: (Sys, bool, Status))
    requires Wf(s, c) && slot < SLOTS
    ensures Wf(r.0, c)
    ensures r.0 == s.(spaces := r.0.spaces)
  {
    if s.activeSlot.Some? then (s, false, Busy)
    else
      var (spaces, status) := P.Policy(s.spaces, c.layout, c.sec, slot, false);
      (s.(spaces := spaces), status == Ok && c.sec == Some(true), if status == Ok then Ok else Io)
  }

  predicate SpaceMatches(sp: Space, s: P.Spaces, l: P.Layout) {
    && s.ready && sp.ready && sp.slot < SLOTS
    && sp.slot < |l.pml4| && sp.slot < |l.backing| && sp.slot < |s.executable|
    && sp.cr3 == l.pml4[sp.slot] && sp.backing == l.backing[sp.slot] && sp.executable == s.executable[sp.slot]
  }

  /** address_space_activate */
  function SpaceActivate(s: Sys, c: Config, sp: Space, g: SpaceGuard): (r: (Sys, SpaceGuard, Status)) {
    if !SpaceMatches(sp, s.spaces, c.layout) then (s, g, Inval)
    else if g.active || g.irqPending || s.activeSlot.Some? then (s, g, Busy)
    else
      var g1 := SpaceGuard(s.hw.cr3, s.hw.irq, sp.slot, false, false, false, true);
      var hw1 := WriteCr3(s.hw.(irq := false), c, sp.cr3);
      var s1 := s.(hw := hw1, activeSlot := Some(sp.slot));
      if hw1.cr3 == sp.cr3 then (s1, g1, Ok)
      else
        var hw2 := WriteCr3(hw1, c, g1.previousCr3);
        if hw2.cr3 == g1.previousCr3 then
          var (s3, g3, _) := RestoreInterrupts(
            s1.(hw := hw2, activeSlot := None), c, g1.(cr3Restored := true, active := false, irqPending := true));
          (s3, g3, Io)
        else (s1.(hw := hw2), g1, Io)
  }

  /** address_space_restore_interrupts */
  function RestoreInterrupts(s: Sys, c: Config, g: SpaceGuard): (r: (Sys, SpaceGuard, Status)) {
    if g.active || !g.cr3Restored || !g.irqPending then (s, g, Inval)
    else
      var hw := WriteIrq(s.hw, c, g.previousIrq);
      if hw.irq == g.previousIrq then (s.(hw := hw), g.(irqRestored := true, irqPending := false), Ok)
      else (s.(hw := hw.(irq := false)), g.(irqRestored := false), Io)
  }

  /** address_space_restore_deferred_irq */
  function RestoreDeferred(s: Sys, c: Config, g: SpaceGuard): (r: (Sys, SpaceGuard, Status)) {
    if !g.active || s.activeSlot != Some(g.slot) then (s, g, Inval)
    else
      var hw := WriteCr3(s.hw, c, g.previousCr3);
      if hw.cr3 != g.previousCr3 then (s.(hw := hw), g.(cr3Restored := false), Io)
      else (s.(hw := hw, activeSlot := None), g.(cr3Restored := true, active := false, irqPending := true), Ok)
  }

  /** address_space_restore */
  function SpaceRestore(s: Sys, c: Config, g: SpaceGuard): (r: (Sys, SpaceGuard, Status)) {
    var (s1, g1, status) := RestoreDeferred(s, c, g);
    if status != Ok then (s1, g1, status) else RestoreInterrupts(s1, c, g1)
  }

  // ---------- the entry stack ----------

  predicate Canonical(a: nat) { a < 0x8000_0000_0000 || U64_LIMIT - 0x8000_0000_0000 <= a < U64_LIMIT }

  predicate StackOk(base: nat) {
    && base != 0 && base <= U64_MAX - STACK_SIZE && (base + STACK_SIZE) % 16 == 0
    && Canonical(base) && Canonical(base + STACK_SIZE - 1)
    && !(base < USER_END && USER_BASE < base + STACK_SIZE)
  }

  predicate EntryOk(rsp0: nat) { rsp0 != 0 && rsp0 % 16 == 0 && Canonical(rsp0 - 1) }

  /** user_mode_rsp0_publish */
  function StackPublish(s: Sys, c: Config, base: nat, g: StackGuard): (r: (Sys, StackGuard, Status)) {
    if g.active || s.stackGuarded || !c.scaffold || s.hw.irq || !EntryOk(s.hw.rsp0) || !StackOk(base) then (s, g, Inval)
    else
      var top := base + STACK_SIZE;
      var hw := WriteRsp0(s.hw, c, top);
      (s.(hw := hw, stackGuarded := true),
       StackGuard(s.hw.rsp0, top, true, hw.rsp0 == top, false),
       if hw.rsp0 == top then Ok else Io)
  }

  /** user_mode_rsp0_restore */
  function StackRestore(s: Sys, c: Config, g: StackGuard): (r: (Sys, StackGuard, Status)) {
    if !g.active || !g.published || !s.stackGuarded || s.hw.irq then (s, g, Inval)
    else if s.hw.rsp0 != g.target then (s, g, Io)
    else
      var hw := WriteRsp0(s.hw, c, g.previous);
      if hw.rsp0 != g.previous then (s.(hw := hw), g.(restored := false), Io)
      else (s.(hw := hw, stackGuarded := false), g.(restored := true, active := false), Ok)
  }

  // ---------- the journal ----------

  predicate DescriptorOk(p: Proc, slot: nat) { p.space.slot == slot && p.space.ready }

  predicate FrameOk(f: Frame, top: int) {
    && f.cs == USER_CS && f.ss == USER_DS && f.vector == 3 && f.error == 0
    && USER_BASE <= f.rip < USER_END && USER_BASE <= f.rsp < USER_END
    && f.addr == top - TRAPFRAME_SIZE && f.fixed && !f.direction && f.ac
  }

  predicate FrameEmpty(e: Event) { e.frame.None? && e.capture == 0 }

  predicate FrameBound(e: Event, top: int) { e.frame.Some? && e.capture != 0 && FrameOk(e.frame.value, top) }

  /** process_event_fields_valid, over the descriptors and the boot baselines. */
  predicate EventOk(e: Event, procs: seq<Proc>, baseCr3: nat, baseRsp0: nat, c: Config)
    requires |procs| == SLOTS && |c.stackBase| == SLOTS
  {
    && e.slot < SLOTS && DescriptorOk(procs[e.slot], e.slot)
    && e.generation != 0 && e.generation <= procs[e.slot].generation
    && e.ownerOk && e.cr3Ok && e.rsp0Ok && e.irqOff
    && var pid, top, cr3 := Pid(e.slot), Top(c, e.slot), procs[e.slot].space.cr3;
       match e.kind
       case Acquire =>
         && e.fromPid == 0 && e.toPid == pid && e.currentPid == pid
         && e.fromCr3 == baseCr3 && e.toCr3 == cr3 && e.fromRsp0 == baseRsp0 && e.toRsp0 == top && FrameEmpty(e)
       case Capture =>
         && e.fromPid == pid && e.toPid == pid && e.currentPid == pid
         && e.fromCr3 == cr3 && e.toCr3 == cr3 && e.fromRsp0 == top && e.toRsp0 == top && FrameBound(e, top)
       case Release =>
         && e.fromPid == pid && e.toPid == 0 && e.currentPid == 0
         && e.fromCr3 == cr3 && e.toCr3 == baseCr3 && e.fromRsp0 == top && e.toRsp0 == baseRsp0
         && (FrameBound(e, top) || FrameEmpty(e))
  }

  predicate FieldsValid(e: Event, s: Sys, c: Config)
    requires |s.procs| == SLOTS && |c.stackBase| == SLOTS
  {
    EventOk(e, s.procs, s.baseCr3, s.baseRsp0, c)
  }

  /** process_event_preflight */
  function Preflight(s: Sys, needed: nat): (r: (Sys, Status))
    requires 0 < needed <= CAPACITY
  {
    if |s.events| > CAPACITY - needed || s.sequence > U64_MAX - needed
    then (s.(dropped := s.dropped + 1, overflow := true), Busy)
    else (s, Ok)
  }

  /** process_event_append */
  function Append(s: Sys, c: Config, e: Event): (r: (Sys, Status))
    requires |s.procs| == SLOTS && |c.stackBase| == SLOTS
  {
    if !FieldsValid(e, s, c) then (s.(dropped := s.dropped + 1), Io)
    else if |s.events| >= CAPACITY || s.sequence == U64_MAX then (s.(dropped := s.dropped + 1, overflow := true), Busy)
    else if |s.events| > 0 && s.events[|s.events| - 1].sequence != s.sequence then (s.(dropped := s.dropped + 1), Io)
    else (s.(events := s.events + [e.(sequence := s.sequence + 1)], sequence := s.sequence + 1), Ok)
  }

  // ---------- processes ----------

  function FreshRun(): RunState { RunState(0, U64_MAX, 0, false) }

  function WithProc(s: Sys, p: nat, q: Proc): Sys
    requires p < |s.procs|
  {
    s.(procs := s.procs[p := q])
  }

  /** bootstrap_process_prepare; the process pointer is the slot itself. */
  function Prepare(s: Sys, c: Config, slot: nat, executable: bool): (r: (Sys, Status))
    requires Wf(s, c)
    ensures Wf(r.0, c)
  {
    hide P.Inv;
    if !s.initialized || slot >= SLOTS then (s, Inval)
    else if s.current.Some? || s.procs[slot].active then (s, Busy)
    else if s.procs[slot].generation == U64_MAX then (s, Io)
    else
      var (s1, space, status) := SlotPrepare(s, c, slot, executable);
      if status != Ok then (s1, status)
      else
        var q := Proc(space, FreshRun(), true, true, false, s.procs[slot].generation + 1, None);
        (WithProc(s1, slot, q), Ok)
  }

  /** bootstrap_process_cancel */
  function Cancel(s: Sys, c: Config, p: nat): (r: (Sys, Status))
    requires Wf(s, c) && p < SLOTS
    ensures Wf(r.0, c)
  {
    hide P.Inv;
    if !s.initialized || !DescriptorOk(s.procs[p], p) || !s.procs[p].prepared then (s, Inval)
    else if s.current.Some? || s.procs[p].active then (s, Busy)
    else
      var (s1, _, status) := SlotSeal(s, c, p);
      (WithProc(s1, p, s.procs[p].(prepared := false)), status)
  }

  /** The ownership record of a process that has just been activated. */
  function AcquireEvent(s: Sys, c: Config, p: nat, g: Guard): Event
    requires Wf(s, c) && p < SLOTS
  {
    var q := s.procs[p];
    Event(0, Acquire, p, q.generation, 0, None, 0, Pid(p), Pid(p),
          g.space.previousCr3, q.space.cr3, g.stack.previous, g.stack.target,
          s.current == Some(p) && q.active && s.currentPid == Pid(p),
          s.hw.cr3 == q.space.cr3, s.hw.rsp0 == g.stack.target, !s.hw.irq)
  }

  /** The second half of activation: the process becomes current and the journal says so. */
  function Own(s: Sys, c: Config, p: nat, g: Guard): (r: (Sys, Guard, Status))
    requires Wf(s, c) && p < SLOTS
    ensures Wf(r.0, c)
  {
    hide P.Inv;
    var g1 := g.(active := true);
    var s1 := WithProc(s, p, s.procs[p].(active := true)).(current := Some(p), currentPid := Pid(p));
    var (s2, status) := Append(s1, c, AcquireEvent(s1, c, p, g1));
    (s2, g1, status)
  }

  /** Undo of an activation whose entry stack was already in place. */
  function Rollback(s: Sys, c: Config, g: Guard): (r: (Sys, Guard, Status))
    requires Wf(s, c)
    ensures Wf(r.0, c)
  {
    hide P.Inv;
    var (s1, stack, st1) := StackRestore(s, c, g.stack);
    if st1 != Ok then (s1, g.(stack := stack, active := true), Io)
    else
      var (s2, space, st2) := SpaceRestore(s1, c, g.space);
      (s2, g.(stack := stack, space := space, active := st2 != Ok), Io)
  }

  /** The entry stack of activation, once the private CR3 is in place. */
  function PublishStack(s: Sys, c: Config, p: nat, space: SpaceGuard): (r: (Sys, Guard, Status))
    requires Wf(s, c) && p < SLOTS
    ensures Wf(r.0, c)
  {
    hide P.Inv;
    var (s1, stack, st1) := StackPublish(s, c, c.stackBase[p], NoGuard().stack);
    var g1 := NoGuard().(space := space, stack := stack);
    if st1 != Ok then
      if stack.active then (s1, g1.(active := true), st1)
      else
        var (s2, space', _) := SpaceRestore(s1, c, space);
        (s2, g1.(space := space', active := space'.active || space'.irqPending), st1)
    else if stack.previous == stack.target then Rollback(s1, c, g1)
    else Own(s1, c, p, g1)
  }

  /** bootstrap_process_activate */
  function Activate(s: Sys, c: Config, p: nat, g: Guard): (r: (Sys, Guard, Status))
    requires Wf(s, c) && p < SLOTS
    ensures Wf(r.0, c)
  {
    hide P.Inv;
    if !s.initialized || !DescriptorOk(s.procs[p], p) || !s.procs[p].prepared then (s, g, Inval)
    else if g.active || s.current.Some? || s.procs[p].active then (s, g, Busy)
    else
      var (s0, st0) := Preflight(s, EVENTS_PER_RUN);
      if st0 != Ok then (s0, g, st0)
      else
        var s1 := WithProc(s0, p, s.procs[p].(run := FreshRun()));
        var (s2, space, st1) := SpaceActivate(s1, c, s1.procs[p].space, NoGuard().space);
        if st1 != Ok then (s2, NoGuard().(space := space, active := space.active || space.irqPending), st1)
        else PublishStack(s2, c, p, space)
  }

  /** bootstrap_process_get_trap_snapshot */
  function TrapOf(s: Sys, c: Config, p: nat): (t: Option<Snapshot>)
    requires Wf(s, c) && p < SLOTS
  {
    var q := s.procs[p];
    if s.initialized && DescriptorOk(q, p) && q.trap.Some? && q.trap.value.sequence != 0
       && q.trap.value.generation == q.generation
       && q.trap.value.cr3 == q.space.cr3 && q.trap.value.rsp0 == Top(c, p)
    then q.trap else None
  }

  /** The record of a release, bound to the capture of the same run when there is one. */
  function ReleaseEvent(s: Sys, c: Config, p: nat, g: Guard): Event
    requires Wf(s, c) && p < SLOTS
  {
    var q, trap := s.procs[p], TrapOf(s, c, p);
    Event(0, Release, p, q.generation,
          if trap.Some? then trap.value.sequence else 0, if trap.Some? then Some(trap.value.frame) else None,
          Pid(p), 0, 0, q.space.cr3, g.space.previousCr3, Top(c, p), g.stack.previous,
          s.current.None? && !q.active && s.currentPid == 0,
          g.space.cr3Restored && s.hw.cr3 == g.space.previousCr3,
          g.stack.restored && s.hw.rsp0 == g.stack.previous, !s.hw.irq)
  }

  /** The last part of finish: the release is journalled, then interrupts come back. */
  function Publish(s: Sys, c: Config, p: nat, g: Guard): (r: (Sys, Guard, Status))
    requires Wf(s, c) && p < SLOTS
    ensures Wf(r.0, c)
  {
    hide P.Inv;
    var (s1, st1) := Append(s, c, ReleaseEvent(s, c, p, g));
    if st1 != Ok then (s1, g, st1)
    else
      var (s2, space, st2) := RestoreInterrupts(s1, c, g.space);
      (s2, g.(space := space, active := st2 != Ok || space.active || space.irqPending), if st2 == Ok then Ok else Io)
  }

  predicate EntriesWithin(q: Proc, c: Config, p: nat)
    requires p < |c.stackBase|
  {
    q.run.entries == 0 || (q.run.rspMin >= c.stackBase[p] && q.run.rspMax < Top(c, p))
  }

  /** bootstrap_process_finish */
  function Finish(s: Sys, c: Config, p: nat, g: Guard): (r: (Sys, Guard, Status))
    requires Wf(s, c) && p < SLOTS
    ensures Wf(r.0, c)
  {
    hide P.Inv;
    if !DescriptorOk(s.procs[p], p) || !g.active || s.current != Some(p) || !s.procs[p].active then (s, g, Inval)
    else
      var q := s.procs[p];
      var (s1, stack, st1) := StackRestore(s, c, g.stack);
      if st1 != Ok then (s1, g.(stack := stack), st1)
      else
        var (s2, space, st2) := RestoreDeferred(s1, c, g.space);
        if st2 != Ok then (s2, g.(stack := stack, space := space), st2)
        else
          var (s3, nx, st3) := SlotSeal(s2, c, p);
          var g3 := g.(stack := stack, space := space, sealed := st3 == Ok, nxEnforced := nx);
          var s4 := WithProc(s3, p, q.(active := false, prepared := false)).(current := None, currentPid := 0);
          if !EntriesWithin(q, c, p) || !q.canary || !stack.restored || st3 != Ok || s4.hw.rsp0 != s4.baseRsp0
          then (s4, g3, Io)
          else Publish(s4, c, p, g3)
  }

  /** The record of a captured trap. */
  function CaptureEvent(s: Sys, c: Config, p: nat, f: Frame): Event
    requires Wf(s, c) && p < SLOTS
  {
    var q := s.procs[p];
    Event(0, Capture, p, q.generation, s.trapSequence + 1, Some(f), Pid(p), Pid(p), Pid(p),
          s.hw.cr3, s.hw.cr3, s.hw.rsp0, s.hw.rsp0,
          s.current == Some(p) && q.active && s.currentPid == Pid(p),
          s.hw.cr3 == q.space.cr3, s.hw.rsp0 == Top(c, p), !s.hw.irq)
  }

  /** bootstrap_process_capture_current_trap; `liveAc` is the alignment-check flag in the handler. */
  function CaptureTrap(s: Sys, c: Config, f: Frame, liveAc: bool): (r: (Sys, Status))
    requires Wf(s, c) && (s.current.Some? ==> s.current.value < SLOTS)
    ensures Wf(r.0, c)
  {
    hide P.Inv;
    if !s.initialized || s.current.None? then (s, Inval)
    else
      var p := s.current.value;
      var q := s.procs[p];
      if !DescriptorOk(q, p) || !q.prepared || !q.active || q.generation == 0 then (s, Inval)
      else if q.trap.Some? then (s, Busy)
      else if s.trapSequence == U64_MAX then (s, Io)
      else if s.hw.irq || liveAc || s.hw.cr3 != q.space.cr3 || s.hw.rsp0 != Top(c, p) || !FrameOk(f, Top(c, p)) then (s, Io)
      else
        var (s1, status) := Append(s, c, CaptureEvent(s, c, p, f));
        if status != Ok then (s1, status)
        else
          var trap := Snapshot(f, s.trapSequence + 1, q.generation, s.hw.cr3, s.hw.rsp0);
          (WithProc(s1, p, q.(trap := Some(trap))).(trapSequence := s.trapSequence + 1), Ok)
  }

  /** bootstrap_process_get_event */
  function GetEvent(s: Sys, c: Config, i: nat): (r: (Option<Event>, Status))
    requires Wf(s, c)
  {
    if !s.initialized || i >= |s.events| then (None, Inval)
    else if s.current.Some? then (None, Busy)
    else if s.events[i].sequence != i + 1 || !FieldsValid(s.events[i], s, c) then (None, Io)
    else (Some(s.events[i]), Ok)
  }

  function BlankProc(): Proc {
    Proc(Space(0, 0, 0, false, false), FreshRun(), true, false, false, 0, None)
  }

  /** One descriptor of bootstrap_process_init. */
  function InitProc(s: Sys, c: Config, slot: nat): (r: (Sys, Status))
    requires Wf(s, c) && slot < SLOTS
    ensures Wf(r.0, c)
    ensures r.0 == s.(spaces := r.0.spaces, procs := r.0.procs)
  {
    hide P.Inv;
    var (s1, space, status) := SlotPrepare(s, c, slot, false);
    if status != Ok then (s1, status)
    else (WithProc(s1, slot, s.procs[slot].(space := space, prepared := true)), Ok)
  }

  predicate SelftestOk(s: Sys, c: Config)
    requires |s.procs| == SLOTS && |c.stackBase| == SLOTS
  {
    && DescriptorOk(s.procs[0], 0) && DescriptorOk(s.procs[1], 1)
    && Top(c, 0) % 16 == 0 && Top(c, 1) % 16 == 0
    && s.procs[0].space.cr3 != s.procs[1].space.cr3 && s.procs[0].space.backing != s.procs[1].space.backing
    && c.stackBase[0] != c.stackBase[1] && Top(c, 0) <= c.stackBase[1] && s.hw.rsp0 == s.baseRsp0
  }

  /** The statics after bootstrap_process_init has cleared them and read the baselines. */
  function Cleared(s: Sys): Sys {
    s.(procs := [BlankProc(), BlankProc()], current := None, currentPid := 0, events := [], sequence := 0,
       dropped := 0, overflow := false, baseCr3 := s.hw.cr3, baseRsp0 := s.hw.rsp0, trapSequence := 0)
  }

  /** The descriptors of bootstrap_process_init and the ownership selftest. */
  function InitProcs(s: Sys, c: Config): (r: (Sys, Status))
    requires Wf(s, c)
    ensures Wf(r.0, c)
  {
    hide P.Inv;
    var (s1, st1) := InitProc(s, c, 0);
    if st1 != Ok then (s1, st1)
    else
      var (s2, st2) := InitProc(s1, c, 1);
      if st2 != Ok then (s2, st2)
      else if SelftestOk(s2, c) then (s2.(initialized := true), Ok) else (s2, Io)
  }

  /** bootstrap_process_init */
  function Init(s: Sys, c: Config): (r: (Sys, Status))
    requires Wf(s, c)
    ensures Wf(r.0, c)
  {
    hide P.Inv;
    if s.current.Some? || s.procs[0].active || s.procs[1].active then (s, Busy)
    else if s.initialized then (s, Ok)
    else
      var s0 := Cleared(s);
      if !c.scaffold || s0.baseCr3 == 0 || s0.baseRsp0 == 0 then (s0, Io) else InitProcs(s0, c)
  }
}
