/**
 Bootstrap process ownership as the source runs it: descriptors, guards and the event array are
 updated step by step, with early returns. Every method does to the abstract system exactly
 what the state machine of ProcessSpec says.
 */
module BootstrapProcess {
  import opened Types
  import P = Paging
  import opened AddressSpace
  import opened ProcessSpec

  class Kernel {
    const cpu: Cpu
    const slots: SlotTables
    const stackBase: seq<nat>
    const sec: Option<bool>
    const scaffold: bool
    const procs: array<Proc>
    const events: array<Event>
    var activeSlot: Option<nat>
    var stackGuarded: bool
    var current: Option<nat>
    var currentPid: nat
    var eventCount: nat
    var sequence: nat
    var dropped: nat
    var overflow: bool
    var baseCr3: nat
    var baseRsp0: nat
    var trapSequence: nat
    var initialized: bool

    /** The statics at boot. */
    constructor (cpu: Cpu, slots: SlotTables, stackBase: seq<nat>, sec: Option<bool>, scaffold: bool)
      requires slots.Valid() && |stackBase| == SLOTS
      ensures Valid() && this.cpu == cpu && this.slots == slots && fresh(procs) && fresh(events)
      ensures this.stackBase == stackBase && this.sec == sec && this.scaffold == scaffold
      ensures Abs() == Sys(cpu.Abs(), slots.Abs(), None, false, [BlankProc(), BlankProc()], None, 0, [], 0, 0, false, 0, 0, 0, false)
    {
      this.cpu, this.slots, this.stackBase, this.sec, this.scaffold := cpu, slots, stackBase, sec, scaffold;
      procs := new Proc[SLOTS](_ => BlankProc());
      events := new Event[CAPACITY](_ => BlankEvent());
      activeSlot, stackGuarded, current, currentPid := None, false, None, 0;
      eventCount, sequence, dropped, overflow := 0, 0, 0, false;
      baseCr3, baseRsp0, trapSequence, initialized := 0, 0, 0, false;
      new;
      assert procs[..] == [BlankProc(), BlankProc()];
    }

    function Cfg(): Config {
      Config(slots.layout, stackBase, sec, scaffold, cpu.drop)
    }

    ghost predicate Valid()
      reads this, slots, procs, events
    {
      && slots.Valid() && |stackBase| == SLOTS && procs.Length == SLOTS && events.Length == CAPACITY
      && eventCount <= CAPACITY
    }

    ghost function Abs(): (s: Sys)
      requires Valid()
      reads this, cpu, slots, procs, events
      ensures Wf(s, Cfg())
    {
      Sys(cpu.Abs(), slots.Abs(), activeSlot, stackGuarded, procs[..], current, currentPid,
          events[..eventCount], sequence, dropped, overflow, baseCr3, baseRsp0, trapSequence, initialized)
    }

    // ---------- address_space.c ----------

    /** address_space_bootstrap_slot_prepare */
    method PrepareSlot(slot: nat, executable: bool) returns (space: Space, status: Status)
      requires Valid() && slot < SLOTS
      modifies slots
      ensures Valid() && (Abs(), space, status) == SlotPrepare(old(Abs()), Cfg(), slot, executable)
    {
      hide P.Inv, P.Policy;
      space := Space(0, 0, 0, false, false);
      if activeSlot.Some? {
        return space, Busy;
      }
      P.Sizes(slots.Abs(), slots.layout);
      status := slots.SetPolicy(sec, slot, executable);
      if status == Ok {
        space := Space(slot, slots.layout.pml4[slot], slots.layout.backing[slot], true, executable);
      }
    }

    /** address_space_bootstrap_slot_seal */
    method SealSlot(slot: nat) returns (nx: bool, status: Status)
      requires Valid() && slot < SLOTS
      modifies slots
      ensures Valid() && (Abs(), nx, status) == SlotSeal(old(Abs()), Cfg(), slot)
    {
      hide P.Inv, P.Policy;
      if activeSlot.Some? {
        return false, Busy;
      }
      status := slots.SetPolicy(sec, slot, false);
      if status != Ok {
        return false, Io;
      }
      nx := sec == Some(true);
    }

    /** address_space_restore_interrupts */
    method RestoreIrq(g: SpaceGuard) returns (g': SpaceGuard, status: Status)
      requires Valid()
      modifies cpu
      ensures Valid() && (Abs(), g', status) == RestoreInterrupts(old(Abs()), Cfg(), g)
    {
      hide P.Inv;
      if g.active || !g.cr3Restored || !g.irqPending {
        return g, Inval;
      }
      cpu.SetIrq(g.previousIrq);
      g' := g.(irqRestored := cpu.irq == g.previousIrq);
      if !g'.irqRestored {
        cpu.irq := false;
        return g', Io;
      }
      g', status := g'.(irqPending := false), Ok;
    }

    /** address_space_activate */
    method ActivateSpace(sp: Space, g: SpaceGuard) returns (g': SpaceGuard, status: Status)
      requires Valid()
      modifies cpu, this`activeSlot
      ensures Valid() && (Abs(), g', status) == SpaceActivate(old(Abs()), Cfg(), sp, g)
    {
      hide P.Inv, RestoreInterrupts;
      P.Sizes(slots.Abs(), slots.layout);
      if !slots.ready || !sp.ready || sp.slot >= SLOTS || sp.cr3 != slots.layout.pml4[sp.slot]
         || sp.backing != slots.layout.backing[sp.slot] || sp.executable != slots.executable[sp.slot] {
        return g, Inval;
      }
      if g.active || g.irqPending || activeSlot.Some? {
        return g, Busy;
      }
      g' := SpaceGuard(cpu.cr3, cpu.irq, sp.slot, false, false, false, true);
      cpu.irq := false;
      activeSlot := Some(sp.slot);
      cpu.LoadCr3(sp.cr3);
      if cpu.cr3 == sp.cr3 {
        return g', Ok;
      }
      g' := UndoSwitch(g');
      status := Io;
    }

    /** The rollback of address_space_activate when the new CR3 did not take effect. */
    method UndoSwitch(g: SpaceGuard) returns (g': SpaceGuard)
      requires Valid()
      modifies cpu, this`activeSlot
      ensures Valid()
      ensures var s := old(Abs()); var hw := WriteCr3(s.hw, Cfg(), g.previousCr3);
              (Abs(), g') ==
                if hw.cr3 == g.previousCr3 then
                  var (s3, g3, _) := RestoreInterrupts(
                    s.(hw := hw, activeSlot := None), Cfg(), g.(cr3Restored := true, active := false, irqPending := true));
                  (s3, g3)
                else (s.(hw := hw), g)
    {
      hide P.Inv, RestoreInterrupts;
      g' := g;
      cpu.LoadCr3(g.previousCr3);
      if cpu.cr3 == g.previousCr3 {
        activeSlot := None;
        g' := g.(cr3Restored := true, active := false, irqPending := true);
        var ignored;
        g', ignored := RestoreIrq(g');
      }
    }

    /** address_space_restore_deferred_irq */
    method RestoreCr3(g: SpaceGuard) returns (g': SpaceGuard, status: Status)
      requires Valid()
      modifies cpu, this`activeSlot
      ensures Valid() && (Abs(), g', status) == RestoreDeferred(old(Abs()), Cfg(), g)
    {
      hide P.Inv;
      if !g.active || activeSlot != Some(g.slot) {
        return g, Inval;
      }
      cpu.LoadCr3(g.previousCr3);
      g' := g.(cr3Restored := cpu.cr3 == g.previousCr3);
      if !g'.cr3Restored {
        return g', Io;
      }
      activeSlot := None;
      g', status := g'.(active := false, irqPending := true), Ok;
    }

    /** address_space_restore */
    method RestoreSpace(g: SpaceGuard) returns (g': SpaceGuard, status: Status)
      requires Valid()
      modifies cpu, this`activeSlot
      ensures Valid() && (Abs(), g', status) == SpaceRestore(old(Abs()), Cfg(), g)
    {
      hide P.Inv, RestoreDeferred, RestoreInterrupts;
      g', status := RestoreCr3(g);
      if status == Ok {
        g', status := RestoreIrq(g');
      }
    }

    // ---------- user_mode.c ----------

    /** user_mode_rsp0_publish */
    method PublishRsp0(base: nat, g: StackGuard) returns (g': StackGuard, status: Status)
      requires Valid()
      modifies cpu, this`stackGuarded
      ensures Valid() && (Abs(), g', status) == StackPublish(old(Abs()), Cfg(), base, g)
    {
      hide P.Inv, StackOk, EntryOk;
      if g.active || stackGuarded || !scaffold || cpu.irq || !EntryOk(cpu.rsp0) || !StackOk(base) {
        return g, Inval;
      }
      var top := base + STACK_SIZE;
      g' := StackGuard(cpu.rsp0, top, true, false, false);
      stackGuarded := true;
      cpu.StoreRsp0(top);
      g' := g'.(published := cpu.rsp0 == top);
      status := if g'.published then Ok else Io;
    }

    /** user_mode_rsp0_restore */
    method RestoreRsp0(g: StackGuard) returns (g': StackGuard, status: Status)
      requires Valid()
      modifies cpu, this`stackGuarded
      ensures Valid() && (Abs(), g', status) == StackRestore(old(Abs()), Cfg(), g)
    {
      hide P.Inv;
      if !g.active || !g.published || !stackGuarded || cpu.irq {
        return g, Inval;
      }
      if cpu.rsp0 != g.target {
        return g, Io;
      }
      cpu.StoreRsp0(g.previous);
      g' := g.(restored := cpu.rsp0 == g.previous);
      if !g'.restored {
        return g', Io;
      }
      stackGuarded := false;
      g', status := g'.(active := false), Ok;
    }

    // ---------- process.c: the journal ----------

    /** process_event_preflight */
    method CheckRoom(needed: nat) returns (status: Status)
      requires Valid() && 0 < needed <= CAPACITY
      modifies this`dropped, this`overflow
      ensures Valid() && (Abs(), status) == Preflight(old(Abs()), needed)
    {
      hide P.Inv;
      if eventCount > CAPACITY - needed || sequence > U64_MAX - needed {
        dropped, overflow := dropped + 1, true;
        return Busy;
      }
      status := Ok;
    }

    /** process_event_append */
    method AppendEvent(e: Event) returns (status: Status)
      requires Valid()
      modifies this`dropped, this`overflow, this`eventCount, this`sequence, events
      ensures Valid() && (Abs(), status) == Append(old(Abs()), Cfg(), e)
    {
      hide P.Inv, FieldsValid;
      if !CheckFields(e) {
        dropped := dropped + 1;
        return Io;
      }
      if eventCount >= CAPACITY || sequence == U64_MAX {
        dropped, overflow := dropped + 1, true;
        return Busy;
      }
      if eventCount > 0 && events[eventCount - 1].sequence != sequence {
        dropped := dropped + 1;
        return Io;
      }
      events[eventCount] := e.(sequence := sequence + 1);
      sequence, eventCount := sequence + 1, eventCount + 1;
      assert events[..eventCount] == old(events[..eventCount]) + [e.(sequence := sequence)];
      status := Ok;
    }

    /** process_event_fields_valid over the live descriptors. */
    predicate CheckFields(e: Event)
      requires Valid()
      reads this, cpu, slots, procs, events
      ensures CheckFields(e) == FieldsValid(e, Abs(), Cfg())
    {
      hide P.Inv;
      EventOk(e, procs[..], baseCr3, baseRsp0, Cfg())
    }

    // ---------- process.c: processes ----------

    method SetProc(p: nat, q: Proc)
      requires Valid() && p < SLOTS
      modifies procs
      ensures Valid() && Abs() == WithProc(old(Abs()), p, q)
    {
      hide P.Inv;
      procs[p] := q;
      assert procs[..] == old(procs[..])[p := q];
    }

    /** bootstrap_process_prepare */
    method PrepareProcess(slot: nat, executable: bool) returns (status: Status)
      requires Valid()
      modifies slots, procs
      ensures Valid() && (Abs(), status) == Prepare(old(Abs()), Cfg(), slot, executable)
    {
      hide P.Inv, SlotPrepare;
      if !initialized || slot >= SLOTS {
        return Inval;
      }
      if current.Some? || procs[slot].active {
        return Busy;
      }
      if procs[slot].generation == U64_MAX {
        return Io;
      }
      var space;
      space, status := PrepareSlot(slot, executable);
      if status != Ok {
        return;
      }
      SetProc(slot, Proc(space, FreshRun(), true, true, false, procs[slot].generation + 1, None));
    }

    /** bootstrap_process_cancel */
    method CancelProcess(p: nat) returns (status: Status)
      requires Valid() && p < SLOTS
      modifies slots, procs
      ensures Valid() && (Abs(), status) == Cancel(old(Abs()), Cfg(), p)
    {
      hide P.Inv, SlotSeal;
      if !initialized || !DescriptorOk(procs[p], p) || !procs[p].prepared {
        return Inval;
      }
      if current.Some? || procs[p].active {
        return Busy;
      }
      var nx;
      nx, status := SealSlot(p);
      SetProc(p, procs[p].(prepared := false));
    }

    /** The second half of activation: the process becomes current and the journal says so. */
    method OwnProcess(p: nat, g: Guard) returns (g': Guard, status: Status)
      requires Valid() && p < SLOTS
      modifies this, procs, events
      ensures Valid() && (Abs(), g', status) == Own(old(Abs()), Cfg(), p, g)
    {
      hide P.Inv, Append;
      g' := g.(active := true);
      SetProc(p, procs[p].(active := true));
      current, currentPid := Some(p), Pid(p);
      var q := procs[p];
      var e := Event(0, Acquire, p, q.generation, 0, None, 0, Pid(p), Pid(p),
                     g.space.previousCr3, q.space.cr3, g.stack.previous, g.stack.target,
                     current == Some(p) && q.active && currentPid == Pid(p),
                     cpu.cr3 == q.space.cr3, cpu.rsp0 == g.stack.target, !cpu.irq);
      assert e == AcquireEvent(Abs(), Cfg(), p, g');
      status := AppendEvent(e);
    }

    method RollbackProcess(g: Guard) returns (g': Guard, status: Status)
      requires Valid()
      modifies cpu, this`activeSlot, this`stackGuarded
      ensures Valid() && (Abs(), g', status) == Rollback(old(Abs()), Cfg(), g)
    {
      hide P.Inv, StackRestore, SpaceRestore;
      var stack, st1 := RestoreRsp0(g.stack);
      if st1 != Ok {
        return g.(stack := stack, active := true), Io;
      }
      var space, st2 := RestoreSpace(g.space);
      g', status := g.(stack := stack, space := space, active := st2 != Ok), Io;
    }

    method PublishEntry(p: nat, space: SpaceGuard) returns (g: Guard, status: Status)
      requires Valid() && p < SLOTS
      modifies this, cpu, procs, events
      ensures Valid() && (Abs(), g, status) == PublishStack(old(Abs()), Cfg(), p, space)
    {
      hide P.Inv, StackPublish, SpaceRestore, Rollback, Own;
      var stack;
      stack, status := PublishRsp0(stackBase[p], NoGuard().stack);
      g := NoGuard().(space := space, stack := stack);
      if status != Ok {
        if stack.active {
          g := g.(active := true);
          return;
        }
        var space', ignored := RestoreSpace(space);
        g := g.(space := space', active := space'.active || space'.irqPending);
        return;
      }
      if stack.previous == stack.target {
        g, status := RollbackProcess(g);
        return;
      }
      g, status := OwnProcess(p, g);
    }

    /** bootstrap_process_activate */
    method ActivateProcess(p: nat, g: Guard) returns (g': Guard, status: Status)
      requires Valid() && p < SLOTS
      modifies this, cpu, procs, events
      ensures Valid() && (Abs(), g', status) == Activate(old(Abs()), Cfg(), p, g)
    {
      hide P.Inv, SpaceActivate, PublishStack;
      if !initialized || !DescriptorOk(procs[p], p) || !procs[p].prepared {
        return g, Inval;
      }
      if g.active || current.Some? || procs[p].active {
        return g, Busy;
      }
      status := CheckRoom(EVENTS_PER_RUN);
      if status != Ok {
        return g, status;
      }
      SetProc(p, procs[p].(run := FreshRun()));
      var space;
      space, status := ActivateSpace(procs[p].space, NoGuard().space);
      if status != Ok {
        return NoGuard().(space := space, active := space.active || space.irqPending), status;
      }
      g', status := PublishEntry(p, space);
    }

    /** bootstrap_process_get_trap_snapshot */
    method GetTrap(p: nat) returns (t: Option<Snapshot>)
      requires Valid() && p < SLOTS
      ensures t == TrapOf(Abs(), Cfg(), p)
    {
      hide P.Inv;
      var q := procs[p];
      if !initialized || !DescriptorOk(q, p) || q.trap.None? || q.trap.value.sequence == 0
         || q.trap.value.generation != q.generation || q.trap.value.cr3 != q.space.cr3
         || q.trap.value.rsp0 != stackBase[p] + STACK_SIZE {
        return None;
      }
      t := q.trap;
    }

    /** The last part of finish. */
    method PublishRelease(p: nat, g: Guard) returns (g': Guard, status: Status)
      requires Valid() && p < SLOTS
      modifies this, cpu, events
      ensures Valid() && (Abs(), g', status) == Publish(old(Abs()), Cfg(), p, g)
    {
      hide P.Inv, Append, RestoreInterrupts, TrapOf;
      var q := procs[p];
      var trap := GetTrap(p);
      var e := Event(0, Release, p, q.generation,
                     if trap.Some? then trap.value.sequence else 0, if trap.Some? then Some(trap.value.frame) else None,
                     Pid(p), 0, 0, q.space.cr3, g.space.previousCr3, stackBase[p] + STACK_SIZE, g.stack.previous,
                     current.None? && !q.active && currentPid == 0,
                     g.space.cr3Restored && cpu.cr3 == g.space.previousCr3,
                     g.stack.restored && cpu.rsp0 == g.stack.previous, !cpu.irq);
      assert e == ReleaseEvent(Abs(), Cfg(), p, g);
      status := AppendEvent(e);
      if status != Ok {
        return g, status;
      }
      var space;
      space, status := RestoreIrq(g.space);
      g' := g.(space := space, active := status != Ok || space.active || space.irqPending);
      status := if status == Ok then Ok else Io;
    }

    /** The part of finish after CR3 and rsp0 are back: seal, disown, publish. */
    method Disown(p: nat, g: Guard, within: bool) returns (g': Guard, status: Status)
      requires Valid() && p < SLOTS
      modifies this, cpu, slots, procs, events
      ensures Valid()
      ensures var s2 := old(Abs()); var (s3, nx, st3) := SlotSeal(s2, Cfg(), p);
              var g3 := g.(sealed := st3 == Ok, nxEnforced := nx); var q := s2.procs[p];
              var s4 := WithProc(s3, p, q.(active := false, prepared := false)).(current := None, currentPid := 0);
              (Abs(), g', status) ==
                if !within || !q.canary || !g.stack.restored || st3 != Ok || s4.hw.rsp0 != s4.baseRsp0 then (s4, g3, Io)
                else Publish(s4, Cfg(), p, g3)
    {
      hide P.Inv, SlotSeal, Publish;
      var nx;
      nx, status := SealSlot(p);
      g' := g.(sealed := status == Ok, nxEnforced := nx);
      SetProc(p, procs[p].(active := false, prepared := false));
      current, currentPid := None, 0;
      if !within || !procs[p].canary || !g.stack.restored || !g'.sealed || cpu.rsp0 != baseRsp0 {
        return g', Io;
      }
      g', status := PublishRelease(p, g');
    }

    /** bootstrap_process_finish */
    method FinishProcess(p: nat, g: Guard) returns (g': Guard, status: Status)
      requires Valid() && p < SLOTS
      modifies this, cpu, slots, procs, events
      ensures Valid() && (Abs(), g', status) == Finish(old(Abs()), Cfg(), p, g)
    {
      hide P.Inv, StackRestore, RestoreDeferred, SlotSeal, Publish;
      if !DescriptorOk(procs[p], p) || !g.active || current != Some(p) || !procs[p].active {
        return g, Inval;
      }
      var within := EntriesWithin(procs[p], Cfg(), p);
      var stack;
      stack, status := RestoreRsp0(g.stack);
      if status != Ok {
        return g.(stack := stack), status;
      }
      var space;
      space, status := RestoreCr3(g.space);
      if status != Ok {
        return g.(stack := stack, space := space), status;
      }
      g', status := Disown(p, g.(stack := stack, space := space), within);
    }

    /** bootstrap_process_capture_current_trap */
    method CaptureCurrentTrap(f: Frame, liveAc: bool) returns (status: Status)
      requires Valid() && (current.Some? ==> current.value < SLOTS)
      modifies this, procs, events
      ensures Valid() && (Abs(), status) == CaptureTrap(old(Abs()), Cfg(), f, liveAc)
    {
      hide P.Inv, Append, FrameOk;
      if !initialized || current.None? {
        return Inval;
      }
      var p := current.value;
      var q := procs[p];
      if !DescriptorOk(q, p) || !q.prepared || !q.active || q.generation == 0 {
        return Inval;
      }
      if q.trap.Some? {
        return Busy;
      }
      if trapSequence == U64_MAX {
        return Io;
      }
      if cpu.irq || liveAc || cpu.cr3 != q.space.cr3 || cpu.rsp0 != stackBase[p] + STACK_SIZE
         || !FrameOk(f, stackBase[p] + STACK_SIZE) {
        return Io;
      }
      status := RecordCapture(p, f);
    }

    method RecordCapture(p: nat, f: Frame) returns (status: Status)
      requires Valid() && p < SLOTS
      modifies this, procs, events
      ensures Valid()
      ensures var s := old(Abs()); var (s1, st) := Append(s, Cfg(), CaptureEvent(s, Cfg(), p, f));
              (Abs(), status) ==
                if st != Ok then (s1, st)
                else
                  var trap := Snapshot(f, s.trapSequence + 1, s.procs[p].generation, s.hw.cr3, s.hw.rsp0);
                  (WithProc(s1, p, s.procs[p].(trap := Some(trap))).(trapSequence := s.trapSequence + 1), Ok)
    {
      hide P.Inv, Append, CaptureEvent, WithProc;
      var q := procs[p];
      var e := MakeCapture(p, f);
      status := AppendEvent(e);
      if status != Ok {
        return;
      }
      SetProc(p, q.(trap := Some(Snapshot(f, trapSequence + 1, q.generation, cpu.cr3, cpu.rsp0))));
      trapSequence := trapSequence + 1;
    }

    method MakeCapture(p: nat, f: Frame) returns (e: Event)
      requires Valid() && p < SLOTS
      ensures e == CaptureEvent(Abs(), Cfg(), p, f)
    {
      hide P.Inv;
      var q := procs[p];
      e := Event(0, Capture, p, q.generation, trapSequence + 1, Some(f), Pid(p), Pid(p), Pid(p),
                 cpu.cr3, cpu.cr3, cpu.rsp0, cpu.rsp0,
                 current == Some(p) && q.active && currentPid == Pid(p),
                 cpu.cr3 == q.space.cr3, cpu.rsp0 == stackBase[p] + STACK_SIZE, !cpu.irq);
    }

    /** bootstrap_process_get_event */
    method ReadEvent(i: nat) returns (e: Option<Event>, status: Status)
      requires Valid()
      ensures (e, status) == GetEvent(Abs(), Cfg(), i)
    {
      hide P.Inv, FieldsValid;
      if !initialized || i >= eventCount {
        return None, Inval;
      }
      if current.Some? {
        return None, Busy;
      }
      if events[i].sequence != i + 1 || !CheckFields(events[i]) {
        return None, Io;
      }
      e, status := Some(events[i]), Ok;
    }

    /** One descriptor of bootstrap_process_init. */
    method InitDescriptor(slot: nat) returns (status: Status)
      requires Valid() && slot < SLOTS
      modifies slots, procs
      ensures Valid() && (Abs(), status) == InitProc(old(Abs()), Cfg(), slot)
    {
      hide P.Inv, SlotPrepare;
      var space;
      space, status := PrepareSlot(slot, false);
      if status != Ok {
        return;
      }
      SetProc(slot, procs[slot].(space := space, prepared := true));
    }

    /** The descriptors in order, then the ownership selftest. */
    method InitDescriptors() returns (status: Status)
      requires Valid()
      modifies this`initialized, slots, procs
      ensures Valid() && (Abs(), status) == InitProcs(old(Abs()), Cfg())
    {
      hide P.Inv, InitProc, SelftestOk;
      for slot := 0 to SLOTS
        invariant Valid()
        invariant slot == 0 ==> Abs() == old(Abs())
        invariant slot == 1 ==> (Abs(), Ok) == InitProc(old(Abs()), Cfg(), 0)
        invariant slot == 2 ==>
                    && InitProc(old(Abs()), Cfg(), 0).1 == Ok
                    && (Abs(), Ok) == InitProc(InitProc(old(Abs()), Cfg(), 0).0, Cfg(), 1)
      {
        status := InitDescriptor(slot);
        if status != Ok {
          return;
        }
      }
      var passed := CheckOwnership();
      if passed {
        initialized := true;
        return Ok;
      }
      status := Io;
    }

    /** The ownership selftest. */
    method CheckOwnership() returns (passed: bool)
      requires Valid()
      ensures passed == SelftestOk(Abs(), Cfg())
    {
      hide P.Inv;
      passed := DescriptorOk(procs[0], 0) && DescriptorOk(procs[1], 1)
        && (stackBase[0] + STACK_SIZE) % 16 == 0 && (stackBase[1] + STACK_SIZE) % 16 == 0
        && procs[0].space.cr3 != procs[1].space.cr3 && procs[0].space.backing != procs[1].space.backing
        && stackBase[0] != stackBase[1] && stackBase[0] + STACK_SIZE <= stackBase[1] && cpu.rsp0 == baseRsp0;
    }

    method ClearStatics()
      requires Valid()
      modifies this, procs
      ensures Valid() && Abs() == Cleared(old(Abs())) && Abs().baseCr3 == baseCr3 && Abs().baseRsp0 == baseRsp0
    {
      hide P.Inv;
      procs[0], procs[1] := BlankProc(), BlankProc();
      current, currentPid := None, 0;
      eventCount, sequence, dropped, overflow := 0, 0, 0, false;
      baseCr3, baseRsp0, trapSequence := cpu.cr3, cpu.rsp0, 0;
      assert procs[..] == [BlankProc(), BlankProc()];
    }

    /** bootstrap_process_init */
    method InitProcesses() returns (status: Status)
      requires Valid()
      modifies this, slots, procs
      ensures Valid() && (Abs(), status) == Init(old(Abs()), Cfg())
    {
      hide P.Inv, InitProcs, Cleared;
      if current.Some? || procs[0].active || procs[1].active {
        return Busy;
      }
      if initialized {
        return Ok;
      }
      ClearStatics();
      if !scaffold || baseCr3 == 0 || baseRsp0 == 0 {
        return Io;
      }
      status := InitDescriptors();
    }
  }

  function BlankEvent(): Event {
    Event(0, Acquire, 0, 0, 0, None, 0, 0, 0, 0, 0, 0, 0, false, false, false, false)
  }
}
