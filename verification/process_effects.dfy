/**
 When the calls on bootstrap processes succeed, and what they leave behind: the address space and the record of a
 prepared process, the machine and the journal of an owner, the evidence of a trap, and the machine after a finish.
 */
module ProcessEffects {
  import opened Types
  import P = Paging
  import opened ProcessSpec
  import opened ProcessTheorems

  // ---------- prepare and cancel ----------

  /** The private address spaces exist, or the linker's layout lets them be built. */
  predicate Buildable(s: P.Spaces, l: P.Layout)
    requires |l.pml4| == |l.pdpt| == |l.pd0| == |l.backing| == SLOTS
  {
    s.ready || (l.backing[0] != l.backing[1] && forall i :: 0 <= i < SLOTS ==> SlotPlaced(l, i))
  }

  /** A table or buffer at an aligned address other than zero, below 4 GiB to its end. */
  predicate Placed(base: nat, size: nat, alignment: nat)
    requires alignment > 0
  {
    0 < base && base % alignment == 0 && base + size <= 0x1_0000_0000
  }

  /** Three page tables of 4 KiB and a backing of 2 MiB. */
  predicate SlotPlaced(l: P.Layout, i: nat)
    requires i < |l.pml4| && i < |l.pdpt| && i < |l.pd0| && i < |l.backing|
  {
    Placed(l.pml4[i], 4096, 4096) && Placed(l.pdpt[i], 4096, 4096) && Placed(l.pd0[i], 4096, 4096) && Placed(l.backing[i], 0x20_0000, 0x20_0000)
  }

  lemma SlotPlacedIs(l: P.Layout, i: nat)
    requires i < |l.pml4| && i < |l.pdpt| && i < |l.pd0| && i < |l.backing|
    ensures P.SlotRanges(l, i) <==> SlotPlaced(l, i)
  {
  }

  lemma PolicyOkIff(s: P.Spaces, l: P.Layout, sec: Option<bool>, slot: nat, executable: bool)
    requires P.Inv(s, l) && slot < SLOTS
    ensures P.Policy(s, l, sec, slot, executable).1 == Ok <==> sec.Some? && Buildable(s, l)
  {
    hide P.SlotRanges, P.SlotOk, P.BuiltUpTo, P.SetLeaf, P.BootOk, SlotPlaced;
    SlotPlacedIs(l, 0);
    SlotPlacedIs(l, 1);
  }

  lemma LayoutSizes(s: Sys, c: Config)
    requires Wf(s, c)
    ensures |c.layout.pml4| == |c.layout.pdpt| == |c.layout.pd0| == |c.layout.backing| == SLOTS
    ensures |s.spaces.backing| == |s.spaces.executable| == SLOTS
  {
  }

  /** A slot may be prepared: initialised, a real slot, nothing current or switched, a generation left, and tables to be had. */
  predicate Preparable(s: Sys, c: Config, slot: nat)
    requires |s.procs| == SLOTS && |c.layout.pml4| == |c.layout.pdpt| == |c.layout.pd0| == |c.layout.backing| == SLOTS
  {
    && s.initialized && slot < SLOTS && s.current.None? && !s.procs[slot].active && s.procs[slot].generation != U64_MAX
    && s.activeSlot.None? && c.sec.Some? && Buildable(s.spaces, c.layout)
  }

  /** bootstrap_process_prepare succeeds exactly for a preparable slot; otherwise no process changes. */
  lemma PrepareOkIff(s: Sys, c: Config, slot: nat, executable: bool)
    requires Wf(s, c) && |c.layout.pml4| == |c.layout.pdpt| == |c.layout.pd0| == |c.layout.backing| == SLOTS
    ensures var (s', status) := Prepare(s, c, slot, executable);
            && (status == Ok <==> Preparable(s, c, slot))
            && (status != Ok ==> s' == s.(spaces := s'.spaces))
            && (!s.initialized || slot >= SLOTS ==> status == Inval)
            && (s.initialized && slot < SLOTS && s.current.Some? ==> status == Busy)
  {
    hide P.Inv, P.Policy, Buildable;
    if slot < SLOTS {
      PolicyOkIff(s.spaces, c.layout, c.sec, slot, executable);
    }
  }

  /** Address `va` of the window reaches byte `va - USER_BASE` of the slot's backing, with these rights. */
  ghost predicate WindowIs(s: P.Spaces, l: P.Layout, slot: nat, nx: bool) {
    && slot < |l.pml4| && slot < |l.backing|
    && forall va: nat :: P.InWindow(va) ==>
         P.Translate(s.tables, l.pml4[slot], va) == P.Mapped(l.backing[slot] + (va - USER_BASE), true, true, nx)
  }

  ghost predicate AllZero(m: seq<Byte>) { |m| == USER_SIZE && forall k :: 0 <= k < |m| ==> m[k] == 0 }

  lemma PolicyWindow(s: P.Spaces, l: P.Layout, sec: Option<bool>, slot: nat, executable: bool)
    requires P.Inv(s, l) && slot < SLOTS && P.Policy(s, l, sec, slot, executable).1 == Ok
    ensures var s' := P.Policy(s, l, sec, slot, executable).0;
            && sec.Some? && WindowIs(s', l, slot, !executable && sec.value)
            && |s'.backing| == |s'.executable| == SLOTS && AllZero(s'.backing[slot]) && s'.executable[slot] == executable
  {
    hide P.Policy, P.Translate, P.SlotOk, P.BootOk, P.LayoutOk;
    var s' := P.Policy(s, l, sec, slot, executable).0;
    P.PolicyDoes(s, l, sec, slot, executable);
    P.Sizes(s', l);
    forall va: nat | P.InWindow(va)
      ensures P.Translate(s'.tables, l.pml4[slot], va)
              == P.Mapped(l.backing[slot] + (va - USER_BASE), true, true, !executable && sec.value)
    {
      P.WindowMapped(s', l, slot, va);
    }
  }

  /**
   What a successful prepare leaves: the whole window of the slot is mapped to its own zeroed backing, writable, and
   executable exactly when that was asked for or cannot be prevented; the process is prepared for its next generation
   with a fresh run state, an intact stack floor and no trap; nothing else changes.
   */
  lemma PrepareMeans(s: Sys, c: Config, slot: nat, executable: bool)
    requires Wf(s, c) && Prepare(s, c, slot, executable).1 == Ok
    ensures var s' := Prepare(s, c, slot, executable).0;
            && slot < SLOTS && c.sec.Some? && s' == s.(spaces := s'.spaces, procs := s'.procs)
            && |c.layout.pml4| == |c.layout.backing| == |s'.spaces.backing| == |s'.spaces.executable| == SLOTS
            && WindowIs(s'.spaces, c.layout, slot, !executable && c.sec.value)
            && AllZero(s'.spaces.backing[slot]) && s'.spaces.executable[slot] == executable
            && s'.procs == s.procs[slot := Proc(Space(slot, c.layout.pml4[slot], c.layout.backing[slot], true, executable),
                                                RunState(0, U64_MAX, 0, false), true, true, false,
                                                s.procs[slot].generation + 1, None)]
  {
    hide P.Inv, P.Policy, WindowIs, AllZero;
    PolicyWindow(s.spaces, c.layout, c.sec, slot, executable);
    LayoutSizes(s, c);
  }

  /** Once the spaces exist, preparing one slot leaves the other slot's tables, memory and policy alone. */
  lemma PrepareSparesOther(s: Sys, c: Config, slot: nat, executable: bool)
    requires Wf(s, c) && s.spaces.ready && slot < SLOTS && Prepare(s, c, slot, executable).1 == Ok
    ensures var s' := Prepare(s, c, slot, executable).0; var other := 1 - slot;
            && |s.spaces.backing| == |s'.spaces.backing| == |s.spaces.executable| == |s'.spaces.executable| == SLOTS
            && s'.spaces.backing[other] == s.spaces.backing[other] && s'.spaces.executable[other] == s.spaces.executable[other]
            && s'.procs[other] == s.procs[other]
  {
    hide P.Inv, P.Policy;
    LayoutSizes(s, c);
    P.PolicySparesOther(s.spaces, c.layout, c.sec, slot, executable);
    LayoutSizes(Prepare(s, c, slot, executable).0, c);
  }

  /**
   bootstrap_process_cancel succeeds exactly for a prepared process while nothing is current or switched, with the
   processor's report at hand. The preparation is gone even if the seal failed.
   */
  lemma CancelOkIff(s: Sys, c: Config, p: nat)
    requires Wf(s, c) && p < SLOTS && |c.layout.pml4| == |c.layout.pdpt| == |c.layout.pd0| == |c.layout.backing| == SLOTS
    ensures var (s', status) := Cancel(s, c, p);
            var ours := s.initialized && s.procs[p].space.slot == p && s.procs[p].space.ready && s.procs[p].prepared;
            && (status == Ok <==> ours && s.current.None? && !s.procs[p].active && s.activeSlot.None? && c.sec.Some?
                                  && Buildable(s.spaces, c.layout))
            && (!ours ==> status == Inval && s' == s)
            && (ours && (s.current.Some? || s.procs[p].active) ==> status == Busy && s' == s)
            && (ours && s.current.None? && !s.procs[p].active ==>
                  s' == s.(spaces := s'.spaces, procs := s.procs[p := s.procs[p].(prepared := false)]))
  {
    hide P.Inv, P.Policy, Buildable;
    PolicyOkIff(s.spaces, c.layout, c.sec, p, false);
  }

  /** After a cancel the window is zeroed, and not executable where that can be enforced. */
  lemma CancelWindow(s: Sys, c: Config, p: nat)
    requires Wf(s, c) && p < SLOTS && Cancel(s, c, p).1 == Ok
    ensures var s' := Cancel(s, c, p).0;
            && c.sec.Some? && WindowIs(s'.spaces, c.layout, p, c.sec.value)
            && |s'.spaces.backing| == SLOTS && AllZero(s'.spaces.backing[p])
  {
    hide P.Inv, P.Policy, WindowIs, AllZero;
    PolicyWindow(s.spaces, c.layout, c.sec, p, false);
  }

  // ---------- activate ----------

  /**
   What a successful activation leaves: the process is current on its own page tables and entry stack, interrupts off,
   its run state fresh; the guard keeps the machine as it was; and the journal has gained exactly this acquisition.
   */
  lemma ActivateMeans(s: Sys, g: Guard, c: Config, p: nat)
    requires Inv(s, g, c) && p < SLOTS && s.procs[p].generation > 0 && Activate(s, c, p, NoGuard()).2 == Ok
    ensures var (s', g', _) := Activate(s, c, p, NoGuard()); var q := s.procs[p]; var top := c.stackBase[p] + 16384;
            && s.initialized && s.current.None? && q.prepared && |s.events| + 3 <= 8
            && s'.current == Some(p) && s'.currentPid == p + 1 && s'.hw.cr3 == q.space.cr3 && s'.hw.rsp0 == top && !s'.hw.irq
            && s'.procs == s.procs[p := q.(run := RunState(0, U64_MAX, 0, false), active := true)] && s'.spaces == s.spaces
            && g'.active && g'.space.previousCr3 == s.hw.cr3 && g'.space.previousIrq == s.hw.irq && g'.stack.previous == s.hw.rsp0
            && s'.events == s.events + [Event(|s.events| + 1, Acquire, p, q.generation, 0, None, 0, p + 1, p + 1,
                                              s.hw.cr3, q.space.cr3, s.hw.rsp0, top, true, true, true, true)]
  {
    hide P.Inv, Activate, PhaseAfter, FieldsValid, FailedClosed, Append, Recorded;
    if s.current.Some? {
      BusyActivate(s, c, p);
    } else {
      var sm, gm := ActivateOutcome(s, c, p);
      OwnWorks(s, g, sm, gm, c, p);
      OwnRecords(s, g, sm, gm, c, p);
    }
  }

  lemma OwnRecords(s: Sys, g: Guard, sm: Sys, gm: Guard, c: Config, p: nat)
    requires Inv(s, g, c) && s.current.None? && s.initialized && p < SLOTS && s.procs[p].prepared && s.procs[p].generation > 0
    requires |s.events| + EVENTS_PER_RUN <= CAPACITY && Wf(sm, c) && Switched(s, sm, c, p, gm)
    ensures var (s', g', st) := Own(sm, c, p, gm);
            var s1 := WithProc(sm, p, sm.procs[p].(active := true)).(current := Some(p), currentPid := Pid(p));
            var e := AcquireEvent(s1, c, p, gm.(active := true));
            s' == s1.(events := s.events + [e.(sequence := |s.events| + 1)], sequence := s.sequence + 1) && g' == gm.(active := true)
  {
    hide P.Inv, PhaseAfter, FieldsValid;
    var g1 := gm.(active := true);
    var s1 := WithProc(sm, p, sm.procs[p].(active := true)).(current := Some(p), currentPid := Pid(p));
    RecordedAges(s, s1, c);
    AcquireValid(s1, c, p, g1);
    AppendWorks(s1, c, AcquireEvent(s1, c, p, g1));
  }

  /** An entry stack of 16 KiB: 16-byte aligned, in one canonical half, and clear of the user window. */
  predicate SoundStack(base: nat) {
    && base > 0 && base % 16 == 0 && base + 16384 < U64_LIMIT
    && (base + 16384 <= 0x8000_0000_0000 || base >= U64_LIMIT - 0x8000_0000_0000)
    && (base + 16384 <= 0x0400_0000 || base >= 0x0420_0000)
  }

  lemma SoundStackIs(base: nat)
    ensures StackOk(base) <==> SoundStack(base)
  {
  }

  /** A boot stack pointer: 16-byte aligned, just above a canonical address. */
  predicate SoundTop(rsp0: nat) {
    rsp0 > 0 && rsp0 % 16 == 0 && (rsp0 <= 0x8000_0000_0000 || U64_LIMIT - 0x8000_0000_0000 < rsp0 <= U64_LIMIT)
  }

  lemma SoundTopIs(rsp0: nat)
    ensures EntryOk(rsp0) <==> SoundTop(rsp0)
  {
  }

  lemma ActivateNeeds(s: Sys, c: Config, p: nat)
    requires Wf(s, c) && p < SLOTS && Activate(s, c, p, NoGuard()).2 == Ok
    ensures s.initialized && s.current.None? && s.procs[p].prepared && |s.events| + EVENTS_PER_RUN <= CAPACITY
    ensures c.scaffold && StackOk(c.stackBase[p]) && EntryOk(s.hw.rsp0) && s.hw.rsp0 != Top(c, p)
  {
    hide P.Inv, Own, Rollback, SpaceRestore, StackOk, EntryOk, RestoreInterrupts;
    IrqSparesRsp0(c);
    RollbackFails(c);
  }

  lemma RollbackFails(c: Config)
    ensures forall s: Sys, g: Guard :: Wf(s, c) ==> Rollback(s, c, g).2 == Io
  {
    hide Wf, StackRestore, SpaceRestore;
  }

  lemma IrqSparesRsp0(c: Config)
    ensures forall s: Sys, g: SpaceGuard :: RestoreInterrupts(s, c, g).0.hw.rsp0 == s.hw.rsp0
  {
  }

  /**
   With truthful hardware an activation succeeds exactly for a prepared process of an initialised kernel in which nothing
   is current, with a sound entry stack other than the boot stack, and room for three events.
   */
  lemma ActivateOkIff(s: Sys, g: Guard, c: Config, p: nat)
    requires Inv(s, g, c) && Truthful(c) && p < SLOTS && s.procs[p].generation > 0
    ensures Activate(s, c, p, NoGuard()).2 == Ok <==>
            && s.initialized && s.current.None? && s.procs[p].prepared && |s.events| + 3 <= 8 && c.scaffold
            && SoundStack(c.stackBase[p]) && SoundTop(s.baseRsp0) && s.baseRsp0 != c.stackBase[p] + 16384
  {
    hide P.Inv, Activate, PhaseAfter, FieldsValid, Recorded, Truthful, StackOk, SoundStack, EntryOk, SoundTop;
    SoundStackIs(c.stackBase[p]);
    SoundTopIs(s.baseRsp0);
    if Activate(s, c, p, NoGuard()).2 == Ok {
      ActivateNeeds(s, c, p);
    }
    if s.initialized && s.current.None? && s.procs[p].prepared && |s.events| + EVENTS_PER_RUN <= CAPACITY && c.scaffold
       && StackOk(c.stackBase[p]) && EntryOk(s.baseRsp0) && s.baseRsp0 != Top(c, p) {
      ActivateSucceeds(s, g, c, p);
    }
  }

  // ---------- traps ----------

  /** A breakpoint taken from ring 3 in the user window, on the entry stack of the process, with the flags ring 3 runs with. */
  predicate Genuine(f: Frame, top: int) {
    && f.cs == 0x23 && f.ss == 0x1B && f.vector == 3 && f.error == 0
    && 0x0400_0000 <= f.rip < 0x0420_0000 && 0x0400_0000 <= f.rsp < 0x0420_0000
    && f.addr == top - 176 && f.fixed && !f.direction && f.ac
  }

  lemma GenuineIs(f: Frame, top: int)
    ensures FrameOk(f, top) <==> Genuine(f, top)
  {
  }

  /**
   bootstrap_process_capture_current_trap succeeds exactly for the first genuine trap of the current process, taken with
   the handler's alignment-check flag clear; anything else changes nothing. The trap then holds the very frame, and so
   does the one event that the journal gains.
   */
  lemma CaptureOkIff(s: Sys, g: Guard, c: Config, f: Frame, liveAc: bool)
    requires Inv(s, g, c)
    ensures var (s', status) := CaptureTrap(s, c, f, liveAc);
            && (status == Ok <==>
                  && s.current.Some? && s.procs[s.current.value].trap.None? && s.trapSequence != U64_MAX && !liveAc
                  && Genuine(f, c.stackBase[s.current.value] + 16384))
            && (status != Ok ==> s' == s)
            && (status == Ok ==>
                  var p := s.current.value; var q := s.procs[p]; var n := s.trapSequence + 1; var top := c.stackBase[p] + 16384;
                  && s' == s.(procs := s.procs[p := q.(trap := Some(Snapshot(f, n, q.generation, q.space.cr3, top)))],
                              events := s'.events, sequence := s.sequence + 1, trapSequence := n)
                  && s'.events == s.events + [Event(|s.events| + 1, Capture, p, q.generation, n, Some(f), p + 1, p + 1, p + 1,
                                                    q.space.cr3, q.space.cr3, top, top, true, true, true, true)])
  {
    hide P.Inv, Append, FieldsValid, PhaseAfter;
    if s.current.Some? {
      var p := s.current.value;
      GenuineIs(f, Top(c, p));
      if s.procs[p].trap.None? && FrameOk(f, Top(c, p)) {
        CaptureValid(s, g, c, p, f);
        AppendWorks(s, c, CaptureEvent(s, c, p, f));
      }
    }
  }

  /** bootstrap_process_get_trap_snapshot gives back the captured frame itself, from the capture until the slot is prepared again. */
  lemma TrapReadBack(s: Sys, g: Guard, c: Config, f: Frame, liveAc: bool)
    requires Inv(s, g, c) && CaptureTrap(s, c, f, liveAc).1 == Ok
    ensures var s' := CaptureTrap(s, c, f, liveAc).0;
            s.current.Some? && TrapOf(s', c, s.current.value).Some? && TrapOf(s', c, s.current.value).value.frame == f
  {
    hide P.Inv, CaptureTrap, FieldsValid, PhaseAfter, Recorded;
    CaptureOkIff(s, g, c, f, liveAc);
    TrapKeeps(s, g, c, f, liveAc);
  }

  // ---------- finish ----------

  /** The entries of the run stayed on the entry stack, and its floor is intact. */
  predicate Undamaged(q: Proc, base: nat) {
    q.canary && (q.run.entries == 0 || (q.run.rspMin >= base && q.run.rspMax < base + 16384))
  }

  /**
   What a successful finish leaves, and that it never succeeds on a damaged stack: the machine is as the guard kept it,
   the process is neither current nor prepared, and the journal has gained exactly this release, which carries the frame
   captured in the run, or none.
   */
  lemma FinishMeans(s: Sys, g: Guard, c: Config, p: nat)
    requires Inv(s, g, c) && s.current == Some(p) && Finish(s, c, p, g).2 == Ok
    ensures p < SLOTS && Undamaged(s.procs[p], c.stackBase[p])
    ensures var (s', g', _) := Finish(s, c, p, g); var q := s.procs[p]; var top := c.stackBase[p] + 16384;
            && s'.hw.cr3 == s.baseCr3 && s'.hw.rsp0 == s.baseRsp0 && s'.hw.irq == g.space.previousIrq && !g'.active
            && s'.current == None && s'.currentPid == 0 && s'.procs == s.procs[p := q.(active := false, prepared := false)]
            && s'.events == s.events + [Event(|s.events| + 1, Release, p, q.generation,
                                              if q.trap.Some? then q.trap.value.sequence else 0,
                                              if q.trap.Some? then Some(q.trap.value.frame) else None,
                                              p + 1, 0, 0, q.space.cr3, s.baseCr3, top, s.baseRsp0, true, true, true, true)]
  {
    hide P.Inv, Finish, PhaseAfter, FieldsValid, Recorded, Publish;
    FinishKeeps(s, g, c, p);
    FinishNeeds(s, g, c, p);
    var sm, gm := FinishOutcome(s, g, c, p);
    PublishRecords(s, g, sm, gm, c, p);
  }

  lemma FinishNeeds(s: Sys, g: Guard, c: Config, p: nat)
    requires Wf(s, c) && p < SLOTS && Finish(s, c, p, g).2 == Ok
    ensures Undamaged(s.procs[p], c.stackBase[p])
  {
    hide P.Inv, StackRestore, RestoreDeferred, SlotSeal, Publish;
  }

  lemma PublishRecords(s: Sys, g: Guard, sm: Sys, gm: Guard, c: Config, p: nat)
    requires Inv(s, g, c) && s.current == Some(p) && Wf(sm, c) && Restored(s, sm, g, gm, c, p)
    ensures var s' := Publish(sm, c, p, gm).0; var e := ReleaseEvent(sm, c, p, gm);
            s' == sm.(hw := s'.hw, events := s.events + [e.(sequence := |s.events| + 1)], sequence := s.sequence + 1)
  {
    hide P.Inv, PhaseAfter, FieldsValid;
    RecordedAges(s, sm, c);
    ReleaseValid(s, sm, g, gm, c, p);
    AppendWorks(sm, c, ReleaseEvent(sm, c, p, gm));
  }

  /** With truthful hardware a finish of the owner succeeds exactly when its stack is undamaged. */
  lemma FinishOkIff(s: Sys, g: Guard, c: Config, p: nat)
    requires Inv(s, g, c) && Truthful(c) && s.current == Some(p) && c.sec.Some? && p < SLOTS
    ensures Finish(s, c, p, g).2 == Ok <==> Undamaged(s.procs[p], c.stackBase[p])
  {
    hide P.Inv, Finish, PhaseAfter, FieldsValid, Recorded, Truthful;
    if Undamaged(s.procs[p], c.stackBase[p]) {
      FinishSucceeds(s, g, c, p);
    } else if Finish(s, c, p, g).2 == Ok {
      FinishNeeds(s, g, c, p);
    }
  }

  // ---------- initialisation ----------

  /** A process as initialisation leaves it: prepared on its sealed slot, never run. */
  function Seeded(c: Config, slot: nat): Proc
    requires slot < |c.layout.pml4| && slot < |c.layout.backing|
  {
    Proc(Space(slot, c.layout.pml4[slot], c.layout.backing[slot], true, false), RunState(0, U64_MAX, 0, false), true, true, false, 0, None)
  }

  lemma InitProcMeans(s: Sys, c: Config, slot: nat)
    requires Wf(s, c) && slot < SLOTS && s.procs[slot] == BlankProc() && s.activeSlot.None?
    requires |c.layout.pml4| == |c.layout.pdpt| == |c.layout.pd0| == |c.layout.backing| == SLOTS
    ensures var (s', status) := InitProc(s, c, slot);
            && (status == Ok <==> c.sec.Some? && Buildable(s.spaces, c.layout))
            && (status == Ok ==> s' == s.(spaces := s'.spaces, procs := s.procs[slot := Seeded(c, slot)]) && s'.spaces.ready)
  {
    hide P.Inv, P.Policy, Buildable;
    PolicyOkIff(s.spaces, c.layout, c.sec, slot, false);
    if InitProc(s, c, slot).1 == Ok {
      P.PolicyDoes(s.spaces, c.layout, c.sec, slot, false);
    }
  }

  /**
   bootstrap_process_init, while nothing is current, succeeds exactly when it has before, or the user-mode scaffold is
   ready, CR3 and rsp0 are set, the address spaces can be had, and the two entry stacks are aligned and in order. A first
   success leaves two prepared processes of generation zero, an empty journal and the boot baselines.
   */
  lemma InitOkIff(s: Sys, g: Guard, c: Config)
    requires Inv(s, g, c) && s.current.None?
    requires |c.layout.pml4| == |c.layout.pdpt| == |c.layout.pd0| == |c.layout.backing| == SLOTS
    ensures var (s', status) := Init(s, c);
            && (status == Ok <==>
                  || s.initialized
                  || (&& c.scaffold && s.hw.cr3 != 0 && s.hw.rsp0 != 0 && c.sec.Some? && Buildable(s.spaces, c.layout)
                      && c.stackBase[0] % 16 == 0 && c.stackBase[1] % 16 == 0 && c.stackBase[0] + 16384 <= c.stackBase[1]))
            && (s.initialized ==> s' == s)
            && (!s.initialized && status == Ok ==>
                  && s'.initialized && s'.procs == [Seeded(c, 0), Seeded(c, 1)] && s'.events == [] && s'.sequence == 0
                  && s'.hw == s.hw && s'.baseCr3 == s.hw.cr3 && s'.baseRsp0 == s.hw.rsp0 && s'.current == None)
  {
    hide P.Inv, InitProc, Buildable, Recorded, PhaseAfter;
    if !s.initialized {
      var s0 := Cleared(s);
      InitProcMeans(s0, c, 0);
      var (s1, st1) := InitProc(s0, c, 0);
      if st1 == Ok {
        ReadyBuildable(s1.spaces, c.layout);
        InitProcMeans(s1, c, 1);
        var (s2, st2) := InitProc(s1, c, 1);
        assert s2.procs == [Seeded(c, 0), Seeded(c, 1)];
        ApartSlots(s2, c);
      }
    }
  }

  lemma ReadyBuildable(s: P.Spaces, l: P.Layout)
    requires |l.pml4| == |l.pdpt| == |l.pd0| == |l.backing| == SLOTS && s.ready
    ensures Buildable(s, l)
  {
  }

  lemma ApartSlots(s: Sys, c: Config)
    requires Wf(s, c) && s.spaces.ready
    ensures |c.layout.pml4| == |c.layout.backing| == SLOTS
    ensures c.layout.pml4[0] != c.layout.pml4[1] && c.layout.backing[0] != c.layout.backing[1]
  {
    P.ApartTables(c.layout);
  }
}
