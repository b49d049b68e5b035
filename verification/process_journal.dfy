/** The event journal of the bootstrap processes is append-only: what was committed stays, and stays valid. */
module ProcessJournal {
  import opened Types
  import P = Paging
  import opened ProcessSpec
  import opened ProcessTheorems

  lemma PrepareAppends(s: Sys, c: Config, slot: nat, executable: bool)
    requires Wf(s, c)
    ensures Prepare(s, c, slot, executable).0.events == s.events
  {
    hide P.Inv;
  }

  lemma CancelAppends(s: Sys, c: Config, p: nat)
    requires Wf(s, c) && p < SLOTS
    ensures Cancel(s, c, p).0.events == s.events
  {
    hide P.Inv;
  }

  // The machine work of the guards does not touch the journal.

  lemma SwitchAside(s: Sys, c: Config, sp: Space, g: SpaceGuard)
    ensures SpaceActivate(s, c, sp, g).0.events == s.events
  {
    hide RestoreInterrupts;
    forall t: Sys, h: SpaceGuard ensures RestoreInterrupts(t, c, h).0.events == t.events {
      IrqAside(t, c, h);
    }
  }

  lemma IrqAside(s: Sys, c: Config, g: SpaceGuard)
    ensures RestoreInterrupts(s, c, g).0.events == s.events
  {
  }

  lemma SpacesAside(s: Sys, c: Config, g: SpaceGuard)
    ensures SpaceRestore(s, c, g).0.events == s.events && RestoreDeferred(s, c, g).0.events == s.events
  {
    hide RestoreInterrupts;
    var (s1, g1, _) := RestoreDeferred(s, c, g);
    IrqAside(s1, c, g1);
  }

  lemma StacksAside(s: Sys, c: Config, base: nat, g: StackGuard)
    ensures StackPublish(s, c, base, g).0.events == s.events && StackRestore(s, c, g).0.events == s.events
  {
  }

  lemma SealAside(s: Sys, c: Config, p: nat)
    requires Wf(s, c) && p < SLOTS
    ensures SlotSeal(s, c, p).0.events == s.events
  {
    hide P.Inv;
  }

  lemma OwnAppends(s: Sys, c: Config, p: nat, g: Guard)
    requires Wf(s, c) && p < SLOTS
    ensures s.events <= Own(s, c, p, g).0.events
  {
    hide P.Inv, FieldsValid;
  }

  lemma RollbackAside(s: Sys, c: Config, g: Guard)
    requires Wf(s, c)
    ensures Rollback(s, c, g).0.events == s.events
  {
    hide Wf, StackRestore, SpaceRestore;
    StacksAside(s, c, 0, g.stack);
    SpacesAside(StackRestore(s, c, g.stack).0, c, g.space);
  }

  lemma PublishStackAppends(s: Sys, c: Config, p: nat, space: SpaceGuard)
    requires Wf(s, c) && p < SLOTS
    ensures s.events <= PublishStack(s, c, p, space).0.events
  {
    hide P.Inv, StackPublish, SpaceRestore, Rollback, Own;
    var stack := StackPublish(s, c, c.stackBase[p], NoGuard().stack);
    StacksAside(s, c, c.stackBase[p], NoGuard().stack);
    PublishWf(s, c, p);
    SpacesAside(stack.0, c, space);
    RollbackAside(stack.0, c, NoGuard().(space := space, stack := stack.1));
    OwnAppends(stack.0, c, p, NoGuard().(space := space, stack := stack.1));
  }

  lemma PublishWf(s: Sys, c: Config, p: nat)
    requires Wf(s, c) && p < SLOTS
    ensures Wf(StackPublish(s, c, c.stackBase[p], NoGuard().stack).0, c)
  {
    hide P.Inv;
  }

  lemma ActivateAppends(s: Sys, c: Config, p: nat, g: Guard)
    requires Wf(s, c) && p < SLOTS
    ensures s.events <= Activate(s, c, p, g).0.events
  {
    hide P.Inv, SpaceActivate, PublishStack;
    var s1 := WithProc(s, p, s.procs[p].(run := FreshRun()));
    SwitchAside(s1, c, s1.procs[p].space, NoGuard().space);
    SwitchWf(s1, c, p);
    var switched := SpaceActivate(s1, c, s1.procs[p].space, NoGuard().space);
    PublishStackAppends(switched.0, c, p, switched.1);
  }

  lemma SwitchWf(s: Sys, c: Config, p: nat)
    requires Wf(s, c) && p < SLOTS
    ensures Wf(SpaceActivate(s, c, s.procs[p].space, NoGuard().space).0, c)
  {
    hide P.Inv;
  }

  lemma PublishAppends(s: Sys, c: Config, p: nat, g: Guard)
    requires Wf(s, c) && p < SLOTS
    ensures s.events <= Publish(s, c, p, g).0.events
  {
    hide P.Inv, FieldsValid, RestoreInterrupts, ReleaseEvent;
    IrqAside(Append(s, c, ReleaseEvent(s, c, p, g)).0, c, g.space);
  }

  lemma FinishAppends(s: Sys, c: Config, p: nat, g: Guard)
    requires Wf(s, c) && p < SLOTS
    ensures s.events <= Finish(s, c, p, g).0.events
  {
    hide P.Inv, Publish, StackRestore, RestoreDeferred, SlotSeal, EntriesWithin;
    var (s1, stack, st1) := StackRestore(s, c, g.stack);
    StacksAside(s, c, 0, g.stack);
    var (s2, space, st2) := RestoreDeferred(s1, c, g.space);
    SpacesAside(s1, c, g.space);
    RestoredWf(s, c, g);
    SealAside(s2, c, p);
    var (s3, nx, st3) := SlotSeal(s2, c, p);
    var g3 := g.(stack := stack, space := space, sealed := st3 == Ok, nxEnforced := nx);
    var s4 := WithProc(s3, p, s.procs[p].(active := false, prepared := false)).(current := None, currentPid := 0);
    PublishAppends(s4, c, p, g3);
  }

  lemma RestoredWf(s: Sys, c: Config, g: Guard)
    requires Wf(s, c)
    ensures Wf(StackRestore(s, c, g.stack).0, c) && Wf(RestoreDeferred(StackRestore(s, c, g.stack).0, c, g.space).0, c)
  {
    hide P.Inv;
  }

  lemma TrapAppends(s: Sys, c: Config, frame: Frame, liveAc: bool)
    requires Wf(s, c) && (s.current.Some? ==> s.current.value < SLOTS)
    ensures s.events <= CaptureTrap(s, c, frame, liveAc).0.events
  {
    hide P.Inv;
  }

  /** Initialisation clears the journal, but only before anything was committed. */
  lemma InitAppends(s: Sys, g: Guard, c: Config)
    requires Inv(s, g, c)
    ensures s.events <= Init(s, c).0.events
  {
    hide P.Inv;
  }

  /** A step never drops or rewrites a committed event. */
  lemma StepAppends(w: World, c: Config, cmd: Cmd)
    requires WorldInv(w, c) && w.Running? && Legal(w.sys, cmd) && Step(w, c, cmd).Running?
    ensures w.sys.events <= Step(w, c, cmd).sys.events
  {
    hide P.Inv, Init, Prepare, Cancel, Activate, Finish, CaptureTrap, Ownership, Journal;
    var s, g := w.sys, w.guard;
    match cmd
    case InitCmd => InitAppends(s, g, c);
    case PrepareCmd(slot, executable) => PrepareAppends(s, c, slot, executable);
    case CancelCmd(p) => CancelAppends(s, c, p);
    case ActivateCmd(p) => ActivateAppends(s, c, p, NoGuard());
    case FinishCmd(p) => FinishAppends(s, c, p, g);
    case TrapCmd(frame, liveAc) =>
      if !(s.current.Some? && s.current.value >= SLOTS) {
        TrapAppends(s, c, frame, liveAc);
      }
    case UserCmd(_, _, _) =>
    case IrqCmd(_) =>
  }

  lemma {:induction false} RunAppends(w: World, c: Config, cmds: seq<Cmd>)
    requires WorldInv(w, c) && LegalRun(w, c, cmds) && Run(w, c, cmds).Running?
    ensures w.Running? && w.sys.events <= Run(w, c, cmds).sys.events
    decreases |cmds|
  {
    hide P.Inv, Ownership, Journal, Step, Legal;
    if cmds != [] {
      StepKeeps(w, c, cmds[0]);
      RunAppends(Step(w, c, cmds[0]), c, cmds[1..]);
      HaltedStays(w, c, cmds[0]);
      StepAppends(w, c, cmds[0]);
    }
  }

  lemma HaltedStays(w: World, c: Config, cmd: Cmd)
    requires WorldInv(w, c) && (w.Running? ==> Legal(w.sys, cmd)) && Step(w, c, cmd).Running?
    ensures w.Running?
  {
    hide P.Inv;
  }

  /** A run is a run of its first `n` commands followed by a run of the rest. */
  lemma {:induction false} RunSplits(w: World, c: Config, cmds: seq<Cmd>, n: nat)
    requires WorldInv(w, c) && LegalRun(w, c, cmds) && n <= |cmds|
    ensures LegalRun(w, c, cmds[..n]) && LegalRun(Run(w, c, cmds[..n]), c, cmds[n..])
    ensures Run(w, c, cmds) == Run(Run(w, c, cmds[..n]), c, cmds[n..])
    decreases n
  {
    hide P.Inv, Ownership, Journal, Step, Legal;
    if n == 0 {
      assert cmds[n..] == cmds;
    } else {
      StepKeeps(w, c, cmds[0]);
      RunSplits(Step(w, c, cmds[0]), c, cmds[1..], n - 1);
      assert cmds[..n][0] == cmds[0] && cmds[..n][1..] == cmds[1..][..n - 1] && cmds[n..] == cmds[1..][n - 1..];
    }
  }

  /** An event that was committed at any moment of a run is the same event at the end of it, and still valid. */
  lemma CommittedStays(w: World, c: Config, cmds: seq<Cmd>, n: nat, i: nat)
    requires WorldInv(w, c) && LegalRun(w, c, cmds) && n <= |cmds| && Run(w, c, cmds).Running?
    requires LegalRun(w, c, cmds[..n]) && Run(w, c, cmds[..n]).Running? && i < |Run(w, c, cmds[..n]).sys.events|
    ensures var e := Run(w, c, cmds[..n]).sys.events[i]; var later := Run(w, c, cmds).sys;
            && i < |later.events| && later.events[i] == e
            && FieldsValid(e, later, c) && e.sequence == i + 1
            && (later.current.None? ==> GetEvent(later, c, i) == (Some(e), Ok))
  {
    hide P.Inv, Run, LegalRun, Inv;
    RunSplits(w, c, cmds, n);
    RunAppends(Run(w, c, cmds[..n]), c, cmds[n..]);
    JournalMeans(w, c, cmds, i);
  }
}
