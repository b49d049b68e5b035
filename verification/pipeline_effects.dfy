/**
 What each section of the gate and of the pipeline registry leaves behind, who may change a pipeline, and whose mask a
 permit rests on over whole runs.
 */
module PipelineEffects {
  import opened Types
  import opened PipelineSpec
  import opened PipelineProofs
  import C = Capabilities

  // ---------- the gate ----------

  ghost predicate Registered(g: Gate, node: nat) {
    exists i :: 0 <= i < |g.entries| && g.entries[i].active && g.entries[i].node == node
  }

  /** Slot `i` is the first free one of the gate. */
  ghost predicate FirstFree(g: Gate, i: nat) {
    i < |g.entries| && !g.entries[i].active && forall j :: 0 <= j < i ==> g.entries[j].active
  }

  lemma {:induction false} FreeEntryFirst(es: seq<Entry>, n: nat)
    requires n <= |es|
    ensures FreeEntry(es, n).Some? ==> forall j :: n <= j < FreeEntry(es, n).value ==> es[j].active
    decreases |es| - n
  {
    if n < |es| && es[n].active {
      FreeEntryFirst(es, n + 1);
    }
  }

  /**
   nodebit_register: only capability bits, a node that is not registered, and a free slot. Then exactly the first free
   slot holds the node with that mask and that health flag, and its books start at zero.
   */
  lemma RegisterMeans(g: Gate, node: nat, caps: bv64, healthGate: bool)
    requires GateShaped(g)
    ensures var (g', status) := Register(g, node, caps, healthGate);
            && status == (if !C.Known(caps) then Inval else if Registered(g, node) then Busy
                          else if forall i :: 0 <= i < |g.entries| ==> g.entries[i].active then NoMem else Ok)
            && (status != Ok ==> g' == g)
            && (status == Ok ==> exists i: nat :: && FirstFree(g, i) && g'.entries == g.entries[i := Entry(true, node, caps, healthGate)]
                                                  && i < |g.stats| && g'.stats == g.stats[i := NodeStats(0, 0, 0, 0)])
  {
    hide CapsValid, C.Known;
    C.ValidIff(caps);
    FreeEntryFirst(g.entries, 0);
    var f := FindEntry(g.entries, node, 0);
    var i := FreeEntry(g.entries, 0);
    if i.Some? {
      assert FirstFree(g, i.value);
    }
  }

  ghost predicate Holds(g: Gate, node: nat, i: nat) { i < |g.entries| && g.entries[i].active && g.entries[i].node == node }

  /** nodebit_update_caps: exactly the mask of that node changes. */
  lemma UpdateMeans(g: Gate, node: nat, caps: bv64)
    requires GateShaped(g)
    ensures var (g', status) := UpdateCaps(g, node, caps);
            && status == (if !C.Known(caps) then Inval else if Registered(g, node) then Ok else NoDev)
            && (status != Ok ==> g' == g)
            && g'.stats == g.stats
            && (status == Ok ==> exists i: nat :: Holds(g, node, i) && g'.entries == g.entries[i := g.entries[i].(caps := caps)])
  {
    hide CapsValid, C.Known;
    C.ValidIff(caps);
    var f := FindEntry(g.entries, node, 0);
    if f.Some? {
      assert Holds(g, node, f.value);
    }
  }

  /** The health gate holds a request back. */
  predicate HeldBack(e: Entry, requested: bv64, healthy: bool) { e.healthGate && C.AsksRisky(requested) && !healthy }

  /**
   nodebit_evaluate, run without interruption. An unknown node is refused and nothing is recorded. For a known one the
   decision is that of its mask and of the health gate, and exactly its own books count one more evaluation, one more
   permit or denial, and a health block when that was the cause.
   */
  lemma EvaluateMeans(g: Gate, node: nat, requested: bv64, healthy: bool)
    requires GateOk(g)
    ensures var (g', permit) := Judge(g, node, requested, healthy);
            && g'.entries == g.entries && (!Registered(g, node) ==> g' == g && !permit)
            && forall i :: 0 <= i < |g.entries| && g.entries[i].active && g.entries[i].node == node ==>
                 var held := HeldBack(g.entries[i], requested, healthy); var within := C.Within(requested, g.entries[i].caps);
                 var st := g.stats[i];
                 && (permit <==> within && !held)
                 && g'.stats == g.stats[i := NodeStats(st.evaluations + 1, st.permits + (if permit then 1 else 0),
                                                       st.denies + (if permit then 0 else 1),
                                                       st.healthBlocks + (if within && held then 1 else 0))]
  {
    hide Decide, C.Within, C.AsksRisky, StatsOk;
    var f := FindEntry(g.entries, node, 0);
    if f.Some? {
      C.EvaluateIff(g.entries[f.value], requested, healthy);
    }
  }

  // ---------- whose mask a permit rests on ----------

  /** The mask of the active entry of the node. */
  function MaskOf(g: Gate, node: nat): Option<bv64> {
    match FindEntry(g.entries, node, 0)
    case None => None
    case Some(i) => Some(g.entries[i].caps)
  }

  /** The mask that the event sets for the node, if the call succeeds. */
  function Sets(g: Gate, ev: Event, node: nat): Option<bv64>
    requires GateShaped(g)
  {
    match ev
    case RegisterEv(n, caps, healthGate) => if n == node && Register(g, n, caps, healthGate).1 == Ok then Some(caps) else None
    case UpdateEv(n, caps) => if n == node && UpdateCaps(g, n, caps).1 == Ok then Some(caps) else None
    case _ => None
  }

  /** The mask that the last successful registration or update of the run gave the node, or else the one it had. */
  ghost function LastMask(w: World, evs: seq<Event>, node: nat): Option<bv64>
    requires Inv(w)
    decreases |evs|
  {
    if evs == [] then MaskOf(w.gate, node)
    else
      var before := evs[..|evs| - 1];
      var given := Sets(Run(w, before).gate, evs[|evs| - 1], node);
      if given.Some? then given else LastMask(w, before, node)
  }

  lemma {:induction false} RunLast(w: World, evs: seq<Event>)
    requires Inv(w) && evs != []
    ensures Run(w, evs) == Step(Run(w, evs[..|evs| - 1]), evs[|evs| - 1])
    decreases |evs|
  {
    hide GateOk, RegistryOk, LocalsOk, Step;
    StepKeeps(w, evs[0]);
    if |evs| > 1 {
      RunLast(Step(w, evs[0]), evs[1..]);
      assert evs[1..][..|evs| - 2] == evs[..|evs| - 1][1..];
    } else {
      assert evs[..0] == [] && evs[1..] == [];
      assert Run(Step(w, evs[0]), []) == Step(w, evs[0]);
    }
  }

  lemma EntryFound(g: Gate, i: nat)
    requires GateOk(g) && i < |g.entries| && g.entries[i].active
    ensures FindEntry(g.entries, g.entries[i].node, 0) == Some(i)
  {
    hide StatsOk;
    var f := FindEntry(g.entries, g.entries[i].node, 0);
  }

  lemma StepMask(w: World, ev: Event, node: nat)
    requires Inv(w)
    ensures MaskOf(Step(w, ev).gate, node) == if Sets(w.gate, ev, node).Some? then Sets(w.gate, ev, node) else MaskOf(w.gate, node)
  {
    hide GateOk, RegistryOk, LocalsOk, Register, UpdateCaps, MaskOf, Step;
    StepKeeps(w, ev);
    match ev
    case RegisterEv(n, caps, healthGate) =>
      GateSteps(w, ev);
      RegisterMask(w.gate, n, caps, healthGate, node);
    case UpdateEv(n, caps) =>
      GateSteps(w, ev);
      UpdateMask(w.gate, n, caps, node);
    case _ =>
      EntriesStay(w, ev);
      SameEntries(w.gate, Step(w, ev).gate, node);
  }

  lemma GateSteps(w: World, ev: Event)
    requires Shaped(w)
    ensures ev.RegisterEv? ==> Step(w, ev).gate == Register(w.gate, ev.node, ev.caps, ev.healthGate).0
    ensures ev.UpdateEv? ==> Step(w, ev).gate == UpdateCaps(w.gate, ev.node, ev.caps).0
  {
    hide Register, UpdateCaps;
  }

  /** Only registrations and updates change entries. */
  lemma EntriesStay(w: World, ev: Event)
    requires Shaped(w) && !ev.RegisterEv? && !ev.UpdateEv?
    ensures Step(w, ev).gate.entries == w.gate.entries
  {
    hide Decide, Requested, Record, FindEntry, Create, AddStage, Destroy, CopyOut, Conclude, GateShaped;
  }

  lemma SameEntries(g: Gate, g': Gate, node: nat)
    requires g'.entries == g.entries
    ensures MaskOf(g', node) == MaskOf(g, node)
  {
  }

  lemma RegisterMask(g: Gate, n: nat, caps: bv64, healthGate: bool, node: nat)
    requires GateOk(g) && GateOk(Register(g, n, caps, healthGate).0)
    ensures var (g', status) := Register(g, n, caps, healthGate);
            MaskOf(g', node) == if status == Ok && n == node then Some(caps) else MaskOf(g, node)
  {
    hide StatsOk, CapsValid;
    var (g', status) := Register(g, n, caps, healthGate);
    if status == Ok {
      var i := FreeEntry(g.entries, 0).value;
      EntryFound(g', i);
      if n != node {
        SameElsewhere(g, g', i, node);
      }
    }
  }

  lemma UpdateMask(g: Gate, n: nat, caps: bv64, node: nat)
    requires GateOk(g) && GateOk(UpdateCaps(g, n, caps).0)
    ensures var (g', status) := UpdateCaps(g, n, caps);
            MaskOf(g', node) == if status == Ok && n == node then Some(caps) else MaskOf(g, node)
  {
    hide StatsOk, CapsValid;
    var (g', status) := UpdateCaps(g, n, caps);
    if status == Ok {
      var i := FindEntry(g.entries, n, 0).value;
      EntryFound(g', i);
      if n != node {
        SameElsewhere(g, g', i, node);
      }
    }
  }

  /** A change of one entry does not change what is found for another node. */
  lemma SameElsewhere(g: Gate, g': Gate, i: nat, node: nat)
    requires GateOk(g) && GateOk(g') && i < |g.entries| && g'.entries == g.entries[i := g'.entries[i]]
    requires g'.entries[i].node != node && (g.entries[i].active ==> g.entries[i].node != node)
    ensures FindEntry(g'.entries, node, 0) == FindEntry(g.entries, node, 0)
  {
    hide StatsOk;
    var f := FindEntry(g.entries, node, 0);
    var f' := FindEntry(g'.entries, node, 0);
    if f.Some? {
      EntryFound(g', f.value);
    }
    if f'.Some? {
      EntryFound(g, f'.value);
    }
  }

  /** The gate always knows the last mask. */
  lemma {:induction false} MaskIsLast(w: World, evs: seq<Event>, node: nat)
    requires Inv(w)
    ensures MaskOf(Run(w, evs).gate, node) == LastMask(w, evs, node)
    decreases |evs|
  {
    hide Inv, Step, MaskOf, Sets;
    if evs != [] {
      MaskIsLast(w, evs[..|evs| - 1], node);
      RunLast(w, evs);
      StepMask(Run(w, evs[..|evs| - 1]), evs[|evs| - 1], node);
    } else {
      assert Run(w, evs) == w;
    }
  }

  /**
   After any interleaving, a thread is permitted only what the mask that was last registered or updated for its node
   allows: bit 11 for a pipeline call, and every requested bit for any other.
   */
  lemma PermitRestsOnMask(w: World, evs: seq<Event>, tid: nat, node: nat, call: Call, healthy: bool)
    requires Inv(w) && Shaped(Run(w, evs)) && At(Run(w, evs), tid).Idle?
    requires var l := At(Step(Run(w, evs), EnterEv(tid, node, call, healthy)), tid); l.Judged? && l.verdict.permit
    ensures LastMask(w, evs, node).Some?
    ensures var mask := LastMask(w, evs, node).value;
            if call.OtherCall? then C.Within(call.caps, mask) else C.Has(mask, 11)
  {
    hide Inv, Run, LastMask, Decide, C.Within, C.AsksRisky, C.Has;
    var g := Run(w, evs).gate;
    MaskIsLast(w, evs, node);
    var f := FindEntry(g.entries, node, 0);
    if f.Some? {
      C.EvaluateIff(g.entries[f.value], Requested(call), healthy);
      C.PipelineIff(g.entries[f.value], healthy);
    }
  }

  // ---------- the registry ----------

  /** Slot `i` is the first live one with the id. */
  ghost predicate Finds(r: Registry, id: nat, i: nat) {
    && id != 0 && i < |r.slots| && r.slots[i].state != FreeSlot && r.slots[i].id == id
    && forall j :: 0 <= j < i ==> r.slots[j].state == FreeSlot || r.slots[j].id != id
  }

  ghost predicate Exists(r: Registry, id: nat) {
    id != 0 && exists i :: 0 <= i < |r.slots| && r.slots[i].state != FreeSlot && r.slots[i].id == id
  }

  lemma {:induction false} FindPipeFirst(ps: seq<Pipe>, id: nat, n: nat)
    requires n <= |ps|
    ensures FindPipe(ps, id, n).Some? ==>
              forall j :: n <= j < FindPipe(ps, id, n).value ==> ps[j].state == FreeSlot || ps[j].id != id
    decreases |ps| - n
  {
    if n < |ps| && id != 0 && !(ps[n].state != FreeSlot && ps[n].id == id) {
      FindPipeFirst(ps, id, n + 1);
    }
  }

  lemma FindsIs(r: Registry, id: nat)
    ensures var f := FindPipe(r.slots, id, 0); (f.Some? <==> Exists(r, id)) && (f.Some? ==> Finds(r, id, f.value))
    ensures forall i: nat :: Finds(r, id, i) ==> FindPipe(r.slots, id, 0) == Some(i)
  {
    FindPipeFirst(r.slots, id, 0);
  }

  /** node_pipeline_create: an open pipeline without stages, owned by the node, under the next id; refused exactly when full. */
  lemma CreateMeans(r: Registry, node: nat)
    ensures var (r', status) := Create(r, node);
            && (status == Ok <==> exists i :: 0 <= i < |r.slots| && r.slots[i].state == FreeSlot)
            && (status != Ok ==> status == NoMem && r' == r)
            && (status == Ok ==>
                  && r' == r.(slots := r'.slots, nextId := (r.nextId + 1) % U32_LIMIT, births := r.births + 1)
                  && exists i :: 0 <= i < |r.slots| && r.slots[i].state == FreeSlot
                                 && r'.slots == r.slots[i := Pipe(r.nextId, node, Open, [], 0, Ok, r.births)])
  {
    var f := FreePipe(r.slots, 0);
  }

  /** node_pipeline_add_stage: only the owner, and at most eight stages; the stage goes to the end and the pipeline is ready. */
  lemma AddStageMeans(r: Registry, node: nat, id: nat, stage: Stage)
    ensures var (r', status) := AddStage(r, node, id, stage);
            && (!Exists(r, id) ==> status == NoDev && r' == r)
            && forall i: nat :: Finds(r, id, i) ==>
                 var p := r.slots[i];
                 && (p.owner != node ==> status == Perm && r' == r.(denied := r.denied + 1))
                 && (p.owner == node && |p.stages| >= 8 ==> status == NoMem && r' == r)
                 && (p.owner == node && |p.stages| < 8 ==>
                       status == Ok && r' == r.(slots := r.slots[i := p.(stages := p.stages + [stage], state := ReadyToRun)]))
  {
    FindsIs(r, id);
  }

  /** node_pipeline_destroy: only the owner; the slot is free again and nothing else changes. */
  lemma DestroyMeans(r: Registry, node: nat, id: nat)
    ensures var (r', status) := Destroy(r, node, id);
            && (!Exists(r, id) ==> status == NoDev && r' == r)
            && forall i: nat :: Finds(r, id, i) ==>
                 && (r.slots[i].owner != node ==> status == Perm && r' == r.(denied := r.denied + 1))
                 && (r.slots[i].owner == node ==>
                       && status == Ok && r' == r.(slots := r'.slots) && |r'.slots| == |r.slots| && r'.slots[i].state == FreeSlot
                       && forall j :: 0 <= j < |r.slots| && j != i ==> r'.slots[j] == r.slots[j])
  {
    FindsIs(r, id);
  }

  /** The first section of node_pipeline_execute: a ready pipeline of the node itself, or an error; nothing but a denial is counted. */
  lemma CopyOutMeans(r: Registry, node: nat, id: nat)
    ensures var (r', found, status) := CopyOut(r, node, id);
            && (!Exists(r, id) ==> status == NoDev && r' == r)
            && forall i: nat :: Finds(r, id, i) ==>
                 var p := r.slots[i];
                 && (p.owner != node ==> status == Perm && r' == r.(denied := r.denied + 1))
                 && (p.owner == node ==> r' == r && (if p.state == ReadyToRun && p.stages != [] then status == Ok && found == Some(i)
                                                     else status == Busy))
  {
    FindsIs(r, id);
  }

  /** The last section of node_pipeline_execute: the instance found under the id gets the outcome, and the totals of a success. */
  lemma ConcludeMeans(r: Registry, id: nat, stages: nat, success: bool)
    ensures var r' := Conclude(r, id, stages, success);
            && r'.lastStatus == (if success then Ok else Accel) && r'.nextId == r.nextId && r'.births == r.births && r'.denied == r.denied
            && r'.executions == r.executions + (if success then 1 else 0)
            && r'.stageRuns == r.stageRuns + (if success then stages else 0)
            && (!Exists(r, id) ==> r'.slots == r.slots)
            && forall i: nat :: Finds(r, id, i) ==>
                 r'.slots == r.slots[i := r.slots[i].(executions := r.slots[i].executions + (if success then 1 else 0),
                                                      lastStatus := if success then Ok else Accel)]
  {
    FindsIs(r, id);
  }

  /**
   Whatever the interleaving, a live pipeline loses its slot or changes its stages only in a section of a permitted
   thread of its own node.
   */
  lemma OnlyOwnerChanges(w: World, ev: Event, i: nat)
    requires Shaped(w) && i < |w.registry.slots| && w.registry.slots[i].state != FreeSlot
    ensures i < |Step(w, ev).registry.slots|
    ensures !Alike(w.registry.slots[i], Step(w, ev).registry.slots[i]) ==>
              ev.ActEv? && At(w, ev.tid).Permitted? && At(w, ev.tid).node == w.registry.slots[i].owner
  {
    hide Register, UpdateCaps, Decide, Requested, Record, FindEntry, GateShaped, Create, AddStage, Destroy, CopyOut, Conclude, Alike;
    SectionsSpare(w.registry, i);
  }

  /** The same instance with the same stages. */
  predicate Alike(p: Pipe, q: Pipe) { q.state == p.state && q.stages == p.stages && q.birth == p.birth && q.owner == p.owner }

  /** What the sections leave of a live pipeline that is not the caller's. */
  lemma SectionsSpare(r: Registry, i: nat)
    requires i < |r.slots| && r.slots[i].state != FreeSlot
    ensures Alike(r.slots[i], r.slots[i])
    ensures forall node: nat :: |Create(r, node).0.slots| == |r.slots| && Alike(r.slots[i], Create(r, node).0.slots[i])
    ensures forall node: nat, id: nat :: |CopyOut(r, node, id).0.slots| == |r.slots| && Alike(r.slots[i], CopyOut(r, node, id).0.slots[i])
    ensures forall id: nat, n: nat, ok: bool ::
              |Conclude(r, id, n, ok).slots| == |r.slots| && Alike(r.slots[i], Conclude(r, id, n, ok).slots[i])
    ensures forall node: nat, id: nat, stage: Stage :: |AddStage(r, node, id, stage).0.slots| == |r.slots|
              && (node != r.slots[i].owner ==> Alike(r.slots[i], AddStage(r, node, id, stage).0.slots[i]))
    ensures forall node: nat, id: nat :: |Destroy(r, node, id).0.slots| == |r.slots|
              && (node != r.slots[i].owner ==> Alike(r.slots[i], Destroy(r, node, id).0.slots[i]))
  {
  }

  /** A permitted thread runs the section of its own call, for its own node, and leaves the gate and the other threads alone. */
  lemma ActMeans(w: World, tid: nat)
    requires Shaped(w) && tid < |w.threads| && w.threads[tid].Permitted?
    ensures var l := w.threads[tid]; var r := w.registry; var w' := Step(w, ActEv(tid));
            && w'.gate == w.gate && w'.acts == w.acts + 1 && w'.threads == w.threads[tid := w'.threads[tid]]
            && (match l.call
                case CreateCall => w'.registry == Create(r, l.node).0 && w'.threads[tid] == Idle
                case AddCall(id, stage) => w'.registry == AddStage(r, l.node, id, stage).0 && w'.threads[tid] == Idle
                case DestroyCall(id) => w'.registry == Destroy(r, l.node, id).0 && w'.threads[tid] == Idle
                case OtherCall(_) => w'.registry == r && w'.threads[tid] == Idle
                case ExecCall(id) =>
                  && w'.registry == CopyOut(r, l.node, id).0
                  && forall i: nat :: Finds(r, id, i) ==>
                       var p := r.slots[i];
                       w'.threads[tid] == if p.owner == l.node && p.state == ReadyToRun && p.stages != []
                                          then Copied(l.node, id, p.stages, p.birth) else Idle)
  {
    var l := w.threads[tid];
    if l.call.ExecCall? {
      FindsIs(w.registry, l.call.id);
    }
  }
}
