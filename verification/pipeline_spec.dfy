/**
 The policy gate and the pipeline registry, cut into their lock-protected sections. Callers are
 threads that run these sections one at a time in any order. Every pipeline instance carries its
 birth number, the count of creations before it; no decision depends on it.
 */
module PipelineSpec {
  import opened Types

  const MAX_ENTRIES: nat := 64
  const MAX_PIPELINES: nat := 16
  const MAX_STAGES: nat := 8
  const CAP_ALL: bv64 := 0xFFF
  const CAP_PIPELINE: bv64 := 0x800
  const CAP_RISKY: bv64 := 0x330

  // ---------- the gate ----------

  datatype Entry = Entry(active: bool, node: nat, caps: bv64, healthGate: bool)
  datatype NodeStats = NodeStats(evaluations: nat, permits: nat, denies: nat, healthBlocks: nat)
  datatype Gate = Gate(entries: seq<Entry>, stats: seq<NodeStats>)

  predicate CapsValid(caps: bv64) { caps & !CAP_ALL == 0 }
  predicate Covers(allowed: bv64, requested: bv64) { requested & allowed == requested }
  predicate Risky(requested: bv64) { requested & CAP_RISKY != 0 }

  ghost predicate GateShaped(g: Gate) { |g.entries| == |g.stats| == MAX_ENTRIES }

  /** find_entry_locked */
  function FindEntry(es: seq<Entry>, node: nat, n: nat): (i: Option<nat>)
    requires n <= |es|
    ensures i.Some? ==> n <= i.value < |es| && es[i.value].active && es[i.value].node == node
    ensures i.None? ==> forall j :: n <= j < |es| ==> !(es[j].active && es[j].node == node)
    decreases |es| - n
  {
    if n == |es| then None else if es[n].active && es[n].node == node then Some(n) else FindEntry(es, node, n + 1)
  }

  /** find_free_slot_locked of the gate */
  function FreeEntry(es: seq<Entry>, n: nat): (i: Option<nat>)
    requires n <= |es|
    ensures i.Some? ==> n <= i.value < |es| && !es[i.value].active
    ensures i.None? ==> forall j :: n <= j < |es| ==> es[j].active
    decreases |es| - n
  {
    if n == |es| then None else if !es[n].active then Some(n) else FreeEntry(es, n + 1)
  }

  /** nodebit_register */
  function Register(g: Gate, node: nat, caps: bv64, healthGate: bool): (r: (Gate, Status))
    requires GateShaped(g)
    ensures GateShaped(r.0)
  {
    if !CapsValid(caps) then (g, Inval)
    else if FindEntry(g.entries, node, 0).Some? then (g, Busy)
    else match FreeEntry(g.entries, 0)
      case None => (g, NoMem)
      case Some(i) => (Gate(g.entries[i := Entry(true, node, caps, healthGate)], g.stats[i := NodeStats(0, 0, 0, 0)]), Ok)
  }

  /** nodebit_update_caps */
  function UpdateCaps(g: Gate, node: nat, caps: bv64): (r: (Gate, Status))
    requires GateShaped(g)
    ensures GateShaped(r.0)
  {
    if !CapsValid(caps) then (g, Inval)
    else match FindEntry(g.entries, node, 0)
      case None => (g, NoDev)
      case Some(i) => (g.(entries := g.entries[i := g.entries[i].(caps := caps)]), Ok)
  }

  /** The decision of nodebit_evaluate for an entry as it was read under the lock. */
  datatype Verdict = Verdict(permit: bool, byHealth: bool)

  function Decide(e: Entry, requested: bv64, healthy: bool): Verdict {
    if !Covers(e.caps, requested) then Verdict(false, false)
    else if e.healthGate && Risky(requested) && !healthy then Verdict(false, true)
    else Verdict(true, false)
  }

  /** record_decision */
  function Record(st: NodeStats, v: Verdict): NodeStats {
    NodeStats(st.evaluations + 1, st.permits + (if v.permit then 1 else 0), st.denies + (if v.permit then 0 else 1),
              st.healthBlocks + (if v.byHealth then 1 else 0))
  }

  /** nodebit_evaluate, run without interruption: whether it permits, and the decision on record for a known node. */
  function Judge(g: Gate, node: nat, requested: bv64, healthy: bool): (r: (Gate, bool))
    requires GateShaped(g)
    ensures GateShaped(r.0) && r.0.entries == g.entries
  {
    match FindEntry(g.entries, node, 0)
    case None => (g, false)
    case Some(i) =>
      var v := Decide(g.entries[i], requested, healthy);
      (g.(stats := g.stats[i := Record(g.stats[i], v)]), v.permit)
  }

  // ---------- the registry ----------

  datatype Stage = Stage(model: nat, input: nat, output: nat, accel: nat)
  datatype PipeState = FreeSlot | Open | ReadyToRun
  datatype Pipe = Pipe(id: nat, owner: nat, state: PipeState, stages: seq<Stage>, executions: nat, lastStatus: Status, birth: nat)

  datatype Registry = Registry(
    slots: seq<Pipe>, nextId: nat, births: nat, executions: nat, stageRuns: nat, denied: nat, lastStatus: Status)

  function NoPipe(): Pipe { Pipe(0, 0, FreeSlot, [], 0, Ok, 0) }

  function FreshRegistry(): Registry {
    Registry(seq(MAX_PIPELINES, _ => NoPipe()), 1, 0, 0, 0, 0, Ok)
  }

  /** find_pipeline_locked */
  function FindPipe(ps: seq<Pipe>, id: nat, n: nat): (i: Option<nat>)
    requires n <= |ps|
    ensures i.Some? ==> id != 0 && n <= i.value < |ps| && ps[i.value].state != FreeSlot && ps[i.value].id == id
    ensures i.None? && id != 0 ==> forall j :: n <= j < |ps| ==> ps[j].state == FreeSlot || ps[j].id != id
    decreases |ps| - n
  {
    if n == |ps| || id == 0 then None
    else if ps[n].state != FreeSlot && ps[n].id == id then Some(n) else FindPipe(ps, id, n + 1)
  }

  /** find_free_slot_locked of the registry */
  function FreePipe(ps: seq<Pipe>, n: nat): (i: Option<nat>)
    requires n <= |ps|
    ensures i.Some? ==> n <= i.value < |ps| && ps[i.value].state == FreeSlot
    ensures i.None? ==> forall j :: n <= j < |ps| ==> ps[j].state != FreeSlot
    decreases |ps| - n
  {
    if n == |ps| then None else if ps[n].state == FreeSlot then Some(n) else FreePipe(ps, n + 1)
  }

  function WithPipe(r: Registry, i: nat, p: Pipe): Registry
    requires i < |r.slots|
  {
    r.(slots := r.slots[i := p])
  }

  /** The section of node_pipeline_create. */
  function Create(r: Registry, node: nat): (x: (Registry, Status)) {
    match FreePipe(r.slots, 0)
    case None => (r, NoMem)
    case Some(i) =>
      (WithPipe(r, i, Pipe(r.nextId, node, Open, [], 0, Ok, r.births)).(
         nextId := (r.nextId + 1) % U32_LIMIT, births := r.births + 1), Ok)
  }

  /** The section of node_pipeline_add_stage. */
  function AddStage(r: Registry, node: nat, id: nat, stage: Stage): (x: (Registry, Status)) {
    match FindPipe(r.slots, id, 0)
    case None => (r, NoDev)
    case Some(i) =>
      var p := r.slots[i];
      if p.owner != node then (r.(denied := r.denied + 1), Perm)
      else if |p.stages| >= MAX_STAGES then (r, NoMem)
      else (WithPipe(r, i, p.(stages := p.stages + [stage], state := ReadyToRun)), Ok)
  }

  /** The first section of node_pipeline_execute: what is copied out under the lock. */
  function CopyOut(r: Registry, node: nat, id: nat): (x: (Registry, Option<nat>, Status))
    ensures x.1.Some? ==> x.1.value < |r.slots|
    ensures x.1.Some? <==> x.2 == Ok
  {
    match FindPipe(r.slots, id, 0)
    case None => (r, None, NoDev)
    case Some(i) =>
      var p := r.slots[i];
      if p.owner != node then (r.(denied := r.denied + 1), None, Perm)
      else if p.state != ReadyToRun || p.stages == [] then (r, None, Busy)
      else (r, Some(i), Ok)
  }

  /** The last section of node_pipeline_execute, after the stages ran or one of them failed. */
  function Conclude(r: Registry, id: nat, stages: nat, success: bool): (r': Registry) {
    var found := FindPipe(r.slots, id, 0);
    if !success then
      var r1 := if found.Some? then WithPipe(r, found.value, r.slots[found.value].(lastStatus := Accel)) else r;
      r1.(lastStatus := Accel)
    else
      var r1 := if found.Some? then
                  var p := r.slots[found.value];
                  WithPipe(r, found.value, p.(executions := p.executions + 1, lastStatus := Ok))
                else r;
      r1.(executions := r.executions + 1, stageRuns := r.stageRuns + stages, lastStatus := Ok)
  }

  /** The section of node_pipeline_destroy. */
  function Destroy(r: Registry, node: nat, id: nat): (x: (Registry, Status)) {
    match FindPipe(r.slots, id, 0)
    case None => (r, NoDev)
    case Some(i) =>
      if r.slots[i].owner != node then (r.(denied := r.denied + 1), Perm) else (WithPipe(r, i, NoPipe()), Ok)
  }

  /** The section of gate_check that counts a refusal. */
  function CountDenied(r: Registry): Registry { r.(denied := r.denied + 1) }

  predicate Runnable(stages: seq<Stage>, accelerators: nat) {
    forall i :: 0 <= i < |stages| ==> stages[i].accel < accelerators
  }

  /** node_pipeline_execute, run without interruption. */
  function Execution(g: Gate, r: Registry, node: nat, id: nat, healthy: bool, accelerators: nat): (x: (Gate, Registry, Status))
    requires GateShaped(g)
    ensures GateShaped(x.0)
  {
    var (g', permit) := Judge(g, node, CAP_PIPELINE, healthy);
    if !permit then (g', CountDenied(r), Perm)
    else
      var (r', found, status) := CopyOut(r, node, id);
      if found.None? then (g', r', status)
      else
        var stages := r.slots[found.value].stages;
        (g', Conclude(r', id, |stages|, Runnable(stages, accelerators)), if Runnable(stages, accelerators) then Ok else Accel)
  }

  // ---------- threads ----------

  datatype Call =
    | CreateCall
    | AddCall(id: nat, stage: Stage)
    | ExecCall(id: nat)
    | DestroyCall(id: nat)
    | OtherCall(caps: bv64)

  function Requested(c: Call): bv64 { if c.OtherCall? then c.caps else CAP_PIPELINE }

  /** Where a thread is between two sections, with what it holds on its stack. */
  datatype Local =
    | Idle
    | Judged(node: nat, call: Call, slot: nat, verdict: Verdict)
    | Refused
    | Permitted(node: nat, call: Call)
    | Copied(node: nat, id: nat, stages: seq<Stage>, birth: nat)

  datatype World = World(gate: Gate, registry: Registry, threads: seq<Local>, acts: nat)

  /** The thread whose turn it is, and what the world around it contributes. */
  datatype Event =
    | RegisterEv(node: nat, caps: bv64, healthGate: bool)
    | UpdateEv(node: nat, caps: bv64)
    | EnterEv(tid: nat, node: nat, call: Call, healthy: bool)
    | RecordEv(tid: nat)
    | DenyEv(tid: nat)
    | ActEv(tid: nat)
    | ConcludeEv(tid: nat, success: bool)

  ghost predicate Shaped(w: World) { GateShaped(w.gate) && |w.registry.slots| == MAX_PIPELINES }

  function At(w: World, tid: nat): Local { if tid < |w.threads| then w.threads[tid] else Idle }

  function Goto(w: World, tid: nat, l: Local): World {
    if tid < |w.threads| then w.(threads := w.threads[tid := l]) else w
  }

  /** The section a permitted thread runs, and where it goes next. */
  function Act(w: World, tid: nat, node: nat, call: Call): World {
    var r := w.registry;
    var w1 := w.(acts := w.acts + 1);
    match call
    case CreateCall => Goto(w1.(registry := Create(r, node).0), tid, Idle)
    case AddCall(id, stage) => Goto(w1.(registry := AddStage(r, node, id, stage).0), tid, Idle)
    case DestroyCall(id) => Goto(w1.(registry := Destroy(r, node, id).0), tid, Idle)
    case ExecCall(id) =>
      var (r', found, _) := CopyOut(r, node, id);
      Goto(w1.(registry := r'), tid,
           if found.Some? && found.value < |r.slots|
           then Copied(node, id, r.slots[found.value].stages, r.slots[found.value].birth) else Idle)
    case OtherCall(_) => Goto(w1, tid, Idle)
  }

  /** One atomic section of one thread. An event that does not fit the thread's place does nothing. */
  function Step(w: World, ev: Event): (w': World)
    requires Shaped(w)
  {
    match ev
    case RegisterEv(node, caps, healthGate) => w.(gate := Register(w.gate, node, caps, healthGate).0)
    case UpdateEv(node, caps) => w.(gate := UpdateCaps(w.gate, node, caps).0)
    case EnterEv(tid, node, call, healthy) =>
      if !At(w, tid).Idle? then w
      else (match FindEntry(w.gate.entries, node, 0)
            case None => Goto(w, tid, if call.OtherCall? then Idle else Refused)
            case Some(i) => Goto(w, tid, Judged(node, call, i, Decide(w.gate.entries[i], Requested(call), healthy))))
    case RecordEv(tid) =>
      (match At(w, tid)
       case Judged(node, call, slot, verdict) =>
         if slot >= |w.gate.stats| then w
         else Goto(w.(gate := w.gate.(stats := w.gate.stats[slot := Record(w.gate.stats[slot], verdict)])), tid,
                   if verdict.permit then Permitted(node, call) else if call.OtherCall? then Idle else Refused)
       case _ => w)
    case DenyEv(tid) => if At(w, tid).Refused? then Goto(w.(registry := CountDenied(w.registry)), tid, Idle) else w
    case ActEv(tid) =>
      (match At(w, tid)
       case Permitted(node, call) => Act(w, tid, node, call)
       case _ => w)
    case ConcludeEv(tid, success) =>
      (match At(w, tid)
       case Copied(_, id, stages, _) => Goto(w.(registry := Conclude(w.registry, id, |stages|, success)), tid, Idle)
       case _ => w)
  }
}
