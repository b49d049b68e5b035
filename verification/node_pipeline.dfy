/**
 The policy gate and the pipeline registry as the source runs them: fixed tables scanned by
 loops under a lock. Each method is one lock-protected section, or a call that runs several of
 them in a row; the sections do exactly what PipelineSpec says.
 */
module NodePipeline {
  import opened Types
  import opened PipelineSpec
  import Proofs = PipelineProofs

  lemma {:induction false} FirstEntryIs(es: seq<Entry>, node: nat, n: nat, p: nat)
    requires n <= p <= |es| && forall j :: n <= j < p ==> !(es[j].active && es[j].node == node)
    requires p < |es| ==> es[p].active && es[p].node == node
    ensures FindEntry(es, node, n) == if p < |es| then Some(p) else None
    decreases p - n
  {
    if n < p {
      FirstEntryIs(es, node, n + 1, p);
    }
  }

  lemma {:induction false} FirstFreeIs(es: seq<Entry>, n: nat, p: nat)
    requires n <= p <= |es| && forall j :: n <= j < p ==> es[j].active
    requires p < |es| ==> !es[p].active
    ensures FreeEntry(es, n) == if p < |es| then Some(p) else None
    decreases p - n
  {
    if n < p {
      FirstFreeIs(es, n + 1, p);
    }
  }

  lemma {:induction false} FirstPipeIs(ps: seq<Pipe>, id: nat, n: nat, p: nat)
    requires n <= p <= |ps| && id != 0 && forall j :: n <= j < p ==> ps[j].state == FreeSlot || ps[j].id != id
    requires p < |ps| ==> ps[p].state != FreeSlot && ps[p].id == id
    ensures FindPipe(ps, id, n) == if p < |ps| then Some(p) else None
    decreases p - n
  {
    if n < p {
      FirstPipeIs(ps, id, n + 1, p);
    }
  }

  lemma {:induction false} FirstSlotIs(ps: seq<Pipe>, n: nat, p: nat)
    requires n <= p <= |ps| && forall j :: n <= j < p ==> ps[j].state != FreeSlot
    requires p < |ps| ==> ps[p].state == FreeSlot
    ensures FreePipe(ps, n) == if p < |ps| then Some(p) else None
    decreases p - n
  {
    if n < p {
      FirstSlotIs(ps, n + 1, p);
    }
  }

  class GateTable {
    const entries: array<Entry>
    const stats: array<NodeStats>

    ghost predicate Valid()
      reads entries, stats
    {
      entries.Length == stats.Length == MAX_ENTRIES
    }

    ghost function Abs(): (g: Gate)
      requires Valid()
      reads entries, stats
      ensures GateShaped(g)
    {
      Gate(entries[..], stats[..])
    }

    /** nodebit_init */
    constructor ()
      ensures Valid() && fresh(entries) && fresh(stats) && Abs() == Proofs.FreshGate()
    {
      entries := new Entry[MAX_ENTRIES](_ => Entry(false, 0, 0, false));
      stats := new NodeStats[MAX_ENTRIES](_ => NodeStats(0, 0, 0, 0));
    }

    /** find_entry_locked */
    method FindNode(node: nat) returns (i: Option<nat>)
      requires Valid()
      ensures i == FindEntry(entries[..], node, 0)
    {
      var n := 0;
      while n < MAX_ENTRIES
        invariant 0 <= n <= MAX_ENTRIES && forall j :: 0 <= j < n ==> !(entries[j].active && entries[j].node == node)
      {
        if entries[n].active && entries[n].node == node {
          FirstEntryIs(entries[..], node, 0, n);
          return Some(n);
        }
        n := n + 1;
      }
      FirstEntryIs(entries[..], node, 0, n);
      i := None;
    }

    /** find_free_slot_locked */
    method FindFree() returns (i: Option<nat>)
      requires Valid()
      ensures i == FreeEntry(entries[..], 0)
    {
      var n := 0;
      while n < MAX_ENTRIES
        invariant 0 <= n <= MAX_ENTRIES && forall j :: 0 <= j < n ==> entries[j].active
      {
        if !entries[n].active {
          FirstFreeIs(entries[..], 0, n);
          return Some(n);
        }
        n := n + 1;
      }
      FirstFreeIs(entries[..], 0, n);
      i := None;
    }

    /** nodebit_register */
    method RegisterNode(node: nat, caps: bv64, healthGate: bool) returns (status: Status)
      requires Valid()
      modifies entries, stats
      ensures Valid() && (Abs(), status) == Register(old(Abs()), node, caps, healthGate)
    {
      hide CapsValid, FindEntry, FreeEntry;
      if !CapsValid(caps) {
        return Inval;
      }
      var found := FindNode(node);
      if found.Some? {
        return Busy;
      }
      var slot := FindFree();
      if slot.None? {
        return NoMem;
      }
      entries[slot.value] := Entry(true, node, caps, healthGate);
      stats[slot.value] := NodeStats(0, 0, 0, 0);
      assert entries[..] == old(entries[..])[slot.value := Entry(true, node, caps, healthGate)];
      assert stats[..] == old(stats[..])[slot.value := NodeStats(0, 0, 0, 0)];
      status := Ok;
    }

    /** nodebit_update_caps */
    method UpdateNodeCaps(node: nat, caps: bv64) returns (status: Status)
      requires Valid()
      modifies entries
      ensures Valid() && (Abs(), status) == UpdateCaps(old(Abs()), node, caps)
    {
      hide CapsValid, FindEntry;
      if !CapsValid(caps) {
        return Inval;
      }
      var found := FindNode(node);
      if found.None? {
        return NoDev;
      }
      entries[found.value] := entries[found.value].(caps := caps);
      assert entries[..] == old(entries[..])[found.value := old(entries[..])[found.value].(caps := caps)];
      status := Ok;
    }

    /** record_decision */
    method RecordDecision(slot: nat, v: Verdict)
      requires Valid() && slot < MAX_ENTRIES
      modifies stats
      ensures Valid() && Abs() == old(Abs()).(stats := old(stats[..])[slot := Record(old(stats[slot]), v)])
    {
      stats[slot] := Record(stats[slot], v);
      assert stats[..] == old(stats[..])[slot := Record(old(stats[slot]), v)];
    }

    /** nodebit_evaluate, run without interruption: the decision, and its record for a known node. */
    method Evaluate(node: nat, requested: bv64, healthy: bool) returns (v: Verdict, status: Status)
      requires Valid()
      modifies stats
      ensures Valid()
      ensures match FindEntry(old(entries[..]), node, 0)
              case None => status == NoDev && !v.permit && Abs() == old(Abs())
              case Some(i) =>
                && status == Ok && v == Decide(old(entries[..])[i], requested, healthy)
                && Abs() == old(Abs()).(stats := old(stats[..])[i := Record(old(stats[..])[i], v)])
    {
      hide Covers, Risky, Record, FindEntry;
      var found := FindNode(node);
      if found.None? {
        return Verdict(false, false), NoDev;
      }
      var e := entries[found.value];
      if !Covers(e.caps, requested) {
        v := Verdict(false, false);
      } else if e.healthGate && Risky(requested) && !healthy {
        v := Verdict(false, true);
      } else {
        v := Verdict(true, false);
      }
      RecordDecision(found.value, v);
      status := Ok;
    }

    /** nodebit_stats_summary */
    method Summary() returns (active: nat, total: NodeStats)
      requires Valid()
      ensures active == Proofs.ActiveNodes(entries[..], entries.Length)
      ensures total == Proofs.Totals(Abs(), entries.Length)
    {
      active, total := 0, NodeStats(0, 0, 0, 0);
      ghost var g := Abs();
      var i := 0;
      while i < entries.Length
        invariant 0 <= i <= |g.entries| && active == Proofs.ActiveNodes(g.entries, i) && total == Proofs.Totals(g, i)
      {
        if entries[i].active {
          active := active + 1;
          total := NodeStats(total.evaluations + stats[i].evaluations, total.permits + stats[i].permits,
                             total.denies + stats[i].denies, total.healthBlocks + stats[i].healthBlocks);
        }
        i := i + 1;
      }
    }
  }

  class PipeTable {
    const slots: array<Pipe>
    var nextId: nat
    var births: nat
    var executions: nat
    var stageRuns: nat
    var denied: nat
    var lastStatus: Status

    ghost predicate Valid()
      reads slots
    {
      slots.Length == MAX_PIPELINES
    }

    ghost function Abs(): (r: Registry)
      reads this, slots
    {
      Registry(slots[..], nextId, births, executions, stageRuns, denied, lastStatus)
    }

    /** node_pipeline_init */
    constructor ()
      ensures Valid() && fresh(slots) && Abs() == FreshRegistry()
    {
      slots := new Pipe[MAX_PIPELINES](_ => NoPipe());
      nextId, births, executions, stageRuns, denied, lastStatus := 1, 0, 0, 0, 0, Ok;
    }

    /** find_pipeline_locked */
    method FindPipeline(id: nat) returns (i: Option<nat>)
      requires Valid()
      ensures i == FindPipe(slots[..], id, 0)
    {
      if id == 0 {
        return None;
      }
      var n := 0;
      while n < slots.Length
        invariant 0 <= n <= slots.Length && forall j :: 0 <= j < n ==> slots[j].state == FreeSlot || slots[j].id != id
      {
        if slots[n].state != FreeSlot && slots[n].id == id {
          FirstPipeIs(slots[..], id, 0, n);
          return Some(n);
        }
        n := n + 1;
      }
      FirstPipeIs(slots[..], id, 0, n);
      i := None;
    }

    /** find_free_slot_locked */
    method FindFreeSlot() returns (i: Option<nat>)
      requires Valid()
      ensures i == FreePipe(slots[..], 0)
    {
      var n := 0;
      while n < slots.Length
        invariant 0 <= n <= slots.Length && forall j :: 0 <= j < n ==> slots[j].state != FreeSlot
      {
        if slots[n].state == FreeSlot {
          FirstSlotIs(slots[..], 0, n);
          return Some(n);
        }
        n := n + 1;
      }
      FirstSlotIs(slots[..], 0, n);
      i := None;
    }

    method SetSlot(i: nat, p: Pipe)
      requires Valid() && i < slots.Length
      modifies slots
      ensures Valid() && Abs() == WithPipe(old(Abs()), i, p)
    {
      slots[i] := p;
      assert slots[..] == old(slots[..])[i := p];
    }

    /** The section of node_pipeline_create. */
    method CreateLocked(node: nat) returns (id: Option<nat>, status: Status)
      requires Valid()
      modifies this, slots
      ensures Valid() && (Abs(), status) == Create(old(Abs()), node)
      ensures id == if status == Ok then Some(old(nextId)) else None
    {
      hide FreePipe;
      var slot := FindFreeSlot();
      if slot.None? {
        return None, NoMem;
      }
      SetSlot(slot.value, Pipe(nextId, node, Open, [], 0, Ok, births));
      id, status := Some(nextId), Ok;
      nextId := (nextId + 1) % U32_LIMIT;
      births := births + 1;
    }

    /** The section of node_pipeline_add_stage. */
    method AddStageLocked(node: nat, id: nat, stage: Stage) returns (status: Status)
      requires Valid()
      modifies this, slots
      ensures Valid() && (Abs(), status) == AddStage(old(Abs()), node, id, stage)
    {
      hide FindPipe;
      var found := FindPipeline(id);
      if found.None? {
        return NoDev;
      }
      var p := slots[found.value];
      if p.owner != node {
        denied := denied + 1;
        return Perm;
      }
      if |p.stages| >= MAX_STAGES {
        return NoMem;
      }
      SetSlot(found.value, p.(stages := p.stages + [stage], state := ReadyToRun));
      status := Ok;
    }

    /** The first section of node_pipeline_execute. */
    method CopyStages(node: nat, id: nat) returns (stages: seq<Stage>, status: Status)
      requires Valid()
      modifies this
      ensures Valid()
      ensures var (r, found, st) := CopyOut(old(Abs()), node, id);
              && Abs() == r && status == st && (st == Ok <==> found.Some?)
              && (st == Ok ==> stages == old(slots[..])[found.value].stages)
    {
      hide FindPipe;
      stages := [];
      var found := FindPipeline(id);
      if found.None? {
        return stages, NoDev;
      }
      var p := slots[found.value];
      if p.owner != node {
        denied := denied + 1;
        return stages, Perm;
      }
      if p.state != ReadyToRun || |p.stages| == 0 {
        return stages, Busy;
      }
      for i := 0 to |p.stages|
        invariant stages == p.stages[..i]
      {
        stages := stages + [p.stages[i]];
      }
      status := Ok;
    }

    /** The last section of node_pipeline_execute. */
    method ConcludeLocked(id: nat, stages: nat, success: bool)
      requires Valid()
      modifies this, slots
      ensures Valid() && Abs() == Conclude(old(Abs()), id, stages, success)
    {
      hide FindPipe;
      var found := FindPipeline(id);
      if !success {
        if found.Some? {
          SetSlot(found.value, slots[found.value].(lastStatus := Accel));
        }
        lastStatus := Accel;
        return;
      }
      if found.Some? {
        var p := slots[found.value];
        SetSlot(found.value, p.(executions := p.executions + 1, lastStatus := Ok));
      }
      executions := executions + 1;
      stageRuns := stageRuns + stages;
      lastStatus := Ok;
    }

    /** The section of node_pipeline_destroy. */
    method DestroyLocked(node: nat, id: nat) returns (status: Status)
      requires Valid()
      modifies this, slots
      ensures Valid() && (Abs(), status) == Destroy(old(Abs()), node, id)
    {
      hide FindPipe;
      var found := FindPipeline(id);
      if found.None? {
        return NoDev;
      }
      if slots[found.value].owner != node {
        denied := denied + 1;
        return Perm;
      }
      SetSlot(found.value, NoPipe());
      status := Ok;
    }

    /** gate_check: an explicit permit, or a counted refusal. */
    method GateCheck(gate: GateTable, node: nat, healthy: bool) returns (status: Status)
      requires Valid() && gate.Valid()
      modifies this`denied, gate.stats
      ensures Valid() && gate.Valid()
      ensures var (g, permit) := Judge(old(gate.Abs()), node, CAP_PIPELINE, healthy);
              && gate.Abs() == g && status == (if permit then Ok else Perm)
              && Abs() == if permit then old(Abs()) else CountDenied(old(Abs()))
    {
      hide FindEntry, Decide, Record;
      var v, st := gate.Evaluate(node, CAP_PIPELINE, healthy);
      if st != Ok || !v.permit {
        denied := denied + 1;
        return Perm;
      }
      status := Ok;
    }

    /** The walk over the copied stages: how many run before one names a missing accelerator. */
    method RunStages(stages: seq<Stage>, accelerators: nat) returns (executed: nat)
      ensures executed <= |stages|
      ensures forall i :: 0 <= i < executed ==> stages[i].accel < accelerators
      ensures executed < |stages| ==> stages[executed].accel >= accelerators
    {
      executed := 0;
      while executed < |stages|
        invariant 0 <= executed <= |stages|
        invariant forall i :: 0 <= i < executed ==> stages[i].accel < accelerators
      {
        if stages[executed].accel >= accelerators {
          break;
        }
        executed := executed + 1;
      }
    }

    /** node_pipeline_execute, run without interruption. */
    method Execute(gate: GateTable, node: nat, id: nat, healthy: bool, accelerators: nat) returns (status: Status)
      requires Valid() && gate.Valid()
      modifies this, slots, gate.stats
      ensures Valid() && gate.Valid()
      ensures (gate.Abs(), Abs(), status) == Execution(old(gate.Abs()), old(Abs()), node, id, healthy, accelerators)
    {
      hide FindPipe, FindEntry, Conclude, Decide, Judge;
      status := GateCheck(gate, node, healthy);
      if status != Ok {
        return;
      }
      var stages;
      stages, status := CopyStages(node, id);
      if status != Ok {
        return;
      }
      var executed := RunStages(stages, accelerators);
      ConcludeLocked(id, |stages|, executed == |stages|);
      status := if executed == |stages| then Ok else Accel;
    }
  }
}
