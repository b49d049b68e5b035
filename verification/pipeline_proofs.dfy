/** Safety of the pipeline registry and the policy gate, over every interleaving of their sections. */
module PipelineProofs {
  import opened Types
  import opened PipelineSpec
  import Capabilities

  // ---------- the gate ----------

  ghost predicate StatsOk(st: NodeStats) {
    st.evaluations == st.permits + st.denies && st.healthBlocks <= st.denies
  }

  ghost predicate GateOk(g: Gate) {
    && GateShaped(g)
    && (forall i :: 0 <= i < MAX_ENTRIES ==> StatsOk(g.stats[i]))
    && (forall i :: 0 <= i < MAX_ENTRIES && !g.entries[i].active ==> g.stats[i] == NodeStats(0, 0, 0, 0))
    && (forall i, j :: 0 <= i < j < MAX_ENTRIES && g.entries[i].active && g.entries[j].active ==>
          g.entries[i].node != g.entries[j].node)
  }

  function Permits(ss: seq<NodeStats>, n: nat): nat
    requires n <= |ss|
  {
    if n == 0 then 0 else Permits(ss, n - 1) + ss[n - 1].permits
  }

  lemma {:induction false} PermitsUpdate(ss: seq<NodeStats>, i: nat, st: NodeStats, n: nat)
    requires i < |ss| && n <= |ss|
    ensures Permits(ss[i := st], n) == Permits(ss, n) + (if i < n then st.permits - ss[i].permits else 0)
  {
    if n > 0 {
      PermitsUpdate(ss, i, st, n - 1);
    }
  }

  function ActiveNodes(es: seq<Entry>, n: nat): nat
    requires n <= |es|
  {
    if n == 0 then 0 else ActiveNodes(es, n - 1) + (if es[n - 1].active then 1 else 0)
  }

  /** The books of the active nodes among the first `n`, added up. */
  function Totals(g: Gate, n: nat): NodeStats
    requires n <= |g.entries| == |g.stats|
  {
    if n == 0 then NodeStats(0, 0, 0, 0)
    else
      var t, st := Totals(g, n - 1), g.stats[n - 1];
      if !g.entries[n - 1].active then t
      else NodeStats(t.evaluations + st.evaluations, t.permits + st.permits, t.denies + st.denies, t.healthBlocks + st.healthBlocks)
  }

  /** The summary balances like each node's own books, and counts every permit that was ever given. */
  lemma {:induction false} TotalsBalance(g: Gate, n: nat)
    requires GateOk(g) && n <= |g.entries| == |g.stats|
    ensures StatsOk(Totals(g, n)) && Totals(g, n).permits == Permits(g.stats, n) && ActiveNodes(g.entries, n) <= n
  {
    hide GateOk;
    if n > 0 {
      TotalsBalance(g, n - 1);
      BooksAt(g, n - 1);
    }
  }

  lemma BooksAt(g: Gate, i: nat)
    requires GateOk(g) && i < |g.entries|
    ensures |g.entries| == |g.stats| && StatsOk(g.stats[i])
    ensures !g.entries[i].active ==> g.stats[i].permits == 0
  {
  }

  // ---------- the registry ----------

  /** A free slot is blank; a live one has its own id, and is ready exactly when it has stages. */
  ghost predicate PipeOk(p: Pipe, births: nat) {
    if p.state == FreeSlot then p.executions == 0
    else
      && p.birth < births && p.id == (p.birth + 1) % U32_LIMIT
      && |p.stages| <= MAX_STAGES && (p.state == ReadyToRun <==> p.stages != [])
  }

  function Executions(ps: seq<Pipe>, n: nat): nat
    requires n <= |ps|
  {
    if n == 0 then 0 else Executions(ps, n - 1) + ps[n - 1].executions
  }

  lemma {:induction false} ExecutionsUpdate(ps: seq<Pipe>, i: nat, p: Pipe, n: nat)
    requires i < |ps| && n <= |ps|
    ensures Executions(ps[i := p], n) == Executions(ps, n) + (if i < n then p.executions - ps[i].executions else 0)
  {
    if n > 0 {
      ExecutionsUpdate(ps, i, p, n - 1);
    }
  }

  ghost predicate RegistryOk(r: Registry) {
    && |r.slots| == MAX_PIPELINES && r.nextId == (r.births + 1) % U32_LIMIT
    && (forall i :: 0 <= i < MAX_PIPELINES ==> PipeOk(r.slots[i], r.births))
    && (forall i, j :: 0 <= i < j < MAX_PIPELINES && r.slots[i].state != FreeSlot && r.slots[j].state != FreeSlot ==>
          r.slots[i].birth != r.slots[j].birth)
    && Executions(r.slots, |r.slots|) <= r.executions
  }

  // ---------- the threads ----------

  /** What a thread holds still describes the world, whoever ran in between. */
  ghost predicate LocalOk(l: Local, g: Gate, r: Registry)
    requires GateShaped(g)
  {
    match l
    case Judged(node, _, slot, verdict) =>
      && slot < MAX_ENTRIES && g.entries[slot].active && g.entries[slot].node == node
      && (verdict.permit ==> !verdict.byHealth)
    case Copied(node, id, stages, birth) =>
      && birth < r.births && id == (birth + 1) % U32_LIMIT && stages != []
      && (forall i :: 0 <= i < |r.slots| && r.slots[i].state != FreeSlot && r.slots[i].birth == birth ==>
            r.slots[i].owner == node && stages <= r.slots[i].stages)
    case _ => true
  }

  function Holding(ts: seq<Local>, n: nat): nat
    requires n <= |ts|
  {
    if n == 0 then 0 else Holding(ts, n - 1) + (if ts[n - 1].Permitted? then 1 else 0)
  }

  lemma {:induction false} HoldingUpdate(ts: seq<Local>, i: nat, l: Local, n: nat)
    requires i < |ts| && n <= |ts|
    ensures Holding(ts[i := l], n)
            == Holding(ts, n) + (if i < n && l.Permitted? then 1 else 0) - (if i < n && ts[i].Permitted? then 1 else 0)
  {
    if n > 0 {
      HoldingUpdate(ts, i, l, n - 1);
    }
  }

  ghost predicate LocalsOk(w: World)
    requires Shaped(w)
  {
    forall t :: 0 <= t < |w.threads| ==> LocalOk(w.threads[t], w.gate, w.registry)
  }

  ghost predicate Inv(w: World) {
    && Shaped(w) && GateOk(w.gate) && RegistryOk(w.registry) && LocalsOk(w)
    && w.acts + Holding(w.threads, |w.threads|) <= Permits(w.gate.stats, |w.gate.stats|)
  }

  // ---------- gate steps ----------

  /** Entries are never taken back: what was active for a node stays so. */
  ghost predicate GateGrows(g: Gate, g': Gate)
    requires GateShaped(g) && GateShaped(g')
  {
    forall i :: 0 <= i < MAX_ENTRIES && g.entries[i].active ==> g'.entries[i].active && g'.entries[i].node == g.entries[i].node
  }

  lemma RegisterKeeps(g: Gate, node: nat, caps: bv64, healthGate: bool)
    requires GateOk(g)
    ensures var g' := Register(g, node, caps, healthGate).0;
            GateOk(g') && GateGrows(g, g') && Permits(g'.stats, |g'.stats|) == Permits(g.stats, |g.stats|)
  {
    hide CapsValid;
    var i := FreeEntry(g.entries, 0);
    if i.Some? {
      PermitsUpdate(g.stats, i.value, NodeStats(0, 0, 0, 0), |g.stats|);
    }
  }

  lemma UpdateKeeps(g: Gate, node: nat, caps: bv64)
    requires GateOk(g)
    ensures var g' := UpdateCaps(g, node, caps).0; GateOk(g') && GateGrows(g, g') && g'.stats == g.stats
  {
    hide CapsValid, GateOk, GateGrows, FindEntry;
    GateShapes(g);
    GrowsItself(g);
    var i := FindEntry(g.entries, node, 0);
    if i.Some? {
      EntryKeeps(g, i.value, g.entries[i.value].(caps := caps));
    }
  }

  lemma EntryKeeps(g: Gate, i: nat, e: Entry)
    requires GateOk(g) && i < |g.entries| && e.active == g.entries[i].active && e.node == g.entries[i].node
    ensures var g' := g.(entries := g.entries[i := e]); GateOk(g') && GateGrows(g, g')
  {
    hide StatsOk;
  }

  lemma RecordOk(st: NodeStats, v: Verdict)
    requires StatsOk(st) && (v.permit ==> !v.byHealth)
    ensures StatsOk(Record(st, v)) && Record(st, v).permits == st.permits + (if v.permit then 1 else 0)
  {
  }

  lemma RecordKeeps(g: Gate, slot: nat, v: Verdict)
    requires GateOk(g) && slot < MAX_ENTRIES && g.entries[slot].active && (v.permit ==> !v.byHealth)
    ensures var g' := g.(stats := g.stats[slot := Record(g.stats[slot], v)]);
            && GateOk(g') && GateGrows(g, g')
            && Permits(g'.stats, |g'.stats|) == Permits(g.stats, |g.stats|) + (if v.permit then 1 else 0)
  {
    hide Record, StatsOk, Permits;
    RecordOk(g.stats[slot], v);
    PermitsUpdate(g.stats, slot, Record(g.stats[slot], v), |g.stats|);
    var ss := g.stats[slot := Record(g.stats[slot], v)];
    forall i | 0 <= i < MAX_ENTRIES ensures StatsOk(ss[i]) {
      assert i != slot ==> ss[i] == g.stats[i];
    }
  }

  // ---------- registry steps ----------

  /** Instances may disappear, new births may come, and a surviving instance keeps its owner and only gains stages. */
  ghost predicate Evolves(r: Registry, r': Registry) {
    && r.births <= r'.births
    && forall i :: 0 <= i < |r'.slots| && r'.slots[i].state != FreeSlot && r'.slots[i].birth < r.births ==>
         && i < |r.slots| && r.slots[i].state != FreeSlot && r.slots[i].birth == r'.slots[i].birth
         && r'.slots[i].owner == r.slots[i].owner && r.slots[i].stages <= r'.slots[i].stages
  }

  lemma CreateKeeps(r: Registry, node: nat)
    requires RegistryOk(r)
    ensures RegistryOk(Create(r, node).0) && Evolves(r, Create(r, node).0)
  {
    var i := FreePipe(r.slots, 0);
    if i.Some? {
      assert PipeOk(r.slots[i.value], r.births);
      ExecutionsUpdate(r.slots, i.value, Pipe(r.nextId, node, Open, [], 0, Ok, r.births), |r.slots|);
      NextId(r.births);
    }
  }

  lemma NextId(births: nat)
    ensures ((births + 1) % U32_LIMIT + 1) % U32_LIMIT == (births + 2) % U32_LIMIT
  {
  }

  /** A change of one live slot that keeps its identity. */
  lemma SlotKeeps(r: Registry, r': Registry, i: nat, p: Pipe)
    requires RegistryOk(r) && i < MAX_PIPELINES && r.slots[i].state != FreeSlot
    requires p.state != FreeSlot && p.id == r.slots[i].id && p.birth == r.slots[i].birth && p.owner == r.slots[i].owner
    requires r.slots[i].stages <= p.stages && |p.stages| <= MAX_STAGES && (p.state == ReadyToRun <==> p.stages != [])
    requires r'.slots == r.slots[i := p] && r'.nextId == r.nextId && r'.births == r.births
    requires r'.executions - r.executions == p.executions - r.slots[i].executions
    ensures RegistryOk(r') && Evolves(r, r')
  {
    assert PipeOk(r.slots[i], r.births);
    ExecutionsUpdate(r.slots, i, p, |r.slots|);
  }

  lemma AddStageKeeps(r: Registry, node: nat, id: nat, stage: Stage)
    requires RegistryOk(r)
    ensures RegistryOk(AddStage(r, node, id, stage).0) && Evolves(r, AddStage(r, node, id, stage).0)
  {
    var f := FindPipe(r.slots, id, 0);
    if f.Some? {
      var p := r.slots[f.value];
      if p.owner == node && |p.stages| < MAX_STAGES {
        SlotKeeps(r, AddStage(r, node, id, stage).0, f.value, p.(stages := p.stages + [stage], state := ReadyToRun));
      }
    }
  }

  lemma ConcludeKeeps(r: Registry, id: nat, stages: nat, success: bool)
    requires RegistryOk(r)
    ensures RegistryOk(Conclude(r, id, stages, success)) && Evolves(r, Conclude(r, id, stages, success))
  {
    var r' := Conclude(r, id, stages, success);
    var f := FindPipe(r.slots, id, 0);
    if f.Some? {
      assert PipeOk(r.slots[f.value], r.births);
      SlotKeeps(r, r', f.value, r'.slots[f.value]);
    }
  }

  lemma DestroyKeeps(r: Registry, node: nat, id: nat)
    requires RegistryOk(r)
    ensures RegistryOk(Destroy(r, node, id).0) && Evolves(r, Destroy(r, node, id).0)
  {
    var f := FindPipe(r.slots, id, 0);
    if f.Some? && r.slots[f.value].owner == node {
      ExecutionsUpdate(r.slots, f.value, NoPipe(), |r.slots|);
    }
  }

  lemma CopyOutKeeps(r: Registry, node: nat, id: nat)
    requires RegistryOk(r)
    ensures RegistryOk(CopyOut(r, node, id).0) && Evolves(r, CopyOut(r, node, id).0)
  {
  }

  // ---------- threads survive each other's steps ----------

  lemma LocalSurvives(l: Local, g: Gate, r: Registry, g': Gate, r': Registry)
    requires GateShaped(g) && GateShaped(g') && LocalOk(l, g, r) && GateGrows(g, g') && Evolves(r, r')
    ensures LocalOk(l, g', r')
  {
  }

  lemma LocalsSurvive(w: World, w': World, tid: nat)
    requires Shaped(w) && Shaped(w') && LocalsOk(w) && GateGrows(w.gate, w'.gate) && Evolves(w.registry, w'.registry)
    requires |w'.threads| == |w.threads| && forall t :: 0 <= t < |w.threads| && t != tid ==> w'.threads[t] == w.threads[t]
    requires tid < |w.threads| ==> LocalOk(w'.threads[tid], w'.gate, w'.registry)
    ensures LocalsOk(w')
  {
    hide LocalOk, GateGrows, Evolves;
    forall t | 0 <= t < |w'.threads| ensures LocalOk(w'.threads[t], w'.gate, w'.registry) {
      if t != tid {
        LocalSurvives(w.threads[t], w.gate, w.registry, w'.gate, w'.registry);
      }
    }
  }

  // ---------- every section of every thread ----------

  lemma EvolvesItself(r: Registry)
    ensures Evolves(r, r)
  {
  }

  lemma GrowsItself(g: Gate)
    requires GateShaped(g)
    ensures GateGrows(g, g)
  {
  }

  /** A step of the gate alone. */
  lemma GateStep(w: World, g': Gate)
    requires Inv(w) && GateOk(g') && GateGrows(w.gate, g')
    requires Permits(g'.stats, |g'.stats|) >= Permits(w.gate.stats, |w.gate.stats|)
    ensures Inv(w.(gate := g'))
  {
    hide GateOk, RegistryOk, GateGrows, Evolves, LocalOk;
    GateShapes(g');
    EvolvesItself(w.registry);
    LocalsSurvive(w, w.(gate := g'), |w.threads|);
  }

  lemma GateShapes(g: Gate)
    requires GateOk(g)
    ensures GateShaped(g)
  {
  }

  /** One thread moves while the registry evolves; it may use up a permit it held. */
  lemma ThreadStep(w: World, tid: nat, l: Local, g': Gate, r': Registry, acts: nat)
    requires Inv(w) && tid < |w.threads|
    requires GateOk(g') && GateGrows(w.gate, g') && RegistryOk(r') && Evolves(w.registry, r') && GateShaped(g')
    requires LocalOk(l, g', r')
    requires acts + (if l.Permitted? then 1 else 0) - w.acts - (if w.threads[tid].Permitted? then 1 else 0)
             <= Permits(g'.stats, |g'.stats|) - Permits(w.gate.stats, |w.gate.stats|)
    ensures Inv(World(g', r', w.threads[tid := l], acts))
  {
    hide GateOk, RegistryOk, GateGrows, Evolves, LocalOk;
    RegistryShapes(r');
    var w' := World(g', r', w.threads[tid := l], acts);
    LocalsSurvive(w, w', tid);
    HoldingUpdate(w.threads, tid, l, |w.threads|);
  }

  lemma RegistryShapes(r: Registry)
    requires RegistryOk(r)
    ensures |r.slots| == MAX_PIPELINES
  {
  }

  lemma EnterKeeps(w: World, tid: nat, node: nat, call: Call, healthy: bool)
    requires Inv(w)
    ensures Inv(Step(w, EnterEv(tid, node, call, healthy)))
  {
    hide RegistryOk, Evolves, GateGrows, Covers, Risky, Requested;
    if tid < |w.threads| && w.threads[tid].Idle? {
      EvolvesItself(w.registry);
      GrowsItself(w.gate);
      var f := FindEntry(w.gate.entries, node, 0);
      var l := if f.None? then (if call.OtherCall? then Idle else Refused)
               else Judged(node, call, f.value, Decide(w.gate.entries[f.value], Requested(call), healthy));
      ThreadStep(w, tid, l, w.gate, w.registry, w.acts);
    }
  }

  lemma RecordedKeeps(w: World, tid: nat)
    requires Inv(w)
    ensures Inv(Step(w, RecordEv(tid)))
  {
    hide RegistryOk, Evolves, GateGrows, GateOk, Record;
    GateShapes(w.gate);
    if tid < |w.threads| && w.threads[tid].Judged? {
      var l := w.threads[tid];
      assert LocalOk(l, w.gate, w.registry);
      RecordKeeps(w.gate, l.slot, l.verdict);
      EvolvesItself(w.registry);
      var l' := if l.verdict.permit then Permitted(l.node, l.call) else if l.call.OtherCall? then Idle else Refused;
      ThreadStep(w, tid, l', w.gate.(stats := w.gate.stats[l.slot := Record(w.gate.stats[l.slot], l.verdict)]), w.registry, w.acts);
    }
  }

  lemma DenyKeeps(w: World, tid: nat)
    requires Inv(w)
    ensures Inv(Step(w, DenyEv(tid)))
  {
    hide GateGrows, GateOk;
    if tid < |w.threads| && w.threads[tid].Refused? {
      GateShapes(w.gate);
      GrowsItself(w.gate);
      ThreadStep(w, tid, Idle, w.gate, CountDenied(w.registry), w.acts);
    }
  }

  /** What a thread copied under the lock describes that instance. */
  lemma CopiedOk(r: Registry, g: Gate, node: nat, id: nat)
    requires RegistryOk(r) && GateShaped(g) && CopyOut(r, node, id).1.Some?
    ensures var i := CopyOut(r, node, id).1.value;
            i < |r.slots| && LocalOk(Copied(node, id, r.slots[i].stages, r.slots[i].birth), g, CopyOut(r, node, id).0)
  {
    var i := CopyOut(r, node, id).1.value;
    assert PipeOk(r.slots[i], r.births);
    forall j | 0 <= j < |r.slots| && r.slots[j].state != FreeSlot && r.slots[j].birth == r.slots[i].birth ensures j == i {
    }
  }

  lemma ActKeeps(w: World, tid: nat)
    requires Inv(w)
    ensures Inv(Step(w, ActEv(tid)))
  {
    hide GateGrows, GateOk, RegistryOk, Evolves, Create, AddStage, Destroy, CopyOut, LocalOk;
    if tid < |w.threads| && w.threads[tid].Permitted? {
      var node, call, r := w.threads[tid].node, w.threads[tid].call, w.registry;
      GateShapes(w.gate);
      RegistryShapes(r);
      GrowsItself(w.gate);
      IdleOk(w.gate, r);
      match call
      case CreateCall =>
        CreateKeeps(r, node);
        IdleOk(w.gate, Create(r, node).0);
        ThreadStep(w, tid, Idle, w.gate, Create(r, node).0, w.acts + 1);
      case AddCall(id, stage) =>
        AddStageKeeps(r, node, id, stage);
        IdleOk(w.gate, AddStage(r, node, id, stage).0);
        ThreadStep(w, tid, Idle, w.gate, AddStage(r, node, id, stage).0, w.acts + 1);
      case DestroyCall(id) =>
        DestroyKeeps(r, node, id);
        IdleOk(w.gate, Destroy(r, node, id).0);
        ThreadStep(w, tid, Idle, w.gate, Destroy(r, node, id).0, w.acts + 1);
      case ExecCall(id) => ExecKeeps(w, tid, node, id);
      case OtherCall(_) =>
        EvolvesItself(r);
        ThreadStep(w, tid, Idle, w.gate, r, w.acts + 1);
    }
  }

  lemma IdleOk(g: Gate, r: Registry)
    requires GateShaped(g)
    ensures LocalOk(Idle, g, r)
  {
  }

  lemma ExecKeeps(w: World, tid: nat, node: nat, id: nat)
    requires Inv(w) && tid < |w.threads| && w.threads[tid] == Permitted(node, ExecCall(id))
    ensures Inv(Act(w, tid, node, ExecCall(id)))
  {
    hide GateGrows, GateOk, RegistryOk, Evolves, CopyOut, LocalOk;
    var r := w.registry;
    GateShapes(w.gate);
    RegistryShapes(r);
    GrowsItself(w.gate);
    CopyOutKeeps(r, node, id);
    var (r', found, _) := CopyOut(r, node, id);
    IdleOk(w.gate, r');
    if found.Some? {
      CopiedOk(r, w.gate, node, id);
    }
    ThreadStep(w, tid,
               if found.Some? && found.value < |r.slots|
               then Copied(node, id, r.slots[found.value].stages, r.slots[found.value].birth) else Idle,
               w.gate, r', w.acts + 1);
  }

  lemma ConcludedKeeps(w: World, tid: nat, success: bool)
    requires Inv(w)
    ensures Inv(Step(w, ConcludeEv(tid, success)))
  {
    hide GateGrows, GateOk, RegistryOk, Evolves, Conclude, LocalOk;
    if tid < |w.threads| && w.threads[tid].Copied? {
      var l := w.threads[tid];
      GateShapes(w.gate);
      GrowsItself(w.gate);
      ConcludeKeeps(w.registry, l.id, |l.stages|, success);
      IdleOk(w.gate, Conclude(w.registry, l.id, |l.stages|, success));
      ThreadStep(w, tid, Idle, w.gate, Conclude(w.registry, l.id, |l.stages|, success), w.acts);
    }
  }

  lemma StepKeeps(w: World, ev: Event)
    requires Inv(w)
    ensures Inv(Step(w, ev))
  {
    hide GateGrows, GateOk, RegistryOk, LocalsOk, Register, UpdateCaps;
    match ev
    case RegisterEv(node, caps, healthGate) =>
      RegisterKeeps(w.gate, node, caps, healthGate);
      GateStep(w, Register(w.gate, node, caps, healthGate).0);
    case UpdateEv(node, caps) =>
      UpdateKeeps(w.gate, node, caps);
      GateStep(w, UpdateCaps(w.gate, node, caps).0);
    case EnterEv(tid, node, call, healthy) => EnterKeeps(w, tid, node, call, healthy);
    case RecordEv(tid) => RecordedKeeps(w, tid);
    case DenyEv(tid) => DenyKeeps(w, tid);
    case ActEv(tid) => ActKeeps(w, tid);
    case ConcludeEv(tid, success) => ConcludedKeeps(w, tid, success);
  }

  /** Any interleaving of any number of threads. */
  ghost function Run(w: World, evs: seq<Event>): (w': World)
    requires Inv(w)
    ensures Inv(w')
    decreases |evs|
  {
    if evs == [] then w
    else
      StepKeeps(w, evs[0]);
      Run(Step(w, evs[0]), evs[1..])
  }

  function FreshGate(): Gate {
    Gate(seq(MAX_ENTRIES, _ => Entry(false, 0, 0, false)), seq(MAX_ENTRIES, _ => NodeStats(0, 0, 0, 0)))
  }

  function FreshWorld(threads: nat): World {
    World(FreshGate(), FreshRegistry(), seq(threads, _ => Idle), 0)
  }

  lemma {:induction false} NothingYet(ss: seq<NodeStats>, ps: seq<Pipe>, ts: seq<Local>, n: nat)
    requires (forall i :: 0 <= i < |ss| ==> ss[i].permits == 0) && (forall i :: 0 <= i < |ps| ==> ps[i].executions == 0)
    requires forall i :: 0 <= i < |ts| ==> !ts[i].Permitted?
    ensures n <= |ss| ==> Permits(ss, n) == 0
    ensures n <= |ps| ==> Executions(ps, n) == 0
    ensures n <= |ts| ==> Holding(ts, n) == 0
  {
    if n > 0 {
      NothingYet(ss, ps, ts, n - 1);
    }
  }

  lemma FreshInv(threads: nat)
    ensures Inv(FreshWorld(threads))
  {
    var w := FreshWorld(threads);
    NothingYet(w.gate.stats, w.registry.slots, w.threads, |w.registry.slots|);
    NothingYet(w.gate.stats, w.registry.slots, w.threads, |w.threads|);
  }

  // ---------- what the invariant means ----------

  /** The instance that is found under the thread's id is the one whose stages it copied. */
  ghost predicate CreditsCopied(r: Registry, l: Local)
    requires l.Copied?
  {
    match FindPipe(r.slots, l.id, 0)
    case Some(i) => r.slots[i].birth == l.birth && r.slots[i].owner == l.node && l.stages <= r.slots[i].stages
    case None => forall j :: 0 <= j < |r.slots| && r.slots[j].state != FreeSlot ==> r.slots[j].birth != l.birth
  }

  /** How the execution counts move when a thread that copied instance `birth` concludes. */
  ghost predicate CreditedTo(r: Registry, r': Registry, birth: nat, success: bool) {
    && |r'.slots| == |r.slots| && r'.executions == r.executions + (if success then 1 else 0)
    && forall j :: 0 <= j < |r.slots| ==>
         && r'.slots[j].birth == r.slots[j].birth && r'.slots[j].state == r.slots[j].state
         && r'.slots[j].executions
            == r.slots[j].executions + (if success && r.slots[j].state != FreeSlot && r.slots[j].birth == birth then 1 else 0)
  }

  /**
   After any interleaving, a thread that concludes credits the very instance whose stages it copied, even when slots
   were reused in between; when that instance is gone, it credits none. The total counts it either way.
   */
  lemma CreditOnlyCopied(w: World, evs: seq<Event>, tid: nat, success: bool)
    requires Inv(w) && tid < |Run(w, evs).threads| && Run(w, evs).threads[tid].Copied?
    requires Run(w, evs).registry.births < U32_LIMIT
    ensures Shaped(Run(w, evs)) && CreditsCopied(Run(w, evs).registry, Run(w, evs).threads[tid])
    ensures var w1 := Run(w, evs);
            CreditedTo(w1.registry, Step(w1, ConcludeEv(tid, success)).registry, w1.threads[tid].birth, success)
  {
    hide Run, GateOk, RegistryOk, CreditsCopied, CreditedTo;
    var w1 := Run(w, evs);
    CreditInState(w1, tid);
    ConcludeCredits(w1.registry, w1.threads[tid], success);
  }

  lemma ConcludeCredits(r: Registry, l: Local, success: bool)
    requires RegistryOk(r) && l.Copied? && CreditsCopied(r, l)
    ensures CreditedTo(r, Conclude(r, l.id, |l.stages|, success), l.birth, success)
  {
    hide Executions;
  }

  lemma CreditInState(w: World, tid: nat)
    requires Inv(w) && tid < |w.threads| && w.threads[tid].Copied? && w.registry.births < U32_LIMIT
    ensures CreditsCopied(w.registry, w.threads[tid])
  {
    hide GateOk;
    var l, r := w.threads[tid], w.registry;
    assert LocalOk(l, w.gate, r);
    assert l.id == l.birth + 1;
    forall j | 0 <= j < |r.slots| && r.slots[j].state != FreeSlot ensures r.slots[j].id == r.slots[j].birth + 1 {
      assert PipeOk(r.slots[j], r.births);
    }
  }

  /** A live instance other than the copied one that is found under the copied id. */
  ghost predicate FindsOther(r: Registry, l: Local, i: nat)
    requires l.Copied?
  {
    i < |r.slots| && FindPipe(r.slots, l.id, 0) == Some(i) && r.slots[i].birth != l.birth
  }

  /** The end of the thread adds an execution to slot `i`, which holds another instance than the thread copied. */
  ghost predicate CreditsOther(w: World, tid: nat, i: nat)
    requires Shaped(w) && tid < |w.threads| && w.threads[tid].Copied? && i < |w.registry.slots|
  {
    var r' := Step(w, ConcludeEv(tid, true)).registry;
    && i < |r'.slots| && r'.slots[i].executions == w.registry.slots[i].executions + 1
    && w.registry.slots[i].birth != w.threads[tid].birth
  }

  /**
   A concluding thread credits an instance other than the one it copied only when the two births are a multiple of
   2^32 apart, so only after more than 2^32 creations; there is no bound on the number of creations here. It does so
   exactly when the first live slot under the copied id holds that other instance.
   */
  lemma CreditsOtherIff(w: World, tid: nat, i: nat)
    requires Inv(w) && tid < |w.threads| && w.threads[tid].Copied? && i < |w.registry.slots|
    ensures |Step(w, ConcludeEv(tid, true)).registry.slots| == |w.registry.slots|
    ensures CreditsOther(w, tid, i) ==>
              && (w.registry.slots[i].birth - w.threads[tid].birth) % U32_LIMIT == 0 && w.registry.births > U32_LIMIT
    ensures CreditsOther(w, tid, i) <==> FindsOther(w.registry, w.threads[tid], i)
  {
    hide GateOk, Executions;
    var l, r := w.threads[tid], w.registry;
    assert LocalOk(l, w.gate, r);
    if FindsOther(r, l, i) {
      assert PipeOk(r.slots[i], r.births);
      SameId(r.slots[i].birth, l.birth);
    }
  }

  lemma SameId(birth: nat, birth': nat)
    requires (birth + 1) % U32_LIMIT == (birth' + 1) % U32_LIMIT
    ensures (birth - birth') % U32_LIMIT == 0
    ensures birth != birth' ==> birth >= U32_LIMIT || birth' >= U32_LIMIT
  {
  }

  // ---------- an uninterrupted execution ----------

  /** The node is registered with the capability to control pipelines, bit 11. */
  ghost predicate MayRun(g: Gate, node: nat) {
    exists i :: 0 <= i < |g.entries| && g.entries[i].active && g.entries[i].node == node && Capabilities.Has(g.entries[i].caps, 11)
  }

  /** Slot `i` holds the pipeline of that id, owned by the node, with stages that can all run. */
  predicate Ready(p: Pipe, node: nat, id: nat, accelerators: nat) {
    p.state != FreeSlot && p.id == id && p.owner == node && p.stages != [] && Present(p.stages, accelerators)
  }

  /** Every stage names one of the first `n` accelerators. */
  predicate Present(stages: seq<Stage>, n: nat) { forall k :: 0 <= k < |stages| ==> 0 <= stages[k].accel < n }

  lemma PresentIs(n: nat)
    ensures forall stages: seq<Stage> :: Runnable(stages, n) <==> Present(stages, n)
  {
  }

  /**
   An execution succeeds exactly for a permitted node and a pipeline of its own whose stages can all run; then that
   instance, and no other, counts one more.
   */
  lemma ExecutionOkIff(g: Gate, r: Registry, node: nat, id: nat, healthy: bool, accelerators: nat)
    requires GateOk(g) && RegistryOk(r) && r.births < U32_LIMIT && id != 0
    ensures var (g', r', status) := Execution(g, r, node, id, healthy, accelerators);
            && (status == Ok <==> MayRun(g, node) && exists i :: 0 <= i < |r.slots| && Ready(r.slots[i], node, id, accelerators))
            && (status == Ok ==> CreditedTo(r, r', id - 1, true))
  {
    hide GateOk, RegistryOk, Judge, CopyOut, Conclude, MayRun, Ready, Runnable, Present, CreditedTo;
    PresentIs(accelerators);
    JudgePipeline(g, node, healthy);
    CopyReady(r, node, id, accelerators);
    var found := CopyOut(r, node, id).1;
    if found.Some? {
      ConcludeCopied(r, node, id, |r.slots[found.value].stages|);
    }
  }

  lemma JudgePipeline(g: Gate, node: nat, healthy: bool)
    requires GateOk(g)
    ensures Judge(g, node, CAP_PIPELINE, healthy).1 <==> MayRun(g, node)
  {
    hide Decide, Record, StatsOk, Capabilities.Has;
    var f := FindEntry(g.entries, node, 0);
    if f.Some? {
      Capabilities.PipelineIff(g.entries[f.value], healthy);
    }
  }

  lemma LiveIds(r: Registry)
    requires RegistryOk(r) && r.births < U32_LIMIT
    ensures |r.slots| == MAX_PIPELINES
    ensures forall i :: 0 <= i < |r.slots| && r.slots[i].state != FreeSlot ==> r.slots[i].id == r.slots[i].birth + 1
    ensures forall i :: 0 <= i < |r.slots| && r.slots[i].state != FreeSlot ==> (r.slots[i].state == ReadyToRun <==> r.slots[i].stages != [])
    ensures forall i, j :: 0 <= i < j < |r.slots| && r.slots[i].state != FreeSlot && r.slots[j].state != FreeSlot ==>
              r.slots[i].id != r.slots[j].id
  {
    hide Executions;
    forall i | 0 <= i < |r.slots| && r.slots[i].state != FreeSlot
      ensures r.slots[i].id == r.slots[i].birth + 1 && (r.slots[i].state == ReadyToRun <==> r.slots[i].stages != [])
    {
      assert PipeOk(r.slots[i], r.births);
    }
  }

  lemma CopyReady(r: Registry, node: nat, id: nat, accelerators: nat)
    requires RegistryOk(r) && r.births < U32_LIMIT && id != 0
    ensures var (r', found, _) := CopyOut(r, node, id);
            && (found.Some? ==> r' == r)
            && (found.Some? && Present(r.slots[found.value].stages, accelerators)
                <==> exists i :: 0 <= i < |r.slots| && Ready(r.slots[i], node, id, accelerators))
  {
    hide RegistryOk, Present;
    LiveIds(r);
    var k := FindPipe(r.slots, id, 0);
  }

  lemma ConcludeCopied(r: Registry, node: nat, id: nat, n: nat)
    requires RegistryOk(r) && r.births < U32_LIMIT && id != 0 && CopyOut(r, node, id).1.Some?
    ensures CreditedTo(r, Conclude(r, id, n, true), id - 1, true)
  {
    hide RegistryOk;
    LiveIds(r);
  }

  /** Ready means having stages; live counts never exceed the total; the gate's books balance. */
  ghost predicate Books(w: World) {
    && (forall i :: 0 <= i < |w.registry.slots| && w.registry.slots[i].state != FreeSlot ==>
          (w.registry.slots[i].state == ReadyToRun <==> w.registry.slots[i].stages != []))
    && Executions(w.registry.slots, |w.registry.slots|) <= w.registry.executions
    && (forall k :: 0 <= k < |w.gate.stats| ==>
          && w.gate.stats[k].evaluations == w.gate.stats[k].permits + w.gate.stats[k].denies
          && w.gate.stats[k].healthBlocks <= w.gate.stats[k].denies)
    && w.acts <= Permits(w.gate.stats, |w.gate.stats|)
  }

  lemma RunMeans(w: World, evs: seq<Event>)
    requires Inv(w)
    ensures Books(Run(w, evs))
  {
    hide Run;
    var w' := Run(w, evs);
    forall i | 0 <= i < |w'.registry.slots| && w'.registry.slots[i].state != FreeSlot
      ensures w'.registry.slots[i].state == ReadyToRun <==> w'.registry.slots[i].stages != []
    {
      assert PipeOk(w'.registry.slots[i], w'.registry.births);
    }
    forall k | 0 <= k < |w'.gate.stats| ensures StatsOk(w'.gate.stats[k]) {
    }
  }
}
