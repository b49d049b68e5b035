/**
 Binding a Kernel Room node to the agent source that serves it: what the validator decides, which
 snapshots it accepts, and which hierarchies and sources pass the boot self-check.
 */
module BindingSpec {
  import opened Types
  import opened KernelRoom

  const BINDING_SCHEMA: nat := 1
  const BINDING_SIZE: nat := 80
  const SNAPSHOT_SIZE: nat := 256
  const BINDING_CAPACITY: nat := 2
  const TAIL_SIZE: nat := 32
  const ALL_FLAGS: nat := 0x7F
  const SOURCE_SIZE: nat := 64

  datatype Source = Source(
    schema: nat, size: nat, ready: nat, ns: nat, id: nat, kind: nat, role: nat, lifecycle: nat, flags: nat,
    reserved: nat, instance: nat, generation: nat, sequence: nat)

  datatype Binding = Binding(
    schema: nat, size: nat, canonicalNs: nat, canonicalId: nat, canonicalKind: nat, parentCell: nat,
    sourceNs: nat, sourceId: nat, sourceKind: nat, sourceRole: nat, lifecycle: nat, flags: nat,
    canonicalGeneration: nat, parentGeneration: nat, sourceInstance: nat, sourceGeneration: nat)

  datatype Snapshot = Snapshot(
    schema: nat, size: nat, observationOnly: nat, managementOnly: nat, ready: nat, count: nat, capacity: nat,
    lastReject: nat, sourceValid: nat, generationValid: nat, bindingValid: nat, reserved: nat,
    generation: nat, sequence: nat, bindings: seq<Binding>, tail: seq<Byte>)

  datatype Reject =
    | Accept | InitOrder | Missing | Schema | Malformed | TooMany | Duplicate | Orphan | Namespace | Kind | Role
    | Instance | ZeroGeneration | GenerationRollback | Stale | Tail

  const ZERO_BINDING: Binding := Binding(0, 0, 0, 0, 0, 0, 0, 0, 0, 0, 0, 0, 0, 0, 0, 0)

  predicate Formed(s: Snapshot) { |s.bindings| == BINDING_CAPACITY && |s.tail| == TAIL_SIZE }

  /** slm_agent_source_snapshot_valid */
  predicate SourceValid(x: Source) {
    && x.schema == 1 && x.size == SOURCE_SIZE && x.ready == 1 && x.ns == 1 && x.id == 1 && x.kind == 1
    && x.role == 1 && x.lifecycle == 1 && x.flags == 0x1F && x.reserved == 0
    && x.instance != 0 && x.generation != 0 && x.sequence != 0
  }

  /** The values the map_* functions give for a source, when all of them know it. */
  datatype Mapped = Mapped(ns: nat, kind: nat, canonicalKind: nat, role: nat, lifecycle: nat)

  function MapSource(x: Source): Option<Mapped> {
    if x.ns == 1 && x.kind == 1 && x.role == 1 && x.lifecycle == 1 then Some(Mapped(1, 1, KIND_AI_SERVICE, 1, 1)) else None
  }

  // ---------- the validator ----------

  predicate BelongsTo(r: Room, nodeId: nat, cellId: nat)
    requires Counted(r)
  {
    exists n :: 0 <= n < r.nodeCount && r.nodes[n].id == nodeId && r.nodes[n].parent == cellId
  }

  predicate OfKind(r: Room, nodeId: nat, kind: nat)
    requires Counted(r)
  {
    exists n :: 0 <= n < r.nodeCount && r.nodes[n].id == nodeId && r.nodes[n].kind == kind
  }

  /** One record against a valid hierarchy, where every record carries the room's generation. */
  function JudgeRecord(b: Binding, r: Room, x: Source, m: Mapped): Reject
    requires Counted(r)
  {
    if b.schema != BINDING_SCHEMA || b.size != BINDING_SIZE then Schema
    else if b.canonicalGeneration == 0 || b.parentGeneration == 0 || b.sourceGeneration == 0 then ZeroGeneration
    else if b.sourceInstance == 0 then Instance
    else if b.flags != ALL_FLAGS || b.lifecycle != m.lifecycle then Malformed
    else if b.canonicalNs != NS_NODE || b.sourceNs != m.ns then Namespace
    else if !HasNode(r, b.canonicalId) then Orphan
    else if !HasCell(r, b.parentCell) || !BelongsTo(r, b.canonicalId, b.parentCell) then Orphan
    else if b.canonicalKind != m.canonicalKind || !OfKind(r, b.canonicalId, m.canonicalKind) || b.sourceKind != m.kind then Kind
    else if b.sourceRole != m.role then Role
    else if b.sourceId != x.id then Orphan
    else if b.sourceInstance != x.instance then Instance
    else if b.canonicalGeneration < r.generation || b.parentGeneration < r.generation || b.sourceGeneration < x.generation then Stale
    else if b.canonicalGeneration > r.generation || b.parentGeneration > r.generation || b.sourceGeneration > x.generation then GenerationRollback
    else Accept
  }

  predicate SameNode(a: Binding, b: Binding) { a.canonicalNs == b.canonicalNs && a.canonicalId == b.canonicalId }

  predicate SameSource(a: Binding, b: Binding) {
    a.sourceNs == b.sourceNs && a.sourceId == b.sourceId && a.sourceInstance == b.sourceInstance
  }

  predicate Repeats(s: Snapshot, i: nat)
    requires i < |s.bindings|
  {
    exists j :: 0 <= j < i && (SameNode(s.bindings[j], s.bindings[i]) || SameSource(s.bindings[j], s.bindings[i]))
  }

  function JudgeRecords(s: Snapshot, r: Room, x: Source, m: Mapped, i: nat): Reject
    requires Counted(r) && s.count <= |s.bindings|
    decreases s.count - i
  {
    if i >= s.count then Accept
    else
      var v := JudgeRecord(s.bindings[i], r, x, m);
      if v != Accept then v else if Repeats(s, i) then Duplicate else JudgeRecords(s, r, x, m, i + 1)
  }

  function JudgeHeader(s: Snapshot): Reject
    requires Formed(s)
  {
    if s.schema != BINDING_SCHEMA || s.size != SNAPSHOT_SIZE then Schema
    else if s.count == 0 then Missing
    else if s.count > BINDING_CAPACITY || s.capacity != BINDING_CAPACITY then TooMany
    else if s.generation == 0 then ZeroGeneration
    else if s.observationOnly != 1 || s.managementOnly != 1 || s.ready != 1 || s.lastReject != 0
            || s.sourceValid != 1 || s.generationValid != 1 || s.bindingValid != 1 || s.reserved != 0 || s.sequence == 0
    then Malformed
    else if !TailIs(s.bindings, s.count, ZERO_BINDING) || !TailIs(s.tail, 0, 0) then Tail
    else Accept
  }

  predicate Rewinds(a: Binding, b: Binding) { SameSource(a, b) && a.sourceGeneration < b.sourceGeneration }

  predicate RollsBack(s: Snapshot, previous: Snapshot)
    requires s.count <= |s.bindings| && previous.count <= |previous.bindings|
  {
    || s.generation < previous.generation
    || exists i, j :: 0 <= i < s.count && 0 <= j < previous.count && Rewinds(s.bindings[i], previous.bindings[j])
  }

  predicate Args(s: Option<Snapshot>, r: Option<Room>, previous: Option<Snapshot>) {
    && (s.Some? ==> Formed(s.value)) && (r.Some? ==> Shaped(r.value))
    && (previous.Some? ==> Formed(previous.value) && previous.value.count <= BINDING_CAPACITY)
  }

  /** validate_with_sources */
  function Verdict(s: Option<Snapshot>, r: Option<Room>, x: Option<Source>, previous: Option<Snapshot>): Reject
    requires Args(s, r, previous)
  {
    if s.None? || r.None? || x.None? then InitOrder
    else if x.value.ready != 1 then Missing
    else if !Forest(r.value) || !SourceValid(x.value) then Malformed
    else if JudgeHeader(s.value) != Accept then JudgeHeader(s.value)
    else if MapSource(x.value).None? then Malformed
    else
      var v := JudgeRecords(s.value, r.value, x.value, MapSource(x.value).value, 0);
      if v != Accept then v
      else if previous.Some? && RollsBack(s.value, previous.value) then GenerationRollback
      else Accept
  }

  // ---------- what is accepted ----------

  /** The one binding of a node to a source. */
  function Bound(n: Node, x: Source): Binding {
    Binding(BINDING_SCHEMA, BINDING_SIZE, NS_NODE, n.id, KIND_AI_SERVICE, n.parent, 1, x.id, 1, 1, 1, ALL_FLAGS,
            n.generation, n.parentGeneration, x.instance, x.generation)
  }

  function Single(b: Binding, generation: nat, sequence: nat): (s: Snapshot)
    ensures Formed(s)
  {
    Snapshot(BINDING_SCHEMA, SNAPSHOT_SIZE, 1, 1, 1, 1, BINDING_CAPACITY, 0, 1, 1, 1, 0, generation, sequence,
             [b, ZERO_BINDING], seq(TAIL_SIZE, i => 0))
  }

  /** In a valid hierarchy an accepted record is the binding of one of its nodes, field by field. */
  lemma RecordIff(b: Binding, r: Room, x: Source)
    requires Forest(r) && SourceValid(x)
    ensures JudgeRecord(b, r, x, MapSource(x).value) == Accept
            <==> exists n :: 0 <= n < r.nodeCount && b == Bound(r.nodes[n], x)
  {
    hide TailIs, NodeBitsOk, CellsOk;
    if JudgeRecord(b, r, x, MapSource(x).value) == Accept {
      var n :| 0 <= n < r.nodeCount && r.nodes[n].id == b.canonicalId && r.nodes[n].parent == b.parentCell;
      assert NodeFields(r.nodes[n], r.generation);
      assert b == Bound(r.nodes[n], x);
    }
    if n :| 0 <= n < r.nodeCount && b == Bound(r.nodes[n], x) {
      BoundAccepted(r, x, n);
    }
  }

  lemma BoundAccepted(r: Room, x: Source, n: nat)
    requires Forest(r) && SourceValid(x) && n < r.nodeCount
    ensures JudgeRecord(Bound(r.nodes[n], x), r, x, MapSource(x).value) == Accept
  {
    hide TailIs, NodeBitsOk, CellsOk;
    assert NodeFields(r.nodes[n], r.generation);
    assert HasNode(r, r.nodes[n].id) && HasCell(r, r.nodes[n].parent);
    assert BelongsTo(r, r.nodes[n].id, r.nodes[n].parent) && OfKind(r, r.nodes[n].id, KIND_AI_SERVICE);
  }

  ghost predicate Canonical(s: Snapshot, r: Room, x: Source)
    requires Forest(r)
  {
    exists n :: 0 <= n < r.nodeCount && s == Single(Bound(r.nodes[n], x), s.generation, s.sequence)
  }

  /**
   The accepted snapshots are exactly the canonical ones: a single binding of one node to the source, nothing
   else set, a generation and a sequence number, and no step back from the previous snapshot.
   */
  lemma AcceptedIff(s: Snapshot, r: Room, x: Source, previous: Option<Snapshot>)
    requires Args(Some(s), Some(r), previous)
    ensures Verdict(Some(s), Some(r), Some(x), previous) == Accept <==>
            && Forest(r) && SourceValid(x) && s.generation != 0 && s.sequence != 0 && Canonical(s, r, x)
            && (previous.Some? ==> !RollsBack(s, previous.value))
  {
    hide Forest, RollsBack, JudgeRecord, TailIs;
    if Forest(r) && SourceValid(x) {
      ForestCounts(r);
      if JudgeHeader(s) == Accept && JudgeRecords(s, r, x, MapSource(x).value, 0) == Accept {
        AcceptedIsSingle(s, r, x);
      }
      if Canonical(s, r, x) && s.generation != 0 && s.sequence != 0 {
        SingleAccepted(s, r, x);
      }
    }
  }

  /** Exactly one binding, although two would fit. */
  lemma ExactlyOneBinding(s: Snapshot, r: Room, x: Source, previous: Option<Snapshot>)
    requires Args(Some(s), Some(r), previous) && Verdict(Some(s), Some(r), Some(x), previous) == Accept
    ensures s.count == 1 && s.capacity == 2 && s.bindings[1] == ZERO_BINDING
  {
    hide Verdict, Forest;
    AcceptedIff(s, r, x, previous);
  }

  lemma ForestCounts(r: Room)
    requires Forest(r)
    ensures Counted(r)
  {
  }

  lemma AcceptedIsSingle(s: Snapshot, r: Room, x: Source)
    requires Formed(s) && Forest(r) && SourceValid(x)
    requires JudgeHeader(s) == Accept && JudgeRecords(s, r, x, MapSource(x).value, 0) == Accept
    ensures s.generation != 0 && s.sequence != 0 && Canonical(s, r, x)
  {
    hide Forest, JudgeRecord;
    ForestCounts(r);
    var m := MapSource(x).value;
    RecordIff(s.bindings[0], r, x);
    var n :| 0 <= n < r.nodeCount && s.bindings[0] == Bound(r.nodes[n], x);
    SecondRepeats(s, r, x);
    assert s.count == 2 ==> JudgeRecords(s, r, x, m, 0) == JudgeRecords(s, r, x, m, 1);
    assert s.count == 1;
    SingleForm(s, Bound(r.nodes[n], x));
  }

  /** Two accepted records name the same source, so the second one is a duplicate. */
  lemma SecondRepeats(s: Snapshot, r: Room, x: Source)
    requires Formed(s) && Forest(r) && SourceValid(x)
    ensures var m := MapSource(x).value;
            JudgeRecord(s.bindings[0], r, x, m) == JudgeRecord(s.bindings[1], r, x, m) == Accept ==> Repeats(s, 1)
  {
    hide Forest;
    ForestCounts(r);
  }

  lemma SingleForm(s: Snapshot, b: Binding)
    requires Formed(s) && JudgeHeader(s) == Accept && s.count == 1 && s.bindings[0] == b
    ensures s == Single(b, s.generation, s.sequence)
  {
    assert s.bindings == [b, ZERO_BINDING];
    assert s.tail == seq(TAIL_SIZE, i => 0);
  }

  lemma SingleAccepted(s: Snapshot, r: Room, x: Source)
    requires Formed(s) && Forest(r) && SourceValid(x) && s.generation != 0 && s.sequence != 0 && Canonical(s, r, x)
    ensures JudgeHeader(s) == Accept && s.count == 1 && JudgeRecords(s, r, x, MapSource(x).value, 0) == Accept
  {
    hide Forest, JudgeRecord;
    ForestCounts(r);
    var n :| 0 <= n < r.nodeCount && s == Single(Bound(r.nodes[n], x), s.generation, s.sequence);
    BoundAccepted(r, x, n);
    assert JudgeRecords(s, r, x, MapSource(x).value, 1) == Accept;
  }

  // ---------- the form of a source, rollback, and the order of the checks ----------

  /** A valid source is fixed in every field but its instance, generation and sample number, which are not zero. */
  lemma SourceForm(x: Source)
    ensures SourceValid(x) <==>
            && x == Source(1, 64, 1, 1, 1, 1, 1, 1, 31, 0, x.instance, x.generation, x.sequence)
            && x.instance > 0 && x.generation > 0 && x.sequence > 0
  {
  }

  /** The previous snapshot knew this source in a later generation. */
  ghost predicate KnewLater(previous: Snapshot, x: Source) {
    exists j :: && 0 <= j < previous.count && j < |previous.bindings|
                && previous.bindings[j].sourceNs == 1 && previous.bindings[j].sourceId == x.id
                && previous.bindings[j].sourceInstance == x.instance && x.generation < previous.bindings[j].sourceGeneration
  }

  /**
   A snapshot that is acceptable in itself is refused against a previous one exactly when its own generation went back,
   or the previous one knew the source in a later generation. Standing still is no rollback.
   */
  lemma RollbackIff(s: Snapshot, r: Room, x: Source, previous: Snapshot)
    requires Args(Some(s), Some(r), Some(previous)) && Verdict(Some(s), Some(r), Some(x), None) == Accept
    ensures Verdict(Some(s), Some(r), Some(x), Some(previous))
            == if s.generation < previous.generation || KnewLater(previous, x) then GenerationRollback else Accept
  {
    hide Forest, JudgeRecord, JudgeHeader, TailIs;
    AcceptedIff(s, r, x, None);
    assert s.count == 1 && s.bindings[0].sourceNs == 1 && s.bindings[0].sourceId == x.id
           && s.bindings[0].sourceInstance == x.instance && s.bindings[0].sourceGeneration == x.generation;
    if KnewLater(previous, x) {
      var j :| 0 <= j < previous.count && j < |previous.bindings|
               && previous.bindings[j].sourceNs == 1 && previous.bindings[j].sourceId == x.id
               && previous.bindings[j].sourceInstance == x.instance && x.generation < previous.bindings[j].sourceGeneration;
      assert Rewinds(s.bindings[0], previous.bindings[j]);
    }
  }

  /** What a record says about itself, before anything is looked up. */
  predicate SelfConsistent(b: Binding) {
    && b.schema == 1 && b.size == 80 && b.canonicalGeneration > 0 && b.parentGeneration > 0 && b.sourceGeneration > 0
    && b.sourceInstance > 0 && b.flags == 127 && b.lifecycle == 1 && b.canonicalNs == 2 && b.sourceNs == 1
  }

  /** The record names a node of the room below the cell it names. */
  ghost predicate Hangs(b: Binding, r: Room)
    requires Counted(r)
  {
    HasCell(r, b.parentCell) && exists n :: 0 <= n < r.nodeCount && r.nodes[n].id == b.canonicalId && r.nodes[n].parent == b.parentCell
  }

  /** The reason for which a record is refused: the first check that fails, in the order of the source. */
  lemma RecordReason(b: Binding, r: Room, x: Source)
    requires Forest(r) && Counted(r) && SourceValid(x)
    ensures var v := JudgeRecord(b, r, x, MapSource(x).value);
            && (!SelfConsistent(b) ==>
                  v == if b.schema != 1 || b.size != 80 then Schema
                       else if b.canonicalGeneration * b.parentGeneration * b.sourceGeneration == 0 then ZeroGeneration
                       else if b.sourceInstance == 0 then Instance
                       else if b.flags == 127 && b.lifecycle == 1 then Namespace else Malformed)
            && (SelfConsistent(b) && !Hangs(b, r) ==> v == Orphan)
            && (SelfConsistent(b) && Hangs(b, r) ==>
                  v == if b.canonicalKind != 1 || b.sourceKind != 1 then Kind
                       else if b.sourceRole != 1 then Role
                       else if b.sourceId != 1 then Orphan
                       else if b.sourceInstance != x.instance then Instance
                       else if b.canonicalGeneration < r.generation || b.parentGeneration < r.generation || b.sourceGeneration < x.generation then Stale
                       else if b.canonicalGeneration == r.generation == b.parentGeneration && b.sourceGeneration == x.generation then Accept
                       else GenerationRollback)
  {
    hide TailIs, NodeBitsOk, CellsOk, HasCell;
    ZeroProduct(b.canonicalGeneration, b.parentGeneration, b.sourceGeneration);
    if Hangs(b, r) {
      var n :| 0 <= n < r.nodeCount && r.nodes[n].id == b.canonicalId && r.nodes[n].parent == b.parentCell;
      assert NodeFields(r.nodes[n], r.generation);
      assert HasNode(r, b.canonicalId) && BelongsTo(r, b.canonicalId, b.parentCell) && OfKind(r, b.canonicalId, KIND_AI_SERVICE);
    }
  }

  lemma ZeroProduct(a: nat, b: nat, c: nat)
    ensures a * b * c == 0 <==> a == 0 || b == 0 || c == 0
  {
  }
}
