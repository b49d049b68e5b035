/** The source-binding validator, the boot seed and the boot self-check as the kernel performs them. */
module SourceBinding {
  import opened Types
  import opened KernelRoom
  import opened BindingSpec
  import opened BindingFixtures

  /** One record, with the lookups the kernel makes. */
  method CheckRecord(b: Binding, r: Room, x: Source, m: Mapped) returns (v: Reject)
    requires Forest(r)
    ensures v == JudgeRecord(b, r, x, m)
  {
    hide TailIs, NodeBitsOk;
    if b.schema != BINDING_SCHEMA || b.size != BINDING_SIZE {
      return Schema;
    }
    if b.canonicalGeneration == 0 || b.parentGeneration == 0 || b.sourceGeneration == 0 {
      return ZeroGeneration;
    }
    if b.sourceInstance == 0 {
      return Instance;
    }
    if b.flags != ALL_FLAGS || b.lifecycle != m.lifecycle {
      return Malformed;
    }
    if b.canonicalNs != NS_NODE || b.sourceNs != m.ns {
      return Namespace;
    }
    v := CheckLinks(b, r, x, m);
  }

  /** The second half of the record checks: the hierarchy and the source the record names. */
  method CheckLinks(b: Binding, r: Room, x: Source, m: Mapped) returns (v: Reject)
    requires Forest(r) && FieldsPass(b, m)
    ensures v == JudgeRecord(b, r, x, m)
  {
    hide TailIs, NodeBitsOk;
    var n := FindNode(r, b.canonicalId);
    if n.None? {
      return Orphan;
    }
    var node := r.nodes[n.value];
    FoundNode(r, n.value, b.parentCell, m.canonicalKind);
    var c := FindCell(r, b.parentCell);
    if c.None? || node.parent != r.cells[c.value].id {
      return Orphan;
    }
    var parent := r.cells[c.value];
    assert CellFields(parent, r.generation);
    if b.canonicalKind != m.canonicalKind || node.kind != m.canonicalKind || b.sourceKind != m.kind {
      return Kind;
    }
    if b.sourceRole != m.role {
      return Role;
    }
    if b.sourceId != x.id {
      return Orphan;
    }
    if b.sourceInstance != x.instance {
      return Instance;
    }
    if b.canonicalGeneration < node.generation || b.parentGeneration < parent.generation
       || b.sourceGeneration < x.generation {
      return Stale;
    }
    if b.canonicalGeneration > node.generation || b.parentGeneration > parent.generation
       || b.sourceGeneration > x.generation {
      return GenerationRollback;
    }
    return Accept;
  }

  predicate FieldsPass(b: Binding, m: Mapped) {
    && b.schema == BINDING_SCHEMA && b.size == BINDING_SIZE
    && b.canonicalGeneration != 0 && b.parentGeneration != 0 && b.sourceGeneration != 0 && b.sourceInstance != 0
    && b.flags == ALL_FLAGS && b.lifecycle == m.lifecycle && b.canonicalNs == NS_NODE && b.sourceNs == m.ns
  }

  /** Ids are unique, so the node that was found answers every question about its id. */
  lemma FoundNode(r: Room, n: nat, cell: nat, kind: nat)
    requires Forest(r) && n < r.nodeCount
    ensures BelongsTo(r, r.nodes[n].id, cell) <==> r.nodes[n].parent == cell
    ensures OfKind(r, r.nodes[n].id, kind) <==> r.nodes[n].kind == kind
    ensures r.nodes[n].generation == r.generation
  {
    hide TailIs, NodeBitsOk, CellsOk;
    assert NodeFields(r.nodes[n], r.generation);
  }

  /** The record loop with its scan for duplicates. */
  method CheckRecords(s: Snapshot, r: Room, x: Source, m: Mapped) returns (v: Reject)
    requires Forest(r) && s.count <= |s.bindings|
    ensures v == JudgeRecords(s, r, x, m, 0)
  {
    hide Forest, JudgeRecord;
    ForestCounts(r);
    for i := 0 to s.count
      invariant JudgeRecords(s, r, x, m, 0) == JudgeRecords(s, r, x, m, i)
    {
      var b := s.bindings[i];
      v := CheckRecord(b, r, x, m);
      if v != Accept {
        return;
      }
      for j := 0 to i
        invariant forall k :: 0 <= k < j ==> !SameNode(s.bindings[k], b) && !SameSource(s.bindings[k], b)
      {
        var prior := s.bindings[j];
        if prior.canonicalNs == b.canonicalNs && prior.canonicalId == b.canonicalId {
          assert SameNode(prior, b);
          return Duplicate;
        }
        if prior.sourceNs == b.sourceNs && prior.sourceId == b.sourceId && prior.sourceInstance == b.sourceInstance {
          assert SameSource(prior, b);
          return Duplicate;
        }
      }
    }
    return Accept;
  }

  /** The comparison with the previous snapshot. */
  method CheckPrevious(s: Snapshot, previous: Snapshot) returns (back: bool)
    requires s.count <= |s.bindings| && previous.count <= |previous.bindings|
    ensures back <==> RollsBack(s, previous)
  {
    if s.generation < previous.generation {
      return true;
    }
    for i := 0 to s.count
      invariant forall k, l :: 0 <= k < i && 0 <= l < previous.count ==> !Rewinds(s.bindings[k], previous.bindings[l])
    {
      for j := 0 to previous.count
        invariant forall l :: 0 <= l < j ==> !Rewinds(s.bindings[i], previous.bindings[l])
      {
        var a, b := s.bindings[i], previous.bindings[j];
        if a.sourceNs == b.sourceNs && a.sourceId == b.sourceId && a.sourceInstance == b.sourceInstance
           && a.sourceGeneration < b.sourceGeneration {
          assert Rewinds(s.bindings[i], previous.bindings[j]);
          return true;
        }
      }
    }
    return false;
  }

  method CheckHeader(s: Snapshot) returns (v: Reject)
    requires Formed(s)
    ensures v == JudgeHeader(s)
  {
    hide TailIs;
    if s.schema != BINDING_SCHEMA || s.size != SNAPSHOT_SIZE {
      return Schema;
    }
    if s.count == 0 {
      return Missing;
    }
    if s.count > BINDING_CAPACITY || s.capacity != BINDING_CAPACITY {
      return TooMany;
    }
    if s.generation == 0 {
      return ZeroGeneration;
    }
    if s.observationOnly != 1 || s.managementOnly != 1 || s.ready != 1 || s.lastReject != 0
       || s.sourceValid != 1 || s.generationValid != 1 || s.bindingValid != 1 || s.reserved != 0 || s.sequence == 0 {
      return Malformed;
    }
    var rest := TailZero(s.bindings, s.count, ZERO_BINDING);
    var tail := TailZero(s.tail, 0, 0);
    return if !rest || !tail then Tail else Accept;
  }

  /** validate_with_sources */
  method Validate(s: Option<Snapshot>, r: Option<Room>, x: Option<Source>, previous: Option<Snapshot>) returns (v: Reject)
    requires Args(s, r, previous)
    ensures v == Verdict(s, r, x, previous)
  {
    hide Forest, JudgeRecords, RollsBack, TailIs;
    if s.None? || r.None? || x.None? {
      return InitOrder;
    }
    if x.value.ready != 1 {
      return Missing;
    }
    var ok := SnapshotValid(r.value);
    if !ok || !SourceValid(x.value) {
      return Malformed;
    }
    ForestCounts(r.value);
    v := CheckHeader(s.value);
    if v != Accept {
      return;
    }
    var m := MapSource(x.value);
    if m.None? {
      return Malformed;
    }
    v := CheckRecords(s.value, r.value, x.value, m.value);
    if v == Accept && previous.Some? {
      var back := CheckPrevious(s.value, previous.value);
      if back {
        v := GenerationRollback;
      }
    }
  }

  // ---------- the boot seed and its self-check ----------

  /** seed_snapshot */
  method Seed(r: Room, x: Source) returns (status: Status, s: Option<Snapshot>)
    requires Counted(r)
    ensures status == Ok <==> s.Some?
    ensures s.Some? ==> Formed(s.value) && s.value.count == 1
    ensures Forest(r) && SourceValid(x) ==> (status == Ok <==> HasNode(r, NODE_ID_MAIN_AI))
    ensures Forest(r) && SourceValid(x) && s.Some? ==> IsSeed(s.value, r, x)
  {
    hide TailIs, NodeBitsOk;
    s := None;
    var n := FindNode(r, NODE_ID_MAIN_AI);
    if n.None? {
      return NoDev, None;
    }
    var node := r.nodes[n.value];
    var c := FindCell(r, node.parent);
    if c.None? {
      return NoDev, None;
    }
    var parent := r.cells[c.value];
    var m := MapSource(x);
    if m.None? {
      return Inval, None;
    }
    var b := Binding(BINDING_SCHEMA, BINDING_SIZE, node.ns, node.id, node.kind, parent.id, m.value.ns, x.id,
                     m.value.kind, m.value.role, m.value.lifecycle, ALL_FLAGS, node.generation, parent.generation,
                     x.instance, x.generation);
    s := Some(Single(b, 1, 1));
    status := Ok;
    if Forest(r) && SourceValid(x) {
      assert NodeFields(node, r.generation) && CellFields(parent, r.generation);
      assert SeedOf(s.value, r.nodes[n.value], x);
    }
  }

  /** One fixture: the validator must give the expected reason. */
  method Rejects(s: Snapshot, r: Room, x: Source, previous: Option<Snapshot>, expected: Reject) returns (ok: bool)
    requires Formed(s) && Shaped(r) && (previous.Some? ==> Formed(previous.value) && previous.value.count <= BINDING_CAPACITY)
    ensures ok <==> Gives(s, r, x, previous, expected)
  {
    hide Verdict;
    var v := Validate(Some(s), Some(r), Some(x), previous);
    ok := v == expected;
  }

  method RecordFixturesPass(s: Snapshot, r: Room, x: Source) returns (ok: bool)
    requires Formed(s) && Shaped(r)
    ensures ok <==> RecordFixtures(s, r, x)
  {
    hide Gives;
    var b := s.bindings[0];
    ok := Rejects(With(s, b.(canonicalId := b.canonicalId + 1)), r, x, None, Orphan);
    if ok { ok := Rejects(With(s, b.(sourceNs := 2)), r, x, None, Namespace); }
    if ok { ok := Rejects(With(s, b.(sourceKind := 0)), r, x, None, Kind); }
    if ok { ok := Rejects(With(s, b.(sourceRole := 0)), r, x, None, Role); }
    if ok { ok := Rejects(With(s, b.(sourceInstance := Next(b.sourceInstance))), r, x, None, Instance); }
    if ok { ok := Rejects(With(s, b.(sourceGeneration := 0)), r, x, None, ZeroGeneration); }
    if ok { ok := Rejects(With(s, b.(flags := 0x5F)), r, x, None, Malformed); }
  }

  method HeaderFixturesPassed(s: Snapshot, r: Room, x: Source) returns (ok: bool)
    requires Formed(s) && Shaped(r)
    ensures ok <==> HeaderFixtures(s, r, x)
  {
    hide Gives;
    ok := Rejects(s.(count := 0), r, x, None, Missing);
    if ok { ok := Rejects(s.(count := 2, bindings := s.bindings[1 := s.bindings[0]]), r, x, None, Duplicate); }
    if ok { ok := Rejects(s.(schema := s.schema + 1), r, x, None, Schema); }
    if ok { ok := Rejects(s.(count := BINDING_CAPACITY + 1), r, x, None, TooMany); }
    if ok { ok := Rejects(s.(bindings := s.bindings[1 := s.bindings[1].(schema := BINDING_SCHEMA)]), r, x, None, Tail); }
    if ok { ok := Rejects(s.(tail := s.tail[0 := 1]), r, x, None, Tail); }
  }

  method SourceFixturesPassed(s: Snapshot, r: Room, x: Source) returns (ok: bool)
    requires Formed(s) && Shaped(r) && s.count <= BINDING_CAPACITY
    ensures ok <==> SourceFixtures(s, r, x)
  {
    hide Gives, Verdict;
    var b := s.bindings[0];
    ok := Rejects(s, r, x.(ready := 0), None, Missing);
    if ok { ok := Rejects(s, r, x.(flags := 0x1B), None, Malformed); }
    if ok { ok := Rejects(s, r, x.(generation := Next(x.generation)), None, Stale); }
    if ok { ok := Rejects(s, r, x, Some(s.(generation := Next(s.generation))), GenerationRollback); }
    if ok {
      var newer := With(s, b.(sourceGeneration := Next(b.sourceGeneration)));
      ok := Rejects(s, r, x, Some(newer), GenerationRollback);
    }
    if ok {
      var v := Validate(Some(s), Some(r), None, None);
      ok := v == InitOrder;
    }
  }

  /** negative_fixtures_pass */
  method NegativeFixturesPass(s: Snapshot, r: Room, x: Source) returns (ok: bool)
    requires Formed(s) && Shaped(r) && s.count <= BINDING_CAPACITY
    ensures ok <==> FixturesPass(s, r, x)
  {
    hide RecordFixtures, HeaderFixtures, SourceFixtures;
    ok := RecordFixturesPass(s, r, x);
    if ok {
      ok := HeaderFixturesPassed(s, r, x);
    }
    if ok {
      ok := SourceFixturesPassed(s, r, x);
    }
  }

  /** slm_agent_source_snapshot_read: a copy with the next sample number. */
  function ReadAgain(x: Source): Source { x.(sequence := Next(x.sequence)) }

  /** A source as it is at boot, with two samples left before its number comes round to zero. */
  predicate BootSource(x: Source) {
    SourceValid(x) && x.instance == 1 && x.generation == 1 && Next(Next(x.sequence)) != 0
  }

  /** copied_source_read_pass: changing one copy must not change the next, which must be the boot source. */
  method CopiedSourceReadPass(x: Source) returns (ok: bool)
    requires SourceValid(x)
    ensures ok <==> BootSource(x)
  {
    var first := ReadAgain(x);
    var second := ReadAgain(first);
    first := first.(id := first.id + 1, instance := Next(first.instance), generation := Next(first.generation));
    if !SourceValid(second) {
      return false;
    }
    return second.id == 1 && second.instance == 1 && second.generation == 1;
  }

  /**
   kernel_room_source_binding_init up to the point where the seed becomes the registry. Among the valid hierarchies
   and sources it succeeds exactly for those with a node 101, no node 102 in the same cell, and the source of the
   first boot generation.
   */
  method Boot(r: Room, x: Source) returns (status: Status, registry: Option<Snapshot>)
    requires Shaped(r) && Counted(r)
    ensures status == Ok <==> Forest(r) && HasNode(r, NODE_ID_MAIN_AI) && !Twin(r) && BootSource(x)
    ensures status == Ok <==> registry.Some?
    ensures status != Ok ==> status == Io
    ensures status == Ok ==> IsSeed(registry.value, r, x)
    ensures status == Ok ==> Formed(registry.value) && Verdict(registry, Some(r), Some(x), None) == Accept
  {
    hide Forest, FixturesPass, Verdict, IsSeed, Twin, HasNode;
    if !SourceValid(x) {
      return Io, None;
    }
    var seeded, s := Seed(r, x);
    if seeded != Ok {
      return Io, None;
    }
    var v := Validate(s, Some(r), Some(x), None);
    SeedVerdict(s.value, r, x);
    if v != Accept {
      return Io, None;
    }
    if x.generation < U64_LIMIT {
      FixturesPassIff(s.value, r, x);
    }
    var ok := NegativeFixturesPass(s.value, r, x);
    if !ok {
      return Io, None;
    }
    ok := CopiedSourceReadPass(x);
    if !ok {
      return Io, None;
    }
    return Ok, s;
  }

  /** Every seed of a valid hierarchy is accepted, and nothing is accepted without a valid hierarchy. */
  lemma SeedVerdict(s: Snapshot, r: Room, x: Source)
    requires Formed(s) && Shaped(r) && Counted(r) && SourceValid(x) && (Forest(r) ==> IsSeed(s, r, x))
    ensures Verdict(Some(s), Some(r), Some(x), None) == Accept <==> Forest(r)
  {
    hide Forest, IsSeed;
    if Forest(r) {
      SeedAccepted(s, r, x);
    }
  }
}
