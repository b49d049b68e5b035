/** The negative fixtures of the boot self-check, and exactly which hierarchies and sources pass them. */
module BindingFixtures {
  import opened Types
  import opened KernelRoom
  import opened BindingSpec

  /** The snapshot seed_snapshot writes: node 101 bound to the source, first generation, first sample. */
  ghost predicate IsSeed(s: Snapshot, r: Room, x: Source)
    requires Counted(r)
  {
    exists n :: 0 <= n < r.nodeCount && SeedOf(s, r.nodes[n], x)
  }

  predicate SeedOf(s: Snapshot, n: Node, x: Source) { n.id == NODE_ID_MAIN_AI && s == Single(Bound(n, x), 1, 1) }

  /** A node 102 beside node 101: the fixture that bumps the canonical id then names a real node. */
  ghost predicate Twin(r: Room)
    requires Counted(r)
  {
    exists n :: 0 <= n < r.nodeCount && r.nodes[n].id == NODE_ID_MAIN_AI && BelongsTo(r, NODE_ID_MAIN_AI + 1, r.nodes[n].parent)
  }

  /** `++` on a 64-bit word. */
  function Next(w: nat): nat { (w + 1) % U64_LIMIT }

  function With(s: Snapshot, b: Binding): (t: Snapshot)
    requires Formed(s)
    ensures Formed(t)
  {
    s.(bindings := s.bindings[0 := b])
  }

  ghost predicate Gives(s: Snapshot, r: Room, x: Source, previous: Option<Snapshot>, expected: Reject)
    requires Formed(s) && Shaped(r) && (previous.Some? ==> Formed(previous.value) && previous.value.count <= BINDING_CAPACITY)
  {
    Verdict(Some(s), Some(r), Some(x), previous) == expected
  }

  /** The fixtures that change the record. */
  ghost predicate RecordFixtures(s: Snapshot, r: Room, x: Source)
    requires Formed(s) && Shaped(r)
  {
    var b := s.bindings[0];
    && Gives(With(s, b.(canonicalId := b.canonicalId + 1)), r, x, None, Orphan)
    && Gives(With(s, b.(sourceNs := 2)), r, x, None, Namespace)
    && Gives(With(s, b.(sourceKind := 0)), r, x, None, Kind)
    && Gives(With(s, b.(sourceRole := 0)), r, x, None, Role)
    && Gives(With(s, b.(sourceInstance := Next(b.sourceInstance))), r, x, None, Instance)
    && Gives(With(s, b.(sourceGeneration := 0)), r, x, None, ZeroGeneration)
    && Gives(With(s, b.(flags := 0x5F)), r, x, None, Malformed)
  }

  /** The fixtures that change the snapshot around the record. */
  ghost predicate HeaderFixtures(s: Snapshot, r: Room, x: Source)
    requires Formed(s) && Shaped(r)
  {
    && Gives(s.(count := 0), r, x, None, Missing)
    && Gives(s.(count := 2, bindings := s.bindings[1 := s.bindings[0]]), r, x, None, Duplicate)
    && Gives(s.(schema := s.schema + 1), r, x, None, Schema)
    && Gives(s.(count := BINDING_CAPACITY + 1), r, x, None, TooMany)
    && Gives(s.(bindings := s.bindings[1 := s.bindings[1].(schema := BINDING_SCHEMA)]), r, x, None, Tail)
    && Gives(s.(tail := s.tail[0 := 1]), r, x, None, Tail)
  }

  /** The fixtures that change the source or the previous snapshot. */
  ghost predicate SourceFixtures(s: Snapshot, r: Room, x: Source)
    requires Formed(s) && Shaped(r) && s.count <= BINDING_CAPACITY
  {
    var b := s.bindings[0];
    && Gives(s, r, x.(ready := 0), None, Missing)
    && Gives(s, r, x.(flags := 0x1B), None, Malformed)
    && Gives(s, r, x.(generation := Next(x.generation)), None, Stale)
    && Gives(s, r, x, Some(s.(generation := Next(s.generation))), GenerationRollback)
    && Gives(s, r, x, Some(With(s, b.(sourceGeneration := Next(b.sourceGeneration)))), GenerationRollback)
    && Verdict(Some(s), Some(r), None, None) == InitOrder
  }

  ghost predicate FixturesPass(s: Snapshot, r: Room, x: Source)
    requires Formed(s) && Shaped(r) && s.count <= BINDING_CAPACITY
  {
    RecordFixtures(s, r, x) && HeaderFixtures(s, r, x) && SourceFixtures(s, r, x)
  }

  // ---------- which fixtures pass ----------

  lemma SeedAccepted(s: Snapshot, r: Room, x: Source)
    requires Forest(r) && SourceValid(x) && IsSeed(s, r, x)
    ensures Formed(s) && Verdict(Some(s), Some(r), Some(x), None) == Accept
  {
    hide Forest, Verdict;
    ForestShape(r);
    var n :| 0 <= n < r.nodeCount && SeedOf(s, r.nodes[n], x);
    assert Canonical(s, r, x);
    AcceptedIff(s, r, x, None);
  }

  lemma ForestShape(r: Room)
    requires Forest(r)
    ensures Counted(r) && Shaped(r) && r.generation != 0
  {
  }

  /** With a sound header and a single record, the verdict is the record's, then the rollback check's. */
  lemma SingleVerdict(b: Binding, r: Room, x: Source, previous: Option<Snapshot>)
    requires Forest(r) && SourceValid(x) && Args(None, Some(r), previous)
    ensures Counted(r)
    ensures var s := Single(b, 1, 1); var v := JudgeRecord(b, r, x, MapSource(x).value);
            Verdict(Some(s), Some(r), Some(x), previous)
            == if v != Accept then v else if previous.Some? && RollsBack(s, previous.value) then GenerationRollback else Accept
  {
    hide Forest, JudgeRecord, RollsBack;
    ForestShape(r);
    var s, m := Single(b, 1, 1), MapSource(x).value;
    assert JudgeHeader(s) == Accept;
    assert JudgeRecords(s, r, x, m, 1) == Accept;
    assert JudgeRecords(s, r, x, m, 0) == JudgeRecord(b, r, x, m);
  }

  /** What node `n` brings to its own binding. */
  lemma NodeFacts(r: Room, n: nat)
    requires Forest(r) && n < r.nodeCount
    ensures Counted(r)
    ensures r.nodes[n].ns == NS_NODE && r.nodes[n].kind == KIND_AI_SERVICE
    ensures HasNode(r, r.nodes[n].id) && HasCell(r, r.nodes[n].parent)
    ensures BelongsTo(r, r.nodes[n].id, r.nodes[n].parent) && OfKind(r, r.nodes[n].id, KIND_AI_SERVICE)
    ensures r.nodes[n].generation == r.nodes[n].parentGeneration == r.generation != 0
  {
    hide TailIs, NodeBitsOk, CellsOk;
    assert NodeFields(r.nodes[n], r.generation);
  }

  lemma WithSingle(b: Binding, c: Binding)
    ensures With(Single(b, 1, 1), c) == Single(c, 1, 1)
  {
    assert [b, ZERO_BINDING][0 := c] == [c, ZERO_BINDING];
  }

  /** Every record fixture but the first is rejected as expected; the first one exactly when there is no node 102 beside. */
  lemma RecordFixturesIff(s: Snapshot, r: Room, x: Source, n: nat)
    requires Forest(r) && SourceValid(x) && Counted(r) && n < r.nodeCount && SeedOf(s, r.nodes[n], x)
    ensures Shaped(r) && (RecordFixtures(s, r, x) <==> !BelongsTo(r, NODE_ID_MAIN_AI + 1, r.nodes[n].parent))
  {
    hide Forest, Verdict, BelongsTo, OfKind, HasCell, HasNode, Single, With;
    ForestShape(r);
    NodeFacts(r, n);
    var b := Bound(r.nodes[n], x);
    SingleParts(b);
    forall c: Binding
      ensures Gives(With(s, c), r, x, None, JudgeRecord(c, r, x, MapSource(x).value))
    {
      WithSingle(b, c);
      SingleVerdict(c, r, x, None);
    }
    BumpedId(r, x, n);
    BumpedInstance(b.sourceInstance);
  }

  lemma SingleParts(b: Binding)
    ensures Single(b, 1, 1).bindings == [b, ZERO_BINDING] && Single(b, 1, 1).count == 1
  {
  }

  lemma BumpedInstance(w: nat)
    requires w != 0
    ensures Next(w) != w
  {
  }

  lemma BumpedId(r: Room, x: Source, n: nat)
    requires Forest(r) && SourceValid(x) && Counted(r) && n < r.nodeCount && r.nodes[n].id == NODE_ID_MAIN_AI
    ensures var b := Bound(r.nodes[n], x);
            JudgeRecord(b.(canonicalId := b.canonicalId + 1), r, x, MapSource(x).value)
            == if BelongsTo(r, NODE_ID_MAIN_AI + 1, r.nodes[n].parent) then Accept else Orphan
  {
    hide Forest, HasCell;
    NodeFacts(r, n);
    if k :| 0 <= k < r.nodeCount && r.nodes[k].id == NODE_ID_MAIN_AI + 1 && r.nodes[k].parent == r.nodes[n].parent {
      NodeFacts(r, k);
    }
  }

  lemma HeaderFixturesPass(s: Snapshot, r: Room, x: Source, n: nat)
    requires Forest(r) && SourceValid(x) && Counted(r) && n < r.nodeCount && SeedOf(s, r.nodes[n], x)
    ensures Shaped(r) && HeaderFixtures(s, r, x)
  {
    hide Forest, JudgeRecord, RollsBack;
    ForestShape(r);
    BoundAccepted(r, x, n);
    var b, m := Bound(r.nodes[n], x), MapSource(x).value;
    var twice := s.(count := 2, bindings := s.bindings[1 := b]);
    assert JudgeHeader(twice) == Accept;
    assert SameSource(twice.bindings[0], twice.bindings[1]) && Repeats(twice, 1);
    assert JudgeRecords(twice, r, x, m, 1) == Duplicate;
    var dirty := s.(bindings := s.bindings[1 := s.bindings[1].(schema := BINDING_SCHEMA)]);
    assert dirty.bindings[1] != ZERO_BINDING;
    var marked := s.(tail := s.tail[0 := 1]);
    assert marked.tail[0] != 0;
  }

  /** The source fixtures pass exactly when the source generation can still be incremented. */
  lemma SourceFixturesIff(s: Snapshot, r: Room, x: Source, n: nat)
    requires Forest(r) && SourceValid(x) && Counted(r) && n < r.nodeCount && SeedOf(s, r.nodes[n], x)
    requires x.generation < U64_LIMIT
    ensures Shaped(r) && (SourceFixtures(s, r, x) <==> x.generation + 1 < U64_LIMIT)
  {
    hide Forest, JudgeRecord, RollsBack, Verdict;
    ForestShape(r);
    var b := Bound(r.nodes[n], x);
    BoundAccepted(r, x, n);
    EarlyVerdicts(s, r, x);
    BumpedSource(s, r, x, n);
    var later, newer := s.(generation := Next(s.generation)), With(s, b.(sourceGeneration := Next(b.sourceGeneration)));
    SingleVerdict(b, r, x, Some(later));
    SingleVerdict(b, r, x, Some(newer));
    Rollbacks(b, x.generation);
  }

  lemma Rollbacks(b: Binding, generation: nat)
    requires b.sourceGeneration == generation < U64_LIMIT
    ensures var s := Single(b, 1, 1);
            && RollsBack(s, s.(generation := Next(1)))
            && (generation + 1 < U64_LIMIT ==> RollsBack(s, With(s, b.(sourceGeneration := Next(generation)))))
  {
    var s := Single(b, 1, 1);
    var t := With(s, b.(sourceGeneration := Next(generation)));
    if generation + 1 < U64_LIMIT {
      assert Rewinds(s.bindings[0], t.bindings[0]);
    }
  }

  lemma EarlyVerdicts(s: Snapshot, r: Room, x: Source)
    requires Formed(s) && Shaped(r) && SourceValid(x)
    ensures Gives(s, r, x.(ready := 0), None, Missing) && Gives(s, r, x.(flags := 0x1B), None, Malformed)
    ensures Verdict(Some(s), Some(r), None, None) == InitOrder
  {
  }

  lemma BumpedSource(s: Snapshot, r: Room, x: Source, n: nat)
    requires Forest(r) && SourceValid(x) && Counted(r) && Shaped(r) && n < r.nodeCount && SeedOf(s, r.nodes[n], x)
    requires x.generation < U64_LIMIT
    ensures Gives(s, r, x.(generation := Next(x.generation)), None, Stale) <==> x.generation + 1 < U64_LIMIT
  {
    hide Forest, RollsBack, Verdict, BelongsTo, OfKind, HasCell, HasNode;
    var y := x.(generation := Next(x.generation));
    NodeFacts(r, n);
    if x.generation + 1 < U64_LIMIT {
      SingleVerdict(Bound(r.nodes[n], x), r, y, None);
    } else {
      BadSource(s, r, y);
    }
  }

  lemma BadSource(s: Snapshot, r: Room, y: Source)
    requires Formed(s) && Shaped(r) && y.ready == 1 && !SourceValid(y)
    ensures Verdict(Some(s), Some(r), Some(y), None) == Malformed
  {
  }

  /**
   The self-check passes for every valid hierarchy and source except two families: a node 102 in the same cell as
   node 101, and a source generation at the end of its word.
   */
  lemma FixturesPassIff(s: Snapshot, r: Room, x: Source)
    requires Forest(r) && SourceValid(x) && IsSeed(s, r, x) && x.generation < U64_LIMIT
    ensures Formed(s) && Shaped(r) && s.count <= BINDING_CAPACITY
    ensures FixturesPass(s, r, x) <==> !Twin(r) && x.generation + 1 < U64_LIMIT
  {
    hide CellsOk, NodeBitsOk, TailIs, RecordFixtures, HeaderFixtures, SourceFixtures, BelongsTo, NodeFields;
    var n :| 0 <= n < r.nodeCount && SeedOf(s, r.nodes[n], x);
    RecordFixturesIff(s, r, x, n);
    HeaderFixturesPass(s, r, x, n);
    SourceFixturesIff(s, r, x, n);
    assert Twin(r) <==> BelongsTo(r, NODE_ID_MAIN_AI + 1, r.nodes[n].parent);
  }

  /** A two-node hierarchy, valid in every respect, for which the self-check fails. */
  lemma TwinFails(s: Snapshot, x: Source)
    requires SourceValid(x) && x.generation < U64_LIMIT && IsSeed(s, TwinRoom(), x)
    ensures Forest(TwinRoom()) && Formed(s) && s.count <= BINDING_CAPACITY && !FixturesPass(s, TwinRoom(), x)
  {
    hide Forest, FixturesPass;
    TwinRoomIsForest();
    var r := TwinRoom();
    assert r.nodes[1].id == NODE_ID_MAIN_AI + 1 && r.nodes[1].parent == r.nodes[0].parent;
    assert BelongsTo(r, NODE_ID_MAIN_AI + 1, r.nodes[0].parent);
    assert Twin(r);
    FixturesPassIff(s, r, x);
  }

  /** The hierarchy the kernel boots with and a valid source in its last generation: the self-check fails. */
  lemma LastGenerationFails(s: Snapshot)
    requires IsSeed(s, BootRoom(), LastSource())
    ensures SourceValid(LastSource()) && Forest(BootRoom()) && !Twin(BootRoom())
    ensures Formed(s) && s.count <= BINDING_CAPACITY && !FixturesPass(s, BootRoom(), LastSource())
  {
    hide Forest, FixturesPass;
    BootRoomIsForest();
    FixturesPassIff(s, BootRoom(), LastSource());
  }

  function LastSource(): Source { Source(1, SOURCE_SIZE, 1, 1, 1, 1, 1, 1, 0x1F, 0, 1, U64_MAX, 1) }

  function TwinRoom(): (r: Room)
    ensures Shaped(r) && Counted(r)
  {
    BootRoom().(cells := [BootCell().(bound := 2), ZERO_CELL], nodeCount := 2, boundNodes := 2,
                nodes := [BootNode(), BootNode().(id := NODE_ID_MAIN_AI + 1), ZERO_NODE, ZERO_NODE])
  }

  lemma TwinRoomIsForest()
    ensures Forest(TwinRoom())
  {
    hide CellsOk, NodesOk, NodeBitsOk, TailIs;
    TwinCells();
    TwinNodes();
    TwinNodeBits();
    TwinTails();
  }

  lemma TwinCells()
    ensures CellsOk(TwinRoom())
  {
    var nodes := TwinRoom().nodes;
    assert Children(nodes, 0, CELL_ID_MAIN) == 0;
    assert Children(nodes, 1, CELL_ID_MAIN) == 1;
    assert Children(nodes, 2, CELL_ID_MAIN) == 2;
  }

  lemma TwinNodes()
    ensures NodesOk(TwinRoom())
  {
    var r := TwinRoom();
    assert r.cells[0].id == CELL_ID_MAIN;
    assert HasCell(r, CELL_ID_MAIN);
  }

  lemma TwinNodeBits()
    ensures NodeBitsOk(TwinRoom())
  {
    var r := TwinRoom();
    assert r.nodes[0].id == NODE_ID_MAIN_AI;
    assert HasNode(r, NODE_ID_MAIN_AI);
  }

  lemma TwinTails()
    ensures TailIs(TwinRoom().cells, 1, ZERO_CELL)
    ensures TailIs(TwinRoom().nodes, 2, ZERO_NODE)
    ensures TailIs(TwinRoom().nodebits, 2, ZERO_NODEBIT)
  {
  }
}
