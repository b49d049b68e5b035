/**
 The Kernel Room hierarchy: a bounded Room -> Cell -> Node -> NodeBit registry and its validator.
 Every structure here is laid out without padding, so a record whose bytes are all zero is the
 zero record.
 */
module KernelRoom {
  import opened Types

  const SCHEMA: nat := 1
  const GENERATION: nat := 1
  const CELL_CAPACITY: nat := 2
  const NODE_CAPACITY: nat := 4
  const NODEBIT_CAPACITY: nat := 8

  const CELL_SIZE: nat := 56
  const NODE_SIZE: nat := 64
  const NODEBIT_SIZE: nat := 72
  const ROOM_SIZE: nat := 1024

  const CELL_ID_MAIN: nat := 1
  const NODE_ID_MAIN_AI: nat := 101
  const NODEBIT_ID_PRESENT: nat := 1001
  const NODEBIT_ID_SOURCE_BOUND: nat := 1002
  const BOOTSTRAP: nat := 1

  const NS_CELL: nat := 1
  const NS_NODE: nat := 2
  const NS_NODEBIT: nat := 3
  const NS_COUNT: nat := 4
  const KIND_AI_SERVICE: nat := 1

  const F_SOURCE: nat := 1
  const F_PARENT: nat := 2
  const F_GENERATION: nat := 4
  const F_VALUE: nat := 8

  datatype Cell = Cell(
    schema: nat, size: nat, ns: nat, id: nat, kind: nat, state: nat, flags: nat,
    sourceKind: nat, sourceId: nat, bound: nat, generation: nat, sourceGeneration: nat)

  datatype Node = Node(
    schema: nat, size: nat, ns: nat, id: nat, kind: nat, state: nat, flags: nat,
    sourceKind: nat, sourceId: nat, parent: nat, generation: nat, parentGeneration: nat, sourceGeneration: nat)

  datatype NodeBit = NodeBit(
    schema: nat, size: nat, ns: nat, id: nat, class_: nat, key: nat, value: nat, flags: nat,
    sourceKind: nat, sourceId: nat, parent: nat, reserved: nat,
    generation: nat, parentGeneration: nat, sourceGeneration: nat)

  datatype Room = Room(
    schema: nat, size: nat, observationOnly: nat, managementOnly: nat, ready: nat,
    cellCount: nat, nodeCount: nat, boundNodes: nat, nodebitCount: nat, boundNodebits: nat,
    cellCapacity: nat, nodeCapacity: nat, nodebitCapacity: nat,
    sourceValid: nat, generationValid: nat, reserved: nat, generation: nat, sequence: nat,
    cells: seq<Cell>, nodes: seq<Node>, nodebits: seq<NodeBit>)

  const ZERO_CELL: Cell := Cell(0, 0, 0, 0, 0, 0, 0, 0, 0, 0, 0, 0)
  const ZERO_NODE: Node := Node(0, 0, 0, 0, 0, 0, 0, 0, 0, 0, 0, 0, 0)
  const ZERO_NODEBIT: NodeBit := NodeBit(0, 0, 0, 0, 0, 0, 0, 0, 0, 0, 0, 0, 0, 0, 0)

  /** The arrays of the structure have their declared sizes. */
  predicate Shaped(r: Room) {
    |r.cells| == CELL_CAPACITY && |r.nodes| == NODE_CAPACITY && |r.nodebits| == NODEBIT_CAPACITY
  }

  // ---------- record fields ----------

  predicate Between(x: nat, count: nat) { 0 < x < count }

  predicate SourceOk(kind: nat, id: nat) { kind == BOOTSTRAP && id == BOOTSTRAP }

  /** The STATE class carries the PRESENT key, the VALIDITY class the SOURCE_BOUND key. */
  predicate ClassKeyOk(class_: nat, key: nat) { (class_ == 1 && key == 1) || (class_ == 2 && key == 2) }

  predicate CellFields(c: Cell, generation: nat) {
    && c.schema == SCHEMA && c.size == CELL_SIZE && c.ns == NS_CELL && Between(c.ns, NS_COUNT)
    && c.id != 0 && Between(c.kind, 2) && Between(c.state, 2)
    && c.flags == F_SOURCE + F_GENERATION && SourceOk(c.sourceKind, c.sourceId)
    && c.generation == generation && c.sourceGeneration == generation
  }

  predicate NodeFields(n: Node, generation: nat) {
    && n.schema == SCHEMA && n.size == NODE_SIZE && n.ns == NS_NODE && Between(n.ns, NS_COUNT)
    && n.id != 0 && Between(n.kind, 2) && Between(n.state, 2)
    && n.flags == F_SOURCE + F_PARENT + F_GENERATION && SourceOk(n.sourceKind, n.sourceId)
    && n.generation == generation && n.sourceGeneration == generation
  }

  predicate NodeBitFields(b: NodeBit, generation: nat) {
    && b.schema == SCHEMA && b.size == NODEBIT_SIZE && b.ns == NS_NODEBIT && Between(b.ns, NS_COUNT)
    && b.id != 0 && Between(b.class_, 3) && Between(b.key, 3) && ClassKeyOk(b.class_, b.key)
    && b.value == 1 && b.flags == F_SOURCE + F_PARENT + F_GENERATION + F_VALUE
    && SourceOk(b.sourceKind, b.sourceId) && b.reserved == 0
    && b.generation == generation && b.sourceGeneration == generation
  }

  predicate HeaderOk(r: Room) {
    && r.schema == SCHEMA && r.size == ROOM_SIZE
    && r.observationOnly == 1 && r.managementOnly == 1 && r.ready == 1
    && 0 < r.cellCount <= CELL_CAPACITY
    && 0 < r.nodeCount <= NODE_CAPACITY && r.boundNodes == r.nodeCount
    && 0 < r.nodebitCount <= NODEBIT_CAPACITY && r.boundNodebits == r.nodebitCount
    && r.cellCapacity == CELL_CAPACITY && r.nodeCapacity == NODE_CAPACITY && r.nodebitCapacity == NODEBIT_CAPACITY
    && r.sourceValid == 1 && r.generationValid == 1 && r.reserved == 0
    && r.generation != 0 && r.sequence != 0
  }

  predicate Counted(r: Room) {
    r.cellCount <= |r.cells| && r.nodeCount <= |r.nodes| && r.nodebitCount <= |r.nodebits|
  }

  // ---------- the forest ----------

  /** How many of the first `n` nodes name cell `id` as their parent. */
  function Children(nodes: seq<Node>, n: nat, id: nat): nat
    requires n <= |nodes|
  {
    if n == 0 then 0 else Children(nodes, n - 1, id) + if nodes[n - 1].parent == id then 1 else 0
  }

  lemma {:induction false} ChildrenBounded(nodes: seq<Node>, n: nat, id: nat)
    requires n <= |nodes|
    ensures Children(nodes, n, id) <= n
  {
    if n > 0 {
      ChildrenBounded(nodes, n - 1, id);
    }
  }

  predicate HasCell(r: Room, id: nat)
    requires Counted(r)
  {
    exists c :: 0 <= c < r.cellCount && r.cells[c].id == id
  }

  predicate HasNode(r: Room, id: nat)
    requires Counted(r)
  {
    exists n :: 0 <= n < r.nodeCount && r.nodes[n].id == id
  }

  predicate CellsOk(r: Room)
    requires Counted(r)
  {
    && (forall i :: 0 <= i < r.cellCount ==> CellFields(r.cells[i], r.generation))
    && (forall i, j :: 0 <= j < i < r.cellCount ==> r.cells[i].id != r.cells[j].id)
    && (forall i :: 0 <= i < r.cellCount ==> r.cells[i].bound == Children(r.nodes, r.nodeCount, r.cells[i].id))
  }

  predicate NodesOk(r: Room)
    requires Counted(r)
  {
    && (forall i :: 0 <= i < r.nodeCount ==> NodeFields(r.nodes[i], r.generation))
    && (forall i, j :: 0 <= j < i < r.nodeCount ==> r.nodes[i].id != r.nodes[j].id)
    && (forall i :: 0 <= i < r.nodeCount ==> HasCell(r, r.nodes[i].parent))
    && (forall i :: 0 <= i < r.nodeCount ==> r.nodes[i].parentGeneration == r.generation)
  }

  predicate NodeBitsOk(r: Room)
    requires Counted(r)
  {
    && (forall i :: 0 <= i < r.nodebitCount ==> NodeBitFields(r.nodebits[i], r.generation))
    && (forall i, j :: 0 <= j < i < r.nodebitCount ==> r.nodebits[i].id != r.nodebits[j].id)
    && (forall i :: 0 <= i < r.nodebitCount ==> HasNode(r, r.nodebits[i].parent))
    && (forall i :: 0 <= i < r.nodebitCount ==> r.nodebits[i].parentGeneration == r.generation)
  }

  predicate TailIs<T(==)>(xs: seq<T>, used: nat, zero: T) {
    forall i :: used <= i < |xs| ==> xs[i] == zero
  }

  /** Two levels of unique parents, one generation, exact child counts and nothing in the unused slots. */
  predicate Forest(r: Room) {
    && Shaped(r) && HeaderOk(r) && Counted(r) && CellsOk(r) && NodesOk(r) && NodeBitsOk(r)
    && TailIs(r.cells, r.cellCount, ZERO_CELL)
    && TailIs(r.nodes, r.nodeCount, ZERO_NODE)
    && TailIs(r.nodebits, r.nodebitCount, ZERO_NODEBIT)
  }

  /** A NodeBit reaches exactly one Node and one Cell, all at the room's generation. */
  lemma ReachesOneCell(r: Room, k: nat) returns (n: nat, c: nat)
    requires Forest(r) && k < r.nodebitCount
    ensures n < r.nodeCount && c < r.cellCount
    ensures r.nodebits[k].parent == r.nodes[n].id && r.nodes[n].parent == r.cells[c].id
    ensures forall i :: 0 <= i < r.nodeCount && r.nodes[i].id == r.nodebits[k].parent ==> i == n
    ensures forall j :: 0 <= j < r.cellCount && r.cells[j].id == r.nodes[n].parent ==> j == c
    ensures r.nodebits[k].generation == r.nodebits[k].parentGeneration == r.nodes[n].generation
            == r.nodes[n].parentGeneration == r.cells[c].generation == r.generation
  {
    assert HasNode(r, r.nodebits[k].parent);
    n :| 0 <= n < r.nodeCount && r.nodes[n].id == r.nodebits[k].parent;
    assert HasCell(r, r.nodes[n].parent);
    c :| 0 <= c < r.cellCount && r.cells[c].id == r.nodes[n].parent;
  }

  function BoundTotal(cells: seq<Cell>, n: nat): nat
    requires n <= |cells|
  {
    if n == 0 then 0 else BoundTotal(cells, n - 1) + cells[n - 1].bound
  }

  /** The child counts the cells carry add up to the number of nodes. */
  lemma BoundCountsSum(r: Room)
    requires Forest(r)
    ensures BoundTotal(r.cells, r.cellCount) == r.nodeCount
  {
    hide CellFields, NodeFields, NodeBitsOk, HeaderOk;
    BoundIsChildren(r, r.cellCount);
    forall i | 0 <= i < r.nodeCount
      ensures Hits(r.cells, r.cellCount, r.nodes[i].parent) == 1
    {
      assert HasCell(r, r.nodes[i].parent);
      OneHit(r.cells, r.cellCount, r.nodes[i].parent);
    }
    EveryNodeOnce(r.cells, r.cellCount, r.nodes, r.nodeCount);
  }

  function ChildTotal(cells: seq<Cell>, c: nat, nodes: seq<Node>, n: nat): nat
    requires c <= |cells| && n <= |nodes|
  {
    if c == 0 then 0 else ChildTotal(cells, c - 1, nodes, n) + Children(nodes, n, cells[c - 1].id)
  }

  function Hits(cells: seq<Cell>, c: nat, id: nat): nat
    requires c <= |cells|
  {
    if c == 0 then 0 else Hits(cells, c - 1, id) + if cells[c - 1].id == id then 1 else 0
  }

  lemma {:induction false} BoundIsChildren(r: Room, c: nat)
    requires Counted(r) && CellsOk(r) && c <= r.cellCount
    ensures BoundTotal(r.cells, c) == ChildTotal(r.cells, c, r.nodes, r.nodeCount)
  {
    if c > 0 {
      BoundIsChildren(r, c - 1);
    }
  }

  lemma {:induction false} OneHit(cells: seq<Cell>, c: nat, id: nat)
    requires c <= |cells| && forall i, j :: 0 <= j < i < c ==> cells[i].id != cells[j].id
    ensures Hits(cells, c, id) == if exists i :: 0 <= i < c && cells[i].id == id then 1 else 0
  {
    if c > 0 {
      OneHit(cells, c - 1, id);
    }
  }

  lemma {:induction false} EveryNodeOnce(cells: seq<Cell>, c: nat, nodes: seq<Node>, n: nat)
    requires c <= |cells| && n <= |nodes|
    requires forall i :: 0 <= i < n ==> Hits(cells, c, nodes[i].parent) == 1
    ensures ChildTotal(cells, c, nodes, n) == n
  {
    if n == 0 {
      NoNodes(cells, c, nodes);
    } else {
      EveryNodeOnce(cells, c, nodes, n - 1);
      OneMoreNode(cells, c, nodes, n);
    }
  }

  lemma {:induction false} NoNodes(cells: seq<Cell>, c: nat, nodes: seq<Node>)
    requires c <= |cells|
    ensures ChildTotal(cells, c, nodes, 0) == 0
  {
    if c > 0 {
      NoNodes(cells, c - 1, nodes);
    }
  }

  lemma {:induction false} OneMoreNode(cells: seq<Cell>, c: nat, nodes: seq<Node>, n: nat)
    requires c <= |cells| && 0 < n <= |nodes|
    ensures ChildTotal(cells, c, nodes, n) == ChildTotal(cells, c, nodes, n - 1) + Hits(cells, c, nodes[n - 1].parent)
  {
    if c > 0 {
      OneMoreNode(cells, c - 1, nodes, n);
    }
  }

  // ---------- the validator ----------

  /** find_cell */
  method FindCell(r: Room, id: nat) returns (k: Option<nat>)
    requires Counted(r)
    ensures k.Some? ==> k.value < r.cellCount && r.cells[k.value].id == id
    ensures k.None? <==> !HasCell(r, id)
  {
    for i := 0 to r.cellCount
      invariant forall j :: 0 <= j < i ==> r.cells[j].id != id
    {
      if r.cells[i].id == id {
        return Some(i);
      }
    }
    return None;
  }

  /** find_node */
  method FindNode(r: Room, id: nat) returns (k: Option<nat>)
    requires Counted(r)
    ensures k.Some? ==> k.value < r.nodeCount && r.nodes[k.value].id == id
    ensures k.None? <==> !HasNode(r, id)
  {
    for i := 0 to r.nodeCount
      invariant forall j :: 0 <= j < i ==> r.nodes[j].id != id
    {
      if r.nodes[i].id == id {
        return Some(i);
      }
    }
    return None;
  }

  /** tail_zero, one whole record at a time. */
  method TailZero<T(==)>(xs: seq<T>, used: nat, zero: T) returns (ok: bool)
    requires used <= |xs|
    ensures ok <==> TailIs(xs, used, zero)
  {
    for i := used to |xs|
      invariant forall j :: used <= j < i ==> xs[j] == zero
    {
      if xs[i] != zero {
        return false;
      }
    }
    return true;
  }

  method CountChildren(r: Room, id: nat) returns (count: nat)
    requires Counted(r)
    ensures count == Children(r.nodes, r.nodeCount, id)
  {
    count := 0;
    for j := 0 to r.nodeCount
      invariant count == Children(r.nodes, j, id)
    {
      if r.nodes[j].parent == id {
        count := count + 1;
      }
    }
  }

  /** cell_records_valid */
  method CellRecordsValid(r: Room) returns (ok: bool)
    requires Counted(r) && r.nodeCount <= r.nodeCapacity
    ensures ok <==> CellsOk(r)
  {
    hide CellFields;
    for i := 0 to r.cellCount
      invariant forall k :: 0 <= k < i ==> CellFields(r.cells[k], r.generation)
      invariant forall k, j :: 0 <= j < k < i ==> r.cells[k].id != r.cells[j].id
      invariant forall k :: 0 <= k < i ==> r.cells[k].bound == Children(r.nodes, r.nodeCount, r.cells[k].id)
    {
      if !CellFields(r.cells[i], r.generation) {
        return false;
      }
      for j := 0 to i
        invariant forall k :: 0 <= k < j ==> r.cells[i].id != r.cells[k].id
      {
        if r.cells[j].id == r.cells[i].id {
          return false;
        }
      }
      var children := CountChildren(r, r.cells[i].id);
      ChildrenBounded(r.nodes, r.nodeCount, r.cells[i].id);
      if r.cells[i].bound != children || children > r.nodeCapacity {
        return false;
      }
    }
    return true;
  }

  /** node_records_valid, after the cells were accepted. */
  method NodeRecordsValid(r: Room) returns (ok: bool)
    requires Counted(r) && CellsOk(r)
    ensures ok <==> NodesOk(r)
  {
    hide NodeFields;
    for i := 0 to r.nodeCount
      invariant forall k :: 0 <= k < i ==> NodeFields(r.nodes[k], r.generation)
      invariant forall k, j :: 0 <= j < k < i ==> r.nodes[k].id != r.nodes[j].id
      invariant forall k :: 0 <= k < i ==> HasCell(r, r.nodes[k].parent)
      invariant forall k :: 0 <= k < i ==> r.nodes[k].parentGeneration == r.generation
    {
      if !NodeFields(r.nodes[i], r.generation) {
        return false;
      }
      var parent := FindCell(r, r.nodes[i].parent);
      if parent.None? || r.nodes[i].parentGeneration != r.cells[parent.value].generation {
        return false;
      }
      for j := 0 to i
        invariant forall k :: 0 <= k < j ==> r.nodes[i].id != r.nodes[k].id
      {
        if r.nodes[j].id == r.nodes[i].id {
          return false;
        }
      }
    }
    return true;
  }

  /** nodebit_records_valid, after the nodes were accepted. */
  method NodeBitRecordsValid(r: Room) returns (ok: bool)
    requires Counted(r) && NodesOk(r)
    ensures ok <==> NodeBitsOk(r)
  {
    hide NodeBitFields;
    for i := 0 to r.nodebitCount
      invariant forall k :: 0 <= k < i ==> NodeBitFields(r.nodebits[k], r.generation)
      invariant forall k, j :: 0 <= j < k < i ==> r.nodebits[k].id != r.nodebits[j].id
      invariant forall k :: 0 <= k < i ==> HasNode(r, r.nodebits[k].parent)
      invariant forall k :: 0 <= k < i ==> r.nodebits[k].parentGeneration == r.generation
    {
      if !NodeBitFields(r.nodebits[i], r.generation) {
        return false;
      }
      var parent := FindNode(r, r.nodebits[i].parent);
      if parent.None? || r.nodebits[i].parentGeneration != r.nodes[parent.value].generation {
        return false;
      }
      for j := 0 to i
        invariant forall k :: 0 <= k < j ==> r.nodebits[i].id != r.nodebits[k].id
      {
        if r.nodebits[j].id == r.nodebits[i].id {
          return false;
        }
      }
    }
    return true;
  }

  /** kernel_room_management_snapshot_valid accepts exactly the forests. */
  method SnapshotValid(r: Room) returns (ok: bool)
    requires Shaped(r)
    ensures ok <==> Forest(r)
  {
    hide CellsOk, NodesOk, NodeBitsOk, TailIs;
    if !HeaderOk(r) {
      return false;
    }
    ok := CellRecordsValid(r);
    if ok {
      ok := NodeRecordsValid(r);
    }
    if ok {
      ok := NodeBitRecordsValid(r);
    }
    if ok {
      ok := TailZero(r.cells, r.cellCount, ZERO_CELL);
    }
    if ok {
      ok := TailZero(r.nodes, r.nodeCount, ZERO_NODE);
    }
    if ok {
      ok := TailZero(r.nodebits, r.nodebitCount, ZERO_NODEBIT);
    }
  }

  // ---------- the boot hierarchy ----------

  function BootCell(): Cell {
    Cell(SCHEMA, CELL_SIZE, NS_CELL, CELL_ID_MAIN, 1, 1, F_SOURCE + F_GENERATION, BOOTSTRAP, BOOTSTRAP, 1,
         GENERATION, GENERATION)
  }

  function BootNode(): Node {
    Node(SCHEMA, NODE_SIZE, NS_NODE, NODE_ID_MAIN_AI, KIND_AI_SERVICE, 1, F_SOURCE + F_PARENT + F_GENERATION,
         BOOTSTRAP, BOOTSTRAP, CELL_ID_MAIN, GENERATION, GENERATION, GENERATION)
  }

  function BootNodeBit(id: nat, classAndKey: nat): NodeBit {
    NodeBit(SCHEMA, NODEBIT_SIZE, NS_NODEBIT, id, classAndKey, classAndKey, 1,
            F_SOURCE + F_PARENT + F_GENERATION + F_VALUE, BOOTSTRAP, BOOTSTRAP, NODE_ID_MAIN_AI, 0,
            GENERATION, GENERATION, GENERATION)
  }

  /** seed_snapshot: one cell, one node, two NodeBits. */
  function BootRoom(): (r: Room)
    ensures Shaped(r)
  {
    Room(SCHEMA, ROOM_SIZE, 1, 1, 1, 1, 1, 1, 2, 2, CELL_CAPACITY, NODE_CAPACITY, NODEBIT_CAPACITY, 1, 1, 0,
         GENERATION, 1,
         [BootCell(), ZERO_CELL],
         [BootNode(), ZERO_NODE, ZERO_NODE, ZERO_NODE],
         [BootNodeBit(NODEBIT_ID_PRESENT, 1), BootNodeBit(NODEBIT_ID_SOURCE_BOUND, 2),
          ZERO_NODEBIT, ZERO_NODEBIT, ZERO_NODEBIT, ZERO_NODEBIT, ZERO_NODEBIT, ZERO_NODEBIT])
  }

  lemma BootRoomIsForest()
    ensures Forest(BootRoom())
  {
    hide CellsOk, NodesOk, NodeBitsOk, TailIs;
    BootCells();
    BootNodes();
    BootNodeBits();
    BootTails();
  }

  lemma BootCells()
    ensures CellsOk(BootRoom())
  {
    var nodes := BootRoom().nodes;
    assert Children(nodes, 0, CELL_ID_MAIN) == 0;
    assert Children(nodes, 1, CELL_ID_MAIN) == 1;
  }

  lemma BootNodes()
    ensures NodesOk(BootRoom())
  {
    var r := BootRoom();
    assert r.cells[0].id == CELL_ID_MAIN;
    assert HasCell(r, CELL_ID_MAIN);
  }

  lemma BootNodeBits()
    ensures NodeBitsOk(BootRoom())
  {
    var r := BootRoom();
    assert r.nodes[0].id == NODE_ID_MAIN_AI;
    assert HasNode(r, NODE_ID_MAIN_AI);
  }

  lemma BootTails()
    ensures TailIs(BootRoom().cells, 1, ZERO_CELL)
    ensures TailIs(BootRoom().nodes, 1, ZERO_NODE)
    ensures TailIs(BootRoom().nodebits, 2, ZERO_NODEBIT)
  {
  }
}
