/**
 The canonical form of a Kernel Room: the validator accepts exactly the records that are written from a generation, a
 sample number and two levels of distinct ids with their parents. Every other field of every record is then determined.
 */
module RoomForm {
  import opened Types
  import opened KernelRoom

  datatype NodeKey = NodeKey(id: nat, parent: nat)
  datatype BitKey = BitKey(id: nat, class_: nat, parent: nat)
  datatype Tree = Tree(generation: nat, sequence: nat, cells: seq<nat>, nodes: seq<NodeKey>, bits: seq<BitKey>)

  predicate Proper(t: Tree) {
    && t.generation != 0 && t.sequence != 0 && 1 <= |t.cells| <= 2 && 1 <= |t.nodes| <= 4 && 1 <= |t.bits| <= 8
    && ProperCells(t.cells) && ProperNodes(t.nodes, t.cells) && ProperBits(t.bits, t.nodes)
  }

  predicate ProperCells(cells: seq<nat>) {
    && (forall i :: 0 <= i < |cells| ==> cells[i] != 0)
    && forall i, j :: 0 <= j < i < |cells| ==> cells[i] != cells[j]
  }

  predicate ProperNodes(nodes: seq<NodeKey>, cells: seq<nat>) {
    && (forall i :: 0 <= i < |nodes| ==> nodes[i].id != 0 && nodes[i].parent in cells)
    && forall i, j :: 0 <= j < i < |nodes| ==> nodes[i].id != nodes[j].id
  }

  predicate ProperBits(bits: seq<BitKey>, nodes: seq<NodeKey>) {
    && (forall i :: 0 <= i < |bits| ==> bits[i].id != 0 && (bits[i].class_ == 1 || bits[i].class_ == 2) && Names(nodes, bits[i].parent))
    && forall i, j :: 0 <= j < i < |bits| ==> bits[i].id != bits[j].id
  }

  predicate Names(nodes: seq<NodeKey>, id: nat) { exists n :: 0 <= n < |nodes| && nodes[n].id == id }

  /** How many of the first `n` nodes hang below the cell. */
  function Below(nodes: seq<NodeKey>, n: nat, cell: nat): nat
    requires n <= |nodes|
  {
    if n == 0 then 0 else Below(nodes, n - 1, cell) + if nodes[n - 1].parent == cell then 1 else 0
  }

  function CellAt(t: Tree, i: nat): Cell {
    if i < |t.cells| then Cell(1, 56, 1, t.cells[i], 1, 1, 5, 1, 1, Below(t.nodes, |t.nodes|, t.cells[i]), t.generation, t.generation)
    else Cell(0, 0, 0, 0, 0, 0, 0, 0, 0, 0, 0, 0)
  }

  function NodeAt(t: Tree, i: nat): Node {
    if i < |t.nodes| then
      Node(1, 64, 2, t.nodes[i].id, 1, 1, 7, 1, 1, t.nodes[i].parent, t.generation, t.generation, t.generation)
    else Node(0, 0, 0, 0, 0, 0, 0, 0, 0, 0, 0, 0, 0)
  }

  function BitAt(t: Tree, i: nat): NodeBit {
    if i < |t.bits| then
      NodeBit(1, 72, 3, t.bits[i].id, t.bits[i].class_, t.bits[i].class_, 1, 15, 1, 1, t.bits[i].parent, 0,
              t.generation, t.generation, t.generation)
    else NodeBit(0, 0, 0, 0, 0, 0, 0, 0, 0, 0, 0, 0, 0, 0, 0)
  }

  /** The records of a tree, field by field. */
  function Render(t: Tree): (r: Room)
    ensures |r.cells| == 2 && |r.nodes| == 4 && |r.nodebits| == 8
    ensures forall i :: 0 <= i < 2 ==> r.cells[i] == CellAt(t, i)
    ensures forall i :: 0 <= i < 4 ==> r.nodes[i] == NodeAt(t, i)
    ensures forall i :: 0 <= i < 8 ==> r.nodebits[i] == BitAt(t, i)
  {
    Room(1, 1024, 1, 1, 1, |t.cells|, |t.nodes|, |t.nodes|, |t.bits|, |t.bits|, 2, 4, 8, 1, 1, 0, t.generation, t.sequence,
         seq(2, i requires 0 <= i < 2 => CellAt(t, i)), seq(4, i requires 0 <= i < 4 => NodeAt(t, i)),
         seq(8, i requires 0 <= i < 8 => BitAt(t, i)))
  }

  /** The ids and parents of a room. */
  function KeysOf(r: Room): (t: Tree)
    requires Counted(r)
    ensures |t.cells| == r.cellCount && |t.nodes| == r.nodeCount && |t.bits| == r.nodebitCount
    ensures forall i :: 0 <= i < r.cellCount ==> t.cells[i] == r.cells[i].id
    ensures forall i :: 0 <= i < r.nodeCount ==> t.nodes[i] == NodeKey(r.nodes[i].id, r.nodes[i].parent)
    ensures forall i :: 0 <= i < r.nodebitCount ==> t.bits[i] == BitKey(r.nodebits[i].id, r.nodebits[i].class_, r.nodebits[i].parent)
    ensures t.generation == r.generation && t.sequence == r.sequence
  {
    Tree(r.generation, r.sequence,
         seq(r.cellCount, i requires 0 <= i < r.cellCount => r.cells[i].id),
         seq(r.nodeCount, i requires 0 <= i < r.nodeCount => NodeKey(r.nodes[i].id, r.nodes[i].parent)),
         seq(r.nodebitCount, i requires 0 <= i < r.nodebitCount => BitKey(r.nodebits[i].id, r.nodebits[i].class_, r.nodebits[i].parent)))
  }

  lemma {:induction false} BelowIsChildren(nodes: seq<Node>, keys: seq<NodeKey>, n: nat, cell: nat)
    requires n <= |nodes| && n <= |keys| && forall i :: 0 <= i < n ==> keys[i].parent == nodes[i].parent
    ensures Below(keys, n, cell) == Children(nodes, n, cell)
  {
    if n > 0 {
      BelowIsChildren(nodes, keys, n - 1, cell);
    }
  }

  // ---------- every accepted room has the form ----------

  lemma CellForm(r: Room, i: nat)
    requires Forest(r) && Counted(r) && i < 2
    ensures r.cells[i] == CellAt(KeysOf(r), i)
  {
    hide NodesOk, NodeBitsOk, Children;
    if i < r.cellCount {
      assert CellFields(r.cells[i], r.generation);
      BelowIsChildren(r.nodes, KeysOf(r).nodes, r.nodeCount, r.cells[i].id);
    }
  }

  lemma NodeForm(r: Room, i: nat)
    requires Forest(r) && Counted(r) && i < 4
    ensures r.nodes[i] == NodeAt(KeysOf(r), i)
  {
    hide CellsOk, NodeBitsOk, HasCell;
    if i < r.nodeCount {
      assert NodeFields(r.nodes[i], r.generation);
    }
  }

  lemma BitForm(r: Room, i: nat)
    requires Forest(r) && Counted(r) && i < 8
    ensures r.nodebits[i] == BitAt(KeysOf(r), i)
  {
    hide CellsOk, NodesOk, HasNode;
    if i < r.nodebitCount {
      assert NodeBitFields(r.nodebits[i], r.generation);
    }
  }

  lemma KeysProper(r: Room)
    requires Forest(r) && Counted(r)
    ensures Proper(KeysOf(r))
  {
    hide TailIs, Children;
    var t := KeysOf(r);
    forall i | 0 <= i < |t.nodes| ensures t.nodes[i].id != 0 && t.nodes[i].parent in t.cells {
      assert NodeFields(r.nodes[i], r.generation) && HasCell(r, r.nodes[i].parent);
      var c :| 0 <= c < r.cellCount && r.cells[c].id == r.nodes[i].parent;
      assert t.cells[c] == t.nodes[i].parent;
    }
    forall i | 0 <= i < |t.bits| ensures t.bits[i].id != 0 && (t.bits[i].class_ == 1 || t.bits[i].class_ == 2) && Names(t.nodes, t.bits[i].parent) {
      assert NodeBitFields(r.nodebits[i], r.generation) && HasNode(r, r.nodebits[i].parent);
      var n :| 0 <= n < r.nodeCount && r.nodes[n].id == r.nodebits[i].parent;
      assert t.nodes[n].id == t.bits[i].parent;
    }
  }

  lemma ForestForm(r: Room)
    requires Forest(r) && Counted(r)
    ensures Proper(KeysOf(r)) && r == Render(KeysOf(r))
  {
    hide CellsOk, NodesOk, NodeBitsOk, TailIs, CellAt, NodeAt, BitAt, Proper;
    var t := KeysOf(r);
    KeysProper(r);
    forall i | 0 <= i < 2 ensures r.cells[i] == Render(t).cells[i] {
      CellForm(r, i);
    }
    forall i | 0 <= i < 4 ensures r.nodes[i] == Render(t).nodes[i] {
      NodeForm(r, i);
    }
    forall i | 0 <= i < 8 ensures r.nodebits[i] == Render(t).nodebits[i] {
      BitForm(r, i);
    }
    assert r.cells == Render(t).cells && r.nodes == Render(t).nodes && r.nodebits == Render(t).nodebits;
  }

  // ---------- every room of the form is accepted ----------

  lemma RenderCells(t: Tree)
    requires Proper(t)
    ensures CellsOk(Render(t))
  {
    hide ProperNodes, ProperBits, BitAt;
    var r := Render(t);
    forall i | 0 <= i < r.cellCount ensures r.cells[i].bound == Children(r.nodes, r.nodeCount, r.cells[i].id) {
      BelowIsChildren(r.nodes, t.nodes, |t.nodes|, t.cells[i]);
    }
  }

  lemma RenderNodes(t: Tree)
    requires Proper(t)
    ensures NodesOk(Render(t))
  {
    hide ProperBits, BitAt, Below;
    var r := Render(t);
    forall i | 0 <= i < r.nodeCount ensures HasCell(r, r.nodes[i].parent) {
      var c :| 0 <= c < |t.cells| && t.cells[c] == t.nodes[i].parent;
      assert r.cells[c].id == t.cells[c];
    }
  }

  lemma RenderBits(t: Tree)
    requires Proper(t)
    ensures NodeBitsOk(Render(t))
  {
    hide ProperCells, ProperNodes, CellAt;
    var r := Render(t);
    forall i | 0 <= i < r.nodebitCount ensures HasNode(r, r.nodebits[i].parent) {
      var n :| 0 <= n < |t.nodes| && t.nodes[n].id == t.bits[i].parent;
      assert r.nodes[n].id == t.nodes[n].id;
    }
  }

  lemma RenderIsForest(t: Tree)
    requires Proper(t)
    ensures Forest(Render(t))
  {
    hide CellsOk, NodesOk, NodeBitsOk, ProperCells, ProperNodes, ProperBits;
    RenderCells(t);
    RenderNodes(t);
    RenderBits(t);
  }

  /** kernel_room_snapshot_valid accepts exactly the canonical records of proper trees. */
  lemma ForestIff(r: Room)
    ensures Forest(r) <==> exists t :: Proper(t) && r == Render(t)
  {
    hide CellsOk, NodesOk, NodeBitsOk, TailIs, Proper, Render, KeysOf;
    if Forest(r) {
      ForestForm(r);
    }
    if t :| Proper(t) && r == Render(t) {
      RenderIsForest(t);
    }
  }
}
