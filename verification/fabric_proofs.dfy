/**
 Lifetime of shared windows: a tensor's count is its creator's reference plus one per active
 window that names it, so the tensor of an active window is always still allocated.
 */
module FabricProofs {
  import opened Types
  import opened FreeBlocks
  import T = TensorSpec
  import P = TensorProofs
  import Q = TensorTheorems
  import opened FabricSpec

  /** A fabric together with the tensors whose creator has not yet dropped its own reference. */
  datatype World = World(f: Fabric, held: set<nat>)

  datatype Op =
    | Create(size: U64, alignment: U32, region: U32, lifetime: T.Lifetime)
    | Drop(id: U32)
    | ShareOp(owner: U32, tensorId: U32, readers: bv32, writers: bv32)
    | AttachOp(windowId: U32, domainId: U32, write: bool)
    | ReleaseOp(windowId: U32)
    | OpenOp(budgetKib: U32)

  /** A creator drops its reference only while it has one, that is, at most once. */
  predicate Allowed(w: World, op: Op) {
    op.Drop? ==> op.id in w.held
  }

  function Step(w: World, op: Op): (w': World)
    requires T.Shaped(w.f.mem)
  {
    match op
    case Create(size, alignment, region, lifetime) =>
      var res := T.Alloc(w.f.mem, size, alignment, region, lifetime);
      World(w.f.(mem := res.state), if res.status == Ok then w.held + {res.tensor.value.id} else w.held)
    case Drop(id) =>
      var (mem, status) := T.Free(w.f.mem, id);
      World(w.f.(mem := mem), if status == Ok then w.held - {id} else w.held)
    case ShareOp(owner, tensorId, readers, writers) => w.(f := Share(w.f, owner, tensorId, readers, writers).0)
    case AttachOp(windowId, domainId, write) => w.(f := Attach(w.f, windowId, domainId, write).0)
    case ReleaseOp(windowId) => w.(f := Release(w.f, windowId).0)
    case OpenOp(budgetKib) => w.(f := Open(w.f, budgetKib).0)
  }

  predicate Names(w: Window, id: nat) { w.active && w.tensorId == id }

  /** How many of the first `n` windows are active on tensor `id`. */
  function Count(ws: seq<Window>, n: nat, id: nat): (c: nat)
    requires n <= |ws|
    ensures c <= n
  {
    if n == 0 then 0 else Count(ws, n - 1, id) + (if Names(ws[n - 1], id) then 1 else 0)
  }

  function Uses(ws: seq<Window>, id: nat): nat { Count(ws, |ws|, id) }

  ghost predicate Live(ts: seq<T.Tensor>, id: nat) {
    exists i :: 0 <= i < |ts| && ts[i].id == id
  }

  function Creator(held: set<nat>, id: nat): nat { if id in held then 1 else 0 }

  ghost predicate RefsOk(ts: seq<T.Tensor>, ws: seq<Window>, held: set<nat>) {
    forall i :: 0 <= i < |ts| ==> ts[i].refCount == Creator(held, ts[i].id) + Uses(ws, ts[i].id)
  }

  /** Every domain that may write the window may read it. */
  predicate WritersRead(w: Window) { w.writers & !w.readers == 0 }

  ghost predicate WindowsOk(ts: seq<T.Tensor>, ws: seq<Window>) {
    && |ws| <= MAX_WINDOWS
    && (forall j :: 0 <= j < |ws| && ws[j].active ==> Live(ts, ws[j].tensorId))
    && (forall j :: 0 <= j < |ws| ==> WritersRead(ws[j]))
  }

  ghost predicate HeldOk(ts: seq<T.Tensor>, held: set<nat>) {
    forall id :: id in held ==> Live(ts, id)
  }

  /** A live tensor without references is one that could not be returned: no descriptor is left. */
  ghost predicate ZeroMeansStuck(st: T.State) {
    forall i :: 0 <= i < |st.tensors| && st.tensors[i].refCount == 0 ==> st.blocksUsed >= T.MAX_BLOCKS
  }

  ghost predicate WorldInv(w: World, pools: seq<seq<Block>>) {
    Settled(w.f.mem, pools, w.f.windows, w.held)
  }

  // ---------- counting windows ----------

  lemma {:induction false} CountUpdate(ws: seq<Window>, i: nat, w: Window, n: nat, id: nat)
    requires i < |ws| && n <= |ws|
    ensures Count(ws[i := w], n, id)
            == Count(ws, n, id) + (if n > i && Names(w, id) then 1 else 0) - (if n > i && Names(ws[i], id) then 1 else 0)
  {
    if n > 0 {
      CountUpdate(ws, i, w, n - 1, id);
    }
  }

  lemma {:induction false} CountPrefix(ws: seq<Window>, w: Window, n: nat, id: nat)
    requires n <= |ws|
    ensures Count(ws + [w], n, id) == Count(ws, n, id)
  {
    if n > 0 {
      CountPrefix(ws, w, n - 1, id);
    }
  }

  lemma UsesPut(ws: seq<Window>, i: nat, w: Window, id: nat)
    requires i <= |ws| && (i < |ws| ==> !ws[i].active) && w.active
    ensures Uses(PutWindow(ws, i, w), id) == Uses(ws, id) + (if w.tensorId == id then 1 else 0)
  {
    if i < |ws| {
      CountUpdate(ws, i, w, |ws|, id);
    } else {
      CountPrefix(ws, w, |ws|, id);
    }
  }

  lemma UsesClose(ws: seq<Window>, i: nat, id: nat)
    requires i < |ws| && ws[i].active
    ensures Uses(ws[i := Closed(ws[i])], id) == Uses(ws, id) - (if ws[i].tensorId == id then 1 else 0)
  {
    CountUpdate(ws, i, Closed(ws[i]), |ws|, id);
  }

  lemma UsesMapped(ws: seq<Window>, i: nat, n: nat, id: nat)
    requires i < |ws|
    ensures Uses(ws[i := ws[i].(mapCount := n)], id) == Uses(ws, id)
  {
    CountUpdate(ws, i, ws[i].(mapCount := n), |ws|, id);
  }

  lemma {:induction false} UsesPositive(ws: seq<Window>, j: nat, n: nat, id: nat)
    requires j < n <= |ws| && Names(ws[j], id)
    ensures Count(ws, n, id) > 0
  {
    if j < n - 1 {
      UsesPositive(ws, j, n - 1, id);
    }
  }

  lemma {:induction false} UsesNothing(ws: seq<Window>, n: nat, id: nat)
    requires n <= |ws| && forall j :: 0 <= j < n ==> !Names(ws[j], id)
    ensures Count(ws, n, id) == 0
  {
    if n > 0 {
      UsesNothing(ws, n - 1, id);
    }
  }

  // ---------- what the tensor calls do to the table ----------

  lemma FindUnique(ts: seq<T.Tensor>, nextId: nat, i: nat)
    requires P.TensorsOk(ts, nextId) && i < |ts|
    ensures T.FindTensor(ts, ts[i].id) == Some(i)
  {
    var k := T.FindTensor(ts, ts[i].id);
    assert k.Some?;
  }

  lemma SetRefTwice(st: T.State, i: nat, n: nat)
    requires T.Shaped(st) && i < |st.tensors|
    ensures T.SetRef(T.SetRef(st, i, n), i, st.tensors[i].refCount) == st
  {
    var t := st.tensors[i];
    assert st.tensors[i := t.(refCount := n)][i := t] == st.tensors;
  }

  lemma RefFound(st: T.State, pools: seq<seq<Block>>, i: nat)
    requires P.Inv(st, pools) && i < |st.tensors| && st.tensors[i].refCount + 1 < U32_LIMIT
    ensures T.Ref(st, st.tensors[i].id) == (T.SetRef(st, i, st.tensors[i].refCount + 1), Ok)
  {
    FindUnique(st.tensors, st.nextId, i);
  }

  /** The three outcomes of dropping a reference that exists. */
  lemma UnrefCases(st: T.State, pools: seq<seq<Block>>, i: nat)
    requires P.Inv(st, pools) && i < |st.tensors| && st.tensors[i].refCount > 0
    ensures var t := st.tensors[i];
            var less := T.SetRef(st, i, t.refCount - 1);
            T.Unref(st, t.id) ==
              if t.refCount > 1 then (less, Ok)
              else if st.blocksUsed >= T.MAX_BLOCKS then (less, NoMem)
              else (T.Released(less, i), Ok)
  {
    var t := st.tensors[i];
    FindUnique(st.tensors, st.nextId, i);
    var less := T.SetRef(st, i, t.refCount - 1);
    P.SetRefKeepsInv(st, pools, i, t.refCount - 1);
    FindUnique(less.tensors, less.nextId, i);
  }

  /** A reference that is taken and given back leaves the manager exactly as it was. */
  lemma RefThenUnref(st: T.State, pools: seq<seq<Block>>, i: nat)
    requires P.Inv(st, pools) && ZeroMeansStuck(st) && i < |st.tensors| && st.tensors[i].refCount + 1 < U32_LIMIT
    ensures T.Unref(T.Ref(st, st.tensors[i].id).0, st.tensors[i].id).0 == st
  {
    var t := st.tensors[i];
    var more := T.SetRef(st, i, t.refCount + 1);
    RefFound(st, pools, i);
    P.SetRefKeepsInv(st, pools, i, t.refCount + 1);
    UnrefCases(more, pools, i);
    SetRefTwice(st, i, t.refCount + 1);
  }

  // ---------- liveness of identifiers ----------

  lemma LiveSetRef(ts: seq<T.Tensor>, i: nat, n: nat, id: nat)
    requires i < |ts|
    ensures Live(ts[i := ts[i].(refCount := n)], id) <==> Live(ts, id)
  {
    var us := ts[i := ts[i].(refCount := n)];
    assert forall j :: 0 <= j < |ts| ==> us[j].id == ts[j].id;
    if Live(ts, id) {
      var j :| 0 <= j < |ts| && ts[j].id == id;
      assert us[j].id == id;
    }
  }

  lemma LiveAppend(ts: seq<T.Tensor>, t: T.Tensor, id: nat)
    ensures Live(ts + [t], id) <==> Live(ts, id) || t.id == id
  {
    var us := ts + [t];
    if Live(ts, id) {
      var j :| 0 <= j < |ts| && ts[j].id == id;
      assert us[j].id == id;
    }
    if t.id == id {
      assert us[|ts|].id == id;
    }
  }

  lemma LiveSwapRemove(ts: seq<T.Tensor>, i: nat, id: nat)
    requires i < |ts| && Live(ts, id) && id != ts[i].id
    ensures Live(T.SwapRemove(ts, i), id)
  {
    var us := T.SwapRemove(ts, i);
    var j :| 0 <= j < |ts| && ts[j].id == id;
    if j == |ts| - 1 {
      assert us[i].id == id;
    } else {
      assert us[j].id == id;
    }
  }

  // ---------- the count of one tensor moves, the others keep theirs ----------

  lemma RefsSet(ts: seq<T.Tensor>, ws: seq<Window>, held: set<nat>, i: nat, n: nat, ws': seq<Window>, held': set<nat>, nextId: nat)
    requires RefsOk(ts, ws, held) && i < |ts| && P.TensorsOk(ts, nextId)
    requires n == Creator(held', ts[i].id) + Uses(ws', ts[i].id)
    requires forall id :: id != ts[i].id ==>
               Creator(held', id) == Creator(held, id) && Uses(ws', id) == Uses(ws, id)
    ensures RefsOk(ts[i := ts[i].(refCount := n)], ws', held')
  {
    var us := ts[i := ts[i].(refCount := n)];
    forall j | 0 <= j < |us| ensures us[j].refCount == Creator(held', us[j].id) + Uses(ws', us[j].id) {
      if j != i {
        assert j < i ==> ts[j].id != ts[i].id;
        assert i < j ==> ts[i].id != ts[j].id;
      }
    }
  }

  lemma RefsRemove(ts: seq<T.Tensor>, ws: seq<Window>, held: set<nat>, i: nat, ws': seq<Window>, held': set<nat>, nextId: nat)
    requires RefsOk(ts, ws, held) && i < |ts| && P.TensorsOk(ts, nextId)
    requires forall id :: id != ts[i].id ==>
               Creator(held', id) == Creator(held, id) && Uses(ws', id) == Uses(ws, id)
    ensures RefsOk(T.SwapRemove(ts, i), ws', held')
  {
    var us := T.SwapRemove(ts, i);
    forall j | 0 <= j < |us| ensures us[j].refCount == Creator(held', us[j].id) + Uses(ws', us[j].id) {
      var j' := if j == i then |ts| - 1 else j;
      assert us[j] == ts[j'];
      assert j' < i ==> ts[j'].id != ts[i].id;
      assert i < j' ==> ts[i].id != ts[j'].id;
    }
  }

  /** What remains after the last reference on tensor `i` is dropped. */
  lemma WindowsAfterRemove(ts: seq<T.Tensor>, ws: seq<Window>, i: nat)
    requires WindowsOk(ts, ws) && i < |ts| && Uses(ws, ts[i].id) == 0
    ensures WindowsOk(T.SwapRemove(ts, i), ws)
  {
    forall j | 0 <= j < |ws| && ws[j].active ensures Live(T.SwapRemove(ts, i), ws[j].tensorId) {
      if ws[j].tensorId == ts[i].id {
        UsesPositive(ws, j, |ws|, ts[i].id);
      }
      LiveSwapRemove(ts, i, ws[j].tensorId);
    }
  }

  lemma WindowsAfterSet(ts: seq<T.Tensor>, ws: seq<Window>, i: nat, n: nat)
    requires WindowsOk(ts, ws) && i < |ts|
    ensures WindowsOk(ts[i := ts[i].(refCount := n)], ws)
  {
    forall j | 0 <= j < |ws| && ws[j].active ensures Live(ts[i := ts[i].(refCount := n)], ws[j].tensorId) {
      LiveSetRef(ts, i, n, ws[j].tensorId);
    }
  }

  lemma HeldAfterSet(ts: seq<T.Tensor>, held: set<nat>, i: nat, n: nat)
    requires HeldOk(ts, held) && i < |ts|
    ensures HeldOk(ts[i := ts[i].(refCount := n)], held)
  {
    forall id | id in held ensures Live(ts[i := ts[i].(refCount := n)], id) {
      LiveSetRef(ts, i, n, id);
    }
  }

  lemma HeldAfterRemove(ts: seq<T.Tensor>, held: set<nat>, i: nat)
    requires HeldOk(ts, held) && i < |ts|
    ensures HeldOk(T.SwapRemove(ts, i), held - {ts[i].id})
  {
    forall id | id in held - {ts[i].id} ensures Live(T.SwapRemove(ts, i), id) {
      LiveSwapRemove(ts, i, id);
    }
  }

  // ---------- the two ways a count can change ----------

  ghost predicate Accounts(ts: seq<T.Tensor>, ws: seq<Window>, held: set<nat>) {
    RefsOk(ts, ws, held) && WindowsOk(ts, ws) && HeldOk(ts, held)
  }

  /** The accounts balance and the tensor state is sound. */
  ghost predicate Settled(st: T.State, pools: seq<seq<Block>>, ws: seq<Window>, held: set<nat>) {
    P.Inv(st, pools) && Accounts(st.tensors, ws, held) && ZeroMeansStuck(st)
  }

  lemma AfterSet(st: T.State, pools: seq<seq<Block>>, ws: seq<Window>, held: set<nat>, i: nat, n: nat, ws': seq<Window>, held': set<nat>)
    requires Settled(st, pools, ws, held) && i < |st.tensors|
    requires n == Creator(held', st.tensors[i].id) + Uses(ws', st.tensors[i].id) && n < U32_LIMIT
    requires n == 0 ==> st.blocksUsed >= T.MAX_BLOCKS
    requires forall id :: id != st.tensors[i].id ==>
               Creator(held', id) == Creator(held, id) && Uses(ws', id) == Uses(ws, id)
    requires WindowsOk(st.tensors, ws') && HeldOk(st.tensors, held')
    ensures var st' := T.SetRef(st, i, n);
            Settled(st', pools, ws', held')
  {
    P.SetRefKeepsInv(st, pools, i, n);
    RefsSet(st.tensors, ws, held, i, n, ws', held', st.nextId);
    WindowsAfterSet(st.tensors, ws', i, n);
    HeldAfterSet(st.tensors, held', i, n);
  }

  lemma NoneStuck(ts: seq<T.Tensor>, i: nat)
    requires i < |ts| && forall j :: 0 <= j < |ts| && j != i ==> ts[j].refCount != 0
    ensures var us := T.SwapRemove(ts, i); forall j :: 0 <= j < |us| ==> us[j].refCount != 0
  {
  }

  lemma AfterRelease(st: T.State, pools: seq<seq<Block>>, ws: seq<Window>, held: set<nat>, i: nat, ws': seq<Window>, held': set<nat>)
    requires Settled(st, pools, ws, held) && i < |st.tensors|
    requires st.blocksUsed < T.MAX_BLOCKS
    requires st.tensors[i].id !in held' && Uses(ws', st.tensors[i].id) == 0 && held' == held - {st.tensors[i].id}
    requires forall id :: id != st.tensors[i].id ==> Uses(ws', id) == Uses(ws, id)
    requires WindowsOk(st.tensors, ws')
    ensures var st' := T.Released(st, i);
            Settled(st', pools, ws', held')
  {
    P.ReleasedKeepsInv(st, pools, i);
    RefsRemove(st.tensors, ws, held, i, ws', held', st.nextId);
    WindowsAfterRemove(st.tensors, ws', i);
    HeldAfterRemove(st.tensors, held, i);
    NoneStuck(st.tensors, i);
  }

  /** Releasing a record whose count was zeroed first leaves the same state. */
  lemma ReleasedAfterZero(st: T.State, i: nat)
    requires T.Shaped(st) && i < |st.tensors|
    ensures T.Released(T.SetRef(st, i, 0), i) == T.Released(st, i)
  {
    var t := st.tensors[i];
    assert T.SwapRemove(st.tensors[i := t.(refCount := 0)], i) == T.SwapRemove(st.tensors, i);
  }

  // ---------- every call keeps the accounts ----------

  lemma UsesBound(ts: seq<T.Tensor>, ws: seq<Window>, held: set<nat>, i: nat)
    requires Accounts(ts, ws, held) && i < |ts|
    ensures ts[i].refCount <= 1 + MAX_WINDOWS
  {
  }

  /** An allocation appends one record with a fresh id and one reference, or changes nothing. */
  lemma CreatedMem(st: T.State, pools: seq<seq<Block>>, size: U64, alignment: U32, region: U32, lifetime: T.Lifetime)
    requires P.Inv(st, pools)
    ensures var res := T.Alloc(st, size, alignment, region, lifetime);
            if res.status != Ok then res.state == st
            else
              && res.tensor.Some? && res.tensor.value.id == st.nextId && res.tensor.value.refCount == 1
              && res.state.tensors == st.tensors + [res.tensor.value]
              && st.blocksUsed <= res.state.blocksUsed
  {
    if T.Alloc(st, size, alignment, region, lifetime).status == Ok {
      var k, cut := Q.AllocIsTaken(st, size, alignment, region, lifetime);
    }
  }

  lemma CreateKeeps(w: World, pools: seq<seq<Block>>, size: U64, alignment: U32, region: U32, lifetime: T.Lifetime)
    requires WorldInv(w, pools)
    ensures WorldInv(Step(w, Create(size, alignment, region, lifetime)), pools)
  {
    hide P.Inv, T.Alloc;
    var st := w.f.mem;
    P.InvFacts(st, pools);
    var res := T.Alloc(st, size, alignment, region, lifetime);
    Q.AllocKeepsInv(st, pools, size, alignment, region, lifetime);
    CreatedMem(st, pools, size, alignment, region, lifetime);
    if res.status == Ok {
      NewTensorAccounts(st.tensors, w.f.windows, w.held, res.tensor.value, st.nextId);
    }
  }

  lemma NewTensorAccounts(ts: seq<T.Tensor>, ws: seq<Window>, held: set<nat>, t: T.Tensor, nextId: nat)
    requires Accounts(ts, ws, held) && P.TensorsOk(ts, nextId) && t.id == nextId && t.refCount == 1
    ensures Accounts(ts + [t], ws, held + {t.id})
  {
    var us, held' := ts + [t], held + {t.id};
    assert !Live(ts, nextId);
    UsesNothing(ws, |ws|, nextId);
    forall i | 0 <= i < |us| ensures us[i].refCount == Creator(held', us[i].id) + Uses(ws, us[i].id) {
    }
    forall j | 0 <= j < |ws| && ws[j].active ensures Live(us, ws[j].tensorId) {
      LiveAppend(ts, t, ws[j].tensorId);
    }
    forall id | id in held' ensures Live(us, id) {
      LiveAppend(ts, t, id);
    }
  }

  lemma DropKeeps(w: World, pools: seq<seq<Block>>, id: U32)
    requires WorldInv(w, pools) && id in w.held
    ensures WorldInv(Step(w, Drop(id)), pools)
  {
    hide P.Inv;
    var st, ws := w.f.mem, w.f.windows;
    P.InvFacts(st, pools);
    assert Live(st.tensors, id);
    var i :| 0 <= i < |st.tensors| && st.tensors[i].id == id;
    FindUnique(st.tensors, st.nextId, i);
    UsesBound(st.tensors, ws, w.held, i);
    var n := st.tensors[i].refCount;
    assert n == 1 + Uses(ws, id);
    if n > 1 {
      CreatorSetKeeps(st, pools, ws, w.held, i);
    } else if st.blocksUsed < T.MAX_BLOCKS {
      AfterRelease(st, pools, ws, w.held, i, ws, w.held - {id});
    }
  }

  lemma CreatorSetKeeps(st: T.State, pools: seq<seq<Block>>, ws: seq<Window>, held: set<nat>, i: nat)
    requires Settled(st, pools, ws, held) && i < |st.tensors| && st.tensors[i].id in held && st.tensors[i].refCount > 1
    ensures Settled(T.SetRef(st, i, st.tensors[i].refCount - 1), pools, ws, held - {st.tensors[i].id})
  {
    hide P.Inv;
    UsesBound(st.tensors, ws, held, i);
    AfterSet(st, pools, ws, held, i, st.tensors[i].refCount - 1, ws, held - {st.tensors[i].id});
  }

  lemma WindowsAfterPut(ts: seq<T.Tensor>, ws: seq<Window>, i: nat, w: Window)
    requires WindowsOk(ts, ws) && i <= |ws| && (i == |ws| ==> |ws| < MAX_WINDOWS)
    requires w.active && Live(ts, w.tensorId) && WritersRead(w)
    ensures WindowsOk(ts, PutWindow(ws, i, w))
  {
  }

  lemma NewWindowNests(id: nat, owner: nat, t: T.Tensor, readers: bv32, writers: bv32)
    ensures WritersRead(NewWindow(id, owner, t, readers, writers))
  {
    hide Bit;
    var b := Bit(owner);
    assert (writers | b) & !(readers | b | writers) == 0;
  }

  /** A share that fails leaves the whole fabric, and every count, as it was. */
  lemma FailedShareChangesNothing(w: World, pools: seq<seq<Block>>, owner: U32, tensorId: U32, readers: bv32, writers: bv32)
    requires WorldInv(w, pools) && Share(w.f, owner, tensorId, readers, writers).1 != Ok
    ensures Share(w.f, owner, tensorId, readers, writers).0 == w.f
  {
    var found := T.FindTensor(w.f.mem.tensors, tensorId);
    if tensorId != 0 && found.Some? {
      UsesBound(w.f.mem.tensors, w.f.windows, w.held, found.value);
      RefThenUnref(w.f.mem, pools, found.value);
    }
  }

  lemma ShareKeeps(w: World, pools: seq<seq<Block>>, owner: U32, tensorId: U32, readers: bv32, writers: bv32)
    requires WorldInv(w, pools)
    ensures WorldInv(Step(w, ShareOp(owner, tensorId, readers, writers)), pools)
  {
    hide P.Inv, Share;
    P.InvFacts(w.f.mem, pools);
    if Share(w.f, owner, tensorId, readers, writers).1 != Ok {
      FailedShareChangesNothing(w, pools, owner, tensorId, readers, writers);
    } else {
      SharedKeeps(w, pools, owner, tensorId, readers, writers);
    }
  }

  /** What a successful share does, with the slot and the tensor it found. */
  lemma ShareIs(f: Fabric, owner: U32, tensorId: U32, readers: bv32, writers: bv32) returns (i: nat, slot: nat, win: Window)
    requires T.Shaped(f.mem) && Share(f, owner, tensorId, readers, writers).1 == Ok
    ensures i < |f.mem.tensors| && f.mem.tensors[i].id == tensorId
    ensures slot <= |f.windows| && (slot < |f.windows| ==> !f.windows[slot].active)
    ensures slot == |f.windows| ==> |f.windows| < MAX_WINDOWS
    ensures win.active && win.tensorId == tensorId && WritersRead(win)
    ensures var f' := Share(f, owner, tensorId, readers, writers).0;
            f'.mem == T.Ref(f.mem, tensorId).0 && f'.windows == PutWindow(f.windows, slot, win)
  {
    hide T.Ref, T.Unref, NewWindow, WritersRead;
    i, slot := T.FindTensor(f.mem.tensors, tensorId).value, FreeSlot(f.windows).value;
    win := NewWindow(f.nextWindowId, owner, f.mem.tensors[i], readers, writers);
    NewWindowNests(f.nextWindowId, owner, f.mem.tensors[i], readers, writers);
  }

  lemma SharedKeeps(w: World, pools: seq<seq<Block>>, owner: U32, tensorId: U32, readers: bv32, writers: bv32)
    requires WorldInv(w, pools) && Share(w.f, owner, tensorId, readers, writers).1 == Ok
    ensures var f' := Share(w.f, owner, tensorId, readers, writers).0; Settled(f'.mem, pools, f'.windows, w.held)
  {
    hide P.Inv, Share, T.Ref, WritersRead;
    P.InvFacts(w.f.mem, pools);
    var i, slot, win := ShareIs(w.f, owner, tensorId, readers, writers);
    SharedMem(w, pools, i);
    SharedAccounts(w.f.mem.tensors, w.f.windows, w.held, w.f.mem.nextId, i, slot, win);
  }

  lemma SharedMem(w: World, pools: seq<seq<Block>>, i: nat)
    requires WorldInv(w, pools) && i < |w.f.mem.tensors|
    ensures var st := w.f.mem; var st' := T.Ref(st, st.tensors[i].id).0;
            && st' == T.SetRef(st, i, st.tensors[i].refCount + 1) && P.Inv(st', pools) && ZeroMeansStuck(st')
  {
    hide P.Inv;
    var st := w.f.mem;
    P.InvFacts(st, pools);
    UsesBound(st.tensors, w.f.windows, w.held, i);
    RefFound(st, pools, i);
    P.SetRefKeepsInv(st, pools, i, st.tensors[i].refCount + 1);
  }

  lemma SharedAccounts(ts: seq<T.Tensor>, ws: seq<Window>, held: set<nat>, nextId: nat, i: nat, slot: nat, win: Window)
    requires Accounts(ts, ws, held) && P.TensorsOk(ts, nextId) && i < |ts|
    requires slot <= |ws| && (slot < |ws| ==> !ws[slot].active) && (slot == |ws| ==> |ws| < MAX_WINDOWS)
    requires win.active && win.tensorId == ts[i].id && WritersRead(win)
    ensures Accounts(ts[i := ts[i].(refCount := ts[i].refCount + 1)], PutWindow(ws, slot, win), held)
  {
    WindowsAfterPut(ts, ws, slot, win);
    var ws' := PutWindow(ws, slot, win);
    forall id ensures Uses(ws', id) == Uses(ws, id) + (if win.tensorId == id then 1 else 0) {
      UsesPut(ws, slot, win, id);
    }
    RefsSet(ts, ws, held, i, ts[i].refCount + 1, ws', held, nextId);
    WindowsAfterSet(ts, ws', i, ts[i].refCount + 1);
    HeldAfterSet(ts, held, i, ts[i].refCount + 1);
  }

  lemma WindowsAfterClose(ts: seq<T.Tensor>, ws: seq<Window>, j: nat)
    requires WindowsOk(ts, ws) && j < |ws|
    ensures WindowsOk(ts, ws[j := Closed(ws[j])])
  {
    var ws' := ws[j := Closed(ws[j])];
    forall k | 0 <= k < |ws'| ensures WritersRead(ws'[k]) {
    }
  }

  lemma ReleaseKeeps(w: World, pools: seq<seq<Block>>, windowId: U32)
    requires WorldInv(w, pools)
    ensures WorldInv(Step(w, ReleaseOp(windowId)), pools)
  {
    hide P.Inv, T.Unref;
    P.InvFacts(w.f.mem, pools);
    var found := FindWindow(w.f.windows, windowId);
    if found.Some? {
      ReleasedKeeps(w, pools, found.value);
    }
  }

  lemma ReleasedKeeps(w: World, pools: seq<seq<Block>>, j: nat)
    requires WorldInv(w, pools) && j < |w.f.windows| && w.f.windows[j].active
    ensures var st' := T.Unref(w.f.mem, w.f.windows[j].tensorId).0;
            Settled(st', pools, w.f.windows[j := Closed(w.f.windows[j])], w.held)
  {
    hide P.Inv, T.Unref, Dropped;
    var st, ws := w.f.mem, w.f.windows;
    P.InvFacts(st, pools);
    assert Live(st.tensors, ws[j].tensorId);
    var i :| 0 <= i < |st.tensors| && st.tensors[i].id == ws[j].tensorId;
    ClosedUses(st.tensors, ws, w.held, i, j);
    UnrefIsDropped(st, pools, i);
    if st.tensors[i].refCount == 1 && st.blocksUsed < T.MAX_BLOCKS {
      LastDropKeeps(st, pools, ws, w.held, i, j);
    } else {
      OtherDropKeeps(st, pools, ws, w.held, i, j);
    }
  }

  lemma UnrefIsDropped(st: T.State, pools: seq<seq<Block>>, i: nat)
    requires P.Inv(st, pools) && i < |st.tensors| && st.tensors[i].refCount > 0
    ensures T.Unref(st, st.tensors[i].id).0 == Dropped(st, i)
  {
    UnrefCases(st, pools, i);
    ReleasedAfterZero(st, i);
  }

  /** The tensor state after the reference on tensor `i` is dropped. */
  function Dropped(st: T.State, i: nat): T.State
    requires T.Shaped(st) && i < |st.tensors| && st.tensors[i].refCount > 0
  {
    if st.tensors[i].refCount == 1 && st.blocksUsed < T.MAX_BLOCKS then T.Released(st, i)
    else T.SetRef(st, i, st.tensors[i].refCount - 1)
  }

  lemma LastDropKeeps(st: T.State, pools: seq<seq<Block>>, ws: seq<Window>, held: set<nat>, i: nat, j: nat)
    requires Settled(st, pools, ws, held) && i < |st.tensors|
    requires j < |ws| && ws[j].active && ws[j].tensorId == st.tensors[i].id
    requires st.tensors[i].refCount == 1 && st.blocksUsed < T.MAX_BLOCKS
    ensures Settled(Dropped(st, i), pools, ws[j := Closed(ws[j])], held)
  {
    ClosedUses(st.tensors, ws, held, i, j);
    AfterRelease(st, pools, ws, held, i, ws[j := Closed(ws[j])], held);
  }

  lemma OtherDropKeeps(st: T.State, pools: seq<seq<Block>>, ws: seq<Window>, held: set<nat>, i: nat, j: nat)
    requires Settled(st, pools, ws, held) && i < |st.tensors|
    requires j < |ws| && ws[j].active && ws[j].tensorId == st.tensors[i].id
    requires st.tensors[i].refCount > 0 && !(st.tensors[i].refCount == 1 && st.blocksUsed < T.MAX_BLOCKS)
    ensures Settled(Dropped(st, i), pools, ws[j := Closed(ws[j])], held)
  {
    hide P.Inv;
    ClosedUses(st.tensors, ws, held, i, j);
    AfterSet(st, pools, ws, held, i, st.tensors[i].refCount - 1, ws[j := Closed(ws[j])], held);
  }

  /** Closing a window takes exactly its own use away. */
  lemma ClosedUses(ts: seq<T.Tensor>, ws: seq<Window>, held: set<nat>, i: nat, j: nat)
    requires Accounts(ts, ws, held) && i < |ts| && j < |ws| && ws[j].active && ws[j].tensorId == ts[i].id
    ensures var ws' := ws[j := Closed(ws[j])]; var id := ts[i].id;
            && WindowsOk(ts, ws')
            && (forall x :: x != id ==> Uses(ws', x) == Uses(ws, x))
            && 1 <= ts[i].refCount <= 1 + MAX_WINDOWS
            && ts[i].refCount - 1 == Creator(held, id) + Uses(ws', id)
            && (ts[i].refCount == 1 ==> held == held - {id})
  {
    UsesPositive(ws, j, |ws|, ts[i].id);
    UsesBound(ts, ws, held, i);
    WindowsAfterClose(ts, ws, j);
    forall x ensures Uses(ws[j := Closed(ws[j])], x) == Uses(ws, x) - (if ts[i].id == x then 1 else 0) {
      UsesClose(ws, j, x);
    }
  }

  lemma AttachedAccounts(ts: seq<T.Tensor>, ws: seq<Window>, held: set<nat>, i: nat, n: nat)
    requires Accounts(ts, ws, held) && i < |ws|
    ensures Accounts(ts, ws[i := ws[i].(mapCount := n)], held)
  {
    forall x ensures Uses(ws[i := ws[i].(mapCount := n)], x) == Uses(ws, x) {
      UsesMapped(ws, i, n, x);
    }
  }

  lemma AttachKeeps(w: World, pools: seq<seq<Block>>, windowId: U32, domainId: U32, write: bool)
    requires WorldInv(w, pools)
    ensures WorldInv(Step(w, AttachOp(windowId, domainId, write)), pools)
  {
    hide P.Inv;
    var f' := Attach(w.f, windowId, domainId, write).0;
    var found := FindWindow(w.f.windows, windowId);
    if found.Some? {
      AttachedAccounts(w.f.mem.tensors, w.f.windows, w.held, found.value, f'.windows[found.value].mapCount);
    }
  }

  lemma StepKeeps(w: World, pools: seq<seq<Block>>, op: Op)
    requires WorldInv(w, pools) && Allowed(w, op)
    ensures WorldInv(Step(w, op), pools)
  {
    match op
    case Create(size, alignment, region, lifetime) => CreateKeeps(w, pools, size, alignment, region, lifetime);
    case Drop(id) => DropKeeps(w, pools, id);
    case ShareOp(owner, tensorId, readers, writers) => ShareKeeps(w, pools, owner, tensorId, readers, writers);
    case AttachOp(windowId, domainId, write) => AttachKeeps(w, pools, windowId, domainId, write);
    case ReleaseOp(windowId) => ReleaseKeeps(w, pools, windowId);
    case OpenOp(budgetKib) =>
  }

  /** Every call of the run is allowed where it is made. */
  ghost predicate Legal(w: World, pools: seq<seq<Block>>, ops: seq<Op>)
    requires WorldInv(w, pools)
    decreases |ops|
  {
    ops == [] || (Allowed(w, ops[0]) && (StepKeeps(w, pools, ops[0]); Legal(Step(w, ops[0]), pools, ops[1..])))
  }

  /** The world at the end of a legal run, which keeps the accounts whatever the calls were. */
  ghost function Run(w: World, pools: seq<seq<Block>>, ops: seq<Op>): (w': World)
    requires WorldInv(w, pools) && Legal(w, pools, ops)
    ensures WorldInv(w', pools)
    decreases |ops|
  {
    if ops == [] then w
    else
      StepKeeps(w, pools, ops[0]);
      Run(Step(w, ops[0]), pools, ops[1..])
  }

  /** A fabric over a manager without tensors, whatever domains it starts with: every run from there keeps the accounts. */
  lemma FreshWorld(st: T.State, pools: seq<seq<Block>>, domains: seq<Domain>, nextDomainId: nat)
    requires P.Inv(st, pools) && st.tensors == []
    ensures WorldInv(World(Fabric(st, [], 1, domains, nextDomainId), {}), pools)
  {
    hide P.Inv;
  }

  /** Lifetime of shared windows, over every legal run. */
  lemma SharedTensorsStayLive(w: World, pools: seq<seq<Block>>, ops: seq<Op>, j: nat)
    requires WorldInv(w, pools) && Legal(w, pools, ops)
    requires var ws := Run(w, pools, ops).f.windows; j < |ws| && ws[j].active
    ensures var w' := Run(w, pools, ops); var win := w'.f.windows[j];
            && WritersRead(win)
            && exists i :: && 0 <= i < |w'.f.mem.tensors| && w'.f.mem.tensors[i].id == win.tensorId
                           && w'.f.mem.tensors[i].refCount == Creator(w'.held, win.tensorId) + Uses(w'.f.windows, win.tensorId)
                           && w'.f.mem.tensors[i].refCount > 0
  {
    var w' := Run(w, pools, ops);
    var id := w'.f.windows[j].tensorId;
    assert Live(w'.f.mem.tensors, id);
    var i :| 0 <= i < |w'.f.mem.tensors| && w'.f.mem.tensors[i].id == id;
    UsesPositive(w'.f.windows, j, |w'.f.windows|, id);
  }
}
