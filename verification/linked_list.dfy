/**
 The intrusive doubly linked lists of the tensor free lists, the kernel heap and the scheduler run
 queues. A cell is named by its index in the static pool it comes from, or by the offset of its
 header; several lists share one store of cells. Each method performs the pointer writes of one C idiom, and the ghost field `chains`
 is what the links spell.
 */
module LinkedList {
  import opened Types

  datatype Cell<T> = Cell(val: T, next: Option<nat>, prev: Option<nat>)
  type Store<T> = map<nat, Cell<T>>

  /** The sequence with `x` inserted before position `k`. */
  function Insert<T>(s: seq<T>, k: nat, x: T): (r: seq<T>)
    requires k <= |s|
    ensures |r| == |s| + 1
    ensures r[k] == x
    ensures forall i {:trigger r[i]} :: 0 <= i < k ==> r[i] == s[i]
    ensures forall i {:trigger r[i]} :: k < i < |r| ==> r[i] == s[i - 1]
  {
    seq(|s| + 1, i requires 0 <= i <= |s| => if i < k then s[i] else if i == k then x else s[i - 1])
  }

  /** The sequence without its element at position `k`. */
  function Remove<T>(s: seq<T>, k: nat): (r: seq<T>)
    requires k < |s|
    ensures |r| == |s| - 1
    ensures forall i {:trigger r[i]} :: 0 <= i < k ==> r[i] == s[i]
    ensures forall i {:trigger r[i]} :: k <= i < |r| ==> r[i] == s[i + 1]
  {
    seq(|s| - 1, i requires 0 <= i < |s| - 1 => if i < k then s[i] else s[i + 1])
  }

  function At(chain: seq<nat>, i: int): Option<nat> {
    if 0 <= i < |chain| then Some(chain[i]) else None
  }

  ghost predicate Distinct(chain: seq<nat>) {
    forall i, j :: 0 <= i < j < |chain| ==> chain[i] != chain[j]
  }

  ghost predicate LinkAt<T>(m: Store<T>, chain: seq<nat>, i: int)
    requires 0 <= i < |chain|
  {
    && chain[i] in m
    && m[chain[i]].next == At(chain, i + 1)
    && m[chain[i]].prev == At(chain, i - 1)
  }

  /** Following `next` from the head spells `chain`, and `prev` is its mirror image. */
  ghost predicate Linked<T>(m: Store<T>, head: Option<nat>, chain: seq<nat>) {
    && Distinct(chain)
    && Within(m, chain)
    && head == At(chain, 0)
    && forall i :: 0 <= i < |chain| ==> LinkAt(m, chain, i)
  }

  ghost predicate Within<T>(m: Store<T>, chain: seq<nat>) {
    forall i :: 0 <= i < |chain| ==> chain[i] in m
  }

  /** The payloads of a chain, head first. */
  ghost function Values<T>(m: Store<T>, chain: seq<nat>): (s: seq<T>)
    requires Within(m, chain)
    ensures |s| == |chain|
    ensures forall i :: 0 <= i < |s| ==> s[i] == m[chain[i]].val
  {
    seq(|chain|, i requires 0 <= i < |chain| => m[chain[i]].val)
  }

  function WithNext<T>(m: Store<T>, n: nat, p: Option<nat>): Store<T>
    requires n in m
  {
    m[n := m[n].(next := p)]
  }

  function WithPrev<T>(m: Store<T>, n: nat, p: Option<nat>): Store<T>
    requires n in m
  {
    m[n := m[n].(prev := p)]
  }

  lemma DistinctInsert(chain: seq<nat>, k: nat, n: nat)
    requires Distinct(chain) && k <= |chain| && n !in chain
    ensures Distinct(Insert(chain, k, n))
  {
  }

  lemma DistinctRemove(chain: seq<nat>, k: nat)
    requires Distinct(chain) && k < |chain|
    ensures Distinct(Remove(chain, k))
  {
  }

  lemma LinkedInsert<T>(m: Store<T>, m': Store<T>, head: Option<nat>, chain: seq<nat>, k: nat, n: nat)
    requires Linked(m, head, chain) && k <= |chain| && n in m && n !in chain
    requires m'.Keys == m.Keys
    requires m'[n].next == At(chain, k) && m'[n].prev == At(chain, k - 1)
    requires forall x :: x in m && x != n ==>
               && m'[x].next == (if Some(x) == At(chain, k - 1) then Some(n) else m[x].next)
               && m'[x].prev == (if Some(x) == At(chain, k) then Some(n) else m[x].prev)
    ensures Linked(m', if k == 0 then Some(n) else head, Insert(chain, k, n))
  {
    var c := Insert(chain, k, n);
    DistinctInsert(chain, k, n);
    forall i | 0 <= i < |c| ensures LinkAt(m', c, i) {
      if i < k {
        assert LinkAt(m, chain, i);
      } else if i > k {
        assert LinkAt(m, chain, i - 1);
      }
    }
  }

  lemma LinkedRemove<T>(m: Store<T>, m': Store<T>, head: Option<nat>, chain: seq<nat>, k: nat)
    requires Linked(m, head, chain) && k < |chain|
    requires m'.Keys == m.Keys
    requires forall x :: x in m && x != chain[k] ==>
               && m'[x].next == (if Some(x) == At(chain, k - 1) then At(chain, k + 1) else m[x].next)
               && m'[x].prev == (if Some(x) == At(chain, k + 1) then At(chain, k - 1) else m[x].prev)
    ensures Linked(m', if k == 0 then At(chain, 1) else head, Remove(chain, k))
  {
    var c := Remove(chain, k);
    DistinctRemove(chain, k);
    forall i | 0 <= i < |c| ensures LinkAt(m', c, i) {
      if i < k {
        assert LinkAt(m, chain, i);
      } else {
        assert LinkAt(m, chain, i + 1);
      }
    }
  }

  /** A list none of whose cells changed its links is still the same list. */
  lemma LinkedFrame<T>(m: Store<T>, m': Store<T>, head: Option<nat>, chain: seq<nat>)
    requires Linked(m, head, chain)
    requires forall x :: x in chain ==> x in m && x in m' && m'[x].next == m[x].next && m'[x].prev == m[x].prev
    ensures Linked(m', head, chain)
  {
    forall i | 0 <= i < |chain| ensures LinkAt(m', chain, i) {
      assert LinkAt(m, chain, i);
      assert chain[i] in chain;
    }
  }

  /** What the links of the cell at position `k` name: its distinct neighbours. */
  lemma Neighbours<T>(m: Store<T>, head: Option<nat>, chain: seq<nat>, k: nat)
    requires Linked(m, head, chain) && k < |chain|
    ensures Within(m, chain)
    ensures m[chain[k]].next == At(chain, k + 1) && m[chain[k]].prev == At(chain, k - 1)
    ensures At(chain, k + 1) != Some(chain[k]) && At(chain, k - 1) != Some(chain[k])
    ensures At(chain, k + 1) == At(chain, k - 1) ==> |chain| == 1
    ensures At(chain, k + 1).Some? ==> At(chain, k + 1).value in m
    ensures At(chain, k - 1).Some? ==> At(chain, k - 1).value in m
  {
    assert LinkAt(m, chain, k);
  }

  ghost predicate Apart(chains: seq<seq<nat>>) {
    forall a, b, x :: 0 <= a < b < |chains| && x in chains[a] ==> x !in chains[b]
  }

  /** List `l` and all later ones are linked, and `contents` records their payloads. */
  ghost predicate LinkedFrom<T>(m: Store<T>, heads: seq<Option<nat>>, chains: seq<seq<nat>>, contents: seq<seq<T>>, l: nat)
    requires |heads| == |chains| == |contents| && l <= |chains|
    decreases |chains| - l
  {
    l < |chains| ==>
      && Linked(m, heads[l], chains[l])
      && contents[l] == Values(m, chains[l])
      && LinkedFrom(m, heads, chains, contents, l + 1)
  }

  ghost predicate AllLinked<T>(m: Store<T>, heads: seq<Option<nat>>, chains: seq<seq<nat>>, contents: seq<seq<T>>) {
    && |heads| == |chains| == |contents|
    && Apart(chains)
    && LinkedFrom(m, heads, chains, contents, 0)
  }

  lemma {:induction false} LinkedFromIntro<T>(m: Store<T>, heads: seq<Option<nat>>, chains: seq<seq<nat>>, contents: seq<seq<T>>, l: nat)
    requires |heads| == |chains| == |contents| && l <= |chains|
    requires forall a :: l <= a < |chains| ==> Linked(m, heads[a], chains[a]) && contents[a] == Values(m, chains[a])
    ensures LinkedFrom(m, heads, chains, contents, l)
    decreases |chains| - l
  {
    if l < |chains| {
      LinkedFromIntro(m, heads, chains, contents, l + 1);
    }
  }

  lemma {:induction false} LinkedFromAt<T>(m: Store<T>, heads: seq<Option<nat>>, chains: seq<seq<nat>>, contents: seq<seq<T>>, l: nat, a: nat)
    requires |heads| == |chains| == |contents| && l <= a < |chains|
    requires LinkedFrom(m, heads, chains, contents, l)
    ensures Linked(m, heads[a], chains[a]) && contents[a] == Values(m, chains[a])
    decreases |chains| - l
  {
    if l < a {
      LinkedFromAt(m, heads, chains, contents, l + 1, a);
    }
  }

  ghost predicate SameVals<T>(m: Store<T>, m': Store<T>) {
    m'.Keys == m.Keys && forall x :: x in m ==> m'[x].val == m[x].val
  }

  lemma ValuesFrame<T>(m: Store<T>, m': Store<T>, chain: seq<nat>)
    requires Within(m, chain) && Within(m', chain)
    requires forall i :: 0 <= i < |chain| ==> m'[chain[i]].val == m[chain[i]].val
    ensures Values(m', chain) == Values(m, chain)
  {
  }

  lemma ValuesInsert<T>(m: Store<T>, chain: seq<nat>, k: nat, n: nat)
    requires Within(m, chain) && n in m && k <= |chain|
    ensures Within(m, Insert(chain, k, n))
    ensures Values(m, Insert(chain, k, n)) == Insert(Values(m, chain), k, m[n].val)
  {
  }

  lemma ValuesRemove<T>(m: Store<T>, chain: seq<nat>, k: nat)
    requires Within(m, chain) && k < |chain|
    ensures Within(m, Remove(chain, k))
    ensures Values(m, Remove(chain, k)) == Remove(Values(m, chain), k)
  {
  }

  ghost predicate OnNone(chains: seq<seq<nat>>, n: nat) {
    forall l :: 0 <= l < |chains| ==> n !in chains[l]
  }

  /** A list whose cells kept their links and payloads is still the same list. */
  lemma ListFrame<T>(m: Store<T>, m': Store<T>, hs: seq<Option<nat>>, cs: seq<seq<nat>>, vs: seq<seq<T>>, a: nat)
    requires AllLinked(m, hs, cs, vs) && a < |cs|
    requires forall x :: x in cs[a] ==>
               x in m && x in m' && m'[x].next == m[x].next && m'[x].prev == m[x].prev && m'[x].val == m[x].val
    ensures Linked(m', hs[a], cs[a]) && vs[a] == Values(m', cs[a])
  {
    LinkedFromAt(m, hs, cs, vs, 0, a);
    LinkedFrame(m, m', hs[a], cs[a]);
    ValuesFrame(m, m', cs[a]);
  }

  lemma AllInsert<T>(m: Store<T>, m': Store<T>, hs: seq<Option<nat>>, cs: seq<seq<nat>>, vs: seq<seq<T>>, l: nat, k: nat, n: nat)
    requires AllLinked(m, hs, cs, vs) && OnNone(cs, n)
    requires l < |cs| && k <= |cs[l]| && n in m && SameVals(m, m')
    requires m'[n].next == At(cs[l], k) && m'[n].prev == At(cs[l], k - 1)
    requires forall x :: x in m && x != n ==>
               && m'[x].next == (if Some(x) == At(cs[l], k - 1) then Some(n) else m[x].next)
               && m'[x].prev == (if Some(x) == At(cs[l], k) then Some(n) else m[x].prev)
    ensures |vs[l]| == |cs[l]|
    ensures AllLinked(m', if k == 0 then hs[l := Some(n)] else hs, cs[l := Insert(cs[l], k, n)],
                      vs[l := Insert(vs[l], k, m[n].val)])
  {
    assert |vs[l]| == |cs[l]| && Within(m, cs[l]) by {
      LinkedFromAt(m, hs, cs, vs, 0, l);
    }
    var hs' := if k == 0 then hs[l := Some(n)] else hs;
    var cs', vs' := cs[l := Insert(cs[l], k, n)], vs[l := Insert(vs[l], k, m[n].val)];
    assert Apart(cs') by {
      forall x | x in cs'[l] ensures x == n || x in cs[l] {
      }
    }
    forall a | 0 <= a < |cs| ensures Linked(m', hs'[a], cs'[a]) && vs'[a] == Values(m', cs'[a]) {
      LinkedFromAt(m, hs, cs, vs, 0, a);
      if a != l {
        ListFrame(m, m', hs, cs, vs, a);
      } else {
        LinkedInsert(m, m', hs[l], cs[l], k, n);
        ValuesFrame(m, m', cs[l]);
        ValuesInsert(m', cs[l], k, n);
      }
    }
    LinkedFromIntro(m', hs', cs', vs', 0);
  }

  lemma AllRemove<T>(m: Store<T>, m': Store<T>, hs: seq<Option<nat>>, cs: seq<seq<nat>>, vs: seq<seq<T>>, l: nat, k: nat)
    requires AllLinked(m, hs, cs, vs)
    requires l < |cs| && k < |cs[l]| && SameVals(m, m')
    requires forall x :: x in m && x != cs[l][k] ==>
               && m'[x].next == (if Some(x) == At(cs[l], k - 1) then At(cs[l], k + 1) else m[x].next)
               && m'[x].prev == (if Some(x) == At(cs[l], k + 1) then At(cs[l], k - 1) else m[x].prev)
    ensures |vs[l]| == |cs[l]|
    ensures AllLinked(m', if k == 0 then hs[l := At(cs[l], 1)] else hs, cs[l := Remove(cs[l], k)], vs[l := Remove(vs[l], k)])
    ensures OnNone(cs[l := Remove(cs[l], k)], cs[l][k])
  {
    assert |vs[l]| == |cs[l]| && Within(m, cs[l]) && Distinct(cs[l]) by {
      LinkedFromAt(m, hs, cs, vs, 0, l);
    }
    var hs' := if k == 0 then hs[l := At(cs[l], 1)] else hs;
    var cs', vs' := cs[l := Remove(cs[l], k)], vs[l := Remove(vs[l], k)];
    assert Apart(cs') && OnNone(cs', cs[l][k]) by {
      forall x | x in cs'[l] ensures x in cs[l] && x != cs[l][k] {
      }
    }
    forall a | 0 <= a < |cs| ensures Linked(m', hs'[a], cs'[a]) && vs'[a] == Values(m', cs'[a]) {
      LinkedFromAt(m, hs, cs, vs, 0, a);
      if a != l {
        ListFrame(m, m', hs, cs, vs, a);
      } else {
        LinkedRemove(m, m', hs[l], cs[l], k);
        ValuesFrame(m, m', cs[l]);
        ValuesRemove(m', cs[l], k);
      }
    }
    LinkedFromIntro(m', hs', cs', vs', 0);
  }

  /** A new payload for the cell at position `k` of list `l`. */
  lemma AllSetAt<T>(m: Store<T>, hs: seq<Option<nat>>, cs: seq<seq<nat>>, vs: seq<seq<T>>, l: nat, k: nat, v: T)
    requires AllLinked(m, hs, cs, vs) && l < |cs| && k < |cs[l]|
    ensures cs[l][k] in m && |vs[l]| == |cs[l]|
    ensures var n := cs[l][k]; AllLinked(m[n := m[n].(val := v)], hs, cs, vs[l := vs[l][k := v]])
  {
    var n := cs[l][k];
    LinkedFromAt(m, hs, cs, vs, 0, l);
    var m', vs' := m[n := m[n].(val := v)], vs[l := vs[l][k := v]];
    forall a | 0 <= a < |cs| ensures Linked(m', hs[a], cs[a]) && vs'[a] == Values(m', cs[a]) {
      LinkedFromAt(m, hs, cs, vs, 0, a);
      if a != l {
        assert n in cs[l] && n !in cs[a];
        ListFrame(m, m', hs, cs, vs, a);
      } else {
        LinkedFrame(m, m', hs[l], cs[l]);
      }
    }
    LinkedFromIntro(m', hs, cs, vs', 0);
  }

  /** Nothing on a list depends on a cell that is on none. */
  lemma AllSetLoose<T>(m: Store<T>, hs: seq<Option<nat>>, cs: seq<seq<nat>>, vs: seq<seq<T>>, n: nat, c: Cell<T>)
    requires AllLinked(m, hs, cs, vs) && OnNone(cs, n)
    ensures AllLinked(m[n := c], hs, cs, vs)
  {
    forall a | 0 <= a < |cs| ensures Linked(m[n := c], hs[a], cs[a]) && vs[a] == Values(m[n := c], cs[a]) {
      LinkedFromAt(m, hs, cs, vs, 0, a);
      ListFrame(m, m[n := c], hs, cs, vs, a);
    }
    LinkedFromIntro(m[n := c], hs, cs, vs, 0);
  }

  /** Several lists over one store of cells: no cell is on two lists. */
  class Lists<T> {
    var cells: Store<T>
    var heads: seq<Option<nat>>
    ghost var chains: seq<seq<nat>>
    ghost var contents: seq<seq<T>>

    ghost predicate Valid()
      reads this
    {
      AllLinked(cells, heads, chains, contents)
    }

    lemma Sizes()
      requires Valid()
      ensures |heads| == |chains| == |contents|
    {
    }

    /** What list `l` looks like. */
    lemma ListAt(l: nat)
      requires Valid() && l < |chains|
      ensures Linked(cells, heads[l], chains[l]) && contents[l] == Values(cells, chains[l])
      ensures |contents[l]| == |chains[l]|
    {
      LinkedFromAt(cells, heads, chains, contents, 0, l);
    }

    /** The links of the cell at position `k` of list `l` name its two distinct neighbours. */
    lemma Around(l: nat, k: nat)
      requires Valid() && l < |chains| && k < |chains[l]|
      ensures |contents[l]| == |chains[l]| && chains[l][k] in cells
      ensures cells[chains[l][k]].val == contents[l][k]
      ensures cells[chains[l][k]].next == At(chains[l], k + 1) && cells[chains[l][k]].prev == At(chains[l], k - 1)
      ensures At(chains[l], k + 1) != Some(chains[l][k]) && At(chains[l], k - 1) != Some(chains[l][k])
      ensures At(chains[l], k + 1) == At(chains[l], k - 1) ==> |chains[l]| == 1
      ensures At(chains[l], k + 1).Some? ==> At(chains[l], k + 1).value in cells
      ensures At(chains[l], k - 1).Some? ==> At(chains[l], k - 1).value in cells
      ensures k == 0 <==> heads[l] == Some(chains[l][k])
    {
      ListAt(l);
      Neighbours(cells, heads[l], chains[l], k);
    }

    constructor (count: nat)
      ensures Valid() && cells == map[] && chains == seq(count, _ => []) && contents == seq(count, _ => [])
    {
      cells := map[];
      heads := seq(count, _ => None);
      chains := seq(count, _ => []);
      contents := seq(count, _ => []);
      new;
      LinkedFromIntro(cells, heads, chains, contents, 0);
    }

    /** `n` becomes the new head of list `l`. */
    method PushFront(l: nat, n: nat)
      requires Valid() && l < |chains| && n in cells && OnNone(chains, n)
      modifies this
      ensures Valid() && SameVals(old(cells), cells)
      ensures chains == old(chains)[l := Insert(old(chains)[l], 0, n)]
      ensures contents == old(contents)[l := Insert(old(contents)[l], 0, old(cells)[n].val)]
    {
      ListAt(l);
      var head := heads[l];
      cells := WithPrev(WithNext(cells, n, head), n, None);
      if head.Some? {
        cells := WithPrev(cells, head.value, Some(n));
      }
      heads := heads[l := Some(n)];
      AllInsert(old(cells), cells, old(heads), chains, contents, l, 0, n);
      chains := chains[l := Insert(chains[l], 0, n)];
      contents := contents[l := Insert(contents[l], 0, old(cells)[n].val)];
    }

    /** `n` is linked right behind `curr`, which sits at position `k` of list `l`. */
    method InsertAfter(l: nat, curr: nat, n: nat, ghost k: nat)
      requires Valid() && l < |chains| && n in cells && OnNone(chains, n)
      requires k < |chains[l]| && chains[l][k] == curr
      modifies this
      ensures Valid() && SameVals(old(cells), cells)
      ensures |old(contents)[l]| == |old(chains)[l]|
      ensures chains == old(chains)[l := Insert(old(chains)[l], k + 1, n)]
      ensures contents == old(contents)[l := Insert(old(contents)[l], k + 1, old(cells)[n].val)]
    {
      Around(l, k);
      var after := cells[curr].next;
      cells := WithPrev(WithNext(cells, n, after), n, Some(curr));
      if after.Some? {
        cells := WithPrev(cells, after.value, Some(n));
      }
      cells := WithNext(cells, curr, Some(n));
      AllInsert(old(cells), cells, old(heads), chains, contents, l, k + 1, n);
      chains := chains[l := Insert(chains[l], k + 1, n)];
      contents := contents[l := Insert(contents[l], k + 1, old(cells)[n].val)];
    }

    /** `n`, at position `k` of list `l`, leaves the list and its own links are cleared. */
    method Unlink(l: nat, n: nat, ghost k: nat)
      requires Valid() && l < |chains|
      requires k < |chains[l]| && chains[l][k] == n
      modifies this
      ensures Valid() && SameVals(old(cells), cells) && OnNone(chains, n) && n in cells
      ensures |old(contents)[l]| == |old(chains)[l]|
      ensures chains == old(chains)[l := Remove(old(chains)[l], k)]
      ensures contents == old(contents)[l := Remove(old(contents)[l], k)]
    {
      Around(l, k);
      var before, after := cells[n].prev, cells[n].next;
      if before.Some? {
        cells := WithNext(cells, before.value, after);
      } else {
        heads := heads[l := after];
      }
      if after.Some? {
        cells := WithPrev(cells, after.value, before);
      }
      cells := WithNext(WithPrev(cells, n, None), n, None);
      AllRemove(old(cells), cells, old(heads), chains, contents, l, k);
      chains := chains[l := Remove(chains[l], k)];
      contents := contents[l := Remove(contents[l], k)];
    }

    /** The successor of `n` leaves the list; its own links are left dangling. */
    method DropNext(l: nat, n: nat, ghost k: nat)
      requires Valid() && l < |chains|
      requires k + 1 < |chains[l]| && chains[l][k] == n
      modifies this
      ensures Valid() && SameVals(old(cells), cells) && OnNone(chains, old(chains)[l][k + 1])
      ensures |old(contents)[l]| == |old(chains)[l]|
      ensures chains == old(chains)[l := Remove(old(chains)[l], k + 1)]
      ensures contents == old(contents)[l := Remove(old(contents)[l], k + 1)]
    {
      Around(l, k);
      Around(l, k + 1);
      var gone := cells[n].next.value;
      var after := cells[gone].next;
      cells := WithNext(cells, n, after);
      if after.Some? {
        cells := WithPrev(cells, after.value, Some(n));
      }
      AllRemove(old(cells), cells, old(heads), chains, contents, l, k + 1);
      chains := chains[l := Remove(chains[l], k + 1)];
      contents := contents[l := Remove(contents[l], k + 1)];
    }

    /** The payload of a cell that is on no list changes. */
    method SetLoose(n: nat, v: T)
      requires Valid() && n in cells && OnNone(chains, n)
      modifies this`cells
      ensures Valid()
      ensures cells == old(cells)[n := old(cells)[n].(val := v)]
    {
      AllSetLoose(cells, heads, chains, contents, n, cells[n].(val := v));
      cells := cells[n := cells[n].(val := v)];
    }

    /** The payload of the cell at position `k` of list `l` changes. */
    method SetAt(l: nat, n: nat, v: T, ghost k: nat)
      requires Valid() && l < |chains| && k < |chains[l]| && chains[l][k] == n && n in cells
      modifies this`cells, this`contents
      ensures Valid() && |old(contents)[l]| == |old(chains)[l]|
      ensures contents == old(contents)[l := old(contents)[l][k := v]]
      ensures cells == old(cells)[n := old(cells)[n].(val := v)]
    {
      AllSetAt(cells, heads, chains, contents, l, k, v);
      cells := cells[n := cells[n].(val := v)];
      contents := contents[l := contents[l][k := v]];
    }

    /** A cell that is written from scratch; it is on no list yet. */
    method NewCell(n: nat, v: T)
      requires Valid() && (n in cells ==> OnNone(chains, n))
      modifies this`cells
      ensures Valid() && OnNone(chains, n)
      ensures cells == old(cells)[n := Cell(v, None, None)]
    {
      forall l | 0 <= l < |chains| ensures n !in chains[l] {
        ListAt(l);
      }
      assert OnNone(chains, n);
      AllSetLoose(cells, heads, chains, contents, n, Cell(v, None, None));
      cells := cells[n := Cell(v, None, None)];
    }
  }
}
