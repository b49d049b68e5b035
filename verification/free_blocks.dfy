/**
 Free memory as a sequence of blocks. A normal list is sorted by address with a gap between
 neighbours; it is then the only normal list for the addresses it covers.
 */
module FreeBlocks {
  import opened Types
  import opened LinkedList

  datatype Block = Block(base: nat, size: nat, isFree: bool)

  function End(b: Block): nat { b.base + b.size }

  predicate Inside(b: Block, x: int) { b.base <= x < End(b) }

  /** Address `x` lies in some block of the list. */
  ghost predicate Covers(s: seq<Block>, x: int) {
    exists i :: 0 <= i < |s| && Inside(s[i], x)
  }

  ghost predicate SameCover(s: seq<Block>, t: seq<Block>) {
    forall x: int :: Covers(s, x) <==> Covers(t, x)
  }

  ghost predicate AllFree(s: seq<Block>) {
    forall i :: 0 <= i < |s| ==> s[i].size > 0 && s[i].isFree
  }

  /** `a` ends before `b` starts, with at least one address in between. */
  predicate Gap(a: Block, b: Block) { End(a) < b.base }

  /** Sorted by address, nothing empty, no two blocks adjacent: maximally coalesced. */
  ghost predicate Normal(s: seq<Block>) {
    AllFree(s) && forall i, j :: 0 <= i < j < |s| ==> Gap(s[i], s[j])
  }

  /** The sizes of the first `n` blocks added up. */
  function Sum(s: seq<Block>, n: nat): (t: nat)
    requires n <= |s|
  {
    if n == 0 then 0 else Sum(s, n - 1) + s[n - 1].size
  }

  function Total(s: seq<Block>): (t: nat) { Sum(s, |s|) }

  /** How many blocks start at or below `base`: where the insertion loop of the source stops. */
  function InsertPos(s: seq<Block>, base: nat): (p: nat)
    ensures p <= |s|
    ensures forall i :: 0 <= i < p ==> s[i].base <= base
    ensures p < |s| ==> base < s[p].base
  {
    if s == [] || base < s[0].base then 0
    else
      var p := 1 + InsertPos(s[1..], base);
      assert forall i :: 1 <= i < p ==> s[i] == s[1..][i - 1];
      p
  }

  /** The two neighbours at `k` and `k + 1` become one block. */
  function Merge(s: seq<Block>, k: nat): (r: seq<Block>)
    requires k + 1 < |s|
  {
    Remove(s[k := s[k].(size := s[k].size + s[k + 1].size)], k + 1)
  }

  predicate Touches(s: seq<Block>, k: int) {
    0 <= k && k + 1 < |s| && s[k].isFree && s[k + 1].isFree && End(s[k]) == s[k + 1].base
  }

  function MergeAt(s: seq<Block>, k: int): (r: seq<Block>) {
    if Touches(s, k) then Merge(s, k) else s
  }

  /** What a free does to its region: sorted insertion, merge with next, merge with previous. */
  function GiveBack(s: seq<Block>, b: Block): (r: seq<Block>) {
    var p := InsertPos(s, b.base);
    MergeAt(MergeAt(Insert(s, p, b.(isFree := true)), p), p - 1)
  }

  function InsertIf(s: seq<Block>, k: nat, b: Block): (r: seq<Block>)
    requires k <= |s|
  {
    if b.size > 0 then Insert(s, k, b) else s
  }

  function PrefixOf(b: Block, prefix: nat): Block { Block(b.base, prefix, true) }

  function RemainderOf(b: Block, cut: nat): Block
    requires cut <= b.size
  {
    Block(b.base + cut, b.size - cut, true)
  }

  /** What an allocation does: block `k` yields `taken` bytes after `prefix`, the rest stays free. */
  function Carve(s: seq<Block>, k: nat, prefix: nat, taken: nat): (r: seq<Block>)
    requires k < |s| && prefix + taken <= s[k].size
  {
    InsertIf(InsertIf(Remove(s, k), k, RemainderOf(s[k], prefix + taken)), k, PrefixOf(s[k], prefix))
  }

  // ---------- totals ----------

  lemma {:induction false} SumInsert(s: seq<Block>, k: nat, b: Block, n: nat)
    requires k <= |s| && n <= |s|
    ensures n <= k ==> Sum(Insert(s, k, b), n) == Sum(s, n)
    ensures n >= k ==> Sum(Insert(s, k, b), n + 1) == Sum(s, n) + b.size
  {
    if n > 0 {
      SumInsert(s, k, b, n - 1);
    }
  }

  lemma {:induction false} SumRemove(s: seq<Block>, k: nat, n: nat)
    requires k < |s| && n < |s|
    ensures n <= k ==> Sum(Remove(s, k), n) == Sum(s, n)
    ensures n >= k ==> Sum(Remove(s, k), n) == Sum(s, n + 1) - s[k].size
  {
    if n > 0 {
      SumRemove(s, k, n - 1);
    }
  }

  lemma {:induction false} SumUpdate(s: seq<Block>, k: nat, b: Block, n: nat)
    requires k < |s| && n <= |s|
    ensures Sum(s[k := b], n) == Sum(s, n) + (if n > k then b.size - s[k].size else 0)
  {
    if n > 0 {
      SumUpdate(s, k, b, n - 1);
    }
  }

  lemma TotalInsert(s: seq<Block>, k: nat, b: Block)
    requires k <= |s|
    ensures Total(Insert(s, k, b)) == Total(s) + b.size
  {
    SumInsert(s, k, b, |s|);
  }

  lemma TotalInsertIf(s: seq<Block>, k: nat, b: Block)
    requires k <= |s|
    ensures Total(InsertIf(s, k, b)) == Total(s) + b.size
  {
    SumInsert(s, k, b, |s|);
  }

  lemma TotalMergeAt(s: seq<Block>, k: int)
    ensures Total(MergeAt(s, k)) == Total(s)
  {
    if Touches(s, k) {
      var merged := s[k].(size := s[k].size + s[k + 1].size);
      SumUpdate(s, k, merged, |s|);
      SumRemove(s[k := merged], k + 1, |s| - 1);
    }
  }

  lemma TotalGiveBack(s: seq<Block>, b: Block)
    ensures Total(GiveBack(s, b)) == Total(s) + b.size
  {
    hide Total, MergeAt, Insert;
    var p: int := InsertPos(s, b.base);
    var s1 := Insert(s, p, b.(isFree := true));
    TotalInsert(s, p, b.(isFree := true));
    TotalMergeAt(s1, p);
    TotalMergeAt(MergeAt(s1, p), p - 1);
  }

  lemma TotalCarve(s: seq<Block>, k: nat, prefix: nat, taken: nat)
    requires k < |s| && prefix + taken <= s[k].size
    ensures Total(Carve(s, k, prefix, taken)) == Total(s) - taken
  {
    var s1 := Remove(s, k);
    var rem := RemainderOf(s[k], prefix + taken);
    var pre := PrefixOf(s[k], prefix);
    var s2 := InsertIf(s1, k, rem);
    assert Total(s1) == Total(s) - s[k].size by {
      SumRemove(s, k, |s| - 1);
    }
    assert Total(s2) == Total(s1) + rem.size by {
      TotalInsertIf(s1, k, rem);
    }
    assert Total(InsertIf(s2, k, pre)) == Total(s2) + pre.size by {
      TotalInsertIf(s2, k, pre);
    }
  }

  // ---------- addresses covered ----------

  lemma CoversAt(s: seq<Block>, i: nat, x: int)
    requires i < |s| && Inside(s[i], x)
    ensures Covers(s, x)
  {
  }

  lemma CoversInsert(s: seq<Block>, k: nat, b: Block, x: int)
    requires k <= |s|
    ensures Covers(Insert(s, k, b), x) <==> Covers(s, x) || Inside(b, x)
  {
    var r := Insert(s, k, b);
    if Inside(b, x) {
      CoversAt(r, k, x);
    }
    if Covers(s, x) {
      var i :| 0 <= i < |s| && Inside(s[i], x);
      CoversAt(r, if i < k then i else i + 1, x);
    }
    if Covers(r, x) && !Inside(b, x) {
      var i :| 0 <= i < |r| && Inside(r[i], x);
      CoversAt(s, if i < k then i else i - 1, x);
    }
  }

  lemma CoversMergeAt(s: seq<Block>, k: int, x: int)
    ensures Covers(MergeAt(s, k), x) <==> Covers(s, x)
  {
    if Touches(s, k) {
      var r := Merge(s, k);
      if Covers(s, x) {
        var i :| 0 <= i < |s| && Inside(s[i], x);
        CoversAt(r, if i <= k then i else i - 1, x);
      }
      if Covers(r, x) {
        var i :| 0 <= i < |r| && Inside(r[i], x);
        CoversAt(s, if i < k || (i == k && x < End(s[k])) then i else i + 1, x);
      }
    }
  }

  /** Giving a block back adds exactly its addresses. */
  lemma CoversGiveBack(s: seq<Block>, b: Block, x: int)
    ensures Covers(GiveBack(s, b), x) <==> Covers(s, x) || Inside(b, x)
  {
    var p: int := InsertPos(s, b.base);
    var s1 := Insert(s, p, b.(isFree := true));
    CoversInsert(s, p, b.(isFree := true), x);
    CoversMergeAt(s1, p, x);
    CoversMergeAt(MergeAt(s1, p), p - 1, x);
  }

  lemma CoversRemove(s: seq<Block>, k: nat, x: int)
    requires Normal(s) && k < |s|
    ensures Covers(Remove(s, k), x) <==> Covers(s, x) && !Inside(s[k], x)
  {
    var r := Remove(s, k);
    if Covers(s, x) && !Inside(s[k], x) {
      var i :| 0 <= i < |s| && Inside(s[i], x);
      CoversAt(r, if i < k then i else i - 1, x);
    }
    if Covers(r, x) {
      var i :| 0 <= i < |r| && Inside(r[i], x);
      var i' := if i < k then i else i + 1;
      CoversAt(s, i', x);
      assert if i' < k then Gap(s[i'], s[k]) else Gap(s[k], s[i']);
    }
  }

  lemma CoversInsertIf(s: seq<Block>, k: nat, b: Block, x: int)
    requires k <= |s|
    ensures Covers(InsertIf(s, k, b), x) <==> Covers(s, x) || Inside(b, x)
  {
    CoversInsert(s, k, b, x);
  }

  /** Carving removes exactly the taken addresses. */
  lemma CoversCarve(s: seq<Block>, k: nat, prefix: nat, taken: nat, x: int)
    requires k < |s| && prefix + taken <= s[k].size && Normal(s)
    ensures Covers(Carve(s, k, prefix, taken), x)
            <==> Covers(s, x) && !(s[k].base + prefix <= x < s[k].base + prefix + taken)
  {
    CoversRemove(s, k, x);
    var s1 := Remove(s, k);
    CoversInsertIf(s1, k, RemainderOf(s[k], prefix + taken), x);
    CoversInsertIf(InsertIf(s1, k, RemainderOf(s[k], prefix + taken)), k, PrefixOf(s[k], prefix), x);
    if Inside(s[k], x) {
      CoversAt(s, k, x);
    }
  }

  // ---------- normal form ----------

  lemma InsertNormal(s: seq<Block>, k: nat, b: Block)
    requires Normal(s) && k <= |s| && b.isFree
    requires forall i :: 0 <= i < |s| ==> if i < k then Gap(s[i], b) else Gap(b, s[i])
    ensures Normal(InsertIf(s, k, b))
  {
  }

  lemma RemoveNormal(s: seq<Block>, k: nat)
    requires Normal(s) && k < |s|
    ensures Normal(Remove(s, k))
  {
  }

  /** Carving keeps the list sorted with no two adjacent blocks. */
  lemma CarveNormal(s: seq<Block>, k: nat, prefix: nat, taken: nat)
    requires k < |s| && prefix + taken <= s[k].size && Normal(s) && taken > 0
    ensures Normal(Carve(s, k, prefix, taken))
  {
    var s1 := Remove(s, k);
    RemoveNormal(s, k);
    var rem := RemainderOf(s[k], prefix + taken);
    forall i | 0 <= i < |s1| ensures if i < k then Gap(s1[i], s[k]) else Gap(s[k], s1[i]) {
    }
    InsertNormal(s1, k, rem);
    InsertNormal(InsertIf(s1, k, rem), k, PrefixOf(s[k], prefix));
  }

  /** No block of `s` shares an address with `b`. */
  ghost predicate Clear(s: seq<Block>, b: Block) {
    forall i :: 0 <= i < |s| ==> End(s[i]) <= b.base || End(b) <= s[i].base
  }

  /** Sorted and disjoint, with a gap everywhere except possibly around position `p`. */
  ghost predicate NormalBut(s: seq<Block>, p: int, left: bool, right: bool) {
    && AllFree(s)
    && (forall i, j :: 0 <= i < j < |s| ==> End(s[i]) <= s[j].base)
    && (forall i, j :: 0 <= i < j < |s| && !(left && j == p) && !(right && i == p) ==> Gap(s[i], s[j]))
  }

  lemma InsertNormalBut(s: seq<Block>, b: Block)
    requires Normal(s) && b.size > 0 && b.isFree && Clear(s, b)
    ensures var p := InsertPos(s, b.base); NormalBut(Insert(s, p, b), p, true, true)
  {
    var p := InsertPos(s, b.base);
    var r := Insert(s, p, b);
    forall i | 0 <= i < |s| ensures if i < p then End(s[i]) <= b.base else End(b) <= s[i].base {
      if i > p {
        assert Gap(s[p], s[i]);
      }
    }
    forall i, j | 0 <= i < j < |r|
      ensures End(r[i]) <= r[j].base
      ensures i != p && j != p ==> Gap(r[i], r[j])
    {
      if i != p && j != p {
        assert Gap(s[if i < p then i else i - 1], s[if j < p then j else j - 1]);
      }
    }
  }

  lemma MergedPair(s: seq<Block>, p: nat, i: nat, j: nat)
    requires p < |s| && NormalBut(s, p, true, true) && Touches(s, p) && i < j < |MergeAt(s, p)|
    ensures var r := MergeAt(s, p); End(r[i]) <= r[j].base && (j != p ==> Gap(r[i], r[j]))
  {
    var r := MergeAt(s, p);
    var i', j' := if i < p then i else i + 1, if j <= p then j else j + 1;
    assert End(r[i]) == End(s[i']) && r[j].base == s[j'].base;
    assert j != p ==> Gap(s[i'], s[j']);
  }

  lemma MergeNextNormalBut(s: seq<Block>, p: nat)
    requires p < |s| && NormalBut(s, p, true, true)
    ensures p < |MergeAt(s, p)| && NormalBut(MergeAt(s, p), p, true, false)
  {
    var r := MergeAt(s, p);
    if Touches(s, p) {
      forall i, j | 0 <= i < j < |r|
        ensures End(r[i]) <= r[j].base
        ensures j != p ==> Gap(r[i], r[j])
      {
        MergedPair(s, p, i, j);
      }
    } else {
      forall j | p < j < |s| ensures Gap(s[p], s[j]) {
        assert j > p + 1 ==> Gap(s[p + 1], s[j]);
      }
    }
  }

  lemma MergePrevNormal(s: seq<Block>, p: nat)
    requires p < |s| && NormalBut(s, p, true, false)
    ensures Normal(MergeAt(s, p - 1))
  {
    var r := MergeAt(s, p - 1);
    forall i, j | 0 <= i < j < |r| ensures Gap(r[i], r[j]) {
      if Touches(s, p - 1) {
        assert End(r[i]) == End(s[if i < p - 1 then i else i + 1]);
        assert r[j].base == s[if j <= p - 1 then j else j + 1].base;
      } else if j == p && i < p - 1 {
        assert Gap(s[i], s[p - 1]);
      }
    }
  }

  /** Freeing keeps the list sorted with no two adjacent blocks. */
  lemma GiveBackNormal(s: seq<Block>, b: Block)
    requires Normal(s) && b.size > 0 && Clear(s, b)
    ensures Normal(GiveBack(s, b))
  {
    var p := InsertPos(s, b.base);
    var b' := b.(isFree := true);
    InsertNormalBut(s, b');
    MergeNextNormalBut(Insert(s, p, b'), p);
    MergePrevNormal(MergeAt(Insert(s, p, b'), p), p);
  }

  // ---------- uniqueness: the list is determined by the addresses ----------

  lemma FirstCovered(s: seq<Block>)
    requires Normal(s) && s != []
    ensures Covers(s, s[0].base) && Covers(s, End(s[0]) - 1) && !Covers(s, End(s[0]))
    ensures forall x: int :: Covers(s, x) ==> s[0].base <= x
  {
    CoversAt(s, 0, s[0].base);
    CoversAt(s, 0, End(s[0]) - 1);
    forall x: int | Covers(s, x) ensures s[0].base <= x && x != End(s[0]) {
      var i :| 0 <= i < |s| && Inside(s[i], x);
      assert i > 0 ==> Gap(s[0], s[i]);
    }
  }

  lemma SameEnd(s: seq<Block>, t: seq<Block>)
    requires Normal(s) && Normal(t) && s != [] && t != [] && SameCover(s, t)
    requires s[0].base == t[0].base
    ensures End(s[0]) >= End(t[0])
  {
    FirstCovered(s);
    assert !Covers(t, End(s[0]));
    assert !Inside(t[0], End(s[0]));
  }

  /** Two maximally coalesced lists over the same addresses are the same list. */
  lemma {:induction false} NormalUnique(s: seq<Block>, t: seq<Block>)
    requires Normal(s) && Normal(t) && SameCover(s, t)
    ensures s == t
    decreases |s|
  {
    if s != [] {
      FirstCovered(s);
    }
    if t != [] {
      FirstCovered(t);
    }
    if s != [] && t != [] {
      SameEnd(s, t);
      SameEnd(t, s);
      forall x: int ensures Covers(s[1..], x) <==> Covers(t[1..], x) {
        CoversRemove(s, 0, x);
        CoversRemove(t, 0, x);
        assert Remove(s, 0) == s[1..] && Remove(t, 0) == t[1..];
      }
      NormalUnique(s[1..], t[1..]);
      assert s == [s[0]] + s[1..] && t == [t[0]] + t[1..];
    }
  }

  /** A run of free addresses never crosses a block boundary: it lies inside one block. */
  lemma RunInsideOneBlock(s: seq<Block>, q: nat, n: nat) returns (k: nat)
    requires Normal(s) && n > 0
    requires forall x: int :: q <= x < q + n ==> Covers(s, x)
    ensures k < |s| && s[k].base <= q && q + n <= End(s[k])
  {
    assert Covers(s, q);
    k :| 0 <= k < |s| && Inside(s[k], q);
    var e := End(s[k]);
    forall j | 0 <= j < |s| ensures !Inside(s[j], e) {
      assert j < k ==> Gap(s[j], s[k]);
      assert j > k ==> Gap(s[k], s[j]);
    }
    assert !Covers(s, e);
  }
}
