/** The two rings of the autonomy control plane: a bounded queue, and a log that keeps the latest entries. */
module Rings {
  import opened Types

  /** Position `i` of a ring that starts at `head`. */
  function Wrap(head: nat, i: nat, cap: nat): (p: nat)
    requires head < cap && i <= cap
    ensures p < cap
  {
    if head + i < cap then head + i else head + i - cap
  }

  /** The elements of a ring, oldest first. */
  ghost function Ring<T>(s: seq<T>, head: nat, count: nat): (r: seq<T>)
    requires head < |s| && count <= |s|
    ensures |r| == count
    ensures forall i :: 0 <= i < count ==> r[i] == s[Wrap(head, i, |s|)]
  {
    seq(count, i requires 0 <= i < count => s[Wrap(head, i, |s|)])
  }

  lemma WrapStep(head: nat, i: nat, cap: nat)
    requires head < cap && i < cap
    ensures Wrap(Wrap(head, 1, cap), i, cap) == Wrap(head, i + 1, cap)
    ensures Wrap(Wrap(head, i, cap), 1, cap) == Wrap(head, i + 1, cap)
  {
  }

  lemma WrapApart(head: nat, i: nat, j: nat, cap: nat)
    requires head < cap && i < j < cap
    ensures Wrap(head, i, cap) != Wrap(head, j, cap)
  {
  }

  /** Writing behind the last element of a ring with room appends to it. */
  lemma RingPush<T>(s: seq<T>, head: nat, count: nat, x: T)
    requires head < |s| && count < |s|
    ensures Ring(s[Wrap(head, count, |s|) := x], head, count + 1) == Ring(s, head, count) + [x]
  {
    var s' := s[Wrap(head, count, |s|) := x];
    forall i | 0 <= i < count ensures s'[Wrap(head, i, |s|)] == s[Wrap(head, i, |s|)] {
      WrapApart(head, i, count, |s|);
    }
    assert Ring(s', head, count + 1)[count] == x;
  }

  /** Moving the head on drops the first element. */
  lemma RingPop<T>(s: seq<T>, head: nat, count: nat)
    requires head < |s| && 0 < count <= |s|
    ensures Ring(s, Wrap(head, 1, |s|), count - 1) == Ring(s, head, count)[1..]
    ensures Ring(s, head, count)[0] == s[head]
  {
    forall i | 0 <= i < count - 1 ensures Wrap(Wrap(head, 1, |s|), i, |s|) == Wrap(head, i + 1, |s|) {
      WrapStep(head, i, |s|);
    }
    assert Wrap(head, 0, |s|) == head;
  }

  /** Overwriting the oldest element of a full ring keeps the latest ones. */
  lemma RingTurn<T>(s: seq<T>, head: nat, x: T)
    requires head < |s|
    ensures Ring(s[head := x], Wrap(head, 1, |s|), |s|) == Ring(s, head, |s|)[1..] + [x]
  {
    var s', h := s[head := x], Wrap(head, 1, |s|);
    forall i | 0 <= i < |s| - 1 ensures s'[Wrap(h, i, |s|)] == s[Wrap(head, i + 1, |s|)] {
      WrapStep(head, i, |s|);
      WrapApart(head, 0, i + 1, |s|);
    }
    WrapStep(head, |s| - 1, |s|);
    assert Ring(s', h, |s|)[|s| - 1] == s'[Wrap(head, |s|, |s|)];
  }

  function LastOf<T>(s: seq<T>, n: nat): seq<T> { if |s| <= n then s else s[|s| - n..] }

  /** A bounded first-in first-out queue over a fixed array. */
  class Queue<T> {
    const slots: array<T>
    var head: nat
    var tail: nat
    var count: nat

    ghost predicate Valid()
      reads this, slots
    {
      head < slots.Length && count <= slots.Length && tail == Wrap(head, count, slots.Length)
    }

    ghost function Contents(): (q: seq<T>)
      requires Valid()
      reads this, slots
      ensures |q| == count && (count > 0 ==> q[0] == slots[head])
    {
      Ring(slots[..], head, count)
    }

    constructor (cap: nat, filler: T)
      requires cap > 0
      ensures Valid() && Contents() == [] && slots.Length == cap && fresh(slots)
    {
      slots := new T[cap](_ => filler);
      head, tail, count := 0, 0, 0;
    }

    /** The element enters at the tail. */
    method Push(x: T)
      requires Valid() && count < slots.Length
      modifies this, slots
      ensures Valid() && Contents() == old(Contents()) + [x]
    {
      RingPush(slots[..], head, count, x);
      slots[tail] := x;
      assert slots[..] == old(slots[..])[tail := x];
      WrapStep(head, count, slots.Length);
      tail := if tail + 1 < slots.Length then tail + 1 else 0;
      count := count + 1;
    }

    /** The oldest element leaves. */
    method Pop() returns (x: T)
      requires Valid() && count > 0
      modifies this
      ensures Valid() && x == old(Contents())[0] && Contents() == old(Contents())[1..]
    {
      RingPop(slots[..], head, count);
      WrapStep(head, count - 1, slots.Length);
      x := slots[head];
      head := if head + 1 < slots.Length then head + 1 else 0;
      count := count - 1;
    }
  }

  /** A log that overwrites its oldest entry when it is full. */
  class Log<T> {
    const slots: array<T>
    var head: nat
    var count: nat
    ghost var entries: seq<T>

    ghost predicate Valid()
      reads this, slots
    {
      && head < slots.Length && count == (if |entries| < slots.Length then |entries| else slots.Length)
      && (count < slots.Length ==> head == count)
      && LastOf(entries, slots.Length) == Ring(slots[..], Start(), count)
    }

    /** Where the oldest kept entry is. */
    ghost function Start(): nat
      reads this
    {
      if count < slots.Length then 0 else head
    }

    constructor (cap: nat, filler: T)
      requires cap > 0
      ensures Valid() && entries == [] && slots.Length == cap && fresh(slots)
    {
      slots := new T[cap](_ => filler);
      head, count, entries := 0, 0, [];
    }

    /** log_event */
    method Add(e: T)
      requires Valid()
      modifies this, slots
      ensures Valid() && entries == old(entries) + [e]
    {
      if count < slots.Length {
        RingPush(slots[..], 0, count, e);
      } else {
        RingTurn(slots[..], head, e);
      }
      slots[head] := e;
      assert slots[..] == old(slots[..])[head := e];
      LastGrows(entries, slots.Length, e);
      head := if head + 1 < slots.Length then head + 1 else 0;
      if count < slots.Length {
        count := count + 1;
      }
      entries := entries + [e];
    }

    /** autonomy_get_last_event */
    method Latest() returns (e: Option<T>)
      requires Valid()
      ensures e == if entries == [] then None else Some(entries[|entries| - 1])
    {
      if count == 0 {
        return None;
      }
      var index := if head == 0 then slots.Length - 1 else head - 1;
      LastIndex(Start(), count, head, slots.Length);
      assert LastOf(entries, slots.Length)[count - 1] == entries[|entries| - 1];
      e := Some(slots[index]);
    }
  }

  lemma LastIndex(start: nat, count: nat, head: nat, cap: nat)
    requires 0 < count <= cap && head < cap
    requires if count < cap then start == 0 && head == count else start == head
    ensures Wrap(start, count - 1, cap) == if head == 0 then cap - 1 else head - 1
  {
  }

  lemma LastGrows<T>(s: seq<T>, n: nat, x: T)
    requires n > 0
    ensures LastOf(s + [x], n) == if |s| < n then LastOf(s, n) + [x] else LastOf(s, n)[1..] + [x]
  {
  }
}
