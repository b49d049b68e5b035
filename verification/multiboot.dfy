/**
 The two readers of the Multiboot2 information block (section 3.6 of the Multiboot2 specification):
 the validator that runs first and the ACPI tag walk that relies on it. Memory is the identity-mapped
 first 4 GiB.
 */
module Multiboot {
  import opened Types
  import opened LittleEndian

  const PHYS_LIMIT: nat := 0x1_0000_0000
  const INFO_LIMIT: nat := MIB
  const BOOT_MAGIC: nat := 0x36d7_6289

  const TAG_END: nat := 0
  const TAG_ACPI_OLD: nat := 14
  const TAG_ACPI_NEW: nat := 15

  function TagType(mem: Bytes, c: nat): nat
    requires c + 8 <= |mem|
  {
    U32At(mem, c)
  }

  function TagSize(mem: Bytes, c: nat): U32
    requires c + 8 <= |mem|
  {
    U32At(mem, c + 4)
  }

  /** The validator's 64-bit rounding. */
  function RoundUp8(n: nat): nat { (n + 7) / 8 * 8 }

  /** The walk's rounding: ALIGN_UP on a 32-bit word. */
  function Align8(n: U32): nat { (n as int + 7) % U32_LIMIT / 8 * 8 }

  /** The two roundings agree exactly where the 32-bit sum does not wrap; past that the walk would not move. */
  lemma AlignsAgreeIff(n: U32)
    ensures (Align8(n) == RoundUp8(n)) <==> n as int + 7 < U32_LIMIT
    ensures n as int + 7 >= U32_LIMIT ==> Align8(n) == 0
  {
  }

  function Total(mem: Bytes, info: nat): U32
    requires info + 8 <= |mem|
  {
    U32At(mem, info)
  }

  predicate HeaderOk(mem: Bytes, info: nat)
    requires |mem| == PHYS_LIMIT
  {
    && info != 0 && info % 8 == 0 && info <= PHYS_LIMIT - 8
    && U32At(mem, info + 4) == 0
    && 16 <= Total(mem, info) <= INFO_LIMIT && Total(mem, info) % 8 == 0
    && info <= PHYS_LIMIT - Total(mem, info)
  }

  // ---------- what a tag list is ----------

  /** A tag that is followed by another one, which starts at `next`. */
  predicate Links(mem: Bytes, c: nat, next: nat)
    requires c + 8 <= |mem|
  {
    TagType(mem, c) != TAG_END && TagSize(mem, c) >= 8 && next == c + RoundUp8(TagSize(mem, c))
  }

  /** The positions of a complete tag list: linked by size, closed by an end tag that fills the block. */
  ghost predicate TagList(mem: Bytes, first: nat, limit: nat, cs: seq<nat>)
    requires limit <= |mem|
  {
    && |cs| > 0 && cs[0] == first
    && (forall i :: 0 <= i < |cs| ==> cs[i] + 8 <= limit)
    && (forall i :: 0 <= i < |cs| - 1 ==> Links(mem, cs[i], cs[i + 1]))
    && var last := cs[|cs| - 1];
    last + 8 == limit && TagType(mem, last) == TAG_END && TagSize(mem, last) == 8
  }

  ghost predicate Parses(mem: Bytes, first: nat, limit: nat)
    requires limit <= |mem|
  {
    exists cs :: TagList(mem, first, limit, cs)
  }

  ghost predicate Accepted(mem: Bytes, info: nat)
    requires |mem| == PHYS_LIMIT
  {
    HeaderOk(mem, info) && Parses(mem, info + 8, info + Total(mem, info))
  }

  /** Only the last tag is an end tag. */
  lemma EndIsLast(mem: Bytes, first: nat, limit: nat, cs: seq<nat>, i: nat)
    requires limit <= |mem| && TagList(mem, first, limit, cs) && i < |cs|
    ensures TagType(mem, cs[i]) == TAG_END <==> i == |cs| - 1
    ensures i < |cs| - 1 ==> Links(mem, cs[i], cs[i + 1])
  {
    if i < |cs| - 1 {
      assert Links(mem, cs[i], cs[i + 1]);
    }
  }

  /** There is at most one tag list, so the positions are determined by the block. */
  lemma {:induction false} TagListUnique(mem: Bytes, first: nat, limit: nat, cs: seq<nat>, ds: seq<nat>)
    requires limit <= |mem| && TagList(mem, first, limit, cs) && TagList(mem, first, limit, ds)
    ensures cs == ds
    decreases |cs|
  {
    EndIsLast(mem, first, limit, cs, 0);
    EndIsLast(mem, first, limit, ds, 0);
    assert |cs| == 1 <==> |ds| == 1;
    if |cs| > 1 {
      Rest(mem, first, limit, cs);
      Rest(mem, first, limit, ds);
      TagListUnique(mem, cs[1], limit, cs[1..], ds[1..]);
    }
    assert cs == [cs[0]] + cs[1..] && ds == [ds[0]] + ds[1..];
  }

  lemma Rest(mem: Bytes, first: nat, limit: nat, cs: seq<nat>)
    requires limit <= |mem| && TagList(mem, first, limit, cs) && |cs| > 1
    ensures TagList(mem, cs[1], limit, cs[1..])
  {
    var ds := cs[1..];
    forall i | 0 <= i < |ds| - 1
      ensures Links(mem, ds[i], ds[i + 1])
    {
      assert Links(mem, cs[i + 1], cs[i + 1 + 1]);
    }
  }

  lemma Extended(mem: Bytes, first: nat, limit: nat, cs: seq<nat>)
    requires limit <= |mem| && first + 8 <= limit && |cs| > 0
    requires TagList(mem, cs[0], limit, cs) && Links(mem, first, cs[0])
    ensures TagList(mem, first, limit, [first] + cs)
  {
    var ds := [first] + cs;
    forall i | 0 <= i < |ds| - 1
      ensures Links(mem, ds[i], ds[i + 1])
    {
      if i > 0 {
        assert Links(mem, cs[i - 1], cs[i - 1 + 1]);
      }
    }
  }

  /** Every tag before the end tag lies, with its payload, between the header and the end tag. */
  lemma PayloadInside(mem: Bytes, first: nat, limit: nat, cs: seq<nat>, i: nat)
    requires limit <= |mem| && TagList(mem, first, limit, cs) && i < |cs| - 1
    ensures first <= cs[i] && cs[i] + TagSize(mem, cs[i]) <= limit - 8 && cs[i] < cs[i + 1]
  {
    Ascending(mem, first, limit, cs, i);
    assert Links(mem, cs[i], cs[i + 1]);
  }

  lemma {:induction false} Ascending(mem: Bytes, first: nat, limit: nat, cs: seq<nat>, i: nat)
    requires limit <= |mem| && TagList(mem, first, limit, cs) && i < |cs|
    ensures first <= cs[i]
  {
    if i > 0 {
      Ascending(mem, first, limit, cs, i - 1);
      assert Links(mem, cs[i - 1], cs[i - 1 + 1]);
    }
  }

  // ---------- the validator ----------

  lemma ParsesStep(mem: Bytes, c: nat, limit: nat)
    requires limit <= |mem| && c + 8 <= limit && TagType(mem, c) != TAG_END && TagSize(mem, c) >= 8
    ensures Parses(mem, c, limit) <==> Parses(mem, c + RoundUp8(TagSize(mem, c)), limit)
  {
    var next := c + RoundUp8(TagSize(mem, c));
    if Parses(mem, c, limit) {
      var cs :| TagList(mem, c, limit, cs);
      assert Links(mem, cs[0], cs[1]);
      Rest(mem, c, limit, cs);
    }
    if Parses(mem, next, limit) {
      var cs :| TagList(mem, next, limit, cs);
      Extended(mem, c, limit, cs);
    }
  }

  lemma ParsesEnd(mem: Bytes, c: nat, limit: nat)
    requires limit <= |mem| && c + 8 <= limit && (TagType(mem, c) == TAG_END || TagSize(mem, c) < 8)
    ensures Parses(mem, c, limit) <==> TagType(mem, c) == TAG_END && TagSize(mem, c) == 8 && c + 8 == limit
  {
    if Parses(mem, c, limit) {
      var cs :| TagList(mem, c, limit, cs);
      EndIsLast(mem, c, limit, cs, 0);
    }
    if TagType(mem, c) == TAG_END && TagSize(mem, c) == 8 && c + 8 == limit {
      assert TagList(mem, c, limit, [c]);
    }
  }

  /** multiboot2_handoff_valid accepts exactly the blocks that hold one complete tag list. */
  method HandoffValid(mem: Bytes, info: nat) returns (ok: bool, size: nat)
    requires |mem| == PHYS_LIMIT
    ensures ok <==> Accepted(mem, info)
    ensures ok ==> size == Total(mem, info)
  {
    hide TagList, TagType, TagSize, RoundUp8, U32At;
    size := 0;
    if info == 0 || info % 8 != 0 || info > PHYS_LIMIT - 8 {
      return false, 0;
    }
    var total := Total(mem, info);
    if U32At(mem, info + 4) != 0 || total < 16 || total > INFO_LIMIT || total % 8 != 0 || info > PHYS_LIMIT - total {
      return false, 0;
    }
    var cursor, limit := info + 8, info + total;
    while cursor <= limit - 8
      invariant cursor <= limit
      invariant Accepted(mem, info) <==> Parses(mem, cursor, limit)
      decreases limit - cursor
    {
      if TagSize(mem, cursor) < 8 {
        ParsesEnd(mem, cursor, limit);
        return false, 0;
      }
      if TagType(mem, cursor) == TAG_END {
        ParsesEnd(mem, cursor, limit);
        if TagSize(mem, cursor) != 8 || cursor != limit - 8 {
          return false, 0;
        }
        return true, total;
      }
      ParsesStep(mem, cursor, limit);
      var advance := RoundUp8(TagSize(mem, cursor));
      RoundsUp(TagSize(mem, cursor));
      if advance > limit - cursor {
        ParsesShort(mem, cursor + advance, limit);
        return false, 0;
      }
      cursor := cursor + advance;
    }
    ParsesShort(mem, cursor, limit);
    return false, 0;
  }

  lemma RoundsUp(n: nat)
    ensures n <= RoundUp8(n) < n + 8 && RoundUp8(n) % 8 == 0
  {
  }

  lemma ParsesShort(mem: Bytes, c: nat, limit: nat)
    requires limit <= |mem| && c + 8 > limit
    ensures !Parses(mem, c, limit)
  {
  }

  // ---------- the ACPI walk ----------

  /** The first new-style ACPI tag; failing that the first old-style one; failing that nothing. */
  ghost predicate Picks(mem: Bytes, cs: seq<nat>, chosen: Option<nat>)
    requires forall i :: 0 <= i < |cs| ==> cs[i] + 8 <= |mem|
  {
    match chosen
    case None => forall i :: 0 <= i < |cs| ==> TagType(mem, cs[i]) != TAG_ACPI_NEW && TagType(mem, cs[i]) != TAG_ACPI_OLD
    case Some(c) =>
      exists k :: 0 <= k < |cs| && cs[k] == c &&
        if TagType(mem, c) == TAG_ACPI_NEW then forall i :: 0 <= i < k ==> TagType(mem, cs[i]) != TAG_ACPI_NEW
        else
          && TagType(mem, c) == TAG_ACPI_OLD
          && (forall i :: 0 <= i < |cs| ==> TagType(mem, cs[i]) != TAG_ACPI_NEW)
          && (forall i :: 0 <= i < k ==> TagType(mem, cs[i]) != TAG_ACPI_OLD)
  }

  /** The walk stopped after `n` tags: at the first new-style ACPI tag or, when there is none, at the end tag. */
  ghost predicate Stops(mem: Bytes, cs: seq<nat>, n: nat)
    requires forall i :: 0 <= i < |cs| ==> cs[i] + 8 <= |mem|
  {
    && 0 < n <= |cs|
    && (forall i :: 0 <= i < n - 1 ==> TagType(mem, cs[i]) != TAG_ACPI_NEW)
    && (TagType(mem, cs[n - 1]) == TAG_ACPI_NEW || n == |cs|)
  }

  /** What the loop knows when it stands on tag `i`. */
  ghost predicate Seen(mem: Bytes, cs: seq<nat>, i: nat, chosen: Option<nat>)
    requires i <= |cs| && forall i :: 0 <= i < |cs| ==> cs[i] + 8 <= |mem|
  {
    && (forall j :: 0 <= j < i ==> TagType(mem, cs[j]) != TAG_ACPI_NEW)
    && Picks(mem, cs[..i], chosen)
  }

  lemma SeenStep(mem: Bytes, cs: seq<nat>, i: nat, chosen: Option<nat>)
    requires i < |cs| && forall i :: 0 <= i < |cs| ==> cs[i] + 8 <= |mem|
    requires Seen(mem, cs, i, chosen)
    ensures TagType(mem, cs[i]) == TAG_ACPI_NEW ==> Stops(mem, cs, i + 1) && Picks(mem, cs, Some(cs[i]))
    ensures TagType(mem, cs[i]) == TAG_ACPI_OLD && chosen.None? ==> Seen(mem, cs, i + 1, Some(cs[i]))
    ensures TagType(mem, cs[i]) != TAG_ACPI_NEW && (TagType(mem, cs[i]) != TAG_ACPI_OLD || chosen.Some?)
            ==> Seen(mem, cs, i + 1, chosen)
  {
    hide TagType;
    var now, more := cs[..i], cs[..i + 1];
    assert forall j :: 0 <= j < i ==> more[j] == now[j] == cs[j];
    assert more[i] == cs[i];
    if chosen.Some? {
      var k :| 0 <= k < |now| && now[k] == chosen.value && TagType(mem, now[k]) == TAG_ACPI_OLD
        && (forall j :: 0 <= j < k ==> TagType(mem, now[j]) != TAG_ACPI_OLD);
      assert more[k] == chosen.value;
    }
  }

  lemma SeenAll(mem: Bytes, cs: seq<nat>, chosen: Option<nat>)
    requires |cs| > 0 && forall i :: 0 <= i < |cs| ==> cs[i] + 8 <= |mem|
    requires Seen(mem, cs, |cs|, chosen)
    ensures Stops(mem, cs, |cs|) && Picks(mem, cs, chosen)
  {
    assert cs[..|cs|] == cs;
  }

  /**
   The tag walk of acpi_init on a block the validator accepted: it visits a prefix of the validator's
   positions and stops only at the end tag or a new-style ACPI tag.
   */
  method WalkTags(mem: Bytes, info: nat, ghost cs: seq<nat>) returns (chosen: Option<nat>, ghost visited: seq<nat>)
    requires |mem| == PHYS_LIMIT && HeaderOk(mem, info)
    requires TagList(mem, info + 8, info + Total(mem, info), cs)
    ensures visited <= cs && Stops(mem, cs, |visited|) && Picks(mem, cs, chosen)
  {
    hide TagType, TagSize, Picks, Stops, RoundUp8, Align8, U32At;
    var cursor, limit := info + 8, info + Total(mem, info);
    ghost var i := 0;
    chosen, visited := None, [];
    NothingSeen(mem, cs);
    while cursor + 8 <= limit
      invariant i < |cs| && cursor == cs[i] && visited == cs[..i] && Seen(mem, cs, i, chosen)
      invariant limit == info + Total(mem, info)
      decreases |cs| - i
    {
      visited := visited + [cursor];
      assert visited == cs[..i + 1];
      SeenStep(mem, cs, i, chosen);
      if TagType(mem, cursor) == TAG_END {
        EndIsLast(mem, info + 8, limit, cs, i);
        SeenAll(mem, cs, chosen);
        return;
      }
      NotLast(mem, info + 8, limit, cs, i);
      if TagSize(mem, cursor) < 8 {
        return;
      }
      if TagType(mem, cursor) == TAG_ACPI_NEW {
        chosen := Some(cursor);
        return;
      }
      if TagType(mem, cursor) == TAG_ACPI_OLD && chosen.None? {
        chosen := Some(cursor);
      }
      cursor := cursor + Align8(TagSize(mem, cursor));
      i := i + 1;
    }
  }

  lemma NothingSeen(mem: Bytes, cs: seq<nat>)
    requires forall i :: 0 <= i < |cs| ==> cs[i] + 8 <= |mem|
    ensures Seen(mem, cs, 0, None)
  {
  }

  lemma NotLast(mem: Bytes, first: nat, limit: nat, cs: seq<nat>, i: nat)
    requires limit <= |mem| && limit <= first + INFO_LIMIT && TagList(mem, first, limit, cs)
    requires i < |cs| && TagType(mem, cs[i]) != TAG_END
    ensures i < |cs| - 1 && TagSize(mem, cs[i]) >= 8 && cs[i + 1] == cs[i] + Align8(TagSize(mem, cs[i]))
  {
    EndIsLast(mem, first, limit, cs, i);
    PayloadInside(mem, first, limit, cs, i);
    AlignsAgreeIff(TagSize(mem, cs[i]));
  }

  /** The start of acpi_init, with the arguments the boot path passes. */
  method AcpiInit(mem: Bytes, magic: nat, info: nat) returns (chosen: Option<nat>)
    requires |mem| == PHYS_LIMIT && (magic == BOOT_MAGIC && info != 0 ==> Accepted(mem, info))
    ensures magic != BOOT_MAGIC || info == 0 ==> chosen.None?
    ensures magic == BOOT_MAGIC && info != 0 ==> PicksIn(mem, info, chosen)
  {
    hide TagList, Picks, Stops, U32At, HeaderOk;
    if magic != BOOT_MAGIC || info == 0 || !(info < PHYS_LIMIT && info + 8 <= PHYS_LIMIT) {
      AcceptedMapped(mem, info);
      return None;
    }
    AcceptedMapped(mem, info);
    ghost var cs :| TagList(mem, info + 8, info + Total(mem, info), cs);
    ghost var visited;
    chosen, visited := WalkTags(mem, info, cs);
    PicksInside(mem, info, cs, chosen);
  }

  lemma AcceptedMapped(mem: Bytes, info: nat)
    requires |mem| == PHYS_LIMIT
    ensures Accepted(mem, info) ==> info + 16 <= info + Total(mem, info) <= PHYS_LIMIT
  {
  }

  /** The chosen tag is a tag of the block, picked by rank and order, and its payload ends before the end tag. */
  ghost predicate PicksIn(mem: Bytes, info: nat, chosen: Option<nat>)
    requires |mem| == PHYS_LIMIT && Accepted(mem, info)
  {
    && (exists cs :: TagList(mem, info + 8, info + Total(mem, info), cs) && Picks(mem, cs, chosen))
    && (chosen.Some? ==>
          && info + 8 <= chosen.value && chosen.value + 8 <= PHYS_LIMIT
          && 8 <= TagSize(mem, chosen.value)
          && chosen.value + TagSize(mem, chosen.value) <= info + Total(mem, info) - 8)
  }

  lemma PicksInside(mem: Bytes, info: nat, cs: seq<nat>, chosen: Option<nat>)
    requires |mem| == PHYS_LIMIT && HeaderOk(mem, info)
    requires TagList(mem, info + 8, info + Total(mem, info), cs) && Picks(mem, cs, chosen)
    ensures PicksIn(mem, info, chosen)
  {
    if chosen.Some? {
      var k :| 0 <= k < |cs| && cs[k] == chosen.value && TagType(mem, cs[k]) in {TAG_ACPI_NEW, TAG_ACPI_OLD};
      NotLast(mem, info + 8, info + Total(mem, info), cs, k);
      PayloadInside(mem, info + 8, info + Total(mem, info), cs, k);
    }
  }

  /** The boot path: a handoff the validator rejects is never walked, so the walk needs no condition of its own. */
  method BootTags(mem: Bytes, magic: nat, info: nat) returns (chosen: Option<nat>)
    requires |mem| == PHYS_LIMIT
    ensures magic == BOOT_MAGIC && Accepted(mem, info) ==> PicksIn(mem, info, chosen)
    ensures !(magic == BOOT_MAGIC && Accepted(mem, info)) ==> chosen.None?
  {
    hide TagList, PicksIn;
    var ok := false;
    if magic == BOOT_MAGIC {
      var size;
      ok, size := HandoffValid(mem, info);
    }
    chosen := AcpiInit(mem, if ok then magic else 0, if ok then info else 0);
  }
}
