/**
 Private address spaces of the two bootstrap slots: a four-level walk over page tables, the
 construction of the private tables, and what prepare and seal do to a slot. The walk follows
 section 4.5 of the Intel SDM, volume 3A.
 */
module Paging {
  import opened Types
  import Alignment

  const SLOTS: nat := 2
  const ENTRIES: nat := 512
  const IDENTITY_LIMIT: nat := 0x1_0000_0000
  const GIB: nat := 1024 * 1024 * 1024

  // Where the user window hangs in the tree: entry 0, entry 0, entry 32.
  const USER_PDE: nat := 32

  /** A page-table entry, decoded. */
  datatype Entry = Entry(present: bool, writable: bool, user: bool, huge: bool, nx: bool, frame: nat)

  type Table = seq<Entry>

  /** Physical address of a table to its contents. */
  type Tables = map<nat, Table>

  datatype Translation = Fault | Mapped(phys: nat, writable: bool, user: bool, nx: bool)

  /** Permissions narrow on the way down. */
  datatype Rights = Rights(writable: bool, user: bool, nx: bool)

  function Narrow(r: Rights, e: Entry): Rights {
    Rights(r.writable && e.writable, r.user && e.user, r.nx || e.nx)
  }

  function Page(e: Entry, r: Rights, va: nat, size: nat): Translation
    requires size > 0
  {
    var n := Narrow(r, e);
    Mapped(e.frame + va % size, n.writable, n.user, n.nx)
  }

  /** The entry of a table that covers `va`, when each entry spans `span` bytes. */
  function Lookup(tables: Tables, table: nat, va: nat, span: nat): Option<Entry>
    requires span > 0
  {
    var i := va / span % ENTRIES;
    if table in tables && i < |tables[table]| && tables[table][i].present then Some(tables[table][i]) else None
  }

  function WalkL1(tables: Tables, table: nat, r: Rights, va: nat): Translation {
    match Lookup(tables, table, va, PAGE_SIZE)
    case None => Fault
    case Some(e) => Page(e, r, va, PAGE_SIZE)
  }

  function WalkL2(tables: Tables, table: nat, r: Rights, va: nat): Translation {
    match Lookup(tables, table, va, HUGE_PAGE_SIZE)
    case None => Fault
    case Some(e) => if e.huge then Page(e, r, va, HUGE_PAGE_SIZE) else WalkL1(tables, e.frame, Narrow(r, e), va)
  }

  function WalkL3(tables: Tables, table: nat, r: Rights, va: nat): Translation {
    match Lookup(tables, table, va, GIB)
    case None => Fault
    case Some(e) => if e.huge then Page(e, r, va, GIB) else WalkL2(tables, e.frame, Narrow(r, e), va)
  }

  /** What address `va` means under page-table root `cr3`. */
  function Translate(tables: Tables, cr3: nat, va: nat): Translation {
    match Lookup(tables, cr3, va, ENTRIES * GIB)
    case None => Fault
    case Some(e) => WalkL3(tables, e.frame, Narrow(Rights(true, true, false), e), va)
  }

  /** Where the linker put the boot tables and the static tables and buffers of the slots. */
  datatype Layout = Layout(
    p4: nat, p3: nat, p2: nat, pml4: seq<nat>, pdpt: seq<nat>, pd0: seq<nat>, backing: seq<nat>)

  ghost predicate LayoutOk(l: Layout) {
    && |l.pml4| == |l.pdpt| == |l.pd0| == |l.backing| == SLOTS
    && var all := [l.p4, l.p3, l.p2] + l.pml4 + l.pdpt + l.pd0;
       forall i, j :: 0 <= i < j < |all| ==> all[i] != all[j]
  }

  datatype Spaces = Spaces(tables: Tables, backing: seq<seq<Byte>>, executable: seq<bool>, ready: bool)

  function TableEntry(frame: nat): Entry { Entry(true, true, true, false, false, frame) }

  function LeafEntry(frame: nat, nx: bool): Entry { Entry(true, true, true, true, nx, frame) }

  /** identity_range_valid */
  predicate IdentityRange(base: nat, size: nat, alignment: nat)
    requires alignment > 0
  {
    base != 0 && base % alignment == 0 && size <= IDENTITY_LIMIT && base <= IDENTITY_LIMIT - size
  }

  predicate SlotRanges(l: Layout, i: nat)
    requires i < |l.pml4| && i < |l.pdpt| && i < |l.pd0| && i < |l.backing|
  {
    && IdentityRange(l.pml4[i], PAGE_SIZE, PAGE_SIZE) && IdentityRange(l.pdpt[i], PAGE_SIZE, PAGE_SIZE)
    && IdentityRange(l.pd0[i], PAGE_SIZE, PAGE_SIZE) && IdentityRange(l.backing[i], USER_SIZE, HUGE_PAGE_SIZE)
  }

  ghost predicate Shaped(s: Spaces, l: Layout) {
    && LayoutOk(l) && |s.backing| == |s.executable| == SLOTS
    && l.p4 in s.tables && l.p3 in s.tables && l.p2 in s.tables
    && |s.tables[l.p4]| == |s.tables[l.p3]| == |s.tables[l.p2]| == ENTRIES
  }

  /** The three private tables of slot `i`, copied from the boot tables but for one entry each. */
  function WithSlot(t: Tables, l: Layout, i: nat, nx: bool): Tables
    requires i < |l.pml4| && i < |l.pdpt| && i < |l.pd0| && i < |l.backing|
    requires l.p4 in t && l.p3 in t && l.p2 in t && |t[l.p4]| == |t[l.p3]| == |t[l.p2]| == ENTRIES
  {
    t[l.pml4[i] := t[l.p4][0 := TableEntry(l.pdpt[i])]]
     [l.pdpt[i] := t[l.p3][0 := TableEntry(l.pd0[i])]]
     [l.pd0[i] := t[l.p2][USER_PDE := LeafEntry(l.backing[i], nx)]]
  }

  /** The spaces once the first `n` slots are built. */
  function BuiltUpTo(s: Spaces, l: Layout, nx: bool, n: nat): (r: Spaces)
    requires Shaped(s, l) && n <= SLOTS
    ensures Shaped(r, l) && r == s.(tables := r.tables, executable := r.executable)
  {
    if n == 0 then s
    else
      var t := BuiltUpTo(s, l, nx, n - 1);
      t.(tables := WithSlot(t.tables, l, n - 1, nx), executable := t.executable[n - 1 := false])
  }

  function Zeroes(): (z: seq<Byte>)
    ensures |z| == USER_SIZE && forall i :: 0 <= i < |z| ==> z[i] == 0
  {
    seq(USER_SIZE, _ => 0)
  }

  /**
   build_private_user_spaces. `sec` is what the processor reports: None when the report fails,
   otherwise whether execute-disable is honoured.
   */
  function Build(s: Spaces, l: Layout, sec: Option<bool>): (r: (Spaces, Status))
    requires Shaped(s, l)
    ensures Shaped(r.0, l)
  {
    if s.ready then (s, Ok)
    else if sec.None? then (s, Io)
    else if !SlotRanges(l, 0) then (s, Inval)
    else if !SlotRanges(l, 1) then (BuiltUpTo(s, l, sec.value, 1), Inval)
    else
      var s2 := BuiltUpTo(s, l, sec.value, 2);
      if l.backing[0] == l.backing[1] then (s2, Io) else (s2.(ready := true), Ok)
  }

  /** Slot `slot` gets a zeroed backing and the requested leaf policy. */
  function SetLeaf(s: Spaces, l: Layout, slot: nat, executable: bool, nx: bool): (r: Spaces)
    requires Shaped(s, l) && slot < SLOTS && l.pd0[slot] in s.tables && |s.tables[l.pd0[slot]]| == ENTRIES
    ensures Shaped(r, l)
  {
    s.(tables := s.tables[l.pd0[slot] := s.tables[l.pd0[slot]][USER_PDE := LeafEntry(l.backing[slot], !executable && nx)]],
       backing := s.backing[slot := Zeroes()],
       executable := s.executable[slot := executable])
  }

  // ---------- the invariant of the tables ----------

  /** Slot `i` has the boot tables but for its own window. */
  ghost predicate SlotOk(s: Spaces, l: Layout, i: nat)
    requires Shaped(s, l) && i < SLOTS
  {
    && l.pml4[i] in s.tables && s.tables[l.pml4[i]] == s.tables[l.p4][0 := TableEntry(l.pdpt[i])]
    && l.pdpt[i] in s.tables && s.tables[l.pdpt[i]] == s.tables[l.p3][0 := TableEntry(l.pd0[i])]
    && l.pd0[i] in s.tables && |s.tables[l.pd0[i]]| == ENTRIES
    && s.tables[l.pd0[i]] == s.tables[l.p2][USER_PDE := LeafEntry(l.backing[i], s.tables[l.pd0[i]][USER_PDE].nx)]
    && SlotRanges(l, i)
  }

  /** The boot tables reach the first gigabyte through supervisor entries. */
  ghost predicate BootOk(t: Tables, l: Layout) {
    && l.p4 in t && l.p3 in t && l.p2 in t && |t[l.p4]| == |t[l.p3]| == |t[l.p2]| == ENTRIES
    && t[l.p4][0] == Entry(true, true, false, false, false, l.p3)
    && t[l.p3][0] == Entry(true, true, false, false, false, l.p2)
    && (forall k :: 0 <= k < ENTRIES ==> !t[l.p3][k].user)
    && (forall k :: 0 <= k < ENTRIES ==> !t[l.p2][k].user)
  }

  ghost predicate Inv(s: Spaces, l: Layout) {
    && Shaped(s, l) && BootOk(s.tables, l)
    && (s.ready ==> SlotOk(s, l, 0) && SlotOk(s, l, 1) && l.backing[0] != l.backing[1])
  }

  lemma BuiltOne(s: Spaces, l: Layout, nx: bool, i: nat)
    requires Shaped(s, l) && i < SLOTS && SlotRanges(l, i)
    ensures var r := s.(tables := WithSlot(s.tables, l, i, nx), executable := s.executable[i := false]);
            && Shaped(r, l)
            && r.tables[l.p4] == s.tables[l.p4] && r.tables[l.p3] == s.tables[l.p3] && r.tables[l.p2] == s.tables[l.p2]
            && SlotOk(r, l, i) && (SlotOk(s, l, 1 - i) ==> SlotOk(r, l, 1 - i))
  {
    hide SlotRanges, LayoutOk;
    ApartTables(l);
  }

  /** Building slots leaves the boot tables alone and makes each built slot sound. */
  lemma {:induction false} BuiltSlots(s: Spaces, l: Layout, nx: bool, n: nat)
    requires Shaped(s, l) && n <= SLOTS && forall j :: 0 <= j < n ==> SlotRanges(l, j)
    ensures var r := BuiltUpTo(s, l, nx, n);
            && r.tables[l.p4] == s.tables[l.p4] && r.tables[l.p3] == s.tables[l.p3] && r.tables[l.p2] == s.tables[l.p2]
            && forall j :: 0 <= j < n ==> SlotOk(r, l, j)
  {
    hide SlotRanges, LayoutOk, SlotOk, WithSlot;
    if n > 0 {
      BuiltSlots(s, l, nx, n - 1);
      BuiltOne(BuiltUpTo(s, l, nx, n - 1), l, nx, n - 1);
    }
  }

  lemma BuildKeepsInv(s: Spaces, l: Layout, sec: Option<bool>)
    requires Inv(s, l)
    ensures Inv(Build(s, l, sec).0, l)
    ensures Build(s, l, sec).1 == Ok <==> Build(s, l, sec).0.ready
    ensures Build(s, l, sec).0.backing == s.backing
  {
    hide SlotRanges, SlotOk, BuiltUpTo;
    if !s.ready && sec.Some? && SlotRanges(l, 0) {
      BuiltSlots(s, l, sec.value, if SlotRanges(l, 1) then 2 else 1);
      ReadyIrrelevant(BuiltUpTo(s, l, sec.value, 2), l);
    }
  }

  lemma ReadyIrrelevant(s: Spaces, l: Layout)
    requires Shaped(s, l)
    ensures Shaped(s.(ready := true), l)
    ensures forall j :: 0 <= j < SLOTS && SlotOk(s, l, j) ==> SlotOk(s.(ready := true), l, j)
  {
    hide SlotRanges, LayoutOk;
  }

  lemma ApartTables(l: Layout)
    requires LayoutOk(l)
    ensures forall i :: 0 <= i < SLOTS ==>
              && l.pml4[i] != l.p4 && l.pml4[i] != l.p3 && l.pml4[i] != l.p2
              && l.pdpt[i] != l.p4 && l.pdpt[i] != l.p3 && l.pdpt[i] != l.p2
              && l.pd0[i] != l.p4 && l.pd0[i] != l.p3 && l.pd0[i] != l.p2
    ensures forall i, j :: 0 <= i < SLOTS && 0 <= j < SLOTS ==>
              l.pml4[i] != l.pdpt[j] && l.pml4[i] != l.pd0[j] && l.pdpt[i] != l.pd0[j]
    ensures l.pml4[0] != l.pml4[1] && l.pdpt[0] != l.pdpt[1] && l.pd0[0] != l.pd0[1]
  {
    var all := [l.p4, l.p3, l.p2] + l.pml4 + l.pdpt + l.pd0;
    assert all[0] == l.p4 && all[1] == l.p3 && all[2] == l.p2;
    assert all[3] == l.pml4[0] && all[4] == l.pml4[1] && all[5] == l.pdpt[0] && all[6] == l.pdpt[1];
    assert all[7] == l.pd0[0] && all[8] == l.pd0[1];
  }

  /** A new leaf policy on one slot leaves the tables, the memory and the policy of the other alone. */
  lemma SetLeafKeeps(s: Spaces, l: Layout, slot: nat, executable: bool, nx: bool)
    requires Inv(s, l) && s.ready && slot < SLOTS
    ensures var s' := SetLeaf(s, l, slot, executable, nx); var other := 1 - slot;
            && Inv(s', l) && s'.ready
            && s'.tables[l.pml4[other]] == s.tables[l.pml4[other]]
            && s'.tables[l.pdpt[other]] == s.tables[l.pdpt[other]]
            && s'.tables[l.pd0[other]] == s.tables[l.pd0[other]]
            && s'.backing[other] == s.backing[other] && s'.executable[other] == s.executable[other]
  {
    ApartTables(l);
  }

  /** The table work of slot prepare and seal: build on first use, then the leaf policy. */
  function Policy(s: Spaces, l: Layout, sec: Option<bool>, slot: nat, executable: bool): (r: (Spaces, Status))
    requires Inv(s, l) && slot < SLOTS
    ensures Inv(r.0, l) && (s.ready ==> r.0.ready)
  {
    BuildKeepsInv(s, l, sec);
    hide Inv, Shaped;
    var (built, status) := Build(s, l, sec);
    if status != Ok then (built, status)
    else if sec.None? then (built, Io)
    else
      SetLeafKeeps(built, l, slot, executable, sec.value);
      (SetLeaf(built, l, slot, executable, sec.value), Ok)
  }

  /** The window of a slot is all zero, and its leaf has this execute-disable bit. */
  ghost predicate Sealed(s: Spaces, l: Layout, slot: nat, nx: bool) {
    && slot < |s.backing| && slot < |l.pd0| && l.pd0[slot] in s.tables && USER_PDE < |s.tables[l.pd0[slot]]|
    && s.backing[slot] == Zeroes() && s.tables[l.pd0[slot]][USER_PDE].nx == nx
  }

  /** A slot that got its policy is zeroed and has the matching leaf. */
  lemma PolicyDoes(s: Spaces, l: Layout, sec: Option<bool>, slot: nat, executable: bool)
    requires Inv(s, l) && slot < SLOTS && Policy(s, l, sec, slot, executable).1 == Ok
    ensures var s' := Policy(s, l, sec, slot, executable).0;
            && s'.ready && sec.Some?
            && s'.executable[slot] == executable
            && Sealed(s', l, slot, !executable && sec.value)
  {
    hide Build, Zeroes;
    BuildKeepsInv(s, l, sec);
  }

  lemma Sizes(s: Spaces, l: Layout)
    requires Inv(s, l)
    ensures |l.pml4| == |l.backing| == |s.executable| == |s.backing| == SLOTS
  {
  }

  lemma ReadyTables(s: Spaces, l: Layout, slot: nat)
    requires Inv(s, l) && s.ready && slot < SLOTS
    ensures |l.pd0| == |l.backing| == |s.backing| == |s.executable| == SLOTS
    ensures l.pd0[slot] in s.tables && |s.tables[l.pd0[slot]]| == ENTRIES
  {
  }

  lemma PolicyWorks(s: Spaces, l: Layout, sec: Option<bool>, slot: nat, executable: bool)
    requires Inv(s, l) && slot < SLOTS && s.ready && sec.Some?
    ensures Policy(s, l, sec, slot, executable).1 == Ok
  {
    hide SlotRanges, SlotOk;
  }

  /** Once the spaces are built, giving one slot a policy changes nothing of the other slot or of boot. */
  lemma PolicySparesOther(s: Spaces, l: Layout, sec: Option<bool>, slot: nat, executable: bool)
    requires Inv(s, l) && slot < SLOTS && s.ready
    ensures var s' := Policy(s, l, sec, slot, executable).0; var other := 1 - slot;
            && s'.backing[other] == s.backing[other] && s'.executable[other] == s.executable[other]
            && s'.tables[l.pml4[other]] == s.tables[l.pml4[other]]
            && s'.tables[l.pdpt[other]] == s.tables[l.pdpt[other]]
            && s'.tables[l.pd0[other]] == s.tables[l.pd0[other]]
            && s'.tables[l.p4] == s.tables[l.p4] && s'.tables[l.p3] == s.tables[l.p3] && s'.tables[l.p2] == s.tables[l.p2]
  {
    hide SlotRanges, Zeroes;
    ApartTables(l);
    if sec.Some? {
      SetLeafKeeps(s, l, slot, executable, sec.value);
    }
  }

  // ---------- meaning ----------

  const VA_LIMIT: nat := ENTRIES * ENTRIES * GIB

  predicate InWindow(va: nat) { USER_BASE <= va < USER_END }

  /** The window is exactly what hangs below entries 0, 0 and 32. */
  lemma WindowIndex(va: nat)
    requires va < VA_LIMIT
    ensures InWindow(va)
            <==> va / (ENTRIES * GIB) % ENTRIES == 0 && va / GIB % ENTRIES == 0 && va / HUGE_PAGE_SIZE % ENTRIES == USER_PDE
    ensures InWindow(va) ==> va % HUGE_PAGE_SIZE == va - USER_BASE
  {
  }

  /** Below the private page directory: the same leaf, and no user access either way. */
  lemma SameDirectory(s: Spaces, l: Layout, slot: nat, va: nat)
    requires Inv(s, l) && s.ready && slot < SLOTS && va / HUGE_PAGE_SIZE % ENTRIES != USER_PDE
    ensures WalkL2(s.tables, l.pd0[slot], Rights(true, true, false), va) == WalkL2(s.tables, l.p2, Rights(true, false, false), va)
  {
    var k := va / HUGE_PAGE_SIZE % ENTRIES;
    assert SlotOk(s, l, slot);
    assert s.tables[l.pd0[slot]][k] == s.tables[l.p2][k];
  }

  lemma SamePointers(s: Spaces, l: Layout, slot: nat, va: nat)
    requires Inv(s, l) && s.ready && slot < SLOTS
    requires !(va / GIB % ENTRIES == 0 && va / HUGE_PAGE_SIZE % ENTRIES == USER_PDE)
    ensures WalkL3(s.tables, l.pdpt[slot], Rights(true, true, false), va) == WalkL3(s.tables, l.p3, Rights(true, false, false), va)
  {
    hide WalkL2;
    var k := va / GIB % ENTRIES;
    assert SlotOk(s, l, slot);
    if k == 0 {
      SameDirectory(s, l, slot, va);
    } else {
      assert s.tables[l.pdpt[slot]][k] == s.tables[l.p3][k];
    }
  }

  /** Outside the window a slot translates every address exactly as the boot tables do. */
  lemma SameOutside(s: Spaces, l: Layout, slot: nat, va: nat)
    requires Inv(s, l) && s.ready && slot < SLOTS && va < VA_LIMIT && !InWindow(va)
    ensures Translate(s.tables, l.pml4[slot], va) == Translate(s.tables, l.p4, va)
  {
    hide WalkL3;
    WindowIndex(va);
    var k := va / (ENTRIES * GIB) % ENTRIES;
    assert SlotOk(s, l, slot);
    if k == 0 {
      SamePointers(s, l, slot, va);
    } else {
      assert s.tables[l.pml4[slot]][k] == s.tables[l.p4][k];
    }
  }

  /** Inside the window a slot reaches its own backing, writable from user mode. */
  lemma WindowMapped(s: Spaces, l: Layout, slot: nat, va: nat)
    requires Inv(s, l) && s.ready && slot < SLOTS && InWindow(va)
    ensures Translate(s.tables, l.pml4[slot], va)
            == Mapped(l.backing[slot] + (va - USER_BASE), true, true, s.tables[l.pd0[slot]][USER_PDE].nx)
  {
    WindowIndex(va);
    assert SlotOk(s, l, slot);
    assert Lookup(s.tables, l.pml4[slot], va, ENTRIES * GIB) == Some(TableEntry(l.pdpt[slot]));
    assert Lookup(s.tables, l.pdpt[slot], va, GIB) == Some(TableEntry(l.pd0[slot]));
    assert Lookup(s.tables, l.pd0[slot], va, HUGE_PAGE_SIZE)
           == Some(LeafEntry(l.backing[slot], s.tables[l.pd0[slot]][USER_PDE].nx));
  }

  /** Isolation: no address of one window shares a byte with any address of the other. */
  lemma WindowsDisjoint(s: Spaces, l: Layout, va: nat, va': nat)
    requires Inv(s, l) && s.ready && InWindow(va) && InWindow(va')
    ensures Translate(s.tables, l.pml4[0], va).phys != Translate(s.tables, l.pml4[1], va').phys
  {
    WindowMapped(s, l, 0, va);
    WindowMapped(s, l, 1, va');
    Apart(l.backing[0], l.backing[1]);
  }

  /** Two different multiples of 2 MiB are at least 2 MiB apart. */
  lemma Apart(a: nat, b: nat)
    requires a != b && a % HUGE_PAGE_SIZE == 0 && b % HUGE_PAGE_SIZE == 0
    ensures a + HUGE_PAGE_SIZE <= b || b + HUGE_PAGE_SIZE <= a
  {
  }

  // ---------- raw entries ----------

  const ADDRESS_BITS: bv64 := 0x000F_FFFF_FFFF_F000

  /** A page-aligned address or-ed with flag bits decodes to both again. */
  lemma EntryDecodes(base: bv64, flags: bv64)
    requires base & !ADDRESS_BITS == 0 && flags & ADDRESS_BITS == 0
    ensures (base | flags) & ADDRESS_BITS == base && (base | flags) & !ADDRESS_BITS == flags
  {
  }
}
