/**
 The processor registers and the static address-space slots as the source manipulates them.
 Every method does to the abstract state what the functions of Paging and ProcessSpec say.
 */
module AddressSpace {
  import opened Types
  import P = Paging
  import opened ProcessSpec

  /** CR3, the TSS entry stack and the interrupt flag; some writes may get lost. */
  class Cpu {
    var cr3: nat
    var rsp0: nat
    var irq: bool
    var writes: nat
    const drop: nat -> bool

    constructor (cr3: nat, rsp0: nat, irq: bool, drop: nat -> bool)
      ensures Abs() == Hw(cr3, rsp0, irq, 0) && this.drop == drop
    {
      this.cr3, this.rsp0, this.irq, this.writes, this.drop := cr3, rsp0, irq, 0, drop;
    }

    ghost function Abs(): Hw
      reads this
    {
      Hw(cr3, rsp0, irq, writes)
    }

    method LoadCr3(v: nat)
      modifies this`cr3, this`writes
      ensures cr3 == (if drop(old(writes)) then old(cr3) else v) && writes == old(writes) + 1
    {
      if !drop(writes) {
        cr3 := v;
      }
      writes := writes + 1;
    }

    method SetIrq(on: bool)
      modifies this`irq, this`writes
      ensures irq == (on && !drop(old(writes))) && writes == old(writes) + 1
    {
      irq := on && !drop(writes);
      writes := writes + 1;
    }

    method StoreRsp0(v: nat)
      modifies this`rsp0, this`writes
      ensures rsp0 == (if drop(old(writes)) then old(rsp0) else v) && writes == old(writes) + 1
    {
      if !drop(writes) {
        rsp0 := v;
      }
      writes := writes + 1;
    }
  }

  /** The static page tables and backing buffers of the slots. */
  class SlotTables {
    const layout: P.Layout
    var tables: P.Tables
    var backing: seq<seq<Byte>>
    var executable: seq<bool>
    var ready: bool

    constructor (layout: P.Layout, tables: P.Tables, backing: seq<seq<Byte>>)
      requires |backing| == SLOTS
      requires P.Inv(P.Spaces(tables, backing, [false, false], false), layout)
      ensures Valid() && this.layout == layout && Abs() == P.Spaces(tables, backing, [false, false], false)
    {
      this.layout, this.tables, this.backing := layout, tables, backing;
      executable, ready := [false, false], false;
    }

    ghost function Abs(): P.Spaces
      reads this
    {
      P.Spaces(tables, backing, executable, ready)
    }

    ghost predicate Valid()
      reads this
    {
      P.Inv(Abs(), layout)
    }

    /** One iteration of the loop of build_private_user_spaces. */
    method BuildSlot(i: nat, nx: bool) returns (status: Status)
      requires P.Shaped(Abs(), layout) && i < SLOTS
      modifies this`tables, this`executable
      ensures P.Shaped(Abs(), layout)
      ensures status == (if P.SlotRanges(layout, i) then Ok else Inval)
      ensures tables == if status == Ok then P.WithSlot(old(tables), layout, i, nx) else old(tables)
      ensures executable == if status == Ok then old(executable)[i := false] else old(executable)
    {
      if !P.SlotRanges(layout, i) {
        return Inval;
      }
      var pml4, pdpt, pd0 := tables[layout.p4], tables[layout.p3], tables[layout.p2];
      pd0 := pd0[P.USER_PDE := P.LeafEntry(layout.backing[i], nx)];
      pdpt := pdpt[0 := P.TableEntry(layout.pd0[i])];
      pml4 := pml4[0 := P.TableEntry(layout.pdpt[i])];
      P.ApartTables(layout);
      tables := tables[layout.pml4[i] := pml4][layout.pdpt[i] := pdpt][layout.pd0[i] := pd0];
      executable := executable[i := false];
      status := Ok;
    }

    /** build_private_user_spaces */
    method Build(sec: Option<bool>) returns (status: Status)
      requires Valid()
      modifies this
      ensures Valid() && (Abs(), status) == P.Build(old(Abs()), layout, sec)
    {
      P.BuildKeepsInv(Abs(), layout, sec);
      if ready {
        return Ok;
      }
      if sec.None? {
        return Io;
      }
      for i := 0 to SLOTS
        invariant P.Shaped(Abs(), layout) && Abs() == P.BuiltUpTo(old(Abs()), layout, sec.value, i)
        invariant forall k :: 0 <= k < i ==> P.SlotRanges(layout, k)
      {
        status := BuildSlot(i, sec.value);
        if status != Ok {
          return;
        }
      }
      if layout.backing[0] == layout.backing[1] {
        return Io;
      }
      ready, status := true, Ok;
    }

    /** The leaf and backing work shared by slot prepare and slot seal. */
    method SetPolicy(sec: Option<bool>, slot: nat, exec: bool) returns (status: Status)
      requires Valid() && slot < SLOTS
      modifies this
      ensures Valid() && (Abs(), status) == P.Policy(old(Abs()), layout, sec, slot, exec)
    {
      hide P.Build, P.SlotRanges, P.SlotOk;
      P.BuildKeepsInv(Abs(), layout, sec);
      status := Build(sec);
      if status != Ok {
        return;
      }
      if sec.None? {
        return Io;
      }
      P.SetLeafKeeps(Abs(), layout, slot, exec, sec.value);
      P.ReadyTables(Abs(), layout, slot);
      backing := backing[slot := P.Zeroes()];
      var leaf := P.LeafEntry(layout.backing[slot], !exec && sec.value);
      tables := tables[layout.pd0[slot] := tables[layout.pd0[slot]][P.USER_PDE := leaf]];
      executable := executable[slot := exec];
    }
  }
}
