/** The count of attached windows each domain carries, and exactly when it is right. */
module FabricAccounts {
  import opened Types
  import opened FreeBlocks
  import T = TensorSpec
  import opened FabricSpec
  import opened FabricProofs

  /** The mask the accounting uses. */
  function Mask(w: Window): bv32 { Both(w.readers, w.writers) }

  function Both(x: bv32, y: bv32): bv32 { x | y }

  predicate Concerns(w: Window, domain: nat) { w.active && !Lacks(Mask(w), domain) }

  /** How many of the first `n` windows are open to the domain. */
  function Naming(ws: seq<Window>, n: nat, domain: nat): (c: nat)
    requires n <= |ws|
    ensures c <= n
  {
    if n == 0 then 0 else Naming(ws, n - 1, domain) + (if Concerns(ws[n - 1], domain) then 1 else 0)
  }

  /** Every domain carries the number of active windows that name it. */
  ghost predicate Exact(f: Fabric) {
    forall i :: 0 <= i < |f.domains| ==> f.domains[i].attached == Naming(f.windows, |f.windows|, f.domains[i].id)
  }

  lemma {:induction false} NamingUpdate(ws: seq<Window>, i: nat, w: Window, n: nat, d: nat)
    requires i < |ws| && n <= |ws|
    ensures Naming(ws[i := w], n, d)
            == Naming(ws, n, d) + (if i < n && Concerns(w, d) then 1 else 0) - (if i < n && Concerns(ws[i], d) then 1 else 0)
  {
    hide Concerns;
    if n > 0 {
      NamingUpdate(ws, i, w, n - 1, d);
    }
  }

  lemma {:induction false} NamingPrefix(ws: seq<Window>, w: Window, n: nat, d: nat)
    requires n <= |ws|
    ensures Naming(ws + [w], n, d) == Naming(ws, n, d)
  {
    hide Concerns;
    if n > 0 {
      NamingPrefix(ws, w, n - 1, d);
    }
  }

  /** A window put into a free slot counts for the domains it names. */
  lemma NamingPut(ws: seq<Window>, i: nat, w: Window, d: nat)
    requires i <= |ws| && (i < |ws| ==> !ws[i].active)
    ensures var vs := PutWindow(ws, i, w);
            Naming(vs, |vs|, d) == Naming(ws, |ws|, d) + (if Concerns(w, d) then 1 else 0)
  {
    hide Lacks, Mask;
    if i < |ws| {
      NamingUpdate(ws, i, w, |ws|, d);
    } else {
      NamingPrefix(ws, w, |ws|, d);
    }
  }

  lemma NamingAt(ws: seq<Window>, i: nat, n: nat, d: nat)
    requires i < n <= |ws| && Concerns(ws[i], d)
    ensures Naming(ws, n, d) > 0
  {
    hide Concerns;
    if n > i + 1 {
      NamingAt(ws, i, n - 1, d);
    }
  }

  lemma AccountOne(d: Domain, mask: bv32, up: bool)
    requires d.attached < 0xFFFF && (!up && !Lacks(mask, d.id) ==> d.attached > 0)
    ensures var e := Account(d, mask, up);
            e.id == d.id && e.attached == d.attached + (if Lacks(mask, d.id) then 0 else if up then 1 else -1)
  {
    hide Lacks;
  }

  lemma SharedShape(f: Fabric, owner: U32, tensorId: U32, readers: bv32, writers: bv32) returns (slot: nat, w: Window)
    requires T.Shaped(f.mem) && Share(f, owner, tensorId, readers, writers).1 == Ok
    ensures slot <= |f.windows| && w.active && (slot < |f.windows| ==> !f.windows[slot].active)
    ensures Share(f, owner, tensorId, readers, writers).0.windows == PutWindow(f.windows, slot, w)
    ensures Share(f, owner, tensorId, readers, writers).0.domains == AccountAll(f.domains, Mask(w), true)
  {
    hide T.Shaped, T.Ref, T.Unref, FindDomain, PutWindow, AccountAll, ReadMask, WriteMask;
    var t := f.mem.tensors[T.FindTensor(f.mem.tensors, tensorId).value];
    w := NewWindow(f.nextWindowId, owner, t, readers, writers);
    slot := FreeSlot(f.windows).value;
  }

  lemma FailedShape(f: Fabric, owner: U32, tensorId: U32, readers: bv32, writers: bv32)
    requires T.Shaped(f.mem) && Share(f, owner, tensorId, readers, writers).1 != Ok
    ensures var f' := Share(f, owner, tensorId, readers, writers).0; f'.windows == f.windows && f'.domains == f.domains
  {
    hide T.Shaped, T.Ref, T.Unref, FindDomain, PutWindow, AccountAll, ReadMask, WriteMask;
  }

  lemma ShareKeepsExact(f: Fabric, owner: U32, tensorId: U32, readers: bv32, writers: bv32)
    requires T.Shaped(f.mem) && Exact(f) && |f.windows| <= MAX_WINDOWS
    ensures Exact(Share(f, owner, tensorId, readers, writers).0)
  {
    hide T.Shaped, Share, PutWindow, Mask, Lacks, Naming, Account;
    var f' := Share(f, owner, tensorId, readers, writers).0;
    if Share(f, owner, tensorId, readers, writers).1 == Ok {
      var slot, w := SharedShape(f, owner, tensorId, readers, writers);
      forall i | 0 <= i < |f'.domains| ensures f'.domains[i].attached == Naming(f'.windows, |f'.windows|, f'.domains[i].id) {
        NamingPut(f.windows, slot, w, f.domains[i].id);
        AccountOne(f.domains[i], Mask(w), true);
      }
    } else {
      FailedShape(f, owner, tensorId, readers, writers);
    }
  }

  lemma ReleaseKeepsExact(f: Fabric, windowId: U32)
    requires T.Shaped(f.mem) && Exact(f) && |f.windows| <= MAX_WINDOWS
    ensures Exact(Release(f, windowId).0)
  {
    hide T.Shaped, T.Ref, T.Unref, Lacks, Naming;
    var f' := Release(f, windowId).0;
    var found := FindWindow(f.windows, windowId);
    if found.Some? {
      var k := found.value;
      var w := f.windows[k];
      forall i | 0 <= i < |f'.domains| ensures f'.domains[i].attached == Naming(f'.windows, |f'.windows|, f'.domains[i].id) {
        NamingUpdate(f.windows, k, Closed(w), |f.windows|, f.domains[i].id);
        if Concerns(w, f.domains[i].id) {
          NamingAt(f.windows, k, |f.windows|, f.domains[i].id);
        }
        AccountOne(f.domains[i], Mask(w), false);
      }
    }
  }

  lemma MapCountAside(w: Window, n: nat, d: nat)
    ensures Concerns(w.(mapCount := n), d) <==> Concerns(w, d)
  {
    hide Lacks, Both;
  }

  lemma AttachShape(f: Fabric, windowId: U32, domainId: U32, write: bool) returns (k: nat, n: nat)
    ensures var f' := Attach(f, windowId, domainId, write).0;
            f' == f || (k < |f.windows| && f' == f.(windows := f.windows[k := f.windows[k].(mapCount := n)]))
  {
    hide Lacks, Nameless, FindDomain;
    var found := FindWindow(f.windows, windowId);
    k, n := 0, 0;
    if found.Some? {
      k := found.value;
      var m := f.windows[k].mapCount + 1;
      n := if m > 0xFFFF then 0xFFFF else m;
    }
  }

  lemma AttachKeepsExact(f: Fabric, windowId: U32, domainId: U32, write: bool)
    requires Exact(f)
    ensures Exact(Attach(f, windowId, domainId, write).0)
  {
    hide Concerns, Naming, Attach;
    var f' := Attach(f, windowId, domainId, write).0;
    var k, n := AttachShape(f, windowId, domainId, write);
    if f' != f {
      forall i | 0 <= i < |f'.domains| ensures f'.domains[i].attached == Naming(f'.windows, |f'.windows|, f'.domains[i].id) {
        NamingUpdate(f.windows, k, f.windows[k].(mapCount := n), |f.windows|, f.domains[i].id);
        MapCountAside(f.windows[k], n, f.domains[i].id);
      }
    }
  }

  /** A domain is opened while some active window already names its number. */
  ghost predicate OpensNamed(f: Fabric) {
    |f.domains| < MAX_DOMAINS && Naming(f.windows, |f.windows|, f.nextDomainId) > 0
  }

  /** Opening a domain keeps the counts right exactly when no active window already names the number it gets. */
  lemma OpenKeepsExactIff(f: Fabric, budgetKib: U32)
    requires Exact(f)
    ensures Exact(Open(f, budgetKib).0) <==> !OpensNamed(f)
  {
    hide Naming;
    var f' := Open(f, budgetKib).0;
    if |f.domains| < MAX_DOMAINS {
      var n := |f.domains|;
      assert f'.domains[n].attached == 0 && f'.domains[n].id == f.nextDomainId;
      assert forall i :: 0 <= i < n ==> f'.domains[i] == f.domains[i];
    }
  }

  /** One call keeps the counts right, except exactly the opening of a domain that is already named. */
  lemma StepKeepsExactIff(w: World, pools: seq<seq<Block>>, op: Op)
    requires WorldInv(w, pools) && T.Shaped(w.f.mem) && Exact(w.f)
    ensures Exact(Step(w, op).f) <==> !(op.OpenOp? && OpensNamed(w.f))
  {
    hide T.Shaped, T.Alloc, T.Free, T.Unref, Share, Attach, Release, Open, Naming, OpensNamed;
    assert |w.f.windows| <= MAX_WINDOWS;
    match op
    case ShareOp(owner, tensorId, readers, writers) => ShareKeepsExact(w.f, owner, tensorId, readers, writers);
    case AttachOp(windowId, domainId, write) => AttachKeepsExact(w.f, windowId, domainId, write);
    case ReleaseOp(windowId) => ReleaseKeepsExact(w.f, windowId);
    case OpenOp(budgetKib) => OpenKeepsExactIff(w.f, budgetKib);
    case _ =>
  }

  /** No call of the run opens a domain that an active window already names. */
  ghost predicate NeverNamed(w: World, pools: seq<seq<Block>>, ops: seq<Op>)
    requires WorldInv(w, pools) && Legal(w, pools, ops)
    decreases |ops|
  {
    ops == [] ||
    (!(ops[0].OpenOp? && OpensNamed(w.f)) && (StepKeeps(w, pools, ops[0]); NeverNamed(Step(w, ops[0]), pools, ops[1..])))
  }

  /** Over every such run each domain carries exactly the number of active windows that name it. */
  lemma {:induction false} RunExact(w: World, pools: seq<seq<Block>>, ops: seq<Op>)
    requires WorldInv(w, pools) && Legal(w, pools, ops) && NeverNamed(w, pools, ops) && Exact(w.f)
    ensures Exact(Run(w, pools, ops).f)
    decreases |ops|
  {
    hide WorldInv, Exact, OpensNamed, Allowed;
    if ops != [] {
      StepKeeps(w, pools, ops[0]);
      ShapedWorld(w, pools);
      StepKeepsExactIff(w, pools, ops[0]);
      RunExact(Step(w, ops[0]), pools, ops[1..]);
    }
  }

  lemma ShapedWorld(w: World, pools: seq<seq<Block>>)
    requires WorldInv(w, pools)
    ensures T.Shaped(w.f.mem)
  {
  }

  /** A window that names a domain before it exists: the count of that domain is wrong from the moment it is opened. */
  lemma EarlyNameMiscounts(f: Fabric, budgetKib: U32, j: nat)
    requires Exact(f) && |f.domains| < MAX_DOMAINS && j < |f.windows| && Concerns(f.windows[j], f.nextDomainId)
    ensures !Exact(Open(f, budgetKib).0)
  {
    hide Naming;
    NamingAt(f.windows, j, |f.windows|, f.nextDomainId);
    OpenKeepsExactIff(f, budgetKib);
  }
}
