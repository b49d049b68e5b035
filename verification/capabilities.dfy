/** What the policy gate decides, in single capability bits instead of mask arithmetic. */
module Capabilities {
  import opened Types
  import opened PipelineSpec

  // ---------- masks as sets of bits ----------

  predicate Odd(m: bv64) { m & 1 != 0 }
  function Half(m: bv64): bv64 { m >> 1 }
  function Common(x: bv64, y: bv64): bv64 { x & y }
  function Missing(x: bv64, y: bv64): bv64 { x & !y }

  /** Bit `k` of the mask. */
  predicate Has(m: bv64, k: nat) { if k == 0 then Odd(m) else Has(Half(m), k - 1) }

  lemma MissingHalf(x: bv64, y: bv64)
    ensures Half(Missing(x, y)) == Missing(Half(x), Half(y))
  {
  }

  lemma MissingOdd(x: bv64, y: bv64)
    ensures Odd(Missing(x, y)) <==> Odd(x) && !Odd(y)
  {
  }

  lemma {:induction false} MissingBit(x: bv64, y: bv64, k: nat)
    ensures Has(Missing(x, y), k) <==> Has(x, k) && !Has(y, k)
    decreases k
  {
    hide Half, Odd, Missing;
    if k == 0 {
      MissingOdd(x, y);
    } else {
      MissingHalf(x, y);
      MissingBit(Half(x), Half(y), k - 1);
    }
  }

  /** Four bits further. */
  function Nibble(m: bv64): bv64 { m >> 4 }

  lemma FourHalves(m: bv64)
    ensures Half(Half(Half(Half(m)))) == Nibble(m)
  {
  }

  lemma FourMore(m: bv64, k: nat)
    requires k >= 4
    ensures Has(m, k) <==> Has(Nibble(m), k - 4)
  {
    hide Half, Odd, Nibble;
    FourHalves(m);
    assert Has(m, k) <==> Has(Half(m), k - 1);
    assert Has(Half(m), k - 1) <==> Has(Half(Half(m)), k - 2);
    assert Has(Half(Half(m)), k - 2) <==> Has(Half(Half(Half(m))), k - 3);
  }

  /** No bits from `n` nibbles on. */
  predicate Fits(m: bv64, n: nat) { if n == 0 then m == 0 else Fits(Nibble(m), n - 1) }

  lemma FirstBits(m: bv64)
    ensures (Has(m, 0) <==> Odd(m)) && (Has(m, 1) <==> Odd(Half(m))) && (Has(m, 2) <==> Odd(Half(Half(m))))
    ensures Has(m, 3) <==> Odd(Half(Half(Half(m))))
  {
    hide Half, Odd;
    assert Has(m, 2) <==> Has(Half(m), 1);
    assert Has(m, 3) <==> Has(Half(m), 2);
    assert Has(Half(m), 2) <==> Has(Half(Half(m)), 1);
    assert Has(Half(m), 1) <==> Has(Half(Half(m)), 0);
    assert Has(Half(Half(m)), 1) <==> Has(Half(Half(Half(m))), 0);
  }

  lemma LowNibble(m: bv64)
    requires m != 0 && Nibble(m) == 0
    ensures Odd(m) || Odd(Half(m)) || Odd(Half(Half(m))) || Odd(Half(Half(Half(m))))
  {
  }

  /** A mask that is not zero has some bit. */
  lemma {:induction false} SomeBit(m: bv64, n: nat) returns (k: nat)
    requires m != 0 && Fits(m, n)
    ensures Has(m, k)
    decreases n
  {
    hide Half, Odd, Nibble;
    if Nibble(m) == 0 {
      LowNibble(m);
      FirstBits(m);
      k := if Odd(m) then 0 else if Odd(Half(m)) then 1 else if Odd(Half(Half(m))) then 2 else 3;
    } else {
      k := SomeBit(Nibble(m), n - 1);
      k := k + 4;
      FourMore(m, k);
    }
  }

  function Word(m: bv64): bv64 { m >> 16 }

  lemma FourNibbles(m: bv64)
    ensures Nibble(Nibble(Nibble(Nibble(m)))) == Word(m)
  {
  }

  lemma FourWords(m: bv64)
    ensures Word(Word(Word(Word(m)))) == 0
  {
  }

  lemma FitsMore(m: bv64, n: nat)
    requires Fits(Word(m), n)
    ensures Fits(m, n + 4)
  {
    hide Nibble, Word;
    FourNibbles(m);
    assert Fits(Nibble(Nibble(Nibble(m))), n + 1);
    assert Fits(Nibble(Nibble(m)), n + 2);
    assert Fits(Nibble(m), n + 3);
  }

  lemma AllFit(m: bv64)
    ensures Fits(m, 16)
  {
    hide Word, Nibble;
    FourWords(m);
    FitsMore(Word(Word(Word(m))), 0);
    FitsMore(Word(Word(m)), 4);
    FitsMore(Word(m), 8);
    FitsMore(m, 12);
  }

  lemma NoHalf()
    ensures Half(0) == 0 && !Odd(0)
  {
  }

  lemma {:induction false} NoBit(k: nat)
    ensures !Has(0, k)
  {
    hide Half, Odd;
    NoHalf();
    if k > 0 {
      NoBit(k - 1);
    }
  }

  /** Every bit of `x` is a bit of `y`. */
  ghost predicate Within(x: bv64, y: bv64) { forall k: nat :: Has(x, k) ==> Has(y, k) }

  lemma WithinIff(x: bv64, y: bv64)
    ensures Within(x, y) <==> Missing(x, y) == 0
  {
    hide Has, Missing;
    forall k: nat ensures Has(Missing(x, y), k) <==> Has(x, k) && !Has(y, k) {
      MissingBit(x, y, k);
    }
    if Missing(x, y) == 0 {
      forall k: nat ensures !Has(0, k) {
        NoBit(k);
      }
    } else {
      AllFit(Missing(x, y));
      var k := SomeBit(Missing(x, y), 16);
    }
  }

  lemma CoversMissing(allowed: bv64, requested: bv64)
    ensures Covers(allowed, requested) <==> Missing(requested, allowed) == 0
  {
    hide Common, Missing;
    assert Covers(allowed, requested) <==> Common(requested, allowed) == requested by {
      CoversCommon(allowed, requested);
    }
    CommonApart(requested, allowed);
    Parts(requested, allowed);
    OrZero(Common(requested, allowed));
  }

  lemma CoversCommon(allowed: bv64, requested: bv64)
    ensures Covers(allowed, requested) <==> Common(requested, allowed) == requested
  {
  }

  function Either(x: bv64, y: bv64): bv64 { x | y }

  lemma Parts(x: bv64, y: bv64)
    ensures Either(Common(x, y), Missing(x, y)) == x
  {
  }

  lemma CommonApart(x: bv64, y: bv64)
    ensures Missing(Common(x, y), y) == 0
  {
  }

  lemma OrZero(x: bv64)
    ensures Either(x, 0) == x
  {
  }

  lemma ValidMissing(caps: bv64)
    ensures CapsValid(caps) <==> Missing(caps, 0xFFF) == 0
  {
  }

  lemma LowBits(m: bv64)
    ensures Has(m, 4) <==> m & 0x10 != 0
    ensures Has(m, 5) <==> m & 0x20 != 0
    ensures Has(m, 8) <==> m & 0x100 != 0
    ensures Has(m, 9) <==> m & 0x200 != 0
    ensures Has(m, 11) <==> m & 0x800 != 0
  {
    hide Half, Odd, Nibble;
    var h := Nibble(m);
    FourMore(m, 4);
    FourMore(m, 5);
    FourMore(m, 8);
    FourMore(m, 9);
    FourMore(m, 11);
    FourMore(h, 4);
    FourMore(h, 5);
    FourMore(h, 7);
    Places(m);
    FirstBits(h);
    FirstBits(Nibble(h));
  }

  lemma Places(m: bv64)
    ensures Odd(Nibble(m)) <==> m & 0x10 != 0
    ensures Odd(Half(Nibble(m))) <==> m & 0x20 != 0
    ensures Odd(Nibble(Nibble(m))) <==> m & 0x100 != 0
    ensures Odd(Half(Nibble(Nibble(m)))) <==> m & 0x200 != 0
    ensures Odd(Half(Half(Half(Nibble(Nibble(m)))))) <==> m & 0x800 != 0
  {
  }

  /** The twelve capabilities are bits 0 to 11. */
  lemma TwelveBits(k: nat)
    ensures Has(0xFFF, k) <==> k < 12
  {
    hide Has;
    if k < 12 {
      Ones(k);
    } else {
      ThreeNibbles();
      FourMore(0xFFF, k);
      FourMore(Nibble(0xFFF), k - 4);
      FourMore(Nibble(Nibble(0xFFF)), k - 8);
      NoBit(k - 12);
    }
  }

  lemma ThreeNibbles()
    ensures Nibble(Nibble(Nibble(0xFFF))) == 0
  {
  }

  lemma Ones(k: nat)
    requires k < 12
    ensures Has(0xFFF, k)
  {
    assert Has(0xFFF, 0) && Has(0xFFF, 1) && Has(0xFFF, 2) && Has(0xFFF, 3) && Has(0xFFF, 4) && Has(0xFFF, 5);
    assert Has(0xFFF, 6) && Has(0xFFF, 7) && Has(0xFFF, 8) && Has(0xFFF, 9) && Has(0xFFF, 10) && Has(0xFFF, 11);
  }

  // ---------- the gate ----------

  /** A mask can be registered exactly when all its bits are capabilities. */
  lemma ValidIff(caps: bv64)
    ensures CapsValid(caps) <==> Known(caps)
  {
    hide Has, Missing, CapsValid;
    ValidMissing(caps);
    WithinIff(caps, 0xFFF);
    forall k: nat ensures Has(0xFFF, k) <==> k < 12 {
      TwelveBits(k);
    }
  }

  /** All bits of the mask are capabilities. */
  ghost predicate Known(caps: bv64) { forall k: nat :: Has(caps, k) ==> k < 12 }

  /** Applying plans, autonomy control, risky I/O and driver resets. */
  predicate AsksRisky(requested: bv64) { Has(requested, 4) || Has(requested, 5) || Has(requested, 8) || Has(requested, 9) }

  lemma RiskyBits(m: bv64)
    ensures m & 0x330 != 0 <==> m & 0x10 != 0 || m & 0x20 != 0 || m & 0x100 != 0 || m & 0x200 != 0
  {
  }

  lemma RiskyIff(requested: bv64)
    ensures Risky(requested) <==> AsksRisky(requested)
  {
    hide Has;
    RiskyBits(requested);
    LowBits(requested);
  }

  /**
   nodebit_evaluate: a request is permitted exactly when every bit of it is a bit of the node's mask, and it is not a
   risky request of a health-gated node in an unhealthy kernel; the second cause alone is reported as such.
   */
  lemma EvaluateIff(e: Entry, requested: bv64, healthy: bool)
    ensures var v := Decide(e, requested, healthy); var held := e.healthGate && AsksRisky(requested) && !healthy;
            && (v.permit <==> Within(requested, e.caps) && !held)
            && (v.byHealth <==> Within(requested, e.caps) && held)
  {
    hide Has, Missing, Covers, Risky, Within;
    CoversMissing(e.caps, requested);
    WithinIff(requested, e.caps);
    RiskyIff(requested);
  }

  lemma PipelineMask(m: bv64)
    ensures Covers(m, 0x800) <==> m & 0x800 != 0
    ensures !Risky(0x800)
  {
  }

  /** Pipelines need bit 11 of the mask, whatever the health of the kernel. */
  lemma PipelineIff(e: Entry, healthy: bool)
    ensures Decide(e, CAP_PIPELINE, healthy).permit <==> Has(e.caps, 11)
  {
    hide Has, Covers, Risky;
    LowBits(e.caps);
    PipelineMask(e.caps);
  }
}
