/**
 Memory pressure: bit counting, saturating sums over the shared windows, and ratios in units of
 1/1024 computed by binary long division. Each loop is proved equal to the exact quantity it
 stands for, with no intermediate beyond 64 bits.
 */
module Pressure {
  import opened Types
  import opened FabricSpec
  import opened MemoryFabric
  import Alignment

  const SCORE_SCALE: nat := 1024
  const PLANES: nat := 3

  // ---------- sets of bits ----------

  predicate Odd(v: bv32) { v & 1 != 0 }
  function Half(v: bv32): bv32 { v >> 1 }
  function Union(v: bv32, w: bv32): bv32 { v | w }
  function Without(v: bv32, w: bv32): bv32 { v & !w }
  function DropLowest(v: bv32): bv32 { v & (v - 1) }

  predicate HasBit(v: bv32, i: nat) {
    if i == 0 then Odd(v) else HasBit(Half(v), i - 1)
  }

  /** The positions below `n` whose bit is set. */
  function Below(v: bv32, n: nat): set<nat> {
    set i: nat | i < n && HasBit(v, i)
  }

  function Members(v: bv32): set<nat> { Below(v, 32) }

  function Count(v: bv32, n: nat): nat {
    if n == 0 then 0 else Count(v, n - 1) + (if HasBit(v, n - 1) then 1 else 0)
  }

  lemma {:induction false} CountIsSize(v: bv32, n: nat)
    ensures |Below(v, n)| == Count(v, n) <= n
  {
    if n == 0 {
      assert Below(v, 0) == {};
    } else {
      CountIsSize(v, n - 1);
      if HasBit(v, n - 1) {
        assert Below(v, n) == Below(v, n - 1) + {n - 1};
      } else {
        assert Below(v, n) == Below(v, n - 1);
      }
    }
  }

  lemma {:induction false} CountHalf(v: bv32, n: nat)
    requires n > 0
    ensures Count(v, n) == Count(Half(v), n - 1) + (if Odd(v) then 1 else 0)
  {
    hide Half, Odd;
    if n > 1 {
      CountHalf(v, n - 1);
    }
  }

  // One step of Kernighan's loop, on the lowest bit and on the rest.

  lemma DropClears(v: bv32)
    ensures !Odd(DropLowest(v))
  {
  }

  lemma DropOdd(v: bv32)
    requires Odd(v)
    ensures Half(DropLowest(v)) == Half(v)
  {
  }

  lemma DropEven(v: bv32)
    requires !Odd(v) && v != 0
    ensures Half(DropLowest(v)) == DropLowest(Half(v)) && Half(v) != 0
  {
  }

  predicate Fits(v: bv32, n: nat) {
    if n == 0 then v == 0 else Fits(Half(v), n - 1)
  }

  lemma {:induction false} DropLowestCount(v: bv32, n: nat)
    requires v != 0 && Fits(v, n)
    ensures Count(v, n) == Count(DropLowest(v), n) + 1
    decreases n
  {
    hide Half, Odd, DropLowest, HasBit;
    CountHalf(v, n);
    CountHalf(DropLowest(v), n);
    DropClears(v);
    if Odd(v) {
      DropOdd(v);
    } else {
      DropEven(v);
      DropLowestCount(Half(v), n - 1);
    }
  }

  lemma EightHalves(v: bv32)
    ensures v >> 1 >> 1 >> 1 >> 1 >> 1 >> 1 >> 1 >> 1 == v >> 8
  {
  }

  lemma FitsByte(v: bv32, n: nat)
    requires Fits(v >> 8, n)
    ensures Fits(v, n + 8)
  {
    EightHalves(v);
    assert Fits(v >> 1 >> 1 >> 1 >> 1 >> 1 >> 1 >> 1, n + 1);
    assert Fits(v >> 1 >> 1 >> 1 >> 1 >> 1 >> 1, n + 2);
    assert Fits(v >> 1 >> 1 >> 1 >> 1 >> 1, n + 3);
    assert Fits(v >> 1 >> 1 >> 1 >> 1, n + 4);
    assert Fits(v >> 1 >> 1 >> 1, n + 5);
    assert Fits(v >> 1 >> 1, n + 6);
    assert Fits(v >> 1, n + 7);
  }

  lemma FourBytes(v: bv32)
    ensures v >> 8 >> 8 >> 8 >> 8 == 0
  {
  }

  lemma AllFit(v: bv32)
    ensures Fits(v, 32)
  {
    hide Half;
    FourBytes(v);
    FitsByte(v >> 8 >> 8 >> 8, 0);
    FitsByte(v >> 8 >> 8, 8);
    FitsByte(v >> 8, 16);
    FitsByte(v, 24);
  }

  lemma NothingHalved()
    ensures Half(0) == 0 && !Odd(0)
  {
  }

  lemma {:induction false} CountNothing(n: nat)
    ensures Count(0, n) == 0
  {
    hide Half, Odd;
    NothingHalved();
    if n > 0 {
      CountHalf(0, n);
      CountNothing(n - 1);
    }
  }

  lemma UnionHalf(v: bv32, w: bv32)
    ensures Half(Union(v, w)) == Union(Half(v), Half(w))
  {
  }

  lemma UnionOdd(v: bv32, w: bv32)
    ensures Odd(Union(v, w)) <==> Odd(v) || Odd(w)
  {
  }

  lemma {:induction false} UnionBit(v: bv32, w: bv32, i: nat)
    ensures HasBit(Union(v, w), i) <==> HasBit(v, i) || HasBit(w, i)
    decreases i
  {
    hide Half, Odd, Union;
    if i == 0 {
      UnionOdd(v, w);
    } else {
      UnionHalf(v, w);
      UnionBit(Half(v), Half(w), i - 1);
    }
  }

  lemma WithoutHalf(v: bv32, w: bv32)
    ensures Half(Without(v, w)) == Without(Half(v), Half(w))
  {
  }

  lemma WithoutOdd(v: bv32, w: bv32)
    ensures Odd(Without(v, w)) <==> Odd(v) && !Odd(w)
  {
  }

  lemma {:induction false} WithoutBit(v: bv32, w: bv32, i: nat)
    ensures HasBit(Without(v, w), i) <==> HasBit(v, i) && !HasBit(w, i)
    decreases i
  {
    hide Half, Odd, Without;
    if i == 0 {
      WithoutOdd(v, w);
    } else {
      WithoutHalf(v, w);
      WithoutBit(Half(v), Half(w), i - 1);
    }
  }

  /** The masks the code builds are the sets they stand for. */
  lemma MaskSets(v: bv32, w: bv32)
    ensures Members(Union(v, w)) == Members(v) + Members(w)
    ensures Members(Without(v, w)) == Members(v) - Members(w)
    ensures |Members(v)| <= 32
  {
    hide Union, Without, HasBit;
    forall i: nat ensures HasBit(Union(v, w), i) <==> HasBit(v, i) || HasBit(w, i) {
      UnionBit(v, w, i);
    }
    forall i: nat ensures HasBit(Without(v, w), i) <==> HasBit(v, i) && !HasBit(w, i) {
      WithoutBit(v, w, i);
    }
    CountIsSize(v, 32);
  }

  /** popcount32 */
  method PopCount(v: bv32) returns (count: nat)
    ensures count == |Members(v)| && count <= 32
  {
    hide HasBit, DropLowest, Odd, Half, Fits;
    var value := v;
    count := 0;
    CountIsSize(v, 32);
    while value != 0
      invariant count + Count(value, 32) == |Members(v)|
      decreases Count(value, 32)
    {
      AllFit(value);
      DropLowestCount(value, 32);
      value := DropLowest(value);
      count := count + 1;
    }
    CountNothing(32);
  }

  // ---------- saturating arithmetic ----------

  function Min(x: nat, y: nat): nat { if x < y then x else y }
  function Max(x: nat, y: nat): nat { if x < y then y else x }

  /** sat_add_u64 */
  function SatAdd(left: U64, right: U64): (r: U64)
    ensures r == Min(U64_MAX, left + right)
  {
    if left > U64_MAX - right then U64_MAX else left + right
  }

  /** sat_mul_u64_u32 */
  function SatMul(value: U64, factor: U32): (r: U64)
    ensures r == Min(U64_MAX, value * factor)
  {
    SatMulCases(value, factor);
    if factor != 0 && value > U64_MAX / factor then U64_MAX else value * factor
  }

  lemma SatMulCases(value: U64, factor: U32)
    ensures factor != 0 && value > U64_MAX / factor ==> value * factor > U64_MAX
    ensures factor == 0 || value <= U64_MAX / factor ==> value * factor <= U64_MAX
  {
    if factor != 0 {
      var q := U64_MAX / factor;
      assert q * factor <= U64_MAX < (q + 1) * factor;
      if value > q {
        assert value * factor >= (q + 1) * factor;
      } else {
        assert value * factor <= q * factor;
      }
    }
  }

  // ---------- what the windows add up to ----------

  function Participants(w: Window): set<nat> { Members(w.readers) + Members(w.writers) }

  function Fan(w: Window): nat { if w.active then |Participants(w)| else 0 }

  function Writers(w: Window): nat { if w.active then |Members(w.writers)| else 0 }

  function ReadersOnly(w: Window): nat { |Members(w.readers) - Members(w.writers)| }

  function SharedSize(w: Window): nat { if Fan(w) > 1 then w.size else 0 }

  /** How many pairs `n` things form: each one pairs with those before it. */
  function Pairs(n: nat): nat { if n == 0 then 0 else Pairs(n - 1) + (n - 1) }

  lemma {:induction false} PairsFormula(n: nat)
    ensures 2 * Pairs(n) == n * (n - 1)
    ensures n <= 32 ==> Pairs(n) <= 31 * n
  {
    if n > 0 {
      PairsFormula(n - 1);
      assert n * (n - 1) == (n - 1) * (n - 2) + 2 * (n - 1);
    }
  }

  function Times(a: nat, b: nat): nat { a * b }

  /** The terms of the pressure snapshot that one window contributes. */
  datatype Term = Term(
    windows: nat, shared: nat, links: nat, writers: nat, writerPairs: nat, readWritePairs: nat,
    bytes: nat, weighted: nat)

  function TermOf(w: Window): Term {
    Term(if w.active then 1 else 0, if Fan(w) > 1 then 1 else 0, Fan(w), Writers(w),
         Pairs(Writers(w)), Times(Writers(w), ReadersOnly(w)), SharedSize(w), Times(SharedSize(w), Fan(w)))
  }

  function Plus(x: Term, y: Term): Term {
    Term(x.windows + y.windows, x.shared + y.shared, x.links + y.links, x.writers + y.writers,
         x.writerPairs + y.writerPairs, x.readWritePairs + y.readWritePairs, x.bytes + y.bytes, x.weighted + y.weighted)
  }

  /** The exact sums over the first `n` windows. */
  function Sums(ws: seq<Window>, n: nat): Term
    requires n <= |ws|
  {
    if n == 0 then Term(0, 0, 0, 0, 0, 0, 0, 0) else Plus(Sums(ws, n - 1), TermOf(ws[n - 1]))
  }

  function MaxFan(ws: seq<Window>, n: nat): nat
    requires n <= |ws|
  {
    if n == 0 then 0 else Max(MaxFan(ws, n - 1), Fan(ws[n - 1]))
  }

  function Budget(ds: seq<Domain>, n: nat): nat
    requires n <= |ds|
  {
    if n == 0 then 0 else Budget(ds, n - 1) + (if ds[n - 1].active then ds[n - 1].budgetKib * KIB else 0)
  }

  function ActiveDomains(ds: seq<Domain>, n: nat): nat
    requires n <= |ds|
  {
    if n == 0 then 0 else ActiveDomains(ds, n - 1) + (if ds[n - 1].active then 1 else 0)
  }

  /** memory_fabric_pressure_snapshot_t */
  datatype Snapshot = Snapshot(
    activeDomains: U32, totalBudget: U64, activeWindows: U32, sharedWindows: U32, participantLinks: U32,
    writerLinks: U32, writerPairs: U32, readWritePairs: U32, maxFanout: U32, sharedBytes: U64, weightedBytes: U64)

  /** The snapshot holds the exact sums; only the byte totals saturate. */
  ghost predicate Holds(out: Snapshot, sums: Term, fan: nat) {
    && out.activeWindows == sums.windows && out.sharedWindows == sums.shared
    && out.participantLinks == sums.links && out.writerLinks == sums.writers
    && out.writerPairs == sums.writerPairs && out.readWritePairs == sums.readWritePairs
    && out.maxFanout == fan
    && out.sharedBytes == Min(U64_MAX, sums.bytes) && out.weightedBytes == Min(U64_MAX, sums.weighted)
  }

  /** Small enough that no 32-bit counter wraps. */
  ghost predicate Bounded(sums: Term, n: nat) {
    && sums.windows <= n && sums.shared <= n && sums.links <= 32 * n && sums.writers <= 32 * n
    && sums.writerPairs <= 992 * n && sums.readWritePairs <= 1024 * n
  }

  lemma SmallProduct(a: nat, b: nat)
    requires a <= 32 && b <= 32
    ensures a * b <= 1024
  {
    assert a * b + (32 - a) * b == 32 * b;
  }

  lemma SizesBounded(w: Window)
    ensures Fan(w) <= 32 && Writers(w) <= 32 && ReadersOnly(w) <= 32
    ensures w.active ==> Fan(w) == |Members(Union(w.readers, w.writers))|
    ensures ReadersOnly(w) == |Members(Without(w.readers, w.writers))|
  {
    hide Members, Union, Without;
    MaskSets(w.readers, w.writers);
    MaskSets(w.writers, w.readers);
    MaskSets(Union(w.readers, w.writers), 0);
    MaskSets(Without(w.readers, w.writers), 0);
  }

  lemma TermBounded(w: Window)
    ensures Bounded(TermOf(w), 1)
  {
    hide Fan, Writers, ReadersOnly;
    SizesBounded(w);
    SmallProduct(Writers(w), ReadersOnly(w));
    PairsFormula(Writers(w));
  }

  lemma {:induction false} SumsBounded(ws: seq<Window>, n: nat)
    requires n <= |ws|
    ensures Bounded(Sums(ws, n), n) && MaxFan(ws, n) <= 32
  {
    hide TermOf, Fan;
    if n > 0 {
      SumsBounded(ws, n - 1);
      TermBounded(ws[n - 1]);
      SizesBounded(ws[n - 1]);
    }
  }

  /** Adding an exact term to a saturated total saturates the exact sum. */
  lemma SaturatedSum(total: nat, term: nat)
    ensures Min(U64_MAX, Min(U64_MAX, total) + Min(U64_MAX, term)) == Min(U64_MAX, total + term)
  {
  }

  // ---------- reading the fabric ----------

  /** accumulate_pressure_window */
  method Accumulate(out: Snapshot, w: Window, ghost sums: Term, ghost fan: nat) returns (out': Snapshot)
    requires Holds(out, sums, fan) && w.size < U64_LIMIT
    requires Bounded(Plus(sums, TermOf(w)), MAX_WINDOWS) && fan <= 32
    ensures Holds(out', Plus(sums, TermOf(w)), Max(fan, Fan(w)))
    ensures out'.activeDomains == out.activeDomains && out'.totalBudget == out.totalBudget
  {
    hide Members, Union, Without;
    if !w.active {
      return out;
    }
    SizesBounded(w);
    var participants := PopCount(Union(w.readers, w.writers));
    var writers := PopCount(w.writers);
    var readersOnly := PopCount(Without(w.readers, w.writers));
    out' := AddLinks(out, participants, writers, readersOnly);
    if participants > 1 {
      out' := out'.(
        sharedWindows := out'.sharedWindows + 1,
        sharedBytes := SatAdd(out'.sharedBytes, w.size),
        weightedBytes := SatAdd(out'.weightedBytes, SatMul(w.size, participants)));
    }
    SaturatedSum(sums.bytes, SharedSize(w));
    SaturatedSum(sums.weighted, SharedSize(w) * Fan(w));
  }

  /** The counters that do not depend on the size of the window. */
  method AddLinks(out: Snapshot, participants: nat, writers: nat, readersOnly: nat) returns (r: Snapshot)
    requires out.activeWindows + 1 < U32_LIMIT && out.participantLinks + participants < U32_LIMIT
    requires out.writerLinks + writers < U32_LIMIT && out.writerPairs + Pairs(writers) < U32_LIMIT
    requires out.readWritePairs + writers * readersOnly < U32_LIMIT && participants <= 32
    ensures r == out.(activeWindows := out.activeWindows + 1,
                      participantLinks := out.participantLinks + participants,
                      writerLinks := out.writerLinks + writers,
                      writerPairs := out.writerPairs + Pairs(writers),
                      readWritePairs := out.readWritePairs + writers * readersOnly,
                      maxFanout := Max(out.maxFanout, participants))
  {
    r := out.(activeWindows := out.activeWindows + 1,
              participantLinks := out.participantLinks + participants,
              writerLinks := out.writerLinks + writers);
    if participants > r.maxFanout {
      r := r.(maxFanout := participants);
    }
    PairsFormula(writers);
    if writers > 1 {
      r := r.(writerPairs := r.writerPairs + writers * (writers - 1) / 2);
    }
    r := r.(readWritePairs := r.readWritePairs + writers * readersOnly);
  }

  /** memory_fabric_pressure_read: the domains first, then the windows. */
  method ReadPressure(f: FabricTables) returns (out: Snapshot)
    requires f.Tables() && forall i :: 0 <= i < f.windowCount ==> f.windows[i].size < U64_LIMIT
    ensures var ws, ds := f.windows[..f.windowCount], f.domains[..f.domainCount];
            && Holds(out, Sums(ws, |ws|), MaxFan(ws, |ws|))
            && out.totalBudget == Min(U64_MAX, Budget(ds, |ds|)) && out.activeDomains == ActiveDomains(ds, |ds|)
  {
    hide TermOf, Fan, Plus;
    ghost var ws, ds := f.windows[..f.windowCount], f.domains[..f.domainCount];
    out := Snapshot(0, 0, 0, 0, 0, 0, 0, 0, 0, 0, 0);
    var i := 0;
    while i < f.domainCount
      invariant 0 <= i <= f.domainCount && out.activeDomains <= i
      invariant out.totalBudget == Min(U64_MAX, Budget(ds, i)) && out.activeDomains == ActiveDomains(ds, i)
      invariant Holds(out, Sums(ws, 0), 0)
    {
      if f.domains[i].active {
        SaturatedSum(Budget(ds, i), f.domains[i].budgetKib * KIB);
        out := out.(activeDomains := out.activeDomains + 1,
                    totalBudget := SatAdd(out.totalBudget, f.domains[i].budgetKib * KIB));
      }
      i := i + 1;
    }
    i := 0;
    while i < f.windowCount
      invariant 0 <= i <= f.windowCount
      invariant Holds(out, Sums(ws, i), MaxFan(ws, i))
      invariant out.totalBudget == Min(U64_MAX, Budget(ds, |ds|)) && out.activeDomains == ActiveDomains(ds, |ds|)
    {
      SumsBounded(ws, i);
      SumsBounded(ws, i + 1);
      out := Accumulate(out, f.windows[i], Sums(ws, i), MaxFan(ws, i));
      i := i + 1;
    }
  }

  // ---------- ratios ----------

  /** The exact ratio in units of 1/1024, cut off at one. */
  function Ratio(n: nat, d: nat): nat {
    if d == 0 then 0 else Min(SCORE_SCALE, n * SCORE_SCALE / d)
  }

  lemma QuotientAtLeast(n: nat, d: nat, k: nat)
    requires d > 0 && k * d <= n
    ensures n / d >= k
  {
    var rest := n - k * d;
    var q, r := rest / d, rest % d;
    assert (k + q) * d == k * d + q * d;
    Alignment.DivModUnique(n, d, k + q, r);
  }

  lemma LongDivisionStep(n: nat, d: nat, p: nat, q: nat, r: nat)
    requires q * d + r == n * p
    ensures (2 * q) * d + 2 * r == n * (2 * p) && (2 * q + 1) * d + (2 * r - d) == n * (2 * p)
  {
    assert (2 * q) * d == 2 * (q * d) && (2 * q + 1) * d == 2 * (q * d) + d && n * (2 * p) == 2 * (n * p);
  }

  /** ratio_q10: ten steps of binary long division on 64-bit words. */
  method RatioQ10(numerator: U64, denominator: U64) returns (result: U32)
    ensures result == Ratio(numerator, denominator) <= SCORE_SCALE
  {
    if denominator == 0 || numerator == 0 {
      RatioOfNothing(denominator);
      return 0;
    }
    if numerator >= denominator {
      RatioAboveOne(numerator, denominator);
      return SCORE_SCALE;
    }
    var remainder: U64 := numerator;
    result := 0;
    ghost var p := 1;
    for bit := 0 to 10
      invariant result * denominator + remainder == numerator * p && remainder < denominator
      invariant p == Power(bit) && result < p
    {
      LongDivisionStep(numerator, denominator, p, result, remainder);
      PowerBound(bit);
      result := 2 * result;
      if remainder >= denominator - remainder {
        remainder := remainder - (denominator - remainder);
        result := result + 1;
      } else {
        remainder := remainder + remainder;
      }
      p := 2 * p;
    }
    Alignment.DivModUnique(numerator * SCORE_SCALE, denominator, result, remainder);
  }

  function Power(k: nat): nat { if k == 0 then 1 else 2 * Power(k - 1) }

  lemma {:induction false} PowerBound(k: nat)
    requires k < 10
    ensures Power(k) <= 512
  {
    assert Power(9) == 512;
    PowerGrows(k, 9);
  }

  lemma {:induction false} PowerGrows(k: nat, n: nat)
    requires k <= n
    ensures Power(k) <= Power(n)
  {
    if k < n {
      PowerGrows(k, n - 1);
    }
  }

  lemma RatioOfNothing(d: nat)
    ensures Ratio(0, d) == 0
  {
    if d > 0 {
      Alignment.DivModUnique(0, d, 0, 0);
    }
  }

  lemma RatioAboveOne(n: nat, d: nat)
    requires 0 < d <= n
    ensures Ratio(n, d) == SCORE_SCALE
  {
    assert SCORE_SCALE * d <= n * SCORE_SCALE;
    QuotientAtLeast(n * SCORE_SCALE, d, SCORE_SCALE);
  }

  // ---------- the planes ----------

  datatype Summary = Summary(plane: Option<nat>, score: U32, concentration: U32)

  /** `plane` is the first plane with the largest of the first `n` scores, if any is positive. */
  ghost predicate Hottest(scores: seq<U32>, n: nat, plane: Option<nat>, score: nat)
    requires n <= |scores|
  {
    match plane
    case None => score == 0 && forall i :: 0 <= i < n ==> scores[i] == 0
    case Some(p) =>
      && p < n && scores[p] == score > 0
      && (forall i :: 0 <= i < n ==> scores[i] <= score)
      && (forall i :: 0 <= i < p ==> scores[i] < score)
  }

  /** summarize_vector */
  method Summarize(scores: seq<U32>) returns (out: Summary)
    requires |scores| == PLANES
    ensures Hottest(scores, PLANES, out.plane, out.score)
    ensures out.concentration == Ratio(out.score, Sum(scores, PLANES))
    ensures out.plane.Some? ==> 341 <= out.concentration <= SCORE_SCALE
  {
    hide Ratio;
    var total: U64, maxScore: U32, maxPlane: Option<nat> := 0, 0, None;
    var i: nat := 0;
    while i < PLANES
      invariant i <= PLANES && total == Sum(scores, i) <= i * maxScore
      invariant Hottest(scores, i, maxPlane, maxScore) && (maxPlane.Some? <==> total > 0)
    {
      total := total + scores[i];
      if scores[i] > maxScore {
        maxScore, maxPlane := scores[i], Some(i);
      }
      i := i + 1;
    }
    if total == 0 {
      RatioOfNothing(0);
      return Summary(None, 0, 0);
    }
    ThirdAtLeast(maxScore, total);
    var concentration := RatioQ10(maxScore, total);
    out := Summary(maxPlane, maxScore, concentration);
  }

  function Sum(s: seq<U32>, n: nat): nat
    requires n <= |s|
  {
    if n == 0 then 0 else Sum(s, n - 1) + s[n - 1]
  }

  /** The largest of three scores is at least a third of their sum. */
  lemma ThirdAtLeast(m: nat, total: nat)
    requires 0 < total <= 3 * m
    ensures Ratio(m, total) >= 341
  {
    QuotientAtLeast(m * SCORE_SCALE, total, 341);
  }

  /** The memory-plane score of ai_pressure_read. */
  method MemoryScore(f: FabricTables) returns (score: U32)
    requires f.Tables() && forall i :: 0 <= i < f.windowCount ==> f.windows[i].size < U64_LIMIT
    ensures var ws, ds := f.windows[..f.windowCount], f.domains[..f.domainCount];
            score == Max(Ratio(Min(U64_MAX, Sums(ws, |ws|).weighted), Min(U64_MAX, Budget(ds, |ds|))),
                         Ratio(Sums(ws, |ws|).windows, MAX_WINDOWS))
  {
    hide TermOf, Fan, Ratio;
    var memory := ReadPressure(f);
    var density := RatioQ10(memory.weightedBytes, memory.totalBudget);
    var occupied := RatioQ10(memory.activeWindows, MAX_WINDOWS);
    score := if density > occupied then density else occupied;
  }
}
