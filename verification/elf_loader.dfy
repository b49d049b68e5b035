/**
 The static ELF64 loader. The image is a byte sequence that is only read inside its bounds; the
 memory is an array indexed by address. The headers follow chapters 4 and 5 of the System V gABI.
 */
module ElfLoader {
  import opened Types
  import opened LittleEndian

  const EHDR_SIZE: nat := 64
  const PHDR_SIZE: nat := 56
  const ET_EXEC: nat := 2
  const EM_X86_64: nat := 62
  const PT_LOAD: nat := 1

  // ---------- headers ----------

  /** elf_ident_valid: ELF magic, 64-bit, little-endian, current version. */
  predicate IdentOk(image: Bytes)
    requires |image| >= EHDR_SIZE
  {
    image[0] == 0x7F && image[1] == 0x45 && image[2] == 0x4C && image[3] == 0x46
    && image[4] == 2 && image[5] == 1 && image[6] == 1
  }

  /** in_image, on 64-bit words. */
  predicate InImage(off: nat, len: nat, size: nat) { len <= size && off <= size - len }

  /** in_region, on 64-bit words. */
  predicate InRegion(vaddr: nat, len: nat, base: nat, size: nat) {
    vaddr >= base && len <= size && vaddr - base <= size - len
  }

  function Phnum(image: Bytes): nat
    requires |image| >= EHDR_SIZE
  {
    U16At(image, 56)
  }

  function Phoff(image: Bytes): nat
    requires |image| >= EHDR_SIZE
  {
    U64At(image, 32)
  }

  function Entry(image: Bytes): nat
    requires |image| >= EHDR_SIZE
  {
    U64At(image, 24)
  }

  predicate HeaderOk(image: Bytes) {
    && |image| >= EHDR_SIZE && IdentOk(image)
    && U16At(image, 16) == ET_EXEC && U16At(image, 18) == EM_X86_64
    && U16At(image, 54) == PHDR_SIZE && Phnum(image) != 0
    && InImage(Phoff(image), Phnum(image) * PHDR_SIZE, |image|)
  }

  datatype Segment = Segment(load: bool, offset: nat, vaddr: nat, filesz: nat, memsz: nat)

  function SegmentAt(image: Bytes, i: nat): Segment
    requires HeaderOk(image) && i < Phnum(image)
  {
    var off := Phoff(image) + i * PHDR_SIZE;
    Segment(U32At(image, off) == PT_LOAD, U64At(image, off + 8), U64At(image, off + 16),
            U64At(image, off + 32), U64At(image, off + 40))
  }

  /** The program header table. */
  function Segments(image: Bytes): (segs: seq<Segment>)
    requires HeaderOk(image)
    ensures |segs| == Phnum(image) && forall i :: 0 <= i < |segs| ==> segs[i] == SegmentAt(image, i)
  {
    seq(Phnum(image), i requires 0 <= i < Phnum(image) => SegmentAt(image, i))
  }

  // ---------- the meaning of a load ----------

  datatype Region = Region(base: nat, size: nat)

  /** What the loader thinks of one program header. */
  function Judge(s: Segment, imageSize: nat, r: Region): Status {
    if !s.load then Ok
    else if s.filesz > s.memsz then Inval
    else if !InImage(s.offset, s.filesz, imageSize) then Inval
    else if !InRegion(s.vaddr, s.memsz, r.base, r.size) then Perm
    else Ok
  }

  /** How many headers are processed: all of them, or those before the first bad one. */
  function Processed(segs: seq<Segment>, imageSize: nat, r: Region, n: nat): (k: nat)
    requires n <= |segs|
    ensures n <= k <= |segs|
    ensures forall i :: n <= i < k ==> Judge(segs[i], imageSize, r) == Ok
    ensures k < |segs| ==> Judge(segs[k], imageSize, r) != Ok
    decreases |segs| - n
  {
    if n == |segs| || Judge(segs[n], imageSize, r) != Ok then n else Processed(segs, imageSize, r, n + 1)
  }

  predicate Holds(s: Segment, a: nat) { s.load && s.vaddr <= a < s.vaddr + s.memsz }

  /** The byte at address `a` after the first `n` segments: the last one that covers it decides. */
  function Loaded(image: Bytes, segs: seq<Segment>, n: nat, a: nat, before: Byte): Byte
    requires n <= |segs|
    requires forall i :: 0 <= i < n && segs[i].load ==> segs[i].filesz <= segs[i].memsz && segs[i].offset + segs[i].filesz <= |image|
  {
    if n == 0 then before
    else
      var s := segs[n - 1];
      if !Holds(s, a) then Loaded(image, segs, n - 1, a, before)
      else if a < s.vaddr + s.filesz then image[s.offset + (a - s.vaddr)]
      else 0
  }

  function Loads(segs: seq<Segment>, n: nat): (k: nat)
    requires n <= |segs|
    ensures k <= n
  {
    if n == 0 then 0 else Loads(segs, n - 1) + (if segs[n - 1].load then 1 else 0)
  }

  function Low(segs: seq<Segment>, n: nat): nat
    requires n <= |segs|
  {
    if n == 0 then U64_MAX
    else if segs[n - 1].load && segs[n - 1].vaddr < Low(segs, n - 1) then segs[n - 1].vaddr else Low(segs, n - 1)
  }

  function High(segs: seq<Segment>, n: nat): nat
    requires n <= |segs|
  {
    if n == 0 then 0
    else if segs[n - 1].load && segs[n - 1].vaddr + segs[n - 1].memsz > High(segs, n - 1)
    then segs[n - 1].vaddr + segs[n - 1].memsz else High(segs, n - 1)
  }

  /** The two 32-bit totals, which count modulo 2^32. */
  function FileTotal(segs: seq<Segment>, n: nat): (v: U32)
    requires n <= |segs|
  {
    if n == 0 then 0 else (FileTotal(segs, n - 1) + (if segs[n - 1].load then segs[n - 1].filesz % U32_LIMIT else 0)) % U32_LIMIT
  }

  function MemTotal(segs: seq<Segment>, n: nat): (v: U32)
    requires n <= |segs|
  {
    if n == 0 then 0 else (MemTotal(segs, n - 1) + (if segs[n - 1].load then segs[n - 1].memsz % U32_LIMIT else 0)) % U32_LIMIT
  }

  predicate EntryOk(segs: seq<Segment>, entry: nat, r: Region) {
    InRegion(entry, 1, r.base, r.size) && Low(segs, |segs|) <= entry < High(segs, |segs|)
  }

  /** The outcome of a load, decided by the image and the region alone. */
  function Outcome(image: Bytes, r: Region): Status {
    if !HeaderOk(image) then Inval
    else
      var segs := Segments(image);
      var k := Processed(segs, |image|, r, 0);
      if k < |segs| then Judge(segs[k], |image|, r)
      else if Loads(segs, |segs|) == 0 || !EntryOk(segs, Entry(image), r) then Inval
      else Ok
  }

  /** How many headers are written to memory. */
  function Written(image: Bytes, r: Region): nat {
    if HeaderOk(image) then Processed(Segments(image), |image|, r, 0) else 0
  }

  datatype LoadResult = LoadResult(entry: nat, low: nat, high: nat, segments: nat, fileTotal: U32, memTotal: U32)

  // ---------- facts about the specification ----------

  /** Only addresses of the region change. */
  lemma {:induction false} OutsideUntouched(image: Bytes, segs: seq<Segment>, r: Region, n: nat, a: nat, before: Byte)
    requires n <= Processed(segs, |image|, r, 0) && !(r.base <= a < r.base + r.size)
    ensures Loaded(image, segs, n, a, before) == before
  {
    if n > 0 {
      OutsideUntouched(image, segs, r, n - 1, a, before);
      assert Judge(segs[n - 1], |image|, r) == Ok;
    }
  }

  /** An address that no loaded segment covers keeps its byte. */
  lemma {:induction false} UncoveredUntouched(image: Bytes, segs: seq<Segment>, r: Region, n: nat, a: nat, before: Byte)
    requires n <= Processed(segs, |image|, r, 0) && forall i :: 0 <= i < n ==> !Holds(segs[i], a)
    ensures Loaded(image, segs, n, a, before) == before
  {
    if n > 0 {
      UncoveredUntouched(image, segs, r, n - 1, a, before);
    }
  }

  /** The last covering segment decides: its file byte, or zero behind its file part. */
  lemma {:induction false} LastCoverDecides(image: Bytes, segs: seq<Segment>, r: Region, n: nat, k: nat, a: nat, before: Byte)
    requires k < n <= Processed(segs, |image|, r, 0) && Holds(segs[k], a)
    requires forall i :: k < i < n ==> !Holds(segs[i], a)
    ensures Judge(segs[k], |image|, r) == Ok
    ensures Loaded(image, segs, n, a, before)
            == if a < segs[k].vaddr + segs[k].filesz then image[segs[k].offset + (a - segs[k].vaddr)] else 0
  {
    assert Judge(segs[k], |image|, r) == Ok;
    if n > k + 1 {
      LastCoverDecides(image, segs, r, n - 1, k, a, before);
    }
  }

  /** The envelope contains every loaded segment. */
  lemma {:induction false} Envelope(segs: seq<Segment>, n: nat, i: nat)
    requires i < n <= |segs| && segs[i].load
    ensures Low(segs, n) <= segs[i].vaddr && segs[i].vaddr + segs[i].memsz <= High(segs, n)
  {
    if i < n - 1 {
      Envelope(segs, n - 1, i);
    }
  }

  /** It is no larger than that: a loaded segment starts at its low end and one stops at its high end. */
  lemma {:induction false} EnvelopeTight(segs: seq<Segment>, n: nat) returns (lo: nat, hi: nat)
    requires n <= |segs| && Loads(segs, n) > 0 && forall i :: 0 <= i < n && segs[i].load ==> segs[i].vaddr <= U64_MAX
    ensures lo < n && segs[lo].load && segs[lo].vaddr == Low(segs, n)
    ensures hi < n && segs[hi].load && segs[hi].vaddr + segs[hi].memsz == High(segs, n)
  {
    if Loads(segs, n - 1) == 0 {
      NoLoads(segs, n - 1);
      NoSegments(segs, n - 1);
      return n - 1, n - 1;
    }
    lo, hi := EnvelopeTight(segs, n - 1);
    if segs[n - 1].load {
      lo := if segs[n - 1].vaddr < segs[lo].vaddr then n - 1 else lo;
      hi := if segs[n - 1].vaddr + segs[n - 1].memsz > segs[hi].vaddr + segs[hi].memsz then n - 1 else hi;
    }
  }

  lemma {:induction false} NoLoads(segs: seq<Segment>, n: nat)
    requires n <= |segs| && Loads(segs, n) == 0
    ensures forall i :: 0 <= i < n ==> !segs[i].load
  {
    if n > 0 {
      NoLoads(segs, n - 1);
    }
  }

  lemma {:induction false} NoSegments(segs: seq<Segment>, n: nat)
    requires n <= |segs| && forall i :: 0 <= i < n ==> !segs[i].load
    ensures Low(segs, n) == U64_MAX && High(segs, n) == 0
  {
    if n > 0 {
      NoSegments(segs, n - 1);
    }
  }

  // ---------- which images load ----------

  /**
   A static little-endian 64-bit executable for x86-64, byte by byte, with 56-byte program headers that all lie in the
   image.
   */
  predicate Executable(image: Bytes) {
    && |image| >= 64 && image[..7] == [0x7F, 0x45, 0x4C, 0x46, 2, 1, 1]
    && image[16] == 2 && image[17] == 0 && image[18] == 62 && image[19] == 0
    && image[54] == 56 && image[55] == 0 && (image[56] != 0 || image[57] != 0)
    && U64At(image, 32) + 56 * U16At(image, 56) <= |image|
  }

  lemma HeaderIff(image: Bytes)
    ensures HeaderOk(image) <==> Executable(image)
  {
    if |image| >= 64 {
      assert image[..7] == [0x7F, 0x45, 0x4C, 0x46, 2, 1, 1] <==> IdentOk(image);
      HalfWord(image, 16, 2);
      HalfWord(image, 18, 62);
      HalfWord(image, 54, 56);
    }
  }

  lemma HalfWord(b: Bytes, off: nat, v: Byte)
    requires off + 2 <= |b|
    ensures U16At(b, off) == v as int <==> b[off] == v && b[off + 1] == 0
  {
  }

  /** A header that is skipped, or a segment whose file bytes lie in the image and whose memory lies in the region. */
  predicate Fits(s: Segment, imageSize: nat, r: Region) {
    s.load ==> s.filesz <= s.memsz && s.offset + s.filesz <= imageSize && r.base <= s.vaddr && s.vaddr + s.memsz <= r.base + r.size
  }

  /** The word tests of the loader never overflow: they say what unbounded arithmetic says. */
  lemma JudgeIff(s: Segment, imageSize: nat, r: Region)
    ensures Judge(s, imageSize, r) == Ok <==> Fits(s, imageSize, r)
    ensures Judge(s, imageSize, r) == Perm <==> !Fits(s, imageSize, r) && s.filesz <= s.memsz && s.offset + s.filesz <= imageSize
    ensures Judge(s, imageSize, r) in {Ok, Perm, Inval}
  {
  }

  /** The envelope in terms of the segments themselves. */
  lemma EnvelopeIff(segs: seq<Segment>, e: nat)
    requires Loads(segs, |segs|) > 0 && forall i :: 0 <= i < |segs| && segs[i].load ==> segs[i].vaddr <= U64_MAX
    ensures Low(segs, |segs|) <= e <==> exists i :: 0 <= i < |segs| && segs[i].load && segs[i].vaddr <= e
    ensures e < High(segs, |segs|) <==> exists i :: 0 <= i < |segs| && segs[i].load && e < segs[i].vaddr + segs[i].memsz
  {
    var lo, hi := EnvelopeTight(segs, |segs|);
    forall i | 0 <= i < |segs| && segs[i].load
      ensures Low(segs, |segs|) <= segs[i].vaddr && segs[i].vaddr + segs[i].memsz <= High(segs, |segs|)
    {
      Envelope(segs, |segs|, i);
    }
  }

  lemma {:induction false} SomeLoads(segs: seq<Segment>, n: nat)
    requires n <= |segs|
    ensures Loads(segs, n) > 0 <==> exists i :: 0 <= i < n && segs[i].load
  {
    if n > 0 {
      SomeLoads(segs, n - 1);
    }
  }

  /** At or above the start of some loaded segment and below the end of some loaded segment. */
  ghost predicate Enclosed(segs: seq<Segment>, e: nat) {
    && (exists i :: 0 <= i < |segs| && segs[i].load && segs[i].vaddr <= e)
    && (exists i :: 0 <= i < |segs| && segs[i].load && e < segs[i].vaddr + segs[i].memsz)
  }

  /**
   An image loads exactly when it is such an executable, every loadable segment fits, and the entry point is enclosed by
   loaded segments. A segment that only leaves the region is a matter of permission, unless an earlier one is malformed.
   */
  lemma LoadOkIff(image: Bytes, r: Region)
    requires r.base + r.size <= U64_MAX
    ensures Outcome(image, r) == Ok <==>
            && HeaderOk(image) && (forall i :: 0 <= i < |Segments(image)| ==> Fits(Segments(image)[i], |image|, r))
            && Enclosed(Segments(image), Entry(image))
    ensures Outcome(image, r) == Perm <==>
            && HeaderOk(image)
            && exists k :: && 0 <= k < |Segments(image)| && Judge(Segments(image)[k], |image|, r) == Perm
                           && forall i :: 0 <= i < k ==> Fits(Segments(image)[i], |image|, r)
    ensures Outcome(image, r) in {Ok, Perm, Inval}
  {
    hide HeaderOk, Loads, Low, High, SegmentAt, Judge, Fits;
    if HeaderOk(image) {
      OutcomeCases(image, r);
    }
  }

  lemma OutcomeCases(image: Bytes, r: Region)
    requires HeaderOk(image) && r.base + r.size <= U64_MAX
    ensures var segs := Segments(image); var k := Processed(segs, |image|, r, 0);
            && (forall i :: 0 <= i < |segs| ==> (Judge(segs[i], |image|, r) == Ok <==> Fits(segs[i], |image|, r)))
            && (forall i :: 0 <= i < |segs| ==> Judge(segs[i], |image|, r) in {Ok, Perm, Inval})
            && (k == |segs| ==> (Loads(segs, |segs|) > 0 && EntryOk(segs, Entry(image), r) <==> Enclosed(segs, Entry(image))))
  {
    hide IdentOk, Loads, Low, High, SegmentAt, Judge, EntryOk, Enclosed;
    var segs := Segments(image);
    var k := Processed(segs, |image|, r, 0);
    forall i | 0 <= i < |segs|
      ensures (Judge(segs[i], |image|, r) == Ok <==> Fits(segs[i], |image|, r)) && Judge(segs[i], |image|, r) in {Ok, Perm, Inval}
    {
      JudgeIff(segs[i], |image|, r);
    }
    if k == |segs| {
      EnclosedIff(segs, |image|, r, Entry(image));
    }
  }

  lemma EnclosedIff(segs: seq<Segment>, imageSize: nat, r: Region, e: nat)
    requires Processed(segs, imageSize, r, 0) == |segs| && r.base + r.size <= U64_MAX
    ensures Loads(segs, |segs|) > 0 && EntryOk(segs, e, r) <==> Enclosed(segs, e)
  {
    hide Loads, Low, High, Judge, EntryOk;
    SomeLoads(segs, |segs|);
    if Loads(segs, |segs|) > 0 {
      forall i | 0 <= i < |segs| && segs[i].load ensures segs[i].vaddr <= U64_MAX {
        JudgeIff(segs[i], imageSize, r);
      }
      EntryIsEnvelope(segs, imageSize, r, e);
      EnvelopeIff(segs, e);
    }
  }

  // ---------- where an accepted entry point may lie ----------

  ghost predicate Held(segs: seq<Segment>, a: nat) {
    exists i :: 0 <= i < |segs| && Holds(segs[i], a)
  }

  /** Every loaded segment ends at the end of the envelope or inside a loaded segment. */
  ghost predicate Gapless(segs: seq<Segment>) {
    forall i :: 0 <= i < |segs| && segs[i].load ==>
      EndOf(segs[i]) == High(segs, |segs|) || Held(segs, EndOf(segs[i]))
  }

  function EndOf(s: Segment): nat { s.vaddr + s.memsz }

  /** From segment `i`, which starts at or below `a`, some segment further up holds `a`. */
  lemma {:induction false} GaplessHolds(segs: seq<Segment>, i: nat, a: nat)
    requires Gapless(segs) && i < |segs| && segs[i].load && segs[i].vaddr <= a < High(segs, |segs|)
    ensures Held(segs, a)
    decreases High(segs, |segs|) - EndOf(segs[i])
  {
    Envelope(segs, |segs|, i);
    if a < EndOf(segs[i]) {
      assert Holds(segs[i], a);
    } else {
      assert Held(segs, EndOf(segs[i]));
      var j :| 0 <= j < |segs| && Holds(segs[j], EndOf(segs[i]));
      GaplessHolds(segs, j, a);
    }
  }

  /** For headers the loader processes, the accepted entry points are exactly those of the envelope. */
  lemma EntryIsEnvelope(segs: seq<Segment>, imageSize: nat, r: Region, e: nat)
    requires Processed(segs, imageSize, r, 0) == |segs| && Loads(segs, |segs|) > 0 && r.base + r.size <= U64_MAX
    ensures EntryOk(segs, e, r) <==> Low(segs, |segs|) <= e < High(segs, |segs|)
  {
    forall i | 0 <= i < |segs| && segs[i].load
      ensures r.base <= segs[i].vaddr <= U64_MAX && EndOf(segs[i]) <= r.base + r.size
    {
      assert Judge(segs[i], imageSize, r) == Ok;
    }
    var lo, hi := EnvelopeTight(segs, |segs|);
  }

  /**
   When every accepted entry point lies in a loaded segment: exactly when the header table leaves no gap. The entry
   test itself only compares with the envelope.
   */
  lemma EntryHeldIff(segs: seq<Segment>, imageSize: nat, r: Region)
    requires Processed(segs, imageSize, r, 0) == |segs| && Loads(segs, |segs|) > 0 && r.base + r.size <= U64_MAX
    ensures (forall e: nat :: EntryOk(segs, e, r) ==> Held(segs, e)) <==> Gapless(segs)
  {
    hide EntryOk, Held, Gapless;
    if Gapless(segs) {
      forall e: nat | EntryOk(segs, e, r) ensures Held(segs, e) {
        EntryIsEnvelope(segs, imageSize, r, e);
        LowStarts(segs, imageSize, r, e);
      }
    }
    if forall e: nat :: EntryOk(segs, e, r) ==> Held(segs, e) {
      HeldIsGapless(segs, imageSize, r);
    }
  }

  lemma LowStarts(segs: seq<Segment>, imageSize: nat, r: Region, e: nat)
    requires Processed(segs, imageSize, r, 0) == |segs| && Loads(segs, |segs|) > 0 && r.base + r.size <= U64_MAX
    requires Gapless(segs) && Low(segs, |segs|) <= e < High(segs, |segs|)
    ensures Held(segs, e)
  {
    hide Gapless, Held;
    forall i | 0 <= i < |segs| && segs[i].load ensures segs[i].vaddr <= U64_MAX {
      assert Judge(segs[i], imageSize, r) == Ok;
    }
    var lo, hi := EnvelopeTight(segs, |segs|);
    GaplessHolds(segs, lo, e);
  }

  lemma HeldIsGapless(segs: seq<Segment>, imageSize: nat, r: Region)
    requires Processed(segs, imageSize, r, 0) == |segs| && Loads(segs, |segs|) > 0 && r.base + r.size <= U64_MAX
    requires forall e: nat :: EntryOk(segs, e, r) ==> Held(segs, e)
    ensures Gapless(segs)
  {
    hide EntryOk, Held;
    forall i | 0 <= i < |segs| && segs[i].load
      ensures EndOf(segs[i]) == High(segs, |segs|) || Held(segs, EndOf(segs[i]))
    {
      Envelope(segs, |segs|, i);
      EntryIsEnvelope(segs, imageSize, r, EndOf(segs[i]));
    }
  }

  /** An executable of 176 bytes: two 16-byte segments 8 KiB apart and an entry point half way between them. */
  function GapByte(i: nat): Byte {
    match i
    case 0 => 0x7F case 1 => 0x45 case 2 => 0x4C case 3 => 0x46 case 4 => 2 case 5 => 1 case 6 => 1
    case 16 => 2 case 18 => 62
    case 25 => 0x10 case 27 => 0x04
    case 32 => 64 case 54 => 56 case 56 => 2
    case 64 => 1 case 83 => 0x04 case 96 => 16 case 104 => 16
    case 120 => 1 case 137 => 0x20 case 139 => 0x04 case 152 => 16 case 160 => 16
    case _ => 0
  }

  function GapImage(): (image: Bytes)
    ensures |image| == 176 && forall i :: 0 <= i < 176 ==> image[i] == GapByte(i)
  {
    seq(176, i requires 0 <= i < 176 => GapByte(i))
  }

  /** The loader accepts that image into the user window although no segment holds its entry point. */
  lemma GapEntryAccepted()
    ensures var image, r := GapImage(), Region(USER_BASE, USER_SIZE);
            && Outcome(image, r) == Ok && HeaderOk(image)
            && Entry(image) == USER_BASE + 0x1000 && !Held(Segments(image), Entry(image))
  {
    hide U16At, U32At, U64At, SegmentAt;
    var image, r := GapImage(), Region(USER_BASE, USER_SIZE);
    GapHeader();
    var segs := Segments(image);
    var s, t := Segment(true, 0, USER_BASE, 16, 16), Segment(true, 0, USER_BASE + 0x2000, 16, 16);
    GapSegments();
    assert segs == [s, t];
    assert Judge(s, 176, r) == Ok && Judge(t, 176, r) == Ok;
    assert Processed(segs, 176, r, 2) == 2 && Processed(segs, 176, r, 1) == 2;
    assert Low(segs, 1) == USER_BASE && Low(segs, 2) == USER_BASE;
    assert High(segs, 1) == USER_BASE + 16 && High(segs, 2) == USER_BASE + 0x2010;
    assert Loads(segs, 1) == 1 && Loads(segs, 2) == 2;
  }

  /** A 64-bit field whose upper half is zero. */
  lemma GapWord(off: nat, x0: Byte, x1: Byte, x2: Byte, x3: Byte)
    requires off + 8 <= 176
    requires GapByte(off) == x0 && GapByte(off + 1) == x1 && GapByte(off + 2) == x2 && GapByte(off + 3) == x3
    requires GapByte(off + 4) == GapByte(off + 5) == GapByte(off + 6) == GapByte(off + 7) == 0
    ensures U64At(GapImage(), off) == x0 as int + 0x100 * x1 as int + 0x1_0000 * x2 as int + 0x100_0000 * x3 as int
    ensures U32At(GapImage(), off) == x0 as int + 0x100 * x1 as int + 0x1_0000 * x2 as int + 0x100_0000 * x3 as int
    ensures U16At(GapImage(), off) == x0 as int + 0x100 * x1 as int
  {
    hide GapByte;
    var b := GapImage();
    assert U16At(b, off) == x0 as int + 0x100 * x1 as int && U16At(b, off + 2) == x2 as int + 0x100 * x3 as int;
    assert U16At(b, off + 4) == 0 && U16At(b, off + 6) == 0;
  }

  lemma GapHalf(off: nat)
    requires off + 2 <= 176
    ensures U16At(GapImage(), off) == GapByte(off) as int + 0x100 * GapByte(off + 1) as int
  {
  }

  lemma GapHeader()
    ensures HeaderOk(GapImage()) && Phnum(GapImage()) == 2 && Phoff(GapImage()) == 64
    ensures Entry(GapImage()) == USER_BASE + 0x1000
  {
    hide U16At, U32At, U64At;
    GapHalf(16);
    GapHalf(18);
    GapHalf(54);
    GapHalf(56);
    GapWord(24, 0, 0x10, 0, 0x04);
    GapWord(32, 64, 0, 0, 0);
  }

  lemma GapSegments()
    ensures HeaderOk(GapImage()) && Phnum(GapImage()) == 2
    ensures SegmentAt(GapImage(), 0) == Segment(true, 0, USER_BASE, 16, 16)
    ensures SegmentAt(GapImage(), 1) == Segment(true, 0, USER_BASE + 0x2000, 16, 16)
  {
    hide HeaderOk, U64At, U32At, GapByte;
    GapHeader();
    FirstGapPlace();
    SecondGapPlace();
    GapSizes();
  }

  lemma FirstGapPlace()
    ensures U32At(GapImage(), 64) == 1 && U64At(GapImage(), 72) == 0 && U64At(GapImage(), 80) == USER_BASE
  {
    hide U16At, U32At, U64At;
    GapWord(64, 1, 0, 0, 0);
    GapWord(72, 0, 0, 0, 0);
    GapWord(80, 0, 0, 0, 4);
  }

  lemma SecondGapPlace()
    ensures U32At(GapImage(), 120) == 1 && U64At(GapImage(), 128) == 0 && U64At(GapImage(), 136) == USER_BASE + 0x2000
  {
    hide U16At, U32At, U64At;
    GapWord(120, 1, 0, 0, 0);
    GapWord(128, 0, 0, 0, 0);
    GapWord(136, 0, 0x20, 0, 4);
  }

  lemma GapSizes()
    ensures var image := GapImage();
            U64At(image, 96) == 16 && U64At(image, 104) == 16 && U64At(image, 152) == 16 && U64At(image, 160) == 16
  {
    hide U16At, U32At, U64At;
    GapWord(96, 16, 0, 0, 0);
    GapWord(104, 16, 0, 0, 0);
    GapWord(152, 16, 0, 0, 0);
    GapWord(160, 16, 0, 0, 0);
  }

  // ---------- the loader ----------

  /** memcpy of a file range into memory. */
  method CopyBytes(mem: array<Byte>, to: nat, image: Bytes, from: nat, len: nat)
    requires to + len <= mem.Length && from + len <= |image|
    modifies mem
    ensures forall a :: 0 <= a < mem.Length ==>
              mem[a] == if to <= a < to + len then image[from + (a - to)] else old(mem[a])
  {
    for i := 0 to len
      invariant forall a :: 0 <= a < mem.Length ==>
                  mem[a] == if to <= a < to + i then image[from + (a - to)] else old(mem[a])
    {
      mem[to + i] := image[from + i];
    }
  }

  /** memset to zero. */
  method ZeroBytes(mem: array<Byte>, to: nat, len: nat)
    requires to + len <= mem.Length
    modifies mem
    ensures forall a :: 0 <= a < mem.Length ==> mem[a] == if to <= a < to + len then 0 else old(mem[a])
  {
    for i := 0 to len
      invariant forall a :: 0 <= a < mem.Length ==> mem[a] == if to <= a < to + i then 0 else old(mem[a])
    {
      mem[to + i] := 0;
    }
  }

  /** The write of one accepted segment: its file bytes, then zeroes up to its memory size. */
  method WriteSegment(mem: array<Byte>, image: Bytes, s: Segment)
    requires s.load && s.filesz <= s.memsz && s.offset + s.filesz <= |image| && s.vaddr + s.memsz <= mem.Length
    modifies mem
    ensures WroteSegment(s, image, old(mem[..]), mem[..])
  {
    CopyBytes(mem, s.vaddr, image, s.offset, s.filesz);
    if s.memsz > s.filesz {
      ZeroBytes(mem, s.vaddr + s.filesz, s.memsz - s.filesz);
    }
  }

  /** Memory after the first `n` headers, byte by byte. */
  ghost predicate MemoryIs(image: Bytes, segs: seq<Segment>, r: Region, n: nat, before: Bytes, after: Bytes)
    requires n <= Processed(segs, |image|, r, 0)
  {
    |after| == |before| && forall a :: 0 <= a < |after| ==> after[a] == Loaded(image, segs, n, a, before[a])
  }

  /** What the header loop has gathered after `n` headers. */
  function Gathered(segs: seq<Segment>, n: nat, entry: nat): LoadResult
    requires n <= |segs|
  {
    LoadResult(entry, Low(segs, n), High(segs, n), Loads(segs, n), FileTotal(segs, n), MemTotal(segs, n))
  }

  ghost predicate WroteSegment(s: Segment, image: Bytes, before: Bytes, after: Bytes)
    requires s.filesz <= s.memsz && s.offset + s.filesz <= |image|
  {
    |after| == |before| && forall a :: 0 <= a < |after| ==>
      after[a] == if !Holds(s, a) then before[a] else if a < s.vaddr + s.filesz then image[s.offset + (a - s.vaddr)] else 0
  }

  lemma WroteStep(image: Bytes, segs: seq<Segment>, r: Region, n: nat, before: Bytes, mid: Bytes, after: Bytes)
    requires n < Processed(segs, |image|, r, 0) && segs[n].load && MemoryIs(image, segs, r, n, before, mid)
    requires segs[n].filesz <= segs[n].memsz && segs[n].offset + segs[n].filesz <= |image|
    requires WroteSegment(segs[n], image, mid, after)
    ensures MemoryIs(image, segs, r, n + 1, before, after)
  {
  }

  lemma SkipStep(image: Bytes, segs: seq<Segment>, r: Region, n: nat, before: Bytes, after: Bytes)
    requires n < Processed(segs, |image|, r, 0) && !segs[n].load && MemoryIs(image, segs, r, n, before, after)
    ensures MemoryIs(image, segs, r, n + 1, before, after)
  {
  }

  lemma GatherStep(segs: seq<Segment>, n: nat, entry: nat)
    requires n < |segs|
    ensures Gathered(segs, n + 1, entry)
            == if segs[n].load then Account(Gathered(segs, n, entry), segs[n]) else Gathered(segs, n, entry)
  {
  }

  /** elf_load */
  method Load(image: Bytes, r: Region, mem: array<Byte>) returns (status: Status, out: Option<LoadResult>)
    requires r.base + r.size <= mem.Length && r.base + r.size <= U64_MAX
    modifies mem
    ensures status == Outcome(image, r)
    ensures !HeaderOk(image) ==> forall a :: 0 <= a < mem.Length ==> mem[a] == old(mem[a])
    ensures HeaderOk(image) ==> MemoryIs(image, Segments(image), r, Written(image, r), old(mem[..]), mem[..])
    ensures forall a :: 0 <= a < mem.Length && !(r.base <= a < r.base + r.size) ==> mem[a] == old(mem[a])
    ensures status == Ok ==>
              out == Some(Gathered(Segments(image), Phnum(image), Entry(image)))
  {
    out := None;
    var ok := CheckHeader(image);
    if !ok {
      return Inval, out;
    }
    ghost var segs := Segments(image);
    var result;
    status, result := LoadSegments(image, r, mem);
    RegionOnly(image, segs, r, Written(image, r));
    if status != Ok {
      return;
    }
    if result.segments == 0 {
      return Inval, out;
    }
    var entry := Entry(image);
    if !InRegion(entry, 1, r.base, r.size) || entry < result.low || entry >= result.high {
      return Inval, out;
    }
    out := Some(result);
  }

  /** The checks before the program header loop. */
  method CheckHeader(image: Bytes) returns (ok: bool)
    ensures ok == HeaderOk(image)
  {
    if |image| < EHDR_SIZE {
      return false;
    }
    if !IdentOk(image) {
      return false;
    }
    if U16At(image, 16) != ET_EXEC || U16At(image, 18) != EM_X86_64 {
      return false;
    }
    if U16At(image, 54) != PHDR_SIZE || Phnum(image) == 0 {
      return false;
    }
    ok := InImage(Phoff(image), Phnum(image) * PHDR_SIZE, |image|);
  }

  lemma RegionOnly(image: Bytes, segs: seq<Segment>, r: Region, n: nat)
    requires n <= Processed(segs, |image|, r, 0)
    ensures forall a: nat, b: Byte :: !(r.base <= a < r.base + r.size) ==> Loaded(image, segs, n, a, b) == b
  {
    forall a: nat, b: Byte | !(r.base <= a < r.base + r.size) ensures Loaded(image, segs, n, a, b) == b {
      OutsideUntouched(image, segs, r, n, a, b);
    }
  }

  /** The program header loop. */
  method LoadSegments(image: Bytes, r: Region, mem: array<Byte>) returns (status: Status, out: LoadResult)
    requires HeaderOk(image) && r.base + r.size <= mem.Length && r.base + r.size <= U64_MAX
    modifies mem
    ensures MemoryIs(image, Segments(image), r, Written(image, r), old(mem[..]), mem[..])
    ensures var segs := Segments(image); var k := Written(image, r);
            && status == (if k < |segs| then Judge(segs[k], |image|, r) else Ok)
            && (status == Ok ==> out == Gathered(segs, k, Entry(image)))
  {
    hide Gathered, MemoryIs, SegmentAt, WroteSegment, Entry;
    ghost var segs, before := Segments(image), mem[..];
    NothingLoaded(image, segs, r, before, Entry(image));
    out := LoadResult(Entry(image), U64_MAX, 0, 0, 0, 0);
    for i := 0 to Phnum(image)
      invariant i <= Processed(segs, |image|, r, 0)
      invariant MemoryIs(image, segs, r, i, before, mem[..])
      invariant out == Gathered(segs, i, Entry(image))
    {
      var s := SegmentAt(image, i);
      ProcessedStep(segs, |image|, r, 0, i);
      GatherStep(segs, i, Entry(image));
      if !s.load {
        SkipStep(image, segs, r, i, before, mem[..]);
        continue;
      }
      if s.filesz > s.memsz {
        return Inval, out;
      }
      if !InImage(s.offset, s.filesz, |image|) {
        return Inval, out;
      }
      if !InRegion(s.vaddr, s.memsz, r.base, r.size) {
        return Perm, out;
      }
      ghost var mid := mem[..];
      WriteSegment(mem, image, s);
      WroteStep(image, segs, r, i, before, mid, mem[..]);
      out := Account(out, s);
    }
    status := Ok;
  }

  lemma NothingLoaded(image: Bytes, segs: seq<Segment>, r: Region, before: Bytes, entry: nat)
    ensures MemoryIs(image, segs, r, 0, before, before) && Gathered(segs, 0, entry) == LoadResult(entry, U64_MAX, 0, 0, 0, 0)
  {
  }

  /** The running minimum, maximum and totals of the header loop. */
  function Account(o: LoadResult, s: Segment): LoadResult {
    LoadResult(o.entry, if s.vaddr < o.low then s.vaddr else o.low,
               if s.vaddr + s.memsz > o.high then s.vaddr + s.memsz else o.high, o.segments + 1,
               (o.fileTotal + s.filesz % U32_LIMIT) % U32_LIMIT, (o.memTotal + s.memsz % U32_LIMIT) % U32_LIMIT)
  }

  lemma {:induction false} ProcessedStep(segs: seq<Segment>, imageSize: nat, r: Region, n: nat, i: nat)
    requires n <= i < |segs| && i <= Processed(segs, imageSize, r, n)
    ensures if Judge(segs[i], imageSize, r) == Ok then i + 1 <= Processed(segs, imageSize, r, n)
            else Processed(segs, imageSize, r, n) == i
    decreases i - n
  {
    if n < i {
      ProcessedStep(segs, imageSize, r, n + 1, i);
    }
  }
}
