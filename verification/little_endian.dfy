/** Little-endian fields of a byte sequence, as the packed structures of the boot protocol and ELF lay them out. */
module LittleEndian {
  import opened Types

  type Bytes = seq<Byte>

  function U16At(b: Bytes, off: nat): (v: U16)
    requires off + 2 <= |b|
  {
    b[off] as int + 256 * (b[off + 1] as int)
  }

  function U32At(b: Bytes, off: nat): (v: U32)
    requires off + 4 <= |b|
  {
    U16At(b, off) as int + 0x1_0000 * (U16At(b, off + 2) as int)
  }

  function U64At(b: Bytes, off: nat): (v: U64)
    requires off + 8 <= |b|
  {
    U32At(b, off) as int + 0x1_0000_0000 * (U32At(b, off + 4) as int)
  }
}
