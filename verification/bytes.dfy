/** Octets, optional values, and the fixed-width network-order (big-endian)
    integer fields that Python's `struct` module packs and unpacks under the
    `!` prefix. */
module Bytes {

  type Byte = b: int | 0 <= b < 256
  type Bytes = seq<Byte>

  /** The usual Some/None wrapper for lookups and decoders that may fail. */
  datatype Option<+T> = None | Some(value: T)

  const TWO_8: int := 0x100
  const TWO_16: int := 0x1_0000
  const TWO_32: int := 0x1_0000_0000

  /** Value ranges of the `struct` codes used by the channel. */
  predicate IsUint16(n: int) { 0 <= n < TWO_16 }                  // 'H'
  predicate IsInt16(n: int) { -0x8000 <= n < 0x8000 }              // 'h'
  predicate IsUint32(n: int) { 0 <= n < TWO_32 }                   // 'L'
  predicate IsInt32(n: int) { -0x8000_0000 <= n < 0x8000_0000 }    // 'i', 'l'

  /** Unsigned readings of a big-endian field. */
  function U16(b: Bytes): (n: int)
    requires |b| == 2
    ensures IsUint16(n)
  {
    b[0] * TWO_8 + b[1]
  }

  function U32(b: Bytes): (n: int)
    requires |b| == 4
    ensures IsUint32(n)
  {
    ((b[0] * TWO_8 + b[1]) * TWO_8 + b[2]) * TWO_8 + b[3]
  }

  /** Two's-complement readings ('b', 'h', 'i'/'l'). */
  function S8(b: Byte): (n: int)
    ensures -0x80 <= n < 0x80
    ensures n % TWO_8 == b
  {
    if b < 0x80 then b else b - TWO_8
  }

  function S16(b: Bytes): (n: int)
    requires |b| == 2
    ensures IsInt16(n)
    ensures n < 0 <==> U16(b) >= 0x8000
    ensures n % TWO_16 == U16(b)
  {
    var u := U16(b);
    if u < 0x8000 then u else u - TWO_16
  }

  function S32(b: Bytes): (n: int)
    requires |b| == 4
    ensures IsInt32(n)
    ensures n % TWO_32 == U32(b)
  {
    var u := U32(b);
    if u < 0x8000_0000 then u else u - TWO_32
  }

  /** Big-endian writers; each is the inverse of the matching reader. */
  function BE16(n: int): (r: Bytes)
    requires IsUint16(n)
    ensures |r| == 2 && U16(r) == n
  {
    [n / TWO_8, n % TWO_8]
  }

  function BE32(n: int): (r: Bytes)
    requires IsUint32(n)
    ensures |r| == 4 && U32(r) == n
  {
    var hi := n / TWO_16;
    var lo := n % TWO_16;
    [hi / TWO_8, hi % TWO_8, lo / TWO_8, lo % TWO_8]
  }

  /** Signed writers: the two's-complement bit pattern of `n`. */
  function BE16Signed(n: int): (r: Bytes)
    requires IsInt16(n)
    ensures |r| == 2 && S16(r) == n
  {
    BE16(n % TWO_16)
  }

  function BE32Signed(n: int): (r: Bytes)
    requires IsInt32(n)
    ensures |r| == 4 && S32(r) == n
  {
    BE32(n % TWO_32)
  }

  /** The readers lose nothing: every two- or four-byte field is the
      writer's image of its own reading. */
  lemma BE16OfU16(b: Bytes)
    requires |b| == 2
    ensures BE16(U16(b)) == b
  {
    var r := BE16(U16(b));
    assert r[0] == b[0] && r[1] == b[1];
  }

  lemma BE32OfU32(b: Bytes)
    requires |b| == 4
    ensures BE32(U32(b)) == b
  {
    var n := U32(b);
    var hi := b[0] * TWO_8 + b[1];
    var lo := b[2] * TWO_8 + b[3];
    assert n == hi * TWO_16 + lo;
    assert n / TWO_16 == hi && n % TWO_16 == lo;
    var r := BE32(n);
    assert r[0] == b[0] && r[1] == b[1] && r[2] == b[2] && r[3] == b[3];
  }

  lemma BE32SignedOfS32(b: Bytes)
    requires |b| == 4
    ensures BE32Signed(S32(b)) == b
  {
    BE32OfU32(b);
  }
}
