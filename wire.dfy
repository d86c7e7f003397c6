/** Byte-level building blocks of the RIFF writer: bytes, 32-bit unsigned
    integers, four-character codes and the big-endian 32-bit length field. */
module Wire {

  newtype byte = x: int | 0 <= x < 0x100

  /** Go's `uint32`. */
  newtype u32 = x: int | 0 <= x < 0x1_0000_0000

  const MaxU32: int := 0xFFFF_FFFF

  /** A FourCC is exactly four bytes; any four bytes are allowed. */
  type FourCC = s: seq<byte> | |s| == 4 witness [0, 0, 0, 0]

  datatype Option<T> = None | Some(value: T)

  /** The FourCC spelled by a four-character ASCII string, such as "RIFF"
      (each character's code, taken modulo 256). */
  function Tag(s: string): FourCC
    requires |s| == 4
  {
    [ (s[0] as int % 0x100) as byte, (s[1] as int % 0x100) as byte,
      (s[2] as int % 0x100) as byte, (s[3] as int % 0x100) as byte ]
  }

  /** Go's conversion `uint32(n)` of a (64-bit) `int`: two's-complement
      truncation, which is the Euclidean remainder modulo 2^32. */
  function Uint32(n: int): (r: u32)
    ensures r as int == n <==> 0 <= n <= MaxU32
  {
    (n % 0x1_0000_0000) as u32
  }

  /** The value of four bytes read most significant first. */
  function DecodeBE32(b: seq<byte>): u32
    requires |b| == 4
  {
    (b[0] as int * 0x100_0000 + b[1] as int * 0x1_0000 + b[2] as int * 0x100 + b[3] as int) as u32
  }

  /** The four bytes `byte(n >> 24)`, `byte(n >> 16)`, `byte(n >> 8)`, `byte(n)`:
      `n` written most significant byte first. */
  function BE32(n: u32): (b: seq<byte>)
    ensures |b| == 4 && DecodeBE32(b) == n
  {
    var x := n as int;
    DivModSplit(x);
    [ ((x / 0x100_0000) % 0x100) as byte,
      ((x / 0x1_0000) % 0x100) as byte,
      ((x / 0x100) % 0x100) as byte,
      (x % 0x100) as byte ]
  }

  /** Decoding first and encoding again gives back the same four bytes. */
  lemma EncodeDecodeBE32(b: seq<byte>)
    requires |b| == 4
    ensures BE32(DecodeBE32(b)) == b
  {
    var x := DecodeBE32(b) as int;
    var lo := b[1] as int * 0x1_0000 + b[2] as int * 0x100 + b[3] as int;
    assert x == b[0] as int * 0x100_0000 + lo && 0 <= lo < 0x100_0000;
    assert x / 0x100_0000 == b[0] as int;
    assert x / 0x1_0000 == b[0] as int * 0x100 + b[1] as int;
    assert x / 0x100 == b[0] as int * 0x1_0000 + b[1] as int * 0x100 + b[2] as int;
    assert BE32(DecodeBE32(b))[0] == b[0];
    assert BE32(DecodeBE32(b))[1] == b[1];
    assert BE32(DecodeBE32(b))[2] == b[2];
    assert BE32(DecodeBE32(b))[3] == b[3];
  }

  /** Helper: the big-endian digits of `x` reassemble to `x`. */
  lemma DivModSplit(x: int)
    requires 0 <= x < 0x1_0000_0000
    ensures x == ((x / 0x100_0000) % 0x100) * 0x100_0000 + ((x / 0x1_0000) % 0x100) * 0x1_0000
               + ((x / 0x100) % 0x100) * 0x100 + x % 0x100
  {
    var d0, r0 := x / 0x100, x % 0x100;
    var d1, r1 := d0 / 0x100, d0 % 0x100;
    var d2, r2 := d1 / 0x100, d1 % 0x100;
    assert x == d0 * 0x100 + r0;
    assert d0 == d1 * 0x100 + r1;
    assert d1 == d2 * 0x100 + r2;
    assert x == d2 * 0x100_0000 + r2 * 0x1_0000 + r1 * 0x100 + r0;
    assert x / 0x1_0000 == d1;
    assert x / 0x100_0000 == d2;
    assert d2 < 0x100;
  }
}
