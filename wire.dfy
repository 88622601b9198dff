/** Machine integers, big-endian byte order and socket addresses as the wire sees them. */
module Wire {

  type Byte = x: int | 0 <= x < 0x100

  type U16 = x: int | 0 <= x < 0x1_0000

  type U32 = x: int | 0 <= x < 0x1_0000_0000

  const U32_MODULUS: int := 0x1_0000_0000

  /** An IPv4 address, four octets. */
  datatype Ipv4Addr = Ipv4Addr(a: Byte, b: Byte, c: Byte, d: Byte)

  datatype SocketAddr = SocketAddr(ip: Ipv4Addr, port: U16)

  /** The four bytes `write_be_u32` appends, most significant first: base-256 digits of `x`. */
  function BE32(x: U32): (b: seq<Byte>)
    ensures |b| == 4
  {
    var q1 := x / 0x100;
    var q2 := q1 / 0x100;
    [q2 / 0x100, q2 % 0x100, q1 % 0x100, x % 0x100]
  }

  /** The value `read_be_u32` assembles from four bytes. */
  function FromBE32(b: seq<Byte>): (x: U32)
    requires |b| == 4
  {
    (b[0] as int) * 0x100_0000 + (b[1] as int) * 0x1_0000 + (b[2] as int) * 0x100 + b[3]
  }

  /** Reading back what was written gives the original number. */
  lemma BE32Decodes(x: U32)
    ensures FromBE32(BE32(x)) == x
  {
    var q1: int := x / 0x100;
    var q2: int := q1 / 0x100;
    assert x == q1 * 0x100 + x % 0x100;
    assert q1 == q2 * 0x100 + q1 % 0x100;
    assert q2 == (q2 / 0x100) * 0x100 + q2 % 0x100;
  }

  /** Appending a base-256 digit `r` to `q` is undone by one division by 256. */
  lemma DigitSplit(q: int, r: int)
    requires q >= 0 && 0 <= r < 0x100
    ensures (q * 0x100 + r) / 0x100 == q && (q * 0x100 + r) % 0x100 == r
  {
  }

  /** Every four-byte string is the encoding of the number read from it. */
  lemma BE32Canonical(b: seq<Byte>)
    requires |b| == 4
    ensures BE32(FromBE32(b)) == b
  {
    var h: int := (b[0] as int) * 0x100 + b[1];
    var m: int := h * 0x100 + b[2];
    assert FromBE32(b) == m * 0x100 + b[3];
    DigitSplit(m, b[3]);
    DigitSplit(h, b[2]);
    DigitSplit(b[0], b[1]);
  }
}
