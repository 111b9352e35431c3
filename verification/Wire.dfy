/** Octets, machine integers, the optional value and a constant that several components share. */
module Wire {
  datatype Option<+T> = None | Some(value: T)

  type byte = x: int | 0 <= x <= 0xFF
  type uint16 = x: int | 0 <= x <= 0xFFFF
  type uint32 = x: int | 0 <= x <= 0xFFFF_FFFF
  type int32 = x: int | -0x8000_0000 <= x <= 0x7FFF_FFFF
  type Octets = seq<byte>

  /** How many records the seeded Trend Log of the Go adapter has. */
  const LOG_SEED_RECORDS: nat := 36

  /** Network order, as `struct.pack(">H", n)` writes it. */
  function BigEndian16(n: uint16): (r: Octets)
    ensures |r| == 2
  {
    [n / 0x100, n % 0x100]
  }

  function Join16(hi: byte, lo: byte): uint16 {
    hi * 0x100 + lo
  }

  lemma Join16Split(hi: byte, lo: byte)
    ensures BigEndian16(Join16(hi, lo)) == [hi, lo]
  {
    var n := Join16(hi, lo);
    assert n / 0x100 == hi && n % 0x100 == lo;
  }

  lemma SplitJoin16(n: uint16)
    ensures Join16(BigEndian16(n)[0], BigEndian16(n)[1]) == n
  {
  }

  /** `c & mask != 0` for a mask of one bit. */
  predicate Bit(c: byte, mask: int)
    requires mask > 0
  {
    c / mask % 2 == 1
  }
}
