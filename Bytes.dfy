/**
 * Fixed-width C integers and the byte orders the frame builder writes.
 *
 * The model fixes a little-endian host (x86-64, the platform the tool runs on):
 * a `uint16_t` or `uint32_t` stored through a struct field lands in memory
 * least significant byte first, and `htons` swaps the two bytes of a 16-bit value.
 */
module Bytes {

  type uint8 = x: int | 0 <= x < 0x100
  type uint16 = x: int | 0 <= x < 0x1_0000
  type uint32 = x: int | 0 <= x < 0x1_0000_0000

  datatype Option<T> = None | Some(value: T)

  /** C conversion of an `int` to `uint16_t`: reduction modulo 2^16. */
  function Trunc16(x: int): (r: uint16)
    ensures 0 <= x < 0x1_0000 ==> r == x
    ensures (x - r) % 0x1_0000 == 0
  {
    x % 0x1_0000
  }

  /** `htons` on a little-endian host: the two bytes of the value change places. */
  function Htons(x: uint16): (r: uint16)
    ensures r / 0x100 == x % 0x100 && r % 0x100 == x / 0x100
  {
    (x % 0x100) * 0x100 + x / 0x100
  }

  /** The two bytes of a 16-bit value in network (big-endian) order. */
  function BigEndian16(x: uint16): (r: seq<uint8>)
    ensures |r| == 2 && ReadBigEndian16(r, 0) == x
  {
    [x / 0x100, x % 0x100]
  }

  /** The two bytes of a 16-bit value as a store on the little-endian host lays them out. */
  function HostOrder16(x: uint16): (r: seq<uint8>)
    ensures |r| == 2 && ReadHost16(r, 0) == x
  {
    [x % 0x100, x / 0x100]
  }

  /** The four bytes of a 32-bit value as a store on the little-endian host lays them out. */
  function HostOrder32(x: uint32): (r: seq<uint8>)
    ensures |r| == 4
  {
    [x % 0x100, (x / 0x100) % 0x100, (x / 0x1_0000) % 0x100, x / 0x100_0000]
  }

  function ReadBigEndian16(s: seq<uint8>, k: nat): uint16
    requires k + 2 <= |s|
  {
    s[k] as int * 0x100 + s[k + 1]
  }

  /** The 16-bit word a `uint16_t *` load on the little-endian host reads at offset `k`. */
  function ReadHost16(s: seq<uint8>, k: nat): uint16
    requires k + 2 <= |s|
  {
    s[k] + s[k + 1] as int * 0x100
  }

  function ReadHost32(s: seq<uint8>, k: nat): uint32
    requires k + 4 <= |s|
  {
    s[k] + s[k + 1] as int * 0x100 + s[k + 2] as int * 0x1_0000 + s[k + 3] as int * 0x100_0000
  }

  /** Loading the four stored bytes of a `uint32_t` gives the value back. */
  lemma HostOrder32Reads(x: uint32)
    ensures ReadHost32(HostOrder32(x), 0) == x
  {
    var y := x / 0x100;
    var z := y / 0x100;
    assert x == y * 0x100 + x % 0x100;
    assert y == z * 0x100 + y % 0x100;
    assert z == (z / 0x100) * 0x100 + z % 0x100;
    assert x / 0x1_0000 == z;
    assert x / 0x100_0000 == z / 0x100;
  }

  /** Storing `htons(x)` through a `uint16_t` field puts `x` on the wire in network order. */
  lemma HostOrderOfHtons(x: uint16)
    ensures HostOrder16(Htons(x)) == BigEndian16(x)
  {
  }
}
