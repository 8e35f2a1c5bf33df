/**
 * The Internet checksum of `csum` (src/packet_mmsg.c), the algorithm of
 * section 4.1 of RFC 1071: 16-bit words read in host order are summed into a
 * wide accumulator, a trailing odd byte is padded with a zero byte, the carries
 * are folded back twice and the complement of the low 16 bits is returned.
 */
module InternetChecksum {
  import opened Bytes

  /** The accumulator of `csum` before folding: the sum of the host-order 16-bit
      words of `b`, a trailing odd byte counting as a word whose high byte is 0. */
  function WordSum(b: seq<uint8>): nat
    decreases |b|
  {
    if |b| == 0 then 0
    else if |b| == 1 then b[0]
    else ReadHost16(b, 0) + WordSum(b[2..])
  }

  /** The two folds of `csum`: the high half of the accumulator is added to its low
      16 bits, and then any carry that addition produced is added once more. */
  function Fold(sum: nat): nat
  {
    var s := sum / 0x1_0000 + sum % 0x1_0000;
    s + s / 0x1_0000
  }

  /** What `csum` returns: the low 16 bits of the complement of the folded sum. */
  function Checksum(b: seq<uint8>): uint16
  {
    0xffff - Fold(WordSum(b)) % 0x1_0000
  }

  // ---------------------------------------------------------------------------
  // Reference definition: one's-complement addition with end-around carry.

  /** Addition in one's-complement arithmetic on 16 bits: a carry out of bit 15
      is added back into bit 0. */
  function OnesAdd(x: uint16, y: uint16): uint16
  {
    if x + y > 0xffff then x + y - 0xffff else x + y
  }

  /** The one's-complement sum of the 16-bit words of `b`, added one at a time
      with end-around carry, a trailing odd byte padded with a zero byte. */
  function OnesSum(b: seq<uint8>): uint16
    decreases |b|
  {
    if |b| == 0 then 0
    else if |b| == 1 then b[0]
    else OnesAdd(ReadHost16(b, 0), OnesSum(b[2..]))
  }

  /** The value that repeated end-around-carry addition reduces a sum to: 0 for 0,
      otherwise the representative of `s` modulo 0xffff in 1..0xffff. */
  function Residue(s: nat): (r: uint16)
    ensures (r == 0) == (s == 0)
  {
    if s == 0 then 0 else (s - 1) % 0xffff + 1
  }

  lemma OnesAddResidue(w: uint16, s: nat)
    ensures OnesAdd(w, Residue(s)) == Residue(w + s)
  {
    if s != 0 && w != 0 {
      var q := (s - 1) / 0xffff;
      assert s - 1 == q * 0xffff + (s - 1) % 0xffff;
      var t := w + Residue(s);
      if t > 0xffff {
        assert w + s - 1 == (q + 1) * 0xffff + (t - 0xffff - 1);
      } else {
        assert w + s - 1 == q * 0xffff + (t - 1);
      }
    }
  }

  /** Summing word by word with end-around carry yields the residue of the plain sum. */
  lemma {:induction false} OnesSumIsResidue(b: seq<uint8>)
    ensures OnesSum(b) == Residue(WordSum(b))
    decreases |b|
  {
    if |b| >= 2 {
      OnesSumIsResidue(b[2..]);
      OnesAddResidue(ReadHost16(b, 0), WordSum(b[2..]));
    }
  }

  /** The two folds of `csum` compute the residue exactly while the sum is below 2^32. */
  lemma FoldIsResidue(s: nat)
    requires s < 0x1_0000_0000
    ensures Fold(s) % 0x1_0000 == Residue(s)
  {
    var hi, lo := s / 0x1_0000, s % 0x1_0000;
    var t := hi + lo;
    assert s == hi * 0x1_0000 + lo;
    if t == 0 {
    } else if t < 0x1_0000 {
      assert s - 1 == hi * 0xffff + (t - 1);
    } else {
      assert s - 1 == (hi + 1) * 0xffff + (t - 1 - 0xffff);
    }
  }

  /** Every two bytes add at most 0xffff to the accumulator. */
  lemma {:induction false} WordSumBound(b: seq<uint8>)
    ensures WordSum(b) <= |b| * 0x8000
    decreases |b|
  {
    if |b| >= 2 {
      WordSumBound(b[2..]);
    }
  }

  /** `csum` is the complement of the RFC 1071 one's-complement sum for every region
      up to 64 KiB, which covers the 4-, 8- and 20-byte regions it is called on. */
  lemma ChecksumIsComplementOfOnesSum(b: seq<uint8>)
    requires |b| <= 0x1_0000
    ensures Checksum(b) == 0xffff - OnesSum(b)
  {
    WordSumBound(b);
    FoldIsResidue(WordSum(b));
    OnesSumIsResidue(b);
  }

  // ---------------------------------------------------------------------------
  // Round trip: filling the zeroed checksum field makes the region check to 0.

  /** Replacing the aligned word at `k` changes the accumulator by the difference of the words. */
  lemma {:induction false} WordSumUpdate(b: seq<uint8>, k: nat, x: uint8, y: uint8)
    requires k % 2 == 0 && k + 1 < |b|
    ensures WordSum(b[k := x][k + 1 := y]) + b[k] + b[k + 1] as int * 0x100 == WordSum(b) + x + y as int * 0x100
    decreases k
  {
    var b' := b[k := x][k + 1 := y];
    if k == 0 {
      assert b'[2..] == b[2..];
    } else {
      WordSumUpdate(b[2..], k - 2, x, y);
      assert b'[2..] == b[2..][k - 2 := x][k - 1 := y];
    }
  }

  lemma ResidueOfComplementedSum(s: nat)
    ensures Residue(s + (0xffff - Residue(s))) == 0xffff
  {
    if s != 0 {
      var q := (s - 1) / 0xffff;
      assert s - 1 == q * 0xffff + (s - 1) % 0xffff;
      assert s + (0xffff - Residue(s)) - 1 == q * 0xffff + 0xfffe;
    }
  }

  /** Recomputing the checksum over a region whose zeroed checksum word at the even
      offset `k` has been filled with the checksum, stored in host order, gives 0. */
  lemma ChecksumRoundTrip(b: seq<uint8>, k: nat)
    requires k % 2 == 0 && k + 1 < |b| <= 0x1_0000
    requires b[k] == 0 && b[k + 1] == 0
    ensures Checksum(b[k := Checksum(b) % 0x100][k + 1 := Checksum(b) / 0x100]) == 0
  {
    var c := Checksum(b);
    var b' := b[k := c % 0x100][k + 1 := c / 0x100];
    WordSumUpdate(b, k, c % 0x100, c / 0x100);
    assert WordSum(b') == WordSum(b) + c;
    WordSumBound(b);
    WordSumBound(b');
    FoldIsResidue(WordSum(b));
    FoldIsResidue(WordSum(b'));
    ResidueOfComplementedSum(WordSum(b));
  }

  // ---------------------------------------------------------------------------
  // The loop of `csum`.

  /** `csum(ptr, nbytes)` over the `nbytes` bytes of `buf` starting at `start`. */
  method Csum(buf: array<uint8>, start: nat, nbytes: nat) returns (answer: uint16)
    requires start + nbytes <= buf.Length
    ensures answer == Checksum(buf[start..start + nbytes])
  {
    var sum: nat := 0;
    var ptr := start;
    var n := nbytes;
    while n > 1
      invariant ptr + n == start + nbytes
      invariant sum + WordSum(buf[ptr..ptr + n]) == WordSum(buf[start..start + nbytes])
    {
      assert buf[ptr..ptr + n][2..] == buf[ptr + 2..ptr + n];
      assert WordSum(buf[ptr..ptr + n]) == buf[ptr] + buf[ptr + 1] as int * 0x100 + WordSum(buf[ptr + 2..ptr + n]);
      sum := sum + buf[ptr] + buf[ptr + 1] as int * 0x100;
      ptr := ptr + 2;
      n := n - 2;
    }
    assert WordSum(buf[ptr..ptr + n]) == if n == 1 then buf[ptr] as int else 0;
    if n == 1 {
      var oddbyte := buf[ptr];
      sum := sum + oddbyte;
    }
    assert sum == WordSum(buf[start..start + nbytes]);
    answer := FoldAndComplement(sum);
  }

  /** The end of `csum`: the two folds of the accumulator, then the complement
      truncated to 16 bits; for an accumulator below 2^32 this is the complement
      of its one's-complement residue. */
  method FoldAndComplement(sum: nat) returns (answer: uint16)
    ensures answer == 0xffff - Fold(sum) % 0x1_0000
    ensures sum < 0x1_0000_0000 ==> answer == 0xffff - Residue(sum)
  {
    if sum < 0x1_0000_0000 {
      FoldIsResidue(sum);
    }
    var s := sum / 0x1_0000 + sum % 0x1_0000;
    s := s + s / 0x1_0000;
    answer := 0xffff - s % 0x1_0000;
  }
}
