/**
 * 32-bit word primitives of the Simeck-R engine: the rotation and round
 * macros of simeckr.h, the byte swap applied to the block counter, the
 * fixed little-endian byte order used when bytes become words and back,
 * and the 64-to-32-bit split helper.
 */
module Words {

  /**
   * An unsigned 8-bit value (uint8_t) used as a table index or entry; bytes
   * that are combined by XOR are bv8 instead.
   */
  newtype byte = x: int | 0 <= x < 256

  /** Left rotation of a 32-bit word by r bits, as the LROT32 macro writes it. */
  function Rotl(x: bv32, r: nat): bv32
    requires 1 <= r <= 31
  {
    (x << r) | (x >> (32 - r))
  }

  /** Rotl by 1 is Dafny's rotation by 1, undone by a rotation by 31. */
  lemma RotlOne(x: bv32)
    ensures Rotl(x, 1) == x.RotateLeft(1)
    ensures Rotl(Rotl(x, 1), 31) == x
  {
  }

  /** Rotl by 5 is Dafny's rotation by 5, undone by a rotation by 27. */
  lemma RotlFive(x: bv32)
    ensures Rotl(x, 5) == x.RotateLeft(5)
    ensures Rotl(Rotl(x, 5), 27) == x
  {
  }

  /**
   * The non-linear part of a round: (x AND x<<<5) XOR x<<<1, with the two
   * rotations written out for their fixed amounts.
   */
  function Mix(x: bv32): bv32
  {
    (x & ((x << 5) | (x >> 27))) ^ ((x << 1) | (x >> 31))
  }

  /** Mix is the expression ROUND64 builds from LROT32(lft, 5) and LROT32(lft, 1). */
  lemma MixIsMacro(x: bv32)
    ensures Mix(x) == (x & Rotl(x, 5)) ^ Rotl(x, 1)
  {
  }

  /**
   * The ROUND64 macro as a value: given the round key and the old lft and
   * rgt, the pair (new lft, new rgt). Both halves are computed from the old
   * values, as the macro saves lft in tmp before overwriting it.
   */
  function Round64(key: bv32, lft: bv32, rgt: bv32): (r: (bv32, bv32))
    ensures r.1 == lft
  {
    (Mix(lft) ^ rgt ^ key, lft)
  }

  /** The inverse of one round under a fixed key. */
  function Round64Inverse(key: bv32, newLft: bv32, newRgt: bv32): (r: (bv32, bv32))
    ensures r.0 == newRgt
  {
    (newRgt, newLft ^ Mix(newRgt) ^ key)
  }

  /** Undoing a round under the same key gives the old halves back. */
  lemma Round64Invertible(key: bv32, lft: bv32, rgt: bv32)
    ensures Round64Inverse(key, Round64(key, lft, rgt).0, Round64(key, lft, rgt).1) == (lft, rgt)
  {
  }

  /** Every pair of halves is the result of some round: a round is onto. */
  lemma Round64Onto(key: bv32, lft: bv32, rgt: bv32)
    ensures Round64(key, Round64Inverse(key, lft, rgt).0, Round64Inverse(key, lft, rgt).1) == (lft, rgt)
  {
  }

  /** The key enters a round only by XOR. */
  lemma Round64KeyXor(key: bv32, d: bv32, lft: bv32, rgt: bv32)
    ensures Round64(key ^ d, lft, rgt).0 == Round64(key, lft, rgt).0 ^ d
    ensures Round64(key ^ d, lft, rgt).1 == Round64(key, lft, rgt).1
  {
  }

  /**
   * A table byte widened to a 32-bit word, as C promotes a uint8_t entry
   * before shifting it. It is counted up from zero rather than written as a
   * conversion from the integer byte, which keeps the solver's work on the
   * keystream proofs small; WidenIsCast shows it is that conversion.
   */
  function Widen(b: byte): bv32
  {
    if b == 0 then 0 else Widen(b - 1) + 1
  }

  /** Widening keeps the value. */
  lemma {:induction false} WidenValue(b: byte)
    ensures Widen(b) as int == b as int
  {
    if b > 0 {
      WidenValue(b - 1);
      SuccValue(Widen(b - 1));
    }
  }

  /** Widening is the conversion of the byte to a 32-bit word. */
  lemma WidenIsCast(b: byte)
    ensures Widen(b) == b as bv32
  {
    WidenValue(b);
  }

  lemma SuccValue(x: bv32)
    requires x as int < 255
    ensures (x + 1) as int == x as int + 1
  {
  }

  /** Byte j of a word, byte 0 being the least significant. */
  function ByteOf(w: bv32, j: nat): bv8
    requires j < 4
  {
    if j == 0 then (w & 0xFF) as bv8
    else if j == 1 then ((w >> 8) & 0xFF) as bv8
    else if j == 2 then ((w >> 16) & 0xFF) as bv8
    else ((w >> 24) & 0xFF) as bv8
  }

  /** A word is determined by its four bytes. */
  lemma WordFromBytes(a: bv32, b: bv32)
    requires forall j :: 0 <= j < 4 ==> ByteOf(a, j) == ByteOf(b, j)
    ensures a == b
  {
    assert ByteOf(a, 0) == ByteOf(b, 0);
    assert ByteOf(a, 1) == ByteOf(b, 1);
    assert ByteOf(a, 2) == ByteOf(b, 2);
    assert ByteOf(a, 3) == ByteOf(b, 3);
  }

  /** The byte reversal SimeckREncrypt applies to each counter half. */
  function Bswap(w: bv32): bv32
  {
    (w << 24) | (w >> 24) | ((w << 8) & 0xFF0000) | ((w >> 8) & 0xFF00)
  }

  /** Bswap moves byte j to position 3 - j. */
  lemma BswapByte(w: bv32, j: nat)
    requires j < 4
    ensures ByteOf(Bswap(w), j) == ByteOf(w, 3 - j)
  {
  }

  /** Bswap is its own inverse. */
  lemma BswapInvolution(w: bv32)
    ensures Bswap(Bswap(w)) == w
  {
  }

  /** Little-endian assembly of four bytes into a word. */
  function LeWord(b: seq<bv8>): bv32
    requires |b| == 4
  {
    (b[0] as bv32) | ((b[1] as bv32) << 8) | ((b[2] as bv32) << 16) | ((b[3] as bv32) << 24)
  }

  /** The four bytes of a word in little-endian order. */
  function WordBytes(w: bv32): (r: seq<bv8>)
    ensures |r| == 4
  {
    seq(4, j requires 0 <= j < 4 => ByteOf(w, j))
  }

  lemma WordBytesAt(w: bv32, j: nat)
    requires j < 4
    ensures WordBytes(w)[j] == ByteOf(w, j)
  {
  }

  lemma LeWordByte(b: seq<bv8>, j: nat)
    requires |b| == 4 && j < 4
    ensures ByteOf(LeWord(b), j) == b[j]
  {
  }

  /** LeWord and WordBytes are inverse to each other. */
  lemma LeWordRoundTrip(b: seq<bv8>, w: bv32)
    requires |b| == 4
    ensures WordBytes(LeWord(b)) == b
    ensures LeWord(WordBytes(w)) == w
  {
    forall j | 0 <= j < 4
      ensures WordBytes(LeWord(b))[j] == b[j]
    {
      LeWordByte(b, j);
    }
    forall j | 0 <= j < 4
      ensures ByteOf(LeWord(WordBytes(w)), j) == ByteOf(w, j)
    {
      LeWordByte(WordBytes(w), j);
    }
    WordFromBytes(LeWord(WordBytes(w)), w);
  }

  /** The low byte of an XOR is the XOR of the low bytes. */
  lemma LowByteXor(a: bv32, b: bv32)
    ensures ((a ^ b) & 0xFF) as bv8 == (a & 0xFF) as bv8 ^ (b & 0xFF) as bv8
  {
  }

  /** Byte j of an XOR is the XOR of the bytes j. */
  lemma ByteXor(a: bv32, b: bv32, j: nat)
    requires j < 4
    ensures ByteOf(a ^ b, j) == ByteOf(a, j) ^ ByteOf(b, j)
  {
    if j == 0 {
      LowByteXor(a, b);
    } else if j == 1 {
      assert (a ^ b) >> 8 == (a >> 8) ^ (b >> 8);
      LowByteXor(a >> 8, b >> 8);
    } else if j == 2 {
      assert (a ^ b) >> 16 == (a >> 16) ^ (b >> 16);
      LowByteXor(a >> 16, b >> 16);
    } else {
      assert (a ^ b) >> 24 == (a >> 24) ^ (b >> 24);
      LowByteXor(a >> 24, b >> 24);
    }
  }

  /** XOR of words is XOR of their bytes, position by position. */
  lemma WordBytesXor(a: bv32, b: bv32, j: nat)
    requires j < 4
    ensures WordBytes(a ^ b)[j] == WordBytes(a)[j] ^ WordBytes(b)[j]
  {
    ByteXor(a, b, j);
    WordBytesAt(a ^ b, j);
    WordBytesAt(a, j);
    WordBytesAt(b, j);
  }

  /** XORing the same word twice cancels: the keystream round trip, on words. */
  lemma XorTwice(k: bv32, p: bv32)
    ensures k ^ (k ^ p) == p
  {
  }

  /** The keystream round trip, on bytes. */
  lemma XorTwiceByte(k: bv8, p: bv8)
    ensures k ^ (k ^ p) == p
  {
  }

  /** A keystream word shared by two messages cancels from their XOR. */
  lemma XorLeak(k: bv32, p: bv32, q: bv32)
    ensures (k ^ p) ^ (k ^ q) == p ^ q
  {
  }

  /** A shared keystream byte cancels from the XOR of two messages. */
  lemma XorLeakByte(k: bv8, p: bv8, q: bv8)
    ensures (k ^ p) ^ (k ^ q) == p ^ q
  {
  }

  /** The bytes of s as 8-bit vectors. */
  function Bits(s: seq<byte>): (r: seq<bv8>)
    ensures |r| == |s|
  {
    seq(|s|, i requires 0 <= i < |s| => s[i] as bv8)
  }

  /**
   * copy_bytes_to_uint32: word i of the destination is built from source
   * bytes 4i..4i+3 through a union, so on the little-endian hosts the tool
   * targets it is their little-endian word, and its bytes are those four
   * source bytes again. Later destination words are left alone.
   */
  method CopyBytesToWords(source: seq<bv8>, destination: array<bv32>, elements: nat)
    requires 4 * elements <= |source| && elements <= destination.Length
    modifies destination
    ensures forall i :: 0 <= i < elements ==> destination[i] == LeWord(source[4 * i..4 * i + 4])
    ensures forall i :: 0 <= i < elements ==> WordBytes(destination[i]) == source[4 * i..4 * i + 4]
    ensures forall i :: elements <= i < destination.Length ==> destination[i] == old(destination[i])
  {
    var i := 0;
    while i < elements
      invariant 0 <= i <= elements
      invariant forall p :: 0 <= p < i ==> destination[p] == LeWord(source[4 * p..4 * p + 4])
      invariant forall p :: 0 <= p < i ==> WordBytes(destination[p]) == source[4 * p..4 * p + 4]
      invariant forall p :: elements <= p < destination.Length ==> destination[p] == old(destination[p])
    {
      var parts: seq<bv8> := [];
      var j := 0;
      while j < 4
        invariant 0 <= j <= 4
        invariant parts == source[i * 4..i * 4 + j]
      {
        parts := parts + [source[i * 4 + j]];
        j := j + 1;
      }
      destination[i] := LeWord(parts);
      LeWordRoundTrip(parts, 0);
      i := i + 1;
    }
  }

  /**
   * split_uint64_to_uint32: the low and the high half of a 64-bit word;
   * putting high above low gives the input back (high * 2^32 + low).
   */
  function Split64(input: bv64): (r: (bv32, bv32))
    ensures ((r.1 as bv64) << 32) | (r.0 as bv64) == input
  {
    ((input & 0xFFFFFFFF) as bv32, (input >> 32) as bv32)
  }
}
