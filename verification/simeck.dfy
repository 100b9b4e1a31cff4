/**
 * SimeckEncrypt: the iterated Simeck64-style round over a two-word block,
 * driven by a four-word key register that the call advances in place and
 * leaves advanced for the next call, and by round constants drawn from the
 * 44-bit LFSR word 0x938BCA3083F, restarted on every call.
 */
module Simeck {
  import opened Words

  /** The LFSR word the round constants are taken from, one bit per round. */
  const LFSR_SEED: bv64 := 0x938BCA3083F

  /** The constant's upper 30 bits are ones and bit 1 is zero. */
  const CONSTANT_MASK: bv32 := 0xFFFFFFFC

  /** A block v[0], v[1]. */
  datatype Block = Block(w0: bv32, w1: bv32)

  /** The key register k[0..3]. */
  type Register = k: seq<bv32> | |k| == 4 witness [0, 0, 0, 0]

  /** The value of `sequence` at the start of round i: the seed shifted right i times. */
  function SequenceAt(i: nat): bv64
  {
    if i == 0 then LFSR_SEED else SequenceAt(i - 1) >> 1
  }

  /** The constant of round i: the mask with the low bit of `sequence` or-ed in. */
  function RoundConstant(i: nat): bv32
  {
    CONSTANT_MASK | (SequenceAt(i) & 1) as bv32
  }

  /** One more shift by one is a shift by n + 1 (split by range of n to keep the bit-level proof small). */
  lemma ShiftRightStep(x: bv64, n: bv64)
    requires n < 63
    ensures (x >> n) >> 1 == x >> (n + 1)
  {
    if n < 16 {
      ShiftRightLow(x, n);
    } else if n < 32 {
      ShiftRightMid(x, n);
    }
  }

  lemma ShiftRightLow(x: bv64, n: bv64)
    requires n < 16
    ensures (x >> n) >> 1 == x >> (n + 1)
  {
  }

  lemma ShiftRightMid(x: bv64, n: bv64)
    requires 16 <= n < 32
    ensures (x >> n) >> 1 == x >> (n + 1)
  {
  }

  lemma Predecessor(n: bv64)
    requires 0 < n < 64
    ensures (n - 1) as nat == n as nat - 1
  {
  }

  /**
   * In closed form, `sequence` at round n is the seed shifted right n
   * times, so the constant of round n is 0xFFFFFFFC | ((0x938BCA3083F >> n) & 1).
   */
  lemma {:induction false} SequenceClosed(n: bv64)
    requires n < 64
    ensures SequenceAt(n as nat) == LFSR_SEED >> n
    ensures RoundConstant(n as nat) == CONSTANT_MASK | ((LFSR_SEED >> n) & 1) as bv32
    decreases n as nat
  {
    if n > 0 {
      Predecessor(n);
      SequenceClosed(n - 1);
      ShiftRightStep(LFSR_SEED, n - 1);
    }
  }

  /** The LFSR word has 44 bits: after 44 shifts nothing is left. */
  lemma SequenceDrained()
    ensures SequenceAt(44) == 0
  {
    SequenceClosed(44);
  }

  lemma {:induction false} SequenceStaysDrained(i: nat)
    requires i >= 44
    ensures SequenceAt(i) == 0
  {
    if i == 44 {
      SequenceDrained();
    } else {
      SequenceStaysDrained(i - 1);
    }
  }

  /**
   * Every round constant is 0xFFFFFFFC or 0xFFFFFFFD, so bit 1 is always
   * zero; from round 44 on it is 0xFFFFFFFC.
   */
  lemma RoundConstantShape(i: nat)
    ensures RoundConstant(i) == CONSTANT_MASK || RoundConstant(i) == CONSTANT_MASK | 1
    ensures RoundConstant(i) & 2 == 0
    ensures i >= 44 ==> RoundConstant(i) == CONSTANT_MASK
  {
    if i >= 44 {
      SequenceStaysDrained(i);
    }
  }

  /** The data half of round: ROUND64(k[0], ciphertext[1], ciphertext[0]). */
  function DataRound(b: Block, key: bv32): (r: Block)
    ensures r.w0 == b.w1
  {
    var r := Round64(key, b.w1, b.w0);
    Block(r.1, r.0)
  }

  /** Undoes DataRound under the same key. */
  function DataRoundInverse(b: Block, key: bv32): Block
  {
    var (lft, rgt) := Round64Inverse(key, b.w1, b.w0);
    Block(rgt, lft)
  }

  lemma DataRoundInvertible(b: Block, key: bv32)
    ensures DataRoundInverse(DataRound(b, key), key) == b
  {
    Round64Invertible(key, b.w1, b.w0);
  }

  /**
   * The key half of round i: ROUND64(constant, k[1], k[0]) followed by the
   * rotation of k[1..3], which moves the new k[1] to k[3].
   */
  function KeyRound(k: Register, i: nat): Register
  {
    var r := Round64(RoundConstant(i), k[1], k[0]);
    [r.1, k[2], k[3], r.0]
  }

  /** The register moves down one word and the new word enters at k[3]. */
  lemma KeyRoundShifts(k: Register, i: nat)
    ensures KeyRound(k, i) == [k[1], k[2], k[3], Mix(k[1]) ^ k[0] ^ RoundConstant(i)]
  {
  }

  /** Rounds i, i+1, ..., n-1 applied to block b and register k. */
  function Iterate(b: Block, k: Register, i: nat, n: nat): (Block, Register)
    decreases n - i
  {
    if i >= n then (b, k)
    else Iterate(DataRound(b, k[0]), KeyRound(k, i), i + 1, n)
  }

  /** SimeckEncrypt(v, k) with `rounds` rounds: the new block and the new register. */
  function Encrypt(v: Block, k: Register, rounds: nat): (Block, Register)
  {
    var r := Iterate(v, k, 0, rounds);
    (Block(r.0.w0 ^ v.w0, r.0.w1 ^ v.w1), r.1)
  }

  /** The register's evolution does not depend on the block. */
  lemma {:induction false} IterateRegisterIndependent(b1: Block, b2: Block, k: Register, i: nat, n: nat)
    ensures Iterate(b1, k, i, n).1 == Iterate(b2, k, i, n).1
    decreases n - i
  {
    if i < n {
      IterateRegisterIndependent(DataRound(b1, k[0]), DataRound(b2, k[0]), KeyRound(k, i), i + 1, n);
    }
  }

  /** For a given register, the rounds map distinct blocks to distinct blocks. */
  lemma {:induction false} IterateInjective(b1: Block, b2: Block, k: Register, i: nat, n: nat)
    requires Iterate(b1, k, i, n).0 == Iterate(b2, k, i, n).0
    ensures b1 == b2
    decreases n - i
  {
    if i < n {
      IterateInjective(DataRound(b1, k[0]), DataRound(b2, k[0]), KeyRound(k, i), i + 1, n);
      DataRoundInvertible(b1, k[0]);
      DataRoundInvertible(b2, k[0]);
    }
  }

  /** One round unfolded at the front. */
  lemma IterateStep(b: Block, k: Register, i: nat, n: nat)
    requires i < n
    ensures Iterate(b, k, i, n) == Iterate(DataRound(b, k[0]), KeyRound(k, i), i + 1, n)
  {
  }

  /** One step of the LFSR. */
  lemma SequenceNext(i: nat)
    ensures SequenceAt(i + 1) == SequenceAt(i) >> 1
  {
  }

  /** Clearing the low two bits of a constant and or-ing in the LFSR bit gives the next constant. */
  lemma ConstantUpdate(c: bv32, sequence: bv64)
    requires c == CONSTANT_MASK || c == CONSTANT_MASK | 1
    ensures (c & 0xFFFFFFFC) | (sequence & 1) as bv32 == CONSTANT_MASK | (sequence & 1) as bv32
  {
  }

  /** The or-ed constant is again one of the two possible values. */
  lemma ConstantRange(sequence: bv64)
    ensures var c := CONSTANT_MASK | (sequence & 1) as bv32; c == CONSTANT_MASK || c == CONSTANT_MASK | 1
  {
  }

  lemma LfsrStep(c: bv32, s: bv64, i: nat)
    requires c == CONSTANT_MASK || c == CONSTANT_MASK | 1
    requires s == SequenceAt(i)
    ensures (c & 0xFFFFFFFC) | (s & 1) as bv32 == RoundConstant(i)
    ensures RoundConstant(i) == CONSTANT_MASK || RoundConstant(i) == CONSTANT_MASK | 1
    ensures s >> 1 == SequenceAt(i + 1)
  {
    ConstantUpdate(c, s);
    ConstantRange(s);
    SequenceNext(i);
  }

  /**
   * The loop of SimeckEncrypt: `rounds` rounds on the block (ciphertext[0],
   * ciphertext[1]) while the register k is advanced in place.
   */
  method RunRounds(c0: bv32, c1: bv32, k: array<bv32>, rounds: nat) returns (ciphertext0: bv32, ciphertext1: bv32)
    requires k.Length == 4
    modifies k
    ensures (Block(ciphertext0, ciphertext1), k[..]) == Iterate(Block(c0, c1), old(k[..]), 0, rounds)
  {
    ciphertext0, ciphertext1 := c0, c1;
    var constant: bv32 := 0xFFFFFFFC;
    var sequence: bv64 := 0x938BCA3083F;
    ghost var target := Iterate(Block(c0, c1), k[..], 0, rounds);
    var idx := 0;
    while idx < rounds
      invariant 0 <= idx <= rounds
      invariant sequence == SequenceAt(idx)
      invariant constant == CONSTANT_MASK || constant == CONSTANT_MASK | 1
      invariant Iterate(Block(ciphertext0, ciphertext1), k[..], idx, rounds) == target
    {
      ghost var before: Register := k[..];
      IterateStep(Block(ciphertext0, ciphertext1), before, idx, rounds);
      var data := Round64(k[0], ciphertext1, ciphertext0);
      ciphertext1, ciphertext0 := data.0, data.1;

      LfsrStep(constant, sequence, idx);
      constant := constant & 0xFFFFFFFC;
      constant := constant | (sequence & 1) as bv32;
      sequence := sequence >> 1;

      var key := Round64(constant, k[1], k[0]);
      k[1], k[0] := key.0, key.1;

      // rotate the LFSR of keys
      var temp := k[1];
      k[1] := k[2];
      k[2] := k[3];
      k[3] := temp;
      assert k[..] == [before[1], before[2], before[3], key.0];
      idx := idx + 1;
    }
  }

  /**
   * SimeckEncrypt(v, k): runs `rounds` rounds on a copy of the block while
   * advancing the register k in place, then XORs the result into v.
   */
  method SimeckEncrypt(v: array<bv32>, k: array<bv32>, rounds: nat)
    requires v.Length == 2 && k.Length == 4 && v != k
    modifies v, k
    ensures Block(v[0], v[1]) == Encrypt(Block(old(v[0]), old(v[1])), old(k[..]), rounds).0
    ensures k[..] == Encrypt(Block(old(v[0]), old(v[1])), old(k[..]), rounds).1
  {
    var ciphertext0, ciphertext1 := RunRounds(v[0], v[1], k, rounds);
    v[0] := ciphertext0 ^ v[0];
    v[1] := ciphertext1 ^ v[1];
  }
}
