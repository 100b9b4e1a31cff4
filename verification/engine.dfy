/**
 * The Simeck-R session: the context SimeckInit fills from a password
 * (three S-boxes scheduled from a chain of Argon2i digests, counters at
 * zero) and SimeckREncrypt, which turns the 64-bit block counter into one
 * 64-bit keystream block, XORs it into the plaintext block, advances the
 * counter and the key register, and ages the S-boxes every 2000 blocks.
 */
module Engine {
  import opened Words
  import opened Permutation
  import opened Rc4d
  import opened Simeck

  /** Sbox1 is re-composed with Sbox2 every AGE1 blocks. */
  const AGE1: nat := 2000
  /** Sbox2 is re-composed with Sbox3 every AGE2 = 2000 * 2000 blocks. */
  const AGE2: nat := 4000000

  /** The Argon2i cost parameters SimeckInit stores and uses. */
  const T_COST: nat := 20
  const M_COST: nat := 65536
  const PARALLELISM: nat := 1

  /** ARGON_HASHLEN and ARGON_SALTLEN. */
  const HASH_LEN: nat := 32
  const SALT_LEN: nat := 16

  /** An Argon2i digest of ARGON_HASHLEN bytes. */
  type Digest = s: seq<byte> | |s| == HASH_LEN witness seq(32, i => 0)

  /** The cost parameters passed to every Argon2i call. */
  datatype Argon2Params = Argon2Params(tCost: nat, mCost: nat, parallelism: nat)

  /**
   * argon2i_hash_raw as seen by SimeckInit: cost parameters, input bytes
   * and salt to a 32-byte digest. The hash itself is not modelled.
   */
  type Hasher = (Argon2Params, seq<byte>, seq<byte>) -> Digest

  /** The three S-boxes of a simeckr_ctx with the epoch counters it1 and it2 that age them. */
  datatype Tables = Tables(it1: nat, it2: nat, sbox1: SBox, sbox2: SBox, sbox3: SBox)

  /** The abstract value of a simeckr_ctx: tables, block counter NL:NR and key register. */
  datatype State = State(tables: Tables, nl: bv32, nr: bv32, key: Register)

  /**
   * What every SimeckREncrypt keeps: the short epoch counter below 2000, the
   * long one below 2000 * 2000 and in step with the short one, and the three
   * tables permutations of the byte values.
   */
  ghost predicate TablesInv(t: Tables)
  {
    && t.it1 < AGE1
    && t.it2 < AGE2
    && t.it2 % AGE1 == t.it1
    && IsPermutation(t.sbox1)
    && IsPermutation(t.sbox2)
    && IsPermutation(t.sbox3)
  }

  ghost predicate Inv(st: State)
  {
    TablesInv(st.tables)
  }

  /* ---------------------------------------------------------------- */
  /* SimeckInit                                                        */
  /* ---------------------------------------------------------------- */

  /** The parameters SimeckInit stores in the context. */
  function InitParams(): Argon2Params
  {
    Argon2Params(T_COST, M_COST, PARALLELISM)
  }

  /** The all-zero salt. */
  function ZeroSalt(): (s: seq<byte>)
    ensures |s| == SALT_LEN
    ensures forall i :: 0 <= i < SALT_LEN ==> s[i] == 0
  {
    seq(SALT_LEN, i => 0)
  }

  /** The 12 key bytes K = hash[12..24] each table is scheduled from. */
  function TableKey(h: Digest): (k: seq<byte>)
    ensures |k| == 12
    ensures forall i :: 0 <= i < 12 ==> k[i] == h[i + 12]
  {
    h[12..24]
  }

  /** The first digest: Argon2i of the password. */
  function FirstDigest(password: seq<byte>, argon2: Hasher): Digest
  {
    argon2(InitParams(), password, ZeroSalt())
  }

  /** Each later digest is Argon2i of the previous digest. */
  function NextDigest(h: Digest, argon2: Hasher): Digest
  {
    argon2(InitParams(), h, ZeroSalt())
  }

  /**
   * The state SimeckInit produces: counters at zero, table i scheduled from
   * bytes 12..23 of the i-th digest of the chain, and the key register as
   * it was (SimeckInit never writes derived_key_r).
   */
  function InitState(password: seq<byte>, argon2: Hasher, key: Register): (st: State)
    ensures st.tables.it1 == 0 && st.tables.it2 == 0 && st.nl == 0 && st.nr == 0
    ensures st.key == key
  {
    var h1 := FirstDigest(password, argon2);
    var h2 := NextDigest(h1, argon2);
    var h3 := NextDigest(h2, argon2);
    State(Tables(0, 0, Ksa(TableKey(h1)), Ksa(TableKey(h2)), Ksa(TableKey(h3))), 0, 0, key)
  }

  /** InitState from the three digests of the chain. */
  lemma InitStateIs(password: seq<byte>, argon2: Hasher, key: Register, h1: Digest, h2: Digest, h3: Digest)
    requires h1 == argon2(InitParams(), password, ZeroSalt())
    requires h2 == argon2(InitParams(), h1, ZeroSalt()) && h3 == argon2(InitParams(), h2, ZeroSalt())
    ensures InitState(password, argon2, key) == State(Tables(0, 0, Ksa(TableKey(h1)), Ksa(TableKey(h2)), Ksa(TableKey(h3))), 0, 0, key)
  {
  }

  /** A freshly initialised state satisfies the invariant. */
  lemma InitStateInv(password: seq<byte>, argon2: Hasher, key: Register)
    ensures Inv(InitState(password, argon2, key))
  {
    var h1 := FirstDigest(password, argon2);
    var h2 := NextDigest(h1, argon2);
    var h3 := NextDigest(h2, argon2);
    KsaIsPermutation(TableKey(h1));
    KsaIsPermutation(TableKey(h2));
    KsaIsPermutation(TableKey(h3));
  }

  /**
   * The tables are chained: they depend on the password only through the
   * first digest, so two passwords with the same digest give the same state.
   */
  lemma InitChained(p1: seq<byte>, p2: seq<byte>, argon2: Hasher, key: Register)
    requires FirstDigest(p1, argon2) == FirstDigest(p2, argon2)
    ensures InitState(p1, argon2, key) == InitState(p2, argon2, key)
  {
  }

  /* ---------------------------------------------------------------- */
  /* SimeckREncrypt                                                    */
  /* ---------------------------------------------------------------- */

  /** Byte j of w as a table index. */
  function IndexOf(w: bv32, j: nat): (r: nat)
    requires j < 4
    ensures r < 256
  {
    ByteOf(w, j) as nat
  }

  /**
   * Each byte of w replaced by its image under the table, in place:
   * S[w>>24] << 24 | S[w>>16 & 0xFF] << 16 | S[w>>8 & 0xFF] << 8 | S[w & 0xFF].
   */
  function Substitute(s: SBox, w: bv32): bv32
  {
    (Widen(s[IndexOf(w, 3)]) << 24)
    | (Widen(s[IndexOf(w, 2)]) << 16)
    | (Widen(s[IndexOf(w, 1)]) << 8)
    | Widen(s[IndexOf(w, 0)])
  }

  /** The block SimeckEncrypt receives: NR and NL, each byte-reversed. */
  function Counter(st: State): Block
  {
    Block(Bswap(st.nr), Bswap(st.nl))
  }

  /**
   * The counter block holds NR in word 0 and NL in word 1, each with its
   * bytes in reverse order.
   */
  lemma CounterReversed(st: State, j: nat)
    requires j < 4
    ensures ByteOf(Counter(st).w0, j) == ByteOf(st.nr, 3 - j)
    ensures ByteOf(Counter(st).w1, j) == ByteOf(st.nl, 3 - j)
  {
    BswapByte(st.nr, j);
    BswapByte(st.nl, j);
  }

  /** SimeckEncrypt applied to the counter block under the current key register. */
  function Encrypted(st: State, rounds: nat): (Block, Register)
  {
    Encrypt(Counter(st), st.key, rounds)
  }

  /**
   * The ciphertext block SimeckREncrypt computes from the plaintext block:
   * with (e0, e1) the encrypted counter, Ct[0] = e0 ^ (Sub(e1) ^ Pt[0]) and
   * Ct[1] = e1 ^ (Sub(e0) ^ Pt[1]).
   */
  function Cipher(st: State, pt: Block, rounds: nat): Block
  {
    Masked(Encrypted(st, rounds).0, st.tables.sbox1, pt)
  }

  /**
   * The middle of SimeckREncrypt, from the encrypted counter e in Ct: the
   * two words are read back crosswise and swapped, each is substituted
   * bytewise through the table, and each is XORed with a plaintext word
   * into the other word of Ct.
   */
  function Masked(e: Block, s: SBox, pt: Block): Block
  {
    var x, y := e.w1, e.w0;
    var aux := x;
    var x, y := y, aux;
    var y := Substitute(s, y);
    var c0 := e.w0 ^ (y ^ pt.w0);
    var x := Substitute(s, x);
    var c1 := e.w1 ^ (x ^ pt.w1);
    Block(c0, c1)
  }

  /** The keystream block of a state: what Cipher XORs into the plaintext. */
  function Keystream(st: State, rounds: nat): Block
  {
    var e := Encrypted(st, rounds).0;
    Block(e.w0 ^ Substitute(st.tables.sbox1, e.w1), e.w1 ^ Substitute(st.tables.sbox1, e.w0))
  }

  /**
   * The epoch update after a block: both counters advance; when the short
   * one reaches 2000, Sbox1 becomes Sbox2 after Sbox1 and the short counter
   * restarts, and when at that moment the long one reaches 2000 * 2000,
   * Sbox2 becomes Sbox3 after Sbox2 and the long counter restarts.
   */
  function Age(t: Tables): Tables
  {
    var it1, it2 := t.it1 + 1, t.it2 + 1;
    if it1 == AGE1 then
      if it2 == AGE2 then
        Tables(0, 0, Compose(t.sbox2, t.sbox1), Compose(t.sbox3, t.sbox2), t.sbox3)
      else
        Tables(0, it2, Compose(t.sbox2, t.sbox1), t.sbox2, t.sbox3)
    else
      Tables(it1, it2, t.sbox1, t.sbox2, t.sbox3)
  }

  /**
   * The state after one SimeckREncrypt: the epoch update, NL unchanged, NR
   * advanced modulo 2^32 and the key register as SimeckEncrypt left it.
   */
  function Next(st: State, rounds: nat): State
  {
    State(Age(st.tables), st.nl, st.nr + 1, Encrypted(st, rounds).1)
  }

  /**
   * One block moves the counter NR on by one modulo 2^32 and changes
   * neither NL nor Sbox3.
   */
  lemma NextCounters(st: State, rounds: nat)
    ensures Next(st, rounds).nr - st.nr == 1
    ensures st.nr == 0xFFFF_FFFF ==> Next(st, rounds).nr == 0
    ensures Next(st, rounds).nl == st.nl
    ensures Next(st, rounds).tables.sbox3 == st.tables.sbox3
  {
  }

  /** The state after n blocks. */
  function StepN(st: State, n: nat, rounds: nat): State
  {
    if n == 0 then st else Next(StepN(st, n - 1, rounds), rounds)
  }

  /** The tables after n epoch updates. */
  function AgeN(t: Tables, n: nat): Tables
  {
    if n == 0 then t else Age(AgeN(t, n - 1))
  }

  /* ---------------------------------------------------------------- */
  /* Properties of one block                                           */
  /* ---------------------------------------------------------------- */

  /** Word j of a block: Ct[0] or Ct[1]. */
  function Word(b: Block, j: nat): bv32
    requires j < 2
  {
    if j == 0 then b.w0 else b.w1
  }

  /** Each ciphertext word is the plaintext word XOR the keystream word. */
  lemma CipherIsKeystreamXor(st: State, pt: Block, rounds: nat, j: nat)
    requires j < 2
    ensures Word(Cipher(st, pt, rounds), j) == Word(Keystream(st, rounds), j) ^ Word(pt, j)
  {
    if j == 0 {
    } else {
    }
  }

  /** Encrypting the ciphertext from the same state gives the plaintext back. */
  lemma CipherRoundTrip(st: State, pt: Block, rounds: nat, j: nat)
    requires j < 2
    ensures Word(Cipher(st, Cipher(st, pt, rounds), rounds), j) == Word(pt, j)
  {
    var ct := Cipher(st, pt, rounds);
    CipherIsKeystreamXor(st, pt, rounds, j);
    CipherIsKeystreamXor(st, ct, rounds, j);
    XorTwice(Word(Keystream(st, rounds), j), Word(pt, j));
  }

  /**
   * Two plaintexts under the same state: the ciphertext words differ by
   * what the plaintext words differ by, so the keystream of a state is
   * exposed by any known plaintext.
   */
  lemma CipherXorLeak(st: State, p: Block, q: Block, rounds: nat, j: nat)
    requires j < 2
    ensures Word(Cipher(st, p, rounds), j) ^ Word(Cipher(st, q, rounds), j) == Word(p, j) ^ Word(q, j)
  {
    CipherIsKeystreamXor(st, p, rounds, j);
    CipherIsKeystreamXor(st, q, rounds, j);
    XorLeak(Word(Keystream(st, rounds), j), Word(p, j), Word(q, j));
  }

  /** The key register's next value depends only on the register, not on the counters. */
  lemma NextKeyIndependent(st1: State, st2: State, rounds: nat)
    requires st1.key == st2.key
    ensures Next(st1, rounds).key == Next(st2, rounds).key
  {
    IterateRegisterIndependent(Counter(st1), Counter(st2), st1.key, 0, rounds);
  }

  /** The counter arithmetic of the epoch update. */
  lemma AgeCounters(it1: nat, it2: nat)
    requires it1 < AGE1 && it2 < AGE2 && it2 % AGE1 == it1
    ensures it1 + 1 == AGE1 ==> (it2 + 1) % AGE1 == 0
    ensures it1 + 1 < AGE1 ==> it2 + 1 < AGE2 && (it2 + 1) % AGE1 == it1 + 1
    ensures it2 + 1 == AGE2 ==> it1 + 1 == AGE1
  {
  }

  /** The epoch update keeps the invariant. */
  lemma AgeInv(t: Tables)
    requires TablesInv(t)
    ensures TablesInv(Age(t))
  {
    AgeCounters(t.it1, t.it2);
    if t.it1 + 1 == AGE1 {
      ComposePreservesPermutation(t.sbox2, t.sbox1);
      ComposePreservesPermutation(t.sbox3, t.sbox2);
    }
  }

  /* ---------------------------------------------------------------- */
  /* Properties of a stream of blocks                                  */
  /* ---------------------------------------------------------------- */

  /**
   * After n blocks NL and Sbox3 are unchanged and the tables are those of
   * n epoch updates: the ageing does not depend on the data or the key.
   */
  lemma {:induction false} StepNTables(st: State, n: nat, rounds: nat)
    ensures StepN(st, n, rounds).tables == AgeN(st.tables, n)
    ensures StepN(st, n, rounds).nl == st.nl
    ensures StepN(st, n, rounds).tables.sbox3 == st.tables.sbox3
  {
    if n > 0 {
      StepNTables(st, n - 1, rounds);
    }
  }

  /** n blocks after the first block are n + 1 blocks. */
  lemma {:induction false} StepNFirst(st: State, n: nat, rounds: nat)
    ensures StepN(Next(st, rounds), n, rounds) == StepN(st, n + 1, rounds)
  {
    if n > 0 {
      StepNFirst(st, n - 1, rounds);
    }
  }

  /** The invariant holds after any number of epoch updates. */
  lemma {:induction false} AgeNInv(t: Tables, n: nat)
    requires TablesInv(t)
    ensures TablesInv(AgeN(t, n))
  {
    if n > 0 {
      AgeNInv(t, n - 1);
      AgeInv(AgeN(t, n - 1));
    }
  }

  /** The invariant holds after any number of blocks. */
  lemma StepNInv(st: State, n: nat, rounds: nat)
    requires Inv(st)
    ensures Inv(StepN(st, n, rounds))
  {
    StepNTables(st, n, rounds);
    AgeNInv(st.tables, n);
  }

  /** a updates and then b more are a + b updates. */
  lemma {:induction false} AgeNAdd(t: Tables, a: nat, b: nat)
    ensures AgeN(AgeN(t, a), b) == AgeN(t, a + b)
    decreases b
  {
    if b > 0 {
      AgeNAdd(t, a, b - 1);
    }
  }

  /**
   * While the short counter does not reach 2000 the tables stay as they are
   * and both counters count the blocks.
   */
  lemma {:induction false} QuietSteps(t: Tables, n: nat)
    requires t.it1 + n < AGE1
    ensures AgeN(t, n) == Tables(t.it1 + n, t.it2 + n, t.sbox1, t.sbox2, t.sbox3)
  {
    if n > 0 {
      QuietSteps(t, n - 1);
    }
  }

  /**
   * One epoch: 2000 blocks from a restarted short counter compose Sbox2
   * into Sbox1 exactly once, and Sbox3 into Sbox2 exactly when the long
   * counter reaches 2000 * 2000 at the end of the epoch.
   */
  lemma Epoch(t: Tables)
    requires t.it1 == 0 && t.it2 + AGE1 <= AGE2
    ensures AgeN(t, AGE1)
         == if t.it2 + AGE1 == AGE2
            then Tables(0, 0, Compose(t.sbox2, t.sbox1), Compose(t.sbox3, t.sbox2), t.sbox3)
            else Tables(0, t.it2 + AGE1, Compose(t.sbox2, t.sbox1), t.sbox2, t.sbox3)
  {
    QuietSteps(t, AGE1 - 1);
    assert AgeN(t, AGE1) == Age(AgeN(t, AGE1 - 1));
  }

  /**
   * m whole epochs from the start of a long period (m < 2000): Sbox2 and
   * Sbox3 unchanged, the short counter at zero, the long one at 2000 m.
   */
  lemma {:induction false} LongQuiet(t: Tables, m: nat)
    requires t.it1 == 0 && t.it2 == 0 && m < AGE1
    ensures AgeN(t, m * AGE1).sbox2 == t.sbox2
    ensures AgeN(t, m * AGE1).sbox3 == t.sbox3
    ensures AgeN(t, m * AGE1).it1 == 0
    ensures AgeN(t, m * AGE1).it2 == m * AGE1
  {
    if m > 0 {
      LongQuiet(t, m - 1);
      Epoch(AgeN(t, (m - 1) * AGE1));
      AgeNAdd(t, (m - 1) * AGE1, AGE1);
    }
  }

  /**
   * The long period: 2000 * 2000 blocks from restarted counters compose
   * Sbox3 into Sbox2 once and bring both counters back to zero.
   */
  lemma LongPeriod(t: Tables)
    requires t.it1 == 0 && t.it2 == 0
    ensures AgeN(t, AGE2).sbox2 == Compose(t.sbox3, t.sbox2)
    ensures AgeN(t, AGE2).sbox3 == t.sbox3
    ensures AgeN(t, AGE2).it1 == 0 && AgeN(t, AGE2).it2 == 0
  {
    LongQuiet(t, AGE1 - 1);
    Epoch(AgeN(t, (AGE1 - 1) * AGE1));
    AgeNAdd(t, (AGE1 - 1) * AGE1, AGE1);
  }

  /* ---------------------------------------------------------------- */
  /* The context object                                                */
  /* ---------------------------------------------------------------- */

  /**
   * for (i = 0; i < 256; i++) inner[i] = outer[inner[i]]: the table inner
   * replaced, entry by entry, by outer after inner.
   */
  method ComposeInPlace(inner: array<byte>, outer: array<byte>)
    requires inner.Length == 256 && outer.Length == 256 && inner != outer
    modifies inner
    ensures inner[..] == Compose(outer[..], old(inner[..]))
  {
    var i := 0;
    while i < 256
      invariant 0 <= i <= 256
      invariant forall p :: 0 <= p < i ==> inner[p] == outer[old(inner[p]) as int]
      invariant forall p :: i <= p < 256 ==> inner[p] == old(inner[p])
    {
      inner[i] := outer[inner[i] as int];
      i := i + 1;
    }
  }

  /**
   * simeckr_ctx: epoch counters, block counter, the three S-boxes, the key
   * register derived_key_r and the stored Argon2i costs.
   */
  class Ctx {
    var it1: nat
    var it2: nat
    var nl: bv32
    var nr: bv32
    const sbox1: array<byte>
    const sbox2: array<byte>
    const sbox3: array<byte>
    const derivedKey: array<bv32>
    var tCost: nat
    var mCost: nat
    var parallelism: nat

    /** The arrays have the sizes the struct declares and are separate tables. */
    ghost predicate Shaped()
      reads this
    {
      && sbox1.Length == 256 && sbox2.Length == 256 && sbox3.Length == 256
      && derivedKey.Length == 4
      && sbox1 != sbox2 && sbox1 != sbox3 && sbox2 != sbox3
    }

    /** The value the context holds. */
    ghost function Abstract(): State
      requires Shaped()
      reads this, sbox1, sbox2, sbox3, derivedKey
    {
      State(Tables(it1, it2, sbox1[..], sbox2[..], sbox3[..]), nl, nr, derivedKey[..])
    }

    ghost predicate Valid()
      reads this, sbox1, sbox2, sbox3, derivedKey
    {
      Shaped() && Inv(Abstract())
    }

    /**
     * A context whose key register holds initialKey: SimeckInit never
     * writes derived_key_r, so the register is whatever the caller put there.
     */
    constructor (initialKey: Register)
      ensures Shaped()
      ensures derivedKey[..] == initialKey
      ensures fresh(sbox1) && fresh(sbox2) && fresh(sbox3) && fresh(derivedKey)
    {
      sbox1 := new byte[256];
      sbox2 := new byte[256];
      sbox3 := new byte[256];
      derivedKey := new bv32[4](i requires 0 <= i < 4 => initialKey[i]);
    }

    /**
     * SimeckInit: counters to zero, the Argon2i costs stored, and each table
     * scheduled by RC4D_KSA from bytes 12..23 of the next digest of the
     * chain password, hash, hash of hash. password is the bytes strlen
     * counts. The words copied from the first digest go to a local that is
     * never used; the key register is left as it was.
     */
    method Init(password: seq<byte>, argon2: Hasher)
      requires Shaped()
      modifies this, sbox1, sbox2, sbox3
      ensures Shaped() && Valid()
      ensures Abstract() == InitState(password, argon2, old(derivedKey[..]))
      ensures tCost == T_COST && mCost == M_COST && parallelism == PARALLELISM
    {
      nl, nr, it1, it2 := 0, 0, 0, 0;
      tCost, mCost, parallelism := T_COST, M_COST, PARALLELISM;
      var params := Argon2Params(tCost, mCost, parallelism);
      assert params == InitParams();
      ScheduleTables(password, argon2, params);
      InitStateInv(password, argon2, derivedKey[..]);
    }

    /**
     * The digest chain of SimeckInit: the first digest is copied into a
     * local word array that is never used, and each digest schedules the
     * next table.
     */
    method ScheduleTables(password: seq<byte>, argon2: Hasher, params: Argon2Params)
      requires Shaped() && params == InitParams()
      modifies sbox1, sbox2, sbox3
      ensures InitState(password, argon2, derivedKey[..]).tables == Tables(0, 0, sbox1[..], sbox2[..], sbox3[..])
    {
      var hash := argon2(params, password, ZeroSalt());
      ghost var h1 := hash;
      var derived := new bv32[4];
      CopyBytesToWords(Bits(hash), derived, 4);
      ScheduleTable(hash, sbox1);
      hash := argon2(params, hash, ZeroSalt());
      ghost var h2 := hash;
      ScheduleTable(hash, sbox2);
      hash := argon2(params, hash, ZeroSalt());
      ScheduleTable(hash, sbox3);
      InitStateIs(password, argon2, derivedKey[..], h1, h2, hash);
    }

    /**
     * SimeckREncrypt: Ct receives the plaintext block XOR the keystream of
     * the current state, and the context moves to the next state: NR
     * advanced, the key register as SimeckEncrypt left it, the tables aged.
     */
    method REncrypt(pt: Block, ct: array<bv32>, rounds: nat)
      requires Valid()
      requires ct.Length == 2 && ct != derivedKey
      modifies this`nr, this`it1, this`it2, ct, derivedKey, sbox1, sbox2
      ensures Shaped() && Valid()
      ensures Block(ct[0], ct[1]) == Cipher(old(Abstract()), pt, rounds)
      ensures Abstract() == Next(old(Abstract()), rounds)
    {
      EncryptCounter(ct, rounds);
      var masked := Masked(Block(ct[0], ct[1]), sbox1[..], pt);
      ct[0] := masked.w0;
      ct[1] := masked.w1;
      AgeTables();
    }

    /**
     * The first part of SimeckREncrypt: Ct := NR, NL byte-reversed, then
     * encrypted in place by SimeckEncrypt under the key register, which it
     * advances; and NR++ (which the source performs after reading Ct back,
     * a read this step does not affect).
     */
    method EncryptCounter(ct: array<bv32>, rounds: nat)
      requires Valid()
      requires ct.Length == 2 && ct != derivedKey
      modifies this`nr, ct, derivedKey
      ensures Valid()
      ensures Block(ct[0], ct[1]) == Encrypted(old(Abstract()), rounds).0
      ensures Abstract() == old(Abstract()).(nr := old(nr) + 1, key := Encrypted(old(Abstract()), rounds).1)
    {
      var x := nl;
      var y := nr;
      ct[0] := Bswap(y);
      ct[1] := Bswap(x);
      SimeckEncrypt(ct, derivedKey, rounds);
      nr := nr + 1;
    }

    /**
     * The last part of SimeckREncrypt: both epoch counters advance, and the
     * tables are composed and the counters restarted as the epoch update says.
     */
    method AgeTables()
      requires Valid()
      modifies this`it1, this`it2, sbox1, sbox2
      ensures Shaped() && Valid()
      ensures Abstract() == old(Abstract()).(tables := Age(old(Abstract()).tables))
    {
      AgeInv(Abstract().tables);
      it1 := it1 + 1;
      it2 := it2 + 1;
      if it1 == AGE1 {
        ComposeInPlace(sbox1, sbox2);
        it1 := 0;
        if it2 == AGE2 {
          ComposeInPlace(sbox2, sbox3);
          it2 := 0;
        }
      }
    }
  }

  /** RC4D_KSA(K, 12, S) with K = bytes 12..23 of the digest h. */
  method ScheduleTable(h: Digest, S: array<byte>)
    requires S.Length == 256
    modifies S
    ensures S[..] == Ksa(TableKey(h))
  {
    var k := TableKey(h);
    assert k[..12] == k;
    Rc4dKsa(k, 12, S);
  }
}
