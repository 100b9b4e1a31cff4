/**
 * The command-line tool around the engine: the password strength check,
 * and the chunk loop that reads the input 8 bytes at a time, encrypts each
 * chunk as one block and writes 8 bytes per block, then truncates the
 * output to the input's length. File handling and terminal input are left
 * out; the input file is a byte sequence and the output is returned.
 */
module Driver {
  import opened Words
  import opened Simeck
  import opened Engine

  /* ---------------------------------------------------------------- */
  /* isStrongPassword                                                  */
  /* ---------------------------------------------------------------- */

  /** The minimum length of a strong password. */
  const MIN_STRONG_LEN: nat := 10

  /** isupper, islower, isdigit and ispunct in the C locale. */
  predicate IsUpper(c: byte) { 'A' as byte <= c <= 'Z' as byte }
  predicate IsLower(c: byte) { 'a' as byte <= c <= 'z' as byte }
  predicate IsDigit(c: byte) { '0' as byte <= c <= '9' as byte }
  predicate IsPunct(c: byte)
  {
    || 33 <= c <= 47
    || 58 <= c <= 64
    || 91 <= c <= 96
    || 123 <= c <= 126
  }

  /** At most one of the four classes holds of a character. */
  lemma ClassesDisjoint(c: byte)
    ensures IsUpper(c) ==> !IsLower(c) && !IsDigit(c) && !IsPunct(c)
    ensures IsLower(c) ==> !IsDigit(c) && !IsPunct(c)
    ensures IsDigit(c) ==> !IsPunct(c)
  {
  }

  /** Some character of pw is an uppercase letter (and so on for the other classes). */
  predicate HasUpper(pw: seq<byte>) { exists i :: 0 <= i < |pw| && IsUpper(pw[i]) }
  predicate HasLower(pw: seq<byte>) { exists i :: 0 <= i < |pw| && IsLower(pw[i]) }
  predicate HasDigit(pw: seq<byte>) { exists i :: 0 <= i < |pw| && IsDigit(pw[i]) }
  predicate HasPunct(pw: seq<byte>) { exists i :: 0 <= i < |pw| && IsPunct(pw[i]) }

  /**
   * The strength criteria: at least ten characters, among them an
   * uppercase letter, a lowercase letter, a digit and a punctuation mark.
   */
  predicate Strong(pw: seq<byte>)
  {
    |pw| >= MIN_STRONG_LEN && HasUpper(pw) && HasLower(pw) && HasDigit(pw) && HasPunct(pw)
  }

  /**
   * isStrongPassword: one pass over the characters sets a flag for the
   * first class in the order upper, lower, digit, punctuation that the
   * character belongs to; the password is strong when it is long enough
   * and all four flags are set.
   */
  method IsStrongPassword(password: seq<byte>) returns (strong: bool)
    ensures strong <==> Strong(password)
    ensures strong ==> |password| >= MIN_STRONG_LEN
  {
    var length := |password|;
    var hasUpper, hasLower, hasDigit, hasSpecial := false, false, false, false;
    var i := 0;
    while i < length
      invariant 0 <= i <= length
      invariant hasUpper <==> HasUpper(password[..i])
      invariant hasLower <==> HasLower(password[..i])
      invariant hasDigit <==> HasDigit(password[..i])
      invariant hasSpecial <==> HasPunct(password[..i])
    {
      var c := password[i];
      ClassesDisjoint(c);
      if IsUpper(c) {
        hasUpper := true;
      } else if IsLower(c) {
        hasLower := true;
      } else if IsDigit(c) {
        hasDigit := true;
      } else if IsPunct(c) {
        hasSpecial := true;
      }
      assert password[..i + 1] == password[..i] + [c];
      i := i + 1;
    }
    assert password[..length] == password;
    strong := length >= MIN_STRONG_LEN && hasUpper && hasLower && hasDigit && hasSpecial;
  }

  /** Appending characters never makes a strong password weak: the flags are only ever set. */
  lemma StrongExtends(pw: seq<byte>, more: seq<byte>)
    requires Strong(pw)
    ensures Strong(pw + more)
  {
    var s := pw + more;
    var u :| 0 <= u < |pw| && IsUpper(pw[u]);
    var l :| 0 <= l < |pw| && IsLower(pw[l]);
    var d :| 0 <= d < |pw| && IsDigit(pw[d]);
    var p :| 0 <= p < |pw| && IsPunct(pw[p]);
    assert s[u] == pw[u] && s[l] == pw[l] && s[d] == pw[d] && s[p] == pw[p];
  }

  /* ---------------------------------------------------------------- */
  /* The chunk loop of main                                            */
  /* ---------------------------------------------------------------- */

  /** The 8 bytes fwrite writes for a block: word 0 then word 1, little-endian. */
  function BlockBytes(b: Block): (r: seq<bv8>)
    ensures |r| == 8
  {
    WordBytes(b.w0) + WordBytes(b.w1)
  }

  /** The block fread fills from 8 bytes: word 0 from the first four, little-endian. */
  function BytesBlock(s: seq<bv8>): Block
    requires |s| == 8
  {
    Block(LeWord(s[..4]), LeWord(s[4..]))
  }

  /** Reading the bytes of a block gives the block back, and the other way round. */
  lemma BlockBytesRoundTrip(x: Block, s: seq<bv8>)
    requires |s| == 8
    ensures BytesBlock(BlockBytes(x)) == x
    ensures BlockBytes(BytesBlock(s)) == s
  {
    LeWordRoundTrip(s[..4], x.w0);
    LeWordRoundTrip(s[4..], x.w1);
    assert BlockBytes(x)[..4] == WordBytes(x.w0);
    assert BlockBytes(x)[4..] == WordBytes(x.w1);
    assert s == s[..4] + s[4..];
  }

  /**
   * fread(plaintext, 1, 8, fp) returning r: the first r bytes of the
   * buffer replaced by the next input bytes, the other 8 - r left as the
   * previous read left them.
   */
  function Fill(buf: seq<bv8>, chunk: seq<bv8>): (r: seq<bv8>)
    requires |buf| == 8 && |chunk| <= 8
    ensures |r| == 8
  {
    chunk + buf[|chunk|..]
  }

  /** The number of bytes one fread returns with rest bytes left. */
  function ReadCount(rest: nat): (r: nat)
    ensures r <= 8 && r <= rest
    ensures r == 8 || r == rest
  {
    if rest < 8 then rest else 8
  }

  /**
   * The number of SimeckREncrypt calls for n input bytes, counted as the
   * loop makes them: one per full chunk, then one for the short read.
   */
  function Calls(n: nat): (r: nat)
    ensures 8 * (r - 1) <= n < 8 * r
  {
    if n < 8 then 1 else 1 + Calls(n - 8)
  }

  /** The loop makes n / 8 + 1 calls: one per whole chunk and one more. */
  lemma {:induction false} CallsFormula(n: nat)
    ensures Calls(n) == n / 8 + 1
  {
    if n >= 8 {
      CallsFormula(n - 8);
    }
  }

  /** Two byte strings of one length XORed position by position. */
  function XorBytes(a: seq<bv8>, b: seq<bv8>): (r: seq<bv8>)
    requires |a| == |b|
    ensures |r| == |a|
  {
    seq(|a|, i requires 0 <= i < |a| => a[i] ^ b[i])
  }

  lemma XorBytesAt(a: seq<bv8>, b: seq<bv8>, i: nat)
    requires |a| == |b| && i < |a|
    ensures XorBytes(a, b)[i] == a[i] ^ b[i]
  {
  }

  /** The keystream bytes of k consecutive states from st, 8 per state. */
  function Keystreams(st: State, k: nat, rounds: nat): (r: seq<bv8>)
    ensures |r| == 8 * k
    decreases k
  {
    if k == 0 then [] else BlockBytes(Keystream(st, rounds)) + Keystreams(Next(st, rounds), k - 1, rounds)
  }

  lemma KeystreamsUnfold(st: State, k: nat, rounds: nat)
    requires k > 0
    ensures Keystreams(st, k, rounds) == BlockBytes(Keystream(st, rounds)) + Keystreams(Next(st, rounds), k - 1, rounds)
  {
  }

  lemma AppendIndex(a: seq<bv8>, b: seq<bv8>, i: nat)
    requires i < |a| + |b|
    ensures i < |a| ==> (a + b)[i] == a[i]
    ensures |a| <= i ==> (a + b)[i] == b[i - |a|]
  {
  }

  lemma AppendAssoc(a: seq<bv8>, b: seq<bv8>, c: seq<bv8>)
    ensures a + (b + c) == (a + b) + c
  {
  }

  /** XorBytes of two concatenations of equal-length parts is the concatenation of the parts' XorBytes. */
  lemma XorBytesAppend(a1: seq<bv8>, a2: seq<bv8>, b1: seq<bv8>, b2: seq<bv8>)
    requires |a1| == |b1| && |a2| == |b2|
    ensures XorBytes(a1 + a2, b1 + b2) == XorBytes(a1, b1) + XorBytes(a2, b2)
  {
    forall i | 0 <= i < |a1| + |a2|
      ensures XorBytes(a1 + a2, b1 + b2)[i] == (XorBytes(a1, b1) + XorBytes(a2, b2))[i]
    {
      XorBytesAt(a1 + a2, b1 + b2, i);
      if i < |a1| {
        XorBytesAt(a1, b1, i);
      } else {
        XorBytesAt(a2, b2, i - |a1|);
      }
    }
  }

  /** The bytes of the XOR of two words are the XOR of their bytes. */
  lemma WordXorBytes(x: bv32, y: bv32)
    ensures WordBytes(x ^ y) == XorBytes(WordBytes(x), WordBytes(y))
  {
    forall j | 0 <= j < 4
      ensures WordBytes(x ^ y)[j] == XorBytes(WordBytes(x), WordBytes(y))[j]
    {
      WordBytesXor(x, y, j);
      XorBytesAt(WordBytes(x), WordBytes(y), j);
    }
  }

  /** XOR of blocks word by word is XOR of their bytes. */
  lemma BlockXorBytes(c: Block, k: Block, p: Block)
    requires c.w0 == k.w0 ^ p.w0 && c.w1 == k.w1 ^ p.w1
    ensures BlockBytes(c) == XorBytes(BlockBytes(k), BlockBytes(p))
  {
    WordXorBytes(k.w0, p.w0);
    WordXorBytes(k.w1, p.w1);
    XorBytesAppend(WordBytes(k.w0), WordBytes(k.w1), WordBytes(p.w0), WordBytes(p.w1));
  }

  /**
   * The 8 bytes SimeckREncrypt writes for a buffer are the buffer XOR the
   * 8 keystream bytes of the state.
   */
  lemma CipherBytes(st: State, buf: seq<bv8>, rounds: nat)
    requires |buf| == 8
    ensures BlockBytes(Cipher(st, BytesBlock(buf), rounds)) == XorBytes(BlockBytes(Keystream(st, rounds)), buf)
  {
    var pt := BytesBlock(buf);
    CipherIsKeystreamXor(st, pt, rounds, 0);
    CipherIsKeystreamXor(st, pt, rounds, 1);
    BlockXorBytes(Cipher(st, pt, rounds), Keystream(st, rounds), pt);
    BlockBytesRoundTrip(pt, buf);
  }


  /**
   * The bytes the while (ret == 8) loop writes with the input read up to
   * position pos and the buffer as the previous read left it, ks being the
   * keystream bytes of the states the successive SimeckREncrypt calls start
   * from (CipherBytes). Each pass reads up to 8 bytes into the buffer and
   * writes the buffer XOR the next 8 keystream bytes; the loop ends after
   * the first short read, so it writes one block per full chunk and one more.
   */
  function Chunks(ks: seq<bv8>, input: seq<bv8>, pos: nat, buf: seq<bv8>): (r: seq<bv8>)
    requires pos <= |input| && |buf| == 8 && |ks| == 8 * Calls(|input| - pos)
    ensures |r| == |ks|
    decreases |input| - pos
  {
    var n := ReadCount(|input| - pos);
    var buf' := Fill(buf, input[pos..pos + n]);
    XorBytes(ks[..8], buf')
      + if n == 8 then Chunks(ks[8..], input, pos + 8, buf') else []
  }

  /**
   * Every byte the loop writes at a position the input reaches is that
   * input byte XOR the keystream byte at the same position; the buffer's
   * previous contents play no part there.
   */
  lemma {:induction false} ChunksByte(ks: seq<bv8>, input: seq<bv8>, pos: nat, buf: seq<bv8>, i: nat)
    requires |buf| == 8 && pos <= i < |input| && |ks| == 8 * Calls(|input| - pos)
    ensures Chunks(ks, input, pos, buf)[i - pos] == ks[i - pos] ^ input[i]
    decreases |input| - pos
  {
    var n := ReadCount(|input| - pos);
    var chunk := input[pos..pos + n];
    var buf' := Fill(buf, chunk);
    var block := XorBytes(ks[..8], buf');
    var rest := if n == 8 then Chunks(ks[8..], input, pos + 8, buf') else [];
    assert Chunks(ks, input, pos, buf) == block + rest;
    AppendIndex(block, rest, i - pos);
    if i < pos + n {
      FillByte(ks[..8], buf, chunk, i - pos);
      assert ks[..8][i - pos] == ks[i - pos] && chunk[i - pos] == input[i];
    } else {
      ChunksByte(ks[8..], input, pos + 8, buf', i);
      assert ks[8..][i - (pos + 8)] == ks[i - pos];
    }
  }

  /** Byte k of a block fread read k + 1 or more bytes into is keystream byte k XOR input byte k. */
  lemma FillByte(ks8: seq<bv8>, buf: seq<bv8>, chunk: seq<bv8>, k: nat)
    requires |ks8| == 8 && |buf| == 8 && k < |chunk| <= 8
    ensures XorBytes(ks8, Fill(buf, chunk))[k] == ks8[k] ^ chunk[k]
  {
    AppendIndex(chunk, buf[|chunk|..], k);
    XorBytesAt(ks8, Fill(buf, chunk), k);
  }


  /**
   * The output file: what the loop wrote from state st, truncated to the
   * input's length. junk is what the plaintext buffer held before the
   * first read.
   */
  function EncryptFile(st: State, input: seq<bv8>, junk: seq<bv8>, rounds: nat): (r: seq<bv8>)
    requires |junk| == 8
    ensures |r| == |input|
  {
    Chunks(Keystreams(st, Calls(|input|), rounds), input, 0, junk)[..|input|]
  }

  /** Byte i of the output file is input byte i XOR keystream byte i. */
  lemma EncryptFileByte(st: State, input: seq<bv8>, junk: seq<bv8>, rounds: nat, i: nat)
    requires |junk| == 8 && i < |input|
    ensures |EncryptFile(st, input, junk, rounds)| == |input|
    ensures EncryptFile(st, input, junk, rounds)[i] == Keystreams(st, Calls(|input|), rounds)[i] ^ input[i]
  {
    ChunksByte(Keystreams(st, Calls(|input|), rounds), input, 0, junk, i);
  }

  /** Keystreams of different lengths agree where both are defined. */
  lemma KeystreamsPrefix(st: State, k1: nat, k2: nat, rounds: nat, i: nat)
    requires i < 8 * k1 && i < 8 * k2
    ensures Keystreams(st, k1, rounds)[i] == Keystreams(st, k2, rounds)[i]
  {
    LinkedStates(st, k1, rounds);
    LinkedStates(st, k2, rounds);
    LinkedAgree(States(st, k1 + 1, rounds), Keystreams(st, k1, rounds),
                States(st, k2 + 1, rounds), Keystreams(st, k2, rounds), rounds, i);
  }

  /**
   * Running the tool again over its output, from the same state, gives
   * the input back, whatever either buffer held beforehand.
   */
  lemma RoundTrip(st: State, input: seq<bv8>, junk1: seq<bv8>, junk2: seq<bv8>, rounds: nat)
    requires |junk1| == 8 && |junk2| == 8
    ensures EncryptFile(st, EncryptFile(st, input, junk1, rounds), junk2, rounds) == input
  {
    var ct := EncryptFile(st, input, junk1, rounds);
    var ks := Keystreams(st, Calls(|input|), rounds);
    forall i | 0 <= i < |input|
      ensures EncryptFile(st, ct, junk2, rounds)[i] == input[i]
    {
      EncryptFileByte(st, input, junk1, rounds, i);
      EncryptFileByte(st, ct, junk2, rounds, i);
      XorTwiceByte(ks[i], input[i]);
    }
  }

  /** The stale bytes in the buffer never reach the output file. */
  lemma JunkIrrelevant(st: State, input: seq<bv8>, junk1: seq<bv8>, junk2: seq<bv8>, rounds: nat)
    requires |junk1| == 8 && |junk2| == 8
    ensures EncryptFile(st, input, junk1, rounds) == EncryptFile(st, input, junk2, rounds)
  {
    forall i | 0 <= i < |input|
      ensures EncryptFile(st, input, junk1, rounds)[i] == EncryptFile(st, input, junk2, rounds)[i]
    {
      EncryptFileByte(st, input, junk1, rounds, i);
      EncryptFileByte(st, input, junk2, rounds, i);
    }
  }

  /**
   * Output bytes before position n depend only on input bytes before n:
   * two inputs that share a prefix give outputs sharing that prefix.
   */
  lemma Prefix(st: State, a: seq<bv8>, b: seq<bv8>, n: nat, junk: seq<bv8>, rounds: nat)
    requires |junk| == 8 && n <= |a| && n <= |b| && a[..n] == b[..n]
    ensures EncryptFile(st, a, junk, rounds)[..n] == EncryptFile(st, b, junk, rounds)[..n]
  {
    forall i | 0 <= i < n
      ensures EncryptFile(st, a, junk, rounds)[i] == EncryptFile(st, b, junk, rounds)[i]
    {
      EncryptFileByte(st, a, junk, rounds, i);
      EncryptFileByte(st, b, junk, rounds, i);
      assert a[i] == b[i] by { assert a[..n][i] == b[..n][i]; }
      KeystreamsPrefix(st, Calls(|a|), Calls(|b|), rounds, i);
    }
  }

  /**
   * Two files encrypted from the same state: the outputs differ where the
   * inputs differ, by the same bits, so one known plaintext exposes the
   * other.
   */
  lemma FileXorLeak(st: State, a: seq<bv8>, b: seq<bv8>, junk: seq<bv8>, rounds: nat, i: nat)
    requires |junk| == 8 && i < |a| && i < |b|
    ensures |EncryptFile(st, a, junk, rounds)| == |a| && |EncryptFile(st, b, junk, rounds)| == |b|
    ensures EncryptFile(st, a, junk, rounds)[i] ^ EncryptFile(st, b, junk, rounds)[i] == a[i] ^ b[i]
  {
    EncryptFileByte(st, a, junk, rounds, i);
    EncryptFileByte(st, b, junk, rounds, i);
    KeystreamsPrefix(st, Calls(|a|), Calls(|b|), rounds, i);
    XorLeakByte(Keystreams(st, Calls(|a|), rounds)[i], a[i], b[i]);
  }

  /* ---------------------------------------------------------------- */
  /* main, without the files                                           */
  /* ---------------------------------------------------------------- */

  /**
   * The chunk loop over a context: plaintext starts as junk, each pass
   * reads, encrypts and writes, and the output is truncated to the input's
   * length. calls counts the SimeckREncrypt calls: one per full chunk and
   * one for the final short read; the context ends that many steps on.
   */
  method EncryptStream(ctx: Ctx, input: seq<bv8>, junk: seq<bv8>, rounds: nat) returns (output: seq<bv8>, calls: nat)
    requires ctx.Valid() && |junk| == 8
    modifies ctx`nr, ctx`it1, ctx`it2, ctx.sbox1, ctx.sbox2, ctx.derivedKey
    ensures ctx.Valid()
    ensures output == EncryptFile(old(ctx.Abstract()), input, junk, rounds)
    ensures calls == Calls(|input|)
    ensures ctx.Abstract() == StepN(old(ctx.Abstract()), calls, rounds)
  {
    ghost var st := ctx.Abstract();
    ghost var k := Calls(|input|);
    ghost var states := States(st, k + 1, rounds);
    ghost var ks := Keystreams(st, k, rounds);
    LinkedStates(st, k, rounds);
    output, calls := ChunkLoop(ctx, input, junk, rounds, states, ks);
    StatesStepN(st, k + 1, rounds, k);
  }

  /**
   * The loop itself, over a linked run of states and its keystream: the
   * context steps through the states, and the output is the loop's bytes
   * for that keystream, truncated.
   */
  method ChunkLoop(ctx: Ctx, input: seq<bv8>, junk: seq<bv8>, rounds: nat,
                   ghost states: seq<State>, ghost ks: seq<bv8>)
      returns (output: seq<bv8>, calls: nat)
    requires ctx.Valid() && |junk| == 8
    requires Linked(states, ks, rounds) && |states| == Calls(|input|) + 1 && ctx.Abstract() == states[0]
    modifies ctx`nr, ctx`it1, ctx`it2, ctx.sbox1, ctx.sbox2, ctx.derivedKey
    ensures ctx.Valid()
    ensures output == Chunks(ks, input, 0, junk)[..|input|]
    ensures calls == Calls(|input|) && ctx.Abstract() == states[calls]
  {
    ghost var target := Chunks(ks, input, 0, junk);
    ghost var run := states;
    ghost var rest := ks;
    ghost var pending := target;
    var ciphertext := new bv32[2];
    var plaintext := junk;
    var written: seq<bv8> := [];
    var pos := 0;
    var ret := 8;
    calls := 0;
    assert Tracks(pending, rest, input, pos, plaintext);
    while ret == 8
      invariant 0 <= pos <= |input| && |plaintext| == 8
      invariant ctx.Valid()
      invariant Linked(run, rest, rounds) && ctx.Abstract() == run[0]
      invariant calls <= |states| && run == states[calls..]
      invariant ret == 8 ==> |run| == Calls(|input| - pos) + 1
      invariant written + pending == target
      invariant ret == 8 ==> |rest| == 8 * Calls(|input| - pos) && Tracks(pending, rest, input, pos, plaintext)
      invariant ret != 8 ==> pending == [] && |run| == 1
      decreases |input| - pos + (if ret == 8 then 1 else 0)
    {
      var block;
      ghost var pending';
      ret, plaintext, block, pending' := ChunkStep(ctx, input, pos, plaintext, ciphertext, rounds, run, rest, pending);
      AppendAssoc(written, block, pending');
      written, pending := written + block, pending';
      run, rest := run[1..], rest[8..];
      pos := pos + ret;
      calls := calls + 1;
    }
    assert written == target;
    output := written[..|input|];
  }

  /** The n states the loop visits from st: st, then each the Next of the one before. */
  function States(st: State, n: nat, rounds: nat): (r: seq<State>)
    ensures |r| == n
    ensures n > 0 ==> r[0] == st
    decreases n
  {
    if n == 0 then [] else [st] + States(Next(st, rounds), n - 1, rounds)
  }

  /** State j of States is the state after j steps. */
  lemma {:induction false} StatesStepN(st: State, n: nat, rounds: nat, j: nat)
    requires j < n
    ensures States(st, n, rounds)[j] == StepN(st, j, rounds)
    decreases j
  {
    if j > 0 {
      StatesStepN(Next(st, rounds), n - 1, rounds, j - 1);
      StepNFirst(st, j - 1, rounds);
      assert States(st, n, rounds)[j] == States(Next(st, rounds), n - 1, rounds)[j - 1];
    }
  }

  /**
   * One SimeckREncrypt as the loop sees it: state st XORs in the 8 bytes
   * block of its keystream and leaves state st'.
   */
  ghost predicate Pass(st: State, block: seq<bv8>, st': State, rounds: nat)
  {
    block == BlockBytes(Keystream(st, rounds)) && st' == Next(st, rounds)
  }

  /** Pass j of a run: state j, the 8 bytes of ks from 8j, and state j + 1. */
  ghost predicate PassLinked(states: seq<State>, ks: seq<bv8>, rounds: nat, j: nat)
    requires j + 1 < |states| && |ks| == 8 * (|states| - 1)
  {
    Pass(states[j], ks[8 * j..8 * j + 8], states[j + 1], rounds)
  }

  /** states is a run of the engine and ks its keystream: every pass is linked. */
  ghost predicate Linked(states: seq<State>, ks: seq<bv8>, rounds: nat)
  {
    && |states| >= 1
    && |ks| == 8 * (|states| - 1)
    && forall j {:trigger PassLinked(states, ks, rounds, j)} :: 0 <= j < |states| - 1 ==> PassLinked(states, ks, rounds, j)
  }

  /** Pass j of a run is pass j + 1 of the run with one more state in front. */
  lemma PassShift(st: State, states: seq<State>, head: seq<bv8>, ks: seq<bv8>, rounds: nat, j: nat)
    requires j + 1 < |states| && |head| == 8 && |ks| == 8 * (|states| - 1)
    ensures PassLinked([st] + states, head + ks, rounds, j + 1) == PassLinked(states, ks, rounds, j)
  {
    assert ([st] + states)[j + 1] == states[j];
    assert ([st] + states)[j + 2] == states[j + 1];
    assert (head + ks)[8 * (j + 1)..8 * (j + 1) + 8] == ks[8 * j..8 * j + 8];
  }

  /** A run with a linked first pass in front is still a run. */
  lemma LinkedCons(st: State, states: seq<State>, ks: seq<bv8>, rounds: nat)
    requires Linked(states, ks, rounds) && states[0] == Next(st, rounds)
    ensures Linked([st] + states, BlockBytes(Keystream(st, rounds)) + ks, rounds)
  {
    var head := BlockBytes(Keystream(st, rounds));
    var run, stream := [st] + states, head + ks;
    assert run[1..] == states && stream[8..] == ks && stream[..8] == head;
    assert run == [run[0]] + run[1..];
    assert stream == stream[..8] + stream[8..];
    forall j | 0 <= j < |states|
      ensures PassLinked(run, stream, rounds, j)
    {
      if j > 0 {
        assert PassLinked(run[1..], stream[8..], rounds, j - 1);
        PassShift(run[0], run[1..], stream[..8], stream[8..], rounds, j - 1);
      }
    }
  }

  /** Dropping the first pass of a run leaves a run. */
  lemma LinkedTail(states: seq<State>, ks: seq<bv8>, rounds: nat)
    requires Linked(states, ks, rounds) && |states| >= 2
    ensures PassLinked(states, ks, rounds, 0)
    ensures Linked(states[1..], ks[8..], rounds)
  {
    assert states == [states[0]] + states[1..];
    assert ks == ks[..8] + ks[8..];
    forall j | 0 <= j < |states| - 2
      ensures PassLinked(states[1..], ks[8..], rounds, j)
    {
      assert PassLinked(states, ks, rounds, j + 1);
      PassShift(states[0], states[1..], ks[..8], ks[8..], rounds, j);
    }
  }

  /** Two runs from the same state agree on the bytes both have: the engine is deterministic. */
  lemma {:induction false} LinkedAgree(s1: seq<State>, ks1: seq<bv8>, s2: seq<State>, ks2: seq<bv8>, rounds: nat, i: nat)
    requires Linked(s1, ks1, rounds) && Linked(s2, ks2, rounds) && s1[0] == s2[0]
    requires i < |ks1| && i < |ks2|
    ensures ks1[i] == ks2[i]
    decreases i
  {
    LinkedTail(s1, ks1, rounds);
    LinkedTail(s2, ks2, rounds);
    if i < 8 {
      assert ks1[i] == ks1[..8][i] && ks2[i] == ks2[..8][i];
    } else {
      assert ks1[i] == ks1[8..][i - 8] && ks2[i] == ks2[8..][i - 8];
      LinkedAgree(s1[1..], ks1[8..], s2[1..], ks2[8..], rounds, i - 8);
    }
  }

  /** The states the loop visits and the keystream they give are a run of the engine. */
  lemma {:induction false} LinkedStates(st: State, k: nat, rounds: nat)
    ensures Linked(States(st, k + 1, rounds), Keystreams(st, k, rounds), rounds)
    decreases k
  {
    if k > 0 {
      LinkedStates(Next(st, rounds), k - 1, rounds);
      KeystreamsUnfold(st, k, rounds);
      LinkedCons(st, States(Next(st, rounds), k, rounds), Keystreams(Next(st, rounds), k - 1, rounds), rounds);
    }
  }

  /**
   * SimeckREncrypt on the buffer, and the 8 bytes fwrite then writes from
   * the ciphertext array, at the head of a linked run: the buffer XOR the
   * first 8 keystream bytes, the context moving on to the next state.
   */
  method EncryptChunk(ctx: Ctx, plaintext: seq<bv8>, ciphertext: array<bv32>, rounds: nat,
                      ghost run: seq<State>, ghost rest: seq<bv8>)
      returns (block: seq<bv8>)
    requires ctx.Valid() && |plaintext| == 8
    requires ciphertext.Length == 2 && ciphertext != ctx.derivedKey
    requires Linked(run, rest, rounds) && |run| >= 2 && ctx.Abstract() == run[0]
    modifies ctx`nr, ctx`it1, ctx`it2, ctx.sbox1, ctx.sbox2, ctx.derivedKey, ciphertext
    ensures ctx.Valid()
    ensures |rest| >= 8 && block == XorBytes(rest[..8], plaintext)
    ensures ctx.Abstract() == run[1] && Linked(run[1..], rest[8..], rounds)
  {
    ghost var st := ctx.Abstract();
    LinkedTail(run, rest, rounds);
    ctx.REncrypt(BytesBlock(plaintext), ciphertext, rounds);
    block := BlockBytes(Block(ciphertext[0], ciphertext[1]));
    CipherBytes(st, plaintext, rounds);
  }

  /**
   * One pass of the while (ret == 8) loop at position pos: fread of up to 8
   * bytes over the old buffer, SimeckREncrypt, and the 8 bytes fwrite
   * writes. What is left to write after the block is either nothing (a
   * short read) or the loop over the rest of the run from pos + 8.
   */
  method ChunkStep(ctx: Ctx, input: seq<bv8>, pos: nat, plaintext: seq<bv8>, ciphertext: array<bv32>,
                   rounds: nat, ghost run: seq<State>, ghost rest: seq<bv8>,
                   ghost pending: seq<bv8>)
      returns (ret: nat, plaintext': seq<bv8>, block: seq<bv8>, ghost pending': seq<bv8>)
    requires ctx.Valid() && pos <= |input| && |plaintext| == 8
    requires ciphertext.Length == 2 && ciphertext != ctx.derivedKey
    requires Linked(run, rest, rounds) && ctx.Abstract() == run[0] && |run| == Calls(|input| - pos) + 1
    requires |rest| == 8 * Calls(|input| - pos) && Tracks(pending, rest, input, pos, plaintext)
    modifies ctx`nr, ctx`it1, ctx`it2, ctx.sbox1, ctx.sbox2, ctx.derivedKey, ciphertext
    ensures ctx.Valid() && ret == ReadCount(|input| - pos) && pos + ret <= |input| && |plaintext'| == 8
    ensures |run| >= 2 && ctx.Abstract() == run[1] && Linked(run[1..], rest[8..], rounds)
    ensures ret == 8 ==> |run| - 1 == Calls(|input| - (pos + 8)) + 1
    ensures pending == block + pending'
    ensures ret == 8 ==> |rest[8..]| == 8 * Calls(|input| - (pos + 8)) && Tracks(pending', rest[8..], input, pos + 8, plaintext')
    ensures ret != 8 ==> pending' == [] && |run| == 2
  {
    assert pending == Chunks(rest, input, pos, plaintext);
    ret := ReadCount(|input| - pos);
    plaintext' := Fill(plaintext, input[pos..pos + ret]);
    block := EncryptChunk(ctx, plaintext', ciphertext, rounds, run, rest);
    pending' := if ret == 8 then Chunks(rest[8..], input, pos + 8, plaintext') else [];
  }

  /**
   * pending is what the loop still writes from position pos with keystream
   * ks and buffer buf. Stated through the position p, so that the loop's
   * own proof keeps Chunks folded and only ChunkStep opens it.
   */
  ghost predicate Tracks(pending: seq<bv8>, ks: seq<bv8>, input: seq<bv8>, pos: nat, buf: seq<bv8>)
    requires pos <= |input| && |buf| == 8 && |ks| == 8 * Calls(|input| - pos)
  {
    forall p {:trigger Chunks(ks, input, p, buf)} :: p == pos ==> pending == Chunks(ks, input, p, buf)
  }

  /** The exit status main returns when the password is weak. */
  const WEAK_PASSWORD_STATUS: int := 10

  /**
   * main from the password check on: a weak password ends the run with
   * status 10 before the context is initialised and before any output is
   * written; otherwise the context is initialised from the password and
   * the input is encrypted into an output of the same length.
   */
  method RunTool(password: seq<byte>, argon2: Hasher, initialKey: Register,
                 input: seq<bv8>, junk: seq<bv8>, rounds: nat)
      returns (status: int, output: seq<bv8>)
    requires |junk| == 8
    ensures status == WEAK_PASSWORD_STATUS <==> !Strong(password)
    ensures status == WEAK_PASSWORD_STATUS ==> output == []
    ensures status != WEAK_PASSWORD_STATUS ==> status == 0
    ensures status == 0 ==> output == EncryptFile(InitState(password, argon2, initialKey), input, junk, rounds)
    ensures status == 0 ==> |output| == |input|
  {
    var strong := IsStrongPassword(password);
    if !strong {
      return WEAK_PASSWORD_STATUS, [];
    }
    var ctx := new Ctx(initialKey);
    ctx.Init(password, argon2);
    var calls;
    output, calls := EncryptStream(ctx, input, junk, rounds);
    status := 0;
  }
}
