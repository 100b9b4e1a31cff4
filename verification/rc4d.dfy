/**
 * RC4D_KSA: the RC4 key-scheduling variant that fills a Simeck-R S-box
 * from a short key. The key byte for step i is added twice: once to the
 * index of the entry read and once to the running index j.
 */
module Rc4d {
  import opened Words
  import opened Permutation

  /** The key byte that step i of the schedule uses. */
  function KeyByte(key: seq<byte>, i: nat): byte
    requires |key| >= 1
  {
    key[i % |key|]
  }

  /** The entry step i reads: (i + k) % 256. */
  function ReadIndex(i: nat, kb: byte): (r: nat)
    ensures r < 256
  {
    (i + kb as int) % 256
  }

  /** The new running index: (j + S[(i + k) % 256] + k) % 256. */
  function Advance(j: nat, entry: byte, kb: byte): (r: nat)
    ensures r < 256
  {
    (j + entry as int + kb as int) % 256
  }

  /** The running index after step i of the schedule. */
  function NextJ(key: seq<byte>, i: nat, j: nat, s: SBox): (r: nat)
    requires |key| >= 1
    ensures r < 256
  {
    var kb := KeyByte(key, i);
    Advance(j, s[ReadIndex(i, kb)], kb)
  }

  /** The table with entries i and j exchanged. */
  function Swap(s: SBox, i: nat, j: nat): SBox
    requires i < 256 && j < 256
  {
    s[i := s[j]][j := s[i]]
  }

  /**
   * The state of the scheduling loop from step i on, with running index j
   * and table s, run to the end (step 256).
   */
  function KsaFrom(key: seq<byte>, i: nat, j: nat, s: SBox): SBox
    requires |key| >= 1 && i <= 256 && j < 256
    decreases 256 - i
  {
    if i == 256 then s
    else
      var j' := NextJ(key, i, j, s);
      KsaFrom(key, i + 1, j', Swap(s, i, j'))
  }

  /** One step of the schedule, unfolded: the loop keeps what remains of the schedule. */
  lemma KsaFromStep(key: seq<byte>, i: nat, j: nat, s: SBox, j': nat, s': seq<byte>)
    requires |key| >= 1 && i < 256 && j < 256
    requires j' == NextJ(key, i, j, s) && s' == Swap(s, i, j')
    ensures KsaFrom(key, i, j, s) == KsaFrom(key, i + 1, j', s')
  {
  }

  /** The key byte the loop reads from the whole key is the one of its first len bytes. */
  lemma KeyBytePrefix(k: seq<byte>, len: nat, i: nat)
    requires 1 <= len <= |k|
    ensures i % len < len && k[i % len] == KeyByte(k[..len], i)
  {
  }

  /** Every step only exchanges two entries, so the schedule keeps a permutation. */
  lemma {:induction false} KsaPreservesPermutation(key: seq<byte>, i: nat, j: nat, s: SBox)
    requires |key| >= 1 && i <= 256 && j < 256
    requires IsPermutation(s)
    ensures IsPermutation(KsaFrom(key, i, j, s))
    decreases 256 - i
  {
    if i < 256 {
      var j' := NextJ(key, i, j, s);
      SwapPreservesPermutation(s, i, j');
      KsaPreservesPermutation(key, i + 1, j', Swap(s, i, j'));
    }
  }

  /** The table RC4D_KSA produces from key. */
  function Ksa(key: seq<byte>): SBox
    requires |key| >= 1
  {
    KsaFrom(key, 0, 0, Identity())
  }

  /** Whatever the key, the schedule is a bijection on the 256 byte values. */
  lemma KsaIsPermutation(key: seq<byte>)
    requires |key| >= 1
    ensures IsPermutation(Ksa(key))
    ensures forall v: byte :: v in Ksa(key)
  {
    IdentityIsPermutation();
    KsaPreservesPermutation(key, 0, 0, Identity());
    PermutationIsOnto(Ksa(key));
  }

  /** The three-assignment exchange through aux in the scheduling loop. */
  method Exchange(S: array<byte>, i: nat, j: nat)
    requires S.Length == 256 && i < 256 && j < 256
    modifies S
    ensures S[..] == Swap(old(S[..]), i, j)
  {
    var aux := S[i];
    S[i] := S[j];
    S[j] := aux;
  }

  /**
   * RC4D_KSA(k, L, S): S becomes the schedule of the first L key bytes,
   * a permutation that depends on nothing else. L = 0 would divide by zero
   * in i % L; the byte type of L bounds it by 255.
   */
  method Rc4dKsa(k: seq<byte>, L: byte, S: array<byte>)
    requires L != 0 && L as int <= |k|
    requires S.Length == 256
    modifies S
    ensures S[..] == Ksa(k[..L as int])
    ensures IsPermutation(S[..])
  {
    var len := L as int;
    ghost var key := k[..len];
    // the first loop writes each entry independently: S[i] = i
    forall i | 0 <= i < 256 {
      S[i] := i as byte;
    }
    assert S[..] == Identity();

    ghost var target := Ksa(key);
    var i, j := 0, 0;
    while i < 256
      invariant 0 <= i <= 256 && 0 <= j < 256
      invariant KsaFrom(key, i, j, S[..]) == target
    {
      ghost var before := S[..];
      ghost var j0 := j;
      KeyBytePrefix(k, len, i);
      var kb := k[i % len];
      j := Advance(j, S[ReadIndex(i, kb)], kb);
      Exchange(S, i, j);
      KsaFromStep(key, i, j0, before, j, S[..]);
      i := i + 1;
    }
    KsaIsPermutation(key);
  }
}
