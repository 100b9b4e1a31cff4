/**
 * Byte permutations: the shape of the three S-boxes of a Simeck-R context
 * (simeckr.h declares them as 256-entry byte arrays), the identity table
 * RC4D_KSA starts from, swaps, and the composition used when the tables age.
 */
module Permutation {
  import opened Words

  /** A 256-entry byte table, indexable by any byte. */
  type SBox = s: seq<byte> | |s| == 256 witness seq(256, i => 0)

  /** No two positions of the table hold the same byte. */
  ghost predicate IsPermutation(s: seq<byte>)
  {
    |s| == 256 && forall i, j :: 0 <= i < j < |s| ==> s[i] != s[j]
  }

  /** The table S[i] = i. */
  function Identity(): (s: SBox)
    ensures forall i :: 0 <= i < 256 ==> s[i] as int == i
  {
    seq(256, i requires 0 <= i < 256 => i as byte)
  }

  /** outer after inner: position i holds outer[inner[i]]. */
  function Compose(outer: SBox, inner: SBox): (r: SBox)
    ensures forall i :: 0 <= i < 256 ==> r[i] == outer[inner[i] as int]
  {
    seq(256, i requires 0 <= i < 256 => outer[inner[i] as int])
  }

  lemma IdentityIsPermutation()
    ensures IsPermutation(Identity())
  {
  }

  /** Exchanging two entries keeps a table a permutation. */
  lemma SwapPreservesPermutation(s: seq<byte>, i: nat, j: nat)
    requires IsPermutation(s) && i < 256 && j < 256
    ensures IsPermutation(s[i := s[j]][j := s[i]])
  {
    var t := s[i := s[j]][j := s[i]];
    forall a, b | 0 <= a < b < 256
      ensures t[a] != t[b]
    {
      var a' := if a == i then j else if a == j then i else a;
      var b' := if b == i then j else if b == j then i else b;
      assert t[a] == s[a'] && t[b] == s[b'];
    }
  }

  /** A permutation followed by a permutation is a permutation. */
  lemma ComposePreservesPermutation(outer: SBox, inner: SBox)
    requires IsPermutation(outer) && IsPermutation(inner)
    ensures IsPermutation(Compose(outer, inner))
  {
    var r := Compose(outer, inner);
    forall a, b | 0 <= a < b < 256
      ensures r[a] != r[b]
    {
      var x, y := inner[a] as int, inner[b] as int;
      assert x != y;
      if x < y { assert outer[x] != outer[y]; } else { assert outer[y] != outer[x]; }
    }
  }

  /** The set of bytes held in the first n positions of s. */
  ghost function ValuesUpTo(s: seq<byte>, n: nat): set<byte>
    requires n <= |s|
  {
    set i | 0 <= i < n :: s[i]
  }

  /** n distinct bytes make a set of n bytes. */
  lemma {:induction false} DistinctValuesCount(s: seq<byte>, n: nat)
    requires n <= |s|
    requires forall i, j :: 0 <= i < j < n ==> s[i] != s[j]
    ensures |ValuesUpTo(s, n)| == n
  {
    if n > 0 {
      DistinctValuesCount(s, n - 1);
      assert ValuesUpTo(s, n) == ValuesUpTo(s, n - 1) + {s[n - 1]};
      assert s[n - 1] !in ValuesUpTo(s, n - 1);
    }
  }

  /**
   * Pigeonhole: a permutation in the sense above holds every byte value,
   * so it is a bijection on the 256 byte values.
   */
  lemma PermutationIsOnto(s: seq<byte>)
    requires IsPermutation(s)
    ensures forall v: byte :: v in s
  {
    var all := ValuesUpTo(Identity(), 256);
    var mine := ValuesUpTo(s, 256);
    IdentityIsPermutation();
    DistinctValuesCount(Identity(), 256);
    DistinctValuesCount(s, 256);
    forall v: byte
      ensures v in all
    {
      assert Identity()[v as int] == v;
    }
    assert mine <= all;
    var missing := all - mine;
    assert all == mine + missing;
    assert |missing| == 0;
    forall v: byte
      ensures v in s
    {
      assert v in mine;
      var i :| 0 <= i < 256 && s[i] == v;
    }
  }
}
