/**
 * The simhash fingerprint and the similarity of two fingerprints
 * (helpers/indexer.py:156-188). Token hashes are non-negative integers of
 * any size; `t & (1 << i)` is non-zero exactly when bit i of t is set,
 * which is what Bit states.
 */
module Simhash {

  function Pow2(n: nat): (r: nat)
    ensures r >= 1
  {
    if n == 0 then 1 else 2 * Pow2(n - 1)
  }

  /** Bit i of t: `t & (1 << i) != 0`. */
  predicate Bit(t: nat, i: nat) {
    if i == 0 then t % 2 == 1 else Bit(t / 2, i - 1)
  }

  // ------------------------------------------------------------ the vote

  /** One token's vote on bit i: +1 when its hash has the bit set, -1 otherwise. */
  function VoteOf(h: nat, i: nat): int {
    if Bit(h, i) then 1 else -1
  }

  /** `v[i]` after the voting loop has seen `tokens`. */
  function Vote(tokens: seq<string>, hash: string -> nat, i: nat): int {
    if tokens == [] then 0
    else Vote(tokens[..|tokens| - 1], hash, i) + VoteOf(hash(tokens[|tokens| - 1]), i)
  }

  /** The number of tokens whose hash has bit i set. */
  function CountSet(tokens: seq<string>, hash: string -> nat, i: nat): (r: nat)
    ensures r <= |tokens|
  {
    if tokens == [] then 0
    else CountSet(tokens[..|tokens| - 1], hash, i) + (if Bit(hash(tokens[|tokens| - 1]), i) then 1 else 0)
  }

  /** The vector `v` after the voting loop. */
  function Votes(tokens: seq<string>, hash: string -> nat, hashbits: nat): (v: seq<int>)
    ensures |v| == hashbits && forall i :: 0 <= i < hashbits ==> v[i] == Vote(tokens, hash, i)
  {
    seq(hashbits, i requires 0 <= i < hashbits => Vote(tokens, hash, i))
  }

  /** The fingerprint loop: the sum of `1 << i` over the indices whose vote is not negative. */
  function FromVotes(v: seq<int>): nat {
    if v == [] then 0
    else FromVotes(v[..|v| - 1]) + (if v[|v| - 1] >= 0 then Pow2(|v| - 1) else 0)
  }

  /** `get_simhash(tokens, hashbits)`. */
  function Simhash(tokens: seq<string>, hash: string -> nat, hashbits: nat): nat {
    FromVotes(Votes(tokens, hash, hashbits))
  }

  /** helpers/indexer.py:156-178: the counter vector `v` is an array updated in place. */
  method GetSimhash(tokens: seq<string>, hash: string -> nat, hashbits: nat) returns (fingerprint: nat)
    ensures fingerprint == Simhash(tokens, hash, hashbits)
  {
    var v := new int[hashbits](_ => 0);
    var hashes := seq(|tokens|, k requires 0 <= k < |tokens| => hash(tokens[k]));
    var k := 0;
    while k < |hashes|
      invariant 0 <= k <= |hashes|
      invariant forall i :: 0 <= i < hashbits ==> v[i] == Vote(tokens[..k], hash, i)
    {
      var t := hashes[k];
      assert tokens[..k + 1][..k] == tokens[..k];
      var i := 0;
      while i < hashbits
        invariant 0 <= i <= hashbits
        invariant forall j :: 0 <= j < i ==> v[j] == Vote(tokens[..k + 1], hash, j)
        invariant forall j :: i <= j < hashbits ==> v[j] == Vote(tokens[..k], hash, j)
      {
        if Bit(t, i) {
          v[i] := v[i] + 1;
        } else {
          v[i] := v[i] - 1;
        }
        i := i + 1;
      }
      k := k + 1;
    }
    assert tokens[..k] == tokens;
    fingerprint := 0;
    var i := 0;
    while i < hashbits
      invariant 0 <= i <= hashbits
      invariant fingerprint == FromVotes(v[..i])
    {
      assert v[..i + 1][..i] == v[..i];
      if v[i] >= 0 {
        fingerprint := fingerprint + Pow2(i);
      }
      i := i + 1;
    }
    assert v[..hashbits] == Votes(tokens, hash, hashbits);
  }

  // ------------------------------------------------------------ bits

  /** A number below 2^i has bit i clear. */
  lemma {:induction false} BitBelow(a: nat, i: nat)
    requires a < Pow2(i)
    ensures !Bit(a, i)
  {
    if i > 0 {
      BitBelow(a / 2, i - 1);
    }
  }

  /** Adding c * 2^m leaves the bits below m alone. */
  lemma {:induction false} BitLow(a: nat, c: nat, m: nat, i: nat)
    requires i < m
    ensures Bit(a + c * Pow2(m), i) == Bit(a, i)
  {
    var x := a + c * Pow2(m);
    assert c * Pow2(m) == 2 * (c * Pow2(m - 1));
    if i > 0 {
      assert x / 2 == a / 2 + c * Pow2(m - 1);
      BitLow(a / 2, c, m - 1, i - 1);
    }
  }

  /** Below 2^m, adding c * 2^m with c a bit sets bit m to c. */
  lemma {:induction false} BitTop(a: nat, c: nat, m: nat)
    requires a < Pow2(m) && c <= 1
    ensures Bit(a + c * Pow2(m), m) <==> c == 1
  {
    if m > 0 {
      assert c * Pow2(m) == 2 * (c * Pow2(m - 1));
      assert (a + c * Pow2(m)) / 2 == a / 2 + c * Pow2(m - 1);
      BitTop(a / 2, c, m - 1);
    }
  }

  lemma {:induction false} FromVotesBound(v: seq<int>)
    ensures FromVotes(v) < Pow2(|v|)
  {
    if v != [] {
      FromVotesBound(v[..|v| - 1]);
    }
  }

  /** Bit i of the fingerprint is set exactly when vote i is not negative. */
  lemma {:induction false} FromVotesBit(v: seq<int>, i: nat)
    requires i < |v|
    ensures Bit(FromVotes(v), i) <==> v[i] >= 0
  {
    var init, m := v[..|v| - 1], |v| - 1;
    var c := if v[m] >= 0 then 1 else 0;
    assert FromVotes(v) == FromVotes(init) + c * Pow2(m);
    FromVotesBound(init);
    if i < m {
      BitLow(FromVotes(init), c, m, i);
      FromVotesBit(init, i);
    } else {
      BitTop(FromVotes(init), c, m);
    }
  }

  // ------------------------------------------------------------ the fingerprint

  /** Each vote is the number of hashes with the bit set minus the number with it clear. */
  lemma {:induction false} VoteCount(tokens: seq<string>, hash: string -> nat, i: nat)
    ensures Vote(tokens, hash, i) == CountSet(tokens, hash, i) - (|tokens| - CountSet(tokens, hash, i))
  {
    if tokens != [] {
      VoteCount(tokens[..|tokens| - 1], hash, i);
    }
  }

  /**
   * The bit-vote rule: bit i of the fingerprint is set exactly when at least
   * as many token hashes have bit i set as have it clear.
   */
  lemma SimhashBitVote(tokens: seq<string>, hash: string -> nat, hashbits: nat, i: nat)
    requires i < hashbits
    ensures Bit(Simhash(tokens, hash, hashbits), i) <==> CountSet(tokens, hash, i) >= |tokens| - CountSet(tokens, hash, i)
  {
    FromVotesBit(Votes(tokens, hash, hashbits), i);
    VoteCount(tokens, hash, i);
  }

  /** The fingerprint has at most `hashbits` bits. */
  lemma SimhashBound(tokens: seq<string>, hash: string -> nat, hashbits: nat)
    ensures Simhash(tokens, hash, hashbits) < Pow2(hashbits)
  {
    FromVotesBound(Votes(tokens, hash, hashbits));
  }

  /** With no votes against any bit every bit is set. */
  lemma {:induction false} FromVotesAllSet(v: seq<int>)
    requires forall i :: 0 <= i < |v| ==> v[i] >= 0
    ensures FromVotes(v) == Pow2(|v|) - 1
  {
    if v != [] {
      FromVotesAllSet(v[..|v| - 1]);
    }
  }

  /** No tokens: every vote is 0, so the fingerprint is all ones. */
  lemma SimhashEmpty(hash: string -> nat, hashbits: nat)
    ensures Simhash([], hash, hashbits) == Pow2(hashbits) - 1
  {
    FromVotesAllSet(Votes([], hash, hashbits));
  }

  lemma {:induction false} VoteAppend(a: seq<string>, b: seq<string>, hash: string -> nat, i: nat)
    ensures Vote(a + b, hash, i) == Vote(a, hash, i) + Vote(b, hash, i)
  {
    if b == [] {
      assert a + b == a;
    } else {
      assert (a + b)[..|a + b| - 1] == a + b[..|b| - 1];
      VoteAppend(a, b[..|b| - 1], hash, i);
    }
  }

  /** Each vote depends only on the multiset of tokens. */
  lemma {:induction false} VotePermutation(a: seq<string>, b: seq<string>, hash: string -> nat, i: nat)
    requires multiset(a) == multiset(b)
    ensures Vote(a, hash, i) == Vote(b, hash, i)
    decreases |a|
  {
    if a == [] {
      assert |b| == |multiset(b)| == 0;
    } else {
      var x := a[|a| - 1];
      assert x in multiset(b);
      var j :| 0 <= j < |b| && b[j] == x;
      var rest := b[..j] + b[j + 1..];
      assert b == b[..j] + [x] + b[j + 1..];
      assert a == a[..|a| - 1] + [x];
      assert multiset(b) == multiset(b[..j]) + multiset{x} + multiset(b[j + 1..]);
      assert multiset(a) == multiset(a[..|a| - 1]) + multiset{x};
      assert multiset(rest) == multiset(b[..j]) + multiset(b[j + 1..]);
      assert multiset(rest) == multiset(b) - multiset{x};
      assert multiset(a[..|a| - 1]) == multiset(a) - multiset{x};
      VotePermutation(a[..|a| - 1], rest, hash, i);
      VoteAppend(b[..j] + [x], b[j + 1..], hash, i);
      VoteAppend(b[..j], [x], hash, i);
      VoteAppend(b[..j], b[j + 1..], hash, i);
      assert [x][..0] == [];
    }
  }

  /** Order independence: the fingerprint depends only on the multiset of tokens. */
  lemma SimhashPermutation(a: seq<string>, b: seq<string>, hash: string -> nat, hashbits: nat)
    requires multiset(a) == multiset(b)
    ensures Simhash(a, hash, hashbits) == Simhash(b, hash, hashbits)
  {
    forall i | 0 <= i < hashbits
      ensures Vote(a, hash, i) == Vote(b, hash, i)
    {
      VotePermutation(a, b, hash, i);
    }
    assert Votes(a, hash, hashbits) == Votes(b, hash, hashbits);
  }

  // ------------------------------------------------------------ similarity

  /** `a ^ b` on non-negative integers. */
  function Xor(a: nat, b: nat): nat
    decreases a + b
  {
    if a == 0 && b == 0 then 0
    else (if a % 2 != b % 2 then 1 else 0) + 2 * Xor(a / 2, b / 2)
  }

  /** `bin(x).count("1")`. */
  function Popcount(x: nat): nat {
    if x == 0 then 0 else x % 2 + Popcount(x / 2)
  }

  /** helpers/indexer.py:180-188; a different pair with zero bits would divide by zero. */
  function Similarity(a: nat, b: nat, hashbits: nat): real
    requires a == b || hashbits > 0
  {
    if a == b then 1.0 else 1.0 - Popcount(Xor(a, b)) as real / hashbits as real
  }

  /** Bit i of `a ^ b` is set exactly when a and b differ in bit i. */
  lemma {:induction false} XorBit(a: nat, b: nat, i: nat)
    ensures Bit(Xor(a, b), i) <==> Bit(a, i) != Bit(b, i)
    decreases i
  {
    if a == 0 && b == 0 {
      BitBelow(0, i);
    } else if i > 0 {
      assert Xor(a, b) / 2 == Xor(a / 2, b / 2);
      XorBit(a / 2, b / 2, i - 1);
    }
  }

  lemma {:induction false} XorSymmetric(a: nat, b: nat)
    ensures Xor(a, b) == Xor(b, a)
    decreases a + b
  {
    if a != 0 || b != 0 {
      XorSymmetric(a / 2, b / 2);
    }
  }

  lemma {:induction false} XorZero(a: nat, b: nat)
    ensures Xor(a, b) == 0 <==> a == b
    decreases a + b
  {
    if a != 0 || b != 0 {
      XorZero(a / 2, b / 2);
    }
  }

  lemma {:induction false} XorBound(a: nat, b: nat, n: nat)
    requires a < Pow2(n) && b < Pow2(n)
    ensures Xor(a, b) < Pow2(n)
    decreases n
  {
    if n > 0 && (a != 0 || b != 0) {
      XorBound(a / 2, b / 2, n - 1);
    }
  }

  lemma {:induction false} PopcountBound(x: nat, n: nat)
    requires x < Pow2(n)
    ensures Popcount(x) <= n
    decreases n
  {
    if n > 0 && x != 0 {
      PopcountBound(x / 2, n - 1);
    }
  }

  lemma {:induction false} PopcountPositive(x: nat)
    requires x != 0
    ensures Popcount(x) >= 1
    decreases x
  {
    if x % 2 == 0 {
      PopcountPositive(x / 2);
    }
  }

  /** A positive count at most n, divided by n, lies in (0, 1]. */
  lemma {:induction false} FractionBounds(p: nat, n: nat)
    requires 1 <= p <= n
    ensures 0.0 < p as real / n as real <= 1.0
  {
    var q := p as real / n as real;
    assert q * n as real == p as real;
  }

  lemma SimilaritySymmetric(a: nat, b: nat, hashbits: nat)
    requires a == b || hashbits > 0
    ensures Similarity(a, b, hashbits) == Similarity(b, a, hashbits)
  {
    XorSymmetric(a, b);
  }

  /** For `hashbits`-wide fingerprints the similarity lies in [0, 1], and is 1 only for equal fingerprints. */
  lemma SimilarityRange(a: nat, b: nat, hashbits: nat)
    requires hashbits > 0 && a < Pow2(hashbits) && b < Pow2(hashbits)
    ensures 0.0 <= Similarity(a, b, hashbits) <= 1.0
    ensures Similarity(a, b, hashbits) == 1.0 <==> a == b
  {
    if a != b {
      XorBound(a, b, hashbits);
      PopcountBound(Xor(a, b), hashbits);
      XorZero(a, b);
      PopcountPositive(Xor(a, b));
      FractionBounds(Popcount(Xor(a, b)), hashbits);
    }
  }
}
