/** One's-complement arithmetic of the Internet checksum (section 1 of RFC 1071) over bytes in network order. */
module OnesComplement {
  type Byte = x: int | 0 <= x < 0x100

  const ALL_ONES := 0xffff

  function Word(high: int, low: int): (r: int) {
    high * 0x100 + low
  }

  /** The plain sum of the 16-bit words; an odd last byte counts as the high half of a word. */
  function WordSum(b: seq<Byte>): (r: nat) {
    if b == [] then 0
    else if |b| == 1 then Word(b[0], 0)
    else Word(b[0], b[1]) + WordSum(b[2..])
  }

  /** Adding the carries back until 16 bits are enough. */
  function Fold(x: nat): (r: nat) {
    if x < 0x10000 then x else Fold(x % 0x10000 + x / 0x10000)
  }

  /** One's-complement addition of two words: the carry out of the top goes in at the bottom. */
  function OnesAdd(x: nat, y: nat): (r: nat) {
    if x + y < 0x10000 then x + y else x + y - ALL_ONES
  }

  /** The one's-complement sum as the standard defines it, word by word. */
  function OnesSum(b: seq<Byte>): (r: nat) {
    if b == [] then 0
    else if |b| == 1 then Word(b[0], 0)
    else OnesAdd(Word(b[0], b[1]), OnesSum(b[2..]))
  }

  /** A receiver accepts data whose one's-complement sum, checksum field included, is all ones. */
  predicate Verifies(b: seq<Byte>) {
    OnesSum(b) == ALL_ONES
  }

  lemma {:induction false} FoldKeepsResidue(x: nat)
    ensures Fold(x) <= ALL_ONES
    ensures Fold(x) % ALL_ONES == x % ALL_ONES
    ensures Fold(x) == 0 <==> x == 0
  {
    if x >= 0x10000 {
      var high, low := x / 0x10000, x % 0x10000;
      assert x == low + high + high * ALL_ONES;
      assert (low + high + high * ALL_ONES) % ALL_ONES == (low + high) % ALL_ONES by {
        MultipleVanishes(low + high, high);
      }
      FoldKeepsResidue(low + high);
    }
  }

  lemma {:induction false} MultipleVanishes(x: int, k: int)
    ensures (x + k * ALL_ONES) % ALL_ONES == x % ALL_ONES
    decreases if k < 0 then -k else k
  {
    if k > 0 {
      MultipleVanishes(x, k - 1);
      assert x + k * ALL_ONES == x + (k - 1) * ALL_ONES + ALL_ONES;
    } else if k < 0 {
      MultipleVanishes(x, k + 1);
      assert x + k * ALL_ONES + ALL_ONES == x + (k + 1) * ALL_ONES;
    }
  }

  /** Two words below 2^16 with one residue and one zeroness are equal. */
  lemma SameWord(x: nat, y: nat)
    requires x <= ALL_ONES && y <= ALL_ONES && x % ALL_ONES == y % ALL_ONES && (x == 0 <==> y == 0)
    ensures x == y
  {
  }

  lemma SameResidue(x: nat, y: nat, rest: nat)
    requires x % ALL_ONES == y % ALL_ONES
    ensures (x + rest) % ALL_ONES == (y + rest) % ALL_ONES
  {
    var r := x % ALL_ONES;
    MultipleVanishes(r + rest, x / ALL_ONES);
    MultipleVanishes(r + rest, y / ALL_ONES);
    assert x + rest == r + rest + x / ALL_ONES * ALL_ONES;
    assert y + rest == r + rest + y / ALL_ONES * ALL_ONES;
  }

  /** Carrying around keeps the residue, and the sum of words is zero only if both are. */
  lemma OnesAddResidue(w: nat, sum: nat, wide: nat)
    requires w <= ALL_ONES && sum <= ALL_ONES && sum % ALL_ONES == wide % ALL_ONES && (sum == 0 <==> wide == 0)
    ensures OnesAdd(w, sum) <= ALL_ONES && (OnesAdd(w, sum) == 0 <==> w + wide == 0)
    ensures OnesAdd(w, sum) % ALL_ONES == (w + wide) % ALL_ONES
  {
    SameResidue(sum, wide, w);
    MultipleVanishes(w + sum, -1);
  }

  lemma {:induction false} OnesSumResidue(b: seq<Byte>)
    ensures OnesSum(b) <= ALL_ONES
    ensures OnesSum(b) % ALL_ONES == WordSum(b) % ALL_ONES
    ensures OnesSum(b) == 0 <==> WordSum(b) == 0
  {
    if |b| > 1 {
      OnesSumResidue(b[2..]);
      OnesAddResidue(Word(b[0], b[1]), OnesSum(b[2..]), WordSum(b[2..]));
    }
  }

  /** Summing wide and folding once at the end computes the one's-complement sum. */
  lemma FoldedSumIsOnesSum(b: seq<Byte>)
    ensures Fold(WordSum(b)) == OnesSum(b)
  {
    FoldKeepsResidue(WordSum(b));
    OnesSumResidue(b);
    SameWord(Fold(WordSum(b)), OnesSum(b));
  }

  lemma SmallResidue(x: nat)
    requires x <= ALL_ONES
    ensures x % ALL_ONES == if x == ALL_ONES then 0 else x
  {
  }

  lemma VerifiesIffMultiple(b: seq<Byte>)
    ensures Verifies(b) <==> WordSum(b) > 0 && WordSum(b) % ALL_ONES == 0
  {
    OnesSumResidue(b);
    SmallResidue(OnesSum(b));
  }

  lemma {:induction false} WordSumBound(b: seq<Byte>)
    ensures WordSum(b) <= (|b| + 1) / 2 * ALL_ONES
  {
    if |b| > 1 {
      WordSumBound(b[2..]);
    }
  }

  function WordAt(b: seq<Byte>, at: nat): (w: nat)
    requires at + 2 <= |b|
  {
    Word(b[at], b[at + 1])
  }

  function SetWord(b: seq<Byte>, at: nat, w: nat): (r: seq<Byte>)
    requires at + 2 <= |b| && w <= ALL_ONES
    ensures |r| == |b| && WordAt(r, at) == w
    ensures forall i | 0 <= i < |b| && i != at && i != at + 1 :: r[i] == b[i]
  {
    b[at := w / 0x100][at + 1 := w % 0x100]
  }

  /** Rewriting one aligned word moves the sum by exactly the difference. */
  lemma {:induction false} WordSumChange(b: seq<Byte>, c: seq<Byte>, at: nat)
    requires |b| == |c| && at + 2 <= |b| && at % 2 == 0
    requires forall i | 0 <= i < |b| && i != at && i != at + 1 :: b[i] == c[i]
    ensures WordSum(c) - WordAt(c, at) == WordSum(b) - WordAt(b, at)
    ensures WordSum(b) >= WordAt(b, at)
  {
    if at == 0 {
      assert b[2..] == c[2..];
    } else {
      WordSumChange(b[2..], c[2..], at - 2);
    }
  }

  /** The sum is zero exactly for all-zero data. */
  lemma {:induction false} WordSumZero(b: seq<Byte>)
    ensures WordSum(b) == 0 <==> forall i | 0 <= i < |b| :: b[i] == 0
  {
    if |b| > 1 {
      WordSumZero(b[2..]);
      assert forall i | 0 <= i < |b| - 2 :: b[2..][i] == b[i + 2];
      if WordSum(b[2..]) == 0 {
        assert forall i | 2 <= i < |b| :: b[i] == b[2..][i - 2];
      }
    }
  }
}
