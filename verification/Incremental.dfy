/** The incremental checksum updates of the XDP labs: equation 3 of RFC 1624, and the TTL-only shortcut. */
module Incremental {
  import opened OnesComplement

  datatype Action = Pass | Transmit | Redirect

  /** Link addresses that a route lookup returned for the next hop. */
  datatype NextHop = NextHop(source: seq<Byte>, destination: seq<Byte>)

  function FoldOnce(x: nat): (r: nat) {
    x % 0x10000 + x / 0x10000
  }

  /** The new checksum after one covered word changed. Two folds are enough for three words. */
  function ReplaceChecksumWord(checksum: nat, oldWord: nat, newWord: nat): (r: nat)
    requires checksum <= ALL_ONES && oldWord <= ALL_ONES && newWord <= ALL_ONES
    ensures r <= ALL_ONES
    ensures (r + newWord) % ALL_ONES == (checksum + oldWord) % ALL_ONES
    ensures r == ALL_ONES <==> checksum == oldWord == ALL_ONES && newWord == 0
  {
    var sum := (ALL_ONES - checksum) + (ALL_ONES - oldWord) + newWord;
    ALL_ONES - FoldOnce(FoldOnce(sum))
  }

  /** The checksum for a time to live that is one lower. One fold is enough. */
  function LowerTtlChecksum(checksum: nat): (r: nat)
    requires checksum <= ALL_ONES
    ensures 0 < r <= ALL_ONES
    ensures r % ALL_ONES == (checksum + 0x100) % ALL_ONES
  {
    FoldOnce(checksum + 0x100)
  }

  /** The two updates give one result, except that the shortcut writes 0xffff where equation 3 writes zero. */
  lemma ShortcutAgrees(checksum: nat, word: nat)
    requires checksum <= ALL_ONES && 0x100 <= word <= ALL_ONES
    ensures LowerTtlChecksum(checksum) == ReplaceChecksumWord(checksum, word, word - 0x100) <==> checksum != 0xfeff
    ensures checksum == 0xfeff ==>
              LowerTtlChecksum(checksum) == ALL_ONES && ReplaceChecksumWord(checksum, word, word - 0x100) == 0
  {
  }

  /** `i` is in neither of the two words. */
  predicate Elsewhere(i: nat, checkAt: nat, wordAt: nat) {
    i != checkAt && i != checkAt + 1 && i != wordAt && i != wordAt + 1
  }

  /** Two distinct aligned words of `b` became `check` and `word`, everything else is unchanged. */
  ghost predicate TwoWordsChanged(b: seq<Byte>, c: seq<Byte>, checkAt: nat, wordAt: nat) {
    && |b| == |c| && checkAt % 2 == 0 && wordAt % 2 == 0 && checkAt != wordAt
    && checkAt + 2 <= |b| && wordAt + 2 <= |b|
    && forall i | 0 <= i < |b| && Elsewhere(i, checkAt, wordAt) :: c[i] == b[i]
  }

  /** All bytes outside the two words are zero. */
  predicate RestZero(b: seq<Byte>, checkAt: nat, wordAt: nat) {
    forall i | 0 <= i < |b| && Elsewhere(i, checkAt, wordAt) :: b[i] == 0
  }

  lemma TwoWordSum(b: seq<Byte>, c: seq<Byte>, checkAt: nat, wordAt: nat)
    requires TwoWordsChanged(b, c, checkAt, wordAt)
    ensures WordSum(c) - WordAt(c, checkAt) - WordAt(c, wordAt) == WordSum(b) - WordAt(b, checkAt) - WordAt(b, wordAt)
  {
    var mid := b[checkAt := c[checkAt]][checkAt + 1 := c[checkAt + 1]];
    assert WordAt(mid, wordAt) == WordAt(b, wordAt) && WordAt(mid, checkAt) == WordAt(c, checkAt);
    WordSumChange(b, mid, checkAt);
    WordSumChange(mid, c, wordAt);
  }

  /** The sum splits into the two words and a remainder, which is zero exactly if all other bytes are. */
  lemma SplitSum(b: seq<Byte>, checkAt: nat, wordAt: nat)
    requires checkAt % 2 == 0 && wordAt % 2 == 0 && checkAt != wordAt && checkAt + 2 <= |b| && wordAt + 2 <= |b|
    ensures WordSum(b) >= WordAt(b, checkAt) + WordAt(b, wordAt)
    ensures WordSum(b) == WordAt(b, checkAt) + WordAt(b, wordAt) <==> RestZero(b, checkAt, wordAt)
  {
    var two := b[checkAt := 0][checkAt + 1 := 0][wordAt := 0][wordAt + 1 := 0];
    TwoWordSum(b, two, checkAt, wordAt);
    WordSumZero(two);
    BlankedZero(b, two, checkAt, wordAt);
  }

  lemma BlankedZero(b: seq<Byte>, two: seq<Byte>, checkAt: nat, wordAt: nat)
    requires |two| == |b| && checkAt + 2 <= |b| && wordAt + 2 <= |b|
    requires two[checkAt] == two[checkAt + 1] == two[wordAt] == two[wordAt + 1] == 0
    requires forall i | 0 <= i < |b| && Elsewhere(i, checkAt, wordAt) :: two[i] == b[i]
    ensures (forall i | 0 <= i < |two| :: two[i] == 0) <==> RestZero(b, checkAt, wordAt)
  {
    if RestZero(b, checkAt, wordAt) {
      forall i | 0 <= i < |two|
        ensures two[i] == 0
      {
        if Elsewhere(i, checkAt, wordAt) { assert b[i] == 0; }
      }
    } else {
      var i :| 0 <= i < |b| && Elsewhere(i, checkAt, wordAt) && b[i] != 0;
      assert two[i] != 0;
    }
  }

  /** When equation 3 empties the whole sum: `check` and `word` are the old words, `rest` sums the others. */
  lemma WhenAllZero(check: nat, word: nat, newWord: nat, rest: nat)
    requires check <= ALL_ONES && word <= ALL_ONES && newWord <= ALL_ONES
    requires check + word + rest > 0 && (check + word + rest) % ALL_ONES == 0
    ensures ReplaceChecksumWord(check, word, newWord) + newWord + rest == 0
            <==> newWord == 0 && rest == 0 && !(check == word == ALL_ONES)
  {
    if newWord == 0 && rest == 0 {
      assert check + word == ALL_ONES || check + word == 2 * ALL_ONES;
    }
  }

  /**
   Equation 3 keeps valid data valid, with one exact exception: if the new word and every other byte
   are zero, the result is all zeros, which a receiver rejects. (An old word and checksum of 0xffff
   escape even that.)
   */
  lemma ReplaceKeepsValid(b: seq<Byte>, c: seq<Byte>, checkAt: nat, wordAt: nat)
    requires TwoWordsChanged(b, c, checkAt, wordAt) && Verifies(b)
    requires WordAt(c, checkAt) == ReplaceChecksumWord(WordAt(b, checkAt), WordAt(b, wordAt), WordAt(c, wordAt))
    ensures Verifies(c) <==>
              !(WordAt(c, wordAt) == 0 && RestZero(b, checkAt, wordAt)
                && !(WordAt(b, checkAt) == WordAt(b, wordAt) == ALL_ONES))
  {
    TwoWordSum(b, c, checkAt, wordAt);
    SplitSum(b, checkAt, wordAt);
    VerifiesIffMultiple(b);
    VerifiesIffMultiple(c);
    var rest := WordSum(b) - WordAt(b, checkAt) - WordAt(b, wordAt);
    SameResidue(WordAt(b, checkAt) + WordAt(b, wordAt), WordAt(c, checkAt) + WordAt(c, wordAt), rest);
    WhenAllZero(WordAt(b, checkAt), WordAt(b, wordAt), WordAt(c, wordAt), rest);
  }

  /** An echo request without identifier, sequence number and payload is turned into a reply that no one accepts. */
  lemma EmptyEchoBreaks()
    ensures var request: seq<Byte> := [8, 0, 0xf7, 0xff, 0, 0, 0, 0];
            var reply := SetWord(SetWord(request, 2, ReplaceChecksumWord(0xf7ff, 0x800, 0)), 0, 0);
            Verifies(request) && !Verifies(reply)
  {
    var request: seq<Byte> := [8, 0, 0xf7, 0xff, 0, 0, 0, 0];
    SplitSum(request, 2, 0);
    assert RestZero(request, 2, 0);
    VerifiesIffMultiple(request);
    var reply := SetWord(SetWord(request, 2, ReplaceChecksumWord(0xf7ff, 0x800, 0)), 0, 0);
    ReplaceKeepsValid(request, reply, 2, 0);
  }

  /** The TTL shortcut keeps valid data valid without exception: it never writes a zero checksum. */
  lemma LowerTtlKeepsValid(b: seq<Byte>, c: seq<Byte>, checkAt: nat, wordAt: nat)
    requires TwoWordsChanged(b, c, checkAt, wordAt) && Verifies(b)
    requires WordAt(b, wordAt) >= 0x100 && WordAt(c, wordAt) == WordAt(b, wordAt) - 0x100
    requires WordAt(c, checkAt) == LowerTtlChecksum(WordAt(b, checkAt))
    ensures Verifies(c)
  {
    TwoWordSum(b, c, checkAt, wordAt);
    SplitSum(b, checkAt, wordAt);
    VerifiesIffMultiple(b);
    VerifiesIffMultiple(c);
    var rest := WordSum(b) - WordAt(b, checkAt) - WordAt(b, wordAt);
    SameResidue(LowerTtlChecksum(WordAt(b, checkAt)), WordAt(b, checkAt) + 0x100, WordAt(c, wordAt) + rest);
  }
}
