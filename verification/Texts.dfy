/** Facts about texts: white space, numbers, names. */
module Texts {
  import opened Options

  predicate Digit(c: char) { '0' <= c <= '9' }

  predicate Lower(c: char) { 'a' <= c <= 'z' }

  /**
   A name of a deployment or a node: a lower-case letter, then up to 31 of letters, digits, underscores and
   hyphens.
   */
  predicate ValidName(name: string) {
    && 1 <= |name| <= 32 && Lower(name[0])
    && forall i | 1 <= i < |name| :: Lower(name[i]) || Digit(name[i]) || name[i] == '_' || name[i] == '-'
  }

  predicate Space(c: char) {
    || '\t' <= c <= '\r' || '\U{1c}' <= c <= ' ' || c == '\U{85}' || c == '\U{a0}' || c == '\U{1680}'
    || '\U{2000}' <= c <= '\U{200a}' || c == '\U{2028}' || c == '\U{2029}' || c == '\U{202f}' || c == '\U{205f}'
       || c == '\U{3000}'
  }

  function Strip(s: string): (r: string) {
    if s != "" && Space(s[0]) then Strip(s[1..])
    else if s != "" && Space(s[|s| - 1]) then Strip(s[..|s| - 1])
    else s
  }

  /** The text without the white space around it. */
  lemma {:induction false} StripMeans(s: string) returns (i: nat, j: nat)
    ensures i <= j <= |s| && Strip(s) == s[i..j]
    ensures (forall k | 0 <= k < i || j <= k < |s| :: Space(s[k])) && (i < j ==> !Space(s[i]) && !Space(s[j - 1]))
  {
    if s != "" && Space(s[0]) {
      var a, b := StripMeans(s[1..]);
      i, j := a + 1, b + 1;
      assert forall k | 0 < k < |s| :: s[k] == s[1..][k - 1];
      assert s[1..][a..b] == s[i..j];
    } else if s != "" && Space(s[|s| - 1]) {
      i, j := StripMeans(s[..|s| - 1]);
      assert s[..|s| - 1][i..j] == s[i..j];
      assert forall k | 0 <= k < |s| - 1 :: s[k] == s[..|s| - 1][k];
    } else {
      i, j := 0, |s|;
    }
  }

  /** Longest run of digits that the integer conversion takes. */
  const MAX_DIGITS := 4300

  function LeadingDigits(s: string): (k: nat)
    ensures k <= |s| && (forall i | 0 <= i < k :: Digit(s[i])) && (k < |s| ==> !Digit(s[k]))
  {
    if s == "" || !Digit(s[0]) then 0 else 1 + LeadingDigits(s[1..])
  }

  function ValueOf(digits: string): (r: nat)
    requires forall i | 0 <= i < |digits| :: Digit(digits[i])
  {
    if digits == "" then 0
    else
      assert Digit(digits[|digits| - 1]);
      10 * ValueOf(digits[..|digits| - 1]) + (digits[|digits| - 1] as int - '0' as int)
  }

  lemma NoSpaces(s: string)
    requires s != "" && !Space(s[0]) && !Space(s[|s| - 1])
    ensures Strip(s) == s
  {
  }

  predicate Ascii(s: string) {
    forall i | 0 <= i < |s| :: s[i] < '\U{80}'
  }

  /** Digits, with single underscores between them. */
  predicate Grouped(s: string) {
    && s != "" && Digit(s[0]) && Digit(s[|s| - 1])
    && forall i | 0 <= i < |s| :: Digit(s[i]) || (s[i] == '_' && 0 < i < |s| - 1 && Digit(s[i + 1]))
  }

  function DigitsOf(s: string): (digits: string)
    ensures forall i | 0 <= i < |digits| :: Digit(digits[i])
  {
    if s == "" then ""
    else
      var rest := DigitsOf(s[..|s| - 1]);
      if Digit(s[|s| - 1]) then rest + [s[|s| - 1]] else rest
  }

  /** A text as an integer: white space around it, a sign and grouping are allowed, too many digits are not. */
  function IntOf(text: string): (r: Option<int>) {
    var s := Strip(text);
    var signed := s != "" && (s[0] == '+' || s[0] == '-');
    var body := if signed then s[1..] else s;
    var digits := DigitsOf(body);
    var size: int := ValueOf(digits);
    if !Grouped(body) || |digits| > MAX_DIGITS then None
    else Some(if signed && s[0] == '-' then -size else size)
  }

  predicate Lacks(s: string, c: char) {
    forall i | 0 <= i < |s| :: s[i] != c
  }

  /** If neither head has the separator, the first separator ends both. */
  lemma SplitOnce(head: string, tail: string, head': string, tail': string, c: char)
    requires Lacks(head, c) && Lacks(head', c) && head + [c] + tail == head' + [c] + tail'
    ensures head == head' && tail == tail'
  {
    var whole := head + [c] + tail;
    assert whole[|head|] == c && whole[|head'|] == c;
    assert forall i | 0 <= i < |head| :: whole[i] == head[i];
    assert forall i | 0 <= i < |head'| :: whole[i] == head'[i];
    assert whole[..|head|] == head && whole[..|head'|] == head';
    assert whole[|head| + 1..] == tail && whole[|head'| + 1..] == tail';
  }
}
