/** Rates and sizes of the traffic-control subset: text to bytes and back. */
module TrafficRates {
  import opened Texts

  /** What a conversion ends with: a value, a refusal, or a lookup that fails without being meant to. */
  datatype Outcome<T> = Accepted(value: T) | Refused | UnknownUnit

  const MAX_BYTES := 0xffffffff

  /** Letters match regardless of case; the Kelvin sign is a k, and a dotless or dotted i passes for an i. */
  predicate CharMatches(c: char, letter: char) {
    || c == letter
    || ('A' <= c <= 'Z' && (c as int) + 32 == letter as int)
    || (letter == 'k' && c == '\U{212a}')
    || (letter == 'i' && (c == '\U{131}' || c == '\U{130}'))
  }

  predicate UnitMatches(text: string, unit: string) {
    |text| == |unit| && forall i | 0 <= i < |text| :: CharMatches(text[i], unit[i])
  }

  /** After lower-casing, the two odd letters are still no plain i. */
  predicate Plain(text: string) {
    forall i | 0 <= i < |text| :: text[i] != '\U{131}' && text[i] != '\U{130}'
  }

  /** A unit and what it stands for. */
  datatype Unit = Unit(name: string, factor: nat)

  const RATE_UNITS := [Unit("gbit", 1_000_000_000), Unit("mbit", 1_000_000), Unit("kbit", 1_000), Unit("bit", 1)]

  const SIZE_UNITS := [
    Unit("gb", 0x4000_0000), Unit("mb", 0x10_0000), Unit("kb", 0x400), Unit("b", 1),
    Unit("g", 0x4000_0000), Unit("m", 0x10_0000), Unit("k", 0x400)]

  /** The factor of the unit that a text matches, zero for none. */
  function FactorOf(units: seq<Unit>, text: string): (r: nat) {
    if units == [] then 0
    else if UnitMatches(text, units[0].name) then units[0].factor
    else FactorOf(units[1..], text)
  }

  /** Digits, then a unit, and nothing else: the amount it stands for. */
  function Amount(units: seq<Unit>, s: string): (r: Outcome<nat>) {
    var k := LeadingDigits(s);
    var factor := FactorOf(units, s[k..]);
    if k == 0 || factor == 0 || k > MAX_DIGITS then Refused
    else if !Plain(s[k..]) then UnknownUnit
    else Accepted(ValueOf(s[..k]) * factor)
  }

  function Decimal(n: nat): (s: string)
    ensures s != "" && forall i | 0 <= i < |s| :: Digit(s[i])
  {
    if n < 10 then [DigitOf(n)] else Decimal(n / 10) + [DigitOf(n % 10)]
  }

  function DigitOf(d: nat): (c: char)
    requires d < 10
    ensures Digit(c) && c as int == '0' as int + d
  {
    ('0' as int + d) as char
  }

  /** The largest unit of the first `k` that divides. */
  function Render(units: seq<Unit>, n: nat): (r: Outcome<string>)
    requires forall i | 0 <= i < |units| :: units[i].factor > 0
  {
    if units == [] then Refused
    else if n % units[0].factor == 0 then Accepted(Decimal(n / units[0].factor) + units[0].name)
    else Render(units[1..], n)
  }

  function FormatRateBytes(bytes: nat): (r: Outcome<string>) {
    Render(RATE_UNITS, 8 * bytes)
  }

  function RateBytes(value: string): (r: Outcome<nat>) {
    WholeBytes(Amount(RATE_UNITS, Strip(value)))
  }

  function WholeBytes(bits: Outcome<nat>): (r: Outcome<nat>) {
    if !bits.Accepted? then bits
    else if bits.value < 8 || bits.value % 8 != 0 || bits.value / 8 > MAX_BYTES then Refused
    else Accepted(bits.value / 8)
  }

  function NormalizeRate(value: string): (r: Outcome<string>) {
    match RateBytes(value)
    case Accepted(bytes) => FormatRateBytes(bytes)
    case Refused => Refused
    case UnknownUnit => UnknownUnit
  }

  /** The canonical text is read once more, without folding case. */
  function RateToBytes(value: string): (r: Outcome<nat>) {
    match NormalizeRate(value)
    case Accepted(canonical) =>
      var bits := Amount(RATE_UNITS, canonical);
      if bits.Accepted? then Accepted(bits.value / 8) else bits
    case Refused => Refused
    case UnknownUnit => UnknownUnit
  }

  function FormatRate(bytes: int): (r: Outcome<string>) {
    if 0 < bytes <= MAX_BYTES then FormatRateBytes(bytes) else Refused
  }

  /** A size is a number or a text. */
  datatype Size = Number(number: int) | Written(text: string)

  function ParseSize(value: Size): (r: Outcome<nat>) {
    var amount := match value
      case Number(n) => if n < 0 then Refused else Accepted(n)
      case Written(s) => Amount(SIZE_UNITS, Strip(s));
    if amount.Accepted? && !(0 < amount.value <= MAX_BYTES) then Refused else amount
  }

  function FormatSize(n: int): (r: Outcome<string>) {
    if n <= 0 then Refused else Render(SIZE_UNITS[..4], n)
  }

  // Text and back.

  lemma {:induction false} DecimalValue(n: nat)
    ensures ValueOf(Decimal(n)) == n
  {
    if n >= 10 {
      DecimalValue(n / 10);
      assert Decimal(n)[..|Decimal(n)| - 1] == Decimal(n / 10);
    }
  }

  function Power10(k: nat): (r: nat) {
    if k == 0 then 1 else 10 * Power10(k - 1)
  }

  lemma {:induction false} DecimalLength(n: nat, k: nat)
    requires 0 < k && n < Power10(k)
    ensures |Decimal(n)| <= k
  {
    if n >= 10 {
      DecimalLength(n / 10, k - 1);
    }
  }

  lemma {:induction false} DigitsEnd(digits: string, rest: string)
    requires (forall i | 0 <= i < |digits| :: Digit(digits[i])) && (rest == "" || !Digit(rest[0]))
    ensures LeadingDigits(digits + rest) == |digits|
  {
    if digits == "" {
      assert digits + rest == rest;
    } else {
      assert (digits + rest)[1..] == digits[1..] + rest;
      DigitsEnd(digits[1..], rest);
    }
  }

  /** A number written with a unit reads as that many units. */
  lemma AmountOf(units: seq<Unit>, n: nat, unit: string)
    requires n < Power10(12) && unit != "" && !Digit(unit[0]) && Plain(unit) && FactorOf(units, unit) > 0
    ensures Amount(units, Decimal(n) + unit) == Accepted(n * FactorOf(units, unit))
  {
    var s := Decimal(n) + unit;
    DigitsEnd(Decimal(n), unit);
    assert s[..|Decimal(n)|] == Decimal(n) && s[|Decimal(n)|..] == unit;
    DecimalValue(n);
    DecimalLength(n, 12);
  }

  /** Texts of different lengths are different units, and so are texts that differ in the first letter. */
  lemma RateFactors()
    ensures FactorOf(RATE_UNITS, "gbit") == 1_000_000_000 && FactorOf(RATE_UNITS, "mbit") == 1_000_000
    ensures FactorOf(RATE_UNITS, "kbit") == 1_000 && FactorOf(RATE_UNITS, "bit") == 1
  {
    var u := RATE_UNITS;
    assert !UnitMatches("mbit", "gbit") by { assert !CharMatches("mbit"[0], "gbit"[0]); }
    assert !UnitMatches("kbit", "gbit") by { assert !CharMatches("kbit"[0], "gbit"[0]); }
    assert !UnitMatches("kbit", "mbit") by { assert !CharMatches("kbit"[0], "mbit"[0]); }
    assert FactorOf(u[1..], "mbit") == 1_000_000;
    assert u[1..][1..] == u[2..] && u[2..][1..] == u[3..];
    assert FactorOf(u[2..], "kbit") == 1_000 && FactorOf(u[3..], "bit") == 1;
    assert FactorOf(u[2..], "bit") == 1 && FactorOf(u[1..], "bit") == 1;
  }

  lemma SizeFactors()
    ensures FactorOf(SIZE_UNITS, "gb") == 0x4000_0000 && FactorOf(SIZE_UNITS, "mb") == 0x10_0000
    ensures FactorOf(SIZE_UNITS, "kb") == 0x400 && FactorOf(SIZE_UNITS, "b") == 1
  {
    var u := SIZE_UNITS;
    assert !UnitMatches("mb", "gb") by { assert !CharMatches("mb"[0], "gb"[0]); }
    assert !UnitMatches("kb", "gb") by { assert !CharMatches("kb"[0], "gb"[0]); }
    assert !UnitMatches("kb", "mb") by { assert !CharMatches("kb"[0], "mb"[0]); }
    assert FactorOf(u[1..], "mb") == 0x10_0000;
    assert u[1..][1..] == u[2..] && u[2..][1..] == u[3..];
    assert FactorOf(u[2..], "kb") == 0x400 && FactorOf(u[3..], "b") == 1;
    assert FactorOf(u[2..], "b") == 1 && FactorOf(u[1..], "b") == 1;
  }

  /** What can follow the digits of a rendered amount. */
  ghost predicate GoodUnit(units: seq<Unit>, u: Unit) {
    && u.name != "" && !Digit(u.name[0]) && !Space(u.name[|u.name| - 1]) && Plain(u.name)
    && u.factor > 0 && FactorOf(units, u.name) == u.factor
  }

  lemma {:induction false} ProductGrows(q: nat, f: nat)
    requires f > 0
    ensures q * f >= q
  {
    if f > 1 {
      ProductGrows(q, f - 1);
      assert q * f == q * (f - 1) + q;
    }
  }

  lemma LargeRatesGood()
    ensures GoodUnit(RATE_UNITS, RATE_UNITS[0]) && GoodUnit(RATE_UNITS, RATE_UNITS[1])
  {
    RateFactors();
  }

  lemma SmallRatesGood()
    ensures GoodUnit(RATE_UNITS, RATE_UNITS[2]) && GoodUnit(RATE_UNITS, RATE_UNITS[3])
  {
    RateFactors();
  }

  lemma RateUnitsGood()
    ensures forall i | 0 <= i < |RATE_UNITS| :: RATE_UNITS[i].factor > 0 && GoodUnit(RATE_UNITS, RATE_UNITS[i])
  {
    LargeRatesGood();
    SmallRatesGood();
  }

  lemma SizeUnitsGood()
    ensures forall i | 0 <= i < 4 :: SIZE_UNITS[i].factor > 0 && GoodUnit(SIZE_UNITS, SIZE_UNITS[i])
  {
    SizeFactors();
    var u := SIZE_UNITS;
    assert GoodUnit(u, u[0]) && GoodUnit(u, u[1]) && GoodUnit(u, u[2]) && GoodUnit(u, u[3]);
  }

  lemma ExactQuotient(n: nat, f: nat, q: nat)
    requires f > 0 && n % f == 0 && q == n / f
    ensures q * f == n && q <= n
  {
    assert q * f == n;
    ProductGrows(q, f);
  }

  lemma RenderedReads(units: seq<Unit>, n: nat, u: Unit)
    requires n < Power10(12) && GoodUnit(units, u) && n % u.factor == 0
    ensures var t := Decimal(n / u.factor) + u.name; Strip(t) == t && Amount(units, t) == Accepted(n)
  {
    ExactQuotient(n, u.factor, n / u.factor);
    var t := Decimal(n / u.factor) + u.name;
    assert Digit(t[0]) && t[|t| - 1] == u.name[|u.name| - 1];
    NoSpaces(t);
    AmountOf(units, n / u.factor, u.name);
  }

  /** Whatever unit is chosen, the text reads as the number. */
  lemma {:induction false} RenderReads(all: seq<Unit>, units: seq<Unit>, n: nat)
    requires n < Power10(12) && units != [] && units[|units| - 1].factor == 1
    requires forall i | 0 <= i < |units| :: units[i].factor > 0 && GoodUnit(all, units[i])
    ensures Render(units, n).Accepted?
    ensures var t := Render(units, n).value; Strip(t) == t && Amount(all, t) == Accepted(n)
  {
    if n % units[0].factor == 0 {
      RenderedReads(all, n, units[0]);
    } else {
      assert units[1..] != [] && units[1..][|units[1..]| - 1] == units[|units| - 1];
      assert forall i | 0 <= i < |units[1..]| :: units[1..][i] == units[i + 1];
      RenderReads(all, units[1..], n);
    }
  }

  lemma RateTextReads(bytes: nat)
    requires 0 < bytes <= MAX_BYTES
    ensures FormatRateBytes(bytes).Accepted?
    ensures var t := FormatRateBytes(bytes).value; Strip(t) == t && Amount(RATE_UNITS, t) == Accepted(8 * bytes)
  {
    RateUnitsGood();
    PowerTwelve();
    RenderReads(RATE_UNITS, RATE_UNITS, 8 * bytes);
  }

  lemma PowerTwelve()
    ensures Power10(12) == 1_000_000_000_000
  {
    assert Power10(4) == 10_000;
    assert Power10(8) == 10_000 * 10_000;
  }

  /** The kernel's byte rate survives being written as text, over its whole range. */
  lemma RateRoundTrip(bytes: int)
    requires 0 < bytes <= MAX_BYTES
    ensures FormatRate(bytes).Accepted? && RateToBytes(FormatRate(bytes).value) == Accepted(bytes)
    ensures NormalizeRate(FormatRate(bytes).value) == FormatRate(bytes)
  {
    RateTextReads(bytes);
    var t := FormatRateBytes(bytes).value;
    assert 0 < bytes <= 0xffffffff && RateBytes(t) == WholeBytes(Amount(RATE_UNITS, t)) == Accepted(bytes);
  }

  /** Normalization gives the text of the byte rate. It keeps the rate and changes nothing the second time. */
  lemma NormalizeIsCanonical(value: string)
    requires NormalizeRate(value).Accepted?
    ensures var t := NormalizeRate(value).value;
            && NormalizeRate(t) == Accepted(t) && RateToBytes(t) == RateToBytes(value)
            && RateToBytes(value).Accepted? && 0 < RateToBytes(value).value <= MAX_BYTES
            && FormatRate(RateToBytes(value).value) == Accepted(t)
  {
    var bytes := RateBytes(value).value;
    RateTextReads(bytes);
    RateRoundTrip(bytes);
  }

  /** Two accepted rates have one canonical text exactly if they are the same number of bytes. */
  lemma SameTextSameRate(v: string, w: string)
    requires NormalizeRate(v).Accepted? && NormalizeRate(w).Accepted?
    ensures NormalizeRate(v) == NormalizeRate(w) <==> RateToBytes(v) == RateToBytes(w)
  {
    NormalizeIsCanonical(v);
    NormalizeIsCanonical(w);
  }

  /** A byte count survives being written as text, over its whole range. */
  lemma SizeRoundTrip(n: int)
    requires 0 < n <= MAX_BYTES
    ensures FormatSize(n).Accepted? && ParseSize(Written(FormatSize(n).value)) == Accepted(n)
  {
    SizeUnitsGood();
    PowerTwelve();
    var units := SIZE_UNITS[..4];
    RenderReads(SIZE_UNITS, units, n);
  }

  // What is accepted, told without the tables of units.

  function Power(base: nat, e: nat): (r: nat) {
    if e == 0 then 1 else base * Power(base, e - 1)
  }

  /** The letter of the e-th power: kilo, mega, giga. */
  predicate Prefix(c: char, e: nat) {
    (e == 1 && CharMatches(c, 'k')) || (e == 2 && CharMatches(c, 'm')) || (e == 3 && CharMatches(c, 'g'))
  }

  /** A size ends in b, or in a prefix that may stand alone. */
  predicate SizeSuffix(s: string, e: nat) {
    || (e == 0 && |s| == 1 && CharMatches(s[0], 'b'))
    || (|s| == 1 && Prefix(s[0], e))
    || (|s| == 2 && Prefix(s[0], e) && CharMatches(s[1], 'b'))
  }

  /** A rate ends in bit, perhaps with a prefix. */
  predicate RateSuffix(s: string, e: nat) {
    || (e == 0 && UnitMatches(s, "bit"))
    || (|s| == 4 && Prefix(s[0], e) && UnitMatches(s[1..], "bit"))
  }

  lemma PowersOf(base: nat)
    ensures Power(base, 0) == 1 && Power(base, 1) == base && Power(base, 2) == base * base
    ensures Power(base, 3) == base * (base * base)
  {
    assert Power(base, 1) == base * Power(base, 0);
    assert Power(base, 2) == base * Power(base, 1);
    assert Power(base, 3) == base * Power(base, 2);
  }

  lemma MatchesOne(s: string, x: char)
    ensures UnitMatches(s, [x]) <==> |s| == 1 && CharMatches(s[0], x)
  {
  }

  lemma MatchesTwo(s: string, x: char, y: char)
    ensures UnitMatches(s, [x, y]) <==> |s| == 2 && CharMatches(s[0], x) && CharMatches(s[1], y)
  {
  }

  lemma MatchesBit(s: string, x: char, unit: string)
    requires unit == [x] + "bit"
    ensures UnitMatches(s, unit) <==> |s| == 4 && CharMatches(s[0], x) && UnitMatches(s[1..], "bit")
  {
    assert unit[1..] == "bit" && forall i | 0 <= i < 3 :: unit[i + 1] == "bit"[i];
    if |s| == 4 {
      assert forall i | 0 <= i < 3 :: s[1..][i] == s[i + 1];
      if CharMatches(s[0], x) && UnitMatches(s[1..], "bit") {
        forall i | 0 <= i < 4
          ensures CharMatches(s[i], unit[i])
        {
          if i > 0 { assert CharMatches(s[1..][i - 1], "bit"[i - 1]); }
        }
      }
    }
  }

  /** The factor of the first unit that matches. */
  lemma {:induction false} FactorFound(units: seq<Unit>, text: string, i: nat)
    requires i < |units| && UnitMatches(text, units[i].name)
    requires forall j | 0 <= j < i :: !UnitMatches(text, units[j].name)
    ensures FactorOf(units, text) == units[i].factor
  {
    if i > 0 {
      assert units[1..][i - 1] == units[i];
      assert forall j | 0 <= j < i - 1 :: units[1..][j] == units[j + 1];
      FactorFound(units[1..], text, i - 1);
    }
  }

  lemma {:induction false} NoFactor(units: seq<Unit>, text: string)
    requires forall j | 0 <= j < |units| :: !UnitMatches(text, units[j].name)
    ensures FactorOf(units, text) == 0
  {
    if units != [] {
      assert forall j | 0 <= j < |units[1..]| :: units[1..][j] == units[j + 1];
      NoFactor(units[1..], text);
    }
  }

  lemma SizeTable(s: string)
    ensures UnitMatches(s, SIZE_UNITS[0].name) <==> |s| == 2 && Prefix(s[0], 3) && CharMatches(s[1], 'b')
    ensures UnitMatches(s, SIZE_UNITS[1].name) <==> |s| == 2 && Prefix(s[0], 2) && CharMatches(s[1], 'b')
    ensures UnitMatches(s, SIZE_UNITS[2].name) <==> |s| == 2 && Prefix(s[0], 1) && CharMatches(s[1], 'b')
    ensures UnitMatches(s, SIZE_UNITS[3].name) <==> |s| == 1 && CharMatches(s[0], 'b')
    ensures UnitMatches(s, SIZE_UNITS[4].name) <==> |s| == 1 && Prefix(s[0], 3)
    ensures UnitMatches(s, SIZE_UNITS[5].name) <==> |s| == 1 && Prefix(s[0], 2)
    ensures UnitMatches(s, SIZE_UNITS[6].name) <==> |s| == 1 && Prefix(s[0], 1)
  {
    MatchesTwo(s, 'g', 'b');
    MatchesTwo(s, 'm', 'b');
    MatchesTwo(s, 'k', 'b');
    MatchesOne(s, 'b');
    MatchesOne(s, 'g');
    MatchesOne(s, 'm');
    MatchesOne(s, 'k');
  }

  /** The powers of 1024 are the factors of sizes, and nothing else has one. */
  lemma SizeFactor(s: string)
    ensures forall e {:trigger SizeSuffix(s, e)} | SizeSuffix(s, e) :: FactorOf(SIZE_UNITS, s) == Power(1024, e) > 0
    ensures FactorOf(SIZE_UNITS, s) > 0 ==> exists e :: SizeSuffix(s, e)
  {
    SizeTable(s);
    PowersOf(1024);
    if i :| SizeUnitAt(s, i) {
      FactorFound(SIZE_UNITS, s, i);
      var e := if i < 3 then 3 - i else if i == 3 then 0 else 7 - i;
      assert SizeSuffix(s, e);
    } else {
      NoneOfSeven(s);
      NoFactor(SIZE_UNITS, s);
    }
  }

  ghost predicate SizeUnitAt(s: string, i: int) {
    0 <= i < 7 && UnitMatches(s, SIZE_UNITS[i].name) && forall j | 0 <= j < i :: !UnitMatches(s, SIZE_UNITS[j].name)
  }

  lemma NoneOfSeven(s: string)
    requires forall i :: !SizeUnitAt(s, i)
    ensures forall j | 0 <= j < |SIZE_UNITS| :: !UnitMatches(s, SIZE_UNITS[j].name)
  {
    assert !SizeUnitAt(s, 0);
    assert !SizeUnitAt(s, 1);
    assert !SizeUnitAt(s, 2);
    assert !SizeUnitAt(s, 3);
    assert !SizeUnitAt(s, 4);
    assert !SizeUnitAt(s, 5);
    assert !SizeUnitAt(s, 6);
  }

  lemma RateTable(s: string)
    ensures UnitMatches(s, RATE_UNITS[0].name) <==> |s| == 4 && Prefix(s[0], 3) && UnitMatches(s[1..], "bit")
    ensures UnitMatches(s, RATE_UNITS[1].name) <==> |s| == 4 && Prefix(s[0], 2) && UnitMatches(s[1..], "bit")
    ensures UnitMatches(s, RATE_UNITS[2].name) <==> |s| == 4 && Prefix(s[0], 1) && UnitMatches(s[1..], "bit")
    ensures UnitMatches(s, RATE_UNITS[3].name) <==> UnitMatches(s, "bit")
  {
    MatchesBit(s, 'g', "gbit");
    MatchesBit(s, 'm', "mbit");
    MatchesBit(s, 'k', "kbit");
  }

  /** The powers of 1000 are the factors of rates, and nothing else has one. */
  lemma RateFactor(s: string)
    ensures forall e {:trigger RateSuffix(s, e)} | RateSuffix(s, e) :: FactorOf(RATE_UNITS, s) == Power(1000, e) > 0
    ensures FactorOf(RATE_UNITS, s) > 0 ==> exists e :: RateSuffix(s, e)
  {
    RateTable(s);
    PowersOf(1000);
    if i :| 0 <= i < 4 && UnitMatches(s, RATE_UNITS[i].name)
            && forall j | 0 <= j < i :: !UnitMatches(s, RATE_UNITS[j].name) {
      FactorFound(RATE_UNITS, s, i);
      var e := 3 - i;
      assert RateSuffix(s, e);
    } else {
      NoFactor(RATE_UNITS, s);
    }
  }

  /** Between one and 4300 digits, and then a size. */
  predicate SizeText(s: string, k: nat, e: nat, n: nat) {
    1 <= k <= 4300 && k <= |s| && Digits(s[..k]) && SizeSuffix(s[k..], e) && n == ValueOf(s[..k]) * Power(1024, e)
  }

  /** The same for a rate, none of whose letters is an odd i. */
  predicate RateText(s: string, k: nat, e: nat, n: nat) {
    && 1 <= k <= 4300 && k <= |s| && Digits(s[..k]) && RateSuffix(s[k..], e) && Plain(s[k..])
    && n == ValueOf(s[..k]) * Power(1000, e)
  }

  lemma LettersEnd(s: string, k: nat)
    requires k < |s| && Digits(s[..k]) && !Digit(s[k])
    ensures LeadingDigits(s) == k
  {
    assert s == s[..k] + s[k..];
    DigitsEnd(s[..k], s[k..]);
  }

  lemma {:induction false} LeadingAreDigits(s: string)
    ensures LeadingDigits(s) <= |s| && Digits(s[..LeadingDigits(s)])
  {
    if s != "" && Digit(s[0]) {
      LeadingAreDigits(s[1..]);
      assert forall i | 0 < i < LeadingDigits(s) :: s[..LeadingDigits(s)][i] == s[1..][..LeadingDigits(s) - 1][i - 1];
    }
  }

  lemma SizeIsAmount(s: string, k: nat, e: nat, n: nat)
    requires SizeText(s, k, e, n)
    ensures Amount(SIZE_UNITS, s) == Accepted(n)
  {
    LettersEnd(s, k);
    SizeFactor(s[k..]);
    assert Plain(s[k..]);
  }

  ghost predicate IsSize(s: string, n: nat) {
    exists k, e :: SizeText(s, k, e, n)
  }

  lemma AmountIsSize(s: string, n: nat)
    ensures Amount(SIZE_UNITS, s) == Accepted(n) <==> IsSize(s, n)
  {
    if k, e :| SizeText(s, k, e, n) {
      SizeIsAmount(s, k, e, n);
    } else if Amount(SIZE_UNITS, s) == Accepted(n) {
      var k := LeadingDigits(s);
      LeadingAreDigits(s);
      SizeFactor(s[k..]);
      var e :| SizeSuffix(s[k..], e);
      assert SizeText(s, k, e, n);
    }
  }

  /** Exactly which sizes are accepted, and as how many bytes. */
  lemma SizeMeans(value: Size, n: nat)
    ensures ParseSize(value) == Accepted(n)
            <==> 0 < n <= 0xffffffff
                 && (if value.Number? then value.number == n else IsSize(Strip(value.text), n))
  {
    if value.Written? { AmountIsSize(Strip(value.text), n); }
  }

  lemma RateIsAmount(s: string, k: nat, e: nat, n: nat)
    requires RateText(s, k, e, n)
    ensures Amount(RATE_UNITS, s) == Accepted(n)
  {
    assert CharMatches(s[k..][0], 'b') || Prefix(s[k..][0], e);
    LettersEnd(s, k);
    RateFactor(s[k..]);
  }

  ghost predicate IsRate(s: string, n: nat) {
    exists k, e :: RateText(s, k, e, n)
  }

  lemma AmountIsRate(s: string, n: nat)
    ensures Amount(RATE_UNITS, s) == Accepted(n) <==> IsRate(s, n)
  {
    if k, e :| RateText(s, k, e, n) {
      RateIsAmount(s, k, e, n);
    } else if Amount(RATE_UNITS, s) == Accepted(n) {
      var k := LeadingDigits(s);
      LeadingAreDigits(s);
      RateFactor(s[k..]);
      var e :| RateSuffix(s[k..], e);
      assert RateText(s, k, e, n);
    }
  }

  /** The canonical text is read as the rate that it was made from. */
  lemma RateReadTwice(value: string)
    ensures RateToBytes(value) == RateBytes(value)
  {
    if RateBytes(value).Accepted? { RateTextReads(RateBytes(value).value); }
  }

  lemma WholeBytesMean(bits: Outcome<nat>, bytes: nat)
    ensures WholeBytes(bits) == Accepted(bytes) <==> 0 < bytes <= 0xffffffff && bits == Accepted(8 * bytes)
  {
  }

  /** Exactly which rates are accepted, and as how many bytes a second: whole numbers of bytes in 32 bits. */
  lemma RateMeans(value: string, bytes: nat)
    ensures RateToBytes(value) == Accepted(bytes) <==> 0 < bytes <= 0xffffffff && IsRate(Strip(value), 8 * bytes)
  {
    RateReadTwice(value);
    WholeBytesMean(Amount(RATE_UNITS, Strip(value)), bytes);
    AmountIsRate(Strip(value), 8 * bytes);
  }

  // What is printed.

  /** `text` is `n` in the i-th unit, and none of the units before it divides. */
  ghost predicate PrintedIn(units: seq<Unit>, n: nat, i: nat, text: string) {
    && i < |units| && (forall j | 0 <= j <= i :: units[j].factor > 0) && n % units[i].factor == 0
    && text == Decimal(n / units[i].factor) + units[i].name && forall j | 0 <= j < i :: n % units[j].factor != 0
  }

  lemma {:induction false} RenderPrints(units: seq<Unit>, n: nat) returns (i: nat)
    requires (forall j | 0 <= j < |units| :: units[j].factor > 0) && Render(units, n).Accepted?
    ensures PrintedIn(units, n, i, Render(units, n).value)
  {
    if n % units[0].factor == 0 {
      i := 0;
    } else {
      assert forall j | 0 <= j < |units[1..]| :: units[1..][j] == units[j + 1];
      i := RenderPrints(units[1..], n);
      i := i + 1;
      assert units[i] == units[1..][i - 1];
      forall j | 0 <= j < i
        ensures units[j].factor > 0 && n % units[j].factor != 0
      {
        if j > 0 { assert units[j] == units[1..][j - 1]; }
      }
    }
  }

  /** The name of the e-th power of a unit. */
  function NameOf(e: nat, plain: string): (r: string)
    requires e <= 3
  {
    match e
    case 0 => plain
    case 1 => "k" + plain
    case 2 => "m" + plain
    case _ => "g" + plain
  }

  /** The text names the largest power of the base that divides, and how often it does. */
  ghost predicate Largest(n: nat, base: nat, plain: string, e: nat, text: string) {
    && e <= 3 && base > 0 && Power(base, e) > 0 && n % Power(base, e) == 0
    && text == Decimal(n / Power(base, e)) + NameOf(e, plain)
    && forall f {:trigger Power(base, f)} | e < f <= 3 :: Power(base, f) > 0 && n % Power(base, f) != 0
  }

  lemma RateNames()
    ensures RATE_UNITS[3] == Unit(NameOf(0, "bit"), Power(1000, 0))
    ensures RATE_UNITS[2] == Unit(NameOf(1, "bit"), Power(1000, 1))
    ensures RATE_UNITS[1] == Unit(NameOf(2, "bit"), Power(1000, 2))
    ensures RATE_UNITS[0] == Unit(NameOf(3, "bit"), Power(1000, 3))
  {
    PowersOf(1000);
  }

  lemma SizeNames()
    ensures SIZE_UNITS[3] == Unit(NameOf(0, "b"), Power(1024, 0))
    ensures SIZE_UNITS[2] == Unit(NameOf(1, "b"), Power(1024, 1))
    ensures SIZE_UNITS[1] == Unit(NameOf(2, "b"), Power(1024, 2))
    ensures SIZE_UNITS[0] == Unit(NameOf(3, "b"), Power(1024, 3))
  {
    PowersOf(1024);
  }

  lemma LargestOf(units: seq<Unit>, n: nat, base: nat, plain: string, i: nat, text: string)
    requires |units| == 4 && i < 4 && base > 0 && PrintedIn(units, n, i, text)
    requires units[3] == Unit(NameOf(0, plain), Power(base, 0)) && units[2] == Unit(NameOf(1, plain), Power(base, 1))
    requires units[1] == Unit(NameOf(2, plain), Power(base, 2)) && units[0] == Unit(NameOf(3, plain), Power(base, 3))
    ensures Largest(n, base, plain, 3 - i, text)
  {
    forall f | 3 - i < f <= 3
      ensures Power(base, f) > 0 && n % Power(base, f) != 0
    {
      assert units[3 - f].factor == Power(base, f);
    }
    assert units[i] == Unit(NameOf(3 - i, plain), Power(base, 3 - i));
  }

  /** A rate is printed in the largest unit in which it is a whole number. */
  lemma RatePrinted(bytes: int) returns (e: nat)
    requires 0 < bytes <= MAX_BYTES
    ensures FormatRate(bytes).Accepted? && Largest(8 * bytes, 1000, "bit", e, FormatRate(bytes).value)
  {
    RateRoundTrip(bytes);
    RateNames();
    var i := RenderPrints(RATE_UNITS, 8 * bytes);
    LargestOf(RATE_UNITS, 8 * bytes, 1000, "bit", i, FormatRate(bytes).value);
    e := 3 - i;
  }

  /** So is a size, of any length. */
  lemma SizePrinted(n: int) returns (e: nat)
    requires n > 0
    ensures FormatSize(n).Accepted? && Largest(n, 1024, "b", e, FormatSize(n).value)
  {
    SizeNames();
    var units := SIZE_UNITS[..4];
    assert units[3].factor == 1;
    RenderEnds(units, n);
    var i := RenderPrints(units, n);
    LargestOf(units, n, 1024, "b", i, FormatSize(n).value);
    e := 3 - i;
  }

  lemma {:induction false} RenderEnds(units: seq<Unit>, n: nat)
    requires (forall j | 0 <= j < |units| :: units[j].factor > 0) && units != [] && units[|units| - 1].factor == 1
    ensures Render(units, n).Accepted?
  {
    if n % units[0].factor != 0 {
      assert units[1..] != [] && units[1..][|units[1..]| - 1] == units[|units| - 1];
      assert forall j | 0 <= j < |units[1..]| :: units[1..][j] == units[j + 1];
      RenderEnds(units[1..], n);
    }
  }

  // Texts that are neither converted nor refused.

  predicate OddI(c: char) {
    c == '\U{130}' || c == '\U{131}'
  }

  predicate Digits(s: string) {
    forall i | 0 <= i < |s| :: Digit(s[i])
  }

  /** The text is a run of digits, not too long, and a text that passes for this unit but has a dotless or dotted i. */
  predicate OddWith(s: string, k: nat, unit: string) {
    && 1 <= k <= MAX_DIGITS && k <= |s| && Digits(s[..k])
    && UnitMatches(s[k..], unit) && exists i | 0 <= i < |s[k..]| :: OddI(s[k..][i])
  }

  ghost predicate OddUnit(units: seq<Unit>, s: string) {
    exists k: nat, u {:trigger OddWith(s, k, u.name)} :: u in units && OddWith(s, k, u.name)
  }

  /** The units of a table: texts that do not begin with a digit, for more than nothing. */
  ghost predicate Units(units: seq<Unit>) {
    forall i | 0 <= i < |units| :: units[i].name != "" && Lower(units[i].name[0]) && units[i].factor > 0
  }

  lemma {:induction false} FactorIffMatch(units: seq<Unit>, text: string)
    requires Units(units)
    ensures FactorOf(units, text) > 0 <==> exists u | u in units :: UnitMatches(text, u.name)
  {
    if units != [] {
      assert forall i | 0 <= i < |units[1..]| :: units[1..][i] == units[i + 1];
      FactorIffMatch(units[1..], text);
      assert units == [units[0]] + units[1..];
    }
  }

  lemma DigitsBefore(s: string, k: nat, unit: string)
    requires k <= |s| && Digits(s[..k]) && UnitMatches(s[k..], unit) && unit != "" && Lower(unit[0])
    ensures LeadingDigits(s) == k
  {
    assert s == s[..k] + s[k..];
    assert CharMatches(s[k..][0], unit[0]);
    DigitsEnd(s[..k], s[k..]);
  }

  lemma OddIff(units: seq<Unit>, s: string)
    requires Units(units)
    ensures Amount(units, s) == UnknownUnit <==> OddUnit(units, s)
  {
    var k := LeadingDigits(s);
    var rest := s[k..];
    FactorIffMatch(units, rest);
    if Amount(units, s) == UnknownUnit {
      var u :| u in units && UnitMatches(rest, u.name);
      assert OddWith(s, k, u.name);
    }
    if OddUnit(units, s) {
      var j: nat, u :| u in units && OddWith(s, j, u.name);
      var i :| 0 <= i < |units| && units[i] == u;
      DigitsBefore(s, j, u.name);
    }
  }

  lemma UnitTables()
    ensures Units(RATE_UNITS) && Units(SIZE_UNITS)
  {
  }

  /**
   The pattern takes a dotless or dotted i for an i, but no unit is written with one. Exactly such texts
   are neither converted nor refused: the lookup of the unit fails.
   */
  lemma UnknownUnitIff(value: string)
    ensures NormalizeRate(value) == UnknownUnit <==> OddUnit(RATE_UNITS, Strip(value))
    ensures RateToBytes(value) == UnknownUnit <==> OddUnit(RATE_UNITS, Strip(value))
  {
    UnitTables();
    OddIff(RATE_UNITS, Strip(value));
    if NormalizeRate(value).Accepted? {
      NormalizeIsCanonical(value);
    }
    if RateBytes(value).Accepted? {
      RateTextReads(RateBytes(value).value);
    }
  }

  lemma NoOddMatch(s: string, k: nat, unit: string)
    requires Lacks(unit, 'i') && Ascii(unit)
    ensures !OddWith(s, k, unit)
  {
    if k <= |s| && UnitMatches(s[k..], unit) {
      forall i | 0 <= i < |s[k..]|
        ensures !OddI(s[k..][i])
      {
        assert CharMatches(s[k..][i], unit[i]);
      }
    }
  }

  lemma SizeUnitsPlain()
    ensures forall i | 0 <= i < |SIZE_UNITS| :: Lacks(SIZE_UNITS[i].name, 'i') && Ascii(SIZE_UNITS[i].name)
  {
  }

  lemma NoOddUnit(units: seq<Unit>, s: string)
    requires forall i | 0 <= i < |units| :: Lacks(units[i].name, 'i') && Ascii(units[i].name)
    ensures !OddUnit(units, s)
  {
    forall k: nat, u | u in units
      ensures !OddWith(s, k, u.name)
    {
      var i :| 0 <= i < |units| && units[i] == u;
      NoOddMatch(s, k, u.name);
    }
  }

  /** No size has this flaw: no unit of size has an i. */
  lemma SizesAreKnown(value: Size)
    ensures ParseSize(value) != UnknownUnit
  {
    UnitTables();
    SizeUnitsPlain();
    if value.Written? {
      OddIff(SIZE_UNITS, Strip(value.text));
      NoOddUnit(SIZE_UNITS, Strip(value.text));
    }
  }

  /** For one: a rate of eight bits with a dotless i. */
  lemma DotlessUnit()
    ensures NormalizeRate("8b\U{131}t") == UnknownUnit
  {
    var s := "8b\U{131}t";
    NoSpaces(s);
    assert s[..1] == "8" && s[1..] == "b\U{131}t" && OddI(s[1..][1]);
    assert UnitMatches(s[1..], "bit") && OddWith(s, 1, "bit");
    assert RATE_UNITS[3].name == "bit" && RATE_UNITS[3] in RATE_UNITS;
    UnknownUnitIff(s);
  }
}
