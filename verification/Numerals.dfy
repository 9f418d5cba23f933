/** Decimal numerals by the weight of each digit, against which both the printer and the parser of numbers are held. */
module Numerals {
  import opened Bytes
  import opened JsonText
  import opened JsonGrammar

  function Pow10(k: nat): (p: nat)
    ensures p > 0
  {
    if k == 0 then 1 else 10 * Pow10(k - 1)
  }

  /** `s` writes `m` in base ten, most significant digit first, zeros in front allowed. */
  predicate Numeral(s: seq<byte>, m: nat) {
    && s != [] && m < Pow10(|s|)
    && forall i :: 0 <= i < |s| ==> s[i] == 48 + m / Pow10(|s| - 1 - i) % 10
  }

  /** A numeral behind an optional minus. */
  predicate Writes(t: seq<byte>, n: int) {
    if t != [] && t[0] == 45 then n <= 0 && Numeral(t[1..], -n) else n >= 0 && Numeral(t, n)
  }

  lemma QuotientIs(n: int, p: int, q: int, r: int)
    requires p > 0 && n == q * p + r && 0 <= r < p
    ensures n / p == q
  {
    var d: int := n / p - q;
    assert d * p == r - n % p;
    if d > 0 {
      AtLeast(d, p);
    } else if d < 0 {
      AtLeast(-d, p);
    }
  }

  lemma AtLeast(d: int, p: int)
    requires d >= 1 && p > 0
    ensures d * p >= p
  {
    assert (d - 1) * p >= 0;
  }

  lemma DropDigit(n: nat, p: nat)
    requires p > 0
    ensures n / 10 / p == n / (10 * p)
  {
    var q, r := n / 10 / p, n / 10 % p;
    assert n / 10 == q * p + r && r <= p - 1;
    assert n == 10 * (n / 10) + n % 10;
    assert 10 * (q * p) == q * (10 * p);
    QuotientIs(n, 10 * p, q, 10 * r + n % 10);
  }

  /** One more digit behind a numeral. */
  lemma NumeralMore(s: seq<byte>, m: nat, d: nat)
    requires d < 10 && ((s == [] && m == 0) || Numeral(s, m))
    ensures Numeral(s + [48 + d], m * 10 + d)
  {
    hide Pow10;
    var t, n := s + [48 + d], m * 10 + d;
    assert n / 10 == m && n % 10 == d;
    PowStep(0);
    PowStep(|s|);
    forall i | 0 <= i < |t| ensures t[i] == 48 + n / Pow10(|t| - 1 - i) % 10 {
      if i < |s| {
        PowStep(|s| - 1 - i);
        DropDigit(n, Pow10(|s| - 1 - i));
      }
    }
  }

  lemma PowStep(k: nat)
    ensures Pow10(k + 1) == 10 * Pow10(k) && Pow10(0) == 1
  {
  }

  /** What the printer writes for a natural number: its digits by weight, without a zero in front. */
  lemma {:induction false} DigitsPlaced(n: nat)
    ensures var s := Digits(n);
            && s != [] && n < Pow10(|s|) && (s[0] == 48 ==> n == 0 && |s| == 1)
            && forall i :: 0 <= i < |s| ==> s[i] == 48 + n / Pow10(|s| - 1 - i) % 10
  {
    hide Pow10;
    if n < 10 {
      NumeralMore([], 0, n);
      assert [] + [48 + n] == Digits(n);
    } else {
      DigitsPlaced(n / 10);
      NumeralMore(Digits(n / 10), n / 10, n % 10);
    }
  }

  /** What the parser reads from digits: the number with these digits by weight. */
  lemma {:induction false} ValuePlaced(s: seq<byte>)
    requires AllDigits(s)
    ensures var m := DigitsValue(s);
            && m < Pow10(|s|)
            && forall i :: 0 <= i < |s| ==> s[i] == 48 + m / Pow10(|s| - 1 - i) % 10
  {
    if s != [] {
      var rest, last := s[..|s| - 1], s[|s| - 1];
      ValuePlaced(rest);
      NumeralMore(rest, DigitsValue(rest), last - 48);
      assert s == rest + [last];
    }
  }

  /** A printed integer is its numeral, with a minus in front exactly when it is negative and no zero in front. */
  lemma DecimalWrites(n: int)
    ensures Writes(Decimal(n), n) && (Decimal(n)[0] == 45 <==> n < 0)
    ensures n > 0 ==> Decimal(n)[0] != 48
    ensures n < 0 ==> |Decimal(n)| > 1 && Decimal(n)[1] != 48
    ensures n == 0 ==> Decimal(n) == [48]
  {
    DigitsPlaced(if n < 0 then -n else n);
    if n < 0 {
      assert Decimal(n)[1..] == Digits(-n);
    }
  }

  /** What parse_number takes for an integer is its numeral. */
  lemma NumberReads(c: seq<byte>, i: nat)
    requires i < |c| && (IsDigit(c[i]) || c[i] == MINUS) && ParseNumber(c, i).Ok?
    ensures var r := ParseNumber(c, i); r.value.Num? && Writes(c[i..r.rest], r.value.n)
  {
    hide Pow10, Numeral, NumberEnd;
    var k := NumberEnd(c, i, NUMBER_BUFFER);
    StrtodReads(c[i..k]);
  }

  /** The same for a whole text that is read as a number. */
  lemma TextReads(text: seq<byte>)
    requires Parse(text).Ok? && Parse(text).value.Num?
    ensures exists k :: 0 <= k < Parse(text).rest && Writes(text[k..Parse(text).rest], Parse(text).value.n)
  {
    hide Writes, ParseNumber, Skip, Start, At, ParseString, ParseItems, ParseMembers;
    var c := text + [NUL];
    var k := Skip(c, Start(c));
    NumberReads(c, k);
    assert c[k..Parse(text).rest] == text[k..Parse(text).rest];
  }

  lemma StrtodReads(t: seq<byte>)
    requires t != [] && (IsDigit(t[0]) || t[0] == MINUS) && Strtod(t).Exactly?
    ensures Writes(t, Strtod(t).n)
  {
    hide Pow10;
    ValuePlaced(if t[0] == MINUS then t[1..] else t);
  }

  /** A numeral names one number. */
  lemma {:induction false} NumeralsDiffer(s: seq<byte>, m: nat, n: nat)
    requires Numeral(s, m) && Numeral(s, n)
    ensures m == n
  {
    var k := |s| - 1;
    assert Pow10(k) > 0;
    if k == 0 {
      assert s[0] == 48 + m / Pow10(0) % 10 == 48 + n / Pow10(0) % 10;
    } else {
      Shorter(s, m);
      Shorter(s, n);
      NumeralsDiffer(s[..k], m / 10, n / 10);
      assert s[k] == 48 + m / Pow10(0) % 10 == 48 + n / Pow10(0) % 10;
    }
  }

  lemma Shorter(s: seq<byte>, m: nat)
    requires Numeral(s, m) && |s| > 1
    ensures Numeral(s[..|s| - 1], m / 10)
  {
    var t := s[..|s| - 1];
    forall i | 0 <= i < |t| ensures t[i] == 48 + m / 10 / Pow10(|t| - 1 - i) % 10 {
      DropDigit(m, Pow10(|t| - 1 - i));
    }
    assert m < 10 * Pow10(|t|);
  }
}
