/**
 * What the cJSON parser answers, as functions of the buffer, the position and the nesting depth.
 * A buffer is a C string with its terminating NUL. `Ok(v, rest)` is success with the offset left at
 * `rest`; `Beyond` is a number token that is not a plain integer within 2^53, where strtod's rounding
 * would decide and the model says nothing more.
 */
module JsonGrammar {
  import opened Bytes
  import opened JsonText

  datatype Parsed<+T> = Ok(value: T, rest: nat) | Fail | Beyond

  const NESTING_LIMIT: nat := 1000
  const NUMBER_BUFFER: nat := 63

  ghost predicate Terminated(c: seq<byte>) {
    |c| > 0 && c[|c| - 1] == NUL
  }

  // ----- white space

  function Skip(c: seq<byte>, i: nat): (j: nat)
    requires i < |c|
    ensures i <= j < |c|
    ensures c[j] > 32 || j == |c| - 1
    decreases |c| - i
  {
    if c[i] <= 32 && i + 1 < |c| then Skip(c, i + 1) else i
  }

  // ----- strings

  /** First pass of parse_string: the closing quote of the body that starts at `i`, or |c|. */
  function FindEnd(c: seq<byte>, i: nat): (e: nat)
    requires i <= |c|
    ensures i <= e <= |c|
    ensures e < |c| ==> c[e] == QUOTE
    decreases |c| - i
  {
    if i == |c| then i
    else if c[i] == QUOTE then i
    else if c[i] != BACKSLASH then FindEnd(c, i + 1)
    else if i + 1 == |c| then |c|
    else FindEnd(c, i + 2)
  }

  function HexDigit(b: byte): (d: Option<nat>)
    ensures d.Some? ==> d.value < 16
  {
    if 48 <= b <= 57 then Some(b - 48)
    else if 65 <= b <= 70 then Some(10 + b - 65)
    else if 97 <= b <= 102 then Some(10 + b - 97)
    else None
  }

  /** parse_hex4: anything but four hexadecimal digits reads as 0. */
  function Hex4(c: seq<byte>, i: nat): (h: nat)
    requires i + 4 <= |c|
    ensures h < 0x10000
  {
    match (HexDigit(c[i]), HexDigit(c[i + 1]), HexDigit(c[i + 2]), HexDigit(c[i + 3]))
    case (Some(a), Some(b), Some(d), Some(e)) => ((a * 16 + b) * 16 + d) * 16 + e
    case _ => 0
  }

  predicate HighSurrogate(h: nat) { 0xD800 <= h <= 0xDBFF }
  predicate LowSurrogate(h: nat) { 0xDC00 <= h <= 0xDFFF }

  function Combine(high: nat, low: nat): (cp: nat)
    requires HighSurrogate(high) && LowSurrogate(low)
    ensures 0x10000 <= cp <= 0x10FFFF
  {
    0x10000 + (high % 0x400) * 0x400 + low % 0x400
  }

  /** The bytes utf16_literal_to_utf8 writes for a code point, last byte first in the source's loop. */
  function Utf8(cp: nat): (u: seq<byte>)
    requires cp <= 0x10FFFF
    ensures 1 <= |u| <= 4
    ensures cp < 0x10000 ==> |u| <= 3
  {
    if cp < 0x80 then [cp]
    else if cp < 0x800 then [0xC0 + cp / 64, 0x80 + cp % 64]
    else if cp < 0x10000 then [0xE0 + cp / 4096, 0x80 + cp / 64 % 64, 0x80 + cp % 64]
    else [0xF0 + cp / 262144, 0x80 + cp / 4096 % 64, 0x80 + cp / 64 % 64, 0x80 + cp % 64]
  }

  datatype Literal = Literal(length: nat, cp: nat)

  /** utf16_literal_to_utf8 at `p`, where the body ends at `e`; length 0 is failure. */
  function Utf16Literal(c: seq<byte>, p: nat, e: nat): (l: Literal)
    requires p <= e <= |c|
    ensures l.length in {0, 6, 12}
    ensures l.length > 0 ==> p + l.length <= e && l.cp <= 0x10FFFF
    ensures l.length == 6 ==> l.cp < 0x10000
  {
    if e - p < 6 then Literal(0, 0)
    else
      var first := Hex4(c, p + 2);
      if LowSurrogate(first) then Literal(0, 0)
      else if HighSurrogate(first) then
        if e - (p + 6) < 6 then Literal(0, 0)
        else if c[p + 6] != BACKSLASH || c[p + 7] != LOWER_U then Literal(0, 0)
        else
          var second := Hex4(c, p + 8);
          if !LowSurrogate(second) then Literal(0, 0)
          else Literal(12, Combine(first, second))
      else Literal(6, first)
  }

  /** The byte a two-character escape stands for. */
  function Unescape(b: byte): Option<byte> {
    if b == LOWER_B then Some(BACKSPACE)
    else if b == LOWER_F then Some(FORMFEED)
    else if b == LOWER_N then Some(NEWLINE)
    else if b == LOWER_R then Some(RETURN)
    else if b == LOWER_T then Some(TAB)
    else if b == QUOTE || b == BACKSLASH || b == SLASH then Some(b)
    else None
  }

  function Cons<T>(xs: seq<T>, rest: Option<seq<T>>): Option<seq<T>> {
    match rest case None => None case Some(ys) => Some(xs + ys)
  }

  /** Second pass of parse_string over positions p..e; `p` may pass `e` by one, never more. */
  function Decode(c: seq<byte>, p: nat, e: nat): (r: Option<seq<byte>>)
    requires p <= e + 1 && e < |c|
    decreases e + 1 - p
  {
    if p >= e then Some([])
    else if c[p] != BACKSLASH then Cons([c[p]], Decode(c, p + 1, e))
    else if c[p + 1] == LOWER_U then
      var l := Utf16Literal(c, p, e);
      if l.length == 0 then None else Cons(Utf8(l.cp), Decode(c, p + l.length, e))
    else
      match Unescape(c[p + 1])
      case None => None
      case Some(b) => Cons([b], Decode(c, p + 2, e))
  }

  function ParseString(c: seq<byte>, i: nat): (r: Parsed<seq<byte>>)
    requires i < |c|
    ensures r.Ok? ==> i < r.rest <= |c| && c[r.rest - 1] == QUOTE && NulFree(r.value)
    ensures !r.Beyond?
  {
    if c[i] != QUOTE then Fail
    else
      var e := FindEnd(c, i + 1);
      if e == |c| then Fail
      else
        match Decode(c, i + 1, e)
        case None => Fail
        case Some(out) => Ok(CStr(out), e + 1)
  }

  // ----- numbers

  predicate IsDigit(b: byte) { 48 <= b <= 57 }

  predicate NumberByte(b: byte) {
    IsDigit(b) || b == PLUS || b == MINUS || b == LOWER_E || b == UPPER_E || b == DOT
  }

  /** End of the run parse_number copies: number bytes from `i`, at most `room` of them. */
  function NumberEnd(c: seq<byte>, i: nat, room: nat): (k: nat)
    requires i <= |c|
    ensures i <= k <= |c| && k <= i + room
    ensures k < |c| && k < i + room ==> !NumberByte(c[k])
    ensures forall q :: i <= q < k ==> NumberByte(c[q])
    decreases room
  {
    if room > 0 && i < |c| && NumberByte(c[i]) then NumberEnd(c, i + 1, room - 1) else i
  }

  predicate AllDigits(s: seq<byte>) {
    forall i :: 0 <= i < |s| ==> IsDigit(s[i])
  }

  function DigitsValue(s: seq<byte>): (n: nat)
    requires AllDigits(s)
  {
    if s == [] then 0 else DigitsValue(s[..|s| - 1]) * 10 + (s[|s| - 1] - 48)
  }

  datatype Converted = Nothing | Exactly(n: int) | Inexact

  /** strtod on a token: what it converts, when the token is a plain integer within 2^53. */
  function Strtod(token: seq<byte>): (r: Converted)
    requires token != [] && (IsDigit(token[0]) || token[0] == MINUS)
    ensures r.Exactly? ==> -MAX_EXACT <= r.n <= MAX_EXACT
  {
    var digits := if token[0] == MINUS then token[1..] else token;
    if digits == [] || !(IsDigit(digits[0]) || digits[0] == DOT) then Nothing
    else if !AllDigits(digits) then Inexact
    else
      var d: int := DigitsValue(digits);
      var n := if token[0] == MINUS then -d else d;
      if -MAX_EXACT <= n <= MAX_EXACT then Exactly(n) else Inexact
  }

  function ParseNumber(c: seq<byte>, i: nat): (r: Parsed<Json>)
    requires i < |c| && (IsDigit(c[i]) || c[i] == MINUS)
    ensures r.Ok? ==> i < r.rest <= |c| && NumberByte(c[r.rest - 1])
  {
    var k := NumberEnd(c, i, NUMBER_BUFFER);
    match Strtod(c[i..k])
    case Nothing => Fail
    case Inexact => Beyond
    case Exactly(n) => Ok(Num(n), k)
  }

  // ----- values

  function ParseValue(c: seq<byte>, i: nat, depth: nat): (r: Parsed<Json>)
    requires Terminated(c) && i < |c|
    ensures r.Ok? ==> i < r.rest < |c|
    decreases |c| - i, 1
  {
    if At(c, i, NULL_TEXT) then AtByte(c, i, NULL_TEXT, 3); Ok(Null, i + 4)
    else if At(c, i, FALSE_TEXT) then AtByte(c, i, FALSE_TEXT, 4); Ok(False, i + 5)
    else if At(c, i, TRUE_TEXT) then AtByte(c, i, TRUE_TEXT, 3); Ok(True, i + 4)
    else if c[i] == QUOTE then
      match ParseString(c, i)
      case Ok(s, k) => Ok(Str(s), k)
      case _ => Fail
    else if c[i] == MINUS || IsDigit(c[i]) then ParseNumber(c, i)
    else if c[i] == LBRACKET then
      if depth >= NESTING_LIMIT then Fail
      else
        var j := Skip(c, i + 1);
        if c[j] == RBRACKET then Ok(Arr([]), j + 1)
        else
          match ParseItems(c, j, depth + 1)
          case Ok(items, k) => Ok(Arr(items), k)
          case Fail => Fail
          case Beyond => Beyond
    else if c[i] == LBRACE then
      if depth >= NESTING_LIMIT then Fail
      else
        var j := Skip(c, i + 1);
        if c[j] == RBRACE then Ok(Obj([]), j + 1)
        else
          match ParseMembers(c, j, depth + 1)
          case Ok(members, k) => Ok(Obj(members), k)
          case Fail => Fail
          case Beyond => Beyond
    else Fail
  }

  /** One more element in front of what the rest of a list parses to. */
  function Prepend<T>(x: T, rest: Parsed<seq<T>>): Parsed<seq<T>> {
    match rest
    case Ok(xs, k) => Ok([x] + xs, k)
    case Fail => Fail
    case Beyond => Beyond
  }

  /** The array loop from just behind '[' or ','. */
  function ParseItems(c: seq<byte>, k: nat, depth: nat): (r: Parsed<seq<Json>>)
    requires Terminated(c) && k < |c|
    ensures r.Ok? ==> k < r.rest < |c|
    decreases |c| - k, 2
  {
    match ParseValue(c, Skip(c, k), depth)
    case Fail => Fail
    case Beyond => Beyond
    case Ok(v, a) =>
      var l := Skip(c, a);
      if c[l] == COMMA then Prepend(v, ParseItems(c, l + 1, depth))
      else if c[l] == RBRACKET then Ok([v], l + 1)
      else Fail
  }

  /** A member from just behind '{' or ',': its name, the colon and its value. */
  function ParseMember(c: seq<byte>, k: nat, depth: nat): (r: Parsed<Member>)
    requires Terminated(c) && k < |c|
    ensures r.Ok? ==> k < r.rest < |c|
    decreases |c| - k, 2
  {
    match ParseString(c, Skip(c, k))
    case Fail => Fail
    case Beyond => Beyond
    case Ok(key, a) =>
      var b := Skip(c, a);
      if c[b] != COLON then Fail
      else
        match ParseValue(c, Skip(c, b + 1), depth)
        case Fail => Fail
        case Beyond => Beyond
        case Ok(v, d) => Ok(Member(key, v), d)
  }

  /** The object loop from just behind '{' or ','. */
  function ParseMembers(c: seq<byte>, k: nat, depth: nat): (r: Parsed<seq<Member>>)
    requires Terminated(c) && k < |c|
    ensures r.Ok? ==> k < r.rest < |c|
    decreases |c| - k, 3
  {
    match ParseMember(c, k, depth)
    case Fail => Fail
    case Beyond => Beyond
    case Ok(m, d) =>
      var l := Skip(c, d);
      if c[l] == COMMA then Prepend(m, ParseMembers(c, l + 1, depth))
      else if c[l] == RBRACE then Ok([m], l + 1)
      else Fail
  }

  // ----- one turn of the two loops

  ghost function PrependAll<T>(xs: seq<T>, rest: Parsed<seq<T>>): Parsed<seq<T>> {
    match rest
    case Ok(ys, k) => Ok(xs + ys, k)
    case Fail => Fail
    case Beyond => Beyond
  }

  lemma ConsLaws<T>(xs: seq<T>, ys: seq<T>, rest: Option<seq<T>>)
    ensures Cons(xs + ys, rest) == Cons(xs, Cons(ys, rest))
    ensures Cons([], rest) == rest
  {
    if rest.Some? {
      assert xs + ys + rest.value == xs + (ys + rest.value);
      assert [] + rest.value == rest.value;
    }
  }

  lemma PrependNone<T>(rest: Parsed<seq<T>>)
    ensures PrependAll([], rest) == rest
  {
    if rest.Ok? {
      assert [] + rest.value == rest.value;
    }
  }

  lemma PrependLast<T>(xs: seq<T>, x: T, rest: Parsed<seq<T>>)
    ensures PrependAll(xs, Prepend(x, rest)) == PrependAll(xs + [x], rest)
  {
    if rest.Ok? {
      assert xs + ([x] + rest.value) == xs + [x] + rest.value;
    }
  }

  /** One turn of the array loop, with `before` the elements already linked. */
  lemma ItemsTurn(c: seq<byte>, k: nat, d: nat, before: seq<Json>)
    requires Terminated(c) && k < |c|
    ensures var v := ParseValue(c, Skip(c, k), d);
            var all := PrependAll(before, ParseItems(c, k, d));
            && (v.Fail? ==> all == Fail)
            && (v.Beyond? ==> all == Beyond)
            && (v.Ok? ==>
                  var l := Skip(c, v.rest);
                  if c[l] == COMMA then l + 1 < |c| && all == PrependAll(before + [v.value], ParseItems(c, l + 1, d))
                  else if c[l] == RBRACKET then l + 1 < |c| && all == Ok(before + [v.value], l + 1)
                  else all == Fail)
  {
    hide Skip, ParseValue;
    var v := ParseValue(c, Skip(c, k), d);
    if v.Ok? {
      var l := Skip(c, v.rest);
      if c[l] == COMMA {
        PrependLast(before, v.value, ParseItems(c, l + 1, d));
      }
    }
  }

  /** One turn of the object loop, with `before` the members already linked. */
  lemma MembersTurn(c: seq<byte>, k: nat, d: nat, before: seq<Member>)
    requires Terminated(c) && k < |c|
    ensures var key := ParseString(c, Skip(c, k));
            var all := PrependAll(before, ParseMembers(c, k, d));
            && (!key.Ok? ==> all == Fail)
            && (key.Ok? ==> key.rest < |c|)
            && (key.Ok? && c[Skip(c, key.rest)] != COLON ==> all == Fail)
            && (key.Ok? && c[Skip(c, key.rest)] == COLON ==>
                  var b := Skip(c, key.rest);
                  && b + 1 < |c|
                  && var v := ParseValue(c, Skip(c, b + 1), d);
                  && (v.Fail? ==> all == Fail)
                  && (v.Beyond? ==> all == Beyond)
                  && (v.Ok? ==>
                        var l := Skip(c, v.rest);
                        var now := before + [Member(key.value, v.value)];
                        if c[l] == COMMA then l + 1 < |c| && all == PrependAll(now, ParseMembers(c, l + 1, d))
                        else if c[l] == RBRACE then l + 1 < |c| && all == Ok(now, l + 1)
                        else all == Fail))
  {
    hide Skip, ParseValue, ParseString;
    var key := ParseString(c, Skip(c, k));
    if key.Ok? {
      var b := Skip(c, key.rest);
      if c[b] == COLON {
        var v := ParseValue(c, Skip(c, b + 1), d);
        if v.Ok? {
          var l := Skip(c, v.rest);
          if c[l] == COMMA {
            PrependLast(before, Member(key.value, v.value), ParseMembers(c, l + 1, d));
          }
        }
      }
    }
  }

  // ----- the entry point

  const BOM: seq<byte> := [0xEF, 0xBB, 0xBF]

  /** skip_utf8_bom on a buffer of `text` and its NUL. */
  function Start(c: seq<byte>): (i: nat)
    requires c != []
    ensures i < |c|
  {
    if |c| > 4 && At(c, 0, BOM) then 3 else 0
  }

  /** cJSON_Parse of a C string. */
  function Parse(text: seq<byte>): (r: Parsed<Json>)
    ensures r.Ok? ==> r.rest <= |text|
  {
    var c := text + [NUL];
    ParseValue(c, Skip(c, Start(c)), 0)
  }
}
