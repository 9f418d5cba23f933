/**
 * JSON text spelled out: what the printer writes for every kind of value, the escapes of strings and the bytes the parser
 * goes by, each held against literal characters.
 */
module JsonForms {
  import opened Bytes
  import opened JsonText
  import opened JsonGrammar
  import opened Unicode

  /** The bytes of a string of characters below 256. */
  function Ascii(s: string): seq<byte> {
    seq(|s|, i requires 0 <= i < |s| => s[i] as int % 256)
  }

  function Join(sep: seq<byte>, parts: seq<seq<byte>>): seq<byte> {
    if parts == [] then [] else if |parts| == 1 then parts[0] else parts[0] + sep + Join(sep, parts[1..])
  }

  // ----- scalars

  lemma ScalarsSpelled(fmt: bool, depth: nat, s: seq<byte>)
    ensures Text(Null, fmt, depth) == Ascii("null") && Text(True, fmt, depth) == Ascii("true") && Text(False, fmt, depth) == Ascii("false")
    ensures Text(Str(s), fmt, depth) == Ascii("\"") + Escape(s) + Ascii("\"")
  {
  }

  /** The escape of one byte: short ones for seven characters, \u00XX in lower case for the other control characters. */
  lemma EscapesSpelled(b: byte)
    ensures b == '\"' as int ==> EscapeByte(b) == Ascii("\\\"")
    ensures b == '\\' as int ==> EscapeByte(b) == Ascii("\\\\")
    ensures b == 8 ==> EscapeByte(b) == Ascii("\\b")
    ensures b == 9 ==> EscapeByte(b) == Ascii("\\t")
    ensures b == 10 ==> EscapeByte(b) == Ascii("\\n")
    ensures b == 12 ==> EscapeByte(b) == Ascii("\\f")
    ensures b == 13 ==> EscapeByte(b) == Ascii("\\r")
    ensures b < 32 && b !in {8, 9, 10, 12, 13} ==> EscapeByte(b) == Ascii("\\u00") + [Sixteenth(b / 16), Sixteenth(b % 16)]
    ensures b >= 32 && b != '\"' as int && b != '\\' as int ==> EscapeByte(b) == [b]
  {
    if b < 32 {
      DigitsSpelled(b / 16);
      DigitsSpelled(b % 16);
    }
  }

  /** The character for a hexadecimal digit. */
  function Sixteenth(d: nat): byte
    requires d < 16
  {
    "0123456789abcdef"[d] as int % 256
  }

  lemma DigitsSpelled(d: nat)
    requires d < 16
    ensures HexLow(d) == Sixteenth(d) == "0123456789abcdef"[d] as int
  {
  }

  /** The text of a string is the escapes of its bytes one behind the other. */
  lemma {:induction false} EscapesJoin(s: seq<byte>)
    ensures Escape(s) == Join([], seq(|s|, i requires 0 <= i < |s| => EscapeByte(s[i])))
  {
    hide EscapeByte;
    if s != [] {
      EscapesJoin(s[1..]);
      var parts := seq(|s|, i requires 0 <= i < |s| => EscapeByte(s[i]));
      assert parts[1..] == seq(|s| - 1, i requires 0 <= i < |s| - 1 => EscapeByte(s[1..][i]));
      assert parts[0] + [] == parts[0];
      if |s| == 1 {
        assert s[1..] == [] && EscapeByte(s[0]) + [] == EscapeByte(s[0]);
      }
    }
  }

  /** It holds no control character. */
  lemma {:induction false} NoControls(s: seq<byte>)
    ensures forall k :: 0 <= k < |Escape(s)| ==> Escape(s)[k] >= 32
  {
    hide EscapeByte;
    if s != [] {
      NoControls(s[1..]);
      NoControl(s[0]);
    }
  }

  lemma NoControl(b: byte)
    ensures forall k :: 0 <= k < |EscapeByte(b)| ==> EscapeByte(b)[k] >= 32
  {
  }

  // ----- arrays and objects

  lemma {:induction false} ItemsSpelled(items: seq<Json>, fmt: bool, depth: nat)
    ensures ItemsText(items, fmt, depth)
            == Join(Ascii(if fmt then ", " else ","), seq(|items|, i requires 0 <= i < |items| => Text(items[i], fmt, depth)))
  {
    hide Text, Ascii;
    var parts := seq(|items|, i requires 0 <= i < |items| => Text(items[i], fmt, depth));
    SeparatorSpelled(fmt);
    if |items| > 1 {
      ItemsSpelled(items[1..], fmt, depth);
      assert parts[1..] == seq(|items| - 1, i requires 0 <= i < |items| - 1 => Text(items[1..][i], fmt, depth));
      hide ItemSep;
      assert parts[0] + ItemSep(fmt) + ItemsText(items[1..], fmt, depth) == parts[0] + (ItemSep(fmt) + ItemsText(items[1..], fmt, depth));
    }
  }

  lemma SeparatorSpelled(fmt: bool)
    ensures ItemSep(fmt) == Ascii(if fmt then ", " else ",")
  {
  }

  /** An array: its items between brackets, behind one another with a comma, and a space in the pretty form. */
  lemma ArraySpelled(items: seq<Json>, fmt: bool, depth: nat)
    ensures Text(Arr(items), fmt, depth)
            == Ascii("[")
               + Join(Ascii(if fmt then ", " else ","), seq(|items|, i requires 0 <= i < |items| => Text(items[i], fmt, depth + 1)))
               + Ascii("]")
  {
    ItemsSpelled(items, fmt, depth + 1);
  }

  /** A member in the compact form. */
  function Pair(m: Member, depth: nat): seq<byte> {
    StringText(m.key) + Ascii(":") + Text(m.value, false, depth)
  }

  /** A member in the pretty form: on a line of its own, behind as many tabs as it lies deep. */
  function Line(m: Member, depth: nat): seq<byte> {
    seq(depth, _ => '\t' as int) + StringText(m.key) + Ascii(":\t") + Text(m.value, true, depth)
  }

  lemma {:induction false} PairsSpelled(members: seq<Member>, depth: nat)
    ensures MembersText(members, false, depth) == Join(Ascii(","), seq(|members|, i requires 0 <= i < |members| => Pair(members[i], depth)))
  {
    var parts := seq(|members|, i requires 0 <= i < |members| => Pair(members[i], depth));
    if members != [] {
      hide StringText;
      PairsSpelled(members[1..], depth);
      assert parts[1..] == seq(|members| - 1, i requires 0 <= i < |members| - 1 => Pair(members[1..][i], depth));
      var rest := MembersText(members[1..], false, depth);
      PairParts(members[0], |members| > 1, rest, depth);
      assert |members| == 1 ==> members[1..] == [];
    }
  }

  lemma PairParts(m: Member, more: bool, rest: seq<byte>, depth: nat)
    ensures MemberHead(m, false, depth) + (Text(m.value, false, depth) + (MemberSep(false, more) + rest))
            == Pair(m, depth) + (if more then Ascii(",") else []) + rest
  {
    hide StringText, Text;
    assert KeySep(false) == Ascii(":") && [COMMA] == Ascii(",");
  }

  lemma {:induction false} LinesSpelled(members: seq<Member>, depth: nat)
    requires members != []
    ensures MembersText(members, true, depth)
            == Join(Ascii(",\n"), seq(|members|, i requires 0 <= i < |members| => Line(members[i], depth))) + Ascii("\n")
  {
    hide StringText, Text, Line, MemberHead, MemberSep, Ascii;
    var parts := seq(|members|, i requires 0 <= i < |members| => Line(members[i], depth));
    var rest := MembersText(members[1..], true, depth);
    LineParts(members[0], |members| > 1, rest, depth);
    if |members| > 1 {
      LinesSpelled(members[1..], depth);
      assert parts[1..] == seq(|members| - 1, i requires 0 <= i < |members| - 1 => Line(members[1..][i], depth));
    } else {
      assert members[1..] == [];
    }
  }

  lemma LineParts(m: Member, more: bool, rest: seq<byte>, depth: nat)
    ensures MemberHead(m, true, depth) + (Text(m.value, true, depth) + (MemberSep(true, more) + rest))
            == Line(m, depth) + (if more then Ascii(",\n") else Ascii("\n")) + rest
  {
    hide StringText, Text;
    assert KeySep(true) == Ascii(":\t") && LineEnd(true) == Ascii("\n");
    assert MemberSep(true, more) == if more then Ascii(",\n") else Ascii("\n");
    assert Indent(true, depth) == seq(depth, _ => '\t' as int);
  }

  /** An object: its members between braces, with commas; in the pretty form on lines of their own. */
  lemma ObjectSpelled(members: seq<Member>, depth: nat)
    ensures Text(Obj(members), false, depth)
            == Ascii("{") + Join(Ascii(","), seq(|members|, i requires 0 <= i < |members| => Pair(members[i], depth + 1))) + Ascii("}")
    ensures Text(Obj(members), true, depth)
            == Ascii("{\n")
               + (if members == [] then []
                  else Join(Ascii(",\n"), seq(|members|, i requires 0 <= i < |members| => Line(members[i], depth + 1))) + Ascii("\n"))
               + seq(depth, _ => '\t' as int) + Ascii("}")
  {
    hide Pair, Line, Join;
    PairsSpelled(members, depth + 1);
    if members != [] {
      LinesSpelled(members, depth + 1);
    }
    hide MembersText;
    NoMembersText(depth + 1);
    assert [LBRACE] + LineEnd(true) == Ascii("{\n") && [LBRACE] + LineEnd(false) == Ascii("{") && [RBRACE] == Ascii("}");
    assert Indent(true, depth) == seq(depth, _ => '\t' as int) && Indent(false, depth) + [RBRACE] == Ascii("}");
  }

  lemma NoMembersText(depth: nat)
    ensures MembersText([], true, depth) == []
  {
  }

  // ----- what the parser goes by

  /** The escapes it knows, and no others. */
  lemma UnescapesSpelled(b: byte)
    ensures Unescape(b) ==
            if b == 'b' as int then Some(8) else if b == 'f' as int then Some(12) else if b == 'n' as int then Some(10)
            else if b == 'r' as int then Some(13) else if b == 't' as int then Some(9)
            else if b == '\"' as int || b == '\\' as int || b == '/' as int then Some(b) else None
  {
  }

  /** A hexadecimal digit is worth its place among the sixteen, in either case, and there are no others. */
  lemma HexSpelled(d: nat, b: byte)
    requires d < 16
    ensures HexDigit(b) == Some(d) <==> b == "0123456789abcdef"[d] as int || b == "0123456789ABCDEF"[d] as int
  {
  }

  predicate Plain(s: seq<byte>) {
    forall k :: 0 <= k < |s| ==> s[k] != QUOTE && s[k] != BACKSLASH
  }

  /** Where the first pass ends and how the second starts on a literal with plain bytes in front. */
  lemma PlainFront(s: seq<byte>, rest: seq<byte>)
    requires Plain(s)
    ensures var c := [QUOTE] + s + rest;
            && FindEnd(c, 1) == FindEnd(c, 1 + |s|)
            && forall e :: 1 + |s| <= e < |c| ==> Decode(c, 1, e) == Cons(s, Decode(c, 1 + |s|, e))
  {
    hide FindEnd, Decode;
    var c := [QUOTE] + s + rest;
    assert forall q :: 1 <= q < 1 + |s| ==> c[q] == s[q - 1];
    assert c[1..1 + |s|] == s;
    PlainEnd(c, 1, |s|);
    forall e | 1 + |s| <= e < |c| ensures Decode(c, 1, e) == Cons(s, Decode(c, 1 + |s|, e)) {
      PlainRun(c, 1, e, |s|);
    }
  }

  lemma {:induction false} PlainEnd(c: seq<byte>, i: nat, n: nat)
    requires i + n <= |c| && forall q :: i <= q < i + n ==> c[q] != QUOTE && c[q] != BACKSLASH
    ensures FindEnd(c, i) == FindEnd(c, i + n)
    decreases n
  {
    if n > 0 {
      PlainEnd(c, i + 1, n - 1);
    }
  }

  /** Both passes at a quote. */
  lemma AtQuote(c: seq<byte>, e: nat)
    requires e < |c| && c[e] == QUOTE
    ensures FindEnd(c, e) == e && Decode(c, e, e) == Some([])
  {
  }

  lemma AtEnd(c: seq<byte>)
    ensures FindEnd(c, |c|) == |c|
  {
  }

  /** Between quotes any other bytes stand for themselves, up to a NUL; without the second quote there is no string. */
  lemma PlainStrings(s: seq<byte>, rest: seq<byte>)
    requires Plain(s)
    ensures ParseString([QUOTE] + s + ([QUOTE] + rest), 0) == Ok(CStr(s), |s| + 2)
    ensures ParseString([QUOTE] + s, 0) == Fail
  {
    hide FindEnd, Decode, CStr;
    var c, d := [QUOTE] + s + ([QUOTE] + rest), [QUOTE] + s;
    PlainFront(s, [QUOTE] + rest);
    AtQuote(c, 1 + |s|);
    assert s + [] == s;
    PlainFront(s, []);
    assert [QUOTE] + s + [] == d;
    AtEnd(d);
  }

  /** An escape of no known letter spoils the string, whatever follows. */
  lemma UnknownEscapes(s: seq<byte>, letter: byte, rest: seq<byte>)
    requires Plain(s) && letter !in {'b' as int, 'f' as int, 'n' as int, 'r' as int, 't' as int, 'u' as int}
    requires letter !in {'\"' as int, '\\' as int, '/' as int}
    ensures ParseString([QUOTE] + s + ([BACKSLASH, letter] + rest), 0) == Fail
  {
    hide FindEnd, CStr;
    var c := [QUOTE] + s + ([BACKSLASH, letter] + rest);
    var i := 1 + |s|;
    PlainFront(s, [BACKSLASH, letter] + rest);
    assert c[i] == BACKSLASH && c[i + 1] == letter;
    EndsBehind(c, i);
    UnescapesSpelled(letter);
    forall e | i + 2 <= e < |c| ensures Decode(c, 1, e) == None {
      assert Decode(c, i, e) == None;
    }
  }

  lemma EndsBehind(c: seq<byte>, i: nat)
    requires i + 1 < |c| && c[i] == BACKSLASH
    ensures FindEnd(c, i) >= i + 2
  {
  }

  ghost predicate HexTail(t: seq<byte>, h: seq<byte>, rest: seq<byte>) {
    t == [BACKSLASH, LOWER_U] + h + [QUOTE] + rest
  }

  /** What stands behind \u and these bytes up to the next quote, as both passes see it. */
  lemma HexEnds(c: seq<byte>, i: nat, h: seq<byte>, rest: seq<byte>)
    requires i <= |c| && HexTail(c[i..], h, rest) && Plain(h)
    ensures FindEnd(c, i) == i + 2 + |h| < |c| && c[i] == BACKSLASH && c[i + 1] == LOWER_U && c[i + 2 + |h|] == QUOTE
    ensures forall q :: 0 <= q < |h| ==> c[i + 2 + q] == h[q]
  {
    var t := c[i..];
    assert forall q :: 0 <= q < |t| ==> c[i + q] == t[q];
    assert t[0] == BACKSLASH && t[1] == LOWER_U && t[2 + |h|] == QUOTE;
    assert forall q :: 0 <= q < |h| ==> t[2 + q] == h[q];
    assert forall q :: i + 2 <= q < i + 2 + |h| ==> c[q] == h[q - i - 2];
    PlainEnd(c, i + 2, |h|);
    AtQuote(c, i + 2 + |h|);
  }

  /** \u with fewer than four bytes before the quote spoils it too. */
  lemma ShortHex(s: seq<byte>, h: seq<byte>, rest: seq<byte>)
    requires Plain(s) && Plain(h) && |h| < 4
    ensures ParseString([QUOTE] + s + ([BACKSLASH, LOWER_U] + h + [QUOTE] + rest), 0) == Fail
  {
    hide FindEnd, CStr;
    var tail := [BACKSLASH, LOWER_U] + h + [QUOTE] + rest;
    assert HexTail(tail, h, rest);
    var c := [QUOTE] + s + tail;
    PlainFront(s, tail);
    assert c[1 + |s|..] == tail;
    HexEnds(c, 1 + |s|, h, rest);
    assert Decode(c, 1 + |s|, 3 + |s| + |h|) == None;
  }

  /** With four that are not all hexadecimal it stands for U+0000, so that the C string ends there. */
  lemma NotHex(s: seq<byte>, h: seq<byte>, more: seq<byte>, rest: seq<byte>)
    requires Plain(s) && Plain(h) && Plain(more) && |h| == 4 && exists k :: 0 <= k < 4 && HexDigit(h[k]).None?
    ensures ParseString([QUOTE] + s + ([BACKSLASH, LOWER_U] + (h + more) + [QUOTE] + rest), 0) == Ok(CStr(s), |s| + |more| + 8)
  {
    var tail := [BACKSLASH, LOWER_U] + (h + more) + [QUOTE] + rest;
    assert HexTail(tail, h + more, rest);
    HexTailRead(s, h, more, rest, tail);
  }

  lemma HexTailRead(s: seq<byte>, h: seq<byte>, more: seq<byte>, rest: seq<byte>, tail: seq<byte>)
    requires Plain(s) && Plain(h) && Plain(more) && |h| == 4 && exists k :: 0 <= k < 4 && HexDigit(h[k]).None?
    requires HexTail(tail, h + more, rest)
    ensures ParseString([QUOTE] + s + tail, 0) == Ok(CStr(s), |s| + |more| + 8)
  {
    hide FindEnd, Decode, CStr, ParseString, Plain, HexTail;
    var c := [QUOTE] + s + tail;
    var i, e := 1 + |s|, 7 + |s| + |more|;
    PlainFront(s, tail);
    assert c[i..] == tail;
    PlainBoth(h, more);
    HexEnds(c, i, h + more, rest);
    WrongHex(c, i, h, more);
    CutAtNul(s, more);
    WholeString(c, e, s + ([0] + more));
  }

  lemma PlainBoth(h: seq<byte>, more: seq<byte>)
    requires Plain(h) && Plain(more)
    ensures Plain(h + more)
  {
  }

  lemma WholeString(c: seq<byte>, e: nat, out: seq<byte>)
    requires 0 < e < |c| && c[0] == QUOTE && FindEnd(c, 1) == e && Decode(c, 1, e) == Some(out)
    ensures ParseString(c, 0) == Ok(CStr(out), e + 1)
  {
  }

  lemma WrongHex(c: seq<byte>, i: nat, h: seq<byte>, more: seq<byte>)
    requires |h| == 4 && Plain(more) && exists k :: 0 <= k < 4 && HexDigit(h[k]).None?
    requires var e := i + 6 + |more|; e < |c| && c[i] == BACKSLASH && c[i + 1] == LOWER_U && c[e] == QUOTE
    requires forall q :: 0 <= q < |h + more| ==> c[i + 2 + q] == (h + more)[q]
    ensures Decode(c, i, i + 6 + |more|) == Some([0] + more)
  {
    hide FindEnd, Decode, Utf8;
    var e := i + 6 + |more|;
    assert forall q :: 0 <= q < 4 ==> (h + more)[q] == h[q];
    assert c[i + 2] == h[0] && c[i + 3] == h[1] && c[i + 4] == h[2] && c[i + 5] == h[3];
    assert Hex4(c, i + 2) == 0;
    assert forall q :: 4 <= q < |h + more| ==> (h + more)[q] == more[q - 4];
    assert forall q :: i + 6 <= q < e ==> c[q] == (h + more)[q - i - 2] == more[q - i - 6];
    PlainRun(c, i + 6, e, |more|);
    AtQuote(c, e);
    assert c[i + 6..e] == more && more + [] == more;
    LoneUnit(c, i, e);
    DecodeU(c, i, e);
    ZeroByte();
  }

  lemma ZeroByte()
    ensures Utf8(0) == [0]
  {
  }

  lemma {:induction false} CutAtNul(s: seq<byte>, more: seq<byte>)
    ensures CStr(s + ([0] + more)) == CStr(s)
  {
    if s != [] {
      assert (s + ([0] + more))[1..] == s[1..] + ([0] + more);
      CutAtNul(s[1..], more);
    }
  }

  /** The limits of the source. */
  lemma LimitsSpelled()
    ensures NESTING_LIMIT == 1000 && NUMBER_BUFFER == 63 && MAX_EXACT == 9_007_199_254_740_992
  {
  }

  // ----- where a text stands does not matter

  function Later<T>(r: Parsed<T>, n: nat): Parsed<T> {
    match r
    case Ok(v, k) => Ok(v, k + n)
    case Fail => Fail
    case Beyond => Beyond
  }

  lemma AtLater(pre: seq<byte>, c: seq<byte>, i: nat, s: seq<byte>)
    ensures At(pre + c, i + |pre|, s) == At(c, i, s)
  {
    var d, n := pre + c, |pre|;
    if At(c, i, s) {
      forall k | 0 <= k < |s| ensures d[i + n + k] == s[k] {
        assert d[n + (i + k)] == c[i + k];
      }
    }
    if At(d, i + n, s) {
      forall k | 0 <= k < |s| ensures c[i + k] == s[k] {
        assert d[n + (i + k)] == c[i + k] && d[i + n + k] == s[k];
      }
    }
  }

  lemma {:induction false} SkipLater(pre: seq<byte>, c: seq<byte>, i: nat)
    requires i < |c|
    ensures Skip(pre + c, i + |pre|) == Skip(c, i) + |pre|
    decreases |c| - i
  {
    if i + 1 < |c| {
      SkipLater(pre, c, i + 1);
    }
  }

  lemma {:induction false} EndLater(pre: seq<byte>, c: seq<byte>, i: nat)
    requires i <= |c|
    ensures FindEnd(pre + c, i + |pre|) == FindEnd(c, i) + |pre|
    decreases |c| - i
  {
    if i < |c| {
      EndLater(pre, c, i + 1);
      if i + 1 < |c| {
        EndLater(pre, c, i + 2);
      }
    }
  }

  lemma LiteralLater(pre: seq<byte>, c: seq<byte>, p: nat, e: nat)
    requires p <= e <= |c|
    ensures Utf16Literal(pre + c, p + |pre|, e + |pre|) == Utf16Literal(c, p, e)
  {
    hide Combine, Hex4;
    if e - p >= 6 {
      HexLater(pre, c, p + 2);
    }
    if e - p >= 12 {
      HexLater(pre, c, p + 8);
    }
  }

  lemma HexLater(pre: seq<byte>, c: seq<byte>, i: nat)
    requires i + 4 <= |c|
    ensures Hex4(pre + c, i + |pre|) == Hex4(c, i)
  {
    hide HexDigit;
    var d, n := pre + c, |pre|;
    assert d[i + n] == c[i] && d[i + n + 1] == c[i + 1] && d[i + n + 2] == c[i + 2] && d[i + n + 3] == c[i + 3];
  }

  lemma {:induction false} DecodeLater(pre: seq<byte>, c: seq<byte>, p: nat, e: nat)
    requires p <= e + 1 && e < |c|
    ensures Decode(pre + c, p + |pre|, e + |pre|) == Decode(c, p, e)
    decreases e + 1 - p
  {
    hide Utf8, Unescape, Utf16Literal;
    if p < e {
      if c[p] != BACKSLASH {
        DecodeLater(pre, c, p + 1, e);
      } else if c[p + 1] == LOWER_U {
        LiteralLater(pre, c, p, e);
        var l := Utf16Literal(c, p, e);
        if l.length > 0 {
          DecodeLater(pre, c, p + l.length, e);
        }
      } else {
        DecodeLater(pre, c, p + 2, e);
      }
    }
  }

  lemma StringLater(pre: seq<byte>, c: seq<byte>, i: nat)
    requires i < |c|
    ensures ParseString(pre + c, i + |pre|) == Later(ParseString(c, i), |pre|)
  {
    hide FindEnd, Decode, CStr;
    EndLater(pre, c, i + 1);
    var e := FindEnd(c, i + 1);
    if e < |c| {
      DecodeLater(pre, c, i + 1, e);
    }
  }

  lemma {:induction false} NumberEndLater(pre: seq<byte>, c: seq<byte>, i: nat, room: nat)
    requires i <= |c|
    ensures NumberEnd(pre + c, i + |pre|, room) == NumberEnd(c, i, room) + |pre|
    decreases room
  {
    if room > 0 && i < |c| {
      NumberEndLater(pre, c, i + 1, room - 1);
    }
  }

  lemma NumberLater(pre: seq<byte>, c: seq<byte>, i: nat)
    requires i < |c| && (IsDigit(c[i]) || c[i] == MINUS)
    ensures ParseNumber(pre + c, i + |pre|) == Later(ParseNumber(c, i), |pre|)
  {
    hide Strtod, NumberEnd;
    NumberEndLater(pre, c, i, NUMBER_BUFFER);
    var k := NumberEnd(c, i, NUMBER_BUFFER);
    assert (pre + c)[i + |pre|..k + |pre|] == c[i..k];
  }

  lemma {:induction false} ValueLater(pre: seq<byte>, c: seq<byte>, i: nat, d: nat)
    requires Terminated(c) && i < |c|
    ensures ParseValue(pre + c, i + |pre|, d) == Later(ParseValue(c, i, d), |pre|)
    decreases |c| - i, 1
  {
    hide At, Skip, ParseString, ParseNumber, ParseItems, ParseMembers;
    AtLater(pre, c, i, NULL_TEXT);
    AtLater(pre, c, i, FALSE_TEXT);
    AtLater(pre, c, i, TRUE_TEXT);
    if c[i] == QUOTE {
      StringLater(pre, c, i);
    } else if c[i] == MINUS || IsDigit(c[i]) {
      NumberLater(pre, c, i);
    } else if (c[i] == LBRACKET || c[i] == LBRACE) && i + 1 < |c| {
      SkipLater(pre, c, i + 1);
      var j := Skip(c, i + 1);
      assert (pre + c)[j + |pre|] == c[j];
      if c[i] == LBRACKET {
        ItemsLater(pre, c, j, d + 1);
      } else {
        MembersLater(pre, c, j, d + 1);
      }
    }
  }

  /** The array loop, by its first item. */
  lemma ItemsBy(c: seq<byte>, i: nat, d: nat)
    requires Terminated(c) && i < |c|
    ensures ParseItems(c, i, d) ==
            match ParseValue(c, Skip(c, i), d)
            case Fail => Fail
            case Beyond => Beyond
            case Ok(v, b) =>
              var l := Skip(c, b);
              if c[l] == COMMA then Prepend(v, ParseItems(c, l + 1, d)) else if c[l] == RBRACKET then Ok([v], l + 1) else Fail
  {
  }

  /** The member loop, by its first member. */
  lemma MembersBy(c: seq<byte>, i: nat, d: nat)
    requires Terminated(c) && i < |c|
    ensures ParseMembers(c, i, d) ==
            match ParseMember(c, i, d)
            case Fail => Fail
            case Beyond => Beyond
            case Ok(m, b) =>
              var l := Skip(c, b);
              if c[l] == COMMA then Prepend(m, ParseMembers(c, l + 1, d)) else if c[l] == RBRACE then Ok([m], l + 1) else Fail
  {
    hide Skip, ParseMember;
  }

  lemma {:induction false} ItemsLater(pre: seq<byte>, c: seq<byte>, k: nat, d: nat)
    requires Terminated(c) && k < |c|
    ensures ParseItems(pre + c, k + |pre|, d) == Later(ParseItems(c, k, d), |pre|)
    decreases |c| - k, 2
  {
    hide Skip, ParseValue, ParseItems;
    SkipLater(pre, c, k);
    var j := Skip(c, k);
    ValueLater(pre, c, j, d);
    ItemsBy(c, k, d);
    ItemsBy(pre + c, k + |pre|, d);
    var v := ParseValue(c, j, d);
    if v.Ok? {
      SkipLater(pre, c, v.rest);
      var l := Skip(c, v.rest);
      assert (pre + c)[l + |pre|] == c[l];
      if c[l] == COMMA {
        ItemsLater(pre, c, l + 1, d);
      }
    }
  }

  lemma {:induction false} MemberLater(pre: seq<byte>, c: seq<byte>, k: nat, d: nat)
    requires Terminated(c) && k < |c|
    ensures ParseMember(pre + c, k + |pre|, d) == Later(ParseMember(c, k, d), |pre|)
    decreases |c| - k, 2
  {
    hide Skip, ParseValue, ParseString;
    SkipLater(pre, c, k);
    var j := Skip(c, k);
    StringLater(pre, c, j);
    var key := ParseString(c, j);
    if key.Ok? {
      KeyEnds(c, j);
      SkipLater(pre, c, key.rest);
      var b := Skip(c, key.rest);
      assert (pre + c)[b + |pre|] == c[b];
      if c[b] == COLON {
        SkipLater(pre, c, b + 1);
        ValueLater(pre, c, Skip(c, b + 1), d);
      }
    }
  }

  /** A string ends before the NUL of its buffer. */
  lemma KeyEnds(c: seq<byte>, j: nat)
    requires Terminated(c) && j < |c| && ParseString(c, j).Ok?
    ensures ParseString(c, j).rest < |c|
  {
  }

  lemma {:induction false} MembersLater(pre: seq<byte>, c: seq<byte>, k: nat, d: nat)
    requires Terminated(c) && k < |c|
    ensures ParseMembers(pre + c, k + |pre|, d) == Later(ParseMembers(c, k, d), |pre|)
    decreases |c| - k, 3
  {
    hide Skip, ParseMember, ParseMembers;
    MemberLater(pre, c, k, d);
    MembersBy(c, k, d);
    MembersBy(pre + c, k + |pre|, d);
    var m := ParseMember(c, k, d);
    if m.Ok? {
      SkipLater(pre, c, m.rest);
      var l := Skip(c, m.rest);
      assert (pre + c)[l + |pre|] == c[l];
      if c[l] == COMMA {
        MembersLater(pre, c, l + 1, d);
      }
    }
  }

  /** Text behind a byte-order mark is read as without it, its end three bytes further on. */
  lemma MarkIsSkipped(text: seq<byte>)
    requires !([0xEF, 0xBB, 0xBF] <= text)
    ensures Parse([0xEF, 0xBB, 0xBF] + text) == Later(Parse(text), 3)
  {
    hide ParseValue, Skip;
    var mark: seq<byte> := [0xEF, 0xBB, 0xBF];
    var c := text + [NUL];
    assert mark + text + [NUL] == mark + c;
    MarkIsPrefix(text);
    assert At(mark + c, 0, BOM);
    SkipLater(mark, c, 0);
    ValueLater(mark, c, Skip(c, 0), 0);
    if text == [] {
      Markless(c);
    }
  }

  lemma MarkIsPrefix(text: seq<byte>)
    ensures At(text + [NUL], 0, BOM) ==> [0xEF, 0xBB, 0xBF] <= text
  {
    var c := text + [NUL];
    if At(c, 0, BOM) {
      AtByte(c, 0, BOM, 0);
      AtByte(c, 0, BOM, 1);
      AtByte(c, 0, BOM, 2);
      assert c[..3] == BOM;
    }
  }

  /** A mark and nothing else is no text. */
  lemma Markless(c: seq<byte>)
    requires c == [NUL]
    ensures ParseValue([0xEF, 0xBB, 0xBF] + c, Skip([0xEF, 0xBB, 0xBF] + c, 0), 0) == Fail == ParseValue(c, Skip(c, 0), 0)
  {
  }
}
