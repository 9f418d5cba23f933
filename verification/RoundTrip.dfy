/** Parsing undoes printing, in the compact and in the pretty form. */
module RoundTrip {
  import opened Bytes
  import opened JsonText
  import opened JsonGrammar
  import opened Numerals

  // ----- white space

  lemma SkipStop(c: seq<byte>, i: nat)
    requires i < |c| && c[i] > 32
    ensures Skip(c, i) == i
  {
  }

  lemma {:induction false} SkipOver(c: seq<byte>, i: nat, w: seq<byte>)
    requires At(c, i, w) && i + |w| < |c|
    requires Blank(w)
    ensures Skip(c, i) == Skip(c, i + |w|)
    decreases |w|
  {
    if w != [] {
      AtByte(c, i, w, 0);
      AtSplit(c, i, w[..1], w[1..]);
      assert w == w[..1] + w[1..];
      SkipOver(c, i + 1, w[1..]);
    }
  }

  // ----- strings

  lemma HexLowReads(d: nat)
    requires d < 16
    ensures HexDigit(HexLow(d)) == Some(d)
  {
  }

  lemma EscapedByte(c: seq<byte>, i: nat, b: byte, e: nat)
    requires At(c, i, EscapeByte(b)) && i + |EscapeByte(b)| <= e < |c|
    ensures FindEnd(c, i) == FindEnd(c, i + |EscapeByte(b)|)
    ensures b != NUL ==> Decode(c, i, e) == Cons([b], Decode(c, i + |EscapeByte(b)|, e))
  {
    var t := EscapeByte(b);
    forall q | 0 <= q < |t|
      ensures c[i + q] == t[q]
    {
      AtByte(c, i, t, q);
    }
    assert c[i] == t[0];
    if |t| > 1 {
      assert c[i + 1] == t[1];
    }
    if |t| == 6 {
      HexLowReads(b / 16);
      HexLowReads(b % 16);
      assert c[i + 2] == t[2] && c[i + 3] == t[3] && c[i + 4] == t[4] && c[i + 5] == t[5];
      assert Hex4(c, i + 2) == b;
      assert FindEnd(c, i + 5) == FindEnd(c, i + 6);
      assert FindEnd(c, i + 4) == FindEnd(c, i + 5);
      assert FindEnd(c, i + 3) == FindEnd(c, i + 4);
      assert FindEnd(c, i + 2) == FindEnd(c, i + 3);
    }
  }

  lemma BodyEnd(c: seq<byte>, e: nat)
    requires e < |c| && c[e] == QUOTE
    ensures FindEnd(c, e) == e && Decode(c, e, e) == Some([])
  {
  }

  lemma {:induction false} EscapedBody(c: seq<byte>, i: nat, s: seq<byte>)
    requires At(c, i, Escape(s)) && i + |Escape(s)| < |c| && c[i + |Escape(s)|] == QUOTE
    requires NulFree(s)
    ensures FindEnd(c, i) == i + |Escape(s)|
    ensures Decode(c, i, i + |Escape(s)|) == Some(s)
    decreases |s|
  {
    hide At, EscapeByte, FindEnd, Decode;
    if s == [] {
      BodyEnd(c, i);
    } else {
      AtSplit(c, i, EscapeByte(s[0]), Escape(s[1..]));
      EscapedBody(c, i + |EscapeByte(s[0])|, s[1..]);
      EscapedByte(c, i, s[0], i + |Escape(s)|);
      assert s == [s[0]] + s[1..];
    }
  }

  lemma ParsesString(c: seq<byte>, i: nat, s: seq<byte>)
    requires At(c, i, StringText(s)) && NulFree(s)
    ensures ParseString(c, i) == Ok(s, i + |StringText(s)|)
  {
    hide At, Escape, FindEnd, Decode, CStr;
    AtSplit(c, i, [QUOTE] + Escape(s), [QUOTE]);
    AtSplit(c, i, [QUOTE], Escape(s));
    AtByte(c, i, [QUOTE], 0);
    AtByte(c, i + 1 + |Escape(s)|, [QUOTE], 0);
    EscapedBody(c, i + 1, s);
    CStrWhole(s);
  }

  // ----- numbers

  lemma {:induction false} DigitsRead(n: nat)
    ensures Digits(n) != [] && AllDigits(Digits(n)) && DigitsValue(Digits(n)) == n
  {
    var t := Digits(n);
    if n >= 10 {
      DigitsRead(n / 10);
      assert t[..|t| - 1] == Digits(n / 10);
    } else {
      assert t[..0] == [];
    }
  }

  lemma {:induction false} DigitsShort(n: nat, k: nat)
    requires 0 < k && n < Pow10(k)
    ensures |Digits(n)| <= k
  {
    if n >= 10 {
      assert k > 1;
      DigitsShort(n / 10, k - 1);
    }
  }

  lemma DecimalReads(n: int)
    requires -MAX_EXACT <= n <= MAX_EXACT
    ensures 0 < |Decimal(n)| <= 17
    ensures forall q :: 0 <= q < |Decimal(n)| ==> NumberByte(Decimal(n)[q])
    ensures IsDigit(Decimal(n)[0]) || Decimal(n)[0] == MINUS
    ensures Strtod(Decimal(n)) == Exactly(n)
  {
    var m := if n < 0 then -n else n;
    DigitsRead(m);
    assert Pow10(4) == 10000;
    assert Pow10(8) == 100000000;
    assert Pow10(12) == 1000000000000;
    assert Pow10(16) == 10000000000000000;
    DigitsShort(m, 16);
    if n < 0 {
      assert Decimal(n)[1..] == Digits(m);
    }
  }

  lemma ParsesNumber(c: seq<byte>, i: nat, n: int)
    requires -MAX_EXACT <= n <= MAX_EXACT
    requires At(c, i, Decimal(n)) && i + |Decimal(n)| < |c| && !NumberByte(c[i + |Decimal(n)|])
    ensures IsDigit(c[i]) || c[i] == MINUS
    ensures ParseNumber(c, i) == Ok(Num(n), i + |Decimal(n)|)
  {
    DecimalReads(n);
    AtByte(c, i, Decimal(n), 0);
    var k := NumberEnd(c, i, NUMBER_BUFFER);
    var w := i + |Decimal(n)|;
    forall q | i <= q < w
      ensures NumberByte(c[q])
    {
      AtByte(c, i, Decimal(n), q - i);
    }
    assert k == w;
    assert c[i..k] == Decimal(n);
  }

  // ----- values

  /** No printed value starts like white space or like a closing bracket. */
  lemma FirstByte(v: Json, fmt: bool, depth: nat)
    ensures Text(v, fmt, depth) != []
    ensures var b := Text(v, fmt, depth)[0]; b > 32 && b != RBRACKET && b != 0xEF
  {
    if v.Num? {
      DigitsRead(if v.n < 0 then -v.n else v.n);
    }
  }

  ghost predicate Ends(c: seq<byte>, k: nat) {
    k < |c| && !NumberByte(c[k])
  }

  lemma FitsScalar(v: Json, levels: int)
    requires Fits(v, levels)
    ensures v.Num? ==> -MAX_EXACT <= v.n <= MAX_EXACT
    ensures v.Str? ==> NulFree(v.s)
  {
  }

  lemma {:induction false} ParsesValue(v: Json, c: seq<byte>, i: nat, fmt: bool, pd: nat, d: nat)
    requires Terminated(c) && Fits(v, NESTING_LIMIT - d)
    requires At(c, i, Text(v, fmt, pd)) && Ends(c, i + |Text(v, fmt, pd)|)
    ensures ParseValue(c, i, d) == Ok(v, i + |Text(v, fmt, pd)|)
    decreases v, 1
  {
    hide At, Skip, ItemsText, MembersText, Escape, Decimal, ParseString, ParseNumber, ParseItems, ParseMembers, Fits;
    var t := Text(v, fmt, pd);
    FirstByte(v, fmt, pd);
    AtByte(c, i, t, 0);
    NotKeyword(v, c, i, fmt, pd);
    match v {
      case Null =>
      case False =>
      case True =>
      case Num(n) => FitsScalar(v, NESTING_LIMIT - d); ParsesNumber(c, i, n);
      case Str(s) => FitsScalar(v, NESTING_LIMIT - d); ParsesString(c, i, s);
      case Arr(items) => ParsesArray(items, c, i, fmt, pd, d);
      case Obj(members) => ParsesObject(members, c, i, fmt, pd, d);
    }
  }

  lemma {:induction false} ParsesArray(items: seq<Json>, c: seq<byte>, i: nat, fmt: bool, pd: nat, d: nat)
    requires Terminated(c) && Fits(Arr(items), NESTING_LIMIT - d)
    requires At(c, i, Text(Arr(items), fmt, pd)) && Ends(c, i + |Text(Arr(items), fmt, pd)|)
    ensures ParseValue(c, i, d) == Ok(Arr(items), i + |Text(Arr(items), fmt, pd)|)
    decreases items, 1
  {
    hide At, Skip, ItemsText, ParseString, ParseNumber, ParseItems, ParseMembers;
    ArrayParts(items, c, i, fmt, pd);
    NotKeyword(Arr(items), c, i, fmt, pd);
    if items == [] {
      NoItems(fmt, pd + 1);
    } else {
      ItemsFirst(items, c, i + 1, fmt, pd + 1);
      ParsesItems(items, c, i + 1, i + 1, fmt, pd + 1, d + 1);
    }
    SkipStop(c, i + 1);
  }

  lemma {:induction false} ParsesObject(members: seq<Member>, c: seq<byte>, i: nat, fmt: bool, pd: nat, d: nat)
    requires Terminated(c) && Fits(Obj(members), NESTING_LIMIT - d)
    requires At(c, i, Text(Obj(members), fmt, pd)) && Ends(c, i + |Text(Obj(members), fmt, pd)|)
    ensures ParseValue(c, i, d) == Ok(Obj(members), i + |Text(Obj(members), fmt, pd)|)
    decreases members, 1
  {
    hide At, Skip, MembersText, Indent, LineEnd, ParseString, ParseNumber, ParseItems, ParseMembers;
    ObjectParts(members, c, i, fmt, pd);
    NotKeyword(Obj(members), c, i, fmt, pd);
    var k := i + 1 + |LineEnd(fmt)|;
    if members == [] {
      NoItems(fmt, pd + 1);
    } else {
      MemberStart(members, c, k, fmt, pd + 1);
      ParsesMembers(members, c, Skip(c, k), k, fmt, pd + 1, d + 1);
    }
  }

  /** The keyword tests of parse_value fail on every text that is not the keyword's. */
  lemma NotKeyword(v: Json, c: seq<byte>, i: nat, fmt: bool, pd: nat)
    requires At(c, i, Text(v, fmt, pd))
    ensures At(c, i, NULL_TEXT) <==> v == Null
    ensures At(c, i, FALSE_TEXT) <==> v == False
    ensures At(c, i, TRUE_TEXT) <==> v == True
  {
    FirstByte(v, fmt, pd);
    AtByte(c, i, Text(v, fmt, pd), 0);
    if v.Num? {
      DigitsRead(if v.n < 0 then -v.n else v.n);
    }
    if At(c, i, NULL_TEXT) { AtByte(c, i, NULL_TEXT, 0); }
    if At(c, i, FALSE_TEXT) { AtByte(c, i, FALSE_TEXT, 0); }
    if At(c, i, TRUE_TEXT) { AtByte(c, i, TRUE_TEXT, 0); }
  }

  lemma NoItems(fmt: bool, pd: nat)
    ensures ItemsText([], fmt, pd) == [] && MembersText([], fmt, pd) == []
  {
  }

  lemma ItemsFirst(items: seq<Json>, c: seq<byte>, k: nat, fmt: bool, pd: nat)
    requires items != [] && At(c, k, ItemsText(items, fmt, pd))
    ensures ItemsText(items, fmt, pd) != []
    ensures k < |c| && c[k] > 32 && c[k] != RBRACKET && Skip(c, k) == k
  {
    hide At, Text;
    FirstByte(items[0], fmt, pd);
    AtByte(c, k, ItemsText(items, fmt, pd), 0);
  }

  lemma ArrayParts(items: seq<Json>, c: seq<byte>, i: nat, fmt: bool, pd: nat)
    requires At(c, i, Text(Arr(items), fmt, pd))
    ensures c[i] == LBRACKET
    ensures At(c, i + 1, ItemsText(items, fmt, pd + 1))
    ensures c[i + 1 + |ItemsText(items, fmt, pd + 1)|] == RBRACKET
  {
    hide At;
    var body := ItemsText(items, fmt, pd + 1);
    AtSplit(c, i, [LBRACKET] + body, [RBRACKET]);
    AtSplit(c, i, [LBRACKET], body);
    AtByte(c, i, [LBRACKET], 0);
    AtByte(c, i + 1 + |body|, [RBRACKET], 0);
  }

  lemma ItemParts(items: seq<Json>, c: seq<byte>, k: nat, fmt: bool, pd: nat)
    requires |items| > 1 && At(c, k, ItemsText(items, fmt, pd))
    ensures var a := k + |Text(items[0], fmt, pd)|;
            var b := a + |ItemSep(fmt)|;
            && At(c, k, Text(items[0], fmt, pd)) && At(c, b, ItemsText(items[1..], fmt, pd))
            && b + |ItemsText(items[1..], fmt, pd)| == k + |ItemsText(items, fmt, pd)|
            && b < |c| && c[a] == COMMA && Skip(c, a + 1) == b
  {
    hide At, ItemSep, Text, Skip;
    var rest := ItemsText(items[1..], fmt, pd);
    var sep := ItemSep(fmt);
    var a := k + |Text(items[0], fmt, pd)|;
    AtSplit(c, k, Text(items[0], fmt, pd), sep + rest);
    AtSplit(c, a, sep, rest);
    AtByte(c, a, sep, 0);
    ItemsFirst(items[1..], c, a + |sep|, fmt, pd);
    assert sep == [COMMA] + sep[1..];
    AtSplit(c, a, [COMMA], sep[1..]);
    SkipOver(c, a + 1, sep[1..]);
  }

  lemma OneItem(items: seq<Json>, fmt: bool, pd: nat)
    requires |items| == 1
    ensures items == [items[0]] && ItemsText(items, fmt, pd) == Text(items[0], fmt, pd)
  {
  }

  lemma {:induction false} ParsesItems(items: seq<Json>, c: seq<byte>, k0: nat, k: nat, fmt: bool, pd: nat, d: nat)
    requires Terminated(c) && items != []
    requires forall x :: x in items ==> Fits(x, NESTING_LIMIT - d)
    requires At(c, k, ItemsText(items, fmt, pd)) && k0 <= k < |c| && Skip(c, k0) == k
    requires k + |ItemsText(items, fmt, pd)| < |c| && c[k + |ItemsText(items, fmt, pd)|] == RBRACKET
    ensures ParseItems(c, k0, d) == Ok(items, k + |ItemsText(items, fmt, pd)| + 1)
    decreases items, 0
  {
    hide At, ItemSep, Text, ItemsText, Fits, Skip, ParseValue, ParseItems;
    assert items[0] in items;
    var a := k + |Text(items[0], fmt, pd)|;
    ItemsTurn(c, k0, d, []);
    PrependNone(ParseItems(c, k0, d));
    if |items| == 1 {
      OneItem(items, fmt, pd);
      assert [] + [items[0]] == items;
      SkipStop(c, a);
      ParsesValue(items[0], c, k, fmt, pd, d);
    } else {
      ItemParts(items, c, k, fmt, pd);
      SkipStop(c, a);
      ParsesValue(items[0], c, k, fmt, pd, d);
      forall x | x in items[1..]
        ensures Fits(x, NESTING_LIMIT - d)
      {
        assert x in items;
      }
      ParsesItems(items[1..], c, a + 1, a + |ItemSep(fmt)|, fmt, pd, d);
      assert [] + [items[0]] == [items[0]];
      assert items == [items[0]] + items[1..];
    }
  }

  lemma ObjectParts(members: seq<Member>, c: seq<byte>, i: nat, fmt: bool, pd: nat)
    requires At(c, i, Text(Obj(members), fmt, pd))
    ensures var k := i + 1 + |LineEnd(fmt)|;
            var m := k + |MembersText(members, fmt, pd + 1)|;
            && c[i] == LBRACE
            && m < |c| && Skip(c, i + 1) == Skip(c, k)
            && At(c, k, MembersText(members, fmt, pd + 1))
            && m + |Indent(fmt, pd)| + 1 == i + |Text(Obj(members), fmt, pd)|
            && Skip(c, m) == m + |Indent(fmt, pd)| && c[Skip(c, m)] == RBRACE && Ends(c, m)
  {
    hide At, LineEnd, Indent, MembersText, Skip;
    var open := [LBRACE] + LineEnd(fmt);
    var body := MembersText(members, fmt, pd + 1);
    var close := Indent(fmt, pd) + [RBRACE];
    var k := i + |open|;
    var m := k + |body|;
    AtSplit(c, i, open + body, close);
    AtSplit(c, i, open, body);
    AtSplit(c, i, [LBRACE], LineEnd(fmt));
    AtByte(c, i, [LBRACE], 0);
    AtSplit(c, m, Indent(fmt, pd), [RBRACE]);
    AtByte(c, m + |Indent(fmt, pd)|, [RBRACE], 0);
    SkipOver(c, i + 1, LineEnd(fmt));
    SkipOver(c, m, Indent(fmt, pd));
    if Indent(fmt, pd) != [] {
      AtByte(c, m, Indent(fmt, pd), 0);
    }
    SkipStop(c, m + |Indent(fmt, pd)|);
  }

  /** Where the quote of the first key stands. */
  lemma MemberStart(members: seq<Member>, c: seq<byte>, k: nat, fmt: bool, pd: nat)
    requires members != [] && At(c, k, MembersText(members, fmt, pd))
    ensures var q := k + |Indent(fmt, pd)|;
            && k <= q < |c| && Skip(c, k) == q && c[q] == QUOTE && Skip(c, q) == q
  {
    hide At, Indent, KeySep, Text, Skip;
    var m := members[0];
    var tail := Text(m.value, fmt, pd) + (MemberSep(fmt, |members| > 1) + MembersText(members[1..], fmt, pd));
    AtSplit(c, k, MemberHead(m, fmt, pd), tail);
    AtSplit(c, k, Indent(fmt, pd), StringText(m.key) + KeySep(fmt));
    AtSplit(c, k + |Indent(fmt, pd)|, StringText(m.key), KeySep(fmt));
    AtByte(c, k + |Indent(fmt, pd)|, StringText(m.key), 0);
    SkipOver(c, k, Indent(fmt, pd));
    SkipStop(c, k + |Indent(fmt, pd)|);
  }

  /** The key and the colon of a member, and where its value starts. */
  lemma ParsesKey(m: Member, c: seq<byte>, k: nat, fmt: bool, pd: nat)
    requires At(c, k, MemberHead(m, fmt, pd)) && k + |MemberHead(m, fmt, pd)| < |c|
    requires c[k + |MemberHead(m, fmt, pd)|] > 32 && NulFree(m.key)
    ensures var q := k + |Indent(fmt, pd)|;
            var a := q + |StringText(m.key)|;
            && a + 1 < |c| && ParseString(c, q) == Ok(m.key, a)
            && Skip(c, a) == a && c[a] == COLON
            && Skip(c, a + 1) == k + |MemberHead(m, fmt, pd)|
  {
    hide At, Indent, KeySep, StringText, Skip, ParseString;
    var q := k + |Indent(fmt, pd)|;
    var a := q + |StringText(m.key)|;
    AtSplit(c, k, Indent(fmt, pd), StringText(m.key) + KeySep(fmt));
    AtSplit(c, q, StringText(m.key), KeySep(fmt));
    ParsesString(c, q, m.key);
    AtByte(c, a, KeySep(fmt), 0);
    AtSplit(c, a, [COLON], KeySep(fmt)[1..]);
    assert KeySep(fmt) == [COLON] + KeySep(fmt)[1..];
    SkipOver(c, a + 1, KeySep(fmt)[1..]);
    SkipStop(c, a);
    SkipStop(c, k + |MemberHead(m, fmt, pd)|);
  }

  /** What follows a member's value: a comma at once, or white space up to what ends the list. */
  lemma MemberSeparator(c: seq<byte>, a: nat, fmt: bool, more: bool)
    requires At(c, a, MemberSep(fmt, more)) && a + |MemberSep(fmt, more)| < |c|
    requires more || Ends(c, a + |MemberSep(fmt, more)|)
    ensures Ends(c, a)
    ensures more ==> c[a] == COMMA && Skip(c, a + 1) == Skip(c, a + |MemberSep(fmt, more)|)
    ensures !more ==> Skip(c, a) == Skip(c, a + |MemberSep(fmt, more)|)
  {
    hide At;
    var comma: seq<byte> := if more then [COMMA] else [];
    AtSplit(c, a, comma, LineEnd(fmt));
    if more {
      AtByte(c, a, comma, 0);
    } else if fmt {
      AtByte(c, a, LineEnd(fmt), 0);
    }
    SkipOver(c, a + |comma|, LineEnd(fmt));
  }

  lemma MemberParts(members: seq<Member>, c: seq<byte>, k: nat, fmt: bool, pd: nat)
    requires members != [] && At(c, k, MembersText(members, fmt, pd))
    ensures var m := members[0];
            var v := k + |MemberHead(m, fmt, pd)|;
            var a := v + |Text(m.value, fmt, pd)|;
            var b := a + |MemberSep(fmt, |members| > 1)|;
            && At(c, k, MemberHead(m, fmt, pd)) && At(c, v, Text(m.value, fmt, pd))
            && At(c, a, MemberSep(fmt, |members| > 1)) && At(c, b, MembersText(members[1..], fmt, pd))
            && b + |MembersText(members[1..], fmt, pd)| == k + |MembersText(members, fmt, pd)|
            && v < |c| && c[v] > 32
  {
    hide At, Text, MemberHead, MemberSep;
    var m := members[0];
    var head := MemberHead(m, fmt, pd);
    var value := Text(m.value, fmt, pd);
    var sep := MemberSep(fmt, |members| > 1);
    var rest := MembersText(members[1..], fmt, pd);
    AtSplit(c, k, head, value + (sep + rest));
    AtSplit(c, k + |head|, value, sep + rest);
    AtSplit(c, k + |head| + |value|, sep, rest);
    FirstByte(m.value, fmt, pd);
    AtByte(c, k + |head|, value, 0);
  }

  lemma {:induction false} ParsesMembers(members: seq<Member>, c: seq<byte>, k0: nat, k: nat, fmt: bool, pd: nat, d: nat)
    requires Terminated(c) && members != []
    requires forall m :: m in members ==> NulFree(m.key) && Fits(m.value, NESTING_LIMIT - d)
    requires At(c, k, MembersText(members, fmt, pd)) && k < |c|
    requires k0 < |c| && Skip(c, k0) == Skip(c, k)
    requires var z := k + |MembersText(members, fmt, pd)|;
             Ends(c, z) && c[Skip(c, z)] == RBRACE
    ensures ParseMembers(c, k0, d) == Ok(members, Skip(c, k + |MembersText(members, fmt, pd)|) + 1)
    decreases members, 0
  {
    hide At, Text, MembersText, MemberHead, MemberSep, StringText, Indent, KeySep, Fits, Skip, ParseString, ParseValue, ParseMembers;
    var m := members[0];
    var more := |members| > 1;
    var v := k + |MemberHead(m, fmt, pd)|;
    var a := v + |Text(m.value, fmt, pd)|;
    var b := a + |MemberSep(fmt, more)|;
    MemberStart(members, c, k, fmt, pd);
    MemberParts(members, c, k, fmt, pd);
    ParsesKey(m, c, k, fmt, pd);
    if more {
      MemberStart(members[1..], c, b, fmt, pd);
    } else {
      NoItems(fmt, pd);
      assert members[1..] == [];
    }
    MemberSeparator(c, a, fmt, more);
    ParsesValue(m.value, c, v, fmt, pd, d);
    MembersTurn(c, k0, d, []);
    PrependNone(ParseMembers(c, k0, d));
    if more {
      SkipStop(c, a);
      assert [] + [m] == [m];
      forall x | x in members[1..]
        ensures NulFree(x.key) && Fits(x.value, NESTING_LIMIT - d)
      {
        assert x in members;
      }
      ParsesMembers(members[1..], c, a + 1, b, fmt, pd, d);
      assert members == [m] + members[1..];
    } else {
      assert [] + [m] == members;
    }
  }

  // ----- what the parser can return

  lemma {:induction false} ParsedFits(c: seq<byte>, i: nat, d: nat)
    requires Terminated(c) && i < |c| && d <= NESTING_LIMIT && ParseValue(c, i, d).Ok?
    ensures Fits(ParseValue(c, i, d).value, NESTING_LIMIT - d)
    decreases |c| - i, 1
  {
    hide At, Skip, ParseString, ParseNumber, ParseItems, ParseMembers;
    if !At(c, i, NULL_TEXT) && !At(c, i, FALSE_TEXT) && !At(c, i, TRUE_TEXT) && c[i] != QUOTE {
      if c[i] == LBRACKET {
        var j := Skip(c, i + 1);
        if c[j] != RBRACKET {
          ParsedItemsFit(c, j, d + 1);
        }
      } else if c[i] == LBRACE {
        var j := Skip(c, i + 1);
        if c[j] != RBRACE {
          ParsedMembersFit(c, j, d + 1);
        }
      } else {
        ParsedNumberFits(c, i);
      }
    }
  }

  lemma ParsedNumberFits(c: seq<byte>, i: nat)
    requires i < |c| && (IsDigit(c[i]) || c[i] == MINUS) && ParseNumber(c, i).Ok?
    ensures Fits(ParseNumber(c, i).value, 0)
  {
  }

  lemma {:induction false} ParsedItemsFit(c: seq<byte>, k: nat, d: nat)
    requires Terminated(c) && k < |c| && d <= NESTING_LIMIT && ParseItems(c, k, d).Ok?
    ensures forall x :: x in ParseItems(c, k, d).value ==> Fits(x, NESTING_LIMIT - d)
    decreases |c| - k, 2
  {
    hide Skip, ParseValue, Fits;
    var j := Skip(c, k);
    ParsedFits(c, j, d);
    var l := Skip(c, ParseValue(c, j, d).rest);
    if c[l] == COMMA {
      ParsedItemsFit(c, l + 1, d);
    }
  }

  lemma {:induction false} ParsedMembersFit(c: seq<byte>, k: nat, d: nat)
    requires Terminated(c) && k < |c| && d <= NESTING_LIMIT && ParseMembers(c, k, d).Ok?
    ensures forall m :: m in ParseMembers(c, k, d).value ==> NulFree(m.key) && Fits(m.value, NESTING_LIMIT - d)
    decreases |c| - k, 2
  {
    hide Skip, ParseString, ParseValue, Fits;
    var b := Skip(c, ParseString(c, Skip(c, k)).rest);
    var e := Skip(c, b + 1);
    ParsedFits(c, e, d);
    var l := Skip(c, ParseValue(c, e, d).rest);
    if c[l] == COMMA {
      ParsedMembersFit(c, l + 1, d);
    }
  }

  // ----- the theorems

  /**
   * Parsing the printed text gives back the tree and consumes exactly that text, when numbers are integers within
   * 2^53, no string has a NUL and at most 1000 arrays and objects nest. Of these, a NUL or a deeper nesting always
   * prevents it. Nothing is claimed for larger numbers, of which the source gives some back.
   */
  lemma ParseUndoesPrint(v: Json, fmt: bool)
    ensures Fits(v, NESTING_LIMIT) ==> Parse(Text(v, fmt, 0)) == Ok(v, |Text(v, fmt, 0)|)
    ensures ExactNumbers(v) ==> (Parse(Text(v, fmt, 0)) == Ok(v, |Text(v, fmt, 0)|) <==> Fits(v, NESTING_LIMIT))
  {
    var t := Text(v, fmt, 0);
    var c := t + [NUL];
    if Fits(v, NESTING_LIMIT) {
      FirstByte(v, fmt, 0);
      assert At(c, 0, t);
      if At(c, 0, BOM) {
        AtByte(c, 0, BOM, 0);
      }
      ParsesValue(v, c, 0, fmt, 0, 0);
    }
    if Parse(t) == Ok(v, |t|) {
      ParsedFits(c, Skip(c, Start(c)), 0);
    }
  }

  /** Whatever text a tree was parsed from, printing it in either form and parsing again keeps it. */
  lemma ReparseIsStable(text: seq<byte>, fmt: bool)
    requires Parse(text).Ok?
    ensures var v := Parse(text).value;
            Parse(Text(v, fmt, 0)) == Ok(v, |Text(v, fmt, 0)|)
  {
    var c := text + [NUL];
    ParsedFits(c, Skip(c, Start(c)), 0);
    ParseUndoesPrint(Parse(text).value, fmt);
  }
}
