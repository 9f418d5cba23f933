/** cJSON_Minify: what it computes, when it turns pretty text into compact text, and that it works in place. */
module JsonMinify {
  import opened Bytes
  import opened JsonText

  // ----- what is computed

  predicate Layout(b: byte) { b == SPACE || b == TAB || b == RETURN || b == NEWLINE }

  /** What skip_oneline_comment leaves. */
  function AfterLine(s: seq<byte>): (r: seq<byte>)
    ensures |r| <= |s| && r == s[|s| - |r|..]
  {
    if s == [] then [] else if s[0] == NEWLINE then s[1..] else AfterLine(s[1..])
  }

  /** What skip_multiline_comment leaves. */
  function AfterComment(s: seq<byte>): (r: seq<byte>)
    ensures |r| <= |s| && r == s[|s| - |r|..]
  {
    if s == [] then []
    else if s[0] == STAR && |s| > 1 && s[1] == SLASH then s[2..]
    else AfterComment(s[1..])
  }

  function Minified(s: seq<byte>): (r: seq<byte>)
    ensures |r| <= |s|
    decreases |s|
  {
    if s == [] then []
    else if Layout(s[0]) then Minified(s[1..])
    else if s[0] == SLASH then
      if |s| > 1 && s[1] == SLASH then Minified(AfterLine(s[2..]))
      else if |s| > 1 && s[1] == STAR then Minified(AfterComment(s[2..]))
      else Minified(s[1..])
    else if s[0] == QUOTE then [QUOTE] + InString(s[1..])
    else [s[0]] + Minified(s[1..])
  }

  /** Behind an opening quote. */
  function InString(s: seq<byte>): (r: seq<byte>)
    ensures |r| <= |s|
    ensures s != [] ==> r != [] && r[0] == s[0]
    decreases |s|
  {
    if s == [] then []
    else if s[0] == QUOTE then [QUOTE] + Minified(s[1..])
    else if s[0] == BACKSLASH && |s| > 1 && s[1] == QUOTE then [BACKSLASH, QUOTE] + InString(s[2..])
    else [s[0]] + InString(s[1..])
  }

  // ----- what that means for each kind of text

  /** The white space of section 2 of RFC 8259 goes, anything else but slashes and quotes stays. */
  lemma BytesMinified(b: byte, rest: seq<byte>)
    ensures b in {9, 10, 13, 32} ==> Minified([b] + rest) == Minified(rest)
    ensures b !in {9, 10, 13, 32, '/' as int, '\"' as int} ==> Minified([b] + rest) == [b] + Minified(rest)
  {
    assert ([b] + rest)[1..] == rest;
  }

  /** A line comment goes with its newline, and takes all that follows when there is none. */
  lemma LineCommentGoes(line: seq<byte>, rest: seq<byte>)
    requires 10 !in line
    ensures Minified(['/' as int, '/' as int] + (line + ([10] + rest))) == Minified(rest)
    ensures Minified(['/' as int, '/' as int] + line) == []
  {
    hide Minified, AfterLine;
    LineEnds(line, rest);
    CommentOpens(SLASH, line + ([10] + rest));
    CommentOpens(SLASH, line);
    NothingLeft();
  }

  lemma CommentOpens(second: byte, rest: seq<byte>)
    requires second == SLASH || second == STAR
    ensures Minified([SLASH, second] + rest) == Minified(if second == SLASH then AfterLine(rest) else AfterComment(rest))
  {
    hide AfterLine, AfterComment;
    assert ([SLASH, second] + rest)[2..] == rest;
  }

  lemma {:induction false} LineEnds(line: seq<byte>, rest: seq<byte>)
    requires 10 !in line
    ensures AfterLine(line + ([10] + rest)) == rest && AfterLine(line) == []
  {
    var s := line + ([10] + rest);
    if line == [] {
      assert s[1..] == rest;
    } else {
      assert s[1..] == line[1..] + ([10] + rest);
      LineEnds(line[1..], rest);
    }
  }

  /** A block comment goes up to the first star and slash behind it, and takes all that follows when there are none. */
  lemma BlockCommentGoes(body: seq<byte>, rest: seq<byte>)
    requires forall k :: 0 <= k < |body| - 1 ==> body[k] != '*' as int || body[k + 1] != '/' as int
    ensures Minified(['/' as int, '*' as int] + (body + (['*' as int, '/' as int] + rest))) == Minified(rest)
    ensures Minified(['/' as int, '*' as int] + body) == []
  {
    hide Minified, AfterComment;
    BlockEnds(body, rest);
    CommentOpens(STAR, body + (['*' as int, '/' as int] + rest));
    CommentOpens(STAR, body);
    NothingLeft();
  }

  lemma {:induction false} BlockEnds(body: seq<byte>, rest: seq<byte>)
    requires forall k :: 0 <= k < |body| - 1 ==> body[k] != '*' as int || body[k + 1] != '/' as int
    ensures AfterComment(body + (['*' as int, '/' as int] + rest)) == rest && AfterComment(body) == []
  {
    var end: seq<byte> := ['*' as int, '/' as int] + rest;
    var s := body + end;
    if body == [] {
      assert s[2..] == rest;
    } else {
      assert s[1..] == body[1..] + end;
      assert s[1] == if |body| > 1 then body[1] else '*' as int;
      BlockEnds(body[1..], rest);
    }
  }

  /** A slash that starts no comment goes alone. */
  lemma LoneSlashGoes(rest: seq<byte>)
    requires rest == [] || (rest[0] != '/' as int && rest[0] != '*' as int)
    ensures Minified(['/' as int] + rest) == Minified(rest)
  {
    assert (['/' as int] + rest)[1..] == rest;
  }

  /** A string stays whole, up to the first quote that no backslash stands directly in front of. */
  lemma StringStays(s: seq<byte>, rest: seq<byte>)
    requires forall k :: 0 <= k < |s| && s[k] == '\"' as int ==> k > 0 && s[k - 1] == '\\' as int
    requires s != [] ==> s[|s| - 1] != '\\' as int
    ensures Minified(['\"' as int] + (s + (['\"' as int] + rest))) == ['\"' as int] + (s + (['\"' as int] + Minified(rest)))
  {
    hide Minified, InString;
    QuoteOpens(s + ([QUOTE] + rest));
    BodyStays(s, rest);
  }

  lemma QuoteOpens(body: seq<byte>)
    ensures Minified([QUOTE] + body) == [QUOTE] + InString(body)
  {
    assert ([QUOTE] + body)[1..] == body;
  }

  lemma QuoteCloses(rest: seq<byte>)
    ensures InString([QUOTE] + rest) == [QUOTE] + Minified(rest)
  {
    assert ([QUOTE] + rest)[1..] == rest;
  }

  lemma OneStays(b: byte, rest: seq<byte>)
    requires b != QUOTE && (b == BACKSLASH ==> rest == [] || rest[0] != QUOTE)
    ensures InString([b] + rest) == [b] + InString(rest)
  {
    assert ([b] + rest)[1..] == rest;
  }

  lemma PairStays(rest: seq<byte>)
    ensures InString([BACKSLASH, QUOTE] + rest) == [BACKSLASH, QUOTE] + InString(rest)
  {
    assert ([BACKSLASH, QUOTE] + rest)[2..] == rest;
  }

  lemma {:induction false} BodyStays(s: seq<byte>, rest: seq<byte>)
    requires forall k :: 0 <= k < |s| && s[k] == '\"' as int ==> k > 0 && s[k - 1] == '\\' as int
    requires s != [] ==> s[|s| - 1] != '\\' as int
    ensures InString(s + (['\"' as int] + rest)) == s + (['\"' as int] + Minified(rest))
    decreases |s|
  {
    hide Minified, InString;
    var end := [QUOTE] + rest;
    if s == [] {
      QuoteCloses(rest);
      assert s + end == end && s + ([QUOTE] + Minified(rest)) == [QUOTE] + Minified(rest);
    } else if s[0] == BACKSLASH && |s| > 1 && s[1] == QUOTE {
      PairStays(s[2..] + end);
      BodyStays(s[2..], rest);
      assert s + end == [BACKSLASH, QUOTE] + (s[2..] + end);
      assert s + ([QUOTE] + Minified(rest)) == [BACKSLASH, QUOTE] + (s[2..] + ([QUOTE] + Minified(rest)));
    } else {
      OneStays(s[0], s[1..] + end);
      BodyStays(s[1..], rest);
      assert s + end == [s[0]] + (s[1..] + end);
      assert s + ([QUOTE] + Minified(rest)) == [s[0]] + (s[1..] + ([QUOTE] + Minified(rest)));
    }
  }

  // ----- minifying twice

  /** Minifying what is minified changes nothing, for every input. */
  lemma {:induction false} MinifyTwice(s: seq<byte>)
    ensures Minified(Minified(s)) == Minified(s)
    decreases |s|
  {
    if s == [] {
    } else if Layout(s[0]) {
      MinifyTwice(s[1..]);
    } else if s[0] == SLASH {
      MinifyTwice(if |s| > 1 && s[1] == SLASH then AfterLine(s[2..])
                  else if |s| > 1 && s[1] == STAR then AfterComment(s[2..])
                  else s[1..]);
    } else if s[0] == QUOTE {
      InStringTwice(s[1..]);
      assert Minified(s)[1..] == InString(s[1..]);
    } else {
      MinifyTwice(s[1..]);
      assert Minified(s)[1..] == Minified(s[1..]);
    }
  }

  lemma {:induction false} InStringTwice(s: seq<byte>)
    ensures InString(InString(s)) == InString(s)
    decreases |s|
  {
    var r := InString(s);
    if s == [] {
    } else if s[0] == QUOTE {
      MinifyTwice(s[1..]);
      assert r[1..] == Minified(s[1..]);
    } else if s[0] == BACKSLASH && |s| > 1 && s[1] == QUOTE {
      InStringTwice(s[2..]);
      assert r[2..] == InString(s[2..]);
    } else {
      InStringTwice(s[1..]);
      assert r[1..] == InString(s[1..]);
    }
  }

  // ----- pretty text

  predicate EndsInBackslash(s: seq<byte>) { s != [] && s[|s| - 1] == BACKSLASH }

  /** No key and no string of `v` ends in a backslash. */
  ghost predicate Clean(v: Json) {
    match v
    case Str(s) => !EndsInBackslash(s)
    case Arr(items) => forall x :: x in items ==> Clean(x)
    case Obj(members) => forall m :: m in members ==> !EndsInBackslash(m.key) && Clean(m.value)
    case _ => true
  }

  /** Such a string may be the very last thing printed before closing square brackets. */
  ghost predicate Harmless(v: Json) {
    || Clean(v)
    || v.Str?
    || (v.Arr? && v.items != [] && (forall x :: x in v.items[..|v.items| - 1] ==> Clean(x))
        && Harmless(v.items[|v.items| - 1]))
  }

  /** `x` and `t` agree up to a position where both have a byte and the bytes differ. */
  ghost predicate Diverges(x: seq<byte>, t: seq<byte>) {
    exists k: nat :: DivergesAt(x, t, k)
  }

  ghost predicate DivergesAt(x: seq<byte>, t: seq<byte>, k: nat) {
    k < |x| && k < |t| && x[..k] == t[..k] && x[k] != t[k]
  }

  lemma DivergesBehind(p: seq<byte>, x: seq<byte>, t: seq<byte>, more: seq<byte>)
    requires Diverges(x, t)
    ensures Diverges(p + x, p + t) && Diverges(x, t + more)
  {
    var k: nat :| DivergesAt(x, t, k);
    var px, pt := p + x, p + t;
    assert px[..|p| + k] == p + x[..k] && pt[..|p| + k] == p + t[..k];
    assert DivergesAt(px, pt, |p| + k);
    assert (t + more)[..k] == t[..k];
    assert DivergesAt(x, t + more, k);
  }

  lemma DivergesNow(x: seq<byte>, t: seq<byte>)
    requires x != [] && t != [] && x[0] != t[0]
    ensures Diverges(x, t)
  {
    assert DivergesAt(x, t, 0);
  }

  lemma {:induction false} LayoutDropped(w: seq<byte>, rest: seq<byte>)
    requires forall k :: 0 <= k < |w| ==> Layout(w[k])
    ensures Minified(w + rest) == Minified(rest)
    decreases |w|
  {
    if w == [] {
      assert w + rest == rest;
    } else {
      assert (w + rest)[1..] == w[1..] + rest;
      LayoutDropped(w[1..], rest);
    }
  }

  predicate Solid(b: byte) { !Layout(b) && b != SLASH && b != QUOTE }

  lemma {:induction false} SolidKept(t: seq<byte>, rest: seq<byte>)
    requires forall k :: 0 <= k < |t| ==> Solid(t[k])
    ensures Minified(t + rest) == t + Minified(rest)
    decreases |t|
  {
    if t == [] {
      assert t + rest == rest;
    } else {
      var s := t + rest;
      assert s[0] == t[0] && s[1..] == t[1..] + rest;
      SolidFirst(s);
      hide Minified;
      SolidKept(t[1..], rest);
      assert t + Minified(rest) == [t[0]] + (t[1..] + Minified(rest));
    }
  }

  lemma SolidFirst(s: seq<byte>)
    requires s != [] && Solid(s[0])
    ensures Minified(s) == [s[0]] + Minified(s[1..])
  {
  }

  // ----- strings

  lemma PairCopied(b: byte, more: seq<byte>)
    requires b != QUOTE && (b == BACKSLASH ==> more == [] || more[0] != QUOTE)
    ensures InString([BACKSLASH, b] + more) == [BACKSLASH, b] + InString(more)
  {
    var s := [BACKSLASH, b] + more;
    assert s[1..] == [b] + more;
    assert s[1..][1..] == more;
    assert InString(s) == [BACKSLASH] + InString(s[1..]);
  }

  lemma QuoteCopied(more: seq<byte>)
    ensures InString([BACKSLASH, QUOTE] + more) == [BACKSLASH, QUOTE] + InString(more)
  {
    assert ([BACKSLASH, QUOTE] + more)[2..] == more;
  }

  lemma HexCopied(h: seq<byte>, more: seq<byte>)
    requires forall k :: 0 <= k < |h| ==> h[k] != QUOTE && h[k] != BACKSLASH
    ensures InString([BACKSLASH, LOWER_U] + h + more) == [BACKSLASH, LOWER_U] + h + InString(more)
  {
    hide InString;
    InStringPlain(h, more);
    PairCopied(LOWER_U, h + more);
    assert [BACKSLASH, LOWER_U] + h + more == [BACKSLASH, LOWER_U] + (h + more);
    assert [BACKSLASH, LOWER_U] + (h + InString(more)) == [BACKSLASH, LOWER_U] + h + InString(more);
  }

  lemma EscapeShape(b: byte)
    ensures var e := EscapeByte(b);
            && |e| in {1, 2, 6}
            && (|e| == 1 ==> e[0] != QUOTE && e[0] != BACKSLASH)
            && (|e| == 2 ==> e[0] == BACKSLASH)
            && (|e| == 2 ==> (e[1] == QUOTE <==> b == QUOTE) && (e[1] == BACKSLASH <==> b == BACKSLASH))
            && (|e| == 6 ==> e[0] == BACKSLASH && e[1] == LOWER_U && b != BACKSLASH)
            && (|e| == 6 ==> forall k :: 2 <= k < 6 ==> e[k] != QUOTE && e[k] != BACKSLASH)
            && (b == QUOTE ==> |e| == 2)
  {
  }

  lemma LongCopied(e: seq<byte>, more: seq<byte>)
    requires |e| == 6 && e[0] == BACKSLASH && e[1] == LOWER_U
    requires forall k :: 2 <= k < 6 ==> e[k] != QUOTE && e[k] != BACKSLASH
    ensures InString(e + more) == e + InString(more)
  {
    hide InString;
    var h := e[2..];
    assert e == [BACKSLASH, LOWER_U] + h;
    HexCopied(h, more);
  }

  lemma PlainCopied(c: byte, more: seq<byte>)
    requires c != QUOTE && c != BACKSLASH
    ensures InString([c] + more) == [c] + InString(more)
  {
    assert ([c] + more)[1..] == more;
  }

  lemma ShortCopied(c: byte, more: seq<byte>)
    requires c == BACKSLASH ==> more == [] || more[0] != QUOTE
    ensures InString([BACKSLASH, c] + more) == [BACKSLASH, c] + InString(more)
  {
    hide InString;
    if c == QUOTE {
      QuoteCopied(more);
    } else {
      PairCopied(c, more);
    }
  }

  /** An escaped byte is copied; only a backslash in front of the closing quote misleads. */
  lemma EscapeCopied(b: byte, more: seq<byte>)
    requires b == BACKSLASH ==> more == [] || more[0] != QUOTE
    ensures InString(EscapeByte(b) + more) == EscapeByte(b) + InString(more)
  {
    hide InString, EscapeByte;
    var e := EscapeByte(b);
    EscapeShape(b);
    if |e| == 1 {
      assert e == [e[0]];
      PlainCopied(e[0], more);
    } else if |e| == 2 {
      assert e == [BACKSLASH, e[1]];
      ShortCopied(e[1], more);
    } else {
      LongCopied(e, more);
    }
  }

  lemma {:induction false} InStringPlain(t: seq<byte>, more: seq<byte>)
    requires forall k :: 0 <= k < |t| ==> t[k] != QUOTE && t[k] != BACKSLASH
    ensures InString(t + more) == t + InString(more)
    decreases |t|
  {
    if t == [] {
      assert t + more == more;
    } else {
      assert (t + more)[1..] == t[1..] + more;
      InStringPlain(t[1..], more);
      assert t == [t[0]] + t[1..];
    }
  }

  lemma {:induction false} StringBody(s: seq<byte>, rest: seq<byte>)
    ensures InString(Escape(s) + ([QUOTE] + rest))
            == Escape(s) + ([QUOTE] + if EndsInBackslash(s) then InString(rest) else Minified(rest))
    decreases |s|
  {
    hide InString, EscapeByte, Escape, Minified;
    if s == [] {
      EmptyString(rest);
    } else if |s| == 1 && s[0] == BACKSLASH {
      assert s == [BACKSLASH];
      LastBackslash(rest);
    } else {
      var close := [QUOTE] + rest;
      var tail := Escape(s[1..]) + close;
      StringBody(s[1..], rest);
      EscapeFirst(s);
      EscapeStarts(s[1..]);
      EscapeCopied(s[0], tail);
      assert Escape(s) + close == EscapeByte(s[0]) + tail;
      var after := [QUOTE] + if EndsInBackslash(s) then InString(rest) else Minified(rest);
      assert EscapeByte(s[0]) + (Escape(s[1..]) + after) == Escape(s) + after;
    }
  }

  lemma EmptyString(rest: seq<byte>)
    ensures InString(Escape([]) + ([QUOTE] + rest)) == Escape([]) + ([QUOTE] + Minified(rest))
  {
    assert [] + ([QUOTE] + rest) == [QUOTE] + rest;
    assert ([QUOTE] + rest)[1..] == rest;
  }

  lemma EscapeFirst(s: seq<byte>)
    requires s != []
    ensures Escape(s) == EscapeByte(s[0]) + Escape(s[1..])
  {
  }

  lemma EscapeStarts(s: seq<byte>)
    ensures if s == [] then Escape(s) == [] else Escape(s) != [] && Escape(s)[0] != QUOTE
  {
  }

  lemma LastBackslash(rest: seq<byte>)
    ensures Escape([BACKSLASH]) == [BACKSLASH, BACKSLASH]
    ensures InString([BACKSLASH, BACKSLASH] + ([QUOTE] + rest)) == [BACKSLASH, BACKSLASH] + ([QUOTE] + InString(rest))
  {
    assert Escape([]) == [];
    var s := [BACKSLASH, BACKSLASH] + ([QUOTE] + rest);
    assert s[1..][2..] == rest;
    assert InString(s[1..]) == [BACKSLASH, QUOTE] + InString(rest);
  }

  lemma OpeningQuote(body: seq<byte>)
    ensures Minified([QUOTE] + body) == [QUOTE] + InString(body)
  {
    assert ([QUOTE] + body)[1..] == body;
  }

  lemma StringMinified(s: seq<byte>, rest: seq<byte>)
    ensures Minified(StringText(s) + rest)
            == StringText(s) + if EndsInBackslash(s) then InString(rest) else Minified(rest)
  {
    hide Minified, InString, Escape;
    var body := Escape(s) + ([QUOTE] + rest);
    assert StringText(s) + rest == [QUOTE] + body;
    OpeningQuote(body);
    StringBody(s, rest);
    var after := if EndsInBackslash(s) then InString(rest) else Minified(rest);
    assert [QUOTE] + (Escape(s) + ([QUOTE] + after)) == StringText(s) + after;
  }

  // ----- values

  /** What minifying `v`'s pretty text in front of `rest` gives, in each of the three cases. */
  ghost predicate Outcome(x: seq<byte>, t: seq<byte>, clean: bool, harmless: bool, rest: seq<byte>) {
    if clean then x == t + Minified(rest)
    else if harmless then x == t + InString(rest)
    else Diverges(x, t)
  }

  lemma {:induction false} ScalarMinified(v: Json, d: nat, rest: seq<byte>)
    requires !v.Arr? && !v.Obj?
    ensures Outcome(Minified(Text(v, true, d) + rest), Text(v, false, d), Clean(v), Harmless(v), rest)
  {
    match v {
      case Str(s) => StringMinified(s, rest);
      case Num(n) =>
        DecimalSolid(n);
        SolidKept(Decimal(n), rest);
      case _ => SolidKept(Text(v, true, d), rest);
    }
  }

  lemma {:induction false} DigitsSolid(n: nat)
    ensures forall k :: 0 <= k < |Digits(n)| ==> Solid(Digits(n)[k])
  {
    if n >= 10 { DigitsSolid(n / 10); }
  }

  lemma DecimalSolid(n: int)
    ensures forall k :: 0 <= k < |Decimal(n)| ==> Solid(Decimal(n)[k])
  {
    DigitsSolid(if n < 0 then -n else n);
  }

  lemma {:induction false} ValueMinified(v: Json, d: nat, rest: seq<byte>)
    ensures Outcome(Minified(Text(v, true, d) + rest), Text(v, false, d), Clean(v), Harmless(v), rest)
    decreases v, 1
  {
    hide Minified, InString, Clean, Harmless, Text, Outcome;
    if v.Arr? {
      ItemsMinified(v.items, d + 1, [RBRACKET] + rest);
      ArrayMinified(v.items, d, rest);
    } else if v.Obj? {
      MembersMinified(v.members, d + 1, Tabs(d), rest);
      ObjectMinified(v.members, d, rest);
    } else {
      ScalarMinified(v, d, rest);
    }
  }

  lemma OneByte(b: byte, rest: seq<byte>)
    ensures Solid(b) ==> Minified([b] + rest) == [b] + Minified(rest)
    ensures b != QUOTE && b != BACKSLASH ==> InString([b] + rest) == [b] + InString(rest)
    ensures Layout(b) ==> Minified([b] + rest) == Minified(rest)
  {
    assert ([b] + rest)[1..] == rest;
  }

  ghost predicate AllClean(items: seq<Json>) { forall x :: x in items ==> Clean(x) }

  ghost predicate HarmlessList(items: seq<Json>) {
    AllClean(items) || (items != [] && AllClean(items[..|items| - 1]) && Harmless(items[|items| - 1]))
  }

  lemma ArrayMinified(items: seq<Json>, d: nat, rest: seq<byte>)
    requires Outcome(Minified(ItemsText(items, true, d + 1) + ([RBRACKET] + rest)), ItemsText(items, false, d + 1),
                     AllClean(items), HarmlessList(items), [RBRACKET] + rest)
    ensures Outcome(Minified(Text(Arr(items), true, d) + rest), Text(Arr(items), false, d),
                    Clean(Arr(items)), Harmless(Arr(items)), rest)
  {
    hide Minified, InString, ItemsText;
    var pretty, compact := ItemsText(items, true, d + 1), ItemsText(items, false, d + 1);
    var x := Minified(pretty + ([RBRACKET] + rest));
    assert Text(Arr(items), true, d) + rest == [LBRACKET] + (pretty + ([RBRACKET] + rest));
    OneByte(LBRACKET, pretty + ([RBRACKET] + rest));
    OneByte(RBRACKET, rest);
    assert Text(Arr(items), false, d) == [LBRACKET] + compact + [RBRACKET];
    if AllClean(items) {
      assert [LBRACKET] + (compact + ([RBRACKET] + Minified(rest))) == Text(Arr(items), false, d) + Minified(rest);
    } else if HarmlessList(items) {
      assert [LBRACKET] + (compact + ([RBRACKET] + InString(rest))) == Text(Arr(items), false, d) + InString(rest);
    } else {
      DivergesBehind([LBRACKET], x, compact, []);
      DivergesBehind([], [LBRACKET] + x, [LBRACKET] + compact, [RBRACKET]);
    }
  }

  lemma {:induction false} ItemsMinified(items: seq<Json>, d: nat, rest: seq<byte>)
    ensures Outcome(Minified(ItemsText(items, true, d) + rest), ItemsText(items, false, d),
                    AllClean(items), HarmlessList(items), rest)
    decreases items, 0
  {
    hide Minified, InString, Clean, Harmless, Text, Outcome, ItemsText, AllClean, HarmlessList;
    if items == [] {
      NoItemsMinified(d, rest);
    } else if |items| == 1 {
      ValueMinified(items[0], d, rest);
      OneItemMinified(items, d, rest);
    } else {
      ItemsMinified(items[1..], d, rest);
      ValueMinified(items[0], d, ItemSep(true) + (ItemsText(items[1..], true, d) + rest));
      MoreItemsMinified(items, d, rest);
    }
  }

  lemma NoItemsMinified(d: nat, rest: seq<byte>)
    ensures Outcome(Minified(ItemsText([], true, d) + rest), ItemsText([], false, d), AllClean([]), HarmlessList([]), rest)
  {
    assert [] + rest == rest;
    assert [] + Minified(rest) == Minified(rest);
  }

  lemma OneItemMinified(items: seq<Json>, d: nat, rest: seq<byte>)
    requires |items| == 1
    requires Outcome(Minified(Text(items[0], true, d) + rest), Text(items[0], false, d), Clean(items[0]), Harmless(items[0]), rest)
    ensures Outcome(Minified(ItemsText(items, true, d) + rest), ItemsText(items, false, d),
                    AllClean(items), HarmlessList(items), rest)
  {
    hide Minified, InString, Text, Clean, Harmless;
    assert items == [items[0]];
    assert items[..|items| - 1] == [];
    CleanIsHarmless(items[0]);
  }

  lemma CleanIsHarmless(v: Json)
    ensures Clean(v) ==> Harmless(v)
  {
  }

  lemma ListClasses(items: seq<Json>)
    requires |items| > 1
    ensures AllClean(items) <==> Clean(items[0]) && AllClean(items[1..])
    ensures HarmlessList(items) <==> Clean(items[0]) && HarmlessList(items[1..])
  {
    hide Clean, Harmless;
    var tail := items[1..];
    assert items == [items[0]] + tail;
    assert forall x :: x in items <==> x == items[0] || x in tail;
    var front := items[..|items| - 1];
    assert front == [items[0]] + tail[..|tail| - 1];
    assert forall x :: x in front <==> x == items[0] || x in tail[..|tail| - 1];
  }

  /** First byte of a printed value. */
  lemma TextStarts(v: Json, d: nat)
    ensures Text(v, false, d) != [] && Text(v, false, d)[0] > 32
  {
    if v.Num? {
      DigitsStart(if v.n < 0 then -v.n else v.n);
    }
  }

  lemma {:induction false} DigitsStart(n: nat)
    ensures Digits(n) != [] && Digits(n)[0] > 32
  {
    if n >= 10 { DigitsStart(n / 10); }
  }

  lemma MoreItemsMinified(items: seq<Json>, d: nat, rest: seq<byte>)
    requires |items| > 1
    requires Outcome(Minified(ItemsText(items[1..], true, d) + rest), ItemsText(items[1..], false, d),
                     AllClean(items[1..]), HarmlessList(items[1..]), rest)
    requires var more := ItemSep(true) + (ItemsText(items[1..], true, d) + rest);
             Outcome(Minified(Text(items[0], true, d) + more), Text(items[0], false, d), Clean(items[0]), Harmless(items[0]), more)
    ensures Outcome(Minified(ItemsText(items, true, d) + rest), ItemsText(items, false, d),
                    AllClean(items), HarmlessList(items), rest)
  {
    hide Minified, InString, Text, Clean, Harmless, AllClean, HarmlessList;
    var tail := ItemsText(items[1..], true, d) + rest;
    var more := ItemSep(true) + tail;
    var first, others := Text(items[0], false, d), ItemsText(items[1..], false, d);
    ListClasses(items);
    assert ItemsText(items, true, d) + rest == Text(items[0], true, d) + more;
    assert ItemsText(items, false, d) == first + ([COMMA] + others);
    assert more == [COMMA] + ([SPACE] + tail);
    OneByte(COMMA, [SPACE] + tail);
    OneByte(SPACE, tail);
    if Clean(items[0]) {
      var x := Minified(tail);
      if HarmlessList(items[1..]) {
        SplicedTail(first, others, Minified(rest), InString(rest));
        AllCleanIsHarmless(items[1..]);
      } else {
        AllCleanIsHarmless(items[1..]);
        DivergesBehind([COMMA], x, others, []);
        DivergesBehind(first, [COMMA] + x, [COMMA] + others, []);
      }
    } else if Harmless(items[0]) {
      OthersStart(items[1..], d);
      DivergesNow([SPACE] + InString(tail), others);
      DivergesBehind([COMMA], [SPACE] + InString(tail), others, []);
      DivergesBehind(first, [COMMA] + ([SPACE] + InString(tail)), [COMMA] + others, []);
    } else {
      DivergesBehind([], Minified(Text(items[0], true, d) + more), first, [COMMA] + others);
      assert [] + Minified(Text(items[0], true, d) + more) == Minified(Text(items[0], true, d) + more);
    }
  }

  lemma SplicedTail(first: seq<byte>, others: seq<byte>, a: seq<byte>, b: seq<byte>)
    ensures first + ([COMMA] + (others + a)) == first + ([COMMA] + others) + a
    ensures first + ([COMMA] + (others + b)) == first + ([COMMA] + others) + b
  {
  }

  lemma AllCleanIsHarmless(items: seq<Json>)
    ensures AllClean(items) ==> HarmlessList(items)
  {
  }

  lemma OthersStart(items: seq<Json>, d: nat)
    requires items != []
    ensures ItemsText(items, false, d) != [] && ItemsText(items, false, d)[0] > 32
  {
    hide Text;
    TextStarts(items[0], d);
  }

  // ----- objects: what follows the last member is the closing brace on a line of its own

  ghost predicate MembersClean(members: seq<Member>) {
    forall m :: m in members ==> !EndsInBackslash(m.key) && Clean(m.value)
  }

  ghost predicate Blanks(w: seq<byte>) { forall k :: 0 <= k < |w| ==> Layout(w[k]) }

  /** The pretty and the compact text from some member on to the brace. */
  function PrettyEnd(members: seq<Member>, d: nat, w: seq<byte>, rest: seq<byte>): seq<byte> {
    MembersText(members, true, d) + (w + ([RBRACE] + rest))
  }

  function CompactEnd(members: seq<Member>, d: nat): seq<byte> {
    MembersText(members, false, d) + [RBRACE]
  }

  lemma ObjectShape(members: seq<Member>, d: nat, rest: seq<byte>)
    ensures Text(Obj(members), true, d) + rest == [LBRACE] + ([NEWLINE] + PrettyEnd(members, d + 1, Tabs(d), rest))
    ensures Text(Obj(members), false, d) == [LBRACE] + CompactEnd(members, d + 1)
  {
    hide MembersText, Tabs;
  }

  lemma ObjectMinified(members: seq<Member>, d: nat, rest: seq<byte>)
    requires Outcome(Minified(PrettyEnd(members, d + 1, Tabs(d), rest)), CompactEnd(members, d + 1), MembersClean(members), false, rest)
    ensures Outcome(Minified(Text(Obj(members), true, d) + rest), Text(Obj(members), false, d),
                    Clean(Obj(members)), Harmless(Obj(members)), rest)
  {
    hide Minified, InString, MembersText, Tabs, Text, PrettyEnd, CompactEnd;
    var pretty, compact := PrettyEnd(members, d + 1, Tabs(d), rest), CompactEnd(members, d + 1);
    ObjectShape(members, d, rest);
    OneByte(LBRACE, [NEWLINE] + pretty);
    OneByte(NEWLINE, pretty);
    if MembersClean(members) {
      assert [LBRACE] + (compact + Minified(rest)) == [LBRACE] + compact + Minified(rest);
    } else {
      DivergesBehind([LBRACE], Minified(pretty), compact, []);
    }
  }

  /** What stands from the value of the first member on. */
  function PrettyValue(members: seq<Member>, d: nat, w: seq<byte>, rest: seq<byte>): seq<byte>
    requires members != []
  {
    Text(members[0].value, true, d) + (MemberSep(true, |members| > 1) + PrettyEnd(members[1..], d, w, rest))
  }

  function CompactValue(members: seq<Member>, d: nat): seq<byte>
    requires members != []
  {
    Text(members[0].value, false, d) + (MemberSep(false, |members| > 1) + CompactEnd(members[1..], d))
  }

  lemma EndsSplit(members: seq<Member>, d: nat, w: seq<byte>, rest: seq<byte>)
    requires members != []
    ensures var key := StringText(members[0].key);
            && PrettyEnd(members, d, w, rest) == Tabs(d) + (key + ([COLON] + ([TAB] + PrettyValue(members, d, w, rest))))
            && CompactEnd(members, d) == key + ([COLON] + CompactValue(members, d))
  {
    hide Text, StringText, MemberSep, Tabs;
    var key := StringText(members[0].key);
    var a, b := Text(members[0].value, true, d), MemberSep(true, |members| > 1);
    var more := MembersText(members[1..], true, d);
    assert MembersText(members, true, d) == Tabs(d) + (key + ([COLON] + ([TAB] + (a + (b + more)))));
    assert MembersText(members, false, d)
        == key + ([COLON] + (Text(members[0].value, false, d) + (MemberSep(false, |members| > 1) + MembersText(members[1..], false, d))));
  }

  /** From the separator behind the first value on. */
  lemma SeparatorMinified(members: seq<Member>, d: nat, w: seq<byte>, rest: seq<byte>)
    requires members != []
    ensures var sep, x := MemberSep(false, |members| > 1), PrettyEnd(members[1..], d, w, rest);
            && Minified(MemberSep(true, |members| > 1) + x) == sep + Minified(x)
            && Diverges(InString(MemberSep(true, |members| > 1) + x), sep + CompactEnd(members[1..], d))
  {
    hide Minified, InString, PrettyEnd;
    var x, t := PrettyEnd(members[1..], d, w, rest), CompactEnd(members[1..], d);
    OneByte(NEWLINE, x);
    EndStarts(members[1..], d);
    DivergesNow([NEWLINE] + InString(x), t);
    if |members| > 1 {
      OneByte(COMMA, [NEWLINE] + x);
      assert MemberSep(true, true) + x == [COMMA] + ([NEWLINE] + x);
      DivergesBehind([COMMA], [NEWLINE] + InString(x), t, []);
      assert MemberSep(false, true) == [COMMA];
    } else {
      assert MemberSep(true, false) + x == [NEWLINE] + x;
      assert MemberSep(false, false) + Minified(x) == Minified(x);
      assert MemberSep(false, false) + t == t;
    }
  }

  lemma EndStarts(members: seq<Member>, d: nat)
    ensures CompactEnd(members, d) != [] && CompactEnd(members, d)[0] > 32
  {
    if members != [] {
      EndsSplit(members, d, [], []);
    }
  }

  lemma MembersCleanSplit(members: seq<Member>)
    requires members != []
    ensures MembersClean(members)
            <==> !EndsInBackslash(members[0].key) && Clean(members[0].value) && MembersClean(members[1..])
  {
    assert members == [members[0]] + members[1..];
  }

  /** From the first value on, given what happens to the value and to what follows it. */
  lemma FromValue(members: seq<Member>, d: nat, w: seq<byte>, rest: seq<byte>)
    requires members != []
    requires var more := MemberSep(true, |members| > 1) + PrettyEnd(members[1..], d, w, rest);
             var v := members[0].value;
             Outcome(Minified(Text(v, true, d) + more), Text(v, false, d), Clean(v), Harmless(v), more)
    requires Outcome(Minified(PrettyEnd(members[1..], d, w, rest)), CompactEnd(members[1..], d), MembersClean(members[1..]), false, rest)
    ensures Outcome(Minified(PrettyValue(members, d, w, rest)), CompactValue(members, d),
                    Clean(members[0].value) && MembersClean(members[1..]), false, rest)
  {
    hide Minified, InString, PrettyEnd, CompactEnd, Text, Clean, Harmless, MembersClean, MemberSep;
    var v := members[0].value;
    var x, t := PrettyEnd(members[1..], d, w, rest), CompactEnd(members[1..], d);
    var more := MemberSep(true, |members| > 1) + x;
    var sep, value := MemberSep(false, |members| > 1), Text(v, false, d);
    SeparatorMinified(members, d, w, rest);
    CleanIsHarmless(v);
    if Clean(v) {
      if MembersClean(members[1..]) {
        assert value + (sep + (t + Minified(rest))) == value + (sep + t) + Minified(rest);
      } else {
        DivergesBehind(sep, Minified(x), t, []);
        DivergesBehind(value, sep + Minified(x), sep + t, []);
      }
    } else if Harmless(v) {
      DivergesBehind(value, InString(more), sep + t, []);
    } else {
      DivergesBehind([], Minified(Text(v, true, d) + more), value, sep + t);
    }
  }

  /** From the first key on. */
  lemma FromKey(members: seq<Member>, d: nat, w: seq<byte>, rest: seq<byte>)
    requires members != []
    requires Outcome(Minified(PrettyValue(members, d, w, rest)), CompactValue(members, d),
                     Clean(members[0].value) && MembersClean(members[1..]), false, rest)
    ensures Outcome(Minified(PrettyEnd(members, d, w, rest)), CompactEnd(members, d), MembersClean(members), false, rest)
  {
    hide Minified, InString, PrettyEnd, CompactEnd, Text, Clean, MembersClean, MemberSep, PrettyValue, CompactValue, StringText, Tabs;
    var key := StringText(members[0].key);
    var x, t := PrettyValue(members, d, w, rest), CompactValue(members, d);
    EndsSplit(members, d, w, rest);
    MembersCleanSplit(members);
    LayoutDropped(Tabs(d), key + ([COLON] + ([TAB] + x)));
    StringMinified(members[0].key, [COLON] + ([TAB] + x));
    OneByte(COLON, [TAB] + x);
    OneByte(TAB, x);
    if EndsInBackslash(members[0].key) {
      ValueStarts(members, d);
      DivergesNow([TAB] + InString(x), t);
      DivergesBehind([COLON], [TAB] + InString(x), t, []);
      DivergesBehind(key, [COLON] + ([TAB] + InString(x)), [COLON] + t, []);
    } else if MembersClean(members) {
      assert key + ([COLON] + (t + Minified(rest))) == key + ([COLON] + t) + Minified(rest);
    } else {
      DivergesBehind([COLON], Minified(x), t, []);
      DivergesBehind(key, [COLON] + Minified(x), [COLON] + t, []);
    }
  }

  lemma ValueStarts(members: seq<Member>, d: nat)
    requires members != []
    ensures CompactValue(members, d) != [] && CompactValue(members, d)[0] > 32
  {
    hide Text;
    TextStarts(members[0].value, d);
  }

  lemma {:induction false} MembersMinified(members: seq<Member>, d: nat, w: seq<byte>, rest: seq<byte>)
    requires Blanks(w)
    ensures Outcome(Minified(PrettyEnd(members, d, w, rest)), CompactEnd(members, d), MembersClean(members), false, rest)
    decreases members, 0
  {
    hide Minified, InString, PrettyEnd, CompactEnd, Text, Clean, Harmless, MembersClean, MemberSep, Outcome;
    if members == [] {
      NoMembersMinified(d, w, rest);
    } else {
      MembersMinified(members[1..], d, w, rest);
      ValueMinified(members[0].value, d, MemberSep(true, |members| > 1) + PrettyEnd(members[1..], d, w, rest));
      FromValue(members, d, w, rest);
      FromKey(members, d, w, rest);
    }
  }

  lemma NoMembersMinified(d: nat, w: seq<byte>, rest: seq<byte>)
    requires Blanks(w)
    ensures Outcome(Minified(PrettyEnd([], d, w, rest)), CompactEnd([], d), MembersClean([]), false, rest)
  {
    hide Minified;
    assert PrettyEnd([], d, w, rest) == w + ([RBRACE] + rest);
    LayoutDropped(w, [RBRACE] + rest);
    OneByte(RBRACE, rest);
    assert CompactEnd([], d) == [RBRACE];
  }

  // ----- the theorems

  /** Minifying the pretty text gives the compact text exactly when no string misleads minify_string. */
  lemma MinifyPretty(v: Json)
    ensures Minified(Pretty(v)) == Compact(v) <==> Harmless(v)
  {
    hide Text, Harmless, Clean, Minified;
    ValueMinified(v, 0, []);
    assert Pretty(v) + [] == Pretty(v);
    CleanIsHarmless(v);
    NothingLeft();
    if !Harmless(v) {
      var k: nat :| DivergesAt(Minified(Pretty(v)), Compact(v), k);
    } else {
      assert Compact(v) + [] == Compact(v);
    }
  }

  lemma NothingLeft()
    ensures Minified([]) == [] && InString([]) == []
  {
  }

  /** The smallest misleading tree: the array of the string of one backslash, and another element. */
  lemma BackslashMisleads()
    ensures var v := Arr([Str([BACKSLASH]), Null]);
            Minified(Pretty(v)) != Compact(v) && Fits(v, 1)
  {
    var v := Arr([Str([BACKSLASH]), Null]);
    assert v.items[..1] == [Str([BACKSLASH])];
    assert v.items[0] in v.items && !Clean(v.items[0]) && v.items[0] in v.items[..1];
    assert !Clean(v);
    assert !Harmless(v);
    MinifyPretty(v);
  }

  // ----- in place

  /** What is still to be read at `r` is untouched by what was written below `w`. */
  ghost predicate Unread(json: array<byte>, s: seq<byte>, r: nat, w: nat)
    reads json
  {
    && w <= r <= |s| < json.Length
    && NulFree(s)
    && json[|s|] == NUL
    && forall k :: r <= k < |s| ==> json[k] == s[k]
  }

  /** skip_oneline_comment, from behind the two slashes. */
  method SkipLine(json: array<byte>, ghost s: seq<byte>, r0: nat, ghost w: nat) returns (r: nat)
    requires Unread(json, s, r0, w)
    ensures r0 <= r <= |s| && AfterLine(s[r0..]) == s[r..]
  {
    hide AfterLine;
    r := r0;
    while json[r] != NUL
      invariant r0 <= r <= |s| && AfterLine(s[r0..]) == AfterLine(s[r..])
      decreases |s| - r
    {
      LineStep(s, r);
      if json[r] == NEWLINE {
        return r + 1;
      }
      r := r + 1;
    }
    LineStep(s, r);
  }

  lemma LineStep(s: seq<byte>, r: nat)
    requires r <= |s|
    ensures r == |s| ==> AfterLine(s[r..]) == s[r..]
    ensures r < |s| ==> AfterLine(s[r..]) == if s[r] == NEWLINE then s[r + 1..] else AfterLine(s[r + 1..])
  {
    if r < |s| { assert s[r..][1..] == s[r + 1..]; }
  }

  /** skip_multiline_comment, from behind the opening. */
  method SkipComment(json: array<byte>, ghost s: seq<byte>, r0: nat, ghost w: nat) returns (r: nat)
    requires Unread(json, s, r0, w)
    ensures r0 <= r <= |s| && AfterComment(s[r0..]) == s[r..]
  {
    hide AfterComment;
    r := r0;
    while json[r] != NUL
      invariant r0 <= r <= |s| && AfterComment(s[r0..]) == AfterComment(s[r..])
      decreases |s| - r
    {
      CommentStep(s, r);
      if json[r] == STAR && json[r + 1] == SLASH {
        return r + 2;
      }
      r := r + 1;
    }
    CommentStep(s, r);
  }

  lemma CommentStep(s: seq<byte>, r: nat)
    requires r <= |s|
    ensures r == |s| ==> AfterComment(s[r..]) == s[r..]
    ensures r < |s| ==> AfterComment(s[r..]) == if s[r] == STAR && r + 1 < |s| && s[r + 1] == SLASH then s[r + 2..] else AfterComment(s[r + 1..])
  {
    if r < |s| { assert s[r..][1..] == s[r + 1..]; }
    if r + 1 < |s| { assert s[r..][2..] == s[r + 2..]; }
  }

  lemma InStringStep(s: seq<byte>, r: nat)
    requires r <= |s|
    ensures r == |s| ==> InString(s[r..]) == []
    ensures r < |s| ==>
              (InString(s[r..]) ==
               if s[r] == QUOTE then [QUOTE] + Minified(s[r + 1..])
               else if s[r] == BACKSLASH && r + 1 < |s| && s[r + 1] == QUOTE then [BACKSLASH, QUOTE] + InString(s[r + 2..])
               else [s[r]] + InString(s[r + 1..]))
  {
    if r < |s| { assert s[r..][1..] == s[r + 1..]; }
    if r + 1 < |s| { assert s[r..][2..] == s[r + 2..]; }
  }

  lemma MinifiedStep(s: seq<byte>, r: nat)
    requires r <= |s|
    ensures r == |s| ==> Minified(s[r..]) == []
    ensures r < |s| && Layout(s[r]) ==> Minified(s[r..]) == Minified(s[r + 1..])
    ensures r < |s| && s[r] == SLASH ==>
              Minified(s[r..]) == Minified(if r + 1 < |s| && s[r + 1] == SLASH then AfterLine(s[r + 2..])
                                           else if r + 1 < |s| && s[r + 1] == STAR then AfterComment(s[r + 2..])
                                           else s[r + 1..])
    ensures r < |s| && s[r] == QUOTE ==> Minified(s[r..]) == [QUOTE] + InString(s[r + 1..])
    ensures r < |s| && Solid(s[r]) ==> Minified(s[r..]) == [s[r]] + Minified(s[r + 1..])
  {
    if r < |s| { assert s[r..][1..] == s[r + 1..]; }
    if r + 1 < |s| { assert s[r..][2..] == s[r + 2..]; }
  }

  /** `out` has been written from `w0` on, and `later` is what the rest gives: one more piece is written. */
  lemma Joins(out: seq<byte>, now: seq<byte>, later: seq<byte>)
    ensures out + now + later == out + (now + later)
    ensures [] + later == later && later + [] == later
  {
  }

  /** into[0] = json[0], with both indices moving on. */
  method CopyByte(json: array<byte>, ghost s: seq<byte>, r: nat, w: nat)
    requires Unread(json, s, r, w) && r < |s|
    modifies json
    ensures Unread(json, s, r + 1, w + 1)
    ensures json[w] == s[r]
    ensures forall k :: 0 <= k < json.Length && k != w ==> json[k] == old(json[k])
  {
    json[w] := json[r];
  }

  /** minify_string, from behind the opening quote both indices have passed. */
  method MinifyString(json: array<byte>, ghost s: seq<byte>, r0: nat, w0: nat) returns (r: nat, w: nat, ghost out: seq<byte>)
    requires Unread(json, s, r0, w0)
    modifies json
    ensures Unread(json, s, r, w) && r0 <= r <= |s| && w == w0 + |out|
    ensures InString(s[r0..]) == out + Minified(s[r..])
    ensures forall k :: w0 <= k < w ==> json[k] == out[k - w0]
    ensures forall k :: 0 <= k < json.Length && (k < w0 || |s| <= k) ==> json[k] == old(json[k])
  {
    hide InString, Minified, NulFree, Unread;
    UnreadBounds(json, s, r0, w0);
    r, w, out := r0, w0, [];
    Joins([], [], InString(s[r..]));
    while json[r] != NUL
      invariant Unread(json, s, r, w) && r0 <= r <= |s| < json.Length && w == w0 + |out|
      invariant InString(s[r0..]) == out + InString(s[r..])
      invariant forall k :: w0 <= k < w ==> json[k] == out[k - w0]
      invariant forall k :: 0 <= k < json.Length && (k < w0 || |s| <= k) ==> json[k] == old(json[k])
      decreases |s| - r
    {
      UnreadHere(json, s, r, w);
      ghost var piece;
      if json[r] == QUOTE {
        InStringStep(s, r);
        CopyByte(json, s, r, w);
        Joins(out, [QUOTE], Minified(s[r + 1..]));
        r, w, out := r + 1, w + 1, out + [QUOTE];
        return;
      }
      r, w, piece := CopyInside(json, s, r, w);
      Joins(out, piece, InString(s[r..]));
      out := out + piece;
    }
    AtNul(json, s, r, w);
    InStringStep(s, r);
    MinifiedStep(s, r);
  }

  /** One turn inside a string: an escaped quote as a pair, any other byte alone. */
  method CopyInside(json: array<byte>, ghost s: seq<byte>, r0: nat, w0: nat) returns (r: nat, w: nat, ghost piece: seq<byte>)
    requires Unread(json, s, r0, w0) && json[r0] != NUL && json[r0] != QUOTE
    modifies json
    ensures Unread(json, s, r, w) && r0 < r <= |s| && w == w0 + |piece| && InString(s[r0..]) == piece + InString(s[r..])
    ensures forall k :: w0 <= k < w ==> json[k] == piece[k - w0]
    ensures forall k :: 0 <= k < json.Length && (k < w0 || |s| <= k) ==> json[k] == old(json[k])
  {
    hide InString, Unread;
    UnreadHere(json, s, r0, w0);
    InStringStep(s, r0);
    var pair := json[r0] == BACKSLASH && json[r0 + 1] == QUOTE;
    CopyByte(json, s, r0, w0);
    r, w, piece := r0 + 1, w0 + 1, [s[r0]];
    if pair {
      CopyByte(json, s, r, w);
      r, w, piece := r + 1, w + 1, [BACKSLASH, QUOTE];
    }
  }

  lemma UnreadBounds(json: array<byte>, s: seq<byte>, r: nat, w: nat)
    requires Unread(json, s, r, w)
    ensures w <= r <= |s| < json.Length
  {
  }

  lemma UnreadHere(json: array<byte>, s: seq<byte>, r: nat, w: nat)
    requires Unread(json, s, r, w) && json[r] != NUL
    ensures w <= r < |s| < json.Length && json[r] == s[r]
    ensures json[r + 1] == if r + 1 < |s| then s[r + 1] else NUL
    ensures json[r + 1] != NUL ==> r + 1 < |s|
  {
  }

  lemma UnreadOn(json: array<byte>, s: seq<byte>, r: nat, w: nat, later: nat)
    requires Unread(json, s, r, w) && r <= later <= |s|
    ensures Unread(json, s, later, w)
  {
  }

  lemma AtNul(json: array<byte>, s: seq<byte>, r: nat, w: nat)
    requires Unread(json, s, r, w) && json[r] == NUL
    ensures r == |s|
  {
  }

  /** The slash case of cJSON_Minify: a comment is skipped, or the slash alone. */
  method SkipSlash(json: array<byte>, ghost s: seq<byte>, r0: nat, ghost w: nat) returns (r: nat)
    requires Unread(json, s, r0, w) && json[r0] == SLASH
    ensures Unread(json, s, r, w) && r0 < r <= |s| && Minified(s[r0..]) == Minified(s[r..])
  {
    hide Minified, AfterLine, AfterComment, Unread;
    UnreadHere(json, s, r0, w);
    MinifiedStep(s, r0);
    if json[r0 + 1] == SLASH {
      UnreadOn(json, s, r0, w, r0 + 2);
      r := SkipLine(json, s, r0 + 2, w);
    } else if json[r0 + 1] == STAR {
      UnreadOn(json, s, r0, w, r0 + 2);
      r := SkipComment(json, s, r0 + 2, w);
    } else {
      r := r0 + 1;
    }
    UnreadOn(json, s, r0, w, r);
  }

  /** The copying cases of cJSON_Minify: a string, or any other byte that is not layout. */
  method CopyToken(json: array<byte>, ghost s: seq<byte>, r0: nat, w0: nat) returns (r: nat, w: nat, ghost piece: seq<byte>)
    requires Unread(json, s, r0, w0) && json[r0] != NUL && json[r0] != SLASH && !Layout(json[r0])
    modifies json
    ensures Unread(json, s, r, w) && r0 < r <= |s| && w == w0 + |piece| && Minified(s[r0..]) == piece + Minified(s[r..])
    ensures forall k :: w0 <= k < w ==> json[k] == piece[k - w0]
    ensures forall k :: 0 <= k < json.Length && (k < w0 || |s| <= k) ==> json[k] == old(json[k])
  {
    hide InString, Minified, Unread;
    UnreadHere(json, s, r0, w0);
    MinifiedStep(s, r0);
    var opening := json[r0] == QUOTE;
    CopyByte(json, s, r0, w0);
    r, w, piece := r0 + 1, w0 + 1, [s[r0]];
    if opening {
      ghost var body;
      r, w, body := MinifyString(json, s, r, w);
      Joins([QUOTE], body, Minified(s[r..]));
      piece := [QUOTE] + body;
    }
  }

  /** cJSON_Minify on the C string `s` at the start of `json`: the write index never passes the read index. */
  method Minify(json: array<byte>, ghost s: seq<byte>)
    requires |s| < json.Length && json[..|s|] == s && json[|s|] == NUL && NulFree(s)
    modifies json
    ensures CStr(json[..]) == Minified(s)
    ensures forall k :: |s| < k < json.Length ==> json[k] == old(json[k])
  {
    hide InString, Minified, NulFree;
    var r: nat, w: nat := 0, 0;
    ghost var out: seq<byte> := [];
    assert s[0..] == s;
    Joins([], [], Minified(s));
    assert forall k :: 0 <= k < |s| ==> json[k] == json[..|s|][k];
    while json[r] != NUL
      invariant Unread(json, s, r, w) && w == |out|
      invariant Minified(s) == out + Minified(s[r..])
      invariant forall k :: 0 <= k < w ==> json[k] == out[k]
      invariant forall k :: |s| <= k < json.Length ==> json[k] == old(json[k])
      decreases |s| - r
    {
      hide Unread;
      UnreadHere(json, s, r, w);
      if Layout(json[r]) {
        MinifiedStep(s, r);
        UnreadOn(json, s, r, w, r + 1);
        r := r + 1;
      } else if json[r] == SLASH {
        r := SkipSlash(json, s, r, w);
      } else {
        ghost var piece;
        r, w, piece := CopyToken(json, s, r, w);
        Joins(out, piece, Minified(s[r..]));
        out := out + piece;
      }
    }
    AtNul(json, s, r, w);
    MinifiedStep(s, r);
    Joins([], [], out);
    json[w] := NUL;
    MinifiedNulFree(s);
    assert json[..][..w] == out;
    TextIsCStr(json[..], out);
  }

  lemma {:induction false} MinifiedNulFree(s: seq<byte>)
    requires NulFree(s)
    ensures NulFree(Minified(s))
    decreases |s|
  {
    if s == [] {
    } else if Layout(s[0]) {
      MinifiedNulFree(s[1..]);
    } else if s[0] == SLASH {
      MinifiedNulFree(if |s| > 1 && s[1] == SLASH then AfterLine(s[2..])
                      else if |s| > 1 && s[1] == STAR then AfterComment(s[2..])
                      else s[1..]);
    } else if s[0] == QUOTE {
      InStringNulFree(s[1..]);
    } else {
      MinifiedNulFree(s[1..]);
    }
  }

  lemma {:induction false} InStringNulFree(s: seq<byte>)
    requires NulFree(s)
    ensures NulFree(InString(s))
    decreases |s|
  {
    if s == [] {
    } else if s[0] == QUOTE {
      MinifiedNulFree(s[1..]);
    } else if s[0] == BACKSLASH && |s| > 1 && s[1] == QUOTE {
      InStringNulFree(s[2..]);
    } else {
      InStringNulFree(s[1..]);
    }
  }
}
