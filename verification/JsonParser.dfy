/**
 * The cJSON parser over its buffer. Every method leaves `offset` and `depth` where the source does,
 * and answers what the functions of JsonGrammar say; every access is inside the buffer.
 */
module JsonParser {
  import opened Bytes
  import opened JsonText
  import opened JsonGrammar
  import opened Numerals

  // ----- the two passes of parse_string

  /** The first pass started at `start` takes position `q` for the backslash of an escape. */
  ghost predicate EscapeAt(c: seq<byte>, start: nat, q: int)
    requires q < |c|
    decreases q
  {
    start <= q && c[q] == BACKSLASH && !EscapeAt(c, start, q - 1)
  }

  /** Positions of start..p the first pass does not skip: what it reserves for the bytes up to p. */
  ghost function Reserved(c: seq<byte>, start: nat, p: nat): (n: nat)
    requires start <= p <= |c|
    ensures n <= p - start
    decreases p
  {
    if p == start then 0
    else Reserved(c, start, p - 1) + if EscapeAt(c, start, p - 1) then 0 else 1
  }

  /** Of two neighbouring positions the first pass skips at most one, whichever pass starts there. */
  lemma {:induction false} ReservedPairs(c: seq<byte>, start: nat, p: nat, pairs: nat)
    requires start <= p && p + 2 * pairs <= |c|
    ensures Reserved(c, start, p) + pairs <= Reserved(c, start, p + 2 * pairs)
    decreases pairs
  {
    if pairs > 0 {
      ReservedPairs(c, start, p, pairs - 1);
    }
  }

  lemma ReservedGrows(c: seq<byte>, start: nat, p: nat, e: nat)
    requires start <= p <= e <= |c|
    ensures Reserved(c, start, p) <= Reserved(c, start, e)
    decreases e
  {
  }

  /** The closing quote the first pass finds is never behind an escape's backslash. */
  lemma {:induction false} QuoteNotEscaped(c: seq<byte>, start: nat, i: nat)
    requires start <= i <= |c| && (i > start ==> !EscapeAt(c, start, i - 1))
    ensures var e := FindEnd(c, i); e > start && e < |c| ==> !EscapeAt(c, start, e - 1)
    decreases |c| - i
  {
    if i < |c| && c[i] != QUOTE {
      if c[i] != BACKSLASH {
        QuoteNotEscaped(c, start, i + 1);
      } else if i + 1 < |c| {
        assert EscapeAt(c, start, i);
        QuoteNotEscaped(c, start, i + 2);
      }
    }
  }

  /** One turn of the second pass writes no more than the first pass reserved for what it consumes. */
  lemma TurnFits(c: seq<byte>, start: nat, p: nat, e: nat, taken: nat, wrote: nat)
    requires start <= p < e < |c| && !EscapeAt(c, start, e - 1)
    requires
      || (taken == 1 && wrote == 1 && c[p] != BACKSLASH)
      || (taken == 2 && wrote == 1)
      || (taken in {6, 12} && 2 * wrote <= taken && p + taken <= e)
    ensures p + taken <= e + 1
    ensures Reserved(c, start, p) + wrote <= Reserved(c, start, if p + taken <= e then p + taken else e)
    ensures Reserved(c, start, p) + wrote <= Reserved(c, start, e)
  {
    hide EscapeAt;
    if taken == 1 {
      assert !EscapeAt(c, start, p) by { NoBackslash(c, start, p); }
    } else if p + taken <= e {
      ReservedPairs(c, start, p, taken / 2);
    }
    ReservedGrows(c, start, if p + taken <= e then p + taken else e, e);
  }

  lemma NoBackslash(c: seq<byte>, start: nat, p: nat)
    requires p < |c| && c[p] != BACKSLASH
    ensures !EscapeAt(c, start, p)
  {
  }

  /**
   * The second pass fits what the first pass reserved from wherever it stands, also when a \u without
   * hexadecimal digits has made the two passes disagree about where escapes start.
   */
  lemma {:induction false} SecondPassFits(c: seq<byte>, start: nat, p: nat, e: nat)
    requires start <= p <= e + 1 && e < |c|
    requires e > start ==> !EscapeAt(c, start, e - 1)
    requires Decode(c, p, e).Some?
    ensures p <= e ==> Reserved(c, start, p) + |Decode(c, p, e).value| <= Reserved(c, start, e)
    ensures p > e ==> Decode(c, p, e).value == []
    decreases e + 1 - p
  {
    hide EscapeAt, Reserved, Utf16Literal, Utf8, Unescape;
    if p < e {
      if c[p] != BACKSLASH {
        TurnFits(c, start, p, e, 1, 1);
        SecondPassFits(c, start, p + 1, e);
      } else if c[p + 1] == LOWER_U {
        var l := Utf16Literal(c, p, e);
        TurnFits(c, start, p, e, l.length, |Utf8(l.cp)|);
        SecondPassFits(c, start, p + l.length, e);
      } else {
        TurnFits(c, start, p, e, 2, 1);
        SecondPassFits(c, start, p + 2, e);
      }
    }
  }

  /** The output of parse_string with its NUL is smaller than the allocation. */
  lemma OutputFitsAllocation(c: seq<byte>, i: nat)
    requires i < |c| && FindEnd(c, i + 1) < |c| && Decode(c, i + 1, FindEnd(c, i + 1)).Some?
    ensures var e := FindEnd(c, i + 1);
            |Decode(c, i + 1, e).value| + 1 < Allocation(c, i, e)
  {
    QuoteNotEscaped(c, i + 1, i + 1);
    SecondPassFits(c, i + 1, i + 1, FindEnd(c, i + 1));
  }

  /** The second pass reads nothing behind the closing quote: what lies there does not change its answer. */
  lemma {:induction false} SecondPassStays(c: seq<byte>, d: seq<byte>, p: nat, e: nat)
    requires p <= e + 1 && e < |c| && e < |d|
    requires forall q :: p <= q <= e ==> c[q] == d[q]
    ensures Decode(c, p, e) == Decode(d, p, e)
    decreases e + 1 - p
  {
    hide Utf8, Unescape, Combine;
    if p < e {
      if c[p] != BACKSLASH {
        SecondPassStays(c, d, p + 1, e);
      } else if c[p + 1] == LOWER_U {
        var l := Utf16Literal(c, p, e);
        assert l == Utf16Literal(d, p, e);
        if l.length > 0 {
          SecondPassStays(c, d, p + l.length, e);
        }
      } else {
        SecondPassStays(c, d, p + 2, e);
      }
    }
  }

  /** allocation_length + sizeof(""), with one byte skipped for every escape of the first pass. */
  ghost function Allocation(c: seq<byte>, i: nat, e: nat): nat
    requires i < e <= |c|
  {
    e - i - (e - (i + 1) - Reserved(c, i + 1, e)) + 1
  }

  // ----- the bit masks of the source, written as arithmetic in JsonGrammar

  lemma ContinuationMask(x: bv32)
    ensures ((x | 0x80) & 0xBF) == x % 64 + 0x80
  {
  }

  lemma SurrogateMask(h: bv32, l: bv32)
    requires 0xD800 <= h <= 0xDBFF && 0xDC00 <= l <= 0xDFFF
    ensures 0x10000 + (((h & 0x3FF) << 10) | (l & 0x3FF)) == 0x10000 + (h % 0x400) * 0x400 + l % 0x400
  {
  }

  /** A code point after `k` shifts by six bits. */
  function Shifted(cp: nat, k: nat): nat {
    if k == 0 then cp else Shifted(cp, k - 1) / 64
  }

  function FirstMark(length: nat): byte {
    if length == 2 then 0xC0 else if length == 3 then 0xE0 else if length == 4 then 0xF0 else 0
  }

  lemma Utf8Bytes(cp: nat)
    requires cp <= 0x10FFFF
    ensures var u := Utf8(cp);
            && u[0] == Shifted(cp, |u| - 1) + FirstMark(|u|)
            && forall j :: 0 < j < |u| ==> u[j] == Shifted(cp, |u| - 1 - j) % 64 + 0x80
  {
    assert Shifted(cp, 1) == cp / 64;
    assert Shifted(cp, 2) == cp / 64 / 64 == cp / 4096;
    assert Shifted(cp, 3) == cp / 64 / 64 / 64 == cp / 262144;
  }

  /** The writing loop of utf16_literal_to_utf8: continuation bytes from the last, then the first byte. */
  method WriteUtf8(output: array<byte>, at: nat, cp: nat) returns (length: nat)
    requires cp <= 0x10FFFF && at + |Utf8(cp)| <= output.Length
    modifies output
    ensures length == |Utf8(cp)|
    ensures forall q :: at <= q < at + length ==> output[q] == Utf8(cp)[q - at]
    ensures forall q :: 0 <= q < at ==> output[q] == old(output[q])
  {
    length := Utf8Length(cp);
    hide Utf8, Shifted, FirstMark;
    Utf8Bytes(cp);
    ShiftStart(cp);
    var rest := cp;
    var k := length - 1;
    while k > 0
      invariant 0 <= k < length
      invariant rest == Shifted(cp, length - 1 - k)
      invariant forall q :: at + k < q < at + length ==> output[q] == Utf8(cp)[q - at]
      invariant forall q :: 0 <= q < at ==> output[q] == old(output[q])
    {
      output[at + k] := rest % 64 + 0x80;
      ShiftNext(cp, length - 1 - k);
      rest := rest / 64;
      k := k - 1;
    }
    output[at] := rest + FirstMark(length);
  }

  function Utf8Length(cp: nat): (n: nat)
    requires cp <= 0x10FFFF
    ensures n == |Utf8(cp)|
  {
    if cp < 0x80 then 1 else if cp < 0x800 then 2 else if cp < 0x10000 then 3 else 4
  }

  lemma ShiftStart(cp: nat)
    ensures Shifted(cp, 0) == cp
  {
  }

  lemma ShiftNext(cp: nat, k: nat)
    ensures Shifted(cp, k + 1) == Shifted(cp, k) / 64
  {
  }

  lemma ConsNone(xs: seq<byte>)
    ensures Cons(xs, None) == None
  {
  }

  lemma ConsSome(xs: seq<byte>)
    ensures Cons(xs, Some([])) == Some(xs)
  {
    assert xs + [] == xs;
  }

  class ParseBuffer {
    const content: seq<byte>
    var offset: nat
    var depth: nat

    ghost predicate Valid()
      reads this
    {
      Terminated(content) && offset < |content|
    }

    constructor (text: seq<byte>)
      ensures Valid() && content == text + [NUL] && offset == 0 && depth == 0
    {
      content := text + [NUL];
      offset := 0;
      depth := 0;
    }

    method SkipWhitespace()
      requires Valid()
      modifies this`offset
      ensures offset == Skip(content, old(offset))
    {
      while offset < |content| && content[offset] <= 32
        invariant offset <= |content|
        invariant offset < |content| ==> Skip(content, offset) == Skip(content, old(offset))
        invariant offset == |content| ==> Skip(content, old(offset)) == offset - 1
        decreases |content| - offset
      {
        offset := offset + 1;
      }
      if offset == |content| {
        offset := offset - 1;
      }
    }

    /** First pass of parse_string: the closing quote and the number of escapes before it. */
    method FirstPass() returns (found: bool, end: nat, skipped: nat)
      requires Valid() && content[offset] == QUOTE
      ensures found <==> FindEnd(content, offset + 1) < |content|
      ensures found ==> end == FindEnd(content, offset + 1) && skipped <= end - offset
      ensures found ==> end - offset - skipped + 1 == Allocation(content, offset, end)
    {
      var start := offset + 1;
      end, skipped := start, 0;
      while end < |content| && content[end] != QUOTE
        invariant start <= end <= |content|
        invariant FindEnd(content, end) == FindEnd(content, start)
        invariant end > start ==> !EscapeAt(content, start, end - 1)
        invariant Reserved(content, start, end) + skipped == end - start
      {
        if content[end] == BACKSLASH {
          if end + 1 >= |content| {
            return false, end, skipped;
          }
          assert EscapeAt(content, start, end);
          skipped := skipped + 1;
          end := end + 1;
        }
        end := end + 1;
      }
      found := end < |content|;
    }

    /** Second pass of parse_string: decodes start..end into `output`, which the first pass sized. */
    method SecondPass(start: nat, end: nat, output: array<byte>) returns (ok: bool, n: nat)
      requires start <= end < |content| && FindEnd(content, start) == end
      requires Reserved(content, start, end) + 2 == output.Length
      modifies output
      ensures ok <==> Decode(content, start, end).Some?
      ensures ok ==> n < output.Length && output[n] == NUL && Decode(content, start, end) == Some(output[..n])
    {
      hide FindEnd, EscapeAt, Reserved, Utf16Literal, Utf8, Unescape, Cons, Shifted, FirstMark;
      QuoteNotEscaped(content, start, start);
      var p := start;
      n := 0;
      ConsLaws(output[..0], [], Decode(content, start, end));
      while p < end
        invariant start <= p <= end + 1
        invariant n <= Reserved(content, start, if p <= end then p else end)
        invariant n <= Reserved(content, start, end)
        invariant Decode(content, start, end) == Cons(output[..n], Decode(content, p, end))
        decreases end + 1 - p
      {
        ghost var written := output[..n];
        var taken, bytes := 0, [];
        if content[p] != BACKSLASH {
          taken, bytes := 1, [content[p]];
          TurnFits(content, start, p, end, taken, 1);
          output[n] := content[p];
        } else if content[p + 1] == LOWER_U {
          var l := Utf16Literal(content, p, end);
          if l.length == 0 {
            ConsNone(written);
            return false, n;
          }
          taken, bytes := l.length, Utf8(l.cp);
          TurnFits(content, start, p, end, taken, |bytes|);
          var k := WriteUtf8(output, n, l.cp);
        } else {
          var u := Unescape(content[p + 1]);
          if u == None {
            ConsNone(written);
            return false, n;
          }
          taken, bytes := 2, [u.value];
          TurnFits(content, start, p, end, taken, 1);
          output[n] := u.value;
        }
        assert output[..n + |bytes|] == written + bytes;
        ConsLaws(written, bytes, Decode(content, p + taken, end));
        n := n + |bytes|;
        p := p + taken;
      }
      output[n] := NUL;
      ok := true;
      ConsSome(output[..n]);
    }

    /** parse_string: the C string of the literal at the offset. */
    method ParseStringLiteral() returns (r: Parsed<seq<byte>>)
      requires Valid()
      modifies this`offset
      ensures r == ParseString(content, old(offset))
      ensures r.Ok? ==> offset == r.rest && Valid()
    {
      if content[offset] != QUOTE {
        return Fail;
      }
      var found, end, skipped := FirstPass();
      if !found {
        return Fail;
      }
      var output := new byte[end - offset - skipped + 1];
      var ok, n := SecondPass(offset + 1, end, output);
      if !ok {
        return Fail;
      }
      offset := end + 1;
      CStrPrefix(output[..], n);
      return Ok(CStr(output[..]), offset);
    }

    /** parse_number: copy the token, convert it, move past what was converted. */
    method ParseNumberToken() returns (r: Parsed<Json>)
      requires Valid() && (IsDigit(content[offset]) || content[offset] == MINUS)
      modifies this`offset
      ensures r == ParseNumber(content, old(offset))
      ensures r.Ok? ==> offset == r.rest && Valid()
      ensures r.Ok? ==> r.value.Num? && Writes(content[old(offset)..offset], r.value.n)
    {
      hide Writes;
      if ParseNumber(content, offset).Ok? {
        NumberReads(content, offset);
      }
      var i := 0;
      while i < NUMBER_BUFFER && offset + i < |content| && NumberByte(content[offset + i])
        invariant offset + i <= |content| && i <= NUMBER_BUFFER
        invariant NumberEnd(content, offset, NUMBER_BUFFER) == NumberEnd(content, offset + i, NUMBER_BUFFER - i)
      {
        i := i + 1;
      }
      match Strtod(content[offset..offset + i]) {
        case Nothing => r := Fail;
        case Inexact => r := Beyond;
        case Exactly(n) =>
          offset := offset + i;
          r := Ok(Num(n), offset);
      }
    }

    /** parse_value. */
    method ParseItem() returns (r: Parsed<Json>)
      requires Valid()
      modifies this
      ensures r == ParseValue(content, old(offset), old(depth))
      ensures r.Ok? ==> offset == r.rest && depth == old(depth) && Valid()
      decreases |content| - offset, 3
    {
      hide At, FindEnd, Decode, Skip, NumberEnd, ParseItems, ParseMembers;
      if At(content, offset, NULL_TEXT) {
        AtByte(content, offset, NULL_TEXT, 3);
        offset := offset + 4;
        return Ok(Null, offset);
      }
      if At(content, offset, FALSE_TEXT) {
        AtByte(content, offset, FALSE_TEXT, 4);
        offset := offset + 5;
        return Ok(False, offset);
      }
      if At(content, offset, TRUE_TEXT) {
        AtByte(content, offset, TRUE_TEXT, 3);
        offset := offset + 4;
        return Ok(True, offset);
      }
      if content[offset] == QUOTE {
        var s := ParseStringLiteral();
        return if s.Ok? then Ok(Str(s.value), s.rest) else Fail;
      }
      if content[offset] == MINUS || IsDigit(content[offset]) {
        r := ParseNumberToken();
        return;
      }
      if content[offset] == LBRACKET {
        r := ParseArray();
        return;
      }
      if content[offset] == LBRACE {
        r := ParseObject();
        return;
      }
      return Fail;
    }

    /** The do-while of parse_array, from the byte in front of the first element; stops at the bracket. */
    method ParseElements() returns (r: Parsed<seq<Json>>)
      requires Valid() && offset + 1 < |content|
      modifies this
      ensures r == ParseItems(content, old(offset) + 1, old(depth))
      ensures r.Ok? ==> offset + 1 == r.rest && depth == old(depth) && Valid()
      decreases |content| - offset, 0
    {
      hide Skip, ParseString, ParseValue, ParseItems, Prepend, PrependAll;
      ghost var all := ParseItems(content, offset + 1, depth);
      var items: seq<Json> := [];
      var more := true;
      PrependNone(all);
      while more
        invariant Valid() && old(offset) <= offset && depth == old(depth)
        invariant more ==> offset + 1 < |content|
        invariant more ==> all == PrependAll(items, ParseItems(content, offset + 1, depth))
        invariant !more ==> all == if content[offset] == RBRACKET then Ok(items, offset + 1) else Fail
        decreases |content| - offset
      {
        ItemsTurn(content, offset + 1, depth, items);
        offset := offset + 1;
        SkipWhitespace();
        var v := ParseItem();
        if !v.Ok? {
          return if v.Fail? then Fail else Beyond;
        }
        SkipWhitespace();
        items := items + [v.value];
        more := content[offset] == COMMA;
      }
      r := if content[offset] == RBRACKET then Ok(items, offset + 1) else Fail;
    }

    /** parse_array: the children in the order the sibling chain gets them. */
    method ParseArray() returns (r: Parsed<Json>)
      requires Valid() && content[offset] == LBRACKET
      modifies this
      ensures r == ParseValue(content, old(offset), old(depth))
      ensures r.Ok? ==> offset == r.rest && depth == old(depth) && Valid()
      decreases |content| - offset, 1
    {
      hide At, Skip, ParseString, ParseNumber, ParseItems, ParseMembers;
      NotKeywordByte(content, offset);
      if depth >= NESTING_LIMIT {
        return Fail;
      }
      depth := depth + 1;
      offset := offset + 1;
      SkipWhitespace();
      var items: seq<Json> := [];
      if content[offset] != RBRACKET {
        offset := offset - 1;
        var children := ParseElements();
        if !children.Ok? {
          return if children.Fail? then Fail else Beyond;
        }
        items := children.value;
      }
      depth := depth - 1;
      offset := offset + 1;
      return Ok(Arr(items), offset);
    }

    /** The name and the colon in front of an object's value. */
    method ParseName() returns (ok: bool, key: seq<byte>)
      requires Valid()
      modifies this`offset
      ensures var k := ParseString(content, old(offset));
              && (ok <==> k.Ok? && k.rest < |content| && content[Skip(content, k.rest)] == COLON)
              && (ok ==> key == k.value && Valid() && Skip(content, k.rest) + 1 < |content|
                         && offset == Skip(content, Skip(content, k.rest) + 1))
    {
      hide ParseString;
      key := [];
      ok := false;
      var k := ParseStringLiteral();
      if k.Ok? {
        key := k.value;
        SkipWhitespace();
        if content[offset] == COLON {
          offset := offset + 1;
          SkipWhitespace();
          ok := true;
        }
      }
    }

    /** The do-while of parse_object, from the byte in front of the first key; stops at the bracket. */
    method ParsePairs() returns (r: Parsed<seq<Member>>)
      requires Valid() && offset + 1 < |content|
      modifies this
      ensures r == ParseMembers(content, old(offset) + 1, old(depth))
      ensures r.Ok? ==> offset + 1 == r.rest && depth == old(depth) && Valid()
      decreases |content| - offset, 0
    {
      hide Skip, ParseString, ParseValue, ParseMembers, Prepend, PrependAll, NulFree;
      ghost var all := ParseMembers(content, offset + 1, depth);
      var items: seq<Member> := [];
      var more := true;
      PrependNone(all);
      while more
        invariant Valid() && old(offset) <= offset && depth == old(depth)
        invariant more ==> offset + 1 < |content|
        invariant more ==> all == PrependAll(items, ParseMembers(content, offset + 1, depth))
        invariant !more ==> all == if content[offset] == RBRACE then Ok(items, offset + 1) else Fail
        decreases |content| - offset
      {
        MembersTurn(content, offset + 1, depth, items);
        offset := offset + 1;
        SkipWhitespace();
        var ok, key := ParseName();
        if !ok {
          return Fail;
        }
        var v := ParseItem();
        if !v.Ok? {
          return if v.Fail? then Fail else Beyond;
        }
        SkipWhitespace();
        items := items + [Member(key, v.value)];
        more := content[offset] == COMMA;
      }
      r := if content[offset] == RBRACE then Ok(items, offset + 1) else Fail;
    }

    /** parse_object: the children in the order the sibling chain gets them. */
    method ParseObject() returns (r: Parsed<Json>)
      requires Valid() && content[offset] == LBRACE
      modifies this
      ensures r == ParseValue(content, old(offset), old(depth))
      ensures r.Ok? ==> offset == r.rest && depth == old(depth) && Valid()
      decreases |content| - offset, 1
    {
      hide At, Skip, ParseString, ParseNumber, ParseItems, ParseMembers;
      NotKeywordByte(content, offset);
      if depth >= NESTING_LIMIT {
        return Fail;
      }
      depth := depth + 1;
      offset := offset + 1;
      SkipWhitespace();
      var items: seq<Member> := [];
      if content[offset] != RBRACE {
        offset := offset - 1;
        var children := ParsePairs();
        if !children.Ok? {
          return if children.Fail? then Fail else Beyond;
        }
        items := children.value;
      }
      depth := depth - 1;
      offset := offset + 1;
      return Ok(Obj(items), offset);
    }
  }

  lemma NotKeywordByte(c: seq<byte>, i: nat)
    requires i < |c| && (c[i] == LBRACKET || c[i] == LBRACE)
    ensures !At(c, i, NULL_TEXT) && !At(c, i, FALSE_TEXT) && !At(c, i, TRUE_TEXT)
  {
    if At(c, i, NULL_TEXT) { AtByte(c, i, NULL_TEXT, 0); }
    if At(c, i, FALSE_TEXT) { AtByte(c, i, FALSE_TEXT, 0); }
    if At(c, i, TRUE_TEXT) { AtByte(c, i, TRUE_TEXT, 0); }
  }

  lemma {:induction false} CStrPrefix(s: seq<byte>, n: nat)
    requires n < |s| && s[n] == NUL
    ensures CStr(s) == CStr(s[..n])
    decreases n
  {
    if n > 0 {
      assert s[1..][..n - 1] == s[..n][1..];
      CStrPrefix(s[1..], n - 1);
    }
  }

  /** cJSON_Parse of a C string; `end` is where parsing stopped. */
  method ParseText(text: seq<byte>) returns (r: Parsed<Json>, end: nat)
    ensures r == Parse(text)
    ensures r.Ok? ==> end == r.rest
    ensures r.Ok? && r.value.Num? ==> exists k :: 0 <= k < end && Writes(text[k..end], r.value.n)
  {
    hide Writes;
    var buffer := new ParseBuffer(text);
    if |buffer.content| > 4 && At(buffer.content, 0, BOM) {
      buffer.offset := 3;
    }
    buffer.SkipWhitespace();
    r := buffer.ParseItem();
    end := buffer.offset;
    if r.Ok? && r.value.Num? {
      TextReads(text);
    }
  }
}
