/**
 * The cJSON printers over their growing or fixed buffer. They produce the text of JsonText, and touch
 * no byte outside that text and its NUL.
 */
module JsonPrinter {
  import opened Bytes
  import opened JsonText
  import opened Numerals
  import opened RoundTrip

  // ----- printed text has no NUL, so strlen finds its end

  lemma {:induction false} EscapeNulFree(s: seq<byte>)
    ensures NulFree(Escape(s))
  {
    if s != [] {
      EscapeNulFree(s[1..]);
    }
  }

  lemma {:induction false} DigitsNulFree(n: nat)
    ensures NulFree(Digits(n))
  {
    if n >= 10 {
      DigitsNulFree(n / 10);
    }
  }

  lemma {:induction false} TextNulFree(v: Json, fmt: bool, depth: nat)
    ensures NulFree(Text(v, fmt, depth))
    decreases v, 1
  {
    hide ItemsText, MembersText, Escape, Digits;
    match v {
      case Null =>
      case False =>
      case True =>
      case Num(n) => DigitsNulFree(if n < 0 then -n else n);
      case Str(s) => EscapeNulFree(s);
      case Arr(items) => ItemsNulFree(items, fmt, depth + 1);
      case Obj(members) => MembersNulFree(members, fmt, depth + 1);
    }
  }

  lemma {:induction false} ItemsNulFree(items: seq<Json>, fmt: bool, depth: nat)
    ensures NulFree(ItemsText(items, fmt, depth))
    decreases items, 0
  {
    if items != [] {
      TextNulFree(items[0], fmt, depth);
      ItemsNulFree(items[1..], fmt, depth);
    }
  }

  lemma HeadNulFree(m: Member, fmt: bool, depth: nat)
    ensures NulFree(MemberHead(m, fmt, depth))
  {
    EscapeNulFree(m.key);
  }

  lemma SepNulFree(fmt: bool, more: bool)
    ensures NulFree(MemberSep(fmt, more))
  {
  }

  lemma NulFreeCat(a: seq<byte>, b: seq<byte>)
    requires NulFree(a) && NulFree(b)
    ensures NulFree(a + b)
  {
  }

  lemma {:induction false} MembersNulFree(members: seq<Member>, fmt: bool, depth: nat)
    ensures NulFree(MembersText(members, fmt, depth))
    decreases members, 0
  {
    if members != [] {
      hide Text, MemberHead, MemberSep, NulFree;
      var m := members[0];
      var value, sep := Text(m.value, fmt, depth), MemberSep(fmt, |members| > 1);
      var rest := MembersText(members[1..], fmt, depth);
      HeadNulFree(m, fmt, depth);
      SepNulFree(fmt, |members| > 1);
      TextNulFree(m.value, fmt, depth);
      MembersNulFree(members[1..], fmt, depth);
      NulFreeCat(sep, rest);
      NulFreeCat(value, sep + rest);
      NulFreeCat(MemberHead(m, fmt, depth), value + (sep + rest));
    } else {
      NoMembers(fmt, depth);
    }
  }

  lemma NoMembers(fmt: bool, depth: nat)
    ensures MembersText([], fmt, depth) == []
  {
  }

  // ----- escaping byte by byte

  lemma {:induction false} EscapeNext(s: seq<byte>, i: nat)
    requires i < |s|
    ensures Escape(s[..i + 1]) == Escape(s[..i]) + EscapeByte(s[i])
    decreases i
  {
    hide EscapeByte;
    if i == 0 {
      assert s[..1] == [s[0]] && s[..1][1..] == [];
    } else {
      EscapeNext(s[1..], i - 1);
      assert s[..i + 1][1..] == s[1..][..i] && s[..i][1..] == s[1..][..i - 1];
    }
  }

  /** With nothing to escape the text is the string itself. */
  lemma {:induction false} EscapeNothing(s: seq<byte>)
    ensures |Escape(s)| >= |s|
    ensures |Escape(s)| == |s| ==> Escape(s) == s
  {
    if s != [] {
      EscapeNothing(s[1..]);
      assert s == [s[0]] + s[1..];
    }
  }

  class PrintBuffer {
    var buffer: array<byte>
    var offset: nat
    var depth: nat
    const noalloc: bool
    const format: bool

    /** Between calls the offset is inside the buffer, unless nothing was reserved yet. */
    ghost predicate Valid()
      reads this
    {
      offset < buffer.Length || (buffer.Length == 0 && offset == 0)
    }

    /** Since the old state: the same buffer, written only in the `n` bytes from the offset and the NUL
        behind them, or one that was reallocated. */
    twostate predicate Touched(n: nat)
      reads this, buffer
    {
      && (buffer == old(buffer) || (fresh(buffer) && !noalloc))
      && (buffer == old(buffer) ==>
            forall k :: 0 <= k < buffer.Length && (k < old(offset) || k > old(offset) + n) ==> buffer[k] == old(buffer[k]))
    }

    /** Since the old state: `text` stands at the old offset behind what was there before, with its NUL. */
    twostate predicate Printed(text: seq<byte>)
      reads this, buffer
    {
      && old(offset) <= old(buffer.Length)
      && old(offset) + |text| + 1 < buffer.Length
      && old(offset) <= offset <= old(offset) + |text|
      && depth == old(depth)
      && buffer[..old(offset) + |text|] == old(buffer[..offset]) + text
      && buffer[old(offset) + |text|] == NUL
    }

    constructor (size: nat, format: bool)
      ensures Valid() && offset == 0 && depth == 0 && buffer.Length == size
      ensures !noalloc && this.format == format && fresh(buffer)
    {
      buffer := new byte[size];
      offset, depth := 0, 0;
      noalloc := false;
      this.format := format;
    }

    constructor Preallocated(buffer: array<byte>, format: bool)
      ensures Valid() && offset == 0 && depth == 0 && this.buffer == buffer
      ensures noalloc && this.format == format
    {
      this.buffer := buffer;
      offset, depth := 0, 0;
      noalloc := true;
      this.format := format;
    }

    /** ensure: room for `needed` more bytes and one, or failure of a fixed buffer. */
    method Ensure(needed: nat) returns (ok: bool)
      requires Valid()
      modifies this`buffer
      ensures Valid() && ok == (!noalloc || offset + needed + 1 <= old(buffer.Length))
      ensures ok ==> offset + needed < buffer.Length
      ensures offset <= buffer.Length && buffer[..offset] == old(buffer[..offset])
      ensures buffer == old(buffer) || (fresh(buffer) && !noalloc)
    {
      if buffer.Length > 0 && offset >= buffer.Length {
        return false;
      }
      var total := needed + offset + 1;
      if total <= buffer.Length {
        return true;
      }
      if noalloc {
        return false;
      }
      var from, grown := buffer, new byte[total * 2];
      var i := 0;
      while i < from.Length
        invariant 0 <= i <= from.Length && buffer == from
        invariant forall k :: 0 <= k < i ==> grown[k] == from[k]
        invariant from[..] == old(buffer[..])
      {
        grown[i] := from[i];
        i := i + 1;
      }
      assert grown[..offset] == from[..offset];
      buffer := grown;
      return true;
    }

    /** update_offset: strlen from the offset; `end` is where the NUL is. */
    method UpdateOffset(ghost end: nat)
      requires offset <= end < buffer.Length && buffer[end] == NUL
      requires forall k :: offset <= k < end ==> buffer[k] != NUL
      modifies this`offset
      ensures offset == end
    {
      var n := 0;
      while buffer[offset + n] != NUL
        invariant offset + n <= end
        decreases end - n
      {
        n := n + 1;
      }
      offset := offset + n;
    }

    /**
     * The recurring step of the printers: reserve `needed` bytes, copy `text` to the offset, and its
     * NUL when `terminate`. What is copied never exceeds what was reserved.
     */
    method Emit(text: seq<byte>, needed: nat, terminate: bool) returns (ok: bool)
      requires Valid() && |text| + (if terminate then 1 else 0) <= needed
      modifies this`buffer, buffer
      ensures Valid() && ok == (!noalloc || offset + needed + 1 <= old(buffer.Length))
      ensures ok ==> offset + needed < buffer.Length
      ensures ok ==> buffer[..offset + |text|] == old(buffer[..offset]) + text
      ensures ok && terminate ==> buffer[offset + |text|] == NUL
      ensures buffer == old(buffer) || (fresh(buffer) && !noalloc)
      ensures buffer == old(buffer) ==>
                forall k :: 0 <= k < buffer.Length && (k < offset || k >= offset + |text| + (if terminate then 1 else 0))
                            ==> buffer[k] == old(buffer[k])
    {
      ok := Ensure(needed);
      if !ok {
        return;
      }
      var b := buffer;
      ghost var kept := b[..offset];
      label before:
      var i := 0;
      while i < |text|
        invariant 0 <= i <= |text| && buffer == b
        invariant forall k :: 0 <= k < b.Length && (k < offset || k >= offset + |text|) ==> b[k] == old@before(b[k])
        invariant forall k :: offset <= k < offset + i ==> b[k] == text[k - offset]
      {
        b[offset + i] := text[i];
        i := i + 1;
      }
      assert b[..offset] == kept;
      assert b[..offset + |text|] == kept + text;
      if terminate {
        buffer[offset + |text|] := NUL;
        assert buffer[..offset + |text|] == kept + text;
      }
    }

    /** First loop of print_string_ptr: the escaped length. */
    method EscapedLength(s: seq<byte>) returns (length: nat)
      ensures length == |Escape(s)|
    {
      var extra, i := 0, 0;
      while i < |s|
        invariant 0 <= i <= |s| && i + extra == |Escape(s[..i])|
      {
        EscapeNext(s, i);
        if s[i] == QUOTE || s[i] == BACKSLASH || s[i] == BACKSPACE || s[i] == FORMFEED
           || s[i] == NEWLINE || s[i] == RETURN || s[i] == TAB {
          extra := extra + 1;
        } else if s[i] < 32 {
          extra := extra + 5;
        }
        i := i + 1;
      }
      assert s[..i] == s;
      length := i + extra;
    }

    /** One turn of the second loop of print_string_ptr; sprintf leaves a NUL behind its five characters. */
    method WriteEscapedByte(c: byte, q: nat) returns (n: nat)
      requires q + |EscapeByte(c)| < buffer.Length
      modifies buffer
      ensures n == |EscapeByte(c)|
      ensures forall k :: q <= k < q + n ==> buffer[k] == EscapeByte(c)[k - q]
      ensures forall k :: 0 <= k < buffer.Length && (k < q || k > q + n) ==> buffer[k] == old(buffer[k])
    {
      if c > 31 && c != QUOTE && c != BACKSLASH {
        buffer[q] := c;
        return 1;
      }
      buffer[q] := BACKSLASH;
      if c == BACKSLASH {
        buffer[q + 1] := BACKSLASH;
      } else if c == QUOTE {
        buffer[q + 1] := QUOTE;
      } else if c == BACKSPACE {
        buffer[q + 1] := LOWER_B;
      } else if c == FORMFEED {
        buffer[q + 1] := LOWER_F;
      } else if c == NEWLINE {
        buffer[q + 1] := LOWER_N;
      } else if c == RETURN {
        buffer[q + 1] := LOWER_R;
      } else if c == TAB {
        buffer[q + 1] := LOWER_T;
      } else {
        buffer[q + 1], buffer[q + 2], buffer[q + 3] := LOWER_U, ZERO, ZERO;
        buffer[q + 4], buffer[q + 5] := HexLow(c / 16), HexLow(c % 16);
        buffer[q + 6] := NUL;
        return 6;
      }
      return 2;
    }

    /** Second loop of print_string_ptr: writes the escaped bytes at `at`. */
    method WriteEscaped(s: seq<byte>, at: nat)
      requires at + |Escape(s)| + 1 < buffer.Length
      modifies buffer
      ensures forall k :: at <= k < at + |Escape(s)| ==> buffer[k] == Escape(s)[k - at]
      ensures forall k :: 0 <= k < at ==> buffer[k] == old(buffer[k])
      ensures forall k :: at + |Escape(s)| < k < buffer.Length ==> buffer[k] == old(buffer[k])
    {
      hide Escape, EscapeByte;
      var q, i := at, 0;
      EscapePrefix(s, 0);
      while i < |s|
        invariant 0 <= i <= |s| && q == at + |Escape(s[..i])| <= at + |Escape(s)|
        invariant forall k :: at <= k < q ==> buffer[k] == Escape(s[..i])[k - at]
        invariant forall k :: 0 <= k < at ==> buffer[k] == old(buffer[k])
        invariant forall k :: at + |Escape(s)| < k < buffer.Length ==> buffer[k] == old(buffer[k])
      {
        EscapeNext(s, i);
        EscapePrefix(s, i + 1);
        var n := WriteEscapedByte(s[i], q);
        q := q + n;
        i := i + 1;
      }
      assert s[..i] == s;
    }

    /** memcpy of a string that needs no escapes. */
    method CopyPlain(s: seq<byte>, at: nat)
      requires at + |s| < buffer.Length
      modifies buffer
      ensures forall k :: at <= k < at + |s| ==> buffer[k] == s[k - at]
      ensures forall k :: 0 <= k < buffer.Length && (k < at || k >= at + |s|) ==> buffer[k] == old(buffer[k])
    {
      var i := 0;
      while i < |s|
        invariant 0 <= i <= |s|
        invariant forall k :: at <= k < at + i ==> buffer[k] == s[k - at]
        invariant forall k :: 0 <= k < buffer.Length && (k < at || k >= at + |s|) ==> buffer[k] == old(buffer[k])
      {
        buffer[at + i] := s[i];
        i := i + 1;
      }
    }

    /** The writing half of print_string_ptr, inside the space reserved. */
    method WriteString(s: seq<byte>, length: nat)
      requires length == |Escape(s)| && offset + length + 3 < buffer.Length
      modifies buffer
      ensures forall k :: 0 <= k < buffer.Length && (k < offset || k > offset + length + 2) ==> buffer[k] == old(buffer[k])
      ensures forall k :: offset <= k < offset + |StringText(s)| ==> buffer[k] == StringText(s)[k - offset]
      ensures buffer[offset + |StringText(s)|] == NUL
    {
      hide Escape, EscapeByte, StringText;
      StringTextAt(s);
      buffer[offset] := QUOTE;
      if length == |s| {
        EscapeNothing(s);
        CopyPlain(s, offset + 1);
      } else {
        WriteEscaped(s, offset + 1);
      }
      buffer[offset + length + 1] := QUOTE;
      buffer[offset + length + 2] := NUL;
    }

    /** print_string_ptr. The offset stays at the start of the text. */
    method PrintStringPtr(s: seq<byte>) returns (ok: bool)
      requires Valid() && NulFree(s)
      modifies this`buffer, buffer
      ensures Valid() && ok == (!noalloc || offset + |StringText(s)| + 2 <= old(buffer.Length))
      ensures ok ==> offset + |StringText(s)| + 1 < buffer.Length
      ensures ok ==> buffer[..offset + |StringText(s)|] == old(buffer[..offset]) + StringText(s)
      ensures ok ==> buffer[offset + |StringText(s)|] == NUL
      ensures Touched(|StringText(s)|)
    {
      hide Escape, EscapeByte, StringText;
      StringTextAt(s);
      var length := EscapedLength(s);
      ok := Ensure(length + 3);
      if ok {
        ghost var kept := buffer[..offset];
        WriteString(s, length);
        assert buffer[..][..offset] == kept;
        PrefixThen(buffer[..], kept, StringText(s));
      }
    }

    // ----- text appended at the offset

    /** Emit, and move the offset behind the text. */
    method Append(text: seq<byte>, needed: nat, terminate: bool) returns (ok: bool)
      requires Valid() && |text| + (if terminate then 1 else 0) <= needed
      modifies this`buffer, this`offset, buffer
      ensures Valid() && ok == (!noalloc || old(offset) + needed + 1 <= old(buffer.Length))
      ensures ok ==> offset == old(offset) + |text| && old(offset) + needed < buffer.Length
      ensures ok ==> buffer[..offset] == old(buffer[..offset]) + text
      ensures ok && terminate ==> buffer[offset] == NUL
      ensures Touched(|text|)
    {
      ok := Emit(text, needed, terminate);
      if ok {
        offset := offset + |text|;
      }
    }

    /** print_value with the update_offset that follows it in both containers. */
    method PrintElement(v: Json) returns (ok: bool)
      requires Valid() && Printable(v)
      modifies this, buffer
      ensures Valid() && ok == (!noalloc || old(offset) + |Text(v, format, old(depth))| + 2 <= old(buffer.Length))
      ensures ok ==> Printed(Text(v, format, old(depth))) && offset == old(offset) + |Text(v, format, old(depth))|
      ensures Touched(|Text(v, format, old(depth))|)
      decreases v, 2
    {
      hide Text, Printable;
      ghost var s, t := offset, Text(v, format, depth);
      ok := PrintValue(v);
      if ok {
        TextNulFree(v, format, depth);
        ghost var whole := buffer[..s + |t|];
        forall k | offset <= k < s + |t|
          ensures buffer[k] != NUL
        {
          assert whole[k] == t[k - s];
        }
        UpdateOffset(s + |t|);
      }
    }

    /** The cases of print_value without children. */
    method PrintScalar(v: Json) returns (ok: bool)
      requires Valid() && Printable(v) && !v.Arr? && !v.Obj?
      modifies this, buffer
      ensures Valid() && ok == (!noalloc || old(offset) + |Text(v, format, old(depth))| + 2 <= old(buffer.Length))
      ensures ok ==> Printed(Text(v, format, old(depth)))
      ensures Touched(|Text(v, format, old(depth))|)
    {
      hide Decimal, StringText;
      match v {
        case Null => ok := Emit(NULL_TEXT, 5, true);
        case False => ok := Emit(FALSE_TEXT, 6, true);
        case True => ok := Emit(TRUE_TEXT, 5, true);
        case Num(n) => ok := Append(Decimal(n), |Decimal(n)| + 1, true);
        case Str(s) => ok := PrintStringPtr(s);
      }
    }

    /** print_value. The text starts at the old offset; the new one is somewhere inside it. */
    method PrintValue(v: Json) returns (ok: bool)
      requires Valid() && Printable(v)
      modifies this, buffer
      ensures Valid() && ok == (!noalloc || old(offset) + |Text(v, format, old(depth))| + 2 <= old(buffer.Length))
      ensures ok ==> Printed(Text(v, format, old(depth)))
      ensures Touched(|Text(v, format, old(depth))|)
      decreases v, 1
    {
      hide Text;
      if v.Arr? {
        ok := PrintArray(v.items);
      } else if v.Obj? {
        ok := PrintObject(v.members);
      } else {
        ok := PrintScalar(v);
      }
    }

    /** print_array. */
    method PrintArray(items: seq<Json>) returns (ok: bool)
      requires Valid() && forall x :: x in items ==> Printable(x)
      modifies this, buffer
      ensures Valid() && ok == (!noalloc || old(offset) + |Text(Arr(items), format, old(depth))| + 2 <= old(buffer.Length))
      ensures ok ==> Printed(Text(Arr(items), format, old(depth)))
      ensures Touched(|Text(Arr(items), format, old(depth))|)
      decreases items, 2
    {
      hide ItemsText, Text, Printable;
      ghost var before := buffer[..offset];
      ArrayText(items, format, depth, before);
      ok := PrintListed(items);
      if ok {
        ok := Emit([RBRACKET], 2, true);
        depth := depth - 1;
      }
    }

    /** print_array up to its closing bracket. */
    method PrintListed(items: seq<Json>) returns (ok: bool)
      requires Valid() && forall x :: x in items ==> Printable(x)
      modifies this, buffer
      ensures Valid()
      ensures var n := 1 + |ItemsText(items, format, old(depth) + 1)|;
              && (!ok ==> noalloc && old(offset) + n + 2 > old(buffer.Length))
              && (ok ==> offset == old(offset) + n && depth == old(depth) + 1)
              && Touched(n)
      ensures ok ==> buffer[..offset] == old(buffer[..offset]) + [LBRACKET] + ItemsText(items, format, old(depth) + 1)
      decreases items, 1
    {
      hide ItemsText, Printable;
      ok := Append([LBRACKET], 1, false);
      if ok {
        depth := depth + 1;
        ok := PrintItems(items);
      }
    }

    /** One turn of the loop of print_array: an element, and the separator when another follows. */
    method PrintNext(v: Json, more: bool) returns (ok: bool)
      requires Valid() && Printable(v)
      modifies this, buffer
      ensures Valid()
      ensures !ok ==> noalloc && old(offset) + |NextText(v, more, format, old(depth))| + 2 > old(buffer.Length)
      ensures ok ==> offset == old(offset) + |NextText(v, more, format, old(depth))| && depth == old(depth)
      ensures ok ==> buffer[..offset] == old(buffer[..offset]) + NextText(v, more, format, old(depth))
      ensures Touched(|NextText(v, more, format, old(depth))|)
      decreases v, 3
    {
      hide Text, ItemSep, Printable;
      ok := PrintElement(v);
      if ok && more {
        ok := Append(ItemSep(format), |ItemSep(format)| + 1, true);
      }
    }

    /** The loop of print_array. */
    method PrintItems(items: seq<Json>) returns (ok: bool)
      requires Valid() && forall x :: x in items ==> Printable(x)
      modifies this, buffer
      ensures Valid()
      ensures !ok ==> noalloc && old(offset) + |ItemsText(items, format, old(depth))| + 2 > old(buffer.Length)
      ensures ok ==> offset == old(offset) + |ItemsText(items, format, old(depth))| && depth == old(depth)
      ensures ok ==> buffer[..offset] == old(buffer[..offset]) + ItemsText(items, format, old(depth))
      ensures Touched(|ItemsText(items, format, old(depth))|)
      decreases items, 0
    {
      hide Text, NextText, Printable, ItemsText;
      ghost var s, all, before := offset, ItemsText(items, format, depth), buffer[..offset];
      ghost var done: seq<byte> := [];
      var i := 0;
      assert items[0..] == items;
      while i < |items|
        invariant 0 <= i <= |items| && Valid() && depth == old(depth)
        invariant noalloc ==> buffer == old(buffer)
        invariant done + ItemsText(items[i..], format, depth) == all
        invariant offset == s + |done| && offset <= buffer.Length && buffer[..offset] == before + done
        invariant Touched(|done|)
      {
        ghost var t := NextText(items[i], i + 1 < |items|, format, depth);
        ItemsFrom(items, i, format, depth, done);
        assert items[i] in items;
        ok := PrintNext(items[i], i + 1 < |items|);
        if !ok {
          return;
        }
        assert before + done + t == before + (done + t);
        done := done + t;
        i := i + 1;
      }
      NoMoreItems(items, format, depth);
      ok := true;
    }

    /** A key with the update_offset that follows it. */
    method PrintName(key: seq<byte>) returns (ok: bool)
      requires Valid() && NulFree(key)
      modifies this`buffer, this`offset, buffer
      ensures Valid() && ok == (!noalloc || old(offset) + |StringText(key)| + 2 <= old(buffer.Length))
      ensures ok ==> offset == old(offset) + |StringText(key)|
      ensures ok ==> buffer[..offset] == old(buffer[..offset]) + StringText(key)
      ensures Touched(|StringText(key)|)
    {
      hide StringText;
      ghost var start, t := offset, StringText(key);
      ok := PrintStringPtr(key);
      if ok {
        StringNulFree(key);
        ghost var whole := buffer[..start + |t|];
        forall k | start <= k < start + |t|
          ensures buffer[k] != NUL
        {
          assert whole[k] == t[k - start];
        }
        UpdateOffset(start + |t|);
      }
    }

    /** Indentation, key and colon of a member. */
    method PrintKey(m: Member) returns (ok: bool)
      requires Valid() && NulFree(m.key)
      modifies this`buffer, this`offset, buffer
      ensures Valid()
      ensures !ok ==> noalloc && old(offset) + |MemberHead(m, format, depth)| + 2 > old(buffer.Length)
      ensures ok ==> offset == old(offset) + |MemberHead(m, format, depth)|
      ensures ok ==> buffer[..offset] == old(buffer[..offset]) + MemberHead(m, format, depth)
      ensures Touched(|MemberHead(m, format, depth)|)
    {
      hide StringText, KeySep, Indent, MemberHead;
      ghost var before := buffer[..offset];
      HeadText(m, format, depth, before);
      ok := true;
      if format {
        ok := Append(Tabs(depth), depth, false);
        if !ok {
          return;
        }
      }
      ok := PrintName(m.key);
      if !ok {
        return;
      }
      ok := Append(KeySep(format), |KeySep(format)|, false);
    }

    /** One turn of the loop of print_object. */
    method PrintMember(m: Member, more: bool) returns (ok: bool)
      requires Valid() && NulFree(m.key) && Printable(m.value)
      modifies this, buffer
      ensures Valid()
      ensures !ok ==> noalloc && old(offset) + |MemberText(m, more, format, old(depth))| + 2 > old(buffer.Length)
      ensures ok ==> offset == old(offset) + |MemberText(m, more, format, old(depth))| && depth == old(depth)
      ensures ok ==> buffer[..offset] == old(buffer[..offset]) + MemberText(m, more, format, old(depth))
      ensures Touched(|MemberText(m, more, format, old(depth))|)
      decreases m, 3
    {
      hide Text, MemberHead, MemberSep, Printable;
      ok := PrintKeyed(m);
      if ok {
        var sep := MemberSep(format, more);
        ok := Append(sep, |sep| + 1, true);
      }
    }

    /** A member without its separator. */
    method PrintKeyed(m: Member) returns (ok: bool)
      requires Valid() && NulFree(m.key) && Printable(m.value)
      modifies this, buffer
      ensures Valid()
      ensures var n := |MemberHead(m, format, old(depth))| + |Text(m.value, format, old(depth))|;
              && (!ok ==> noalloc && old(offset) + n + 2 > old(buffer.Length))
              && (ok ==> offset == old(offset) + n && depth == old(depth))
              && Touched(n)
      ensures ok ==> buffer[..offset] == old(buffer[..offset]) + MemberHead(m, format, old(depth)) + Text(m.value, format, old(depth))
      decreases m, 2
    {
      hide Text, MemberHead, Printable;
      ok := PrintKey(m);
      if ok {
        ok := PrintElement(m.value);
      }
    }

    /** The loop of print_object. */
    method PrintMembers(members: seq<Member>) returns (ok: bool)
      requires Valid() && forall m :: m in members ==> NulFree(m.key) && Printable(m.value)
      modifies this, buffer
      ensures Valid()
      ensures !ok ==> noalloc && old(offset) + |MembersText(members, format, old(depth))| + 2 > old(buffer.Length)
      ensures ok ==> offset == old(offset) + |MembersText(members, format, old(depth))| && depth == old(depth)
      ensures ok ==> buffer[..offset] == old(buffer[..offset]) + MembersText(members, format, old(depth))
      ensures Touched(|MembersText(members, format, old(depth))|)
      decreases members, 0
    {
      hide Text, MemberText, Printable, MembersText;
      ghost var s, all, before := offset, MembersText(members, format, depth), buffer[..offset];
      ghost var done: seq<byte> := [];
      var i := 0;
      assert members[0..] == members;
      while i < |members|
        invariant 0 <= i <= |members| && Valid() && depth == old(depth)
        invariant noalloc ==> buffer == old(buffer)
        invariant done + MembersText(members[i..], format, depth) == all
        invariant offset == s + |done| && offset <= buffer.Length && buffer[..offset] == before + done
        invariant Touched(|done|)
      {
        ghost var t := MemberText(members[i], i + 1 < |members|, format, depth);
        MembersFrom(members, i, format, depth, done);
        assert members[i] in members;
        ok := PrintMember(members[i], i + 1 < |members|);
        if !ok {
          return;
        }
        assert before + done + t == before + (done + t);
        done := done + t;
        i := i + 1;
      }
      NoMembers(format, depth);
      assert members[i..] == [];
      ok := true;
    }

    /** print_object. */
    method PrintObject(members: seq<Member>) returns (ok: bool)
      requires Valid() && forall m :: m in members ==> NulFree(m.key) && Printable(m.value)
      modifies this, buffer
      ensures Valid() && ok == (!noalloc || old(offset) + |Text(Obj(members), format, old(depth))| + 2 <= old(buffer.Length))
      ensures ok ==> Printed(Text(Obj(members), format, old(depth)))
      ensures Touched(|Text(Obj(members), format, old(depth))|)
      decreases members, 2
    {
      hide MembersText, LineEnd, Indent, Printable, Text;
      var open := [LBRACE] + LineEnd(format);
      var close := Indent(format, depth) + [RBRACE];
      ghost var before := buffer[..offset];
      ObjectText(members, format, depth, before);
      ok := PrintOpened(open, members);
      if ok {
        ok := Emit(close, if format then depth + 1 else 2, true);
        depth := depth - 1;
      }
    }

    /** print_object up to its closing brace. */
    method PrintOpened(open: seq<byte>, members: seq<Member>) returns (ok: bool)
      requires Valid() && forall m :: m in members ==> NulFree(m.key) && Printable(m.value)
      modifies this, buffer
      ensures Valid()
      ensures var n := |open| + |MembersText(members, format, old(depth) + 1)|;
              && (!ok ==> noalloc && old(offset) + n + 2 > old(buffer.Length))
              && (ok ==> offset == old(offset) + n && depth == old(depth) + 1)
              && Touched(n)
      ensures ok ==> buffer[..offset] == old(buffer[..offset]) + open + MembersText(members, format, old(depth) + 1)
      decreases members, 1
    {
      hide MembersText, Printable;
      ok := Append(open, |open| + 1, false);
      if ok {
        depth := depth + 1;
        ok := PrintMembers(members);
      }
    }
  }

  // ----- how the texts of the containers are put together

  lemma ArrayText(items: seq<Json>, fmt: bool, depth: nat, before: seq<byte>)
    ensures var body, t := ItemsText(items, fmt, depth + 1), Text(Arr(items), fmt, depth);
            before + t == before + [LBRACKET] + body + [RBRACKET] && |t| == |body| + 2
  {
    hide ItemsText;
  }

  lemma ObjectText(members: seq<Member>, fmt: bool, depth: nat, before: seq<byte>)
    ensures var body, t := MembersText(members, fmt, depth + 1), Text(Obj(members), fmt, depth);
            var open, close := [LBRACE] + LineEnd(fmt), Indent(fmt, depth) + [RBRACE];
            && before + t == before + open + body + close && |t| == |open| + |body| + |close|
            && |close| == if fmt then depth + 1 else 1
  {
    hide MembersText, LineEnd;
  }

  lemma HeadText(m: Member, fmt: bool, depth: nat, before: seq<byte>)
    ensures var t, key, sep := MemberHead(m, fmt, depth), StringText(m.key), KeySep(fmt);
            && (fmt ==> before + t == before + Tabs(depth) + key + sep && |t| == depth + |key| + |sep|)
            && (!fmt ==> before + t == before + key + sep && |t| == |key| + |sep|)
  {
    hide StringText, KeySep, Tabs;
  }

  lemma StringNulFree(s: seq<byte>)
    ensures NulFree(StringText(s))
  {
    EscapeNulFree(s);
  }

  function MemberText(m: Member, more: bool, fmt: bool, depth: nat): seq<byte> {
    MemberHead(m, fmt, depth) + (Text(m.value, fmt, depth) + MemberSep(fmt, more))
  }

  lemma MembersFrom(members: seq<Member>, i: nat, fmt: bool, depth: nat, done: seq<byte>)
    requires i < |members|
    ensures var t := MemberText(members[i], i + 1 < |members|, fmt, depth);
            done + MembersText(members[i..], fmt, depth) == done + t + MembersText(members[i + 1..], fmt, depth)
  {
    hide Text, MemberHead, MemberSep;
    assert members[i..][1..] == members[i + 1..];
  }

  function NextText(v: Json, more: bool, fmt: bool, depth: nat): seq<byte> {
    Text(v, fmt, depth) + if more then ItemSep(fmt) else []
  }

  lemma ItemsFrom(items: seq<Json>, i: nat, fmt: bool, depth: nat, done: seq<byte>)
    requires i < |items|
    ensures var t := NextText(items[i], i + 1 < |items|, fmt, depth);
            done + ItemsText(items[i..], fmt, depth) == done + t + ItemsText(items[i + 1..], fmt, depth)
  {
    hide Text, ItemSep;
    assert items[i..][1..] == items[i + 1..];
  }

  lemma NoMoreItems(items: seq<Json>, fmt: bool, depth: nat)
    ensures ItemsText(items[|items|..], fmt, depth) == []
  {
  }

  lemma PrefixThen(b: seq<byte>, kept: seq<byte>, t: seq<byte>)
    requires |kept| + |t| <= |b| && b[..|kept|] == kept
    requires forall k :: |kept| <= k < |kept| + |t| ==> b[k] == t[k - |kept|]
    ensures b[..|kept| + |t|] == kept + t
  {
  }

  lemma StringTextAt(s: seq<byte>)
    ensures |StringText(s)| == |Escape(s)| + 2
    ensures StringText(s)[0] == QUOTE && StringText(s)[|Escape(s)| + 1] == QUOTE
    ensures forall k :: 0 < k <= |Escape(s)| ==> StringText(s)[k] == Escape(s)[k - 1]
  {
  }

  lemma {:induction false} EscapePrefix(s: seq<byte>, i: nat)
    requires i <= |s|
    ensures Escape(s[..0]) == []
    ensures |Escape(s[..i])| <= |Escape(s)|
    decreases |s| - i
  {
    if i == |s| {
      assert s[..i] == s;
    } else {
      EscapeNext(s, i);
      EscapePrefix(s, i + 1);
    }
  }

  // ----- the entry points

  const DEFAULT_SIZE: nat := 256

  /** cJSON_Print and cJSON_PrintUnformatted: the text and its NUL in a block of exactly that size. */
  method Print(v: Json, format: bool) returns (printed: array<byte>)
    requires Printable(v)
    ensures printed[..] == Text(v, format, 0) + [NUL]
    ensures v.Num? ==> Writes(printed[..printed.Length - 1], v.n) && (printed[0] == 45 <==> v.n < 0)
  {
    hide Text, Writes;
    NumberWrites(v, format);
    var p := new PrintBuffer(DEFAULT_SIZE, format);
    var ok := p.PrintElement(v);
    var from, size := p.buffer, p.offset + 1;
    printed := new byte[size];
    var i := 0;
    while i + 1 < size
      invariant 0 <= i < size && from == p.buffer && size == p.offset + 1
      invariant from[..p.offset] == Text(v, format, 0)
      invariant forall k :: 0 <= k < i ==> printed[k] == from[k]
    {
      printed[i] := from[i];
      i := i + 1;
    }
    printed[i] := NUL;
    assert printed[..i] == from[..i];
  }

  lemma NumberWrites(v: Json, format: bool)
    ensures v.Num? ==> var t := Text(v, format, 0); t != [] && Writes(t, v.n) && (t[0] == 45 <==> v.n < 0)
  {
    if v.Num? {
      DecimalWrites(v.n);
    }
  }

  /** cJSON_PrintBuffered: any starting size gives the same text. */
  method PrintBuffered(v: Json, prebuffer: int, format: bool) returns (printed: array?<byte>)
    requires Printable(v)
    ensures printed == null <==> prebuffer < 0
    ensures printed != null ==> CStr(printed[..]) == Text(v, format, 0)
  {
    hide Text;
    if prebuffer < 0 {
      return null;
    }
    var p := new PrintBuffer(prebuffer, format);
    var ok := p.PrintValue(v);
    TextNulFree(v, format, 0);
    ghost var t := Text(v, format, 0);
    assert p.buffer[..][..|t|] == p.buffer[..|t|] == t;
    TextIsCStr(p.buffer[..], t);
    return p.buffer;
  }

  /**
   * cJSON_PrintPreallocated: it succeeds exactly when the buffer has two bytes more than the text,
   * then holds the text, and in no case writes behind the text's NUL.
   */
  method PrintPreallocated(v: Json, buffer: array<byte>, format: bool) returns (ok: bool)
    requires Printable(v)
    modifies buffer
    ensures ok <==> |Text(v, format, 0)| + 2 <= buffer.Length
    ensures ok ==> CStr(buffer[..]) == Text(v, format, 0)
    ensures forall k :: |Text(v, format, 0)| < k < buffer.Length ==> buffer[k] == old(buffer[k])
  {
    hide Text;
    var p := new PrintBuffer.Preallocated(buffer, format);
    ok := p.PrintValue(v);
    if ok {
      ghost var t := Text(v, format, 0);
      TextNulFree(v, format, 0);
      assert p.buffer[..][..|t|] == p.buffer[..|t|] == t;
      TextIsCStr(buffer[..], t);
    }
  }
}
