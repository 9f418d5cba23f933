/**
 * Which texts are read, and as what: the grammar of section 2 to 7 of RFC 8259 as a relation between a stretch of a
 * buffer and a value, with what cJSON allows beyond it. The parser accepts exactly what the relation holds of.
 */
module JsonLanguage {
  import opened Bytes
  import opened JsonText
  import opened JsonGrammar
  import opened Numerals
  import opened JsonForms
  import opened JsonParser
  import opened RoundTrip

  /** White space is every byte up to the space. */
  ghost predicate BlankIn(c: seq<byte>, i: nat, k: nat) {
    i <= k <= |c| && forall q :: i <= q < k ==> c[q] <= 32
  }

  /** A string literal of `s`, quotes included. */
  predicate Quotes(t: seq<byte>, s: seq<byte>) {
    ParseString(t + [NUL], 0) == Ok(s, |t|)
  }

  /** The bytes from `i` to `k` spell `v`. */
  ghost predicate Spells(c: seq<byte>, i: nat, k: nat, v: Json)
    decreases v, 1
  {
    && i < k <= |c|
    && match v
       case Null => c[i..k] == Ascii("null")
       case False => c[i..k] == Ascii("false")
       case True => c[i..k] == Ascii("true")
       case Num(n) => Writes(c[i..k], n) && k - i <= NUMBER_BUFFER && -MAX_EXACT <= n <= MAX_EXACT
       case Str(s) => Quotes(c[i..k], s)
       case Arr(items) =>
         && k >= i + 2 && c[i] == '[' as int && c[k - 1] == ']' as int
         && if items == [] then BlankIn(c, i + 1, k - 1) else SpellItems(c, i + 1, k - 1, items)
       case Obj(members) =>
         && k >= i + 2 && c[i] == '{' as int && c[k - 1] == '}' as int
         && if members == [] then BlankIn(c, i + 1, k - 1) else SpellMembers(c, i + 1, k - 1, members)
  }

  /** Items with commas between them and white space around each. */
  ghost predicate SpellItems(c: seq<byte>, i: nat, k: nat, items: seq<Json>)
    decreases items, 0
  {
    items != [] && k <= |c| && exists a: nat, b: nat, e: nat ::
      && BlankIn(c, i, a) && Spells(c, a, b, items[0]) && BlankIn(c, b, e)
      && if |items| == 1 then e == k else e < k && c[e] == ',' as int && SpellItems(c, e + 1, k, items[1..])
  }

  /** Members likewise. */
  ghost predicate SpellMembers(c: seq<byte>, i: nat, k: nat, members: seq<Member>)
    decreases members, 0
  {
    members != [] && k <= |c| && exists b: nat, e: nat ::
      && SpellMember(c, i, b, members[0]) && BlankIn(c, b, e)
      && if |members| == 1 then e == k else e < k && c[e] == ',' as int && SpellMembers(c, e + 1, k, members[1..])
  }

  /** A member: a name, a colon and a value, with white space between them. */
  ghost predicate SpellMember(c: seq<byte>, i: nat, b: nat, m: Member)
    decreases m, 0
  {
    exists o: nat, a: nat :: Named(c, i, o, m.key) && BlankIn(c, o, a) && Spells(c, a, b, m.value)
  }

  /** A name and its colon, from `i` to `o`. */
  ghost predicate Named(c: seq<byte>, i: nat, o: nat, key: seq<byte>) {
    0 < o <= |c| && c[o - 1] == ':' as int && exists x: nat, y: nat ::
      BlankIn(c, i, x) && x < y <= |c| && Quotes(c[x..y], key) && BlankIn(c, y, o - 1)
  }

  /** A number ends where no more of its bytes follow, or with the 63 bytes the parser takes. */
  predicate Stops(c: seq<byte>, i: nat, k: nat, v: Json) {
    v.Num? && k < |c| && k - i < NUMBER_BUFFER ==> !NumberByte(c[k])
  }

  // ----- pieces

  /** White space is skipped up to the first byte that is none, or to the end. */
  lemma {:induction false} SkipBlank(c: seq<byte>, i: nat)
    requires i < |c|
    ensures BlankIn(c, i, Skip(c, i)) && (c[Skip(c, i)] > 32 || Skip(c, i) == |c| - 1)
    decreases |c| - i
  {
    if c[i] <= 32 && i + 1 < |c| {
      SkipBlank(c, i + 1);
    }
  }

  lemma {:induction false} SkipTo(c: seq<byte>, i: nat, a: nat)
    requires BlankIn(c, i, a) && a < |c| && c[a] > 32
    ensures Skip(c, i) == a
    decreases a - i
  {
    if i < a {
      SkipTo(c, i + 1, a);
    }
  }

  lemma WordAt(c: seq<byte>, i: nat, k: nat, w: seq<byte>)
    requires i <= k <= |c|
    ensures c[i..k] == w ==> At(c, i, w) && k == i + |w|
    ensures At(c, i, w) && k == i + |w| ==> c[i..k] == w
  {
    if c[i..k] == w {
      forall q | 0 <= q < |w| ensures c[i + q] == w[q] {
        assert c[i..k][q] == w[q];
      }
    }
  }

  lemma WordsAre()
    ensures NULL_TEXT == Ascii("null") && FALSE_TEXT == Ascii("false") && TRUE_TEXT == Ascii("true")
  {
  }

  /** No keyword starts with another byte than its own first. */
  lemma NoWord(c: seq<byte>, i: nat)
    requires i < |c|
    ensures At(c, i, NULL_TEXT) ==> c[i] == 110
    ensures At(c, i, FALSE_TEXT) ==> c[i] == 102
    ensures At(c, i, TRUE_TEXT) ==> c[i] == 116
  {
    if At(c, i, NULL_TEXT) { AtByte(c, i, NULL_TEXT, 0); }
    if At(c, i, FALSE_TEXT) { AtByte(c, i, FALSE_TEXT, 0); }
    if At(c, i, TRUE_TEXT) { AtByte(c, i, TRUE_TEXT, 0); }
  }

  // ----- strings by themselves

  lemma {:induction false} EndStays(c: seq<byte>, d: seq<byte>, i: nat)
    requires i <= |c| && FindEnd(c, i) < |c| && FindEnd(c, i) < |d|
    requires forall q :: i <= q <= FindEnd(c, i) ==> c[q] == d[q]
    ensures FindEnd(d, i) == FindEnd(c, i)
    decreases |c| - i
  {
    if i < |c| && c[i] != QUOTE {
      if c[i] != BACKSLASH {
        EndStays(c, d, i + 1);
      } else if i + 1 < |c| {
        EndStays(c, d, i + 2);
      }
    }
  }

  /** A literal is read alike whatever follows it. */
  lemma StringStays(c: seq<byte>, d: seq<byte>, i: nat, s: seq<byte>, k: nat)
    requires i < |c| && ParseString(c, i) == Ok(s, k) && k <= |d|
    requires forall q :: i <= q < k ==> c[q] == d[q]
    ensures ParseString(d, i) == Ok(s, k)
  {
    hide FindEnd, Decode, CStr;
    EndStays(c, d, i + 1);
    SecondPassStays(c, d, i + 1, k - 1);
  }

  /** It is read the same by itself. */
  lemma StringAlone(c: seq<byte>, i: nat, k: nat, s: seq<byte>)
    requires i < k <= |c|
    ensures ParseString(c, i) == Ok(s, k) <==> Quotes(c[i..k], s)
  {
    var t := c[i..k];
    var u := c[..i] + (t + [NUL]);
    assert forall q :: i <= q < k ==> u[q] == t[q - i] == c[q];
    StringLater(c[..i], t + [NUL], 0);
    if ParseString(c, i) == Ok(s, k) {
      StringStays(c, u, i, s, k);
    }
    if Quotes(t, s) {
      assert ParseString(u, i) == Ok(s, k);
      StringStays(u, c, i, s, k);
    }
  }

  // ----- numbers by themselves

  lemma NumberAlone(c: seq<byte>, i: nat, k: nat, n: int)
    requires i < k <= |c| && Writes(c[i..k], n) && -MAX_EXACT <= n <= MAX_EXACT
    requires k - i <= NUMBER_BUFFER && Stops(c, i, k, Num(n))
    ensures IsDigit(c[i]) || c[i] == MINUS
    ensures ParseNumber(c, i) == Ok(Num(n), k)
  {
    hide Writes, Strtod, NumberEnd;
    var t := c[i..k];
    TokenIsRead(t, n);
    assert forall q :: i <= q < k ==> c[q] == t[q - i];
    EndOfNumber(c, i, k, NUMBER_BUFFER);
  }

  lemma TokenIsRead(t: seq<byte>, n: int)
    requires t != [] && Writes(t, n) && -MAX_EXACT <= n <= MAX_EXACT
    ensures forall q :: 0 <= q < |t| ==> NumberByte(t[q])
    ensures (IsDigit(t[0]) || t[0] == MINUS) && Strtod(t) == Exactly(n)
  {
    hide Numeral;
    var s := if t[0] == 45 then t[1..] else t;
    NumeralDigits(s, if n < 0 then -n else n);
    assert forall q :: 0 <= q < |s| ==> s[q] == t[if t[0] == 45 then q + 1 else q];
    forall q | 0 <= q < |t| ensures NumberByte(t[q]) {
      assert t[q] == 45 || t[q] == s[if t[0] == 45 then q - 1 else q];
    }
  }

  lemma NumeralDigits(s: seq<byte>, m: nat)
    requires Numeral(s, m)
    ensures s != [] && AllDigits(s) && DigitsValue(s) == m
  {
    ValuePlaced(s);
    NumeralsDiffer(s, m, DigitsValue(s));
  }

  lemma {:induction false} EndOfNumber(c: seq<byte>, i: nat, k: nat, room: nat)
    requires i <= k <= |c| && k - i <= room && forall q :: i <= q < k ==> NumberByte(c[q])
    requires k == i + room || k == |c| || !NumberByte(c[k])
    ensures NumberEnd(c, i, room) == k
    decreases room
  {
    if i < k {
      EndOfNumber(c, i + 1, k, room - 1);
    }
  }

  // ----- what is read is spelled

  lemma {:induction false} ReadIsSpelled(c: seq<byte>, i: nat, d: nat)
    requires Terminated(c) && i < |c| && ParseValue(c, i, d).Ok?
    ensures var r := ParseValue(c, i, d); Spells(c, i, r.rest, r.value) && Stops(c, i, r.rest, r.value)
    decreases |c| - i, 1
  {
    hide At, Skip, ParseString, ParseNumber, ParseItems, ParseMembers, SpellItems, SpellMembers, Writes;
    var r := ParseValue(c, i, d);
    var k := r.rest;
    WordsAre();
    WordAt(c, i, k, NULL_TEXT);
    WordAt(c, i, k, FALSE_TEXT);
    WordAt(c, i, k, TRUE_TEXT);
    if At(c, i, NULL_TEXT) || At(c, i, FALSE_TEXT) || At(c, i, TRUE_TEXT) {
    } else if c[i] == QUOTE {
      StringAlone(c, i, k, ParseString(c, i).value);
    } else if c[i] == MINUS || IsDigit(c[i]) {
      NumberIsSpelled(c, i);
    } else {
      var j := Skip(c, i + 1);
      SkipBlank(c, i + 1);
      if c[i] == LBRACKET {
        if c[j] != RBRACKET {
          ItemsAreSpelled(c, j, d + 1);
          MoreBlank(c, i + 1, j, k - 1, r.value.items);
        }
      } else {
        if c[j] != RBRACE {
          MembersAreSpelled(c, j, d + 1);
          MoreBlankNamed(c, i + 1, j, k - 1, r.value.members);
        }
      }
    }
  }

  lemma NumberIsSpelled(c: seq<byte>, i: nat)
    requires i < |c| && (IsDigit(c[i]) || c[i] == MINUS) && ParseNumber(c, i).Ok?
    ensures var r := ParseNumber(c, i); Spells(c, i, r.rest, r.value) && Stops(c, i, r.rest, r.value)
  {
    hide Writes, ParseNumber, NumberByte, SpellItems, SpellMembers, Quotes;
    NumberReads(c, i);
    NumberEnds(c, i);
  }

  lemma NumberEnds(c: seq<byte>, i: nat)
    requires i < |c| && (IsDigit(c[i]) || c[i] == MINUS) && ParseNumber(c, i).Ok?
    ensures var r := ParseNumber(c, i);
            && r.value.Num? && -MAX_EXACT <= r.value.n <= MAX_EXACT
            && i < r.rest <= |c| && r.rest - i <= NUMBER_BUFFER
            && (r.rest < |c| && r.rest - i < NUMBER_BUFFER ==> !NumberByte(c[r.rest]))
  {
    hide Strtod, NumberEnd;
  }

  lemma {:induction false} ItemsAreSpelled(c: seq<byte>, k: nat, d: nat)
    requires Terminated(c) && k < |c| && ParseItems(c, k, d).Ok?
    ensures var r := ParseItems(c, k, d); SpellItems(c, k, r.rest - 1, r.value) && c[r.rest - 1] == RBRACKET
    decreases |c| - k, 2
  {
    hide Skip, ParseValue, ParseItems, Spells, Stops;
    ItemsBy(c, k, d);
    var a := Skip(c, k);
    ReadIsSpelled(c, a, d);
    var b := ParseValue(c, a, d).rest;
    var e := Skip(c, b);
    SkipBlank(c, k);
    SkipBlank(c, b);
    if c[e] == COMMA {
      ItemsAreSpelled(c, e + 1, d);
    }
  }

  lemma MoreBlank(c: seq<byte>, i: nat, j: nat, k: nat, items: seq<Json>)
    requires BlankIn(c, i, j) && SpellItems(c, j, k, items)
    ensures SpellItems(c, i, k, items) && items != []
  {
    hide Spells;
    var a: nat, b: nat, e: nat :| BlankIn(c, j, a) && Spells(c, a, b, items[0]) && BlankIn(c, b, e)
      && if |items| == 1 then e == k else e < k && c[e] == ',' as int && SpellItems(c, e + 1, k, items[1..]);
    assert BlankIn(c, i, a);
  }

  lemma NameIsSpelled(c: seq<byte>, i: nat, x: nat, key: seq<byte>, y: nat, o: nat)
    requires BlankIn(c, i, x) && x < |c| && ParseString(c, x) == Ok(key, y) && BlankIn(c, y, o) && o < |c| && c[o] == COLON
    ensures Named(c, i, o + 1, key)
  {
    hide ParseString, Quotes;
    StringAlone(c, x, y, key);
  }

  lemma {:induction false} MemberIsSpelled(c: seq<byte>, k: nat, d: nat)
    requires Terminated(c) && k < |c| && ParseMember(c, k, d).Ok?
    ensures var r := ParseMember(c, k, d); SpellMember(c, k, r.rest, r.value)
    decreases |c| - k, 2
  {
    hide Skip, ParseString, ParseValue, Spells, Stops, Named;
    var x := Skip(c, k);
    var y := ParseString(c, x).rest;
    KeyEnds(c, x);
    var o := Skip(c, y);
    SkipBlank(c, k);
    SkipBlank(c, y);
    NameIsSpelled(c, k, x, ParseString(c, x).value, y, o);
    var a := Skip(c, o + 1);
    ReadIsSpelled(c, a, d);
    SkipBlank(c, o + 1);
  }

  lemma {:induction false} MembersAreSpelled(c: seq<byte>, k: nat, d: nat)
    requires Terminated(c) && k < |c| && ParseMembers(c, k, d).Ok?
    ensures var r := ParseMembers(c, k, d); SpellMembers(c, k, r.rest - 1, r.value) && c[r.rest - 1] == RBRACE
    decreases |c| - k, 3
  {
    hide Skip, ParseMember, SpellMember;
    MemberIsSpelled(c, k, d);
    var b := ParseMember(c, k, d).rest;
    var e := Skip(c, b);
    SkipBlank(c, b);
    if c[e] == COMMA {
      MembersAreSpelled(c, e + 1, d);
    }
  }

  lemma MoreBlankNamed(c: seq<byte>, i: nat, j: nat, k: nat, members: seq<Member>)
    requires BlankIn(c, i, j) && SpellMembers(c, j, k, members)
    ensures SpellMembers(c, i, k, members) && members != []
  {
    hide SpellMember;
    var b: nat, e: nat :| SpellMember(c, j, b, members[0]) && BlankIn(c, b, e)
      && if |members| == 1 then e == k else e < k && c[e] == ',' as int && SpellMembers(c, e + 1, k, members[1..]);
    MemberEarlier(c, i, j, b, members[0]);
  }

  lemma MemberEarlier(c: seq<byte>, i: nat, j: nat, b: nat, m: Member)
    requires BlankIn(c, i, j) && SpellMember(c, j, b, m)
    ensures SpellMember(c, i, b, m)
  {
    hide Spells, Named;
    var o: nat, a: nat :| Named(c, j, o, m.key) && BlankIn(c, o, a) && Spells(c, a, b, m.value);
    NamedEarlier(c, i, j, o, m.key);
  }

  lemma NamedEarlier(c: seq<byte>, i: nat, j: nat, o: nat, key: seq<byte>)
    requires BlankIn(c, i, j) && Named(c, j, o, key)
    ensures Named(c, i, o, key)
  {
    hide Quotes;
    var x: nat, y: nat :| BlankIn(c, j, x) && x < y <= |c| && Quotes(c[x..y], key) && BlankIn(c, y, o - 1);
    assert BlankIn(c, i, x);
  }

  // ----- what is spelled is read

  /** What a value starts with. */
  lemma SpelledFirst(c: seq<byte>, i: nat, k: nat, v: Json)
    requires Spells(c, i, k, v)
    ensures c[i] > 32 && c[i] != RBRACKET && c[i] != RBRACE
    ensures v.Null? ==> At(c, i, NULL_TEXT) && k == i + 4
    ensures v.False? ==> At(c, i, FALSE_TEXT) && k == i + 5
    ensures v.True? ==> At(c, i, TRUE_TEXT) && k == i + 4
    ensures v.Num? ==> c[i] == MINUS || IsDigit(c[i])
    ensures v.Str? ==> c[i] == QUOTE && ParseString(c, i) == Ok(v.s, k)
    ensures v.Arr? ==> c[i] == LBRACKET
    ensures v.Obj? ==> c[i] == LBRACE
  {
    hide SpellItems, SpellMembers, ParseString, Quotes, At;
    WordsAre();
    WordAt(c, i, k, NULL_TEXT);
    WordAt(c, i, k, FALSE_TEXT);
    WordAt(c, i, k, TRUE_TEXT);
    match v {
      case Null => AtByte(c, i, NULL_TEXT, 0);
      case False => AtByte(c, i, FALSE_TEXT, 0);
      case True => AtByte(c, i, TRUE_TEXT, 0);
      case Num(n) =>
        WritesFirst(c[i..k], n);
        assert c[i..k][0] == c[i];
      case Str(s) =>
        StringAlone(c, i, k, s);
        StringFirst(c, i);
      case _ =>
    }
  }

  lemma WritesFirst(t: seq<byte>, n: int)
    requires Writes(t, n)
    ensures t != [] && (t[0] == MINUS || IsDigit(t[0]))
  {
  }

  lemma StringFirst(c: seq<byte>, i: nat)
    requires i < |c| && ParseString(c, i).Ok?
    ensures c[i] == QUOTE
  {
  }

  lemma {:induction false} SpelledIsRead(c: seq<byte>, i: nat, k: nat, v: Json, d: nat)
    requires Terminated(c) && Spells(c, i, k, v) && k < |c| && Fits(v, NESTING_LIMIT - d) && Stops(c, i, k, v)
    ensures ParseValue(c, i, d) == Ok(v, k)
    decreases v, 1
  {
    hide At, Skip, ParseString, ParseNumber, ParseItems, ParseMembers, SpellItems, SpellMembers, Writes, Fits, Quotes;
    SpelledFirst(c, i, k, v);
    NoWord(c, i);
    FitsScalar(v, NESTING_LIMIT - d);
    match v {
      case Num(n) => NumberAlone(c, i, k, n);
      case Arr(items) => ArrayIsRead(c, i, k, items, d);
      case Obj(members) => ObjectIsRead(c, i, k, members, d);
      case _ =>
    }
  }

  lemma {:induction false} ArrayIsRead(c: seq<byte>, i: nat, k: nat, items: seq<Json>, d: nat)
    requires Terminated(c) && Spells(c, i, k, Arr(items)) && k < |c| && Fits(Arr(items), NESTING_LIMIT - d)
    ensures ParseValue(c, i, d) == Ok(Arr(items), k)
    decreases items, 1
  {
    hide At, Skip, ParseString, ParseNumber, ParseItems, ParseMembers, SpellItems, SpellMembers;
    NoWord(c, i);
    if items == [] {
      SkipTo(c, i + 1, k - 1);
    } else {
      ItemsStart(c, i + 1, k - 1, items);
      ItemsAreRead(c, i + 1, k - 1, items, d + 1);
      SkipTwice(c, i + 1, d + 1);
    }
  }

  /** White space in front of the first item is skipped once or twice with the same result. */
  lemma SkipTwice(c: seq<byte>, i: nat, d: nat)
    requires Terminated(c) && i < |c| && c[Skip(c, i)] > 32
    ensures ParseItems(c, Skip(c, i), d) == ParseItems(c, i, d)
  {
    hide Skip, ParseValue, ParseItems;
    SkipStop(c, Skip(c, i));
    ItemsBy(c, i, d);
    ItemsBy(c, Skip(c, i), d);
  }

  lemma SkipTwiceNamed(c: seq<byte>, i: nat, d: nat)
    requires Terminated(c) && i < |c| && c[Skip(c, i)] > 32
    ensures ParseMembers(c, Skip(c, i), d) == ParseMembers(c, i, d)
  {
    hide Skip, ParseMember, ParseMembers;
    SkipStop(c, Skip(c, i));
    MemberAgain(c, i, d);
    MembersBy(c, i, d);
    MembersBy(c, Skip(c, i), d);
  }

  lemma MemberAgain(c: seq<byte>, i: nat, d: nat)
    requires Terminated(c) && i < |c| && Skip(c, Skip(c, i)) == Skip(c, i)
    ensures ParseMember(c, Skip(c, i), d) == ParseMember(c, i, d)
  {
    hide Skip, ParseValue, ParseString;
  }

  lemma ItemsStart(c: seq<byte>, i: nat, k: nat, items: seq<Json>)
    requires SpellItems(c, i, k, items) && k < |c|
    ensures i < |c| && c[Skip(c, i)] > 32 && c[Skip(c, i)] != RBRACKET
  {
    hide Spells;
    var a: nat, b: nat, e: nat :| BlankIn(c, i, a) && Spells(c, a, b, items[0]) && BlankIn(c, b, e)
      && if |items| == 1 then e == k else e < k && c[e] == ',' as int && SpellItems(c, e + 1, k, items[1..]);
    Within(c, a, b, items[0]);
    SpelledFirst(c, a, b, items[0]);
    SkipTo(c, i, a);
  }

  lemma Within(c: seq<byte>, i: nat, k: nat, v: Json)
    requires Spells(c, i, k, v)
    ensures i < k <= |c|
  {
  }

  /** A number is followed by white space or by what separates items. */
  lemma StopsThere(c: seq<byte>, i: nat, b: nat, e: nat, v: Json)
    requires BlankIn(c, b, e) && e < |c| && (c[e] == COMMA || c[e] == RBRACKET || c[e] == RBRACE)
    ensures Stops(c, i, b, v)
  {
  }

  lemma {:induction false} ItemIsRead(c: seq<byte>, i: nat, a: nat, b: nat, e: nat, v: Json, d: nat)
    requires Terminated(c) && BlankIn(c, i, a) && Spells(c, a, b, v) && Fits(v, NESTING_LIMIT - d)
    requires BlankIn(c, b, e) && e < |c| && (c[e] == COMMA || c[e] == RBRACKET)
    ensures i < |c| && ParseValue(c, Skip(c, i), d) == Ok(v, b) && b < |c| && Skip(c, b) == e
    decreases v, 2
  {
    hide Skip, ParseValue, Spells, Fits, Stops;
    Within(c, a, b, v);
    SpelledFirst(c, a, b, v);
    SkipTo(c, i, a);
    SkipTo(c, b, e);
    StopsThere(c, a, b, e, v);
    SpelledIsRead(c, a, b, v, d);
  }

  lemma {:induction false} ItemsAreRead(c: seq<byte>, i: nat, k: nat, items: seq<Json>, d: nat)
    requires Terminated(c) && SpellItems(c, i, k, items) && k < |c| && c[k] == RBRACKET
    requires forall x :: x in items ==> Fits(x, NESTING_LIMIT - d)
    ensures i < |c| && ParseItems(c, i, d) == Ok(items, k + 1)
    decreases items, 0
  {
    hide Skip, ParseValue, ParseItems, Spells, Fits, BlankIn;
    var a: nat, b: nat, e: nat :| BlankIn(c, i, a) && Spells(c, a, b, items[0]) && BlankIn(c, b, e)
      && if |items| == 1 then e == k else e < k && c[e] == ',' as int && SpellItems(c, e + 1, k, items[1..]);
    assert items[0] in items;
    ItemIsRead(c, i, a, b, e, items[0], d);
    ItemsBy(c, i, d);
    if |items| > 1 {
      assert forall x :: x in items[1..] ==> x in items;
      ItemsAreRead(c, e + 1, k, items[1..], d);
      assert items == [items[0]] + items[1..];
    } else {
      assert items == [items[0]];
    }
  }

  lemma {:induction false} ObjectIsRead(c: seq<byte>, i: nat, k: nat, members: seq<Member>, d: nat)
    requires Terminated(c) && Spells(c, i, k, Obj(members)) && k < |c| && Fits(Obj(members), NESTING_LIMIT - d)
    ensures ParseValue(c, i, d) == Ok(Obj(members), k)
    decreases members, 1
  {
    hide At, Skip, ParseString, ParseNumber, ParseItems, ParseMembers, SpellItems, SpellMembers;
    NoWord(c, i);
    if members == [] {
      SkipTo(c, i + 1, k - 1);
    } else {
      MembersAreRead(c, i + 1, k - 1, members, d + 1);
      SkipTwiceNamed(c, i + 1, d + 1);
    }
  }

  /** A name, where its colon is skipped to, and how it is read. */
  lemma NameIsRead(c: seq<byte>, i: nat, o: nat, key: seq<byte>)
    requires Named(c, i, o, key)
    ensures i < |c| && o <= |c| && c[Skip(c, i)] == QUOTE
    ensures var r := ParseString(c, Skip(c, i)); r.Ok? && r.value == key && r.rest < |c| && Skip(c, r.rest) == o - 1 && c[o - 1] == COLON
  {
    hide Quotes, ParseString;
    var x: nat, y: nat :| BlankIn(c, i, x) && x < y <= |c| && Quotes(c[x..y], key) && BlankIn(c, y, o - 1);
    StringAlone(c, x, y, key);
    StringFirst(c, x);
    SkipTo(c, i, x);
    SkipTo(c, y, o - 1);
  }

  lemma {:induction false} MemberIsRead(c: seq<byte>, i: nat, b: nat, e: nat, m: Member, d: nat)
    requires Terminated(c) && SpellMember(c, i, b, m) && Fits(m.value, NESTING_LIMIT - d)
    requires BlankIn(c, b, e) && e < |c| && (c[e] == COMMA || c[e] == RBRACE)
    ensures i < |c| && c[Skip(c, i)] == QUOTE && ParseMember(c, i, d) == Ok(m, b)
    decreases m, 0
  {
    hide Skip, ParseValue, Spells, Fits, Stops, Named, ParseString;
    var o: nat, a: nat :| Named(c, i, o, m.key) && BlankIn(c, o, a) && Spells(c, a, b, m.value);
    NameIsRead(c, i, o, m.key);
    Within(c, a, b, m.value);
    SpelledFirst(c, a, b, m.value);
    SkipTo(c, o, a);
    StopsThere(c, a, b, e, m.value);
    SpelledIsRead(c, a, b, m.value, d);
  }

  lemma {:induction false} MembersAreRead(c: seq<byte>, i: nat, k: nat, members: seq<Member>, d: nat)
    requires Terminated(c) && SpellMembers(c, i, k, members) && k < |c| && c[k] == RBRACE
    requires forall m :: m in members ==> Fits(m.value, NESTING_LIMIT - d)
    ensures i < |c| && c[Skip(c, i)] == QUOTE && ParseMembers(c, i, d) == Ok(members, k + 1)
    decreases members, 0
  {
    hide Skip, ParseMember, SpellMember, Fits, ParseMembers;
    var m := members[0];
    var b: nat, e: nat :| SpellMember(c, i, b, m) && BlankIn(c, b, e)
      && if |members| == 1 then e == k else e < k && c[e] == ',' as int && SpellMembers(c, e + 1, k, members[1..]);
    assert m in members;
    MemberIsRead(c, i, b, e, m, d);
    SkipTo(c, b, e);
    MembersBy(c, i, d);
    if |members| > 1 {
      MembersAreRead(c, e + 1, k, members[1..], d);
      assert members == [m] + members[1..];
    } else {
      assert members == [m];
    }
  }

  // ----- the theorem

  /**
   * A text is read as `v` up to `k` exactly when, behind a byte-order mark if it has one and white space, the bytes up to
   * `k` spell `v`, and `v` fits: no more than 1000 arrays and objects nest. Everything else is refused, but for numbers
   * that are not plain integers within 2^53, of which nothing is said.
   */
  lemma LanguageIsExact(text: seq<byte>, v: Json, k: nat)
    requires k <= |text|
    ensures var c := text + [NUL];
            Parse(text) == Ok(v, k) <==>
            exists i: nat :: BlankIn(c, Start(c), i) && Spells(c, i, k, v) && Fits(v, NESTING_LIMIT) && Stops(c, i, k, v)
  {
    hide ParseValue, Spells, Fits, Stops, Start;
    var c := text + [NUL];
    var j := Skip(c, Start(c));
    if Parse(text) == Ok(v, k) {
      ReadIsSpelled(c, j, 0);
      ParsedFits(c, j, 0);
      SkipBlank(c, Start(c));
    }
    if i: nat :| BlankIn(c, Start(c), i) && Spells(c, i, k, v) && Fits(v, NESTING_LIMIT) && Stops(c, i, k, v) {
      Within(c, i, k, v);
      SpelledFirst(c, i, k, v);
      SkipTo(c, Start(c), i);
      SpelledIsRead(c, i, k, v, 0);
    }
  }
}
