/**
 * What parse_string makes of Unicode, against decoders written from the standards: UTF-8 from
 * section 3 and 4 of RFC 3629, surrogate pairs from section 2.2 of RFC 2781, and the string grammar
 * from section 7 of RFC 8259.
 */
module Unicode {
  import opened Bytes
  import opened JsonGrammar

  predicate Scalar(cp: int) { 0 <= cp < 0xD800 || 0xE000 <= cp <= 0x10FFFF }

  type scalar = cp: int | 0 <= cp < 0xD800 || 0xE000 <= cp <= 0x10FFFF witness 0

  // ----- UTF-8 as RFC 3629 reads it

  predicate Tail(b: byte) { 0x80 <= b <= 0xBF }

  /** Length of the well-formed sequence `b` starts with, 0 if there is none (the ABNF of section 4). */
  function SequenceLength(b: seq<byte>): (n: nat)
    ensures n <= 4 && n <= |b|
  {
    if |b| >= 1 && b[0] <= 0x7F then 1
    else if |b| >= 2 && 0xC2 <= b[0] <= 0xDF && Tail(b[1]) then 2
    else if |b| >= 3 && b[0] == 0xE0 && 0xA0 <= b[1] <= 0xBF && Tail(b[2]) then 3
    else if |b| >= 3 && (0xE1 <= b[0] <= 0xEC || 0xEE <= b[0] <= 0xEF) && Tail(b[1]) && Tail(b[2]) then 3
    else if |b| >= 3 && b[0] == 0xED && 0x80 <= b[1] <= 0x9F && Tail(b[2]) then 3
    else if |b| >= 4 && b[0] == 0xF0 && 0x90 <= b[1] <= 0xBF && Tail(b[2]) && Tail(b[3]) then 4
    else if |b| >= 4 && 0xF1 <= b[0] <= 0xF3 && Tail(b[1]) && Tail(b[2]) && Tail(b[3]) then 4
    else if |b| >= 4 && b[0] == 0xF4 && 0x80 <= b[1] <= 0x8F && Tail(b[2]) && Tail(b[3]) then 4
    else 0
  }

  function Payload(b: byte, mark: int): int { b - mark }

  /** The scalar value of a well-formed sequence: the payload bits of its bytes. */
  function SequenceValue(b: seq<byte>): scalar
    requires SequenceLength(b) > 0
  {
    match SequenceLength(b)
    case 1 => b[0]
    case 2 => Payload(b[0], 0xC0) * 64 + Payload(b[1], 0x80)
    case 3 => Payload(b[0], 0xE0) * 4096 + Payload(b[1], 0x80) * 64 + Payload(b[2], 0x80)
    case _ => Payload(b[0], 0xF0) * 262144 + Payload(b[1], 0x80) * 4096 + Payload(b[2], 0x80) * 64 + Payload(b[3], 0x80)
  }

  function DecodeUtf8(b: seq<byte>): Option<seq<scalar>> {
    if b == [] then Some([])
    else
      var n := SequenceLength(b);
      if n == 0 then None else Cons([SequenceValue(b)], DecodeUtf8(b[n..]))
  }

  function EncodeAll(cps: seq<scalar>): seq<byte>
  {
    if cps == [] then [] else Utf8(cps[0]) + EncodeAll(cps[1..])
  }

  lemma Utf8Splits(cp: scalar)
    ensures cp == cp / 64 * 64 + cp % 64
    ensures cp == cp / 4096 * 4096 + cp / 64 % 64 * 64 + cp % 64
    ensures cp == cp / 262144 * 262144 + cp / 4096 % 64 * 4096 + cp / 64 % 64 * 64 + cp % 64
  {
    assert cp / 4096 == cp / 64 / 64 && cp / 262144 == cp / 4096 / 64;
  }

  lemma Utf8WellFormed(cp: scalar)
    ensures SequenceLength(Utf8(cp)) == |Utf8(cp)|
    ensures SequenceValue(Utf8(cp)) == cp
  {
    Utf8Splits(cp);
  }

  /** Only the bytes of the sequence itself decide. */
  lemma LengthIsLocal(u: seq<byte>, rest: seq<byte>)
    requires SequenceLength(u) == |u| > 0
    ensures SequenceLength(u + rest) == |u| && SequenceValue(u + rest) == SequenceValue(u)
  {
    var b := u + rest;
    assert b[0] == u[0];
    assert |u| >= 2 ==> b[1] == u[1];
    assert |u| >= 3 ==> b[2] == u[2];
    assert |u| >= 4 ==> b[3] == u[3];
  }

  /** What the source writes for scalar values is well formed and reads back as those values. */
  lemma {:induction false} EncodingReadsBack(cps: seq<scalar>)
    ensures DecodeUtf8(EncodeAll(cps)) == Some(cps)
  {
    if cps != [] {
      hide Utf8, SequenceLength, SequenceValue;
      var rest := EncodeAll(cps[1..]);
      var b := Utf8(cps[0]) + rest;
      Utf8WellFormed(cps[0]);
      LengthIsLocal(Utf8(cps[0]), rest);
      EncodingReadsBack(cps[1..]);
      assert b[|Utf8(cps[0])|..] == rest;
      assert cps == [cps[0]] + cps[1..];
    }
  }

  /** Base-64 digits come back from the sum they make. */
  lemma DigitsOf(a: nat, b: nat, c: nat, d: nat)
    requires b < 64 && c < 64 && d < 64
    ensures var x := ((a * 64 + b) * 64 + c) * 64 + d;
            x / 262144 == a && x / 4096 % 64 == b && x / 64 % 64 == c && x % 64 == d
  {
    var x := ((a * 64 + b) * 64 + c) * 64 + d;
    assert x / 64 == (a * 64 + b) * 64 + c;
    assert x / 4096 == x / 64 / 64 == a * 64 + b;
    assert x / 262144 == x / 4096 / 64 == a;
  }

  /** The value of a well-formed sequence is in the range its length is for. */
  lemma SequenceRange(b: seq<byte>)
    requires SequenceLength(b) > 0
    ensures var n, v := SequenceLength(b), SequenceValue(b);
            && (n == 1 ==> v == b[0] < 0x80)
            && (n == 2 ==> 0 <= Payload(b[0], 0xC0) && Tail(b[1]) && 0x80 <= v < 0x800
                           && v == Payload(b[0], 0xC0) * 64 + Payload(b[1], 0x80))
            && (n == 3 ==> 0 <= Payload(b[0], 0xE0) < 64 && Tail(b[1]) && Tail(b[2]) && 0x800 <= v < 0x10000
                           && v == (Payload(b[0], 0xE0) * 64 + Payload(b[1], 0x80)) * 64 + Payload(b[2], 0x80))
            && (n == 4 ==> 0 <= Payload(b[0], 0xF0) && Tail(b[1]) && Tail(b[2]) && Tail(b[3]) && 0x10000 <= v
                           && v == ((Payload(b[0], 0xF0) * 64 + Payload(b[1], 0x80)) * 64 + Payload(b[2], 0x80)) * 64
                                   + Payload(b[3], 0x80))
  {
  }

  lemma SequenceIsUtf8(b: seq<byte>)
    requires SequenceLength(b) > 0
    ensures Utf8(SequenceValue(b)) == b[..SequenceLength(b)]
  {
    hide SequenceLength, SequenceValue;
    var n := SequenceLength(b);
    SequenceRange(b);
    if n == 2 {
      DigitsOf(0, 0, Payload(b[0], 0xC0), Payload(b[1], 0x80));
      assert b[..2] == [b[0], b[1]];
    } else if n >= 3 {
      LongSequenceIsUtf8(b);
    }
  }

  lemma LongSequenceIsUtf8(b: seq<byte>)
    requires SequenceLength(b) >= 3
    ensures Utf8(SequenceValue(b)) == b[..SequenceLength(b)]
  {
    hide SequenceLength, SequenceValue;
    SequenceRange(b);
    if SequenceLength(b) == 3 {
      DigitsOf(0, Payload(b[0], 0xE0), Payload(b[1], 0x80), Payload(b[2], 0x80));
      assert b[..3] == [b[0], b[1], b[2]];
    } else {
      DigitsOf(Payload(b[0], 0xF0), Payload(b[1], 0x80), Payload(b[2], 0x80), Payload(b[3], 0x80));
      assert b[..4] == [b[0], b[1], b[2], b[3]];
    }
  }

  lemma DecodeFirst(b: seq<byte>) returns (v: scalar, tail: seq<byte>)
    requires b != [] && DecodeUtf8(b).Some?
    ensures b == Utf8(v) + tail && |tail| < |b| && DecodeUtf8(tail).Some?
    ensures DecodeUtf8(b).value == [v] + DecodeUtf8(tail).value
  {
    hide SequenceLength, SequenceValue, Utf8;
    var n := SequenceLength(b);
    SequenceIsUtf8(b);
    v, tail := SequenceValue(b), b[n..];
    assert b == b[..n] + b[n..];
  }

  /** Every well-formed byte sequence is what the source would write for its scalar values. */
  lemma {:induction false} DecodingIsInjective(b: seq<byte>)
    requires DecodeUtf8(b).Some?
    ensures EncodeAll(DecodeUtf8(b).value) == b
    decreases |b|
  {
    if b != [] {
      hide Utf8, DecodeUtf8, EncodeAll;
      var v, tail := DecodeFirst(b);
      DecodingIsInjective(tail);
      EncodeFirst(DecodeUtf8(tail).value, v);
    }
  }

  // ----- string bodies

  /** One production of the string grammar: a scalar value, a two-character escape, or \uXXXX. */
  datatype Piece = Raw(cp: nat) | Short(letter: byte) | Hex(digits: seq<byte>)

  predicate ValidPiece(p: Piece) {
    match p
    case Raw(cp) => Scalar(cp) && cp != QUOTE && cp != BACKSLASH
    case Short(letter) => Unescape(letter).Some?
    case Hex(digits) => |digits| == 4 && forall k :: 0 <= k < 4 ==> HexDigit(digits[k]).Some?
  }

  type piece = p: Piece | ValidPiece(p) witness Raw(0)

  function PieceText(p: piece): seq<byte>
  {
    match p
    case Raw(cp) => Utf8(cp)
    case Short(letter) => [BACKSLASH, letter]
    case Hex(digits) => [BACKSLASH, LOWER_U] + digits
  }

  function Body(ps: seq<piece>): seq<byte>
  {
    if ps == [] then [] else PieceText(ps[0]) + Body(ps[1..])
  }

  function HexValue(p: piece): nat
    requires p.Hex?
  {
    var d := p.digits;
    HexDigit(d[0]).value * 4096 + HexDigit(d[1]).value * 256 + HexDigit(d[2]).value * 16 + HexDigit(d[3]).value
  }

  /** Decoding of a surrogate pair, RFC 2781 section 2.2. */
  function PairValue(w1: int, w2: int): scalar
    requires 0xD800 <= w1 <= 0xDBFF && 0xDC00 <= w2 <= 0xDFFF
  {
    (w1 - 0xD800) * 0x400 + (w2 - 0xDC00) + 0x10000
  }

  /** The scalar values a body denotes, None when a surrogate is not part of a pair. */
  function Denotes(ps: seq<piece>): Option<seq<scalar>>
    decreases |ps|
  {
    if ps == [] then Some([])
    else
      match ps[0]
      case Raw(cp) => Cons([cp], Denotes(ps[1..]))
      case Short(letter) => Cons([Unescape(letter).value], Denotes(ps[1..]))
      case Hex(_) =>
        var w1 := HexValue(ps[0]);
        if !(0xD800 <= w1 <= 0xDFFF) then Cons([w1], Denotes(ps[1..]))
        else if w1 <= 0xDBFF && |ps| > 1 && ps[1].Hex? && 0xDC00 <= HexValue(ps[1]) <= 0xDFFF then
          Cons([PairValue(w1, HexValue(ps[1]))], Denotes(ps[2..]))
        else None
  }

  /** The examples of section 7 of RFC 3629, and the pair of section 2.2 of RFC 2781. */
  lemma StandardExamples()
    ensures Utf8(0x41) == [0x41] && Utf8(0x2262) == [0xE2, 0x89, 0xA2] && Utf8(0x391) == [0xCE, 0x91]
    ensures Utf8(0xD55C) == [0xED, 0x95, 0x9C] && Utf8(0x65E5) == [0xE6, 0x97, 0xA5] && Utf8(0x233B4) == [0xF0, 0xA3, 0x8E, 0xB4]
    ensures Combine(0xD808, 0xDF45) == 0x12345 && PairValue(0xD808, 0xDF45) == 0x12345
  {
  }

  // ----- parse_string on such bodies

  lemma PlainRun(c: seq<byte>, p: nat, e: nat, n: nat)
    requires p + n <= e < |c|
    requires forall q :: p <= q < p + n ==> c[q] != QUOTE && c[q] != BACKSLASH
    ensures FindEnd(c, p) == FindEnd(c, p + n)
    ensures Decode(c, p, e) == Cons(c[p..p + n], Decode(c, p + n, e))
    decreases n
  {
    if n == 0 {
      ConsLaws([], [], Decode(c, p, e));
    } else {
      PlainRun(c, p + 1, e, n - 1);
      assert c[p..p + n] == [c[p]] + c[p + 1..p + n];
      ConsLaws([c[p]], c[p + 1..p + n], Decode(c, p + n, e));
    }
  }

  /** What the two passes see of a \uXXXX. */
  lemma HexPiece(c: seq<byte>, p: nat, h: piece)
    requires h.Hex? && At(c, p, PieceText(h))
    ensures p + 6 <= |c| && c[p] == BACKSLASH && c[p + 1] == LOWER_U && Hex4(c, p + 2) == HexValue(h)
    ensures |PieceText(h)| == 6 && FindEnd(c, p) == FindEnd(c, p + 6)
  {
    var t := PieceText(h);
    forall k | 0 <= k < 6
      ensures c[p + k] == t[k]
    {
      AtByte(c, p, t, k);
    }
    assert c[p] == t[0] && c[p + 1] == t[1];
    assert c[p + 2] == t[2] == h.digits[0] && c[p + 3] == t[3] == h.digits[1];
    assert c[p + 4] == t[4] == h.digits[2] && c[p + 5] == t[5] == h.digits[3];
    assert FindEnd(c, p + 5) == FindEnd(c, p + 6);
    assert FindEnd(c, p + 4) == FindEnd(c, p + 5);
    assert FindEnd(c, p + 3) == FindEnd(c, p + 4);
    assert FindEnd(c, p + 2) == FindEnd(c, p + 3);
    assert FindEnd(c, p) == FindEnd(c, p + 2);
  }

  lemma RawPiece(c: seq<byte>, p: nat, cp: nat, e: nat)
    requires ValidPiece(Raw(cp)) && At(c, p, Utf8(cp)) && p + |Utf8(cp)| <= e < |c|
    ensures FindEnd(c, p) == FindEnd(c, p + |Utf8(cp)|)
    ensures Decode(c, p, e) == Cons(Utf8(cp), Decode(c, p + |Utf8(cp)|, e))
  {
    hide FindEnd, Decode;
    var n := |Utf8(cp)|;
    forall q | p <= q < p + n
      ensures c[q] != QUOTE && c[q] != BACKSLASH
    {
      AtByte(c, p, Utf8(cp), q - p);
    }
    PlainRun(c, p, e, n);
    assert c[p..p + n] == Utf8(cp);
  }

  lemma ShortPiece(c: seq<byte>, p: nat, letter: byte, e: nat)
    requires ValidPiece(Short(letter)) && At(c, p, [BACKSLASH, letter]) && p + 2 <= e < |c|
    ensures FindEnd(c, p) == FindEnd(c, p + 2)
    ensures Decode(c, p, e) == Cons([Unescape(letter).value], Decode(c, p + 2, e))
  {
    AtByte(c, p, [BACKSLASH, letter], 0);
    AtByte(c, p, [BACKSLASH, letter], 1);
  }

  lemma NothingDecoded()
    ensures DecodesTo(None, None)
  {
  }

  lemma EmptyBody(c: seq<byte>, p: nat)
    requires p < |c|
    ensures Body([]) == []
    ensures c[p] == QUOTE ==> FindEnd(c, p) == p && DecodesTo(Decode(c, p, p), Denotes([]))
  {
  }

  lemma FirstPassPiece(c: seq<byte>, p: nat, x: piece)
    requires At(c, p, PieceText(x)) && p + |PieceText(x)| < |c|
    ensures FindEnd(c, p) == FindEnd(c, p + |PieceText(x)|)
  {
    hide At, FindEnd, Decode, Utf8;
    match x {
      case Raw(cp) => RawPiece(c, p, cp, p + |PieceText(x)|);
      case Short(letter) => ShortPiece(c, p, letter, p + 2);
      case Hex(_) => HexPiece(c, p, x);
    }
  }

  /** The first pass stops behind the last piece. */
  lemma {:induction false} FindsBodyEnd(c: seq<byte>, p: nat, ps: seq<piece>)
    requires At(c, p, Body(ps))
    requires p + |Body(ps)| < |c| && c[p + |Body(ps)|] == QUOTE
    ensures FindEnd(c, p) == p + |Body(ps)|
    decreases |ps|
  {
    hide At, FindEnd, PieceText, ValidPiece, Body;
    if ps == [] {
      EmptyBody(c, p);
    } else {
      BodyFirst(c, p, ps);
      FindsBodyEnd(c, p + |PieceText(ps[0])|, ps[1..]);
      FirstPassPiece(c, p, ps[0]);
    }
  }

  lemma PairArithmetic(w1: nat, w2: nat)
    requires HighSurrogate(w1) && LowSurrogate(w2)
    ensures Combine(w1, w2) == PairValue(w1, w2)
  {
  }

  /** A high surrogate is accepted exactly when a \u with a low surrogate follows. */
  lemma AfterHighSurrogate(c: seq<byte>, p: nat, e: nat, ps: seq<piece>)
    requires ps != [] && ps[0].Hex? && HighSurrogate(HexValue(ps[0]))
    requires At(c, p, Body(ps)) && e == p + |Body(ps)| && e < |c| && c[e] == QUOTE
    ensures var l := Utf16Literal(c, p, e);
            if |ps| > 1 && ps[1].Hex? && LowSurrogate(HexValue(ps[1]))
            then l == Literal(12, Combine(HexValue(ps[0]), HexValue(ps[1]))) && At(c, p + 12, Body(ps[2..])) && e == p + 12 + |Body(ps[2..])|
            else l.length == 0
  {
    hide At, FindEnd, Hex4, HexValue, Utf8;
    AtSplit(c, p, PieceText(ps[0]), Body(ps[1..]));
    HexPiece(c, p, ps[0]);
    if |ps| > 1 {
      var q := ps[1];
      AtSplit(c, p + 6, PieceText(q), Body(ps[1..][1..]));
      assert ps[1..][1..] == ps[2..];
      match q {
        case Raw(cp) => RawHead(c, p + 6, cp);
        case Short(letter) => AtByte(c, p + 6, PieceText(q), 1);
        case Hex(_) => HexPiece(c, p + 6, q);
      }
    }
  }

  lemma RawHead(c: seq<byte>, p: nat, cp: nat)
    requires ValidPiece(Raw(cp)) && At(c, p, Utf8(cp))
    ensures p < |c| && c[p] != BACKSLASH
  {
    AtByte(c, p, Utf8(cp), 0);
  }

  lemma EncodeFirst(cps: seq<scalar>, cp: scalar)
    ensures EncodeAll([cp] + cps) == Utf8(cp) + EncodeAll(cps)
  {
    assert ([cp] + cps)[1..] == cps;
  }

  ghost predicate DecodesTo(r: Option<seq<byte>>, scalars: Option<seq<scalar>>)
  {
    if scalars.None? then r.None? else r == Some(EncodeAll(scalars.value))
  }

  lemma DecodesOneMore(cp: scalar, r: Option<seq<byte>>, scalars: Option<seq<scalar>>)
    requires DecodesTo(r, scalars)
    ensures DecodesTo(Cons(Utf8(cp), r), Cons([cp], scalars))
  {
    if scalars.Some? {
      EncodeFirst(scalars.value, cp);
    }
  }

  /** The scalar a piece other than \uXXXX denotes. */
  function PlainScalar(x: piece): scalar
    requires !x.Hex?
  {
    match x
    case Raw(cp) => cp
    case Short(letter) => Unescape(letter).value
  }

  lemma PlainPiece(c: seq<byte>, p: nat, e: nat, x: piece)
    requires !x.Hex? && At(c, p, PieceText(x)) && p + |PieceText(x)| <= e < |c|
    ensures Decode(c, p, e) == Cons(Utf8(PlainScalar(x)), Decode(c, p + |PieceText(x)|, e))
  {
    hide At, FindEnd, Decode;
    match x {
      case Raw(cp) => RawPiece(c, p, cp, e);
      case Short(letter) => ShortPiece(c, p, letter, e);
    }
  }

  lemma DenotesPlain(ps: seq<piece>)
    requires ps != [] && !ps[0].Hex?
    ensures Denotes(ps) == Cons([PlainScalar(ps[0])], Denotes(ps[1..]))
  {
  }

  lemma PlainFirst(c: seq<byte>, p: nat, e: nat, ps: seq<piece>)
    requires ps != [] && !ps[0].Hex? && At(c, p, PieceText(ps[0])) && p + |PieceText(ps[0])| <= e < |c|
    requires DecodesTo(Decode(c, p + |PieceText(ps[0])|, e), Denotes(ps[1..]))
    ensures DecodesTo(Decode(c, p, e), Denotes(ps))
  {
    hide At, Utf8, DecodesTo, Decode, Denotes, PieceText, PlainScalar, ValidPiece;
    PlainPiece(c, p, e, ps[0]);
    DenotesPlain(ps);
    DecodesOneMore(PlainScalar(ps[0]), Decode(c, p + |PieceText(ps[0])|, e), Denotes(ps[1..]));
  }

  lemma BodyFirst(c: seq<byte>, p: nat, ps: seq<piece>)
    requires ps != [] && At(c, p, Body(ps))
    ensures At(c, p, PieceText(ps[0])) && At(c, p + |PieceText(ps[0])|, Body(ps[1..]))
    ensures |Body(ps)| == |PieceText(ps[0])| + |Body(ps[1..])|
  {
    hide At, PieceText, ValidPiece;
    AtSplit(c, p, PieceText(ps[0]), Body(ps[1..]));
  }

  lemma {:induction false} DecodesPieces(c: seq<byte>, p: nat, e: nat, ps: seq<piece>)
    requires At(c, p, Body(ps)) && e == p + |Body(ps)| && e < |c| && c[e] == QUOTE
    ensures DecodesTo(Decode(c, p, e), Denotes(ps))
    decreases |ps|
  {
    hide At, DecodesTo, Decode, Denotes, PieceText, ValidPiece, Body;
    if ps == [] {
      EmptyBody(c, p);
    } else if ps[0].Hex? {
      DecodesHex(c, p, e, ps);
    } else {
      BodyFirst(c, p, ps);
      DecodesPieces(c, p + |PieceText(ps[0])|, e, ps[1..]);
      PlainFirst(c, p, e, ps);
    }
  }

  lemma DecodeU(c: seq<byte>, p: nat, e: nat)
    requires p < e < |c| && c[p] == BACKSLASH && c[p + 1] == LOWER_U
    ensures var l := Utf16Literal(c, p, e);
            Decode(c, p, e) == if l.length == 0 then None else Cons(Utf8(l.cp), Decode(c, p + l.length, e))
  {
  }

  lemma LoneUnit(c: seq<byte>, p: nat, e: nat)
    requires p + 6 <= e <= |c| && !HighSurrogate(Hex4(c, p + 2))
    ensures var h := Hex4(c, p + 2);
            Utf16Literal(c, p, e) == if LowSurrogate(h) then Literal(0, 0) else Literal(6, h)
  {
  }

  lemma DenotesHex(ps: seq<piece>)
    requires ps != [] && ps[0].Hex?
    ensures var w1 := HexValue(ps[0]);
            && (LowSurrogate(w1) ==> Denotes(ps) == None)
            && (!LowSurrogate(w1) && !HighSurrogate(w1) ==> Denotes(ps) == Cons([w1], Denotes(ps[1..])))
            && (HighSurrogate(w1) ==>
                  if |ps| > 1 && ps[1].Hex? && LowSurrogate(HexValue(ps[1]))
                  then Denotes(ps) == Cons([PairValue(w1, HexValue(ps[1]))], Denotes(ps[2..]))
                  else Denotes(ps) == None)
  {
    hide HexValue, PairValue, Cons, ValidPiece;
  }

  lemma {:induction false} DecodesHex(c: seq<byte>, p: nat, e: nat, ps: seq<piece>)
    requires At(c, p, Body(ps)) && e == p + |Body(ps)| && e < |c| && c[e] == QUOTE
    requires ps != [] && ps[0].Hex?
    ensures DecodesTo(Decode(c, p, e), Denotes(ps))
    decreases |ps|, 0
  {
    hide At, FindEnd, Utf8, HexValue, Combine, PairValue, Decode, Denotes, Utf16Literal, Hex4, ValidPiece, DecodesTo;
    AtSplit(c, p, PieceText(ps[0]), Body(ps[1..]));
    HexPiece(c, p, ps[0]);
    DecodeU(c, p, e);
    DenotesHex(ps);
    var w1 := HexValue(ps[0]);
    NothingDecoded();
    if HighSurrogate(w1) {
      AfterHighSurrogate(c, p, e, ps);
      if |ps| > 1 && ps[1].Hex? && LowSurrogate(HexValue(ps[1])) {
        PairArithmetic(w1, HexValue(ps[1]));
        DecodesPieces(c, p + 12, e, ps[2..]);
        DecodesOneMore(Combine(w1, HexValue(ps[1])), Decode(c, p + 12, e), Denotes(ps[2..]));
      }
    } else {
      LoneUnit(c, p, e);
      if !LowSurrogate(w1) {
        DecodesPieces(c, p + 6, e, ps[1..]);
        DecodesOneMore(w1, Decode(c, p + 6, e), Denotes(ps[1..]));
      }
    }
  }

  lemma {:induction false} NoZeroByte(cps: seq<scalar>)
    requires 0 !in cps
    ensures NulFree(EncodeAll(cps))
  {
    if cps != [] {
      NoZeroByte(cps[1..]);
    }
  }

  /**
   * A string literal whose body is any sequence of UTF-8 encoded scalar values, short escapes and \uXXXX
   * is rejected exactly when a surrogate stands alone; otherwise the bytes written are well-formed UTF-8
   * for exactly the scalar values denoted, and without \u0000 they are the whole C string.
   */
  lemma StringsDecode(c: seq<byte>, i: nat, ps: seq<piece>)
    requires i < |c| && c[i] == QUOTE && At(c, i + 1, Body(ps))
    requires i + 1 + |Body(ps)| < |c| && c[i + 1 + |Body(ps)|] == QUOTE
    ensures Denotes(ps).None? <==> ParseString(c, i).Fail?
    ensures Denotes(ps).Some? ==>
              var out := Decode(c, i + 1, i + 1 + |Body(ps)|);
              && out.Some? && DecodeUtf8(out.value) == Denotes(ps)
              && ParseString(c, i) == Ok(CStr(out.value), i + 1 + |Body(ps)| + 1)
              && (0 !in Denotes(ps).value ==> CStr(out.value) == out.value)
  {
    hide At, Body, Decode, FindEnd;
    var e := i + 1 + |Body(ps)|;
    FindsBodyEnd(c, i + 1, ps);
    DecodesPieces(c, i + 1, e, ps);
    if Denotes(ps).Some? {
      EncodingReadsBack(Denotes(ps).value);
      if 0 !in Denotes(ps).value {
        NoZeroByte(Denotes(ps).value);
      }
    }
  }
}
