/** JSON values and the text the cJSON printers give them. */
module JsonText {
  import opened Bytes

  const MAX_EXACT: int := 0x20_0000_0000_0000   // 2^53

  datatype Json =
    | Null
    | False
    | True
    | Num(n: int)
    | Str(s: seq<byte>)
    | Arr(items: seq<Json>)
    | Obj(members: seq<Member>)

  datatype Member = Member(key: seq<byte>, value: Json)

  /** Values cJSON holds exactly, with at most `levels` arrays and objects around one another. */
  ghost predicate Fits(v: Json, levels: int) {
    match v
    case Null => true
    case False => true
    case True => true
    case Num(n) => -MAX_EXACT <= n <= MAX_EXACT
    case Str(s) => NulFree(s)
    case Arr(items) => levels > 0 && forall x :: x in items ==> Fits(x, levels - 1)
    case Obj(members) =>
      levels > 0 && forall m :: m in members ==> NulFree(m.key) && Fits(m.value, levels - 1)
  }

  /** The same without the nesting limit: what the printers are handed. */
  ghost predicate Printable(v: Json) {
    match v
    case Num(n) => -MAX_EXACT <= n <= MAX_EXACT
    case Str(s) => NulFree(s)
    case Arr(items) => forall x :: x in items ==> Printable(x)
    case Obj(members) => forall m :: m in members ==> NulFree(m.key) && Printable(m.value)
    case _ => true
  }

  /** All numbers are among those this model prints and parses as the source does. */
  ghost predicate ExactNumbers(v: Json) {
    match v
    case Num(n) => -MAX_EXACT <= n <= MAX_EXACT
    case Arr(items) => forall x :: x in items ==> ExactNumbers(x)
    case Obj(members) => forall m :: m in members ==> ExactNumbers(m.value)
    case _ => true
  }

  // ----- numbers: "%lld" of an integral double

  function Digits(n: nat): seq<byte> {
    if n < 10 then [ZERO + n] else Digits(n / 10) + [ZERO + n % 10]
  }

  function Decimal(n: int): seq<byte> {
    if n < 0 then [MINUS] + Digits(-n) else Digits(n)
  }

  // ----- strings

  function HexLow(d: nat): byte
    requires d < 16
  {
    if d < 10 then ZERO + d else 87 + d
  }

  function EscapeByte(b: byte): seq<byte> {
    if b > 31 && b != QUOTE && b != BACKSLASH then [b]
    else if b == BACKSLASH then [BACKSLASH, BACKSLASH]
    else if b == QUOTE then [BACKSLASH, QUOTE]
    else if b == BACKSPACE then [BACKSLASH, LOWER_B]
    else if b == FORMFEED then [BACKSLASH, LOWER_F]
    else if b == NEWLINE then [BACKSLASH, LOWER_N]
    else if b == RETURN then [BACKSLASH, LOWER_R]
    else if b == TAB then [BACKSLASH, LOWER_T]
    else [BACKSLASH, LOWER_U, ZERO, ZERO, HexLow(b / 16), HexLow(b % 16)]
  }

  function Escape(s: seq<byte>): seq<byte> {
    if s == [] then [] else EscapeByte(s[0]) + Escape(s[1..])
  }

  function StringText(s: seq<byte>): seq<byte> {
    [QUOTE] + Escape(s) + [QUOTE]
  }

  // ----- values; `fmt` is the pretty form, `depth` the nesting the printer has reached

  function Tabs(n: nat): (t: seq<byte>)
    ensures |t| == n
    ensures forall i :: 0 <= i < n ==> t[i] == TAB
  {
    seq(n, _ => TAB)
  }

  ghost predicate Blank(s: seq<byte>) {
    forall i :: 0 <= i < |s| ==> s[i] <= 32
  }

  function Indent(fmt: bool, depth: nat): (r: seq<byte>)
    ensures Blank(r) && forall i :: 0 <= i < |r| ==> r[i] == TAB
  {
    if fmt then Tabs(depth) else []
  }

  function LineEnd(fmt: bool): (r: seq<byte>)
    ensures Blank(r)
  {
    if fmt then [NEWLINE] else []
  }

  function ItemSep(fmt: bool): (r: seq<byte>)
    ensures |r| > 0 && r[0] == COMMA && Blank(r[1..])
  {
    if fmt then [COMMA, SPACE] else [COMMA]
  }

  function KeySep(fmt: bool): (r: seq<byte>)
    ensures |r| > 0 && r[0] == COLON && Blank(r[1..])
  {
    if fmt then [COLON, TAB] else [COLON]
  }

  function MemberSep(fmt: bool, more: bool): seq<byte> { (if more then [COMMA] else []) + LineEnd(fmt) }

  function Text(v: Json, fmt: bool, depth: nat): seq<byte>
    decreases v, 1
  {
    match v
    case Null => NULL_TEXT
    case False => FALSE_TEXT
    case True => TRUE_TEXT
    case Num(n) => Decimal(n)
    case Str(s) => StringText(s)
    case Arr(items) => [LBRACKET] + ItemsText(items, fmt, depth + 1) + [RBRACKET]
    case Obj(members) =>
      ([LBRACE] + LineEnd(fmt)) + MembersText(members, fmt, depth + 1) + (Indent(fmt, depth) + [RBRACE])
  }

  function ItemsText(items: seq<Json>, fmt: bool, depth: nat): seq<byte>
    decreases items, 0
  {
    if items == [] then []
    else if |items| == 1 then Text(items[0], fmt, depth)
    else Text(items[0], fmt, depth) + (ItemSep(fmt) + ItemsText(items[1..], fmt, depth))
  }

  function MemberHead(m: Member, fmt: bool, depth: nat): seq<byte> {
    Indent(fmt, depth) + (StringText(m.key) + KeySep(fmt))
  }

  function MembersText(members: seq<Member>, fmt: bool, depth: nat): seq<byte>
    decreases members, 0
  {
    if members == [] then []
    else MemberHead(members[0], fmt, depth)
         + (Text(members[0].value, fmt, depth)
            + (MemberSep(fmt, |members| > 1) + MembersText(members[1..], fmt, depth)))
  }

  function Compact(v: Json): seq<byte> { Text(v, false, 0) }
  function Pretty(v: Json): seq<byte> { Text(v, true, 0) }
}
