/** Bytes of C strings, and the position predicate the JSON proofs are phrased in. */
module Bytes {

  type byte = b: int | 0 <= b < 256

  const NUL: byte := 0
  const BACKSPACE: byte := 8
  const TAB: byte := 9
  const NEWLINE: byte := 10
  const FORMFEED: byte := 12
  const RETURN: byte := 13
  const SPACE: byte := 32
  const QUOTE: byte := 34
  const STAR: byte := 42
  const PLUS: byte := 43
  const COMMA: byte := 44
  const MINUS: byte := 45
  const DOT: byte := 46
  const SLASH: byte := 47
  const ZERO: byte := 48
  const COLON: byte := 58
  const UPPER_E: byte := 69
  const LBRACKET: byte := 91
  const BACKSLASH: byte := 92
  const RBRACKET: byte := 93
  const LOWER_B: byte := 98
  const LOWER_E: byte := 101
  const LOWER_F: byte := 102
  const LOWER_N: byte := 110
  const LOWER_R: byte := 114
  const LOWER_T: byte := 116
  const LOWER_U: byte := 117
  const LBRACE: byte := 123
  const RBRACE: byte := 125

  const NULL_TEXT: seq<byte> := [110, 117, 108, 108]
  const FALSE_TEXT: seq<byte> := [102, 97, 108, 115, 101]
  const TRUE_TEXT: seq<byte> := [116, 114, 117, 101]

  datatype Option<+T> = None | Some(value: T)

  ghost predicate NulFree(s: seq<byte>) {
    forall i :: 0 <= i < |s| ==> s[i] != NUL
  }

  /** The bytes a C reader sees: everything before the first NUL. */
  function CStr(s: seq<byte>): (r: seq<byte>)
    ensures NulFree(r)
    ensures r <= s
    ensures |r| < |s| ==> s[|r|] == NUL
  {
    if s == [] || s[0] == NUL then [] else [s[0]] + CStr(s[1..])
  }

  /** strlen of a buffer that holds `s` followed by a NUL. */
  lemma CStrStops(s: seq<byte>, k: nat)
    requires k < |s| && s[k] == NUL
    requires forall i :: 0 <= i < k ==> s[i] != NUL
    ensures CStr(s) == s[..k]
  {
    if k > 0 {
      CStrStops(s[1..], k - 1);
    }
  }

  lemma CStrWhole(s: seq<byte>)
    requires NulFree(s)
    ensures CStr(s) == s
  {
  }

  /** A buffer that holds a text without NUL and its terminator is that C string. */
  lemma TextIsCStr(b: seq<byte>, t: seq<byte>)
    requires |t| < |b| && b[..|t|] == t && b[|t|] == NUL && NulFree(t)
    ensures CStr(b) == t
  {
    CStrStops(b, |t|);
  }

  /** `s` stands in `c` from position `i` on. */
  predicate At(c: seq<byte>, i: nat, s: seq<byte>) {
    i + |s| <= |c| && forall k :: 0 <= k < |s| ==> c[i + k] == s[k]
  }

  lemma AtSplit(c: seq<byte>, i: nat, a: seq<byte>, b: seq<byte>)
    ensures At(c, i, a + b) <==> At(c, i, a) && At(c, i + |a|, b)
  {
    var s := a + b;
    if At(c, i, s) {
      forall k | 0 <= k < |a|
        ensures c[i + k] == a[k]
      {
        assert s[k] == a[k];
      }
      forall k | 0 <= k < |b|
        ensures c[i + |a| + k] == b[k]
      {
        assert s[|a| + k] == b[k];
      }
    }
    if At(c, i, a) && At(c, i + |a|, b) {
      forall k | 0 <= k < |s|
        ensures c[i + k] == s[k]
      {
        if k >= |a| {
          assert c[i + |a| + (k - |a|)] == b[k - |a|];
        }
      }
    }
  }

  lemma AtByte(c: seq<byte>, i: nat, s: seq<byte>, k: nat)
    requires At(c, i, s) && k < |s|
    ensures i + |s| <= |c| && c[i + k] == s[k]
  {
  }
}
