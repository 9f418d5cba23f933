/**
 * cJSON_Compare. Its meaning on values is Alike; what it is meant to decide is Equiv, equality up to the order of
 * object members. On values whose objects have pairwise distinct keys, Equiv implies Alike, and the two agree when all
 * numbers are below 2^52. A value is Alike itself exactly when it is Consistent, and of such values Alike decides whether
 * their Firsts, with repeated members dropped, are equal.
 */
module Compare {
  import opened Bytes
  import opened JsonText
  import opened ChildList

  const EPSILON_INVERSE: int := 0x10_0000_0000_0000   // 1 / DBL_EPSILON = 2^52

  // ----- numbers

  function Abs(n: int): nat { if n < 0 then -n else n }

  function Larger(a: int, b: int): nat { if Abs(a) > Abs(b) then Abs(a) else Abs(b) }

  /** compare_double: |a - b| <= max(|a|, |b|) * DBL_EPSILON. */
  predicate NumEq(a: int, b: int) {
    Abs(a - b) * EPSILON_INVERSE <= Larger(a, b)
  }

  /** Integers cJSON holds exactly are told apart as long as both stay below 2^52, and not always from there on. */
  lemma NumbersToldApart(a: int, b: int)
    requires Abs(a) <= MAX_EXACT && Abs(b) <= MAX_EXACT
    ensures NumEq(a, b) <==>
            || a == b
            || (Larger(a, b) >= 0x10_0000_0000_0000 && Abs(a - b) == 1) || (Larger(a, b) == 0x20_0000_0000_0000 && Abs(a - b) == 2)
    ensures NumEq(0x10_0000_0000_0000, 0x10_0000_0000_0001) && !NumEq(0xF_FFFF_FFFF_FFFE, 0xF_FFFF_FFFF_FFFF)
  {
    if Abs(a - b) >= 3 {
      assert Abs(a - b) * EPSILON_INVERSE >= 3 * EPSILON_INVERSE;
    }
  }

  // ----- keys

  /** tolower in the C locale. */
  function Lower(b: byte): byte {
    if 65 <= b <= 90 then b + 32 else b
  }

  /** Two bytes are lowered alike only if they are the same or the two cases of one letter. */
  lemma LowerIs(a: byte, b: byte)
    ensures Lower(a) == Lower(b) <==>
            a == b || ('A' as int <= a <= 'Z' as int && b - a == 'a' as int - 'A' as int)
                   || ('A' as int <= b <= 'Z' as int && a - b == 'a' as int - 'A' as int)
  {
  }

  function Lowered(s: seq<byte>): seq<byte> {
    seq(|s|, i requires 0 <= i < |s| => Lower(s[i]))
  }

  predicate SameKey(k: seq<byte>, l: seq<byte>, caseSensitive: bool) {
    if caseSensitive then k == l else Lowered(k) == Lowered(l)
  }

  /** The byte a C reader finds at position `i` of a string and its terminator. */
  function CharAt(s: seq<byte>, i: nat): byte {
    if i < |s| then s[i] else NUL
  }

  lemma LoweredDiffer(s: seq<byte>, t: seq<byte>, i: nat)
    requires NulFree(s) && NulFree(t) && i <= |s| && i <= |t|
    requires Lower(CharAt(s, i)) != Lower(CharAt(t, i))
    ensures Lowered(s) != Lowered(t)
  {
    if |s| != |t| {
      assert |Lowered(s)| != |Lowered(t)|;
    } else {
      assert Lowered(s)[i] != Lowered(t)[i];
    }
  }

  /** case_insensitive_strcmp. */
  method CaseInsensitiveStrcmp(s: seq<byte>, t: seq<byte>) returns (r: int)
    requires NulFree(s) && NulFree(t)
    ensures r == 0 <==> Lowered(s) == Lowered(t)
  {
    var i: nat := 0;
    while Lower(CharAt(s, i)) == Lower(CharAt(t, i))
      invariant i <= |s| && i <= |t|
      invariant forall k :: 0 <= k < i ==> Lower(s[k]) == Lower(t[k])
      decreases |s| - i
    {
      if CharAt(s, i) == NUL {
        assert i == |s| == |t|;
        return 0;
      }
      i := i + 1;
    }
    LoweredDiffer(s, t, i);
    r := Lower(CharAt(s, i)) - Lower(CharAt(t, i));
  }

  /** The first member with this key, or the number of members. */
  function Find(members: seq<Member>, key: seq<byte>, caseSensitive: bool): (r: nat)
    ensures r <= |members|
    ensures r < |members| ==> SameKey(key, members[r].key, caseSensitive)
    ensures forall i :: 0 <= i < r ==> !SameKey(key, members[i].key, caseSensitive)
  {
    if members == [] || SameKey(key, members[0].key, caseSensitive) then 0 else 1 + Find(members[1..], key, caseSensitive)
  }

  // ----- what cJSON_Compare decides

  function Height(v: Json): nat {
    match v
    case Arr(items) => 1 + ItemsHeight(items)
    case Obj(members) => 1 + MembersHeight(members)
    case _ => 0
  }

  function ItemsHeight(items: seq<Json>): (h: nat)
    ensures forall i :: 0 <= i < |items| ==> Height(items[i]) <= h
  {
    if items == [] then 0
    else var rest := ItemsHeight(items[1..]); if Height(items[0]) > rest then Height(items[0]) else rest
  }

  function MembersHeight(members: seq<Member>): (h: nat)
    ensures forall i :: 0 <= i < |members| ==> Height(members[i].value) <= h
  {
    if members == [] then 0
    else var rest := MembersHeight(members[1..]); if Height(members[0].value) > rest then Height(members[0].value) else rest
  }

  ghost predicate Alike(a: Json, b: Json, caseSensitive: bool)
    decreases Height(a) + Height(b), 1
  {
    match (a, b)
    case (Num(m), Num(n)) => NumEq(m, n)
    case (Str(s), Str(t)) => s == t
    case (Arr(xs), Arr(ys)) =>
      |xs| == |ys| && forall i :: 0 <= i < |xs| ==> Alike(xs[i], ys[i], caseSensitive)
    case (Obj(ms), Obj(ns)) => Covers(ms, ns, caseSensitive) && Covers(ns, ms, caseSensitive)
    case _ => a == b
  }

  /** Every member of `ms` is like the first one of `ns` with its key. */
  ghost predicate Covers(ms: seq<Member>, ns: seq<Member>, caseSensitive: bool)
    decreases MembersHeight(ms) + MembersHeight(ns) + 2, 0
  {
    forall i :: 0 <= i < |ms| ==> CoversOne(ms[i], ns, caseSensitive)
  }

  ghost predicate CoversOne(m: Member, ns: seq<Member>, caseSensitive: bool)
    decreases Height(m.value) + MembersHeight(ns) + 1, 0
  {
    var j := Find(ns, m.key, caseSensitive);
    j < |ns| && Alike(m.value, ns[j].value, caseSensitive)
  }

  lemma {:induction false} AlikeIsSymmetric(a: Json, b: Json, caseSensitive: bool)
    ensures Alike(a, b, caseSensitive) == Alike(b, a, caseSensitive)
    decreases a
  {
    match (a, b)
    case (Arr(xs), Arr(ys)) =>
      if |xs| == |ys| {
        forall i | 0 <= i < |xs| ensures Alike(xs[i], ys[i], caseSensitive) == Alike(ys[i], xs[i], caseSensitive) {
          AlikeIsSymmetric(xs[i], ys[i], caseSensitive);
        }
      }
    case _ =>
  }

  // ----- what it is meant to decide

  ghost predicate Permutation(p: seq<nat>, n: nat) {
    |p| == n && (forall i :: 0 <= i < n ==> p[i] < n) && forall i, j :: 0 <= i < j < n ==> p[i] != p[j]
  }

  /** Equal but for the order of members and, when it does not count, the case of keys. */
  ghost predicate Equiv(a: Json, b: Json, caseSensitive: bool)
    decreases a
  {
    match (a, b)
    case (Num(m), Num(n)) => m == n
    case (Str(s), Str(t)) => s == t
    case (Arr(xs), Arr(ys)) =>
      |xs| == |ys| && forall i :: 0 <= i < |xs| ==> Equiv(xs[i], ys[i], caseSensitive)
    case (Obj(ms), Obj(ns)) =>
      |ms| == |ns| && exists p :: Permutation(p, |ms|) && Paired(ms, ns, p, caseSensitive)
    case _ => a == b
  }

  ghost predicate Paired(ms: seq<Member>, ns: seq<Member>, p: seq<nat>, caseSensitive: bool)
    requires |ms| == |ns| == |p| && forall i :: 0 <= i < |p| ==> p[i] < |p|
    decreases ms, 0
  {
    forall i :: 0 <= i < |ms| ==>
      SameKey(ms[i].key, ns[p[i]].key, caseSensitive) && Equiv(ms[i].value, ns[p[i]].value, caseSensitive)
  }

  ghost predicate KeysDiffer(ms: seq<Member>, caseSensitive: bool) {
    forall i, j :: 0 <= i < j < |ms| ==> !SameKey(ms[i].key, ms[j].key, caseSensitive)
  }

  ghost predicate DistinctKeys(v: Json, caseSensitive: bool) {
    match v
    case Arr(items) => forall i :: 0 <= i < |items| ==> DistinctKeys(items[i], caseSensitive)
    case Obj(members) =>
      && KeysDiffer(members, caseSensitive)
      && (forall i :: 0 <= i < |members| ==> DistinctKeys(members[i].value, caseSensitive))
    case _ => true
  }

  /** Every number is below 2^52. */
  ghost predicate Small(v: Json) {
    match v
    case Num(n) => Abs(n) < EPSILON_INVERSE
    case Arr(items) => forall i :: 0 <= i < |items| ==> Small(items[i])
    case Obj(members) => forall i :: 0 <= i < |members| ==> Small(members[i].value)
    case _ => true
  }

  // ----- what equality up to order comes to

  ghost predicate NoObjects(v: Json) {
    match v
    case Arr(items) => forall i :: 0 <= i < |items| ==> NoObjects(items[i])
    case Obj(_) => false
    case _ => true
  }

  /** Without objects it is equality. */
  lemma {:induction false} EquivIsEquality(a: Json, b: Json, caseSensitive: bool)
    requires NoObjects(a)
    ensures Equiv(a, b, caseSensitive) <==> a == b
    decreases a
  {
    match (a, b)
    case (Arr(xs), Arr(ys)) =>
      if |xs| == |ys| {
        forall i | 0 <= i < |xs| ensures Equiv(xs[i], ys[i], caseSensitive) <==> xs[i] == ys[i] {
          EquivIsEquality(xs[i], ys[i], caseSensitive);
        }
        assert xs == ys <==> forall i :: 0 <= i < |xs| ==> xs[i] == ys[i];
      }
    case _ =>
  }

  /** Objects of such values are equal exactly if they have the same members, as often. */
  lemma EquivOfMembers(ms: seq<Member>, ns: seq<Member>)
    requires forall i :: 0 <= i < |ms| ==> NoObjects(ms[i].value)
    ensures Equiv(Obj(ms), Obj(ns), true) <==> multiset(ms) == multiset(ns)
  {
    forall i, j | 0 <= i < |ms| && 0 <= j < |ns| ensures Equiv(ms[i].value, ns[j].value, true) <==> ms[i].value == ns[j].value {
      EquivIsEquality(ms[i].value, ns[j].value, true);
    }
    if multiset(ms) == multiset(ns) {
      var p := Rearranged(ms, ns);
      assert Paired(ms, ns, p, true);
    }
    if Equiv(Obj(ms), Obj(ns), true) {
      var p :| Permutation(p, |ms|) && Paired(ms, ns, p, true);
      forall i | 0 <= i < |ms| ensures ms[i] == ns[p[i]] {
        assert SameKey(ms[i].key, ns[p[i]].key, true) && Equiv(ms[i].value, ns[p[i]].value, true);
      }
      SameMembers(ms, ns, p);
    }
  }

  /** Keys that differ only in case are told apart when case counts, and only then. */
  lemma EquivOfKeys(k: seq<byte>, l: seq<byte>, caseSensitive: bool)
    ensures Equiv(Obj([Member(k, Null)]), Obj([Member(l, Null)]), caseSensitive) <==>
            k == l || (!caseSensitive && Lowered(k) == Lowered(l))
  {
    var ms, ns := [Member(k, Null)], [Member(l, Null)];
    if SameKey(k, l, caseSensitive) {
      assert Permutation([0], 1) && Paired(ms, ns, [0], caseSensitive);
    }
    if Equiv(Obj(ms), Obj(ns), caseSensitive) {
      var p :| Permutation(p, |ms|) && Paired(ms, ns, p, caseSensitive);
      assert p[0] == 0;
    }
  }

  function Dropped<T>(s: seq<T>, k: nat): seq<T>
    requires k < |s|
  {
    s[..k] + s[k + 1..]
  }

  lemma DroppedOne<T>(s: seq<T>, k: nat)
    requires k < |s|
    ensures multiset(Dropped(s, k)) + multiset{s[k]} == multiset(s) && |Dropped(s, k)| == |s| - 1
    ensures forall i :: 0 <= i < |s| - 1 ==> Dropped(s, k)[i] == s[if i < k then i else i + 1]
  {
    assert s == s[..k] + [s[k]] + s[k + 1..];
  }

  lemma {:induction false} Rearranged(ms: seq<Member>, ns: seq<Member>) returns (p: seq<nat>)
    requires multiset(ms) == multiset(ns)
    ensures |ms| == |ns| && Permutation(p, |ms|) && forall i :: 0 <= i < |ms| ==> ms[i] == ns[p[i]]
  {
    assert |multiset(ms)| == |ms| && |multiset(ns)| == |ns|;
    if ms == [] {
      p := [];
    } else {
      var k := Where(ms, ns);
      hide Permutation, Dropped;
      var q := Rearranged(ms[1..], Dropped(ns, k));
      p := PutFirst(ms, ns, k, q);
    }
  }

  /** Where the first member of the one stands in the other, and that the rest of both is the same. */
  lemma Where(ms: seq<Member>, ns: seq<Member>) returns (k: nat)
    requires ms != [] && multiset(ms) == multiset(ns)
    ensures k < |ns| && ns[k] == ms[0] && multiset(ms[1..]) == multiset(Dropped(ns, k))
  {
    assert ms[0] in multiset(ns);
    k :| k < |ns| && ns[k] == ms[0];
    DroppedOne(ms, 0);
    DroppedOne(ns, k);
    assert Dropped(ms, 0) == ms[1..];
    assert multiset(ms[1..]) == multiset(ms) - multiset{ms[0]} == multiset(Dropped(ns, k));
  }

  lemma PutFirst(ms: seq<Member>, ns: seq<Member>, k: nat, q: seq<nat>) returns (p: seq<nat>)
    requires ms != [] && |ms| == |ns| && k < |ns| && ns[k] == ms[0]
    requires Permutation(q, |ms| - 1) && forall i :: 0 <= i < |ms| - 1 ==> ms[1..][i] == Dropped(ns, k)[q[i]]
    ensures Permutation(p, |ms|) && forall i :: 0 <= i < |ms| ==> ms[i] == ns[p[i]]
  {
    DroppedOne(ns, k);
    hide Dropped;
    p := [k] + seq(|q|, i requires 0 <= i < |q| => if q[i] < k then q[i] else q[i] + 1);
    forall i | 0 <= i < |ms| ensures ms[i] == ns[p[i]] {
      if i > 0 {
        assert ms[i] == ms[1..][i - 1] == Dropped(ns, k)[q[i - 1]];
      }
    }
  }

  /** A permutation behind its first place, with the places above that one moved down. */
  function Tail(p: seq<nat>): seq<nat>
    requires p != [] && Permutation(p, |p|)
  {
    seq(|p| - 1, i requires 0 <= i < |p| - 1 => if p[i + 1] < p[0] || p[i + 1] == 0 then p[i + 1] else p[i + 1] - 1)
  }

  lemma TailPermutes(p: seq<nat>)
    requires p != [] && Permutation(p, |p|)
    ensures Permutation(Tail(p), |p| - 1)
    ensures forall i :: 0 <= i < |p| - 1 ==> p[i + 1] == if Tail(p)[i] < p[0] then Tail(p)[i] else Tail(p)[i] + 1
  {
    var q := Tail(p);
    forall i | 0 <= i < |q| ensures q[i] < |q| && p[i + 1] == if q[i] < p[0] then q[i] else q[i] + 1 {
      assert p[0] != p[i + 1] && p[0] < |p| && p[i + 1] < |p|;
    }
    forall i, j | 0 <= i < j < |q| ensures q[i] != q[j] {
      assert p[i + 1] != p[j + 1];
    }
  }

  lemma {:induction false} SameMembers(ms: seq<Member>, ns: seq<Member>, p: seq<nat>)
    requires |ms| == |ns| && Permutation(p, |ms|) && forall i :: 0 <= i < |ms| ==> ms[i] == ns[p[i]]
    ensures multiset(ms) == multiset(ns)
  {
    if ms != [] {
      DroppedOne(ms, 0);
      DroppedOne(ns, p[0]);
      TailPermutes(p);
      assert Dropped(ms, 0) == ms[1..];
      hide Dropped, Tail, Permutation;
      forall i | 0 <= i < |ms| - 1 ensures ms[1..][i] == Dropped(ns, p[0])[Tail(p)[i]] {
        assert ms[1..][i] == ms[i + 1] == ns[p[i + 1]];
      }
      SameMembers(ms[1..], Dropped(ns, p[0]), Tail(p));
    }
  }

  // ----- pigeonholes

  lemma {:induction false} Pigeonhole(p: seq<nat>, n: nat)
    requires forall i :: 0 <= i < |p| ==> p[i] < n
    requires forall i, j :: 0 <= i < j < |p| ==> p[i] != p[j]
    ensures |p| <= n
    ensures |p| == n ==> forall k :: 0 <= k < n ==> k in p
    decreases n
  {
    if p != [] {
      assert p[0] < n;
      if k: nat :| k < |p| && p[k] == n - 1 {
        var q := p[..k] + p[k + 1..];
        assert forall i :: 0 <= i < |q| ==> q[i] == p[if i < k then i else i + 1];
        Pigeonhole(q, n - 1);
        assert forall x :: x in q ==> x in p;
      } else {
        Pigeonhole(p, n - 1);
      }
    }
  }

  // ----- the theorem

  /** With distinct keys, looking up a key some member has finds that member. */
  lemma FindsIt(ns: seq<Member>, j: nat, key: seq<byte>, caseSensitive: bool)
    requires j < |ns| && SameKey(key, ns[j].key, caseSensitive) && KeysDiffer(ns, caseSensitive)
    ensures Find(ns, key, caseSensitive) == j
  {
    var f := Find(ns, key, caseSensitive);
    assert SameKey(key, ns[f].key, caseSensitive);
    assert SameKey(ns[f].key, ns[j].key, caseSensitive);
  }

  /** Where the keys of `ms` are found in `ns`: an injection, when the keys of `ms` differ. */
  lemma Injection(ms: seq<Member>, ns: seq<Member>, caseSensitive: bool) returns (p: seq<nat>)
    requires Covers(ms, ns, caseSensitive) && KeysDiffer(ms, caseSensitive)
    ensures |p| == |ms| && forall i :: 0 <= i < |p| ==> p[i] < |ns| && p[i] == Find(ns, ms[i].key, caseSensitive)
    ensures forall i, j :: 0 <= i < j < |p| ==> p[i] != p[j]
    ensures |ms| <= |ns|
  {
    p := seq(|ms|, i requires 0 <= i < |ms| => Find(ns, ms[i].key, caseSensitive));
    forall i | 0 <= i < |p| ensures p[i] < |ns| {
      assert CoversOne(ms[i], ns, caseSensitive);
    }
    forall i, j | 0 <= i < j < |p| ensures p[i] != p[j] {
      assert !SameKey(ms[i].key, ms[j].key, caseSensitive);
    }
    Pigeonhole(p, |ns|);
  }

  /** Equal trees compare equal; trees that compare equal are equal, unless they hold numbers from 2^52 on. */
  lemma {:induction false} AlikeIsEquiv(a: Json, b: Json, caseSensitive: bool)
    requires DistinctKeys(a, caseSensitive) && DistinctKeys(b, caseSensitive)
    ensures Equiv(a, b, caseSensitive) ==> Alike(a, b, caseSensitive)
    ensures Small(a) && Small(b) && Alike(a, b, caseSensitive) ==> Equiv(a, b, caseSensitive)
    decreases a
  {
    match (a, b)
    case (Num(m), Num(n)) =>
      if Small(a) && Small(b) { NumbersToldApart(m, n); }
    case (Arr(xs), Arr(ys)) =>
      if |xs| == |ys| {
        forall i | 0 <= i < |xs|
          ensures Equiv(xs[i], ys[i], caseSensitive) ==> Alike(xs[i], ys[i], caseSensitive)
          ensures Small(a) && Small(b) && Alike(xs[i], ys[i], caseSensitive) ==> Equiv(xs[i], ys[i], caseSensitive)
        {
          AlikeIsEquiv(xs[i], ys[i], caseSensitive);
        }
      }
    case (Obj(ms), Obj(ns)) =>
      forall i, j | 0 <= i < |ms| && 0 <= j < |ns|
        ensures Equiv(ms[i].value, ns[j].value, caseSensitive) ==> Alike(ms[i].value, ns[j].value, caseSensitive)
        ensures Small(a) && Small(b) && Alike(ms[i].value, ns[j].value, caseSensitive) ==>
                  Equiv(ms[i].value, ns[j].value, caseSensitive)
      {
        AlikeIsEquiv(ms[i].value, ns[j].value, caseSensitive);
      }
      if Small(a) && Small(b) && Alike(a, b, caseSensitive) {
        AlikeToEquiv(ms, ns, caseSensitive);
      }
      if Equiv(a, b, caseSensitive) {
        var p :| Permutation(p, |ms|) && Paired(ms, ns, p, caseSensitive);
        EquivToAlike(ms, ns, p, caseSensitive);
      }
    case _ =>
  }

  lemma AlikeToEquiv(ms: seq<Member>, ns: seq<Member>, caseSensitive: bool)
    requires KeysDiffer(ms, caseSensitive) && KeysDiffer(ns, caseSensitive)
    requires Covers(ms, ns, caseSensitive) && Covers(ns, ms, caseSensitive)
    requires forall i, j :: 0 <= i < |ms| && 0 <= j < |ns| && Alike(ms[i].value, ns[j].value, caseSensitive) ==>
      Equiv(ms[i].value, ns[j].value, caseSensitive)
    ensures Equiv(Obj(ms), Obj(ns), caseSensitive)
  {
    var p := Injection(ms, ns, caseSensitive);
    var q := Injection(ns, ms, caseSensitive);
    assert Permutation(p, |ms|);
    forall i | 0 <= i < |ms|
      ensures SameKey(ms[i].key, ns[p[i]].key, caseSensitive) && Equiv(ms[i].value, ns[p[i]].value, caseSensitive)
    {
      assert CoversOne(ms[i], ns, caseSensitive);
    }
    assert Paired(ms, ns, p, caseSensitive);
  }

  lemma EquivToAlike(ms: seq<Member>, ns: seq<Member>, p: seq<nat>, caseSensitive: bool)
    requires KeysDiffer(ms, caseSensitive) && KeysDiffer(ns, caseSensitive)
    requires |ms| == |ns| && Permutation(p, |ms|) && Paired(ms, ns, p, caseSensitive)
    requires forall i, j :: 0 <= i < |ms| && 0 <= j < |ns| && Equiv(ms[i].value, ns[j].value, caseSensitive) ==>
      Alike(ms[i].value, ns[j].value, caseSensitive)
    ensures Alike(Obj(ms), Obj(ns), caseSensitive)
  {
    forall i | 0 <= i < |ms| ensures CoversOne(ms[i], ns, caseSensitive) {
      FindsIt(ns, p[i], ms[i].key, caseSensitive);
    }
    Pigeonhole(p, |ms|);
    forall j | 0 <= j < |ns| ensures CoversOne(ns[j], ms, caseSensitive) {
      assert j in p;
      var i: nat :| i < |p| && p[i] == j;
      FindsIt(ms, i, ns[j].key, caseSensitive);
      AlikeIsSymmetric(ms[i].value, ns[j].value, caseSensitive);
    }
  }

  // ----- a value and its own copy

  /** Inside every array and object, the first member with a key is consistent and those after it compare equal to it. */
  ghost predicate Consistent(v: Json, caseSensitive: bool) {
    match v
    case Arr(items) => forall i :: 0 <= i < |items| ==> Consistent(items[i], caseSensitive)
    case Obj(members) => forall i :: 0 <= i < |members| ==>
      var f := Find(members, members[i].key, caseSensitive);
      if f < i then Alike(members[i].value, members[f].value, caseSensitive) else Consistent(members[i].value, caseSensitive)
    case _ => true
  }

  /** A value compares equal to a copy of itself exactly when it is consistent. */
  lemma {:induction false} AlikeIsReflexive(v: Json, caseSensitive: bool)
    ensures Alike(v, v, caseSensitive) <==> Consistent(v, caseSensitive)
  {
    match v
    case Arr(items) =>
      forall i | 0 <= i < |items|
        ensures Alike(items[i], items[i], caseSensitive) <==> Consistent(items[i], caseSensitive)
      {
        AlikeIsReflexive(items[i], caseSensitive);
      }
    case Obj(members) =>
      forall i | 0 <= i < |members|
        ensures Alike(members[i].value, members[i].value, caseSensitive) <==> Consistent(members[i].value, caseSensitive)
      {
        AlikeIsReflexive(members[i].value, caseSensitive);
      }
      MembersConsistent(members, caseSensitive);
    case _ =>
  }

  lemma MembersConsistent(members: seq<Member>, caseSensitive: bool)
    requires forall i :: 0 <= i < |members| ==>
      (Alike(members[i].value, members[i].value, caseSensitive) <==> Consistent(members[i].value, caseSensitive))
    ensures Covers(members, members, caseSensitive) <==> Consistent(Obj(members), caseSensitive)
  {
    hide Alike;
    forall i | 0 <= i < |members| ensures Find(members, members[i].key, caseSensitive) <= i {
      assert SameKey(members[i].key, members[i].key, caseSensitive);
    }
    forall i | 0 <= i < |members|
      ensures var f := Find(members, members[i].key, caseSensitive);
              CoversOne(members[i], members, caseSensitive) <==>
              if f < i then Alike(members[i].value, members[f].value, caseSensitive)
              else Consistent(members[i].value, caseSensitive)
    {
    }
  }

  /** Distinct keys are enough. */
  lemma {:induction false} DistinctIsConsistent(v: Json, caseSensitive: bool)
    requires DistinctKeys(v, caseSensitive)
    ensures Consistent(v, caseSensitive)
  {
    match v
    case Arr(items) =>
      forall i | 0 <= i < |items| ensures Consistent(items[i], caseSensitive) {
        DistinctIsConsistent(items[i], caseSensitive);
      }
    case Obj(members) =>
      forall i | 0 <= i < |members|
        ensures Find(members, members[i].key, caseSensitive) == i && Consistent(members[i].value, caseSensitive)
      {
        FindsIt(members, i, members[i].key, caseSensitive);
        DistinctIsConsistent(members[i].value, caseSensitive);
      }
    case _ =>
  }

  /** Without distinct keys it is neither: a value may differ from its own copy, and a repeated member may go unnoticed. */
  lemma RepeatedKeysMislead(key: seq<byte>, caseSensitive: bool)
    ensures var twice := Obj([Member(key, True), Member(key, False)]); !Alike(twice, twice, caseSensitive)
    ensures var more := Obj([Member(key, True), Member(key, True)]); var less := Obj([Member(key, True)]);
            Alike(more, less, caseSensitive) && !Equiv(more, less, caseSensitive)
  {
    var twice := [Member(key, True), Member(key, False)];
    assert Find(twice, twice[1].key, caseSensitive) == 0;
    assert !CoversOne(twice[1], twice, caseSensitive);
    var more, less := [Member(key, True), Member(key, True)], [Member(key, True)];
    assert Find(more, key, caseSensitive) == 0 && Find(less, key, caseSensitive) == 0;
    assert Alike(True, True, caseSensitive);
    assert Covers(more, less, caseSensitive) && Covers(less, more, caseSensitive);
  }

  // ----- what repeated keys come to

  /** The value with all but the first member of each key dropped, in every object. */
  function Firsts(v: Json, caseSensitive: bool): Json {
    match v
    case Arr(items) => Arr(seq(|items|, i requires 0 <= i < |items| => Firsts(items[i], caseSensitive)))
    case Obj(members) => Obj(FirstMembers(members, caseSensitive))
    case _ => v
  }

  function FirstMembers(members: seq<Member>, caseSensitive: bool): seq<Member> {
    if members == [] then []
    else
      var n := |members| - 1;
      var rest, last := FirstMembers(members[..n], caseSensitive), members[n];
      if Find(members[..n], last.key, caseSensitive) < n then rest else rest + [Member(last.key, Firsts(last.value, caseSensitive))]
  }

  lemma {:induction false} FindMore(members: seq<Member>, m: Member, key: seq<byte>, caseSensitive: bool)
    ensures var f := Find(members, key, caseSensitive);
            Find(members + [m], key, caseSensitive) ==
              if f < |members| then f else if SameKey(key, m.key, caseSensitive) then |members| else |members| + 1
  {
    hide SameKey;
    var more := members + [m];
    if members != [] {
      assert more[0] == members[0] && more[1..] == members[1..] + [m];
      FindMore(members[1..], m, key, caseSensitive);
    } else {
      assert more[0] == m && more[1..] == [];
    }
  }

  lemma NoneFound(key: seq<byte>, caseSensitive: bool)
    ensures Find([], key, caseSensitive) == 0
  {
  }

  /** What a key finds among the first members: the first member with it, its value cut down likewise. */
  lemma {:induction false} FirstsFind(members: seq<Member>, key: seq<byte>, caseSensitive: bool)
    ensures var f, firsts := Find(members, key, caseSensitive), FirstMembers(members, caseSensitive);
            var g := Find(firsts, key, caseSensitive);
            && (g < |firsts| <==> f < |members|)
            && (g < |firsts| ==> firsts[g] == Member(members[f].key, Firsts(members[f].value, caseSensitive)))
  {
    hide SameKey, Firsts, Find;
    if members == [] {
      NoneFound(key, caseSensitive);
    } else {
      var n := |members| - 1;
      var rest, last := members[..n], members[n];
      assert members == rest + [last];
      if SameKey(key, last.key, caseSensitive) {
        FindsAlike(rest, key, last.key, caseSensitive);
      }
      FirstsFind(rest, key, caseSensitive);
      FirstsFind(rest, last.key, caseSensitive);
      FindMore(rest, last, key, caseSensitive);
      FindMore(FirstMembers(rest, caseSensitive), Member(last.key, Firsts(last.value, caseSensitive)), key, caseSensitive);
    }
  }

  /** Each of them comes from the first member with its key, and no two of them share a key. */
  lemma {:induction false} FirstsAre(members: seq<Member>, caseSensitive: bool)
    ensures var firsts := FirstMembers(members, caseSensitive);
            && KeysDiffer(firsts, caseSensitive)
            && forall m :: m in firsts ==> exists i :: 0 <= i < |members| && ComesFrom(m, members[i], caseSensitive)
  {
    if members != [] {
      var n := |members| - 1;
      var rest, last := members[..n], members[n];
      FirstsAre(rest, caseSensitive);
      FirstsFind(rest, last.key, caseSensitive);
      var before, firsts := FirstMembers(rest, caseSensitive), FirstMembers(members, caseSensitive);
      forall m | m in firsts ensures exists i :: 0 <= i < |members| && ComesFrom(m, members[i], caseSensitive) {
        if m in before {
          var i :| 0 <= i < |rest| && ComesFrom(m, rest[i], caseSensitive);
          assert ComesFrom(m, members[i], caseSensitive);
        } else {
          assert ComesFrom(m, members[n], caseSensitive);
        }
      }
    }
  }

  ghost predicate ComesFrom(m: Member, from: Member, caseSensitive: bool) {
    m == Member(from.key, Firsts(from.value, caseSensitive))
  }

  /** Cut down, a value has distinct keys, and no other numbers. */
  lemma {:induction false} FirstsAreDistinct(v: Json, caseSensitive: bool)
    ensures DistinctKeys(Firsts(v, caseSensitive), caseSensitive)
    ensures Small(v) ==> Small(Firsts(v, caseSensitive))
  {
    match v
    case Arr(items) =>
      forall i | 0 <= i < |items|
        ensures DistinctKeys(Firsts(items[i], caseSensitive), caseSensitive) && (Small(items[i]) ==> Small(Firsts(items[i], caseSensitive)))
      {
        FirstsAreDistinct(items[i], caseSensitive);
      }
    case Obj(members) =>
      FirstsAre(members, caseSensitive);
      var firsts := FirstMembers(members, caseSensitive);
      forall j | 0 <= j < |firsts|
        ensures DistinctKeys(firsts[j].value, caseSensitive) && (Small(v) ==> Small(firsts[j].value))
      {
        assert firsts[j] in firsts;
        var i :| 0 <= i < |members| && ComesFrom(firsts[j], members[i], caseSensitive);
        FirstsAreDistinct(members[i].value, caseSensitive);
      }
    case _ =>
  }

  /** Below 2^52 the comparison is transitive. */
  lemma {:induction false} AlikeIsTransitive(a: Json, b: Json, c: Json, caseSensitive: bool)
    requires Small(a) && Small(b) && Small(c) && Alike(a, b, caseSensitive) && Alike(b, c, caseSensitive)
    ensures Alike(a, c, caseSensitive)
    decreases a
  {
    match a
    case Num(n) =>
      NumbersToldApart(n, b.n);
      NumbersToldApart(b.n, c.n);
    case Arr(items) =>
      forall i | 0 <= i < |items| ensures Alike(items[i], c.items[i], caseSensitive) {
        AlikeIsTransitive(items[i], b.items[i], c.items[i], caseSensitive);
      }
    case Obj(ms) =>
      forall i | 0 <= i < |ms| ensures CoversOne(ms[i], c.members, caseSensitive) {
        CoveredOn(ms[i], b.members, c.members, caseSensitive);
        var j := Find(b.members, ms[i].key, caseSensitive);
        var k := Find(c.members, ms[i].key, caseSensitive);
        AlikeIsTransitive(ms[i].value, b.members[j].value, c.members[k].value, caseSensitive);
      }
      forall k | 0 <= k < |c.members| ensures CoversOne(c.members[k], ms, caseSensitive) {
        CoveredOn(c.members[k], b.members, ms, caseSensitive);
        var j := Find(b.members, c.members[k].key, caseSensitive);
        var i := Find(ms, c.members[k].key, caseSensitive);
        AlikeIsSymmetric(c.members[k].value, b.members[j].value, caseSensitive);
        AlikeIsSymmetric(b.members[j].value, ms[i].value, caseSensitive);
        AlikeIsTransitive(ms[i].value, b.members[j].value, c.members[k].value, caseSensitive);
        AlikeIsSymmetric(ms[i].value, c.members[k].value, caseSensitive);
      }
    case _ =>
  }

  /** What covers a member leads on to what covers that. */
  lemma CoveredOn(m: Member, ns: seq<Member>, ls: seq<Member>, caseSensitive: bool)
    requires CoversOne(m, ns, caseSensitive) && Covers(ns, ls, caseSensitive)
    ensures var j, k := Find(ns, m.key, caseSensitive), Find(ls, m.key, caseSensitive);
            && j < |ns| && k < |ls| && Alike(m.value, ns[j].value, caseSensitive) && Alike(ns[j].value, ls[k].value, caseSensitive)
  {
    var j := Find(ns, m.key, caseSensitive);
    assert CoversOne(ns[j], ls, caseSensitive);
    FindsAlike(ls, m.key, ns[j].key, caseSensitive);
  }

  lemma FindsAlike(members: seq<Member>, key: seq<byte>, other: seq<byte>, caseSensitive: bool)
    requires SameKey(key, other, caseSensitive)
    ensures Find(members, key, caseSensitive) == Find(members, other, caseSensitive)
  {
    var f := Find(members, key, caseSensitive);
    var g := Find(members, other, caseSensitive);
    assert f < |members| ==> SameKey(other, members[f].key, caseSensitive);
    assert g < |members| ==> SameKey(key, members[g].key, caseSensitive);
  }

  /** A consistent value compares equal to what is left when its repeated members are dropped. */
  lemma {:induction false} FirstsAreAlike(v: Json, caseSensitive: bool)
    requires Consistent(v, caseSensitive) && Small(v)
    ensures Alike(v, Firsts(v, caseSensitive), caseSensitive)
  {
    match v
    case Arr(items) =>
      forall i | 0 <= i < |items| ensures Alike(items[i], Firsts(items[i], caseSensitive), caseSensitive) {
        FirstsAreAlike(items[i], caseSensitive);
      }
    case Obj(members) =>
      forall f | 0 <= f < |members| && Find(members, members[f].key, caseSensitive) == f
        ensures Alike(members[f].value, Firsts(members[f].value, caseSensitive), caseSensitive)
      {
        FirstsAreAlike(members[f].value, caseSensitive);
      }
      FirstsCover(members, caseSensitive);
    case _ => AlikeIsReflexive(v, caseSensitive);
  }

  lemma FirstsCover(members: seq<Member>, caseSensitive: bool)
    requires Consistent(Obj(members), caseSensitive) && Small(Obj(members))
    requires forall f :: 0 <= f < |members| && Find(members, members[f].key, caseSensitive) == f ==>
      Alike(members[f].value, Firsts(members[f].value, caseSensitive), caseSensitive)
    ensures Covers(members, FirstMembers(members, caseSensitive), caseSensitive)
    ensures Covers(FirstMembers(members, caseSensitive), members, caseSensitive)
  {
    hide Alike, Firsts, FirstMembers;
    var firsts := FirstMembers(members, caseSensitive);
    forall i | 0 <= i < |members| ensures CoversOne(members[i], firsts, caseSensitive) {
      FirstOfKey(members, i, caseSensitive);
      var f := Find(members, members[i].key, caseSensitive);
      FirstsFind(members, members[i].key, caseSensitive);
      if f < i {
        FirstsAreDistinct(members[f].value, caseSensitive);
        AlikeIsTransitive(members[i].value, members[f].value, Firsts(members[f].value, caseSensitive), caseSensitive);
      }
    }
    FirstsAre(members, caseSensitive);
    forall j | 0 <= j < |firsts| ensures CoversOne(firsts[j], members, caseSensitive) {
      assert firsts[j] in firsts;
      var i :| 0 <= i < |members| && ComesFrom(firsts[j], members[i], caseSensitive);
      FirstOfKey(members, i, caseSensitive);
      var f := Find(members, members[i].key, caseSensitive);
      FirstsFind(members, members[i].key, caseSensitive);
      FindsIt(firsts, j, members[i].key, caseSensitive);
      AlikeIsSymmetric(members[f].value, firsts[j].value, caseSensitive);
    }
  }

  lemma FirstOfKey(members: seq<Member>, i: nat, caseSensitive: bool)
    requires i < |members|
    ensures var f := Find(members, members[i].key, caseSensitive); f <= i && Find(members, members[f].key, caseSensitive) == f
  {
    assert SameKey(members[i].key, members[i].key, caseSensitive);
    var f := Find(members, members[i].key, caseSensitive);
    FindsAlike(members, members[i].key, members[f].key, caseSensitive);
  }

  /**
   * What the comparison decides when keys are repeated: of values that compare equal to their own copies, with numbers
   * below 2^52, exactly those that are equal once all but the first member of each key are dropped.
   */
  lemma AlikeIsEquivOfFirsts(a: Json, b: Json, caseSensitive: bool)
    requires Consistent(a, caseSensitive) && Consistent(b, caseSensitive) && Small(a) && Small(b)
    ensures Alike(a, b, caseSensitive) <==> Equiv(Firsts(a, caseSensitive), Firsts(b, caseSensitive), caseSensitive)
  {
    hide Alike, Consistent, Small, Firsts, Equiv, DistinctKeys;
    var x, y := Firsts(a, caseSensitive), Firsts(b, caseSensitive);
    FirstsAreAlike(a, caseSensitive);
    FirstsAreAlike(b, caseSensitive);
    FirstsAreDistinct(a, caseSensitive);
    FirstsAreDistinct(b, caseSensitive);
    AlikeIsSymmetric(a, x, caseSensitive);
    AlikeIsSymmetric(b, y, caseSensitive);
    AlikeIsEquiv(x, y, caseSensitive);
    if Alike(a, b, caseSensitive) {
      AlikeIsTransitive(x, a, b, caseSensitive);
      AlikeIsTransitive(x, b, y, caseSensitive);
    }
    if Alike(x, y, caseSensitive) {
      AlikeIsTransitive(a, x, y, caseSensitive);
      AlikeIsTransitive(a, y, b, caseSensitive);
    }
  }

  // ----- the comparison on items

  /** The members of an object, or none. */
  ghost function MembersOf(v: Json): seq<Member> {
    if v.Obj? then v.members else []
  }

  /** Ready to be compared: a tree whose numbers and strings cJSON holds exactly. */
  ghost predicate Ready(item: Item)
    reads item`child, item`kids, item`kind, item`below, item`value, item.below
  {
    item.Tree() && Printable(item.value)
  }

  /** get_object_item. */
  method GetObjectItem(owner: Item?, name: Option<seq<byte>>, caseSensitive: bool) returns (r: Item?)
    requires owner != null ==>
               Ready(owner) && (!owner.kind.ObjectItem? ==> forall k :: k in owner.kids ==> k.name.None?)
    requires name.Some? ==> NulFree(name.value)
    ensures owner == null || name.None? || !owner.kind.ObjectItem? ==> r == null
    ensures owner != null && name.Some? && owner.kind.ObjectItem? ==>
              var f := Find(MembersOf(owner.value), name.value, caseSensitive);
              |owner.kids| == |MembersOf(owner.value)| && r == if f < |owner.kids| then owner.kids[f] else null
  {
    hide Item.Tree, SameKey, Printable;
    if owner == null || name.None? {
      return null;
    }
    KidNames(owner);
    ghost var at;
    r, at := Seek(owner, name.value, caseSensitive);
    if r == null || r.name.None? {
      return null;
    }
  }

  lemma KidNames(owner: Item)
    requires owner.Tree() && Printable(owner.value)
    ensures owner.kind.ObjectItem? ==>
              && |owner.kids| == |MembersOf(owner.value)|
              && forall i :: 0 <= i < |owner.kids| ==>
                owner.kids[i].name == Some(MembersOf(owner.value)[i].key) && NulFree(MembersOf(owner.value)[i].key)
  {
    assert owner.kind.ObjectItem? ==> forall i :: 0 <= i < |owner.kids| ==> MembersOf(owner.value)[i] in MembersOf(owner.value);
  }

  /** Its walk along the children: to the first match, or a nameless child when case counts. */
  method Seek(owner: Item, name: seq<byte>, caseSensitive: bool) returns (r: Item?, ghost at: nat)
    requires owner.Tree() && NulFree(name)
    requires forall k :: k in owner.kids && k.name.Some? ==> NulFree(k.name.value)
    ensures at <= |owner.kids| && r == if at < |owner.kids| then owner.kids[at] else null
    ensures forall i :: 0 <= i < at && owner.kids[i].name.Some? ==> !SameKey(name, owner.kids[i].name.value, caseSensitive)
    ensures r != null && r.name.Some? ==> SameKey(name, r.name.value, caseSensitive)
  {
    hide Item.Tree, SameKey;
    TreeKids(owner);
    r := owner.child;
    at := 0;
    var found := false;
    while r != null && !found && !(caseSensitive && r.name.None?)
      invariant at <= |owner.kids| && r == if at < |owner.kids| then owner.kids[at] else null
      invariant forall i :: 0 <= i < at && owner.kids[i].name.Some? ==> !SameKey(name, owner.kids[i].name.value, caseSensitive)
      invariant found ==> r != null && r.name.Some? && SameKey(name, r.name.value, caseSensitive)
      decreases |owner.kids| - at, !found
    {
      NextKid(owner, at);
      if r.name.Some? {
        found := NamesMatch(name, r.name.value, caseSensitive);
      }
      if !found {
        r := r.next;
        at := at + 1;
      }
    }
  }

  /** strcmp or case_insensitive_strcmp, as get_object_item chooses. */
  method NamesMatch(s: seq<byte>, t: seq<byte>, caseSensitive: bool) returns (same: bool)
    requires NulFree(s) && NulFree(t)
    ensures same == SameKey(s, t, caseSensitive)
  {
    if caseSensitive {
      same := s == t;
    } else {
      var c := CaseInsensitiveStrcmp(s, t);
      same := c == 0;
    }
  }

  function Tag(kind: Kind): nat {
    match kind
    case InvalidItem => 0
    case NullItem => 1
    case FalseItem => 2
    case TrueItem => 3
    case NumberItem(_) => 4
    case StringItem(_) => 5
    case ArrayItem => 6
    case ObjectItem => 7
  }

  /** An item met on both sides is taken for equal without a look: harmless when none is, or where no key is repeated. */
  ghost predicate Telling(a: Item, b: Item, caseSensitive: bool)
    reads a`below, a`value, b`below, b`value
  {
    Apart(a, b) || (DistinctKeys(a.value, caseSensitive) && DistinctKeys(b.value, caseSensitive))
  }

  /** cJSON_Compare. */
  method Compare(a: Item?, b: Item?, caseSensitive: bool) returns (r: bool)
    requires a != null ==> Ready(a)
    requires b != null ==> Ready(b)
    ensures a == null || b == null ==> !r
    ensures a != null && b != null && (a == b || Alike(a.value, b.value, caseSensitive)) ==> r
    ensures r && a != b && Telling(a, b, caseSensitive) ==> Alike(a.value, b.value, caseSensitive)
    decreases if a == null || b == null then 0 else Height(a.value) + Height(b.value), 3
  {
    if a == null || b == null {
      return false;
    }
    KindsTell(a, b, caseSensitive);
    if Tag(a.kind) != Tag(b.kind) {
      return false;
    }
    if a == b {
      return true;
    }
    match a.kind {
      case NumberItem(m) => r := NumEq(m, b.kind.n);
      case StringItem(s) => r := s == b.kind.s;
      case ArrayItem => r := CompareArrays(a, b, caseSensitive);
      case ObjectItem =>
        r := CompareObjects(a, b, caseSensitive);
        if r {
          r := CompareObjects(b, a, caseSensitive);
        }
      case _ => r := true;
    }
  }

  /** What the kinds alone say. */
  lemma KindsTell(a: Item, b: Item, caseSensitive: bool)
    requires Ready(a) && Ready(b)
    ensures !a.kind.InvalidItem?
    ensures Tag(a.kind) != Tag(b.kind) ==> !Alike(a.value, b.value, caseSensitive)
    ensures a.kind.NumberItem? && b.kind.NumberItem? ==> a.value == Num(a.kind.n) && b.value == Num(b.kind.n)
    ensures a.kind.StringItem? && b.kind.StringItem? ==> a.value == Str(a.kind.s) && b.value == Str(b.kind.s)
    ensures a.kind.NullItem? ==> a.value == Null
    ensures a.kind.FalseItem? ==> a.value == False
    ensures a.kind.TrueItem? ==> a.value == True
    ensures a.kind.ArrayItem? ==> a.value.Arr?
    ensures a.kind.ObjectItem? ==> a.value.Obj?
    ensures b.kind.NullItem? ==> b.value == Null
    ensures b.kind.FalseItem? ==> b.value == False
    ensures b.kind.TrueItem? ==> b.value == True
    ensures b.kind.ArrayItem? ==> b.value.Arr?
    ensures b.kind.ObjectItem? ==> b.value.Obj?
  {
  }

  /** The children of an item, ready to be compared with those of another. */
  lemma KidsReady(a: Item, i: nat)
    requires Ready(a) && i < |a.kids|
    ensures Ready(a.kids[i]) && a.kids[i] in a.below && a.kids[i].below <= a.below
    ensures a.kids[i].next == if i + 1 < |a.kids| then a.kids[i + 1] else null
    ensures a.kind.ArrayItem? ==> a.value.Arr? && |a.value.items| == |a.kids| && a.kids[i].value == a.value.items[i]
    ensures a.kind.ObjectItem? ==>
              && a.value.Obj? && |a.value.members| == |a.kids| && a.kids[i].value == a.value.members[i].value
              && a.kids[i].name == Some(a.value.members[i].key) && NulFree(a.value.members[i].key)
    ensures Height(a.kids[i].value) < Height(a.value)
  {
    match a.kind
    case ArrayItem => assert a.value.items[i] in a.value.items;
    case ObjectItem => assert a.value.members[i] in a.value.members;
    case _ =>
  }

  lemma KidsTelling(a: Item, i: nat, b: Item, j: nat, caseSensitive: bool)
    requires Ready(a) && i < |a.kids| && Ready(b) && j < |b.kids|
    requires a.kind == b.kind && (a.kind.ArrayItem? || a.kind.ObjectItem?)
    ensures Telling(a, b, caseSensitive) ==> Telling(a.kids[i], b.kids[j], caseSensitive)
    ensures Telling(a, b, caseSensitive) && a.kids[i] == b.kids[j] ==> Alike(a.kids[i].value, b.kids[j].value, caseSensitive)
  {
    KidsReady(a, i);
    KidsReady(b, j);
    if Telling(a, b, caseSensitive) && !Apart(a, b) {
      DistinctIsConsistent(a.kids[i].value, caseSensitive);
      AlikeIsReflexive(a.kids[i].value, caseSensitive);
    }
  }

  lemma FirstKid(a: Item)
    requires Ready(a)
    ensures a.child == if a.kids == [] then null else a.kids[0]
    ensures a.kind.ArrayItem? ==> a.value.Arr? && |a.value.items| == |a.kids|
    ensures a.kind.ObjectItem? ==> a.value.Obj? && |a.value.members| == |a.kids|
  {
  }

  /** The loop of cJSON_Compare over two arrays. */
  method CompareArrays(a: Item, b: Item, caseSensitive: bool) returns (r: bool)
    requires Ready(a) && Ready(b) && a.kind.ArrayItem? && b.kind.ArrayItem?
    ensures Alike(a.value, b.value, caseSensitive) ==> r
    ensures r && Telling(a, b, caseSensitive) ==> Alike(a.value, b.value, caseSensitive)
    decreases Height(a.value) + Height(b.value), 1
  {
    hide Ready, Item.Tree;
    FirstKid(a);
    FirstKid(b);
    var x, y := a.child, b.child;
    ghost var at: nat := 0;
    while x != null && y != null
      invariant at <= |a.kids| && at <= |b.kids|
      invariant x == if at < |a.kids| then a.kids[at] else null
      invariant y == if at < |b.kids| then b.kids[at] else null
      invariant Telling(a, b, caseSensitive) ==>
                  forall i :: 0 <= i < at ==> Alike(a.value.items[i], b.value.items[i], caseSensitive)
      decreases |a.kids| - at
    {
      KidsReady(a, at);
      KidsReady(b, at);
      KidsTelling(a, at, b, at, caseSensitive);
      var same := Compare(x, y, caseSensitive);
      if !same {
        return false;
      }
      x, y := x.next, y.next;
      at := at + 1;
    }
    return x == y;
  }

  /** Either loop of cJSON_Compare over two objects. */
  method CompareObjects(a: Item, b: Item, caseSensitive: bool) returns (r: bool)
    requires Ready(a) && Ready(b) && a.kind.ObjectItem? && b.kind.ObjectItem?
    ensures Covers(MembersOf(a.value), MembersOf(b.value), caseSensitive) ==> r
    ensures r && Telling(a, b, caseSensitive) ==> Covers(MembersOf(a.value), MembersOf(b.value), caseSensitive)
    decreases Height(a.value) + Height(b.value), 2
  {
    hide Ready, Item.Tree, CoversOne, Telling;
    FirstKid(a);
    FirstKid(b);
    var x := a.child;
    ghost var at: nat := 0;
    while x != null
      invariant at <= |a.kids| && x == if at < |a.kids| then a.kids[at] else null
      invariant Telling(a, b, caseSensitive) ==>
                  forall i :: 0 <= i < at ==> CoversOne(a.value.members[i], b.value.members, caseSensitive)
      decreases |a.kids| - at
    {
      KidsReady(a, at);
      var same := CompareMember(a, at, x, b, caseSensitive);
      if !same {
        return false;
      }
      x := x.next;
      at := at + 1;
    }
    return true;
  }

  /** One turn of that loop: the member of `b` with the same key, and its value. */
  method CompareMember(ghost a: Item, ghost at: nat, x: Item, b: Item, caseSensitive: bool) returns (same: bool)
    requires Ready(a) && Ready(b) && a.kind.ObjectItem? && b.kind.ObjectItem? && a.value.Obj? && b.value.Obj?
    requires at < |a.kids| == |a.value.members| && x == a.kids[at]
    ensures CoversOne(a.value.members[at], b.value.members, caseSensitive) ==> same
    ensures same && Telling(a, b, caseSensitive) ==> CoversOne(a.value.members[at], b.value.members, caseSensitive)
    decreases Height(a.value) + Height(b.value), 1
  {
    hide Ready, Item.Tree, Telling;
    KidsReady(a, at);
    FirstKid(b);
    var y := GetObjectItem(b, x.name, caseSensitive);
    if y == null {
      return false;
    }
    ghost var j := Find(b.value.members, a.value.members[at].key, caseSensitive);
    KidsReady(b, j);
    KidsTelling(a, at, b, j, caseSensitive);
    same := Compare(x, y, caseSensitive);
  }
}
