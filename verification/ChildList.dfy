/**
 * The child lists of cJSON items: siblings linked through next and prev, the last next null, and the
 * first prev pointing to the last. Every operation is the matching operation on the sequence of children.
 */
module ChildList {
  import opened Bytes
  import opened JsonText

  datatype Kind = InvalidItem | NullItem | FalseItem | TrueItem | NumberItem(n: int) | StringItem(s: seq<byte>) | ArrayItem | ObjectItem

  /** A child as its parent sees it. */
  datatype Branch = Branch(name: Option<seq<byte>>, value: Json)

  class Item {
    var next: Item?
    var prev: Item?
    var child: Item?
    var kind: Kind
    var name: Option<seq<byte>>

    ghost var kids: seq<Item>
    ghost var below: set<Item>
    ghost var value: Json

    /** cJSON_New_Item with the fields the callers set at once. */
    constructor (kind: Kind, name: Option<seq<byte>>)
      ensures next == prev == child == null && kids == [] && below == {}
      ensures this.kind == kind && this.name == name
    {
      next, prev, child := null, null, null;
      this.kind, this.name := kind, name;
      kids, below := [], {};
    }

    // ----- the list of children

    ghost predicate Valid()
      reads this`child, this`kids, kids`next, kids`prev
    {
      this !in kids && Linked(child, kids)
    }

    /** get_array_item. */
    method GetItem(index: nat) returns (r: Item?)
      requires Valid()
      ensures r == if index < |kids| then kids[index] else null
    {
      r := child;
      var left: nat := index;
      ghost var at := 0;
      while r != null && left > 0
        invariant at + left == index && at <= |kids|
        invariant r == if at < |kids| then kids[at] else null
      {
        left := left - 1;
        r := r.next;
        at := at + 1;
      }
    }

    /**
     * add_item_to_array. It clears no successor of an item it adds behind others, so the chain then runs on into what
     * followed the item before.
     */
    method Append(item: Item?) returns (ok: bool)
      requires Valid()
      requires item != null && item != this ==> item !in kids
      modifies this`child, this`kids, kids`next, kids`prev, (if item == null then {} else {item})`next, (if item == null then {} else {item})`prev
      ensures ok == (item != null && item != this)
      ensures kids == if ok then old(kids) + [item] else old(kids)
      ensures Valid() <==> (ok && old(kids) != [] ==> old(item.next) == null)
      ensures ok && old(kids) != [] ==> this !in kids && LinkedInto(child, kids, old(item.next))
    {
      if item == null || item == this {
        return false;
      }
      if child == null {
        child := item;
        item.prev := item;
        item.next := null;
      } else {
        // suffix_object
        child.prev.next := item;
        item.prev := child.prev;
        child.prev := item;
      }
      kids := kids + [item];
      return true;
    }

    /** cJSON_DetachItemViaPointer. */
    method Detach(item: Item?) returns (r: Item?)
      requires Valid()
      requires item != null ==> item in kids
      modifies this`child, this`kids, kids`next, kids`prev
      ensures Valid() && r == item
      ensures item == null ==> kids == old(kids)
      ensures item != null ==> item.next == null && item.prev == null && kids == Without(old(kids), item)
    {
      hide Linked, Bypassed;
      if item == null {
        return null;
      }
      ghost var k := Index(kids, item);
      Unlink(k, item);
      Unlinked(child, kids, k);
      WithoutAt(kids, k);
      kids := Without(kids, item);
      return item;
    }

    /** The rewiring of cJSON_DetachItemViaPointer. */
    method Unlink(ghost k: nat, item: Item)
      requires Valid() && k < |kids| && item == kids[k]
      modifies this`child, kids`next, kids`prev
      ensures Bypassed(child, kids, k) && item.prev == null && item.next == null
    {
      Neighbours(child, kids, k);
      if item != child {
        item.prev.next := item.next;
      }
      if item.next != null {
        item.next.prev := item.prev;
      }
      if item == child {
        child := item.next;
      } else if item.next == null {
        child.prev := item.prev;
      }
      item.prev := null;
      item.next := null;
    }

    /** cJSON_DetachItemFromArray. */
    method DetachAt(which: int) returns (r: Item?)
      requires Valid()
      modifies this`child, this`kids, kids`next, kids`prev
      ensures Valid()
      ensures 0 <= which < |old(kids)| ==>
                r == old(kids)[which] && kids == old(kids)[..which] + old(kids)[which + 1..] && r.next == null && r.prev == null
      ensures !(0 <= which < |old(kids)|) ==> r == null && kids == old(kids)
    {
      if which < 0 {
        return null;
      }
      var item := GetItem(which);
      if item != null {
        IndexOf(kids, which);
        WithoutAt(kids, which);
      }
      r := Detach(item);
    }

    /** cJSON_InsertItemInArray. */
    method InsertAt(which: int, item: Item?) returns (ok: bool)
      requires Valid()
      requires 0 <= which < |kids| ==> item != null && item != this
      requires 0 <= which && item != null && item != this ==> item !in kids
      modifies this`child, this`kids, kids`next, kids`prev, (if item == null then {} else {item})`next, (if item == null then {} else {item})`prev
      ensures ok == (0 <= which && item != null && item != this)
      ensures kids == if !ok then old(kids)
                      else if which < |old(kids)| then old(kids)[..which] + [item] + old(kids)[which..]
                      else old(kids) + [item]
      ensures Valid() <==> (ok && 0 < |old(kids)| <= which ==> old(item.next) == null)
      ensures ok && 0 < |old(kids)| <= which ==> this !in kids && LinkedInto(child, kids, old(item.next))
    {
      hide Linked, LinkedInto, Hooked;
      if which < 0 {
        return false;
      }
      var after := GetItem(which);
      if after == null {
        ok := Append(item);
        return;
      }
      HookBefore(which, after, item);
      Inserted(kids, which, item);
      kids := kids[..which] + [item] + kids[which..];
      return true;
    }

    /** The rewiring of cJSON_InsertItemInArray once the successor is found. */
    method HookBefore(ghost which: nat, after: Item, item: Item)
      requires Valid() && which < |kids| && after == kids[which] && item !in kids && item != this
      modifies this`child, kids`next, kids`prev, item`next, item`prev
      ensures Hooked(kids, which, item) && child == if which == 0 then item else kids[0]
    {
      Neighbours(child, kids, which);
      item.next := after;
      item.prev := after.prev;
      after.prev := item;
      if after == child {
        child := item;
      } else {
        item.prev.next := item;
      }
    }

    /** cJSON_ReplaceItemViaPointer; the item replaced is left without links, to be deleted. */
    method Replace(item: Item?, replacement: Item?) returns (ok: bool)
      requires Valid()
      requires item != null ==> item in kids
      requires replacement != null && replacement != item ==> replacement !in kids && replacement != this
      modifies this`child, this`kids, kids`next, kids`prev
      modifies (if replacement == null then {} else {replacement})`next, (if replacement == null then {} else {replacement})`prev
      ensures Valid() && ok == (item != null && replacement != null)
      ensures !ok || item == replacement ==> kids == old(kids)
      ensures ok && item != replacement ==>
                && item.next == null && item.prev == null
                && kids == old(kids)[Index(old(kids), item) := replacement]
    {
      hide Linked, Swapped;
      if replacement == null || item == null {
        return false;
      }
      if replacement == item {
        return true;
      }
      ghost var k := Index(kids, item);
      Exchange(k, item, replacement);
      Exchanged(child, kids, k, replacement);
      kids := kids[k := replacement];
      return true;
    }

    /** The rewiring of cJSON_ReplaceItemViaPointer. */
    method Exchange(ghost k: nat, item: Item, replacement: Item)
      requires Valid() && k < |kids| && item == kids[k] && replacement !in kids && replacement != this
      modifies this`child, kids`next, kids`prev, replacement`next, replacement`prev
      ensures Swapped(child, kids, k, replacement) && item.next == null && item.prev == null
    {
      Neighbours(child, kids, k);
      replacement.next := item.next;
      replacement.prev := item.prev;
      if replacement.next != null {
        replacement.next.prev := replacement;
      }
      if child == item {
        if child.prev == child {
          replacement.prev := replacement;
        }
        child := replacement;
      } else {
        if replacement.prev != null {
          replacement.prev.next := replacement;
        }
        if replacement.next == null {
          child.prev := replacement;
        }
      }
      item.next := null;
      item.prev := null;
    }

    /** cJSON_ReplaceItemInArray. */
    method ReplaceAt(which: int, replacement: Item?) returns (ok: bool)
      requires Valid()
      requires replacement != null && replacement in kids ==> which < 0 || (which < |kids| && kids[which] == replacement)
      requires replacement != this
      modifies this`child, this`kids, kids`next, kids`prev
      modifies (if replacement == null then {} else {replacement})`next, (if replacement == null then {} else {replacement})`prev
      ensures Valid() && ok == (0 <= which < |old(kids)| && replacement != null)
      ensures kids == if ok then old(kids)[which := replacement] else old(kids)
    {
      if which < 0 {
        return false;
      }
      var item := GetItem(which);
      if item != null {
        IndexOf(kids, which);
      }
      ok := Replace(item, replacement);
    }

    // ----- whole trees

    /** The items in `below` hang below this one, and the whole represents `value`; own siblings play no part. */
    ghost predicate Tree()
      reads this`child, this`kids, this`kind, this`below, this`value
      reads below
      decreases below
    {
      && this !in below
      && (forall k :: k in kids ==> k in below && k.below <= below - {k} && k.Tree())
      && Linked(child, kids)
      && (forall i, j :: 0 <= i < j < |kids| ==> Apart(kids[i], kids[j]))
      && Stands(kind, Branches(kids), value)
    }
  }

  /** Two trees share no item. */
  ghost predicate Apart(a: Item, b: Item)
    reads a`below, b`below
  {
    a != b && a !in b.below && b !in a.below && a.below !! b.below
  }

  ghost function Branches(kids: seq<Item>): (r: seq<Branch>)
    reads kids`value, kids`name
    ensures |r| == |kids| && forall i :: 0 <= i < |kids| ==> r[i] == Branch(kids[i].name, kids[i].value)
  {
    if kids == [] then [] else [Branch(kids[0].name, kids[0].value)] + Branches(kids[1..])
  }

  /** An item of this kind with these branches stands for `v`. */
  ghost predicate Stands(kind: Kind, branches: seq<Branch>, v: Json) {
    match kind
    case InvalidItem => false
    case NullItem => branches == [] && v == Null
    case FalseItem => branches == [] && v == False
    case TrueItem => branches == [] && v == True
    case NumberItem(n) => branches == [] && v == Num(n)
    case StringItem(s) => branches == [] && v == Str(s)
    case ArrayItem =>
      && v.Arr? && |v.items| == |branches|
      && (forall i :: 0 <= i < |branches| ==> v.items[i] == branches[i].value)
    case ObjectItem =>
      && v.Obj? && |v.members| == |branches|
      && (forall i :: 0 <= i < |branches| ==> branches[i].name.Some? && v.members[i] == Member(branches[i].name.value, branches[i].value))
  }

  /** `child` heads the circular-prev, null-terminated chain of exactly `kids`. */
  ghost predicate Linked(child: Item?, kids: seq<Item>)
    reads kids`next, kids`prev
  {
    && (child == null <==> kids == [])
    && (kids != [] ==>
          && child == kids[0]
          && kids[0].prev == kids[|kids| - 1]
          && kids[|kids| - 1].next == null)
    && (forall i :: 0 < i < |kids| ==> kids[i].prev == kids[i - 1])
    && (forall i :: 0 <= i < |kids| - 1 ==> kids[i].next == kids[i + 1])
    && (forall i, j :: 0 <= i < j < |kids| ==> kids[i] != kids[j])
  }

  /** The chain of `kids`, but for its last item's successor, which is `tail`. */
  ghost predicate LinkedInto(child: Item?, kids: seq<Item>, tail: Item?)
    reads kids`next, kids`prev
  {
    && kids != []
    && child == kids[0]
    && kids[0].prev == kids[|kids| - 1]
    && kids[|kids| - 1].next == tail
    && (forall i :: 0 < i < |kids| ==> kids[i].prev == kids[i - 1])
    && (forall i :: 0 <= i < |kids| - 1 ==> kids[i].next == kids[i + 1])
    && (forall i, j :: 0 <= i < j < |kids| ==> kids[i] != kids[j])
  }

  /** The chain of `kids` with the item at `k` left out of every link. */
  ghost predicate Bypassed(child: Item?, kids: seq<Item>, k: nat)
    requires k < |kids|
    reads kids`next, kids`prev
  {
    var n := |kids|;
    && child == (if k > 0 then kids[0] else if n > 1 then kids[1] else null)
    && (k > 0 ==> kids[0].prev == kids[if k == n - 1 then n - 2 else n - 1])
    && (k > 0 ==> kids[k - 1].next == if k == n - 1 then null else kids[k + 1])
    && (k < n - 1 ==> kids[n - 1].next == null && kids[k + 1].prev == kids[if k > 0 then k - 1 else n - 1])
    && (forall i :: 0 < i < n && i != k && i != k + 1 ==> kids[i].prev == kids[i - 1])
    && (forall i :: 0 <= i < n - 1 && i != k && i != k - 1 ==> kids[i].next == kids[i + 1])
    && (forall i, j :: 0 <= i < j < n ==> kids[i] != kids[j])
  }

  lemma Unlinked(child: Item?, kids: seq<Item>, k: nat)
    requires k < |kids| && Bypassed(child, kids, k)
    ensures Distinct(kids)
    ensures Linked(child, kids[..k] + kids[k + 1..])
  {
    var now := kids[..k] + kids[k + 1..];
    forall i | 0 < i < |now| ensures now[i].prev == now[i - 1] {
      if i < k {
        assert now[i] == kids[i] && now[i - 1] == kids[i - 1];
      } else {
        assert now[i] == kids[i + 1];
        assert now[i - 1] == if i == k then kids[k - 1] else kids[i];
      }
    }
    forall i | 0 <= i < |now| - 1 ensures now[i].next == now[i + 1] {
      if i < k {
        assert now[i] == kids[i];
      } else {
        assert now[i] == kids[i + 1] && now[i + 1] == kids[i + 2];
      }
    }
  }

  /** The chain of `kids` with `item` in the place of the one at `k`. */
  ghost predicate Swapped(child: Item?, kids: seq<Item>, k: nat, item: Item)
    requires k < |kids|
    reads kids`next, kids`prev, item`next, item`prev
  {
    var n := |kids|;
    && child == (if k == 0 then item else kids[0])
    && item.next == (if k == n - 1 then null else kids[k + 1])
    && item.prev == (if k > 0 then kids[k - 1] else if n == 1 then item else kids[n - 1])
    && (k > 0 ==> kids[0].prev == if k == n - 1 then item else kids[n - 1])
    && (k < n - 1 ==> kids[n - 1].next == null)
    && (forall i :: 0 < i < n && i != k ==> kids[i].prev == if i == k + 1 then item else kids[i - 1])
    && (forall i :: 0 <= i < n - 1 && i != k ==> kids[i].next == if i == k - 1 then item else kids[i + 1])
    && (forall i, j :: 0 <= i < j < n ==> kids[i] != kids[j])
  }

  lemma Exchanged(child: Item?, kids: seq<Item>, k: nat, item: Item)
    requires k < |kids| && item !in kids && Swapped(child, kids, k, item)
    ensures Linked(child, kids[k := item])
  {
    var now := kids[k := item];
    assert forall i :: 0 <= i < |now| ==> now[i] == if i == k then item else kids[i];
    forall i | 0 < i < |now| ensures now[i].prev == now[i - 1] {
      assert i == k || kids[i].prev == if i == k + 1 then item else kids[i - 1];
    }
    forall i | 0 <= i < |now| - 1 ensures now[i].next == now[i + 1] {
      assert i == k || kids[i].next == if i == k - 1 then item else kids[i + 1];
    }
  }

  // ----- growing a new chain, as parsing and copying do

  /** A chain as the loops leave it between two items: the head's prev is not set yet. */
  ghost predicate Chained(items: seq<Item>)
    reads items`next, items`prev
  {
    && (items != [] ==> items[|items| - 1].next == null)
    && (forall i :: 0 < i < |items| ==> items[i].prev == items[i - 1])
    && (forall i :: 0 <= i < |items| - 1 ==> items[i].next == items[i + 1])
  }

  /** Trees of their own, everything below them in `inner`, with these names and values. */
  ghost predicate Grown(branches: seq<Branch>, items: seq<Item>, inner: set<Item>)
    reads items`child, items`kids, items`kind, items`below, items`value, items`name, inner
  {
    && |branches| == |items|
    && (forall i :: 0 <= i < |items| ==> GrownOne(branches[i], items[i], inner))
    && (forall i, j :: 0 <= i < j < |items| ==> Apart(items[i], items[j]))
  }

  ghost predicate GrownOne(branch: Branch, item: Item, inner: set<Item>)
    reads item`child, item`kids, item`kind, item`below, item`value, item`name, inner
  {
    item !in inner && item.below <= inner && item.Tree() && branch == Branch(item.name, item.value)
  }

  lemma NoneYet(branches: seq<Branch>)
    ensures Chained([]) && Grown(branches[..0], [], {})
  {
  }

  lemma GrownMore(branches: seq<Branch>, items: seq<Item>, inner: set<Item>, item: Item)
    requires |items| < |branches| && Grown(branches[..|items|], items, inner)
    requires item !in inner && item !in items && item.below !! inner && GrownOne(branches[|items|], item, item.below)
    requires forall c :: c in items ==> c !in item.below
    ensures Grown(branches[..|items| + 1], items + [item], inner + item.below)
    ensures forall c :: c in items + [item] ==> c !in inner + item.below
  {
    hide Item.Tree;
    var more := items + [item];
    forall i | 0 <= i < |more| ensures GrownOne(branches[i], more[i], inner + item.below) {
      if i < |items| {
        assert GrownOne(branches[..|items|][i], items[i], inner);
      }
    }
    forall i, j | 0 <= i < j < |more| ensures Apart(more[i], more[j]) {
      if j < |items| {
        assert Apart(items[i], items[j]);
      } else {
        assert GrownOne(branches[..|items|][i], items[i], inner);
      }
    }
  }

  /** A finished chain makes its parent a tree. */
  lemma Assembled(r: Item, branches: seq<Branch>, inner: set<Item>)
    requires Stands(r.kind, branches, r.value)
    requires Grown(branches, r.kids, inner) && r.below == inner + (set c | c in r.kids) && r !in r.below
    requires r.child == if r.kids == [] then null else r.kids[0]
    requires r.kids != [] ==> r.kids[0].prev == r.kids[|r.kids| - 1]
    requires Chained(r.kids)
    ensures r.Tree()
  {
    assert Branches(r.kids) == branches;
  }

  lemma HeadFirst(branches: seq<Branch>, items: seq<Item>, inner: set<Item>)
    requires Grown(branches, items, inner)
    ensures forall i :: 0 < i < |items| ==> items[i] != items[0]
    ensures forall c :: c in items ==> c !in inner
  {
  }

  // ----- the parser's chains

  /** What a successful parse_value of the text of `v` leaves in `item`. */
  method Fill(item: Item, v: Json)
    modifies item`child, item`kind, item`kids, item`below, item`value
    ensures fresh(item.below) && item.Tree() && item.value == v
    decreases v, 2
  {
    match v {
      case Null => FillLeaf(item, NullItem, v);
      case False => FillLeaf(item, FalseItem, v);
      case True => FillLeaf(item, TrueItem, v);
      case Num(n) => FillLeaf(item, NumberItem(n), v);
      case Str(s) => FillLeaf(item, StringItem(s), v);
      case Arr(items) => FillChain(item, ArrayItem, seq(|items|, i requires 0 <= i < |items| => Branch(None, items[i])), v);
      case Obj(members) =>
        FillChain(item, ObjectItem, seq(|members|, i requires 0 <= i < |members| => Branch(Some(members[i].key), members[i].value)), v);
    }
  }

  method FillLeaf(item: Item, kind: Kind, ghost v: Json)
    requires Stands(kind, [], v)
    modifies item`child, item`kind, item`kids, item`below, item`value
    ensures item.below == {} && item.Tree() && item.value == v
  {
    item.kind, item.child := kind, null;
    item.kids, item.below, item.value := [], {}, v;
  }

  /** The loops of parse_array and parse_object, which link their items alike. */
  method FillChain(item: Item, kind: Kind, branches: seq<Branch>, ghost v: Json)
    requires Stands(kind, branches, v)
    requires forall b :: b in branches ==> b.value < v
    modifies item`child, item`kind, item`kids, item`below, item`value
    ensures fresh(item.below) && item.Tree() && item.value == v
    decreases v, 1
  {
    hide Chained, Grown, Item.Tree;
    var head: Item?, current: Item? := null, null;
    ghost var items: seq<Item> := [];
    ghost var inner: set<Item> := {};
    NoneYet(branches);
    var i: nat := 0;
    while i < |branches|
      invariant i <= |branches| && |items| == i
      invariant head == if i == 0 then null else items[0]
      invariant current == if i == 0 then null else items[i - 1]
      invariant Chained(items) && Grown(branches[..i], items, inner) && fresh(inner)
      invariant forall c :: c in items ==> fresh(c) && c !in inner
    {
      assert current != null ==> current in items;
      head, current, inner := FillNext(branches[i], branches, v, items, inner, head, current);
      items := items + [current];
      i := i + 1;
    }
    assert branches[..i] == branches;
    forall i | 0 <= i < |items| ensures fresh(items[i]) {
      assert items[i] in items;
    }
    Close(item, kind, head, branches, v, items, inner, current);
  }

  /** One turn of these loops. */
  method FillNext(
    branch: Branch, ghost branches: seq<Branch>, ghost v: Json, ghost items: seq<Item>, ghost inner: set<Item>, first: Item?, last: Item?)
    returns (head: Item?, current: Item, ghost more: set<Item>)
    requires |items| < |branches| && branch == branches[|items|] && branch.value < v
    requires last == if items == [] then null else items[|items| - 1]
    requires Chained(items) && Grown(branches[..|items|], items, inner) && forall c :: c in items ==> c !in inner
    requires first == if items == [] then null else items[0]
    modifies (if last == null then {} else {last})`next
    ensures fresh({current} + (more - inner))
    ensures forall c :: c in items + [current] ==> c !in more
    ensures Chained(items + [current]) && Grown(branches[..|items| + 1], items + [current], more)
    ensures head == if items == [] then current else first
    decreases v, 0
  {
    hide Chained, Grown, Item.Tree;
    current := new Item(InvalidItem, None);
    head := Crosswire(items + [current], first, last, current);
    current.name := branch.name;
    Fill(current, branch.value);
    GrownMore(branches, items, inner, current);
    more := inner + current.below;
  }

  /** Link `item` behind `last`, or start the chain with it. */
  method Crosswire(ghost items: seq<Item>, first: Item?, last: Item?, item: Item) returns (head: Item?)
    requires items != [] && item == items[|items| - 1] && item !in items[..|items| - 1]
    requires Chained(items[..|items| - 1]) && item.next == null
    requires last == if |items| == 1 then null else items[|items| - 2]
    modifies (if last == null then {} else {last})`next, item`prev
    ensures Chained(items) && head == if |items| == 1 then item else first
  {
    if last != null {
      last.next := item;
      item.prev := last;
      head := first;
    } else {
      head := item;
    }
  }

  /** What follows the loop: the head's prev, and the parent takes the chain. */
  method Close(r: Item, kind: Kind, head: Item?, ghost branches: seq<Branch>, ghost v: Json, ghost items: seq<Item>, ghost inner: set<Item>,
               last: Item?)
    requires Stands(kind, branches, v)
    requires Chained(items) && Grown(branches, items, inner) && r !in inner && r !in items
    requires head == if items == [] then null else items[0]
    requires last == if items == [] then null else items[|items| - 1]
    modifies r`child, r`kind, r`kids, r`below, r`value, items`prev
    ensures r.below == inner + (set c | c in items) && r.Tree() && r.value == v && r.kind == kind
  {
    hide Item.Tree, Grown, Stands;
    HeadFirst(branches, items, inner);
    if head != null {
      head.prev := last;
    }
    r.kind, r.child := kind, head;
    r.kids, r.below, r.value := items, inner + (set c | c in items), v;
    assert Grown(branches, items, inner);
    Assembled(r, branches, inner);
  }

  // ----- copies

  /** cJSON_Duplicate: a disjoint tree with the same value, or a bare item. */
  method Duplicate(item: Item?, recurse: bool) returns (r: Item?)
    requires item != null ==> item.Tree()
    ensures r == null <==> item == null
    ensures r != null ==> fresh({r} + r.below) && r.kind == item.kind && r.name == item.name && r.next == r.prev == null
    ensures r != null && recurse ==> r.Tree() && r.value == item.value && Apart(item, r)
    ensures r != null && !recurse ==> r.kids == [] && r.child == null
    decreases if item == null then {} else item.below, item != null, 2
  {
    if item == null {
      return null;
    }
    r := new Item(item.kind, item.name);
    if !recurse {
      return;
    }
    DuplicateChildren(item, r);
  }

  /** The loop of cJSON_Duplicate over the chain of children. */
  method DuplicateChildren(item: Item, r: Item)
    requires item.Tree()
    requires r != item && r !in item.below && r.kind == item.kind && r.child == null
    modifies r`child, r`kind, r`kids, r`below, r`value
    ensures fresh(r.below) && r.Tree() && r.value == item.value && r.kind == item.kind
    decreases item.below, true, 1
  {
    hide Chained, Grown, Stands, Item.Tree, Branches;
    TreeKids(item);
    ghost var branches := Branches(item.kids);
    var child := item.child;
    var last: Item?, copy: Item? := null, null;
    ghost var at: nat := 0;
    ghost var copies: seq<Item> := [];
    ghost var inner: set<Item> := {};
    NoneYet(branches);
    while child != null
      invariant item.Tree() && branches == Branches(item.kids)
      invariant r.kind == item.kind
      invariant at <= |item.kids| && child == if at < |item.kids| then item.kids[at] else null
      invariant |copies| == at && last == copy == (if at == 0 then null else copies[at - 1])
      invariant r.child == if at == 0 then null else copies[0]
      invariant Chained(copies) && Grown(branches[..at], copies, inner) && fresh(inner)
      invariant forall c :: c in copies ==> fresh(c) && c !in inner && c !in item.below && c != item
      decreases |item.kids| - at
    {
      assert last != null ==> last in copies;
      copy, inner := DuplicateNext(item, r, branches, copies, inner, last, child);
      last := copy;
      copies := copies + [copy];
      NextKid(item, at);
      child := child.next;
      at := at + 1;
    }
    assert branches[..at] == branches;
    forall i | 0 <= i < |copies| ensures fresh(copies[i]) {
      assert copies[i] in copies;
    }
    TreeKids(item);
    Close(r, r.kind, r.child, branches, item.value, copies, inner, copy);
  }

  /** One turn of the same loop. */
  method DuplicateNext(item: Item, r: Item, ghost branches: seq<Branch>, ghost copies: seq<Item>, ghost inner: set<Item>,
                       last: Item?, child: Item)
    returns (copy: Item, ghost more: set<Item>)
    requires item.Tree() && |copies| < |item.kids| && child == item.kids[|copies|] && r != item && r !in item.below
    requires branches == Branches(item.kids)
    requires r !in copies && r !in inner
    requires last == if copies == [] then null else copies[|copies| - 1]
    requires Chained(copies) && Grown(branches[..|copies|], copies, inner) && forall c :: c in copies ==> c !in inner
    modifies r`child, (if last == null then {} else {last})`next
    ensures fresh({copy} + (more - inner)) && copy !in item.below && copy != item
    ensures forall c :: c in copies + [copy] ==> c !in more
    ensures Chained(copies + [copy]) && Grown(branches[..|copies| + 1], copies + [copy], more)
    ensures r.child == if copies == [] then copy else old(r.child)
    decreases item.below, true, 0
  {
    hide Chained, Grown, Item.Tree, Branches;
    TreeKids(item);
    copy := Duplicate(child, true);
    GrownMore(branches, copies, inner, copy);
    more := inner + copy.below;
    r.child := Crosswire(copies + [copy], r.child, last, copy);
  }

  lemma TreeKids(item: Item)
    requires item.Tree()
    ensures Stands(item.kind, Branches(item.kids), item.value)
    ensures item.child == if item.kids == [] then null else item.kids[0]
    ensures forall k :: k in item.kids ==> k in item.below
    ensures forall i :: 0 <= i < |item.kids| ==> item.kids[i].Tree() && item.kids[i].below < item.below
  {
  }

  /** A tree stands for a value whose children are its own children, in order. */
  lemma TreeMeans(item: Item)
    requires item.Tree()
    ensures item.kind.ArrayItem? ==>
              && item.value.Arr? && |item.value.items| == |item.kids|
              && forall i :: 0 <= i < |item.kids| ==> item.value.items[i] == item.kids[i].value
    ensures item.kind.ObjectItem? ==>
              && item.value.Obj? && |item.value.members| == |item.kids|
              && forall i :: 0 <= i < |item.kids| ==>
                   Some(item.value.members[i].key) == item.kids[i].name && item.value.members[i].value == item.kids[i].value
    ensures item.kind.NumberItem? ==> item.value == Num(item.kind.n)
    ensures item.kind.StringItem? ==> item.value == Str(item.kind.s)
    ensures item.kind.NullItem? ==> item.value == Null
    ensures item.kind.TrueItem? ==> item.value == True
    ensures item.kind.FalseItem? ==> item.value == False
    ensures !item.kind.InvalidItem?
  {
  }

  lemma NextKid(item: Item, i: nat)
    requires item.Tree() && i < |item.kids|
    ensures item.kids[i].next == if i + 1 < |item.kids| then item.kids[i + 1] else null
  {
  }

  /** What the links of the item at `k` are, one step either way. */
  lemma Neighbours(child: Item?, kids: seq<Item>, k: nat)
    requires Linked(child, kids) && k < |kids|
    ensures kids[k].prev == kids[if k == 0 then |kids| - 1 else k - 1] && kids[k].prev in kids
    ensures kids[k].next == if k + 1 < |kids| then kids[k + 1] else null
    ensures k + 1 < |kids| ==> kids[k + 1] in kids && kids[k + 1].prev == kids[k]
    ensures k > 0 ==> kids[k - 1].next == kids[k]
    ensures kids[k] == child <==> k == 0
  {
  }

  /** The chain of `kids` with `item` hooked in front of the child at `k`. */
  ghost predicate Hooked(kids: seq<Item>, k: nat, item: Item)
    requires k < |kids|
    reads kids, item
  {
    && item.next == kids[k] && item.prev == kids[if k == 0 then |kids| - 1 else k - 1]
    && (k > 0 ==> kids[0].prev == kids[|kids| - 1])
    && kids[|kids| - 1].next == null
    && (forall i :: 0 < i < |kids| ==> kids[i].prev == if i == k then item else kids[i - 1])
    && (k == 0 ==> kids[0].prev == item)
    && (forall i :: 0 <= i < |kids| - 1 ==> kids[i].next == if i == k - 1 then item else kids[i + 1])
    && (forall i, j :: 0 <= i < j < |kids| ==> kids[i] != kids[j])
  }

  /** Hooking `item` in front of the child at `k` leaves the chain linked. */
  lemma Inserted(kids: seq<Item>, k: nat, item: Item)
    requires k < |kids| && item !in kids && Hooked(kids, k, item)
    ensures Linked(if k == 0 then item else kids[0], kids[..k] + [item] + kids[k..])
  {
    var now := kids[..k] + [item] + kids[k..];
    assert now[k] == item && now[k + 1] == kids[k] && now[|kids|] == kids[|kids| - 1];
    forall i | 0 < i < |now| ensures now[i].prev == now[i - 1] {
      if i < k {
        assert now[i] == kids[i] && now[i - 1] == kids[i - 1];
      } else if i > k + 1 {
        assert now[i] == kids[i - 1] && now[i - 1] == kids[i - 2];
      }
    }
    forall i | 0 <= i < |now| - 1 ensures now[i].next == now[i + 1] {
      if i < k {
        assert now[i] == kids[i];
      } else if i > k {
        assert now[i] == kids[i - 1] && now[i + 1] == kids[i];
      }
    }
    assert now[0] == if k == 0 then item else kids[0];
  }

  ghost function Index(kids: seq<Item>, item: Item): (k: nat)
    requires item in kids
    ensures k < |kids| && kids[k] == item
  {
    if kids[0] == item then 0 else 1 + Index(kids[1..], item)
  }

  ghost function Without(kids: seq<Item>, item: Item): seq<Item>
    requires item in kids
  {
    var k := Index(kids, item);
    kids[..k] + kids[k + 1..]
  }

  ghost predicate Distinct(kids: seq<Item>) {
    forall i, j :: 0 <= i < j < |kids| ==> kids[i] != kids[j]
  }

  lemma IndexOf(kids: seq<Item>, k: nat)
    requires Distinct(kids) && k < |kids|
    ensures Index(kids, kids[k]) == k
  {
  }

  lemma WithoutAt(kids: seq<Item>, k: nat)
    requires Distinct(kids) && k < |kids|
    ensures Without(kids, kids[k]) == kids[..k] + kids[k + 1..]
  {
    IndexOf(kids, k);
  }
}
