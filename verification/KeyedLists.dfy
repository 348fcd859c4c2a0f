/**
 Lists of wire objects keyed by an integer id, as the stream sends them: the job objects of a
 `live` frame and the groups of a `search` frame. A group id is the first 16 hex digits of a
 SHA-256 sum, so its string order is the order of the 64-bit number it spells; both kinds of list
 are therefore ordered by an integer.
*/
module KeyedLists {
  import opened Basics

  datatype Item<+V> = Item(id: int, val: V)

  /** The map a client holds after storing the list's objects by id, later ones replacing earlier ones. */
  function ToMap<V>(s: seq<Item<V>>): map<int, V> {
    if s == [] then map[] else map[s[0].id := s[0].val] + ToMap(s[1..])
  }

  ghost predicate Ascending<V>(s: seq<Item<V>>) {
    forall i, j | 0 <= i < j < |s| :: s[i].id < s[j].id
  }

  lemma UnionAssociates<V>(a: map<int, V>, b: map<int, V>, c: map<int, V>)
    ensures a + (b + c) == (a + b) + c
  {
  }

  lemma UnionReplaces<V>(x: map<int, V>, p: map<int, V>, y: map<int, V>, n: map<int, V>)
    requires x.Keys == y.Keys && x.Keys !! p.Keys
    ensures y + (p + n) == (x + p) + (y + n)
  {
  }

  lemma UnionCommutes<V>(y: map<int, V>, p: map<int, V>, n: map<int, V>)
    requires y.Keys !! p.Keys
    ensures y + (p + n) == p + (y + n)
  {
  }

  lemma {:induction false} ToMapAppend<V>(a: seq<Item<V>>, b: seq<Item<V>>)
    ensures ToMap(a + b) == ToMap(a) + ToMap(b)
  {
    if a == [] {
      assert a + b == b;
    } else {
      assert (a + b)[1..] == a[1..] + b;
      ToMapAppend(a[1..], b);
      UnionAssociates(map[a[0].id := a[0].val], ToMap(a[1..]), ToMap(b));
    }
  }

  /** Where a key of the map comes from. */
  lemma {:induction false} KeyOrigin<V>(s: seq<Item<V>>, k: int) returns (i: nat)
    requires k in ToMap(s)
    ensures i < |s| && s[i] == Item(k, ToMap(s)[k])
  {
    if k in ToMap(s[1..]) {
      i := KeyOrigin(s[1..], k);
      i := i + 1;
    } else {
      i := 0;
    }
  }

  lemma AscendingTail<V>(s: seq<Item<V>>)
    requires Ascending(s) && s != []
    ensures Ascending(s[1..])
    ensures forall k | k in ToMap(s[1..]) :: s[0].id < k
  {
    forall k | k in ToMap(s[1..]) ensures s[0].id < k {
      var i := KeyOrigin(s[1..], k);
      assert s[1..][i] == s[i + 1];
    }
  }

  lemma {:induction false} AscendingLookup<V>(s: seq<Item<V>>, i: nat)
    requires Ascending(s) && i < |s|
    ensures s[i].id in ToMap(s) && ToMap(s)[s[i].id] == s[i].val
  {
    AscendingTail(s);
    if i > 0 {
      AscendingLookup(s[1..], i - 1);
    }
  }

  /** A list sorted by id is determined by the map it spells. */
  lemma {:induction false} AscendingUnique<V>(a: seq<Item<V>>, b: seq<Item<V>>)
    requires Ascending(a) && Ascending(b) && ToMap(a) == ToMap(b)
    ensures a == b
  {
    if a == [] || b == [] {
      if a != [] { AscendingLookup(a, 0); }
      if b != [] { AscendingLookup(b, 0); }
    } else {
      AscendingTail(a);
      AscendingTail(b);
      assert a[0].id in ToMap(b) && b[0].id in ToMap(a);
      assert a[0].id == b[0].id;
      assert ToMap(a)[a[0].id] == a[0].val && ToMap(b)[b[0].id] == b[0].val;
      assert ToMap(a[1..]) == ToMap(a) - {a[0].id};
      assert ToMap(b[1..]) == ToMap(b) - {b[0].id};
      AscendingUnique(a[1..], b[1..]);
      assert a == [a[0]] + a[1..] && b == [b[0]] + b[1..];
    }
  }

  /** The union of two deltas by id, the newer entry winning. */
  function Merge<V>(prev: seq<Item<V>>, next: seq<Item<V>>): seq<Item<V>> {
    if prev == [] then next
    else if next == [] then prev
    else if prev[0].id < next[0].id then [prev[0]] + Merge(prev[1..], next)
    else if prev[0].id == next[0].id then [next[0]] + Merge(prev[1..], next[1..])
    else [next[0]] + Merge(prev, next[1..])
  }

  lemma {:induction false} MergeIsUnion<V>(prev: seq<Item<V>>, next: seq<Item<V>>)
    requires Ascending(prev) && Ascending(next)
    ensures Ascending(Merge(prev, next))
    ensures ToMap(Merge(prev, next)) == ToMap(prev) + ToMap(next)
    decreases |prev| + |next|
  {
    if prev == [] || next == [] {
    } else {
      AscendingTail(prev);
      AscendingTail(next);
      var x, y, p, n := prev[0], next[0], prev[1..], next[1..];
      var px, ny := map[x.id := x.val], map[y.id := y.val];
      if x.id < y.id {
        MergeIsUnion(p, next);
        Prepend(x, Merge(p, next));
        UnionAssociates(px, ToMap(p), ToMap(next));
      } else if x.id == y.id {
        MergeIsUnion(p, n);
        Prepend(y, Merge(p, n));
        UnionReplaces(px, ToMap(p), ny, ToMap(n));
      } else {
        MergeIsUnion(prev, n);
        Prepend(y, Merge(prev, n));
        UnionCommutes(ny, ToMap(prev), ToMap(n));
      }
    }
  }

  lemma Prepend<V>(x: Item<V>, s: seq<Item<V>>)
    requires Ascending(s)
    requires forall k | k in ToMap(s) :: x.id < k
    ensures Ascending([x] + s)
    ensures ToMap([x] + s) == map[x.id := x.val] + ToMap(s)
  {
    assert ([x] + s)[1..] == s;
    forall j: nat | j < |s| ensures x.id < s[j].id {
      AscendingLookup(s, j);
    }
  }

  function Insert<V>(s: seq<Item<V>>, x: Item<V>): seq<Item<V>> {
    if s == [] || x.id < s[0].id then [x] + s else [s[0]] + Insert(s[1..], x)
  }

  lemma InsertInFront<V>(m: map<int, V>, x: Item<V>)
    requires x.id !in m
    ensures map[x.id := x.val] + m == m[x.id := x.val]
  {
  }

  lemma InsertBehind<V>(a: map<int, V>, m: map<int, V>, x: Item<V>)
    ensures a + m[x.id := x.val] == (a + m)[x.id := x.val]
  {
  }

  lemma InsertLast<V>(m: map<int, V>, p: map<int, V>, x: Item<V>)
    ensures m + (p + ToMap([x])) == (m + p)[x.id := x.val]
  {
  }

  lemma {:induction false} InsertKeepsOrder<V>(s: seq<Item<V>>, x: Item<V>)
    requires Ascending(s) && x.id !in ToMap(s)
    ensures Ascending(Insert(s, x))
    ensures ToMap(Insert(s, x)) == ToMap(s)[x.id := x.val]
  {
    if s == [] {
      assert [x][1..] == [];
    } else {
      AscendingTail(s);
      if x.id < s[0].id {
        Prepend(x, s);
        InsertInFront(ToMap(s), x);
      } else {
        InsertKeepsOrder(s[1..], x);
        Prepend(s[0], Insert(s[1..], x));
        InsertBehind(map[s[0].id := s[0].val], ToMap(s[1..]), x);
      }
    }
  }

  /** Lists a map's entries in map order and sorts them by id; the result does not depend on that order. */
  method SortEntries<V>(m: map<int, V>) returns (s: seq<Item<V>>)
    ensures Ascending(s) && ToMap(s) == m
  {
    s := [];
    var rest := m.Keys;
    while rest != {}
      invariant forall k | k in rest :: k in m
      invariant Ascending(s)
      invariant ToMap(s) == (map k | k in m && k !in rest :: m[k])
      decreases |rest|
    {
      var k := AnyOf(rest);
      InsertKeepsOrder(s, Item(k, m[k]));
      s := Insert(s, Item(k, m[k]));
      rest := rest - {k};
    }
  }

  lemma {:induction false} ListingExists<V(!new)>(m: map<int, V>) returns (s: seq<Item<V>>)
    ensures Ascending(s) && ToMap(s) == m
    decreases |m|
  {
    if m == map[] {
      s := [];
    } else {
      var k := ElementOf(m.Keys);
      var rest := m - {k};
      assert rest.Keys == m.Keys - {k};
      s := ListingExists(rest);
      InsertKeepsOrder(s, Item(k, m[k]));
      s := Insert(s, Item(k, m[k]));
    }
  }

  /** The one list sorted by id that spells `m`. */
  ghost function Listing<V(!new)>(m: map<int, V>): (s: seq<Item<V>>)
    ensures Ascending(s) && ToMap(s) == m
  {
    assert exists s: seq<Item<V>> :: Ascending(s) && ToMap(s) == m by {
      var s := ListingExists(m);
    }
    var s: seq<Item<V>> :| Ascending(s) && ToMap(s) == m;
    s
  }

  /** mergeJobsDelta and mergeSearchGroups: a map filled by both lists in turn, then sorted. */
  method MergeDeltas<V>(prev: seq<Item<V>>, next: seq<Item<V>>) returns (merged: seq<Item<V>>)
    requires Ascending(prev) && Ascending(next)
    ensures merged == Merge(prev, next)
  {
    if |prev| == 0 {
      return next;
    }
    var byId: map<int, V> := map[];
    byId := StoreAll(byId, prev);
    assert byId == ToMap(prev);
    byId := StoreAll(byId, next);
    merged := SortEntries(byId);
    MergeIsUnion(prev, next);
    AscendingUnique(merged, Merge(prev, next));
  }

  /** `for _, x := range xs { byID[x.ID] = x }` */
  method StoreAll<V>(m: map<int, V>, xs: seq<Item<V>>) returns (r: map<int, V>)
    ensures r == m + ToMap(xs)
  {
    r := m;
    assert xs[..0] == [];
    for i := 0 to |xs|
      invariant r == m + ToMap(xs[..i])
    {
      ToMapAppend(xs[..i], [xs[i]]);
      assert xs[..i + 1] == xs[..i] + [xs[i]];
      InsertLast(m, ToMap(xs[..i]), xs[i]);
      r := r[xs[i].id := xs[i].val];
    }
    assert xs[..|xs|] == xs;
  }
}
