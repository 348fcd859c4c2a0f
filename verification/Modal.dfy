/**
 The modal attributes of a search group. Both functions of the source range over a map, whose order
 is random; the winner is nevertheless determined by the counts.
*/
module Modal {
  import opened Basics

  /** `best` occurs most often in `s`, and is the least of those that do. */
  ghost predicate IsModal<T(!new)>(s: multiset<T>, best: T, less: (T, T) -> bool) {
    best in s && forall v | v in s && v != best :: s[v] < s[best] || (s[v] == s[best] && less(best, v))
  }

  ghost predicate Total<T(!new)>(less: (T, T) -> bool) {
    && (forall a, b :: a == b || less(a, b) || less(b, a))
    && (forall a, b :: less(a, b) ==> !less(b, a))
    && (forall a, b, c :: less(a, b) && less(b, c) ==> less(a, c))
  }

  lemma ModalIsUnique<T(!new)>(s: multiset<T>, a: T, b: T, less: (T, T) -> bool)
    requires Total(less) && IsModal(s, a, less) && IsModal(s, b, less)
    ensures a == b
  {
  }

  function IntLess(): (int, int) -> bool {
    (a, b) => a < b
  }

  function TextLess(): (string, string) -> bool {
    (a, b) => StrLess(a, b)
  }

  lemma TextLessTotal()
    ensures Total(TextLess())
  {
    forall a, b: string ensures (a == b || StrLess(a, b) || StrLess(b, a)) && (StrLess(a, b) ==> !StrLess(b, a)) {
      StrLessTotal(a, b);
    }
    forall a, b, c: string | StrLess(a, b) && StrLess(b, c) ensures StrLess(a, c) {
      StrLessTransitive(a, b, c);
    }
  }

  function NonZero(values: seq<int>): seq<int> {
    if values == [] then []
    else NonZero(values[..|values| - 1]) + if values[|values| - 1] != 0 then [values[|values| - 1]] else []
  }

  /** counts[v] = how often v occurs, for exactly the values that occur */
  ghost predicate Counts<T(!new)>(counts: map<T, nat>, s: multiset<T>) {
    && (forall v :: v in counts <==> v in s)
    && (forall v | v in counts :: counts[v] == s[v])
  }

  /** `counts[v]++` */
  function Count<T>(counts: map<T, nat>, v: T): map<T, nat> {
    counts[v := (if v in counts then counts[v] else 0) + 1]
  }

  lemma CountAdds<T(!new)>(counts: map<T, nat>, s: multiset<T>, v: T)
    requires Counts(counts, s)
    ensures Counts(Count(counts, v), s + multiset{v})
  {
  }

  /** `best` is the modal value among those of `seen`. */
  ghost predicate Leads<T(!new)>(counts: map<T, nat>, seen: set<T>, best: T, less: (T, T) -> bool) {
    && seen <= counts.Keys
    && best in seen
    && forall v | v in seen && v != best ::
         counts[v] < counts[best] || (counts[v] == counts[best] && less(best, v))
  }

  predicate Better<T>(counts: map<T, nat>, v: T, best: T, less: (T, T) -> bool)
    requires v in counts && best in counts
  {
    counts[v] > counts[best] || (counts[v] == counts[best] && less(v, best))
  }

  lemma LeadsStep<T(!new)>(counts: map<T, nat>, seen: set<T>, best: T, v: T, less: (T, T) -> bool)
    requires Total(less) && Leads(counts, seen, best, less)
    requires v in counts && v !in seen
    ensures Leads(counts, seen + {v}, if Better(counts, v, best, less) then v else best, less)
  {
  }

  lemma LeadsAll<T(!new)>(counts: map<T, nat>, s: multiset<T>, best: T, less: (T, T) -> bool)
    requires Counts(counts, s) && Leads(counts, counts.Keys, best, less)
    ensures IsModal(s, best, less)
  {
  }

  method CountNonZero(values: seq<int>) returns (counts: map<int, nat>)
    ensures Counts(counts, multiset(NonZero(values)))
  {
    counts := map[];
    for i := 0 to |values|
      invariant Counts(counts, multiset(NonZero(values[..i])))
    {
      assert values[..i + 1][..i] == values[..i];
      if values[i] != 0 {
        CountAdds(counts, multiset(NonZero(values[..i])), values[i]);
        counts := Count(counts, values[i]);
      }
    }
    assert values[..|values|] == values;
  }

  ghost function CountsOf<T(!new)>(s: multiset<T>): map<T, nat> {
    map v | v in s :: s[v]
  }

  lemma {:induction false} LeaderExists<T(!new)>(counts: map<T, nat>, seen: set<T>, less: (T, T) -> bool)
    returns (best: T)
    requires Total(less) && seen != {} && seen <= counts.Keys
    ensures Leads(counts, seen, best, less)
    decreases |seen|
  {
    var v := ElementOf(seen);
    var rest := seen - {v};
    assert rest + {v} == seen;
    if rest == {} {
      best := v;
    } else {
      best := LeaderExists(counts, rest, less);
      LeadsStep(counts, rest, best, v, less);
      best := if Better(counts, v, best, less) then v else best;
    }
  }

  /** The modal value of `s`, or `none` when `s` is empty. */
  ghost function ModalOf<T(!new)>(s: multiset<T>, none: T, less: (T, T) -> bool): (best: T)
    requires Total(less)
    ensures s == multiset{} ==> best == none
    ensures s != multiset{} ==> IsModal(s, best, less)
  {
    if s == multiset{} then none
    else
      assert exists b :: IsModal(s, b, less) by {
        var counts := CountsOf(s);
        var v :| v in s;
        assert v in counts.Keys;
        var b := LeaderExists(counts, counts.Keys, less);
        LeadsAll(counts, s, b, less);
      }
      var b :| IsModal(s, b, less);
      b
  }

  lemma SeenGrows<T>(keys: set<T>, seen: set<T>, v: T)
    requires seen <= keys && v in keys && v !in seen
    ensures seen + {v} <= keys
    ensures keys - (seen + {v}) == keys - seen - {v}
  {
  }

  /** The loop over the counts, in whatever order the map yields them. */
  method MostCommonInt(counts: map<int, nat>) returns (best: int)
    ensures counts == map[] ==> best == 0
    ensures counts != map[] ==> Leads(counts, counts.Keys, best, IntLess())
  {
    best := 0;
    var bestCount, first := 0, true;
    var rest := counts.Keys;
    ghost var seen: set<int> := {};
    while rest != {}
      invariant seen <= counts.Keys && rest == counts.Keys - seen
      invariant first <==> seen == {}
      invariant first ==> best == 0
      invariant !first ==> Leads(counts, seen, best, IntLess()) && bestCount == counts[best]
      decreases |rest|
    {
      var v := AnyOf(rest);
      var n := counts[v];
      rest := rest - {v};
      SeenGrows(counts.Keys, seen, v);
      if first {
        assert seen + {v} == {v};
      } else {
        LeadsStep(counts, seen, best, v, IntLess());
      }
      seen := seen + {v};
      if first || n > bestCount || (n == bestCount && v < best) {
        best, bestCount, first := v, n, false;
      }
    }
    assert seen == counts.Keys;
  }

  /** The most common nonzero value, ties to the smaller; 0 when there is none. */
  method ModalSearchInt(values: seq<int>) returns (best: int)
    ensures NonZero(values) == [] ==> best == 0
    ensures NonZero(values) != [] ==> IsModal(multiset(NonZero(values)), best, IntLess())
  {
    var counts := CountNonZero(values);
    best := MostCommonInt(counts);
    if NonZero(values) == [] {
      assert forall v :: v !in counts;
    } else {
      assert NonZero(values)[0] in counts;
      LeadsAll(counts, multiset(NonZero(values)), best, IntLess());
    }
  }

  /**
   The extension with the highest count, ties to the lexicographically smaller; "" when there is
   none. "" doubles as "none yet", so the caller must not count the empty extension.
  */
  method ModalSearchString(counts: map<string, nat>) returns (best: string)
    requires "" !in counts
    ensures counts == map[] ==> best == ""
    ensures counts != map[] ==> Leads(counts, counts.Keys, best, TextLess())
  {
    TextLessTotal();
    best := "";
    var rest := counts.Keys;
    ghost var seen: set<string> := {};
    while rest != {}
      invariant seen <= counts.Keys && rest == counts.Keys - seen
      invariant best == "" <==> seen == {}
      invariant best != "" ==> Leads(counts, seen, best, TextLess())
      decreases |rest|
    {
      var ext := AnyOf(rest);
      var n := counts[ext];
      rest := rest - {ext};
      SeenGrows(counts.Keys, seen, ext);
      if best == "" {
        assert seen + {ext} == {ext};
      } else {
        LeadsStep(counts, seen, best, ext, TextLess());
      }
      seen := seen + {ext};
      if best == "" || n > counts[best] || (n == counts[best] && StrLess(ext, best)) {
        best := ext;
      }
    }
    assert seen == counts.Keys;
  }
}
