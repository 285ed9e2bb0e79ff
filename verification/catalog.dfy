/**
 * Catalog entries as the Jellyfin server returns them (movies, series,
 * episodes and libraries are all JSON objects of the same shape) and the
 * `str(field) == str(wanted)` filter the client applies to them.
 */
module Catalog {
  import opened PyValues

  /** One entry of an item's `MediaSources`; only its `Path` is read. */
  datatype MediaSource = MediaSource(path: Scalar)

  /**
   * A catalog entry. `id` and `name` are `None` when the key is absent (the
   * client reads `Id` with `[...]` and `Name` with a default); the other
   * fields are read with `.get`, so an absent key reads as `Null`. An absent
   * or null `MediaSources` list reads as empty.
   */
  datatype Item = Item(
    id: Option<Scalar>,
    name: Option<Scalar>,
    path: Scalar,
    productionYear: Scalar,
    indexNumber: Scalar,
    mediaSources: seq<MediaSource>)

  /** The two fields the searches filter on. */
  datatype Field = ProductionYear | IndexNumber

  function FieldOf(item: Item, f: Field): Scalar {
    match f
    case ProductionYear => item.productionYear
    case IndexNumber => item.indexNumber
  }

  /** `str(item.get(f)) == str(wanted)`: equal as text, so `2020` matches `"2020"`. */
  predicate Matches(item: Item, f: Field, wanted: Scalar) {
    Str(FieldOf(item, f)) == Str(wanted)
  }

  /** `[i for i in items if str(i.get(f)) == str(wanted)]`. */
  function KeepMatching(items: seq<Item>, f: Field, wanted: Scalar): (kept: seq<Item>)
    ensures |kept| <= |items|
    ensures forall k :: 0 <= k < |kept| ==> Matches(kept[k], f, wanted)
    decreases |items|
  {
    if items == [] then []
    else
      var rest := KeepMatching(items[1..], f, wanted);
      if Matches(items[0], f, wanted) then [items[0]] + rest else rest
  }

  /** The filter keeps exactly the matching items. */
  lemma {:induction false} KeepMatchingMembers(items: seq<Item>, f: Field, wanted: Scalar)
    ensures forall x :: x in KeepMatching(items, f, wanted) <==> x in items && Matches(x, f, wanted)
    decreases |items|
  {
    if items != [] {
      KeepMatchingMembers(items[1..], f, wanted);
      assert items == [items[0]] + items[1..];
    }
  }

  /** `a` is obtained from `b` by deleting elements, keeping the order of the rest. */
  ghost predicate IsSubsequence<T>(a: seq<T>, b: seq<T>)
    decreases |b|
  {
    if a == [] then true
    else if b == [] then false
    else (a[0] == b[0] && IsSubsequence(a[1..], b[1..])) || IsSubsequence(a, b[1..])
  }

  lemma {:induction false} SubsequenceOfItself<T>(s: seq<T>)
    ensures IsSubsequence(s, s)
    decreases |s|
  {
    if s != [] {
      SubsequenceOfItself(s[1..]);
    }
  }

  /** The filter keeps the original relative order. */
  lemma {:induction false} KeepMatchingIsSubsequence(items: seq<Item>, f: Field, wanted: Scalar)
    ensures IsSubsequence(KeepMatching(items, f, wanted), items)
    decreases |items|
  {
    if items != [] {
      KeepMatchingIsSubsequence(items[1..], f, wanted);
      var kept := KeepMatching(items, f, wanted);
      if Matches(items[0], f, wanted) {
        assert kept[1..] == KeepMatching(items[1..], f, wanted);
      }
    }
  }

  /** Each matching item is kept as many times as it occurs; the others not at all. */
  lemma {:induction false} KeepMatchingCount(items: seq<Item>, f: Field, wanted: Scalar, x: Item)
    ensures multiset(KeepMatching(items, f, wanted))[x]
         == if Matches(x, f, wanted) then multiset(items)[x] else 0
    decreases |items|
  {
    if items != [] {
      KeepMatchingCount(items[1..], f, wanted, x);
      assert items == [items[0]] + items[1..];
      assert multiset(items) == multiset([items[0]]) + multiset(items[1..]);
    }
  }

  /** Filtering a concatenation filters each part, in order. */
  lemma {:induction false} KeepMatchingAppend(a: seq<Item>, b: seq<Item>, f: Field, wanted: Scalar)
    ensures KeepMatching(a + b, f, wanted) == KeepMatching(a, f, wanted) + KeepMatching(b, f, wanted)
    decreases |a|
  {
    if a == [] {
      assert a + b == b;
    } else {
      assert (a + b)[0] == a[0];
      assert (a + b)[1..] == a[1..] + b;
      KeepMatchingAppend(a[1..], b, f, wanted);
    }
  }
}
