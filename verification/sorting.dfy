/**
 Stable insertion sort by a comparison, which stands for the library sorts the
 programs call: what a sort keeps, and when its result depends on nothing but
 what is sorted.
*/
module Sorting {

  /** Goes before the first item it does not come after. */
  function Insert<T>(compare: (T, T) -> int, item: T, sorted: seq<T>): seq<T> {
    if sorted == [] || compare(item, sorted[0]) <= 0 then [item] + sorted
    else [sorted[0]] + Insert(compare, item, sorted[1..])
  }

  function Sort<T>(compare: (T, T) -> int, items: seq<T>): seq<T> {
    if items == [] then [] else Insert(compare, items[0], Sort(compare, items[1..]))
  }

  ghost predicate Consistent<T(!new)>(compare: (T, T) -> int) {
    && (forall a, b :: compare(a, b) < 0 <==> compare(b, a) > 0)
    && (forall a, b, c :: compare(a, b) < 0 && compare(b, c) < 0 ==> compare(a, c) < 0)
  }

  ghost predicate Ascends<T>(compare: (T, T) -> int, items: seq<T>) {
    forall i, j | 0 <= i < j < |items| :: compare(items[i], items[j]) < 0
  }

  /** No two items compare equal. */
  ghost predicate AllDiffer<T>(compare: (T, T) -> int, items: seq<T>) {
    forall i, j | 0 <= i < j < |items| :: compare(items[i], items[j]) != 0
  }

  ghost predicate SameMembers<T(!new)>(a: seq<T>, b: seq<T>) {
    forall x :: x in a <==> x in b
  }

  lemma {:induction false} InsertContents<T>(compare: (T, T) -> int, item: T, sorted: seq<T>)
    ensures multiset(Insert(compare, item, sorted)) == multiset(sorted) + multiset{item}
  {
    if sorted != [] && compare(item, sorted[0]) > 0 {
      InsertContents(compare, item, sorted[1..]);
      assert sorted == [sorted[0]] + sorted[1..];
    }
  }

  lemma {:induction false} SortContents<T>(compare: (T, T) -> int, items: seq<T>)
    ensures multiset(Sort(compare, items)) == multiset(items)
  {
    if items != [] {
      SortContents(compare, items[1..]);
      InsertContents(compare, items[0], Sort(compare, items[1..]));
      assert items == [items[0]] + items[1..];
    }
  }

  lemma SortMember<T>(compare: (T, T) -> int, items: seq<T>, x: T)
    ensures x in Sort(compare, items) <==> x in items
    ensures |Sort(compare, items)| == |items|
  {
    SortContents(compare, items);
    assert x in Sort(compare, items) <==> x in multiset(Sort(compare, items));
    assert x in items <==> x in multiset(items);
    assert |Sort(compare, items)| == |multiset(Sort(compare, items))| && |items| == |multiset(items)|;
  }

  lemma InsertMember<T>(compare: (T, T) -> int, item: T, sorted: seq<T>, x: T)
    ensures x in Insert(compare, item, sorted) <==> x == item || x in sorted
  {
    InsertContents(compare, item, sorted);
    assert x in Insert(compare, item, sorted) <==> x in multiset(Insert(compare, item, sorted));
    assert x in sorted <==> x in multiset(sorted);
  }

  lemma {:induction false} InsertAscends<T(!new)>(compare: (T, T) -> int, item: T, sorted: seq<T>)
    requires Consistent(compare) && Ascends(compare, sorted)
    requires forall i | 0 <= i < |sorted| :: compare(item, sorted[i]) != 0
    ensures Ascends(compare, Insert(compare, item, sorted))
  {
    if sorted != [] && compare(item, sorted[0]) > 0 {
      InsertAscends(compare, item, sorted[1..]);
      var rest := Insert(compare, item, sorted[1..]);
      forall i | 0 <= i < |rest| ensures compare(sorted[0], rest[i]) < 0 {
        InsertMember(compare, item, sorted[1..], rest[i]);
        if rest[i] != item {
          var k :| 0 <= k < |sorted| - 1 && sorted[1..][k] == rest[i];
          assert sorted[k + 1] == rest[i];
        }
      }
    }
  }

  lemma {:induction false} SortAscends<T(!new)>(compare: (T, T) -> int, items: seq<T>)
    requires Consistent(compare) && AllDiffer(compare, items)
    ensures Ascends(compare, Sort(compare, items))
  {
    if items != [] {
      SortAscends(compare, items[1..]);
      var rest := Sort(compare, items[1..]);
      forall i | 0 <= i < |rest| ensures compare(items[0], rest[i]) != 0 {
        SortMember(compare, items[1..], rest[i]);
        var k :| 0 <= k < |items| - 1 && items[1..][k] == rest[i];
        assert items[k + 1] == rest[i];
      }
      InsertAscends(compare, items[0], rest);
    }
  }

  lemma TailsMatch<T(!new)>(compare: (T, T) -> int, a: seq<T>, b: seq<T>)
    requires Consistent(compare) && Ascends(compare, a) && Ascends(compare, b) && SameMembers(a, b)
    requires a != [] && b != [] && a[0] == b[0]
    ensures SameMembers(a[1..], b[1..])
  {
    forall x ensures x in a[1..] <==> x in b[1..] {
      assert x in a <==> x == a[0] || x in a[1..];
      assert x in b <==> x == b[0] || x in b[1..];
      assert a[0] !in a[1..] && b[0] !in b[1..];
    }
  }

  lemma Asymmetric<T(!new)>(compare: (T, T) -> int, x: T, y: T)
    requires Consistent(compare)
    ensures compare(x, y) < 0 <==> compare(y, x) > 0
  {
  }

  lemma HeadsMatch<T(!new)>(compare: (T, T) -> int, a: seq<T>, b: seq<T>)
    requires Consistent(compare) && Ascends(compare, a) && Ascends(compare, b) && SameMembers(a, b)
    requires a != [] && b != []
    ensures a[0] == b[0]
  {
    hide Consistent;
    assert a[0] in a && a[0] in b;
    var j :| 0 <= j < |b| && b[j] == a[0];
    assert b[0] in b && b[0] in a;
    var i :| 0 <= i < |a| && a[i] == b[0];
    Asymmetric(compare, a[0], b[0]);
  }

  lemma HasMember<T>(items: seq<T>)
    ensures items != [] ==> exists x :: x in items
  {
    if items != [] {
      assert items[0] in items;
    }
  }

  lemma {:induction false} AscendingUnique<T(!new)>(compare: (T, T) -> int, a: seq<T>, b: seq<T>)
    requires Consistent(compare) && Ascends(compare, a) && Ascends(compare, b) && SameMembers(a, b)
    ensures a == b
    decreases |a|
  {
    hide Consistent;
    HasMember(a);
    HasMember(b);
    if a != [] {
      HeadsMatch(compare, a, b);
      TailsMatch(compare, a, b);
      AscendingUnique(compare, a[1..], b[1..]);
      assert a == [a[0]] + a[1..] && b == [b[0]] + b[1..];
    }
  }

  /** Of items that all differ, the order they came in is forgotten. */
  lemma SortForgetsOrder<T(!new)>(compare: (T, T) -> int, a: seq<T>, b: seq<T>)
    requires Consistent(compare) && AllDiffer(compare, a) && AllDiffer(compare, b)
    ensures Sort(compare, a) == Sort(compare, b) <==> SameMembers(a, b)
  {
    SortAscends(compare, a);
    SortAscends(compare, b);
    forall x ensures x in Sort(compare, a) <==> x in a
             ensures x in Sort(compare, b) <==> x in b {
      SortMember(compare, a, x);
      SortMember(compare, b, x);
    }
    if SameMembers(a, b) {
      AscendingUnique(compare, Sort(compare, a), Sort(compare, b));
    }
  }

  // ---------------------------------------------------------------------
  // With equal items: sorted all the same.
  // ---------------------------------------------------------------------

  ghost predicate NeverDescends<T>(compare: (T, T) -> int, items: seq<T>) {
    forall i, j | 0 <= i < j < |items| :: compare(items[i], items[j]) <= 0
  }

  /** A comparison by some key: equal items compare alike with all others. */
  ghost predicate Preorder<T(!new)>(compare: (T, T) -> int) {
    && (forall a, b :: compare(a, b) < 0 <==> compare(b, a) > 0)
    && (forall a, b, c :: compare(a, b) <= 0 && compare(b, c) <= 0 ==> compare(a, c) <= 0)
  }

  lemma {:induction false} InsertNeverDescends<T(!new)>(compare: (T, T) -> int, item: T, sorted: seq<T>)
    requires Preorder(compare) && NeverDescends(compare, sorted)
    ensures NeverDescends(compare, Insert(compare, item, sorted))
  {
    if sorted == [] || compare(item, sorted[0]) <= 0 {
      forall j | 0 <= j < |sorted| ensures compare(item, sorted[j]) <= 0 {
        assert j > 0 ==> compare(sorted[0], sorted[j]) <= 0;
      }
    } else {
      InsertNeverDescends(compare, item, sorted[1..]);
      var rest := Insert(compare, item, sorted[1..]);
      forall i | 0 <= i < |rest| ensures compare(sorted[0], rest[i]) <= 0 {
        InsertMember(compare, item, sorted[1..], rest[i]);
        if rest[i] != item {
          var k :| 0 <= k < |sorted| - 1 && sorted[1..][k] == rest[i];
          assert sorted[k + 1] == rest[i];
        }
      }
    }
  }

  /** The result of a sort never descends, whatever compares equal. */
  lemma {:induction false} SortNeverDescends<T(!new)>(compare: (T, T) -> int, items: seq<T>)
    requires Preorder(compare)
    ensures NeverDescends(compare, Sort(compare, items))
  {
    if items != [] {
      SortNeverDescends(compare, items[1..]);
      InsertNeverDescends(compare, items[0], Sort(compare, items[1..]));
    }
  }
}
