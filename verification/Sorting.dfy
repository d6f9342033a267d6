/** Python's `sorted` and `list.sort`: stable, by a numeric key, ascending.
    A descending sort (`reverse=True`) keeps equal elements in their original
    order too, so it is the ascending sort by the negated key. */
module Sorting {

  datatype Keyed<T> = Keyed(key: real, val: T)

  ghost predicate Ascending<T>(s: seq<Keyed<T>>) {
    forall i, j :: 0 <= i < j < |s| ==> s[i].key <= s[j].key
  }

  /** Where a new element goes: after everything in s whose key is no larger. */
  function Slot<T>(s: seq<Keyed<T>>, key: real): (p: nat)
    ensures p <= |s|
    ensures p > 0 ==> s[p - 1].key <= key
    ensures forall i :: p <= i < |s| ==> key < s[i].key
  {
    if s == [] || s[|s| - 1].key <= key then |s| else Slot(s[..|s| - 1], key)
  }

  function Insert<T>(s: seq<Keyed<T>>, x: Keyed<T>): (r: seq<Keyed<T>>)
    ensures |r| == |s| + 1
    ensures Ascending(s) ==> Ascending(r)
  {
    var p := Slot(s, x.key);
    assert p > 0 && Ascending(s) ==> forall i :: 0 <= i < p ==> s[i].key <= s[p - 1].key;
    s[..p] + [x] + s[p..]
  }

  function Sort<T>(s: seq<Keyed<T>>): (r: seq<Keyed<T>>)
    ensures |r| == |s|
    ensures Ascending(r)
  {
    if s == [] then [] else Insert(Sort(s[..|s| - 1]), s[|s| - 1])
  }

  lemma {:induction false} Bags<T>(front: seq<T>, x: T, back: seq<T>)
    ensures multiset(front + [x] + back) == multiset(front + back) + multiset{x}
  {
  }

  lemma {:induction false} InsertPermutes<T>(s: seq<Keyed<T>>, x: Keyed<T>)
    ensures multiset(Insert(s, x)) == multiset(s) + multiset{x}
  {
    var p := Slot(s, x.key);
    Bags(s[..p], x, s[p..]);
    hide Slot, Ascending;
    assert s == s[..p] + s[p..];
  }

  /** Sorting neither adds nor loses anything. */
  lemma {:induction false} SortPermutes<T>(s: seq<Keyed<T>>)
    ensures multiset(Sort(s)) == multiset(s)
  {
    if s != [] {
      var init, last := s[..|s| - 1], s[|s| - 1];
      SortPermutes(init);
      InsertPermutes(Sort(init), last);
      assert s == init + [last];
    }
  }

  /** Sorting an already sorted list changes nothing. */
  lemma {:induction false} SortFixesSorted<T>(s: seq<Keyed<T>>)
    requires Ascending(s)
    ensures Sort(s) == s
  {
    if s != [] {
      var init, last := s[..|s| - 1], s[|s| - 1];
      SortFixesSorted(init);
      assert s == init + [last];
    }
  }

  /** Appending to a sorted list and sorting again is one insertion. */
  lemma {:induction false} SortAppended<T>(s: seq<Keyed<T>>, x: Keyed<T>)
    requires Ascending(s)
    ensures Sort(s + [x]) == Insert(s, x)
  {
    SortFixesSorted(s);
    assert (s + [x])[..|s|] == s;
  }

  /** The elements of a sorted list are those of the list. */
  lemma {:induction false} SortMembers<T>(s: seq<Keyed<T>>)
    ensures forall x :: x in Sort(s) <==> x in s
  {
    SortPermutes(s);
    forall x
      ensures x in Sort(s) <==> x in s
    {
      assert x in Sort(s) <==> x in multiset(Sort(s));
      assert x in s <==> x in multiset(s);
    }
  }

  /** By key, then by position: the order a stable sort produces on values that
      are themselves increasing positions. */
  ghost predicate Lexicographic(s: seq<Keyed<int>>) {
    forall i, j :: 0 <= i < j < |s| ==>
      s[i].key < s[j].key || (s[i].key == s[j].key && s[i].val < s[j].val)
  }

  lemma {:induction false} InsertIsStable(s: seq<Keyed<int>>, x: Keyed<int>)
    requires Lexicographic(s)
    requires forall i :: 0 <= i < |s| ==> s[i].val < x.val
    ensures Lexicographic(Insert(s, x))
  {
    var p, r := Slot(s, x.key), Insert(s, x);
    assert forall i :: 0 <= i < p ==> s[i].key <= s[p - 1].key;
    hide Slot, Ascending, Insert;
    forall i, j | 0 <= i < j < |r|
      ensures r[i].key < r[j].key || (r[i].key == r[j].key && r[i].val < r[j].val)
    {
      InsertAt(s, x, i);
      InsertAt(s, x, j);
    }
  }

  /** Ties keep their original order. */
  lemma {:induction false} SortIsStable(s: seq<Keyed<int>>)
    requires forall i, j :: 0 <= i < j < |s| ==> s[i].val < s[j].val
    ensures Lexicographic(Sort(s))
  {
    if s != [] {
      var init, last := s[..|s| - 1], s[|s| - 1];
      SortIsStable(init);
      SortMembers(init);
      forall i | 0 <= i < |init|
        ensures Sort(init)[i].val < last.val
      {
        assert Sort(init)[i] in init;
      }
      InsertIsStable(Sort(init), last);
    }
  }

  /** The first n elements, or all of them. */
  function Take<T>(s: seq<T>, n: nat): (r: seq<T>)
    ensures r <= s && |r| == if |s| <= n then |s| else n
  {
    if |s| <= n then s else s[..n]
  }

  lemma {:induction false} InsertAt<T>(s: seq<Keyed<T>>, x: Keyed<T>, i: nat)
    requires i <= |s|
    ensures Insert(s, x)[i] == if i < Slot(s, x.key) then s[i] else if i == Slot(s, x.key) then x else s[i - 1]
  {
  }

  /** Keeping only the n smallest loses nothing a later insertion needs. */
  lemma {:induction false} TakeInsert<T>(s: seq<Keyed<T>>, x: Keyed<T>, n: nat)
    requires Ascending(s) && n >= 1
    ensures Take(Insert(s, x), n) == Take(Insert(Take(s, n), x), n)
  {
    if |s| > n {
      SlotOfPrefix(s, x.key, n);
      forall i | 0 <= i < n
        ensures Insert(s, x)[i] == Insert(s[..n], x)[i]
      {
        InsertAt(s, x, i);
        InsertAt(s[..n], x, i);
      }
      assert Insert(s, x)[..n] == Insert(s[..n], x)[..n];
    }
  }

  /** An element no smaller than the n-th is not among the n smallest. */
  lemma {:induction false} TakeRejects<T>(s: seq<Keyed<T>>, x: Keyed<T>, n: nat)
    requires Ascending(s) && 1 <= n <= |s| && s[n - 1].key <= x.key
    ensures Take(Insert(s, x), n) == Take(s, n)
  {
    assert Slot(s, x.key) >= n;
    forall i | 0 <= i < n
      ensures Insert(s, x)[i] == s[i]
    {
      InsertAt(s, x, i);
    }
    assert Insert(s, x)[..n] == s[..n];
  }

  lemma {:induction false} SlotOfPrefix<T>(s: seq<Keyed<T>>, key: real, n: nat)
    requires Ascending(s) && n <= |s|
    ensures Slot(s[..n], key) == if Slot(s, key) <= n then Slot(s, key) else n
  {
    var p, q := Slot(s, key), Slot(s[..n], key);
    if q < n {
      assert s[..n][q].key == s[q].key;
    }
    if q > 0 {
      assert s[..n][q - 1].key == s[q - 1].key;
    }
  }
}
