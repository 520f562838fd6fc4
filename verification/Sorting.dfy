/** The stable sort behind Python's `sorted` and pandas' `sort_values`, with the two
    facts the other modules need: it rearranges, and the result is unique when keys are. */
module Sorting {

  ghost predicate SortedBy<T>(s: seq<T>, key: T -> real) {
    forall i, j | 0 <= i < j < |s| :: key(s[i]) <= key(s[j])
  }

  function Insert<T(==)>(x: T, s: seq<T>, key: T -> real): seq<T> {
    if s == [] || key(x) <= key(s[0]) then [x] + s else [s[0]] + Insert(x, s[1..], key)
  }

  function Sort<T(==)>(s: seq<T>, key: T -> real): seq<T> {
    if s == [] then [] else Insert(s[0], Sort(s[1..], key), key)
  }

  lemma {:induction false} InsertRearranges<T>(x: T, s: seq<T>, key: T -> real)
    ensures multiset(Insert(x, s, key)) == multiset{x} + multiset(s)
  {
    if !(s == [] || key(x) <= key(s[0])) {
      InsertRearranges(x, s[1..], key);
      assert s == [s[0]] + s[1..];
    }
  }

  lemma {:induction false} InsertSorts<T>(x: T, s: seq<T>, key: T -> real)
    requires SortedBy(s, key)
    ensures SortedBy(Insert(x, s, key), key)
  {
    if !(s == [] || key(x) <= key(s[0])) {
      InsertSorts(x, s[1..], key);
      InsertRearranges(x, s[1..], key);
      var rest := Insert(x, s[1..], key);
      forall j | 0 <= j < |rest| ensures key(s[0]) <= key(rest[j]) {
        assert rest[j] in multiset(rest);
        assert rest[j] == x || rest[j] in s[1..];
      }
    }
  }

  lemma {:induction false} SortCorrect<T>(s: seq<T>, key: T -> real)
    ensures SortedBy(Sort(s, key), key)
    ensures multiset(Sort(s, key)) == multiset(s)
    ensures |Sort(s, key)| == |s|
  {
    if s != [] {
      SortCorrect(s[1..], key);
      InsertSorts(s[0], Sort(s[1..], key), key);
      InsertRearranges(s[0], Sort(s[1..], key), key);
      assert s == [s[0]] + s[1..];
      SameSize(Sort(s, key), s);
    }
  }

  lemma SameSize<T>(s: seq<T>, t: seq<T>)
    requires multiset(s) == multiset(t)
    ensures |s| == |t|
  {
    assert |multiset(s)| == |s| && |multiset(t)| == |t|;
  }

  /** Removing the element at `i` removes exactly that element from the bag. */
  lemma RemoveAt<T>(s: seq<T>, i: nat)
    requires i < |s|
    ensures multiset(s[..i] + s[i + 1..]) == multiset(s) - multiset{s[i]}
  {
    assert s == s[..i] + [s[i]] + s[i + 1..];
  }

  lemma RemoveFirst<T>(s: seq<T>)
    requires s != []
    ensures multiset(s[1..]) == multiset(s) - multiset{s[0]}
  {
    RemoveAt(s, 0);
    assert s[..0] + s[1..] == s[1..];
  }

  lemma HasIndex<T>(x: T, s: seq<T>, t: seq<T>) returns (j: nat)
    requires multiset(s) == multiset(t) && x in s
    ensures j < |t| && t[j] == x
  {
    assert x in multiset(t);
    j :| j < |t| && t[j] == x;
  }

  ghost predicate KeysTellApart<T>(s: seq<T>, key: T -> real) {
    forall i, j | 0 <= i < |s| && 0 <= j < |s| && key(s[i]) == key(s[j]) :: s[i] == s[j]
  }

  lemma SortedHeadsAgree<T>(s: seq<T>, t: seq<T>, key: T -> real)
    requires SortedBy(s, key) && SortedBy(t, key) && KeysTellApart(s, key)
    requires multiset(s) == multiset(t) && s != [] && t != []
    ensures s[0] == t[0]
  {
    var i := HasIndex(s[0], s, t);
    var j := HasIndex(t[0], t, s);
    assert key(s[0]) <= key(s[j]) && key(t[0]) <= key(t[i]);
  }

  lemma SameTails<T>(s: seq<T>, t: seq<T>)
    requires multiset(s) == multiset(t) && s != [] && t != [] && s[0] == t[0]
    ensures multiset(s[1..]) == multiset(t[1..])
  {
    RemoveFirst(s);
    RemoveFirst(t);
  }

  lemma SameHeadAndTail<T>(s: seq<T>, t: seq<T>)
    requires s != [] && t != [] && s[0] == t[0] && s[1..] == t[1..]
    ensures s == t
  {
    assert s == [s[0]] + s[1..];
    assert t == [t[0]] + t[1..];
  }

  lemma TailSorted<T>(s: seq<T>, key: T -> real)
    requires SortedBy(s, key) && s != []
    ensures SortedBy(s[1..], key)
  {
  }

  lemma TailInherits<T>(s: seq<T>, key: T -> real)
    requires SortedBy(s, key) && KeysTellApart(s, key) && s != []
    ensures SortedBy(s[1..], key) && KeysTellApart(s[1..], key)
  {
  }

  /** Two sorted arrangements of the same elements coincide when no two elements share a key. */
  lemma {:induction false} SortedIsUnique<T>(s: seq<T>, t: seq<T>, key: T -> real)
    requires SortedBy(s, key) && SortedBy(t, key) && KeysTellApart(s, key)
    requires multiset(s) == multiset(t)
    ensures s == t
  {
    SameSize(s, t);
    if s != [] {
      SortedHeadsAgree(s, t, key);
      SameTails(s, t);
      TailInherits(s, key);
      TailSorted(t, key);
      SortedIsUnique(s[1..], t[1..], key);
      SameHeadAndTail(s, t);
    }
  }
}
