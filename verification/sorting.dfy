/** Python's `sorted`: stable, here as insertion from left to right. */
module Sorting {
  import opened Basics

  /** Puts x behind everything that may stand before it. */
  function Insert<T>(le: (T, T) -> bool, x: T, s: seq<T>): (r: seq<T>)
    ensures |r| == |s| + 1
  {
    if s == [] || le(Last(s), x) then s + [x]
    else Insert(le, x, s[..|s| - 1]) + [Last(s)]
  }

  function Sort<T>(le: (T, T) -> bool, s: seq<T>): (r: seq<T>)
    ensures |r| == |s|
  {
    if s == [] then [] else Insert(le, Last(s), Sort(le, s[..|s| - 1]))
  }

  ghost predicate Ordered<T>(le: (T, T) -> bool, s: seq<T>) {
    forall i, j | 0 <= i < j < |s| :: le(s[i], s[j])
  }

  ghost predicate TotalPreorder<T(!new)>(le: (T, T) -> bool) {
    && (forall x, y :: le(x, y) || le(y, x))
    && (forall x, y, z :: le(x, y) && le(y, z) ==> le(x, z))
  }

  lemma {:induction false} InsertKeeps<T>(le: (T, T) -> bool, x: T, s: seq<T>)
    ensures multiset(Insert(le, x, s)) == multiset(s) + multiset{x}
  {
    if s != [] && !le(Last(s), x) {
      InsertKeeps(le, x, s[..|s| - 1]);
      assert s == s[..|s| - 1] + [Last(s)];
    }
  }

  lemma {:induction false} InsertOrders<T(!new)>(le: (T, T) -> bool, x: T, s: seq<T>)
    requires TotalPreorder(le) && Ordered(le, s)
    ensures Ordered(le, Insert(le, x, s))
  {
    if s != [] && !le(Last(s), x) {
      InsertOrders(le, x, s[..|s| - 1]);
      InsertKeeps(le, x, s[..|s| - 1]);
      var r := Insert(le, x, s[..|s| - 1]);
      forall i | 0 <= i < |r|
        ensures le(r[i], Last(s))
      {
        assert r[i] in multiset(r);
        assert r[i] == x || r[i] in s[..|s| - 1];
      }
    } else if s != [] {
      forall i | 0 <= i < |s|
        ensures le(s[i], x)
      {
        assert i < |s| - 1 ==> le(s[i], Last(s));
      }
    }
  }

  /** Sorting reorders and nothing else. */
  lemma {:induction false} SortKeeps<T>(le: (T, T) -> bool, s: seq<T>)
    ensures multiset(Sort(le, s)) == multiset(s)
  {
    if s != [] {
      var front := s[..|s| - 1];
      SortKeeps(le, front);
      InsertKeeps(le, Last(s), Sort(le, front));
      assert s == front + [Last(s)];
    }
  }

  lemma {:induction false} SortOrders<T(!new)>(le: (T, T) -> bool, s: seq<T>)
    requires TotalPreorder(le)
    ensures Ordered(le, Sort(le, s))
  {
    if s != [] {
      SortOrders(le, s[..|s| - 1]);
      InsertOrders(le, Last(s), Sort(le, s[..|s| - 1]));
    }
  }

  /** What is in order is left alone. */
  lemma {:induction false} SortOfOrdered<T>(le: (T, T) -> bool, s: seq<T>)
    requires Ordered(le, s)
    ensures Sort(le, s) == s
  {
    if s != [] {
      hide Insert;
      FrontOrdered(le, s);
      SortOfOrdered(le, s[..|s| - 1]);
      InsertAtEnd(le, Last(s), s[..|s| - 1]);
    }
  }

  lemma FrontOrdered<T>(le: (T, T) -> bool, s: seq<T>)
    requires s != [] && Ordered(le, s)
    ensures Ordered(le, s[..|s| - 1]) && s == s[..|s| - 1] + [Last(s)]
    ensures |s| > 1 ==> le(Last(s[..|s| - 1]), Last(s))
  {
  }

  lemma InsertAtEnd<T>(le: (T, T) -> bool, x: T, s: seq<T>)
    requires s == [] || le(Last(s), x)
    ensures Insert(le, x, s) == s + [x]
  {
  }

  /** Any two elements, whichever comes first. */
  ghost predicate Pairwise<T>(rel: (T, T) -> bool, s: seq<T>) {
    forall i, j | 0 <= i < |s| && 0 <= j < |s| && i != j :: rel(s[i], s[j])
  }

  lemma {:induction false} InsertKeepsPairs<T>(le: (T, T) -> bool, rel: (T, T) -> bool, x: T, s: seq<T>)
    requires Pairwise(rel, s) && forall i | 0 <= i < |s| :: rel(s[i], x) && rel(x, s[i])
    ensures Pairwise(rel, Insert(le, x, s))
  {
    if s != [] && !le(Last(s), x) {
      var front := s[..|s| - 1];
      InsertKeepsPairs(le, rel, x, front);
      InsertKeeps(le, x, front);
      var r := Insert(le, x, front);
      forall i | 0 <= i < |r|
        ensures rel(r[i], Last(s)) && rel(Last(s), r[i])
      {
        assert r[i] in multiset(r);
        assert r[i] == x || r[i] in front;
      }
    }
  }

  /** What holds of any two elements holds of them after sorting. */
  lemma {:induction false} SortKeepsPairs<T>(le: (T, T) -> bool, rel: (T, T) -> bool, s: seq<T>)
    requires Pairwise(rel, s)
    ensures Pairwise(rel, Sort(le, s))
  {
    if s != [] {
      var front := s[..|s| - 1];
      SortKeepsPairs(le, rel, front);
      SortKeeps(le, front);
      var r := Sort(le, front);
      forall i | 0 <= i < |r|
        ensures rel(r[i], Last(s)) && rel(Last(s), r[i])
      {
        assert r[i] in multiset(r);
        assert r[i] in front;
      }
      InsertKeepsPairs(le, rel, Last(s), r);
    }
  }

  lemma SortStep<T>(le: (T, T) -> bool, s: seq<T>, x: T)
    ensures Sort(le, s + [x]) == Insert(le, x, Sort(le, s))
  {
    assert (s + [x])[..|s|] == s;
  }

  lemma InsertStep<T>(le: (T, T) -> bool, x: T, s: seq<T>, y: T)
    requires !le(y, x)
    ensures Insert(le, x, s + [y]) == Insert(le, x, s) + [y]
  {
    assert (s + [y])[..|s|] == s;
  }
}
