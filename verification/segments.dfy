/** commonnet/hub.py plan_segments: merges the byte ranges of the wanted tensors into few requests. */
module Segments {
  import opened Basics
  import opened Sorting

  /** One tensor: where its bytes are in the remote file, and where they go in the compact one. */
  datatype Item = Item(absStart: nat, absEnd: nat, start: nat, end: nat)

  type Segment = seq<Item>

  const BRIDGE: int := 8 * 1024 * 1024
  const MAX_SEGMENT: int := 256 * 1024 * 1024

  /** Tuples compare field by field. */
  predicate Before(x: Item, y: Item) {
    if x.absStart != y.absStart then x.absStart < y.absStart
    else if x.absEnd != y.absEnd then x.absEnd < y.absEnd
    else if x.start != y.start then x.start < y.start
    else x.end <= y.end
  }

  predicate StartsNoLater(x: Item, y: Item) {
    x.absStart <= y.absStart
  }

  lemma BeforeIsOrder()
    ensures TotalPreorder(Before)
  {
  }

  lemma SortedByStart(items: seq<Item>)
    ensures Ordered(StartsNoLater, Sort(Before, items))
  {
    BeforeIsOrder();
    SortOrders(Before, items);
  }

  /** The test for one more item at the end of a range. */
  predicate Joins(bridge: int, cap: int, seg: Segment, t: Item)
    requires seg != []
  {
    t.absStart - Last(seg).absEnd <= bridge && t.absEnd - seg[0].absStart <= cap
  }

  /** One request may cover this: no gap above `bridge`, and not longer than `cap` unless it is one tensor. */
  ghost predicate Fits(bridge: int, cap: int, seg: Segment) {
    seg != [] && forall i | 0 < i < |seg| ::
      seg[i].absStart - seg[i - 1].absEnd <= bridge && seg[i].absEnd - seg[0].absStart <= cap
  }

  ghost predicate AllFit(bridge: int, cap: int, segs: seq<Segment>) {
    forall i | 0 <= i < |segs| :: Fits(bridge, cap, segs[i])
  }

  function Plan(bridge: int, cap: int, items: seq<Item>): (segs: seq<Segment>)
    ensures items == [] <==> segs == []
    ensures forall i | 0 <= i < |segs| :: segs[i] != []
  {
    if items == [] then []
    else
      var segs, t := Plan(bridge, cap, items[..|items| - 1]), Last(items);
      if segs != [] && Joins(bridge, cap, Last(segs), t) then segs[|segs| - 1 := Last(segs) + [t]]
      else segs + [[t]]
  }

  method PlanSegments(items: seq<Item>, bridge: int := BRIDGE, cap: int := MAX_SEGMENT) returns (segs: seq<Segment>)
    ensures segs == Plan(bridge, cap, Sort(Before, items))
  {
    var todo := Sort(Before, items);
    segs := [];
    for i := 0 to |todo|
      invariant segs == Plan(bridge, cap, todo[..i])
    {
      var t := todo[i];
      assert todo[..i + 1][..i] == todo[..i];
      if segs != [] && Joins(bridge, cap, Last(segs), t) {
        segs := segs[|segs| - 1 := Last(segs) + [t]];
      } else {
        segs := segs + [[t]];
      }
    }
    assert todo[..|todo|] == todo;
  }

  /** The plan is the items themselves, in order, cut into ranges that each fit one request. */
  lemma {:induction false} PlanIsPartition(bridge: int, cap: int, items: seq<Item>)
    ensures Flatten(Plan(bridge, cap, items)) == items
    ensures AllFit(bridge, cap, Plan(bridge, cap, items))
  {
    hide Flatten, Fits, Joins, AllFit;
    if items == [] {
      FlattenNone(bridge, cap);
    } else {
      var front, t := items[..|items| - 1], Last(items);
      PlanIsPartition(bridge, cap, front);
      assert items == front + [t];
      var segs := Plan(bridge, cap, front);
      if segs != [] && Joins(bridge, cap, Last(segs), t) {
        OneLonger(bridge, cap, segs, t);
      } else {
        OneMore(bridge, cap, segs, t);
      }
    }
  }

  /** Where one range ends and the next begins, joining was not possible. */
  lemma {:induction false} PlanSplits(bridge: int, cap: int, items: seq<Item>, j: nat)
    requires j + 1 < |Plan(bridge, cap, items)|
    ensures var segs := Plan(bridge, cap, items);
            !Joins(bridge, cap, segs[j], segs[j + 1][0])
    decreases |items|
  {
    hide Joins;
    var segs, t := Plan(bridge, cap, items[..|items| - 1]), Last(items);
    if j + 1 < |segs| {
      PlanSplits(bridge, cap, items[..|items| - 1], j);
    }
  }

  lemma FlattenNone(bridge: int, cap: int)
    ensures Flatten<Item>([]) == [] && AllFit(bridge, cap, [])
  {
  }

  lemma OneLonger(bridge: int, cap: int, segs: seq<Segment>, t: Item)
    requires segs != [] && Last(segs) != [] && AllFit(bridge, cap, segs) && Joins(bridge, cap, Last(segs), t)
    ensures Flatten(segs[|segs| - 1 := Last(segs) + [t]]) == Flatten(segs) + [t]
    ensures AllFit(bridge, cap, segs[|segs| - 1 := Last(segs) + [t]])
  {
    var longer := segs[|segs| - 1 := Last(segs) + [t]];
    assert longer[..|longer| - 1] == segs[..|segs| - 1];
    Assoc(Flatten(segs[..|segs| - 1]), Last(segs), [t]);
    assert Fits(bridge, cap, Last(segs));
  }

  lemma OneMore(bridge: int, cap: int, segs: seq<Segment>, t: Item)
    requires AllFit(bridge, cap, segs)
    ensures Flatten(segs + [[t]]) == Flatten(segs) + [t]
    ensures AllFit(bridge, cap, segs + [[t]])
  {
    assert (segs + [[t]])[..|segs|] == segs;
  }

  /** Greedy stays ahead: after the same items, any other partition has more ranges, or as many and a last
    * range that is no shorter. The items may overlap, and be empty; only their starts have to be in order. */
  lemma {:induction false} GreedyStaysAhead(bridge: int, cap: int, items: seq<Item>, other: seq<Segment>)
    requires Ordered(StartsNoLater, items) && Flatten(other) == items
    requires AllFit(bridge, cap, other)
    ensures var segs := Plan(bridge, cap, items);
            && |segs| <= |other|
            && (|segs| == |other| && segs != [] ==> |Last(segs)| <= |Last(other)|)
    decreases |items|
  {
    if items != [] {
      hide Joins, Fits, Flatten, AllFit, Ordered;
      var front, t := items[..|items| - 1], Last(items);
      LastGroup(bridge, cap, items, other);
      var rest, group := other[..|other| - 1], Last(other);
      if |group| == 1 {
        GreedyStaysAhead(bridge, cap, front, rest);
      } else {
        ShorterGroup(bridge, cap, items, other);
        GreedyStaysAhead(bridge, cap, front, rest + [group[..|group| - 1]]);
        GreedyJoins(bridge, cap, items, other);
      }
    }
  }

  lemma LastGroup(bridge: int, cap: int, items: seq<Item>, other: seq<Segment>)
    requires items != [] && Flatten(other) == items && AllFit(bridge, cap, other)
    requires Ordered(StartsNoLater, items)
    ensures other != [] && Last(other) != [] && AllFit(bridge, cap, other[..|other| - 1])
    ensures |Last(other)| == 1 ==> Flatten(other[..|other| - 1]) == items[..|items| - 1]
    ensures Ordered(StartsNoLater, items[..|items| - 1])
  {
    assert Fits(bridge, cap, Last(other));
  }

  /** Where the other partition puts the last item in its last range, greedy can too, if its last range is
    * no longer than that one without the item. */
  lemma GreedyJoins(bridge: int, cap: int, items: seq<Item>, other: seq<Segment>)
    requires items != [] && Ordered(StartsNoLater, items) && other != [] && Flatten(other) == items
    requires AllFit(bridge, cap, other) && |Last(other)| > 1
    ensures var segs := Plan(bridge, cap, items[..|items| - 1]);
            segs != [] && (|Last(segs)| < |Last(other)| ==> Joins(bridge, cap, Last(segs), Last(items)))
  {
    hide Plan, Flatten, Ordered;
    var front, group := items[..|items| - 1], Last(other);
    var segs := Plan(bridge, cap, front);
    SameTail(other, items);
    PlanIsPartition(bridge, cap, front);
    SameTail(segs, front);
    assert Fits(bridge, cap, group);
    if |Last(segs)| < |group| {
      var n := |group|;
      assert Last(Last(segs)) == items[|items| - 2] == group[n - 2];
      assert Last(segs)[0] == items[|items| - 1 - |Last(segs)|] == group[n - 1 - |Last(segs)|];
      StartsLater(items, |items| - n, |items| - 1 - |Last(segs)|);
    }
  }

  lemma StartsLater(items: seq<Item>, i: nat, j: nat)
    requires Ordered(StartsNoLater, items) && i <= j < |items|
    ensures items[i].absStart <= items[j].absStart
  {
  }

  /** Taking the last item away from a partition. */
  lemma ShorterGroup(bridge: int, cap: int, items: seq<Item>, other: seq<Segment>)
    requires other != [] && Flatten(other) == items && |Last(other)| > 1
    requires AllFit(bridge, cap, other)
    ensures var shorter := other[..|other| - 1] + [Last(other)[..|Last(other)| - 1]];
            Flatten(shorter) == items[..|items| - 1] && AllFit(bridge, cap, shorter)
  {
    var rest, group := other[..|other| - 1], Last(other);
    var shorter := rest + [group[..|group| - 1]];
    assert shorter[..|shorter| - 1] == rest;
    assert Fits(bridge, cap, group);
    assert forall i | 0 <= i < |rest| :: Fits(bridge, cap, other[i]) && shorter[i] == other[i];
  }

  /** A partition ends with the last items. */
  lemma SameTail(segs: seq<Segment>, items: seq<Item>)
    requires segs != [] && Flatten(segs) == items
    ensures |Last(segs)| <= |items| && Last(segs) == items[|items| - |Last(segs)|..]
  {
  }

  /** Main result, for every list of items, every gap and every cap: no other way of cutting the sorted list into
    * ranges that fit has fewer of them. */
  lemma PlanIsShortest(bridge: int, cap: int, items: seq<Item>, other: seq<Segment>)
    requires Flatten(other) == Sort(Before, items) && AllFit(bridge, cap, other)
    ensures |Plan(bridge, cap, Sort(Before, items))| <= |other|
  {
    SortedByStart(items);
    GreedyStaysAhead(bridge, cap, Sort(Before, items), other);
  }
}
