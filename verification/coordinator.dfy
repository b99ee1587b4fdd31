/** commonnet/coordinator.py build_route: a route from members listed in any order. */
module Coordinator {
  import opened Basics
  import opened Numerals
  import opened Route
  import opened Sorting

  datatype Member = Member(url: string, start: int, end: int, tokenFile: Option<string>)

  datatype EndpointError = BadCoverage(error: RouteError) | NoToken(name: string)

  predicate StartsFirst(x: Member, y: Member) {
    x.start <= y.start
  }

  function MemberName(i: nat): string {
    "member" + Text(10, i)
  }

  function Named(members: seq<Member>): (eps: seq<Endpoint>)
    ensures |eps| == |members|
  {
    seq(|members|, i requires 0 <= i < |members| => Endpoint(MemberName(i), members[i].start, members[i].end))
  }

  /** The members, in this order, cover the layers. */
  ghost predicate Covers(members: seq<Member>, n: int) {
    Tiles(Named(members), n)
  }

  lemma {:induction false} NamesDiffer(i: nat, j: nat)
    requires MemberName(i) == MemberName(j)
    ensures i == j
  {
    assert MemberName(i)[6..] == Text(10, i) && MemberName(j)[6..] == Text(10, j);
    TextIsInjective(10, i, j);
  }

  /** Windows that tile start one after the other. */
  lemma {:induction false} TilesIncrease(eps: seq<Endpoint>, n: int, i: nat, j: nat)
    requires Tiles(eps, n) && i < j < |eps|
    ensures eps[i].start < eps[j].start
    decreases j
  {
    TilesBounds(eps, n, j);
    TilesBounds(eps, n, j - 1);
    if i < j - 1 {
      TilesIncrease(eps, n, i, j - 1);
    }
  }

  ghost predicate Increasing(s: seq<Member>) {
    forall i, j | 0 <= i < j < |s| :: s[i].start < s[j].start
  }

  /** There is one way to put members with different starts in order. */
  lemma {:induction false} OrderIsUnique(a: seq<Member>, b: seq<Member>)
    requires multiset(a) == multiset(b) && Increasing(a) && Ordered(StartsFirst, b)
    ensures a == b
    decreases |a|
  {
    hide Ordered, Increasing;
    SameLength(a, b);
    if a != [] {
      assert Last(b) in multiset(b) && Last(a) in multiset(a);
      assert Last(b) in multiset(a) && Last(a) in multiset(b);
      LastIsLargest(b, Last(a));
      LastIsStrictlyLargest(a, Last(b));
      WithoutLast(a, b);
      FrontsInOrder(a, b);
      OrderIsUnique(a[..|a| - 1], b[..|b| - 1]);
    }
  }

  lemma SameLength<T>(a: seq<T>, b: seq<T>)
    requires multiset(a) == multiset(b)
    ensures |a| == |b|
  {
    assert |a| == |multiset(a)| == |multiset(b)| == |b|;
  }

  lemma WithoutLast<T>(a: seq<T>, b: seq<T>)
    requires a != [] && b != [] && Last(a) == Last(b) && multiset(a) == multiset(b)
    ensures multiset(a[..|a| - 1]) == multiset(b[..|b| - 1])
    ensures a == a[..|a| - 1] + [Last(a)] && b == b[..|b| - 1] + [Last(b)]
  {
    assert a == a[..|a| - 1] + [Last(a)] && b == b[..|b| - 1] + [Last(b)];
    assert multiset(a[..|a| - 1]) == multiset(a) - multiset{Last(a)} == multiset(b[..|b| - 1]);
  }

  lemma FrontsInOrder(a: seq<Member>, b: seq<Member>)
    requires a != [] && b != [] && Increasing(a) && Ordered(StartsFirst, b)
    ensures Increasing(a[..|a| - 1]) && Ordered(StartsFirst, b[..|b| - 1])
  {
  }

  lemma LastIsLargest(s: seq<Member>, x: Member)
    requires x in s && Ordered(StartsFirst, s)
    ensures x.start <= Last(s).start
  {
  }

  lemma LastIsStrictlyLargest(s: seq<Member>, y: Member)
    requires y in s && Increasing(s)
    ensures y == Last(s) || y.start < Last(s).start
  {
    var i :| 0 <= i < |s| && s[i] == y;
  }

  /** If the members cover the layers in any order, it is the order of their starts. */
  lemma CoverIsSorted(members: seq<Member>, other: seq<Member>, n: int)
    requires multiset(other) == multiset(members) && Covers(other, n)
    ensures other == Sort(StartsFirst, members)
  {
    forall i, j | 0 <= i < j < |other|
      ensures other[i].start < other[j].start
    {
      TilesIncrease(Named(other), n, i, j);
    }
    SortKeeps(StartsFirst, members);
    SortOrders(StartsFirst, members);
    OrderIsUnique(other, Sort(StartsFirst, members));
  }

  /** Every layer belongs to exactly one window of a tiling. */
  lemma {:induction false} EveryLayerOnce(eps: seq<Endpoint>, n: int, layer: int) returns (i: nat)
    requires Tiles(eps, n) && 0 <= layer < n
    ensures i < |eps| && eps[i].start <= layer < eps[i].end
    ensures forall j | 0 <= j < |eps| && eps[j].start <= layer < eps[j].end :: j == i
    decreases |eps|
  {
    var front, last := eps[..|eps| - 1], Last(eps);
    if layer < last.start {
      i := EveryLayerOnce(front, last.start, layer);
      assert forall j | 0 <= j < |front| :: eps[j] == front[j];
    } else {
      i := |eps| - 1;
      forall j | 0 <= j < |eps| - 1
        ensures eps[j].end <= layer
      {
        TilesBounds(front, last.start, j);
      }
    }
  }

  /** What build_route returns. */
  datatype Built = Built(route: seq<Endpoint>, urls: map<string, string>, tokens: map<string, string>)

  function NamesBelow(n: nat): (r: set<string>)
    ensures forall j | 0 <= j < n :: MemberName(j) in r
  {
    if n == 0 then {} else NamesBelow(n - 1) + {MemberName(n - 1)}
  }

  lemma {:induction false} NewName(n: nat, i: nat)
    requires n <= i
    ensures MemberName(i) !in NamesBelow(n)
  {
    if n > 0 {
      NewName(n - 1, i);
      if MemberName(n - 1) == MemberName(i) {
        NamesDiffer(n - 1, i);
      }
    }
  }

  /** No layout of the members covers the layers if the sorted one does not. */
  lemma OnlySortedCounts(members: seq<Member>, n: int)
    ensures (exists other :: multiset(other) == multiset(members) && Covers(other, n))
       <==> Covers(Sort(StartsFirst, members), n)
  {
    SortKeeps(StartsFirst, members);
    forall other | multiset(other) == multiset(members) && Covers(other, n)
      ensures other == Sort(StartsFirst, members)
    {
      CoverIsSorted(members, other, n);
    }
  }

  method BuildRoute(members: seq<Member>, n: int, loadToken: Option<string> -> Option<string>)
    returns (r: Result<Built, EndpointError>)
    ensures r.Err? && r.error.BadCoverage? <==>
            !exists other :: multiset(other) == multiset(members) && Covers(other, n)
    ensures r.Err? && r.error.NoToken? ==> exists m :: m in members && loadToken(m.tokenFile) == None
    ensures r.Ok? ==>
              var ordered := Sort(StartsFirst, members);
              && multiset(ordered) == multiset(members)
              && r.value.route == Named(ordered) && Tiles(r.value.route, n)
              && r.value.urls.Keys == r.value.tokens.Keys == NamesBelow(|ordered|)
              && forall i | 0 <= i < |ordered| ::
                  && r.value.urls[MemberName(i)] == ordered[i].url
                  && Some(r.value.tokens[MemberName(i)]) == loadToken(ordered[i].tokenFile)
  {
    hide MemberName, Tiles, Sort, NamesBelow;
    var ordered := Sort(StartsFirst, members);
    OnlySortedCounts(members, n);
    SortKeeps(StartsFirst, members);
    var route := Named(ordered);
    var checked := CheckRoute(route, n);
    if checked.Err? {
      return Err(BadCoverage(checked.error));
    }
    var filled := FillIn(ordered, loadToken);
    if filled.Err? {
      var m :| m in ordered && loadToken(m.tokenFile) == None;
      assert m in multiset(ordered);
      assert m in multiset(members);
      return Err(filled.error);
    }
    return Ok(Built(route, filled.value.0, filled.value.1));
  }

  /** Address and token of every member, under its name on the route. */
  method FillIn(ordered: seq<Member>, loadToken: Option<string> -> Option<string>)
    returns (r: Result<(map<string, string>, map<string, string>), EndpointError>)
    ensures r.Err? ==> r.error.NoToken? && exists m :: m in ordered && loadToken(m.tokenFile) == None
    ensures r.Ok? ==>
              var (urls, tokens) := r.value;
              && urls.Keys == tokens.Keys == NamesBelow(|ordered|)
              && forall i | 0 <= i < |ordered| ::
                  && urls[MemberName(i)] == ordered[i].url
                  && Some(tokens[MemberName(i)]) == loadToken(ordered[i].tokenFile)
  {
    hide MemberName;
    var urls: map<string, string>, tokens: map<string, string> := map[], map[];
    for i := 0 to |ordered|
      invariant urls.Keys == tokens.Keys == NamesBelow(i)
      invariant forall j | 0 <= j < i :: urls[MemberName(j)] == ordered[j].url
      invariant forall j | 0 <= j < i :: Some(tokens[MemberName(j)]) == loadToken(ordered[j].tokenFile)
    {
      NewName(i, i);
      urls := urls[MemberName(i) := ordered[i].url];
      var token := loadToken(ordered[i].tokenFile);
      if token.None? {
        return Err(NoToken(MemberName(i)));
      }
      tokens := tokens[MemberName(i) := token.value];
    }
    return Ok((urls, tokens));
  }
}
