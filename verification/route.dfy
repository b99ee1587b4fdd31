/** Routes over layer windows: commonnet/client.py check_route and commonnet/coordinator.py build_route. */
module Route {
  import opened Basics

  /** A stage of a route: its address and the layers from start up to, not including, end. */
  datatype Endpoint = Endpoint(name: string, start: int, end: int)

  /** Ordered, non-empty windows that cover [0, n) with no gap and no overlap. */
  ghost predicate Tiles(eps: seq<Endpoint>, n: int)
    decreases |eps|
  {
    if eps == [] then n == 0
    else Last(eps).start < Last(eps).end == n && Tiles(eps[..|eps| - 1], Last(eps).start)
  }

  datatype RouteError = NotContiguous(at: Endpoint, expected: int) | WrongTotal(covered: int, layers: int)

  /** Refuses a route exactly when it does not tile the model, and says where the first break is. */
  method CheckRoute(endpoints: seq<Endpoint>, numLayers: int) returns (r: Result<(), RouteError>)
    ensures r.Ok? <==> Tiles(endpoints, numLayers)
    ensures r.Err? && r.error.NotContiguous? ==>
              exists i | 0 <= i < |endpoints| ::
                && Tiles(endpoints[..i], r.error.expected) && r.error.at == endpoints[i]
                && !(endpoints[i].start == r.error.expected < endpoints[i].end)
    ensures r.Err? && r.error.WrongTotal? ==>
              Tiles(endpoints, r.error.covered) && r.error.layers == numLayers != r.error.covered
  {
    var pos := 0;
    var i := 0;
    while i < |endpoints|
      invariant 0 <= i <= |endpoints|
      invariant Tiles(endpoints[..i], pos)
    {
      var ep := endpoints[i];
      assert endpoints[..i + 1][..i] == endpoints[..i];
      PrefixTiles(endpoints, i, numLayers);
      if ep.start != pos || ep.end <= ep.start {
        return Err(NotContiguous(ep, pos));
      }
      pos := ep.end;
      i := i + 1;
    }
    assert endpoints[..i] == endpoints;
    TilesOnce(endpoints, pos, numLayers);
    if pos != numLayers {
      return Err(WrongTotal(pos, numLayers));
    }
    return Ok(());
  }

  /** A sequence of windows tiles at most one range. */
  lemma TilesOnce(eps: seq<Endpoint>, n: int, n': int)
    requires Tiles(eps, n)
    ensures Tiles(eps, n') <==> n' == n
  {
  }

  /** In a tiling, window i starts where the windows before it end, whatever comes after. */
  lemma {:induction false} PrefixTiles(eps: seq<Endpoint>, i: nat, n: int)
    requires i < |eps|
    ensures Tiles(eps, n) ==> Tiles(eps[..i], eps[i].start) && eps[i].start < eps[i].end
    decreases |eps|
  {
    if Tiles(eps, n) && i < |eps| - 1 {
      var init := eps[..|eps| - 1];
      PrefixTiles(init, i, Last(eps).start);
      assert init[..i] == eps[..i];
    }
  }

  lemma {:induction false} TilesBounds(eps: seq<Endpoint>, n: int, i: nat)
    requires Tiles(eps, n) && i < |eps|
    ensures 0 <= eps[i].start < eps[i].end <= n
    ensures i == 0 ==> eps[i].start == 0
    ensures i > 0 ==> eps[i].start == eps[i - 1].end
    ensures i == |eps| - 1 ==> eps[i].end == n
    decreases |eps|
  {
    var init, mid := eps[..|eps| - 1], Last(eps).start;
    if i < |init| {
      TilesBounds(init, mid, i);
    } else if init != [] {
      TilesBounds(init, mid, |init| - 1);
    }
  }
}
