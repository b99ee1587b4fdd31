/** commonnet/plan.py: which layers each of two machines serves, decided by memory. Sizes are whole bytes. */
module Planner {
  import opened Basics

  /** One machine's memory. The constructor checks of the source are `Accepted`. */
  datatype Member = Member(device: string, budget: int, layerBytes: int, fixed: int)

  predicate Accepted(m: Member) {
    (m.device == "metal" || m.device == "cuda") && m.budget > 0 && m.layerBytes > 0 && m.fixed >= 0
  }

  /** `first` serves [0, cut), `second` the rest. */
  datatype Split = Split(cut: nat, used1: int, used2: int)

  datatype PlanError =
    | TooFewLayers
    | BadContext
    | BadKv
    | NoSplit(cap1: nat, cap2: nat)

  // --- layers of different sizes ----------------------------------------------------------------

  datatype LayerType = Linear | Full

  datatype Costs = Costs(linear: nat, full: nat)

  /** Weights, and per session KV for a full-attention layer or a fixed state for a linear one. */
  function LayerCosts(types: seq<LayerType>, c: Costs, context: nat, kv: nat, state: nat): (r: seq<nat>)
    ensures |r| == |types|
  {
    seq(|types|, i requires 0 <= i < |types| =>
      if types[i].Full? then c.full + kv * context else c.linear + state)
  }

  function Sum(c: seq<nat>): nat {
    if c == [] then 0 else Sum(c[..|c| - 1]) + Last(c)
  }

  lemma {:induction false} SumAppend(a: seq<nat>, b: seq<nat>)
    ensures Sum(a + b) == Sum(a) + Sum(b)
    decreases |b|
  {
    if b == [] {
      assert a + b == a;
    } else {
      assert (a + b)[..|a + b| - 1] == a + b[..|b| - 1];
      SumAppend(a, b[..|b| - 1]);
    }
  }

  lemma SumGrows(c: seq<nat>, j: nat, k: nat)
    requires j <= k <= |c|
    ensures Sum(c[..j]) <= Sum(c[..k])
  {
    assert c[..k] == c[..j] + c[j..k];
    SumAppend(c[..j], c[j..k]);
  }

  function Room1(m: Member, c: seq<nat>, cut: nat): int
    requires cut <= |c|
  {
    m.budget - (m.fixed + Sum(c[..cut]))
  }

  function Room2(m: Member, c: seq<nat>, cut: nat): int
    requires cut <= |c|
  {
    m.budget - (m.fixed + Sum(c[cut..]))
  }

  predicate Feasible(first: Member, second: Member, c1: seq<nat>, c2: seq<nat>, cut: nat)
    requires cut <= |c1| == |c2|
  {
    Room1(first, c1, cut) >= 0 && Room2(second, c2, cut) >= 0
  }

  /** Headroom of the tighter member. */
  function Headroom(first: Member, second: Member, c1: seq<nat>, c2: seq<nat>, cut: nat): int
    requires cut <= |c1| == |c2|
  {
    Min(Room1(first, c1, cut), Room2(second, c2, cut))
  }

  /** How many layers from the front of c the member can hold. */
  ghost predicate IsCapacity(m: Member, c: seq<nat>, k: nat) {
    && k <= |c|
    && forall j | 1 <= j <= |c| :: Room1(m, c, j) >= 0 <==> j <= k
  }

  method Capacity(m: Member, c: seq<nat>) returns (k: nat)
    ensures IsCapacity(m, c, k)
  {
    var used := m.fixed;
    k := 0;
    while k < |c|
      invariant k <= |c| && used == m.fixed + Sum(c[..k])
      invariant k > 0 ==> Room1(m, c, k) >= 0
    {
      assert c[..k + 1][..k] == c[..k];
      if used + c[k] > m.budget {
        break;
      }
      used := used + c[k];
      k := k + 1;
    }
    forall j | 1 <= j <= |c|
      ensures Room1(m, c, j) >= 0 <==> j <= k
    {
      if j <= k {
        SumGrows(c, j, k);
      } else {
        assert c[..k + 1][..k] == c[..k];
        SumGrows(c, k + 1, j);
      }
    }
  }

  function Reverse(c: seq<nat>): (r: seq<nat>)
    ensures |r| == |c|
  {
    if c == [] then [] else [Last(c)] + Reverse(c[..|c| - 1])
  }

  lemma {:induction false} ReversedFront(c: seq<nat>, k: nat)
    requires k <= |c|
    ensures Sum(Reverse(c)[..k]) == Sum(c[|c| - k..])
    decreases |c|
  {
    if k > 0 {
      var n := |c| - 1;
      ReversedFront(c[..n], k - 1);
      assert Reverse(c)[..k] == [c[n]] + Reverse(c[..n])[..k - 1];
      SumAppend([c[n]], Reverse(c[..n])[..k - 1]);
      assert c[|c| - k..] == c[..n][n - (k - 1)..] + [c[n]];
      SumAppend(c[..n][n - (k - 1)..], [c[n]]);
      assert [c[n]][..0] == [];
    } else {
      assert c[|c|..] == [];
    }
  }

  /** With at least two layers, a refusal is never contradicted by the capacities it reports: either they do
    * not add up to the model, or one machine cannot hold a single layer. */
  lemma RefusalIsHonest(first: Member, second: Member, c1: seq<nat>, c2: seq<nat>, k1: nat, k2: nat)
    requires |c1| == |c2| >= 2
    requires IsCapacity(first, c1, k1) && IsCapacity(second, Reverse(c2), k2)
    ensures (exists cut: nat | 1 <= cut < |c1| :: Feasible(first, second, c1, c2, cut))
       <==> k1 + k2 >= |c1| && k1 > 0 && k2 > 0
  {
    hide Feasible, IsCapacity;
    var n := |c1|;
    forall cut: nat | 1 <= cut < n
      ensures Feasible(first, second, c1, c2, cut) <==> cut <= k1 && n - cut <= k2
    {
      CutFits(first, second, c1, c2, k1, k2, cut);
    }
    if k1 + k2 >= n && k1 > 0 && k2 > 0 {
      assert Feasible(first, second, c1, c2, Min(k1, n - 1));
    }
  }

  lemma CutFits(first: Member, second: Member, c1: seq<nat>, c2: seq<nat>, k1: nat, k2: nat, cut: nat)
    requires |c1| == |c2| && 1 <= cut < |c1|
    requires IsCapacity(first, c1, k1) && IsCapacity(second, Reverse(c2), k2)
    ensures Feasible(first, second, c1, c2, cut) <==> cut <= k1 && |c1| - cut <= k2
  {
    hide Sum, Reverse;
    var rest := |c1| - cut;
    ReversedFront(c2, rest);
    assert Room1(second, Reverse(c2), rest) >= 0 <==> rest <= k2;
  }

  ghost predicate AnyFeasible(first: Member, second: Member, c1: seq<nat>, c2: seq<nat>)
    requires |c1| == |c2|
  {
    exists cut: nat | 1 <= cut < |c1| :: Feasible(first, second, c1, c2, cut)
  }

  /** A model of one layer has no cut and is always refused. The capacities reported with the refusal add up to
    * the model all the same, exactly when one of the machines could hold it. */
  lemma OneLayerIsRefused(first: Member, second: Member, a: nat, b: nat, k1: nat, k2: nat)
    requires IsCapacity(first, [a], k1) && IsCapacity(second, Reverse([b]), k2)
    ensures !AnyFeasible(first, second, [a], [b])
    ensures k1 + k2 >= 1 <==> first.fixed + a <= first.budget || second.fixed + b <= second.budget
  {
    assert [a][..1] == [a] && [b][..1] == [b] && Reverse([b]) == [b];
    assert [a][..0] == [] && [b][..0] == [] && Sum([a]) == a && Sum([b]) == b;
    assert Room1(first, [a], 1) >= 0 <==> 1 <= k1;
    assert Room1(second, [b], 1) >= 0 <==> 1 <= k2;
  }

  /** plan_hybrid_split. */
  method PlanHybridSplit(types: seq<LayerType>, cost1: Costs, cost2: Costs, first: Member, second: Member,
                         context: int, kv: nat, state: nat)
    returns (r: Result<Split, PlanError>)
    ensures r == Err(BadContext) <==> context <= 0
    ensures context > 0 ==>
              var n := |types|;
              var c1, c2 := LayerCosts(types, cost1, context, kv, state), LayerCosts(types, cost2, context, kv, state);
              && (r.Ok? <==> AnyFeasible(first, second, c1, c2))
              && (r.Ok? ==>
                    var best := r.value.cut;
                    && 1 <= best < n && Feasible(first, second, c1, c2, best)
                    && r.value.used1 == first.fixed + Sum(c1[..best]) && r.value.used2 == second.fixed + Sum(c2[best..])
                    && forall cut | 1 <= cut < n && Feasible(first, second, c1, c2, cut) ::
                        && Headroom(first, second, c1, c2, cut) <= Headroom(first, second, c1, c2, best)
                        && (cut < best ==>
                              Headroom(first, second, c1, c2, cut) < Headroom(first, second, c1, c2, best)))
              && (r.Err? ==>
                    && r.error.NoSplit?
                    && IsCapacity(first, c1, r.error.cap1) && IsCapacity(second, Reverse(c2), r.error.cap2)
                    && (n >= 2 ==> r.error.cap1 + r.error.cap2 < n || r.error.cap1 == 0 || r.error.cap2 == 0))
  {
    hide Sum;
    if context <= 0 {
      return Err(BadContext);
    }
    var n := |types|;
    var c1, c2 := LayerCosts(types, cost1, context, kv, state), LayerCosts(types, cost2, context, kv, state);
    var best: Option<(int, Split)> := None;
    for a := 1 to Max(1, n)
      invariant best.None? ==> forall cut | 1 <= cut < a :: !Feasible(first, second, c1, c2, cut)
      invariant best.Some? ==>
                  var (h, s) := best.value;
                  && 1 <= s.cut < a && Feasible(first, second, c1, c2, s.cut)
                  && h == Headroom(first, second, c1, c2, s.cut)
                  && s.used1 == first.fixed + Sum(c1[..s.cut]) && s.used2 == second.fixed + Sum(c2[s.cut..])
                  && forall cut | 1 <= cut < a && Feasible(first, second, c1, c2, cut) ::
                      && Headroom(first, second, c1, c2, cut) <= h
                      && (cut < s.cut ==> Headroom(first, second, c1, c2, cut) < h)
    {
      var u1, u2 := first.fixed + Sum(c1[..a]), second.fixed + Sum(c2[a..]);
      if u1 <= first.budget && u2 <= second.budget {
        var h := Min(first.budget - u1, second.budget - u2);
        if best.None? || h > best.value.0 {
          best := Some((h, Split(a, u1, u2)));
        }
      }
    }
    if best.Some? {
      return Ok(best.value.1);
    }
    var k1 := Capacity(first, c1);
    var k2 := Capacity(second, Reverse(c2));
    if n >= 2 {
      RefusalIsHonest(first, second, c1, c2, k1, k2);
    }
    return Err(NoSplit(k1, k2));
  }

  // --- layers of one size -----------------------------------------------------------------------

  function PerLayer(m: Member, kv: int, context: int): int {
    m.layerBytes + kv * context
  }

  function MemberBytes(m: Member, layers: int, kv: int, context: int): int {
    m.fixed + layers * PerLayer(m, kv, context)
  }

  function MaxLayers(m: Member, kv: int, context: int): (n: nat)
    requires PerLayer(m, kv, context) > 0
  {
    Max(0, (m.budget - m.fixed) / PerLayer(m, kv, context))
  }

  lemma DivisionIsMax(spare: int, per: int, k: int)
    requires per > 0
    ensures k * per <= spare <==> k <= spare / per
  {
    var q := spare / per;
    assert q * per <= spare < (q + 1) * per;
    if k <= q {
      assert k * per <= q * per;
    } else {
      assert (q + 1) * per <= k * per;
    }
  }

  /** max_layers is the true maximum. */
  lemma MaxLayersIsMax(m: Member, kv: int, context: int, layers: nat)
    requires PerLayer(m, kv, context) > 0 && layers >= 1
    ensures MemberBytes(m, layers, kv, context) <= m.budget <==> layers <= MaxLayers(m, kv, context)
  {
    DivisionIsMax(m.budget - m.fixed, PerLayer(m, kv, context), layers);
  }

  /** A longer context never makes room. */
  lemma LongerContextFitsLess(m: Member, kv: int, context: int, longer: int, layers: nat)
    requires Accepted(m) && kv > 0 && 0 < context <= longer
    ensures PerLayer(m, kv, context) > 0 && PerLayer(m, kv, longer) > 0
    ensures MemberBytes(m, layers, kv, context) <= MemberBytes(m, layers, kv, longer)
    ensures MaxLayers(m, kv, longer) <= MaxLayers(m, kv, context)
  {
    assert kv * context <= kv * longer;
    PositiveProduct(kv, context);
    ProductGrows(layers, PerLayer(m, kv, context), PerLayer(m, kv, longer));
    var most := MaxLayers(m, kv, longer);
    if most > 0 {
      MaxLayersIsMax(m, kv, longer, most);
      ProductGrows(most, PerLayer(m, kv, context), PerLayer(m, kv, longer));
      MaxLayersIsMax(m, kv, context, most);
    }
  }

  lemma PositiveProduct(x: int, y: int)
    requires x > 0 && y > 0
    ensures x * y > 0
  {
  }

  lemma ProductGrows(k: nat, x: int, y: int)
    requires x <= y
    ensures k * x <= k * y
  {
  }

  function Abs(x: real): real {
    if x >= 0.0 then x else -x
  }

  datatype Objective = MostHeadroom | Balanced

  ghost predicate Fits(n: nat, first: Member, second: Member, kv: int, context: int, cut: int) {
    MemberBytes(first, cut, kv, context) <= first.budget && MemberBytes(second, n - cut, kv, context) <= second.budget
  }

  /** What plan_split maximises: bytes left on the tighter machine, or how alike the used shares are. */
  function Score(objective: Objective, first: Member, second: Member, used1: int, used2: int): real
    requires Accepted(first) && Accepted(second)
  {
    match objective
    case MostHeadroom => Min(first.budget - used1, second.budget - used2) as real
    case Balanced => -Abs(used1 as real / first.budget as real - used2 as real / second.budget as real)
  }

  function CutScore(objective: Objective, n: nat, first: Member, second: Member, kv: int, context: int, cut: int): real
    requires Accepted(first) && Accepted(second)
  {
    Score(objective, first, second, MemberBytes(first, cut, kv, context), MemberBytes(second, n - cut, kv, context))
  }

  lemma UniformRefusalIsHonest(n: nat, first: Member, second: Member, kv: int, context: int)
    requires n >= 2 && PerLayer(first, kv, context) > 0 && PerLayer(second, kv, context) > 0
    ensures var k1, k2 := MaxLayers(first, kv, context), MaxLayers(second, kv, context);
            (exists cut | 1 <= cut < n :: Fits(n, first, second, kv, context, cut)) <==>
              k1 + k2 >= n && k1 > 0 && k2 > 0
  {
    var k1, k2 := MaxLayers(first, kv, context), MaxLayers(second, kv, context);
    forall cut | 1 <= cut < n
      ensures Fits(n, first, second, kv, context, cut) <==> cut <= k1 && n - cut <= k2
    {
      MaxLayersIsMax(first, kv, context, cut);
      MaxLayersIsMax(second, kv, context, n - cut);
    }
    if k1 + k2 >= n && k1 > 0 && k2 > 0 {
      assert Fits(n, first, second, kv, context, Min(k1, n - 1));
    }
  }

  /** plan_split. */
  method PlanSplit(n: int, first: Member, second: Member, kv: int, context: int, objective: Objective)
    returns (r: Result<Split, PlanError>)
    requires Accepted(first) && Accepted(second)
    ensures n < 2 ==> r == Err(TooFewLayers)
    ensures n >= 2 && context <= 0 ==> r == Err(BadContext)
    ensures n >= 2 && context > 0 && kv <= 0 ==> r == Err(BadKv)
    ensures n >= 2 && context > 0 && kv > 0 ==>
              && PerLayer(first, kv, context) > 0 && PerLayer(second, kv, context) > 0
              && (r.Ok? <==> exists cut | 1 <= cut < n :: Fits(n, first, second, kv, context, cut))
              && (r.Ok? ==>
                    var best := r.value.cut;
                    && 1 <= best < n && Fits(n, first, second, kv, context, best)
                    && r.value.used1 == MemberBytes(first, best, kv, context)
                    && r.value.used2 == MemberBytes(second, n - best, kv, context)
                    && forall cut | 1 <= cut < n && Fits(n, first, second, kv, context, cut) ::
                        && CutScore(objective, n, first, second, kv, context, cut)
                           <= CutScore(objective, n, first, second, kv, context, best)
                        && (cut < best ==> CutScore(objective, n, first, second, kv, context, cut)
                                           < CutScore(objective, n, first, second, kv, context, best)))
              && (r.Err? ==>
                    var k1, k2 := MaxLayers(first, kv, context), MaxLayers(second, kv, context);
                    r == Err(NoSplit(k1, k2)) && (k1 + k2 < n || k1 == 0 || k2 == 0))
  {
    if n < 2 {
      return Err(TooFewLayers);
    }
    if context <= 0 {
      return Err(BadContext);
    }
    if kv <= 0 {
      return Err(BadKv);
    }
    PositiveProduct(kv, context);
    hide MemberBytes, Abs;
    var best: Option<(real, Split)> := None;
    for a := 1 to n
      invariant best.None? ==> forall cut | 1 <= cut < a :: !Fits(n, first, second, kv, context, cut)
      invariant best.Some? ==>
                  var (h, s) := best.value;
                  && 1 <= s.cut < a && Fits(n, first, second, kv, context, s.cut)
                  && h == CutScore(objective, n, first, second, kv, context, s.cut)
                  && s.used1 == MemberBytes(first, s.cut, kv, context)
                  && s.used2 == MemberBytes(second, n - s.cut, kv, context)
                  && forall cut | 1 <= cut < a && Fits(n, first, second, kv, context, cut) ::
                      && CutScore(objective, n, first, second, kv, context, cut) <= h
                      && (cut < s.cut ==> CutScore(objective, n, first, second, kv, context, cut) < h)
    {
      var used1, used2 := MemberBytes(first, a, kv, context), MemberBytes(second, n - a, kv, context);
      if used1 <= first.budget && used2 <= second.budget {
        var h := Min(first.budget - used1, second.budget - used2) as real;
        if objective.Balanced? {
          h := -Abs(used1 as real / first.budget as real - used2 as real / second.budget as real);
        }
        if best.None? || h > best.value.0 {
          best := Some((h, Split(a, used1, used2)));
        }
      }
    }
    if best.None? {
      UniformRefusalIsHonest(n, first, second, kv, context);
      return Err(NoSplit(MaxLayers(first, kv, context), MaxLayers(second, kv, context)));
    }
    return Ok(best.value.1);
  }

  // --- the two planners agree -------------------------------------------------------------------

  lemma {:induction false} SumOfEqual(c: seq<nat>, x: nat)
    requires forall i | 0 <= i < |c| :: c[i] == x
    ensures Sum(c) == |c| * x
  {
    if c != [] {
      SumOfEqual(c[..|c| - 1], x);
      assert |c| * x == (|c| - 1) * x + x;
    }
  }

  /** Where all layers are alike, the planner for layers of different sizes sees the same room on both machines
    * as the planner for equal layers. */
  lemma UniformIsHybrid(types: seq<LayerType>, m: Member, context: nat, kv: nat, state: nat, linear: nat, cut: nat)
    requires Accepted(m) && cut <= |types| && forall i | 0 <= i < |types| :: types[i].Full?
    ensures var c := LayerCosts(types, Costs(linear, m.layerBytes), context, kv, state);
            && Room1(m, c, cut) == m.budget - MemberBytes(m, cut, kv, context)
            && Room2(m, c, cut) == m.budget - MemberBytes(m, |types| - cut, kv, context)
  {
    var c := LayerCosts(types, Costs(linear, m.layerBytes), context, kv, state);
    NatProduct(kv, context);
    SumOfEqual(c[..cut], PerLayer(m, kv, context));
    SumOfEqual(c[cut..], PerLayer(m, kv, context));
  }

  lemma NatProduct(x: nat, y: nat)
    ensures x * y >= 0
  {
  }

  /** A longer context costs every full-attention layer more and a linear one nothing: what fits it fits a
    * shorter one. */
  lemma LongerContextFeasibleLess(types: seq<LayerType>, cost1: Costs, cost2: Costs, first: Member, second: Member,
                                  context: nat, longer: nat, kv: nat, state: nat, cut: nat)
    requires context <= longer && cut <= |types|
    requires Feasible(first, second, LayerCosts(types, cost1, longer, kv, state),
                      LayerCosts(types, cost2, longer, kv, state), cut)
    ensures Feasible(first, second, LayerCosts(types, cost1, context, kv, state),
                     LayerCosts(types, cost2, context, kv, state), cut)
  {
    hide Sum;
    ProductGrows(kv, context, longer);
    SumGrowsWith(LayerCosts(types, cost1, context, kv, state)[..cut],
                 LayerCosts(types, cost1, longer, kv, state)[..cut]);
    SumGrowsWith(LayerCosts(types, cost2, context, kv, state)[cut..],
                 LayerCosts(types, cost2, longer, kv, state)[cut..]);
  }

  lemma {:induction false} SumGrowsWith(a: seq<nat>, b: seq<nat>)
    requires |a| == |b| && forall i | 0 <= i < |a| :: a[i] <= b[i]
    ensures Sum(a) <= Sum(b)
  {
    if a != [] {
      SumGrowsWith(a[..|a| - 1], b[..|b| - 1]);
    }
  }
}
