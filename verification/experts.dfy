/** commonnet/backends/nf4_block.py QuantizedExperts.forward: tokens are grouped by expert, and what each
  * expert makes of its tokens is added back to their rows.
  */
module Experts {

  type Row(!new, 0)
  type Weight(!new)

  /** Hidden rows, what an expert computes, and a commutative addition of rows. Nothing more is assumed. */
  datatype Maths = Maths(run: (nat, Row) -> Row, scale: (Row, Weight) -> Row, add: (Row, Row) -> Row, zero: Row)

  ghost predicate Commutative(m: Maths) {
    && (forall x, y :: m.add(x, y) == m.add(y, x))
    && (forall x, y, z :: m.add(m.add(x, y), z) == m.add(x, m.add(y, z)))
    && (forall x :: m.add(x, m.zero) == x)
  }

  /** For every token the experts it chose, and their weights. */
  ghost predicate Routed(hidden: seq<Row>, index: seq<seq<nat>>, weights: seq<seq<Weight>>) {
    |hidden| == |index| == |weights| && forall t | 0 <= t < |index| :: |index[t]| == |weights[t]|
  }

  function Term(m: Maths, x: Row, chosen: seq<nat>, weight: seq<Weight>, c: nat): Row
    requires c < |chosen| == |weight|
  {
    m.scale(m.run(chosen[c], x), weight[c])
  }

  /** What one token is due: the weighted sum over its own choices, in order. */
  function Direct(m: Maths, x: Row, chosen: seq<nat>, weight: seq<Weight>): Row
    requires |chosen| == |weight|
  {
    SumOver(m, x, chosen, weight, |chosen|, (e: nat) => true)
  }

  /** The same sum over the first n choices, leaving out experts that are not `wanted`. */
  function SumOver(m: Maths, x: Row, chosen: seq<nat>, weight: seq<Weight>, n: nat, wanted: nat -> bool): Row
    requires n <= |chosen| == |weight|
  {
    if n == 0 then m.zero
    else
      var before := SumOver(m, x, chosen, weight, n - 1, wanted);
      if wanted(chosen[n - 1]) then m.add(before, Term(m, x, chosen, weight, n - 1)) else before
  }

  function Among(experts: seq<nat>): nat -> bool {
    e => e in experts
  }

  function Only(expert: nat): nat -> bool {
    e => e == expert
  }

  lemma Exchange(m: Maths, a: Row, b: Row, c: Row)
    requires Commutative(m)
    ensures m.add(m.add(a, b), c) == m.add(m.add(a, c), b)
    ensures m.add(a, m.add(b, c)) == m.add(m.add(a, b), c)
  {
    assert m.add(b, c) == m.add(c, b);
  }

  /** Adding what one more expert contributes gives the sum over one more expert. */
  lemma {:induction false} OneMoreExpert(m: Maths, x: Row, chosen: seq<nat>, weight: seq<Weight>, n: nat,
                                         done: seq<nat>, expert: nat)
    requires Commutative(m) && n <= |chosen| == |weight| && expert !in done
    ensures m.add(SumOver(m, x, chosen, weight, n, Among(done)), SumOver(m, x, chosen, weight, n, Only(expert)))
         == SumOver(m, x, chosen, weight, n, Among(done + [expert]))
  {
    if n == 0 {
      assert m.add(m.zero, m.zero) == m.zero;
    } else {
      hide Commutative;
      OneMoreExpert(m, x, chosen, weight, n - 1, done, expert);
      var a := SumOver(m, x, chosen, weight, n - 1, Among(done));
      var b := SumOver(m, x, chosen, weight, n - 1, Only(expert));
      Exchange(m, a, Term(m, x, chosen, weight, n - 1), b);
      Exchange(m, a, b, Term(m, x, chosen, weight, n - 1));
    }
  }

  lemma {:induction false} SameExperts(m: Maths, x: Row, chosen: seq<nat>, weight: seq<Weight>, n: nat,
                                       p: nat -> bool, q: nat -> bool)
    requires n <= |chosen| == |weight| && forall c | 0 <= c < n :: p(chosen[c]) == q(chosen[c])
    ensures SumOver(m, x, chosen, weight, n, p) == SumOver(m, x, chosen, weight, n, q)
  {
    if n > 0 {
      SameExperts(m, x, chosen, weight, n - 1, p, q);
    }
  }

  lemma {:induction false} NoExperts(m: Maths, x: Row, chosen: seq<nat>, weight: seq<Weight>, n: nat)
    requires n <= |chosen| == |weight|
    ensures SumOver(m, x, chosen, weight, n, Among([])) == m.zero
  {
    if n > 0 {
      NoExperts(m, x, chosen, weight, n - 1);
    }
  }

  /** Adds one expert's values to the rows of the tokens that chose it, once for every choice. */
  method AddExpert(m: Maths, result: array<Row>, expert: nat, hidden: seq<Row>, index: seq<seq<nat>>,
                   weights: seq<seq<Weight>>)
    requires Commutative(m) && Routed(hidden, index, weights) && result.Length == |hidden|
    modifies result
    ensures forall t | 0 <= t < |hidden| ::
              result[t] == m.add(old(result[t]), SumOver(m, hidden[t], index[t], weights[t], |index[t]|, Only(expert)))
  {
    hide Commutative, SumOver, Term;
    for t := 0 to |hidden|
      invariant forall u | 0 <= u < t ::
                  result[u] == m.add(old(result[u]),
                                     SumOver(m, hidden[u], index[u], weights[u], |index[u]|, Only(expert)))
      invariant forall u | t <= u < |hidden| :: result[u] == old(result[u])
    {
      AddToRow(m, result, t, expert, hidden[t], index[t], weights[t]);
    }
  }

  method AddToRow(m: Maths, result: array<Row>, t: nat, expert: nat, x: Row, chosen: seq<nat>, weight: seq<Weight>)
    requires Commutative(m) && t < result.Length && |chosen| == |weight|
    modifies result
    ensures result[t] == m.add(old(result[t]), SumOver(m, x, chosen, weight, |chosen|, Only(expert)))
    ensures forall u | 0 <= u < result.Length && u != t :: result[u] == old(result[u])
  {
    hide Commutative, SumOver;
    StartsAtZero(m, x, chosen, weight, Only(expert), result[t]);
    for c := 0 to |chosen|
      invariant result[t] == m.add(old(result[t]), SumOver(m, x, chosen, weight, c, Only(expert)))
      invariant forall u | 0 <= u < result.Length && u != t :: result[u] == old(result[u])
    {
      OneMoreChoice(m, x, chosen, weight, c, Only(expert), old(result[t]));
      if chosen[c] == expert {
        result[t] := m.add(result[t], m.scale(m.run(expert, x), weight[c]));
      }
    }
  }

  lemma StartsAtZero(m: Maths, x: Row, chosen: seq<nat>, weight: seq<Weight>, wanted: nat -> bool, start: Row)
    requires Commutative(m) && |chosen| == |weight|
    ensures start == m.add(start, SumOver(m, x, chosen, weight, 0, wanted))
  {
  }

  lemma OneMoreChoice(m: Maths, x: Row, chosen: seq<nat>, weight: seq<Weight>, c: nat, wanted: nat -> bool, start: Row)
    requires Commutative(m) && c < |chosen| == |weight|
    ensures var sum := SumOver(m, x, chosen, weight, c, wanted);
            m.add(start, SumOver(m, x, chosen, weight, c + 1, wanted))
            == if wanted(chosen[c]) then m.add(m.add(start, sum), Term(m, x, chosen, weight, c)) else m.add(start, sum)
  {
    hide Commutative;
    Exchange(m, start, SumOver(m, x, chosen, weight, c, wanted), Term(m, x, chosen, weight, c));
  }

  /** In whatever order the distinct experts of the table are taken, every token gets the sum over its own
    * choices. */
  method ByExpert(m: Maths, hidden: seq<Row>, index: seq<seq<nat>>, weights: seq<seq<Weight>>, experts: seq<nat>)
    returns (out: seq<Row>)
    requires Commutative(m) && Routed(hidden, index, weights)
    requires NoRepeats(experts)
    requires forall t, c | 0 <= t < |index| && 0 <= c < |index[t]| :: index[t][c] in experts
    ensures |out| == |hidden|
    ensures forall t | 0 <= t < |hidden| :: out[t] == Direct(m, hidden[t], index[t], weights[t])
  {
    hide Commutative, SumOver;
    var result := new Row[|hidden|](_ => m.zero);
    forall t | 0 <= t < |hidden|
      ensures SumOver(m, hidden[t], index[t], weights[t], |index[t]|, Among(experts[..0])) == m.zero
    {
      NoExperts(m, hidden[t], index[t], weights[t], |index[t]|);
      assert experts[..0] == [];
    }
    for i := 0 to |experts|
      invariant forall t | 0 <= t < |hidden| ::
                  result[t] == SumOver(m, hidden[t], index[t], weights[t], |index[t]|, Among(experts[..i]))
    {
      assert experts[..i + 1] == experts[..i] + [experts[i]];
      forall t | 0 <= t < |hidden|
        ensures m.add(SumOver(m, hidden[t], index[t], weights[t], |index[t]|, Among(experts[..i])),
                      SumOver(m, hidden[t], index[t], weights[t], |index[t]|, Only(experts[i])))
             == SumOver(m, hidden[t], index[t], weights[t], |index[t]|, Among(experts[..i + 1]))
      {
        OneMoreExpert(m, hidden[t], index[t], weights[t], |index[t]|, experts[..i], experts[i]);
      }
      AddExpert(m, result, experts[i], hidden, index, weights);
    }
    assert experts[..|experts|] == experts;
    forall t | 0 <= t < |hidden|
      ensures result[t] == Direct(m, hidden[t], index[t], weights[t])
    {
      SameExperts(m, hidden[t], index[t], weights[t], |index[t]|, Among(experts), (e: nat) => true);
    }
    return result[..];
  }

  ghost predicate NoRepeats(experts: seq<nat>) {
    forall i, j | 0 <= i < j < |experts| :: experts[i] != experts[j]
  }

  /** torch.unique, up to the order. */
  method Unique(index: seq<seq<nat>>) returns (experts: seq<nat>)
    ensures NoRepeats(experts)
    ensures forall t, c | 0 <= t < |index| && 0 <= c < |index[t]| :: index[t][c] in experts
    ensures forall e | e in experts :: exists t, c :: 0 <= t < |index| && 0 <= c < |index[t]| && index[t][c] == e
  {
    experts := [];
    for t := 0 to |index|
      invariant NoRepeats(experts)
      invariant forall u, c | 0 <= u < t && 0 <= c < |index[u]| :: index[u][c] in experts
      invariant forall e | e in experts :: exists u, c :: 0 <= u < |index| && 0 <= c < |index[u]| && index[u][c] == e
    {
      for d := 0 to |index[t]|
        invariant NoRepeats(experts)
        invariant forall u, c | 0 <= u < t && 0 <= c < |index[u]| :: index[u][c] in experts
        invariant forall c | 0 <= c < d :: index[t][c] in experts
        invariant forall e | e in experts :: exists u, c :: 0 <= u < |index| && 0 <= c < |index[u]| && index[u][c] == e
      {
        if index[t][d] !in experts {
          experts := experts + [index[t][d]];
        }
      }
    }
  }

  /** Main result: for every routing table, with unused and repeated experts, the grouped form gives every
    * token the weighted sum over its own choices. */
  method Forward(m: Maths, hidden: seq<Row>, index: seq<seq<nat>>, weights: seq<seq<Weight>>) returns (out: seq<Row>)
    requires Commutative(m) && Routed(hidden, index, weights)
    ensures |out| == |hidden|
    ensures forall t | 0 <= t < |hidden| :: out[t] == Direct(m, hidden[t], index[t], weights[t])
  {
    hide Commutative;
    var experts := Unique(index);
    out := ByExpert(m, hidden, index, weights, experts);
  }
}
