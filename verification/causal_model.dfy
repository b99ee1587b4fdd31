/** The model the network runs, and what running it without any cache means.
  *
  * A decoder layer is kept abstract: a key and a value for each position, and an attention step that
  * sees the keys and values it is shown. Everything below holds for every choice of these functions.
  */
module CausalModel {

  type Hidden(!new, ==, 0)
  type Key(!new, 0)
  type Value(!new, 0)
  type Token = int

  datatype Layer = Layer(
    key: (nat, Hidden) -> Key,
    value: (nat, Hidden) -> Value,
    attend: (nat, Hidden, seq<Key>, seq<Value>) -> Hidden)

  /** `head` is the final norm, the output head and the argmax together: the greedy next token. */
  datatype Model = Model(vocab: nat, embed: Token -> Hidden, layers: seq<Layer>, head: Hidden -> Token)

  // --- one layer -------------------------------------------------------------------------------

  /** Keys of the hidden states `xs`, the first of which stands at position `start`. */
  function Keys(l: Layer, start: nat, xs: seq<Hidden>): (r: seq<Key>)
    ensures |r| == |xs|
  {
    seq(|xs|, i requires 0 <= i < |xs| => l.key(start + i, xs[i]))
  }

  function Values(l: Layer, start: nat, xs: seq<Hidden>): (r: seq<Value>)
    ensures |r| == |xs|
  {
    seq(|xs|, i requires 0 <= i < |xs| => l.value(start + i, xs[i]))
  }

  /** Position p of one uncached layer: it attends to positions 0..p and to nothing after p. */
  function PositionOut(l: Layer, xs: seq<Hidden>, p: nat): Hidden
    requires p < |xs|
  {
    l.attend(p, xs[p], Keys(l, 0, xs[..p + 1]), Values(l, 0, xs[..p + 1]))
  }

  function LayerPass(l: Layer, xs: seq<Hidden>): (r: seq<Hidden>)
    ensures |r| == |xs|
  {
    seq(|xs|, p requires 0 <= p < |xs| => PositionOut(l, xs, p))
  }

  /** One uncached pass of `xs` through all the layers `ls`. */
  function Stack(ls: seq<Layer>, xs: seq<Hidden>): (r: seq<Hidden>)
    ensures |r| == |xs|
    decreases |ls|
  {
    if ls == [] then xs
    else LayerPass(ls[|ls| - 1], Stack(ls[..|ls| - 1], xs))
  }

  function Embed(m: Model, tokens: seq<Token>): (r: seq<Hidden>)
    ensures |r| == |tokens|
  {
    seq(|tokens|, i requires 0 <= i < |tokens| => m.embed(tokens[i]))
  }

  /** The greedy token after `context`, recomputing the whole prefix through all the layers. */
  function Next(m: Model, context: seq<Token>): Token
    requires context != []
  {
    m.head(Stack(m.layers, Embed(m, context))[|context| - 1])
  }

  /** The greedy choice as a function of the context alone. */
  function Choice(m: Model): seq<Token> -> Token {
    context => if context == [] then 0 else Next(m, context)
  }

  // --- causality -------------------------------------------------------------------------------

  lemma KeysAppend(l: Layer, start: nat, xs: seq<Hidden>, ys: seq<Hidden>)
    ensures Keys(l, start, xs + ys) == Keys(l, start, xs) + Keys(l, start + |xs|, ys)
    ensures Values(l, start, xs + ys) == Values(l, start, xs) + Values(l, start + |xs|, ys)
  {
  }

  lemma KeysPrefix(l: Layer, xs: seq<Hidden>, n: nat)
    requires n <= |xs|
    ensures Keys(l, 0, xs[..n]) == Keys(l, 0, xs)[..n]
    ensures Values(l, 0, xs[..n]) == Values(l, 0, xs)[..n]
  {
  }

  lemma LayerPassPrefix(l: Layer, xs: seq<Hidden>, n: nat)
    requires n <= |xs|
    ensures LayerPass(l, xs[..n]) == LayerPass(l, xs)[..n]
  {
    forall p | 0 <= p < n
      ensures LayerPass(l, xs[..n])[p] == LayerPass(l, xs)[p]
    {
      assert xs[..n][..p + 1] == xs[..p + 1];
    }
  }

  /** Causality of the whole stack: what comes later never changes what came before. */
  lemma {:induction false} StackPrefix(ls: seq<Layer>, xs: seq<Hidden>, n: nat)
    requires n <= |xs|
    ensures Stack(ls, xs[..n]) == Stack(ls, xs)[..n]
    decreases |ls|
  {
    if ls != [] {
      StackPrefix(ls[..|ls| - 1], xs, n);
      LayerPassPrefix(ls[|ls| - 1], Stack(ls[..|ls| - 1], xs), n);
    }
  }

  lemma StackStep(ls: seq<Layer>, i: nat, xs: seq<Hidden>)
    requires i < |ls|
    ensures Stack(ls[..i + 1], xs) == LayerPass(ls[i], Stack(ls[..i], xs))
  {
    assert ls[..i + 1][..i] == ls[..i];
  }

  /** Splitting the layers between machines does not change what they compute. */
  lemma {:induction false} StackSplit(a: seq<Layer>, b: seq<Layer>, xs: seq<Hidden>)
    ensures Stack(a + b, xs) == Stack(b, Stack(a, xs))
    decreases |b|
  {
    if b == [] {
      assert a + b == a;
    } else {
      assert (a + b)[..|a + b| - 1] == a + b[..|b| - 1];
      StackSplit(a, b[..|b| - 1], xs);
    }
  }

  lemma EmbedAppend(m: Model, a: seq<Token>, b: seq<Token>)
    ensures Embed(m, a + b) == Embed(m, a) + Embed(m, b)
  {
  }

  lemma EmbedPrefix(m: Model, a: seq<Token>, n: nat)
    requires n <= |a|
    ensures Embed(m, a[..n]) == Embed(m, a)[..n]
  {
  }

  // --- masks -----------------------------------------------------------------------------------

  /** The entries of `xs` that a mask row lets through; a masked-out key has no influence. */
  function Visible<T>(xs: seq<T>, row: seq<bool>): seq<T>
    requires |xs| == |row|
  {
    if xs == [] then []
    else Visible(xs[..|xs| - 1], row[..|xs| - 1]) + (if row[|xs| - 1] then [xs[|xs| - 1]] else [])
  }

  /** A row that allows exactly the keys 0..p shows exactly the first p + 1 keys. */
  lemma {:induction false} VisibleIsPrefix<T>(xs: seq<T>, row: seq<bool>, p: nat)
    requires |xs| == |row|
    requires forall j | 0 <= j < |row| :: row[j] <==> j <= p
    ensures Visible(xs, row) == if p + 1 <= |xs| then xs[..p + 1] else xs
    decreases |xs|
  {
    if xs != [] {
      VisibleIsPrefix(xs[..|xs| - 1], row[..|xs| - 1], p);
      if p + 1 < |xs| {
        assert xs[..|xs| - 1][..p + 1] == xs[..p + 1];
      } else {
        assert xs == xs[..|xs| - 1] + [xs[|xs| - 1]];
      }
    }
  }

  /** One row per new position, one column per cached or new key. */
  predicate IsCausal(mask: seq<seq<bool>>, start: nat, q: nat)
  {
    && |mask| == q
    && forall i | 0 <= i < q ::
      && |mask[i]| == start + q
      && forall j | 0 <= j < start + q :: mask[i][j] <==> j <= start + i
  }

  /** What a decoder layer computes for new positions, given all keys and values and a mask. */
  function Attended(l: Layer, hidden: seq<Hidden>, start: nat, mask: seq<seq<bool>>,
                    keys: seq<Key>, values: seq<Value>): (r: seq<Hidden>)
    requires |mask| == |hidden|
    requires |keys| == |values|
    requires forall i | 0 <= i < |mask| :: |mask[i]| == |keys|
    ensures |r| == |hidden|
  {
    seq(|hidden|, i requires 0 <= i < |hidden| =>
      l.attend(start + i, hidden[i], Visible(keys, mask[i]), Visible(values, mask[i])))
  }

  /** A masked layer over cached keys and values is the tail of the uncached layer. */
  lemma CachedLayerIsUncached(l: Layer, past: seq<Hidden>, xs: seq<Hidden>, mask: seq<seq<bool>>)
    requires IsCausal(mask, |past|, |xs|)
    ensures Attended(l, xs, |past|, mask, Keys(l, 0, past) + Keys(l, |past|, xs),
                     Values(l, 0, past) + Values(l, |past|, xs))
         == LayerPass(l, past + xs)[|past|..]
  {
    hide Visible;
    var all := past + xs;
    KeysAppend(l, 0, past, xs);
    var ks, vs := Keys(l, 0, all), Values(l, 0, all);
    forall i | 0 <= i < |xs|
      ensures l.attend(|past| + i, xs[i], Visible(ks, mask[i]), Visible(vs, mask[i])) == PositionOut(l, all, |past| + i)
    {
      OneQuery(l, all, mask[i], |past| + i);
    }
  }

  /** One query under a causal mask row sees what its position sees without a cache. */
  lemma OneQuery(l: Layer, all: seq<Hidden>, row: seq<bool>, p: nat)
    requires p < |all| == |row| && forall j | 0 <= j < |row| :: row[j] <==> j <= p
    ensures l.attend(p, all[p], Visible(Keys(l, 0, all), row), Visible(Values(l, 0, all), row)) ==
              PositionOut(l, all, p)
  {
    VisibleIsPrefix(Keys(l, 0, all), row, p);
    VisibleIsPrefix(Values(l, 0, all), row, p);
    KeysPrefix(l, all, p + 1);
  }
}
