/** commonnet/speculative.py, MlxDrafter and TorchDrafter: a small model on the client's own machine that
  * proposes tokens greedily. Its KV cache follows the accepted text from call to call. The two classes
  * differ only in how they cut that cache back.
  */
module Drafters {
  import opened Basics
  import opened CausalModel
  import opened Block
  import opened MlxBlock
  import Decoding

  datatype Backend = Mlx | Torch

  /** trim_prompt_cache: every layer drops its last n positions. */
  function TrimPromptCache(caches: seq<LayerCache>, n: nat): seq<LayerCache>
    requires forall i | 0 <= i < |caches| :: |caches[i].keys| == |caches[i].values|
  {
    seq(|caches|, i requires 0 <= i < |caches| => caches[i].Trim(n))
  }

  /** DynamicCache.crop: every layer keeps at most its first `length` positions. */
  function Crop(caches: seq<LayerCache>, length: nat): seq<LayerCache>
    requires forall i | 0 <= i < |caches| :: |caches[i].keys| == |caches[i].values|
  {
    seq(|caches|, i requires 0 <= i < |caches| =>
      if |caches[i].keys| <= length then caches[i]
      else LayerCache(caches[i].keys[..length], caches[i].values[..length]))
  }

  /** Dropping the surplus count and cropping to the length both leave the cache of the shorter text. */
  lemma BothCutsForget(m: Model, caches: seq<LayerCache>, toks: seq<Token>, length: nat)
    requires CachesHold(m.layers, caches, Embed(m, toks)) && length <= |toks|
    ensures forall i | 0 <= i < |caches| :: |caches[i].keys| == |caches[i].values|
    ensures CachesHold(m.layers, TrimPromptCache(caches, |toks| - length), Embed(m, toks[..length]))
    ensures CachesHold(m.layers, Crop(caches, length), Embed(m, toks[..length]))
  {
    var past := Embed(m, toks);
    EmbedPrefix(m, toks, length);
    forall i | 0 <= i < |caches|
      ensures TrimPromptCache(caches, |toks| - length)[i] == CacheOf(m.layers, i, past[..length])
              == Crop(caches, length)[i]
    {
      TrimIsCut(m.layers, i, past, length);
      assert past[..|past|] == past;
    }
  }

  /** How many leading tokens two texts share. */
  function Common(a: seq<Token>, b: seq<Token>): (n: nat)
    ensures n <= |a| && n <= |b| && forall i | 0 <= i < n :: a[i] == b[i]
    ensures n < |a| && n < |b| ==> a[n] != b[n]
  {
    if a == [] || b == [] || a[0] != b[0] then 0
    else
      var n := 1 + Common(a[1..], b[1..]);
      assert forall i | 0 < i < n :: a[i] == a[1..][i - 1] && b[i] == b[1..][i - 1];
      n
  }

  /** How much of the cached text a call keeps: at least the last context token is always fed again. */
  function Kept(toks: seq<Token>, context: seq<Token>): (n: nat)
    requires context != []
    ensures n <= |toks| && n < |context| && forall i | 0 <= i < n :: toks[i] == context[i]
    ensures n == |context| - 1 || n == |toks| || toks[n] != context[n]
  {
    Min(Common(toks, context), |context| - 1)
  }

  class Drafter {
    const model: Model
    const backend: Backend
    var cache: Option<seq<LayerCache>>
    var toks: seq<Token>

    /** The cache holds exactly the tokens `toks` says it holds. */
    ghost predicate Valid()
      reads this
    {
      if cache.None? then toks == [] else CachesHold(model.layers, cache.value, Embed(model, toks))
    }

    constructor (model: Model, backend: Backend)
      ensures Valid() && this.model == model && this.backend == backend && toks == []
    {
      this.model, this.backend := model, backend;
      cache, toks := None, [];
    }

    method Reset()
      modifies this
      ensures Valid() && cache.Some? && toks == []
    {
      cache, toks := Some(seq(|model.layers|, _ => LayerCache([], []))), [];
    }

    /** The k tokens greedy decoding would append to the context, whatever earlier calls left behind. */
    method Propose(context: seq<Token>, k: nat) returns (out: seq<Token>)
      requires Valid() && context != []
      modifies this
      ensures Valid()
      ensures out == Decoding.Greedy(Choice(model), context, k, {}) && |out| == k
      ensures toks == if k == 0 then context[..Kept(old(toks), context)] else context + out[..k - 1]
    {
      hide CachesHold, Decoding.Greedy, Kept, Choice;
      var feed := KeepCommon(context);
      ghost var kept := toks;
      out := [];
      ghost var next := Choice(model);
      Decoding.NoBudget(next, context, {});
      while |out| < k
        invariant |out| <= k && Valid() && cache.Some? && feed != []
        invariant toks + feed == context + out
        invariant toks == if out == [] then kept else context + out[..|out| - 1]
        invariant out == Decoding.Greedy(next, context, |out|, {})
        decreases k - |out|
      {
        var nxt := RunModel(feed);
        GreedyExtends(next, context, |out|);
        toks := toks + feed;
        out := out + [nxt];
        feed := [nxt];
        assert out[..|out| - 1] + feed == out;
      }
    }

    /** Keeps of the cache what the context shares with it; returns what is still to be fed. */
    method KeepCommon(context: seq<Token>) returns (feed: seq<Token>)
      requires Valid() && context != []
      modifies this
      ensures Valid() && cache.Some? && feed != []
      ensures toks == context[..Kept(old(toks), context)] && toks + feed == context
    {
      hide CachesHold;
      if cache.None? {
        Reset();
      }
      var common := 0;
      while common < |toks| && common < |context| && toks[common] == context[common]
        invariant common <= |toks| && common <= |context| && toks[..common] == context[..common]
      {
        common := common + 1;
      }
      CommonIs(toks, context, common);
      common := Min(common, |context| - 1);
      if common < |toks| {
        CutTo(common);
      }
      return context[common..];
    }

    method CutTo(length: nat)
      requires Valid() && length < |toks|
      modifies this
      ensures Valid() && cache.Some? && toks == old(toks)[..length]
    {
      BothCutsForget(model, cache.value, toks, length);
      cache := Some(if backend.Mlx? then TrimPromptCache(cache.value, |toks| - length) else Crop(cache.value, length));
      toks := toks[..length];
    }

    /** One pass of the model over its cache; the greedy token after the last position. */
    method RunModel(feed: seq<Token>) returns (nxt: Token)
      requires Valid() && cache.Some? && feed != []
      modifies this`cache
      ensures cache.Some? && CachesHold(model.layers, cache.value, Embed(model, toks + feed))
      ensures nxt == Choice(model)(toks + feed)
    {
      ghost var past := Embed(model, toks);
      var xs := Embed(model, feed);
      EmbedAppend(model, toks, feed);
      var x, caches := xs, cache.value;
      var i := 0;
      assert model.layers[..0] == [];
      while i < |model.layers|
        invariant 0 <= i <= |model.layers| == |caches|
        invariant x == Stack(model.layers[..i], past + xs)[|past|..]
        invariant forall j | 0 <= j < i :: caches[j] == CacheOf(model.layers, j, past + xs)
        invariant forall j | i <= j < |model.layers| :: caches[j] == CacheOf(model.layers, j, past)
      {
        LayerStep(model.layers, i, past, xs);
        var layer, offset := model.layers[i], caches[i].Offset();
        var c := caches[i].UpdateAndFetch(Keys(layer, offset, x), Values(layer, offset, x));
        var rows := CreateCausalMask(|x|, offset);
        CachedLayerIsUncached(layer, Stack(model.layers[..i], past), x, rows);
        x := Attended(layer, x, offset, rows, c.keys, c.values);
        caches := caches[i := c];
        i := i + 1;
      }
      assert model.layers[..|model.layers|] == model.layers;
      cache := Some(caches);
      nxt := model.head(x[|x| - 1]);
    }
  }

  /** What such a drafter proposes over a whole run, whatever is in its cache from the round before. */
  ghost function Answers(m: Model): Decoding.Drafter {
    (round: nat, context: seq<Token>, want: nat) => Decoding.Greedy(Choice(m), context, want, {})
  }

  lemma CommonIs(a: seq<Token>, b: seq<Token>, n: nat)
    requires n <= |a| && n <= |b| && a[..n] == b[..n]
    requires n < |a| && n < |b| ==> a[n] != b[n]
    ensures n == Common(a, b)
  {
  }

  /** With no stop tokens, one more step appends the choice after everything so far. */
  lemma {:induction false} GreedyExtends(next: Decoding.Oracle, context: seq<Token>, n: nat)
    ensures var out := Decoding.Greedy(next, context, n, {});
            Decoding.Greedy(next, context, n + 1, {}) == out + [next(context + out)]
    decreases n
  {
    if n == 0 {
      assert context + [] == context;
    } else {
      var t := next(context);
      GreedyExtends(next, context + [t], n - 1);
      assert context + [t] + Decoding.Greedy(next, context + [t], n - 1, {})
          == context + Decoding.Greedy(next, context, n, {});
    }
  }

  /** From round to round the drafter feeds one new token, or two if every draft was accepted: what it
    * cached for the accepted text is kept, what was rejected is forgotten. */
  lemma DrafterFollowsTheText(context: seq<Token>, drafts: seq<Token>, accepted: nat, last: Token)
    requires context != [] && drafts != [] && accepted <= |drafts|
    requires accepted < |drafts| ==> last != drafts[accepted]
    ensures var toks := context + drafts[..|drafts| - 1];
            var context' := context + drafts[..accepted] + [last];
            |context'| - Kept(toks, context') == if accepted == |drafts| then 2 else 1
  {
  }
}
