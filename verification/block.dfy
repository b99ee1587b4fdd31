/** commonnet/block.py: a block of decoder layers that keeps one KV cache per session. */
module Block {
  import opened Basics
  import opened CausalModel

  /** The name a client gives a session. */
  type Caller = string

  /** What servers call it: by the client's name, or, on a token chain, by a name that is new after every restart.
    * The source draws the latter from uuid4; here they are numbered, so that no two are equal. */
  datatype SessionId = Own(name: Caller) | Wire(name: Caller, restarts: nat)

  datatype BlockError = UnknownSession | LengthMismatch

  /** Keys held for one layer; no tensor yet means no positions yet. */
  function Held<T>(tensor: Option<seq<T>>): seq<T> {
    if tensor.None? then [] else tensor.value
  }

  type History = map<SessionId, seq<Hidden>>

  /** What `forward` answers and which inputs the sessions then hold, with no cache anywhere: the tail of
    * one uncached pass over everything the session was fed. Position 0 starts the session over. */
  ghost function AfterForward(layers: seq<Layer>, hist: History, id: SessionId, xs: seq<Hidden>, startPos: nat)
    : (Result<seq<Hidden>, BlockError>, History)
  {
    if startPos == 0 then (Ok(Stack(layers, xs)), hist[id := xs])
    else if id !in hist then (Err(UnknownSession), hist)
    else if |hist[id]| != startPos then (Err(LengthMismatch), hist)
    else (Ok(Stack(layers, hist[id] + xs)[startPos..]), hist[id := hist[id] + xs])
  }

  /** What `truncate` answers, and what is left: as if the inputs past `length` had never been fed. */
  ghost function AfterTruncate(hist: History, id: SessionId, length: nat): (Result<(), BlockError>, History) {
    if id !in hist then (Err(UnknownSession), hist)
    else (Ok(()), hist[id := hist[id][..Min(length, |hist[id]|)]])
  }

  /** Rollback erases history: feeding drafts and cutting back leaves what feeding only the kept ones leaves. */
  lemma RollbackErasesHistory(layers: seq<Layer>, hist: History, id: SessionId, drafts: seq<Hidden>, startPos: nat,
                              length: nat)
    requires AfterForward(layers, hist, id, drafts, startPos).0.Ok?
    requires startPos <= length <= startPos + |drafts|
    ensures var fed := AfterForward(layers, hist, id, drafts, startPos).1;
            var kept := AfterForward(layers, hist, id, drafts[..length - startPos], startPos).1;
            AfterTruncate(fed, id, length) == (Ok(()), kept)
  {
    var fed := AfterForward(layers, hist, id, drafts, startPos).1;
    var past := if startPos == 0 then [] else hist[id];
    assert fed[id] == past + drafts;
    assert fed[id][..length] == past + drafts[..length - startPos];
    assert startPos == 0 ==> past + drafts[..length - startPos] == drafts[..length - startPos];
    assert hist[id := past + drafts][id := fed[id][..length]] == hist[id := fed[id][..length]];
  }

  /** Two calls in a row are one call. */
  lemma ChunksAreOneCall(layers: seq<Layer>, hist: History, id: SessionId, xs: seq<Hidden>, ys: seq<Hidden>,
                         startPos: nat)
    requires AfterForward(layers, hist, id, xs, startPos).0.Ok?
    ensures var (first, between) := AfterForward(layers, hist, id, xs, startPos);
            var (second, after) := AfterForward(layers, between, id, ys, startPos + |xs|);
            var (whole, end) := AfterForward(layers, hist, id, xs + ys, startPos);
            second.Ok? && whole == Ok(first.value + second.value) && after == end
  {
    var past := if startPos == 0 then [] else hist[id];
    var all := past + xs + ys;
    assert past + (xs + ys) == all && (startPos == 0 ==> past + xs == xs && all == xs + ys);
    StackPrefix(layers, all, |past + xs|);
    assert all[..|past + xs|] == past + xs;
    if startPos + |xs| == 0 {
      assert all == ys && xs + ys == ys;
      assert Stack(layers, xs) + Stack(layers, ys) == Stack(layers, ys);
    } else {
      assert AfterForward(layers, hist, id, xs, startPos).1[id] == past + xs;
      assert Stack(layers, past + xs)[startPos..] + Stack(layers, all)[startPos + |xs|..] ==
          Stack(layers, all)[startPos..];
    }
    assert startPos == 0 ==>
        Stack(layers, xs)[0..] == Stack(layers, xs) && Stack(layers, all)[0..] == Stack(layers, all);
    assert hist[id := past + xs][id := all] == hist[id := all];
  }

  /** The cache holds exactly what layer i of `layers` made of `past`, for every i. */
  ghost predicate CacheHolds(layers: seq<Layer>, keys: seq<Option<seq<Key>>>,
                             values: seq<Option<seq<Value>>>, past: seq<Hidden>)
  {
    && |keys| == |values| == |layers|
    && forall i | 0 <= i < |layers| :: LayerHolds(layers, i, keys[i], values[i], past)
  }

  ghost predicate LayerHolds(layers: seq<Layer>, i: nat, keys: Option<seq<Key>>,
                             values: Option<seq<Value>>, past: seq<Hidden>)
    requires i < |layers|
  {
    && (keys.None? <==> values.None?)
    && Held(keys) == Keys(layers[i], 0, Stack(layers[..i], past))
    && Held(values) == Values(layers[i], 0, Stack(layers[..i], past))
  }

  /** Cutting every layer's keys and values to n positions leaves the cache of the first n inputs. */
  lemma LayerHoldsCut(layers: seq<Layer>, i: nat, keys: Option<seq<Key>>, values: Option<seq<Value>>,
                      past: seq<Hidden>, n: nat)
    requires i < |layers| && n <= |past|
    requires LayerHolds(layers, i, keys, values, past)
    ensures |Held(keys)| == |Held(values)| == |past|
    ensures keys.Some? ==> LayerHolds(layers, i, Some(keys.value[..n]), Some(values.value[..n]), past[..n])
    ensures keys.None? ==> LayerHolds(layers, i, None, None, past[..n])
  {
    var below := Stack(layers[..i], past);
    StackPrefix(layers[..i], past, n);
    KeysPrefix(layers[i], below, n);
  }

  /** What one layer adds to the cache, and what it passes on, when `xs` follows `past`. */
  lemma LayerStep(layers: seq<Layer>, i: nat, past: seq<Hidden>, xs: seq<Hidden>)
    requires i < |layers|
    ensures var below, into := Stack(layers[..i], past), Stack(layers[..i], past + xs)[|past|..];
            && |below| == |past| && |into| == |xs|
            && Stack(layers[..i], past + xs) == below + into
            && Keys(layers[i], 0, below + into) == Keys(layers[i], 0, below) + Keys(layers[i], |past|, into)
            && Values(layers[i], 0, below + into) == Values(layers[i], 0, below) + Values(layers[i], |past|, into)
            && Stack(layers[..i + 1], past + xs) == LayerPass(layers[i], below + into)
  {
    var below, into := Stack(layers[..i], past), Stack(layers[..i], past + xs)[|past|..];
    StackPrefix(layers[..i], past + xs, |past|);
    assert (past + xs)[..|past|] == past;
    assert Stack(layers[..i], past + xs) == below + into;
    KeysAppend(layers[i], 0, below, into);
    StackStep(layers, i, past + xs);
  }

  /** What one session has computed so far: each layer this block runs keeps its own keys and values. */
  class KVCache {
    var keys: seq<Option<seq<Key>>>
    var values: seq<Option<seq<Value>>>
    ghost const owner: SessionId

    constructor (numLayers: nat, ghost owner: SessionId)
      ensures this.owner == owner
      ensures keys == seq(numLayers, _ => None)
      ensures values == seq(numLayers, _ => None)
    {
      this.owner := owner;
      keys := seq(numLayers, _ => None);
      values := seq(numLayers, _ => None);
    }

    method Update(key: seq<Key>, value: seq<Value>, layerIdx: nat) returns (k: seq<Key>, v: seq<Value>)
      requires layerIdx < |keys| == |values|
      requires keys[layerIdx].None? <==> values[layerIdx].None?
      modifies this
      ensures k == Held(old(keys[layerIdx])) + key
      ensures v == Held(old(values[layerIdx])) + value
      ensures keys == old(keys)[layerIdx := Some(k)]
      ensures values == old(values)[layerIdx := Some(v)]
    {
      if keys[layerIdx].None? {
        keys := keys[layerIdx := Some(key)];
        values := values[layerIdx := Some(value)];
      } else {
        keys := keys[layerIdx := Some(keys[layerIdx].value + key)];
        values := values[layerIdx := Some(values[layerIdx].value + value)];
      }
      k, v := keys[layerIdx].value, values[layerIdx].value;
    }
  }

  class Session {
    const cache: KVCache
    var length: nat
    ghost const owner: SessionId

    constructor (cache: KVCache, ghost owner: SessionId)
      ensures this.cache == cache && length == 0 && this.owner == owner
    {
      this.owner := owner;
      this.cache := cache;
      length := 0;
    }
  }

  class BlockRange {
    const layers: seq<Layer>
    var sessions: map<SessionId, Session>

    /** The hidden states each open session has been fed and still holds. */
    ghost var hist: History
    ghost var Repr: set<object>

    ghost predicate Holds(s: Session, past: seq<Hidden>)
      reads s, s.cache
    {
      s.length == |past| && CacheHolds(layers, s.cache.keys, s.cache.values, past)
    }

    ghost predicate Valid()
      reads this, Repr
    {
      && this in Repr
      && hist.Keys == sessions.Keys
      && (forall id | id in sessions ::
            && sessions[id] in Repr && sessions[id].owner == id
            && sessions[id].cache in Repr && sessions[id].cache.owner == id
            && Holds(sessions[id], hist[id]))
    }

    constructor (layers: seq<Layer>)
      ensures Valid() && fresh(Repr)
      ensures this.layers == layers && hist == map[]
    {
      this.layers := layers;
      sessions, hist := map[], map[];
      Repr := {this};
    }

    /** The hidden states this block makes of new input. Position 0 starts the session afresh; any other
      * position must be where the session stands. */
    method Forward(id: SessionId, hiddenStates: seq<Hidden>, startPos: nat)
      returns (r: Result<seq<Hidden>, BlockError>)
      requires Valid()
      modifies Repr
      ensures Valid() && fresh(Repr - old(Repr))
      ensures r == AfterForward(layers, old(hist), id, hiddenStates, startPos).0
      ensures hist == AfterForward(layers, old(hist), id, hiddenStates, startPos).1
    {
      var found := FindSession(id, startPos);
      if found.Err? {
        return Err(found.error);
      }
      ghost var all := hist[id] + hiddenStates;
      assert startPos == 0 ==> all == hiddenStates;
      var hidden := Extend(id, found.value, hiddenStates, startPos);
      assert hist == old(hist)[id := all];
      return Ok(hidden);
    }

    /** The session `forward` runs in: a new one at position 0, else the open one if it stands there. */
    method FindSession(id: SessionId, startPos: nat) returns (r: Result<Session, BlockError>)
      requires Valid()
      modifies this
      ensures Valid() && fresh(Repr - old(Repr)) && old(Repr) <= Repr
      ensures r.Ok? <==> startPos == 0 || (id in old(hist) && |old(hist)[id]| == startPos)
      ensures r.Ok? ==> id in sessions && sessions[id] == r.value && r.value.length == startPos
      ensures r.Err? ==> r.error == if id in old(hist) then LengthMismatch else UnknownSession
      ensures hist == if startPos == 0 then old(hist)[id := []] else old(hist)
    {
      if startPos == 0 {
        var session := NewSession(id);
        return Ok(session);
      }
      if id !in sessions {
        return Err(UnknownSession);
      }
      if sessions[id].length != startPos {
        return Err(LengthMismatch);
      }
      return Ok(sessions[id]);
    }

    /** An empty session under `id`, in place of any session that had the id before. */
    method NewSession(id: SessionId) returns (session: Session)
      requires Valid()
      modifies this
      ensures Valid() && fresh(Repr - old(Repr)) && old(Repr) <= Repr
      ensures id in sessions && sessions[id] == session && session.length == 0
      ensures hist == old(hist)[id := []]
    {
      var cache := new KVCache(|layers|, id);
      session := new Session(cache, id);
      sessions := sessions[id := session];
      hist := hist[id := []];
      Repr := Repr + {session, cache};
      assert Holds(session, []);
    }

    /** Runs the new positions of a session that holds `startPos` positions. */
    method Extend(id: SessionId, session: Session, hiddenStates: seq<Hidden>, startPos: nat)
      returns (hidden: seq<Hidden>)
      requires Valid()
      requires id in sessions && sessions[id] == session && session.length == startPos
      modifies Repr
      ensures Valid() && Repr == old(Repr)
      ensures hist == old(hist)[id := old(hist)[id] + hiddenStates]
      ensures hidden == Stack(layers, old(hist)[id] + hiddenStates)[startPos..]
    {
      hide CacheHolds, Stack;
      assert Holds(session, hist[id]);
      hidden := RunLayers(session, hiddenStates, startPos, hist[id]);
      session.length := session.length + |hiddenStates|;
      hist := hist[id := hist[id] + hiddenStates];
      OthersStand(id);
    }

    /** The layer loop of `Forward`: attention over the cache with an explicit causal mask. */
    method RunLayers(session: Session, hiddenStates: seq<Hidden>, startPos: nat, ghost past: seq<Hidden>)
      returns (hidden: seq<Hidden>)
      requires |past| == startPos
      requires CacheHolds(layers, session.cache.keys, session.cache.values, past)
      modifies session.cache
      ensures hidden == Stack(layers, past + hiddenStates)[startPos..]
      ensures CacheHolds(layers, session.cache.keys, session.cache.values, past + hiddenStates)
    {
      var mask := CausalMask(startPos, |hiddenStates|);
      hidden := hiddenStates;
      var cache := session.cache;
      var i := 0;
      assert layers[..0] == [];
      while i < |layers|
        invariant 0 <= i <= |layers|
        invariant |cache.keys| == |cache.values| == |layers|
        invariant hidden == Stack(layers[..i], past + hiddenStates)[startPos..]
        invariant forall j | 0 <= j < i ::
                    LayerHolds(layers, j, cache.keys[j], cache.values[j], past + hiddenStates)
        invariant forall j | i <= j < |layers| ::
                    LayerHolds(layers, j, cache.keys[j], cache.values[j], past)
      {
        LayerStep(layers, i, past, hiddenStates);
        CachedLayerIsUncached(layers[i], Stack(layers[..i], past), hidden, mask);
        assert LayerHolds(layers, i, cache.keys[i], cache.values[i], past);
        var k, v := cache.Update(Keys(layers[i], startPos, hidden), Values(layers[i], startPos, hidden), i);
        assert LayerHolds(layers, i, cache.keys[i], cache.values[i], past + hiddenStates);
        hidden := Attended(layers[i], hidden, startPos, mask, k, v);
        i := i + 1;
      }
      assert layers[..|layers|] == layers;
    }

    /** Query row i stands at position startPos + i and may see key positions up to its own. */
    function CausalMask(startPos: nat, qLen: nat): (mask: seq<seq<bool>>)
      ensures IsCausal(mask, startPos, qLen)
    {
      var kvLen := startPos + qLen;
      seq(qLen, i requires 0 <= i < qLen => seq(kvLen, k requires 0 <= k < kvLen => k <= startPos + i))
    }

    /** One session has changed, with its cache, and nothing else has. */
    twostate lemma OthersStand(id: SessionId)
      requires old(Valid()) && id in sessions && sessions == old(sessions) && Repr == old(Repr)
      requires forall o | o in old(Repr) && o !in {this, sessions[id], sessions[id].cache} :: unchanged(o)
      requires id in hist && hist == old(hist)[id := hist[id]] && Holds(sessions[id], hist[id])
      ensures Valid()
    {
      hide CacheHolds;
      forall other | other in sessions && other != id
        ensures Holds(sessions[other], hist[other])
      {
        assert unchanged(sessions[other]) && unchanged(sessions[other].cache);
      }
    }

    /** Cuts the session back to `length` positions. A session at or below `length` is left alone. */
    method Truncate(id: SessionId, length: nat) returns (r: Result<(), BlockError>)
      requires Valid()
      modifies Repr
      ensures Valid() && Repr == old(Repr)
      ensures r == AfterTruncate(old(hist), id, length).0 && hist == AfterTruncate(old(hist), id, length).1
    {
      hide CacheHolds;
      if id !in sessions {
        return Err(UnknownSession);
      }
      var session := sessions[id];
      if length >= session.length {
        assert hist[id][..|hist[id]|] == hist[id];
        return Ok(());
      }
      CutCache(session, length, hist[id]);
      session.length := length;
      hist := hist[id := hist[id][..length]];
      OthersStand(id);
      return Ok(());
    }

    method CutCache(session: Session, length: nat, ghost past: seq<Hidden>)
      requires length <= |past|
      requires CacheHolds(layers, session.cache.keys, session.cache.values, past)
      modifies session.cache
      ensures CacheHolds(layers, session.cache.keys, session.cache.values, past[..length])
    {
      var cache := session.cache;
      var i := 0;
      while i < |cache.keys|
        invariant 0 <= i <= |layers| == |cache.keys| == |cache.values|
        invariant forall j | 0 <= j < i ::
                    LayerHolds(layers, j, cache.keys[j], cache.values[j], past[..length])
        invariant forall j | i <= j < |layers| ::
                    LayerHolds(layers, j, cache.keys[j], cache.values[j], past)
      {
        LayerHoldsCut(layers, i, cache.keys[i], cache.values[i], past, length);
        if cache.keys[i].Some? {
          cache.keys := cache.keys[i := Some(cache.keys[i].value[..length])];
          cache.values := cache.values[i := Some(cache.values[i].value[..length])];
        }
        i := i + 1;
      }
    }

    function SessionLength(id: SessionId): (n: nat)
      requires Valid()
      reads this, Repr
      ensures n == if id in hist then |hist[id]| else 0
    {
      if id in sessions then sessions[id].length else 0
    }

    /** Drops a session. Closing an unknown id changes nothing. */
    method Close(id: SessionId)
      requires Valid()
      modifies this
      ensures Valid() && Repr == old(Repr)
      ensures hist == old(hist) - {id}
    {
      sessions := sessions - {id};
      hist := hist - {id};
    }
  }
}
