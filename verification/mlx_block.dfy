/** commonnet/backends/mlx_block.py: the same block on MLX. It differs from the PyTorch block in how it
  * masks (three cases), where positions come from (each layer cache's own offset) and how it rolls
  * back (by trimming a count instead of cutting to a length).
  */
module MlxBlock {
  import opened Basics
  import opened CausalModel
  import opened Block

  /** One layer's cache. Its class comes from mlx_lm and is not part of this model beyond this much:
    * `UpdateAndFetch` appends and hands everything back, `Trim(n)` drops the last n positions. */
  datatype LayerCache = LayerCache(keys: seq<Key>, values: seq<Value>) {
    function Offset(): nat {
      |keys|
    }

    function UpdateAndFetch(k: seq<Key>, v: seq<Value>): LayerCache {
      LayerCache(keys + k, values + v)
    }

    function Trim(n: nat): LayerCache
      requires |keys| == |values|
    {
      var left := |keys| - Min(n, |keys|);
      LayerCache(keys[..left], values[..left])
    }
  }

  /** The three mask arguments `forward` passes to a layer. */
  datatype Mask = NoMask | CausalText | Rows(rows: seq<seq<bool>>)

  /** create_causal_mask(n, offset): columns 0..offset+n, rows offset..offset+n. */
  function CreateCausalMask(n: nat, offset: nat): seq<seq<bool>> {
    seq(n, i requires 0 <= i < n => seq(offset + n, j requires 0 <= j < offset + n => offset + i >= j))
  }

  /** What attention lets `q` queries see of `kv` keys under a mask argument. A "causal" mask lines the
    * last query up with the last key. */
  function MaskRows(mask: Mask, q: nat, kv: nat): seq<seq<bool>>
    requires q <= kv
  {
    match mask
    case NoMask => seq(q, _ => seq(kv, _ => true))
    case CausalText => seq(q, i requires 0 <= i < q =>
      seq(kv, j requires 0 <= j < kv => j <= i + (kv - q)))
    case Rows(rows) => rows
  }

  function ChooseMask(startPos: nat, qLen: nat): Mask {
    if qLen == 1 then NoMask
    else if startPos == 0 then CausalText
    else Rows(CreateCausalMask(qLen, startPos))
  }

  /** Whichever of the three masks is chosen, the rows it stands for are the causal ones. */
  lemma EveryMaskIsCausal(startPos: nat, qLen: nat)
    ensures IsCausal(MaskRows(ChooseMask(startPos, qLen), qLen, startPos + qLen), startPos, qLen)
  {
  }

  ghost predicate CachesHold(layers: seq<Layer>, caches: seq<LayerCache>, past: seq<Hidden>)
  {
    |caches| == |layers| && forall i | 0 <= i < |layers| :: caches[i] == CacheOf(layers, i, past)
  }

  /** The cache layer i must hold after `past`. */
  ghost function CacheOf(layers: seq<Layer>, i: nat, past: seq<Hidden>): (c: LayerCache)
    requires i < |layers|
    ensures |c.keys| == |c.values| == |past|
  {
    LayerCache(Keys(layers[i], 0, Stack(layers[..i], past)), Values(layers[i], 0, Stack(layers[..i], past)))
  }

  /** Trimming the surplus count is the same as cutting to the length. */
  lemma TrimIsCut(layers: seq<Layer>, i: nat, past: seq<Hidden>, length: nat)
    requires i < |layers| && length <= |past|
    ensures CacheOf(layers, i, past).Trim(|past| - length) == CacheOf(layers, i, past[..length])
  {
    StackPrefix(layers[..i], past, length);
    KeysPrefix(layers[i], Stack(layers[..i], past), length);
  }

  class MlxSession {
    var caches: seq<LayerCache>
    var length: nat
    ghost const owner: SessionId

    constructor (caches: seq<LayerCache>, ghost owner: SessionId)
      ensures this.caches == caches && length == 0 && this.owner == owner
    {
      this.owner := owner;
      this.caches := caches;
      length := 0;
    }
  }

  class MlxBlockRange {
    const layers: seq<Layer>
    var sessions: map<SessionId, MlxSession>
    ghost var hist: History
    ghost var Repr: set<object>

    ghost predicate Holds(s: MlxSession, past: seq<Hidden>)
      reads s
    {
      s.length == |past| && CachesHold(layers, s.caches, past)
    }

    ghost predicate Valid()
      reads this, Repr
    {
      && this in Repr
      && hist.Keys == sessions.Keys
      && (forall id | id in sessions ::
            sessions[id] in Repr && sessions[id].owner == id && Holds(sessions[id], hist[id]))
    }

    constructor (layers: seq<Layer>)
      ensures Valid() && fresh(Repr)
      ensures this.layers == layers && hist == map[]
    {
      this.layers := layers;
      sessions, hist := map[], map[];
      Repr := {this};
    }

    method Forward(id: SessionId, hiddenStates: seq<Hidden>, startPos: nat)
      returns (r: Result<seq<Hidden>, BlockError>)
      requires Valid()
      modifies Repr
      ensures Valid() && fresh(Repr - old(Repr))
      ensures r == AfterForward(layers, old(hist), id, hiddenStates, startPos).0
      ensures hist == AfterForward(layers, old(hist), id, hiddenStates, startPos).1
    {
      var found := FindSession(id, startPos);
      if found.Err? {
        return Err(found.error);
      }
      ghost var all := hist[id] + hiddenStates;
      assert startPos == 0 ==> all == hiddenStates;
      var hidden := Extend(id, found.value, hiddenStates, startPos);
      assert hist == old(hist)[id := all];
      return Ok(hidden);
    }

    /** The session `forward` runs in: a new one at position 0, else the open one if it stands there. */
    method FindSession(id: SessionId, startPos: nat) returns (r: Result<MlxSession, BlockError>)
      requires Valid()
      modifies this
      ensures Valid() && fresh(Repr - old(Repr)) && old(Repr) <= Repr
      ensures r.Ok? <==> startPos == 0 || (id in old(hist) && |old(hist)[id]| == startPos)
      ensures r.Ok? ==> id in sessions && sessions[id] == r.value && r.value.length == startPos
      ensures r.Err? ==> r.error == if id in old(hist) then LengthMismatch else UnknownSession
      ensures hist == if startPos == 0 then old(hist)[id := []] else old(hist)
    {
      if startPos == 0 {
        var session := NewSession(id);
        return Ok(session);
      }
      if id !in sessions {
        return Err(UnknownSession);
      }
      if sessions[id].length != startPos {
        return Err(LengthMismatch);
      }
      return Ok(sessions[id]);
    }

    method NewSession(id: SessionId) returns (sess: MlxSession)
      requires Valid()
      modifies this
      ensures Valid() && fresh(Repr - old(Repr)) && old(Repr) <= Repr
      ensures id in sessions && sessions[id] == sess && sess.length == 0
      ensures hist == old(hist)[id := []]
    {
      sess := new MlxSession(seq(|layers|, _ => LayerCache([], [])), id);
      sessions := sessions[id := sess];
      hist := hist[id := []];
      Repr := Repr + {sess};
      assert Holds(sess, []);
    }

    method Extend(id: SessionId, sess: MlxSession, hiddenStates: seq<Hidden>, startPos: nat)
      returns (x: seq<Hidden>)
      requires Valid()
      requires id in sessions && sessions[id] == sess && sess.length == startPos
      modifies Repr
      ensures Valid() && Repr == old(Repr)
      ensures hist == old(hist)[id := old(hist)[id] + hiddenStates]
      ensures x == Stack(layers, old(hist)[id] + hiddenStates)[startPos..]
    {
      assert Holds(sess, hist[id]);
      x := RunLayers(sess, hiddenStates, startPos, hist[id]);
      sess.length := sess.length + |hiddenStates|;
      hist := hist[id := hist[id] + hiddenStates];
      assert Holds(sess, hist[id]);
    }

    /** The layer loop of `Forward`. Positions start at each cache's offset. */
    method RunLayers(sess: MlxSession, hiddenStates: seq<Hidden>, startPos: nat, ghost past: seq<Hidden>)
      returns (x: seq<Hidden>)
      requires |past| == startPos
      requires CachesHold(layers, sess.caches, past)
      modifies sess`caches
      ensures x == Stack(layers, past + hiddenStates)[startPos..]
      ensures CachesHold(layers, sess.caches, past + hiddenStates)
    {
      var qLen := |hiddenStates|;
      var mask := ChooseMask(startPos, qLen);
      EveryMaskIsCausal(startPos, qLen);
      x := hiddenStates;
      var i := 0;
      assert layers[..0] == [];
      while i < |layers|
        invariant 0 <= i <= |layers| == |sess.caches|
        invariant x == Stack(layers[..i], past + hiddenStates)[startPos..]
        invariant forall j | 0 <= j < i :: sess.caches[j] == CacheOf(layers, j, past + hiddenStates)
        invariant forall j | i <= j < |layers| :: sess.caches[j] == CacheOf(layers, j, past)
      {
        LayerStep(layers, i, past, hiddenStates);
        var offset := sess.caches[i].Offset();
        var cache := sess.caches[i].UpdateAndFetch(Keys(layers[i], offset, x), Values(layers[i], offset, x));
        var rows := MaskRows(mask, qLen, cache.Offset());
        CachedLayerIsUncached(layers[i], Stack(layers[..i], past), x, rows);
        x := Attended(layers[i], x, offset, rows, cache.keys, cache.values);
        sess.caches := sess.caches[i := cache];
        i := i + 1;
      }
      assert layers[..|layers|] == layers;
    }

    method Truncate(id: SessionId, length: nat) returns (r: Result<(), BlockError>)
      requires Valid()
      modifies Repr
      ensures Valid() && Repr == old(Repr)
      ensures r == AfterTruncate(old(hist), id, length).0 && hist == AfterTruncate(old(hist), id, length).1
    {
      if id !in sessions {
        return Err(UnknownSession);
      }
      var sess := sessions[id];
      if length >= sess.length {
        assert hist[id][..|hist[id]|] == hist[id];
        return Ok(());
      }
      assert Holds(sess, hist[id]);
      TrimAll(sess, sess.length - length, hist[id]);
      sess.length := length;
      hist := hist[id := hist[id][..length]];
      assert Holds(sess, hist[id]);
      return Ok(());
    }

    method TrimAll(sess: MlxSession, drop: nat, ghost past: seq<Hidden>)
      requires drop <= |past|
      requires CachesHold(layers, sess.caches, past)
      modifies sess`caches
      ensures CachesHold(layers, sess.caches, past[..|past| - drop])
    {
      var i := 0;
      while i < |sess.caches|
        invariant 0 <= i <= |layers| == |sess.caches|
        invariant forall j | 0 <= j < i :: sess.caches[j] == CacheOf(layers, j, past[..|past| - drop])
        invariant forall j | i <= j < |layers| :: sess.caches[j] == CacheOf(layers, j, past)
      {
        TrimIsCut(layers, i, past, |past| - drop);
        sess.caches := sess.caches[i := sess.caches[i].Trim(drop)];
        i := i + 1;
      }
    }

    method Close(id: SessionId)
      requires Valid()
      modifies this
      ensures Valid() && Repr == old(Repr)
      ensures hist == old(hist) - {id}
    {
      sessions := sessions - {id};
      hist := hist - {id};
    }
  }
}
