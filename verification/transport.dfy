/** commonnet/net/transport.py: the client's side of a route. It splits long inputs into requests, lets a
  * rollback ride on the next forward, and keeps the retained history of a token chain.
  */
module Transport {
  import opened Basics
  import opened CausalModel
  import opened Block
  import opened Server
  import opened Decoding
  import opened Pipeline
  import opened PeerLinks

  // --- the retained history of a token chain ---------------------------------------------------

  datatype Entry = Entry(startPos: nat, ids: seq<Token>)

  datatype ChainState = ChainState(history: seq<Entry>, pendingCut: Option<nat>, closed: set<nat>, restarts: nat)

  function CommittedEnd(history: seq<Entry>): nat {
    if history == [] then 0 else Last(history).startPos + |Last(history).ids|
  }

  /** The retained history spells exactly `tokens`, entry after entry from position 0. */
  ghost predicate Spells(history: seq<Entry>, tokens: seq<Token>)
    decreases |history|
  {
    if history == [] then tokens == []
    else
      var e := Last(history);
      && e.ids != [] && e.startPos + |e.ids| == |tokens|
      && tokens[e.startPos..] == e.ids
      && Spells(history[..|history| - 1], tokens[..e.startPos])
  }

  function CutHistory(history: seq<Entry>, length: nat): seq<Entry> {
    if history == [] then []
    else
      var e := history[0];
      var rest := CutHistory(history[1..], length);
      if e.startPos < length then
        [e.(ids := e.ids[..Min(|e.ids|, length - e.startPos)])] + rest
      else rest
  }

  lemma CutHistoryAppend(a: seq<Entry>, b: seq<Entry>, length: nat)
    ensures CutHistory(a + b, length) == CutHistory(a, length) + CutHistory(b, length)
    decreases |a|
  {
    if a == [] {
      assert a + b == b;
    } else {
      assert (a + b)[1..] == a[1..] + b;
      CutHistoryAppend(a[1..], b, length);
    }
  }

  /** Cutting the retained history leaves the history of the shorter session. */
  lemma {:induction false} CutHistorySpells(history: seq<Entry>, tokens: seq<Token>, length: nat)
    requires Spells(history, tokens) && length <= |tokens|
    ensures Spells(CutHistory(history, length), tokens[..length])
    decreases |history|
  {
    if history != [] {
      var init, e := history[..|history| - 1], Last(history);
      assert history == init + [e];
      CutHistoryAppend(init, [e], length);
      if e.startPos < length {
        CutHistorySpells(init, tokens[..e.startPos], e.startPos);
        CutBeyondEnd(init, tokens[..e.startPos], length);
        var kept := e.(ids := e.ids[..length - e.startPos]);
        assert CutHistory([e], length) == [kept];
        assert CutHistory(history, length)[..|init|] == init;
        assert tokens[..length][..e.startPos] == tokens[..e.startPos];
        assert tokens[..length][e.startPos..] == kept.ids;
      } else {
        CutHistorySpells(init, tokens[..e.startPos], length);
        assert CutHistory([e], length) == [];
        assert CutHistory(history, length) == CutHistory(init, length);
        assert tokens[..e.startPos][..length] == tokens[..length];
      }
    }
  }

  lemma {:induction false} CutBeyondEnd(history: seq<Entry>, tokens: seq<Token>, length: nat)
    requires Spells(history, tokens) && |tokens| <= length
    ensures CutHistory(history, length) == history
    decreases |history|
  {
    if history != [] {
      var init, e := history[..|history| - 1], Last(history);
      assert history == init + [e];
      CutBeyondEnd(init, tokens[..e.startPos], length);
      CutHistoryAppend(init, [e], length);
      assert e.ids[..|e.ids|] == e.ids;
      assert CutHistory([e], length) == [e];
    }
  }

  /** Entry by entry, a history spells the session from its start. */
  lemma {:induction false} SpellsPrefix(history: seq<Entry>, tokens: seq<Token>, k: nat)
    requires Spells(history, tokens) && k <= |history|
    ensures var n := CommittedEnd(history[..k]);
            && n <= |tokens| && Spells(history[..k], tokens[..n])
            && (k < |history| ==>
                  && history[k].startPos == n && history[k].ids != []
                  && CommittedEnd(history[..k + 1]) == n + |history[k].ids| <= |tokens|
                  && tokens[..n] + history[k].ids == tokens[..n + |history[k].ids|])
    decreases |history|
  {
    CommittedEndIsLength(history, tokens);
    if k == |history| {
      assert history[..k] == history && tokens[..|tokens|] == tokens;
    } else {
      var init, e := history[..|history| - 1], Last(history);
      SpellsPrefix(init, tokens[..e.startPos], k);
      assert history[..k] == init[..k];
      var n := CommittedEnd(history[..k]);
      assert tokens[..e.startPos][..n] == tokens[..n];
      if k < |init| {
        assert history[..k + 1] == init[..k + 1];
        assert tokens[..e.startPos][..n + |history[k].ids|] == tokens[..n + |history[k].ids|];
      } else {
        assert init[..k] == init && history[..k + 1] == history;
        CommittedEndIsLength(init, tokens[..e.startPos]);
        assert tokens[..n] + e.ids == tokens && tokens[..|tokens|] == tokens;
      }
    }
  }

  lemma EntryKnown(vocab: nat, tokens: seq<Token>, e: Entry)
    requires InVocab(vocab, tokens) && e.startPos + |e.ids| <= |tokens|
    requires tokens[..e.startPos] + e.ids == tokens[..e.startPos + |e.ids|]
    ensures InVocab(vocab, e.ids)
  {
    forall t | t in e.ids
      ensures t in tokens
    {
      assert t in tokens[..e.startPos] + e.ids;
    }
  }

  lemma KnownJoin(vocab: nat, a: seq<Token>, b: seq<Token>)
    ensures InVocab(vocab, a) && InVocab(vocab, b) ==> InVocab(vocab, a + b)
  {
  }

  lemma SpellsAppend(history: seq<Entry>, tokens: seq<Token>, ids: seq<Token>)
    requires Spells(history, tokens) && ids != []
    ensures Spells(history + [Entry(|tokens|, ids)], tokens + ids)
  {
    assert (history + [Entry(|tokens|, ids)])[..|history|] == history;
    assert (tokens + ids)[..|tokens|] == tokens;
  }

  lemma PieceKnown(vocab: nat, ids: seq<Token>, a: nat, b: nat)
    requires a <= b <= |ids|
    ensures !InVocab(vocab, ids[a..b]) ==> !InVocab(vocab, ids)
    ensures InVocab(vocab, ids[..a]) && InVocab(vocab, ids[a..b]) ==> InVocab(vocab, ids[..b])
    ensures ids[0..b] == ids[..b]
  {
    assert ids[..b] == ids[..a] + ids[a..b];
    assert forall t | t in ids[a..b] :: t in ids;
  }

  /** The replies of two chunks in a row, put together: every token, or only the last one. */
  function JoinReplies(which: Which, first: ChainReply, second: ChainReply): ChainReply {
    if which.All? then ChainReply(first.ids + second.ids, None) else second
  }

  /** The picks of two chunks in a row are the picks of one. */
  lemma PicksJoin(m: Model, tokens: seq<Token>, ids: seq<Token>, a: nat, b: nat, which: Which)
    requires 0 < a < b <= |ids|
    ensures JoinReplies(which, Verdict(None, Picked(m, tokens, ids[..a], which)),
                        Verdict(None, Picked(m, tokens + ids[..a], ids[a..b], which)))
         == Verdict(None, Picked(m, tokens, ids[..b], which))
  {
    assert tokens + ids[..a] + ids[a..b] == tokens + ids[..b];
    BelowPrefix(m, |m.layers|, tokens + ids[..b], |tokens| + a);
    assert (tokens + ids[..b])[..|tokens| + a] == tokens + ids[..a];
  }

  lemma CommittedEndIsLength(history: seq<Entry>, tokens: seq<Token>)
    requires Spells(history, tokens)
    ensures CommittedEnd(history) == |tokens|
  {
  }

  const OVERHEAD_BYTES := 4096

  /** 4096 float32 values in base64. */
  const POSITION_BYTES := 4096 * 4 * 4 / 3

  /** Positions a chain request may carry: as many as fit a peer's request limit, from 1 to 256. */
  function ChainChunk(maxRequestBytes: int): (n: nat)
    ensures 1 <= n <= 256
    ensures n > 1 ==> OVERHEAD_BYTES + n * POSITION_BYTES <= maxRequestBytes
    ensures n < 256 ==> OVERHEAD_BYTES + (n + 1) * POSITION_BYTES > maxRequestBytes
  {
    Min(256, Max(1, (maxRequestBytes - OVERHEAD_BYTES) / POSITION_BYTES))
  }

  const MAX_TOKEN_ID := 0xFFFF_FFFF

  predicate ChainIds(ids: seq<Token>) {
    ids != [] && |ids| <= MAX_CHAIN_TOKENS && forall t | t in ids :: 0 <= t <= MAX_TOKEN_ID
  }

  /** A chain step the transport and the peers accept. */
  predicate StepFits(vocab: nat, chunk: nat, ids: seq<Token>, which: Which, drafts: Option<seq<Token>>) {
    && ChainIds(ids) && InVocab(vocab, ids)
    && (drafts.Some? ==> which.All? && drafts.value == ids[1..] && |ids| <= chunk)
  }

  // --- the transport ---------------------------------------------------------------------------

  class HttpTransport {
    const peers: Peers
    const hiddenChunk: nat
    const idsChunk: nat
    const chainChunk: nat

    /** Sessions opened at an endpoint (by its index in the route), and cuts that wait for a forward. */
    var open: set<(nat, Caller)>
    var pendingCut: map<(nat, Caller), nat>
    var chains: map<Caller, ChainState>

    ghost predicate Valid()
      reads this, peers, peers.Repr
    {
      && hiddenChunk >= 1 && idsChunk >= 1 && 1 <= chainChunk <= 256
      && this !in peers.Repr && peers.Valid()
    }

    constructor (peers: Peers, hiddenChunk: nat, idsChunk: nat, maxRequestBytes: int)
      requires hiddenChunk >= 1 && idsChunk >= 1 && peers.Valid()
      ensures Valid()
      ensures this.peers == peers && chainChunk == ChainChunk(maxRequestBytes)
      ensures open == {} && pendingCut == map[] && chains == map[]
    {
      this.peers := peers;
      this.hiddenChunk, this.idsChunk, chainChunk := hiddenChunk, idsChunk, ChainChunk(maxRequestBytes);
      open, pendingCut, chains := {}, map[], map[];
    }

    /** What the servers call the session. */
    function NameOf(id: Caller): (s: SessionId)
      reads this
      ensures s.name == id
    {
      if id in chains then Wire(id, chains[id].restarts) else Own(id)
    }

    /** The part of a cut that has not reached endpoint i yet. */
    function Pending(i: nat, id: Caller): Option<nat>
      reads this
    {
      if id in chains then chains[id].pendingCut
      else if (i, id) in pendingCut then Some(pendingCut[(i, id)])
      else None
    }

    /** Opens the session at endpoint i, unless it is open. */
    method EnsureOpen(i: nat, id: Caller, ghost past: seq<Hidden>, ghost floor: nat) returns (ok: bool)
      requires Valid() && i < |peers.servers|
      requires StageHolds(peers.stages[i], Own(id), Pending(i, id), past, floor)
      requires (i, id) in open ==> Own(id) in peers.stages[i].sessions
      modifies this`open, peers.Repr
      ensures Valid() && peers.Repr == old(peers.Repr)
      ensures peers.lost >= old(peers.lost) + if ok then 0 else peers.attempts
      ensures peers.lost == old(peers.lost) ==> ok
      ensures open == if ok then old(open) + {(i, id)} else old(open)
      ensures peers.stages == old(peers.stages)[i := peers.stages[i]]
      ensures OnlyIn(old(peers.stages[i]), peers.stages[i], Own(id))
      ensures StageHolds(peers.stages[i], Own(id), Pending(i, id), past, floor)
      ensures if ok then Own(id) in peers.stages[i].sessions else (i, id) !in open
    {
      hide BlockServer.Valid, Peers.Valid, StageHolds, EndsServe, RouteServes, Opened;
      ok := (i, id) in open;
      if !ok {
        ghost var before := peers.stages[i];
        ok := peers.OpenServer(i, Own(id));
        OpenKeepsStage(before, peers.stages[i], Own(id), Pending(i, id), past, floor);
        if ok {
          open := open + {(i, id)};
        }
      }
    }

    /** Calls one endpoint with hidden states or token ids, in requests of at most a chunk each. The first
      * one opens the session if need be and takes a waiting cut along. */
    method Forward(i: nat, id: Caller, c: Call, startPos: nat, ghost past: seq<Hidden>, ghost floor: nat)
      returns (r: Result<Payload, NetError>)
      requires Valid() && i < |peers.servers| && id !in chains && peers.servers[i].model == peers.model
      requires StageHolds(peers.stages[i], Own(id), Pending(i, id), past, floor)
      requires (i, id) in open ==> Own(id) in peers.stages[i].sessions
      requires startPos == |past| && Size(c.input) > 0 && CanAnswer(peers.servers[i], c)
      modifies this, peers.Repr
      ensures Valid() && fresh(peers.Repr - old(peers.Repr)) && peers.lost >= old(peers.lost)
      ensures chains == old(chains)
      ensures forall k | k != (i, id) ::
                && (k in pendingCut <==> k in old(pendingCut))
                && (k in pendingCut ==> pendingCut[k] == old(pendingCut)[k])
      ensures peers.stages == old(peers.stages)[i := peers.stages[i]]
      ensures OnlyIn(old(peers.stages[i]), peers.stages[i], Own(id))
      ensures old(open) <= open <= old(open) + {(i, id)}
      ensures if (i, id) in open then Own(id) in peers.stages[i].sessions
              else
                && pendingCut == old(pendingCut) && peers.lost > old(peers.lost)
                && StageHolds(peers.stages[i], Own(id), Pending(i, id), past, floor)
      ensures r.Err? ==> Excused(peers.model, peers.lost >= old(peers.lost) + peers.attempts, c.input, r.error)
      ensures r.Ok? ==>
                && peers.Answered(i, Own(id), c, past, Size(c.input), r.value)
                && pendingCut == old(pendingCut) - {(i, id)} && (i, id) in open
    {
      hide BlockServer.Valid, Peers.Valid, StageHolds, CanAnswer, Peers.Answered, EndsServe, RouteServes, Unused,
           Below;
      var isOpen := EnsureOpen(i, id, past, floor);
      if !isOpen {
        return Err(Unreachable);
      }
      var chunk := if c.input.Tokens? then idsChunk else hiddenChunk;
      var cut := Pending(i, id);
      pendingCut := pendingCut - {(i, id)};
      r := peers.Exchange(i, Own(id), c, startPos, chunk, cut, past, floor);
    }

    /** Every stage holds `tokens` for the session, once the cut that is still under way is made. */
    ghost predicate StagesHold(id: Caller, tokens: seq<Token>, floor: nat)
      requires |peers.endpoints| == |peers.servers| == |peers.stages|
      reads this, peers
    {
      forall i | 0 <= i < |peers.servers| ::
        StageHolds(peers.stages[i], NameOf(id), Pending(i, id),
                   Below(peers.model, peers.endpoints[i].start, tokens), floor)
    }

    /** What the stages know of a chain session goes by names it has had so far. */
    ghost predicate Traces(id: Caller)
      reads this, peers
    {
      var n := if id in chains then chains[id].restarts + 1 else 0;
      forall i | 0 <= i < |peers.stages| :: OnlyWires(peers.stages[i], id, n)
    }

    /** A chain session that has fed `tokens`: the retained history spells them and every stage holds them.
      * Before its first step nothing is known of it. */
    ghost predicate ChainHolds(id: Caller, tokens: seq<Token>, floor: nat)
      requires |peers.endpoints| == |peers.servers| == |peers.stages|
      reads this, peers
    {
      && StagesHold(id, tokens, floor) && Traces(id) && InVocab(peers.model.vocab, tokens)
      && (id in chains <==> tokens != [])
      && (id in chains ==>
            && chains[id].closed == {} && Spells(chains[id].history, tokens)
            && forall i | 0 <= i < |peers.servers| :: (i, id) in open)
      && (id !in chains ==> forall i | 0 <= i < |peers.servers| :: (i, id) !in open)
      && (forall i: nat :: (i, id) !in pendingCut)
    }

    /** A step of a token chain. It must continue the retained history, and a verification step must fit in
      * one request; a longer input travels in chunks, each one all the way down the chain. A chunk that gets no
      * answer is sent again after a restart. */
    method ChainStep(id: Caller, ids: seq<Token>, startPos: nat, which: Which, drafts: Option<seq<Token>>,
                     ghost tokens: seq<Token>, ghost floor: nat)
      returns (r: Result<ChainReply, NetError>)
      requires Valid() && RouteServes(peers.endpoints, peers.servers, peers.model) && EndsServe(peers.servers)
      requires ChainHolds(id, tokens, floor)
      modifies this, peers.Repr
      ensures Valid() && fresh(peers.Repr - old(peers.Repr)) && pendingCut == old(pendingCut)
      ensures peers.lost >= old(peers.lost)
      ensures Without(peers.stages, id) == old(Without(peers.stages, id)) && Traces(id)
      ensures old(open) <= open && chains - {id} == old(chains) - {id}
      ensures id in chains ==>
                && chains[id].closed == {} && (forall i | 0 <= i < |peers.servers| :: (i, id) in open)
                && chains[id].restarts <= (if id in old(chains) then old(chains)[id].restarts else 0)
                                          + (peers.lost - old(peers.lost))
      ensures id !in chains ==> id !in old(chains) && open == old(open) && peers.stages == old(peers.stages)
      ensures forall j: nat, o | o != id && (j, o) in open :: (j, o) in old(open)
      ensures startPos != |tokens| ==> r.Err?
      ensures r.Err? && startPos == |tokens| ==>
                if r.error.Unreachable? then peers.lost >= old(peers.lost) + 2 * peers.attempts
                else !StepFits(peers.model.vocab, chainChunk, ids, which, drafts)
      ensures r.Ok? ==> StepFits(peers.model.vocab, chainChunk, ids, which, drafts)
      ensures r.Ok? ==> Travelled(id, ids, |ids|, which, drafts, tokens, r.value)
    {
      hide BlockServer.Valid, Peers.Valid, StageHolds, Verdict, Picked, Below, RouteServes, EndsServe;
      if !ChainIds(ids) || (drafts.Some? && (drafts.value != ids[1..] || which != All)) {
        return Err(BadRequest);
      }
      if id !in chains {
        if startPos != 0 || exists i | 0 <= i < |peers.servers| :: (i, id) in open {
          return Err(BadRequest);
        }
        chains := chains[id := ChainState([], None, {}, 0)];
        open := open + set i | 0 <= i < |peers.servers| :: (i, id);
        NothingYet(id, floor);
      }
      CommittedEndIsLength(chains[id].history, tokens);
      if startPos != CommittedEnd(chains[id].history) {
        return Err(BadRequest);
      }
      if drafts.Some? && |ids| > chainChunk {
        return Err(BadRequest);
      }
      assert ids[..|ids|] == ids;
      r := ChainChunks(id, ids, startPos, which, drafts, tokens, floor);
    }

    /** A chain that begins: no stage knows its name. */
    lemma NothingYet(id: Caller, floor: nat)
      requires |peers.endpoints| == |peers.servers| == |peers.stages|
      requires id in chains && chains[id] == ChainState([], None, {}, 0)
      requires forall i | 0 <= i < |peers.stages| :: OnlyWires(peers.stages[i], id, 0)
      ensures StagesHold(id, [], floor) && Traces(id)
    {
      forall i | 0 <= i < |peers.stages|
        ensures Unused(peers.stages[i], Wire(id, 0))
      {
        assert OnlyWires(peers.stages[i], id, 0);
      }
    }

    /** The first `n` ids of a chain step have gone down the chain, and `reply` answers them. */
    ghost predicate Travelled(id: Caller, ids: seq<Token>, n: nat, which: Which, drafts: Option<seq<Token>>,
                              tokens: seq<Token>, reply: ChainReply)
      requires |peers.endpoints| == |peers.servers| == |peers.stages|
      requires 0 < n <= |ids| && (drafts.Some? ==> which.All? && |drafts.value| < n)
      reads this, peers
    {
      && InVocab(peers.model.vocab, ids[..n]) && InVocab(peers.model.vocab, tokens + ids[..n])
      && StagesHold(id, tokens + ids[..n], |tokens|)
      && id in chains && chains[id].pendingCut == None && chains[id].closed == {}
      && Spells(chains[id].history, tokens + ids[..n])
      && reply == Verdict(drafts, Picked(peers.model, tokens, ids[..n], which))
    }

    /** One chunk: down the chain with the cut that waits, if need be again after a restart, and into the
      * history. */
    method ChainPiece(id: Caller, piece: seq<Token>, pos: nat, which: Which, drafts: Option<seq<Token>>,
                      ghost tokens: seq<Token>, ghost floor: nat, ghost start: nat)
      returns (r: Result<ChainReply, NetError>)
      requires Valid() && RouteServes(peers.endpoints, peers.servers, peers.model) && EndsServe(peers.servers)
      requires StagesHold(id, tokens, floor) && id in chains && Traces(id)
      requires Spells(chains[id].history, tokens) && InVocab(peers.model.vocab, tokens)
      requires pos == |tokens| && piece != [] && (chains[id].pendingCut.Some? ==> pos == start)
      requires drafts.Some? ==> which.All? && |drafts.value| < |piece|
      modifies this, peers.Repr
      ensures Valid() && fresh(peers.Repr - old(peers.Repr)) && pendingCut == old(pendingCut) && open == old(open)
      ensures peers.lost >= old(peers.lost)
      ensures Without(peers.stages, id) == old(Without(peers.stages, id)) && Traces(id)
      ensures id in chains && chains == old(chains)[id := chains[id]] && chains[id].closed == old(chains[id].closed)
      ensures chains[id].restarts <= old(chains[id].restarts) + (peers.lost - old(peers.lost))
      ensures r.Err? ==>
                Excused(peers.model, peers.lost >= old(peers.lost) + 2 * peers.attempts, Tokens(piece), r.error)
      ensures r.Ok? ==> chains[id].history == old(chains[id].history) + [Entry(pos, piece)]
      ensures r.Ok? ==> chains[id].pendingCut == None && Spells(chains[id].history, tokens + piece)
      ensures r.Ok? ==> InVocab(peers.model.vocab, piece) && StagesHold(id, tokens + piece, start)
      ensures r.Ok? ==> r.value == Verdict(drafts, Picked(peers.model, tokens, piece, which))
    {
      hide BlockServer.Valid, Peers.Valid, StageHolds, Verdict, Picked, Below, RouteServes, EndsServe, Spells,
           OnlyWires;
      ghost var before := peers.stages;
      r := peers.RunChain(NameOf(id), piece, pos, which, drafts, chains[id].pendingCut, tokens, floor, start);
      KeepsTraces(before, peers.stages, id, chains[id].restarts, chains[id].restarts + 1);
      if r.Err? && r.error.Unreachable? {
        r := RestartAndSend(id, piece, pos, which, drafts, tokens, start);
        return;
      }
      if r.Ok? {
        SpellsAppend(chains[id].history, tokens, piece);
        chains := chains[id := chains[id].(history := chains[id].history + [Entry(pos, piece)], pendingCut := None)];
      }
    }

    /** The chunk loop of a chain step. */
    method ChainChunks(id: Caller, ids: seq<Token>, startPos: nat, which: Which, drafts: Option<seq<Token>>,
                       ghost tokens: seq<Token>, ghost floor: nat)
      returns (r: Result<ChainReply, NetError>)
      requires Valid() && RouteServes(peers.endpoints, peers.servers, peers.model) && EndsServe(peers.servers)
      requires StagesHold(id, tokens, floor) && id in chains && chains[id].closed == {} && Traces(id)
      requires Spells(chains[id].history, tokens) && startPos == |tokens| && InVocab(peers.model.vocab, tokens)
      requires ids != [] && (drafts.Some? ==> which.All? && |drafts.value| < |ids| <= chainChunk)
      modifies this, peers.Repr
      ensures Valid() && fresh(peers.Repr - old(peers.Repr)) && pendingCut == old(pendingCut) && open == old(open)
      ensures peers.lost >= old(peers.lost)
      ensures Without(peers.stages, id) == old(Without(peers.stages, id)) && Traces(id)
      ensures id in chains && chains[id].closed == {} && chains == old(chains)[id := chains[id]]
      ensures chains[id].restarts <= old(chains[id].restarts) + (peers.lost - old(peers.lost))
      ensures r.Err? ==>
                Excused(peers.model, peers.lost >= old(peers.lost) + 2 * peers.attempts, Tokens(ids), r.error)
      ensures r.Ok? ==> Travelled(id, ids, |ids|, which, drafts, tokens, r.value)
    {
      hide BlockServer.Valid, Peers.Valid, StagesHold, Traces, Spells, Verdict, Picked, RouteServes, EndsServe,
           Without, InVocab, JoinReplies;
      var j := Min(chainChunk, |ids|);
      PieceKnown(peers.model.vocab, ids, 0, j);
      KnownJoin(peers.model.vocab, tokens, ids[..j]);
      r := ChainPiece(id, ids[..j], startPos, which, drafts, tokens, floor, startPos);
      if r.Err? || drafts.Some? {
        assert ids[..|ids|] == ids;
        return;
      }
      while j < |ids|
        invariant 0 < j <= |ids| && r.Ok? && drafts.None?
        invariant Valid() && fresh(peers.Repr - old(peers.Repr)) && pendingCut == old(pendingCut) && open == old(open)
        invariant peers.lost >= old(peers.lost)
        invariant Without(peers.stages, id) == old(Without(peers.stages, id)) && Traces(id)
        invariant Travelled(id, ids, j, which, drafts, tokens, r.value)
        invariant chains == old(chains)[id := chains[id]]
        invariant chains[id].restarts <= old(chains[id].restarts) + (peers.lost - old(peers.lost))
      {
        var next := j + Min(chainChunk, |ids| - j);
        PieceKnown(peers.model.vocab, ids, j, next);
        PicksJoin(peers.model, tokens, ids, j, next, which);
        assert tokens + ids[..j] + ids[j..next] == tokens + ids[..next];
        KnownJoin(peers.model.vocab, tokens + ids[..j], ids[j..next]);
        var reply := ChainPiece(id, ids[j..next], startPos + j, which, drafts, tokens + ids[..j], startPos, startPos);
        if reply.Err? {
          return reply;
        }
        r := Ok(JoinReplies(which, r.value, reply.value));
        j := next;
      }
    }

    // --- after a failure -------------------------------------------------------------------------

    /** Every stage of the route holds `tokens` under this name, and no cut is under way. */
    ghost predicate PeersHold(wire: SessionId, tokens: seq<Token>, floor: nat)
      requires |peers.endpoints| == |peers.servers| == |peers.stages|
      reads this, peers
    {
      forall i | 0 <= i < |peers.servers| ::
        StageHolds(peers.stages[i], wire, None, Below(peers.model, peers.endpoints[i].start, tokens), floor)
    }

    /** The replay of a restart: the retained entries go down the chain again, in order, under a name no stage
      * knows. Afterwards every stage holds exactly what the history spells, so what the lost stages held. */
    method Replay(wire: SessionId, history: seq<Entry>, ghost tokens: seq<Token>) returns (r: Result<(), NetError>)
      requires Valid() && RouteServes(peers.endpoints, peers.servers, peers.model) && EndsServe(peers.servers)
      requires Spells(history, tokens) && InVocab(peers.model.vocab, tokens) && PeersHold(wire, [], 0)
      modifies peers.Repr
      ensures Valid() && fresh(peers.Repr - old(peers.Repr)) && peers.lost >= old(peers.lost)
      ensures forall i | 0 <= i < |peers.servers| :: OnlyIn(old(peers.stages[i]), peers.stages[i], wire)
      ensures r.Err? ==> r.error.Unreachable? && peers.lost >= old(peers.lost) + peers.attempts
      ensures r.Ok? ==> exists floor :: PeersHold(wire, tokens, floor)
    {
      hide BlockServer.Valid, Peers.Valid, StageHolds, Verdict, Picked, Below, RouteServes, EndsServe, Spells;
      ghost var floor: nat := 0;
      SpellsPrefix(history, tokens, 0);
      assert CommittedEnd(history[..0]) == 0 && tokens[..0] == [];
      for k := 0 to |history|
        invariant Valid() && fresh(peers.Repr - old(peers.Repr)) && peers.lost >= old(peers.lost)
        invariant forall i | 0 <= i < |peers.servers| :: OnlyIn(old(peers.stages[i]), peers.stages[i], wire)
        invariant CommittedEnd(history[..k]) <= |tokens|
        invariant PeersHold(wire, tokens[..CommittedEnd(history[..k])], floor)
      {
        SpellsPrefix(history, tokens, k);
        var e := history[k];
        EntryKnown(peers.model.vocab, tokens, e);
        var reply := peers.RunChain(wire, e.ids, e.startPos, LastOnly, None, None,
                                    tokens[..e.startPos], floor, e.startPos);
        if reply.Err? {
          return Err(reply.error);
        }
        floor := e.startPos;
      }
      SpellsPrefix(history, tokens, |history|);
      CommittedEndIsLength(history, tokens);
      assert history[..|history|] == history && tokens[..|tokens|] == tokens;
      return Ok(());
    }

    /** Whether there are live peers for the whole route: each is asked what it serves. */
    method PeersAnswer() returns (ok: bool)
      requires Valid()
      modifies peers`lost
      ensures Valid() && peers.lost >= old(peers.lost) + if ok then 0 else peers.attempts
    {
      hide Peers.Valid;
      for i := 0 to |peers.servers|
        invariant Valid() && peers.lost >= old(peers.lost)
      {
        ok := peers.Reach();
        if !ok {
          return;
        }
      }
      ok := true;
    }

    /** The first half of a restart: the peers of the route answer again, are told to forget the old session as
      * far as they can be reached, and the session gets a name that no stage knows. */
    method Rename(id: Caller) returns (ok: bool)
      requires Valid() && id in chains && Traces(id)
      modifies this, peers.Repr
      ensures Valid() && fresh(peers.Repr - old(peers.Repr)) && pendingCut == old(pendingCut) && open == old(open)
      ensures peers.lost >= old(peers.lost) + if ok then 0 else peers.attempts
      ensures Without(peers.stages, id) == old(Without(peers.stages, id)) && Traces(id)
      ensures !ok ==> chains == old(chains)
      ensures ok ==>
                var chain := old(chains)[id];
                && chains == old(chains)[id := chain.(restarts := chain.restarts + 1, pendingCut := None)]
                && forall i | 0 <= i < |peers.stages| :: Unused(peers.stages[i], NameOf(id))
    {
      hide BlockServer.Valid, Peers.Valid, Foreign;
      ghost var before, chain := peers.stages, chains[id];
      ok := PeersAnswer();
      if !ok {
        return;
      }
      for i := 0 to |peers.servers|
        invariant Valid() && fresh(peers.Repr - old(peers.Repr)) && peers.lost >= old(peers.lost)
        invariant chains == old(chains) && pendingCut == old(pendingCut) && open == old(open)
        invariant forall j | 0 <= j < |before| :: OnlyIn(before[j], peers.stages[j], Wire(id, chain.restarts))
      {
        peers.CloseServer(i, NameOf(id));
      }
      KeepsTraces(before, peers.stages, id, chain.restarts, chain.restarts + 1);
      chains := chains[id := chains[id].(restarts := chains[id].restarts + 1, pendingCut := None)];
      assert forall i | 0 <= i < |peers.stages| :: OnlyWires(peers.stages[i], id, chain.restarts + 1);
    }

    /** _chain_restart, and the chunk again: the answer is what the lost session would have answered. */
    method RestartAndSend(id: Caller, piece: seq<Token>, pos: nat, which: Which, drafts: Option<seq<Token>>,
                          ghost tokens: seq<Token>, ghost start: nat)
      returns (r: Result<ChainReply, NetError>)
      requires Valid() && RouteServes(peers.endpoints, peers.servers, peers.model) && EndsServe(peers.servers)
      requires id in chains && Spells(chains[id].history, tokens) && InVocab(peers.model.vocab, tokens) && Traces(id)
      requires pos == |tokens| && piece != []
      requires drafts.Some? ==> which.All? && |drafts.value| < |piece|
      modifies this, peers.Repr
      ensures Valid() && fresh(peers.Repr - old(peers.Repr)) && pendingCut == old(pendingCut) && open == old(open)
      ensures peers.lost >= old(peers.lost)
      ensures Without(peers.stages, id) == old(Without(peers.stages, id)) && Traces(id)
      ensures id in chains && chains == old(chains)[id := chains[id]] && chains[id].closed == old(chains[id].closed)
      ensures chains[id].restarts <= old(chains[id].restarts) + 1
      ensures r.Err? ==>
                Excused(peers.model, peers.lost >= old(peers.lost) + peers.attempts, Tokens(piece), r.error)
      ensures r.Ok? ==> chains[id].history == old(chains[id].history) + [Entry(pos, piece)]
      ensures r.Ok? ==> chains[id].pendingCut == None && Spells(chains[id].history, tokens + piece)
      ensures r.Ok? ==> InVocab(peers.model.vocab, piece) && StagesHold(id, tokens + piece, start)
      ensures r.Ok? ==> r.value == Verdict(drafts, Picked(peers.model, tokens, piece, which))
    {
      hide BlockServer.Valid, Peers.Valid, StageHolds, Verdict, Picked, Below, RouteServes, EndsServe, Spells, Without,
           OnlyWires;
      SpellsAppend(chains[id].history, tokens, piece);
      var ok := Rename(id);
      if !ok {
        return Err(Unreachable);
      }
      ghost var before := peers.stages;
      NothingHeld(NameOf(id));
      var replayed := Replay(NameOf(id), chains[id].history, tokens);
      KeepsTraces(before, peers.stages, id, chains[id].restarts, chains[id].restarts + 1);
      if replayed.Err? {
        return Err(replayed.error);
      }
      ghost var floor :| PeersHold(NameOf(id), tokens, floor);
      before := peers.stages;
      r := peers.RunChain(NameOf(id), piece, pos, which, drafts, None, tokens, floor, start);
      KeepsTraces(before, peers.stages, id, chains[id].restarts, chains[id].restarts + 1);
      if r.Ok? {
        chains := chains[id := chains[id].(history := chains[id].history + [Entry(pos, piece)])];
      }
    }

    lemma NothingHeld(wire: SessionId)
      requires |peers.endpoints| == |peers.servers| == |peers.stages|
      requires forall i | 0 <= i < |peers.stages| :: Unused(peers.stages[i], wire)
      ensures PeersHold(wire, [], 0)
    {
    }

    /** A deferred truncate sends nothing: a chain cuts its history and remembers one cut for all its hops,
      * another session remembers the cut for this endpoint's next forward. */
    method Truncate(i: nat, id: Caller, length: nat)
      modifies this
      ensures open == old(open)
      ensures id in old(chains) ==>
                && chains == old(chains)[id := old(chains)[id].(history := CutHistory(old(chains)[id].history, length),
                                                               pendingCut := Some(length))]
                && pendingCut == old(pendingCut)
      ensures id !in old(chains) ==>
                && chains == old(chains)
                && pendingCut == if (i, id) in open then old(pendingCut)[(i, id) := length] else old(pendingCut)
    {
      if id in chains {
        var chain := chains[id];
        var history := CutEntries(chain.history, length);
        chains := chains[id := chain.(history := history, pendingCut := Some(length))];
        return;
      }
      if (i, id) !in open {
        return;
      }
      pendingCut := pendingCut[(i, id) := length];
    }

    method CutEntries(history: seq<Entry>, length: nat) returns (kept: seq<Entry>)
      ensures kept == CutHistory(history, length)
    {
      kept := [];
      var k := 0;
      while k < |history|
        invariant 0 <= k <= |history|
        invariant kept == CutHistory(history[..k], length)
      {
        var entry := history[k];
        assert history[..k + 1] == history[..k] + [entry];
        CutHistoryAppend(history[..k], [entry], length);
        if entry.startPos < length {
          kept := kept + [entry.(ids := entry.ids[..Min(|entry.ids|, length - entry.startPos)])];
        }
        k := k + 1;
      }
      assert history[..k] == history;
    }

    /** Ends the session at one endpoint. The request to the server is best effort. */
    method Close(i: nat, id: Caller)
      requires Valid() && i < |peers.servers|
      modifies this, peers.Repr
      ensures Valid() && fresh(peers.Repr - old(peers.Repr)) && peers.lost >= old(peers.lost)
      ensures peers.stages == old(peers.stages)[i := peers.stages[i]]
      ensures OnlyIn(old(peers.stages[i]), peers.stages[i], old(NameOf(id)))
      ensures chains == AfterClose(old(chains), i, id, |peers.servers|)
      ensures open == if id in old(chains) && i in old(chains)[id].closed then old(open) else old(open) - {(i, id)}
      ensures pendingCut == if id in old(chains) || (i, id) !in old(open) then old(pendingCut)
                            else old(pendingCut) - {(i, id)}
      ensures (if id in old(chains) then i in old(chains)[id].closed else (i, id) !in old(open)) ==>
                peers.stages == old(peers.stages)
      ensures (if id in old(chains) then i !in old(chains)[id].closed else (i, id) in old(open))
              && peers.lost == old(peers.lost) ==>
                Unused(peers.stages[i], old(NameOf(id)))
    {
      if id in chains {
        if i in chains[id].closed {
          return;
        }
        peers.CloseServer(i, NameOf(id));
        var chain := chains[id].(closed := chains[id].closed + {i});
        chains := chains[id := chain];
        open := open - {(i, id)};
        if |chain.closed| == |peers.servers| {
          chains := chains - {id};
        }
        return;
      }
      if (i, id) !in open {
        return;
      }
      open := open - {(i, id)};
      pendingCut := pendingCut - {(i, id)};
      peers.CloseServer(i, Own(id));
    }
  }

  /** A chain is forgotten once it has been closed at every hop. */
  function AfterClose(chains: map<Caller, ChainState>, i: nat, id: Caller, hops: nat): map<Caller, ChainState>
  {
    if id !in chains || i in chains[id].closed then chains
    else
      var closed := chains[id].closed + {i};
      if |closed| == hops then chains - {id} else chains[id := chains[id].(closed := closed)]
  }
}
