/** commonnet/client.py: one trip through a route, on hidden states or on token ids, and plain greedy
  * decoding over cached, split stages.
  */
module Client {
  import opened Basics
  import opened CausalModel
  import opened Block
  import opened Route
  import opened Server
  import opened Decoding
  import opened Pipeline
  import opened PeerLinks
  import opened Transport

  datatype GenError = BadRoute(error: RouteError) | EmptyPrompt | BadK | Lost | BadTokens

  /** Argmax over `vocab` logits is a token of the vocabulary, and token ids fit 32 bits. */
  ghost predicate ValidModel(m: Model) {
    && m.vocab <= MAX_TOKEN_ID + 1
    && forall h :: 0 <= m.head(h) < m.vocab
  }

  // --- a session on the hidden-state and token-id routes -----------------------------------------

  /** What the client and the server know of one session at one endpoint. */
  datatype Spot = Spot(stage: Stage, open: bool, cut: Option<nat>)

  ghost function At(t: HttpTransport, i: nat, id: Caller): Spot
    requires i < |t.peers.stages|
    reads t, t.peers
  {
    Spot(t.peers.stages[i], (i, id) in t.open,
         if (i, id) in t.pendingCut then Some(t.pendingCut[(i, id)]) else None)
  }

  /** The server knows the session by its own name, if at all, and surely if the client has opened it. */
  ghost predicate Settled(at: Spot, id: Caller) {
    OnlyOwn(at.stage, id) && if at.open then Own(id) in at.stage.sessions else at.cut == None
  }

  /** The endpoint is in step: it holds `xs`, once the cut that waits is made. */
  ghost predicate InStep(at: Spot, id: Caller, xs: seq<Hidden>, floor: nat) {
    StageHolds(at.stage, Own(id), at.cut, xs, floor) && (xs != [] ==> at.open) && Settled(at, id)
  }

  ghost predicate RelayHolds(t: HttpTransport, id: Caller, tokens: seq<Token>, floor: nat)
    requires |t.peers.endpoints| == |t.peers.stages|
    reads t, t.peers
  {
    && id !in t.chains
    && forall i | 0 <= i < |t.peers.stages| ::
      InStep(At(t, i, id), id, Below(t.peers.model, t.peers.endpoints[i].start, tokens), floor)
  }

  /** Everything that is not about session `id`: on the client and on every server. */
  datatype Elsewhere = Elsewhere(stages: seq<Stage>, open: set<(nat, Caller)>,
                                 pendingCut: map<(nat, Caller), nat>, chains: map<Caller, ChainState>)

  ghost function Others(t: HttpTransport, id: Caller): Elsewhere
    reads t, t.peers
  {
    Elsewhere(
      Without(t.peers.stages, id),
      set k | k in t.open && k.1 != id,
      map k | k in t.pendingCut && k.1 != id :: t.pendingCut[k],
      t.chains - {id})
  }

  /** Nothing has been lost that left something behind: no endpoint holds a session the client does not know to be
    * open, and no chain has been restarted. */
  ghost predicate Clean(t: HttpTransport, id: Caller)
    reads t, t.peers
  {
    if id in t.chains then t.chains[id].restarts == 0
    else forall i | 0 <= i < |t.peers.stages| :: At(t, i, id).open || Unused(t.peers.stages[i], Own(id))
  }

  /** Messages may have been lost since; if none was, a clean session is still clean. */
  twostate predicate Onward(t: HttpTransport, id: Caller)
    reads t, t.peers
  {
    && old(t.peers.lost) <= t.peers.lost
    && (t.peers.lost == old(t.peers.lost) && old(Clean(t, id)) ==> Clean(t, id))
  }

  /** A request was lost as often as the client sends it; on a chain, so was one of the restart that followed. */
  twostate predicate GaveUp(t: HttpTransport, path: Path)
    reads t, t.peers
  {
    t.peers.lost >= old(t.peers.lost) + if path.Chain? then 2 * t.peers.attempts else t.peers.attempts
  }

  /** One endpoint's part of a trip. */
  method RelayHop(t: HttpTransport, i: nat, id: Caller, c: Call, startPos: nat,
                  ghost tokens: seq<Token>, ghost fed: seq<Token>, ghost floor: nat)
    returns (r: Result<Payload, NetError>)
    requires t.Valid() && i < |t.peers.servers| && id !in t.chains
    requires RouteServes(t.peers.endpoints, t.peers.servers, t.peers.model)
    requires InStep(At(t, i, id), id, Below(t.peers.model, t.peers.endpoints[i].start, tokens), floor)
    requires startPos == |tokens| && fed != [] && CanAnswer(t.peers.servers[i], c)
    requires FedBy(t.peers.model, c.input) == Below(t.peers.model, t.peers.endpoints[i].start, tokens + fed)[|tokens|..]
    modifies t, t.peers.Repr
    ensures t.Valid() && fresh(t.peers.Repr - old(t.peers.Repr)) && t.chains == old(t.chains)
    ensures Others(t, id) == old(Others(t, id)) && t.peers.lost >= old(t.peers.lost)
    ensures forall j | 0 <= j < |t.peers.stages| && j != i :: At(t, j, id) == old(At(t, j, id))
    ensures Settled(At(t, i, id), id) && (t.peers.lost == old(t.peers.lost) ==> At(t, i, id).open)
    ensures r.Err? ==> Excused(t.peers.model, t.peers.lost >= old(t.peers.lost) + t.peers.attempts, c.input, r.error)
    ensures r.Ok? ==>
              && Known(t.peers.model, c.input)
              && InStep(At(t, i, id), id, Below(t.peers.model, t.peers.endpoints[i].start, tokens + fed), startPos)
              && At(t, i, id).cut == None
              && r.value == Reply(t.peers.model, c.wantIds, c.which,
                                  Below(t.peers.model, t.peers.endpoints[i].end, tokens + fed)[|tokens|..])
  {
    hide BlockServer.Valid, Peers.Valid, RouteServes, Reply, StageHolds, Below;
    HopFacts(t.peers.endpoints, t.peers.servers, t.peers.model, i, tokens, fed);
    PieceIsFed(t.peers.model, c.input, 0, Size(c.input));
    ghost var before := t.peers.stages;
    r := t.Forward(i, id, c, startPos, Below(t.peers.model, t.peers.endpoints[i].start, tokens), floor);
    OwnKept(before[i], t.peers.stages[i], id);
    SameOthers(before, t.peers.stages, i, id);
  }

  /** A request of a session under its own name changes nothing but that session. */
  lemma OwnKept(before: Stage, after: Stage, id: Caller)
    requires OnlyIn(before, after, Own(id)) && OnlyOwn(before, id)
    ensures OnlyOwn(after, id) && Foreign(after, id) == Foreign(before, id)
  {
    OnlyInForeign(before, after, Own(id));
  }

  /** Only stage i has changed, and only in this client's sessions. */
  lemma SameOthers(before: seq<Stage>, after: seq<Stage>, i: nat, id: Caller)
    requires i < |before| == |after| && after == before[i := after[i]]
    requires Foreign(after[i], id) == Foreign(before[i], id)
    ensures Without(after, id) == Without(before, id)
  {
  }

  /** What goes into endpoint i on a trip; what leaves the last endpoint "goes into" endpoint |servers|. */
  ghost predicate OnTheWay(t: HttpTransport, i: nat, tokens: seq<Token>, fed: seq<Token>, hidden: seq<Hidden>)
    requires |t.peers.endpoints| == |t.peers.servers|
  {
    hidden == Below(t.peers.model, if i < |t.peers.servers| then t.peers.endpoints[i].start else |t.peers.model.layers|,
                    tokens + fed)[|tokens|..]
  }

  /** Every endpoint before i has made the trip, the others have not. */
  ghost predicate TripAt(t: HttpTransport, i: nat, id: Caller, tokens: seq<Token>, fed: seq<Token>, floor: nat)
    requires |t.peers.endpoints| == |t.peers.stages|
    reads t, t.peers
  {
    && id !in t.chains
    && (forall j | 0 <= j < i && j < |t.peers.stages| ::
          && InStep(At(t, j, id), id, Below(t.peers.model, t.peers.endpoints[j].start, tokens + fed), |tokens|)
          && At(t, j, id).cut == None)
    && (forall j | i <= j < |t.peers.stages| ::
          InStep(At(t, j, id), id, Below(t.peers.model, t.peers.endpoints[j].start, tokens), floor))
  }

  /** Whatever happened, every endpoint is either open or untouched: what closing relies on. */
  ghost predicate Closable(t: HttpTransport, id: Caller)
    reads t, t.peers
  {
    if id in t.chains then
      && t.chains[id].closed == {} && |t.peers.stages| > 0 && t.Traces(id)
      && (forall i | 0 <= i < |t.peers.stages| :: At(t, i, id).open && At(t, i, id).cut == None)
    else
      forall i | 0 <= i < |t.peers.stages| :: Settled(At(t, i, id), id)
  }

  lemma StartTrip(t: HttpTransport, id: Caller, tokens: seq<Token>, fed: seq<Token>, floor: nat)
    requires |t.peers.endpoints| == |t.peers.stages|
    requires RelayHolds(t, id, tokens, floor)
    ensures TripAt(t, 0, id, tokens, fed, floor)
  {
  }

  lemma RouteStarts(endpoints: seq<Endpoint>, servers: seq<BlockServer>, m: Model, tokens: seq<Token>, fed: seq<Token>)
    requires RouteServes(endpoints, servers, m)
    ensures var first := if servers == [] then |m.layers| else endpoints[0].start;
            first == 0 && Below(m, first, tokens + fed)[|tokens|..] == Embed(m, fed)
  {
    if servers != [] {
      TilesBounds(endpoints, |m.layers|, 0);
    }
    FirstFeed(m, tokens, fed);
  }

  /** One hop of a trip. */
  method TripHop(t: HttpTransport, i: nat, id: Caller, c: Call, startPos: nat,
                 ghost tokens: seq<Token>, ghost fed: seq<Token>, ghost floor: nat)
    returns (r: Result<Payload, NetError>)
    requires t.Valid() && i < |t.peers.servers|
    requires RouteServes(t.peers.endpoints, t.peers.servers, t.peers.model)
    requires TripAt(t, i, id, tokens, fed, floor) && Closable(t, id)
    requires startPos == |tokens| && fed != [] && CanAnswer(t.peers.servers[i], c)
    requires OnTheWay(t, i, tokens, fed, FedBy(t.peers.model, c.input))
    modifies t, t.peers.Repr
    ensures t.Valid() && fresh(t.peers.Repr - old(t.peers.Repr))
    ensures Others(t, id) == old(Others(t, id)) && Closable(t, id) && Onward(t, id)
    ensures r.Err? ==> Excused(t.peers.model, t.peers.lost >= old(t.peers.lost) + t.peers.attempts, c.input, r.error)
    ensures r.Ok? ==>
              && Known(t.peers.model, c.input) && TripAt(t, i + 1, id, tokens, fed, floor)
              && var out := Below(t.peers.model, t.peers.endpoints[i].end, tokens + fed)[|tokens|..];
                OnTheWay(t, i + 1, tokens, fed, out) && r.value == Reply(t.peers.model, c.wantIds, c.which, out)
  {
    hide BlockServer.Valid, Peers.Valid, RouteServes, StageHolds, Below, Reply;
    HopFacts(t.peers.endpoints, t.peers.servers, t.peers.model, i, tokens, fed);
    r := RelayHop(t, i, id, c, startPos, tokens, fed, floor);
  }

  /** commonnet/client.py _run_blocks: hidden states go through every endpoint in turn. */
  method RunBlocks(t: HttpTransport, id: Caller, hidden: seq<Hidden>, startPos: nat,
                   ghost tokens: seq<Token>, ghost fed: seq<Token>, ghost floor: nat)
    returns (r: Result<seq<Hidden>, NetError>)
    requires t.Valid() && RouteServes(t.peers.endpoints, t.peers.servers, t.peers.model)
    requires RelayHolds(t, id, tokens, floor) && Closable(t, id)
    requires fed != [] && hidden == Embed(t.peers.model, fed) && startPos == |tokens|
    modifies t, t.peers.Repr
    ensures t.Valid() && fresh(t.peers.Repr - old(t.peers.Repr))
    ensures Others(t, id) == old(Others(t, id)) && Closable(t, id) && Onward(t, id)
    ensures r.Err? ==> r.error.Unreachable? && t.peers.lost >= old(t.peers.lost) + t.peers.attempts
    ensures r.Ok? ==>
              && TripAt(t, |t.peers.servers|, id, tokens, fed, floor)
              && OnTheWay(t, |t.peers.servers|, tokens, fed, r.value)
  {
    hide Clean, BlockServer.Valid, Peers.Valid, RelayHolds, RouteServes, StageHolds, Below, Closable, TripAt, Others;
    RouteStarts(t.peers.endpoints, t.peers.servers, t.peers.model, tokens, fed);
    StartTrip(t, id, tokens, fed, floor);
    var x := hidden;
    var i := 0;
    while i < |t.peers.servers|
      invariant 0 <= i <= |t.peers.servers|
      invariant t.Valid() && fresh(t.peers.Repr - old(t.peers.Repr))
      invariant Others(t, id) == old(Others(t, id)) && Closable(t, id) && Onward(t, id)
      invariant TripAt(t, i, id, tokens, fed, floor)
      invariant OnTheWay(t, i, tokens, fed, x)
    {
      var reply := TripHop(t, i, id, Call(Hiddens(x), false, LastOnly), startPos, tokens, fed, floor);
      if reply.Err? {
        return Err(reply.error);
      }
      x := reply.value.hidden;
      i := i + 1;
    }
    return Ok(x);
  }

  /** What crosses the wire into endpoint i when token ids make the trip. */
  ghost predicate OnTheWire(t: HttpTransport, i: nat, tokens: seq<Token>, ids: seq<Token>, which: Which,
                            payload: Payload)
    requires |t.peers.endpoints| == |t.peers.servers| && ids != []
  {
    if i == 0 then payload == Tokens(ids)
    else
      && InVocab(t.peers.model.vocab, ids)
      && if i < |t.peers.servers| then payload.Hiddens? && OnTheWay(t, i, tokens, ids, payload.hidden)
         else payload == Tokens(Picked(t.peers.model, tokens, ids, which))
  }

  method IdsHop(t: HttpTransport, i: nat, id: Caller, payload: Payload, startPos: nat, which: Which,
                ghost tokens: seq<Token>, ghost ids: seq<Token>, ghost floor: nat)
    returns (r: Result<Payload, NetError>)
    requires t.Valid() && i < |t.peers.servers| && EndsServe(t.peers.servers)
    requires RouteServes(t.peers.endpoints, t.peers.servers, t.peers.model)
    requires TripAt(t, i, id, tokens, ids, floor) && Closable(t, id)
    requires startPos == |tokens| && ids != [] && OnTheWire(t, i, tokens, ids, which, payload)
    modifies t, t.peers.Repr
    ensures t.Valid() && fresh(t.peers.Repr - old(t.peers.Repr))
    ensures Others(t, id) == old(Others(t, id)) && Closable(t, id) && Onward(t, id)
    ensures r.Err? ==> Excused(t.peers.model, t.peers.lost >= old(t.peers.lost) + t.peers.attempts, Tokens(ids),
                               r.error)
    ensures r.Ok? ==> TripAt(t, i + 1, id, tokens, ids, floor) && OnTheWire(t, i + 1, tokens, ids, which, r.value)
  {
    RouteStarts(t.peers.endpoints, t.peers.servers, t.peers.model, tokens, ids);
    hide Clean, BlockServer.Valid, Peers.Valid, RouteServes, StageHolds, Below, Closable, TripAt, Others;
    r := TripHop(t, i, id, Call(payload, i == |t.peers.servers| - 1, which), startPos, tokens, ids, floor);
  }

  method IdsLoop(t: HttpTransport, id: Caller, ids: seq<Token>, startPos: nat, which: Which,
                 ghost tokens: seq<Token>, ghost floor: nat)
    returns (r: Result<Payload, NetError>)
    requires t.Valid() && RouteServes(t.peers.endpoints, t.peers.servers, t.peers.model)
    requires EndsServe(t.peers.servers)
    requires TripAt(t, 0, id, tokens, ids, floor) && Closable(t, id)
    requires ids != [] && startPos == |tokens|
    modifies t, t.peers.Repr
    ensures t.Valid() && fresh(t.peers.Repr - old(t.peers.Repr))
    ensures Others(t, id) == old(Others(t, id)) && Closable(t, id) && Onward(t, id)
    ensures r.Err? ==> Excused(t.peers.model, t.peers.lost >= old(t.peers.lost) + t.peers.attempts, Tokens(ids),
                               r.error)
    ensures r.Ok? ==>
              && TripAt(t, |t.peers.servers|, id, tokens, ids, floor)
              && OnTheWire(t, |t.peers.servers|, tokens, ids, which, r.value)
  {
    hide Clean, BlockServer.Valid, Peers.Valid, RouteServes, EndsServe, StageHolds, Below, Closable, TripAt, OnTheWay,
         Others, Picked, InVocab, Known;
    var payload := Tokens(ids);
    var i := 0;
    while i < |t.peers.servers|
      invariant 0 <= i <= |t.peers.servers|
      invariant t.Valid() && fresh(t.peers.Repr - old(t.peers.Repr))
      invariant Others(t, id) == old(Others(t, id)) && Closable(t, id) && Onward(t, id)
      invariant TripAt(t, i, id, tokens, ids, floor)
      invariant OnTheWire(t, i, tokens, ids, which, payload)
    {
      var reply := IdsHop(t, i, id, payload, startPos, which, tokens, ids, floor);
      if reply.Err? {
        return reply;
      }
      payload := reply.value;
      i := i + 1;
    }
    return Ok(payload);
  }

  /** commonnet/client.py _step_ids without a chain. Only the two ends of the route deal in token ids; what
    * each other endpoint answers, the client hands to the next. */
  method StepIds(t: HttpTransport, id: Caller, ids: seq<Token>, startPos: nat, which: Which,
                 ghost tokens: seq<Token>, ghost floor: nat)
    returns (r: Result<seq<Token>, NetError>)
    requires t.Valid() && RouteServes(t.peers.endpoints, t.peers.servers, t.peers.model)
    requires EndsServe(t.peers.servers)
    requires RelayHolds(t, id, tokens, floor) && Closable(t, id)
    requires ids != [] && startPos == |tokens|
    modifies t, t.peers.Repr
    ensures t.Valid() && fresh(t.peers.Repr - old(t.peers.Repr))
    ensures Others(t, id) == old(Others(t, id)) && Closable(t, id) && Onward(t, id)
    ensures r.Err? ==> Excused(t.peers.model, t.peers.lost >= old(t.peers.lost) + t.peers.attempts, Tokens(ids),
                               r.error)
    ensures r.Ok? ==>
              && InVocab(t.peers.model.vocab, ids)
              && TripAt(t, |t.peers.servers|, id, tokens, ids, floor)
              && r.value == Picked(t.peers.model, tokens, ids, which)
  {
    StartTrip(t, id, tokens, ids, floor);
    hide Clean, BlockServer.Valid, Peers.Valid, RelayHolds, RouteServes, StageHolds, Below, Closable, TripAt, OnTheWay,
         Others, Picked, InVocab;
    var reply := IdsLoop(t, id, ids, startPos, which, tokens, floor);
    if reply.Err? {
      return Err(reply.error);
    }
    return Ok(reply.value.ids);
  }

  // --- one session, whichever way it travels -----------------------------------------------------

  /** The transport is set up for this path: the chain limit is its own, and a path on token ids has ends
    * that embed and pick. */
  ghost predicate PathFits(t: HttpTransport, path: Path) {
    && path.vocab == t.peers.model.vocab
    && (path.Chain? ==> path.limit == t.chainChunk)
    && (path.Relay? || EndsServe(t.peers.servers))
  }

  ghost predicate Serving(t: HttpTransport, path: Path): (r: bool)
    reads t, t.peers, t.peers.Repr
    ensures r ==> |t.peers.endpoints| == |t.peers.servers| == |t.peers.stages|
  {
    && t.Valid() && PathFits(t, path) && ValidModel(t.peers.model)
    && RouteServes(t.peers.endpoints, t.peers.servers, t.peers.model)
  }

  /** Every stage of the route holds exactly `tokens` for the session. `floor` is where the last call began. */
  ghost predicate SessionHolds(t: HttpTransport, path: Path, id: Caller, tokens: seq<Token>, floor: nat)
    requires |t.peers.endpoints| == |t.peers.servers| == |t.peers.stages|
    reads t, t.peers
  {
    if path.Chain? then t.ChainHolds(id, tokens, floor) else RelayHolds(t, id, tokens, floor)
  }

  /** ...with no cut still to be made anywhere. */
  ghost predicate NothingPending(t: HttpTransport, id: Caller)
    reads t, t.peers
  {
    forall i | 0 <= i < |t.peers.stages| :: t.Pending(i, id) == None
  }

  /** The last pick of a trip is the greedy token after everything the session has been fed. */
  lemma LastPick(m: Model, tokens: seq<Token>, fed: seq<Token>)
    requires fed != []
    ensures Picked(m, tokens, fed, LastOnly) == [Choice(m)(tokens + fed)]
  {
    assert m.layers[..|m.layers|] == m.layers;
  }

  /** Every pick of a trip is the greedy token after the part of the input up to it. */
  lemma EveryPick(m: Model, tokens: seq<Token>, fed: seq<Token>, j: nat)
    requires j < |fed|
    ensures Picked(m, tokens, fed, All)[j] == Choice(m)(tokens + fed[..j + 1])
  {
    var all, upTo := tokens + fed, tokens + fed[..j + 1];
    assert m.layers[..|m.layers|] == m.layers;
    assert all[..|upTo|] == upTo;
    BelowPrefix(m, |m.layers|, all, |upTo|);
  }

  /** The prefix the verifier accepts is the longest prefix of drafts the network would have chosen. */
  lemma VerdictIsMatched(m: Model, tokens: seq<Token>, last: Token, drafts: seq<Token>)
    ensures var picked := Picked(m, tokens, [last] + drafts, All);
            var n := Agreement(drafts, picked);
            && n == Matched(Choice(m), tokens + [last], drafts)
            && picked[n] == Choice(m)(tokens + [last] + drafts[..n])
  {
    var context, fed := tokens + [last], [last] + drafts;
    var picked := Picked(m, tokens, fed, All);
    var n := Agreement(drafts, picked);
    AgreementStops(drafts, picked);
    forall j | 0 <= j <= |drafts|
      ensures picked[j] == Choice(m)(context + drafts[..j])
    {
      EveryPick(m, tokens, fed, j);
      assert tokens + fed[..j + 1] == context + drafts[..j];
    }
    forall j | 0 <= j < n
      ensures drafts[..n][j] == Choice(m)(context + drafts[..n][..j])
    {
      assert drafts[..n][..j] == drafts[..j];
    }
    MatchedIsUnique(Choice(m), context, drafts, n);
  }

  lemma {:induction false} AgreementStops(drafts: seq<Token>, picked: seq<Token>)
    requires |drafts| < |picked|
    ensures var n := Agreement(drafts, picked);
            && (forall j | 0 <= j < n :: drafts[j] == picked[j])
            && (n < |drafts| ==> drafts[n] != picked[n])
    decreases |drafts|
  {
    if drafts != [] && drafts[0] == picked[0] {
      AgreementStops(drafts[1..], picked[1..]);
      forall j | 0 < j < Agreement(drafts, picked)
        ensures drafts[j] == picked[j]
      {
        assert drafts[1..][j - 1] == picked[1..][j - 1];
      }
    }
  }

  lemma TripDone(t: HttpTransport, id: Caller, tokens: seq<Token>, fed: seq<Token>, floor: nat)
    requires |t.peers.endpoints| == |t.peers.servers| == |t.peers.stages|
    requires TripAt(t, |t.peers.servers|, id, tokens, fed, floor)
    ensures RelayHolds(t, id, tokens + fed, |tokens|) && NothingPending(t, id)
  {
    forall i | 0 <= i < |t.peers.stages|
      ensures t.Pending(i, id) == None
    {
      assert At(t, i, id).cut == None;
    }
  }

  /** One trip on hidden states or token ids. On hidden states the client embeds and picks. */
  method RelayTrip(t: HttpTransport, path: Path, id: Caller, feed: seq<Token>, pos: nat, which: Which,
                   ghost tokens: seq<Token>, ghost floor: nat)
    returns (r: Result<seq<Token>, GenError>)
    requires Serving(t, path) && !path.Chain?
    requires RelayHolds(t, id, tokens, floor) && Closable(t, id)
    requires feed != [] && pos == |tokens|
    modifies t, t.peers.Repr
    ensures t.Valid() && fresh(t.peers.Repr - old(t.peers.Repr))
    ensures Others(t, id) == old(Others(t, id)) && Closable(t, id) && Onward(t, id)
    ensures r.Err? ==> (r.error.Lost? && GaveUp(t, path)) || (r.error.BadTokens? && !InVocab(path.vocab, feed))
    ensures r.Ok? ==>
              && InVocab(path.vocab, feed)
              && RelayHolds(t, id, tokens + feed, pos) && NothingPending(t, id)
              && r.value == Picked(t.peers.model, tokens, feed, which)
  {
    hide Clean, BlockServer.Valid, Peers.Valid, Others, Closable, RelayHolds, TripAt, InVocab, Below, RouteServes,
         NothingPending;
    if path.Ids? {
      var answer := StepIds(t, id, feed, pos, which, tokens, floor);
      if answer.Err? {
        return Err(if answer.error.Unreachable? then Lost else BadTokens);
      }
      TripDone(t, id, tokens, feed, floor);
      return Ok(answer.value);
    }
    if !InVocab(path.vocab, feed) {
      return Err(BadTokens);
    }
    var hidden := RunBlocks(t, id, Embed(t.peers.model, feed), pos, tokens, feed, floor);
    if hidden.Err? {
      return Err(Lost);
    }
    TripDone(t, id, tokens, feed, floor);
    BottomOfHead(t, tokens, feed, hidden.value);
    return Ok(Pick(t.peers.model.head, hidden.value, which));
  }

  /** What leaves the last block is what the head sees in the whole model. */
  lemma BottomOfHead(t: HttpTransport, tokens: seq<Token>, fed: seq<Token>, hidden: seq<Hidden>)
    requires fed != [] && |t.peers.endpoints| == |t.peers.servers|
    requires OnTheWay(t, |t.peers.servers|, tokens, fed, hidden)
    ensures |hidden| == |fed|
    ensures forall which :: Picked(t.peers.model, tokens, fed, which) == Pick(t.peers.model.head, hidden, which)
  {
  }

  /** One trip down a chain. */
  method ChainTrip(t: HttpTransport, path: Path, id: Caller, feed: seq<Token>, pos: nat, which: Which,
                   drafts: Option<seq<Token>>, ghost tokens: seq<Token>, ghost floor: nat)
    returns (r: Result<ChainReply, GenError>)
    requires Serving(t, path) && path.Chain?
    requires t.ChainHolds(id, tokens, floor) && Closable(t, id)
    requires feed != [] && pos == |tokens|
    requires drafts.Some? ==> which.All? && drafts.value == feed[1..]
    modifies t, t.peers.Repr
    ensures t.Valid() && fresh(t.peers.Repr - old(t.peers.Repr))
    ensures Others(t, id) == old(Others(t, id)) && Closable(t, id) && Onward(t, id)
    ensures r.Err? ==>
              || (r.error.Lost? && GaveUp(t, path))
              || (r.error.BadTokens? && !StepFits(path.vocab, path.limit, feed, which, drafts))
    ensures r.Ok? ==>
              && StepFits(path.vocab, path.limit, feed, which, drafts)
              && t.ChainHolds(id, tokens + feed, pos) && NothingPending(t, id)
              && r.value == Verdict(drafts, Picked(t.peers.model, tokens, feed, which))
  {
    hide BlockServer.Valid, Peers.Valid, Picked, Verdict, StepFits, StageHolds, Below, RouteServes, Spells;
    var reply := t.ChainStep(id, feed, pos, which, drafts, tokens, floor);
    if reply.Err? {
      assert id !in t.chains ==> forall i | 0 <= i < |t.peers.stages| :: At(t, i, id) == old(At(t, i, id));
      return Err(if reply.error.Unreachable? then Lost else BadTokens);
    }
    assert feed[..|feed|] == feed;
    return Ok(reply.value);
  }

  // --- closing -----------------------------------------------------------------------------------

  /** The client has let go of the session at this endpoint. */
  ghost predicate Gone(t: HttpTransport, i: nat, id: Caller)
    reads t
  {
    (i, id) !in t.open && (i, id) !in t.pendingCut
  }

  ghost predicate AllGone(t: HttpTransport, id: Caller)
    reads t, t.peers
  {
    id !in t.chains && forall i | 0 <= i < |t.peers.stages| :: Gone(t, i, id)
  }

  /** No stage knows anything of this client's session. */
  ghost predicate Unheard(stages: seq<Stage>, id: Caller) {
    forall i | 0 <= i < |stages| :: OnlyWires(stages[i], id, 0)
  }

  /** The `finally` of both decoders: close the session at every endpoint. Where nothing was lost, nothing is left. */
  method CloseAll(t: HttpTransport, id: Caller)
    requires t.Valid() && Closable(t, id)
    modifies t, t.peers.Repr
    ensures t.Valid() && fresh(t.peers.Repr - old(t.peers.Repr)) && t.peers.lost >= old(t.peers.lost)
    ensures Others(t, id) == old(Others(t, id)) && AllGone(t, id)
    ensures t.peers.lost == old(t.peers.lost) && old(Clean(t, id)) ==> Unheard(t.peers.stages, id)
  {
    hide BlockServer.Valid, Peers.Valid, Others, Unused, AfterClose, UpTo, OnlyWires, OnlyOwn;
    var n := |t.peers.servers|;
    var chained := id in t.chains;
    var i := 0;
    while i < n
      invariant 0 <= i <= n && n == |t.peers.servers|
      invariant t.Valid() && fresh(t.peers.Repr - old(t.peers.Repr)) && t.peers.lost >= old(t.peers.lost)
      invariant Others(t, id) == old(Others(t, id))
      invariant forall j | 0 <= j < i :: Gone(t, j, id)
      invariant forall j | i <= j < n :: At(t, j, id) == old(At(t, j, id))
      invariant t.peers.lost == old(t.peers.lost) && old(Clean(t, id)) ==>
                  forall j | 0 <= j < i :: OnlyWires(t.peers.stages[j], id, 0)
      invariant !chained || i == n ==> id !in t.chains
      invariant chained && i < n ==> id in t.chains && t.chains[id] == old(t.chains)[id].(closed := UpTo(i))
    {
      HopClosed(t.chains, i, id, n);
      label Before:
      CloseOne(t, i, id);
      forall j | 0 <= j < i
        ensures Gone(t, j, id)
      {
        assert old@Before(Gone(t, j, id));
      }
      i := i + 1;
    }
  }

  /** A chain is forgotten with its last hop. */
  lemma HopClosed(chains: map<Caller, ChainState>, i: nat, id: Caller, hops: nat)
    requires id in chains ==> i < hops && chains[id].closed == UpTo(i)
    ensures id !in chains ==> AfterClose(chains, i, id, hops) == chains
    ensures id in chains ==>
              AfterClose(chains, i, id, hops) ==
              if i + 1 == hops then chains - {id} else chains[id := chains[id].(closed := UpTo(i + 1))]
  {
    assert i !in UpTo(i) && UpTo(i) + {i} == UpTo(i + 1);
  }

  method CloseOne(t: HttpTransport, i: nat, id: Caller)
    requires t.Valid() && i < |t.peers.servers|
    requires id in t.chains ==>
               && i !in t.chains[id].closed && At(t, i, id).open && At(t, i, id).cut == None
               && OnlyWires(t.peers.stages[i], id, t.chains[id].restarts + 1)
    requires id !in t.chains ==> Settled(At(t, i, id), id)
    modifies t, t.peers.Repr
    ensures t.Valid() && fresh(t.peers.Repr - old(t.peers.Repr)) && t.peers.lost >= old(t.peers.lost)
    ensures Others(t, id) == old(Others(t, id)) && Gone(t, i, id)
    ensures forall j | 0 <= j < |t.peers.stages| && j != i :: At(t, j, id) == old(At(t, j, id))
    ensures forall j: nat | j != i :: Gone(t, j, id) <==> old(Gone(t, j, id))
    ensures t.peers.stages == old(t.peers.stages)[i := t.peers.stages[i]]
    ensures t.chains == AfterClose(old(t.chains), i, id, |t.peers.servers|)
    ensures && t.peers.lost == old(t.peers.lost)
            && (if id in old(t.chains) then old(t.chains)[id].restarts == 0
                else old(At(t, i, id).open || Unused(t.peers.stages[i], Own(id)))) ==>
              OnlyWires(t.peers.stages[i], id, 0)
  {
    ghost var before, name := t.peers.stages, t.NameOf(id);
    t.Close(i, id);
    OnlyInForeign(before[i], t.peers.stages[i], name);
    SameOthers(before, t.peers.stages, i, id);
  }

  // --- plain greedy decoding ---------------------------------------------------------------------

  /** A session id nobody has used: uuid4 in the source. */
  ghost predicate FreshId(t: HttpTransport, id: Caller)
    reads t, t.peers
  {
    && id !in t.chains
    && (forall i: nat :: (i, id) !in t.open && (i, id) !in t.pendingCut)
    && Unheard(t.peers.stages, id)
  }

  lemma FreshIsClean(t: HttpTransport, id: Caller)
    requires FreshId(t, id)
    ensures Clean(t, id) && Unheard(t.peers.stages, id) && AllGone(t, id)
  {
    assert forall i | 0 <= i < |t.peers.stages| :: OnlyWires(t.peers.stages[i], id, 0);
  }

  lemma FreshSession(t: HttpTransport, path: Path, id: Caller)
    requires |t.peers.endpoints| == |t.peers.servers| == |t.peers.stages|
    requires FreshId(t, id)
    ensures SessionHolds(t, path, id, [], 0) && Closable(t, id) && Clean(t, id)
  {
    forall i, k: SessionId | 0 <= i < |t.peers.stages| && k.name == id
      ensures Unused(t.peers.stages[i], k)
    {
      assert OnlyWires(t.peers.stages[i], id, 0);
    }
  }

  /** One step of decoding: feed tokens, get the greedy token after everything fed so far. */
  method StepLast(t: HttpTransport, path: Path, id: Caller, feed: seq<Token>, pos: nat,
                  ghost tokens: seq<Token>, ghost floor: nat)
    returns (r: Result<Token, GenError>)
    requires Serving(t, path) && SessionHolds(t, path, id, tokens, floor) && Closable(t, id)
    requires feed != [] && pos == |tokens|
    modifies t, t.peers.Repr
    ensures Serving(t, path) && fresh(t.peers.Repr - old(t.peers.Repr))
    ensures Others(t, id) == old(Others(t, id)) && Closable(t, id) && Onward(t, id)
    ensures r.Err? ==> (r.error.Lost? && GaveUp(t, path)) || (r.error.BadTokens? && !PromptFits(path, feed))
    ensures r.Ok? ==>
              && PromptFits(path, feed)
              && SessionHolds(t, path, id, tokens + feed, pos) && NothingPending(t, id)
              && r.value == Choice(t.peers.model)(tokens + feed)
  {
    hide Clean, BlockServer.Valid, Peers.Valid, Others, Closable, RelayHolds, HttpTransport.ChainHolds, Picked,
         Verdict, NothingPending, RouteServes, InVocab;
    LastPick(t.peers.model, tokens, feed);
    if path.Chain? {
      FittingPrompt(path, feed);
      var reply := ChainTrip(t, path, id, feed, pos, LastOnly, None, tokens, floor);
      if reply.Err? {
        return Err(reply.error);
      }
      VerdictWithoutDrafts(Picked(t.peers.model, tokens, feed, LastOnly));
      return Ok(Last(reply.value.ids));
    }
    var picks := RelayTrip(t, path, id, feed, pos, LastOnly, tokens, floor);
    if picks.Err? {
      return Err(picks.error);
    }
    return Ok(Last(picks.value));
  }

  lemma VerdictWithoutDrafts(picked: seq<Token>)
    ensures Verdict(None, picked).ids == picked
  {
  }

  /** On a chain, a prompt fits exactly when a first step with it does. */
  lemma FittingPrompt(path: Path, feed: seq<Token>)
    requires path.Chain? && path.vocab <= MAX_TOKEN_ID + 1 && feed != []
    ensures PromptFits(path, feed) <==> StepFits(path.vocab, path.limit, feed, LastOnly, None)
  {
  }

  /** Sessions come and go without a trace: a stage that knew nothing of the id and again knows nothing of
    * it, and is otherwise unchanged, is the stage it was. */
  lemma NoTrace(before: seq<Stage>, after: seq<Stage>, id: Caller)
    requires |before| == |after| && Without(before, id) == Without(after, id)
    requires Unheard(before, id) && Unheard(after, id)
    ensures before == after
  {
    forall i | 0 <= i < |before|
      ensures before[i] == after[i]
    {
      assert Without(before, id)[i] == Without(after, id)[i];
      AllForeign(before[i], id);
      AllForeign(after[i], id);
    }
  }

  lemma AllForeign(st: Stage, id: Caller)
    requires OnlyWires(st, id, 0)
    ensures Foreign(st, id) == st
  {
    assert forall k: SessionId | k in st.hist || k in st.sessions :: !Unused(st, k);
  }

  /** The client is done with the session, and so is every server if nothing was lost: all stages are as they were
    * before. */
  twostate predicate LeftNoTrace(t: HttpTransport, id: Caller)
    reads t, t.peers
  {
    && Others(t, id) == old(Others(t, id)) && AllGone(t, id)
    && (t.peers.lost == old(t.peers.lost) ==> t.peers.stages == old(t.peers.stages))
  }

  lemma NothingToRead(m: Model, prompt: seq<Token>, stops: set<Token>, take: nat)
    ensures Read(m, prompt, 0, stops, take) == []
  {
  }

  /** The greedy stream, cut where the caller stops reading. */
  function Read(m: Model, prompt: seq<Token>, maxNew: nat, stops: set<Token>, take: nat): (r: seq<Token>)
  {
    var stream := Greedy(Choice(m), prompt, maxNew, stops);
    if take < |stream| then stream[..take] else stream
  }

  /** Client.generate_stream at temperature 0, up to the point where the caller has read `take` tokens and
    * closes the stream. One token per trip; `steps` counts the trips. */
  method GenerateStream(t: HttpTransport, path: Path, id: Caller, prompt: seq<Token>, maxNew: nat,
                        stops: set<Token>, take: nat)
    returns (r: Result<(), GenError>, out: seq<Token>, steps: nat)
    requires t.Valid() && PathFits(t, path) && ValidModel(t.peers.model)
    requires Serves(t.peers.endpoints, t.peers.servers, t.peers.model)
    requires FreshId(t, id) && take > 0
    modifies t, t.peers.Repr
    ensures t.Valid() && fresh(t.peers.Repr - old(t.peers.Repr)) && LeftNoTrace(t, id)
    ensures !Tiles(t.peers.endpoints, |t.peers.model.layers|) <==> r.Err? && r.error.BadRoute?
    ensures Tiles(t.peers.endpoints, |t.peers.model.layers|) && prompt == [] <==> r == Err(EmptyPrompt)
    ensures r.Err? ==> |out| < take && (!r.error.Lost? ==> out == [])
    ensures t.peers.lost >= old(t.peers.lost) && out <= Read(t.peers.model, prompt, maxNew, stops, take)
    ensures r.Err? ==>
              || r.error.BadRoute? || r.error.EmptyPrompt?
              || (r.error.Lost? && GaveUp(t, path))
              || (r.error.BadTokens? && !PromptFits(path, prompt))
    ensures r.Ok? ==>
              && out == Read(t.peers.model, prompt, maxNew, stops, take)
              && (maxNew > 0 ==> PromptFits(path, prompt))
              && steps == if |out| < take then PlainSteps(|out|, maxNew) else take
  {
    hide Clean, FreshId, Unheard, AllGone, BlockServer.Valid, Peers.Valid, Serves, ValidModel, EndsServe, Closable,
         Read, PromptFits, Greedy;
    out, steps := [], 0;
    FreshIsClean(t, id);
    var checked := CheckRoute(t.peers.endpoints, |t.peers.model.layers|);
    if checked.Err? {
      return Err(BadRoute(checked.error)), out, steps;
    }
    if prompt == [] {
      return Err(EmptyPrompt), out, steps;
    }
    if maxNew < 1 {
      NothingToRead(t.peers.model, prompt, stops, take);
      return Ok(()), out, steps;
    }
    r, out, steps := PlainLoop(t, path, id, prompt, maxNew, stops, take);
    CloseAll(t, id);
    if t.peers.lost == old(t.peers.lost) {
      NoTrace(old(t.peers.stages), t.peers.stages, id);
    }
  }

  /** The token loop of `GenerateStream`. */
  method PlainLoop(t: HttpTransport, path: Path, id: Caller, prompt: seq<Token>, maxNew: nat,
                   stops: set<Token>, take: nat)
    returns (r: Result<(), GenError>, out: seq<Token>, steps: nat)
    requires Serving(t, path) && FreshId(t, id)
    requires prompt != [] && maxNew > 0 && take > 0
    modifies t, t.peers.Repr
    ensures Serving(t, path) && fresh(t.peers.Repr - old(t.peers.Repr))
    ensures Others(t, id) == old(Others(t, id)) && Closable(t, id) && Onward(t, id)
    ensures out <= Read(t.peers.model, prompt, maxNew, stops, take)
    ensures r.Err? ==> |out| < take && (!r.error.Lost? ==> out == [])
    ensures r.Err? ==> (r.error.Lost? && GaveUp(t, path)) || (r.error.BadTokens? && !PromptFits(path, prompt))
    ensures r.Ok? ==>
              && out == Read(t.peers.model, prompt, maxNew, stops, take)
              && PromptFits(path, prompt)
              && steps == if |out| < take then PlainSteps(|out|, maxNew) else take
  {
    hide Clean, BlockServer.Valid, Peers.Valid, RouteServes, FreshId, EndsServe, ValidModel, Others, Closable,
         SessionHolds, NothingPending, PromptFits, Greedy, Choice, Read;
    FreshSession(t, path, id);
    ghost var next := Choice(t.peers.model);
    ghost var plain := Greedy(next, prompt, maxNew, stops);
    ghost var held: seq<Token> := [];
    ghost var floor: nat := 0;
    var feed, pos := prompt, 0;
    out, steps := [], 0;
    assert held + feed == prompt && out + plain == plain;
    while true
      invariant Serving(t, path) && fresh(t.peers.Repr - old(t.peers.Repr))
      invariant SessionHolds(t, path, id, held, floor) && Closable(t, id) && Onward(t, id)
      invariant Others(t, id) == old(Others(t, id))
      invariant feed != [] && pos == |held| && steps == |out| < maxNew && |out| < take
      invariant if out == [] then feed == prompt else PromptFits(path, prompt) && PromptFits(path, feed)
      invariant plain == out + Greedy(next, held + feed, maxNew - |out|, stops)
      invariant out <= Read(t.peers.model, prompt, maxNew, stops, take)
      decreases maxNew - |out|
    {
      var step := StepLast(t, path, id, feed, pos, held, floor);
      if step.Err? {
        return Err(step.error), out, steps;
      }
      var nextId := step.value;
      held, floor := held + feed, pos;
      pos, steps := pos + |feed|, steps + 1;
      StreamStep(t.peers.model, prompt, maxNew, stops, take, held, out);
      if nextId in stops {
        return Ok(()), out, steps;
      }
      KnownToken(t.peers.model, path, held);
      out := out + [nextId];
      if |out| == take || |out| == maxNew {
        return Ok(()), out, steps;
      }
      feed := [nextId];
    }
  }

  /** One token of the stream: where it ends, and what is read of it until then. */
  lemma StreamStep(m: Model, prompt: seq<Token>, maxNew: nat, stops: set<Token>, take: nat, held: seq<Token>,
                   out: seq<Token>)
    requires |out| < maxNew && |out| < take
    requires Greedy(Choice(m), prompt, maxNew, stops) == out + Greedy(Choice(m), held, maxNew - |out|, stops)
    ensures out <= Read(m, prompt, maxNew, stops, take)
    ensures var next, plain := Choice(m), Greedy(Choice(m), prompt, maxNew, stops);
            var more := out + [next(held)];
            if next(held) in stops then out == Read(m, prompt, maxNew, stops, take)
            else
              && plain == more + Greedy(next, held + [next(held)], maxNew - |more|, stops)
              && more <= Read(m, prompt, maxNew, stops, take)
              && (|more| == take || |more| == maxNew ==> more == Read(m, prompt, maxNew, stops, take))
  {
    hide Greedy, Choice;
    GreedyStep(Choice(m), held, maxNew - |out|, stops);
    NoBudget(Choice(m), held + [Choice(m)(held)], stops);
  }

  /** The network's own tokens can always be fed back to it. */
  lemma KnownToken(m: Model, path: Path, context: seq<Token>)
    requires ValidModel(m) && path.vocab == m.vocab && context != []
    ensures PromptFits(path, [Choice(m)(context)])
  {
  }
}
