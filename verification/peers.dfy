/** The peers of a route, reached one request at a time (commonnet/net/client.py), and the way a request
  * travels down a token chain (commonnet/net/chain.py).
  */
module PeerLinks {
  import opened Basics
  import opened CausalModel
  import opened Block
  import opened Route
  import opened Server
  import opened Decoding
  import opened Pipeline

  class Peers {
    const endpoints: seq<Endpoint>
    const servers: seq<BlockServer>
    const model: Model
    /** How often the client sends a request before it gives up. Peers ask each other once. */
    const attempts: nat

    /** What each server holds, as values. */
    ghost var stages: seq<Stage>

    /** How many requests or replies have been lost so far. Any may be. */
    ghost var lost: nat
    ghost var Repr: set<object>

    ghost predicate Valid(): (r: bool)
      reads this, Repr
      ensures r ==> this in Repr && |endpoints| == |servers| == |stages| && attempts >= 1
      ensures r ==> forall i | 0 <= i < |servers| :: servers[i].Valid()
    {
      && this in Repr && |endpoints| == |servers| && attempts >= 1
      && (forall i | 0 <= i < |servers| ::
            servers[i] in Repr && servers[i].Repr <= Repr && this !in servers[i].Repr && servers[i].Valid())
      && |stages| == |servers|
      && (forall i | 0 <= i < |servers| :: stages[i] == servers[i].View())
      && (forall i, j | 0 <= i < j < |servers| :: servers[i].Repr !! servers[j].Repr)
    }

    constructor (endpoints: seq<Endpoint>, servers: seq<BlockServer>, model: Model, attempts: nat)
      requires |endpoints| == |servers| && attempts >= 1
      requires forall i | 0 <= i < |servers| :: servers[i].Valid()
      requires forall i, j | 0 <= i < j < |servers| :: servers[i].Repr !! servers[j].Repr
      ensures Valid()
      ensures this.endpoints == endpoints && this.servers == servers && this.model == model
      ensures this.attempts == attempts
    {
      this.endpoints, this.servers, this.model, this.attempts := endpoints, servers, model, attempts;
      lost := 0;
      Repr := {this} + AllRepr(servers);
      stages := StagesOf(servers);
      new;
      forall i | 0 <= i < |servers|
        ensures servers[i].Valid() && servers[i] in servers[i].Repr && this !in servers[i].Repr
        ensures servers[i].Repr <= Repr
      {
      }
    }

    /** Whether this message is lost. */
    method Fails() returns (b: bool)
      requires Valid()
      modifies this`lost
      ensures Valid() && lost == old(lost) + if b then 1 else 0
    {
      b := *;
      if b {
        lost := lost + 1;
      }
    }

    /** A request that changes nothing, sent until it is answered. */
    method Reach() returns (ok: bool)
      requires Valid()
      modifies this`lost
      ensures Valid() && lost >= old(lost) + if ok then 0 else attempts
      ensures lost == old(lost) ==> ok
    {
      for k := 0 to attempts
        invariant Valid() && lost >= old(lost) + k && (k > 0 ==> lost > old(lost))
      {
        var gone := Fails();
        if !gone {
          return true;
        }
      }
      return false;
    }

    /** Server i has changed, with what it owns, and nothing else has. */
    twostate lemma OthersStand(i: nat)
      requires old(Valid()) && i < |servers| && servers[i].Valid()
      requires forall o | o in old(Repr) && o != this && o !in old(servers[i].Repr) :: unchanged(o)
      requires fresh(servers[i].Repr - old(servers[i].Repr))
      requires stages == old(stages)[i := servers[i].View()] && Repr == old(Repr) + servers[i].Repr
      ensures Valid()
    {
      forall j | 0 <= j < |servers| && j != i
        ensures servers[j].Repr == old(servers[j].Repr) && servers[j].Valid() && servers[j].View() == old(stages[j])
      {
        assert forall o | o in old(servers[j].Repr) :: unchanged(o);
        assert servers[j].View() == old(servers[j].View());
      }
    }

    /** One request that arrives, and its reply. No other server is touched. */
    method Ask(i: nat, id: SessionId, step: Step) returns (reply: Result<Payload, ServerError>)
      requires Valid() && i < |servers|
      modifies Repr
      ensures Valid() && fresh(Repr - old(Repr)) && lost == old(lost)
      ensures stages == old(stages)[i := stages[i]]
      ensures servers[i].Stepped(old(stages[i]), stages[i], id, step, reply)
    {
      hide BlockServer.Stepped;
      reply := servers[i].Forward(id, step);
      Repr := Repr + servers[i].Repr;
      stages := stages[i := servers[i].View()];
      OthersStand(i);
    }

    method OpenAt(i: nat, id: SessionId)
      requires Valid() && i < |servers|
      modifies Repr
      ensures Valid() && Repr == old(Repr) && lost == old(lost)
      ensures var st := old(stages[i]);
              stages == old(stages)[i := if id in st.sessions then st else st.(sessions := st.sessions[id := None])]
    {
      servers[i].Open(id);
      stages := stages[i := servers[i].View()];
      OthersStand(i);
    }

    /** A request that opens a session, sent until it is answered. It may have opened the session even if no
      * answer comes. */
    method OpenServer(i: nat, id: SessionId) returns (ok: bool)
      requires Valid() && i < |servers|
      modifies Repr
      ensures Valid() && Repr == old(Repr) && lost >= old(lost) + if ok then 0 else attempts
      ensures stages == old(stages)[i := stages[i]] && Opened(old(stages[i]), stages[i], id)
      ensures lost == old(lost) ==> ok
      ensures ok ==> id in stages[i].sessions
    {
      for k := 0 to attempts
        invariant Valid() && Repr == old(Repr) && lost >= old(lost) + k
        invariant stages == old(stages)[i := stages[i]] && Opened(old(stages[i]), stages[i], id)
        invariant k > 0 ==> lost > old(lost)
      {
        var gone := Fails();
        if !gone {
          OpenAt(i, id);
          gone := Fails();
        }
        if !gone {
          return true;
        }
      }
      return false;
    }

    /** A close is best effort. */
    method CloseServer(i: nat, id: SessionId)
      requires Valid() && i < |servers|
      modifies Repr
      ensures Valid() && fresh(Repr - old(Repr)) && lost >= old(lost)
      ensures stages == old(stages)[i := stages[i]] && OnlyIn(old(stages[i]), stages[i], id)
      ensures lost == old(lost) ==> Unused(stages[i], id)
    {
      for k := 0 to attempts
        invariant Valid() && Repr == old(Repr) && lost >= old(lost)
        invariant stages == old(stages)[i := stages[i]] && OnlyIn(old(stages[i]), stages[i], id)
        invariant k > 0 ==> lost > old(lost)
      {
        var gone := Fails();
        if !gone {
          CloseNow(i, id);
          gone := Fails();
        }
        if !gone {
          return;
        }
      }
    }

    /** A close that arrives. */
    method CloseNow(i: nat, id: SessionId)
      requires Valid() && i < |servers|
      modifies Repr
      ensures Valid() && Repr == old(Repr)
      ensures stages == old(stages)[i := stages[i]] && OnlyIn(old(stages[i]), stages[i], id)
      ensures Unused(stages[i], id) && lost == old(lost)
    {
      ghost var before := stages[i];
      KeysInSessions(servers[i]);
      hide BlockServer.Valid;
      servers[i].Close(id);
      stages := stages[i := servers[i].View()];
      OthersStand(i);
      assert before.hist - {id} == stages[i].hist - {id};
    }

    /** The session has taken this step: it holds what it was fed, and keeps the answer. */
    ghost predicate Taken(st: Stage, i: nat, id: SessionId, step: Step, past: seq<Hidden>, start: nat)
      requires i < |servers| && Size(step.input) > 0
    {
      var all := past + FedBy(model, step.input);
      && Known(model, step.input) && StageHolds(st, id, None, all, start)
      && id in st.sessions
      && st.sessions[id] ==
         Some(Saved(step, Reply(model, step.wantIds, step.which, Stack(servers[i].block.Layers(), all)[|past|..])))
    }

    /** The session stands before this step, or has taken it already and the answer was lost. */
    ghost predicate Ahead(st: Stage, i: nat, id: SessionId, step: Step, past: seq<Hidden>, floor: nat, start: nat)
      requires i < |servers| && Size(step.input) > 0
    {
      StageHolds(st, id, step.cut, past, floor) || Taken(st, i, id, step, past, start)
    }

    /** A step that arrives: the first time it runs, from then on it is answered from the saved reply. */
    method Deliver(i: nat, id: SessionId, step: Step, ghost past: seq<Hidden>, ghost floor: nat, ghost start: nat)
      returns (reply: Result<Payload, ServerError>)
      requires Valid() && i < |servers| && servers[i].model == model
      requires step.startPos == |past| && Size(step.input) > 0 && servers[i].Equipped(step)
      requires step.cut.Some? ==> |past| == start
      requires Ahead(stages[i], i, id, step, past, floor, start) && id in stages[i].sessions
      modifies Repr
      ensures Valid() && fresh(Repr - old(Repr)) && lost == old(lost)
      ensures stages == old(stages)[i := stages[i]]
      ensures OnlyIn(old(stages[i]), stages[i], id) && id in stages[i].sessions
      ensures Ahead(stages[i], i, id, step, past, floor, start)
      ensures reply.Err? ==> reply.error == UnknownToken && !Known(model, step.input)
      ensures reply.Ok? ==>
                Taken(stages[i], i, id, step, past, start) && stages[i].sessions[id] == Some(Saved(step, reply.value))
    {
      ghost var before := stages[i];
      if StageHolds(before, id, step.cut, past, floor) {
        HeldInOrder(servers[i], before, id, step, past, floor);
      }
      reply := Ask(i, id, step);
      if reply.Ok? && StageHolds(before, id, step.cut, past, floor) {
        StepKeepsStage(before, stages[i], id, step, past, FedBy(model, step.input), floor, start, reply.value);
      }
    }

    /** A request of the session's next step, sent up to `tries` times: however often it arrives, the session
      * takes the step once, and any answer is the one of one uncached pass. */
    method Send(i: nat, id: SessionId, step: Step, tries: nat, ghost past: seq<Hidden>, ghost floor: nat,
                ghost start: nat)
      returns (r: Result<Payload, NetError>)
      requires Valid() && i < |servers| && servers[i].model == model
      requires step.startPos == |past| && Size(step.input) > 0 && servers[i].Equipped(step)
      requires step.cut.Some? ==> |past| == start
      requires Ahead(stages[i], i, id, step, past, floor, start) && id in stages[i].sessions
      modifies Repr
      ensures Valid() && fresh(Repr - old(Repr)) && lost >= old(lost)
      ensures stages == old(stages)[i := stages[i]]
      ensures OnlyIn(old(stages[i]), stages[i], id) && id in stages[i].sessions
      ensures Ahead(stages[i], i, id, step, past, floor, start)
      ensures r.Err? ==> Excused(model, lost >= old(lost) + tries, step.input, r.error)
      ensures r.Ok? ==>
                && Taken(stages[i], i, id, step, past, start)
                && stages[i].sessions[id] == Some(Saved(step, r.value))
    {
      hide Ahead, Taken, BlockServer.Valid, Peers.Valid, BlockServer.Equipped, Known;
      for k := 0 to tries
        invariant Valid() && fresh(Repr - old(Repr)) && lost >= old(lost) + k
        invariant stages == old(stages)[i := stages[i]]
        invariant OnlyIn(old(stages[i]), stages[i], id) && id in stages[i].sessions
        invariant Ahead(stages[i], i, id, step, past, floor, start)
      {
        var gone := Fails();
        if !gone {
          var reply := Deliver(i, id, step, past, floor, start);
          gone := Fails();
          if !gone {
            return if reply.Ok? then Ok(reply.value) else Err(Rejected(reply.error));
          }
        }
      }
      return Err(Unreachable);
    }

    // --- one call in several requests ------------------------------------------------------------

    /** The first `n` positions of a call have been sent, and `out` answers them. */
    ghost predicate Answered(i: nat, id: SessionId, c: Call, past: seq<Hidden>, n: nat, out: Payload)
      requires i < |servers| == |stages| && 0 < n <= Size(c.input)
      reads this
    {
      var all := past + FedBy(model, c.input)[..n];
      && Known(model, Piece(c.input, 0, n))
      && StageHolds(stages[i], id, None, all, |past|) && id in stages[i].sessions
      && out == Reply(model, c.wantIds, c.which, Stack(servers[i].block.Layers(), all)[|past|..])
    }

    /** One more request of a call, from position a up to b. */
    method SendPiece(i: nat, id: SessionId, c: Call, startPos: nat, a: nat, b: nat, out: Payload,
                     ghost past: seq<Hidden>)
      returns (r: Result<Payload, NetError>)
      requires Valid() && i < |servers| && servers[i].model == model
      requires startPos == |past| && 0 < a < b <= Size(c.input) && CanAnswer(servers[i], c)
      requires Answered(i, id, c, past, a, out)
      modifies Repr
      ensures Valid() && fresh(Repr - old(Repr)) && lost >= old(lost)
      ensures stages == old(stages)[i := stages[i]]
      ensures OnlyIn(old(stages[i]), stages[i], id) && id in stages[i].sessions
      ensures r.Err? ==> Excused(model, lost >= old(lost) + attempts, c.input, r.error)
      ensures r.Ok? ==> Answered(i, id, c, past, b, r.value)
    {
      hide BlockServer.Valid, StageHolds, Known, Reply, Joined, Stack, FedBy, OnlyIn;
      ghost var fed := FedBy(model, c.input);
      PieceIsFed(model, c.input, 0, a);
      PieceIsFed(model, c.input, a, b);
      NextPiece(model, servers[i].block.Layers(), c.wantIds, c.which, past, fed, a, b);
      r := Send(i, id, Step(Piece(c.input, a, b), startPos + a, c.wantIds, c.which, None), attempts,
                past + fed[..a], startPos, startPos);
      if r.Ok? {
        r := Ok(Joined(c.which, out, r.value));
      }
    }

    /** The requests after the first. */
    method SendRest(i: nat, id: SessionId, c: Call, startPos: nat, chunk: nat, first: Payload, sent: nat,
                    ghost past: seq<Hidden>)
      returns (r: Result<Payload, NetError>)
      requires Valid() && i < |servers| && servers[i].model == model
      requires chunk >= 1 && startPos == |past| && 0 < sent <= Size(c.input) && CanAnswer(servers[i], c)
      requires Answered(i, id, c, past, sent, first) && id in stages[i].sessions
      modifies Repr
      ensures Valid() && fresh(Repr - old(Repr)) && lost >= old(lost)
      ensures stages == old(stages)[i := stages[i]]
      ensures OnlyIn(old(stages[i]), stages[i], id) && id in stages[i].sessions
      ensures r.Err? ==> Excused(model, lost >= old(lost) + attempts, c.input, r.error)
      ensures r.Ok? ==> Answered(i, id, c, past, Size(c.input), r.value)
    {
      hide BlockServer.Valid, Peers.Valid, Answered, CanAnswer;
      var out, j := first, sent;
      while j < Size(c.input)
        invariant 0 < j <= Size(c.input)
        invariant Valid() && fresh(Repr - old(Repr)) && lost >= old(lost)
        invariant stages == old(stages)[i := stages[i]] && OnlyIn(old(stages[i]), stages[i], id)
        invariant id in stages[i].sessions
        invariant Answered(i, id, c, past, j, out)
      {
        var next := j + Min(chunk, Size(c.input) - j);
        var reply := SendPiece(i, id, c, startPos, j, next, out, past);
        if reply.Err? {
          return reply;
        }
        out, j := reply.value, next;
      }
      return Ok(out);
    }

    /** One call of an endpoint, split into requests of at most `chunk` positions; the first takes the cut. */
    method Exchange(i: nat, id: SessionId, c: Call, startPos: nat, chunk: nat, cut: Option<nat>,
                    ghost past: seq<Hidden>, ghost floor: nat)
      returns (r: Result<Payload, NetError>)
      requires Valid() && i < |servers| && servers[i].model == model && chunk >= 1
      requires StageHolds(stages[i], id, cut, past, floor) && id in stages[i].sessions
      requires startPos == |past| && Size(c.input) > 0 && CanAnswer(servers[i], c)
      modifies Repr
      ensures Valid() && fresh(Repr - old(Repr)) && lost >= old(lost)
      ensures stages == old(stages)[i := stages[i]]
      ensures OnlyIn(old(stages[i]), stages[i], id) && id in stages[i].sessions
      ensures r.Err? ==> Excused(model, lost >= old(lost) + attempts, c.input, r.error)
      ensures r.Ok? ==> Answered(i, id, c, past, Size(c.input), r.value)
    {
      hide BlockServer.Valid, Peers.Valid, StageHolds, Stack, Reply;
      var n := Min(chunk, Size(c.input));
      PieceIsFed(model, c.input, 0, n);
      var first := Send(i, id, Step(Piece(c.input, 0, n), startPos, c.wantIds, c.which, cut), attempts, past, floor,
                        startPos);
      if first.Err? {
        return first;
      }
      r := SendRest(i, id, c, startPos, chunk, first.value, n, past);
    }

    // --- token chains ----------------------------------------------------------------------------

    /** What hop i is given, when `piece` follows `tokens`; what comes out of the last hop is "given" to
      * hop |servers|. */
    ghost function Entering(i: nat, tokens: seq<Token>, piece: seq<Token>, which: Which): (payload: Payload)
      requires piece != [] && |endpoints| == |servers|
      ensures i < |servers| ==> Size(payload) == |piece|
    {
      if i == 0 then Tokens(piece)
      else if i < |servers| then Hiddens(Below(model, endpoints[i].start, tokens + piece)[|tokens|..])
      else Tokens(Picked(model, tokens, piece, which))
    }

    ghost function HopStep(i: nat, tokens: seq<Token>, piece: seq<Token>, which: Which, cut: Option<nat>): Step
      requires piece != [] && |endpoints| == |servers|
    {
      Step(Entering(i, tokens, piece, which), |tokens|, i == |servers| - 1, which, cut)
    }

    /** Hop i stands before its step of the chain, or has taken it in an earlier attempt. */
    ghost predicate HopAhead(st: Stage, i: nat, id: SessionId, tokens: seq<Token>, piece: seq<Token>, which: Which,
                             cut: Option<nat>, floor: nat, start: nat)
      requires piece != [] && |endpoints| == |servers| && i < |servers|
    {
      Ahead(st, i, id, HopStep(i, tokens, piece, which, cut), Below(model, endpoints[i].start, tokens), floor, start)
    }

    /** One hop: the peer runs its window and passes on what the next one needs. */
    method Hop(i: nat, id: SessionId, payload: Payload, pos: nat, which: Which, cut: Option<nat>,
               ghost tokens: seq<Token>, ghost piece: seq<Token>, ghost floor: nat, ghost start: nat)
      returns (r: Result<Payload, NetError>)
      requires Valid() && i < |servers| && RouteServes(endpoints, servers, model) && EndsServe(servers)
      requires pos == |tokens| && piece != [] && (cut.Some? ==> pos == start)
      requires HopAhead(stages[i], i, id, tokens, piece, which, cut, floor, start)
      requires payload == Entering(i, tokens, piece, which)
      modifies Repr
      ensures Valid() && fresh(Repr - old(Repr)) && lost >= old(lost)
      ensures stages == old(stages)[i := stages[i]] && OnlyIn(old(stages[i]), stages[i], id)
      ensures HopAhead(stages[i], i, id, tokens, piece, which, cut, floor, start)
      ensures r.Err? ==> Excused(model, lost > old(lost), payload, r.error)
      ensures r.Ok? ==>
                && Known(model, payload)
                && StageHolds(stages[i], id, None, Below(model, endpoints[i].start, tokens + piece), start)
                && r.value == Entering(i + 1, tokens, piece, which)
    {
      hide BlockServer.Valid, RouteServes, StageHolds, Below, Unused, Stack, Known, Opened;
      HopFacts(endpoints, servers, model, i, tokens, piece);
      ghost var past, step := Below(model, endpoints[i].start, tokens), HopStep(i, tokens, piece, which, cut);
      if pos == 0 {
        ghost var before := stages[i];
        OpenAt(i, id);
        OpenKeepsStage(before, stages[i], id, cut, past, floor);
      } else if StageHolds(stages[i], id, cut, past, floor) {
        HeldMeansOpen(stages[i], id, cut, past, floor);
      }
      r := Send(i, id, Step(payload, pos, i == |servers| - 1, which, cut), 1, past, floor, start);
    }

    /** Hop i and everything after it: each peer runs its window, then calls the next one. */
    method RunFrom(i: nat, id: SessionId, payload: Payload, pos: nat, which: Which, cut: Option<nat>,
                   ghost tokens: seq<Token>, ghost piece: seq<Token>, ghost floor: nat, ghost start: nat)
      returns (r: Result<Payload, NetError>)
      requires Valid() && i < |servers| && RouteServes(endpoints, servers, model) && EndsServe(servers)
      requires pos == |tokens| && piece != [] && (cut.Some? ==> pos == start)
      requires forall j | i <= j < |servers| :: HopAhead(stages[j], j, id, tokens, piece, which, cut, floor, start)
      requires payload == Entering(i, tokens, piece, which)
      modifies Repr
      ensures Valid() && fresh(Repr - old(Repr)) && lost >= old(lost)
      ensures stages[..i] == old(stages)[..i]
      ensures forall j | i <= j < |servers| :: OnlyIn(old(stages[j]), stages[j], id)
      ensures forall j | i <= j < |servers| :: HopAhead(stages[j], j, id, tokens, piece, which, cut, floor, start)
      ensures r.Err? ==> Excused(model, lost > old(lost), Tokens(piece), r.error)
      ensures r.Ok? ==>
                && (i == 0 ==> InVocab(model.vocab, piece))
                && (forall j | i <= j < |servers| ::
                      StageHolds(stages[j], id, None, Below(model, endpoints[j].start, tokens + piece), start))
                && r.value == Tokens(Picked(model, tokens, piece, which))
      decreases |servers| - i
    {
      hide BlockServer.Valid, StageHolds, Below, Picked, RouteServes, EndsServe, Ahead;
      r := Hop(i, id, payload, pos, which, cut, tokens, piece, floor, start);
      if r.Err? || i == |servers| - 1 {
        return;
      }
      label Ran:
      r := RunFrom(i + 1, id, r.value, pos, which, cut, tokens, piece, floor, start);
      assert stages[i] == stages[..i + 1][i] && old@Ran(stages)[i] == old@Ran(stages)[..i + 1][i];
      assert stages[..i] == stages[..i + 1][..i];
    }

    /** One request of the client, on which every peer of the route works in turn; the last one picks tokens, or
      * says which drafts it agrees with. The client repeats it while it is not answered; however far an attempt
      * got, no peer takes the step twice. */
    method RunChain(id: SessionId, piece: seq<Token>, pos: nat, which: Which, drafts: Option<seq<Token>>,
                    cut: Option<nat>, ghost tokens: seq<Token>, ghost floor: nat, ghost start: nat)
      returns (r: Result<ChainReply, NetError>)
      requires Valid() && RouteServes(endpoints, servers, model) && EndsServe(servers)
      requires pos == |tokens| && piece != [] && (cut.Some? ==> pos == start)
      requires forall i | 0 <= i < |servers| ::
                 StageHolds(stages[i], id, cut, Below(model, endpoints[i].start, tokens), floor)
      requires drafts.Some? ==> which.All? && |drafts.value| < |piece|
      modifies Repr
      ensures Valid() && fresh(Repr - old(Repr)) && lost >= old(lost)
      ensures forall i | 0 <= i < |servers| :: OnlyIn(old(stages[i]), stages[i], id)
      ensures r.Err? ==> Excused(model, lost >= old(lost) + attempts, Tokens(piece), r.error)
      ensures r.Ok? ==>
                && InVocab(model.vocab, piece)
                && (forall i | 0 <= i < |servers| ::
                      StageHolds(stages[i], id, None, Below(model, endpoints[i].start, tokens + piece), start))
                && r.value == Verdict(drafts, Picked(model, tokens, piece, which))
    {
      hide BlockServer.Valid, Peers.Valid, StageHolds, Below, RouteServes;
      for k := 0 to attempts
        invariant Valid() && fresh(Repr - old(Repr)) && lost >= old(lost) + k
        invariant forall i | 0 <= i < |servers| :: OnlyIn(old(stages[i]), stages[i], id)
        invariant forall i | 0 <= i < |servers| :: HopAhead(stages[i], i, id, tokens, piece, which, cut, floor, start)
      {
        var answer := RunFrom(0, id, Tokens(piece), pos, which, cut, tokens, piece, floor, start);
        if answer.Ok? {
          var ids := answer.value.ids;
          if drafts.None? {
            return Ok(ChainReply(ids, None));
          }
          var accepted := CountAccepted(drafts.value, ids);
          return Ok(ChainReply(drafts.value[..accepted] + [ids[accepted]], Some(accepted)));
        }
        if !answer.error.Unreachable? {
          return Err(answer.error);
        }
      }
      return Err(Unreachable);
    }
  }

  lemma KeysInSessions(server: BlockServer)
    requires server.Valid()
    ensures server.Hist().Keys <= server.sessions.Keys
  {
  }

  /** The windows and hidden states around hop i. */
  lemma HopFacts(endpoints: seq<Endpoint>, servers: seq<BlockServer>, m: Model, i: nat,
                 tokens: seq<Token>, piece: seq<Token>)
    requires i < |servers| && RouteServes(endpoints, servers, m)
    ensures var ep := endpoints[i];
            var past, all := Below(m, ep.start, tokens), Below(m, ep.start, tokens + piece);
            && servers[i].model == m
            && past + all[|tokens|..] == all
            && Stack(servers[i].block.Layers(), all) == Below(m, ep.end, tokens + piece)
            && (i == 0 ==> all[|tokens|..] == Embed(m, piece))
            && ep.end == if i + 1 < |servers| then endpoints[i + 1].start else |m.layers|
  {
    TilesBounds(endpoints, |m.layers|, i);
    if i + 1 < |servers| {
      TilesBounds(endpoints, |m.layers|, i + 1);
    }
    ThroughStage(m, endpoints[i].start, endpoints[i].end, tokens, piece);
    FirstFeed(m, tokens, piece);
  }

  ghost function StagesOf(servers: seq<BlockServer>): (s: seq<Stage>)
    reads set i | 0 <= i < |servers| :: servers[i]
    reads set i | 0 <= i < |servers| :: servers[i].block.Root()
    ensures |s| == |servers|
    ensures forall i | 0 <= i < |servers| :: s[i] == servers[i].View()
  {
    if servers == [] then []
    else
      var server := servers[|servers| - 1];
      StagesOf(servers[..|servers| - 1]) + [server.View()]
  }

  ghost function AllRepr(servers: seq<BlockServer>): set<object>
    reads set i | 0 <= i < |servers| :: servers[i]
  {
    set i, o | 0 <= i < |servers| && o in servers[i].Repr :: o
  }
}
