/** What the stages of a route hold, and why running tokens through them in any pieces is one uncached
  * pass through the whole model. Facts only; the objects are in peers.dfy and transport.dfy.
  */
module Pipeline {
  import opened Basics
  import opened CausalModel
  import opened Block
  import opened Route
  import opened Server

  datatype NetError = Unreachable | Rejected(error: ServerError) | BadRequest

  /** With `cut` still to be made, the stage holds exactly `xs` for the session, and whatever step comes
    * next at position |xs| is no repeat of the last one. `floor` is where the last call began. */
  ghost predicate StageHolds(st: Stage, id: SessionId, cut: Option<nat>, xs: seq<Hidden>, floor: nat) {
    && CutTo(HeldIn(st.hist, id), cut) == xs
    && (xs != [] ==> id in st.sessions)
    && (cut.Some? ==> cut.value == |xs| && id in st.hist)
    && (id in st.sessions && st.sessions[id].Some? ==>
          var last := st.sessions[id].value.step;
          && (cut.None? ==> last.startPos < |xs|)
          && (cut.Some? ==> last.cut != cut)
          && (last.cut.Some? ==> last.cut.value <= floor))
  }

  /** Nobody has used this session id. */
  ghost predicate Unused(st: Stage, id: SessionId) {
    id !in st.hist && id !in st.sessions
  }

  /** Everything a stage holds for the sessions of other clients. */
  ghost function Foreign(st: Stage, name: Caller): Stage {
    Stage(map k | k in st.hist && k.name != name :: st.hist[k],
          map k | k in st.sessions && k.name != name :: st.sessions[k])
  }

  ghost function Without(stages: seq<Stage>, name: Caller): (r: seq<Stage>)
    ensures |r| == |stages|
  {
    seq(|stages|, i requires 0 <= i < |stages| => Foreign(stages[i], name))
  }

  lemma SameBut<K, V>(before: map<K, V>, after: map<K, V>, x: K)
    requires after - {x} == before - {x}
    ensures forall k | k != x :: k in after <==> k in before
    ensures forall k | k != x && k in after :: after[k] == before[k]
  {
    forall k | k != x
      ensures k in after <==> k in before
      ensures k in after ==> after[k] == before[k]
    {
      assert k in after - {x} <==> k in before - {x};
      assert k in after ==> after[k] == (after - {x})[k] == (before - {x})[k] == before[k];
    }
  }

  lemma OnlyInForeign(before: Stage, after: Stage, id: SessionId)
    requires OnlyIn(before, after, id)
    ensures Foreign(after, id.name) == Foreign(before, id.name)
    ensures forall other | other != id :: Unused(after, other) <==> Unused(before, other)
  {
    SameBut(before.hist, after.hist, id);
    SameBut(before.sessions, after.sessions, id);
  }

  /** Of this client's sessions the stage knows at most the one under its own name... */
  ghost predicate OnlyOwn(st: Stage, name: Caller) {
    forall k: SessionId | k.name == name && !Unused(st, k) :: k.Own?
  }

  /** ...or those of a chain before its n-th restart. */
  ghost predicate OnlyWires(st: Stage, name: Caller, n: nat) {
    forall k: SessionId | k.name == name && !Unused(st, k) :: k.Wire? && k.restarts < n
  }

  /** Requests of one chain session change nothing but that session. */
  lemma KeepsTraces(before: seq<Stage>, after: seq<Stage>, name: Caller, k: nat, n: nat)
    requires |before| == |after| && k < n
    requires forall i | 0 <= i < |before| :: OnlyIn(before[i], after[i], Wire(name, k))
    ensures Without(after, name) == Without(before, name)
    ensures (forall i | 0 <= i < |before| :: OnlyWires(before[i], name, n)) ==>
              forall i | 0 <= i < |after| :: OnlyWires(after[i], name, n)
  {
    hide OnlyIn, Foreign, Unused;
    forall i | 0 <= i < |before|
      ensures Foreign(after[i], name) == Foreign(before[i], name)
      ensures OnlyWires(before[i], name, n) ==> OnlyWires(after[i], name, n)
    {
      OnlyInForeign(before[i], after[i], Wire(name, k));
    }
  }

  /** A session has been opened, or nothing has changed. */
  ghost predicate Opened(before: Stage, after: Stage, id: SessionId) {
    || after == before
    || (id !in before.sessions && after == before.(sessions := before.sessions[id := None]))
  }

  /** Opening a session on a server changes nothing it holds. */
  lemma OpenKeepsStage(before: Stage, after: Stage, id: SessionId, cut: Option<nat>, xs: seq<Hidden>, floor: nat)
    requires Opened(before, after, id)
    ensures StageHolds(before, id, cut, xs, floor) ==> StageHolds(after, id, cut, xs, floor)
    ensures OnlyIn(before, after, id)
  {
  }

  /** A step that starts where the stage stands is in order and no repeat; if it is refused for an unknown token,
    * the stage still holds what it held. */
  lemma HeldInOrder(server: BlockServer, st: Stage, id: SessionId, step: Step, past: seq<Hidden>, floor: nat)
    requires StageHolds(st, id, step.cut, past, floor) && step.startPos == |past|
    ensures server.Lines(st.hist, id, step) && !server.Repeat(st, id, step)
    ensures server.AllFed(st.hist, id, step) == past + FedBy(server.model, step.input)
    ensures StageHolds(st.(hist := AfterCut(st.hist, id, step.cut)), id, step.cut, past, floor)
  {
  }

  lemma HeldMeansOpen(st: Stage, id: SessionId, cut: Option<nat>, xs: seq<Hidden>, floor: nat)
    requires StageHolds(st, id, cut, xs, floor) && xs != []
    ensures id in st.sessions
  {
  }

  /** Deferring a cut changes nothing on the stage, and already means the shorter session. */
  lemma DeferredCut(st: Stage, id: SessionId, xs: seq<Hidden>, floor: nat, length: nat)
    requires StageHolds(st, id, None, xs, floor) && floor < length <= |xs|
    ensures StageHolds(st, id, Some(length), xs[..length], floor)
  {
  }

  /** After a step the stage holds what it held and what it was fed, with nothing left to cut. */
  lemma StepKeepsStage(before: Stage, after: Stage, id: SessionId, step: Step, past: seq<Hidden>, fed: seq<Hidden>,
                       floor: nat, start: nat, reply: Payload)
    requires StageHolds(before, id, step.cut, past, floor) && id in before.sessions
    requires after.hist == before.hist[id := past + fed]
    requires after.sessions == before.sessions[id := Some(Saved(step, reply))]
    requires step.startPos == |past| && fed != []
    requires step.cut.Some? ==> |past| == start
    ensures StageHolds(after, id, None, past + fed, start) && id in after.sessions
    ensures OnlyIn(before, after, id)
  {
  }

  // --- what the stages of a route hold ---------------------------------------------------------

  /** What reaches layer `start` when `tokens` go in at the bottom. */
  ghost function Below(m: Model, start: int, tokens: seq<Token>): (r: seq<Hidden>)
    ensures |r| == |tokens|
  {
    if 0 <= start <= |m.layers| then Stack(m.layers[..start], Embed(m, tokens)) else Embed(m, tokens)
  }

  /** One stage takes new positions from what lies below its first layer to what lies below its last. */
  lemma ThroughStage(m: Model, start: nat, end: nat, tokens: seq<Token>, fed: seq<Token>)
    requires start <= end <= |m.layers|
    ensures Below(m, start, tokens) + Below(m, start, tokens + fed)[|tokens|..] == Below(m, start, tokens + fed)
    ensures Stack(m.layers[start..end], Below(m, start, tokens + fed)) == Below(m, end, tokens + fed)
  {
    EmbedAppend(m, tokens, fed);
    StackPrefix(m.layers[..start], Embed(m, tokens + fed), |tokens|);
    assert Embed(m, tokens + fed)[..|tokens|] == Embed(m, tokens);
    assert m.layers[..end] == m.layers[..start] + m.layers[start..end];
    StackSplit(m.layers[..start], m.layers[start..end], Embed(m, tokens + fed));
  }

  /** Rolling the tokens back rolls back what every stage was fed. */
  lemma BelowPrefix(m: Model, start: nat, tokens: seq<Token>, n: nat)
    requires start <= |m.layers| && n <= |tokens|
    ensures Below(m, start, tokens[..n]) == Below(m, start, tokens)[..n]
  {
    EmbedPrefix(m, tokens, n);
    StackPrefix(m.layers[..start], Embed(m, tokens), n);
  }

  /** Two requests in a row answer what one request would. */
  lemma RepliesJoin(layers: seq<Layer>, past: seq<Hidden>, a: seq<Hidden>, b: seq<Hidden>)
    ensures Stack(layers, past + (a + b))[|past|..]
         == Stack(layers, past + a)[|past|..] + Stack(layers, past + a + b)[|past| + |a|..]
  {
    assert past + (a + b) == past + a + b;
    StackPrefix(layers, past + a + b, |past + a|);
    assert (past + a + b)[..|past + a|] == past + a;
  }

  /** One call of an endpoint: what goes in, and whether token ids come out, for which positions. */
  datatype Call = Call(input: Payload, wantIds: bool, which: Which)

  predicate CanAnswer(server: BlockServer, c: Call) {
    (c.input.Tokens? ==> server.idsIn) && (c.wantIds ==> server.headOut)
  }

  /** The only ways a call of a session in step can fail: enough of its messages were lost, or the input holds a
    * token the embedding does not know. */
  ghost predicate Excused(m: Model, lost: bool, input: Payload, e: NetError) {
    (e.Unreachable? && lost) || (e == Rejected(UnknownToken) && !Known(m, input))
  }

  /** The part of an input from position a up to b. */
  function Piece(input: Payload, a: nat, b: nat): Payload
    requires a <= b <= Size(input)
  {
    match input
    case Hiddens(h) => Hiddens(h[a..b])
    case Tokens(t) => Tokens(t[a..b])
  }

  /** The answers of two requests in a row, put together: every position, or only the last token. */
  function Joined(which: Which, first: Payload, second: Payload): Payload {
    match (first, second)
    case (Hiddens(h), Hiddens(g)) => Hiddens(h + g)
    case (Tokens(t), Tokens(u)) => if which.All? then Tokens(t + u) else second
    case _ => second
  }

  lemma PieceIsFed(m: Model, input: Payload, a: nat, b: nat)
    requires a <= b <= Size(input)
    ensures FedBy(m, Piece(input, a, b)) == FedBy(m, input)[a..b]
    ensures Size(Piece(input, a, b)) == b - a
    ensures a == 0 ==> FedBy(m, Piece(input, a, b)) == FedBy(m, input)[..b]
    ensures !Known(m, Piece(input, a, b)) ==> !Known(m, input)
    ensures Known(m, Piece(input, 0, a)) && Known(m, Piece(input, a, b)) ==> Known(m, Piece(input, 0, b))
    ensures a == 0 && b == Size(input) ==> Piece(input, a, b) == input
  {
    assert a == 0 ==> FedBy(m, input)[a..b] == FedBy(m, input)[..b];
    if input.Tokens? {
      assert forall t | t in input.ids[a..b] :: t in input.ids;
      assert input.ids[0..b] == input.ids[0..a] + input.ids[a..b];
    }
  }

  /** The request for positions a up to b, after those up to a, completes the answer up to b. */
  lemma NextPiece(m: Model, layers: seq<Layer>, wantIds: bool, which: Which, past: seq<Hidden>,
                  fed: seq<Hidden>, a: nat, b: nat)
    requires 0 < a < b <= |fed|
    ensures past + fed[..a] + fed[a..b] == past + fed[..b]
    ensures var made := Stack(layers, past + fed[..b]);
            Joined(which, Reply(m, wantIds, which, Stack(layers, past + fed[..a])[|past|..]),
                   Reply(m, wantIds, which, made[|past| + a..]))
            == Reply(m, wantIds, which, made[|past|..])
  {
    hide Reply, Joined, Stack;
    assert past + fed[..a] + fed[a..b] == past + fed[..b];
    assert fed[..a] + fed[a..b] == fed[..b];
    RepliesJoin(layers, past, fed[..a], fed[a..b]);
    RepliesJoined(m, wantIds, which, Stack(layers, past + fed[..a])[|past|..],
                  Stack(layers, past + fed[..b])[|past| + a..]);
  }

  lemma RepliesJoined(m: Model, wantIds: bool, which: Which, a: seq<Hidden>, b: seq<Hidden>)
    requires a != [] && b != []
    ensures Joined(which, Reply(m, wantIds, which, a), Reply(m, wantIds, which, b)) == Reply(m, wantIds, which, a + b)
  {
  }

  // --- verification ----------------------------------------------------------------------------

  datatype ChainReply = ChainReply(ids: seq<Token>, accepted: Option<nat>)

  /** How many drafts equal the tokens picked at the same places, up to the first that does not. */
  function Agreement(drafts: seq<Token>, picked: seq<Token>): (n: nat)
    requires |drafts| < |picked|
    ensures n <= |drafts|
    decreases |drafts|
  {
    if drafts == [] || drafts[0] != picked[0] then 0 else 1 + Agreement(drafts[1..], picked[1..])
  }

  /** The last peer's reply: the picked tokens, or the accepted drafts and the token that comes after. */
  ghost function Verdict(drafts: Option<seq<Token>>, picked: seq<Token>): ChainReply
    requires drafts.Some? ==> |drafts.value| < |picked|
  {
    if drafts.None? then ChainReply(picked, None)
    else
      var n := Agreement(drafts.value, picked);
      ChainReply(drafts.value[..n] + [picked[n]], Some(n))
  }

  /** The tokens the whole model picks at the positions of `fed`, when it follows `tokens`. */
  ghost function Picked(m: Model, tokens: seq<Token>, fed: seq<Token>, which: Which): (r: seq<Token>)
    requires fed != []
    ensures which.All? ==> |r| == |fed|
  {
    Pick(m.head, Below(m, |m.layers|, tokens + fed)[|tokens|..], which)
  }

  lemma FirstFeed(m: Model, tokens: seq<Token>, fed: seq<Token>)
    ensures Below(m, 0, tokens + fed)[|tokens|..] == Embed(m, fed)
  {
    assert m.layers[..0] == [];
  }

  lemma AgreementFrom(drafts: seq<Token>, picked: seq<Token>, n: nat)
    requires |drafts| < |picked| && n <= |drafts|
    requires forall j | 0 <= j < n :: drafts[j] == picked[j]
    requires n < |drafts| ==> drafts[n] != picked[n]
    ensures n == Agreement(drafts, picked)
    decreases n
  {
    if n > 0 {
      AgreementFrom(drafts[1..], picked[1..], n - 1);
    }
  }

  /** The comparison loop of the last peer and of the client. */
  method CountAccepted(drafts: seq<Token>, picked: seq<Token>) returns (accepted: nat)
    requires |drafts| < |picked|
    ensures accepted == Agreement(drafts, picked)
    ensures accepted <= |drafts| && forall j | 0 <= j < accepted :: drafts[j] == picked[j]
    ensures accepted < |drafts| ==> drafts[accepted] != picked[accepted]
  {
    accepted := 0;
    while accepted < |drafts| && drafts[accepted] == picked[accepted]
      invariant accepted <= |drafts|
      invariant forall j | 0 <= j < accepted :: drafts[j] == picked[j]
    {
      accepted := accepted + 1;
    }
    AgreementFrom(drafts, picked, accepted);
  }

  /** The endpoints tile the model and every peer serves the window it claims. */
  ghost predicate RouteServes(endpoints: seq<Endpoint>, servers: seq<BlockServer>, m: Model) {
    Tiles(endpoints, |m.layers|) && Serves(endpoints, servers, m)
  }

  /** The first peer embeds and the last one picks tokens. */
  predicate EndsServe(servers: seq<BlockServer>) {
    servers != [] && servers[0].idsIn && servers[|servers| - 1].headOut
  }

  /** Every peer holds the model the client asks for and serves the window it claims. */
  ghost predicate Serves(endpoints: seq<Endpoint>, servers: seq<BlockServer>, m: Model) {
    && |endpoints| == |servers|
    && forall i | 0 <= i < |servers| ::
      && servers[i].model == m
      && var ep := endpoints[i];
        0 <= ep.start <= ep.end <= |m.layers| ==> servers[i].block.Layers() == m.layers[ep.start..ep.end]
  }
}
