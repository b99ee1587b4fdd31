/** commonnet/speculative.py: speculative decoding over the cached, split stages of client.dfy. */
module Speculative {
  import opened Basics
  import opened CausalModel
  import opened Block
  import opened Route
  import opened Server
  import opened Decoding
  import opened Pipeline
  import opened PeerLinks
  import opened Transport
  import opened Client
  import Drafters

  // --- rolling every stage back -----------------------------------------------------------------

  /** _truncate_all: every stage forgets what follows the first `length` tokens. Nothing is sent. */
  method TruncateAll(t: HttpTransport, path: Path, id: Caller, length: nat, ghost tokens: seq<Token>,
                     ghost floor: nat)
    requires Serving(t, path) && SessionHolds(t, path, id, tokens, floor) && NothingPending(t, id) && Closable(t, id)
    requires floor < length <= |tokens|
    modifies t
    ensures Serving(t, path) && SessionHolds(t, path, id, tokens[..length], floor)
    ensures Others(t, id) == old(Others(t, id)) && Closable(t, id) && Onward(t, id)
  {
    hide Clean, Peers.Valid, RouteServes, EndsServe, ValidModel, StageHolds, Below;
    if path.Chain? {
      TruncateChain(t, path, id, length, tokens, floor);
    } else {
      TruncateRelay(t, path, id, length, tokens, floor);
    }
  }

  lemma CutStage(t: HttpTransport, i: nat, id: SessionId, tokens: seq<Token>, length: nat, floor: nat)
    requires i < |t.peers.endpoints| == |t.peers.stages| && floor < length <= |tokens|
    requires Tiles(t.peers.endpoints, |t.peers.model.layers|)
    requires StageHolds(t.peers.stages[i], id, None, Below(t.peers.model, t.peers.endpoints[i].start, tokens), floor)
    ensures StageHolds(t.peers.stages[i], id, Some(length),
                       Below(t.peers.model, t.peers.endpoints[i].start, tokens[..length]), floor)
  {
    TilesBounds(t.peers.endpoints, |t.peers.model.layers|, i);
    BelowPrefix(t.peers.model, t.peers.endpoints[i].start, tokens, length);
  }

  /** The cut at one endpoint of a relayed session. */
  method TruncateHop(t: HttpTransport, i: nat, id: Caller, length: nat, ghost tokens: seq<Token>, ghost floor: nat)
    requires t.Valid() && i < |t.peers.endpoints| == |t.peers.stages| && id !in t.chains
    requires Tiles(t.peers.endpoints, |t.peers.model.layers|)
    requires InStep(At(t, i, id), id, Below(t.peers.model, t.peers.endpoints[i].start, tokens), floor)
    requires At(t, i, id).cut == None && floor < length <= |tokens|
    modifies t
    ensures t.Valid() && t.chains == old(t.chains) && Others(t, id) == old(Others(t, id))
    ensures forall j | 0 <= j < |t.peers.stages| && j != i :: At(t, j, id) == old(At(t, j, id))
    ensures InStep(At(t, i, id), id, Below(t.peers.model, t.peers.endpoints[i].start, tokens[..length]), floor)
  {
    hide StageHolds, Below, Tiles, Peers.Valid;
    CutStage(t, i, Own(id), tokens, length, floor);
    t.Truncate(i, id, length);
  }

  method TruncateRelay(t: HttpTransport, path: Path, id: Caller, length: nat, ghost tokens: seq<Token>,
                       ghost floor: nat)
    requires Serving(t, path) && RelayHolds(t, id, tokens, floor) && NothingPending(t, id)
    requires floor < length <= |tokens|
    modifies t
    ensures Serving(t, path) && RelayHolds(t, id, tokens[..length], floor)
    ensures Others(t, id) == old(Others(t, id)) && Closable(t, id) && Onward(t, id)
  {
    hide Peers.Valid, EndsServe, ValidModel, StageHolds, Below, Tiles, Serves, Others;
    var n := |t.peers.servers|;
    assert forall j | 0 <= j < n :: t.Pending(j, id) == At(t, j, id).cut;
    var i := 0;
    while i < n
      invariant 0 <= i <= n && t.Valid() && id !in t.chains
      invariant Others(t, id) == old(Others(t, id))
      invariant forall j | 0 <= j < i ::
                  InStep(At(t, j, id), id, Below(t.peers.model, t.peers.endpoints[j].start, tokens[..length]), floor)
      invariant forall j | i <= j < n :: At(t, j, id) == old(At(t, j, id))
    {
      TruncateHop(t, i, id, length, tokens, floor);
      i := i + 1;
    }
  }

  method TruncateChain(t: HttpTransport, path: Path, id: Caller, length: nat, ghost tokens: seq<Token>,
                       ghost floor: nat)
    requires Serving(t, path) && path.Chain? && t.ChainHolds(id, tokens, floor) && NothingPending(t, id)
    requires floor < length <= |tokens|
    modifies t
    ensures Serving(t, path) && t.ChainHolds(id, tokens[..length], floor)
    ensures Others(t, id) == old(Others(t, id)) && Closable(t, id) && Onward(t, id)
  {
    hide Peers.Valid, ValidModel, StageHolds, Below, Tiles, Serves, Spells;
    var n := |t.peers.servers|;
    ghost var kept, name := tokens[..length], t.NameOf(id);
    KnownPrefix(t.peers.model.vocab, tokens, length);
    forall i | 0 <= i < n
      ensures StageHolds(t.peers.stages[i], name, Some(length),
                         Below(t.peers.model, t.peers.endpoints[i].start, kept), floor)
    {
      assert t.Pending(i, id) == None;
      CutStage(t, i, name, tokens, length, floor);
    }
    var i := 0;
    while i < n
      invariant 0 <= i <= n && Serving(t, path) && id in t.chains
      invariant t.open == old(t.open) && t.pendingCut == old(t.pendingCut)
      invariant t.chains == old(t.chains)[id := t.chains[id]] && t.chains[id].closed == {} && t.NameOf(id) == name
      invariant Spells(t.chains[id].history, if i == 0 then tokens else kept)
      invariant i > 0 ==> t.chains[id].pendingCut == Some(length)
    {
      CutHistorySpells(t.chains[id].history, if i == 0 then tokens else kept, length);
      assert kept[..length] == kept;
      t.Truncate(i, id, length);
      i := i + 1;
    }
  }

  lemma KnownPrefix(vocab: nat, tokens: seq<Token>, n: nat)
    requires InVocab(vocab, tokens) && n <= |tokens|
    ensures InVocab(vocab, tokens[..n])
  {
    assert forall x | x in tokens[..n] :: x in tokens;
  }

  // --- the verification answer --------------------------------------------------------------------

  /** The answer of the last peer as it arrives: fields may be missing or have the wrong type. */
  datatype Answer = Answer(accepted: Option<int>, next: Option<int>, ids: Option<seq<int>>)

  function Honest(n: nat, t: Token, drafts: seq<Token>): Answer
    requires n <= |drafts|
  {
    Answer(Some(n), Some(t), Some(drafts[..n] + [t]))
  }

  /** _verified_prefix: an answer is used exactly when it is one an honest peer could have given. */
  function VerifiedPrefix(reply: Answer, drafts: seq<Token>, vocab: nat): (r: Option<(nat, Token)>)
    ensures r.Some? <==> exists n, t :: 0 <= n <= |drafts| && 0 <= t < vocab && reply == Honest(n, t, drafts)
    ensures r.Some? ==> r.value.0 <= |drafts| && 0 <= r.value.1 < vocab && reply == Honest(r.value.0, r.value.1, drafts)
  {
    if reply.accepted.None? || reply.next.None? || reply.ids.None? then None
    else
      var accepted, next, ids := reply.accepted.value, reply.next.value, reply.ids.value;
      if !(0 <= accepted <= |drafts|) || !(0 <= next < vocab) || |ids| != accepted + 1
         || ids[..accepted] != drafts[..accepted] || ids[|ids| - 1] != next then None
      else
        assert ids == drafts[..accepted] + [next];
        assert reply == Honest(accepted, next, drafts);
        Some((accepted, next))
  }

  /** Verification of one round: one trip with `[last] + drafts` after `tokens`. */
  method Verify(t: HttpTransport, path: Path, id: Caller, last: Token, drafts: seq<Token>, pos: nat,
                ghost tokens: seq<Token>, ghost floor: nat)
    returns (r: Result<(nat, Token), GenError>)
    requires Serving(t, path) && SessionHolds(t, path, id, tokens, floor) && Closable(t, id)
    requires pos == |tokens| && 0 <= last < path.vocab
    modifies t, t.peers.Repr
    ensures Serving(t, path) && fresh(t.peers.Repr - old(t.peers.Repr))
    ensures Others(t, id) == old(Others(t, id)) && Closable(t, id) && Onward(t, id)
    ensures r.Err? ==> (r.error.Lost? && GaveUp(t, path)) || (r.error.BadTokens? && !DraftsFit(path, drafts))
    ensures r.Ok? ==>
              && DraftsFit(path, drafts)
              && SessionHolds(t, path, id, tokens + [last] + drafts, pos) && NothingPending(t, id)
              && r.value.0 == Matched(Choice(t.peers.model), tokens + [last], drafts)
              && r.value.1 == Choice(t.peers.model)(tokens + [last] + drafts[..r.value.0])
  {
    hide Clean, Peers.Valid, RouteServes, EndsServe, Others, Closable, RelayHolds, HttpTransport.ChainHolds,
         NothingPending, Picked, Verdict, Agreement, StepFits, DraftsFit, InVocab, Choice, Matched;
    ghost var m := t.peers.model;
    var feed := [last] + drafts;
    assert feed[1..] == drafts && tokens + feed == tokens + [last] + drafts;
    VerdictIsMatched(m, tokens, last, drafts);
    FittingDrafts(path, last, drafts);
    if path.Chain? {
      assert path.limit <= 256;
      var reply := ChainTrip(t, path, id, feed, pos, All, Some(drafts), tokens, floor);
      if reply.Err? {
        return Err(reply.error);
      }
      HonestVerdict(m, path, tokens, last, drafts);
      var ids := reply.value.ids;
      var checked := VerifiedPrefix(Answer(Some(reply.value.accepted.value), Some(Last(ids)), Some(ids)), drafts,
                                    path.vocab);
      return Ok(checked.value);
    }
    var greedy := RelayTrip(t, path, id, feed, pos, All, tokens, floor);
    if greedy.Err? {
      return Err(greedy.error);
    }
    var n := CountAccepted(drafts, greedy.value);
    return Ok((n, greedy.value[n]));
  }

  lemma FittingDrafts(path: Path, last: Token, drafts: seq<Token>)
    requires 0 <= last < path.vocab <= MAX_TOKEN_ID + 1
    ensures path.Chain? && path.limit <= 256 ==>
              (DraftsFit(path, drafts) <==> StepFits(path.vocab, path.limit, [last] + drafts, All, Some(drafts)))
    ensures !path.Chain? ==> (DraftsFit(path, drafts) <==> InVocab(path.vocab, [last] + drafts))
  {
    assert forall x | x in [last] + drafts :: x == last || x in drafts;
    assert forall x | x in drafts :: x in [last] + drafts;
    assert ([last] + drafts)[1..] == drafts;
  }

  /** What an honest last peer answers passes the client's check. */
  lemma HonestVerdict(m: Model, path: Path, tokens: seq<Token>, last: Token, drafts: seq<Token>)
    requires ValidModel(m) && path.vocab == m.vocab
    ensures var picked := Picked(m, tokens, [last] + drafts, All);
            var reply := Verdict(Some(drafts), picked);
            var n := Agreement(drafts, picked);
            && reply.accepted == Some(n) && reply.ids != []
            && VerifiedPrefix(Answer(Some(n), Some(Last(reply.ids)), Some(reply.ids)), drafts, path.vocab)
               == Some((n, picked[n]))
  {
  }

  // --- the stream ---------------------------------------------------------------------------------

  datatype Emission = Going | Ended | Closed

  /** Yields verified drafts until a stop token, the token limit, or the caller's last read. */
  method EmitDrafts(c: Config, take: nat, drafts: seq<Token>, start: seq<Token>)
    returns (out: seq<Token>, yielded: nat, how: Emission)
    requires |start| < take && |start| < c.maxNew
    ensures start <= out <= start + Emit(c, |start|, drafts).0
    ensures how.Going? ==> !Emit(c, |start|, drafts).1
    ensures how.Ended? ==> Emit(c, |start|, drafts).1
    ensures !how.Closed? ==> out == start + Emit(c, |start|, drafts).0 && yielded == |out| - |start| && |out| < take
    ensures how.Closed? ==> |out| == take
  {
    hide Emit;
    out, yielded := start, 0;
    var j := 0;
    ghost var (all, ends) := Emit(c, |start|, drafts);
    assert drafts[0..] == drafts;
    while j < |drafts|
      invariant 0 <= j <= |drafts| && yielded == j == |out| - |start|
      invariant start <= out && |out| < take && |out| < c.maxNew
      invariant start + all == out + Emit(c, |out|, drafts[j..]).0
      invariant ends == Emit(c, |out|, drafts[j..]).1
    {
      var d := drafts[j];
      EmitStep(c, |out|, drafts, j);
      if d in c.stops {
        return out, yielded, Ended;
      }
      ghost var more := if |out| + 1 == c.maxNew then [] else Emit(c, |out| + 1, drafts[j + 1..]).0;
      Assoc(out, [d], more);
      out := out + [d];
      if |out| == take {
        return out, yielded, Closed;
      }
      yielded := yielded + 1;
      if |out| == c.maxNew {
        return out, yielded, Ended;
      }
      j := j + 1;
    }
    EmitNothing(c, |out|);
    assert drafts[j..] == [];
    how := Going;
  }

  lemma EmitNothing(c: Config, produced: nat)
    ensures Emit(c, produced, []) == ([], false)
  {
  }

  lemma EmitStep(c: Config, produced: nat, drafts: seq<Token>, j: nat)
    requires j < |drafts|
    ensures Emit(c, produced, drafts[j..]) ==
            if drafts[j] in c.stops then ([], true)
            else if produced + 1 == c.maxNew then ([drafts[j]], true)
            else ([drafts[j]] + Emit(c, produced + 1, drafts[j + 1..]).0, Emit(c, produced + 1, drafts[j + 1..]).1)
  {
    assert drafts[j..][0] == drafts[j] && drafts[j..][1..] == drafts[j + 1..];
  }

  /** How a loop of `SpecRun` ended on the real caches: as the run does, or earlier because the caller had
    * read enough or a request was lost. */
  ghost predicate EndsLike(end: SpecEnd, take: nat, lost: bool, r: Result<(), GenError>, out: seq<Token>,
                           stats: Stats)
  {
    && out <= end.out && |out| <= take
    && (r.Ok? ==> |out| == take || (out == end.out && stats == end.stats && !end.refused))
    && (r.Err? ==> |out| < take)
    && (r.Err? ==>
          || (r.error.Lost? && lost)
          || (r.error.BadTokens? && end.refused && out == end.out))
  }

  /** The network checks a draft: one trip with `[last] + drafts`, and every cache rolled back to what was
    * accepted. Afterwards every stage holds exactly the context, `last` and the accepted drafts. */
  method CheckDrafts(t: HttpTransport, path: Path, id: Caller, last: Token, drafts: seq<Token>, pos: nat,
                     ghost tokens: seq<Token>, ghost floor: nat)
    returns (r: Result<(nat, Token), GenError>)
    requires Serving(t, path) && SessionHolds(t, path, id, tokens, floor) && Closable(t, id)
    requires pos == |tokens| && 0 <= last < path.vocab
    modifies t, t.peers.Repr
    ensures Serving(t, path) && fresh(t.peers.Repr - old(t.peers.Repr))
    ensures Others(t, id) == old(Others(t, id)) && Closable(t, id) && Onward(t, id)
    ensures r.Err? ==> (r.error.Lost? && GaveUp(t, path)) || (r.error.BadTokens? && !DraftsFit(path, drafts))
    ensures r.Ok? ==>
              && DraftsFit(path, drafts)
              && r.value.0 == Matched(Choice(t.peers.model), tokens + [last], drafts)
              && r.value.1 == Choice(t.peers.model)(tokens + [last] + drafts[..r.value.0])
              && SessionHolds(t, path, id, tokens + [last] + drafts[..r.value.0], pos)
  {
    hide Clean, Peers.Valid, RouteServes, EndsServe, ValidModel, Others, Closable, SessionHolds, NothingPending,
         DraftsFit, Choice, Matched;
    r := Verify(t, path, id, last, drafts, pos, tokens, floor);
    if r.Err? {
      return;
    }
    var n := r.value.0;
    if n < |drafts| {
      TruncateAll(t, path, id, pos + 1 + n, tokens + [last] + drafts, pos);
      assert (tokens + [last] + drafts)[..pos + 1 + n] == tokens + [last] + drafts[..n];
    } else {
      assert drafts[..n] == drafts;
    }
  }

  /** A drafting model of its own, if there is one, is what the configuration says the drafter answers, and
    * shares nothing with the peers. */
  ghost predicate Drafts(source: Drafters.Drafter?, t: HttpTransport, c: Config)
    reads t, t.peers, source
  {
    source != null ==>
      source.Valid() && (source as object) !in t.peers.Repr && c.drafter == Drafters.Answers(source.model)
  }

  /** drafter.propose, cut to what was asked for. */
  method AskDrafter(source: Drafters.Drafter?, c: Config, round: nat, context: seq<Token>, want: nat)
    returns (drafts: seq<Token>)
    requires context != []
    requires source != null ==> source.Valid() && c.drafter == Drafters.Answers(source.model)
    modifies source
    ensures drafts == DraftsFor(c, round, context, want)
    ensures source != null ==> source.Valid()
  {
    if source == null {
      return DraftsFor(c, round, context, want);
    }
    drafts := source.Propose(context, want);
  }

  /** One round's trip: the drafter proposes, the network checks. */
  method DraftAndCheck(t: HttpTransport, path: Path, id: Caller, source: Drafters.Drafter?, c: Config, round: nat,
                       want: nat, last: Token, context: seq<Token>, pos: nat, ghost floor: nat)
    returns (drafts: seq<Token>, r: Result<(nat, Token), GenError>)
    requires Serving(t, path) && SessionHolds(t, path, id, context, floor) && Closable(t, id)
    requires pos == |context| && 0 <= last < path.vocab && Drafts(source, t, c)
    modifies t, t.peers.Repr, source
    ensures Serving(t, path) && fresh(t.peers.Repr - old(t.peers.Repr)) && Drafts(source, t, c)
    ensures Others(t, id) == old(Others(t, id)) && Closable(t, id) && Onward(t, id)
    ensures drafts == DraftsFor(c, round, context + [last], want)
    ensures r.Err? ==> (r.error.Lost? && GaveUp(t, path)) || (r.error.BadTokens? && !DraftsFit(path, drafts))
    ensures r.Ok? ==>
              && DraftsFit(path, drafts)
              && r.value.0 == Matched(Choice(t.peers.model), context + [last], drafts)
              && r.value.1 == Choice(t.peers.model)(context + [last] + drafts[..r.value.0])
              && SessionHolds(t, path, id, context + [last] + drafts[..r.value.0], pos)
  {
    hide Clean, Peers.Valid, RouteServes, EndsServe, ValidModel, Others, Closable, SessionHolds, NothingPending,
         DraftsFit, Choice, Matched, DraftsFor;
    drafts := AskDrafter(source, c, round, context + [last], want);
    r := CheckDrafts(t, path, id, last, drafts, pos, context, floor);
  }

  /** The end of a round: the accepted drafts are yielded and booked. */
  method FinishRound(path: Path, c: Config, take: nat, drafts: seq<Token>, n: nat, start: seq<Token>, booked: Stats,
                     ghost next: Oracle, ghost s: SpecState)
    returns (out: seq<Token>, stats: Stats, how: Emission)
    requires s.produced == |s.out| && s.last !in c.stops && start == s.out + [s.last]
    requires |start| < c.maxNew && |start| < take
    requires drafts == Proposal(c, s) && DraftsFit(path, drafts)
    requires n == Matched(next, s.context + [s.last], drafts)
    requires booked == AfterRound(s.stats.(emitted := s.stats.emitted + 1), |drafts|, n)
    ensures out <= SpecLoop(next, path, c, s).out && |start| <= |out| <= take
    ensures how.Closed? ==> |out| == take
    ensures how.Ended? ==> SpecLoop(next, path, c, s) == SpecEnd(out, stats, false)
    ensures how.Going? ==>
              var context := s.context + [s.last] + drafts[..n];
              && |out| < c.maxNew && |out| < take
              && SpecLoop(next, path, c, s) ==
                 SpecLoop(next, path, c,
                          SpecState(context, next(context), |out|, AdaptK(c, s.curK, n, |drafts|), out, stats))
  {
    hide DraftsFit, SpecLoop, Matched, Emit, AdaptK, AfterRound, Proposal;
    RoundIs(next, path, c, s, drafts, n);
    var yielded;
    out, yielded, how := EmitDrafts(c, take, drafts[..n], start);
    stats := if how.Closed? then booked else booked.(emitted := booked.emitted + yielded);
  }

  /** speculative_stream after its first step: the round loop. */
  method RoundLoop(t: HttpTransport, path: Path, id: Caller, c: Config, take: nat, prompt: seq<Token>, first: Token,
                   source: Drafters.Drafter?)
    returns (r: Result<(), GenError>, out: seq<Token>, stats: Stats)
    requires Serving(t, path) && SessionHolds(t, path, id, prompt, 0) && Closable(t, id)
    requires prompt != [] && c.k >= 1 && c.maxNew >= 1 && take >= 1
    requires first == Choice(t.peers.model)(prompt)
    requires Drafts(source, t, c)
    modifies t, t.peers.Repr, source
    ensures Serving(t, path) && fresh(t.peers.Repr - old(t.peers.Repr))
    ensures Others(t, id) == old(Others(t, id)) && Closable(t, id) && Onward(t, id)
    ensures EndsLike(SpecLoop(Choice(t.peers.model), path, c, Start(Choice(t.peers.model), c, prompt)), take,
                     GaveUp(t, path), r, out, stats)
  {
    hide Clean, Serving, Others, Closable, SessionHolds, NothingPending, DraftsFit, SpecLoop, Choice, Matched, Emit,
         AdaptK, AfterRound, Proposal, DraftsFor;
    ghost var next := Choice(t.peers.model);
    ghost var end := SpecLoop(next, path, c, Start(next, c, prompt));
    ghost var floor: nat := 0;
    var context, last, curK, pos := prompt, first, c.k, |prompt|;
    out, stats := [], NO_STATS;
    while true
      invariant Serving(t, path) && fresh(t.peers.Repr - old(t.peers.Repr))
      invariant Others(t, id) == old(Others(t, id)) && Closable(t, id) && Onward(t, id)
      invariant SessionHolds(t, path, id, context, floor) && Drafts(source, t, c)
      invariant context != [] && pos == |context| && last == next(context)
      invariant |out| < c.maxNew && |out| < take
      invariant SpecLoop(next, path, c, SpecState(context, last, |out|, curK, out, stats)) == end
      decreases c.maxNew - |out|
    {
      ghost var s := SpecState(context, last, |out|, curK, out, stats);
      EndsBeforeRound(next, path, c, s);
      LoopKeepsOut(next, path, c, s);
      if last in c.stops {
        return Ok(()), out, stats;
      }
      out := out + [last];
      if |out| == take {
        return Ok(()), out, stats;
      }
      stats := stats.(emitted := stats.emitted + 1);
      if |out| == c.maxNew {
        return Ok(()), out, stats;
      }
      var want := Min(curK, c.maxNew - |out|);
      ProposalIs(c, s);
      KnownChoice(t, path, context);
      var drafts, checked := DraftAndCheck(t, path, id, source, c, stats.rounds, want, last, context, pos, floor);
      if checked.Err? {
        return Err(checked.error), out, stats;
      }
      var (n, nextId) := checked.value;
      floor, pos := pos, pos + 1 + n;
      curK := AdaptK(c, curK, n, |drafts|);
      var how;
      out, stats, how := FinishRound(path, c, take, drafts, n, out, AfterRound(stats, |drafts|, n), next, s);
      if !how.Going? {
        return Ok(()), out, stats;
      }
      context, last := context + [last] + drafts[..n], nextId;
    }
  }

  lemma KnownChoice(t: HttpTransport, path: Path, context: seq<Token>)
    requires Serving(t, path) && context != []
    ensures 0 <= Choice(t.peers.model)(context) < path.vocab
  {
  }

  lemma ProposalIs(c: Config, s: SpecState)
    requires s.produced + 1 < c.maxNew
    ensures Proposal(c, s) == DraftsFor(c, s.stats.rounds, s.context + [s.last], Min(s.curK, c.maxNew - s.produced - 1))
  {
  }

  /** Where the run ends before a round. */
  lemma EndsBeforeRound(next: Oracle, path: Path, c: Config, s: SpecState)
    requires s.produced < c.maxNew
    ensures var end, stats := SpecLoop(next, path, c, s), s.stats.(emitted := s.stats.emitted + 1);
            if s.last in c.stops then end == SpecEnd(s.out, s.stats, false)
            else if s.produced + 1 == c.maxNew then end == SpecEnd(s.out + [s.last], stats, false)
            else !DraftsFit(path, Proposal(c, s)) ==> end == SpecEnd(s.out + [s.last], stats, true)
  {
    hide DraftsFit, Proposal;
  }

  /** One round of the run: where it ends, or which state it goes on from. */
  lemma RoundIs(next: Oracle, path: Path, c: Config, s: SpecState, drafts: seq<Token>, n: nat)
    requires s.produced + 1 < c.maxNew && s.last !in c.stops && s.produced == |s.out|
    requires drafts == Proposal(c, s) && DraftsFit(path, drafts)
    requires n == Matched(next, s.context + [s.last], drafts)
    ensures var (yielded, done) := Emit(c, s.produced + 1, drafts[..n]);
            var out := s.out + [s.last] + yielded;
            var booked := AfterRound(s.stats.(emitted := s.stats.emitted + 1), |drafts|, n);
            var stats := booked.(emitted := booked.emitted + |yielded|);
            var context := s.context + [s.last] + drafts[..n];
            && out <= SpecLoop(next, path, c, s).out
            && if done then SpecLoop(next, path, c, s) == SpecEnd(out, stats, false)
               else |out| < c.maxNew
                    && SpecLoop(next, path, c, s) ==
                       SpecLoop(next, path, c, SpecState(context, next(context), |out|,
                                                         AdaptK(c, s.curK, n, |drafts|), out, stats))
  {
    hide DraftsFit, Proposal, AfterRound, AdaptK, Matched, Emit;
    var (s', done) := Round(next, c, s, drafts);
    if !done {
      LoopKeepsOut(next, path, c, s');
    }
  }

  /** The end of a run, read as far as the caller reads it, is the greedy stream read that far. */
  lemma EndIsRead(m: Model, path: Path, c: Config, prompt: seq<Token>, take: nat, lost: bool,
                  r: Result<(), GenError>, out: seq<Token>, stats: Stats)
    requires c.maxNew >= 1 && PromptFits(path, prompt)
    requires EndsLike(SpecLoop(Choice(m), path, c, Start(Choice(m), c, prompt)), take, lost, r, out, stats)
    ensures EndsLike(SpecRun(Choice(m), path, c, prompt), take, lost, r, out, stats)
    ensures out <= Read(m, prompt, c.maxNew, c.stops, take)
    ensures r.Ok? ==> out == Read(m, prompt, c.maxNew, c.stops, take)
  {
    hide SpecLoop, Greedy, Choice, Start;
    SpeculativeIsGreedy(Choice(m), path, c, prompt);
  }

  /** speculative_stream, up to the point where the caller has read `take` tokens and closes the stream.
    * Main result: on real caches, split over any route, it yields what GenerateStream yields. */
  method SpeculativeStream(t: HttpTransport, path: Path, id: Caller, c: Config, prompt: seq<Token>, take: nat,
                           source: Drafters.Drafter?)
    returns (r: Result<(), GenError>, out: seq<Token>, stats: Stats)
    requires t.Valid() && PathFits(t, path) && ValidModel(t.peers.model)
    requires Serves(t.peers.endpoints, t.peers.servers, t.peers.model)
    requires FreshId(t, id) && take > 0 && Drafts(source, t, c)
    modifies t, t.peers.Repr, source
    ensures t.Valid() && fresh(t.peers.Repr - old(t.peers.Repr)) && LeftNoTrace(t, id)
    ensures !Tiles(t.peers.endpoints, |t.peers.model.layers|) <==> r.Err? && r.error.BadRoute?
    ensures Tiles(t.peers.endpoints, |t.peers.model.layers|) && prompt == [] <==> r == Err(EmptyPrompt)
    ensures Tiles(t.peers.endpoints, |t.peers.model.layers|) && prompt != [] && c.k < 1 <==> r == Err(BadK)
    ensures r.Err? && !r.error.Lost? && !r.error.BadTokens? ==> out == []
    ensures r.Err? ==> |out| < take
    ensures t.peers.lost >= old(t.peers.lost) && out <= Read(t.peers.model, prompt, c.maxNew, c.stops, take)
    ensures r.Err? ==>
              || r.error.BadRoute? || r.error.EmptyPrompt? || r.error.BadK?
              || (r.error.Lost? && GaveUp(t, path))
              || (r.error.BadTokens?
                  && var end := SpecRun(Choice(t.peers.model), path, c, prompt); end.refused && out == end.out)
    ensures r.Ok? ==>
              && out == Read(t.peers.model, prompt, c.maxNew, c.stops, take)
              && (|out| < take ==>
                    var end := SpecRun(Choice(t.peers.model), path, c, prompt); !end.refused && stats == end.stats)
  {
    hide Clean, FreshId, Unheard, AllGone, Peers.Valid, Serves, ValidModel, EndsServe, Closable, Read, SpecRun, Choice;
    out, stats := [], NO_STATS;
    FreshIsClean(t, id);
    var checked := CheckRoute(t.peers.endpoints, |t.peers.model.layers|);
    if checked.Err? {
      return Err(BadRoute(checked.error)), out, stats;
    }
    if prompt == [] {
      return Err(EmptyPrompt), out, stats;
    }
    if c.k < 1 {
      return Err(BadK), out, stats;
    }
    if c.maxNew < 1 {
      NothingToRead(t.peers.model, prompt, c.stops, take);
      NothingToRun(t.peers.model, path, c, prompt);
      return Ok(()), out, stats;
    }
    if source != null {
      source.Reset();
    }
    r, out, stats := FirstStepAndRounds(t, path, id, c, prompt, take, source);
    CloseAll(t, id);
    if t.peers.lost == old(t.peers.lost) {
      NoTrace(old(t.peers.stages), t.peers.stages, id);
    }
  }

  /** The same prompt, plain and speculative, as the live benchmark compares them. The texts are the same, unless the
    * client gave up on a request or the run is refused; and if nothing was lost, all servers are as before. */
  method Compare(t: HttpTransport, path: Path, plainId: Caller, fastId: Caller, c: Config, prompt: seq<Token>,
                 take: nat, source: Drafters.Drafter?)
    returns (identical: bool)
    requires t.Valid() && PathFits(t, path) && ValidModel(t.peers.model)
    requires RouteServes(t.peers.endpoints, t.peers.servers, t.peers.model)
    requires FreshId(t, plainId) && FreshId(t, fastId) && plainId != fastId
    requires prompt != [] && c.k >= 1 && take > 0 && Drafts(source, t, c)
    modifies t, t.peers.Repr, source
    ensures identical || GaveUp(t, path) || !PromptFits(path, prompt)
            || SpecRun(Choice(t.peers.model), path, c, prompt).refused
    ensures t.peers.lost == old(t.peers.lost) ==> t.peers.stages == old(t.peers.stages)
  {
    hide Peers.Valid, Serves, ValidModel, Read, SpecRun, Choice, EndsServe, PromptFits, Tiles, Others;
    FreshElsewhere(t, plainId, fastId);
    var plain, text, steps := GenerateStream(t, path, plainId, prompt, c.maxNew, c.stops, take);
    FreshElsewhere(t, plainId, fastId);
    var fast, tokens, stats := SpeculativeStream(t, path, fastId, c, prompt, take, source);
    return plain.Ok? && fast.Ok? && text == tokens;
  }

  /** Whether a name is new can be seen without the sessions of another one. */
  lemma FreshElsewhere(t: HttpTransport, id: Caller, other: Caller)
    requires id != other
    ensures FreshId(t, other) <==>
              var e := Others(t, id);
              && other !in e.chains && Unheard(e.stages, other)
              && forall i: nat :: (i, other) !in e.open && (i, other) !in e.pendingCut
  {
    var e := Others(t, id);
    assert other in t.chains <==> other in e.chains;
    assert forall i: nat :: (i, other) in t.open <==> (i, other) in e.open;
    assert forall i: nat :: (i, other) in t.pendingCut <==> (i, other) in e.pendingCut;
    forall i | 0 <= i < |t.peers.stages|
      ensures OnlyWires(t.peers.stages[i], other, 0) <==> OnlyWires(e.stages[i], other, 0)
    {
      ForeignUnused(t.peers.stages[i], id, other);
    }
  }

  lemma ForeignUnused(st: Stage, id: Caller, other: Caller)
    requires id != other
    ensures OnlyWires(st, other, 0) <==> OnlyWires(Foreign(st, id), other, 0)
  {
    forall k: SessionId | k.name == other
      ensures Unused(st, k) <==> Unused(Foreign(st, id), k)
    {
      assert k in st.hist <==> k in Foreign(st, id).hist;
      assert k in st.sessions <==> k in Foreign(st, id).sessions;
    }
  }

  /** The trips of `SpeculativeStream`: the prompt's, and one for every round. */
  method FirstStepAndRounds(t: HttpTransport, path: Path, id: Caller, c: Config, prompt: seq<Token>, take: nat,
                            source: Drafters.Drafter?)
    returns (r: Result<(), GenError>, out: seq<Token>, stats: Stats)
    requires Serving(t, path) && FreshId(t, id)
    requires prompt != [] && c.k >= 1 && c.maxNew >= 1 && take > 0 && Drafts(source, t, c)
    modifies t, t.peers.Repr, source
    ensures Serving(t, path) && fresh(t.peers.Repr - old(t.peers.Repr))
    ensures Others(t, id) == old(Others(t, id)) && Closable(t, id) && Onward(t, id)
    ensures out <= Read(t.peers.model, prompt, c.maxNew, c.stops, take)
    ensures EndsLike(SpecRun(Choice(t.peers.model), path, c, prompt), take, GaveUp(t, path), r, out, stats)
    ensures r.Ok? ==> out == Read(t.peers.model, prompt, c.maxNew, c.stops, take)
  {
    hide Clean, Serving, FreshId, Closable, SessionHolds, Others, Read, PromptFits, SpecLoop, Choice, Start;
    FreshSession(t, path, id);
    var first := StepLast(t, path, id, prompt, 0, [], 0);
    if first.Err? {
      return Err(first.error), [], NO_STATS;
    }
    assert [] + prompt == prompt;
    r, out, stats := RoundLoop(t, path, id, c, take, prompt, first.value, source);
    EndIsRead(t.peers.model, path, c, prompt, take, GaveUp(t, path), r, out, stats);
  }

  lemma NothingToRun(m: Model, path: Path, c: Config, prompt: seq<Token>)
    requires c.maxNew < 1
    ensures SpecRun(Choice(m), path, c, prompt) == SpecEnd([], NO_STATS, false)
  {
  }
}
