/** What greedy decoding means, and speculative decoding as a run over rounds.
  *
  * `Greedy` is the naive reference: recompute everything at every step. `SpecRun` follows
  * speculative_stream (commonnet/speculative.py) round by round; the imperative decoders in
  * client.dfy and speculative.dfy are proved to produce exactly these runs on real caches.
  */
module Decoding {
  import opened Basics

  type Token = int

  /** The network's greedy choice after a context. Nothing is assumed of it here;
    * `CausalModel.Choice` is the one the layers compute. */
  type Oracle = seq<Token> -> Token

  /** The stream plain greedy decoding yields: it ends before a stop token or after `budget` tokens. */
  function Greedy(next: Oracle, context: seq<Token>, budget: nat, stops: set<Token>): (out: seq<Token>)
    ensures |out| <= budget
    decreases budget
  {
    if budget == 0 then []
    else
      var t := next(context);
      if t in stops then [] else [t] + Greedy(next, context + [t], budget - 1, stops)
  }

  /** Trips through the network plain decoding takes to yield `n` tokens of at most `budget`: one per
    * token, and one more if it was a stop token that ended the stream. */
  function PlainSteps(n: nat, budget: nat): nat {
    if n < budget then n + 1 else n
  }

  // --- how a request travels -------------------------------------------------------------------

  /** Relay: hidden states hop through the client. Ids: the end stages embed and pick tokens. Chain: the
    * stages pass hidden states on by themselves, in requests of at most `limit` positions. Either way the
    * embedding knows `vocab` tokens. */
  datatype Path =
    | Relay(vocab: nat)
    | Ids(vocab: nat)
    | Chain(vocab: nat, limit: nat)

  const MAX_CHAIN_TOKENS := 4096

  predicate InVocab(vocab: nat, tokens: seq<Token>) {
    forall t | t in tokens :: 0 <= t < vocab
  }

  /** A prompt every stage accepts: known tokens and, on a chain, at most 4096 of them. */
  predicate PromptFits(path: Path, prompt: seq<Token>) {
    InVocab(path.vocab, prompt) && (path.Chain? ==> |prompt| <= MAX_CHAIN_TOKENS)
  }

  /** Drafts every stage accepts: known tokens and, on a chain, few enough for a single request. */
  predicate DraftsFit(path: Path, drafts: seq<Token>) {
    InVocab(path.vocab, drafts) && (path.Chain? ==> |drafts| + 1 <= path.limit)
  }

  // --- one run of speculative decoding ---------------------------------------------------------

  /** A drafter may answer anything, and differently in every round. */
  type Drafter = (nat, seq<Token>, nat) -> seq<Token>

  datatype Config = Config(k: nat, adaptive: bool, stops: set<Token>, maxNew: nat, drafter: Drafter)

  datatype Stats = Stats(rounds: nat, drafted: nat, accepted: nat, emitted: nat, kUsed: seq<nat>)

  const NO_STATS := Stats(0, 0, 0, 0, [])

  /** The variables of the round loop, at its head. `context` is what every cache holds. */
  datatype SpecState = SpecState(context: seq<Token>, last: Token, produced: nat, curK: nat,
                                 out: seq<Token>, stats: Stats)

  /** `refused`: a stage or the transport would not take the tokens of a step. */
  datatype SpecEnd = SpecEnd(out: seq<Token>, stats: Stats, refused: bool)

  const MIN_K := 1

  /** Fewer than 0.3 of the drafts accepted halves the next draft; all accepted doubles it, up to k. */
  function AdaptK(c: Config, curK: nat, accepted: nat, drafted: nat): nat {
    if !c.adaptive then curK
    else if drafted > 0 && 10 * accepted < 3 * drafted then Max(MIN_K, curK / 2)
    else if accepted == drafted then Min(c.k, if curK < c.k then curK * 2 else c.k)
    else curK
  }

  function DraftsFor(c: Config, round: nat, context: seq<Token>, want: nat): (drafts: seq<Token>)
    ensures |drafts| <= want
  {
    var drafts := c.drafter(round, context, want);
    if |drafts| <= want then drafts else drafts[..want]
  }

  /** How many leading drafts the network agrees with, each given the ones before it. */
  function Matched(next: Oracle, context: seq<Token>, drafts: seq<Token>): (n: nat)
    ensures n <= |drafts|
    decreases |drafts|
  {
    if drafts == [] || drafts[0] != next(context) then 0
    else 1 + Matched(next, context + [drafts[0]], drafts[1..])
  }

  /** Which accepted drafts are yielded, and whether the stream ends among them. */
  function Emit(c: Config, produced: nat, drafts: seq<Token>): (r: (seq<Token>, bool))
    ensures r.0 <= drafts && (!r.1 ==> r.0 == drafts)
    ensures !r.1 && produced < c.maxNew ==> produced + |drafts| < c.maxNew
    decreases |drafts|
  {
    if drafts == [] then ([], false)
    else if drafts[0] in c.stops then ([], true)
    else if produced + 1 == c.maxNew then ([drafts[0]], true)
    else
      var (rest, done) := Emit(c, produced + 1, drafts[1..]);
      ([drafts[0]] + rest, done)
  }

  function AfterRound(s: Stats, drafted: nat, accepted: nat): Stats {
    s.(rounds := s.rounds + 1, drafted := s.drafted + drafted, accepted := s.accepted + accepted,
       kUsed := s.kUsed + [drafted])
  }

  /** The drafts of the round that follows the yield of `s.last`; never past the token limit. */
  function Proposal(c: Config, s: SpecState): (drafts: seq<Token>)
    requires s.produced + 1 < c.maxNew
    ensures |drafts| <= Min(s.curK, c.maxNew - s.produced - 1)
  {
    DraftsFor(c, s.stats.rounds, s.context + [s.last], Min(s.curK, c.maxNew - s.produced - 1))
  }

  /** The state after a round in which the network agreed with the first n drafts, and whether the stream
    * ended in it. */
  function Accept(next: Oracle, c: Config, s: SpecState, drafts: seq<Token>, n: nat): (r: (SpecState, bool))
    requires s.produced + 1 < c.maxNew && n <= |drafts|
    ensures !r.1 ==> s.produced < r.0.produced < c.maxNew
  {
    var context := s.context + [s.last];
    var (yielded, done) := Emit(c, s.produced + 1, drafts[..n]);
    var stats := AfterRound(s.stats.(emitted := s.stats.emitted + 1), |drafts|, n);
    (SpecState(context + drafts[..n], next(context + drafts[..n]), s.produced + 1 + |yielded|,
               AdaptK(c, s.curK, n, |drafts|), s.out + [s.last] + yielded,
               stats.(emitted := stats.emitted + |yielded|)),
     done)
  }

  function Round(next: Oracle, c: Config, s: SpecState, drafts: seq<Token>): (r: (SpecState, bool))
    requires s.produced + 1 < c.maxNew
    ensures !r.1 ==> s.produced < r.0.produced < c.maxNew
  {
    Accept(next, c, s, drafts, Matched(next, s.context + [s.last], drafts))
  }

  function SpecLoop(next: Oracle, path: Path, c: Config, s: SpecState): SpecEnd
    requires s.produced < c.maxNew
    decreases c.maxNew - s.produced
  {
    if s.last in c.stops then SpecEnd(s.out, s.stats, false)
    else if s.produced + 1 == c.maxNew then
      SpecEnd(s.out + [s.last], s.stats.(emitted := s.stats.emitted + 1), false)
    else
      var drafts := Proposal(c, s);
      if !DraftsFit(path, drafts) then
        SpecEnd(s.out + [s.last], s.stats.(emitted := s.stats.emitted + 1), true)
      else
        var (s', done) := Round(next, c, s, drafts);
        if done then SpecEnd(s'.out, s'.stats, false) else SpecLoop(next, path, c, s')
  }

  function Start(next: Oracle, c: Config, prompt: seq<Token>): SpecState
  {
    SpecState(prompt, next(prompt), 0, c.k, [], NO_STATS)
  }

  function SpecRun(next: Oracle, path: Path, c: Config, prompt: seq<Token>): SpecEnd
  {
    if c.maxNew < 1 then SpecEnd([], NO_STATS, false)
    else if !PromptFits(path, prompt) then SpecEnd([], NO_STATS, true)
    else SpecLoop(next, path, c, Start(next, c, prompt))
  }

  // --- a round yields what greedy decoding yields ----------------------------------------------

  /** Every one of `tokens` is the network's own choice after the ones before it. */
  predicate Follows(next: Oracle, context: seq<Token>, tokens: seq<Token>) {
    forall j | 0 <= j < |tokens| :: tokens[j] == next(context + tokens[..j])
  }

  lemma FollowsTail(next: Oracle, context: seq<Token>, tokens: seq<Token>)
    requires tokens != []
    ensures Follows(next, context, tokens)
        <==> tokens[0] == next(context) && Follows(next, context + [tokens[0]], tokens[1..])
  {
    var rest, context' := tokens[1..], context + [tokens[0]];
    assert context + tokens[..0] == context;
    assert forall j | 0 < j <= |tokens| :: context + tokens[..j] == context' + rest[..j - 1];
    assert forall j | 0 <= j < |rest| :: rest[j] == tokens[j + 1];
    if tokens[0] == next(context) && Follows(next, context', rest) {
      forall j | 0 <= j < |tokens|
        ensures tokens[j] == next(context + tokens[..j])
      {
        if j > 0 {
          assert rest[j - 1] == next(context' + rest[..j - 1]);
        }
      }
    }
  }

  /** Matched finds the longest prefix of drafts that the network would have chosen itself. */
  lemma {:induction false} MatchedIsLongest(next: Oracle, context: seq<Token>, drafts: seq<Token>)
    ensures Follows(next, context, drafts[..Matched(next, context, drafts)])
    ensures var n := Matched(next, context, drafts);
            n < |drafts| ==> drafts[n] != next(context + drafts[..n])
    decreases |drafts|
  {
    var n := Matched(next, context, drafts);
    if n == 0 {
      assert context + drafts[..0] == context;
    } else {
      MatchedIsLongest(next, context + [drafts[0]], drafts[1..]);
      assert drafts[..n][1..] == drafts[1..][..n - 1];
      FollowsTail(next, context, drafts[..n]);
      assert context + drafts[..n] == context + [drafts[0]] + drafts[1..][..n - 1];
    }
  }

  lemma FollowsAt(next: Oracle, context: seq<Token>, drafts: seq<Token>, n: nat, j: nat)
    requires j < n <= |drafts|
    requires Follows(next, context, drafts[..n])
    ensures drafts[j] == next(context + drafts[..j])
  {
    assert drafts[..n][..j] == drafts[..j] && drafts[..n][j] == drafts[j];
  }

  /** A comparison loop that stops at the first disagreement stops exactly at Matched. */
  lemma MatchedIsUnique(next: Oracle, context: seq<Token>, drafts: seq<Token>, n: nat)
    requires n <= |drafts|
    requires Follows(next, context, drafts[..n])
    requires n < |drafts| ==> drafts[n] != next(context + drafts[..n])
    ensures n == Matched(next, context, drafts)
  {
    MatchedIsLongest(next, context, drafts);
    var k := Matched(next, context, drafts);
    if n < k {
      FollowsAt(next, context, drafts, k, n);
    } else if k < n {
      FollowsAt(next, context, drafts, n, k);
    }
  }

  /** Yielding verified drafts is greedy decoding, including where it stops. */
  lemma {:induction false} EmitIsGreedy(next: Oracle, c: Config, context: seq<Token>, produced: nat, drafts: seq<Token>)
    requires produced < c.maxNew
    requires Follows(next, context, drafts)
    ensures var (yielded, done) := Emit(c, produced, drafts);
            var budget := c.maxNew - produced;
            && (done ==> Greedy(next, context, budget, c.stops) == yielded)
            && (!done ==> Greedy(next, context, budget, c.stops)
                          == drafts + Greedy(next, context + drafts, budget - |drafts|, c.stops))
    decreases |drafts|
  {
    hide Follows, Greedy;
    if drafts == [] {
      assert context + drafts == context;
    } else {
      FollowsTail(next, context, drafts);
      GreedyStep(next, context, c.maxNew - produced, c.stops);
      if drafts[0] !in c.stops {
        var context', rest := context + [drafts[0]], drafts[1..];
        if produced + 1 == c.maxNew {
          NoBudget(next, context', c.stops);
        } else {
          EmitIsGreedy(next, c, context', produced + 1, rest);
          assert context' + rest == context + drafts && [drafts[0]] + rest == drafts;
          if !Emit(c, produced, drafts).1 {
            Assoc([drafts[0]], rest, Greedy(next, context + drafts, c.maxNew - produced - |drafts|, c.stops));
          }
        }
      }
    }
  }

  lemma NoBudget(next: Oracle, context: seq<Token>, stops: set<Token>)
    ensures Greedy(next, context, 0, stops) == []
  {
  }

  /** What the greedy stream is, without a recursion: the one stream of the network's own choices that holds
    * no stop token, is no longer than the budget, and is shorter only where a stop token comes next. */
  lemma {:induction false} GreedyIsTheStream(next: Oracle, context: seq<Token>, budget: nat, stops: set<Token>,
                                             out: seq<Token>)
    ensures out == Greedy(next, context, budget, stops)
       <==> && Follows(next, context, out) && (forall t | t in out :: t !in stops) && |out| <= budget
            && (|out| < budget ==> next(context + out) in stops)
    decreases budget
  {
    hide Follows;
    if out == [] {
      NothingFollows(next, context);
      assert context + [] == context;
    } else {
      FollowsTail(next, context, out);
      var rest := out[1..];
      assert out == [out[0]] + rest;
      assert forall t :: t in out <==> t == out[0] || t in rest;
      if budget > 0 && out[0] == next(context) {
        GreedyIsTheStream(next, context + [out[0]], budget - 1, stops, rest);
        assert context + [out[0]] + rest == context + out;
      }
    }
  }

  lemma NothingFollows(next: Oracle, context: seq<Token>)
    ensures Follows(next, context, [])
  {
  }

  /** The whole stream, as plain greedy decoding would go on from this round head. */
  function Rest(next: Oracle, c: Config, s: SpecState): seq<Token>
    requires s.produced <= c.maxNew
  {
    s.out + Greedy(next, s.context, c.maxNew - s.produced, c.stops)
  }

  lemma GreedyStep(next: Oracle, context: seq<Token>, budget: nat, stops: set<Token>)
    requires budget > 0
    ensures Greedy(next, context, budget, stops) ==
            if next(context) in stops then []
            else [next(context)] + Greedy(next, context + [next(context)], budget - 1, stops)
  {
  }

  /** One round moves along the greedy stream. */
  lemma RoundIsGreedy(next: Oracle, c: Config, s: SpecState, drafts: seq<Token>)
    requires s.produced + 1 < c.maxNew
    requires s.last == next(s.context) && s.last !in c.stops
    ensures var (s', done) := Round(next, c, s, drafts);
            && s'.last == next(s'.context)
            && (done ==> Rest(next, c, s) == s'.out)
            && (!done ==> Rest(next, c, s) == Rest(next, c, s'))
  {
    hide Greedy, Emit, Matched, AdaptK, AfterRound, Follows, SpecLoop, Proposal, DraftsFor;
    var context, budget := s.context + [s.last], c.maxNew - s.produced - 1;
    var n := Matched(next, context, drafts);
    var good := drafts[..n];
    var ahead := Greedy(next, context, budget, c.stops);
    GreedyStep(next, s.context, budget + 1, c.stops);
    Assoc(s.out, [s.last], ahead);
    MatchedIsLongest(next, context, drafts);
    EmitIsGreedy(next, c, context, s.produced + 1, good);
    if !Emit(c, s.produced + 1, good).1 {
      Assoc(s.out + [s.last], good, Greedy(next, context + good, budget - n, c.stops));
    }
  }

  /** From any round head on: what is still yielded is what greedy decoding still yields. */
  lemma {:induction false} LoopIsGreedy(next: Oracle, path: Path, c: Config, s: SpecState)
    requires s.produced < c.maxNew
    requires s.last == next(s.context)
    ensures var end := SpecLoop(next, path, c, s);
            end.out <= Rest(next, c, s) && (!end.refused ==> end.out == Rest(next, c, s))
    decreases c.maxNew - s.produced
  {
    if s.last !in c.stops && s.produced + 1 < c.maxNew {
      var drafts := Proposal(c, s);
      RoundIsGreedy(next, c, s, drafts);
      var (s', done) := Round(next, c, s, drafts);
      if DraftsFit(path, drafts) && !done {
        LoopIsGreedy(next, path, c, s');
      }
    }
  }

  /** What has been yielded stays, and a token that does not end the stream is yielded. */
  lemma {:induction false} LoopKeepsOut(next: Oracle, path: Path, c: Config, s: SpecState)
    requires s.produced < c.maxNew
    ensures s.out <= SpecLoop(next, path, c, s).out
    ensures s.last !in c.stops ==> s.out + [s.last] <= SpecLoop(next, path, c, s).out
    decreases c.maxNew - s.produced
  {
    hide DraftsFit, Matched, Emit, AdaptK, AfterRound, Proposal;
    if s.last !in c.stops && s.produced + 1 < c.maxNew {
      var drafts := Proposal(c, s);
      var (s', done) := Round(next, c, s, drafts);
      if DraftsFit(path, drafts) && !done {
        LoopKeepsOut(next, path, c, s');
      }
    }
  }

  /** Main result: speculative decoding yields exactly the plain greedy stream, for every model, drafter,
    * k, adaptive setting, stop set and token limit. A refused step can only cut the stream short. */
  lemma SpeculativeIsGreedy(next: Oracle, path: Path, c: Config, prompt: seq<Token>)
    ensures var end := SpecRun(next, path, c, prompt);
            var plain := Greedy(next, prompt, c.maxNew, c.stops);
            end.out <= plain && (!end.refused ==> end.out == plain)
  {
    if c.maxNew >= 1 && PromptFits(path, prompt) {
      LoopIsGreedy(next, path, c, Start(next, c, prompt));
      assert [] + Greedy(next, prompt, c.maxNew, c.stops) == Greedy(next, prompt, c.maxNew, c.stops);
    }
  }
}
