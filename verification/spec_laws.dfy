/** Cost and failure of speculative decoding, over whole runs. */
module SpecLaws {
  import opened Basics
  import opened Decoding

  function Sum(s: seq<nat>): nat {
    if s == [] then 0 else Sum(s[..|s| - 1]) + s[|s| - 1]
  }

  /** What holds at every round head. `emitted` counts one token per round plus the accepted drafts. */
  ghost predicate HeadOk(c: Config, s: SpecState) {
    && 1 <= s.curK <= c.k
    && s.produced == |s.out| == s.stats.emitted == s.stats.rounds + s.stats.accepted
    && BooksBalance(c, s.stats)
  }

  ghost predicate BooksBalance(c: Config, stats: Stats) {
    && stats.accepted <= stats.drafted == Sum(stats.kUsed)
    && |stats.kUsed| == stats.rounds
    && forall i | 0 <= i < |stats.kUsed| :: stats.kUsed[i] <= c.k
  }

  lemma RoundKeepsBooks(next: Oracle, c: Config, s: SpecState, drafts: seq<Token>)
    requires HeadOk(c, s) && s.produced + 1 < c.maxNew
    requires |drafts| <= c.k
    ensures var (s', done) := Round(next, c, s, drafts);
            && BooksBalance(c, s'.stats)
            && s'.stats.rounds == s.stats.rounds + 1
            && s'.stats.emitted == |s'.out| == s'.produced
            && s.produced < s'.produced <= c.maxNew
            && s'.produced <= s'.stats.rounds + s'.stats.accepted
            && (!done ==> HeadOk(c, s'))
  {
    var n := Matched(next, s.context + [s.last], drafts);
    var (s', done) := Round(next, c, s, drafts);
    assert s'.stats.kUsed[..|s'.stats.kUsed| - 1] == s.stats.kUsed;
    EmitFits(c, s.produced + 1, drafts[..n]);
  }

  lemma EmitFits(c: Config, produced: nat, drafts: seq<Token>)
    requires produced < c.maxNew
    ensures produced + |Emit(c, produced, drafts).0| <= c.maxNew
    decreases |drafts|
  {
    if drafts != [] && produced + 1 < c.maxNew {
      EmitFits(c, produced + 1, drafts[1..]);
    }
  }

  lemma {:induction false} LoopBooks(next: Oracle, path: Path, c: Config, s: SpecState)
    requires s.produced < c.maxNew && HeadOk(c, s)
    ensures var end := SpecLoop(next, path, c, s);
            && BooksBalance(c, end.stats)
            && end.stats.emitted == |end.out| <= 1 + end.stats.rounds + end.stats.accepted
            && 1 + end.stats.rounds <= PlainSteps(|end.out|, c.maxNew)
    decreases c.maxNew - s.produced
  {
    if s.last !in c.stops && s.produced + 1 < c.maxNew {
      var drafts := Proposal(c, s);
      RoundKeepsBooks(next, c, s, drafts);
      var (s', done) := Round(next, c, s, drafts);
      if DraftsFit(path, drafts) && !done {
        LoopBooks(next, path, c, s');
      }
    }
  }

  /** The statistics of a run add up, and speculation never takes more trips through the network than
    * plain decoding takes for the same stream, whatever ends it. */
  lemma SpeculationNeverCostsMoreTrips(next: Oracle, path: Path, c: Config, prompt: seq<Token>)
    requires c.k >= 1
    ensures var end := SpecRun(next, path, c, prompt);
            && |end.stats.kUsed| == end.stats.rounds
            && end.stats.accepted <= end.stats.drafted == Sum(end.stats.kUsed)
            && end.stats.emitted == |end.out| <= c.maxNew
            && end.stats.emitted <= 1 + end.stats.rounds + end.stats.accepted
            && (c.maxNew >= 1 ==> 1 + end.stats.rounds <= PlainSteps(|end.out|, c.maxNew))
            && (forall i | 0 <= i < |end.stats.kUsed| :: end.stats.kUsed[i] <= c.k)
  {
    if c.maxNew >= 1 && PromptFits(path, prompt) {
      LoopBooks(next, path, c, Start(next, c, prompt));
      SpeculativeIsGreedy(next, path, c, prompt);
    }
  }

  /** Two drafters that answer alike whenever they are asked for 1 up to k tokens. */
  ghost predicate AlikeUpTo(k: int, d: Drafter, e: Drafter) {
    forall round: nat, context: seq<Token>, want: nat | 1 <= want <= k ::
      d(round, context, want) == e(round, context, want)
  }

  lemma {:induction false} LoopAsksWithinBounds(next: Oracle, path: Path, c: Config, e: Drafter, s: SpecState)
    requires s.produced < c.maxNew && 1 <= s.curK <= c.k
    requires AlikeUpTo(Min(c.k, c.maxNew - 1), c.drafter, e)
    ensures SpecLoop(next, path, c, s) == SpecLoop(next, path, c.(drafter := e), s)
    decreases c.maxNew - s.produced
  {
    if s.last !in c.stops && s.produced + 1 < c.maxNew {
      RoundAsksWithinBounds(next, c, e, s);
      hide Round, Proposal, DraftsFit;
      var drafts := Proposal(c, s);
      var (s', done) := Round(next, c, s, drafts);
      if DraftsFit(path, drafts) && !done {
        LoopAsksWithinBounds(next, path, c, e, s');
      }
    }
  }

  lemma RoundAsksWithinBounds(next: Oracle, c: Config, e: Drafter, s: SpecState)
    requires s.produced + 1 < c.maxNew && 1 <= s.curK <= c.k
    requires AlikeUpTo(Min(c.k, c.maxNew - 1), c.drafter, e)
    ensures Proposal(c.(drafter := e), s) == Proposal(c, s)
    ensures Round(next, c.(drafter := e), s, Proposal(c, s)) == Round(next, c, s, Proposal(c, s))
    ensures 1 <= Round(next, c, s, Proposal(c, s)).0.curK <= c.k
  {
    hide Emit, Matched;
    var want := Min(s.curK, c.maxNew - s.produced - 1);
    assert c.drafter(s.stats.rounds, s.context + [s.last], want) == e(s.stats.rounds, s.context + [s.last], want);
    var drafts := Proposal(c, s);
    EmitIgnoresDrafter(c, e, s.produced + 1, drafts[..Matched(next, s.context + [s.last], drafts)]);
  }

  lemma {:induction false} EmitIgnoresDrafter(c: Config, e: Drafter, produced: nat, drafts: seq<Token>)
    ensures Emit(c.(drafter := e), produced, drafts) == Emit(c, produced, drafts)
    decreases |drafts|
  {
    if drafts != [] {
      EmitIgnoresDrafter(c, e, produced + 1, drafts[1..]);
    }
  }

  /** Adaptive k stays within 1 and k, and no draft reaches past the token limit: a run only ever asks the
    * drafter for 1 up to min(k, maxNew - 1) tokens, so what it would answer otherwise makes no difference. */
  lemma DrafterIsAskedWithinBounds(next: Oracle, path: Path, c: Config, e: Drafter, prompt: seq<Token>)
    requires c.k >= 1 && AlikeUpTo(Min(c.k, c.maxNew - 1), c.drafter, e)
    ensures SpecRun(next, path, c, prompt) == SpecRun(next, path, c.(drafter := e), prompt)
  {
    if c.maxNew >= 1 && PromptFits(path, prompt) {
      LoopAsksWithinBounds(next, path, c, e, Start(next, c, prompt));
    }
  }

  // --- when a step is refused ------------------------------------------------------------------

  /** A drafter that only ever proposes tokens the target's embedding knows. */
  ghost predicate KnownDrafter(vocab: nat, d: Drafter) {
    forall round: nat, context: seq<Token>, want: nat :: InVocab(vocab, d(round, context, want))
  }

  lemma {:induction false} ShortKnownDraftsFit(next: Oracle, path: Path, c: Config, s: SpecState)
    requires s.produced < c.maxNew && 1 <= s.curK <= c.k
    requires exists v: nat :: v <= path.vocab && KnownDrafter(v, c.drafter)
    requires path.Chain? ==> Min(c.k, c.maxNew - 1) < path.limit
    ensures !SpecLoop(next, path, c, s).refused
    decreases c.maxNew - s.produced
  {
    if s.last !in c.stops && s.produced + 1 < c.maxNew {
      var drafts := Proposal(c, s);
      var v: nat :| v <= path.vocab && KnownDrafter(v, c.drafter);
      assert InVocab(v, c.drafter(s.stats.rounds, s.context + [s.last],
                                           Min(s.curK, c.maxNew - s.produced - 1)));
      assert forall t | t in drafts ::
          t in c.drafter(s.stats.rounds, s.context + [s.last], Min(s.curK, c.maxNew - s.produced - 1));
      var (s', done) := Round(next, c, s, drafts);
      if !done {
        ShortKnownDraftsFit(next, path, c, s');
      }
    }
  }

  /** Proposes the full length every time, always the same token. */
  function EagerDrafter(t: Token): Drafter {
    (round: nat, context: seq<Token>, want: nat) => seq(want, _ => t)
  }

  /** A network picks tokens of its own vocabulary. */
  ghost predicate PicksFrom(vocab: nat, next: Oracle) {
    forall context :: 0 <= next(context) < vocab
  }

  predicate AllStop(vocab: nat, stops: set<Token>) {
    forall t | 0 <= t < vocab :: t in stops
  }

  /** Exactly when speculation delivers what the module promises. For every network, prompt and drafter of
    * `v` tokens the stream is the plain greedy one, if and only if the drafter's vocabulary is no larger than
    * the target's and, on a chain, k (or the token limit) keeps a verification step within one request. With
    * a limit of one token nothing is ever drafted; if every token stops, neither. */
  lemma SpeculationIsExactIff(path: Path, c: Config, v: nat)
    requires path.vocab > 0 && (path.Chain? ==> path.limit >= 1) && v > 0
    requires c.k >= 1 && c.maxNew >= 1
    ensures (forall next: Oracle, d: Drafter, prompt: seq<Token> |
               PicksFrom(path.vocab, next) && KnownDrafter(v, d) && prompt != [] && PromptFits(path, prompt) ::
               SpecRun(next, path, c.(drafter := d), prompt).out == Greedy(next, prompt, c.maxNew, c.stops))
       <==> || c.maxNew == 1 || AllStop(path.vocab, c.stops)
            || (v <= path.vocab && (path.Chain? ==> Min(c.k, c.maxNew - 1) < path.limit))
  {
    hide SpecRun, Greedy;
    if c.maxNew == 1 || AllStop(path.vocab, c.stops)
       || (v <= path.vocab && (path.Chain? ==> Min(c.k, c.maxNew - 1) < path.limit)) {
      forall next: Oracle, d: Drafter, prompt: seq<Token> |
        PicksFrom(path.vocab, next) && KnownDrafter(v, d) && prompt != [] && PromptFits(path, prompt)
        ensures SpecRun(next, path, c.(drafter := d), prompt).out == Greedy(next, prompt, c.maxNew, c.stops)
      {
        if AllStop(path.vocab, c.stops) {
          NothingStarts(next, path, c.(drafter := d), prompt);
        } else {
          KnownDrafterIsExact(next, path, c.(drafter := d), prompt, v);
        }
      }
    } else {
      var t: Token :| 0 <= t < path.vocab && t !in c.stops;
      var draft := if v > path.vocab then path.vocab else 0;
      var d, next: Oracle := EagerDrafter(draft), _ => t;
      RefusedStepEndsTheStream(next, path, c.(drafter := d), [0], draft);
      assert PicksFrom(path.vocab, next) && KnownDrafter(v, d) && PromptFits(path, [0]);
    }
  }

  lemma NothingStarts(next: Oracle, path: Path, c: Config, prompt: seq<Token>)
    requires c.maxNew >= 1 && PromptFits(path, prompt) && next(prompt) in c.stops
    ensures SpecRun(next, path, c, prompt).out == Greedy(next, prompt, c.maxNew, c.stops) == []
  {
  }

  lemma KnownDrafterIsExact(next: Oracle, path: Path, c: Config, prompt: seq<Token>, v: nat)
    requires c.k >= 1 && c.maxNew >= 1 && KnownDrafter(v, c.drafter) && PromptFits(path, prompt)
    requires c.maxNew == 1 || (v <= path.vocab && (path.Chain? ==> Min(c.k, c.maxNew - 1) < path.limit))
    ensures SpecRun(next, path, c, prompt).out == Greedy(next, prompt, c.maxNew, c.stops)
  {
    if c.maxNew > 1 {
      ShortKnownDraftsFit(next, path, c, Start(next, c, prompt));
    }
    SpeculativeIsGreedy(next, path, c, prompt);
  }

  /** A network that never stops, a drafter that proposes all it may, and a first draft that is unknown or too
    * long: the stream ends after one token. */
  lemma RefusedStepEndsTheStream(next: Oracle, path: Path, c: Config, prompt: seq<Token>, t: Token)
    requires PromptFits(path, prompt) && c.drafter == EagerDrafter(t) && c.k >= 1 && c.maxNew >= 2
    requires t >= path.vocab || (path.Chain? && Min(c.k, c.maxNew - 1) >= path.limit)
    requires forall context :: next(context) !in c.stops
    ensures |SpecRun(next, path, c, prompt).out| == 1 < |Greedy(next, prompt, c.maxNew, c.stops)|
  {
    var drafts := Proposal(c, Start(next, c, prompt));
    assert drafts[0] == t && drafts[0] in drafts;
    assert !DraftsFit(path, drafts);
    assert Greedy(next, prompt + [next(prompt)], c.maxNew - 1, c.stops) != [];
  }

  /** Nothing checks a drafter's answer against the target's vocabulary before it is fed: one unknown
    * token in the first draft ends the stream after its first token, on every path. */
  lemma UnknownDraftEndsTheStream(next: Oracle, path: Path, c: Config, prompt: seq<Token>)
    requires c.k >= 1 && c.maxNew >= 2
    requires PromptFits(path, prompt) && next(prompt) !in c.stops
    requires !InVocab(path.vocab, DraftsFor(c, 0, prompt + [next(prompt)], Min(c.k, c.maxNew - 1)))
    ensures var end := SpecRun(next, path, c, prompt);
            end.refused && end.out == [next(prompt)]
  {
  }

  // --- a drafter that is always right ----------------------------------------------------------

  ghost predicate Perfect(next: Oracle, d: Drafter) {
    forall round: nat, context: seq<Token>, want: nat ::
      d(round, context, want) == Greedy(next, context, want, {})
  }

  lemma {:induction false} GreedyFollows(next: Oracle, context: seq<Token>, n: nat)
    ensures |Greedy(next, context, n, {})| == n
    ensures Follows(next, context, Greedy(next, context, n, {}))
    decreases n
  {
    if n > 0 {
      var t := next(context);
      GreedyFollows(next, context + [t], n - 1);
      FollowsTail(next, context, Greedy(next, context, n, {}));
    }
  }

  /** Every round so far was full and accepted whole. */
  ghost predicate OnSchedule(c: Config, s: SpecState) {
    && s.curK == c.k && s.stats.accepted == s.stats.drafted
    && s.produced == |s.out| == s.stats.rounds * (c.k + 1)
  }

  lemma PerfectRound(next: Oracle, c: Config, s: SpecState)
    requires s.produced + 1 < c.maxNew && OnSchedule(c, s)
    requires c.k >= 1 && Perfect(next, c.drafter)
    ensures var (s', done) := Round(next, c, s, Proposal(c, s));
            && s'.stats.accepted == s'.stats.drafted
            && (!done ==> OnSchedule(c, s'))
            && s'.stats.rounds * (c.k + 1) <= |s'.out| + c.k
  {
    var context, want := s.context + [s.last], Min(c.k, c.maxNew - s.produced - 1);
    var drafts := Proposal(c, s);
    assert c.drafter(s.stats.rounds, context, want) == Greedy(next, context, want, {});
    GreedyFollows(next, context, want);
    assert drafts == Greedy(next, context, want, {}) && drafts[..|drafts|] == drafts;
    MatchedIsUnique(next, context, drafts, |drafts|);
    assert (s.stats.rounds + 1) * (c.k + 1) == s.produced + c.k + 1;
  }

  lemma {:induction false} PerfectLoop(next: Oracle, path: Path, c: Config, s: SpecState)
    requires s.produced < c.maxNew && OnSchedule(c, s)
    requires c.k >= 1 && Perfect(next, c.drafter)
    ensures var end := SpecLoop(next, path, c, s);
            && end.stats.accepted == end.stats.drafted
            && end.stats.rounds * (c.k + 1) <= |end.out| + c.k
    decreases c.maxNew - s.produced
  {
    if s.last !in c.stops && s.produced + 1 < c.maxNew {
      PerfectRound(next, c, s);
      var (s', done) := Round(next, c, s, Proposal(c, s));
      if DraftsFit(path, Proposal(c, s)) && !done {
        PerfectLoop(next, path, c, s');
      }
    }
  }

  /** A drafter that agrees with the network has every draft accepted, and a round yields k + 1 tokens. */
  lemma PerfectDrafterSavesTrips(next: Oracle, path: Path, c: Config, prompt: seq<Token>)
    requires c.k >= 1 && Perfect(next, c.drafter)
    ensures var end := SpecRun(next, path, c, prompt);
            && end.stats.accepted == end.stats.drafted
            && end.stats.rounds * (c.k + 1) <= |end.out| + c.k
  {
    if c.maxNew >= 1 && PromptFits(path, prompt) {
      PerfectLoop(next, path, c, Start(next, c, prompt));
    }
  }

  // --- a drafter that is always wrong ----------------------------------------------------------

  /** Every draft starts with a token the network would not choose. */
  ghost predicate Hopeless(next: Oracle, d: Drafter) {
    forall round: nat, context: seq<Token>, want: nat | want > 0 ::
      d(round, context, want) != [] && d(round, context, want)[0] != next(context)
  }

  function Halved(k: nat, times: nat): nat {
    if times == 0 then k else Max(1, Halved(k, times - 1) / 2)
  }

  /** Every round so far yielded its one token and nothing more, and k was halved after each of them. */
  ghost predicate Shrinking(c: Config, s: SpecState) {
    && s.curK == Halved(c.k, s.stats.rounds) >= 1
    && s.produced == |s.out| == s.stats.rounds && s.stats.accepted == 0
    && |s.stats.kUsed| == s.stats.rounds
    && forall i | 0 <= i < |s.stats.kUsed| :: s.stats.kUsed[i] <= Halved(c.k, i)
  }

  lemma HopelessRound(next: Oracle, c: Config, s: SpecState)
    requires s.produced + 1 < c.maxNew && Shrinking(c, s) && c.adaptive && Hopeless(next, c.drafter)
    ensures var (s', done) := Round(next, c, s, Proposal(c, s)); !done && Shrinking(c, s')
  {
  }

  lemma {:induction false} HopelessLoop(next: Oracle, path: Path, c: Config, s: SpecState)
    requires s.produced < c.maxNew && Shrinking(c, s) && c.adaptive && Hopeless(next, c.drafter)
    ensures var end := SpecLoop(next, path, c, s);
            && end.stats.accepted == 0
            && (!end.refused ==> 1 + end.stats.rounds == PlainSteps(|end.out|, c.maxNew))
            && forall i | 0 <= i < |end.stats.kUsed| :: end.stats.kUsed[i] <= Halved(c.k, i)
    decreases c.maxNew - s.produced
  {
    if s.last !in c.stops && s.produced + 1 < c.maxNew {
      HopelessRound(next, c, s);
      if DraftsFit(path, Proposal(c, s)) {
        HopelessLoop(next, path, c, Round(next, c, s, Proposal(c, s)).0);
      }
    }
  }

  /** A drafter that is always wrong costs no trips: as many as plain decoding takes, and with adaptive k
    * the drafts are halved from round to round down to one token. */
  lemma HopelessDrafterCostsNoTrips(next: Oracle, path: Path, c: Config, prompt: seq<Token>)
    requires c.k >= 1 && c.adaptive && c.maxNew >= 1 && Hopeless(next, c.drafter)
    ensures var end := SpecRun(next, path, c, prompt);
            && end.stats.accepted == 0
            && (!end.refused ==> 1 + end.stats.rounds == PlainSteps(|end.out|, c.maxNew))
            && forall i | 0 <= i < |end.stats.kUsed| :: end.stats.kUsed[i] <= Halved(c.k, i)
  {
    if PromptFits(path, prompt) {
      HopelessLoop(next, path, c, Start(next, c, prompt));
    }
  }

  // --- a drafter that is right often enough ----------------------------------------------------

  /** Proposes as many tokens as it is asked for, at least 3 in 10 of them right. */
  ghost predicate Decent(next: Oracle, d: Drafter) {
    forall round: nat, context: seq<Token>, want: nat | want > 0 ::
      && |d(round, context, want)| >= want
      && 10 * Matched(next, context, d(round, context, want)[..want]) >= 3 * want
  }

  /** Every draft so far had k tokens, or all there was room for. */
  ghost predicate FullDrafts(c: Config, out: seq<Token>, kUsed: seq<nat>) {
    forall i | 0 <= i < |kUsed| :: kUsed[i] == c.k || (kUsed[i] < c.k && |out| + kUsed[i] >= c.maxNew)
  }

  lemma DecentRound(next: Oracle, c: Config, s: SpecState)
    requires s.produced + 1 < c.maxNew && s.produced == |s.out| && s.curK == c.k >= 1
    requires Decent(next, c.drafter) && FullDrafts(c, s.out, s.stats.kUsed)
    ensures var (s', done) := Round(next, c, s, Proposal(c, s));
            && s'.produced == |s'.out| && s'.curK == c.k
            && FullDrafts(c, s'.out, s'.stats.kUsed) && s.out + [s.last] <= s'.out
            && 10 * s'.stats.accepted - 10 * s.stats.accepted >= 3 * (s'.stats.drafted - s.stats.drafted)
  {
    hide Emit, Matched;
    var context, want := s.context + [s.last], Min(c.k, c.maxNew - s.produced - 1);
    var drafts := Proposal(c, s);
    assert |c.drafter(s.stats.rounds, context, want)| >= want;
    assert drafts == c.drafter(s.stats.rounds, context, want)[..want];
  }

  lemma {:induction false} DecentLoop(next: Oracle, path: Path, c: Config, s: SpecState)
    requires s.produced < c.maxNew && s.produced == |s.out| && s.curK == c.k >= 1
    requires Decent(next, c.drafter) && FullDrafts(c, s.out, s.stats.kUsed)
    requires 10 * s.stats.accepted >= 3 * s.stats.drafted
    ensures var end := SpecLoop(next, path, c, s);
            FullDrafts(c, end.out, end.stats.kUsed) && 10 * end.stats.accepted >= 3 * end.stats.drafted
    decreases c.maxNew - s.produced
  {
    if s.last !in c.stops && s.produced + 1 < c.maxNew {
      DecentRound(next, c, s);
      var (s', done) := Round(next, c, s, Proposal(c, s));
      if DraftsFit(path, Proposal(c, s)) && !done {
        DecentLoop(next, path, c, s');
      }
    }
  }

  /** As long as a drafter gets 3 in 10 right, adaptive k never lets its drafts shrink: each has k tokens, or
    * all the token limit leaves room for. */
  lemma DecentDrafterKeepsK(next: Oracle, path: Path, c: Config, prompt: seq<Token>)
    requires c.k >= 1 && Decent(next, c.drafter)
    ensures var end := SpecRun(next, path, c, prompt);
            && (forall i | 0 <= i < |end.stats.kUsed| ::
                  end.stats.kUsed[i] == c.k || (end.stats.kUsed[i] < c.k && |end.out| + end.stats.kUsed[i] >= c.maxNew))
            && 10 * end.stats.accepted >= 3 * end.stats.drafted
  {
    if c.maxNew >= 1 && PromptFits(path, prompt) {
      DecentLoop(next, path, c, Start(next, c, prompt));
    }
  }

  // --- how k comes back -------------------------------------------------------------------------

  /** Proposes at least as many tokens as it is asked for. */
  ghost predicate Obliging(d: Drafter) {
    forall round: nat, context: seq<Token>, want: nat :: |d(round, context, want)| >= want
  }

  function Doubled(k: nat, times: nat): nat {
    if times == 0 then k else 2 * Doubled(k, times - 1)
  }

  /** The draft of a round: all of k, or all there was room for. */
  predicate DraftOf(c: Config, k: nat, out: seq<Token>, n: nat) {
    n == k || (n < k && |out| + n >= c.maxNew)
  }

  lemma {:induction false} DoublingStep(k: nat, curK: nat, i: nat)
    requires 1 <= curK <= k
    ensures Min(k, Doubled(Min(k, 2 * curK), i)) == Min(k, Doubled(curK, i + 1))
    ensures Doubled(curK, i) >= 1
    decreases i
  {
    if i > 0 {
      DoublingStep(k, curK, i - 1);
    }
  }

  /** What a run adds to its statistics from a round head on. */
  lemma {:induction false} LoopAdds(next: Oracle, path: Path, c: Config, s: SpecState)
    requires s.produced < c.maxNew
    ensures var end := SpecLoop(next, path, c, s);
            && s.stats.kUsed <= end.stats.kUsed
            && end.stats.accepted - s.stats.accepted <= end.stats.drafted - s.stats.drafted
    decreases c.maxNew - s.produced
  {
    if s.last !in c.stops && s.produced + 1 < c.maxNew {
      hide Emit, Matched, AdaptK, DraftsFit, Proposal;
      var (s', done) := Round(next, c, s, Proposal(c, s));
      if DraftsFit(path, Proposal(c, s)) && !done {
        LoopAdds(next, path, c, s');
      }
    }
  }

  /** A round that accepts all it drafted. */
  lemma FullRound(next: Oracle, c: Config, s: SpecState)
    requires c.adaptive && s.produced + 1 < c.maxNew && s.produced == |s.out| && 1 <= s.curK <= c.k
    requires Obliging(c.drafter)
    ensures var drafts, (s', done) := Proposal(c, s), Round(next, c, s, Proposal(c, s));
            && s'.stats.kUsed == s.stats.kUsed + [|drafts|] && s'.stats.drafted == s.stats.drafted + |drafts|
            && s.stats.accepted <= s'.stats.accepted <= s.stats.accepted + |drafts|
            && s'.produced == |s'.out| > |s.out|
            && DraftOf(c, s.curK, s'.out, |drafts|)
            && (s'.stats.accepted == s.stats.accepted + |drafts| ==> s'.curK == Min(c.k, 2 * s.curK))
  {
    hide Emit, Matched;
    var context, want := s.context + [s.last], Min(s.curK, c.maxNew - s.produced - 1);
    assert |c.drafter(s.stats.rounds, context, want)| >= want;
  }

  /** The drafts from number `from` on double from curK up to k. */
  ghost predicate Doubling(c: Config, curK: nat, from: nat, end: SpecEnd) {
    forall i: nat | from + i < |end.stats.kUsed| ::
      DraftOf(c, Min(c.k, Doubled(curK, i)), end.out, end.stats.kUsed[from + i])
  }

  lemma OneMoreDoubling(c: Config, curK: nat, from: nat, end: SpecEnd)
    requires 1 <= curK <= c.k && from < |end.stats.kUsed|
    requires DraftOf(c, curK, end.out, end.stats.kUsed[from]) && Doubling(c, Min(c.k, 2 * curK), from + 1, end)
    ensures Doubling(c, curK, from, end)
  {
    forall i: nat | from + i < |end.stats.kUsed|
      ensures DraftOf(c, Min(c.k, Doubled(curK, i)), end.out, end.stats.kUsed[from + i])
    {
      if i > 0 {
        DoublingStep(c.k, curK, i - 1);
        assert end.stats.kUsed[from + i] == end.stats.kUsed[from + 1 + (i - 1)];
      }
    }
  }

  /** k comes back. If from some round head on every draft is accepted, then the drafts double from round to
    * round up to the k asked for: draft number i has min(k, 2 ^ i * curK) tokens, or all the token limit leaves. */
  lemma {:induction false} FullRoundsRestoreK(next: Oracle, path: Path, c: Config, s: SpecState)
    requires c.adaptive && s.produced < c.maxNew && s.produced == |s.out| && 1 <= s.curK <= c.k
    requires Obliging(c.drafter)
    requires var end := SpecLoop(next, path, c, s);
             end.stats.accepted - s.stats.accepted == end.stats.drafted - s.stats.drafted
    ensures var end := SpecLoop(next, path, c, s);
            s.stats.kUsed <= end.stats.kUsed && |s.out| <= |end.out| && Doubling(c, s.curK, |s.stats.kUsed|, end)
    decreases c.maxNew - s.produced
  {
    hide Round, Proposal, DraftsFit, Doubling, DraftOf, Obliging;
    var end := SpecLoop(next, path, c, s);
    if s.last !in c.stops && s.produced + 1 < c.maxNew && DraftsFit(path, Proposal(c, s)) {
      FullRound(next, c, s);
      var (s', done) := Round(next, c, s, Proposal(c, s));
      if done {
        NoDoubling(c, Min(c.k, 2 * s.curK), end);
      } else {
        LoopAdds(next, path, c, s');
        FullRoundsRestoreK(next, path, c, s');
        LongerDraftOf(c, s.curK, s'.out, end.out, |Proposal(c, s)|);
      }
      OneMoreDoubling(c, s.curK, |s.stats.kUsed|, end);
    } else {
      NoDoubling(c, s.curK, end);
    }
  }

  lemma NoDoubling(c: Config, curK: nat, end: SpecEnd)
    ensures Doubling(c, curK, |end.stats.kUsed|, end)
  {
  }

  lemma LongerDraftOf(c: Config, k: nat, out: seq<Token>, longer: seq<Token>, n: nat)
    requires DraftOf(c, k, out, n) && |out| <= |longer|
    ensures DraftOf(c, k, longer, n)
  {
  }
}
