/** commonnet/net/server.py: a block server. It runs one block, embeds token ids and picks tokens where it
  * is an end of the model, rolls a session back when a step asks for it, and answers an exact repeat of
  * the last step from a saved reply.
  */
module Server {
  import opened Basics
  import opened CausalModel
  import opened Block
  import opened MlxBlock
  import opened Decoding

  /** The two kinds of block a server can hold. */
  datatype AnyBlock = Torch(torch: BlockRange) | Mlx(mlx: MlxBlockRange) {

    function Root(): object {
      match this
      case Torch(b) => b
      case Mlx(b) => b
    }

    function Layers(): seq<Layer> {
      match this
      case Torch(b) => b.layers
      case Mlx(b) => b.layers
    }

    ghost function Repr(): set<object>
      reads Root()
    {
      match this
      case Torch(b) => b.Repr
      case Mlx(b) => b.Repr
    }

    ghost function Hist(): History
      reads Root()
    {
      match this
      case Torch(b) => b.hist
      case Mlx(b) => b.hist
    }

    ghost predicate Valid()
      reads Root(), Repr()
    {
      match this
      case Torch(b) => b.Valid()
      case Mlx(b) => b.Valid()
    }

    method Forward(id: SessionId, hidden: seq<Hidden>, startPos: nat) returns (r: Result<seq<Hidden>, BlockError>)
      requires Valid()
      modifies Repr()
      ensures Valid() && fresh(Repr() - old(Repr()))
      ensures r == AfterForward(Layers(), old(Hist()), id, hidden, startPos).0
      ensures Hist() == AfterForward(Layers(), old(Hist()), id, hidden, startPos).1
    {
      match this {
        case Torch(b) => r := b.Forward(id, hidden, startPos);
        case Mlx(b) => r := b.Forward(id, hidden, startPos);
      }
    }

    method Truncate(id: SessionId, length: nat) returns (r: Result<(), BlockError>)
      requires Valid()
      modifies Repr()
      ensures Valid() && Repr() == old(Repr())
      ensures r == AfterTruncate(old(Hist()), id, length).0 && Hist() == AfterTruncate(old(Hist()), id, length).1
    {
      match this {
        case Torch(b) => r := b.Truncate(id, length);
        case Mlx(b) => r := b.Truncate(id, length);
      }
    }

    method Close(id: SessionId)
      requires Valid()
      modifies Repr()
      ensures Valid() && Repr() == old(Repr())
      ensures Hist() == old(Hist()) - {id}
    {
      match this {
        case Torch(b) => b.Close(id);
        case Mlx(b) => b.Close(id);
      }
    }
  }

  datatype Payload = Hiddens(hidden: seq<Hidden>) | Tokens(ids: seq<Token>)

  function Size(p: Payload): nat {
    match p
    case Hiddens(h) => |h|
    case Tokens(t) => |t|
  }

  datatype Which = LastOnly | All

  /** What identifies a step: its input, where it starts, what it asks for and the rollback it carries. */
  datatype Step = Step(input: Payload, startPos: nat, wantIds: bool, which: Which, cut: Option<nat>)

  datatype Saved = Saved(step: Step, reply: Payload)

  datatype ServerError = NotOpen | NoEmbedding | NoHead | UnknownToken | Refused(error: BlockError)

  /** The tokens picked for hidden states: for every position, or for the last one. */
  function Pick(head: Hidden -> Token, hidden: seq<Hidden>, which: Which): seq<Token>
    requires hidden != []
  {
    if which.All? then seq(|hidden|, i requires 0 <= i < |hidden| => head(hidden[i]))
    else [head(hidden[|hidden| - 1])]
  }

  /** The hidden states an input stands for; token ids are embedded first. */
  function FedBy(m: Model, input: Payload): (r: seq<Hidden>)
    ensures |r| == Size(input)
  {
    match input
    case Hiddens(h) => h
    case Tokens(t) => Embed(m, t)
  }

  /** The embedding refuses token ids outside its vocabulary. */
  predicate Known(m: Model, input: Payload) {
    input.Tokens? ==> InVocab(m.vocab, input.ids)
  }

  /** What a server sends back for the hidden states its block made. */
  function Reply(m: Model, wantIds: bool, which: Which, hidden: seq<Hidden>): Payload
    requires wantIds ==> hidden != []
  {
    if wantIds then Tokens(Pick(m.head, hidden, which)) else Hiddens(hidden)
  }

  function CutTo<T>(s: seq<T>, cut: Option<nat>): (r: seq<T>)
    ensures r <= s
  {
    if cut.Some? && cut.value < |s| then s[..cut.value] else s
  }

  function HeldIn(hist: History, id: SessionId): seq<Hidden> {
    if id in hist then hist[id] else []
  }

  /** What a session map is after a step's rollback, if it carries one. */
  ghost function AfterCut(hist: History, id: SessionId, cut: Option<nat>): History {
    if cut.Some? then AfterTruncate(hist, id, cut.value).1 else hist
  }

  /** What a session keeps when a step at `startPos` comes with this rollback; at position 0 it starts over. */
  function Kept(hist: History, id: SessionId, cut: Option<nat>, startPos: nat): seq<Hidden> {
    if startPos == 0 then [] else CutTo(HeldIn(hist, id), cut)
  }

  /** Truncate, then forward, seen from outside: rejected positions leave no trace. A step that does not line up
    * with what the session keeps is refused, and only the rollback is left of it. */
  lemma RollbackThenForward(layers: seq<Layer>, hist: History, id: SessionId, cut: Option<nat>,
                            xs: seq<Hidden>, startPos: nat)
    requires cut.Some? ==> id in hist
    ensures var past := Kept(hist, id, cut, startPos);
            var after := AfterForward(layers, AfterCut(hist, id, cut), id, xs, startPos);
            if |past| == startPos then
              && after.0 == Ok(Stack(layers, past + xs)[startPos..])
              && after.1 == hist[id := past + xs]
            else
              && after.0 == Err(if id in hist then LengthMismatch else UnknownSession)
              && after.1 == AfterCut(hist, id, cut)
  {
    assert HeldIn(AfterCut(hist, id, cut), id) == CutTo(HeldIn(hist, id), cut);
    if startPos == 0 {
      assert [] + xs == xs;
    }
  }

  lemma CutLength(hist: History, id: SessionId, cut: Option<nat>)
    ensures AfterCut(hist, id, cut).Keys == hist.Keys
    ensures id in hist ==>
              |AfterCut(hist, id, cut)[id]| == if cut.Some? then Min(cut.value, |hist[id]|) else |hist[id]|
    ensures id in hist && (cut.None? || cut.value >= |hist[id]|) ==> AfterCut(hist, id, cut) == hist
    ensures id !in hist ==> AfterCut(hist, id, cut) == hist
  {
    if id in hist {
      assert hist[id][..|hist[id]|] == hist[id];
    }
  }

  lemma OnlyThisSession(layers: seq<Layer>, hist: History, id: SessionId, cut: Option<nat>,
                        xs: seq<Hidden>, startPos: nat)
    ensures var hist' := AfterCut(hist, id, cut);
            var hist'' := AfterForward(layers, hist', id, xs, startPos).1;
            && hist'.Keys == hist.Keys && hist''.Keys <= hist.Keys + {id}
            && hist' - {id} == hist - {id} && hist'' - {id} == hist - {id}
  {
  }

  /** A server as the protocol sees it: what its sessions hold and the last step of each. */
  datatype Stage = Stage(hist: History, sessions: map<SessionId, Option<Saved>>)

  /** Nothing but session `id` has changed. */
  ghost predicate OnlyIn(before: Stage, after: Stage, id: SessionId) {
    after.hist - {id} == before.hist - {id} && after.sessions - {id} == before.sessions - {id}
  }

  class BlockServer {
    const block: AnyBlock
    const model: Model
    const idsIn: bool
    const headOut: bool

    /** Open sessions, each with the last step and its reply. */
    var sessions: map<SessionId, Option<Saved>>
    ghost var Repr: set<object>

    ghost predicate Valid()
      reads this, Repr
    {
      && this in Repr && block.Root() in Repr && block.Repr() <= Repr && this !in block.Repr()
      && block.Valid()
      && Hist().Keys <= sessions.Keys
    }

    ghost function Hist(): History
      reads block.Root()
    {
      block.Hist()
    }

    constructor (block: AnyBlock, model: Model, idsIn: bool, headOut: bool)
      requires block.Valid() && block.Root() in block.Repr() && block.Hist() == map[]
      ensures Valid() && fresh(Repr - block.Repr())
      ensures this.block == block && this.model == model && this.idsIn == idsIn && this.headOut == headOut
      ensures sessions == map[]
    {
      this.block, this.model, this.idsIn, this.headOut := block, model, idsIn, headOut;
      sessions := map[];
      Repr := {this} + block.Repr();
    }

    method Open(id: SessionId)
      requires Valid()
      modifies this
      ensures Valid() && Repr == old(Repr)
      ensures sessions == if id in old(sessions) then old(sessions) else old(sessions)[id := None]
    {
      if id !in sessions {
        sessions := sessions[id := None];
      }
    }

    method Close(id: SessionId)
      requires Valid()
      modifies Repr
      ensures Valid() && Repr == old(Repr)
      ensures sessions == old(sessions) - {id}
      ensures Hist() == if id in old(sessions) then old(Hist()) - {id} else old(Hist())
    {
      if id in sessions {
        block.Close(id);
        sessions := sessions - {id};
      }
    }

    /** The step starts where the session stands once its rollback has been made, or starts it over. */
    ghost predicate Lines(hist: History, id: SessionId, step: Step) {
      (step.cut.Some? ==> id in hist) && |Kept(hist, id, step.cut, step.startPos)| == step.startPos
    }

    /** Everything the session has been fed and keeps, once the step has run. */
    ghost function AllFed(hist: History, id: SessionId, step: Step): seq<Hidden> {
      Kept(hist, id, step.cut, step.startPos) + FedBy(model, step.input)
    }

    ghost function View(): Stage
      reads this, block.Root()
    {
      Stage(Hist(), sessions)
    }

    /** This server is an end of the model where the step needs one. */
    predicate Equipped(step: Step) {
      (step.input.Tokens? ==> idsIn) && (step.wantIds ==> headOut)
    }

    ghost predicate Repeat(st: Stage, id: SessionId, step: Step) {
      id in st.sessions && st.sessions[id].Some? && st.sessions[id].value.step == step
    }

    /** Why a step of an open session is refused. */
    ghost function Refusal(hist: History, id: SessionId, step: Step): ServerError {
      if step.cut.Some? && id !in hist then Refused(UnknownSession)
      else if !Known(model, step.input) then UnknownToken
      else Refused(if id in hist then LengthMismatch else UnknownSession)
    }

    /** What a step does to a server and what it answers. A step that needs an end of the model this server is
      * not, or a session that is not open, is refused, a repeat of the last step is answered from the saved
      * reply, and a step in order answers the tail of one uncached pass over everything the session keeps. A
      * step out of order, or with an unknown token, is refused, and its rollback is all it leaves behind. No step
      * touches another session. */
    ghost predicate Stepped(before: Stage, after: Stage, id: SessionId, step: Step, r: Result<Payload, ServerError>) {
      && OnlyIn(before, after, id)
      && after.sessions.Keys == before.sessions.Keys
      && (!Equipped(step) ==>
            r == Err(if step.input.Tokens? && !idsIn then NoEmbedding else NoHead) && after == before)
      && (Equipped(step) && id !in before.sessions ==> r == Err(NotOpen) && after == before)
      && (Equipped(step) && Repeat(before, id, step) ==>
            r == Ok(before.sessions[id].value.reply) && after == before)
      && (Equipped(step) && id in before.sessions && !Repeat(before, id, step) ==>
            if !Lines(before.hist, id, step) || !Known(model, step.input) then
              && r == Err(Refusal(before.hist, id, step))
              && after == before.(hist := AfterCut(before.hist, id, step.cut))
            else if step.wantIds && Size(step.input) == 0 then
              r == Err(NoHead) && after == before.(hist := before.hist[id := AllFed(before.hist, id, step)])
            else
              var all := AllFed(before.hist, id, step);
              && r == Ok(Reply(model, step.wantIds, step.which, Stack(block.Layers(), all)[step.startPos..]))
              && after == Stage(before.hist[id := all], before.sessions[id := Some(Saved(step, r.value))]))
    }

    /** The saved reply, if there is one, is of a step that the session has just taken: to repeat that step changes
      * nothing, and the reply is what running it gave. */
    ghost predicate SavedRight(st: Stage, id: SessionId) {
      id in st.sessions && st.sessions[id].Some? ==>
        var Saved(step, reply) := st.sessions[id].value;
        && id in st.hist && step.startPos + Size(step.input) == |st.hist[id]|
        && st.hist[id][step.startPos..] == FedBy(model, step.input)
        && (step.wantIds ==> Size(step.input) > 0)
        && reply == Reply(model, step.wantIds, step.which, Stack(block.Layers(), st.hist[id])[step.startPos..])
    }

    /** The step is refused after its rollback has taken positions away. */
    ghost predicate RefusedAfterCut(st: Stage, id: SessionId, step: Step) {
      && Equipped(step) && !Repeat(st, id, step) && id in st.hist
      && step.cut.Some? && step.cut.value < |st.hist[id]|
      && (!Lines(st.hist, id, step) || !Known(model, step.input))
    }

    /** A saved reply stays right in every step except one that is refused after it has rolled the session back. */
    lemma SavedStaysRightIff(before: Stage, after: Stage, id: SessionId, step: Step, r: Result<Payload, ServerError>)
      requires Stepped(before, after, id, step, r) && SavedRight(before, id)
      requires Size(step.input) > 0
      ensures SavedRight(after, id) <==>
                !(id in before.sessions && before.sessions[id].Some? && RefusedAfterCut(before, id, step))
    {
      hide Stack, FedBy, Reply, Known, Equipped, AfterCut;
      if id in before.sessions && Equipped(step) && !Repeat(before, id, step) {
        if !Lines(before.hist, id, step) || !Known(model, step.input) {
          CutLength(before.hist, id, step.cut);
        } else {
          var all := AllFed(before.hist, id, step);
          assert all[step.startPos..] == FedBy(model, step.input);
        }
      }
    }

    /** What then happens to a repeat of the step before: it is answered, but the session does not hold it. */
    lemma StaleReply(before: Stage, mid: Stage, after: Stage, id: SessionId, step: Step,
                     refused: Result<Payload, ServerError>, r: Result<Payload, ServerError>)
      requires SavedRight(before, id) && id in before.sessions && before.sessions[id].Some?
      requires Size(step.input) > 0 && RefusedAfterCut(before, id, step) && Stepped(before, mid, id, step, refused)
      requires Equipped(before.sessions[id].value.step)
      requires Stepped(mid, after, id, before.sessions[id].value.step, r)
      ensures refused.Err? && r == Ok(before.sessions[id].value.reply)
      ensures after == mid && |after.hist[id]| < |before.hist[id]|
      ensures |before.hist[id]| == before.sessions[id].value.step.startPos + Size(before.sessions[id].value.step.input)
    {
      hide Stack, FedBy, Reply, Known, Equipped, AfterCut;
      CutLength(before.hist, id, step.cut);
    }

    /** For example: two positions are fed, a step that cuts back to one has an unknown token, and the first step comes
      * again. It is answered as before, and the session holds one position. */
    lemma ForgottenStep(s0: Stage, s1: Stage, s2: Stage, s3: Stage, id: SessionId, first: Result<Payload, ServerError>,
                        second: Result<Payload, ServerError>, third: Result<Payload, ServerError>)
      requires idsIn && model.vocab >= 1
      requires id in s0.sessions && s0.sessions[id] == None && id !in s0.hist
      requires Stepped(s0, s1, id, Step(Tokens([0, 0]), 0, false, All, None), first)
      requires Stepped(s1, s2, id, Step(Tokens([model.vocab]), 1, false, All, Some(1)), second)
      requires Stepped(s2, s3, id, Step(Tokens([0, 0]), 0, false, All, None), third)
      ensures first.Ok? && second == Err(UnknownToken) && third == first
      ensures id in s1.hist && |s1.hist[id]| == 2 && id in s3.hist && |s3.hist[id]| == 1
    {
      hide Stack;
      var step := Step(Tokens([model.vocab]), 1, false, All, Some(1));
      assert model.vocab in step.input.ids;
      CutLength(s1.hist, id, Some(1));
    }

    method RollBack(id: SessionId, cut: Option<nat>) returns (r: Result<(), BlockError>)
      requires Valid() && id in sessions
      modifies block.Repr()
      ensures Valid() && Repr == old(Repr)
      ensures r == if cut.Some? && id !in old(Hist()) then Err(UnknownSession) else Ok(())
      ensures Hist() == AfterCut(old(Hist()), id, cut)
    {
      if cut.None? {
        return Ok(());
      }
      OnlyThisSession(block.Layers(), Hist(), id, cut, [], 0);
      r := block.Truncate(id, cut.value);
    }

    method RunBlock(id: SessionId, hidden: seq<Hidden>, startPos: nat) returns (r: Result<seq<Hidden>, BlockError>)
      requires Valid() && id in sessions
      modifies Repr
      ensures Valid() && fresh(Repr - old(Repr)) && sessions == old(sessions)
      ensures r == AfterForward(block.Layers(), old(Hist()), id, hidden, startPos).0
      ensures Hist() == AfterForward(block.Layers(), old(Hist()), id, hidden, startPos).1
    {
      OnlyThisSession(block.Layers(), Hist(), id, None, hidden, startPos);
      r := block.Forward(id, hidden, startPos);
      Repr := Repr + block.Repr();
    }

    /** Rolls back, embeds and runs the block: a step without the session's bookkeeping. */
    method Compute(id: SessionId, step: Step) returns (r: Result<seq<Hidden>, ServerError>)
      requires Valid() && id in sessions
      modifies Repr
      ensures Valid() && fresh(Repr - old(Repr)) && sessions == old(sessions)
      ensures var hist := old(Hist());
              if !Lines(hist, id, step) || !Known(model, step.input) then
                r == Err(Refusal(hist, id, step)) && Hist() == AfterCut(hist, id, step.cut)
              else
                && r == Ok(Stack(block.Layers(), AllFed(hist, id, step))[step.startPos..])
                && Hist() == hist[id := AllFed(hist, id, step)]
      ensures Hist() - {id} == old(Hist()) - {id}
    {
      OnlyThisSession(block.Layers(), Hist(), id, step.cut, FedBy(model, step.input), step.startPos);
      if step.cut.Some? ==> id in Hist() {
        RollbackThenForward(block.Layers(), Hist(), id, step.cut, FedBy(model, step.input), step.startPos);
      }
      var cut := RollBack(id, step.cut);
      if cut.Err? {
        return Err(Refused(cut.error));
      }
      if !Known(model, step.input) {
        return Err(UnknownToken);
      }
      var hidden := RunBlock(id, FedBy(model, step.input), step.startPos);
      if hidden.Err? {
        return Err(Refused(hidden.error));
      }
      return Ok(hidden.value);
    }

    /** /truncate: the saved reply goes with the positions, so that a repeat runs again. */
    method Truncate(id: SessionId, length: nat) returns (r: Result<(), ServerError>)
      requires Valid()
      modifies Repr
      ensures Valid() && Repr == old(Repr)
      ensures id !in old(sessions) ==> r == Err(NotOpen) && View() == old(View())
      ensures id in old(sessions) && id !in old(Hist()) ==> r == Err(Refused(UnknownSession)) && View() == old(View())
      ensures id in old(Hist()) ==>
                r == Ok(()) && View() == Stage(AfterTruncate(old(Hist()), id, length).1, old(sessions)[id := None])
      ensures old(SavedRight(View(), id)) ==> SavedRight(View(), id)
    {
      if id !in sessions {
        return Err(NotOpen);
      }
      var cut := RollBack(id, Some(length));
      if cut.Err? {
        return Err(Refused(cut.error));
      }
      sessions := sessions[id := None];
      return Ok(());
    }

    method Forward(id: SessionId, step: Step) returns (r: Result<Payload, ServerError>)
      requires Valid()
      modifies Repr
      ensures Valid() && fresh(Repr - old(Repr))
      ensures Stepped(old(View()), View(), id, step, r)
    {
      hide AnyBlock.Valid, Stack, FedBy, Known, AfterCut, Kept, Reply;
      if step.input.Tokens? && !idsIn {
        return Err(NoEmbedding);
      }
      if step.wantIds && !headOut {
        return Err(NoHead);
      }
      if id !in sessions {
        return Err(NotOpen);
      }
      if sessions[id].Some? && sessions[id].value.step == step {
        return Ok(sessions[id].value.reply);
      }
      var hidden := Compute(id, step);
      if hidden.Err? {
        return Err(hidden.error);
      }
      if step.wantIds && hidden.value == [] {
        return Err(NoHead);
      }
      var reply := Reply(model, step.wantIds, step.which, hidden.value);
      sessions := sessions[id := Some(Saved(step, reply))];
      return Ok(reply);
    }
  }
}
