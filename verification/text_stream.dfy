/** commonnet/serve.py TextStream: text pieces from token ids, holding back an unfinished character. */
module TextStreams {
  import opened Basics
  import opened Utf8

  type Token = int

  /** A byte-level tokenizer: every token stands for some bytes, and ids decode to the text of all of them. */
  type Tokenizer = Token -> seq<Byte>

  function BytesOf(tokenizer: Tokenizer, ids: seq<Token>): seq<Byte> {
    if ids == [] then [] else BytesOf(tokenizer, ids[..|ids| - 1]) + tokenizer(Last(ids))
  }

  function TextOf(tokenizer: Tokenizer, ids: seq<Token>): string {
    Decode(BytesOf(tokenizer, ids))
  }

  lemma {:induction false} BytesAppend(tokenizer: Tokenizer, a: seq<Token>, b: seq<Token>)
    ensures BytesOf(tokenizer, a + b) == BytesOf(tokenizer, a) + BytesOf(tokenizer, b)
    decreases |b|
  {
    if b == [] {
      assert a + b == a;
    } else {
      assert (a + b)[..|a + b| - 1] == a + b[..|b| - 1];
      BytesAppend(tokenizer, a, b[..|b| - 1]);
    }
  }

  predicate Finished(text: string) {
    text == [] || Last(text) != REPLACEMENT
  }

  class TextStream {
    const tokenizer: Tokenizer
    var ids: seq<Token>
    var sent: nat

    /** Everything handed out so far. */
    ghost var emitted: string

    /** Whatever tokens come next, the text goes on from what was handed out. */
    ghost predicate NeverContradicted()
      reads this
    {
      forall more: seq<Token> :: emitted <= TextOf(tokenizer, ids + more)
    }

    ghost predicate Valid()
      reads this
    {
      sent == |emitted| && NeverContradicted()
    }

    constructor (tokenizer: Tokenizer)
      ensures Valid() && this.tokenizer == tokenizer && ids == [] && emitted == []
    {
      this.tokenizer := tokenizer;
      ids, sent, emitted := [], 0, [];
    }

    method Push(id: Token) returns (piece: string)
      requires Valid()
      modifies this
      ensures Valid() && ids == old(ids) + [id] && emitted == old(emitted) + piece
      ensures var text := TextOf(tokenizer, ids);
              if Finished(text) then emitted == text else piece == []
    {
      ids := ids + [id];
      var text := TextOf(tokenizer, ids);
      SoFar(old(ids), [id]);
      assert forall more: seq<Token> :: old(ids) + ([id] + more) == ids + more;
      if text != [] && Last(text) == REPLACEMENT {
        return [];
      }
      piece, sent := text[sent..], |text|;
      emitted := text;
      forall more: seq<Token>
        ensures emitted <= TextOf(tokenizer, ids + more)
      {
        BytesAppend(tokenizer, ids, more);
        FinishedTextIsFinal(BytesOf(tokenizer, ids), BytesOf(tokenizer, more));
      }
    }

    lemma SoFar(before: seq<Token>, more: seq<Token>)
      requires forall m: seq<Token> :: emitted <= TextOf(tokenizer, before + m)
      ensures emitted <= TextOf(tokenizer, before + more)
    {
    }

    /** The rest, finished or not. Nothing may be pushed afterwards. */
    method Flush() returns (piece: string)
      requires Valid()
      modifies this
      ensures ids == old(ids) && emitted == old(emitted) + piece == TextOf(tokenizer, ids)
    {
      var text := TextOf(tokenizer, ids);
      SoFar(ids, []);
      assert ids + [] == ids;
      piece, sent := text[sent..], |text|;
      emitted := text;
    }
  }

  /** What the server does with a stream of tokens: the pieces put together are the text of all of them. */
  method ReadAll(tokenizer: Tokenizer, ids: seq<Token>) returns (answer: string)
    ensures answer == TextOf(tokenizer, ids)
  {
    var text := new TextStream(tokenizer);
    answer := [];
    for i := 0 to |ids|
      invariant text.Valid() && text.tokenizer == tokenizer && text.ids == ids[..i] && text.emitted == answer
    {
      var piece := text.Push(ids[i]);
      answer := answer + piece;
    }
    assert ids[..|ids|] == ids;
    var piece := text.Flush();
    answer := answer + piece;
  }

  /** Why nothing may be pushed after a flush: it hands out the replacement of an unfinished character, and the
    * next token finishes the character instead. */
  lemma FlushedTextCanBeContradicted(tokenizer: Tokenizer, first: Token, second: Token)
    requires tokenizer(first) == [0xC3] && tokenizer(second) == [0xA9]
    ensures TextOf(tokenizer, [first]) == [REPLACEMENT]
    ensures TextOf(tokenizer, [first, second]) == ['\U{E9}']
  {
    assert [first][..0] == [] && [first, second][..1] == [first];
    assert BytesOf(tokenizer, [first]) == [0xC3];
    assert BytesOf(tokenizer, [first, second]) == [0xC3, 0xA9];
    assert Encode('\U{E9}') == [0xC3, 0xA9];
    StepOfCut('\U{E9}', 1);
    assert [0xC3, 0xA9][..1] == [0xC3];
    DecodeStep([0xC3]);
    DecodeNothing();
    StepOfEncoded('\U{E9}', []);
    assert [0xC3, 0xA9] + [] == [0xC3, 0xA9];
    DecodeStep([0xC3, 0xA9]);
  }
}
