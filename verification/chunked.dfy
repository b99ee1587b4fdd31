/** join/worker.py, the framing loop of _proxy_chat, against a decoder for chunked transfer coding (section
  * 7.1 of RFC 9112, without chunk extensions and trailers).
  */
module Chunked {
  import opened Basics
  import opened Numerals

  type Bytes = seq<Byte>

  const CRLF: Bytes := [13, 10]
  const READ_SIZE := 8192

  // --- what is written --------------------------------------------------------------------------

  /** f"{n:X}". */
  function Hex(n: nat): (r: Bytes)
    ensures r != []
  {
    seq(|Digits(16, n)|, i requires 0 <= i < |Digits(16, n)| => HexByte(Digits(16, n)[i]))
  }

  function HexByte(d: nat): Byte
    requires d < 16
  {
    if d < 10 then 48 + d else 55 + d
  }

  function Frame(chunk: Bytes): Bytes {
    Hex(|chunk|) + CRLF + chunk + CRLF
  }

  const LAST_CHUNK: Bytes := [48] + CRLF + CRLF

  function Framed(chunks: seq<Bytes>): Bytes {
    if chunks == [] then LAST_CHUNK else Frame(chunks[0]) + Framed(chunks[1..])
  }

  function Joined(chunks: seq<Bytes>): Bytes {
    if chunks == [] then [] else chunks[0] + Joined(chunks[1..])
  }

  // --- what a decoder makes of it ---------------------------------------------------------------

  datatype Decoded = Complete(body: Bytes, rest: Bytes) | Incomplete | Malformed

  /** Hex digits of either case. */
  function DigitOfByte(b: Byte): Option<nat> {
    if 48 <= b <= 57 then Some(b - 48)
    else if 65 <= b <= 70 then Some(b - 55)
    else if 97 <= b <= 102 then Some(b - 87)
    else None
  }

  function HexRun(b: Bytes): (n: nat)
    ensures n <= |b|
    ensures forall i | 0 <= i < n :: DigitOfByte(b[i]).Some?
  {
    if b == [] || DigitOfByte(b[0]).None? then 0 else 1 + HexRun(b[1..])
  }

  function SizeOf(digits: Bytes): nat
    requires forall i | 0 <= i < |digits| :: DigitOfByte(digits[i]).Some?
  {
    ValueOf(16, seq(|digits|, i requires 0 <= i < |digits| => DigitOfByte(digits[i]).value))
  }

  /** The first chunk of b, as far as it has arrived. */
  datatype First = Chunk(data: Bytes, rest: Bytes) | End(rest: Bytes) | Short | Bad

  function FirstOf(b: Bytes): (r: First)
    ensures r.Chunk? ==> |r.rest| < |b|
  {
    var n := HexRun(b);
    if n == |b| then Short
    else if n == 0 || b[n] != 13 then Bad
    else if n + 1 == |b| then Short
    else if b[n + 1] != 10 then Bad
    else
      var size := SizeOf(b[..n]);
      var end := n + 2 + size;
      if |b| < end + 2 then Short
      else if b[end..end + 2] != CRLF then Bad
      else if size == 0 then End(b[end + 2..])
      else Chunk(b[n + 2..end], b[end + 2..])
  }

  function DecodeChunked(b: Bytes): Decoded
    decreases |b|
  {
    match FirstOf(b)
    case Short => Incomplete
    case Bad => Malformed
    case End(rest) => Complete([], rest)
    case Chunk(data, rest) => Prepend(data, DecodeChunked(rest))
  }

  function Prepend(data: Bytes, d: Decoded): Decoded {
    match d
    case Complete(body, rest) => Complete(data + body, rest)
    case other => other
  }

  // --- one chunk --------------------------------------------------------------------------------

  lemma HexByteIsDigit(d: nat)
    requires d < 16
    ensures DigitOfByte(HexByte(d)) == Some(d)
  {
  }

  lemma {:induction false} HexRunStops(digits: Bytes, more: Bytes)
    requires forall i | 0 <= i < |digits| :: DigitOfByte(digits[i]).Some?
    requires more == [] || DigitOfByte(more[0]).None?
    ensures HexRun(digits + more) == |digits|
    decreases |digits|
  {
    if digits == [] {
      assert digits + more == more;
    } else {
      assert (digits + more)[1..] == digits[1..] + more;
      HexRunStops(digits[1..], more);
    }
  }

  /** The size line, whatever the length: its digits are read back to the same number. */
  lemma SizeRoundTrip(n: nat)
    ensures forall i | 0 <= i < |Hex(n)| :: DigitOfByte(Hex(n)[i]).Some?
    ensures SizeOf(Hex(n)) == n
  {
    var digits, hex := Digits(16, n), Hex(n);
    forall i | 0 <= i < |hex|
      ensures DigitOfByte(hex[i]) == Some(digits[i])
    {
      HexByteIsDigit(digits[i]);
    }
    assert seq(|hex|, i requires 0 <= i < |hex| => DigitOfByte(hex[i]).value) == digits;
    ValueOfDigits(16, n);
  }

  /** What a decoder sees of a frame of which the first |cut| bytes have arrived, or all and more. */
  lemma FrameHead(size: nat, more: Bytes)
    ensures var b := Hex(size) + CRLF + more;
            var n := |Hex(size)|;
            && HexRun(b) == n && n + 2 <= |b| && b[n] == 13 && b[n + 1] == 10
            && b[..n] == Hex(size) && SizeOf(b[..n]) == size && b[n + 2..] == more
  {
    SizeRoundTrip(size);
    assert Hex(size) + CRLF + more == Hex(size) + (CRLF + more);
    HexRunStops(Hex(size), CRLF + more);
    var b := Hex(size) + CRLF + more;
    assert b[..|Hex(size)|] == Hex(size);
  }

  lemma FrameStep(chunk: Bytes, more: Bytes)
    requires chunk != []
    ensures DecodeChunked(Frame(chunk) + more) == Prepend(chunk, DecodeChunked(more))
  {
    hide Hex, HexRun, SizeOf, FirstOf;
    FrameHead(|chunk|, chunk + CRLF + more);
    assert Frame(chunk) + more == Hex(|chunk|) + CRLF + (chunk + CRLF + more);
    FirstIsChunk(Frame(chunk) + more, |Hex(|chunk|)|, chunk, more);
  }

  lemma FirstIsChunk(b: Bytes, n: nat, chunk: Bytes, more: Bytes)
    requires 0 < n == HexRun(b) && n + 2 <= |b| && b[n] == 13 && b[n + 1] == 10
    requires SizeOf(b[..n]) == |chunk| && b[n + 2..] == chunk + CRLF + more
    ensures FirstOf(b) == if chunk == [] then End(more) else Chunk(chunk, more)
  {
    hide HexRun, SizeOf, FirstOf;
    ChunkSlices(b, n + 2, chunk, more);
    FirstByParts(b, n, |chunk|);
  }

  lemma FirstByParts(b: Bytes, n: nat, size: nat)
    requires 0 < n == HexRun(b) && n + 2 + size + 2 <= |b| && b[n] == 13 && b[n + 1] == 10 && SizeOf(b[..n]) == size
    requires b[n + 2 + size..n + 2 + size + 2] == CRLF
    ensures FirstOf(b) ==
            if size == 0 then End(b[n + 2 + size + 2..]) else Chunk(b[n + 2..n + 2 + size], b[n + 2 + size + 2..])
  {
    hide HexRun, SizeOf;
  }

  lemma ChunkSlices(b: Bytes, at: nat, chunk: Bytes, more: Bytes)
    requires at <= |b| && b[at..] == chunk + CRLF + more
    ensures var end := at + |chunk|;
            |b| >= end + 2 && b[at..end] == chunk && b[end..end + 2] == CRLF && b[end + 2..] == more
  {
    assert b == b[..at] + (chunk + CRLF + more);
  }

  lemma LastStep(more: Bytes)
    ensures DecodeChunked(LAST_CHUNK + more) == Complete([], more)
  {
    assert Hex(0) == [48];
    FrameHead(0, CRLF + more);
    assert LAST_CHUNK + more == Hex(0) + CRLF + (CRLF + more);
    hide FirstOf, HexRun, SizeOf;
    assert CRLF + more == [] + CRLF + more;
    FirstIsChunk(LAST_CHUNK + more, 1, [], more);
  }

  /** Main result: decoding what the loop writes gives the chunks back, joined, and takes exactly what was
    * written. */
  lemma {:induction false} FramingRoundTrip(chunks: seq<Bytes>, more: Bytes)
    requires forall i | 0 <= i < |chunks| :: chunks[i] != []
    ensures DecodeChunked(Framed(chunks) + more) == Complete(Joined(chunks), more)
    decreases |chunks|
  {
    hide Frame, DecodeChunked;
    if chunks == [] {
      LastStep(more);
    } else {
      FramingRoundTrip(chunks[1..], more);
      FrameStep(chunks[0], Framed(chunks[1..]) + more);
      Assoc(Frame(chunks[0]), Framed(chunks[1..]), more);
    }
  }

  lemma CutFrame(size: nat, tail: Bytes, cut: Bytes)
    requires |tail| == size + 2 && cut < Hex(size) + CRLF + tail
    ensures DecodeChunked(cut).Incomplete?
  {
    hide Hex, SizeOf;
    var n := |Hex(size)|;
    var b := Hex(size) + CRLF + tail;
    SizeRoundTrip(size);
    assert b[..n] == Hex(size);
    if |cut| <= n {
      assert forall i | 0 <= i < |cut| :: cut[i] == b[i] == Hex(size)[i];
      HexRunStops(cut, []);
      assert cut + [] == cut;
    } else if |cut| == n + 1 {
      assert cut == Hex(size) + [13];
      HexRunStops(Hex(size), [13]);
    } else {
      var more := cut[n + 2..];
      assert cut == Hex(size) + CRLF + more;
      FrameHead(size, more);
    }
  }

  /** A reply that breaks off is never taken for a whole one. */
  lemma {:induction false} CutReplyIsIncomplete(chunks: seq<Bytes>, cut: Bytes)
    requires forall i | 0 <= i < |chunks| :: chunks[i] != []
    requires cut < Framed(chunks)
    ensures DecodeChunked(cut).Incomplete?
    decreases |chunks|
  {
    if chunks == [] {
      assert Hex(0) == [48];
      CutFrame(0, CRLF, cut);
    } else {
      hide DecodeChunked, Hex;
      var frame, rest := Frame(chunks[0]), Framed(chunks[1..]);
      if |cut| < |frame| {
        assert cut < frame;
        Assoc(Hex(|chunks[0]|) + CRLF, chunks[0], CRLF);
        CutFrame(|chunks[0]|, chunks[0] + CRLF, cut);
      } else {
        var more := cut[|frame|..];
        assert cut == frame + more && more < rest;
        CutReplyIsIncomplete(chunks[1..], more);
        FrameStep(chunks[0], more);
      }
    }
  }

  // --- the backend ------------------------------------------------------------------------------

  /** How the model backend marks the end of its reply: by its length, by closing the connection, or by
    * framing it in chunks itself. */
  datatype Framing = Length | Close | InChunks

  /** How a delivery ends for the loop: read1 returns nothing, raises the one error the loop takes for a caller
    * who has hung up (ConnectionResetError), or raises another (IncompleteRead, a timeout). */
  datatype Ending = Empty | Reset | Fails

  predicate Pieces(chunks: seq<Bytes>) {
    forall i | 0 <= i < |chunks| :: 0 < |chunks[i]| <= READ_SIZE
  }

  /** What read1 can make of a reply: any pieces of it, and it may break off anywhere. Only a reply framed in
    * chunks says so: then the connection's end before the last chunk raises. Otherwise it looks like the end
    * of the reply. */
  ghost predicate Delivers(framing: Framing, body: Bytes, chunks: seq<Bytes>, ending: Ending) {
    && Pieces(chunks) && Joined(chunks) <= body
    && (framing.InChunks? && ending.Empty? ==> Joined(chunks) == body)
  }

  // --- the loop ---------------------------------------------------------------------------------

  function Frames(chunks: seq<Bytes>): Bytes {
    if chunks == [] then [] else Frames(chunks[..|chunks| - 1]) + Frame(Last(chunks))
  }

  /** What gets through to a caller who hangs up after `limit` bytes, if at all. */
  function Clip(bytes: Bytes, limit: Option<nat>): Bytes {
    if Fits(bytes, limit) then bytes else bytes[..limit.value]
  }

  predicate Fits(bytes: Bytes, limit: Option<nat>) {
    limit.None? || |bytes| <= limit.value
  }

  /** What the caller has got in the end. */
  function Relayed(chunks: seq<Bytes>, ending: Ending, limit: Option<nat>): Bytes {
    Clip(Frames(chunks) + if ending.Empty? then LAST_CHUNK else [], limit)
  }

  lemma {:induction false} FramedSplit(chunks: seq<Bytes>, i: nat)
    requires i <= |chunks|
    ensures Framed(chunks) == Frames(chunks[..i]) + Framed(chunks[i..])
    decreases i
  {
    if i == 0 {
      assert chunks[0..] == chunks;
    } else {
      hide Frame;
      FramedSplit(chunks, i - 1);
      assert chunks[..i][..i - 1] == chunks[..i - 1] && chunks[i - 1..][1..] == chunks[i..];
      Assoc(Frames(chunks[..i - 1]), Frame(chunks[i - 1]), Framed(chunks[i..]));
    }
  }

  lemma FramesThenEnd(chunks: seq<Bytes>)
    ensures Framed(chunks) == Frames(chunks) + LAST_CHUNK
  {
    FramedSplit(chunks, |chunks|);
    assert chunks[..|chunks|] == chunks && chunks[|chunks|..] == [];
  }

  lemma {:induction false} FramesMore(chunks: seq<Bytes>, i: nat)
    requires i <= |chunks|
    ensures Frames(chunks[..i]) <= Frames(chunks)
    decreases |chunks| - i
  {
    if i < |chunks| {
      assert chunks[..i + 1][..i] == chunks[..i];
      FramesMore(chunks, i + 1);
    } else {
      assert chunks[..i] == chunks;
    }
  }

  /** The caller takes the reply for complete if and only if read1 ended it and every write worked. It then
    * reads what the backend delivered, and nothing is left over. */
  lemma RelayedCompleteIff(chunks: seq<Bytes>, ending: Ending, limit: Option<nat>)
    requires Pieces(chunks)
    ensures DecodeChunked(Relayed(chunks, ending, limit)) ==
            if ending.Empty? && Fits(Framed(chunks), limit) then Complete(Joined(chunks), []) else Incomplete
  {
    hide Framed, DecodeChunked, Frames;
    FramesThenEnd(chunks);
    if ending.Empty? && Fits(Framed(chunks), limit) {
      FramingRoundTrip(chunks, []);
      assert Framed(chunks) + [] == Framed(chunks);
    } else {
      assert Frames(chunks) + [] == Frames(chunks);
      CutReplyIsIncomplete(chunks, Relayed(chunks, ending, limit));
    }
  }

  /** A reply that decodes as complete is the backend's whole reply, for every delivery and every caller, if
    * and only if the backend frames its reply in chunks, or there is nothing to lose. */
  lemma CompleteIsWholeIff(framing: Framing, body: Bytes)
    ensures (forall chunks, ending, limit | Delivers(framing, body, chunks, ending) ::
               var got := DecodeChunked(Relayed(chunks, ending, limit));
               got.Complete? ==> got.body == body) <==>
            framing.InChunks? || body == []
  {
    hide Framed, DecodeChunked, Frames, Joined;
    forall chunks, ending, limit | Delivers(framing, body, chunks, ending)
      ensures var got := DecodeChunked(Relayed(chunks, ending, limit));
              got.Complete? ==> got.body == Joined(chunks) && ending.Empty?
    {
      RelayedCompleteIff(chunks, ending, limit);
    }
    NothingJoined();
    if !framing.InChunks? && body != [] {
      assert Delivers(framing, body, [], Empty);
      RelayedCompleteIff([], Empty, None);
      assert DecodeChunked(Relayed([], Empty, None)) == Complete([], []);
    }
  }

  lemma NothingJoined()
    ensures Joined([]) == []
  {
  }

  // --- whether the caller is told ---------------------------------------------------------------

  /** Whether the loop's method returns to the server rather than raising through it. */
  predicate Returns(chunks: seq<Bytes>, ending: Ending, limit: Option<nat>) {
    !ending.Fails? || !Fits(Frames(chunks), limit)
  }

  /** The caller learns that nothing more will come: the last chunk says so, or the connection is closed. The
    * server keeps it open after a method that returns, if the caller asked for that. */
  predicate Told(chunks: seq<Bytes>, ending: Ending, limit: Option<nat>, keepAlive: bool) {
    || DecodeChunked(Relayed(chunks, ending, limit)).Complete?
    || !(keepAlive && Returns(chunks, ending, limit))
  }

  /** A caller who stays is told unless the backend's connection was reset: the loop takes that for the caller's
    * own, and returns. On a connection that is kept open the caller then waits for ever. */
  lemma ToldUnlessReset(chunks: seq<Bytes>, ending: Ending, keepAlive: bool)
    requires Pieces(chunks)
    ensures Told(chunks, ending, None, keepAlive) <==> !(keepAlive && ending.Reset?)
  {
    hide DecodeChunked, Relayed;
    RelayedCompleteIff(chunks, ending, None);
  }

  /** However the backend frames its reply: every delivery tells the caller if and only if connections are not
    * kept open. */
  lemma AlwaysToldIff(framing: Framing, body: Bytes, keepAlive: bool)
    ensures (forall chunks, ending | Delivers(framing, body, chunks, ending) :: Told(chunks, ending, None, keepAlive))
       <==> !keepAlive
  {
    hide Told, Joined;
    forall chunks, ending | Delivers(framing, body, chunks, ending)
      ensures Told(chunks, ending, None, keepAlive) <==> !(keepAlive && ending.Reset?)
    {
      ToldUnlessReset(chunks, ending, keepAlive);
    }
    NothingJoined();
    assert Delivers(framing, body, [], Reset);
  }

  /** For example: a reply of three bytes with a Content-Length, whose connection breaks after the first. */
  lemma CutBodyLooksWhole()
    ensures Delivers(Length, [1, 2, 3], [[1]], Empty)
    ensures DecodeChunked(Relayed([[1]], Empty, None)) == Complete([1], [])
  {
    assert [[1]][1..] == [] && [1] + [] == [1];
    assert Joined([[1]]) == [1];
    RelayedCompleteIff([[1]], Empty, None);
  }

  /** The connection back to the caller, who may hang up within any write. */
  class Wire {
    const limit: Option<nat>
    var sent: Bytes

    constructor (limit: Option<nat>)
      ensures this.limit == limit && sent == []
    {
      this.limit, sent := limit, [];
    }

    method Write(data: Bytes) returns (ok: bool)
      modifies this
      ensures sent == Clip(old(sent) + data, limit) && ok == Fits(old(sent) + data, limit)
    {
      ok := limit.None? || |sent| + |data| <= limit.value;
      sent := if ok then sent + data else (sent + data)[..limit.value];
    }
  }

  /** Relays what the backend delivers, and then the end, unless its connection breaks with an error or the
    * caller hangs up. The result: whether the method returns, rather than raises. */
  method Relay(wire: Wire, chunks: seq<Bytes>, ending: Ending) returns (returned: bool)
    requires wire.sent == [] && Pieces(chunks)
    modifies wire
    ensures wire.sent == Relayed(chunks, ending, wire.limit)
    ensures DecodeChunked(wire.sent) ==
            if ending.Empty? && Fits(Framed(chunks), wire.limit) then Complete(Joined(chunks), []) else Incomplete
    ensures returned == Returns(chunks, ending, wire.limit)
  {
    hide Framed, DecodeChunked, Frame, Joined;
    ghost var end := if ending.Empty? then LAST_CHUNK else [];
    RelayedCompleteIff(chunks, ending, wire.limit);
    for i := 0 to |chunks|
      invariant wire.sent == Frames(chunks[..i]) && Fits(wire.sent, wire.limit)
    {
      assert chunks[..i + 1][..i] == chunks[..i];
      var ok := WriteFrame(wire, chunks[i]);
      if !ok {
        FramesMore(chunks, i + 1);
        ClipLonger(Frames(chunks[..i + 1]), Frames(chunks) + end, wire.limit);
        return true;
      }
    }
    assert chunks[..|chunks|] == chunks;
    if ending.Empty? {
      var ok := wire.Write([48] + CRLF + CRLF);
    } else {
      assert Frames(chunks) + [] == Frames(chunks);
    }
    return !ending.Fails?;
  }

  lemma ClipLonger(a: Bytes, b: Bytes, limit: Option<nat>)
    requires a <= b && !Fits(a, limit)
    ensures Clip(a, limit) == Clip(b, limit)
  {
  }

  method WriteFrame(wire: Wire, chunk: Bytes) returns (ok: bool)
    requires Fits(wire.sent, wire.limit)
    modifies wire
    ensures wire.sent == Clip(old(wire.sent) + Frame(chunk), wire.limit)
    ensures ok == Fits(old(wire.sent) + Frame(chunk), wire.limit)
  {
    hide Hex;
    ghost var before, size := wire.sent, Hex(|chunk|) + CRLF;
    ghost var all := before + Frame(chunk);
    assert all == before + size + chunk + CRLF;
    ok := wire.Write(Hex(|chunk|) + CRLF);
    if !ok {
      ClipLonger(before + size, all, wire.limit);
      return;
    }
    ok := wire.Write(chunk);
    if !ok {
      ClipLonger(before + size + chunk, all, wire.limit);
      return;
    }
    ok := wire.Write(CRLF);
  }
}
