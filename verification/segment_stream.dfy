/** commonnet/hub.py _stream_segment and the segment loop of fetch_compact. The network and the disk follow a
  * script: how each request is answered, how much each read returns, which writes fail. So a run is a
  * function of its inputs, and every statement below is for every script.
  */
module SegmentStream {
  import opened Basics
  import opened Segments
  import opened CompactLayout

  const RETRIES := 5
  const CHUNK := 1024 * 1024

  datatype HubError = NotFound | Failed | IgnoredRange | Incomplete | SizeMismatch | WrongFinal | NoTensors | DiskError

  // --- scripts ----------------------------------------------------------------------------------

  datatype Reply = Stream | WholeFile | Refused(error: HubError)

  /** What happens, call by call: how a request is answered, the most a read returns (None if the connection
    * breaks), whether a write works. Past its end everything works. */
  datatype Script = Script(replies: seq<Reply>, chunks: seq<Option<nat>>, writes: seq<bool>)

  function NextReply(replies: seq<Reply>): Reply {
    if replies == [] then Stream else replies[0]
  }

  /** What a read of up to n bytes returns: nothing if the answer has ended or the connection breaks. */
  function NextRead(chunks: seq<Option<nat>>, n: nat): (r: nat)
    ensures r <= n
  {
    if chunks == [] then n else if chunks[0].None? then 0 else Min(chunks[0].value, n)
  }

  /** Every request is answered and every read brings something. */
  predicate Steady(s: Script) {
    (forall r | r in s.replies :: r.Stream?) && (forall n | n in s.chunks :: n.Some? && n.value > 0)
  }

  // --- logs of writes ---------------------------------------------------------------------------

  /** One write: which places of the remote file, and whether it worked. */
  datatype Write = Write(lo: nat, hi: nat, ok: bool)

  type Log = seq<Write>

  /** The places whose bytes the file got. */
  function Written(log: Log): seq<nat> {
    if log == [] then [] else (if log[0].ok then Span(log[0].lo, log[0].hi) else []) + Written(log[1..])
  }

  /** The places tried up to the first write that failed. */
  function Tried(log: Log): seq<nat> {
    if log == [] then [] else Span(log[0].lo, log[0].hi) + if log[0].ok then Tried(log[1..]) else []
  }

  predicate AllOk(log: Log) {
    forall w | w in log :: w.ok
  }

  predicate NoneOk(log: Log) {
    forall w | w in log :: !w.ok
  }

  /** No write works after one that failed. */
  predicate Clean(log: Log) {
    log == [] || if log[0].ok then Clean(log[1..]) else NoneOk(log[1..])
  }

  /** Writes of something, in order, between two places. */
  ghost predicate Within(log: Log, lo: nat, hi: nat) {
    && (forall i | 0 <= i < |log| :: lo <= log[i].lo < log[i].hi <= hi)
    && (forall i, j | 0 <= i < j < |log| :: log[i].hi <= log[j].lo)
  }

  lemma {:induction false} WrittenJoin(a: Log, b: Log)
    ensures Written(a + b) == Written(a) + Written(b)
  {
    if a == [] {
      assert a + b == b;
    } else {
      hide Span;
      WrittenJoin(a[1..], b);
      assert (a + b)[1..] == a[1..] + b;
      Assoc(if a[0].ok then Span(a[0].lo, a[0].hi) else [], Written(a[1..]), Written(b));
    }
  }

  // --- what a segment asks for ------------------------------------------------------------------

  datatype Range = Range(lo: nat, hi: nat)

  /** The parts of the tensors that are not in the first `done` compact bytes. */
  function Todo(seg: Segment, done: nat): seq<Range> {
    if seg == [] then []
    else
      var t := Last(seg);
      var skip := Max(0, done - t.start);
      Todo(seg[..|seg| - 1], done) + if t.absEnd > t.absStart + skip then [Range(t.absStart + skip, t.absEnd)] else []
  }

  /** Non-empty, in order and without overlap, in a file of that size. */
  ghost predicate Ranges(todo: seq<Range>, size: nat) {
    && (forall i | 0 <= i < |todo| :: todo[i].lo < todo[i].hi <= size)
    && (forall i, j | 0 <= i < j < |todo| :: todo[i].hi <= todo[j].lo)
  }

  /** Their places in the remote file. */
  function Places(todo: seq<Range>): seq<nat> {
    if todo == [] then [] else Span(todo[0].lo, todo[0].hi) + Places(todo[1..])
  }

  // --- one chunk of an answer -------------------------------------------------------------------

  datatype Wrote = Wrote(rest: seq<Range>, log: Log, ok: bool, writes: seq<bool>)

  function WroteOnto(log: Log, w: Wrote): Wrote {
    w.(log := log + w.log)
  }

  /** What the loop over the wanted ranges does with bytes lo up to hi: it writes what belongs to a range and
    * drops the rest. A failed write ends it. */
  function WriteChunk(rest: seq<Range>, lo: nat, hi: nat, writes: seq<bool>, size: nat): (w: Wrote)
    requires Ranges(rest, size)
    ensures Ranges(w.rest, size) && (!w.ok ==> w.rest != [])
    ensures w.rest != [] ==> rest != [] && Last(w.rest).hi == Last(rest).hi
    decreases |rest|
  {
    if rest == [] || rest[0].lo >= hi then Wrote(rest, [], true, writes)
    else
      var a, b := rest[0].lo, rest[0].hi;
      var x, y := Max(a, lo), Min(b, hi);
      if y > x && !NextWorks(writes) then Wrote(rest, [Write(x, y, false)], false, Tail(writes))
      else
        var log := if y > x then [Write(x, y, true)] else [];
        var writes' := if y > x then Tail(writes) else writes;
        if b <= hi then WroteOnto(log, WriteChunk(rest[1..], lo, hi, writes', size))
        else Wrote(rest[0 := Range(Max(a, hi), b)], log, true, writes')
  }

  lemma ChunkStops(rest: seq<Range>, lo: nat, hi: nat, writes: seq<bool>, size: nat)
    requires Ranges(rest, size) && (rest == [] || rest[0].lo >= hi)
    ensures WriteChunk(rest, lo, hi, writes, size) == Wrote(rest, [], true, writes)
  {
  }

  lemma ChunkUnfolds(rest: seq<Range>, lo: nat, hi: nat, writes: seq<bool>, size: nat)
    requires Ranges(rest, size) && rest != [] && rest[0].lo < hi
    ensures Ranges(rest[1..], size)
    ensures var a, b := rest[0].lo, rest[0].hi;
            var x: nat, y: nat := Max(a, lo), Min(b, hi);
            var w := WriteChunk(rest, lo, hi, writes, size);
            if y > x && !NextWorks(writes) then w == Wrote(rest, [Write(x, y, false)], false, Tail(writes))
            else
              var log := if y > x then [Write(x, y, true)] else [];
              var writes' := if y > x then Tail(writes) else writes;
              w == if b <= hi then WroteOnto(log, WriteChunk(rest[1..], lo, hi, writes', size))
                   else Wrote(rest[0 := Range(Max(a, hi), b)], log, true, writes')
  {
  }

  // --- one answer -------------------------------------------------------------------------------

  datatype Answer = Answer(rest: seq<Range>, pos: nat, log: Log, script: Script)

  function AnswerOnto(log: Log, a: Answer): Answer {
    a.(log := log + a.log)
  }

  /** Reads one answer until everything is there, it ends, the connection breaks or a write fails. The position
    * has moved past the chunk by then. */
  function ReadAll(rest: seq<Range>, pos: nat, segEnd: nat, script: Script, size: nat): (a: Answer)
    requires Ranges(rest, size) && pos <= segEnd
    ensures Ranges(a.rest, size) && pos <= a.pos <= segEnd
    ensures a.rest != [] ==> rest != [] && Last(a.rest).hi == Last(rest).hi
    decreases segEnd - pos
  {
    var much := NextRead(script.chunks, Min(CHUNK, segEnd - pos));
    if rest == [] then Answer(rest, pos, [], script)
    else if much == 0 then Answer(rest, pos, [], script.(chunks := Tail(script.chunks)))
    else
      var w := WriteChunk(rest, pos, pos + much, script.writes, size);
      var script' := script.(chunks := Tail(script.chunks), writes := w.writes);
      if !w.ok then Answer(w.rest, pos + much, w.log, script')
      else AnswerOnto(w.log, ReadAll(w.rest, pos + much, segEnd, script', size))
  }

  /** What is still to be done ends with the segment, so the next request starts inside it. */
  lemma StartsInside(rest: seq<Range>, size: nat)
    requires Ranges(rest, size) && rest != []
    ensures rest[0].lo < Last(rest).hi <= size
  {
    assert |rest| > 1 ==> rest[0].hi <= Last(rest).lo;
  }

  // --- one segment ------------------------------------------------------------------------------

  datatype Outcome = Outcome(result: Result<(), HubError>, log: Log, script: Script)

  function OutcomeOnto(log: Log, o: Outcome): Outcome {
    o.(log := log + o.log)
  }

  /** One request for the range, repeated from where it broke off. */
  function Attempts(n: nat, rest: seq<Range>, pos: nat, segEnd: nat, script: Script, size: nat): Outcome
    requires Ranges(rest, size) && rest != [] && Last(rest).hi == segEnd && pos <= segEnd
  {
    if n == 0 then Outcome(Err(Incomplete), [], script)
    else
      var reply, script' := NextReply(script.replies), script.(replies := Tail(script.replies));
      var from: nat := Max(pos, rest[0].lo);
      assert rest[0].lo < rest[0].hi && (|rest| > 1 ==> rest[0].hi <= Last(rest).lo);
      if reply.Refused? then Outcome(Err(reply.error), [], script')
      else if reply.WholeFile? && from > 0 then Outcome(Err(IgnoredRange), [], script')
      else
        var a := ReadAll(rest, from, segEnd, script', size);
        if a.rest == [] then Outcome(Ok(()), a.log, a.script)
        else OutcomeOnto(a.log, Attempts(n - 1, a.rest, a.pos, segEnd, a.script, size))
  }

  function OneSegment(seg: Segment, done: nat, script: Script, size: nat): Outcome
    requires Ranges(Todo(seg, done), size)
  {
    var todo := Todo(seg, done);
    if todo == [] then Outcome(Ok(()), [], script)
    else
      assert todo[0].lo < todo[0].hi && (|todo| > 1 ==> todo[0].hi <= Last(todo).lo);
      Attempts(RETRIES, todo, todo[0].lo, Last(todo).hi, script, size)
  }

  // --- all segments -----------------------------------------------------------------------------

  ghost predicate InRanges(segs: seq<Segment>, size: nat) {
    forall j, done: nat | 0 <= j < |segs| :: Ranges(Todo(Missing(segs[j], done), done), size)
  }

  function AllSegments(segs: seq<Segment>, done: nat, script: Script, size: nat): Outcome
    requires InRanges(segs, size)
  {
    if segs == [] then Outcome(Ok(()), [], script)
    else
      var missing := Missing(segs[0], done);
      assert InRanges(segs[1..], size);
      if missing == [] then AllSegments(segs[1..], done, script, size)
      else
        var o := OneSegment(missing, done, script, size);
        if o.result.Err? then o
        else OutcomeOnto(o.log, AllSegments(segs[1..], Last(missing).end, o.script, size))
  }

  // --- the server, the disk and the loops -------------------------------------------------------

  /** The server and the network before it. */
  class Server {
    const remote: Bytes
    var replies: seq<Reply>
    var chunks: seq<Option<nat>>

    constructor (remote: Bytes, replies: seq<Reply>, chunks: seq<Option<nat>>)
      ensures this.remote == remote && this.replies == replies && this.chunks == chunks
    {
      this.remote, this.replies, this.chunks := remote, replies, chunks;
    }

    method Request(lo: nat, hi: nat) returns (r: Reply)
      modifies this`replies
      ensures r == NextReply(old(replies)) && replies == Tail(old(replies))
    {
      r, replies := NextReply(replies), Tail(replies);
    }

    /** Some of the bytes asked for, none at the end of the answer, None if the connection breaks. */
    method Read(pos: nat, n: nat) returns (chunk: Option<Bytes>)
      requires pos + n <= |remote|
      modifies this`chunks
      ensures chunks == Tail(old(chunks))
      ensures NextRead(old(chunks), n) == if chunk.None? then 0 else |chunk.value|
      ensures chunk.Some? ==> chunk.value == remote[pos..pos + |chunk.value|]
    {
      var much := NextRead(chunks, n);
      chunk := if chunks != [] && chunks[0].None? then None else Some(remote[pos..pos + much]);
      chunks := Tail(chunks);
    }
  }

  /** The partial and the finished file. `trace` keeps every content the partial file has had. */
  class Disk {
    var part: Option<Bytes>
    var final: Option<Bytes>
    var writes: seq<bool>
    ghost var trace: seq<Bytes>

    constructor (part: Option<Bytes>, final: Option<Bytes>, writes: seq<bool>)
      ensures this.part == part && this.final == final && this.writes == writes && trace == []
    {
      this.part, this.final, this.writes, trace := part, final, writes, [];
    }

    method Append(data: Bytes) returns (ok: bool)
      requires part.Some?
      modifies this`part, this`writes, this`trace
      ensures ok == NextWorks(old(writes)) && writes == Tail(old(writes))
      ensures part == Some(old(part).value + if ok then data else []) && trace == old(trace) + [part.value]
    {
      ok, writes := NextWorks(writes), Tail(writes);
      part := Some(part.value + if ok then data else []);
      trace := trace + [part.value];
    }
  }

  ghost function ScriptOf(server: Server, disk: Disk): Script
    reads server, disk
  {
    Script(server.replies, server.chunks, disk.writes)
  }

  /** The partial file has got what the log says and nothing else, and only ever grew. */
  ghost predicate Grew(remote: Bytes, before: Bytes, was: seq<Bytes>, log: Log, now: Option<Bytes>, trace: seq<Bytes>) {
    && now == Some(before + BytesAt(remote, Written(log)))
    && was <= trace && forall c | c in trace[|was|..] :: before <= c <= now.value
  }

  lemma GrewNothing(remote: Bytes, before: Bytes, was: seq<Bytes>)
    ensures Grew(remote, before, was, [], Some(before), was)
  {
    assert before + BytesAt(remote, []) == before;
  }

  lemma GrewOne(remote: Bytes, before: Bytes, was: seq<Bytes>, lo: nat, hi: nat, ok: bool)
    requires lo < hi <= |remote|
    ensures var now := before + if ok then remote[lo..hi] else [];
            Grew(remote, before, was, [Write(lo, hi, ok)], Some(now), was + [now])
  {
    var log := [Write(lo, hi, ok)];
    assert log[1..] == [] && Written(log) == if ok then Span(lo, hi) else [];
    assert BytesAt(remote, Written(log)) == if ok then remote[lo..hi] else [];
  }

  lemma GrewMore(remote: Bytes, before: Bytes, was: seq<Bytes>, a: Log, mid: Option<Bytes>, midTrace: seq<Bytes>,
                 b: Log, now: Option<Bytes>, trace: seq<Bytes>)
    requires Grew(remote, before, was, a, mid, midTrace) && Grew(remote, mid.value, midTrace, b, now, trace)
    ensures Grew(remote, before, was, a + b, now, trace)
  {
    WrittenJoin(a, b);
    BytesJoin(remote, Written(a), Written(b));
    Assoc(before, BytesAt(remote, Written(a)), BytesAt(remote, Written(b)));
    assert trace[|was|..] == midTrace[|was|..] + trace[|midTrace|..];
  }

  /** Writes what a chunk holds of the wanted ranges and drops the gaps between them. */
  method WriteWanted(disk: Disk, ranges: seq<Range>, first: nat, lo: nat, chunk: Bytes, ghost remote: Bytes)
    returns (todo: seq<Range>, i: nat, ok: bool, ghost log: Log)
    requires disk.part.Some? && first <= |ranges| && Ranges(ranges[first..], |remote|)
    requires lo + |chunk| <= |remote| && chunk == remote[lo..lo + |chunk|]
    modifies disk`part, disk`writes, disk`trace
    ensures i <= |todo|
    ensures WriteChunk(ranges[first..], lo, lo + |chunk|, old(disk.writes), |remote|)
            == Wrote(todo[i..], log, ok, disk.writes)
    ensures Grew(remote, old(disk.part.value), old(disk.trace), log, disk.part, disk.trace)
  {
    hide Grew, Ranges, WriteChunk;
    var hi := lo + |chunk|;
    todo, i, ok, log := ranges, first, true, [];
    GrewNothing(remote, disk.part.value, disk.trace);
    ghost var before, was, goal := disk.part.value, disk.trace,
        WriteChunk(ranges[first..], lo, hi, disk.writes, |remote|);
    while i < |todo| && todo[i].lo < hi
      invariant disk.part.Some? && i <= |todo| && Ranges(todo[i..], |remote|)
      invariant goal == WroteOnto(log, WriteChunk(todo[i..], lo, hi, disk.writes, |remote|))
      invariant ok && Grew(remote, before, was, log, disk.part, disk.trace)
      decreases |todo| - i
    {
      var a, b := todo[i].lo, todo[i].hi;
      var x, y := Max(a, lo), Min(b, hi);
      ghost var rest := todo[i..];
      RangesTail(rest, |remote|);
      ChunkUnfolds(rest, lo, hi, disk.writes, |remote|);
      if y > x {
        ghost var mid, midTrace := disk.part, disk.trace;
        SubChunk(remote, lo, hi, x, y);
        ok := disk.Append(chunk[x - lo..y - lo]);
        GrewOne(remote, mid.value, midTrace, x, y, ok);
        GrewMore(remote, before, was, log, mid, midTrace, [Write(x, y, ok)], disk.part, disk.trace);
        ghost var done := log;
        log := log + [Write(x, y, ok)];
        if !ok {
          return;
        }
        if b <= hi {
          Assoc(done, [Write(x, y, true)], WriteChunk(rest[1..], lo, hi, disk.writes, |remote|).log);
        }
      } else if b <= hi {
        assert [] + WriteChunk(rest[1..], lo, hi, disk.writes, |remote|).log
            == WriteChunk(rest[1..], lo, hi, disk.writes, |remote|).log;
      }
      if b <= hi {
        i := i + 1;
        assert todo[i..] == rest[1..];
      } else {
        todo := todo[i := Range(Max(a, hi), b)];
        assert todo[i..] == rest[0 := Range(Max(a, hi), b)];
        return;
      }
    }
    ChunkStops(todo[i..], lo, hi, disk.writes, |remote|);
    assert log + [] == log;
  }

  lemma RangesTail(rest: seq<Range>, size: nat)
    requires Ranges(rest, size) && rest != []
    ensures Ranges(rest[1..], size)
  {
  }

  lemma SubChunk(remote: Bytes, lo: nat, hi: nat, x: nat, y: nat)
    requires lo <= x <= y <= hi <= |remote|
    ensures remote[lo..hi][x - lo..y - lo] == remote[x..y]
  {
    assert remote[lo..hi] == remote[lo..x] + remote[x..y] + remote[y..hi];
  }

  /** Reads one answer until everything is there, it ends, the connection breaks or a write fails. */
  method ReadAnswer(server: Server, disk: Disk, ranges: seq<Range>, first: nat, start: nat, segEnd: nat)
    returns (todo: seq<Range>, i: nat, pos: nat, ghost log: Log)
    requires disk.part.Some? && first <= |ranges| && Ranges(ranges[first..], |server.remote|)
    requires start <= segEnd <= |server.remote|
    modifies server`chunks, disk`part, disk`writes, disk`trace
    ensures i <= |todo|
    ensures ReadAll(ranges[first..], start, segEnd, old(ScriptOf(server, disk)), |server.remote|)
            == Answer(todo[i..], pos, log, ScriptOf(server, disk))
    ensures Grew(server.remote, old(disk.part.value), old(disk.trace), log, disk.part, disk.trace)
  {
    hide Grew, Ranges, WriteChunk;
    todo, i, pos, log := ranges, first, start, [];
    GrewNothing(server.remote, disk.part.value, disk.trace);
    ghost var size, before, was := |server.remote|, disk.part.value, disk.trace;
    ghost var goal := ReadAll(ranges[first..], start, segEnd, ScriptOf(server, disk), size);
    while i < |todo|
      invariant disk.part.Some? && i <= |todo| && Ranges(todo[i..], size) && pos <= segEnd
      invariant goal == AnswerOnto(log, ReadAll(todo[i..], pos, segEnd, ScriptOf(server, disk), size))
      invariant Grew(server.remote, before, was, log, disk.part, disk.trace)
      decreases segEnd - pos
    {
      ghost var rest, script := todo[i..], ScriptOf(server, disk);
      var chunk := server.Read(pos, Min(CHUNK, segEnd - pos));
      if chunk.None? || chunk.value == [] {
        return;
      }
      var lo := pos;
      pos := pos + |chunk.value|;
      ghost var done, mid, midTrace := log, disk.part, disk.trace;
      var ok;
      ghost var more;
      todo, i, ok, more := WriteWanted(disk, todo, i, lo, chunk.value, server.remote);
      GrewMore(server.remote, before, was, done, mid, midTrace, more, disk.part, disk.trace);
      log := done + more;
      if !ok {
        return;
      }
      Assoc(done, more, ReadAll(todo[i..], pos, segEnd, ScriptOf(server, disk), size).log);
    }
  }

  method ListTodo(seg: Segment, done: nat) returns (todo: seq<Range>)
    ensures todo == Todo(seg, done)
  {
    todo := [];
    for j := 0 to |seg|
      invariant todo == Todo(seg[..j], done)
    {
      var t := seg[j];
      var skip := Max(0, done - t.start);
      assert seg[..j + 1][..j] == seg[..j];
      if t.absEnd > t.absStart + skip {
        todo := todo + [Range(t.absStart + skip, t.absEnd)];
      }
    }
    assert seg[..|seg|] == seg;
  }

  /** commonnet/hub.py _stream_segment: one request for a merged range, repeated where it broke off. */
  method StreamSegment(server: Server, disk: Disk, seg: Segment, done: nat)
    returns (r: Result<(), HubError>, ghost log: Log)
    requires disk.part.Some? && Ranges(Todo(seg, done), |server.remote|)
    modifies server`replies, server`chunks, disk`part, disk`writes, disk`trace
    ensures OneSegment(seg, done, old(ScriptOf(server, disk)), |server.remote|) ==
              Outcome(r, log, ScriptOf(server, disk))
    ensures Grew(server.remote, old(disk.part.value), old(disk.trace), log, disk.part, disk.trace)
  {
    hide Grew, Ranges, ReadAll, Todo;
    log := [];
    GrewNothing(server.remote, disk.part.value, disk.trace);
    var todo := ListTodo(seg, done);
    if todo == [] {
      return Ok(()), log;
    }
    StartsInside(todo, |server.remote|);
    ghost var size, before, was := |server.remote|, disk.part.value, disk.trace;
    var segEnd: nat, pos: nat, i: nat := Last(todo).hi, todo[0].lo, 0;
    assert todo[0..] == todo;
    ghost var goal := Attempts(RETRIES, todo, pos, segEnd, ScriptOf(server, disk), size);
    for attempt := 0 to RETRIES
      invariant disk.part.Some? && i < |todo| && Ranges(todo[i..], size) && Last(todo[i..]).hi == segEnd
      invariant pos <= segEnd <= size
      invariant goal == OutcomeOnto(log,
                                    Attempts(RETRIES - attempt, todo[i..], pos, segEnd, ScriptOf(server, disk), size))
      invariant Grew(server.remote, before, was, log, disk.part, disk.trace)
    {
      ghost var script := ScriptOf(server, disk);
      StartsInside(todo[i..], size);
      var from: nat := Max(pos, todo[i].lo);
      var reply := server.Request(from, segEnd);
      if reply.Refused? {
        return Err(reply.error), log;
      }
      pos := from;
      if reply.WholeFile? && pos > 0 {
        return Err(IgnoredRange), log;
      }
      ghost var mid, midTrace, before', more := disk.part, disk.trace, log, [];
      todo, i, pos, more := ReadAnswer(server, disk, todo, i, pos, segEnd);
      GrewMore(server.remote, before, was, before', mid, midTrace, more, disk.part, disk.trace);
      log := before' + more;
      if i == |todo| {
        return Ok(()), log;
      }
      Assoc(before', more, Attempts(RETRIES - attempt - 1, todo[i..], pos, segEnd, ScriptOf(server, disk), size).log);
    }
    return Err(Incomplete), log;
  }

  method ListMissing(seg: Segment, done: nat) returns (missing: Segment)
    ensures missing == Missing(seg, done)
  {
    missing := [];
    for j := 0 to |seg|
      invariant missing == Missing(seg[..j], done)
    {
      assert seg[..j + 1][..j] == seg[..j];
      if seg[j].end > done {
        missing := missing + [seg[j]];
      }
    }
    assert seg[..|seg|] == seg;
  }

  /** The segment loop of fetch_compact. */
  method StreamAll(server: Server, disk: Disk, items: seq<Item>, start: nat)
    returns (r: Result<(), HubError>, ghost log: Log)
    requires disk.part.Some? && InRanges(PlanFor(items), |server.remote|)
    modifies server`replies, server`chunks, disk`part, disk`writes, disk`trace
    ensures AllSegments(PlanFor(items), start, old(ScriptOf(server, disk)), |server.remote|)
            == Outcome(r, log, ScriptOf(server, disk))
    ensures Grew(server.remote, old(disk.part.value), old(disk.trace), log, disk.part, disk.trace)
  {
    hide Grew, OneSegment, Missing, Ranges, Plan;
    log := [];
    var segs := PlanSegments(items);
    GrewNothing(server.remote, disk.part.value, disk.trace);
    ghost var size, before, was := |server.remote|, disk.part.value, disk.trace;
    ghost var goal := AllSegments(segs, start, ScriptOf(server, disk), size);
    assert segs[0..] == segs;
    var done := start;
    for j := 0 to |segs|
      invariant disk.part.Some? && InRanges(segs[j..], size)
      invariant goal == OutcomeOnto(log, AllSegments(segs[j..], done, ScriptOf(server, disk), size))
      invariant Grew(server.remote, before, was, log, disk.part, disk.trace)
    {
      ghost var rest := segs[j..];
      assert rest[0] == segs[j] && rest[1..] == segs[j + 1..];
      var missing := ListMissing(segs[j], done);
      if missing != [] {
        assert Ranges(Todo(missing, done), size);
        ghost var mid, midTrace, before', more := disk.part, disk.trace, log, [];
        r, more := StreamSegment(server, disk, missing, done);
        GrewMore(server.remote, before, was, before', mid, midTrace, more, disk.part, disk.trace);
        log := before' + more;
        if r.Err? {
          return;
        }
        done := Last(missing).end;
        InRangesTail(segs, j, size);
        Assoc(before', more, AllSegments(segs[j + 1..], done, ScriptOf(server, disk), size).log);
      } else {
        InRangesTail(segs, j, size);
      }
    }
    return Ok(()), log;
  }

  lemma InRangesTail(segs: seq<Segment>, j: nat, size: nat)
    requires j < |segs| && InRanges(segs[j..], size)
    ensures InRanges(segs[j + 1..], size)
  {
    assert segs[j..][1..] == segs[j + 1..];
    assert InRanges(segs[j..][1..], size);
  }
}
