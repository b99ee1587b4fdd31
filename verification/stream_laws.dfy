/** What every run of the segment loop does, for every script: what it writes, in which order, at most, and when
  * everything works.
  */
module StreamLaws {
  import opened Basics
  import opened Segments
  import opened CompactLayout
  import opened SegmentStream

  // --- logs -------------------------------------------------------------------------------------

  lemma WithinJoin(a: Log, b: Log, lo: nat, mid: nat, hi: nat)
    requires lo <= mid <= hi && Within(a, lo, mid) && Within(b, mid, hi)
    ensures Within(a + b, lo, hi)
  {
  }

  lemma AllOkFirst(log: Log)
    requires log != []
    ensures AllOk(log) <==> log[0].ok && AllOk(log[1..])
  {
    assert forall w | w in log :: w == log[0] || w in log[1..];
  }

  lemma AllOkJoin(a: Log, b: Log)
    ensures AllOk(a + b) <==> AllOk(a) && AllOk(b)
  {
    assert forall w | w in a || w in b :: w in a + b;
  }

  lemma {:induction false} TriedJoin(a: Log, b: Log)
    ensures Tried(a + b) == Tried(a) + if AllOk(a) then Tried(b) else []
  {
    if a == [] {
      assert a + b == b;
    } else {
      AllOkFirst(a);
      hide Span, AllOk;
      TriedJoin(a[1..], b);
      assert (a + b)[1..] == a[1..] + b;
      if a[0].ok {
        Assoc(Span(a[0].lo, a[0].hi), Tried(a[1..]), if AllOk(a[1..]) then Tried(b) else []);
      }
    }
  }

  lemma {:induction false} AllOkIsTried(log: Log)
    requires AllOk(log)
    ensures Written(log) == Tried(log) && Clean(log)
  {
    if log != [] {
      assert log[0] in log;
      AllOkIsTried(log[1..]);
    }
  }

  lemma {:induction false} WrittenBounds(log: Log, lo: nat, hi: nat)
    requires Within(log, lo, hi)
    ensures forall place | place in Written(log) :: lo <= place < hi
    ensures NoneOk(log) <==> Written(log) == []
  {
    if log != [] {
      assert log[0] in log && Within(log[1..], lo, hi);
      WrittenBounds(log[1..], lo, hi);
      assert forall w | w in log :: w == log[0] || w in log[1..];
      assert log[0].ok ==> Span(log[0].lo, log[0].hi)[0] == log[0].lo;
    }
  }

  /** If writes go in order and, until one fails, bring exactly what is needed next, then the file stays right
    * if and only if nothing is written after a failure. */
  lemma {:induction false} PrefixIffClean(log: Log, lo: nat, hi: nat, need: seq<nat>)
    requires Within(log, lo, hi) && Tried(log) <= need
    ensures Written(log) <= need <==> Clean(log)
    decreases |log|
  {
    if log != [] {
      var first, rest := log[0], log[1..];
      var span := Span(first.lo, first.hi);
      assert Within(rest, first.hi, hi);
      if first.ok {
        PrefixIffClean(rest, first.hi, hi, need[|span|..]);
        PrefixDrop(span, Written(rest), need);
        PrefixDrop(span, Tried(rest), need);
      } else {
        WrittenBounds(rest, first.hi, hi);
        assert span[0] == first.lo && need[0] == first.lo;
        assert Written(log) == Written(rest);
        if Written(rest) != [] {
          assert Written(rest)[0] in Written(rest);
        }
      }
    }
  }

  lemma PrefixDrop(a: seq<nat>, b: seq<nat>, c: seq<nat>)
    requires a <= c
    ensures a + b <= c <==> b <= c[|a|..]
  {
    if b <= c[|a|..] {
      assert c == a + c[|a|..];
    }
    if a + b <= c {
      assert c[|a|..][..|b|] == (a + b)[|a|..];
    }
  }

  // --- what a segment asks for ------------------------------------------------------------------

  lemma {:induction false} PlacesJoin(a: seq<Range>, b: seq<Range>)
    ensures Places(a + b) == Places(a) + Places(b)
  {
    if a == [] {
      assert a + b == b;
    } else {
      hide Span;
      PlacesJoin(a[1..], b);
      assert (a + b)[1..] == a[1..] + b;
      Assoc(Span(a[0].lo, a[0].hi), Places(a[1..]), Places(b));
    }
  }

  lemma {:induction false} TodoIsLacks(seg: Segment, done: nat)
    ensures Places(Todo(seg, done)) == Lacks(seg, done)
  {
    hide Places, Lacking, Todo, Lacks;
    if seg == [] {
      NoTodo(done);
      NoPlaces();
      NoLacks(done);
    } else {
      var front, t := seg[..|seg| - 1], Last(seg);
      var skip := Max(0, done - t.start);
      assert seg == front + [t];
      TodoIsLacks(front, done);
      TodoOneMore(front, t, done);
      LacksStep(front, t, done);
      PlacesJoin(Todo(front, done), if t.absEnd > t.absStart + skip then [Range(t.absStart + skip, t.absEnd)] else []);
      OneTodo(t, done);
    }
  }

  lemma NoTodo(done: nat)
    ensures Todo([], done) == []
  {
  }

  lemma OneTodo(t: Item, done: nat)
    ensures var skip := Max(0, done - t.start);
            Places(if t.absEnd > t.absStart + skip then [Range(t.absStart + skip, t.absEnd)] else []) ==
              Lacking(t, done)
  {
    var from: nat := t.absStart + Max(0, done - t.start);
    assert [Range(from, t.absEnd)][1..] == [] && Places([]) == [];
    assert Places([Range(from, t.absEnd)]) == Span(from, t.absEnd) + [];
  }

  ghost predicate From(seg: Segment, floor: nat) {
    forall t | t in seg :: !Empty(t) ==> floor <= t.absStart
  }

  /** The ranges lie in the file, disjoint and in order. */
  lemma {:induction false} TodoIsRanges(seg: Segment, done: nat, size: nat, floor: nat)
    requires Tidy(seg) && Measured(seg, size) && From(seg, floor)
    ensures Inside(Todo(seg, done), seg, size, floor)
    decreases |seg|
  {
    hide Ranges, Tidy, Measured, EndsIn, From, Inside;
    if seg != [] {
      var front, t := seg[..|seg| - 1], Last(seg);
      SegmentFront(seg, size, floor);
      TodoIsRanges(front, done, size, floor);
      var skip := Max(0, done - t.start);
      InsideLonger(Todo(front, done), seg, size, floor);
      if t.absEnd > t.absStart + skip {
        InsideAppend(Todo(front, done), seg, size, floor, Range(t.absStart + skip, t.absEnd));
      } else {
        assert Todo(front, done) + [] == Todo(front, done);
      }
    } else {
      NoRanges(size, floor);
    }
  }

  /** Ranges that lie in the file and end where tensors of the segment end. */
  ghost predicate Inside(todo: seq<Range>, seg: Segment, size: nat, floor: nat) {
    Ranges(todo, size) && forall i | 0 <= i < |todo| :: floor <= todo[i].lo && EndsIn(seg, todo[i].hi)
  }

  lemma InsideLonger(todo: seq<Range>, seg: Segment, size: nat, floor: nat)
    requires seg != [] && Tidy(seg) && Inside(todo, seg[..|seg| - 1], size, floor)
    ensures Inside(todo, seg, size, floor)
    ensures !Empty(Last(seg)) ==> forall i | 0 <= i < |todo| :: todo[i].hi <= Last(seg).absStart
  {
    hide Tidy, EndsIn;
    forall i | 0 <= i < |todo|
      ensures EndsIn(seg, todo[i].hi) && (!Empty(Last(seg)) ==> todo[i].hi <= Last(seg).absStart)
    {
      EndsEarlier(seg, todo[i].hi);
    }
  }

  lemma InsideAppend(todo: seq<Range>, seg: Segment, size: nat, floor: nat, r: Range)
    requires Inside(todo, seg, size, floor) && floor <= r.lo < r.hi <= size && EndsIn(seg, r.hi)
    requires forall i | 0 <= i < |todo| :: todo[i].hi <= r.lo
    ensures Inside(todo + [r], seg, size, floor)
  {
    hide EndsIn;
  }

  lemma NoRanges(size: nat, floor: nat)
    ensures Inside([], [], size, floor)
  {
  }

  lemma SegmentFront(seg: Segment, size: nat, floor: nat)
    requires Tidy(seg) && Measured(seg, size) && From(seg, floor) && seg != []
    ensures Tidy(seg[..|seg| - 1]) && Measured(seg[..|seg| - 1], size) && From(seg[..|seg| - 1], floor)
    ensures var t := Last(seg);
            !Empty(t) ==> floor <= t.absStart && t.absEnd <= size && EndsIn(seg, t.absEnd)
  {
    var front, t := seg[..|seg| - 1], Last(seg);
    assert t in seg && forall x | x in front :: x in seg;
    assert seg[|seg| - 1] == t;
  }

  lemma EndsEarlier(seg: Segment, place: nat)
    requires Tidy(seg) && seg != [] && EndsIn(seg[..|seg| - 1], place)
    ensures EndsIn(seg, place) && (!Empty(Last(seg)) ==> place <= Last(seg).absStart)
  {
    var front := seg[..|seg| - 1];
    var k :| 0 <= k < |front| && !Empty(front[k]) && front[k].absEnd == place;
    assert front[k] == seg[k] && Precedes(seg[k], Last(seg));
  }

  ghost predicate EndsIn(seg: Segment, place: nat) {
    exists k | 0 <= k < |seg| :: !Empty(seg[k]) && seg[k].absEnd == place
  }

  // --- what goes into the log -------------------------------------------------------------------

  /** What a log has to do with what was needed before it and what is after it. */
  ghost predicate Advances(log: Log, before: seq<nat>, after: seq<nat>) {
    if AllOk(log) then Written(log) + after == before else Tried(log) <= before
  }

  lemma AdvancesJoin(a: Log, b: Log, p: seq<nat>, q: seq<nat>, r: seq<nat>)
    requires Advances(a, p, q) && (AllOk(a) ==> Advances(b, q, r))
    ensures Advances(a + b, p, r) && (AllOk(a + b) <==> AllOk(a) && AllOk(b))
  {
    hide AllOk, Written, Tried;
    WrittenJoin(a, b);
    TriedJoin(a, b);
    AllOkJoin(a, b);
    if AllOk(a) {
      AllOkIsTried(a);
      if AllOk(b) {
        Assoc(Written(a), Written(b), r);
      }
    }
  }

  lemma AdvancesTries(log: Log, before: seq<nat>, after: seq<nat>)
    requires Advances(log, before, after)
    ensures Tried(log) <= before
  {
    if AllOk(log) {
      AllOkIsTried(log);
    }
  }

  lemma OneAdvances(lo: nat, hi: nat, end: nat, ok: bool, rest: seq<nat>)
    requires lo < hi <= end
    ensures Advances([Write(lo, hi, ok)], Span(lo, end) + rest, Span(if ok then hi else lo, end) + rest)
    ensures AllOk([Write(lo, hi, ok)]) <==> ok
  {
    var log := [Write(lo, hi, ok)];
    assert log[1..] == [] && log[0] in log;
    assert Span(lo, end) == Span(lo, hi) + Span(hi, end);
    Assoc(Span(lo, hi), Span(hi, end), rest);
    if ok {
      assert AllOk(log) && Written(log) == Span(lo, hi);
    } else {
      assert !AllOk(log) && Tried(log) == Span(lo, hi);
    }
  }

  lemma NothingAdvances(p: seq<nat>)
    ensures Advances([], p, p) && AllOk([])
  {
  }

  lemma WithinWider(log: Log, lo: nat, hi: nat, lo': nat, hi': nat)
    requires Within(log, lo, hi) && lo' <= lo && hi <= hi'
    ensures Within(log, lo', hi')
  {
  }

  /** The first range of a chunk: what is written of it, and what comes after. */
  lemma ChunkStep(rest: seq<Range>, lo: nat, hi: nat, writes: seq<bool>, size: nat)
    returns (log: Log, next: Log, writes': seq<bool>)
    requires Ranges(rest, size) && rest != [] && rest[0].lo < hi
    ensures WriteChunk(rest, lo, hi, writes, size).log == log + next && rest[0].lo < rest[0].hi
    ensures var x, y := Max(rest[0].lo, lo), Min(rest[0].hi, hi);
            if y > x then |log| == 1 && log[0].lo == x && log[0].hi == y else log == []
    ensures next == [] || (rest[0].hi <= hi && Ranges(rest[1..], size) && |rest| > 1 && rest[0].hi <= rest[1].lo
                           && next == WriteChunk(rest[1..], lo, hi, writes', size).log)
  {
    var x, y := Max(rest[0].lo, lo), Min(rest[0].hi, hi);
    writes' := if y > x then Tail(writes) else writes;
    log := if y > x then [Write(x, y, NextWorks(writes))] else [];
    next :=
      if rest[0].hi <= hi && (y > x ==> NextWorks(writes)) then WriteChunk(rest[1..], lo, hi, writes', size).log
      else [];
  }

  lemma {:induction false} ChunkWithin(rest: seq<Range>, lo: nat, hi: nat, writes: seq<bool>, size: nat)
    requires Ranges(rest, size) && lo <= hi
    ensures Within(WriteChunk(rest, lo, hi, writes, size).log, if rest == [] then lo else Max(lo, rest[0].lo), hi)
    decreases |rest|
  {
    hide WriteChunk, Ranges, Within;
    if rest == [] || rest[0].lo >= hi {
      ChunkStops(rest, lo, hi, writes, size);
      NoneWithin(if rest == [] then lo else Max(lo, rest[0].lo), hi);
    } else {
      var log, next, writes' := ChunkStep(rest, lo, hi, writes, size);
      var x: nat, y: nat := Max(rest[0].lo, lo), Min(rest[0].hi, hi);
      if next == [] {
        NoneWithin(Max(x, y), hi);
      } else {
        ChunkWithin(rest[1..], lo, hi, writes', size);
        WithinWider(next, Max(lo, rest[1].lo), hi, Max(x, y), hi);
      }
      ThenWithin(log, next, x, y, hi);
    }
  }

  lemma NoneWithin(lo: nat, hi: nat)
    ensures Within([], lo, hi)
  {
  }

  lemma ThenWithin(log: Log, next: Log, x: nat, y: nat, hi: nat)
    requires y <= hi && Within(next, Max(x, y), hi)
    requires if y > x then |log| == 1 && log[0].lo == x && log[0].hi == y else log == []
    ensures Within(log + next, x, hi)
  {
  }

  /** As long as the position is not past what is needed next, a chunk brings what is needed next. */
  lemma {:induction false} ChunkAdvances(rest: seq<Range>, lo: nat, hi: nat, writes: seq<bool>, size: nat)
    requires Ranges(rest, size) && lo <= hi && (rest != [] ==> lo <= rest[0].lo)
    ensures var w := WriteChunk(rest, lo, hi, writes, size);
            && Advances(w.log, Places(rest), Places(w.rest)) && (w.ok <==> AllOk(w.log))
            && (w.ok && w.rest != [] ==> hi <= w.rest[0].lo)
    decreases |rest|
  {
    hide Advances, AllOk;
    NothingAdvances(Places(rest));
    if rest != [] && rest[0].lo < hi {
      var a, b, after := rest[0].lo, rest[0].hi, Places(rest[1..]);
      var y: nat := Min(b, hi);
      var log := [Write(a, y, NextWorks(writes))];
      OneAdvances(a, y, b, NextWorks(writes), after);
      if NextWorks(writes) && b <= hi {
        ChunkAdvances(rest[1..], lo, hi, Tail(writes), size);
        var next := WriteChunk(rest[1..], lo, hi, Tail(writes), size);
        assert Span(b, b) + after == after;
        AdvancesJoin(log, next.log, Places(rest), after, Places(next.rest));
      } else if NextWorks(writes) {
        assert rest[0 := Range(hi, b)][1..] == rest[1..];
      }
    }
  }

  lemma {:induction false} ReadWithin(rest: seq<Range>, pos: nat, segEnd: nat, script: Script, size: nat)
    requires Ranges(rest, size) && pos <= segEnd
    ensures var a := ReadAll(rest, pos, segEnd, script, size);
            Within(a.log, pos, a.pos)
    decreases segEnd - pos
  {
    hide WriteChunk, Ranges, Within;
    NoneWithin(pos, pos);
    var much := NextRead(script.chunks, Min(CHUNK, segEnd - pos));
    if rest != [] && much > 0 {
      var w := WriteChunk(rest, pos, pos + much, script.writes, size);
      var script' := script.(chunks := Tail(script.chunks), writes := w.writes);
      ChunkWithin(rest, pos, pos + much, script.writes, size);
      WithinWider(w.log, if rest == [] then pos else Max(pos, rest[0].lo), pos + much, pos, pos + much);
      if w.ok {
        ReadWithin(w.rest, pos + much, segEnd, script', size);
        var a := ReadAll(w.rest, pos + much, segEnd, script', size);
        WithinJoin(w.log, a.log, pos, pos + much, a.pos);
      }
    }
  }

  lemma {:induction false} ReadAdvances(rest: seq<Range>, pos: nat, segEnd: nat, script: Script, size: nat)
    requires Ranges(rest, size) && pos <= segEnd && (rest != [] ==> pos <= rest[0].lo)
    ensures var a := ReadAll(rest, pos, segEnd, script, size);
            && Advances(a.log, Places(rest), Places(a.rest))
            && (AllOk(a.log) && a.rest != [] ==> a.pos <= a.rest[0].lo)
    decreases segEnd - pos
  {
    hide WriteChunk, Ranges, Advances, AllOk, Places;
    NothingAdvances(Places(rest));
    var much := NextRead(script.chunks, Min(CHUNK, segEnd - pos));
    if rest != [] && much > 0 {
      var w := WriteChunk(rest, pos, pos + much, script.writes, size);
      var script' := script.(chunks := Tail(script.chunks), writes := w.writes);
      ChunkAdvances(rest, pos, pos + much, script.writes, size);
      if w.ok {
        ReadAdvances(w.rest, pos + much, segEnd, script', size);
        var a := ReadAll(w.rest, pos + much, segEnd, script', size);
        AdvancesJoin(w.log, a.log, Places(rest), Places(w.rest), Places(a.rest));
      }
    }
  }

  lemma {:induction false} AttemptsWithin(n: nat, rest: seq<Range>, pos: nat, segEnd: nat, script: Script, size: nat)
    requires Ranges(rest, size) && rest != [] && Last(rest).hi == segEnd && pos <= segEnd
    ensures Within(Attempts(n, rest, pos, segEnd, script, size).log, pos, segEnd)
    decreases n
  {
    hide Ranges, Within, ReadAll;
    StartsInside(rest, size);
    NoneWithin(pos, segEnd);
    var from: nat, script' := Max(pos, rest[0].lo), script.(replies := Tail(script.replies));
    var reply := NextReply(script.replies);
    if n > 0 && !reply.Refused? && !(reply.WholeFile? && from > 0) {
      var a := ReadAll(rest, from, segEnd, script', size);
      ReadWithin(rest, from, segEnd, script', size);
      WithinWider(a.log, from, a.pos, pos, a.pos);
      WithinWider(a.log, pos, a.pos, pos, segEnd);
      if a.rest != [] {
        AttemptsWithin(n - 1, a.rest, a.pos, segEnd, a.script, size);
        WithinJoin(a.log, Attempts(n - 1, a.rest, a.pos, segEnd, a.script, size).log, pos, a.pos, segEnd);
      }
    }
  }

  lemma {:induction false} AttemptsAdvance(n: nat, rest: seq<Range>, pos: nat, segEnd: nat, script: Script, size: nat)
    requires Ranges(rest, size) && rest != [] && Last(rest).hi == segEnd && pos <= segEnd && pos <= rest[0].lo
    ensures var o := Attempts(n, rest, pos, segEnd, script, size);
            && Tried(o.log) <= Places(rest)
            && (o.result.Ok? ==> Advances(o.log, Places(rest), []))
    decreases n
  {
    hide Ranges, Advances, ReadAll, AllOk, Places, Tried;
    StartsInside(rest, size);
    NothingAdvances(Places(rest));
    AdvancesTries([], Places(rest), Places(rest));
    var from, script' := rest[0].lo, script.(replies := Tail(script.replies));
    var reply := NextReply(script.replies);
    if n > 0 && !reply.Refused? && !(reply.WholeFile? && from > 0) {
      var a := ReadAll(rest, from, segEnd, script', size);
      ReadAdvances(rest, from, segEnd, script', size);
      AdvancesTries(a.log, Places(rest), Places(a.rest));
      if a.rest != [] {
        var o := Attempts(n - 1, a.rest, a.pos, segEnd, a.script, size);
        if AllOk(a.log) {
          AttemptsAdvance(n - 1, a.rest, a.pos, segEnd, a.script, size);
        }
        TriesJoin(a.log, o.log, Places(rest), Places(a.rest));
        if o.result.Ok? {
          AdvancesJoin(a.log, o.log, Places(rest), Places(a.rest), []);
        }
      } else {
        NoPlaces();
      }
    }
  }

  lemma NoPlaces()
    ensures Places([]) == []
  {
  }

  lemma TriesJoin(a: Log, b: Log, p: seq<nat>, q: seq<nat>)
    requires Advances(a, p, q) && (AllOk(a) ==> Tried(b) <= q)
    ensures Tried(a + b) <= p
  {
    hide AllOk, Written, Tried;
    TriedJoin(a, b);
    AdvancesTries(a, p, q);
    if AllOk(a) {
      AllOkIsTried(a);
      PrefixDrop(Written(a), Tried(b), p);
      assert p[|Written(a)|..] == q;
    }
  }

  // --- the segments together --------------------------------------------------------------------

  lemma {:induction false} TodoOfMissing(seg: Segment, done: nat, size: nat)
    requires Measured(seg, size)
    ensures Todo(Missing(seg, done), done) == Todo(seg, done)
    decreases |seg|
  {
    if seg != [] {
      var front, t := seg[..|seg| - 1], Last(seg);
      assert t in seg && forall x | x in front :: x in seg;
      assert Missing(seg, done) == Missing(front, done) + if t.end > done then [t] else [];
      assert t.end <= done ==> t.absEnd <= t.absStart + Max(0, done - t.start);
      hide Todo, Missing;
      TodoOfMissing(front, done, size);
      TodoOneMore(front, t, done);
      assert seg == front + [t];
      if t.end > done {
        TodoOneMore(Missing(front, done), t, done);
      } else {
        assert Missing(front, done) + [] == Missing(front, done) && Todo(front, done) + [] == Todo(front, done);
      }
    }
  }

  lemma TodoOneMore(seg: Segment, t: Item, done: nat)
    ensures var skip := Max(0, done - t.start);
            Todo(seg + [t], done)
            == Todo(seg, done) + if t.absEnd > t.absStart + skip then [Range(t.absStart + skip, t.absEnd)] else []
  {
    assert (seg + [t])[..|seg|] == seg;
  }

  lemma PlanIsInRanges(segs: seq<Segment>, size: nat)
    requires TidyPlan(segs, size)
    ensures InRanges(segs, size)
  {
    forall j, done: nat | 0 <= j < |segs|
      ensures Ranges(Todo(Missing(segs[j], done), done), size)
    {
      TodoOfMissing(segs[j], done, size);
      TodoIsRanges(segs[j], done, size, 0);
    }
  }

  lemma PlanTail(segs: seq<Segment>, size: nat)
    requires TidyPlan(segs, size) && segs != []
    ensures TidyPlan(segs[1..], size) && InRanges(segs[1..], size) && InRanges(segs, size)
    ensures segs[0] != [] && Tidy(segs[0]) && Measured(segs[0], size)
  {
    PlanIsInRanges(segs, size);
    var rest := segs[1..];
    assert forall j | 0 <= j < |rest| :: rest[j] == segs[j + 1];
  }

  /** One segment writes in order, and what it lacks. */
  lemma SegmentFacts(seg: Segment, done: nat, script: Script, size: nat, floor: nat) returns (top: nat)
    requires Tidy(seg) && Measured(seg, size) && From(seg, floor) && floor <= size && Missing(seg, done) != []
    ensures Ranges(Todo(Missing(seg, done), done), size)
    ensures floor <= top <= size && (top == floor || EndsIn(seg, top))
    ensures var o := OneSegment(Missing(seg, done), done, script, size);
            && Within(o.log, floor, top)
            && Tried(o.log) <= Lacks(Missing(seg, done), done)
            && (o.result.Ok? ==> Advances(o.log, Lacks(Missing(seg, done), done), []))
  {
    hide Within, Advances, AllOk, Attempts, Lacks, Todo, Tidy, Measured, From, EndsIn, Missing, Places;
    var missing := Missing(seg, done);
    var todo := Todo(missing, done);
    TodoOfMissing(seg, done, size);
    TodoIsRanges(seg, done, size, floor);
    TodoIsLacks(missing, done);
    NothingAdvances([]);
    if todo == [] {
      top := floor;
      NoPlaces();
      NoneWithin(floor, top);
    } else {
      top := Last(todo).hi;
      StartsInside(todo, size);
      assert floor <= todo[0].lo;
      AttemptsWithin(RETRIES, todo, todo[0].lo, top, script, size);
      AttemptsAdvance(RETRIES, todo, todo[0].lo, top, script, size);
      WithinWider(Attempts(RETRIES, todo, todo[0].lo, top, script, size).log, todo[0].lo, top, floor, top);
    }
  }

  lemma LaterSegments(segs: seq<Segment>, size: nat, floor: nat, top: nat)
    requires TidyPlan(segs, size) && segs != [] && forall j | 0 <= j < |segs| :: From(segs[j], floor)
    requires top == floor || EndsIn(segs[0], top)
    ensures forall j | 0 <= j < |segs[1..]| :: From(segs[1..][j], top)
  {
    forall j | 0 <= j < |segs[1..]|
      ensures From(segs[1..][j], top)
    {
      assert segs[1..][j] == segs[j + 1] && From(segs[j + 1], floor);
      if top != floor {
        var k :| 0 <= k < |segs[0]| && !Empty(segs[0][k]) && segs[0][k].absEnd == top;
        var x, later := segs[0][k], segs[j + 1];
        assert x in segs[0];
        forall t | t in later && !Empty(t)
          ensures top <= t.absStart
        {
          assert Precedes(x, t);
        }
      }
    }
  }

  /** A whole run writes in order. Up to the first failed write it brings what the plan asks for, and if it
    * ends well without one, all of it. */
  lemma {:induction false} SegmentsFacts(segs: seq<Segment>, done: nat, script: Script, size: nat, floor: nat)
    requires TidyPlan(segs, size) && floor <= size && forall j | 0 <= j < |segs| :: From(segs[j], floor)
    ensures InRanges(segs, size)
    ensures var o := AllSegments(segs, done, script, size);
            && Within(o.log, floor, size)
            && Tried(o.log) <= Brought(segs, done)
            && (o.result.Ok? ==> Advances(o.log, Brought(segs, done), []))
    decreases |segs|
  {
    hide Within, Advances, AllOk, OneSegment, Lacks, Tidy, Measured, TidyPlan, InRanges, From, Missing;
    PlanIsInRanges(segs, size);
    if segs == [] {
      NothingAdvances([]);
      NoneWithin(floor, size);
    } else {
      PlanTail(segs, size);
      var missing := Missing(segs[0], done);
      if missing == [] {
        SegmentsFacts(segs[1..], done, script, size, floor);
        NoLacks(done);
        assert Brought(segs, done) == Brought(segs[1..], done);
      } else {
        var o := OneSegment(missing, done, script, size);
        var top := SegmentFacts(segs[0], done, script, size, floor);
        WithinWider(o.log, floor, top, floor, size);
        var p, q := Lacks(missing, done), Brought(segs[1..], Last(missing).end);
        assert Brought(segs, done) == p + q;
        if o.result.Ok? {
          LaterSegments(segs, size, floor, top);
          SegmentsFacts(segs[1..], Last(missing).end, o.script, size, top);
          var next := AllSegments(segs[1..], Last(missing).end, o.script, size);
          WithinJoin(o.log, next.log, floor, top, size);
          AdvancesMore(o.log, p, q);
          TriesJoin(o.log, next.log, p + q, q);
          if next.result.Ok? {
            AdvancesJoin(o.log, next.log, p + q, q, []);
          }
        }
      }
    }
  }

  lemma NoLacks(done: nat)
    ensures Lacks([], done) == []
  {
  }

  lemma AdvancesMore(log: Log, p: seq<nat>, q: seq<nat>)
    requires Advances(log, p, [])
    ensures Advances(log, p + q, q)
  {
  }

  // --- how much is written at most --------------------------------------------------------------

  lemma {:induction false} ChunkCount(rest: seq<Range>, lo: nat, hi: nat, writes: seq<bool>, size: nat)
    requires Ranges(rest, size)
    ensures var w := WriteChunk(rest, lo, hi, writes, size);
            |Written(w.log)| + |Places(w.rest)| <= |Places(rest)|
    decreases |rest|
  {
    if rest != [] && rest[0].lo < hi {
      var a, b := rest[0].lo, rest[0].hi;
      var x: nat, y: nat := Max(a, lo), Min(b, hi);
      var log := if y > x then [Write(x, y, NextWorks(writes))] else [];
      assert |Written(log)| <= Max(0, y - x) by {
        assert log != [] ==> log[1..] == [];
      }
      if y > x && !NextWorks(writes) {
        assert Written(log) == [];
      } else if b <= hi {
        var writes' := if y > x then Tail(writes) else writes;
        ChunkCount(rest[1..], lo, hi, writes', size);
        WrittenJoin(log, WriteChunk(rest[1..], lo, hi, writes', size).log);
      } else {
        assert rest[0 := Range(Max(a, hi), b)][1..] == rest[1..];
      }
    }
  }

  lemma NothingWritten()
    ensures Written([]) == []
  {
  }

  lemma {:induction false} ReadCount(rest: seq<Range>, pos: nat, segEnd: nat, script: Script, size: nat)
    requires Ranges(rest, size) && pos <= segEnd
    ensures var a := ReadAll(rest, pos, segEnd, script, size);
            |Written(a.log)| + |Places(a.rest)| <= |Places(rest)|
    decreases segEnd - pos
  {
    hide WriteChunk, Ranges, Places, Written, NextRead;
    NothingWritten();
    var much := NextRead(script.chunks, Min(CHUNK, segEnd - pos));
    if rest != [] && much > 0 {
      var w := WriteChunk(rest, pos, pos + much, script.writes, size);
      var script' := script.(chunks := Tail(script.chunks), writes := w.writes);
      ChunkCount(rest, pos, pos + much, script.writes, size);
      if w.ok {
        ReadCount(w.rest, pos + much, segEnd, script', size);
        WrittenJoin(w.log, ReadAll(w.rest, pos + much, segEnd, script', size).log);
      }
    }
  }

  lemma {:induction false} AttemptsCount(n: nat, rest: seq<Range>, pos: nat, segEnd: nat, script: Script, size: nat)
    requires Ranges(rest, size) && rest != [] && Last(rest).hi == segEnd && pos <= segEnd
    ensures |Written(Attempts(n, rest, pos, segEnd, script, size).log)| <= |Places(rest)|
    decreases n
  {
    hide ReadAll, Ranges, Places;
    StartsInside(rest, size);
    var from: nat, script' := Max(pos, rest[0].lo), script.(replies := Tail(script.replies));
    var reply := NextReply(script.replies);
    if n > 0 && !reply.Refused? && !(reply.WholeFile? && from > 0) {
      var a := ReadAll(rest, from, segEnd, script', size);
      ReadCount(rest, from, segEnd, script', size);
      if a.rest != [] {
        AttemptsCount(n - 1, a.rest, a.pos, segEnd, a.script, size);
        WrittenJoin(a.log, Attempts(n - 1, a.rest, a.pos, segEnd, a.script, size).log);
      }
    }
  }

  /** Whatever goes wrong, a run never writes more than the plan asks for. */
  lemma {:induction false} SegmentsCount(segs: seq<Segment>, done: nat, script: Script, size: nat)
    requires InRanges(segs, size)
    ensures |Written(AllSegments(segs, done, script, size).log)| <= |Brought(segs, done)|
    decreases |segs|
  {
    hide Attempts, Ranges, Lacks, Todo, Missing, Places;
    if segs != [] {
      assert InRanges(segs[1..], size);
      var missing := Missing(segs[0], done);
      if missing == [] {
        SegmentsCount(segs[1..], done, script, size);
      } else {
        var todo := Todo(missing, done);
        assert Ranges(todo, size);
        TodoIsLacks(missing, done);
        if todo != [] {
          StartsInside(todo, size);
          AttemptsCount(RETRIES, todo, todo[0].lo, Last(todo).hi, script, size);
        }
        var o := OneSegment(missing, done, script, size);
        if o.result.Ok? {
          SegmentsCount(segs[1..], Last(missing).end, o.script, size);
          WrittenJoin(o.log, AllSegments(segs[1..], Last(missing).end, o.script, size).log);
        }
      }
    }
  }

  // --- when nothing fails -----------------------------------------------------------------------

  lemma TailsWork(script: Script)
    ensures AllWork(script.writes) ==> AllWork(Tail(script.writes)) && NextWorks(script.writes)
    ensures Steady(script) ==> NextReply(script.replies).Stream?
    ensures Steady(script) ==> forall n: nat :: n > 0 ==> NextRead(script.chunks, n) > 0
    ensures Steady(script) ==>
              && Steady(script.(chunks := Tail(script.chunks)))
              && Steady(script.(replies := Tail(script.replies)))
  {
    assert script.replies != [] ==> script.replies[0] in script.replies;
    assert script.chunks != [] ==> script.chunks[0] in script.chunks;
    assert script.writes != [] ==> script.writes[0] in script.writes;
    assert forall ok | ok in Tail(script.writes) :: ok in script.writes;
  }

  lemma {:induction false} ChunkWorks(rest: seq<Range>, lo: nat, hi: nat, writes: seq<bool>, size: nat)
    requires Ranges(rest, size) && AllWork(writes)
    ensures var w := WriteChunk(rest, lo, hi, writes, size);
            w.ok && AllOk(w.log) && AllWork(w.writes)
    decreases |rest|
  {
    TailsWork(Script([], [], writes));
    if rest != [] && rest[0].lo < hi && rest[0].hi <= hi {
      var writes' := if Min(rest[0].hi, hi) > Max(rest[0].lo, lo) then Tail(writes) else writes;
      ChunkWorks(rest[1..], lo, hi, writes', size);
    }
  }

  /** If every write works, all entries of the log say so; if also every read brings something, one answer
    * brings everything. */
  lemma {:induction false} ReadWorks(rest: seq<Range>, pos: nat, segEnd: nat, script: Script, size: nat)
    requires Ranges(rest, size) && pos <= segEnd && AllWork(script.writes)
    ensures var a := ReadAll(rest, pos, segEnd, script, size);
            && AllOk(a.log) && AllWork(a.script.writes)
            && (Steady(script) ==> Steady(a.script))
            && (Steady(script) && (rest != [] ==> pos <= rest[0].lo && Last(rest).hi == segEnd) ==> a.rest == [])
    decreases segEnd - pos
  {
    hide WriteChunk, Ranges, AllOk, AllWork, Steady, NextRead, Places;
    NothingAdvances([]);
    TailsWork(script);
    var much := NextRead(script.chunks, Min(CHUNK, segEnd - pos));
    if rest != [] {
      StartsInside(rest, size);
    }
    if rest != [] && much > 0 {
      var w := WriteChunk(rest, pos, pos + much, script.writes, size);
      var script' := script.(chunks := Tail(script.chunks), writes := w.writes);
      ChunkWorks(rest, pos, pos + much, script.writes, size);
      SameNet(script.(chunks := Tail(script.chunks)), script');
      ReadWorks(w.rest, pos + much, segEnd, script', size);
      AllOkJoin(w.log, ReadAll(w.rest, pos + much, segEnd, script', size).log);
      if pos <= rest[0].lo {
        ChunkAdvances(rest, pos, pos + much, script.writes, size);
      }
    }
  }

  lemma SameNet(a: Script, b: Script)
    requires a.replies == b.replies && a.chunks == b.chunks
    ensures Steady(a) <==> Steady(b)
  {
  }

  lemma {:induction false} AttemptsWork(n: nat, rest: seq<Range>, pos: nat, segEnd: nat, script: Script, size: nat)
    requires Ranges(rest, size) && rest != [] && Last(rest).hi == segEnd && pos <= segEnd && AllWork(script.writes)
    ensures var o := Attempts(n, rest, pos, segEnd, script, size);
            && AllOk(o.log) && AllWork(o.script.writes)
            && (Steady(script) && n > 0 && pos <= rest[0].lo ==> o.result.Ok? && Steady(o.script))
    decreases n
  {
    hide ReadAll, Ranges, AllOk, AllWork, Steady, Places;
    NothingAdvances([]);
    TailsWork(script);
    StartsInside(rest, size);
    var from: nat, script' := Max(pos, rest[0].lo), script.(replies := Tail(script.replies));
    var reply := NextReply(script.replies);
    if n > 0 && !reply.Refused? && !(reply.WholeFile? && from > 0) {
      var a := ReadAll(rest, from, segEnd, script', size);
      ReadWorks(rest, from, segEnd, script', size);
      if a.rest != [] {
        AttemptsWork(n - 1, a.rest, a.pos, segEnd, a.script, size);
        AllOkJoin(a.log, Attempts(n - 1, a.rest, a.pos, segEnd, a.script, size).log);
      }
    }
  }

  lemma {:induction false} SegmentsWork(segs: seq<Segment>, done: nat, script: Script, size: nat)
    requires InRanges(segs, size) && AllWork(script.writes)
    ensures var o := AllSegments(segs, done, script, size);
            && AllOk(o.log) && AllWork(o.script.writes)
            && (Steady(script) ==> o.result.Ok? && Steady(o.script))
    decreases |segs|
  {
    hide Attempts, Ranges, AllOk, AllWork, Steady, Todo, Missing;
    NothingAdvances([]);
    if segs != [] {
      assert InRanges(segs[1..], size);
      var missing := Missing(segs[0], done);
      if missing == [] {
        SegmentsWork(segs[1..], done, script, size);
      } else {
        var todo := Todo(missing, done);
        assert Ranges(todo, size);
        if todo != [] {
          StartsInside(todo, size);
          AttemptsWork(RETRIES, todo, todo[0].lo, Last(todo).hi, script, size);
        }
        var o := OneSegment(missing, done, script, size);
        if o.result.Ok? {
          SegmentsWork(segs[1..], Last(missing).end, o.script, size);
          AllOkJoin(o.log, AllSegments(segs[1..], Last(missing).end, o.script, size).log);
        }
      }
    }
  }
}
