/** commonnet/hub.py fetch_compact: where the wanted tensors stand in the compact file, which bytes of the
  * remote file that makes, in order, and what the segment loop asks for.
  */
module CompactLayout {
  import opened Basics
  import opened Sorting
  import opened Segments

  type Bytes = seq<bv8>

  // --- the header's tensors ---------------------------------------------------------------------

  /** Where a tensor's bytes are, relative to the data section. */
  datatype Tensor = Tensor(begin: nat, end: nat)

  predicate StartsBefore(x: Tensor, y: Tensor) {
    x.begin <= y.begin
  }

  predicate Proper(tensors: seq<Tensor>) {
    forall i | 0 <= i < |tensors| :: tensors[i].begin <= tensors[i].end
  }

  /** Tensors with bytes share none of them. */
  predicate Apart(x: Tensor, y: Tensor) {
    x.begin >= x.end || y.begin >= y.end || x.end <= y.begin || y.end <= x.begin
  }

  ghost predicate InFile(tensors: seq<Tensor>, base: nat, size: nat) {
    forall i | 0 <= i < |tensors| :: tensors[i].begin < tensors[i].end ==> base + tensors[i].end <= size
  }

  /** The file format's own rule: tensors lie inside the file and do not overlap. Empty ones may stand anywhere. */
  ghost predicate WellFormed(tensors: seq<Tensor>, base: nat, size: nat) {
    Proper(tensors) && InFile(tensors, base, size) && Pairwise(Apart, tensors)
  }

  // --- the compact layout -----------------------------------------------------------------------

  predicate Empty(t: Item) {
    t.absStart == t.absEnd
  }

  /** Where the first n tensors end in the compact file. */
  function CompactEnd(items: seq<Item>, n: nat): nat
    requires n <= |items|
  {
    if n == 0 then 0 else items[n - 1].end
  }

  /** Lengths are kept, and what has bytes lies in the remote file. */
  ghost predicate Measured(items: seq<Item>, size: nat) {
    forall t | t in items ::
      && t.start <= t.end && t.end - t.start == t.absEnd - t.absStart
      && (!Empty(t) ==> t.absEnd <= size)
  }

  /** Every tensor follows the one before it: directly in the compact file, without overlap in the remote one. */
  ghost predicate Packed(items: seq<Item>, size: nat) {
    && Measured(items, size)
    && (forall i {:trigger CompactEnd(items, i)} | 0 <= i < |items| :: items[i].start == CompactEnd(items, i))
    && (forall i, j | 0 <= i < j < |items| :: InTurn(items[i], items[j]))
  }

  predicate InTurn(x: Item, y: Item) {
    x.absStart <= y.absStart && (!Empty(x) && !Empty(y) ==> x.absEnd <= y.absStart)
  }

  /** The compact layout: tensors in file order, one directly after the other. */
  function LaidOut(sorted: seq<Tensor>, base: nat): (items: seq<Item>)
    requires Proper(sorted)
    ensures |items| == |sorted|
  {
    if sorted == [] then []
    else
      var items, t := LaidOut(sorted[..|sorted| - 1], base), Last(sorted);
      var off := CompactEnd(items, |items|);
      items + [Item(base + t.begin, base + t.end, off, off + t.end - t.begin)]
  }

  ghost function Layout(tensors: seq<Tensor>, base: nat, size: nat): (items: seq<Item>)
    requires WellFormed(tensors, base, size)
    ensures Packed(items, size) && |items| == |tensors|
  {
    SortedIsWellFormed(tensors, base, size);
    LaidOutIsPacked(Sort(StartsBefore, tensors), base, size);
    LaidOut(Sort(StartsBefore, tensors), base)
  }

  lemma SortedIsWellFormed(tensors: seq<Tensor>, base: nat, size: nat)
    requires WellFormed(tensors, base, size)
    ensures WellFormed(Sort(StartsBefore, tensors), base, size)
    ensures Ordered(StartsBefore, Sort(StartsBefore, tensors))
  {
    SortKeeps(StartsBefore, tensors);
    SortOrders(StartsBefore, tensors);
    SortKeepsPairs(StartsBefore, Apart, tensors);
    var sorted := Sort(StartsBefore, tensors);
    forall i | 0 <= i < |sorted|
      ensures sorted[i].begin <= sorted[i].end && (sorted[i].begin < sorted[i].end ==> base + sorted[i].end <= size)
    {
      assert sorted[i] in multiset(sorted);
      assert sorted[i] in multiset(tensors);
    }
  }

  /** Tensor i keeps its place in the remote file and its length, and no gap is left before it. */
  lemma {:induction false} LaidOutIsPacked(sorted: seq<Tensor>, base: nat, size: nat)
    requires WellFormed(sorted, base, size) && Ordered(StartsBefore, sorted)
    ensures Packed(LaidOut(sorted, base), size)
    ensures forall i | 0 <= i < |sorted| ::
              var item := LaidOut(sorted, base)[i];
              item.absStart == base + sorted[i].begin && item.absEnd == base + sorted[i].end
    decreases |sorted|
  {
    hide Packed, Measured;
    if sorted == [] {
      PackedNothing(size);
    } else {
      var front := sorted[..|sorted| - 1];
      LaidOutIsPacked(front, base, size);
      var items, t := LaidOut(front, base), Last(LaidOut(sorted, base));
      forall j | 0 <= j < |items|
        ensures InTurn(items[j], t)
      {
        assert StartsBefore(sorted[j], Last(sorted)) && Apart(sorted[j], Last(sorted));
      }
      PackedAppend(items, size, t);
    }
  }

  lemma PackedNothing(size: nat)
    ensures Packed([], size)
  {
  }

  lemma PackedAppend(items: seq<Item>, size: nat, t: Item)
    requires Packed(items, size)
    requires t.start == CompactEnd(items, |items|) && t.start <= t.end && t.end - t.start == t.absEnd - t.absStart
    requires (!Empty(t) ==> t.absEnd <= size) && forall j | 0 <= j < |items| :: InTurn(items[j], t)
    ensures Packed(items + [t], size)
  {
    var longer := items + [t];
    forall j | 0 <= j < |longer|
      ensures longer[j].start == CompactEnd(longer, j)
    {
      assert j < |items| ==> items[j].start == CompactEnd(items, j);
    }
  }

  lemma PackedFront(items: seq<Item>, size: nat, n: nat)
    requires Packed(items, size) && n <= |items|
    ensures Packed(items[..n], size)
  {
    var front := items[..n];
    forall i | 0 <= i < |front|
      ensures front[i].start == CompactEnd(front, i)
    {
      assert items[i].start == CompactEnd(items, i);
    }
  }

  lemma {:induction false} PackedEnds(items: seq<Item>, size: nat, p: nat, q: nat)
    requires Packed(items, size) && p <= q <= |items|
    ensures CompactEnd(items, p) <= CompactEnd(items, q)
    decreases q - p
  {
    if p < q {
      assert items[q - 1] in items && items[q - 1].start == CompactEnd(items, q - 1);
      PackedEnds(items, size, p, q - 1);
    }
  }

  method LayOut(tensors: seq<Tensor>, base: nat, ghost size: nat) returns (items: seq<Item>)
    requires WellFormed(tensors, base, size)
    ensures items == Layout(tensors, base, size)
  {
    hide Packed, Sort, WellFormed;
    SortedIsWellFormed(tensors, base, size);
    SortedIsProper(tensors, base, size);
    var sorted := Sort(StartsBefore, tensors);
    var off := 0;
    items := [];
    for i := 0 to |sorted|
      invariant items == LaidOut(sorted[..i], base) && off == CompactEnd(items, i)
    {
      var t := sorted[i];
      assert sorted[..i + 1][..i] == sorted[..i];
      items := items + [Item(base + t.begin, base + t.end, off, off + t.end - t.begin)];
      off := off + t.end - t.begin;
    }
    assert sorted[..|sorted|] == sorted;
  }

  lemma SortedIsProper(tensors: seq<Tensor>, base: nat, size: nat)
    requires WellFormed(tensors, base, size)
    ensures Proper(Sort(StartsBefore, tensors))
  {
    SortedIsWellFormed(tensors, base, size);
  }

  // --- the bytes that make the file -------------------------------------------------------------

  /** The places lo up to hi of the remote file. */
  function Span(lo: nat, hi: nat): (r: seq<nat>)
    ensures |r| == Max(0, hi - lo)
    ensures forall i | 0 <= i < |r| :: r[i] == lo + i
  {
    if lo < hi then seq(hi - lo, (i: nat) => lo + i) else []
  }

  /** What one tensor still needs once `done` compact bytes are there. */
  function Lacking(t: Item, done: nat): seq<nat> {
    Span(t.absStart + Max(0, done - t.start), t.absEnd)
  }

  function Lacks(items: seq<Item>, done: nat): seq<nat> {
    if items == [] then [] else Lacks(items[..|items| - 1], done) + Lacking(Last(items), done)
  }

  /** The places of the remote file whose bytes make the compact one. */
  function Wanted(items: seq<Item>): seq<nat> {
    Lacks(items, 0)
  }

  function At(remote: Bytes, place: nat): bv8 {
    if place < |remote| then remote[place] else 0
  }

  function BytesAt(remote: Bytes, places: seq<nat>): (r: Bytes)
    ensures |r| == |places|
    ensures forall i | 0 <= i < |places| :: r[i] == At(remote, places[i])
  {
    seq(|places|, i requires 0 <= i < |places| => At(remote, places[i]))
  }

  function Target(remote: Bytes, head: Bytes, items: seq<Item>): Bytes {
    head + BytesAt(remote, Wanted(items))
  }

  lemma BytesJoin(remote: Bytes, a: seq<nat>, b: seq<nat>)
    ensures BytesAt(remote, a + b) == BytesAt(remote, a) + BytesAt(remote, b)
  {
  }

  lemma {:induction false} LacksJoin(a: seq<Item>, b: seq<Item>, done: nat)
    ensures Lacks(a + b, done) == Lacks(a, done) + Lacks(b, done)
    decreases |b|
  {
    hide Lacking;
    if b == [] {
      assert a + b == a;
    } else {
      var front := b[..|b| - 1];
      LacksJoin(a, front, done);
      assert (a + b)[..|a + b| - 1] == a + front;
      Assoc(Lacks(a, done), Lacks(front, done), Lacking(Last(b), done));
    }
  }

  lemma LacksStep(items: seq<Item>, t: Item, done: nat)
    ensures Lacks(items + [t], done) == Lacks(items, done) + Lacking(t, done)
  {
    assert (items + [t])[..|items|] == items;
  }

  /** In the layout's own order, skipping what is there is dropping the first bytes. */
  lemma {:induction false} LacksIsTail(items: seq<Item>, size: nat, done: nat)
    requires Packed(items, size)
    ensures |Wanted(items)| == CompactEnd(items, |items|)
    ensures Lacks(items, done) == Wanted(items)[Min(done, CompactEnd(items, |items|))..]
    decreases |items|
  {
    if items != [] {
      var front, t := items[..|items| - 1], Last(items);
      PackedLast(items, size);
      LacksIsTail(front, size, done);
      LackingIsTail(t, done);
      hide Packed, Lacking;
      var x, y := Wanted(front), Lacking(t, 0);
      assert Lacks(items, done) == Lacks(front, done) + Lacking(t, done);
      assert Wanted(items) == x + y;
      DropAcross(x, y, done);
    }
  }

  lemma DropAcross(x: seq<nat>, y: seq<nat>, done: nat)
    ensures (x + y)[Min(done, |x| + |y|)..] == x[Min(done, |x|)..] + y[Min(Max(0, done - |x|), |y|)..]
  {
  }

  lemma PackedLast(items: seq<Item>, size: nat)
    requires Packed(items, size) && items != []
    ensures Packed(items[..|items| - 1], size)
    ensures var t := Last(items);
            && t.start == CompactEnd(items[..|items| - 1], |items| - 1)
            && t.start <= t.end == CompactEnd(items, |items|) && t.end - t.start == t.absEnd - t.absStart
  {
    PackedFront(items, size, |items| - 1);
    assert Last(items) in items && Last(items).start == CompactEnd(items, |items| - 1);
  }

  lemma LackingIsTail(t: Item, done: nat)
    requires t.start <= t.end && t.end - t.start == t.absEnd - t.absStart
    ensures |Lacking(t, 0)| == t.end - t.start
    ensures Lacking(t, done) == Lacking(t, 0)[Min(Max(0, done - t.start), t.end - t.start)..]
  {
  }

  /** In the finished file every tensor's range holds exactly its own bytes of the remote file. */
  lemma TensorsInPlace(remote: Bytes, head: Bytes, items: seq<Item>, i: nat)
    requires Packed(items, |remote|) && i < |items| && !Empty(items[i])
    ensures var t, file := items[i], Target(remote, head, items);
            && |head| + t.start < |head| + t.end <= |file|
            && t.absStart < t.absEnd <= |remote|
            && file[|head| + t.start..|head| + t.end] == remote[t.absStart..t.absEnd]
  {
    var t := items[i];
    ItemFacts(items, |remote|, i);
    SpanBytes(remote, t);
    WantedAround(items, i);
    hide *;
    SliceAt(remote, head, Wanted(items[..i]), Lacking(t, 0), Lacks(items[i + 1..], 0));
    TargetIs(remote, head, items);
  }

  lemma TargetIs(remote: Bytes, head: Bytes, items: seq<Item>)
    ensures Target(remote, head, items) == head + BytesAt(remote, Wanted(items))
  {
  }

  lemma ItemFacts(items: seq<Item>, size: nat, i: nat)
    requires Packed(items, size) && i < |items| && !Empty(items[i])
    ensures var t := items[i];
            && t.start < t.end && t.absStart < t.absEnd <= size
            && |Wanted(items[..i])| == t.start && |Lacking(t, 0)| == t.end - t.start
  {
    assert items[i] in items && items[i].start == CompactEnd(items, i);
    PackedFront(items, size, i);
    LacksIsTail(items[..i], size, 0);
  }

  lemma SliceAt(remote: Bytes, head: Bytes, x: seq<nat>, y: seq<nat>, z: seq<nat>)
    ensures var file := head + BytesAt(remote, x + y + z);
            && |file| == |head| + |x| + |y| + |z|
            && file[|head| + |x|..|head| + |x| + |y|] == BytesAt(remote, y)
  {
    BytesJoin(remote, x + y, z);
    BytesJoin(remote, x, y);
  }

  lemma SpanBytes(remote: Bytes, t: Item)
    requires t.absStart <= t.absEnd <= |remote|
    ensures BytesAt(remote, Lacking(t, 0)) == remote[t.absStart..t.absEnd]
  {
  }

  lemma WantedAround(items: seq<Item>, i: nat)
    requires i < |items|
    ensures Wanted(items) == Wanted(items[..i]) + Lacking(items[i], 0) + Lacks(items[i + 1..], 0)
  {
    hide Lacking;
    assert items == items[..i] + [items[i]] + items[i + 1..];
    LacksJoin(items[..i] + [items[i]], items[i + 1..], 0);
    LacksStep(items[..i], items[i], 0);
  }

  // --- what sorting for the plan does to the layout ---------------------------------------------

  lemma {:induction false} InsertEmptyLacks(t: Item, items: seq<Item>, done: nat)
    requires Empty(t)
    ensures Lacks(Insert(Before, t, items), done) == Lacks(items, done)
    decreases |items|
  {
    if items == [] || Before(Last(items), t) {
      assert (items + [t])[..|items|] == items;
    } else {
      var front := items[..|items| - 1];
      InsertEmptyLacks(t, front, done);
      assert (Insert(Before, t, front) + [Last(items)])[..|items|] == Insert(Before, t, front);
    }
  }

  /** Only empty tensors can change places, so the bytes come in the same order. */
  lemma {:induction false} SortKeepsBytes(items: seq<Item>, size: nat, done: nat)
    requires Packed(items, size)
    ensures Lacks(Sort(Before, items), done) == Lacks(items, done)
    decreases |items|
  {
    hide Packed, Lacking, Lacks, Sort, Insert, Before;
    if items == [] {
      SortOfNothing();
    } else {
      var front, t := items[..|items| - 1], Last(items);
      PackedFront(items, size, |items| - 1);
      SortKeepsBytes(front, size, done);
      var sorted := Sort(Before, front);
      assert items == front + [t];
      SortStep(Before, front, t);
      LacksStep(front, t, done);
      if Empty(t) {
        InsertEmptyLacks(t, sorted, done);
        EmptyLacksNothing(t, done);
        assert Lacks(front, done) + [] == Lacks(front, done);
      } else {
        StaysLast(items, size);
        InsertAtEnd(Before, t, sorted);
        LacksStep(sorted, t, done);
      }
    }
  }

  lemma SortOfNothing()
    ensures Sort(Before, []) == []
  {
  }

  lemma EmptyLacksNothing(t: Item, done: nat)
    requires Empty(t)
    ensures Lacking(t, done) == []
  {
  }

  /** A tensor with bytes that is last in the layout stays last when sorted. */
  lemma StaysLast(items: seq<Item>, size: nat)
    requires Packed(items, size) && items != [] && !Empty(Last(items))
    ensures var sorted := Sort(Before, items[..|items| - 1]);
            sorted == [] || Before(Last(sorted), Last(items))
  {
    var front, t := items[..|items| - 1], Last(items);
    var sorted := Sort(Before, front);
    SortKeeps(Before, front);
    if sorted != [] {
      assert Last(sorted) in multiset(sorted);
      assert Last(sorted) in front && Last(sorted) in items && t in items;
      assert InTurn(Last(sorted), t);
    }
  }

  /** How two tensors stand when the first is before the second in the plan. The second may begin before the
    * first ends only if the first is empty, at the same place, and was listed behind it. */
  predicate Precedes(x: Item, y: Item) {
    && x.end <= y.end
    && (!Empty(y) ==> x.end <= y.start || (Empty(x) && x.absStart == y.absStart && x.end == y.end))
    && (!Empty(x) && !Empty(y) ==> x.absEnd <= y.absStart)
  }

  predicate Settled(x: Item, y: Item) {
    (Before(x, y) ==> Precedes(x, y)) && (Before(y, x) ==> Precedes(y, x))
  }

  ghost predicate Tidy(items: seq<Item>) {
    Ordered(Precedes, items)
  }

  /** Behind a tensor with bytes, others that begin at the same place are empty and end where it ends. */
  lemma {:induction false} SamePlace(items: seq<Item>, size: nat, u: nat, v: nat)
    requires Packed(items, size) && u < v < |items|
    requires !Empty(items[u]) && items[v].absStart == items[u].absStart
    ensures Empty(items[v]) && items[v].end == items[u].end
    decreases v
  {
    assert InTurn(items[u], items[v]) && items[u] in items && items[v] in items;
    assert items[v].start == CompactEnd(items, v);
    if u < v - 1 {
      assert InTurn(items[u], items[v - 1]) && InTurn(items[v - 1], items[v]);
      SamePlace(items, size, u, v - 1);
    }
  }

  lemma PackedIsSettled(items: seq<Item>, size: nat)
    requires Packed(items, size)
    ensures Pairwise(Settled, items)
  {
    forall u, v | 0 <= u < v < |items|
      ensures Settled(items[u], items[v]) && Settled(items[v], items[u])
    {
      var x, y := items[u], items[v];
      assert x in items && y in items && InTurn(x, y);
      assert y.start == CompactEnd(items, v);
      PackedEnds(items, size, u + 1, v);
      if Before(y, x) && !Empty(x) {
        SamePlace(items, size, u, v);
      }
    }
  }

  lemma PlanOrder(items: seq<Item>, size: nat)
    requires Packed(items, size)
    ensures Tidy(Sort(Before, items)) && Ordered(Before, Sort(Before, items)) && Measured(Sort(Before, items), size)
    ensures multiset(Sort(Before, items)) == multiset(items)
  {
    PackedIsSettled(items, size);
    SortKeepsPairs(Before, Settled, items);
    BeforeIsOrder();
    SortOrders(Before, items);
    SortKeeps(Before, items);
    var sorted := Sort(Before, items);
    forall t | t in sorted
      ensures t in items
    {
      assert t in multiset(sorted);
    }
    forall i, j | 0 <= i < j < |sorted|
      ensures Precedes(sorted[i], sorted[j])
    {
      assert Settled(sorted[i], sorted[j]) && Before(sorted[i], sorted[j]);
    }
  }

  // --- what the segment loop brings -------------------------------------------------------------

  /** The tensors of a segment that are not all there yet. */
  function Missing(seg: Segment, done: nat): Segment {
    if seg == [] then []
    else Missing(seg[..|seg| - 1], done) + if Last(seg).end > done then [Last(seg)] else []
  }

  /** How far the loop takes the file to be after a segment. */
  function NextDone(seg: Segment, done: nat): nat {
    var missing := Missing(seg, done);
    if missing == [] then done else Last(missing).end
  }

  /** The places the segment loop asks for, one segment after the other. */
  function Brought(segs: seq<Segment>, done: nat): seq<nat> {
    if segs == [] then []
    else Lacks(Missing(segs[0], done), done) + Brought(segs[1..], NextDone(segs[0], done))
  }

  lemma {:induction false} MissingLacks(seg: Segment, done: nat, size: nat)
    requires Measured(seg, size)
    ensures Lacks(Missing(seg, done), done) == Lacks(seg, done)
    decreases |seg|
  {
    if seg != [] {
      var front, t := seg[..|seg| - 1], Last(seg);
      assert t in seg && forall x | x in front :: x in seg;
      MissingLacks(front, done, size);
      if t.end > done {
        assert (Missing(front, done) + [t])[..|Missing(front, done)|] == Missing(front, done);
      } else {
        assert Missing(front, done) + [] == Missing(front, done);
        assert Lacking(t, done) == [];
      }
    }
  }

  lemma {:induction false} NextDoneIsEnd(seg: Segment, done: nat)
    requires Tidy(seg) && seg != []
    ensures NextDone(seg, done) == Max(done, Last(seg).end)
    decreases |seg|
  {
    if |seg| > 1 {
      var front := seg[..|seg| - 1];
      NextDoneIsEnd(front, done);
      assert Precedes(Last(front), Last(seg));
    }
    var front := seg[..|seg| - 1];
    assert Missing(seg, done) == Missing(front, done) + if Last(seg).end > done then [Last(seg)] else [];
    if Last(seg).end <= done && front != [] {
      assert Missing(seg, done) == Missing(front, done);
    }
  }

  /** Some tensor counts as done though the run found it unfinished. */
  ghost predicate SkipsSome(seg: Segment, start: nat, done: nat) {
    exists t | t in seg :: !Empty(t) && start < t.end <= done
  }

  /** The position never lies inside a tensor, except where the run started. */
  ghost predicate Outside(seg: Segment, start: nat, done: nat) {
    forall t | t in seg :: Empty(t) || done <= Max(start, t.start) || t.end <= done
  }

  lemma LackingLater(t: Item, start: nat, done: nat)
    requires t.start <= t.end && t.end - t.start == t.absEnd - t.absStart && start <= done
    requires Empty(t) || done <= Max(start, t.start) || t.end <= done
    ensures if !Empty(t) && start < t.end <= done then |Lacking(t, done)| < |Lacking(t, start)|
            else Lacking(t, done) == Lacking(t, start)
  {
  }

  lemma SkipsFront(seg: Segment, start: nat, done: nat)
    requires seg != []
    ensures var t := Last(seg);
            SkipsSome(seg, start, done) <==>
              SkipsSome(seg[..|seg| - 1], start, done) || (!Empty(t) && start < t.end <= done)
  {
    assert forall x | x in seg :: x in seg[..|seg| - 1] || x == Last(seg);
    assert Last(seg) in seg && forall x | x in seg[..|seg| - 1] :: x in seg;
  }

  lemma {:induction false} SegmentLacks(seg: Segment, size: nat, start: nat, done: nat)
    requires Measured(seg, size) && start <= done && Outside(seg, start, done)
    ensures |Lacks(seg, done)| <= |Lacks(seg, start)|
    ensures SkipsSome(seg, start, done) ==> |Lacks(seg, done)| < |Lacks(seg, start)|
    ensures !SkipsSome(seg, start, done) ==> Lacks(seg, done) == Lacks(seg, start)
    decreases |seg|
  {
    if seg != [] {
      var front, t := seg[..|seg| - 1], Last(seg);
      assert t in seg && forall x | x in front :: x in seg;
      hide Lacking, SkipsSome;
      SegmentLacks(front, size, start, done);
      LackingLater(t, start, done);
      SkipsFront(seg, start, done);
    }
  }

  /** The same for the segments to come. */
  ghost predicate Skips(segs: seq<Segment>, start: nat, done: nat) {
    segs != [] && (SkipsSome(segs[0], start, done) || Skips(segs[1..], start, Max(done, SegmentEnd(segs[0]))))
  }

  function SegmentEnd(seg: Segment): nat {
    if seg == [] then 0 else Last(seg).end
  }

  /** A plan whose tensors stand as they do after sorting, whichever segments they are in. */
  ghost predicate TidyPlan(segs: seq<Segment>, size: nat) {
    && (forall j | 0 <= j < |segs| :: segs[j] != [] && Tidy(segs[j]) && Measured(segs[j], size))
    && (forall j, k, x, y | 0 <= j < k < |segs| && x in segs[j] && y in segs[k] :: Precedes(x, y))
  }

  lemma {:induction false} FlattenFirst(segs: seq<Segment>)
    requires segs != []
    ensures Flatten(segs) == segs[0] + Flatten(segs[1..])
  {
    if |segs| > 1 {
      FlattenFirst(segs[..|segs| - 1]);
      assert segs[1..][..|segs| - 2] == segs[..|segs| - 1][1..];
      Assoc(segs[0], Flatten(segs[1..][..|segs| - 2]), Last(segs));
    } else {
      assert segs[..0] == [] && segs[1..] == [];
    }
  }

  lemma {:induction false} FlattenHas(segs: seq<Segment>, j: nat, x: Item)
    requires j < |segs| && x in segs[j]
    ensures x in Flatten(segs)
    decreases |segs|
  {
    if j < |segs| - 1 {
      FlattenHas(segs[..|segs| - 1], j, x);
    }
  }

  lemma {:induction false} FlattenOrdered(le: (Item, Item) -> bool, segs: seq<Segment>)
    requires Ordered(le, Flatten(segs))
    ensures forall j | 0 <= j < |segs| :: Ordered(le, segs[j])
    ensures forall j, k, x, y | 0 <= j < k < |segs| && x in segs[j] && y in segs[k] :: le(x, y)
    decreases |segs|
  {
    if segs != [] {
      var front, last := segs[..|segs| - 1], Last(segs);
      OrderedParts(le, Flatten(front), last);
      FlattenOrdered(le, front);
      hide Ordered;
      assert forall j | 0 <= j < |front| :: front[j] == segs[j];
      forall j, k, x, y | 0 <= j < k < |segs| && x in segs[j] && y in segs[k]
        ensures le(x, y)
      {
        if k < |front| {
          assert x in front[j] && y in front[k];
        } else {
          FlattenHas(front, j, x);
        }
      }
    }
  }

  lemma OrderedParts(le: (Item, Item) -> bool, a: seq<Item>, b: seq<Item>)
    requires Ordered(le, a + b)
    ensures Ordered(le, a) && Ordered(le, b)
    ensures forall x, y | x in a && y in b :: le(x, y)
  {
    var all := a + b;
    assert forall i | 0 <= i < |a| :: a[i] == all[i];
    assert forall i | 0 <= i < |b| :: b[i] == all[|a| + i];
    forall x, y | x in a && y in b
      ensures le(x, y)
    {
      var i :| 0 <= i < |a| && a[i] == x;
      var k :| 0 <= k < |b| && b[k] == y;
      assert le(all[i], all[|a| + k]);
    }
  }

  /** The loop brings what the file lacks exactly when no position it reaches lies behind an unfinished tensor. */
  lemma {:induction false} BroughtIff(segs: seq<Segment>, size: nat, start: nat, done: nat)
    requires TidyPlan(segs, size) && start <= done
    requires forall j | 0 <= j < |segs| :: Outside(segs[j], start, done)
    ensures |Brought(segs, done)| <= |Lacks(Flatten(segs), start)|
    ensures Skips(segs, start, done) ==> |Brought(segs, done)| < |Lacks(Flatten(segs), start)|
    ensures !Skips(segs, start, done) ==> Brought(segs, done) == Lacks(Flatten(segs), start)
    decreases |segs|
  {
    if segs != [] {
      var seg, rest := segs[0], segs[1..];
      var next := NextDone(seg, done);
      MissingLacks(seg, done, size);
      NextDoneIsEnd(seg, done);
      SegmentLacks(seg, size, start, done);
      FlattenFirst(segs);
      LacksJoin(seg, Flatten(rest), start);
      forall j | 0 <= j < |rest|
        ensures Outside(rest[j], start, next)
      {
        assert Outside(segs[j + 1], start, done);
        forall t | t in rest[j]
          ensures Empty(t) || next <= Max(start, t.start) || t.end <= next
        {
          assert Last(seg) in segs[0] && t in segs[j + 1];
          assert Precedes(Last(seg), t);
        }
      }
      BroughtIff(rest, size, start, next);
    }
  }

  // --- exactly when a tensor is skipped ---------------------------------------------------------

  /** Some segment ends, in the compact file, at or past the end of an unfinished tensor of a later segment. */
  ghost predicate Hides(segs: seq<Segment>, start: nat) {
    exists j, k, t | 0 <= j < k < |segs| && t in segs[k] :: HidBy(segs[j], t, start)
  }

  predicate HidBy(seg: Segment, t: Item, start: nat) {
    !Empty(t) && start < t.end <= SegmentEnd(seg)
  }

  lemma {:induction false} SkipsIff(segs: seq<Segment>, start: nat, done: nat)
    ensures Skips(segs, start, done) <==>
              Hides(segs, start) || exists k | 0 <= k < |segs| :: SkipsSome(segs[k], start, done)
    decreases |segs|
  {
    if segs != [] {
      var rest, next := segs[1..], Max(done, SegmentEnd(segs[0]));
      SkipsIff(rest, start, next);
      if Hides(segs, start) {
        var j, k, t :| 0 <= j < k < |segs| && t in segs[k] && HidBy(segs[j], t, start);
        assert t in rest[k - 1];
        if j == 0 {
          assert SkipsSome(rest[k - 1], start, next);
        } else {
          assert HidBy(rest[j - 1], t, start);
        }
      }
      if k :| 0 <= k < |segs| && SkipsSome(segs[k], start, done) {
        assert k > 0 ==> SkipsSome(rest[k - 1], start, next);
      }
      if Hides(rest, start) {
        var j, k, t :| 0 <= j < k < |rest| && t in rest[k] && HidBy(rest[j], t, start);
        assert t in segs[k + 1] && HidBy(segs[j + 1], t, start);
      }
      if k :| 0 <= k < |rest| && SkipsSome(rest[k], start, next) {
        var t :| t in rest[k] && !Empty(t) && start < t.end <= next;
        assert t in segs[k + 1];
        assert t.end <= done ==> SkipsSome(segs[k + 1], start, done);
        assert t.end > done ==> HidBy(segs[0], t, start);
      }
    }
  }

  function PlanFor(items: seq<Item>): seq<Segment> {
    Plan(BRIDGE, MAX_SEGMENT, Sort(Before, items))
  }

  /** Whatever tensors are asked for, no cut of them into ranges within the limits takes fewer requests. */
  lemma PlanForIsShortest(items: seq<Item>, other: seq<Segment>)
    requires Flatten(other) == Sort(Before, items) && AllFit(BRIDGE, MAX_SEGMENT, other)
    ensures |PlanFor(items)| <= |other|
  {
    PlanIsShortest(BRIDGE, MAX_SEGMENT, items, other);
  }

  lemma PlanForIsTidy(items: seq<Item>, size: nat)
    requires Packed(items, size)
    ensures TidyPlan(PlanFor(items), size) && Flatten(PlanFor(items)) == Sort(Before, items)
    ensures forall j, x | 0 <= j < |PlanFor(items)| && x in PlanFor(items)[j] :: x in items
  {
    var sorted, segs := Sort(Before, items), PlanFor(items);
    PlanOrder(items, size);
    PlanIsPartition(BRIDGE, MAX_SEGMENT, sorted);
    FlattenOrdered(Precedes, segs);
    forall j, x | 0 <= j < |segs| && x in segs[j]
      ensures x in sorted && x in items
    {
      FlattenHas(segs, j, x);
      assert x in multiset(sorted);
    }
  }

  /** What the loop brings is the rest of the file if and only if the plan hides no unfinished tensor;
    * otherwise it is less. */
  lemma BroughtIsRestIff(items: seq<Item>, size: nat, start: nat)
    requires Packed(items, size) && start <= |Wanted(items)|
    ensures Hides(PlanFor(items), start) ==> |Brought(PlanFor(items), start)| < |Wanted(items)| - start
    ensures !Hides(PlanFor(items), start) ==> Brought(PlanFor(items), start) == Wanted(items)[start..]
  {
    hide Packed, Brought, Plan, Hides, TidyPlan;
    var segs: seq<Segment> := PlanFor(items);
    PlanForIsTidy(items, size);
    SkipsIff(segs, start, start);
    BroughtIff(segs, size, start, start);
    SortKeepsBytes(items, size, start);
    LacksIsTail(items, size, start);
  }

  /** In terms a caller can check: an empty tensor is listed behind an unfinished one that begins at the same
    * place, and the end of that one is further than the cap from the start of the empty one's range. */
  ghost predicate EmptyBehind(items: seq<Item>, start: nat) {
    exists u, v, j | 0 <= u < v < |items| && 0 <= j < |PlanFor(items)| && items[v] in PlanFor(items)[j] ::
      && !Empty(items[u]) && Empty(items[v]) && items[v].absStart == items[u].absStart
      && start < items[u].end && items[u].absEnd - PlanFor(items)[j][0].absStart > MAX_SEGMENT
  }

  lemma HasPlace(items: seq<Item>, segs: seq<Segment>, t: Item) returns (k: nat)
    requires t in items && multiset(Flatten(segs)) == multiset(items)
    ensures k < |segs| && t in segs[k]
  {
    assert t in multiset(Flatten(segs));
    k := PlaceOf(segs, t);
  }

  lemma {:induction false} PlaceOf(segs: seq<Segment>, t: Item) returns (k: nat)
    requires t in Flatten(segs)
    ensures k < |segs| && t in segs[k]
    decreases |segs|
  {
    if t in Last(segs) {
      k := |segs| - 1;
    } else {
      k := PlaceOf(segs[..|segs| - 1], t);
    }
  }

  lemma PlanForIsInOrder(items: seq<Item>, size: nat)
    requires Packed(items, size)
    ensures forall j, k, x, y | 0 <= j < k < |PlanFor(items)| && x in PlanFor(items)[j] && y in PlanFor(items)[k] ::
              Before(x, y)
    ensures forall j | 0 <= j < |PlanFor(items)| :: Ordered(Before, PlanFor(items)[j])
  {
    PlanOrder(items, size);
    PlanIsPartition(BRIDGE, MAX_SEGMENT, Sort(Before, items));
    FlattenOrdered(Before, PlanFor(items));
  }

  lemma EndsLast(seg: Segment, size: nat, x: Item)
    requires Tidy(seg) && Measured(seg, size) && x in seg
    ensures x.end <= SegmentEnd(seg)
  {
    var i :| 0 <= i < |seg| && seg[i] == x;
    assert i < |seg| - 1 ==> Precedes(seg[i], Last(seg));
  }

  lemma Together(seg: Segment, x: Item, y: Item)
    requires Fits(BRIDGE, MAX_SEGMENT, seg) && Ordered(Before, seg) && x in seg && y in seg && !Before(y, x)
    ensures y.absEnd - seg[0].absStart <= MAX_SEGMENT
  {
    var i :| 0 <= i < |seg| && seg[i] == y;
    assert i > 0;
  }

  lemma NotJoined(items: seq<Item>, j: nat)
    requires j + 1 < |PlanFor(items)|
    ensures !Joins(BRIDGE, MAX_SEGMENT, PlanFor(items)[j], PlanFor(items)[j + 1][0])
  {
    PlanSplits(BRIDGE, MAX_SEGMENT, Sort(Before, items), j);
  }

  /** What begins where a segment ends with an empty tensor did not join it because of the cap. */
  lemma CapReached(items: seq<Item>, size: nat, j: nat, k: nat, t: Item)
    requires Packed(items, size) && j < k < |PlanFor(items)| && t in PlanFor(items)[k]
    requires Empty(Last(PlanFor(items)[j])) && Last(PlanFor(items)[j]).absStart == t.absStart
    ensures t.absEnd - PlanFor(items)[j][0].absStart > MAX_SEGMENT
  {
    hide Plan, Packed;
    var segs: seq<Segment> := PlanFor(items);
    assert segs[j] != [] && segs[j + 1] != [];
    PlanForIsInOrder(items, size);
    NotJoined(items, j);
    var last, next := Last(segs[j]), segs[j + 1][0];
    assert last in segs[j] && next in segs[j + 1] && Before(last, next);
    if j + 1 == k {
      var i :| 0 <= i < |segs[k]| && segs[k][i] == t;
      assert i > 0 ==> Before(segs[k][0], segs[k][i]);
    } else {
      assert Before(next, t);
    }
  }

  /** The empty one is before the long one in the plan, and in an earlier segment. */
  lemma ApartInPlan(items: seq<Item>, size: nat, j: nat, empty: Item, long: Item) returns (k: nat)
    requires Packed(items, size) && j < |PlanFor(items)| && empty in PlanFor(items)[j] && long in items
    requires !Empty(long) && Empty(empty) && empty.absStart == long.absStart
    requires long.absEnd - PlanFor(items)[j][0].absStart > MAX_SEGMENT
    requires Measured(items, size)
    ensures j < k < |PlanFor(items)| && long in PlanFor(items)[k]
  {
    hide Plan, Tidy, Packed;
    var segs: seq<Segment> := PlanFor(items);
    PlanForIsInOrder(items, size);
    PlanOrder(items, size);
    PlanIsPartition(BRIDGE, MAX_SEGMENT, Sort(Before, items));
    assert !Before(long, empty);
    k := HasPlace(items, segs, long);
    assert Fits(BRIDGE, MAX_SEGMENT, segs[k]);
    assert k != j by {
      if empty in segs[k] {
        Together(segs[k], empty, long);
      }
    }
  }

  /** An empty tensor like that ends a segment, and hides the one it is listed behind. */
  lemma EmptyBehindHides(items: seq<Item>, size: nat, start: nat)
    requires Packed(items, size) && EmptyBehind(items, start)
    ensures Hides(PlanFor(items), start)
  {
    var u, v, j: nat :| 0 <= u < v < |items| && 0 <= j < |PlanFor(items)| && items[v] in PlanFor(items)[j]
      && !Empty(items[u]) && Empty(items[v]) && items[v].absStart == items[u].absStart
      && start < items[u].end && items[u].absEnd - PlanFor(items)[j][0].absStart > MAX_SEGMENT;
    SamePlace(items, size, u, v);
    hide Plan, Tidy, Packed, Measured, PlanFor;
    PackedIsMeasured(items, size);
    var k := ApartInPlan(items, size, j, items[v], items[u]);
    PlanForIsTidy(items, size);
    EndsLast(PlanFor(items)[j], size, items[v]);
    assert HidBy(PlanFor(items)[j], items[u], start);
  }

  lemma PackedIsMeasured(items: seq<Item>, size: nat)
    requires Packed(items, size)
    ensures Measured(items, size)
  {
  }

  /** Where two such tensors are in the list. */
  lemma ListedBehind(items: seq<Item>, size: nat, long: Item, empty: Item) returns (u: nat, v: nat)
    requires Packed(items, size) && long in items && empty in items
    requires long.start < long.end == empty.end && Empty(empty)
    ensures u < v < |items| && items[u] == long && items[v] == empty
  {
    u :| 0 <= u < |items| && items[u] == long;
    v :| 0 <= v < |items| && items[v] == empty;
    assert !Empty(long);
    assert items[u].start == CompactEnd(items, u);
    if v < u {
      PackedEnds(items, size, v + 1, u);
    }
  }

  /** A tensor some segment hides, the segment, and the empty tensor it ends with. */
  lemma Hidden(items: seq<Item>, size: nat, start: nat) returns (j: nat, long: Item, empty: Item)
    requires Packed(items, size) && Hides(PlanFor(items), start)
    ensures j < |PlanFor(items)| && empty in PlanFor(items)[j] && long in items && empty in items
    ensures long.start < long.end == empty.end && Empty(empty) && empty.absStart == long.absStart && start < long.end
    ensures !Empty(long) && long.absEnd - PlanFor(items)[j][0].absStart > MAX_SEGMENT
  {
    hide Plan, PlanFor, Tidy, Before, Packed;
    PackedIsMeasured(items, size);
    PlanForIsTidy(items, size);
    var k;
    j, k, long :| 0 <= j < k < |PlanFor(items)| && long in PlanFor(items)[k] && HidBy(PlanFor(items)[j], long, start);
    empty := Last(PlanFor(items)[j]);
    assert empty in PlanFor(items)[j] && Precedes(empty, long);
    assert empty in items && long in items;
    CapReached(items, size, j, k, long);
  }

  /** And nothing else does. */
  lemma HidesOnlyThen(items: seq<Item>, size: nat, start: nat)
    requires Packed(items, size) && Hides(PlanFor(items), start)
    ensures EmptyBehind(items, start)
  {
    hide Plan, PlanFor, Packed, Hides;
    var j, long, empty := Hidden(items, size, start);
    var u, v := ListedBehind(items, size, long, empty);
  }

  lemma HidesIff(items: seq<Item>, size: nat, start: nat)
    requires Packed(items, size)
    ensures Hides(PlanFor(items), start) <==> EmptyBehind(items, start)
  {
    if Hides(PlanFor(items), start) {
      HidesOnlyThen(items, size, start);
    }
    if EmptyBehind(items, start) {
      EmptyBehindHides(items, size, start);
    }
  }
}
