/** commonnet/serve.py _WorkerStream: a generator run on a worker thread, its items handed over through a
  * queue. Worker and caller are interleaved step by step in every possible way.
  */
module WorkerStreams {
  import opened Basics

  type Value(==, !new)
  type Problem(==, !new)

  datatype Entry = Item(item: Value) | Failure(error: Problem) | End

  /** What the generator function is going to do: whether calling it raises, what the generator yields, how
    * it stops, and whether it raises when it is closed before it has stopped. */
  datatype Script = Script(fnRaises: bool, items: seq<Value>, raises: Option<Problem>, closeRaises: bool)

  /** Where the worker is: before the call, about to ask for an item, about to look at the cancel flag, about
    * to queue the item, about to queue the error, about to close the generator, about to queue the end. */
  datatype Phase =
    | Waiting | Asking | Checking | Putting | Failing(error: Problem) | Closing | Ending
    | Finished
    | Crashed

  datatype World = World(
    phase: Phase,
    asked: nat,                    // items the generator has yielded
    put: seq<Entry>,         // everything ever queued
    got: nat,                      // how many entries the caller has taken
    cancelled: bool,               // the caller has called close()
    late: nat,                     // items queued after that
    broke: bool,                   // the loop was left because of the cancel flag
    closeCalled: bool)             // the worker has closed the generator

  function Initial(): World {
    World(Waiting, 0, [], 0, false, 0, false, false)
  }

  /** Queue.get blocks on an empty queue: then nothing happens. */
  datatype Event = Work | Get | Close

  function WorkerStep(s: Script, w: World): World {
    match w.phase
    case Waiting => if s.fnRaises then w.(phase := Crashed) else w.(phase := Asking)
    case Asking =>
      if w.asked < |s.items| then w.(phase := Checking, asked := w.asked + 1)
      else if s.raises.Some? then w.(phase := Failing(s.raises.value))
      else w.(phase := Closing)
    case Checking => if w.cancelled then w.(phase := Closing, broke := true) else w.(phase := Putting)
    case Putting =>
      if 0 < w.asked <= |s.items|
      then w.(phase := Asking, put := w.put + [Item(s.items[w.asked - 1])],
              late := w.late + if w.cancelled then 1 else 0)
      else w
    case Failing(e) => w.(phase := Closing, put := w.put + [Failure(e)])
    case Closing =>
      if w.broke && s.closeRaises then w.(phase := Crashed, closeCalled := true)
      else w.(phase := Ending, closeCalled := true)
    case Ending => w.(phase := Finished, put := w.put + [End])
    case Finished => w
    case Crashed => w
  }

  function Step(s: Script, w: World, event: Event): World {
    match event
    case Work => WorkerStep(s, w)
    case Get => if w.got < |w.put| then w.(got := w.got + 1) else w
    case Close => w.(cancelled := true)
  }

  function Run(s: Script, events: seq<Event>): World {
    if events == [] then Initial() else Step(s, Run(s, events[..|events| - 1]), Last(events))
  }

  // --- what is handed over ----------------------------------------------------------------------

  function Items(xs: seq<Value>): (r: seq<Entry>)
    ensures |r| == |xs|
  {
    seq(|xs|, i requires 0 <= i < |xs| => Item(xs[i]))
  }

  /** What has been queued when the worker is where it is. */
  function Sent(s: Script, w: World): seq<Entry>
    requires w.asked <= |s.items|
  {
    var before := if w.asked > 0 then Items(s.items[..w.asked - 1]) else [];
    var all := Items(s.items[..w.asked]);
    var stopped := if w.broke then before else if s.raises.Some? then all + [Failure(s.raises.value)] else all;
    match w.phase
    case Waiting => []
    case Asking => all
    case Checking => before
    case Putting => before
    case Failing(_) => all
    case Closing => stopped
    case Ending => stopped
    case Finished => stopped + [End]
    case Crashed => if s.fnRaises then [] else stopped
  }

  predicate Settled(phase: Phase) {
    phase.Finished? || phase.Crashed?
  }

  /** The loop is over: every item was asked for, or the cancel flag was seen. */
  predicate LoopLeft(phase: Phase) {
    phase.Closing? || phase.Ending? || Settled(phase)
  }

  ghost predicate Good(s: Script, w: World) {
    && w.asked <= |s.items| && w.got <= |w.put| && w.put == Sent(s, w)
    && (w.phase.Waiting? || s.fnRaises ==> w.asked == 0)
    && (w.phase.Checking? || w.phase.Putting? || w.broke ==> w.asked > 0)
    && (w.broke ==> LoopLeft(w.phase) && w.cancelled)
    && (s.fnRaises ==> w.phase.Waiting? || w.phase.Crashed?)
    && (w.phase.Failing? ==> w.asked == |s.items| && s.raises == Some(w.phase.error))
    && (LoopLeft(w.phase) && !w.broke && !s.fnRaises ==> w.asked == |s.items|)
    && (w.phase.Ending? || w.phase.Finished? ==> w.closeCalled && !(w.broke && s.closeRaises))
    && (w.phase.Crashed? ==> s.fnRaises || (w.broke && s.closeRaises && w.closeCalled))
    && w.late <= 1 && (w.late == 1 ==> w.cancelled && !w.phase.Putting? && !w.phase.Waiting?)
  }

  lemma ItemsStep(xs: seq<Value>, n: nat)
    requires 0 < n <= |xs|
    ensures Items(xs[..n]) == Items(xs[..n - 1]) + [Item(xs[n - 1])]
  {
  }

  lemma StepKeepsGood(s: Script, w: World, event: Event)
    requires Good(s, w)
    ensures Good(s, Step(s, w, event))
  {
    if event == Work {
      WorkKeepsGood(s, w);
    }
  }

  lemma WorkKeepsGood(s: Script, w: World)
    requires Good(s, w)
    ensures Good(s, WorkerStep(s, w))
  {
    hide Items;
    if w.phase.Putting? {
      PutKeepsGood(s, w);
    } else if w.phase.Waiting? {
      NoItems(s.items);
    }
  }

  lemma PutKeepsGood(s: Script, w: World)
    requires Good(s, w) && w.phase.Putting?
    ensures Good(s, WorkerStep(s, w))
  {
    hide Items;
    ItemsStep(s.items, w.asked);
  }

  lemma NoItems(xs: seq<Value>)
    ensures Items(xs[..0]) == []
  {
  }

  /** The invariant of every run. */
  lemma {:induction false} RunIsGood(s: Script, events: seq<Event>)
    ensures Good(s, Run(s, events))
    decreases |events|
  {
    if events != [] {
      RunIsGood(s, events[..|events| - 1]);
      StepKeepsGood(s, Run(s, events[..|events| - 1]), Last(events));
    }
  }

  /** Some of the generator's items in order; after all of them its error, if it raised one; then the end. */
  ghost predicate InOrder(s: Script, entries: seq<Entry>) {
    exists n: nat, rest: seq<Entry> ::
      && n <= |s.items| && entries == Items(s.items[..n]) + rest
      && (|| rest == [] || rest == [End]
          || (n == |s.items| && s.raises.Some?
              && (rest == [Failure(s.raises.value)] || rest == [Failure(s.raises.value), End])))
  }

  lemma IsInOrder(s: Script, entries: seq<Entry>, n: nat, rest: seq<Entry>)
    requires n <= |s.items| && entries == Items(s.items[..n]) + rest
    requires (|| rest == [] || rest == [End]
              || (n == |s.items| && s.raises.Some?
                  && (rest == [Failure(s.raises.value)] || rest == [Failure(s.raises.value), End])))
    ensures InOrder(s, entries)
    ensures forall i | 0 <= i < |entries| - 1 :: entries[i] != End
    ensures End in entries <==> End in rest
  {
  }

  /** Main result, in every interleaving: what is queued is an in-order prefix of the items, then at most one
    * error, then at most one end mark, which is last; and at most one item is queued after close(). */
  lemma QueueIsInOrder(s: Script, events: seq<Event>)
    ensures var w := Run(s, events);
            && InOrder(s, w.put) && w.got <= |w.put|
            && (forall i | 0 <= i < |w.put| - 1 :: w.put[i] != End)
            && (End in w.put <==> w.phase.Finished?)
            && w.late <= 1
  {
    hide Good, Step;
    RunIsGood(s, events);
    var n, rest := PartsOf(s, Run(s, events));
    IsInOrder(s, Run(s, events).put, n, rest);
  }

  lemma PartsOf(s: Script, w: World) returns (n: nat, rest: seq<Entry>)
    requires Good(s, w)
    ensures n <= |s.items| && w.put == Items(s.items[..n]) + rest
    ensures || rest == [] || rest == [End]
            || (n == |s.items| && s.raises.Some?
                && (rest == [Failure(s.raises.value)] || rest == [Failure(s.raises.value), End]))
    ensures End in rest <==> w.phase.Finished?
    ensures w.got <= |w.put| && w.late <= 1
  {
    hide Items;
    NoItems(s.items);
    n := if w.asked > 0 && (w.broke || w.phase.Checking? || w.phase.Putting?) then w.asked - 1 else w.asked;
    var failed := LoopLeft(w.phase) && !w.broke && !s.fnRaises && s.raises.Some?;
    rest := (if failed then [Failure(s.raises.value)] else []) + if w.phase.Finished? then [End] else [];
  }

  function Works(events: seq<Event>): nat {
    if events == [] then 0 else Works(events[..|events| - 1]) + if Last(events) == Work then 1 else 0
  }

  function Ahead(s: Script, w: World): nat
    requires w.asked <= |s.items|
  {
    var r := 3 * (|s.items| - w.asked);
    match w.phase
    case Waiting => r + 6
    case Asking => r + 5
    case Checking => r + 7
    case Putting => r + 6
    case Failing(_) => 4
    case Closing => 3
    case Ending => 2
    case Finished => 0
    case Crashed => 0
  }

  lemma StepGoesOn(s: Script, w: World, event: Event)
    requires Good(s, w)
    ensures var w' := Step(s, w, event);
            && w'.asked <= |s.items|
            && (Settled(w.phase) ==> Settled(w'.phase))
            && (Ahead(s, w') + (if event == Work then 1 else 0) <= Ahead(s, w) || Settled(w'.phase))
  {
    hide Sent, Items;
  }

  /** The worker is done after at most three steps an item and six more, whatever the caller does. */
  lemma {:induction false} WorkerStops(s: Script, events: seq<Event>)
    ensures Run(s, events).asked <= |s.items|
    ensures Ahead(s, Run(s, events)) + Works(events) <= 3 * |s.items| + 6 || Settled(Run(s, events).phase)
    decreases |events|
  {
    if events != [] {
      hide Step, Ahead, Settled, Good;
      RunIsGood(s, events[..|events| - 1]);
      WorkerStops(s, events[..|events| - 1]);
      StepGoesOn(s, Run(s, events[..|events| - 1]), Last(events));
    }
  }

  /** Exactly when the caller is told the end: a worker that is done has queued the end mark unless calling
    * the generator function raised, or closing a generator that was cut short did. Then nothing tells the
    * caller, who waits on the queue for ever. */
  lemma EndIsQueuedIff(s: Script, events: seq<Event>)
    requires Works(events) > 3 * |s.items| + 6
    ensures var w := Run(s, events);
            && Settled(w.phase)
            && (w.put != [] && Last(w.put) == End <==> !s.fnRaises && !(w.broke && s.closeRaises))
            && (!s.fnRaises ==> w.closeCalled)
            && (s.fnRaises ==> w.put == [])
  {
    RunIsGood(s, events);
    WorkerStops(s, events);
    QueueIsInOrder(s, events);
    var w := Run(s, events);
    if w.phase.Crashed? && w.put != [] {
      assert Last(w.put) in w.put;
    }
  }

  ghost predicate EndsWithEnd(s: Script, events: seq<Event>) {
    var put := Run(s, events).put;
    put != [] && Last(put) == End
  }

  /** A caller who closes at once, and a worker that then takes k steps. */
  function CloseFirst(k: nat): (events: seq<Event>)
    ensures Works(events) == k && events != []
  {
    if k == 0 then assert [Close][..0] == []; [Close]
    else
      var before := CloseFirst(k - 1);
      assert (before + [Work])[..|before|] == before;
      before + [Work]
  }

  lemma CloseFirstStep(s: Script, k: nat)
    ensures k > 0 ==> Run(s, CloseFirst(k)) == WorkerStep(s, Run(s, CloseFirst(k - 1)))
    ensures k == 0 ==> Run(s, CloseFirst(k)) == Initial().(cancelled := true)
  {
    if k > 0 {
      var before := CloseFirst(k - 1);
      assert CloseFirst(k)[..|before|] == before;
    } else {
      assert [Close][..0] == [];
    }
  }

  lemma {:induction false} CloseFirstCrashes(s: Script, k: nat)
    requires !s.fnRaises && s.closeRaises && s.items != [] && k >= 4
    ensures Run(s, CloseFirst(k)).phase.Crashed? && Run(s, CloseFirst(k)).put == []
  {
    hide Run, CloseFirst;
    CloseFirstStep(s, k);
    if k > 4 {
      CloseFirstCrashes(s, k - 1);
    } else {
      CloseFirstStep(s, 3);
      CloseFirstStep(s, 2);
      CloseFirstStep(s, 1);
      CloseFirstStep(s, 0);
    }
  }

  /** In terms of the generator alone: every run, however the caller behaves, tells the caller the end if and
    * only if calling the function does not raise, and closing the generator does not either, or it has no
    * item before which it could be closed. */
  lemma EveryRunEndsIff(s: Script)
    ensures (forall events | Works(events) > 3 * |s.items| + 6 :: EndsWithEnd(s, events)) <==>
              !s.fnRaises && (!s.closeRaises || s.items == [])
  {
    hide Run, Good, Ahead, Works, CloseFirst;
    forall events | Works(events) > 3 * |s.items| + 6
      ensures EndsWithEnd(s, events) <==> !s.fnRaises && !(Run(s, events).broke && s.closeRaises)
      ensures s.items == [] ==> !Run(s, events).broke
    {
      EndIsQueuedIff(s, events);
      BrokeAnItem(s, events);
    }
    var k := 3 * |s.items| + 7;
    assert Works(CloseFirst(k)) == k;
    if !s.fnRaises && s.closeRaises && s.items != [] {
      CloseFirstCrashes(s, k);
      assert !EndsWithEnd(s, CloseFirst(k));
    }
  }

  lemma BrokeAnItem(s: Script, events: seq<Event>)
    ensures Run(s, events).broke ==> s.items != []
  {
    RunIsGood(s, events);
  }

  /** Without close(), the caller gets everything. */
  lemma EverythingArrives(s: Script, events: seq<Event>)
    requires Works(events) > 3 * |s.items| + 6 && !s.fnRaises && Close !in events
    ensures Run(s, events).put
         == Items(s.items) + (if s.raises.Some? then [Failure(s.raises.value)] else []) + [End]
  {
    RunIsGood(s, events);
    WorkerStops(s, events);
    NotCancelled(s, events);
    assert s.items[..|s.items|] == s.items;
  }

  lemma {:induction false} NotCancelled(s: Script, events: seq<Event>)
    requires Close !in events
    ensures !Run(s, events).cancelled
    decreases |events|
  {
    if events != [] {
      NotCancelled(s, events[..|events| - 1]);
    }
  }
}
