/** commonnet/hub.py fetch_compact and fetch: streams the wanted tensors of a remote file into one compact
  * file and resumes from the partial file's length alone. The header's bytes are opaque.
  */
module Download {
  import opened Basics
  import opened Sorting
  import opened Segments
  import opened CompactLayout
  import opened SegmentStream
  import opened StreamLaws

  const ATTEMPTS := 6

  // --- what a run keeps of a partial file -------------------------------------------------------

  /** Nothing if it is longer than the target or stops in the header. */
  function Base(part: Option<Bytes>, head: Bytes, total: nat): Bytes {
    if Rewrites(part, head, total) then head else part.value
  }

  predicate Rewrites(part: Option<Bytes>, head: Bytes, total: nat) {
    part.None? || |part.value| > total || |part.value| < |head|
  }

  /** The file a run ends with: it trusts what it keeps and brings the rest. */
  function Resumed(part: Option<Bytes>, head: Bytes, target: Bytes): (r: Bytes)
    requires |head| <= |target|
    ensures |r| == |target| && Base(part, head, |target|) <= r
  {
    Base(part, head, |target|) + target[|Base(part, head, |target|)|..]
  }

  /** A partial file from which resuming is right. */
  ghost predicate Resumable(part: Option<Bytes>, head: Bytes, target: Bytes) {
    Rewrites(part, head, |target|) || part.value <= target
  }

  /** The length of the partial file is all a run looks at. That is enough exactly when the file is one that
    * an earlier run left behind: a prefix of the target, cut off in the header, or longer than all of it. */
  lemma ResumedIsTargetIff(part: Option<Bytes>, head: Bytes, target: Bytes)
    requires head <= target
    ensures Resumed(part, head, target) == target <==> Resumable(part, head, target)
  {
  }

  /** A run killed at any point loses at most the end of what it wrote. */
  lemma PrefixIsResumable(now: Bytes, head: Bytes, target: Bytes, left: Bytes)
    requires head <= target && (now <= target || now <= head) && left <= now
    ensures Resumable(Some(left), head, target)
  {
  }

  // --- one run ----------------------------------------------------------------------------------

  datatype Files = Files(part: Option<Bytes>, final: Option<Bytes>)

  datatype Run = Run(result: Result<(), HubError>, files: Files, log: Log, script: Script)

  /** Where a run starts, in compact bytes. */
  function Start(part: Option<Bytes>, head: Bytes, items: seq<Item>): (start: nat)
    ensures start <= CompactEnd(items, |items|)
  {
    |Base(part, head, |head| + CompactEnd(items, |items|))| - |head|
  }

  function RunOf(remote: Bytes, head: Bytes, items: seq<Item>, files: Files, script: Script): Run
    requires Packed(items, |remote|)
  {
    var total := |head| + CompactEnd(items, |items|);
    if items == [] then Run(Err(NoTensors), files, [], script)
    else if files.final.Some? then
      Run(if |files.final.value| == total then Ok(()) else Err(WrongFinal), files, [], script)
    else
      var rewrites := Rewrites(files.part, head, total);
      var script' := if rewrites then script.(writes := Tail(script.writes)) else script;
      if rewrites && !NextWorks(script.writes) then Run(Err(DiskError), Files(Some([]), None), [], script')
      else
        var o := Streamed(items, Start(files.part, head, items), script', |remote|);
        var part := Base(files.part, head, total) + BytesAt(remote, Written(o.log));
        if o.result.Err? then Run(o.result, Files(Some(part), None), o.log, o.script)
        else if |part| != total then Run(Err(SizeMismatch), Files(Some(part), None), o.log, o.script)
        else Run(Ok(()), Files(None, Some(part)), o.log, o.script)
  }

  /** The segment loop over the plan. */
  function Streamed(items: seq<Item>, start: nat, script: Script, size: nat): Outcome
    requires Packed(items, size)
  {
    PlanForIsTidy(items, size);
    PlanIsInRanges(PlanFor(items), size);
    AllSegments(PlanFor(items), start, script, size)
  }

  /** What every run of the segment loop does, if the plan hides no unfinished tensor. */
  lemma StreamedFacts(items: seq<Item>, start: nat, script: Script, size: nat)
    requires Packed(items, size) && start <= CompactEnd(items, |items|)
    ensures var o := Streamed(items, start, script, size);
            && |Wanted(items)| == CompactEnd(items, |items|)
            && |Written(o.log)| <= |Wanted(items)| - start
            && Within(o.log, 0, size)
            && (AllWork(script.writes) ==> AllOk(o.log) && AllWork(o.script.writes))
            && (AllWork(script.writes) && Steady(script) ==> o.result.Ok? && Steady(o.script))
    ensures var o := Streamed(items, start, script, size);
            !Hides(PlanFor(items), start) ==>
              && Tried(o.log) <= Wanted(items)[start..]
              && (o.result.Ok? && AllOk(o.log) ==> Written(o.log) == Wanted(items)[start..])
    ensures var o := Streamed(items, start, script, size);
            Hides(PlanFor(items), start) ==> |Written(o.log)| < |Wanted(items)| - start
  {
    hide Packed, AllSegments, Brought, PlanFor, Hides, TidyPlan, InRanges, AllWork, Steady, Within, Written, Tried;
    var segs := PlanFor(items);
    PlanForIsTidy(items, size);
    PlanIsInRanges(segs, size);
    LacksIsTail(items, size, 0);
    BroughtIsRestIff(items, size, start);
    SegmentsCount(segs, start, script, size);
    FromNowhere(segs);
    SegmentsFacts(segs, start, script, size, 0);
    if AllWork(script.writes) {
      SegmentsWork(segs, start, script, size);
    }
  }

  lemma FromNowhere(segs: seq<Segment>)
    ensures forall j | 0 <= j < |segs| :: From(segs[j], 0)
  {
  }

  // --- a run without failures -------------------------------------------------------------------

  lemma TargetTail(remote: Bytes, head: Bytes, items: seq<Item>, start: nat)
    requires start <= |Wanted(items)|
    ensures Target(remote, head, items)[|head| + start..] == BytesAt(remote, Wanted(items)[start..])
    ensures head <= Target(remote, head, items) && |Target(remote, head, items)| == |head| + |Wanted(items)|
  {
  }

  lemma SameLength(remote: Bytes, a: seq<nat>, b: seq<nat>)
    requires a <= b
    ensures BytesAt(remote, a) <= BytesAt(remote, b)
  {
  }

  /** A run in which the network and the disk do their part ends well if and only if the plan hides no tensor
    * it still needs. It then leaves what resuming means, otherwise it is refused for its size. */
  lemma SteadyRunIff(remote: Bytes, head: Bytes, items: seq<Item>, files: Files, script: Script)
    requires Packed(items, |remote|) && items != [] && files.final.None?
    requires Steady(script) && AllWork(script.writes)
    ensures var run, target := RunOf(remote, head, items, files, script), Target(remote, head, items);
            if EmptyBehind(items, Start(files.part, head, items)) then run.result == Err(SizeMismatch)
            else
              && run.result == Ok(()) && |head| <= |target|
              && run.files == Files(None, Some(Resumed(files.part, head, target)))
  {
    hide Packed, Streamed, Wanted, EmptyBehind, Hides, PlanFor, Steady, AllWork, Within, Written, BytesAt;
    var start := Start(files.part, head, items);
    var rewrites := Rewrites(files.part, head, |head| + CompactEnd(items, |items|));
    var script' := if rewrites then script.(writes := Tail(script.writes)) else script;
    TailsWork(script);
    SameNet(script, script');
    HidesIff(items, |remote|, start);
    StreamedFacts(items, start, script', |remote|);
    TargetTail(remote, head, items, start);
  }

  // --- a run in which no write works after one that failed --------------------------------------

  /** How far the files have got: a run that starts from `part` would keep this much and end the same way. */
  ghost predicate Reached(now: Option<Bytes>, part: Option<Bytes>, head: Bytes, target: Bytes) {
    && |head| <= |target| && now.Some? && |now.value| <= |target|
    && Base(part, head, |target|) <= Base(now, head, |target|) <= Resumed(part, head, target)
  }

  /** Resuming what a resumed run left ends with the same file. */
  lemma ResumedAgain(part: Option<Bytes>, head: Bytes, target: Bytes, now: Option<Bytes>)
    requires Reached(now, part, head, target)
    ensures Resumed(now, head, target) == Resumed(part, head, target)
    ensures Resumable(part, head, target) && head <= target ==> Resumable(now, head, target)
  {
    var base, kept := Base(part, head, |target|), Base(now, head, |target|);
    assert Resumed(part, head, target)[|kept|..] == target[|kept|..];
  }

  lemma ReachedAgain(part: Option<Bytes>, head: Bytes, target: Bytes, mid: Option<Bytes>, now: Option<Bytes>)
    requires Reached(mid, part, head, target) && Reached(now, mid, head, target)
    ensures Reached(now, part, head, target)
  {
    ResumedAgain(part, head, target, mid);
  }

  /** However the network behaves, such a run gets nearer to the file that resuming means, or there. */
  lemma CleanRun(remote: Bytes, head: Bytes, items: seq<Item>, files: Files, script: Script)
    requires Packed(items, |remote|) && items != [] && files.final.None? && |head| > 0
    requires !EmptyBehind(items, Start(files.part, head, items))
    requires Clean(RunOf(remote, head, items, files, script).log)
    ensures var run, target := RunOf(remote, head, items, files, script), Target(remote, head, items);
            && |head| <= |target|
            && (run.result.Ok? ==> run.files == Files(None, Some(Resumed(files.part, head, target))))
            && (run.result.Err? ==> run.files.final.None? && Reached(run.files.part, files.part, head, target))
  {
    hide Packed, Streamed, Wanted, Hides, EmptyBehind, PlanFor, Within, Written, BytesAt, Clean, Tried, AllOk, AllWork,
         Steady;
    var start, target := Start(files.part, head, items), Target(remote, head, items);
    HidesIff(items, |remote|, start);
    var rewrites := Rewrites(files.part, head, |head| + CompactEnd(items, |items|));
    var script' := if rewrites then script.(writes := Tail(script.writes)) else script;
    var run := RunOf(remote, head, items, files, script);
    StreamedFacts(items, start, script', |remote|);
    TargetTail(remote, head, items, start);
    if !(rewrites && !NextWorks(script.writes)) {
      var need := Wanted(items)[start..];
      PrefixIffClean(run.log, 0, |remote|, need);
      SameLength(remote, Written(run.log), need);
      var base := Base(files.part, head, |target|);
      assert Resumed(files.part, head, target) == base + BytesAt(remote, need);
      if run.result.Err? {
        assert run.files.part.value == base + BytesAt(remote, Written(run.log));
      } else {
        assert BytesAt(remote, Written(run.log)) == BytesAt(remote, need);
      }
    }
  }

  /** A plan that hides nothing from where a run starts hides nothing from where a later one starts. */
  lemma HidesLater(segs: seq<Segment>, start: nat, later: nat)
    requires start <= later && !Hides(segs, start)
    ensures !Hides(segs, later)
  {
    if Hides(segs, later) {
      var j, k, t :| 0 <= j < k < |segs| && t in segs[k] && HidBy(segs[j], t, later);
      assert HidBy(segs[j], t, start);
    }
  }

  // --- all attempts -------------------------------------------------------------------------------

  datatype Fetched = Fetched(result: Result<(), HubError>, files: Files, logs: seq<Log>, script: Script)

  function After(logs: seq<Log>, f: Fetched): Fetched {
    f.(logs := logs + f.logs)
  }

  /** The attempt that ended like this is the last: a client error, a full disk (as `full` says for every attempt), or
    * no attempt is left. */
  predicate GivesUp(error: HubError, full: nat -> bool, attempt: nat) {
    error == NotFound || (error == DiskError && full(attempt)) || attempt + 1 >= ATTEMPTS
  }

  /** The attempts from this one on. */
  function FetchOf(remote: Bytes, head: Bytes, items: seq<Item>, files: Files, script: Script, full: nat -> bool,
                   attempt: nat): Fetched
    requires Packed(items, |remote|)
    decreases ATTEMPTS - attempt
  {
    var run := RunOf(remote, head, items, files, script);
    if run.result.Ok? || GivesUp(run.result.error, full, attempt) then
      Fetched(run.result, run.files, [run.log], run.script)
    else
      After([run.log], FetchOf(remote, head, items, run.files, run.script, full, attempt + 1))
  }

  /** No write works after one that failed in the same run. */
  predicate AllClean(logs: seq<Log>) {
    forall log | log in logs :: Clean(log)
  }

  lemma CleanParts(log: Log, logs: seq<Log>)
    ensures AllClean([log] + logs) <==> Clean(log) && AllClean(logs)
    ensures AllClean([log]) <==> Clean(log)
  {
    assert log in [log] + logs && log in [log];
    assert forall l | l in logs :: l in [log] + logs;
  }

  lemma RunErrs(remote: Bytes, head: Bytes, items: seq<Item>, files: Files, script: Script)
    requires Packed(items, |remote|)
    ensures var run := RunOf(remote, head, items, files, script);
            run.result.Err? ==> run.files.final == files.final
  {
    hide Packed, Streamed, BytesAt;
  }

  lemma RunWorks(remote: Bytes, head: Bytes, items: seq<Item>, files: Files, script: Script)
    requires Packed(items, |remote|)
    ensures var run := RunOf(remote, head, items, files, script);
            AllWork(script.writes) ==> Clean(run.log) && AllWork(run.script.writes)
  {
    hide Packed, Streamed, BytesAt, AllOk, AllWork, Steady, Clean, Wanted, Hides, PlanFor, Tried, Written, Within;
    var start := Start(files.part, head, items);
    var rewrites := Rewrites(files.part, head, |head| + CompactEnd(items, |items|));
    var script' := if rewrites then script.(writes := Tail(script.writes)) else script;
    TailsWork(script);
    StreamedFacts(items, start, script', |remote|);
    NoneIsClean();
    if AllOk(Streamed(items, start, script', |remote|).log) {
      AllOkIsTried(Streamed(items, start, script', |remote|).log);
    }
  }

  lemma NoneIsClean()
    ensures Clean([])
  {
  }

  lemma {:induction false} FetchErrs(remote: Bytes, head: Bytes, items: seq<Item>, files: Files, script: Script,
                                     full: nat -> bool, attempt: nat)
    requires Packed(items, |remote|)
    ensures var f := FetchOf(remote, head, items, files, script, full, attempt);
            f.result.Err? ==> f.files.final == files.final
    decreases ATTEMPTS - attempt
  {
    hide Packed, RunOf;
    RunErrs(remote, head, items, files, script);
    var run := RunOf(remote, head, items, files, script);
    if run.result.Err? && !GivesUp(run.result.error, full, attempt) {
      FetchErrs(remote, head, items, run.files, run.script, full, attempt + 1);
    }
  }

  lemma {:induction false} FetchWorks(remote: Bytes, head: Bytes, items: seq<Item>, files: Files, script: Script,
                                      full: nat -> bool, attempt: nat)
    requires Packed(items, |remote|)
    ensures AllWork(script.writes) ==> AllClean(FetchOf(remote, head, items, files, script, full, attempt).logs)
    decreases ATTEMPTS - attempt
  {
    hide Packed, RunOf, AllWork, AllClean, Clean;
    RunWorks(remote, head, items, files, script);
    var run := RunOf(remote, head, items, files, script);
    if run.result.Err? && !GivesUp(run.result.error, full, attempt) {
      var rest := FetchOf(remote, head, items, run.files, run.script, full, attempt + 1);
      FetchWorks(remote, head, items, run.files, run.script, full, attempt + 1);
      CleanParts(run.log, rest.logs);
    } else {
      CleanParts(run.log, []);
    }
  }

  lemma StartsLater(remote: Bytes, head: Bytes, items: seq<Item>, first: Option<Bytes>, now: Option<Bytes>)
    requires Packed(items, |remote|) && Reached(now, first, head, Target(remote, head, items))
    requires !EmptyBehind(items, Start(first, head, items))
    ensures !EmptyBehind(items, Start(now, head, items))
  {
    WantedLength(items, |remote|);
    HidesIff(items, |remote|, Start(first, head, items));
    HidesIff(items, |remote|, Start(now, head, items));
    HidesLater(PlanFor(items), Start(first, head, items), Start(now, head, items));
  }

  /** As long as no write works after one that failed, attempts that begin with what `part` led to end with the file
    * that resuming `part` means, or with one that leads there. */
  lemma {:induction false} CleanFetch(remote: Bytes, head: Bytes, items: seq<Item>, part: Option<Bytes>, files: Files,
                                      script: Script, full: nat -> bool, attempt: nat)
    requires Packed(items, |remote|) && items != [] && files.final.None? && |head| > 0
    requires !EmptyBehind(items, Start(part, head, items))
    requires files.part == part || Reached(files.part, part, head, Target(remote, head, items))
    requires AllClean(FetchOf(remote, head, items, files, script, full, attempt).logs)
    ensures var f, target := FetchOf(remote, head, items, files, script, full, attempt), Target(remote, head, items);
            && |head| <= |target|
            && (f.result.Ok? ==> f.files == Files(None, Some(Resumed(part, head, target))))
            && (f.result.Err? ==> f.files.final.None? && Reached(f.files.part, part, head, target))
            && (AllWork(script.writes) && Steady(script) ==> f.result.Ok?)
    decreases ATTEMPTS - attempt
  {
    hide Packed, RunOf, AllWork, AllClean, Clean, EmptyBehind, Start, Base, Resumed, Steady;
    var run, target := RunOf(remote, head, items, files, script), Target(remote, head, items);
    var stops := run.result.Ok? || GivesUp(run.result.error, full, attempt);
    CleanParts(run.log,
               if stops then [] else FetchOf(remote, head, items, run.files, run.script, full, attempt + 1).logs);
    if files.part != part {
      StartsLater(remote, head, items, part, files.part);
      ResumedAgain(part, head, target, files.part);
    }
    CleanRun(remote, head, items, files, script);
    if run.result.Err? && files.part != part {
      ReachedAgain(part, head, target, files.part, run.files.part);
    }
    if AllWork(script.writes) && Steady(script) {
      SteadyRunIff(remote, head, items, files, script);
    }
    if !stops {
      CleanFetch(remote, head, items, part, run.files, run.script, full, attempt + 1);
    }
  }

  // --- exactly which writes spoil a file --------------------------------------------------------

  /** The run from this partial file leaves the target, or a file from which resuming is right. */
  ghost predicate LeavesRight(remote: Bytes, head: Bytes, items: seq<Item>, part: Option<Bytes>, script: Script)
    requires Packed(items, |remote|)
  {
    var target := Target(remote, head, items);
    var run := RunOf(remote, head, items, Files(part, None), script);
    if run.result.Ok? then run.files.final == Some(target) else Resumable(run.files.part, head, target)
  }

  /** Some remote file tells two different lists of places apart. */
  lemma PlacesTell(a: seq<nat>, b: seq<nat>, size: nat) returns (remote: Bytes)
    requires |a| <= |b| && !(a <= b) && forall place | place in a :: place < size
    ensures |remote| == size && !(BytesAt(remote, a) <= BytesAt(remote, b))
  {
    var i :| 0 <= i < |a| && a[i] != b[i];
    assert a[i] in a;
    remote := seq(size, j => if j == a[i] then 1 else 0);
    assert BytesAt(remote, a)[i] == 1 && BytesAt(remote, b)[i] == 0;
  }

  /** What earlier runs leave: the first k bytes of the target. */
  function FirstBytes(remote: Bytes, head: Bytes, items: seq<Item>, k: nat): Option<Bytes>
    requires k <= |Target(remote, head, items)|
  {
    Some(Target(remote, head, items)[..k])
  }

  lemma AfterStreaming(remote: Bytes, head: Bytes, items: seq<Item>, k: nat, script: Script)
    requires Packed(items, |remote|) && items != [] && |head| <= k <= |Target(remote, head, items)| && |head| > 0
    ensures k - |head| <= |Wanted(items)| == CompactEnd(items, |items|)
    ensures LeavesRight(remote, head, items, FirstBytes(remote, head, items, k), script) <==>
              BytesAt(remote, Written(Streamed(items, k - |head|, script, |remote|).log))
              <= BytesAt(remote, Wanted(items)[k - |head|..])
  {
    hide Packed, Streamed, Wanted, BytesAt, Written, Hides, PlanFor, Within, AllOk, AllWork, Steady, Tried;
    WantedLength(items, |remote|);
    var start, target := k - |head|, Target(remote, head, items);
    TargetTail(remote, head, items, start);
    StreamedFacts(items, start, script, |remote|);
    var got := BytesAt(remote, Written(Streamed(items, start, script, |remote|).log));
    PrefixOfTarget(target, k, got, BytesAt(remote, Wanted(items)[start..]));
  }

  lemma WantedLength(items: seq<Item>, size: nat)
    requires Packed(items, size)
    ensures |Wanted(items)| == CompactEnd(items, |items|)
  {
    LacksIsTail(items, size, 0);
  }

  lemma PrefixOfTarget(target: Bytes, k: nat, got: Bytes, need: Bytes)
    requires k <= |target| && target[k..] == need && |got| <= |need|
    ensures target[..k] + got <= target <==> got <= need
    ensures |got| == |need| ==> (target[..k] + got == target <==> got <= need)
  {
    assert target == target[..k] + need;
    if target[..k] + got <= target {
      assert got == (target[..k] + got)[k..] == target[k..k + |got|];
      assert need[..|got|] == target[k..k + |got|];
    }
  }

  /** A run leaves a file that can be resumed, whatever the remote bytes are, if and only if in it no write
    * works after one that failed. For every script, every place to resume from and every layout in which no
    * empty tensor hides an unfinished one. */
  lemma RunStaysResumableIff(head: Bytes, items: seq<Item>, size: nat, start: nat, script: Script)
    requires Packed(items, size) && items != [] && |head| > 0 && start <= CompactEnd(items, |items|)
    requires !EmptyBehind(items, start)
    ensures |Wanted(items)| == CompactEnd(items, |items|)
    ensures (forall remote: Bytes | |remote| == size ::
               LeavesRight(remote, head, items, FirstBytes(remote, head, items, |head| + start), script)) <==>
            Clean(Streamed(items, start, script, size).log)
  {
    hide Packed, Streamed, Wanted, BytesAt, Written, Hides, PlanFor, Within, AllOk, AllWork, Steady, Tried, Clean,
         LeavesRight, FirstBytes, EmptyBehind;
    var log := Streamed(items, start, script, size).log;
    HidesIff(items, size, start);
    StreamedFacts(items, start, script, size);
    var got, need := Written(log), Wanted(items)[start..];
    PrefixIffClean(log, 0, size, need);
    forall remote: Bytes | |remote| == size
      ensures |head| + start <= |Target(remote, head, items)|
      ensures LeavesRight(remote, head, items, FirstBytes(remote, head, items, |head| + start), script) <==>
                BytesAt(remote, got) <= BytesAt(remote, need)
    {
      TargetTail(remote, head, items, start);
      AfterStreaming(remote, head, items, |head| + start, script);
    }
    if got <= need {
      forall remote: Bytes | |remote| == size
        ensures LeavesRight(remote, head, items, FirstBytes(remote, head, items, |head| + start), script)
      {
        SameLength(remote, got, need);
      }
    } else {
      WrittenBounds(log, 0, size);
      var remote := PlacesTell(got, need, size);
      assert !LeavesRight(remote, head, items, FirstBytes(remote, head, items, |head| + start), script);
    }
  }

  /** A run that cannot use the partial file is the run from a file that holds just the header, or ends with an
    * empty file, which is as good as none. */
  lemma UnusableIsHeadOnly(remote: Bytes, head: Bytes, items: seq<Item>, files: Files, script: Script)
    requires Packed(items, |remote|) && items != [] && files.final.None? && |head| > 0
    requires Rewrites(files.part, head, |head| + CompactEnd(items, |items|))
    ensures var run := RunOf(remote, head, items, files, script);
            if NextWorks(script.writes)
            then run == RunOf(remote, head, items, Files(Some(head), None), script.(writes := Tail(script.writes)))
            else run.result == Err(DiskError) && run.files == Files(Some([]), None) && run.log == []
                 && Resumable(run.files.part, head, Target(remote, head, items))
  {
    hide Streamed, Packed, BytesAt, Wanted;
  }

  /** The same for a partial file no run can use: none, one that is too long, or one that stops in the header. If
    * the header cannot be written nothing else is, and the next run starts over. */
  lemma FreshRunStaysResumableIff(head: Bytes, items: seq<Item>, size: nat, part: Option<Bytes>, script: Script)
    requires Packed(items, size) && items != [] && |head| > 0 && !EmptyBehind(items, 0)
    requires Rewrites(part, head, |head| + CompactEnd(items, |items|))
    ensures (forall remote: Bytes | |remote| == size :: LeavesRight(remote, head, items, part, script)) <==>
            (NextWorks(script.writes) ==>
               Clean(Streamed(items, 0, script.(writes := Tail(script.writes)), size).log))
  {
    hide Packed, Streamed, Wanted, BytesAt, Clean, EmptyBehind, RunOf, Rewrites, Resumable;
    var script' := script.(writes := Tail(script.writes));
    RunStaysResumableIff(head, items, size, 0, script');
    forall remote: Bytes | |remote| == size
      ensures |head| <= |Target(remote, head, items)|
      ensures LeavesRight(remote, head, items, part, script) <==>
                (NextWorks(script.writes) ==>
                   LeavesRight(remote, head, items, FirstBytes(remote, head, items, |head|), script'))
    {
      TargetTail(remote, head, items, 0);
      UnusableIsHeadOnly(remote, head, items, Files(part, None), script);
      assert FirstBytes(remote, head, items, |head|) == Some(head);
    }
    if !NextWorks(script.writes) {
      assert forall remote: Bytes | |remote| == size :: LeavesRight(remote, head, items, part, script);
    } else if !Clean(Streamed(items, 0, script', size).log) {
      var remote: Bytes :| |remote| == size
        && !LeavesRight(remote, head, items, FirstBytes(remote, head, items, |head| + 0), script');
      assert !LeavesRight(remote, head, items, part, script);
    }
  }

  // --- exactly which writes spoil a whole fetch ---------------------------------------------------

  /** What a run finds: how many compact bytes of a usable partial file, or none. */
  function Found(part: Option<Bytes>, head: Bytes, items: seq<Item>): Option<nat> {
    if Rewrites(part, head, |head| + CompactEnd(items, |items|)) then None else Some(|part.value| - |head|)
  }

  /** A run without its bytes: the result, what the next run finds, the writes and the rest of the script depend on
    * nothing else. */
  datatype Shape = Shape(result: Result<(), HubError>, found: Option<nat>, log: Log, script: Script)

  function ShapeOf(items: seq<Item>, found: Option<nat>, script: Script, size: nat): Shape
    requires Packed(items, size)
  {
    if found.None? && !NextWorks(script.writes) then
      Shape(Err(DiskError), None, [], script.(writes := Tail(script.writes)))
    else
      var start := if found.None? then 0 else found.value;
      var o := Streamed(items, start, if found.None? then script.(writes := Tail(script.writes)) else script, size);
      var end := start + |Written(o.log)|;
      Shape(if o.result.Err? then o.result else if end != CompactEnd(items, |items|) then Err(SizeMismatch) else Ok(()),
            Some(end), o.log, o.script)
  }

  function FetchLogs(items: seq<Item>, found: Option<nat>, script: Script, size: nat, full: nat -> bool, attempt: nat)
    : seq<Log>
    requires Packed(items, size)
    decreases ATTEMPTS - attempt
  {
    var run := ShapeOf(items, found, script, size);
    if run.result.Ok? || GivesUp(run.result.error, full, attempt) then [run.log]
    else [run.log] + FetchLogs(items, run.found, run.script, size, full, attempt + 1)
  }

  lemma RunHasShape(remote: Bytes, head: Bytes, items: seq<Item>, part: Option<Bytes>, script: Script)
    requires Packed(items, |remote|) && items != [] && |head| > 0
    ensures var run := RunOf(remote, head, items, Files(part, None), script);
            var shape := ShapeOf(items, Found(part, head, items), script, |remote|);
            && run.result == shape.result && run.log == shape.log && run.script == shape.script
            && (run.result.Err? ==>
                  && run.files == Files(run.files.part, None)
                  && Found(run.files.part, head, items) == shape.found)
  {
    hide Packed, Streamed, BytesAt, Wanted, Hides, PlanFor, Within, Written, AllOk, AllWork, Steady, Tried;
    var found := Found(part, head, items);
    var start := if found.None? then 0 else found.value;
    var script' := if found.None? then script.(writes := Tail(script.writes)) else script;
    StreamedFacts(items, start, script', |remote|);
    var run := RunOf(remote, head, items, Files(part, None), script);
    if run.result.Ok? {
      assert run.result.value == ();
    }
  }

  lemma {:induction false} FetchHasShape(remote: Bytes, head: Bytes, items: seq<Item>, part: Option<Bytes>,
                                         script: Script, full: nat -> bool, attempt: nat)
    requires Packed(items, |remote|) && items != [] && |head| > 0
    ensures FetchOf(remote, head, items, Files(part, None), script, full, attempt).logs
         == FetchLogs(items, Found(part, head, items), script, |remote|, full, attempt)
    decreases ATTEMPTS - attempt
  {
    hide Packed, RunOf, ShapeOf, Found;
    RunHasShape(remote, head, items, part, script);
    var run := RunOf(remote, head, items, Files(part, None), script);
    if run.result.Err? && !GivesUp(run.result.error, full, attempt) {
      FetchHasShape(remote, head, items, run.files.part, run.script, full, attempt + 1);
    }
  }

  /** The attempts from this one on leave the target, or a file from which resuming is right. */
  ghost predicate FetchesRight(remote: Bytes, head: Bytes, items: seq<Item>, part: Option<Bytes>, script: Script,
                               full: nat -> bool, attempt: nat)
    requires Packed(items, |remote|)
  {
    var target := Target(remote, head, items);
    var f := FetchOf(remote, head, items, Files(part, None), script, full, attempt);
    if f.result.Ok? then f.files.final == Some(target) else Resumable(f.files.part, head, target)
  }

  /** No run repairs a file that is wrong. */
  lemma RunKeepsWrong(remote: Bytes, head: Bytes, items: seq<Item>, part: Option<Bytes>, script: Script)
    requires Packed(items, |remote|) && items != [] && !Resumable(part, head, Target(remote, head, items))
    ensures !LeavesRight(remote, head, items, part, script)
  {
    hide Packed, Streamed, BytesAt, Wanted, Hides, PlanFor, Within, Written, AllOk, AllWork, Steady, Tried;
    var start := Start(part, head, items);
    TargetTail(remote, head, items, 0);
    StreamedFacts(items, start, script, |remote|);
    var got := BytesAt(remote, Written(Streamed(items, start, script, |remote|).log));
    assert |got| <= |Wanted(items)| - start;
    assert part.value <= part.value + got;
  }

  lemma {:induction false} FetchKeepsWrong(remote: Bytes, head: Bytes, items: seq<Item>, part: Option<Bytes>,
                                           script: Script, full: nat -> bool, attempt: nat)
    requires Packed(items, |remote|) && items != [] && |head| > 0
    requires !Resumable(part, head, Target(remote, head, items))
    ensures !FetchesRight(remote, head, items, part, script, full, attempt)
    decreases ATTEMPTS - attempt
  {
    hide Packed, RunOf, Resumable, Found, ShapeOf;
    RunKeepsWrong(remote, head, items, part, script);
    RunHasShape(remote, head, items, part, script);
    var run := RunOf(remote, head, items, Files(part, None), script);
    if run.result.Err? && !GivesUp(run.result.error, full, attempt) {
      FetchKeepsWrong(remote, head, items, run.files.part, run.script, full, attempt + 1);
    }
  }

  /** A partial file in which a run finds this much, all of it right. */
  ghost predicate RightSoFar(remote: Bytes, head: Bytes, items: seq<Item>, found: Option<nat>, part: Option<Bytes>) {
    Found(part, head, items) == found && Resumable(part, head, Target(remote, head, items))
  }

  lemma RightPart(remote: Bytes, head: Bytes, items: seq<Item>, start: nat, part: Option<Bytes>)
    requires Packed(items, |remote|) && start <= CompactEnd(items, |items|)
    ensures |head| + start <= |Target(remote, head, items)| == |head| + CompactEnd(items, |items|)
    ensures RightSoFar(remote, head, items, Some(start), part) <==>
              part == FirstBytes(remote, head, items, |head| + start)
  {
    hide Packed, Wanted, BytesAt;
    WantedLength(items, |remote|);
    TargetTail(remote, head, items, 0);
    var target, k := Target(remote, head, items), |head| + start;
    assert target[..k] <= target;
    if RightSoFar(remote, head, items, Some(start), part) {
      assert part.value == target[..k];
    }
  }

  predicate Begins(items: seq<Item>, found: Option<nat>) {
    found.Some? ==> found.value <= CompactEnd(items, |items|)
  }

  function From0(found: Option<nat>): nat {
    if found.None? then 0 else found.value
  }

  lemma RunIsRight(remote: Bytes, head: Bytes, items: seq<Item>, found: Option<nat>, part: Option<Bytes>,
                   script: Script)
    requires Packed(items, |remote|) && items != [] && |head| > 0 && Begins(items, found)
    requires !EmptyBehind(items, From0(found)) && RightSoFar(remote, head, items, found, part)
    requires Clean(ShapeOf(items, found, script, |remote|).log)
    ensures LeavesRight(remote, head, items, part, script)
  {
    hide Packed, Streamed, Wanted, BytesAt, EmptyBehind, LeavesRight, Clean, Resumable;
    if found.None? {
      FreshRunStaysResumableIff(head, items, |remote|, part, script);
    } else {
      RightPart(remote, head, items, found.value, part);
      RunStaysResumableIff(head, items, |remote|, found.value, script);
    }
  }

  lemma RunIsWrong(head: Bytes, items: seq<Item>, size: nat, found: Option<nat>, script: Script)
    returns (remote: Bytes, part: Option<Bytes>)
    requires Packed(items, size) && items != [] && |head| > 0 && Begins(items, found)
    requires !EmptyBehind(items, From0(found))
    requires !Clean(ShapeOf(items, found, script, size).log)
    ensures |remote| == size && RightSoFar(remote, head, items, found, part)
    ensures !LeavesRight(remote, head, items, part, script)
  {
    hide Packed, Streamed, Wanted, BytesAt, EmptyBehind, LeavesRight, Clean;
    NoneIsClean();
    if found.None? {
      part := None;
      FreshRunStaysResumableIff(head, items, size, part, script);
      remote :| |remote| == size && !LeavesRight(remote, head, items, part, script);
    } else {
      RunStaysResumableIff(head, items, size, found.value, script);
      remote :| |remote| == size
        && !LeavesRight(remote, head, items, FirstBytes(remote, head, items, |head| + found.value), script);
      part := FirstBytes(remote, head, items, |head| + found.value);
      RightPart(remote, head, items, found.value, part);
    }
  }

  /** All unusable partial files are alike. */
  lemma UnusableAlike(remote: Bytes, head: Bytes, items: seq<Item>, a: Option<Bytes>, b: Option<Bytes>, script: Script,
                      full: nat -> bool, attempt: nat)
    requires Packed(items, |remote|) && items != []
    requires Found(a, head, items) == Found(b, head, items) == None
    ensures FetchOf(remote, head, items, Files(a, None), script, full, attempt)
         == FetchOf(remote, head, items, Files(b, None), script, full, attempt)
  {
    hide Packed, RunOf;
    assert RunOf(remote, head, items, Files(a, None), script) == RunOf(remote, head, items, Files(b, None), script) by {
      RunAlike(remote, head, items, a, b, script);
    }
  }

  lemma RunAlike(remote: Bytes, head: Bytes, items: seq<Item>, a: Option<Bytes>, b: Option<Bytes>, script: Script)
    requires Packed(items, |remote|) && items != []
    requires Found(a, head, items) == Found(b, head, items) == None
    ensures RunOf(remote, head, items, Files(a, None), script) == RunOf(remote, head, items, Files(b, None), script)
  {
    hide Packed, Streamed, BytesAt, Wanted;
  }

  lemma {:induction false} FetchIsWrong(head: Bytes, items: seq<Item>, size: nat, found: Option<nat>, script: Script,
                                        full: nat -> bool, attempt: nat)
    returns (remote: Bytes, part: Option<Bytes>)
    requires Packed(items, size) && items != [] && |head| > 0 && Begins(items, found)
    requires !EmptyBehind(items, From0(found))
    requires !AllClean(FetchLogs(items, found, script, size, full, attempt))
    ensures |remote| == size && RightSoFar(remote, head, items, found, part)
    ensures !FetchesRight(remote, head, items, part, script, full, attempt)
    decreases ATTEMPTS - attempt
  {
    hide Packed, EmptyBehind, Clean, AllClean, ShapeOf, RunOf, Found, Resumable;
    var shape := ShapeOf(items, found, script, size);
    var stops := shape.result.Ok? || GivesUp(shape.result.error, full, attempt);
    CleanParts(shape.log, if stops then [] else FetchLogs(items, shape.found, shape.script, size, full, attempt + 1));
    if !Clean(shape.log) {
      remote, part := RunIsWrong(head, items, size, found, script);
      RunHasShape(remote, head, items, part, script);
      if !stops {
        var run := RunOf(remote, head, items, Files(part, None), script);
        FetchKeepsWrong(remote, head, items, run.files.part, run.script, full, attempt + 1);
      }
    } else {
      LaterBegins(items, found, script, size);
      var next: Option<Bytes>;
      remote, next := FetchIsWrong(head, items, size, shape.found, shape.script, full, attempt + 1);
      part := SomePart(remote, head, items, found);
      RunIsRight(remote, head, items, found, part, script);
      RunHasShape(remote, head, items, part, script);
      var run := RunOf(remote, head, items, Files(part, None), script);
      if shape.found.None? {
        UnusableAlike(remote, head, items, run.files.part, next, shape.script, full, attempt + 1);
      } else {
        RightPart(remote, head, items, shape.found.value, next);
        RightPart(remote, head, items, shape.found.value, run.files.part);
      }
    }
  }

  lemma SomePart(remote: Bytes, head: Bytes, items: seq<Item>, found: Option<nat>) returns (part: Option<Bytes>)
    requires Packed(items, |remote|) && Begins(items, found)
    ensures RightSoFar(remote, head, items, found, part)
  {
    if found.None? {
      part := None;
    } else {
      hide Packed, Wanted, BytesAt, RightSoFar;
      RightPart(remote, head, items, found.value, None);
      part := FirstBytes(remote, head, items, |head| + found.value);
      RightPart(remote, head, items, found.value, part);
    }
  }

  /** A run never loses ground. */
  lemma LaterBegins(items: seq<Item>, found: Option<nat>, script: Script, size: nat)
    requires Packed(items, size) && Begins(items, found) && !EmptyBehind(items, From0(found))
    ensures var later := ShapeOf(items, found, script, size).found;
            Begins(items, later) && !EmptyBehind(items, From0(later))
  {
    hide Packed, Streamed, Wanted, Hides, EmptyBehind, PlanFor, Within, Written, AllOk, AllWork, Steady, Tried;
    var script' := if found.None? then script.(writes := Tail(script.writes)) else script;
    var later := ShapeOf(items, found, script, size).found;
    StreamedFacts(items, From0(found), script', size);
    HidesIff(items, size, From0(found));
    HidesIff(items, size, From0(later));
    HidesLater(PlanFor(items), From0(found), From0(later));
  }

  /** A whole fetch, attempt after attempt, leaves the target or a file that can be resumed, whatever the remote bytes
    * are and whatever right or unusable partial file it found, if and only if in none of its runs a write works after
    * one that failed. For every script and every layout in which no empty tensor hides an unfinished one. */
  lemma FetchIsRightIff(head: Bytes, items: seq<Item>, size: nat, found: Option<nat>, script: Script,
                        full: nat -> bool)
    requires Packed(items, size) && items != [] && |head| > 0 && Begins(items, found)
    requires !EmptyBehind(items, From0(found))
    ensures (forall remote: Bytes, part | |remote| == size && RightSoFar(remote, head, items, found, part) ::
               FetchesRight(remote, head, items, part, script, full, 0)) <==>
            AllClean(FetchLogs(items, found, script, size, full, 0))
  {
    hide Packed, Wanted, BytesAt, EmptyBehind, AllClean, FetchOf, FetchLogs, Reached, Resumed;
    if AllClean(FetchLogs(items, found, script, size, full, 0)) {
      forall remote: Bytes, part | |remote| == size && RightSoFar(remote, head, items, found, part)
        ensures FetchesRight(remote, head, items, part, script, full, 0)
      {
        var target := Target(remote, head, items);
        var f := FetchOf(remote, head, items, Files(part, None), script, full, 0);
        FetchHasShape(remote, head, items, part, script, full, 0);
        CleanFetch(remote, head, items, part, Files(part, None), script, full, 0);
        TargetTail(remote, head, items, 0);
        ResumedIsTargetIff(part, head, target);
        if f.result.Err? {
          ResumedAgain(part, head, target, f.files.part);
        }
      }
    } else {
      var remote, part := FetchIsWrong(head, items, size, found, script, full, 0);
      assert !FetchesRight(remote, head, items, part, script, full, 0);
    }
  }

  /** The smallest run that spoils a file. Of the four wanted bytes the first two arrive and their write fails.
    * The error is taken for a dropped connection, but the position has moved on, so the next answer is
    * written behind a hole. The file is too short and refused. The next run, in which nothing goes
    * wrong, trusts its length, and finishes a file of the right length that is not the target. */
  lemma FailedWriteLeavesHole()
    ensures var remote, head: Bytes := [0, 0, 0, 0, 0, 0, 0, 0, 1, 2, 3, 4], [0, 0, 0, 0, 0, 0, 0, 0];
            var items := [Item(8, 12, 0, 4)];
            && Packed(items, |remote|) && Target(remote, head, items) == head + [1, 2, 3, 4]
            && var first := RunOf(remote, head, items, Files(None, None), Script([], [Some(2)], [true, false]));
               && first.result == Err(SizeMismatch) && first.files == Files(Some(head + [3, 4]), None)
               && var second := RunOf(remote, head, items, first.files, Script([], [], []));
                  second.result == Ok(()) && second.files == Files(None, Some(head + [3, 4, 3, 4]))
  {
    hide Packed, Streamed, Attempts, Written, Lacks;
    var remote, head: Bytes := [0, 0, 0, 0, 0, 0, 0, 0, 1, 2, 3, 4], [0, 0, 0, 0, 0, 0, 0, 0];
    var item := Item(8, 12, 0, 4);
    OneItem(item, 12);
    StreamedOne(item, 0, Script([], [Some(2)], [false]), 12);
    StreamedOne(item, 2, Script([], [], []), 12);
    HoleAttempts(RETRIES);
    HoleWritten();
    assert Span(8, 12) == [8, 9, 10, 11];
    assert BytesAt(remote, [8, 9, 10, 11]) == [1, 2, 3, 4] && BytesAt(remote, [10, 11]) == [3, 4];
    assert Tail([true, false]) == [false] && Tail<bool>([]) == [];
    var first := RunOf(remote, head, [item], Files(None, None), Script([], [Some(2)], [true, false]));
    assert first.files == Files(Some(head + [3, 4]), None);
    assert Start(first.files.part, head, [item]) == 2;
    assert head + [3, 4] + [3, 4] == head + [3, 4, 3, 4];
  }

  lemma OneItem(item: Item, size: nat)
    requires item.start == 0 && item.end == item.absEnd - item.absStart && item.absStart < item.absEnd <= size
    ensures Packed([item], size)
    ensures Wanted([item]) == Span(item.absStart, item.absEnd)
  {
    assert forall i {:trigger CompactEnd([item], i)} | 0 <= i < 1 :: [item][i].start == CompactEnd([item], i);
    LacksStep([], item, 0);
    assert [] + [item] == [item];
  }

  lemma OneSegmentPlan(item: Item, done: nat)
    ensures PlanFor([item]) == [[item]]
    ensures item.end > done ==> Missing([item], done) == [item]
    ensures item.end > done && item.absEnd > item.absStart + Max(0, done - item.start) ==>
              Todo([item], done) == [Range(item.absStart + Max(0, done - item.start), item.absEnd)]
  {
    assert [item][..0] == [];
    assert Sort(Before, [item]) == [item] by {
      assert Sort(Before, [item][..0]) == [];
    }
    assert Plan(BRIDGE, MAX_SEGMENT, [item][..0]) == [];
    assert Missing([item][..0], done) == [] && Todo([item][..0], done) == [];
  }

  lemma StreamedOne(item: Item, done: nat, script: Script, size: nat)
    requires Packed([item], size) && item.end > done && item.absEnd > item.absStart + Max(0, done - item.start)
    requires item.absEnd <= size
    ensures var from := item.absStart + Max(0, done - item.start);
            var o := Attempts(RETRIES, [Range(from, item.absEnd)], from, item.absEnd, script, size);
            Streamed([item], done, script, size) == o
  {
    hide Plan, Sort, Missing, Todo, Attempts;
    OneSegmentPlan(item, done);
    PlanForIsTidy([item], size);
    PlanIsInRanges([[item]], size);
    var from := item.absStart + Max(0, done - item.start);
    var o := Attempts(RETRIES, [Range(from, item.absEnd)], from, item.absEnd, script, size);
    assert [[item]][1..] == [];
    assert OneSegment([item], done, script, size) == o;
    assert o.log + [] == o.log;
    assert InRanges([], size);
    assert AllSegments([], Last([item]).end, o.script, size) == Outcome(Ok(()), [], o.script);
    assert o.result.Ok? ==> o.result.value == () && OutcomeOnto(o.log, Outcome(Ok(()), [], o.script)) == o;
    assert [[item]][0] == [item];
    assert AllSegments([[item]], done, script, size) == o;
  }

  /** The first answer of that run, and the second, which a run without failures gets too. */
  lemma HoleAnswers(a: nat)
    requires a == 8 || a == 10
    ensures ReadAll([Range(8, 12)], 8, 12, Script([], [Some(2)], [false]), 12)
            == Answer([Range(8, 12)], 10, [Write(8, 10, false)], Script([], [], []))
    ensures ReadAll([Range(a, 12)], 10, 12, Script([], [], []), 12)
            == Answer([], 12, [Write(10, 12, true)], Script([], [], []))
  {
    assert WriteChunk([Range(8, 12)], 8, 10, [false], 12) == Wrote([Range(8, 12)], [Write(8, 10, false)], false, []);
    LastChunk(a);
    hide WriteChunk;
    assert ReadAll([], 12, 12, Script([], [], []), 12) == Answer([], 12, [], Script([], [], []));
  }

  lemma LastChunk(a: nat)
    requires a == 8 || a == 10
    ensures WriteChunk([Range(a, 12)], 10, 12, [], 12) == Wrote([], [Write(10, 12, true)], true, [])
  {
    assert [Range(a, 12)][1..] == [];
    assert WriteChunk([], 10, 12, [], 12) == Wrote([], [], true, []);
  }

  lemma HoleAttempts(n: nat)
    requires n >= 2
    ensures Attempts(n, [Range(8, 12)], 8, 12, Script([], [Some(2)], [false]), 12)
            == Outcome(Ok(()), [Write(8, 10, false), Write(10, 12, true)], Script([], [], []))
    ensures Attempts(n, [Range(10, 12)], 10, 12, Script([], [], []), 12)
            == Outcome(Ok(()), [Write(10, 12, true)], Script([], [], []))
  {
    hide ReadAll;
    HoleAnswers(8);
    HoleAnswers(10);
    var empty := Script([], [], []);
    assert Attempts(n - 1, [Range(8, 12)], 10, 12, empty, 12) == Outcome(Ok(()), [Write(10, 12, true)], empty);
    assert [Write(8, 10, false)] + [Write(10, 12, true)] == [Write(8, 10, false), Write(10, 12, true)];
  }

  lemma HoleWritten()
    ensures Written([Write(8, 10, false), Write(10, 12, true)]) == [10, 11] == Written([Write(10, 12, true)])
  {
    assert [Write(8, 10, false), Write(10, 12, true)][1..] == [Write(10, 12, true)];
    assert [Write(10, 12, true)][1..] == [];
    assert Span(10, 12) == [10, 11];
  }

  // --- files with an empty tensor behind a long one ---------------------------------------------

  lemma SortPair<T>(le: (T, T) -> bool, x: T, y: T)
    ensures Sort(le, [x, y]) == if le(x, y) then [x, y] else [y, x]
  {
    assert [x, y][..1] == [x] && [x][..0] == [];
    assert Sort(le, [x]) == [x];
    assert Insert(le, y, [x][..0]) == [y];
  }

  lemma PlanPair(bridge: int, cap: int, x: Item, y: Item)
    ensures Plan(bridge, cap, [x, y]) == if Joins(bridge, cap, [x], y) then [[x, y]] else [[x], [y]]
  {
    assert [x, y][..1] == [x] && [x][..0] == [];
    assert Plan(bridge, cap, [x][..0]) == [];
    assert Plan(bridge, cap, [x]) == [] + [[x]] == [[x]];
    assert [x] + [y] == [x, y];
  }

  lemma LaidOutPair(x: Tensor, y: Tensor, base: nat)
    requires x.begin <= x.end && y.begin <= y.end
    ensures Proper([x, y])
    ensures var n, m := x.end - x.begin, y.end - y.begin;
            LaidOut([x, y], base) == [Item(base + x.begin, base + x.end, 0, n),
                                      Item(base + y.begin, base + y.end, n, n + m)]
  {
    assert [x, y][..1] == [x] && [x][..0] == [];
    assert LaidOut([x], base) == [Item(base + x.begin, base + x.end, 0, x.end - x.begin)];
  }

  lemma LaidOutStep(tensors: seq<Tensor>, base: nat)
    requires tensors != [] && Proper(tensors)
    ensures var items, t := LaidOut(tensors[..|tensors| - 1], base), Last(tensors);
            var off := CompactEnd(items, |items|);
            LaidOut(tensors, base) == items + [Item(base + t.begin, base + t.end, off, off + t.end - t.begin)]
  {
    hide CompactEnd;
  }

  lemma LayoutOf(tensors: seq<Tensor>, sorted: seq<Tensor>, base: nat, size: nat)
    requires WellFormed(tensors, base, size) && sorted == Sort(StartsBefore, tensors)
    ensures Proper(sorted) && Layout(tensors, base, size) == LaidOut(sorted, base)
  {
    hide Sort, LaidOut, Packed;
    SortedIsWellFormed(tensors, base, size);
  }

  /** A tensor longer than the cap with an empty one listed behind it at the same place. The empty one is
    * planned before it, in a segment of its own, and ends where the long one ends. After that segment the
    * long tensor counts as done: nothing of it is fetched, and every run ends refused. */
  lemma EmptyTensorHidesAnother(remote: Bytes, head: Bytes, base: nat, n: nat, script: Script)
    requires n > MAX_SEGMENT && base + n <= |remote|
    requires Steady(script) && AllWork(script.writes)
    ensures WellFormed([Tensor(0, n), Tensor(0, 0)], base, |remote|)
    ensures var items := Layout([Tensor(0, n), Tensor(0, 0)], base, |remote|);
            var run := RunOf(remote, head, items, Files(None, None), script);
            run.result == Err(SizeMismatch) && run.files == Files(Some(head), None)
  {
    hide Steady, AllWork, Streamed, Packed, Plan, Sort, Layout, WellFormed, EmptyBehind;
    var long, empty := Item(base, base + n, 0, n), Item(base, base, n, n);
    var items := [long, empty];
    TwoTensors(base, n, |remote|);
    SortPair(Before, long, empty);
    PlanPair(BRIDGE, MAX_SEGMENT, empty, long);
    assert PlanFor(items) == [[empty], [long]];
    BehindAt(items, 0, 0, 1, 0);
    SteadyRunIff(remote, head, items, Files(None, None), script);
    var script' := script.(writes := Tail(script.writes));
    TailsWork(script);
    NothingBrought(items, long, empty, script', |remote|);
    assert head + BytesAt(remote, []) == head;
  }

  lemma TwoTensors(base: nat, n: nat, size: nat)
    requires 0 < n && base + n <= size
    ensures WellFormed([Tensor(0, n), Tensor(0, 0)], base, size)
    ensures Layout([Tensor(0, n), Tensor(0, 0)], base, size) == [Item(base, base + n, 0, n), Item(base, base, n, n)]
  {
    assert WellFormed([Tensor(0, n), Tensor(0, 0)], base, size);
    hide WellFormed, Sort, LaidOut, Layout, Packed;
    SortPair(StartsBefore, Tensor(0, n), Tensor(0, 0));
    LaidOutPair(Tensor(0, n), Tensor(0, 0), base);
    LayoutOf([Tensor(0, n), Tensor(0, 0)], [Tensor(0, n), Tensor(0, 0)], base, size);
  }

  lemma BehindAt(items: seq<Item>, start: nat, u: nat, v: nat, j: nat)
    requires u < v < |items| && j < |PlanFor(items)| && items[v] in PlanFor(items)[j]
    requires !Empty(items[u]) && Empty(items[v]) && items[v].absStart == items[u].absStart
    requires start < items[u].end && items[u].absEnd - PlanFor(items)[j][0].absStart > MAX_SEGMENT
    ensures EmptyBehind(items, start)
  {
  }

  lemma OneTensor(t: Item, done: nat)
    ensures Missing([t], done) == if t.end > done then [t] else []
    ensures Lacks([t], done) == Lacking(t, done) && Lacks([], done) == []
  {
    assert [t][..0] == [];
    assert Missing([t][..0], done) == [] && Lacks([t][..0], done) == [];
  }

  lemma NothingBrought(items: seq<Item>, long: Item, empty: Item, script: Script, size: nat)
    requires Packed(items, size) && PlanFor(items) == [[empty], [long]]
    requires Empty(empty) && 0 < long.end == empty.end
    ensures Written(Streamed(items, 0, script, size).log) == []
  {
    hide Packed, PlanFor, AllSegments, Written, Missing, Lacks;
    var segs := [[empty], [long]];
    PlanForIsTidy(items, size);
    PlanIsInRanges(segs, size);
    SegmentsCount(segs, 0, script, size);
    OneTensor(empty, 0);
    OneTensor(long, empty.end);
    assert segs[1..] == [[long]] && segs[1..][1..] == [];
    assert Brought(segs[1..], empty.end) == [];
  }

  /** The long tensor need not be longer than the cap: it is enough that the range of the empty one starts
    * with another tensor and has no room for it. */
  lemma EmptyTensorHidesShorter(remote: Bytes, head: Bytes, base: nat, g: nat, n: nat, script: Script)
    requires 0 < g <= MAX_SEGMENT && 0 < n && g + n > MAX_SEGMENT && base + g + n <= |remote|
    requires Steady(script) && AllWork(script.writes)
    ensures WellFormed([Tensor(0, g), Tensor(g, g + n), Tensor(g, g)], base, |remote|)
    ensures var items := Layout([Tensor(0, g), Tensor(g, g + n), Tensor(g, g)], base, |remote|);
            RunOf(remote, head, items, Files(None, None), script).result == Err(SizeMismatch)
  {
    hide Steady, AllWork, Streamed, Packed, RunOf, Layout, WellFormed, EmptyBehind, PlanFor;
    var first, long := Item(base, base + g, 0, g), Item(base + g, base + g + n, g, g + n);
    var empty := Item(base + g, base + g, g + n, g + n);
    var items := [first, long, empty];
    ThreeTensors(base, g, n, |remote|);
    PlanOfThree(first, long, empty);
    BehindAt(items, 0, 1, 2, 0);
    SteadyRunIff(remote, head, items, Files(None, None), script);
  }

  lemma ThreeTensors(base: nat, g: nat, n: nat, size: nat)
    requires 0 < g && 0 < n && base + g + n <= size
    ensures WellFormed([Tensor(0, g), Tensor(g, g + n), Tensor(g, g)], base, size)
    ensures Layout([Tensor(0, g), Tensor(g, g + n), Tensor(g, g)], base, size) ==
            [Item(base, base + g, 0, g), Item(base + g, base + g + n, g, g + n),
             Item(base + g, base + g, g + n, g + n)]
  {
    hide Sort, LaidOut, Layout, Packed;
    var pair, last := [Tensor(0, g), Tensor(g, g + n)], Tensor(g, g);
    var tensors := [Tensor(0, g), Tensor(g, g + n), last];
    assert Ordered(StartsBefore, tensors) && WellFormed(tensors, base, size);
    hide WellFormed, Ordered;
    SortOfOrdered(StartsBefore, tensors);
    LaidOutPair(Tensor(0, g), Tensor(g, g + n), base);
    LaidOutStep(tensors, base);
    assert tensors[..2] == pair;
    LayoutOf(tensors, tensors, base, size);
  }

  lemma PlanOfThree(first: Item, long: Item, empty: Item)
    requires first.absStart < first.absEnd == long.absStart == empty.absStart == empty.absEnd < long.absEnd
    requires empty.absEnd - first.absStart <= MAX_SEGMENT < long.absEnd - first.absStart
    ensures PlanFor([first, long, empty]) == [[first, empty], [long]]
  {
    hide Plan, Sort;
    var sorted := [first, empty, long];
    assert Sort(Before, [first, long, empty]) == sorted by {
      SortPair(Before, first, long);
      assert [first, long] + [empty] == [first, long, empty] && [first] + [long] == [first, long];
      SortStep(Before, [first, long], empty);
      InsertStep(Before, empty, [first], long);
      InsertAtEnd(Before, empty, [first]);
    }
    assert Plan(BRIDGE, MAX_SEGMENT, sorted) == [[first, empty], [long]] by {
      PlanPair(BRIDGE, MAX_SEGMENT, first, empty);
      PlanStep(BRIDGE, MAX_SEGMENT, [first, empty], long);
      assert sorted == [first, empty] + [long];
    }
  }

  lemma PlanStep(bridge: int, cap: int, items: seq<Item>, t: Item)
    ensures Plan(bridge, cap, items + [t]) ==
              var segs := Plan(bridge, cap, items);
              if segs != [] && Joins(bridge, cap, Last(segs), t) then segs[|segs| - 1 := Last(segs) + [t]]
              else segs + [[t]]
  {
    assert (items + [t])[..|items|] == items;
  }

  // --- the methods ------------------------------------------------------------------------------

  /** Whichever of these contents a killed run leaves, and even if it loses the end of it, resuming is right. */
  ghost predicate KillSafe(trace: seq<Bytes>, head: Bytes, target: Bytes) {
    forall c, left: Bytes | c in trace && left <= c :: Resumable(Some(left), head, target)
  }

  lemma HeadIsSafe(added: seq<Bytes>, head: Bytes, target: Bytes)
    requires head <= target && forall c | c in added :: c == [] || c == head
    ensures KillSafe(added, head, target)
  {
  }

  lemma SafeJoin(a: seq<Bytes>, b: seq<Bytes>, head: Bytes, target: Bytes)
    requires KillSafe(a, head, target) && KillSafe(b, head, target)
    ensures KillSafe(a + b, head, target)
  {
  }

  /** What the segment loop leaves behind, at any moment, when no write works after one that failed. */
  lemma StreamIsSafe(remote: Bytes, head: Bytes, items: seq<Item>, kept: Bytes, script: Script, was: seq<Bytes>,
                     now: Option<Bytes>, trace: seq<Bytes>)
    requires Packed(items, |remote|) && |head| <= |kept| <= |head| + CompactEnd(items, |items|)
    requires kept <= Target(remote, head, items) && !EmptyBehind(items, |kept| - |head|)
    requires var log := Streamed(items, |kept| - |head|, script, |remote|).log;
             Clean(log) && Grew(remote, kept, was, log, now, trace)
    ensures was <= trace && KillSafe(trace[|was|..], head, Target(remote, head, items))
  {
    hide Packed, Streamed, Wanted, BytesAt, Written, Hides, PlanFor, Within, AllOk, AllWork, Steady, Tried, Clean,
         EmptyBehind;
    var start, target := |kept| - |head|, Target(remote, head, items);
    var log := Streamed(items, start, script, |remote|).log;
    HidesIff(items, |remote|, start);
    StreamedFacts(items, start, script, |remote|);
    PrefixIffClean(log, 0, |remote|, Wanted(items)[start..]);
    SameLength(remote, Written(log), Wanted(items)[start..]);
    TargetTail(remote, head, items, start);
    PrefixOfTarget(target, |kept|, BytesAt(remote, Written(log)), BytesAt(remote, Wanted(items)[start..]));
    forall c, left: Bytes | c in trace[|was|..] && left <= c
      ensures Resumable(Some(left), head, target)
    {
      PrefixIsResumable(c, head, target, left);
    }
  }

  lemma StreamedIs(items: seq<Item>, start: nat, script: Script, size: nat)
    requires Packed(items, size)
    ensures InRanges(PlanFor(items), size)
    ensures Streamed(items, start, script, size) == AllSegments(PlanFor(items), start, script, size)
  {
    PlanForIsTidy(items, size);
    PlanIsInRanges(PlanFor(items), size);
  }

  /** Keeps what a run can use of the partial file, and otherwise starts it again with the header. */
  method Prepare(disk: Disk, head: Bytes, total: nat) returns (ok: bool)
    requires |head| >= 8
    modifies disk`part, disk`writes, disk`trace
    ensures var rewrites := Rewrites(old(disk.part), head, total);
            && ok == (rewrites ==> NextWorks(old(disk.writes)))
            && disk.part == Some(if ok then Base(old(disk.part), head, total) else [])
            && disk.writes == if rewrites then Tail(old(disk.writes)) else old(disk.writes)
    ensures old(disk.trace) <= disk.trace && forall c | c in disk.trace[|old(disk.trace)|..] :: c == [] || c == head
  {
    ok := true;
    if disk.part.Some? && |disk.part.value| > total {
      disk.part := None;
    }
    if disk.part.None? {
      disk.part := Some([]);
      disk.trace := disk.trace + [[]];
    }
    if |disk.part.value| < |head| {
      disk.part := Some([]);
      disk.trace := disk.trace + [[]];
      ok := disk.Append(head);
      assert [] + (if ok then head else []) == if ok then head else [];
    }
  }

  /** commonnet/hub.py fetch_compact, after the header has been read. */
  method FetchCompact(server: Server, disk: Disk, head: Bytes, tensors: seq<Tensor>, base: nat)
    returns (r: Result<(), HubError>, ghost log: Log)
    requires WellFormed(tensors, base, |server.remote|) && |head| >= 8
    modifies server`replies, server`chunks, disk
    ensures RunOf(server.remote, head, Layout(tensors, base, |server.remote|), old(Files(disk.part, disk.final)),
                  old(ScriptOf(server, disk)))
            == Run(r, Files(disk.part, disk.final), log, ScriptOf(server, disk))
    ensures old(disk.trace) <= disk.trace
    ensures var items := Layout(tensors, base, |server.remote|);
            var target := Target(server.remote, head, items);
            && Resumable(old(disk.part), head, target) && !EmptyBehind(items, Start(old(disk.part), head, items))
            && Clean(log)
            ==> KillSafe(disk.trace[|old(disk.trace)|..], head, target)
  {
    hide WellFormed, Packed, Wanted, Plan, Sort, Layout, AllSegments, Streamed, EmptyBehind, KillSafe, Clean, BytesAt,
         Written, InRanges;
    log := [];
    var items := LayOut(tensors, base, |server.remote|);
    ghost var remote, was := server.remote, disk.trace;
    ghost var target := Target(remote, head, items);
    WantedLength(items, |remote|);
    TargetTail(remote, head, items, 0);
    HeadIsSafe([], head, target);
    assert disk.trace[|was|..] == [];
    if tensors == [] {
      return Err(NoTensors), log;
    }
    var total := |head| + CompactEnd(items, |items|);
    if disk.final.Some? {
      return if |disk.final.value| == total then Ok(()) else Err(WrongFinal), log;
    }
    var ok := Prepare(disk, head, total);
    HeadIsSafe(disk.trace[|was|..], head, target);
    if !ok {
      return Err(DiskError), log;
    }
    ghost var kept, mid, script := disk.part.value, disk.trace, ScriptOf(server, disk);
    StreamedIs(items, |kept| - |head|, script, |remote|);
    r, log := StreamAll(server, disk, items, |disk.part.value| - |head|);
    if kept <= target && !EmptyBehind(items, |kept| - |head|) && Clean(log) {
      StreamIsSafe(remote, head, items, kept, script, mid, disk.part, disk.trace);
      SafeJoin(mid[|was|..], disk.trace[|mid|..], head, target);
      assert mid[|was|..] + disk.trace[|mid|..] == disk.trace[|was|..];
    }
    if r.Err? {
      return;
    }
    assert r == Ok(()) by {
      assert r.value == ();
    }
    if |disk.part.value| != total {
      return Err(SizeMismatch), log;
    }
    disk.final, disk.part := disk.part, None;
  }

  /** commonnet/hub.py fetch, for one file: every attempt resumes the partial file of the one before it. A client
    * error of the hub, and a disk that is full, end all attempts at once. */
  method Fetch(server: Server, disk: Disk, head: Bytes, tensors: seq<Tensor>, base: nat, full: nat -> bool)
    returns (r: Result<(), HubError>, ghost logs: seq<Log>)
    requires WellFormed(tensors, base, |server.remote|) && |head| >= 8
    modifies server`replies, server`chunks, disk
    ensures FetchOf(server.remote, head, Layout(tensors, base, |server.remote|), old(Files(disk.part, disk.final)),
                    old(ScriptOf(server, disk)), full, 0)
            == Fetched(r, Files(disk.part, disk.final), logs, ScriptOf(server, disk))
    ensures r.Err? ==> disk.final == old(disk.final)
    ensures AllWork(old(disk.writes)) ==> AllClean(logs)
    ensures var items := Layout(tensors, base, |server.remote|);
            var target := Target(server.remote, head, items);
            AllClean(logs) && tensors != [] && old(disk.final).None?
            && !EmptyBehind(items, Start(old(disk.part), head, items)) ==>
              && |head| <= |target|
              && (r.Ok? ==> disk.final == Some(Resumed(old(disk.part), head, target)) && disk.part.None?)
              && (r.Ok? ==> (disk.final == Some(target) <==> Resumable(old(disk.part), head, target)))
              && (r.Err? ==> Reached(disk.part, old(disk.part), head, target))
              && (r.Err? && Resumable(old(disk.part), head, target) ==> Resumable(disk.part, head, target))
              && (AllWork(old(disk.writes)) && Steady(old(ScriptOf(server, disk))) ==> r.Ok?)
  {
    hide WellFormed, Packed, Layout, Base, Resumed, RunOf, EmptyBehind, AllWork, Steady, Start, Resumable, AllClean;
    ghost var remote, files, script := server.remote, Files(disk.part, disk.final), ScriptOf(server, disk);
    ghost var items := Layout(tensors, base, |server.remote|);
    logs := [];
    var attempt := 0;
    while true
      invariant 0 <= attempt < ATTEMPTS
      invariant FetchOf(remote, head, items, files, script, full, 0)
             == After(logs, FetchOf(remote, head, items, Files(disk.part, disk.final), ScriptOf(server, disk), full,
                                    attempt))
      decreases ATTEMPTS - attempt
    {
      ghost var log;
      r, log := FetchCompact(server, disk, head, tensors, base);
      logs := logs + [log];
      if r.Ok? || GivesUp(r.error, full, attempt) {
        break;
      }
      attempt := attempt + 1;
    }
    FetchErrs(remote, head, items, files, script, full, 0);
    FetchWorks(remote, head, items, files, script, full, 0);
    TargetTail(remote, head, items, 0);
    if AllClean(logs) && items != [] && files.final.None? && !EmptyBehind(items, Start(files.part, head, items)) {
      CleanFetch(remote, head, items, files.part, files, script, full, 0);
      ResumedIsTargetIff(files.part, head, Target(remote, head, items));
      if r.Err? {
        ResumedAgain(files.part, head, Target(remote, head, items), disk.part);
      }
    }
  }
}
