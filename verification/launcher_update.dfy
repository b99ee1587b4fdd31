/** common/common.py _install_update_bundle: replace the launcher's files all together or not at all. Any
  * rename, write or delete may fail, as a script says.
  */
module LauncherUpdate {
  import opened Basics

  type Name = string
  type Data(==, 0, !new)

  datatype File = File(data: Data, mode: nat)

  /** Where a launcher file is installed, its staged new version and its original inside the temporary
    * directory, the backup beside it, and everything else on the disk. */
  datatype Path =
    | Target(name: Name)
    | Staged(name: Name)
    | Original(name: Name)
    | Backup(name: Name)
    | Other(path: string)

  type Tree = map<Path, File>

  const DEFAULT_MODE: nat := 0x1A4

  function View(tree: Tree, p: Path): Option<File> {
    if p in tree then Some(tree[p]) else None
  }

  /** os.replace, when it works. */
  function Moved(tree: Tree, src: Path, dst: Path): (r: Tree)
    requires src in tree && src != dst
    ensures View(r, src) == None && View(r, dst) == View(tree, src)
    ensures forall p | p != src && p != dst :: View(r, p) == View(tree, p)
  {
    tree[dst := tree[src]] - {src}
  }

  predicate InTemporary(p: Path) {
    p.Staged? || p.Original?
  }

  /** Leaving the temporary directory deletes it with all that is in it. */
  function CleanedUp(tree: Tree): (r: Tree)
    ensures forall p :: View(r, p) == if InTemporary(p) then None else View(tree, p)
  {
    map p | p in tree && !InTemporary(p) :: tree[p]
  }

  /** Permission bits: mode & 0o777. */
  function Permissions(mode: nat): nat {
    mode % 512
  }

  // --- scripts ----------------------------------------------------------------------------------

  /** After the first failure everything works. */
  predicate FailsOnce(outcomes: seq<bool>) {
    outcomes == [] || if outcomes[0] then FailsOnce(outcomes[1..]) else AllWork(outcomes[1..])
  }

  lemma TailWorks(outcomes: seq<bool>)
    ensures AllWork(outcomes) ==> NextWorks(outcomes) && AllWork(Tail(outcomes))
    ensures FailsOnce(outcomes) ==> if NextWorks(outcomes) then FailsOnce(Tail(outcomes)) else AllWork(Tail(outcomes))
  {
    assert outcomes != [] ==> outcomes[0] in outcomes;
    assert forall ok | ok in Tail(outcomes) :: ok in outcomes;
  }

  datatype Step = Step(tree: Tree, outcomes: seq<bool>, ok: bool)

  /** os.replace. */
  function Replaced(tree: Tree, outcomes: seq<bool>, src: Path, dst: Path): Step
    requires src != dst
  {
    if src in tree && NextWorks(outcomes) then Step(Moved(tree, src, dst), Tail(outcomes), true)
    else Step(tree, Tail(outcomes), false)
  }

  class Disk {
    var tree: Tree
    var outcomes: seq<bool>

    constructor (tree: Tree, outcomes: seq<bool>)
      ensures this.tree == tree && this.outcomes == outcomes
    {
      this.tree, this.outcomes := tree, outcomes;
    }

    method Replace(src: Path, dst: Path) returns (ok: bool)
      requires src != dst
      modifies this
      ensures Replaced(old(tree), old(outcomes), src, dst) == Step(tree, outcomes, ok)
    {
      ok, outcomes := src in tree && NextWorks(outcomes), Tail(outcomes);
      if ok {
        tree := Moved(tree, src, dst);
      }
    }

    method Unlink(p: Path) returns (ok: bool)
      modifies this
      ensures ok == NextWorks(old(outcomes)) && outcomes == Tail(old(outcomes))
      ensures tree == if ok then old(tree) - {p} else old(tree)
    {
      ok, outcomes := NextWorks(outcomes), Tail(outcomes);
      if ok {
        tree := tree - {p};
      }
    }

    /** A write that fails leaves anything at that path. */
    method Write(p: Path, file: File) returns (ok: bool)
      modifies this
      ensures ok == NextWorks(old(outcomes)) && outcomes == Tail(old(outcomes))
      ensures forall q | q != p :: View(tree, q) == View(old(tree), q)
      ensures ok ==> tree == old(tree)[p := file]
    {
      ok, outcomes := NextWorks(outcomes), Tail(outcomes);
      var torn: Data := *;
      tree := tree[p := if ok then file else File(torn, DEFAULT_MODE)];
    }

    method CleanUp()
      modifies this`tree
      ensures tree == CleanedUp(old(tree))
    {
      tree := CleanedUp(tree);
    }
  }

  datatype UpdateError = NotStaged | NotSwapped | NotRolledBack

  /** A bundle in the order it lists its files. */
  type Bundle = seq<(Name, Data)>

  /** No name twice: the bundle is a dictionary. */
  ghost predicate Distinct(bundle: Bundle) {
    forall i, j | 0 <= i < j < |bundle| :: bundle[i].0 != bundle[j].0
  }

  function NamesOf(bundle: Bundle): (r: seq<Name>)
    ensures |r| == |bundle|
  {
    seq(|bundle|, i requires 0 <= i < |bundle| => bundle[i].0)
  }

  lemma NamesAre(bundle: Bundle)
    ensures forall n :: n in NamesOf(bundle) <==> exists i | 0 <= i < |bundle| :: bundle[i].0 == n
  {
    forall i | 0 <= i < |bundle|
      ensures bundle[i].0 in NamesOf(bundle)
    {
      assert NamesOf(bundle)[i] == bundle[i].0;
    }
  }

  predicate Differs(tree: Tree, name: Name, data: Data) {
    Target(name) !in tree || tree[Target(name)].data != data
  }

  /** What replaces a file: the new contents, at the permissions the file had. */
  function NewFile(tree: Tree, name: Name, data: Data): File {
    File(data, if Target(name) in tree then Permissions(tree[Target(name)].mode) else DEFAULT_MODE)
  }

  /** The entries of the bundle that change something. */
  function Changes(tree: Tree, bundle: Bundle): (r: Bundle)
    ensures forall e :: e in r <==> e in bundle && Differs(tree, e.0, e.1)
    ensures Distinct(bundle) ==> Distinct(r)
  {
    if bundle == [] then []
    else
      var front, last := Changes(tree, bundle[..|bundle| - 1]), Last(bundle);
      DistinctFront(bundle, front);
      if Differs(tree, last.0, last.1) then front + [last] else front
  }

  lemma DistinctFront(bundle: Bundle, front: Bundle)
    requires bundle != [] && forall e :: e in front ==> e in bundle[..|bundle| - 1]
    requires Distinct(bundle[..|bundle| - 1]) ==> Distinct(front)
    ensures Distinct(bundle) ==> Distinct(front) && Distinct(front + [Last(bundle)])
  {
    if Distinct(bundle) {
      forall i | 0 <= i < |front|
        ensures front[i].0 != Last(bundle).0
      {
        assert front[i] in front;
        assert front[i] in bundle[..|bundle| - 1];
      }
    }
  }

  // --- where the swap stands --------------------------------------------------------------------

  /** Outside the temporary directory and the targets of `changes`, nothing has moved. */
  ghost predicate OnlyTouches(before: Tree, now: Tree, changes: Bundle) {
    forall p: Path | !InTemporary(p) && (p.Target? ==> p.name !in NamesOf(changes)) :: View(now, p) == View(before, p)
  }

  ghost predicate IsStaged(before: Tree, now: Tree, e: (Name, Data)) {
    && View(now, Staged(e.0)) == Some(NewFile(before, e.0, e.1))
    && View(now, Target(e.0)) == View(before, Target(e.0)) && View(now, Original(e.0)) == None
  }

  ghost predicate IsSwapped(before: Tree, now: Tree, e: (Name, Data)) {
    && View(now, Target(e.0)) == Some(NewFile(before, e.0, e.1))
    && View(now, Original(e.0)) == View(before, Target(e.0))
  }

  /** The original can still be put back. */
  ghost predicate CanRestore(before: Tree, now: Tree, e: (Name, Data)) {
    View(now, Original(e.0)) == View(before, Target(e.0))
  }

  ghost predicate IsRestored(before: Tree, now: Tree, e: (Name, Data)) {
    View(now, Target(e.0)) == View(before, Target(e.0))
  }

  /** Being dealt with by the roll-back: the original can be put back, and the target differs from it, unless
    * there was no file and is none. */
  ghost predicate IsMoved(before: Tree, now: Tree, e: (Name, Data)) {
    && CanRestore(before, now, e)
    && (IsRestored(before, now, e) ==> View(now, Target(e.0)) == None)
  }

  // --- the three loops as functions of tree and script ------------------------------------------

  function Staging(tree: Tree, outcomes: seq<bool>, changes: Bundle, i: nat): Step
    requires i <= |changes|
    decreases |changes| - i
  {
    if i == |changes| then Step(tree, outcomes, true)
    else if !NextWorks(outcomes) then Step(tree, Tail(outcomes), false)
    else
      var (name, data) := changes[i];
      Staging(tree[Staged(name) := NewFile(tree, name, data)], Tail(outcomes), changes, i + 1)
  }

  /** One replacement. The second result: the roll-back has to deal with this file. */
  function SwappingOne(tree: Tree, outcomes: seq<bool>, name: Name): (Step, bool) {
    var away :=
      if Target(name) in tree then Replaced(tree, outcomes, Target(name), Original(name))
      else Step(tree, outcomes, true);
    if !away.ok then (away, false) else (Replaced(away.tree, away.outcomes, Staged(name), Target(name)), true)
  }

  function RollingBackOne(tree: Tree, outcomes: seq<bool>, name: Name): Step {
    if Original(name) in tree then Replaced(tree, outcomes, Original(name), Target(name))
    else if Target(name) !in tree then Step(tree, outcomes, true)
    else if NextWorks(outcomes) then Step(tree - {Target(name)}, Tail(outcomes), true)
    else Step(tree, Tail(outcomes), false)
  }

  /** The first n files, last one first. */
  function RollingBack(tree: Tree, outcomes: seq<bool>, changes: Bundle, n: nat): Step
    requires n <= |changes|
    decreases n
  {
    if n == 0 then Step(tree, outcomes, true)
    else
      var s := RollingBackOne(tree, outcomes, changes[n - 1].0);
      if s.ok then RollingBack(s.tree, s.outcomes, changes, n - 1) else s
  }

  /** The swap from file i on. */
  function Swapping(tree: Tree, outcomes: seq<bool>, changes: Bundle, i: nat): (Step, Result<(), UpdateError>)
    requires i <= |changes|
    decreases |changes| - i
  {
    if i == |changes| then (Step(tree, outcomes, true), Ok(()))
    else
      var (s, moved) := SwappingOne(tree, outcomes, changes[i].0);
      if s.ok then Swapping(s.tree, s.outcomes, changes, i + 1)
      else
        var undone := RollingBack(s.tree, s.outcomes, changes, if moved then i + 1 else i);
        (undone, Err(if undone.ok then NotSwapped else NotRolledBack))
  }

  // --- how a run ends, from its script alone ----------------------------------------------------

  /** Which of the changed files were installed before. */
  function Installed(tree: Tree, changes: Bundle): (r: seq<bool>)
    ensures |r| == |changes|
  {
    seq(|changes|, i requires 0 <= i < |changes| => Target(changes[i].0) in tree)
  }

  predicate FirstWork(outcomes: seq<bool>, n: nat) {
    forall i | 0 <= i < n && i < |outcomes| :: outcomes[i]
  }

  function Drop(outcomes: seq<bool>, n: nat): seq<bool> {
    if n <= |outcomes| then outcomes[n..] else []
  }

  /** Where the swap fails: how many files are then to be put back, and the script from there. A file takes two
    * renames if it was installed before, and one if not. */
  function ToPutBack(outcomes: seq<bool>, installed: seq<bool>, i: nat): Option<(nat, seq<bool>)>
    requires i <= |installed|
    decreases |installed| - i
  {
    if i == |installed| then None
    else if installed[i] && !NextWorks(outcomes) then Some((i, Tail(outcomes)))
    else
      var next := if installed[i] then Tail(outcomes) else outcomes;
      if !NextWorks(next) then Some((if installed[i] then i + 1 else i, Tail(next)))
      else ToPutBack(Tail(next), installed, i + 1)
  }

  /** Everything is as it was: staging fails, or a rename of the swap fails and then no operation of the roll-back
    * does, of which there is one for every file to put back. */
  predicate Undone(outcomes: seq<bool>, installed: seq<bool>) {
    var failed := ToPutBack(Drop(outcomes, |installed|), installed, 0);
    || !FirstWork(outcomes, |installed|)
    || (failed.Some? && FirstWork(failed.value.1, failed.value.0))
  }

  lemma FirstWorkStep(outcomes: seq<bool>, n: nat)
    requires n > 0
    ensures FirstWork(outcomes, n) <==> NextWorks(outcomes) && FirstWork(Tail(outcomes), n - 1)
  {
    if outcomes != [] && FirstWork(outcomes, n) {
      assert forall i | 0 <= i < n - 1 && i < |Tail(outcomes)| :: Tail(outcomes)[i] == outcomes[i + 1];
    }
    if outcomes != [] && outcomes[0] && FirstWork(Tail(outcomes), n - 1) {
      assert forall i | 0 < i < n && i < |outcomes| :: outcomes[i] == Tail(outcomes)[i - 1];
    }
  }

  lemma {:induction false} StagingEnds(tree: Tree, outcomes: seq<bool>, changes: Bundle, i: nat)
    requires i <= |changes|
    ensures var s := Staging(tree, outcomes, changes, i);
            && (s.ok <==> FirstWork(outcomes, |changes| - i))
            && (s.ok ==> s.outcomes == Drop(outcomes, |changes| - i))
    decreases |changes| - i
  {
    if i < |changes| {
      hide NewFile, FirstWork;
      var (name, data) := changes[i];
      FirstWorkStep(outcomes, |changes| - i);
      StagingEnds(tree[Staged(name) := NewFile(tree, name, data)], Tail(outcomes), changes, i + 1);
    }
  }

  /** Putting this file back takes an operation. */
  predicate Displaced(tree: Tree, name: Name) {
    Original(name) in tree || Target(name) in tree
  }

  /** Putting each of the first n files back takes an operation. */
  predicate ToRestore(tree: Tree, changes: Bundle, n: nat)
    requires n <= |changes|
  {
    forall i | 0 <= i < n :: Displaced(tree, changes[i].0)
  }

  lemma {:induction false} RollingBackIff(tree: Tree, outcomes: seq<bool>, changes: Bundle, n: nat)
    requires Distinct(changes) && n <= |changes| && ToRestore(tree, changes, n)
    ensures RollingBack(tree, outcomes, changes, n).ok <==> FirstWork(outcomes, n)
    decreases n
  {
    if n > 0 {
      hide FirstWork;
      FirstWorkStep(outcomes, n);
      var s := RollingBackOne(tree, outcomes, changes[n - 1].0);
      if s.ok {
        forall i | 0 <= i < n - 1
          ensures Displaced(s.tree, changes[i].0)
        {
          assert changes[i].0 != changes[n - 1].0;
          Untouched(tree, outcomes, changes[n - 1].0, changes[i].0);
        }
        RollingBackIff(s.tree, s.outcomes, changes, n - 1);
      }
    }
  }

  lemma Untouched(tree: Tree, outcomes: seq<bool>, name: Name, other: Name)
    requires name != other
    ensures Displaced(RollingBackOne(tree, outcomes, name).tree, other) <==> Displaced(tree, other)
  {
  }

  /** Staged, and where it was before. */
  predicate Waiting(tree: Tree, name: Name, installed: bool) {
    Staged(name) in tree && Original(name) !in tree && (Target(name) in tree <==> installed)
  }

  /** One replacement, in terms of its script. */
  lemma SwappingOneEnds(tree: Tree, outcomes: seq<bool>, name: Name, installed: bool)
    requires Waiting(tree, name, installed)
    ensures installed && !NextWorks(outcomes) ==>
              SwappingOne(tree, outcomes, name) == (Step(tree, Tail(outcomes), false), false)
    ensures (installed ==> NextWorks(outcomes)) ==>
              var (s, moved) := SwappingOne(tree, outcomes, name);
              var next := if installed then Tail(outcomes) else outcomes;
              && moved && (s.ok <==> NextWorks(next)) && s.outcomes == Tail(next)
              && (Displaced(s.tree, name) <==> s.ok || installed)
    ensures forall p | p !in {Target(name), Staged(name), Original(name)} ::
              p in SwappingOne(tree, outcomes, name).0.tree <==> p in tree
  {
  }

  /** The first i files have been dealt with, and the others wait. */
  predicate Midway(tree: Tree, changes: Bundle, installed: seq<bool>, i: nat)
    requires i <= |changes| == |installed|
  {
    ToRestore(tree, changes, i) && forall j | i <= j < |changes| :: Waiting(tree, changes[j].0, installed[j])
  }

  lemma SwappingOneKeeps(tree: Tree, outcomes: seq<bool>, changes: Bundle, installed: seq<bool>, i: nat)
    requires Distinct(changes) && i < |changes| == |installed| && Midway(tree, changes, installed, i)
    ensures Waiting(tree, changes[i].0, installed[i])
    ensures var (s, moved) := SwappingOne(tree, outcomes, changes[i].0);
            && (s.ok ==> Midway(s.tree, changes, installed, i + 1))
            && ToRestore(s.tree, changes, if moved && installed[i] then i + 1 else i)
  {
    hide SwappingOne;
    var name := changes[i].0;
    SwappingOneEnds(tree, outcomes, name, installed[i]);
    forall j | 0 <= j < |changes| && j != i
      ensures var now := SwappingOne(tree, outcomes, name).0.tree;
              && (Displaced(now, changes[j].0) <==> Displaced(tree, changes[j].0))
              && (Waiting(now, changes[j].0, installed[j]) <==> Waiting(tree, changes[j].0, installed[j]))
    {
      assert changes[j].0 != name;
    }
  }

  /** How the swap ends, from its script alone: well if no rename fails, and else as its roll-back does. */
  function SwapEnding(outcomes: seq<bool>, installed: seq<bool>, i: nat): Result<(), UpdateError>
    requires i <= |installed|
  {
    match ToPutBack(outcomes, installed, i)
    case None => Ok(())
    case Some((n, rest)) => Err(if FirstWork(rest, n) then NotSwapped else NotRolledBack)
  }

  /** One step of the swap, next to the same step in the script. */
  lemma SwappingStep(tree: Tree, outcomes: seq<bool>, changes: Bundle, installed: seq<bool>, i: nat)
    requires Distinct(changes) && i < |changes| == |installed| && Midway(tree, changes, installed, i)
    ensures var s := SwappingOne(tree, outcomes, changes[i].0).0;
            if s.ok then
              && Swapping(tree, outcomes, changes, i) == Swapping(s.tree, s.outcomes, changes, i + 1)
              && SwapEnding(outcomes, installed, i) == SwapEnding(s.outcomes, installed, i + 1)
              && Midway(s.tree, changes, installed, i + 1)
            else
              Swapping(tree, outcomes, changes, i).1 == SwapEnding(outcomes, installed, i)
  {
    hide SwappingOne, RollingBack, NextWorks, Midway, ToRestore, Waiting, FirstWork;
    SwappingOneKeeps(tree, outcomes, changes, installed, i);
    SwappingOneEnds(tree, outcomes, changes[i].0, installed[i]);
    var (s, moved) := SwappingOne(tree, outcomes, changes[i].0);
    if !s.ok {
      RollingBackIff(s.tree, s.outcomes, changes, if moved && installed[i] then i + 1 else i);
      if moved && !installed[i] {
        NothingToPutBack(s.tree, s.outcomes, changes, i);
      }
    }
  }

  lemma {:induction false} SwappingEnds(tree: Tree, outcomes: seq<bool>, changes: Bundle, installed: seq<bool>, i: nat)
    requires Distinct(changes) && i <= |changes| == |installed| && Midway(tree, changes, installed, i)
    ensures Swapping(tree, outcomes, changes, i).1 == SwapEnding(outcomes, installed, i)
    decreases |changes| - i
  {
    if i < |changes| {
      hide Swapping, SwapEnding, SwappingOne, Midway, Distinct;
      SwappingStep(tree, outcomes, changes, installed, i);
      var s := SwappingOne(tree, outcomes, changes[i].0).0;
      if s.ok {
        SwappingEnds(s.tree, s.outcomes, changes, installed, i + 1);
      }
    }
  }

  /** A file that was not installed, and is not, needs no operation. */
  lemma NothingToPutBack(tree: Tree, outcomes: seq<bool>, changes: Bundle, i: nat)
    requires i < |changes| && !Displaced(tree, changes[i].0)
    ensures RollingBack(tree, outcomes, changes, i + 1) == RollingBack(tree, outcomes, changes, i)
  {
  }

  // --- the loops --------------------------------------------------------------------------------

  lemma OneMoreStaged(before: Tree, tree: Tree, changes: Bundle, i: nat)
    requires Distinct(changes) && i < |changes| && forall p | InTemporary(p) :: p !in before
    requires forall p: Path | !p.Staged? :: View(tree, p) == View(before, p)
    requires forall j | 0 <= j < i :: IsStaged(before, tree, changes[j])
    ensures var (name, data) := changes[i];
            var now := tree[Staged(name) := NewFile(tree, name, data)];
            && (forall p: Path | !p.Staged? :: View(now, p) == View(before, p))
            && (forall j | 0 <= j <= i :: IsStaged(before, now, changes[j]))
  {
    var (name, data) := changes[i];
    assert forall j | 0 <= j < i :: changes[j].0 != name;
    assert View(tree, Target(name)) == View(before, Target(name)) && View(tree, Original(name)) == None;
  }

  method Stage(disk: Disk, changes: Bundle) returns (ok: bool)
    requires Distinct(changes) && forall p | InTemporary(p) :: p !in disk.tree
    modifies disk
    ensures OnlyTouches(old(disk.tree), disk.tree, [])
    ensures ok ==> forall i | 0 <= i < |changes| :: IsStaged(old(disk.tree), disk.tree, changes[i])
    ensures FailsOnce(old(disk.outcomes)) && ok ==> FailsOnce(disk.outcomes)
    ensures var s := Staging(old(disk.tree), old(disk.outcomes), changes, 0);
            ok == s.ok && (ok ==> s == Step(disk.tree, disk.outcomes, true))
  {
    ghost var before, outcomes := disk.tree, disk.outcomes;
    for i := 0 to |changes|
      invariant forall p: Path | !p.Staged? :: View(disk.tree, p) == View(before, p)
      invariant forall j | 0 <= j < i :: IsStaged(before, disk.tree, changes[j])
      invariant FailsOnce(outcomes) ==> FailsOnce(disk.outcomes)
      invariant Staging(before, outcomes, changes, 0) == Staging(disk.tree, disk.outcomes, changes, i)
    {
      hide NewFile, IsStaged, FailsOnce;
      var (name, data) := changes[i];
      OneMoreStaged(before, disk.tree, changes, i);
      TailWorks(disk.outcomes);
      ok := disk.Write(Staged(name), NewFile(disk.tree, name, data));
      if !ok {
        return;
      }
    }
    ok := true;
  }

  /** One replacement. `moved`: the roll-back has to deal with this file. */
  method SwapOne(disk: Disk, e: (Name, Data), ghost before: Tree) returns (ok: bool, moved: bool)
    requires IsStaged(before, disk.tree, e) && Differs(before, e.0, e.1)
    modifies disk
    ensures forall p | p !in {Target(e.0), Staged(e.0), Original(e.0)} :: View(disk.tree, p) == View(old(disk.tree), p)
    ensures ok ==> moved && IsSwapped(before, disk.tree, e)
    ensures moved ==> IsMoved(before, disk.tree, e)
    ensures !moved ==> disk.tree == old(disk.tree)
    ensures FailsOnce(old(disk.outcomes)) ==> if ok then FailsOnce(disk.outcomes) else AllWork(disk.outcomes)
    ensures SwappingOne(old(disk.tree), old(disk.outcomes), e.0) == (Step(disk.tree, disk.outcomes, ok), moved)
  {
    if Target(e.0) in disk.tree {
      TailWorks(disk.outcomes);
      ok := disk.Replace(Target(e.0), Original(e.0));
      if !ok {
        return false, false;
      }
    }
    TailWorks(disk.outcomes);
    ok := disk.Replace(Staged(e.0), Target(e.0));
    return ok, true;
  }

  method RollBackOne(disk: Disk, e: (Name, Data), ghost before: Tree) returns (ok: bool)
    requires IsMoved(before, disk.tree, e)
    modifies disk
    ensures forall p | p !in {Target(e.0), Original(e.0)} :: View(disk.tree, p) == View(old(disk.tree), p)
    ensures ok <==> IsRestored(before, disk.tree, e)
    ensures AllWork(old(disk.outcomes)) ==> ok && AllWork(disk.outcomes)
    ensures RollingBackOne(old(disk.tree), old(disk.outcomes), e.0) == Step(disk.tree, disk.outcomes, ok)
  {
    TailWorks(disk.outcomes);
    if Original(e.0) in disk.tree {
      ok := disk.Replace(Original(e.0), Target(e.0));
    } else if Target(e.0) in disk.tree {
      ok := disk.Unlink(Target(e.0));
    } else {
      ok := true;
    }
  }

  /** Puts the first n originals back, last one first. It fails exactly if some target is not as it was. */
  method RollBack(disk: Disk, changes: Bundle, n: nat, ghost before: Tree) returns (ok: bool)
    requires Distinct(changes) && n <= |changes|
    requires OnlyTouches(before, disk.tree, changes)
    requires forall i | 0 <= i < n :: IsMoved(before, disk.tree, changes[i])
    requires forall i | n <= i < |changes| :: IsRestored(before, disk.tree, changes[i])
    modifies disk
    ensures OnlyTouches(before, disk.tree, changes)
    ensures ok <==> forall i | 0 <= i < |changes| :: IsRestored(before, disk.tree, changes[i])
    ensures AllWork(old(disk.outcomes)) ==> ok
    ensures RollingBack(old(disk.tree), old(disk.outcomes), changes, n) == Step(disk.tree, disk.outcomes, ok)
  {
    hide RollingBackOne, IsMoved, IsRestored, AllWork;
    NamesAre(changes);
    ghost var tree, outcomes := disk.tree, disk.outcomes;
    var k: nat := n;
    while k > 0
      invariant k <= n && OnlyTouches(before, disk.tree, changes)
      invariant forall i | 0 <= i < k :: IsMoved(before, disk.tree, changes[i])
      invariant forall i | k <= i < |changes| :: IsRestored(before, disk.tree, changes[i])
      invariant AllWork(outcomes) ==> AllWork(disk.outcomes)
      invariant RollingBack(tree, outcomes, changes, n) == RollingBack(disk.tree, disk.outcomes, changes, k)
    {
      k := k - 1;
      assert forall i | 0 <= i < |changes| && i != k :: changes[i].0 != changes[k].0;
      ghost var was := disk.tree;
      ok := RollBackOne(disk, changes[k], before);
      forall i | 0 <= i < |changes| && i != k
        ensures IsMoved(before, was, changes[i]) ==> IsMoved(before, disk.tree, changes[i])
        ensures IsRestored(before, was, changes[i]) ==> IsRestored(before, disk.tree, changes[i])
      {
        SameFile(before, was, disk.tree, changes[i]);
      }
      if !ok {
        return;
      }
    }
    ok := true;
  }

  lemma SameFile(before: Tree, was: Tree, now: Tree, e: (Name, Data))
    requires View(now, Target(e.0)) == View(was, Target(e.0)) && View(now, Original(e.0)) == View(was, Original(e.0))
    ensures IsMoved(before, was, e) ==> IsMoved(before, now, e)
    ensures IsRestored(before, was, e) ==> IsRestored(before, now, e)
    ensures IsSwapped(before, was, e) ==> IsSwapped(before, now, e)
    ensures IsStaged(before, was, e) && View(now, Staged(e.0)) == View(was, Staged(e.0)) ==> IsStaged(before, now, e)
  {
  }

  lemma SwappedIsMoved(before: Tree, now: Tree, e: (Name, Data))
    requires Differs(before, e.0, e.1)
    ensures IsSwapped(before, now, e) ==> IsMoved(before, now, e)
    ensures IsStaged(before, now, e) ==> IsRestored(before, now, e)
  {
  }

  /** Every change swapped in, or rolled back again. */
  method Swap(disk: Disk, changes: Bundle, ghost before: Tree) returns (r: Result<(), UpdateError>)
    requires Distinct(changes) && OnlyTouches(before, disk.tree, [])
    requires forall i | 0 <= i < |changes| :: IsStaged(before, disk.tree, changes[i])
    requires forall i | 0 <= i < |changes| :: Differs(before, changes[i].0, changes[i].1)
    modifies disk
    ensures OnlyTouches(before, disk.tree, changes)
    ensures r.Ok? ==> forall i | 0 <= i < |changes| :: IsSwapped(before, disk.tree, changes[i])
    ensures r.Err? ==>
              (r.error != NotRolledBack <==>
                 forall i | 0 <= i < |changes| :: IsRestored(before, disk.tree, changes[i]))
    ensures r.Err? ==> r.error == NotSwapped || r.error == NotRolledBack
    ensures r.Err? && FailsOnce(old(disk.outcomes)) ==> r.error == NotSwapped
    ensures var (s, result) := Swapping(old(disk.tree), old(disk.outcomes), changes, 0);
            s.tree == disk.tree && result == r
  {
    hide SwappingOne, RollingBack, IsMoved, IsSwapped, IsStaged, IsRestored, Differs, AllWork, FailsOnce;
    NamesAre(changes);
    ghost var tree, outcomes := disk.tree, disk.outcomes;
    for i := 0 to |changes|
      invariant OnlyTouches(before, disk.tree, changes)
      invariant forall j | 0 <= j < i :: IsSwapped(before, disk.tree, changes[j])
      invariant forall j | i <= j < |changes| :: IsStaged(before, disk.tree, changes[j])
      invariant FailsOnce(outcomes) ==> FailsOnce(disk.outcomes)
      invariant Swapping(tree, outcomes, changes, 0) == Swapping(disk.tree, disk.outcomes, changes, i)
    {
      assert forall j | 0 <= j < |changes| && j != i :: changes[j].0 != changes[i].0;
      ghost var was := disk.tree;
      var ok, moved := SwapOne(disk, changes[i], before);
      forall j | 0 <= j < |changes| && j != i
        ensures IsSwapped(before, was, changes[j]) ==> IsSwapped(before, disk.tree, changes[j])
        ensures IsStaged(before, was, changes[j]) ==> IsStaged(before, disk.tree, changes[j])
      {
        SameFile(before, was, disk.tree, changes[j]);
      }
      if !ok {
        forall j | 0 <= j < |changes|
          ensures IsSwapped(before, disk.tree, changes[j]) ==> IsMoved(before, disk.tree, changes[j])
          ensures IsStaged(before, disk.tree, changes[j]) ==> IsRestored(before, disk.tree, changes[j])
        {
          SwappedIsMoved(before, disk.tree, changes[j]);
        }
        var undone := RollBack(disk, changes, if moved then i + 1 else i, before);
        return Err(if undone then NotSwapped else NotRolledBack);
      }
    }
    return Ok(());
  }

  /** The originals become backups, where that works. */
  method KeepBackups(disk: Disk, changes: Bundle)
    requires Distinct(changes)
    modifies disk
    ensures forall p: Path | !p.Original? && (p.Backup? ==> p.name !in NamesOf(changes)) ::
              View(disk.tree, p) == View(old(disk.tree), p)
    ensures forall i | 0 <= i < |changes| ::
              var n := changes[i].0;
              || View(disk.tree, Backup(n)) == View(old(disk.tree), Backup(n))
              || (Original(n) in old(disk.tree) && View(disk.tree, Backup(n)) == View(old(disk.tree), Original(n)))
  {
    ghost var before := disk.tree;
    NamesAre(changes);
    for i := 0 to |changes|
      invariant forall p: Path | !p.Original? && (p.Backup? ==> p.name !in NamesOf(changes)) ::
                  View(disk.tree, p) == View(before, p)
      invariant forall j | i <= j < |changes| ::
                  && View(disk.tree, Original(changes[j].0)) == View(before, Original(changes[j].0))
                  && View(disk.tree, Backup(changes[j].0)) == View(before, Backup(changes[j].0))
      invariant forall j | 0 <= j < i ::
                  var n := changes[j].0;
                  || View(disk.tree, Backup(n)) == View(before, Backup(n))
                  || (Original(n) in before && View(disk.tree, Backup(n)) == View(before, Original(n)))
    {
      var name := changes[i].0;
      assert forall j | 0 <= j < |changes| && j != i :: changes[j].0 != name;
      if Original(name) in disk.tree {
        var ok := disk.Replace(Original(name), Backup(name));
      }
    }
  }

  method FindChanges(tree: Tree, bundle: Bundle) returns (changes: Bundle)
    ensures changes == Changes(tree, bundle)
  {
    changes := [];
    for i := 0 to |bundle|
      invariant changes == Changes(tree, bundle[..i])
    {
      assert bundle[..i + 1][..i] == bundle[..i];
      if Differs(tree, bundle[i].0, bundle[i].1) {
        changes := changes + [bundle[i]];
      }
    }
    assert bundle[..|bundle|] == bundle;
  }

  /** The update of the files that change, within the temporary directory. */
  method InstallChanges(disk: Disk, changes: Bundle) returns (r: Result<(), UpdateError>)
    requires changes != [] && Distinct(changes) && forall p | InTemporary(p) :: p !in disk.tree
    requires forall i | 0 <= i < |changes| :: Differs(disk.tree, changes[i].0, changes[i].1)
    modifies disk
    ensures forall p | InTemporary(p) :: p !in disk.tree
    ensures r.Err? ==> (disk.tree == old(disk.tree) <==> r.error != NotRolledBack)
    ensures r.Err? && FailsOnce(old(disk.outcomes)) ==> r.error != NotRolledBack
    ensures disk.tree == old(disk.tree) <==> Undone(old(disk.outcomes), Installed(old(disk.tree), changes))
    ensures r.Ok? ==>
              && (forall i | 0 <= i < |changes| ::
                    View(disk.tree, Target(changes[i].0)) == Some(NewFile(old(disk.tree), changes[i].0, changes[i].1)))
              && OnlyReplaces(old(disk.tree), disk.tree, changes)
    ensures r.Err? <==> Fails(old(disk.tree), old(disk.outcomes), changes)
    ensures r.Err? ==> FailedRun(old(disk.tree), old(disk.outcomes), changes) == (r.error, disk.tree)
  {
    hide Distinct, NewFile, IsStaged, Permissions, Staging, Swapping, FailsOnce, Differs, FirstWork, ToPutBack;
    ghost var before, outcomes := disk.tree, disk.outcomes;
    var staged := Stage(disk, changes);
    StagingEnds(before, outcomes, changes, 0);
    if !staged {
      disk.CleanUp();
      Restored(before, disk.tree, []);
      return Err(NotStaged);
    }
    StagedIsWaiting(before, disk.tree, changes);
    SwappingEnds(disk.tree, disk.outcomes, changes, Installed(before, changes), 0);
    r := Swap(disk, changes, before);
    if r.Err? {
      ghost var now := disk.tree;
      disk.CleanUp();
      if r.error != NotRolledBack {
        Restored(before, disk.tree, changes);
      } else {
        ghost var i :| 0 <= i < |changes| && !IsRestored(before, now, changes[i]);
        assert View(disk.tree, Target(changes[i].0)) != View(before, Target(changes[i].0));
      }
      return;
    }
    ghost var now := disk.tree;
    KeepBackups(disk, changes);
    ghost var kept := disk.tree;
    disk.CleanUp();
    KeptIsReplaced(before, now, kept, disk.tree, changes);
    NewIsDifferent(before, disk.tree, changes[0]);
  }

  /** Nothing is touched except the targets and backups of the changed files, and a backup that is new is the file
    * that was installed. */
  ghost predicate OnlyReplaces(before: Tree, now: Tree, changes: Bundle) {
    && (forall p: Path | (p.Target? || p.Backup? ==> p.name !in NamesOf(changes)) :: View(now, p) == View(before, p))
    && (forall n | n in NamesOf(changes) ::
          || View(now, Backup(n)) == View(before, Backup(n))
          || (Target(n) in before && View(now, Backup(n)) == View(before, Target(n))))
  }

  lemma KeptIsReplaced(before: Tree, now: Tree, kept: Tree, left: Tree, changes: Bundle)
    requires forall p | InTemporary(p) :: p !in before
    requires OnlyTouches(before, now, changes) && forall i | 0 <= i < |changes| :: IsSwapped(before, now, changes[i])
    requires forall p: Path | !p.Original? && (p.Backup? ==> p.name !in NamesOf(changes)) ::
               View(kept, p) == View(now, p)
    requires forall i | 0 <= i < |changes| ::
               var n := changes[i].0;
               || View(kept, Backup(n)) == View(now, Backup(n))
               || (Original(n) in now && View(kept, Backup(n)) == View(now, Original(n)))
    requires left == CleanedUp(kept)
    ensures OnlyReplaces(before, left, changes)
    ensures forall i | 0 <= i < |changes| ::
              View(left, Target(changes[i].0)) == Some(NewFile(before, changes[i].0, changes[i].1))
  {
    hide NewFile;
    NamesAre(changes);
  }

  /** If the update fails, nothing at all has changed, unless the roll-back failed too, and then something has;
    * one failure alone is always rolled back. Exactly which scripts leave everything as it was, `Undone` says. If
    * the update succeeds, every target holds the bundle's data, at the permissions it had; files that held it
    * already are not touched, nor is anything else except backups of what was replaced. */
  method InstallUpdateBundle(disk: Disk, bundle: Bundle) returns (r: Result<seq<Name>, UpdateError>)
    requires Distinct(bundle) && forall p | InTemporary(p) :: p !in disk.tree
    modifies disk
    ensures forall p | InTemporary(p) :: p !in disk.tree
    ensures r.Err? ==> (disk.tree == old(disk.tree) <==> r.error != NotRolledBack)
    ensures r.Err? && FailsOnce(old(disk.outcomes)) ==> r.error != NotRolledBack
    ensures var changes := Changes(old(disk.tree), bundle);
            disk.tree == old(disk.tree) <==>
              changes == [] || Undone(old(disk.outcomes), Installed(old(disk.tree), changes))
    ensures r.Ok? ==>
              var changes := Changes(old(disk.tree), bundle);
              && r.value == NamesOf(changes)
              && (forall i | 0 <= i < |bundle| ::
                    var (name, data) := bundle[i];
                    View(disk.tree, Target(name)) ==
                    if Differs(old(disk.tree), name, data) then Some(NewFile(old(disk.tree), name, data))
                    else View(old(disk.tree), Target(name)))
              && OnlyReplaces(old(disk.tree), disk.tree, changes)
    ensures r == Ok([]) ==> disk.tree == old(disk.tree)
    ensures r.Err? <==> Fails(old(disk.tree), old(disk.outcomes), Changes(old(disk.tree), bundle))
    ensures r.Err? ==>
              FailedRun(old(disk.tree), old(disk.outcomes), Changes(old(disk.tree), bundle)) == (r.error, disk.tree)
  {
    hide Changes, Distinct, NewFile, Staging, Swapping, FailsOnce, Differs, Undone;
    ghost var before := disk.tree;
    var changes := FindChanges(disk.tree, bundle);
    ChangesAre(before, bundle);
    if changes == [] {
      return Ok([]);
    }
    ChangesDiffer(before, bundle);
    var done := InstallChanges(disk, changes);
    return if done.Ok? then Ok(NamesOf(changes)) else Err(done.error);
  }

  predicate Fails(tree: Tree, outcomes: seq<bool>, changes: Bundle) {
    var staged := Staging(tree, outcomes, changes, 0);
    changes != [] && (staged.ok ==> Swapping(staged.tree, staged.outcomes, changes, 0).1.Err?)
  }

  /** How a run that fails ends: with which error, and with which files. */
  function FailedRun(tree: Tree, outcomes: seq<bool>, changes: Bundle): (UpdateError, Tree) {
    var staged := Staging(tree, outcomes, changes, 0);
    if !staged.ok then (NotStaged, tree)
    else
      var (s, result) := Swapping(staged.tree, staged.outcomes, changes, 0);
      (if result.Err? then result.error else NotSwapped, CleanedUp(s.tree))
  }

  lemma StagedIsWaiting(before: Tree, now: Tree, changes: Bundle)
    requires forall i | 0 <= i < |changes| :: IsStaged(before, now, changes[i])
    ensures forall i | 0 <= i < |changes| :: Waiting(now, changes[i].0, Installed(before, changes)[i])
  {
    forall i | 0 <= i < |changes|
      ensures Waiting(now, changes[i].0, Installed(before, changes)[i])
    {
      assert IsStaged(before, now, changes[i]);
    }
  }

  lemma NewIsDifferent(before: Tree, now: Tree, e: (Name, Data))
    requires Differs(before, e.0, e.1) && View(now, Target(e.0)) == Some(NewFile(before, e.0, e.1))
    ensures now != before
  {
  }

  lemma ChangesDiffer(tree: Tree, bundle: Bundle)
    ensures forall i | 0 <= i < |Changes(tree, bundle)| ::
              Differs(tree, Changes(tree, bundle)[i].0, Changes(tree, bundle)[i].1)
  {
    hide Differs;
    assert forall i | 0 <= i < |Changes(tree, bundle)| :: Changes(tree, bundle)[i] in Changes(tree, bundle);
  }

  lemma Restored(before: Tree, now: Tree, changes: Bundle)
    requires OnlyTouches(before, now, changes)
    requires forall i | 0 <= i < |changes| :: IsRestored(before, now, changes[i])
    requires forall p | InTemporary(p) :: p !in before && p !in now
    ensures now == before
  {
  }

  lemma ChangesAre(tree: Tree, bundle: Bundle)
    requires Distinct(bundle)
    ensures forall i | 0 <= i < |bundle| ::
              bundle[i] in Changes(tree, bundle) <==> Differs(tree, bundle[i].0, bundle[i].1)
    ensures forall i | 0 <= i < |bundle| ::
              bundle[i].0 in NamesOf(Changes(tree, bundle)) <==> bundle[i] in Changes(tree, bundle)
  {
    NamesAre(Changes(tree, bundle));
  }

  lemma OneChange(tree: Tree, name: Name, data: Data)
    requires Differs(tree, name, data)
    ensures Changes(tree, [(name, data)]) == [(name, data)]
  {
    assert [(name, data)][..0] == [];
    assert Changes(tree, [(name, data)][..0]) == [];
  }

  /** One file, staged and moved away; then neither its new version nor the original can be moved in. */
  lemma LostRun(name: Name, installed: File, data: Data)
    ensures var tree, changes := map[Target(name) := installed], [(name, data)];
            && Fails(tree, [true, true, false, false], changes)
            && FailedRun(tree, [true, true, false, false], changes) == (NotRolledBack, map[])
  {
    var tree: Tree, changes := map[Target(name) := installed], [(name, data)];
    var staged := tree[Staged(name) := NewFile(tree, name, data)];
    var away := Moved(staged, Target(name), Original(name));
    assert [true, true, false, false][1..] == [true, false, false] && [true, false, false][1..] == [false, false]
        && [false, false][1..] == [false] && [false][1..] == [];
    assert Staging(tree, [true, true, false, false], changes, 0) == Step(staged, [true, false, false], true) by {
      assert Staging(staged, [true, false, false], changes, 1) == Step(staged, [true, false, false], true);
    }
    assert View(away, Original(name)) == Some(installed);
    assert SwappingOne(staged, [true, false, false], name) == (Step(away, [false], false), true);
    assert RollingBackOne(away, [false], name) == Step(away, [], false);
    assert RollingBack(away, [false], changes, 1) == Step(away, [], false);
    assert forall p | p in away :: p == Staged(name) || p == Original(name);
    assert CleanedUp(away) == map[];
  }

  /** What a failed roll-back costs: the original is in the temporary directory, which is deleted on the way
    * out. In this run nothing is left of the only file. */
  method LoseOriginal(name: Name, installed: File, data: Data) returns (r: Result<seq<Name>, UpdateError>, left: Tree)
    requires installed.data != data
    ensures r == Err(NotRolledBack) && left == map[]
  {
    var tree: Tree := map[Target(name) := installed];
    var disk := new Disk(tree, [true, true, false, false]);
    OneChange(tree, name, data);
    LostRun(name, installed, data);
    r := InstallUpdateBundle(disk, [(name, data)]);
    left := disk.tree;
  }
}
