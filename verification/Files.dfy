/** The file system the cluster script works on, command by command, with a kill at any point,
    and the theory of phases that end by writing a marker. */
module Files {

  /** The directory trees of the script. They are disjoint. */
  datatype Tree = Build(id: string) | Config(id: string) | Home(parent: string, id: string)

  datatype Path = Path(tree: Tree, rel: seq<string>)

  datatype Node = Dir | File(text: string)

  type FileMap = map<Path, Node>

  predicate IsFile(p: Path, fs: FileMap) {
    p in fs && fs[p].File?
  }

  predicate IsDir(p: Path, fs: FileMap) {
    p in fs && fs[p].Dir?
  }

  function TextAt(p: Path, fs: FileMap): string {
    if IsFile(p, fs) then fs[p].text else ""
  }

  /** What can happen between two kills. A redirection opens (and empties) its file before the
      text arrives, and so does cp; Halt is a command that fails under errexit. */
  datatype Step =
    | MkDir(dst: Path)
    | Create(dst: Path)
    | Append(dst: Path, text: string)
    | CopyOpen(dst: Path, src: Path)
    | CopyData(dst: Path, src: Path)
    | RemoveTree(tree: Tree)
    | Halt

  function Do(s: Step, fs: FileMap): FileMap {
    match s
    case MkDir(dst) => fs[dst := Dir]
    case Create(dst) => fs[dst := File("")]
    case Append(dst, text) => fs[dst := File(TextAt(dst, fs) + text)]
    case CopyOpen(dst, src) => fs[dst := File("")]
    case CopyData(dst, src) => fs[dst := File(TextAt(src, fs))]
    case RemoveTree(tree) => map p | p in fs && p.tree != tree :: fs[p]
    case Halt => fs
  }

  predicate Writes(s: Step) {
    s.Create? || s.Append? || s.CopyOpen? || s.CopyData?
  }

  /** A directory stands where a file is written, or a file where a directory is made. */
  predicate Mismatch(s: Step, fs: FileMap) {
    (Writes(s) && IsDir(s.dst, fs)) || (s.MkDir? && IsFile(s.dst, fs))
  }

  /** The command fails, and errexit ends the script. */
  predicate Blocked(s: Step, fs: FileMap) {
    s.Halt? || (s.CopyOpen? && !IsFile(s.src, fs)) || Mismatch(s, fs)
  }

  /* ---------- a process that may be killed ---------- */

  /** `budget` is how many more steps the process lives. */
  datatype Proc = Proc(files: FileMap, alive: bool, budget: nat)

  function Exec(s: Step, p: Proc): Proc {
    if !p.alive then p
    else if p.budget == 0 || Blocked(s, p.files) then p.(alive := false)
    else Proc(Do(s, p.files), true, p.budget - 1)
  }

  function Run(steps: seq<Step>, p: Proc): Proc {
    if steps == [] then p else Exec(steps[|steps| - 1], Run(steps[..|steps| - 1], p))
  }

  lemma RunAppend(steps: seq<Step>, s: Step, p: Proc)
    ensures Run(steps + [s], p) == Exec(s, Run(steps, p))
  {
    assert (steps + [s])[..|steps|] == steps;
  }

  lemma {:induction false} RunConcat(a: seq<Step>, b: seq<Step>, p: Proc)
    ensures Run(a + b, p) == Run(b, Run(a, p))
  {
    if b == [] {
      assert a + b == a;
    } else {
      RunConcat(a, b[..|b| - 1], p);
      assert (a + b)[..|a + b| - 1] == a + b[..|b| - 1];
    }
  }

  /** The shell issues commands one at a time. */
  class Shell {
    var proc: Proc

    constructor (files: FileMap, budget: nat)
      ensures proc == Proc(files, true, budget)
    {
      proc := Proc(files, true, budget);
    }

    method Issue(s: Step)
      modifies this
      ensures proc == Exec(s, old(proc))
    {
      if proc.alive {
        if proc.budget == 0 || Blocked(s, proc.files) {
          proc := proc.(alive := false);
        } else {
          proc := Proc(Do(s, proc.files), true, proc.budget - 1);
        }
      }
    }

    /** ... > dst */
    method Redirect(dst: Path, text: string)
      modifies this
      ensures proc == Run(Write(dst, text), old(proc))
    {
      Issue(Create(dst));
      Issue(Append(dst, text));
      RunTwo(Create(dst), Append(dst, text), old(proc));
    }

    /** cp src dst */
    method Cp(dst: Path, src: Path)
      modifies this
      ensures proc == Run(Copy(dst, src), old(proc))
    {
      Issue(CopyOpen(dst, src));
      Issue(CopyData(dst, src));
      RunTwo(CopyOpen(dst, src), CopyData(dst, src), old(proc));
    }
  }

  function Write(dst: Path, text: string): seq<Step> {
    [Create(dst), Append(dst, text)]
  }

  function Copy(dst: Path, src: Path): seq<Step> {
    [CopyOpen(dst, src), CopyData(dst, src)]
  }

  lemma RunOne(s: Step, p: Proc)
    ensures Run([s], p) == Exec(s, p)
  {
    assert [s][..0] == [];
  }

  lemma RunTwo(s: Step, t: Step, p: Proc)
    ensures Run([s, t], p) == Exec(t, Exec(s, p))
  {
    assert [s, t][..1] == [s];
    RunOne(s, p);
  }

  /* ---------- what a run leaves behind ---------- */

  /** The steps applied one after the other, none failing. */
  function All(steps: seq<Step>, fs: FileMap): FileMap {
    if steps == [] then fs else Do(steps[|steps| - 1], All(steps[..|steps| - 1], fs))
  }

  /** How many steps are executed before the first that fails. */
  function Reach(steps: seq<Step>, fs: FileMap): (m: nat)
    ensures m <= |steps|
  {
    if steps == [] then 0
    else
      var init := steps[..|steps| - 1];
      var m := Reach(init, fs);
      if m < |init| || Blocked(steps[|init|], All(init, fs)) then m else m + 1
  }

  lemma {:induction false} AllConcat(a: seq<Step>, b: seq<Step>, fs: FileMap)
    ensures All(a + b, fs) == All(b, All(a, fs))
  {
    if b == [] {
      assert a + b == a;
    } else {
      AllConcat(a, b[..|b| - 1], fs);
      assert (a + b)[..|a + b| - 1] == a + b[..|b| - 1];
    }
  }

  function Min(a: nat, b: nat): nat {
    if a <= b then a else b
  }

  /** A killed run has applied a prefix of its steps. */
  lemma {:induction false} RunIsPrefix(steps: seq<Step>, fs: FileMap, budget: nat)
    ensures var p := Run(steps, Proc(fs, true, budget));
            var k := Min(budget, Reach(steps, fs));
            p.files == All(steps[..k], fs) && (p.alive <==> k == |steps|) && (p.alive ==> p.budget == budget - k)
  {
    if steps == [] {
      assert steps[..0] == steps;
    } else {
      var init := steps[..|steps| - 1];
      RunIsPrefix(init, fs, budget);
      assert forall k | 0 <= k <= |init| :: steps[..k] == init[..k];
      assert init[..|init|] == init && steps[..|steps|] == steps;
    }
  }

  /* ---------- what steps touch and depend on ---------- */

  predicate HasTarget(s: Step) {
    !s.RemoveTree? && !s.Halt?
  }

  function Targets(steps: seq<Step>): set<Path> {
    set s | s in steps && HasTarget(s) :: s.dst
  }

  /** The step writes inside the tree, and reads nothing but what has been written before or lies
      outside the tree. */
  predicate Ready(s: Step, written: set<Path>, tree: Tree) {
    && !s.RemoveTree?
    && (HasTarget(s) ==> s.dst.tree == tree)
    && (s.Append? ==> s.dst in written)
    && (s.CopyOpen? || s.CopyData? ==> s.src.tree != tree)
  }

  ghost predicate Sound(steps: seq<Step>, written: set<Path>, tree: Tree) {
    forall i | 0 <= i < |steps| :: Ready(steps[i], written + Targets(steps[..i]), tree)
  }

  lemma SoundConcat(a: seq<Step>, b: seq<Step>, written: set<Path>, tree: Tree)
    requires Sound(a, written, tree) && Sound(b, written + Targets(a), tree)
    ensures Sound(a + b, written, tree)
    ensures Targets(a + b) == Targets(a) + Targets(b)
  {
    forall i | 0 <= i < |a + b|
      ensures Ready((a + b)[i], written + Targets((a + b)[..i]), tree)
    {
      if i < |a| {
        assert (a + b)[..i] == a[..i];
      } else {
        var k := i - |a|;
        assert (a + b)[..i] == a + b[..k];
        assert forall s | s in a + b[..k] :: s in a || s in b[..k];
        assert Targets(a + b[..k]) == Targets(a) + Targets(b[..k]);
      }
    }
  }

  lemma SoundMonotone(steps: seq<Step>, written: set<Path>, more: set<Path>, tree: Tree)
    requires Sound(steps, written, tree) && written <= more
    ensures Sound(steps, more, tree)
  {
    forall i | 0 <= i < |steps| ensures Ready(steps[i], more + Targets(steps[..i]), tree) {
      assert Ready(steps[i], written + Targets(steps[..i]), tree);
    }
  }

  lemma SoundPrefix(steps: seq<Step>, k: nat, written: set<Path>, tree: Tree)
    requires Sound(steps, written, tree) && k <= |steps|
    ensures Sound(steps[..k], written, tree)
  {
    forall i | 0 <= i < k ensures Ready(steps[..k][i], written + Targets(steps[..k][..i]), tree) {
      assert steps[..k][..i] == steps[..i];
    }
  }

  /** Two maps hold the same at p. */
  predicate Same(p: Path, a: FileMap, b: FileMap) {
    (p in a <==> p in b) && (p in a ==> a[p] == b[p])
  }

  /** A run leaves everything else alone. */
  lemma {:induction false} Untouched(steps: seq<Step>, fs: FileMap, p: Path)
    requires p !in Targets(steps) && forall s: Step | s in steps :: !s.RemoveTree?
    ensures Same(p, All(steps, fs), fs)
  {
    if steps != [] {
      var init, last := steps[..|steps| - 1], steps[|steps| - 1];
      assert forall s | s in init :: s in steps;
      assert last in steps;
      Untouched(init, fs, p);
    }
  }

  ghost predicate AgreeExcept(a: FileMap, b: FileMap, paths: set<Path>) {
    forall p | p !in paths :: Same(p, a, b)
  }

  function Target(s: Step): set<Path> {
    if HasTarget(s) then {s.dst} else {}
  }

  lemma TargetsAppend(steps: seq<Step>, s: Step)
    ensures Targets(steps + [s]) == Targets(steps) + Target(s)
  {
    assert (steps + [s])[|steps|] == s;
    forall p | p in Targets(steps) ensures p in Targets(steps + [s]) {
      var t :| t in steps && HasTarget(t) && t.dst == p;
      assert t in steps + [s];
    }
  }

  lemma DoAgrees(s: Step, a: FileMap, b: FileMap, unknown: set<Path>)
    requires AgreeExcept(a, b, unknown) && !s.RemoveTree?
    requires s.Append? ==> s.dst !in unknown
    requires s.CopyOpen? || s.CopyData? ==> s.src !in unknown
    ensures AgreeExcept(Do(s, a), Do(s, b), unknown - Target(s))
  {
    assert s.Append? ==> Same(s.dst, a, b);
    assert s.CopyData? ==> Same(s.src, a, b);
  }

  /** Where a sound run ends does not depend on what its targets held at the start. */
  lemma {:induction false} Independent(steps: seq<Step>, a: FileMap, b: FileMap, tree: Tree, unknown: set<Path>)
    requires Sound(steps, {}, tree) && AgreeExcept(a, b, unknown)
    requires forall p: Path | p in unknown :: p.tree == tree
    ensures AgreeExcept(All(steps, a), All(steps, b), unknown - Targets(steps))
  {
    if steps != [] {
      var n := |steps| - 1;
      var init, last := steps[..n], steps[n];
      SoundPrefix(steps, n, {}, tree);
      Independent(init, a, b, tree, unknown);
      assert Ready(last, {} + Targets(init), tree);
      DoAgrees(last, All(init, a), All(init, b), unknown - Targets(init));
      assert init + [last] == steps;
      TargetsAppend(init, last);
      assert unknown - Targets(init) - Target(last) == unknown - Targets(steps);
    }
  }

  lemma SoundTargets(steps: seq<Step>, written: set<Path>, tree: Tree)
    requires Sound(steps, written, tree)
    ensures forall p: Path | p in Targets(steps) :: p.tree == tree
    ensures forall s: Step | s in steps :: !s.RemoveTree?
  {
    forall s | s in steps ensures !s.RemoveTree? && (HasTarget(s) ==> s.dst.tree == tree) {
      var i :| 0 <= i < |steps| && steps[i] == s;
      assert Ready(steps[i], written + Targets(steps[..i]), tree);
    }
  }

  /* ---------- when a run gets through ---------- */

  predicate HasSource(s: Step, fs: FileMap) {
    s.CopyOpen? ==> IsFile(s.src, fs)
  }

  predicate SourcesThere(steps: seq<Step>, fs: FileMap) {
    forall s | s in steps :: HasSource(s, fs)
  }

  lemma SourcesThereAppend(steps: seq<Step>, s: Step, fs: FileMap)
    ensures SourcesThere(steps + [s], fs) <==> SourcesThere(steps, fs) && HasSource(s, fs)
  {
    assert forall t | t in steps + [s] :: t in steps || t == s;
    assert forall t | t in steps :: t in steps + [s];
    assert s in steps + [s];
  }

  /** A sound copy fails or not as it would have at the start. */
  lemma SameSource(steps: seq<Step>, n: nat, tree: Tree, fs: FileMap)
    requires n < |steps| && Sound(steps, {}, tree)
    ensures HasSource(steps[n], All(steps[..n], fs)) <==> HasSource(steps[n], fs)
  {
    assert Ready(steps[n], {} + Targets(steps[..n]), tree);
    SoundPrefix(steps, n, {}, tree);
    SoundTargets(steps[..n], {}, tree);
    if steps[n].CopyOpen? {
      Untouched(steps[..n], fs, steps[n].src);
    }
  }

  /** The paths the steps write, and the directories they make. */
  function Written(steps: seq<Step>): set<Path> {
    set s | s in steps && Writes(s) :: s.dst
  }

  function Made(steps: seq<Step>): set<Path> {
    set s | s in steps && s.MkDir? :: s.dst
  }

  ghost predicate NoRemoval(steps: seq<Step>) {
    forall t: Step | t in steps :: !t.RemoveTree?
  }

  /** What stands in the way of no step: no directory where a file is to be written, and no file
      where a directory is to be made. */
  predicate Unobstructed(steps: seq<Step>, fs: FileMap) {
    forall t | t in steps :: !Mismatch(t, fs)
  }

  /** Nor do the steps get into each other's way. */
  predicate KindsAgree(steps: seq<Step>, fs: FileMap) {
    Unobstructed(steps, fs) && Made(steps) !! Written(steps)
  }

  lemma WrittenConcat(a: seq<Step>, b: seq<Step>)
    ensures Written(a + b) == Written(a) + Written(b)
  {
    forall p ensures p in Written(a + b) <==> p in Written(a) + Written(b) {
      if p in Written(a) {
        var t :| t in a && Writes(t) && t.dst == p;
        assert t in a + b;
      }
      if p in Written(b) {
        var t :| t in b && Writes(t) && t.dst == p;
        assert t in a + b;
      }
    }
  }

  lemma MadeConcat(a: seq<Step>, b: seq<Step>)
    ensures Made(a + b) == Made(a) + Made(b)
  {
    forall p ensures p in Made(a + b) <==> p in Made(a) + Made(b) {
      if p in Made(a) {
        var t :| t in a && t.MkDir? && t.dst == p;
        assert t in a + b;
      }
      if p in Made(b) {
        var t :| t in b && t.MkDir? && t.dst == p;
        assert t in a + b;
      }
    }
  }

  lemma UnobstructedConcat(a: seq<Step>, b: seq<Step>, fs: FileMap)
    ensures Unobstructed(a + b, fs) <==> Unobstructed(a, fs) && Unobstructed(b, fs)
  {
    assert forall t | t in a :: t in a + b;
    assert forall t | t in b :: t in a + b;
    assert forall t | t in a + b :: t in a || t in b;
  }

  /** The last step does not get into the way of the earlier ones, nor they into its. */
  predicate FitsBehind(s: Step, steps: seq<Step>) {
    (s.MkDir? ==> s.dst !in Written(steps)) && (Writes(s) ==> s.dst !in Made(steps))
  }

  lemma KindsAppend(steps: seq<Step>, s: Step, fs: FileMap)
    ensures KindsAgree(steps + [s], fs) <==>
            KindsAgree(steps, fs) && !Mismatch(s, fs) && FitsBehind(s, steps)
  {
    UnobstructedConcat(steps, [s], fs);
    WrittenConcat(steps, [s]);
    MadeConcat(steps, [s]);
    assert Written([s]) == if Writes(s) then {s.dst} else {} by { assert s in [s]; }
    assert Made([s]) == if s.MkDir? then {s.dst} else {} by { assert s in [s]; }
  }

  /** What is a directory, and what a file, after steps that are not in each other's way. */
  lemma {:induction false} KindAfter(steps: seq<Step>, fs: FileMap, p: Path)
    requires KindsAgree(steps, fs) && NoRemoval(steps)
    ensures IsDir(p, All(steps, fs)) <==> IsDir(p, fs) || p in Made(steps)
    ensures IsFile(p, All(steps, fs)) <==> IsFile(p, fs) || p in Written(steps)
  {
    if steps != [] {
      var init, last := steps[..|steps| - 1], steps[|steps| - 1];
      assert steps == init + [last] && last in steps;
      KindsAppend(init, last, fs);
      assert forall t: Step | t in init :: t in steps;
      KindAfter(init, fs, p);
      WrittenConcat(init, [last]);
      MadeConcat(init, [last]);
      assert Written([last]) == if Writes(last) then {last.dst} else {} by { assert last in [last]; }
      assert Made([last]) == if last.MkDir? then {last.dst} else {} by { assert last in [last]; }
      hide Written, Made, NoRemoval, All, KindsAgree;
      DoKind(last, All(init, fs), p);
      AllAppend(init, last, fs);
    }
  }

  lemma DoKind(s: Step, fs: FileMap, p: Path)
    requires !s.RemoveTree?
    ensures IsDir(p, Do(s, fs)) <==>
            if s.MkDir? && s.dst == p then true else IsDir(p, fs) && !(Writes(s) && s.dst == p)
    ensures IsFile(p, Do(s, fs)) <==>
            if Writes(s) && s.dst == p then true else IsFile(p, fs) && !(s.MkDir? && s.dst == p)
  {
  }

  /** Behind steps that are not in each other's way, a step meets the wrong kind exactly if it would
      have at the start, or one of them has put it there. */
  lemma MismatchLater(steps: seq<Step>, s: Step, fs: FileMap)
    requires KindsAgree(steps, fs) && NoRemoval(steps)
    ensures Mismatch(s, All(steps, fs)) <==> Mismatch(s, fs) || !FitsBehind(s, steps)
  {
    hide KindsAgree, NoRemoval, All, Written, Made;
    if HasTarget(s) {
      KindAfter(steps, fs, s.dst);
    }
  }

  /** Sound steps get through exactly when none is Halt, all sources of copies are there at the
      start, and nothing, of before or of their own, stands in their way. */
  lemma {:induction false} ReachIff(steps: seq<Step>, tree: Tree, fs: FileMap)
    requires Sound(steps, {}, tree)
    ensures Reach(steps, fs) == |steps| <==> Halt !in steps && SourcesThere(steps, fs) && KindsAgree(steps, fs)
  {
    if steps != [] {
      var n := |steps| - 1;
      var init, last := steps[..n], steps[n];
      assert steps == init + [last] && last in steps;
      assert Halt in steps <==> Halt in init || last == Halt;
      SoundPrefix(steps, n, {}, tree);
      SoundTargets(init, {}, tree);
      ReachIff(init, tree, fs);
      SourcesThereAppend(init, last, fs);
      SameSource(steps, n, tree, fs);
      KindsAppend(init, last, fs);
      if KindsAgree(init, fs) {
        MismatchLater(init, last, fs);
      }
      hide Sound, SourcesThere, KindsAgree, All, FitsBehind, Mismatch;
      ReachAppend(init, last, fs);
    }
  }

  lemma ReachAppend(steps: seq<Step>, s: Step, fs: FileMap)
    ensures Reach(steps + [s], fs) ==
            if Reach(steps, fs) < |steps| || Blocked(s, All(steps, fs)) then Reach(steps, fs) else |steps| + 1
  {
    assert (steps + [s])[..|steps|] == steps;
  }

  /** Where a run stops. */
  lemma {:induction false} ReachStops(steps: seq<Step>, fs: FileMap)
    ensures var m := Reach(steps, fs);
            Reach(steps[..m], fs) == m && (m < |steps| ==> Blocked(steps[m], All(steps[..m], fs)))
  {
    if steps == [] {
      assert steps[..0] == steps;
    } else {
      var n := |steps| - 1;
      ReachStops(steps[..n], fs);
      var m := Reach(steps, fs);
      if m <= n {
        assert steps[..n][..m] == steps[..m];
      } else {
        assert steps[..m] == steps;
      }
    }
  }

  lemma {:induction false} ReachFrom(steps: seq<Step>, fs: FileMap, m: nat)
    requires m <= |steps| && Reach(steps[..m], fs) == m
    requires m < |steps| ==> Blocked(steps[m], All(steps[..m], fs))
    ensures Reach(steps, fs) == m
  {
    if m == |steps| {
      assert steps[..m] == steps;
    } else {
      var n := |steps| - 1;
      assert m <= n;
      assert steps[..n][..m] == steps[..m];
      if m < n {
        ReachFrom(steps[..n], fs, m);
      }
    }
  }

  /** Paths of the tree alone decide what stands in the way of sound steps. */
  lemma UnobstructedInside(steps: seq<Step>, a: FileMap, b: FileMap)
    requires forall t | t in steps && HasTarget(t) :: Same(t.dst, a, b)
    ensures Unobstructed(steps, a) <==> Unobstructed(steps, b)
  {
  }

  /** Which files these steps write right below the root of the tree, and which directories, all of
      them there, they make. */
  ghost predicate Kinds(tree: Tree, steps: seq<Step>, written: set<string>, made: set<string>) {
    && (forall name :: Path(tree, [name]) in Written(steps) <==> name in written)
    && (forall name :: Path(tree, [name]) in Made(steps) <==> name in made)
    && (forall p | p in Made(steps) :: p.tree == tree && |p.rel| == 1)
    && (forall p | p in Written(steps) :: p.rel != [])
  }

  lemma KindsConcat(tree: Tree, a: seq<Step>, b: seq<Step>, wa: set<string>, ma: set<string>,
                    wb: set<string>, mb: set<string>, w: set<string>, m: set<string>)
    requires Kinds(tree, a, wa, ma) && Kinds(tree, b, wb, mb) && w == wa + wb && m == ma + mb
    ensures Kinds(tree, a + b, w, m)
  {
    WrittenConcat(a, b);
    MadeConcat(a, b);
  }

  lemma KindsOne(t: Step)
    ensures Written([t]) == if Writes(t) then {t.dst} else {}
    ensures Made([t]) == if t.MkDir? then {t.dst} else {}
  {
    assert t in [t];
  }

  /** Where a path counts for Kinds. */
  function BelowRoot(tree: Tree, dst: Path): set<string> {
    if dst.tree == tree && |dst.rel| == 1 then {dst.rel[0]} else {}
  }

  lemma WriteKinds(tree: Tree, dst: Path, text: string)
    requires dst.rel != []
    ensures Kinds(tree, Write(dst, text), BelowRoot(tree, dst), {})
  {
    assert Create(dst) in Write(dst, text);
    assert |dst.rel| == 1 ==> dst.rel == [dst.rel[0]];
    assert Written(Write(dst, text)) == {dst} && Made(Write(dst, text)) == {};
  }

  lemma CopyKinds(tree: Tree, dst: Path, src: Path)
    requires dst.rel != []
    ensures Kinds(tree, Copy(dst, src), BelowRoot(tree, dst), {})
  {
    assert CopyOpen(dst, src) in Copy(dst, src);
    assert |dst.rel| == 1 ==> dst.rel == [dst.rel[0]];
    assert Written(Copy(dst, src)) == {dst} && Made(Copy(dst, src)) == {};
  }

  lemma DirKinds(tree: Tree, name: string)
    ensures Kinds(tree, [MkDir(Path(tree, [name]))], {}, {name})
  {
    KindsOne(MkDir(Path(tree, [name])));
  }

  lemma HaltKinds(tree: Tree)
    ensures Kinds(tree, [Halt], {}, {})
  {
    KindsOne(Halt);
  }

  lemma NoKinds(tree: Tree)
    ensures Kinds(tree, [], {}, {})
  {
  }

  lemma KindsMore(tree: Tree, a: seq<Step>, b: seq<Step>, w: set<string>)
    requires Kinds(tree, a, w, {}) && Kinds(tree, b, {}, {})
    ensures Kinds(tree, a + b, w, {})
  {
    hide Kinds;
    KindsConcat(tree, a, b, w, {}, {}, {}, w, {});
  }

  /** So nothing is both exactly if no name is. */
  lemma KindsClash(tree: Tree, rest: seq<Step>, w: set<string>, m: set<string>)
    requires Kinds(tree, rest, w, m)
    ensures var steps := [MkDir(Path(tree, []))] + rest; Made(steps) !! Written(steps) <==> m !! w
  {
    var root := MkDir(Path(tree, []));
    KindsOne(root);
    MadeConcat([root], rest);
    WrittenConcat([root], rest);
    hide Made, Written;
    if m !! w {
      forall p | p in Made(rest) ensures p !in Written(rest) {
        assert p == Path(tree, [p.rel[0]]);
      }
    } else {
      var name :| name in m && name in w;
      assert Path(tree, [name]) in Made(rest) && Path(tree, [name]) in Written(rest);
    }
  }

  /* ---------- phases with a marker ---------- */

  /** A phase does its work, and then writes its marker in two steps: open and fill. */
  datatype Phase = Phase(body: seq<Step>, open: Step, fill: Step) {
    function Steps(): seq<Step> { body + [open, fill] }

    ghost predicate WellFormed(tree: Tree) {
      && Sound(Steps(), {}, tree)
      && ((open.Create? && fill.Append?) || (open.CopyOpen? && fill.CopyData? && open.src == fill.src))
      && open.dst == fill.dst && open.dst !in Written(body)
    }
  }

  /** A sound body becomes a phase by writing, or copying from elsewhere, a marker it has not
      written. */
  lemma PhaseWellFormed(ph: Phase, tree: Tree)
    requires Sound(ph.body, {}, tree)
    requires (ph.open.Create? && ph.fill.Append?)
             || (ph.open.CopyOpen? && ph.fill.CopyData? && ph.open.src == ph.fill.src && ph.open.src.tree != tree)
    requires ph.open.dst == ph.fill.dst && ph.open.dst.tree == tree && ph.open.dst !in Written(ph.body)
    ensures ph.WellFormed(tree)
  {
    var w := [ph.open, ph.fill];
    assert w[..0] == [] && w[..1] == [ph.open];
    assert ph.open in w[..1] && ph.open.dst in Targets(w[..1]);
    SoundConcat(ph.body, w, {}, tree);
  }

  /** One invocation of the phase: refused if the marker is there, otherwise run until done, until
      a command fails, or until killed. */
  function Attempt(ph: Phase, fs: FileMap, budget: nat): FileMap
    requires ph.open.Create? || ph.open.CopyOpen?
  {
    if IsFile(ph.open.dst, fs) then fs else Run(ph.Steps(), Proc(fs, true, budget)).files
  }

  function Attempts(ph: Phase, fs: FileMap, budgets: seq<nat>): FileMap
    requires ph.open.Create? || ph.open.CopyOpen?
  {
    if budgets == [] then fs
    else Attempt(ph, Attempts(ph, fs, budgets[..|budgets| - 1]), budgets[|budgets| - 1])
  }

  /** The invocation nobody interrupts. */
  function Uninterrupted(ph: Phase, fs: FileMap): FileMap
    requires ph.open.Create? || ph.open.CopyOpen?
  {
    Attempt(ph, fs, |ph.Steps()|)
  }

  /** What a number of killed attempts can leave: as long as there is no marker, only targets of
      steps that the uninterrupted run executes have changed, and none of them stands in its way;
      once there is one, everything but the marker's own text is final. */
  ghost predicate Resumable(ph: Phase, fs: FileMap, c: FileMap)
    requires ph.open.Create? || ph.open.CopyOpen?
  {
    if IsFile(ph.open.dst, c) then AgreeExcept(c, Uninterrupted(ph, fs), {ph.open.dst})
    else Overwritable(ph.Steps()[..Reach(ph.Steps(), fs)], fs, c)
  }

  /** The steps can make good whatever differs. */
  ghost predicate Overwritable(steps: seq<Step>, fs: FileMap, c: FileMap) {
    AgreeExcept(c, fs, Targets(steps)) && KindsAgree(steps, c)
  }

  lemma AgreeEverywhere(a: FileMap, b: FileMap)
    requires AgreeExcept(a, b, {})
    ensures a == b
  {
    forall p ensures (p in a <==> p in b) && (p in a ==> a[p] == b[p]) {
      assert Same(p, a, b);
    }
    assert a.Keys == b.Keys;
  }

  /** Absorption: a run over the leftovers of killed runs ends where a first run would. */
  lemma Absorbs(steps: seq<Step>, tree: Tree, fs: FileMap, c: FileMap)
    requires Sound(steps, {}, tree)
    requires Overwritable(steps[..Reach(steps, fs)], fs, c)
    ensures Reach(steps, c) == Reach(steps, fs)
    ensures All(steps[..Reach(steps, fs)], c) == All(steps[..Reach(steps, fs)], fs)
  {
    hide All, Reach, KindsAgree;
    var m := Reach(steps, fs);
    var run := steps[..m];
    SoundPrefix(steps, m, {}, tree);
    SoundTargets(run, {}, tree);
    Independent(run, c, fs, tree, Targets(run));
    assert Targets(run) - Targets(run) == {};
    AgreeEverywhere(All(run, c), All(run, fs));
    ReachStops(steps, fs);
    ReachIff(run, tree, fs);
    ReachIff(run, tree, c);
    SameSources(run, tree, c, fs);
    ReachFrom(steps, c, m);
  }

  lemma SameSources(steps: seq<Step>, tree: Tree, a: FileMap, b: FileMap)
    requires Sound(steps, {}, tree) && forall p: Path | p.tree != tree :: Same(p, a, b)
    ensures SourcesThere(steps, a) <==> SourcesThere(steps, b)
  {
    forall t | t in steps ensures HasSource(t, a) <==> HasSource(t, b) {
      var i :| 0 <= i < |steps| && steps[i] == t;
      assert Ready(steps[i], {} + Targets(steps[..i]), tree);
      assert t.CopyOpen? ==> Same(t.src, a, b);
    }
  }

  /** A first run stands in nobody's way. */
  lemma ReachedAgree(steps: seq<Step>, tree: Tree, fs: FileMap)
    requires Sound(steps, {}, tree)
    ensures Overwritable(steps[..Reach(steps, fs)], fs, fs)
  {
    var m := Reach(steps, fs);
    SoundPrefix(steps, m, {}, tree);
    ReachStops(steps, fs);
    ReachIff(steps[..m], tree, fs);
  }

  lemma AllTake(steps: seq<Step>, k: nat, fs: FileMap)
    requires 0 < k <= |steps|
    ensures All(steps[..k], fs) == Do(steps[k - 1], All(steps[..k - 1], fs))
  {
    assert steps[..k][..k - 1] == steps[..k - 1];
  }

  lemma DoMakesFile(s: Step, fs: FileMap)
    requires HasTarget(s) && !s.MkDir?
    ensures IsFile(s.dst, Do(s, fs))
  {
  }

  /** What is never written does not become a file. */
  lemma {:induction false} NeverWritten(steps: seq<Step>, fs: FileMap, p: Path)
    requires p !in Written(steps) && NoRemoval(steps) && !IsFile(p, fs)
    ensures !IsFile(p, All(steps, fs))
  {
    if steps != [] {
      var init, last := steps[..|steps| - 1], steps[|steps| - 1];
      assert last in steps && forall t: Step | t in init :: t in steps;
      NeverWritten(init, fs, p);
    }
  }

  lemma NoMarkerInBody(ph: Phase, tree: Tree, fs: FileMap, k: nat)
    requires ph.WellFormed(tree) && !IsFile(ph.open.dst, fs) && k <= |ph.body|
    ensures !IsFile(ph.open.dst, All(ph.Steps()[..k], fs))
  {
    SoundTargets(ph.Steps(), {}, tree);
    assert ph.Steps()[..k] == ph.body[..k];
    assert forall t: Step | t in ph.body[..k] :: t in ph.body && t in ph.Steps();
    NeverWritten(ph.body[..k], fs, ph.open.dst);
  }

  /** The marker appears only in the last two steps. */
  lemma MarkerLate(ph: Phase, tree: Tree, fs: FileMap, k: nat)
    requires ph.WellFormed(tree) && !IsFile(ph.open.dst, fs) && k <= |ph.Steps()|
    ensures IsFile(ph.open.dst, All(ph.Steps()[..k], fs)) <==> k > |ph.body|
  {
    var steps := ph.Steps();
    if k <= |ph.body| {
      NoMarkerInBody(ph, tree, fs, k);
    } else {
      var last := steps[k - 1];
      assert last == if k == |ph.body| + 1 then ph.open else ph.fill;
      AllTake(steps, k, fs);
      DoMakesFile(last, All(steps[..k - 1], fs));
    }
  }

  lemma PrefixTargets(steps: seq<Step>, k: nat)
    requires k <= |steps|
    ensures Targets(steps[..k]) <= Targets(steps)
  {
    assert forall s: Step | s in steps[..k] :: s in steps;
  }

  /** A killed attempt touches only what the uninterrupted one does. */
  lemma PrefixStays(steps: seq<Step>, k: nat, tree: Tree, fs: FileMap, c: FileMap)
    requires Sound(steps, {}, tree) && k <= |steps| && Overwritable(steps, fs, c)
    ensures Overwritable(steps, fs, All(steps[..k], c))
  {
    SoundTargets(steps, {}, tree);
    PrefixTargets(steps, k);
    assert forall s: Step | s in steps[..k] :: s in steps;
    forall p | p !in Targets(steps) ensures Same(p, All(steps[..k], c), fs) {
      Untouched(steps[..k], c, p);
      assert Same(p, c, fs);
    }
    PrefixKinds(steps, k, c);
  }

  /** The beginning of steps that are not in each other's way is in nobody's way. */
  lemma PrefixKinds(steps: seq<Step>, k: nat, c: FileMap)
    requires k <= |steps| && KindsAgree(steps, c) && NoRemoval(steps)
    ensures KindsAgree(steps, All(steps[..k], c))
  {
    var run, rest := steps[..k], steps[k..];
    assert steps == run + rest;
    WrittenConcat(run, rest);
    MadeConcat(run, rest);
    UnobstructedConcat(run, rest, c);
    assert forall t: Step | t in run :: t in steps;
    forall t | t in steps ensures !Mismatch(t, All(run, c)) {
      InWritten(steps, t);
      hide All, Written, Made, NoRemoval;
      MismatchLater(run, t, c);
    }
  }

  lemma InWritten(steps: seq<Step>, t: Step)
    requires t in steps
    ensures (Writes(t) ==> t.dst in Written(steps)) && (t.MkDir? ==> t.dst in Made(steps))
  {
  }

  lemma AttemptResumable(ph: Phase, tree: Tree, fs: FileMap, c: FileMap, budget: nat)
    requires ph.WellFormed(tree) && !IsFile(ph.open.dst, fs) && Resumable(ph, fs, c)
    ensures Resumable(ph, fs, Attempt(ph, c, budget))
  {
    hide Sound, Targets, All, Overwritable;
    var steps, marker := ph.Steps(), ph.open.dst;
    if !IsFile(marker, c) {
      var m := Reach(steps, fs);
      var k := Min(budget, m);
      Absorbs(steps, tree, fs, c);
      RunIsPrefix(steps, c, budget);
      MarkerLate(ph, tree, c, k);
      PrefixOf(steps, k, m);
      SoundPrefix(steps, m, {}, tree);
      PrefixStays(steps[..m], k, tree, fs, c);
      if k > |ph.body| {
        FillNeverFails(ph, fs);
        RunIsPrefix(steps, fs, |steps|);
        assert steps[..|steps|] == steps;
        LastStepOnlyFills(ph, c, k);
      }
    }
  }

  lemma PrefixOf(steps: seq<Step>, k: nat, m: nat)
    requires k <= m <= |steps|
    ensures steps[..m][..k] == steps[..k]
  {
  }

  lemma LastStepOnlyFills(ph: Phase, c: FileMap, k: nat)
    requires (ph.open.Create? && ph.fill.Append?) || (ph.open.CopyOpen? && ph.fill.CopyData?)
    requires ph.open.dst == ph.fill.dst && |ph.body| < k <= |ph.Steps()|
    ensures AgreeExcept(All(ph.Steps()[..k], c), All(ph.Steps(), c), {ph.open.dst})
  {
    var steps := ph.Steps();
    assert steps[..|steps|] == steps && steps[|steps| - 1] == ph.fill;
  }

  lemma FillNeverFails(ph: Phase, fs: FileMap)
    requires (ph.open.Create? && ph.fill.Append?) || (ph.open.CopyOpen? && ph.fill.CopyData?)
    requires ph.open.dst == ph.fill.dst
    ensures Reach(ph.Steps(), fs) != |ph.body| + 1
  {
    var steps := ph.Steps();
    assert steps == ph.body + [ph.open] + [ph.fill];
    ReachAppend(ph.body + [ph.open], ph.fill, fs);
    ReachAppend(ph.body, ph.open, fs);
    AllAppend(ph.body, ph.open, fs);
  }

  lemma {:induction false} AttemptsResumable(ph: Phase, tree: Tree, fs: FileMap, budgets: seq<nat>)
    requires ph.WellFormed(tree) && !IsFile(ph.open.dst, fs)
    ensures Resumable(ph, fs, Attempts(ph, fs, budgets))
  {
    hide Overwritable;
    if budgets == [] {
      ReachedAgree(ph.Steps(), tree, fs);
    } else {
      AttemptsResumable(ph, tree, fs, budgets[..|budgets| - 1]);
      AttemptResumable(ph, tree, fs, Attempts(ph, fs, budgets[..|budgets| - 1]), budgets[|budgets| - 1]);
    }
  }

  /** Marker safety: after any attempts killed anywhere, a marker means that everything else is as
      the uninterrupted run leaves it. */
  lemma MarkerSafety(ph: Phase, tree: Tree, fs: FileMap, budgets: seq<nat>)
    requires ph.WellFormed(tree) && !IsFile(ph.open.dst, fs)
    ensures var c := Attempts(ph, fs, budgets);
            IsFile(ph.open.dst, c) ==> AgreeExcept(c, Uninterrupted(ph, fs), {ph.open.dst})
  {
    AttemptsResumable(ph, tree, fs, budgets);
  }

  /** Restart equivalence: after any attempts killed anywhere, one more invocation leaves exactly
      the files of an uninterrupted run, if and only if no marker stands there half-written. */
  lemma RestartEquivalence(ph: Phase, tree: Tree, fs: FileMap, budgets: seq<nat>)
    requires ph.WellFormed(tree) && !IsFile(ph.open.dst, fs)
    ensures var c, marker := Attempts(ph, fs, budgets), ph.open.dst;
            Uninterrupted(ph, c) == Uninterrupted(ph, fs) <==>
            (IsFile(marker, c) ==> Same(marker, c, Uninterrupted(ph, fs)))
  {
    var c, marker, steps := Attempts(ph, fs, budgets), ph.open.dst, ph.Steps();
    AttemptsResumable(ph, tree, fs, budgets);
    if IsFile(marker, c) {
      var u := Uninterrupted(ph, fs);
      if Same(marker, c, u) {
        AgreeEverywhere(c, u);
      }
    } else {
      Absorbs(steps, tree, fs, c);
      RunIsPrefix(steps, c, |steps|);
      RunIsPrefix(steps, fs, |steps|);
    }
  }

  lemma AttemptStaysInside(ph: Phase, tree: Tree, c: FileMap, budget: nat, p: Path)
    requires ph.WellFormed(tree) && p.tree != tree
    ensures Same(p, Attempt(ph, c, budget), c)
  {
    var steps := ph.Steps();
    var k := Min(budget, Reach(steps, c));
    RunIsPrefix(steps, c, budget);
    SoundPrefix(steps, k, {}, tree);
    SoundTargets(steps[..k], {}, tree);
    Untouched(steps[..k], c, p);
  }

  /** Attempts leave every other tree alone. */
  lemma {:induction false} AttemptsStayInside(ph: Phase, tree: Tree, fs: FileMap, budgets: seq<nat>, p: Path)
    requires ph.WellFormed(tree) && p.tree != tree
    ensures Same(p, Attempts(ph, fs, budgets), fs)
  {
    if budgets != [] {
      var init := budgets[..|budgets| - 1];
      AttemptsStayInside(ph, tree, fs, init, p);
      AttemptStaysInside(ph, tree, Attempts(ph, fs, init), budgets[|budgets| - 1], p);
    }
  }

  /** The text of a complete marker. */
  function MarkerText(ph: Phase, fs: FileMap): string
    requires ph.fill.Append? || ph.fill.CopyData?
  {
    if ph.fill.Append? then ph.fill.text else TextAt(ph.fill.src, fs)
  }

  lemma EndOfPhase(ph: Phase, fs: FileMap)
    ensures All(ph.Steps(), fs) == Do(ph.fill, Do(ph.open, All(ph.body, fs)))
  {
    assert ph.Steps() == ph.body + [ph.open] + [ph.fill];
    AllAppend(ph.body, ph.open, fs);
    AllAppend(ph.body + [ph.open], ph.fill, fs);
  }

  /** What a copied marker is filled from is still as at the start. */
  lemma MarkerSource(ph: Phase, tree: Tree, fs: FileMap)
    requires ph.WellFormed(tree) && ph.fill.CopyData?
    ensures ph.fill.src.tree != tree && Same(ph.fill.src, All(ph.body, fs), fs)
  {
    hide All;
    var steps, n := ph.Steps(), |ph.body|;
    assert steps[n + 1] == ph.fill && Ready(steps[n + 1], {} + Targets(steps[..n + 1]), tree);
    SoundPrefix(steps, n, {}, tree);
    assert steps[..n] == ph.body;
    SoundTargets(ph.body, {}, tree);
    Untouched(ph.body, fs, ph.fill.src);
  }

  lemma MarkerInTree(ph: Phase, tree: Tree)
    requires ph.WellFormed(tree)
    ensures ph.open.dst.tree == tree
  {
    var steps, n := ph.Steps(), |ph.body|;
    assert steps[n] == ph.open && Ready(steps[n], {} + Targets(steps[..n]), tree);
  }

  lemma MarkerComplete(ph: Phase, tree: Tree, fs: FileMap)
    requires ph.WellFormed(tree)
    ensures IsFile(ph.open.dst, All(ph.Steps(), fs))
    ensures TextAt(ph.open.dst, All(ph.Steps(), fs)) == MarkerText(ph, fs)
  {
    EndOfPhase(ph, fs);
    MarkerInTree(ph, tree);
    if ph.fill.CopyData? {
      MarkerSource(ph, tree, fs);
    }
    hide All, Sound, Targets;
    FilledMarker(ph, All(ph.body, fs));
    assert ph.fill.CopyData? ==> TextAt(ph.fill.src, All(ph.body, fs)) == TextAt(ph.fill.src, fs);
  }

  lemma FilledMarker(ph: Phase, before: FileMap)
    requires (ph.open.Create? && ph.fill.Append?)
             || (ph.open.CopyOpen? && ph.fill.CopyData? && ph.fill.src != ph.fill.dst)
    requires ph.open.dst == ph.fill.dst
    ensures var r := Do(ph.fill, Do(ph.open, before));
            IsFile(ph.open.dst, r)
            && TextAt(ph.open.dst, r) == if ph.fill.Append? then ph.fill.text else TextAt(ph.fill.src, before)
  {
    if ph.fill.Append? {
      assert "" + ph.fill.text == ph.fill.text;
    }
  }

  /** A written marker has its text only at the end. */
  lemma FinishedByText(ph: Phase, tree: Tree, fs: FileMap, k: nat)
    requires ph.WellFormed(tree) && ph.open.Create? && ph.fill.Append? && ph.fill.text != ""
    requires !IsFile(ph.open.dst, fs) && k <= |ph.Steps()|
    requires IsFile(ph.open.dst, All(ph.Steps()[..k], fs))
    requires TextAt(ph.open.dst, All(ph.Steps()[..k], fs)) == ph.fill.text
    ensures k == |ph.Steps()|
  {
    hide All, Sound;
    MarkerLate(ph, tree, fs, k);
    OpenedMarker(ph, fs);
  }

  lemma AllAppend(steps: seq<Step>, s: Step, fs: FileMap)
    ensures All(steps + [s], fs) == Do(s, All(steps, fs))
  {
    assert (steps + [s])[..|steps|] == steps;
  }

  /** The same with a condition that can be read off the files: the marker, if it is there, has
      its text. */
  lemma RestartByText(ph: Phase, tree: Tree, fs: FileMap, budgets: seq<nat>)
    requires ph.WellFormed(tree) && !IsFile(ph.open.dst, fs)
    ensures var c := Attempts(ph, fs, budgets);
            Uninterrupted(ph, c) == Uninterrupted(ph, fs) <==>
            (IsFile(ph.open.dst, c) ==> TextAt(ph.open.dst, c) == MarkerText(ph, fs))
  {
    RestartEquivalence(ph, tree, fs, budgets);
    if IsFile(ph.open.dst, Attempts(ph, fs, budgets)) {
      MarkerMeansFinished(ph, tree, fs, budgets);
      MarkerComplete(ph, tree, fs);
    }
  }

  /** If some attempt got as far as the marker, the uninterrupted run gets through. */
  lemma {:induction false} MarkerMeansFinished(ph: Phase, tree: Tree, fs: FileMap, budgets: seq<nat>)
    requires ph.WellFormed(tree) && !IsFile(ph.open.dst, fs)
    requires IsFile(ph.open.dst, Attempts(ph, fs, budgets))
    ensures Reach(ph.Steps(), fs) == |ph.Steps()|
    ensures Uninterrupted(ph, fs) == All(ph.Steps(), fs)
  {
    hide All, Sound, Run, Targets;
    var init, steps := budgets[..|budgets| - 1], ph.Steps();
    var c := Attempts(ph, fs, init);
    if IsFile(ph.open.dst, c) {
      MarkerMeansFinished(ph, tree, fs, init);
    } else {
      AttemptsResumable(ph, tree, fs, init);
      Absorbs(steps, tree, fs, c);
      RunIsPrefix(steps, c, budgets[|budgets| - 1]);
      MarkerLate(ph, tree, c, Min(budgets[|budgets| - 1], Reach(steps, fs)));
      FillNeverFails(ph, fs);
      RunIsPrefix(steps, fs, |steps|);
      assert steps[..|steps|] == steps;
    }
  }

  /** A kill between opening and filling the marker: where the whole run gets through, the marker
      stands there empty, and a marker that is not meant to be empty is never made good. */
  lemma KilledAtMarker(ph: Phase, tree: Tree, fs: FileMap)
    requires ph.WellFormed(tree) && !IsFile(ph.open.dst, fs) && Reach(ph.Steps(), fs) == |ph.Steps()|
    requires MarkerText(ph, fs) != ""
    ensures var c := Attempts(ph, fs, [|ph.body| + 1]);
            IsFile(ph.open.dst, c) && TextAt(ph.open.dst, c) == "" && Uninterrupted(ph, c) != Uninterrupted(ph, fs)
  {
    var k, steps := |ph.body| + 1, ph.Steps();
    assert [k][..0] == [] && Attempts(ph, fs, []) == fs;
    RunIsPrefix(steps, fs, k);
    MarkerLate(ph, tree, fs, k);
    OpenedMarker(ph, fs);
    hide All, Sound, Run;
    RestartByText(ph, tree, fs, [k]);
  }

  lemma OpenedMarker(ph: Phase, fs: FileMap)
    requires ph.open.Create? || ph.open.CopyOpen?
    ensures TextAt(ph.open.dst, All(ph.Steps()[..|ph.body| + 1], fs)) == ""
  {
    var steps, k := ph.Steps(), |ph.body| + 1;
    assert steps[k - 1] == ph.open;
    AllTake(steps, k, fs);
  }
}
