/** build() of redis_cluster.sh: unpacks and makes redis and hiredis. Unlike config and deploy it
    refuses to run over its own leftovers, so it cannot simply be started again. */
module BuildPhase {
  import opened Files

  /** A file that tar or make leaves below the source directory. */
  datatype Output = Output(name: string, text: string)

  /** tar or make: what it writes, and whether it succeeds. */
  datatype Command = Command(outputs: seq<Output>, ok: bool)

  /** What build() finds and what its commands do. */
  datatype Sources = Sources(
    redisThere: bool, hiredisThere: bool,          // the package files exist
    redisVersion: string, hiredisVersion: string,
    unpackRedis: Command, unpackHiredis: Command,
    makeRedis: Command, makeHiredis: Command)

  const BUILD_SUCCESS := "BUILD_SUCCESS"
  const BUILD_TEXT := "BUILD_SUCCESS\n"

  function Root(id: string): Path { Path(Build(id), []) }

  function Marker(id: string): Path { Path(Build(id), [BUILD_SUCCESS]) }

  function RedisDir(b: Sources): string { "redis-" + b.redisVersion }

  function HiredisDir(b: Sources): string { "hiredis-" + b.hiredisVersion }

  function SourceDir(id: string, dir: string): Path { Path(Build(id), [dir]) }

  /* ---------- the commands ---------- */

  function Emit(id: string, dir: string, outputs: seq<Output>): seq<Step> {
    if outputs == [] then []
    else
      var o := outputs[|outputs| - 1];
      Emit(id, dir, outputs[..|outputs| - 1]) + Write(Path(Build(id), [dir, o.name]), o.text)
  }

  function Steps(id: string, dir: string, c: Command): seq<Step> {
    Emit(id, dir, c.outputs) + if c.ok then [] else [Halt]
  }

  function UnpackSteps(id: string, b: Sources): seq<Step> {
    [MkDir(SourceDir(id, RedisDir(b)))] + Steps(id, RedisDir(b), b.unpackRedis)
    + [MkDir(SourceDir(id, HiredisDir(b)))] + Steps(id, HiredisDir(b), b.unpackHiredis)
  }

  function MakeSteps(id: string, b: Sources): seq<Step> {
    Steps(id, RedisDir(b), b.makeRedis) + Steps(id, HiredisDir(b), b.makeHiredis)
  }

  function BuildWork(id: string, b: Sources): Phase {
    Phase(UnpackSteps(id, b) + MakeSteps(id, b), Create(Marker(id)), Append(Marker(id), BUILD_TEXT))
  }

  /** The packages are there and have not been unpacked yet. */
  predicate Clear(id: string, b: Sources, fs: FileMap) {
    b.redisThere && b.hiredisThere
    && !IsDir(SourceDir(id, RedisDir(b)), fs) && !IsDir(SourceDir(id, HiredisDir(b)), fs)
  }

  /** build() as a whole. */
  function BuildProc(id: string, b: Sources, p: Proc): Proc {
    if !p.alive then p
    else if IsFile(Marker(id), p.files) then p.(alive := false)
    else
      var q := Exec(MkDir(Root(id)), p);
      if !q.alive then q
      else if !Clear(id, b, q.files) then q.(alive := false)
      else Run(BuildWork(id, b).Steps(), q)
  }

  /* ---------- the script ---------- */

  method Perform(sh: Shell, id: string, dir: string, c: Command)
    modifies sh
    ensures sh.proc == Run(Steps(id, dir, c), old(sh.proc))
  {
    ghost var p := sh.proc;
    for k := 0 to |c.outputs|
      invariant sh.proc == Run(Emit(id, dir, c.outputs[..k]), p)
    {
      var o := c.outputs[k];
      sh.Redirect(Path(Build(id), [dir, o.name]), o.text);
      assert c.outputs[..k + 1][..k] == c.outputs[..k];
      RunConcat(Emit(id, dir, c.outputs[..k]), Write(Path(Build(id), [dir, o.name]), o.text), p);
    }
    assert c.outputs[..|c.outputs|] == c.outputs;
    if !c.ok {
      sh.Issue(Halt);
    }
    RunAppend(Emit(id, dir, c.outputs), Halt, p);
    assert Emit(id, dir, c.outputs) + [] == Emit(id, dir, c.outputs);
  }

  method Unpack(sh: Shell, id: string, b: Sources)
    modifies sh
    ensures sh.proc == Run(UnpackSteps(id, b), old(sh.proc))
  {
    hide Steps;
    ghost var p := sh.proc;
    ghost var first := [MkDir(SourceDir(id, RedisDir(b)))];
    ghost var second := first + Steps(id, RedisDir(b), b.unpackRedis);
    sh.Issue(MkDir(SourceDir(id, RedisDir(b))));
    RunOne(MkDir(SourceDir(id, RedisDir(b))), p);
    Perform(sh, id, RedisDir(b), b.unpackRedis);
    RunConcat(first, Steps(id, RedisDir(b), b.unpackRedis), p);
    sh.Issue(MkDir(SourceDir(id, HiredisDir(b))));
    RunAppend(second, MkDir(SourceDir(id, HiredisDir(b))), p);
    Perform(sh, id, HiredisDir(b), b.unpackHiredis);
    RunConcat(second + [MkDir(SourceDir(id, HiredisDir(b)))], Steps(id, HiredisDir(b), b.unpackHiredis), p);
  }

  method Compile(sh: Shell, id: string, b: Sources)
    modifies sh
    ensures sh.proc == BuildProc(id, b, old(sh.proc))
  {
    hide UnpackSteps, Steps, Run, Write, BuildWork;
    if !sh.proc.alive {
      return;
    }
    if IsFile(Marker(id), sh.proc.files) {
      sh.proc := sh.proc.(alive := false);
      return;
    }
    sh.Issue(MkDir(Root(id)));
    if !sh.proc.alive {
      return;
    }
    if !b.redisThere || !b.hiredisThere || IsDir(SourceDir(id, RedisDir(b)), sh.proc.files)
       || IsDir(SourceDir(id, HiredisDir(b)), sh.proc.files) {
      sh.proc := sh.proc.(alive := false);
      return;
    }
    ghost var q := sh.proc;
    var redis, hiredis := RedisDir(b), HiredisDir(b);
    Unpack(sh, id, b);
    Perform(sh, id, redis, b.makeRedis);
    Perform(sh, id, hiredis, b.makeHiredis);
    sh.Redirect(Marker(id), BUILD_TEXT);
    RunConcat(UnpackSteps(id, b), Steps(id, redis, b.makeRedis), q);
    RunConcat(UnpackSteps(id, b) + Steps(id, redis, b.makeRedis), Steps(id, hiredis, b.makeHiredis), q);
    RunConcat(UnpackSteps(id, b) + Steps(id, redis, b.makeRedis) + Steps(id, hiredis, b.makeHiredis),
              Write(Marker(id), BUILD_TEXT), q);
    BuildParts(id, b);
  }

  lemma BuildParts(id: string, b: Sources)
    ensures BuildWork(id, b).Steps() ==
            UnpackSteps(id, b) + Steps(id, RedisDir(b), b.makeRedis) + Steps(id, HiredisDir(b), b.makeHiredis)
            + Write(Marker(id), BUILD_TEXT)
  {
    hide UnpackSteps, Steps;
  }

  /* ---------- what the steps touch ---------- */

  /** Directories made are source directories, everything else goes below them. */
  predicate Below(id: string, t: Step) {
    t.Halt? || (t.MkDir? && t.dst.tree == Build(id) && |t.dst.rel| == 1 && t.dst.rel != [BUILD_SUCCESS])
    || ((t.Create? || t.Append?) && t.dst.tree == Build(id) && |t.dst.rel| == 2)
  }

  ghost predicate AllBelow(id: string, steps: seq<Step>) {
    Sound(steps, {}, Build(id)) && forall t: Step | t in steps :: Below(id, t)
  }

  lemma AllBelowConcat(id: string, a: seq<Step>, b: seq<Step>)
    requires AllBelow(id, a) && AllBelow(id, b)
    ensures AllBelow(id, a + b)
  {
    SoundMonotone(b, {}, {} + Targets(a), Build(id));
    SoundConcat(a, b, {}, Build(id));
  }

  lemma {:induction false} EmitBelow(id: string, dir: string, outputs: seq<Output>)
    ensures AllBelow(id, Emit(id, dir, outputs))
  {
    if outputs != [] {
      var o := outputs[|outputs| - 1];
      var w := Write(Path(Build(id), [dir, o.name]), o.text);
      EmitBelow(id, dir, outputs[..|outputs| - 1]);
      assert w[..0] == [] && w[..1] == [w[0]] && w[0] in w[..1];
      assert w[0].dst in Targets(w[..1]);
      AllBelowConcat(id, Emit(id, dir, outputs[..|outputs| - 1]), w);
    }
  }

  lemma StepsBelow(id: string, dir: string, c: Command)
    ensures AllBelow(id, Steps(id, dir, c))
  {
    EmitBelow(id, dir, c.outputs);
    AllBelowConcat(id, Emit(id, dir, c.outputs), if c.ok then [] else [Halt]);
  }

  lemma NamesDiffer(b: Sources)
    ensures RedisDir(b) != BUILD_SUCCESS && HiredisDir(b) != BUILD_SUCCESS
  {
    assert RedisDir(b)[0] == 'r' && HiredisDir(b)[0] == 'h' && BUILD_SUCCESS[0] == 'B';
  }

  lemma UnpackBelow(id: string, b: Sources)
    ensures AllBelow(id, UnpackSteps(id, b))
  {
    hide Steps;
    var redis, hiredis := RedisDir(b), HiredisDir(b);
    NamesDiffer(b);
    StepsBelow(id, redis, b.unpackRedis);
    StepsBelow(id, hiredis, b.unpackHiredis);
    var first := [MkDir(SourceDir(id, redis))];
    AllBelowConcat(id, first, Steps(id, redis, b.unpackRedis));
    AllBelowConcat(id, first + Steps(id, redis, b.unpackRedis), [MkDir(SourceDir(id, hiredis))]);
    AllBelowConcat(id, first + Steps(id, redis, b.unpackRedis) + [MkDir(SourceDir(id, hiredis))],
                   Steps(id, hiredis, b.unpackHiredis));
  }

  lemma BodyBelow(id: string, b: Sources)
    ensures AllBelow(id, BuildWork(id, b).body)
  {
    hide UnpackSteps, Steps;
    UnpackBelow(id, b);
    StepsBelow(id, RedisDir(b), b.makeRedis);
    StepsBelow(id, HiredisDir(b), b.makeHiredis);
    AllBelowConcat(id, Steps(id, RedisDir(b), b.makeRedis), Steps(id, HiredisDir(b), b.makeHiredis));
    AllBelowConcat(id, UnpackSteps(id, b), MakeSteps(id, b));
  }

  lemma BuildWellFormed(id: string, b: Sources)
    ensures BuildWork(id, b).WellFormed(Build(id))
  {
    hide UnpackSteps, MakeSteps;
    BodyBelow(id, b);
    PhaseWellFormed(BuildWork(id, b), Build(id));
  }

  /** A directory stays one if nothing writes over it. */
  lemma {:induction false} DirStays(steps: seq<Step>, p: Path, fs: FileMap)
    requires IsDir(p, fs)
    requires forall t: Step | t in steps :: !t.RemoveTree? && (HasTarget(t) && t.dst == p ==> t.MkDir?)
    ensures IsDir(p, All(steps, fs))
  {
    if steps != [] {
      var init, last := steps[..|steps| - 1], steps[|steps| - 1];
      assert last in steps && forall t: Step | t in init :: t in steps;
      DirStays(init, p, fs);
    }
  }

  lemma PrefixDirs(id: string, b: Sources, k: nat)
    requires k <= |BuildWork(id, b).Steps()|
    ensures forall t: Step | t in BuildWork(id, b).Steps()[..k] ::
              !t.RemoveTree?
              && (HasTarget(t) && (t.dst == Root(id) || t.dst == SourceDir(id, RedisDir(b))) ==> t.MkDir?)
  {
    hide UnpackSteps, MakeSteps;
    BodyBelow(id, b);
    NamesDiffer(b);
    var ph := BuildWork(id, b);
    forall t: Step | t in ph.Steps()[..k]
      ensures !t.RemoveTree?
              && (HasTarget(t) && (t.dst == Root(id) || t.dst == SourceDir(id, RedisDir(b))) ==> t.MkDir?)
    {
      assert t in ph.Steps();
      assert t in ph.body ==> Below(id, t);
    }
  }

  /** Once it has begun to unpack, a build leaves its two directories behind. */
  lemma LeavesDirs(id: string, b: Sources, fs: FileMap, k: nat)
    requires IsDir(Root(id), fs) && 1 <= k <= |BuildWork(id, b).Steps()|
    ensures var c := All(BuildWork(id, b).Steps()[..k], fs);
            IsDir(Root(id), c) && IsDir(SourceDir(id, RedisDir(b)), c)
  {
    hide Steps, MakeSteps;
    var steps := BuildWork(id, b).Steps();
    var first := MkDir(SourceDir(id, RedisDir(b)));
    assert steps[0] == first;
    assert steps[..k] == [first] + steps[..k][1..];
    AllConcat([first], steps[..k][1..], fs);
    AllAppend([], first, fs);
    assert [] + [first] == [first];
    PrefixDirs(id, b, k);
    assert forall t: Step | t in steps[..k][1..] :: t in steps[..k];
    DirStays(steps[..k][1..], Root(id), All([first], fs));
    DirStays(steps[..k][1..], SourceDir(id, RedisDir(b)), All([first], fs));
  }

  /* ---------- starting again ---------- */

  /** The files after a series of invocations of build(), each killed after so many steps. */
  function Invocations(id: string, b: Sources, fs: FileMap, budgets: seq<nat>): FileMap {
    if budgets == [] then fs
    else
      var before := Invocations(id, b, fs, budgets[..|budgets| - 1]);
      BuildProc(id, b, Proc(before, true, budgets[|budgets| - 1])).files
  }

  function Completed(id: string, b: Sources, fs: FileMap): FileMap {
    BuildProc(id, b, Proc(fs, true, |BuildWork(id, b).Steps()| + 1)).files
  }

  /** What killed builds can leave: nothing, the empty directory, or the beginning of one run. */
  ghost predicate Leftover(id: string, b: Sources, fs: FileMap, c: FileMap) {
    || c == fs
    || (!IsFile(Root(id), fs) && c == fs[Root(id) := Dir])
    || (!IsFile(Root(id), fs) && Clear(id, b, fs) && exists k :: Began(id, b, fs, k, c))
  }

  ghost predicate Began(id: string, b: Sources, fs: FileMap, k: nat, c: FileMap) {
    1 <= k <= |BuildWork(id, b).Steps()| && c == All(BuildWork(id, b).Steps()[..k], fs[Root(id) := Dir])
  }

  lemma ClearRooted(id: string, b: Sources, fs: FileMap)
    ensures Clear(id, b, fs[Root(id) := Dir]) <==> Clear(id, b, fs)
    ensures IsFile(Marker(id), fs[Root(id) := Dir]) <==> IsFile(Marker(id), fs)
  {
  }

  /** Over the beginning of an earlier run, build() does nothing. */
  lemma BeganIsFinal(id: string, b: Sources, fs: FileMap, k: nat, c: FileMap, budget: nat)
    requires Began(id, b, fs, k, c)
    ensures BuildProc(id, b, Proc(c, true, budget)).files == c
    ensures IsDir(SourceDir(id, RedisDir(b)), c)
  {
    hide BuildWork;
    LeavesDirs(id, b, fs[Root(id) := Dir], k);
    assert c[Root(id) := Dir] == c;
  }

  /** A file in place of the build directory. */
  lemma NoRoot(id: string, b: Sources, fs: FileMap, budget: nat)
    requires IsFile(Root(id), fs)
    ensures BuildProc(id, b, Proc(fs, true, budget)).files == fs
  {
    hide BuildWork, Clear;
  }

  /** build() is its guards, and then its steps. */
  lemma BuildIs(id: string, b: Sources, p: Proc)
    requires p.alive
    ensures BuildProc(id, b, p) ==
            if IsFile(Marker(id), p.files) || p.budget == 0 || IsFile(Root(id), p.files) then p.(alive := false)
            else if !Clear(id, b, p.files) then Proc(p.files[Root(id) := Dir], false, p.budget - 1)
            else Run(BuildWork(id, b).Steps(), Proc(p.files[Root(id) := Dir], true, p.budget - 1))
  {
    ClearRooted(id, b, p.files);
    hide BuildWork, Clear, Run;
  }

  lemma FreshBuild(id: string, b: Sources, fs: FileMap, c: FileMap, budget: nat)
    requires !IsFile(Marker(id), fs) && !IsFile(Root(id), fs) && (c == fs || c == fs[Root(id) := Dir])
    ensures Leftover(id, b, fs, BuildProc(id, b, Proc(c, true, budget)).files)
    ensures budget > 0 && !Clear(id, b, fs) ==> BuildProc(id, b, Proc(c, true, budget)).files == fs[Root(id) := Dir]
    ensures budget > 0 && Clear(id, b, fs) ==>
              BuildProc(id, b, Proc(c, true, budget)).files
              == Run(BuildWork(id, b).Steps(), Proc(fs[Root(id) := Dir], true, budget - 1)).files
  {
    hide BuildWork, BuildProc, Clear, Began, Run;
    var rooted := fs[Root(id) := Dir];
    ClearRooted(id, b, fs);
    BuildIs(id, b, Proc(c, true, budget));
    assert c[Root(id) := Dir] == rooted && !IsFile(Root(id), c);
    if budget > 0 && Clear(id, b, fs) {
      FreshSteps(id, b, fs, budget - 1);
    }
  }

  lemma FreshSteps(id: string, b: Sources, fs: FileMap, budget: nat)
    ensures var c := Run(BuildWork(id, b).Steps(), Proc(fs[Root(id) := Dir], true, budget)).files;
            c == fs[Root(id) := Dir] || exists k :: Began(id, b, fs, k, c)
  {
    hide BuildWork, Run;
    var steps, rooted := BuildWork(id, b).Steps(), fs[Root(id) := Dir];
    RunIsPrefix(steps, rooted, budget);
    var k := Min(budget, Reach(steps, rooted));
    if k == 0 {
      assert steps[..0] == [];
    } else {
      assert Began(id, b, fs, k, All(steps[..k], rooted));
    }
  }

  lemma {:induction false} InvocationsLeave(id: string, b: Sources, fs: FileMap, budgets: seq<nat>)
    requires !IsFile(Marker(id), fs)
    ensures Leftover(id, b, fs, Invocations(id, b, fs, budgets))
  {
    hide Began, BuildProc, Clear;
    if budgets != [] {
      var init, budget := budgets[..|budgets| - 1], budgets[|budgets| - 1];
      InvocationsLeave(id, b, fs, init);
      var c := Invocations(id, b, fs, init);
      if IsFile(Root(id), fs) {
        NoRoot(id, b, fs, budget);
      } else if c == fs || c == fs[Root(id) := Dir] {
        FreshBuild(id, b, fs, c, budget);
      } else {
        var k :| Began(id, b, fs, k, c);
        BeganIsFinal(id, b, fs, k, c, budget);
      }
    }
  }

  predicate AllSucceed(b: Sources) {
    b.unpackRedis.ok && b.unpackHiredis.ok && b.makeRedis.ok && b.makeHiredis.ok
  }

  lemma {:induction false} EmitPlain(id: string, dir: string, outputs: seq<Output>)
    ensures forall t: Step | t in Emit(id, dir, outputs) :: !t.Halt? && !t.CopyOpen?
  {
    if outputs != [] {
      EmitPlain(id, dir, outputs[..|outputs| - 1]);
    }
  }

  lemma StepsHalt(id: string, dir: string, c: Command)
    ensures Halt in Steps(id, dir, c) <==> !c.ok
    ensures forall t: Step | t in Steps(id, dir, c) :: !t.CopyOpen?
  {
    EmitPlain(id, dir, c.outputs);
  }

  /** Nothing stands where build() makes a directory or writes a file. */
  predicate HasRoom(id: string, b: Sources, fs: FileMap) {
    !IsFile(Root(id), fs) && Unobstructed(BuildWork(id, b).Steps(), fs)
  }

  lemma NeverCopies(id: string, b: Sources)
    ensures forall t: Step | t in BuildWork(id, b).Steps() :: !t.CopyOpen?
    ensures Halt in BuildWork(id, b).Steps() <==> !AllSucceed(b)
  {
    hide Steps;
    StepsHalt(id, RedisDir(b), b.unpackRedis);
    StepsHalt(id, HiredisDir(b), b.unpackHiredis);
    StepsHalt(id, RedisDir(b), b.makeRedis);
    StepsHalt(id, HiredisDir(b), b.makeHiredis);
  }

  /** build() does not get into its own way, and its own directory is not among what it unpacks. */
  lemma OwnWay(id: string, b: Sources)
    ensures var steps := BuildWork(id, b).Steps();
            Made(steps) !! Written(steps) && Root(id) !in Targets(steps)
  {
    hide UnpackSteps, MakeSteps;
    BodyBelow(id, b);
    var ph := BuildWork(id, b);
    assert forall t: Step | t in ph.Steps() :: t in ph.body || t == ph.open || t == ph.fill;
    assert forall t: Step | t in ph.body :: Below(id, t);
  }

  /** The steps of build() get through exactly when tar and make succeed and nothing stands in their
      way. */
  lemma BuildReach(id: string, b: Sources, fs: FileMap)
    requires !IsFile(Root(id), fs)
    ensures Reach(BuildWork(id, b).Steps(), fs[Root(id) := Dir]) == |BuildWork(id, b).Steps()|
            <==> AllSucceed(b) && HasRoom(id, b, fs)
  {
    var steps, rooted := BuildWork(id, b).Steps(), fs[Root(id) := Dir];
    NeverCopies(id, b);
    OwnWay(id, b);
    BuildWellFormed(id, b);
    hide BuildWork, AllSucceed, Sound;
    assert forall t: Step | t in steps && HasTarget(t) :: t.dst in Targets(steps) && Same(t.dst, rooted, fs);
    ReachIff(steps, Build(id), rooted);
    UnobstructedInside(steps, rooted, fs);
    assert SourcesThere(steps, rooted);
  }

  lemma BeganComplete(id: string, b: Sources, fs: FileMap, k: nat, c: FileMap)
    requires Began(id, b, fs, k, c) && !IsFile(Marker(id), fs)
    ensures c == All(BuildWork(id, b).Steps(), fs[Root(id) := Dir]) <==>
            IsFile(Marker(id), c) && TextAt(Marker(id), c) == BUILD_TEXT
  {
    var ph, rooted := BuildWork(id, b), fs[Root(id) := Dir];
    BuildShape(id, b);
    ClearRooted(id, b, fs);
    hide BuildWork, Clear, All, Sound;
    BuildWellFormed(id, b);
    MarkerComplete(ph, Build(id), rooted);
    if IsFile(Marker(id), c) && TextAt(Marker(id), c) == BUILD_TEXT {
      FinishedByText(ph, Build(id), rooted, k);
    }
    assert ph.Steps()[..|ph.Steps()|] == ph.Steps();
  }

  /** Starting a killed build again: the next uninterrupted invocation leaves what it would have left
      at once, if and only if build() would have been refused anyway, or no killed run got as far as
      unpacking redis, or one of them had left all that can be had: for a build that gets through, the
      complete marker, and for one that does not, what it leaves when tar or make fails. In between,
      the refusal to unpack over an existing directory makes the leftovers final. */
  lemma BuildRestarts(id: string, b: Sources, fs: FileMap, budgets: seq<nat>)
    requires !IsFile(Marker(id), fs)
    ensures var c := Invocations(id, b, fs, budgets);
            Completed(id, b, c) == Completed(id, b, fs) <==>
            || !Clear(id, b, fs)
            || !IsDir(SourceDir(id, RedisDir(b)), c)
            || (if AllSucceed(b) && HasRoom(id, b, fs)
                then IsFile(Marker(id), c) && TextAt(Marker(id), c) == BUILD_TEXT
                else c == Completed(id, b, fs))
  {
    hide BuildWork, BuildProc, HasRoom;
    var c, steps, rooted := Invocations(id, b, fs, budgets), BuildWork(id, b).Steps(), fs[Root(id) := Dir];
    InvocationsLeave(id, b, fs, budgets);
    if IsFile(Root(id), fs) {
      NoRoot(id, b, fs, |steps| + 1);
    } else {
      FreshBuild(id, b, fs, fs, |steps| + 1);
      BuildReach(id, b, fs);
      RunIsPrefix(steps, rooted, |steps|);
      assert steps[..|steps|] == steps;
      if c == fs || c == rooted {
        FreshBuild(id, b, fs, c, |steps| + 1);
      } else {
        var k :| Began(id, b, fs, k, c);
        BeganIsFinal(id, b, fs, k, c, |steps| + 1);
        BeganComplete(id, b, fs, k, c);
      }
    }
  }

  lemma BuildShape(id: string, b: Sources)
    ensures var ph := BuildWork(id, b);
            && ph.open == Create(Marker(id)) && ph.fill == Append(Marker(id), BUILD_TEXT)
            && |ph.body| >= 2 && |ph.Steps()| == |ph.body| + 2
  {
    hide Steps;
  }

  lemma FirstStep(id: string, b: Sources, fs: FileMap)
    requires !IsFile(Marker(id), fs) && !IsFile(Root(id), fs) && Clear(id, b, fs)
    ensures BuildProc(id, b, Proc(fs, true, 2)) == Run(BuildWork(id, b).Steps(), Proc(fs[Root(id) := Dir], true, 1))
  {
    hide BuildProc, BuildWork, Clear, Run;
    BuildIs(id, b, Proc(fs, true, 2));
  }

  /** Killed after two commands, a build has made its directory and that of redis. */
  lemma JustBegun(id: string, b: Sources, fs: FileMap)
    requires AllSucceed(b) && HasRoom(id, b, fs) && !IsFile(Marker(id), fs) && Clear(id, b, fs)
    ensures var r := BuildProc(id, b, Proc(fs, true, 2));
            !r.alive && Began(id, b, fs, 1, r.files) && !IsFile(Marker(id), r.files)
  {
    var ph, rooted := BuildWork(id, b), fs[Root(id) := Dir];
    assert !IsFile(Root(id), fs);
    BuildShape(id, b);
    ClearRooted(id, b, fs);
    FirstStep(id, b, fs);
    hide *;
    BuildReach(id, b, fs);
    RunIsPrefix(ph.Steps(), rooted, 1);
    BuildWellFormed(id, b);
    MarkerLate(ph, Build(id), rooted, 1);
    OneOf(ph.Steps());
    BeganAt(id, b, fs, 1);
  }

  lemma OneOf(steps: seq<Step>)
    ensures |steps| > 1 ==> Min(1, |steps|) == 1
  {
  }

  lemma BeganAt(id: string, b: Sources, fs: FileMap, k: nat)
    requires 1 <= k <= |BuildWork(id, b).Steps()|
    ensures Began(id, b, fs, k, All(BuildWork(id, b).Steps()[..k], fs[Root(id) := Dir]))
  {
  }

  /** A build killed right after it has begun to unpack cannot be resumed. */
  lemma KilledWhileUnpacking(id: string, b: Sources, fs: FileMap)
    requires AllSucceed(b) && HasRoom(id, b, fs) && !IsFile(Marker(id), fs) && Clear(id, b, fs)
    ensures Completed(id, b, Invocations(id, b, fs, [2])) != Completed(id, b, fs)
  {
    OneInvocation(id, b, fs, 2);
    JustBegun(id, b, fs);
    assert AllSucceed(b) && HasRoom(id, b, fs);
    hide *;
    var c := Invocations(id, b, fs, [2]);
    BeganIsFinal(id, b, fs, 1, c, 2);
    BuildRestarts(id, b, fs, [2]);
  }

  lemma OneInvocation(id: string, b: Sources, fs: FileMap, budget: nat)
    ensures Invocations(id, b, fs, [budget]) == BuildProc(id, b, Proc(fs, true, budget)).files
  {
    hide BuildProc;
    assert [budget][..0] == [];
    assert Invocations(id, b, fs, []) == fs;
  }

  /* ---------- starting over ---------- */

  lemma BuildStaysInside(id: string, b: Sources, p: Proc, q: Path)
    requires q.tree != Build(id)
    ensures Same(q, BuildProc(id, b, p).files, p.files)
  {
    hide BuildWork, Clear, Sound, Targets, All;
    var start := Exec(MkDir(Root(id)), p);
    if start.alive {
      var ph := BuildWork(id, b);
      BuildWellFormed(id, b);
      RunIsPrefix(ph.Steps(), start.files, start.budget);
      var k := Min(start.budget, Reach(ph.Steps(), start.files));
      SoundPrefix(ph.Steps(), k, {}, Build(id));
      SoundTargets(ph.Steps()[..k], {}, Build(id));
      Untouched(ph.Steps()[..k], start.files, q);
    }
  }

  lemma {:induction false} InvocationsStayInside(id: string, b: Sources, fs: FileMap, budgets: seq<nat>, q: Path)
    requires q.tree != Build(id)
    ensures Same(q, Invocations(id, b, fs, budgets), fs)
  {
    hide BuildProc;
    if budgets != [] {
      var init := budgets[..|budgets| - 1];
      InvocationsStayInside(id, b, fs, init, q);
      BuildStaysInside(id, b, Proc(Invocations(id, b, fs, init), true, budgets[|budgets| - 1]), q);
    }
  }

  /** The way out is clean: whatever killed builds have left, once the build directory is removed
      the next build leaves exactly what the first would have. */
  lemma CleanRecovers(id: string, b: Sources, fs: FileMap, budgets: seq<nat>)
    requires forall p | p in fs :: p.tree != Build(id)
    ensures Completed(id, b, Do(RemoveTree(Build(id)), Invocations(id, b, fs, budgets))) == Completed(id, b, fs)
  {
    var r := Do(RemoveTree(Build(id)), Invocations(id, b, fs, budgets));
    forall q: Path ensures Same(q, r, fs) {
      if q.tree != Build(id) {
        InvocationsStayInside(id, b, fs, budgets, q);
      }
    }
    AgreeEverywhere(r, fs);
  }
}
