/** "redis_cluster.sh ID ALL": build, config and deploy in one process, from an empty machine to a
    deployed cluster, and what happens when it is killed and started again. */
module WholeRun {
  import opened Actions
  import opened Agreement
  import opened BuildPhase
  import opened Cluster
  import opened ConfigPhase
  import opened Delivery
  import opened DeployPhase
  import opened Files
  import opened Names
  import opened Render
  import opened Text
  import opened Wrappers
  import Ini

  predicate WantsAll(inv: Invocation) {
    inv.Valid() && var f := inv.Actions(); f.build && f.config && f.deploy && !f.clean
  }

  /** The word ALL asks for all three phases, unless clean is there, too. */
  lemma AllMeansAll(inv: Invocation)
    requires inv.Valid() && "ALL" in Tokens(inv.argv[1..])
    ensures WantsAll(inv) <==> "clean" !in Tokens(inv.argv[1..])
  {
  }

  /** build() finds its packages, nothing built and nothing in its way, and tar and make succeed. */
  predicate BuildReady(id: string, b: Sources, fs: FileMap) {
    !IsFile(BuildPhase.Marker(id), fs) && Clear(id, b, fs) && AllSucceed(b) && HasRoom(id, b, fs)
  }

  /** config() has not committed yet, every command of it can succeed, no two names clash, and nothing
      stands in its way. */
  predicate ConfigReady(s: Settings, fs: FileMap) {
    && !IsFile(InRoot(s, MARKER), fs)
    && Configurable(s) && NodesNamed(s) && Unobstructed(ConfigWork(s).Steps(), fs)
  }

  /** config() brings the password file to where deploy() looks for it, or it is there already. */
  predicate AuthBrought(s: Settings, fs: FileMap) {
    if Nodes(s) == [] then IsFile(InRoot(s, AUTH_PASS), fs) else AUTH_PASS !in Nodes(s)
  }

  /** deploy() has not committed yet, make install succeeds, the data directory is not called like a
      copied file, and nothing stands in the way. */
  predicate DeployReady(s: Settings, m: Machine, installs: seq<Artifact>, fs: FileMap) {
    && !IsFile(InHome(s, ConfigPhase.ALL_NODES), fs) && MakeFails !in installs
    && HomeNamed(s, m) && Unobstructed(DeployWork(s, m, installs).Steps(), fs)
  }

  /** Everything all three phases need is there before the first. */
  predicate FromScratch(inv: Invocation, fs: FileMap)
    requires inv.argv != []
  {
    var s := inv.Given();
    && BuildReady(s.id, inv.sources, fs)
    && ConfigReady(s, fs) && AuthBrought(s, fs)
    && DeployReady(s, inv.machine, inv.installs, fs)
  }

  /* ---------- the stages ---------- */

  function Built(inv: Invocation, fs: FileMap): FileMap
    requires inv.argv != []
  {
    All(BuildWork(inv.argv[0], inv.sources).Steps(), fs[BuildPhase.Root(inv.argv[0]) := Dir])
  }

  function Configured(inv: Invocation, fs: FileMap): FileMap
    requires inv.argv != []
  {
    All(ConfigWork(inv.Given()).Steps(), Built(inv, fs))
  }

  function Deployed(inv: Invocation, fs: FileMap): FileMap
    requires inv.argv != []
  {
    All(DeployWork(inv.Given(), inv.machine, inv.installs).Steps(), Configured(inv, fs))
  }

  /** How many steps the whole takes. */
  function Work(inv: Invocation): nat
    requires inv.argv != []
  {
    1 + |BuildWork(inv.argv[0], inv.sources).Steps()| + |ConfigWork(inv.Given()).Steps()|
    + |DeployWork(inv.Given(), inv.machine, inv.installs).Steps()|
  }

  lemma RunToEnd(steps: seq<Step>, p: Proc)
    requires p.alive
    ensures Run(steps, p).alive <==> p.budget >= |steps| && Reach(steps, p.files) == |steps|
    ensures Run(steps, p).alive ==> Run(steps, p) == Proc(All(steps, p.files), true, p.budget - |steps|)
  {
    RunIsPrefix(steps, p.files, p.budget);
    assert steps[..|steps|] == steps;
  }

  lemma BuildLeaves(id: string, b: Sources, fs: FileMap)
    ensures var r := All(BuildWork(id, b).Steps(), fs[BuildPhase.Root(id) := Dir]);
            IsFile(BuildPhase.Marker(id), r) && IsDir(SourceDir(id, RedisDir(b)), r) && IsDir(BuildPhase.Root(id), r)
  {
    var rooted := fs[BuildPhase.Root(id) := Dir];
    BuildShape(id, b);
    assert IsDir(BuildPhase.Root(id), rooted);
    hide *;
    var ph := BuildWork(id, b);
    BuildWellFormed(id, b);
    MarkerComplete(ph, Build(id), rooted);
    WholePrefix(ph.Steps());
    LeavesDirs(id, b, rooted, |ph.Steps()|);
  }

  lemma BuildStage(id: string, b: Sources, p: Proc)
    requires p.alive
    ensures var r := BuildProc(id, b, p);
            var n := |BuildWork(id, b).Steps()| + 1;
            && (r.alive <==> BuildReady(id, b, p.files) && p.budget >= n)
            && (r.alive ==>
                r == Proc(All(BuildWork(id, b).Steps(), p.files[BuildPhase.Root(id) := Dir]), true, p.budget - n))
  {
    assert HasRoom(id, b, p.files) ==> !IsFile(BuildPhase.Root(id), p.files);
    hide BuildWork, BuildProc, Clear, All, Reach, Run, AllSucceed, HasRoom;
    var root := BuildPhase.Root(id);
    BuildIs(id, b, p);
    if p.budget > 0 && !IsFile(root, p.files) {
      BuildReach(id, b, p.files);
      RunToEnd(BuildWork(id, b).Steps(), Proc(p.files[root := Dir], true, p.budget - 1));
    }
  }

  lemma ConfigStage(s: Settings, p: Proc)
    requires p.alive
    ensures var r := ConfigProc(s, p);
            var n := |ConfigWork(s).Steps()|;
            && (r.alive <==> ConfigReady(s, p.files) && p.budget >= n)
            && (r.alive ==> r == Proc(All(ConfigWork(s).Steps(), p.files), true, p.budget - n))
  {
    hide ConfigWork, Configurable, NodesNamed, Unobstructed, Reach, All, Run;
    RunToEnd(ConfigWork(s).Steps(), p);
    ConfigReaches(s, p.files);
  }

  /** What a completed config() leaves for deploy(). */
  lemma ConfigLeaves(s: Settings, p: Proc)
    requires p.alive && ConfigProc(s, p).alive
    ensures var r := ConfigProc(s, p);
            && IsFile(InRoot(s, MARKER), r.files)
            && (IsFile(InRoot(s, AUTH_PASS), r.files) <==> AuthBrought(s, p.files))
            && (IsFile(InRoot(s, AUTH_PASS), r.files) ==> Fulfils(r.files, ConfigFiles(s)))
  {
    ConfigShape(s, p.files);
    hide *;
    ConfigEnds(s, p);
    ConfigWellFormed(s);
    MarkerComplete(ConfigWork(s), Config(s.id), p.files);
    ConfigDelivers(s, p);
    AuthKept(s, p.files);
  }

  lemma AuthKept(s: Settings, fs: FileMap)
    requires KindsAgree(ConfigWork(s).Steps(), fs)
    ensures IsFile(InRoot(s, AUTH_PASS), All(ConfigWork(s).Steps(), fs)) <==> AuthBrought(s, fs)
    ensures AUTH_PASS in Nodes(s) ==> !IsFile(InRoot(s, AUTH_PASS), All(ConfigWork(s).Steps(), fs))
  {
    hide ConfigWork, KindsAgree, Nodes, All, Sound, Written, AuthName;
    var steps := ConfigWork(s).Steps();
    ConfigWellFormed(s);
    SoundTargets(steps, {}, Config(s.id));
    KindAfter(steps, fs, InRoot(s, AUTH_PASS));
    AuthWritten(s);
    if AUTH_PASS in Nodes(s) {
      AuthDirectory(s, fs);
    }
  }

  /** Over the files of a completed config(), or where it has not brought the password file. */
  lemma DeployStage(s: Settings, m: Machine, installs: seq<Artifact>, p: Proc)
    requires p.alive && (IsFile(InRoot(s, AUTH_PASS), p.files) ==> Fulfils(p.files, ConfigFiles(s)))
    ensures var r := DeployProc(s, m, installs, p);
            var n := |DeployWork(s, m, installs).Steps()|;
            && (r.alive <==>
                && IsFile(BuildMarker(s), p.files) && IsFile(InRoot(s, MARKER), p.files)
                && IsFile(InRoot(s, AUTH_PASS), p.files) && DeployReady(s, m, installs, p.files) && p.budget >= n)
            && (r.alive ==> r == Proc(All(DeployWork(s, m, installs).Steps(), p.files), true, p.budget - n))
  {
    hide DeployWork, ConfigFiles, HomeNamed, Unobstructed, All, Reach, Run;
    RunToEnd(DeployWork(s, m, installs).Steps(), p);
    if IsFile(InRoot(s, AUTH_PASS), p.files) {
      if p.budget >= |DeployWork(s, m, installs).Steps()| {
        DeployCompletes(s, m, installs, p);
      }
    } else if DeployProc(s, m, installs, p).alive {
      DeployEnds(s, m, installs, p);
    }
  }

  /* ---------- no phase is in another's way ---------- */

  lemma ReadyInConfig(s: Settings, a: FileMap, b: FileMap)
    requires forall p: Path | p.tree == Config(s.id) :: Same(p, a, b)
    ensures ConfigReady(s, a) <==> ConfigReady(s, b)
    ensures AuthBrought(s, a) <==> AuthBrought(s, b)
  {
    hide ConfigWork, Configurable, NodesNamed, Nodes, Sound, Unobstructed;
    var steps := ConfigWork(s).Steps();
    ConfigWellFormed(s);
    SoundInside(steps, {}, Config(s.id));
    UnobstructedInside(steps, a, b);
    assert Same(InRoot(s, MARKER), a, b) && Same(InRoot(s, AUTH_PASS), a, b);
  }

  lemma ReadyInHome(s: Settings, m: Machine, installs: seq<Artifact>, a: FileMap, b: FileMap)
    requires forall p: Path | p.tree == HomeTree(s) :: Same(p, a, b)
    ensures DeployReady(s, m, installs, a) <==> DeployReady(s, m, installs, b)
  {
    hide DeployWork, HomeNamed, Sound, Unobstructed;
    var steps := DeployWork(s, m, installs).Steps();
    DeployWellFormed(s, m, installs);
    SoundInside(steps, {}, HomeTree(s));
    UnobstructedInside(steps, a, b);
    assert Same(InHome(s, ConfigPhase.ALL_NODES), a, b);
  }

  /** build and config, one after the other. */
  function UpToConfig(inv: Invocation, fs: FileMap): Proc
    requires inv.argv != []
  {
    ConfigProc(inv.Given(), BuildProc(inv.argv[0], inv.sources, Proc(fs, true, inv.budget)))
  }

  function WorkToConfig(inv: Invocation): nat
    requires inv.argv != []
  {
    1 + |BuildWork(inv.argv[0], inv.sources).Steps()| + |ConfigWork(inv.Given()).Steps()|
  }

  lemma ConfigAfterBuild(s: Settings, b: Sources, p: Proc)
    requires p.alive
    ensures var r := ConfigProc(s, BuildProc(s.id, b, p));
            var built := All(BuildWork(s.id, b).Steps(), p.files[BuildPhase.Root(s.id) := Dir]);
            var n := 1 + |BuildWork(s.id, b).Steps()| + |ConfigWork(s).Steps()|;
            && (r.alive <==> BuildReady(s.id, b, p.files) && ConfigReady(s, p.files) && p.budget >= n)
            && (r.alive ==> r == Proc(All(ConfigWork(s).Steps(), built), true, p.budget - n))
  {
    hide *;
    var built := BuildProc(s.id, b, p);
    BuildStage(s.id, b, p);
    DeadConfig(s, built);
    if built.alive {
      BuildSparesConfig(s, b, p);
      ReadyInConfig(s, built.files, p.files);
      ConfigStage(s, built);
    }
  }

  lemma BuildSparesConfig(s: Settings, b: Sources, p: Proc)
    ensures forall q: Path | q.tree == Config(s.id) :: Same(q, BuildProc(s.id, b, p).files, p.files)
  {
    hide BuildProc;
    forall q: Path | q.tree == Config(s.id) ensures Same(q, BuildProc(s.id, b, p).files, p.files) {
      BuildStaysInside(s.id, b, p, q);
    }
  }

  lemma SameTwice(q: Path, a: FileMap, b: FileMap, c: FileMap)
    requires Same(q, a, b) && Same(q, b, c)
    ensures Same(q, a, c)
  {
  }

  lemma SparesHome(s: Settings, b: Sources, p: Proc)
    ensures forall q: Path | q.tree == HomeTree(s) ::
              Same(q, ConfigProc(s, BuildProc(s.id, b, p)).files, p.files)
  {
    hide BuildProc, ConfigProc, Same;
    var built := BuildProc(s.id, b, p);
    forall q: Path | q.tree == HomeTree(s) ensures Same(q, ConfigProc(s, built).files, p.files) {
      BuildStaysInside(s.id, b, p, q);
      ConfigStaysInside(s, built, q);
      SameTwice(q, ConfigProc(s, built).files, built.files, p.files);
    }
  }

  lemma ConfigCompletesAfterBuild(inv: Invocation, fs: FileMap)
    requires inv.argv != []
    ensures var s, r := inv.Given(), UpToConfig(inv, fs);
            && (r.alive <==>
                BuildReady(s.id, inv.sources, fs) && ConfigReady(s, fs) && inv.budget >= WorkToConfig(inv))
            && (r.alive ==> r == Proc(Configured(inv, fs), true, inv.budget - WorkToConfig(inv)))
  {
    hide BuildProc, ConfigProc, BuildWork, ConfigWork, BuildReady, ConfigReady, All;
    ConfigAfterBuild(inv.Given(), inv.sources, Proc(fs, true, inv.budget));
  }

  /** What deploy() meets when build and config have completed. */
  lemma BeforeDeploy(inv: Invocation, fs: FileMap)
    requires inv.argv != [] && UpToConfig(inv, fs).alive
    ensures var s, r := inv.Given(), UpToConfig(inv, fs);
            && IsFile(BuildMarker(s), r.files) && IsFile(InRoot(s, MARKER), r.files)
            && (IsFile(InRoot(s, AUTH_PASS), r.files) <==> AuthBrought(s, fs))
            && (IsFile(InRoot(s, AUTH_PASS), r.files) ==> Fulfils(r.files, ConfigFiles(s)))
            && (DeployReady(s, inv.machine, inv.installs, r.files) <==> DeployReady(s, inv.machine, inv.installs, fs))
  {
    var s := inv.Given();
    var start := Proc(fs, true, inv.budget);
    var built := BuildProc(s.id, inv.sources, start);
    assert BuildMarker(s) == BuildPhase.Marker(s.id) && BuildMarker(s).tree == Build(s.id);
    assert UpToConfig(inv, fs) == ConfigProc(s, built);
    hide *;
    DeadConfig(s, built);
    BuildStage(s.id, inv.sources, start);
    BuildLeaves(s.id, inv.sources, fs);
    ConfigStaysInside(s, built, BuildMarker(s));
    SameFile(BuildMarker(s), ConfigProc(s, built).files, built.files);
    ConfigLeaves(s, built);
    BuildSparesConfig(s, inv.sources, start);
    ReadyInConfig(s, built.files, fs);
    SparesHome(s, inv.sources, start);
    ReadyInHome(s, inv.machine, inv.installs, ConfigProc(s, built).files, fs);
  }

  lemma InvokeAll(inv: Invocation, fs: FileMap)
    requires WantsAll(inv)
    ensures InvokeProc(inv, fs) == DeployProc(inv.Given(), inv.machine, inv.installs, UpToConfig(inv, fs))
  {
    hide BuildProc, ConfigProc, DeployProc, Accepted, FlagsOf;
  }

  /** ALL gets through if and only if it starts from scratch and lives long enough; and then it has
      carried out all three phases. */
  lemma AllCompletes(inv: Invocation, fs: FileMap)
    requires WantsAll(inv)
    ensures InvokeProc(inv, fs).alive <==> FromScratch(inv, fs) && inv.budget >= Work(inv)
    ensures InvokeProc(inv, fs).alive ==> InvokeProc(inv, fs).files == Deployed(inv, fs)
  {
    assert inv.argv != [];
    hide UpToConfig, InvokeProc, DeployProc, WantsAll, BuildWork, ConfigWork, DeployWork, BuildReady, ConfigReady,
         AuthBrought, DeployReady, ConfigFiles, Fulfils, All, Configured;
    var s, r := inv.Given(), UpToConfig(inv, fs);
    InvokeAll(inv, fs);
    ConfigCompletesAfterBuild(inv, fs);
    if r.alive {
      BeforeDeploy(inv, fs);
      DeployStage(s, inv.machine, inv.installs, r);
    } else {
      DeadDeploy(s, inv.machine, inv.installs, r);
    }
  }

  lemma DeadConfig(s: Settings, p: Proc)
    ensures !p.alive ==> ConfigProc(s, p) == p
  {
  }

  lemma DeadDeploy(s: Settings, m: Machine, installs: seq<Artifact>, p: Proc)
    ensures !p.alive ==> DeployProc(s, m, installs, p) == p
  {
  }

  /** From any files at all: when ALL gets through, the home has the list; the start scripts, unless
      the data directory takes one in; and every configuration file the scripts name if and only if no
      two instances with different texts share a file name. */
  lemma AllDelivers(inv: Invocation, fs: FileMap)
    requires WantsAll(inv) && InvokeProc(inv, fs).alive
    ensures var s, m, r := inv.Given(), inv.machine, InvokeProc(inv, fs).files;
            HomeHasList(s, r) && (HomeHasScripts(s, m, r) <==> StartsApart(s, m))
            && (HomeHasConfs(s, m, r) <==> CollidersAgree(s, m))
  {
    HasArguments(inv);
    hide *;
    var s := inv.Given();
    var built := BuildProc(s.id, inv.sources, Proc(fs, true, inv.budget));
    var configured := ConfigProc(s, built);
    AllInParts(inv, fs);
    DeadConfig(s, built);
    DeadDeploy(s, inv.machine, inv.installs, configured);
    ConfigLeaves(s, built);
    DeployEnds(s, inv.machine, inv.installs, configured);
    DeployDelivers(s, inv.machine, inv.installs, configured);
  }

  lemma HasArguments(inv: Invocation)
    requires WantsAll(inv)
    ensures inv.argv != [] && inv.Given().id == inv.argv[0]
  {
    hide Accepted, FlagsOf;
  }

  lemma AllInParts(inv: Invocation, fs: FileMap)
    requires WantsAll(inv)
    ensures var s := inv.Given();
            InvokeProc(inv, fs) ==
            DeployProc(s, inv.machine, inv.installs,
                       ConfigProc(s, BuildProc(s.id, inv.sources, Proc(fs, true, inv.budget))))
  {
    hide BuildProc, ConfigProc, DeployProc, Accepted, FlagsOf;
  }

  /* ---------- killed and started again ---------- */

  /** A corollary of the guards of build(): as soon as redis has been unpacked, or the build committed,
      no invocation that includes build does anything any more. */
  lemma BuildBlocks(inv: Invocation, c: FileMap)
    requires inv.Valid() && inv.Actions().build && !inv.Actions().clean
    requires IsDir(BuildPhase.Root(inv.argv[0]), c)
    requires IsFile(BuildPhase.Marker(inv.argv[0]), c) || IsDir(SourceDir(inv.argv[0], RedisDir(inv.sources)), c)
    ensures InvokeProc(inv, c).files == c
  {
    hide BuildWork, ConfigProc, DeployProc;
    var s := inv.Given();
    var built := BuildProc(s.id, inv.sources, Proc(c, true, inv.budget));
    assert c[BuildPhase.Root(s.id) := Dir] == c;
    assert !built.alive && built.files == c;
    DeadConfig(s, built);
    DeadDeploy(s, inv.machine, inv.installs, built);
  }

  /** The leftovers that no invocation of build touches again. */
  ghost predicate Stuck(inv: Invocation, c: FileMap)
    requires inv.argv != []
  {
    IsDir(BuildPhase.Root(inv.argv[0]), c)
    && (IsFile(BuildPhase.Marker(inv.argv[0]), c) || IsDir(SourceDir(inv.argv[0], RedisDir(inv.sources)), c))
  }

  lemma StuckForAll(inv: Invocation, c: FileMap)
    requires WantsAll(inv) && Stuck(inv, c)
    ensures InvokeProc(inv, c).files == c
  {
    assert inv.Valid() && inv.Actions().build && !inv.Actions().clean;
    hide InvokeProc, WantsAll;
    BuildBlocks(inv, c);
  }

  /** ALL killed in build, or otherwise. */
  lemma KilledInBuild(inv: Invocation, fs: FileMap)
    requires WantsAll(inv) && FromScratch(inv, fs)
    ensures var c := InvokeProc(inv, fs).files;
            var alive := BuildProc(inv.argv[0], inv.sources, Proc(fs, true, inv.budget)).alive;
            && (!alive ==> Leftover(inv.argv[0], inv.sources, fs, c))
            && (alive ==> Stuck(inv, c) && IsDir(SourceDir(inv.argv[0], RedisDir(inv.sources)), c))
  {
    HasArguments(inv);
    ScratchBuild(inv, fs);
    hide *;
    var s := inv.Given();
    var start := Proc(fs, true, inv.budget);
    var built := BuildProc(s.id, inv.sources, start);
    AllInParts(inv, fs);
    if !built.alive {
      FreshBuild(s.id, inv.sources, fs, fs, inv.budget);
      DeadConfig(s, built);
      DeadDeploy(s, inv.machine, inv.installs, built);
    } else {
      BuildStage(s.id, inv.sources, start);
      BuildLeaves(s.id, inv.sources, fs);
      RestSparesBuild(s, inv.machine, inv.installs, built);
      StaysStuck(inv, built.files, InvokeProc(inv, fs).files);
    }
  }

  lemma RestSparesBuild(s: Settings, m: Machine, installs: seq<Artifact>, p: Proc)
    ensures forall q: Path | q.tree == Build(s.id) ::
              Same(q, DeployProc(s, m, installs, ConfigProc(s, p)).files, p.files)
  {
    hide DeployProc, ConfigProc, Same;
    var configured := ConfigProc(s, p);
    forall q: Path | q.tree == Build(s.id) ensures Same(q, DeployProc(s, m, installs, configured).files, p.files) {
      ConfigStaysInside(s, p, q);
      DeployStaysInside(s, m, installs, configured, q);
      SameTwice(q, DeployProc(s, m, installs, configured).files, configured.files, p.files);
    }
  }

  lemma StaysStuck(inv: Invocation, a: FileMap, c: FileMap)
    requires inv.argv != [] && forall q: Path | q.tree == Build(inv.argv[0]) :: Same(q, c, a)
    requires IsFile(BuildPhase.Marker(inv.argv[0]), a) && IsDir(BuildPhase.Root(inv.argv[0]), a)
    requires IsDir(SourceDir(inv.argv[0], RedisDir(inv.sources)), a)
    ensures Stuck(inv, c) && IsDir(SourceDir(inv.argv[0], RedisDir(inv.sources)), c)
  {
    assert Same(BuildPhase.Marker(inv.argv[0]), c, a) && Same(BuildPhase.Root(inv.argv[0]), c, a)
           && Same(SourceDir(inv.argv[0], RedisDir(inv.sources)), c, a);
  }

  /** Before deploy nothing is in the home. */
  lemma KilledBeforeDeploy(inv: Invocation, fs: FileMap)
    requires WantsAll(inv) && FromScratch(inv, fs)
    ensures IsFile(InHome(inv.Given(), ConfigPhase.ALL_NODES), InvokeProc(inv, fs).files) ==>
            BuildProc(inv.argv[0], inv.sources, Proc(fs, true, inv.budget)).alive
            && exists budget :: DiedInDeploy(inv, fs, budget)
  {
    HasArguments(inv);
    ScratchBuild(inv, fs);
    UpToConfigIs(inv, fs);
    var s := inv.Given();
    var start := Proc(fs, true, inv.budget);
    var built, r := BuildProc(s.id, inv.sources, start), UpToConfig(inv, fs);
    var home := InHome(s, ConfigPhase.ALL_NODES);
    assert home.tree == HomeTree(s);
    hide *;
    InvokeAll(inv, fs);
    SparesHome(s, inv.sources, start);
    SameFile(home, r.files, fs);
    ConfigCompletesAfterBuild(inv, fs);
    DeadConfig(s, built);
    DeadDeploy(s, inv.machine, inv.installs, r);
    if r.alive {
      DiedAt(inv, fs);
    }
  }

  lemma UpToConfigIs(inv: Invocation, fs: FileMap)
    requires inv.argv != []
    ensures UpToConfig(inv, fs) ==
            ConfigProc(inv.Given(), BuildProc(inv.argv[0], inv.sources, Proc(fs, true, inv.budget)))
  {
  }

  lemma DiedAt(inv: Invocation, fs: FileMap)
    requires WantsAll(inv) && UpToConfig(inv, fs).alive
    ensures DiedInDeploy(inv, fs, UpToConfig(inv, fs).budget)
  {
    HasArguments(inv);
    hide BuildProc, ConfigProc, DeployProc, UpToConfig, InvokeProc, WantsAll, BuildReady, ConfigReady, Configured;
    InvokeAll(inv, fs);
    ConfigCompletesAfterBuild(inv, fs);
  }

  lemma WholePrefix(steps: seq<Step>)
    ensures steps[..|steps|] == steps
  {
  }

  ghost predicate DiedInDeploy(inv: Invocation, fs: FileMap, budget: nat)
    requires inv.Valid()
  {
    InvokeProc(inv, fs) == DeployProc(inv.Given(), inv.machine, inv.installs, Proc(Configured(inv, fs), true, budget))
  }

  lemma AgreeThere(a: FileMap, b: FileMap, p: Path)
    requires AgreeExcept(a, b, {p}) && IsFile(p, a) && IsFile(p, b) && TextAt(p, a) == TextAt(p, b)
    ensures a == b
  {
    assert Same(p, a, b);
    AgreeEverywhere(a, b);
  }

  lemma DeployCommitted(s: Settings, m: Machine, installs: seq<Artifact>, cf: FileMap, budget: nat)
    requires !IsFile(InHome(s, ConfigPhase.ALL_NODES), cf)
    requires DeployPhase.Completed(s, m, installs, cf) == All(DeployWork(s, m, installs).Steps(), cf)
    ensures var c := DeployProc(s, m, installs, Proc(cf, true, budget)).files;
            var home, list := InHome(s, ConfigPhase.ALL_NODES), InRoot(s, ConfigPhase.ALL_NODES);
            IsFile(home, c) ==>
            (TextAt(home, c) == TextAt(list, c) <==> c == All(DeployWork(s, m, installs).Steps(), cf))
  {
    DeployShape(s, m, installs, cf);
    hide *;
    var home, list := InHome(s, ConfigPhase.ALL_NODES), InRoot(s, ConfigPhase.ALL_NODES);
    var ph := DeployWork(s, m, installs);
    var c := DeployProc(s, m, installs, Proc(cf, true, budget)).files;
    DeployWellFormed(s, m, installs);
    OneInvocation(s, m, installs, cf, budget);
    DeployMarkerSafe(s, m, installs, cf, [budget]);
    MarkerComplete(ph, HomeTree(s), cf);
    ListKept(s, m, installs, cf, budget);
    if IsFile(home, c) && TextAt(home, c) == TextAt(list, c) {
      AgreeThere(c, All(ph.Steps(), cf), home);
    }
  }

  lemma ListKept(s: Settings, m: Machine, installs: seq<Artifact>, cf: FileMap, budget: nat)
    ensures var list := InRoot(s, ConfigPhase.ALL_NODES);
            TextAt(list, DeployProc(s, m, installs, Proc(cf, true, budget)).files) == TextAt(list, cf)
  {
    var list := InRoot(s, ConfigPhase.ALL_NODES);
    assert list.tree != HomeTree(s);
    hide DeployProc;
    DeployStaysInside(s, m, installs, Proc(cf, true, budget), list);
  }

  /** Once CLUSTER_ALL_NODES stands complete in the home, ALL had finished. */
  lemma CommittedIsDeployed(inv: Invocation, whole: Invocation, fs: FileMap, budget: nat)
    requires WantsAll(whole) && FromScratch(whole, fs) && whole.budget >= Work(whole)
    requires inv == whole.(budget := inv.budget) && WantsAll(inv) && DiedInDeploy(inv, fs, budget)
    ensures var s, c := whole.Given(), InvokeProc(inv, fs).files;
            IsFile(InHome(s, ConfigPhase.ALL_NODES), c) ==>
            (TextAt(InHome(s, ConfigPhase.ALL_NODES), c) == TextAt(InRoot(s, ConfigPhase.ALL_NODES), c)
             <==> c == Deployed(whole, fs))
  {
    var s := whole.Given();
    HasArguments(whole);
    HasArguments(inv);
    SameConfigured(inv, whole, fs);
    DeployedIs(whole, fs);
    assert DiedInDeploy(inv, fs, budget) ==>
        InvokeProc(inv, fs)
        == DeployProc(inv.Given(), inv.machine, inv.installs, Proc(Configured(inv, fs), true, budget));
    hide *;
    NotYetDeployed(whole, fs);
    DeployCommitted(s, whole.machine, whole.installs, Configured(whole, fs), budget);
  }

  lemma DeployedIs(inv: Invocation, fs: FileMap)
    requires inv.argv != []
    ensures Deployed(inv, fs) == All(DeployWork(inv.Given(), inv.machine, inv.installs).Steps(), Configured(inv, fs))
  {
  }

  lemma SameConfigured(a: Invocation, b: Invocation, fs: FileMap)
    requires b.argv != [] && a == b.(budget := a.budget)
    ensures Configured(a, fs) == Configured(b, fs) && a.Given() == b.Given()
  {
    hide All, BuildWork, ConfigWork;
  }

  lemma OneInvocation(s: Settings, m: Machine, installs: seq<Artifact>, fs: FileMap, budget: nat)
    ensures DeployPhase.Invocations(s, m, installs, fs, [budget])
            == DeployProc(s, m, installs, Proc(fs, true, budget)).files
  {
    hide DeployProc;
    assert [budget][..0] == [];
    assert DeployPhase.Invocations(s, m, installs, fs, []) == fs;
  }

  /** Between config and deploy the guards of deploy are open. */
  lemma NotYetDeployed(inv: Invocation, fs: FileMap)
    requires WantsAll(inv) && FromScratch(inv, fs) && inv.budget >= Work(inv)
    ensures !IsFile(InHome(inv.Given(), ConfigPhase.ALL_NODES), Configured(inv, fs))
    ensures DeployPhase.Completed(inv.Given(), inv.machine, inv.installs, Configured(inv, fs)) == Deployed(inv, fs)
  {
    assert inv.argv != [];
    hide UpToConfig, InvokeProc, DeployProc, WantsAll, BuildWork, ConfigWork, DeployWork, BuildReady, ConfigReady,
         AuthBrought, ConfigFiles, Fulfils, HomeNamed, Unobstructed, All, Configured;
    var s := inv.Given();
    ConfigCompletesAfterBuild(inv, fs);
    BeforeDeploy(inv, fs);
    var n := |DeployWork(s, inv.machine, inv.installs).Steps()|;
    DeployStage(s, inv.machine, inv.installs, Proc(Configured(inv, fs), true, n));
  }

  /** Once the build directory has been made, an invocation does what it would have done without. */
  lemma RootedBuild(id: string, b: Sources, fs: FileMap, budget: nat)
    requires !IsFile(BuildPhase.Root(id), fs) && budget > 0
    ensures BuildProc(id, b, Proc(fs[BuildPhase.Root(id) := Dir], true, budget))
            == BuildProc(id, b, Proc(fs, true, budget)) || IsFile(BuildPhase.Marker(id), fs)
  {
    var root := BuildPhase.Root(id);
    ClearRooted(id, b, fs);
    assert fs[root := Dir][root := Dir] == fs[root := Dir];
    hide BuildWork, Clear, Run;
  }

  lemma RootedSame(inv: Invocation, fs: FileMap)
    requires WantsAll(inv) && FromScratch(inv, fs) && inv.budget > 0
    ensures InvokeProc(inv, fs[BuildPhase.Root(inv.argv[0]) := Dir]) == InvokeProc(inv, fs)
  {
    HasArguments(inv);
    ScratchBuild(inv, fs);
    hide *;
    AllInParts(inv, fs);
    AllInParts(inv, fs[BuildPhase.Root(inv.argv[0]) := Dir]);
    RootedBuild(inv.argv[0], inv.sources, fs, inv.budget);
  }

  /** A killed ALL that got as far as unpacking cannot be resumed. */
  lemma BegunIsStuck(inv: Invocation, fs: FileMap, c: FileMap, k: nat)
    requires WantsAll(inv) && Began(inv.argv[0], inv.sources, fs, k, c)
    ensures Stuck(inv, c) && IsDir(SourceDir(inv.argv[0], RedisDir(inv.sources)), c)
  {
    HasArguments(inv);
    hide WantsAll, Clear, BuildWork, All;
    LeavesDirs(inv.argv[0], inv.sources, fs[BuildPhase.Root(inv.argv[0]) := Dir], k);
  }

  /** A killed ALL has left nothing, the empty build directory, or something it will not touch again. */
  lemma KilledLeaves(inv: Invocation, fs: FileMap)
    requires WantsAll(inv) && FromScratch(inv, fs)
    ensures var c := InvokeProc(inv, fs).files;
            c == fs || c == fs[BuildPhase.Root(inv.argv[0]) := Dir]
            || (Stuck(inv, c) && IsDir(SourceDir(inv.argv[0], RedisDir(inv.sources)), c))
  {
    HasArguments(inv);
    hide InvokeProc, WantsAll, FromScratch, BuildProc, Began, Clear, Stuck;
    KilledInBuild(inv, fs);
    var c := InvokeProc(inv, fs).files;
    if Leftover(inv.argv[0], inv.sources, fs, c) && c != fs && c != fs[BuildPhase.Root(inv.argv[0]) := Dir] {
      var k :| Began(inv.argv[0], inv.sources, fs, k, c);
      BegunIsStuck(inv, fs, c, k);
    }
  }

  /** The files after a series of invocations, each killed after so many steps. */
  function Series(inv: Invocation, fs: FileMap, budgets: seq<nat>): FileMap {
    if budgets == [] then fs
    else InvokeProc(inv.(budget := budgets[|budgets| - 1]), Series(inv, fs, budgets[..|budgets| - 1])).files
  }

  /** What one killed ALL leaves behind once it has begun to unpack. */
  ghost predicate LeftBy(inv: Invocation, fs: FileMap, k: nat, c: FileMap)
    requires inv.argv != []
  {
    c == InvokeProc(inv.(budget := k), fs).files && Stuck(inv, c)
    && IsDir(SourceDir(inv.argv[0], RedisDir(inv.sources)), c)
  }

  /** A series of killed invocations leaves no more than one of them. */
  ghost predicate SeriesLeft(inv: Invocation, fs: FileMap, c: FileMap)
    requires inv.argv != []
  {
    c == fs || c == fs[BuildPhase.Root(inv.argv[0]) := Dir] || exists k :: LeftBy(inv, fs, k, c)
  }

  lemma SeriesStep(inv: Invocation, fs: FileMap, c: FileMap, budget: nat)
    requires WantsAll(inv) && FromScratch(inv, fs) && SeriesLeft(inv, fs, c)
    ensures SeriesLeft(inv, fs, InvokeProc(inv.(budget := budget), c).files)
  {
    HasArguments(inv);
    var now := inv.(budget := budget);
    SameNeeds(now, inv, fs);
    assert now.argv == inv.argv && now.sources == inv.sources;
    assert forall c :: Stuck(now, c) <==> Stuck(inv, c);
    hide InvokeProc, WantsAll, FromScratch, Stuck;
    if c != fs && c != fs[BuildPhase.Root(inv.argv[0]) := Dir] {
      var k :| LeftBy(inv, fs, k, c);
      StuckForAll(now, c);
    } else if budget == 0 {
      DeadAtOnce(now, c);
    } else {
      RootedSame(now, fs);
      KilledLeaves(now, fs);
      var r := InvokeProc(now, fs).files;
      assert Stuck(inv, r) && IsDir(SourceDir(inv.argv[0], RedisDir(inv.sources)), r) ==> LeftBy(inv, fs, budget, r);
    }
  }

  lemma DeadAtOnce(inv: Invocation, c: FileMap)
    requires WantsAll(inv) && inv.budget == 0
    ensures InvokeProc(inv, c).files == c
  {
    HasArguments(inv);
    AllInParts(inv, c);
    hide BuildWork, WantsAll, InvokeProc, DeployProc, ConfigProc;
    var built := BuildProc(inv.argv[0], inv.sources, Proc(c, true, 0));
    assert !built.alive && built.files == c;
    DeadConfig(inv.Given(), built);
    DeadDeploy(inv.Given(), inv.machine, inv.installs, built);
  }

  lemma {:induction false} SeriesLeaves(inv: Invocation, fs: FileMap, budgets: seq<nat>)
    requires WantsAll(inv) && FromScratch(inv, fs)
    ensures SeriesLeft(inv, fs, Series(inv, fs, budgets))
  {
    HasArguments(inv);
    hide InvokeProc, WantsAll, FromScratch, LeftBy;
    if budgets != [] {
      SeriesLeaves(inv, fs, budgets[..|budgets| - 1]);
      SeriesStep(inv, fs, Series(inv, fs, budgets[..|budgets| - 1]), budgets[|budgets| - 1]);
    }
  }

  /** What a killed ALL left is what a whole one leaves exactly if CLUSTER_ALL_NODES is complete. */
  lemma LeftComplete(whole: Invocation, fs: FileMap, k: nat, c: FileMap)
    requires WantsAll(whole) && FromScratch(whole, fs) && whole.budget >= Work(whole) && LeftBy(whole, fs, k, c)
    ensures var s := whole.Given();
            c == Deployed(whole, fs) <==>
            IsFile(InHome(s, ConfigPhase.ALL_NODES), c)
            && TextAt(InHome(s, ConfigPhase.ALL_NODES), c) == TextAt(InRoot(s, ConfigPhase.ALL_NODES), c)
  {
    var killed := whole.(budget := k);
    SameNeeds(killed, whole, fs);
    assert killed.Given() == whole.Given() && c == InvokeProc(killed, fs).files;
    hide *;
    DeployedHasMarker(whole, fs);
    if IsFile(InHome(whole.Given(), ConfigPhase.ALL_NODES), c) {
      KilledBeforeDeploy(killed, fs);
      var rest :| DiedInDeploy(killed, fs, rest);
      CommittedIsDeployed(killed, whole, fs, rest);
    }
  }

  /** Starting a killed ALL again, however often it has been killed. Unlike config and deploy on their
      own, ALL is not restartable: the next uninterrupted invocation ends where an uninterrupted first
      one would have, if and only if no killed run had yet begun to unpack redis, or one had finished.
      Otherwise build refuses, and config and deploy are never reached. */
  lemma AllRestarts(whole: Invocation, fs: FileMap, budgets: seq<nat>)
    requires WantsAll(whole) && FromScratch(whole, fs) && whole.budget >= Work(whole)
    ensures var s := whole.Given();
            var c := Series(whole, fs, budgets);
            InvokeProc(whole, c).files == InvokeProc(whole, fs).files <==>
            || !IsDir(SourceDir(s.id, RedisDir(whole.sources)), c)
            || (IsFile(InHome(s, ConfigPhase.ALL_NODES), c)
                && TextAt(InHome(s, ConfigPhase.ALL_NODES), c) == TextAt(InRoot(s, ConfigPhase.ALL_NODES), c))
  {
    HasArguments(whole);
    SourcesAbsent(whole, fs);
    WorkIsPositive(whole);
    hide InvokeProc, WantsAll, FromScratch, Deployed, Stuck, Work, Series;
    var c := Series(whole, fs, budgets);
    SeriesLeaves(whole, fs, budgets);
    AllCompletes(whole, fs);
    if c == fs || c == fs[BuildPhase.Root(whole.argv[0]) := Dir] {
      RootedSame(whole, fs);
    } else {
      var k :| LeftBy(whole, fs, k, c);
      StuckForAll(whole, c);
      LeftComplete(whole, fs, k, c);
    }
  }

  lemma WorkIsPositive(inv: Invocation)
    requires inv.argv != []
    ensures Work(inv) > 0
  {
    hide BuildWork, ConfigWork, DeployWork;
  }

  /** An ALL killed when it had just begun to unpack: starting it again leaves everything as it is. */
  lemma KilledAll(whole: Invocation, fs: FileMap)
    requires WantsAll(whole) && FromScratch(whole, fs) && whole.budget >= Work(whole)
    ensures var c := Series(whole, fs, [2]);
            InvokeProc(whole, c).files == c != InvokeProc(whole, fs).files
  {
    var killed := whole.(budget := 2);
    SameNeeds(killed, whole, fs);
    HasArguments(whole);
    OneInSeries(whole, fs, 2);
    hide *;
    var c := Series(whole, fs, [2]);
    JustUnpacking(killed, fs);
    BegunIsStuck(whole, fs, c, 1);
    StuckForAll(whole, c);
    AllRestarts(whole, fs, [2]);
  }

  lemma OneInSeries(inv: Invocation, fs: FileMap, budget: nat)
    ensures Series(inv, fs, [budget]) == InvokeProc(inv.(budget := budget), fs).files
  {
    hide InvokeProc;
    assert [budget][..0] == [];
    assert Series(inv, fs, []) == fs;
  }

  lemma JustUnpacking(inv: Invocation, fs: FileMap)
    requires WantsAll(inv) && FromScratch(inv, fs) && inv.budget == 2
    ensures Began(inv.argv[0], inv.sources, fs, 1, InvokeProc(inv, fs).files)
    ensures !IsFile(InHome(inv.Given(), ConfigPhase.ALL_NODES), InvokeProc(inv, fs).files)
  {
    HasArguments(inv);
    ScratchBuild(inv, fs);
    hide *;
    var s, b := inv.Given(), inv.sources;
    var start := Proc(fs, true, 2);
    var built := BuildProc(s.id, b, start);
    var home := InHome(s, ConfigPhase.ALL_NODES);
    AllInParts(inv, fs);
    JustBegun(s.id, b, fs);
    DeadConfig(s, built);
    DeadDeploy(s, inv.machine, inv.installs, built);
    BuildStaysInside(s.id, b, start, home);
    SameFile(home, built.files, fs);
  }

  lemma ScratchBuild(inv: Invocation, fs: FileMap)
    requires inv.argv != [] && FromScratch(inv, fs)
    ensures var s := inv.Given();
            && AllSucceed(inv.sources) && HasRoom(s.id, inv.sources, fs) && Clear(s.id, inv.sources, fs)
            && !IsFile(BuildPhase.Marker(s.id), fs) && !IsFile(BuildPhase.Root(s.id), fs)
            && !IsFile(InHome(s, ConfigPhase.ALL_NODES), fs) && InHome(s, ConfigPhase.ALL_NODES).tree != Build(s.id)
  {
    hide Configurable, AllSucceed, Clear, BuildWork, ConfigWork, DeployWork, Unobstructed, NodesNamed, HomeNamed;
  }

  lemma SameFile(p: Path, a: FileMap, b: FileMap)
    requires Same(p, a, b)
    ensures IsFile(p, a) <==> IsFile(p, b)
  {
  }

  /** How long it lives has no part in what an invocation asks for and needs. */
  lemma SameNeeds(a: Invocation, b: Invocation, fs: FileMap)
    requires b.argv != [] && a == b.(budget := a.budget)
    ensures (WantsAll(a) <==> WantsAll(b)) && (FromScratch(a, fs) <==> FromScratch(b, fs))
  {
    hide FlagsOf, Accepted, BuildReady, ConfigReady, AuthBrought, DeployReady;
  }

  lemma DeployedHasMarker(inv: Invocation, fs: FileMap)
    requires WantsAll(inv)
    ensures IsFile(InHome(inv.Given(), ConfigPhase.ALL_NODES), Deployed(inv, fs))
  {
    var s := inv.Given();
    var ph := DeployWork(s, inv.machine, inv.installs);
    assert ph.open.dst == InHome(s, ConfigPhase.ALL_NODES);
    hide DeployWork, Configured;
    DeployWellFormed(s, inv.machine, inv.installs);
    MarkerComplete(ph, HomeTree(s), Configured(inv, fs));
  }

  lemma SourcesAbsent(inv: Invocation, fs: FileMap)
    requires inv.argv != [] && FromScratch(inv, fs)
    ensures !IsDir(SourceDir(inv.argv[0], RedisDir(inv.sources)), fs)
    ensures !IsDir(SourceDir(inv.argv[0], RedisDir(inv.sources)), fs[BuildPhase.Root(inv.argv[0]) := Dir])
  {
    hide ConfigReady, AuthBrought, DeployReady, HasRoom;
  }
}
