/** redis_cluster.sh as a whole: one invocation dispatches to clean, or to build, config and
    deploy; and what any number of invocations can and cannot do to a deployed cluster. */
module Cluster {
  import opened Actions
  import opened BuildPhase
  import opened ConfigPhase
  import opened DeployPhase
  import opened Files
  import opened Text
  import opened Wrappers

  /** The replies to clean()'s questions. None is the end of the input: read fails and ends the
      script. */
  datatype Answers = Answers(build: Option<string>, config: Option<string>, deploy: Option<string>)

  /** One call of the script, with everything it meets; `configured` says that the cluster's
      files exist and name packages that are new enough. */
  datatype Invocation = Invocation(
    argv: seq<string>, configured: bool, settings: Settings, sources: Sources,
    machine: Machine, installs: seq<Artifact>, answers: Answers, budget: nat)
  {
    predicate Valid() {
      argv != [] && Accepted(argv[0]) && configured
    }

    function Given(): Settings
      requires argv != []
    {
      settings.(id := argv[0])
    }

    function Actions(): Flags
      requires argv != []
    {
      FlagsOf(Tokens(argv[1..]))
    }
  }

  /** yes or y, in any case. */
  predicate Confirmed(reply: string) {
    |reply| in {1, 3} && reply[0] in {'Y', 'y'}
    && (|reply| == 3 ==> reply[1] in {'E', 'e'} && reply[2] in {'S', 's'})
  }

  /** The replies that remove something; every other one keeps it. */
  const YES := {"y", "Y", "yes", "yeS", "yEs", "yES", "Yes", "YeS", "YEs", "YES"}

  lemma ConfirmedIff(reply: string)
    ensures Confirmed(reply) <==> reply in YES
  {
    if Confirmed(reply) {
      assert |reply| == 1 ==> reply == [reply[0]];
      assert |reply| == 3 ==> reply == [reply[0], reply[1], reply[2]];
    }
  }

  /* ---------- clean ---------- */

  function TreeRoot(tree: Tree): Path { Path(tree, []) }

  /** One of clean()'s three parts. */
  function RemoveProc(tree: Tree, wanted: bool, reply: Option<string>, p: Proc): Proc {
    if !p.alive || !wanted || !IsDir(TreeRoot(tree), p.files) then p
    else if reply.None? then p.(alive := false)
    else if Confirmed(reply.value) then Exec(RemoveTree(tree), p)
    else p
  }

  function CleanProc(s: Settings, flags: Flags, answers: Answers, p: Proc): Proc {
    var built := RemoveProc(Build(s.id), flags.build, answers.build, p);
    var configured := RemoveProc(Config(s.id), flags.config, answers.config, built);
    RemoveProc(HomeTree(s), flags.deploy, answers.deploy, configured)
  }

  method Ask(sh: Shell, tree: Tree, reply: Option<string>)
    requires sh.proc.alive && IsDir(TreeRoot(tree), sh.proc.files)
    modifies sh
    ensures sh.proc == RemoveProc(tree, true, reply, old(sh.proc))
    // in full
    ensures reply == None ==> sh.proc.files == old(sh.proc.files) && !sh.proc.alive
    ensures reply.Some? && reply.value !in {"y", "Y", "yes", "yeS", "yEs", "yES", "Yes", "YeS", "YEs", "YES"} ==>
              sh.proc == old(sh.proc)
    ensures reply.Some? && reply.value in {"y", "Y", "yes", "yeS", "yEs", "yES", "Yes", "YeS", "YEs", "YES"} ==>
              if old(sh.proc.budget) == 0 then sh.proc.files == old(sh.proc.files) && !sh.proc.alive
              else sh.proc.alive && sh.proc.files == map q | q in old(sh.proc.files) && q.tree != tree ::
                                                       old(sh.proc.files)[q]
  {
    if reply.Some? {
      ConfirmedIff(reply.value);
    }
    match reply {
      case None => sh.proc := sh.proc.(alive := false);
      case Some(confirm) =>
        if confirm == "y" || confirm == "Y"
           || (|confirm| == 3 && confirm[0] in {'Y', 'y'} && confirm[1] in {'E', 'e'} && confirm[2] in {'S', 's'}) {
          sh.Issue(RemoveTree(tree));
        }
    }
  }

  method Clean(sh: Shell, s: Settings, flags: Flags, answers: Answers)
    modifies sh
    ensures sh.proc == CleanProc(s, flags, answers, old(sh.proc))
  {
    if flags.build {
      if sh.proc.alive && IsDir(TreeRoot(Build(s.id)), sh.proc.files) {
        Ask(sh, Build(s.id), answers.build);
      }
    }
    if flags.config {
      if sh.proc.alive && IsDir(TreeRoot(Config(s.id)), sh.proc.files) {
        Ask(sh, Config(s.id), answers.config);
      }
    }
    if sh.proc.alive && IsDir(TreeRoot(HomeTree(s)), sh.proc.files) {
      if flags.deploy {
        Ask(sh, HomeTree(s), answers.deploy);
      }
    }
  }

  /** What clean() takes, when it is asked for, there, and agreed to. */
  predicate Taken(s: Settings, flags: Flags, answers: Answers, fs: FileMap, tree: Tree) {
    || (tree == Build(s.id) && flags.build && IsDir(Path(Build(s.id), []), fs)
        && answers.build.Some? && answers.build.value in YES)
    || (tree == Config(s.id) && flags.config && IsDir(Path(Config(s.id), []), fs)
        && answers.config.Some? && answers.config.value in YES)
    || (tree == Home(s.parent, s.id) && flags.deploy && IsDir(Path(Home(s.parent, s.id), []), fs)
        && answers.deploy.Some? && answers.deploy.value in YES)
  }

  predicate Answered(answers: Answers) {
    answers.build.Some? && answers.config.Some?
  }

  lemma RemoveTakes(tree: Tree, wanted: bool, reply: Option<string>, p: Proc, q: Path)
    ensures var r := RemoveProc(tree, wanted, reply, p);
            var taken := wanted && IsDir(Path(tree, []), p.files) && reply.Some? && reply.value in YES;
            && (q.tree != tree || !taken ==> Same(q, r.files, p.files))
            && (p.alive && p.budget > 0 && q.tree == tree && taken ==> q !in r.files)
            && (p.alive && reply.Some? && p.budget > 0 ==> r.alive && r.budget >= p.budget - 1)
  {
    if reply.Some? {
      ConfirmedIff(reply.value);
    }
  }

  /** Whatever the answers and wherever it is killed, clean() changes nothing but the trees that are
      taken; and with the first two questions answered, and time enough, nothing of those is left. */
  lemma CleanTakes(s: Settings, flags: Flags, answers: Answers, p: Proc, q: Path)
    ensures var r := CleanProc(s, flags, answers, p).files;
            && (!Taken(s, flags, answers, p.files, q.tree) ==> Same(q, r, p.files))
            && (p.alive && p.budget >= 3 && Answered(answers) && Taken(s, flags, answers, p.files, q.tree) ==> q !in r)
  {
    hide RemoveProc;
    var built := RemoveProc(Build(s.id), flags.build, answers.build, p);
    var configured := RemoveProc(Config(s.id), flags.config, answers.config, built);
    var config, home := Path(Config(s.id), []), Path(HomeTree(s), []);
    RemoveTakes(Build(s.id), flags.build, answers.build, p, q);
    RemoveTakes(Build(s.id), flags.build, answers.build, p, config);
    RemoveTakes(Build(s.id), flags.build, answers.build, p, home);
    RemoveTakes(Config(s.id), flags.config, answers.config, built, q);
    RemoveTakes(Config(s.id), flags.config, answers.config, built, home);
    RemoveTakes(HomeTree(s), flags.deploy, answers.deploy, configured, q);
  }

  /* ---------- one invocation ---------- */

  function PhasesProc(inv: Invocation, s: Settings, flags: Flags, p: Proc): Proc {
    var built := if flags.build then BuildProc(s.id, inv.sources, p) else p;
    var configured := if flags.config then ConfigProc(s, built) else built;
    if flags.deploy then DeployProc(s, inv.machine, inv.installs, configured) else configured
  }

  function InvokeProc(inv: Invocation, fs: FileMap): Proc {
    var p := Proc(fs, true, inv.budget);
    if !inv.Valid() then p.(alive := false)
    else
      var flags := inv.Actions();
      if flags.clean then CleanProc(inv.Given(), flags, inv.answers, p)
      else PhasesProc(inv, inv.Given(), flags, p)
  }

  method Invoke(inv: Invocation, fs: FileMap) returns (r: FileMap, completed: bool)
    ensures Proc(r, completed, InvokeProc(inv, fs).budget) == InvokeProc(inv, fs)
  {
    var sh := new Shell(fs, inv.budget);
    if inv.argv == [] {
      return fs, false;
    }
    var parsed := ParseArguments(inv.argv);
    if parsed.Rejected? || !inv.configured {
      return fs, false;
    }
    var s, flags := inv.Given(), parsed.flags;
    if flags.clean {
      Clean(sh, s, flags, inv.answers);
    } else {
      if flags.build {
        Compile(sh, s.id, inv.sources);
      }
      if flags.config {
        Configure(sh, s);
      }
      if flags.deploy {
        Deploy(sh, s, inv.machine, inv.installs);
      }
    }
    return sh.proc.files, sh.proc.alive;
  }

  /** The files after a series of invocations. */
  function History(invs: seq<Invocation>, fs: FileMap): FileMap {
    if invs == [] then fs
    else InvokeProc(invs[|invs| - 1], History(invs[..|invs| - 1], fs)).files
  }

  /* ---------- every phase stays in its tree ---------- */

  ghost predicate Inside(steps: seq<Step>, tree: Tree) {
    forall t: Step | t in steps :: !t.RemoveTree? && (HasTarget(t) ==> t.dst.tree == tree)
  }

  lemma InsideConcat(a: seq<Step>, b: seq<Step>, tree: Tree)
    requires Inside(a, tree) && Inside(b, tree)
    ensures Inside(a + b, tree)
  {
  }

  lemma SoundInside(steps: seq<Step>, written: set<Path>, tree: Tree)
    requires Sound(steps, written, tree)
    ensures Inside(steps, tree)
  {
    SoundTargets(steps, written, tree);
    forall t: Step | t in steps && HasTarget(t) ensures t.dst.tree == tree {
      assert t.dst in Targets(steps);
    }
  }

  lemma {:induction false} RunStaysInside(steps: seq<Step>, tree: Tree, p: Proc, q: Path)
    requires Inside(steps, tree) && q.tree != tree
    ensures Same(q, Run(steps, p).files, p.files)
  {
    if steps != [] {
      var init, last := steps[..|steps| - 1], steps[|steps| - 1];
      assert last in steps && forall t: Step | t in init :: t in steps;
      RunStaysInside(init, tree, p, q);
    }
  }

  lemma NodeStepsInside(s: Settings, node: string)
    ensures Inside(NodeSteps(s, node), Config(s.id))
  {
    hide PortSteps, ScriptSteps, Ports;
    PortStepsFit(s, node, Ports(s, node));
    ScriptStepsFit(s, node);
    SoundInside(PortSteps(s, node, Ports(s, node)), {InRoot(s, ConfigPhase.ALL_NODES)}, Config(s.id));
    SoundInside(ScriptSteps(s, node), {InRoot(s, ConfigPhase.ALL_NODES)}, Config(s.id));
    InsideConcat([MkDir(NodeDir(s, node))], PortSteps(s, node, Ports(s, node)), Config(s.id));
    InsideConcat([MkDir(NodeDir(s, node))] + PortSteps(s, node, Ports(s, node)), ScriptSteps(s, node), Config(s.id));
  }

  lemma {:induction false} NodesStepsInside(s: Settings, nodes: seq<string>)
    ensures Inside(NodesSteps(s, nodes), Config(s.id))
  {
    hide NodeSteps;
    if nodes != [] {
      NodesStepsInside(s, nodes[..|nodes| - 1]);
      NodeStepsInside(s, nodes[|nodes| - 1]);
      InsideConcat(NodesSteps(s, nodes[..|nodes| - 1]), NodeSteps(s, nodes[|nodes| - 1]), Config(s.id));
    }
  }

  lemma ConfigStaysInside(s: Settings, p: Proc, q: Path)
    requires q.tree != Config(s.id)
    ensures Same(q, ConfigProc(s, p).files, p.files)
  {
    hide NodesSteps, Nodes, Run, FinalSteps;
    var middle, last := NodesSteps(s, Nodes(s)), Write(InRoot(s, MARKER), MARKER_TEXT);
    NodesStepsInside(s, Nodes(s));
    FinalStepsFit(s);
    SoundInside(FinalSteps(s), {InRoot(s, ConfigPhase.ALL_NODES)}, Config(s.id));
    InsideConcat(StartSteps(s), middle, Config(s.id));
    InsideConcat(StartSteps(s) + middle, FinalSteps(s), Config(s.id));
    InsideConcat(StartSteps(s) + middle + FinalSteps(s), last, Config(s.id));
    assert ConfigWork(s).Steps() == StartSteps(s) + middle + FinalSteps(s) + last;
    RunStaysInside(ConfigWork(s).Steps(), Config(s.id), p, q);
  }

  lemma DeployStaysInside(s: Settings, m: Machine, installs: seq<Artifact>, p: Proc, q: Path)
    requires q.tree != HomeTree(s)
    ensures Same(q, DeployProc(s, m, installs, p).files, p.files)
  {
    hide CopyNodes, InstallSteps, EnvSteps, Nodes, Run;
    var tree := HomeTree(s);
    var nodes, make := CopyNodes(s, m, Nodes(s)), InstallSteps(s, installs);
    var last := Copy(InHome(s, ConfigPhase.ALL_NODES), InRoot(s, ConfigPhase.ALL_NODES));
    CopyNodesFit(s, m, Nodes(s));
    InstallStepsFit(s, installs);
    EnvStepsFit(s);
    SoundInside(nodes, {}, tree);
    SoundInside(make, {}, tree);
    SoundInside(EnvSteps(s), {}, tree);
    InsideConcat(DirSteps(s), nodes, tree);
    InsideConcat(DirSteps(s) + nodes, make, tree);
    InsideConcat(DirSteps(s) + nodes + make, EnvSteps(s), tree);
    InsideConcat(DirSteps(s) + nodes + make + EnvSteps(s), last, tree);
    assert DeployWork(s, m, installs).Steps() == DirSteps(s) + nodes + make + EnvSteps(s) + last;
    RunStaysInside(DeployWork(s, m, installs).Steps(), tree, p, q);
  }

  /* ---------- a deployed cluster is safe ---------- */

  function HomeMarker(parent: string, id: string): Path {
    Path(Home(parent, id), [ConfigPhase.ALL_NODES])
  }

  /** A confirmed clean of this cluster's home. */
  predicate Removes(inv: Invocation, parent: string, id: string) {
    && inv.Valid() && inv.argv[0] == id && inv.settings.parent == parent
    && var words := Tokens(inv.argv[1..]);
    && "clean" in words && ("deploy" in words || "ALL" in words)
    && inv.answers.deploy.Some? && inv.answers.deploy.value in YES
  }

  lemma RemoveSpares(tree: Tree, wanted: bool, reply: Option<string>, p: Proc, q: Path)
    requires q.tree != tree || !wanted || reply.None? || !Confirmed(reply.value)
    ensures Same(q, RemoveProc(tree, wanted, reply, p).files, p.files)
  {
  }

  lemma PhasesSpareHome(inv: Invocation, s: Settings, flags: Flags, p: Proc, parent: string, id: string, q: Path)
    requires IsFile(HomeMarker(parent, id), p.files) && q.tree == Home(parent, id)
    ensures Same(q, PhasesProc(inv, s, flags, p).files, p.files)
  {
    hide BuildProc, ConfigProc, DeployWork, Run;
    var marker := HomeMarker(parent, id);
    var built := if flags.build then BuildProc(s.id, inv.sources, p) else p;
    var configured := if flags.config then ConfigProc(s, built) else built;
    BuildStaysInside(s.id, inv.sources, p, marker);
    BuildStaysInside(s.id, inv.sources, p, q);
    ConfigStaysInside(s, built, marker);
    ConfigStaysInside(s, built, q);
    if HomeTree(s) != Home(parent, id) {
      DeployStaysInside(s, inv.machine, inv.installs, configured, q);
    }
  }

  /** One invocation leaves a home that holds CLUSTER_ALL_NODES as it is, unless it is a confirmed
      clean of that home. */
  lemma InvocationSparesHome(inv: Invocation, fs: FileMap, parent: string, id: string, q: Path)
    requires IsFile(HomeMarker(parent, id), fs) && !Removes(inv, parent, id) && q.tree == Home(parent, id)
    ensures Same(q, InvokeProc(inv, fs).files, fs)
  {
    if inv.answers.deploy.Some? {
      ConfirmedIff(inv.answers.deploy.value);
    }
    hide PhasesProc, RemoveProc, Confirmed, YES;
    if inv.Valid() {
      var p, s, flags := Proc(fs, true, inv.budget), inv.Given(), inv.Actions();
      if flags.clean {
        var built := RemoveProc(Build(s.id), flags.build, inv.answers.build, p);
        var configured := RemoveProc(Config(s.id), flags.config, inv.answers.config, built);
        RemoveSpares(Build(s.id), flags.build, inv.answers.build, p, q);
        RemoveSpares(Config(s.id), flags.config, inv.answers.config, built, q);
        RemoveSpares(HomeTree(s), flags.deploy, inv.answers.deploy, configured, q);
      } else {
        PhasesSpareHome(inv, s, flags, p, parent, id, q);
      }
    }
  }

  /** Whole-run safety: whatever is invoked, in whatever order and however often killed, a home that
      holds CLUSTER_ALL_NODES is unchanged as long as no confirmed clean of it is among the
      invocations. */
  lemma {:induction false} HomeIsSafe(invs: seq<Invocation>, fs: FileMap, parent: string, id: string, q: Path)
    requires IsFile(HomeMarker(parent, id), fs) && q.tree == Home(parent, id)
    requires forall inv | inv in invs :: !Removes(inv, parent, id)
    ensures Same(q, History(invs, fs), fs)
    ensures IsFile(HomeMarker(parent, id), History(invs, fs))
  {
    hide Removes, InvokeProc;
    if invs != [] {
      var init, last := invs[..|invs| - 1], invs[|invs| - 1];
      assert last in invs && forall inv | inv in init :: inv in invs;
      HomeIsSafe(init, fs, parent, id, q);
      InvocationSparesHome(last, History(init, fs), parent, id, q);
      InvocationSparesHome(last, History(init, fs), parent, id, HomeMarker(parent, id));
    }
  }

  /* ---------- what a confirmed clean takes ---------- */

  /** clean() gets past one of its parts. */
  predicate Passes(tree: Tree, wanted: bool, reply: Option<string>, fs: FileMap) {
    wanted && IsDir(TreeRoot(tree), fs) ==> reply.Some?
  }

  function Removals(tree: Tree, wanted: bool, reply: Option<string>, fs: FileMap): nat {
    if wanted && IsDir(TreeRoot(tree), fs) && reply.Some? && Confirmed(reply.value) then 1 else 0
  }

  /** No earlier question is left unanswered, and the script lives long enough. */
  predicate GetsToHome(inv: Invocation, fs: FileMap)
    requires inv.argv != []
  {
    var id, flags, a := inv.argv[0], inv.Actions(), inv.answers;
    && Passes(Build(id), flags.build, a.build, fs) && Passes(Config(id), flags.config, a.config, fs)
    && Removals(Build(id), flags.build, a.build, fs) + Removals(Config(id), flags.config, a.config, fs) < inv.budget
  }

  lemma RemovePasses(tree: Tree, wanted: bool, reply: Option<string>, p: Proc)
    requires p.alive
    ensures var r := RemoveProc(tree, wanted, reply, p);
            var n := Removals(tree, wanted, reply, p.files);
            (r.alive <==> Passes(tree, wanted, reply, p.files) && n <= p.budget)
            && (r.alive ==> r.budget == p.budget - n)
  {
  }

  /** The converse: an invocation removes a deployed home if and only if it is a confirmed clean of
      it that gets that far, and then nothing of the home is left. */
  lemma HomeRemovedIff(inv: Invocation, fs: FileMap, parent: string, id: string)
    requires IsFile(HomeMarker(parent, id), fs) && IsDir(TreeRoot(Home(parent, id)), fs)
    ensures var r := InvokeProc(inv, fs).files;
            && (HomeMarker(parent, id) !in r <==> Removes(inv, parent, id) && GetsToHome(inv, fs))
            && (HomeMarker(parent, id) !in r ==> forall q | q in r :: q.tree != Home(parent, id))
  {
    if inv.answers.deploy.Some? {
      ConfirmedIff(inv.answers.deploy.value);
    }
    hide PhasesProc, RemoveProc, Confirmed, YES;
    if !Removes(inv, parent, id) {
      InvocationSparesHome(inv, fs, parent, id, HomeMarker(parent, id));
    } else {
      var p, s, flags, a := Proc(fs, true, inv.budget), inv.Given(), inv.Actions(), inv.answers;
      var built := RemoveProc(Build(s.id), flags.build, a.build, p);
      var configured := RemoveProc(Config(s.id), flags.config, a.config, built);
      RemovePasses(Build(s.id), flags.build, a.build, p);
      RemoveSpares(Build(s.id), flags.build, a.build, p, TreeRoot(Config(s.id)));
      if built.alive {
        RemovePasses(Config(s.id), flags.config, a.config, built);
      }
      assert HomeTree(s) == Home(parent, id);
      forall q: Path | q.tree == Home(parent, id) ensures Same(q, configured.files, fs) {
        RemoveSpares(Build(s.id), flags.build, a.build, p, q);
        RemoveSpares(Config(s.id), flags.config, a.config, built, q);
      }
      assert Same(TreeRoot(Home(parent, id)), configured.files, fs)
             && Same(HomeMarker(parent, id), configured.files, fs);
      HomeGoes(HomeTree(s), a.deploy, configured, HomeMarker(parent, id));
      DeadStays(Config(s.id), flags.config, a.config, built);
    }
  }

  /** Over a whole run: the home is there until the first confirmed clean of it that gets that far, and gone
      after that. */
  lemma HomeEnds(invs: seq<Invocation>, last: Invocation, fs: FileMap, parent: string, id: string)
    requires IsFile(HomeMarker(parent, id), fs) && IsDir(TreeRoot(Home(parent, id)), fs)
    requires forall inv | inv in invs :: !Removes(inv, parent, id)
    ensures History(invs + [last], fs) == InvokeProc(last, History(invs, fs)).files
    ensures HomeMarker(parent, id) !in History(invs + [last], fs) <==>
            Removes(last, parent, id) && GetsToHome(last, History(invs, fs))
    ensures HomeMarker(parent, id) !in History(invs + [last], fs) ==>
              forall q | q in History(invs + [last], fs) :: q.tree != Home(parent, id)
  {
    assert (invs + [last])[..|invs|] == invs;
    hide Removes, InvokeProc, GetsToHome;
    HomeIsSafe(invs, fs, parent, id, TreeRoot(Home(parent, id)));
    HomeRemovedIff(last, History(invs, fs), parent, id);
  }

  lemma HomeGoes(tree: Tree, reply: Option<string>, p: Proc, marker: Path)
    requires reply.Some? && Confirmed(reply.value) && IsDir(TreeRoot(tree), p.files)
    requires marker.tree == tree && marker in p.files
    ensures var r := RemoveProc(tree, true, reply, p).files;
            (marker !in r <==> p.alive && p.budget > 0) && (marker !in r ==> forall q | q in r :: q.tree != tree)
  {
  }

  lemma DeadStays(tree: Tree, wanted: bool, reply: Option<string>, p: Proc)
    ensures !p.alive ==> RemoveProc(tree, wanted, reply, p) == p
  {
  }

  /* ---------- clusters do not disturb each other ---------- */

  predicate OfCluster(id: string, tree: Tree) {
    match tree
    case Build(i) => i == id
    case Config(i) => i == id
    case Home(_, i) => i == id
  }

  /** An invocation for one cluster id changes nothing that belongs to another. */
  lemma OthersUntouched(inv: Invocation, fs: FileMap, q: Path)
    requires inv.argv != [] ==> !OfCluster(inv.argv[0], q.tree)
    ensures Same(q, InvokeProc(inv, fs).files, fs)
  {
    hide BuildProc, ConfigProc, DeployProc, RemoveProc;
    if inv.Valid() {
      var p, s, flags := Proc(fs, true, inv.budget), inv.Given(), inv.Actions();
      if flags.clean {
        var built := RemoveProc(Build(s.id), flags.build, inv.answers.build, p);
        var configured := RemoveProc(Config(s.id), flags.config, inv.answers.config, built);
        RemoveSpares(Build(s.id), flags.build, inv.answers.build, p, q);
        RemoveSpares(Config(s.id), flags.config, inv.answers.config, built, q);
        RemoveSpares(HomeTree(s), flags.deploy, inv.answers.deploy, configured, q);
      } else {
        var built := if flags.build then BuildProc(s.id, inv.sources, p) else p;
        var configured := if flags.config then ConfigProc(s, built) else built;
        BuildStaysInside(s.id, inv.sources, p, q);
        ConfigStaysInside(s, built, q);
        DeployStaysInside(s, inv.machine, inv.installs, configured, q);
      }
    }
  }

  /** One of the arguments asks for the phase, by its name or by ALL. */
  ghost predicate Wants(inv: Invocation, phase: string)
    requires inv.argv != []
  {
    Asked(inv.argv[1..], "ALL") || Asked(inv.argv[1..], phase)
  }

  lemma ActionsWanted(inv: Invocation)
    requires inv.argv != []
    ensures var flags := inv.Actions();
            && (flags.build <==> Wants(inv, "build")) && (flags.config <==> Wants(inv, "config"))
            && (flags.deploy <==> Wants(inv, "deploy")) && (flags.clean <==> Asked(inv.argv[1..], "clean"))
  {
    hide Tokens, Asked;
    TokensAsked(inv.argv[1..], "ALL");
    TokensAsked(inv.argv[1..], "build");
    TokensAsked(inv.argv[1..], "config");
    TokensAsked(inv.argv[1..], "deploy");
    TokensAsked(inv.argv[1..], "clean");
  }

  /** One invocation, in full: with an id that is accepted and whose cluster is configured, clean alone if it
      is asked for, and otherwise the phases that are asked for, build before config before deploy, each
      where the one before has left off. */
  lemma InvokeIs(inv: Invocation, fs: FileMap)
    requires inv.argv != [] && inv.configured && Accepted(inv.argv[0])
    ensures var s, p := inv.settings.(id := inv.argv[0]), Proc(fs, true, inv.budget);
            InvokeProc(inv, fs) ==
            if Asked(inv.argv[1..], "clean") then
              CleanProc(s, Flags(Wants(inv, "config"), Wants(inv, "build"), Wants(inv, "deploy"), true), inv.answers, p)
            else
              var built := if Wants(inv, "build") then BuildProc(s.id, inv.sources, p) else p;
              var configured := if Wants(inv, "config") then ConfigProc(s, built) else built;
              if Wants(inv, "deploy") then DeployProc(s, inv.machine, inv.installs, configured) else configured
  {
    hide BuildProc, ConfigProc, DeployProc, CleanProc, Wants, Asked, Accepted, FlagsOf, Tokens;
    ActionsWanted(inv);
  }

  /** The tree of one of the phases that are asked for. */
  predicate InAsked(s: Settings, flags: Flags, tree: Tree) {
    (tree == Build(s.id) && flags.build) || (tree == Config(s.id) && flags.config)
    || (tree == Home(s.parent, s.id) && flags.deploy)
  }

  lemma PhasesTouch(inv: Invocation, s: Settings, flags: Flags, p: Proc, q: Path)
    requires !InAsked(s, flags, q.tree)
    ensures Same(q, PhasesProc(inv, s, flags, p).files, p.files)
  {
    hide BuildProc, ConfigProc, DeployProc;
    var built := if flags.build then BuildProc(s.id, inv.sources, p) else p;
    var configured := if flags.config then ConfigProc(s, built) else built;
    if flags.build { BuildStaysInside(s.id, inv.sources, p, q); }
    if flags.config { ConfigStaysInside(s, built, q); }
    if flags.deploy { DeployStaysInside(s, inv.machine, inv.installs, configured, q); }
  }

  /** An invocation changes a tree of the cluster only if the arguments ask for its phase. */
  lemma TouchesOnlyAsked(inv: Invocation, fs: FileMap, q: Path)
    requires inv.argv != [] && !Same(q, InvokeProc(inv, fs).files, fs)
    ensures var id := inv.argv[0];
            || (q.tree == Build(id) && Wants(inv, "build"))
            || (q.tree == Config(id) && Wants(inv, "config"))
            || (q.tree == Home(inv.settings.parent, id) && Wants(inv, "deploy"))
  {
    hide PhasesProc, CleanProc, Wants, Asked, Accepted, FlagsOf, Tokens, YES;
    ActionsWanted(inv);
    if inv.Valid() {
      var p, s, flags := Proc(fs, true, inv.budget), inv.Given(), inv.Actions();
      CleanTakes(s, flags, inv.answers, p, q);
      if !InAsked(s, flags, q.tree) {
        PhasesTouch(inv, s, flags, p, q);
      }
    }
  }

  /** The path text is the directory or lies below it. */
  predicate Under(dir: string, path: string) {
    path == dir || dir + "/" <= path
  }

  /** As texts, too, the homes of two accepted ids under one parent have nothing in common. */
  lemma HomesApart(parent: string, a: string, b: string, path: string)
    requires Accepted(a) && Accepted(b) && a != b
    ensures path == parent + "/" + a || parent + "/" + a + "/" <= path ==>
              path != parent + "/" + b && !(parent + "/" + b + "/" <= path)
  {
    if Under(parent + "/" + a, path) && Under(parent + "/" + b, path) {
      var front := parent + "/";
      var rest := path[|front|..];
      assert rest == a || a + "/" <= rest by { UnderRest(front, a, path); }
      assert rest == b || b + "/" <= rest by { UnderRest(front, b, path); }
      NoSlash(a);
      NoSlash(b);
      FirstPart(a, rest);
      FirstPart(b, rest);
    }
  }

  lemma UnderRest(front: string, id: string, path: string)
    requires Under(front + id, path)
    ensures |front| <= |path| && (path[|front|..] == id || id + "/" <= path[|front|..])
  {
    var home := front + id;
    assert home[|front|..] == id;
    if path != home {
      assert home + "/" == path[..|home| + 1];
      assert path[|front|..][..|id| + 1] == (home + "/")[|front|..] == id + "/";
    }
  }

  lemma NoSlash(id: string)
    requires Accepted(id)
    ensures '/' !in id
  {
    assert !IdChar('/');
  }

  lemma FirstPart(id: string, rest: string)
    requires '/' !in id && (rest == id || id + "/" <= rest)
    ensures id == rest[..Find(rest, '/')]
  {
    var tail := rest[|id|..];
    assert rest == id + tail;
    if rest != id {
      assert tail[0] == rest[..|id| + 1][|id|];
    }
    FindOf(id, '/', tail);
  }
}
