/** Everything the three phases leave behind, path by path, and that deploy() touches nothing else. */
module Outputs {
  import opened Agreement
  import opened ConfigPhase
  import opened Delivery
  import opened DeployPhase
  import opened Files
  import opened Names
  import opened Render
  import opened Text
  import BuildPhase
  import Ini

  /* ---------- build ---------- */

  /** No output behind this one has its name. */
  predicate LastOfName(outputs: seq<BuildPhase.Output>, k: nat) {
    k < |outputs| && forall j | k < j < |outputs| :: outputs[j].name != outputs[k].name
  }

  lemma {:induction false} EmitTargets(id: string, dir: string, outputs: seq<BuildPhase.Output>, p: Path)
    requires p in Targets(BuildPhase.Emit(id, dir, outputs))
    ensures exists o :: o in outputs && p == Path(Build(id), [dir, o.name])
  {
    var init, last := outputs[..|outputs| - 1], outputs[|outputs| - 1];
    assert last in outputs && forall o | o in init :: o in outputs;
    if p in Targets(BuildPhase.Emit(id, dir, init)) {
      EmitTargets(id, dir, init, p);
    }
  }

  lemma {:induction false} EmitKeepsAll(id: string, dir: string, outputs: seq<BuildPhase.Output>)
    ensures NoRemoval(BuildPhase.Emit(id, dir, outputs))
  {
    if outputs != [] {
      EmitKeepsAll(id, dir, outputs[..|outputs| - 1]);
    }
  }

  lemma {:induction false} EmitHolds(id: string, dir: string, outputs: seq<BuildPhase.Output>, k: nat, fs: FileMap)
    requires LastOfName(outputs, k)
    ensures Holds(Path(Build(id), [dir, outputs[k].name]), outputs[k].text,
                  All(BuildPhase.Emit(id, dir, outputs), fs))
  {
    var n := |outputs| - 1;
    var init, last := outputs[..n], outputs[n];
    var w := Write(Path(Build(id), [dir, last.name]), last.text);
    AllConcat(BuildPhase.Emit(id, dir, init), w, fs);
    AllWrite(Path(Build(id), [dir, last.name]), last.text, All(BuildPhase.Emit(id, dir, init), fs));
    if k < n {
      EmitHolds(id, dir, init, k, fs);
    }
  }

  /** A later batch leaves an output alone if it has none of its name. */
  lemma EmitSpares(id: string, dir: string, outputs: seq<BuildPhase.Output>, p: Path, text: string, fs: FileMap)
    requires Holds(p, text, fs) && forall o | o in outputs :: p != Path(Build(id), [dir, o.name])
    ensures Holds(p, text, All(BuildPhase.Emit(id, dir, outputs), fs))
  {
    EmitKeepsAll(id, dir, outputs);
    if p in Targets(BuildPhase.Emit(id, dir, outputs)) {
      EmitTargets(id, dir, outputs, p);
    }
    HoldsKept(BuildPhase.Emit(id, dir, outputs), p, text, fs);
  }

  /** Two batches of one directory are one. */
  lemma TwoBatches(id: string, dir: string, first: seq<BuildPhase.Output>, between: seq<Step>,
                   second: seq<BuildPhase.Output>, k: nat, fs: FileMap)
    requires LastOfName(first + second, k) && NoRemoval(between)
    requires forall o | o in first :: Path(Build(id), [dir, o.name]) !in Targets(between)
    ensures var o := (first + second)[k];
            Holds(Path(Build(id), [dir, o.name]), o.text,
                  All(BuildPhase.Emit(id, dir, first) + between + BuildPhase.Emit(id, dir, second), fs))
  {
    var a, c, o := BuildPhase.Emit(id, dir, first), BuildPhase.Emit(id, dir, second), (first + second)[k];
    var p := Path(Build(id), [dir, o.name]);
    AllConcat(a, between, fs);
    AllConcat(a + between, c, fs);
    if k < |first| {
      assert forall j | k < j < |first| :: (first + second)[j] == first[j];
      EmitHolds(id, dir, first, k, fs);
      HoldsKept(between, p, o.text, All(a, fs));
      forall q | q in second ensures q.name != o.name {
        var j :| 0 <= j < |second| && second[j] == q;
        assert (first + second)[|first| + j] == q;
      }
      EmitSpares(id, dir, second, p, o.text, All(a + between, fs));
    } else {
      assert forall j | k < j < |first + second| :: (first + second)[j] == second[j - |first|];
      assert LastOfName(second, k - |first|) by {
        forall j | k - |first| < j < |second| ensures second[j].name != o.name {
          assert (first + second)[|first| + j] == second[j];
        }
      }
      EmitHolds(id, dir, second, k - |first|, All(a + between, fs));
    }
  }

  /** Text that stands stays, behind steps that do not touch it. */
  lemma StaysBehind(steps: seq<Step>, after: seq<Step>, p: Path, text: string, fs: FileMap)
    requires Holds(p, text, All(steps, fs)) && p !in Targets(after) && NoRemoval(after)
    ensures Holds(p, text, All(steps + after, fs))
  {
    AllConcat(steps, after, fs);
    HoldsKept(after, p, text, All(steps, fs));
  }

  lemma OtherDir(id: string, dir: string, outputs: seq<BuildPhase.Output>, other: string, name: string)
    requires dir != other
    ensures Path(Build(id), [other, name]) !in Targets(BuildPhase.Emit(id, dir, outputs))
  {
    var p := Path(Build(id), [other, name]);
    if p in Targets(BuildPhase.Emit(id, dir, outputs)) {
      EmitTargets(id, dir, outputs, p);
    }
  }

  lemma TargetsSplit(a: seq<Step>, b: seq<Step>)
    ensures Targets(a + b) == Targets(a) + Targets(b)
    ensures NoRemoval(a + b) <==> NoRemoval(a) && NoRemoval(b)
  {
    assert forall t | t in a :: t in a + b;
    assert forall t | t in b :: t in a + b;
  }

  lemma SixParts(id: string, b: BuildPhase.Sources)
    requires BuildPhase.AllSucceed(b)
    ensures var redis, hiredis := "redis-" + b.redisVersion, "hiredis-" + b.hiredisVersion;
            BuildPhase.BuildWork(id, b).Steps() ==
            [MkDir(Path(Build(id), [redis]))] + BuildPhase.Emit(id, redis, b.unpackRedis.outputs)
            + [MkDir(Path(Build(id), [hiredis]))] + BuildPhase.Emit(id, hiredis, b.unpackHiredis.outputs)
            + BuildPhase.Emit(id, redis, b.makeRedis.outputs) + BuildPhase.Emit(id, hiredis, b.makeHiredis.outputs)
            + Write(Path(Build(id), ["BUILD_SUCCESS"]), "BUILD_SUCCESS\n")
  {
    hide BuildPhase.Emit;
  }

  /** Whether it is the name of a source directory. */
  lemma DirsApart(b: BuildPhase.Sources)
    ensures "redis-" + b.redisVersion != "hiredis-" + b.hiredisVersion
  {
    assert ("redis-" + b.redisVersion)[0] == 'r' && ("hiredis-" + b.hiredisVersion)[0] == 'h';
  }

  /** Two batches of one directory in the middle of other steps. */
  lemma InTheMiddle(id: string, dir: string, start: seq<Step>, first: seq<BuildPhase.Output>, between: seq<Step>,
                    second: seq<BuildPhase.Output>, after: seq<Step>, k: nat, fs: FileMap)
    requires LastOfName(first + second, k) && NoRemoval(between) && NoRemoval(after)
    requires forall name: string :: Path(Build(id), [dir, name]) !in Targets(between) + Targets(after)
    ensures var o := (first + second)[k];
            Holds(Path(Build(id), [dir, o.name]), o.text,
                  All(start + (BuildPhase.Emit(id, dir, first) + between + BuildPhase.Emit(id, dir, second)) + after,
                      fs))
  {
    var o, middle := (first + second)[k], BuildPhase.Emit(id, dir, first) + between + BuildPhase.Emit(id, dir, second);
    hide BuildPhase.Emit, Targets, All, NoRemoval, Holds;
    TwoBatches(id, dir, first, between, second, k, All(start, fs));
    AllConcat(start, middle, fs);
    StaysBehind(start + middle, after, Path(Build(id), [dir, o.name]), o.text, fs);
  }

  /** None of the steps touches a file of the directory. */
  ghost predicate Elsewhere(id: string, dir: string, steps: seq<Step>) {
    NoRemoval(steps) && forall name: string :: Path(Build(id), [dir, name]) !in Targets(steps)
  }

  lemma ElsewhereConcat(id: string, dir: string, a: seq<Step>, b: seq<Step>)
    requires Elsewhere(id, dir, a) && Elsewhere(id, dir, b)
    ensures Elsewhere(id, dir, a + b)
  {
    TargetsSplit(a, b);
  }

  lemma EmitElsewhere(id: string, dir: string, outputs: seq<BuildPhase.Output>, other: string)
    requires dir != other
    ensures Elsewhere(id, other, BuildPhase.Emit(id, dir, outputs))
  {
    EmitKeepsAll(id, dir, outputs);
    forall name: string ensures Path(Build(id), [other, name]) !in Targets(BuildPhase.Emit(id, dir, outputs)) {
      OtherDir(id, dir, outputs, other, name);
    }
  }

  lemma RootElsewhere(id: string, dir: string, name: string)
    ensures Elsewhere(id, dir, [MkDir(Path(Build(id), [name]))])
    ensures Elsewhere(id, dir, Write(Path(Build(id), ["BUILD_SUCCESS"]), "BUILD_SUCCESS\n"))
  {
  }

  lemma Regroup(a: seq<Step>, b: seq<Step>, c: seq<Step>, d: seq<Step>, e: seq<Step>, f: seq<Step>, g: seq<Step>)
    ensures a + b + c + d + e + f + g == a + (b + (c + d) + e) + (f + g)
    ensures a + b + c + d + e + f + g == a + b + c + (d + e + f) + g
  {
  }

  lemma RedisOutputs(id: string, b: BuildPhase.Sources, fs: FileMap, k: nat)
    requires BuildPhase.AllSucceed(b) && LastOfName(b.unpackRedis.outputs + b.makeRedis.outputs, k)
    ensures var o := (b.unpackRedis.outputs + b.makeRedis.outputs)[k];
            Holds(Path(Build(id), ["redis-" + b.redisVersion, o.name]), o.text,
                  All(BuildPhase.BuildWork(id, b).Steps(), fs))
  {
    hide BuildPhase.Emit, BuildPhase.BuildWork, All, Holds;
    var redis, hiredis := "redis-" + b.redisVersion, "hiredis-" + b.hiredisVersion;
    var start, a := [MkDir(Path(Build(id), [redis]))], BuildPhase.Emit(id, redis, b.unpackRedis.outputs);
    var mk, u := [MkDir(Path(Build(id), [hiredis]))], BuildPhase.Emit(id, hiredis, b.unpackHiredis.outputs);
    var m, h := BuildPhase.Emit(id, redis, b.makeRedis.outputs), BuildPhase.Emit(id, hiredis, b.makeHiredis.outputs);
    var marker := Write(Path(Build(id), ["BUILD_SUCCESS"]), "BUILD_SUCCESS\n");
    DirsApart(b);
    SixParts(id, b);
    RootElsewhere(id, redis, hiredis);
    EmitElsewhere(id, hiredis, b.unpackHiredis.outputs, redis);
    EmitElsewhere(id, hiredis, b.makeHiredis.outputs, redis);
    ElsewhereConcat(id, redis, mk, u);
    ElsewhereConcat(id, redis, h, marker);
    hide Targets, NoRemoval, Write;
    Regroup(start, a, mk, u, m, h, marker);
    InTheMiddle(id, redis, start, b.unpackRedis.outputs, mk + u, b.makeRedis.outputs, h + marker, k, fs);
  }

  lemma HiredisOutputs(id: string, b: BuildPhase.Sources, fs: FileMap, k: nat)
    requires BuildPhase.AllSucceed(b) && LastOfName(b.unpackHiredis.outputs + b.makeHiredis.outputs, k)
    ensures var o := (b.unpackHiredis.outputs + b.makeHiredis.outputs)[k];
            Holds(Path(Build(id), ["hiredis-" + b.hiredisVersion, o.name]), o.text,
                  All(BuildPhase.BuildWork(id, b).Steps(), fs))
  {
    hide BuildPhase.Emit, BuildPhase.BuildWork, All, Holds;
    var redis, hiredis := "redis-" + b.redisVersion, "hiredis-" + b.hiredisVersion;
    var start, a := [MkDir(Path(Build(id), [redis]))], BuildPhase.Emit(id, redis, b.unpackRedis.outputs);
    var mk, u := [MkDir(Path(Build(id), [hiredis]))], BuildPhase.Emit(id, hiredis, b.unpackHiredis.outputs);
    var m, h := BuildPhase.Emit(id, redis, b.makeRedis.outputs), BuildPhase.Emit(id, hiredis, b.makeHiredis.outputs);
    var marker := Write(Path(Build(id), ["BUILD_SUCCESS"]), "BUILD_SUCCESS\n");
    DirsApart(b);
    SixParts(id, b);
    RootElsewhere(id, hiredis, redis);
    EmitElsewhere(id, redis, b.makeRedis.outputs, hiredis);
    hide Targets, NoRemoval, Write;
    Regroup(start, a, mk, u, m, h, marker);
    InTheMiddle(id, hiredis, start + a + mk, b.unpackHiredis.outputs, m, b.makeHiredis.outputs, marker, k, fs);
  }

  /** A completed build() has left every file of tar and make in its directory, with the text written
      last under its name, and the marker. */
  lemma BuildOutputs(id: string, b: BuildPhase.Sources, p: Proc)
    requires p.alive && BuildPhase.BuildProc(id, b, p).alive
    ensures var r := BuildPhase.BuildProc(id, b, p).files;
            && (forall k: nat | LastOfName(b.unpackRedis.outputs + b.makeRedis.outputs, k) ::
                  var o := (b.unpackRedis.outputs + b.makeRedis.outputs)[k];
                  Holds(Path(Build(id), ["redis-" + b.redisVersion, o.name]), o.text, r))
            && (forall k: nat | LastOfName(b.unpackHiredis.outputs + b.makeHiredis.outputs, k) ::
                  var o := (b.unpackHiredis.outputs + b.makeHiredis.outputs)[k];
                  Holds(Path(Build(id), ["hiredis-" + b.hiredisVersion, o.name]), o.text, r))
            && Holds(Path(Build(id), ["BUILD_SUCCESS"]), "BUILD_SUCCESS\n", r)
  {
    hide BuildPhase.Emit, BuildPhase.BuildWork, BuildPhase.BuildProc, Targets, All, NoRemoval, Holds,
         BuildPhase.Clear, BuildPhase.HasRoom;
    var steps, rooted := BuildPhase.BuildWork(id, b).Steps(), p.files[BuildPhase.Root(id) := Dir];
    BuildPhase.BuildIs(id, b, p);
    RunIsPrefix(steps, rooted, p.budget - 1);
    BuildPhase.BuildReach(id, b, p.files);
    assert steps[..|steps|] == steps;
    forall k: nat | LastOfName(b.unpackRedis.outputs + b.makeRedis.outputs, k)
      ensures var o := (b.unpackRedis.outputs + b.makeRedis.outputs)[k];
              Holds(Path(Build(id), ["redis-" + b.redisVersion, o.name]), o.text, All(steps, rooted))
    {
      RedisOutputs(id, b, rooted, k);
    }
    forall k: nat | LastOfName(b.unpackHiredis.outputs + b.makeHiredis.outputs, k)
      ensures var o := (b.unpackHiredis.outputs + b.makeHiredis.outputs)[k];
              Holds(Path(Build(id), ["hiredis-" + b.hiredisVersion, o.name]), o.text, All(steps, rooted))
    {
      HiredisOutputs(id, b, rooted, k);
    }
    MarkerLast(id, b, rooted);
  }

  lemma MarkerLast(id: string, b: BuildPhase.Sources, fs: FileMap)
    requires BuildPhase.AllSucceed(b)
    ensures Holds(Path(Build(id), ["BUILD_SUCCESS"]), "BUILD_SUCCESS\n", All(BuildPhase.BuildWork(id, b).Steps(), fs))
  {
    var marker := Path(Build(id), ["BUILD_SUCCESS"]);
    var ph := BuildPhase.BuildWork(id, b);
    assert ph.Steps() == ph.body + Write(marker, "BUILD_SUCCESS\n");
    hide BuildPhase.BuildWork;
    AllConcat(ph.body, Write(marker, "BUILD_SUCCESS\n"), fs);
    AllWrite(marker, "BUILD_SUCCESS\n", All(ph.body, fs));
  }

  /** Whether build() begins to unpack: it is not committed, both packages are there, and neither has been
      unpacked. */
  lemma BuildGuards(id: string, b: BuildPhase.Sources, fs: FileMap, budget: nat)
    requires budget >= 2 && !IsFile(Path(Build(id), []), fs)
    requires Path(Build(id), ["redis-" + b.redisVersion]) !in fs
    ensures var r := BuildPhase.BuildProc(id, b, Proc(fs, true, budget)).files;
            IsDir(Path(Build(id), ["redis-" + b.redisVersion]), r) <==>
            && !IsFile(Path(Build(id), ["BUILD_SUCCESS"]), fs) && b.redisThere && b.hiredisThere
            && !IsDir(Path(Build(id), ["hiredis-" + b.hiredisVersion]), fs)
  {
    hide BuildPhase.BuildWork, BuildPhase.BuildProc, Run, All;
    var redis := BuildPhase.SourceDir(id, BuildPhase.RedisDir(b));
    assert redis == Path(Build(id), ["redis-" + b.redisVersion]);
    BuildPhase.BuildIs(id, b, Proc(fs, true, budget));
    if !IsFile(BuildPhase.Marker(id), fs) && BuildPhase.Clear(id, b, fs) {
      var steps, rooted := BuildPhase.BuildWork(id, b).Steps(), fs[BuildPhase.Root(id) := Dir];
      RunIsPrefix(steps, rooted, budget - 1);
      FirstGetsThrough(id, b, rooted);
      BuildPhase.LeavesDirs(id, b, rooted, Min(budget - 1, Reach(steps, rooted)));
    }
  }

  lemma FirstGetsThrough(id: string, b: BuildPhase.Sources, fs: FileMap)
    requires !IsFile(Path(Build(id), ["redis-" + b.redisVersion]), fs)
    ensures Reach(BuildPhase.BuildWork(id, b).Steps(), fs) >= 1
  {
    var steps, first := BuildPhase.BuildWork(id, b).Steps(), MkDir(Path(Build(id), ["redis-" + b.redisVersion]));
    assert steps[0] == first && steps[..0] == [];
    hide BuildPhase.BuildWork;
    ReachStops(steps, fs);
  }

  /* ---------- config ---------- */

  /** A completed config() has left, for every node and port of cluster_nodes.cfg, every file under the
      name the other scripts look for. */
  lemma ConfigOutputs(s: Settings, p: Proc)
    requires p.alive && ConfigProc(s, p).alive
    requires "CLUSTER_AUTH_PASS" !in SplitList(Ini.Read(s.nodesCfg, "redis_cluster", "nodes"))
    ensures var r, root := ConfigProc(s, p).files, Config(s.id);
            var nodes := SplitList(Ini.Read(s.nodesCfg, "redis_cluster", "nodes"));
            && Holds(Path(root, ["CLUSTER_ALL_NODES"]), AllLines(s, nodes), r)
            && Holds(Path(root, ["cluster_env.sh"]), Pipeline(s.envSh, EnvPasses(s)), r)
            && Holds(Path(root, ["create_cluster.sh"]), s.createSh, r)
            && Holds(Path(root, ["CONFIG_SUCCESS"]), "CONFIG_SUCCESS\n", r)
            && s.auth.Some? && (nodes != [] ==> Holds(Path(root, ["CLUSTER_AUTH_PASS"]), s.auth.value, r))
            && forall n | n in nodes ::
                 && Holds(Path(root, [n, "start_redis.sh"]), Pipeline(s.startSh, ScriptPasses(s, n)), r)
                 && Holds(Path(root, [n, "shutdown_redis.sh"]), Pipeline(s.shutdownSh, ScriptPasses(s, n)), r)
                 && Ports(s, n) != [] && Holds(Path(root, [n, "connect_redis.sh"]),
                                               Pipeline(s.connectSh, ConnectPasses(s, n)), r)
                 && forall port | port in SplitList(Ini.Read(s.nodesCfg, n, "ports")) ::
                      Holds(Path(root, [n, "redis-" + n + "-" + port + ".conf"]), InstanceConf(s, n, port), r)
  {
    var r := ConfigProc(s, p).files;
    ConfigEnds(s, p);
    assert Nodes(s) == SplitList(Ini.Read(s.nodesCfg, "redis_cluster", "nodes"));
    hide ConfigProc, ConfigFiles, ConfigWork, Holds, NodeFiles, AllLines, InstanceConf, Pipeline, EnvPasses, SplitList,
         Ini.Read, All, KindsAgree, NodesNamed, Fulfils, ScriptPasses;
    ConfigDelivers(s, p);
    RootSources(s, r);
    forall n | n in Nodes(s)
      ensures && Holds(Path(Config(s.id), [n, "start_redis.sh"]), Pipeline(s.startSh, ScriptPasses(s, n)), r)
              && Holds(Path(Config(s.id), [n, "shutdown_redis.sh"]), Pipeline(s.shutdownSh, ScriptPasses(s, n)), r)
              && Ports(s, n) != [] && Holds(Path(Config(s.id), [n, "connect_redis.sh"]),
                                            Pipeline(s.connectSh, ConnectPasses(s, n)), r)
              && forall port | port in SplitList(Ini.Read(s.nodesCfg, n, "ports")) ::
                   Holds(Path(Config(s.id), [n, "redis-" + n + "-" + port + ".conf"]), InstanceConf(s, n, port), r)
    {
      NodeFilesThere(s, n, r);
      NodeSources(s, n, r);
      assert NodeConfigurable(s, n);
    }
  }

  lemma RenderSpares(dst: Path, template: string, passes: seq<Pass>, p: Path)
    requires dst != p
    ensures p !in Targets(RenderSteps(dst, template, passes)) && NoRemoval(RenderSteps(dst, template, passes))
  {
    hide Pipeline, Succeeds;
  }

  /** The password file is put in place for every node, before its scripts. */
  lemma ScriptStepsAuth(s: Settings, node: string, fs: FileMap)
    requires AuthDst(s) !in {InNode(s, node, START_SH), InNode(s, node, SHUTDOWN_SH), InNode(s, node, CONNECT_SH)}
    ensures Holds(AuthDst(s), s.auth.GetOr(""), All(ScriptSteps(s, node), fs))
  {
    hide RenderSteps, ScriptPasses, ConnectPasses, Ports, AuthDst;
    var dst := AuthDst(s);
    var auth := Write(dst, s.auth.GetOr(""));
    var start := RenderSteps(InNode(s, node, START_SH), s.startSh, ScriptPasses(s, node));
    var shutdown := RenderSteps(InNode(s, node, SHUTDOWN_SH), s.shutdownSh, ScriptPasses(s, node));
    AllWrite(dst, s.auth.GetOr(""), fs);
    RenderSpares(InNode(s, node, START_SH), s.startSh, ScriptPasses(s, node), dst);
    RenderSpares(InNode(s, node, SHUTDOWN_SH), s.shutdownSh, ScriptPasses(s, node), dst);
    if Ports(s, node) != [] {
      RenderSpares(InNode(s, node, CONNECT_SH), s.connectSh, ConnectPasses(s, node), dst);
    }
    StaysBehind(auth, start, dst, s.auth.GetOr(""), fs);
    StaysBehind(auth + start, shutdown, dst, s.auth.GetOr(""), fs);
    StaysBehind(auth + start + shutdown, ConnectSteps(s, node), dst, s.auth.GetOr(""), fs);
  }

  lemma NodesStepsAuth(s: Settings, nodes: seq<string>, fs: FileMap)
    requires nodes != []
    requires forall n :: AuthDst(s) !in {InNode(s, n, START_SH), InNode(s, n, SHUTDOWN_SH), InNode(s, n, CONNECT_SH)}
    ensures Holds(AuthDst(s), s.auth.GetOr(""), All(NodesSteps(s, nodes), fs))
  {
    hide PortSteps, ScriptSteps, Ports, AuthDst;
    var init, node := nodes[..|nodes| - 1], nodes[|nodes| - 1];
    var front := [MkDir(NodeDir(s, node))] + PortSteps(s, node, Ports(s, node));
    AllConcat(NodesSteps(s, init), NodeSteps(s, node), fs);
    AllConcat(front, ScriptSteps(s, node), All(NodesSteps(s, init), fs));
    ScriptStepsAuth(s, node, All(front, All(NodesSteps(s, init), fs)));
  }

  lemma FinalSpares(s: Settings, p: Path)
    requires |p.rel| == 2
    ensures var last := FinalSteps(s) + Write(InRoot(s, MARKER), MARKER_TEXT); p !in Targets(last) && NoRemoval(last)
  {
    hide RenderSteps, EnvPasses;
    RenderSpares(InRoot(s, ENV_SH), s.envSh, EnvPasses(s), p);
    TargetsSplit(RenderSteps(InRoot(s, ENV_SH), s.envSh, EnvPasses(s)), Write(InRoot(s, CREATE_SH), s.createSh));
    TargetsSplit(FinalSteps(s), Write(InRoot(s, MARKER), MARKER_TEXT));
  }

  /** If the first node is called like the password file, its directory takes that in, under its own name. */
  lemma AuthInside(s: Settings, p: Proc)
    requires p.alive && ConfigProc(s, p).alive
    requires "CLUSTER_AUTH_PASS" in SplitList(Ini.Read(s.nodesCfg, "redis_cluster", "nodes"))
    requires s.authName !in {"start_redis.sh", "shutdown_redis.sh", "connect_redis.sh"}
    ensures s.auth.Some?
    ensures Holds(Path(Config(s.id), ["CLUSTER_AUTH_PASS", s.authName]), s.auth.value, ConfigProc(s, p).files)
  {
    var nodes := SplitList(Ini.Read(s.nodesCfg, "redis_cluster", "nodes"));
    var last := FinalSteps(s) + Write(InRoot(s, MARKER), MARKER_TEXT);
    assert Nodes(s) == nodes;
    ConfigEnds(s, p);
    hide ConfigProc, SplitList, Ini.Read, KindsAgree, Unobstructed, Nodes, ConfigWork, StartSteps, NodesSteps,
         FinalSteps, NodeConfigurable, All;
    assert AuthDst(s) == Path(Config(s.id), ["CLUSTER_AUTH_PASS", s.authName]);
    ConfigInParts(s);
    NodesStepsAuth(s, nodes, All(StartSteps(s), p.files));
    AllConcat(StartSteps(s), NodesSteps(s, nodes), p.files);
    FinalSpares(s, AuthDst(s));
    StaysBehind(StartSteps(s) + NodesSteps(s, nodes), last, AuthDst(s), s.auth.GetOr(""), p.files);
  }

  lemma ConfigInParts(s: Settings)
    ensures ConfigWork(s).Steps()
            == StartSteps(s) + NodesSteps(s, Nodes(s)) + (FinalSteps(s) + Write(InRoot(s, MARKER), MARKER_TEXT))
  {
    hide StartSteps, NodesSteps, FinalSteps, Nodes;
  }

  /** Whether config() begins at all is decided by its marker alone. */
  lemma ConfigGuard(s: Settings, p: Proc)
    requires p.alive && p.budget > 0 && Path(Config(s.id), []) !in p.files
    ensures IsDir(Path(Config(s.id), []), ConfigProc(s, p).files) <==>
            !IsFile(Path(Config(s.id), ["CONFIG_SUCCESS"]), p.files)
  {
    var root, rest := Path(Config(s.id), []), BehindRoot(s);
    var w := BehindRootKinds(s);
    ConfigParts(s);
    ConfigWellFormed(s);
    hide ConfigWork, BehindRoot, Run, Kinds, Sound;
    if !IsFile(InRoot(s, MARKER), p.files) {
      SoundTargets(ConfigWork(s).Steps(), {}, Config(s.id));
      assert forall t: Step | t in rest :: t in ConfigWork(s).Steps();
      RootMade(root, rest, w, (set n | n in Nodes(s)), p);
    }
  }

  /** A run that begins by making a directory has made it, whatever comes behind. */
  lemma RootMade(root: Path, rest: seq<Step>, w: set<string>, m: set<string>, p: Proc)
    requires p.alive && p.budget > 0 && root !in p.files && root.rel == []
    requires Kinds(root.tree, rest, w, m) && NoRemoval(rest)
    ensures IsDir(root, Run([MkDir(root)] + rest, p).files)
  {
    forall t: Step | t in rest && HasTarget(t) ensures t.dst != root {
      InWritten(rest, t);
    }
    hide Kinds, Written, Made, Run;
    var q := Run([MkDir(root)], p);
    RunOne(MkDir(root), p);
    RunConcat([MkDir(root)], rest, p);
    RunUntouched(rest, q, root);
  }

  /* ---------- deploy ---------- */

  /** Whether deploy() begins: build and config have committed, and no earlier deploy has. */
  lemma DeployGuards(s: Settings, m: Machine, installs: seq<Artifact>, p: Proc)
    requires p.alive && p.budget > 0 && Path(Home(s.parent, s.id), []) !in p.files
    ensures IsDir(Path(Home(s.parent, s.id), []), DeployProc(s, m, installs, p).files) <==>
            && IsFile(Path(Build(s.id), ["BUILD_SUCCESS"]), p.files)
            && IsFile(Path(Config(s.id), ["CONFIG_SUCCESS"]), p.files)
            && !IsFile(Path(Home(s.parent, s.id), ["CLUSTER_ALL_NODES"]), p.files)
  {
    var root, rest := Path(HomeTree(s), []), BehindHome(s, m, installs);
    var w, tools := BehindHomeKinds(s, m, installs);
    HomeParts(s, m, installs);
    DeployWellFormed(s, m, installs);
    hide DeployWork, BehindHome, Run, Kinds, Sound;
    if MayDeploy(s, p.files) {
      SoundTargets(DeployWork(s, m, installs).Steps(), {}, HomeTree(s));
      assert forall t: Step | t in rest :: t in DeployWork(s, m, installs).Steps();
      RootMade(root, rest, w + {ENV_SH, AUTH_PASS, ALL_NODES}, {s.rdbDir, "conf", "log", "run", "modules"} + tools, p);
    }
  }

  /** Two scripts of the home are two files. */
  lemma ScriptsApart(s: Settings, n: string, k: string)
    ensures StartDst(s, n) !in {ShutdownDst(s, k), ConnectDst(s, k), InHome(s, CREATE_SH)}
    ensures ShutdownDst(s, n) !in {ConnectDst(s, k), InHome(s, CREATE_SH)}
    ensures ConnectDst(s, n) != InHome(s, CREATE_SH)
    ensures StartDst(s, n) == StartDst(s, k) ==> n == k
    ensures ShutdownDst(s, n) == ShutdownDst(s, k) ==> n == k
    ensures ConnectDst(s, n) == ConnectDst(s, k) ==> n == k
  {
    assert StartName(n)[0] == 's' && StartName(n)[1] == 't';
    assert ShutdownName(n)[0] == 's' && ShutdownName(n)[1] == 'h' && ShutdownName(k)[1] == 'h';
    assert ConnectName(n)[0] == 'c' && ConnectName(n)[1] == 'o' && ConnectName(k)[0] == 'c';
    assert CREATE_SH[0] == 'c' && CREATE_SH[1] == 'r';
    NamesOnce(n, k);
    DstName(s, StartName(n), START_SH);
    DstName(s, StartName(k), START_SH);
    DstName(s, ShutdownName(n), SHUTDOWN_SH);
    DstName(s, ShutdownName(k), SHUTDOWN_SH);
    DstName(s, ConnectName(n), CONNECT_SH);
    DstName(s, ConnectName(k), CONNECT_SH);
    hide StartName, ShutdownName, ConnectName, ScriptDst;
  }

  lemma DstName(s: Settings, name: string, file: string)
    ensures ScriptDst(s, name, file).rel != [] && ScriptDst(s, name, file).rel[0] == name
  {
  }

  lemma NamesOnce(n: string, k: string)
    ensures StartName(n) == StartName(k) ==> n == k
    ensures ShutdownName(n) == ShutdownName(k) ==> n == k
    ensures ConnectName(n) == ConnectName(k) ==> n == k
  {
    if StartName(n) == StartName(k) { SameMiddle(n, k, "start_redis-", ".sh"); }
    if ShutdownName(n) == ShutdownName(k) { SameMiddle(n, k, "shutdown_redis-", ".sh"); }
    if ConnectName(n) == ConnectName(k) { SameMiddle(n, k, "connect_redis-", ".sh"); }
  }

  ghost predicate HasText(w: map<Path, string>, p: Path, text: string) {
    p in w && w[p] == text
  }

  lemma {:induction false} PortCopiesKeep(
      s: Settings, node: string, ports: seq<string>, w: map<Path, string>, p: Path, text: string)
    requires HasText(w, p, text) && (p.rel == [] || p.rel[0] != "conf")
    ensures HasText(PortCopies(s, node, ports, w), p, text)
  {
    hide InstanceConf;
    if ports != [] {
      PortCopiesKeep(s, node, ports[..|ports| - 1], w, p, text);
    }
  }

  /** The scripts of one node. */
  ghost predicate HasScripts(s: Settings, n: string, w: map<Path, string>) {
    && HasText(w, InHome(s, CREATE_SH), s.createSh) && HasText(w, StartDst(s, n), StartText(s, n))
    && HasText(w, ShutdownDst(s, n), ShutdownText(s, n)) && HasText(w, ConnectDst(s, n), ConnectText(s, n))
  }

  lemma ScriptCopiesHave(s: Settings, n: string, k: string, w: map<Path, string>)
    requires n == k || HasScripts(s, n, w)
    ensures HasScripts(s, n, ScriptCopies(s, k, w))
  {
    ScriptsApart(s, n, k);
    ScriptsApart(s, k, n);
    hide StartDst, ShutdownDst, ConnectDst, StartText, ShutdownText, ConnectText;
  }

  lemma NotConf(s: Settings, n: string)
    ensures InHome(s, CREATE_SH).rel[0] != "conf"
    ensures StartDst(s, n).rel[0] != "conf" && ShutdownDst(s, n).rel[0] != "conf" && ConnectDst(s, n).rel[0] != "conf"
  {
    ScriptsAlike(n);
    assert CREATE_SH[1] == 'r' && !ScriptLike("conf");
    hide StartName, ShutdownName, ConnectName, ScriptLike;
  }

  lemma {:induction false} NodeCopiesScripts(s: Settings, m: Machine, nodes: seq<string>, n: string)
    requires n in nodes && IsLocal(s, m, n)
    ensures HasScripts(s, n, NodeCopies(s, m, nodes))
  {
    hide PortCopies, ScriptCopies, IsLocal, Ports, StartText, ShutdownText, ConnectText, StartDst, ShutdownDst,
         ConnectDst;
    var init, node := nodes[..|nodes| - 1], nodes[|nodes| - 1];
    var w := NodeCopies(s, m, init);
    if n in init {
      NodeCopiesScripts(s, m, init, n);
    }
    if IsLocal(s, m, node) {
      var copied := PortCopies(s, node, Ports(s, node), w);
      if n in init {
        NotConf(s, n);
        PortCopiesKeep(s, node, Ports(s, node), w, InHome(s, CREATE_SH), s.createSh);
        PortCopiesKeep(s, node, Ports(s, node), w, StartDst(s, n), StartText(s, n));
        PortCopiesKeep(s, node, Ports(s, node), w, ShutdownDst(s, n), ShutdownText(s, n));
        PortCopiesKeep(s, node, Ports(s, node), w, ConnectDst(s, n), ConnectText(s, n));
      }
      ScriptCopiesHave(s, n, node, copied);
    }
  }

  /** No artifact behind this one goes to its place. */
  predicate LastInstalled(installs: seq<Artifact>, k: nat) {
    && k < |installs| && installs[k].Artifact?
    && forall j | k < j < |installs| && installs[j].Artifact? ::
         installs[j].dir != installs[k].dir || installs[j].name != installs[k].name
  }

  lemma {:induction false} InstalledHas(s: Settings, installs: seq<Artifact>, w: map<Path, string>, k: nat)
    requires LastInstalled(installs, k)
    ensures var a := installs[k];
            HasText(Installed(s, installs, w), Path(HomeTree(s), [DirName(a.dir), a.name]), a.text)
  {
    var init, last := installs[..|installs| - 1], installs[|installs| - 1];
    if k < |installs| - 1 {
      InstalledHas(s, init, w, k);
      if last.Artifact? {
        DirNamesDiffer(last.dir, installs[k].dir);
      }
    }
  }

  lemma DirNamesDiffer(d: InstallDir, e: InstallDir)
    ensures DirName(d) == DirName(e) ==> d == e
  {
    assert DirName(d)[0] == match d { case Bin => 'b' case Lib => 'l' case Include => 'i' };
    assert DirName(e)[0] == match e { case Bin => 'b' case Lib => 'l' case Include => 'i' };
  }

  /** What `make install` does not overwrite: everything but what lies in its own directories. */
  lemma {:induction false} InstalledSpares(
      s: Settings, installs: seq<Artifact>, w: map<Path, string>, p: Path, text: string)
    requires HasText(w, p, text) && (|p.rel| != 2 || p.rel[0] !in {"bin", "lib", "include"})
    ensures HasText(Installed(s, installs, w), p, text)
  {
    if installs != [] {
      InstalledSpares(s, installs[..|installs| - 1], w, p, text);
    }
  }

  /** Where a copy called NAME ends up: in the data directory, if that is called so. */
  function Placed(s: Settings, name: string, file: string): Path {
    Path(Home(s.parent, s.id), if s.rdbDir == name then [name, file] else [name])
  }

  lemma PlacedIs(s: Settings, n: string)
    ensures StartDst(s, n) == Placed(s, "start_redis-" + n + ".sh", "start_redis.sh")
    ensures ShutdownDst(s, n) == Placed(s, "shutdown_redis-" + n + ".sh", "shutdown_redis.sh")
    ensures ConnectDst(s, n) == Placed(s, "connect_redis-" + n + ".sh", "connect_redis.sh")
  {
  }

  lemma LookUp(fs: FileMap, want: map<Path, string>, p: Path, text: string)
    requires Fulfils(fs, want) && HasText(want, p, text)
    ensures Holds(p, text, fs)
  {
  }

  lemma EnvFiles(s: Settings, m: Machine, installs: seq<Artifact>, auth: string)
    ensures var w := DeployFiles(s, m, installs, auth);
            && HasText(w, InHome(s, ENV_SH), EnvText(s)) && HasText(w, InHome(s, AUTH_PASS), auth)
            && HasText(w, InHome(s, ALL_NODES), AllLines(s, Nodes(s)))
  {
    hide NodeCopies, Installed, Nodes, AllLines, EnvText;
    NamesDiffer();
    MoreNames();
  }

  lemma BehindInstalls(s: Settings, m: Machine, installs: seq<Artifact>, auth: string, p: Path, text: string)
    requires HasText(Installed(s, installs, NodeCopies(s, m, Nodes(s))), p, text)
    requires p.rel != [ENV_SH] && p.rel != [AUTH_PASS] && p.rel != [ALL_NODES]
    ensures HasText(DeployFiles(s, m, installs, auth), p, text)
  {
    hide NodeCopies, Installed, Nodes, AllLines, EnvText;
  }

  lemma ScriptPlaces(s: Settings, n: string, p: Path)
    requires p in {InHome(s, CREATE_SH), StartDst(s, n), ShutdownDst(s, n), ConnectDst(s, n)}
    ensures p.rel != [ENV_SH] && p.rel != [AUTH_PASS] && p.rel != [ALL_NODES]
    ensures |p.rel| != 2 || p.rel[0] !in {"bin", "lib", "include"}
  {
    ScriptsAlike(n);
    NamesDiffer();
    MoreNames();
    assert ENV_SH[0] == 'c' && ENV_SH[3] == 's' && AUTH_PASS[0] == 'C' && AUTH_PASS[3] == 'S' && ALL_NODES[0] == 'C'
           && ALL_NODES[3] == 'S';
    assert !ScriptLike("bin") && !ScriptLike("lib") && !ScriptLike("include");
    assert !ScriptLike(ENV_SH) && !ScriptLike(AUTH_PASS) && !ScriptLike(ALL_NODES);
    DstName(s, StartName(n), START_SH);
    DstName(s, ShutdownName(n), SHUTDOWN_SH);
    DstName(s, ConnectName(n), CONNECT_SH);
    hide StartName, ShutdownName, ConnectName, ScriptDst, ScriptLike;
  }

  lemma ScriptsDelivered(s: Settings, m: Machine, installs: seq<Artifact>, auth: string, r: FileMap, n: string)
    requires Fulfils(r, DeployFiles(s, m, installs, auth)) && n in Nodes(s) && IsLocal(s, m, n)
    ensures Holds(InHome(s, CREATE_SH), s.createSh, r) && Holds(StartDst(s, n), StartText(s, n), r)
    ensures Holds(ShutdownDst(s, n), ShutdownText(s, n), r) && Holds(ConnectDst(s, n), ConnectText(s, n), r)
  {
    NodeCopiesScripts(s, m, Nodes(s), n);
    hide NodeCopies, Installed, Nodes, IsLocal, DeployFiles, StartText, ShutdownText, ConnectText, StartDst,
         ShutdownDst, ConnectDst, Fulfils, Holds, HasText;
    OneDelivered(s, m, installs, auth, r, n, InHome(s, CREATE_SH), s.createSh);
    OneDelivered(s, m, installs, auth, r, n, StartDst(s, n), StartText(s, n));
    OneDelivered(s, m, installs, auth, r, n, ShutdownDst(s, n), ShutdownText(s, n));
    OneDelivered(s, m, installs, auth, r, n, ConnectDst(s, n), ConnectText(s, n));
  }

  lemma OneDelivered(s: Settings, m: Machine, installs: seq<Artifact>, auth: string, r: FileMap, n: string,
                     p: Path, text: string)
    requires Fulfils(r, DeployFiles(s, m, installs, auth)) && HasText(NodeCopies(s, m, Nodes(s)), p, text)
    requires p in {InHome(s, CREATE_SH), StartDst(s, n), ShutdownDst(s, n), ConnectDst(s, n)}
    ensures Holds(p, text, r)
  {
    ScriptPlaces(s, n, p);
    hide NodeCopies, Installed, Nodes, DeployFiles;
    InstalledSpares(s, installs, NodeCopies(s, m, Nodes(s)), p, text);
    BehindInstalls(s, m, installs, auth, p, text);
    LookUp(r, DeployFiles(s, m, installs, auth), p, text);
  }

  /** A completed deploy() has left, under the names the other scripts use, every script of every node of
      this machine, what make installs (under each name what was installed last), the environment, the
      password file and the list of all nodes; and the directories. */
  lemma DeployOutputs(s: Settings, m: Machine, installs: seq<Artifact>, p: Proc)
    requires Fulfils(p.files, ConfigFiles(s)) && p.alive && DeployProc(s, m, installs, p).alive
    ensures var r, home := DeployProc(s, m, installs, p).files, Home(s.parent, s.id);
            && Holds(Path(home, ["CLUSTER_ALL_NODES"]), AllLines(s, Nodes(s)), r)
            && Holds(Path(home, ["cluster_env.sh"]), Pipeline(s.envSh, EnvPasses(s)), r)
            && Holds(Path(home, ["CLUSTER_AUTH_PASS"]),
                     TextAt(Path(Config(s.id), ["CLUSTER_AUTH_PASS"]), p.files), r)
            && (forall n | n in SplitList(Ini.Read(s.nodesCfg, "redis_cluster", "nodes")) && IsLocal(s, m, n) ::
                  && Holds(Path(home, ["create_cluster.sh"]), s.createSh, r)
                  && Holds(Placed(s, "start_redis-" + n + ".sh", "start_redis.sh"), StartText(s, n), r)
                  && Holds(Placed(s, "shutdown_redis-" + n + ".sh", "shutdown_redis.sh"), ShutdownText(s, n), r)
                  && Holds(Placed(s, "connect_redis-" + n + ".sh", "connect_redis.sh"), ConnectText(s, n), r))
            && (forall k: nat | LastInstalled(installs, k) ::
                  var dir := match installs[k].dir { case Bin => "bin" case Lib => "lib" case Include => "include" };
                  Holds(Path(home, [dir, installs[k].name]), installs[k].text, r))
            && (forall dir | dir in {s.rdbDir, "conf", "log", "run", "modules"} :: IsDir(Path(home, [dir]), r))
  {
    var r, auth := DeployProc(s, m, installs, p).files, TextAt(InRoot(s, AUTH_PASS), p.files);
    var w := DeployFiles(s, m, installs, auth);
    DeployEnds(s, m, installs, p);
    assert Nodes(s) == SplitList(Ini.Read(s.nodesCfg, "redis_cluster", "nodes"));
    hide DeployProc, ConfigFiles, DeployFiles, Nodes, DeployWork, KindsAgree, All, Fulfils, MayDeploy, Holds, AllLines,
         Pipeline, EnvPasses, StartText, ShutdownText, ConnectText, IsLocal, SplitList, Ini.Read, HasText,
         Placed;
    DeployEffect(s, m, installs, auth, p.files);
    EnvFiles(s, m, installs, auth);
    LookUp(r, w, InHome(s, ENV_SH), EnvText(s));
    LookUp(r, w, InHome(s, AUTH_PASS), auth);
    LookUp(r, w, InHome(s, ALL_NODES), AllLines(s, Nodes(s)));
    forall n | n in Nodes(s) && IsLocal(s, m, n)
      ensures && Holds(InHome(s, CREATE_SH), s.createSh, r)
              && Holds(Placed(s, "start_redis-" + n + ".sh", "start_redis.sh"), StartText(s, n), r)
              && Holds(Placed(s, "shutdown_redis-" + n + ".sh", "shutdown_redis.sh"), ShutdownText(s, n), r)
              && Holds(Placed(s, "connect_redis-" + n + ".sh", "connect_redis.sh"), ConnectText(s, n), r)
    {
      ScriptsDelivered(s, m, installs, auth, r, n);
      PlacedIs(s, n);
    }
    forall k: nat | LastInstalled(installs, k)
      ensures Holds(Path(HomeTree(s), [DirName(installs[k].dir), installs[k].name]), installs[k].text, r)
    {
      var q := Path(HomeTree(s), [DirName(installs[k].dir), installs[k].name]);
      InstalledHas(s, installs, NodeCopies(s, m, Nodes(s)), k);
      BehindInstalls(s, m, installs, auth, q, installs[k].text);
      LookUp(r, w, q, installs[k].text);
    }
    DirsDelivered(s, m, installs, p.files);
  }

  lemma DirsDelivered(s: Settings, m: Machine, installs: seq<Artifact>, fs: FileMap)
    requires KindsAgree(DeployWork(s, m, installs).Steps(), fs)
    ensures forall dir | dir in {s.rdbDir, "conf", "log", "run", "modules"} ::
              IsDir(Path(Home(s.parent, s.id), [dir]), All(DeployWork(s, m, installs).Steps(), fs))
  {
    hide DeployWork, KindsAgree, All, Sound, BehindHome;
    var steps := DeployWork(s, m, installs).Steps();
    DeployWellFormed(s, m, installs);
    SoundTargets(steps, {}, HomeTree(s));
    var w, tools := BehindHomeKinds(s, m, installs);
    HomeParts(s, m, installs);
    MadeConcat([MkDir(Path(HomeTree(s), []))], BehindHome(s, m, installs));
    forall dir | dir in {s.rdbDir, "conf", "log", "run", "modules"}
      ensures IsDir(Path(Home(s.parent, s.id), [dir]), All(steps, fs))
    {
      KindAfter(steps, fs, InHome(s, dir));
    }
  }

  /* ---------- and nothing else ---------- */

  /** The paths a deploy() may change: its own, those of what make installs, and those of the nodes of this
      machine. */
  ghost predicate Deploys(s: Settings, m: Machine, q: Path) {
    q.tree == Home(s.parent, s.id) &&
    (|| q.rel in {[], [s.rdbDir], ["conf"], ["log"], ["run"], ["modules"], ["cluster_env.sh"], ["CLUSTER_AUTH_PASS"],
                  ["CLUSTER_ALL_NODES"]}
     || q.rel[0] in {"bin", "lib", "include"}
     || exists n :: n in SplitList(Ini.Read(s.nodesCfg, "redis_cluster", "nodes")) && IsLocal(s, m, n)
                    && DeploysNode(s, n, q))
  }

  ghost predicate DeploysNode(s: Settings, n: string, q: Path) {
    || q.rel == ["create_cluster.sh"]
    || q == Placed(s, "start_redis-" + n + ".sh", "start_redis.sh")
    || q == Placed(s, "shutdown_redis-" + n + ".sh", "shutdown_redis.sh")
    || q == Placed(s, "connect_redis-" + n + ".sh", "connect_redis.sh")
    || exists port :: port in SplitList(Ini.Read(s.nodesCfg, n, "ports"))
                      && q.rel == ["conf", "redis-" + n + "-" + port + ".conf"]
  }

  lemma {:induction false} CopyPortsTouch(s: Settings, n: string, ports: seq<string>)
    ensures forall t: Step | t in CopyPorts(s, n, ports) && HasTarget(t) ::
              exists port :: port in ports && t.dst == HomeConf(s, n, port)
  {
    hide ConfName;
    if ports != [] {
      var init, last := ports[..|ports| - 1], ports[|ports| - 1];
      CopyPortsTouch(s, n, init);
      assert last in ports && forall q | q in init :: q in ports;
    }
  }

  lemma CopyNodeTouches(s: Settings, n: string, t: Step)
    requires t in CopyPorts(s, n, Ports(s, n)) + CopyScripts(s, n) && HasTarget(t)
    ensures DeploysNode(s, n, t.dst) && t.dst.tree == HomeTree(s)
  {
    hide CopyPorts, CopyScripts, Ports, DeploysNode;
    if t in CopyPorts(s, n, Ports(s, n)) {
      CopyPortTouches(s, n, t);
    } else {
      CopyScriptTouches(s, n, t);
    }
  }

  lemma CopyPortTouches(s: Settings, n: string, t: Step)
    requires t in CopyPorts(s, n, Ports(s, n)) && HasTarget(t)
    ensures DeploysNode(s, n, t.dst) && t.dst.tree == HomeTree(s)
  {
    assert Ports(s, n) == SplitList(Ini.Read(s.nodesCfg, n, "ports"));
    hide SplitList, Ini.Read, CopyPorts, Placed;
    CopyPortsTouch(s, n, Ports(s, n));
  }

  lemma CopyScriptTouches(s: Settings, n: string, t: Step)
    requires t in CopyScripts(s, n) && HasTarget(t)
    ensures DeploysNode(s, n, t.dst) && t.dst.tree == HomeTree(s)
  {
    PlacedIs(s, n);
    DstTree(s, n);
    hide SplitList, Ini.Read, StartDst, ShutdownDst, ConnectDst, Placed;
  }

  lemma DstTree(s: Settings, n: string)
    ensures StartDst(s, n).tree == ShutdownDst(s, n).tree == ConnectDst(s, n).tree == HomeTree(s)
  {
  }

  lemma {:induction false} CopyNodesTouch(s: Settings, m: Machine, nodes: seq<string>, t: Step)
    requires t in CopyNodes(s, m, nodes) && HasTarget(t)
    ensures exists n :: n in nodes && IsLocal(s, m, n) && DeploysNode(s, n, t.dst)
    ensures t.dst.tree == HomeTree(s)
  {
    hide IsLocal, CopyPorts, CopyScripts, DeploysNode, Ports;
    var init, node := nodes[..|nodes| - 1], nodes[|nodes| - 1];
    if t in CopyNodes(s, m, init) {
      CopyNodesTouch(s, m, init, t);
    } else {
      CopyNodeTouches(s, node, t);
    }
  }

  lemma {:induction false} InstallTouches(s: Settings, installs: seq<Artifact>, t: Step)
    requires t in InstallSteps(s, installs) && HasTarget(t)
    ensures t.dst.tree == HomeTree(s) && t.dst.rel != [] && t.dst.rel[0] in {"bin", "lib", "include"}
  {
    var init := installs[..|installs| - 1];
    if t in InstallSteps(s, init) {
      InstallTouches(s, init, t);
    }
  }

  lemma OwnStepTouches(s: Settings, m: Machine, t: Step)
    requires t in DirSteps(s) || t in EnvSteps(s) + Copy(InHome(s, ALL_NODES), InRoot(s, ALL_NODES))
    ensures HasTarget(t) && Deploys(s, m, t.dst)
  {
    hide IsLocal, DeploysNode, SplitList, Ini.Read;
  }

  lemma NodeStepTouches(s: Settings, m: Machine, t: Step)
    requires t in CopyNodes(s, m, Nodes(s)) && HasTarget(t)
    ensures Deploys(s, m, t.dst)
  {
    CopyNodesTouch(s, m, Nodes(s), t);
    assert Nodes(s) == SplitList(Ini.Read(s.nodesCfg, "redis_cluster", "nodes"));
    hide IsLocal, CopyNodes, DeploysNode, SplitList, Ini.Read, Nodes;
  }

  lemma DeployStepTouches(s: Settings, m: Machine, installs: seq<Artifact>, t: Step)
    requires t in DeployWork(s, m, installs).Steps() && HasTarget(t)
    ensures Deploys(s, m, t.dst)
  {
    DeployParts(s, m, installs);
    hide IsLocal, CopyNodes, InstallSteps, DeploysNode, DeployWork, Nodes, DirSteps, EnvSteps, Copy;
    if t in CopyNodes(s, m, Nodes(s)) {
      NodeStepTouches(s, m, t);
    } else if t in InstallSteps(s, installs) {
      InstallTouches(s, installs, t);
    } else {
      hide Deploys;
      OwnStepTouches(s, m, t);
    }
  }

  lemma RunUntouched(steps: seq<Step>, p: Proc, q: Path)
    requires q !in Targets(steps) && NoRemoval(steps)
    ensures Same(q, Run(steps, p).files, p.files)
  {
    if p.alive {
      var k := Min(p.budget, Reach(steps, p.files));
      RunIsPrefix(steps, p.files, p.budget);
      PrefixTargets(steps, k);
      assert forall t: Step | t in steps[..k] :: t in steps;
      Untouched(steps[..k], p.files, q);
    } else {
      DeadRun(steps, p);
    }
  }

  lemma {:induction false} DeadRun(steps: seq<Step>, p: Proc)
    requires !p.alive
    ensures Run(steps, p) == p
  {
    if steps != [] {
      DeadRun(steps[..|steps| - 1], p);
    }
  }

  /** Completed, failed or killed, deploy() changes no other path: nothing of a node that does not run here,
      and nothing outside the home. */
  lemma DeployTouches(s: Settings, m: Machine, installs: seq<Artifact>, p: Proc, q: Path)
    requires !Deploys(s, m, q)
    ensures Same(q, DeployProc(s, m, installs, p).files, p.files)
  {
    hide DeployWork, Deploys, MayDeploy, Sound, Run;
    var steps := DeployWork(s, m, installs).Steps();
    DeployWellFormed(s, m, installs);
    SoundTargets(steps, {}, HomeTree(s));
    if q in Targets(steps) {
      var t :| t in steps && HasTarget(t) && t.dst == q;
      DeployStepTouches(s, m, installs, t);
    }
    RunUntouched(steps, p, q);
  }
}
