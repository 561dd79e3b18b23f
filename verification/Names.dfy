/** Names that get into each other's way: a node of config(), or the data directory of deploy(),
    called like a file that is written beside it. */
module Names {
  import opened ConfigPhase
  import opened DeployPhase
  import opened Files
  import opened Render
  import opened Text

  lemma MoreNames()
    ensures ENV_SH != CREATE_SH && AUTH_PASS != ENV_SH && AUTH_PASS != CREATE_SH
  {
    assert ENV_SH[1] == 'l' && CREATE_SH[1] == 'r' && AUTH_PASS[0] == 'C' && ENV_SH[0] == 'c' && CREATE_SH[0] == 'c';
  }

  /** The files beside the directories of the nodes, except the password file. */
  const ROOT_NAMES := [ALL_NODES, MARKER, ENV_SH, CREATE_SH]

  /** No node is called like one of them, and none like the password file after another node has
      brought that. */
  predicate NodesNamed(s: Settings) {
    (forall n | n in Nodes(s) :: n !in ROOT_NAMES)
    && (AUTH_PASS in Nodes(s) ==> Nodes(s)[0] == AUTH_PASS)
  }

  lemma RenderKinds(s: Settings, dst: Path, template: string, passes: seq<Pass>)
    requires dst.rel != []
    ensures Kinds(Config(s.id), RenderSteps(dst, template, passes), BelowRoot(Config(s.id), dst), {})
  {
    hide Pipeline, Succeeds;
    assert Create(dst) in RenderSteps(dst, template, passes);
    assert |dst.rel| == 1 ==> dst.rel == [dst.rel[0]];
    assert Written(RenderSteps(dst, template, passes)) == {dst} && Made(RenderSteps(dst, template, passes)) == {};
  }

  lemma OnePortKinds(s: Settings, node: string, port: string)
    ensures Kinds(Config(s.id), OnePort(s, node, port), {ALL_NODES}, {})
  {
    hide InstanceConf, NodeLine, ConfName;
    var line := Append(InRoot(s, ALL_NODES), NodeLine(s, node, port));
    var conf := Write(InNode(s, node, ConfName(node, port)), InstanceConf(s, node, port));
    KindsOne(line);
    HaltKinds(Config(s.id));
    WriteKinds(Config(s.id), InNode(s, node, ConfName(node, port)), InstanceConf(s, node, port));
    KindsConcat(Config(s.id), [line], conf, {ALL_NODES}, {}, {}, {}, {ALL_NODES}, {});
    KindsConcat(Config(s.id), [line], [Halt], {ALL_NODES}, {}, {}, {}, {ALL_NODES}, {});
  }

  lemma {:induction false} PortStepsKinds(s: Settings, node: string, ports: seq<string>)
    ensures Kinds(Config(s.id), PortSteps(s, node, ports), if ports == [] then {} else {ALL_NODES}, {})
  {
    hide OnePort, Kinds;
    if ports == [] {
      NoKinds(Config(s.id));
    } else {
      var init, port := ports[..|ports| - 1], ports[|ports| - 1];
      PortStepsKinds(s, node, init);
      OnePortKinds(s, node, port);
      KindsConcat(Config(s.id), PortSteps(s, node, init), OnePort(s, node, port),
                  if init == [] then {} else {ALL_NODES}, {}, {ALL_NODES}, {}, {ALL_NODES}, {});
    }
  }

  function AuthName(s: Settings): set<string> {
    BelowRoot(Config(s.id), AuthDst(s))
  }

  lemma AuthNameIs(s: Settings)
    ensures AuthName(s) == if Nodes(s) != [] && Nodes(s)[0] == AUTH_PASS then {} else {AUTH_PASS}
  {
    hide Nodes;
  }

  lemma ScriptStepsKinds(s: Settings, node: string)
    ensures Kinds(Config(s.id), ScriptSteps(s, node), AuthName(s), {})
  {
    assert AuthDst(s).rel != [] && BelowRoot(Config(s.id), InNode(s, node, START_SH)) == {}
           && BelowRoot(Config(s.id), InNode(s, node, SHUTDOWN_SH)) == {}
           && BelowRoot(Config(s.id), InNode(s, node, CONNECT_SH)) == {};
    hide RenderSteps, ScriptPasses, ConnectPasses, Ports, AuthDst, Kinds, BelowRoot;
    var auth := Write(AuthDst(s), s.auth.GetOr(""));
    var start := RenderSteps(InNode(s, node, START_SH), s.startSh, ScriptPasses(s, node));
    var shutdown := RenderSteps(InNode(s, node, SHUTDOWN_SH), s.shutdownSh, ScriptPasses(s, node));
    WriteKinds(Config(s.id), AuthDst(s), s.auth.GetOr(""));
    RenderKinds(s, InNode(s, node, START_SH), s.startSh, ScriptPasses(s, node));
    RenderKinds(s, InNode(s, node, SHUTDOWN_SH), s.shutdownSh, ScriptPasses(s, node));
    HaltKinds(Config(s.id));
    if Ports(s, node) != [] {
      RenderKinds(s, InNode(s, node, CONNECT_SH), s.connectSh, ConnectPasses(s, node));
    }
    KindsMore(Config(s.id), auth, start, AuthName(s));
    KindsMore(Config(s.id), auth + start, shutdown, AuthName(s));
    KindsMore(Config(s.id), auth + start + shutdown, ConnectSteps(s, node), AuthName(s));
  }

  /** The node's own directory is all it makes. */
  lemma NodeStepsKinds(s: Settings, node: string) returns (w: set<string>)
    ensures Kinds(Config(s.id), NodeSteps(s, node), w, {node}) && AuthName(s) <= w <= AuthName(s) + {ALL_NODES}
  {
    hide PortSteps, ScriptSteps, Ports, AuthName, Kinds;
    var mk, ports := MkDir(NodeDir(s, node)), Ports(s, node);
    var p := if ports == [] then {} else {ALL_NODES};
    PortStepsKinds(s, node, ports);
    ScriptStepsKinds(s, node);
    w := p + AuthName(s);
    DirKinds(Config(s.id), node);
    KindsConcat(Config(s.id), [mk], PortSteps(s, node, ports), {}, {node}, p, {}, p, {node});
    KindsConcat(Config(s.id), [mk] + PortSteps(s, node, ports), ScriptSteps(s, node), p, {node},
                AuthName(s), {}, w, {node});
  }

  lemma {:induction false} NodesStepsKinds(s: Settings, nodes: seq<string>) returns (w: set<string>)
    ensures Kinds(Config(s.id), NodesSteps(s, nodes), w, set n | n in nodes)
    ensures w <= {ALL_NODES} + (if nodes == [] then {} else AuthName(s)) <= {ALL_NODES} + w
  {
    hide NodeSteps, AuthName, Kinds;
    if nodes == [] {
      NoKinds(Config(s.id));
      w := {};
      assert (set n | n in nodes) == {};
    } else {
      var init, node := nodes[..|nodes| - 1], nodes[|nodes| - 1];
      var before := NodesStepsKinds(s, init);
      var here := NodeStepsKinds(s, node);
      var names := set n | n in init;
      w := before + here;
      assert nodes == init + [node];
      KindsConcat(Config(s.id), NodesSteps(s, init), NodeSteps(s, node), before, names, here, {node}, w,
                  set n | n in nodes);
    }
  }

  lemma FinalKinds(s: Settings)
    ensures Kinds(Config(s.id), FinalSteps(s) + Write(InRoot(s, MARKER), MARKER_TEXT), {ENV_SH, CREATE_SH, MARKER}, {})
  {
    assert BelowRoot(Config(s.id), InRoot(s, ENV_SH)) == {ENV_SH}
           && BelowRoot(Config(s.id), InRoot(s, CREATE_SH)) == {CREATE_SH}
           && BelowRoot(Config(s.id), InRoot(s, MARKER)) == {MARKER};
    hide RenderSteps, EnvPasses, Kinds, BelowRoot;
    var env := RenderSteps(InRoot(s, ENV_SH), s.envSh, EnvPasses(s));
    var create := Write(InRoot(s, CREATE_SH), s.createSh);
    RenderKinds(s, InRoot(s, ENV_SH), s.envSh, EnvPasses(s));
    WriteKinds(Config(s.id), InRoot(s, CREATE_SH), s.createSh);
    WriteKinds(Config(s.id), InRoot(s, MARKER), MARKER_TEXT);
    KindsConcat(Config(s.id), env, create, {ENV_SH}, {}, {CREATE_SH}, {}, {ENV_SH, CREATE_SH}, {});
    KindsConcat(Config(s.id), env + create, Write(InRoot(s, MARKER), MARKER_TEXT), {ENV_SH, CREATE_SH}, {},
                {MARKER}, {}, {ENV_SH, CREATE_SH, MARKER}, {});
  }

  /** What comes behind mkdir of the root. */
  function BehindRoot(s: Settings): seq<Step> {
    (if s.auth.None? then [Halt] else []) + [Create(InRoot(s, ALL_NODES))]
    + (NodesSteps(s, Nodes(s)) + (FinalSteps(s) + Write(InRoot(s, MARKER), MARKER_TEXT)))
  }

  lemma ConfigParts(s: Settings)
    ensures ConfigWork(s).Steps() == [MkDir(Path(Config(s.id), []))] + BehindRoot(s)
  {
    hide Nodes, NodesSteps, FinalSteps;
  }

  lemma ListKinds(s: Settings)
    ensures Kinds(Config(s.id), (if s.auth.None? then [Halt] else []) + [Create(InRoot(s, ALL_NODES))], {ALL_NODES}, {})
  {
    KindsOne(Create(InRoot(s, ALL_NODES)));
    HaltKinds(Config(s.id));
    NoKinds(Config(s.id));
    assert Kinds(Config(s.id), [Create(InRoot(s, ALL_NODES))], {ALL_NODES}, {});
    hide Kinds;
    KindsConcat(Config(s.id), if s.auth.None? then [Halt] else [], [Create(InRoot(s, ALL_NODES))],
                {}, {}, {ALL_NODES}, {}, {ALL_NODES}, {});
  }

  lemma BehindRootKinds(s: Settings) returns (w: set<string>)
    ensures Kinds(Config(s.id), BehindRoot(s), w, set n | n in Nodes(s))
    ensures w == {ALL_NODES, ENV_SH, CREATE_SH, MARKER} + if Nodes(s) == [] then {} else AuthName(s)
  {
    hide Nodes, NodesSteps, FinalSteps, Kinds, AuthName;
    var tree, names := Config(s.id), set n | n in Nodes(s);
    var list := (if s.auth.None? then [Halt] else []) + [Create(InRoot(s, ALL_NODES))];
    var nodes, last := NodesSteps(s, Nodes(s)), FinalSteps(s) + Write(InRoot(s, MARKER), MARKER_TEXT);
    ListKinds(s);
    var v := NodesStepsKinds(s, Nodes(s));
    FinalKinds(s);
    var end := v + {ENV_SH, CREATE_SH, MARKER};
    w := {ALL_NODES} + end;
    KindsConcat(tree, nodes, last, v, names, {ENV_SH, CREATE_SH, MARKER}, {}, end, names);
    KindsConcat(tree, list, nodes + last, {ALL_NODES}, {}, end, names, w, names);
  }

  /** The steps of config() do not get into each other's way exactly if no two names clash. */
  lemma ConfigKinds(s: Settings)
    ensures var steps := ConfigWork(s).Steps(); Made(steps) !! Written(steps) <==> NodesNamed(s)
  {
    hide *;
    var w := BehindRootKinds(s);
    ConfigParts(s);
    KindsClash(Config(s.id), BehindRoot(s), w, set n | n in Nodes(s));
    NamesClash(s, w);
  }

  lemma NamesClash(s: Settings, w: set<string>)
    requires w == {ALL_NODES, ENV_SH, CREATE_SH, MARKER} + if Nodes(s) == [] then {} else AuthName(s)
    ensures (set n | n in Nodes(s)) !! w <==> NodesNamed(s)
  {
    AuthNameIs(s);
    hide Nodes, AuthName;
    NamesDiffer();
    MoreNames();
    assert (set n | n in Nodes(s)) !! w <==> forall n | n in Nodes(s) :: n !in w;
    assert forall n | n in Nodes(s) && n != AUTH_PASS :: n in w <==> n in ROOT_NAMES;
    assert AUTH_PASS in Nodes(s) ==> (AUTH_PASS in w <==> Nodes(s)[0] != AUTH_PASS);
    assert AUTH_PASS !in ROOT_NAMES;
  }

  lemma AuthWritten(s: Settings)
    ensures InRoot(s, AUTH_PASS) in Written(ConfigWork(s).Steps()) <==> Nodes(s) != [] && Nodes(s)[0] != AUTH_PASS
  {
    AuthNameIs(s);
    NamesDiffer();
    MoreNames();
    hide Nodes, BehindRoot, ConfigWork, AuthName;
    var w := BehindRootKinds(s);
    ConfigParts(s);
    WrittenConcat([MkDir(Path(Config(s.id), []))], BehindRoot(s));
    KindsOne(MkDir(Path(Config(s.id), [])));
  }

  lemma NodeMade(s: Settings, node: string)
    requires node in Nodes(s)
    ensures InRoot(s, node) in Made(ConfigWork(s).Steps())
  {
    hide Nodes, BehindRoot, ConfigWork;
    var w := BehindRootKinds(s);
    ConfigParts(s);
    MadeConcat([MkDir(Path(Config(s.id), []))], BehindRoot(s));
  }

  /* ---------- in the home ---------- */

  predicate AnyLocal(s: Settings, m: Machine, nodes: seq<string>) {
    exists n :: n in nodes && IsLocal(s, m, n)
  }

  /** The data directory is not called like a file that deploy() copies into the home under its own
      name. */
  predicate HomeNamed(s: Settings, m: Machine) {
    && s.rdbDir !in {ENV_SH, AUTH_PASS, ALL_NODES}
    && (s.rdbDir == CREATE_SH ==> !AnyLocal(s, m, Nodes(s)))
  }

  /** start_redis-, shutdown_redis- or connect_redis-something. */
  predicate ScriptLike(name: string) {
    |name| > 3 && (name[0] == 's' || name[3] == 'n')
  }

  /** Right below the home the nodes' steps write create_cluster.sh and scripts. */
  predicate NodeNames(s: Settings, w: set<string>, any: bool) {
    && (CREATE_SH in w <==> any)
    && forall name | name in w && name != CREATE_SH :: ScriptLike(name) && name != s.rdbDir
  }

  lemma {:induction false} CopyPortsKinds(s: Settings, node: string, ports: seq<string>)
    ensures Kinds(HomeTree(s), CopyPorts(s, node, ports), {}, {})
  {
    hide Kinds, ConfName;
    if ports == [] {
      NoKinds(HomeTree(s));
    } else {
      var init, port := ports[..|ports| - 1], ports[|ports| - 1];
      CopyPortsKinds(s, node, init);
      CopyKinds(HomeTree(s), HomeConf(s, node, port), InNode(s, node, ConfName(node, port)));
      KindsMore(HomeTree(s), CopyPorts(s, node, init),
                Copy(HomeConf(s, node, port), InNode(s, node, ConfName(node, port))), {});
    }
  }

  lemma ScriptDstKinds(s: Settings, name: string, file: string)
    ensures ScriptDst(s, name, file).rel != []
    ensures BelowRoot(HomeTree(s), ScriptDst(s, name, file)) == {name} - {s.rdbDir}
  {
  }

  lemma ScriptsAlike(node: string)
    ensures ScriptLike(StartName(node)) && ScriptLike(ShutdownName(node)) && ScriptLike(ConnectName(node))
    ensures !ScriptLike(CREATE_SH)
  {
    assert StartName(node)[0] == 's' && ShutdownName(node)[0] == 's' && ConnectName(node)[3] == 'n';
    assert CREATE_SH[0] == 'c' && CREATE_SH[3] == 'a';
  }

  lemma CopyScriptsKinds(s: Settings, node: string) returns (w: set<string>)
    ensures Kinds(HomeTree(s), CopyScripts(s, node), w, {}) && NodeNames(s, w, true)
  {
    hide Kinds, Copy, ScriptDst, StartName, ShutdownName, ConnectName, ScriptLike;
    var tree := HomeTree(s);
    var a := Copy(InHome(s, CREATE_SH), InRoot(s, CREATE_SH));
    var b := Copy(StartDst(s, node), InNode(s, node, START_SH));
    var c := Copy(ShutdownDst(s, node), InNode(s, node, SHUTDOWN_SH));
    var d := Copy(ConnectDst(s, node), InNode(s, node, CONNECT_SH));
    var start, shutdown, connect := {StartName(node)} - {s.rdbDir}, {ShutdownName(node)} - {s.rdbDir},
                                    {ConnectName(node)} - {s.rdbDir};
    assert BelowRoot(tree, InHome(s, CREATE_SH)) == {CREATE_SH};
    ScriptDstKinds(s, StartName(node), START_SH);
    ScriptDstKinds(s, ShutdownName(node), SHUTDOWN_SH);
    ScriptDstKinds(s, ConnectName(node), CONNECT_SH);
    ScriptsAlike(node);
    hide BelowRoot;
    CopyKinds(tree, InHome(s, CREATE_SH), InRoot(s, CREATE_SH));
    CopyKinds(tree, StartDst(s, node), InNode(s, node, START_SH));
    CopyKinds(tree, ShutdownDst(s, node), InNode(s, node, SHUTDOWN_SH));
    CopyKinds(tree, ConnectDst(s, node), InNode(s, node, CONNECT_SH));
    var w2, w3 := {CREATE_SH} + start, {CREATE_SH} + start + shutdown;
    w := {CREATE_SH} + start + shutdown + connect;
    KindsConcat(tree, a, b, {CREATE_SH}, {}, start, {}, w2, {});
    KindsConcat(tree, a + b, c, w2, {}, shutdown, {}, w3, {});
    KindsConcat(tree, a + b + c, d, w3, {}, connect, {}, w, {});
  }

  lemma CopyNodeKinds(s: Settings, m: Machine, node: string) returns (w: set<string>)
    ensures Kinds(HomeTree(s), CopyNode(s, m, node), w, {}) && NodeNames(s, w, IsLocal(s, m, node))
  {
    hide Kinds, IsLocal, CopyPorts, CopyScripts, Ports, ScriptLike;
    if IsLocal(s, m, node) {
      CopyPortsKinds(s, node, Ports(s, node));
      w := CopyScriptsKinds(s, node);
      KindsConcat(HomeTree(s), CopyPorts(s, node, Ports(s, node)), CopyScripts(s, node), {}, {}, w, {}, w, {});
    } else {
      NoKinds(HomeTree(s));
      w := {};
    }
  }

  lemma {:induction false} CopyNodesKinds(s: Settings, m: Machine, nodes: seq<string>) returns (w: set<string>)
    ensures Kinds(HomeTree(s), CopyNodes(s, m, nodes), w, {}) && NodeNames(s, w, AnyLocal(s, m, nodes))
  {
    hide Kinds, IsLocal, CopyNode, ScriptLike;
    if nodes == [] {
      NoKinds(HomeTree(s));
      w := {};
    } else {
      var init, node := nodes[..|nodes| - 1], nodes[|nodes| - 1];
      var before := CopyNodesKinds(s, m, init);
      var here := CopyNodeKinds(s, m, node);
      w := before + here;
      assert nodes == init + [node];
      KindsConcat(HomeTree(s), CopyNodes(s, m, init), CopyNode(s, m, node), before, {}, here, {}, w, {});
      assert AnyLocal(s, m, nodes) <==> AnyLocal(s, m, init) || IsLocal(s, m, node);
    }
  }

  lemma InstallOneKinds(s: Settings, a: Artifact) returns (made: set<string>)
    ensures Kinds(HomeTree(s), InstallOne(s, a), {}, made) && made <= {"bin", "lib", "include"}
  {
    hide Kinds;
    var tree := HomeTree(s);
    match a {
      case Artifact(dir, name, text) =>
        made := {DirName(dir)};
        DirKinds(tree, DirName(dir));
        WriteKinds(tree, Path(tree, [DirName(dir), name]), text);
        KindsConcat(tree, [MkDir(InHome(s, DirName(dir)))], Write(Path(tree, [DirName(dir), name]), text),
                    {}, made, {}, {}, {}, made);
      case MakeFails =>
        made := {};
        HaltKinds(tree);
    }
  }

  lemma {:induction false} InstallKinds(s: Settings, installs: seq<Artifact>) returns (made: set<string>)
    ensures Kinds(HomeTree(s), InstallSteps(s, installs), {}, made) && made <= {"bin", "lib", "include"}
  {
    hide Kinds, InstallOne;
    if installs == [] {
      NoKinds(HomeTree(s));
      made := {};
    } else {
      var init, a := installs[..|installs| - 1], installs[|installs| - 1];
      var before := InstallKinds(s, init);
      var here := InstallOneKinds(s, a);
      made := before + here;
      KindsConcat(HomeTree(s), InstallSteps(s, init), InstallOne(s, a), {}, before, {}, here, {}, made);
    }
  }

  lemma EndKinds(s: Settings)
    ensures Kinds(HomeTree(s), EnvSteps(s) + Copy(InHome(s, ALL_NODES), InRoot(s, ALL_NODES)),
                  {ENV_SH, AUTH_PASS, ALL_NODES}, {})
  {
    assert BelowRoot(HomeTree(s), InHome(s, ENV_SH)) == {ENV_SH}
           && BelowRoot(HomeTree(s), InHome(s, AUTH_PASS)) == {AUTH_PASS}
           && BelowRoot(HomeTree(s), InHome(s, ALL_NODES)) == {ALL_NODES};
    hide Kinds, BelowRoot, Copy;
    var tree, list := HomeTree(s), ALL_NODES;
    CopyKinds(tree, InHome(s, ENV_SH), InRoot(s, ENV_SH));
    CopyKinds(tree, InHome(s, AUTH_PASS), InRoot(s, AUTH_PASS));
    CopyKinds(tree, InHome(s, list), InRoot(s, list));
    KindsConcat(tree, Copy(InHome(s, ENV_SH), InRoot(s, ENV_SH)), Copy(InHome(s, AUTH_PASS), InRoot(s, AUTH_PASS)),
                {ENV_SH}, {}, {AUTH_PASS}, {}, {ENV_SH, AUTH_PASS}, {});
    KindsConcat(tree, EnvSteps(s), Copy(InHome(s, list), InRoot(s, list)),
                {ENV_SH, AUTH_PASS}, {}, {list}, {}, {ENV_SH, AUTH_PASS, list}, {});
  }

  /** The directories behind mkdir of the home. */
  function Dirs(s: Settings): seq<Step> {
    [ MkDir(InHome(s, s.rdbDir)), MkDir(InHome(s, "conf")), MkDir(InHome(s, "log")), MkDir(InHome(s, "run")),
      MkDir(InHome(s, "modules")) ]
  }

  lemma DirsAre(s: Settings)
    ensures DirSteps(s) == [MkDir(Path(HomeTree(s), []))] + Dirs(s)
  {
  }

  lemma DirsKinds(s: Settings)
    ensures Kinds(HomeTree(s), Dirs(s), {}, {s.rdbDir, "conf", "log", "run", "modules"})
  {
    hide Kinds;
    var tree, rdb := HomeTree(s), s.rdbDir;
    var a, b, c := [MkDir(InHome(s, rdb))], [MkDir(InHome(s, "conf"))], [MkDir(InHome(s, "log"))];
    var d, e := [MkDir(InHome(s, "run"))], [MkDir(InHome(s, "modules"))];
    DirKinds(tree, rdb);
    DirKinds(tree, "conf");
    DirKinds(tree, "log");
    DirKinds(tree, "run");
    DirKinds(tree, "modules");
    KindsConcat(tree, a, b, {}, {rdb}, {}, {"conf"}, {}, {rdb, "conf"});
    KindsConcat(tree, a + b, c, {}, {rdb, "conf"}, {}, {"log"}, {}, {rdb, "conf", "log"});
    KindsConcat(tree, a + b + c, d, {}, {rdb, "conf", "log"}, {}, {"run"}, {}, {rdb, "conf", "log", "run"});
    KindsConcat(tree, a + b + c + d, e, {}, {rdb, "conf", "log", "run"}, {}, {"modules"}, {},
                {rdb, "conf", "log", "run", "modules"});
    assert Dirs(s) == a + b + c + d + e;
  }

  function BehindHome(s: Settings, m: Machine, installs: seq<Artifact>): seq<Step> {
    Dirs(s) + CopyNodes(s, m, Nodes(s)) + InstallSteps(s, installs)
    + (EnvSteps(s) + Copy(InHome(s, ALL_NODES), InRoot(s, ALL_NODES)))
  }

  lemma HomeParts(s: Settings, m: Machine, installs: seq<Artifact>)
    ensures DeployWork(s, m, installs).Steps() == [MkDir(Path(HomeTree(s), []))] + BehindHome(s, m, installs)
  {
    hide CopyNodes, InstallSteps, Nodes, EnvSteps, DirSteps, Dirs;
    DirsAre(s);
  }

  lemma BehindHomeKinds(s: Settings, m: Machine, installs: seq<Artifact>)
    returns (w: set<string>, tools: set<string>)
    ensures Kinds(HomeTree(s), BehindHome(s, m, installs), w + {ENV_SH, AUTH_PASS, ALL_NODES},
                  {s.rdbDir, "conf", "log", "run", "modules"} + tools)
    ensures NodeNames(s, w, AnyLocal(s, m, Nodes(s))) && tools <= {"bin", "lib", "include"}
  {
    hide *;
    var tree, dirs := HomeTree(s), {s.rdbDir, "conf", "log", "run", "modules"};
    var end := EnvSteps(s) + Copy(InHome(s, ALL_NODES), InRoot(s, ALL_NODES));
    var nodes, make := CopyNodes(s, m, Nodes(s)), InstallSteps(s, installs);
    DirsKinds(s);
    w := CopyNodesKinds(s, m, Nodes(s));
    tools := InstallKinds(s, installs);
    EndKinds(s);
    KindsConcat(tree, Dirs(s), nodes, {}, dirs, w, {}, w, dirs);
    KindsConcat(tree, Dirs(s) + nodes, make, w, dirs, {}, tools, w, dirs + tools);
    KindsConcat(tree, Dirs(s) + nodes + make, end, w, dirs + tools,
                {ENV_SH, AUTH_PASS, ALL_NODES}, {},
                w + {ENV_SH, AUTH_PASS, ALL_NODES}, dirs + tools);
    BehindHomeIs(s, m, installs);
  }

  lemma BehindHomeIs(s: Settings, m: Machine, installs: seq<Artifact>)
    ensures BehindHome(s, m, installs)
            == Dirs(s) + CopyNodes(s, m, Nodes(s)) + InstallSteps(s, installs)
               + (EnvSteps(s) + Copy(InHome(s, ALL_NODES), InRoot(s, ALL_NODES)))
  {
  }

  /** The steps of deploy() do not get into each other's way exactly if the data directory is not
      called like a copied file. */
  lemma HomeKinds(s: Settings, m: Machine, installs: seq<Artifact>)
    ensures var steps := DeployWork(s, m, installs).Steps(); Made(steps) !! Written(steps) <==> HomeNamed(s, m)
  {
    hide *;
    var w, tools := BehindHomeKinds(s, m, installs);
    var written := w + {ENV_SH, AUTH_PASS, ALL_NODES};
    var made := {s.rdbDir, "conf", "log", "run", "modules"} + tools;
    HomeParts(s, m, installs);
    KindsClash(HomeTree(s), BehindHome(s, m, installs), written, made);
    HomeClash(s, m, w, tools);
  }

  lemma HomeClash(s: Settings, m: Machine, w: set<string>, tools: set<string>)
    requires NodeNames(s, w, AnyLocal(s, m, Nodes(s))) && tools <= {"bin", "lib", "include"}
    ensures {s.rdbDir, "conf", "log", "run", "modules"} + tools !! w + {ENV_SH, AUTH_PASS, ALL_NODES}
            <==> HomeNamed(s, m)
  {
    hide AnyLocal, Nodes;
    assert CREATE_SH[0] == 'c' && CREATE_SH[1] == 'r' && ENV_SH[0] == 'c' && ENV_SH[1] == 'l' && AUTH_PASS[0] == 'C'
           && ALL_NODES[0] == 'C';
    forall name | name in {"conf", "log", "run", "modules", "bin", "lib", "include"}
      ensures name !in w + {ENV_SH, AUTH_PASS, ALL_NODES}
    {
      assert !ScriptLike(name) && name != CREATE_SH;
    }
  }

  lemma RdbMade(s: Settings, m: Machine, installs: seq<Artifact>)
    ensures InHome(s, s.rdbDir) in Made(DeployWork(s, m, installs).Steps())
  {
    hide BehindHome, DeployWork;
    var w, tools := BehindHomeKinds(s, m, installs);
    HomeParts(s, m, installs);
    MadeConcat([MkDir(Path(HomeTree(s), []))], BehindHome(s, m, installs));
  }
}
