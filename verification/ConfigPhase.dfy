/** config() of redis_cluster.sh: from the node list to the per-instance configuration files,
    node scripts and the list of all nodes, ending with the marker CONFIG_SUCCESS. */
module ConfigPhase {
  import opened Files
  import opened Render
  import opened Text
  import opened Wrappers
  import Ini

  /** What the script reads: its settings, the lines of cluster_nodes.cfg, and the templates. */
  datatype Settings = Settings(
    parent: string,                  // cluster_parent_dir
    id: string,                      // clusterid
    nodesCfg: seq<string>,           // cluster_nodes.cfg
    auth: Option<string>,            // the password file, if it exists
    authName: string,                // its name
    templates: map<string, string>,  // instance templates by file name
    startSh: string, shutdownSh: string, connectSh: string, envSh: string, createSh: string,
    rdbDir: string, replicas: string, cacertDir: string,
    tls: string)                     // tls_enabled

  /* ---------- what the configuration says ---------- */

  function Nodes(s: Settings): seq<string> {
    SplitList(Ini.Read(s.nodesCfg, "redis_cluster", "nodes"))
  }

  function Host(s: Settings, node: string): string {
    Ini.Read(s.nodesCfg, node, "host")
  }

  function Ports(s: Settings, node: string): seq<string> {
    SplitList(Ini.Read(s.nodesCfg, node, "ports"))
  }

  function Addresses(s: Settings, node: string): string {
    Join(SplitList(Ini.Read(s.nodesCfg, node, "addrs")))
  }

  /** A template that cannot be read leaves the pipeline with no text, and goes unnoticed. */
  function Template(s: Settings, node: string): string {
    var name := Ini.Read(s.nodesCfg, node, "conf");
    if name in s.templates then s.templates[name] else ""
  }

  function HomeText(s: Settings): string {
    s.parent + "/" + s.id
  }

  /** $(cat file) drops trailing newlines. */
  function TrimNewlines(t: string): string {
    if t != "" && t[|t| - 1] == '\n' then TrimNewlines(t[..|t| - 1]) else t
  }

  function Newlines(n: nat): string {
    if n == 0 then "" else Newlines(n - 1) + "\n"
  }

  lemma {:induction false} TrimmedIs(t: string, n: nat)
    requires t == "" || t[|t| - 1] != '\n'
    ensures TrimNewlines(t + Newlines(n)) == t
  {
    if n == 0 {
      assert t + "" == t;
    } else {
      TrimmedIs(t, n - 1);
      var longer := t + Newlines(n);
      assert longer[..|longer| - 1] == t + Newlines(n - 1);
    }
  }

  /** Lines 283 to 291: "yes" is replaced by 1, which no later comparison with "yes" meets; all
      that remains of the setting is the comment tag. */
  function HashTag(s: Settings): string {
    if s.tls == "yes" then "" else "#!"
  }

  /* ---------- texts ---------- */

  function ConfPasses(s: Settings, node: string, port: string): seq<Pass> {
    [ Pass("CLUSTER_HOME_DIR", EscapeSlashes(HomeText(s))),
      Pass("CLUSTERID", s.id),
      Pass("NODEID", node),
      Pass("RDB_DIR", s.rdbDir),
      Pass("HOST", Host(s, node)),
      Pass("PORT", port),
      Pass("ADDRS", Addresses(s, node)),
      Pass("PASSWORD", TrimNewlines(s.auth.GetOr(""))),
      Pass("TLS_HASHTAG", HashTag(s)) ]
  }

  function InstanceConf(s: Settings, node: string, port: string): string {
    Pipeline(Template(s, node), ConfPasses(s, node, port))
  }

  /** The passes of start_redis.sh and shutdown_redis.sh. */
  function ScriptPasses(s: Settings, node: string): seq<Pass> {
    [ Pass("NODEID", node), Pass("NODEHOST", Host(s, node)), Pass("PORTS", Join(Ports(s, node))) ]
  }

  function ConnectPasses(s: Settings, node: string): seq<Pass>
    requires Ports(s, node) != []
  {
    [ Pass("NODEID", node), Pass("NODEHOST", Host(s, node)), Pass("PORT", Ports(s, node)[0]) ]
  }

  function EnvPasses(s: Settings): seq<Pass> {
    [ Pass("CLUSTERID", s.id), Pass("CLUSTERHOME", EscapeSlashes(HomeText(s))),
      Pass("CACERTDIR", s.cacertDir), Pass("CLUSTERREPLICAS", s.replicas) ]
  }

  function NodeLine(s: Settings, node: string, port: string): string {
    Host(s, node) + ":" + port + "\n"
  }

  /* ---------- paths ---------- */

  const ALL_NODES := "CLUSTER_ALL_NODES"
  const AUTH_PASS := "CLUSTER_AUTH_PASS"
  const MARKER := "CONFIG_SUCCESS"
  const MARKER_TEXT := "CONFIG_SUCCESS\n"
  const ENV_SH := "cluster_env.sh"
  const CREATE_SH := "create_cluster.sh"
  const START_SH := "start_redis.sh"
  const SHUTDOWN_SH := "shutdown_redis.sh"
  const CONNECT_SH := "connect_redis.sh"

  function Root(s: Settings): Path { Path(Config(s.id), []) }

  function InRoot(s: Settings, name: string): Path { Path(Config(s.id), [name]) }

  function NodeDir(s: Settings, node: string): Path { Path(Config(s.id), [node]) }

  function InNode(s: Settings, node: string, name: string): Path { Path(Config(s.id), [node, name]) }

  /** cp PASSWORDFILE "$cluster_config_dir/CLUSTER_AUTH_PASS" goes into the directory of that name if
      the first node is called so; for a later node of that name, mkdir meets the file. */
  function AuthDst(s: Settings): Path {
    if Nodes(s) != [] && Nodes(s)[0] == AUTH_PASS then InNode(s, AUTH_PASS, s.authName) else InRoot(s, AUTH_PASS)
  }

  function ConfName(node: string, port: string): string {
    "redis-" + node + "-" + port + ".conf"
  }

  /* ---------- the commands ---------- */

  function PortSteps(s: Settings, node: string, ports: seq<string>): seq<Step> {
    if ports == [] then []
    else
      PortSteps(s, node, ports[..|ports| - 1]) + OnePort(s, node, ports[|ports| - 1])
  }

  /** The list's line is written first. A name with a slash leads into a directory that is not there,
      so the redirection of the instance file fails and ends the script. The last sed puts in the
      comment tag, which it always accepts. */
  function OnePort(s: Settings, node: string, port: string): seq<Step> {
    [Append(InRoot(s, ALL_NODES), NodeLine(s, node, port))]
    + if '/' in ConfName(node, port) then [Halt]
      else Write(InNode(s, node, ConfName(node, port)), InstanceConf(s, node, port))
  }

  /** The exit status of a pipeline is that of its last command. */
  predicate Succeeds(passes: seq<Pass>) {
    passes != [] ==> SedAccepts(passes[|passes| - 1].raw)
  }

  /** cat template | sed ... > dst */
  function RenderSteps(dst: Path, template: string, passes: seq<Pass>): seq<Step> {
    if Succeeds(passes) then Write(dst, Pipeline(template, passes)) else [Create(dst), Halt]
  }

  /** A pipeline that lives long enough leaves its file and touches nothing else; the file is empty if
      any sed has stopped, but the script ends exactly if it was the last one. */
  lemma RenderOutcome(dst: Path, template: string, passes: seq<Pass>, p: Proc)
    requires p.alive && p.budget >= 2 && !IsDir(dst, p.files)
    ensures var r := Run(RenderSteps(dst, template, passes), p);
            && AgreeExcept(r.files, p.files, {dst}) && IsFile(dst, r.files)
            && (r.alive <==> passes != [] ==> SedAccepts(passes[|passes| - 1].raw))
            && TextAt(dst, r.files) == if exists w :: w in passes && !SedAccepts(w.raw) then ""
                                       else Pipeline(template, passes)
  {
    hide SedAccepts;
    var text := Pipeline(template, passes);
    RunTwo(Create(dst), Append(dst, text), p);
    RunTwo(Create(dst), Halt, p);
    assert "" + text == text;
    if exists w :: w in passes && !SedAccepts(w.raw) {
      RefusedEmpties(template, passes);
    }
    hide Pipeline, Run;
    assert passes != [] ==> passes[|passes| - 1] in passes;
  }

  /** Without a port, ${portslist[0]} is unset and ends the script. */
  function ConnectSteps(s: Settings, node: string): seq<Step> {
    if Ports(s, node) == [] then [Halt]
    else RenderSteps(InNode(s, node, CONNECT_SH), s.connectSh, ConnectPasses(s, node))
  }

  function ScriptSteps(s: Settings, node: string): seq<Step> {
    Write(AuthDst(s), s.auth.GetOr(""))
    + RenderSteps(InNode(s, node, START_SH), s.startSh, ScriptPasses(s, node))
    + RenderSteps(InNode(s, node, SHUTDOWN_SH), s.shutdownSh, ScriptPasses(s, node))
    + ConnectSteps(s, node)
  }

  function NodeSteps(s: Settings, node: string): seq<Step> {
    [MkDir(NodeDir(s, node))] + PortSteps(s, node, Ports(s, node)) + ScriptSteps(s, node)
  }

  function NodesSteps(s: Settings, nodes: seq<string>): seq<Step> {
    if nodes == [] then []
    else NodesSteps(s, nodes[..|nodes| - 1]) + NodeSteps(s, nodes[|nodes| - 1])
  }

  /** An unreadable password file ends the script. */
  function StartSteps(s: Settings): seq<Step> {
    [MkDir(Root(s))] + (if s.auth.None? then [Halt] else []) + [Create(InRoot(s, ALL_NODES))]
  }

  function FinalSteps(s: Settings): seq<Step> {
    RenderSteps(InRoot(s, ENV_SH), s.envSh, EnvPasses(s)) + Write(InRoot(s, CREATE_SH), s.createSh)
  }

  function ConfigWork(s: Settings): Phase {
    Phase(StartSteps(s) + NodesSteps(s, Nodes(s)) + FinalSteps(s),
          Create(InRoot(s, MARKER)), Append(InRoot(s, MARKER), MARKER_TEXT))
  }

  /** config() as a whole: refused if the marker is there. */
  function ConfigProc(s: Settings, p: Proc): Proc {
    if !p.alive then p
    else if IsFile(InRoot(s, MARKER), p.files) then p.(alive := false)
    else Run(ConfigWork(s).Steps(), p)
  }

  /* ---------- the script ---------- */

  method RenderTo(sh: Shell, dst: Path, template: string, passes: seq<Pass>)
    modifies sh
    ensures sh.proc == Run(RenderSteps(dst, template, passes), old(sh.proc))
  {
    if Succeeds(passes) {
      sh.Redirect(dst, Pipeline(template, passes));
    } else {
      sh.Issue(Create(dst));
      sh.Issue(Halt);
      RunTwo(Create(dst), Halt, old(sh.proc));
    }
  }

  method ConfigurePort(sh: Shell, s: Settings, node: string, port: string)
    modifies sh
    ensures sh.proc == Run(OnePort(s, node, port), old(sh.proc))
  {
    hide ConfPasses, Template, Pipeline;
    var p := old(sh.proc);
    var host, name := Host(s, node), ConfName(node, port);
    var line := Append(InRoot(s, ALL_NODES), host + ":" + port + "\n");
    sh.Issue(line);
    RunOne(line, p);
    if '/' in name {
      sh.Issue(Halt);
      RunOne(Halt, Run([line], p));
      RunConcat([line], [Halt], p);
    } else {
      var text := Pipeline(Template(s, node), ConfPasses(s, node, port));
      sh.Redirect(InNode(s, node, name), text);
      RunConcat([line], Write(InNode(s, node, name), text), p);
    }
  }

  method WriteScripts(sh: Shell, s: Settings, node: string, ports: seq<string>)
    requires ports == Ports(s, node)
    modifies sh
    ensures sh.proc == Run(ScriptSteps(s, node), old(sh.proc))
  {
    hide RenderSteps, Ports, AuthDst;
    var p := old(sh.proc);
    var auth := Write(AuthDst(s), s.auth.GetOr(""));
    var start := RenderSteps(InNode(s, node, START_SH), s.startSh, ScriptPasses(s, node));
    var shutdown := RenderSteps(InNode(s, node, SHUTDOWN_SH), s.shutdownSh, ScriptPasses(s, node));
    sh.Redirect(AuthDst(s), s.auth.GetOr(""));
    RenderTo(sh, InNode(s, node, START_SH), s.startSh, ScriptPasses(s, node));
    RenderTo(sh, InNode(s, node, SHUTDOWN_SH), s.shutdownSh, ScriptPasses(s, node));
    RunConcat(auth, start, p);
    RunConcat(auth + start, shutdown, p);
    if ports == [] {
      sh.Issue(Halt);
      RunOne(Halt, Run(auth + start + shutdown, p));
    } else {
      RenderTo(sh, InNode(s, node, CONNECT_SH), s.connectSh, ConnectPasses(s, node));
    }
    RunConcat(auth + start + shutdown, ConnectSteps(s, node), p);
  }

  method ConfigureNode(sh: Shell, s: Settings, node: string)
    modifies sh
    ensures sh.proc == Run(NodeSteps(s, node), old(sh.proc))
  {
    var p := old(sh.proc);
    var mk := [MkDir(NodeDir(s, node))];
    sh.Issue(MkDir(NodeDir(s, node)));
    RunOne(MkDir(NodeDir(s, node)), p);
    var ports := Ports(s, node);
    ConfigurePorts(sh, s, node, ports);
    RunConcat(mk, PortSteps(s, node, ports), p);
    WriteScripts(sh, s, node, ports);
    RunConcat(mk + PortSteps(s, node, ports), ScriptSteps(s, node), p);
  }

  method ConfigurePorts(sh: Shell, s: Settings, node: string, ports: seq<string>)
    modifies sh
    ensures sh.proc == Run(PortSteps(s, node, ports), old(sh.proc))
  {
    for k := 0 to |ports|
      invariant sh.proc == Run(PortSteps(s, node, ports[..k]), old(sh.proc))
    {
      ConfigurePort(sh, s, node, ports[k]);
      assert ports[..k + 1][..k] == ports[..k];
      RunConcat(PortSteps(s, node, ports[..k]), OnePort(s, node, ports[k]), old(sh.proc));
    }
    assert ports[..|ports|] == ports;
  }

  method StartConfig(sh: Shell, s: Settings)
    modifies sh
    ensures sh.proc == Run(StartSteps(s), old(sh.proc))
  {
    var p := old(sh.proc);
    sh.Issue(MkDir(Root(s)));
    if s.auth.None? {
      sh.Issue(Halt);
    }
    sh.Issue(Create(InRoot(s, ALL_NODES)));
    RunOne(MkDir(Root(s)), p);
    RunAppend([MkDir(Root(s))], Halt, p);
    assert [MkDir(Root(s))] + [] == [MkDir(Root(s))];
    RunAppend([MkDir(Root(s))] + (if s.auth.None? then [Halt] else []), Create(InRoot(s, ALL_NODES)), p);
  }

  lemma NothingRun(p: Proc)
    ensures Run([], p) == p
  {
  }

  method ConfigureNodes(sh: Shell, s: Settings)
    modifies sh
    ensures sh.proc == Run(NodesSteps(s, Nodes(s)), old(sh.proc))
  {
    hide NodeSteps, Nodes, Run;
    var nodes := Nodes(s);
    assert nodes[..0] == [];
    NothingRun(old(sh.proc));
    for n := 0 to |nodes|
      invariant sh.proc == Run(NodesSteps(s, nodes[..n]), old(sh.proc))
    {
      ConfigureNode(sh, s, nodes[n]);
      assert nodes[..n + 1][..n] == nodes[..n];
      RunConcat(NodesSteps(s, nodes[..n]), NodeSteps(s, nodes[n]), old(sh.proc));
    }
    assert nodes[..|nodes|] == nodes;
  }

  method Configure(sh: Shell, s: Settings)
    modifies sh
    ensures sh.proc == ConfigProc(s, old(sh.proc))
  {
    if !sh.proc.alive {
      return;
    }
    if IsFile(InRoot(s, MARKER), sh.proc.files) {
      sh.proc := sh.proc.(alive := false);
      return;
    }
    var p := sh.proc;
    StartConfig(sh, s);
    ConfigureNodes(sh, s);
    RunConcat(StartSteps(s), NodesSteps(s, Nodes(s)), p);
    FinishConfig(sh, s, StartSteps(s) + NodesSteps(s, Nodes(s)), p);
  }

  method FinishConfig(sh: Shell, s: Settings, done: seq<Step>, p: Proc)
    requires sh.proc == Run(done, p)
    modifies sh
    ensures sh.proc == Run(done + FinalSteps(s) + Write(InRoot(s, MARKER), MARKER_TEXT), p)
  {
    hide RenderSteps;
    var env, create := RenderSteps(InRoot(s, ENV_SH), s.envSh, EnvPasses(s)), Write(InRoot(s, CREATE_SH), s.createSh);
    RenderTo(sh, InRoot(s, ENV_SH), s.envSh, EnvPasses(s));
    sh.Redirect(InRoot(s, CREATE_SH), s.createSh);
    RunConcat(env, create, Run(done, p));
    RunConcat(done, FinalSteps(s), p);
    sh.Redirect(InRoot(s, MARKER), MARKER_TEXT);
    RunConcat(done + FinalSteps(s), Write(InRoot(s, MARKER), MARKER_TEXT), p);
  }

  /* ---------- config is a phase ---------- */

  lemma NamesDiffer()
    ensures MARKER != ALL_NODES && MARKER != AUTH_PASS && MARKER != ENV_SH && MARKER != CREATE_SH
    ensures ALL_NODES != AUTH_PASS && ALL_NODES != ENV_SH && ALL_NODES != CREATE_SH
  {
    assert MARKER[1] == 'O' && ALL_NODES[1] == 'L' && AUTH_PASS[1] == 'L';
    assert ENV_SH[0] == 'c' && CREATE_SH[0] == 'c' && MARKER[0] == 'C' && ALL_NODES[0] == 'C';
    assert ALL_NODES[9] == 'L' && AUTH_PASS[9] == 'U';
  }

  /** Steps that fit in after the list of nodes has been emptied. */
  ghost predicate Fits(s: Settings, steps: seq<Step>) {
    && Sound(steps, {InRoot(s, ALL_NODES)}, Config(s.id))
    && InRoot(s, MARKER) !in Written(steps)
  }

  lemma FitsConcat(s: Settings, a: seq<Step>, b: seq<Step>)
    requires Fits(s, a) && Fits(s, b)
    ensures Fits(s, a + b)
  {
    SoundMonotone(b, {InRoot(s, ALL_NODES)}, {InRoot(s, ALL_NODES)} + Targets(a), Config(s.id));
    SoundConcat(a, b, {InRoot(s, ALL_NODES)}, Config(s.id));
    WrittenConcat(a, b);
  }

  lemma FitsOne(s: Settings, step: Step)
    requires Ready(step, {InRoot(s, ALL_NODES)}, Config(s.id))
    requires Writes(step) ==> step.dst != InRoot(s, MARKER)
    ensures Fits(s, [step])
  {
    assert [step][..0] == [];
  }

  lemma FitsWrite(s: Settings, dst: Path, text: string)
    requires dst.tree == Config(s.id) && dst != InRoot(s, MARKER)
    ensures Fits(s, Write(dst, text))
  {
    var w := Write(dst, text);
    assert w[..0] == [] && w[..1] == [Create(dst)];
    assert Create(dst) in w[..1];
    assert dst in Targets(w[..1]);
  }

  lemma FitsRender(s: Settings, dst: Path, template: string, passes: seq<Pass>)
    requires dst.tree == Config(s.id) && dst != InRoot(s, MARKER)
    ensures Fits(s, RenderSteps(dst, template, passes))
  {
    hide Pipeline;
    if Succeeds(passes) {
      FitsWrite(s, dst, Pipeline(template, passes));
    } else {
      FitsOne(s, Create(dst));
      FitsOne(s, Halt);
      FitsConcat(s, [Create(dst)], [Halt]);
      assert [Create(dst)] + [Halt] == [Create(dst), Halt];
    }
  }

  lemma OnePortFits(s: Settings, node: string, port: string)
    ensures Fits(s, OnePort(s, node, port))
  {
    hide InstanceConf, NodeLine;
    NamesDiffer();
    var line := [Append(InRoot(s, ALL_NODES), NodeLine(s, node, port))];
    var conf := Write(InNode(s, node, ConfName(node, port)), InstanceConf(s, node, port));
    FitsOne(s, line[0]);
    FitsOne(s, Halt);
    FitsWrite(s, InNode(s, node, ConfName(node, port)), InstanceConf(s, node, port));
    FitsConcat(s, line, conf);
    FitsConcat(s, line, [Halt]);
  }

  lemma {:induction false} PortStepsFit(s: Settings, node: string, ports: seq<string>)
    ensures Fits(s, PortSteps(s, node, ports))
  {
    hide OnePort;
    if ports != [] {
      PortStepsFit(s, node, ports[..|ports| - 1]);
      OnePortFits(s, node, ports[|ports| - 1]);
      FitsConcat(s, PortSteps(s, node, ports[..|ports| - 1]), OnePort(s, node, ports[|ports| - 1]));
    }
  }

  lemma ScriptStepsFit(s: Settings, node: string)
    ensures Fits(s, ScriptSteps(s, node))
  {
    hide RenderSteps, ScriptPasses, ConnectPasses, Ports, Nodes;
    NamesDiffer();
    var auth := Write(AuthDst(s), s.auth.GetOr(""));
    var start := RenderSteps(InNode(s, node, START_SH), s.startSh, ScriptPasses(s, node));
    var shutdown := RenderSteps(InNode(s, node, SHUTDOWN_SH), s.shutdownSh, ScriptPasses(s, node));
    FitsWrite(s, AuthDst(s), s.auth.GetOr(""));
    FitsRender(s, InNode(s, node, START_SH), s.startSh, ScriptPasses(s, node));
    FitsRender(s, InNode(s, node, SHUTDOWN_SH), s.shutdownSh, ScriptPasses(s, node));
    FitsConcat(s, auth, start);
    FitsConcat(s, auth + start, shutdown);
    if Ports(s, node) == [] {
      FitsOne(s, Halt);
    } else {
      FitsRender(s, InNode(s, node, CONNECT_SH), s.connectSh, ConnectPasses(s, node));
    }
    FitsConcat(s, auth + start + shutdown, ConnectSteps(s, node));
  }

  lemma NodeStepsFit(s: Settings, node: string)
    ensures Fits(s, NodeSteps(s, node))
  {
    FitsOne(s, MkDir(NodeDir(s, node)));
    PortStepsFit(s, node, Ports(s, node));
    ScriptStepsFit(s, node);
    FitsConcat(s, [MkDir(NodeDir(s, node))], PortSteps(s, node, Ports(s, node)));
    FitsConcat(s, [MkDir(NodeDir(s, node))] + PortSteps(s, node, Ports(s, node)), ScriptSteps(s, node));
  }

  lemma {:induction false} NodesStepsFit(s: Settings, nodes: seq<string>)
    ensures Fits(s, NodesSteps(s, nodes))
  {
    hide NodeSteps;
    if nodes != [] {
      var init, last := nodes[..|nodes| - 1], nodes[|nodes| - 1];
      NodesStepsFit(s, init);
      NodeStepsFit(s, last);
      FitsConcat(s, NodesSteps(s, init), NodeSteps(s, last));
    }
  }

  lemma FinalStepsFit(s: Settings)
    ensures Fits(s, FinalSteps(s))
  {
    hide RenderSteps, EnvPasses;
    NamesDiffer();
    FitsRender(s, InRoot(s, ENV_SH), s.envSh, EnvPasses(s));
    FitsWrite(s, InRoot(s, CREATE_SH), s.createSh);
    FitsConcat(s, RenderSteps(InRoot(s, ENV_SH), s.envSh, EnvPasses(s)), Write(InRoot(s, CREATE_SH), s.createSh));
  }

  lemma StartStepsSound(s: Settings)
    ensures Sound(StartSteps(s), {}, Config(s.id))
    ensures Targets(StartSteps(s)) == {Root(s), InRoot(s, ALL_NODES)}
  {
    var steps := StartSteps(s);
    assert steps[0] == MkDir(Root(s)) && steps[|steps| - 1] == Create(InRoot(s, ALL_NODES));
    assert steps[0] in steps && steps[|steps| - 1] in steps;
  }

  lemma BodySound(s: Settings, start: seq<Step>, middle: seq<Step>, final: seq<Step>)
    requires Sound(start, {}, Config(s.id)) && Targets(start) == {Root(s), InRoot(s, ALL_NODES)}
    requires Fits(s, middle) && Fits(s, final)
    ensures Sound(start + middle + final, {}, Config(s.id))
    requires InRoot(s, MARKER) !in Written(start)
    ensures InRoot(s, MARKER) !in Written(start + middle + final)
  {
    hide Sound;
    var rest := middle + final;
    FitsConcat(s, middle, final);
    SoundMonotone(rest, {InRoot(s, ALL_NODES)}, {} + Targets(start), Config(s.id));
    SoundConcat(start, rest, {}, Config(s.id));
    assert start + middle + final == start + rest;
    WrittenConcat(start, rest);
  }

  /** config() is a phase in the sense of Files: everything it appends to it has emptied before,
      it reads nothing it wrote, and the marker comes last. */
  lemma ConfigWellFormed(s: Settings)
    ensures ConfigWork(s).WellFormed(Config(s.id))
  {
    hide NodesSteps, FinalSteps, Nodes;
    NamesDiffer();
    NodesStepsFit(s, Nodes(s));
    FinalStepsFit(s);
    StartStepsSound(s);
    BodySound(s, StartSteps(s), NodesSteps(s, Nodes(s)), FinalSteps(s));
    PhaseWellFormed(ConfigWork(s), Config(s.id));
  }

  /** The files after a series of invocations of config(), each killed after so many steps. */
  function Invocations(s: Settings, fs: FileMap, budgets: seq<nat>): FileMap {
    if budgets == [] then fs
    else
      var before := Invocations(s, fs, budgets[..|budgets| - 1]);
      ConfigProc(s, Proc(before, true, budgets[|budgets| - 1])).files
  }

  /** The files after one invocation that nobody interrupts. */
  function Completed(s: Settings, fs: FileMap): FileMap {
    ConfigProc(s, Proc(fs, true, |ConfigWork(s).Steps()|)).files
  }

  lemma ConfigIsAttempt(s: Settings, fs: FileMap, budget: nat)
    ensures ConfigWork(s).open == Create(InRoot(s, MARKER))
    ensures ConfigProc(s, Proc(fs, true, budget)).files == Attempt(ConfigWork(s), fs, budget)
  {
    assert ConfigWork(s).open == Create(InRoot(s, MARKER));
    hide ConfigWork, Run;
  }

  lemma {:induction false} InvocationsAreAttempts(s: Settings, fs: FileMap, budgets: seq<nat>)
    ensures Invocations(s, fs, budgets) == Attempts(ConfigWork(s), fs, budgets)
  {
    hide ConfigWork, ConfigProc, Attempt;
    ConfigIsAttempt(s, fs, 0);
    if budgets != [] {
      var init := budgets[..|budgets| - 1];
      InvocationsAreAttempts(s, fs, init);
      ConfigIsAttempt(s, Invocations(s, fs, init), budgets[|budgets| - 1]);
    }
  }

  lemma CompletedIsUninterrupted(s: Settings, fs: FileMap)
    ensures Completed(s, fs) == Uninterrupted(ConfigWork(s), fs)
  {
    assert ConfigWork(s).open == Create(InRoot(s, MARKER));
    hide ConfigWork, Run;
  }

  /** Crash and restart of config: whatever the configuration, and however often and wherever it
      has been killed, the next uninterrupted invocation leaves exactly the files it would have
      left at once, if and only if the marker does not stand there half-written. */
  lemma ConfigRestarts(s: Settings, fs: FileMap, budgets: seq<nat>)
    requires !IsFile(InRoot(s, MARKER), fs)
    ensures var c := Invocations(s, fs, budgets);
            Completed(s, c) == Completed(s, fs) <==>
            (IsFile(InRoot(s, MARKER), c) ==> TextAt(InRoot(s, MARKER), c) == MARKER_TEXT)
  {
    assert ConfigWork(s).open == Create(InRoot(s, MARKER))
           && ConfigWork(s).fill == Append(InRoot(s, MARKER), MARKER_TEXT);
    hide ConfigWork, Completed, Invocations, Attempts, Uninterrupted, Sound;
    ConfigWellFormed(s);
    InvocationsAreAttempts(s, fs, budgets);
    CompletedIsUninterrupted(s, fs);
    CompletedIsUninterrupted(s, Invocations(s, fs, budgets));
    RestartByText(ConfigWork(s), Config(s.id), fs, budgets);
  }

  /** Marker safety of config: wherever it has been killed, CONFIG_SUCCESS is there only if every
      other output is as an uninterrupted invocation leaves it. */
  lemma ConfigMarkerSafe(s: Settings, fs: FileMap, budgets: seq<nat>)
    requires !IsFile(InRoot(s, MARKER), fs)
    ensures var c := Invocations(s, fs, budgets);
            IsFile(InRoot(s, MARKER), c) ==> AgreeExcept(c, Completed(s, fs), {InRoot(s, MARKER)})
  {
    assert ConfigWork(s).open == Create(InRoot(s, MARKER));
    hide ConfigWork, Completed, Invocations, Attempts, Uninterrupted, Sound, AgreeExcept;
    ConfigWellFormed(s);
    InvocationsAreAttempts(s, fs, budgets);
    CompletedIsUninterrupted(s, fs);
    MarkerSafety(ConfigWork(s), Config(s.id), fs, budgets);
  }
}
