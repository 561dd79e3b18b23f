/** From a completed config() to a deployed home: what deploy() puts there, and that the scripts
    it installs find the files they name. */
module Delivery {
  import opened Agreement
  import opened ConfigPhase
  import opened DeployPhase
  import opened Files
  import opened Names
  import opened Render
  import opened Text
  import Ini

  /* ---------- the expected home ---------- */

  function PortCopies(s: Settings, node: string, ports: seq<string>, w: map<Path, string>): map<Path, string> {
    if ports == [] then w
    else
      var port := ports[|ports| - 1];
      PortCopies(s, node, ports[..|ports| - 1], w)[HomeConf(s, node, port) := InstanceConf(s, node, port)]
  }

  function ScriptCopies(s: Settings, node: string, w: map<Path, string>): map<Path, string> {
    w[InHome(s, CREATE_SH) := s.createSh]
     [StartDst(s, node) := StartText(s, node)]
     [ShutdownDst(s, node) := ShutdownText(s, node)]
     [ConnectDst(s, node) := ConnectText(s, node)]
  }

  function NodeCopy(s: Settings, m: Machine, node: string, w: map<Path, string>): map<Path, string> {
    if IsLocal(s, m, node) then ScriptCopies(s, node, PortCopies(s, node, Ports(s, node), w)) else w
  }

  function NodeCopies(s: Settings, m: Machine, nodes: seq<string>): map<Path, string> {
    if nodes == [] then map[]
    else NodeCopy(s, m, nodes[|nodes| - 1], NodeCopies(s, m, nodes[..|nodes| - 1]))
  }

  function Installed(s: Settings, installs: seq<Artifact>, w: map<Path, string>): map<Path, string> {
    if installs == [] then w
    else
      var a, before := installs[|installs| - 1], Installed(s, installs[..|installs| - 1], w);
      if a.Artifact? then before[Path(HomeTree(s), [DirName(a.dir), a.name]) := a.text] else before
  }

  /** Everything a completed deploy() is for. */
  function DeployFiles(s: Settings, m: Machine, installs: seq<Artifact>, auth: string): map<Path, string> {
    Installed(s, installs, NodeCopies(s, m, Nodes(s)))
      [InHome(s, ENV_SH) := EnvText(s)]
      [InHome(s, AUTH_PASS) := auth]
      [InHome(s, ALL_NODES) := AllLines(s, Nodes(s))]
  }

  /* ---------- what config left is still there ---------- */

  lemma SourceKept(s: Settings, steps: seq<Step>, fs: FileMap, p: Path, text: string)
    requires DeployPhase.Fits(s, steps) && p.tree == Config(s.id) && Holds(p, text, fs)
    ensures Holds(p, text, All(steps, fs))
  {
    SoundTargets(steps, {}, HomeTree(s));
    Untouched(steps, fs, p);
  }

  lemma NodeFilesThere(s: Settings, node: string, fs: FileMap)
    requires Fulfils(fs, ConfigFiles(s)) && node in Nodes(s)
    ensures Fulfils(fs, NodeFiles(s, node))
  {
    hide Nodes, NodeFiles, NodesFiles, AllLines, EnvText;
    var all := ConfigFiles(s);
    NodesFilesKeys(s, Nodes(s));
    NodeFilesKeys(s, node);
    forall p | p in NodeFiles(s, node) ensures Holds(p, NodeFiles(s, node)[p], fs) {
      assert p in NodesFiles(s, Nodes(s)) && p in all && all[p] == NodesFiles(s, Nodes(s))[p];
      assert Holds(p, all[p], fs);
    }
  }

  lemma NodeSources(s: Settings, node: string, fs: FileMap)
    requires Fulfils(fs, NodeFiles(s, node))
    ensures forall port | port in Ports(s, node) ::
              Holds(InNode(s, node, ConfName(node, port)), InstanceConf(s, node, port), fs)
    ensures Holds(InNode(s, node, START_SH), StartText(s, node), fs)
    ensures Holds(InNode(s, node, SHUTDOWN_SH), ShutdownText(s, node), fs)
    ensures Holds(InNode(s, node, CONNECT_SH), ConnectText(s, node), fs)
  {
    hide Ports, PortFiles, InstanceConf, StartText, ShutdownText, ConnectText, Holds;
    var want := NodeFiles(s, node);
    PortFilesKeys(s, node, Ports(s, node));
    ScriptNames(node, "");
    assert InNode(s, node, START_SH) in want && InNode(s, node, SHUTDOWN_SH) in want
           && InNode(s, node, CONNECT_SH) in want;
    forall port | port in Ports(s, node)
      ensures Holds(InNode(s, node, ConfName(node, port)), InstanceConf(s, node, port), fs)
    {
      ScriptNames(node, port);
      assert InNode(s, node, ConfName(node, port)) in want;
    }
  }

  lemma RootSources(s: Settings, fs: FileMap)
    requires Fulfils(fs, ConfigFiles(s))
    ensures Holds(InRoot(s, CREATE_SH), s.createSh, fs) && Holds(InRoot(s, ENV_SH), EnvText(s), fs)
    ensures Holds(InRoot(s, ALL_NODES), AllLines(s, Nodes(s)), fs) && Holds(InRoot(s, MARKER), MARKER_TEXT, fs)
    ensures Nodes(s) != [] ==> Holds(InRoot(s, AUTH_PASS), s.auth.GetOr(""), fs)
  {
    hide Nodes, NodesFiles, AllLines, EnvText;
    var all := ConfigFiles(s);
    NamesDiffer();
    MoreNames();
    assert InRoot(s, CREATE_SH) in all && InRoot(s, ENV_SH) in all && InRoot(s, ALL_NODES) in all
           && InRoot(s, MARKER) in all && (Nodes(s) != [] ==> InRoot(s, AUTH_PASS) in all);
    assert Holds(InRoot(s, CREATE_SH), all[InRoot(s, CREATE_SH)], fs);
  }

  /* ---------- deploy, part by part ---------- */

  lemma {:induction false} CopyPortsEffect(
      s: Settings, node: string, ports: seq<string>, before: seq<Step>, fs: FileMap, w: map<Path, string>)
    requires DeployPhase.Fits(s, before) && Fulfils(All(before, fs), w)
    requires forall port | port in ports ::
               Holds(InNode(s, node, ConfName(node, port)), InstanceConf(s, node, port), fs)
    ensures DeployPhase.Fits(s, before + CopyPorts(s, node, ports))
    ensures Fulfils(All(before + CopyPorts(s, node, ports), fs), PortCopies(s, node, ports, w))
  {
    hide InstanceConf;
    if ports == [] {
      assert before + [] == before;
    } else {
      var init, port := ports[..|ports| - 1], ports[|ports| - 1];
      var dst, src := HomeConf(s, node, port), InNode(s, node, ConfName(node, port));
      assert port in ports && forall q | q in init :: q in ports;
      CopyPortsEffect(s, node, init, before, fs, w);
      var steps := before + CopyPorts(s, node, init);
      SourceKept(s, steps, fs, src, InstanceConf(s, node, port));
      CopyFulfils(steps, dst, src, InstanceConf(s, node, port), fs, PortCopies(s, node, init, w));
      CopyPortsFit(s, node, ports);
      DeployPhase.FitsConcat(s, before, CopyPorts(s, node, ports));
      assert before + CopyPorts(s, node, ports) == steps + Copy(dst, src);
    }
  }

  lemma CopyScriptsEffect(s: Settings, node: string, before: seq<Step>, fs: FileMap, w: map<Path, string>)
    requires DeployPhase.Fits(s, before) && Fulfils(All(before, fs), w)
    requires Fulfils(fs, ConfigFiles(s)) && node in Nodes(s)
    ensures DeployPhase.Fits(s, before + CopyScripts(s, node))
    ensures Fulfils(All(before + CopyScripts(s, node), fs), ScriptCopies(s, node, w))
  {
    hide StartText, ShutdownText, ConnectText, ConfigFiles, Nodes, NodeFiles, Ports, DeployPhase.Fits, Fulfils, Holds;
    NodeFilesThere(s, node, fs);
    NodeSources(s, node, fs);
    RootSources(s, fs);
    HomeNamesDiffer(node);
    var a := Copy(InHome(s, CREATE_SH), InRoot(s, CREATE_SH));
    var b := Copy(StartDst(s, node), InNode(s, node, START_SH));
    var c := Copy(ShutdownDst(s, node), InNode(s, node, SHUTDOWN_SH));
    var w1 := w[InHome(s, CREATE_SH) := s.createSh];
    var w2 := w1[StartDst(s, node) := StartText(s, node)];
    var w3 := w2[ShutdownDst(s, node) := ShutdownText(s, node)];
    CopyStep(s, before, InHome(s, CREATE_SH), InRoot(s, CREATE_SH), s.createSh, fs, w);
    CopyStep(s, before + a, StartDst(s, node), InNode(s, node, START_SH), StartText(s, node), fs, w1);
    CopyStep(s, before + a + b, ShutdownDst(s, node), InNode(s, node, SHUTDOWN_SH),
             ShutdownText(s, node), fs, w2);
    CopyStep(s, before + a + b + c, ConnectDst(s, node), InNode(s, node, CONNECT_SH),
             ConnectText(s, node), fs, w3);
    assert before + CopyScripts(s, node)
           == before + a + b + c + Copy(ConnectDst(s, node), InNode(s, node, CONNECT_SH));
  }

  lemma CopyStep(s: Settings, before: seq<Step>, dst: Path, src: Path, text: string, fs: FileMap, w: map<Path, string>)
    requires DeployPhase.Fits(s, before) && Fulfils(All(before, fs), w) && Holds(src, text, fs)
    requires src.tree == Config(s.id) && dst.tree == HomeTree(s) && dst != InHome(s, ALL_NODES)
    ensures DeployPhase.Fits(s, before + Copy(dst, src))
    ensures Fulfils(All(before + Copy(dst, src), fs), w[dst := text])
  {
    SourceKept(s, before, fs, src, text);
    CopyFulfils(before, dst, src, text, fs, w);
    FitsCopy(s, dst, src);
    DeployPhase.FitsConcat(s, before, Copy(dst, src));
  }

  lemma CopyNodeEffect(s: Settings, m: Machine, node: string, before: seq<Step>, fs: FileMap, w: map<Path, string>)
    requires DeployPhase.Fits(s, before) && Fulfils(All(before, fs), w)
    requires Fulfils(fs, ConfigFiles(s)) && node in Nodes(s)
    ensures DeployPhase.Fits(s, before + CopyNode(s, m, node))
    ensures Fulfils(All(before + CopyNode(s, m, node), fs), NodeCopy(s, m, node, w))
  {
    hide ConfigFiles, Nodes, NodeFiles, Ports, IsLocal, CopyPorts, CopyScripts, InstanceConf, PortCopies, ScriptCopies,
         DeployPhase.Fits, Fulfils, Holds, All;
    if IsLocal(s, m, node) {
      var ports := CopyPorts(s, node, Ports(s, node));
      NodeFilesThere(s, node, fs);
      NodeSources(s, node, fs);
      CopyPortsEffect(s, node, Ports(s, node), before, fs, w);
      CopyScriptsEffect(s, node, before + ports, fs, PortCopies(s, node, Ports(s, node), w));
      assert before + (ports + CopyScripts(s, node)) == before + ports + CopyScripts(s, node);
    } else {
      assert before + [] == before;
    }
  }

  lemma {:induction false} CopyNodesEffect(s: Settings, m: Machine, nodes: seq<string>, before: seq<Step>, fs: FileMap)
    requires DeployPhase.Fits(s, before) && Fulfils(fs, ConfigFiles(s)) && forall n | n in nodes :: n in Nodes(s)
    ensures DeployPhase.Fits(s, before + CopyNodes(s, m, nodes))
    ensures Fulfils(All(before + CopyNodes(s, m, nodes), fs), NodeCopies(s, m, nodes))
  {
    hide ConfigFiles, Nodes, CopyNode, NodeCopy, DeployPhase.Fits, All;
    if nodes == [] {
      assert before + [] == before;
    } else {
      var init, node := nodes[..|nodes| - 1], nodes[|nodes| - 1];
      assert node in nodes && forall n | n in init :: n in nodes;
      CopyNodesEffect(s, m, init, before, fs);
      CopyNodeEffect(s, m, node, before + CopyNodes(s, m, init), fs, NodeCopies(s, m, init));
      assert before + CopyNodes(s, m, nodes) == before + CopyNodes(s, m, init) + CopyNode(s, m, node);
    }
  }

  /** None of these files stands where make install makes a directory. */
  ghost predicate SparesTools(s: Settings, w: map<Path, string>) {
    forall d: InstallDir :: InHome(s, DirName(d)) !in w
  }

  lemma {:induction false} PortCopiesSpare(s: Settings, node: string, ports: seq<string>, w: map<Path, string>)
    requires SparesTools(s, w)
    ensures SparesTools(s, PortCopies(s, node, ports, w))
  {
    hide InstanceConf;
    if ports != [] {
      PortCopiesSpare(s, node, ports[..|ports| - 1], w);
    }
  }

  lemma ScriptCopiesSpare(s: Settings, node: string, w: map<Path, string>)
    requires SparesTools(s, w)
    ensures SparesTools(s, ScriptCopies(s, node, w))
  {
    hide StartText, ShutdownText, ConnectText;
    ScriptsAlike(node);
    assert CREATE_SH[0] == 'c' && |CREATE_SH| > 7;
    forall d: InstallDir ensures !ScriptLike(DirName(d)) && DirName(d) != CREATE_SH {
    }
  }

  lemma {:induction false} NodeCopiesSpare(s: Settings, m: Machine, nodes: seq<string>)
    ensures SparesTools(s, NodeCopies(s, m, nodes))
  {
    hide PortCopies, ScriptCopies, IsLocal, Ports, SparesTools;
    if nodes == [] {
      NothingSpares(s);
    } else {
      var init, node := nodes[..|nodes| - 1], nodes[|nodes| - 1];
      NodeCopiesSpare(s, m, init);
      PortCopiesSpare(s, node, Ports(s, node), NodeCopies(s, m, init));
      ScriptCopiesSpare(s, node, PortCopies(s, node, Ports(s, node), NodeCopies(s, m, init)));
    }
  }

  lemma NothingSpares(s: Settings)
    ensures SparesTools(s, map[])
  {
  }

  lemma InstallOneEffect(s: Settings, a: Artifact, before: seq<Step>, fs: FileMap, w: map<Path, string>)
    requires a.Artifact? && Fulfils(All(before, fs), w) && SparesTools(s, w)
    ensures var w1 := w[Path(HomeTree(s), [DirName(a.dir), a.name]) := a.text];
            Fulfils(All(before + InstallOne(s, a), fs), w1) && SparesTools(s, w1)
  {
    var mk, dst := [MkDir(InHome(s, DirName(a.dir)))], Path(HomeTree(s), [DirName(a.dir), a.name]);
    assert InHome(s, DirName(a.dir)) !in w;
    AllConcat(before, mk, fs);
    Keeps(mk, All(before, fs), w);
    WriteFulfils(before + mk, dst, a.text, fs, w);
    assert before + InstallOne(s, a) == before + mk + Write(dst, a.text);
  }

  lemma FailedInstall(s: Settings, before: seq<Step>, fs: FileMap)
    ensures All(before + InstallOne(s, MakeFails), fs) == All(before, fs)
  {
    AllAppend(before, Halt, fs);
  }

  lemma {:induction false} InstallEffect(
      s: Settings, installs: seq<Artifact>, before: seq<Step>, fs: FileMap, w: map<Path, string>)
    requires Fulfils(All(before, fs), w) && SparesTools(s, w)
    ensures Fulfils(All(before + InstallSteps(s, installs), fs), Installed(s, installs, w))
    ensures SparesTools(s, Installed(s, installs, w))
  {
    hide SparesTools, Fulfils, All, InstallOne;
    if installs == [] {
      assert before + [] == before;
    } else {
      var init, a := installs[..|installs| - 1], installs[|installs| - 1];
      var steps := before + InstallSteps(s, init);
      InstallEffect(s, init, before, fs, w);
      assert before + InstallSteps(s, installs) == steps + InstallOne(s, a);
      if a.Artifact? {
        InstallOneEffect(s, a, steps, fs, Installed(s, init, w));
      } else {
        FailedInstall(s, steps, fs);
      }
    }
  }

  lemma DeployEffect(s: Settings, m: Machine, installs: seq<Artifact>, auth: string, fs: FileMap)
    requires Fulfils(fs, ConfigFiles(s)) && Holds(InRoot(s, AUTH_PASS), auth, fs)
    ensures Fulfils(All(DeployWork(s, m, installs).Steps(), fs), DeployFiles(s, m, installs, auth))
  {
    hide ConfigFiles, Nodes, CopyNodes, NodeCopies, InstallSteps, Installed, EnvText, AllLines,
         DeployPhase.Fits, Fulfils, Holds, SparesTools;
    var dirs := DirSteps(s);
    var front := dirs + CopyNodes(s, m, Nodes(s));
    var steps := front + InstallSteps(s, installs);
    var w := Installed(s, installs, NodeCopies(s, m, Nodes(s)));
    var env := Copy(InHome(s, ENV_SH), InRoot(s, ENV_SH));
    var copy := Copy(InHome(s, AUTH_PASS), InRoot(s, AUTH_PASS));
    DirStepsFit(s);
    CopyNodesEffect(s, m, Nodes(s), dirs, fs);
    NodeCopiesSpare(s, m, Nodes(s));
    InstallEffect(s, installs, front, fs, NodeCopies(s, m, Nodes(s)));
    InstallStepsFit(s, installs);
    DeployPhase.FitsConcat(s, front, InstallSteps(s, installs));
    RootSources(s, fs);
    HomeNamesDiffer("");
    CopyStep(s, steps, InHome(s, ENV_SH), InRoot(s, ENV_SH), EnvText(s), fs, w);
    CopyStep(s, steps + env, InHome(s, AUTH_PASS), InRoot(s, AUTH_PASS), auth, fs, w[InHome(s, ENV_SH) := EnvText(s)]);
    SourceKept(s, steps + env + copy, fs, InRoot(s, ALL_NODES), AllLines(s, Nodes(s)));
    CopyFulfils(steps + env + copy, InHome(s, ALL_NODES), InRoot(s, ALL_NODES), AllLines(s, Nodes(s)), fs,
                w[InHome(s, ENV_SH) := EnvText(s)][InHome(s, AUTH_PASS) := auth]);
    assert DeployWork(s, m, installs).Steps()
           == steps + env + copy + Copy(InHome(s, ALL_NODES), InRoot(s, ALL_NODES));
  }

  /* ---------- what the expected home contains ---------- */

  predicate LocalInstance(s: Settings, m: Machine, node: string, port: string) {
    node in Nodes(s) && IsLocal(s, m, node) && port in Ports(s, node)
  }

  /** Where two instances of this machine share a file name, it does not matter which comes last. */
  ghost predicate CollidersAgree(s: Settings, m: Machine) {
    forall n1, p1, n2, p2 | LocalInstance(s, m, n1, p1) && LocalInstance(s, m, n2, p2) && Shifts(n1, p1, n2, p2) ::
      InstanceConf(s, n1, p1) == InstanceConf(s, n2, p2)
  }

  /** A corollary: ports without dashes cannot collide. */
  lemma DashFreeAgree(s: Settings, m: Machine)
    requires forall n, port | LocalInstance(s, m, n, port) :: DashFree(port)
    ensures CollidersAgree(s, m)
  {
    hide InstanceConf, LocalInstance, DashFree;
    forall n1, p1, n2, p2 | LocalInstance(s, m, n1, p1) && LocalInstance(s, m, n2, p2)
      ensures !Shifts(n1, p1, n2, p2)
    {
      if Shifts(n1, p1, n2, p2) {
        HasDash(n1, p1, n2, p2);
      }
    }
  }

  /** Whoever shares the file name has the same text. */
  ghost predicate Shared(s: Settings, node: string, ports: seq<string>, n: string, port: string) {
    forall q | q in ports && ConfName(node, q) == ConfName(n, port) ::
      InstanceConf(s, node, q) == InstanceConf(s, n, port)
  }

  lemma CollidersShare(s: Settings, m: Machine, n: string, port: string, k: string)
    requires CollidersAgree(s, m) && LocalInstance(s, m, n, port) && k in Nodes(s) && IsLocal(s, m, k)
    ensures Shared(s, k, Ports(s, k), n, port)
  {
    hide InstanceConf, Shifts, IsLocal, Nodes, Ports;
    forall q | q in Ports(s, k) && ConfName(k, q) == ConfName(n, port)
      ensures InstanceConf(s, k, q) == InstanceConf(s, n, port)
    {
      ConfNamesCollide(k, q, n, port);
      assert LocalInstance(s, m, k, q);
    }
  }

  ghost predicate HasConf(s: Settings, node: string, port: string, w: map<Path, string>) {
    HomeConf(s, node, port) in w && w[HomeConf(s, node, port)] == InstanceConf(s, node, port)
  }

  lemma {:induction false} PortCopiesHave(
      s: Settings, node: string, ports: seq<string>, w: map<Path, string>, n: string, port: string)
    requires Shared(s, node, ports, n, port)
    requires HasConf(s, n, port, w) || (n == node && port in ports)
    ensures HasConf(s, n, port, PortCopies(s, node, ports, w))
  {
    hide InstanceConf, ConfName;
    if ports != [] {
      var init, last := ports[..|ports| - 1], ports[|ports| - 1];
      assert last in ports && forall q | q in init :: q in ports;
      if ConfName(n, port) != ConfName(node, last) {
        PortCopiesHave(s, node, init, w, n, port);
      }
    }
  }

  lemma {:induction false} NodeCopiesHave(s: Settings, m: Machine, nodes: seq<string>, n: string, port: string)
    requires forall k | k in nodes && IsLocal(s, m, k) :: Shared(s, k, Ports(s, k), n, port)
    requires n in nodes && IsLocal(s, m, n) && port in Ports(s, n)
    ensures HasConf(s, n, port, NodeCopies(s, m, nodes))
  {
    hide InstanceConf, PortCopies, IsLocal, Ports, Shared;
    var init, node := nodes[..|nodes| - 1], nodes[|nodes| - 1];
    assert node in nodes && forall k | k in init :: k in nodes;
    var w := NodeCopies(s, m, init);
    if n in init {
      NodeCopiesHave(s, m, init, n, port);
    }
    if IsLocal(s, m, node) {
      PortCopiesHave(s, node, Ports(s, node), w, n, port);
    }
  }

  lemma StartNamesDiffer(n: string, k: string)
    ensures StartName(n) == StartName(k) ==> n == k
    ensures StartName(n) !in {ShutdownName(k), ConnectName(k), CREATE_SH, ENV_SH, AUTH_PASS, ALL_NODES}
  {
    if StartName(n) == StartName(k) { SameMiddle(n, k, "start_redis-", ".sh"); }
    assert StartName(n)[0] == 's' && StartName(n)[1] == 't' && ShutdownName(k)[1] == 'h';
    assert ConnectName(k)[0] == 'c' && CREATE_SH[0] == 'c' && ENV_SH[0] == 'c';
    assert AUTH_PASS[0] == 'C' && ALL_NODES[0] == 'C';
  }

  ghost predicate HasStart(s: Settings, node: string, w: map<Path, string>) {
    InHome(s, StartName(node)) in w && w[InHome(s, StartName(node))] == StartText(s, node)
  }

  lemma {:induction false} PortCopiesKeepStart(
      s: Settings, node: string, ports: seq<string>, w: map<Path, string>, n: string)
    requires HasStart(s, n, w)
    ensures HasStart(s, n, PortCopies(s, node, ports, w))
  {
    hide InstanceConf, StartText;
    if ports != [] {
      PortCopiesKeepStart(s, node, ports[..|ports| - 1], w, n);
    }
  }

  lemma {:induction false} NodeCopiesStart(s: Settings, m: Machine, nodes: seq<string>, n: string)
    requires n in nodes && IsLocal(s, m, n) && s.rdbDir != StartName(n)
    ensures HasStart(s, n, NodeCopies(s, m, nodes))
  {
    hide PortCopies, IsLocal, Ports, StartText, ShutdownText, ConnectText;
    var init, node := nodes[..|nodes| - 1], nodes[|nodes| - 1];
    StartNamesDiffer(n, node);
    if n != node {
      assert n in init;
      NodeCopiesStart(s, m, init, n);
      if IsLocal(s, m, node) {
        PortCopiesKeepStart(s, node, Ports(s, node), NodeCopies(s, m, init), n);
      }
    }
  }

  lemma {:induction false} InstalledKeeps(s: Settings, installs: seq<Artifact>, w: map<Path, string>, p: Path)
    requires p in w && (|p.rel| != 2 || p.rel[0] == "conf")
    ensures p in Installed(s, installs, w) && Installed(s, installs, w)[p] == w[p]
  {
    if installs != [] {
      InstalledKeeps(s, installs[..|installs| - 1], w, p);
      var a := installs[|installs| - 1];
      assert a.Artifact? ==> DirName(a.dir)[0] in {'b', 'l', 'i'} && "conf"[0] == 'c';
    }
  }

  /* ---------- deploy gets through ---------- */

  /** Nothing in these steps can stop the script. */
  ghost predicate Smooth(steps: seq<Step>, fs: FileMap) {
    SourcesThere(steps, fs) && Halt !in steps
  }

  lemma SmoothConcat(a: seq<Step>, b: seq<Step>, fs: FileMap)
    ensures Smooth(a + b, fs) <==> Smooth(a, fs) && Smooth(b, fs)
  {
    assert forall t | t in a :: t in a + b;
    assert forall t | t in b :: t in a + b;
    assert forall t | t in a + b :: t in a || t in b;
  }

  lemma SmoothCopy(dst: Path, src: Path, fs: FileMap)
    ensures Smooth(Copy(dst, src), fs) <==> IsFile(src, fs)
  {
    assert CopyOpen(dst, src) in Copy(dst, src);
  }

  lemma {:induction false} CopyPortsSmooth(s: Settings, node: string, ports: seq<string>, fs: FileMap)
    requires forall port | port in ports ::
               Holds(InNode(s, node, ConfName(node, port)), InstanceConf(s, node, port), fs)
    ensures Smooth(CopyPorts(s, node, ports), fs)
  {
    hide InstanceConf;
    if ports != [] {
      var init, port := ports[..|ports| - 1], ports[|ports| - 1];
      assert port in ports && forall q | q in init :: q in ports;
      CopyPortsSmooth(s, node, init, fs);
      SmoothCopy(HomeConf(s, node, port), InNode(s, node, ConfName(node, port)), fs);
      SmoothConcat(CopyPorts(s, node, init), Copy(HomeConf(s, node, port), InNode(s, node, ConfName(node, port))), fs);
    }
  }

  lemma CopyScriptsSmooth(s: Settings, node: string, fs: FileMap)
    requires Fulfils(fs, ConfigFiles(s)) && node in Nodes(s)
    ensures Smooth(CopyScripts(s, node), fs)
  {
    hide ConfigFiles, Nodes, NodeFiles, Smooth, Fulfils, StartText, ShutdownText, ConnectText, EnvText;
    NodeFilesThere(s, node, fs);
    NodeSources(s, node, fs);
    RootSources(s, fs);
    var a := Copy(InHome(s, CREATE_SH), InRoot(s, CREATE_SH));
    var b := Copy(StartDst(s, node), InNode(s, node, START_SH));
    var c := Copy(ShutdownDst(s, node), InNode(s, node, SHUTDOWN_SH));
    var d := Copy(ConnectDst(s, node), InNode(s, node, CONNECT_SH));
    SmoothCopy(InHome(s, CREATE_SH), InRoot(s, CREATE_SH), fs);
    SmoothCopy(StartDst(s, node), InNode(s, node, START_SH), fs);
    SmoothCopy(ShutdownDst(s, node), InNode(s, node, SHUTDOWN_SH), fs);
    SmoothCopy(ConnectDst(s, node), InNode(s, node, CONNECT_SH), fs);
    SmoothConcat(a, b, fs);
    SmoothConcat(a + b, c, fs);
    SmoothConcat(a + b + c, d, fs);
  }

  lemma {:induction false} CopyNodesSmooth(s: Settings, m: Machine, nodes: seq<string>, fs: FileMap)
    requires Fulfils(fs, ConfigFiles(s)) && forall n | n in nodes :: n in Nodes(s)
    ensures Smooth(CopyNodes(s, m, nodes), fs)
  {
    hide ConfigFiles, Nodes, NodeFiles, Ports, IsLocal, CopyPorts, CopyScripts, InstanceConf;
    if nodes != [] {
      var init, node := nodes[..|nodes| - 1], nodes[|nodes| - 1];
      assert node in nodes && forall n | n in init :: n in nodes;
      CopyNodesSmooth(s, m, init, fs);
      NodeFilesThere(s, node, fs);
      NodeSources(s, node, fs);
      CopyPortsSmooth(s, node, Ports(s, node), fs);
      CopyScriptsSmooth(s, node, fs);
      SmoothConcat(CopyPorts(s, node, Ports(s, node)), CopyScripts(s, node), fs);
      SmoothConcat(CopyNodes(s, m, init), CopyNode(s, m, node), fs);
    }
  }

  lemma {:induction false} InstallSmooth(s: Settings, installs: seq<Artifact>, fs: FileMap)
    ensures Smooth(InstallSteps(s, installs), fs) <==> MakeFails !in installs
  {
    if installs != [] {
      var init, a := installs[..|installs| - 1], installs[|installs| - 1];
      InstallSmooth(s, init, fs);
      SmoothConcat(InstallSteps(s, init), InstallOne(s, a), fs);
      assert Smooth(InstallOne(s, a), fs) <==> a != MakeFails;
      assert MakeFails in installs <==> MakeFails in init || a == MakeFails;
    }
  }

  /** No copy of deploy() lacks its source, and make install succeeds. */
  lemma DeploySmooth(s: Settings, m: Machine, installs: seq<Artifact>, fs: FileMap)
    requires Fulfils(fs, ConfigFiles(s))
    ensures Smooth(DeployWork(s, m, installs).Steps(), fs) <==>
            IsFile(InRoot(s, AUTH_PASS), fs) && MakeFails !in installs
  {
    hide ConfigFiles, Nodes, CopyNodes, InstallSteps, DirSteps, Fulfils, Smooth, EnvText, AllLines;
    var env, auth := Copy(InHome(s, ENV_SH), InRoot(s, ENV_SH)), Copy(InHome(s, AUTH_PASS), InRoot(s, AUTH_PASS));
    var last := Copy(InHome(s, ALL_NODES), InRoot(s, ALL_NODES));
    var front := DirSteps(s) + CopyNodes(s, m, Nodes(s));
    RootSources(s, fs);
    DirsSmooth(s, fs);
    CopyNodesSmooth(s, m, Nodes(s), fs);
    InstallSmooth(s, installs, fs);
    SmoothCopy(InHome(s, ENV_SH), InRoot(s, ENV_SH), fs);
    SmoothCopy(InHome(s, AUTH_PASS), InRoot(s, AUTH_PASS), fs);
    SmoothCopy(InHome(s, ALL_NODES), InRoot(s, ALL_NODES), fs);
    SmoothConcat(DirSteps(s), CopyNodes(s, m, Nodes(s)), fs);
    SmoothConcat(front, InstallSteps(s, installs), fs);
    SmoothConcat(front + InstallSteps(s, installs), env, fs);
    SmoothConcat(front + InstallSteps(s, installs) + env, auth, fs);
    SmoothConcat(front + InstallSteps(s, installs) + env + auth, last, fs);
    assert DeployWork(s, m, installs).Steps() == front + InstallSteps(s, installs) + env + auth + last;
  }

  /** The steps of deploy() get through exactly if nothing in them fails, the data directory is not
      called like a copied file, and nothing stands in the way from before. */
  lemma DeployReaches(s: Settings, m: Machine, installs: seq<Artifact>, fs: FileMap)
    ensures var steps := DeployWork(s, m, installs).Steps();
            Reach(steps, fs) == |steps| <==> Smooth(steps, fs) && HomeNamed(s, m) && Unobstructed(steps, fs)
  {
    DeployWellFormed(s, m, installs);
    HomeKinds(s, m, installs);
    hide DeployWork, HomeNamed, Sound, Written, Made, Reach, Unobstructed, SourcesThere;
    ReachIff(DeployWork(s, m, installs).Steps(), HomeTree(s), fs);
  }

  /** Over the files of a completed config(), an uninterrupted deploy() completes exactly when its
      guards let it in, make install succeeds, config has copied the password file, which it does
      once per node, the data directory is not called like a file that is copied beside it, and
      nothing of the wrong kind stands where it makes a directory or writes a file. */
  lemma DeployCompletes(s: Settings, m: Machine, installs: seq<Artifact>, p: Proc)
    requires Fulfils(p.files, ConfigFiles(s))
    requires p.alive && p.budget >= |DeployWork(s, m, installs).Steps()|
    ensures DeployProc(s, m, installs, p).alive <==>
            && MayDeploy(s, p.files) && IsFile(InRoot(s, AUTH_PASS), p.files) && MakeFails !in installs
            && HomeNamed(s, m) && Unobstructed(DeployWork(s, m, installs).Steps(), p.files)
  {
    hide ConfigFiles, DeployWork, Fulfils, Reach, Smooth, HomeNamed, Unobstructed, MayDeploy;
    var steps := DeployWork(s, m, installs).Steps();
    DeploySmooth(s, m, installs, p.files);
    DeployReaches(s, m, installs, p.files);
    RunIsPrefix(steps, p.files, p.budget);
  }

  lemma ListText(s: Settings, fs: FileMap)
    requires Fulfils(fs, ConfigFiles(s))
    ensures TextAt(InRoot(s, ALL_NODES), fs) == AllLines(s, Nodes(s))
  {
    hide ConfigFiles, Nodes, AllLines, EnvText, Fulfils;
    RootSources(s, fs);
  }

  lemma DeployShape(s: Settings, m: Machine, installs: seq<Artifact>, fs: FileMap)
    ensures var ph := DeployWork(s, m, installs);
            && ph.open == CopyOpen(InHome(s, ALL_NODES), InRoot(s, ALL_NODES))
            && ph.fill == CopyData(InHome(s, ALL_NODES), InRoot(s, ALL_NODES))
            && MarkerText(ph, fs) == TextAt(InRoot(s, ALL_NODES), fs)
    ensures MayDeploy(s, fs) <==> Prepared(s, fs) && !IsFile(InHome(s, ALL_NODES), fs)
  {
    hide CopyNodes, InstallSteps, Nodes;
  }

  /** A kill between opening and filling CLUSTER_ALL_NODES: it stands in the home empty, deploy()
      refuses ever after, and what an uninterrupted invocation would have left is never reached. */
  lemma KilledAtDeployMarker(s: Settings, m: Machine, installs: seq<Artifact>, fs: FileMap)
    requires Fulfils(fs, ConfigFiles(s)) && AllLines(s, Nodes(s)) != ""
    requires MayDeploy(s, fs) && IsFile(InRoot(s, AUTH_PASS), fs) && MakeFails !in installs
    requires HomeNamed(s, m) && Unobstructed(DeployWork(s, m, installs).Steps(), fs)
    ensures var c := DeployPhase.Invocations(s, m, installs, fs, [|DeployWork(s, m, installs).body| + 1]);
            && IsFile(InHome(s, ALL_NODES), c) && TextAt(InHome(s, ALL_NODES), c) == ""
            && DeployPhase.Completed(s, m, installs, c) != DeployPhase.Completed(s, m, installs, fs)
  {
    hide *;
    var ph, k := DeployWork(s, m, installs), |DeployWork(s, m, installs).body| + 1;
    DeployShape(s, m, installs, fs);
    ListText(s, fs);
    var c := DeployPhase.Invocations(s, m, installs, fs, [k]);
    DeployWellFormed(s, m, installs);
    DeployPhase.InvocationsAreAttempts(s, m, installs, fs, [k]);
    DeployPhase.CompletedIsUninterrupted(s, m, installs, fs);
    DeployPhase.CompletedIsUninterrupted(s, m, installs, c);
    DeploySmooth(s, m, installs, fs);
    DeployReaches(s, m, installs, fs);
    KilledAtMarker(ph, HomeTree(s), fs);
    StaysPrepared(s, m, installs, fs, [k]);
  }

  lemma DirsSmooth(s: Settings, fs: FileMap)
    ensures Smooth(DirSteps(s), fs)
  {
  }

  /* ---------- the agreement ---------- */

  /** A completed deploy() has carried out all its steps, and was in nobody's way. */
  lemma DeployEnds(s: Settings, m: Machine, installs: seq<Artifact>, p: Proc)
    requires p.alive && DeployProc(s, m, installs, p).alive
    ensures DeployProc(s, m, installs, p).files == All(DeployWork(s, m, installs).Steps(), p.files)
    ensures MayDeploy(s, p.files) && IsFile(InRoot(s, AUTH_PASS), p.files)
    ensures KindsAgree(DeployWork(s, m, installs).Steps(), p.files)
  {
    AuthIsCopied(s, m, installs);
    hide DeployWork, Reach, All, Written, Made, Unobstructed, MayDeploy, HomeNamed;
    var steps := DeployWork(s, m, installs).Steps();
    RunIsPrefix(steps, p.files, p.budget);
    assert steps[..|steps|] == steps;
    DeployReaches(s, m, installs, p.files);
    HomeKinds(s, m, installs);
    assert HasSource(CopyOpen(InHome(s, AUTH_PASS), InRoot(s, AUTH_PASS)), p.files);
  }

  lemma AuthIsCopied(s: Settings, m: Machine, installs: seq<Artifact>)
    ensures CopyOpen(InHome(s, AUTH_PASS), InRoot(s, AUTH_PASS)) in DeployWork(s, m, installs).Steps()
  {
    hide DirSteps, CopyNodes, InstallSteps, Nodes;
    var copy := CopyOpen(InHome(s, AUTH_PASS), InRoot(s, AUTH_PASS));
    assert EnvSteps(s)[2] == copy && copy in EnvSteps(s);
    hide EnvSteps;
    assert copy in DeployWork(s, m, installs).body;
  }

  ghost predicate HomeHasList(s: Settings, r: FileMap) {
    Holds(InHome(s, ALL_NODES), AllLines(s, Nodes(s)), r)
  }

  /** For every node of this machine its start script. */
  ghost predicate HomeHasScripts(s: Settings, m: Machine, r: FileMap) {
    forall n | n in Nodes(s) && IsLocal(s, m, n) :: Holds(InHome(s, StartName(n)), StartText(s, n), r)
  }

  /** The data directory is not called like the start script of such a node. */
  predicate StartsApart(s: Settings, m: Machine) {
    forall n | n in Nodes(s) && IsLocal(s, m, n) :: s.rdbDir != StartName(n)
  }

  /** For every port that a start script of this machine loops over, the configuration file it
      names, with the text of that instance. */
  ghost predicate HomeHasConfs(s: Settings, m: Machine, r: FileMap) {
    forall n, port | n in Nodes(s) && IsLocal(s, m, n) && port in Words(Join(Ports(s, n))) ::
      Holds(HomeConf(s, n, port), InstanceConf(s, n, port), r)
  }

  /** Over the files of a completed config(), a completed deploy() leaves exactly config's list of
      all nodes; the start scripts, unless the data directory has the name of one and so takes it in;
      and every port that they loop over has its own configuration file under conf/ if and only if no
      two instances with different texts share a file name. */
  lemma DeployDelivers(s: Settings, m: Machine, installs: seq<Artifact>, p: Proc)
    requires Fulfils(p.files, ConfigFiles(s)) && p.alive && DeployProc(s, m, installs, p).alive
    ensures var r := DeployProc(s, m, installs, p).files;
            HomeHasList(s, r) && (HomeHasScripts(s, m, r) <==> StartsApart(s, m))
            && (HomeHasConfs(s, m, r) <==> CollidersAgree(s, m))
  {
    var r, auth := DeployProc(s, m, installs, p).files, TextAt(InRoot(s, AUTH_PASS), p.files);
    DeployEnds(s, m, installs, p);
    hide DeployProc, ConfigFiles, DeployFiles, Nodes, DeployWork, CollidersAgree, HomeHasList, HomeHasScripts,
         HomeHasConfs, StartsApart, KindsAgree, All, Fulfils, MayDeploy;
    DeployEffect(s, m, installs, auth, p.files);
    ListDelivered(s, m, installs, auth, r);
    if StartsApart(s, m) {
      StartsDelivered(s, m, installs, auth, r);
    } else {
      StartTakenIn(s, m, installs, p.files);
    }
    if CollidersAgree(s, m) {
      AgreeingConfs(s, m, installs, auth, r);
    }
    if HomeHasConfs(s, m, r) {
      ConfsAgree(s, m, r);
    }
  }

  lemma ListDelivered(s: Settings, m: Machine, installs: seq<Artifact>, auth: string, r: FileMap)
    requires Fulfils(r, DeployFiles(s, m, installs, auth))
    ensures HomeHasList(s, r)
  {
    hide NodeCopies, AllLines, Nodes, EnvText, Installed;
    var w := DeployFiles(s, m, installs, auth);
    assert InHome(s, ALL_NODES) in w && Holds(InHome(s, ALL_NODES), w[InHome(s, ALL_NODES)], r);
  }

  lemma StartsDelivered(s: Settings, m: Machine, installs: seq<Artifact>, auth: string, r: FileMap)
    requires Fulfils(r, DeployFiles(s, m, installs, auth)) && StartsApart(s, m)
    ensures HomeHasScripts(s, m, r)
  {
    hide NodeCopies, StartText, AllLines, Nodes, IsLocal, EnvText, Installed;
    var w := DeployFiles(s, m, installs, auth);
    forall n | n in Nodes(s) && IsLocal(s, m, n) ensures Holds(InHome(s, StartName(n)), StartText(s, n), r) {
      StartNamesDiffer(n, "");
      NodeCopiesStart(s, m, Nodes(s), n);
      InstalledKeeps(s, installs, NodeCopies(s, m, Nodes(s)), InHome(s, StartName(n)));
      assert Holds(InHome(s, StartName(n)), w[InHome(s, StartName(n))], r);
    }
  }

  /** A directory cannot be a script. */
  lemma StartTakenIn(s: Settings, m: Machine, installs: seq<Artifact>, fs: FileMap)
    requires KindsAgree(DeployWork(s, m, installs).Steps(), fs) && !StartsApart(s, m)
    ensures !HomeHasScripts(s, m, All(DeployWork(s, m, installs).Steps(), fs))
  {
    hide DeployWork, KindsAgree, Nodes, IsLocal, StartText, All, Sound, StartName;
    var steps := DeployWork(s, m, installs).Steps();
    var n :| n in Nodes(s) && IsLocal(s, m, n) && s.rdbDir == StartName(n);
    RdbMade(s, m, installs);
    DeployWellFormed(s, m, installs);
    SoundTargets(steps, {}, HomeTree(s));
    KindAfter(steps, fs, InHome(s, s.rdbDir));
    assert !Holds(InHome(s, StartName(n)), StartText(s, n), All(steps, fs));
  }

  lemma AgreeingConfs(s: Settings, m: Machine, installs: seq<Artifact>, auth: string, r: FileMap)
    requires Fulfils(r, DeployFiles(s, m, installs, auth)) && CollidersAgree(s, m)
    ensures HomeHasConfs(s, m, r)
  {
    hide NodeCopies, InstanceConf, AllLines, Nodes, IsLocal, EnvText, CollidersAgree, Installed, Shared;
    var w := DeployFiles(s, m, installs, auth);
    forall n, port | n in Nodes(s) && IsLocal(s, m, n) && port in Words(Join(Ports(s, n)))
      ensures Holds(HomeConf(s, n, port), InstanceConf(s, n, port), r)
    {
      PortsAreWords(s, n);
      forall k | k in Nodes(s) && IsLocal(s, m, k) ensures Shared(s, k, Ports(s, k), n, port) {
        CollidersShare(s, m, n, port, k);
      }
      NodeCopiesHave(s, m, Nodes(s), n, port);
      InstalledKeeps(s, installs, NodeCopies(s, m, Nodes(s)), HomeConf(s, n, port));
      assert Holds(HomeConf(s, n, port), w[HomeConf(s, n, port)], r);
    }
  }

  /** One file cannot hold two texts. */
  lemma ConfsAgree(s: Settings, m: Machine, r: FileMap)
    requires HomeHasConfs(s, m, r)
    ensures CollidersAgree(s, m)
  {
    hide InstanceConf, Nodes, IsLocal, Words;
    forall n1, p1, n2, p2 | LocalInstance(s, m, n1, p1) && LocalInstance(s, m, n2, p2) && Shifts(n1, p1, n2, p2)
      ensures InstanceConf(s, n1, p1) == InstanceConf(s, n2, p2)
    {
      PortsAreWords(s, n1);
      PortsAreWords(s, n2);
      ConfNamesCollide(n1, p1, n2, p2);
      assert Holds(HomeConf(s, n1, p1), InstanceConf(s, n1, p1), r)
             && Holds(HomeConf(s, n2, p2), InstanceConf(s, n2, p2), r);
    }
  }

  /** The array ports=({PORTS}) of the start script has exactly the configured ports. */
  lemma PortsAreWords(s: Settings, node: string)
    ensures Words(Join(Ports(s, node))) == Ports(s, node)
  {
    WordsAreWords(CommasToLines(Ini.Read(s.nodesCfg, node, "ports")));
    WordsJoin(Ports(s, node));
  }
}
