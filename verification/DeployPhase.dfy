/** deploy() of redis_cluster.sh: copies what config() produced for the nodes of this machine
    into the cluster home, installs the programs, and commits by copying CLUSTER_ALL_NODES. */
module DeployPhase {
  import opened Files
  import opened Text
  import opened ConfigPhase
  import BuildPhase
  import Ini

  /** The machine the script runs on: its short name, and the line hostname -I prints. */
  datatype Machine = Machine(hostname: string, ips: string)

  /** What make install puts under the prefix, or its failure. */
  datatype InstallDir = Bin | Lib | Include

  datatype Artifact = Artifact(dir: InstallDir, name: string, text: string) | MakeFails

  function AddressList(s: Settings, node: string): seq<string> {
    SplitList(Ini.Read(s.nodesCfg, node, "addrs"))
  }

  predicate WordChar(c: char) {
    'a' <= c <= 'z' || 'A' <= c <= 'Z' || '0' <= c <= '9' || c == '_'
  }

  /** The dots of an address match any character. */
  predicate MatchesAt(line: string, i: nat, pattern: string) {
    i + |pattern| <= |line| &&
    forall k | 0 <= k < |pattern| ::
      line[i + k] == pattern[k] || (pattern[k] == '.' && line[i + k] != '\n')
  }

  predicate WordAt(line: string, i: nat, pattern: string) {
    && MatchesAt(line, i, pattern)
    && (i == 0 || !WordChar(line[i - 1]))
    && (i + |pattern| == |line| || !WordChar(line[i + |pattern|]))
  }

  /** grep -w: somewhere the pattern matches, with no letter, digit or underscore beside it. */
  predicate GrepWord(line: string, pattern: string) {
    exists i | 0 <= i <= |line| :: WordAt(line, i, pattern)
  }

  /** The node runs here: its host is this machine's name, or one of its addresses is found among
      ours. */
  predicate IsLocal(s: Settings, m: Machine, node: string) {
    Host(s, node) == m.hostname || exists a :: a in AddressList(s, node) && GrepWord(m.ips, a)
  }

  /** What grep -w looks for, spelled out: a place of the line where the pattern stands, a dot of it for
      any character, with neither letter, digit nor underscore right before or behind. */
  predicate Looks(line: string, i: nat, pattern: string) {
    && i + |pattern| <= |line|
    && forall k | 0 <= k < |pattern| ::
         line[i + k] == pattern[k] || (pattern[k] == '.' && line[i + k] != '\n')
  }

  predicate Touching(c: char) {
    c == '_' || 'a' <= c <= 'z' || 'A' <= c <= 'Z' || '0' <= c <= '9'
  }

  /** Only next to a letter, digit or underscore. */
  predicate InsideWord(line: string, i: nat, pattern: string) {
    (0 < i <= |line| && Touching(line[i - 1])) || (i + |pattern| < |line| && Touching(line[i + |pattern|]))
  }

  lemma GrepWordIff(line: string, pattern: string)
    ensures GrepWord(line, pattern) <==> exists i: nat :: Looks(line, i, pattern) && !InsideWord(line, i, pattern)
  {
    if GrepWord(line, pattern) {
      var i :| 0 <= i <= |line| && WordAt(line, i, pattern);
      assert Looks(line, i, pattern) && !InsideWord(line, i, pattern);
    }
    if exists i: nat :: Looks(line, i, pattern) && !InsideWord(line, i, pattern) {
      var i: nat :| Looks(line, i, pattern) && !InsideWord(line, i, pattern);
      assert WordAt(line, i, pattern);
    }
  }

  /** An address is not found in a longer one: 192.168.1.1 not in 192.168.1.10. */
  lemma LongerIsAnother(a: string, d: char)
    requires a != "" && Touching(a[0]) && Touching(a[|a| - 1]) && Touching(d)
    ensures !GrepWord(a + [d], a) && !GrepWord([d] + a, a)
  {
    var behind, before := a + [d], [d] + a;
    forall i: nat | Looks(behind, i, a) ensures InsideWord(behind, i, a) {
      assert i == 0 || i == 1;
      assert behind[0] == a[0] && behind[|a|] == d;
    }
    forall i: nat | Looks(before, i, a) ensures InsideWord(before, i, a) {
      assert i == 0 || i == 1;
      assert before[0] == d && before[|a|] == a[|a| - 1];
    }
    GrepWordIff(behind, a);
    GrepWordIff(before, a);
  }

  /** A node with another host, whose addresses stand among ours at most inside longer words, does not
      run here. */
  lemma ForeignIsNotLocal(s: Settings, m: Machine, node: string)
    requires Ini.Read(s.nodesCfg, node, "host") != m.hostname
    requires forall a, i: nat | a in SplitList(Ini.Read(s.nodesCfg, node, "addrs")) && Looks(m.ips, i, a) ::
               InsideWord(m.ips, i, a)
    ensures !IsLocal(s, m, node)
  {
    hide SplitList, Ini.Read, GrepWord;
    forall a | a in SplitList(Ini.Read(s.nodesCfg, node, "addrs")) ensures !GrepWord(m.ips, a) {
      GrepWordIff(m.ips, a);
    }
  }

  lemma LocalIff(s: Settings, m: Machine, node: string)
    ensures IsLocal(s, m, node) <==>
            || Ini.Read(s.nodesCfg, node, "host") == m.hostname
            || exists a, i: nat :: a in SplitList(Ini.Read(s.nodesCfg, node, "addrs"))
                                   && Looks(m.ips, i, a) && !InsideWord(m.ips, i, a)
  {
    hide SplitList, Ini.Read, GrepWord, Looks, InsideWord;
    var addrs := SplitList(Ini.Read(s.nodesCfg, node, "addrs"));
    assert AddressList(s, node) == addrs;
    if a :| a in addrs && GrepWord(m.ips, a) {
      GrepWordIff(m.ips, a);
      var i: nat :| Looks(m.ips, i, a) && !InsideWord(m.ips, i, a);
      assert a in addrs && Looks(m.ips, i, a);
    }
    if a, i: nat :| a in addrs && Looks(m.ips, i, a) && !InsideWord(m.ips, i, a) {
      GrepWordIff(m.ips, a);
      assert a in AddressList(s, node) && GrepWord(m.ips, a);
    }
  }

  method IsCurrent(s: Settings, m: Machine, node: string) returns (current: bool)
    ensures current <==> IsLocal(s, m, node)
    ensures current <==>
            || Ini.Read(s.nodesCfg, node, "host") == m.hostname
            || exists a, i: nat :: a in SplitList(Ini.Read(s.nodesCfg, node, "addrs"))
                                   && Looks(m.ips, i, a) && !InsideWord(m.ips, i, a)
  {
    LocalIff(s, m, node);
    hide Host, AddressList, GrepWord;
    current := Host(s, node) == m.hostname;
    if !current {
      var addrs := AddressList(s, node);
      for k := 0 to |addrs|
        invariant !current && forall i | 0 <= i < k :: !GrepWord(m.ips, addrs[i])
      {
        if GrepWord(m.ips, addrs[k]) {
          assert addrs[k] in addrs;
          return true;
        }
      }
    }
  }

  /** Where a piece of a suffix stands in the whole. */
  predicate StandsAt(line: string, i: nat, word: string) {
    && i + |word| <= |line| && line[i..i + |word|] == word
    && (i == 0 || IsBlank(line[i - 1]))
    && (i + |word| == |line| || IsBlank(line[i + |word|]))
  }

  lemma StandsAfter(line: string, n: nat, k: nat, word: string)
    requires n < |line| && IsBlank(line[n]) && StandsAt(line[n + 1..], k, word)
    ensures StandsAt(line, n + 1 + k, word)
  {
    var rest, i := line[n + 1..], n + 1 + k;
    assert rest[k..k + |word|] == line[i..i + |word|];
    assert k > 0 ==> rest[k - 1] == line[i - 1];
  }

  /** A word is the first, or stands behind it and a blank. */
  lemma FirstOrLater(line: string, word: string)
    requires word in Words(line)
    ensures line != ""
    ensures IsBlank(line[0]) ==> word in Words(line[1..])
    ensures !IsBlank(line[0]) ==>
              var n := WordLength(line);
              StandsAt(line, 0, word) || (n < |line| && IsBlank(line[n]) && word in Words(line[n + 1..]))
  {
    if !IsBlank(line[0]) {
      var n := WordLength(line);
      assert line[0..n] == line[..n];
      if n < |line| {
        assert line[n..][1..] == line[n + 1..];
      }
    }
  }

  lemma {:induction false} WordPlace(line: string, word: string) returns (i: nat)
    requires word in Words(line)
    ensures StandsAt(line, i, word)
    decreases |line|
  {
    hide StandsAt, Words;
    FirstOrLater(line, word);
    if IsBlank(line[0]) {
      var k := WordPlace(line[1..], word);
      StandsAfter(line, 0, k, word);
      i := k + 1;
    } else if StandsAt(line, 0, word) {
      i := 0;
    } else {
      var n := WordLength(line);
      var k := WordPlace(line[n + 1..], word);
      StandsAfter(line, n, k, word);
      i := n + 1 + k;
    }
  }

  /** A node with one of this machine's addresses is never missed. */
  lemma OwnAddressIsLocal(s: Settings, m: Machine, node: string, a: string)
    requires a in AddressList(s, node) && a in Words(m.ips)
    ensures IsLocal(s, m, node)
  {
    hide Words, AddressList, Host;
    var i := WordPlace(m.ips, a);
    forall k | 0 <= k < |a| ensures m.ips[i + k] == a[k] {
      assert m.ips[i..i + |a|][k] == m.ips[i + k];
    }
    assert WordAt(m.ips, i, a);
  }

  /* ---------- paths ---------- */

  function HomeTree(s: Settings): Tree { Home(s.parent, s.id) }

  function InHome(s: Settings, name: string): Path { Path(HomeTree(s), [name]) }

  function HomeConf(s: Settings, node: string, port: string): Path {
    Path(HomeTree(s), ["conf", ConfName(node, port)])
  }

  function DirName(d: InstallDir): string {
    match d
    case Bin => "bin"
    case Lib => "lib"
    case Include => "include"
  }

  function BuildMarker(s: Settings): Path { BuildPhase.Marker(s.id) }

  function StartName(node: string): string { "start_redis-" + node + ".sh" }

  function ShutdownName(node: string): string { "shutdown_redis-" + node + ".sh" }

  function ConnectName(node: string): string { "connect_redis-" + node + ".sh" }

  /** cp FILE "$cluster_home_dir/NAME" goes into the data directory if that is called so. */
  function ScriptDst(s: Settings, name: string, file: string): Path {
    if s.rdbDir == name then Path(HomeTree(s), [name, file]) else InHome(s, name)
  }

  function StartDst(s: Settings, node: string): Path { ScriptDst(s, StartName(node), START_SH) }

  function ShutdownDst(s: Settings, node: string): Path { ScriptDst(s, ShutdownName(node), SHUTDOWN_SH) }

  function ConnectDst(s: Settings, node: string): Path { ScriptDst(s, ConnectName(node), CONNECT_SH) }

  /* ---------- the commands ---------- */

  function DirSteps(s: Settings): seq<Step> {
    [ MkDir(Path(HomeTree(s), [])), MkDir(InHome(s, s.rdbDir)), MkDir(InHome(s, "conf")),
      MkDir(InHome(s, "log")), MkDir(InHome(s, "run")), MkDir(InHome(s, "modules")) ]
  }

  function CopyPorts(s: Settings, node: string, ports: seq<string>): seq<Step> {
    if ports == [] then []
    else
      var port := ports[|ports| - 1];
      CopyPorts(s, node, ports[..|ports| - 1])
      + Copy(HomeConf(s, node, port), InNode(s, node, ConfName(node, port)))
  }

  function CopyScripts(s: Settings, node: string): seq<Step> {
    Copy(InHome(s, CREATE_SH), InRoot(s, CREATE_SH))
    + Copy(StartDst(s, node), InNode(s, node, START_SH))
    + Copy(ShutdownDst(s, node), InNode(s, node, SHUTDOWN_SH))
    + Copy(ConnectDst(s, node), InNode(s, node, CONNECT_SH))
  }

  function CopyNode(s: Settings, m: Machine, node: string): seq<Step> {
    if IsLocal(s, m, node) then CopyPorts(s, node, Ports(s, node)) + CopyScripts(s, node) else []
  }

  function CopyNodes(s: Settings, m: Machine, nodes: seq<string>): seq<Step> {
    if nodes == [] then []
    else CopyNodes(s, m, nodes[..|nodes| - 1]) + CopyNode(s, m, nodes[|nodes| - 1])
  }

  function InstallOne(s: Settings, a: Artifact): seq<Step> {
    match a
    case Artifact(dir, name, text) =>
      [MkDir(InHome(s, DirName(dir)))] + Write(Path(HomeTree(s), [DirName(dir), name]), text)
    case MakeFails => [Halt]
  }

  function InstallSteps(s: Settings, installs: seq<Artifact>): seq<Step> {
    if installs == [] then []
    else InstallSteps(s, installs[..|installs| - 1]) + InstallOne(s, installs[|installs| - 1])
  }

  function EnvSteps(s: Settings): seq<Step> {
    Copy(InHome(s, ENV_SH), InRoot(s, ENV_SH)) + Copy(InHome(s, AUTH_PASS), InRoot(s, AUTH_PASS))
  }

  function DeployWork(s: Settings, m: Machine, installs: seq<Artifact>): Phase {
    Phase(DirSteps(s) + CopyNodes(s, m, Nodes(s)) + InstallSteps(s, installs) + EnvSteps(s),
          CopyOpen(InHome(s, ALL_NODES), InRoot(s, ALL_NODES)),
          CopyData(InHome(s, ALL_NODES), InRoot(s, ALL_NODES)))
  }

  predicate MayDeploy(s: Settings, fs: FileMap) {
    IsFile(BuildMarker(s), fs) && IsFile(InRoot(s, MARKER), fs) && !IsFile(InHome(s, ALL_NODES), fs)
  }

  /** deploy() as a whole. */
  function DeployProc(s: Settings, m: Machine, installs: seq<Artifact>, p: Proc): Proc {
    if !p.alive then p
    else if !MayDeploy(s, p.files) then p.(alive := false)
    else Run(DeployWork(s, m, installs).Steps(), p)
  }

  /* ---------- the script ---------- */

  method DeployDirs(sh: Shell, s: Settings)
    modifies sh
    ensures sh.proc == Run(DirSteps(s), old(sh.proc))
  {
    var dirs := DirSteps(s);
    for k := 0 to |dirs|
      invariant sh.proc == Run(dirs[..k], old(sh.proc))
    {
      sh.Issue(dirs[k]);
      assert dirs[..k + 1] == dirs[..k] + [dirs[k]];
      RunAppend(dirs[..k], dirs[k], old(sh.proc));
    }
    assert dirs[..|dirs|] == dirs;
  }

  method DeployPorts(sh: Shell, s: Settings, node: string, ports: seq<string>)
    modifies sh
    ensures sh.proc == Run(CopyPorts(s, node, ports), old(sh.proc))
  {
    for k := 0 to |ports|
      invariant sh.proc == Run(CopyPorts(s, node, ports[..k]), old(sh.proc))
    {
      var port := ports[k];
      sh.Cp(HomeConf(s, node, port), InNode(s, node, ConfName(node, port)));
      assert ports[..k + 1][..k] == ports[..k];
      RunConcat(CopyPorts(s, node, ports[..k]),
                Copy(HomeConf(s, node, port), InNode(s, node, ConfName(node, port))), old(sh.proc));
    }
    assert ports[..|ports|] == ports;
  }

  method DeployScripts(sh: Shell, s: Settings, node: string)
    modifies sh
    ensures sh.proc == Run(CopyScripts(s, node), old(sh.proc))
  {
    var p := old(sh.proc);
    var a := Copy(InHome(s, CREATE_SH), InRoot(s, CREATE_SH));
    var b := Copy(StartDst(s, node), InNode(s, node, START_SH));
    var c := Copy(ShutdownDst(s, node), InNode(s, node, SHUTDOWN_SH));
    var d := Copy(ConnectDst(s, node), InNode(s, node, CONNECT_SH));
    sh.Cp(InHome(s, CREATE_SH), InRoot(s, CREATE_SH));
    sh.Cp(StartDst(s, node), InNode(s, node, START_SH));
    sh.Cp(ShutdownDst(s, node), InNode(s, node, SHUTDOWN_SH));
    sh.Cp(ConnectDst(s, node), InNode(s, node, CONNECT_SH));
    RunConcat(a, b, p);
    RunConcat(a + b, c, p);
    RunConcat(a + b + c, d, p);
  }

  method DeployNode(sh: Shell, s: Settings, m: Machine, node: string)
    modifies sh
    ensures sh.proc == Run(CopyNode(s, m, node), old(sh.proc))
  {
    hide CopyPorts, CopyScripts, Ports, IsLocal;
    ghost var before := sh.proc;
    NothingRun(before);
    var current := IsCurrent(s, m, node);
    if !current {
      return;
    }
    var ports := Ports(s, node);
    DeployPorts(sh, s, node, ports);
    DeployScripts(sh, s, node);
    RunConcat(CopyPorts(s, node, ports), CopyScripts(s, node), before);
  }

  method DeployNodes(sh: Shell, s: Settings, m: Machine)
    modifies sh
    ensures sh.proc == Run(CopyNodes(s, m, Nodes(s)), old(sh.proc))
  {
    hide CopyNode, Nodes, Run;
    var nodes := Nodes(s);
    assert nodes[..0] == [];
    NothingRun(old(sh.proc));
    for n := 0 to |nodes|
      invariant sh.proc == Run(CopyNodes(s, m, nodes[..n]), old(sh.proc))
    {
      DeployNode(sh, s, m, nodes[n]);
      assert nodes[..n + 1][..n] == nodes[..n];
      RunConcat(CopyNodes(s, m, nodes[..n]), CopyNode(s, m, nodes[n]), old(sh.proc));
    }
    assert nodes[..|nodes|] == nodes;
  }

  method InstallArtifact(sh: Shell, s: Settings, a: Artifact)
    modifies sh
    ensures sh.proc == Run(InstallOne(s, a), old(sh.proc))
  {
    match a {
      case Artifact(dir, name, text) =>
        var mk, file := MkDir(InHome(s, DirName(dir))), Path(HomeTree(s), [DirName(dir), name]);
        sh.Issue(mk);
        sh.Redirect(file, text);
        RunOne(mk, old(sh.proc));
        RunConcat([mk], Write(file, text), old(sh.proc));
      case MakeFails =>
        sh.Issue(Halt);
        RunOne(Halt, old(sh.proc));
    }
  }

  method Install(sh: Shell, s: Settings, installs: seq<Artifact>)
    modifies sh
    ensures sh.proc == Run(InstallSteps(s, installs), old(sh.proc))
  {
    hide InstallOne, Run;
    NothingRun(old(sh.proc));
    for k := 0 to |installs|
      invariant sh.proc == Run(InstallSteps(s, installs[..k]), old(sh.proc))
    {
      InstallArtifact(sh, s, installs[k]);
      assert installs[..k + 1][..k] == installs[..k];
      RunConcat(InstallSteps(s, installs[..k]), InstallOne(s, installs[k]), old(sh.proc));
    }
    assert installs[..|installs|] == installs;
  }

  method FinishDeploy(sh: Shell, s: Settings)
    modifies sh
    ensures sh.proc == Run(EnvSteps(s) + Copy(InHome(s, ALL_NODES), InRoot(s, ALL_NODES)), old(sh.proc))
  {
    var a := Copy(InHome(s, ENV_SH), InRoot(s, ENV_SH));
    var b := Copy(InHome(s, AUTH_PASS), InRoot(s, AUTH_PASS));
    sh.Cp(InHome(s, ENV_SH), InRoot(s, ENV_SH));
    sh.Cp(InHome(s, AUTH_PASS), InRoot(s, AUTH_PASS));
    sh.Cp(InHome(s, ALL_NODES), InRoot(s, ALL_NODES));
    RunConcat(a, b, old(sh.proc));
    RunConcat(a + b, Copy(InHome(s, ALL_NODES), InRoot(s, ALL_NODES)), old(sh.proc));
  }

  method Deploy(sh: Shell, s: Settings, m: Machine, installs: seq<Artifact>)
    modifies sh
    ensures sh.proc == DeployProc(s, m, installs, old(sh.proc))
  {
    if !sh.proc.alive {
      return;
    }
    if !IsFile(BuildMarker(s), sh.proc.files) || !IsFile(InRoot(s, MARKER), sh.proc.files)
       || IsFile(InHome(s, ALL_NODES), sh.proc.files) {
      sh.proc := sh.proc.(alive := false);
      return;
    }
    hide DirSteps, CopyNodes, InstallSteps, EnvSteps, Nodes, DeployWork, Run, Copy;
    ghost var p := sh.proc;
    DeployDirs(sh, s);
    DeployNodes(sh, s, m);
    Install(sh, s, installs);
    FinishDeploy(sh, s);
    FourParts(DirSteps(s), CopyNodes(s, m, Nodes(s)), InstallSteps(s, installs),
              EnvSteps(s) + Copy(InHome(s, ALL_NODES), InRoot(s, ALL_NODES)), p);
    DeployParts(s, m, installs);
  }

  lemma DeployParts(s: Settings, m: Machine, installs: seq<Artifact>)
    ensures DeployWork(s, m, installs).Steps() ==
            DirSteps(s) + CopyNodes(s, m, Nodes(s)) + InstallSteps(s, installs)
            + (EnvSteps(s) + Copy(InHome(s, ALL_NODES), InRoot(s, ALL_NODES)))
  {
    hide DirSteps, CopyNodes, InstallSteps, EnvSteps, Nodes;
  }

  lemma FourParts(a: seq<Step>, b: seq<Step>, c: seq<Step>, d: seq<Step>, p: Proc)
    ensures Run(a + b + c + d, p) == Run(d, Run(c, Run(b, Run(a, p))))
  {
    RunConcat(a, b, p);
    RunConcat(a + b, c, p);
    RunConcat(a + b + c, d, p);
  }

  /* ---------- deploy is a phase ---------- */

  ghost predicate Fits(s: Settings, steps: seq<Step>) {
    Sound(steps, {}, HomeTree(s)) && InHome(s, ALL_NODES) !in Written(steps)
  }

  lemma FitsConcat(s: Settings, a: seq<Step>, b: seq<Step>)
    requires Fits(s, a) && Fits(s, b)
    ensures Fits(s, a + b)
  {
    SoundMonotone(b, {}, {} + Targets(a), HomeTree(s));
    SoundConcat(a, b, {}, HomeTree(s));
    WrittenConcat(a, b);
  }

  lemma FitsCopy(s: Settings, dst: Path, src: Path)
    requires dst.tree == HomeTree(s) && src.tree == Config(s.id) && dst != InHome(s, ALL_NODES)
    ensures Fits(s, Copy(dst, src))
  {
  }

  lemma FitsWrite(s: Settings, dst: Path, text: string)
    requires dst.tree == HomeTree(s) && dst != InHome(s, ALL_NODES)
    ensures Fits(s, Write(dst, text))
  {
    var w := Write(dst, text);
    assert w[..0] == [] && w[..1] == [Create(dst)];
    assert Create(dst) in w[..1];
    assert dst in Targets(w[..1]);
  }

  lemma {:induction false} CopyPortsFit(s: Settings, node: string, ports: seq<string>)
    ensures Fits(s, CopyPorts(s, node, ports))
  {
    if ports != [] {
      var port := ports[|ports| - 1];
      CopyPortsFit(s, node, ports[..|ports| - 1]);
      FitsCopy(s, HomeConf(s, node, port), InNode(s, node, ConfName(node, port)));
      FitsConcat(s, CopyPorts(s, node, ports[..|ports| - 1]),
                 Copy(HomeConf(s, node, port), InNode(s, node, ConfName(node, port))));
    }
  }

  lemma HomeNamesDiffer(node: string)
    ensures ALL_NODES !in {CREATE_SH, ENV_SH, AUTH_PASS, "conf", "log", "run", "modules"}
    ensures ALL_NODES !in {StartName(node), ShutdownName(node), ConnectName(node)}
  {
    NamesDiffer();
    assert ALL_NODES[0] == 'C';
    assert CREATE_SH[0] == 'c' && "conf"[0] == 'c' && "log"[0] == 'l' && "run"[0] == 'r' && "modules"[0] == 'm';
    assert StartName(node)[0] == 's' && ShutdownName(node)[0] == 's' && ConnectName(node)[0] == 'c';
  }

  lemma CopyScriptsFit(s: Settings, node: string)
    ensures Fits(s, CopyScripts(s, node))
  {
    HomeNamesDiffer(node);
    var a := Copy(InHome(s, CREATE_SH), InRoot(s, CREATE_SH));
    var b := Copy(StartDst(s, node), InNode(s, node, START_SH));
    var c := Copy(ShutdownDst(s, node), InNode(s, node, SHUTDOWN_SH));
    FitsCopy(s, InHome(s, CREATE_SH), InRoot(s, CREATE_SH));
    FitsCopy(s, StartDst(s, node), InNode(s, node, START_SH));
    FitsCopy(s, ShutdownDst(s, node), InNode(s, node, SHUTDOWN_SH));
    FitsCopy(s, ConnectDst(s, node), InNode(s, node, CONNECT_SH));
    FitsConcat(s, a, b);
    FitsConcat(s, a + b, c);
    FitsConcat(s, a + b + c, Copy(ConnectDst(s, node), InNode(s, node, CONNECT_SH)));
  }

  lemma {:induction false} CopyNodesFit(s: Settings, m: Machine, nodes: seq<string>)
    ensures Fits(s, CopyNodes(s, m, nodes))
  {
    if nodes != [] {
      var node := nodes[|nodes| - 1];
      CopyNodesFit(s, m, nodes[..|nodes| - 1]);
      CopyPortsFit(s, node, Ports(s, node));
      CopyScriptsFit(s, node);
      FitsConcat(s, CopyPorts(s, node, Ports(s, node)), CopyScripts(s, node));
      FitsConcat(s, CopyNodes(s, m, nodes[..|nodes| - 1]), CopyNode(s, m, node));
    }
  }

  lemma {:induction false} InstallStepsFit(s: Settings, installs: seq<Artifact>)
    ensures Fits(s, InstallSteps(s, installs))
  {
    if installs != [] {
      var a := installs[|installs| - 1];
      InstallStepsFit(s, installs[..|installs| - 1]);
      if a.Artifact? {
        var mk := [MkDir(InHome(s, DirName(a.dir)))];
        assert Fits(s, mk);
        FitsWrite(s, Path(HomeTree(s), [DirName(a.dir), a.name]), a.text);
        FitsConcat(s, mk, Write(Path(HomeTree(s), [DirName(a.dir), a.name]), a.text));
      }
      FitsConcat(s, InstallSteps(s, installs[..|installs| - 1]), InstallOne(s, a));
    }
  }

  lemma DirStepsFit(s: Settings)
    ensures Fits(s, DirSteps(s))
  {
  }

  lemma EnvStepsFit(s: Settings)
    ensures Fits(s, EnvSteps(s))
  {
    HomeNamesDiffer("");
    FitsCopy(s, InHome(s, ENV_SH), InRoot(s, ENV_SH));
    FitsCopy(s, InHome(s, AUTH_PASS), InRoot(s, AUTH_PASS));
    FitsConcat(s, Copy(InHome(s, ENV_SH), InRoot(s, ENV_SH)), Copy(InHome(s, AUTH_PASS), InRoot(s, AUTH_PASS)));
  }

  lemma DeployWellFormed(s: Settings, m: Machine, installs: seq<Artifact>)
    ensures DeployWork(s, m, installs).WellFormed(HomeTree(s))
  {
    assert InHome(s, ALL_NODES).tree == HomeTree(s) != InRoot(s, ALL_NODES).tree;
    hide Fits, DirSteps, CopyNodes, InstallSteps, EnvSteps, Nodes;
    DirStepsFit(s);
    CopyNodesFit(s, m, Nodes(s));
    InstallStepsFit(s, installs);
    EnvStepsFit(s);
    FitsConcat(s, DirSteps(s), CopyNodes(s, m, Nodes(s)));
    FitsConcat(s, DirSteps(s) + CopyNodes(s, m, Nodes(s)), InstallSteps(s, installs));
    FitsConcat(s, DirSteps(s) + CopyNodes(s, m, Nodes(s)) + InstallSteps(s, installs), EnvSteps(s));
    FitsMeans(s, DirSteps(s) + CopyNodes(s, m, Nodes(s)) + InstallSteps(s, installs) + EnvSteps(s));
    PhaseWellFormed(DeployWork(s, m, installs), HomeTree(s));
  }

  lemma FitsMeans(s: Settings, steps: seq<Step>)
    requires Fits(s, steps)
    ensures Sound(steps, {}, HomeTree(s)) && InHome(s, ALL_NODES) !in Written(steps)
  {
  }

  /** The files after a series of invocations of deploy(), each killed after so many steps. */
  function Invocations(s: Settings, m: Machine, installs: seq<Artifact>, fs: FileMap, budgets: seq<nat>): FileMap {
    if budgets == [] then fs
    else
      var before := Invocations(s, m, installs, fs, budgets[..|budgets| - 1]);
      DeployProc(s, m, installs, Proc(before, true, budgets[|budgets| - 1])).files
  }

  function Completed(s: Settings, m: Machine, installs: seq<Artifact>, fs: FileMap): FileMap {
    DeployProc(s, m, installs, Proc(fs, true, |DeployWork(s, m, installs).Steps()|)).files
  }

  predicate Prepared(s: Settings, fs: FileMap) {
    IsFile(BuildMarker(s), fs) && IsFile(InRoot(s, MARKER), fs)
  }

  /** What build and config left is read and never changed, so the guards on their markers stay as
      they were. */
  lemma StaysPrepared(s: Settings, m: Machine, installs: seq<Artifact>, fs: FileMap, budgets: seq<nat>)
    ensures Prepared(s, Attempts(DeployWork(s, m, installs), fs, budgets)) <==> Prepared(s, fs)
  {
    var ph := DeployWork(s, m, installs);
    assert ph.open.CopyOpen? && BuildMarker(s).tree != HomeTree(s) && InRoot(s, MARKER).tree != HomeTree(s);
    hide DeployWork, Attempts, Sound;
    DeployWellFormed(s, m, installs);
    AttemptsStayInside(ph, HomeTree(s), fs, budgets, BuildMarker(s));
    AttemptsStayInside(ph, HomeTree(s), fs, budgets, InRoot(s, MARKER));
  }

  lemma {:induction false} InvocationsAreAttempts(
      s: Settings, m: Machine, installs: seq<Artifact>, fs: FileMap, budgets: seq<nat>)
    ensures Invocations(s, m, installs, fs, budgets) ==
            if Prepared(s, fs) then Attempts(DeployWork(s, m, installs), fs, budgets) else fs
  {
    if budgets != [] {
      var init := budgets[..|budgets| - 1];
      InvocationsAreAttempts(s, m, installs, fs, init);
      StaysPrepared(s, m, installs, fs, init);
    }
  }

  lemma CompletedIsUninterrupted(s: Settings, m: Machine, installs: seq<Artifact>, fs: FileMap)
    ensures Completed(s, m, installs, fs) ==
            if Prepared(s, fs) then Uninterrupted(DeployWork(s, m, installs), fs) else fs
  {
    assert DeployWork(s, m, installs).open == CopyOpen(InHome(s, ALL_NODES), InRoot(s, ALL_NODES));
    hide DeployWork, Run;
  }

  /** Crash and restart of deploy: however often and wherever it has been killed, the next
      uninterrupted invocation leaves exactly the files it would have left at once, if and only
      if CLUSTER_ALL_NODES does not stand there cut short. */
  lemma DeployRestarts(s: Settings, m: Machine, installs: seq<Artifact>, fs: FileMap, budgets: seq<nat>)
    requires !IsFile(InHome(s, ALL_NODES), fs)
    ensures var c := Invocations(s, m, installs, fs, budgets);
            Completed(s, m, installs, c) == Completed(s, m, installs, fs) <==>
            (IsFile(InHome(s, ALL_NODES), c) ==>
             TextAt(InHome(s, ALL_NODES), c) == TextAt(InRoot(s, ALL_NODES), c))
  {
    var ph := DeployWork(s, m, installs);
    assert ph.open == CopyOpen(InHome(s, ALL_NODES), InRoot(s, ALL_NODES));
    assert ph.fill == CopyData(InHome(s, ALL_NODES), InRoot(s, ALL_NODES));
    assert MarkerText(ph, fs) == TextAt(InRoot(s, ALL_NODES), fs);
    assert InRoot(s, ALL_NODES).tree != HomeTree(s);
    hide *;
    var c := Invocations(s, m, installs, fs, budgets);
    DeployWellFormed(s, m, installs);
    InvocationsAreAttempts(s, m, installs, fs, budgets);
    CompletedIsUninterrupted(s, m, installs, fs);
    CompletedIsUninterrupted(s, m, installs, c);
    if Prepared(s, fs) {
      StaysPrepared(s, m, installs, fs, budgets);
      RestartByText(ph, HomeTree(s), fs, budgets);
      AttemptsStayInside(ph, HomeTree(s), fs, budgets, InRoot(s, ALL_NODES));
      SameText(InRoot(s, ALL_NODES), c, fs);
    }
  }

  lemma SameText(p: Path, a: FileMap, b: FileMap)
    requires Same(p, a, b)
    ensures TextAt(p, a) == TextAt(p, b)
  {
  }

  /** Marker safety of deploy: wherever it has been killed, CLUSTER_ALL_NODES is in the home only
      if everything else there is as an uninterrupted invocation leaves it. */
  lemma DeployMarkerSafe(s: Settings, m: Machine, installs: seq<Artifact>, fs: FileMap, budgets: seq<nat>)
    requires !IsFile(InHome(s, ALL_NODES), fs)
    ensures var c := Invocations(s, m, installs, fs, budgets);
            IsFile(InHome(s, ALL_NODES), c) ==>
            AgreeExcept(c, Completed(s, m, installs, fs), {InHome(s, ALL_NODES)})
  {
    var ph := DeployWork(s, m, installs);
    assert ph.open.dst == InHome(s, ALL_NODES);
    hide DeployWork, Completed, Invocations, Attempts, Uninterrupted, Sound, Prepared, AgreeExcept;
    DeployWellFormed(s, m, installs);
    InvocationsAreAttempts(s, m, installs, fs, budgets);
    CompletedIsUninterrupted(s, m, installs, fs);
    MarkerSafety(ph, HomeTree(s), fs, budgets);
  }
}
