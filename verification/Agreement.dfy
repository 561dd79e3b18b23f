/** What config() writes, deploy() copies and the generated scripts use fit together. */
module Agreement {
  import opened ConfigPhase
  import opened DeployPhase
  import opened Files
  import opened Names
  import opened Render
  import opened Text

  ghost predicate Holds(p: Path, text: string, fs: FileMap) {
    p in fs && fs[p] == File(text)
  }

  lemma AllWrite(dst: Path, text: string, fs: FileMap)
    ensures All(Write(dst, text), fs) == fs[dst := File(text)]
  {
    assert Write(dst, text) == [] + [Create(dst)] + [Append(dst, text)];
    AllAppend([], Create(dst), fs);
    AllAppend([] + [Create(dst)], Append(dst, text), fs);
    assert "" + text == text;
  }

  lemma AllCopy(dst: Path, src: Path, fs: FileMap)
    requires dst != src
    ensures All(Copy(dst, src), fs) == fs[dst := File(TextAt(src, fs))]
  {
    assert Copy(dst, src) == [] + [CopyOpen(dst, src)] + [CopyData(dst, src)];
    AllAppend([], CopyOpen(dst, src), fs);
    AllAppend([] + [CopyOpen(dst, src)], CopyData(dst, src), fs);
  }

  /* ---------- names ---------- */

  predicate DashFree(s: string) {
    '-' !in s
  }

  lemma SameMiddle(a: string, b: string, prefix: string, suffix: string)
    requires prefix + a + suffix == prefix + b + suffix
    ensures a == b
  {
    assert (prefix + a + suffix)[|prefix|..|prefix| + |a|] == a;
    assert (prefix + b + suffix)[|prefix|..|prefix| + |b|] == b;
  }

  lemma HasDash(n1: string, p1: string, n2: string, p2: string)
    requires Shifts(n1, p1, n2, p2)
    ensures !DashFree(p2)
  {
    assert p2[|n1| - |n2| - 1] == '-';
  }

  /** The dash between the first node and its port moves to the left: the first node is the second,
      a dash and something more, which the second port has in front. */
  predicate Shifts(n1: string, p1: string, n2: string, p2: string) {
    |n2| < |n1| && n1[..|n2| + 1] == n2 + "-" && p2 == n1[|n2| + 1..] + "-" + p1
  }

  lemma ShiftedName(n1: string, p1: string, n2: string, p2: string)
    requires Shifts(n1, p1, n2, p2)
    ensures n1 + "-" + p1 == n2 + "-" + p2
  {
    var x := n1[|n2| + 1..];
    assert n1 == n2 + "-" + x;
    assert n1 + "-" + p1 == n2 + "-" + (x + "-" + p1);
  }

  lemma ShorterNode(n1: string, p1: string, n2: string, p2: string)
    requires n1 + "-" + p1 == n2 + "-" + p2 && |n2| < |n1|
    ensures Shifts(n1, p1, n2, p2)
  {
    var a, b := n1 + "-" + p1, n2 + "-" + p2;
    assert a[..|n2| + 1] == n1[..|n2| + 1] && b[..|n2| + 1] == n2 + "-";
    assert b[|n2| + 1..] == p2 && a[|n2| + 1..] == n1[|n2| + 1..] + "-" + p1;
  }

  lemma SameNode(n1: string, p1: string, n2: string, p2: string)
    requires n1 + "-" + p1 == n2 + "-" + p2 && |n1| == |n2|
    ensures n1 == n2 && p1 == p2
  {
    var a, b := n1 + "-" + p1, n2 + "-" + p2;
    assert a[..|n1|] == n1 && b[..|n2|] == n2 && a[|n1| + 1..] == p1 && b[|n2| + 1..] == p2;
  }

  /** Two instances share a file name if and only if they are the same or one is the other with the
      dash shifted. */
  lemma ConfNamesCollide(n1: string, p1: string, n2: string, p2: string)
    ensures ConfName(n1, p1) == ConfName(n2, p2) <==>
            (n1 == n2 && p1 == p2) || Shifts(n1, p1, n2, p2) || Shifts(n2, p2, n1, p1)
  {
    var a, b := n1 + "-" + p1, n2 + "-" + p2;
    assert ConfName(n1, p1) == "redis-" + a + ".conf" && ConfName(n2, p2) == "redis-" + b + ".conf";
    if ConfName(n1, p1) == ConfName(n2, p2) {
      SameMiddle(a, b, "redis-", ".conf");
      if |n1| == |n2| {
        SameNode(n1, p1, n2, p2);
      } else if |n2| < |n1| {
        ShorterNode(n1, p1, n2, p2);
      } else {
        ShorterNode(n2, p2, n1, p1);
      }
    }
    if Shifts(n1, p1, n2, p2) { ShiftedName(n1, p1, n2, p2); }
    if Shifts(n2, p2, n1, p1) { ShiftedName(n2, p2, n1, p1); }
  }

  /** With a dash in a port, two instances can share one name. */
  lemma DashesCollide()
    ensures ConfName("a", "1-2") == ConfName("a-1", "2")
  {
  }

  lemma ConfNameOfNode(node: string, p1: string, p2: string)
    requires ConfName(node, p1) == ConfName(node, p2)
    ensures p1 == p2
  {
    SameMiddle(p1, p2, "redis-" + node + "-", ".conf");
  }

  /** The scripts of a node and its configuration files have different names. */
  lemma ScriptNames(node: string, port: string)
    ensures START_SH != SHUTDOWN_SH && START_SH != CONNECT_SH && SHUTDOWN_SH != CONNECT_SH
    ensures ConfName(node, port) !in {START_SH, SHUTDOWN_SH, CONNECT_SH}
  {
    assert START_SH[0] == 's' && SHUTDOWN_SH[0] == 's' && CONNECT_SH[0] == 'c' && ConfName(node, port)[0] == 'r';
    assert START_SH[1] == 't' && SHUTDOWN_SH[1] == 'h';
  }

  /* ---------- expected files ---------- */

  /** Every expected file is there with its text. */
  ghost predicate Fulfils(fs: FileMap, want: map<Path, string>) {
    forall p | p in want :: Holds(p, want[p], fs)
  }

  lemma Keeps(steps: seq<Step>, fs: FileMap, want: map<Path, string>)
    requires Fulfils(fs, want) && want.Keys !! Targets(steps) && NoRemoval(steps)
    ensures Fulfils(All(steps, fs), want)
  {
    forall p | p in want ensures Holds(p, want[p], All(steps, fs)) {
      assert p in want.Keys && Holds(p, want[p], fs);
      Untouched(steps, fs, p);
    }
  }

  lemma WriteFulfils(before: seq<Step>, dst: Path, text: string, fs: FileMap, want: map<Path, string>)
    requires Fulfils(All(before, fs), want)
    ensures Fulfils(All(before + Write(dst, text), fs), want[dst := text])
  {
    AllConcat(before, Write(dst, text), fs);
    AllWrite(dst, text, All(before, fs));
    var w, r := want[dst := text], All(before + Write(dst, text), fs);
    forall p | p in w ensures Holds(p, w[p], r) {
      assert p != dst ==> Holds(p, want[p], All(before, fs));
    }
  }

  lemma CopyFulfils(before: seq<Step>, dst: Path, src: Path, text: string, fs: FileMap, want: map<Path, string>)
    requires Fulfils(All(before, fs), want) && dst != src && Holds(src, text, All(before, fs))
    ensures Fulfils(All(before + Copy(dst, src), fs), want[dst := text])
  {
    AllConcat(before, Copy(dst, src), fs);
    AllCopy(dst, src, All(before, fs));
    var w, r := want[dst := text], All(before + Copy(dst, src), fs);
    forall p | p in w ensures Holds(p, w[p], r) {
      assert p != dst ==> Holds(p, want[p], All(before, fs));
    }
  }

  /* ---------- what config leaves ---------- */

  function StartText(s: Settings, node: string): string {
    Pipeline(s.startSh, ScriptPasses(s, node))
  }

  function ShutdownText(s: Settings, node: string): string {
    Pipeline(s.shutdownSh, ScriptPasses(s, node))
  }

  function ConnectText(s: Settings, node: string): string {
    if Ports(s, node) == [] then "" else Pipeline(s.connectSh, ConnectPasses(s, node))
  }

  function PortFiles(s: Settings, node: string, ports: seq<string>): map<Path, string> {
    if ports == [] then map[]
    else
      var port := ports[|ports| - 1];
      PortFiles(s, node, ports[..|ports| - 1])[InNode(s, node, ConfName(node, port)) := InstanceConf(s, node, port)]
  }

  function NodeFiles(s: Settings, node: string): map<Path, string> {
    PortFiles(s, node, Ports(s, node))
      [InNode(s, node, START_SH) := StartText(s, node)]
      [InNode(s, node, SHUTDOWN_SH) := ShutdownText(s, node)]
      [InNode(s, node, CONNECT_SH) := ConnectText(s, node)]
  }

  /** host:port for every node in order, and for each its ports in order. */
  function NodeLines(s: Settings, node: string, ports: seq<string>): string {
    if ports == [] then ""
    else NodeLines(s, node, ports[..|ports| - 1]) + NodeLine(s, node, ports[|ports| - 1])
  }

  function AllLines(s: Settings, nodes: seq<string>): string {
    if nodes == [] then ""
    else
      var node := nodes[|nodes| - 1];
      AllLines(s, nodes[..|nodes| - 1]) + NodeLines(s, node, Ports(s, node))
  }

  lemma {:induction false} PortFilesKeys(s: Settings, node: string, ports: seq<string>)
    ensures forall p | p in PortFiles(s, node, ports) ::
              exists port :: port in ports && p == InNode(s, node, ConfName(node, port))
    ensures forall port | port in ports ::
              InNode(s, node, ConfName(node, port)) in PortFiles(s, node, ports)
              && PortFiles(s, node, ports)[InNode(s, node, ConfName(node, port))] == InstanceConf(s, node, port)
  {
    if ports != [] {
      var init, last := ports[..|ports| - 1], ports[|ports| - 1];
      PortFilesKeys(s, node, init);
      forall p | p in PortFiles(s, node, ports)
        ensures exists port :: port in ports && p == InNode(s, node, ConfName(node, port))
      {
        if p in PortFiles(s, node, init) {
          var port :| port in init && p == InNode(s, node, ConfName(node, port));
          assert port in ports;
        } else {
          assert last in ports;
        }
      }
      forall port | port in ports
        ensures InNode(s, node, ConfName(node, port)) in PortFiles(s, node, ports)
        ensures PortFiles(s, node, ports)[InNode(s, node, ConfName(node, port))] == InstanceConf(s, node, port)
      {
        if ConfName(node, port) == ConfName(node, last) {
          ConfNameOfNode(node, port, last);
        } else {
          assert port in init;
        }
      }
    }
  }

  /** The files of these ports can be opened. */
  predicate Flat(node: string, ports: seq<string>) {
    forall port | port in ports :: '/' !in ConfName(node, port)
  }

  lemma {:induction false} PortStepsEffect(s: Settings, node: string, ports: seq<string>, fs: FileMap)
    requires Flat(node, ports)
    ensures Fulfils(All(PortSteps(s, node, ports), fs), PortFiles(s, node, ports))
  {
    hide InstanceConf, NodeLine;
    if ports != [] {
      var init, port := ports[..|ports| - 1], ports[|ports| - 1];
      assert port in ports && forall q | q in init :: q in ports;
      hide OnePort, Flat, ConfName;
      PortStepsEffect(s, node, init, fs);
      PortFilesKeys(s, node, init);
      OnePortEffect(s, node, port, PortSteps(s, node, init), fs, PortFiles(s, node, init));
    }
  }

  lemma OnePortEffect(s: Settings, node: string, port: string, before: seq<Step>, fs: FileMap, want: map<Path, string>)
    requires '/' !in ConfName(node, port) && Fulfils(All(before, fs), want) && InRoot(s, ALL_NODES) !in want
    ensures Fulfils(All(before + OnePort(s, node, port), fs),
                    want[InNode(s, node, ConfName(node, port)) := InstanceConf(s, node, port)])
  {
    hide InstanceConf, NodeLine, ConfName;
    var line := [Append(InRoot(s, ALL_NODES), NodeLine(s, node, port))];
    AllConcat(before, line, fs);
    Keeps(line, All(before, fs), want);
    WriteFulfils(before + line, InNode(s, node, ConfName(node, port)), InstanceConf(s, node, port), fs, want);
    assert before + OnePort(s, node, port) ==
           before + line + Write(InNode(s, node, ConfName(node, port)), InstanceConf(s, node, port));
  }

  /** Every command of the node can succeed: it has a port, its files can be opened, and the last sed
      of each script accepts its value. */
  predicate NodeConfigurable(s: Settings, node: string) {
    && Ports(s, node) != [] && Flat(node, Ports(s, node))
    && Succeeds(ScriptPasses(s, node)) && Succeeds(ConnectPasses(s, node))
  }

  /** The scripts of a node, after the password file has been put beside its directory. */
  lemma ScriptStepsEffect(s: Settings, node: string, before: seq<Step>, fs: FileMap, want: map<Path, string>)
    requires Fulfils(All(before, fs), want) && InRoot(s, AUTH_PASS) !in want && NodeConfigurable(s, node)
    requires AuthDst(s) == InRoot(s, AUTH_PASS)
    ensures Fulfils(All(before + ScriptSteps(s, node), fs),
                    want[InRoot(s, AUTH_PASS) := s.auth.GetOr("")]
                        [InNode(s, node, START_SH) := StartText(s, node)]
                        [InNode(s, node, SHUTDOWN_SH) := ShutdownText(s, node)]
                        [InNode(s, node, CONNECT_SH) := ConnectText(s, node)])
  {
    hide Pipeline, ScriptPasses, ConnectPasses, Ports, Flat, AuthDst;
    var a := Write(InRoot(s, AUTH_PASS), s.auth.GetOr(""));
    var b := Write(InNode(s, node, START_SH), StartText(s, node));
    var c := Write(InNode(s, node, SHUTDOWN_SH), ShutdownText(s, node));
    var d := Write(InNode(s, node, CONNECT_SH), ConnectText(s, node));
    var w1 := want[InRoot(s, AUTH_PASS) := s.auth.GetOr("")];
    var w2 := w1[InNode(s, node, START_SH) := StartText(s, node)];
    var w3 := w2[InNode(s, node, SHUTDOWN_SH) := ShutdownText(s, node)];
    WriteFulfils(before, InRoot(s, AUTH_PASS), s.auth.GetOr(""), fs, want);
    WriteFulfils(before + a, InNode(s, node, START_SH), StartText(s, node), fs, w1);
    WriteFulfils(before + a + b, InNode(s, node, SHUTDOWN_SH), ShutdownText(s, node), fs, w2);
    WriteFulfils(before + a + b + c, InNode(s, node, CONNECT_SH), ConnectText(s, node), fs, w3);
    assert before + ScriptSteps(s, node) == before + a + b + c + d;
  }

  lemma NodeStepsEffect(s: Settings, node: string, fs: FileMap)
    requires NodeConfigurable(s, node) && AuthDst(s) == InRoot(s, AUTH_PASS)
    ensures Fulfils(All(NodeSteps(s, node), fs), NodeFiles(s, node)[InRoot(s, AUTH_PASS) := s.auth.GetOr("")])
  {
    hide StartText, ShutdownText, ConnectText, InstanceConf, ScriptSteps, Ports, ScriptPasses, ConnectPasses, AuthDst;
    var mk := [MkDir(NodeDir(s, node))];
    var ports := Ports(s, node);
    var steps := mk + PortSteps(s, node, ports);
    AllConcat(mk, PortSteps(s, node, ports), fs);
    PortStepsEffect(s, node, ports, All(mk, fs));
    PortFilesKeys(s, node, ports);
    ScriptStepsEffect(s, node, steps, fs, PortFiles(s, node, ports));
    MapOrder(PortFiles(s, node, ports), InRoot(s, AUTH_PASS), s.auth.GetOr(""),
             InNode(s, node, START_SH), StartText(s, node), InNode(s, node, SHUTDOWN_SH), ShutdownText(s, node),
             InNode(s, node, CONNECT_SH), ConnectText(s, node));
  }

  /** Updates of different keys commute. */
  lemma MapOrder(w: map<Path, string>, k: Path, v: string,
                 a: Path, x: string, b: Path, y: string, c: Path, z: string)
    requires k != a && k != b && k != c
    ensures w[k := v][a := x][b := y][c := z] == w[a := x][b := y][c := z][k := v]
  {
  }

  /** Everything a node's steps touch is in its own directory or one of the two shared files. */
  predicate OfNode(s: Settings, node: string, p: Path) {
    p in {InRoot(s, ALL_NODES), InRoot(s, AUTH_PASS)} || (p.rel != [] && p.rel[0] == node)
  }

  ghost predicate StepsOfNode(s: Settings, node: string, steps: seq<Step>) {
    forall t: Step | t in steps :: !t.RemoveTree? && (HasTarget(t) ==> OfNode(s, node, t.dst))
  }

  lemma {:induction false} PortStepsOfNode(s: Settings, node: string, ports: seq<string>)
    ensures StepsOfNode(s, node, PortSteps(s, node, ports))
  {
    hide InstanceConf, NodeLine;
    if ports != [] {
      PortStepsOfNode(s, node, ports[..|ports| - 1]);
      var port := ports[|ports| - 1];
      assert StepsOfNode(s, node, OnePort(s, node, port));
    }
  }

  lemma OfNodeConcat(s: Settings, node: string, a: seq<Step>, b: seq<Step>)
    requires StepsOfNode(s, node, a) && StepsOfNode(s, node, b)
    ensures StepsOfNode(s, node, a + b)
  {
  }

  lemma RenderOfNode(s: Settings, node: string, dst: Path, template: string, passes: seq<Pass>)
    requires OfNode(s, node, dst)
    ensures StepsOfNode(s, node, RenderSteps(dst, template, passes))
  {
    hide Pipeline, Succeeds;
  }

  lemma ScriptStepsOfNode(s: Settings, node: string)
    requires AuthDst(s) == InRoot(s, AUTH_PASS)
    ensures StepsOfNode(s, node, ScriptSteps(s, node))
  {
    hide RenderSteps, ScriptPasses, ConnectPasses, Ports, AuthDst;
    var auth := Write(AuthDst(s), s.auth.GetOr(""));
    var start := RenderSteps(InNode(s, node, START_SH), s.startSh, ScriptPasses(s, node));
    var shutdown := RenderSteps(InNode(s, node, SHUTDOWN_SH), s.shutdownSh, ScriptPasses(s, node));
    RenderOfNode(s, node, InNode(s, node, START_SH), s.startSh, ScriptPasses(s, node));
    RenderOfNode(s, node, InNode(s, node, SHUTDOWN_SH), s.shutdownSh, ScriptPasses(s, node));
    if Ports(s, node) != [] {
      RenderOfNode(s, node, InNode(s, node, CONNECT_SH), s.connectSh, ConnectPasses(s, node));
    }
    OfNodeConcat(s, node, auth, start);
    OfNodeConcat(s, node, auth + start, shutdown);
    OfNodeConcat(s, node, auth + start + shutdown, ConnectSteps(s, node));
  }

  lemma NodeStepsOfNode(s: Settings, node: string)
    requires AuthDst(s) == InRoot(s, AUTH_PASS)
    ensures StepsOfNode(s, node, NodeSteps(s, node))
  {
    hide ScriptSteps, PortSteps, AuthDst;
    PortStepsOfNode(s, node, Ports(s, node));
    ScriptStepsOfNode(s, node);
    OfNodeConcat(s, node, [MkDir(NodeDir(s, node))], PortSteps(s, node, Ports(s, node)));
    OfNodeConcat(s, node, [MkDir(NodeDir(s, node))] + PortSteps(s, node, Ports(s, node)), ScriptSteps(s, node));
  }

  lemma NodeFilesKeys(s: Settings, node: string)
    ensures forall p | p in NodeFiles(s, node) :: p.tree == Config(s.id) && |p.rel| == 2 && p.rel[0] == node
  {
    hide StartText, ShutdownText, ConnectText, InstanceConf;
    PortFilesKeys(s, node, Ports(s, node));
  }

  function NodesFiles(s: Settings, nodes: seq<string>): map<Path, string> {
    if nodes == [] then map[]
    else NodesFiles(s, nodes[..|nodes| - 1]) + NodeFiles(s, nodes[|nodes| - 1])
  }

  lemma {:induction false} NodesFilesKeys(s: Settings, nodes: seq<string>)
    ensures forall p | p in NodesFiles(s, nodes) ::
              p.tree == Config(s.id) && |p.rel| == 2 && p.rel[0] in nodes && p in NodeFiles(s, p.rel[0])
              && NodesFiles(s, nodes)[p] == NodeFiles(s, p.rel[0])[p]
    ensures forall n, p | n in nodes && p in NodeFiles(s, n) :: p in NodesFiles(s, nodes)
  {
    hide NodeFiles;
    if nodes != [] {
      var init, last := nodes[..|nodes| - 1], nodes[|nodes| - 1];
      NodesFilesKeys(s, init);
      NodeFilesKeys(s, last);
      assert last in nodes && forall n | n in init :: n in nodes;
      assert forall n | n in nodes :: n in init || n == last;
    }
  }

  /** The files of the first nodes that do not belong to this one. */
  function OtherFiles(s: Settings, nodes: seq<string>, node: string): map<Path, string> {
    map p | p in NodesFiles(s, nodes) && (p.rel == [] || p.rel[0] != node) :: NodesFiles(s, nodes)[p]
  }

  lemma OthersKept(s: Settings, nodes: seq<string>, node: string, fs: FileMap)
    requires Fulfils(fs, NodesFiles(s, nodes)) && AuthDst(s) == InRoot(s, AUTH_PASS)
    ensures Fulfils(All(NodeSteps(s, node), fs), OtherFiles(s, nodes, node))
  {
    hide NodeSteps, NodesFiles, NodeFiles, AuthDst;
    var others := OtherFiles(s, nodes, node);
    NodesFilesKeys(s, nodes);
    NodeStepsOfNode(s, node);
    forall p | p in others ensures Holds(p, others[p], fs) && p !in Targets(NodeSteps(s, node)) {
      assert Holds(p, NodesFiles(s, nodes)[p], fs);
    }
    Keeps(NodeSteps(s, node), fs, others);
  }

  lemma {:induction false} NodesStepsEffect(s: Settings, nodes: seq<string>, fs: FileMap)
    requires (forall n | n in nodes :: NodeConfigurable(s, n)) && AuthDst(s) == InRoot(s, AUTH_PASS)
    ensures Fulfils(All(NodesSteps(s, nodes), fs), NodesFiles(s, nodes))
    ensures nodes != [] ==> Holds(InRoot(s, AUTH_PASS), s.auth.GetOr(""), All(NodesSteps(s, nodes), fs))
  {
    hide NodeFiles, NodeSteps, NodeConfigurable, AuthDst;
    if nodes != [] {
      var init, node := nodes[..|nodes| - 1], nodes[|nodes| - 1];
      var before := All(NodesSteps(s, init), fs);
      var r := All(NodeSteps(s, node), before);
      assert node in nodes && forall n | n in init :: n in nodes;
      NodesStepsEffect(s, init, fs);
      AllConcat(NodesSteps(s, init), NodeSteps(s, node), fs);
      NodeStepsEffect(s, node, before);
      NodeFilesKeys(s, node);
      NodesFilesKeys(s, init);
      OthersKept(s, init, node, before);
      var mine := NodeFiles(s, node)[InRoot(s, AUTH_PASS) := s.auth.GetOr("")];
      forall p | p in NodesFiles(s, nodes) ensures Holds(p, NodesFiles(s, nodes)[p], r) {
        if p in NodeFiles(s, node) {
          assert p in mine && Holds(p, mine[p], r);
        } else {
          assert p in OtherFiles(s, init, node) && Holds(p, OtherFiles(s, init, node)[p], r);
        }
      }
      assert InRoot(s, AUTH_PASS) in mine;
    }
  }

  /* ---------- the list of all nodes ---------- */

  lemma AppendHolds(p: Path, text: string, more: string, fs: FileMap)
    requires Holds(p, text, fs)
    ensures Holds(p, text + more, All([Append(p, more)], fs))
  {
    AllAppend([], Append(p, more), fs);
    assert [] + [Append(p, more)] == [Append(p, more)];
  }

  lemma HoldsKept(steps: seq<Step>, p: Path, text: string, fs: FileMap)
    requires Holds(p, text, fs) && p !in Targets(steps) && NoRemoval(steps)
    ensures Holds(p, text, All(steps, fs))
  {
    Untouched(steps, fs, p);
  }

  lemma OnePortList(s: Settings, node: string, port: string, text: string, fs: FileMap)
    requires Holds(InRoot(s, ALL_NODES), text, fs)
    ensures Holds(InRoot(s, ALL_NODES), text + NodeLine(s, node, port), All(OnePort(s, node, port), fs))
  {
    hide InstanceConf, NodeLine;
    var list := InRoot(s, ALL_NODES);
    var line := [Append(list, NodeLine(s, node, port))];
    var conf := if '/' in ConfName(node, port) then [Halt]
                else Write(InNode(s, node, ConfName(node, port)), InstanceConf(s, node, port));
    AllConcat(line, conf, fs);
    AppendHolds(list, text, NodeLine(s, node, port), fs);
    HoldsKept(conf, list, text + NodeLine(s, node, port), All(line, fs));
  }

  lemma {:induction false} PortStepsList(s: Settings, node: string, ports: seq<string>, text: string, fs: FileMap)
    requires Holds(InRoot(s, ALL_NODES), text, fs)
    ensures Holds(InRoot(s, ALL_NODES), text + NodeLines(s, node, ports), All(PortSteps(s, node, ports), fs))
  {
    hide OnePort, NodeLine;
    if ports == [] {
      assert text + "" == text;
    } else {
      var init, port := ports[..|ports| - 1], ports[|ports| - 1];
      PortStepsList(s, node, init, text, fs);
      AllConcat(PortSteps(s, node, init), OnePort(s, node, port), fs);
      OnePortList(s, node, port, text + NodeLines(s, node, init), All(PortSteps(s, node, init), fs));
      assert text + NodeLines(s, node, init) + NodeLine(s, node, port) == text + NodeLines(s, node, ports);
    }
  }

  lemma RenderSparesList(s: Settings, dst: Path, template: string, passes: seq<Pass>)
    requires dst != InRoot(s, ALL_NODES)
    ensures InRoot(s, ALL_NODES) !in Targets(RenderSteps(dst, template, passes))
    ensures NoRemoval(RenderSteps(dst, template, passes))
  {
    hide Pipeline, Succeeds;
  }

  lemma SparesConcat(p: Path, a: seq<Step>, b: seq<Step>)
    requires p !in Targets(a) && NoRemoval(a) && p !in Targets(b) && NoRemoval(b)
    ensures p !in Targets(a + b) && NoRemoval(a + b)
  {
  }

  /** The scripts are not the list. */
  lemma ScriptStepsSpareList(s: Settings, node: string)
    ensures InRoot(s, ALL_NODES) !in Targets(ScriptSteps(s, node)) && NoRemoval(ScriptSteps(s, node))
  {
    hide RenderSteps, ScriptPasses, ConnectPasses, Ports, Nodes;
    NamesDiffer();
    var list := InRoot(s, ALL_NODES);
    var auth := Write(AuthDst(s), s.auth.GetOr(""));
    var start := RenderSteps(InNode(s, node, START_SH), s.startSh, ScriptPasses(s, node));
    var shutdown := RenderSteps(InNode(s, node, SHUTDOWN_SH), s.shutdownSh, ScriptPasses(s, node));
    RenderSparesList(s, InNode(s, node, START_SH), s.startSh, ScriptPasses(s, node));
    RenderSparesList(s, InNode(s, node, SHUTDOWN_SH), s.shutdownSh, ScriptPasses(s, node));
    if Ports(s, node) != [] {
      RenderSparesList(s, InNode(s, node, CONNECT_SH), s.connectSh, ConnectPasses(s, node));
    }
    SparesConcat(list, auth, start);
    SparesConcat(list, auth + start, shutdown);
    SparesConcat(list, auth + start + shutdown, ConnectSteps(s, node));
  }

  lemma NodeStepsList(s: Settings, node: string, text: string, fs: FileMap)
    requires Holds(InRoot(s, ALL_NODES), text, fs) && node != ALL_NODES
    ensures Holds(InRoot(s, ALL_NODES), text + NodeLines(s, node, Ports(s, node)), All(NodeSteps(s, node), fs))
  {
    hide ScriptSteps, Ports, NodeLines;
    var mk := [MkDir(NodeDir(s, node))];
    var ports := Ports(s, node);
    var list := InRoot(s, ALL_NODES);
    AllConcat(mk, PortSteps(s, node, ports), fs);
    AllConcat(mk + PortSteps(s, node, ports), ScriptSteps(s, node), fs);
    HoldsKept(mk, list, text, fs);
    PortStepsList(s, node, ports, text, All(mk, fs));
    ScriptStepsSpareList(s, node);
    HoldsKept(ScriptSteps(s, node), list, text + NodeLines(s, node, ports),
              All(mk + PortSteps(s, node, ports), fs));
  }

  lemma {:induction false} NodesStepsList(s: Settings, nodes: seq<string>, fs: FileMap)
    requires Holds(InRoot(s, ALL_NODES), "", fs) && ALL_NODES !in nodes
    ensures Holds(InRoot(s, ALL_NODES), AllLines(s, nodes), All(NodesSteps(s, nodes), fs))
  {
    hide NodeSteps, NodeLines, Ports;
    if nodes != [] {
      var init, node := nodes[..|nodes| - 1], nodes[|nodes| - 1];
      assert node in nodes && forall n | n in init :: n in nodes;
      NodesStepsList(s, init, fs);
      AllConcat(NodesSteps(s, init), NodeSteps(s, node), fs);
      NodeStepsList(s, node, AllLines(s, init), All(NodesSteps(s, init), fs));
    }
  }

  /* ---------- config as a whole ---------- */

  function EnvText(s: Settings): string {
    Pipeline(s.envSh, EnvPasses(s))
  }

  /** Everything a completed config() is for. */
  function ConfigFiles(s: Settings): map<Path, string> {
    var nodes := NodesFiles(s, Nodes(s))[InRoot(s, ALL_NODES) := AllLines(s, Nodes(s))];
    (if Nodes(s) == [] then nodes else nodes[InRoot(s, AUTH_PASS) := s.auth.GetOr("")])
      [InRoot(s, ENV_SH) := EnvText(s)]
      [InRoot(s, CREATE_SH) := s.createSh]
      [InRoot(s, MARKER) := MARKER_TEXT]
  }

  lemma StartStepsEffect(s: Settings, fs: FileMap)
    ensures Holds(InRoot(s, ALL_NODES), "", All(StartSteps(s), fs))
  {
    AllAppend([MkDir(Root(s))] + (if s.auth.None? then [Halt] else []), Create(InRoot(s, ALL_NODES)), fs);
  }

  /** Every command behind the first two can succeed. */
  predicate NodesConfigurable(s: Settings) {
    Succeeds(EnvPasses(s)) && forall n | n in Nodes(s) :: NodeConfigurable(s, n)
  }

  lemma ConfigEffect(s: Settings, fs: FileMap)
    requires ALL_NODES !in Nodes(s) && AUTH_PASS !in Nodes(s) && NodesConfigurable(s)
    ensures Fulfils(All(ConfigWork(s).Steps(), fs), ConfigFiles(s))
  {
    hide Nodes, NodesSteps, NodesFiles, AllLines, Pipeline, EnvPasses, NodeConfigurable;
    var nodes := Nodes(s);
    var front := StartSteps(s) + NodesSteps(s, nodes);
    var want := NodesFiles(s, nodes)[InRoot(s, ALL_NODES) := AllLines(s, nodes)];
    var want2 := if nodes == [] then want else want[InRoot(s, AUTH_PASS) := s.auth.GetOr("")];
    AllConcat(StartSteps(s), NodesSteps(s, nodes), fs);
    StartStepsEffect(s, fs);
    AuthBeside(s);
    NodesStepsEffect(s, nodes, All(StartSteps(s), fs));
    NodesStepsList(s, nodes, All(StartSteps(s), fs));
    FulfilsMore(All(front, fs), NodesFiles(s, nodes), InRoot(s, ALL_NODES), AllLines(s, nodes));
    if nodes != [] {
      FulfilsMore(All(front, fs), want, InRoot(s, AUTH_PASS), s.auth.GetOr(""));
    }
    var env := Write(InRoot(s, ENV_SH), EnvText(s));
    var create := Write(InRoot(s, CREATE_SH), s.createSh);
    WriteFulfils(front, InRoot(s, ENV_SH), EnvText(s), fs, want2);
    WriteFulfils(front + env, InRoot(s, CREATE_SH), s.createSh, fs, want2[InRoot(s, ENV_SH) := EnvText(s)]);
    WriteFulfils(front + env + create, InRoot(s, MARKER), MARKER_TEXT, fs,
                 want2[InRoot(s, ENV_SH) := EnvText(s)][InRoot(s, CREATE_SH) := s.createSh]);
    assert ConfigWork(s).Steps() == front + env + create + Write(InRoot(s, MARKER), MARKER_TEXT);
  }

  lemma FulfilsMore(fs: FileMap, want: map<Path, string>, p: Path, text: string)
    requires Fulfils(fs, want) && Holds(p, text, fs)
    ensures Fulfils(fs, want[p := text])
  {
    var w := want[p := text];
    forall q | q in w ensures Holds(q, w[q], fs) {
      assert q != p ==> Holds(q, want[q], fs);
    }
  }

  lemma AuthBeside(s: Settings)
    requires AUTH_PASS !in Nodes(s)
    ensures AuthDst(s) == InRoot(s, AUTH_PASS)
  {
    hide Nodes;
    assert Nodes(s) != [] ==> Nodes(s)[0] in Nodes(s);
  }

  /** config() can get through: there is a password file, and every command can succeed. */
  predicate Configurable(s: Settings) {
    s.auth.Some? && NodesConfigurable(s)
  }

  lemma FlatPrefix(node: string, ports: seq<string>)
    requires ports != []
    ensures Flat(node, ports) <==> Flat(node, ports[..|ports| - 1]) && '/' !in ConfName(node, ports[|ports| - 1])
  {
    var init, last := ports[..|ports| - 1], ports[|ports| - 1];
    assert last in ports && forall port :: port in ports <==> port in init || port == last;
  }

  lemma {:induction false} PortStepsHalt(s: Settings, node: string, ports: seq<string>)
    ensures Halt in PortSteps(s, node, ports) <==> !Flat(node, ports)
    ensures forall t: Step | t in PortSteps(s, node, ports) :: !t.CopyOpen?
  {
    hide InstanceConf, NodeLine, Flat, ConfName;
    if ports == [] {
      FlatNothing(node);
    } else {
      PortStepsHalt(s, node, ports[..|ports| - 1]);
      FlatPrefix(node, ports);
      var port := ports[|ports| - 1];
      assert Halt in OnePort(s, node, port) <==> '/' in ConfName(node, port);
      assert forall t: Step | t in OnePort(s, node, port) :: !t.CopyOpen?;
    }
  }

  lemma FlatNothing(node: string)
    ensures Flat(node, [])
  {
  }

  lemma RenderHalt(dst: Path, template: string, passes: seq<Pass>)
    ensures Halt in RenderSteps(dst, template, passes) <==> !Succeeds(passes)
    ensures forall t: Step | t in RenderSteps(dst, template, passes) :: !t.CopyOpen?
  {
    hide Pipeline, Succeeds;
  }

  lemma HaltConcat(a: seq<Step>, b: seq<Step>)
    requires (forall t: Step | t in a :: !t.CopyOpen?) && forall t: Step | t in b :: !t.CopyOpen?
    ensures Halt in a + b <==> Halt in a || Halt in b
    ensures forall t: Step | t in a + b :: !t.CopyOpen?
  {
  }

  lemma ScriptStepsHalt(s: Settings, node: string)
    ensures Halt !in ScriptSteps(s, node) <==>
            Ports(s, node) != [] && Succeeds(ScriptPasses(s, node)) && Succeeds(ConnectPasses(s, node))
    ensures forall t: Step | t in ScriptSteps(s, node) :: !t.CopyOpen?
  {
    hide RenderSteps, ScriptPasses, ConnectPasses, Ports, Succeeds, AuthDst;
    var auth := Write(AuthDst(s), s.auth.GetOr(""));
    var start := RenderSteps(InNode(s, node, START_SH), s.startSh, ScriptPasses(s, node));
    var shutdown := RenderSteps(InNode(s, node, SHUTDOWN_SH), s.shutdownSh, ScriptPasses(s, node));
    RenderHalt(InNode(s, node, START_SH), s.startSh, ScriptPasses(s, node));
    RenderHalt(InNode(s, node, SHUTDOWN_SH), s.shutdownSh, ScriptPasses(s, node));
    if Ports(s, node) != [] {
      RenderHalt(InNode(s, node, CONNECT_SH), s.connectSh, ConnectPasses(s, node));
    }
    HaltConcat(auth, start);
    HaltConcat(auth + start, shutdown);
    HaltConcat(auth + start + shutdown, ConnectSteps(s, node));
  }

  lemma NodeStepsHalt(s: Settings, node: string)
    ensures Halt !in NodeSteps(s, node) <==> NodeConfigurable(s, node)
    ensures forall t: Step | t in NodeSteps(s, node) :: !t.CopyOpen?
  {
    hide ScriptSteps, PortSteps, Ports, ScriptPasses, ConnectPasses, Succeeds, Flat;
    var mk, ports := [MkDir(NodeDir(s, node))], PortSteps(s, node, Ports(s, node));
    PortStepsHalt(s, node, Ports(s, node));
    ScriptStepsHalt(s, node);
    HaltConcat(mk, ports);
    HaltConcat(mk + ports, ScriptSteps(s, node));
  }

  lemma {:induction false} NodesStepsHalt(s: Settings, nodes: seq<string>)
    ensures Halt !in NodesSteps(s, nodes) <==> forall n | n in nodes :: NodeConfigurable(s, n)
    ensures forall t: Step | t in NodesSteps(s, nodes) :: !t.CopyOpen?
  {
    hide NodeSteps, NodeConfigurable;
    if nodes != [] {
      var init, node := nodes[..|nodes| - 1], nodes[|nodes| - 1];
      NodesStepsHalt(s, init);
      NodeStepsHalt(s, node);
      HaltConcat(NodesSteps(s, init), NodeSteps(s, node));
      assert forall n :: n in nodes <==> n in init || n == node;
    }
  }

  lemma ConfigHalt(s: Settings)
    ensures var steps := ConfigWork(s).Steps();
            (Halt !in steps <==> Configurable(s)) && forall t: Step | t in steps :: !t.CopyOpen?
  {
    hide NodesSteps, Nodes, RenderSteps, EnvPasses, NodeConfigurable, Succeeds;
    var start, nodes := StartSteps(s), NodesSteps(s, Nodes(s));
    var env := RenderSteps(InRoot(s, ENV_SH), s.envSh, EnvPasses(s));
    var last := Write(InRoot(s, CREATE_SH), s.createSh) + Write(InRoot(s, MARKER), MARKER_TEXT);
    NodesStepsHalt(s, Nodes(s));
    RenderHalt(InRoot(s, ENV_SH), s.envSh, EnvPasses(s));
    HaltConcat(start, nodes);
    HaltConcat(start + nodes, env);
    HaltConcat(start + nodes + env, last);
    assert ConfigWork(s).Steps() == start + nodes + env + last;
  }

  /** The steps of config() get through exactly if every command can succeed, no two names clash, and
      nothing stands in the way from before. */
  lemma ConfigReaches(s: Settings, fs: FileMap)
    ensures var steps := ConfigWork(s).Steps();
            Reach(steps, fs) == |steps| <==> Configurable(s) && NodesNamed(s) && Unobstructed(steps, fs)
  {
    var steps := ConfigWork(s).Steps();
    ConfigHalt(s);
    ConfigKinds(s);
    ConfigWellFormed(s);
    hide ConfigWork, Configurable, NodesNamed, Sound, Written, Made, Reach;
    ReachIff(steps, Config(s.id), fs);
    assert SourcesThere(steps, fs);
  }

  /** An uninterrupted config() completes exactly when it is not refused and not stopped: by a missing
      password file, a node without ports, a name that leads into another directory, a value that the
      last sed of a pipeline does not accept, a node called like a file beside its directory, or
      something of the wrong kind that stands where it makes a directory or writes a file. */
  lemma ConfigCompletes(s: Settings, p: Proc)
    requires p.alive && p.budget >= |ConfigWork(s).Steps()|
    ensures ConfigProc(s, p).alive <==>
            && !IsFile(InRoot(s, MARKER), p.files)
            && Configurable(s) && NodesNamed(s) && Unobstructed(ConfigWork(s).Steps(), p.files)
  {
    hide ConfigWork, Configurable, NodesNamed, Unobstructed, Reach;
    var steps := ConfigWork(s).Steps();
    ConfigReaches(s, p.files);
    RunIsPrefix(steps, p.files, p.budget);
  }

  lemma ConfigShape(s: Settings, fs: FileMap)
    ensures var ph := ConfigWork(s);
            && ph.open == Create(InRoot(s, MARKER)) && ph.fill == Append(InRoot(s, MARKER), MARKER_TEXT)
            && MarkerText(ph, fs) == MARKER_TEXT != ""
  {
  }

  /** A kill between opening and filling CONFIG_SUCCESS: it stands there empty, config() refuses ever
      after, and what an uninterrupted invocation would have left is never reached. */
  lemma KilledAtConfigMarker(s: Settings, fs: FileMap)
    requires !IsFile(InRoot(s, MARKER), fs)
    requires Configurable(s) && NodesNamed(s) && Unobstructed(ConfigWork(s).Steps(), fs)
    ensures var c := ConfigPhase.Invocations(s, fs, [|ConfigWork(s).body| + 1]);
            && IsFile(InRoot(s, MARKER), c) && TextAt(InRoot(s, MARKER), c) == ""
            && ConfigPhase.Completed(s, c) != ConfigPhase.Completed(s, fs)
  {
    hide *;
    var ph := ConfigWork(s);
    ConfigShape(s, fs);
    var ks := [|ph.body| + 1];
    ConfigWellFormed(s);
    ConfigPhase.InvocationsAreAttempts(s, fs, ks);
    ConfigPhase.CompletedIsUninterrupted(s, fs);
    ConfigPhase.CompletedIsUninterrupted(s, ConfigPhase.Invocations(s, fs, ks));
    ConfigReaches(s, fs);
    KilledAtMarker(ph, Config(s.id), fs);
  }

  lemma ConfigEnds(s: Settings, p: Proc)
    requires p.alive && ConfigProc(s, p).alive
    ensures ConfigProc(s, p).files == All(ConfigWork(s).Steps(), p.files)
    ensures Configurable(s) && NodesNamed(s) && Unobstructed(ConfigWork(s).Steps(), p.files)
    ensures KindsAgree(ConfigWork(s).Steps(), p.files)
  {
    hide ConfigWork, Configurable, NodesNamed, Reach, All, Written, Made;
    var steps := ConfigWork(s).Steps();
    RunIsPrefix(steps, p.files, p.budget);
    assert steps[..|steps|] == steps;
    ConfigReaches(s, p.files);
    ConfigKinds(s);
  }

  lemma NamedMeans(s: Settings)
    requires NodesNamed(s)
    ensures ALL_NODES !in Nodes(s)
  {
    hide Nodes;
    assert ROOT_NAMES[0] == ALL_NODES;
  }

  /** And then every output is there, with its text, exactly if no node is called like the password
      file; the first may be, and then the password file is inside its directory. */
  lemma ConfigDelivers(s: Settings, p: Proc)
    requires p.alive && ConfigProc(s, p).alive
    ensures Fulfils(ConfigProc(s, p).files, ConfigFiles(s)) <==> AUTH_PASS !in Nodes(s)
  {
    ConfigEnds(s, p);
    if AUTH_PASS !in Nodes(s) {
      NamedMeans(s);
      hide ConfigFiles, NodesConfigurable, Nodes, ConfigWork, NodesNamed;
      ConfigEffect(s, p.files);
    } else {
      AuthDirectory(s, p.files);
      hide NodesFiles, AllLines, Nodes, EnvText, ConfigWork, NodesNamed, All;
      NamesDiffer();
      MoreNames();
      assert InRoot(s, AUTH_PASS) in ConfigFiles(s);
      assert !Holds(InRoot(s, AUTH_PASS), ConfigFiles(s)[InRoot(s, AUTH_PASS)], ConfigProc(s, p).files);
    }
  }

  lemma AuthDirectory(s: Settings, fs: FileMap)
    requires AUTH_PASS in Nodes(s) && KindsAgree(ConfigWork(s).Steps(), fs)
    ensures IsDir(InRoot(s, AUTH_PASS), All(ConfigWork(s).Steps(), fs))
  {
    hide All, KindsAgree;
    ConfigWellFormed(s);
    SoundTargets(ConfigWork(s).Steps(), {}, Config(s.id));
    NodeMade(s, AUTH_PASS);
    KindAfter(ConfigWork(s).Steps(), fs, InRoot(s, AUTH_PASS));
  }
}
