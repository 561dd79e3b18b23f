/** Concrete configurations, read as the script reads them: one to which the theorems about whole runs
    apply, and one whose instances get into each other's way. */
module Samples {
  import opened Actions
  import opened Agreement
  import opened BuildPhase
  import opened Cluster
  import opened ConfigPhase
  import opened ConfigTexts
  import opened Delivery
  import opened DeployPhase
  import opened Files
  import opened Names
  import opened Render
  import opened Text
  import opened WholeRun
  import opened Wrappers
  import Ini

  /* ---------- reading a configuration ---------- */

  const SAMPLE_CFG := ["[redis_cluster]", "nodes=n", "[n]", "ports=1"]

  lemma ContainsItself(s: string)
    ensures Contains(s, s)
  {
  }

  lemma ShowsNot(line: string, key: string)
    requires key != "" && key[0] !in line
    ensures !Ini.Shows(line, key)
  {
    assert forall c | c in Ini.Name(line) :: c in line;
    ContainsNeedsFirst(Ini.Name(line), key);
  }

  lemma PlainLine(line: string, key: string, v: string)
    requires line == key + "=" + v && Ini.PlainKey(key) && Ini.PlainValue(v)
    ensures Ini.Shows(line, key) && Ini.Printed(Ini.Value(line)) == v
    ensures forall section :: !Ini.Mentions(line, section)
  {
    Ini.WrittenLine(key, v);
    ContainsItself(key);
  }

  lemma NotInHead(head: string, header: string)
    requires |header| > 1 && |head| > 1 && head[1] != header[1] && header[0] !in head[1..]
    ensures !Contains(head, header)
  {
    ContainsNeedsFirst(head[1..], header);
  }

  lemma SampleNodes()
    ensures SplitList(Ini.Read(SAMPLE_CFG, "redis_cluster", "nodes")) == ["n"]
  {
    hide Contains, Find, Words, WordLength, CommasToLines, Ini.Name, Ini.Value, Ini.Printed, Ini.FindMention,
         Ini.FindKey;
    var lines := SAMPLE_CFG;
    assert Ini.Header("redis_cluster") == lines[0];
    ContainsItself(lines[0]);
    ShowsNot(lines[0], "nodes");
    PlainLine(lines[1], "nodes", "n");
    Ini.SourceIs(lines, "redis_cluster", "nodes", 0, 1);
    OneWord("n");
  }

  lemma SamplePorts()
    ensures SplitList(Ini.Read(SAMPLE_CFG, "n", "ports")) == ["1"]
  {
    hide Contains, Find, Words, WordLength, CommasToLines, Ini.Name, Ini.Value, Ini.Printed, Ini.FindMention,
         Ini.FindKey;
    var lines := SAMPLE_CFG;
    assert Ini.Header("n") == lines[2];
    ContainsItself(lines[2]);
    NotInHead(lines[0], lines[2]);
    PlainLine(lines[1], "nodes", "n");
    ShowsNot(lines[2], "ports");
    PlainLine(lines[3], "ports", "1");
    Ini.SourceIs(lines, "n", "ports", 2, 3);
    OneWord("1");
  }

  lemma OneWord(w: string)
    requires w != "" && BlankFree(w) && ',' !in w
    ensures SplitList(w) == [w]
  {
    NoComma(w);
    assert w + "" == w;
    FirstWord(w, "");
  }

  /* ---------- the assumptions can be met ---------- */

  /** An empty machine and a small configuration are a start from scratch. */
  lemma CanBeMet(inv: Invocation)
    requires WantsAll(inv)
    requires var s := inv.settings;
             s.nodesCfg == SAMPLE_CFG && s.rdbDir == "data" && s.auth.Some? && s.replicas == "1"
    requires var b := inv.sources; b.redisThere && b.hiredisThere && AllSucceed(b)
    requires MakeFails !in inv.installs
    ensures FromScratch(inv, map[])
    ensures CollidersAgree(inv.Given(), inv.machine) && StartsApart(inv.Given(), inv.machine)
  {
    var s := inv.Given();
    HasArguments(inv);
    hide *;
    NothingInTheWay(inv);
    GivenIs(inv);
    SampleSettings(s);
    SampleNamed(s, inv.machine);
    SampleConfigurable(s);
    SampleColliders(s, inv.machine);
    ScratchIs(inv, map[]);
  }

  lemma GivenIs(inv: Invocation)
    requires inv.argv != []
    ensures var s, given := inv.settings, inv.Given();
            && given.nodesCfg == s.nodesCfg && given.rdbDir == s.rdbDir && given.auth == s.auth
            && given.replicas == s.replicas && given.id == inv.argv[0]
    ensures inv.sources.redisThere && inv.sources.hiredisThere ==> Clear(inv.argv[0], inv.sources, map[])
  {
  }

  lemma NothingInTheWay(inv: Invocation)
    requires inv.argv != []
    ensures var s := inv.Given();
            && HasRoom(s.id, inv.sources, map[]) && Unobstructed(ConfigWork(s).Steps(), map[])
            && Unobstructed(DeployWork(s, inv.machine, inv.installs).Steps(), map[])
  {
    hide BuildWork, ConfigWork, DeployWork;
  }

  lemma ScratchIs(inv: Invocation, fs: FileMap)
    requires inv.argv != [] && fs == map[]
    requires var s := inv.Given();
             && Clear(s.id, inv.sources, fs) && AllSucceed(inv.sources) && HasRoom(s.id, inv.sources, fs)
             && Configurable(s) && NodesNamed(s) && Unobstructed(ConfigWork(s).Steps(), fs)
             && Nodes(s) != [] && AUTH_PASS !in Nodes(s) && MakeFails !in inv.installs
             && HomeNamed(s, inv.machine) && Unobstructed(DeployWork(s, inv.machine, inv.installs).Steps(), fs)
    ensures FromScratch(inv, fs)
  {
    hide Nodes, Configurable, NodesNamed, HomeNamed, Clear, AllSucceed, HasRoom, Unobstructed, ConfigWork, DeployWork;
  }

  lemma SampleSettings(s: Settings)
    requires s.nodesCfg == SAMPLE_CFG
    ensures Nodes(s) == ["n"] && Ports(s, "n") == ["1"]
  {
    SampleNodes();
    SamplePorts();
    hide SplitList, Ini.Read;
  }

  lemma SampleNamed(s: Settings, m: Machine)
    requires Nodes(s) == ["n"] && s.rdbDir == "data"
    ensures NodesNamed(s) && HomeNamed(s, m) && StartsApart(s, m) && AUTH_PASS !in Nodes(s)
  {
    hide Nodes, IsLocal;
    assert "data"[0] == 'd' && ConfigPhase.ALL_NODES[0] == 'C' && AUTH_PASS[0] == 'C' && ENV_SH[0] == 'c'
           && CREATE_SH[0] == 'c' && MARKER[0] == 'C' && StartName("n")[0] == 's';
    assert "n" !in ROOT_NAMES && "n" != AUTH_PASS;
  }

  lemma SampleColliders(s: Settings, m: Machine)
    requires Nodes(s) == ["n"] && Ports(s, "n") == ["1"]
    ensures CollidersAgree(s, m)
  {
    hide Nodes, Ports, IsLocal, CollidersAgree;
    assert DashFree("1");
    DashFreeAgree(s, m);
  }

  lemma SampleConfigurable(s: Settings)
    requires Nodes(s) == ["n"] && Ports(s, "n") == ["1"] && s.auth.Some? && s.replicas == "1"
    ensures Configurable(s)
  {
    hide Ports, Nodes, HomeText, EscapeSlashes;
    assert SedAccepts("1") && Join(["1"]) == "1";
    assert ConfName("n", "1") == "redis-n-1.conf" && '/' !in "redis-n-1.conf";
    assert NodeConfigurable(s, "n");
  }

  /* ---------- two instances, one file name ---------- */

  const COLLIDING_CFG :=
    [ "[redis_cluster]", "nodes=x,x-1",
      "[x]", "ports=1-2", "host=h", "conf=t",
      "[x-1]", "ports=2", "host=h", "conf=t" ]

  lemma {:induction false} ShorterNot(line: string, pattern: string)
    requires |line| < |pattern|
    ensures !Contains(line, pattern)
  {
    if line != "" {
      ShorterNot(line[1..], pattern);
    }
  }

  /** The lines that set something say so, and open no section. */
  lemma CollidingLines()
    ensures var l := COLLIDING_CFG;
            && Sets(l[1], "nodes", "x,x-1") && Sets(l[3], "ports", "1-2") && Sets(l[7], "ports", "2")
            && Sets(l[4], "host", "h") && Sets(l[5], "conf", "t")
            && Sets(l[8], "host", "h") && Sets(l[9], "conf", "t")
  {
    hide Sets;
    LongLines();
    ShortLines();
  }

  lemma LongLines()
    ensures Sets("nodes=x,x-1", "nodes", "x,x-1") && Sets("ports=1-2", "ports", "1-2")
  {
    hide Contains, Ini.Name, Ini.Value, Ini.Printed;
    PlainLine("nodes=x,x-1", "nodes", "x,x-1");
    PlainLine("ports=1-2", "ports", "1-2");
  }

  lemma ShortLines()
    ensures Sets("ports=2", "ports", "2") && Sets("host=h", "host", "h") && Sets("conf=t", "conf", "t")
  {
    hide Contains, Ini.Name, Ini.Value, Ini.Printed;
    PlainLine("ports=2", "ports", "2");
    PlainLine("host=h", "host", "h");
    PlainLine("conf=t", "conf", "t");
  }

  ghost predicate Sets(line: string, key: string, v: string) {
    Ini.Shows(line, key) && Ini.Printed(Ini.Value(line)) == v && forall section :: !Ini.Mentions(line, section)
  }

  /** Where the sections begin. */
  lemma CollidingHeads()
    ensures var l := COLLIDING_CFG;
            && Ini.Mentions(l[0], "redis_cluster") && Ini.Mentions(l[2], "x") && Ini.Mentions(l[6], "x-1")
            && !Ini.Mentions(l[0], "x") && !Ini.Mentions(l[0], "x-1") && !Ini.Mentions(l[2], "x-1")
  {
    var l := COLLIDING_CFG;
    assert Ini.Header("redis_cluster") == l[0] && Ini.Header("x") == l[2] && Ini.Header("x-1") == l[6];
    ContainsItself(l[0]);
    ContainsItself(l[2]);
    ContainsItself(l[6]);
    NotInHead(l[0], l[2]);
    NotInHead(l[0], l[6]);
    ShorterNot(l[2], l[6]);
  }

  /** What a node of it is given: the value on line j, if that is the first to show the key. */
  lemma NodeReads(node: string, key: string, h: nat, j: nat, v: string)
    requires (node == "x" && h == 2) || (node == "x-1" && h == 6)
    requires h <= j < |COLLIDING_CFG| && Sets(COLLIDING_CFG[j], key, v)
    requires forall i | h <= i < j :: !Ini.Shows(COLLIDING_CFG[i], key)
    ensures Ini.Read(COLLIDING_CFG, node, key) == v
  {
    CollidingLines();
    CollidingHeads();
    hide Ini.Mentions, Ini.Shows, Ini.Printed, Ini.Value, Ini.FindMention, Ini.FindKey;
    Ini.SourceIs(COLLIDING_CFG, node, key, h, j);
  }

  lemma CollidingReads()
    ensures var l := COLLIDING_CFG;
            && Ini.Read(l, "x", "ports") == "1-2" && Ini.Read(l, "x-1", "ports") == "2"
            && Ini.Read(l, "x", "host") == Ini.Read(l, "x-1", "host") == "h"
            && Ini.Read(l, "x", "conf") == Ini.Read(l, "x-1", "conf") == "t"
  {
    hide Ini.Mentions, Ini.Shows, Ini.Printed, Ini.Value, Ini.FindMention, Ini.FindKey, Ini.Read, Sets;
    var l := COLLIDING_CFG;
    CollidingLines();
    ShowsNot(l[2], "ports");
    ShowsNot(l[6], "ports");
    ShowsNot(l[2], "host");
    ShowsNot(l[3], "host");
    ShowsNot(l[6], "host");
    ShowsNot(l[7], "host");
    ShowsNot(l[2], "conf");
    ShowsNot(l[3], "conf");
    ShowsNot(l[4], "conf");
    ShowsNot(l[6], "conf");
    ShowsNot(l[7], "conf");
    ShowsNot(l[8], "conf");
    NodeReads("x", "ports", 2, 3, "1-2");
    NodeReads("x-1", "ports", 6, 7, "2");
    NodeReads("x", "host", 2, 4, "h");
    NodeReads("x-1", "host", 6, 8, "h");
    NodeReads("x", "conf", 2, 5, "t");
    NodeReads("x-1", "conf", 6, 9, "t");
  }

  lemma NoAddresses(node: string)
    requires node == "x" || node == "x-1"
    ensures Ini.Read(COLLIDING_CFG, node, "addrs") == ""
  {
    hide Ini.Mentions, Ini.Shows, Ini.Printed, Ini.Value, Ini.FindMention, Ini.FindKey;
    var l, h := COLLIDING_CFG, if node == "x" then 2 else 6;
    CollidingLines();
    CollidingHeads();
    forall i | h <= i < |l| ensures !Ini.Shows(l[i], "addrs") {
      ShowsNot(l[i], "addrs");
    }
    Ini.SourceIs(l, node, "addrs", h, |l|);
  }

  lemma TwoWords(a: string, b: string)
    requires a != "" && b != "" && BlankFree(a) && BlankFree(b) && ',' !in a && ',' !in b
    ensures SplitList(a + "," + b) == [a, b]
  {
    var lines := CommasToLines(a + "," + b);
    var rest := "\n" + b;
    assert lines == a + rest;
    hide Words, CommasToLines;
    FirstWord(a, rest);
    SkipBlank(rest);
    assert rest[1..] == b + "";
    FirstWord(b, "");
    Text.NoWords();
  }

  lemma CollidingNodes()
    ensures SplitList(Ini.Read(COLLIDING_CFG, "redis_cluster", "nodes")) == ["x", "x-1"]
  {
    hide SplitList, Contains, Ini.Mentions, Ini.Shows, Ini.Printed, Ini.Value, Ini.FindMention, Ini.FindKey;
    CollidingLines();
    CollidingHeads();
    ShowsNot(COLLIDING_CFG[0], "nodes");
    Ini.SourceIs(COLLIDING_CFG, "redis_cluster", "nodes", 0, 1);
    assert "x,x-1" == "x" + "," + "x-1";
    TwoWords("x", "x-1");
  }

  /** The settings of the two instances: the template is a port number and nothing else. */
  predicate Colliding(s: Settings, m: Machine) {
    && s.nodesCfg == COLLIDING_CFG && m.hostname == "h"
    && "t" in s.templates && s.templates["t"] == Hole("PORT")
    && s.parent == "/opt" && s.id == "mycluster" && s.rdbDir == "data" && s.auth == Some("secret")
  }

  lemma NodesAre(s: Settings)
    requires s.nodesCfg == COLLIDING_CFG
    ensures Nodes(s) == ["x", "x-1"]
  {
    CollidingNodes();
    hide Ini.Read, SplitList;
  }

  lemma WordPorts()
    ensures SplitList("1-2") == ["1-2"] && SplitList("2") == ["2"]
  {
    hide SplitList;
    OneWord("1-2");
    OneWord("2");
  }

  lemma PortsAre(s: Settings)
    requires s.nodesCfg == COLLIDING_CFG
    ensures Ports(s, "x") == ["1-2"] && Ports(s, "x-1") == ["2"]
  {
    hide Ini.Read, SplitList, COLLIDING_CFG;
    CollidingReads();
    WordPorts();
  }

  lemma HostsAre(s: Settings, m: Machine)
    requires Colliding(s, m)
    ensures Host(s, "x") == Host(s, "x-1") == m.hostname == "h"
    ensures Template(s, "x") == Template(s, "x-1") == Hole("PORT")
  {
    CollidingReads();
    hide Ini.Read, Hole;
  }

  lemma AddressesAre(s: Settings, node: string)
    requires s.nodesCfg == COLLIDING_CFG && (node == "x" || node == "x-1")
    ensures Addresses(s, node) == ""
  {
    NoAddresses(node);
    hide Ini.Read, Words;
    Text.NoWords();
    assert CommasToLines("") == "";
  }

  lemma LocalByHost(s: Settings, m: Machine, node: string, port: string)
    requires node in Nodes(s) && Host(s, node) == m.hostname && port in Ports(s, node)
    ensures LocalInstance(s, m, node, port)
  {
    hide Nodes, Host, Ports;
  }

  lemma CollidingLocal(s: Settings, m: Machine)
    requires Colliding(s, m)
    ensures LocalInstance(s, m, "x", "1-2") && LocalInstance(s, m, "x-1", "2")
  {
    assert s.nodesCfg == COLLIDING_CFG;
    hide *;
    NodesAre(s);
    PortsAre(s);
    HostsAre(s, m);
    LocalByHost(s, m, "x", "1-2");
    LocalByHost(s, m, "x-1", "2");
  }

  /** A value that sed takes as it is, and that opens no placeholder. */
  predicate Tame(v: string) {
    PlainValue(v) && '{' !in v
  }

  lemma TameValues()
    ensures Tame("") && Tame("h") && Tame("x") && Tame("x-1") && Tame("2") && Tame("1-2")
  {
  }

  lemma TameNames()
    ensures Tame("mycluster") && Tame("data") && Tame("secret")
  {
  }

  lemma TameHome()
    ensures PlainPath("/opt" + "/" + "mycluster") && '{' !in "/opt" + "/" + "mycluster"
  {
  }

  lemma TamePassword()
    ensures TrimNewlines("secret") == "secret"
  {
    assert "secret"[5] == 't';
  }

  lemma TameInstance(s: Settings, node: string, port: string)
    requires Tame(s.id) && Tame(node) && Tame(s.rdbDir) && Tame(Host(s, node)) && Tame(port)
    requires Tame(Addresses(s, node)) && Tame(Password(s))
    requires PlainPath(HomeText(s)) && '{' !in HomeText(s)
    ensures PlainInstance(s, node, port)
  {
    hide PlainValue, PlainPath, Host, Addresses, Password, HomeText;
  }

  lemma SampleHome(s: Settings)
    requires s.parent == "/opt" && s.id == "mycluster" && s.auth == Some("secret")
    ensures HomeText(s) == "/opt" + "/" + "mycluster" && Password(s) == TrimNewlines("secret")
  {
  }

  /** An instance whose template is its port. */
  lemma PortIsText(s: Settings, node: string, port: string)
    requires PlainInstance(s, node, port) && Template(s, node) == Hole("PORT")
    ensures InstanceConf(s, node, port) == port
  {
    var table := InstanceTable(s, node, port);
    assert "PORT" in table && table["PORT"] == port && BraceFree("PORT");
    hide Template, InstanceConf, InstanceTable, Hole, NotNested, Substitute, PlainInstance, BraceFree;
    ShowsValue("PORT", table);
    InstanceConfMeaning(s, node, port);
  }

  lemma CollidingTexts(s: Settings, m: Machine)
    requires Colliding(s, m)
    ensures InstanceConf(s, "x", "1-2") == "1-2" && InstanceConf(s, "x-1", "2") == "2"
  {
    assert s.nodesCfg == COLLIDING_CFG && s.parent == "/opt" && s.id == "mycluster" && s.rdbDir == "data"
           && s.auth == Some("secret");
    hide *;
    HostsAre(s, m);
    AddressesAre(s, "x");
    AddressesAre(s, "x-1");
    TameValues();
    TameNames();
    TameHome();
    TamePassword();
    SampleHome(s);
    TameInstance(s, "x", "1-2");
    TameInstance(s, "x-1", "2");
    PortIsText(s, "x", "1-2");
    PortIsText(s, "x-1", "2");
  }

  lemma SampleShift()
    ensures Shifts("x-1", "2", "x", "1-2") && "1-2" != "2"
  {
    assert "x-1"[..2] == "x" + "-" && "x-1"[2..] + "-" + "2" == "1-2";
  }

  /** A concrete configuration whose colliding instances do not agree: node x with port 1-2, and node
      x-1 with port 2. */
  lemma CollidersDiffer(s: Settings, m: Machine)
    requires Colliding(s, m)
    ensures !CollidersAgree(s, m)
  {
    CollidingLocal(s, m);
    CollidingTexts(s, m);
    SampleShift();
    hide LocalInstance, InstanceConf, Shifts, Colliding;
    assert CollidersAgree(s, m) ==> InstanceConf(s, "x-1", "2") == InstanceConf(s, "x", "1-2");
  }

  /* ---------- names that clash ---------- */

  /** A concrete cluster_nodes.cfg over which config() never completes: its node is called like the
      marker, so that the redirection at the end meets a directory. */
  lemma NodeLikeMarker(s: Settings, p: Proc)
    requires s.nodesCfg == ["[redis_cluster]", "nodes=CONFIG_SUCCESS"]
    requires p.alive && p.budget >= |ConfigWork(s).Steps()|
    ensures !ConfigProc(s, p).alive
  {
    MarkerNode(s);
    assert MARKER in ROOT_NAMES by { assert ROOT_NAMES[1] == MARKER; }
    hide Nodes, ConfigProc, ConfigWork, Configurable, Unobstructed;
    ConfigCompletes(s, p);
  }

  lemma MarkerNode(s: Settings)
    requires s.nodesCfg == ["[redis_cluster]", "nodes=CONFIG_SUCCESS"]
    ensures Nodes(s) == ["CONFIG_SUCCESS"]
  {
    hide SplitList, Ini.Read;
    MarkerRead(s.nodesCfg);
    OneWord("CONFIG_SUCCESS");
  }

  lemma MarkerRead(lines: seq<string>)
    requires lines == ["[redis_cluster]", "nodes=CONFIG_SUCCESS"]
    ensures Ini.Read(lines, "redis_cluster", "nodes") == "CONFIG_SUCCESS"
  {
    assert Ini.Header("redis_cluster") == lines[0] && "nodes" + "=" + "CONFIG_SUCCESS" == lines[1];
    MarkerPlain();
    hide *;
    FirstSetting("redis_cluster", "nodes", "CONFIG_SUCCESS");
  }

  lemma MarkerPlain()
    ensures Ini.PlainKey("nodes") && "nodes"[0] !in Ini.Header("redis_cluster") && Ini.PlainValue("CONFIG_SUCCESS")
  {
    assert "CONFIG_SUCCESS"[0] == 'C';
  }

  /** A file of a header and one plain setting below it. */
  lemma FirstSetting(section: string, key: string, v: string)
    requires Ini.PlainKey(key) && Ini.PlainValue(v) && key[0] !in Ini.Header(section)
    ensures Ini.Read([Ini.Header(section), key + "=" + v], section, key) == v
  {
    hide Contains, Ini.Name, Ini.Value, Ini.Printed, Ini.FindMention, Ini.FindKey, Ini.Header;
    var lines := [Ini.Header(section), key + "=" + v];
    ContainsItself(lines[0]);
    ShowsNot(lines[0], key);
    PlainLine(lines[1], key, v);
    Ini.SourceIs(lines, section, key, 0, 1);
  }

  /** With its data directory called cluster_env.sh, deploy() never completes: the copy of that name
      meets the directory. */
  lemma DataLikeScript(s: Settings, m: Machine, installs: seq<Artifact>, p: Proc)
    requires s.rdbDir == "cluster_env.sh" && Fulfils(p.files, ConfigFiles(s))
    requires p.alive && p.budget >= |DeployWork(s, m, installs).Steps()|
    ensures !DeployProc(s, m, installs, p).alive
  {
    assert !HomeNamed(s, m);
    hide DeployProc, DeployWork, HomeNamed, Unobstructed, MayDeploy, Fulfils, ConfigFiles;
    DeployCompletes(s, m, installs, p);
  }
}
