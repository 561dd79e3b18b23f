/** What the texts written by config() say: the rendered files are the simultaneous substitution of
    the configured values, and the list of all nodes names every instance once, in order. */
module ConfigTexts {
  import opened Agreement
  import opened ConfigPhase
  import opened Render
  import opened Text
  import opened Wrappers
  import Ini

  /* ---------- rendered files ---------- */

  function Password(s: Settings): string {
    TrimNewlines(s.auth.GetOr(""))
  }

  /** The values of an instance's placeholders, as the configuration has them: every address of the node,
      with a blank between, and no value escaped for sed. */
  function InstanceTable(s: Settings, node: string, port: string): map<string, string> {
    map["CLUSTER_HOME_DIR" := s.parent + "/" + s.id, "CLUSTERID" := s.id, "NODEID" := node, "RDB_DIR" := s.rdbDir,
        "HOST" := Ini.Read(s.nodesCfg, node, "host"), "PORT" := port,
        "ADDRS" := Join(SplitList(Ini.Read(s.nodesCfg, node, "addrs"))),
        "PASSWORD" := Password(s), "TLS_HASHTAG" := if s.tls == "yes" then "" else "#!"]
  }

  lemma InstanceTableIs(s: Settings, node: string, port: string)
    ensures InstanceTable(s, node, port) ==
            map["CLUSTER_HOME_DIR" := HomeText(s), "CLUSTERID" := s.id, "NODEID" := node, "RDB_DIR" := s.rdbDir,
                "HOST" := Host(s, node), "PORT" := port, "ADDRS" := Addresses(s, node), "PASSWORD" := Password(s),
                "TLS_HASHTAG" := HashTag(s)]
  {
    hide Ini.Read, SplitList, Join, Password;
  }

  /** No configured value opens a placeholder. */
  predicate OpenFree(values: seq<string>) {
    forall v | v in values :: '{' !in v
  }

  predicate AllPlain(values: seq<string>) {
    forall v | v in values :: PlainValue(v)
  }

  function InstanceValues(s: Settings, node: string, port: string): seq<string> {
    [s.id, node, s.rdbDir, Host(s, node), port, Addresses(s, node), Password(s)]
  }

  lemma KeysAreClean()
    ensures BraceFree("CLUSTER_HOME_DIR") && BraceFree("CLUSTERID") && BraceFree("NODEID") && BraceFree("RDB_DIR")
    ensures BraceFree("HOST") && BraceFree("PORT") && BraceFree("ADDRS") && BraceFree("PASSWORD")
    ensures BraceFree("TLS_HASHTAG") && BraceFree("NODEHOST") && BraceFree("PORTS")
  {
  }

  lemma HashTagPlain(s: Settings)
    ensures PlainValue(HashTag(s)) && '{' !in HashTag(s)
  {
  }

  lemma HostIsNotPort()
    ensures "HOST" != "PORT"
  {
    assert "HOST"[0] == 'H' && "PORT"[0] == 'P';
  }

  /** The nine passes of an instance file, three by three. */
  lemma NinePasses(s: Settings, node: string, port: string)
    ensures ConfPasses(s, node, port) ==
            [ Pass("CLUSTER_HOME_DIR", EscapeSlashes(HomeText(s))), Pass("CLUSTERID", s.id), Pass("NODEID", node) ]
            + [ Pass("RDB_DIR", s.rdbDir), Pass("HOST", Host(s, node)), Pass("PORT", port) ]
            + [ Pass("ADDRS", Addresses(s, node)), Pass("PASSWORD", Password(s)), Pass("TLS_HASHTAG", HashTag(s)) ]
  {
    hide EscapeSlashes, HomeText, Host, Addresses, TrimNewlines, HashTag;
  }

  lemma NineKeys(s: Settings, node: string, port: string)
    ensures InstanceTable(s, node, port).Keys ==
            {"CLUSTER_HOME_DIR", "CLUSTERID", "NODEID"} + {"RDB_DIR", "HOST", "PORT"}
            + {"ADDRS", "PASSWORD", "TLS_HASHTAG"}
    ensures {"CLUSTER_HOME_DIR", "CLUSTERID", "NODEID"} !! {"RDB_DIR", "HOST", "PORT"}
    ensures {"CLUSTER_HOME_DIR", "CLUSTERID", "NODEID"} + {"RDB_DIR", "HOST", "PORT"}
            !! {"ADDRS", "PASSWORD", "TLS_HASHTAG"}
  {
    InstanceTableIs(s, node, port);
    hide HomeText, Host, Addresses, TrimNewlines, HashTag, InstanceTable;
    assert |"CLUSTER_HOME_DIR"| == 16 && |"CLUSTERID"| == 9 && |"NODEID"| == 6 && |"RDB_DIR"| == 7 && |"HOST"| == 4
           && |"PORT"| == 4 && |"ADDRS"| == 5 && |"PASSWORD"| == 8 && |"TLS_HASHTAG"| == 11;
  }

  lemma ConfFill(s: Settings, node: string, port: string)
    ensures Fills(ConfPasses(s, node, port), InstanceTable(s, node, port).Keys)
  {
    hide Fills, BraceFree, EscapeSlashes, HomeText, Host, Addresses, Password, HashTag, ConfPasses, InstanceTable;
    KeysAreClean();
    HostIsNotPort();
    NinePasses(s, node, port);
    NineKeys(s, node, port);
    var a := [ Pass("CLUSTER_HOME_DIR", EscapeSlashes(HomeText(s))), Pass("CLUSTERID", s.id), Pass("NODEID", node) ];
    var b := [ Pass("RDB_DIR", s.rdbDir), Pass("HOST", Host(s, node)), Pass("PORT", port) ];
    var c := [ Pass("ADDRS", Addresses(s, node)), Pass("PASSWORD", Password(s)), Pass("TLS_HASHTAG", HashTag(s)) ];
    FillsThree(a[0], a[1], a[2]);
    FillsThree(b[0], b[1], b[2]);
    FillsThree(c[0], c[1], c[2]);
    FillsConcat(a, b, {"CLUSTER_HOME_DIR", "CLUSTERID", "NODEID"}, {"RDB_DIR", "HOST", "PORT"});
    FillsConcat(a + b, c, {"CLUSTER_HOME_DIR", "CLUSTERID", "NODEID"} + {"RDB_DIR", "HOST", "PORT"},
                {"ADDRS", "PASSWORD", "TLS_HASHTAG"});
  }

  lemma MeansValue(key: string, value: string, table: map<string, string>)
    requires key in table && table[key] == value
    ensures Means(Pass(key, value), table) <==> PlainValue(value)
  {
    PlainValueIff(value, key);
  }

  lemma MeansPath(key: string, path: string, table: map<string, string>)
    requires key in table && table[key] == path
    ensures Means(Pass(key, EscapeSlashes(path)), table) <==> PlainPath(path)
  {
    EscapeUndoneIff(path, key);
  }

  lemma {:induction false} EscapeOpensNothing(path: string)
    requires '{' !in path
    ensures '{' !in EscapeSlashes(path)
  {
    if path != "" {
      assert path[0] in path && forall c | c in path[1..] :: c in path;
      EscapeOpensNothing(path[1..]);
    }
  }

  lemma ConfMeans(s: Settings, node: string, port: string)
    ensures AllMean(ConfPasses(s, node, port), InstanceTable(s, node, port)) <==>
            PlainPath(HomeText(s)) && AllPlain(InstanceValues(s, node, port))
  {
    hide Means, AllMean, PlainValue, PlainPath, EscapeSlashes, HomeText, Host, Addresses, Password, HashTag, ConfPasses,
         InstanceTable;
    InstanceTableIs(s, node, port);
    var table := InstanceTable(s, node, port);
    var a := [ Pass("CLUSTER_HOME_DIR", EscapeSlashes(HomeText(s))), Pass("CLUSTERID", s.id), Pass("NODEID", node) ];
    var b := [ Pass("RDB_DIR", s.rdbDir), Pass("HOST", Host(s, node)), Pass("PORT", port) ];
    var c := [ Pass("ADDRS", Addresses(s, node)), Pass("PASSWORD", Password(s)), Pass("TLS_HASHTAG", HashTag(s)) ];
    HostIsNotPort();
    HashTagPlain(s);
    MeansPath("CLUSTER_HOME_DIR", HomeText(s), table);
    MeansValue("CLUSTERID", s.id, table);
    MeansValue("NODEID", node, table);
    MeansValue("RDB_DIR", s.rdbDir, table);
    MeansValue("HOST", Host(s, node), table);
    MeansValue("PORT", port, table);
    MeansValue("ADDRS", Addresses(s, node), table);
    MeansValue("PASSWORD", Password(s), table);
    MeansValue("TLS_HASHTAG", HashTag(s), table);
    AllMeanThree(a[0], a[1], a[2], table);
    AllMeanThree(b[0], b[1], b[2], table);
    AllMeanThree(c[0], c[1], c[2], table);
    AllMeanConcat(a, b, table);
    AllMeanConcat(a + b, c, table);
    NinePasses(s, node, port);
  }

  /** Every template of an instance file comes out with the configured values in place of its
      placeholders, if and only if the home directory has no backslash, ampersand or newline, and the
      values that are not escaped have no slash, either. */
  lemma InstanceConfExact(s: Settings, node: string, port: string)
    requires '{' !in HomeText(s) && OpenFree(InstanceValues(s, node, port))
    ensures Agrees(ConfPasses(s, node, port), InstanceTable(s, node, port)) <==>
            PlainPath(HomeText(s)) && AllPlain(InstanceValues(s, node, port))
  {
    hide Agrees, Means, AllMean, PlainValue, PlainPath, EscapeSlashes, HomeText, Host, Addresses, Password, HashTag,
         Fills, ConfPasses, InstanceTable;
    var passes := ConfPasses(s, node, port);
    NinePasses(s, node, port);
    HashTagPlain(s);
    EscapeOpensNothing(HomeText(s));
    var vs := InstanceValues(s, node, port);
    assert vs[0] in vs && vs[1] in vs && vs[2] in vs && vs[3] in vs && vs[4] in vs && vs[5] in vs && vs[6] in vs;
    ConfFill(s, node, port);
    AgreesIff(passes, InstanceTable(s, node, port));
    ConfMeans(s, node, port);
  }

  predicate PlainInstance(s: Settings, node: string, port: string) {
    && '{' !in HomeText(s) && OpenFree(InstanceValues(s, node, port))
    && PlainPath(HomeText(s)) && AllPlain(InstanceValues(s, node, port))
  }

  /** So with plain values an instance's configuration file is the template its node names, with every
      placeholder replaced at once. */
  lemma InstanceConfMeaning(s: Settings, node: string, port: string)
    requires NotNested(Template(s, node)) && PlainInstance(s, node, port)
    ensures InstanceConf(s, node, port) == Substitute(Template(s, node), InstanceTable(s, node, port))
    ensures var name := Ini.Read(s.nodesCfg, node, "conf");
            Template(s, node) == if name in s.templates then s.templates[name] else ""
  {
    TemplateIs(s, node);
    hide Pipeline, Substitute, Template, InstanceTable, ConfPasses, NotNested, AllPlain, OpenFree, InstanceValues;
    InstanceConfExact(s, node, port);
  }

  lemma TemplateIs(s: Settings, node: string)
    ensures var name := Ini.Read(s.nodesCfg, node, "conf");
            Template(s, node) == if name in s.templates then s.templates[name] else ""
  {
    hide Ini.Read;
  }

  /** What a server binds to: wherever the template has {ADDRS}, the file has a text whose words are the
      node's addresses, all of them and in order. */
  lemma BindsAll(s: Settings, node: string, port: string, before: string, after: string) returns (text: string)
    requires Template(s, node) == before + (Hole("ADDRS") + after) && Closed(before)
    requires NotNested(Template(s, node)) && PlainInstance(s, node, port)
    ensures InstanceConf(s, node, port) ==
            Substitute(before, InstanceTable(s, node, port)) + (text + Substitute(after, InstanceTable(s, node, port)))
    ensures Words(text) == SplitList(Ini.Read(s.nodesCfg, node, "addrs"))
  {
    var table, addrs := InstanceTable(s, node, port), SplitList(Ini.Read(s.nodesCfg, node, "addrs"));
    assert "ADDRS" in table && table["ADDRS"] == Join(addrs);
    WordsAreWords(CommasToLines(Ini.Read(s.nodesCfg, node, "addrs")));
    WordsJoin(addrs);
    KeysAreClean();
    hide Pipeline, Substitute, NotNested, Closed, PlainInstance, Hole, InstanceTable, Template, InstanceConf, BraceFree,
         Words, Join, SplitList;
    InstanceConfMeaning(s, node, port);
    SubstituteConcat(before, Hole("ADDRS") + after, table);
    CopiesHole("ADDRS", after, table);
    text := Join(addrs);
  }

  /** A password with a slash, and nothing else special in it, leaves every instance file empty. */
  lemma SlashEmptiesConf(s: Settings, node: string, port: string)
    requires Literal(Password(s)) && '/' in Password(s)
    ensures InstanceConf(s, node, port) == ""
  {
    hide EscapeSlashes, HomeText, Host, Addresses, TrimNewlines, HashTag, Template, Pipeline, SedAccepts, Literal;
    var passes := ConfPasses(s, node, port);
    PlainMeansItself(Password(s), "PASSWORD");
    assert passes[7] in passes && passes[7].raw == Password(s);
    RefusedEmpties(Template(s, node), passes);
  }

  const TLS_KEYS := ["TLS_PORT", "TLS_CERTFILE", "TLS_KEYFILE", "TLS_DHFILE", "TLS_CACERT", "TLS_CACERTDIR"]

  lemma TlsKeys(s: Settings, node: string, port: string, key: string)
    requires key in TLS_KEYS
    ensures BraceFree(key) && key !in InstanceTable(s, node, port)
  {
    TlsSpelling(key);
    NineKeys(s, node, port);
    hide InstanceTable, BraceFree, TLS_KEYS;
    assert key !in {"CLUSTER_HOME_DIR", "CLUSTERID", "NODEID"} by {
      assert "CLUSTER_HOME_DIR"[0] == 'C' && "CLUSTERID"[0] == 'C' && "NODEID"[0] == 'N';
    }
    assert key !in {"RDB_DIR", "HOST", "PORT"} by {
      assert "RDB_DIR"[0] == 'R' && "HOST"[0] == 'H' && "PORT"[0] == 'P';
    }
    assert key !in {"ADDRS", "PASSWORD", "TLS_HASHTAG"} by {
      assert "ADDRS"[0] == 'A' && "PASSWORD"[0] == 'P' && "TLS_HASHTAG"[4] == 'H';
    }
  }

  lemma TlsSpelling(key: string)
    requires key in TLS_KEYS
    ensures BraceFree(key) && |key| > 4 && key[0] == 'T' && key[4] != 'H'
  {
  }

  /** With TLS on, a TLS directive of the template loses its comment tag, and each of its placeholders,
      whatever complete text stands between tag and placeholder, is left in the file: the comparisons
      with "yes" that would fill it in see 1. */
  lemma TlsStaysUnfilled(s: Settings, node: string, port: string, key: string,
                         before: string, directive: string, after: string)
    requires key in TLS_KEYS && Closed(before) && Closed(directive)
    requires Template(s, node) == before + (Hole("TLS_HASHTAG") + (directive + (Hole(key) + after)))
    requires NotNested(Template(s, node)) && PlainInstance(s, node, port)
    ensures InstanceConf(s, node, port) ==
            Substitute(before, InstanceTable(s, node, port))
            + ((if s.tls == "yes" then "" else "#!")
               + (Substitute(directive, InstanceTable(s, node, port))
                  + (Hole(key) + Substitute(after, InstanceTable(s, node, port)))))
  {
    var table := InstanceTable(s, node, port);
    assert table["TLS_HASHTAG"] == if s.tls == "yes" then "" else "#!";
    hide Pipeline, Substitute, NotNested, Closed, PlainInstance, Hole, InstanceTable, Template, InstanceConf;
    InstanceConfMeaning(s, node, port);
    SubstituteConcat(before, Hole("TLS_HASHTAG") + (directive + (Hole(key) + after)), table);
    KeysAreClean();
    CopiesHole("TLS_HASHTAG", directive + (Hole(key) + after), table);
    SubstituteConcat(directive, Hole(key) + after, table);
    TlsKeys(s, node, port, key);
    CopiesHole(key, after, table);
  }

  /* ---------- scripts ---------- */

  function ScriptTable(s: Settings, node: string): map<string, string> {
    map["NODEID" := node, "NODEHOST" := Ini.Read(s.nodesCfg, node, "host"),
        "PORTS" := Join(SplitList(Ini.Read(s.nodesCfg, node, "ports")))]
  }

  lemma ScriptTableIs(s: Settings, node: string)
    ensures ScriptTable(s, node) == map["NODEID" := node, "NODEHOST" := Host(s, node), "PORTS" := Join(Ports(s, node))]
    ensures Host(s, node) == Ini.Read(s.nodesCfg, node, "host")
    ensures Ports(s, node) == SplitList(Ini.Read(s.nodesCfg, node, "ports"))
  {
    hide Ini.Read, SplitList, Join;
  }

  /** Three values inserted as they are: every template comes out with them if and only if they are
      plain. */
  lemma ThreeValues(a: string, x: string, b: string, y: string, c: string, z: string)
    requires BraceFree(a) && BraceFree(b) && BraceFree(c) && a != b && a != c && b != c
    requires '{' !in x && '{' !in y && '{' !in z
    ensures Agrees([Pass(a, x), Pass(b, y), Pass(c, z)], map[a := x, b := y, c := z]) <==>
            PlainValue(x) && PlainValue(y) && PlainValue(z)
  {
    hide Agrees, Means, AllMean, PlainValue, Fills, BraceFree;
    var passes, table := [Pass(a, x), Pass(b, y), Pass(c, z)], map[a := x, b := y, c := z];
    FillsThree(Pass(a, x), Pass(b, y), Pass(c, z));
    assert table.Keys == {a, b, c};
    AgreesIff(passes, table);
    MeansValue(a, x, table);
    MeansValue(b, y, table);
    MeansValue(c, z, table);
    AllMeanThree(Pass(a, x), Pass(b, y), Pass(c, z), table);
  }

  predicate PlainScript(s: Settings, node: string) {
    PlainValue(node) && PlainValue(Host(s, node)) && PlainValue(Join(Ports(s, node)))
  }

  predicate ScriptOpenFree(s: Settings, node: string) {
    '{' !in node && '{' !in Host(s, node) && '{' !in Join(Ports(s, node))
  }

  /** Start and shutdown script are their templates with node, host and ports put in at once, for
      every template, if and only if those values are plain. */
  lemma ScriptTextsExact(s: Settings, node: string)
    requires ScriptOpenFree(s, node)
    ensures Agrees(ScriptPasses(s, node), ScriptTable(s, node)) <==> PlainScript(s, node)
  {
    ScriptTableIs(s, node);
    hide Agrees, PlainValue, Host, Ports, ScriptTable;
    KeysAreClean();
    assert |"NODEID"| == 6 && |"NODEHOST"| == 8 && |"PORTS"| == 5;
    ThreeValues("NODEID", node, "NODEHOST", Host(s, node), "PORTS", Join(Ports(s, node)));
  }

  /** The connect script, likewise, with the node's first port. */
  lemma ConnectTextExact(s: Settings, node: string)
    requires Ports(s, node) != [] && '{' !in node && '{' !in Host(s, node) && '{' !in Ports(s, node)[0]
    ensures Agrees(ConnectPasses(s, node),
                   map["NODEID" := node, "NODEHOST" := Ini.Read(s.nodesCfg, node, "host"),
                       "PORT" := SplitList(Ini.Read(s.nodesCfg, node, "ports"))[0]]) <==>
            PlainValue(node) && PlainValue(Host(s, node)) && PlainValue(Ports(s, node)[0])
  {
    ScriptTableIs(s, node);
    hide Agrees, PlainValue, Host, Ports, Ini.Read, SplitList;
    KeysAreClean();
    assert |"NODEID"| == 6 && |"NODEHOST"| == 8 && |"PORT"| == 4;
    ThreeValues("NODEID", node, "NODEHOST", Host(s, node), "PORT", Ports(s, node)[0]);
  }

  lemma EnvKeysAreClean()
    ensures BraceFree("CLUSTERID") && BraceFree("CLUSTERHOME") && BraceFree("CACERTDIR") && BraceFree("CLUSTERREPLICAS")
    ensures "CLUSTERID" != "CACERTDIR"
  {
    assert "CLUSTERID"[1] == 'L' && "CACERTDIR"[1] == 'A';
  }

  function EnvTable(s: Settings): map<string, string> {
    map["CLUSTERID" := s.id, "CLUSTERHOME" := s.parent + "/" + s.id, "CACERTDIR" := s.cacertDir,
        "CLUSTERREPLICAS" := s.replicas]
  }

  lemma FourPasses(s: Settings)
    ensures EnvPasses(s) ==
            [ Pass("CLUSTERID", s.id), Pass("CLUSTERHOME", EscapeSlashes(HomeText(s))), Pass("CACERTDIR", s.cacertDir) ]
            + [Pass("CLUSTERREPLICAS", s.replicas)]
    ensures EnvTable(s).Keys == {"CLUSTERID", "CLUSTERHOME", "CACERTDIR"} + {"CLUSTERREPLICAS"}
  {
    hide EscapeSlashes, HomeText;
  }

  lemma EnvFill(s: Settings)
    ensures Fills(EnvPasses(s), EnvTable(s).Keys)
  {
    hide Fills, BraceFree, EscapeSlashes, HomeText, EnvPasses, EnvTable;
    EnvKeysAreClean();
    FourPasses(s);
    var a := [ Pass("CLUSTERID", s.id), Pass("CLUSTERHOME", EscapeSlashes(HomeText(s))),
               Pass("CACERTDIR", s.cacertDir) ];
    FillsThree(a[0], a[1], a[2]);
    FillsOne(Pass("CLUSTERREPLICAS", s.replicas));
    FillsConcat(a, [Pass("CLUSTERREPLICAS", s.replicas)], {"CLUSTERID", "CLUSTERHOME", "CACERTDIR"},
                {"CLUSTERREPLICAS"});
  }

  /** The environment the scripts read has the home directory as configured, its slashes no longer
      escaped, and the other values, for every template, if and only if they are plain. */
  lemma EnvTextExact(s: Settings)
    requires '{' !in s.id && '{' !in HomeText(s) && '{' !in s.cacertDir && '{' !in s.replicas
    ensures Agrees(EnvPasses(s), EnvTable(s)) <==>
            PlainValue(s.id) && PlainPath(HomeText(s)) && PlainValue(s.cacertDir) && PlainValue(s.replicas)
  {
    assert HomeText(s) == s.parent + "/" + s.id;
    hide Agrees, Means, AllMean, PlainValue, PlainPath, Fills, EscapeSlashes, HomeText;
    var passes, table := EnvPasses(s), EnvTable(s);
    var a := [ Pass("CLUSTERID", s.id), Pass("CLUSTERHOME", EscapeSlashes(HomeText(s))),
               Pass("CACERTDIR", s.cacertDir) ];
    EnvKeysAreClean();
    EscapeOpensNothing(HomeText(s));
    EnvFill(s);
    FourPasses(s);
    AgreesIff(passes, table);
    MeansValue("CLUSTERID", s.id, table);
    MeansPath("CLUSTERHOME", HomeText(s), table);
    MeansValue("CACERTDIR", s.cacertDir, table);
    MeansValue("CLUSTERREPLICAS", s.replicas, table);
    AllMeanThree(a[0], a[1], a[2], table);
    AllMeanConcat(a, [Pass("CLUSTERREPLICAS", s.replicas)], table);
    AllMeanOne(Pass("CLUSTERREPLICAS", s.replicas), table);
  }

  /** The array the start script loops over: wherever the template has ports=({PORTS}), the script
      has the configured ports, with a blank between them. */
  lemma StartTextPorts(s: Settings, node: string, before: string, after: string)
    requires s.startSh == before + ("ports=(" + (Hole("PORTS") + (")" + after)))
    requires Closed(before) && NotNested(s.startSh) && PlainScript(s, node) && ScriptOpenFree(s, node)
    ensures StartText(s, node) ==
            Substitute(before, ScriptTable(s, node))
            + ("ports=(" + (Join(SplitList(Ini.Read(s.nodesCfg, node, "ports")))
                            + (")" + Substitute(after, ScriptTable(s, node)))))
  {
    hide Pipeline, Substitute, ScriptPasses, NotNested, Closed, Ports, Host, PlainScript, ScriptOpenFree, Hole,
         Ini.Read, SplitList, Join;
    var table := ScriptTable(s, node);
    ScriptTextsExact(s, node);
    SubstituteConcat(before, "ports=(" + (Hole("PORTS") + (")" + after)), table);
    CopiesPlain("ports=(", Hole("PORTS") + (")" + after), table);
    KeysAreClean();
    CopiesHole("PORTS", ")" + after, table);
    CopiesPlain(")", after, table);
  }

  const CONF_PREFIX := "./conf/redis-"
  const PORT_VARIABLE := "$port"

  /** "$port" inside double quotes. */
  function Expand(text: string, port: string): string {
    if text == "" then ""
    else if PORT_VARIABLE <= text then port + Expand(text[|PORT_VARIABLE|..], port)
    else [text[0]] + Expand(text[1..], port)
  }

  lemma ExpandChar(c: char, rest: string, port: string)
    requires c != '$'
    ensures Expand([c] + rest, port) == [c] + Expand(rest, port)
  {
    assert ([c] + rest)[1..] == rest && PORT_VARIABLE[0] == '$';
  }

  lemma {:induction false} ExpandPlain(prefix: string, rest: string, port: string)
    requires '$' !in prefix
    ensures Expand(prefix + rest, port) == prefix + Expand(rest, port)
  {
    hide Expand;
    if prefix == "" {
      assert prefix + rest == rest;
    } else {
      var tail := prefix[1..];
      assert prefix == [prefix[0]] + tail && prefix[0] in prefix && forall c | c in tail :: c in prefix;
      ExpandPlain(tail, rest, port);
      ExpandChar(prefix[0], tail + rest, port);
      assert prefix + rest == [prefix[0]] + (tail + rest);
    }
  }

  lemma ExpandVariable(rest: string, port: string)
    ensures Expand(PORT_VARIABLE + rest, port) == port + Expand(rest, port)
  {
    hide Expand;
    ExpandStep(PORT_VARIABLE + rest, port);
    assert (PORT_VARIABLE + rest)[|PORT_VARIABLE|..] == rest;
  }

  lemma ExpandStep(text: string, port: string)
    requires PORT_VARIABLE <= text
    ensures Expand(text, port) == port + Expand(text[|PORT_VARIABLE|..], port)
  {
  }

  lemma ExpandNothing(port: string)
    ensures Expand("", port) == ""
  {
  }

  /** What the start script calls the configuration file of an instance: the text its template leads
      to is, with the port in place of the variable, the name that deploy copies to. */
  lemma StartTextConf(s: Settings, node: string, before: string, after: string, port: string)
    requires s.startSh == before + (CONF_PREFIX + (Hole("NODEID") + ("-$port.conf" + after)))
    requires Closed(before) && NotNested(s.startSh) && PlainScript(s, node) && ScriptOpenFree(s, node)
    requires '$' !in node
    ensures StartText(s, node) ==
            Substitute(before, ScriptTable(s, node)) + (CONF_PREFIX + (node + ("-$port.conf"
            + Substitute(after, ScriptTable(s, node)))))
    ensures Expand(CONF_PREFIX + (node + "-$port.conf"), port) == "./conf/" + ConfName(node, port)
  {
    hide Pipeline, Substitute, ScriptPasses, NotNested, Closed, Ports, Host, PlainScript, ScriptOpenFree, Hole, Expand;
    var table := ScriptTable(s, node);
    ScriptTextsExact(s, node);
    SubstituteConcat(before, CONF_PREFIX + (Hole("NODEID") + ("-$port.conf" + after)), table);
    CopiesPlain(CONF_PREFIX, Hole("NODEID") + ("-$port.conf" + after), table);
    KeysAreClean();
    CopiesHole("NODEID", "-$port.conf" + after, table);
    CopiesPlain("-$port.conf", after, table);
    ConfNameExpands(node, port);
  }

  lemma ConfNameExpands(node: string, port: string)
    requires '$' !in node
    ensures Expand(CONF_PREFIX + (node + "-$port.conf"), port) == "./conf/" + ConfName(node, port)
  {
    hide Expand;
    ExpandPlain(CONF_PREFIX, node + "-$port.conf", port);
    ExpandPlain(node, "-$port.conf", port);
    assert "-$port.conf" == "-" + (PORT_VARIABLE + ".conf");
    ExpandPlain("-", PORT_VARIABLE + ".conf", port);
    ExpandVariable(".conf", port);
    ExpandPlain(".conf", "", port);
    ExpandNothing(port);
    assert ".conf" + "" == ".conf" && CONF_PREFIX == "./conf/" + "redis-";
    assert CONF_PREFIX + (node + ("-" + (port + ".conf"))) == "./conf/" + ConfName(node, port);
  }

  /* ---------- the list of all nodes ---------- */

  function NodeEndpoints(s: Settings, node: string, ports: seq<string>): seq<string> {
    if ports == [] then []
    else NodeEndpoints(s, node, ports[..|ports| - 1])
         + [Ini.Read(s.nodesCfg, node, "host") + ":" + ports[|ports| - 1]]
  }

  /** host:port of every instance, node by node and within a node port by port. */
  function Endpoints(s: Settings, nodes: seq<string>): seq<string> {
    if nodes == [] then []
    else
      var node := nodes[|nodes| - 1];
      Endpoints(s, nodes[..|nodes| - 1]) + NodeEndpoints(s, node, SplitList(Ini.Read(s.nodesCfg, node, "ports")))
  }

  predicate EndsBlank(t: string) {
    t == "" || IsBlank(t[|t| - 1])
  }

  /** A finished line adds its words. */
  lemma LineAdds(t: string, word: string)
    requires EndsBlank(t) && word != "" && BlankFree(word)
    ensures Words(t + word + "\n") == Words(t) + [word] && EndsBlank(t + word + "\n")
  {
    var line := word + "\n";
    assert t + word + "\n" == t + line;
    WordsConcat(t, line);
    FirstWord(word, "\n");
    assert "\n"[1..] == "" && Words("\n") == Words("");
  }

  lemma {:induction false} NodeLinesWords(s: Settings, node: string, ports: seq<string>, t: string)
    requires EndsBlank(t) && AllWords(ports) && BlankFree(Host(s, node))
    ensures Words(t + NodeLines(s, node, ports)) == Words(t) + NodeEndpoints(s, node, ports)
    ensures EndsBlank(t + NodeLines(s, node, ports))
  {
    ScriptTableIs(s, node);
    hide Words, Host, Ini.Read;
    if ports == [] {
      assert t + "" == t;
    } else {
      var init, port := ports[..|ports| - 1], ports[|ports| - 1];
      assert port in ports && forall q | q in init :: q in ports;
      NodeLinesWords(s, node, init, t);
      var word := Host(s, node) + ":" + port;
      assert forall c | c in word :: c in Host(s, node) || c == ':' || c in port;
      LineAdds(t + NodeLines(s, node, init), word);
      assert t + NodeLines(s, node, ports) == t + NodeLines(s, node, init) + word + "\n";
    }
  }

  lemma {:induction false} AllLinesWords(s: Settings, nodes: seq<string>)
    requires forall n | n in nodes && Ports(s, n) != [] :: BlankFree(Host(s, n))
    ensures Words(AllLines(s, nodes)) == Endpoints(s, nodes) && EndsBlank(AllLines(s, nodes))
  {
    hide Words, Host, Ports, NodeLines, NodeEndpoints, EndsBlank, Ini.Read, SplitList, ScriptTable;
    if nodes == [] {
      NoWords();
    } else {
      var init, node := nodes[..|nodes| - 1], nodes[|nodes| - 1];
      assert node in nodes && forall n | n in init :: n in nodes;
      AllLinesWords(s, init);
      ScriptTableIs(s, node);
      if Ports(s, node) == [] {
        NoPorts(s, node, AllLines(s, init));
      } else {
        PortsAllWords(s, node);
        NodeLinesWords(s, node, Ports(s, node), AllLines(s, init));
      }
    }
  }

  lemma NoWords()
    ensures Words("") == [] && EndsBlank("")
  {
  }

  lemma NoPorts(s: Settings, node: string, t: string)
    ensures NodeLines(s, node, []) == "" && NodeEndpoints(s, node, []) == [] && t + "" == t
  {
  }

  lemma PortsAllWords(s: Settings, node: string)
    ensures AllWords(Ports(s, node))
  {
    WordsAreWords(CommasToLines(Ini.Read(s.nodesCfg, node, "ports")));
  }

  lemma {:induction false} NodeEndpointsHave(s: Settings, node: string, ports: seq<string>)
    ensures forall port | port in ports :: Host(s, node) + ":" + port in NodeEndpoints(s, node, ports)
  {
    ScriptTableIs(s, node);
    hide Host, Ini.Read, ScriptTable;
    if ports != [] {
      NodeEndpointsHave(s, node, ports[..|ports| - 1]);
      assert forall q | q in ports :: q in ports[..|ports| - 1] || q == ports[|ports| - 1];
    }
  }

  lemma {:induction false} EndpointsHave(s: Settings, nodes: seq<string>, node: string, port: string)
    requires node in nodes && port in Ports(s, node)
    ensures Host(s, node) + ":" + port in Endpoints(s, nodes)
  {
    hide Host, Ports, NodeEndpoints, Ini.Read, SplitList, ScriptTable;
    ScriptTableIs(s, node);
    var init, last := nodes[..|nodes| - 1], nodes[|nodes| - 1];
    if node == last {
      NodeEndpointsHave(s, node, Ports(s, node));
    } else {
      EndpointsHave(s, init, node, port);
    }
  }

  /** The words create_cluster.sh passes to redis-cli are exactly the instances in node-then-port
      order, if and only if no host that has a port contains a blank. */
  lemma ListIsEndpoints(s: Settings, nodes: seq<string>)
    ensures Words(AllLines(s, nodes)) == Endpoints(s, nodes) <==>
            forall n | n in nodes && Ports(s, n) != [] :: BlankFree(Host(s, n))
  {
    hide Words, Host, Ports, AllLines, Endpoints;
    if Words(AllLines(s, nodes)) == Endpoints(s, nodes) {
      WordsAreWords(AllLines(s, nodes));
      forall n | n in nodes && Ports(s, n) != [] ensures BlankFree(Host(s, n)) {
        var word := Host(s, n) + ":" + Ports(s, n)[0];
        EndpointsHave(s, nodes, n, Ports(s, n)[0]);
        forall c | c in Host(s, n) ensures !IsBlank(c) { assert c in word; }
      }
    }
    if forall n | n in nodes && Ports(s, n) != [] :: BlankFree(Host(s, n)) {
      AllLinesWords(s, nodes);
    }
  }
}
