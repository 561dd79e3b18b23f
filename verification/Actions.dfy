/** Command line of redis_cluster.sh: the action flags and the rules for a cluster id. */
module Actions {
  import opened Text

  datatype Flags = Flags(config: bool, build: bool, deploy: bool, clean: bool)

  const RESERVED := ["default", "redis", "config", "deploy", "clean", "all", "build", "standalone", "distributed"]

  predicate IdChar(c: char) {
    'a' <= c <= 'z' || '0' <= c <= '9' || c == '_'
  }

  /** Rules 1 and 2: ^[a-z][a-z0-9_]{5,}$, and not a reserved name. */
  predicate Accepted(id: string) {
    && |id| >= 6 && 'a' <= id[0] <= 'z'
    && (forall c | c in id :: IdChar(c))
    && id !in RESERVED
  }

  /** "$*" split at commas and blanks. */
  function Tokens(argv: seq<string>): seq<string> {
    SplitList(Join(argv))
  }

  predicate Wanted(tokens: seq<string>, word: string) {
    word in tokens
  }

  function FlagsOf(tokens: seq<string>): Flags {
    var all := Wanted(tokens, "ALL");
    Flags(all || Wanted(tokens, "config"), all || Wanted(tokens, "build"),
          all || Wanted(tokens, "deploy"), Wanted(tokens, "clean"))
  }

  /** The position of the first element equal to x, or -1. */
  method ArrayFind(list: seq<string>, x: string) returns (index: int)
    ensures -1 <= index < |list|
    ensures index == -1 <==> x !in list
    ensures index >= 0 ==> list[index] == x && x !in list[..index]
  {
    for i := 0 to |list|
      invariant x !in list[..i]
    {
      if x == list[i] {
        return i;
      }
      assert list[..i + 1] == list[..i] + [list[i]];
    }
    assert list[..|list|] == list;
    return -1;
  }

  /** One of the arguments has the word in its list. */
  ghost predicate Asked(argv: seq<string>, word: string) {
    exists arg :: arg in argv && word in SplitList(arg)
  }

  /** The tokens are the words of the arguments' lists. */
  lemma {:induction false} TokensAsked(argv: seq<string>, word: string)
    ensures word in Tokens(argv) <==> Asked(argv, word)
  {
    hide SplitList;
    if argv == [] {
      NoTokens();
    } else {
      var first, rest := argv[0], argv[1..];
      assert argv == [first] + rest;
      JoinSteps(first, rest);
      TokensAsked(rest, word);
      if rest != [] {
        SplitAround(first, Join(rest));
      }
      assert Asked(argv, word) <==> word in SplitList(first) || Asked(rest, word);
    }
  }

  lemma NoTokens()
    ensures SplitList(Join([])) == []
  {
    assert CommasToLines("") == "";
  }

  /** The id contributes exactly one token, and the other arguments theirs. */
  lemma IdIsOneToken(id: string, rest: seq<string>)
    requires Accepted(id)
    ensures Tokens([id] + rest) == [id] + Tokens(rest)
  {
    forall c | c in id ensures !IsBlank(c) && c != ',' {}
    NoComma(id);
    var argv := [id] + rest;
    if rest == [] {
      assert id + "" == id;
      FirstWord(id, "");
    } else {
      assert argv[1..] == rest;
      var tail := " " + Join(rest);
      assert Join(argv) == id + tail;
      CommasConcat(id, tail);
      CommasConcat(" ", Join(rest));
      assert CommasToLines(tail)[1..] == CommasToLines(Join(rest));
      FirstWord(id, CommasToLines(tail));
    }
  }

  /** An accepted id is never an action word. */
  lemma IdIsNoAction(id: string)
    requires Accepted(id)
    ensures id !in {"ALL", "config", "build", "deploy", "clean"}
  {
    assert RESERVED[2] == "config" && RESERVED[3] == "deploy";
    assert "ALL"[0] == 'A';
  }

  /** The flags depend on the arguments after the id alone, although the script looks for the
      action words before it validates the id. */
  lemma FlagsIgnoreId(id: string, rest: seq<string>)
    requires Accepted(id)
    ensures FlagsOf(Tokens([id] + rest)) == FlagsOf(Tokens(rest))
  {
    IdIsOneToken(id, rest);
    IdIsNoAction(id);
    var all := Tokens([id] + rest);
    forall word | word in {"ALL", "config", "build", "deploy", "clean"}
      ensures word in all <==> word in Tokens(rest)
    {
      assert all == [id] + Tokens(rest);
    }
  }

  /** Lines 68 to 105: flags first, validation after; None is exit 1. */
  datatype Parsed = Rejected | Parsed(id: string, flags: Flags)

  method ParseArguments(argv: seq<string>) returns (p: Parsed)
    requires argv != []
    ensures p.Parsed? <==> Accepted(argv[0])
    ensures p.Parsed? ==> p.id == argv[0] && p.flags == FlagsOf(Tokens(argv[1..]))
    // in full
    ensures p.Parsed? <==>
            && |argv[0]| >= 6 && 'a' <= argv[0][0] <= 'z'
            && (forall c | c in argv[0] :: 'a' <= c <= 'z' || '0' <= c <= '9' || c == '_')
            && argv[0] !in {"default", "redis", "config", "deploy", "clean", "all", "build", "standalone",
                            "distributed"}
    ensures p.Parsed? ==>
              && (p.flags.config <==> Asked(argv[1..], "ALL") || Asked(argv[1..], "config"))
              && (p.flags.build <==> Asked(argv[1..], "ALL") || Asked(argv[1..], "build"))
              && (p.flags.deploy <==> Asked(argv[1..], "ALL") || Asked(argv[1..], "deploy"))
              && (p.flags.clean <==> Asked(argv[1..], "clean"))
  {
    hide Tokens, Asked;
    TokensAsked(argv[1..], "ALL");
    TokensAsked(argv[1..], "config");
    TokensAsked(argv[1..], "build");
    TokensAsked(argv[1..], "deploy");
    TokensAsked(argv[1..], "clean");
    var actions := Tokens(argv);
    var config, build, deploy, clean := false, false, false, false;
    var i := ArrayFind(actions, "ALL");
    if i != -1 {
      config, build, deploy := true, true, true;
    }
    i := ArrayFind(actions, "config");
    if i != -1 { config := true; }
    i := ArrayFind(actions, "build");
    if i != -1 { build := true; }
    i := ArrayFind(actions, "deploy");
    if i != -1 { deploy := true; }
    i := ArrayFind(actions, "clean");
    if i != -1 { clean := true; }
    assert Flags(config, build, deploy, clean) == FlagsOf(actions);
    var id := argv[0];
    if !(|id| >= 6 && 'a' <= id[0] <= 'z' && forall c | c in id :: IdChar(c)) {
      return Rejected;
    }
    for n := 0 to |RESERVED|
      invariant id !in RESERVED[..n]
    {
      if id == RESERVED[n] {
        return Rejected;
      }
      assert RESERVED[..n + 1] == RESERVED[..n] + [RESERVED[n]];
    }
    assert RESERVED[..|RESERVED|] == RESERVED;
    assert argv == [id] + argv[1..];
    FlagsIgnoreId(id, argv[1..]);
    return Parsed.Parsed(id, Flags(config, build, deploy, clean));
  }
}
