/** The template rendering of redis_cluster.sh: a pipeline of sed commands, each replacing one
    placeholder {KEY}, proved equal to replacing all placeholders at once. */
module Render {

  predicate IsBrace(c: char) {
    c == '{' || c == '}'
  }

  predicate BraceFree(s: string) {
    forall c | c in s :: !IsBrace(c)
  }

  function Hole(key: string): string {
    "{" + key + "}"
  }

  /** sed 's/{key}/value/g', for a value already interpreted. */
  function ReplaceAll(text: string, key: string, value: string): string {
    if text == "" then ""
    else if Hole(key) <= text then value + ReplaceAll(text[|key| + 2..], key, value)
    else [text[0]] + ReplaceAll(text[1..], key, value)
  }

  /* ---------- the reference: all placeholders in one scan ---------- */

  /** How many characters precede the first brace. */
  function ToBrace(s: string): (n: nat)
    ensures n <= |s| && BraceFree(s[..n]) && (n < |s| ==> IsBrace(s[n]))
  {
    if s == "" || IsBrace(s[0]) then 0
    else
      var n := ToBrace(s[1..]);
      assert s[..n + 1] == [s[0]] + s[1..][..n];
      n + 1
  }

  /** The text begins with a placeholder. */
  predicate StartsHole(text: string) {
    text != "" && text[0] == '{' &&
    var n := ToBrace(text[1..]); n + 1 < |text| && text[n + 1] == '}'
  }

  function HoleKey(text: string): (key: string)
    requires StartsHole(text)
    ensures BraceFree(key) && Hole(key) <= text
  {
    var key := text[1..][..ToBrace(text[1..])];
    assert Hole(key) == text[..|key| + 2];
    key
  }

  function Substitute(text: string, table: map<string, string>): string {
    if text == "" then ""
    else if StartsHole(text) && HoleKey(text) in table then
      table[HoleKey(text)] + Substitute(text[|HoleKey(text)| + 2..], table)
    else [text[0]] + Substitute(text[1..], table)
  }

  /** No placeholder is opened inside another: after an opening brace, the next brace closes. */
  predicate NotNested(text: string) {
    if text == "" then true
    else
      && (text[0] == '{' ==> var n := ToBrace(text[1..]); n + 1 < |text| ==> text[n + 1] == '}')
      && NotNested(text[1..])
  }

  lemma {:induction false} NotNestedSuffix(text: string, n: nat)
    requires NotNested(text) && n <= |text|
    ensures NotNested(text[n..])
  {
    if n > 0 {
      NotNestedSuffix(text[1..], n - 1);
      assert text[1..][n - 1..] == text[n..];
    }
  }

  lemma {:induction false} ToBraceOf(prefix: string, s: string)
    requires BraceFree(prefix) && s != "" && IsBrace(s[0])
    ensures ToBrace(prefix + s) == |prefix|
  {
    if prefix == "" {
      assert prefix + s == s;
    } else {
      assert prefix[0] in prefix;
      forall c | c in prefix[1..] ensures !IsBrace(c) { assert c in prefix; }
      ToBraceOf(prefix[1..], s);
      assert (prefix + s)[1..] == prefix[1..] + s;
    }
  }

  lemma StartsHoleIff(text: string, key: string)
    requires BraceFree(key)
    ensures Hole(key) <= text <==> StartsHole(text) && HoleKey(text) == key
  {
    if Hole(key) <= text {
      var rest := text[|key| + 1..];
      assert text[1..] == key + rest by {
        assert text[..|key| + 2] == Hole(key);
        forall k | 0 <= k < |key| ensures text[k + 1] == key[k] {
          assert text[..|key| + 2][k + 1] == key[k];
        }
        assert text[1..][..|key|] == key;
      }
      assert rest[0] == text[..|key| + 2][|key| + 1] == '}';
      ToBraceOf(key, rest);
    }
  }

  /** One sed pass is the one-scan substitution of a single key. */
  lemma {:induction false} PassIsSubstitute(text: string, key: string, value: string)
    requires BraceFree(key)
    ensures ReplaceAll(text, key, value) == Substitute(text, map[key := value])
  {
    if text != "" {
      StartsHoleIff(text, key);
      if Hole(key) <= text {
        PassIsSubstitute(text[|key| + 2..], key, value);
      } else {
        PassIsSubstitute(text[1..], key, value);
      }
    }
  }

  lemma CopiesChar(c: char, rest: string, table: map<string, string>)
    requires c != '{'
    ensures Substitute([c] + rest, table) == [c] + Substitute(rest, table)
  {
    assert ([c] + rest)[1..] == rest;
  }

  /** Text without an opening brace is copied. */
  lemma {:induction false} CopiesPlain(prefix: string, rest: string, table: map<string, string>)
    requires '{' !in prefix
    ensures Substitute(prefix + rest, table) == prefix + Substitute(rest, table)
  {
    hide Substitute;
    if prefix == "" {
      assert prefix + rest == rest;
    } else {
      var tail := prefix[1..];
      assert prefix == [prefix[0]] + tail && prefix[0] in prefix && forall c | c in tail :: c in prefix;
      CopiesPlain(tail, rest, table);
      CopiesChar(prefix[0], tail + rest, table);
      assert prefix + rest == [prefix[0]] + (tail + rest);
    }
  }

  /** A placeholder is replaced if known and copied otherwise. */
  lemma CopiesHole(key: string, rest: string, table: map<string, string>)
    requires BraceFree(key)
    ensures Substitute(Hole(key) + rest, table) ==
            (if key in table then table[key] else Hole(key)) + Substitute(rest, table)
  {
    var text := Hole(key) + rest;
    StartsHoleIff(text, key);
    assert text[|key| + 2..] == rest && text[1..] == (key + "}") + rest;
    if key !in table {
      CopiesPlain(key + "}", rest, table);
    }
  }

  /* ---------- one more pass ---------- */

  /** Nowhere in the value does the placeholder begin, whatever follows the value. */
  predicate Safe(value: string, key: string) {
    value == "" || (!(Hole(key) <= value) && !(value <= Hole(key)) && Safe(value[1..], key))
  }

  lemma {:induction false} NoOpenSafe(value: string, key: string)
    requires '{' !in value
    ensures Safe(value, key)
  {
    if value != "" {
      assert value[0] in value && forall c | c in value[1..] :: c in value;
      assert Hole(key)[0] == '{';
      NoOpenSafe(value[1..], key);
    }
  }

  lemma {:induction false} SafeConcat(a: string, b: string, key: string)
    requires Safe(a, key) && Safe(b, key)
    ensures Safe(a + b, key)
  {
    if a == "" {
      assert a + b == b;
    } else {
      SafeConcat(a[1..], b, key);
      assert (a + b)[1..] == a[1..] + b;
      NotAcross(a, b, Hole(key));
    }
  }

  lemma NotAcross(a: string, b: string, hole: string)
    ensures hole <= a + b ==> hole <= a || a <= hole
    ensures a + b <= hole ==> a <= hole
  {
    if hole <= a + b {
      assert (a + b)[..|hole|] == hole;
      if |hole| <= |a| {
        assert a[..|hole|] == hole;
      } else {
        assert hole[..|a|] == a;
      }
    }
    if a + b <= hole {
      assert hole[..|a + b|][..|a|] == hole[..|a|] == a;
    }
  }

  /** Different placeholders do not overlap. */
  lemma HoleSafe(other: string, key: string)
    requires BraceFree(other) && BraceFree(key) && other != key
    ensures Safe(Hole(other), key)
  {
    var hole := Hole(other);
    StartsHoleIff(hole, key);
    StartsHoleIff(hole, other);
    StartsHoleIff(Hole(key), key);
    StartsHoleIff(Hole(key), other);
    assert hole[1..] == other + "}";
    NoOpenSafe(hole[1..], key);
  }

  /** A pass leaves a safe piece alone. */
  lemma HeadFirst(a: string, b: string)
    requires a != ""
    ensures a + b == [a[0]] + (a[1..] + b) && a == [a[0]] + a[1..]
  {
  }

  lemma ReplaceSkips(c: char, rest: string, key: string, value: string)
    requires !(Hole(key) <= [c] + rest)
    ensures ReplaceAll([c] + rest, key, value) == [c] + ReplaceAll(rest, key, value)
  {
    assert ([c] + rest)[1..] == rest;
  }

  lemma {:induction false} ReplaceSafe(a: string, b: string, key: string, value: string)
    requires Safe(a, key)
    ensures ReplaceAll(a + b, key, value) == a + ReplaceAll(b, key, value)
  {
    if a == "" {
      assert a + b == b;
    } else {
      NotAcross(a, b, Hole(key));
      HeadFirst(a, b);
      hide ReplaceAll;
      ReplaceSafe(a[1..], b, key, value);
      HeadFirst(a, ReplaceAll(b, key, value));
      ReplaceSkips(a[0], a[1..] + b, key, value);
    }
  }

  lemma ReplaceHole(key: string, rest: string, value: string)
    ensures ReplaceAll(Hole(key) + rest, key, value) == value + ReplaceAll(rest, key, value)
  {
    var text := Hole(key) + rest;
    assert Hole(key) <= text && text[|key| + 2..] == rest;
  }

  lemma HasCloser(text: string, key: string)
    requires Hole(key) <= text
    ensures '}' in text
  {
    assert text[..|key| + 2][|key| + 1] == text[|key| + 1] == '}';
  }

  lemma {:induction false} ReplaceNothing(text: string, key: string, value: string)
    requires '}' !in text
    ensures ReplaceAll(text, key, value) == text
  {
    if text != "" {
      if Hole(key) <= text {
        HasCloser(text, key);
      }
      assert forall c | c in text[1..] :: c in text;
      ReplaceNothing(text[1..], key, value);
    }
  }

  lemma {:induction false} ReplaceSelf(text: string, key: string)
    ensures ReplaceAll(text, key, Hole(key)) == text
  {
    if text != "" {
      if Hole(key) <= text {
        var rest := text[|key| + 2..];
        assert text == Hole(key) + rest;
        hide ReplaceAll, Hole;
        ReplaceSelf(rest, key);
        ReplaceHole(key, rest, Hole(key));
      } else {
        ReplaceSelf(text[1..], key);
      }
    }
  }

  /** No brace follows the last opening one: nothing is replaced. */
  lemma OpenEnd(text: string, table: map<string, string>)
    requires text != "" && text[0] == '{' && NotNested(text) && !StartsHole(text)
    ensures Substitute(text, table) == text && '}' !in text
  {
    var tail := text[1..];
    assert ToBrace(tail) == |tail| && tail[..|tail|] == tail;
    CopiesPlain(tail, "", table);
    assert tail + "" == tail && Substitute("", table) == "";
    assert text == ['{'] + tail;
  }

  /** A pass after a simultaneous substitution is one simultaneous substitution, if no value put
      in so far can become part of the pass's placeholder. */
  lemma {:induction false} PassAfter(text: string, table: map<string, string>, key: string, value: string)
    requires NotNested(text) && BraceFree(key) && key !in table
    requires forall k | k in table :: Safe(table[k], key)
    ensures ReplaceAll(Substitute(text, table), key, value) == Substitute(text, table[key := value])
    decreases |text|
  {
    var more := table[key := value];
    if text == "" {
    } else if StartsHole(text) {
      var first := HoleKey(text);
      var rest := text[|first| + 2..];
      assert text == Hole(first) + rest;
      NotNestedSuffix(text, |first| + 2);
      hide Substitute, ReplaceAll, NotNested;
      PassAfter(rest, table, key, value);
      CopiesHole(first, rest, table);
      CopiesHole(first, rest, more);
      if first in table {
        ReplaceSafe(table[first], Substitute(rest, table), key, value);
      } else if first == key {
        ReplaceHole(key, Substitute(rest, table), value);
      } else {
        HoleSafe(first, key);
        ReplaceSafe(Hole(first), Substitute(rest, table), key, value);
      }
    } else if text[0] == '{' {
      OpenEnd(text, table);
      OpenEnd(text, more);
      ReplaceNothing(text, key, value);
    } else {
      var c, rest := text[0], text[1..];
      assert text == [c] + rest;
      hide Substitute, ReplaceAll;
      PassAfter(rest, table, key, value);
      CopiesPlain([c], rest, table);
      CopiesPlain([c], rest, more);
      NoOpenSafe([c], key);
      ReplaceSafe([c], Substitute(rest, table), key, value);
    }
  }

  /** Replacing a placeholder by itself changes nothing. */
  lemma {:induction false} SubstituteSelf(text: string, table: map<string, string>, key: string)
    requires BraceFree(key) && key !in table
    ensures Substitute(text, table[key := Hole(key)]) == Substitute(text, table)
    decreases |text|
  {
    if text != "" {
      if StartsHole(text) {
        var first := HoleKey(text);
        var rest := text[|first| + 2..];
        assert text == Hole(first) + rest;
        SubstituteSelf(rest, table, key);
        CopiesHole(first, rest, table);
        CopiesHole(first, rest, table[key := Hole(key)]);
      } else {
        SubstituteSelf(text[1..], table, key);
      }
    }
  }

  lemma {:induction false} ReplaceLength(text: string, key: string, value: string)
    ensures |value| >= |key| + 2 ==> |ReplaceAll(text, key, value)| >= |text|
    ensures |value| <= |key| + 2 ==> |ReplaceAll(text, key, value)| <= |text|
  {
    if text != "" {
      if Hole(key) <= text {
        ReplaceLength(text[|key| + 2..], key, value);
      } else {
        ReplaceLength(text[1..], key, value);
      }
    }
  }

  lemma StartDiffers(value: string, tail: string, hole: string, rest: string)
    requires value != hole
    requires |value| >= |hole| ==> |tail| >= |rest|
    requires |value| <= |hole| ==> |tail| <= |rest|
    ensures value + tail != hole + rest
  {
    if |value| == |hole| {
      assert (value + tail)[..|value|] == value && (hole + rest)[..|hole|] == hole;
    }
  }

  /** A pass that finds its placeholder changes the text. */
  lemma {:induction false} ReplaceChanges(text: string, p: nat, key: string, value: string)
    requires p < |text| && Hole(key) <= text[p..] && value != Hole(key)
    ensures ReplaceAll(text, key, value) != text
  {
    if Hole(key) <= text {
      var rest := text[|key| + 2..];
      ReplaceLength(rest, key, value);
      assert text == Hole(key) + rest;
      StartDiffers(value, ReplaceAll(rest, key, value), Hole(key), rest);
    } else {
      assert text[0..] == text;
      assert text[1..][p - 1..] == text[p..];
      ReplaceChanges(text[1..], p - 1, key, value);
      assert text == [text[0]] + text[1..];
    }
  }

  /** An unsafe value, and the text that completes the placeholder. */
  lemma {:induction false} Unsafe(value: string, key: string) returns (p: nat, rest: string)
    requires BraceFree(key) && !Safe(value, key)
    ensures p < |value| && Hole(key) <= (value + rest)[p..] && '{' !in rest
  {
    if Hole(key) <= value {
      p, rest := 0, "";
      assert (value + rest)[0..] == value;
    } else if value <= Hole(key) {
      p, rest := 0, Hole(key)[|value|..];
      assert value + rest == Hole(key);
      forall i | 0 <= i < |rest| ensures rest[i] != '{' {
        assert rest[i] == Hole(key)[|value| + i];
        assert |value| + i <= |key| ==> rest[i] == key[|value| + i - 1] && rest[i] in key;
      }
    } else {
      var q, r := Unsafe(value[1..], key);
      p, rest := q + 1, r;
      assert (value + rest)[p..] == (value[1..] + rest)[q..];
    }
  }

  /** The pass finds nothing that is not its own, or changes nothing at all. */
  predicate Harmless(table: map<string, string>, key: string, value: string) {
    value == Hole(key) || forall k | k in table :: Safe(table[k], key)
  }

  ghost predicate PassAgrees(table: map<string, string>, key: string, value: string) {
    forall t | NotNested(t) :: ReplaceAll(Substitute(t, table), key, value) == Substitute(t, table[key := value])
  }

  lemma HoleNotNested(key: string, rest: string)
    requires BraceFree(key) && '{' !in rest
    ensures NotNested(Hole(key) + rest)
  {
    var text := Hole(key) + rest;
    StartsHoleIff(text, key);
    assert text[1..] == key + "}" + rest;
    forall c | c in key + "}" + rest ensures c != '{' {
      assert c in key || c == '}' || c in rest;
    }
    NoOpenNotNested(text[1..]);
  }

  lemma {:induction false} NoOpenNotNested(text: string)
    requires '{' !in text
    ensures NotNested(text)
  {
    if text != "" {
      assert text[0] in text && forall c | c in text[1..] :: c in text;
      NoOpenNotNested(text[1..]);
    }
  }

  /** A value that is not safe has a template on which the pass goes astray. */
  lemma Astray(table: map<string, string>, key: string, value: string, k: string)
    requires BraceFree(key) && key !in table && value != Hole(key)
    requires k in table && BraceFree(k) && !Safe(table[k], key)
    ensures !PassAgrees(table, key, value)
  {
    var p, rest := Unsafe(table[k], key);
    var t := Hole(k) + rest;
    HoleNotNested(k, rest);
    hide Substitute, ReplaceAll, NotNested, Safe, Hole;
    CopiesHole(k, rest, table);
    CopiesHole(k, rest, table[key := value]);
    CopiesAll(rest, table);
    CopiesAll(rest, table[key := value]);
    ReplaceChanges(table[k] + rest, p, key, value);
    assert NotNested(t);
  }

  lemma CopiesAll(text: string, table: map<string, string>)
    requires '{' !in text
    ensures Substitute(text, table) == text
  {
    CopiesPlain(text, "", table);
    assert text + "" == text && Substitute("", table) == "";
  }

  /** Exactly when one more pass agrees with the simultaneous substitution on every template. */
  lemma PassAgreesIff(table: map<string, string>, key: string, value: string)
    requires BraceFree(key) && key !in table && forall k | k in table :: BraceFree(k)
    ensures PassAgrees(table, key, value) <==> Harmless(table, key, value)
  {
    if Harmless(table, key, value) {
      forall t | NotNested(t)
        ensures ReplaceAll(Substitute(t, table), key, value) == Substitute(t, table[key := value])
      {
        if value == Hole(key) {
          ReplaceSelf(Substitute(t, table), key);
          SubstituteSelf(t, table, key);
        } else {
          PassAfter(t, table, key, value);
        }
      }
    } else {
      var k :| k in table && !Safe(table[k], key);
      Astray(table, key, value, k);
    }
  }

  /** Every opening brace is closed, with no brace between. */
  predicate Closed(text: string) {
    text == "" || ((text[0] == '{' ==> StartsHole(text)) && Closed(text[1..]))
  }

  lemma {:induction false} ClosedSuffix(text: string, n: nat)
    requires Closed(text) && n <= |text|
    ensures Closed(text[n..])
  {
    if n > 0 {
      ClosedSuffix(text[1..], n - 1);
      assert text[1..][n - 1..] == text[n..];
    }
  }

  lemma ClosedHole(text: string) returns (key: string, rest: string)
    requires Closed(text) && text != "" && text[0] == '{'
    ensures BraceFree(key) && text == Hole(key) + rest && Closed(rest) && |rest| < |text|
  {
    key := HoleKey(text);
    rest := text[|key| + 2..];
    ClosedSuffix(text, |key| + 2);
  }

  lemma HoleThenMore(key: string, rest: string, b: string, table: map<string, string>)
    requires BraceFree(key) && Substitute(rest + b, table) == Substitute(rest, table) + Substitute(b, table)
    ensures Substitute(Hole(key) + rest + b, table) == Substitute(Hole(key) + rest, table) + Substitute(b, table)
  {
    hide Substitute, Hole, BraceFree;
    CopiesHole(key, rest, table);
    CopiesHole(key, rest + b, table);
    assert Hole(key) + rest + b == Hole(key) + (rest + b);
  }

  lemma PlainThenMore(c: char, rest: string, b: string, table: map<string, string>)
    requires c != '{' && Substitute(rest + b, table) == Substitute(rest, table) + Substitute(b, table)
    ensures Substitute([c] + rest + b, table) == Substitute([c] + rest, table) + Substitute(b, table)
  {
    hide Substitute;
    CopiesPlain([c], rest, table);
    CopiesPlain([c], rest + b, table);
    assert [c] + rest + b == [c] + (rest + b);
  }

  /** Text can be substituted piece by piece, if no placeholder lies across the cut. */
  lemma {:induction false} SubstituteConcat(a: string, b: string, table: map<string, string>)
    requires Closed(a)
    ensures Substitute(a + b, table) == Substitute(a, table) + Substitute(b, table)
    decreases |a|
  {
    if a == "" {
      assert a + b == b;
    } else if a[0] == '{' {
      hide Substitute, Hole;
      var key, rest := ClosedHole(a);
      SubstituteConcat(rest, b, table);
      HoleThenMore(key, rest, b, table);
    } else {
      hide Substitute;
      SubstituteConcat(a[1..], b, table);
      PlainThenMore(a[0], a[1..], b, table);
      assert a == [a[0]] + a[1..];
    }
  }

  /* ---------- the pipeline ---------- */

  /** One sed command of the pipeline, s/{key}/raw/g. */
  datatype Pass = Pass(key: string, raw: string) {
    function Value(): string { Interpret(raw, Hole(key)) }
  }

  /** How sed reads a replacement: a backslash makes the next character literal, an ampersand
      stands for the matched text. */
  function Interpret(raw: string, matched: string): string {
    if raw == "" then ""
    else if raw[0] == '\\' && |raw| > 1 then [raw[1]] + Interpret(raw[2..], matched)
    else if raw[0] == '&' then matched + Interpret(raw[1..], matched)
    else [raw[0]] + Interpret(raw[1..], matched)
  }

  lemma InterpretOne(c: char, rest: string, matched: string)
    ensures c != '\\' && c != '&' ==> Interpret([c] + rest, matched) == [c] + Interpret(rest, matched)
    ensures Interpret("&" + rest, matched) == matched + Interpret(rest, matched)
    ensures Interpret(['\\', c] + rest, matched) == [c] + Interpret(rest, matched)
  {
    assert ([c] + rest)[1..] == rest && ("&" + rest)[1..] == rest && (['\\', c] + rest)[2..] == rest;
  }

  lemma LiteralTail(plain: string)
    requires plain != "" && '\\' !in plain && '&' !in plain
    ensures plain[0] != '\\' && plain[0] != '&' && '\\' !in plain[1..] && '&' !in plain[1..]
  {
  }

  lemma {:induction false} InterpretPlain(plain: string, rest: string, matched: string)
    requires '\\' !in plain && '&' !in plain
    ensures Interpret(plain + rest, matched) == plain + Interpret(rest, matched)
  {
    if plain == "" {
      assert "" + rest == rest;
    } else {
      hide Interpret;
      LiteralTail(plain);
      InterpretPlain(plain[1..], rest, matched);
      InterpretOne(plain[0], plain[1..] + rest, matched);
      HeadFirst(plain, rest);
      HeadFirst(plain, Interpret(rest, matched));
    }
  }

  /** An ampersand puts in what was matched, and a backslash makes whatever follows itself. */
  lemma InterpretSteps(plain: string, c: char, rest: string, matched: string)
    requires '\\' !in plain && '&' !in plain
    ensures Interpret(plain, matched) == plain
    ensures Interpret(plain + "&" + rest, matched) == plain + matched + Interpret(rest, matched)
    ensures Interpret(plain + ['\\', c] + rest, matched) == plain + [c] + Interpret(rest, matched)
  {
    assert plain + "" == plain && Interpret("", matched) == "";
    hide Interpret;
    InterpretPlain(plain, "", matched);
    InterpretPlain(plain, "&" + rest, matched);
    InterpretPlain(plain, ['\\', c] + rest, matched);
    InterpretOne(c, rest, matched);
    assert plain + "&" + rest == plain + ("&" + rest);
    assert plain + ['\\', c] + rest == plain + (['\\', c] + rest);
  }

  /** A slash ends the replacement early and a newline or a backslash at the end leaves it
      unfinished; then sed stops with an error. */
  predicate SedAccepts(raw: string) {
    if raw == "" then true
    else if raw[0] == '\\' then |raw| > 1 && SedAccepts(raw[2..])
    else raw[0] != '/' && raw[0] != '\n' && SedAccepts(raw[1..])
  }

  /** What one sed writes: nothing, if it stops. */
  function Sed(text: string, p: Pass): string {
    if SedAccepts(p.raw) then ReplaceAll(text, p.key, p.Value()) else ""
  }

  /** The failure of a sed before the last goes unnoticed, since the script does not set pipefail;
      those behind it read nothing. */
  function Pipeline(text: string, passes: seq<Pass>): string {
    if passes == [] then text
    else Sed(Pipeline(text, passes[..|passes| - 1]), passes[|passes| - 1])
  }

  function Table(passes: seq<Pass>): map<string, string> {
    if passes == [] then map[]
    else
      var last := passes[|passes| - 1];
      Table(passes[..|passes| - 1])[last.key := last.Value()]
  }

  predicate DistinctKeys(passes: seq<Pass>) {
    forall i, j | 0 <= i < j < |passes| :: passes[i].key != passes[j].key
  }

  /** Each placeholder has a pass of its own and is spelled without braces. */
  predicate Spelled(passes: seq<Pass>) {
    DistinctKeys(passes) && forall p | p in passes :: BraceFree(p.key)
  }

  /** sed accepts every pass, and none can meet its placeholder in what earlier passes put in. */
  predicate Orderly(passes: seq<Pass>) {
    forall m | 0 <= m < |passes| :: OrderlyAt(passes, m)
  }

  predicate OrderlyAt(passes: seq<Pass>, m: nat)
    requires m < |passes|
  {
    SedAccepts(passes[m].raw) && Harmless(Table(passes[..m]), passes[m].key, passes[m].Value())
  }

  lemma SpelledPrefix(passes: seq<Pass>, m: nat)
    requires Spelled(passes) && m <= |passes|
    ensures Spelled(passes[..m])
  {
    assert forall p | p in passes[..m] :: p in passes;
  }

  lemma OrderlyPrefix(passes: seq<Pass>, m: nat)
    requires Orderly(passes) && m <= |passes|
    ensures Orderly(passes[..m])
  {
    forall i | 0 <= i < m ensures OrderlyAt(passes[..m], i) {
      assert passes[..m][..i] == passes[..i] && OrderlyAt(passes, i);
    }
  }

  lemma LastIsNew(passes: seq<Pass>)
    requires DistinctKeys(passes) && passes != []
    ensures forall p | p in passes[..|passes| - 1] :: p.key != passes[|passes| - 1].key
  {
    var n := |passes| - 1;
    forall i | 0 <= i < n ensures passes[..n][i].key != passes[n].key {
      assert passes[i].key != passes[n].key;
    }
  }

  lemma {:induction false} TableEntries(passes: seq<Pass>)
    requires DistinctKeys(passes)
    ensures forall p | p in passes :: p.key in Table(passes) && Table(passes)[p.key] == p.Value()
    ensures forall k | k in Table(passes) :: exists p :: p in passes && p.key == k
  {
    if passes != [] {
      var init, last := passes[..|passes| - 1], passes[|passes| - 1];
      TableEntries(init);
      LastIsNew(passes);
      forall p | p in passes
        ensures p.key in Table(passes) && Table(passes)[p.key] == p.Value()
      {
        if p != last {
          assert p in init;
        }
      }
      forall k | k in Table(passes) ensures exists p :: p in passes && p.key == k {
        if k == last.key {
          assert last in passes;
        } else {
          var p :| p in init && p.key == k;
          assert p in passes;
        }
      }
    }
  }

  /** A table is determined by its entries. */
  lemma TableIs(passes: seq<Pass>, table: map<string, string>)
    requires DistinctKeys(passes)
    requires forall p | p in passes :: p.key in table && p.Value() == table[p.key]
    requires forall k | k in table :: exists p :: p in passes && p.key == k
    ensures Table(passes) == table
  {
    TableEntries(passes);
  }

  /** The keys of the passes so far, spelled without braces and different from the next. */
  lemma TableKeys(passes: seq<Pass>, m: nat)
    requires Spelled(passes) && m < |passes|
    ensures BraceFree(passes[m].key) && passes[m].key !in Table(passes[..m])
    ensures forall k | k in Table(passes[..m]) :: BraceFree(k)
  {
    SpelledPrefix(passes, m);
    SpelledPrefix(passes, m + 1);
    TableEntries(passes[..m]);
    LastIsNew(passes[..m + 1]);
    assert passes[..m + 1][..m] == passes[..m] && passes[m] in passes;
    assert forall p | p in passes[..m] :: p in passes;
  }

  lemma PipelineStep(text: string, passes: seq<Pass>, m: nat)
    requires m < |passes|
    ensures Pipeline(text, passes[..m + 1]) == Sed(Pipeline(text, passes[..m]), passes[m])
    ensures Table(passes[..m + 1]) == Table(passes[..m])[passes[m].key := passes[m].Value()]
  {
    assert passes[..m + 1][..m] == passes[..m];
  }

  /** The pipeline computes the simultaneous substitution. */
  lemma {:induction false} PipelineIsSubstitute(text: string, passes: seq<Pass>)
    requires NotNested(text) && Spelled(passes) && Orderly(passes)
    ensures Pipeline(text, passes) == Substitute(text, Table(passes))
  {
    if passes == [] {
      NothingToSubstitute(text);
    } else {
      var m := |passes| - 1;
      SpelledPrefix(passes, m);
      OrderlyPrefix(passes, m);
      TableKeys(passes, m);
      assert OrderlyAt(passes, m);
      hide Substitute, ReplaceAll, Harmless, Orderly, Spelled, BraceFree, Interpret;
      PipelineIsSubstitute(text, passes[..m]);
      PassAgreesIff(Table(passes[..m]), passes[m].key, passes[m].Value());
    }
  }

  lemma {:induction false} NothingToSubstitute(text: string)
    ensures Substitute(text, map[]) == text
  {
    if text != "" {
      NothingToSubstitute(text[1..]);
    }
  }

  ghost predicate Agrees(passes: seq<Pass>, table: map<string, string>) {
    forall t | NotNested(t) :: Pipeline(t, passes) == Substitute(t, table)
  }

  ghost predicate AgreesAtAllStages(passes: seq<Pass>) {
    forall m | 0 <= m <= |passes| :: Agrees(passes[..m], Table(passes[..m]))
  }

  /** Exactly when the text between any two of the sed commands is the simultaneous substitution of
      what has been put in so far, for every template. */
  lemma StagesExact(passes: seq<Pass>)
    requires Spelled(passes)
    ensures AgreesAtAllStages(passes) <==> Orderly(passes)
  {
    hide Substitute, ReplaceAll, Harmless, NotNested, SedAccepts, OrderlyAt, Agrees;
    if Orderly(passes) {
      forall m | 0 <= m <= |passes| ensures Agrees(passes[..m], Table(passes[..m])) {
        SpelledPrefix(passes, m);
        OrderlyPrefix(passes, m);
        OrderlyAgrees(passes[..m]);
      }
    }
    if AgreesAtAllStages(passes) {
      forall m | 0 <= m < |passes| ensures OrderlyAt(passes, m) {
        assert Agrees(passes[..m], Table(passes[..m])) && Agrees(passes[..m + 1], Table(passes[..m + 1]));
        StageOrderly(passes, m);
      }
    }
  }

  lemma OrderlyAgrees(passes: seq<Pass>)
    requires Spelled(passes) && Orderly(passes)
    ensures Agrees(passes, Table(passes))
  {
    hide Substitute, Orderly, Spelled, Pipeline;
    forall t | NotNested(t) ensures Pipeline(t, passes) == Substitute(t, Table(passes)) {
      PipelineIsSubstitute(t, passes);
    }
  }

  lemma StageOrderly(passes: seq<Pass>, m: nat)
    requires Spelled(passes) && m < |passes|
    requires Agrees(passes[..m], Table(passes[..m])) && Agrees(passes[..m + 1], Table(passes[..m + 1]))
    ensures OrderlyAt(passes, m)
  {
    var table, p := Table(passes[..m]), passes[m];
    TableKeys(passes, m);
    PlainX(Table(passes[..m + 1]));
    PipelineStep("x", passes, m);
    hide Substitute, ReplaceAll, Harmless, NotNested, Spelled, SedAccepts, BraceFree, Interpret;
    forall t | NotNested(t)
      ensures ReplaceAll(Substitute(t, table), p.key, p.Value()) == Substitute(t, table[p.key := p.Value()])
    {
      PipelineStep(t, passes, m);
    }
    PassAgreesIff(table, p.key, p.Value());
  }

  lemma PlainX(table: map<string, string>)
    ensures NotNested("x") && Substitute("x", table) == "x"
  {
    NoOpenNotNested("x");
    CopiesAll("x", table);
  }

  /** The order of the sed commands does not matter. */
  lemma OrderIndependent(text: string, passes: seq<Pass>, other: seq<Pass>)
    requires NotNested(text) && Spelled(passes) && Orderly(passes) && Spelled(other) && Orderly(other)
    requires forall p :: p in passes <==> p in other
    ensures Pipeline(text, passes) == Pipeline(text, other)
  {
    hide Substitute, NotNested, Orderly;
    PipelineIsSubstitute(text, passes);
    PipelineIsSubstitute(text, other);
    TableEntries(passes);
    TableEntries(other);
    assert Table(passes) == Table(other);
  }

  /* ---------- exactly which values are rendered ---------- */

  /** The passes have these keys, one pass each. */
  ghost predicate Fills(passes: seq<Pass>, keys: set<string>) {
    && Spelled(passes)
    && (forall p | p in passes :: p.key in keys)
    && (forall k | k in keys :: exists p :: p in passes && p.key == k)
  }

  lemma FillsOne(p: Pass)
    requires BraceFree(p.key)
    ensures Fills([p], {p.key})
  {
    assert p in [p];
  }

  lemma FillsConcat(a: seq<Pass>, b: seq<Pass>, keysA: set<string>, keysB: set<string>)
    requires Fills(a, keysA) && Fills(b, keysB) && keysA !! keysB
    ensures Fills(a + b, keysA + keysB)
  {
    var all := a + b;
    forall i, j | 0 <= i < j < |all| ensures all[i].key != all[j].key {
      if i < |a| <= j {
        assert a[i] in a && b[j - |a|] in b;
      }
    }
    forall k | k in keysA + keysB ensures exists q :: q in all && q.key == k {
      if k in keysA {
        var q :| q in a && q.key == k;
        assert q in all;
      } else {
        var q :| q in b && q.key == k;
        assert q in all;
      }
    }
  }

  lemma FillsThree(p: Pass, q: Pass, r: Pass)
    requires BraceFree(p.key) && BraceFree(q.key) && BraceFree(r.key)
    requires p.key != q.key && p.key != r.key && q.key != r.key
    ensures Fills([p, q, r], {p.key, q.key, r.key})
  {
    hide Fills, BraceFree;
    FillsOne(p);
    FillsOne(q);
    FillsOne(r);
    FillsConcat([p], [q], {p.key}, {q.key});
    FillsConcat([p] + [q], [r], {p.key} + {q.key}, {r.key});
    assert [p] + [q] + [r] == [p, q, r];
    assert {p.key} + {q.key} + {r.key} == {p.key, q.key, r.key};
  }

  /** The pass puts in what the table says. */
  predicate Means(p: Pass, table: map<string, string>) {
    SedAccepts(p.raw) && p.key in table && p.Value() == table[p.key]
  }

  predicate AllMean(passes: seq<Pass>, table: map<string, string>) {
    forall p | p in passes :: Means(p, table)
  }

  lemma AllMeanConcat(a: seq<Pass>, b: seq<Pass>, table: map<string, string>)
    ensures AllMean(a + b, table) <==> AllMean(a, table) && AllMean(b, table)
  {
    hide Means;
    assert (forall p | p in a :: p in a + b) && forall p | p in b :: p in a + b;
  }

  lemma AllMeanOne(p: Pass, table: map<string, string>)
    ensures AllMean([p], table) <==> Means(p, table)
  {
    hide Means;
    assert p in [p];
  }

  lemma AllMeanThree(p: Pass, q: Pass, r: Pass, table: map<string, string>)
    ensures AllMean([p, q, r], table) <==> Means(p, table) && Means(q, table) && Means(r, table)
  {
    hide Means;
    var ps := [p, q, r];
    assert ps[0] in ps && ps[1] in ps && ps[2] in ps;
  }

  /** An interpreted value can bring in its own placeholder, and no other. */
  lemma {:induction false} InterpretSafe(raw: string, key: string, other: string)
    requires '{' !in raw && BraceFree(key) && BraceFree(other) && key != other
    ensures Safe(Interpret(raw, Hole(key)), other)
  {
    hide Safe;
    NoOpenSafe("", other);
    if raw != "" {
      assert forall i | 0 <= i <= |raw| :: forall c | c in raw[i..] :: c in raw;
      if raw[0] == '\\' && |raw| > 1 {
        InterpretSafe(raw[2..], key, other);
        assert raw[1] in raw;
        NoOpenSafe([raw[1]], other);
        SafeConcat([raw[1]], Interpret(raw[2..], Hole(key)), other);
      } else {
        InterpretSafe(raw[1..], key, other);
        assert raw[0] in raw;
        NoOpenSafe([raw[0]], other);
        HoleSafe(key, other);
        SafeConcat([raw[0]], Interpret(raw[1..], Hole(key)), other);
        SafeConcat(Hole(key), Interpret(raw[1..], Hole(key)), other);
      }
    }
  }

  lemma AcceptedIsOrderly(passes: seq<Pass>)
    requires Spelled(passes) && forall p | p in passes :: SedAccepts(p.raw) && '{' !in p.raw
    ensures Orderly(passes)
  {
    hide Safe, Interpret, SedAccepts;
    forall m | 0 <= m < |passes| ensures OrderlyAt(passes, m) {
      var table, key := Table(passes[..m]), passes[m].key;
      TableKeys(passes, m);
      SpelledPrefix(passes, m);
      TableEntries(passes[..m]);
      assert passes[m] in passes;
      forall k | k in table ensures Safe(table[k], key) {
        var p :| p in passes[..m] && p.key == k;
        assert p in passes;
        InterpretSafe(p.raw, k, key);
      }
    }
  }

  /** One sed that stops leaves nothing of the text. */
  lemma {:induction false} RefusedEmpties(text: string, passes: seq<Pass>)
    requires exists p :: p in passes && !SedAccepts(p.raw)
    ensures Pipeline(text, passes) == ""
  {
    var init, last := passes[..|passes| - 1], passes[|passes| - 1];
    if SedAccepts(last.raw) {
      var p :| p in passes && !SedAccepts(p.raw);
      assert p in init;
      RefusedEmpties(text, init);
    }
  }

  /** Every template comes out with the wanted values in place of its placeholders, if and only if
      sed accepts each value and reads it as what is wanted. */
  lemma AgreesIff(passes: seq<Pass>, table: map<string, string>)
    requires Fills(passes, table.Keys) && forall p | p in passes :: '{' !in p.raw
    ensures Agrees(passes, table) <==> AllMean(passes, table)
  {
    hide Substitute, NotNested, SedAccepts, Orderly, Pipeline, Interpret;
    if exists p :: p in passes && !SedAccepts(p.raw) {
      RefusedEmpties("x", passes);
      PlainX(table);
    } else {
      AcceptedIsOrderly(passes);
      OrderlyAgrees(passes);
      TableEntries(passes);
      if AllMean(passes, table) {
        TableIs(passes, table);
      }
      if Agrees(passes, table) {
        forall p | p in passes ensures Means(p, table) {
          ShowsValue(p.key, Table(passes));
          ShowsValue(p.key, table);
        }
      }
    }
  }

  lemma ShowsValue(key: string, table: map<string, string>)
    requires BraceFree(key) && key in table
    ensures NotNested(Hole(key)) && Substitute(Hole(key), table) == table[key]
  {
    assert Hole(key) + "" == Hole(key) && Substitute("", table) == "" && table[key] + "" == table[key];
    HoleNotNested(key, "");
    CopiesHole(key, "", table);
  }

  /** A value that brings in a placeholder of a later pass is rewritten by that pass, so braces
      in a value do break the equality. */
  lemma BracesInValue()
    ensures var passes := [Pass("A", "{B}"), Pass("B", "x")];
            Pipeline("{A}", passes) == "x" && Substitute("{A}", Table(passes)) == "{B}"
  {
    var passes := [Pass("A", "{B}"), Pass("B", "x")];
    var init := passes[..1];
    assert init == [Pass("A", "{B}")] && init[..0] == [];
    assert Interpret("{B}", "{A}") == "{B}" by {
      assert "{B}"[1..] == "B}" && "B}"[1..] == "}" && "}"[1..] == "";
    }
    assert Interpret("x", "{B}") == "x";
    assert Hole("A") == "{A}" && Hole("B") == "{B}";
    assert Pipeline("{A}", init) == ReplaceAll("{A}", "A", "{B}") == "{B}";
    assert Pipeline("{A}", passes) == ReplaceAll("{B}", "B", "x") == "x";
    assert Table(init) == map["A" := "{B}"];
    assert Table(passes) == map["A" := "{B}", "B" := "x"];
    assert "{A}" == Hole("A") + "";
    CopiesHole("A", "", Table(passes));
  }

  /* ---------- replacement text ---------- */

  /** sed 's/\//\\\//g' */
  function EscapeSlashes(path: string): string {
    if path == "" then ""
    else (if path[0] == '/' then "\\/" else [path[0]]) + EscapeSlashes(path[1..])
  }

  /** A value that sed takes literally wherever it stands. */
  predicate Literal(value: string) {
    '\\' !in value && '&' !in value
  }

  function Backslashes(m: nat): string {
    if m == 0 then "" else ['\\'] + Backslashes(m - 1)
  }

  /** A backslash more in front, one less behind. */
  lemma ShiftBackslash(m: nat, c: char, rest: string)
    ensures var longer := Backslashes(m) + (['\\', c] + rest);
            longer[0] == '\\' && (c == '\\' ==> longer[1..] == Backslashes(m + 1) + rest)
  {
    BackslashesEnd(m);
    var longer := Backslashes(m) + (['\\', c] + rest);
    assert longer == (Backslashes(m) + ['\\']) + ([c] + rest);
    assert longer == (['\\'] + Backslashes(m)) + ([c] + rest);
    assert longer[1..] == Backslashes(m) + ([c] + rest);
    assert c == '\\' ==> longer[1..] == (Backslashes(m) + ['\\']) + rest;
  }

  /** A replacement never comes out as itself with more backslashes in front. */
  lemma {:induction false} NoMoreBackslashes(raw: string, m: nat, key: string)
    requires SedAccepts(raw) && (m > 0 || (raw != "" && raw[0] in {'\\', '&'}))
    ensures Interpret(raw, Hole(key)) != Backslashes(m) + raw
    decreases |raw|
  {
    var longer := Backslashes(m) + raw;
    if raw == "" {
    } else if raw[0] == '\\' {
      var rest := raw[2..];
      NoMoreBackslashes(rest, m + 1, key);
      var out := Interpret(raw, Hole(key));
      assert out[0] == raw[1] && out[1..] == Interpret(rest, Hole(key));
      assert raw == ['\\', raw[1]] + rest;
      ShiftBackslash(m, raw[1], rest);
    } else if raw[0] == '&' {
      assert (Hole(key) + Interpret(raw[1..], Hole(key)))[0] == '{';
    }
  }

  lemma {:induction false} BackslashesEnd(m: nat)
    ensures Backslashes(m + 1) == Backslashes(m) + ['\\'] == ['\\'] + Backslashes(m)
  {
    if m > 0 {
      BackslashesEnd(m - 1);
    }
  }

  lemma {:induction false} LiteralOnly(raw: string, key: string)
    requires SedAccepts(raw)
    ensures Interpret(raw, Hole(key)) == raw ==> Literal(raw)
  {
    if raw != "" {
      if raw[0] in {'\\', '&'} {
        assert Backslashes(0) + raw == raw;
        NoMoreBackslashes(raw, 0, key);
      } else {
        LiteralOnly(raw[1..], key);
        assert Interpret(raw, Hole(key))[1..] == Interpret(raw[1..], Hole(key));
        assert raw == [raw[0]] + raw[1..];
      }
    }
  }

  /** sed takes these literally and does not stop at them. */
  predicate PlainValue(raw: string) {
    Literal(raw) && '/' !in raw && '\n' !in raw
  }

  lemma {:induction false} PlainMeansItself(raw: string, key: string)
    requires Literal(raw)
    ensures Interpret(raw, Hole(key)) == raw
    ensures SedAccepts(raw) <==> '/' !in raw && '\n' !in raw
  {
    if raw != "" {
      assert raw[0] in raw && raw == [raw[0]] + raw[1..] && forall c | c in raw[1..] :: c in raw;
      PlainMeansItself(raw[1..], key);
    }
  }

  /** A value inserted as it is comes out as itself if and only if it has no slash, backslash,
      ampersand or newline. */
  lemma PlainValueIff(raw: string, key: string)
    ensures SedAccepts(raw) && Interpret(raw, Hole(key)) == raw <==> PlainValue(raw)
  {
    if SedAccepts(raw) {
      LiteralOnly(raw, key);
    }
    if Literal(raw) {
      PlainMeansItself(raw, key);
    }
  }

  predicate PlainPath(path: string) {
    Literal(path) && '\n' !in path
  }

  lemma {:induction false} EscapedMeansItself(path: string, key: string)
    requires Literal(path)
    ensures Interpret(EscapeSlashes(path), Hole(key)) == path
    ensures SedAccepts(EscapeSlashes(path)) <==> '\n' !in path
  {
    if path != "" {
      var rest := EscapeSlashes(path[1..]);
      assert path[0] in path && path == [path[0]] + path[1..] && forall c | c in path[1..] :: c in path;
      EscapedMeansItself(path[1..], key);
      if path[0] == '/' {
        assert ("\\/" + rest)[2..] == rest;
      } else {
        assert ([path[0]] + rest)[1..] == rest;
      }
    }
  }

  lemma EscapedLone(path: string)
    requires path == "\\" || (|path| > 1 && path[0] == '\\' && path[1] == '/')
    ensures !SedAccepts(EscapeSlashes(path))
  {
    var raw := EscapeSlashes(path);
    assert raw == ['\\'] + EscapeSlashes(path[1..]);
    if |path| > 1 {
      assert path[1..][0] == '/';
      var rest := EscapeSlashes(path[1..][1..]);
      assert raw == ['\\'] + ("\\/" + rest);
      assert raw[2..] == ['/'] + rest;
    }
  }

  lemma EscapedPair(path: string)
    requires |path| > 1 && path[0] == '\\' && path[1] != '/'
    ensures EscapeSlashes(path) == ['\\', path[1]] + EscapeSlashes(path[2..])
    ensures EscapeSlashes(path)[2..] == EscapeSlashes(path[2..])
    ensures SedAccepts(EscapeSlashes(path)) <==> SedAccepts(EscapeSlashes(path[2..]))
  {
    var rest := EscapeSlashes(path[2..]);
    assert path[1..][1..] == path[2..];
    assert EscapeSlashes(path[1..]) == [path[1]] + rest;
    assert EscapeSlashes(path) == ['\\'] + ([path[1]] + rest);
  }

  lemma EscapedOther(path: string)
    requires path != "" && path[0] != '\\'
    ensures var rest, raw := EscapeSlashes(path[1..]), EscapeSlashes(path);
            && (path[0] == '/' ==> raw == "\\/" + rest && raw[2..] == rest)
            && (path[0] != '/' ==> raw == [path[0]] + rest && raw[1..] == rest)
            && (SedAccepts(raw) ==> SedAccepts(rest))
  {
  }

  /** As NoMoreBackslashes, with the slashes escaped. */
  lemma {:induction false} NoMoreEscaped(path: string, m: nat, key: string)
    requires SedAccepts(EscapeSlashes(path)) && (m > 0 || (path != "" && path[0] in {'\\', '&'}))
    ensures Interpret(EscapeSlashes(path), Hole(key)) != Backslashes(m) + path
    decreases |path|
  {
    var longer, raw := Backslashes(m) + path, EscapeSlashes(path);
    if path == "" {
    } else if path[0] == '\\' {
      if |path| == 1 || path[1] == '/' {
        EscapedLone(path);
      } else {
        hide SedAccepts, EscapeSlashes;
        EscapedPair(path);
        var rest := path[2..];
        NoMoreEscaped(rest, m + 1, key);
        var out := Interpret(raw, Hole(key));
        assert out[0] == path[1] && out[1..] == Interpret(EscapeSlashes(rest), Hole(key));
        assert path == ['\\', path[1]] + rest;
        ShiftBackslash(m, path[1], rest);
      }
    } else {
      EscapedOther(path);
      assert longer[0] == if m > 0 then '\\' else path[0];
      if path[0] == '/' {
        assert raw[0] == '\\' && raw[1] == '/';
        assert Interpret(raw, Hole(key))[0] == '/';
      } else if path[0] == '&' {
        assert (Hole(key) + Interpret(raw[1..], Hole(key)))[0] == '{';
      } else {
        assert raw[0] == path[0] && Interpret(raw, Hole(key))[0] == path[0];
      }
    }
  }

  lemma {:induction false} EscapedLiteralOnly(path: string, key: string)
    requires SedAccepts(EscapeSlashes(path))
    ensures Interpret(EscapeSlashes(path), Hole(key)) == path ==> Literal(path)
  {
    if path != "" {
      if path[0] in {'\\', '&'} {
        assert Backslashes(0) + path == path;
        NoMoreEscaped(path, 0, key);
      } else {
        EscapedOther(path);
        EscapedLiteralOnly(path[1..], key);
        var raw := EscapeSlashes(path);
        assert Interpret(raw, Hole(key))[1..] == Interpret(EscapeSlashes(path[1..]), Hole(key));
        assert path == [path[0]] + path[1..];
      }
    }
  }

  /** Escaping the slashes of a path is exactly undone by its use as a replacement, if and only if
      it has no backslash, ampersand or newline. */
  lemma EscapeUndoneIff(path: string, key: string)
    ensures SedAccepts(EscapeSlashes(path)) && Interpret(EscapeSlashes(path), Hole(key)) == path <==> PlainPath(path)
  {
    if SedAccepts(EscapeSlashes(path)) {
      EscapedLiteralOnly(path, key);
    }
    if Literal(path) {
      EscapedMeansItself(path, key);
    }
  }
}
