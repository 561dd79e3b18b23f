/** read_cfg and write_cfg of common.sh on the lines of an INI file: the awk scan whose section
    flag is never reset, and the sed edit of a section's line range. Section names, keys and
    values stand for themselves in the patterns. */
module Ini {
  import opened Text

  /* ---------- lines ---------- */

  function Header(section: string): string {
    "[" + section + "]"
  }

  /** awk's section test is not anchored: the header may stand anywhere in the line. */
  predicate Mentions(line: string, section: string) {
    Contains(line, Header(section))
  }

  /** sed's section test is. */
  predicate Opens(line: string, section: string) {
    Header(section) <= line
  }

  predicate Bracketed(line: string) {
    line != "" && line[0] == '['
  }

  /** awk -F =: what precedes the first '=', and what lies between the first and the second. */
  function Name(line: string): string {
    line[..Find(line, '=')]
  }

  function Value(line: string): string {
    var n := Find(line, '=');
    if n == |line| then ""
    else
      var rest := line[n + 1..];
      rest[..Find(rest, '=')]
  }

  /** awk's key test: the name only has to contain the key. */
  predicate Shows(line: string, key: string) {
    Contains(Name(line), key)
  }

  function DropQuotes(s: string): string {
    if s == "" then "" else (if s[0] == '"' then "" else [s[0]]) + DropQuotes(s[1..])
  }

  /** echo $RETVAL | tr -d '"' */
  function Printed(raw: string): string {
    DropQuotes(Echo(raw))
  }

  /* ---------- read_cfg ---------- */

  /** Index of the first line from `from` on that mentions the section, or the length. */
  function FindMention(lines: seq<string>, section: string, from: nat): (h: nat)
    requires from <= |lines|
    ensures from <= h <= |lines|
    ensures h < |lines| ==> Mentions(lines[h], section)
    ensures forall i | from <= i < h :: !Mentions(lines[i], section)
    decreases |lines| - from
  {
    if from == |lines| || Mentions(lines[from], section) then from
    else FindMention(lines, section, from + 1)
  }

  function FindKey(lines: seq<string>, key: string, from: nat): (j: nat)
    requires from <= |lines|
    ensures from <= j <= |lines|
    ensures j < |lines| ==> Shows(lines[j], key)
    ensures forall i | from <= i < j :: !Shows(lines[i], key)
    decreases |lines| - from
  {
    if from == |lines| || Shows(lines[from], key) then from
    else FindKey(lines, key, from + 1)
  }

  /** The line read_cfg takes the value from: the first line, from the first mention of the
      section to the end of the file, whose name contains the key. */
  function Source(lines: seq<string>, section: string, key: string): (j: nat)
    ensures j <= |lines|
  {
    FindKey(lines, key, FindMention(lines, section, 0))
  }

  function Read(lines: seq<string>, section: string, key: string): string {
    var j := Source(lines, section, key);
    if j < |lines| then Printed(Value(lines[j])) else ""
  }

  /** The first index with a property is the one a search returns. */
  lemma SourceIs(lines: seq<string>, section: string, key: string, h: nat, j: nat)
    requires h <= j <= |lines|
    requires h < |lines| ==> Mentions(lines[h], section)
    requires forall i | 0 <= i < h :: !Mentions(lines[i], section)
    requires j < |lines| ==> Shows(lines[j], key)
    requires forall i | h <= i < j :: !Shows(lines[i], key)
    ensures Source(lines, section, key) == j
  {
  }

  method ReadCfg(lines: seq<string>, section: string, key: string) returns (v: string)
    ensures v == Read(lines, section, key)
  {
    hide Mentions, Shows, Printed, Value, FindMention, FindKey;
    var a := false;
    for i := 0 to |lines|
      invariant if a then FindMention(lines, section, 0) < i
                          && forall k | FindMention(lines, section, 0) <= k < i :: !Shows(lines[k], key)
                else FindMention(lines, section, 0) >= i
    {
      if Mentions(lines[i], section) {
        a := true;
      }
      if a && Shows(lines[i], key) {
        SourceIs(lines, section, key, FindMention(lines, section, 0), i);
        return Printed(Value(lines[i]));
      }
    }
    SourceIs(lines, section, key, FindMention(lines, section, 0), |lines|);
    return "";
  }

  /* ---------- write_cfg ---------- */

  /** c* followed by '='. */
  predicate StarThenEquals(s: string, c: char) {
    s != "" && (s[0] == '=' || (s[0] == c && StarThenEquals(s[1..], c)))
  }

  /** ^KEY*=: the star applies to the last character of the key. */
  predicate Matches(line: string, key: string)
    requires key != ""
  {
    var n := |key| - 1;
    key[..n] <= line && StarThenEquals(line[n..], key[n])
  }

  /** The sed range is open before line i. A line that ends one range cannot open the next. */
  predicate InRange(lines: seq<string>, section: string, i: nat)
    requires i <= |lines|
  {
    i > 0 &&
    if InRange(lines, section, i - 1) then !Bracketed(lines[i - 1]) else Opens(lines[i - 1], section)
  }

  /** Line i is rewritten. */
  predicate Hit(lines: seq<string>, section: string, key: string, i: nat)
    requires key != "" && i < |lines|
  {
    InRange(lines, section, i) && !Bracketed(lines[i]) && Matches(lines[i], key)
  }

  function Written(lines: seq<string>, section: string, key: string, value: string): (r: seq<string>)
    requires key != ""
    ensures |r| == |lines|
    ensures forall i | 0 <= i < |lines| ::
              r[i] == if Hit(lines, section, key, i) then key + "=" + value else lines[i]
  {
    seq(|lines|, i requires 0 <= i < |lines| =>
      if Hit(lines, section, key, i) then key + "=" + value else lines[i])
  }

  lemma OpensWithBracket(line: string, section: string)
    ensures Opens(line, section) ==> Bracketed(line)
  {
  }

  /** The edit in place, one line at a time. */
  method WriteCfg(lines: array<string>, section: string, key: string, value: string)
    requires key != ""
    modifies lines
    ensures lines[..] == Written(old(lines[..]), section, key, value)
  {
    hide Matches, Opens, Written, Bracketed;
    ghost var was := lines[..];
    ghost var written := Written(was, section, key, value);
    var active := false;
    for i := 0 to lines.Length
      invariant active == InRange(was, section, i)
      invariant forall k | 0 <= k < i :: lines[k] == written[k]
      invariant forall k | i <= k < lines.Length :: lines[k] == was[k]
    {
      var line := lines[i];
      assert line == was[i];
      OpensWithBracket(line, section);
      if !active {
        active := Opens(line, section);
      } else {
        if !Opens(line, section) && !Bracketed(line) && Matches(line, key) {
          lines[i] := key + "=" + value;
        }
        active := !Bracketed(line);
      }
    }
  }

  /* ---------- laws ---------- */

  predicate PlainKey(key: string) {
    key != "" && forall c | c in key :: c != '=' && c != '['
  }

  /** A value that neither sed, awk nor the shell takes for anything else, and echo for no option. */
  predicate PlainValue(v: string) {
    && (forall c | c in v :: !IsBlank(c) && c !in {'=', '[', '"', '/', '&', '\\', '*', '?', '\r'})
    && !IsEchoOption(v)
  }

  lemma {:induction false} DropNoQuotes(s: string)
    requires '"' !in s
    ensures DropQuotes(s) == s
  {
    if s != "" {
      assert s[0] in s;
      DropNoQuotes(s[1..]);
    }
  }

  lemma DropStep(c: char, rest: string)
    ensures DropQuotes([c] + rest) == (if c == '"' then "" else [c]) + DropQuotes(rest)
  {
    assert ([c] + rest)[1..] == rest;
  }

  lemma {:induction false} DropQuotesConcat(a: string, b: string)
    ensures DropQuotes(a + b) == DropQuotes(a) + DropQuotes(b)
  {
    if a == "" {
      assert a + b == b;
    } else {
      hide DropQuotes;
      var c, tail := a[0], a[1..];
      assert a == [c] + tail && a + b == [c] + (tail + b);
      DropQuotesConcat(tail, b);
      DropStep(c, tail);
      DropStep(c, tail + b);
    }
  }

  /** A value in double quotes is read without them, its words with one blank between. */
  lemma QuotedPrinted(list: seq<string>)
    requires AllWords(list) && forall w | w in list :: '"' !in w
    ensures Printed("\"" + Join(list) + "\"") == Join(list)
  {
    hide Words, DropQuotes;
    if list == [] {
      assert "\"" + "" + "\"" == "\"\"";
      EchoWord("\"\"");
      NoQuotesLeft("");
    } else {
      var q := WithBack(WithFront("\"", list), "\"");
      QuotedWords(list);
      WordsJoin(q);
      JoinFront("\"", list);
      JoinBack(WithFront("\"", list), "\"");
      assert DropOptions(q) == q;
      NoQuotesLeft(Join(list));
      NoQuoteJoined(list);
    }
  }

  lemma QuotedWords(list: seq<string>)
    requires AllWords(list) && list != []
    ensures var q := WithBack(WithFront("\"", list), "\""); AllWords(q) && q != [] && q[0] != "" && q[0][0] == '"'
  {
    var f := WithFront("\"", list);
    assert list[0] in list && AllWords(f) by {
      forall w | w in f ensures w != "" && BlankFree(w) {
        assert w == "\"" + list[0] || w in list;
        assert list[0] in list;
      }
    }
    assert f[|f| - 1] in f && forall w | w in f[..|f| - 1] :: w in f;
  }

  lemma NoQuotesLeft(t: string)
    ensures '"' !in t ==> DropQuotes("\"" + t + "\"") == t
  {
    hide DropQuotes;
    if '"' !in t {
      DropQuotesConcat("\"" + t, "\"");
      DropQuotesConcat("\"", t);
      DropNoQuotes(t);
      LoneQuote();
    }
  }

  lemma LoneQuote()
    ensures DropQuotes("\"") == ""
  {
    assert "\""[1..] == "";
  }

  lemma {:induction false} NoQuoteJoined(list: seq<string>)
    requires forall w | w in list :: '"' !in w
    ensures '"' !in Join(list)
  {
    if list != [] {
      assert list[0] in list && forall w | w in list[1..] :: w in list;
      NoQuoteJoined(list[1..]);
    }
  }

  /** The pattern stands before the first '=' of the line. */
  ghost predicate OccursInName(line: string, pattern: string) {
    exists i: nat :: StandsIn(line, i, pattern) && '=' !in line[..i + |pattern|]
  }

  lemma NameEnds(line: string, m: nat)
    requires m <= |line|
    ensures '=' !in line[..m] ==> m <= Find(line, '=')
  {
    if Find(line, '=') < m {
      assert line[..m][Find(line, '=')] == '=';
    }
  }

  lemma ShowsIff(line: string, key: string)
    ensures Shows(line, key) <==> OccursInName(line, key)
  {
    var n := Find(line, '=');
    var name := line[..n];
    ContainsIff(name, key);
    if Occurs(name, key) {
      var i: nat :| StandsIn(name, i, key);
      assert line[i..i + |key|] == name[i..i + |key|];
      assert line[..i + |key|] == name[..i + |key|];
      assert StandsIn(line, i, key);
    }
    if OccursInName(line, key) {
      var i: nat :| StandsIn(line, i, key) && '=' !in line[..i + |key|];
      NameEnds(line, i + |key|);
      assert name[i..i + |key|] == line[i..i + |key|];
      assert StandsIn(name, i, key);
    }
  }

  lemma ValueIs(name: string, raw: string, rest: string)
    requires '=' !in name && '=' !in raw && (rest == "" || rest[0] == '=')
    ensures Value(name + "=" + raw + rest) == raw
  {
    var line := name + "=" + raw + rest;
    var tail := "=" + raw + rest;
    assert line == name + tail;
    FindOf(name, '=', tail);
    assert line[|name| + 1..] == raw + rest;
    FindOf(raw, '=', rest);
  }

  /** read_cfg, in full: from the first line that has the section in brackets anywhere, the first line
      with the key anywhere before its first '='; of that, what stands between the first '=' and the
      second, as echo prints it, without double quotes. */
  lemma ReadIs(lines: seq<string>, section: string, key: string, h: nat, j: nat,
               name: string, raw: string, rest: string)
    requires h <= j < |lines|
    requires Occurs(lines[h], "[" + section + "]") && forall i | 0 <= i < h :: !Occurs(lines[i], "[" + section + "]")
    requires OccursInName(lines[j], key) && forall i | h <= i < j :: !OccursInName(lines[i], key)
    requires lines[j] == name + "=" + raw + rest && '=' !in name && '=' !in raw && (rest == "" || rest[0] == '=')
    ensures Read(lines, section, key) == DropQuotes(Echo(raw))
  {
    hide Contains, Occurs, OccursInName, Name, Value, Find;
    forall i | 0 <= i <= h ensures Mentions(lines[i], section) <==> i == h {
      ContainsIff(lines[i], "[" + section + "]");
    }
    forall i | h <= i <= j ensures Shows(lines[i], key) <==> i == j {
      ShowsIff(lines[i], key);
    }
    SourceIs(lines, section, key, h, j);
    ValueIs(name, raw, rest);
  }

  /** Without such a line there is nothing to read. */
  lemma ReadNothing(lines: seq<string>, section: string, key: string, h: nat)
    requires h <= |lines| && forall i | 0 <= i < h :: !Occurs(lines[i], "[" + section + "]")
    requires h < |lines| ==> Occurs(lines[h], "[" + section + "]")
    requires forall i | h <= i < |lines| :: !OccursInName(lines[i], key)
    ensures Read(lines, section, key) == ""
  {
    hide Contains, Occurs, OccursInName, Name;
    forall i | 0 <= i <= h && i < |lines| ensures Mentions(lines[i], section) <==> i == h {
      ContainsIff(lines[i], "[" + section + "]");
    }
    forall i | h <= i < |lines| ensures !Shows(lines[i], key) {
      ShowsIff(lines[i], key);
    }
    SourceIs(lines, section, key, h, |lines|);
  }

  lemma PlainPrinted(v: string)
    requires PlainValue(v)
    ensures Printed(v) == v
  {
    EchoWord(v);
    DropNoQuotes(v);
  }

  /** What a reader sees in a line written by write_cfg. */
  lemma WrittenLine(key: string, v: string)
    requires PlainKey(key) && PlainValue(v)
    ensures var line := key + "=" + v; Name(line) == key && Value(line) == v && Printed(Value(line)) == v
    ensures forall section :: !Mentions(key + "=" + v, section)
  {
    var line := key + "=" + v;
    assert line == key + ("=" + v);
    FindOf(key, '=', "=" + v);
    assert line[|key| + 1..] == v;
    FindOf(v, '=', "");
    assert v + "" == v && v[..|v|] == v;
    PlainPrinted(v);
    forall section ensures !Mentions(line, section) {
      ContainsNeedsFirst(line, Header(section));
    }
  }

  /** The section exists for both tools: its first mention is a header at the start of a line. */
  predicate SectionFound(lines: seq<string>, section: string) {
    var h := FindMention(lines, section, 0);
    h < |lines| && Opens(lines[h], section)
  }

  lemma {:induction false} ClosedBefore(lines: seq<string>, section: string, i: nat)
    requires i <= FindMention(lines, section, 0)
    ensures !InRange(lines, section, i)
  {
    if i > 0 {
      ClosedBefore(lines, section, i - 1);
      assert !Mentions(lines[i - 1], section);
    }
  }

  /** The first line that decides what a reader gets after a write: one that shows the key
      already, or one that the write turns into the key's line. */
  ghost predicate Decides(lines: seq<string>, section: string, key: string, j: nat)
    requires key != "" && j <= |lines|
  {
    var h := FindMention(lines, section, 0);
    && h <= j
    && (j < |lines| ==> Shows(lines[j], key) || Hit(lines, section, key, j))
    && forall i | h <= i < j :: !Shows(lines[i], key) && !Hit(lines, section, key, i)
  }

  lemma {:induction false} DecidingLine(lines: seq<string>, section: string, key: string, from: nat)
      returns (j: nat)
    requires key != "" && FindMention(lines, section, 0) <= from <= |lines|
    requires forall i | FindMention(lines, section, 0) <= i < from ::
               !Shows(lines[i], key) && !Hit(lines, section, key, i)
    ensures j <= |lines| && Decides(lines, section, key, j)
    decreases |lines| - from
  {
    if from == |lines| || Shows(lines[from], key) || Hit(lines, section, key, from) {
      j := from;
    } else {
      j := DecidingLine(lines, section, key, from + 1);
    }
  }

  /** Put, then get, exactly: the value written comes back if the deciding line is one that was
      rewritten, and otherwise the reader sees what it saw before. */
  lemma PutGet(lines: seq<string>, section: string, key: string, v: string, j: nat)
    requires PlainKey(key) && PlainValue(v) && SectionFound(lines, section)
    requires j <= |lines| && Decides(lines, section, key, j)
    ensures Read(Written(lines, section, key, v), section, key) ==
            if j < |lines| && Hit(lines, section, key, j) then v else Read(lines, section, key)
  {
    var w := Written(lines, section, key, v);
    var h := FindMention(lines, section, 0);
    WrittenLine(key, v);
    ClosedBefore(lines, section, h);
    forall i | 0 <= i <= h ensures w[i] == lines[i] {
      ClosedBefore(lines, section, i);
    }
    if j < |lines| && Hit(lines, section, key, j) {
      assert Contains(key, key);
      SourceIs(w, section, key, h, j);
    } else {
      SourceIs(w, section, key, h, j);
      SourceIs(lines, section, key, h, j);
    }
  }

  /** So a write can be read back, whatever plain value is written, exactly when the first line
      that shows the key or is rewritten is a rewritten one. */
  lemma PutGetIff(lines: seq<string>, section: string, key: string, j: nat)
    requires PlainKey(key) && SectionFound(lines, section)
    requires j <= |lines| && Decides(lines, section, key, j)
    ensures (forall v | PlainValue(v) :: Read(Written(lines, section, key, v), section, key) == v)
            <==> j < |lines| && Hit(lines, section, key, j)
  {
    forall v | PlainValue(v)
      ensures Read(Written(lines, section, key, v), section, key) ==
              if j < |lines| && Hit(lines, section, key, j) then v else Read(lines, section, key)
    {
      PutGet(lines, section, key, v, j);
    }
    assert PlainValue("a") && PlainValue("b");
  }

  lemma {:induction false} RangeContinues(lines: seq<string>, section: string, h: nat, i: nat)
    requires h < i <= |lines| && Opens(lines[h], section) && !InRange(lines, section, h)
    requires forall k | h < k < i :: !Bracketed(lines[k])
    ensures InRange(lines, section, i)
  {
    if i > h + 1 {
      RangeContinues(lines, section, h, i - 1);
    }
  }

  lemma {:induction false} RangeBegins(lines: seq<string>, section: string, i: nat) returns (h: nat)
    requires i <= |lines| && InRange(lines, section, i)
    ensures h < i && Opens(lines[h], section) && forall k | h < k < i :: !Bracketed(lines[k])
  {
    if InRange(lines, section, i - 1) {
      h := RangeBegins(lines, section, i - 1);
    } else {
      h := i - 1;
    }
  }

  lemma HitBegins(lines: seq<string>, section: string, key: string, i: nat) returns (h: nat)
    requires key != "" && i < |lines| && Hit(lines, section, key, i)
    ensures Matches(lines[i], key) && h < i && "[" + section + "]" <= lines[h]
    ensures forall k | h < k <= i :: lines[k] == "" || lines[k][0] != '['
  {
    hide Matches;
    h := RangeBegins(lines, section, i);
  }

  /** write_cfg, in full: a line that changes becomes KEY=VALUE, and it is one that follows the section's
      header, at the start of a line, with no line between or itself that begins with a bracket, and
      that sets the key. */
  lemma RewrittenOnly(lines: seq<string>, section: string, key: string, value: string, i: nat)
    requires PlainKey(key) && i < |lines| && Written(lines, section, key, value)[i] != lines[i]
    ensures Written(lines, section, key, value)[i] == key + "=" + value && Matches(lines[i], key)
    ensures exists h :: 0 <= h < i && "[" + section + "]" <= lines[h]
                        && forall k | h < k <= i :: lines[k] == "" || lines[k][0] != '['
  {
    hide Matches, InRange, Hit;
    assert Hit(lines, section, key, i);
    var h := HitBegins(lines, section, key, i);
    assert "[" + section + "]" <= lines[h];
  }

  /** And every such line behind the first header becomes that. */
  lemma RewrittenAll(lines: seq<string>, section: string, key: string, value: string, h: nat, i: nat)
    requires PlainKey(key) && h < i < |lines| && Matches(lines[i], key)
    requires "[" + section + "]" <= lines[h] && forall k | 0 <= k < h :: !("[" + section + "]" <= lines[k])
    requires forall k | h < k <= i :: lines[k] == "" || lines[k][0] != '['
    ensures Written(lines, section, key, value)[i] == key + "=" + value
  {
    NotYetOpen(lines, section, h);
    RangeContinues(lines, section, h, i);
  }

  lemma {:induction false} NotYetOpen(lines: seq<string>, section: string, i: nat)
    requires i <= |lines| && forall k | 0 <= k < i :: !("[" + section + "]" <= lines[k])
    ensures !InRange(lines, section, i)
  {
    if i > 0 {
      NotYetOpen(lines, section, i - 1);
    }
  }

  /** The everyday case: the section begins with its header, the key's own line stands in it before
      any other header, and no line in between shows the key. Then what is written is read. */
  lemma PutGetInSection(lines: seq<string>, section: string, key: string, v: string, j: nat)
    requires PlainKey(key) && PlainValue(v) && SectionFound(lines, section)
    requires FindMention(lines, section, 0) < j < |lines|
    requires Matches(lines[j], key) && forall k | FindMention(lines, section, 0) < k <= j :: !Bracketed(lines[k])
    requires forall k | FindMention(lines, section, 0) <= k < j :: !Shows(lines[k], key)
    ensures Read(Written(lines, section, key, v), section, key) == v
  {
    var h := FindMention(lines, section, 0);
    ClosedBefore(lines, section, h);
    RangeContinues(lines, section, h, j);
    assert Hit(lines, section, key, j);
    var d := DecidingLine(lines, section, key, h);
    assert d <= j && Hit(lines, section, key, d);
    PutGet(lines, section, key, v, d);
  }

  /** A write leaves another read alone if it rewrites neither the line where that read finds its
      section nor the line it takes its value from, and in between only lines that afterwards do not
      show its key. The key may be the same one in another section. */
  lemma OtherReadsUnchanged(lines: seq<string>, section: string, key: string, v: string,
                            section2: string, key2: string)
    requires PlainKey(key) && PlainValue(v)
    requires var h, j := FindMention(lines, section2, 0), Source(lines, section2, key2);
             && (h < |lines| ==> !Hit(lines, section, key, h)) && (j < |lines| ==> !Hit(lines, section, key, j))
             && forall i | h < i < j && Hit(lines, section, key, i) :: !Contains(key, key2)
    ensures Read(Written(lines, section, key, v), section2, key2) == Read(lines, section2, key2)
  {
    var w := Written(lines, section, key, v);
    var h, j := FindMention(lines, section2, 0), Source(lines, section2, key2);
    WrittenLine(key, v);
    hide InRange, Matches, Contains, Find, Hit;
    forall i | h <= i < j ensures !Shows(w[i], key2) {
      if Hit(lines, section, key, i) {
        assert h < i;
      }
    }
    SourceIs(w, section2, key2, h, j);
  }

  lemma {:induction false} RangeClosed(lines: seq<string>, section: string, h: nat, i: nat)
    requires h < i <= |lines| && Bracketed(lines[h]) && !Opens(lines[h], section)
    requires forall k | h < k < i :: !Bracketed(lines[k])
    ensures !InRange(lines, section, i)
  {
    if i > h + 1 {
      RangeClosed(lines, section, h, i - 1);
      OpensWithBracket(lines[i - 1], section);
    }
  }

  lemma HeaderEnds(line: string, a: string)
    requires Opens(line, a) && ']' !in a
    ensures |line| > 0 && Find(line[1..], ']') == |a| && |a| + 1 <= |line| && line[1..|a| + 1] == a
  {
    var rest := line[|a| + 1..];
    assert line[..|a| + 2] == Header(a);
    assert Header(a)[1..|a| + 1] == a && line[..|a| + 2][1..|a| + 1] == line[1..|a| + 1];
    assert line[1..] == a + rest && rest[0] == line[..|a| + 2][|a| + 1];
    FindOf(a, ']', rest);
  }

  lemma HeadersDiffer(line: string, a: string, b: string)
    requires Opens(line, a) && Opens(line, b) && ']' !in a && ']' !in b
    ensures a == b
  {
    HeaderEnds(line, a);
    HeaderEnds(line, b);
  }

  /** The same key in two sections: writing it in one leaves it as it was in the other, whichever
      comes first in the file, when the other begins with its header and has the key before the next
      header. */
  lemma SameKeyElsewhere(lines: seq<string>, section: string, section2: string, key: string, v: string)
    requires PlainKey(key) && PlainValue(v) && section != section2 && ']' !in section && ']' !in section2
    requires SectionFound(lines, section2)
    requires forall k | FindMention(lines, section2, 0) < k <= Source(lines, section2, key) && k < |lines| ::
               !Bracketed(lines[k])
    ensures Read(Written(lines, section, key, v), section2, key) == Read(lines, section2, key)
  {
    var h, j := FindMention(lines, section2, 0), Source(lines, section2, key);
    OpensWithBracket(lines[h], section2);
    if Opens(lines[h], section) {
      HeadersDiffer(lines[h], section, section2);
    }
    forall i | h <= i <= j && i < |lines| ensures !Hit(lines, section, key, i) {
      if h < i {
        RangeClosed(lines, section, h, i);
      }
    }
    OtherReadsUnchanged(lines, section, key, v, section2, key);
  }

  /* ---------- where the laws fail ---------- */

  /** A write that is not read: a line above, whose name contains the key, is read instead. */
  lemma WrittenNotRead()
    ensures var lines := ["[a]", "xports=1", "ports=2"];
            Written(lines, "a", "ports", "9")[2] == "ports=9"
            && Read(Written(lines, "a", "ports", "9"), "a", "ports") == "1"
  {
    var lines := ["[a]", "xports=1", "ports=2"];
    var w := Written(lines, "a", "ports", "9");
    ThreeLines(lines, "ports");
    assert lines[1][0] == 'x' && "ports"[..4][0] == 'p';
    assert !Matches(lines[1], "ports");
    EqualsFollows("ports", "2");
    assert "ports" + "=" + "2" == "ports=2" && "ports" + "=" + "9" == "ports=9" && "x" + "ports=" + "1" == "xports=1";
    assert Hit(lines, "a", "ports", 2);
    hide Contains, Find, Matches, InRange, Read;
    assert w[0] == lines[0] && w[1] == lines[1];
    ReadsSecond(w, "x", "1");
  }

  /** A write to "ports" overwrites "port". */
  lemma ShorterKeyOverwritten()
    ensures Written(["[a]", "port=1", "ports=2"], "a", "ports", "9") == ["[a]", "ports=9", "ports=9"]
  {
    var lines := ["[a]", "port=1", "ports=2"];
    ThreeLines(lines, "ports");
    assert Hit(lines, "a", "ports", 1) by {
      assert "ports"[..4] == "port" && lines[1][..4] == "port" && lines[1][4..] == "=1";
    }
    assert Hit(lines, "a", "ports", 2) by { EqualsFollows("ports", "2"); }
    var w := Written(lines, "a", "ports", "9");
    assert "ports" + "=" + "9" == "ports=9";
    assert w[0] == lines[0] && w[1] == "ports=9" && w[2] == "ports=9";
    assert w == [w[0], w[1], w[2]];
  }

  lemma ThreeLines(lines: seq<string>, key: string)
    requires |lines| == 3 && lines[0] == "[a]" && !Bracketed(lines[1]) && !Bracketed(lines[2]) && key != ""
    ensures InRange(lines, "a", 1) && InRange(lines, "a", 2) && !Hit(lines, "a", key, 0)
  {
    assert Header("a") == "[a]";
    assert !InRange(lines, "a", 0);
  }

  lemma EqualsFollows(key: string, v: string)
    requires key != ""
    ensures Matches(key + "=" + v, key)
  {
    var line, n := key + "=" + v, |key| - 1;
    assert line[..n] == key[..n] && line[n..] == [key[n]] + ("=" + v);
    assert line[n..][1..] == "=" + v;
  }

  lemma ReadsSecond(w: seq<string>, front: string, v: string)
    requires |w| == 3 && w[0] == "[a]" && w[1] == front + "ports=" + v && PlainKey(front + "ports") && PlainValue(v)
    ensures Read(w, "a", "ports") == v
  {
    assert w[1] == (front + "ports") + "=" + v;
    WrittenLine(front + "ports", v);
    assert Contains("[a]", Header("a"));
    assert !Shows(w[0], "ports") by {
      assert 'p' !in w[0] && forall c | c in Name(w[0]) :: c in w[0];
      ContainsNeedsFirst(Name(w[0]), "ports");
    }
    ContainsAtEnd(front, "ports");
    SourceIs(w, "a", "ports", 0, 1);
  }

  lemma {:induction false} ContainsAtEnd(front: string, pattern: string)
    ensures Contains(front + pattern, pattern)
  {
    if front == "" {
      assert front + pattern == pattern;
    } else {
      ContainsAtEnd(front[1..], pattern);
      assert (front + pattern)[1..] == front[1..] + pattern;
    }
  }

  lemma {:induction false} StarExactly(s: string, c: char)
    requires c != '='
    ensures StarThenEquals(s, c) <==> Find(s, '=') < |s| && forall d | d in Name(s) :: d == c
  {
    if s != "" && s[0] != '=' {
      StarExactly(s[1..], c);
      assert Name(s) == [s[0]] + Name(s[1..]);
      assert s[0] in Name(s);
      assert forall d :: d in Name(s) <==> d == s[0] || d in Name(s[1..]);
    }
  }

  /** The keys one write touches: those that differ from the key only in how often its last
      character is repeated, zero times included. A key "port" is overwritten by a write to
      "ports". */
  lemma TouchedExactly(line: string, key: string)
    requires PlainKey(key)
    ensures var n := |key| - 1;
            Matches(line, key) <==>
            && Find(line, '=') < |line|
            && key[..n] <= Name(line) && forall d | d in Name(line)[n..] :: d == key[n]
  {
    var n := |key| - 1;
    var init, c := key[..n], key[n];
    assert c in key && forall d | d in init :: d in key;
    assert Name(line) <= line;
    if init <= line {
      StarExactly(line[n..], c);
      NameAfter(line, init);
      assert Name(line)[n..] == Name(line[n..]);
    }
  }

  lemma NameAfter(line: string, init: string)
    requires init <= line && '=' !in init
    ensures Name(line) == init + Name(line[|init|..])
    ensures Find(line, '=') == |init| + Find(line[|init|..], '=')
  {
    assert line == init + line[|init|..];
    FindAfter(init, line[|init|..]);
  }

  lemma {:induction false} FindAfter(prefix: string, rest: string)
    requires '=' !in prefix
    ensures Find(prefix + rest, '=') == |prefix| + Find(rest, '=')
  {
    if prefix == "" {
      assert prefix + rest == rest;
    } else {
      FindAfter(prefix[1..], rest);
      assert (prefix + rest)[1..] == prefix[1..] + rest;
    }
  }
}
