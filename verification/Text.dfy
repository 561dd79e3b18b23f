/** Shell text: word splitting, joining and substring search, shared by the script modules. */
module Text {

  predicate IsBlank(c: char) {
    c == ' ' || c == '\t' || c == '\n'
  }

  predicate BlankFree(s: string) {
    forall c | c in s :: !IsBlank(c)
  }

  function WordLength(s: string): (n: nat)
    ensures n <= |s| && BlankFree(s[..n]) && (n < |s| ==> IsBlank(s[n]))
    ensures s != "" && !IsBlank(s[0]) ==> n > 0
  {
    if s == "" || IsBlank(s[0]) then 0
    else
      var n := WordLength(s[1..]);
      assert s[..n + 1] == [s[0]] + s[1..][..n];
      n + 1
  }

  /** Unquoted expansion: the maximal runs of non-blank characters. */
  function Words(s: string): seq<string>
    decreases |s|
  {
    if s == "" then []
    else if IsBlank(s[0]) then Words(s[1..])
    else [s[..WordLength(s)]] + Words(s[WordLength(s)..])
  }

  lemma {:induction false} WordLengthOf(word: string, rest: string)
    requires BlankFree(word) && (rest == "" || IsBlank(rest[0]))
    ensures WordLength(word + rest) == |word|
  {
    if word == "" {
      assert word + rest == rest;
    } else {
      assert word[0] in word;
      forall c | c in word[1..] ensures !IsBlank(c) { assert c in word; }
      WordLengthOf(word[1..], rest);
      assert (word + rest)[1..] == word[1..] + rest;
    }
  }

  /** A leading word is split off on its own. */
  lemma FirstWord(word: string, rest: string)
    requires word != "" && BlankFree(word) && (rest == "" || IsBlank(rest[0]))
    ensures Words(word + rest) == [word] + Words(rest)
  {
    assert word[0] in word && (word + rest)[0] == word[0];
    WordLengthOf(word, rest);
    assert (word + rest)[..|word|] == word && (word + rest)[|word|..] == rest;
  }

  lemma WordEnds(a: string)
    requires a != "" && !IsBlank(a[0]) && IsBlank(a[|a| - 1])
    ensures 0 < WordLength(a) < |a| && BlankFree(a[..WordLength(a)])
  {
    assert a[..|a|] == a && a[|a| - 1] in a;
  }

  lemma NoWords()
    ensures Words("") == []
  {
  }

  lemma SkipBlank(s: string)
    requires s != "" && IsBlank(s[0])
    ensures Words(s) == Words(s[1..])
  {
  }

  lemma WordThenMore(word: string, rest: string, b: string)
    requires word != "" && BlankFree(word) && rest != "" && IsBlank(rest[0])
    requires Words(rest + b) == Words(rest) + Words(b)
    ensures Words(word + rest + b) == Words(word + rest) + Words(b)
  {
    hide Words, BlankFree;
    FirstWord(word, rest);
    FirstWord(word, rest + b);
    assert word + rest + b == word + (rest + b);
    assert [word] + (Words(rest) + Words(b)) == [word] + Words(rest) + Words(b);
  }

  /** The words of two texts with a blank between them. */
  lemma {:induction false} WordsConcat(a: string, b: string)
    requires a == "" || IsBlank(a[|a| - 1])
    ensures Words(a + b) == Words(a) + Words(b)
    decreases |a|
  {
    hide Words;
    if a == "" {
      NoWords();
      assert a + b == b;
    } else if IsBlank(a[0]) {
      WordsConcat(a[1..], b);
      SkipBlank(a);
      SkipBlank(a + b);
      assert (a + b)[1..] == a[1..] + b;
    } else {
      var n := WordLength(a);
      WordEnds(a);
      WordsConcat(a[n..], b);
      WordThenMore(a[..n], a[n..], b);
      assert a == a[..n] + a[n..];
    }
  }

  /** "${list[*]}": the elements with a blank between them. */
  function Join(list: seq<string>): string {
    if list == [] then ""
    else if |list| == 1 then list[0]
    else list[0] + " " + Join(list[1..])
  }

  predicate AllWords(list: seq<string>) {
    forall w | w in list :: w != "" && BlankFree(w)
  }

  /** Splitting undoes joining. */
  lemma {:induction false} WordsJoin(list: seq<string>)
    requires AllWords(list)
    ensures Words(Join(list)) == list
  {
    if list != [] {
      assert list[0] in list;
      if |list| == 1 {
        assert list[0] + "" == list[0];
        FirstWord(list[0], "");
      } else {
        forall w | w in list[1..] ensures w in list {}
        WordsJoin(list[1..]);
        var rest := " " + Join(list[1..]);
        assert rest[1..] == Join(list[1..]);
        FirstWord(list[0], rest);
        assert Join(list) == list[0] + rest;
      }
    }
  }

  lemma {:induction false} WordsAreWords(s: string)
    ensures AllWords(Words(s))
    decreases |s|
  {
    if s != "" {
      if IsBlank(s[0]) {
        WordsAreWords(s[1..]);
      } else {
        WordsAreWords(s[WordLength(s)..]);
      }
    }
  }

  /** -n, -e, -E and their combinations. */
  predicate IsEchoOption(word: string) {
    |word| > 1 && word[0] == '-' && forall c | c in word[1..] :: c in {'n', 'e', 'E'}
  }

  function DropOptions(words: seq<string>): seq<string> {
    if words != [] && IsEchoOption(words[0]) then DropOptions(words[1..]) else words
  }

  /** echo $text: the words with one blank between them, without those that echo takes as options. */
  function Echo(text: string): string {
    Join(DropOptions(Words(text)))
  }

  /** A word that is no option is printed as it is. */
  lemma EchoWord(word: string)
    requires BlankFree(word) && !IsEchoOption(word)
    ensures Echo(word) == word
  {
    if word != "" {
      assert word + "" == word;
      FirstWord(word, "");
    }
  }

  /** What echo prints of a list of words: all of them, with a blank between, but not the options in front:
      a dash and one or more of the letters n, e and E. */
  lemma EchoSteps(first: string, rest: seq<string>)
    requires AllWords([first] + rest)
    ensures Echo("") == ""
    ensures var option := |first| > 1 && first[0] == '-' && forall c | c in first[1..] :: c in "neE";
            Echo(Join([first] + rest)) == if option then Echo(Join(rest)) else Join([first] + rest)
  {
    var list := [first] + rest;
    assert AllWords(rest) && list[1..] == rest;
    WordsJoin(list);
    WordsJoin(rest);
    NoWords();
  }

  /** awk -F[,] printing every field on a line of its own. */
  function CommasToLines(s: string): (r: string)
    ensures |r| == |s|
    ensures forall i | 0 <= i < |s| :: r[i] == if s[i] == ',' then '\n' else s[i]
  {
    if s == "" then "" else [if s[0] == ',' then '\n' else s[0]] + CommasToLines(s[1..])
  }

  /** The elements of a list written with commas or blanks. */
  function SplitList(s: string): seq<string> {
    Words(CommasToLines(s))
  }

  lemma {:induction false} CommasConcat(a: string, b: string)
    ensures CommasToLines(a + b) == CommasToLines(a) + CommasToLines(b)
  {
    var both := CommasToLines(a) + CommasToLines(b);
    forall i | 0 <= i < |a + b| ensures CommasToLines(a + b)[i] == both[i] {}
  }

  /** A blank between two texts ends a word. */
  lemma {:induction false} WordsAround(a: string, b: string)
    ensures Words(a + " " + b) == Words(a) + Words(b)
    decreases |a|
  {
    hide Words;
    var tail := " " + b;
    assert a + " " + b == a + tail && tail[1..] == b;
    SkipBlank(tail);
    NoWords();
    if a == "" {
      assert a + tail == tail;
    } else if IsBlank(a[0]) {
      WordsAround(a[1..], b);
      SkipBlank(a);
      SkipBlank(a + tail);
      assert (a + tail)[1..] == a[1..] + " " + b;
    } else {
      var n := WordLength(a);
      var word, rest := a[..n], a[n..];
      assert a == word + rest;
      if rest == "" {
        FirstWord(a, tail);
        assert a + "" == a;
        FirstWord(a, "");
      } else {
        WordsAround(rest, b);
        FirstWord(word, rest);
        FirstWord(word, rest + " " + b);
        assert a + tail == word + (rest + " " + b);
      }
    }
  }

  /** What splitting a list means: a word has neither comma nor blank in it, and any number of commas
      and blanks may stand around it. */
  lemma SplitSteps(word: string, separator: char, rest: string)
    requires word != "" && forall c | c in word :: c !in {',', ' ', '\t', '\n'}
    requires separator in {',', ' ', '\t', '\n'}
    ensures SplitList("") == [] && SplitList(word) == [word]
    ensures SplitList([separator] + rest) == SplitList(rest)
    ensures SplitList(word + [separator] + rest) == [word] + SplitList(rest)
  {
    var tail := [separator] + rest;
    NoComma(word);
    SeparatorBlank(separator, rest);
    hide Words, CommasToLines;
    CommasConcat(word, tail);
    assert word + tail == word + [separator] + rest && word + "" == word;
    NoWords();
    FirstWord(word, "");
    SkipBlank(CommasToLines(tail));
    FirstWord(word, CommasToLines(tail));
  }

  lemma NoComma(s: string)
    requires ',' !in s
    ensures CommasToLines(s) == s && CommasToLines("") == ""
  {
    assert forall i | 0 <= i < |s| :: s[i] in s;
  }

  lemma SeparatorBlank(separator: char, rest: string)
    requires separator in {',', ' ', '\t', '\n'}
    ensures var lines := CommasToLines([separator] + rest);
            lines != "" && IsBlank(lines[0]) && lines[1..] == CommasToLines(rest)
  {
    CommasConcat([separator], rest);
  }

  /** So a list is split where its parts would be. */
  lemma SplitAround(a: string, b: string)
    ensures SplitList(a + " " + b) == SplitList(a) + SplitList(b)
  {
    assert CommasToLines(" ") == " ";
    hide Words, CommasToLines;
    CommasConcat(a, " " + b);
    CommasConcat(" ", b);
    WordsAround(CommasToLines(a), CommasToLines(b));
    Regrouped(a, " ", b);
    Regrouped(CommasToLines(a), " ", CommasToLines(b));
  }

  lemma Regrouped(a: string, b: string, c: string)
    ensures a + b + c == a + (b + c)
  {
  }

  lemma JoinSteps(first: string, rest: seq<string>)
    ensures Join([]) == "" && Join([first]) == first
    ensures rest != [] ==> Join([first] + rest) == first + " " + Join(rest)
  {
    assert ([first] + rest)[1..] == rest;
  }

  /** The list with something put in front of its first element, or behind its last. */
  function WithFront(front: string, list: seq<string>): seq<string>
    requires list != []
  {
    [front + list[0]] + list[1..]
  }

  function WithBack(list: seq<string>, back: string): seq<string>
    requires list != []
  {
    list[..|list| - 1] + [list[|list| - 1] + back]
  }

  lemma JoinFront(front: string, list: seq<string>)
    requires list != []
    ensures Join(WithFront(front, list)) == front + Join(list)
  {
    hide Join;
    var first, rest := list[0], list[1..];
    assert list == [first] + rest;
    JoinSteps(first, rest);
    JoinSteps(front + first, rest);
    if rest != [] {
      assert front + first + " " + Join(rest) == front + (first + " " + Join(rest));
    } else {
      assert WithFront(front, list) == [front + first] && list == [first];
    }
  }

  lemma {:induction false} JoinBack(list: seq<string>, back: string)
    requires list != []
    ensures Join(WithBack(list, back)) == Join(list) + back
  {
    hide Join;
    var first, rest := list[0], list[1..];
    assert list == [first] + rest;
    JoinSteps(first, rest);
    if rest == [] {
      assert WithBack(list, back) == [first + back] && list == [first];
      JoinSteps(first + back, []);
    } else {
      JoinBack(rest, back);
      JoinSteps(first, WithBack(rest, back));
      assert WithBack(list, back) == [first] + WithBack(rest, back);
      assert first + " " + (Join(rest) + back) == first + " " + Join(rest) + back;
    }
  }

  /** The pattern occurs somewhere in s. */
  predicate Contains(s: string, pattern: string) {
    pattern <= s || (s != "" && Contains(s[1..], pattern))
  }

  predicate StandsIn(s: string, i: nat, pattern: string) {
    i + |pattern| <= |s| && s[i..i + |pattern|] == pattern
  }

  ghost predicate Occurs(s: string, pattern: string) {
    exists i: nat :: StandsIn(s, i, pattern)
  }

  lemma OneFurther(s: string, i: nat, pattern: string)
    requires s != ""
    ensures StandsIn(s[1..], i, pattern) <==> StandsIn(s, i + 1, pattern)
  {
    if i + 1 + |pattern| <= |s| {
      assert s[1..][i..i + |pattern|] == s[i + 1..i + 1 + |pattern|];
    }
  }

  lemma {:induction false} ContainsIff(s: string, pattern: string)
    ensures Contains(s, pattern) <==> Occurs(s, pattern)
  {
    if pattern <= s {
      assert StandsIn(s, 0, pattern);
    } else if s == "" {
      assert pattern != "";
    } else {
      ContainsIff(s[1..], pattern);
      assert !StandsIn(s, 0, pattern);
      hide StandsIn;
      if Occurs(s[1..], pattern) {
        var i: nat :| StandsIn(s[1..], i, pattern);
        OneFurther(s, i, pattern);
      }
      if Occurs(s, pattern) {
        var i: nat :| StandsIn(s, i, pattern);
        assert i > 0;
        OneFurther(s, i - 1, pattern);
      }
    }
  }

  lemma {:induction false} ContainsNeedsFirst(s: string, pattern: string)
    requires pattern != "" && pattern[0] !in s
    ensures !Contains(s, pattern)
  {
    if s != "" {
      forall c | c in s[1..] ensures c in s {}
      assert s[0] in s;
      ContainsNeedsFirst(s[1..], pattern);
    }
  }

  /** Index of the first occurrence of a character, or the length. */
  function Find(s: string, c: char): (n: nat)
    ensures n <= |s| && c !in s[..n] && (n < |s| ==> s[n] == c)
  {
    if s == "" || s[0] == c then 0
    else
      var n := Find(s[1..], c);
      assert s[..n + 1] == [s[0]] + s[1..][..n];
      n + 1
  }

  lemma {:induction false} FindOf(prefix: string, c: char, rest: string)
    requires c !in prefix && (rest == "" || rest[0] == c)
    ensures Find(prefix + rest, c) == |prefix|
  {
    if prefix == "" {
      assert prefix + rest == rest;
    } else {
      FindOf(prefix[1..], c, rest);
      assert (prefix + rest)[1..] == prefix[1..] + rest;
    }
  }
}
