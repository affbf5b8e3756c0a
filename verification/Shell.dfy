/** How a POSIX shell cuts one command into words and expands them, and a command printed one flag to a line. */
module Shell {
  import opened Wrappers
  import opened Sorting
  import opened Patterns

  /** Characters that cut a command, quote or start an expansion (section 2.2 of the POSIX shell language). */
  predicate Operator(c: char) {
    || c == ' ' || c == '\t' || c == '\n' || c == '\\' || c == '\'' || c == '"' || c == '`' || c == '$'
    || c == '|' || c == '&' || c == ';' || c == '<' || c == '>' || c == '(' || c == ')'
  }

  predicate Special(c: char) {
    Operator(c) || PatternChar(c)
  }

  predicate Bare(s: string) {
    forall c | c in s :: !Operator(c)
  }

  predicate Plain(s: string) {
    forall c | c in s :: !Special(c)
  }

  /** Bare text that starts neither a comment nor a home directory. */
  predicate Word(w: string) {
    w != "" && Bare(w) && w[0] != '#' && w[0] != '~'
  }

  function Flush(current: string): seq<string> {
    if current == "" then [] else [current]
  }

  function Prepend(words: seq<string>, rest: Option<seq<string>>): Option<seq<string>> {
    match rest
    case None => None
    case Some(ws) => Some(words + ws)
  }

  /**
   * The words of the first command of `s`, with `current` read so far: a backslash and a newline vanish,
   * blanks separate, a newline ends. None where quoting, another operator or an expansion would come in.
   */
  function Words(s: string, current: string): Option<seq<string>>
    decreases |s|
  {
    if s == "" || s[0] == '\n' then Some(Flush(current))
    else if s[0] == '\\' && |s| > 1 && s[1] == '\n' then Words(s[2..], current)
    else if s[0] == ' ' || s[0] == '\t' then Prepend(Flush(current), Words(s[1..], ""))
    else if Operator(s[0]) || (current == "" && (s[0] == '#' || s[0] == '~')) then None
    else Words(s[1..], current + [s[0]])
  }

  // ---- reading back ----

  lemma {:induction false} ReadsOn(w: string, rest: string, current: string)
    requires Bare(w) && current != ""
    ensures Words(w + rest, current) == Words(rest, current + w)
  {
    if w == "" {
      assert w + rest == rest && current + w == current;
    } else {
      assert w[0] in w && (w + rest)[1..] == w[1..] + rest;
      ReadsOn(w[1..], rest, current + [w[0]]);
      assert current + [w[0]] + w[1..] == current + w;
    }
  }

  lemma ReadsWord(w: string, rest: string)
    requires Word(w)
    ensures Words(w + rest, "") == Words(rest, w)
  {
    assert w[0] in w && (w + rest)[1..] == w[1..] + rest;
    assert "" + [w[0]] == [w[0]];
    ReadsOn(w[1..], rest, [w[0]]);
    assert [w[0]] + w[1..] == w;
  }

  lemma SkipsBlank(rest: string, current: string)
    ensures Words([' '] + rest, current) == Prepend(Flush(current), Words(rest, ""))
  {
  }

  lemma SkipsContinuation(rest: string, current: string)
    ensures Words(['\\', '\n'] + rest, current) == Words(rest, current)
  {
  }

  lemma StopsAtNewline(rest: string, current: string)
    ensures Words(['\n'] + rest, current) == Some(Flush(current))
  {
  }

  /** No word holds an operator. */
  lemma {:induction false} WordsAreBare(s: string, current: string)
    requires Bare(current) && Words(s, current).Some?
    ensures forall w | w in Words(s, current).value :: Bare(w)
    decreases |s|
  {
    if s == "" || s[0] == '\n' {
    } else if s[0] == '\\' && |s| > 1 && s[1] == '\n' {
      WordsAreBare(s[2..], current);
    } else if s[0] == ' ' || s[0] == '\t' {
      WordsAreBare(s[1..], "");
    } else {
      WordsAreBare(s[1..], current + [s[0]]);
    }
  }

  // ---- printing ----

  /** One printed flag: indented, and continued on the next line. */
  function Line(flag: string): string {
    [' ', ' '] + flag + [' ', '\\', '\n']
  }

  function Lines(flags: seq<string>): string {
    if |flags| == 0 then "" else Line(flags[0]) + Lines(flags[1..])
  }

  lemma {:induction false} LinesAppend(flags: seq<string>, flag: string)
    ensures Lines(flags + [flag]) == Lines(flags) + Line(flag)
  {
    if |flags| == 0 {
      assert (flags + [flag])[1..] == [];
    } else {
      LinesAppend(flags[1..], flag);
      assert (flags + [flag])[1..] == flags[1..] + [flag];
      Associate(Line(flags[0]), Lines(flags[1..]), Line(flag));
    }
  }

  lemma Associate(a: string, b: string, c: string)
    ensures (a + b) + c == a + (b + c)
  {
  }

  /** A word and the blank after it. */
  lemma ReadsSpaced(w: string, rest: string)
    requires Word(w)
    ensures Words(w + ([' '] + rest), "") == Prepend([w], Words(rest, ""))
  {
    ReadsWord(w, [' '] + rest);
    SkipsBlank(rest, w);
  }

  lemma ReadsLine(flag: string, rest: string)
    requires Word(flag)
    ensures Words(Line(flag) + rest, "") == Prepend([flag], Words(rest, ""))
  {
    var tail := ['\\', '\n'] + rest;
    LineText(flag, rest);
    SkipsBlank([' '] + (flag + ([' '] + tail)), "");
    SkipsBlank(flag + ([' '] + tail), "");
    PrependNothing(Words(flag + ([' '] + tail), ""));
    ReadsSpaced(flag, tail);
    SkipsContinuation(rest, "");
  }

  lemma LineText(flag: string, rest: string)
    ensures Line(flag) + rest == [' '] + ([' '] + (flag + ([' '] + (['\\', '\n'] + rest))))
  {
  }

  lemma PrependNothing(o: Option<seq<string>>)
    ensures Prepend([], o) == o
  {
    if o.Some? { assert [] + o.value == o.value; }
  }

  lemma PrependTwice(a: seq<string>, b: seq<string>, o: Option<seq<string>>)
    ensures Prepend(a, Prepend(b, o)) == Prepend(a + b, o)
  {
    if o.Some? { assert a + (b + o.value) == (a + b) + o.value; }
  }

  lemma {:induction false} ReadsLines(flags: seq<string>, rest: string)
    requires forall f | f in flags :: Word(f)
    ensures Words(Lines(flags) + rest, "") == Prepend(flags, Words(rest, ""))
  {
    if |flags| == 0 {
      assert Lines(flags) + rest == rest;
      PrependNothing(Words(rest, ""));
    } else {
      var f, fs := flags[0], flags[1..];
      assert Lines(flags) + rest == Line(f) + (Lines(fs) + rest);
      ReadsLine(f, Lines(fs) + rest);
      ReadsLines(fs, rest);
      PrependTwice([f], fs, Words(rest, ""));
      assert [f] + fs == flags;
    }
  }

  /** `<first> <second> \` and the flags, one to a line. */
  function Printed(first: string, second: string, flags: seq<string>): string {
    first + [' '] + second + [' ', '\\', '\n'] + Lines(flags)
  }

  lemma ReadsHead(first: string, second: string, rest: string)
    requires Word(first) && Word(second)
    ensures Words(first + [' '] + second + [' ', '\\', '\n'] + rest, "") == Prepend([first, second], Words(rest, ""))
  {
    var tail := ['\\', '\n'] + rest;
    HeadText(first, second, rest);
    ReadsSpaced(first, second + ([' '] + tail));
    ReadsSpaced(second, tail);
    SkipsContinuation(rest, "");
    PrependTwice([first], [second], Words(rest, ""));
    assert [first] + [second] == [first, second];
  }

  lemma HeadText(first: string, second: string, rest: string)
    ensures first + [' '] + second + [' ', '\\', '\n'] + rest
            == first + ([' '] + (second + ([' '] + (['\\', '\n'] + rest))))
  {
  }

  // ---- trimming ----

  predicate Cut(c: char) {
    c == ' ' || c == '\\' || c == '\n'
  }

  /** `strings.TrimRight(s, " \\\n")`. */
  function TrimRight(s: string): (r: string)
    ensures |r| <= |s| && r == s[..|r|]
    ensures r == "" || !Cut(r[|r| - 1])
    ensures forall k | |r| <= k < |s| :: Cut(s[k])
  {
    if s != "" && Cut(s[|s| - 1]) then TrimRight(s[..|s| - 1]) else s
  }

  /** The three clauses above leave one result. */
  lemma TrimIs(s: string, r: string)
    requires |r| <= |s| && r == s[..|r|]
    requires r == "" || !Cut(r[|r| - 1])
    requires forall k | |r| <= k < |s| :: Cut(s[k])
    ensures TrimRight(s) == r
  {
  }

  lemma TrimKeepsFront(front: string, s: string)
    requires TrimRight(s) != ""
    ensures TrimRight(front + s) == front + TrimRight(s)
  {
    TrimIs(front + s, front + TrimRight(s));
  }

  /** Of text that ends in a continuation, trimming takes the continuation and nothing else exactly when a word ends before it. */
  lemma TrimTakesContinuation(s: string)
    requires s != ""
    ensures TrimRight(s + [' ', '\\', '\n']) == s <==> !Cut(s[|s| - 1])
  {
    var t := s + [' ', '\\', '\n'];
    assert t[..|s|] == s && t[|s|..] == [' ', '\\', '\n'];
    if !Cut(s[|s| - 1]) {
      assert forall k | |s| <= k < |t| :: t[k] == t[|s|..][k - |s|];
      TrimIs(t, s);
    }
  }

  // ---- the round trip ----

  /** What `Printed` leaves once the last continuation is gone. */
  function Unfinished(first: string, second: string, flags: seq<string>): string
    requires |flags| > 0
  {
    first + [' '] + second + [' ', '\\', '\n'] + (Lines(flags[..|flags| - 1]) + ([' ', ' '] + flags[|flags| - 1]))
  }

  lemma PrintedEndsInContinuation(first: string, second: string, flags: seq<string>)
    requires |flags| > 0
    ensures Printed(first, second, flags) == Unfinished(first, second, flags) + [' ', '\\', '\n']
  {
    var n := |flags| - 1;
    assert flags == flags[..n] + [flags[n]];
    LinesAppend(flags[..n], flags[n]);
    var head, mid := first + [' '] + second + [' ', '\\', '\n'], Lines(flags[..n]);
    assert head + (mid + Line(flags[n])) == head + (mid + ([' ', ' '] + flags[n])) + [' ', '\\', '\n'];
  }

  /** Trimming a printed command drops just its last continuation exactly when the last flag ends in none of the cut characters. */
  lemma TrimTakesLastContinuation(first: string, second: string, flags: seq<string>)
    requires |flags| > 0 && flags[|flags| - 1] != ""
    ensures TrimRight(Printed(first, second, flags)) == Unfinished(first, second, flags)
            <==> !Cut(flags[|flags| - 1][|flags[|flags| - 1]| - 1])
  {
    var u := Unfinished(first, second, flags);
    PrintedEndsInContinuation(first, second, flags);
    TrimTakesContinuation(u);
    assert u[|u| - 1] == flags[|flags| - 1][|flags[|flags| - 1]| - 1];
  }

  lemma LastText(flag: string)
    ensures [' ', ' '] + flag + ['\n'] == [' '] + ([' '] + (flag + ['\n']))
  {
  }

  lemma ReadsLastLine(flag: string)
    requires Word(flag)
    ensures Words([' ', ' '] + flag + ['\n'], "") == Some([flag])
  {
    LastText(flag);
    SkipsBlank([' '] + (flag + ['\n']), "");
    SkipsBlank(flag + ['\n'], "");
    PrependNothing(Words(flag + ['\n'], ""));
    ReadsWord(flag, ['\n']);
    StopsAtNewline([], flag);
    assert ['\n'] + [] == ['\n'];
  }

  lemma ReadsUnfinished(first: string, second: string, flags: seq<string>)
    requires |flags| > 0 && Word(first) && Word(second) && forall f | f in flags :: Word(f)
    ensures Words(Unfinished(first, second, flags) + ['\n'], "") == Some([first, second] + flags)
  {
    var n := |flags| - 1;
    var last := [' ', ' '] + flags[n] + ['\n'];
    var head, mid := first + [' '] + second + [' ', '\\', '\n'], Lines(flags[..n]);
    assert Unfinished(first, second, flags) + ['\n'] == head + (mid + last);
    ReadsHead(first, second, mid + last);
    ReadsLines(flags[..n], last);
    ReadsLastLine(flags[n]);
    assert flags[..n] + [flags[n]] == flags;
  }

  lemma LastFlagIsKept(first: string, second: string, flags: seq<string>)
    requires |flags| > 0 && Word(flags[|flags| - 1])
    ensures TrimRight(Printed(first, second, flags)) == Unfinished(first, second, flags)
  {
    var f := flags[|flags| - 1];
    assert f[|f| - 1] in f;
    TrimTakesLastContinuation(first, second, flags);
  }

  /**
   * A printed and trimmed command is cut back into its words exactly when every flag is bare, for flags
   * that start neither a comment nor a home directory.
   */
  lemma CutsBackIffBare(first: string, second: string, flags: seq<string>)
    requires |flags| > 0 && Word(first) && Word(second)
    requires forall f | f in flags :: f != "" && f[0] != '#' && f[0] != '~'
    ensures Words(TrimRight(Printed(first, second, flags)) + ['\n'], "") == Some([first, second] + flags)
            <==> forall f | f in flags :: Bare(f)
  {
    var text := TrimRight(Printed(first, second, flags)) + ['\n'];
    if forall f | f in flags :: Bare(f) {
      assert flags[|flags| - 1] in flags;
      LastFlagIsKept(first, second, flags);
      ReadsUnfinished(first, second, flags);
    }
    if Words(text, "") == Some([first, second] + flags) {
      WordsAreBare(text, "");
      forall f | f in flags ensures Bare(f) { assert f in [first, second] + flags; }
    }
  }

  // ---- expansion ----

  /** What the command is run with where `files` are: its words, patterns expanded. None for a bracket expression without a clear meaning. */
  function Fields(files: seq<string>, s: string): Option<seq<string>> {
    match Words(s, "")
    case None => None
    case Some(ws) =>
      if forall w | w in ws :: AllClear(Parse(w)) then Some(FlatMap(Matched(files), ws)) else None
  }

  lemma {:induction false} Lengthens(f: string -> seq<string>, ws: seq<string>)
    requires forall w :: |f(w)| >= 1
    ensures |FlatMap(f, ws)| >= |ws|
    ensures FlatMap(f, ws) == ws <==> forall w | w in ws :: f(w) == [w]
  {
    if |ws| > 0 {
      var n := |ws| - 1;
      Lengthens(f, ws[..n]);
      SplitMatch(FlatMap(f, ws[..n]), f(ws[n]), ws);
      OneMore(f, ws);
    }
  }

  lemma OneMore(f: string -> seq<string>, ws: seq<string>)
    requires |ws| > 0
    ensures (forall w | w in ws :: f(w) == [w])
            <==> (forall w | w in ws[..|ws| - 1] :: f(w) == [w]) && f(ws[|ws| - 1]) == [ws[|ws| - 1]]
  {
    assert forall w :: w in ws <==> w in ws[..|ws| - 1] || w == ws[|ws| - 1];
  }

  lemma SplitMatch(front: seq<string>, back: seq<string>, ws: seq<string>)
    requires |ws| > 0 && |front| >= |ws| - 1 && |back| >= 1
    ensures front + back == ws <==> front == ws[..|ws| - 1] && back == [ws[|ws| - 1]]
  {
    if front + back == ws {
      assert |front| == |ws| - 1;
      assert front == (front + back)[..|front|] && back == (front + back)[|front|..];
    }
  }

  lemma MatchedIsLonger(files: seq<string>, ws: seq<string>)
    ensures |FlatMap(Matched(files), ws)| >= |ws|
    ensures FlatMap(Matched(files), ws) == ws <==> forall w | w in ws :: Matched(files)(w) == [w]
  {
    Lengthens(Matched(files), ws);
  }

  lemma {:induction false} NothingMatches(w: string)
    ensures Matched([])(w) == [w]
  {
  }

  /** Where there are no files, a command is run as meant exactly when its flags hold no operator and no unclear bracket. */
  lemma ReadsBackIffBare(first: string, second: string, flags: seq<string>)
    requires |flags| > 0 && Word(first) && AllClear(Parse(first)) && Word(second) && AllClear(Parse(second))
    requires forall f | f in flags :: f != "" && f[0] != '#' && f[0] != '~'
    ensures Fields([], TrimRight(Printed(first, second, flags)) + ['\n']) == Some([first, second] + flags)
            <==> forall f | f in flags :: Bare(f) && AllClear(Parse(f))
  {
    CutsBackIffBare(first, second, flags);
    var text := TrimRight(Printed(first, second, flags)) + ['\n'];
    HeadAndFlags(first, second, flags);
    if Words(text, "").Some? {
      var ws := Words(text, "").value;
      MatchedIsLonger([], ws);
      forall w | w in ws ensures Matched([])(w) == [w] { NothingMatches(w); }
    }
  }

  /** Among any given files, such flags are run as meant exactly when each that is a pattern matches nothing or just itself. */
  lemma BareReadsBackIff(files: seq<string>, first: string, second: string, flags: seq<string>)
    requires |flags| > 0 && Word(first) && Plain(first) && Word(second) && Plain(second)
    requires forall f | f in flags :: Bare(f) && AllClear(Parse(f)) && f != "" && f[0] != '#' && f[0] != '~'
    ensures Fields(files, TrimRight(Printed(first, second, flags)) + ['\n']) == Some([first, second] + flags)
            <==> forall f | f in flags :: Matched(files)(f) == [f]
  {
    PlainStands(files, first);
    PlainStands(files, second);
    CutsBackIffBare(first, second, flags);
    HeadAndFlags(first, second, flags);
    FieldsOfWords(files, TrimRight(Printed(first, second, flags)) + ['\n'], [first, second] + flags);
  }

  lemma HeadAndFlags(first: string, second: string, flags: seq<string>)
    ensures forall f :: f in [first, second] + flags <==> f == first || f == second || f in flags
  {
  }

  lemma FieldsOfWords(files: seq<string>, text: string, ws: seq<string>)
    requires Words(text, "") == Some(ws) && forall w | w in ws :: AllClear(Parse(w))
    ensures Fields(files, text) == Some(ws) <==> forall w | w in ws :: Matched(files)(w) == [w]
  {
    MatchedIsLonger(files, ws);
  }

  lemma PlainStands(files: seq<string>, w: string)
    requires Plain(w)
    ensures AllClear(Parse(w)) && Matched(files)(w) == [w] && Safe(w)
  {
    assert w + "" == w;
    AfterPlainText(w, "", false);
  }

  /** A shell takes the word as it stands, whatever files there are; `inside` tells where in a component it begins. */
  ghost predicate SafeFrom(w: string, inside: bool) {
    Bare(w) && AllClear(Parse(w)) && !Risky(w, inside)
  }

  ghost predicate Safe(w: string) {
    SafeFrom(w, false)
  }

  /** Plain text that does not end a component leaves the safety of what follows it as it is. */
  lemma SafeAfterPlain(p: string, v: string)
    requires Plain(p) && p != "" && p[|p| - 1] != '/'
    ensures Safe(p + v) <==> SafeFrom(v, true)
  {
    AfterPlainText(p, v, false);
    assert Bare(p + v) <==> Bare(v) by {
      assert forall c :: c in p + v <==> c in p || c in v;
    }
  }

  /** Whatever files there are, the command is run with these words. */
  ghost predicate ReadsAs(s: string, words: seq<string>) {
    forall files | IsListing(files) :: Fields(files, s) == Some(words)
  }

  /**
   * Whatever files there are, a printed and trimmed command is run as meant exactly when every flag is safe:
   * it holds no operator and no unclear bracket, and no other name matches it.
   */
  lemma ReadsBackIffSafe(first: string, second: string, flags: seq<string>)
    requires |flags| > 0 && Word(first) && Plain(first) && Word(second) && Plain(second)
    requires forall f | f in flags :: f != "" && f[0] != '#' && f[0] != '~'
    ensures ReadsAs(TrimRight(Printed(first, second, flags)) + ['\n'], [first, second] + flags)
            <==> forall f | f in flags :: Safe(f)
  {
    var text := TrimRight(Printed(first, second, flags)) + ['\n'];
    if forall f | f in flags :: Safe(f) {
      forall files | IsListing(files) ensures Fields(files, text) == Some([first, second] + flags) {
        forall f | f in flags ensures Matched(files)(f) == [f] { MatchesOnlyItself(files, f); }
        BareReadsBackIff(files, first, second, flags);
      }
    } else {
      var files := Misread(first, second, flags);
      assert Fields(files, text) != Some([first, second] + flags);
    }
  }

  /** A listing among which a command with an unsafe flag is not run as meant. */
  lemma Misread(first: string, second: string, flags: seq<string>) returns (files: seq<string>)
    requires |flags| > 0 && Word(first) && Plain(first) && Word(second) && Plain(second)
    requires forall f | f in flags :: f != "" && f[0] != '#' && f[0] != '~'
    requires exists f :: f in flags && !Safe(f)
    ensures IsListing(files)
    ensures Fields(files, TrimRight(Printed(first, second, flags)) + ['\n']) != Some([first, second] + flags)
  {
    var f :| f in flags && !Safe(f);
    if forall g | g in flags :: Bare(g) && AllClear(Parse(g)) {
      files := RiskyExpands(f);
      BareReadsBackIff(files, first, second, flags);
    } else {
      files := [];
      PlainStands([], first);
      PlainStands([], second);
      ReadsBackIffBare(first, second, flags);
    }
  }
}
