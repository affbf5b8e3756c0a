/** Pathname expansion as in section 2.13 of the POSIX shell language: what a pattern is, and which names it matches. */
module Patterns {

  /** A pattern, piece by piece. `body` is what stands between the brackets, after a `!`. */
  datatype Piece = Literal(c: char) | AnyOne | AnyRun | OneOf(negated: bool, body: string)

  /** The next `]` of `w` from `i` on, before any slash; 0 when there is none. */
  function Seek(w: string, i: nat): (k: nat)
    ensures k == 0 || i <= k < |w|
    decreases |w| - i
  {
    if i >= |w| || w[i] == '/' then 0 else if w[i] == ']' then i else Seek(w, i + 1)
  }

  /** Where the members of a bracket expression begin. */
  function First(w: string): nat {
    if |w| > 1 && w[1] == '!' then 2 else 1
  }

  /**
   * The `]` that closes the bracket `w` begins with; 0 when none does and the bracket stands for itself.
   * A `]` in first place is a member, and no bracket expression holds a slash.
   */
  function Closing(w: string): (k: nat)
    ensures k == 0 || First(w) < k < |w|
  {
    if |w| <= First(w) || w[First(w)] == '/' then 0 else Seek(w, First(w) + 1)
  }

  function Parse(w: string): (ps: seq<Piece>)
    ensures |ps| <= |w|
    ensures w != "" ==> |ps| > 0
  {
    if w == "" then []
    else if w[0] == '*' then [AnyRun] + Parse(w[1..])
    else if w[0] == '?' then [AnyOne] + Parse(w[1..])
    else if w[0] == '[' && Closing(w) != 0 then
      [OneOf(First(w) == 2, w[First(w)..Closing(w)])] + Parse(w[Closing(w) + 1..])
    else [Literal(w[0])] + Parse(w[1..])
  }

  /** One member or range after the other, in the order of the characters. */
  predicate Member(body: string, c: char) {
    if body == "" then false
    else if |body| >= 3 && body[1] == '-' then body[0] <= c <= body[2] || Member(body[3..], c)
    else body[0] == c || Member(body[1..], c)
  }

  predicate In(p: Piece, c: char)
    requires p.OneOf?
  {
    Member(p.body, c) != p.negated
  }

  /** A bracket expression with a meaning of its own: a leading circumflex, or a class or symbol inside. */
  predicate Clear(p: Piece) {
    p.OneOf? ==>
      && (p.body != "" && !p.negated ==> p.body[0] != '^')
      && forall i | 0 <= i < |p.body| - 1 && p.body[i] == '[' :: p.body[i + 1] !in ['.', '=', ':']
  }

  // ---- matching ----

  /** Where a match has got to in a component of a name: at its start, there after a run that took nothing, or past it. */
  datatype Place = Start | StartAfterRun | Inside

  /** What a wildcard or a bracket expression may take: no slash, and no leading period. */
  predicate Takes(c: char, at: Place) {
    c != '/' && (at.Inside? || c != '.')
  }

  /** A component that begins with a run is not empty, and its leading period has to be written in first place. */
  predicate Matches(ps: seq<Piece>, n: string, at: Place)
    decreases |ps| + |n|
  {
    if |ps| == 0 then n == "" && !at.StartAfterRun?
    else
      match ps[0]
      case Literal(c) =>
        n != "" && n[0] == c && !(at.StartAfterRun? && (c == '.' || c == '/'))
        && Matches(ps[1..], n[1..], if c == '/' then Start else Inside)
      case AnyOne => n != "" && Takes(n[0], at) && Matches(ps[1..], n[1..], Inside)
      case OneOf(_, _) => n != "" && Takes(n[0], at) && In(ps[0], n[0]) && Matches(ps[1..], n[1..], Inside)
      case AnyRun =>
        || Matches(ps[1..], n, if at.Inside? then Inside else StartAfterRun)
        || (n != "" && Takes(n[0], at) && Matches(ps, n[1..], Inside))
  }

  /** The word, as a pattern, matches the name. */
  predicate IsMatch(w: string, n: string) {
    Matches(Parse(w), n, Start)
  }

  predicate IsPattern(ps: seq<Piece>) {
    exists i | 0 <= i < |ps| :: !ps[i].Literal?
  }

  /** Every bracket expression has a member that may stand where it does. */
  ghost predicate Live(ps: seq<Piece>, inside: bool) {
    if |ps| == 0 then true
    else
      && (ps[0].OneOf? ==> exists c :: Takes(c, if inside then Inside else Start) && In(ps[0], c))
      && Live(ps[1..], ps[0] != Literal('/'))
  }

  lemma {:induction false} LiveGrows(ps: seq<Piece>)
    requires Live(ps, false)
    ensures Live(ps, true)
  {
    if |ps| > 0 && ps[0].OneOf? {
      var c :| Takes(c, Start) && In(ps[0], c);
      assert Takes(c, Inside);
    }
  }

  lemma {:induction false} MatchedIsLive(ps: seq<Piece>, n: string, at: Place)
    requires Matches(ps, n, at)
    ensures Live(ps, at.Inside?)
    decreases |ps| + |n|
  {
    if |ps| > 0 {
      match ps[0]
      case Literal(c) => MatchedIsLive(ps[1..], n[1..], if c == '/' then Start else Inside);
      case AnyOne => MatchedIsLive(ps[1..], n[1..], Inside);
      case OneOf(_, _) =>
        assert Takes(n[0], if at.Inside? then Inside else Start);
        MatchedIsLive(ps[1..], n[1..], Inside);
      case AnyRun =>
        if Matches(ps[1..], n, if at.Inside? then Inside else StartAfterRun) {
          MatchedIsLive(ps[1..], n, if at.Inside? then Inside else StartAfterRun);
          if !at.Inside? { LiveGrows(ps[1..]); }
        } else {
          MatchedIsLive(ps, n[1..], Inside);
        }
    }
  }

  /** A name with one character for each piece. */
  ghost function Instance(ps: seq<Piece>, inside: bool): (n: string)
    requires Live(ps, inside)
    ensures |n| == |ps|
  {
    if |ps| == 0 then ""
    else
      var c :=
        match ps[0]
        case Literal(c) => c
        case AnyOne => 'a'
        case AnyRun => 'a'
        case OneOf(_, _) => var c :| Takes(c, if inside then Inside else Start) && In(ps[0], c); c;
      [c] + Instance(ps[1..], ps[0] != Literal('/'))
  }

  lemma {:induction false} InstanceMatches(ps: seq<Piece>, inside: bool)
    requires Live(ps, inside)
    ensures Matches(ps, Instance(ps, inside), if inside then Inside else Start)
  {
    if |ps| > 0 {
      var n := Instance(ps, inside);
      InstanceMatches(ps[1..], ps[0] != Literal('/'));
      assert n[1..] == Instance(ps[1..], ps[0] != Literal('/'));
      if ps[0].AnyRun? { assert Matches(ps, n[1..], Inside); }
    }
  }

  /** It is not the pattern itself: a wildcard became a letter, or three characters or more became one. */
  lemma {:induction false} InstanceDiffers(w: string, inside: bool)
    requires Live(Parse(w), inside) && IsPattern(Parse(w))
    ensures Instance(Parse(w), inside) != w
  {
    var ps := Parse(w);
    var n := Instance(ps, inside);
    if ps[0].Literal? {
      var rest := w[1..];
      assert ps[1..] == Parse(rest);
      assert IsPattern(ps[1..]) by {
        var i :| 0 <= i < |ps| && !ps[i].Literal?;
        assert ps[1..][i - 1] == ps[i];
      }
      InstanceDiffers(rest, ps[0] != Literal('/'));
      assert n[1..] == Instance(ps[1..], ps[0] != Literal('/'));
    }
  }

  /** A pattern all of whose bracket expressions can be met; `inside` tells where in a component the word begins. */
  ghost predicate Risky(w: string, inside: bool) {
    IsPattern(Parse(w)) && Live(Parse(w), inside)
  }

  /** Those are exactly the words that some other name matches. */
  lemma RiskyIffOtherMatches(w: string)
    ensures Risky(w, false) <==> IsPattern(Parse(w)) && exists n :: n != w && IsMatch(w, n)
  {
    var ps := Parse(w);
    if Risky(w, false) {
      var n := Instance(ps, false);
      InstanceMatches(ps, false);
      InstanceDiffers(w, false);
      assert n != w && IsMatch(w, n);
    } else if IsPattern(ps) {
      forall n ensures !IsMatch(w, n) {
        if IsMatch(w, n) { MatchedIsLive(ps, n, Start); }
      }
    }
  }

  // ---- expansion ----

  /** The names that match, in listing order. */
  function Matching(files: seq<string>, w: string): (ms: seq<string>)
    ensures forall n :: n in ms <==> n in files && IsMatch(w, n)
  {
    if |files| == 0 then []
    else (if IsMatch(w, files[0]) then [files[0]] else []) + Matching(files[1..], w)
  }

  /** A pattern stands for the names it matches, and for itself when there are none. */
  function Matched(files: seq<string>): string -> seq<string> {
    (w: string) => if IsPattern(Parse(w)) && Matching(files, w) != [] then Matching(files, w) else [w]
  }

  /** Names as directories list them. */
  ghost predicate IsListing(files: seq<string>) {
    && (forall n | n in files :: n != "")
    && forall i, j | 0 <= i < j < |files| :: files[i] != files[j]
  }

  lemma MatchesOnlyItself(files: seq<string>, w: string)
    requires !Risky(w, false)
    ensures Matched(files)(w) == [w]
  {
    if IsPattern(Parse(w)) && Matching(files, w) != [] {
      var n := Matching(files, w)[0];
      assert n in Matching(files, w) && IsMatch(w, n);
      MatchedIsLive(Parse(w), n, Start);
    }
  }

  /** A listing of one name that expands a risky word to something else. */
  lemma RiskyExpands(w: string) returns (files: seq<string>)
    requires Risky(w, false)
    ensures IsListing(files) && Matched(files)(w) != [w]
  {
    var n := Instance(Parse(w), false);
    InstanceMatches(Parse(w), false);
    InstanceDiffers(w, false);
    files := [n];
    assert n in Matching(files, w);
    assert |Matching(files, w)| == 1;
  }

  /** Whatever files there are, a word stands for itself exactly when it is not risky. */
  lemma StandsForItselfIff(w: string)
    ensures (forall files | IsListing(files) :: Matched(files)(w) == [w]) <==> !Risky(w, false)
  {
    if Risky(w, false) {
      var files := RiskyExpands(w);
    } else {
      forall files ensures Matched(files)(w) == [w] { MatchesOnlyItself(files, w); }
    }
  }

  // ---- text after a name ----

  predicate AllClear(ps: seq<Piece>) {
    forall i | 0 <= i < |ps| :: Clear(ps[i])
  }

  predicate PatternChar(c: char) {
    c == '*' || c == '?' || c == '['
  }

  lemma OneMorePiece(x: Piece, ps: seq<Piece>)
    ensures IsPattern([x] + ps) <==> !x.Literal? || IsPattern(ps)
    ensures AllClear([x] + ps) <==> Clear(x) && AllClear(ps)
  {
    var all := [x] + ps;
    assert all[0] == x && forall i | 0 <= i < |ps| :: all[i + 1] == ps[i];
    if !x.Literal? { assert !all[0].Literal?; }
    if i :| 0 <= i < |ps| && !ps[i].Literal? { assert !all[i + 1].Literal?; }
    if !Clear(x) { assert !Clear(all[0]); }
    if i :| 0 <= i < |ps| && !Clear(ps[i]) { assert !Clear(all[i + 1]); }
  }

  /** Text without pattern characters in front of a word only settles where in a component the word begins. */
  lemma {:induction false} AfterPlainText(p: string, v: string, inside: bool)
    requires forall c | c in p :: !PatternChar(c)
    ensures IsPattern(Parse(p + v)) <==> IsPattern(Parse(v))
    ensures AllClear(Parse(p + v)) <==> AllClear(Parse(v))
    ensures Live(Parse(p + v), inside) <==> Live(Parse(v), if p == "" then inside else p[|p| - 1] != '/')
  {
    if p == "" {
      assert p + v == v;
    } else {
      assert p[0] in p && (p + v)[1..] == p[1..] + v;
      AfterPlainText(p[1..], v, p[0] != '/');
      OneMorePiece(Literal(p[0]), Parse(p[1..] + v));
      assert Parse(p + v) == [Literal(p[0])] + Parse(p[1..] + v);
      assert Parse(p + v)[1..] == Parse(p[1..] + v);
    }
  }

  // ---- two cases ----

  lemma {:induction false} SeekFinds(w: string, i: nat, k: nat)
    requires 0 < i <= k < |w| && w[k] == ']'
    requires forall j | i <= j < k :: w[j] != ']' && w[j] != '/'
    ensures Seek(w, i) == k
    decreases k - i
  {
    if i < k { SeekFinds(w, i + 1, k); }
  }

  lemma {:induction false} SeekFindsNone(w: string, i: nat)
    requires ']' !in w
    ensures Seek(w, i) == 0
    decreases |w| - i
  {
    if i < |w| && w[i] != '/' { SeekFindsNone(w, i + 1); }
  }

  /** A bracket that nothing closes is a character like any other. */
  lemma {:induction false} UnclosedIsNoPattern(w: string)
    requires forall c | c in w :: c != '*' && c != '?' && c != ']'
    ensures !IsPattern(Parse(w)) && AllClear(Parse(w))
  {
    if w != "" {
      SeekFindsNone(w, First(w) + 1);
      assert w[0] in w && forall c | c in w[1..] :: c in w;
      UnclosedIsNoPattern(w[1..]);
      OneMorePiece(Literal(w[0]), Parse(w[1..]));
    }
  }

  lemma ParsesBracket(w: string, k: nat)
    requires 2 <= k < |w| && w[0] == '[' && w[1] != '!' && w[1] != '/' && w[k] == ']'
    requires forall j | 2 <= j < k :: w[j] != ']' && w[j] != '/'
    ensures Parse(w) == [OneOf(false, w[1..k])] + Parse(w[k + 1..])
  {
    SeekFinds(w, 2, k);
    assert First(w) == 1 && Closing(w) == k;
  }

  lemma BracketParses(body: string, rest: string)
    requires body != "" && body[0] != '!' && forall c | c in body :: c != ']' && c != '/'
    ensures Parse(['['] + body + [']'] + rest) == [OneOf(false, body)] + Parse(rest)
  {
    var w := ['['] + body + [']'] + rest;
    var k := |body| + 1;
    assert w[1..k] == body && w[k + 1..] == rest && w[k] == ']';
    forall j | 1 <= j < k ensures w[j] != ']' && w[j] != '/' { assert w[j] == body[j - 1] && body[j - 1] in body; }
    assert w[1] == body[0];
    ParsesBracket(w, k);
  }

  /** A bracketed text, such as an address, is a pattern for names with one of its characters instead. */
  lemma BracketedIsRisky(body: string, rest: string)
    requires body != "" && body[0] != '!' && forall c | c in body :: c !in [']', '/', '-']
    requires forall c | c in rest :: !PatternChar(c)
    ensures Risky(['['] + body + [']'] + rest, true)
  {
    BracketParses(body, rest);
    var ps := Parse(['['] + body + [']'] + rest);
    assert rest + "" == rest;
    AfterPlainText(rest, "", true);
    OneMorePiece(OneOf(false, body), Parse(rest));
    assert ps[0] == OneOf(false, body) && ps[1..] == Parse(rest);
    FirstIsMember(body);
    assert body[0] in body && Takes(body[0], Inside) && In(ps[0], body[0]);
  }

  lemma FirstIsMember(body: string)
    requires body != "" && '-' !in body
    ensures Member(body, body[0])
  {
    assert |body| >= 2 ==> body[1] in body;
  }
}
