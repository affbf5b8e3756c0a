/** Byte-wise string order, splitting at dots, and decimal rendering. */
module Strings {

  /** Go's `<=` on strings: the order `sort.Slice` and `sort` compare keys in. */
  predicate Le(a: string, b: string) {
    |a| == 0 || (|b| > 0 && (a[0] < b[0] || (a[0] == b[0] && Le(a[1..], b[1..]))))
  }

  lemma {:induction false} LeTotal(a: string, b: string)
    ensures Le(a, b) || Le(b, a)
  {
    if |a| > 0 && |b| > 0 && a[0] == b[0] { LeTotal(a[1..], b[1..]); }
  }

  lemma {:induction false} LeAntisymmetric(a: string, b: string)
    requires Le(a, b) && Le(b, a)
    ensures a == b
  {
    if |a| > 0 {
      LeAntisymmetric(a[1..], b[1..]);
      assert a == [a[0]] + a[1..] && b == [b[0]] + b[1..];
    }
  }

  lemma {:induction false} LeTransitive(a: string, b: string, c: string)
    requires Le(a, b) && Le(b, c)
    ensures Le(a, c)
  {
    if |a| > 0 && a[0] == b[0] == c[0] { LeTransitive(a[1..], b[1..], c[1..]); }
  }

  /** Strings whose heads have equal length compare head first. */
  lemma {:induction false} LeConcat(a: string, b: string, c: string, d: string)
    requires |a| == |c|
    ensures Le(a + b, c + d) <==> (a != c && Le(a, c)) || (a == c && Le(b, d))
  {
    if |a| == 0 {
      assert a + b == b && c + d == d;
    } else {
      assert (a + b)[1..] == a[1..] + b && (c + d)[1..] == c[1..] + d;
      assert a == [a[0]] + a[1..] && c == [c[0]] + c[1..];
      LeConcat(a[1..], b, c[1..], d);
    }
  }

  function Digit(n: nat): char
    requires n < 10
  {
    (48 + n) as char
  }

  function Digits(n: nat): string {
    if n < 10 then [Digit(n)] else Digits(n / 10) + [Digit(n % 10)]
  }

  /** `%d`. */
  function Decimal(n: int): string {
    if n < 0 then "-" + Digits(-n) else Digits(n)
  }

  function Pow10(w: nat): nat {
    if w == 0 then 1 else 10 * Pow10(w - 1)
  }

  /** `%0<w>d` for numbers of at most `w` digits. */
  function Padded(n: nat, w: nat): (s: string)
    ensures |s| == w
  {
    if w == 0 then [] else Padded(n / 10, w - 1) + [Digit(n % 10)]
  }

  /** Zero padding makes the byte order of equally wide numerals the numeric order. */
  lemma {:induction false} PaddedOrder(n: nat, m: nat, w: nat)
    requires n < Pow10(w) && m < Pow10(w)
    ensures Le(Padded(n, w), Padded(m, w)) <==> n <= m
    ensures Padded(n, w) == Padded(m, w) <==> n == m
  {
    if w > 0 {
      var a, c := Padded(n / 10, w - 1), Padded(m / 10, w - 1);
      var b, d := [Digit(n % 10)], [Digit(m % 10)];
      PaddedOrder(n / 10, m / 10, w - 1);
      LeConcat(a, b, c, d);
      assert Padded(n, w) == a + b && Padded(m, w) == c + d;
      assert b[0] == d[0] <==> n % 10 == m % 10;
      assert (a + b)[..w - 1] == a && (c + d)[..w - 1] == c;
      assert (a + b)[w - 1] == b[0] && (c + d)[w - 1] == d[0];
      assert Le(b, d) <==> n % 10 <= m % 10;
    }
  }

  /** The number a numeral stands for. */
  ghost function Value(s: string): int {
    if |s| == 0 then 0 else 10 * Value(s[..|s| - 1]) + (s[|s| - 1] as int - '0' as int)
  }

  /** `%d` prints digits that stand for the number, with no zero in front. */
  lemma {:induction false} DigitsReadBack(n: nat)
    ensures Value(Digits(n)) == n && forall c | c in Digits(n) :: '0' <= c <= '9'
    ensures |Digits(n)| > 0 && (Digits(n)[0] == '0' ==> n == 0)
  {
    var last := Digit(n % 10);
    assert last as int - '0' as int == n % 10;
    if n < 10 {
      assert Digits(n)[..0] == "";
    } else {
      DigitsReadBack(n / 10);
      assert Digits(n)[..|Digits(n)| - 1] == Digits(n / 10);
    }
  }

  /** `%0<w>d` prints as many digits as asked for, and they stand for the number when it fits. */
  lemma {:induction false} PaddedReadsBack(n: nat, w: nat)
    requires n < Pow10(w)
    ensures Value(Padded(n, w)) == n && forall c | c in Padded(n, w) :: '0' <= c <= '9'
  {
    if w > 0 {
      PaddedReadsBack(n / 10, w - 1);
      var s, last := Padded(n, w), Digit(n % 10);
      assert s == Padded(n / 10, w - 1) + [last];
      assert s[..|s| - 1] == Padded(n / 10, w - 1);
      assert last as int - '0' as int == n % 10;
    }
  }

  /** `strings.Split(s, ".")`. */
  function Split(s: string): (labels: seq<string>)
    ensures |labels| >= 1
    ensures forall i | 0 <= i < |labels| :: '.' !in labels[i]
    ensures Join(labels, '.') == s
    ensures |labels| == 1 <==> '.' !in s
  {
    if '.' !in s then [s]
    else
      var i := FirstDot(s);
      var rest := Split(s[i + 1..]);
      assert s == s[..i] + "." + s[i + 1..];
      assert ([s[..i]] + rest)[1..] == rest;
      [s[..i]] + rest
  }

  function FirstDot(s: string): (i: nat)
    requires '.' in s
    ensures i < |s| && s[i] == '.' && '.' !in s[..i]
  {
    if s[0] == '.' then 0
    else
      assert s == [s[0]] + s[1..];
      var j := FirstDot(s[1..]);
      assert s[..j + 1] == [s[0]] + s[1..][..j];
      j + 1
  }

  /** `strings.Join`, for a separator of one character. */
  function Join(labels: seq<string>, sep: char): string {
    if |labels| == 0 then "" else if |labels| == 1 then labels[0] else labels[0] + [sep] + Join(labels[1..], sep)
  }

  lemma FirstDotAfter(head: string, tail: string)
    requires '.' !in head
    ensures FirstDot(head + "." + tail) == |head|
  {
    var s := head + "." + tail;
    assert s[|head|] == '.';
    var i := FirstDot(s);
    assert forall k | 0 <= k < |head| :: s[k] == head[k] && head[k] in head;
    assert forall k | 0 <= k < i :: s[k] in s[..i];
  }

  /** Splitting undoes joining: dots inside a label are the only thing that could get in the way. */
  lemma {:induction false} SplitOfJoin(labels: seq<string>)
    requires |labels| >= 1
    requires forall i | 0 <= i < |labels| :: '.' !in labels[i]
    ensures Split(Join(labels, '.')) == labels
  {
    if |labels| > 1 {
      SplitOfJoin(labels[1..]);
      SplitAtFirst(labels[0], Join(labels[1..], '.'));
      assert labels == [labels[0]] + labels[1..];
    }
  }

  lemma SplitAtFirst(head: string, tail: string)
    requires '.' !in head
    ensures Split(head + "." + tail) == [head] + Split(tail)
  {
    var s := head + "." + tail;
    FirstDotAfter(head, tail);
    assert s[|head|] == '.';
    assert s[..|head|] == head && s[|head| + 1..] == tail;
  }

  lemma {:induction false} JoinConcat(a: seq<string>, b: seq<string>, sep: char)
    requires |a| >= 1 && |b| >= 1
    ensures Join(a + b, sep) == Join(a, sep) + [sep] + Join(b, sep)
  {
    if |a| == 1 {
      assert (a + b)[1..] == b;
    } else {
      JoinConcat(a[1..], b, sep);
      assert (a + b)[1..] == a[1..] + b;
      assert a[0] + [sep] + (Join(a[1..], sep) + [sep] + Join(b, sep))
          == (a[0] + [sep] + Join(a[1..], sep)) + [sep] + Join(b, sep);
    }
  }

  /** A dot between two strings separates their label lists. */
  lemma SplitConcat(s: string, t: string)
    ensures Split(s + "." + t) == Split(s) + Split(t)
  {
    JoinConcat(Split(s), Split(t), '.');
    SplitOfJoin(Split(s) + Split(t));
  }

  /** Only the middle can differ. */
  lemma SameMiddle(front: string, a: string, b: string, end: string)
    ensures front + a + end == front + b + end <==> a == b
  {
    var s, t := front + a + end, front + b + end;
    if s == t {
      assert a == s[|front|..|s| - |end|] && b == t[|front|..|t| - |end|];
    }
  }
}
