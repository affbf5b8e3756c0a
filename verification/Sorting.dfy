/** What any correct sort returns, stable or not, and how selecting commutes with reordering. */
module Sorting {

  ghost predicate TotalPreorder<T(!new)>(le: (T, T) -> bool) {
    && (forall x, y :: le(x, y) || le(y, x))
    && (forall x, y, z :: le(x, y) && le(y, z) ==> le(x, z))
  }

  ghost predicate Sorted<T(!new)>(s: seq<T>, le: (T, T) -> bool) {
    forall i, j | 0 <= i < j < |s| :: le(s[i], s[j])
  }

  /** `le` ties no two different elements of `s`. */
  ghost predicate Separates<T(!new)>(s: seq<T>, le: (T, T) -> bool) {
    forall x, y | x in s && y in s && le(x, y) && le(y, x) :: x == y
  }

  ghost predicate IsSortOf<T(!new)>(r: seq<T>, s: seq<T>, le: (T, T) -> bool) {
    multiset(r) == multiset(s) && Sorted(r, le)
  }

  function Insert<T(!new)>(x: T, s: seq<T>, le: (T, T) -> bool): (r: seq<T>)
    ensures multiset(r) == multiset{x} + multiset(s)
  {
    if |s| == 0 then [x]
    else if le(x, s[0]) then [x] + s
    else
      TailMultiset(s);
      [s[0]] + Insert(x, s[1..], le)
  }

  lemma {:induction false} InsertSorts<T(!new)>(x: T, s: seq<T>, le: (T, T) -> bool)
    requires TotalPreorder(le) && Sorted(s, le)
    ensures Sorted(Insert(x, s, le), le)
  {
    if |s| > 0 && !le(x, s[0]) {
      var rest := Insert(x, s[1..], le);
      InsertSorts(x, s[1..], le);
      forall k | 0 <= k < |rest| ensures le(s[0], rest[k]) {
        assert rest[k] in multiset(rest);
        assert rest[k] == x || rest[k] in s[1..];
      }
    }
  }

  /** One correct sort. `SortUnique` says when every other one agrees with it. */
  function Sort<T(!new)>(s: seq<T>, le: (T, T) -> bool): (r: seq<T>)
    requires TotalPreorder(le)
    ensures IsSortOf(r, s, le)
    ensures |r| == |s|
  {
    if |s| == 0 then []
    else
      var rest := Sort(s[1..], le);
      InsertSorts(s[0], rest, le);
      TailMultiset(s);
      var r := Insert(s[0], rest, le);
      assert |multiset(r)| == |multiset(s)|;
      r
  }

  lemma SortedHeadsTie<T(!new)>(a: seq<T>, b: seq<T>, le: (T, T) -> bool)
    requires TotalPreorder(le)
    requires |a| > 0 && |b| > 0 && b[0] in a && Sorted(a, le)
    ensures le(a[0], b[0])
  {
  }

  lemma TailMultiset<T>(a: seq<T>)
    requires |a| > 0
    ensures multiset(a) - multiset{a[0]} == multiset(a[1..])
  {
    assert a == [a[0]] + a[1..];
  }

  /** Two sorts of the same elements agree when the order separates them. */
  lemma {:induction false} SortUnique<T(!new)>(a: seq<T>, b: seq<T>, le: (T, T) -> bool)
    requires TotalPreorder(le)
    requires multiset(a) == multiset(b) && Sorted(a, le) && Sorted(b, le)
    requires Separates(a, le)
    ensures a == b
  {
    assert |a| == |multiset(a)| == |multiset(b)| == |b|;
    if |a| > 0 {
      assert a[0] in multiset(b) && b[0] in multiset(a);
      SortedHeadsTie(a, b, le);
      SortedHeadsTie(b, a, le);
      assert a[0] == b[0];
      TailMultiset(a);
      TailMultiset(b);
      assert multiset(a[1..]) == multiset(b[1..]);
      SortUnique(a[1..], b[1..], le);
    }
  }

  /** Replace every element by the list `f` makes of it. */
  function FlatMap<A, B>(f: A -> seq<B>, s: seq<A>): seq<B> {
    if |s| == 0 then [] else FlatMap(f, s[..|s| - 1]) + f(s[|s| - 1])
  }

  lemma {:induction false} FlatMapConcat<A, B>(f: A -> seq<B>, s: seq<A>, t: seq<A>)
    ensures FlatMap(f, s + t) == FlatMap(f, s) + FlatMap(f, t)
  {
    if |t| == 0 {
      assert s + t == s;
    } else {
      assert (s + t)[..|s + t| - 1] == s + t[..|t| - 1];
      FlatMapConcat(f, s, t[..|t| - 1]);
    }
  }

  lemma RemoveAt<T>(t: seq<T>, k: nat)
    requires k < |t|
    ensures multiset(t[..k] + t[k + 1..]) == multiset(t) - multiset{t[k]}
  {
    assert t == t[..k] + ([t[k]] + t[k + 1..]);
  }

  lemma MiddleOut<B>(a: seq<B>, x: seq<B>, b: seq<B>)
    ensures multiset((a + x) + b) == multiset(a + b) + multiset(x)
  {
  }

  lemma {:induction false} FlatMapAround<A, B>(f: A -> seq<B>, t: seq<A>, k: nat)
    requires k < |t|
    ensures multiset(FlatMap(f, t)) == multiset(FlatMap(f, t[..k] + t[k + 1..])) + multiset(f(t[k]))
  {
    var before, after := t[..k], t[k + 1..];
    assert t == t[..k + 1] + after;
    assert t[..k + 1][..k] == before;
    FlatMapConcat(f, t[..k + 1], after);
    FlatMapConcat(f, before, after);
    MiddleOut(FlatMap(f, before), f(t[k]), FlatMap(f, after));
  }

  /** Flattening permuted lists gives permuted lists. */
  lemma {:induction false} FlatMapPermutes<A, B>(f: A -> seq<B>, s: seq<A>, t: seq<A>)
    requires multiset(s) == multiset(t)
    ensures multiset(FlatMap(f, s)) == multiset(FlatMap(f, t))
    decreases |s|
  {
    if |s| == 0 {
      assert |multiset(t)| == 0;
    } else {
      var n := |s| - 1;
      assert s[n] in multiset(t);
      var k :| 0 <= k < |t| && t[k] == s[n];
      RemoveAt(s, n);
      RemoveAt(t, k);
      assert s[..n] + s[n + 1..] == s[..n];
      FlatMapPermutes(f, s[..n], t[..k] + t[k + 1..]);
      FlatMapAround(f, t, k);
    }
  }

  lemma {:induction false} FlatMapOfSingletons<A, B>(f: A -> seq<B>, s: seq<A>)
    requires forall x | x in s :: |f(x)| == 1
    ensures |FlatMap(f, s)| == |s|
    ensures forall i | 0 <= i < |s| :: FlatMap(f, s)[i] == f(s[i])[0]
  {
    if |s| > 0 {
      var n := |s| - 1;
      FlatMapOfSingletons(f, s[..n]);
      assert |f(s[n])| == 1;
    }
  }
}
