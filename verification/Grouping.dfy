/** Grouping a list by a key: the groups are a stable partition, in order of first appearance. */
module Grouping {

  /** The distinct keys, by first appearance. */
  function Keys<T, K(==)>(f: T -> K, s: seq<T>): seq<K> {
    if |s| == 0 then []
    else
      var ks := Keys(f, s[..|s| - 1]);
      var k := f(s[|s| - 1]);
      if k in ks then ks else ks + [k]
  }

  /** The elements of one key, in input order. */
  function Members<T, K(==)>(f: T -> K, s: seq<T>, k: K): seq<T> {
    if |s| == 0 then []
    else Members(f, s[..|s| - 1], k) + if f(s[|s| - 1]) == k then [s[|s| - 1]] else []
  }

  lemma {:induction false} KeyOfElement<T, K>(f: T -> K, s: seq<T>, k: K)
    ensures k in Keys(f, s) <==> exists x :: x in s && f(x) == k
  {
    if |s| > 0 {
      var n := |s| - 1;
      assert s == s[..n] + [s[n]];
      KeyOfElement(f, s[..n], k);
    }
  }

  lemma {:induction false} KeysAreDistinct<T, K>(f: T -> K, s: seq<T>)
    ensures forall i, j | 0 <= i < j < |Keys(f, s)| :: Keys(f, s)[i] != Keys(f, s)[j]
  {
    if |s| > 0 { KeysAreDistinct(f, s[..|s| - 1]); }
  }

  /** Where a key first appears. */
  function FirstAt<T, K(==)>(f: T -> K, s: seq<T>, k: K): (i: nat)
    ensures i <= |s|
    ensures forall j | 0 <= j < i :: f(s[j]) != k
    ensures i < |s| ==> f(s[i]) == k
  {
    if |s| == 0 || f(s[0]) == k then 0 else FirstAt(f, s[1..], k) + 1
  }

  lemma FirstAtPrefix<T, K>(f: T -> K, s: seq<T>, n: nat, k: K)
    requires n <= |s| && k in Keys(f, s[..n])
    ensures FirstAt(f, s, k) == FirstAt(f, s[..n], k) < n
  {
    KeyOfElement(f, s[..n], k);
    var x :| x in s[..n] && f(x) == k;
    var j :| 0 <= j < n && s[..n][j] == x;
    var a, b := FirstAt(f, s, k), FirstAt(f, s[..n], k);
    assert s[j] == x && a <= j && b <= j;
    assert s[..n][a] == s[a] && s[..n][b] == s[b];
  }

  lemma {:induction false} KeysByFirstAppearance<T, K>(f: T -> K, s: seq<T>)
    ensures forall i, j | 0 <= i < j < |Keys(f, s)| :: FirstAt(f, s, Keys(f, s)[i]) < FirstAt(f, s, Keys(f, s)[j])
  {
    if |s| > 0 {
      var n := |s| - 1;
      var ks := Keys(f, s[..n]);
      KeysByFirstAppearance(f, s[..n]);
      forall k | k in ks ensures FirstAt(f, s, k) == FirstAt(f, s[..n], k) < n {
        FirstAtPrefix(f, s, n, k);
      }
      if f(s[n]) !in ks {
        KeyOfElement(f, s[..n], f(s[n]));
        forall j | 0 <= j < n ensures f(s[j]) != f(s[n]) { assert s[j] in s[..n]; }
      }
    }
  }

  /** The input positions that the members of one key come from. */
  function Positions<T, K(==)>(f: T -> K, s: seq<T>, k: K): seq<nat> {
    if |s| == 0 then []
    else Positions(f, s[..|s| - 1], k) + if f(s[|s| - 1]) == k then [|s| - 1] else []
  }

  /** Members come from ascending positions, and from every position of their key. */
  lemma {:induction false} MembersKeepOrder<T, K>(f: T -> K, s: seq<T>, k: K)
    ensures var ps := Positions(f, s, k);
            && |ps| == |Members(f, s, k)|
            && (forall i | 0 <= i < |ps| :: ps[i] < |s| && s[ps[i]] == Members(f, s, k)[i])
            && (forall i, j | 0 <= i < j < |ps| :: ps[i] < ps[j])
  {
    if |s| > 0 {
      var n := |s| - 1;
      MembersKeepOrder(f, s[..n], k);
      var ps0 := Positions(f, s[..n], k);
      forall i | 0 <= i < |ps0| ensures s[ps0[i]] == Members(f, s[..n], k)[i] {
        assert s[..n][ps0[i]] == s[ps0[i]];
      }
    }
  }

  lemma {:induction false} PositionsAreAll<T, K>(f: T -> K, s: seq<T>, k: K, i: nat)
    requires i < |s|
    ensures i in Positions(f, s, k) <==> f(s[i]) == k
  {
    var n := |s| - 1;
    if i < n {
      PositionsAreAll(f, s[..n], k, i);
    } else {
      forall j | j in Positions(f, s[..n], k) ensures j < n { PositionsBound(f, s[..n], k, j); }
    }
  }

  lemma {:induction false} PositionsBound<T, K>(f: T -> K, s: seq<T>, k: K, j: nat)
    requires j in Positions(f, s, k)
    ensures j < |s|
  {
    var n := |s| - 1;
    if j in Positions(f, s[..n], k) { PositionsBound(f, s[..n], k, j); }
  }

  lemma {:induction false} MembersCount<T, K>(f: T -> K, s: seq<T>, k: K, x: T)
    ensures multiset(Members(f, s, k))[x] == if f(x) == k then multiset(s)[x] else 0
  {
    if |s| > 0 {
      var n := |s| - 1;
      MembersCount(f, s[..n], k, x);
      assert s == s[..n] + [s[n]];
    }
  }

  lemma IsMember<T, K>(f: T -> K, s: seq<T>, k: K, x: T)
    ensures x in Members(f, s, k) <==> x in s && f(x) == k
  {
  }

  /** `group` lists the elements of key `k` by ascending input position, leaving none out. */
  ghost predicate InOrder<T, K>(f: T -> K, s: seq<T>, group: seq<T>, k: K) {
    exists ps: seq<nat> ::
      && |ps| == |group|
      && (forall i | 0 <= i < |ps| :: ps[i] < |s| && s[ps[i]] == group[i])
      && (forall i, j | 0 <= i < j < |ps| :: ps[i] < ps[j])
      && (forall i: nat | i < |s| :: i in ps <==> f(s[i]) == k)
  }

  lemma MembersAreInOrder<T, K>(f: T -> K, s: seq<T>, k: K)
    ensures InOrder(f, s, Members(f, s, k), k)
  {
    MembersKeepOrder(f, s, k);
    forall i: nat | i < |s| ensures i in Positions(f, s, k) <==> f(s[i]) == k { PositionsAreAll(f, s, k, i); }
  }

  /** What one more element does to the keys and to every group. */
  lemma GroupStep<T, K>(f: T -> K, s: seq<T>, n: nat)
    requires n < |s|
    ensures Keys(f, s[..n + 1]) == Keys(f, s[..n]) + if f(s[n]) in Keys(f, s[..n]) then [] else [f(s[n])]
    ensures Members(f, s[..n + 1], f(s[n])) == Members(f, s[..n], f(s[n])) + [s[n]]
    ensures forall k | k != f(s[n]) :: Members(f, s[..n + 1], k) == Members(f, s[..n], k)
    ensures f(s[n]) !in Keys(f, s[..n]) ==> Members(f, s[..n], f(s[n])) == []
  {
    var k := f(s[n]);
    assert s[..n + 1][..n] == s[..n];
    if k !in Keys(f, s[..n]) && Members(f, s[..n], k) != [] {
      IsMember(f, s[..n], k, Members(f, s[..n], k)[0]);
      KeyOfElement(f, s[..n], k);
    }
  }

  lemma OneKeyIffAllAgree<T, K>(f: T -> K, s: seq<T>)
    ensures |Keys(f, s)| <= 1 <==> forall x, y | x in s && y in s :: f(x) == f(y)
  {
  }

  lemma KeysOfTwo<T, K>(f: T -> K, x: T, y: T)
    requires f(x) != f(y)
    ensures Keys(f, [x, y]) == [f(x), f(y)]
  {
    GroupStep(f, [x, y], 0);
    GroupStep(f, [x, y], 1);
    assert [x, y][..2] == [x, y];
  }

  /** All groups, one after the other. */
  function Gathered<T, K(==)>(f: T -> K, s: seq<T>, ks: seq<K>): seq<T> {
    if |ks| == 0 then [] else Gathered(f, s, ks[..|ks| - 1]) + Members(f, s, ks[|ks| - 1])
  }

  lemma {:induction false} GatheredCount<T, K>(f: T -> K, s: seq<T>, ks: seq<K>, x: T)
    requires forall i, j | 0 <= i < j < |ks| :: ks[i] != ks[j]
    ensures multiset(Gathered(f, s, ks))[x] == if f(x) in ks then multiset(s)[x] else 0
  {
    if |ks| > 0 {
      var n := |ks| - 1;
      GatheredCount(f, s, ks[..n], x);
      MembersCount(f, s, ks[n], x);
      assert ks == ks[..n] + [ks[n]];
    }
  }

  lemma GatheredKeepsCount<T, K>(f: T -> K, s: seq<T>, x: T)
    ensures multiset(Gathered(f, s, Keys(f, s)))[x] == multiset(s)[x]
  {
    KeysAreDistinct(f, s);
    GatheredCount(f, s, Keys(f, s), x);
    if f(x) !in Keys(f, s) {
      KeyOfElement(f, s, f(x));
      assert x !in s;
    }
  }

  lemma GatheredKeepsCounts<T, K>(f: T -> K, s: seq<T>, g: seq<T>)
    requires g == Gathered(f, s, Keys(f, s))
    ensures forall x | x in g || x in s :: multiset(g)[x] == multiset(s)[x]
  {
    forall x | x in g || x in s ensures multiset(g)[x] == multiset(s)[x] { GatheredKeepsCount(f, s, x); }
  }

  lemma CountsDecide<T>(g: seq<T>, s: seq<T>)
    requires forall x | x in g || x in s :: multiset(g)[x] == multiset(s)[x]
    ensures multiset(g) == multiset(s)
  {
  }

  /** Together the groups hold every element exactly as often as the input does. */
  lemma GroupsArePartition<T, K>(f: T -> K, s: seq<T>)
    ensures multiset(Gathered(f, s, Keys(f, s))) == multiset(s)
  {
    GatheredKeepsCounts(f, s, Gathered(f, s, Keys(f, s)));
    CountsDecide(Gathered(f, s, Keys(f, s)), s);
  }
}
