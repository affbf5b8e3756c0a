/** Certificates: registered domains, one TLS entry for each, and how far a failing name reaches. */
module Certificates {
  import opened Strings
  import opened Grouping

  // ---- registered domains ----

  /** `strings.TrimSuffix(host, ".")`: at most one dot goes. */
  function TrimDot(host: string): string {
    if |host| > 0 && host[|host| - 1] == '.' then host[..|host| - 1] else host
  }

  function LastTwo(parts: seq<string>): string
    requires |parts| >= 2
  {
    Join(parts[|parts| - 2..], '.')
  }

  function RegisteredDomain(host: string): string {
    var parts := Split(TrimDot(host));
    if |parts| < 2 then host else LastTwo(parts)
  }

  /** At least two labels, not counting an empty one after a final dot. */
  predicate Qualified(host: string) {
    '.' in TrimDot(host)
  }

  lemma OfTwoLabels(p: string, q: string)
    requires '.' !in p && '.' !in q
    ensures RegisteredDomain(p + "." + q) == p + "." + q
  {
  }

  lemma JoinOfTwo(p: string, q: string)
    ensures Join([p, q], '.') == p + "." + q
  {
  }

  /** The two labels of a qualified host's domain. */
  lemma DomainLabels(host: string) returns (p: string, q: string)
    requires Qualified(host)
    ensures RegisteredDomain(host) == p + "." + q && '.' !in p && '.' !in q
  {
    var parts := Split(TrimDot(host));
    p, q := parts[|parts| - 2], parts[|parts| - 1];
    assert parts[|parts| - 2..] == [p, q];
    JoinOfTwo(p, q);
  }

  /** Grouping by domain is stable under regrouping, for every string. */
  lemma RegisteredDomainIsIdempotent(host: string)
    ensures RegisteredDomain(RegisteredDomain(host)) == RegisteredDomain(host)
  {
    if Qualified(host) {
      var p, q := DomainLabels(host);
      OfTwoLabels(p, q);
    }
  }

  /** Writing a name with its final dot keeps its domain exactly when the name has two labels. */
  lemma TrailingDotIsIgnoredIffQualified(host: string)
    requires TrimDot(host) == host
    ensures RegisteredDomain(host + ".") == RegisteredDomain(host) <==> Qualified(host)
  {
  }

  /** The domain is the last two labels, one final dot not counted; a name with one label is its own domain. */
  lemma RegisteredDomainIs(host: string, front: string, p: string, q: string)
    requires '.' !in p && '.' !in q
    ensures var h := if |host| > 0 && host[|host| - 1] == '.' then host[..|host| - 1] else host;
            && (h == p + "." + q || h == front + "." + (p + "." + q) ==> RegisteredDomain(host) == p + "." + q)
            && ('.' !in h ==> RegisteredDomain(host) == host)
  {
    var h := TrimDot(host);
    SplitAtFirst(p, q);
    assert Split(q) == [q] && Split(p + "." + q) == [p] + [q];
    JoinOfTwo(p, q);
    assert LastTwo([p] + [q]) == p + "." + q by { assert ([p] + [q])[0..] == [p, q]; }
    if h == front + "." + (p + "." + q) {
      SplitConcat(front, p + "." + q);
      LastTwoOfConcat(Split(front), [p] + [q]);
    }
  }

  lemma TrimDotOfSubdomain(labels: string, host: string)
    requires host != ""
    ensures TrimDot(labels + "." + host) == labels + "." + TrimDot(host)
  {
  }

  /** A subdomain has its parent's domain, for every qualified parent. */
  lemma SubdomainsShareTheDomain(labels: string, host: string)
    requires Qualified(host)
    ensures RegisteredDomain(labels + "." + host) == RegisteredDomain(host)
  {
    var t := TrimDot(host);
    TrimDotOfSubdomain(labels, host);
    SplitConcat(labels, t);
    LastTwoOfConcat(Split(labels), Split(t));
  }

  lemma LastTwoOfConcat(a: seq<string>, b: seq<string>)
    requires |b| >= 2
    ensures LastTwo(a + b) == LastTwo(b)
  {
    assert (a + b)[|a + b| - 2..] == b[|b| - 2..];
  }

  /** Two names under one parent land in one entry exactly when the parent is qualified. */
  lemma SiblingsShareIffQualified(l: string, m: string, parent: string)
    requires '.' !in l && '.' !in m && l != m
    ensures RegisteredDomain(l + "." + parent) == RegisteredDomain(m + "." + parent) <==> Qualified(parent)
  {
    if Qualified(parent) {
      SubdomainsShareTheDomain(l, parent);
      SubdomainsShareTheDomain(m, parent);
    } else {
      OnlyLabel(l, parent);
      OnlyLabel(m, parent);
      CancelSuffix(l, m, "." + TrimDot(parent));
    }
  }

  lemma CancelSuffix(l: string, m: string, t: string)
    ensures l + t == m + t <==> l == m
  {
    if l + t == m + t {
      assert l == (l + t)[..|l + t| - |t|] && m == (m + t)[..|m + t| - |t|];
    }
  }

  lemma OnlyLabel(l: string, parent: string)
    requires '.' !in l && !Qualified(parent)
    ensures RegisteredDomain(l + "." + parent) == l + ("." + TrimDot(parent))
  {
    var t := TrimDot(parent);
    var h := l + "." + parent;
    if parent == "" {
      assert TrimDot(h) == l;
    } else {
      TrimDotOfSubdomain(l, parent);
      SplitAtFirst(l, t);
      assert ([l] + [t])[0..] == [l, t];
      JoinOfTwo(l, t);
    }
    assert l + "." + t == l + ("." + t);
  }

  // ---- grouping ----

  datatype Tls = Tls(hosts: seq<string>, secret: string)

  /** The distinct domains, by first appearance. */
  function Domains(hosts: seq<string>): seq<string> {
    Keys(RegisteredDomain, hosts)
  }

  /** The hosts of one domain, in input order. */
  function HostsOf(hosts: seq<string>, d: string): seq<string> {
    Members(RegisteredDomain, hosts, d)
  }

  /** `strings.ReplaceAll(d, ".", "-")`. */
  function Dashed(d: string): string {
    if |d| == 0 then "" else [if d[0] == '.' then '-' else d[0]] + Dashed(d[1..])
  }

  function SecretName(name: string, d: string, domains: nat): string {
    if domains > 1 then name + "-" + Dashed(d) + "-tls" else name + "-tls"
  }

  function TlsFor(name: string, hosts: seq<string>): seq<Tls> {
    var ds := Domains(hosts);
    seq(|ds|, i requires 0 <= i < |ds| => Tls(HostsOf(hosts, ds[i]), SecretName(name, ds[i], |ds|)))
  }

  /** The grouping loop; `domainOf` is `registeredDomain`. */
  method GroupHosts(domainOf: string -> string, hosts: seq<string>)
    returns (order: seq<string>, byDomain: map<string, seq<string>>)
    ensures order == Keys(domainOf, hosts)
    ensures forall d | d in order :: d in byDomain && byDomain[d] == Members(domainOf, hosts, d)
  {
    byDomain, order := map[], [];
    for i := 0 to |hosts|
      invariant order == Keys(domainOf, hosts[..i])
      invariant forall d :: d in byDomain <==> d in order
      invariant forall d | d in byDomain :: byDomain[d] == Members(domainOf, hosts[..i], d)
    {
      var h := hosts[i];
      var d := domainOf(h);
      GroupStep(domainOf, hosts, i);
      if d !in byDomain {
        order := order + [d];
      }
      byDomain := byDomain[d := (if d in byDomain then byDomain[d] else []) + [h]];
    }
    assert hosts[..|hosts|] == hosts;
  }

  /** The naming loop. */
  method NameSecrets(name: string, order: seq<string>, byDomain: map<string, seq<string>>) returns (tls: seq<Tls>)
    requires forall d | d in order :: d in byDomain
    ensures |tls| == |order|
    ensures forall i | 0 <= i < |order| :: tls[i] == Tls(byDomain[order[i]], SecretName(name, order[i], |order|))
  {
    tls := [];
    for i := 0 to |order|
      invariant |tls| == i
      invariant forall k | 0 <= k < i :: tls[k] == Tls(byDomain[order[k]], SecretName(name, order[k], |order|))
    {
      var d := order[i];
      var secret := name + "-tls";
      if |order| > 1 {
        secret := name + "-" + Dashed(d) + "-tls";
      }
      tls := tls + [Tls(byDomain[d], secret)];
    }
  }

  method TlsPerRegisteredDomain(name: string, hosts: seq<string>) returns (tls: seq<Tls>)
    ensures tls == TlsFor(name, hosts)
  {
    var order, byDomain := GroupHosts(RegisteredDomain, hosts);
    tls := NameSecrets(name, order, byDomain);
  }

  // ---- the grouping is a stable partition ----

  /** What the TLS entries hold, in their order. */
  function TlsHosts(tls: seq<Tls>): seq<string> {
    if |tls| == 0 then [] else TlsHosts(tls[..|tls| - 1]) + tls[|tls| - 1].hosts
  }

  lemma {:induction false} TlsHostsAreGathered(name: string, hosts: seq<string>, n: nat)
    requires n <= |TlsFor(name, hosts)|
    ensures TlsHosts(TlsFor(name, hosts)[..n]) == Gathered(RegisteredDomain, hosts, Domains(hosts)[..n])
  {
    if n > 0 {
      TlsHostsAreGathered(name, hosts, n - 1);
      assert TlsFor(name, hosts)[..n][..n - 1] == TlsFor(name, hosts)[..n - 1];
      assert Domains(hosts)[..n][..n - 1] == Domains(hosts)[..n - 1];
    }
  }

  /**
   * The entries are a stable partition of the hosts: every host as often as it was given, one entry a
   * domain, entries by first appearance of their domain, hosts of an entry in input order.
   */
  lemma TlsIsAStablePartition(name: string, hosts: seq<string>)
    ensures multiset(TlsHosts(TlsFor(name, hosts))) == multiset(hosts)
    ensures forall i, j | 0 <= i < j < |Domains(hosts)| ::
              && Domains(hosts)[i] != Domains(hosts)[j]
              && FirstAt(RegisteredDomain, hosts, Domains(hosts)[i]) < FirstAt(RegisteredDomain, hosts, Domains(hosts)[j])
    ensures forall i | 0 <= i < |TlsFor(name, hosts)| ::
              InOrder(RegisteredDomain, hosts, TlsFor(name, hosts)[i].hosts, Domains(hosts)[i])
  {
    var n := |TlsFor(name, hosts)|;
    TlsHostsAreGathered(name, hosts, n);
    assert TlsFor(name, hosts)[..n] == TlsFor(name, hosts) && Domains(hosts)[..n] == Domains(hosts);
    GroupsArePartition(RegisteredDomain, hosts);
    KeysAreDistinct(RegisteredDomain, hosts);
    KeysByFirstAppearance(RegisteredDomain, hosts);
    forall i | 0 <= i < n ensures InOrder(RegisteredDomain, hosts, TlsFor(name, hosts)[i].hosts, Domains(hosts)[i]) {
      MembersAreInOrder(RegisteredDomain, hosts, Domains(hosts)[i]);
    }
  }

  // ---- failure isolation ----

  /** Section 7.1.6 of RFC 8555: an order becomes ready only when all of its names have validated. */
  predicate Issues(entry: Tls, failing: set<string>) {
    forall h | h in entry.hosts :: h !in failing
  }

  lemma InEntryIffDomain(name: string, hosts: seq<string>, i: nat, h: string)
    requires i < |TlsFor(name, hosts)|
    ensures h in TlsFor(name, hosts)[i].hosts <==> h in hosts && RegisteredDomain(h) == Domains(hosts)[i]
  {
    IsMember(RegisteredDomain, hosts, Domains(hosts)[i], h);
  }

  /** Each host is on exactly one entry. */
  lemma OneEntryPerHost(name: string, hosts: seq<string>, h: string) returns (i: nat)
    requires h in hosts
    ensures i < |TlsFor(name, hosts)| && h in TlsFor(name, hosts)[i].hosts
    ensures forall j | 0 <= j < |TlsFor(name, hosts)| && h in TlsFor(name, hosts)[j].hosts :: j == i
  {
    KeysAreDistinct(RegisteredDomain, hosts);
    KeyOfElement(RegisteredDomain, hosts, RegisteredDomain(h));
    i :| 0 <= i < |Domains(hosts)| && Domains(hosts)[i] == RegisteredDomain(h);
    InEntryIffDomain(name, hosts, i, h);
    forall j | 0 <= j < |TlsFor(name, hosts)| && h in TlsFor(name, hosts)[j].hosts ensures j == i {
      InEntryIffDomain(name, hosts, j, h);
    }
  }

  /** A host's certificate issues exactly when no host of its own registered domain fails, whatever else does. */
  lemma FailureIsIsolated(name: string, hosts: seq<string>, failing: set<string>, h: string, i: nat)
    requires i < |TlsFor(name, hosts)| && h in TlsFor(name, hosts)[i].hosts
    ensures Issues(TlsFor(name, hosts)[i], failing)
            <==> forall g | g in hosts && RegisteredDomain(g) == RegisteredDomain(h) :: g !in failing
  {
    InEntryIffDomain(name, hosts, i, h);
    forall g ensures g in TlsFor(name, hosts)[i].hosts
                     <==> g in hosts && RegisteredDomain(g) == RegisteredDomain(h) {
      InEntryIffDomain(name, hosts, i, g);
    }
  }

  datatype IngressSpec = IngressSpec(tls: bool, hosts: seq<string>)

  datatype Ingress = Ingress(ruleHosts: seq<string>, tls: seq<Tls>)

  method BuildIngress(name: string, spec: IngressSpec) returns (ing: Ingress)
    ensures ing.ruleHosts == spec.hosts
    ensures ing.tls == if spec.tls then TlsFor(name, spec.hosts) else []
  {
    var rules: seq<string> := [];
    for i := 0 to |spec.hosts|
      invariant rules == spec.hosts[..i]
    {
      rules := rules + [spec.hosts[i]];
    }
    var tls: seq<Tls> := [];
    if spec.tls && |spec.hosts| > 0 {
      tls := TlsPerRegisteredDomain(name, spec.hosts);
    }
    ing := Ingress(rules, tls);
  }

  // ---- secret names ----

  lemma {:induction false} DashedLabel(s: string)
    requires '.' !in s
    ensures Dashed(s) == s
  {
    if |s| > 0 {
      assert s == [s[0]] + s[1..];
      DashedLabel(s[1..]);
    }
  }

  lemma {:induction false} DashedConcat(s: string, t: string)
    ensures Dashed(s + t) == Dashed(s) + Dashed(t)
  {
    if |s| == 0 {
      assert s + t == t;
    } else {
      assert (s + t)[1..] == s[1..] + t;
      DashedConcat(s[1..], t);
    }
  }

  lemma DashedPair(p: string, q: string)
    requires '.' !in p && '.' !in q
    ensures Dashed(p + "." + q) == p + "-" + q
  {
    DashedConcat(p + ".", q);
    DashedConcat(p, ".");
    DashedLabel(p);
    DashedLabel(q);
    assert Dashed(".") == "-";
  }

  lemma {:induction false} DashedAt(s: string)
    ensures |Dashed(s)| == |s|
    ensures forall k | 0 <= k < |s| :: Dashed(s)[k] == if s[k] == '.' then '-' else s[k]
  {
    if |s| > 0 { DashedAt(s[1..]); }
  }

  predicate DotOrHyphen(c: char) {
    c == '.' || c == '-'
  }

  /** The strings differ at most in which of their separators are dots. */
  ghost predicate SameButDots(d: string, e: string) {
    |d| == |e| && forall k | 0 <= k < |d| :: d[k] == e[k] || (DotOrHyphen(d[k]) && DotOrHyphen(e[k]))
  }

  lemma DashedEqualIffSameButDots(d: string, e: string)
    ensures Dashed(d) == Dashed(e) <==> SameButDots(d, e)
  {
    DashedAt(d);
    DashedAt(e);
    if Dashed(d) == Dashed(e) {
      forall k | 0 <= k < |d| ensures d[k] == e[k] || (DotOrHyphen(d[k]) && DotOrHyphen(e[k])) {
        assert Dashed(d)[k] == Dashed(e)[k];
      }
    }
  }

  /** `p.q` and `p'.q'` differ only in which hyphen of one string is the dot. */
  ghost predicate DotMoves(p: string, q: string, p': string, q': string) {
    exists x :: p' == p + "-" + x && q == x + "-" + q'
  }

  lemma DashedShift(p: string, q: string, p': string, q': string)
    requires p + "-" + q == p' + "-" + q' && |p| < |p'|
    ensures DotMoves(p, q, p', q')
  {
    var s := p + "-" + q;
    var x := p'[|p| + 1..];
    assert p' == s[..|p'|] && q' == s[|p'| + 1..];
    assert p == s[..|p|] && q == s[|p| + 1..] && s[|p|] == '-' && s[|p'|] == '-';
    assert p' == p + "-" + x;
    assert q == x + "-" + q';
  }

  lemma DotMovesCollides(p: string, q: string, p': string, q': string)
    requires DotMoves(p, q, p', q')
    ensures p + "-" + q == p' + "-" + q'
  {
  }

  lemma SameCut(p: string, q: string, p': string, q': string)
    requires |p| == |p'|
    ensures p + "-" + q == p' + "-" + q' <==> p == p' && q == q'
  {
    var s, s' := p + "-" + q, p' + "-" + q';
    if s == s' {
      assert p == s[..|p|] && p' == s'[..|p|];
      assert q == s[|p| + 1..] && q' == s'[|p| + 1..];
    }
  }

  /** Replacing dots by hyphens confuses two different domains exactly when moving the dot turns one into the other. */
  lemma DashedCollidesIffDotMoves(p: string, q: string, p': string, q': string)
    requires '.' !in p && '.' !in q && '.' !in p' && '.' !in q'
    requires p + "." + q != p' + "." + q'
    ensures Dashed(p + "." + q) == Dashed(p' + "." + q') <==> DotMoves(p, q, p', q') || DotMoves(p', q', p, q)
  {
    DashedPair(p, q);
    DashedPair(p', q');
    if DotMoves(p, q, p', q') { DotMovesCollides(p, q, p', q'); }
    if DotMoves(p', q', p, q) { DotMovesCollides(p', q', p, q); }
    if p + "-" + q == p' + "-" + q' {
      if |p| < |p'| {
        DashedShift(p, q, p', q');
      } else if |p'| < |p| {
        DashedShift(p', q', p, q);
      } else {
        SameCut(p, q, p', q');
      }
    }
  }

  /** The label after a qualified domain's dot. */
  function LastLabel(d: string): string {
    var ls := Split(d);
    ls[|ls| - 1]
  }

  lemma LastLabelOfPair(p: string, q: string)
    requires '.' !in p && '.' !in q
    ensures FirstLabel(p + "." + q) == p && LastLabel(p + "." + q) == q
  {
  }

  function FirstLabel(d: string): string {
    Split(d)[0]
  }

  lemma SecretsEqualIffDashedEqual(name: string, d: string, e: string)
    ensures name + "-" + Dashed(d) + "-tls" == name + "-" + Dashed(e) + "-tls" <==> Dashed(d) == Dashed(e)
  {
    var s, t := name + "-" + Dashed(d) + "-tls", name + "-" + Dashed(e) + "-tls";
    if s == t {
      assert |Dashed(d)| == |Dashed(e)|;
      assert s[|name| + 1..|name| + 1 + |Dashed(d)|] == Dashed(d);
      assert t[|name| + 1..|name| + 1 + |Dashed(e)|] == Dashed(e);
    }
  }

  /** A registered domain has one dot at most, with or without labels around it. */
  ghost predicate OneDotAtMost(d: string) {
    '.' in d ==> d == FirstLabel(d) + "." + LastLabel(d) && '.' !in FirstLabel(d) && '.' !in LastLabel(d)
  }

  lemma DomainHasOneDotAtMost(host: string)
    ensures OneDotAtMost(RegisteredDomain(host))
  {
    var t := TrimDot(host);
    if Qualified(host) {
      var p, q := DomainLabels(host);
      LastLabelOfPair(p, q);
    } else if t != host {
      assert host == t + "." + "";
      LastLabelOfPair(t, "");
    }
  }

  /** Two dotted domains collide when the dot moves over a hyphen, a dotted and an undotted one when the dot becomes one. */
  ghost predicate Collide(d: string, e: string) {
    if '.' in d && '.' in e then
      || DotMoves(FirstLabel(d), LastLabel(d), FirstLabel(e), LastLabel(e))
      || DotMoves(FirstLabel(e), LastLabel(e), FirstLabel(d), LastLabel(d))
    else if '.' in d then e == FirstLabel(d) + "-" + LastLabel(d)
    else '.' in e && d == FirstLabel(e) + "-" + LastLabel(e)
  }

  lemma DashedEqualIffCollide(d: string, e: string)
    requires d != e && OneDotAtMost(d) && OneDotAtMost(e)
    ensures Dashed(d) == Dashed(e) <==> Collide(d, e)
  {
    if '.' in d && '.' in e {
      DashedCollidesIffDotMoves(FirstLabel(d), LastLabel(d), FirstLabel(e), LastLabel(e));
    } else if '.' in d {
      DashedPair(FirstLabel(d), LastLabel(d));
      DashedLabel(e);
    } else if '.' in e {
      DashedPair(FirstLabel(e), LastLabel(e));
      DashedLabel(d);
    } else {
      DashedLabel(d);
      DashedLabel(e);
    }
  }

  /** For every list of hosts: two entries share a secret exactly when their domains differ only in dots and hyphens. */
  lemma SecretsSharedIffSameButDots(name: string, hosts: seq<string>, i: nat, j: nat)
    requires i < j < |TlsFor(name, hosts)|
    ensures TlsFor(name, hosts)[i].secret == TlsFor(name, hosts)[j].secret
            <==> SameButDots(Domains(hosts)[i], Domains(hosts)[j])
  {
    SecretsEqualIffDashedEqual(name, Domains(hosts)[i], Domains(hosts)[j]);
    DashedEqualIffSameButDots(Domains(hosts)[i], Domains(hosts)[j]);
  }

  /** Which domains those are: the dot of one moves over a hyphen or becomes one. */
  lemma SecretsSharedIffDomainsCollide(name: string, hosts: seq<string>, i: nat, j: nat)
    requires i < j < |TlsFor(name, hosts)|
    ensures TlsFor(name, hosts)[i].secret == TlsFor(name, hosts)[j].secret
            <==> Collide(Domains(hosts)[i], Domains(hosts)[j])
  {
    var d, e := Domains(hosts)[i], Domains(hosts)[j];
    KeysAreDistinct(RegisteredDomain, hosts);
    DomainIsOfAHost(hosts, d);
    DomainIsOfAHost(hosts, e);
    DashedEqualIffCollide(d, e);
    SecretsEqualIffDashedEqual(name, d, e);
  }

  lemma NoMoveWithoutHyphen(p: string, q: string, p': string, q': string)
    requires '-' !in q
    ensures !DotMoves(p, q, p', q')
  {
    forall x: string ensures q != x + "-" + q' { assert (x + "-" + q')[|x|] == '-'; }
  }

  lemma NoCollisionWithoutHyphen(d: string, e: string)
    requires '-' !in LastLabel(d) && '-' !in LastLabel(e)
    ensures !Collide(d, e)
  {
    NoMoveWithoutHyphen(FirstLabel(d), LastLabel(d), FirstLabel(e), LastLabel(e));
    NoMoveWithoutHyphen(FirstLabel(e), LastLabel(e), FirstLabel(d), LastLabel(d));
    LabelOfUndotted(d);
    LabelOfUndotted(e);
    assert '-' in FirstLabel(d) + "-" + LastLabel(d) by { HyphenBetween(FirstLabel(d), LastLabel(d)); }
    assert '-' in FirstLabel(e) + "-" + LastLabel(e) by { HyphenBetween(FirstLabel(e), LastLabel(e)); }
  }

  lemma HyphenBetween(p: string, q: string)
    ensures '-' in p + "-" + q
  {
    assert (p + "-" + q)[|p|] == '-';
  }

  /** So hyphen-free last labels keep all secrets apart, for every list of hosts. */
  lemma SecretNamesAreDistinct(name: string, hosts: seq<string>, i: nat, j: nat)
    requires i < j < |TlsFor(name, hosts)|
    requires forall d | d in Domains(hosts) :: '-' !in LastLabel(d)
    ensures TlsFor(name, hosts)[i].secret != TlsFor(name, hosts)[j].secret
  {
    SecretsSharedIffDomainsCollide(name, hosts, i, j);
    NoCollisionWithoutHyphen(Domains(hosts)[i], Domains(hosts)[j]);
  }

  lemma LabelOfUndotted(d: string)
    ensures '.' !in d ==> LastLabel(d) == d
  {
  }

  lemma DomainIsOfAHost(hosts: seq<string>, d: string)
    requires d in Domains(hosts)
    ensures OneDotAtMost(d)
  {
    KeyOfElement(RegisteredDomain, hosts, d);
    var h :| h in hosts && RegisteredDomain(h) == d;
    DomainHasOneDotAtMost(h);
  }

  /** Without that they do collide: `p.x-q` and `p-x.q` get one secret, for all labels p, x and q. */
  lemma SecretNamesCanCollide(name: string, p: string, x: string, q: string)
    requires '.' !in p && '.' !in x && '.' !in q
    ensures var tls := TlsFor(name, [p + "." + (x + "-" + q), (p + "-" + x) + "." + q]);
            |tls| == 2 && tls[0].secret == tls[1].secret
  {
    var d, e := p + "." + (x + "-" + q), (p + "-" + x) + "." + q;
    TwinDomains(p, x, q);
    TwoDomains(name, d, e);
  }

  lemma TwinDomains(p: string, x: string, q: string)
    requires '.' !in p && '.' !in x && '.' !in q
    ensures var d, e := p + "." + (x + "-" + q), (p + "-" + x) + "." + q;
            d != e && RegisteredDomain(d) == d && RegisteredDomain(e) == e && Dashed(d) == Dashed(e)
  {
    var y, r := x + "-" + q, p + "-" + x;
    NoDotAdded(x, q);
    NoDotAdded(p, x);
    OfTwoLabels(p, y);
    OfTwoLabels(r, q);
    DashedPair(p, y);
    DashedPair(r, q);
    DotMovesCollides(p, y, r, q);
    TwinsDiffer(p, y, r, q);
  }

  lemma NoDotAdded(s: string, t: string)
    requires '.' !in s && '.' !in t
    ensures '.' !in s + "-" + t
  {
  }

  lemma TwinsDiffer(p: string, y: string, r: string, q: string)
    requires |r| > |p| && r[|p|] == '-'
    ensures p + "." + y != r + "." + q
  {
    assert (p + "." + y)[|p|] == '.' && (r + "." + q)[|p|] == r[|p|];
  }

  lemma TwoDomains(name: string, d: string, e: string)
    requires d != e && RegisteredDomain(d) == d && RegisteredDomain(e) == e
    ensures |TlsFor(name, [d, e])| == 2
    ensures TlsFor(name, [d, e])[0].secret == TlsFor(name, [d, e])[1].secret <==> Dashed(d) == Dashed(e)
  {
    KeysOfTwo(RegisteredDomain, d, e);
    SecretsEqualIffDashedEqual(name, d, e);
  }

  /** The name without a domain in it is used exactly when all hosts share one domain. */
  lemma PlainSecretIffOneDomain(name: string, hosts: seq<string>, i: nat)
    requires i < |TlsFor(name, hosts)|
    ensures TlsFor(name, hosts)[i].secret == name + "-tls"
            <==> forall g, h | g in hosts && h in hosts :: RegisteredDomain(g) == RegisteredDomain(h)
  {
    OneKeyIffAllAgree(RegisteredDomain, hosts);
    assert |name + "-" + Dashed(Domains(hosts)[i]) + "-tls"| > |name + "-tls"|;
  }

  /**
   * The name of every secret, spelled out: `<name>-tls` when all hosts share one domain, and otherwise
   * `<name>-<dashed>-tls`, where `dashed` is the entry's domain with a hyphen for each dot.
   */
  lemma SecretIsNamedAfterItsDomain(name: string, hosts: seq<string>, i: nat, h: string, dashed: string)
    requires i < |TlsFor(name, hosts)| && h in TlsFor(name, hosts)[i].hosts
    requires |dashed| == |RegisteredDomain(h)|
    requires forall k | 0 <= k < |dashed| ::
               dashed[k] == if RegisteredDomain(h)[k] == '.' then '-' else RegisteredDomain(h)[k]
    ensures TlsFor(name, hosts)[i].secret ==
              if forall g | g in hosts :: RegisteredDomain(g) == RegisteredDomain(h) then name + "-tls"
              else name + "-" + dashed + "-tls"
  {
    InEntryIffDomain(name, hosts, i, h);
    DashedAt(RegisteredDomain(h));
    assert dashed == Dashed(Domains(hosts)[i]);
    PlainSecretIffOneDomain(name, hosts, i);
  }

  // ---- one certificate per brand ----

  datatype Brand = Brand(name: string, domain: string)

  function BrandHosts(b: Brand): seq<string> {
    ["api." + b.domain, "ws." + b.domain]
  }

  function CloudHosts(brands: seq<Brand>): seq<string> {
    if |brands| == 0 then [] else CloudHosts(brands[..|brands| - 1]) + BrandHosts(brands[|brands| - 1])
  }

  function CloudTls(cloud: string, brands: seq<Brand>): seq<Tls> {
    seq(|brands|, i requires 0 <= i < |brands| =>
      Tls(BrandHosts(brands[i]), cloud + "-api-" + brands[i].name + "-tls"))
  }

  /** The API Ingress of a cloud: both hosts of every brand are routed, and each brand has an entry. */
  method BuildCloudAPIIngress(cloud: string, tlsEnabled: bool, brands: seq<Brand>) returns (ing: Ingress)
    ensures ing.ruleHosts == CloudHosts(brands)
    ensures ing.tls == if tlsEnabled then CloudTls(cloud, brands) else []
    ensures |ing.ruleHosts| == 2 * |brands| && |ing.tls| == if tlsEnabled then |brands| else 0
    ensures forall i | 0 <= i < |brands| ::
              && ing.ruleHosts[2 * i] == "api." + brands[i].domain && ing.ruleHosts[2 * i + 1] == "ws." + brands[i].domain
              && (tlsEnabled ==>
                    ing.tls[i] == Tls(["api." + brands[i].domain, "ws." + brands[i].domain],
                                      cloud + "-api-" + brands[i].name + "-tls"))
  {
    var rules: seq<string>, tls: seq<Tls> := [], [];
    for i := 0 to |brands|
      invariant rules == CloudHosts(brands[..i])
      invariant tls == if tlsEnabled then CloudTls(cloud, brands[..i]) else []
    {
      var brand := brands[i];
      assert brands[..i + 1][..i] == brands[..i];
      var apiHost := "api." + brand.domain;
      var wsHost := "ws." + brand.domain;
      if tlsEnabled {
        tls := tls + [Tls([apiHost, wsHost], cloud + "-api-" + brand.name + "-tls")];
      }
      rules := rules + [apiHost, wsHost];
    }
    assert brands[..|brands|] == brands;
    CloudHostsAt(brands);
    ing := Ingress(rules, tls);
  }

  lemma {:induction false} CloudHostsAt(brands: seq<Brand>)
    ensures |CloudHosts(brands)| == 2 * |brands|
    ensures forall i | 0 <= i < |brands| ::
              CloudHosts(brands)[2 * i] == "api." + brands[i].domain && CloudHosts(brands)[2 * i + 1] == "ws." + brands[i].domain
  {
    if |brands| > 0 { CloudHostsAt(brands[..|brands| - 1]); }
  }

  /** The entries hold exactly the routed hosts, in their order. */
  lemma {:induction false} CloudEntriesCoverTheRules(cloud: string, brands: seq<Brand>)
    ensures TlsHosts(CloudTls(cloud, brands)) == CloudHosts(brands)
  {
    if |brands| > 0 {
      var n := |brands| - 1;
      CloudEntriesCoverTheRules(cloud, brands[..n]);
      assert CloudTls(cloud, brands)[..n] == CloudTls(cloud, brands[..n]);
    }
  }

  /** Two brands have one secret exactly when they have one name. */
  lemma BrandsShareSecretIffNamesEqual(cloud: string, brands: seq<Brand>, i: nat, j: nat)
    requires i < |brands| && j < |brands|
    ensures CloudTls(cloud, brands)[i].secret == CloudTls(cloud, brands)[j].secret <==> brands[i].name == brands[j].name
  {
    SameMiddle(cloud + "-api-", brands[i].name, brands[j].name, "-tls");
  }

  /** No host of a brand is a host of another domain's brand. */
  lemma BrandHostsMeetIffDomainsEqual(b: Brand, c: Brand)
    ensures (exists h :: h in BrandHosts(b) && h in BrandHosts(c)) <==> b.domain == c.domain
  {
    SameMiddle("api.", b.domain, c.domain, "");
    SameMiddle("ws.", b.domain, c.domain, "");
    Unpadded("api.", b.domain);
    Unpadded("api.", c.domain);
    Unpadded("ws.", b.domain);
    Unpadded("ws.", c.domain);
    assert ("api." + b.domain)[0] == 'a' && ("ws." + c.domain)[0] == 'w';
    assert ("api." + c.domain)[0] == 'a' && ("ws." + b.domain)[0] == 'w';
    if b.domain == c.domain { assert BrandHosts(b)[0] in BrandHosts(b); }
  }

  lemma Unpadded(front: string, a: string)
    ensures front + a + "" == front + a
  {
  }

  /**
   * When names fail that belong to the brands in `bad`, some of each, a brand's certificate is held up
   * exactly when one of those brands has its domain. Other brands' failures do not reach it.
   */
  lemma BrandFailureIsIsolated(cloud: string, brands: seq<Brand>, bad: set<nat>, failing: set<string>, i: nat)
    requires i < |brands| && forall j | j in bad :: j < |brands|
    requires forall h | h in failing :: exists j :: j in bad && h in BrandHosts(brands[j])
    requires forall j | j in bad :: exists h :: h in failing && h in BrandHosts(brands[j])
    ensures Issues(CloudTls(cloud, brands)[i], failing)
            <==> forall j | j in bad :: brands[j].domain != brands[i].domain
  {
    var b := brands[i];
    forall j | j in bad
      ensures (exists h :: h in BrandHosts(b) && h in BrandHosts(brands[j])) <==> brands[j].domain == b.domain
    {
      BrandHostsMeetIffDomainsEqual(b, brands[j]);
    }
    if j :| j in bad && brands[j].domain == b.domain {
      var h :| h in failing && h in BrandHosts(brands[j]);
      assert h in BrandHosts(b);
    }
  }
}
