/** Declarative apply: the per-kind merge into a live object, and what sequences of desired objects converge to. */
module Apply {
  import opened Wrappers
  import opened LabelSets

  datatype PodTemplate = PodTemplate(labels: Labels, annotations: Labels, body: string)

  datatype Kind =
    DeploymentKind | StatefulSetKind | ServiceKind | IngressKind | BudgetKind | AutoscalerKind | ConfigMapKind | OtherKind

  /**
   * The spec of an object, by kind. Fields the merge treats as one value are kept as text; `rest` stands
   * for the fields of a kind that the merge never mentions.
   */
  datatype Spec =
    | Deployment(replicas: Option<int>, minReady: int, strategy: string, template: PodTemplate,
                 selector: Option<Labels>, rest: string)
    | StatefulSet(replicas: Option<int>, minReady: int, strategy: string, template: PodTemplate,
                  selector: Option<Labels>, claims: seq<string>, serviceName: string, rest: string)
    | Service(ports: seq<string>, podSelector: Labels, serviceType: string, clusterIP: string, rest: string)
    | Ingress(content: string)
    | Budget(minAvailable: int, budgetSelector: Labels)
    | Autoscaler(content: string)
    | ConfigMap(data: Labels, binaryData: Labels, rest: string)
    | Other(content: string)

  function KindOf(s: Spec): Kind {
    match s
    case Deployment(_, _, _, _, _, _) => DeploymentKind
    case StatefulSet(_, _, _, _, _, _, _, _) => StatefulSetKind
    case Service(_, _, _, _, _) => ServiceKind
    case Ingress(_) => IngressKind
    case Budget(_, _) => BudgetKind
    case Autoscaler(_) => AutoscalerKind
    case ConfigMap(_, _, _) => ConfigMapKind
    case Other(_) => OtherKind
  }

  const NO_TEMPLATE := PodTemplate(map[], map[], "")

  /** The zero value of a kind: what a freshly allocated live object holds. */
  function Zero(k: Kind): Spec {
    match k
    case DeploymentKind => Deployment(None, 0, "", NO_TEMPLATE, None, "")
    case StatefulSetKind => StatefulSet(None, 0, "", NO_TEMPLATE, None, [], "", "")
    case ServiceKind => Service([], map[], "", "", "")
    case IngressKind => Ingress("")
    case BudgetKind => Budget(0, map[])
    case AutoscalerKind => Autoscaler("")
    case ConfigMapKind => ConfigMap(map[], map[], "")
    case OtherKind => Other("")
  }

  /** An object as a value. An absent label or annotation map reads as an empty one. */
  datatype Object = Object(labels: Labels, annotations: Labels, spec: Spec)

  const NONE_IP := "None"

  /** The spec merge; `None` is the error for a kind that is not handled or does not match. */
  function MergeSpec(e: Spec, d: Spec): Option<Spec> {
    if KindOf(e) != KindOf(d) then None
    else
      match e
      case Deployment(_, _, _, _, selector, rest) =>
        Some(Deployment(d.replicas, d.minReady, d.strategy, d.template,
                        if selector.None? then d.selector else selector, rest))
      case StatefulSet(_, _, _, _, selector, claims, serviceName, rest) =>
        Some(StatefulSet(d.replicas, d.minReady, d.strategy, d.template,
                         if selector.None? then d.selector else selector,
                         if |claims| == 0 then d.claims else claims, serviceName, rest))
      case Service(_, _, _, _, _) =>
        Some(e.(ports := d.ports, podSelector := d.podSelector, serviceType := d.serviceType,
                clusterIP := if d.clusterIP == NONE_IP then NONE_IP else e.clusterIP))
      case ConfigMap(_, _, _) => Some(e.(data := d.data, binaryData := d.binaryData))
      case Other(_) => None
      case _ => Some(d)
  }

  /** The live object after the merge. Labels and annotations are merged before the spec is looked at. */
  function Merged(e: Object, d: Object): Object {
    var spec := MergeSpec(e.spec, d.spec);
    Object(e.labels + d.labels, e.annotations + d.annotations, if spec.Some? then spec.value else e.spec)
  }

  predicate Accepts(e: Object, d: Object) {
    MergeSpec(e.spec, d.spec).Some?
  }

  // ---- objects and maps on the heap ----

  class StringMap {
    var entries: Labels

    constructor (initial: Labels)
      ensures entries == initial
    {
      entries := initial;
    }

    /** `maps.Copy(this, src)`; a nil source copies nothing. */
    method CopyFrom(src: StringMap?)
      modifies this
      ensures entries == old(entries) + (if src == null then map[] else old(src.entries))
    {
      if src != null { entries := entries + src.entries; }
    }
  }

  function Entries(m: StringMap?): Labels
    reads if m == null then {} else {m}
  {
    if m == null then map[] else m.entries
  }

  class KubeObject {
    var labels: StringMap?
    var annotations: StringMap?
    var spec: Spec

    constructor (labels: StringMap?, annotations: StringMap?, spec: Spec)
      ensures this.labels == labels && this.annotations == annotations && this.spec == spec
    {
      this.labels, this.annotations, this.spec := labels, annotations, spec;
    }

    function Value(): Object
      reads this, labels, annotations
    {
      Object(Entries(labels), Entries(annotations), spec)
    }

    /** A deep copy: the same value, no shared map. */
    method DeepCopy() returns (c: KubeObject)
      ensures fresh(c) && c.Value() == Value()
      ensures c.labels != null && c.annotations != null && c.labels != c.annotations
      ensures fresh(c.labels) && fresh(c.annotations)
    {
      var l := new StringMap(Entries(labels));
      var a := new StringMap(Entries(annotations));
      c := new KubeObject(l, a, spec);
    }
  }

  /** No map of `a` is a map of `b`. */
  ghost predicate Apart(a: KubeObject, b: KubeObject)
    reads a, b
  {
    && a != b
    && (a.labels != null ==> a.labels != b.labels && a.labels != b.annotations)
    && (a.annotations != null ==> a.annotations != b.labels && a.annotations != b.annotations)
  }

  /** Copy the fields of the desired spec that its kind lets through; false for a kind that cannot be merged. */
  method CopySpec(existing: KubeObject, desired: KubeObject) returns (ok: bool)
    requires existing != desired
    modifies existing`spec
    ensures ok == MergeSpec(old(existing.spec), desired.spec).Some?
    ensures existing.spec == if ok then MergeSpec(old(existing.spec), desired.spec).value else old(existing.spec)
  {
    var d := desired.spec;
    if KindOf(existing.spec) != KindOf(d) { return false; }
    match existing.spec {
      case Deployment(_, _, _, _, selector, rest) =>
        var keptSelector := selector;
        if keptSelector == None { keptSelector := d.selector; }
        existing.spec := Deployment(d.replicas, d.minReady, d.strategy, d.template, keptSelector, rest);
      case StatefulSet(_, _, _, _, selector, claims, serviceName, rest) =>
        var keptSelector, keptClaims := selector, claims;
        if keptSelector == None { keptSelector := d.selector; }
        if |keptClaims| == 0 { keptClaims := d.claims; }
        existing.spec :=
          StatefulSet(d.replicas, d.minReady, d.strategy, d.template, keptSelector, keptClaims, serviceName, rest);
      case Service(_, _, _, _, _) =>
        existing.spec := existing.spec.(ports := d.ports);
        existing.spec := existing.spec.(podSelector := d.podSelector);
        existing.spec := existing.spec.(serviceType := d.serviceType);
        if d.clusterIP == NONE_IP { existing.spec := existing.spec.(clusterIP := NONE_IP); }
      case ConfigMap(_, _, _) =>
        existing.spec := existing.spec.(data := d.data);
        existing.spec := existing.spec.(binaryData := d.binaryData);
      case Ingress(_) => existing.spec := d;
      case Budget(_, _) => existing.spec := d;
      case Autoscaler(_) => existing.spec := d;
      case Other(_) => return false;
    }
    return true;
  }

  /** Merge the label map, allocating the live object's own when it has none. */
  method MergeLabelMap(existing: KubeObject, desired: KubeObject)
    requires Apart(existing, desired)
    requires existing.labels != null ==> existing.labels != existing.annotations
    modifies existing`labels, existing.labels
    ensures existing.labels != null && existing.labels.entries == old(Entries(existing.labels)) + Entries(desired.labels)
    ensures Entries(existing.annotations) == old(Entries(existing.annotations))
    ensures existing.labels != existing.annotations
    ensures desired.Value() == old(desired.Value()) && Apart(existing, desired)
  {
    if existing.labels == null { existing.labels := new StringMap(map[]); }
    existing.labels.CopyFrom(desired.labels);
  }

  method MergeAnnotationMap(existing: KubeObject, desired: KubeObject)
    requires Apart(existing, desired)
    requires existing.labels != null ==> existing.labels != existing.annotations
    modifies existing`annotations, existing.annotations
    ensures existing.annotations != null
    ensures existing.annotations.entries == old(Entries(existing.annotations)) + Entries(desired.annotations)
    ensures Entries(existing.labels) == old(Entries(existing.labels))
    ensures desired.Value() == old(desired.Value()) && Apart(existing, desired)
  {
    if existing.annotations == null { existing.annotations := new StringMap(map[]); }
    existing.annotations.CopyFrom(desired.annotations);
  }

  /** Merge both maps. */
  method MergeMaps(existing: KubeObject, desired: KubeObject)
    requires Apart(existing, desired)
    requires existing.labels != null ==> existing.labels != existing.annotations
    modifies existing, existing.labels, existing.annotations
    ensures existing.Value() == Object(old(existing.Value()).labels + desired.Value().labels,
                                       old(existing.Value()).annotations + desired.Value().annotations,
                                       old(existing.spec))
    ensures desired.Value() == old(desired.Value())
    ensures Apart(existing, desired)
  {
    MergeLabelMap(existing, desired);
    MergeAnnotationMap(existing, desired);
  }

  /** Merge `desired` into `existing`, in place. Neither `desired` nor a map it holds is written. */
  method Mutate(existing: KubeObject, desired: KubeObject) returns (ok: bool)
    requires Apart(existing, desired)
    requires existing.labels != null ==> existing.labels != existing.annotations
    modifies existing, existing.labels, existing.annotations
    ensures existing.Value() == Merged(old(existing.Value()), desired.Value())
    ensures ok == Accepts(old(existing.Value()), desired.Value())
    ensures desired.Value() == old(desired.Value())
    ensures Apart(existing, desired)
  {
    MergeMaps(existing, desired);
    ok := CopySpec(existing, desired);
  }

  // ---- create or update ----

  /** What the live object starts as when nothing is stored: empty (`apply`) or a copy of the desired one (`reconcileOwned`). */
  datatype Shape = FromEmpty | FromDesired

  function Start(shape: Shape, stored: Option<Object>, d: Object): Object {
    match stored
    case Some(o) => o
    case None => if shape.FromEmpty? then Object(map[], map[], Zero(KindOf(d.spec))) else d
  }

  /** One apply against the stored object; an error leaves it as it was. */
  function Applied(shape: Shape, stored: Option<Object>, d: Object): Option<Object> {
    var e := Start(shape, stored, d);
    if Accepts(e, d) then Some(Merged(e, d)) else stored
  }

  /** The API server, for the objects of one controller. */
  class Store<K(==,!new)> {
    var objects: map<K, Object>
    ghost var writes: nat

    constructor ()
      ensures objects == map[] && writes == 0
    {
      objects := map[];
      writes := 0;
    }

    function Get(key: K): Option<Object>
      reads this
    {
      if key in objects then Some(objects[key]) else None
    }

    /** The live object to merge into: what is stored, or what the call starts from when nothing is. */
    method Live(shape: Shape, key: K, desired: KubeObject) returns (existing: KubeObject)
      ensures fresh(existing) && existing.Value() == Start(shape, Get(key), desired.Value())
      ensures existing.labels != null ==> fresh(existing.labels) && existing.labels != existing.annotations
      ensures existing.annotations != null ==> fresh(existing.annotations)
    {
      if key in objects {
        var o := objects[key];
        var l := new StringMap(o.labels);
        var a := new StringMap(o.annotations);
        existing := new KubeObject(l, a, o.spec);
      } else if shape.FromEmpty? {
        existing := new KubeObject(null, null, Zero(KindOf(desired.spec)));
      } else {
        existing := desired.DeepCopy();
      }
    }

    /** Read or allocate the live object, merge, and write it back only if that changed something. */
    method CreateOrUpdate(shape: Shape, key: K, desired: KubeObject) returns (ok: bool)
      modifies this
      ensures Get(key) == Applied(shape, old(Get(key)), desired.Value())
      ensures forall k | k != key :: Get(k) == old(Get(k))
      ensures writes == old(writes) + (if Get(key) == old(Get(key)) then 0 else 1)
      ensures desired.Value() == old(desired.Value())
      ensures ok <==> !desired.spec.Other? && (old(key in objects) ==> KindOf(old(objects)[key].spec) == KindOf(desired.spec))
      ensures !ok ==> objects == old(objects)
    {
      var existing := Live(shape, key, desired);
      ok := Mutate(existing, desired);
      if !ok { return; }
      if key !in objects || objects[key] != existing.Value() {
        objects := objects[key := existing.Value()];
        writes := writes + 1;
      }
    }
  }

  // ---- sequences of desired objects ----

  function ApplyAll(shape: Shape, stored: Option<Object>, ds: seq<Object>): Option<Object> {
    if |ds| == 0 then stored
    else Applied(shape, ApplyAll(shape, stored, ds[..|ds| - 1]), ds[|ds| - 1])
  }

  function FirstSome<T>(s: seq<Option<T>>): Option<T> {
    if |s| == 0 then None else if s[0].Some? then s[0] else FirstSome(s[1..])
  }

  function FirstNonEmpty<T>(s: seq<seq<T>>): seq<T> {
    if |s| == 0 then [] else if |s[0]| > 0 then s[0] else FirstNonEmpty(s[1..])
  }

  lemma {:induction false} FirstSomeAppend<T>(s: seq<Option<T>>, x: Option<T>)
    ensures FirstSome(s + [x]) == if FirstSome(s).Some? then FirstSome(s) else x
  {
    if |s| > 0 {
      assert (s + [x])[1..] == s[1..] + [x];
      FirstSomeAppend(s[1..], x);
    }
  }

  lemma {:induction false} FirstNonEmptyAppend<T>(s: seq<seq<T>>, x: seq<T>)
    ensures FirstNonEmpty(s + [x]) == if |FirstNonEmpty(s)| > 0 then FirstNonEmpty(s) else x
  {
    if |s| > 0 {
      assert (s + [x])[1..] == s[1..] + [x];
      FirstNonEmptyAppend(s[1..], x);
    }
  }

  function Initial(shape: Shape, stored: Option<Object>, ds: seq<Object>): Object
    requires |ds| > 0
  {
    Start(shape, stored, ds[0])
  }

  predicate AllOf(k: Kind, stored: Option<Object>, ds: seq<Object>) {
    && (stored.Some? ==> KindOf(stored.value.spec) == k)
    && forall d | d in ds :: KindOf(d.spec) == k
  }

  function LabelHistory(start: Object, ds: seq<Object>): seq<Labels> {
    [start.labels] + seq(|ds|, i requires 0 <= i < |ds| => ds[i].labels)
  }

  function AnnotationHistory(start: Object, ds: seq<Object>): seq<Labels> {
    [start.annotations] + seq(|ds|, i requires 0 <= i < |ds| => ds[i].annotations)
  }

  lemma LabelHistoryGrows(start: Object, ds: seq<Object>)
    requires |ds| > 0
    ensures Overlay(LabelHistory(start, ds)) == Overlay(LabelHistory(start, ds[..|ds| - 1])) + ds[|ds| - 1].labels
    ensures Overlay(AnnotationHistory(start, ds))
            == Overlay(AnnotationHistory(start, ds[..|ds| - 1])) + ds[|ds| - 1].annotations
  {
    var ls, as_ := LabelHistory(start, ds), AnnotationHistory(start, ds);
    assert ls[..|ls| - 1] == LabelHistory(start, ds[..|ds| - 1]);
    assert as_[..|as_| - 1] == AnnotationHistory(start, ds[..|ds| - 1]);
  }

  lemma AppliedMetadata(shape: Shape, stored: Option<Object>, d: Object)
    requires !d.spec.Other? && (stored.Some? ==> KindOf(stored.value.spec) == KindOf(d.spec))
    ensures var r := Applied(shape, stored, d);
            && r.Some? && KindOf(r.value.spec) == KindOf(d.spec)
            && r.value.labels == Start(shape, stored, d).labels + d.labels
            && r.value.annotations == Start(shape, stored, d).annotations + d.annotations
  {
  }

  /** For every handled kind, labels and annotations are the overlay of all that was ever asked for, in order. */
  lemma {:induction false} MetadataAccumulates(shape: Shape, stored: Option<Object>, ds: seq<Object>, k: Kind)
    requires |ds| > 0 && AllOf(k, stored, ds) && k != OtherKind
    ensures var r := ApplyAll(shape, stored, ds);
            && r.Some? && KindOf(r.value.spec) == k
            && r.value.labels == Overlay(LabelHistory(Initial(shape, stored, ds), ds))
            && r.value.annotations == Overlay(AnnotationHistory(Initial(shape, stored, ds), ds))
  {
    var n := |ds| - 1;
    assert ds[n] in ds;
    LabelHistoryGrows(Initial(shape, stored, ds), ds);
    if n == 0 {
      MetadataOfOne(shape, stored, ds, k);
    } else {
      MetadataAccumulates(shape, stored, ds[..n], k);
      AppliedMetadata(shape, ApplyAll(shape, stored, ds[..n]), ds[n]);
    }
  }

  lemma MetadataOfOne(shape: Shape, stored: Option<Object>, ds: seq<Object>, k: Kind)
    requires |ds| == 1 && AllOf(k, stored, ds) && k != OtherKind
    ensures var r := ApplyAll(shape, stored, ds);
            && r.Some? && KindOf(r.value.spec) == k
            && r.value.labels == Overlay(LabelHistory(Initial(shape, stored, ds), ds))
            && r.value.annotations == Overlay(AnnotationHistory(Initial(shape, stored, ds), ds))
  {
    assert ds[..0] == [] && ds[0] in ds;
    LabelHistoryGrows(Initial(shape, stored, ds), ds);
    HistoryStarts(Initial(shape, stored, ds));
    AppliedMetadata(shape, stored, ds[0]);
  }

  lemma HistoryStarts(start: Object)
    ensures Overlay(LabelHistory(start, [])) == start.labels
    ensures Overlay(AnnotationHistory(start, [])) == start.annotations
  {
  }

  /** The selector of the kinds that have one. */
  function SelectorOf(s: Spec): Option<Labels> {
    match s
    case Deployment(_, _, _, _, sel, _) => sel
    case StatefulSet(_, _, _, _, sel, _, _, _) => sel
    case _ => None
  }

  function Selectors(start: Object, ds: seq<Object>): seq<Option<Labels>> {
    [SelectorOf(start.spec)] + seq(|ds|, i requires 0 <= i < |ds| => SelectorOf(ds[i].spec))
  }

  function Claims(start: Object, ds: seq<Object>): seq<seq<string>>
    requires start.spec.StatefulSet? && forall d | d in ds :: d.spec.StatefulSet?
  {
    [start.spec.claims] + seq(|ds|, i requires 0 <= i < |ds| => ds[i].spec.claims)
  }

  lemma StatefulSetApplied(shape: Shape, stored: Option<Object>, d: Object)
    requires d.spec.StatefulSet? && (stored.Some? ==> stored.value.spec.StatefulSet?)
    ensures var e, r := Start(shape, stored, d).spec, Applied(shape, stored, d);
            && e.StatefulSet? && r.Some? && r.value.spec.StatefulSet?
            && r.value.spec == StatefulSet(d.spec.replicas, d.spec.minReady, d.spec.strategy, d.spec.template,
                                           if e.selector.None? then d.spec.selector else e.selector,
                                           if |e.claims| == 0 then d.spec.claims else e.claims, e.serviceName, e.rest)
  {
  }

  /** A StatefulSet after any sequence of desired ones: last-writer fields, write-once fields, and the ones never copied. */
  lemma {:induction false} StatefulSetConverges(shape: Shape, stored: Option<Object>, ds: seq<Object>)
    requires |ds| > 0 && AllOf(StatefulSetKind, stored, ds)
    ensures ApplyAll(shape, stored, ds).Some?
    ensures var s := ApplyAll(shape, stored, ds).value.spec;
            var start, last := Initial(shape, stored, ds), ds[|ds| - 1].spec;
            && s.StatefulSet? && start.spec.StatefulSet?
            && s.replicas == last.replicas && s.minReady == last.minReady
            && s.strategy == last.strategy && s.template == last.template
            && s.selector == FirstSome(Selectors(start, ds))
            && s.claims == FirstNonEmpty(Claims(start, ds))
            && s.serviceName == start.spec.serviceName && s.rest == start.spec.rest
  {
    var n := |ds| - 1;
    var start := Initial(shape, stored, ds);
    assert ds[n] in ds && ds[0] in ds;
    var sels, claims := Selectors(start, ds), Claims(start, ds);
    var sels0, claims0 := Selectors(start, ds[..n]), Claims(start, ds[..n]);
    assert sels == sels0 + [SelectorOf(ds[n].spec)];
    assert claims == claims0 + [ds[n].spec.claims];
    FirstSomeAppend(sels0, SelectorOf(ds[n].spec));
    FirstNonEmptyAppend(claims0, ds[n].spec.claims);
    if n == 0 {
      assert ds[..0] == [];
      assert sels0 == [SelectorOf(start.spec)] && claims0 == [start.spec.claims];
      StatefulSetApplied(shape, stored, ds[0]);
    } else {
      StatefulSetConverges(shape, stored, ds[..n]);
      StatefulSetApplied(shape, ApplyAll(shape, stored, ds[..n]), ds[n]);
    }
  }

  /** Some desired object of the sequence asks for no cluster IP. */
  ghost predicate AsksForNone(ds: seq<Object>) {
    exists i | 0 <= i < |ds| :: ds[i].spec.Service? && ds[i].spec.clusterIP == NONE_IP
  }

  lemma AsksForNoneGrows(ds: seq<Object>)
    requires |ds| > 0
    ensures var last := ds[|ds| - 1].spec;
            AsksForNone(ds) <==> AsksForNone(ds[..|ds| - 1]) || (last.Service? && last.clusterIP == NONE_IP)
  {
  }

  lemma ServiceApplied(shape: Shape, stored: Option<Object>, d: Object)
    requires d.spec.Service? && (stored.Some? ==> stored.value.spec.Service?)
    ensures var e, r := Start(shape, stored, d).spec, Applied(shape, stored, d);
            && e.Service? && r.Some? && r.value.spec.Service?
            && r.value.spec == Service(d.spec.ports, d.spec.podSelector, d.spec.serviceType,
                                       if d.spec.clusterIP == NONE_IP then NONE_IP else e.clusterIP, e.rest)
  {
  }

  /** A Service: ports, pod selector and type are the last asked for; a cluster IP of None is never left again. */
  lemma {:induction false} ServiceConverges(shape: Shape, stored: Option<Object>, ds: seq<Object>)
    requires |ds| > 0 && AllOf(ServiceKind, stored, ds)
    ensures ApplyAll(shape, stored, ds).Some?
    ensures var s := ApplyAll(shape, stored, ds).value.spec;
            var start, last := Initial(shape, stored, ds), ds[|ds| - 1].spec;
            && s.Service? && start.spec.Service?
            && s.ports == last.ports && s.podSelector == last.podSelector && s.serviceType == last.serviceType
            && s.clusterIP == (if AsksForNone(ds) then NONE_IP else start.spec.clusterIP)
            && s.rest == start.spec.rest
  {
    var n := |ds| - 1;
    assert ds[n] in ds && ds[0] in ds;
    AsksForNoneGrows(ds);
    if n == 0 {
      assert ds[..0] == [];
      ServiceApplied(shape, stored, ds[0]);
    } else {
      ServiceConverges(shape, stored, ds[..n]);
      ServiceApplied(shape, ApplyAll(shape, stored, ds[..n]), ds[n]);
    }
  }

  /** A Deployment: as a StatefulSet, without claims. */
  lemma {:induction false} DeploymentConverges(shape: Shape, stored: Option<Object>, ds: seq<Object>)
    requires |ds| > 0 && AllOf(DeploymentKind, stored, ds)
    ensures ApplyAll(shape, stored, ds).Some?
    ensures var s := ApplyAll(shape, stored, ds).value.spec;
            var start, last := Initial(shape, stored, ds), ds[|ds| - 1].spec;
            && s.Deployment? && start.spec.Deployment?
            && s.replicas == last.replicas && s.minReady == last.minReady
            && s.strategy == last.strategy && s.template == last.template
            && s.selector == FirstSome(Selectors(start, ds))
            && s.rest == start.spec.rest
  {
    var n := |ds| - 1;
    var start := Initial(shape, stored, ds);
    assert ds[n] in ds && ds[0] in ds;
    var sels0 := Selectors(start, ds[..n]);
    assert Selectors(start, ds) == sels0 + [SelectorOf(ds[n].spec)];
    FirstSomeAppend(sels0, SelectorOf(ds[n].spec));
    if n == 0 {
      assert ds[..0] == [];
      assert sels0 == [SelectorOf(start.spec)];
    } else {
      DeploymentConverges(shape, stored, ds[..n]);
    }
  }

  /** The service name asked for last is stored exactly when the live object started with it: no apply copies it. */
  lemma ServiceNameIsAdoptedIff(shape: Shape, stored: Option<Object>, ds: seq<Object>)
    requires |ds| > 0 && AllOf(StatefulSetKind, stored, ds)
    ensures ApplyAll(shape, stored, ds).Some?
    ensures var s, start, last := ApplyAll(shape, stored, ds).value.spec, Initial(shape, stored, ds).spec, ds[|ds| - 1].spec;
            && s.StatefulSet? && start.StatefulSet? && last.StatefulSet?
            && (s.serviceName == last.serviceName <==> start.serviceName == last.serviceName)
  {
    StatefulSetConverges(shape, stored, ds);
    assert ds[|ds| - 1] in ds;
  }

  /** Created from an empty object, a StatefulSet never adopts the service name that was asked for. */
  lemma ServiceNameIsNeverAdopted(ds: seq<Object>)
    requires |ds| > 0 && AllOf(StatefulSetKind, None, ds)
    ensures ApplyAll(FromEmpty, None, ds).Some?
    ensures ApplyAll(FromEmpty, None, ds).value.spec.StatefulSet?
    ensures ApplyAll(FromEmpty, None, ds).value.spec.serviceName == ""
  {
  }

  /** A ConfigMap's data are the last asked for; what else it holds stays. */
  lemma {:induction false} ConfigMapConverges(shape: Shape, stored: Option<Object>, ds: seq<Object>)
    requires |ds| > 0 && AllOf(ConfigMapKind, stored, ds)
    ensures ApplyAll(shape, stored, ds).Some?
    ensures var s, last := ApplyAll(shape, stored, ds).value.spec, ds[|ds| - 1].spec;
            var start := Initial(shape, stored, ds).spec;
            && s.ConfigMap? && last.ConfigMap? && start.ConfigMap?
            && s.data == last.data && s.binaryData == last.binaryData && s.rest == start.rest
  {
    var n := |ds| - 1;
    assert ds[n] in ds && ds[0] in ds;
    if n == 0 {
      assert ds[..0] == [];
    } else {
      ConfigMapConverges(shape, stored, ds[..n]);
    }
  }

  /** Ingresses, budgets and autoscalers are replaced outright. */
  lemma ReplacedKindsConverge(shape: Shape, stored: Option<Object>, ds: seq<Object>, k: Kind)
    requires |ds| > 0 && AllOf(k, stored, ds) && k in {IngressKind, BudgetKind, AutoscalerKind}
    ensures ApplyAll(shape, stored, ds).Some?
    ensures ApplyAll(shape, stored, ds).value.spec == ds[|ds| - 1].spec
  {
  }

  /**
   * What the first apply to an empty store leaves: all that was asked for, except that a StatefulSet has no
   * service name, a cluster IP other than None is not taken over, and what the merge never mentions is empty.
   */
  lemma FirstApplyFromEmpty(d: Object)
    requires !d.spec.Other?
    ensures var r := Applied(FromEmpty, None, d);
            && r.Some? && r.value.labels == d.labels && r.value.annotations == d.annotations
            && r.value.spec ==
                 match d.spec
                 case StatefulSet(replicas, minReady, strategy, template, selector, claims, _, _) =>
                   StatefulSet(replicas, minReady, strategy, template, selector, claims, "", "")
                 case Deployment(replicas, minReady, strategy, template, selector, _) =>
                   Deployment(replicas, minReady, strategy, template, selector, "")
                 case Service(ports, podSelector, serviceType, clusterIP, _) =>
                   Service(ports, podSelector, serviceType, if clusterIP == "None" then "None" else "", "")
                 case ConfigMap(data, binaryData, _) => ConfigMap(data, binaryData, "")
                 case _ => d.spec
  {
  }

  /** Started from a copy of the desired object, the first apply leaves just that. */
  lemma FirstApplyFromDesired(d: Object)
    ensures Applied(FromDesired, None, d) == if d.spec.Other? then None else Some(d)
  {
    assert d.labels + d.labels == d.labels && d.annotations + d.annotations == d.annotations;
  }

  /** A Service created from an empty object has no cluster IP until one of None is asked for. */
  lemma ClusterIPFromEmpty(ds: seq<Object>)
    requires |ds| > 0 && AllOf(ServiceKind, None, ds)
    ensures ApplyAll(FromEmpty, None, ds).Some?
    ensures var s := ApplyAll(FromEmpty, None, ds).value.spec;
            && s.Service? && s.rest == ""
            && (s.clusterIP == "None" || s.clusterIP == "")
            && (s.clusterIP == "None" <==> exists i | 0 <= i < |ds| :: ds[i].spec.Service? && ds[i].spec.clusterIP == "None")
  {
    ServiceConverges(FromEmpty, None, ds);
    assert ds[0] in ds;
  }

  /** Applying the same desired object again changes nothing, so it is not even written. */
  lemma ReapplyIsNoop(shape: Shape, stored: Option<Object>, d: Object)
    ensures Applied(shape, Applied(shape, stored, d), d) == Applied(shape, stored, d)
  {
    var e := Start(shape, stored, d);
    if Accepts(e, d) {
      var m := Merged(e, d);
      assert m.labels + d.labels == m.labels;
      assert m.annotations + d.annotations == m.annotations;
    }
  }

  /** A rejected object is rejected for its kind alone, before and after any other apply. */
  lemma RejectedForItsKind(shape: Shape, stored: Option<Object>, d: Object)
    ensures Accepts(Start(shape, stored, d), d)
            <==> !d.spec.Other? && (stored.Some? ==> KindOf(stored.value.spec) == KindOf(d.spec))
  {
  }
}
