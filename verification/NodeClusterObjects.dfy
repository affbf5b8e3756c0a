/** The objects built for a NodeCluster, as far as selecting its pods goes. */
module NodeClusterObjects {
  import opened Wrappers
  import opened LabelSets
  import opened Apply

  /** The parts of a NodeCluster spec that reach labels, and the rest of what its StatefulSet is built from. */
  datatype ClusterSpec = ClusterSpec(
    imageTag: string, userLabels: Labels, userAnnotations: Labels, replicas: Option<int>,
    strategy: string, podBody: string, claims: seq<string>, ports: seq<string>)

  method BuildStatefulSet(name: string, c: ClusterSpec) returns (d: Object)
    ensures d == StatefulSetFor(name, c)
  {
    var labels := StandardLabels(name, "node", name, c.imageTag);
    labels := MergeLabels([labels, c.userLabels]);
    var selector := SelectorLabels(name);
    var podLabels := MergeLabels([labels, selector]);
    d := Object(labels, c.userAnnotations,
                StatefulSet(c.replicas, 10, c.strategy, PodTemplate(podLabels, c.userAnnotations, c.podBody),
                            Some(selector), c.claims, name + "-headless", ""));
  }

  function ObjectLabels(name: string, c: ClusterSpec): Labels {
    Overlay([StandardLabelsOf(name, "node", name, c.imageTag), c.userLabels])
  }

  function StatefulSetFor(name: string, c: ClusterSpec): Object {
    Object(ObjectLabels(name, c), c.userAnnotations,
           StatefulSet(c.replicas, 10, c.strategy,
                       PodTemplate(Overlay([ObjectLabels(name, c), SelectorLabels(name)]), c.userAnnotations, c.podBody),
                       Some(SelectorLabels(name)), c.claims, name + "-headless", ""))
  }

  function HeadlessServiceFor(name: string, c: ClusterSpec): Object {
    Object(StandardLabelsOf(name, "node", name, ""), map[],
           Service(c.ports, SelectorLabels(name), "ClusterIP", NONE_IP, ""))
  }

  function ServiceFor(name: string, c: ClusterSpec): Object {
    Object(StandardLabelsOf(name, "node", name, ""), map[],
           Service(c.ports, SelectorLabels(name), "ClusterIP", "", ""))
  }

  function BudgetFor(name: string): Object {
    Object(StandardLabelsOf(name, "pdb", "", ""), map[], Budget(1, SelectorLabels(name)))
  }

  /** The selector `pollHealth` lists pods with. */
  function ListSelector(name: string): Labels {
    SelectorLabels(name)
  }

  const POD_NAME := OtherKey("statefulset.kubernetes.io/pod-name")

  /** The selector of the load balancer of one pod. */
  function PerPodSelector(name: string, podName: string): Labels {
    SelectorLabels(name)[POD_NAME := podName]
  }

  const POD_INDEX := OtherKey("nchain.hanzo.ai/pod-index")

  function PerPodServiceFor(name: string, podName: string, index: string, annotations: Labels, c: ClusterSpec): Object {
    Object(StandardLabelsOf(name, "node", name, "")[POD_INDEX := index], annotations,
           Service(c.ports, PerPodSelector(name, podName), "LoadBalancer", "", ""))
  }

  function Desired(build: ClusterSpec -> Object, specs: seq<ClusterSpec>): (ds: seq<Object>)
    ensures |ds| == |specs|
    ensures forall i | 0 <= i < |specs| :: ds[i] == build(specs[i])
  {
    seq(|specs|, i requires 0 <= i < |specs| => build(specs[i]))
  }

  /** Whatever labels the user adds, even the selector's own keys, the pod template keeps the selector's values. */
  lemma TemplateCarriesSelector(name: string, c: ClusterSpec)
    ensures Matches(SelectorLabels(name), StatefulSetFor(name, c).spec.template.labels)
  {
  }

  /** The template's labels, key by key: the cluster's name where its selector looks, else the user's label, else the standard one. */
  lemma TemplateLabelsAre(name: string, c: ClusterSpec, k: Key)
    ensures var pod := StatefulSetFor(name, c).spec.template.labels;
            if k in {Name, Instance} then k in pod && pod[k] == name
            else if k in c.userLabels then k in pod && pod[k] == c.userLabels[k]
            else
              match k
              case Component => k in pod && pod[k] == "node"
              case PartOf => if name == "" then k !in pod else k in pod && pod[k] == name
              case Version => if c.imageTag == "" then k !in pod else k in pod && pod[k] == c.imageTag
              case ManagedBy => k in pod && pod[k] == "nchain-operator"
              case _ => k !in pod
  {
    var standard := StandardLabelsOf(name, "node", name, c.imageTag);
    StandardLabelsAre(name, "node", name, c.imageTag, k);
    OverlayOfTwo(standard, c.userLabels);
    OverlayOfTwo(standard + c.userLabels, SelectorLabels(name));
    Layers(standard, c.userLabels, SelectorLabels(name), k);
  }

  lemma Layers(a: Labels, b: Labels, c: Labels, k: Key)
    ensures k in a + b + c <==> k in a || k in b || k in c
    ensures k in a + b + c ==> (a + b + c)[k] == if k in c then c[k] else if k in b then b[k] else a[k]
  {
  }

  lemma OverlayOfTwo(a: Labels, b: Labels)
    ensures Overlay([a, b]) == a + b
  {
    assert [a, b][..1] == [a] && [a][..0] == [];
    assert Overlay([a]) == map[] + a == a;
  }

  function StatefulSetAfter(shape: Shape, name: string, specs: seq<ClusterSpec>): Option<Object> {
    ApplyAll(shape, None, Desired(c => StatefulSetFor(name, c), specs))
  }

  /**
   * For every sequence of specs of one cluster, from its creation on, the stored write-once selector is
   * the cluster's selector and matches the labels of the stored pod template.
   */
  lemma StatefulSetStaysSound(shape: Shape, name: string, specs: seq<ClusterSpec>)
    requires |specs| > 0
    ensures var sts := StatefulSetAfter(shape, name, specs);
            && sts.Some? && sts.value.spec.StatefulSet?
            && sts.value.spec.selector == Some(SelectorLabels(name))
            && Matches(SelectorLabels(name), sts.value.spec.template.labels)
  {
    var sets := Desired(c => StatefulSetFor(name, c), specs);
    assert forall d | d in sets :: d.spec.StatefulSet?;
    StatefulSetConverges(shape, None, sets);
    TemplateCarriesSelector(name, specs[|specs| - 1]);
    FirstSelector(Start(shape, None, sets[0]), sets, SelectorLabels(name));
  }

  lemma FirstSelector(start: Object, sets: seq<Object>, sel: Labels)
    requires |sets| > 0 && SelectorOf(sets[0].spec) == Some(sel)
    requires SelectorOf(start.spec) in {None, Some(sel)}
    ensures FirstSome(Selectors(start, sets)) == Some(sel)
  {
  }

  /** The stored selector of a Service is the one that every build of it asks for. */
  lemma ServiceStaysSound(shape: Shape, selector: Labels, ds: seq<Object>)
    requires |ds| > 0
    requires forall d | d in ds :: d.spec.Service? && d.spec.podSelector == selector
    ensures var s := ApplyAll(shape, None, ds);
            s.Some? && s.value.spec.Service? && s.value.spec.podSelector == selector
  {
    ServiceConverges(shape, None, ds);
    assert ds[|ds| - 1] in ds;
  }

  /** The stored budget is the built one, after any number of builds. */
  lemma BudgetStaysSound(shape: Shape, name: string, builds: nat)
    requires builds > 0
    ensures var b := ApplyAll(shape, None, seq(builds, _ => BudgetFor(name)));
            b.Some? && b.value.spec == BudgetFor(name).spec
  {
    ReplacedKindsConverge(shape, None, seq(builds, _ => BudgetFor(name)), BudgetKind);
  }

  /** So every selector meant for the cluster's pods matches the labels of the stored pod template, at every time. */
  lemma SelectorsStaySound(shape: Shape, name: string, specs: seq<ClusterSpec>, later: seq<ClusterSpec>, builds: nat)
    requires |specs| > 0 && |later| > 0 && builds > 0
    ensures StatefulSetAfter(shape, name, specs).Some? && StatefulSetAfter(shape, name, specs).value.spec.StatefulSet?
    ensures var pod := StatefulSetAfter(shape, name, specs).value.spec.template.labels;
            var headless := ApplyAll(shape, None, Desired(c => HeadlessServiceFor(name, c), later));
            var service := ApplyAll(shape, None, Desired(c => ServiceFor(name, c), later));
            var budget := ApplyAll(shape, None, seq(builds, _ => BudgetFor(name)));
            && headless.Some? && headless.value.spec.Service? && Matches(headless.value.spec.podSelector, pod)
            && service.Some? && service.value.spec.Service? && Matches(service.value.spec.podSelector, pod)
            && budget.Some? && budget.value.spec.Budget? && Matches(budget.value.spec.budgetSelector, pod)
            && Matches(ListSelector(name), pod)
  {
    StatefulSetStaysSound(shape, name, specs);
    ServiceStaysSound(shape, SelectorLabels(name), Desired(c => HeadlessServiceFor(name, c), later));
    ServiceStaysSound(shape, SelectorLabels(name), Desired(c => ServiceFor(name, c), later));
    BudgetStaysSound(shape, name, builds);
  }

  /** What else the stored StatefulSet holds: the last spec's replicas, strategy and pod, and the headless Service's name only if it started as a copy. */
  lemma StatefulSetHolds(shape: Shape, name: string, specs: seq<ClusterSpec>)
    requires |specs| > 0
    ensures StatefulSetAfter(shape, name, specs).Some? && StatefulSetAfter(shape, name, specs).value.spec.StatefulSet?
    ensures var sts, last := StatefulSetAfter(shape, name, specs).value.spec, specs[|specs| - 1];
            && sts.replicas == last.replicas && sts.minReady == 10 && sts.strategy == last.strategy
            && sts.template.body == last.podBody && sts.template.annotations == last.userAnnotations && sts.rest == ""
            && sts.serviceName == if shape.FromEmpty? then "" else name + "-headless"
  {
    var sets := Desired(c => StatefulSetFor(name, c), specs);
    assert forall d | d in sets :: d.spec.StatefulSet?;
    StatefulSetConverges(shape, None, sets);
  }

  /** A stored Service after any builds that agree on type and cluster IP. */
  lemma ServiceHolds(shape: Shape, ds: seq<Object>, serviceType: string, clusterIP: string)
    requires |ds| > 0 && clusterIP in {"", "None"}
    requires forall d | d in ds :: d.spec.Service? && d.spec.serviceType == serviceType && d.spec.clusterIP == clusterIP && d.spec.rest == ""
    ensures ApplyAll(shape, None, ds).Some?
    ensures var s := ApplyAll(shape, None, ds).value.spec;
            && s.Service? && ds[|ds| - 1] in ds && s.ports == ds[|ds| - 1].spec.ports
            && s.serviceType == serviceType && s.clusterIP == clusterIP && s.rest == ""
  {
    ServiceConverges(shape, None, ds);
    assert ds[0] in ds && ds[|ds| - 1] in ds;
  }

  /** The stored Services and budget: headless without a cluster IP, the others with one of the server's choosing, one pod kept available. */
  lemma ServicesHold(shape: Shape, name: string, later: seq<ClusterSpec>, podName: string, index: string,
                     annotations: ClusterSpec -> Labels, builds: nat)
    requires |later| > 0 && builds > 0
    ensures var ports := later[|later| - 1].ports;
            var headless := ApplyAll(shape, None, Desired(c => HeadlessServiceFor(name, c), later));
            var service := ApplyAll(shape, None, Desired(c => ServiceFor(name, c), later));
            var perPod := ApplyAll(shape, None, Desired(c => PerPodServiceFor(name, podName, index, annotations(c), c), later));
            var budget := ApplyAll(shape, None, seq(builds, _ => BudgetFor(name)));
            && headless.Some? && HeldService(headless.value.spec, ports, "ClusterIP", "None")
            && service.Some? && HeldService(service.value.spec, ports, "ClusterIP", "")
            && perPod.Some? && HeldService(perPod.value.spec, ports, "LoadBalancer", "")
            && budget.Some? && budget.value.spec.Budget? && budget.value.spec.minAvailable == 1
  {
    ServiceHolds(shape, Desired(c => HeadlessServiceFor(name, c), later), "ClusterIP", "None");
    ServiceHolds(shape, Desired(c => ServiceFor(name, c), later), "ClusterIP", "");
    ServiceHolds(shape, Desired(c => PerPodServiceFor(name, podName, index, annotations(c), c), later), "LoadBalancer", "");
    BudgetStaysSound(shape, name, builds);
  }

  ghost predicate HeldService(s: Spec, ports: seq<string>, serviceType: string, clusterIP: string) {
    s.Service? && s.ports == ports && s.serviceType == serviceType && s.clusterIP == clusterIP && s.rest == ""
  }

  /** A cluster's selector matches the stored pods of no other cluster, whatever labels users add and whatever the runs. */
  lemma SelectorsKeepClustersApart(shape: Shape, name: string, specs: seq<ClusterSpec>, other: string)
    requires |specs| > 0
    ensures StatefulSetAfter(shape, name, specs).Some? && StatefulSetAfter(shape, name, specs).value.spec.StatefulSet?
    ensures Matches(SelectorLabels(other), StatefulSetAfter(shape, name, specs).value.spec.template.labels)
            <==> other == name
  {
    StatefulSetStaysSound(shape, name, specs);
    var pod := StatefulSetAfter(shape, name, specs).value.spec.template.labels;
    assert Name in SelectorLabels(name) && pod[Name] == name;
    assert Name in SelectorLabels(other) && SelectorLabels(other)[Name] == other;
  }

  /** And a per-pod Service's stored selector matches its pod: the template's labels and the pod's own name. */
  lemma PerPodSelectorStaysSound(shape: Shape, name: string, specs: seq<ClusterSpec>, later: seq<ClusterSpec>,
                                 podName: string, index: string, annotations: ClusterSpec -> Labels)
    requires |specs| > 0 && |later| > 0
    ensures StatefulSetAfter(shape, name, specs).Some? && StatefulSetAfter(shape, name, specs).value.spec.StatefulSet?
    ensures var pod := StatefulSetAfter(shape, name, specs).value.spec.template.labels[POD_NAME := podName];
            var service := ApplyAll(shape, None, Desired(c => PerPodServiceFor(name, podName, index, annotations(c), c), later));
            service.Some? && service.value.spec.Service? && Matches(service.value.spec.podSelector, pod)
  {
    StatefulSetStaysSound(shape, name, specs);
    ServiceStaysSound(shape, PerPodSelector(name, podName),
                      Desired(c => PerPodServiceFor(name, podName, index, annotations(c), c), later));
  }
}
