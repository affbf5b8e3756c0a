/** Label maps: the standard set, the selector subset, and merging. */
module LabelSets {

  /** A label or annotation key: the six recommended ones, and any other. */
  datatype Key = Name | Instance | Component | PartOf | Version | ManagedBy | OtherKey(text: string)

  type Labels = map<Key, string>

  const MANAGED_BY := "nchain-operator"

  function SelectorLabels(name: string): Labels {
    map[Name := name, Instance := name]
  }

  /** The standard labels; empty values are left out. */
  function StandardLabelsOf(name: string, component: string, partOf: string, version: string): Labels {
    map[Name := name, Instance := name, ManagedBy := MANAGED_BY]
    + (if component == "" then map[] else map[Component := component])
    + (if partOf == "" then map[] else map[PartOf := partOf])
    + (if version == "" then map[] else map[Version := version])
  }

  method StandardLabels(name: string, component: string, partOf: string, version: string) returns (labels: Labels)
    ensures labels == StandardLabelsOf(name, component, partOf, version)
  {
    labels := map[Name := name, Instance := name, ManagedBy := MANAGED_BY];
    if component != "" { labels := labels[Component := component]; }
    if partOf != "" { labels := labels[PartOf := partOf]; }
    if version != "" { labels := labels[Version := version]; }
  }

  /** The standard labels, key by key. */
  lemma StandardLabelsAre(name: string, component: string, partOf: string, version: string, k: Key)
    ensures var labels := StandardLabelsOf(name, component, partOf, version);
            match k
            case Name => k in labels && labels[k] == name
            case Instance => k in labels && labels[k] == name
            case ManagedBy => k in labels && labels[k] == "nchain-operator"
            case Component => if component == "" then k !in labels else k in labels && labels[k] == component
            case PartOf => if partOf == "" then k !in labels else k in labels && labels[k] == partOf
            case Version => if version == "" then k !in labels else k in labels && labels[k] == version
            case OtherKey(_) => k !in labels
  {
  }

  /** Later maps win. */
  function Overlay(ms: seq<Labels>): Labels {
    if |ms| == 0 then map[] else Overlay(ms[..|ms| - 1]) + ms[|ms| - 1]
  }

  /** A key of an overlay has the value of the last map that holds it. */
  lemma {:induction false} OverlayLast(ms: seq<Labels>, k: Key)
    ensures k in Overlay(ms) <==> exists i :: 0 <= i < |ms| && k in ms[i]
    ensures forall i | 0 <= i < |ms| && k in ms[i] && (forall j | i < j < |ms| :: k !in ms[j]) ::
              Overlay(ms)[k] == ms[i][k]
  {
    if |ms| > 0 {
      var n := |ms| - 1;
      OverlayLast(ms[..n], k);
      if k in ms[n] {
      } else if k in Overlay(ms[..n]) {
        var i :| 0 <= i < n && k in ms[..n][i];
        assert k in ms[i];
      }
    }
  }

  method MergeLabels(maps: seq<Labels>) returns (out: Labels)
    ensures out == Overlay(maps)
  {
    out := map[];
    for i := 0 to |maps|
      invariant out == Overlay(maps[..i])
    {
      assert maps[..i + 1][..i] == maps[..i];
      out := out + maps[i];
    }
    assert maps[..|maps|] == maps;
  }

  /** A label selector matches a label map. */
  predicate Matches(selector: Labels, labels: Labels) {
    forall k | k in selector :: k in labels && labels[k] == selector[k]
  }
}
