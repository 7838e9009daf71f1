/** Label selectors, and the Service a deployment is reached by: `get_service` of src/reslib/k8s/workloads.py. */
module Services {
  import opened Wrappers
  import opened Ordering

  type Labels = map<string, string>

  /** A selector matches if the labels carry all its pairs. */
  predicate Selects(selector: Labels, labels: Labels) {
    forall key :: key in selector ==> key in labels && labels[key] == selector[key]
  }

  datatype Service = Service(name: string, selector: Labels)

  predicate Matches(s: Service, labels: Labels) {
    s.selector != map[] && Selects(s.selector, labels)
  }

  /** The matching services, in the order of the list. */
  function Matching(services: seq<Service>, labels: Labels): (r: seq<Service>)
    ensures forall s :: s in r <==> s in services && Matches(s, labels)
  {
    if |services| == 0 then []
    else
      var rest := Matching(services[1..], labels);
      if Matches(services[0], labels) then [services[0]] + rest else rest
  }

  /** `min` by name: the first of those with the least name. */
  function LeastName(services: seq<Service>): (s: Service)
    requires 0 < |services|
    ensures s in services && forall other :: other in services ==> AtMost(s.name, other.name)
  {
    Reflexive(services[0].name);
    if |services| == 1 then services[0]
    else
      var s := LeastName(services[1..]);
      Total(services[0].name, s.name);
      assert forall other :: other in services ==> other == services[0] || other in services[1..];
      if AtMost(services[0].name, s.name) then
        LeastBelow(services[0], s, services[1..]);
        services[0]
      else s
  }

  lemma LeastBelow(a: Service, b: Service, rest: seq<Service>)
    requires AtMost(a.name, b.name) && forall other :: other in rest ==> AtMost(b.name, other.name)
    ensures forall other :: other in rest ==> AtMost(a.name, other.name)
  {
    forall other | other in rest ensures AtMost(a.name, other.name) {
      Transitive(a.name, b.name, other.name);
    }
  }

  function GetService(services: seq<Service>, labels: Labels): Option<Service> {
    var matching := Matching(services, labels);
    if |matching| == 0 then None else Some(LeastName(matching))
  }

  /** Every pair of the selector is a label of the pods, and there is a pair. */
  predicate Targets(s: Service, labels: Labels) {
    s.selector != map[] && s.selector.Items <= labels.Items
  }

  lemma MatchesIff(s: Service, labels: Labels)
    ensures Matches(s, labels) <==> Targets(s, labels)
  {
    if Matches(s, labels) {
      forall item | item in s.selector.Items ensures item in labels.Items {
        assert item.0 in s.selector && labels[item.0] == item.1;
      }
    }
    if Targets(s, labels) {
      forall key | key in s.selector ensures key in labels && labels[key] == s.selector[key] {
        assert (key, s.selector[key]) in s.selector.Items;
      }
    }
  }

  /** There is a service exactly when a non-empty selector is contained in the labels, and it is one of least name. */
  lemma ServiceIsLeastMatch(services: seq<Service>, labels: Labels)
    ensures GetService(services, labels).None? <==> forall s :: s in services ==> !Targets(s, labels)
    ensures GetService(services, labels).Some? ==>
              var chosen := GetService(services, labels).value;
              && chosen in services && Targets(chosen, labels)
              && forall s :: s in services && Targets(s, labels) ==> AtMost(chosen.name, s.name)
  {
    var matching := Matching(services, labels);
    assert |matching| > 0 ==> matching[0] in matching;
    forall s | s in services ensures Matches(s, labels) <==> Targets(s, labels) {
      MatchesIff(s, labels);
    }
  }

  /** "Deterministic": with distinct names, the order in which the API lists the services does not matter. */
  lemma ServiceIgnoresOrder(a: seq<Service>, b: seq<Service>, labels: Labels)
    requires multiset(a) == multiset(b)
    requires forall s, t :: s in a && t in a && s.name == t.name ==> s == t
    ensures GetService(a, labels) == GetService(b, labels)
  {
    assert forall s :: s in a <==> s in multiset(a);
    assert forall s :: s in b <==> s in multiset(b);
    ServiceIsLeastMatch(a, labels);
    ServiceIsLeastMatch(b, labels);
    if GetService(a, labels).Some? {
      var x, y := GetService(a, labels).value, GetService(b, labels).value;
      Antisymmetric(x.name, y.name);
    }
  }
}
