/**
 The ConfigMap comparator (core/framework/comparator.go, CreateConfigMapComparator and containAllLabels)
 under the delta processor: which differences it sees, which changes of the server it overlooks, and
 when a request for ConfigMaps comes to rest.
 */
module ConfigMaps {
  import opened Options
  import Delta

  type Labels = map<string, string>

  /** `data` is None for a nil map, which reflect.DeepEqual tells from an empty one. */
  datatype ConfigMap = ConfigMap(labels: Labels, data: Option<map<string, string>>)

  /** A Go map lookup: a missing label reads as the empty string. */
  function Label(labels: Labels, key: string): string {
    if key in labels then labels[key] else ""
  }

  predicate ContainsAll(deployed: Labels, requested: Labels) {
    forall key :: key in requested ==> Label(deployed, key) == requested[key]
  }

  predicate Same(deployed: ConfigMap, requested: ConfigMap) {
    ContainsAll(deployed.labels, requested.labels) && deployed.data == requested.data
  }

  /** containAllLabels: the requested labels come in no fixed order, and the first mismatch ends the loop. */
  method ContainAllLabels(deployed: Labels, requested: Labels) returns (all: bool)
    ensures all <==> ContainsAll(deployed, requested)
  {
    var rest := requested.Keys;
    while rest != {}
      invariant rest <= requested.Keys
      invariant forall key :: key in requested && key !in rest ==> Label(deployed, key) == requested[key]
      decreases rest
    {
      var key :| key in rest;
      if Label(deployed, key) != requested[key] { return false; }
      rest := rest - {key};
    }
    all := true;
  }

  /** Labels one-sidedly, data exactly: the same keys with the same values, and nil told from empty. */
  method CompareConfigMaps(deployed: ConfigMap, requested: ConfigMap) returns (equal: bool)
    ensures equal <==> Same(deployed, requested)
    ensures equal <==>
            && (forall key :: key in requested.labels ==> Label(deployed.labels, key) == requested.labels[key])
            && (deployed.data.None? <==> requested.data.None?)
            && (deployed.data.Some? && requested.data.Some? ==>
                  && (forall key :: key in deployed.data.value <==> key in requested.data.value)
                  && forall key :: key in requested.data.value && key in deployed.data.value ==>
                       deployed.data.value[key] == requested.data.value[key])
  {
    DataSame(deployed.data, requested.data);
    equal := ContainAllLabels(deployed.labels, requested.labels);
    if equal { equal := deployed.data == requested.data; }
  }

  // ------------------------------------------------------------------ what it compares

  /** The labels that can be told from no label at all. */
  function Visible(labels: Labels): Labels {
    map key | key in labels && labels[key] != "" :: labels[key]
  }

  predicate SubMap(a: Labels, b: Labels) {
    forall key :: key in a ==> key in b && b[key] == a[key]
  }

  // ------------------------------------------------------------------ what the server may do

  /**
   An API server with its admission plugins: it supplies `defaults` where a label is not set, forces
   others, and does not keep an empty map apart from a missing one.
   */
  datatype Policy = Policy(defaults: Labels, forced: Labels)

  function Admit(p: Policy, cm: ConfigMap): ConfigMap {
    ConfigMap(p.defaults + cm.labels + p.forced, if cm.data == Some(map[]) then None else cm.data)
  }

  function Server(p: Policy): ConfigMap -> ConfigMap {
    (cm: ConfigMap) => Admit(p, cm)
  }

  /** Something a client can check before it sends the object. */
  predicate Harmless(p: Policy, cm: ConfigMap) {
    cm.data != Some(map[]) && forall key :: key in cm.labels && key in p.forced ==> p.forced[key] == cm.labels[key]
  }

  /** The comparator overlooks what the server does to an object exactly when that is harmless. */
  lemma OverlooksIff(p: Policy, cm: ConfigMap)
    ensures Same(Admit(p, cm), cm) <==> Harmless(p, cm)
  {
  }

  ghost predicate AllHarmless(p: Policy, requested: map<Delta.Key, ConfigMap>) {
    forall k :: k in requested ==> Harmless(p, requested[k])
  }

  lemma AbsorbsIff(p: Policy, requested: map<Delta.Key, ConfigMap>)
    ensures Delta.Absorbs(requested, Server(p), Same) <==> AllHarmless(p, requested)
  {
  }

  // ------------------------------------------------------------------ passes over ConfigMaps

  /**
   After a complete pass the next one reports no delta exactly when every ConfigMap that was written is
   harmless; either way exactly the requested names are there.
   */
  lemma SettlesIffHarmless(store: map<Delta.Key, ConfigMap>, requested: map<Delta.Key, ConfigMap>, p: Policy,
                           ks: seq<Delta.Key>)
    requires Delta.NoDuplicates(ks) && Delta.Elements(ks) == Delta.Changed(store, requested, Same)
    ensures var end := Delta.WriteKeys(store, requested, Server(p), ks);
            && (forall k :: k in end <==> k in requested)
            && (Delta.Changed(end, requested, Same) == {} <==>
                forall k :: k in ks && k in requested ==> Harmless(p, requested[k]))
  {
    Delta.CompletePassSettles(store, requested, Server(p), Same, ks);
    var end := Delta.WriteKeys(store, requested, Server(p), ks);
    var restless := Delta.Restless(requested, Server(p), Same);
    forall k | k in requested ensures k in restless <==> !Harmless(p, requested[k]) {
      OverlooksIff(p, requested[k]);
    }
    assert Delta.Changed(end, requested, Same) == Delta.Elements(ks) * restless;
    assert forall k :: k in ks <==> k in Delta.Elements(ks);
    if k :| k in ks && k in requested && !Harmless(p, requested[k]) {
      assert k in Delta.Elements(ks) * restless;
    }
  }

  /** Over any sequence of partly failed passes, writes and what is left to do add up to the first delta. */
  lemma ConfigMapWritesConserved(store: map<Delta.Key, ConfigMap>, requested: map<Delta.Key, ConfigMap>, p: Policy,
                                 passes: seq<seq<Delta.Key>>)
    requires AllHarmless(p, requested) && Delta.Passes(store, requested, Server(p), Same, passes)
    ensures var end := Delta.AfterPasses(store, requested, Server(p), passes);
            && Delta.Changed(end, requested, Same) <= Delta.Changed(store, requested, Same)
            && |Delta.Changed(end, requested, Same)| + Delta.Writes(passes) == |Delta.Changed(store, requested, Same)|
  {
    AbsorbsIff(p, requested);
    Delta.WritesAreConserved(store, requested, Server(p), Same, passes);
  }

  lemma DataSame(a: Option<map<string, string>>, b: Option<map<string, string>>)
    ensures a == b <==>
            && (a.None? <==> b.None?)
            && (a.Some? && b.Some? ==>
                  && (forall key :: key in a.value <==> key in b.value)
                  && forall key :: key in b.value && key in a.value ==> a.value[key] == b.value[key])
  {
    if a.Some? && b.Some? && (forall key :: key in a.value <==> key in b.value) &&
       (forall key :: key in b.value && key in a.value ==> a.value[key] == b.value[key]) {
      assert a.value == b.value;
    }
  }

  /**
   Where nothing is left to do, every requested ConfigMap is there with exactly the requested data, every
   label that was given a value has it, and no other ConfigMap is left.
   */
  lemma NothingLeftMeansDeployed(store: map<Delta.Key, ConfigMap>, requested: map<Delta.Key, ConfigMap>)
    requires Delta.Changed(store, requested, Same) == {}
    ensures forall k :: k in store <==> k in requested
    ensures forall k :: k in requested && k in store ==> store[k].data == requested[k].data
    ensures forall k, key :: k in requested && k in store && key in requested[k].labels && requested[k].labels[key] != ""
              ==> key in store[k].labels && store[k].labels[key] == requested[k].labels[key]
  {
    forall k ensures k in store <==> k in requested {
      assert k !in Delta.Changed(store, requested, Same);
    }
    forall k | k in requested && k in store ensures Same(store[k], requested[k]) {
      assert k !in Delta.Changed(store, requested, Same);
    }
    forall k, key | k in requested && k in store && key in requested[k].labels && requested[k].labels[key] != ""
      ensures key in store[k].labels && store[k].labels[key] == requested[k].labels[key]
    {
      assert Label(store[k].labels, key) == requested[k].labels[key];
    }
  }

  // ------------------------------------------------------------------ labels that are dropped

  function Without(cm: ConfigMap, gone: set<string>): ConfigMap {
    cm.(labels := cm.labels - gone)
  }

  function AllWithout(requested: map<Delta.Key, ConfigMap>, gone: set<string>): map<Delta.Key, ConfigMap> {
    map k | k in requested :: Without(requested[k], gone)
  }

  /**
   A label taken out of the request is never noticed: where nothing was left to do for the old request,
   nothing is left to do for the new one, so the deployed objects keep the label.
   */
  lemma DroppedLabelsStay(store: map<Delta.Key, ConfigMap>, requested: map<Delta.Key, ConfigMap>, gone: set<string>)
    requires Delta.Changed(store, requested, Same) == {}
    ensures Delta.Changed(store, AllWithout(requested, gone), Same) == {}
    ensures forall k, key :: k in requested && key in Visible(requested[k].labels) ==>
              k in store && key in store[k].labels && store[k].labels[key] == requested[k].labels[key]
  {
    forall k | k in requested
      ensures k in store && Same(store[k], requested[k]) && Same(store[k], Without(requested[k], gone))
    {
      assert k !in Delta.Changed(store, requested, Same);
      assert forall key :: key in requested[k].labels - gone ==> key in requested[k].labels;
    }
    forall k | k in store ensures k in requested {
      assert k !in Delta.Changed(store, requested, Same);
    }
    forall k, key | k in requested && key in Visible(requested[k].labels)
      ensures k in store && key in store[k].labels && store[k].labels[key] == requested[k].labels[key]
    {
      assert Label(store[k].labels, key) == requested[k].labels[key];
    }
  }
}
