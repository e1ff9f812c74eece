/**
 Where a service container's environment comes from: the spec, the trust store, the KogitoInfra objects
 the service names, and the deployment itself (core/kogitoservice: deployer.go, truststore_reconciler.go,
 kogitoinfra_reconciler.go, deployment_reconciler.go).
 */
module ServiceEnv {
  import opened Options
  import opened EnvVars
  import opened Mounts

  const RuntimeTypeKey := "RUNTIME_TYPE"
  const TrustStorePasswordVar := "CUSTOM_TRUSTSTORE_PASSWORD"
  const TrustStoreFileVar := "CUSTOM_TRUSTSTORE"
  const TrustStorePasswordKey := "keyStorePassword"
  const TrustStoreFileKey := "cacerts"
  const TrustStoreMountPath := "/home/kogito/certs/custom-truststore/cacerts"
  /** 0640 */
  const ModeForCertificates := 416

  /** A KogitoInfra object, as far as a service reads its status. */
  datatype Infra = Infra(
    ready: bool,
    configMapEnvFrom: seq<string>, configMapVolumes: seq<Ref>,
    secretEnvFrom: seq<string>, secretVolumes: seq<Ref>,
    envs: seq<EnvVar>)

  datatype DeployError =
    | FetchFailed
    | InfraNotFound(name: string)
    | InfraNotReady(name: string)
    | TrustStoreNotFound
    | TrustStoreWithoutFile

  /** The five lists of a ServiceDefinition that the reconcilers fill. */
  datatype Definition = Definition(
    configMapEnvFrom: seq<string>, configMapVolumes: seq<Ref>,
    secretEnvFrom: seq<string>, secretVolumes: seq<Ref>,
    envs: seq<EnvVar>)

  function Flatten<T>(lists: seq<seq<T>>): seq<T> {
    if lists == [] then [] else Flatten(lists[..|lists| - 1]) + lists[|lists| - 1]
  }

  function Select<T>(infras: seq<Infra>, field: Infra -> seq<T>): (r: seq<seq<T>>)
    ensures |r| == |infras|
  {
    seq(|infras|, i requires 0 <= i < |infras| => field(infras[i]))
  }

  /** One infra after another, each overriding the ones before. */
  function WithInfras(d: Definition, infras: seq<Infra>): Definition {
    if infras == [] then d
    else
      var before, i := WithInfras(d, infras[..|infras| - 1]), infras[|infras| - 1];
      Definition(before.configMapEnvFrom + i.configMapEnvFrom, before.configMapVolumes + i.configMapVolumes,
                 before.secretEnvFrom + i.secretEnvFrom, before.secretVolumes + i.secretVolumes,
                 Override(before.envs, i.envs))
  }

  /** The environment variables of the trust store: its password, when there is one, and its file. */
  function TrustEnvs(secret: string, keys: set<string>): seq<EnvVar> {
    (if TrustStorePasswordKey in keys
     then [EnvVar(TrustStorePasswordVar, FromSecret(secret, TrustStorePasswordKey))] else []) +
    [EnvVar(TrustStoreFileVar, Plain(TrustStoreFileKey))]
  }

  /** The file's name under one variable, the password's key in the secret, if it has one, under the other. */
  ghost predicate TrustSeen(before: seq<EnvVar>, after: seq<EnvVar>, secret: string, withPassword: bool) {
    && Lookup(after, "CUSTOM_TRUSTSTORE") == Some(EnvVar("CUSTOM_TRUSTSTORE", Plain("cacerts")))
    && Lookup(after, "CUSTOM_TRUSTSTORE_PASSWORD") ==
       (if withPassword then Some(EnvVar("CUSTOM_TRUSTSTORE_PASSWORD", FromSecret(secret, "keyStorePassword")))
        else Lookup(before, "CUSTOM_TRUSTSTORE_PASSWORD"))
    && forall n :: n != "CUSTOM_TRUSTSTORE" && n != "CUSTOM_TRUSTSTORE_PASSWORD" ==> Lookup(after, n) == Lookup(before, n)
  }

  lemma {:induction false} TrustEnvsSeen(before: seq<EnvVar>, secret: string, keys: set<string>)
    ensures TrustSeen(before, Override(before, TrustEnvs(secret, keys)), secret, "keyStorePassword" in keys)
  {
    var pw := EnvVar("CUSTOM_TRUSTSTORE_PASSWORD", FromSecret(secret, "keyStorePassword"));
    var file := EnvVar("CUSTOM_TRUSTSTORE", Plain("cacerts"));
    assert |"CUSTOM_TRUSTSTORE"| != |"CUSTOM_TRUSTSTORE_PASSWORD"|;
    forall n ensures Lookup(Put(before, file), n) == (if n == file.name then Some(file) else Lookup(before, n))
             ensures Lookup(Put(Put(before, pw), file), n) ==
                     if n == file.name then Some(file) else if n == pw.name then Some(pw) else Lookup(before, n)
    {
      PutLookup(before, file, n);
      PutLookup(before, pw, n);
      PutLookup(Put(before, pw), file, n);
    }
    if "keyStorePassword" in keys {
      assert TrustEnvs(secret, keys) == [pw, file];
      OverridePair(before, pw, file);
    } else {
      assert TrustEnvs(secret, keys) == [file];
      OverrideSingle(before, file);
    }
  }

  function TrustRef(secret: string): Ref {
    Ref(Secret, secret, TrustStoreMountPath, Some(ModeForCertificates), None)
  }

  /** mountEnvsOnDeployment, on what the creation hook left in the container. */
  function ContainerEnv(hook: seq<EnvVar>, runtime: string, d: Definition): seq<EnvVar> {
    Override(Override(hook, [EnvVar(RuntimeTypeKey, Plain(runtime))]), d.envs)
  }

  // ------------------------------------------------------------------ precedence

  function EnvsOf(i: Infra): seq<EnvVar> { i.envs }
  function ConfigMapEnvFromOf(i: Infra): seq<string> { i.configMapEnvFrom }
  function ConfigMapVolumesOf(i: Infra): seq<Ref> { i.configMapVolumes }
  function SecretEnvFromOf(i: Infra): seq<string> { i.secretEnvFrom }
  function SecretVolumesOf(i: Infra): seq<Ref> { i.secretVolumes }

  lemma {:induction false} SelectSnoc<T>(infras: seq<Infra>, field: Infra -> seq<T>)
    requires infras != []
    ensures Flatten(Select(infras, field)) ==
            Flatten(Select(infras[..|infras| - 1], field)) + field(infras[|infras| - 1])
  {
    assert Select(infras, field)[..|infras| - 1] == Select(infras[..|infras| - 1], field);
  }

  /** The envs are one override by all infras' envs in order. */
  lemma {:induction false} InfraEnvsInOrder(d: Definition, infras: seq<Infra>)
    ensures WithInfras(d, infras).envs == Override(d.envs, Flatten(Select(infras, EnvsOf)))
    decreases |infras|
  {
    if infras != [] {
      var init := infras[..|infras| - 1];
      InfraEnvsInOrder(d, init);
      SelectSnoc(infras, EnvsOf);
      OverrideConcat(d.envs, Flatten(Select(init, EnvsOf)), infras[|infras| - 1].envs);
    }
  }

  /** The ConfigMap references are those of the infras, in order. */
  lemma {:induction false} InfraConfigMapsInOrder(d: Definition, infras: seq<Infra>)
    ensures WithInfras(d, infras).configMapEnvFrom == d.configMapEnvFrom + Flatten(Select(infras, ConfigMapEnvFromOf))
    ensures WithInfras(d, infras).configMapVolumes == d.configMapVolumes + Flatten(Select(infras, ConfigMapVolumesOf))
    decreases |infras|
  {
    if infras != [] {
      InfraConfigMapsInOrder(d, infras[..|infras| - 1]);
      SelectSnoc(infras, ConfigMapEnvFromOf);
      SelectSnoc(infras, ConfigMapVolumesOf);
    }
  }

  /** And so are the Secret references. */
  lemma {:induction false} InfraSecretsInOrder(d: Definition, infras: seq<Infra>)
    ensures WithInfras(d, infras).secretEnvFrom == d.secretEnvFrom + Flatten(Select(infras, SecretEnvFromOf))
    ensures WithInfras(d, infras).secretVolumes == d.secretVolumes + Flatten(Select(infras, SecretVolumesOf))
    decreases |infras|
  {
    if infras != [] {
      InfraSecretsInOrder(d, infras[..|infras| - 1]);
      SelectSnoc(infras, SecretEnvFromOf);
      SelectSnoc(infras, SecretVolumesOf);
    }
  }

  /** The last infra that defines a name, then the trust store, then the spec. */
  function Defined(spec: seq<EnvVar>, trust: seq<EnvVar>, infraEnvs: seq<EnvVar>, n: string): Option<EnvVar> {
    Or(LastOf(infraEnvs, n), Or(LastOf(trust, n), LastOf(spec, n)))
  }

  /**
   The first entry of any name in the container, for every spec: if the spec names it at most once, the last
   infra that defines it, else the trust store, else the spec; a name that the spec repeats keeps the
   spec's last entry, and no infra can change it.  A name that none of them defines comes from
   RUNTIME_TYPE, else from the creation hook.
   */
  lemma {:induction false} EnvPrecedence(spec: seq<EnvVar>, trust: seq<EnvVar>, infras: seq<Infra>,
                      hook: seq<EnvVar>, runtime: string, d: Definition, n: string)
    requires d.envs == Override(spec, trust)
    ensures var infraEnvs := Flatten(Select(infras, EnvsOf));
            Lookup(ContainerEnv(hook, runtime, WithInfras(d, infras)), n) ==
            Precedence(spec, trust, infraEnvs, runtime, Lookup(hook, n), n)
  {
    InfraEnvsInOrder(d, infras);
    var infraEnvs := Flatten(Select(infras, EnvsOf));
    OverrideLast(spec, trust, n);
    OverrideLast(d.envs, infraEnvs, n);
    var rt := EnvVar(RuntimeTypeKey, Plain(runtime));
    OverrideLookup(Override(hook, [rt]), Override(d.envs, infraEnvs), n);
    OverrideSingle(hook, rt);
    PutLookup(hook, rt, n);
  }

  /** The value that a name gets by that precedence, where the hook left `h` for it. */
  function Precedence(spec: seq<EnvVar>, trust: seq<EnvVar>, infraEnvs: seq<EnvVar>, runtime: string,
                      h: Option<EnvVar>, n: string): Option<EnvVar> {
    Or(if AtMostOnce(spec, n) then Defined(spec, trust, infraEnvs, n) else LastOf(spec, n),
       if n == RuntimeTypeKey then Some(EnvVar(n, Plain(runtime))) else h)
  }

  /**
   What the container sees, which is the last entry of a name: the same precedence, unless the creation hook
   repeats the name; then the hook's last entry, whatever everyone else says.
   */
  lemma {:induction false} ContainerSees(spec: seq<EnvVar>, trust: seq<EnvVar>, infras: seq<Infra>,
                      hook: seq<EnvVar>, runtime: string, d: Definition, n: string)
    requires d.envs == Override(spec, trust)
    ensures LastOf(ContainerEnv(hook, runtime, WithInfras(d, infras)), n) ==
            if AtMostOnce(hook, n)
            then Precedence(spec, trust, Flatten(Select(infras, EnvsOf)), runtime, LastOf(hook, n), n)
            else LastOf(hook, n)
  {
    InfraEnvsInOrder(d, infras);
    var infraEnvs, rt := Flatten(Select(infras, EnvsOf)), EnvVar(RuntimeTypeKey, Plain(runtime));
    OverrideLast(spec, trust, n);
    OverrideLast(d.envs, infraEnvs, n);
    OverrideSingle(hook, rt);
    PutLast(hook, rt, n);
    OverrideLast(Override(hook, [rt]), Override(d.envs, infraEnvs), n);
  }

  /** No infra from `i` on defines the name. */
  predicate NotAfter(infras: seq<Infra>, i: nat, n: string) {
    forall j :: i <= j < |infras| ==> !HasName(infras[j].envs, n)
  }

  lemma {:induction false} LastDefiner(infras: seq<Infra>, i: nat, n: string)
    requires i < |infras| && HasName(infras[i].envs, n) && NotAfter(infras, i + 1, n)
    ensures LastOf(Flatten(Select(infras, EnvsOf)), n) == LastOf(infras[i].envs, n)
    ensures LastOf(infras[i].envs, n).Some?
    decreases |infras|
  {
    var init, last := infras[..|infras| - 1], infras[|infras| - 1].envs;
    SelectSnoc(infras, EnvsOf);
    LastOfConcat(Flatten(Select(init, EnvsOf)), last, n);
    LastNone(last, n);
    if i < |infras| - 1 {
      LastDefiner(init, i, n);
    }
  }

  /** For a name the spec does not repeat, the last infra that defines it wins, wherever it stands in the list. */
  lemma {:induction false} LastInfraWins(spec: seq<EnvVar>, trust: seq<EnvVar>, infras: seq<Infra>, i: nat,
                      hook: seq<EnvVar>, runtime: string, d: Definition, n: string)
    requires d.envs == Override(spec, trust) && AtMostOnce(spec, n)
    requires i < |infras| && HasName(infras[i].envs, n) && NotAfter(infras, i + 1, n)
    ensures Lookup(ContainerEnv(hook, runtime, WithInfras(d, infras)), n) == LastOf(infras[i].envs, n)
  {
    LastDefiner(infras, i, n);
    EnvPrecedence(spec, trust, infras, hook, runtime, d, n);
  }

  // ------------------------------------------------------------------ the reconcilers

  /** The definition as the reconcilers share and update it. */
  class Service {
    var definition: Definition

    constructor (envs: seq<EnvVar>)
      ensures definition == Definition([], [], [], [], envs)
    {
      definition := Definition([], [], [], [], envs);
    }

    /** trustStoreReconciler.Reconcile; `secrets` maps each existing secret to its keys. */
    method ReconcileTrustStore(name: string, secrets: map<string, set<string>>) returns (err: Option<DeployError>)
      modifies this
      ensures name == "" ==> err.None? && definition == old(definition)
      ensures name != "" && err.None? ==>
                && name in secrets && TrustStoreFileKey in secrets[name]
                && definition == old(definition).(
                     secretVolumes := old(definition).secretVolumes + [TrustRef(name)],
                     envs := Override(old(definition).envs, TrustEnvs(name, secrets[name])))
      // what is added, and what the two variables are
      ensures name != "" && err.None? ==>
                && definition.secretVolumes == old(definition).secretVolumes +
                     [Ref(Secret, name, "/home/kogito/certs/custom-truststore/cacerts", Some(416), None)]
                && TrustSeen(old(definition).envs, definition.envs, name, "keyStorePassword" in secrets[name])
      ensures err == Some(TrustStoreNotFound) ==> name !in secrets
      ensures err == Some(TrustStoreWithoutFile) ==> name in secrets && TrustStoreFileKey !in secrets[name]
    {
      if name == "" { return None; }
      if * { return Some(FetchFailed); }
      if name !in secrets { return Some(TrustStoreNotFound); }
      var keys := secrets[name];
      if TrustStorePasswordKey in keys {
        OverrideSingle(definition.envs, EnvVar(TrustStorePasswordVar, FromSecret(name, TrustStorePasswordKey)));
        definition := definition.(
          envs := Put(definition.envs, EnvVar(TrustStorePasswordVar, FromSecret(name, TrustStorePasswordKey))));
      }
      if TrustStoreFileKey !in keys { return Some(TrustStoreWithoutFile); }
      var file := EnvVar(TrustStoreFileVar, Plain(TrustStoreFileKey));
      OverrideSingle(definition.envs, file);
      OverrideConcat(old(definition).envs, TrustEnvs(name, keys)[..|TrustEnvs(name, keys)| - 1], [file]);
      assert TrustEnvs(name, keys) == TrustEnvs(name, keys)[..|TrustEnvs(name, keys)| - 1] + [file];
      definition := definition.(
        secretVolumes := definition.secretVolumes + [TrustRef(name)],
        envs := Put(definition.envs, file));
      TrustEnvsSeen(old(definition).envs, name, keys);
      err := None;
    }

    /**
     kogitoInfraReconciler.Reconcile: it stops at the first infra that is missing or not ready.  Each infra is
     fetched, and then fetched again to see whether it is ready; the lists are those of the first fetch,
     which may be older than the readiness.
     */
    method ReconcileInfras(names: seq<string>, fetched: seq<Option<Infra>>, checked: seq<Option<Infra>>)
      returns (err: Option<DeployError>)
      requires |fetched| == |checked| == |names|
      modifies this
      ensures err.None? ==> AllReady(fetched, checked) && definition == WithInfras(old(definition), Found(fetched))
      ensures !AllReady(fetched, checked) ==> err.Some?
    {
      for i := 0 to |names|
        invariant AllReady(fetched[..i], checked[..i])
        invariant definition == WithInfras(old(definition), Found(fetched[..i]))
      {
        if * { return Some(FetchFailed); }
        if fetched[i] == None { return Some(InfraNotFound(names[i])); }
        if checked[i] == None { return Some(InfraNotFound(names[i])); }
        if !checked[i].value.ready { return Some(InfraNotReady(names[i])); }
        var infra := fetched[i].value;
        assert fetched[..i + 1][..i] == fetched[..i];
        FoundSnoc(fetched[..i + 1]);
        definition := Definition(
          definition.configMapEnvFrom + infra.configMapEnvFrom,
          definition.configMapVolumes + infra.configMapVolumes,
          definition.secretEnvFrom + infra.secretEnvFrom,
          definition.secretVolumes + infra.secretVolumes,
          Override(definition.envs, infra.envs));
      }
      assert fetched[..|names|] == fetched && checked[..|names|] == checked;
      err := None;
    }
  }

  predicate AllFound(fetched: seq<Option<Infra>>) {
    forall i :: 0 <= i < |fetched| ==> fetched[i].Some?
  }

  /** Every infra was there at the first fetch, and there and ready at the second. */
  predicate AllReady(fetched: seq<Option<Infra>>, checked: seq<Option<Infra>>) {
    AllFound(fetched) && AllFound(checked) && forall i :: 0 <= i < |checked| ==> checked[i].value.ready
  }

  /** The infras as first fetched, in order. */
  function Found(fetched: seq<Option<Infra>>): (r: seq<Infra>)
    requires AllFound(fetched)
    ensures |r| == |fetched|
  {
    seq(|fetched|, i requires 0 <= i < |fetched| => fetched[i].value)
  }

  lemma FoundSnoc(fetched: seq<Option<Infra>>)
    requires fetched != [] && AllFound(fetched)
    ensures Found(fetched)[..|fetched| - 1] == Found(fetched[..|fetched| - 1])
  {
  }

  /** What the trust store contributes; nothing when none is named. */
  function TrustPart(name: string, secrets: map<string, set<string>>): seq<EnvVar> {
    if name == "" || name !in secrets then [] else TrustEnvs(name, secrets[name])
  }

  /** For every name the container sees the value of the precedence, unless the hook repeats the name. */
  ghost predicate Sees(env: seq<EnvVar>, spec: seq<EnvVar>, trust: seq<EnvVar>, infras: seq<Infra>,
                       hook: seq<EnvVar>, runtime: string) {
    forall n ::
      LastOf(env, n) ==
      if AtMostOnce(hook, n)
      then Precedence(spec, trust, Flatten(Select(infras, EnvsOf)), runtime, LastOf(hook, n), n)
      else LastOf(hook, n)
  }

  lemma {:induction false} ContainerSeesAll(spec: seq<EnvVar>, trust: seq<EnvVar>, infras: seq<Infra>,
                      hook: seq<EnvVar>, runtime: string, d: Definition)
    requires d.envs == Override(spec, trust)
    ensures Sees(ContainerEnv(hook, runtime, WithInfras(d, infras)), spec, trust, infras, hook, runtime)
  {
    forall n
      ensures LastOf(ContainerEnv(hook, runtime, WithInfras(d, infras)), n) ==
              if AtMostOnce(hook, n)
              then Precedence(spec, trust, Flatten(Select(infras, EnvsOf)), runtime, LastOf(hook, n), n)
              else LastOf(hook, n)
    {
      ContainerSees(spec, trust, infras, hook, runtime, d, n);
    }
  }

  /**
   The environment part of Deploy: spec, trust store, infras, then the container.  It gets as far as an
   environment only if every named infra was there and then found ready, and then the container sees what
   the precedence gives.
   */
  method DeployEnv(spec: seq<EnvVar>, trustStore: string, secrets: map<string, set<string>>, names: seq<string>,
                   fetched: seq<Option<Infra>>, checked: seq<Option<Infra>>, hook: seq<EnvVar>, runtime: string)
    returns (err: Option<DeployError>, env: seq<EnvVar>)
    requires |fetched| == |checked| == |names|
    ensures err.None? ==>
              && AllReady(fetched, checked)
              && Sees(env, spec, TrustPart(trustStore, secrets), Found(fetched), hook, runtime)
  {
    env := [];
    var service := new Service(spec);
    err := service.ReconcileTrustStore(trustStore, secrets);
    if err != None { return; }
    ghost var d, trust := service.definition, TrustPart(trustStore, secrets);
    assert d.envs == Override(spec, trust);
    err := service.ReconcileInfras(names, fetched, checked);
    if err != None { return; }
    env := ContainerEnv(hook, runtime, service.definition);
    ContainerSeesAll(spec, trust, Found(fetched), hook, runtime, d);
  }
}
