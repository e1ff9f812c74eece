# Kogito operator: verified models

Dafny models of the parts of the Kogito operator whose behaviour is not visible in any one function:
protocols in which several controllers share objects of the cluster, the assembly and comparison of
deployments, status conditions over long histories, and the string handling under image references,
PEM bundles and versions.  The cluster is a versioned store; what the API server, Go's map order or
another client may do is left open, so the results hold for every choice.  `dafny verify dfyconfig.toml`
checks everything.

| module | follows |
|---|---|
| `RequiredTags` | build controllers racing to add required image stream tags: a step machine for any number of controllers, and the code itself amid other clients |
| `Delta`, `ConfigMaps` | the delta processor under failures, and the ConfigMap comparator under it |
| `Owners`, `SharedStream`, `SharedRace` | owner reference lists, several owners reconciling one shared stream in one step each, and the same with a reconcile taken apart into its two fetches and its write, amid owners that leave and clients that touch the stream |
| `EnvVars`, `ServiceEnv`, `InjectedEnv` | environment override and difference, where a container's values come from, and the comparison that spares injected variables |
| `Paths`, `Mounts`, `Sorting` | mounting ConfigMaps and Secrets in map order, and the sorting that removes it |
| `BuildRestart`, `BuildStatus`, `BuildPlan`, `Cycles` | cancel-wait-start, build buckets and conditions, the image references of the requested builds, and which builds set off which |
| `Conditions`, `ServiceStatus` | condition lists, and a service's conditions over any history |
| `Regex`, `ImageRef`, `Pem`, `Strings` | leftmost-first matching and the image pattern, PEM splitting, split/join/trim |

Foreign libraries appear by what they document: `MapComparator.Compare` by name,
`meta.SetStatusCondition` by type, `sort.SliceStable`, `path.Join`, `strings.Split`, `strings.Index`
and Go's leftmost-first `regexp`.

## Where code and promise part

Each of these is proved, with the input that shows it and, where a promise is involved, the exact
condition under which the code keeps it.

- After AlreadyExists a controller updates an object that has no version and no tags.  Tags survive
  exactly because the server refuses such an update (`RequiredTags.NoTagLostIffServerChecksVersions`).
- `CreateRequiredKogitoImageStreams` says false when it fails, although it may have written.  Its flag can
  be trusted in every run exactly when both tags are there before the call (`RequiredTags.FlagTruthfulIff`), or,
  if replies always arrive, when the builder's is (`RequiredTags.FlagTruthfulIffRepliesArrive`).
- The shared stream's reconciler builds its request on one fetch and takes the version of its update from
  a later one, so two owners can drop each other's tag and reference although both succeed.  That no run
  loses anything is certain exactly when all owners that share a stream have joined it already
  (`SharedRace.SafeIffAllJoined`); and since a write can also bring back an owner that left, with owners that
  come and go it is certain only when no two share a stream (`SharedRace.SafeIffNoneShare`).
- An owner that turns to another stream deletes the one it shared, whoever else owns it
  (`SharedStream.DeletesNothingIffOwnsNothingElse`).
- `RemoveSharedOwnerReference` returns from inside its first removal, so it serves all resources exactly
  when at most one qualifies (`Owners.ReleasesAllIffAtMostOneShared`), and it takes one call for each that
  does (`Owners.CallsNeeded`).
- The delta processor comes to rest only if the comparator overlooks what the server changes
  (`Delta.CompletePassSettles`, `Delta.NeverSettles`).  For ConfigMaps that is so exactly when no requested
  label is forced to another value and no data map is empty but not nil (`ConfigMaps.SettlesIffHarmless`);
  and a label taken out of the request is never removed (`ConfigMaps.DroppedLabelsStay`).
- A Secret and a ConfigMap of one name share one volume (`Mounts.KindsServedIffNamesNotShared`), and a
  missing object is dereferenced even when the reference is optional (`Mounts.Deployment.MountAsVolume`).
- A key whose path an earlier reference took is skipped silently
  (`Mounts.OwnFilesIffPathsNotShared`).
- Injected variables are kept only while the deployed list is the longer one
  (`InjectedEnv.MergeDropsIff`, `InjectedEnv.MergeKeepsNamesIff`).
- A name that the service's own environment repeats cannot be overridden by a KogitoInfra
  (`ServiceEnv.EnvPrecedence`), for the reason that override is not associative through a list with
  repeated names (`EnvVars.AssociativeIffMiddleDistinct`).
- `EnvOverride` writes into the list it is given, so the builder's settings can end up in the KogitoBuild's
  own list, which the runtime build gets next.  That list stays as it is exactly when the settings that fit
  into its array agree with it (`EnvVars.CallerUnchangedIff`).
- `StartNewBuild` promises to cancel any other running build; it cancels the first one only
  (`BuildRestart.CancelsOthersIffAtMostOne`), and builds that image changes start break the promise from
  every state (`BuildRestart.ImageChangesBreakThePromise`).
- A build taken alone starts itself again without end exactly when its target is its own builder stream, or
  when its sources are remote and its builder image is the "latest" of its target or of its own builder
  stream (`BuildPlan.LoopsIff`).  Several builds can also keep each other going, although none does so
  alone: rebuilding among them is endless exactly when some stand in a circle in which each one's output is
  the builder stream or the watched base image of the next (`BuildPlan.EndlessIff`).
- A latest build in the Error phase changes no condition, and Failed never goes back to false
  (`BuildStatus.UnreportedIffErrorOrUnknown`, `BuildStatus.FailedIsSticky`).
- Colons inside a tag are dropped by parsing, and a domain that begins with one is taken for a tag
  (`ImageRef.RoundTripIff`).
- Certificates of earlier keys are collected again with every later key (`Pem.CollectedCount`).

## Model

| member | source | states |
|---|---|---|
| RequiredTags.NoTagLost | core/kogitobuild/image_stream.go:137-177 | for any number of controllers and every interleaving with failed requests, lost replies and retries, between any two moments of a run no stream disappears, every tag list only grows at its end, and tag names stay distinct |
| RequiredTags.ReturnIsTruthful | core/kogitobuild/image_stream.go:124-134 | in every run, a controller that returned without error has both of its required tags in the store, and `created` is true exactly when it wrote during that call |
| RequiredTags.WritesBounded | core/kogitobuild/image_stream.go:137-177 | the final tags are the initial ones plus those written, and every written tag is there itself, with its source; only what some build requires is written, and nothing present again; all controllers together write at most once per distinct required (stream, tag) pair, and each is refused at most that often |
| RequiredTags.RefusalMeansProgress | core/kogitobuild/image_stream.go:168-174 | an update is refused only if another accepted write landed after the refused controller's fetch |
| RequiredTags.NextOk | core/kogitobuild/image_stream.go:137-177 | every single step of any controller keeps the inductive invariant over store, controllers and write log |
| RequiredTags.BlindUpdateDropsTag | core/kogitobuild/image_stream.go:154-171 | with a server that accepts unversioned updates, a concrete five-step schedule of two builds drops a tag |
| RequiredTags.NoTagLostIffServerChecksVersions | core/kogitobuild/image_stream.go:154-174 | tags survive every schedule of every set of builds if and only if the server refuses updates without a version |
| RequiredTags.FlagTruthfulIff | core/kogitobuild/image_stream.go:119-134 | for any builds and store: in every run, whatever fails, the returned flag tells whether the controller wrote, if and only if both its tags were there at the start |
| RequiredTags.FlagTruthfulIffRepliesArrive | core/kogitobuild/image_stream.go:119-134 | over the runs in which the controller loses no reply, the same holds if and only if its builder tag was there at the start |
| RequiredTags.CreateRequiredImageStreamTag | core/kogitobuild/image_stream.go:137-177 | the code itself, relying on other clients only to let the store evolve: it keeps to that, writes at most once, returns without error only with the tag in place and then says created exactly when it wrote; what it wrote, the tag with its source, is in place even when the reply was lost |
| ImageStreams.WithTag | core/infrastructure/imagestream.go:124-140 | adding a tag appends exactly that tag or leaves the list, makes the name present, keeps names distinct, and changes nothing exactly when the name was there |
| ImageStreams.FindTag | core/infrastructure/imagestream.go:157-167 | true if and only if some tag has the name |
| Delta.PassLeaves | core/infrastructure/delta_processor.go:41-65 | after a pass that wrote any part of the delta in any order, the new delta is the old one without the written keys, except those the comparator still finds changed |
| Delta.CompletePassSettles | core/infrastructure/delta_processor.go:41-65 | after a complete pass exactly the requested names exist, with the requested contents where they were written, and what remains to do is exactly the restless keys |
| Delta.WritesAreConserved | core/infrastructure/delta_processor.go:41-65 | over any sequence of partly failed passes, deltas only shrink, and writes plus remaining delta equals the first delta |
| Delta.NeverSettles | core/infrastructure/delta_processor.go:41-65 | a key whose stored form the comparator finds changed is in the delta again after every pass that writes it |
| Delta.Cluster.ProcessDelta | core/infrastructure/delta_processor.go:41-65 | whatever the map order and wherever a write fails, the writes are distinct keys of the delta; without error they are all of it, and the flag says whether there was any |
| ConfigMaps.ContainAllLabels | core/framework/comparator.go:107-118 | whatever the order of the labels, true if and only if every requested label reads the same in the deployed object, a missing one reading as empty |
| ConfigMaps.CompareConfigMaps | core/framework/comparator.go:212-223 | equal if and only if every requested label reads the same in the deployed object and the data have the same keys with the same values, nil told from empty |
| ConfigMaps.NothingLeftMeansDeployed | core/framework/comparator.go:212-223 | where nothing is left to do, exactly the requested ConfigMaps are there, with exactly the requested data and every label that was given a value |
| ConfigMaps.SettlesIffHarmless | core/infrastructure/delta_processor.go:41-65 | after a complete pass over ConfigMaps exactly the requested names exist, and the next pass reports no delta if and only if every written one is of that kind |
| ConfigMaps.ConfigMapWritesConserved | core/infrastructure/delta_processor.go:41-65 | for such requests, over any partly failed passes, writes plus remaining delta equals the first delta |
| ConfigMaps.DroppedLabelsStay | core/framework/comparator.go:107-118 | once nothing is left to do, taking any labels out of the request leaves nothing to do, and the deployed objects keep them |
| Owners.WithOwner | core/framework/owner.go:46-67 | exactly this reference is appended or nothing, the UID is an owner afterwards, UIDs stay distinct, and nothing changes exactly when it already was one |
| Owners.WithoutOwns | core/framework/owner.go:70-81 | removal takes away that UID and keeps every other reference, with UIDs distinct |
| Owners.AddThenRemove | core/framework/owner.go:46-81 | adding an absent owner and removing it gives back the list |
| Owners.NeverOrphaned | core/framework/owner.go:46-98 | on one resource, under any sequence of additions and shared removals UIDs stay distinct, what is owned never becomes ownerless, and every owner was there before or was added |
| Owners.ResourcesNeverOrphaned | core/framework/owner.go:46-98 | the same on any number of resources, under any calls that add an owner to some of them or release one over all of them; an owner found on a resource was there or was added to that resource |
| Owners.ResourcesKeepUnreleased | core/framework/owner.go:46-98 | an owner of any of the resources that no call releases is still its owner |
| Owners.UnreleasedOwnerStays | core/framework/owner.go:46-98 | an owner that nobody releases is still an owner after any run |
| Owners.ReleaseFirstChangesOne | core/framework/owner.go:83-98 | over a list of resources the removal changes exactly the first that qualifies, if any, says true exactly then, and leaves none ownerless |
| Owners.ReleasesAllIffAtMostOneShared | core/framework/owner.go:83-98 | the owner is gone from every shared resource exactly when at most one qualified |
| Owners.CallsNeeded | core/framework/owner.go:83-98 | after n calls the owner is gone from every shared resource if and only if n is at least the number of resources that qualified |
| Owners.IsOwner | core/framework/owner.go:26-33 | true if and only if some reference has the UID |
| Owners.AddOwnerReference | core/framework/owner.go:46-67 | every resource passed in, also one passed twice, has the owner added once; if the lookup of the owner's kind fails, none has changed |
| Owners.RemoveSharedOwnerReference | core/framework/owner.go:83-98 | at most one object changes even under aliasing, true exactly when some object qualified, and on different objects the result is the specified one |
| SharedStream.CompletePassIsSettle | core/infrastructure/imagestream_reconciler.go:56-125 | in whatever order the writes go, a complete reconcile ends in the same store: requested stream in place, the owner's other streams gone |
| SharedStream.DeletesNothingIffOwnsNothingElse | core/infrastructure/imagestream_reconciler.go:90-125 | a reconcile deletes no stream exactly when its owner owns no stream but the requested one |
| SharedStream.SwitchingOwnerDeletesSharedStream | core/infrastructure/imagestream_reconciler.go:90-125 | a store in which one owner's switch deletes the stream another owner has settled on |
| SharedStream.RunKeeps | core/infrastructure/imagestream_reconciler.go:56-136 | for any owners with fixed claims, every run of reconciles and give-ups keeps tag names and owner UIDs distinct, deletes no stream, loses no tag and orphans nothing |
| SharedStream.SettledStays | core/infrastructure/imagestream_reconciler.go:56-136 | an owner's tag and reference stay through every run in which it does not give up, whatever the others do |
| SharedStream.WritesIffUnsettled | core/infrastructure/imagestream_reconciler.go:113-125 | a reconcile writes exactly when its tag or its owner reference is missing |
| SharedStream.Converges | core/infrastructure/imagestream_reconciler.go:56-136 | once an owner has reconciled, and has not given up since, its next reconcile finds nothing to do, whatever ran before and after |
| SharedStream.WritesBounded | core/infrastructure/imagestream_reconciler.go:113-125 | in every run each owner writes, and asks for a requeue, at most once, plus once per give-up |
| SharedStream.Quiescent | core/infrastructure/imagestream_reconciler.go:56-136 | when all owners are settled every further schedule of reconciles leaves the store as it is |
| SharedStream.GiveUpSound | core/infrastructure/imagestream.go:252-268 | giving up ownership keeps every stream, tag and other settled owner, and never orphans the stream |
| SharedStream.ReconcileStream | core/infrastructure/imagestream_reconciler.go:56-136 | the reconcile itself: without error the settled store and a requeue exactly when something was to do; with an error a part of the delta was written and nothing else |
| SharedRace.SafeIffAllJoined | core/infrastructure/imagestream_reconciler.go:74-125 | with first fetch, second fetch and write as separate steps, amid version changes by others: over all interleavings of owners that stay, no stream, tag or owner is ever lost if and only if of owners that share a stream all have joined it at the start |
| SharedRace.SafeIffNoneShare | core/infrastructure/imagestream_reconciler.go:56-136 | with owners that also leave: over all runs nothing is lost and nobody brought back if and only if no two owners share a stream |
| SharedRace.LosesNothingIffNeverStale | core/infrastructure/imagestream_reconciler.go:74-125 | for each run of owners that stay: nothing is lost if and only if no accepted write asks for something else than it would have on its second fetch; mere version changes do no harm |
| SharedRace.NeverStaleIsSafe | core/infrastructure/imagestream_reconciler.go:74-125 | in every run without such writes, also with owners that leave, nothing is lost but who leaves, and nobody becomes an owner except by its own reconcile |
| SharedRace.StepOk | core/infrastructure/imagestream_reconciler.go:56-125 | every step that is not such a write keeps the invariant and is, for tags and owners, nothing, one whole reconcile or one whole give-up |
| SharedRace.StaleLoses | core/infrastructure/delta_processor.go:50-56 | while nobody leaves, every such write drops an owner that joined in between, whatever else raised the version |
| SharedRace.RefinesAtomic | core/infrastructure/imagestream_reconciler.go:56-125 | every run without such writes ends in the store of a run of reconciles and give-ups in one step each, each stemming from a move of the run |
| SharedRace.WholeIsSettle | core/infrastructure/imagestream_reconciler.go:56-125 | from any state at all, a reconcile that nobody disturbs ends in the store of the one-step reconcile, with the owner's other streams gone |
| SharedRace.WritesAtMostOnce | core/infrastructure/imagestream_reconciler.go:113-125 | in every run without such writes each owner has at most one accepted write, plus one for every time it left, and one less if it had joined |
| SharedRace.LossyRunIsStale | core/infrastructure/imagestream.go:124-140 | from any state, for any two owners of one stream of whom one has not joined, the run in which it reconciles between the other's fetches ends in such a write |
| SharedRace.LeaverIsBroughtBack | core/infrastructure/imagestream.go:252-268 | for any two owners of one stream, if one leaves between the other's two fetches, the other writes it back |
| Sorting.SortIsStable | core/framework/comparator.go:165-174 | the sort used here is sorted, a permutation, and keeps ties in order |
| Sorting.StableSortUnique | core/framework/comparator.go:165-174 | any two sequences that meet the contract of sort.SliceStable are equal, so the library's algorithm does not matter |
| Sorting.InsertionSort | core/framework/comparator.go:165-174 | exchanging neighbours in an array ends in the stable sort of what was there |
| Sorting.SliceStable | core/framework/comparator.go:165-174 | sorted, a permutation, ties in order, and so the one result such a sort can have |
| Sorting.SortedUnique | core/framework/comparator.go:275-279 | with separated elements any sorted rearrangement is the same one, so sort.Slice too has one result |
| Sorting.CanonicalByKey | core/framework/comparator.go:165-174 | on distinct keys, sorting maps every rearrangement of a list to one canonical list |
| Paths.JoinIsPrefix | core/infrastructure/configmap.go:119-144 | joining a directory and an admissible key only appends the key to a prefix that depends on the directory alone |
| Paths.PrefixOfClean | core/infrastructure/configmap.go:119-144 | before the files of a clean rooted directory other than the root stands that directory and a slash |
| Paths.CleanIdempotent | core/infrastructure/configmap.go:119-144 | cleaning a clean path changes nothing, rooted or not, whatever ".." it begins with |
| Paths.UpUndoesName | core/infrastructure/configmap.go:119-144 | ".." undoes a name after any directory |
| Paths.JoinInjective | core/infrastructure/configmap.go:119-144 | different admissible keys of one reference get different mount paths |
| Paths.JoinSameFile | core/infrastructure/configmap.go:119-144 | whatever the two directories, equal mount paths come from the same key |
| Paths.DotKeyCollides | core/infrastructure/configmap.go:119-144 | a key "./file", which the server refuses, would collide with "file" in every directory |
| Mounts.MountAllOk | core/infrastructure/configmap.go:88-144 | any sequence of ConfigMap and Secret mounts keeps volume names and mount paths distinct across both handlers, has a volume for every mount, and only adds |
| Mounts.MountAllIdempotent | core/infrastructure/secret.go:75-129 | mounting the whole list again, with the Data keys in any other order, changes nothing |
| Mounts.SortingForgetsMapOrder | core/framework/comparator.go:165-174 | for any references and any two iteration orders of their Data maps, mounting and then sorting gives identical volumes and mounts |
| Mounts.UnsortedOrderShows | core/infrastructure/configmap.go:119-144 | before sorting, two keys walked in two orders give two different lists |
| Mounts.VolumeFromFirst | core/infrastructure/configmap.go:93-117 | every volume of a fresh deployment is made from the first reference of its name |
| Mounts.FirstHasVolume | core/infrastructure/secret.go:80-102 | and every first reference of a name has its volume |
| Mounts.KindsServedIffNamesNotShared | core/infrastructure/secret.go:80-102 | every reference is served by a volume of its own kind if and only if no name is used for both kinds |
| Mounts.FirstComeFirstMounted | core/infrastructure/configmap.go:119-144 | on a fresh deployment the mounts are exactly those of the first reference that asks for each path |
| Mounts.OwnFilesIffPathsNotShared | core/infrastructure/secret.go:104-129 | every key is mounted from its own reference's volume if and only if no earlier reference of another name yields the same path |
| Mounts.FileGoesTo | core/infrastructure/configmap.go:119-144 | where a key is mounted: in /home/kogito/config if the reference names no path, else right below its path, each time under its own name as sub-path |
| Mounts.FileIsThere | core/infrastructure/secret.go:104-129 | on a fresh deployment every key of every reference has a file of its name at that place |
| Mounts.EnvFromKeepsFirst | core/infrastructure/configmap.go:155-169 | on a fresh container the env-from list is the keep-first deduplication of the references, kinds apart |
| Mounts.Deployment.MountAsVolume | core/infrastructure/configmap.go:88-144 | done only if the object exists, and then its keys, in some order, are mounted; otherwise only the volume was added, and a nil Data is read only for a missing object; on a fresh deployment the volume has the reference's kind and mode, 0644 if none is given, and every key is mounted from it below the path the reference names |
| Mounts.Deployment.MountReferences | core/kogitoservice/deployment_reconciler.go:137-163 | the loops finish only if every referenced object exists, optional or not, and then the deployment is the specified one for some orders of the keys; on a fresh one every key of every reference has its file below the path the reference names |
| Mounts.Deployment.MountAsEnvFrom | core/infrastructure/secret.go:140-154 | the reference is added unless one of that kind and name is there |
| Mounts.Deployment.SortVolumes | core/framework/comparator.go:165-174 | exchanges in place leave volumes in the order of their names and mounts in that of their paths, rearranged and nothing else, in the one canonical order |
| EnvVars.OverrideLookup | core/framework/env_var.go:32-42 | first-match lookup after an override is the last source entry of that name, else the old value, for all lists |
| EnvVars.OverrideNames | core/framework/env_var.go:32-42 | existing names keep their positions, the names are exactly those of both lists, and distinct names stay distinct |
| EnvVars.OverrideIdempotent | core/framework/env_var.go:32-42 | overriding twice with one source is overriding once, even with repeated names |
| EnvVars.OverrideAssociative | core/framework/env_var.go:32-42 | associative whenever the last list names nothing that the middle one repeats |
| EnvVars.AssociativeIffMiddleDistinct | core/framework/env_var.go:32-42 | associative for all outer lists if and only if the middle list has distinct names |
| EnvVars.StaleDuplicateWins | core/framework/env_var.go:32-42 | for any three entries of one name the two groupings give different winners |
| EnvVars.OverrideLast | core/framework/env_var.go:32-42 | the last entry of a name after an override, for all lists: the source's unless the target repeats the name, and then the target's |
| EnvVars.DiffMembers | core/framework/env_var.go:120-132 | the difference holds exactly the entries whose name the second list lacks |
| EnvVars.DiffDistinct | core/framework/env_var.go:120-132 | the difference of a list with distinct names has distinct names |
| EnvVars.DiffConcat | core/framework/env_var.go:120-132 | the difference distributes over concatenation, so it keeps order and repetitions |
| EnvVars.DiffOfExtension | core/framework/env_var.go:120-132 | the difference between a list extended with foreign names and the list is the extension |
| EnvVars.GetEnvVar | core/framework/env_var.go:22-29 | the first position of the name, or -1 exactly when there is none |
| EnvVars.EnvOverride | core/framework/env_var.go:32-42 | on a slice with spare room the result is the specified override, and result, caller's list and whether they share an array are what working in place until the room runs out gives |
| EnvVars.CallerLeftWith | core/framework/env_var.go:32-42 | the caller's list in the end: overridden by exactly as many entries as fit into its array; the result shares the array if and only if all fit |
| EnvVars.CallerUnchangedIff | core/kogitobuild/decorator.go:142-156 | the caller's list is unchanged if and only if the entries that fit give none of its names another value at last; its names never change |
| EnvVars.DiffEnvVar | core/framework/env_var.go:120-132 | the map-based loop computes the specified difference |
| InjectedEnv.MergeDropsIff | core/framework/comparator.go:266-271 | a deployed name is dropped if and only if the request lacks it and has at least as many variables |
| InjectedEnv.MergeKeepsNamesIff | core/framework/comparator.go:257-273 | no deployed name is lost exactly when the deployed list is the longer one or has no name of its own |
| InjectedEnv.MergeLookup | core/framework/comparator.go:257-273 | with a longer deployed list the first entry of every requested name is the requested one and of every other the deployed one |
| InjectedEnv.MergeLast | core/framework/comparator.go:257-273 | the same for the last entry of a name, which a container sees |
| InjectedEnv.ReconcileSettles | core/framework/comparator.go:152-160 | after one reconcile, for any deployed and requested pods, the same request needs no update |
| InjectedEnv.AlignedRewrites | core/framework/comparator.go:257-279 | if, in the order of names, the deployed containers are the requested ones plus foreign names, the request is rewritten to exactly the deployed pod |
| InjectedEnv.NeedsNoUpdateIffAligned | core/framework/comparator.go:152-160 | for any two pods, no update follows if and only if the deployed one is the request plus variables under foreign names |
| InjectedEnv.InjectedSurvive | core/framework/comparator.go:152-160 | from such a state, in every run of fresh injections and reconciles of one request, containers stay requested-then-injected, nothing injected is lost and no update is ever issued |
| InjectedEnv.AtMostOneUpdate | core/framework/comparator.go:152-160 | for any deployed and requested pods, every run of fresh injections and reconciles updates at most once, and after a reconcile the state is of that kind |
| InjectedEnv.IgnoreInjectedVariables | core/framework/comparator.go:257-279 | the loop rewrites the request as specified, sorts the deployed containers, and leaves pods of different sizes alone |
| ServiceEnv.InfraEnvsInOrder | core/kogitoservice/kogitoinfra_reconciler.go:50-75 | the infras' effect on the environment is one override by their lists in order |
| ServiceEnv.InfraConfigMapsInOrder | core/kogitoservice/kogitoinfra_reconciler.go:50-75 | ConfigMap references are the definition's followed by the infras', in order |
| ServiceEnv.InfraSecretsInOrder | core/kogitoservice/kogitoinfra_reconciler.go:50-75 | Secret references are the definition's followed by the infras', in order |
| ServiceEnv.EnvPrecedence | core/kogitoservice/deployment_reconciler.go:165-168 | the first entry of every name: last infra, else trust store, else spec, else RUNTIME_TYPE, else the creation hook, if the spec names it at most once; a repeated name keeps the spec's last entry |
| ServiceEnv.ContainerSees | core/kogitoservice/deployment_reconciler.go:165-168 | the last entry of every name, which the container sees: the same precedence, unless the creation hook repeats the name, and then the hook's last entry |
| ServiceEnv.LastInfraWins | core/kogitoservice/kogitoinfra_reconciler.go:50-75 | a name the spec does not repeat has the value of the last infra that defines it, wherever that stands in the list |
| ServiceEnv.Service.ReconcileTrustStore | core/kogitoservice/truststore_reconciler.go:57-106 | success means the secret and its store file exist, and adds exactly one volume, with its path and mode; CUSTOM_TRUSTSTORE is then the file's name, CUSTOM_TRUSTSTORE_PASSWORD the password's key in the secret if it has one, and no other variable has changed; each error names its cause |
| ServiceEnv.TrustEnvsSeen | core/kogitoservice/truststore_reconciler.go:81-106 | the looked-up values of the two variables, and that every other name keeps its value, whatever was there before |
| ServiceEnv.Service.ReconcileInfras | core/kogitoservice/kogitoinfra_reconciler.go:50-88 | each infra is fetched twice: success only if each was there and then there and ready, and then the five lists are those of the first fetches, in order |
| ServiceEnv.DeployEnv | core/kogitoservice/deployer.go:94-128 | end to end: an environment is reached only if every named infra was found and then ready, and then the container sees for every name the value of the precedence |
| BuildRestart.NextInv | core/kogitobuild/trigger.go:56-124 | every step of a restart, of a build, of an image change and of other clients keeps the invariant on listed and active builds |
| BuildRestart.ActiveIffMoves | core/kogitobuild/trigger.go:77-79 | the phases that are cancelled are New, Pending and Running: those out of which a build that was asked to stop can still move; out of the four others nothing moves |
| BuildRestart.ActiveBounded | core/kogitobuild/trigger.go:56-124 | in every run the active builds never outnumber those at the start, or one, by more than the image changes that started builds |
| BuildRestart.AtMostOneActive | core/kogitobuild/trigger.go:56-124 | where only sequential StartNewBuild calls create builds, at most one build is ever New, Pending or Running |
| BuildRestart.StartsAfterCancelled | core/kogitobuild/trigger.go:56-66 | a build can be instantiated only if none was listed as active or a listed one was seen Cancelled and still is |
| BuildRestart.LeavesOthersRunning | core/kogitobuild/trigger.go:68-124 | from any state with two active builds there is a run that starts a third while one is still active |
| BuildRestart.CancelsOthersIffAtMostOne | core/kogitobuild/trigger.go:56-124 | where image changes start none, no run starts a build beside an active one if and only if at most one build is active to begin with |
| BuildRestart.ImageChangesBreakThePromise | core/kogitobuild/decorator.go:138-141 | with image changes there is, from every state, a run that starts a build beside an active one |
| BuildRestart.CancelBuild | core/kogitobuild/trigger.go:80-122 | while triggers may create builds: success only when the build was flagged and seen Cancelled; conflicts and failures start no build and revive none |
| BuildRestart.CancelRunningBuilds | core/kogitobuild/trigger.go:68-124 | success means: if any build was New, Pending or Running, one of those is flagged and Cancelled now, whatever was triggered meanwhile |
| BuildRestart.StartNewBuild | core/kogitobuild/trigger.go:56-66 | the active builds are at most those before, or one, plus those triggered meanwhile; with at most one unfinished before and none triggered, after a start every other build is Complete, Failed, Error or Cancelled |
| Conditions.SetFind | core/kogitoservice/status.go:234-256 | setting a condition replaces the entry of its type and no other |
| Conditions.SetDistinct | core/kogitoservice/status.go:234-256 | distinct types stay distinct |
| ServiceStatus.StatusDistinct | core/kogitoservice/status.go:56-83 | over any history condition types are distinct |
| ServiceStatus.FailedOverHistory | core/kogitoservice/status.go:85-123 | over any history Failed is True exactly when the last persisted reconcile failed, keeps reason and message of the most recent failure, and is absent if there was none |
| ServiceStatus.FailureFind | core/kogitoservice/status.go:85-103 | after a failure: Failed with that reason and message; Provisioning True exactly if it is retried and Deployed True exactly if a pod is ready, each with the reason that goes with its value |
| ServiceStatus.SuccessFind | core/kogitoservice/status.go:105-123 | after a success: Provisioning True exactly if available and expected differ, Deployed True exactly if some pod is ready or none is expected, each with its reason; with more than expected neither changes |
| ServiceStatus.StatusAfterLast | core/kogitoservice/status.go:56-123 | what the stored status says after any history that ends in a persisted update |
| ServiceStatus.StatusHandler.HandleStatusUpdate | core/kogitoservice/status.go:47-123 | the step-by-step update stores the specified conditions, or nothing when it cannot finish |
| BuildStatus.BucketsPartition | core/kogitobuild/build.go:140-173 | every name is in the seven buckets together exactly as often as in the build list |
| BuildStatus.PrefixCommutes | core/kogitobuild/build.go:175-216 | selecting the builds of one BuildConfig first or filtering each bucket afterwards gives the same list, in order |
| BuildStatus.NarrowedFilled | core/kogitobuild/build.go:175-216 | for every list and prefix, the seven buckets hold exactly the names of the listed builds of their phases that begin with the prefix |
| BuildStatus.GetBuildsStatusByLabel | core/kogitobuild/build.go:140-173 | the loop fills each bucket with the names of its phase in list order, and loses or doubles none: a name is in a bucket if and only if a listed build of that phase has it, an unknown phase counting as New |
| BuildStatus.GetBuildsStatus | core/kogitobuild/build.go:175-227 | an error exactly when the BuildConfig cannot be read or the builds cannot be listed; a missing BuildConfig gives neither error nor status; else a name is in a bucket if and only if a listed build of that phase has it and it begins with the BuildConfig's name |
| BuildStatus.LatestIsFirstNewest | core/kogitobuild/status.go:136-141 | the reported build is the first in list order among those created last |
| BuildStatus.StatusOverHistory | core/kogitobuild/status.go:122-190 | over any history: types distinct; Running is True exactly if the last update that was not silent was about a New, Pending or Running build or none yet, Successful exactly if it was about a Complete one, both with its reason; Failed is there exactly if some update was a reconcile error or about a Failed or Cancelled build, with reason and message of the last such |
| BuildStatus.LatestBuildReported | core/kogitobuild/status.go:164-190 | the three conditions, with reasons and message, after a latest build of each phase, on any conditions before |
| BuildStatus.FailedIsSticky | core/kogitobuild/status.go:164-180 | Failed once True stays True whatever follows |
| BuildStatus.UnreportedIffErrorOrUnknown | core/kogitobuild/status.go:164-174 | the latest build leaves all conditions as they were, after every history, exactly when its phase is Error or unknown |
| BuildStatus.NewestFirst | core/kogitobuild/status.go:136-141 | the head of the list sorted in place is a build none is newer than, the specified one |
| BuildStatus.BuildStatusHandler.AddCondition | core/kogitobuild/status.go:164-174 | after a Failed or Cancelled build Failed is True with that reason and the build's message and the others False; after New, Pending and Running, Running is True; after Complete, Successful; Running and Successful bear the phase as reason; Error and unknown phases change nothing |
| BuildStatus.BuildStatusHandler.HandleStatusChange | core/kogitobuild/status.go:60-147 | with two listings, either of which may fail: a reconcile error sets Failed with its text; the buckets follow the first listing, conditions and latest build the second, by the phase of the newest build, and none yet is Running; each is left alone otherwise |
| BuildPlan.VersionParts | core/infrastructure/image.go:157-172 | the image version is a prefix of the version, and its parts are the first two |
| BuildPlan.VersionIdempotent | core/infrastructure/image.go:157-172 | truncating twice is truncating once, and an empty version becomes "latest" |
| BuildPlan.DefaultImages | core/kogitobuild/image_stream.go:190-330 | without custom images: the builder stream, the native runtime stream for native builds and the JVM one for others, or what the operator's environment puts in their place, at the operator's version, from its registry |
| BuildPlan.CustomImages | core/kogitobuild/image_stream.go:190-330 | with a custom image: a stream of its own, its tag, and its registry or else the operator's |
| BuildPlan.CustomTags | core/kogitobuild/image_stream.go:240-330 | with a custom tag alone: that tag of the default stream and image |
| BuildPlan.OutputNames | core/kogitobuild/decorator.go:124-241 | the names of the two BuildConfigs and the references they write to, with and without a target |
| BuildPlan.BaseImageIff | core/kogitobuild/image_stream.go:301-318 | a base image reference comes apart into the required stream and tag exactly when the operator's own defaults in it hold no colon |
| BuildPlan.ReferencesClosed | core/kogitobuild/source_build_manager.go:30-51 | with the required tags present, each build's base image is its own required stream and tag and resolves, the builder's output parses to the requested builder stream and tag, the runtime build reads the builder's output and is set off by it, and its output tag is in the requested shared stream |
| BuildPlan.SetsOffRuntimeIff | core/kogitobuild/decorator.go:183-235 | either output of a build sets off a runtime build if and only if its stream is that one's builder stream |
| BuildPlan.SetsOffBuilderIff | core/kogitobuild/decorator.go:124-141 | either output of a build sets off a builder build if and only if that one has remote sources and the stream's "latest" as base image |
| BuildPlan.LoopsIff | core/kogitobuild/decorator.go:124-241 | a build is set off by its own output, directly or through its other half, if and only if its target is its own builder stream or its builder watches the target or that stream |
| BuildPlan.EndlessIff | core/kogitobuild/decorator.go:124-241 | over any number of KogitoBuilds, some build is set off again by what it set off if and only if some of the KogitoBuilds stand in a circle in which each one's target or builder stream is the builder stream or the watched base image of the next |
| BuildPlan.EndlessAlone | core/kogitobuild/decorator.go:124-241 | for one KogitoBuild that is the loop of its own two builds |
| BuildPlan.WatchingEachOther | core/kogitobuild/decorator.go:124-141 | any two among the KogitoBuilds whose builders watch each other's target keep each other going without end |
| BuildPlan.OutputsApartIff | core/kogitobuild/decorator.go:124-241 | two builds write to no common tag if and only if names and targets differ and neither target is the other's builder stream |
| BuildPlan.BaseImagesResolveAfterRace | core/kogitobuild/decorator.go:124-241 | end to end: in any race of any number of builds' controllers, one that returned without error finds both base images then and after every later step |
| Strings.JoinOfSplit | core/infrastructure/image.go:157-172 | joining the parts of a split gives the string back |
| Strings.SplitOfJoin | core/infrastructure/image.go:157-172 | splitting joined parts gives the parts back when none holds the separator |
| Strings.SplitPairIff | core/kogitobuild/image_stream.go:333-342 | "name:tag" comes apart into its halves if and only if neither holds the separator |
| Strings.TrimParts | core/framework/pkcs12.go:63-74 | what is trimmed off is copies of that character, and none is left at either end |
| Strings.LessIff | core/framework/comparator.go:165-174 | one string is less than another if and only if the other begins with it or has the greater character at the first difference |
| ImageRef.ScanIsLeftmostFirst | core/framework/image.go:28-28 | on every input the pattern is applied to, a left-to-right scanner finds exactly the submatches of leftmost-first matching, and the pattern always matches |
| ImageRef.ParsedParts | core/framework/image.go:37-92 | whatever is parsed, name and tag hold no colon, and a non-empty reference has a tag |
| ImageRef.JustTag | core/framework/image.go:66-69 | a colon and a tag is read as that tag alone |
| ImageRef.WithoutColonsSplit | core/framework/image.go:77-77 | of a tag with colons only the colons go |
| ImageRef.PrintThenParse | core/framework/image.go:49-92 | for every well-formed image, parsing what was printed gives the image back, less colons of the tag, and no tag becomes "latest" |
| ImageRef.RoundTripIff | core/framework/image.go:49-92 | for every image of the pattern's characters the round trip is exact if and only if no colon begins the domain or is in the tag |
| ImageRef.PrintInjective | core/framework/image.go:49-60 | well-formed images that print alike are the same, whatever their tags |
| Pem.SplitIsPieces | core/framework/pkcs12.go:63-74 | the recursion, from any index and accumulator, appends the trimmed pieces of what is left |
| Pem.PiecesCover | core/framework/pkcs12.go:63-74 | the raw pieces followed by the remainder are the input |
| Pem.PiecesAreBlocks | core/framework/pkcs12.go:63-74 | every piece holds the end boundary once, at its end, and the remainder holds none |
| Pem.BlocksComeApart | core/framework/pkcs12.go:63-74 | blocks put one after the other come apart into exactly those blocks |
| Pem.SplitOfBlocks | core/framework/pkcs12.go:63-74 | splitting a concatenation of certificate blocks returns them in order, each trimmed of newlines |
| Pem.SplitOfCertificates | core/framework/pkcs12.go:63-74 | certificates with any number of newlines before each, and anything but an end boundary after the last, split into exactly those certificates |
| Pem.CertificatesTrimmed | core/framework/pkcs12.go:63-74 | for every input, each piece is newlines, its certificate, newlines; and no certificate begins or ends with one |
| Pem.CollectCertificates | core/framework/pkcs12.go:38-42 | the loop over the keys collects exactly the certificates of some key, in the list the next two rows describe |
| Pem.CollectedCount | core/framework/pkcs12.go:38-42 | the pieces of key k of n keys are collected 2^(n-1-k) times each |
| Pem.CollectedIsUnion | core/framework/pkcs12.go:38-42 | as a set the collected list is the union of all keys' certificates |

## Left out

- BuildConfig, Route, DeploymentConfig and ServiceMonitor comparators: `Delta` takes the comparator and the server's defaulting as parameters, and labels are compared as for ConfigMaps.
- InjectedEnv.ReconcileSettles: compares container names, environments and one stand-in for all other fields, because the field-by-field comparison of the operator-utils library is not part of this model.
- Sorting.InsertionSort: Go's SliceStable sorts short blocks this way and merges them; that every stable sort ends alike is `Sorting.StableSortUnique`, so the merging is not modelled.
- InjectedEnv.IgnoreInjectedVariables: models `sort.Slice` by a stable sort; the two agree on distinct container names, which the server enforces.
- SharedStream.ReconcileStream: reads one snapshot, although the code fetches the stream twice; `SharedRace` has the two fetches apart, proves what a write between them does, and shows that all other runs are runs of this one.
- BuildPlan.EndlessIff: for operators whose own default names and version hold no colon; what a user writes never does.
- EnvVars.OverrideAssociative: one direction only for a fixed last list, because with equal values the groupings can agree by chance; the exact condition over all outer lists is `EnvVars.AssociativeIffMiddleDistinct`.
- Paths.JoinInjective: for keys without a slash and other than "." and "..", which is what the API server admits in a ConfigMap or Secret.
- BuildRestart.CancelBuild: sleeping and timeouts are a bounded number of polls that may also fail at any time.
- Pem.CollectCertificates: the certificate list is a value; that Go's append may write into spare room of the list passed in changes nothing, since append copies as if through a buffer.
- Owners.AddOwnerReference: references are a UID and a name; API version, kind and the controller flag are not modelled.
- `RemoveOwnerReference` over several resources: it does on each what `Owners.Without` does on one.
- `SetEnvVar`, `SetEnvVarFromSecret` and `GetEnvVarFromContainer`: the same search and put as `EnvVars.Put`, without a result of their own.
- Tag and stream annotations, tag generations, labels, metering, logging and events.
- The image, route and deployment parts of a service's status update, which only decide whether the update is stored; condition transition times.
- Webhook triggers, resource limits, environment settings and proxy settings of BuildConfigs; binary builds.
- The config and properties reconcilers between the spec and the trust store, which add references but no variables; messaging and monitoring.
- Kubernetes and OpenShift client construction, controller setup, generated code, Kafka, Infinispan, Knative, Prometheus and Grafana resources.
- X.509 parsing, PKCS12 encoding, YAML and JSON decoding.
- `DiscoverPortsAndProbesFromImage` and `MergeImageMetadataWithDeploymentConfig`.
