/**
 Planning the builds of a KogitoBuild (core/kogitobuild: image_stream.go, decorator.go,
 source_build_manager.go, utils.go; core/infrastructure/image.go): which image streams are required, what
 the two BuildConfigs read and write, and that every reference resolves.
 */
module BuildPlan {
  import opened Options
  import opened Strings
  import opened ImageStreams
  import opened Paths
  import opened Cycles
  import ImageRef
  import RequiredTags
  import SharedStream
  import Owners
  import Delta

  const DefaultBuilderImage := "kogito-s2i-builder"
  const DefaultRuntimeJVM := "kogito-runtime-jvm"
  const DefaultRuntimeNative := "kogito-runtime-native"
  const DefaultImageRegistry := "quay.io/kiegroup"
  const CustomPrefix := "custom-"
  const BuilderSuffix := "-builder"
  const Latest := "latest"

  /** The operator's environment variables, empty when unset, and its version. */
  datatype Operator = Operator(
    builderImage: string, runtimeImage: string, runtimeNativeImage: string, registry: string, version: string)

  datatype KogitoBuild = KogitoBuild(
    name: string, targetRuntime: string, buildImage: string, runtimeImage: string, native: bool, local: bool)

  // ------------------------------------------------------------------ versions

  /** GetKogitoImageVersion: major and minor. */
  function ImageVersion(v: string): string {
    if v == "" then Latest
    else
      var parts := Split(v, '.');
      Join(parts[..if |parts| <= 2 then |parts| else 2], '.')
  }

  lemma {:induction false} JoinTake(parts: seq<string>, n: nat, c: char)
    requires n <= |parts|
    ensures Join(parts[..n], c) <= Join(parts, c)
    decreases n
  {
    if 1 < n {
      JoinTake(parts[1..], n - 1, c);
      assert parts[..n][1..] == parts[1..][..n - 1];
    }
  }

  /** The image version is a leading part of the version, and its own parts are the first two. */
  lemma {:induction false} VersionParts(v: string)
    requires v != ""
    ensures ImageVersion(v) <= v
    ensures Split(ImageVersion(v), '.') == Split(v, '.')[..if |Split(v, '.')| <= 2 then |Split(v, '.')| else 2]
  {
    var parts := Split(v, '.');
    var n := if |parts| <= 2 then |parts| else 2;
    JoinOfSplit(v, '.');
    SplitParts(v, '.');
    JoinTake(parts, n, '.');
    forall p | p in parts[..n] ensures '.' !in p {
      var k :| 0 <= k < n && parts[k] == p;
    }
    SplitOfJoin(parts[..n], '.');
  }

  /** Truncating twice is truncating once; no version is the latest. */
  lemma VersionIdempotent(v: string)
    ensures ImageVersion(ImageVersion(v)) == ImageVersion(v) && ImageVersion("") == "latest"
  {
    if v == "" {
      SplitPlain(Latest, '.');
      assert Join([Latest], '.') == Latest;
    } else {
      VersionParts(v);
      var w := ImageVersion(v);
      var parts := Split(w, '.');
      assert |parts| <= 2 && parts[..|parts|] == parts;
      JoinOfSplit(w, '.');
    }
  }

  // ------------------------------------------------------------------ required streams

  function ImageOf(b: KogitoBuild, isBuilder: bool): ImageRef.Image {
    ImageRef.Parse(if isBuilder then b.buildImage else b.runtimeImage)
  }

  function OrDefault(s: string, d: string): string {
    if s == "" then d else s
  }

  function DefaultName(op: Operator, b: KogitoBuild, isBuilder: bool): string {
    if isBuilder then OrDefault(op.builderImage, DefaultBuilderImage)
    else if b.native then OrDefault(op.runtimeNativeImage, DefaultRuntimeNative)
    else OrDefault(op.runtimeImage, DefaultRuntimeJVM)
  }

  /** resolveKogitoImageName */
  function ImageName(op: Operator, b: KogitoBuild, isBuilder: bool): string {
    OrDefault(ImageOf(b, isBuilder).name, DefaultName(op, b, isBuilder))
  }

  /** resolveKogitoImageTag */
  function ImageTag(op: Operator, b: KogitoBuild, isBuilder: bool): string {
    OrDefault(ImageOf(b, isBuilder).tag, ImageVersion(op.version))
  }

  /** resolveKogitoImageStreamName */
  function StreamName(op: Operator, b: KogitoBuild, isBuilder: bool): string {
    var name := ImageName(op, b, isBuilder);
    if ImageOf(b, isBuilder).name != "" then CustomPrefix + name else name
  }

  /** newKogitoImageStream: the one required tag of the required stream. */
  function Required(op: Operator, b: KogitoBuild, isBuilder: bool): RequiredTags.Need {
    var registry := OrDefault(ImageOf(b, isBuilder).domain, OrDefault(op.registry, DefaultImageRegistry));
    var tag := ImageTag(op, b, isBuilder);
    RequiredTags.Need(StreamName(op, b, isBuilder),
                 Tag(tag, Some(registry + "/" + ImageName(op, b, isBuilder) + ":" + tag), false))
  }

  /** The default builder and runtime images, native builds apart; each may be replaced by the operator's environment. */
  lemma DefaultImages(op: Operator, b: KogitoBuild)
    ensures b.buildImage == "" ==>
              Required(op, b, true).stream == if op.builderImage == "" then "kogito-s2i-builder" else op.builderImage
    ensures b.runtimeImage == "" && b.native ==>
              Required(op, b, false).stream ==
              if op.runtimeNativeImage == "" then "kogito-runtime-native" else op.runtimeNativeImage
    ensures b.runtimeImage == "" && !b.native ==>
              Required(op, b, false).stream == if op.runtimeImage == "" then "kogito-runtime-jvm" else op.runtimeImage
    ensures b.buildImage == "" ==> ComesFrom(Required(op, b, true), RegistryOf(op), Required(op, b, true).stream)
    ensures b.buildImage == "" ==> Required(op, b, true).tag.name == ImageVersion(op.version)
    ensures b.runtimeImage == "" ==> ComesFrom(Required(op, b, false), RegistryOf(op), Required(op, b, false).stream)
    ensures b.runtimeImage == "" ==> Required(op, b, false).tag.name == ImageVersion(op.version)
  {
  }

  function RegistryOf(op: Operator): string {
    if op.registry == "" then "quay.io/kiegroup" else op.registry
  }

  /** The required tag points to "registry/name:tag". */
  predicate ComesFrom(need: RequiredTags.Need, registry: string, name: string) {
    need.tag == Tag(need.tag.name, Some(registry + "/" + name + ":" + need.tag.name), false)
  }

  /** A custom image has a stream of its own, and its own tag and registry. */
  lemma CustomImages(op: Operator, b: KogitoBuild, isBuilder: bool, img: ImageRef.Image)
    requires img.name != "" && ImageRef.Parse(if isBuilder then b.buildImage else b.runtimeImage) == img
    ensures Required(op, b, isBuilder).stream == "custom-" + img.name && Required(op, b, isBuilder).tag.name == img.tag
    ensures ComesFrom(Required(op, b, isBuilder), if img.domain == "" then RegistryOf(op) else img.domain, img.name)
  {
    ImageRef.ParsedParts(if isBuilder then b.buildImage else b.runtimeImage);
    assert (if isBuilder then b.buildImage else b.runtimeImage) != "";
  }

  /** A custom tag alone leaves stream and image as they are by default. */
  lemma CustomTags(op: Operator, b: KogitoBuild, isBuilder: bool, t: string)
    requires t != "" && ':' !in t && (if isBuilder then b.buildImage else b.runtimeImage) == ":" + t
    ensures var need := Required(op, b, isBuilder);
            && need.stream == Required(op, b.(buildImage := "", runtimeImage := ""), isBuilder).stream
            && need.tag.name == t && ComesFrom(need, RegistryOf(op), need.stream)
  {
    ImageRef.JustTag(t);
  }

  // ------------------------------------------------------------------ build configs

  /** Image stream tag references: "stream:tag". */
  datatype BuildConfig = BuildConfig(
    name: string, base: string, output: string, source: Option<string>, imageTriggers: seq<string>)

  function Reference(stream: string, tag: string): string {
    stream + ":" + tag
  }

  /** getOutputImageStreamNameTag, and how OpenShift reads a reference. */
  function NameTag(reference: string): (string, string) {
    var parts := Split(reference, ':');
    (parts[0], if |parts| > 1 then parts[1] else Latest)
  }

  function ApplicationName(b: KogitoBuild): string {
    OrDefault(b.targetRuntime, b.name)
  }

  function BuilderOutput(b: KogitoBuild): string {
    Reference(b.name + BuilderSuffix, Latest)
  }

  /** decoratorForSourceBuilder, then the decorator for local or remote sources; webhook triggers are not modelled. */
  function BuilderConfig(op: Operator, b: KogitoBuild): BuildConfig {
    var base := Reference(StreamName(op, b, true), ImageTag(op, b, true));
    BuildConfig(b.name + BuilderSuffix, base, BuilderOutput(b), None, if b.local then [] else [base])
  }

  /** decoratorForRuntimeBuilder, then decoratorForSourceRuntimeBuilder. */
  function RuntimeConfig(op: Operator, b: KogitoBuild): BuildConfig {
    BuildConfig(b.name, Reference(StreamName(op, b, false), ImageTag(op, b, false)),
                Reference(ApplicationName(b), Latest), Some(BuilderOutput(b)), [BuilderOutput(b)])
  }

  /** newOutputImageStreamForBuilder */
  function BuilderStream(op: Operator, b: KogitoBuild): (string, seq<Tag>) {
    var (name, tag) := NameTag(BuilderConfig(op, b).output);
    (name, [Tag(tag, None, false)])
  }

  function StreamKey(name: string): Delta.Key {
    Delta.Key("ImageStream", name)
  }

  /** newOutputImageStreamForRuntime with this build as owner: the shared stream, with the output tag added. */
  function RuntimeClaim(op: Operator, b: KogitoBuild, owner: Owners.OwnerRef): SharedStream.Claim {
    var (name, tag) := NameTag(RuntimeConfig(op, b).output);
    SharedStream.Claim(owner, StreamKey(name), Tag(tag, None, false))
  }

  // ------------------------------------------------------------------ closure

  /** A reference resolves: it names a stream of the store and one of its tags. */
  predicate Resolves(store: RequiredTags.Store, reference: string) {
    var (name, tag) := NameTag(reference);
    RequiredTags.HasTag(store, name, tag)
  }

  lemma NameTagOfReference(stream: string, tag: string)
    requires ':' !in stream && ':' !in tag
    ensures NameTag(Reference(stream, tag)) == (stream, tag) && NameTag(stream) == (stream, "latest")
  {
    SplitPlain(stream, ':');
    SplitPair(stream, ':', tag);
    assert stream + [':'] + tag == Reference(stream, tag);
  }

  /** What the operator itself supplies for this half of the build holds no colon. */
  predicate PlainDefaults(op: Operator, b: KogitoBuild, isBuilder: bool) {
    && (ImageOf(b, isBuilder).name == "" ==> ':' !in DefaultName(op, b, isBuilder))
    && (ImageOf(b, isBuilder).tag == "" ==> ':' !in ImageVersion(op.version))
  }

  lemma PartsPlainIff(op: Operator, b: KogitoBuild, isBuilder: bool)
    ensures ':' !in StreamName(op, b, isBuilder) && ':' !in ImageTag(op, b, isBuilder) <==>
            PlainDefaults(op, b, isBuilder)
  {
    ImageRef.ParsedParts(if isBuilder then b.buildImage else b.runtimeImage);
    var name := ImageOf(b, isBuilder).name;
    assert ':' !in CustomPrefix;
    if name != "" { assert ':' !in CustomPrefix + name; }
  }

  /**
   A base image reference comes apart into the required stream and the required tag exactly when the
   operator's defaults that go into it hold no colon; what a user writes as image never gets in the way.
   */
  lemma BaseImageIff(op: Operator, b: KogitoBuild, isBuilder: bool)
    ensures var need := Required(op, b, isBuilder);
            (Split(Reference(StreamName(op, b, isBuilder), ImageTag(op, b, isBuilder)), ':') ==
             [need.stream, need.tag.name])
            <==> PlainDefaults(op, b, isBuilder)
  {
    var stream, tag := StreamName(op, b, isBuilder), ImageTag(op, b, isBuilder);
    SplitPairIff(stream, ':', tag);
    assert stream + [':'] + tag == Reference(stream, tag);
    PartsPlainIff(op, b, isBuilder);
  }

  /** What the two builds are called and write: the builder to its own stream, the runtime build to its target's. */
  lemma OutputNames(op: Operator, b: KogitoBuild)
    ensures BuilderConfig(op, b).name == b.name + "-builder" && BuilderConfig(op, b).output == b.name + "-builder" + ":latest"
    ensures RuntimeConfig(op, b).name == b.name
    ensures RuntimeConfig(op, b).output == (if b.targetRuntime == "" then b.name else b.targetRuntime) + ":latest"
  {
    assert ":" + Latest == ":latest";
  }

  /**
   Closure.  Once the required-stream pass has returned without error, both base images resolve; the
   builder writes to the builder stream that is requested with it; the runtime build reads what the
   builder writes; and the runtime output tag is in the requested runtime stream, which keeps whatever
   tags and owners it had.
   */
  lemma ReferencesClosed(op: Operator, b: KogitoBuild, store: RequiredTags.Store, shared: SharedStream.Store,
                         owner: Owners.OwnerRef)
    requires PlainDefaults(op, b, true) && PlainDefaults(op, b, false)
    requires ':' !in b.name && ':' !in b.targetRuntime
    requires RequiredTags.Present(store, Required(op, b, true)) && RequiredTags.Present(store, Required(op, b, false))
    ensures Resolves(store, BuilderConfig(op, b).base) && Resolves(store, RuntimeConfig(op, b).base)
    ensures NameTag(BuilderConfig(op, b).base) == (Required(op, b, true).stream, Required(op, b, true).tag.name)
    ensures NameTag(RuntimeConfig(op, b).base) == (Required(op, b, false).stream, Required(op, b, false).tag.name)
    ensures var (name, tag) := NameTag(BuilderConfig(op, b).output);
            BuilderStream(op, b).0 == name == b.name + BuilderSuffix && BuilderStream(op, b).1 == [Tag(tag, None, false)]
    ensures RuntimeConfig(op, b).source == Some(BuilderConfig(op, b).output)
    ensures RuntimeConfig(op, b).imageTriggers == [BuilderConfig(op, b).output]
    ensures var (name, tag) := NameTag(RuntimeConfig(op, b).output);
            var c := RuntimeClaim(op, b, owner);
            && name == ApplicationName(b) && c.key == StreamKey(name) && c.tag == Tag(tag, None, false)
            && HasName(SharedStream.Wanted(shared, c).tags, tag)
            && (c.key in shared ==> shared[c.key].tags <= SharedStream.Wanted(shared, c).tags)
  {
    PartsPlainIff(op, b, true);
    PartsPlainIff(op, b, false);
    NameTagOfReference(StreamName(op, b, true), ImageTag(op, b, true));
    NameTagOfReference(StreamName(op, b, false), ImageTag(op, b, false));
    assert ':' !in BuilderSuffix && ':' !in Latest;
    NameTagOfReference(b.name + BuilderSuffix, Latest);
    NameTagOfReference(ApplicationName(b), Latest);
    assert BuilderStream(op, b).1[0].name == Latest;
  }

  lemma ReferenceIff(stream: string, tag: string, other: string)
    requires ':' !in tag
    ensures Reference(stream, tag) == Reference(other, Latest) <==> stream == other && tag == Latest
  {
    if Reference(stream, tag) == Reference(other, Latest) {
      var p, q := stream + ":", other + ":";
      assert p + tag == Reference(stream, tag) && q + Latest == Reference(other, Latest);
      assert ':' !in Latest;
      LaterCut(p, tag, q, Latest);
      LaterCut(q, Latest, p, tag);
      assert |p| == |q|;
      assert Reference(stream, tag)[..|stream|] == stream && Reference(other, Latest)[..|other|] == other;
      assert Reference(stream, tag)[|p|..] == tag && Reference(other, Latest)[|q|..] == Latest;
    }
  }

  lemma SuffixInjective(a: string, b: string)
    ensures a + BuilderSuffix == b + BuilderSuffix <==> a == b
  {
    assert (a + BuilderSuffix)[..|a + BuilderSuffix| - |BuilderSuffix|] == a;
    assert (b + BuilderSuffix)[..|b + BuilderSuffix| - |BuilderSuffix|] == b;
  }

  // ------------------------------------------------------------------ what sets off what

  function Config(op: Operator, b: KogitoBuild, isBuilder: bool): BuildConfig {
    if isBuilder then BuilderConfig(op, b) else RuntimeConfig(op, b)
  }

  function OutputStream(b: KogitoBuild, isBuilder: bool): string {
    if isBuilder then b.name + BuilderSuffix else ApplicationName(b)
  }

  /** What the one writes is an image-change trigger of the other. */
  predicate SetsOff(from: BuildConfig, to: BuildConfig) {
    from.output in to.imageTriggers
  }

  /** The builder build of `b` waits for changes of the "latest" tag of this stream. */
  predicate Watches(op: Operator, b: KogitoBuild, stream: string) {
    !b.local && StreamName(op, b, true) == stream && ImageTag(op, b, true) == Latest
  }

  /** What sets off a runtime build: whatever writes to the stream of its builder. */
  lemma SetsOffRuntimeIff(op: Operator, a: KogitoBuild, isBuilder: bool, b: KogitoBuild)
    ensures SetsOff(Config(op, a, isBuilder), RuntimeConfig(op, b)) <==>
            OutputStream(a, isBuilder) == b.name + BuilderSuffix
  {
    assert ':' !in Latest;
    ReferenceIff(OutputStream(a, isBuilder), Latest, b.name + BuilderSuffix);
    assert Config(op, a, isBuilder).output == Reference(OutputStream(a, isBuilder), Latest);
  }

  /** What sets off a builder build: with remote sources, whatever writes to its base image. */
  lemma SetsOffBuilderIff(op: Operator, a: KogitoBuild, isBuilder: bool, b: KogitoBuild)
    requires PlainDefaults(op, b, true)
    ensures SetsOff(Config(op, a, isBuilder), BuilderConfig(op, b)) <==> Watches(op, b, OutputStream(a, isBuilder))
  {
    PartsPlainIff(op, b, true);
    ReferenceIff(StreamName(op, b, true), ImageTag(op, b, true), OutputStream(a, isBuilder));
    assert Config(op, a, isBuilder).output == Reference(OutputStream(a, isBuilder), Latest);
  }

  /** One of the two builds is set off by its own output, directly or through the other. */
  predicate Loops(op: Operator, b: KogitoBuild) {
    exists p, q :: SetsOff(Config(op, b, p), Config(op, b, q)) && SetsOff(Config(op, b, q), Config(op, b, p))
  }

  /**
   A build starts itself again, without end, exactly when its target is its own builder stream, or when its
   sources are remote and its builder image is the "latest" of its target or of its own builder stream.
   */
  lemma LoopsIff(op: Operator, b: KogitoBuild)
    requires PlainDefaults(op, b, true)
    ensures Loops(op, b) <==>
            || ApplicationName(b) == b.name + BuilderSuffix
            || Watches(op, b, ApplicationName(b)) || Watches(op, b, b.name + BuilderSuffix)
  {
    var builder, runtime := Config(op, b, true), Config(op, b, false);
    SetsOffRuntimeIff(op, b, true, b);
    SetsOffRuntimeIff(op, b, false, b);
    SetsOffBuilderIff(op, b, true, b);
    SetsOffBuilderIff(op, b, false, b);
    assert SetsOff(builder, runtime);
    if SetsOff(runtime, runtime) || SetsOff(builder, builder) || SetsOff(runtime, builder) {
      assert Loops(op, b) by {
        if SetsOff(runtime, runtime) {
          assert SetsOff(Config(op, b, false), Config(op, b, false));
        } else if SetsOff(builder, builder) {
          assert SetsOff(Config(op, b, true), Config(op, b, true));
        } else {
          assert SetsOff(Config(op, b, true), Config(op, b, false)) && SetsOff(Config(op, b, false), Config(op, b, true));
        }
      }
    }
  }

  /** What one build writes is neither another's builder stream nor its "latest" base image. */
  predicate KeepsOff(op: Operator, a: KogitoBuild, b: KogitoBuild) {
    && ApplicationName(a) != b.name + BuilderSuffix
    && !Watches(op, b, ApplicationName(a)) && !Watches(op, b, a.name + BuilderSuffix)
  }

  /** What sets off what, when all keep off: a builder sets off the runtime build of that name, and that is all. */
  lemma KeepsOffIff(op: Operator, a: KogitoBuild, b: KogitoBuild)
    requires PlainDefaults(op, b, true)
    ensures KeepsOff(op, a, b) <==>
            && !SetsOff(Config(op, a, false), Config(op, b, false))
            && !SetsOff(Config(op, a, false), Config(op, b, true))
            && !SetsOff(Config(op, a, true), Config(op, b, true))
  {
    SetsOffRuntimeIff(op, a, false, b);
    SetsOffBuilderIff(op, a, true, b);
    SetsOffBuilderIff(op, a, false, b);
  }

  // ------------------------------------------------------------------ builds that set each other off

  /** The builder or the runtime build of one of several KogitoBuilds. */
  datatype Node = Node(i: nat, isBuilder: bool)

  predicate Follows(op: Operator, bs: seq<KogitoBuild>, x: Node, y: Node) {
    x.i < |bs| && y.i < |bs| && SetsOff(Config(op, bs[x.i], x.isBuilder), Config(op, bs[y.i], y.isBuilder))
  }

  function Triggers(op: Operator, bs: seq<KogitoBuild>): (Node, Node) -> bool {
    (x: Node, y: Node) => Follows(op, bs, x, y)
  }

  /** A build is set off again by what it set off: rebuilding does not end. */
  ghost predicate Endless(op: Operator, bs: seq<KogitoBuild>) {
    Cyclic(Triggers(op, bs))
  }

  /** What a KogitoBuild of the one name writes is the builder stream or the watched base image of one of the other. */
  ghost predicate Reaches(op: Operator, bs: seq<KogitoBuild>, from: string, to: string) {
    exists i, j :: 0 <= i < |bs| && 0 <= j < |bs| && bs[i].name == from && bs[j].name == to && !KeepsOff(op, bs[i], bs[j])
  }

  ghost function Reach(op: Operator, bs: seq<KogitoBuild>): (string, string) -> bool {
    (from: string, to: string) => Reaches(op, bs, from, to)
  }

  /** Going by the specs alone, some of the KogitoBuilds stand in a circle in which each reaches the next. */
  ghost predicate Circular(op: Operator, bs: seq<KogitoBuild>) {
    Cyclic(Reach(op, bs))
  }

  predicate AllPlain(op: Operator, bs: seq<KogitoBuild>) {
    forall i :: 0 <= i < |bs| ==> PlainDefaults(op, bs[i], true)
  }

  function NameOf(bs: seq<KogitoBuild>, x: Node): string {
    if x.i < |bs| then bs[x.i].name else ""
  }

  /** From a builder build to the runtime build that belongs to it. */
  predicate Inside(bs: seq<KogitoBuild>, x: Node, y: Node) {
    x.isBuilder && !y.isBuilder && NameOf(bs, x) == NameOf(bs, y)
  }

  /** Any other trigger goes from a KogitoBuild to one that it reaches. */
  lemma FollowsReaches(op: Operator, bs: seq<KogitoBuild>, x: Node, y: Node)
    requires AllPlain(op, bs) && Follows(op, bs, x, y) && !Inside(bs, x, y)
    ensures Reaches(op, bs, NameOf(bs, x), NameOf(bs, y))
  {
    KeepsOffIff(op, bs[x.i], bs[y.i]);
    SetsOffRuntimeIff(op, bs[x.i], true, bs[y.i]);
    SuffixInjective(bs[x.i].name, bs[y.i].name);
  }

  /** The node writes to the builder stream of that name, so it sets off whatever the builder build does. */
  predicate StandsFor(bs: seq<KogitoBuild>, x: Node, name: string) {
    x.i < |bs| && OutputStream(bs[x.i], x.isBuilder) == name + BuilderSuffix
  }

  lemma FollowsIff(op: Operator, bs: seq<KogitoBuild>, x: Node, y: Node)
    requires AllPlain(op, bs) && x.i < |bs| && y.i < |bs|
    ensures Follows(op, bs, x, y) <==>
            if y.isBuilder then Watches(op, bs[y.i], OutputStream(bs[x.i], x.isBuilder))
            else StandsFor(bs, x, bs[y.i].name)
  {
    if y.isBuilder {
      SetsOffBuilderIff(op, bs[x.i], x.isBuilder, bs[y.i]);
    } else {
      SetsOffRuntimeIff(op, bs[x.i], x.isBuilder, bs[y.i]);
    }
  }

  /** Where the way from `bs[i]` to `bs[j]` ends. */
  function End(bs: seq<KogitoBuild>, i: nat, j: nat): Node {
    if i < |bs| && j < |bs| && ApplicationName(bs[i]) == bs[j].name + BuilderSuffix then Node(i, false) else Node(j, true)
  }

  ghost function Arrival(op: Operator, bs: seq<KogitoBuild>, from: string, to: string): Node {
    if Reaches(op, bs, from, to) then
      var i, j :| 0 <= i < |bs| && 0 <= j < |bs| && bs[i].name == from && bs[j].name == to && !KeepsOff(op, bs[i], bs[j]);
      End(bs, i, j)
    else Node(0, true)
  }

  lemma LeadsBy<T(!new)>(path: seq<T>, rel: (T, T) -> bool)
    requires |path| >= 2 && Walk(path, rel)
    ensures Leads(rel, path[0], path[|path| - 1])
  {
  }

  /** From anything that stands for `bs[i]` there is a way to something that stands for `bs[j]`. */
  lemma LeadsToEnd(op: Operator, bs: seq<KogitoBuild>, x: Node, i: nat, j: nat)
    requires AllPlain(op, bs) && i < |bs| && j < |bs| && StandsFor(bs, x, bs[i].name) && !KeepsOff(op, bs[i], bs[j])
    ensures Leads(Triggers(op, bs), x, End(bs, i, j))
  {
    var y, runtime, rel := End(bs, i, j), Node(i, false), Triggers(op, bs);
    FollowsIff(op, bs, x, runtime);
    FollowsIff(op, bs, x, y);
    if y == runtime || Watches(op, bs[j], bs[i].name + BuilderSuffix) {
      assert rel(x, y);
      LeadsBy([x, y], rel);
    } else {
      FollowsIff(op, bs, runtime, y);
      assert rel(x, runtime) && rel(runtime, y);
      LeadsBy([x, runtime, y], rel);
    }
  }

  lemma {:induction false} ArrivalIsEnd(op: Operator, bs: seq<KogitoBuild>, from: string, to: string)
    returns (i: nat, j: nat)
    requires Reaches(op, bs, from, to)
    ensures i < |bs| && j < |bs| && bs[i].name == from && bs[j].name == to && !KeepsOff(op, bs[i], bs[j])
    ensures Arrival(op, bs, from, to) == End(bs, i, j)
  {
    i, j :| 0 <= i < |bs| && 0 <= j < |bs| && bs[i].name == from && bs[j].name == to &&
            !KeepsOff(op, bs[i], bs[j]) && Arrival(op, bs, from, to) == End(bs, i, j);
  }

  lemma {:induction false} EndlessIsCircular(op: Operator, bs: seq<KogitoBuild>)
    requires AllPlain(op, bs) && Endless(op, bs)
    ensures Circular(op, bs)
  {
    var rel, big := Triggers(op, bs), Reach(op, bs);
    var index, inside := (x: Node) => NameOf(bs, x), (x: Node, y: Node) => Inside(bs, x, y);
    forall x, y | rel(x, y) ensures if inside(x, y) then index(x) == index(y) else big(index(x), index(y)) {
      if !inside(x, y) { FollowsReaches(op, bs, x, y); }
    }
    ContractCycle(rel, index, inside, big);
  }

  lemma {:induction false} CircularIsEndless(op: Operator, bs: seq<KogitoBuild>)
    requires AllPlain(op, bs) && Circular(op, bs)
    ensures Endless(op, bs)
  {
    var rel, big := Triggers(op, bs), Reach(op, bs);
    var stands := (x: Node, name: string) => StandsFor(bs, x, name);
    var arrival := (from: string, to: string) => Arrival(op, bs, from, to);
    forall from, to | big(from, to) ensures stands(arrival(from, to), to) {
      var i, j := ArrivalIsEnd(op, bs, from, to);
    }
    forall x, from, to | stands(x, from) && big(from, to) ensures Leads(rel, x, arrival(from, to)) {
      var i, j := ArrivalIsEnd(op, bs, from, to);
      LeadsToEnd(op, bs, x, i, j);
    }
    LiftCycle(rel, stands, arrival, big);
  }

  /**
   Over any number of KogitoBuilds: rebuilding goes on without end if and only if some of them stand in a
   circle in which each reaches the next, that is, writes to the builder stream or to the watched base image
   of the next.
   */
  lemma EndlessIff(op: Operator, bs: seq<KogitoBuild>)
    requires AllPlain(op, bs)
    ensures Endless(op, bs) <==> Circular(op, bs)
  {
    if Endless(op, bs) { EndlessIsCircular(op, bs); }
    if Circular(op, bs) { CircularIsEndless(op, bs); }
  }

  /** For one KogitoBuild alone this is the loop of its two builds. */
  lemma {:induction false} EndlessAlone(op: Operator, b: KogitoBuild)
    requires PlainDefaults(op, b, true)
    ensures Endless(op, [b]) <==> Loops(op, b)
  {
    var bs, big := [b], Reach(op, [b]);
    EndlessIff(op, bs);
    LoopsIff(op, b);
    if !KeepsOff(op, b, b) {
      ReachesBy(op, bs, 0, 0);
      BackAndForth(big, b.name, b.name);
    }
    if Circular(op, bs) {
      var ids: seq<string> :| |ids| >= 2 && ids[0] == ids[|ids| - 1] && Walk(ids, big);
      assert big(ids[0], ids[0 + 1]);
    }
  }

  lemma ReachesBy(op: Operator, bs: seq<KogitoBuild>, i: nat, j: nat)
    requires i < |bs| && j < |bs| && !KeepsOff(op, bs[i], bs[j])
    ensures Reach(op, bs)(bs[i].name, bs[j].name)
  {
  }

  /** Two that watch each other's target never come to rest, although neither need loop alone. */
  lemma {:induction false} WatchingEachOther(op: Operator, bs: seq<KogitoBuild>, i: nat, j: nat)
    requires AllPlain(op, bs) && i < |bs| && j < |bs|
    requires Watches(op, bs[i], ApplicationName(bs[j])) && Watches(op, bs[j], ApplicationName(bs[i]))
    ensures Endless(op, bs)
  {
    ReachesBy(op, bs, i, j);
    ReachesBy(op, bs, j, i);
    BackAndForth(Reach(op, bs), bs[i].name, bs[j].name);
    EndlessIff(op, bs);
  }

  /** Two builds never write to the same tag exactly when their names differ, their targets differ, and no target is a builder stream. */
  lemma OutputsApartIff(op: Operator, a: KogitoBuild, b: KogitoBuild)
    ensures {BuilderConfig(op, a).output, RuntimeConfig(op, a).output} !!
            {BuilderConfig(op, b).output, RuntimeConfig(op, b).output} <==>
            && a.name != b.name && ApplicationName(a) != ApplicationName(b)
            && ApplicationName(a) != b.name + BuilderSuffix && ApplicationName(b) != a.name + BuilderSuffix
  {
    assert ':' !in Latest;
    ReferenceIff(ApplicationName(a), Latest, b.name + BuilderSuffix);
    ReferenceIff(ApplicationName(b), Latest, a.name + BuilderSuffix);
    ReferenceIff(ApplicationName(a), Latest, ApplicationName(b));
    ReferenceIff(a.name + BuilderSuffix, Latest, b.name + BuilderSuffix);
    SuffixInjective(a.name, b.name);
    var x, y, u, v := BuilderConfig(op, a).output, RuntimeConfig(op, a).output,
                      BuilderConfig(op, b).output, RuntimeConfig(op, b).output;
    assert {x, y} !! {u, v} <==> x != u && x != v && y != u && y != v by {
      if x == u { assert x in {x, y} && x in {u, v}; }
      if x == v { assert x in {x, y} && x in {u, v}; }
      if y == u { assert y in {x, y} && y in {u, v}; }
      if y == v { assert y in {x, y} && y in {u, v}; }
    }
  }

  /** The RequiredTags build of a KogitoBuild: its two required tags. */
  function RaceBuild(op: Operator, b: KogitoBuild): RequiredTags.Build {
    RequiredTags.Build(Required(op, b, true), Required(op, b, false))
  }

  /**
   End to end: in any race between the controllers of any number of builds, a controller that has
   returned without error finds both of its base images, then and after every later step.
   */
  lemma BaseImagesResolveAfterRace(op: Operator, bs: seq<KogitoBuild>, s0: RequiredTags.State,
                                   run: seq<RequiredTags.Action>, more: seq<RequiredTags.Action>, i: nat)
    requires i < |bs| && PlainDefaults(op, bs[i], true) && PlainDefaults(op, bs[i], false)
    requires RequiredTags.Init(RaceBuilds(op, bs), s0)
    requires var w := RequiredTags.Exec(RequiredTags.RefusesUnversioned, RaceBuilds(op, bs), s0, run).workers[i];
             w.pc.Returned? && w.pc.ok
    ensures var store := RequiredTags.Exec(RequiredTags.RefusesUnversioned, RaceBuilds(op, bs), s0, run + more).store;
            Resolves(store, BuilderConfig(op, bs[i]).base) && Resolves(store, RuntimeConfig(op, bs[i]).base)
  {
    var cfg, b := RaceBuilds(op, bs), bs[i];
    var mid := RequiredTags.Exec(RequiredTags.RefusesUnversioned, cfg, s0, run);
    var end := RequiredTags.Exec(RequiredTags.RefusesUnversioned, cfg, s0, run + more);
    RequiredTags.ReturnIsTruthful(cfg, s0, run, i);
    RequiredTags.NoTagLost(cfg, s0, run, more);
    RequiredTags.PresentKept(mid.store, end.store, Required(op, b, true));
    RequiredTags.PresentKept(mid.store, end.store, Required(op, b, false));
    PartsPlainIff(op, b, true);
    PartsPlainIff(op, b, false);
    NameTagOfReference(StreamName(op, b, true), ImageTag(op, b, true));
    NameTagOfReference(StreamName(op, b, false), ImageTag(op, b, false));
  }

  function RaceBuilds(op: Operator, bs: seq<KogitoBuild>): (r: seq<RequiredTags.Build>)
    ensures |r| == |bs|
  {
    seq(|bs|, i requires 0 <= i < |bs| => RaceBuild(op, bs[i]))
  }
}
