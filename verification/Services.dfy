/** The stored service record and the two views of it that are hashed: the template view (what an
    instance is built from) and the full view (everything a controller acts on).  A hash is taken
    to be injective, so comparing hashes is comparing views.

    Fields that the modelled code only copies are bundled into one opaque string
    (`templateRest`, `desiredRest`, `shape`, ...). */
module Services {
  import opened Common

  datatype OwnedBy = OwnedBy(release: string, revision: int)

  datatype Discovery = Discovery(mode: string, vip: string, locality: string)

  /** Status, StatusReason, StatusMessage, Instances and Update: reconciler-derived. */
  datatype Observed = Observed(status: string, detail: string)

  const PENDING := Observed("Pending", "")

  datatype Metadata = Metadata(
    generation: int,
    templateGeneration: int,
    observedGeneration: int,
    owner: Option<OwnedBy>,
    lastNonZeroScale: int,
    terminating: bool,            // DeletionTimestamp != nil
    finalizers: seq<string>)

  const NO_METADATA := Metadata(0, 0, 0, None, 0, false, [])

  datatype KeyToPath = KeyToPath(key: string, path: string)
  datatype Mount = Mount(name: string, path: string, source: string, items: seq<KeyToPath>)
  datatype VolumeMount = VolumeMount(name: string, path: string, shape: string, claimTemplate: Option<string>)
  datatype Gpu = Gpu(count: int, rest: string)
  datatype Probe = Probe(failureThreshold: int, rest: string)
  datatype Health = Health(liveness: Option<Probe>, readiness: string)
  datatype DependencyKind = OnService | OnConfigmap | OnSecret
  datatype Dependency = Dependency(namespace: string, kind: DependencyKind, name: string)
  datatype NetworkPolicy = NetworkPolicy(ingress: seq<string>, egress: seq<string>)

  datatype Spec = Spec(
    templateRest: string,         // image, command, args, env, envFrom, runtime, process, ports, init steps, ...
    gpu: Option<Gpu>,
    health: Option<Health>,
    secretMounts: seq<Mount>,
    configmapMounts: seq<Mount>,
    volumes: seq<VolumeMount>,
    scale: int,
    desiredRest: string,          // update strategy, drain, labels, registry, restart policy, expose, affinity, ...
    dependencies: seq<Dependency>,
    networkPolicy: Option<NetworkPolicy>)

  datatype Service = Service(
    id: string,
    spec: Spec,
    discovery: Option<Discovery>,
    observed: Observed,
    ingressCert: string,
    meta: Option<Metadata>)

  /** Orders on sort keys */

  predicate KeysLess(a: seq<string>, b: seq<string>) {
    if b == [] then false
    else if a == [] then true
    else if a[0] != b[0] then StringLess(a[0], b[0])
    else KeysLess(a[1..], b[1..])
  }

  lemma {:induction false} KeysLessIsTotalOrder(a: seq<string>, b: seq<string>, c: seq<string>)
    ensures KeysLess(a, b) ==> !KeysLess(b, a)
    ensures KeysLess(a, b) && !KeysLess(c, b) ==> KeysLess(a, c)
    ensures !KeysLess(a, b) && !KeysLess(b, a) ==> a == b
  {
    if a != [] && b != [] { StringLessTotal(a[0], b[0]); }
    if b != [] && c != [] { StringLessTotal(b[0], c[0]); }
    if a != [] && b != [] && c != [] {
      StringLessTotal(a[0], c[0]);
      if StringLess(a[0], b[0]) && StringLess(b[0], c[0]) { StringLessTransitive(a[0], b[0], c[0]); }
      if StringLess(c[0], a[0]) && StringLess(a[0], b[0]) { StringLessTransitive(c[0], a[0], b[0]); }
      KeysLessIsTotalOrder(a[1..], b[1..], c[1..]);
      assert a == [a[0]] + a[1..] && b == [b[0]] + b[1..];
    } else if a != [] && b != [] {
      KeysLessIsTotalOrder(a[1..], b[1..], []);
      assert a == [a[0]] + a[1..] && b == [b[0]] + b[1..];
    }
  }

  function ItemKey(x: KeyToPath): seq<string> { [x.key, x.path] }
  function MountKey(m: Mount): seq<string> { [m.name, m.path, m.source] }
  function VolumeKey(m: VolumeMount): seq<string> { [m.name, m.path] }
  function DependencyKey(d: Dependency): seq<string> {
    [d.namespace, (match d.kind case OnService => "0" case OnConfigmap => "1" case OnSecret => "2"), d.name]
  }

  predicate ItemLess(a: KeyToPath, b: KeyToPath) { KeysLess(ItemKey(a), ItemKey(b)) }
  predicate MountLess(a: Mount, b: Mount) { KeysLess(MountKey(a), MountKey(b)) }
  predicate VolumeLess(a: VolumeMount, b: VolumeMount) { KeysLess(VolumeKey(a), VolumeKey(b)) }
  predicate DependencyLess(a: Dependency, b: Dependency) { KeysLess(DependencyKey(a), DependencyKey(b)) }

  lemma MountLessIsOrder()
    ensures StrictWeakOrder(MountLess)
  {
    forall a: Mount, b: Mount ensures MountLess(a, b) ==> !MountLess(b, a) {
      KeysLessIsTotalOrder(MountKey(a), MountKey(b), []);
    }
    forall a: Mount, b: Mount, c: Mount ensures MountLess(a, b) && !MountLess(c, b) ==> MountLess(a, c) {
      KeysLessIsTotalOrder(MountKey(a), MountKey(b), MountKey(c));
    }
  }

  lemma VolumeLessIsOrder()
    ensures StrictWeakOrder(VolumeLess)
  {
    forall a: VolumeMount, b: VolumeMount ensures VolumeLess(a, b) ==> !VolumeLess(b, a) {
      KeysLessIsTotalOrder(VolumeKey(a), VolumeKey(b), []);
    }
    forall a: VolumeMount, b: VolumeMount, c: VolumeMount
      ensures VolumeLess(a, b) && !VolumeLess(c, b) ==> VolumeLess(a, c) {
      KeysLessIsTotalOrder(VolumeKey(a), VolumeKey(b), VolumeKey(c));
    }
  }

  /** Canonical forms */

  function WithSortedItems(m: Mount): Mount { m.(items := Sort(ItemLess, m.items)) }

  function SortedMounts(mounts: seq<Mount>): seq<Mount> { Sort(MountLess, Map(WithSortedItems, mounts)) }

  /** Keeps whether a mount uses a claim template, but not the template itself. */
  function VolumeShape(m: VolumeMount): VolumeMount {
    if m.claimTemplate.Some? then m.(claimTemplate := Some("")) else m
  }

  function VolumeMountShapes(mounts: seq<VolumeMount>): seq<VolumeMount> {
    Map(VolumeShape, Sort(VolumeLess, mounts))
  }

  function TemplatesOf(mounts: seq<VolumeMount>): seq<VolumeMount> {
    if mounts == [] then []
    else
      var m, rest := mounts[0], TemplatesOf(mounts[1..]);
      if m.claimTemplate.Some? then [VolumeMount(m.name, m.path, "", m.claimTemplate)] + rest else rest
  }

  function ClaimTemplates(mounts: seq<VolumeMount>): seq<VolumeMount> {
    TemplatesOf(Sort(VolumeLess, mounts))
  }

  function DiscoveryWithoutVIP(d: Option<Discovery>): Option<Discovery> {
    if d.None? || (d.value.mode == "" && d.value.locality == "") then None
    else Some(d.value.(vip := ""))
  }

  function HealthWithoutLivenessThreshold(h: Option<Health>): Option<Health> {
    if h.None? || h.value.liveness.None? then h
    else Some(h.value.(liveness := Some(h.value.liveness.value.(failureThreshold := 0))))
  }

  function LivenessThreshold(h: Option<Health>): int {
    if h.None? || h.value.liveness.None? then 0 else h.value.liveness.value.failureThreshold
  }

  /** A zero count means one device. */
  function GpuView(g: Option<Gpu>): Option<Gpu> {
    if g.None? then None else Some(g.value.(count := if g.value.count <= 0 then 1 else g.value.count))
  }

  function NetworkPolicyView(np: Option<NetworkPolicy>): Option<NetworkPolicy> {
    if np.None? || (np.value.ingress == [] && np.value.egress == []) then None else np
  }

  /** Views */

  datatype TemplateView = TemplateView(
    rest: string, gpu: Option<Gpu>, health: Option<Health>,
    secretMounts: seq<Mount>, configmapMounts: seq<Mount>, volumes: seq<VolumeMount>)

  datatype DesiredView = DesiredView(
    scale: int, rest: string, dependencies: seq<Dependency>, networkPolicy: Option<NetworkPolicy>,
    discovery: Option<Discovery>, livenessFailures: int, claimTemplates: seq<VolumeMount>)

  /** Two services have equal template hashes iff `Template` agrees. */
  function Template(s: Spec): TemplateView {
    TemplateView(s.templateRest, GpuView(s.gpu), HealthWithoutLivenessThreshold(s.health),
                 SortedMounts(s.secretMounts), SortedMounts(s.configmapMounts), VolumeMountShapes(s.volumes))
  }

  function Desired(s: Spec, d: Option<Discovery>): DesiredView {
    DesiredView(s.scale, s.desiredRest, Sort(DependencyLess, s.dependencies), NetworkPolicyView(s.networkPolicy),
                DiscoveryWithoutVIP(d), LivenessThreshold(s.health), ClaimTemplates(s.volumes))
  }

  /** Two services have equal full hashes iff both views agree. */
  predicate SameTemplate(a: Service, b: Service) { Template(a.spec) == Template(b.spec) }

  predicate SameHash(a: Service, b: Service) {
    SameTemplate(a, b) && Desired(a.spec, a.discovery) == Desired(b.spec, b.discovery)
  }

  /** What the views do and do not see */

  /** Mounts with one sort key look alike to the template. */
  ghost predicate MountTiesAgree(ms: seq<Mount>) {
    forall x, y :: x in ms && y in ms && MountKey(x) == MountKey(y) ==> WithSortedItems(x) == WithSortedItems(y)
  }

  ghost predicate VolumeTiesAgree(vs: seq<VolumeMount>) {
    forall x, y :: x in vs && y in vs && VolumeKey(x) == VolumeKey(y) ==> VolumeShape(x) == VolumeShape(y)
  }

  /** Sort keys identify volume mounts, claim template bodies included. */
  ghost predicate VolumesIdentified(vs: seq<VolumeMount>) {
    forall x, y :: x in vs && y in vs && VolumeKey(x) == VolumeKey(y) ==> x == y
  }

  lemma MountTies(x: Mount, y: Mount)
    ensures !MountLess(x, y) && !MountLess(y, x) <==> MountKey(x) == MountKey(y)
  {
    KeysLessIsTotalOrder(MountKey(x), MountKey(y), []);
    KeysLessIsTotalOrder(MountKey(y), MountKey(x), []);
    hide KeysLess;
  }

  lemma VolumeTies(x: VolumeMount, y: VolumeMount)
    ensures !VolumeLess(x, y) && !VolumeLess(y, x) <==> VolumeKey(x) == VolumeKey(y)
  {
    KeysLessIsTotalOrder(VolumeKey(x), VolumeKey(y), []);
    KeysLessIsTotalOrder(VolumeKey(y), VolumeKey(x), []);
    hide KeysLess;
  }

  lemma MountTiesAre(ms: seq<Mount>)
    ensures TiesAgree(MountLess, WithSortedItems, ms) <==> MountTiesAgree(ms)
  {
    hide MountLess, MountKey, WithSortedItems;
    forall x, y ensures !MountLess(x, y) && !MountLess(y, x) <==> MountKey(x) == MountKey(y) { MountTies(x, y); }
  }

  lemma VolumeTiesAre(vs: seq<VolumeMount>)
    ensures TiesAgree(VolumeLess, VolumeShape, vs) <==> VolumeTiesAgree(vs)
  {
    hide VolumeLess, VolumeKey, VolumeShape;
    forall x, y ensures !VolumeLess(x, y) && !VolumeLess(y, x) <==> VolumeKey(x) == VolumeKey(y) { VolumeTies(x, y); }
  }

  lemma SortedItemsKeepOrder(x: Mount, y: Mount)
    ensures MountLess(WithSortedItems(x), WithSortedItems(y)) == MountLess(x, y)
  {
    hide KeysLess;
  }

  /** Every reordering of secret or configmap mounts is invisible if and only if mounts with one sort key
      look alike. */
  lemma MountOrderIsHiddenIff(ms: seq<Mount>)
    ensures (forall t :: multiset(t) == multiset(ms) ==> SortedMounts(t) == SortedMounts(ms)) <==> MountTiesAgree(ms)
  {
    hide MountLess, WithSortedItems, MountTiesAgree, StrictWeakOrder;
    MountLessIsOrder();
    forall x, y ensures MountLess(WithSortedItems(x), WithSortedItems(y)) == MountLess(x, y) { SortedItemsKeepOrder(x, y); }
    HidesOrderIff(MountLess, MountLess, WithSortedItems, ms);
    MountTiesAre(ms);
    forall t: seq<Mount> ensures SortedMounts(t) == Map(WithSortedItems, Sort(MountLess, t)) {
      SortCommutesWithMap(MountLess, MountLess, WithSortedItems, t);
    }
    hide Map, Sort, TiesAgree;
  }

  lemma ShapesKeepKeys()
    ensures forall x, y :: VolumeLess(VolumeShape(x), VolumeShape(y)) == VolumeLess(x, y)
  {
    hide KeysLess;
    assert forall m :: VolumeKey(VolumeShape(m)) == VolumeKey(m);
  }

  /** Every reordering of volume mounts is invisible to the template if and only if mounts with one sort key
      have one shape. */
  lemma VolumeOrderIsHiddenIff(vs: seq<VolumeMount>)
    ensures (forall t :: multiset(t) == multiset(vs) ==> VolumeMountShapes(t) == VolumeMountShapes(vs)) <==> VolumeTiesAgree(vs)
  {
    hide *;
    VolumeHidesIff(vs);
    VolumeTiesAre(vs);
    VolumeHides(vs);
  }

  lemma VolumeHidesIff(vs: seq<VolumeMount>)
    ensures HidesOrder(VolumeLess, VolumeShape, vs) <==> TiesAgree(VolumeLess, VolumeShape, vs)
  {
    hide *;
    VolumeLessIsOrder();
    ShapesKeepKeys();
    HidesOrderIff(VolumeLess, VolumeLess, VolumeShape, vs);
  }

  lemma VolumeHides(vs: seq<VolumeMount>)
    ensures HidesOrder(VolumeLess, VolumeShape, vs) <==>
              forall t :: multiset(t) == multiset(vs) ==> VolumeMountShapes(t) == VolumeMountShapes(vs)
  {
    hide Sort, Map;
    if HidesOrder(VolumeLess, VolumeShape, vs) {
      forall t | multiset(t) == multiset(vs) ensures VolumeMountShapes(t) == VolumeMountShapes(vs) {
        assert Map(VolumeShape, Sort(VolumeLess, t)) == Map(VolumeShape, Sort(VolumeLess, vs));
      }
    }
    if forall t :: multiset(t) == multiset(vs) ==> VolumeMountShapes(t) == VolumeMountShapes(vs) {
      forall t: seq<VolumeMount> | multiset(t) == multiset(vs)
        ensures Map(VolumeShape, Sort(VolumeLess, t)) == Map(VolumeShape, Sort(VolumeLess, vs))
      {
        assert VolumeMountShapes(t) == VolumeMountShapes(vs);
      }
    }
  }

  /** `b` is `a` with its mounts reordered. */
  ghost predicate Reorders(a: Spec, b: Spec) {
    && multiset(a.secretMounts) == multiset(b.secretMounts)
    && multiset(a.configmapMounts) == multiset(b.configmapMounts)
    && multiset(a.volumes) == multiset(b.volumes)
    && b == a.(secretMounts := b.secretMounts, configmapMounts := b.configmapMounts, volumes := b.volumes)
  }

  /** The template hash ignores every reordering of mounts if and only if mounts with one sort key look
      alike. */
  lemma ReorderingKeepsTemplateIff(a: Spec)
    ensures (forall b :: Reorders(a, b) ==> Template(b) == Template(a)) <==>
              MountTiesAgree(a.secretMounts) && MountTiesAgree(a.configmapMounts) && VolumeTiesAgree(a.volumes)
  {
    hide SortedMounts, VolumeMountShapes, MountTiesAgree, VolumeTiesAgree;
    MountOrderIsHiddenIff(a.secretMounts);
    MountOrderIsHiddenIff(a.configmapMounts);
    VolumeOrderIsHiddenIff(a.volumes);
    if forall b :: Reorders(a, b) ==> Template(b) == Template(a) {
      forall t | multiset(t) == multiset(a.secretMounts) ensures SortedMounts(t) == SortedMounts(a.secretMounts) {
        var b := a.(secretMounts := t);
        assert Reorders(a, b) && Template(b).secretMounts == SortedMounts(t);
      }
      forall t | multiset(t) == multiset(a.configmapMounts) ensures SortedMounts(t) == SortedMounts(a.configmapMounts) {
        var b := a.(configmapMounts := t);
        assert Reorders(a, b) && Template(b).configmapMounts == SortedMounts(t);
      }
      forall t | multiset(t) == multiset(a.volumes) ensures VolumeMountShapes(t) == VolumeMountShapes(a.volumes) {
        var b := a.(volumes := t);
        assert Reorders(a, b) && Template(b).volumes == VolumeMountShapes(t);
      }
    }
  }

  lemma SortedVolumesIgnoreOrder(s: seq<VolumeMount>, t: seq<VolumeMount>)
    requires multiset(s) == multiset(t) && VolumesIdentified(s)
    ensures Sort(VolumeLess, s) == Sort(VolumeLess, t)
  {
    VolumeLessIsOrder();
    forall x, y | x in s && y in s && !VolumeLess(x, y) && !VolumeLess(y, x) ensures x == y { VolumeTies(x, y); }
    SortIgnoresOrder(VolumeLess, s, t);
  }

  /** Both hashes ignore a reordering of mounts as long as sort keys identify volume mounts and mounts with
      one key look alike. */
  lemma ReorderingMountsKeepsHashes(a: Service, b: Service)
    requires MountTiesAgree(a.spec.secretMounts) && MountTiesAgree(a.spec.configmapMounts) && VolumesIdentified(a.spec.volumes)
    requires Reorders(a.spec, b.spec) && b.discovery == a.discovery
    ensures SameTemplate(a, b) && SameHash(a, b)
  {
    ReorderingKeepsTemplateIff(a.spec);
    SortedVolumesIgnoreOrder(a.spec.volumes, b.spec.volumes);
    hide Template, SortedMounts, Sort;
  }

  /** A case where the order shows: two volume mounts with the same name and path but not the same shape. */
  lemma ReorderingEqualKeysMovesTheTemplate()
    ensures exists s: seq<VolumeMount>, t: seq<VolumeMount> ::
              multiset(s) == multiset(t) && VolumeMountShapes(s) != VolumeMountShapes(t)
  {
    var x, y := VolumeMount("v", "/d", "rw", None), VolumeMount("v", "/d", "ro", None);
    var s, t := [x, y], [y, x];
    KeysLessIsTotalOrder(VolumeKey(x), VolumeKey(y), []);
    assert Sort(VolumeLess, [y]) == [y] && Sort(VolumeLess, [x]) == [x];
    assert s[1..] == [y] && t[1..] == [x];
    assert Sort(VolumeLess, s) == s && Sort(VolumeLess, t) == t;
    assert VolumeMountShapes(s)[0] != VolumeMountShapes(t)[0];
    assert multiset(s) == multiset(t);
  }

  /** The volume lists agree except inside claim template bodies. */
  predicate SameButBodies(v: seq<VolumeMount>, w: seq<VolumeMount>) {
    |v| == |w| && forall i :: 0 <= i < |v| ==> VolumeShape(v[i]) == VolumeShape(w[i])
  }

  lemma BodiesDoNotShape(v: seq<VolumeMount>, w: seq<VolumeMount>)
    requires SameButBodies(v, w)
    ensures VolumeMountShapes(v) == VolumeMountShapes(w)
  {
    SortCommutesWithMap(VolumeLess, VolumeLess, VolumeShape, v);
    SortCommutesWithMap(VolumeLess, VolumeLess, VolumeShape, w);
    assert Map(VolumeShape, v) == Map(VolumeShape, w);
  }

  /** A volume mount and the claim template body it is edited to. */
  datatype Edit = Edit(mount: VolumeMount, body: Option<string>)

  function EditedFrom(e: Edit): VolumeMount { e.mount }
  function EditedTo(e: Edit): VolumeMount { e.mount.(claimTemplate := e.body) }
  predicate EditLess(a: Edit, b: Edit) { VolumeLess(a.mount, b.mount) }

  function Edits(v: seq<VolumeMount>, w: seq<VolumeMount>): (es: seq<Edit>)
    requires |v| == |w|
    ensures |es| == |v| && forall i :: 0 <= i < |v| ==> es[i] == Edit(v[i], w[i].claimTemplate)
  {
    if v == [] then [] else [Edit(v[0], w[0].claimTemplate)] + Edits(v[1..], w[1..])
  }

  /** Equal claim templates, in order, mean that nothing was edited. */
  lemma {:induction false} TemplatesTell(es: seq<Edit>)
    requires forall i :: 0 <= i < |es| ==> es[i].body.Some? == es[i].mount.claimTemplate.Some?
    requires TemplatesOf(Map(EditedFrom, es)) == TemplatesOf(Map(EditedTo, es))
    ensures forall i :: 0 <= i < |es| ==> es[i].body == es[i].mount.claimTemplate
  {
    if es != [] {
      var m, n := es[0].mount, EditedTo(es[0]);
      var x, y := TemplatesOf(Map(EditedFrom, es[1..])), TemplatesOf(Map(EditedTo, es[1..]));
      assert Map(EditedFrom, es)[1..] == Map(EditedFrom, es[1..]) && Map(EditedTo, es)[1..] == Map(EditedTo, es[1..]);
      if m.claimTemplate.Some? {
        var a, b := VolumeMount(m.name, m.path, "", m.claimTemplate), VolumeMount(n.name, n.path, "", n.claimTemplate);
        assert ([a] + x)[0] == a && ([b] + y)[0] == b && ([a] + x)[1..] == x && ([b] + y)[1..] == y;
      }
      TemplatesTell(es[1..]);
    }
  }

  lemma HealthIsThresholdAndRest(a: Option<Health>, b: Option<Health>)
    requires HealthWithoutLivenessThreshold(a) == HealthWithoutLivenessThreshold(b)
    requires LivenessThreshold(a) == LivenessThreshold(b)
    ensures a == b
  {
    if a.Some? && a.value.liveness.Some? && b.Some? && b.value.liveness.Some? {
      var x, y := a.value.liveness.value, b.value.liveness.value;
      assert x.(failureThreshold := 0).rest == y.(failureThreshold := 0).rest;
      assert a.value.(liveness := Some(x.(failureThreshold := 0))).readiness
          == b.value.(liveness := Some(y.(failureThreshold := 0))).readiness;
    }
  }

  lemma EditsAre(v: seq<VolumeMount>, w: seq<VolumeMount>)
    requires SameButBodies(v, w)
    ensures Map(EditedFrom, Edits(v, w)) == v && Map(EditedTo, Edits(v, w)) == w
    ensures forall e :: e in Edits(v, w) ==> e.body.Some? == e.mount.claimTemplate.Some?
  {
    var es := Edits(v, w);
    forall i | 0 <= i < |v| ensures EditedTo(es[i]) == w[i] && (es[i].body.Some? <==> es[i].mount.claimTemplate.Some?) {
      assert VolumeShape(v[i]) == VolumeShape(w[i]);
    }
    assert Map(EditedFrom, es) == v && Map(EditedTo, es) == w;
  }

  lemma EqualTemplatesEqualVolumes(v: seq<VolumeMount>, w: seq<VolumeMount>)
    requires SameButBodies(v, w) && ClaimTemplates(v) == ClaimTemplates(w)
    ensures v == w
  {
    hide TemplatesOf, VolumeLess, Sort, Map, EditLess, EditedFrom, EditedTo;
    var es := Edits(v, w);
    var sorted := Sort(EditLess, es);
    EditsAre(v, w);
    EditsKeepKeys();
    SortCommutesWithMap(EditLess, VolumeLess, EditedFrom, es);
    SortCommutesWithMap(EditLess, VolumeLess, EditedTo, es);
    SameElements(sorted, es);
    assert forall i :: 0 <= i < |sorted| ==> sorted[i] in es;
    TemplatesTell(sorted);
    forall i | 0 <= i < |v| ensures v[i] == w[i] { Unedited(v, w, sorted, i); }
  }

  lemma Unedited(v: seq<VolumeMount>, w: seq<VolumeMount>, sorted: seq<Edit>, i: nat)
    requires SameButBodies(v, w) && i < |v| && (forall e :: e in Edits(v, w) <==> e in sorted)
    requires forall k :: 0 <= k < |sorted| ==> sorted[k].body == sorted[k].mount.claimTemplate
    ensures v[i] == w[i]
  {
    assert Edits(v, w)[i] in sorted;
    assert VolumeShape(v[i]) == VolumeShape(w[i]);
  }

  lemma EditsKeepKeys()
    ensures forall x, y :: VolumeLess(EditedFrom(x), EditedFrom(y)) == EditLess(x, y)
    ensures forall x, y :: VolumeLess(EditedTo(x), EditedTo(y)) == EditLess(x, y)
  {
    hide KeysLess;
  }

  /** `b` differs from `a` at most in claim template bodies and the liveness threshold. */
  predicate LiveEdit(a: Spec, b: Spec) {
    && b == a.(volumes := b.volumes, health := b.health)
    && SameButBodies(a.volumes, b.volumes)
    && HealthWithoutLivenessThreshold(a.health) == HealthWithoutLivenessThreshold(b.health)
  }

  lemma LiveEditKeepsTemplate(a: Spec, b: Spec)
    requires LiveEdit(a, b)
    ensures Template(a) == Template(b)
  {
    BodiesDoNotShape(a.volumes, b.volumes);
  }

  lemma LiveEditMovesDesired(a: Spec, b: Spec, d: Option<Discovery>)
    requires LiveEdit(a, b) && Desired(a, d) == Desired(b, d)
    ensures a == b
  {
    HealthIsThresholdAndRest(a.health, b.health);
    EqualTemplatesEqualVolumes(a.volumes, b.volumes);
  }

  /** Editing only claim template bodies or the liveness threshold advances Generation but rolls nothing:
      the template hash stays and the full hash moves. */
  lemma LiveEditsMoveOnlyTheFullHash(a: Service, b: Service)
    requires LiveEdit(a.spec, b.spec) && b.discovery == a.discovery
    ensures SameTemplate(a, b)
    ensures SameHash(a, b) <==> a.spec == b.spec
  {
    LiveEditKeepsTemplate(a.spec, b.spec);
    if SameHash(a, b) { LiveEditMovesDesired(a.spec, b.spec, a.discovery); }
  }

  function WithVIP(d: Option<Discovery>, vip: string): Option<Discovery> {
    if d.Some? then Some(d.value.(vip := vip))
    else if vip == "" then None
    else Some(Discovery("", vip, ""))
  }

  function VipOf(d: Option<Discovery>): string { if d.Some? then d.value.vip else "" }

  /** Allocating, changing or releasing a VIP moves neither hash. */
  lemma VipIsInvisible(a: Service, vip: string)
    ensures SameHash(a, a.(discovery := WithVIP(a.discovery, vip)))
  {
    assert DiscoveryWithoutVIP(WithVIP(a.discovery, vip)) == DiscoveryWithoutVIP(a.discovery);
  }
}
