/** What the two hashes see, field by field on the specs themselves.  `Services` says what they overlook. */
module Views {
  import opened Common
  import opened Services
  import opened Resources
  import opened ServerState
  import opened Counters

  /** Up to the order of its items. */
  datatype SeenMount = SeenMount(name: string, path: string, source: string, items: multiset<KeyToPath>)

  /** Whether there is a claim template, not what it says. */
  datatype SeenVolume = SeenVolume(name: string, path: string, shape: string, claims: bool)

  ghost function MountSeen(m: Mount): SeenMount { SeenMount(m.name, m.path, m.source, multiset(m.items)) }
  ghost function VolumeSeen(v: VolumeMount): SeenVolume { SeenVolume(v.name, v.path, v.shape, v.claimTemplate.Some?) }

  /** The same mounts in some order. */
  ghost predicate SameMounts(a: seq<Mount>, b: seq<Mount>) { multiset(Map(MountSeen, a)) == multiset(Map(MountSeen, b)) }

  ghost predicate SameVolumes(a: seq<VolumeMount>, b: seq<VolumeMount>) {
    multiset(Map(VolumeSeen, a)) == multiset(Map(VolumeSeen, b))
  }

  /** A count of zero or less stands for one device. */
  predicate SameGpu(a: Option<Gpu>, b: Option<Gpu>) {
    && a.Some? == b.Some?
    && (a.Some? ==> a.value.rest == b.value.rest && (a.value.count == b.value.count || (a.value.count <= 1 && b.value.count <= 1)))
  }

  /** Up to the failure threshold of the liveness probe. */
  predicate SameHealth(a: Option<Health>, b: Option<Health>) {
    && a.Some? == b.Some?
    && (a.Some? ==>
          && a.value.readiness == b.value.readiness && a.value.liveness.Some? == b.value.liveness.Some?
          && (a.value.liveness.Some? ==> a.value.liveness.value.rest == b.value.liveness.value.rest))
  }

  /** What an instance is built from. */
  ghost predicate SameBuild(a: Spec, b: Spec) {
    && a.templateRest == b.templateRest && SameGpu(a.gpu, b.gpu) && SameHealth(a.health, b.health)
    && SameMounts(a.secretMounts, b.secretMounts) && SameMounts(a.configmapMounts, b.configmapMounts)
    && SameVolumes(a.volumes, b.volumes)
  }

  function Rules(p: Option<NetworkPolicy>): NetworkPolicy { if p.Some? then p.value else NetworkPolicy([], []) }
  function ModeOf(d: Option<Discovery>): string { if d.Some? then d.value.mode else "" }
  function LocalityOf(d: Option<Discovery>): string { if d.Some? then d.value.locality else "" }

  /** Every claim template of `a` is in `b`, on the same mount. */
  ghost predicate ClaimsWithin(a: seq<VolumeMount>, b: seq<VolumeMount>) {
    forall x :: x in a && x.claimTemplate.Some? ==>
      exists y :: y in b && y.name == x.name && y.path == x.path && y.claimTemplate == x.claimTemplate
  }

  /** Everything a controller acts on. */
  ghost predicate SameWish(a: Service, b: Service) {
    && SameBuild(a.spec, b.spec) && a.spec.health == b.spec.health
    && a.spec.scale == b.spec.scale && a.spec.desiredRest == b.spec.desiredRest
    && multiset(a.spec.dependencies) == multiset(b.spec.dependencies)
    && Rules(a.spec.networkPolicy) == Rules(b.spec.networkPolicy)
    && ModeOf(a.discovery) == ModeOf(b.discovery) && LocalityOf(a.discovery) == LocalityOf(b.discovery)
    && ClaimsWithin(a.spec.volumes, b.spec.volumes) && ClaimsWithin(b.spec.volumes, a.spec.volumes)
  }

  /** Sorted canonical forms and multisets */

  /** Where two functions tell the same things apart, so do the multisets of their values. */
  lemma {:induction false} TellAlike<A, B, C>(f: A -> B, g: A -> C, a: seq<A>, b: seq<A>)
    requires forall x, y :: x in a && y in b && f(x) == f(y) ==> g(x) == g(y)
    requires multiset(Map(f, a)) == multiset(Map(f, b))
    ensures multiset(Map(g, a)) == multiset(Map(g, b))
    decreases |a|
  {
    if a == [] {
      SameElements(Map(f, a), Map(f, b));
    } else {
      var j := FindAlike(f, a, b);
      var p, q, t := b[..j], b[j + 1..], a[1..];
      assert b == p + [b[j]] + q && a == [a[0]] + t && a[0] in a && b[j] in b;
      assert forall x :: x in t ==> x in a;
      assert forall y :: y in p + q ==> y in b;
      hide *;
      TakeOff(f, a[0], t, p, b[j], q);
      TellAlike(f, g, t, p + q);
      TakeOff(g, a[0], t, p, b[j], q);
    }
  }

  lemma TakeOff<A, B>(f: A -> B, x: A, t: seq<A>, p: seq<A>, y: A, q: seq<A>)
    ensures f(x) == f(y) ==>
              (multiset(Map(f, [x] + t)) == multiset(Map(f, p + [y] + q)) <==> multiset(Map(f, t)) == multiset(Map(f, p + q)))
  {
    hide *;
    assert [] + [x] + t == [x] + t && [] + t == t;
    Without(f, [], x, t);
    Without(f, p, y, q);
    if multiset{f(x)} + multiset(Map(f, t)) == multiset{f(x)} + multiset(Map(f, p + q)) { Cancel(f(x), Map(f, t), Map(f, p + q)); }
  }

  lemma Cancel<B>(x: B, m: seq<B>, n: seq<B>)
    requires multiset{x} + multiset(m) == multiset{x} + multiset(n)
    ensures multiset(m) == multiset(n)
  {
    assert multiset(m) == multiset{x} + multiset(m) - multiset{x};
    assert multiset(n) == multiset{x} + multiset(n) - multiset{x};
  }

  lemma FindAlike<A, B>(f: A -> B, a: seq<A>, b: seq<A>) returns (j: nat)
    requires a != [] && multiset(Map(f, a)) == multiset(Map(f, b))
    ensures j < |b| && f(b[j]) == f(a[0])
  {
    j := HeadWhere(Map(f, a), Map(f, b));
  }

  lemma HeadWhere<B>(m: seq<B>, n: seq<B>) returns (j: nat)
    requires m != [] && multiset(m) == multiset(n)
    ensures j < |n| && n[j] == m[0]
  {
    assert m[0] in multiset(m);
    assert m[0] in n;
    j :| 0 <= j < |n| && n[j] == m[0];
  }

  lemma MapAround<A, B>(f: A -> B, p: seq<A>, x: A, q: seq<A>)
    ensures Map(f, p + [x] + q) == Map(f, p) + [f(x)] + Map(f, q)
    ensures Map(f, p + q) == Map(f, p) + Map(f, q)
  {
    hide *;
    MapConcat(f, p, q);
    MapConcat(f, p + [x], q);
    MapConcat(f, p, [x]);
    MapOne(f, x);
  }

  lemma MapOne<A, B>(f: A -> B, x: A)
    ensures Map(f, [x]) == [f(x)]
  {
  }

  lemma MiddleOut<B>(p: seq<B>, x: B, q: seq<B>)
    ensures multiset(p + [x] + q) == multiset{x} + multiset(p + q)
  {
  }

  lemma Without<A, B>(f: A -> B, p: seq<A>, x: A, q: seq<A>)
    ensures multiset(Map(f, p + [x] + q)) == multiset{f(x)} + multiset(Map(f, p + q))
  {
    hide *;
    MapAround(f, p, x, q);
    MiddleOut(Map(f, p), f(x), Map(f, q));
  }

  lemma ItemLessIsOrder()
    ensures StrictWeakOrder(ItemLess) && forall s: seq<KeyToPath> :: Separates(ItemLess, s)
  {
    forall a: KeyToPath, b: KeyToPath
      ensures (ItemLess(a, b) ==> !ItemLess(b, a)) && (!ItemLess(a, b) && !ItemLess(b, a) ==> a == b)
    {
      KeysLessIsTotalOrder(ItemKey(a), ItemKey(b), []);
      assert ItemKey(a)[0] == a.key && ItemKey(a)[1] == a.path && ItemKey(b)[0] == b.key && ItemKey(b)[1] == b.path;
    }
    forall a: KeyToPath, b: KeyToPath, c: KeyToPath ensures ItemLess(a, b) && !ItemLess(c, b) ==> ItemLess(a, c) {
      KeysLessIsTotalOrder(ItemKey(a), ItemKey(b), ItemKey(c));
    }
    hide ItemLess;
  }

  /** Sorting the items of a mount keeps exactly what is to be seen of it. */
  lemma MountsTellAlike(x: Mount, y: Mount)
    ensures WithSortedItems(x) == WithSortedItems(y) <==> MountSeen(x) == MountSeen(y)
  {
    ItemLessIsOrder();
    if multiset(x.items) == multiset(y.items) { SortIgnoresOrder(ItemLess, x.items, y.items); }
    hide ItemLess, StrictWeakOrder, Separates;
    assert multiset(Sort(ItemLess, x.items)) == multiset(x.items) && multiset(Sort(ItemLess, y.items)) == multiset(y.items);
  }

  lemma VolumesTellAlike(x: VolumeMount, y: VolumeMount)
    ensures VolumeShape(x) == VolumeShape(y) <==> VolumeSeen(x) == VolumeSeen(y)
  {
  }

  /** Equal sorted mounts are the same mounts. */
  lemma SortedMountsSee(a: seq<Mount>, b: seq<Mount>)
    requires SortedMounts(a) == SortedMounts(b)
    ensures SameMounts(a, b)
  {
    hide MountSeen, WithSortedItems, MountLess;
    forall x, y | WithSortedItems(x) == WithSortedItems(y) ensures MountSeen(x) == MountSeen(y) { MountsTellAlike(x, y); }
    assert multiset(Map(WithSortedItems, a)) == multiset(SortedMounts(a)) == multiset(SortedMounts(b)) == multiset(Map(WithSortedItems, b));
    TellAlike(WithSortedItems, MountSeen, a, b);
  }

  /** And the same mounts, if no two with one sort key differ, are sorted equally. */
  lemma SameMountsSort(a: seq<Mount>, b: seq<Mount>)
    requires SameMounts(a, b) && MountTiesAgree(a)
    ensures SortedMounts(a) == SortedMounts(b)
  {
    forall x, y | MountSeen(x) == MountSeen(y) ensures WithSortedItems(x) == WithSortedItems(y) { MountsTellAlike(x, y); }
    TellAlike(MountSeen, WithSortedItems, a, b);
    MountLessIsOrder();
    MountsSeparate(a);
    hide MountLess, WithSortedItems, MountSeen;
    SortIgnoresOrder(MountLess, Map(WithSortedItems, a), Map(WithSortedItems, b));
  }

  lemma MountsTie(a: seq<Mount>, x: Mount, y: Mount)
    requires MountTiesAgree(a) && x in a && y in a && !MountLess(WithSortedItems(x), WithSortedItems(y)) && !MountLess(WithSortedItems(y), WithSortedItems(x))
    ensures WithSortedItems(x) == WithSortedItems(y)
  {
    MountTies(WithSortedItems(x), WithSortedItems(y));
    assert MountKey(WithSortedItems(x)) == MountKey(x) && MountKey(WithSortedItems(y)) == MountKey(y);
    hide MountLess, WithSortedItems;
  }

  lemma MountsSeparate(a: seq<Mount>)
    requires MountTiesAgree(a)
    ensures Separates(MountLess, Map(WithSortedItems, a))
  {
    hide MountLess, WithSortedItems, MountTiesAgree, Map;
    var t := Map(WithSortedItems, a);
    forall x, y | x in t && y in t && !MountLess(x, y) && !MountLess(y, x) ensures x == y {
      var i :| 0 <= i < |t| && t[i] == x;
      var j :| 0 <= j < |t| && t[j] == y;
      assert a[i] in a && a[j] in a;
      MountsTie(a, a[i], a[j]);
    }
  }

  lemma ShapesAreSorted(vs: seq<VolumeMount>)
    ensures VolumeMountShapes(vs) == Sort(VolumeLess, Map(VolumeShape, vs))
  {
    ShapesKeepKeys();
    hide VolumeLess, VolumeShape;
    SortCommutesWithMap(VolumeLess, VolumeLess, VolumeShape, vs);
  }

  lemma ShapesSee(a: seq<VolumeMount>, b: seq<VolumeMount>)
    requires VolumeMountShapes(a) == VolumeMountShapes(b)
    ensures SameVolumes(a, b)
  {
    hide VolumeSeen, VolumeShape, VolumeLess;
    ShapesAreSorted(a);
    ShapesAreSorted(b);
    forall x, y | VolumeShape(x) == VolumeShape(y) ensures VolumeSeen(x) == VolumeSeen(y) { VolumesTellAlike(x, y); }
    assert multiset(Map(VolumeShape, a)) == multiset(VolumeMountShapes(a)) == multiset(Map(VolumeShape, b));
    TellAlike(VolumeShape, VolumeSeen, a, b);
  }

  lemma SameVolumesSort(a: seq<VolumeMount>, b: seq<VolumeMount>)
    requires SameVolumes(a, b) && VolumeTiesAgree(a)
    ensures VolumeMountShapes(a) == VolumeMountShapes(b)
  {
    forall x, y | VolumeSeen(x) == VolumeSeen(y) ensures VolumeShape(x) == VolumeShape(y) { VolumesTellAlike(x, y); }
    TellAlike(VolumeSeen, VolumeShape, a, b);
    VolumeLessIsOrder();
    VolumesSeparate(a);
    ShapesAreSorted(a);
    ShapesAreSorted(b);
    hide VolumeLess, VolumeShape, VolumeSeen;
    SortIgnoresOrder(VolumeLess, Map(VolumeShape, a), Map(VolumeShape, b));
  }

  lemma VolumesTie(a: seq<VolumeMount>, x: VolumeMount, y: VolumeMount)
    requires VolumeTiesAgree(a) && x in a && y in a && !VolumeLess(VolumeShape(x), VolumeShape(y)) && !VolumeLess(VolumeShape(y), VolumeShape(x))
    ensures VolumeShape(x) == VolumeShape(y)
  {
    VolumeTies(VolumeShape(x), VolumeShape(y));
    assert VolumeKey(VolumeShape(x)) == VolumeKey(x) && VolumeKey(VolumeShape(y)) == VolumeKey(y);
    hide VolumeLess, VolumeShape;
  }

  lemma VolumesSeparate(a: seq<VolumeMount>)
    requires VolumeTiesAgree(a)
    ensures Separates(VolumeLess, Map(VolumeShape, a))
  {
    hide VolumeLess, VolumeShape, VolumeTiesAgree, Map;
    var t := Map(VolumeShape, a);
    forall x, y | x in t && y in t && !VolumeLess(x, y) && !VolumeLess(y, x) ensures x == y {
      var i :| 0 <= i < |t| && t[i] == x;
      var j :| 0 <= j < |t| && t[j] == y;
      assert a[i] in a && a[j] in a;
      VolumesTie(a, a[i], a[j]);
    }
  }

  /** Claim templates */

  lemma {:induction false} TemplatesAre(vs: seq<VolumeMount>, t: VolumeMount)
    ensures t in TemplatesOf(vs) <==>
              exists v :: v in vs && v.claimTemplate.Some? && t == VolumeMount(v.name, v.path, "", v.claimTemplate)
  {
    if vs != [] {
      TemplatesAre(vs[1..], t);
      assert vs == [vs[0]] + vs[1..];
      var rest := TemplatesOf(vs[1..]);
      assert TemplatesOf(vs) == if vs[0].claimTemplate.Some? then [VolumeMount(vs[0].name, vs[0].path, "", vs[0].claimTemplate)] + rest else rest;
      if exists v :: v in vs && v.claimTemplate.Some? && t == VolumeMount(v.name, v.path, "", v.claimTemplate) {
        var v :| v in vs && v.claimTemplate.Some? && t == VolumeMount(v.name, v.path, "", v.claimTemplate);
        assert v == vs[0] || v in vs[1..];
      }
    }
  }

  lemma ClaimsSee(a: seq<VolumeMount>, b: seq<VolumeMount>)
    requires ClaimTemplates(a) == ClaimTemplates(b)
    ensures ClaimsWithin(a, b)
  {
    hide VolumeLess;
    var sa, sb := Sort(VolumeLess, a), Sort(VolumeLess, b);
    SameElements(sa, a);
    SameElements(sb, b);
    forall x | x in a && x.claimTemplate.Some?
      ensures exists y :: y in b && y.name == x.name && y.path == x.path && y.claimTemplate == x.claimTemplate
    {
      var t := VolumeMount(x.name, x.path, "", x.claimTemplate);
      TemplatesAre(sa, t);
      TemplatesAre(sb, t);
      assert x in sa;
      var y :| y in sb && y.claimTemplate.Some? && t == VolumeMount(y.name, y.path, "", y.claimTemplate);
      assert y in b;
    }
  }

  /** Main results */

  /** Equal template hashes mean that instances are built from the same things; and the other way round
      where no two mounts of one name, path and source differ. */
  lemma TemplateSees(a: Spec, b: Spec)
    ensures Template(a) == Template(b) ==> SameBuild(a, b)
    ensures MountTiesAgree(a.secretMounts) && MountTiesAgree(a.configmapMounts) && VolumeTiesAgree(a.volumes) ==>
              (SameBuild(a, b) ==> Template(a) == Template(b))
  {
    hide SortedMounts, VolumeMountShapes, SameMounts, SameVolumes, MountTiesAgree, VolumeTiesAgree;
    if Template(a) == Template(b) {
      SortedMountsSee(a.secretMounts, b.secretMounts);
      SortedMountsSee(a.configmapMounts, b.configmapMounts);
      ShapesSee(a.volumes, b.volumes);
    }
    if MountTiesAgree(a.secretMounts) && MountTiesAgree(a.configmapMounts) && VolumeTiesAgree(a.volumes) && SameBuild(a, b) {
      SameMountsSort(a.secretMounts, b.secretMounts);
      SameMountsSort(a.configmapMounts, b.configmapMounts);
      SameVolumesSort(a.volumes, b.volumes);
    }
  }

  lemma HealthSees(a: Option<Health>, b: Option<Health>)
    requires SameHealth(a, b) && LivenessThreshold(a) == LivenessThreshold(b)
    ensures a == b
  {
  }

  lemma RulesSee(a: Option<NetworkPolicy>, b: Option<NetworkPolicy>)
    requires NetworkPolicyView(a) == NetworkPolicyView(b)
    ensures Rules(a) == Rules(b)
  {
  }

  lemma DiscoverySees(a: Option<Discovery>, b: Option<Discovery>)
    requires DiscoveryWithoutVIP(a) == DiscoveryWithoutVIP(b)
    ensures ModeOf(a) == ModeOf(b) && LocalityOf(a) == LocalityOf(b)
  {
  }

  lemma DependencyLessIsOrder()
    ensures StrictWeakOrder(DependencyLess) && forall s: seq<Dependency> :: Separates(DependencyLess, s)
  {
    forall a: Dependency, b: Dependency
      ensures (DependencyLess(a, b) ==> !DependencyLess(b, a)) && (!DependencyLess(a, b) && !DependencyLess(b, a) ==> a == b)
    {
      var x, y := DependencyKey(a), DependencyKey(b);
      KeysLessIsTotalOrder(x, y, []);
      assert x[0] == a.namespace && y[0] == b.namespace && x[2] == a.name && y[2] == b.name;
      assert x[1] == y[1] ==> x[1][0] == y[1][0];
    }
    forall a: Dependency, b: Dependency, c: Dependency ensures DependencyLess(a, b) && !DependencyLess(c, b) ==> DependencyLess(a, c) {
      KeysLessIsTotalOrder(DependencyKey(a), DependencyKey(b), DependencyKey(c));
    }
    hide DependencyLess;
  }

  /** Dependencies are seen up to their order, and only up to it. */
  lemma DependenciesSee(a: seq<Dependency>, b: seq<Dependency>)
    ensures Sort(DependencyLess, a) == Sort(DependencyLess, b) <==> multiset(a) == multiset(b)
  {
    DependencyLessIsOrder();
    hide DependencyLess, StrictWeakOrder, Separates;
    assert multiset(Sort(DependencyLess, a)) == multiset(a) && multiset(Sort(DependencyLess, b)) == multiset(b);
    if multiset(a) == multiset(b) { SortIgnoresOrder(DependencyLess, a, b); }
  }

  /** Equal full hashes mean that a controller is asked for the same things. */
  lemma HashSees(a: Service, b: Service)
    requires SameHash(a, b)
    ensures SameWish(a, b)
  {
    hide Template, Sort, SameMounts, SameVolumes, ClaimsWithin, ClaimTemplates, DependencyLess, SameHealth, SameGpu,
      NetworkPolicyView, DiscoveryWithoutVIP, LivenessThreshold, Rules, ModeOf, LocalityOf;
    TemplateSees(a.spec, b.spec);
    HealthSees(a.spec.health, b.spec.health);
    RulesSee(a.spec.networkPolicy, b.spec.networkPolicy);
    DiscoverySees(a.discovery, b.discovery);
    DependenciesSee(a.spec.dependencies, b.spec.dependencies);
    ClaimsSee(a.spec.volumes, b.spec.volumes);
    ClaimsSee(b.spec.volumes, a.spec.volumes);
  }

  /** So a cast that changes what an instance is built from, the image say, raises both counters of a live
      service, and one that changes anything a controller acts on raises Generation. */
  lemma ChangesAreCounted(stored: Service, rendered: Service)
    requires Seeded(stored) && Carry(stored, rendered).Some?
    ensures var n := Carry(stored, rendered).value;
            && n.spec == rendered.spec
            && (!SameBuild(stored.spec, rendered.spec) ==> TemplateGeneration(n) == Generation(n) == Generation(stored) + 1)
            && (!SameWish(stored, n) ==> Generation(n) == Generation(stored) + 1)
  {
    CarryFollows(stored, rendered);
    TemplateSees(stored.spec, rendered.spec);
    var n := Carry(stored, rendered).value;
    assert SameHash(stored, n) || Generation(n) == Generation(stored) + 1 by { hide Template, Desired; }
    if SameHash(stored, n) { HashSees(stored, n); }
    hide SameHash, Carry, SameBuild, SameWish, Template;
  }
}
