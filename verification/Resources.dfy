/** Resource references, the durable kinds (secret, configmap, volume) and how their repositories
    write them, and the pre-image a cast keeps of everything it touches. */
module Resources {
  import opened Common
  import opened Services

  datatype Kind = Namespace | StorageClass | Volume | Configmap | Secret | Service | OtherKind(name: string)

  /** OwnerRef.  The maps that the code keys by `Key()` are keyed here by the reference itself;
      `KeyIdentifies` says when the two agree. */
  datatype Ref = Ref(kind: Kind, namespace: string, name: string)

  function KindName(k: Kind): string {
    match k
    case Namespace => "namespace"
    case StorageClass => "storage_class"
    case Volume => "volume"
    case Configmap => "configmap"
    case Secret => "secret"
    case Service => "service"
    case OtherKind(name) => name
  }

  function Key(r: Ref): string { KindName(r.kind) + "/" + r.namespace + "/" + r.name }

  predicate IsSharedClusterKind(k: Kind) { k.StorageClass? || k.Namespace? }

  predicate IsDurable(k: Kind) { k.Secret? || k.Configmap? || k.Volume? }

  /** The kinds that Apply and Prune act on. */
  predicate IsManaged(k: Kind) { k.Service? || IsDurable(k) }

  /** Dependency rank for applies; prunes use it in reverse. */
  function ApplyRank(k: Kind): nat {
    match k
    case Namespace => 0
    case StorageClass => 1
    case Volume => 2
    case Configmap => 3
    case Secret => 4
    case Service => 5
    case OtherKind(_) => 6
  }

  /** Set up before `b` and taken down after it: namespaces, storage classes, volumes, configmaps, secrets,
      services, and then the rest. */
  predicate NeededBy(a: Kind, b: Kind) {
    match a
    case Namespace => !b.Namespace?
    case StorageClass => !IsSharedClusterKind(b)
    case Volume => b.Configmap? || b.Secret? || b.Service? || b.OtherKind?
    case Configmap => b.Secret? || b.Service? || b.OtherKind?
    case Secret => b.Service? || b.OtherKind?
    case Service => b.OtherKind?
    case OtherKind(_) => false
  }

  /** `a` may be applied before `b`: `a` does not need `b`, and by key where neither needs the other. */
  predicate MayApplyFirst(a: Ref, b: Ref) {
    !NeededBy(b.kind, a.kind) && (NeededBy(a.kind, b.kind) || !StringLess(Key(b), Key(a)))
  }

  /** `a` may be pruned before `b`: `b` does not need `a`, and by key where neither needs the other. */
  predicate MayPruneFirst(a: Ref, b: Ref) {
    !NeededBy(a.kind, b.kind) && (NeededBy(b.kind, a.kind) || !StringLess(Key(b), Key(a)))
  }

  predicate SlashFree(s: string) { '/' !in s }

  lemma {:induction false} SplitAtSlash(a: string, b: string, x: string, y: string)
    requires SlashFree(a) && SlashFree(b) && a + "/" + x == b + "/" + y
    ensures a == b && x == y
  {
    var s := a + "/" + x;
    assert s[|a|] == '/' && s[|b|] == '/';
    assert forall i :: 0 <= i < |a| ==> s[i] == a[i] != '/';
    assert forall i :: 0 <= i < |b| ==> s[i] == b[i] != '/';
    assert |a| == |b|;
    assert a == s[..|a|] == b && x == s[|a| + 1..] == y;
  }

  lemma KindNamesDistinct(a: Kind, b: Kind)
    requires a.OtherKind? ==> KindName(a) !in {"namespace", "storage_class", "volume", "configmap", "secret", "service"}
    requires b.OtherKind? ==> KindName(b) !in {"namespace", "storage_class", "volume", "configmap", "secret", "service"}
    requires KindName(a) == KindName(b)
    ensures a == b
  {
    assert "namespace"[0] == 'n' && "volume"[0] == 'v' && "configmap"[0] == 'c';
    assert "storage_class"[1] == 't' && "secret"[2] == 'c' && "service"[2] == 'r' && "secret"[1] == 'e' && "service"[1] == 'e';
  }

  /** The string key identifies a reference whose kind and namespace hold no '/'. */
  lemma KeyIdentifies(a: Ref, b: Ref)
    requires a.kind.OtherKind? ==> KindName(a.kind) !in {"namespace", "storage_class", "volume", "configmap", "secret", "service"}
    requires b.kind.OtherKind? ==> KindName(b.kind) !in {"namespace", "storage_class", "volume", "configmap", "secret", "service"}
    requires SlashFree(KindName(a.kind)) && SlashFree(a.namespace)
    requires SlashFree(KindName(b.kind)) && SlashFree(b.namespace)
    ensures Key(a) == Key(b) <==> a == b
  {
    if Key(a) == Key(b) {
      var x, y := a.namespace + "/" + a.name, b.namespace + "/" + b.name;
      assert Key(a) == KindName(a.kind) + "/" + x && Key(b) == KindName(b.kind) + "/" + y;
      SplitAtSlash(KindName(a.kind), KindName(b.kind), x, y);
      SplitAtSlash(a.namespace, b.namespace, a.name, b.name);
      KindNamesDistinct(a.kind, b.kind);
    }
  }

  /** A secret, configmap or volume record: `status` is the volume phase, `version` the secret or
      configmap version. */
  datatype Durable = Durable(id: string, data: string, status: string, version: int, owner: Option<OwnedBy>)

  /** Repository update of `cur` to `next`; None when the repository refuses it.
      The secret store keeps no ID, and a volume's ID is immutable. */
  function UpdatedDurable(k: Kind, cur: Durable, next: Durable): Option<Durable> {
    match k
    case Secret => Some(Durable("", next.data, "", cur.version + 1, next.owner))
    case Configmap => Some(next.(version := cur.version + 1))
    case _ =>
      var id := if next.id == "" then cur.id else next.id;
      if id != cur.id then None else Some(next.(id := id))
  }

  /** Repository create, with `freshId` the identifier it would mint. */
  function CreatedDurable(k: Kind, next: Durable, freshId: string): Durable {
    var id := if next.id == "" then freshId else next.id;
    match k
    case Secret => Durable("", next.data, "", 1, next.owner)
    case Configmap => next.(id := id)
    case _ => next.(id := id, status := if next.status == "" then "Pending" else next.status)
  }

  /** What the pre-cast read of a resource recorded. */
  datatype PreImage = PreImage(
    existed: bool,
    appliedGeneration: int,
    appliedTemplateGeneration: int,
    pruned: bool,
    service: Option<Service>,
    durable: Option<Durable>)

  const ABSENT := PreImage(false, 0, 0, false, None, None)

  function OfService(s: Service): PreImage { PreImage(true, 0, 0, false, Some(s), None) }
  function OfDurable(d: Durable): PreImage { PreImage(true, 0, 0, false, None, Some(d)) }

  /** First touch wins. */
  function Capture(img: Option<PreImage>, now: PreImage): Option<PreImage> {
    if img.Some? then img else Some(now)
  }

  function NoteApplied(img: PreImage, generation: int, templateGeneration: int): PreImage {
    img.(appliedGeneration := if generation > img.appliedGeneration then generation else img.appliedGeneration,
         appliedTemplateGeneration := if templateGeneration > img.appliedTemplateGeneration then templateGeneration
                                      else img.appliedTemplateGeneration)
  }
}
