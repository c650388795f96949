/** What deleting an object takes with it: the exact contents of store and driver afterwards. */
module Cascade {
  import opened Prelude
  import opened Conditions
  import opened Cluster
  import opened PodMapping

  /** A container as the driver reports it, and the spec it was created from. */
  datatype ContainerInfo = ContainerInfo(
    state: string, exitCode: int, ip: string, portMap: map<int, int>, spec: ContainerSpec)

  /** The store's kinds and version counter, and the driver's containers, by sandbox, and volumes, by name. */
  datatype World = World(
    claims: map<Name, Claim>,
    pools: map<Name, Pool>,
    templates: map<Name, Template>,
    sandboxes: map<Name, Sandbox>,
    pvcs: map<Name, Pvc>,
    containers: map<Name, ContainerInfo>,
    volumes: set<string>,
    rv: nat)

  datatype Kind = ASandbox | AClaim | APool | ATemplate | APvc

  function PvcName(vct: Vct, sandbox: Name): Name {
    vct.name + "-" + sandbox
  }

  /** The claims a sandbox's templates stand for. */
  function PvcNames(sb: Sandbox, n: Name): set<Name> {
    set v | v in sb.spec.vcts :: PvcName(v, n)
  }

  function OwnedPvcs(pvcs: map<Name, Pvc>, sb: Sandbox, n: Name): set<Name> {
    set p | p in PvcNames(sb, n) && p in pvcs && ControllerUid(pvcs[p].meta.owners) == sb.meta.uid
  }

  /** The volumes that go: those of the claims that go, and those that have no claim. */
  function DroppedVolumes(pvcs: map<Name, Pvc>, ns: Name, sb: Sandbox, n: Name): set<string> {
    set p | p in PvcNames(sb, n) && (p !in pvcs || p in OwnedPvcs(pvcs, sb, n)) :: VolumeName(ns, p)
  }

  function PvcDeleted(w: World, ns: Name, p: Name): World {
    w.(pvcs := w.pvcs - {p}, volumes := w.volumes - {VolumeName(ns, p)}, rv := w.rv + 1)
  }

  function SandboxDeleted(w: World, ns: Name, n: Name): World
    requires n in w.sandboxes
  {
    var sb := w.sandboxes[n];
    var owned := OwnedPvcs(w.pvcs, sb, n);
    w.(sandboxes := w.sandboxes - {n},
       containers := w.containers - {n},
       pvcs := w.pvcs - owned,
       volumes := w.volumes - DroppedVolumes(w.pvcs, ns, sb, n),
       rv := w.rv + 1 + |owned|)
  }

  /** Where a deleted claim's sandbox is looked for. */
  function SandboxNameOf(claim: Claim, k: Name): Name {
    if claim.status.sandbox == "" then k else claim.status.sandbox
  }

  function ClaimDeleted(w: World, ns: Name, k: Name): World
    requires k in w.claims
  {
    var rest := w.(claims := w.claims - {k}, rv := w.rv + 1);
    var s := SandboxNameOf(w.claims[k], k);
    if s in w.sandboxes && ControllerUid(w.sandboxes[s].meta.owners) == w.claims[k].meta.uid
    then SandboxDeleted(rest, ns, s) else rest
  }

  /** The sandboxes with some owner of the pool's kind and name. */
  function Members(sandboxes: map<Name, Sandbox>, k: Name): set<Name> {
    set n | n in sandboxes && OwnedBy(sandboxes[n].meta.owners, POOL, k)
  }

  function AllOwned(w: World, gone: set<Name>): set<Name>
    requires gone <= w.sandboxes.Keys
  {
    set n, p | n in gone && p in OwnedPvcs(w.pvcs, w.sandboxes[n], n) :: p
  }

  function AllDropped(w: World, ns: Name, gone: set<Name>): set<string>
    requires gone <= w.sandboxes.Keys
  {
    set n, v | n in gone && v in DroppedVolumes(w.pvcs, ns, w.sandboxes[n], n) :: v
  }

  /** What goes with several sandboxes. */
  function SandboxesDeleted(w: World, ns: Name, gone: set<Name>): World
    requires gone <= w.sandboxes.Keys
  {
    w.(sandboxes := w.sandboxes - gone,
       containers := w.containers - gone,
       pvcs := w.pvcs - AllOwned(w, gone),
       volumes := w.volumes - AllDropped(w, ns, gone),
       rv := w.rv + |gone| + |AllOwned(w, gone)|)
  }

  function PoolDeleted(w: World, ns: Name, k: Name): World
    requires k in w.pools
  {
    SandboxesDeleted(w.(pools := w.pools - {k}, rv := w.rv + 1), ns, Members(w.sandboxes, k))
  }

  function Deleted(w: World, ns: Name, kind: Kind, n: Name): World {
    match kind
    case ASandbox => if n in w.sandboxes then SandboxDeleted(w, ns, n) else w
    case AClaim => if n in w.claims then ClaimDeleted(w, ns, n) else w
    case APool => if n in w.pools then PoolDeleted(w, ns, n) else w
    case ATemplate => if n in w.templates then w.(templates := w.templates - {n}, rv := w.rv + 1) else w
    case APvc => if n in w.pvcs then PvcDeleted(w, ns, n) else w
  }

  function Rank(kind: Kind): nat {
    match kind
    case AClaim => 2
    case APool => 2
    case ASandbox => 1
    case ATemplate => 0
    case APvc => 0
  }

  // ---- One more sandbox ----

  lemma NoneDeleted(w: World, ns: Name)
    ensures SandboxesDeleted(w, ns, {}) == w
  {
    assert AllOwned(w, {}) == {} && AllDropped(w, ns, {}) == {};
    assert w.sandboxes - {} == w.sandboxes && w.containers - {} == w.containers && w.pvcs - {} == w.pvcs;
  }

  lemma OneMoreOwned(w: World, ns: Name, gone: set<Name>, n: Name)
    requires gone <= w.sandboxes.Keys && n in w.sandboxes && n !in gone
    ensures var more := OwnedPvcs(w.pvcs - AllOwned(w, gone), w.sandboxes[n], n);
      && AllOwned(w, gone + {n}) == AllOwned(w, gone) + more
      && |AllOwned(w, gone + {n})| == |AllOwned(w, gone)| + |more|
  {
    var more := OwnedPvcs(w.pvcs - AllOwned(w, gone), w.sandboxes[n], n);
    assert more == OwnedPvcs(w.pvcs, w.sandboxes[n], n) - AllOwned(w, gone);
    assert AllOwned(w, gone + {n}) == AllOwned(w, gone) + OwnedPvcs(w.pvcs, w.sandboxes[n], n);
    assert more !! AllOwned(w, gone);
  }

  lemma OneMoreVolume(w: World, ns: Name, gone: set<Name>, n: Name)
    requires gone <= w.sandboxes.Keys && n in w.sandboxes && n !in gone
    ensures AllDropped(w, ns, gone + {n})
         == AllDropped(w, ns, gone) + DroppedVolumes(w.pvcs - AllOwned(w, gone), ns, w.sandboxes[n], n)
  {
    var sb, left := w.sandboxes[n], w.pvcs - AllOwned(w, gone);
    var alone := DroppedVolumes(w.pvcs, ns, sb, n);
    var more := DroppedVolumes(left, ns, sb, n);
    assert AllDropped(w, ns, gone + {n}) == AllDropped(w, ns, gone) + alone;
    forall v | v in more ensures v in AllDropped(w, ns, gone) + alone {
      var p :| p in PvcNames(sb, n) && (p !in left || p in OwnedPvcs(left, sb, n)) && v == VolumeName(ns, p);
      if p in w.pvcs && p !in left {
        var m :| m in gone && p in OwnedPvcs(w.pvcs, w.sandboxes[m], m);
        assert v in DroppedVolumes(w.pvcs, ns, w.sandboxes[m], m);
      } else {
        assert v in alone;
      }
    }
    forall v | v in alone ensures v in more {
      var p :| p in PvcNames(sb, n) && (p !in w.pvcs || p in OwnedPvcs(w.pvcs, sb, n)) && v == VolumeName(ns, p);
      assert p !in left || p in OwnedPvcs(left, sb, n);
    }
  }

  lemma Minus<K, V>(m: map<K, V>, a: set<K>, b: set<K>)
    ensures (m - a) - b == m - (a + b)
  {
  }

  /** Two deletions in a row, by what each takes. */
  lemma TwiceLess(w: World, gone: set<Name>, owned: set<Name>, dropped: set<string>, n: Name, more: set<Name>,
      also: set<string>)
    requires n !in gone && |owned + more| == |owned| + |more|
    ensures Without(Without(w, gone, owned, dropped), {n}, more, also) == Without(w, gone + {n}, owned + more, dropped + also)
  {
    Minus(w.sandboxes, gone, {n});
    Minus(w.containers, gone, {n});
    Minus(w.pvcs, owned, more);
    assert |gone + {n}| == |gone| + 1;
    assert w.volumes - dropped - also == w.volumes - (dropped + also);
  }

  function Without(w: World, gone: set<Name>, owned: set<Name>, dropped: set<string>): World {
    w.(sandboxes := w.sandboxes - gone, containers := w.containers - gone, pvcs := w.pvcs - owned,
       volumes := w.volumes - dropped, rv := w.rv + |gone| + |owned|)
  }

  lemma OneIsWithout(w: World, ns: Name, n: Name)
    requires n in w.sandboxes
    ensures SandboxDeleted(w, ns, n)
         == Without(w, {n}, OwnedPvcs(w.pvcs, w.sandboxes[n], n), DroppedVolumes(w.pvcs, ns, w.sandboxes[n], n))
  {
  }

  lemma ManyIsWithout(w: World, ns: Name, gone: set<Name>)
    requires gone <= w.sandboxes.Keys
    ensures SandboxesDeleted(w, ns, gone) == Without(w, gone, AllOwned(w, gone), AllDropped(w, ns, gone))
  {
  }

  /** Deleting sandboxes one after another leaves what deleting them all leaves. */
  lemma OneMoreDeleted(w: World, ns: Name, gone: set<Name>, n: Name)
    requires gone <= w.sandboxes.Keys && n in w.sandboxes && n !in gone
    ensures SandboxDeleted(SandboxesDeleted(w, ns, gone), ns, n) == SandboxesDeleted(w, ns, gone + {n})
  {
    var w1 := SandboxesDeleted(w, ns, gone);
    var more, also := OwnedPvcs(w1.pvcs, w.sandboxes[n], n), DroppedVolumes(w1.pvcs, ns, w.sandboxes[n], n);
    OneIsWithout(w1, ns, n);
    ManyIsWithout(w, ns, gone);
    ManyIsWithout(w, ns, gone + {n});
    OneMoreOwned(w, ns, gone, n);
    OneMoreVolume(w, ns, gone, n);
    TwiceLess(w, gone, AllOwned(w, gone), AllDropped(w, ns, gone), n, more, also);
  }
}
