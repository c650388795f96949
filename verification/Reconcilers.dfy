/** The reconcilers: each pass as the code that runs it, alone. */
module Reconcilers {
  import opened Prelude
  import opened Conditions
  import opened Cluster
  import opened Cascade
  import opened PodMapping
  import opened Build
  import opened SandboxConditions
  import opened PoolRules
  import opened Deadlines
  import P = Protocol
  import A = ClaimAlone

  /** What the store hands to the delete hook. */
  datatype Gone = GoneSandbox(sandbox: Sandbox) | GoneClaim(claim: Claim) | GonePool | GoneTemplate | GonePvc

  function KindOf(g: Gone): Kind {
    match g
    case GoneSandbox(_) => ASandbox
    case GoneClaim(_) => AClaim
    case GonePool => APool
    case GoneTemplate => ATemplate
    case GonePvc => APvc
  }

  class Reconcilers {
    const ns: Name
    const defaultPort: int
    const nodeName: string

    // The store.
    var claims: map<Name, Claim>
    var pools: map<Name, Pool>
    var templates: map<Name, Template>
    var sandboxes: map<Name, Sandbox>
    var pvcs: map<Name, Pvc>
    var nextUid: Uid
    var rv: nat

    // The driver.
    var containers: map<Name, ContainerInfo>
    var volumes: set<string>
    var nextPort: int

    // The clock.
    var now: int

    constructor (ns: Name, defaultPort: int, nodeName: string, now: int)
      ensures W() == World(map[], map[], map[], map[], map[], map[], {}, 0)
      ensures this.ns == ns && this.defaultPort == defaultPort && this.now == now && nextUid == 1
    {
      this.ns, this.defaultPort, this.nodeName, this.now := ns, defaultPort, nodeName, now;
      claims, pools, templates, sandboxes, pvcs := map[], map[], map[], map[], map[];
      containers, volumes, nextPort := map[], {}, 40000;
      nextUid, rv := 1, 0;
    }

    ghost function W(): World
      reads this
    {
      World(claims, pools, templates, sandboxes, pvcs, containers, volumes, rv)
    }

    // ---- Deletion and its cascade ----

    /** Removes the object, then calls the hook, which may delete in turn. */
    method Delete(kind: Kind, n: Name) returns (found: bool)
      modifies `claims, `pools, `templates, `sandboxes, `pvcs, `containers, `volumes, `rv
      ensures W() == Deleted(old(W()), ns, kind, n)
      decreases Rank(kind), 2, 0
    {
      var gone: Gone;
      match kind {
        case ASandbox =>
          if n !in sandboxes { return false; }
          gone := GoneSandbox(sandboxes[n]);
          sandboxes := sandboxes - {n};
        case AClaim =>
          if n !in claims { return false; }
          gone := GoneClaim(claims[n]);
          claims := claims - {n};
        case APool =>
          if n !in pools { return false; }
          gone := GonePool;
          pools := pools - {n};
        case ATemplate =>
          if n !in templates { return false; }
          gone := GoneTemplate;
          templates := templates - {n};
        case APvc =>
          if n !in pvcs { return false; }
          gone := GonePvc;
          pvcs := pvcs - {n};
      }
      rv := rv + 1;
      OnDelete(gone, n);
      return true;
    }

    /** The delete hook; the store has removed the object already. */
    method OnDelete(gone: Gone, n: Name)
      modifies `claims, `pools, `templates, `sandboxes, `pvcs, `containers, `volumes, `rv
      ensures W() == HookDone(old(W()), ns, gone, n)
      decreases Rank(KindOf(gone)), 1, 0
    {
      match gone {
        case GoneSandbox(sb) => CleanupSandboxResources(sb, n);
        case GoneClaim(claim) => CascadeClaimDelete(claim, n);
        case GonePool => CascadeWarmPoolDelete(n);
        case GoneTemplate =>
        case GonePvc => volumes := volumes - {VolumeName(ns, n)};
      }
    }

    /** The container goes, and the template claims that the sandbox owns; a claim that is missing has its volume removed. */
    method CleanupSandboxResources(sb: Sandbox, n: Name)
      modifies `claims, `pools, `templates, `sandboxes, `pvcs, `containers, `volumes, `rv
      ensures W() == Cleaned(old(W()), ns, sb, n)
      decreases Rank(ASandbox), 0, 0
    {
      if n in containers {
        containers := containers - {n};
      }
      CleanupClaims(sb, n);
    }

    method CleanupClaims(sb: Sandbox, n: Name)
      modifies `claims, `pools, `templates, `sandboxes, `pvcs, `containers, `volumes, `rv
      ensures W() == CleanedFor(old(W()), ns, sb, n, sb.spec.vcts)
      decreases Rank(APvc), 3, 0
    {
      ghost var w := W();
      NothingCleaned(w, ns, sb, n);
      assert sb.spec.vcts[..0] == [];
      for i := 0 to |sb.spec.vcts|
        invariant W() == CleanedFor(w, ns, sb, n, sb.spec.vcts[..i])
      {
        var pvcName := PvcName(sb.spec.vcts[i], n);
        assert sb.spec.vcts[..i + 1] == sb.spec.vcts[..i] + [sb.spec.vcts[i]];
        OneMoreCleaned(w, ns, sb, n, sb.spec.vcts[..i], sb.spec.vcts[i]);
        CleanupClaim(sb.meta.uid, pvcName);
      }
      assert sb.spec.vcts[..|sb.spec.vcts|] == sb.spec.vcts;
    }

    /** Only a claim that the sandbox controls is deleted, never a user's of the same name. */
    method CleanupClaim(uid: Uid, pvcName: Name)
      modifies `claims, `pools, `templates, `sandboxes, `pvcs, `containers, `volumes, `rv
      ensures W() ==
        if pvcName !in old(pvcs) then old(W()).(volumes := old(volumes) - {VolumeName(ns, pvcName)})
        else if ControllerUid(old(pvcs)[pvcName].meta.owners) == uid then PvcDeleted(old(W()), ns, pvcName)
        else old(W())
      decreases Rank(APvc), 2, 1
    {
      if pvcName in pvcs {
        if ControllerUid(pvcs[pvcName].meta.owners) == uid {
          var _ := Delete(APvc, pvcName);
        }
      } else {
        volumes := volumes - {VolumeName(ns, pvcName)};
      }
    }

    /** The claim's sandbox goes if the claim controls it. */
    method CascadeClaimDelete(claim: Claim, k: Name)
      modifies `claims, `pools, `templates, `sandboxes, `pvcs, `containers, `volumes, `rv
      ensures W() == HookDone(old(W()), ns, GoneClaim(claim), k)
      decreases Rank(AClaim), 0, 0
    {
      var sbName := claim.status.sandbox;
      if sbName == "" {
        sbName := k;
      }
      if sbName !in sandboxes || ControllerUid(sandboxes[sbName].meta.owners) != claim.meta.uid {
        return;
      }
      var _ := Delete(ASandbox, sbName);
    }

    /** The sandboxes with the pool as an owner by name go, one after another. */
    method CascadeWarmPoolDelete(k: Name)
      modifies `claims, `pools, `templates, `sandboxes, `pvcs, `containers, `volumes, `rv
      ensures W() == SandboxesDeleted(old(W()), ns, Members(old(sandboxes), k))
      decreases Rank(APool), 0, 1
    {
      var items := sandboxes;
      var list := List();
      ghost var w, members := W(), Members(sandboxes, k);
      NoneDeleted(w, ns);
      assert Among(list[..0], members) == {};
      for i := 0 to |list|
        invariant items == w.sandboxes && W() == SandboxesDeleted(w, ns, Among(list[..i], members))
      {
        AmongDeleted(w, ns, list, i, members);
        DeleteMember(list[i], items[list[i]], k);
      }
      assert list[..|list|] == list;
      assert Among(list, members) == members;
    }

    method DeleteMember(n: Name, listed: Sandbox, k: Name)
      requires n in sandboxes
      modifies `claims, `pools, `templates, `sandboxes, `pvcs, `containers, `volumes, `rv
      ensures W() == if OwnedBy(listed.meta.owners, POOL, k) then SandboxDeleted(old(W()), ns, n) else old(W())
      decreases Rank(APool), 0, 0
    {
      if OwnedBy(listed.meta.owners, POOL, k) {
        var _ := Delete(ASandbox, n);
      }
    }

    /** The names of the sandboxes, in some order. */
    method List() returns (names: seq<Name>)
      ensures forall i, j :: 0 <= i < j < |names| ==> names[i] != names[j]
      ensures forall n :: n in names <==> n in sandboxes
    {
      names := [];
      var rest := sandboxes.Keys;
      while rest != {}
        invariant rest <= sandboxes.Keys
        invariant forall i, j :: 0 <= i < j < |names| ==> names[i] != names[j]
        invariant forall n :: n in names <==> n in sandboxes.Keys - rest
        decreases |rest|
      {
        var n :| n in rest;
        assert n !in names;
        names := names + [n];
        rest := rest - {n};
      }
    }

    // ---- Warm pools ----

    /**
     * With no other pass at work a pool pass leaves exactly the wanted number of members, unless it has
     * no template to make more: members stay or are trimmed in trimming order, each with its resources,
     * and new ones belong to the pool. The status it publishes counts the members it found. If fewer
     * than none are wanted, every member goes and then the index runs past the list: the pass panics
     * before it writes a status. drawn are the names the store would draw.
     */
    method ReconcileWarmPool(k: Name, drawn: seq<Name>) returns (panicked: bool)
      requires k in pools ==> Desired(pools[k]) <= |Members(sandboxes, k)| + |drawn|
      requires Drawn(sandboxes, drawn)
      modifies `claims, `pools, `templates, `sandboxes, `pvcs, `containers, `volumes, `rv, `nextUid
      ensures panicked <==> k in old(pools) && exists wanted :: old(pools)[k].spec.replicas == Some(wanted) && wanted < 0
      ensures k !in old(pools) ==> W() == old(W())
      ensures panicked ==> W() == SandboxesDeleted(old(W()), ns, Members(old(sandboxes), k)) && nextUid == old(nextUid)
      ensures k in old(pools) && !panicked ==>
        var members, pool := Members(old(sandboxes), k), old(pools)[k];
        && pools == old(pools)[k := StatusWritten(pool, PoolStatus(|members|, |ReadyOf(old(sandboxes), members)|), rv)]
        && rv > 0 && Resized(old(W()), W().(pools := old(pools), rv := rv - 1), ns, k, now, old(nextUid), nextUid)
    {
      panicked := false;
      if k !in pools {
        return;
      }
      var pool := pools[k];
      var mine, ready := Mine(k);
      panicked := Resize(k, pool, mine, drawn);
      if panicked {
        return;
      }
      WriteWarmPoolStatus(k, pool, PoolStatus(|mine|, ready));
    }

    method WriteWarmPoolStatus(k: Name, pool: Pool, status: PoolStatus)
      modifies `pools, `rv
      ensures rv == old(rv) + 1 && pools == old(pools)[k := StatusWritten(pool, status, rv)]
      ensures W().(pools := old(pools), rv := rv - 1) == old(W())
    {
      rv := rv + 1;
      pools := pools[k := StatusWritten(pool, status, rv)];
    }

    /** Creates what is missing or deletes what is too much. */
    method Resize(k: Name, pool: Pool, mine: seq<Name>, drawn: seq<Name>) returns (panicked: bool)
      requires k in pools && pools[k] == pool && Desired(pool) <= |Members(sandboxes, k)| + |drawn|
      requires Drawn(sandboxes, drawn)
      requires forall i, j :: 0 <= i < j < |mine| ==> mine[i] != mine[j]
      requires |mine| == |Members(sandboxes, k)| && forall n :: n in mine <==> n in Members(sandboxes, k)
      modifies `claims, `pools, `templates, `sandboxes, `pvcs, `containers, `volumes, `rv, `nextUid
      ensures panicked <==> Desired(pool) < 0
      ensures pools == old(pools)
      ensures !panicked ==> Resized(old(W()), W(), ns, k, now, old(nextUid), nextUid)
      ensures panicked ==> W() == SandboxesDeleted(old(W()), ns, Members(old(sandboxes), k)) && nextUid == old(nextUid)
    {
      panicked := false;
      var desired := Desired(pool);
      if pool.spec.template in templates && |mine| < desired {
        Grow(k, pool.meta.uid, templates[pool.spec.template].spec, drawn[..desired - |mine|]);
        GrownMembers(old(sandboxes), sandboxes, k, pool.meta.uid, drawn[..desired - |mine|]);
      } else if |mine| > desired {
        ghost var gone: set<Name>;
        panicked, gone := Trim(k, mine, |mine| - desired);
        if !panicked {
          TrimmedIsResized(old(W()), ns, k, gone, now, nextUid);
        }
      }
    }

    /** Two passes in a row: the second changes no sandbox, and publishes the wanted number. */
    method SettleWarmPool(k: Name, drawn: seq<Name>)
      requires k in pools && 0 <= Desired(pools[k]) <= |Members(sandboxes, k)| + |drawn|
      requires pools[k].spec.template in templates
      requires Drawn(sandboxes, drawn)
      modifies `claims, `pools, `templates, `sandboxes, `pvcs, `containers, `volumes, `rv, `nextUid
      ensures k in pools && pools[k].status.replicas == |Members(sandboxes, k)|
      ensures |Members(sandboxes, k)| == match old(pools)[k].spec.replicas case Some(wanted) => wanted case None => 1
      ensures pools[k].status.ready == |ReadyOf(sandboxes, Members(sandboxes, k))|
      ensures |Members(old(sandboxes), k)| == Desired(old(pools)[k]) ==> sandboxes == old(sandboxes)
    {
      var _ := ReconcileWarmPool(k, drawn);
      assert |Members(sandboxes, k)| == Desired(old(pools)[k]);
      var _ := ReconcileWarmPool(k, []);
    }

    method Mine(k: Name) returns (mine: seq<Name>, ready: nat)
      ensures forall i, j :: 0 <= i < j < |mine| ==> mine[i] != mine[j]
      ensures forall n :: n in mine <==> n in Members(sandboxes, k)
      ensures |mine| == |Members(sandboxes, k)|
      ensures ready == |ReadyOf(sandboxes, Members(sandboxes, k))|
    {
      var list := List();
      mine, ready := [], 0;
      ghost var found: set<Name> := {};
      for i := 0 to |list|
        invariant forall i, j :: 0 <= i < j < |mine| ==> mine[i] != mine[j]
        invariant forall n :: n in mine <==> n in list[..i] && n in Members(sandboxes, k)
        invariant found == (set n | n in mine) && found <= sandboxes.Keys
        invariant ready == |ReadyOf(sandboxes, found)|
      {
        var n := list[i];
        assert list[..i + 1] == list[..i] + [n] && n !in list[..i];
        assert n in list;
        if OwnedBy(sandboxes[n].meta.owners, POOL, k) {
          OneMoreReady(sandboxes, found, n);
          mine := mine + [n];
          found := found + {n};
          if IsReady(sandboxes[n]) {
            ready := ready + 1;
          }
        }
      }
      assert list[..|list|] == list;
      assert found == Members(sandboxes, k);
      LengthIsSize(mine);
    }

    method Grow(k: Name, uid: Uid, template: TemplateSpec, names: seq<Name>)
      requires Drawn(sandboxes, names)
      modifies `sandboxes, `rv, `nextUid
      ensures Grown(old(sandboxes), sandboxes, ControllerRef(POOL, k, uid), Plain(template), now, old(nextUid), nextUid)
      ensures sandboxes.Keys == old(sandboxes).Keys + Elements(names)
    {
      BuildsPlain(template);
      var spec := BuildSandbox(template, [], []);
      for i := 0 to |names|
        invariant Grown(old(sandboxes), sandboxes, ControllerRef(POOL, k, uid), Plain(template), now, old(nextUid), nextUid)
        invariant sandboxes.Keys == old(sandboxes).Keys + Elements(names[..i])
      {
        NextOfHead(names, i);
        CreatePooled(old(sandboxes), k, uid, spec.value, names[i], old(nextUid));
      }
      assert names[..|names|] == names;
    }

    /** One more sandbox of the pool. */
    method CreatePooled(ghost had: map<Name, Sandbox>, k: Name, uid: Uid, spec: SandboxSpec, n: Name, ghost from: Uid)
      requires n !in sandboxes && Grown(had, sandboxes, ControllerRef(POOL, k, uid), spec, now, from, nextUid)
      modifies `sandboxes, `rv, `nextUid
      ensures Grown(had, sandboxes, ControllerRef(POOL, k, uid), spec, now, from, nextUid)
      ensures sandboxes.Keys == old(sandboxes).Keys + {n}
    {
      GrownMore(had, sandboxes, n, uid, k, spec, now, from, nextUid, rv + 1);
      rv := rv + 1;
      sandboxes := sandboxes[n := Created(nextUid, rv, now, [ControllerRef(POOL, k, uid)], spec, NO_STATUS)];
      nextUid := nextUid + 1;
    }

    /** Deletes from the head of the trimming order; past its end is an index out of range. */
    method Trim(k: Name, mine: seq<Name>, excess: nat) returns (panicked: bool, ghost gone: set<Name>)
      requires forall i, j :: 0 <= i < j < |mine| ==> mine[i] != mine[j]
      requires forall n :: n in mine <==> n in Members(sandboxes, k)
      modifies `claims, `pools, `templates, `sandboxes, `pvcs, `containers, `volumes, `rv
      ensures panicked <==> excess > |mine|
      ensures gone <= Members(old(sandboxes), k) && if panicked then gone == Members(old(sandboxes), k) else |gone| == excess
      ensures TrimmedFirst(old(sandboxes), Members(old(sandboxes), k), gone)
      ensures W() == SandboxesDeleted(old(W()), ns, gone)
    {
      var sorted := SortForTrim(sandboxes, mine);
      SameElements(mine, sorted);
      ghost var w := W();
      panicked, gone := false, {};
      NoneDeleted(w, ns);
      for i := 0 to excess
        invariant i <= |sorted| && gone == Elements(sorted[..i]) && |gone| == i
        invariant gone <= w.sandboxes.Keys
        invariant W() == SandboxesDeleted(w, ns, gone)
      {
        if i >= |sorted| {
          panicked := true;
          break;
        }
        NextOfHead(sorted, i);
        OneMoreDeleted(w, ns, gone, sorted[i]);
        gone := gone + {sorted[i]};
        var _ := Delete(ASandbox, sorted[i]);
      }
      assert Members(w.sandboxes, k) == Elements(sorted);
      var until := if panicked then |sorted| else excess;
      assert sorted[..|sorted|] == sorted;
      HeadIsTrimmed(w.sandboxes, sorted, until);
    }

    // ---- Sandboxes ----

    /**
     * One sandbox pass: an orphan is deleted with its resources, a sandbox past its shutdown time is
     * wound down, a suspended one loses its container, and any other one is run. The outcome, if there
     * is one, is what the status was written from.
     */
    method ReconcileSandbox(n: Name, d: Driver) returns (o: Option<Outcome>)
      modifies `claims, `pools, `templates, `sandboxes, `pvcs, `containers, `volumes, `rv, `nextUid, `nextPort
      ensures n !in old(sandboxes) ==> o.None? && W() == old(W())
      ensures n in old(sandboxes) && P.Orphaned(old(Value()), old(sandboxes)[n].meta.owners) ==>
        o.None? && W() == SandboxDeleted(old(W()), ns, n)
      ensures n in old(sandboxes) && !P.Orphaned(old(Value()), old(sandboxes)[n].meta.owners) ==>
        Passed(old(W()), W(), ns, n, defaultPort, d, o, now, Here(n))
      ensures o == Some(Serving(true)) ==>
        n in sandboxes && Answers(containers, n, ServerPort(sandboxes[n].spec.pod, defaultPort), d)
    {
      if n !in sandboxes {
        return None;
      }
      var sb := sandboxes[n];
      if P.Orphaned(Value(), sb.meta.owners) {
        var _ := Delete(ASandbox, n);
        return None;
      }
      o := ReconcileOwned(n, sb, d);
      ReadyAnswers(old(W()), W(), ns, n, defaultPort, d, o, now, Here(n));
    }

    /** The pass for a sandbox that is no orphan. */
    method ReconcileOwned(n: Name, sb: Sandbox, d: Driver) returns (o: Option<Outcome>)
      requires n in sandboxes && sandboxes[n] == sb
      modifies `claims, `pools, `templates, `sandboxes, `pvcs, `containers, `volumes, `rv, `nextUid, `nextPort
      ensures Passed(old(W()), W(), ns, n, defaultPort, d, o, now, Here(n))
    {
      if PastEnd(sb, now) {
        o := HandleSandboxExpiry(n, sb, d);
      } else if sb.spec.mode == Suspended {
        o := ReconcileSuspended(n, sb, d);
        StopPasses(old(W()), W(), ns, n, defaultPort, d, o, now, Here(n));
      } else {
        o := ReconcileRunning(n, sb, d);
        RunPasses(old(W()), W(), ns, n, defaultPort, d, o, now, Here(n));
      }
    }

    function Here(n: Name): Place
      reads `containers
    {
      Place(n, nodeName, IpOf(containers, n))
    }

    /** Written by name, without a version: the pass is its only writer. */
    method WriteSandboxStatus(n: Name, status: SandboxStatus)
      requires n in sandboxes
      modifies `sandboxes, `rv
      ensures rv == old(rv) + 1 && sandboxes == old(sandboxes)[n := StatusWritten(old(sandboxes)[n], status, rv)]
    {
      rv := rv + 1;
      sandboxes := sandboxes[n := StatusWritten(sandboxes[n], status, rv)];
    }

    method HandleSandboxExpiry(n: Name, sb: Sandbox, d: Driver) returns (o: Option<Outcome>)
      requires n in sandboxes && sandboxes[n] == sb
      modifies `claims, `pools, `templates, `sandboxes, `pvcs, `containers, `volumes, `rv
      ensures sb.spec.deleteOnExpiry ==> o.None? && W() == SandboxDeleted(old(W()), ns, n)
      ensures !sb.spec.deleteOnExpiry ==>
        && o == Some(PastShutdown) && n in sandboxes && sandboxes == old(sandboxes)[n := sandboxes[n]]
        && Reported(sb, sandboxes[n], o, now, Here(n)) && Stopped(old(W()), W(), n, d)
        && claims == old(claims) && pools == old(pools) && templates == old(templates)
    {
      var _ := RemoveContainer(n, d);
      if sb.spec.deleteOnExpiry {
        ContainerGoesFirst(old(W()), ns, n);
        var _ := Delete(ASandbox, n);
        return None;
      }
      ReportStopped(n, sb, PastShutdown);
      return Some(PastShutdown);
    }

    /** Removes the container if the driver finds it; gone unless the driver cannot tell. */
    method RemoveContainer(n: Name, d: Driver) returns (gone: bool)
      modifies `containers
      ensures gone == !d.inspectFails
      ensures containers == if d.inspectFails then old(containers) else old(containers) - {n}
    {
      gone := true;
      if d.inspectFails {
        gone := false;
      } else if n in containers {
        containers := containers - {n};
      }
    }

    method ReconcileSuspended(n: Name, sb: Sandbox, d: Driver) returns (o: Option<Outcome>)
      requires n in sandboxes && sandboxes[n] == sb
      modifies `sandboxes, `containers, `rv
      ensures o == Some(if d.inspectFails then PodStays else PodGone)
      ensures n in sandboxes && sandboxes == old(sandboxes)[n := sandboxes[n]] && Reported(sb, sandboxes[n], o, now, Here(n))
      ensures containers == if d.inspectFails then old(containers) else old(containers) - {n}
    {
      var gone := RemoveContainer(n, d);
      o := Some(if gone then PodGone else PodStays);
      ReportStopped(n, sb, o.value);
    }

    /** The pass's status, which shows the outcome. */
    method Report(n: Name, sb: Sandbox, o: Outcome, status: SandboxStatus)
      requires n in sandboxes && Same(sb, sandboxes[n])
      requires Shows(status, sb, o, now, Here(n))
      modifies `sandboxes, `rv
      ensures rv == old(rv) + 1
      ensures n in sandboxes && sandboxes == old(sandboxes)[n := sandboxes[n]] && Reported(sb, sandboxes[n], Some(o), now, Here(n))
      ensures sandboxes[n].meta.annotations == old(sandboxes)[n].meta.annotations
    {
      WriteSandboxStatus(n, status);
    }

    /** A status of conditions alone, for the outcomes without a container. */
    method ReportStopped(n: Name, sb: Sandbox, o: Outcome)
      requires n in sandboxes && Same(sb, sandboxes[n])
      requires !o.Exited? && !o.Serving? && !o.Waiting?
      modifies `sandboxes, `rv
      ensures rv == old(rv) + 1
      ensures n in sandboxes && sandboxes == old(sandboxes)[n := sandboxes[n]] && Reported(sb, sandboxes[n], Some(o), now, Here(n))
    {
      NextShows(sb, o, now);
      Report(n, sb, o, NO_STATUS.(conditions := Next(sb.status.conditions, o, sb.meta.generation, now)));
    }

    method FailReady(n: Name, sb: Sandbox, o: Outcome)
      requires o.Failed? || o.MissingPvc?
      requires n in sandboxes && Same(sb, sandboxes[n])
      modifies `sandboxes, `rv
      ensures n in sandboxes && sandboxes == old(sandboxes)[n := sandboxes[n]] && Reported(sb, sandboxes[n], Some(o), now, Here(n))
    {
      ReportStopped(n, sb, o);
    }

    /** Each template's claim is there, created for the sandbox unless it existed; the pod gets its volume. */
    method EnsureTemplateClaims(n: Name, sb: Sandbox) returns (pod: PodSpec)
      modifies `pvcs, `rv, `nextUid
      ensures pod == WithClaims(sb.spec.pod, sb.spec.vcts, n)
      ensures AllThere(sb.spec.vcts, n, pvcs.Keys) && ClaimsAdded(old(pvcs), pvcs, sb, n, now)
    {
      pod := sb.spec.pod;
      ghost var vcts, had := sb.spec.vcts, pvcs;
      assert vcts[..0] == [];
      for i := 0 to |sb.spec.vcts|
        invariant pod == WithClaims(sb.spec.pod, vcts[..i], n)
        invariant AllThere(vcts[..i], n, pvcs.Keys) && ClaimsAdded(had, pvcs, sb, n, now)
      {
        EnsureTemplateClaim(had, n, sb, i);
        pod := InjectTemplateVolume(n, sb, i, pod);
      }
      assert vcts[..|vcts|] == vcts;
    }

    method InjectTemplateVolume(n: Name, sb: Sandbox, i: nat, pod: PodSpec) returns (r: PodSpec)
      requires i < |sb.spec.vcts| && pod == WithClaims(sb.spec.pod, sb.spec.vcts[..i], n)
      ensures r == WithClaims(sb.spec.pod, sb.spec.vcts[..i + 1], n)
    {
      var vct := sb.spec.vcts[i];
      assert sb.spec.vcts[..i + 1][..i] == sb.spec.vcts[..i];
      r := InjectPodVolume(pod, vct.name, PvcName(vct, n));
    }

    /** Create-only: a claim that exists stays as it is, whoever owns it. */
    method EnsureTemplateClaim(ghost had: map<Name, Pvc>, n: Name, sb: Sandbox, i: nat)
      requires i < |sb.spec.vcts| && ClaimsAdded(had, pvcs, sb, n, now) && AllThere(sb.spec.vcts[..i], n, pvcs.Keys)
      modifies `pvcs, `rv, `nextUid
      ensures AllThere(sb.spec.vcts[..i + 1], n, pvcs.Keys) && ClaimsAdded(had, pvcs, sb, n, now)
    {
      var vct := sb.spec.vcts[i];
      FirstOfName(sb.spec.vcts, i, n, pvcs.Keys);
      assert sb.spec.vcts[..i + 1] == sb.spec.vcts[..i] + [vct];
      var pvcName := PvcName(vct, n);
      if pvcName !in pvcs {
        assert AsksFirst(sb.spec.vcts, n, pvcName, vct.request);
        rv := rv + 1;
        pvcs := pvcs[pvcName := Created(nextUid, rv, now, [ControllerRef(SANDBOX, n, sb.meta.uid)], vct.request, "")];
        nextUid := nextUid + 1;
      }
    }

    /** Backs the pod's claims with volumes, in order, up to the first that does not exist or cannot be backed. */
    method BackVolumes(pod: PodSpec, d: Driver) returns (r: Backing)
      modifies `volumes
      ensures VolumesAdded(old(volumes), volumes, ns, pod) && Backs(pvcs, volumes, ns, pod, d, r)
    {
      var ensured: set<string> := {};
      for i := 0 to |pod.volumes|
        invariant VolumesAdded(old(volumes), volumes, ns, pod) && ensured <= volumes
        invariant forall v :: v in pod.volumes[..i] && v.source.PvcVolume? ==>
          v.source.claim in pvcs && VolumeName(ns, v.source.claim) in ensured
      {
        var v := pod.volumes[i];
        assert pod.volumes[..i + 1] == pod.volumes[..i] + [v];
        if v.source.PvcVolume? {
          var claim := v.source.claim;
          if claim !in pvcs {
            assert v in pod.volumes;
            return NotFound(claim);
          }
          if VolumeName(ns, claim) in d.volumeFails {
            return Unbacked;
          }
          OneMoreAdded(old(volumes), volumes, ns, pod, v);
          volumes := volumes + {VolumeName(ns, claim)};
          ensured := ensured + {VolumeName(ns, claim)};
        }
      }
      assert pod.volumes[..|pod.volumes|] == pod.volumes;
      return Backed(ensured);
    }

    /** The driver's create: the container runs at once, every port of the spec on a host port of its own. */
    method CreateSandboxContainer(n: Name, spec: ContainerSpec) returns (info: ContainerInfo)
      modifies `containers, `nextPort
      ensures containers == old(containers)[n := info] && info.state == "running" && info.ip != "" && info.spec == spec
      ensures info.portMap.Keys == {spec.serverPort} + set p | p in spec.ports
      ensures Published(info.portMap, old(nextPort), nextPort)
    {
      var portMap := map[spec.serverPort := nextPort];
      nextPort := nextPort + 1;
      for i := 0 to |spec.ports|
        invariant containers == old(containers)
        invariant portMap.Keys == {spec.serverPort} + set p | p in spec.ports[..i]
        invariant Published(portMap, old(nextPort), nextPort)
      {
        assert spec.ports[..i + 1] == spec.ports[..i] + [spec.ports[i]];
        if spec.ports[i] !in portMap {
          portMap := portMap[spec.ports[i] := nextPort];
          nextPort := nextPort + 1;
        }
      }
      assert spec.ports[..|spec.ports|] == spec.ports;
      info := ContainerInfo("running", 0, "10.88.0.2", portMap, spec);
      containers := containers[n := info];
    }

    method EnsurePodNameAnnotation(n: Name)
      requires n in sandboxes
      modifies `sandboxes, `rv
      ensures n in sandboxes && sandboxes == old(sandboxes)[n := sandboxes[n]]
      ensures Same(old(sandboxes)[n], sandboxes[n]) && sandboxes[n].status == old(sandboxes)[n].status
      ensures sandboxes[n].meta.annotations == old(sandboxes)[n].meta.annotations["agents.x-k8s.io/pod-name" := n]
    {
      var sb := sandboxes[n];
      var key := "agents.x-k8s.io/pod-name";
      if key in sb.meta.annotations && sb.meta.annotations[key] == n {
        return;
      }
      rv := rv + 1;
      sandboxes := sandboxes[n := sb.(meta := sb.meta.(annotations := sb.meta.annotations[key := n], rv := rv))];
    }

    /** A sandbox without a container gets one, mapped from its pod. */
    method EnsureContainer(n: Name, pod: PodSpec, d: Driver) returns (r: Started)
      requires pod.containers != []
      modifies `containers, `nextPort
      ensures r.Present? ==> n in containers
      ensures r.NotMapped? ==> pod.containers[0].privileged
      ensures r.DriverError? ==> d.inspectFails || d.createFails
      ensures n in old(containers) || !r.Present? ==> containers == old(containers)
      ensures n !in old(containers) && r.Present? ==>
        && containers == old(containers)[n := containers[n]]
        && MappedFrom(ns, pod, defaultPort, containers[n].spec)
    {
      if d.inspectFails {
        return DriverError;
      }
      if n !in containers {
        var spec := MapPodSpec(ns, pod, ServerPort(pod, defaultPort), defaultPort);
        if spec.None? {
          return NotMapped;
        }
        if d.createFails {
          return DriverError;
        }
        FirstPositiveIsDeclared(pod.containers[0].ports, defaultPort);
        var _ := CreateSandboxContainer(n, spec.value);
      }
      return Present;
    }

    method ReconcileRunning(n: Name, sb: Sandbox, d: Driver) returns (o: Option<Outcome>)
      requires n in sandboxes && sandboxes[n] == sb
      modifies `sandboxes, `pvcs, `containers, `volumes, `rv, `nextUid, `nextPort
      ensures n in sandboxes && sandboxes == old(sandboxes)[n := sandboxes[n]] && Reported(sb, sandboxes[n], o, now, Here(n))
      ensures Explained(W(), ns, sb, n, defaultPort, d, o) && Adds(old(W()), W(), ns, sb, n, now)
      ensures n in containers && n !in old(containers) ==> BackedAndMapped(W(), ns, sb, n, defaultPort)
    {
      SameContainers(sb.spec.pod, sb.spec.vcts, n);
      if |sb.spec.pod.containers| == 0 {
        o := Some(Failed("Pod spec has no containers"));
        FailReady(n, sb, o.value);
        return;
      }
      var pod, backing := PrepareVolumes(n, sb, d);
      o := RunBacked(n, sb, pod, backing, d);
    }

    /** The claims of the templates, and the volumes of all claims the pod names. */
    method PrepareVolumes(n: Name, sb: Sandbox, d: Driver) returns (pod: PodSpec, backing: Backing)
      modifies `pvcs, `volumes, `rv, `nextUid
      ensures pod == WithClaims(sb.spec.pod, sb.spec.vcts, n) && ClaimsAdded(old(pvcs), pvcs, sb, n, now)
      ensures VolumesAdded(old(volumes), volumes, ns, pod) && Backs(pvcs, volumes, ns, pod, d, backing)
    {
      pod := EnsureTemplateClaims(n, sb);
      backing := BackVolumes(pod, d);
    }

    /** The pass once it is known whether the volumes are there. */
    method RunBacked(n: Name, sb: Sandbox, pod: PodSpec, backing: Backing, d: Driver) returns (o: Option<Outcome>)
      requires n in sandboxes && sandboxes[n] == sb && pod == WithClaims(sb.spec.pod, sb.spec.vcts, n)
      requires pod.containers == sb.spec.pod.containers != [] && Backs(pvcs, volumes, ns, pod, d, backing)
      modifies `sandboxes, `containers, `rv, `nextPort
      ensures n in sandboxes && sandboxes == old(sandboxes)[n := sandboxes[n]] && Reported(sb, sandboxes[n], o, now, Here(n))
      ensures Explained(W(), ns, sb, n, defaultPort, d, o) && AddsContainer(old(containers), containers, n)
      ensures n in containers && n !in old(containers) ==> BackedAndMapped(W(), ns, sb, n, defaultPort)
    {
      if backing.NotFound? {
        o := Some(MissingPvc(backing.claim));
        FailReady(n, sb, o.value);
        return;
      }
      if backing.Unbacked? {
        return None;
      }
      o := RunPod(n, sb, pod, d);
      if n in containers && n !in old(containers) {
        CreatedIsBacked(W(), ns, sb, n, defaultPort, backing.ensured);
      }
    }

    /** The part of the pass that needs the image and the driver. */
    method RunPod(n: Name, sb: Sandbox, pod: PodSpec, d: Driver) returns (o: Option<Outcome>)
      requires n in sandboxes && sandboxes[n] == sb && pod.containers == sb.spec.pod.containers != []
      modifies `sandboxes, `containers, `rv, `nextPort
      ensures n in sandboxes && sandboxes == old(sandboxes)[n := sandboxes[n]] && Reported(sb, sandboxes[n], o, now, Here(n))
      ensures containers == old(containers)
        || (n !in old(containers) && n in containers && containers == old(containers)[n := containers[n]]
            && MappedFrom(ns, pod, defaultPort, containers[n].spec))
      ensures o.None? ==> d.inspectFails || d.createFails
      ensures o.Some? ==> match o.value
        case Failed(_) => !d.imageOk || pod.containers[0].privileged
        case Exited(_) | Serving(_) | Waiting(_) => Observed(containers, n, sb, defaultPort, d, o.value)
        case _ => false
    {
      if !d.imageOk {
        o := Some(Failed("image unavailable"));
        FailReady(n, sb, o.value);
        return;
      }
      var started := EnsureContainer(n, pod, d);
      if started.NotMapped? {
        o := Some(Failed("driver: privileged containers are refused"));
        FailReady(n, sb, o.value);
        return;
      }
      if started.DriverError? {
        return None;
      }
      o := Publish(n, sb, d);
    }

    /** Names the pod in an annotation and writes the status for the container as it is found. */
    method Publish(n: Name, sb: Sandbox, d: Driver) returns (o: Option<Outcome>)
      requires n in sandboxes && n in containers && sandboxes[n] == sb
      modifies `sandboxes, `rv
      ensures n in sandboxes && sandboxes == old(sandboxes)[n := sandboxes[n]] && Reported(sb, sandboxes[n], o, now, Here(n))
      ensures sandboxes[n].meta.annotations == sb.meta.annotations["agents.x-k8s.io/pod-name" := n]
      ensures o.Some? && Observed(containers, n, sb, defaultPort, d, o.value)
    {
      EnsurePodNameAnnotation(n);
      o := Observe(n, sb, d);
    }

    method Observe(n: Name, sb: Sandbox, d: Driver) returns (o: Option<Outcome>)
      requires n in sandboxes && n in containers && Same(sb, sandboxes[n])
      modifies `sandboxes, `rv
      ensures n in sandboxes && sandboxes == old(sandboxes)[n := sandboxes[n]] && Reported(sb, sandboxes[n], o, now, Here(n))
      ensures sandboxes[n].meta.annotations == old(sandboxes)[n].meta.annotations
      ensures o.Some? && Observed(containers, n, sb, defaultPort, d, o.value)
    {
      var found, st := StatusHere(n, sb, d);
      NextShows(sb, found, now);
      Report(n, sb, found, st.(conditions := Next(sb.status.conditions, found, sb.meta.generation, now)));
      return Some(found);
    }

    /** What the container's state comes to, and the status that goes with it, but for the conditions. */
    method StatusHere(n: Name, sb: Sandbox, d: Driver) returns (o: Outcome, st: SandboxStatus)
      requires n in containers
      ensures Observed(containers, n, sb, defaultPort, d, o)
      ensures st.podIPs == (if o.Serving? && containers[n].ip != "" then [containers[n].ip] else [])
      ensures st.node == (if o.Serving? then nodeName else "") && st.service == (if sb.spec.service then n else "")
    {
      var info := containers[n];
      st := NO_STATUS;
      if info.state == "exited" || info.state == "dead" {
        o := Exited(info.exitCode);
      } else if info.state == "running" {
        st := st.(node := nodeName);
        var serverPort := ServerPort(sb.spec.pod, defaultPort);
        var hostPort := if serverPort in info.portMap then info.portMap[serverPort] else 0;
        if info.ip != "" {
          st := st.(podIPs := [info.ip]);
        }
        var probed := hostPort != 0 && hostPort in d.answers;
        o := Serving(probed && info.ip != "");
      } else {
        o := Waiting(info.state);
      }
      if sb.spec.service {
        st := st.(service := n);
      }
    }

    // ---- Claims ----

    /** The part of the store that binding is about. */
    function Value(): P.Store
      reads this
    {
      P.Store(claims, pools, templates, sandboxes, nextUid, rv, now)
    }

    /**
     * One claim pass. On a claim that is not over it makes the calls of the protocol's claim pass, in
     * that order and with nothing in between; pick is the head its candidate list happened to have.
     */
    method ReconcileClaim(k: Name) returns (ghost pick: Name)
      modifies `claims, `pools, `templates, `sandboxes, `pvcs, `containers, `volumes, `rv, `nextUid
      ensures k !in old(claims) ==> W() == old(W())
      ensures k in old(claims) && !Due(old(claims)[k], now) ==>
        && Heads(old(Value()), old(claims)[k].spec.pool, pick)
        && Value() == A.Rest(old(Value()), k, P.Pass(old(claims)[k], P.AtExpiry), P.Draw(pick, BuiltFor(old(Value()), old(claims)[k])))
        && pvcs == old(pvcs) && containers == old(containers) && volumes == old(volumes)
      ensures k in old(claims) && Due(old(claims)[k], now) ==> WoundDown(old(W()), W(), ns, k, now)
    {
      ghost var pool := if k in claims then claims[k].spec.pool else "";
      SomeHead(Value(), pool);
      pick :| Heads(Value(), pool, pick);
      if k !in claims {
        return;
      }
      var claim := claims[k];
      ExpiredExactly(claim, now);
      if Expired(claim, now) {
        HandleClaimExpiry(k, claim);
        return;
      }
      ghost var st := Value();
      ghost var draw := P.Draw(pick, BuiltFor(st, claim));
      if claim.spec.pool !in pools {
        A.EndsWithoutPool(st, k, draw);
        ClaimNotReady(k, claim, "WarmPoolNotFound", "SandboxWarmPool not found");
        return;
      }
      var template := pools[claim.spec.pool].spec.template;
      if template !in templates {
        A.EndsWithoutTemplate(st, k, draw);
        ClaimNotReady(k, claim, "TemplateNotFound", "SandboxTemplate not found");
        return;
      }
      pick := BindClaim(k, claim, templates[template].spec);
      A.RestFromTheStart(st, k, P.Draw(pick, draw.built));
    }

    method BindClaim(k: Name, claim: Claim, template: TemplateSpec) returns (ghost pick: Name)
      modifies `claims, `sandboxes, `rv, `nextUid
      ensures Heads(old(Value()), claim.spec.pool, pick)
      ensures Value() == A.Rest(old(Value()), k, P.Pass(claim, P.AtExisting),
                                P.Draw(pick, Built(template, claim.spec.env, claim.spec.vcts)))
    {
      var got, head := GetOrCreateSandbox(k, claim, template);
      pick := head;
      FinishClaim(k, claim, got, P.Draw(pick, Built(template, claim.spec.env, claim.spec.vcts)));
    }

    /** The end of the pass, by what became of the sandbox. */
    method FinishClaim(k: Name, claim: Claim, got: Result<Binding, string>, ghost draw: P.Draw)
      modifies `claims, `rv
      ensures Value() == A.Rest(old(Value()), k, P.Pass(claim, AfterBinding(got)), draw)
    {
      if got.Err? {
        A.EndsNotReady(Value(), k, claim, got.error, "Error seen", draw);
        ClaimNotReady(k, claim, got.error, "Error seen");
        return;
      }
      var b := got.value;
      if b.adopted {
        A.EndsAnnotated(Value(), k, claim, b.name, b.sandbox, draw);
        StampClaimSandboxAnnotation(k, b.name);
      }
      A.EndsBound(Value(), k, claim, b.name, b.sandbox, draw);
      var conds := Mirror(claim.status.conditions, b.sandbox.status.conditions, claim.meta.generation, now);
      WriteClaimStatus(k, ClaimStatus(conds, b.name, b.sandbox.status.podIPs));
    }

    /** Reuses the claim's own sandbox, takes one over from the pool, or creates one under the claim's name. */
    method GetOrCreateSandbox(k: Name, claim: Claim, template: TemplateSpec) returns (r: Result<Binding, string>,
        ghost pick: Name)
      modifies `sandboxes, `rv, `nextUid
      ensures Heads(old(Value()), claim.spec.pool, pick)
      ensures var draw := P.Draw(pick, Built(template, claim.spec.env, claim.spec.vcts));
        A.Rest(old(Value()), k, P.Pass(claim, P.AtExisting), draw) == A.Rest(Value(), k, P.Pass(claim, AfterBinding(r)), draw)
    {
      SomeHead(Value(), claim.spec.pool);
      pick :| Heads(Value(), claim.spec.pool, pick);
      var existing := claim.status.sandbox;
      if existing != "" && existing in sandboxes && ControllerUid(sandboxes[existing].meta.owners) == claim.meta.uid {
        return Ok(Binding(existing, sandboxes[existing], false)), pick;
      }
      ghost var st := Value();
      var forceCold := |claim.spec.env| > 0 || |claim.spec.vcts| > 0;
      if !forceCold {
        var adopted, head := AdoptWarmSandbox(k, claim, Built(template, claim.spec.env, claim.spec.vcts), map[]);
        pick := head;
        A.Looks(st, k, P.Pass(claim, P.AtExisting), P.AtList, P.Draw(pick, Built(template, claim.spec.env, claim.spec.vcts)));
        if adopted.Some? {
          return Ok(adopted.value), pick;
        }
      } else {
        A.Looks(st, k, P.Pass(claim, P.AtExisting), P.AtCreate, P.Draw(pick, Built(template, claim.spec.env, claim.spec.vcts)));
      }
      r := ColdCreate(k, claim, template, pick);
    }

    method ColdCreate(k: Name, claim: Claim, template: TemplateSpec,
        ghost pick: Name) returns (r: Result<Binding, string>)
      modifies `sandboxes, `rv, `nextUid
      ensures var draw := P.Draw(pick, Built(template, claim.spec.env, claim.spec.vcts));
        A.Rest(old(Value()), k, P.Pass(claim, P.AtCreate), draw) == A.Rest(Value(), k, P.Pass(claim, AfterBinding(r)), draw)
    {
      var spec := BuildSandbox(template, claim.spec.env, claim.spec.vcts);
      ghost var draw := P.Draw(pick, spec);
      if spec.Err? {
        A.DoesNotCreate(Value(), k, claim, draw);
        return Err(spec.error);
      }
      if k in sandboxes {
        A.DoesNotCreate(Value(), k, claim, draw);
        r := Recheck(k, claim);
        return;
      }
      r := CreateNew(k, claim, spec.value, draw);
    }

    method CreateNew(k: Name, claim: Claim, spec: SandboxSpec, ghost draw: P.Draw) returns (r: Result<Binding, string>)
      requires k !in sandboxes && draw.built == Ok(spec)
      modifies `sandboxes, `rv, `nextUid
      ensures A.Rest(old(Value()), k, P.Pass(claim, P.AtCreate), draw) == A.Rest(Value(), k, P.Pass(claim, AfterBinding(r)), draw)
    {
      A.Creates(Value(), k, claim, draw);
      rv := rv + 1;
      var sb := Created(nextUid, rv, now, [ControllerRef(CLAIM, k, claim.meta.uid)], spec, NO_STATUS);
      sandboxes := sandboxes[k := sb];
      nextUid := nextUid + 1;
      return Ok(Binding(k, sb, false));
    }

    /** A sandbox that has the name already is the claim's only if the claim controls it. */
    method Recheck(k: Name, claim: Claim) returns (r: Result<Binding, string>)
      requires k in sandboxes
      ensures AfterBinding(r) == P.Recheck(Value(), k, P.Pass(claim, P.AtRecheck))
    {
      if ControllerUid(sandboxes[k].meta.owners) != claim.meta.uid {
        return Err("ReconcilerError");
      }
      return Ok(Binding(k, sandboxes[k], false));
    }

    /**
     * Takes over the head of the candidates, reading it again and retrying while somebody else's write
     * comes in between. meddling says what others do between the read and the swap of an attempt; with
     * none this is the protocol's take-over run alone. The swap succeeds exactly if within the first
     * five attempts there is an undisturbed one, and only harmless writes came before it.
     */
    method AdoptWarmSandbox(k: Name, claim: Claim, ghost built: Result<SandboxSpec, string>,
        meddling: map<nat, Meddling>)
      returns (r: Option<Binding>, ghost pick: Name)
      requires meddling != map[] ==> forall n <- sandboxes :: sandboxes[n].meta.rv <= rv
      requires forall i <- meddling :: meddling[i].TakenOver? ==> meddling[i].owner.kind != POOL
      modifies `sandboxes, `rv
      ensures Heads(old(Value()), claim.spec.pool, pick)
      ensures meddling == map[] ==>
        A.Rest(old(Value()), k, P.Pass(claim, P.AtList), P.Draw(pick, built))
          == A.Rest(Value(), k, P.Pass(claim, if r.Some? then AfterBinding(Ok(r.value)) else P.AtCreate), P.Draw(pick, built))
      ensures r.Some? <==> P.MayPick(old(Value()), claim.spec.pool, pick) && WinsSwap(meddling)
      ensures r.Some? ==>
        && r.value.adopted && r.value.name == pick && pick in sandboxes && sandboxes[pick] == r.value.sandbox
        && sandboxes[pick].meta.owners == [ControllerRef(CLAIM, k, claim.meta.uid)]
    {
      var name := HeadCandidate(claim.spec.pool);
      if name.None? {
        pick := "";
        A.Looks(Value(), k, P.Pass(claim, P.AtList), P.AtCreate, P.Draw(pick, built));
        return None, pick;
      }
      pick := name.value;
      A.Looks(Value(), k, P.Pass(claim, P.AtList), P.AtPick(pick, 0), P.Draw(pick, built));
      r := SwapLoop(k, claim, pick, built, meddling, name.value);
    }

    method SwapLoop(k: Name, claim: Claim, ghost pick: Name, ghost built: Result<SandboxSpec, string>,
        meddling: map<nat, Meddling>, name: Name)
      returns (r: Option<Binding>)
      requires name == pick && pick in sandboxes && OwnedBy(sandboxes[pick].meta.owners, POOL, claim.spec.pool)
      requires meddling != map[] ==> forall n <- sandboxes :: sandboxes[n].meta.rv <= rv
      requires forall i <- meddling :: meddling[i].TakenOver? ==> meddling[i].owner.kind != POOL
      modifies `sandboxes, `rv
      ensures meddling == map[] ==>
        A.Rest(old(Value()), k, P.Pass(claim, P.AtPick(pick, 0)), P.Draw(pick, built))
          == A.Rest(Value(), k, P.Pass(claim, if r.Some? then AfterBinding(Ok(r.value)) else P.AtCreate), P.Draw(pick, built))
      ensures r.Some? <==> WinsSwap(meddling)
      ensures r.Some? ==>
        && r.value.adopted && r.value.name == pick && pick in sandboxes && sandboxes[pick] == r.value.sandbox
        && sandboxes[pick].meta.owners == [ControllerRef(CLAIM, k, claim.meta.uid)]
    {
      var attempt := 0;
      while attempt < P.ATTEMPTS
        invariant 0 <= attempt <= P.ATTEMPTS
        invariant meddling == map[] ==> attempt == 0 && Value() == old(Value())
        invariant forall i: nat :: i < attempt ==> i in meddling && !meddling[i].Removed?
        invariant pick in sandboxes && (meddling != map[] ==> sandboxes[pick].meta.rv <= rv)
        invariant OwnedBy(sandboxes[pick].meta.owners, POOL, claim.spec.pool) <==> forall i: nat :: i < attempt ==> meddling[i].Rewritten?
      {
        if name !in sandboxes || !OwnedBy(sandboxes[name].meta.owners, POOL, claim.spec.pool) {
          return None;
        }
        var t := TrySwap(k, claim, name, if attempt in meddling then Some(meddling[attempt]) else None);
        if t.Won? {
          if meddling == map[] {
            SwapAlone(old(Value()), Value(), k, claim, pick, P.Draw(pick, built));
          }
          return Some(t.binding);
        }
        if t.Lost? {
          return None;
        }
        attempt := attempt + 1;
      }
      return None;
    }

    /** One attempt: read, whatever others do meanwhile, and the swap of what was read. */
    method TrySwap(k: Name, claim: Claim, n: Name, meddling: Option<Meddling>) returns (t: Try)
      requires n in sandboxes && (meddling.Some? ==> sandboxes[n].meta.rv <= rv)
      requires meddling.Some? && meddling.value.TakenOver? ==> meddling.value.owner.kind != POOL
      modifies `sandboxes, `rv
      ensures t.Won? <==> meddling.None?
      ensures t.Won? ==>
        && Value() == P.PutSandbox(old(Value()), n, Written(old(sandboxes)[n], P.Adopted(old(sandboxes)[n], k, claim.meta.uid), rv))
        && t.binding == Binding(n, sandboxes[n], true)
      ensures t.Lost? <==> meddling == Some(Removed)
      ensures t.Again? ==>
        && n in sandboxes && sandboxes[n].meta.rv <= rv
        && sandboxes[n].meta.owners == if meddling.value.TakenOver? then [meddling.value.owner] else old(sandboxes)[n].meta.owners
    {
      var seen := sandboxes[n];
      if meddling.Some? {
        Meddle(n, meddling.value);
      }
      var updated := UpdateSandbox(n, P.Adopted(seen, k, claim.meta.uid));
      if updated.Ok? {
        return Won(Binding(n, updated.value, true));
      }
      return if updated.error == Missing then Lost else Again;
    }

    /** What others may do to a sandbox: write it, take it over, or delete it. */
    method Meddle(n: Name, m: Meddling)
      requires n in sandboxes
      requires m.TakenOver? ==> m.owner.kind != POOL
      modifies `sandboxes, `rv
      ensures rv == old(rv) + 1
      ensures m.Removed? ==> sandboxes == old(sandboxes) - {n}
      ensures !m.Removed? ==>
        && n in sandboxes && sandboxes[n].meta.rv == rv && sandboxes[n].meta.uid == old(sandboxes)[n].meta.uid
        && sandboxes[n].meta.owners == if m.TakenOver? then [m.owner] else old(sandboxes)[n].meta.owners
    {
      rv := rv + 1;
      match m {
        case Rewritten(status) => sandboxes := sandboxes[n := StatusWritten(sandboxes[n], status, rv)];
        case TakenOver(owner) => sandboxes := sandboxes[n := sandboxes[n].(meta := sandboxes[n].meta.(owners := [owner], rv := rv))];
        case Removed => sandboxes := sandboxes - {n};
      }
    }

    /** A full write that succeeds only on the version it carries. */
    method UpdateSandbox(n: Name, incoming: Sandbox) returns (r: Result<Sandbox, UpdateError>)
      modifies `sandboxes, `rv
      ensures r == (if n !in old(sandboxes) then Err(Missing)
                    else if old(sandboxes)[n].meta.rv != incoming.meta.rv then Err(Conflict)
                    else Ok(Written(old(sandboxes)[n], incoming, old(rv) + 1)))
      ensures r.Ok? ==> rv == old(rv) + 1 && sandboxes == old(sandboxes)[n := r.value]
      ensures r.Err? ==> rv == old(rv) && sandboxes == old(sandboxes)
    {
      if n !in sandboxes {
        return Err(Missing);
      }
      if sandboxes[n].meta.rv != incoming.meta.rv {
        return Err(Conflict);
      }
      rv := rv + 1;
      var sb := Written(sandboxes[n], incoming, rv);
      sandboxes := sandboxes[n := sb];
      return Ok(sb);
    }

    /** The first of the pool's candidates when ready ones are put first. */
    method HeadCandidate(pool: Name) returns (head: Option<Name>)
      ensures if head.Some? then P.MayPick(Value(), pool, head.value) else forall n <- sandboxes :: !P.Candidate(Value(), pool, n)
    {
      var list := List();
      head := None;
      for i := 0 to |list|
        invariant head.Some? ==> P.Candidate(Value(), pool, head.value)
        invariant head.None? ==> forall n :: n in list[..i] ==> !P.Candidate(Value(), pool, n)
        invariant head.Some? && !IsReady(sandboxes[head.value]) ==>
          forall n :: n in list[..i] && P.Candidate(Value(), pool, n) ==> !IsReady(sandboxes[n])
      {
        var n := list[i];
        assert list[..i + 1] == list[..i] + [n];
        if OwnedBy(sandboxes[n].meta.owners, POOL, pool) && !sandboxes[n].meta.deleting {
          assert P.Candidate(Value(), pool, n);
          if head.None? || (IsReady(sandboxes[n]) && !IsReady(sandboxes[head.value])) {
            head := Some(n);
          }
        }
      }
      assert list[..|list|] == list;
    }

    method WriteClaimStatus(k: Name, status: ClaimStatus)
      modifies `claims, `rv
      ensures Value() == P.WriteStatus(old(Value()), k, status)
    {
      if k in claims {
        rv := rv + 1;
        claims := claims[k := StatusWritten(claims[k], status, rv)];
      }
    }

    method ClaimNotReady(k: Name, claim: Claim, reason: string, message: string)
      modifies `claims, `rv
      ensures Value() == P.WriteStatus(old(Value()), k, NotReady(claim, reason, message, now))
    {
      WriteClaimStatus(k, NotReady(claim, reason, message, now));
    }

    method StampClaimSandboxAnnotation(k: Name, sandbox: Name)
      modifies `claims, `rv
      ensures Value() == P.Annotate(old(Value()), k, sandbox)
    {
      if k in claims {
        rv := rv + 1;
        var c := claims[k];
        var note := c.meta.annotations["agents.x-k8s.io/assigned-sandbox-name" := sandbox];
        claims := claims[k := c.(meta := c.meta.(annotations := note, rv := rv))];
      }
    }

    /** An expired claim goes with all that is its own, or stays without its sandbox. */
    method HandleClaimExpiry(k: Name, claim: Claim)
      requires k in claims && claims[k] == claim && claim.spec.lifecycle.Some?
      modifies `claims, `pools, `templates, `sandboxes, `pvcs, `containers, `volumes, `rv
      ensures WoundDown(old(W()), W(), ns, k, now)
    {
      if claim.spec.lifecycle.value.policy != Retain {
        var _ := Delete(AClaim, k);
        return;
      }
      var sbName := claim.status.sandbox;
      if sbName != "" && sbName in sandboxes && ControllerUid(sandboxes[sbName].meta.owners) == claim.meta.uid {
        var _ := Delete(ASandbox, sbName);
      }
      ClaimNotReady(k, claim, "ClaimExpired", "Sandbox cleanup initiated.");
    }
  }

  // ---- What a claim pass does ----

  datatype Binding = Binding(name: Name, sandbox: Sandbox, adopted: bool)

  datatype UpdateError = Missing | Conflict

  datatype Try = Won(binding: Binding) | Lost | Again

  lemma SwapAlone(st: P.Store, st2: P.Store, k: Name, claim: Claim, n: Name, draw: P.Draw)
    requires n in st.sandboxes && OwnedBy(st.sandboxes[n].meta.owners, POOL, claim.spec.pool)
    requires st2 == P.PutSandbox(st, n, Written(st.sandboxes[n], P.Adopted(st.sandboxes[n], k, claim.meta.uid), st.rv + 1))
    ensures A.Rest(st, k, P.Pass(claim, P.AtPick(n, 0)), draw) == A.Rest(st2, k, P.Pass(claim, P.AtAnnotate(n, st2.sandboxes[n])), draw)
  {
    A.Looks(st, k, P.Pass(claim, P.AtPick(n, 0)), P.AtSwap(n, st.sandboxes[n], 0), draw);
    A.Swaps(st, k, claim, n, st.sandboxes[n], 0, draw);
  }

  datatype Meddling = Rewritten(status: SandboxStatus) | TakenOver(owner: OwnerRef) | Removed

  /** Some attempt is undisturbed, and before it the sandbox was only written. */
  ghost predicate WinsSwap(meddling: map<nat, Meddling>) {
    exists i: nat :: i < 5 && i !in meddling && forall j: nat :: j < i ==> j in meddling && meddling[j].Rewritten?
  }

  /** Where the pass goes on once it knows about its sandbox. */
  function AfterBinding(r: Result<Binding, string>): P.At {
    if r.Err? then P.AtNotReady(r.error, "Error seen")
    else if r.value.adopted then P.AtAnnotate(r.value.name, r.value.sandbox)
    else P.AtStatus(r.value.name, r.value.sandbox)
  }

  /** What the claim's template builds, where there is one. */
  function BuiltFor(st: P.Store, claim: Claim): Result<SandboxSpec, string> {
    if claim.spec.pool in st.pools && st.pools[claim.spec.pool].spec.template in st.templates
    then Built(st.templates[st.pools[claim.spec.pool].spec.template].spec, claim.spec.env, claim.spec.vcts)
    else Err("ReconcilerError")
  }

  /** pick may be the head of the pool's candidates, if the pool has any. */
  ghost predicate Heads(st: P.Store, pool: Name, pick: Name) {
    P.MayPick(st, pool, pick) || forall n <- st.sandboxes :: !P.Candidate(st, pool, n)
  }

  /** Where there are candidates, one of them may be the head. */
  lemma SomeHead(st: P.Store, pool: Name)
    ensures exists pick :: Heads(st, pool, pick)
  {
    if n :| n in st.sandboxes && P.Candidate(st, pool, n) && IsReady(st.sandboxes[n]) {
      assert Heads(st, pool, n);
    } else if n :| n in st.sandboxes && P.Candidate(st, pool, n) {
      assert Heads(st, pool, n);
    } else {
      assert Heads(st, pool, "");
    }
  }

  ghost predicate WoundDown(w: World, w2: World, ns: Name, k: Name, now: int)
    requires k in w.claims && w.claims[k].spec.lifecycle.Some?
  {
    var claim := w.claims[k];
    var s := claim.status.sandbox;
    if claim.spec.lifecycle.value.policy != Retain then w2 == ClaimDeleted(w, ns, k)
    else
      var rest := if s != "" && s in w.sandboxes && ControllerUid(w.sandboxes[s].meta.owners) == claim.meta.uid
                  then SandboxDeleted(w, ns, s) else w;
      var status := NotReady(claim, "ClaimExpired", "Sandbox cleanup initiated.", now);
      w2 == rest.(claims := w.claims[k := StatusWritten(claim, status, rest.rv + 1)], rv := rest.rv + 1)
  }

  // ---- What a sandbox pass does ----

  /** What the driver does during a pass: which calls fail, and which host ports the runtime answers on. */
  datatype Driver = Driver(
    imageOk: bool, inspectFails: bool, volumeFails: set<string>, createFails: bool, answers: set<int>)

  /** Every port has a host port of its own, from a range not given out before. */
  ghost predicate Published(portMap: map<int, int>, from: int, to: int) {
    && (forall p <- portMap :: from <= portMap[p] < to)
    && forall p, q :: p in portMap && q in portMap && p != q ==> portMap[p] != portMap[q]
  }

  datatype Started = Present | NotMapped | DriverError

  datatype Backing = Backed(ensured: set<string>) | NotFound(claim: Name) | Unbacked

  /** Every claim the pod names exists and has its volume, or it is told which does not, or the driver failed. */
  ghost predicate Backs(pvcs: map<Name, Pvc>, volumes: set<string>, ns: Name, pod: PodSpec, d: Driver, r: Backing) {
    match r
    case Backed(ensured) =>
      && ensured <= volumes
      && forall v :: v in pod.volumes && v.source.PvcVolume? ==> v.source.claim in pvcs && VolumeName(ns, v.source.claim) in ensured
    case Unbacked => exists v :: v in pod.volumes && v.source.PvcVolume? && VolumeName(ns, v.source.claim) in d.volumeFails
    case NotFound(claim) => claim !in pvcs && exists v :: v in pod.volumes && v.source.PvcVolume? && v.source.claim == claim
  }

  predicate PastEnd(sb: Sandbox, now: int) {
    sb.spec.shutdown.Some? && sb.spec.shutdown.value <= now
  }

  /** What a status says besides its conditions comes from: the names, and the container's address. */
  datatype Place = Place(name: Name, node: string, ip: string)

  function IpOf(containers: map<Name, ContainerInfo>, n: Name): string {
    if n in containers then containers[n].ip else ""
  }

  /**
   * What a status says for an outcome: the conditions tell it; addresses and node are shown only while the
   * container runs, the service while the container exists.
   */
  ghost predicate Shows(status: SandboxStatus, was: Sandbox, o: Outcome, now: int, p: Place) {
    && Tells(status.conditions, was.status.conditions, o, was.meta.generation, now)
    && (Unique(was.status.conditions) ==> Sound(status.conditions))
    && (status.podIPs == if o.Serving? && p.ip != "" then [p.ip] else [])
    && (status.node == if o.Serving? then p.node else "")
    && (status.service == if was.spec.service && (o.Serving? || o.Exited? || o.Waiting?) then p.name else "")
  }

  lemma NextShows(was: Sandbox, o: Outcome, now: int)
    ensures Tells(Next(was.status.conditions, o, was.meta.generation, now), was.status.conditions, o, was.meta.generation, now)
    ensures Unique(was.status.conditions) ==> Sound(Next(was.status.conditions, o, was.meta.generation, now))
  {
    NextTells(was.status.conditions, o, was.meta.generation, now);
    if Unique(was.status.conditions) {
      NextIsSound(was.status.conditions, o, was.meta.generation, now);
    }
  }

  /** Identity, owners and spec are as they were. */
  ghost predicate Same(was: Sandbox, sb: Sandbox) {
    && sb.meta.uid == was.meta.uid && sb.meta.owners == was.meta.owners && sb.meta.created == was.meta.created
    && sb.meta.generation == was.meta.generation && sb.spec == was.spec
  }

  /** They are kept, and the status shows the outcome, or is as it was. */
  ghost predicate Reported(was: Sandbox, sb: Sandbox, o: Option<Outcome>, now: int, p: Place) {
    Same(was, sb) && if o.Some? then Shows(sb.status, was, o.value, now, p) else sb.status == was.status
  }

  /** Why a running pass came to its outcome, told from what it left. */
  ghost predicate Explained(w: World, ns: Name, sb: Sandbox, n: Name, defaultPort: int, d: Driver, o: Option<Outcome>) {
    var pod := WithClaims(sb.spec.pod, sb.spec.vcts, n);
    if o.None? then
      || d.inspectFails || d.createFails
      || exists v :: v in pod.volumes && v.source.PvcVolume? && VolumeName(ns, v.source.claim) in d.volumeFails
    else match o.value
      case Failed(_) => pod.containers == [] || !d.imageOk || pod.containers[0].privileged
      case MissingPvc(claim) =>
        claim !in w.pvcs && exists v :: v in pod.volumes && v.source.PvcVolume? && v.source.claim == claim
      case Exited(_) | Serving(_) | Waiting(_) => Observed(w.containers, n, sb, defaultPort, d, o.value)
      case _ => false
  }

  /** What a pass for a sandbox that is no orphan leaves, in each of its three ways. */
  ghost predicate Passed(w: World, w2: World, ns: Name, n: Name, defaultPort: int, d: Driver,
      o: Option<Outcome>, now: int, p: Place)
    requires n in w.sandboxes
  {
    var sb := w.sandboxes[n];
    if PastEnd(sb, now) && sb.spec.deleteOnExpiry then o.None? && w2 == SandboxDeleted(w, ns, n)
    else
      && n in w2.sandboxes && w2.sandboxes == w.sandboxes[n := w2.sandboxes[n]]
      && Reported(sb, w2.sandboxes[n], o, now, p)
      && w2.claims == w.claims && w2.pools == w.pools && w2.templates == w.templates
      && if PastEnd(sb, now) then o == Some(PastShutdown) && Stopped(w, w2, n, d)
         else if sb.spec.mode == Suspended then o == Some(if d.inspectFails then PodStays else PodGone) && Stopped(w, w2, n, d)
         else
           && Explained(w2, ns, sb, n, defaultPort, d, o) && Adds(w, w2, ns, sb, n, now)
           && (n in w2.containers && n !in w.containers ==> BackedAndMapped(w2, ns, sb, n, defaultPort))
  }

  /** A sandbox is found ready only over a container whose runtime answered on the server port. */
  lemma ReadyAnswers(w: World, w2: World, ns: Name, n: Name, defaultPort: int, d: Driver, o: Option<Outcome>, now: int, p: Place)
    requires n in w.sandboxes && Passed(w, w2, ns, n, defaultPort, d, o, now, p)
    ensures o == Some(Serving(true)) ==>
      n in w2.sandboxes && Answers(w2.containers, n, ServerPort(w2.sandboxes[n].spec.pod, defaultPort), d)
  {
  }

  /** Deleting a sandbox whose container is gone already leaves what deleting it leaves. */
  lemma ContainerGoesFirst(w: World, ns: Name, n: Name)
    requires n in w.sandboxes
    ensures SandboxDeleted(w.(containers := w.containers - {n}), ns, n) == SandboxDeleted(w, ns, n)
    ensures n !in w.containers ==> w.containers - {n} == w.containers
  {
    assert w.containers - {n} - {n} == w.containers - {n};
  }

  lemma StopPasses(w: World, w2: World, ns: Name, n: Name, defaultPort: int, d: Driver, o: Option<Outcome>, now: int, p: Place)
    requires n in w.sandboxes && !PastEnd(w.sandboxes[n], now) && w.sandboxes[n].spec.mode == Suspended
    requires n in w2.sandboxes && w2.sandboxes == w.sandboxes[n := w2.sandboxes[n]]
    requires Reported(w.sandboxes[n], w2.sandboxes[n], o, now, p) && Stopped(w, w2, n, d)
    requires w2.claims == w.claims && w2.pools == w.pools && w2.templates == w.templates
    requires o == Some(if d.inspectFails then PodStays else PodGone)
    ensures Passed(w, w2, ns, n, defaultPort, d, o, now, p)
  {
  }

  lemma RunPasses(w: World, w2: World, ns: Name, n: Name, defaultPort: int, d: Driver, o: Option<Outcome>, now: int, p: Place)
    requires n in w.sandboxes && !PastEnd(w.sandboxes[n], now) && w.sandboxes[n].spec.mode != Suspended
    requires n in w2.sandboxes && w2.sandboxes == w.sandboxes[n := w2.sandboxes[n]]
    requires Reported(w.sandboxes[n], w2.sandboxes[n], o, now, p)
    requires w2.claims == w.claims && w2.pools == w.pools && w2.templates == w.templates
    requires Explained(w2, ns, w.sandboxes[n], n, defaultPort, d, o) && Adds(w, w2, ns, w.sandboxes[n], n, now)
    requires n in w2.containers && n !in w.containers ==> BackedAndMapped(w2, ns, w.sandboxes[n], n, defaultPort)
    ensures Passed(w, w2, ns, n, defaultPort, d, o, now, p)
  {
  }

  /** The container is gone if the driver could tell, and nothing else has changed outside the store's sandboxes. */
  ghost predicate Stopped(w: World, w2: World, n: Name, d: Driver) {
    && w2.pvcs == w.pvcs && w2.volumes == w.volumes
    && w2.containers == if d.inspectFails then w.containers else w.containers - {n}
  }

  /** The outcome for the container as it is. */
  predicate Observed(containers: map<Name, ContainerInfo>, n: Name, sb: Sandbox, defaultPort: int, d: Driver, o: Outcome) {
    n in containers &&
    match o
    case Exited(code) => containers[n].state in {"exited", "dead"} && containers[n].exitCode == code
    case Serving(ready) =>
      containers[n].state == "running" && (ready <==> Answers(containers, n, ServerPort(sb.spec.pod, defaultPort), d))
    case Waiting(state) => containers[n].state == state && state !in {"exited", "dead", "running"}
    case _ => false
  }

  /**
   * The claims there were, and besides at most ones for the sandbox's templates: each owned by it, and
   * asking for what the first template of its name asks for.
   */
  ghost predicate ClaimsAdded(pvcs: map<Name, Pvc>, pvcs2: map<Name, Pvc>, sb: Sandbox, n: Name, now: int) {
    && (forall p <- pvcs :: p in pvcs2 && pvcs2[p] == pvcs[p])
    && (forall p <- pvcs2 :: p !in pvcs ==>
          && pvcs2[p].meta.owners == [OwnerRef("Sandbox", n, sb.meta.uid, true)]
          && pvcs2[p].meta.created == now
          && AsksFirst(sb.spec.vcts, n, p, pvcs2[p].spec))
  }

  ghost predicate AllThere(vcts: seq<Vct>, n: Name, names: set<Name>) {
    forall v <- vcts :: PvcName(v, n) in names
  }

  /** A template whose claim is not there yet is the first of its name, if those before it have theirs. */
  lemma FirstOfName(vcts: seq<Vct>, i: nat, n: Name, names: set<Name>)
    requires i < |vcts| && AllThere(vcts[..i], n, names)
    ensures PvcName(vcts[i], n) !in names ==> forall j :: 0 <= j < i ==> vcts[j].name != vcts[i].name
  {
    forall j | 0 <= j < i ensures PvcName(vcts[j], n) in names {
      assert vcts[j] in vcts[..i];
    }
  }

  ghost predicate AsksFirst(vcts: seq<Vct>, n: Name, p: Name, request: string) {
    exists i :: 0 <= i < |vcts| && p == vcts[i].name + "-" + n && request == vcts[i].request
      && forall j :: 0 <= j < i ==> vcts[j].name != vcts[i].name
  }

  /** The volumes there were, and besides at most ones of claims the pod names. */
  ghost predicate VolumesAdded(volumes: set<string>, volumes2: set<string>, ns: Name, pod: PodSpec) {
    && volumes <= volumes2
    && forall x <- volumes2 :: x in volumes || BacksSome(ns, pod, x)
  }

  ghost predicate BacksSome(ns: Name, pod: PodSpec, x: string) {
    exists v :: v in pod.volumes && v.source.PvcVolume? && x == "las-" + ns + "-" + v.source.claim
  }

  lemma OneMoreAdded(volumes: set<string>, volumes2: set<string>, ns: Name, pod: PodSpec, v: Volume)
    requires VolumesAdded(volumes, volumes2, ns, pod) && v in pod.volumes && v.source.PvcVolume?
    ensures VolumesAdded(volumes, volumes2 + {VolumeName(ns, v.source.claim)}, ns, pod)
  {
    assert BacksSome(ns, pod, VolumeName(ns, v.source.claim));
  }

  /** At most the sandbox's container is new. */
  ghost predicate AddsContainer(containers: map<Name, ContainerInfo>, containers2: map<Name, ContainerInfo>, n: Name) {
    containers2 == containers
    || (n !in containers && n in containers2 && containers2 == containers[n := containers2[n]])
  }

  /** Of driver and volume claims a running pass leaves what is there, and adds its own at most. */
  ghost predicate Adds(w: World, w2: World, ns: Name, sb: Sandbox, n: Name, now: int) {
    && ClaimsAdded(w.pvcs, w2.pvcs, sb, n, now)
    && VolumesAdded(w.volumes, w2.volumes, ns, WithClaims(sb.spec.pod, sb.spec.vcts, n))
    && AddsContainer(w.containers, w2.containers, n)
  }

  /** The pod with its templates' claims injected. */
  function WithClaims(pod: PodSpec, vcts: seq<Vct>, n: Name): PodSpec {
    if vcts == [] then pod
    else
      var v := vcts[|vcts| - 1];
      var before := WithClaims(pod, vcts[..|vcts| - 1], n);
      before.(volumes := Injected(before.volumes, v.name, PvcName(v, n)))
  }

  /** The container runs, has an address, and the runtime answers on the host port of the server port. */
  predicate Answers(containers: map<Name, ContainerInfo>, n: Name, port: int, d: Driver) {
    && n in containers && containers[n].state == "running" && containers[n].ip != ""
    && port in containers[n].portMap && containers[n].portMap[port] != 0 && containers[n].portMap[port] in d.answers
  }

  /**
   * What holds of a container that was created: every claim the pod names exists and has its volume,
   * every named volume mounted is one of these, and the ports are the declared ones with the server port.
   */
  ghost predicate BackedAndMapped(w: World, ns: Name, sb: Sandbox, n: Name, defaultPort: int) {
    var pod := WithClaims(sb.spec.pod, sb.spec.vcts, n);
    && n in w.containers && pod.containers != []
    && var spec := w.containers[n].spec;
    && (forall v :: v in pod.volumes && v.source.PvcVolume? ==> v.source.claim in w.pvcs && VolumeName(ns, v.source.claim) in w.volumes)
    && spec.image == pod.containers[0].image
    && spec.mounts == Mounts(ns, ByName(pod.volumes), pod.containers[0].mounts)
    && MountsOf(spec.mounts, w.volumes)
    && StrictlySorted(spec.ports)
    && spec.serverPort == ServerPort(sb.spec.pod, defaultPort) && spec.serverPort in spec.ports
    && (forall p :: p in spec.ports <==> p == spec.serverPort || (p > 0 && p in pod.containers[0].ports))
  }

  /** Every named volume mounted is one of these. */
  ghost predicate MountsOf(mounts: seq<Mount>, volumes: set<string>) {
    forall m :: m in mounts && m.NamedMount? ==> m.volume in volumes
  }

  /** Injection leaves the containers alone. */
  lemma {:induction false} SameContainers(pod: PodSpec, vcts: seq<Vct>, n: Name)
    ensures WithClaims(pod, vcts, n).containers == pod.containers
  {
    if vcts != [] {
      SameContainers(pod, vcts[..|vcts| - 1], n);
    }
  }

  /** The spec that mapping gives a pod whose server port is the one readiness asks. */
  ghost predicate MappedFrom(ns: Name, pod: PodSpec, defaultPort: int, spec: ContainerSpec) {
    && pod.containers != [] && spec.image == pod.containers[0].image
    && spec.mounts == Mounts(ns, ByName(pod.volumes), pod.containers[0].mounts)
    && StrictlySorted(spec.ports)
    && spec.serverPort == ServerPort(pod, defaultPort)
    && (forall p :: p in spec.ports <==> p == spec.serverPort || (p > 0 && p in pod.containers[0].ports))
  }

  lemma {:induction false} FirstPositiveIsDeclared(ports: seq<int>, default: int)
    ensures FirstPositive(ports, default) == default || (FirstPositive(ports, default) > 0 && FirstPositive(ports, default) in ports)
  {
    if ports != [] {
      FirstPositiveIsDeclared(ports[1..], default);
    }
  }

  lemma CreatedIsBacked(w: World, ns: Name, sb: Sandbox, n: Name, defaultPort: int, ensured: set<string>)
    requires var pod := WithClaims(sb.spec.pod, sb.spec.vcts, n);
      && n in w.containers && MappedFrom(ns, pod, defaultPort, w.containers[n].spec) && ensured <= w.volumes
      && forall v :: v in pod.volumes && v.source.PvcVolume? ==> v.source.claim in w.pvcs && VolumeName(ns, v.source.claim) in ensured
    ensures BackedAndMapped(w, ns, sb, n, defaultPort)
  {
    SameContainers(sb.spec.pod, sb.spec.vcts, n);
    MountsAreBacked(ns, WithClaims(sb.spec.pod, sb.spec.vcts, n), ensured, w.volumes);
  }

  lemma MountsAreBacked(ns: Name, pod: PodSpec, ensured: set<string>, volumes: set<string>)
    requires pod.containers != [] && ensured <= volumes
    requires forall v :: v in pod.volumes && v.source.PvcVolume? ==> VolumeName(ns, v.source.claim) in ensured
    ensures MountsOf(Mounts(ns, ByName(pod.volumes), pod.containers[0].mounts), volumes)
  {
    forall m | m in Mounts(ns, ByName(pod.volumes), pod.containers[0].mounts) && m.NamedMount? ensures m.volume in volumes {
      MountsAreClaims(ns, pod.volumes, pod.containers[0].mounts, m);
    }
  }

  // ---- What a pool pass does ----

  /** What a pool pass aims at; a pool that says nothing wants one. */
  function Desired(pool: Pool): int {
    if pool.spec.replicas.Some? then pool.spec.replicas.value else 1
  }

  /**
   * The pool has the wanted number of members, or fewer for want of a template. Missing ones were
   * created and nothing else touched; too many were trimmed in trimming order, each with its resources;
   * if neither was called for nothing changed.
   */
  ghost predicate Resized(w: World, w2: World, ns: Name, k: Name, now: int, from: Uid, to: Uid)
    requires k in w.pools
  {
    var members, pool, desired := Members(w.sandboxes, k), w.pools[k], Desired(w.pools[k]);
    if |members| > desired then
      exists gone :: gone <= members && |members - gone| == desired && TrimmedFirst(w.sandboxes, members, gone)
        && Members(w2.sandboxes, k) == members - gone && w2 == SandboxesDeleted(w, ns, gone)
    else if |members| < desired && pool.spec.template in w.templates then
      && |Members(w2.sandboxes, k)| == desired
      && Grown(w.sandboxes, w2.sandboxes, ControllerRef(POOL, k, pool.meta.uid),
               Plain(w.templates[pool.spec.template].spec), now, from, to)
      && w2 == w.(sandboxes := w2.sandboxes, rv := w2.rv)
    else w2 == w
  }

  /** Names that the store could draw: none is in use, and none is drawn twice. */
  ghost predicate Drawn(sbs: map<Name, Sandbox>, names: seq<Name>) {
    && (forall n <- names :: n !in sbs)
    && forall i, j :: 0 <= i < j < |names| ==> names[i] != names[j]
  }

  /** What a template builds for a pool. */
  function Plain(t: TemplateSpec): SandboxSpec {
    SandboxSpec(t.pod, t.vcts, t.service, Running, None, false)
  }

  /** sbs2 has new sandboxes besides: as the template builds them, owned by owner alone, and without a status. */
  ghost predicate Grown(sbs: map<Name, Sandbox>, sbs2: map<Name, Sandbox>, owner: OwnerRef, spec: SandboxSpec,
      now: int, from: Uid, to: Uid)
  {
    && from <= to
    && (forall n <- sbs :: n in sbs2 && sbs2[n] == sbs[n])
    && (forall n <- sbs2 :: n !in sbs ==>
          && from <= sbs2[n].meta.uid < to && sbs2[n].meta.owners == [owner] && sbs2[n].meta.created == now
          && sbs2[n].meta.generation == 1 && !sbs2[n].meta.deleting
          && sbs2[n].spec == spec && sbs2[n].status == NO_STATUS)
    && (forall a, b :: a in sbs2 && b in sbs2 && a !in sbs && b !in sbs && a != b ==> sbs2[a].meta.uid != sbs2[b].meta.uid)
  }

  lemma GrownMore(sbs: map<Name, Sandbox>, sbs2: map<Name, Sandbox>, n: Name, uid: Uid, k: Name, spec: SandboxSpec,
      now: int, from: Uid, to: Uid, rv: nat)
    requires Grown(sbs, sbs2, ControllerRef(POOL, k, uid), spec, now, from, to) && n !in sbs2
    ensures var owner := ControllerRef(POOL, k, uid);
      Grown(sbs, sbs2[n := Created(to, rv, now, [owner], spec, NO_STATUS)], owner, spec, now, from, to + 1)
  {
  }

  lemma GrownMembers(sbs: map<Name, Sandbox>, sbs2: map<Name, Sandbox>, k: Name, uid: Uid, names: seq<Name>)
    requires Drawn(sbs, names) && sbs2.Keys == sbs.Keys + Elements(names)
    requires forall n <- sbs :: n in sbs2 && sbs2[n] == sbs[n]
    requires forall n <- sbs2 :: n !in sbs ==> sbs2[n].meta.owners == [ControllerRef(POOL, k, uid)]
    ensures |Members(sbs2, k)| == |Members(sbs, k)| + |names|
  {
    var drawn := set n | n in names;
    LengthIsSize(names);
    forall n | n in drawn ensures OwnedBy(sbs2[n].meta.owners, POOL, k) {
      assert sbs2[n].meta.owners[0].kind == POOL;
    }
    forall n ensures n in Members(sbs2, k) <==> n in Members(sbs, k) || n in drawn {
      assert n in sbs ==> sbs2[n] == sbs[n];
    }
    Disjoint(Members(sbs2, k), Members(sbs, k), drawn);
  }

  lemma Disjoint(whole: set<Name>, a: set<Name>, b: set<Name>)
    requires (forall n :: n in whole <==> n in a || n in b) && (forall n :: n in a ==> n !in b)
    ensures |whole| == |a| + |b|
  {
    assert whole == a + b;
  }

  lemma TrimmedMembers(w: World, ns: Name, k: Name, gone: set<Name>)
    requires gone <= Members(w.sandboxes, k)
    ensures Members(SandboxesDeleted(w, ns, gone).sandboxes, k) == Members(w.sandboxes, k) - gone
  {
  }

  lemma TrimmedIsResized(w: World, ns: Name, k: Name, gone: set<Name>, now: int, uid: Uid)
    requires k in w.pools && 0 <= Desired(w.pools[k]) < |Members(w.sandboxes, k)|
    requires gone <= Members(w.sandboxes, k) && |gone| == |Members(w.sandboxes, k)| - Desired(w.pools[k])
    requires TrimmedFirst(w.sandboxes, Members(w.sandboxes, k), gone)
    ensures Resized(w, SandboxesDeleted(w, ns, gone), ns, k, now, uid, uid)
  {
    TrimmedMembers(w, ns, k, gone);
    assert |Members(w.sandboxes, k) - gone| == Desired(w.pools[k]);
  }

  function Elements(s: seq<Name>): set<Name> {
    set n | n in s
  }

  lemma NextOfHead(s: seq<Name>, i: nat)
    requires i < |s| && forall i, j :: 0 <= i < j < |s| ==> s[i] != s[j]
    ensures s[i] in s && s[i] !in s[..i]
    ensures Elements(s[..i + 1]) == Elements(s[..i]) + {s[i]}
  {
    assert s[..i + 1] == s[..i] + [s[i]];
  }

  lemma HeadIsTrimmed(sbs: map<Name, Sandbox>, sorted: seq<Name>, excess: nat)
    requires TrimOrder(sbs, sorted) && excess <= |sorted|
    ensures var members, gone := Elements(sorted), Elements(sorted[..excess]);
      members <= sbs.Keys && gone <= members && TrimmedFirst(sbs, members, gone)
  {
    forall d, x | d in sorted[..excess] && x in sorted && x !in sorted[..excess] ensures NotAfter(sbs, d, x) {
      var i :| 0 <= i < excess && sorted[i] == d;
      assert sorted == sorted[..excess] + sorted[excess..];
      var j :| 0 <= j < |sorted[excess..]| && sorted[excess..][j] == x;
      assert sorted[excess + j] == x;
      assert Trimming(sbs)(sorted[i], sorted[excess + j]);
    }
  }

  // ---- Going through a list ----

  function Among(list: seq<Name>, members: set<Name>): set<Name> {
    set n | n in members && n in list
  }

  lemma AmongNext(list: seq<Name>, i: nat, members: set<Name>)
    requires i < |list| && forall i, j :: 0 <= i < j < |list| ==> list[i] != list[j]
    ensures list[i] in list && list[i] !in Among(list[..i], members)
    ensures Among(list[..i + 1], members) == Among(list[..i], members) + if list[i] in members then {list[i]} else {}
  {
    assert list[..i + 1] == list[..i] + [list[i]];
  }

  /** The next of the list deleted if it is a member. */
  lemma AmongDeleted(w: World, ns: Name, list: seq<Name>, i: nat, members: set<Name>)
    requires i < |list| && (forall i, j :: 0 <= i < j < |list| ==> list[i] != list[j])
    requires members <= w.sandboxes.Keys && list[i] in w.sandboxes
    ensures list[i] in SandboxesDeleted(w, ns, Among(list[..i], members)).sandboxes
    ensures SandboxesDeleted(w, ns, Among(list[..i + 1], members)) ==
      var before := SandboxesDeleted(w, ns, Among(list[..i], members));
      if list[i] in members then SandboxDeleted(before, ns, list[i]) else before
  {
    AmongNext(list, i, members);
    if list[i] in members {
      OneMoreDeleted(w, ns, Among(list[..i], members), list[i]);
    }
  }

  // ---- What the hook does ----

  /** A sandbox's resources gone, the sandbox itself having gone before. */
  function Cleaned(w: World, ns: Name, sb: Sandbox, n: Name): World {
    w.(containers := w.containers - {n},
       pvcs := w.pvcs - OwnedPvcs(w.pvcs, sb, n),
       volumes := w.volumes - DroppedVolumes(w.pvcs, ns, sb, n),
       rv := w.rv + |OwnedPvcs(w.pvcs, sb, n)|)
  }

  /** As Cleaned, for some of the templates, the container being gone. */
  function CleanedFor(w: World, ns: Name, sb: Sandbox, n: Name, vcts: seq<Vct>): World {
    var part := sb.(spec := sb.spec.(vcts := vcts));
    Less(w, OwnedPvcs(w.pvcs, part, n), DroppedVolumes(w.pvcs, ns, part, n))
  }

  function Less(w: World, owned: set<Name>, dropped: set<string>): World {
    w.(pvcs := w.pvcs - owned, volumes := w.volumes - dropped, rv := w.rv + |owned|)
  }

  lemma LessOwned(w: World, ns: Name, owned: set<Name>, dropped: set<string>, p: Name)
    requires p in w.pvcs && p !in owned
    ensures Less(w, owned + {p}, dropped + {VolumeName(ns, p)}) == PvcDeleted(Less(w, owned, dropped), ns, p)
  {
    Minus(w.pvcs, owned, {p});
    assert |owned + {p}| == |owned| + 1;
    assert w.volumes - (dropped + {VolumeName(ns, p)}) == (w.volumes - dropped) - {VolumeName(ns, p)};
  }

  lemma LessVolume(w: World, owned: set<Name>, dropped: set<string>, v: string)
    ensures Less(w, owned, dropped + {v}) == Less(w, owned, dropped).(volumes := w.volumes - dropped - {v})
  {
    assert w.volumes - (dropped + {v}) == (w.volumes - dropped) - {v};
  }

  function HookDone(w: World, ns: Name, gone: Gone, n: Name): World {
    match gone
    case GoneSandbox(sb) => Cleaned(w, ns, sb, n)
    case GoneClaim(claim) =>
      var s := SandboxNameOf(claim, n);
      if s in w.sandboxes && ControllerUid(w.sandboxes[s].meta.owners) == claim.meta.uid then SandboxDeleted(w, ns, s) else w
    case GonePool => SandboxesDeleted(w, ns, Members(w.sandboxes, n))
    case GoneTemplate => w
    case GonePvc => w.(volumes := w.volumes - {VolumeName(ns, n)})
  }

  lemma NothingCleaned(w: World, ns: Name, sb: Sandbox, n: Name)
    ensures CleanedFor(w, ns, sb, n, []) == w
  {
    var part := sb.(spec := sb.spec.(vcts := []));
    assert OwnedPvcs(w.pvcs, part, n) == {} && DroppedVolumes(w.pvcs, ns, part, n) == {};
    assert w.pvcs - {} == w.pvcs;
  }

  /** One more template adds its claim's name. */
  lemma OneMoreName(w: World, ns: Name, sb: Sandbox, n: Name, vcts: seq<Vct>, v: Vct)
    ensures var p := PvcName(v, n); var part, more := sb.(spec := sb.spec.(vcts := vcts)), sb.(spec := sb.spec.(vcts := vcts + [v]));
      var owns := p in w.pvcs && ControllerUid(w.pvcs[p].meta.owners) == sb.meta.uid;
      && OwnedPvcs(w.pvcs, more, n) == OwnedPvcs(w.pvcs, part, n) + (if owns then {p} else {})
      && DroppedVolumes(w.pvcs, ns, more, n)
           == DroppedVolumes(w.pvcs, ns, part, n) + (if owns || p !in w.pvcs then {VolumeName(ns, p)} else {})
  {
    var p := PvcName(v, n);
    var part, more := sb.(spec := sb.spec.(vcts := vcts)), sb.(spec := sb.spec.(vcts := vcts + [v]));
    assert v in vcts + [v];
    assert PvcNames(more, n) == PvcNames(part, n) + {p};
  }

  lemma LessStep(w: World, ns: Name, owned: set<Name>, dropped: set<string>, p: Name, owns: bool)
    requires p in owned ==> owns
    requires owns ==> p in w.pvcs
    ensures var c := Less(w, owned, dropped);
      var out := Less(w, owned + (if owns then {p} else {}), dropped + (if owns || p !in w.pvcs then {VolumeName(ns, p)} else {}));
      if p !in c.pvcs then out == c.(volumes := c.volumes - {VolumeName(ns, p)})
      else if owns then out == PvcDeleted(c, ns, p)
      else out == c
  {
    if owns && p !in owned {
      LessOwned(w, ns, owned, dropped, p);
    } else if p in owned {
      assert owned + {p} == owned;
      LessVolume(w, owned, dropped, VolumeName(ns, p));
    } else {
      assert owned + {} == owned && dropped + {} == dropped;
      LessVolume(w, owned, dropped, VolumeName(ns, p));
    }
  }

  lemma OneMoreCleaned(w: World, ns: Name, sb: Sandbox, n: Name, vcts: seq<Vct>, v: Vct)
    ensures var p, c, out := PvcName(v, n), CleanedFor(w, ns, sb, n, vcts), CleanedFor(w, ns, sb, n, vcts + [v]);
      if p !in c.pvcs then out == c.(volumes := c.volumes - {VolumeName(ns, p)})
      else if ControllerUid(w.pvcs[p].meta.owners) == sb.meta.uid then out == PvcDeleted(c, ns, p)
      else out == c
  {
    OneMoreName(w, ns, sb, n, vcts, v);
    var p, part := PvcName(v, n), sb.(spec := sb.spec.(vcts := vcts));
    var owns := p in w.pvcs && ControllerUid(w.pvcs[p].meta.owners) == sb.meta.uid;
    LessStep(w, ns, OwnedPvcs(w.pvcs, part, n), DroppedVolumes(w.pvcs, ns, part, n), p, owns);
  }
}
