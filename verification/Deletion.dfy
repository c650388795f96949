/** What goes with a deleted object and what stays, told by names and owners; and that nothing of a claim is left. */
module Deletion {
  import opened Prelude
  import opened Conditions
  import opened Cluster
  import opened PodMapping
  import opened Cascade
  import P = Protocol
  import B = Binding

  /** p is the name of the volume claim that one of the sandbox's templates stands for. */
  ghost predicate TemplateClaim(sb: Sandbox, n: Name, p: Name) {
    exists v :: v in sb.spec.vcts && p == v.name + "-" + n
  }

  /** A template's claim goes if the sandbox controls it. */
  ghost predicate GoesWith(pvcs: map<Name, Pvc>, sb: Sandbox, n: Name, p: Name) {
    TemplateClaim(sb, n, p) && p in pvcs && ControllerUid(pvcs[p].meta.owners) == sb.meta.uid
  }

  /** So does the volume of a claim that goes, and of a template whose claim is missing. */
  ghost predicate VolumeGoesWith(pvcs: map<Name, Pvc>, ns: Name, sb: Sandbox, n: Name, vol: string) {
    exists p :: TemplateClaim(sb, n, p) && (p !in pvcs || GoesWith(pvcs, sb, n, p)) && vol == "las-" + ns + "-" + p
  }

  /**
   * Deleting a sandbox takes it and its container, the claims its templates stand for where it controls
   * them, and the volumes of these and of templates whose claim is missing; nothing else.
   */
  lemma SandboxTakes(w: World, ns: Name, s: Name, n: Name, p: Name, vol: string)
    requires s in w.sandboxes
    ensures var out, sb := Deleted(w, ns, ASandbox, s), w.sandboxes[s];
      && out.claims == w.claims && out.pools == w.pools && out.templates == w.templates
      && (n in out.sandboxes <==> n in w.sandboxes && n != s) && (n in out.sandboxes ==> out.sandboxes[n] == w.sandboxes[n])
      && (n in out.containers <==> n in w.containers && n != s) && (n in out.containers ==> out.containers[n] == w.containers[n])
      && (p in out.pvcs <==> p in w.pvcs && !GoesWith(w.pvcs, sb, s, p)) && (p in out.pvcs ==> out.pvcs[p] == w.pvcs[p])
      && (vol in out.volumes <==> vol in w.volumes && !VolumeGoesWith(w.pvcs, ns, sb, s, vol))
  {
    var sb := w.sandboxes[s];
    forall q ensures q in PvcNames(sb, s) <==> TemplateClaim(sb, s, q) {
    }
    forall q ensures VolumeName(ns, q) == "las-" + ns + "-" + q {
    }
  }

  // ---- Claims ----

  /** The sandbox that the claim has as its own: the one its status names, or else its namesake, if it controls it. */
  ghost predicate HasSandbox(w: World, k: Name, s: Name)
    requires k in w.claims
  {
    && ((w.claims[k].status.sandbox != "" && s == w.claims[k].status.sandbox) || (w.claims[k].status.sandbox == "" && s == k))
    && s in w.sandboxes && ControllerUid(w.sandboxes[s].meta.owners) == w.claims[k].meta.uid
  }

  /** There is one name to look under. */
  lemma OwnSandbox(w: World, k: Name, own: Name)
    requires k in w.claims && own == if w.claims[k].status.sandbox == "" then k else w.claims[k].status.sandbox
    ensures forall s :: HasSandbox(w, k, s) <==>
      s == own && own in w.sandboxes && ControllerUid(w.sandboxes[own].meta.owners) == w.claims[k].meta.uid
  {
  }

  lemma ClaimAndSandbox(w: World, ns: Name, k: Name, own: Name)
    requires k in w.claims && own == if w.claims[k].status.sandbox == "" then k else w.claims[k].status.sandbox
    ensures var alone := w.(claims := w.claims - {k}, rv := w.rv + 1);
      Deleted(w, ns, AClaim, k) ==
        if own in w.sandboxes && ControllerUid(w.sandboxes[own].meta.owners) == w.claims[k].meta.uid
        then Deleted(alone, ns, ASandbox, own) else alone
  {
  }

  /**
   * Deleting a claim that has a sandbox is deleting that as well, with its container, its templates'
   * claims and their volumes; without one nothing but the claim goes.
   */
  lemma ClaimTakes(w: World, ns: Name, k: Name, s: Name)
    requires k in w.claims
    ensures var out, alone := Deleted(w, ns, AClaim, k), w.(claims := w.claims - {k}, rv := w.rv + 1);
      && (HasSandbox(w, k, s) ==> out == Deleted(alone, ns, ASandbox, s))
      && ((forall x :: !HasSandbox(w, k, x)) ==> out == alone)
  {
    var own := if w.claims[k].status.sandbox == "" then k else w.claims[k].status.sandbox;
    ClaimAndSandbox(w, ns, k, own);
    OwnSandbox(w, k, own);
    if !HasSandbox(w, k, own) {
      assert forall x :: !HasSandbox(w, k, x);
    }
  }

  /**
   * So of sandboxes, containers and volume claims there stays, with its volume, all that is not the
   * claim's: told for sandbox s and volume claim p.
   */
  lemma ClaimDeletionSpares(w: World, ns: Name, k: Name, s: Name, p: Name)
    requires k in w.claims
    ensures var out := Deleted(w, ns, AClaim, k);
      && out.claims == w.claims - {k} && out.pools == w.pools && out.templates == w.templates
      && (s in out.sandboxes <==> s in w.sandboxes && !HasSandbox(w, k, s))
      && (s in out.containers <==> s in w.containers && !HasSandbox(w, k, s))
      && (p in out.pvcs <==> p in w.pvcs && forall x :: HasSandbox(w, k, x) ==> !GoesWith(w.pvcs, w.sandboxes[x], x, p))
      && (p in out.pvcs && "las-" + ns + "-" + p in w.volumes ==> "las-" + ns + "-" + p in out.volumes)
      && (p in w.pvcs && p !in out.pvcs ==> "las-" + ns + "-" + p !in out.volumes)
  {
    var own := if w.claims[k].status.sandbox == "" then k else w.claims[k].status.sandbox;
    var alone := w.(claims := w.claims - {k}, rv := w.rv + 1);
    ClaimTakes(w, ns, k, own);
    var vol := "las-" + ns + "-" + p;
    assert forall x :: HasSandbox(w, k, x) ==> x == own;
    if HasSandbox(w, k, own) {
      SandboxTakes(alone, ns, own, s, p, vol);
      VolumeIsItsClaims(w.pvcs, ns, w.sandboxes[own], own, p);
    } else {
      assert forall x :: !HasSandbox(w, k, x);
    }
  }

  /** A claim's volume goes if the claim goes, or if it was missing. */
  lemma VolumeIsItsClaims(pvcs: map<Name, Pvc>, ns: Name, sb: Sandbox, n: Name, p: Name)
    ensures VolumeGoesWith(pvcs, ns, sb, n, "las-" + ns + "-" + p) <==> TemplateClaim(sb, n, p) && (p !in pvcs || GoesWith(pvcs, sb, n, p))
  {
    if VolumeGoesWith(pvcs, ns, sb, n, "las-" + ns + "-" + p) {
      var q :| TemplateClaim(sb, n, q) && (q !in pvcs || GoesWith(pvcs, sb, n, q)) && "las-" + ns + "-" + p == "las-" + ns + "-" + q;
      assert VolumeName(ns, p) == VolumeName(ns, q);
      VolumeNameInjective(ns, p, q);
    }
  }

  /**
   * In every reachable state: deleting a claim whose pass is not under way leaves no sandbox and no
   * container of a sandbox under its UID.
   */
  lemma NothingIsLeft(now: int, steps: seq<P.Step>, w: World, ns: Name, k: Name, n: Name)
    requires P.CanRun(P.Empty(now), steps)
    requires var m := P.After(P.Empty(now), steps); w.claims == m.st.claims && w.sandboxes == m.st.sandboxes && k in m.st.claims && k !in m.passes
    requires n in w.sandboxes && ControllerUid(w.sandboxes[n].meta.owners) == w.claims[k].meta.uid
    ensures var out := Deleted(w, ns, AClaim, k); n !in out.sandboxes && n !in out.containers
  {
    var m := P.After(P.Empty(now), steps);
    assert P.Controls(m.st, n, m.st.claims[k].meta.uid);
    B.ReachableInv(now, steps);
    assert P.ClaimsHold(m);
    assert HasSandbox(w, k, n);
    ClaimDeletionSpares(w, ns, k, n, "");
  }

  // ---- Pools and the rest ----

  /** Deleting a pool takes the sandboxes that name it as an owner, by kind and name, each with its own. */
  lemma PoolTakes(w: World, ns: Name, k: Name, s: Name, p: Name)
    requires k in w.pools
    ensures var out := Deleted(w, ns, APool, k);
      && out.pools == w.pools - {k} && out.claims == w.claims && out.templates == w.templates
      && (s in out.sandboxes <==> s in w.sandboxes && !OfPool(w, k, s))
      && (s in out.containers <==> s in w.containers && !OfPool(w, k, s))
      && (p in out.pvcs <==> p in w.pvcs && forall x :: OfPool(w, k, x) ==> !GoesWith(w.pvcs, w.sandboxes[x], x, p))
  {
    var gone := Members(w.sandboxes, k);
    forall x ensures x in gone <==> OfPool(w, k, x) {
    }
    forall x | x in gone ensures p in OwnedPvcs(w.pvcs, w.sandboxes[x], x) <==> GoesWith(w.pvcs, w.sandboxes[x], x, p) {
    }
  }

  ghost predicate OfPool(w: World, k: Name, s: Name) {
    s in w.sandboxes && exists ref :: ref in w.sandboxes[s].meta.owners && ref.kind == "SandboxWarmPool" && ref.name == k
  }

  /** Deleting a volume claim takes its volume, and deleting a template nothing else. */
  lemma OthersTake(w: World, ns: Name, n: Name)
    ensures n in w.pvcs ==>
      Deleted(w, ns, APvc, n) == w.(pvcs := w.pvcs - {n}, volumes := w.volumes - {"las-" + ns + "-" + n}, rv := w.rv + 1)
    ensures n in w.templates ==> Deleted(w, ns, ATemplate, n) == w.(templates := w.templates - {n}, rv := w.rv + 1)
    ensures n !in w.sandboxes ==> Deleted(w, ns, ASandbox, n) == w
    ensures n !in w.claims ==> Deleted(w, ns, AClaim, n) == w
    ensures n !in w.pools ==> Deleted(w, ns, APool, n) == w
    ensures n !in w.pvcs ==> Deleted(w, ns, APvc, n) == w
    ensures n !in w.templates ==> Deleted(w, ns, ATemplate, n) == w
  {
  }
}
