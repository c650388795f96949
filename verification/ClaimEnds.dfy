/** A claim pass before and after the claim's deadline: what it must not take, and what it takes. */
module ClaimEnds {
  import opened Prelude
  import opened Conditions
  import opened Cluster
  import opened Protocol
  import opened ProtocolInv
  import opened ClaimAlone
  import opened Deadlines
  import E = Expiry
  import C = Cascade
  import R = Reconcilers

  /** The claim under k is the one with this UID and spec, and the sandbox n is under it. */
  predicate Stands(st: Store, k: Name, uid: Uid, spec: ClaimSpec, n: Name) {
    && k in st.claims && st.claims[k].meta.uid == uid && st.claims[k].spec == spec
    && n in st.sandboxes && ControllerUid(st.sandboxes[n].meta.owners) == uid
  }

  lemma ClaimsStay(st: Store, k: Name, p: Pass, draw: Draw, uid: Uid, spec: ClaimSpec)
    requires !E.Ending(p.at) && k in st.claims && st.claims[k].meta.uid == uid && st.claims[k].spec == spec
    ensures var st2 := Advance(st, k, p, draw).store; k in st2.claims && st2.claims[k].meta.uid == uid && st2.claims[k].spec == spec
  {
    match p.at
    case AtSwap(_, _, _) => assert Swap(st, k, p).store.claims == st.claims;
    case AtCreate => assert ColdCreate(st, k, p, draw.built).store.claims == st.claims;
    case _ =>
  }

  lemma SandboxStays(st: Store, k: Name, p: Pass, draw: Draw, n: Name)
    requires !E.Ending(p.at) && n in st.sandboxes && ControllerUid(st.sandboxes[n].meta.owners) == p.claim.meta.uid
    ensures var st2 := Advance(st, k, p, draw).store; n in st2.sandboxes && ControllerUid(st2.sandboxes[n].meta.owners) == p.claim.meta.uid
  {
    AdvanceSandboxes(st, k, p, draw);
    assert ControllerUid([ControllerRef(CLAIM, k, p.claim.meta.uid)]) == p.claim.meta.uid;
  }

  lemma PassGoesOn(st: Store, k: Name, p: Pass, draw: Draw)
    requires !E.Ending(p.at) && !Expired(p.claim, st.now)
    ensures var moved := Advance(st, k, p, draw);
      moved.store.now == st.now && (moved.pass.Some? ==> !E.Ending(moved.pass.value.at) && moved.pass.value.claim == p.claim)
  {
    match p.at
    case AtSwap(_, _, _) =>
    case AtCreate =>
    case _ =>
  }

  lemma {:induction false} RestKeeps(st: Store, k: Name, p: Pass, draw: Draw, spec: ClaimSpec, n: Name)
    requires !E.Ending(p.at) && !Expired(p.claim, st.now) && Stands(st, k, p.claim.meta.uid, spec, n)
    ensures Stands(Rest(st, k, p, draw), k, p.claim.meta.uid, spec, n)
    decreases Left(p.at)
  {
    var moved := Advance(st, k, p, draw);
    ClaimsStay(st, k, p, draw, p.claim.meta.uid, spec);
    SandboxStays(st, k, p, draw, n);
    PassGoesOn(st, k, p, draw);
    if moved.pass.Some? {
      RestKeeps(moved.store, k, moved.pass.value, draw, spec, n);
    }
  }

  /** Before its deadline a claim keeps itself and its sandbox through every pass, whatever the pass finds. */
  lemma KeptUntilDeadline(st: Store, k: Name, draw: Draw, n: Name)
    requires k in st.claims && forall d :: Deadline(st.claims[k], d) ==> st.now < d
    requires n in st.sandboxes && ControllerUid(st.sandboxes[n].meta.owners) == st.claims[k].meta.uid
    ensures var claim := st.claims[k]; var st2 := Rest(st, k, Pass(claim, AtExpiry), draw);
      && k in st2.claims && st2.claims[k].meta.uid == claim.meta.uid && st2.claims[k].spec == claim.spec
      && n in st2.sandboxes && ControllerUid(st2.sandboxes[n].meta.owners) == claim.meta.uid
  {
    var claim := st.claims[k];
    ExpiredExactly(claim, st.now);
    RestKeeps(st, k, Pass(claim, AtExpiry), draw, claim.spec, n);
  }

  /** The sandbox the claim's status names is its own. */
  ghost predicate NamesOwn(sandboxes: map<Name, Sandbox>, claim: Claim, n: Name) {
    n == claim.status.sandbox != "" && n in sandboxes && ControllerUid(sandboxes[n].meta.owners) == claim.meta.uid
  }

  /** From its deadline on a claim's pass, in the store's terms, deletes it or marks it and drops its sandbox. */
  lemma EndsAtDeadline(st: Store, k: Name, draw: Draw, d: int, n: Name)
    requires k in st.claims && Deadline(st.claims[k], d) && st.now >= d
    ensures var claim := st.claims[k]; var st2 := Rest(st, k, Pass(claim, AtExpiry), draw);
      if claim.spec.lifecycle.value.policy != Retain then
        st2.claims == st.claims - {k} && st2.sandboxes == st.sandboxes
      else
        && k in st2.claims && Reports(st2.claims[k], claim, "ClaimExpired")
        && (n in st2.sandboxes <==> n in st.sandboxes && !NamesOwn(st.sandboxes, claim, n))
  {
    var claim := st.claims[k];
    ExpiredExactly(claim, st.now);
    assert Due(claim, st.now);
    var p := Pass(claim, AtExpiry);
    Looks(st, k, p, Enter(p, st.now), draw);
    if claim.spec.lifecycle.value.policy == Retain {
      Retained(st, k, draw, n);
    }
  }

  lemma Retained(st: Store, k: Name, draw: Draw, n: Name)
    requires k in st.claims
    ensures var claim := st.claims[k]; var s := claim.status.sandbox;
      var st2 := Rest(st, k, Pass(claim, if s != "" then AtDropCheck else AtNotReady("ClaimExpired", "Sandbox cleanup initiated.")), draw);
      && k in st2.claims && Reports(st2.claims[k], claim, "ClaimExpired")
      && (n in st2.sandboxes <==> n in st.sandboxes && !NamesOwn(st.sandboxes, claim, n))
  {
    var claim := st.claims[k];
    var s, message := claim.status.sandbox, "Sandbox cleanup initiated.";
    var own := s != "" && s in st.sandboxes && ControllerUid(st.sandboxes[s].meta.owners) == claim.meta.uid;
    var st1 := if own then DropSandbox(st, s) else st;
    if s != "" {
      Looks(st, k, Pass(claim, AtDropCheck), if own then AtDrop else AtNotReady("ClaimExpired", message), draw);
    }
    if own {
      RestAfter(st, k, Pass(claim, AtDrop), st1, Pass(claim, AtNotReady("ClaimExpired", message)), draw);
    }
    EndsNotReady(st1, k, claim, "ClaimExpired", message, draw);
    NotReadyReports(claim, "ClaimExpired", message, st.now, st1.rv + 1);
  }

  /**
   * What winding down a claim that is over comes to: with the policy Retain the claim stays, marked, and
   * its sandbox goes as any deleted sandbox does; with any other the claim is deleted with what is its own.
   */
  lemma WoundDownTells(w: C.World, w2: C.World, ns: Name, k: Name, now: int, n: Name)
    requires k in w.claims && w.claims[k].spec.lifecycle.Some? && R.WoundDown(w, w2, ns, k, now)
    ensures w.claims[k].spec.lifecycle.value.policy != Retain ==> w2 == C.Deleted(w, ns, C.AClaim, k)
    ensures w.claims[k].spec.lifecycle.value.policy == Retain ==>
      && k in w2.claims && Reports(w2.claims[k], w.claims[k], "ClaimExpired") && w2.claims == w.claims[k := w2.claims[k]]
      && (n in w2.sandboxes <==> n in w.sandboxes && !NamesOwn(w.sandboxes, w.claims[k], n))
      && (NamesOwn(w.sandboxes, w.claims[k], n) ==>
            w2 == C.Deleted(w, ns, C.ASandbox, n).(claims := w2.claims, rv := w2.rv))
      && ((forall x :: !NamesOwn(w.sandboxes, w.claims[k], x)) ==> w2 == w.(claims := w2.claims, rv := w2.rv))
  {
    var claim := w.claims[k];
    var s := claim.status.sandbox;
    if claim.spec.lifecycle.value.policy == Retain {
      var own := s != "" && s in w.sandboxes && ControllerUid(w.sandboxes[s].meta.owners) == claim.meta.uid;
      assert own ==> NamesOwn(w.sandboxes, claim, s);
      NotReadyReports(claim, "ClaimExpired", "Sandbox cleanup initiated.", now, w2.rv);
    }
  }
}
