/** A claim pass with no other step in between: what it comes to. */
module ClaimAlone {
  import opened Prelude
  import opened Conditions
  import opened Cluster
  import opened Protocol

  /** How many steps may be left. */
  function Left(at: At): nat {
    match at
    case AtExpiry => 40
    case AtPool => 39
    case AtTemplate(_) => 38
    case AtExisting => 37
    case AtList => 36
    case AtPick(_, a) => 11 + 2 * (if a < ATTEMPTS then ATTEMPTS - a else 0)
    case AtSwap(_, _, a) => 10 + 2 * (if a < ATTEMPTS then ATTEMPTS - a else 0)
    case AtCreate => 5
    case AtRecheck => 4
    case AtAnnotate(_, _) => 3
    case AtDropCheck => 3
    case AtStatus(_, _) => 2
    case AtDrop => 2
    case AtNotReady(_, _) => 1
    case AtDeleteClaim => 1
  }

  /** The store after the rest of the pass. */
  function Rest(st: Store, k: Name, p: Pass, draw: Draw): Store
    decreases Left(p.at)
  {
    var moved := Advance(st, k, p, draw);
    if moved.pass.None? then moved.store else Rest(moved.store, k, moved.pass.value, draw)
  }

  /** A step that only looks. */
  lemma Looks(st: Store, k: Name, p: Pass, at: At, draw: Draw)
    requires Advance(st, k, p, draw).store == st && Advance(st, k, p, draw).pass == Some(p.(at := at))
    ensures Rest(st, k, p, draw) == Rest(st, k, p.(at := at), draw)
  {
  }

  /** A step that ends the pass with a status. */
  lemma EndsNotReady(st: Store, k: Name, claim: Claim, reason: string, message: string, draw: Draw)
    ensures Rest(st, k, Pass(claim, AtNotReady(reason, message)), draw) == WriteStatus(st, k, NotReady(claim, reason, message, st.now))
  {
  }

  lemma EndsBound(st: Store, k: Name, claim: Claim, n: Name, sb: Sandbox, draw: Draw)
    ensures Rest(st, k, Pass(claim, AtStatus(n, sb)), draw) == WriteStatus(st, k, BoundStatus(Pass(claim, AtStatus(n, sb)), n, sb, st.now))
  {
  }

  lemma EndsAnnotated(st: Store, k: Name, claim: Claim, n: Name, sb: Sandbox, draw: Draw)
    ensures Rest(st, k, Pass(claim, AtAnnotate(n, sb)), draw) == Rest(Annotate(st, k, n), k, Pass(claim, AtStatus(n, sb)), draw)
  {
  }

  lemma EndsWithoutPool(st: Store, k: Name, draw: Draw)
    requires k in st.claims && !Expired(st.claims[k], st.now) && st.claims[k].spec.pool !in st.pools
    ensures Rest(st, k, Pass(st.claims[k], AtExpiry), draw)
         == WriteStatus(st, k, NotReady(st.claims[k], "WarmPoolNotFound", "SandboxWarmPool not found", st.now))
  {
    var c := st.claims[k];
    Looks(st, k, Pass(c, AtExpiry), AtPool, draw);
    Looks(st, k, Pass(c, AtPool), AtNotReady("WarmPoolNotFound", "SandboxWarmPool not found"), draw);
    EndsNotReady(st, k, c, "WarmPoolNotFound", "SandboxWarmPool not found", draw);
  }

  lemma EndsWithoutTemplate(st: Store, k: Name, draw: Draw)
    requires k in st.claims && !Expired(st.claims[k], st.now) && st.claims[k].spec.pool in st.pools
    requires st.pools[st.claims[k].spec.pool].spec.template !in st.templates
    ensures Rest(st, k, Pass(st.claims[k], AtExpiry), draw)
         == WriteStatus(st, k, NotReady(st.claims[k], "TemplateNotFound", "SandboxTemplate not found", st.now))
  {
    var c := st.claims[k];
    var t := st.pools[c.spec.pool].spec.template;
    Looks(st, k, Pass(c, AtExpiry), AtPool, draw);
    Looks(st, k, Pass(c, AtPool), AtTemplate(t), draw);
    Looks(st, k, Pass(c, AtTemplate(t)), AtNotReady("TemplateNotFound", "SandboxTemplate not found"), draw);
    EndsNotReady(st, k, c, "TemplateNotFound", "SandboxTemplate not found", draw);
  }

  /** The call that creates the sandbox, when it is built and the name is free. */
  lemma Creates(st: Store, k: Name, claim: Claim, draw: Draw)
    requires draw.built.Ok? && k !in st.sandboxes
    ensures var sb := Created(st.nextUid, st.rv + 1, st.now, [ControllerRef(CLAIM, k, claim.meta.uid)], draw.built.value, NO_STATUS);
      Rest(st, k, Pass(claim, AtCreate), draw)
        == Rest(PutSandbox(st, k, sb).(nextUid := st.nextUid + 1), k, Pass(claim, AtStatus(k, sb)), draw)
  {
  }

  /** It is not built, or the name is taken. */
  lemma DoesNotCreate(st: Store, k: Name, claim: Claim, draw: Draw)
    requires draw.built.Err? || k in st.sandboxes
    ensures Rest(st, k, Pass(claim, AtCreate), draw)
         == Rest(st, k, Pass(claim, if draw.built.Err? then AtNotReady(draw.built.error, "Error seen")
                                    else Recheck(st, k, Pass(claim, AtRecheck))), draw)
  {
    if draw.built.Err? {
      Looks(st, k, Pass(claim, AtCreate), AtNotReady(draw.built.error, "Error seen"), draw);
    } else {
      Looks(st, k, Pass(claim, AtCreate), AtRecheck, draw);
      Looks(st, k, Pass(claim, AtRecheck), Recheck(st, k, Pass(claim, AtRecheck)), draw);
    }
  }

  /** The compare-and-swap, when the version still holds. */
  lemma Swaps(st: Store, k: Name, claim: Claim, n: Name, seen: Sandbox, attempt: nat, draw: Draw)
    requires n in st.sandboxes && st.sandboxes[n] == seen
    ensures var sb := Written(seen, Adopted(seen, k, claim.meta.uid), st.rv + 1);
      Rest(st, k, Pass(claim, AtSwap(n, seen, attempt)), draw) == Rest(PutSandbox(st, n, sb), k, Pass(claim, AtAnnotate(n, sb)), draw)
  {
    var p := Pass(claim, AtSwap(n, seen, attempt));
    var sb := Written(seen, Adopted(seen, k, claim.meta.uid), st.rv + 1);
    var q := Pass(claim, AtAnnotate(n, sb));
    assert Swap(st, k, p) == Moved(PutSandbox(st, n, sb), Some(q), Some(Adoption(sb.meta.uid, claim.meta.uid)));
    RestAfter(st, k, p, PutSandbox(st, n, sb), q, draw);
  }

  lemma RestAfter(st: Store, k: Name, p: Pass, st2: Store, q: Pass, draw: Draw)
    requires Advance(st, k, p, draw).store == st2 && Advance(st, k, p, draw).pass == Some(q)
    ensures Rest(st, k, p, draw) == Rest(st2, k, q, draw)
  {
  }

  /** Nothing that a claim pass reads on its way to its sandbox is missing, and the claim is not over. */
  predicate Ready(st: Store, k: Name) {
    && k in st.claims && !Expired(st.claims[k], st.now)
    && st.claims[k].spec.pool in st.pools
    && st.pools[st.claims[k].spec.pool].spec.template in st.templates
  }

  predicate Custom(claim: Claim) {
    claim.spec.env != [] || claim.spec.vcts != []
  }

  lemma RestFromTheStart(st: Store, k: Name, draw: Draw)
    requires Ready(st, k)
    ensures Rest(st, k, Pass(st.claims[k], AtExpiry), draw) == Rest(st, k, Pass(st.claims[k], AtExisting), draw)
  {
    var c := st.claims[k];
    var t := st.pools[c.spec.pool].spec.template;
    Looks(st, k, Pass(c, AtExpiry), AtPool, draw);
    Looks(st, k, Pass(c, AtPool), AtTemplate(t), draw);
    Looks(st, k, Pass(c, AtTemplate(t)), AtExisting, draw);
  }

  /** Of a claim only status, version and annotations may differ. */
  predicate SameClaim(c: Claim, was: Claim) {
    c.spec == was.spec && c.meta == was.meta.(rv := c.meta.rv, annotations := c.meta.annotations)
  }

  /** The claim shows its sandbox: its name, its addresses, and whether it is ready and finished. */
  ghost predicate Mirrors(c: Claim, was: Claim, n: Name, sb: Sandbox) {
    && SameClaim(c, was) && c.status.sandbox == n && c.status.podIPs == sb.status.podIPs
    && (Holds(c.status.conditions, READY) <==> Holds(sb.status.conditions, READY))
    && (Holds(c.status.conditions, FINISHED) <==> Holds(sb.status.conditions, FINISHED))
    && (Find(c.status.conditions, FINISHED).None? <==> Find(sb.status.conditions, FINISHED).None?)
  }

  /** A claim that has its sandbox keeps it: nothing changes but its own status. */
  lemma KeepsItsSandbox(st: Store, k: Name, draw: Draw)
    requires Ready(st, k)
    requires var c := st.claims[k]; c.status.sandbox != "" && Controls(st, c.status.sandbox, c.meta.uid)
    ensures var st2, s := Rest(st, k, Pass(st.claims[k], AtExpiry), draw), st.claims[k].status.sandbox;
      && st2.sandboxes == st.sandboxes && k in st2.claims
      && Mirrors(st2.claims[k], st.claims[k], s, st.sandboxes[s])
      && st2.claims[k].meta.annotations == st.claims[k].meta.annotations
  {
    RestFromTheStart(st, k, draw);
    var c := st.claims[k];
    var s := c.status.sandbox;
    var at := AtStatus(s, st.sandboxes[s]);
    Looks(st, k, Pass(c, AtExisting), at, draw);
    FinishesWithStatus(st, k, Pass(c, at), draw);
  }

  /** The status write that ends the pass of a claim that has its sandbox. */
  lemma FinishesWithStatus(st: Store, k: Name, p: Pass, draw: Draw)
    requires k in st.claims && p.at.AtStatus?
    ensures var st2 := Rest(st, k, p, draw);
      && st2.sandboxes == st.sandboxes && k in st2.claims
      && Mirrors(st2.claims[k], st.claims[k], p.at.bound, p.at.sandbox)
      && st2.claims[k].meta.annotations == st.claims[k].meta.annotations
  {
    EndsBound(st, k, p.claim, p.at.bound, p.at.sandbox, draw);
    BoundStatusMirrors(st.claims[k], p, st.now, st.rv + 1);
  }

  lemma BoundStatusMirrors(was: Claim, p: Pass, now: int, rv: nat)
    requires p.at.AtStatus?
    ensures Mirrors(StatusWritten(was, BoundStatus(p, p.at.bound, p.at.sandbox, now), rv), was, p.at.bound, p.at.sandbox)
  {
    MirrorFinds(p.claim.status.conditions, Glimpse(p.at.sandbox.status.conditions, p.claim.meta.generation, now));
  }

  /** The last steps of a pass that has taken a sandbox over. */
  lemma FinishesAdopted(st: Store, k: Name, p: Pass, draw: Draw)
    requires k in st.claims && p.at.AtAnnotate?
    ensures var st2 := Rest(st, k, p, draw);
      && st2.sandboxes == st.sandboxes && k in st2.claims
      && Mirrors(st2.claims[k], st.claims[k], p.at.bound, p.at.sandbox)
      && st2.claims[k].meta.annotations == st.claims[k].meta.annotations["agents.x-k8s.io/assigned-sandbox-name" := p.at.bound]
  {
    var st1, q := Annotate(st, k, p.at.bound), p.(at := AtStatus(p.at.bound, p.at.sandbox));
    assert Advance(st, k, p, draw) == Moved(st1, Some(q), None);
    assert Rest(st, k, p, draw) == Rest(st1, k, q, draw);
    assert st1.sandboxes == st.sandboxes && k in st1.claims;
    FinishesWithStatus(st1, k, q, draw);
  }

  /** A claim without a sandbox and without additions takes over the pool's head candidate. */
  lemma TakesTheCandidate(st: Store, k: Name, draw: Draw)
    requires Ready(st, k) && !Custom(st.claims[k]) && MayPick(st, st.claims[k].spec.pool, draw.pick)
    requires var c := st.claims[k]; c.status.sandbox == "" || !Controls(st, c.status.sandbox, c.meta.uid)
    ensures var st2, n := Rest(st, k, Pass(st.claims[k], AtExpiry), draw), draw.pick;
      && n in st2.sandboxes && k in st2.claims
      && Mirrors(st2.claims[k], st.claims[k], n, st.sandboxes[n])
      && st2.claims[k].meta.annotations == st.claims[k].meta.annotations["agents.x-k8s.io/assigned-sandbox-name" := n]
      && st2.sandboxes == st.sandboxes[n := st2.sandboxes[n]]
      && st2.sandboxes[n].meta == st.sandboxes[n].meta.(
           owners := [OwnerRef("SandboxClaim", k, st.claims[k].meta.uid, true)], rv := st2.sandboxes[n].meta.rv)
      && st2.sandboxes[n].spec == st.sandboxes[n].spec && st2.sandboxes[n].status == st.sandboxes[n].status
  {
    RestFromTheStart(st, k, draw);
    var c, n := st.claims[k], draw.pick;
    var seen := st.sandboxes[n];
    Looks(st, k, Pass(c, AtExisting), AtList, draw);
    Looks(st, k, Pass(c, AtList), AtPick(n, 0), draw);
    Looks(st, k, Pass(c, AtPick(n, 0)), AtSwap(n, seen, 0), draw);
    SwapsAndFinishes(st, k, c, n, draw);
  }

  lemma SwapsAndFinishes(st: Store, k: Name, c: Claim, n: Name, draw: Draw)
    requires k in st.claims && n in st.sandboxes && c == st.claims[k]
    ensures var st2 := Rest(st, k, Pass(c, AtSwap(n, st.sandboxes[n], 0)), draw);
      && n in st2.sandboxes && k in st2.claims
      && Mirrors(st2.claims[k], st.claims[k], n, st.sandboxes[n])
      && st2.claims[k].meta.annotations == st.claims[k].meta.annotations["agents.x-k8s.io/assigned-sandbox-name" := n]
      && st2.sandboxes == st.sandboxes[n := st2.sandboxes[n]]
      && st2.sandboxes[n] == Written(st.sandboxes[n], Adopted(st.sandboxes[n], k, c.meta.uid), st.rv + 1)
  {
    var seen := st.sandboxes[n];
    var sb := Written(seen, Adopted(seen, k, c.meta.uid), st.rv + 1);
    var st1 := PutSandbox(st, n, sb);
    Swaps(st, k, c, n, seen, 0, draw);
    FinishesAdopted(st1, k, Pass(c, AtAnnotate(n, sb)), draw);
  }

  /** Without a candidate, or with additions, it creates one under its own name, if it can build it and the name is free. */
  lemma CreatesItsOwn(st: Store, k: Name, draw: Draw)
    requires Ready(st, k) && (Custom(st.claims[k]) || !MayPick(st, st.claims[k].spec.pool, draw.pick))
    requires var c := st.claims[k]; c.status.sandbox == "" || !Controls(st, c.status.sandbox, c.meta.uid)
    requires draw.built.Ok? && k !in st.sandboxes
    ensures var st2 := Rest(st, k, Pass(st.claims[k], AtExpiry), draw);
      && k in st2.sandboxes && k in st2.claims
      && Mirrors(st2.claims[k], st.claims[k], k, st2.sandboxes[k]) && !Holds(st2.claims[k].status.conditions, READY)
      && st2.sandboxes == st.sandboxes[k := st2.sandboxes[k]]
      && st2.sandboxes[k].meta == Meta(st.nextUid, st.rv + 1, 1, st.now,
           [OwnerRef("SandboxClaim", k, st.claims[k].meta.uid, true)], map[], false)
      && st2.sandboxes[k].spec == draw.built.value && st2.sandboxes[k].status == NO_STATUS
  {
    RestFromTheStart(st, k, draw);
    var c := st.claims[k];
    var at := Existing(st, Pass(c, AtExisting));
    Looks(st, k, Pass(c, AtExisting), at, draw);
    if at.AtList? {
      Looks(st, k, Pass(c, AtList), AtCreate, draw);
    }
    CreatesAndFinishes(st, k, c, draw);
  }

  lemma CreatesAndFinishes(st: Store, k: Name, c: Claim, draw: Draw)
    requires k in st.claims && c == st.claims[k] && draw.built.Ok? && k !in st.sandboxes
    ensures var st2 := Rest(st, k, Pass(c, AtCreate), draw);
      && k in st2.sandboxes && k in st2.claims
      && Mirrors(st2.claims[k], st.claims[k], k, st2.sandboxes[k]) && !Holds(st2.claims[k].status.conditions, READY)
      && st2.sandboxes == st.sandboxes[k := st2.sandboxes[k]]
      && st2.sandboxes[k].meta == Meta(st.nextUid, st.rv + 1, 1, st.now,
           [OwnerRef("SandboxClaim", k, c.meta.uid, true)], map[], false)
      && st2.sandboxes[k].spec == draw.built.value && st2.sandboxes[k].status == NO_STATUS
  {
    var sb := Created(st.nextUid, st.rv + 1, st.now, [ControllerRef(CLAIM, k, c.meta.uid)], draw.built.value, NO_STATUS);
    var st1 := PutSandbox(st, k, sb).(nextUid := st.nextUid + 1);
    assert Advance(st, k, Pass(c, AtCreate), draw) == Moved(st1, Some(Pass(c, AtStatus(k, sb))), None);
    FinishesWithStatus(st1, k, Pass(c, AtStatus(k, sb)), draw);
  }

  /** If its own sandbox has that name already, which its status does not say yet, it is taken up again. */
  lemma TakesUpItsOwn(st: Store, k: Name, draw: Draw)
    requires Ready(st, k) && (Custom(st.claims[k]) || !MayPick(st, st.claims[k].spec.pool, draw.pick))
    requires var c := st.claims[k]; c.status.sandbox == "" || !Controls(st, c.status.sandbox, c.meta.uid)
    requires draw.built.Ok? && Controls(st, k, st.claims[k].meta.uid)
    ensures var st2 := Rest(st, k, Pass(st.claims[k], AtExpiry), draw);
      st2.sandboxes == st.sandboxes && k in st2.claims && Mirrors(st2.claims[k], st.claims[k], k, st.sandboxes[k])
  {
    RestFromTheStart(st, k, draw);
    var c := st.claims[k];
    var at := Existing(st, Pass(c, AtExisting));
    Looks(st, k, Pass(c, AtExisting), at, draw);
    if at.AtList? {
      Looks(st, k, Pass(c, AtList), AtCreate, draw);
    }
    DoesNotCreate(st, k, c, draw);
    FinishesWithStatus(st, k, Pass(c, AtStatus(k, st.sandboxes[k])), draw);
  }

  /** If somebody else's sandbox has the name, the claim is left without one and says so. */
  lemma StuckOnForeign(st: Store, k: Name, draw: Draw)
    requires Ready(st, k) && (Custom(st.claims[k]) || !MayPick(st, st.claims[k].spec.pool, draw.pick))
    requires var c := st.claims[k]; c.status.sandbox == "" || !Controls(st, c.status.sandbox, c.meta.uid)
    requires draw.built.Ok? && k in st.sandboxes && !Controls(st, k, st.claims[k].meta.uid)
    ensures var st2 := Rest(st, k, Pass(st.claims[k], AtExpiry), draw);
      && st2.sandboxes == st.sandboxes && k in st2.claims
      && Reports(st2.claims[k], st.claims[k], "ReconcilerError")
  {
    RestFromTheStart(st, k, draw);
    var c := st.claims[k];
    var at := Existing(st, Pass(c, AtExisting));
    Looks(st, k, Pass(c, AtExisting), at, draw);
    if at.AtList? {
      Looks(st, k, Pass(c, AtList), AtCreate, draw);
    }
    DoesNotCreate(st, k, c, draw);
    EndsNotReady(st, k, c, "ReconcilerError", "Error seen", draw);
    NotReadyReports(c, "ReconcilerError", "Error seen", st.now, st.rv + 1);
  }

  // ---- Which one is taken ----

  /** A sandbox a claim may take: the pool is an owner of it by kind and name, and it is not being deleted. */
  ghost predicate Free(st: Store, pool: Name, n: Name) {
    && n in st.sandboxes && !st.sandboxes[n].meta.deleting
    && exists ref :: ref in st.sandboxes[n].meta.owners && ref.kind == "SandboxWarmPool" && ref.name == pool
  }

  ghost predicate SaysReady(sb: Sandbox) {
    exists c :: Find(sb.status.conditions, "Ready") == Some(c) && c.status == "True"
  }

  /** The head of the list is free, and ready if any free one is; and there is a head if there is a free one. */
  lemma HeadIsBest(st: Store, pool: Name, n: Name)
    ensures MayPick(st, pool, n) <==> Free(st, pool, n) && (SaysReady(st.sandboxes[n]) || forall m :: Free(st, pool, m) ==> !SaysReady(st.sandboxes[m]))
    ensures Free(st, pool, n) ==> exists m :: MayPick(st, pool, m)
  {
    forall m ensures Candidate(st, pool, m) <==> Free(st, pool, m) {
      if Candidate(st, pool, m) {
        var owners := st.sandboxes[m].meta.owners;
        var i :| 0 <= i < |owners| && owners[i].kind == POOL && owners[i].name == pool;
        assert owners[i] in owners;
      }
    }
    forall m | m in st.sandboxes ensures IsReady(st.sandboxes[m]) <==> SaysReady(st.sandboxes[m]) {
    }
    if Free(st, pool, n) {
      if m :| Free(st, pool, m) && IsReady(st.sandboxes[m]) {
        assert MayPick(st, pool, m);
      } else {
        assert MayPick(st, pool, n);
      }
    }
  }

  // ---- What a claim without its sandbox reports ----

  /** The claim is not ready for this reason, and is else as it was. */
  ghost predicate Reports(c: Claim, was: Claim, reason: string) {
    && SameClaim(c, was) && c.meta.annotations == was.meta.annotations
    && c.status.sandbox == was.status.sandbox && c.status.podIPs == was.status.podIPs
    && var ready := Find(c.status.conditions, "Ready");
    && ready.Some? && ready.value.status == "False" && ready.value.reason == reason
    && forall kind :: kind != "Ready" ==> Find(c.status.conditions, kind) == Find(was.status.conditions, kind)
  }

  lemma NotReadyReports(claim: Claim, reason: string, message: string, now: int, rv: nat)
    requires reason != ""
    ensures Reports(StatusWritten(claim, NotReady(claim, reason, message, now), rv), claim, reason)
  {
    var c := Raw(READY, FALSE, reason, message, claim.meta.generation, now);
    FindSet(claim.status.conditions, c, READY);
    forall kind | kind != READY ensures Find(Set(claim.status.conditions, c), kind) == Find(claim.status.conditions, kind) {
      FindSet(claim.status.conditions, c, kind);
    }
  }

  /** A claim whose pool or template is missing says so, and nothing else happens. */
  lemma MissingIsReported(st: Store, k: Name, draw: Draw)
    requires k in st.claims && !Expired(st.claims[k], st.now)
    requires var pool := st.claims[k].spec.pool; pool !in st.pools || st.pools[pool].spec.template !in st.templates
    ensures var st2 := Rest(st, k, Pass(st.claims[k], AtExpiry), draw);
      && st2.sandboxes == st.sandboxes && k in st2.claims
      && Reports(st2.claims[k], st.claims[k], if st.claims[k].spec.pool !in st.pools then "WarmPoolNotFound" else "TemplateNotFound")
  {
    if st.claims[k].spec.pool !in st.pools {
      EndsWithoutPool(st, k, draw);
      NotReadyReports(st.claims[k], "WarmPoolNotFound", "SandboxWarmPool not found", st.now, st.rv + 1);
    } else {
      EndsWithoutTemplate(st, k, draw);
      NotReadyReports(st.claims[k], "TemplateNotFound", "SandboxTemplate not found", st.now, st.rv + 1);
    }
  }

  /** A claim whose sandbox cannot be built reports why, and nothing is created. */
  lemma BuildErrorIsReported(st: Store, k: Name, draw: Draw)
    requires Ready(st, k) && (Custom(st.claims[k]) || !MayPick(st, st.claims[k].spec.pool, draw.pick))
    requires var c := st.claims[k]; c.status.sandbox == "" || !Controls(st, c.status.sandbox, c.meta.uid)
    requires draw.built.Err? && draw.built.error != ""
    ensures var st2 := Rest(st, k, Pass(st.claims[k], AtExpiry), draw);
      st2.sandboxes == st.sandboxes && k in st2.claims && Reports(st2.claims[k], st.claims[k], draw.built.error)
  {
    RestFromTheStart(st, k, draw);
    var c := st.claims[k];
    var at := Existing(st, Pass(c, AtExisting));
    Looks(st, k, Pass(c, AtExisting), at, draw);
    if at.AtList? {
      Looks(st, k, Pass(c, AtList), AtCreate, draw);
    }
    DoesNotCreate(st, k, c, draw);
    EndsNotReady(st, k, c, draw.built.error, "Error seen", draw);
    NotReadyReports(c, draw.built.error, "Error seen", st.now, st.rv + 1);
  }

  /** Editing a claim's spec counts as one generation if it changes it, and touches neither status nor identity. */
  lemma EditsAreCounted(m: System, k: Name, spec: ClaimSpec)
    requires k in m.st.claims
    ensures var c, was := Do(m, EditClaim(k, spec)).st.claims[k], m.st.claims[k];
      && c.spec == spec && c.status == was.status
      && c.meta == was.meta.(rv := m.st.rv + 1, generation := was.meta.generation + if spec == was.spec then 0 else 1)
  {
  }
}
