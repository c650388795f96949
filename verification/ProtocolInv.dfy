/** Every step of the protocol keeps its invariant. */
module ProtocolInv {
  import opened Prelude
  import opened Conditions
  import opened Cluster
  import opened Protocol

  // ---- Steps that add no sandbox and change no sandbox's owners ----

  /** What st2 has is st's, or a rewriting of it under a new version that keeps identity and owners. */
  ghost predicate Quiet(st: Store, st2: Store) {
    && st.rv <= st2.rv && st.nextUid <= st2.nextUid
    && forall n <- st2.sandboxes ::
         && n in st.sandboxes
         && st2.sandboxes[n].meta.uid == st.sandboxes[n].meta.uid
         && st2.sandboxes[n].meta.owners == st.sandboxes[n].meta.owners
         && (st2.sandboxes[n] == st.sandboxes[n] || (st2.sandboxes[n].meta.rv == st2.rv && st.rv < st2.rv))
  }

  /** The same passes, claim UIDs and adoptions. */
  ghost predicate SameHistory(m: System, m2: System) {
    m2.passes == m.passes && m2.claimUids == m.claimUids && m2.adoptions == m.adoptions
  }

  lemma SandboxesMove(m: System, m2: System)
    requires Inv(m) && SameHistory(m, m2) && m2.st.claims == m.st.claims && Quiet(m.st, m2.st)
    ensures Inv(m2)
  {
    assert forall n, u :: Controls(m2.st, n, u) ==> Controls(m.st, n, u);
    MintedMoves(m, m2);
    SwapsMove(m, m2);
    assert Distinct(m2) && OneEach(m2) && PassesHold(m2) && ClaimsHold(m2) && StatusIsSeen(m2);
    AdoptionsMove(m, m2);
  }

  lemma MintedMoves(m: System, m2: System)
    requires Minted(m) && SameHistory(m, m2) && m2.st.claims == m.st.claims && Quiet(m.st, m2.st)
    ensures Minted(m2)
  {
  }

  lemma SwapsMove(m: System, m2: System)
    requires SwapsAreCurrent(m) && m2.passes == m.passes && Quiet(m.st, m2.st)
    ensures SwapsAreCurrent(m2)
  {
  }

  lemma AdoptionsMove(m: System, m2: System)
    requires AdoptionsHold(m) && m2.claimUids == m.claimUids && m2.adoptions == m.adoptions && Quiet(m.st, m2.st)
    ensures AdoptionsHold(m2)
  {
  }

  // ---- Steps on claims ----

  lemma ClaimCreated(m: System, k: Name, spec: ClaimSpec, status: ClaimStatus)
    requires Inv(m) && Enabled(m, CreateClaim(k, spec, status))
    ensures Inv(Do(m, CreateClaim(k, spec, status)))
  {
    var m2 := Do(m, CreateClaim(k, spec, status));
    assert forall n, u :: Controls(m2.st, n, u) <==> Controls(m.st, n, u);
    assert forall n :: !Controls(m.st, n, m.st.nextUid);
    ClaimCreatedMinted(m, k, spec, status);
    SwapsMove(m, m2);
    ClaimCreatedAdoptions(m, m2, k);
    assert PassesHold(m2) && OneEach(m2);
    ClaimCreatedClaims(m, k, spec, status);
  }

  lemma ClaimCreatedMinted(m: System, k: Name, spec: ClaimSpec, status: ClaimStatus)
    requires Minted(m) && Enabled(m, CreateClaim(k, spec, status))
    ensures Minted(Do(m, CreateClaim(k, spec, status)))
  {
  }

  lemma ClaimCreatedAdoptions(m: System, m2: System, k: Name)
    requires AdoptionsHold(m) && m.st.nextUid !in m.claimUids && m2.adoptions == m.adoptions
    requires m2.st.sandboxes == m.st.sandboxes && m.st.nextUid <= m2.st.nextUid && m2.claimUids == m.claimUids[m.st.nextUid := k]
    ensures AdoptionsHold(m2)
  {
  }

  lemma ClaimCreatedClaims(m: System, k: Name, spec: ClaimSpec, status: ClaimStatus)
    requires Minted(m) && ClaimsHold(m) && StatusIsSeen(m) && Enabled(m, CreateClaim(k, spec, status))
    requires forall n :: !Controls(m.st, n, m.st.nextUid)
    ensures var m2 := Do(m, CreateClaim(k, spec, status)); ClaimsHold(m2) && StatusIsSeen(m2)
  {
    var m2 := Do(m, CreateClaim(k, spec, status));
    assert forall n, u :: Controls(m2.st, n, u) <==> Controls(m.st, n, u);
  }

  lemma ClaimGone(m: System, k: Name)
    requires Inv(m) && Enabled(m, DeleteClaim(k))
    ensures Inv(Do(m, DeleteClaim(k)))
  {
    var m2 := Do(m, DeleteClaim(k));
    assert forall n, u :: Controls(m2.st, n, u) <==> Controls(m.st, n, u);
    assert SwapsAreCurrent(m2);
    assert AdoptionsHold(m2);
  }

  // ---- A sandbox put under a name ----

  function Placed(m: System, n: Name, sb: Sandbox, next: Uid): System {
    m.(st := PutSandbox(m.st, n, sb).(nextUid := next))
  }

  lemma PlacedMinted(m: System, n: Name, sb: Sandbox, next: Uid)
    requires Minted(m) && n != "" && m.st.nextUid <= next
    requires 0 < sb.meta.uid < next && sb.meta.rv == m.st.rv + 1 && ControllerUid(sb.meta.owners) < next
    ensures Minted(Placed(m, n, sb, next))
  {
  }

  lemma PlacedDistinct(m: System, n: Name, sb: Sandbox, next: Uid)
    requires Minted(m) && Distinct(m)
    requires if n in m.st.sandboxes then sb.meta.uid == m.st.sandboxes[n].meta.uid else sb.meta.uid == m.st.nextUid
    ensures Distinct(Placed(m, n, sb, next))
  {
  }

  lemma PlacedSwaps(m: System, n: Name, sb: Sandbox, next: Uid)
    requires SwapsAreCurrent(m) && sb.meta.rv == m.st.rv + 1
    ensures SwapsAreCurrent(Placed(m, n, sb, next))
  {
  }

  lemma PlacedAdoptions(m: System, n: Name, sb: Sandbox, next: Uid)
    requires AdoptionsHold(m) && m.st.nextUid <= next
    requires forall i :: 0 <= i < |m.adoptions| ==> m.adoptions[i].sandbox != sb.meta.uid
    ensures AdoptionsHold(Placed(m, n, sb, next))
  {
  }

  /** No claim gains a sandbox. */
  lemma PlacedForNoClaim(m: System, n: Name, sb: Sandbox, next: Uid)
    requires PassesHold(m) && ClaimsHold(m) && OneEach(m) && Minted(m)
    requires ControllerUid(sb.meta.owners) !in m.claimUids
    ensures var m2 := Placed(m, n, sb, next); PassesHold(m2) && ClaimsHold(m2) && OneEach(m2)
  {
    var m2 := Placed(m, n, sb, next);
    assert forall a, u :: u in m.claimUids && Controls(m2.st, a, u) ==> Controls(m.st, a, u);
  }

  lemma OthersSandbox(m: System, n: Name, sb: Sandbox)
    requires Inv(m) && n != "" && n !in m.st.sandboxes
    requires sb.meta.uid == m.st.nextUid && sb.meta.rv == m.st.rv + 1
    requires ControllerUid(sb.meta.owners) < m.st.nextUid && ControllerUid(sb.meta.owners) !in m.claimUids
    ensures Inv(Placed(m, n, sb, m.st.nextUid + 1))
  {
    var next := m.st.nextUid + 1;
    PlacedMinted(m, n, sb, next);
    PlacedDistinct(m, n, sb, next);
    PlacedSwaps(m, n, sb, next);
    PlacedAdoptions(m, n, sb, next);
    PlacedForNoClaim(m, n, sb, next);
    PlacedStatusSeen(m, n, sb, next);
  }

  lemma PlacedStatusSeen(m: System, n: Name, sb: Sandbox, next: Uid)
    requires StatusIsSeen(m)
    ensures StatusIsSeen(Placed(m, n, sb, next))
  {
  }

  lemma CreateIsPlaced(m: System, n: Name, owners: seq<OwnerRef>, spec: SandboxSpec)
    requires Enabled(m, CreateSandbox(n, owners, spec))
    ensures var sb := Created(m.st.nextUid, m.st.rv + 1, m.st.now, owners, spec, NO_STATUS);
      Do(m, CreateSandbox(n, owners, spec)) == Placed(m, n, sb, m.st.nextUid + 1)
  {
  }

  lemma CreatedForNoClaim(m: System, n: Name, owners: seq<OwnerRef>, spec: SandboxSpec)
    requires 0 < m.st.nextUid && (forall u <- m.claimUids :: 0 < u) && Enabled(m, CreateSandbox(n, owners, spec))
    ensures ControllerUid(owners) < m.st.nextUid && ControllerUid(owners) !in m.claimUids
  {
  }

  lemma SandboxCreated(m: System, n: Name, owners: seq<OwnerRef>, spec: SandboxSpec)
    requires Inv(m) && Enabled(m, CreateSandbox(n, owners, spec))
    ensures Inv(Do(m, CreateSandbox(n, owners, spec)))
  {
    CreateIsPlaced(m, n, owners, spec);
    CreatedForNoClaim(m, n, owners, spec);
    OthersSandbox(m, n, Created(m.st.nextUid, m.st.rv + 1, m.st.now, owners, spec, NO_STATUS));
  }

  /** The claim whose pass runs under k, which had no sandbox, gains n, and its pass goes on knowing it. */
  lemma PlacedForClaim(m: System, n: Name, sb: Sandbox, next: Uid, k: Name, p: Pass)
    requires PassesHold(m) && ClaimsHold(m) && OneEach(m) && Minted(m)
    requires k in m.passes && p.claim == m.passes[k].claim && ControllerUid(sb.meta.owners) == p.claim.meta.uid
    requires forall a :: !Allows(m.passes[k], a)
    requires Allows(p, n)
    ensures var m2 := Placed(m, n, sb, next).(passes := m.passes[k := p]); PassesHold(m2) && ClaimsHold(m2) && OneEach(m2)
  {
    var m2 := Placed(m, n, sb, next).(passes := m.passes[k := p]);
    var uid := p.claim.meta.uid;
    assert forall a, u :: u != uid && Controls(m2.st, a, u) ==> Controls(m.st, a, u);
    assert forall a :: !Controls(m.st, a, uid);
    forall a | a != n ensures !Controls(m2.st, a, uid) {
      assert !Controls(m.st, a, uid);
    }
  }

  // ---- Steps of a claim pass ----

  lemma Begun(m: System, k: Name)
    requires Inv(m) && Enabled(m, Begin(k))
    ensures Inv(Do(m, Begin(k)))
  {
    var m2 := Do(m, Begin(k));
    assert forall n, u :: Controls(m2.st, n, u) <==> Controls(m.st, n, u);
    assert PassesHold(m2);
    assert ClaimsHold(m2);
  }

  /** A step that only looks: it may go on to where its claim's sandboxes are still allowed. */
  lemma Looked(m: System, k: Name, p: Pass)
    requires Inv(m) && k in m.passes && p.claim == m.passes[k].claim
    requires forall n :: Controls(m.st, n, p.claim.meta.uid) && Allows(m.passes[k], n) ==> Allows(p, n)
    requires p.at.AtSwap? ==>
      && p.at.pick in m.st.sandboxes && m.st.sandboxes[p.at.pick] == p.at.seen
      && OwnedBy(p.at.seen.meta.owners, POOL, p.claim.spec.pool)
    ensures Inv(m.(passes := m.passes[k := p]))
  {
    var m2 := m.(passes := m.passes[k := p]);
    assert PassesHold(m2);
    assert ClaimsHold(m2);
    assert SwapsAreCurrent(m2);
  }

  /** The claim under k is rewritten with its UID and status. */
  lemma Rewritten(m: System, k: Name, c: Claim, rv: nat)
    requires Inv(m) && k in m.st.claims && m.st.rv <= rv
    requires c.meta.uid == m.st.claims[k].meta.uid && c.status == m.st.claims[k].status
    ensures Inv(m.(st := m.st.(claims := m.st.claims[k := c], rv := rv)))
  {
    var m2 := m.(st := m.st.(claims := m.st.claims[k := c], rv := rv));
    assert forall n, u :: Controls(m2.st, n, u) <==> Controls(m.st, n, u);
    assert SwapsAreCurrent(m2);
    assert AdoptionsHold(m2);
  }

  lemma ClaimEdited(m: System, k: Name, spec: ClaimSpec)
    requires Inv(m) && Enabled(m, EditClaim(k, spec))
    ensures Inv(Do(m, EditClaim(k, spec)))
  {
    EditIs(m, k, spec);
    Rewritten(m, k, Written(m.st.claims[k], m.st.claims[k].(spec := spec), m.st.rv + 1), m.st.rv + 1);
  }

  lemma EditIs(m: System, k: Name, spec: ClaimSpec)
    requires Enabled(m, EditClaim(k, spec))
    ensures var c := Written(m.st.claims[k], m.st.claims[k].(spec := spec), m.st.rv + 1);
      && k in m.st.claims && c.meta.uid == m.st.claims[k].meta.uid && c.status == m.st.claims[k].status
      && Do(m, EditClaim(k, spec)) == m.(st := m.st.(claims := m.st.claims[k := c], rv := m.st.rv + 1))
  {
  }

  /** The pass that runs under k ends with a status. */
  function Ended(m: System, k: Name, status: ClaimStatus): System {
    m.(st := WriteStatus(m.st, k, status), passes := m.passes - {k})
  }

  lemma EndedMinted(m: System, k: Name, status: ClaimStatus)
    requires Minted(m)
    ensures Minted(Ended(m, k, status))
  {
  }

  lemma EndedSwaps(m: System, k: Name, status: ClaimStatus)
    requires SwapsAreCurrent(m)
    ensures SwapsAreCurrent(Ended(m, k, status))
  {
  }

  lemma EndedHolds(m: System, k: Name, status: ClaimStatus)
    requires PassesHold(m) && ClaimsHold(m) && StatusIsSeen(m) && OneEach(m) && k in m.passes
    requires forall n :: Controls(m.st, n, m.passes[k].claim.meta.uid) ==> n == status.sandbox && n != ""
    ensures var m2 := Ended(m, k, status); PassesHold(m2) && ClaimsHold(m2) && StatusIsSeen(m2) && OneEach(m2)
  {
    var m2 := Ended(m, k, status);
    assert forall n, u :: Controls(m2.st, n, u) <==> Controls(m.st, n, u);
  }

  lemma EndedAdoptions(m: System, k: Name, status: ClaimStatus)
    requires Distinct(m) && AdoptionsHold(m)
    ensures var m2 := Ended(m, k, status); Distinct(m2) && AdoptionsHold(m2)
  {
  }

  /** The pass ends with a status that names the sandbox it allows. */
  lemma EndedWithStatus(m: System, k: Name, status: ClaimStatus)
    requires Inv(m) && k in m.passes
    requires forall n :: Controls(m.st, n, m.passes[k].claim.meta.uid) ==> n == status.sandbox && n != ""
    ensures Inv(Ended(m, k, status))
  {
    EndedMinted(m, k, status);
    EndedSwaps(m, k, status);
    EndedHolds(m, k, status);
    EndedAdoptions(m, k, status);
  }

  lemma EndedWithDelete(m: System, k: Name, rv: nat)
    requires Inv(m) && k in m.passes && m.st.rv <= rv
    ensures Inv(m.(st := m.st.(claims := m.st.claims - {k}, rv := rv), passes := m.passes - {k}))
  {
    var m2 := m.(st := m.st.(claims := m.st.claims - {k}, rv := rv), passes := m.passes - {k});
    assert forall n, u :: Controls(m2.st, n, u) <==> Controls(m.st, n, u);
    assert Minted(m2);
    assert SwapsAreCurrent(m2);
    assert AdoptionsHold(m2);
  }

  /** A compare-and-swap that succeeded swapped what it read. */
  lemma SwapDoes(m: System, k: Name, draw: Draw)
    requires SwapsAreCurrent(m) && k in m.passes && m.passes[k].at.AtSwap?
    requires Swap(m.st, k, m.passes[k]).adopted.Some?
    ensures var p := m.passes[k]; var n, seen := p.at.pick, p.at.seen;
      && n in m.st.sandboxes && m.st.sandboxes[n] == seen && OwnedBy(seen.meta.owners, POOL, p.claim.spec.pool)
      && var sb := Written(seen, Adopted(seen, k, p.claim.meta.uid), m.st.rv + 1);
      DoPass(m, k, draw) == Placed(m, n, sb, m.st.nextUid).(
        passes := m.passes[k := p.(at := AtAnnotate(n, sb))],
        adoptions := m.adoptions + [Adoption(seen.meta.uid, p.claim.meta.uid)])
  {
  }

  /** What a pool owns was taken over by nobody yet. */
  lemma PooledIsNew(m: System, n: Name, pool: Name)
    requires AdoptionsHold(m) && n in m.st.sandboxes && OwnedBy(m.st.sandboxes[n].meta.owners, POOL, pool)
    ensures forall i :: 0 <= i < |m.adoptions| ==> m.adoptions[i].sandbox != m.st.sandboxes[n].meta.uid
  {
  }

  lemma Swapped(m: System, k: Name, draw: Draw)
    requires Inv(m) && k in m.passes && m.passes[k].at.AtSwap?
    requires Swap(m.st, k, m.passes[k]).adopted.Some?
    ensures Inv(DoPass(m, k, draw))
  {
    SwapDoes(m, k, draw);
    var p := m.passes[k];
    var n, seen := p.at.pick, p.at.seen;
    PooledIsNew(m, n, p.claim.spec.pool);
    var sb := Written(seen, Adopted(seen, k, p.claim.meta.uid), m.st.rv + 1);
    TakenOver(m, n, sb, k, p.(at := AtAnnotate(n, sb)));
  }

  lemma TakenOver(m: System, n: Name, sb: Sandbox, k: Name, q: Pass)
    requires Inv(m) && n in m.st.sandboxes && sb.meta.uid == m.st.sandboxes[n].meta.uid && sb.meta.rv == m.st.rv + 1
    requires k in m.passes && m.passes[k].at.AtSwap? && q == m.passes[k].(at := AtAnnotate(n, sb))
    requires sb.meta.owners == [ControllerRef(CLAIM, k, q.claim.meta.uid)]
    requires forall i :: 0 <= i < |m.adoptions| ==> m.adoptions[i].sandbox != sb.meta.uid
    ensures Inv(Placed(m, n, sb, m.st.nextUid).(
      passes := m.passes[k := q], adoptions := m.adoptions + [Adoption(sb.meta.uid, q.claim.meta.uid)]))
  {
    var next := m.st.nextUid;
    var m1 := Placed(m, n, sb, next);
    assert ControllerUid(sb.meta.owners) == q.claim.meta.uid;
    PlacedMinted(m, n, sb, next);
    PlacedDistinct(m, n, sb, next);
    PlacedSwaps(m, n, sb, next);
    PlacedForClaim(m, n, sb, next, k, q);
    PlacedAdoptions(m, n, sb, next);
    Repassed(m, m1, k, q);
    var m2 := m1.(passes := m.passes[k := q]);
    var a := Adoption(sb.meta.uid, q.claim.meta.uid);
    AdoptionAdded(m2, n, k, a);
    OnlyAdoptionsDiffer(m2, m2.adoptions + [a]);
  }

  lemma OnlyAdoptionsDiffer(m: System, adoptions: seq<Adoption>)
    requires Minted(m) && Distinct(m) && SwapsAreCurrent(m) && PassesHold(m) && ClaimsHold(m) && StatusIsSeen(m) && OneEach(m)
    requires AdoptionsHold(m.(adoptions := adoptions))
    ensures Inv(m.(adoptions := adoptions))
  {
  }

  /** What remains of the invariant when one pass moves on to where it holds no version. */
  lemma Repassed(m: System, m1: System, k: Name, p: Pass)
    requires StatusIsSeen(m) && Minted(m1) && SwapsAreCurrent(m1)
    requires m1.passes == m.passes && m1.st.claims == m.st.claims
    requires k in m.passes && p.claim == m.passes[k].claim && !p.at.AtSwap?
    ensures var m2 := m1.(passes := m1.passes[k := p]); Minted(m2) && SwapsAreCurrent(m2) && StatusIsSeen(m2)
  {
  }

  lemma AdoptionAdded(m: System, n: Name, k: Name, a: Adoption)
    requires Minted(m) && Distinct(m) && AdoptionsHold(m)
    requires n in m.st.sandboxes && m.st.sandboxes[n].meta.uid == a.sandbox
    requires a.claim in m.claimUids && m.claimUids[a.claim] == k
    requires m.st.sandboxes[n].meta.owners == [ControllerRef(CLAIM, k, a.claim)]
    requires forall i :: 0 <= i < |m.adoptions| ==> m.adoptions[i].sandbox != a.sandbox
    ensures AdoptionsHold(m.(adoptions := m.adoptions + [a]))
  {
  }

  lemma ColdDoes(m: System, k: Name, draw: Draw)
    requires k in m.passes && m.passes[k].at.AtCreate? && draw.built.Ok? && k !in m.st.sandboxes
    ensures var p := m.passes[k];
      var sb := Created(m.st.nextUid, m.st.rv + 1, m.st.now, [ControllerRef(CLAIM, k, p.claim.meta.uid)], draw.built.value, NO_STATUS);
      DoPass(m, k, draw) == Placed(m, k, sb, m.st.nextUid + 1).(passes := m.passes[k := p.(at := AtStatus(k, sb))])
  {
  }

  lemma ColdCreated(m: System, k: Name, sb: Sandbox, q: Pass)
    requires Inv(m) && k in m.passes && m.passes[k].at.AtCreate? && k !in m.st.sandboxes
    requires sb.meta.uid == m.st.nextUid && sb.meta.rv == m.st.rv + 1 && q == m.passes[k].(at := AtStatus(k, sb))
    requires sb.meta.owners == [ControllerRef(CLAIM, k, q.claim.meta.uid)]
    ensures Inv(Placed(m, k, sb, m.st.nextUid + 1).(passes := m.passes[k := q]))
  {
    var next := m.st.nextUid + 1;
    var m1 := Placed(m, k, sb, next);
    assert ControllerUid(sb.meta.owners) == q.claim.meta.uid;
    PlacedMinted(m, k, sb, next);
    PlacedDistinct(m, k, sb, next);
    PlacedSwaps(m, k, sb, next);
    PlacedForClaim(m, k, sb, next, k, q);
    PlacedAdoptions(m, k, sb, next);
    Repassed(m, m1, k, q);
  }

  /** The system after a step of the pass under k, by where the pass is. */
  lemma DoPassIs(m: System, k: Name, draw: Draw)
    requires k in m.passes
    ensures var p := m.passes[k]; var m2 := DoPass(m, k, draw);
      && (p.at.AtDrop? ==>
            m2 == Moving(m, DropSandbox(m.st, p.claim.status.sandbox), k,
                         p.(at := AtNotReady("ClaimExpired", "Sandbox cleanup initiated."))))
      && (p.at.AtAnnotate? ==> m2 == Moving(m, Annotate(m.st, k, p.at.bound), k, p.(at := AtStatus(p.at.bound, p.at.sandbox))))
      && (p.at.AtDeleteClaim? && k in m.st.claims ==>
            m2 == m.(st := m.st.(claims := m.st.claims - {k}, rv := m.st.rv + 1), passes := m.passes - {k}))
      && (p.at.AtDeleteClaim? && k !in m.st.claims ==> m2 == m.(passes := m.passes - {k}))
      && (p.at.AtStatus? || p.at.AtNotReady? ==>
            m2 == m.(st := WriteStatus(m.st, k, FinalStatus(m, p)), passes := m.passes - {k}))
  {
  }

  function Moving(m: System, st: Store, k: Name, p: Pass): System {
    m.(st := st, passes := m.passes[k := p])
  }

  function FinalStatus(m: System, p: Pass): ClaimStatus
    requires p.at.AtStatus? || p.at.AtNotReady?
  {
    if p.at.AtStatus? then BoundStatus(p, p.at.bound, p.at.sandbox, m.st.now)
    else NotReady(p.claim, p.at.reason, p.at.message, m.st.now)
  }

  lemma DropIsQuiet(st: Store, n: Name)
    ensures Quiet(st, DropSandbox(st, n)) && DropSandbox(st, n).claims == st.claims
  {
  }

  /** The two passes allow the same names. */
  ghost predicate AllowAlike(p: Pass, q: Pass) {
    q.claim == p.claim && !q.at.AtSwap? && forall n :: Allows(p, n) <==> Allows(q, n)
  }

  /** A pass that goes on to where it allows what it allowed. */
  lemma WentOn(m: System, k: Name, p: Pass)
    requires Inv(m) && k in m.passes && AllowAlike(m.passes[k], p)
    ensures Inv(m.(passes := m.passes[k := p]))
  {
    Looked(m, k, p);
  }

  lemma DropStepKeepsInv(m: System, k: Name, p: Pass)
    requires Inv(m) && k in m.passes && m.passes[k].at.AtDrop?
    requires p == m.passes[k].(at := AtNotReady("ClaimExpired", "Sandbox cleanup initiated."))
    ensures Inv(Moving(m, DropSandbox(m.st, p.claim.status.sandbox), k, p))
  {
    DropIsQuiet(m.st, p.claim.status.sandbox);
    var m1 := m.(st := DropSandbox(m.st, p.claim.status.sandbox));
    SandboxesMove(m, m1);
    WentOn(m1, k, p);
  }

  lemma AnnotatedKeepsInv(m: System, k: Name, n: Name)
    requires Inv(m)
    ensures Inv(m.(st := Annotate(m.st, k, n)))
  {
    if k in m.st.claims {
      var st1 := Annotate(m.st, k, n);
      Rewritten(m, k, st1.claims[k], st1.rv);
    }
  }

  lemma AnnotateStepKeepsInv(m: System, k: Name)
    requires Inv(m) && k in m.passes && m.passes[k].at.AtAnnotate?
    ensures var p := m.passes[k];
      Inv(Moving(m, Annotate(m.st, k, p.at.bound), k, p.(at := AtStatus(p.at.bound, p.at.sandbox))))
  {
    var p := m.passes[k];
    AnnotatedKeepsInv(m, k, p.at.bound);
    WentOn(m.(st := Annotate(m.st, k, p.at.bound)), k, p.(at := AtStatus(p.at.bound, p.at.sandbox)));
  }

  function ColdSandbox(st: Store, k: Name, p: Pass, spec: SandboxSpec): Sandbox {
    Created(st.nextUid, st.rv + 1, st.now, [ControllerRef(CLAIM, k, p.claim.meta.uid)], spec, NO_STATUS)
  }

  /** What a step of a pass may do to the sandboxes: nothing, a deletion, a takeover or a creation. */
  lemma AdvanceSandboxes(st: Store, k: Name, p: Pass, draw: Draw)
    ensures var out := Advance(st, k, p, draw).store.sandboxes;
      || out == st.sandboxes
      || (p.at.AtDrop? && out == st.sandboxes - {p.claim.status.sandbox})
      || (p.at.AtSwap? && Swap(st, k, p).adopted.Some? && out == Swap(st, k, p).store.sandboxes)
      || (p.at.AtCreate? && k !in st.sandboxes && draw.built.Ok? && out == st.sandboxes[k := ColdSandbox(st, k, p, draw.built.value)])
  {
    match p.at
    case AtSwap(_, _, _) =>
    case AtCreate =>
    case AtStatus(n, sb) => assert Advance(st, k, p, draw).store == WriteStatus(st, k, BoundStatus(p, n, sb, st.now));
    case AtNotReady(r, m) => assert Advance(st, k, p, draw).store == WriteStatus(st, k, NotReady(p.claim, r, m, st.now));
    case AtAnnotate(n, _) => assert Advance(st, k, p, draw).store == Annotate(st, k, n);
    case _ =>
  }

  lemma LookingStepKeepsInv(m: System, k: Name, draw: Draw)
    requires Inv(m) && k in m.passes
    requires var moved := Advance(m.st, k, m.passes[k], draw); moved.store == m.st && moved.pass.Some? && moved.adopted.None?
    ensures Inv(DoPass(m, k, draw))
  {
    var moved := Advance(m.st, k, m.passes[k], draw);
    LookedAhead(m, k, draw);
    Looked(m, k, moved.pass.value);
    assert DoPass(m, k, draw) == m.(passes := m.passes[k := moved.pass.value]);
  }

  lemma LookedAhead(m: System, k: Name, draw: Draw)
    requires SwapsAreCurrent(m) && k in m.passes
    requires var moved := Advance(m.st, k, m.passes[k], draw); moved.store == m.st && moved.pass.Some? && moved.adopted.None?
    ensures var p := Advance(m.st, k, m.passes[k], draw).pass.value;
      && p.claim == m.passes[k].claim
      && (forall n :: Controls(m.st, n, p.claim.meta.uid) && Allows(m.passes[k], n) ==> Allows(p, n))
      && (p.at.AtSwap? ==>
            && p.at.pick in m.st.sandboxes && m.st.sandboxes[p.at.pick] == p.at.seen
            && OwnedBy(p.at.seen.meta.owners, POOL, p.claim.spec.pool))
  {
  }

  lemma FinalStatusNames(m: System, k: Name)
    requires Minted(m) && PassesHold(m) && k in m.passes && (m.passes[k].at.AtStatus? || m.passes[k].at.AtNotReady?)
    ensures forall n :: Controls(m.st, n, m.passes[k].claim.meta.uid) ==> n == FinalStatus(m, m.passes[k]).sandbox && n != ""
  {
    forall n | Controls(m.st, n, m.passes[k].claim.meta.uid) ensures n == FinalStatus(m, m.passes[k]).sandbox && n != "" {
      assert Allows(m.passes[k], n);
    }
  }

  lemma PassGone(m: System, k: Name)
    requires Inv(m) && k in m.passes && k !in m.st.claims
    ensures Inv(m.(passes := m.passes - {k}))
  {
    var m2 := m.(passes := m.passes - {k});
    assert Minted(m2) && SwapsAreCurrent(m2) && ClaimsHold(m2) && PassesHold(m2);
  }

  lemma EndingStepKeepsInv(m: System, k: Name, draw: Draw)
    requires Inv(m) && k in m.passes && (m.passes[k].at.AtDeleteClaim? || m.passes[k].at.AtStatus? || m.passes[k].at.AtNotReady?)
    ensures Inv(DoPass(m, k, draw))
  {
    DoPassIs(m, k, draw);
    if m.passes[k].at.AtDeleteClaim? {
      if k in m.st.claims {
        EndedWithDelete(m, k, m.st.rv + 1);
      } else {
        PassGone(m, k);
      }
    } else {
      FinalStatusNames(m, k);
      EndedWithStatus(m, k, FinalStatus(m, m.passes[k]));
    }
  }

  lemma WritingStepKeepsInv(m: System, k: Name, draw: Draw)
    requires Inv(m) && k in m.passes && (m.passes[k].at.AtAnnotate? || m.passes[k].at.AtDrop?)
    ensures Inv(DoPass(m, k, draw))
  {
    DoPassIs(m, k, draw);
    if m.passes[k].at.AtAnnotate? {
      AnnotateStepKeepsInv(m, k);
    } else {
      DropStepKeepsInv(m, k, m.passes[k].(at := AtNotReady("ClaimExpired", "Sandbox cleanup initiated.")));
    }
  }

  lemma CreatingStepKeepsInv(m: System, k: Name, draw: Draw)
    requires Inv(m) && k in m.passes && m.passes[k].at.AtCreate? && draw.built.Ok? && k !in m.st.sandboxes
    ensures Inv(DoPass(m, k, draw))
  {
    ColdDoes(m, k, draw);
    var sb := DoPass(m, k, draw).st.sandboxes[k];
    ColdCreated(m, k, sb, m.passes[k].(at := AtStatus(k, sb)));
  }

  lemma PassStepKeepsInv(m: System, k: Name, draw: Draw)
    requires Inv(m) && k in m.passes
    ensures Inv(DoPass(m, k, draw))
  {
    var at := m.passes[k].at;
    if at.AtAnnotate? || at.AtDrop? {
      WritingStepKeepsInv(m, k, draw);
    } else if at.AtDeleteClaim? || at.AtStatus? || at.AtNotReady? {
      EndingStepKeepsInv(m, k, draw);
    } else if at.AtCreate? && draw.built.Ok? && k !in m.st.sandboxes {
      CreatingStepKeepsInv(m, k, draw);
    } else if at.AtSwap? && Swap(m.st, k, m.passes[k]).adopted.Some? {
      Swapped(m, k, draw);
    } else {
      LookingStepKeepsInv(m, k, draw);
    }
  }

  lemma StepKeepsInv(m: System, s: Step)
    requires Inv(m) && Enabled(m, s)
    ensures Inv(Do(m, s))
  {
    match s
    case Begin(k) => Begun(m, k);
    case PassStep(k, draw) => PassStepKeepsInv(m, k, draw);
    case CreateClaim(k, spec, status) => ClaimCreated(m, k, spec, status);
    case EditClaim(k, spec) => ClaimEdited(m, k, spec);
    case DeleteClaim(k) => ClaimGone(m, k);
    case CreateSandbox(n, owners, spec) => SandboxCreated(m, n, owners, spec);
    case _ => OtherStepKeepsInv(m, s);
  }

  lemma OtherStepKeepsInv(m: System, s: Step)
    requires Inv(m) && Enabled(m, s)
    requires !s.Begin? && !s.PassStep? && !s.CreateClaim? && !s.EditClaim? && !s.DeleteClaim? && !s.CreateSandbox?
    ensures Inv(Do(m, s))
  {
    OthersAreQuiet(m, s);
    SandboxesMove(m, Do(m, s));
  }

  lemma OthersAreQuiet(m: System, s: Step)
    requires Enabled(m, s) && !s.Begin? && !s.PassStep? && !s.CreateClaim? && !s.EditClaim? && !s.DeleteClaim? && !s.CreateSandbox?
    ensures SameHistory(m, Do(m, s)) && Do(m, s).st.claims == m.st.claims && Quiet(m.st, Do(m, s).st)
  {
  }

  lemma {:induction false} RunKeepsInv(m: System, steps: seq<Step>)
    requires Inv(m) && CanRun(m, steps)
    ensures Inv(After(m, steps))
    decreases |steps|
  {
    if steps != [] {
      StepKeepsInv(m, steps[0]);
      RunKeepsInv(Do(m, steps[0]), steps[1..]);
    }
  }
}
