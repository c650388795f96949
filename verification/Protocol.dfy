/**
 * Claim passes and sandbox garbage collection as a protocol over the store: every store call is
 * one step, passes for one claim never overlap, everything else interleaves freely.
 */
module Protocol {
  import opened Prelude
  import opened Conditions
  import opened Cluster

  /** The store's contents, as far as binding is concerned, and its counters. */
  datatype Store = Store(
    claims: map<Name, Claim>,
    pools: map<Name, Pool>,
    templates: map<Name, Template>,
    sandboxes: map<Name, Sandbox>,
    nextUid: Uid,
    rv: nat,
    now: int)

  // ---- A claim pass ----

  /** Where a claim pass is: the store call it makes next, with what it carries there. */
  datatype At =
    | AtExpiry
    | AtPool
    | AtTemplate(template: Name)
    | AtExisting
    | AtList
    | AtPick(pick: Name, attempt: nat)
    | AtSwap(pick: Name, seen: Sandbox, attempt: nat)
    | AtCreate
    | AtRecheck
    | AtAnnotate(bound: Name, sandbox: Sandbox)
    | AtStatus(bound: Name, sandbox: Sandbox)
    | AtNotReady(reason: string, message: string)
    | AtDeleteClaim
    | AtDropCheck
    | AtDrop

  /** One claim pass: the claim as it read it, and where it is. */
  datatype Pass = Pass(claim: Claim, at: At)

  /** sandbox went to claim. */
  datatype Adoption = Adoption(sandbox: Uid, claim: Uid)

  const ATTEMPTS: nat := 5

  /** The outcome of one step of a pass: no pass means that it ended. */
  datatype Moved = Moved(store: Store, pass: Option<Pass>, adopted: Option<Adoption>)

  predicate Candidate(st: Store, pool: Name, n: Name) {
    n in st.sandboxes && OwnedBy(st.sandboxes[n].meta.owners, POOL, pool) && !st.sandboxes[n].meta.deleting
  }

  /** The head of the candidate list sorted ready first; the sort leaves the order of ties open. */
  predicate MayPick(st: Store, pool: Name, n: Name) {
    && Candidate(st, pool, n)
    && (IsReady(st.sandboxes[n]) || forall other <- st.sandboxes :: Candidate(st, pool, other) ==> !IsReady(st.sandboxes[other]))
  }

  function PutSandbox(st: Store, n: Name, sb: Sandbox): Store {
    st.(sandboxes := st.sandboxes[n := sb], rv := st.rv + 1)
  }

  function DropSandbox(st: Store, n: Name): Store {
    if n in st.sandboxes then st.(sandboxes := st.sandboxes - {n}, rv := st.rv + 1) else st
  }

  /** The claim's status, written under its name to whatever claim has that name now. */
  function WriteStatus(st: Store, k: Name, status: ClaimStatus): Store {
    if k in st.claims then
      st.(claims := st.claims[k := StatusWritten(st.claims[k], status, st.rv + 1)], rv := st.rv + 1)
    else st
  }

  function Annotate(st: Store, k: Name, sandbox: Name): Store {
    if k in st.claims then
      var c := st.claims[k];
      var note := c.meta.annotations["agents.x-k8s.io/assigned-sandbox-name" := sandbox];
      st.(claims := st.claims[k := c.(meta := c.meta.(annotations := note, rv := st.rv + 1))], rv := st.rv + 1)
    else st
  }

  /** The sandbox as a claim takes it over. */
  function Adopted(seen: Sandbox, k: Name, claim: Uid): Sandbox {
    seen.(meta := seen.meta.(owners := [ControllerRef(CLAIM, k, claim)]))
  }

  function BoundStatus(p: Pass, bound: Name, sandbox: Sandbox, now: int): ClaimStatus {
    ClaimStatus(Mirror(p.claim.status.conditions, sandbox.status.conditions, p.claim.meta.generation, now),
                bound, sandbox.status.podIPs)
  }

  /** What a step of a pass draws from outside: the list's head, and what the template builds, or why it does not. */
  datatype Draw = Draw(pick: Name, built: Result<SandboxSpec, string>)

  function Enter(p: Pass, now: int): At {
    if !Expired(p.claim, now) then AtPool
    else if p.claim.spec.lifecycle.value.policy != Retain then AtDeleteClaim
    else if p.claim.status.sandbox != "" then AtDropCheck
    else AtNotReady("ClaimExpired", "Sandbox cleanup initiated.")
  }

  function Existing(st: Store, p: Pass): At {
    var s := p.claim.status.sandbox;
    if s != "" && s in st.sandboxes && ControllerUid(st.sandboxes[s].meta.owners) == p.claim.meta.uid then
      AtStatus(s, st.sandboxes[s])
    else if p.claim.spec.env != [] || p.claim.spec.vcts != [] then AtCreate
    else AtList
  }

  function Pick(st: Store, p: Pass, pick: Name, attempt: nat): At {
    if pick in st.sandboxes && OwnedBy(st.sandboxes[pick].meta.owners, POOL, p.claim.spec.pool)
    then AtSwap(pick, st.sandboxes[pick], attempt)
    else AtCreate
  }

  /** The compare-and-swap: it succeeds only on the version that was read. */
  function Swap(st: Store, k: Name, p: Pass): Moved
    requires p.at.AtSwap?
  {
    var n, seen := p.at.pick, p.at.seen;
    if n !in st.sandboxes then Moved(st, Some(p.(at := AtCreate)), None)
    else if st.sandboxes[n].meta.rv != seen.meta.rv then
      Moved(st, Some(p.(at := if p.at.attempt + 1 < ATTEMPTS then AtPick(n, p.at.attempt + 1) else AtCreate)), None)
    else
      var sb := Written(st.sandboxes[n], Adopted(seen, k, p.claim.meta.uid), st.rv + 1);
      Moved(PutSandbox(st, n, sb), Some(p.(at := AtAnnotate(n, sb))), Some(Adoption(sb.meta.uid, p.claim.meta.uid)))
  }

  function ColdCreate(st: Store, k: Name, p: Pass, built: Result<SandboxSpec, string>): Moved {
    if built.Err? then
      Moved(st, Some(p.(at := AtNotReady(built.error, "Error seen"))), None)
    else if k in st.sandboxes then Moved(st, Some(p.(at := AtRecheck)), None)
    else
      var sb := Created(st.nextUid, st.rv + 1, st.now, [ControllerRef(CLAIM, k, p.claim.meta.uid)], built.value, NO_STATUS);
      Moved(PutSandbox(st, k, sb).(nextUid := st.nextUid + 1), Some(p.(at := AtStatus(k, sb))), None)
  }

  function Recheck(st: Store, k: Name, p: Pass): At {
    if k in st.sandboxes && ControllerUid(st.sandboxes[k].meta.owners) == p.claim.meta.uid
    then AtStatus(k, st.sandboxes[k])
    else AtNotReady("ReconcilerError", "Error seen")
  }

  /** The next store call of the pass for claim k. */
  function Advance(st: Store, k: Name, p: Pass, draw: Draw): Moved {
    match p.at
    case AtExpiry => Moved(st, Some(p.(at := Enter(p, st.now))), None)
    case AtPool =>
      Moved(st, Some(p.(at := if p.claim.spec.pool in st.pools
                              then AtTemplate(st.pools[p.claim.spec.pool].spec.template)
                              else AtNotReady("WarmPoolNotFound", "SandboxWarmPool not found"))), None)
    case AtTemplate(t) =>
      Moved(st, Some(p.(at := if t in st.templates then AtExisting
                              else AtNotReady("TemplateNotFound", "SandboxTemplate not found"))), None)
    case AtExisting => Moved(st, Some(p.(at := Existing(st, p))), None)
    case AtList =>
      Moved(st, Some(p.(at := if MayPick(st, p.claim.spec.pool, draw.pick) then AtPick(draw.pick, 0) else AtCreate)), None)
    case AtPick(n, attempt) => Moved(st, Some(p.(at := Pick(st, p, n, attempt))), None)
    case AtSwap(_, _, _) => Swap(st, k, p)
    case AtCreate => ColdCreate(st, k, p, draw.built)
    case AtRecheck => Moved(st, Some(p.(at := Recheck(st, k, p))), None)
    case AtAnnotate(n, sb) => Moved(Annotate(st, k, n), Some(p.(at := AtStatus(n, sb))), None)
    case AtStatus(n, sb) => Moved(WriteStatus(st, k, BoundStatus(p, n, sb, st.now)), None, None)
    case AtNotReady(reason, message) => Moved(WriteStatus(st, k, NotReady(p.claim, reason, message, st.now)), None, None)
    case AtDeleteClaim =>
      Moved(if k in st.claims then st.(claims := st.claims - {k}, rv := st.rv + 1) else st, None, None)
    case AtDropCheck =>
      var s := p.claim.status.sandbox;
      Moved(st, Some(p.(at := if s in st.sandboxes && ControllerUid(st.sandboxes[s].meta.owners) == p.claim.meta.uid
                              then AtDrop else AtNotReady("ClaimExpired", "Sandbox cleanup initiated."))), None)
    case AtDrop =>
      Moved(DropSandbox(st, p.claim.status.sandbox),
            Some(p.(at := AtNotReady("ClaimExpired", "Sandbox cleanup initiated."))), None)
  }

  // ---- Orphan collection ----

  /** An owner reference that must be a live claim or pool, and is not. */
  predicate Dangling(st: Store, ref: OwnerRef) {
    && ref.controller
    && ((ref.kind == CLAIM && (ref.name !in st.claims || (ref.uid != 0 && st.claims[ref.name].meta.uid != ref.uid)))
        || (ref.kind == POOL && (ref.name !in st.pools || (ref.uid != 0 && st.pools[ref.name].meta.uid != ref.uid))))
  }

  predicate Orphaned(st: Store, owners: seq<OwnerRef>) {
    exists i :: 0 <= i < |owners| && Dangling(st, owners[i])
  }

  /**
   * The start of a sandbox pass: looking up owner i of the sandbox as it was read, or about to delete
   * it because that owner was not found.
   */
  datatype Check =
    | Check(uid: Uid, owners: seq<OwnerRef>, i: nat)
    | Doomed(uid: Uid, owners: seq<OwnerRef>, i: nat)

  // ---- The protocol ----

  /**
   * claimUids gives the name under which every claim UID was ever minted; adoptions lists the
   * takeovers so far. The source keeps neither and no step of the source's looks at them.
   */
  datatype System = System(
    st: Store,
    passes: map<Name, Pass>,
    checks: map<Name, Check>,
    claimUids: map<Uid, Name>,
    adoptions: seq<Adoption>)

  /**
   * The first three are the claim controller's and the next three the garbage collector's. The
   * others stand for users and for everything else the controllers do: pool passes create
   * sandboxes owned by a pool they read at any earlier time, and trimming, cascades and expiry
   * delete sandboxes by name at any time.
   */
  datatype Step =
    | Begin(k: Name)
    | PassStep(k: Name, draw: Draw)
    | Tick(seconds: nat)
    | ReadSandbox(n: Name)
    | JudgeOwner(n: Name)
    | Collect(n: Name)
    | CreateClaim(k: Name, claimSpec: ClaimSpec, claimStatus: ClaimStatus)
    | EditClaim(k: Name, claimSpec: ClaimSpec)
    | DeleteClaim(k: Name)
    | CreatePool(k: Name, poolSpec: PoolSpec)
    | EditPool(k: Name, poolSpec: PoolSpec)
    | DeletePool(k: Name)
    | PutTemplate(k: Name, template: Template)
    | DeleteTemplate(k: Name)
    | CreateSandbox(n: Name, owners: seq<OwnerRef>, spec: SandboxSpec)
    | WriteSandbox(n: Name, sandbox: Sandbox)
    | DeleteSandbox(n: Name)

  /**
   * What may happen. Of the world outside it is only asked that nobody but a claim pass names a
   * claim as a sandbox's owner, and that writes keep a sandbox's identity and owners.
   */
  predicate Enabled(m: System, s: Step) {
    match s
    case Begin(k) => k in m.st.claims && k !in m.passes
    case PassStep(k, draw) =>
      k in m.passes &&
      (m.passes[k].at.AtList? ==>
         || MayPick(m.st, m.passes[k].claim.spec.pool, draw.pick)
         || forall n <- m.st.sandboxes :: !Candidate(m.st, m.passes[k].claim.spec.pool, n))
    case Tick(_) => true
    case ReadSandbox(n) => n in m.st.sandboxes && n !in m.checks
    case JudgeOwner(n) => n in m.checks && m.checks[n].Check?
    case Collect(n) => n in m.checks && m.checks[n].Doomed?
    case CreateClaim(k, _, _) => k != "" && k !in m.st.claims
    case EditClaim(k, _) => k in m.st.claims
    case DeleteClaim(k) => k in m.st.claims
    case CreatePool(k, _) => k !in m.st.pools
    case EditPool(k, _) => k in m.st.pools
    case DeletePool(k) => k in m.st.pools
    case PutTemplate(k, _) => true
    case DeleteTemplate(k) => true
    case CreateSandbox(n, owners, _) =>
      && n != "" && n !in m.st.sandboxes
      && forall ref <- owners :: ref.uid < m.st.nextUid && ref.uid !in m.claimUids
    case WriteSandbox(n, sb) =>
      n in m.st.sandboxes && sb.meta.uid == m.st.sandboxes[n].meta.uid && sb.meta.owners == m.st.sandboxes[n].meta.owners
    case DeleteSandbox(n) => n in m.st.sandboxes
  }

  function DoPass(m: System, k: Name, draw: Draw): System
    requires k in m.passes
  {
    var moved := Advance(m.st, k, m.passes[k], draw);
    m.(st := moved.store,
       passes := if moved.pass.Some? then m.passes[k := moved.pass.value] else m.passes - {k},
       adoptions := m.adoptions + if moved.adopted.Some? then [moved.adopted.value] else [])
  }

  function Judge(st: Store, c: Check): Option<Check>
    requires c.Check?
  {
    if c.i >= |c.owners| then None
    else if Dangling(st, c.owners[c.i]) then Some(Doomed(c.uid, c.owners, c.i))
    else Some(Check(c.uid, c.owners, c.i + 1))
  }

  function Do(m: System, s: Step): System
    requires Enabled(m, s)
  {
    var st := m.st;
    match s
    case Begin(k) => m.(passes := m.passes[k := Pass(st.claims[k], AtExpiry)])
    case PassStep(k, draw) => DoPass(m, k, draw)
    case Tick(d) => m.(st := st.(now := st.now + d))
    case ReadSandbox(n) => m.(checks := m.checks[n := Check(st.sandboxes[n].meta.uid, st.sandboxes[n].meta.owners, 0)])
    case JudgeOwner(n) =>
      var next := Judge(st, m.checks[n]);
      m.(checks := if next.Some? then m.checks[n := next.value] else m.checks - {n})
    case Collect(n) => m.(st := DropSandbox(st, n), checks := m.checks - {n})
    case CreateClaim(k, spec, status) =>
      m.(st := st.(claims := st.claims[k := Created(st.nextUid, st.rv + 1, st.now, [], spec, status)],
                   nextUid := st.nextUid + 1, rv := st.rv + 1),
         claimUids := m.claimUids[st.nextUid := k])
    case EditClaim(k, spec) =>
      m.(st := st.(claims := st.claims[k := Written(st.claims[k], st.claims[k].(spec := spec), st.rv + 1)], rv := st.rv + 1))
    case DeleteClaim(k) => m.(st := st.(claims := st.claims - {k}, rv := st.rv + 1))
    case CreatePool(k, spec) =>
      m.(st := st.(pools := st.pools[k := Created(st.nextUid, st.rv + 1, st.now, [], spec, PoolStatus(0, 0))],
                   nextUid := st.nextUid + 1, rv := st.rv + 1))
    case EditPool(k, spec) =>
      m.(st := st.(pools := st.pools[k := Written(st.pools[k], st.pools[k].(spec := spec), st.rv + 1)], rv := st.rv + 1))
    case DeletePool(k) => m.(st := st.(pools := st.pools - {k}, rv := st.rv + 1))
    case PutTemplate(k, t) => m.(st := st.(templates := st.templates[k := t], rv := st.rv + 1))
    case DeleteTemplate(k) => m.(st := st.(templates := st.templates - {k}, rv := st.rv + 1))
    case CreateSandbox(n, owners, spec) =>
      m.(st := PutSandbox(st, n, Created(st.nextUid, st.rv + 1, st.now, owners, spec, NO_STATUS)).(nextUid := st.nextUid + 1))
    case WriteSandbox(n, sb) => m.(st := PutSandbox(st, n, sb.(meta := sb.meta.(rv := st.rv + 1))))
    case DeleteSandbox(n) => m.(st := DropSandbox(st, n))
  }

  predicate CanRun(m: System, steps: seq<Step>)
    decreases |steps|
  {
    steps == [] || (Enabled(m, steps[0]) && CanRun(Do(m, steps[0]), steps[1..]))
  }

  function After(m: System, steps: seq<Step>): System
    requires CanRun(m, steps)
    decreases |steps|
  {
    if steps == [] then m else After(Do(m, steps[0]), steps[1..])
  }

  /** An empty store and nothing under way. */
  function Empty(now: int): System {
    System(Store(map[], map[], map[], map[], 1, 0, now), map[], map[], map[], [])
  }

  // ---- What every step keeps ----

  predicate Controls(st: Store, n: Name, uid: Uid) {
    n in st.sandboxes && ControllerUid(st.sandboxes[n].meta.owners) == uid
  }

  /** UIDs and versions in use were minted, a claim UID stands for one name, and UIDs are not shared. */
  ghost predicate Minted(m: System) {
    && 0 < m.st.nextUid
    && "" !in m.st.sandboxes && "" !in m.st.claims && "" !in m.passes
    && (forall n <- m.st.sandboxes :: 0 < m.st.sandboxes[n].meta.uid < m.st.nextUid && m.st.sandboxes[n].meta.rv <= m.st.rv)
    && (forall n <- m.st.sandboxes :: ControllerUid(m.st.sandboxes[n].meta.owners) < m.st.nextUid)
    && (forall u <- m.claimUids :: 0 < u < m.st.nextUid)
    && (forall k <- m.st.claims :: m.st.claims[k].meta.uid in m.claimUids && m.claimUids[m.st.claims[k].meta.uid] == k)
    && (forall k <- m.passes :: m.passes[k].claim.meta.uid in m.claimUids && m.claimUids[m.passes[k].claim.meta.uid] == k)
  }

  ghost predicate Distinct(m: System) {
    forall a, b :: a in m.st.sandboxes && b in m.st.sandboxes && a != b ==>
      m.st.sandboxes[a].meta.uid != m.st.sandboxes[b].meta.uid
  }

  /** A version a pass holds is the stored sandbox whenever the two versions agree. */
  ghost predicate SwapsAreCurrent(m: System) {
    forall k <- m.passes :: m.passes[k].at.AtSwap? ==>
      var n, seen := m.passes[k].at.pick, m.passes[k].at.seen;
      && seen.meta.rv <= m.st.rv
      && OwnedBy(seen.meta.owners, POOL, m.passes[k].claim.spec.pool)
      && (n in m.st.sandboxes && m.st.sandboxes[n].meta.rv == seen.meta.rv ==> m.st.sandboxes[n] == seen)
  }

  /** The name under which a sandbox of the claim may exist while its pass is where it is; none after a failed lookup. */
  predicate Allows(p: Pass, n: Name) {
    match p.at
    case AtList | AtPick(_, _) | AtSwap(_, _, _) | AtCreate | AtRecheck => false
    case AtAnnotate(bound, _) => n == bound
    case AtStatus(bound, _) => n == bound
    case AtExpiry | AtPool | AtTemplate(_) | AtExisting | AtNotReady(_, _) | AtDeleteClaim | AtDropCheck | AtDrop =>
      n == p.claim.status.sandbox && n != ""
  }

  ghost predicate PassesHold(m: System) {
    forall k, n :: k in m.passes && Controls(m.st, n, m.passes[k].claim.meta.uid) ==> Allows(m.passes[k], n)
  }

  /** A claim's status names its sandbox while no pass of it runs; a pass of an earlier claim means it has none. */
  ghost predicate ClaimsHold(m: System) {
    forall k, n :: k in m.st.claims && Controls(m.st, n, m.st.claims[k].meta.uid) ==>
      if k !in m.passes then n == m.st.claims[k].status.sandbox && n != ""
      else m.passes[k].claim.meta.uid == m.st.claims[k].meta.uid
  }

  /** Nobody writes a claim's binding behind its pass. */
  ghost predicate StatusIsSeen(m: System) {
    forall k :: k in m.passes && k in m.st.claims && m.passes[k].claim.meta.uid == m.st.claims[k].meta.uid ==>
      m.passes[k].claim.status == m.st.claims[k].status
  }

  ghost predicate OneEach(m: System) {
    forall a, b, u :: u in m.claimUids && Controls(m.st, a, u) && Controls(m.st, b, u) ==> a == b
  }

  /** Every sandbox taken over so far is gone or still its claim's alone, and none was taken over twice. */
  ghost predicate AdoptionsHold(m: System) {
    && (forall i, j :: 0 <= i < j < |m.adoptions| ==> m.adoptions[i].sandbox != m.adoptions[j].sandbox)
    && (forall i :: 0 <= i < |m.adoptions| ==> m.adoptions[i].sandbox < m.st.nextUid && m.adoptions[i].claim in m.claimUids)
    && (forall i, n :: 0 <= i < |m.adoptions| && n in m.st.sandboxes && m.st.sandboxes[n].meta.uid == m.adoptions[i].sandbox ==>
          m.st.sandboxes[n].meta.owners == [ControllerRef(CLAIM, m.claimUids[m.adoptions[i].claim], m.adoptions[i].claim)])
  }

  ghost predicate Inv(m: System) {
    && Minted(m) && Distinct(m) && SwapsAreCurrent(m)
    && PassesHold(m) && ClaimsHold(m) && StatusIsSeen(m) && OneEach(m)
    && AdoptionsHold(m)
  }
}
