/**
 * When orphan collection is exact although passes interleave: what a sandbox pass deletes is an
 * orphan, unless the sandbox it read was taken over or deleted in between, or the owner it missed
 * had no UID and came back.
 */
module Exactness {
  import opened Prelude
  import opened Cluster
  import opened Protocol
  import opened ProtocolInv
  import opened Binding
  import opened Collection

  // ---- Owners that are gone stay gone ----

  ghost predicate RefsMinted(next: Uid, owners: seq<OwnerRef>) {
    forall i :: 0 <= i < |owners| ==> owners[i].uid < next
  }

  /** Claims and pools keep their UIDs, and new ones have the next one. */
  ghost predicate OwnersAreOld(st: Store, st2: Store) {
    && st.nextUid <= st2.nextUid
    && (forall k <- st2.claims ::
          (k in st.claims && st2.claims[k].meta.uid == st.claims[k].meta.uid) || st2.claims[k].meta.uid == st.nextUid)
    && (forall k <- st2.pools ::
          (k in st.pools && st2.pools[k].meta.uid == st.pools[k].meta.uid) || st2.pools[k].meta.uid == st.nextUid)
  }

  lemma PassOwnersAreOld(m: System, k: Name, draw: Draw)
    requires k in m.passes
    ensures OwnersAreOld(m.st, DoPass(m, k, draw).st)
  {
    var p := m.passes[k];
    match p.at
    case AtStatus(n, sb) => WriteIsOld(m.st, k, BoundStatus(p, n, sb, m.st.now));
    case AtNotReady(reason, message) => WriteIsOld(m.st, k, NotReady(p.claim, reason, message, m.st.now));
    case AtAnnotate(n, _) => AnnotateIsOld(m.st, k, n);
    case AtDeleteClaim =>
    case _ => OthersLeaveOwners(m.st, k, p, draw);
      UidsOnlyGrow(m.st, k, p, draw);
  }

  lemma WriteIsOld(st: Store, k: Name, status: ClaimStatus)
    ensures OwnersAreOld(st, WriteStatus(st, k, status))
  {
  }

  lemma AnnotateIsOld(st: Store, k: Name, n: Name)
    ensures OwnersAreOld(st, Annotate(st, k, n))
  {
  }

  lemma UidsOnlyGrow(st: Store, k: Name, p: Pass, draw: Draw)
    requires !p.at.AtStatus? && !p.at.AtNotReady? && !p.at.AtAnnotate? && !p.at.AtDeleteClaim?
    ensures st.nextUid <= Advance(st, k, p, draw).store.nextUid
  {
  }

  lemma StepOwnersAreOld(m: System, s: Step)
    requires Enabled(m, s)
    ensures OwnersAreOld(m.st, Do(m, s).st)
  {
    match s
    case PassStep(k, draw) => PassOwnersAreOld(m, k, draw);
    case _ =>
  }

  /** UIDs are not reissued, so an owner with a UID that is gone, or was replaced, is gone for good. */
  lemma DanglingStays(m: System, s: Step, ref: OwnerRef)
    requires Enabled(m, s) && Dangling(m.st, ref) && 0 < ref.uid < m.st.nextUid
    ensures Dangling(Do(m, s).st, ref)
  {
    StepOwnersAreOld(m, s);
  }

  // ---- What a pass that is about to delete has found ----

  /** The owner a pass did not find: without a UID it may have come back, with one it is still gone. */
  ghost predicate StillMissed(st: Store, ref: OwnerRef) {
    && ref.controller && (ref.kind == CLAIM || ref.kind == POOL)
    && (ref.uid != 0 ==> Dangling(st, ref))
  }

  ghost predicate RefsKnown(m: System) {
    && (forall n <- m.st.sandboxes :: RefsMinted(m.st.nextUid, m.st.sandboxes[n].meta.owners))
    && (forall n <- m.checks :: RefsMinted(m.st.nextUid, m.checks[n].owners) && m.checks[n].uid < m.st.nextUid)
  }

  ghost predicate Missed(m: System) {
    forall n <- m.checks :: m.checks[n].Doomed? ==>
      m.checks[n].i < |m.checks[n].owners| && StillMissed(m.st, m.checks[n].owners[m.checks[n].i])
  }

  lemma RefsStayKnown(m: System, s: Step)
    requires Inv(m) && RefsKnown(m) && Enabled(m, s)
    ensures RefsKnown(Do(m, s))
  {
    StepOwnersAreOld(m, s);
    var m2 := Do(m, s);
    forall n | n in m2.st.sandboxes ensures RefsMinted(m2.st.nextUid, m2.st.sandboxes[n].meta.owners) {
      if n in m.st.sandboxes && m2.st.sandboxes[n].meta.owners == m.st.sandboxes[n].meta.owners {
        assert RefsMinted(m.st.nextUid, m.st.sandboxes[n].meta.owners);
      } else if n in m.st.sandboxes {
        OwnersChangeByTakeoverOnly(m, s, n);
        PassUidMinted(m, s.k);
      } else {
        NewcomerRefs(m, s, n);
      }
    }
    forall n | n in m2.checks ensures RefsMinted(m2.st.nextUid, m2.checks[n].owners) && m2.checks[n].uid < m2.st.nextUid {
      CheckComesFrom(m, s, n);
    }
  }

  lemma PassUidMinted(m: System, k: Name)
    requires Minted(m) && k in m.passes
    ensures m.passes[k].claim.meta.uid < m.st.nextUid
  {
  }

  lemma NewcomerRefs(m: System, s: Step, n: Name)
    requires Minted(m) && SwapsAreCurrent(m) && Enabled(m, s)
    requires n !in m.st.sandboxes && n in Do(m, s).st.sandboxes
    ensures RefsMinted(m.st.nextUid, Do(m, s).st.sandboxes[n].meta.owners)
    ensures Do(m, s).st.sandboxes[n].meta.uid == m.st.nextUid
  {
    match s
    case PassStep(k, draw) =>
      AdvanceSandboxes(m.st, k, m.passes[k], draw);
      PassUidMinted(m, k);
    case _ =>
  }

  /** A pass's reading is what it was, or was just taken. */
  lemma CheckComesFrom(m: System, s: Step, n: Name)
    requires Minted(m) && Enabled(m, s) && n in Do(m, s).checks
    ensures var c := Do(m, s).checks[n];
      || (s == ReadSandbox(n) && c == Check(m.st.sandboxes[n].meta.uid, m.st.sandboxes[n].meta.owners, 0))
      || (n in m.checks && c.uid == m.checks[n].uid && c.owners == m.checks[n].owners)
    ensures s == ReadSandbox(n) ==> n in m.st.sandboxes && m.st.sandboxes[n].meta.uid < m.st.nextUid
  {
  }

  lemma MissedStays(m: System, s: Step)
    requires Minted(m) && RefsKnown(m) && Missed(m) && Enabled(m, s)
    ensures Missed(Do(m, s))
  {
    var m2 := Do(m, s);
    forall n | n in m2.checks && m2.checks[n].Doomed?
      ensures m2.checks[n].i < |m2.checks[n].owners| && StillMissed(m2.st, m2.checks[n].owners[m2.checks[n].i])
    {
      DoomedComesFrom(m, s, n);
      var ref := m2.checks[n].owners[m2.checks[n].i];
      if ref.uid != 0 {
        assert RefsMinted(m.st.nextUid, m.checks[n].owners);
        DanglingStays(m, s, ref);
      }
    }
  }

  lemma DoomedComesFrom(m: System, s: Step, n: Name)
    requires Enabled(m, s) && n in Do(m, s).checks && Do(m, s).checks[n].Doomed?
    ensures n in m.checks && Do(m, s).checks[n].owners == m.checks[n].owners
    ensures var c := Do(m, s).checks[n];
      || m.checks[n] == c
      || (c.i < |c.owners| && Dangling(m.st, c.owners[c.i]))
  {
  }

  lemma {:induction false} RunKeepsMissed(m: System, steps: seq<Step>)
    requires Inv(m) && RefsKnown(m) && Missed(m) && CanRun(m, steps)
    ensures RefsKnown(After(m, steps)) && Missed(After(m, steps))
    decreases |steps|
  {
    if steps != [] {
      StepKeepsInv(m, steps[0]);
      RefsStayKnown(m, steps[0]);
      MissedStays(m, steps[0]);
      RunKeepsMissed(Do(m, steps[0]), steps[1..]);
    }
  }

  // ---- Whether the sandbox is the one that was read ----

  predicate Deletes(m: System, s: Step, n: Name) {
    match s
    case DeleteSandbox(x) => x == n
    case Collect(x) => x == n
    case PassStep(k, _) => k in m.passes && m.passes[k].at.AtDrop? && m.passes[k].claim.status.sandbox == n
    case _ => false
  }

  /** A claim's pass wins its compare-and-swap on n. */
  predicate TakesOver(m: System, s: Step, n: Name) {
    && s.PassStep? && s.k in m.passes && m.passes[s.k].at.AtSwap? && m.passes[s.k].at.pick == n
    && Swap(m.st, s.k, m.passes[s.k]).adopted.Some?
  }

  /** Somewhere in the run n is taken over or deleted. */
  predicate Disturbed(m: System, steps: seq<Step>, n: Name)
    requires CanRun(m, steps)
    decreases |steps|
  {
    steps != [] &&
    (Deletes(m, steps[0], n) || TakesOver(m, steps[0], n) || Disturbed(Do(m, steps[0]), steps[1..], n))
  }

  /** What a step makes of a stored sandbox's identity and owners. */
  lemma StepOn(m: System, s: Step, n: Name)
    requires Inv(m) && Enabled(m, s) && n in m.st.sandboxes
    ensures n in Do(m, s).st.sandboxes <==> !Deletes(m, s, n)
    ensures n in Do(m, s).st.sandboxes ==> Do(m, s).st.sandboxes[n].meta.uid == m.st.sandboxes[n].meta.uid
    ensures n in Do(m, s).st.sandboxes && !TakesOver(m, s, n) ==>
      Do(m, s).st.sandboxes[n].meta.owners == m.st.sandboxes[n].meta.owners
    ensures TakesOver(m, s, n) ==>
      && (exists pool :: OwnedBy(m.st.sandboxes[n].meta.owners, POOL, pool))
      && n in Do(m, s).st.sandboxes
      && Do(m, s).st.sandboxes[n].meta.owners == [ControllerRef(CLAIM, s.k, m.passes[s.k].claim.meta.uid)]
  {
    if s.PassStep? {
      PassOn(m, s.k, s.draw, n);
    } else {
      OtherOn(m, s, n);
    }
  }

  lemma OtherOn(m: System, s: Step, n: Name)
    requires Enabled(m, s) && !s.PassStep? && n in m.st.sandboxes
    ensures n in Do(m, s).st.sandboxes <==> !Deletes(m, s, n)
    ensures n in Do(m, s).st.sandboxes ==>
      && Do(m, s).st.sandboxes[n].meta.uid == m.st.sandboxes[n].meta.uid
      && Do(m, s).st.sandboxes[n].meta.owners == m.st.sandboxes[n].meta.owners
  {
  }

  lemma PassOn(m: System, k: Name, draw: Draw, n: Name)
    requires SwapsAreCurrent(m) && k in m.passes && n in m.st.sandboxes
    ensures var s, m2 := PassStep(k, draw), DoPass(m, k, draw);
      && (n in m2.st.sandboxes <==> !Deletes(m, s, n))
      && (n in m2.st.sandboxes ==> m2.st.sandboxes[n].meta.uid == m.st.sandboxes[n].meta.uid)
      && (n in m2.st.sandboxes && !TakesOver(m, s, n) ==> m2.st.sandboxes[n].meta.owners == m.st.sandboxes[n].meta.owners)
      && (TakesOver(m, s, n) ==>
            && (exists pool :: OwnedBy(m.st.sandboxes[n].meta.owners, POOL, pool))
            && n in m2.st.sandboxes
            && m2.st.sandboxes[n].meta.owners == [ControllerRef(CLAIM, k, m.passes[k].claim.meta.uid)])
  {
    AdvanceSandboxes(m.st, k, m.passes[k], draw);
    if m.passes[k].at.AtSwap? && Swap(m.st, k, m.passes[k]).adopted.Some? {
      SwapDoes(m, k, draw);
    } else if m.passes[k].at.AtDrop? {
      DoPassIs(m, k, draw);
    }
  }

  /** A single claim as the only owner, which no pool is. */
  predicate ClaimsOnly(owners: seq<OwnerRef>) {
    |owners| == 1 && owners[0].kind == CLAIM && owners[0].controller
  }

  /** Where n stands against a reading of it. */
  ghost predicate Stands(m: System, n: Name, uid: Uid, owners: seq<OwnerRef>, disturbed: bool) {
    && uid < m.st.nextUid
    && (!disturbed ==>
          n in m.st.sandboxes && m.st.sandboxes[n].meta.uid == uid && m.st.sandboxes[n].meta.owners == owners)
    && (disturbed && n in m.st.sandboxes && m.st.sandboxes[n].meta.uid == uid ==>
          ClaimsOnly(m.st.sandboxes[n].meta.owners) && exists pool :: OwnedBy(owners, POOL, pool))
  }

  lemma StandsStep(m: System, s: Step, n: Name, uid: Uid, owners: seq<OwnerRef>, disturbed: bool)
    requires Inv(m) && Enabled(m, s) && Stands(m, n, uid, owners, disturbed)
    ensures Stands(Do(m, s), n, uid, owners, disturbed || Deletes(m, s, n) || TakesOver(m, s, n))
  {
    StepOwnersAreOld(m, s);
    if n in m.st.sandboxes {
      StepOn(m, s, n);
    } else if n in Do(m, s).st.sandboxes {
      NewcomerRefs(m, s, n);
    }
  }

  lemma {:induction false} StandsRun(m: System, steps: seq<Step>, n: Name, uid: Uid, owners: seq<OwnerRef>, disturbed: bool)
    requires Inv(m) && CanRun(m, steps) && Stands(m, n, uid, owners, disturbed)
    ensures Stands(After(m, steps), n, uid, owners, disturbed || Disturbed(m, steps, n))
    decreases |steps|
  {
    if steps != [] {
      var s := steps[0];
      StepKeepsInv(m, s);
      StandsStep(m, s, n, uid, owners, disturbed);
      StandsRun(Do(m, s), steps[1..], n, uid, owners, disturbed || Deletes(m, s, n) || TakesOver(m, s, n));
    }
  }

  lemma {:induction false} ReadingStays(m: System, steps: seq<Step>, n: Name)
    requires Inv(m) && CanRun(m, steps) && ReadSandbox(n) !in steps && n in After(m, steps).checks
    ensures n in m.checks
    ensures After(m, steps).checks[n].uid == m.checks[n].uid && After(m, steps).checks[n].owners == m.checks[n].owners
    decreases |steps|
  {
    if steps != [] {
      StepKeepsInv(m, steps[0]);
      ReadingStays(Do(m, steps[0]), steps[1..], n);
      CheckComesFrom(m, steps[0], n);
    }
  }

  // ---- Exactness ----

  /** The claim or pool a controller reference names is there, and is the one meant. */
  predicate Lives(st: Store, ref: OwnerRef) {
    && (ref.kind == CLAIM ==> ref.name in st.claims && (ref.uid == 0 || st.claims[ref.name].meta.uid == ref.uid))
    && (ref.kind == POOL ==> ref.name in st.pools && (ref.uid == 0 || st.pools[ref.name].meta.uid == ref.uid))
  }

  ghost predicate OwnersLive(st: Store, owners: seq<OwnerRef>) {
    forall i :: 0 <= i < |owners| && owners[i].controller ==> Lives(st, owners[i])
  }

  lemma LiveOrOrphaned(st: Store, owners: seq<OwnerRef>)
    ensures OwnersLive(st, owners) <==> !Orphaned(st, owners)
  {
    if !OwnersLive(st, owners) {
      var i :| 0 <= i < |owners| && owners[i].controller && !Lives(st, owners[i]);
      assert Dangling(st, owners[i]);
    }
    if Orphaned(st, owners) {
      var i :| 0 <= i < |owners| && Dangling(st, owners[i]);
      assert !Lives(st, owners[i]);
    }
  }

  /** An owner that was missed had no UID to be told by, and is there again. */
  predicate CameBack(st: Store, ref: OwnerRef) {
    ref.uid == 0 && Lives(st, ref)
  }

  /** What remains true of the owner a pass missed, at the moment it deletes. */
  lemma MissedIsGoneOrBack(st: Store, owners: seq<OwnerRef>, i: nat)
    requires i < |owners| && StillMissed(st, owners[i])
    ensures OwnersLive(st, owners) ==> CameBack(st, owners[i])
  {
  }

  /** The owner because of which a pass is about to delete. */
  function MissedRef(c: Check): OwnerRef {
    if c.i < |c.owners| then c.owners[c.i] else OwnerRef("", "", 0, false)
  }

  /**
   * The setting: in a reachable system a sandbox pass reads n; steps happen, in which n is not read
   * again; and now the pass is about to delete what is stored under n.
   */
  ghost predicate ReadThenCollect(now: int, before: seq<Step>, steps: seq<Step>, n: Name) {
    CanRun(Empty(now), before) &&
    var m := After(Empty(now), before);
    Enabled(m, ReadSandbox(n)) && ReadSandbox(n) !in steps &&
    var read := Do(m, ReadSandbox(n));
    CanRun(read, steps) && Enabled(After(read, steps), Collect(n)) && n in After(read, steps).st.sandboxes
  }

  function ReadAt(now: int, before: seq<Step>, n: Name): System
    requires CanRun(Empty(now), before) && Enabled(After(Empty(now), before), ReadSandbox(n))
  {
    Do(After(Empty(now), before), ReadSandbox(n))
  }

  lemma ReadAtKeeps(now: int, before: seq<Step>, n: Name)
    requires CanRun(Empty(now), before) && Enabled(After(Empty(now), before), ReadSandbox(n))
    ensures var m := ReadAt(now, before, n);
      && Inv(m) && RefsKnown(m) && Missed(m) && n in m.st.sandboxes && n in m.checks
      && m.checks[n].uid == m.st.sandboxes[n].meta.uid && m.checks[n].owners == m.st.sandboxes[n].meta.owners
  {
    var m0 := After(Empty(now), before);
    EmptyInv(now);
    ReachableInv(now, before);
    RunKeepsMissed(Empty(now), before);
    StepKeepsInv(m0, ReadSandbox(n));
    RefsStayKnown(m0, ReadSandbox(n));
    MissedStays(m0, ReadSandbox(n));
  }

  /** What is known when the pass is about to delete. */
  lemma AtCollection(m1: System, steps: seq<Step>, n: Name)
    requires Inv(m1) && RefsKnown(m1) && Missed(m1) && n in m1.st.sandboxes && n in m1.checks
    requires m1.checks[n].uid == m1.st.sandboxes[n].meta.uid && m1.checks[n].owners == m1.st.sandboxes[n].meta.owners
    requires ReadSandbox(n) !in steps && CanRun(m1, steps) && Enabled(After(m1, steps), Collect(n))
    ensures var m := After(m1, steps); var c := m.checks[n];
      && Stands(m, n, c.uid, c.owners, Disturbed(m1, steps, n))
      && c.i < |c.owners| && StillMissed(m.st, c.owners[c.i])
  {
    RunKeepsMissed(m1, steps);
    ReadingStays(m1, steps, n);
    StandsRun(m1, steps, n, m1.checks[n].uid, m1.checks[n].owners, false);
  }

  /**
   * For every sandbox pass in every interleaving: what it deletes is no orphan if and only if the
   * present owners live, and either the sandbox was taken over or deleted since it was read, or the
   * owner that was missed has no UID and came back.
   */
  lemma CollectsOrphansUnless(now: int, before: seq<Step>, steps: seq<Step>, n: Name)
    requires ReadThenCollect(now, before, steps, n)
    ensures var m1 := ReadAt(now, before, n); var m := After(m1, steps);
      !Orphan(m.st, n) <==>
        && OwnersLive(m.st, m.st.sandboxes[n].meta.owners)
        && (Disturbed(m1, steps, n) || CameBack(m.st, MissedRef(m.checks[n])))
  {
    var m1 := ReadAt(now, before, n);
    var m := After(m1, steps);
    ReadAtKeeps(now, before, n);
    AtCollection(m1, steps, n);
    LiveOrOrphaned(m.st, m.st.sandboxes[n].meta.owners);
    MissedIsGoneOrBack(m.st, m.checks[n].owners, m.checks[n].i);
  }

  /** If every owner that was read has a UID and nobody took n over or deleted it, an orphan is deleted. */
  lemma UndisturbedIsOrphan(now: int, before: seq<Step>, steps: seq<Step>, n: Name)
    requires ReadThenCollect(now, before, steps, n)
    requires !Disturbed(ReadAt(now, before, n), steps, n)
    requires forall i :: 0 <= i < |ReadAt(now, before, n).checks[n].owners| ==> ReadAt(now, before, n).checks[n].owners[i].uid != 0
    ensures Orphan(After(ReadAt(now, before, n), steps).st, n)
  {
    var m1 := ReadAt(now, before, n);
    ReadAtKeeps(now, before, n);
    AtCollection(m1, steps, n);
    ReadingStays(m1, steps, n);
    CollectsOrphansUnless(now, before, steps, n);
  }

  /**
   * The pass could see it: n was taken over or deleted in between exactly if its UID or its owners
   * are not the ones that were read. If the UID is the same it was taken over, its claim is its only
   * owner, and an orphan is deleted unless this claim lives.
   */
  lemma DisturbanceShows(now: int, before: seq<Step>, steps: seq<Step>, n: Name)
    requires ReadThenCollect(now, before, steps, n)
    ensures var m1 := ReadAt(now, before, n); var m := After(m1, steps);
      var meta, c := m.st.sandboxes[n].meta, m.checks[n];
      && (Disturbed(m1, steps, n) <==> meta.uid != c.uid || meta.owners != c.owners)
      && (Disturbed(m1, steps, n) && meta.uid == c.uid ==>
            ClaimsOnly(meta.owners) && (Orphan(m.st, n) <==> !Lives(m.st, meta.owners[0])))
  {
    var m1 := ReadAt(now, before, n);
    var m := After(m1, steps);
    ReadAtKeeps(now, before, n);
    AtCollection(m1, steps, n);
    var meta, c := m.st.sandboxes[n].meta, m.checks[n];
    LiveOrOrphaned(m.st, meta.owners);
    if Disturbed(m1, steps, n) && meta.uid == c.uid {
      var pool :| OwnedBy(c.owners, POOL, pool);
      assert !OwnedBy(meta.owners, POOL, pool);
    }
  }
}
