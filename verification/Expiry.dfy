/** An expired claim that is retained stays expired, and gets no sandbox any more. */
module Expiry {
  import opened Prelude
  import opened Conditions
  import opened Cluster
  import opened Protocol
  import opened ProtocolInv
  import opened Binding
  import opened Deadlines

  /** The places an expired, retained claim's pass goes through. */
  predicate Winding(at: At) {
    at.AtExpiry? || at.AtDropCheck? || at.AtDrop? || at.AtNotReady?
  }

  /** The claim with this UID is expired wherever it is held: in the store, and by a pass. */
  ghost predicate Spent(m: System, k: Name, uid: Uid, lc: Lifecycle) {
    && uid < m.st.nextUid
    && (k in m.st.claims && m.st.claims[k].meta.uid == uid ==>
          && m.st.claims[k].spec.lifecycle == Some(lc)
          && Expired(m.st.claims[k], m.st.now)
          && (k in m.passes ==> m.passes[k].claim.meta.uid == uid))
    && (k in m.passes && m.passes[k].claim.meta.uid == uid ==>
          && m.passes[k].claim.spec.lifecycle == Some(lc)
          && Expired(m.passes[k].claim, m.st.now)
          && Winding(m.passes[k].at))
  }

  /** The claim's lifecycle is edited by nobody. */
  predicate LeavesLifecycle(s: Step, k: Name, lc: Lifecycle) {
    s.EditClaim? && s.k == k ==> s.claimSpec.lifecycle == Some(lc)
  }

  /** Marking an expired claim not ready leaves it expired. */
  lemma NotReadyStaysExpired(claim: Claim, seen: Claim, reason: string, message: string, now: int, rv: nat)
    requires Expired(seen, now) && claim.spec.lifecycle == seen.spec.lifecycle
    ensures Expired(StatusWritten(claim, NotReady(seen, reason, message, now), rv), now)
  {
    FindSet(seen.status.conditions, Raw(READY, FALSE, reason, message, seen.meta.generation, now), FINISHED);
  }

  /** Where a step of a wound-down pass leads. */
  lemma WindingStep(m: System, k: Name, draw: Draw)
    requires k in m.passes && Expired(m.passes[k].claim, m.st.now) && Winding(m.passes[k].at)
    requires m.passes[k].claim.spec.lifecycle.value.policy == Retain
    ensures var p := m.passes[k]; var m2 := DoPass(m, k, draw);
      && m2.st.now == m.st.now && m2.st.nextUid == m.st.nextUid
      && (k in m2.passes ==> m2.passes[k].claim == p.claim && Winding(m2.passes[k].at))
      && (k in m2.st.claims ==> k in m.st.claims)
      && (k in m.st.claims && !p.at.AtNotReady? ==> k in m2.st.claims && m2.st.claims[k] == m.st.claims[k])
      && (k in m.st.claims && p.at.AtNotReady? ==> 
            && k in m2.st.claims
            && m2.st.claims[k] == StatusWritten(m.st.claims[k], NotReady(p.claim, p.at.reason, p.at.message, m.st.now), m.st.rv + 1))
      && (p.at.AtNotReady? ==> k !in m2.passes)
  {
  }

  /** Of the claims, a step of the pass under j touches the one under j, and keeps its UID. */
  ghost predicate Frames(st: Store, j: Name, st2: Store, k: Name) {
    && st2.now == st.now && st.nextUid <= st2.nextUid
    && (k in st2.claims ==> k in st.claims && st2.claims[k].meta.uid == st.claims[k].meta.uid)
    && (k in st2.claims && k != j ==> st2.claims[k] == st.claims[k])
  }

  lemma AdvanceFrame(st: Store, j: Name, p: Pass, draw: Draw, k: Name)
    ensures var moved := Advance(st, j, p, draw);
      Frames(st, j, moved.store, k) && (moved.pass.Some? ==> moved.pass.value.claim == p.claim)
  {
    match p.at
    case AtSwap(_, _, _) => SwapFrame(st, j, p, k);
    case AtCreate => CreateFrame(st, j, p, draw.built, k);
    case AtStatus(n, sb) => StatusFrame(st, j, BoundStatus(p, n, sb, st.now), k);
    case AtNotReady(reason, message) => StatusFrame(st, j, NotReady(p.claim, reason, message, st.now), k);
    case AtAnnotate(n, _) => AnnotateFrame(st, j, n, k);
    case _ =>
  }

  lemma SwapFrame(st: Store, j: Name, p: Pass, k: Name)
    requires p.at.AtSwap?
    ensures Frames(st, j, Swap(st, j, p).store, k) && Swap(st, j, p).pass.value.claim == p.claim
  {
  }

  lemma CreateFrame(st: Store, j: Name, p: Pass, built: Result<SandboxSpec, string>, k: Name)
    ensures var moved := ColdCreate(st, j, p, built);
      Frames(st, j, moved.store, k) && moved.pass.Some? && moved.pass.value.claim == p.claim
  {
  }

  lemma StatusFrame(st: Store, j: Name, status: ClaimStatus, k: Name)
    ensures Frames(st, j, WriteStatus(st, j, status), k)
  {
  }

  lemma AnnotateFrame(st: Store, j: Name, n: Name, k: Name)
    ensures Frames(st, j, Annotate(st, j, n), k)
  {
  }

  lemma SpentPassStep(m: System, k: Name, uid: Uid, lc: Lifecycle, j: Name, draw: Draw)
    requires Spent(m, k, uid, lc) && lc.policy == Retain && j in m.passes
    ensures Spent(DoPass(m, j, draw), k, uid, lc)
  {
    var p := m.passes[j];
    if j != k || p.claim.meta.uid != uid {
      AdvanceFrame(m.st, j, p, draw, k);
    } else {
      WindingStep(m, k, draw);
      if p.at.AtNotReady? && k in m.st.claims && m.st.claims[k].meta.uid == uid {
        NotReadyStaysExpired(m.st.claims[k], p.claim, p.at.reason, p.at.message, m.st.now, m.st.rv + 1);
      }
    }
  }

  lemma SpentStep(m: System, k: Name, uid: Uid, lc: Lifecycle, s: Step)
    requires Spent(m, k, uid, lc) && lc.policy == Retain && Enabled(m, s) && LeavesLifecycle(s, k, lc)
    ensures Spent(Do(m, s), k, uid, lc)
  {
    match s
    case PassStep(j, draw) => SpentPassStep(m, k, uid, lc, j, draw);
    case Tick(d) =>
    case _ =>
  }

  lemma {:induction false} SpentRun(m: System, k: Name, uid: Uid, lc: Lifecycle, steps: seq<Step>)
    requires Inv(m) && uid in m.claimUids && CanRun(m, steps)
    requires Spent(m, k, uid, lc) && lc.policy == Retain && m.claimUids[uid] == k
    requires forall s <- steps :: LeavesLifecycle(s, k, lc)
    ensures Spent(After(m, steps), k, uid, lc)
    ensures forall n :: Controls(After(m, steps).st, n, uid) ==> Controls(m.st, n, uid)
    decreases |steps|
  {
    if steps != [] {
      var m1 := Do(m, steps[0]);
      StepKeepsInv(m, steps[0]);
      SpentStep(m, k, uid, lc, steps[0]);
      forall n | Controls(m1.st, n, uid) ensures Controls(m.st, n, uid) {
        if !Controls(m.st, n, uid) {
          GainsByItsOwnPassOnly(m, steps[0], n, uid);
        }
      }
      SpentRun(m1, k, uid, lc, steps[1..]);
    }
  }

  /**
   * From the moment a pass finds a retained claim expired, in every run in which its lifecycle is not
   * edited: the claim, while it lives, stays expired; its passes only wind it down; and no sandbox
   * comes under it that was not its own already.
   */
  lemma ExpiredStaysExpired(now: int, before: seq<Step>, k: Name, lc: Lifecycle, steps: seq<Step>)
    requires CanRun(Empty(now), before)
    requires var m := After(Empty(now), before);
      && k in m.passes && m.passes[k].at.AtExpiry? && Due(m.passes[k].claim, m.st.now)
      && m.passes[k].claim.spec.lifecycle == Some(lc) && lc.policy == Retain
      && (k in m.st.claims && m.st.claims[k].meta.uid == m.passes[k].claim.meta.uid ==> m.st.claims[k].spec.lifecycle == Some(lc))
      && CanRun(m, steps)
    requires forall s <- steps :: LeavesLifecycle(s, k, lc)
    ensures var m := After(Empty(now), before); var m2 := After(m, steps); var uid := m.passes[k].claim.meta.uid;
      && (k in m2.st.claims && m2.st.claims[k].meta.uid == uid ==> Due(m2.st.claims[k], m2.st.now))
      && (k in m2.passes && m2.passes[k].claim.meta.uid == uid ==> Winding(m2.passes[k].at))
      && (forall n :: Controls(m2.st, n, uid) ==> Controls(m.st, n, uid))
  {
    ReachableInv(now, before);
    var m := After(Empty(now), before);
    var m2, uid := After(m, steps), m.passes[k].claim.meta.uid;
    ExpiredExactly(m.passes[k].claim, m.st.now);
    SpentFromTheStart(m, k, lc);
    SpentRun(m, k, uid, lc, steps);
    if k in m2.st.claims && m2.st.claims[k].meta.uid == uid {
      ExpiredExactly(m2.st.claims[k], m2.st.now);
    }
  }

  lemma SpentFromTheStart(m: System, k: Name, lc: Lifecycle)
    requires Minted(m) && StatusIsSeen(m) && k in m.passes && m.passes[k].at.AtExpiry? && Expired(m.passes[k].claim, m.st.now)
    requires m.passes[k].claim.spec.lifecycle == Some(lc)
    requires k in m.st.claims && m.st.claims[k].meta.uid == m.passes[k].claim.meta.uid ==> m.st.claims[k].spec.lifecycle == Some(lc)
    ensures Spent(m, k, m.passes[k].claim.meta.uid, lc)
  {
  }

  // ---- Never before the deadline ----

  /** Where a pass takes its claim or its sandbox away. */
  predicate Ending(at: At) {
    at.AtDeleteClaim? || at.AtDropCheck? || at.AtDrop?
  }

  ghost predicate OnTime(m: System) {
    forall k <- m.passes :: Ending(m.passes[k].at) ==> Expired(m.passes[k].claim, m.st.now)
  }

  lemma StepKeepsOnTime(m: System, s: Step)
    requires OnTime(m) && Enabled(m, s)
    ensures OnTime(Do(m, s))
  {
    if s.PassStep? {
      PassKeepsOnTime(m.st, s.k, m.passes[s.k], s.draw);
      AdvanceFrame(m.st, s.k, m.passes[s.k], s.draw, s.k);
    }
  }

  lemma PassKeepsOnTime(st: Store, k: Name, p: Pass, draw: Draw)
    requires Ending(p.at) ==> Expired(p.claim, st.now)
    ensures var moved := Advance(st, k, p, draw);
      moved.pass.Some? && Ending(moved.pass.value.at) ==> Expired(moved.pass.value.claim, st.now)
  {
    match p.at
    case AtSwap(_, _, _) => assert !Ending(Swap(st, k, p).pass.value.at);
    case AtCreate => assert !Ending(ColdCreate(st, k, p, draw.built).pass.value.at);
    case _ =>
  }

  lemma {:induction false} RunKeepsOnTime(m: System, steps: seq<Step>)
    requires OnTime(m) && CanRun(m, steps)
    ensures OnTime(After(m, steps))
    decreases |steps|
  {
    if steps != [] {
      StepKeepsOnTime(m, steps[0]);
      RunKeepsOnTime(Do(m, steps[0]), steps[1..]);
    }
  }

  /** In every interleaving a pass takes a claim or a sandbox out of the store only once its claim is over. */
  lemma NeverEarly(now: int, steps: seq<Step>, k: Name, draw: Draw, n: Name)
    requires CanRun(Empty(now), steps) && k in After(Empty(now), steps).passes
    requires var m := After(Empty(now), steps); var st2 := DoPass(m, k, draw).st;
      (n in m.st.claims && n !in st2.claims) || (n in m.st.sandboxes && n !in st2.sandboxes)
    ensures var m := After(Empty(now), steps); Due(m.passes[k].claim, m.st.now)
  {
    var m := After(Empty(now), steps);
    RunKeepsOnTime(Empty(now), steps);
    TakesAwayAtTheEnd(m.st, k, m.passes[k], draw, n);
    ExpiredExactly(m.passes[k].claim, m.st.now);
  }

  lemma TakesAwayAtTheEnd(st: Store, k: Name, p: Pass, draw: Draw, n: Name)
    requires var st2 := Advance(st, k, p, draw).store; (n in st.claims && n !in st2.claims) || (n in st.sandboxes && n !in st2.sandboxes)
    ensures Ending(p.at)
  {
  }
}
