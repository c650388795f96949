/** What holds of claims and their sandboxes in every interleaving. */
module Binding {
  import opened Prelude
  import opened Conditions
  import opened Cluster
  import opened Protocol
  import opened ProtocolInv

  lemma EmptyInv(now: int)
    ensures Inv(Empty(now))
  {
  }

  lemma ReachableInv(now: int, steps: seq<Step>)
    requires CanRun(Empty(now), steps)
    ensures Inv(After(Empty(now), steps))
  {
    EmptyInv(now);
    RunKeepsInv(Empty(now), steps);
  }

  /** At every state of every run, no two sandboxes have one claim's UID as their controller. */
  lemma OneSandboxPerClaim(now: int, steps: seq<Step>, uid: Uid, a: Name, b: Name)
    requires CanRun(Empty(now), steps)
    requires var m := After(Empty(now), steps); uid in m.claimUids && Controls(m.st, a, uid) && Controls(m.st, b, uid)
    ensures a == b
  {
    ReachableInv(now, steps);
  }

  /** The sandbox of a live claim whose pass is not under way is the one its status names. */
  lemma StatusNamesTheSandbox(now: int, steps: seq<Step>, k: Name, n: Name)
    requires CanRun(Empty(now), steps)
    requires var m := After(Empty(now), steps); k in m.st.claims && k !in m.passes && Controls(m.st, n, m.st.claims[k].meta.uid)
    ensures After(Empty(now), steps).st.claims[k].status.sandbox == n
  {
    ReachableInv(now, steps);
  }

  /** No sandbox is taken over twice, by the same claim or by two; while it lives it is its claim's alone. */
  lemma TakenOverOnce(now: int, steps: seq<Step>, i: nat, j: nat, n: Name)
    requires CanRun(Empty(now), steps)
    requires j < |After(Empty(now), steps).adoptions|
    ensures var m := After(Empty(now), steps);
      && (i < j ==> m.adoptions[i].sandbox != m.adoptions[j].sandbox)
      && m.adoptions[j].claim in m.claimUids
      && (n in m.st.sandboxes && m.st.sandboxes[n].meta.uid == m.adoptions[j].sandbox ==>
            m.st.sandboxes[n].meta.owners == [ControllerRef(CLAIM, m.claimUids[m.adoptions[j].claim], m.adoptions[j].claim)])
  {
    ReachableInv(now, steps);
  }

  /** The pass under k is about to win its compare-and-swap on n. */
  predicate Swapping(m: System, k: Name, n: Name) {
    && k in m.passes && m.passes[k].at.AtSwap? && m.passes[k].at.pick == n
    && n in m.st.sandboxes && OwnedBy(m.st.sandboxes[n].meta.owners, POOL, m.passes[k].claim.spec.pool)
  }

  /**
   * The owners of a living sandbox change in one way only: a claim's pass takes it from the pool it
   * is looking in, and that is recorded.
   */
  lemma OwnersChangeByTakeoverOnly(m: System, s: Step, n: Name)
    requires Inv(m) && Enabled(m, s)
    requires n in m.st.sandboxes && n in Do(m, s).st.sandboxes
    requires m.st.sandboxes[n].meta.owners != Do(m, s).st.sandboxes[n].meta.owners
    ensures s.PassStep? && Swapping(m, s.k, n)
    ensures Do(m, s).st.sandboxes[n].meta.uid == m.st.sandboxes[n].meta.uid
    ensures Do(m, s).st.sandboxes[n].meta.owners == [ControllerRef(CLAIM, s.k, m.passes[s.k].claim.meta.uid)]
    ensures Do(m, s).adoptions == m.adoptions + [Adoption(m.st.sandboxes[n].meta.uid, m.passes[s.k].claim.meta.uid)]
  {
    match s
    case PassStep(k, draw) => TakeoverStep(m, k, draw, n);
    case _ =>
  }

  lemma TakeoverStep(m: System, k: Name, draw: Draw, n: Name)
    requires SwapsAreCurrent(m) && k in m.passes
    requires n in m.st.sandboxes && n in DoPass(m, k, draw).st.sandboxes
    requires m.st.sandboxes[n].meta.owners != DoPass(m, k, draw).st.sandboxes[n].meta.owners
    ensures Swapping(m, k, n)
    ensures DoPass(m, k, draw).st.sandboxes[n].meta.uid == m.st.sandboxes[n].meta.uid
    ensures DoPass(m, k, draw).st.sandboxes[n].meta.owners == [ControllerRef(CLAIM, k, m.passes[k].claim.meta.uid)]
    ensures DoPass(m, k, draw).adoptions == m.adoptions + [Adoption(m.st.sandboxes[n].meta.uid, m.passes[k].claim.meta.uid)]
  {
    AdvanceSandboxes(m.st, k, m.passes[k], draw);
    SwapDoes(m, k, draw);
  }

  /** A claim gains a sandbox only at the two calls of its own pass that give it one. */
  lemma GainsByItsOwnPassOnly(m: System, s: Step, n: Name, uid: Uid)
    requires Inv(m) && Enabled(m, s) && uid in m.claimUids
    requires Controls(Do(m, s).st, n, uid) && !Controls(m.st, n, uid)
    ensures s.PassStep? && m.passes[s.k].claim.meta.uid == uid && (m.passes[s.k].at.AtSwap? || m.passes[s.k].at.AtCreate?)
  {
    match s
    case PassStep(k, draw) => GainStep(m, k, draw, n, uid);
    case _ =>
  }

  lemma GainStep(m: System, k: Name, draw: Draw, n: Name, uid: Uid)
    requires SwapsAreCurrent(m) && k in m.passes
    requires Controls(DoPass(m, k, draw).st, n, uid) && !Controls(m.st, n, uid)
    ensures m.passes[k].claim.meta.uid == uid && (m.passes[k].at.AtSwap? || m.passes[k].at.AtCreate?)
  {
    AdvanceSandboxes(m.st, k, m.passes[k], draw);
    assert ControllerUid([ControllerRef(CLAIM, k, m.passes[k].claim.meta.uid)]) == m.passes[k].claim.meta.uid;
    if m.passes[k].at.AtSwap? {
      SwapDoes(m, k, draw);
    }
  }
}
