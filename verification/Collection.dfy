/**
 * Orphan collection: once deletions are over and passes of deleted claims have ended, one sandbox
 * pass for each sandbox leaves no orphan, whatever else goes on meanwhile.
 */
module Collection {
  import opened Prelude
  import opened Conditions
  import opened Cluster
  import opened Protocol
  import opened ProtocolInv
  import opened Binding

  ghost predicate Orphan(st: Store, n: Name) {
    n in st.sandboxes && Orphaned(st, st.sandboxes[n].meta.owners)
  }

  /** Every claim pass under way is a living claim's. */
  ghost predicate PassesLive(m: System) {
    forall k <- m.passes :: k in m.st.claims && m.st.claims[k].meta.uid == m.passes[k].claim.meta.uid
  }

  /** Nobody deletes a claim or a pool, or creates a sandbox for one that is gone. */
  predicate Calm(m: System, s: Step) {
    match s
    case DeleteClaim(_) => false
    case DeletePool(_) => false
    case PassStep(k, _) => k in m.passes && !m.passes[k].at.AtDeleteClaim?
    case CreateSandbox(_, owners, _) => !Orphaned(m.st, owners)
    case _ => true
  }

  predicate CalmRun(m: System, steps: seq<Step>)
    requires CanRun(m, steps)
    decreases |steps|
  {
    steps == [] || (Calm(m, steps[0]) && CalmRun(Do(m, steps[0]), steps[1..]))
  }

  // ---- Owners that exist go on existing ----

  ghost predicate OwnersStay(st: Store, st2: Store) {
    && (forall k <- st.claims :: k in st2.claims && st2.claims[k].meta.uid == st.claims[k].meta.uid)
    && (forall k <- st.pools :: k in st2.pools && st2.pools[k].meta.uid == st.pools[k].meta.uid)
  }

  lemma WriteStays(st: Store, k: Name, status: ClaimStatus)
    ensures OwnersStay(st, WriteStatus(st, k, status))
  {
  }

  lemma AnnotateStays(st: Store, k: Name, n: Name)
    ensures OwnersStay(st, Annotate(st, k, n))
  {
  }

  lemma PassStays(m: System, k: Name, draw: Draw)
    requires k in m.passes && !m.passes[k].at.AtDeleteClaim?
    ensures OwnersStay(m.st, DoPass(m, k, draw).st)
  {
    var p := m.passes[k];
    match p.at
    case AtStatus(n, sb) => WriteStays(m.st, k, BoundStatus(p, n, sb, m.st.now));
    case AtNotReady(reason, message) => WriteStays(m.st, k, NotReady(p.claim, reason, message, m.st.now));
    case AtAnnotate(n, _) => AnnotateStays(m.st, k, n);
    case _ => OthersLeaveOwners(m.st, k, p, draw);
  }

  lemma OthersLeaveOwners(st: Store, k: Name, p: Pass, draw: Draw)
    requires !p.at.AtStatus? && !p.at.AtNotReady? && !p.at.AtAnnotate? && !p.at.AtDeleteClaim?
    ensures Advance(st, k, p, draw).store.claims == st.claims && Advance(st, k, p, draw).store.pools == st.pools
  {
  }

  lemma CalmStays(m: System, s: Step)
    requires Enabled(m, s) && Calm(m, s)
    ensures OwnersStay(m.st, Do(m, s).st)
  {
    match s
    case PassStep(k, draw) => PassStays(m, k, draw);
    case _ =>
  }

  lemma OrphanedBefore(st: Store, st2: Store, owners: seq<OwnerRef>)
    requires OwnersStay(st, st2) && Orphaned(st2, owners)
    ensures Orphaned(st, owners)
  {
    var i :| 0 <= i < |owners| && Dangling(st2, owners[i]);
    assert Dangling(st, owners[i]);
  }

  // ---- Orphans never become more ----

  lemma ClaimRefIsLive(st: Store, k: Name, uid: Uid)
    requires k in st.claims && st.claims[k].meta.uid == uid
    ensures !Orphaned(st, [ControllerRef(CLAIM, k, uid)])
  {
  }

  /** An orphan after a calm step was one before it, with the same owners. */
  lemma OrphansShrink(m: System, s: Step, n: Name)
    requires Inv(m) && PassesLive(m) && Enabled(m, s) && Calm(m, s)
    requires Orphan(Do(m, s).st, n)
    ensures Orphan(m.st, n) && m.st.sandboxes[n].meta.owners == Do(m, s).st.sandboxes[n].meta.owners
  {
    CalmStays(m, s);
    var st2 := Do(m, s).st;
    OrphanedBefore(m.st, st2, st2.sandboxes[n].meta.owners);
    if n !in m.st.sandboxes {
      NewcomersHaveOwners(m, s, n);
    } else if m.st.sandboxes[n].meta.owners != st2.sandboxes[n].meta.owners {
      OwnersChangeByTakeoverOnly(m, s, n);
      ClaimRefIsLive(m.st, s.k, m.passes[s.k].claim.meta.uid);
    }
  }

  lemma NewcomersHaveOwners(m: System, s: Step, n: Name)
    requires SwapsAreCurrent(m) && PassesLive(m) && Enabled(m, s) && Calm(m, s)
    requires n !in m.st.sandboxes && n in Do(m, s).st.sandboxes
    ensures !Orphaned(m.st, Do(m, s).st.sandboxes[n].meta.owners)
  {
    match s
    case PassStep(k, draw) => NewcomerOfPass(m, k, draw, n);
    case _ =>
  }

  lemma NewcomerOfPass(m: System, k: Name, draw: Draw, n: Name)
    requires SwapsAreCurrent(m) && PassesLive(m) && k in m.passes
    requires n !in m.st.sandboxes && n in DoPass(m, k, draw).st.sandboxes
    ensures !Orphaned(m.st, DoPass(m, k, draw).st.sandboxes[n].meta.owners)
  {
    AdvanceSandboxes(m.st, k, m.passes[k], draw);
    ClaimRefIsLive(m.st, k, m.passes[k].claim.meta.uid);
  }

  lemma PassesStayLive(m: System, s: Step)
    requires PassesLive(m) && Enabled(m, s) && Calm(m, s)
    ensures PassesLive(Do(m, s))
  {
    CalmStays(m, s);
    var m2 := Do(m, s);
    forall k | k in m2.passes ensures k in m2.st.claims && m2.st.claims[k].meta.uid == m2.passes[k].claim.meta.uid {
      if s.PassStep? && s.k == k {
        PassKeepsClaim(m, k, s.draw);
      }
    }
  }

  lemma PassKeepsClaim(m: System, k: Name, draw: Draw)
    requires k in m.passes
    ensures k in DoPass(m, k, draw).passes ==> DoPass(m, k, draw).passes[k].claim == m.passes[k].claim
  {
  }

  // ---- A pass that was begun finds them ----

  /** The owners a pass went past are there. */
  ghost predicate ChecksOk(m: System) {
    forall n <- m.checks :: m.checks[n].Check? ==>
      && m.checks[n].i <= |m.checks[n].owners|
      && forall j :: 0 <= j < m.checks[n].i ==> !Dangling(m.st, m.checks[n].owners[j])
  }

  lemma ChecksStayOk(m: System, s: Step)
    requires ChecksOk(m) && Enabled(m, s) && Calm(m, s)
    ensures ChecksOk(Do(m, s))
  {
    CalmStays(m, s);
    var st, m2 := m.st, Do(m, s);
    assert forall ref :: !Dangling(st, ref) ==> !Dangling(m2.st, ref);
    ChecksMove(m, s);
  }

  lemma ChecksMove(m: System, s: Step)
    requires ChecksOk(m) && Enabled(m, s) && (forall ref :: !Dangling(m.st, ref) ==> !Dangling(Do(m, s).st, ref))
    ensures ChecksOk(Do(m, s))
  {
    var m2 := Do(m, s);
    forall n | n in m2.checks && m2.checks[n].Check?
      ensures m2.checks[n].i <= |m2.checks[n].owners|
      ensures forall j :: 0 <= j < m2.checks[n].i ==> !Dangling(m2.st, m2.checks[n].owners[j])
    {
      CheckMoves(m, s, n);
    }
  }

  /** Where the pass for n is after a step. */
  lemma CheckMoves(m: System, s: Step, n: Name)
    requires Enabled(m, s) && n in Do(m, s).checks && Do(m, s).checks[n].Check?
    ensures var c2 := Do(m, s).checks[n];
      || (s == ReadSandbox(n) && c2.i == 0)
      || (s == JudgeOwner(n) && m.checks[n].owners == c2.owners && c2.i == m.checks[n].i + 1 <= |c2.owners|
          && !Dangling(m.st, c2.owners[m.checks[n].i]))
      || (n in m.checks && m.checks[n] == c2)
  {
  }

  /** An orphan whose pass was begun is still before the owner that makes it one. */
  ghost predicate Found(m: System, read: set<Name>) {
    forall n :: n in read && Orphan(m.st, n) ==>
      n in m.checks && (m.checks[n].Check? ==> m.checks[n].owners == m.st.sandboxes[n].meta.owners)
  }

  function Reads(s: Step): set<Name> {
    if s.ReadSandbox? then {s.n} else {}
  }

  function AllReads(steps: seq<Step>): set<Name> {
    if steps == [] then {} else Reads(steps[0]) + AllReads(steps[1..])
  }

  lemma FoundStep(m: System, s: Step, read: set<Name>)
    requires Inv(m) && PassesLive(m) && ChecksOk(m) && Found(m, read) && Enabled(m, s) && Calm(m, s)
    ensures Found(Do(m, s), read + Reads(s))
  {
    var m2 := Do(m, s);
    forall n | n in read + Reads(s) && Orphan(m2.st, n)
      ensures n in m2.checks && (m2.checks[n].Check? ==> m2.checks[n].owners == m2.st.sandboxes[n].meta.owners)
    {
      OrphansShrink(m, s, n);
      CalmStays(m, s);
      OrphanedBefore(m.st, m2.st, m2.st.sandboxes[n].meta.owners);
      FoundOne(m, s, n, n in read);
    }
  }

  lemma FoundOne(m: System, s: Step, n: Name, wasRead: bool)
    requires ChecksOk(m) && Enabled(m, s) && Orphan(m.st, n) && n in Do(m, s).st.sandboxes
    requires m.st.sandboxes[n].meta.owners == Do(m, s).st.sandboxes[n].meta.owners
    requires wasRead ==> n in m.checks && (m.checks[n].Check? ==> m.checks[n].owners == m.st.sandboxes[n].meta.owners)
    requires wasRead || s == ReadSandbox(n)
    ensures var m2 := Do(m, s); n in m2.checks && (m2.checks[n].Check? ==> m2.checks[n].owners == m2.st.sandboxes[n].meta.owners)
  {
  }

  lemma {:induction false} CalmRunFinds(m: System, steps: seq<Step>, read: set<Name>)
    requires Inv(m) && PassesLive(m) && ChecksOk(m) && Found(m, read)
    requires CanRun(m, steps) && CalmRun(m, steps)
    ensures Found(After(m, steps), read + AllReads(steps))
    ensures forall n :: Orphan(After(m, steps).st, n) ==> Orphan(m.st, n)
    decreases |steps|
  {
    if steps != [] {
      var s, m1 := steps[0], Do(m, steps[0]);
      StepKeepsInv(m, s);
      PassesStayLive(m, s);
      ChecksStayOk(m, s);
      FoundStep(m, s, read);
      CalmRunFinds(m1, steps[1..], read + Reads(s));
      assert read + Reads(s) + AllReads(steps[1..]) == read + AllReads(steps);
      forall n | Orphan(After(m, steps).st, n) ensures Orphan(m.st, n) {
        OrphansShrink(m, s, n);
      }
    } else {
      assert read + AllReads(steps) == read;
    }
  }

  /**
   * From any reachable state in which no sandbox pass is under way and every claim pass is a living
   * claim's - after a claim was deleted in the middle of its pass, that is once this pass has ended -
   * every calm run in which each orphan's pass begins, and no pass is left unfinished, ends without orphans.
   */
  lemma NoOrphanIsLeft(now: int, before: seq<Step>, steps: seq<Step>, n: Name)
    requires CanRun(Empty(now), before)
    requires var m := After(Empty(now), before);
      && m.checks == map[] && PassesLive(m)
      && CanRun(m, steps) && CalmRun(m, steps)
      && (forall o :: Orphan(m.st, o) ==> ReadSandbox(o) in steps)
      && After(m, steps).checks == map[]
    ensures !Orphan(After(After(Empty(now), before), steps).st, n)
  {
    var m := After(Empty(now), before);
    ReachableInv(now, before);
    CalmRunFinds(m, steps, {});
    if Orphan(After(m, steps).st, n) {
      assert ReadSandbox(n) in steps;
      ReadsAreRead(steps, n);
    }
  }

  lemma {:induction false} ReadsAreRead(steps: seq<Step>, n: Name)
    requires ReadSandbox(n) in steps
    ensures n in AllReads(steps)
  {
    if steps[0] != ReadSandbox(n) {
      ReadsAreRead(steps[1..], n);
    }
  }

  // ---- A pass run alone ----

  /** The rest of n's check with no other step in between. */
  function Finish(m: System, n: Name): System
    requires n in m.checks
    decreases if m.checks[n].Check? && m.checks[n].i <= |m.checks[n].owners| then |m.checks[n].owners| - m.checks[n].i + 1 else 0
  {
    if m.checks[n].Doomed? then Do(m, Collect(n))
    else
      var m2 := Do(m, JudgeOwner(n));
      if n in m2.checks then Finish(m2, n) else m2
  }

  lemma {:induction false} FinishCollects(m: System, n: Name)
    requires n in m.checks
    requires m.checks[n].Check? ==>
      m.checks[n].i <= |m.checks[n].owners| && forall j :: 0 <= j < m.checks[n].i ==> !Dangling(m.st, m.checks[n].owners[j])
    ensures Finish(m, n).st == if m.checks[n].Doomed? || Orphaned(m.st, m.checks[n].owners) then DropSandbox(m.st, n) else m.st
    ensures Finish(m, n).checks == m.checks - {n}
    decreases if m.checks[n].Check? then |m.checks[n].owners| - m.checks[n].i + 1 else 0
  {
    if m.checks[n].Check? {
      var m2 := Do(m, JudgeOwner(n));
      if n in m2.checks {
        FinishCollects(m2, n);
        assert m2.checks - {n} == m.checks - {n};
      }
    }
  }

  /** One sandbox pass after another, each run alone. */
  function Sweep(m: System, names: seq<Name>): System
    requires m.checks == map[]
    decreases |names|
  {
    if names == [] then m
    else if names[0] !in m.st.sandboxes then Sweep(m, names[1..])
    else
      var m1 := Do(m, ReadSandbox(names[0]));
      FinishCollects(m1, names[0]);
      assert m1.checks - {names[0]} == map[];
      Sweep(Finish(m1, names[0]), names[1..])
  }

  /** Passes run alone delete the orphans among the sandboxes they visit, and no other sandbox. */
  lemma {:induction false} SweepCollectsExactly(m: System, names: seq<Name>)
    requires m.checks == map[]
    ensures var st, st2 := m.st, Sweep(m, names).st;
      && st2.claims == st.claims && st2.pools == st.pools
      && (forall n :: n in st2.sandboxes <==> n in st.sandboxes && !(n in names && Orphan(st, n)))
      && (forall n <- st2.sandboxes :: st2.sandboxes[n] == st.sandboxes[n])
    decreases |names|
  {
    if names != [] {
      if names[0] !in m.st.sandboxes {
        SweepCollectsExactly(m, names[1..]);
      } else {
        var m1 := Do(m, ReadSandbox(names[0]));
        FinishCollects(m1, names[0]);
        assert m1.checks - {names[0]} == map[];
        SweepCollectsExactly(Finish(m1, names[0]), names[1..]);
        forall n ensures Orphan(Finish(m1, names[0]).st, n) ==> Orphan(m.st, n) {
        }
      }
    }
  }

  // ---- A pass that is not ----

  lemma {:induction false} RunOneMore(m: System, steps: seq<Step>, s: Step)
    requires CanRun(m, steps) && Enabled(After(m, steps), s)
    ensures CanRun(m, steps + [s]) && After(m, steps + [s]) == Do(After(m, steps), s)
    decreases |steps|
  {
    if steps != [] {
      RunOneMore(Do(m, steps[0]), steps[1..], s);
      assert (steps + [s])[1..] == steps[1..] + [s];
    } else {
      assert [s][1..] == [];
    }
  }

  const RACE_SPEC := SandboxSpec(PodSpec([], []), [], false, Running, None, false)
  const RACE_TEMPLATE: Template := Created(0, 0, 0, [], TemplateSpec(PodSpec([], []), [], false, Allowed, Allowed), ())
  const RACE_POOL: Pool := Created(1, 1, 0, [], PoolSpec(None, "tmpl"), PoolStatus(0, 0))
  const RACE_SANDBOX: Sandbox := Created(2, 2, 0, [ControllerRef(POOL, "pool", 1)], RACE_SPEC, NO_STATUS)
  const RACE_CLAIM: Claim := Created(3, 4, 0, [], ClaimSpec("pool", [], [], None), ClaimStatus([], "", []))
  const RACE_DRAW := Draw("sb", Err("ReconcilerError"))

  /** A pool with one sandbox, a claim, and the claim's pass somewhere on its way to that sandbox. */
  function RaceAt(at: At, pool: bool, rv: nat, checks: map<Name, Check>): System {
    System(Store(map["claim" := RACE_CLAIM], if pool then map["pool" := RACE_POOL] else map[], map["tmpl" := RACE_TEMPLATE],
                 map["sb" := RACE_SANDBOX], 4, rv, 0),
           map["claim" := Pass(RACE_CLAIM, at)], checks, map[3 := "claim"], [])
  }

  lemma RaceOpens()
    ensures exists steps :: CanRun(Empty(0), steps) && After(Empty(0), steps) == RaceAt(AtExpiry, true, 4, map[])
  {
    var none: map<Name, Sandbox> := map[];
    var s0, s1, s2, s3, s4 := CreatePool("pool", RACE_POOL.spec), CreateSandbox("sb", RACE_SANDBOX.meta.owners, RACE_SPEC),
      PutTemplate("tmpl", RACE_TEMPLATE), CreateClaim("claim", RACE_CLAIM.spec, RACE_CLAIM.status), Begin("claim");
    var m1 := System(Store(map[], map["pool" := RACE_POOL], map[], none, 2, 1, 0), map[], map[], map[], []);
    var m2 := m1.(st := m1.st.(sandboxes := map["sb" := RACE_SANDBOX], nextUid := 3, rv := 2));
    var m3 := m2.(st := m2.st.(templates := map["tmpl" := RACE_TEMPLATE], rv := 3));
    var m4 := m3.(st := m3.st.(claims := map["claim" := RACE_CLAIM], nextUid := 4, rv := 4), claimUids := map[3 := "claim"]);
    assert Do(Empty(0), s0) == m1;
    assert Do(m1, s1) == m2;
    assert Do(m2, s2) == m3;
    assert Do(m3, s3) == m4;
    assert Do(m4, s4) == RaceAt(AtExpiry, true, 4, map[]);
    assert CanRun(Empty(0), []) && After(Empty(0), []) == Empty(0);
    Reach(Empty(0), s0);
    Reach(m1, s1);
    Reach(m2, s2);
    Reach(m3, s3);
    Reach(m4, s4);
  }

  /** The claim's pass looks its way to the compare-and-swap. */
  lemma RaceWalks()
    ensures Enabled(RaceAt(AtExpiry, true, 4, map[]), PassStep("claim", RACE_DRAW))
    ensures Do(RaceAt(AtExpiry, true, 4, map[]), PassStep("claim", RACE_DRAW)) == RaceAt(AtPool, true, 4, map[])
    ensures Do(RaceAt(AtPool, true, 4, map[]), PassStep("claim", RACE_DRAW)) == RaceAt(AtTemplate("tmpl"), true, 4, map[])
    ensures Do(RaceAt(AtTemplate("tmpl"), true, 4, map[]), PassStep("claim", RACE_DRAW)) == RaceAt(AtExisting, true, 4, map[])
    ensures Do(RaceAt(AtExisting, true, 4, map[]), PassStep("claim", RACE_DRAW)) == RaceAt(AtList, true, 4, map[])
  {
  }

  lemma RacePicks()
    ensures Enabled(RaceAt(AtList, true, 4, map[]), PassStep("claim", RACE_DRAW))
    ensures Do(RaceAt(AtList, true, 4, map[]), PassStep("claim", RACE_DRAW)) == RaceAt(AtPick("sb", 0), true, 4, map[])
    ensures Do(RaceAt(AtPick("sb", 0), true, 4, map[]), PassStep("claim", RACE_DRAW))
         == RaceAt(AtSwap("sb", RACE_SANDBOX, 0), true, 4, map[])
  {
    assert RACE_SANDBOX.meta.owners[0] == ControllerRef(POOL, "pool", 1);
    var st := RaceAt(AtList, true, 4, map[]).st;
    assert Candidate(st, "pool", "sb");
    assert MayPick(st, "pool", "sb");
  }

  /** The pool goes, and a sandbox pass finds the sandbox to be an orphan. */
  lemma RaceDooms()
    ensures var swap := AtSwap("sb", RACE_SANDBOX, 0);
      && Do(RaceAt(swap, true, 4, map[]), DeletePool("pool")) == RaceAt(swap, false, 5, map[])
      && Do(RaceAt(swap, false, 5, map[]), ReadSandbox("sb")) == RaceAt(swap, false, 5, map["sb" := Check(2, RACE_SANDBOX.meta.owners, 0)])
      && Do(RaceAt(swap, false, 5, map["sb" := Check(2, RACE_SANDBOX.meta.owners, 0)]), JudgeOwner("sb"))
           == RaceAt(swap, false, 5, map["sb" := Doomed(2, RACE_SANDBOX.meta.owners, 0)])
  {
  }

  /** The claim takes the sandbox over, and the sandbox pass deletes it. */
  lemma RaceEnds()
    ensures var m := RaceAt(AtSwap("sb", RACE_SANDBOX, 0), false, 5, map["sb" := Doomed(2, RACE_SANDBOX.meta.owners, 0)]);
      && Enabled(m, PassStep("claim", RACE_DRAW))
      && var m2 := Do(m, PassStep("claim", RACE_DRAW));
      && Enabled(m2, Collect("sb")) && Controls(m2.st, "sb", 3) && !Orphan(m2.st, "sb")
      && "claim" in m2.st.claims && m2.st.claims["claim"].meta.uid == 3
      && "sb" !in Do(m2, Collect("sb")).st.sandboxes
  {
    var m := RaceAt(AtSwap("sb", RACE_SANDBOX, 0), false, 5, map["sb" := Doomed(2, RACE_SANDBOX.meta.owners, 0)]);
    var m2 := Do(m, PassStep("claim", RACE_DRAW));
    assert m2.st.sandboxes["sb"].meta.owners == [ControllerRef(CLAIM, "claim", 3)];
    ClaimRefIsLive(m2.st, "claim", 3);
  }

  /** From one reachable system, by one step, to another. */
  lemma Reach(m: System, s: Step)
    requires exists steps :: CanRun(Empty(0), steps) && After(Empty(0), steps) == m
    requires Enabled(m, s)
    ensures exists steps :: CanRun(Empty(0), steps) && After(Empty(0), steps) == Do(m, s)
  {
    var steps :| CanRun(Empty(0), steps) && After(Empty(0), steps) == m;
    RunOneMore(Empty(0), steps, s);
  }

  /**
   * The exactness of a pass run alone is lost when passes interleave: orphan collection deletes by
   * name, without the version it read, and so can take the sandbox that a living claim has just taken over.
   */
  lemma CollectionCanTakeALiveSandbox()
    ensures exists steps, k, n :: CanRun(Empty(0), steps) && TakesLive(After(Empty(0), steps), k, n)
  {
    var walk, swap := PassStep("claim", RACE_DRAW), AtSwap("sb", RACE_SANDBOX, 0);
    RaceOpens();
    RaceWalks();
    RacePicks();
    Reach(RaceAt(AtExpiry, true, 4, map[]), walk);
    Reach(RaceAt(AtPool, true, 4, map[]), walk);
    Reach(RaceAt(AtTemplate("tmpl"), true, 4, map[]), walk);
    Reach(RaceAt(AtExisting, true, 4, map[]), walk);
    Reach(RaceAt(AtList, true, 4, map[]), walk);
    Reach(RaceAt(AtPick("sb", 0), true, 4, map[]), walk);
    RaceDooms();
    Reach(RaceAt(swap, true, 4, map[]), DeletePool("pool"));
    Reach(RaceAt(swap, false, 5, map[]), ReadSandbox("sb"));
    Reach(RaceAt(swap, false, 5, map["sb" := Check(2, RACE_SANDBOX.meta.owners, 0)]), JudgeOwner("sb"));
    RaceEnds();
    var m := RaceAt(swap, false, 5, map["sb" := Doomed(2, RACE_SANDBOX.meta.owners, 0)]);
    Reach(m, walk);
    assert TakesLive(Do(m, walk), "claim", "sb");
  }

  /** The next step may delete the sandbox of claim k, which is alive. */
  ghost predicate TakesLive(m: System, k: Name, n: Name) {
    && Enabled(m, Collect(n)) && k in m.st.claims && Controls(m.st, n, m.st.claims[k].meta.uid) && !Orphan(m.st, n)
    && n !in Do(m, Collect(n)).st.sandboxes
  }
}
