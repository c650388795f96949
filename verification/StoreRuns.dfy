/** What holds over every run of store operations: the invariant, versions and object lives. */
module StoreRuns {
  import opened Prelude
  import opened Json
  import opened Objects
  import opened StoreSpec
  import Decimal

  // ---- The invariant ----

  /** The contents a log replays to are filed under their own keys and stamped within its range. */
  lemma {:induction false} ReplayWellFormed(resources: map<GVR, bool>, base: map<Key, Object>, baseRV: nat,
      log: seq<Event>)
    requires WellFormedBase(resources, base, baseRV) && WellFormedLog(resources, baseRV, log)
    ensures WellFormedBase(resources, Replay(resources, base, log), baseRV + |log|)
  {
    if log != [] {
      var n := |log| - 1;
      ReplayWellFormed(resources, base, baseRV, log[..n]);
      var before, after := Replay(resources, base, log[..n]), Replay(resources, base, log);
      forall k | k in after ensures WellKeyed(resources, k, after[k]) && StampedUpTo(after[k], baseRV + |log|) {
        if k == KeyOf(resources, log[n].gvr, log[n].obj) {
          assert StampedBy(log[n].obj, log[n].rv);
        } else {
          assert k in before && after[k] == before[k];
          var m: nat :| m <= baseRV + n && StampedBy(before[k], m);
          assert StampedBy(after[k], m);
        }
      }
    }
  }

  lemma DataWellFormed(s: State)
    requires Inv(s)
    ensures WellFormedBase(s.resources, s.data, s.rv)
  {
    ReplayWellFormed(s.resources, s.base, s.baseRV, s.log);
  }

  lemma ReplayAppend(resources: map<GVR, bool>, m: map<Key, Object>, log: seq<Event>, ev: Event)
    ensures Replay(resources, m, log + [ev]) == ApplyEvent(resources, Replay(resources, m, log), ev)
  {
    assert (log + [ev])[..|log|] == log;
  }

  lemma CommitKeepsInv(s: State, k: Key, contents: Option<Object>, ev: Event)
    requires Inv(s) && ev.rv == s.rv + 1 && StampedBy(ev.obj, ev.rv) && ev.gvr == k.gvr
    requires WellKeyed(s.resources, k, ev.obj)
    requires contents == if ev.kind.Deleted? then None else Some(ev.obj)
    ensures Inv(Commit(s, k, contents, ev))
  {
    var t := Commit(s, k, contents, ev);
    ReplayAppend(s.resources, s.base, s.log, ev);
    assert t.history == Trim(t.log, t.histCap);
  }

  lemma PutKeepsInv(s: State, k: Key, o: Object, kind: EventType)
    requires Inv(s) && !kind.Deleted? && WellKeyed(s.resources, k, o)
    ensures Inv(Put(s, k, o, kind).state) && OneWrite(s, Put(s, k, o, kind), k)
    ensures Put(s, k, o, kind).state.data == s.data[k := WithRV(o, s.rv + 1)]
  {
    SettersFrame(o, "resourceVersion", Decimal.FormatUint(s.rv + 1), 0);
    var stamped := WithRV(o, s.rv + 1);
    CommitKeepsInv(s, k, Some(stamped), Event(kind, k.gvr, stamped, s.rv + 1));
  }

  /** A merged object is filed where the old one was. */
  lemma MergeWellKeyed(resources: map<GVR, bool>, k: Key, current: Object, incoming: Object, isStatus: bool)
    requires WellKeyed(resources, k, current) && WellKeyed(resources, k, incoming)
    ensures WellKeyed(resources, k, MergeForUpdate(current, incoming, isStatus))
  {
    if !isStatus {
      var r1 := WithMetaString(incoming, "uid", UID(current));
      var r2 := WithMetaString(r1, "creationTimestamp", CreationTime(current));
      var r3 := WithStatusOf(r2, current);
      SettersFrame(incoming, "uid", UID(current), 0);
      SettersFrame(r1, "creationTimestamp", CreationTime(current), 0);
      assert Metadata(r3) == Metadata(r2);
      SettersFrame(r3, "", "", Generation(current));
      SettersFrame(r3, "", "", Generation(current) + 1);
    } else {
      assert Metadata(WithStatusOf(current, incoming)) == Metadata(current);
    }
  }

  lemma IncomingWellKeyed(resources: map<GVR, bool>, k: Key, current: Object, incoming: Object)
    requires WellKeyed(resources, k, current) && NoSlash(Namespace(incoming))
    requires KeyOf(resources, k.gvr, incoming) == k
    ensures WellKeyed(resources, k, incoming)
    ensures Name(incoming) == Name(current)
    ensures Namespaced(resources, k.gvr) ==> Namespace(incoming) == Namespace(current)
  {
    PathInjective(Namespace(current), Name(current), Namespace(incoming), Name(incoming));
    if !Namespaced(resources, k.gvr) {
      assert Name(incoming) == k.path[1..] && Name(current) == k.path[1..];
    }
  }

  lemma PreparedFields(o: Object, name: string, minted: Minted)
    requires Name(o) != "" || GenerateName(o) != ""
    requires name != "" && minted.uid != ""
    ensures var p := Prepared(o, name, minted);
      && Name(p) == name && Namespace(p) == Namespace(o)
      && UID(p) == (if UID(o) == "" then minted.uid else UID(o))
      && CreationTime(p) == (if CreationTime(o) == "" then minted.now else CreationTime(o))
      && Generation(p) == 1 && p - {"metadata"} == o - {"metadata"}
  {
    var o1 := WithMetaString(o, "name", name);
    var o2 := if UID(o1) == "" then WithMetaString(o1, "uid", minted.uid) else o1;
    var o3 := WithGeneration(o2, 1);
    SettersFrame(o, "name", name, 1);
    SettersFrame(o1, "uid", minted.uid, 1);
    SettersFrame(o2, "", "", 1);
    SettersFrame(o3, "creationTimestamp", minted.now, 1);
  }

  lemma ScopedFields(resources: map<GVR, bool>, gvr: GVR, o: Object)
    requires Name(o) != "" || GenerateName(o) != ""
    ensures var p := Scoped(resources, gvr, o);
      && Name(p) == Name(o) && GenerateName(p) == GenerateName(o) && UID(p) == UID(o)
      && CreationTime(p) == CreationTime(o) && p - {"metadata"} == o - {"metadata"}
      && Namespace(p) == (if Namespaced(resources, gvr) then Namespace(o) else "")
  {
    SettersFrame(o, "namespace", "", 0);
  }

  lemma UnscopedNames(o: Object)
    ensures Name(WithMetaString(o, "namespace", "")) == Name(o)
    ensures GenerateName(WithMetaString(o, "namespace", "")) == GenerateName(o)
  {
  }

  lemma CreateKeepsInv(s: State, gvr: GVR, obj: Object, minted: Minted)
    requires Inv(s) && Admissible(s, CreateOp(gvr, obj, minted))
    ensures Inv(Create(s, gvr, obj, minted).state)
    ensures OneWrite(s, Create(s, gvr, obj, minted), CreateKey(s, gvr, obj, minted.suffix))
    ensures Create(s, gvr, obj, minted).result.Ok? ==>
      var o := Scoped(s.resources, gvr, obj);
      var k := CreateKey(s, gvr, obj, minted.suffix);
      Create(s, gvr, obj, minted).state.data ==
        s.data[k := WithRV(Prepared(o, CreateName(o, minted.suffix), minted), s.rv + 1)]
  {
    if Create(s, gvr, obj, minted).result.Ok? {
      var o := Scoped(s.resources, gvr, obj);
      UnscopedNames(obj);
      ScopedFields(s.resources, gvr, obj);
      PreparedFields(o, CreateName(o, minted.suffix), minted);
      PutKeepsInv(s, CreateKey(s, gvr, obj, minted.suffix), Prepared(o, CreateName(o, minted.suffix), minted), Added);
    }
  }

  lemma ReplaceKeepsInv(s: State, k: Key, incoming: Object, isStatus: bool)
    requires Inv(s) && k in s.data && NoSlash(Namespace(incoming)) && KeyOf(s.resources, k.gvr, incoming) == k
    ensures Inv(Replace(s, k, incoming, isStatus).state) && OneWrite(s, Replace(s, k, incoming, isStatus), k)
    ensures Replace(s, k, incoming, isStatus).result.Ok? ==>
      Replace(s, k, incoming, isStatus).state.data ==
        s.data[k := WithRV(MergeForUpdate(s.data[k], incoming, isStatus), s.rv + 1)]
  {
    DataWellFormed(s);
    IncomingWellKeyed(s.resources, k, s.data[k], incoming);
    MergeWellKeyed(s.resources, k, s.data[k], incoming, isStatus);
    PutKeepsInv(s, k, MergeForUpdate(s.data[k], incoming, isStatus), Modified);
  }

  lemma DeleteKeepsInv(s: State, gvr: GVR, namespace: string, name: string)
    requires Inv(s)
    ensures Inv(Delete(s, gvr, namespace, name).state)
    ensures OneWrite(s, Delete(s, gvr, namespace, name), KeyFor(s.resources, gvr, namespace, name))
  {
    var k := KeyFor(s.resources, gvr, namespace, name);
    if gvr in s.resources && k in s.data {
      DataWellFormed(s);
      SettersFrame(s.data[k], "resourceVersion", Decimal.FormatUint(s.rv + 1), 0);
      CommitKeepsInv(s, k, None, Event(Deleted, gvr, WithRV(s.data[k], s.rv + 1), s.rv + 1));
    }
  }

  function OpKey(s: State, op: Op): Key {
    match op
    case CreateOp(gvr, obj, minted) => CreateKey(s, gvr, obj, minted.suffix)
    case UpdateOp(gvr, obj, isStatus) => KeyOf(s.resources, gvr, obj)
    case PatchOp(gvr, namespace, name, patch, isStatus) => KeyFor(s.resources, gvr, namespace, name)
    case DeleteOp(gvr, namespace, name) => KeyFor(s.resources, gvr, namespace, name)
  }

  /**
   * Every operation keeps the invariant: in particular the history stays the contiguous run of the
   * last min(cap, writes) events, whose versions end at the store's.
   */
  lemma ApplyKeepsInv(s: State, op: Op)
    requires Inv(s) && Admissible(s, op)
    ensures Inv(Apply(s, op).state) && OneWrite(s, Apply(s, op), OpKey(s, op))
  {
    match op
    case CreateOp(gvr, obj, minted) => CreateKeepsInv(s, gvr, obj, minted);
    case UpdateOp(gvr, obj, isStatus) =>
      if gvr in s.resources && OpKey(s, op) in s.data {
        ReplaceKeepsInv(s, OpKey(s, op), obj, isStatus);
      }
    case PatchOp(gvr, namespace, name, patch, isStatus) =>
      var k := OpKey(s, op);
      if gvr in s.resources && k in s.data && Patched(s.data[k], patch).Some? {
        DataWellFormed(s);
        ReplaceKeepsInv(s, k, Patched(s.data[k], patch).value, isStatus);
      }
    case DeleteOp(gvr, namespace, name) => DeleteKeepsInv(s, gvr, namespace, name);
  }

  // ---- Runs ----

  ghost predicate AdmissibleRun(s: State, ops: seq<Op>)
    decreases |ops|
  {
    ops == [] || (Admissible(s, ops[0]) && AdmissibleRun(Apply(s, ops[0]).state, ops[1..]))
  }

  /** The state after the first n operations of a run. */
  ghost function After(s: State, ops: seq<Op>, n: nat): State
    requires AdmissibleRun(s, ops) && n <= |ops|
    decreases n
  {
    if n == 0 then s else After(Apply(s, ops[0]).state, ops[1..], n - 1)
  }

  lemma {:induction false} AfterStep(s: State, ops: seq<Op>, n: nat)
    requires AdmissibleRun(s, ops) && n < |ops|
    ensures Admissible(After(s, ops, n), ops[n])
    ensures After(s, ops, n + 1) == Apply(After(s, ops, n), ops[n]).state
    decreases n
  {
    if n > 0 {
      AfterStep(Apply(s, ops[0]).state, ops[1..], n - 1);
    }
  }

  lemma StepKeepsInv(s: State, ops: seq<Op>, n: nat)
    requires AdmissibleRun(s, ops) && n < |ops| && Inv(After(s, ops, n))
    ensures Inv(After(s, ops, n + 1)) && SameStart(After(s, ops, n), After(s, ops, n + 1))
    ensures After(s, ops, n).log <= After(s, ops, n + 1).log
  {
    AfterStep(s, ops, n);
    ApplyKeepsInv(After(s, ops, n), ops[n]);
  }

  /** The invariant holds throughout, and the log only grows. */
  lemma {:induction false} RunKeepsInv(s: State, ops: seq<Op>, m: nat, n: nat)
    requires Inv(s) && AdmissibleRun(s, ops) && m <= n <= |ops|
    ensures Inv(After(s, ops, n)) && SameStart(s, After(s, ops, n))
    ensures After(s, ops, m).log <= After(s, ops, n).log
    decreases n
  {
    if n > 0 {
      RunKeepsInv(s, ops, if m == n then n - 1 else m, n - 1);
      StepKeepsInv(s, ops, n - 1);
    }
  }

  // ---- Optimistic concurrency ----

  ghost predicate Touches(s: State, i: nat, k: Key)
    requires i < |s.log|
  {
    KeyOf(s.resources, s.log[i].gvr, s.log[i].obj) == k
  }

  ghost predicate UntouchedSince(s: State, n: nat, k: Key) {
    forall i :: n <= i < |s.log| ==> !Touches(s, i, k)
  }

  /** A key nobody touched since the log had length n holds what it held then. */
  lemma {:induction false} UntouchedKeepsContents(s: State, n: nat, m: nat, k: Key)
    requires n <= m <= |s.log| && UntouchedSince(s, n, k)
    ensures var a, b := Replay(s.resources, s.base, s.log[..n]), Replay(s.resources, s.base, s.log[..m]);
      (k in a <==> k in b) && (k in a ==> a[k] == b[k])
    decreases m
  {
    if n < m {
      UntouchedKeepsContents(s, n, m - 1, k);
      assert s.log[..m][..m - 1] == s.log[..m - 1];
      assert !Touches(s, m - 1, k);
    }
  }

  /** A key touched after the log had length n is gone or carries a version above that range. */
  lemma {:induction false} TouchedIsNewer(s: State, n: nat, i: nat, m: nat, k: Key)
    requires Inv(s) && n <= i < m <= |s.log| && Touches(s, i, k)
    ensures var b := Replay(s.resources, s.base, s.log[..m]);
      k in b ==> exists v: nat :: s.baseRV + n < v && StampedBy(b[k], v)
    decreases m
  {
    assert s.log[..m][..m - 1] == s.log[..m - 1];
    if Touches(s, m - 1, k) {
      assert StampedBy(s.log[m - 1].obj, s.log[m - 1].rv);
    } else {
      TouchedIsNewer(s, n, i, m - 1, k);
    }
  }

  lemma PrefixWellFormed(s: State, n: nat)
    requires Inv(s) && n <= |s.log|
    ensures WellFormedBase(s.resources, Replay(s.resources, s.base, s.log[..n]), s.baseRV + n)
  {
    assert forall i :: 0 <= i < n ==> s.log[..n][i] == s.log[i];
    ReplayWellFormed(s.resources, s.base, s.baseRV, s.log[..n]);
  }

  /** The version a key had when the log had length n is the one it has now iff nobody touched it since. */
  lemma SameVersionIffUntouched(s: State, n: nat, k: Key)
    requires Inv(s) && n <= |s.log| && k in Replay(s.resources, s.base, s.log[..n])
    ensures var before := Replay(s.resources, s.base, s.log[..n]);
      && ResourceVersion(before[k]) != ""
      && (UntouchedSince(s, n, k) <==> k in s.data && ResourceVersion(s.data[k]) == ResourceVersion(before[k]))
  {
    var before := Replay(s.resources, s.base, s.log[..n]);
    assert s.log[..|s.log|] == s.log;
    PrefixWellFormed(s, n);
    var u: nat :| u <= s.baseRV + n && StampedBy(before[k], u);
    if UntouchedSince(s, n, k) {
      UntouchedKeepsContents(s, n, |s.log|, k);
    } else if k in s.data {
      var i :| n <= i < |s.log| && Touches(s, i, k);
      TouchedIsNewer(s, n, i, |s.log|, k);
      var v: nat :| s.baseRV + n < v && StampedBy(s.data[k], v);
      Decimal.FormatInjective(u, v);
    }
  }

  /**
   * Take any earlier point of the log and the version the key's object had there. An Update
   * carrying that version succeeds exactly when no write, delete or recreate touched the key since.
   */
  lemma UpdateSucceedsIffUntouched(s: State, n: nat, gvr: GVR, incoming: Object, isStatus: bool)
    requires Inv(s) && n <= |s.log|
    requires KeyOf(s.resources, gvr, incoming) in Replay(s.resources, s.base, s.log[..n])
    requires ResourceVersion(incoming) ==
      ResourceVersion(Replay(s.resources, s.base, s.log[..n])[KeyOf(s.resources, gvr, incoming)])
    ensures var k := KeyOf(s.resources, gvr, incoming);
      var r := Update(s, gvr, incoming, isStatus).result;
      && (r.Ok? <==> UntouchedSince(s, n, k))
      && (r.Err? ==> r.error == if k in s.data then Conflict else NotFound)
  {
    var k := KeyOf(s.resources, gvr, incoming);
    PrefixWellFormed(s, n);
    SameVersionIffUntouched(s, n, k);
    assert gvr in s.resources;
  }

  ghost predicate SameAttempt(s: State, op1: Op, op2: Op) {
    && op1.UpdateOp? && op2.UpdateOp?
    && op1.gvr == op2.gvr && KeyOf(s.resources, op1.gvr, op1.obj) == KeyOf(s.resources, op2.gvr, op2.obj)
    && ResourceVersion(op1.obj) == ResourceVersion(op2.obj) != ""
  }

  /** A successful update leaves its mark in every later log. */
  lemma UpdateLeavesMark(s: State, t: State, op: Op)
    requires Inv(s) && Admissible(s, op) && op.UpdateOp? && Apply(s, op).result.Ok?
    requires Apply(s, op).state.log <= t.log && SameStart(s, t)
    ensures t.log[..|s.log|] == s.log && |s.log| < |t.log| && Touches(t, |s.log|, KeyOf(s.resources, op.gvr, op.obj))
  {
    ApplyKeepsInv(s, op);
    var s' := Apply(s, op).state;
    assert s'.log[|s.log|] == t.log[|s.log|];
  }

  lemma SecondUpdateFails(s: State, t: State, op1: Op, op2: Op)
    requires Inv(s) && Inv(t) && Admissible(s, op1) && SameStart(s, t)
    requires Admissible(t, op2)
    requires SameAttempt(s, op1, op2) && Apply(s, op1).result.Ok? && Apply(s, op1).state.log <= t.log
    ensures Apply(t, op2).result.Err?
  {
    UpdateLeavesMark(s, t, op1);
    assert s.log[..|s.log|] == s.log;
    UpdateSucceedsIffUntouched(t, |s.log|, op2.gvr, op2.obj, op2.isStatus);
  }

  lemma PointsShareStart(s: State, ops: seq<Op>, i: nat, j: nat)
    requires Inv(s) && AdmissibleRun(s, ops) && i < j < |ops|
    ensures Inv(After(s, ops, i)) && Inv(After(s, ops, j))
    ensures After(s, ops, i).resources == s.resources && SameStart(After(s, ops, i), After(s, ops, j))
  {
    RunKeepsInv(s, ops, i, i);
    RunKeepsInv(s, ops, j, j);
  }

  lemma PointsAreOrdered(s: State, ops: seq<Op>, i: nat, j: nat)
    requires Inv(s) && AdmissibleRun(s, ops) && i < j < |ops| && Admissible(After(s, ops, i), ops[i])
    ensures Apply(After(s, ops, i), ops[i]).state.log <= After(s, ops, j).log
  {
    assert After(s, ops, i + 1).log <= After(s, ops, j).log by {
      RunKeepsInv(s, ops, i + 1, j);
    }
    AfterStep(s, ops, i);
  }

  /** Of any number of updates based on one version of an object, at most one succeeds in any run. */
  lemma AtMostOneUpdateWins(s: State, ops: seq<Op>, i: nat, j: nat)
    requires Inv(s) && AdmissibleRun(s, ops) && i < j < |ops| && SameAttempt(s, ops[i], ops[j])
    requires Admissible(After(s, ops, i), ops[i]) && Admissible(After(s, ops, j), ops[j])
    ensures !(Apply(After(s, ops, i), ops[i]).result.Ok? && Apply(After(s, ops, j), ops[j]).result.Ok?)
  {
    PointsShareStart(s, ops, i, j);
    var si, sj := After(s, ops, i), After(s, ops, j);
    PointsAreOrdered(s, ops, i, j);
    if Apply(si, ops[i]).result.Ok? {
      SecondUpdateFails(si, sj, ops[i], ops[j]);
    }
  }

  // ---- Object lives ----

  /** What an object is from its Create on, told without looking at what the store filed. */
  datatype Life = Life(uid: string, created: string, spec: Json, specWrites: nat, status: Option<Json>)

  function StatusOf(o: Object): Option<Json> {
    if "status" in o then Some(o["status"]) else None
  }

  function Born(obj: Object, minted: Minted): Life {
    Life(
      if UID(obj) == "" then minted.uid else UID(obj),
      if CreationTime(obj) == "" then minted.now else CreationTime(obj),
      Field(obj, "spec"), 0, StatusOf(obj))
  }

  function Rewritten(life: Life, incoming: Object, isStatus: bool): Life {
    if isStatus then life.(status := StatusOf(incoming))
    else if Field(incoming, "spec") == life.spec then life
    else life.(spec := Field(incoming, "spec"), specWrites := life.specWrites + 1)
  }

  ghost function LivesStep(s: State, op: Op, lives: map<Key, Life>): map<Key, Life>
    requires Admissible(s, op)
  {
    var k := OpKey(s, op);
    if Apply(s, op).result.Err? then lives else
    match op
    case CreateOp(gvr, obj, minted) => lives[k := Born(obj, minted)]
    case UpdateOp(gvr, obj, isStatus) => if k in lives then lives[k := Rewritten(lives[k], obj, isStatus)] else lives
    case PatchOp(gvr, namespace, name, patch, isStatus) =>
      if k in lives && k in s.data && Patched(s.data[k], patch).Some?
      then lives[k := Rewritten(lives[k], Patched(s.data[k], patch).value, isStatus)]
      else lives
    case DeleteOp(gvr, namespace, name) => lives - {k}
  }

  /** The lives of the objects created in a run and not deleted since. */
  ghost function Lives(s: State, ops: seq<Op>, n: nat): map<Key, Life>
    requires AdmissibleRun(s, ops) && n <= |ops|
  {
    if n == 0 then map[] else
    AfterStep(s, ops, n - 1);
    LivesStep(After(s, ops, n - 1), ops[n - 1], Lives(s, ops, n - 1))
  }

  ghost predicate Tells(life: Life, o: Object) {
    && UID(o) == life.uid && CreationTime(o) == life.created
    && Generation(o) == 1 + life.specWrites
    && Field(o, "spec") == life.spec && StatusOf(o) == life.status
  }

  ghost predicate Agree(s: State, lives: map<Key, Life>) {
    forall k :: k in lives ==> k in s.data && Tells(lives[k], s.data[k])
  }

  lemma OutsideMetadata(o: Object, p: Object)
    requires o - {"metadata"} == p - {"metadata"}
    ensures Field(o, "spec") == Field(p, "spec") && StatusOf(o) == StatusOf(p)
  {
    assert forall f :: f != "metadata" ==>
      (f in o <==> f in o - {"metadata"}) && (f in p <==> f in p - {"metadata"});
    assert "spec" in o ==> o["spec"] == (o - {"metadata"})["spec"];
    assert "spec" in p ==> p["spec"] == (p - {"metadata"})["spec"];
    assert "status" in o ==> o["status"] == (o - {"metadata"})["status"];
    assert "status" in p ==> p["status"] == (p - {"metadata"})["status"];
  }

  lemma StampKeepsLife(o: Object, rv: nat, life: Life)
    requires Name(o) != ""
    ensures Tells(life, o) <==> Tells(life, WithRV(o, rv))
  {
    SettersFrame(o, "resourceVersion", Decimal.FormatUint(rv), 0);
    OutsideMetadata(o, WithRV(o, rv));
  }

  lemma MergeTellsLife(current: Object, incoming: Object, isStatus: bool, life: Life)
    requires Name(current) != "" && Name(incoming) != "" && Tells(life, current)
    ensures Tells(Rewritten(life, incoming, isStatus), MergeForUpdate(current, incoming, isStatus))
  {
    if isStatus {
      assert Metadata(WithStatusOf(current, incoming)) == Metadata(current);
    } else {
      var r1 := WithMetaString(incoming, "uid", UID(current));
      var r2 := WithMetaString(r1, "creationTimestamp", CreationTime(current));
      var r3 := WithStatusOf(r2, current);
      SettersFrame(incoming, "uid", UID(current), 0);
      SettersFrame(r1, "creationTimestamp", CreationTime(current), 0);
      OutsideMetadata(incoming, r1);
      OutsideMetadata(r1, r2);
      assert Metadata(r3) == Metadata(r2);
      var g := Generation(current) + (if Field(current, "spec") == Field(r3, "spec") then 0 else 1);
      SettersFrame(r3, "", "", g);
      OutsideMetadata(r3, WithGeneration(r3, g));
    }
  }

  lemma ReplaceTellsLife(s: State, k: Key, incoming: Object, isStatus: bool, life: Life)
    requires Inv(s) && k in s.data && NoSlash(Namespace(incoming)) && KeyOf(s.resources, k.gvr, incoming) == k
    requires Tells(life, s.data[k]) && Replace(s, k, incoming, isStatus).result.Ok?
    ensures var t := Replace(s, k, incoming, isStatus).state;
      k in t.data && Tells(Rewritten(life, incoming, isStatus), t.data[k]) && t.data == s.data[k := t.data[k]]
  {
    DataWellFormed(s);
    IncomingWellKeyed(s.resources, k, s.data[k], incoming);
    MergeTellsLife(s.data[k], incoming, isStatus, life);
    MergeWellKeyed(s.resources, k, s.data[k], incoming, isStatus);
    var m := MergeForUpdate(s.data[k], incoming, isStatus);
    StampKeepsLife(m, s.rv + 1, Rewritten(life, incoming, isStatus));
  }

  lemma CreateTellsLife(s: State, gvr: GVR, obj: Object, minted: Minted)
    requires Inv(s) && Admissible(s, CreateOp(gvr, obj, minted)) && Create(s, gvr, obj, minted).result.Ok?
    ensures var t := Create(s, gvr, obj, minted).state;
      var k := CreateKey(s, gvr, obj, minted.suffix);
      k in t.data && Tells(Born(obj, minted), t.data[k]) && t.data == s.data[k := t.data[k]]
  {
    var o := Scoped(s.resources, gvr, obj);
    UnscopedNames(obj);
    ScopedFields(s.resources, gvr, obj);
    var name := CreateName(o, minted.suffix);
    PreparedFields(o, name, minted);
    OutsideMetadata(obj, o);
    OutsideMetadata(o, Prepared(o, name, minted));
    StampKeepsLife(Prepared(o, name, minted), s.rv + 1, Born(obj, minted));
  }

  lemma AgreeAt(s: State, t: State, k: Key, lives: map<Key, Life>, life: Life)
    requires Agree(s, lives) && k in t.data && t.data == s.data[k := t.data[k]] && Tells(life, t.data[k])
    ensures Agree(t, lives[k := life])
  {
  }

  lemma AgreeElsewhere(s: State, t: State, k: Key, lives: map<Key, Life>)
    requires Agree(s, lives) && k !in lives
    requires forall x :: x in s.data && x != k ==> x in t.data && t.data[x] == s.data[x]
    ensures Agree(t, lives)
  {
  }

  lemma LiveReplaceAgrees(s: State, k: Key, incoming: Object, isStatus: bool, lives: map<Key, Life>)
    requires Inv(s) && k in s.data && NoSlash(Namespace(incoming)) && KeyOf(s.resources, k.gvr, incoming) == k
    requires Agree(s, lives) && Replace(s, k, incoming, isStatus).result.Ok? && k in lives
    ensures Agree(Replace(s, k, incoming, isStatus).state, lives[k := Rewritten(lives[k], incoming, isStatus)])
  {
    ReplaceTellsLife(s, k, incoming, isStatus, lives[k]);
    AgreeAt(s, Replace(s, k, incoming, isStatus).state, k, lives, Rewritten(lives[k], incoming, isStatus));
  }

  lemma LivesReplaceAgrees(s: State, k: Key, incoming: Object, isStatus: bool, lives: map<Key, Life>)
    requires Inv(s) && k in s.data && NoSlash(Namespace(incoming)) && KeyOf(s.resources, k.gvr, incoming) == k
    requires Agree(s, lives) && Replace(s, k, incoming, isStatus).result.Ok?
    ensures var t := Replace(s, k, incoming, isStatus).state;
      Agree(t, if k in lives then lives[k := Rewritten(lives[k], incoming, isStatus)] else lives)
  {
    var t := Replace(s, k, incoming, isStatus).state;
    if k in lives {
      LiveReplaceAgrees(s, k, incoming, isStatus, lives);
    } else {
      ReplaceKeepsInv(s, k, incoming, isStatus);
      AgreeElsewhere(s, t, k, lives);
    }
  }

  lemma LivesStepAgrees(s: State, op: Op, lives: map<Key, Life>)
    requires Inv(s) && Admissible(s, op) && Agree(s, lives)
    ensures Agree(Apply(s, op).state, LivesStep(s, op, lives))
  {
    var k := OpKey(s, op);
    var t := Apply(s, op).state;
    if Apply(s, op).result.Ok? {
      match op
      case CreateOp(gvr, obj, minted) =>
        CreateTellsLife(s, gvr, obj, minted);
        AgreeAt(s, t, k, lives, Born(obj, minted));
      case UpdateOp(gvr, obj, isStatus) => LivesReplaceAgrees(s, k, obj, isStatus, lives);
      case PatchOp(gvr, namespace, name, patch, isStatus) =>
        DataWellFormed(s);
        LivesReplaceAgrees(s, k, Patched(s.data[k], patch).value, isStatus, lives);
      case DeleteOp(gvr, namespace, name) =>
        assert t.data == s.data - {k};
        AgreeElsewhere(s, t, k, lives - {k});
    }
  }

  /**
   * Over every run: a live object's UID and creation time are those of its Create, its generation
   * is one plus the full writes that changed spec, and its status is the last the status path wrote.
   */
  lemma {:induction false} ObjectsLiveTheirLives(s: State, ops: seq<Op>, n: nat)
    requires Inv(s) && AdmissibleRun(s, ops) && n <= |ops|
    ensures Agree(After(s, ops, n), Lives(s, ops, n))
  {
    if n > 0 {
      ObjectsLiveTheirLives(s, ops, n - 1);
      RunKeepsInv(s, ops, n - 1, n - 1);
      AfterStep(s, ops, n - 1);
      LivesStepAgrees(After(s, ops, n - 1), ops[n - 1], Lives(s, ops, n - 1));
    }
  }

  // ---- Status writes and full writes ----

  /** What the metadata of a full write comes to. */
  function MergedMeta(current: Object, incoming: Object): map<string, Json> {
    var g := Generation(current) + (if Field(current, "spec") == Field(incoming, "spec") then 0 else 1);
    var m1 := SetString(Metadata(incoming), "uid", UID(current));
    var m2 := SetString(m1, "creationTimestamp", CreationTime(current));
    if g == 0 then m2 - {"generation"} else m2["generation" := Num(g)]
  }

  lemma FullMergeShape(current: Object, incoming: Object)
    requires Name(incoming) != ""
    ensures MergeForUpdate(current, incoming, false)
         == WithStatusOf(incoming, current)["metadata" := Obj(MergedMeta(current, incoming))]
  {
    var r1 := WithMetaString(incoming, "uid", UID(current));
    var r2 := WithMetaString(r1, "creationTimestamp", CreationTime(current));
    var r3 := WithStatusOf(r2, current);
    SetStringShape(incoming, "uid", UID(current));
    SetStringShape(r1, "creationTimestamp", CreationTime(current));
    assert Metadata(r3) == SetString(SetString(Metadata(incoming), "uid", UID(current)),
                                     "creationTimestamp", CreationTime(current));
    assert Field(r3, "spec") == Field(incoming, "spec");
  }

  lemma StampShape(o: Object, rv: nat)
    requires Name(o) != ""
    ensures WithRV(o, rv) == o["metadata" := Obj(Metadata(o)["resourceVersion" := Str(Decimal.FormatUint(rv))])]
  {
  }

  lemma StampedStatusMerge(current: Object, status: Object, rv: nat)
    requires Name(current) != ""
    ensures var b := WithRV(WithStatusOf(current, status), rv);
      && Name(b) == Name(current) && UID(b) == UID(current) && CreationTime(b) == CreationTime(current)
      && Generation(b) == Generation(current) && Field(b, "spec") == Field(current, "spec")
      && StatusOf(b) == StatusOf(status)
  {
    var m := WithStatusOf(current, status);
    assert Metadata(m) == Metadata(current);
    StampShape(m, rv);
  }

  /** Both orders of the two kinds of write come to this. */
  function BothWritten(current: Object, full: Object, status: Object, rv: nat): Object {
    WithStatusOf(full, status)["metadata" :=
      Obj(MergedMeta(current, full)["resourceVersion" := Str(Decimal.FormatUint(rv))])]
  }

  lemma StatusAfterFull(current: Object, full: Object, status: Object, rv1: nat, rv2: nat)
    requires Name(full) != ""
    ensures WithRV(MergeForUpdate(WithRV(MergeForUpdate(current, full, false), rv1), status, true), rv2)
         == BothWritten(current, full, status, rv2)
  {
    FullMergeShape(current, full);
    assert WithStatusOf(WithStatusOf(full, current), status) == WithStatusOf(full, status);
    RestampedStatus(WithStatusOf(full, current), MergedMeta(current, full), status, rv1, rv2);
  }

  lemma RestampedStatus(o: Object, m: map<string, Json>, status: Object, rv1: nat, rv2: nat)
    requires "name" in m && m["name"].Str? && m["name"].s != ""
    ensures WithRV(WithStatusOf(WithRV(o["metadata" := Obj(m)], rv1), status), rv2)
         == WithStatusOf(o, status)["metadata" := Obj(m["resourceVersion" := Str(Decimal.FormatUint(rv2))])]
  {
    var v1, v2 := Str(Decimal.FormatUint(rv1)), Str(Decimal.FormatUint(rv2));
    var a1 := o["metadata" := Obj(m["resourceVersion" := v1])];
    StampShape(o["metadata" := Obj(m)], rv1);
    var a2 := WithStatusOf(a1, status);
    assert Metadata(a2) == m["resourceVersion" := v1];
    StampShape(a2, rv2);
    assert m["resourceVersion" := v1]["resourceVersion" := v2] == m["resourceVersion" := v2];
    var m2 := Obj(m["resourceVersion" := v2]);
    assert a2["metadata" := m2] == WithStatusOf(o, status)["metadata" := m2];
  }

  lemma FullAfterStatus(current: Object, full: Object, status: Object, rv1: nat, rv2: nat)
    requires Name(current) != "" && Name(full) != ""
    ensures WithRV(MergeForUpdate(WithRV(MergeForUpdate(current, status, true), rv1), full, false), rv2)
         == BothWritten(current, full, status, rv2)
  {
    var mm := MergedMeta(current, full);
    var b1 := WithRV(WithStatusOf(current, status), rv1);
    StampedStatusMerge(current, status, rv1);
    assert MergedMeta(b1, full) == mm;
    FullMergeShape(b1, full);
    var b2 := MergeForUpdate(b1, full, false);
    assert WithStatusOf(full, b1) == WithStatusOf(full, status);
    assert b2 == WithStatusOf(full, status)["metadata" := Obj(mm)];
    assert Metadata(b2) == mm && Name(b2) == Name(full);
    StampShape(b2, rv2);
  }

  /** On merged objects the two kinds of write commute once versions are set aside. */
  lemma MergesCommute(current: Object, full: Object, status: Object, rv1: nat, rv2: nat)
    requires Name(current) != "" && Name(full) != ""
    ensures WithRV(MergeForUpdate(WithRV(MergeForUpdate(current, full, false), rv1), status, true), rv2)
         == WithRV(MergeForUpdate(WithRV(MergeForUpdate(current, status, true), rv1), full, false), rv2)
  {
    StatusAfterFull(current, full, status, rv1, rv2);
    FullAfterStatus(current, full, status, rv1, rv2);
  }

  lemma IncomingNamed(s: State, k: Key, incoming: Object)
    requires Inv(s) && k in s.data && NoSlash(Namespace(incoming)) && KeyOf(s.resources, k.gvr, incoming) == k
    ensures k.gvr in s.resources && Name(s.data[k]) != "" && Name(incoming) == Name(s.data[k])
  {
    DataWellFormed(s);
    IncomingWellKeyed(s.resources, k, s.data[k], incoming);
  }

  /** What two writes in a row make of an object. */
  function TwoWrites(o: Object, x: Object, xStatus: bool, y: Object, yStatus: bool, rv: nat): Object {
    WithRV(MergeForUpdate(WithRV(MergeForUpdate(o, x, xStatus), rv + 1), y, yStatus), rv + 2)
  }

  lemma TwoUpdates(s: State, gvr: GVR, x: Object, xStatus: bool, y: Object, yStatus: bool)
    requires gvr in s.resources && KeyOf(s.resources, gvr, x) in s.data
    requires KeyOf(s.resources, gvr, y) == KeyOf(s.resources, gvr, x)
    requires ResourceVersion(x) == "" && ResourceVersion(y) == ""
    ensures var k := KeyOf(s.resources, gvr, x);
      var first := Update(s, gvr, x, xStatus);
      var second := Update(first.state, gvr, y, yStatus);
      && first.result.Ok? && second.result.Ok? && second.state.rv == s.rv + 2
      && second.state.data == s.data[k := TwoWrites(s.data[k], x, xStatus, y, yStatus, s.rv)]
  {
    var k := KeyOf(s.resources, gvr, x);
    TwoReplaces(s, k, x, xStatus, y, yStatus);
    assert Update(s, gvr, x, xStatus) == Replace(s, k, x, xStatus);
    var t := Replace(s, k, x, xStatus).state;
    assert Update(t, gvr, y, yStatus) == Replace(t, k, y, yStatus);
  }

  lemma TwoWritesCommute(s: State, gvr: GVR, k: Key, full: Object, status: Object)
    requires Inv(s) && k in s.data && k == KeyOf(s.resources, gvr, full) && NoSlash(Namespace(full))
    ensures gvr in s.resources
    ensures TwoWrites(s.data[k], full, false, status, true, s.rv) == TwoWrites(s.data[k], status, true, full, false, s.rv)
  {
    IncomingNamed(s, k, full);
    MergesCommute(s.data[k], full, status, s.rv + 1, s.rv + 2);
  }

  /**
   * An unconditional status write and a full write of the same object leave the same contents in
   * either order, so a status write never undoes what a concurrent full write did.
   */
  lemma StatusWriteCommutes(s: State, gvr: GVR, full: Object, status: Object)
    requires Inv(s) && KeyOf(s.resources, gvr, full) in s.data
    requires KeyOf(s.resources, gvr, status) == KeyOf(s.resources, gvr, full)
    requires NoSlash(Namespace(full)) && NoSlash(Namespace(status))
    requires ResourceVersion(full) == "" && ResourceVersion(status) == ""
    ensures var a1 := Update(s, gvr, full, false);
      var b1 := Update(s, gvr, status, true);
      var a2 := Update(a1.state, gvr, status, true);
      var b2 := Update(b1.state, gvr, full, false);
      a1.result.Ok? && a2.result.Ok? && b1.result.Ok? && b2.result.Ok? &&
      a2.state.data == b2.state.data && a2.state.rv == b2.state.rv
  {
    TwoWritesCommute(s, gvr, KeyOf(s.resources, gvr, full), full, status);
    TwoUpdates(s, gvr, full, false, status, true);
    TwoUpdates(s, gvr, status, true, full, false);
  }

  lemma ReplaceFiles(s: State, k: Key, x: Object, isStatus: bool)
    requires k in s.data && ResourceVersion(x) == ""
    ensures var out := Replace(s, k, x, isStatus);
      && out.result.Ok? && out.state.resources == s.resources && out.state.rv == s.rv + 1
      && out.state.data == s.data[k := WithRV(MergeForUpdate(s.data[k], x, isStatus), s.rv + 1)]
  {
  }

  lemma TwoReplaces(s: State, k: Key, x: Object, xStatus: bool, y: Object, yStatus: bool)
    requires k in s.data && ResourceVersion(x) == "" && ResourceVersion(y) == ""
    ensures var t := Replace(s, k, x, xStatus).state;
      && Replace(s, k, x, xStatus).result.Ok? && t.resources == s.resources && k in t.data
      && Replace(t, k, y, yStatus).result.Ok?
      && Replace(t, k, y, yStatus).state.rv == s.rv + 2
      && Replace(t, k, y, yStatus).state.data == s.data[k :=
           WithRV(MergeForUpdate(WithRV(MergeForUpdate(s.data[k], x, xStatus), s.rv + 1), y, yStatus), s.rv + 2)]
  {
    ReplaceFiles(s, k, x, xStatus);
    ReplaceFiles(Replace(s, k, x, xStatus).state, k, y, yStatus);
  }

  /** A status write changes status and version and nothing else. */
  lemma StatusWriteKeepsTheRest(s: State, gvr: GVR, incoming: Object)
    requires Inv(s) && NoSlash(Namespace(incoming)) && Update(s, gvr, incoming, true).result.Ok?
    ensures var k := KeyOf(s.resources, gvr, incoming);
      var t := Update(s, gvr, incoming, true).state;
      && t.data.Keys == s.data.Keys && k in s.data
      && (forall x :: x in s.data && x != k ==> t.data[x] == s.data[x])
      && Unversioned(t.data[k]) - {"status"} == Unversioned(s.data[k]) - {"status"}
      && StatusOf(t.data[k]) == StatusOf(incoming)
  {
    StoredIsNamed(s, gvr, incoming);
    StatusUpdateFiles(s, gvr, incoming);
    StatusMergeKeepsTheRest(s.data[KeyOf(s.resources, gvr, incoming)], incoming, s.rv + 1);
  }

  lemma StoredIsNamed(s: State, gvr: GVR, incoming: Object)
    requires Inv(s) && Update(s, gvr, incoming, true).result.Ok?
    ensures var k := KeyOf(s.resources, gvr, incoming); k in s.data && Name(s.data[k]) != ""
  {
    DataWellFormed(s);
  }

  lemma StatusUpdateFiles(s: State, gvr: GVR, incoming: Object)
    requires Update(s, gvr, incoming, true).result.Ok?
    ensures var k := KeyOf(s.resources, gvr, incoming);
      k in s.data && Update(s, gvr, incoming, true).state.data == s.data[k := WithRV(WithStatusOf(s.data[k], incoming), s.rv + 1)]
  {
  }

  lemma StatusMergeKeepsTheRest(current: Object, incoming: Object, rv: nat)
    requires Name(current) != ""
    ensures var t := WithRV(WithStatusOf(current, incoming), rv);
      Unversioned(t) - {"status"} == Unversioned(current) - {"status"} && StatusOf(t) == StatusOf(incoming)
  {
    var m := WithStatusOf(current, incoming);
    assert Metadata(m) == Metadata(current);
    StampShape(m, rv);
    var t := WithRV(m, rv);
    assert Metadata(t) - {"resourceVersion"} == Metadata(current) - {"resourceVersion"};
    assert Unversioned(t) - {"status"} == Unversioned(current) - {"status"};
  }
}
