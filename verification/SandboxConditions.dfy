/** The conditions of a sandbox, over any run of its passes. */
module SandboxConditions {
  import opened Prelude
  import opened Conditions

  /** What a sandbox pass that writes a status came to. */
  datatype Outcome =
    | PastShutdown
    | PodGone
    | PodStays
    | Failed(message: string)
    | MissingPvc(claim: string)
    | Exited(code: int)
    | Serving(ready: bool)
    | Waiting(state: string)

  function Put(cs: seq<Condition>, kind: string, status: string, reason: string, message: string, generation: nat,
      now: int): seq<Condition> {
    Set(cs, Condition(kind, status, reason, message, generation, now))
  }

  /** The conditions a pass writes. */
  function Next(cs: seq<Condition>, o: Outcome, generation: nat, now: int): seq<Condition> {
    match o
    case PastShutdown => Put(cs, READY, FALSE, "SandboxExpired", "Sandbox has expired", generation, now)
    case PodGone =>
      var s := Put(cs, SUSPENDED, TRUE, "PodTerminated", "Pod has been terminated. Sandbox is not operational.", generation, now);
      Remove(Put(s, READY, FALSE, "SandboxSuspended", "Sandbox is suspended", generation, now), FINISHED)
    case PodStays =>
      var s := Put(cs, SUSPENDED, FALSE, "PodNotTerminated", "Pod has not been terminated. Sandbox is operational.", generation, now);
      Remove(Put(s, READY, FALSE, "SandboxSuspended", "Sandbox is suspending", generation, now), FINISHED)
    case Failed(message) => Put(cs, READY, FALSE, "ReconcilerError", "Error seen: " + message, generation, now)
    case MissingPvc(claim) => Put(cs, READY, FALSE, "DependenciesNotReady", claim, generation, now)
    case Exited(code) =>
      var reason := if code == 0 then "PodSucceeded" else "PodFailed";
      var s := Put(Remove(cs, SUSPENDED), FINISHED, TRUE, reason, reason, generation, now);
      Put(s, READY, FALSE, reason, reason, generation, now)
    case Serving(ready) =>
      var s := Remove(Remove(cs, SUSPENDED), FINISHED);
      if ready then Put(s, READY, TRUE, "DependenciesReady", "Pod is Ready", generation, now)
      else Put(s, READY, FALSE, "DependenciesNotReady", "Pod is Running but not Ready", generation, now)
    case Waiting(state) =>
      Put(Remove(cs, SUSPENDED), READY, FALSE, "DependenciesNotReady", "Pod exists with phase: " + state, generation, now)
  }

  /** One condition of each kind, and a ready sandbox is neither suspended nor finished. */
  ghost predicate Sound(cs: seq<Condition>) {
    && Unique(cs)
    && (Holds(cs, READY) ==> Find(cs, SUSPENDED).None? && Find(cs, FINISHED).None?)
  }

  lemma PutReady(cs: seq<Condition>, status: string, reason: string, message: string, generation: nat, now: int)
    ensures Holds(Put(cs, READY, status, reason, message, generation, now), READY) <==> status == TRUE
    ensures Unique(cs) ==> Unique(Put(cs, READY, status, reason, message, generation, now))
    ensures forall kind :: kind != READY ==> Find(Put(cs, READY, status, reason, message, generation, now), kind) == Find(cs, kind)
  {
    var c := Condition(READY, status, reason, message, generation, now);
    FindSet(cs, c, READY);
    if Unique(cs) {
      SetUnique(cs, c);
    }
    forall kind | kind != READY ensures Find(Set(cs, c), kind) == Find(cs, kind) {
      FindSet(cs, c, kind);
    }
  }

  /** After a pass the sandbox is ready exactly if the pass found it serving. */
  lemma NextIsSound(cs: seq<Condition>, o: Outcome, generation: nat, now: int)
    requires Unique(cs)
    ensures Sound(Next(cs, o, generation, now))
    ensures Holds(Next(cs, o, generation, now), READY) <==> o == Serving(true)
  {
    match o
    case PodGone =>
      var c := Condition(SUSPENDED, TRUE, "PodTerminated", "Pod has been terminated. Sandbox is not operational.", generation, now);
      SuspendedIsSound(cs, c, "Sandbox is suspended", generation, now);
    case PodStays =>
      var c := Condition(SUSPENDED, FALSE, "PodNotTerminated", "Pod has not been terminated. Sandbox is operational.", generation, now);
      SuspendedIsSound(cs, c, "Sandbox is suspending", generation, now);
    case Exited(code) =>
      var reason := if code == 0 then "PodSucceeded" else "PodFailed";
      RemoveUnique(cs, SUSPENDED);
      SetUnique(Remove(cs, SUSPENDED), Condition(FINISHED, TRUE, reason, reason, generation, now));
      PutReady(Put(Remove(cs, SUSPENDED), FINISHED, TRUE, reason, reason, generation, now), FALSE, reason, reason, generation, now);
    case Serving(ready) =>
      ServingIsSound(cs, ready, generation, now);
    case Waiting(state) =>
      RemoveUnique(cs, SUSPENDED);
      PutReady(Remove(cs, SUSPENDED), FALSE, "DependenciesNotReady", "Pod exists with phase: " + state, generation, now);
    case PastShutdown =>
      PutReady(cs, FALSE, "SandboxExpired", "Sandbox has expired", generation, now);
    case Failed(message) =>
      PutReady(cs, FALSE, "ReconcilerError", "Error seen: " + message, generation, now);
    case MissingPvc(claim) =>
      PutReady(cs, FALSE, "DependenciesNotReady", claim, generation, now);
  }

  lemma SuspendedIsSound(cs: seq<Condition>, c: Condition, message: string, generation: nat, now: int)
    requires Unique(cs)
    ensures var out := Remove(Put(Set(cs, c), READY, FALSE, "SandboxSuspended", message, generation, now), FINISHED);
      Sound(out) && !Holds(out, READY)
  {
    SetUnique(cs, c);
    PutReady(Set(cs, c), FALSE, "SandboxSuspended", message, generation, now);
    var s := Put(Set(cs, c), READY, FALSE, "SandboxSuspended", message, generation, now);
    RemoveUnique(s, FINISHED);
    FindRemove(s, FINISHED, READY);
  }

  lemma ServingIsSound(cs: seq<Condition>, ready: bool, generation: nat, now: int)
    requires Unique(cs)
    ensures Sound(Next(cs, Serving(ready), generation, now))
    ensures Holds(Next(cs, Serving(ready), generation, now), READY) <==> ready
  {
    var a := Remove(cs, SUSPENDED);
    var s := Remove(a, FINISHED);
    RemoveUnique(cs, SUSPENDED);
    RemoveUnique(a, FINISHED);
    FindRemove(cs, SUSPENDED, SUSPENDED);
    FindRemove(a, FINISHED, SUSPENDED);
    FindRemove(a, FINISHED, FINISHED);
    PutReady(s, TRUE, "DependenciesReady", "Pod is Ready", generation, now);
    PutReady(s, FALSE, "DependenciesNotReady", "Pod is Running but not Ready", generation, now);
  }

  // ---- What each outcome shows ----

  /** The outcome says whether the sandbox has finished; the others leave that as it was. */
  predicate SaysFinished(o: Outcome) {
    o.Exited? || o.Serving? || o.PodGone? || o.PodStays?
  }

  /** The outcome says whether the sandbox is suspended; the others leave that as it was. */
  predicate SaysSuspended(o: Outcome) {
    SaysFinished(o) || o.Waiting?
  }

  function ExitReason(code: int): string {
    if code == 0 then "PodSucceeded" else "PodFailed"
  }

  /** A condition just written: the transition time moved exactly if the status did. */
  ghost predicate Renewed(c: Condition, was: Option<Condition>, status: string, reason: string, generation: nat, now: int) {
    && c.status == status && c.reason == reason && c.generation == generation
    && c.since == if was.Some? && was.value.status == status then was.value.since else now
  }

  ghost predicate TellsFinished(now: Option<Condition>, was: Option<Condition>, o: Outcome, generation: nat, time: int) {
    match o
    case Exited(code) => now.Some? && Renewed(now.value, was, "True", ExitReason(code), generation, time)
    case Serving(_) => now == None
    case PodGone => now == None
    case PodStays => now == None
    case _ => now == was
  }

  ghost predicate TellsSuspended(now: Option<Condition>, was: Option<Condition>, o: Outcome, generation: nat, time: int) {
    match o
    case PodGone => now.Some? && Renewed(now.value, was, "True", "PodTerminated", generation, time)
    case PodStays => now.Some? && Renewed(now.value, was, "False", "PodNotTerminated", generation, time)
    case Serving(_) => now == None
    case Exited(_) => now == None
    case Waiting(_) => now == None
    case _ => now == was
  }

  function ReadyReason(o: Outcome): string {
    match o
    case PastShutdown => "SandboxExpired"
    case PodGone => "SandboxSuspended"
    case PodStays => "SandboxSuspended"
    case Failed(_) => "ReconcilerError"
    case MissingPvc(_) => "DependenciesNotReady"
    case Exited(code) => ExitReason(code)
    case Serving(ready) => if ready then "DependenciesReady" else "DependenciesNotReady"
    case Waiting(_) => "DependenciesNotReady"
  }

  /** What the conditions say after a pass with this outcome, kind by kind; kinds of others are left alone. */
  ghost predicate Tells(out: seq<Condition>, cs: seq<Condition>, o: Outcome, generation: nat, now: int) {
    && TellsFinished(Find(out, "Finished"), Find(cs, "Finished"), o, generation, now)
    && TellsSuspended(Find(out, "Suspended"), Find(cs, "Suspended"), o, generation, now)
    && Find(out, "Ready").Some?
    && Renewed(Find(out, "Ready").value, Find(cs, "Ready"), if o == Serving(true) then "True" else "False", ReadyReason(o), generation, now)
    && forall kind :: kind !in {"Finished", "Suspended", "Ready"} ==> Find(out, kind) == Find(cs, kind)
  }

  lemma PutFinds(cs: seq<Condition>, c: Condition, kind: string)
    ensures var out := Find(Set(cs, c), kind);
      if kind != c.kind then out == Find(cs, kind)
      else out.Some? && Renewed(out.value, Find(cs, kind), c.status, c.reason, c.generation, c.since)
  {
    FindSet(cs, c, kind);
  }

  lemma PutTells(cs: seq<Condition>, k: string, status: string, reason: string, message: string, generation: nat, now: int)
    ensures var out := Put(cs, k, status, reason, message, generation, now);
      && Find(out, k).Some? && Renewed(Find(out, k).value, Find(cs, k), status, reason, generation, now)
      && forall kind :: kind != k ==> Find(out, kind) == Find(cs, kind)
  {
    var c := Condition(k, status, reason, message, generation, now);
    PutFinds(cs, c, k);
    forall kind | kind != k ensures Find(Set(cs, c), kind) == Find(cs, kind) {
      PutFinds(cs, c, kind);
    }
  }

  lemma RemoveTells(cs: seq<Condition>, k: string)
    ensures Find(Remove(cs, k), k) == None
    ensures forall kind :: kind != k ==> Find(Remove(cs, k), kind) == Find(cs, kind)
  {
    FindRemove(cs, k, k);
    forall kind | kind != k ensures Find(Remove(cs, k), kind) == Find(cs, kind) {
      FindRemove(cs, k, kind);
    }
  }

  /** After a pass the conditions say what its outcome was, whatever they said before. */
  lemma NextTells(cs: seq<Condition>, o: Outcome, generation: nat, now: int)
    ensures Tells(Next(cs, o, generation, now), cs, o, generation, now)
  {
    match o
    case PastShutdown => PutTells(cs, READY, FALSE, "SandboxExpired", "Sandbox has expired", generation, now);
    case PodGone =>
      StopTells(cs, TRUE, "PodTerminated", "Pod has been terminated. Sandbox is not operational.", "Sandbox is suspended", generation, now);
    case PodStays =>
      StopTells(cs, FALSE, "PodNotTerminated", "Pod has not been terminated. Sandbox is operational.", "Sandbox is suspending", generation, now);
    case Failed(message) => PutTells(cs, READY, FALSE, "ReconcilerError", "Error seen: " + message, generation, now);
    case MissingPvc(claim) => PutTells(cs, READY, FALSE, "DependenciesNotReady", claim, generation, now);
    case Exited(code) => ExitTells(cs, code, generation, now);
    case Serving(ready) => ServingTells(cs, ready, generation, now);
    case Waiting(state) => WaitingTells(cs, state, generation, now);
  }

  lemma ServingTells(cs: seq<Condition>, ready: bool, generation: nat, now: int)
    ensures Tells(Next(cs, Serving(ready), generation, now), cs, Serving(ready), generation, now)
  {
    var a := Remove(cs, SUSPENDED);
    RemoveTells(cs, SUSPENDED);
    RemoveTells(a, FINISHED);
    if ready {
      PutTells(Remove(a, FINISHED), READY, TRUE, "DependenciesReady", "Pod is Ready", generation, now);
    } else {
      PutTells(Remove(a, FINISHED), READY, FALSE, "DependenciesNotReady", "Pod is Running but not Ready", generation, now);
    }
  }

  lemma WaitingTells(cs: seq<Condition>, state: string, generation: nat, now: int)
    ensures Tells(Next(cs, Waiting(state), generation, now), cs, Waiting(state), generation, now)
  {
    RemoveTells(cs, SUSPENDED);
    PutTells(Remove(cs, SUSPENDED), READY, FALSE, "DependenciesNotReady", "Pod exists with phase: " + state, generation, now);
  }

  lemma StopTells(cs: seq<Condition>, status: string, reason: string, message: string, note: string, generation: nat, now: int)
    ensures var a := Put(cs, SUSPENDED, status, reason, message, generation, now);
      var out := Remove(Put(a, READY, FALSE, "SandboxSuspended", note, generation, now), FINISHED);
      && Find(out, "Finished") == None
      && Find(out, "Suspended").Some? && Renewed(Find(out, "Suspended").value, Find(cs, "Suspended"), status, reason, generation, now)
      && Find(out, "Ready").Some? && Renewed(Find(out, "Ready").value, Find(cs, "Ready"), "False", "SandboxSuspended", generation, now)
      && forall kind :: kind !in {"Finished", "Suspended", "Ready"} ==> Find(out, kind) == Find(cs, kind)
  {
    var a := Put(cs, SUSPENDED, status, reason, message, generation, now);
    PutTells(cs, SUSPENDED, status, reason, message, generation, now);
    PutTells(a, READY, FALSE, "SandboxSuspended", note, generation, now);
    RemoveTells(Put(a, READY, FALSE, "SandboxSuspended", note, generation, now), FINISHED);
  }

  lemma ExitTells(cs: seq<Condition>, code: int, generation: nat, now: int)
    ensures Tells(Next(cs, Exited(code), generation, now), cs, Exited(code), generation, now)
  {
    var reason := if code == 0 then "PodSucceeded" else "PodFailed";
    var a := Remove(cs, SUSPENDED);
    var b := Put(a, FINISHED, TRUE, reason, reason, generation, now);
    RemoveTells(cs, SUSPENDED);
    PutTells(a, FINISHED, TRUE, reason, reason, generation, now);
    PutTells(b, READY, FALSE, reason, reason, generation, now);
  }

  // ---- Over runs ----

  datatype Write = Write(outcome: Outcome, generation: nat, now: int)

  function AfterAll(cs: seq<Condition>, run: seq<Write>): seq<Condition> {
    if run == [] then cs
    else
      var last := run[|run| - 1];
      Next(AfterAll(cs, run[..|run| - 1]), last.outcome, last.generation, last.now)
  }

  /**
   * Over every run of a sandbox's passes its condition kinds stay unique, it is ready exactly while
   * the last pass found it serving, and then it is neither suspended nor finished.
   */
  lemma {:induction false} RunIsSound(cs: seq<Condition>, run: seq<Write>)
    requires Unique(cs) && run != []
    ensures Sound(AfterAll(cs, run))
    ensures Holds(AfterAll(cs, run), READY) <==> run[|run| - 1].outcome == Serving(true)
  {
    var last := run[|run| - 1];
    if |run| > 1 {
      RunIsSound(cs, run[..|run| - 1]);
    } else {
      assert AfterAll(cs, run[..0]) == cs;
    }
    NextIsSound(AfterAll(cs, run[..|run| - 1]), last.outcome, last.generation, last.now);
  }

  /** Of the outcomes that say something, the last was one of these. */
  ghost predicate LastSaid(run: seq<Write>, says: Outcome -> bool, these: Outcome -> bool) {
    exists i :: 0 <= i < |run| && these(run[i].outcome) && forall j :: i < j < |run| ==> !says(run[j].outcome)
  }

  ghost predicate NeverSaid(run: seq<Write>, says: Outcome -> bool) {
    forall i :: 0 <= i < |run| ==> !says(run[i].outcome)
  }

  lemma LastSaidStep(run: seq<Write>, says: Outcome -> bool, these: Outcome -> bool)
    requires run != [] && forall o :: these(o) ==> says(o)
    ensures var last, before := run[|run| - 1].outcome, run[..|run| - 1];
      && (LastSaid(run, says, these) <==> these(last) || (!says(last) && LastSaid(before, says, these)))
      && (NeverSaid(run, says) <==> !says(last) && NeverSaid(before, says))
  {
    var n := |run| - 1;
    var before := run[..n];
    if LastSaid(before, says, these) && !says(run[n].outcome) {
      var i :| 0 <= i < |before| && these(before[i].outcome) && forall j :: i < j < |before| ==> !says(before[j].outcome);
      assert these(run[i].outcome) && forall j :: i < j < |run| ==> j == n || run[j] == before[j];
    }
    if LastSaid(run, says, these) {
      var i :| 0 <= i < |run| && these(run[i].outcome) && forall j :: i < j < |run| ==> !says(run[j].outcome);
      assert i == n || (these(before[i].outcome) && !says(run[n].outcome));
    }
    if NeverSaid(before, says) && !says(run[n].outcome) {
      assert forall i :: 0 <= i < n ==> before[i] == run[i];
    }
  }

  /**
   * Over every run a sandbox is finished exactly if the last pass that could tell found its container
   * exited; if none could, as before.
   */
  lemma {:induction false} RunFinishes(cs: seq<Condition>, run: seq<Write>)
    ensures Holds(AfterAll(cs, run), FINISHED) <==>
      (Holds(cs, FINISHED) && NeverSaid(run, SaysFinished)) || LastSaid(run, SaysFinished, (o: Outcome) => o.Exited?)
  {
    if run != [] {
      var n := |run| - 1;
      RunFinishes(cs, run[..n]);
      NextTells(AfterAll(cs, run[..n]), run[n].outcome, run[n].generation, run[n].now);
      LastSaidStep(run, SaysFinished, (o: Outcome) => o.Exited?);
    }
  }

  /** And it is suspended exactly if the last pass that could tell had removed the container. */
  lemma {:induction false} RunSuspends(cs: seq<Condition>, run: seq<Write>)
    ensures Holds(AfterAll(cs, run), SUSPENDED) <==>
      (Holds(cs, SUSPENDED) && NeverSaid(run, SaysSuspended)) || LastSaid(run, SaysSuspended, (o: Outcome) => o.PodGone?)
  {
    if run != [] {
      var n := |run| - 1;
      RunSuspends(cs, run[..n]);
      NextTells(AfterAll(cs, run[..n]), run[n].outcome, run[n].generation, run[n].now);
      LastSaidStep(run, SaysSuspended, (o: Outcome) => o.PodGone?);
    }
  }
}
