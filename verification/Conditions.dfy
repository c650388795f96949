/** Status conditions: the list every reconciler edits through set, find and remove. */
module Conditions {
  import opened Prelude

  const READY := "Ready"
  const FINISHED := "Finished"
  const SUSPENDED := "Suspended"

  const TRUE := "True"
  const FALSE := "False"

  /** since is the time of the last change of status, in whole seconds, as the store keeps it. */
  datatype Condition = Condition(
    kind: string, status: string, reason: string, message: string, generation: nat, since: int)

  /** The first condition of the kind. */
  function Find(cs: seq<Condition>, kind: string): (r: Option<Condition>)
    ensures r.Some? ==> r.value in cs && r.value.kind == kind
    ensures r.None? ==> forall c <- cs :: c.kind != kind
  {
    if cs == [] then None
    else if cs[0].kind == kind then Some(cs[0])
    else Find(cs[1..], kind)
  }

  /** Overwrites the first condition of c's kind, or appends; since moves only if the status does. */
  function Set(cs: seq<Condition>, c: Condition): seq<Condition> {
    if cs == [] then [c]
    else if cs[0].kind == c.kind then
      [if cs[0].status == c.status then c.(since := cs[0].since) else c] + cs[1..]
    else [cs[0]] + Set(cs[1..], c)
  }

  function Remove(cs: seq<Condition>, kind: string): seq<Condition> {
    if cs == [] then []
    else (if cs[0].kind == kind then [] else [cs[0]]) + Remove(cs[1..], kind)
  }

  predicate Holds(cs: seq<Condition>, kind: string) {
    Find(cs, kind).Some? && Find(cs, kind).value.status == TRUE
  }

  ghost predicate Unique(cs: seq<Condition>) {
    forall i, j :: 0 <= i < j < |cs| ==> cs[i].kind != cs[j].kind
  }

  lemma {:induction false} FindSet(cs: seq<Condition>, c: Condition, kind: string)
    ensures kind != c.kind ==> Find(Set(cs, c), kind) == Find(cs, kind)
    ensures kind == c.kind ==> Find(Set(cs, c), kind) == Some(
      if Find(cs, kind).Some? && Find(cs, kind).value.status == c.status
      then c.(since := Find(cs, kind).value.since) else c)
  {
    if cs != [] && cs[0].kind != c.kind {
      FindSet(cs[1..], c, kind);
      assert Set(cs, c)[1..] == Set(cs[1..], c);
    } else if cs != [] {
      assert Set(cs, c)[1..] == cs[1..];
    }
  }

  lemma {:induction false} FindRemove(cs: seq<Condition>, gone: string, kind: string)
    ensures Find(Remove(cs, gone), kind) == if kind == gone then None else Find(cs, kind)
  {
    if cs != [] {
      FindRemove(cs[1..], gone, kind);
      if cs[0].kind != gone {
        assert Remove(cs, gone)[1..] == Remove(cs[1..], gone);
      } else {
        assert Remove(cs, gone) == Remove(cs[1..], gone);
      }
    }
  }

  lemma {:induction false} KindsOfSet(cs: seq<Condition>, c: Condition)
    ensures |Set(cs, c)| == if Find(cs, c.kind).Some? then |cs| else |cs| + 1
    ensures forall i :: 0 <= i < |cs| ==> Set(cs, c)[i].kind == cs[i].kind
    ensures Find(cs, c.kind).None? ==> Set(cs, c)[|cs|].kind == c.kind
  {
    if cs != [] && cs[0].kind != c.kind {
      KindsOfSet(cs[1..], c);
    }
  }

  lemma SetUnique(cs: seq<Condition>, c: Condition)
    requires Unique(cs)
    ensures Unique(Set(cs, c))
  {
    KindsOfSet(cs, c);
  }

  lemma {:induction false} RemoveMembers(cs: seq<Condition>, kind: string)
    ensures forall c :: c in Remove(cs, kind) <==> c in cs && c.kind != kind
  {
    if cs != [] {
      RemoveMembers(cs[1..], kind);
    }
  }

  lemma {:induction false} RemoveUnique(cs: seq<Condition>, kind: string)
    requires Unique(cs)
    ensures Unique(Remove(cs, kind))
  {
    if cs != [] {
      RemoveUnique(cs[1..], kind);
      RemoveMembers(cs[1..], kind);
      if cs[0].kind != kind {
        var r := Remove(cs[1..], kind);
        forall i, j | 0 <= i < j < |[cs[0]] + r| ensures ([cs[0]] + r)[i].kind != ([cs[0]] + r)[j].kind {
          if i == 0 {
            assert r[j - 1] in r;
          }
        }
      }
    }
  }

  // ---- Mirroring ----

  function MirroredReady(ready: Option<Condition>, generation: nat, now: int): Condition {
    if ready.None? then Condition(READY, FALSE, "SandboxNotReady", "Sandbox is not ready", generation, now)
    else
      var r := ready.value;
      var reason := if r.status != TRUE && r.reason == "" then "SandboxNotReady" else r.reason;
      Raw(READY, r.status, reason, r.message, generation, now)
  }

  /** A claim's copy of its sandbox's Ready and Finished conditions. */
  function Mirror(cs: seq<Condition>, sandbox: seq<Condition>, generation: nat, now: int): seq<Condition> {
    var withReady := Set(cs, MirroredReady(Find(sandbox, READY), generation, now));
    var finished := Find(sandbox, FINISHED);
    if finished.None? then Remove(withReady, FINISHED)
    else Set(withReady, Raw(FINISHED, finished.value.status, finished.value.reason, finished.value.message, generation, now))
  }

  function Raw(kind: string, status: string, reason: string, message: string, generation: nat, now: int): Condition {
    Condition(kind, status, if reason == "" then "Unknown" else reason, message, generation, now)
  }

  /** What one claim pass mirrors: the sandbox's conditions, the claim's generation, the clock. */
  datatype Glimpse = Glimpse(sandbox: seq<Condition>, generation: nat, now: int)

  function MirrorAll(cs: seq<Condition>, seen: seq<Glimpse>): seq<Condition>
    decreases |seen|
  {
    if seen == [] then cs
    else MirrorAll(Mirror(cs, seen[0].sandbox, seen[0].generation, seen[0].now), seen[1..])
  }

  lemma MirrorFinds(cs: seq<Condition>, g: Glimpse)
    ensures var out := Mirror(cs, g.sandbox, g.generation, g.now);
      && (Find(out, FINISHED).Some? <==> Find(g.sandbox, FINISHED).Some?)
      && (Find(out, FINISHED).Some? ==>
            && Find(out, FINISHED).value.status == Find(g.sandbox, FINISHED).value.status
            && Find(out, FINISHED).value.since ==
                 (if Find(cs, FINISHED).Some? && Find(cs, FINISHED).value.status == Find(g.sandbox, FINISHED).value.status
                  then Find(cs, FINISHED).value.since else g.now))
      && Find(out, READY).Some?
      && Find(out, READY).value.status == (if Find(g.sandbox, READY).Some? then Find(g.sandbox, READY).value.status else FALSE)
      && (Find(out, FINISHED).Some? ==>
            var reason := Find(g.sandbox, FINISHED).value.reason;
            Find(out, FINISHED).value.reason == (if reason == "" then "Unknown" else reason))
      && Find(out, READY).value.generation == g.generation
      && Find(out, READY).value.reason == (
           if Find(g.sandbox, READY).None? then "SandboxNotReady"
           else if Find(g.sandbox, READY).value.reason != "" then Find(g.sandbox, READY).value.reason
           else if Find(g.sandbox, READY).value.status == TRUE then "Unknown" else "SandboxNotReady")
  {
    var c := MirroredReady(Find(g.sandbox, READY), g.generation, g.now);
    FindSet(cs, c, READY);
    FindSet(cs, c, FINISHED);
    var withReady := Set(cs, c);
    var f := Find(g.sandbox, FINISHED);
    if f.None? {
      FindRemove(withReady, FINISHED, READY);
      FindRemove(withReady, FINISHED, FINISHED);
    } else {
      var d := Raw(FINISHED, f.value.status, f.value.reason, f.value.message, g.generation, g.now);
      FindSet(withReady, d, READY);
      FindSet(withReady, d, FINISHED);
    }
  }

  /**
   * While the sandbox stays finished, any number of passes leaves the claim's Finished transition
   * where the first of them put it, and the deadline counted from it with it.
   */
  lemma {:induction false} MirroringKeepsTheTransition(cs: seq<Condition>, seen: seq<Glimpse>)
    requires seen != [] && forall g <- seen :: Holds(g.sandbox, FINISHED)
    decreases |seen|
    ensures Holds(MirrorAll(cs, seen), FINISHED)
    ensures Find(MirrorAll(cs, seen), FINISHED).value.since
         == if Holds(cs, FINISHED) then Find(cs, FINISHED).value.since else seen[0].now
  {
    MirrorFinds(cs, seen[0]);
    var once := Mirror(cs, seen[0].sandbox, seen[0].generation, seen[0].now);
    if |seen| == 1 {
      assert MirrorAll(once, seen[1..]) == once;
    } else {
      MirroringKeepsTheTransition(once, seen[1..]);
    }
  }
}
