/** When a claim is over: at its shutdown time, or when its time to live has passed since it was seen finished. */
module Deadlines {
  import opened Prelude
  import opened Conditions
  import opened Cluster

  /** The sandbox was seen finished, for the first time without a break, at f. */
  ghost predicate FinishedAt(claim: Claim, f: int) {
    exists c :: Find(claim.status.conditions, "Finished") == Some(c) && c.status == "True" && c.since == f
  }

  /** A time at which the claim is over. */
  ghost predicate Deadline(claim: Claim, d: int) {
    claim.spec.lifecycle.Some? &&
    var lc := claim.spec.lifecycle.value;
    lc.shutdown == Some(d) || (lc.ttl.Some? && FinishedAt(claim, d - lc.ttl.value))
  }

  ghost predicate Due(claim: Claim, now: int) {
    exists d :: Deadline(claim, d) && now >= d
  }

  /** What the passes test is whether a deadline has come. */
  lemma ExpiredExactly(claim: Claim, now: int)
    ensures Expired(claim, now) <==> Due(claim, now)
  {
    if claim.spec.lifecycle.Some? {
      var lc, found := claim.spec.lifecycle.value, Find(claim.status.conditions, FINISHED);
      if lc.shutdown.Some? {
        assert Deadline(claim, lc.shutdown.value);
      }
      if lc.ttl.Some? && found.Some? && found.value.status == TRUE {
        assert FinishedAt(claim, found.value.since);
        assert (found.value.since + lc.ttl.value) - lc.ttl.value == found.value.since;
        assert Deadline(claim, found.value.since + lc.ttl.value);
      }
      if Due(claim, now) {
        var d :| Deadline(claim, d) && now >= d;
      }
    }
  }

  /** A shutdown time alone is over exactly from that second on. */
  lemma OverAtShutdown(claim: Claim, now: int, end: int, policy: Policy)
    requires claim.spec.lifecycle == Some(Lifecycle(Some(end), None, policy))
    ensures Due(claim, now) <==> now >= end
  {
    assert Deadline(claim, end);
  }

  /** A time to live alone counts from the Finished transition, to the second. */
  lemma OverAfterTtl(claim: Claim, now: int, f: int, ttl: int, policy: Policy)
    requires claim.spec.lifecycle == Some(Lifecycle(None, Some(ttl), policy)) && FinishedAt(claim, f)
    ensures Due(claim, now) <==> now >= f + ttl
  {
    assert (f + ttl) - ttl == f;
    assert Deadline(claim, f + ttl);
  }

  /** Without a shutdown time, a claim whose sandbox is not finished is not over. */
  lemma NotOverUnfinished(claim: Claim, now: int, ttl: Option<int>, policy: Policy)
    requires claim.spec.lifecycle == Some(Lifecycle(None, ttl, policy)) && !Holds(claim.status.conditions, FINISHED)
    ensures !Due(claim, now)
  {
  }

  /**
   * Over any number of passes that find the sandbox finished, the deadline is the time of the first of
   * them plus the time to live.
   */
  lemma DeadlineIsFirstFinish(claim: Claim, cs: seq<Condition>, seen: seq<Glimpse>, ttl: int, policy: Policy, now: int)
    requires claim.spec.lifecycle == Some(Lifecycle(None, Some(ttl), policy)) && claim.status.conditions == MirrorAll(cs, seen)
    requires !Holds(cs, FINISHED) && seen != [] && forall g <- seen :: Holds(g.sandbox, FINISHED)
    ensures Due(claim, now) <==> now >= seen[0].now + ttl
  {
    MirroringKeepsTheTransition(cs, seen);
    assert FinishedAt(claim, seen[0].now);
    OverAfterTtl(claim, now, seen[0].now, ttl, policy);
  }
}
