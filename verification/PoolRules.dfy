/** Which sandboxes a warm pool gives up, and what that leaves. */
module PoolRules {
  import opened Prelude
  import opened Conditions
  import opened Cluster
  import opened Cascade

  function ReadyOf(sbs: map<Name, Sandbox>, names: set<Name>): set<Name>
    requires names <= sbs.Keys
  {
    set n | n in names && IsReady(sbs[n])
  }

  lemma OneMoreReady(sbs: map<Name, Sandbox>, names: set<Name>, n: Name)
    requires names <= sbs.Keys && n in sbs && n !in names
    ensures |ReadyOf(sbs, names + {n})| == |ReadyOf(sbs, names)| + if IsReady(sbs[n]) then 1 else 0
  {
    if IsReady(sbs[n]) {
      assert ReadyOf(sbs, names + {n}) == ReadyOf(sbs, names) + {n};
    } else {
      assert ReadyOf(sbs, names + {n}) == ReadyOf(sbs, names);
    }
  }

  /** Not after in the order of trimming: unready before ready, newer before older. */
  predicate NotAfter(sbs: map<Name, Sandbox>, a: Name, b: Name)
    requires a in sbs && b in sbs
  {
    if IsReady(sbs[a]) != IsReady(sbs[b]) then !IsReady(sbs[a]) else sbs[a].meta.created >= sbs[b].meta.created
  }

  function Trimming(sbs: map<Name, Sandbox>): (Name, Name) -> bool {
    (a, b) => a in sbs && b in sbs && NotAfter(sbs, a, b)
  }

  ghost predicate TrimOrder(sbs: map<Name, Sandbox>, s: seq<Name>) {
    (forall n <- s :: n in sbs) && Ordered(Trimming(sbs), s)
  }

  /** Sorts into trimming order; what the order leaves open may fall either way. */
  method SortForTrim(sbs: map<Name, Sandbox>, mine: seq<Name>) returns (sorted: seq<Name>)
    requires forall n <- mine :: n in sbs
    ensures TrimOrder(sbs, sorted) && multiset(sorted) == multiset(mine)
  {
    sorted := [];
    for i := 0 to |mine|
      invariant TrimOrder(sbs, sorted) && multiset(sorted) == multiset(mine[..i])
    {
      assert mine[..i + 1] == mine[..i] + [mine[i]];
      InsertOrdered(Trimming(sbs), sorted, mine[i]);
      InsertMembers(Trimming(sbs), sorted, mine[i]);
      sorted := Insert(Trimming(sbs), sorted, mine[i]);
    }
    assert mine[..|mine|] == mine;
  }

  /** gone is the head of the members in trimming order. */
  ghost predicate TrimmedFirst(sbs: map<Name, Sandbox>, members: set<Name>, gone: set<Name>)
    requires members <= sbs.Keys && gone <= members
  {
    forall d, x :: d in gone && x in members - gone ==> NotAfter(sbs, d, x)
  }

  function Min(a: int, b: int): int {
    if a < b then a else b
  }

  /** If a ready one went, all that stay are ready; if none did, all the ready ones stay. */
  lemma ReadyStay(sbs: map<Name, Sandbox>, members: set<Name>, gone: set<Name>)
    requires members <= sbs.Keys && gone <= members && TrimmedFirst(sbs, members, gone)
    ensures var kept := members - gone;
      if exists d :: d in gone && IsReady(sbs[d]) then ReadyOf(sbs, kept) == kept else ReadyOf(sbs, kept) == ReadyOf(sbs, members)
  {
    var kept := members - gone;
    if d :| d in gone && IsReady(sbs[d]) {
      forall x | x in kept ensures IsReady(sbs[x]) {
        assert NotAfter(sbs, d, x);
      }
    }
  }

  /**
   * Trimming keeps as many ready sandboxes as it may: a ready one goes only when no unready one is
   * left; and of two sandboxes alike in that, the older stays.
   */
  lemma TrimKeepsReady(sbs: map<Name, Sandbox>, members: set<Name>, gone: set<Name>)
    requires members <= sbs.Keys && gone <= members && TrimmedFirst(sbs, members, gone)
    ensures |ReadyOf(sbs, members - gone)| == Min(|ReadyOf(sbs, members)|, |members| - |gone|)
    ensures forall d, x :: d in gone && x in members - gone && IsReady(sbs[d]) == IsReady(sbs[x]) ==>
      sbs[x].meta.created <= sbs[d].meta.created
  {
    var kept := members - gone;
    assert |kept| == |members| - |gone|;
    ReadyStay(sbs, members, gone);
    Subset(ReadyOf(sbs, kept), ReadyOf(sbs, members));
    Subset(ReadyOf(sbs, kept), kept);
    forall d, x | d in gone && x in kept && IsReady(sbs[d]) == IsReady(sbs[x]) ensures sbs[x].meta.created <= sbs[d].meta.created {
      assert NotAfter(sbs, d, x);
    }
  }

  lemma Subset(a: set<Name>, b: set<Name>)
    requires a <= b
    ensures |a| <= |b|
  {
    assert b == a + (b - a);
  }

  /** A list without repetition is as long as the set of what is in it. */
  lemma {:induction false} LengthIsSize(s: seq<Name>)
    requires forall i, j :: 0 <= i < j < |s| ==> s[i] != s[j]
    ensures |(set n | n in s)| == |s|
  {
    if s != [] {
      LengthIsSize(s[1..]);
      assert (set n | n in s) == {s[0]} + (set n | n in s[1..]);
    }
  }

  /** A rearrangement of a list without repetition repeats nothing. */
  lemma SameElements(a: seq<Name>, b: seq<Name>)
    requires multiset(a) == multiset(b) && forall i, j :: 0 <= i < j < |a| ==> a[i] != a[j]
    ensures |a| == |b| && forall n :: n in a <==> n in b
    ensures forall i, j :: 0 <= i < j < |b| ==> b[i] != b[j]
  {
    assert |a| == |multiset(a)| && |b| == |multiset(b)|;
    forall n ensures n in a <==> n in b {
      assert n in a <==> n in multiset(a);
      assert n in b <==> n in multiset(b);
    }
    forall i, j | 0 <= i < j < |b| ensures b[i] != b[j] {
      if b[i] == b[j] {
        TwiceCounts(b, i, j);
        OnceCounts(a, b[i]);
      }
    }
  }

  lemma TwiceCounts(s: seq<Name>, i: nat, j: nat)
    requires i < j < |s| && s[i] == s[j]
    ensures multiset(s)[s[i]] >= 2
  {
    assert s == s[..i] + [s[i]] + s[i + 1..j] + [s[j]] + s[j + 1..];
  }

  lemma {:induction false} OnceCounts(s: seq<Name>, x: Name)
    requires forall i, j :: 0 <= i < j < |s| ==> s[i] != s[j]
    ensures multiset(s)[x] <= 1
  {
    if s != [] {
      OnceCounts(s[1..], x);
      assert s == [s[0]] + s[1..];
      if x == s[0] {
        assert x !in s[1..];
        assert multiset(s[1..])[x] == 0;
      }
    }
  }
}
