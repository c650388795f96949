/** Option, Result and the few sequence functions every other module needs. */
module Prelude {

  datatype Option<+T> = None | Some(value: T)

  datatype Result<+T, +E> = Ok(value: T) | Err(error: E)

  /** The elements of s that satisfy keep, in order. */
  ghost function Filter<T>(keep: T -> bool, s: seq<T>): seq<T> {
    if s == [] then []
    else (if keep(s[0]) then [s[0]] else []) + Filter(keep, s[1..])
  }

  lemma {:induction false} FilterAppend<T>(keep: T -> bool, a: seq<T>, b: seq<T>)
    ensures Filter(keep, a + b) == Filter(keep, a) + Filter(keep, b)
  {
    if a == [] {
      assert a + b == b;
    } else {
      FilterAppend(keep, a[1..], b);
      assert (a + b)[1..] == a[1..] + b;
      var head, rest := if keep(a[0]) then [a[0]] else [], Filter(keep, a[1..]);
      assert head + (rest + Filter(keep, b)) == (head + rest) + Filter(keep, b);
    }
  }

  lemma {:induction false} FilterLast<T>(keep: T -> bool, a: seq<T>, x: T)
    ensures Filter(keep, a + [x]) == Filter(keep, a) + (if keep(x) then [x] else [])
  {
    FilterAppend(keep, a, [x]);
  }

  lemma {:induction false} FilterMember<T>(keep: T -> bool, s: seq<T>, x: T)
    ensures x in Filter(keep, s) <==> x in s && keep(x)
  {
    if s != [] {
      FilterMember(keep, s[1..], x);
      assert s == [s[0]] + s[1..];
    }
  }

  /** Where s has its first slash, or its length. */
  function SlashAt(s: string): (i: nat)
    ensures i <= |s| && (i < |s| ==> s[i] == '/') && forall j :: 0 <= j < i ==> s[j] != '/'
  {
    if s == "" || s[0] == '/' then 0 else 1 + SlashAt(s[1..])
  }

  /** The first element that satisfies p, or -1. */
  function FirstIndex<T>(p: T -> bool, s: seq<T>): (i: int)
    ensures -1 <= i < |s|
    ensures i >= 0 ==> p(s[i]) && forall j :: 0 <= j < i ==> !p(s[j])
    ensures i < 0 ==> forall j :: 0 <= j < |s| ==> !p(s[j])
  {
    if s == [] then -1
    else if p(s[0]) then 0
    else
      var i := FirstIndex(p, s[1..]);
      if i < 0 then -1 else i + 1
  }

  // ---- Sorting by insertion ----

  ghost predicate Ordered<T(!new)>(before: (T, T) -> bool, s: seq<T>) {
    forall i, j :: 0 <= i < j < |s| ==> before(s[i], s[j])
  }

  /** x put in front of the first that it may come before. */
  function Insert<T>(before: (T, T) -> bool, s: seq<T>, x: T): seq<T> {
    if s == [] || before(x, s[0]) then [x] + s else [s[0]] + Insert(before, s[1..], x)
  }

  lemma {:induction false} InsertMembers<T>(before: (T, T) -> bool, s: seq<T>, x: T)
    ensures multiset(Insert(before, s, x)) == multiset(s) + multiset{x}
    ensures forall y :: y in Insert(before, s, x) <==> y in s || y == x
  {
    if s != [] && !before(x, s[0]) {
      InsertMembers(before, s[1..], x);
      assert s == [s[0]] + s[1..];
    }
  }

  /** Insertion keeps a transitive order in which x can be compared to every member. */
  lemma {:induction false} InsertOrdered<T(!new)>(before: (T, T) -> bool, s: seq<T>, x: T)
    requires Ordered(before, s) && forall y :: y in s ==> before(x, y) || before(y, x)
    requires forall a, b, c :: before(a, b) && before(b, c) ==> before(a, c)
    ensures Ordered(before, Insert(before, s, x))
  {
    if s != [] {
      forall y | y in s[1..] ensures before(s[0], y) {
        var i :| 0 <= i < |s[1..]| && s[1..][i] == y;
        assert before(s[0], s[i + 1]);
      }
      if !before(x, s[0]) {
        InsertOrdered(before, s[1..], x);
        InsertMembers(before, s[1..], x);
        var r := Insert(before, s[1..], x);
        forall i, j | 0 <= i < j < |[s[0]] + r| ensures before(([s[0]] + r)[i], ([s[0]] + r)[j]) {
          assert r[j - 1] in r;
        }
      }
    }
  }
}
