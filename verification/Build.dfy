/** How a sandbox is built from a template and what a claim adds to it. */
module Build {
  import opened Prelude
  import opened Cluster

  // ---- Volume claim templates ----

  function LastIndex(ts: seq<Vct>, name: Name): (i: int)
    ensures -1 <= i < |ts|
    ensures i >= 0 ==> ts[i].name == name
    ensures forall j :: i < j < |ts| ==> ts[j].name != name
  {
    if ts == [] then -1
    else if ts[|ts| - 1].name == name then |ts| - 1
    else LastIndex(ts[..|ts| - 1], name)
  }

  function MergeOne(out: seq<Vct>, v: Vct): seq<Vct> {
    if LastIndex(out, v.name) >= 0 then out[LastIndex(out, v.name) := v] else out + [v]
  }

  function Merged(out: seq<Vct>, extra: seq<Vct>, policy: Injection): Option<seq<Vct>>
    decreases |extra|
  {
    if policy == Refused then None
    else if extra == [] then Some(out)
    else if policy == Allowed && LastIndex(out, extra[0].name) >= 0 then None
    else Merged(MergeOne(out, extra[0]), extra[1..], policy)
  }

  /** The index map says for every name where it was last put. */
  ghost predicate Indexes(idx: map<Name, nat>, ts: seq<Vct>) {
    forall name :: if name in idx then LastIndex(ts, name) == idx[name] else LastIndex(ts, name) == -1
  }

  lemma IndexesSame(idx: map<Name, nat>, ts: seq<Vct>, v: Vct)
    requires Indexes(idx, ts) && v.name in idx
    ensures idx[v.name] < |ts| && Indexes(idx, ts[idx[v.name] := v])
  {
    var at := idx[v.name];
    assert LastIndex(ts, v.name) == at;
    forall name ensures LastIndex(ts[at := v], name) == LastIndex(ts, name) {
      SameNamesSameIndex(ts, ts[at := v], name);
    }
  }

  lemma SameNamesSameIndex(a: seq<Vct>, b: seq<Vct>, name: Name)
    requires |a| == |b| && forall i :: 0 <= i < |a| ==> a[i].name == b[i].name
    ensures LastIndex(a, name) == LastIndex(b, name)
  {
  }

  lemma LastIndexAppend(ts: seq<Vct>, v: Vct, name: Name)
    ensures LastIndex(ts + [v], name) == if name == v.name then |ts| else LastIndex(ts, name)
  {
    assert (ts + [v])[..|ts|] == ts;
  }

  method MergeVct(base: seq<Vct>, extra: seq<Vct>, policy: Injection) returns (r: Option<seq<Vct>>)
    ensures r == Merged(base, extra, policy)
  {
    if policy != Allowed && policy != Overrides {
      return None;
    }
    var idx: map<Name, nat> := map[];
    var out := base;
    for i := 0 to |out|
      invariant out == base && Indexes(idx, out[..i])
    {
      assert out[..i + 1] == out[..i] + [out[i]];
      forall name ensures LastIndex(out[..i + 1], name) == if name == out[i].name then i else LastIndex(out[..i], name) {
        LastIndexAppend(out[..i], out[i], name);
      }
      idx := idx[out[i].name := i];
    }
    assert out[..|out|] == out;
    assert extra[0..] == extra;
    for i := 0 to |extra|
      invariant Indexes(idx, out)
      invariant Merged(base, extra, policy) == Merged(out, extra[i..], policy)
    {
      var v := extra[i];
      assert extra[i..][1..] == extra[i + 1..];
      if v.name in idx {
        if policy != Overrides {
          return None;
        }
        IndexesSame(idx, out, v);
        out := out[idx[v.name] := v];
      } else {
        forall name ensures LastIndex(out + [v], name) == if name == v.name then |out| else LastIndex(out, name) {
          LastIndexAppend(out, v, name);
        }
        idx := idx[v.name := |out|];
        out := out + [v];
      }
    }
    return Some(out);
  }

  // ---- What merging means ----

  ghost predicate DistinctNames(ts: seq<Vct>) {
    forall i, j :: 0 <= i < j < |ts| ==> ts[i].name != ts[j].name
  }

  function Names(ts: seq<Vct>): seq<Name> {
    seq(|ts|, i requires 0 <= i < |ts| => ts[i].name)
  }

  /** The names of extra that are not among the known ones, each once, in order. */
  function NewNames(known: seq<Name>, extra: seq<Vct>): seq<Name>
    decreases |extra|
  {
    if extra == [] then []
    else if extra[0].name in known then NewNames(known, extra[1..])
    else [extra[0].name] + NewNames(known + [extra[0].name], extra[1..])
  }

  /** As a map, the later of two templates with one name counting. */
  function AsMap(ts: seq<Vct>): map<Name, Vct> {
    if ts == [] then map[] else AsMap(ts[..|ts| - 1])[ts[|ts| - 1].name := ts[|ts| - 1]]
  }

  lemma {:induction false} AsMapIsLast(ts: seq<Vct>, name: Name)
    ensures if LastIndex(ts, name) >= 0 then name in AsMap(ts) && AsMap(ts)[name] == ts[LastIndex(ts, name)] else name !in AsMap(ts)
  {
    if ts != [] {
      AsMapIsLast(ts[..|ts| - 1], name);
    }
  }

  lemma MergeOneAsMap(out: seq<Vct>, v: Vct)
    ensures AsMap(MergeOne(out, v)) == AsMap(out)[v.name := v]
  {
    var out2 := MergeOne(out, v);
    forall name ensures name in AsMap(out2) <==> name in AsMap(out) || name == v.name
      ensures name in AsMap(out2) ==> AsMap(out2)[name] == (if name == v.name then v else AsMap(out)[name])
    {
      AsMapIsLast(out, name);
      AsMapIsLast(out2, name);
      if LastIndex(out, v.name) >= 0 {
        SameNamesSameIndex(out, out2, name);
      } else {
        LastIndexAppend(out, v, name);
      }
    }
  }

  lemma {:induction false} AsMapCons(v: Vct, ts: seq<Vct>)
    ensures AsMap([v] + ts) == map[v.name := v] + AsMap(ts)
  {
    if ts == [] {
      assert [v] + ts == [v] && [v][..0] == [];
      assert AsMap([v]) == map[][v.name := v];
    } else {
      AsMapCons(v, ts[..|ts| - 1]);
      assert ([v] + ts)[..|ts|] == [v] + ts[..|ts| - 1];
      assert ([v] + ts)[|ts|] == ts[|ts| - 1];
    }
  }

  lemma OverrideAssociates(m: map<Name, Vct>, b: map<Name, Vct>, v: Vct, r: map<Name, Vct>, e: map<Name, Vct>)
    requires m == b[v.name := v] + r && e == map[v.name := v] + r
    ensures m == b + e
  {
  }

  lemma NothingOverrides(b: map<Name, Vct>)
    ensures b + map[] == b
  {
  }

  lemma AsMapHead(extra: seq<Vct>)
    requires extra != []
    ensures AsMap(extra) == map[extra[0].name := extra[0]] + AsMap(extra[1..])
  {
    AsMapCons(extra[0], extra[1..]);
    assert [extra[0]] + extra[1..] == extra;
  }

  /** As a map the result is the base overridden by the extras, whatever the names. */
  lemma {:induction false} MergedOverrides(base: seq<Vct>, extra: seq<Vct>, policy: Injection)
    requires Merged(base, extra, policy).Some?
    ensures AsMap(Merged(base, extra, policy).value) == AsMap(base) + AsMap(extra)
    decreases |extra|
  {
    if extra == [] {
      NothingOverrides(AsMap(base));
    } else {
      MergedOverrides(MergeOne(base, extra[0]), extra[1..], policy);
      MergeOneAsMap(base, extra[0]);
      AsMapHead(extra);
      OverrideAssociates(AsMap(Merged(base, extra, policy).value), AsMap(base), extra[0], AsMap(extra[1..]), AsMap(extra));
    }
  }

  lemma MergeOneNames(base: seq<Vct>, v: Vct)
    ensures Names(MergeOne(base, v)) == Names(base) + if v.name in Names(base) then [] else [v.name]
    ensures DistinctNames(base) ==> DistinctNames(MergeOne(base, v))
  {
    var i := LastIndex(base, v.name);
    if i >= 0 {
      assert Names(base)[i] == v.name;
      assert Names(MergeOne(base, v)) == Names(base);
    }
  }

  lemma MovedOver(a: seq<Name>, x: Name, b: seq<Name>)
    ensures a + ([x] + b) == (a + [x]) + b
  {
  }

  /** The base's names stay in their order, and the new names follow in theirs. */
  lemma {:induction false} MergedOrder(base: seq<Vct>, extra: seq<Vct>, policy: Injection)
    requires Merged(base, extra, policy).Some?
    ensures Names(Merged(base, extra, policy).value) == Names(base) + NewNames(Names(base), extra)
    decreases |extra|
  {
    if extra == [] {
      assert Names(base) + [] == Names(base);
    } else {
      var known, v, out := Names(base), extra[0], MergeOne(base, extra[0]);
      MergedOrder(out, extra[1..], policy);
      MergeOneNames(base, v);
      if v.name in known {
        assert known + [] == known;
      } else {
        MovedOver(known, v.name, NewNames(known + [v.name], extra[1..]));
      }
    }
  }

  /** Merging into distinct names gives distinct names. */
  lemma {:induction false} MergedDistinct(base: seq<Vct>, extra: seq<Vct>, policy: Injection)
    requires Merged(base, extra, policy).Some? && DistinctNames(base)
    ensures DistinctNames(Merged(base, extra, policy).value)
    decreases |extra|
  {
    if extra != [] {
      MergeOneNames(base, extra[0]);
      MergedDistinct(MergeOne(base, extra[0]), extra[1..], policy);
    }
  }

  /** Some extra has the name of a base template or of an earlier extra. */
  ghost predicate Collides(base: seq<Vct>, extra: seq<Vct>) {
    exists j: nat :: j < |extra| && CollidesAt(base, extra, j)
  }

  /** The extra at j has a name in use before it. */
  ghost predicate CollidesAt(base: seq<Vct>, extra: seq<Vct>, j: nat)
    requires j < |extra|
  {
    (exists b :: b in base && b.name == extra[j].name) || (exists i :: 0 <= i < j && extra[i].name == extra[j].name)
  }

  lemma CollidesAtNext(base: seq<Vct>, extra: seq<Vct>, j: nat)
    requires 0 < j < |extra|
    ensures CollidesAt(base, extra, j) <==> CollidesAt(base + [extra[0]], extra[1..], j - 1)
  {
    var v, rest := extra[0], extra[1..];
    assert rest[j - 1] == extra[j];
    if b :| b in base && b.name == extra[j].name {
      assert b in base + [v];
    }
    if i :| 0 <= i < j && extra[i].name == extra[j].name {
      assert i == 0 || rest[i - 1] == extra[i];
      assert v in base + [v];
    }
    if b :| b in base + [v] && b.name == extra[j].name {
      assert b in base || b == extra[0];
    }
    if i :| 0 <= i < j - 1 && rest[i].name == extra[j].name {
      assert extra[i + 1] == rest[i];
    }
  }

  lemma CollidesStep(base: seq<Vct>, extra: seq<Vct>)
    requires extra != [] && LastIndex(base, extra[0].name) < 0
    ensures Collides(base, extra) <==> Collides(base + [extra[0]], extra[1..])
  {
    if Collides(base, extra) {
      var j: nat :| j < |extra| && CollidesAt(base, extra, j);
      assert j > 0;
      CollidesAtNext(base, extra, j);
    }
    if Collides(base + [extra[0]], extra[1..]) {
      var j: nat :| j < |extra[1..]| && CollidesAt(base + [extra[0]], extra[1..], j);
      CollidesAtNext(base, extra, j + 1);
    }
  }

  /** Refusal is total; replacing never fails; adding fails exactly on a collision. */
  lemma {:induction false} MergedFails(base: seq<Vct>, extra: seq<Vct>, policy: Injection)
    ensures Merged(base, extra, policy).None? <==> policy == Refused || (policy == Allowed && Collides(base, extra))
    decreases |extra|
  {
    if policy != Refused && extra != [] {
      var v := extra[0];
      MergedFails(MergeOne(base, v), extra[1..], policy);
      if LastIndex(base, v.name) < 0 {
        CollidesStep(base, extra);
      } else {
        assert base[LastIndex(base, v.name)] in base;
        assert CollidesAt(base, extra, 0);
      }
    }
  }

  // ---- Environment ----

  datatype EnvError = PolicyRefuses | NoSuchContainer | AlreadySet | NoContainers

  function ContainerIndex(cs: seq<Container>, name: Name): int {
    FirstIndex((c: Container) => c.name == name, cs)
  }

  function EntryIndex(env: seq<EnvEntry>, name: string): int {
    FirstIndex((x: EnvEntry) => x.name == name, env)
  }

  /** The container a variable goes to, if there is one. */
  function Target(cs: seq<Container>, e: EnvVar): int {
    if e.container != "" then ContainerIndex(cs, e.container) else if cs == [] then -1 else 0
  }

  function Entered(env: seq<EnvEntry>, e: EnvVar): seq<EnvEntry> {
    var i := EntryIndex(env, e.name);
    if i >= 0 then env[i := env[i].(value := Some(e.value))] else env + [EnvEntry(e.name, Some(e.value))]
  }

  function EnvOne(cs: seq<Container>, e: EnvVar): seq<Container> {
    var t := Target(cs, e);
    if t < 0 then cs else cs[t := cs[t].(env := Entered(cs[t].env, e))]
  }

  /** What a variable is refused for, if it is. */
  function Refusal(cs: seq<Container>, e: EnvVar, policy: Injection): Option<EnvError> {
    if Target(cs, e) < 0 then Some(if e.container != "" then NoSuchContainer else NoContainers)
    else if policy != Overrides && EntryIndex(cs[Target(cs, e)].env, e.name) >= 0 then Some(AlreadySet)
    else None
  }

  function EnvAll(cs: seq<Container>, env: seq<EnvVar>, policy: Injection): Result<seq<Container>, EnvError>
    decreases |env|
  {
    if env == [] then Ok(cs)
    else if policy == Refused then Err(PolicyRefuses)
    else if Refusal(cs, env[0], policy).Some? then Err(Refusal(cs, env[0], policy).value)
    else EnvAll(EnvOne(cs, env[0]), env[1..], policy)
  }

  /**
   * Adds a claim's variables to a pod's containers. NoContainers stands for the index out of range
   * that a variable for the first container of a pod without containers runs into.
   */
  method InjectEnv(cs: seq<Container>, env: seq<EnvVar>,
      policy: Injection) returns (r: Result<seq<Container>, EnvError>)
    ensures r == EnvAll(cs, env, policy)
  {
    if |env| == 0 {
      return Ok(cs);
    }
    if policy != Allowed && policy != Overrides {
      return Err(PolicyRefuses);
    }
    var out := cs;
    assert env[0..] == env;
    for i := 0 to |env|
      invariant EnvAll(cs, env, policy) == EnvAll(out, env[i..], policy)
    {
      var e := env[i];
      assert env[i..][1..] == env[i + 1..];
      var idx := 0;
      if e.container != "" {
        idx := ContainerIndex(out, e.container);
        if idx < 0 {
          return Err(NoSuchContainer);
        }
      } else if |out| == 0 {
        return Err(NoContainers);
      }
      var existing := EntryIndex(out[idx].env, e.name);
      if existing >= 0 && policy == Overrides {
        out := out[idx := out[idx].(env := out[idx].env[existing := out[idx].env[existing].(value := Some(e.value))])];
      } else if existing >= 0 {
        return Err(AlreadySet);
      } else {
        out := out[idx := out[idx].(env := out[idx].env + [EnvEntry(e.name, Some(e.value))])];
      }
    }
    return Ok(out);
  }

  /** What container t has under a name; its first entry counts. */
  function Lookup(cs: seq<Container>, t: nat, name: string): Option<Option<string>>
    requires t < |cs|
  {
    var i := EntryIndex(cs[t].env, name);
    if i >= 0 then Some(cs[t].env[i].value) else None
  }

  /** The last value the variables give to a name in container t. */
  function Given(cs: seq<Container>, env: seq<EnvVar>, t: nat, name: string): Option<string>
    requires t < |cs|
  {
    if env == [] then None
    else if Given(cs, env[1..], t, name).Some? then Given(cs, env[1..], t, name)
    else if Target(cs, env[0]) == t && env[0].name == name then Some(env[0].value)
    else None
  }

  /** Two pods that differ in variables only. */
  ghost predicate SameButEnv(a: seq<Container>, b: seq<Container>) {
    |a| == |b| && forall i :: 0 <= i < |a| ==> a[i].(env := b[i].env) == b[i]
  }

  lemma SameTargets(a: seq<Container>, b: seq<Container>, e: EnvVar)
    requires SameButEnv(a, b)
    ensures Target(a, e) == Target(b, e)
  {
    forall i | 0 <= i < |a| ensures a[i].name == b[i].name {
      assert a[i].(env := b[i].env) == b[i];
    }
  }

  lemma {:induction false} SameGiven(a: seq<Container>, b: seq<Container>, env: seq<EnvVar>, t: nat, name: string)
    requires SameButEnv(a, b) && t < |a|
    ensures Given(a, env, t, name) == Given(b, env, t, name)
  {
    if env != [] {
      SameTargets(a, b, env[0]);
      SameGiven(a, b, env[1..], t, name);
    }
  }

  lemma EntryIs(env: seq<EnvEntry>, name: string, i: int)
    requires -1 <= i < |env| && (i >= 0 ==> env[i].name == name)
    requires forall j :: 0 <= j < (if i < 0 then |env| else i) ==> env[j].name != name
    ensures EntryIndex(env, name) == i
  {
    var k := EntryIndex(env, name);
    if i < 0 && k >= 0 {
      assert false;
    }
  }

  lemma EntryAfter(env: seq<EnvEntry>, e: EnvVar, name: string)
    ensures var out := Entered(env, e);
      if name == e.name then EntryIndex(out, name) >= 0 && out[EntryIndex(out, name)].value == Some(e.value)
      else
        && EntryIndex(out, name) == EntryIndex(env, name)
        && (EntryIndex(env, name) >= 0 ==> out[EntryIndex(out, name)] == env[EntryIndex(env, name)])
  {
    var at := EntryIndex(env, e.name);
    if name == e.name {
      EntryIs(Entered(env, e), name, if at >= 0 then at else |env|);
    } else {
      EntryIs(Entered(env, e), name, EntryIndex(env, name));
    }
  }

  lemma LookupOne(cs: seq<Container>, e: EnvVar, t: nat, name: string)
    requires t < |cs| && Target(cs, e) >= 0
    ensures SameButEnv(cs, EnvOne(cs, e))
    ensures Lookup(EnvOne(cs, e), t, name)
         == if Target(cs, e) == t && e.name == name then Some(Some(e.value)) else Lookup(cs, t, name)
  {
    EntryAfter(cs[Target(cs, e)].env, e, name);
  }

  /**
   * When a claim's variables are accepted, each named one has the last value given to it, every other
   * one what it had, and nothing else of the pod changes.
   */
  lemma {:induction false} InjectedEnv(cs: seq<Container>, env: seq<EnvVar>, policy: Injection, t: nat, name: string)
    requires EnvAll(cs, env, policy).Ok? && t < |cs|
    ensures var out := EnvAll(cs, env, policy).value;
      && SameButEnv(cs, out)
      && Lookup(out, t, name) == (if Given(cs, env, t, name).Some? then Some(Given(cs, env, t, name)) else Lookup(cs, t, name))
    decreases |env|
  {
    if env != [] {
      var one := EnvOne(cs, env[0]);
      LookupOne(cs, env[0], t, name);
      InjectedEnv(one, env[1..], policy, t, name);
      SameGiven(cs, one, env[1..], t, name);
      var out := EnvAll(cs, env, policy).value;
      forall i | 0 <= i < |cs| ensures cs[i].(env := out[i].env) == out[i] {
        assert cs[i].(env := one[i].env) == one[i];
        assert one[i].(env := out[i].env) == out[i];
      }
    }
  }

  /** Variable j names what its container has already, or was given by an earlier variable. */
  ghost predicate AlreadyGiven(cs: seq<Container>, env: seq<EnvVar>, j: nat)
    requires j < |env|
  {
    var t := Target(cs, env[j]);
    && t >= 0
    && ((exists x :: x in cs[t].env && x.name == env[j].name)
       || exists i :: 0 <= i < j && env[i].name == env[j].name && Target(cs, env[i]) == t)
  }

  /** What variable j is refused for, told from the pod and the variables before it. */
  ghost function Fault(cs: seq<Container>, env: seq<EnvVar>, policy: Injection, j: nat): Option<EnvError>
    requires j < |env|
  {
    if env[j].container != "" && (forall c :: c in cs ==> c.name != env[j].container) then Some(NoSuchContainer)
    else if env[j].container == "" && cs == [] then Some(NoContainers)
    else if policy != Overrides && AlreadyGiven(cs, env, j) then Some(AlreadySet)
    else None
  }

  /** Variable j is the first one with a fault, and this is it. */
  ghost predicate FirstFault(cs: seq<Container>, env: seq<EnvVar>, policy: Injection, j: nat, why: EnvError) {
    && j < |env| && Fault(cs, env, policy, j) == Some(why)
    && forall i: nat :: i < j ==> Fault(cs, env, policy, i) == None
  }

  lemma TargetIs(cs: seq<Container>, e: EnvVar)
    ensures Target(cs, e) < 0 <==>
      (e.container != "" && forall c :: c in cs ==> c.name != e.container) || (e.container == "" && cs == [])
  {
    if e.container != "" && Target(cs, e) >= 0 {
      assert cs[Target(cs, e)] in cs;
    }
  }

  /** A variable goes to the first container of the name it gives, or to the first of all. */
  lemma TargetIsFirst(cs: seq<Container>, e: EnvVar, i: nat)
    requires i < |cs|
    ensures e.container == "" ==> Target(cs, e) == 0
    ensures e.container != "" && cs[i].name == e.container && (forall j :: 0 <= j < i ==> cs[j].name != e.container) ==>
      Target(cs, e) == i
  {
  }

  /** What is given to a name is what the last variable for it gives. */
  lemma {:induction false} GivenIsLast(cs: seq<Container>, env: seq<EnvVar>, t: nat, name: string, i: nat)
    requires t < |cs|
    ensures (i < |env| && env[i].name == name && Target(cs, env[i]) == t
             && forall j :: i < j < |env| ==> env[j].name != name || Target(cs, env[j]) != t) ==>
      Given(cs, env, t, name) == Some(env[i].value)
    ensures (forall j :: 0 <= j < |env| ==> env[j].name != name || Target(cs, env[j]) != t) ==> Given(cs, env, t, name) == None
  {
    if env != [] {
      assert forall j :: 0 <= j < |env| - 1 ==> env[1..][j] == env[j + 1];
      GivenIsLast(cs, env[1..], t, name, if i == 0 then 0 else i - 1);
      if i == 0 && forall j :: 0 < j < |env| ==> env[j].name != name || Target(cs, env[j]) != t {
        assert forall j :: 0 <= j < |env[1..]| ==> env[1..][j].name != name || Target(cs, env[1..][j]) != t;
      }
    }
  }

  lemma EnteredNames(env: seq<EnvEntry>, e: EnvVar, name: string)
    ensures (exists x :: x in Entered(env, e) && x.name == name) <==> name == e.name || exists x :: x in env && x.name == name
  {
    EntryAfter(env, e, name);
    HasEntry(env, name);
    HasEntry(Entered(env, e), name);
  }

  lemma HasEntry(env: seq<EnvEntry>, name: string)
    ensures EntryIndex(env, name) >= 0 <==> exists x :: x in env && x.name == name
  {
    if EntryIndex(env, name) >= 0 {
      assert env[EntryIndex(env, name)] in env;
    }
  }

  lemma EarlierGiven(cs: seq<Container>, env: seq<EnvVar>, j: nat, t: int)
    requires 0 < j < |env|
    ensures (exists i :: 0 <= i < j && env[i].name == env[j].name && Target(cs, env[i]) == t) <==>
      || (env[0].name == env[j].name && Target(cs, env[0]) == t)
      || exists i :: 0 <= i < j - 1 && env[1..][i].name == env[j].name && Target(cs, env[1..][i]) == t
  {
    if i :| 0 <= i < j && env[i].name == env[j].name && Target(cs, env[i]) == t {
      assert i == 0 || env[1..][i - 1] == env[i];
    }
    if i :| 0 <= i < j - 1 && env[1..][i].name == env[j].name && Target(cs, env[1..][i]) == t {
      assert env[i + 1] == env[1..][i];
    }
  }

  lemma GivenAfter(cs: seq<Container>, env: seq<EnvVar>, j: nat)
    requires 0 < j < |env| && Target(cs, env[0]) >= 0
    ensures AlreadyGiven(cs, env, j) <==> AlreadyGiven(EnvOne(cs, env[0]), env[1..], j - 1)
  {
    var one, e := EnvOne(cs, env[0]), env[j];
    var t := Target(cs, e);
    SameTargets(cs, one, e);
    if t >= 0 {
      forall i | 0 <= i < j - 1 ensures Target(one, env[1..][i]) == Target(cs, env[1..][i]) {
        SameTargets(cs, one, env[1..][i]);
      }
      EarlierGiven(cs, env, j, t);
      EnteredNames(cs[t].env, env[0], e.name);
    }
  }

  /** Once the first variable is entered, the later ones have the faults they had. */
  lemma FaultAfter(cs: seq<Container>, env: seq<EnvVar>, policy: Injection, j: nat)
    requires 0 < j < |env| && Target(cs, env[0]) >= 0
    ensures Fault(cs, env, policy, j) == Fault(EnvOne(cs, env[0]), env[1..], policy, j - 1)
  {
    SameTargets(cs, EnvOne(cs, env[0]), env[j]);
    TargetIs(cs, env[j]);
    TargetIs(EnvOne(cs, env[0]), env[j]);
    GivenAfter(cs, env, j);
  }

  lemma FaultFirst(cs: seq<Container>, env: seq<EnvVar>, policy: Injection)
    requires env != []
    ensures Fault(cs, env, policy, 0) == Refusal(cs, env[0], policy)
  {
    TargetIs(cs, env[0]);
    if Target(cs, env[0]) >= 0 {
      HasEntry(cs[Target(cs, env[0])].env, env[0].name);
    }
  }

  /** What holds of the rest once the first variable is entered holds of the whole. */
  lemma FirstFaultAfter(cs: seq<Container>, env: seq<EnvVar>, policy: Injection, j: nat)
    requires env != [] && Fault(cs, env, policy, 0) == None && Target(cs, env[0]) >= 0
    ensures forall why :: FirstFault(EnvOne(cs, env[0]), env[1..], policy, j, why) ==> FirstFault(cs, env, policy, j + 1, why)
    ensures FaultFree(EnvOne(cs, env[0]), env[1..], policy) ==> FaultFree(cs, env, policy)
  {
    var one := EnvOne(cs, env[0]);
    forall i: nat | 0 < i < |env| ensures Fault(cs, env, policy, i) == Fault(one, env[1..], policy, i - 1) {
      FaultAfter(cs, env, policy, i);
    }
  }

  ghost predicate FaultFree(cs: seq<Container>, env: seq<EnvVar>, policy: Injection) {
    forall i: nat :: i < |env| ==> Fault(cs, env, policy, i) == None
  }

  lemma {:induction false} StopsAtFirstFault(cs: seq<Container>, env: seq<EnvVar>, policy: Injection) returns (j: nat)
    requires policy != Refused
    ensures match EnvAll(cs, env, policy)
      case Ok(_) => FaultFree(cs, env, policy)
      case Err(why) => FirstFault(cs, env, policy, j, why)
    decreases |env|
  {
    j := 0;
    if env != [] {
      FaultFirst(cs, env, policy);
      if Refusal(cs, env[0], policy) == None {
        var rest := StopsAtFirstFault(EnvOne(cs, env[0]), env[1..], policy);
        j := rest + 1;
        FirstFaultAfter(cs, env, policy, rest);
      }
    }
  }

  /**
   * Variables are refused for the first fault among them and for nothing else: a policy that admits
   * none; the index out of range exactly for a first variable without a container's name in a pod
   * without containers; and a name given twice only where the policy does not override.
   */
  lemma EnvRefused(cs: seq<Container>, env: seq<EnvVar>, policy: Injection, why: EnvError)
    ensures EnvAll(cs, env, policy) == Err(why) <==>
      if policy == Refused then env != [] && why == PolicyRefuses else exists j: nat :: FirstFault(cs, env, policy, j, why)
    ensures EnvAll(cs, env, policy).Ok? <==>
      if policy == Refused then env == [] else FaultFree(cs, env, policy)
    ensures EnvAll(cs, env, policy) == Err(PolicyRefuses) <==> policy == Refused && env != []
    ensures EnvAll(cs, env, policy) == Err(NoContainers) <==>
      policy != Refused && env != [] && cs == [] && env[0].container == ""
    ensures EnvAll(cs, env, policy) == Err(AlreadySet) ==> policy == Allowed
  {
    if policy != Refused {
      var j := StopsAtFirstFault(cs, env, policy);
      if EnvAll(cs, env, policy).Ok? {
        assert forall i: nat, w :: !FirstFault(cs, env, policy, i, w);
        assert env != [] ==> Fault(cs, env, policy, 0) == None;
      } else {
        assert Fault(cs, env, policy, j) == Some(EnvAll(cs, env, policy).error);
        assert j > 0 ==> Fault(cs, env, policy, 0) == None;
        forall i: nat, w | FirstFault(cs, env, policy, i, w) ensures i == j && w == EnvAll(cs, env, policy).error {
        }
      }
    }
  }

  // ---- The sandbox ----

  /** What a template and a claim's additions build, or the reason the claim reports. */
  function Built(t: TemplateSpec, env: seq<EnvVar>, vcts: seq<Vct>): Result<SandboxSpec, string> {
    var cs := EnvAll(t.pod.containers, env, t.envPolicy);
    if cs.Err? then Err(if cs.error == PolicyRefuses then "EnvVarsInjectionRejected" else "ReconcilerError")
    else
      var merged := if vcts == [] then Some(t.vcts) else Merged(t.vcts, vcts, t.vctPolicy);
      if merged.None? then Err("VolumeClaimTemplatesError")
      else Ok(SandboxSpec(t.pod.(containers := cs.value), merged.value, t.service, Running, None, false))
  }

  method BuildSandbox(t: TemplateSpec, env: seq<EnvVar>, vcts: seq<Vct>) returns (r: Result<SandboxSpec, string>)
    ensures r == Built(t, env, vcts)
  {
    var cs := InjectEnv(t.pod.containers, env, t.envPolicy);
    if cs.Err? {
      return Err(if cs.error == PolicyRefuses then "EnvVarsInjectionRejected" else "ReconcilerError");
    }
    var merged := t.vcts;
    if |vcts| > 0 {
      var m := MergeVct(t.vcts, vcts, t.vctPolicy);
      if m.None? {
        return Err("VolumeClaimTemplatesError");
      }
      merged := m.value;
    }
    return Ok(SandboxSpec(t.pod.(containers := cs.value), merged, t.service, Running, None, false));
  }

  /** A template adds nothing on its own: with no additions it always builds, and builds itself. */
  lemma BuildsPlain(t: TemplateSpec)
    ensures Built(t, [], []).Ok? && Built(t, [], []).value.pod == t.pod && Built(t, [], []).value.vcts == t.vcts
  {
  }

  /** The template lets the claim add these variables, and they fit its containers. */
  ghost predicate EnvAccepted(t: TemplateSpec, env: seq<EnvVar>) {
    env == [] || (t.envPolicy != Refused && FaultFree(t.pod.containers, env, t.envPolicy))
  }

  /** The template lets the claim add these volume claim templates, or replace its own by them. */
  ghost predicate VctsAccepted(t: TemplateSpec, vcts: seq<Vct>) {
    vcts == [] || t.vctPolicy == Overrides || (t.vctPolicy == Allowed && !Collides(t.vcts, vcts))
  }

  /** Each kind of addition is guarded by its own policy; the variables are looked at first. */
  lemma BuildRefused(t: TemplateSpec, env: seq<EnvVar>, vcts: seq<Vct>)
    ensures Built(t, env, vcts).Ok? <==> EnvAccepted(t, env) && VctsAccepted(t, vcts)
    ensures Built(t, env, vcts) == Err("EnvVarsInjectionRejected") <==> env != [] && t.envPolicy == Refused
    ensures Built(t, env, vcts) == Err("VolumeClaimTemplatesError") <==> EnvAccepted(t, env) && !VctsAccepted(t, vcts)
    ensures Built(t, env, vcts) == Err("ReconcilerError") <==> !EnvAccepted(t, env) && t.envPolicy != Refused
  {
    EnvRefused(t.pod.containers, env, t.envPolicy, PolicyRefuses);
    MergedFails(t.vcts, vcts, t.vctPolicy);
    assert "EnvVarsInjectionRejected"[0] != "VolumeClaimTemplatesError"[0] && "EnvVarsInjectionRejected"[0] != "ReconcilerError"[0];
    assert "ReconcilerError"[0] != "VolumeClaimTemplatesError"[0];
  }

  /**
   * What is built is the template's pod, running and without an end, with the claim's variables in its
   * containers and its volume claim templates overridden by the claim's; nothing else is changed.
   */
  lemma BuiltIs(t: TemplateSpec, env: seq<EnvVar>, vcts: seq<Vct>, i: nat, name: string)
    requires Built(t, env, vcts).Ok? && i < |t.pod.containers|
    ensures var spec := Built(t, env, vcts).value;
      && spec.pod.volumes == t.pod.volumes && spec.service == t.service
      && spec.mode == Running && spec.shutdown == None && !spec.deleteOnExpiry
      && SameButEnv(t.pod.containers, spec.pod.containers)
      && Lookup(spec.pod.containers, i, name) == (if Given(t.pod.containers, env, i, name).Some?
           then Some(Given(t.pod.containers, env, i, name)) else Lookup(t.pod.containers, i, name))
      && AsMap(spec.vcts) == AsMap(t.vcts) + AsMap(vcts)
      && Names(spec.vcts) == Names(t.vcts) + NewNames(Names(t.vcts), vcts)
  {
    InjectedEnv(t.pod.containers, env, t.envPolicy, i, name);
    if vcts == [] {
      NothingOverrides(AsMap(t.vcts));
      assert Names(t.vcts) + [] == Names(t.vcts);
    } else {
      MergedOverrides(t.vcts, vcts, t.vctPolicy);
      MergedOrder(t.vcts, vcts, t.vctPolicy);
    }
  }
}
