/** What each critical section of the object store does, as a function of the store's value. */
module StoreSpec {
  import opened Prelude
  import opened Json
  import opened Objects
  import Decimal

  datatype EventType = Added | Modified | Deleted

  datatype Event = Event(kind: EventType, gvr: GVR, obj: Object, rv: nat)

  datatype Error = NotRegistered | BadRequest | AlreadyExists | NotFound | Conflict | Internal

  /** What the store draws from outside when it creates an object: a fresh UID, the time, a name suffix. */
  datatype Minted = Minted(uid: string, now: string, suffix: string)

  /**
   * base and baseRV are what the store was started with, log every event since; the source keeps
   * neither, and every other field is computed without them.
   */
  datatype State = State(
    resources: map<GVR, bool>,
    data: map<Key, Object>,
    rv: nat,
    history: seq<Event>,
    histCap: nat,
    base: map<Key, Object>,
    baseRV: nat,
    log: seq<Event>)

  datatype Outcome = Outcome(state: State, result: Result<Object, Error>)

  const DEFAULT_HISTORY: nat := 8192

  function New(resources: map<GVR, bool>, histCap: int, base: map<Key, Object>, startRV: nat): State {
    State(resources, base, startRV, [], if histCap <= 0 then DEFAULT_HISTORY else histCap, base, startRV, [])
  }

  function Namespaced(resources: map<GVR, bool>, gvr: GVR): bool {
    gvr in resources && resources[gvr]
  }

  function KeyFor(resources: map<GVR, bool>, gvr: GVR, namespace: string, name: string): Key {
    Key(gvr, Path(Namespaced(resources, gvr), namespace, name))
  }

  function KeyOf(resources: map<GVR, bool>, gvr: GVR, o: Object): Key {
    KeyFor(resources, gvr, Namespace(o), Name(o))
  }

  function Trim(h: seq<Event>, cap: nat): seq<Event> {
    if |h| > cap then h[|h| - cap..] else h
  }

  /** The common tail of every write: new contents under k, next resource version, one event. */
  function Commit(s: State, k: Key, contents: Option<Object>, ev: Event): State {
    s.(data := if contents.Some? then s.data[k := contents.value] else s.data - {k},
       rv := s.rv + 1,
       history := Trim(s.history + [ev], s.histCap),
       log := s.log + [ev])
  }

  function Put(s: State, k: Key, o: Object, kind: EventType): Outcome {
    var stamped := WithRV(o, s.rv + 1);
    Outcome(Commit(s, k, Some(stamped), Event(kind, k.gvr, stamped, s.rv + 1)), Ok(stamped))
  }

  function Scoped(resources: map<GVR, bool>, gvr: GVR, o: Object): Object {
    if Namespaced(resources, gvr) then o else WithMetaString(o, "namespace", "")
  }

  function CreateName(o: Object, suffix: string): string {
    if Name(o) != "" || GenerateName(o) == "" then Name(o) else GenerateName(o) + suffix
  }

  function CreateKey(s: State, gvr: GVR, obj: Object, suffix: string): Key {
    var o := Scoped(s.resources, gvr, obj);
    KeyFor(s.resources, gvr, Namespace(o), CreateName(o, suffix))
  }

  /** A generated name is drawn again until it is unused. */
  predicate SuffixFree(s: State, gvr: GVR, obj: Object, suffix: string) {
    Name(obj) == "" && GenerateName(obj) != "" ==> CreateKey(s, gvr, obj, suffix) !in s.data
  }

  /** The object Create files, before its resource version is stamped. */
  function Prepared(o: Object, name: string, minted: Minted): Object {
    var o1 := WithMetaString(o, "name", name);
    var o2 := if UID(o1) == "" then WithMetaString(o1, "uid", minted.uid) else o1;
    var o3 := WithGeneration(o2, 1);
    if CreationTime(o3) == "" then WithMetaString(o3, "creationTimestamp", minted.now) else o3
  }

  function Create(s: State, gvr: GVR, obj: Object, minted: Minted): Outcome
    requires SuffixFree(s, gvr, obj, minted.suffix)
  {
    if gvr !in s.resources then Outcome(s, Err(NotRegistered)) else
    var o := Scoped(s.resources, gvr, obj);
    var name := CreateName(o, minted.suffix);
    if name == "" then Outcome(s, Err(BadRequest)) else
    var k := CreateKey(s, gvr, obj, minted.suffix);
    if k in s.data then Outcome(s, Err(AlreadyExists)) else
    Put(s, k, Prepared(o, name, minted), Added)
  }

  function Get(s: State, gvr: GVR, namespace: string, name: string): Result<Object, Error> {
    if gvr !in s.resources then Err(NotRegistered) else
    var k := KeyFor(s.resources, gvr, namespace, name);
    if k in s.data then Ok(s.data[k]) else Err(NotFound)
  }

  function MergeForUpdate(current: Object, incoming: Object, isStatus: bool): Object {
    if isStatus then WithStatusOf(current, incoming) else
    var r1 := WithMetaString(incoming, "uid", UID(current));
    var r2 := WithMetaString(r1, "creationTimestamp", CreationTime(current));
    var r3 := WithStatusOf(r2, current);
    WithGeneration(r3, Generation(current) + (if Field(current, "spec") == Field(r3, "spec") then 0 else 1))
  }

  /** The optimistic-concurrency test that Update and Patch share; an empty version asks for nothing. */
  predicate Conflicts(current: Object, incoming: Object) {
    ResourceVersion(incoming) != "" && ResourceVersion(incoming) != ResourceVersion(current)
  }

  function Replace(s: State, k: Key, incoming: Object, isStatus: bool): Outcome
    requires k in s.data
  {
    if Conflicts(s.data[k], incoming) then Outcome(s, Err(Conflict))
    else Put(s, k, MergeForUpdate(s.data[k], incoming, isStatus), Modified)
  }

  function Update(s: State, gvr: GVR, obj: Object, isStatus: bool): Outcome {
    if gvr !in s.resources then Outcome(s, Err(NotRegistered)) else
    var k := KeyOf(s.resources, gvr, obj);
    if k !in s.data then Outcome(s, Err(NotFound)) else
    Replace(s, k, obj, isStatus)
  }

  /** A merge-patched document is an object again only if it is a JSON object with a kind. */
  function Patched(current: Object, patch: Json): Option<Object> {
    var doc := MergePatch(Obj(current), patch);
    if doc.Obj? && Kind(doc.fields) != "" then Some(doc.fields) else None
  }

  function Patch(s: State, gvr: GVR, namespace: string, name: string, patch: Json, isStatus: bool): Outcome {
    if gvr !in s.resources then Outcome(s, Err(NotRegistered)) else
    var k := KeyFor(s.resources, gvr, namespace, name);
    if k !in s.data then Outcome(s, Err(NotFound)) else
    var patched := Patched(s.data[k], patch);
    if patched.None? then Outcome(s, Err(Internal)) else
    Replace(s, k, patched.value, isStatus)
  }

  function Delete(s: State, gvr: GVR, namespace: string, name: string): Outcome {
    if gvr !in s.resources then Outcome(s, Err(NotRegistered)) else
    var k := KeyFor(s.resources, gvr, namespace, name);
    if k !in s.data then Outcome(s, Err(NotFound)) else
    var deleted := WithRV(s.data[k], s.rv + 1);
    Outcome(Commit(s, k, None, Event(Deleted, gvr, deleted, s.rv + 1)), Ok(deleted))
  }

  /** The namespace test of List and Watch: an empty namespace asks for all. */
  predicate InNamespace(resources: map<GVR, bool>, gvr: GVR, namespace: string, o: Object) {
    Namespaced(resources, gvr) && namespace != "" ==> Namespace(o) == namespace
  }

  /** What a List of one resource type sees, keyed as the store keys it. */
  function Listed(s: State, gvr: GVR, namespace: string, matches: Object -> bool): map<Key, Object> {
    map k | k in s.data && k.gvr == gvr && InNamespace(s.resources, gvr, namespace, s.data[k]) && matches(s.data[k])
      :: s.data[k]
  }

  // ---- Operations as values, so that runs can be quantified over ----

  datatype Op =
    | CreateOp(gvr: GVR, obj: Object, minted: Minted)
    | UpdateOp(gvr: GVR, obj: Object, isStatus: bool)
    | PatchOp(gvr: GVR, namespace: string, name: string, patch: Json, isStatus: bool)
    | DeleteOp(gvr: GVR, namespace: string, name: string)

  /**
   * What callers keep to: names drawn for generateName are unused, UIDs are not empty, namespaces
   * hold no slash (they are path segments), and a patch leaves name and namespace alone.
   */
  predicate Admissible(s: State, op: Op) {
    match op
    case CreateOp(gvr, obj, minted) =>
      SuffixFree(s, gvr, obj, minted.suffix) && NoSlash(Namespace(obj)) && minted.uid != ""
    case UpdateOp(gvr, obj, isStatus) => NoSlash(Namespace(obj))
    case PatchOp(gvr, namespace, name, patch, isStatus) =>
      NoSlash(namespace) &&
      var k := KeyFor(s.resources, gvr, namespace, name);
      k in s.data && Patched(s.data[k], patch).Some? ==>
        var p := Patched(s.data[k], patch).value;
        Name(p) == Name(s.data[k]) && Namespace(p) == Namespace(s.data[k])
    case DeleteOp(gvr, namespace, name) => NoSlash(namespace)
  }

  function Apply(s: State, op: Op): Outcome
    requires Admissible(s, op)
  {
    match op
    case CreateOp(gvr, obj, minted) => Create(s, gvr, obj, minted)
    case UpdateOp(gvr, obj, isStatus) => Update(s, gvr, obj, isStatus)
    case PatchOp(gvr, namespace, name, patch, isStatus) => Patch(s, gvr, namespace, name, patch, isStatus)
    case DeleteOp(gvr, namespace, name) => Delete(s, gvr, namespace, name)
  }

  // ---- The invariant of the store ----

  function ApplyEvent(resources: map<GVR, bool>, m: map<Key, Object>, ev: Event): map<Key, Object> {
    var k := KeyOf(resources, ev.gvr, ev.obj);
    if ev.kind.Deleted? then m - {k} else m[k := ev.obj]
  }

  /** The contents reached from m by the events of log, in order. */
  function Replay(resources: map<GVR, bool>, m: map<Key, Object>, log: seq<Event>): map<Key, Object> {
    if log == [] then m
    else ApplyEvent(resources, Replay(resources, m, log[..|log| - 1]), log[|log| - 1])
  }

  ghost predicate WellKeyed(resources: map<GVR, bool>, k: Key, o: Object) {
    k.gvr in resources && Name(o) != "" && NoSlash(Namespace(o)) && KeyOf(resources, k.gvr, o) == k
  }

  ghost predicate StampedBy(o: Object, rv: nat) {
    ResourceVersion(o) == Decimal.FormatUint(rv)
  }

  ghost predicate StampedUpTo(o: Object, bound: nat) {
    exists n: nat :: n <= bound && StampedBy(o, n)
  }

  /** Stored contents that a store may be started from. */
  ghost predicate WellFormedBase(resources: map<GVR, bool>, base: map<Key, Object>, baseRV: nat) {
    forall k :: k in base ==> WellKeyed(resources, k, base[k]) && StampedUpTo(base[k], baseRV)
  }

  ghost predicate WellFormedLog(resources: map<GVR, bool>, baseRV: nat, log: seq<Event>) {
    forall i :: 0 <= i < |log| ==>
      && log[i].rv == baseRV + 1 + i
      && StampedBy(log[i].obj, log[i].rv)
      && WellKeyed(resources, KeyOf(resources, log[i].gvr, log[i].obj), log[i].obj)
  }

  ghost predicate Inv(s: State) {
    && s.histCap > 0
    && s.rv == s.baseRV + |s.log|
    && s.history == Trim(s.log, s.histCap)
    && WellFormedBase(s.resources, s.base, s.baseRV)
    && WellFormedLog(s.resources, s.baseRV, s.log)
    && s.data == Replay(s.resources, s.base, s.log)
  }

  ghost predicate SameStart(s: State, t: State) {
    t.resources == s.resources && t.base == s.base && t.baseRV == s.baseRV && t.histCap == s.histCap
  }

  /** A failed operation changes nothing; a successful one appends exactly one event, for its key. */
  ghost predicate OneWrite(s: State, o: Outcome, k: Key) {
    && SameStart(s, o.state)
    && (o.result.Err? ==> o.state == s)
    && (o.result.Ok? ==>
          && |o.state.log| == |s.log| + 1
          && o.state.log[..|s.log|] == s.log
          && KeyOf(s.resources, o.state.log[|s.log|].gvr, o.state.log[|s.log|].obj) == k)
  }
}
