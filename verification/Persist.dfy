/** The write-through persister: one bucket per resource type, one transaction per write. */
module Persist {
  import opened Prelude
  import opened Objects
  import opened StoreSpec
  import opened StoreRuns
  import opened Watch

  // ---- Bucket names ----

  function BucketName(g: GVR): string { g.group + "/" + g.version + "/" + g.resource }

  const META_BUCKET: string := "__meta__"
  const RV_KEY: string := "rv"

  /** The first slash at or after from, or the length of s. */
  function SlashFrom(s: string, from: nat): (i: nat)
    requires from <= |s|
    ensures from <= i <= |s|
    ensures forall j :: from <= j < i ==> s[j] != '/'
    ensures i < |s| ==> s[i] == '/'
    decreases |s| - from
  {
    if from == |s| || s[from] == '/' then from else SlashFrom(s, from + 1)
  }

  /** The resource type a bucket name stands for: what lies before, between and after its first two slashes. */
  function BucketGVR(name: string): Option<GVR> {
    var first := SlashFrom(name, 0);
    if first == |name| then None else
    var second := SlashFrom(name, first + 1);
    if second == |name| then None else
    var version, resource := name[first + 1..second], name[second + 1..];
    if version == "" || resource == "" then None
    else Some(GVR(name[..first], version, resource))
  }

  method ParseGVRBucket(name: string) returns (r: Option<GVR>)
    ensures r == BucketGVR(name)
  {
    var first, second := -1, -1;
    var i := 0;
    while i < |name|
      invariant 0 <= i <= |name|
      invariant second == -1
      invariant first == -1 ==> SlashFrom(name, 0) == SlashFrom(name, i)
      invariant first != -1 ==>
        && 0 <= first < i && first == SlashFrom(name, 0)
        && SlashFrom(name, first + 1) == SlashFrom(name, i)
    {
      if name[i] == '/' {
        if first == -1 {
          first := i;
        } else {
          second := i;
          break;
        }
      }
      i := i + 1;
    }
    if first == -1 || second == -1 {
      return None;
    }
    var version, resource := name[first + 1..second], name[second + 1..];
    if version == "" || resource == "" {
      return None;
    }
    return Some(GVR(name[..first], version, resource));
  }

  /** The resource types whose bucket can be read back: no slash in group or version, nothing empty behind. */
  predicate Parseable(g: GVR) {
    NoSlash(g.group) && NoSlash(g.version) && g.version != "" && g.resource != ""
  }

  lemma NamePieces(g: GVR)
    ensures var name := BucketName(g);
      var a := |g.group|;
      var b := a + 1 + |g.version|;
      && b < |name| && name[..a] == g.group && name[a] == '/' && name[a + 1..b] == g.version
      && name[b] == '/' && name[b + 1..] == g.resource
  {
  }

  lemma SlashIs(name: string, from: nat, at: nat)
    requires from <= at < |name| && name[at] == '/' && NoSlash(name[from..at])
    ensures SlashFrom(name, from) == at
  {
    assert forall i :: from <= i < at ==> name[i] == name[from..at][i - from];
  }

  /** Reading a bucket name undoes naming the bucket exactly for the parseable types. */
  lemma BucketNamesRoundTrip(g: GVR)
    ensures BucketGVR(BucketName(g)) == Some(g) <==> Parseable(g)
  {
    var name := BucketName(g);
    if Parseable(g) {
      var a := |g.group|;
      NamePieces(g);
      assert name[0..a] == name[..a];
      SlashIs(name, 0, a);
      SlashIs(name, a + 1, a + 1 + |g.version|);
    } else if BucketGVR(name) == Some(g) {
      BucketGVRExact(name);
    }
  }

  lemma BucketGVRExact(name: string)
    ensures BucketGVR(name).Some? ==> BucketName(BucketGVR(name).value) == name && Parseable(BucketGVR(name).value)
  {
    var first := SlashFrom(name, 0);
    if first < |name| {
      var second := SlashFrom(name, first + 1);
      if second < |name| {
        assert name == name[..first] + "/" + name[first + 1..second] + "/" + name[second + 1..];
      }
    }
  }

  lemma BucketNamesDiffer(g: GVR, h: GVR)
    requires Parseable(g) && Parseable(h) && BucketName(g) == BucketName(h)
    ensures g == h
  {
    BucketNamesRoundTrip(g);
    BucketNamesRoundTrip(h);
  }

  lemma BucketIsNotMeta(g: GVR)
    ensures BucketName(g) != META_BUCKET
  {
    assert BucketName(g)[|g.group|] == '/';
    assert forall i :: 0 <= i < |META_BUCKET| ==> META_BUCKET[i] != '/';
  }

  // ---- Transactions ----

  /** A bucket value is an object's JSON text (held as the object) or the eight bytes of a version. */
  datatype Value = Doc(obj: Object) | Version(rv: nat)

  type Disk = map<string, map<string, Value>>

  function Bucket(d: Disk, name: string): map<string, Value> {
    if name in d then d[name] else map[]
  }

  function PutRV(d: Disk, rv: nat): Disk {
    d[META_BUCKET := Bucket(d, META_BUCKET)[RV_KEY := Version(rv)]]
  }

  function Saved(d: Disk, g: GVR, path: string, o: Object, rv: nat): Disk {
    PutRV(d[BucketName(g) := Bucket(d, BucketName(g))[path := Doc(o)]], rv)
  }

  function Removed(d: Disk, g: GVR, path: string, rv: nat): Disk {
    PutRV(if BucketName(g) in d then d[BucketName(g) := d[BucketName(g)] - {path}] else d, rv)
  }

  /** The transaction in which the event of a write under k goes to disk. */
  function Wrote(d: Disk, k: Key, e: Event): Disk {
    if e.kind.Deleted? then Removed(d, k.gvr, k.path, e.rv) else Saved(d, k.gvr, k.path, e.obj, e.rv)
  }

  /** The transaction that goes with one committed event. */
  function Txn(resources: map<GVR, bool>, d: Disk, e: Event): Disk {
    Wrote(d, KeyOf(resources, e.gvr, e.obj), e)
  }

  /** A successful operation writes the transaction that its event in the log tells. */
  lemma WroteIsTxn(s: State, op: Op, d: Disk)
    requires Inv(s) && Admissible(s, op) && Apply(s, op).result.Ok?
    ensures var log := Apply(s, op).state.log;
      && |log| == |s.log| + 1
      && Wrote(d, OpKey(s, op), log[|s.log|]) == Txn(s.resources, d, log[|s.log|])
  {
    ApplyKeepsInv(s, op);
  }

  /** The disk after the transactions of log: every prefix is a disk a crash can leave behind. */
  function DiskAfter(resources: map<GVR, bool>, d: Disk, log: seq<Event>): Disk {
    if log == [] then d
    else Txn(resources, DiskAfter(resources, d, log[..|log| - 1]), log[|log| - 1])
  }

  // ---- Loading ----

  function DiskRV(d: Disk): nat {
    var b := Bucket(d, META_BUCKET);
    if RV_KEY in b && b[RV_KEY].Version? then b[RV_KEY].rv else 0
  }

  function LoadedTypes(d: Disk): set<GVR> {
    set name | name in d && name != META_BUCKET && BucketGVR(name).Some? :: BucketGVR(name).value
  }

  function Docs(b: map<string, Value>): map<string, Object> {
    map path | path in b && b[path].Doc? :: b[path].obj
  }

  /** What Load hands to LoadFrom. */
  function Loaded(d: Disk): map<GVR, map<string, Object>> {
    map g | g in LoadedTypes(d) :: Docs(Bucket(d, BucketName(g)))
  }

  function RestorableKeys(resources: map<GVR, bool>, snap: map<GVR, map<string, Object>>): (keys: set<Key>)
    ensures forall k :: k in keys <==> k.gvr in snap && k.gvr in resources && k.path in snap[k.gvr]
  {
    set g, p | g in snap && g in resources && p in snap[g] :: Key(g, p)
  }

  /** The contents LoadFrom restores: registered types only. */
  function Restorable(resources: map<GVR, bool>, snap: map<GVR, map<string, Object>>): map<Key, Object> {
    map k | k in RestorableKeys(resources, snap) :: snap[k.gvr][k.path]
  }

  /** Reading an object's text back fails when it has no kind, and with it the whole load. */
  predicate Readable(o: Object) { Kind(o) != "" }

  function Restart(resources: map<GVR, bool>, histCap: int, d: Disk): Option<State> {
    var data := Restorable(resources, Loaded(d));
    if forall k :: k in data ==> Readable(data[k]) then Some(New(resources, histCap, data, DiskRV(d))) else None
  }

  // ---- Disk and memory ----

  ghost predicate DiskHolds(d: Disk, k: Key) {
    k.path in Bucket(d, BucketName(k.gvr))
  }

  /** The disk holds the given contents of the registered types, and the version they are at. */
  ghost predicate DiskMatches(resources: map<GVR, bool>, d: Disk, data: map<Key, Object>, rv: nat) {
    && DiskRV(d) == rv
    && (forall k :: k in data ==> k.gvr in resources)
    && (forall k: Key :: k.gvr in resources ==> (DiskHolds(d, k) <==> k in data))
    && (forall k :: k in data ==> Bucket(d, BucketName(k.gvr))[k.path] == Doc(data[k]))
  }

  ghost predicate ParseableTypes(resources: map<GVR, bool>) {
    forall g :: g in resources ==> Parseable(g)
  }

  lemma SavedAt(d: Disk, g: GVR, path: string, o: Object, rv: nat, h: GVR)
    requires Parseable(g) && Parseable(h)
    ensures var d' := Saved(d, g, path, o, rv);
      && DiskRV(d') == rv
      && Bucket(d', BucketName(h)) == if h == g then Bucket(d, BucketName(g))[path := Doc(o)] else Bucket(d, BucketName(h))
  {
    BucketIsNotMeta(g);
    BucketIsNotMeta(h);
    if BucketName(g) == BucketName(h) { BucketNamesDiffer(g, h); }
  }

  lemma RemovedAt(d: Disk, g: GVR, path: string, rv: nat, h: GVR)
    requires Parseable(g) && Parseable(h)
    ensures var d' := Removed(d, g, path, rv);
      && DiskRV(d') == rv
      && Bucket(d', BucketName(h)) == if h == g then Bucket(d, BucketName(g)) - {path} else Bucket(d, BucketName(h))
  {
    BucketIsNotMeta(g);
    BucketIsNotMeta(h);
    if BucketName(g) == BucketName(h) { BucketNamesDiffer(g, h); }
  }

  function Filed(data: map<Key, Object>, k: Key, e: Event): map<Key, Object> {
    if e.kind.Deleted? then data - {k} else data[k := e.obj]
  }

  /** One write moves disk and memory together. */
  lemma WroteKeepsMatch(resources: map<GVR, bool>, d: Disk, data: map<Key, Object>, rv: nat, k: Key, e: Event)
    requires ParseableTypes(resources) && DiskMatches(resources, d, data, rv) && k.gvr in resources
    ensures DiskMatches(resources, Wrote(d, k, e), Filed(data, k, e), e.rv)
  {
    var d', data' := Wrote(d, k, e), Filed(data, k, e);
    assert Parseable(k.gvr);
    WroteAt(d, k, e, k.gvr);
    forall x: Key | x.gvr in resources
      ensures DiskHolds(d', x) <==> x in data'
      ensures x in data' ==> Bucket(d', BucketName(x.gvr))[x.path] == Doc(data'[x])
    {
      assert Parseable(x.gvr);
      WroteAt(d, k, e, x.gvr);
      assert DiskHolds(d, x) <==> x in data;
    }
  }

  lemma WroteAt(d: Disk, k: Key, e: Event, h: GVR)
    requires Parseable(k.gvr) && Parseable(h)
    ensures var d' := Wrote(d, k, e); var b := Bucket(d, BucketName(h));
      && DiskRV(d') == e.rv
      && Bucket(d', BucketName(h)) == if h != k.gvr then b else if e.kind.Deleted? then b - {k.path} else b[k.path := Doc(e.obj)]
  {
    if e.kind.Deleted? {
      RemovedAt(d, k.gvr, k.path, e.rv, h);
    } else {
      SavedAt(d, k.gvr, k.path, e.obj, e.rv, h);
    }
  }

  /** After every write of a run, and after every prefix of its transactions, disk equals memory then. */
  lemma {:induction false} DiskFollowsMemory(s: State, d: Disk, n: nat)
    requires Inv(s) && ParseableTypes(s.resources) && DiskMatches(s.resources, d, s.base, s.baseRV) && n <= |s.log|
    ensures DiskMatches(s.resources, DiskAfter(s.resources, d, s.log[..n]), DataAt(s, n), s.baseRV + n)
  {
    if n > 0 {
      DiskFollowsMemory(s, d, n - 1);
      LogVersions(s);
      LoggedTypes(s, n - 1);
      var e := s.log[n - 1];
      WroteKeepsMatch(s.resources, DiskAfter(s.resources, d, s.log[..n - 1]), DataAt(s, n - 1), s.baseRV + n - 1,
                      KeyOf(s.resources, e.gvr, e.obj), e);
      OneMoreTxn(s, d, n);
    }
  }

  lemma OneMoreTxn(s: State, d: Disk, n: nat)
    requires 0 < n <= |s.log|
    ensures DiskAfter(s.resources, d, s.log[..n]) == Txn(s.resources, DiskAfter(s.resources, d, s.log[..n - 1]), s.log[n - 1])
    ensures DataAt(s, n) == ApplyEvent(s.resources, DataAt(s, n - 1), s.log[n - 1])
  {
    assert s.log[..n][..n - 1] == s.log[..n - 1];
  }

  lemma LoggedTypes(s: State, i: nat)
    requires Inv(s) && i < |s.log|
    ensures s.log[i].gvr in s.resources
  {
    assert WellKeyed(s.resources, KeyOf(s.resources, s.log[i].gvr, s.log[i].obj), s.log[i].obj);
  }

  /** The buckets of the registered types hold objects only. */
  ghost predicate HoldsDocs(resources: map<GVR, bool>, d: Disk) {
    forall k: Key :: k.gvr in resources && DiskHolds(d, k) ==> Bucket(d, BucketName(k.gvr))[k.path].Doc?
  }

  /** What is loaded from a disk matches it. */
  lemma LoadedMatches(resources: map<GVR, bool>, d: Disk)
    requires ParseableTypes(resources) && HoldsDocs(resources, d)
    ensures DiskMatches(resources, d, Restorable(resources, Loaded(d)), DiskRV(d))
  {
    var snap := Loaded(d);
    var r := Restorable(resources, snap);
    forall k: Key | k.gvr in resources ensures DiskHolds(d, k) <==> k in r
      ensures k in r ==> Bucket(d, BucketName(k.gvr))[k.path] == Doc(r[k])
    {
      assert Parseable(k.gvr);
      BucketNamesRoundTrip(k.gvr);
      BucketIsNotMeta(k.gvr);
      if DiskHolds(d, k) {
        assert BucketName(k.gvr) in d;
        assert k.gvr in LoadedTypes(d);
        assert k.path in snap[k.gvr];
      }
      if k in r {
        assert k.path in Docs(Bucket(d, BucketName(k.gvr)));
      }
    }
  }

  /** A disk matches no two contents. */
  lemma MatchesOnce(resources: map<GVR, bool>, d: Disk, a: map<Key, Object>, b: map<Key, Object>, rv: nat)
    requires DiskMatches(resources, d, a, rv) && DiskMatches(resources, d, b, rv)
    ensures a == b
  {
    forall k: Key ensures k in a <==> k in b
      ensures k in a ==> a[k] == b[k]
    {
      assert k.gvr in resources ==> (DiskHolds(d, k) <==> k in a) && (DiskHolds(d, k) <==> k in b);
      assert k in a ==> Doc(a[k]) == Doc(b[k]);
    }
  }

  /** Loading a disk that matches some contents gives those contents back. */
  lemma LoadGivesContents(resources: map<GVR, bool>, d: Disk, data: map<Key, Object>, rv: nat)
    requires ParseableTypes(resources) && DiskMatches(resources, d, data, rv)
    ensures Restorable(resources, Loaded(d)) == data
  {
    MatchedHoldsDocs(resources, d, data, rv);
    LoadedMatches(resources, d);
    MatchesOnce(resources, d, data, Restorable(resources, Loaded(d)), rv);
  }

  lemma MatchedHoldsDocs(resources: map<GVR, bool>, d: Disk, data: map<Key, Object>, rv: nat)
    requires DiskMatches(resources, d, data, rv)
    ensures HoldsDocs(resources, d) && DiskRV(d) == rv
  {
  }

  lemma RestartIs(resources: map<GVR, bool>, histCap: int, d: Disk, data: map<Key, Object>, rv: nat)
    requires ParseableTypes(resources) && DiskMatches(resources, d, data, rv)
    ensures Restart(resources, histCap, d) ==
      if forall k :: k in data ==> Readable(data[k]) then Some(New(resources, histCap, data, rv)) else None
  {
    LoadGivesContents(resources, d, data, rv);
  }

  lemma FreshInv(resources: map<GVR, bool>, histCap: int, data: map<Key, Object>, rv: nat)
    requires WellFormedBase(resources, data, rv)
    ensures Inv(New(resources, histCap, data, rv))
    ensures forall k :: k in data ==> StampedUpTo(data[k], rv)
  {
  }

  /**
   * Restarting from the transactions of any prefix of a run: it fails exactly if some object held
   * then has no kind; otherwise the store holds what it really held after that many writes, at that
   * version, with every object's version at or below it, and is ready to write above it.
   */
  lemma RestartFromAnyPrefix(s: State, d: Disk, n: nat, histCap: int)
    requires Inv(s) && ParseableTypes(s.resources) && DiskMatches(s.resources, d, s.base, s.baseRV) && n <= |s.log|
    ensures var r := Restart(s.resources, histCap, DiskAfter(s.resources, d, s.log[..n]));
      && (r.Some? <==> forall k :: k in DataAt(s, n) ==> Readable(DataAt(s, n)[k]))
      && (r.Some? ==>
            && r.value.data == DataAt(s, n) && r.value.rv == s.baseRV + n
            && (forall k :: k in r.value.data ==> StampedUpTo(r.value.data[k], r.value.rv))
            && Inv(r.value))
  {
    DiskFollowsMemory(s, d, n);
    RestartIs(s.resources, histCap, DiskAfter(s.resources, d, s.log[..n]), DataAt(s, n), s.baseRV + n);
    PrefixWellFormed(s, n);
    FreshInv(s.resources, histCap, DataAt(s, n), s.baseRV + n);
  }

  /** With nothing lost, the restarted store is the store that was running. */
  lemma RestartGivesSameStore(s: State, d: Disk, histCap: int)
    requires Inv(s) && ParseableTypes(s.resources) && DiskMatches(s.resources, d, s.base, s.baseRV)
    requires forall k :: k in s.data ==> Readable(s.data[k])
    ensures var r := Restart(s.resources, histCap, DiskAfter(s.resources, d, s.log));
      r.Some? && r.value.data == s.data && r.value.rv == s.rv
  {
    assert s.log[..|s.log|] == s.log;
    RestartFromAnyPrefix(s, d, |s.log|, histCap);
  }

  /** Every version a restarted store issues is above the one it was restored at. */
  lemma LaterVersionsAreAbove(restored: State, ops: seq<Op>, n: nat, i: nat)
    requires Inv(restored) && restored.log == [] && AdmissibleRun(restored, ops) && n <= |ops|
    requires i < |StoreRuns.After(restored, ops, n).log|
    ensures StoreRuns.After(restored, ops, n).log[i].rv > restored.rv
  {
    RunKeepsInv(restored, ops, 0, n);
    LogVersions(StoreRuns.After(restored, ops, n));
  }

  // ---- The persister ----

  class BoltPersister {
    var buckets: Disk

    constructor ()
      ensures buckets == map[]
    {
      buckets := map[];
    }

    method SaveObject(g: GVR, path: string, o: Object, rv: nat)
      modifies this
      ensures buckets == Saved(old(buckets), g, path, o, rv)
    {
      var name := BucketName(g);
      if name !in buckets {
        buckets := buckets[name := map[]];
      }
      buckets := buckets[name := buckets[name][path := Doc(o)]];
      WriteRV(rv);
    }

    method RemoveObject(g: GVR, path: string, rv: nat)
      modifies this
      ensures buckets == Removed(old(buckets), g, path, rv)
    {
      var name := BucketName(g);
      if name in buckets {
        buckets := buckets[name := buckets[name] - {path}];
      }
      WriteRV(rv);
    }

    method WriteRV(rv: nat)
      modifies this
      ensures buckets == PutRV(old(buckets), rv)
    {
      if META_BUCKET !in buckets {
        buckets := buckets[META_BUCKET := map[]];
      }
      buckets := buckets[META_BUCKET := buckets[META_BUCKET][RV_KEY := Version(rv)]];
    }

    method Load() returns (snap: map<GVR, map<string, Object>>, rv: nat)
      ensures snap == Loaded(buckets) && rv == DiskRV(buckets)
    {
      snap, rv := map[], 0;
      var todo := buckets.Keys;
      ghost var done: Disk := map[];
      while todo != {}
        invariant todo <= buckets.Keys
        invariant done == map name | name in buckets && name !in todo :: buckets[name]
        invariant snap == Loaded(done) && rv == DiskRV(done)
        decreases |todo|
      {
        var name :| name in todo;
        todo := todo - {name};
        ghost var before := done;
        done := done[name := buckets[name]];
        if name == META_BUCKET {
          if RV_KEY in buckets[name] && buckets[name][RV_KEY].Version? {
            rv := buckets[name][RV_KEY].rv;
          }
          MetaLoaded(before, buckets[name]);
        } else {
          var g := ParseGVRBucket(name);
          if g.Some? {
            snap := snap[g.value := Docs(buckets[name])];
          }
          BucketLoaded(before, name, buckets[name]);
        }
      }
      assert done == buckets;
    }
  }

  lemma MetaLoaded(d: Disk, b: map<string, Value>)
    requires META_BUCKET !in d
    ensures Loaded(d[META_BUCKET := b]) == Loaded(d) && DiskRV(d) == 0
  {
    var d' := d[META_BUCKET := b];
    assert LoadedTypes(d') == LoadedTypes(d);
    forall g | g in LoadedTypes(d) ensures Bucket(d', BucketName(g)) == Bucket(d, BucketName(g)) {
      BucketIsNotMeta(g);
    }
  }

  lemma BucketAddsType(d: Disk, name: string, b: map<string, Value>)
    requires name !in d && name != META_BUCKET
    ensures LoadedTypes(d[name := b]) ==
      LoadedTypes(d) + (if BucketGVR(name).Some? then {BucketGVR(name).value} else {})
  {
    var d' := d[name := b];
    assert forall n :: n in d' <==> n in d || n == name;
  }

  lemma LoadedTypeBucket(d: Disk, g: GVR)
    requires g in LoadedTypes(d)
    ensures BucketName(g) in d
  {
    var n :| n in d && n != META_BUCKET && BucketGVR(n) == Some(g);
    BucketGVRExact(n);
  }

  lemma BucketLoaded(d: Disk, name: string, b: map<string, Value>)
    requires name !in d && name != META_BUCKET
    ensures DiskRV(d[name := b]) == DiskRV(d)
    ensures Loaded(d[name := b]) ==
      if BucketGVR(name).Some? then Loaded(d)[BucketGVR(name).value := Docs(b)] else Loaded(d)
  {
    var d' := d[name := b];
    BucketAddsType(d, name, b);
    BucketGVRExact(name);
    forall g | g in LoadedTypes(d) ensures BucketName(g) != name && Bucket(d', BucketName(g)) == Bucket(d, BucketName(g)) {
      LoadedTypeBucket(d, g);
    }
  }
}
