/** What each write makes of the object it is for, field by field, and who keeps an object's identity. */
module WriteRules {
  import opened Prelude
  import opened Json
  import opened Objects
  import opened StoreSpec
  import opened StoreRuns
  import Decimal

  /** Where an object of this type, namespace and name is filed. */
  function Place(resources: map<GVR, bool>, gvr: GVR, namespace: string, name: string): Key
    requires gvr in resources
  {
    Key(gvr, (if resources[gvr] then namespace else "") + "/" + name)
  }

  /** Where a type is scoped to the cluster the namespace is not looked at; otherwise both parts count. */
  lemma PlacesDiffer(resources: map<GVR, bool>, gvr: GVR, ns1: string, name1: string, ns2: string, name2: string)
    requires gvr in resources && NoSlash(ns1) && NoSlash(ns2)
    ensures KeyFor(resources, gvr, ns1, name1) == Place(resources, gvr, ns1, name1)
    ensures KeyFor(resources, gvr, ns1, name1) == KeyFor(resources, gvr, ns2, name2) <==>
      name1 == name2 && (resources[gvr] ==> ns1 == ns2)
  {
    PathInjective(ns1, name1, ns2, name2);
    assert ("/" + name1)[1..] == name1 && ("/" + name2)[1..] == name2;
    assert "" + "/" + name1 == "/" + name1;
  }

  // ---- Create ----

  /** What is refused, and with which error, in the order of the tests; a failed Create changes nothing. */
  lemma CreateRefused(s: State, gvr: GVR, obj: Object, minted: Minted)
    requires SuffixFree(s, gvr, obj, minted.suffix)
    ensures gvr !in s.resources ==> Create(s, gvr, obj, minted) == Outcome(s, Err(NotRegistered))
    ensures gvr in s.resources && Name(obj) == "" && GenerateName(obj) == "" ==>
      Create(s, gvr, obj, minted) == Outcome(s, Err(BadRequest))
    ensures gvr in s.resources && Name(obj) != "" && Place(s.resources, gvr, Namespace(obj), Name(obj)) in s.data ==>
      Create(s, gvr, obj, minted) == Outcome(s, Err(AlreadyExists))
    ensures Create(s, gvr, obj, minted).result.Err? ==>
      || gvr !in s.resources || (Name(obj) == "" && GenerateName(obj) == "")
      || (Name(obj) != "" && Place(s.resources, gvr, Namespace(obj), Name(obj)) in s.data)
  {
    UnscopedNames(obj);
    if gvr in s.resources && Name(obj) != "" {
      PlaceOfNamed(s, gvr, obj, minted.suffix);
    }
  }

  lemma PlaceOfNamed(s: State, gvr: GVR, obj: Object, suffix: string)
    requires gvr in s.resources && Name(obj) != ""
    ensures CreateKey(s, gvr, obj, suffix) == Place(s.resources, gvr, Namespace(obj), Name(obj))
  {
    UnscopedNames(obj);
    assert "" + "/" + Name(obj) == "/" + Name(obj);
  }

  /** The members of an object that the store itself sets. */
  predicate IsStoreField(f: string) {
    f in {"name", "namespace", "uid", "generation", "creationTimestamp", "resourceVersion"}
  }

  lemma PreparedKeepsFields(o: Object, name: string, minted: Minted, f: string)
    requires (Name(o) != "" || GenerateName(o) != "") && name != "" && minted.uid != "" && !IsStoreField(f)
    ensures MetaField(Prepared(o, name, minted), f) == MetaField(o, f)
  {
    var o1 := WithMetaString(o, "name", name);
    var o2 := if UID(o1) == "" then WithMetaString(o1, "uid", minted.uid) else o1;
    var o3 := WithGeneration(o2, 1);
    SettersFrame(o, "name", name, 1);
    SettersFrame(o1, "uid", minted.uid, 1);
    SettersFrame(o2, "", "", 1);
    SettersKeepFields(o, "name", name, 1, f);
    SettersKeepFields(o1, "uid", minted.uid, 1, f);
    SettersKeepFields(o2, "", "", 1, f);
    SettersKeepFields(o3, "creationTimestamp", minted.now, 1, f);
  }

  /** The object a Create files: the caller's, with the identity that the store gives where the caller gave none. */
  ghost predicate Filed(o: Object, obj: Object, namespaced: bool, minted: Minted, rv: nat) {
    && Name(o) == (if Name(obj) != "" then Name(obj) else GenerateName(obj) + minted.suffix)
    && Namespace(o) == (if namespaced then Namespace(obj) else "")
    && UID(o) == (if UID(obj) != "" then UID(obj) else minted.uid)
    && CreationTime(o) == (if CreationTime(obj) != "" then CreationTime(obj) else minted.now)
    && Generation(o) == 1 && ResourceVersion(o) == Decimal.FormatUint(rv)
    && (forall f :: f != "metadata" ==> Field(o, f) == Field(obj, f) && (f in o <==> f in obj))
    && (forall f :: !IsStoreField(f) ==> MetaField(o, f) == MetaField(obj, f))
  }

  lemma StampedIsFiled(o: Object, rv: nat)
    requires Name(o) != ""
    ensures var t := WithRV(o, rv);
      && ResourceVersion(t) == Decimal.FormatUint(rv) && t - {"metadata"} == o - {"metadata"}
      && (forall f :: f != "resourceVersion" ==> MetaString(t, f) == MetaString(o, f) && MetaField(t, f) == MetaField(o, f))
      && Generation(t) == Generation(o)
  {
    SettersFrame(o, "resourceVersion", Decimal.FormatUint(rv), 0);
    forall f | f != "resourceVersion" ensures MetaField(WithRV(o, rv), f) == MetaField(o, f) {
      SettersKeepFields(o, "resourceVersion", Decimal.FormatUint(rv), 0, f);
    }
  }

  lemma OutsideFields(o: Object, p: Object, f: string)
    requires o - {"metadata"} == p - {"metadata"} && f != "metadata"
    ensures Field(o, f) == Field(p, f) && (f in o <==> f in p)
  {
    assert (f in o <==> f in o - {"metadata"}) && (f in p <==> f in p - {"metadata"});
    assert f in o && f in p ==> o[f] == (o - {"metadata"})[f] && p[f] == (p - {"metadata"})[f];
  }

  lemma ScopedKeepsFields(resources: map<GVR, bool>, gvr: GVR, o: Object, f: string)
    requires (Name(o) != "" || GenerateName(o) != "") && f != "namespace"
    ensures MetaField(Scoped(resources, gvr, o), f) == MetaField(o, f)
  {
    SettersKeepFields(o, "namespace", "", 0, f);
  }

  lemma PreparedIsFiled(resources: map<GVR, bool>, gvr: GVR, obj: Object, minted: Minted, rv: nat)
    requires gvr in resources && minted.uid != "" && (Name(obj) != "" || GenerateName(obj) != "")
    requires CreateName(Scoped(resources, gvr, obj), minted.suffix) != ""
    ensures var o := Scoped(resources, gvr, obj);
      Filed(WithRV(Prepared(o, CreateName(o, minted.suffix), minted), rv), obj, resources[gvr], minted, rv)
  {
    var o := Scoped(resources, gvr, obj);
    ScopedFields(resources, gvr, obj);
    var name := CreateName(o, minted.suffix);
    var p := Prepared(o, name, minted);
    PreparedFields(o, name, minted);
    StampedIsFiled(p, rv);
    var t := WithRV(p, rv);
    forall f | f != "metadata" ensures Field(t, f) == Field(obj, f) && (f in t <==> f in obj) {
      OutsideFields(t, obj, f);
    }
    forall f | !IsStoreField(f) ensures MetaField(t, f) == MetaField(obj, f) {
      ScopedKeepsFields(resources, gvr, obj, f);
      PreparedKeepsFields(o, name, minted, f);
    }
  }

  lemma CreateMakes(s: State, gvr: GVR, obj: Object, minted: Minted)
    requires SuffixFree(s, gvr, obj, minted.suffix) && Create(s, gvr, obj, minted).result.Ok?
    ensures gvr in s.resources
    ensures var out, o, k := Create(s, gvr, obj, minted), Scoped(s.resources, gvr, obj), CreateKey(s, gvr, obj, minted.suffix);
      && (Name(obj) != "" || GenerateName(obj) != "") && CreateName(o, minted.suffix) != ""
      && out.result.value == WithRV(Prepared(o, CreateName(o, minted.suffix), minted), s.rv + 1)
      && k !in s.data && out.state.data == s.data[k := out.result.value] && out.state.rv == s.rv + 1
  {
    UnscopedNames(obj);
  }

  lemma CreatePlace(s: State, gvr: GVR, obj: Object, suffix: string)
    requires gvr in s.resources && (Name(obj) != "" || GenerateName(obj) != "")
    ensures CreateKey(s, gvr, obj, suffix)
         == Place(s.resources, gvr, Namespace(obj), CreateName(Scoped(s.resources, gvr, obj), suffix))
  {
    ScopedFields(s.resources, gvr, obj);
    var name := CreateName(Scoped(s.resources, gvr, obj), suffix);
    assert "" + "/" + name == "/" + name;
  }

  /** A Create that is not refused files the object under a place that was free, and nothing else changes. */
  lemma CreateFiles(s: State, gvr: GVR, obj: Object, minted: Minted)
    requires SuffixFree(s, gvr, obj, minted.suffix) && minted.uid != "" && Create(s, gvr, obj, minted).result.Ok?
    ensures gvr in s.resources
    ensures var o, t := Create(s, gvr, obj, minted).result.value, Create(s, gvr, obj, minted).state;
      var k := Place(s.resources, gvr, Namespace(obj), Name(o));
      && Filed(o, obj, s.resources[gvr], minted, s.rv + 1)
      && k !in s.data && t.data == s.data[k := o] && t.rv == s.rv + 1
  {
    CreateMakes(s, gvr, obj, minted);
    PreparedIsFiled(s.resources, gvr, obj, minted, s.rv + 1);
    CreatePlace(s, gvr, obj, minted.suffix);
    ScopedFields(s.resources, gvr, obj);
  }

  // ---- Update and Patch ----

  /** The members of an object's metadata that a full write does not take from the caller. */
  predicate IsKept(f: string) {
    f in {"uid", "creationTimestamp", "generation", "resourceVersion"}
  }

  /** What a full write files: the caller's object, with identity and status kept and the generation counting the specs. */
  ghost predicate Replaced(o: Object, was: Object, incoming: Object, rv: nat) {
    && UID(o) == UID(was) && CreationTime(o) == CreationTime(was) && ResourceVersion(o) == Decimal.FormatUint(rv)
    && Generation(o) == Generation(was) + (if Field(incoming, "spec") == Field(was, "spec") then 0 else 1)
    && StatusOf(o) == StatusOf(was)
    && (forall f :: f != "metadata" && f != "status" ==> Field(o, f) == Field(incoming, f) && (f in o <==> f in incoming))
    && (forall f :: !IsKept(f) ==> MetaField(o, f) == MetaField(incoming, f))
  }

  lemma MergedMetaReplaces(o: Object, was: Object, incoming: Object, rv: nat)
    requires "metadata" in o && o["metadata"] == Obj(MergedMeta(was, incoming)["resourceVersion" := Str(Decimal.FormatUint(rv))])
    ensures UID(o) == UID(was) && CreationTime(o) == CreationTime(was) && ResourceVersion(o) == Decimal.FormatUint(rv)
    ensures Generation(o) == Generation(was) + (if Field(incoming, "spec") == Field(was, "spec") then 0 else 1)
    ensures forall f :: !IsKept(f) ==> MetaField(o, f) == MetaField(incoming, f)
  {
  }

  lemma MergedFieldsReplace(o: Object, was: Object, incoming: Object, meta: Json)
    requires o == WithStatusOf(incoming, was)["metadata" := meta]
    ensures StatusOf(o) == StatusOf(was)
    ensures forall f :: f != "metadata" && f != "status" ==> Field(o, f) == Field(incoming, f) && (f in o <==> f in incoming)
  {
  }

  lemma FullMergeStamped(was: Object, incoming: Object, rv: nat)
    requires Name(incoming) != ""
    ensures WithRV(MergeForUpdate(was, incoming, false), rv) == WithStatusOf(incoming, was)["metadata" :=
      Obj(MergedMeta(was, incoming)["resourceVersion" := Str(Decimal.FormatUint(rv))])]
  {
    var m := MergeForUpdate(was, incoming, false);
    FullMergeShape(was, incoming);
    assert Metadata(m) == MergedMeta(was, incoming) && Name(m) == Name(incoming);
    StampShape(m, rv);
  }

  lemma FullMergeReplaces(was: Object, incoming: Object, rv: nat)
    requires Name(incoming) != ""
    ensures Replaced(WithRV(MergeForUpdate(was, incoming, false), rv), was, incoming, rv)
  {
    var o := WithRV(MergeForUpdate(was, incoming, false), rv);
    FullMergeStamped(was, incoming, rv);
    MergedMetaReplaces(o, was, incoming, rv);
    MergedFieldsReplace(o, was, incoming, o["metadata"]);
  }

  /** A full write that succeeds replaces one object by the caller's, as Replaced says, and touches no other. */
  lemma FullUpdateFiles(s: State, gvr: GVR, incoming: Object)
    requires Inv(s) && NoSlash(Namespace(incoming)) && Update(s, gvr, incoming, false).result.Ok?
    ensures gvr in s.resources
    ensures var k, out := Place(s.resources, gvr, Namespace(incoming), Name(incoming)), Update(s, gvr, incoming, false);
      && k in s.data && out.state.data == s.data[k := out.result.value] && out.state.rv == s.rv + 1
      && Replaced(out.result.value, s.data[k], incoming, s.rv + 1)
  {
    var k := KeyOf(s.resources, gvr, incoming);
    PlacesDiffer(s.resources, gvr, Namespace(incoming), Name(incoming), Namespace(incoming), Name(incoming));
    IncomingNamed(s, k, incoming);
    FullMergeReplaces(s.data[k], incoming, s.rv + 1);
  }

  /** A write is refused for its version exactly if it names one that is not the stored one. */
  lemma VersionTest(s: State, gvr: GVR, incoming: Object, isStatus: bool)
    requires gvr in s.resources
    ensures var k, r := Place(s.resources, gvr, Namespace(incoming), Name(incoming)), Update(s, gvr, incoming, isStatus).result;
      && (k !in s.data <==> r == Err(NotFound))
      && (k in s.data ==>
            (r == Err(Conflict) <==> ResourceVersion(incoming) != "" && ResourceVersion(incoming) != ResourceVersion(s.data[k])))
      && (r.Err? ==> r.error == NotFound || r.error == Conflict)
  {
    assert "" + "/" + Name(incoming) == "/" + Name(incoming);
  }

  /**
   * A merge patch writes the merged document as Update would, and is refused for what Update is
   * refused for, and if what is left is no object with a kind.
   */
  lemma PatchIsUpdate(s: State, gvr: GVR, namespace: string, name: string, patch: Json, isStatus: bool)
    ensures var out := Patch(s, gvr, namespace, name, patch, isStatus);
      && (gvr !in s.resources ==> out == Outcome(s, Err(NotRegistered)))
      && (gvr in s.resources ==>
            var k := Place(s.resources, gvr, namespace, name);
            && (k !in s.data ==> out == Outcome(s, Err(NotFound)))
            && (k in s.data ==>
                  var doc := MergePatch(Obj(s.data[k]), patch);
                  && (!doc.Obj? || Kind(doc.fields) == "" ==> out == Outcome(s, Err(Internal)))
                  && (doc.Obj? && Kind(doc.fields) != "" && Place(s.resources, gvr, Namespace(doc.fields), Name(doc.fields)) == k ==>
                        out == Update(s, gvr, doc.fields, isStatus))))
  {
    assert "" + "/" + name == "/" + name;
    if gvr in s.resources && Place(s.resources, gvr, namespace, name) in s.data {
      var doc := MergePatch(Obj(s.data[Place(s.resources, gvr, namespace, name)]), patch);
      if doc.Obj? {
        assert "" + "/" + Name(doc.fields) == "/" + Name(doc.fields);
      }
    }
  }

  // ---- Delete ----

  /** Delete takes exactly the object it names, and fails exactly if there is none. */
  lemma DeleteTakes(s: State, gvr: GVR, namespace: string, name: string)
    requires Inv(s)
    ensures var out := Delete(s, gvr, namespace, name);
      && (gvr !in s.resources ==> out == Outcome(s, Err(NotRegistered)))
      && (gvr in s.resources && Place(s.resources, gvr, namespace, name) !in s.data ==> out == Outcome(s, Err(NotFound)))
      && (gvr in s.resources && Place(s.resources, gvr, namespace, name) in s.data ==>
            && out.result.Ok? && out.state.data == s.data - {Place(s.resources, gvr, namespace, name)}
            && out.state.rv == s.rv + 1
            && Unversioned(out.result.value) == Unversioned(s.data[Place(s.resources, gvr, namespace, name)]))
  {
    assert "" + "/" + name == "/" + name;
    if gvr in s.resources && Place(s.resources, gvr, namespace, name) in s.data {
      DataWellFormed(s);
      RestampedSame(s.data[Place(s.resources, gvr, namespace, name)], s.rv + 1);
    }
  }

  lemma RestampedSame(o: Object, rv: nat)
    requires Name(o) != ""
    ensures Unversioned(WithRV(o, rv)) == Unversioned(o)
  {
    StampShape(o, rv);
    assert Metadata(WithRV(o, rv)) - {"resourceVersion"} == Metadata(o) - {"resourceVersion"};
  }

  /** Get gives what is stored under the name, and only that. */
  lemma GetFinds(s: State, gvr: GVR, namespace: string, name: string)
    ensures Get(s, gvr, namespace, name) ==
      if gvr !in s.resources then Err(NotRegistered)
      else if Place(s.resources, gvr, namespace, name) in s.data then Ok(s.data[Place(s.resources, gvr, namespace, name)])
      else Err(NotFound)
  {
    assert "" + "/" + name == "/" + name;
  }

  // ---- Events ----

  /** A successful operation emits one event: of its kind, for its type, with what it returns, at the next version. */
  lemma EventTells(s: State, op: Op)
    requires Admissible(s, op)
    ensures var out := Apply(s, op);
      && (out.result.Err? ==> out.state.log == s.log && out.state == s)
      && (out.result.Ok? ==>
            && out.state.log == s.log + [out.state.log[|s.log|]]
            && var e := out.state.log[|s.log|];
            && e.gvr == op.gvr && e.obj == out.result.value && e.rv == s.rv + 1
            && (op.CreateOp? ==> e.kind == Added) && (op.UpdateOp? || op.PatchOp? ==> e.kind == Modified)
            && (op.DeleteOp? ==> e.kind == Deleted))
  {
    assert forall e: Event :: s.log + [(s.log + [e])[|s.log|]] == s.log + [e];
  }

  // ---- Identity ----

  /** The operation deletes what is filed under k. */
  predicate Deletes(s: State, op: Op, k: Key) {
    && op.DeleteOp? && op.gvr in s.resources && Place(s.resources, op.gvr, op.namespace, op.name) == k && k in s.data
  }

  /** One object at two times: the same UID and creation time. */
  ghost predicate SameObject(a: Object, b: Object) {
    UID(b) == UID(a) && CreationTime(b) == CreationTime(a)
  }

  lemma StatusMergeKeepsIdentity(was: Object, incoming: Object, rv: nat)
    requires Name(was) != ""
    ensures SameObject(was, WithRV(MergeForUpdate(was, incoming, true), rv))
  {
    StampedStatusMerge(was, incoming, rv);
  }

  lemma ReplaceKeepsIdentity(s: State, k: Key, incoming: Object, isStatus: bool, x: Key)
    requires Inv(s) && k in s.data && NoSlash(Namespace(incoming)) && KeyOf(s.resources, k.gvr, incoming) == k && x in s.data
    ensures var t := Replace(s, k, incoming, isStatus).state; x in t.data && SameObject(s.data[x], t.data[x])
  {
    IncomingNamed(s, k, incoming);
    FullMergeReplaces(s.data[k], incoming, s.rv + 1);
    StatusMergeKeepsIdentity(s.data[k], incoming, s.rv + 1);
  }

  /** Whatever the operation, an object that it does not delete stays the object it was. */
  lemma StepKeepsIdentity(s: State, op: Op, k: Key)
    requires Inv(s) && Admissible(s, op) && k in s.data && !Deletes(s, op, k)
    ensures var t := Apply(s, op).state; k in t.data && SameObject(s.data[k], t.data[k])
  {
    match op
    case CreateOp(gvr, obj, minted) =>
      if Create(s, gvr, obj, minted).result.Ok? {
        CreateMakes(s, gvr, obj, minted);
      }
    case UpdateOp(gvr, obj, isStatus) =>
      if gvr in s.resources && OpKey(s, op) in s.data {
        ReplaceKeepsIdentity(s, OpKey(s, op), obj, isStatus, k);
      }
    case PatchOp(gvr, namespace, name, patch, isStatus) =>
      var x := OpKey(s, op);
      if gvr in s.resources && x in s.data && Patched(s.data[x], patch).Some? {
        DataWellFormed(s);
        ReplaceKeepsIdentity(s, x, Patched(s.data[x], patch).value, isStatus, k);
      }
    case DeleteOp(gvr, namespace, name) => DeleteTakes(s, gvr, namespace, name);
  }

  lemma IdentityStep(s: State, ops: seq<Op>, n: nat, k: Key)
    requires Inv(s) && AdmissibleRun(s, ops) && n < |ops|
    requires k in After(s, ops, n).data && !Deletes(After(s, ops, n), ops[n], k)
    ensures k in After(s, ops, n + 1).data && SameObject(After(s, ops, n).data[k], After(s, ops, n + 1).data[k])
  {
    var was := After(s, ops, n);
    assert Inv(was) by {
      RunKeepsInv(s, ops, n, n);
    }
    AfterStep(s, ops, n);
    StepKeepsIdentity(was, ops[n], k);
  }

  /**
   * Over every run: between two points with no deletion of it in between, what is filed under a key
   * is one object, with one UID and one creation time.
   */
  lemma {:induction false} IdentityStays(s: State, ops: seq<Op>, a: nat, b: nat, k: Key)
    requires Inv(s) && AdmissibleRun(s, ops) && a <= b <= |ops| && k in After(s, ops, a).data
    requires forall i :: a <= i < b ==> !Deletes(After(s, ops, i), ops[i], k)
    ensures k in After(s, ops, b).data && SameObject(After(s, ops, a).data[k], After(s, ops, b).data[k])
    decreases b
  {
    if a < b {
      IdentityStays(s, ops, a, b - 1, k);
      IdentityStep(s, ops, b - 1, k);
    }
  }
}
