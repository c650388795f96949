/** Applying the same merge patch again changes nothing but the resource version. */
module PatchTwice {
  import opened Prelude
  import opened Json
  import opened Objects
  import opened StoreSpec
  import opened StoreRuns
  import Decimal

  ghost predicate SameAt(a: map<string, Json>, b: map<string, Json>, f: string) {
    (f in a <==> f in b) && (f in a ==> a[f] == b[f])
  }

  function MergeFields(o: map<string, Json>, patch: Json): map<string, Json>
    requires patch.Obj?
  {
    MergePatch(Obj(o), patch).fields
  }

  /** A merge decides each member by that member alone. */
  lemma MergePointwise(a: map<string, Json>, b: map<string, Json>, patch: Json, f: string)
    requires patch.Obj? && SameAt(a, b, f)
    ensures SameAt(MergeFields(a, patch), MergeFields(b, patch), f)
  {
  }

  /** A member already merged once is left alone by the same patch. */
  lemma MergedMemberStays(o: map<string, Json>, a: map<string, Json>, patch: Json, f: string)
    requires patch.Obj? && SameAt(a, MergeFields(o, patch), f)
    ensures SameAt(MergeFields(a, patch), MergeFields(o, patch), f)
  {
    MergePatchIdempotent(Obj(o), patch);
    assert MergePatch(Obj(o), patch) == Obj(MergeFields(o, patch));
    MergePointwise(a, MergeFields(o, patch), patch, f);
  }

  /** The patches the property is about: JSON objects that leave identity and version alone. */
  ghost predicate LeavesIdentity(patch: Json) {
    && patch.Obj?
    && ("metadata" in patch.fields ==>
          && patch.fields["metadata"].Obj?
          && "resourceVersion" !in patch.fields["metadata"].fields
          && "name" !in patch.fields["metadata"].fields
          && "namespace" !in patch.fields["metadata"].fields)
  }

  ghost predicate ServerOwned(f: string) {
    f in {"uid", "creationTimestamp", "generation", "resourceVersion"}
  }

  /** Patching below metadata decides each metadata member by itself. */
  lemma PatchedMetadata(o: Object, patch: Json)
    requires LeavesIdentity(patch) && Name(o) != ""
    ensures var d := MergeFields(o, patch);
      && "metadata" in d && d["metadata"].Obj?
      && Metadata(d) == (if "metadata" in patch.fields then MergeFields(Metadata(o), patch.fields["metadata"]) else Metadata(o))
      && SameAt(Metadata(d), Metadata(o), "resourceVersion")
      && SameAt(Metadata(d), Metadata(o), "name") && SameAt(Metadata(d), Metadata(o), "namespace")
  {
    assert Obj(Metadata(o)) == o["metadata"];
    var d := MergeFields(o, patch);
    if "metadata" in patch.fields {
      assert d["metadata"] == MergePatch(o["metadata"], patch.fields["metadata"]);
    } else {
      assert d["metadata"] == o["metadata"];
    }
  }

  lemma MetadataStays(o: Object, a: Object, patch: Json, f: string)
    requires LeavesIdentity(patch) && Name(o) != "" && Name(a) != ""
    requires SameAt(Metadata(a), Metadata(MergeFields(o, patch)), f)
    ensures SameAt(Metadata(MergeFields(a, patch)), Metadata(MergeFields(o, patch)), f)
  {
    PatchedMetadata(o, patch);
    PatchedMetadata(a, patch);
    if "metadata" in patch.fields {
      MergedMemberStays(Metadata(o), Metadata(a), patch.fields["metadata"], f);
    }
  }

  /** What a full write of d over o files. */
  function FullWrite(o: Object, d: Object, rv: nat): Object {
    WithRV(MergeForUpdate(o, d, false), rv)
  }

  lemma FullWriteShape(o: Object, d: Object, rv: nat)
    requires Name(d) != ""
    ensures FullWrite(o, d, rv) == WithStatusOf(d, o)["metadata" :=
      Obj(MergedMeta(o, d)["resourceVersion" := Str(Decimal.FormatUint(rv))])]
  {
    FullMergeShape(o, d);
    var m := MergeForUpdate(o, d, false);
    assert Metadata(m) == MergedMeta(o, d) && Name(m) == Name(d);
    StampShape(m, rv);
  }

  /** Merged metadata is decided by the server-owned values and, elsewhere, by the incoming metadata. */
  lemma MergedMetaAt(c1: Object, i1: Object, c2: Object, i2: Object, f: string)
    requires UID(c1) == UID(c2) && CreationTime(c1) == CreationTime(c2)
    requires Generation(c1) + (if Field(c1, "spec") == Field(i1, "spec") then 0 else 1)
          == Generation(c2) + (if Field(c2, "spec") == Field(i2, "spec") then 0 else 1)
    requires f in {"uid", "creationTimestamp", "generation"} || SameAt(Metadata(i1), Metadata(i2), f)
    ensures SameAt(MergedMeta(c1, i1), MergedMeta(c2, i2), f)
  {
  }

  /** The metadata of a full write. */
  lemma FullWriteMeta(o: Object, d: Object, rv: nat)
    requires Name(d) != ""
    ensures var o1 := FullWrite(o, d, rv);
      && Metadata(o1) == MergedMeta(o, d)["resourceVersion" := Str(Decimal.FormatUint(rv))]
      && Name(o1) == Name(d) && UID(o1) == UID(o) && CreationTime(o1) == CreationTime(o)
      && Generation(o1) == Generation(o) + (if Field(o, "spec") == Field(d, "spec") then 0 else 1)
  {
    FullWriteShape(o, d, rv);
    var o1 := FullWrite(o, d, rv);
    var mm := MergedMeta(o, d)["resourceVersion" := Str(Decimal.FormatUint(rv))];
    assert Metadata(o1) == mm;
  }

  /** The members of a full write: status from the old object, the rest from the incoming one. */
  lemma FullWriteMember(o: Object, d: Object, rv: nat, f: string)
    requires Name(d) != "" && f != "metadata"
    ensures SameAt(FullWrite(o, d, rv), if f == "status" then o else d, f)
  {
    FullWriteShape(o, d, rv);
  }

  lemma PatchedName(o: Object, patch: Json)
    requires LeavesIdentity(patch) && Name(o) != ""
    ensures Name(MergeFields(o, patch)) == Name(o)
  {
    PatchedMetadata(o, patch);
  }

  lemma UnversionedEqual(a: Object, b: Object)
    requires Name(a) != "" && Name(b) != ""
    requires forall f :: f != "resourceVersion" ==> SameAt(Metadata(a), Metadata(b), f)
    requires forall f :: f != "metadata" ==> SameAt(a, b, f)
    ensures Unversioned(a) == Unversioned(b)
  {
    var ma, mb := Metadata(a) - {"resourceVersion"}, Metadata(b) - {"resourceVersion"};
    forall f ensures (f in ma <==> f in mb) && (f in ma ==> ma[f] == mb[f]) {
      assert f != "resourceVersion" ==> SameAt(Metadata(a), Metadata(b), f);
    }
    assert ma == mb;
    var ua, ub := Unversioned(a), Unversioned(b);
    forall f ensures (f in ua <==> f in ub) && (f in ua ==> ua[f] == ub[f]) {
      assert f != "metadata" ==> SameAt(a, b, f);
    }
    assert ua == ub;
  }

  lemma SecondMetadata(o: Object, patch: Json, rv1: nat, rv2: nat, f: string)
    requires LeavesIdentity(patch) && Name(o) != "" && f != "resourceVersion"
    ensures var d := MergeFields(o, patch);
      var o1 := FullWrite(o, d, rv1);
      SameAt(Metadata(FullWrite(o1, MergeFields(o1, patch), rv2)), Metadata(o1), f)
  {
    var d := MergeFields(o, patch);
    PatchedName(o, patch);
    var o1 := FullWrite(o, d, rv1);
    FullWriteMeta(o, d, rv1);
    var d1 := MergeFields(o1, patch);
    PatchedName(o1, patch);
    FullWriteMeta(o1, d1, rv2);
    FullWriteMember(o, d, rv1, "spec");
    MergedMemberStays(o, o1, patch, "spec");
    if !ServerOwned(f) {
      MergedMetaPlain(o, d, f);
      MetadataStays(o, o1, patch, f);
    }
    MergedMetaAt(o1, d1, o, d, f);
  }

  lemma MergedMetaPlain(o: Object, d: Object, f: string)
    requires !ServerOwned(f)
    ensures SameAt(MergedMeta(o, d), Metadata(d), f)
  {
  }

  lemma SecondMember(o: Object, patch: Json, rv1: nat, rv2: nat, f: string)
    requires LeavesIdentity(patch) && Name(o) != "" && f != "metadata"
    ensures var d := MergeFields(o, patch);
      var o1 := FullWrite(o, d, rv1);
      SameAt(FullWrite(o1, MergeFields(o1, patch), rv2), o1, f)
  {
    var d := MergeFields(o, patch);
    PatchedName(o, patch);
    var o1 := FullWrite(o, d, rv1);
    FullWriteMeta(o, d, rv1);
    PatchedName(o1, patch);
    FullWriteMember(o, d, rv1, f);
    FullWriteMember(o1, MergeFields(o1, patch), rv2, f);
    if f != "status" {
      MergedMemberStays(o, o1, patch, f);
    }
  }

  lemma SecondFullPatch(o: Object, patch: Json, rv1: nat, rv2: nat)
    requires LeavesIdentity(patch) && Name(o) != ""
    ensures var o1 := FullWrite(o, MergeFields(o, patch), rv1);
      Name(o1) == Name(o) && Unversioned(FullWrite(o1, MergeFields(o1, patch), rv2)) == Unversioned(o1)
  {
    PatchedName(o, patch);
    FullWriteMeta(o, MergeFields(o, patch), rv1);
    var o1 := FullWrite(o, MergeFields(o, patch), rv1);
    PatchedName(o1, patch);
    FullWriteMeta(o1, MergeFields(o1, patch), rv2);
    var o2 := FullWrite(o1, MergeFields(o1, patch), rv2);
    forall f | f != "resourceVersion" ensures SameAt(Metadata(o2), Metadata(o1), f) {
      SecondMetadata(o, patch, rv1, rv2, f);
    }
    forall f | f != "metadata" ensures SameAt(o2, o1, f) {
      SecondMember(o, patch, rv1, rv2, f);
    }
    UnversionedEqual(o2, o1);
  }

  lemma SecondStatusPatch(o: Object, patch: Json, rv1: nat, rv2: nat)
    requires LeavesIdentity(patch) && Name(o) != ""
    ensures var o1 := WithRV(WithStatusOf(o, MergeFields(o, patch)), rv1);
      && Name(o1) == Name(o)
      && Unversioned(WithRV(WithStatusOf(o1, MergeFields(o1, patch)), rv2)) == Unversioned(o1)
  {
    var s1 := WithStatusOf(o, MergeFields(o, patch));
    assert Metadata(s1) == Metadata(o);
    StampShape(s1, rv1);
    var o1 := WithRV(s1, rv1);
    assert SameAt(o1, MergeFields(o, patch), "status");
    MergedMemberStays(o, o1, patch, "status");
    var s2 := WithStatusOf(o1, MergeFields(o1, patch));
    assert s2 == o1;
    StampShape(o1, rv2);
    assert Unversioned(WithRV(o1, rv2)) == Unversioned(o1) by {
      assert Metadata(WithRV(o1, rv2)) - {"resourceVersion"} == Metadata(o1) - {"resourceVersion"};
    }
  }

  /** The kind that lets a patched document be read back is there the second time too. */
  lemma SecondDocument(o: Object, o1: Object, patch: Json)
    requires patch.Obj? && Patched(o, patch).Some?
    requires SameAt(o1, o, "kind") || SameAt(o1, MergeFields(o, patch), "kind")
    ensures Patched(o1, patch) == Some(MergeFields(o1, patch))
  {
    if SameAt(o1, MergeFields(o, patch), "kind") {
      MergedMemberStays(o, o1, patch, "kind");
    } else {
      MergePointwise(o1, o, patch, "kind");
    }
  }

  /** A patch that leaves the version alone never meets a conflict. */
  lemma PatchNeverConflicts(o: Object, patch: Json)
    requires LeavesIdentity(patch) && Name(o) != ""
    ensures !Conflicts(o, MergeFields(o, patch))
  {
    PatchedMetadata(o, patch);
  }

  lemma PatchIsReplace(s: State, gvr: GVR, namespace: string, name: string, patch: Json, isStatus: bool)
    requires var k := KeyFor(s.resources, gvr, namespace, name);
      gvr in s.resources && k in s.data && Name(s.data[k]) != "" && Patched(s.data[k], patch).Some?
    requires LeavesIdentity(patch)
    ensures var k := KeyFor(s.resources, gvr, namespace, name);
      Patch(s, gvr, namespace, name, patch, isStatus)
        == Put(s, k, MergeForUpdate(s.data[k], MergeFields(s.data[k], patch), isStatus), Modified)
  {
    var k := KeyFor(s.resources, gvr, namespace, name);
    PatchNeverConflicts(s.data[k], patch);
  }

  /** The object a patch files. */
  function AfterPatch(o: Object, patch: Json, isStatus: bool, rv: nat): Object
    requires patch.Obj?
  {
    WithRV(MergeForUpdate(o, MergeFields(o, patch), isStatus), rv)
  }

  lemma SecondObject(o: Object, patch: Json, isStatus: bool, rv1: nat, rv2: nat)
    requires LeavesIdentity(patch) && Name(o) != "" && Patched(o, patch).Some?
    ensures var o1 := AfterPatch(o, patch, isStatus, rv1);
      && Name(o1) == Name(o) && Patched(o1, patch).Some?
      && Unversioned(AfterPatch(o1, patch, isStatus, rv2)) == Unversioned(o1)
  {
    var o1 := AfterPatch(o, patch, isStatus, rv1);
    if isStatus {
      SecondStatusPatch(o, patch, rv1, rv2);
      assert SameAt(o1, o, "kind");
    } else {
      SecondFullPatch(o, patch, rv1, rv2);
      PatchedName(o, patch);
      FullWriteMember(o, MergeFields(o, patch), rv1, "kind");
    }
    SecondDocument(o, o1, patch);
  }

  lemma PutFiles(s: State, k: Key, o: Object, kind: EventType)
    ensures var out := Put(s, k, o, kind);
      && out.result.Ok? && out.state.resources == s.resources && out.state.rv == s.rv + 1
      && out.state.data == s.data[k := WithRV(o, s.rv + 1)]
  {
  }

  lemma PatchFiles(s: State, gvr: GVR, namespace: string, name: string, patch: Json, isStatus: bool)
    requires var k := KeyFor(s.resources, gvr, namespace, name);
      gvr in s.resources && k in s.data && Name(s.data[k]) != "" && Patched(s.data[k], patch).Some?
    requires LeavesIdentity(patch)
    ensures var k, out := KeyFor(s.resources, gvr, namespace, name), Patch(s, gvr, namespace, name, patch, isStatus);
      && out.result.Ok? && out.state.resources == s.resources && out.state.rv == s.rv + 1
      && out.state.data == s.data[k := AfterPatch(s.data[k], patch, isStatus, s.rv + 1)]
  {
    var k := KeyFor(s.resources, gvr, namespace, name);
    PatchIsReplace(s, gvr, namespace, name, patch, isStatus);
    PutFiles(s, k, MergeForUpdate(s.data[k], MergeFields(s.data[k], patch), isStatus), Modified);
  }

  lemma PatchableWhenPatched(s: State, gvr: GVR, namespace: string, name: string, patch: Json, isStatus: bool)
    requires Inv(s) && Patch(s, gvr, namespace, name, patch, isStatus).result.Ok?
    ensures var k := KeyFor(s.resources, gvr, namespace, name);
      gvr in s.resources && k in s.data && Name(s.data[k]) != "" && Patched(s.data[k], patch).Some?
  {
    DataWellFormed(s);
  }

  lemma SecondState(t: State, k: Key, o: Object, gvr: GVR, namespace: string, name: string, patch: Json,
      isStatus: bool, rv: nat)
    requires LeavesIdentity(patch) && gvr in t.resources && k == KeyFor(t.resources, gvr, namespace, name)
    requires Name(o) != "" && Patched(o, patch).Some? && k in t.data && t.data[k] == AfterPatch(o, patch, isStatus, rv)
    ensures var twice := Patch(t, gvr, namespace, name, patch, isStatus);
      && twice.result.Ok? && twice.state.data.Keys == t.data.Keys
      && Unversioned(twice.state.data[k]) == Unversioned(t.data[k])
      && Generation(twice.state.data[k]) == Generation(t.data[k])
  {
    SecondObject(o, patch, isStatus, rv, t.rv + 1);
    PatchFiles(t, gvr, namespace, name, patch, isStatus);
    SameGeneration(AfterPatch(t.data[k], patch, isStatus, t.rv + 1), t.data[k]);
  }

  /**
   * If a patch that leaves name, namespace and version alone succeeds, applying it again succeeds
   * and leaves the object as it was, generation included, apart from the resource version.
   */
  lemma PatchTwiceIsPatchOnce(s: State, gvr: GVR, namespace: string, name: string, patch: Json, isStatus: bool)
    requires Inv(s) && LeavesIdentity(patch) && Patch(s, gvr, namespace, name, patch, isStatus).result.Ok?
    ensures var k := KeyFor(s.resources, gvr, namespace, name);
      var once := Patch(s, gvr, namespace, name, patch, isStatus);
      var twice := Patch(once.state, gvr, namespace, name, patch, isStatus);
      && k in once.state.data && twice.result.Ok? && twice.state.data.Keys == once.state.data.Keys
      && Unversioned(twice.state.data[k]) == Unversioned(once.state.data[k])
      && Generation(twice.state.data[k]) == Generation(once.state.data[k])
  {
    PatchableWhenPatched(s, gvr, namespace, name, patch, isStatus);
    PatchFiles(s, gvr, namespace, name, patch, isStatus);
    var k, once := KeyFor(s.resources, gvr, namespace, name), Patch(s, gvr, namespace, name, patch, isStatus);
    SecondState(once.state, k, s.data[k], gvr, namespace, name, patch, isStatus, s.rv + 1);
  }

  lemma SameGeneration(a: Object, b: Object)
    requires Unversioned(a) == Unversioned(b)
    ensures Generation(a) == Generation(b)
  {
    assert "generation" in Metadata(a) <==> "generation" in Metadata(Unversioned(a));
    assert "generation" in Metadata(b) <==> "generation" in Metadata(Unversioned(b));
    assert "generation" in Metadata(a) ==> Metadata(a)["generation"] == Metadata(Unversioned(a))["generation"];
    assert "generation" in Metadata(b) ==> Metadata(b)["generation"] == Metadata(Unversioned(b))["generation"];
  }
}
