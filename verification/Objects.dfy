/** Unstructured objects: JSON maps whose metadata is read and written field by field. */
module Objects {
  import opened Prelude
  import opened Json
  import Decimal

  type Object = map<string, Json>

  datatype GVR = GVR(group: string, version: string, resource: string)

  /** Where the store files an object: its resource type and the "namespace/name" path. */
  datatype Key = Key(gvr: GVR, path: string)

  /** A member that is absent and a member that holds null read alike. */
  function Field(o: Object, name: string): Json {
    if name in o then o[name] else Null
  }

  function Metadata(o: Object): map<string, Json> {
    if "metadata" in o && o["metadata"].Obj? then o["metadata"].fields else map[]
  }

  function MetaString(o: Object, name: string): string {
    var m := Metadata(o);
    if name in m && m[name].Str? then m[name].s else ""
  }

  /** Writing below a metadata member that is not an object is an error the setters drop. */
  function WithMeta(o: Object, name: string, v: Json): Object {
    if "metadata" in o && !o["metadata"].Obj? then o
    else o["metadata" := Obj(Metadata(o)[name := v])]
  }

  function WithoutMeta(o: Object, name: string): Object {
    if "metadata" in o && o["metadata"].Obj? then o["metadata" := Obj(Metadata(o) - {name})] else o
  }

  /** Setting a string to empty removes it. */
  function WithMetaString(o: Object, name: string, v: string): Object {
    if v == "" then WithoutMeta(o, name) else WithMeta(o, name, Str(v))
  }

  function SetString(m: map<string, Json>, name: string, v: string): map<string, Json> {
    if v == "" then m - {name} else m[name := Str(v)]
  }

  lemma SetStringShape(o: Object, name: string, v: string)
    requires "metadata" in o && o["metadata"].Obj?
    ensures WithMetaString(o, name, v) == o["metadata" := Obj(SetString(Metadata(o), name, v))]
  {
  }

  function Name(o: Object): string { MetaString(o, "name") }
  function Namespace(o: Object): string { MetaString(o, "namespace") }
  function GenerateName(o: Object): string { MetaString(o, "generateName") }
  function UID(o: Object): string { MetaString(o, "uid") }
  function ResourceVersion(o: Object): string { MetaString(o, "resourceVersion") }
  function CreationTime(o: Object): string { MetaString(o, "creationTimestamp") }

  function Generation(o: Object): int {
    var m := Metadata(o);
    if "generation" in m && m["generation"].Num? then m["generation"].n else 0
  }

  function WithGeneration(o: Object, g: int): Object {
    if g == 0 then WithoutMeta(o, "generation") else WithMeta(o, "generation", Num(g))
  }

  function WithRV(o: Object, rv: nat): Object {
    WithMetaString(o, "resourceVersion", Decimal.FormatUint(rv))
  }

  function Kind(o: Object): string {
    if Field(o, "kind").Str? then Field(o, "kind").s else ""
  }

  /** Make the status of one object that of another, present or absent. */
  function WithStatusOf(o: Object, from: Object): Object {
    if "status" in from then o["status" := from["status"]] else o - {"status"}
  }

  /** The object with its resource version removed: what "equal up to resource version" compares. */
  function Unversioned(o: Object): Object { WithoutMeta(o, "resourceVersion") }

  function Path(namespaced: bool, namespace: string, name: string): string {
    if namespaced then namespace + "/" + name else "/" + name
  }

  predicate NoSlash(s: string) { '/' !in s }

  /** A namespace without a slash can be read off the path, and so can the name. */
  lemma PathInjective(ns1: string, name1: string, ns2: string, name2: string)
    requires NoSlash(ns1) && NoSlash(ns2)
    ensures Path(true, ns1, name1) == Path(true, ns2, name2) <==> ns1 == ns2 && name1 == name2
  {
    var a, b := Path(true, ns1, name1), Path(true, ns2, name2);
    if a == b {
      assert a[|ns1|] == '/' && b[|ns2|] == '/';
      assert forall i :: 0 <= i < |ns1| ==> a[i] == ns1[i];
      assert forall i :: 0 <= i < |ns2| ==> b[i] == ns2[i];
      assert |ns1| == |ns2|;
      assert ns1 == a[..|ns1|] && ns2 == b[..|ns2|];
      assert name1 == a[|ns1| + 1..] && name2 == b[|ns2| + 1..];
    }
  }

  /** The second namespace is the first one's beginning up to a slash, and its name begins with the rest. */
  predicate CutEarlier(ns1: string, name1: string, ns2: string, name2: string) {
    |ns2| < |ns1| && ns1[..|ns2| + 1] == ns2 + "/" && name2 == ns1[|ns2| + 1..] + "/" + name1
  }

  lemma CutEarlierCollides(ns1: string, name1: string, ns2: string, name2: string)
    requires |ns2| < |ns1|
    ensures Path(true, ns1, name1) == Path(true, ns2, name2) <==> CutEarlier(ns1, name1, ns2, name2)
  {
    var a, b := Path(true, ns1, name1), Path(true, ns2, name2);
    if a == b {
      assert ns1[..|ns2| + 1] == a[..|ns2| + 1] == b[..|ns2| + 1] == ns2 + "/";
      assert name2 == b[|ns2| + 1..] == a[|ns2| + 1..] == ns1[|ns2| + 1..] + "/" + name1;
    }
    if CutEarlier(ns1, name1, ns2, name2) {
      assert ns1 == (ns2 + "/") + ns1[|ns2| + 1..];
      assert a == b;
    }
  }

  /** For all strings: two different objects share a path exactly if one is the other cut at an earlier slash. */
  lemma PathCollisions(ns1: string, name1: string, ns2: string, name2: string)
    ensures Path(true, ns1, name1) == Path(true, ns2, name2) <==>
      (ns1 == ns2 && name1 == name2) || CutEarlier(ns1, name1, ns2, name2) || CutEarlier(ns2, name2, ns1, name1)
  {
    if |ns2| < |ns1| {
      CutEarlierCollides(ns1, name1, ns2, name2);
    } else if |ns1| < |ns2| {
      CutEarlierCollides(ns2, name2, ns1, name1);
    } else if Path(true, ns1, name1) == Path(true, ns2, name2) {
      assert ns1 == Path(true, ns1, name1)[..|ns1|] && name1 == Path(true, ns1, name1)[|ns1| + 1..];
      assert ns2 == Path(true, ns2, name2)[..|ns2|] && name2 == Path(true, ns2, name2)[|ns2| + 1..];
    }
  }

  /** A namespace with a slash shares the path of each of its objects with a shorter namespace. */
  lemma SlashedPathsCollide(a: string, b: string, name: string)
    ensures Path(true, a + "/" + b, name) == Path(true, a, b + "/" + name)
    ensures a + "/" + b != a && name != b + "/" + name
  {
    assert |a + "/" + b| > |a| && |b + "/" + name| > |name|;
    assert Path(true, a + "/" + b, name) == Path(true, a, b + "/" + name);
  }

  /** No object of another, slash-free namespace has the path of an object of this one. */
  ghost predicate PathsAreItsOwn(ns: string) {
    forall name, ns2, name2 :: NoSlash(ns2) && Path(true, ns, name) == Path(true, ns2, name2) ==> ns == ns2 && name == name2
  }

  /** So a namespace's paths are unambiguous if and only if it has no slash. */
  lemma PathsTellNamespaces(ns: string)
    ensures PathsAreItsOwn(ns) <==> NoSlash(ns)
  {
    if NoSlash(ns) {
      forall name, ns2, name2 | NoSlash(ns2) && Path(true, ns, name) == Path(true, ns2, name2)
        ensures ns == ns2 && name == name2
      {
        PathInjective(ns, name, ns2, name2);
      }
    } else {
      var i := SlashAt(ns);
      assert ns == ns[..i] + "/" + ns[i + 1..];
      SlashedPathsCollide(ns[..i], ns[i + 1..], "");
    }
  }

  /** The setters touch the metadata field they name and no other, and nothing outside metadata. */
  lemma SettersFrame(o: Object, name: string, v: string, g: int)
    requires Metadata(o) != map[]
    ensures var p := WithMetaString(o, name, v); MetaString(p, name) == v && p - {"metadata"} == o - {"metadata"}
    ensures forall f :: f != name ==> MetaString(WithMetaString(o, name, v), f) == MetaString(o, f)
    ensures name != "generation" ==> Generation(WithMetaString(o, name, v)) == Generation(o)
    ensures var p := WithGeneration(o, g); Generation(p) == g && p - {"metadata"} == o - {"metadata"}
    ensures forall f :: f != "generation" ==> MetaString(WithGeneration(o, g), f) == MetaString(o, f)
  {
    var p, q := WithMetaString(o, name, v), WithGeneration(o, g);
    assert forall f :: f != name ==> (f in Metadata(p) <==> f in Metadata(o));
  }

  /** A metadata member, whatever it holds. */
  function MetaField(o: Object, name: string): Option<Json> {
    if name in Metadata(o) then Some(Metadata(o)[name]) else None
  }

  /** The setters leave every other metadata member as it is. */
  lemma SettersKeepFields(o: Object, name: string, v: string, g: int, f: string)
    requires Metadata(o) != map[]
    ensures f != name ==> MetaField(WithMetaString(o, name, v), f) == MetaField(o, f)
    ensures f != "generation" ==> MetaField(WithGeneration(o, g), f) == MetaField(o, f)
  {
  }
}
