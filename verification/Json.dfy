/** JSON values and the merge patch of RFC 7386. */
module Json {
  import opened Prelude

  datatype Json =
    | Null
    | Bool(b: bool)
    | Num(n: int)
    | Str(s: string)
    | Arr(items: seq<Json>)
    | Obj(fields: map<string, Json>)

  /** MergePatch of section 2 of RFC 7386; an absent target member is passed as Null. */
  function MergePatch(target: Json, patch: Json): Json
    decreases patch
  {
    if !patch.Obj? then patch else
    var base := if target.Obj? then target.fields else map[];
    Obj(map k | k in base.Keys + patch.fields.Keys && !(k in patch.fields && patch.fields[k].Null?) ::
      if k in patch.fields
      then MergePatch(if k in base then base[k] else Null, patch.fields[k])
      else base[k])
  }

  /** A patch that has been applied has nothing left to change. */
  lemma {:induction false} MergePatchIdempotent(target: Json, patch: Json)
    ensures MergePatch(MergePatch(target, patch), patch) == MergePatch(target, patch)
    decreases patch
  {
    if patch.Obj? {
      var once := MergePatch(target, patch);
      var twice := MergePatch(once, patch);
      forall k | k in patch.fields && !patch.fields[k].Null?
        ensures k in once.fields && k in twice.fields && twice.fields[k] == once.fields[k]
      {
        var base := if target.Obj? then target.fields else map[];
        MergePatchIdempotent(if k in base then base[k] else Null, patch.fields[k]);
      }
      assert once.fields.Keys == twice.fields.Keys;
      assert once.fields == twice.fields;
    }
  }

  // ---- Merging, path by path ----

  /** What is found by going down the members of a path. */
  function At(j: Json, path: seq<string>): Option<Json>
    decreases |path|
  {
    if path == [] then Some(j)
    else if j.Obj? && path[0] in j.fields then At(j.fields[path[0]], path[1..])
    else None
  }

  /** Going down the patch along the path, the first thing that is no object, if there is one. */
  function Verdict(patch: Json, path: seq<string>): Option<Json>
    decreases |path|
  {
    if !patch.Obj? then Some(patch)
    else if path == [] || path[0] !in patch.fields then None
    else Verdict(patch.fields[path[0]], path[1..])
  }

  /**
   * Section 2 of RFC 7386 for every path below the root: where the patch has nothing the target is as it
   * was; a value in the patch replaces what the target has there; and a null removes it, with all below.
   * A patch that is no object replaces the whole.
   */
  lemma {:induction false} MergePatchAt(target: Json, patch: Json, path: seq<string>)
    requires path != []
    ensures !patch.Obj? ==> MergePatch(target, patch) == patch
    ensures patch.Obj? ==> var out, verdict := At(MergePatch(target, patch), path), Verdict(patch, path);
      && (verdict.None? && At(patch, path).None? ==> out == At(target, path))
      && (verdict.None? && At(patch, path).Some? ==> out.Some? && out.value.Obj?)
      && (verdict == Some(Null) ==> out.None?)
      && (verdict.Some? && verdict.value != Null && At(patch, path).Some? ==> out == verdict)
      && (verdict.Some? && verdict.value != Null && At(patch, path).None? ==> out.None?)
    decreases |path|
  {
    if !patch.Obj? {
      return;
    }
    var base := if target.Obj? then target.fields else map[];
    var k := path[0];
    var out := MergePatch(target, patch).fields;
    if k in patch.fields {
      var sub := patch.fields[k];
      if sub.Obj? {
        assert k in out && out[k] == MergePatch(if k in base then base[k] else Null, sub);
        if |path| == 1 {
          assert At(sub, path[1..]) == Some(sub);
        } else {
          var below := if k in base then base[k] else Null;
          MergePatchAt(below, sub, path[1..]);
          assert At(target, path) == At(below, path[1..]);
        }
      }
    } else {
      assert k in out <==> k in base;
    }
  }
}
