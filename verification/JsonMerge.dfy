/** JSON values and the merge patch of section 2 of RFC 7396, with the algebra that the
    rest of the project needs: which patches absorb which, when a patch is a fixed point,
    and what a patch leaves alone. */
module JsonMerge {

  datatype Option<+T> = None | Some(value: T)

  datatype Json =
    | Null
    | Bool(b: bool)
    | Num(n: int)
    | Str(s: string)
    | Arr(items: seq<Json>)
    | Obj(fields: map<string, Json>)

  /** The members of an object; a value that is no object counts as the empty one. */
  function Fields(j: Json): map<string, Json> {
    if j.Obj? then j.fields else map[]
  }

  /** The member `k` of `j`, or `Null` when there is none. */
  function Member(j: Json, k: string): Json {
    if j.Obj? && k in j.fields then j.fields[k] else Null
  }

  function MergePatch(target: Json, patch: Json): Json
    decreases patch
  {
    if !patch.Obj? then patch
    else
      var t := Fields(target);
      Obj(map k | k in t.Keys + patch.fields.Keys && !(k in patch.fields && patch.fields[k].Null?) ::
            if k in patch.fields then MergePatch(Member(target, k), patch.fields[k]) else t[k])
  }

  /** No member of the value, at any depth outside arrays, is null. */
  predicate NullFree(j: Json) {
    j.Obj? ==> forall k | k in j.fields :: !j.fields[k].Null? && NullFree(j.fields[k])
  }

  /** Everything `p` writes or removes, `q` writes or removes again. */
  predicate Overwrites(p: Json, q: Json)
    decreases p
  {
    q.Obj? ==>
      p.Obj? && forall k | k in p.fields :: k in q.fields && Overwrites(p.fields[k], q.fields[k])
  }

  /** A patch that overwrites an earlier one absorbs it, whatever the target was. */
  lemma {:induction false} Absorb(t: Json, p: Json, q: Json)
    requires Overwrites(p, q)
    ensures MergePatch(MergePatch(t, p), q) == MergePatch(t, q)
    decreases p
  {
    if q.Obj? {
      var once, twice := MergePatch(t, q), MergePatch(MergePatch(t, p), q);
      forall k | k in p.fields
        ensures MergePatch(Member(MergePatch(t, p), k), q.fields[k]) == MergePatch(Member(t, k), q.fields[k])
      {
        Absorb(Member(t, k), p.fields[k], q.fields[k]);
      }
      assert twice.fields.Keys == once.fields.Keys;
      assert forall k | k in once.fields :: twice.fields[k] == once.fields[k];
    }
  }

  lemma {:induction false} OverwritesSelf(p: Json)
    ensures Overwrites(p, p)
  {
    if p.Obj? {
      forall k | k in p.fields ensures Overwrites(p.fields[k], p.fields[k]) {
        OverwritesSelf(p.fields[k]);
      }
    }
  }

  /** Applying any patch twice is applying it once. */
  lemma Idempotent(t: Json, p: Json)
    ensures MergePatch(MergePatch(t, p), p) == MergePatch(t, p)
  {
    OverwritesSelf(p);
    Absorb(t, p, p);
  }

  /** `t` has no member that `p` lacks, at any depth where both are objects. */
  predicate Within(t: Json, p: Json)
    decreases p
  {
    p.Obj? && t.Obj? ==> forall k | k in t.fields :: k in p.fields && Within(t.fields[k], p.fields[k])
  }

  /** A patch leaves exactly itself behind if and only if it has no null member and the
      target had nothing the patch drops. */
  lemma {:induction false} MergeIsPatchIff(t: Json, p: Json)
    ensures MergePatch(t, p) == p <==> NullFree(p) && Within(t, p)
    decreases p
  {
    if p.Obj? {
      forall k | k in p.fields
        ensures MergePatch(Member(t, k), p.fields[k]) == p.fields[k]
            <==> NullFree(p.fields[k]) && Within(Member(t, k), p.fields[k])
      {
        MergeIsPatchIff(Member(t, k), p.fields[k]);
      }
      var m := MergePatch(t, p);
      assert forall k | k in Fields(t) && k !in p.fields :: k in m.fields;
      if m == p {
        assert forall k | k in p.fields :: k in m.fields && !p.fields[k].Null?;
        forall k | k in p.fields ensures NullFree(p.fields[k]) && Within(Member(t, k), p.fields[k]) {
          assert m.fields[k] == MergePatch(Member(t, k), p.fields[k]);
        }
        if t.Obj? {
          assert forall k | k in t.fields :: k in p.fields;
        }
      }
      if NullFree(p) && Within(t, p) {
        assert m.fields.Keys == p.fields.Keys;
        forall k | k in p.fields ensures m.fields[k] == p.fields[k] {
          assert k in Fields(t) ==> Within(t.fields[k], p.fields[k]);
        }
      }
    }
  }

  /** Merging an object into itself changes nothing exactly when it has no null member. */
  lemma SelfMergeIff(p: Json)
    ensures MergePatch(p, p) == p <==> NullFree(p)
  {
  }

  /** The value at the end of a path of member names. */
  function Lookup(j: Json, path: seq<string>): Option<Json> {
    if path == [] then Some(j)
    else if j.Obj? && path[0] in j.fields then Lookup(j.fields[path[0]], path[1..])
    else None
  }

  /** The patch says something about this path: it ends at, or above, a value the patch gives. */
  predicate Touches(p: Json, path: seq<string>)
    decreases p
  {
    path == [] || !p.Obj? || (path[0] in p.fields && Touches(p.fields[path[0]], path[1..]))
  }

  /** Every scalar or array the patch gives is found at its path afterwards. */
  lemma {:induction false} MergeSets(t: Json, p: Json, path: seq<string>)
    requires Lookup(p, path).Some?
    requires !Lookup(p, path).value.Obj? && !Lookup(p, path).value.Null?
    ensures Lookup(MergePatch(t, p), path) == Lookup(p, path)
    decreases path
  {
    if path != [] {
      MergeSets(Member(t, path[0]), p.fields[path[0]], path[1..]);
    }
  }

  /** A path the patch does not touch keeps its old value, present or absent. */
  lemma {:induction false} MergeFrame(t: Json, p: Json, path: seq<string>)
    requires !Touches(p, path)
    ensures Lookup(MergePatch(t, p), path) == Lookup(t, path)
    decreases path
  {
    if path[0] in p.fields && !p.fields[path[0]].Null? {
      MergeFrame(Member(t, path[0]), p.fields[path[0]], path[1..]);
    }
  }
}
