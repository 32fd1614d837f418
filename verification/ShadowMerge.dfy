/** What the in-place state merge of shadow/merge.go computes, as functions on
    values, and the leaf-level laws of these functions.

    The imperative merge over mutable maps, proved to compute exactly these
    functions, is in ShadowMergeHeap. */
module ShadowMerge {
  import opened Options
  import opened Json

  // ---------- The functions the in-place code computes ----------

  /** removeNilFieldsForValue: nulls and objects that clean to nothing are removed;
      an object left without fields is itself replaced by null. */
  function Clean(j: Json): Json {
    match j
    case Obj(m) =>
      var c := CleanMap(m);
      if c == map[] then Null else Obj(c)
    case _ => j
  }

  /** The fields that removeNilFieldsForValue leaves in the map it is given. */
  function CleanMap(m: JsonMap): JsonMap
    decreases Obj(m), 0
  {
    map k | k in m && !Clean(m[k]).Null? :: Clean(m[k])
  }

  /** The merged state, field by field. */
  function MergeMap(t: JsonMap, s: JsonMap): JsonMap
    decreases Obj(s), 1
  {
    map k | k in t.Keys + s.Keys && MergeField(t, s, k).Some? :: MergeField(t, s, k).value
  }

  function MergeField(t: JsonMap, s: JsonMap, k: string): Option<Json>
    decreases Obj(s), 0
  {
    if k !in s then (if k in t then Some(t[k]) else None)
    else if s[k].Null? then None
    else if s[k].Obj? && k in t && t[k].Obj? then Some(Obj(MergeMap(t[k].m, s[k].m)))
    else Some(Clean(s[k]))
  }

  /** genMeta: a stamp for every leaf. */
  function GenMeta(m: JsonMap, now: int): JsonMap
    decreases Obj(m)
  {
    map k | k in m && !m[k].Null? :: if m[k].Obj? then Obj(GenMeta(m[k].m, now)) else Stamp(now)
  }

  /** The metadata tree after the merge. */
  function MetaMap(t: JsonMap, s: JsonMap, am: JsonMap, now: int): JsonMap
    decreases Obj(s), 1
  {
    map k | k in am.Keys + s.Keys && MetaField(t, s, am, now, k).Some? :: MetaField(t, s, am, now, k).value
  }

  function MetaField(t: JsonMap, s: JsonMap, am: JsonMap, now: int, k: string): Option<Json>
    decreases Obj(s), 0
  {
    if k !in s then (if k in am then Some(am[k]) else None)
    else match s[k]
      case Null => None
      case Leaf(_) => Some(Stamp(now))
      case Obj(sm) =>
        if k in t && t[k].Obj? then
          if MergeMap(t[k].m, sm) == map[] then None
          else Some(Obj(MetaMap(t[k].m, sm, SubMap(am, k), now)))
        else Some(Obj(GenMeta(CleanMap(sm), now)))
  }

  /** The type assertions on metadata succeed: wherever the merge descends into
      an object of the state, the metadata there is an object or missing. */
  ghost predicate MetaFits(t: JsonMap, s: JsonMap, am: JsonMap)
    decreases Obj(s)
  {
    forall k | k in s && s[k].Obj? && k in t && t[k].Obj? && k in am ::
      am[k].Obj? && MetaFits(t[k].m, s[k].m, am[k].m)
  }

  lemma NoMetaFits(t: JsonMap, s: JsonMap)
    ensures MetaFits(t, s, map[])
  {}

  /** The stamps of this update alone, starting from the stamps um already collected. */
  function UpdatedMap(t: JsonMap, s: JsonMap, um: JsonMap, now: int): JsonMap
    decreases Obj(s), 1
  {
    map k | k in um.Keys + s.Keys && UpdatedField(t, s, um, now, k).Some? :: UpdatedField(t, s, um, now, k).value
  }

  function UpdatedField(t: JsonMap, s: JsonMap, um: JsonMap, now: int, k: string): Option<Json>
    decreases Obj(s), 0
  {
    if k !in s || s[k].Null? then (if k in um then Some(um[k]) else None)
    else if s[k].Leaf? then Some(Stamp(now))
    else if k in t && t[k].Obj? then
      if MergeMap(t[k].m, s[k].m) == map[] then None
      else Some(Obj(UpdatedMap(t[k].m, s[k].m, map[], now)))
    else Some(Obj(GenMeta(CleanMap(s[k].m), now)))
  }

  function CleanField(m: JsonMap, k: string): Option<Json> {
    if k in m && !Clean(m[k]).Null? then Some(Clean(m[k])) else None
  }

  function GenField(m: JsonMap, now: int, k: string): Option<Json> {
    if k !in m || m[k].Null? then None
    else if m[k].Obj? then Some(Obj(GenMeta(m[k].m, now)))
    else Some(Stamp(now))
  }

  lemma CleanMapByFields(m: JsonMap)
    ensures forall k: string :: Field(CleanMap(m), k) == CleanField(m, k)
  {}

  lemma GenMetaByFields(m: JsonMap, am: JsonMap, now: int)
    ensures forall k: string :: Field(am + GenMeta(m, now), k) ==
              if GenField(m, now, k).Some? then GenField(m, now, k) else Field(am, k)
  {}

  lemma UnmentionedFields(t: JsonMap, s: JsonMap, am: JsonMap, um: JsonMap, now: int)
    ensures forall k: string | k !in s :: MergeField(t, s, k) == Field(t, k)
    ensures forall k: string | k !in s :: MetaField(t, s, am, now, k) == Field(am, k)
    ensures forall k: string | k !in s :: UpdatedField(t, s, um, now, k) == Field(um, k)
  {}

  lemma MapsByFields(t: JsonMap, s: JsonMap, am: JsonMap, um: JsonMap, now: int)
    ensures forall k: string :: Field(MergeMap(t, s), k) == MergeField(t, s, k)
    ensures forall k: string :: Field(MetaMap(t, s, am, now), k) == MetaField(t, s, am, now, k)
    ensures forall k: string :: Field(UpdatedMap(t, s, um, now), k) == UpdatedField(t, s, um, now, k)
  {}

  // ---------- Leaves of the merged state ----------

  /** Path p is written by patch s: the patch has a value at p, or a null or a
      scalar at a proper prefix of p, which replaces everything below. */
  predicate Touches(s: Json, p: Path) {
    p == [] || !s.Obj? || (p[0] in s.m && Touches(s.m[p[0]], p[1..]))
  }

  lemma {:induction false} UntouchedIsNoLeaf(s: Json, p: Path)
    requires !Touches(s, p)
    ensures LeafAt(s, p) == None
  {
    if p[0] in s.m { UntouchedIsNoLeaf(s.m[p[0]], p[1..]); }
  }

  lemma {:induction false} CleanLeaf(j: Json, p: Path)
    ensures LeafAt(Clean(j), p) == LeafAt(j, p)
  {
    if p != [] && j.Obj? && p[0] in j.m {
      CleanLeaf(j.m[p[0]], p[1..]);
      assert p[0] in CleanMap(j.m) <==> !Clean(j.m[p[0]]).Null?;
    }
  }

  /** No nulls, and no objects without fields, inside v. */
  ghost predicate Tidy(v: Json) {
    v.Obj? ==> v.m != map[] && forall k | k in v.m :: !v.m[k].Null? && Tidy(v.m[k])
  }

  /** What is stored for a patch value is tidy. */
  lemma {:induction false} CleanIsTidy(v: Json)
    ensures Tidy(Clean(v))
  {
    if v.Obj? {
      forall k | k in v.m ensures Tidy(Clean(v.m[k])) { CleanIsTidy(v.m[k]); }
    }
  }

  /** The merge law: a path the patch touches holds what the patch says, every
      other path keeps its leaf. */
  lemma {:induction false} MergeLeaf(t: JsonMap, s: JsonMap, p: Path)
    ensures LeafAt(Obj(MergeMap(t, s)), p) == if Touches(Obj(s), p) then LeafAt(Obj(s), p) else LeafAt(Obj(t), p)
    decreases p
  {
    if p != [] && p[0] in s {
      var k := p[0];
      if s[k].Obj? && k in t && t[k].Obj? {
        MergeLeaf(t[k].m, s[k].m, p[1..]);
      } else {
        CleanLeaf(s[k], p[1..]);
        if !Touches(s[k], p[1..]) { UntouchedIsNoLeaf(s[k], p[1..]); }
      }
    }
  }

  // ---------- RFC 7396 ----------

  /** MergePatch of section 2 of RFC 7396. */
  function MergePatch(target: Json, patch: Json): Json
    decreases patch
  {
    if patch.Obj? then
      var t := if target.Obj? then target.m else map[];
      Obj(map k | k in t.Keys + patch.m.Keys && !(k in patch.m && patch.m[k].Null?) ::
            if k in patch.m then MergePatch(Get(t, k), patch.m[k]) else t[k])
    else patch
  }

  lemma {:induction false} MergePatchLeaf(t: Json, s: Json, p: Path)
    ensures LeafAt(MergePatch(t, s), p) == if Touches(s, p) then LeafAt(s, p) else LeafAt(t, p)
    decreases p
  {
    if p != [] && s.Obj? && p[0] in s.m {
      var k := p[0];
      var tk := if t.Obj? then Get(t.m, k) else Null;
      MergePatchLeaf(tk, s.m[k], p[1..]);
    }
  }

  /** The merge has exactly the leaves of MergePatch. */
  lemma MergeAgreesWithMergePatch(t: JsonMap, s: JsonMap)
    ensures forall p: Path :: LeafAt(Obj(MergeMap(t, s)), p) == LeafAt(MergePatch(Obj(t), Obj(s)), p)
  {
    forall p: Path ensures LeafAt(Obj(MergeMap(t, s)), p) == LeafAt(MergePatch(Obj(t), Obj(s)), p) {
      MergeLeaf(t, s, p);
      MergePatchLeaf(Obj(t), Obj(s), p);
    }
  }

  // ---------- Metadata ----------

  /** Metadata tree m mirrors state t: a stamp for every leaf, an object of
      metadata for an object (or none at all above leafless objects), nothing else. */
  ghost predicate Mirrors(t: Json, m: Json) {
    match t
    case Null => m == Obj(map[])
    case Leaf(_) => IsStamp(m)
    case Obj(tm) =>
      && m.Obj?
      && m.m.Keys <= tm.Keys
      && forall k | k in tm :: if k in m.m then Mirrors(tm[k], m.m[k]) else Leafless(tm[k])
  }

  /** Mirroring metadata carries a stamp exactly at the leaves of the state. */
  lemma {:induction false} MirrorsExactly(t: Json, m: Json, p: Path)
    requires Mirrors(t, m)
    ensures StampAt(m, p).Some? <==> LeafAt(t, p).Some?
    decreases p
  {
    if p == [] {
      assert t.Obj? && m.Obj? && TIMESTAMP in m.m ==> m.m[TIMESTAMP].Obj?;
    } else if t.Obj? && p[0] in t.m {
      if p[0] in m.m {
        MirrorsExactly(t.m[p[0]], m.m[p[0]], p[1..]);
      } else {
        LeaflessHasNoLeaf(t.m[p[0]], p[1..]);
      }
    }
  }

  lemma {:induction false} GenMetaMirrors(m: JsonMap, now: int)
    ensures Mirrors(Obj(m), Obj(GenMeta(m, now)))
    decreases Obj(m)
  {
    forall k | k in m && m[k].Obj? ensures Mirrors(m[k], Obj(GenMeta(m[k].m, now))) {
      GenMetaMirrors(m[k].m, now);
    }
  }

  /** Merging keeps metadata in step with the state, whatever the patch. */
  lemma {:induction false} MergeMirrors(t: JsonMap, s: JsonMap, am: JsonMap, now: int)
    requires Mirrors(Obj(t), Obj(am))
    ensures Mirrors(Obj(MergeMap(t, s)), Obj(MetaMap(t, s, am, now)))
    decreases Obj(s)
  {
    var t', m' := MergeMap(t, s), MetaMap(t, s, am, now);
    forall k | k in t'
      ensures if k in m' then Mirrors(t'[k], m'[k]) else Leafless(t'[k])
    {
      assert MergeField(t, s, k) == Some(t'[k]);
      assert k in m' <==> MetaField(t, s, am, now, k).Some?;
      if k in s && s[k].Obj? {
        if k in t && t[k].Obj? {
          MergeMirrors(t[k].m, s[k].m, SubMap(am, k), now);
        } else {
          GenMetaMirrors(CleanMap(s[k].m), now);
        }
      }
    }
  }

  /** So the type assertion of the merge never fails. */
  lemma {:induction false} MirrorsFits(t: JsonMap, s: JsonMap, am: JsonMap)
    requires Mirrors(Obj(t), Obj(am))
    ensures MetaFits(t, s, am)
    decreases Obj(s)
  {
    forall k | k in s && s[k].Obj? && k in t && t[k].Obj? && k in am
      ensures am[k].Obj? && MetaFits(t[k].m, s[k].m, am[k].m)
    {
      MirrorsFits(t[k].m, s[k].m, am[k].m);
    }
  }

  lemma {:induction false} GenMetaStamps(m: JsonMap, now: int, p: Path)
    ensures StampAt(Obj(GenMeta(m, now)), p) == if LeafAt(Obj(m), p).Some? then Some(Num(now as real)) else None
    decreases p
  {
    if p != [] && p[0] in m {
      if m[p[0]].Obj? {
        GenMetaStamps(m[p[0]].m, now, p[1..]);
      } else if p[1..] != [] {
        NoStampInsideStamp(Stamp(now), p[1..]);
      }
    } else if p == [] {
      GenMetaMirrors(m, now);
      MirrorsExactly(Obj(m), Obj(GenMeta(m, now)), p);
    }
  }

  /** The stamp law: a leaf the patch writes is stamped now, a path it otherwise
      touches loses its stamp, every other path keeps the stamp it had. */
  lemma {:induction false} MergeStamp(t: JsonMap, s: JsonMap, am: JsonMap, now: int, p: Path)
    requires Mirrors(Obj(t), Obj(am))
    ensures StampAt(Obj(MetaMap(t, s, am, now)), p) ==
            if !Touches(Obj(s), p) then StampAt(Obj(am), p)
            else if LeafAt(Obj(s), p).Some? then Some(Num(now as real))
            else None
    decreases p
  {
    if p == [] {
      MergeMirrors(t, s, am, now);
      MirrorsExactly(Obj(MergeMap(t, s)), Obj(MetaMap(t, s, am, now)), p);
    } else if p[0] in s {
      var k, q := p[0], p[1..];
      assert k in MetaMap(t, s, am, now) <==> MetaField(t, s, am, now, k).Some?;
      if !s[k].Obj? {
        if q != [] { NoStampInsideStamp(Stamp(now), q); }
      } else if k in t && t[k].Obj? {
        var tk, sk := t[k].m, s[k].m;
        if MergeMap(tk, sk) == map[] {
          MergeLeaf(tk, sk, q);
          if k in am { MirrorsExactly(t[k], am[k], q); }
        } else {
          MergeStamp(tk, sk, SubMap(am, k), now, q);
        }
      } else {
        GenMetaStamps(CleanMap(s[k].m), now, q);
        CleanLeaf(s[k], q);
        if !Touches(s[k], q) {
          UntouchedIsNoLeaf(s[k], q);
          if k in am { MirrorsExactly(t[k], am[k], q); }
        }
      }
    }
  }

  /** The metadata of one update stamps exactly the leaves of its patch. */
  lemma {:induction false} UpdatedStamps(t: JsonMap, s: JsonMap, now: int, p: Path)
    ensures StampAt(Obj(UpdatedMap(t, s, map[], now)), p) ==
            if LeafAt(Obj(s), p).Some? then Some(Num(now as real)) else None
    decreases p
  {
    var um := UpdatedMap(t, s, map[], now);
    if p == [] {
      assert TIMESTAMP in um ==> UpdatedField(t, s, map[], now, TIMESTAMP) == Some(um[TIMESTAMP]);
    } else if p[0] in s {
      var k, q := p[0], p[1..];
      assert k in um <==> UpdatedField(t, s, map[], now, k).Some?;
      if !s[k].Obj? {
        if q != [] { NoStampInsideStamp(Stamp(now), q); }
      } else if k in t && t[k].Obj? {
        if MergeMap(t[k].m, s[k].m) == map[] {
          MergeLeaf(t[k].m, s[k].m, q);
          if !Touches(s[k], q) { UntouchedIsNoLeaf(s[k], q); }
        } else {
          UpdatedStamps(t[k].m, s[k].m, now, q);
        }
      } else {
        GenMetaStamps(CleanMap(s[k].m), now, q);
        CleanLeaf(s[k], q);
      }
    }
  }

  // ---------- Reading by path ----------

  function ValueAt(j: Json, p: Path): Option<Json> {
    if p == [] then Some(j)
    else if j.Obj? && p[0] in j.m then ValueAt(j.m[p[0]], p[1..])
    else None
  }

  /** Reading a path of a state finds a scalar exactly where the state has a leaf. */
  lemma {:induction false} ValueAtLeaf(j: Json, p: Path)
    ensures LeafAt(j, p) == if ValueAt(j, p).Some? && ValueAt(j, p).value.Leaf? then Some(ValueAt(j, p).value.v) else None
  {
    if p != [] && j.Obj? && p[0] in j.m { ValueAtLeaf(j.m[p[0]], p[1..]); }
  }

  /** ValueByPath, on a path that is already split; None stands for a nil map. */
  method ValueByPath(m: Option<JsonMap>, p: Path) returns (r: Option<Json>)
    ensures r == if m.None? || p == [] then None else ValueAt(Obj(m.value), p)
  {
    if m.None? { return None; }
    var mm := m.value;
    var i := 0;
    while i < |p|
      invariant 0 <= i <= |p| && (p != [] ==> i < |p|)
      invariant ValueAt(Obj(m.value), p) == ValueAt(Obj(mm), p[i..])
      decreases |p| - i
    {
      assert p[i..][0] == p[i] && p[i..][1..] == p[i+1..];
      if p[i] !in mm { return None; }
      var kv := mm[p[i]];
      if i == |p| - 1 { return Some(kv); }
      if !kv.Obj? { return None; }
      mm := kv.m;
      i := i + 1;
    }
    return None;
  }
}
