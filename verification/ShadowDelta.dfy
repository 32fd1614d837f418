/** The desired-minus-reported delta of shadow/merge.go with its metadata, and
    its relation to the merge: a device that merges the delta has converged. */
module ShadowDelta {
  import opened Options
  import opened Json
  import opened ShadowMerge

  // ---------- What deltaDiff computes; null stands for nil ----------

  function Diff(v: Json, src: Json): Json
    decreases v, 1
  {
    match v
    case Null => Null
    case Leaf(_) => if v == src then Null else v
    case Obj(m) =>
      if !src.Obj? then v
      else
        var d := DiffMap(m, src.m);
        if d == map[] then Null else Obj(d)
  }

  function DiffMap(m: JsonMap, r: JsonMap): JsonMap
    decreases Obj(m), 0
  {
    map k | k in m && !Diff(m[k], Get(r, k)).Null? :: Diff(m[k], Get(r, k))
  }

  /** The metadata that goes with the delta of one value; meta is the value's own. */
  function DiffMeta(v: Json, src: Json, meta: Json): Json
    decreases v, 1
  {
    match v
    case Null => if src.Null? then Null else meta
    case Leaf(_) => if v == src then Null else meta
    case Obj(m) =>
      if !src.Obj? then meta
      else
        var d := DiffMetaMap(m, src.m, Fields(meta));
        if d == map[] then Null else Obj(d)
  }

  function DiffMetaMap(m: JsonMap, r: JsonMap, meta: JsonMap): JsonMap
    decreases Obj(m), 0
  {
    map k | k in m && !DiffMeta(m[k], Get(r, k), Get(meta, k)).Null? :: DiffMeta(m[k], Get(r, k), Get(meta, k))
  }

  /** The type assertion on metadata succeeds wherever deltaDiff descends. */
  ghost predicate DiffFits(v: Json, src: Json, meta: JsonMap, k: string) {
    v.Obj? && src.Obj? ==>
      && (k in meta ==> meta[k].Obj?)
      && forall l | l in v.m :: DiffFits(v.m[l], Get(src.m, l), SubMap(meta, k), l)
  }

  lemma MetaFitsHere(v: Json, src: Json, meta: JsonMap, k: string)
    requires DiffFits(v, src, meta, k) && v.Obj? && src.Obj?
    ensures k in meta ==> meta[k].Obj?
    ensures forall l | l in v.m :: DiffFits(v.m[l], Get(src.m, l), SubMap(meta, k), l)
  {}

  // ---------- The loops ----------

  method DeltaDiff(key: string, target: Json, source: Json, meta: JsonMap) returns (delta: Json, deltaMeta: Json)
    requires DiffFits(target, source, meta, key)
    ensures delta == Diff(target, source)
    ensures deltaMeta == DiffMeta(target, source, Get(meta, key))
    decreases target
  {
    hide DiffFits;
    delta, deltaMeta := Null, Null;
    match target
    case Obj(t) =>
      if !source.Obj? {
        delta := target;
        if key in meta { deltaMeta := meta[key]; }
      } else {
        MetaFitsHere(target, source, meta, key);
        var subMeta := if key in meta then meta[key].m else map[];
        var todo := t.Keys;
        while todo != {}
          invariant todo <= t.Keys
          invariant delta.Null? || (delta.Obj? && delta.m != map[])
          invariant deltaMeta.Null? || (deltaMeta.Obj? && deltaMeta.m != map[])
          invariant forall k :: Field(Fields(delta), k) == if k in todo then None else Field(DiffMap(t, source.m), k)
          invariant forall k :: Field(Fields(deltaMeta), k) == if k in todo then None else Field(DiffMetaMap(t, source.m, subMeta), k)
        {
          var k :| k in todo;
          todo := todo - {k};
          var sd, sdm := DeltaDiff(k, t[k], Get(source.m, k), subMeta);
          if !sd.Null? {
            if delta.Null? { delta := Obj(map[]); }
            delta := Obj(delta.m[k := sd]);
          }
          if !sdm.Null? {
            if deltaMeta.Null? { deltaMeta := Obj(map[]); }
            deltaMeta := Obj(deltaMeta.m[k := sdm]);
          }
        }
        SameFields(Fields(delta), DiffMap(t, source.m));
        SameFields(Fields(deltaMeta), DiffMetaMap(t, source.m, subMeta));
      }
    case _ =>
      if target != source {
        delta := target;
        if key in meta { deltaMeta := meta[key]; }
      }
  }

  lemma SameFields(a: JsonMap, b: JsonMap)
    requires forall k :: Field(a, k) == Field(b, k)
    ensures a == b
  {
    assert forall k :: k in a <==> Field(a, k).Some?;
    assert forall k :: k in b <==> Field(b, k).Some?;
  }

  /** DeltaState.  None stands for a nil map; a nil metadata map reads as empty. */
  method DeltaState(desired: Option<JsonMap>, reported: Option<JsonMap>, meta: Option<JsonMap>)
    returns (delta: Option<JsonMap>, deltaMeta: Option<JsonMap>)
    requires desired.Some? && reported.Some? ==> StateFits(desired.value, reported.value, OrEmpty(meta))
    ensures desired.None? ==> delta == None && deltaMeta == None
    ensures desired.Some? && reported.None? ==> delta == desired && deltaMeta == meta
    ensures desired.Some? && reported.Some? ==>
              && delta == Some(DiffMap(desired.value, reported.value))
              && deltaMeta == Some(DiffMetaMap(desired.value, reported.value, OrEmpty(meta)))
  {
    if desired.None? { return None, None; }
    if reported.None? { return desired, meta; }
    var d, r, me := desired.value, reported.value, OrEmpty(meta);
    var dd: JsonMap, dm: JsonMap := map[], map[];
    var todo := d.Keys;
    while todo != {}
      invariant todo <= d.Keys
      invariant forall k :: Field(dd, k) == if k in todo then None else Field(DiffMap(d, r), k)
      invariant forall k :: Field(dm, k) == if k in todo then None else Field(DiffMetaMap(d, r, me), k)
    {
      var k :| k in todo;
      todo := todo - {k};
      var x, xm := DeltaDiff(k, d[k], Get(r, k), me);
      if !x.Null? { dd := dd[k := x]; }
      if !xm.Null? { dm := dm[k := xm]; }
    }
    SameFields(dd, DiffMap(d, r));
    SameFields(dm, DiffMetaMap(d, r, me));
    return Some(dd), Some(dm);
  }

  function OrEmpty(m: Option<JsonMap>): JsonMap {
    if m.Some? then m.value else map[]
  }

  ghost predicate StateFits(d: JsonMap, r: JsonMap, meta: JsonMap) {
    forall k | k in d :: DiffFits(d[k], Get(r, k), meta, k)
  }

  /** Metadata that mirrors the desired state fits every reported state. */
  lemma {:induction false} MirrorsStateFits(d: JsonMap, r: JsonMap, meta: JsonMap)
    requires Mirrors(Obj(d), Obj(meta))
    ensures StateFits(d, r, meta)
    decreases Obj(d)
  {
    forall k | k in d && d[k].Obj? && Get(r, k).Obj? ensures DiffFits(d[k], Get(r, k), meta, k) {
      var sub := SubMap(meta, k);
      if k in meta { assert Mirrors(d[k], meta[k]); }
      assert Mirrors(d[k], Obj(sub));
      MirrorsStateFits(d[k].m, r[k].m, sub);
    }
  }

  // ---------- The delta is exact ----------

  /** The leaves of the delta are the desired leaves that reported does not hold. */
  lemma {:induction false} DiffLeaf(v: Json, src: Json, p: Path)
    ensures LeafAt(Diff(v, src), p) == if LeafAt(v, p) == LeafAt(src, p) then None else LeafAt(v, p)
    decreases p
  {
    if v.Obj? && src.Obj? && p != [] && p[0] in v.m {
      var k := p[0];
      DiffLeaf(v.m[k], Get(src.m, k), p[1..]);
      assert k in DiffMap(v.m, src.m) <==> !Diff(v.m[k], Get(src.m, k)).Null?;
    }
  }

  lemma DeltaIsExact(d: JsonMap, r: JsonMap, p: Path)
    ensures LeafAt(Obj(DiffMap(d, r)), p) == if LeafAt(Obj(d), p) == LeafAt(Obj(r), p) then None else LeafAt(Obj(d), p)
  {
    if p != [] && p[0] in d {
      DiffLeaf(d[p[0]], Get(r, p[0]), p[1..]);
      assert p[0] in DiffMap(d, r) <==> !Diff(d[p[0]], Get(r, p[0])).Null?;
    }
  }

  ghost predicate MirrorsOrNone(v: Json, m: Json) {
    if m.Null? then Leafless(v) else Mirrors(v, m)
  }

  lemma KidMirrors(v: Json, m: Json, k: string)
    requires MirrorsOrNone(v, m) && v.Obj? && k in v.m
    ensures MirrorsOrNone(v.m[k], Get(Fields(m), k))
  {
    if k in Fields(m) { assert Mirrors(v.m[k], m.m[k]); }
  }

  lemma {:induction false} DiffStamp(v: Json, src: Json, m: Json, p: Path)
    requires MirrorsOrNone(v, m)
    ensures StampAt(DiffMeta(v, src, m), p) == if LeafAt(Diff(v, src), p).Some? then StampAt(m, p) else None
    decreases p
  {
    if m.Null? {
      LeaflessHasNoLeaf(v, p);
    } else {
      MirrorsExactly(v, m, p);
    }
    if v.Obj? && src.Obj? {
      if p != [] && p[0] in v.m {
        var k := p[0];
        KidMirrors(v, m, k);
        DiffStamp(v.m[k], Get(src.m, k), Get(Fields(m), k), p[1..]);
        assert k in DiffMap(v.m, src.m) <==> !Diff(v.m[k], Get(src.m, k)).Null?;
        assert k in DiffMetaMap(v.m, src.m, Fields(m)) <==> !DiffMeta(v.m[k], Get(src.m, k), Get(Fields(m), k)).Null?;
      } else if p == [] {
        NoStampInDiff(v.m, src.m, Fields(m));
      }
    }
  }

  lemma NoStampInDiff(d: JsonMap, r: JsonMap, meta: JsonMap)
    requires Mirrors(Obj(d), Obj(meta))
    ensures !IsStamp(Obj(DiffMetaMap(d, r, meta)))
  {
    var k := TIMESTAMP;
    assert k in meta ==> k in d && meta[k].Obj?;
    assert k in DiffMetaMap(d, r, meta) ==> DiffMetaMap(d, r, meta)[k] == DiffMeta(d[k], Get(r, k), Get(meta, k));
  }

  /** The metadata of the delta stamps exactly its leaves, with the desired stamps. */
  lemma DeltaMetaIsExact(d: JsonMap, r: JsonMap, meta: JsonMap, p: Path)
    requires Mirrors(Obj(d), Obj(meta))
    ensures StampAt(Obj(DiffMetaMap(d, r, meta)), p) ==
            if LeafAt(Obj(DiffMap(d, r)), p).Some? then StampAt(Obj(meta), p) else None
  {
    if p == [] {
      NoStampInDiff(d, r, meta);
    } else if p[0] in d {
      var k := p[0];
      DiffStamp(d[k], Get(r, k), Get(meta, k), p[1..]);
      assert k in DiffMap(d, r) <==> !Diff(d[k], Get(r, k)).Null?;
      assert k in DiffMetaMap(d, r, meta) <==> !DiffMeta(d[k], Get(r, k), Get(meta, k)).Null?;
    }
  }

  // ---------- Convergence ----------

  /** The delta does not touch a leaf on which desired and reported agree. */
  lemma {:induction false} DeltaSparesAgreement(d: JsonMap, r: JsonMap, p: Path)
    requires LeafAt(Obj(d), p).Some? && LeafAt(Obj(d), p) == LeafAt(Obj(r), p)
    ensures !Touches(Obj(DiffMap(d, r)), p)
    decreases p
  {
    var k, q := p[0], p[1..];
    assert k in DiffMap(d, r) <==> !Diff(d[k], Get(r, k)).Null?;
    if q == [] {
      assert d[k] == r[k];
    } else {
      DeltaSparesAgreement(d[k].m, r[k].m, q);
    }
  }

  /** Once the device has merged the delta, no desired leaf is outstanding. */
  lemma Convergence(d: JsonMap, r: JsonMap, p: Path)
    ensures LeafAt(Obj(DiffMap(d, MergeMap(r, DiffMap(d, r)))), p) == None
  {
    var delta := DiffMap(d, r);
    DeltaIsExact(d, MergeMap(r, delta), p);
    MergeLeaf(r, delta, p);
    DeltaIsExact(d, r, p);
    if LeafAt(Obj(d), p).Some? {
      if LeafAt(Obj(d), p) == LeafAt(Obj(r), p) {
        DeltaSparesAgreement(d, r, p);
      } else if !Touches(Obj(delta), p) {
        UntouchedIsNoLeaf(Obj(delta), p);
      }
    }
  }

  /** Every object in v has a leaf below it. */
  ghost predicate Full(v: Json) {
    v.Obj? ==> !Leafless(v) && forall k | k in v.m :: Full(v.m[k])
  }

  /** Desired objects that hold no leaf meet an object in reported. */
  ghost predicate Settles(v: Json, src: Json) {
    v.Obj? ==> if src.Obj? then forall k | k in v.m :: Settles(v.m[k], Get(src.m, k)) else Full(v)
  }

  ghost predicate StateSettles(d: JsonMap, r: JsonMap) {
    forall k | k in d :: Settles(d[k], Get(r, k))
  }

  /** The reported value after merging delta d into it. */
  function After(src: Json, d: Json): Json {
    if d.Null? then src
    else if d.Obj? && src.Obj? then Obj(MergeMap(src.m, d.m))
    else Clean(d)
  }

  lemma {:induction false} CleanIsNullWhenLeafless(v: Json)
    ensures Clean(v).Null? <==> Leafless(v)
  {
    if v.Obj? {
      forall k | k in v.m ensures Clean(v.m[k]).Null? <==> Leafless(v.m[k]) {
        CleanIsNullWhenLeafless(v.m[k]);
      }
      assert forall k :: k in CleanMap(v.m) <==> k in v.m && !Leafless(v.m[k]);
    }
  }

  lemma {:induction false} DiffWithCleaned(v: Json)
    ensures Diff(v, Clean(v)).Null? <==> Full(v)
  {
    CleanIsNullWhenLeafless(v);
    if v.Obj? && Clean(v).Obj? {
      var c := CleanMap(v.m);
      forall k | k in v.m ensures Diff(v.m[k], Get(c, k)).Null? <==> Full(v.m[k]) {
        DiffWithCleaned(v.m[k]);
      }
      assert forall k :: k in DiffMap(v.m, c) <==> k in v.m && !Full(v.m[k]);
    }
  }

  lemma {:induction false} DiffAfterMerge(v: Json, src: Json)
    ensures Diff(v, After(src, Diff(v, src))).Null? <==> Settles(v, src)
    decreases v, 1
  {
    if v.Obj? {
      if !src.Obj? {
        DiffWithCleaned(v);
      } else {
        DeltaAfterMerge(v.m, src.m);
      }
    }
  }

  /** The new delta is empty exactly when every leafless object of desired meets
      an object in reported. */
  lemma {:induction false} DeltaAfterMerge(d: JsonMap, r: JsonMap)
    ensures DiffMap(d, MergeMap(r, DiffMap(d, r))) == map[] <==> StateSettles(d, r)
    decreases Obj(d), 0
  {
    var delta := DiffMap(d, r);
    var r' := MergeMap(r, delta);
    forall k | k in d ensures Diff(d[k], Get(r', k)).Null? <==> Settles(d[k], Get(r, k)) {
      DiffAfterMerge(d[k], Get(r, k));
      assert k in delta <==> !Diff(d[k], Get(r, k)).Null?;
      assert Field(r', k) == MergeField(r, delta, k);
      assert Get(r', k) == After(Get(r, k), Diff(d[k], Get(r, k)));
    }
    assert forall k :: k in DiffMap(d, r') <==> k in d && !Settles(d[k], Get(r, k));
  }

  lemma {:induction false} FullSettles(v: Json, src: Json)
    requires Full(v)
    ensures Settles(v, src)
  {
    if v.Obj? && src.Obj? {
      forall k | k in v.m ensures Settles(v.m[k], Get(src.m, k)) { FullSettles(v.m[k], Get(src.m, k)); }
    }
  }

  /** When every nested desired object holds a leaf, the new delta is empty. */
  lemma FullDesiredConverges(d: JsonMap, r: JsonMap)
    requires forall k | k in d :: Full(d[k])
    ensures DiffMap(d, MergeMap(r, DiffMap(d, r))) == map[]
  {
    forall k | k in d ensures Settles(d[k], Get(r, k)) { FullSettles(d[k], Get(r, k)); }
    DeltaAfterMerge(d, r);
  }

  // ---------- Round after round ----------

  /** What is reported after the device has merged the delta n times. */
  function Rounds(d: JsonMap, r: JsonMap, n: nat): JsonMap {
    if n == 0 then r
    else
      var r' := Rounds(d, r, n - 1);
      MergeMap(r', DiffMap(d, r'))
  }

  lemma {:induction false} SettlesOnCleaned(v: Json)
    requires Settles(v, Clean(v))
    ensures Full(v)
  {
    CleanIsNullWhenLeafless(v);
    if v.Obj? && Clean(v).Obj? {
      var c := CleanMap(v.m);
      forall k | k in v.m ensures Full(v.m[k]) {
        assert Get(c, k) == Clean(v.m[k]);
        SettlesOnCleaned(v.m[k]);
      }
    }
  }

  /** Merging a delta settles no object that was not settled. */
  lemma {:induction false} MergeSettlesNothing(v: Json, src: Json)
    requires Settles(v, After(src, Diff(v, src)))
    ensures Settles(v, src)
    decreases v, 1
  {
    if v.Obj? {
      if !src.Obj? {
        SettlesOnCleaned(v);
      } else if DiffMap(v.m, src.m) != map[] {
        MergeSettlesNoField(v.m, src.m);
      }
    }
  }

  lemma {:induction false} MergeSettlesNoField(d: JsonMap, r: JsonMap)
    requires StateSettles(d, MergeMap(r, DiffMap(d, r)))
    ensures StateSettles(d, r)
    decreases Obj(d), 0
  {
    var delta := DiffMap(d, r);
    var r' := MergeMap(r, delta);
    forall k | k in d ensures Settles(d[k], Get(r, k)) {
      assert k in delta <==> !Diff(d[k], Get(r, k)).Null?;
      assert Field(r', k) == MergeField(r, delta, k);
      assert Get(r', k) == After(Get(r, k), Diff(d[k], Get(r, k)));
      MergeSettlesNothing(d[k], Get(r, k));
    }
  }

  lemma {:induction false} RoundsSettleNothing(d: JsonMap, r: JsonMap, n: nat)
    requires StateSettles(d, Rounds(d, r, n))
    ensures StateSettles(d, r)
  {
    hide StateSettles, MergeMap, DiffMap;
    if n > 0 {
      MergeSettlesNoField(d, Rounds(d, r, n - 1));
      RoundsSettleNothing(d, r, n - 1);
    }
  }

  lemma NothingToMerge(r: JsonMap)
    ensures MergeMap(r, map[]) == r
  {
    forall k ensures Field(MergeMap(r, map[]), k) == Field(r, k) {
      assert MergeField(r, map[], k) == Field(r, k);
    }
    SameFields(MergeMap(r, map[]), r);
  }

  /** Further rounds change nothing about it: after any number of merges, one or more, the
      delta is empty exactly when every leafless object of desired met an object in
      reported to begin with. */
  lemma {:induction false} LaterDeltas(d: JsonMap, r: JsonMap, n: nat)
    requires n > 0
    ensures DiffMap(d, Rounds(d, r, n)) == map[] <==> StateSettles(d, r)
  {
    hide StateSettles, MergeMap, DiffMap;
    var r' := Rounds(d, r, n - 1);
    DeltaAfterMerge(d, r');
    if StateSettles(d, r') { RoundsSettleNothing(d, r, n - 1); }
    if n > 1 {
      LaterDeltas(d, r, n - 1);
      if StateSettles(d, r) { NothingToMerge(r'); }
    }
  }

  /** A desired object without leaves, where the device reports none, stays in the
      delta for ever: the merge stores it as null, and deletes nothing. */
  lemma {:induction false} EmptyDesiredObjectIsStuck(n: nat)
    ensures var d: JsonMap, r: JsonMap := map["a" := Obj(map[])], map[];
            Get(Rounds(d, r, n), "a") == Null && DiffMap(d, Rounds(d, r, n)) == d
  {
    hide MergeMap, DiffMap;
    var d: JsonMap, r: JsonMap := map["a" := Obj(map[])], map[];
    if n > 0 {
      EmptyDesiredObjectIsStuck(n - 1);
      NullStaysNull(Rounds(d, r, n - 1));
    }
    NullLacksObject(Rounds(d, r, n));
  }

  lemma NullStaysNull(r: JsonMap)
    requires Get(r, "a") == Null
    ensures Get(MergeMap(r, map["a" := Obj(map[])]), "a") == Null
  {
    assert CleanMap(map[]) == map[];
    assert MergeField(r, map["a" := Obj(map[])], "a") == Some(Null);
  }

  lemma NullLacksObject(r: JsonMap)
    requires Get(r, "a") == Null
    ensures var d: JsonMap := map["a" := Obj(map[])]; DiffMap(d, r) == d
  {
    var d: JsonMap := map["a" := Obj(map[])];
    assert Diff(d["a"], Get(r, "a")) == d["a"];
  }
}
