/** The shadow service over its table of rows, each call one atomic transaction.

    A row is stored as JSON text, so every call decodes it into maps of its own,
    merges these in place, and encodes the result. */
module ShadowService {
  import opened Options
  import opened Json
  import opened GoMaps
  import opened ShadowMerge
  import opened ShadowMergeHeap
  import opened ShadowDelta
  import opened ShadowHistory

  datatype Error = NotFound | Duplicated | VersionConflict | ShadowFormat

  datatype Result<+T> = Ok(value: T) | Err(error: Error)

  datatype Document = Document(desired: JsonMap, reported: JsonMap, metaDesired: JsonMap, metaReported: JsonMap, version: int)

  datatype Notice =
    | Updated(thingId: string, previous: Document, current: Document, token: string)
    | Delta(thingId: string, state: JsonMap, metadata: JsonMap, version: int, token: string)

  function DocumentOf(ss: Shadow): Document {
    Document(ss.desired, ss.reported, ss.metaDesired, ss.metaReported, ss.version)
  }

  /** The document of the previous state; its copy leaves out the reported metadata. */
  function PreviousDocument(ss: Shadow): Document {
    Document(ss.desired, ss.reported, ss.metaDesired, map[], ss.version)
  }

  /** What an accepted update sends: the delta unless it is empty, then both documents. */
  function NoticesOf(thingId: string, token: string, pre: Shadow, cur: Shadow): seq<Notice> {
    var delta := DiffMap(cur.desired, cur.reported);
    (if delta == map[] then []
     else [Delta(thingId, delta, DiffMetaMap(cur.desired, cur.reported, cur.metaDesired), cur.version, token)])
    + [Updated(thingId, PreviousDocument(pre), DocumentOf(cur), token)]
  }

  function Other(half: Half): Half {
    if half.Desired? then Reported else Desired
  }

  /** What the receivers of the notices of an update can rely on: the documents are those
      right before and after it, one version apart and equal but for one half, and the
      delta tells exactly the desired leaves, with their stamps, that reported lacks. */
  lemma NoticesTellTheUpdate(thingId: string, token: string, pre: Shadow, half: Half, patch: JsonMap, now: int,
                             n: Notice, p: Path)
    requires Mirrored(pre)
    requires n in NoticesOf(thingId, token, pre, Patched(pre, half, patch, now))
    ensures var cur := Patched(pre, half, patch, now);
            && cur.State(Other(half)) == pre.State(Other(half)) && cur.Meta(Other(half)) == pre.Meta(Other(half))
            && cur.tags == pre.tags
    ensures n.Updated? ==>
              && n.previous.version + 1 == n.current.version
              && n.previous.desired == pre.desired && n.previous.reported == pre.reported
              && n.current == DocumentOf(Patched(pre, half, patch, now))
    ensures n.Delta? ==>
              var cur := Patched(pre, half, patch, now);
              && n.version == pre.version + 1 && n.state != map[]
              && LeafAt(Obj(n.state), p) ==
                 (if LeafAt(Obj(cur.desired), p) == LeafAt(Obj(cur.reported), p) then None else LeafAt(Obj(cur.desired), p))
              && StampAt(Obj(n.metadata), p) ==
                 (if LeafAt(Obj(n.state), p).Some? then StampAt(Obj(cur.metaDesired), p) else None)
  {
    hide MergeMap, MetaMap, DiffMap, DiffMetaMap, Mirrors, LeafAt, StampAt;
    var cur := Patched(pre, half, patch, now);
    StepKeepsMirrored(pre, ShadowHistory.SetState(half, patch, 0, now));
    if n.Delta? {
      DeltaIsExact(cur.desired, cur.reported, p);
      DeltaMetaIsExact(cur.desired, cur.reported, cur.metaDesired, p);
    }
  }

  /** Which notices an accepted update sends, and in which order: a delta first, if and
      only if there is one, and the two documents last; one delta at least whenever a
      desired leaf is not reported with its value. */
  lemma NoticesAreComplete(thingId: string, token: string, pre: Shadow, cur: Shadow, p: Path)
    ensures var ns := NoticesOf(thingId, token, pre, cur);
            var n := |ns|;
            && 1 <= n <= 2
            && ns[n-1] == Updated(thingId,
                                  Document(pre.desired, pre.reported, pre.metaDesired, map[], pre.version),
                                  Document(cur.desired, cur.reported, cur.metaDesired, cur.metaReported, cur.version),
                                  token)
            && (n == 2 <==> DiffMap(cur.desired, cur.reported) != map[])
            && (n == 2 ==> ns[0] == Delta(thingId, DiffMap(cur.desired, cur.reported),
                                          DiffMetaMap(cur.desired, cur.reported, cur.metaDesired), cur.version, token))
            && (LeafAt(Obj(cur.desired), p).Some? && LeafAt(Obj(cur.desired), p) != LeafAt(Obj(cur.reported), p) ==>
                  n == 2 && LeafAt(Obj(ns[0].state), p) == LeafAt(Obj(cur.desired), p))
  {
    hide DiffMap, DiffMetaMap;
    DeltaIsExact(cur.desired, cur.reported, p);
    assert LeafAt(Obj(map[]), p) == None;
  }

  /** Decode a stored document, and make the deep copy kept as the previous one. */
  method DecodeWithCopy(m: JsonMap) returns (o: GoMap, pre: GoMap, ghost h: Shape, ghost hp: Shape)
    ensures Tree(o, h) && Tree(pre, hp) && Objs(h) !! Objs(hp)
    ensures fresh(Objs(h)) && fresh(Objs(hp))
    ensures Value(h) == Value(hp) == Obj(m)
  {
    hide Objs, Apart, Holds, Value;
    o, h := FromJson(m);
    AllAllocated(Objs(h));
    pre, hp := DeepCopy(o, h);
  }

  method DecodeRow(state: JsonMap, meta: JsonMap)
    returns (t: GoMap, pt: GoMap, m: GoMap, pm: GoMap, ghost ht: Shape, ghost hpt: Shape, ghost hm: Shape, ghost hpm: Shape)
    ensures Tree(t, ht) && Tree(pt, hpt) && Tree(m, hm) && Tree(pm, hpm)
    ensures fresh(Objs(ht) + Objs(hm)) && fresh(Objs(hpt) + Objs(hpm))
    ensures Objs(ht) !! Objs(hm) && Objs(ht) + Objs(hm) !! Objs(hpt) + Objs(hpm)
    ensures Value(ht) == Value(hpt) == Obj(state) && Value(hm) == Value(hpm) == Obj(meta)
  {
    hide Objs, Apart, Holds, Value;
    t, pt, ht, hpt := DecodeWithCopy(state);
    AllAllocated(Objs(ht) + Objs(hpt));
    m, pm, hm, hpm := DecodeWithCopy(meta);
  }

  /** The merge of a row, with no metadata of this update collected yet. */
  method MergeInto(t: GoMap, m: GoMap, patch: GoMap, now: int, ghost ht: Shape, ghost hm: Shape, ghost hp: Shape)
    returns (am: GoMap, um: GoMap, ghost w: Trees)
    requires Tree(t, ht) && Tree(m, hm) && Objs(ht) !! Objs(hm) && Tree(patch, hp)
    requires MetaFits(Value(ht).m, Value(hp).m, Value(hm).m)
    modifies Objs(ht) + Objs(hm)
    ensures Three(t, am, um, w)
    ensures var x, s := Value(ht).m, Value(hp).m;
            && Value(w.state) == Obj(MergeMap(x, s))
            && Value(w.all) == Obj(MetaMap(x, s, Value(hm).m, now))
            && Value(w.upd) == Obj(UpdatedMap(x, s, map[], now))
  {
    hide Objs, Apart, Holds, Value, MergeMap, MetaMap, UpdatedMap, MetaFits;
    BareSlot(HNull);
    am, um, w := MergeState(t, patch, m, null, now, hp, Trees(ht, hm, HNull));
  }

  /** Decode state and metadata, keep deep copies for the notice, merge in place,
      encode.  The copies are encoded only after the merge. */
  method MergeStored(state: JsonMap, meta: JsonMap, patch: GoMap, now: int, ghost hp: Shape)
    returns (state': JsonMap, meta': JsonMap, updated: JsonMap, preState: JsonMap, preMeta: JsonMap)
    requires Tree(patch, hp) && Mirrors(Obj(state), Obj(meta))
    ensures var s := Value(hp).m;
            && state' == MergeMap(state, s)
            && meta' == MetaMap(state, s, meta, now)
            && updated == UpdatedMap(state, s, map[], now)
    ensures preState == state && preMeta == meta
    ensures Tree(patch, hp)
  {
    hide Objs, Apart, Holds, Value, MergeMap, MetaMap, UpdatedMap, MetaFits, Mirrors;
    MirrorsFits(state, Value(hp).m, meta);
    AllAllocated(Objs(hp));
    var t, pt, m, pm, ht, hpt, hm, hpm := DecodeRow(state, meta);
    AllAllocated(Objs(hpt) + Objs(hpm) + Objs(ht) + Objs(hm));
    var am, um, w := MergeInto(t, m, patch, now, ht, hm, hp);
    AllAllocated(Region(w) + Objs(hpt) + Objs(hpm));
    state', meta', updated := EncodeThree(t, am, um, w.state, w.all, w.upd);
    preState := ToJson(pt, hpt);
    preMeta := ToJson(pm, hpm);
  }

  method EncodeThree(x: GoMap, y: GoMap, z: GoMap, ghost hx: Shape, ghost hy: Shape, ghost hz: Shape)
    returns (jx: JsonMap, jy: JsonMap, jz: JsonMap)
    requires Tree(x, hx) && Tree(y, hy) && Tree(z, hz)
    ensures Obj(jx) == Value(hx) && Obj(jy) == Value(hy) && Obj(jz) == Value(hz)
  {
    hide Objs, Apart, Holds, Value;
    AllAllocated(Objs(hx) + Objs(hy) + Objs(hz));
    jx := ToJson(x, hx);
    jy := ToJson(y, hy);
    jz := ToJson(z, hz);
  }

  /** MergeTags: current[k] = v, and delete it again if v is nil. */
  method MergeTags(current: JsonMap, wanted: JsonMap) returns (tags: JsonMap)
    ensures tags == MergedTags(current, wanted)
  {
    tags := current;
    var todo := wanted.Keys;
    while todo != {}
      invariant todo <= wanted.Keys
      invariant forall k :: Field(tags, k) == if k in todo then Field(current, k) else Field(MergedTags(current, wanted), k)
    {
      var k :| k in todo;
      todo := todo - {k};
      tags := tags[k := wanted[k]];
      if wanted[k].Null? { tags := tags - {k}; }
    }
    SameFields(tags, MergedTags(current, wanted));
  }

  class ShadowTable {
    var rows: map<string, Shadow>
    var notices: seq<Notice>

    ghost predicate Valid()
      reads this
    {
      forall id | id in rows :: Mirrored(rows[id])
    }

    constructor ()
      ensures Valid() && rows == map[] && notices == []
    {
      rows, notices := map[], [];
    }

    method Create(thingId: string) returns (r: Result<Shadow>)
      requires Valid()
      modifies this
      ensures Valid() && notices == old(notices)
      ensures r == if thingId in old(rows) then Err(Duplicated) else Ok(NEW_SHADOW)
      ensures rows == if r.Ok? then old(rows)[thingId := NEW_SHADOW] else old(rows)
    {
      if thingId in rows { return Err(Duplicated); }
      rows := rows[thingId := NEW_SHADOW];
      return Ok(NEW_SHADOW);
    }

    /** Save under a version guard: a positive version must be the stored one. */
    method Update(thingId: string, version: int, s: Shadow) returns (ok: bool)
      modifies this`rows
      ensures ok <==> thingId in old(rows) && (version > 0 ==> old(rows)[thingId].version == version)
      ensures rows == if ok then old(rows)[thingId := s] else old(rows)
    {
      ok := thingId in rows && (version > 0 ==> rows[thingId].version == version);
      if ok { rows := rows[thingId := s]; }
    }

    /** setState with its notices. */
    method SetState(thingId: string, half: Half, patch: GoMap?, version: int, token: string, now: int, ghost hp: Shape)
      returns (r: Result<(Shadow, JsonMap)>)
      requires Valid() && TreeOrNil(patch, hp)
      modifies this
      ensures Valid() && TreeOrNil(patch, hp)
      ensures r.Err? ==> rows == old(rows) && notices == old(notices)
      ensures r == if thingId !in old(rows) then Err(NotFound)
                   else if !Accepts(old(rows)[thingId], version) then Err(VersionConflict)
                   else if patch == null then Err(ShadowFormat)
                   else Ok((Patched(old(rows)[thingId], half, Value(hp).m, now),
                            UpdatedMap(old(rows)[thingId].State(half), Value(hp).m, map[], now)))
      ensures thingId in old(rows) && patch != null ==>
                (r == Err(VersionConflict) <==> version != 0 && version != old(rows)[thingId].version)
      ensures r.Ok? ==>
                && rows == old(rows)[thingId := r.value.0]
                && notices == old(notices) + NoticesOf(thingId, token, old(rows)[thingId], r.value.0)
    {
      hide Objs, Apart, Holds, Value, MergeMap, MetaMap, UpdatedMap, Mirrors, DiffMap, DiffMetaMap, DiffFits, StateFits;
      if thingId !in rows { return Err(NotFound); }
      var ss := rows[thingId];
      if version != 0 && ss.version != version { return Err(VersionConflict); }
      if patch == null { return Err(ShadowFormat); }
      StepKeepsMirrored(ss, ShadowHistory.SetState(half, Value(hp).m, version, now));
      AllAllocated(Objs(hp));
      var state, meta, updated, preState, preMeta :=
        MergeStored(ss.State(half), ss.Meta(half), patch, now, hp);
      var cur := if half.Desired? then ss.(desired := state, metaDesired := meta)
                 else ss.(reported := state, metaReported := meta);
      cur := cur.(version := cur.version + 1);
      var pre := if half.Desired? then Document(preState, ss.reported, preMeta, map[], ss.version)
                 else Document(ss.desired, preState, ss.metaDesired, map[], ss.version);
      var ok := Update(thingId, version, cur);
      Notify(thingId, token, pre, cur);
      r := Ok((cur, updated));
    }

    /** notifyDeltaState, then notifyStateUpdate. */
    method Notify(thingId: string, token: string, pre: Document, cur: Shadow)
      requires Mirrored(cur)
      modifies this`notices
      ensures var delta := DiffMap(cur.desired, cur.reported);
              notices == old(notices)
                + (if delta == map[] then []
                   else [Delta(thingId, delta, DiffMetaMap(cur.desired, cur.reported, cur.metaDesired), cur.version, token)])
                + [Updated(thingId, pre, DocumentOf(cur), token)]
    {
      hide DiffMap, DiffMetaMap, DiffFits, StateFits, Mirrors;
      MirrorsStateFits(cur.desired, cur.reported, cur.metaDesired);
      var delta, deltaMeta := DeltaState(Some(cur.desired), Some(cur.reported), Some(cur.metaDesired));
      if |delta.value| != 0 {
        notices := notices + [Delta(thingId, delta.value, deltaMeta.value, cur.version, token)];
      }
      notices := notices + [Updated(thingId, pre, DocumentOf(cur), token)];
    }

    method SetTag(thingId: string, newTags: JsonMap, version: int) returns (r: Result<()>)
      requires Valid()
      modifies this`rows
      ensures Valid()
      ensures r == if thingId !in old(rows) then Err(NotFound)
                   else if version != 0 && version != old(rows)[thingId].version then Err(VersionConflict)
                   else Ok(())
      ensures rows == if r.Err? then old(rows)
                      else old(rows)[thingId := Step(old(rows)[thingId], SetTags(newTags, version))]
    {
      if thingId !in rows { return Err(NotFound); }
      var cur := rows[thingId];
      if version != 0 && cur.version != version { return Err(VersionConflict); }
      StepKeepsMirrored(cur, SetTags(newTags, version));
      var merged := MergeTags(cur.tags, newTags);
      var ok := Update(thingId, version, cur.(tags := merged, version := cur.version + 1));
      r := Ok(());
    }

    method Delete(thingId: string)
      requires Valid()
      modifies this`rows
      ensures Valid() && rows == old(rows) - {thingId}
    {
      rows := rows - {thingId};
    }
  }
}
