/** A shadow row and its history: what each request makes of the row, and what
    holds after any sequence of requests on a newly created shadow. */
module ShadowHistory {
  import opened Options
  import opened Json
  import opened ShadowMerge

  datatype Half = Desired | Reported

  datatype Shadow = Shadow(
    desired: JsonMap, reported: JsonMap,
    metaDesired: JsonMap, metaReported: JsonMap,
    tags: JsonMap, version: int)
  {
    function State(half: Half): JsonMap { if half.Desired? then desired else reported }

    function Meta(half: Half): JsonMap { if half.Desired? then metaDesired else metaReported }
  }

  /** A request with the version it expects, 0 for any. */
  datatype Request =
    | SetState(half: Half, patch: JsonMap, version: int, now: int)
    | SetTags(newTags: JsonMap, version: int)

  const NEW_SHADOW := Shadow(map[], map[], map[], map[], map[], 1)

  predicate Accepts(ss: Shadow, version: int) {
    version == 0 || ss.version == version
  }

  function Patched(ss: Shadow, half: Half, patch: JsonMap, now: int): Shadow {
    var state := MergeMap(ss.State(half), patch);
    var meta := MetaMap(ss.State(half), patch, ss.Meta(half), now);
    match half
    case Desired => ss.(desired := state, metaDesired := meta, version := ss.version + 1)
    case Reported => ss.(reported := state, metaReported := meta, version := ss.version + 1)
  }

  /** A null tag deletes the tag. */
  function MergedTags(tags: JsonMap, wanted: JsonMap): JsonMap {
    map k | k in tags.Keys + wanted.Keys && !(k in wanted && wanted[k].Null?) ::
      if k in wanted then wanted[k] else tags[k]
  }

  /** The row after a request; a request with a stale version changes nothing. */
  function Step(ss: Shadow, req: Request): Shadow {
    if !Accepts(ss, req.version) then ss
    else match req
      case SetState(half, patch, _, now) => Patched(ss, half, patch, now)
      case SetTags(newTags, _) => ss.(tags := MergedTags(ss.tags, newTags), version := ss.version + 1)
  }

  function Run(ss: Shadow, reqs: seq<Request>): Shadow {
    if reqs == [] then ss
    else Step(Run(ss, reqs[..|reqs|-1]), reqs[|reqs|-1])
  }

  /** Request i of the run is accepted. */
  predicate AcceptedAt(ss: Shadow, reqs: seq<Request>, i: nat)
    requires i < |reqs|
  {
    Accepts(Run(ss, reqs[..i]), reqs[i].version)
  }

  function CountAccepted(ss: Shadow, reqs: seq<Request>): nat {
    if reqs == [] then 0
    else CountAccepted(ss, reqs[..|reqs|-1]) + if AcceptedAt(ss, reqs, |reqs|-1) then 1 else 0
  }

  // ---------- What holds after every run ----------

  ghost predicate Mirrored(ss: Shadow) {
    Mirrors(Obj(ss.desired), Obj(ss.metaDesired)) && Mirrors(Obj(ss.reported), Obj(ss.metaReported))
  }

  lemma StepKeepsMirrored(ss: Shadow, req: Request)
    requires Mirrored(ss)
    ensures Mirrored(Step(ss, req))
  {
    if req.SetState? {
      MergeMirrors(ss.State(req.half), req.patch, ss.Meta(req.half), req.now);
    }
  }

  lemma {:induction false} AlwaysMirrored(reqs: seq<Request>)
    ensures Mirrored(Run(NEW_SHADOW, reqs))
  {
    if reqs != [] {
      AlwaysMirrored(reqs[..|reqs|-1]);
      StepKeepsMirrored(Run(NEW_SHADOW, reqs[..|reqs|-1]), reqs[|reqs|-1]);
    }
  }

  /** In every shadow that requests can produce, a path carries a stamp in the
      metadata exactly when it is a leaf of the state. */
  lemma StampsAreLeaves(reqs: seq<Request>, half: Half, p: Path)
    ensures var ss := Run(NEW_SHADOW, reqs);
            StampAt(Obj(ss.Meta(half)), p).Some? <==> LeafAt(Obj(ss.State(half)), p).Some?
  {
    AlwaysMirrored(reqs);
    var ss := Run(NEW_SHADOW, reqs);
    MirrorsExactly(Obj(ss.State(half)), Obj(ss.Meta(half)), p);
  }

  /** So no later patch can make the merge's type assertion fail. */
  lemma MetadataAlwaysFits(reqs: seq<Request>, half: Half, patch: JsonMap)
    ensures var ss := Run(NEW_SHADOW, reqs); MetaFits(ss.State(half), patch, ss.Meta(half))
  {
    AlwaysMirrored(reqs);
    var ss := Run(NEW_SHADOW, reqs);
    MirrorsFits(ss.State(half), patch, ss.Meta(half));
  }

  lemma {:induction false} VersionCountsUpdates(reqs: seq<Request>)
    ensures Run(NEW_SHADOW, reqs).version == 1 + CountAccepted(NEW_SHADOW, reqs)
  {
    if reqs != [] { VersionCountsUpdates(reqs[..|reqs|-1]); }
  }

  // ---------- Last writer per path ----------

  /** Request i of the run is an accepted patch of this half that touches p. */
  ghost predicate Writes(ss: Shadow, reqs: seq<Request>, i: nat, half: Half, p: Path)
    requires i < |reqs|
  {
    AcceptedAt(ss, reqs, i) && reqs[i].SetState? && reqs[i].half == half && Touches(Obj(reqs[i].patch), p)
  }

  /** One request: the written paths take value and stamp of the patch, all other
      paths of this half, and the other half, keep theirs. */
  lemma StepOnPath(ss: Shadow, req: Request, half: Half, p: Path)
    requires Mirrored(ss)
    ensures var ss' := Step(ss, req);
            if Accepts(ss, req.version) && req.SetState? && req.half == half && Touches(Obj(req.patch), p) then
              && LeafAt(Obj(ss'.State(half)), p) == LeafAt(Obj(req.patch), p)
              && StampAt(Obj(ss'.Meta(half)), p) == (if LeafAt(Obj(req.patch), p).Some? then Some(Num(req.now as real)) else None)
            else
              && LeafAt(Obj(ss'.State(half)), p) == LeafAt(Obj(ss.State(half)), p)
              && StampAt(Obj(ss'.Meta(half)), p) == StampAt(Obj(ss.Meta(half)), p)
  {
    if Accepts(ss, req.version) && req.SetState? && req.half == half {
      MergeLeaf(ss.State(half), req.patch, p);
      MergeStamp(ss.State(half), req.patch, ss.Meta(half), req.now, p);
    }
  }

  /** The last accepted patch that touches a path decides its value and its stamp;
      if that touch was a delete or a replacement from above, the path is gone. */
  lemma {:induction false} LastWriterWins(reqs: seq<Request>, i: nat, half: Half, p: Path)
    requires i < |reqs| && Writes(NEW_SHADOW, reqs, i, half, p)
    requires forall j | i < j < |reqs| :: !Writes(NEW_SHADOW, reqs, j, half, p)
    ensures var ss := Run(NEW_SHADOW, reqs);
            && LeafAt(Obj(ss.State(half)), p) == LeafAt(Obj(reqs[i].patch), p)
            && StampAt(Obj(ss.Meta(half)), p) ==
               (if LeafAt(Obj(reqs[i].patch), p).Some? then Some(Num(reqs[i].now as real)) else None)
    decreases |reqs|
  {
    var n := |reqs| - 1;
    var init := reqs[..n];
    AlwaysMirrored(init);
    StepOnPath(Run(NEW_SHADOW, init), reqs[n], half, p);
    if i < n {
      assert !Writes(NEW_SHADOW, reqs, n, half, p);
      WritesInPrefix(reqs, half, p);
      assert Writes(NEW_SHADOW, init, i, half, p);
      LastWriterWins(init, i, half, p);
    }
  }

  /** A path that no accepted patch touched has neither value nor stamp. */
  lemma {:induction false} UnwrittenIsAbsent(reqs: seq<Request>, half: Half, p: Path)
    requires forall j | 0 <= j < |reqs| :: !Writes(NEW_SHADOW, reqs, j, half, p)
    ensures var ss := Run(NEW_SHADOW, reqs);
            LeafAt(Obj(ss.State(half)), p) == None && StampAt(Obj(ss.Meta(half)), p) == None
    decreases |reqs|
  {
    if reqs != [] {
      var n := |reqs| - 1;
      var init := reqs[..n];
      AlwaysMirrored(init);
      StepOnPath(Run(NEW_SHADOW, init), reqs[n], half, p);
      assert !Writes(NEW_SHADOW, reqs, n, half, p);
      WritesInPrefix(reqs, half, p);
      UnwrittenIsAbsent(init, half, p);
    }
  }

  lemma WritesInPrefix(reqs: seq<Request>, half: Half, p: Path)
    requires reqs != []
    ensures var init := reqs[..|reqs|-1];
            forall j: nat | j < |init| :: Writes(NEW_SHADOW, init, j, half, p) <==> Writes(NEW_SHADOW, reqs, j, half, p)
  {
    var init := reqs[..|reqs|-1];
    forall j: nat | j < |init|
      ensures Writes(NEW_SHADOW, init, j, half, p) <==> Writes(NEW_SHADOW, reqs, j, half, p)
    {
      assert init[..j] == reqs[..j];
    }
  }

  // ---------- Versions ----------

  /** Requests without an expected version are all accepted. */
  lemma {:induction false} UnversionedAllCount(reqs: seq<Request>)
    requires forall i | 0 <= i < |reqs| :: reqs[i].version == 0
    ensures Run(NEW_SHADOW, reqs).version == 1 + |reqs|
  {
    if reqs != [] { UnversionedAllCount(reqs[..|reqs|-1]); }
  }

  /** A request that expects the version left by the requests before it is accepted. */
  lemma CurrentVersionIsAccepted(reqs: seq<Request>, i: nat)
    requires i < |reqs| && reqs[i].version == 1 + CountAccepted(NEW_SHADOW, reqs[..i])
    ensures AcceptedAt(NEW_SHADOW, reqs, i)
  {
    VersionCountsUpdates(reqs[..i]);
  }

  lemma {:induction false} VersionGrows(reqs: seq<Request>, i: nat, j: nat)
    requires i <= j <= |reqs|
    ensures Run(NEW_SHADOW, reqs[..i]).version <= Run(NEW_SHADOW, reqs[..j]).version
    ensures i < j && AcceptedAt(NEW_SHADOW, reqs, i) ==>
              Run(NEW_SHADOW, reqs[..i]).version < Run(NEW_SHADOW, reqs[..j]).version
    decreases j
  {
    if i < j {
      VersionGrows(reqs, i, j - 1);
      assert reqs[..j][..j-1] == reqs[..j-1];
    }
  }

  /** Of the requests that expect the same version, one at most is accepted: no update
      that was made on knowledge of a version overwrites another one unseen. */
  lemma NoLostUpdate(reqs: seq<Request>, i: nat, j: nat)
    requires i < j < |reqs| && reqs[i].version == reqs[j].version != 0
    ensures !(AcceptedAt(NEW_SHADOW, reqs, i) && AcceptedAt(NEW_SHADOW, reqs, j))
  {
    VersionGrows(reqs, i, j);
  }

  // ---------- Last writer per tag ----------

  /** Request i of the run is accepted and names the tag. */
  predicate Tags(reqs: seq<Request>, i: nat, tag: string)
    requires i < |reqs|
  {
    AcceptedAt(NEW_SHADOW, reqs, i) && reqs[i].SetTags? && tag in reqs[i].newTags
  }

  /** A tag has the value of the last accepted request that names it, and is gone if that
      value was null; a tag that none names is not there. */
  lemma {:induction false} LastTagWins(reqs: seq<Request>, i: int, tag: string)
    requires -1 <= i < |reqs| && (i >= 0 ==> Tags(reqs, i, tag))
    requires forall j | i < j < |reqs| :: !Tags(reqs, j, tag)
    ensures var tags := Run(NEW_SHADOW, reqs).tags;
            if i < 0 || reqs[i].newTags[tag].Null? then tag !in tags
            else tag in tags && tags[tag] == reqs[i].newTags[tag]
    decreases |reqs|
  {
    if reqs != [] {
      var n := |reqs| - 1;
      var init := reqs[..n];
      if i < n {
        assert !Tags(reqs, n, tag);
        forall j: nat | j < n ensures Tags(init, j, tag) <==> Tags(reqs, j, tag) {
          assert init[..j] == reqs[..j];
        }
        LastTagWins(init, i, tag);
      }
    }
  }
}
