/** The state merge of shadow/merge.go on mutable maps, proved to compute the
    functions of ShadowMerge, for every order in which the maps are ranged over. */
module ShadowMergeHeap {
  import opened Options
  import opened Json
  import opened GoMaps
  import opened ShadowMerge

  /** map[string]any{"timestamp": now} */
  method NewStamp(now: int) returns (o: GoMap, ghost h: Shape)
    ensures Tree(o, h) && fresh(Objs(h))
    ensures Value(h) == Stamp(now)
  {
    o := new GoMap();
    o.fields := map[TIMESTAMP := SLeaf(Millis(now))];
    h := HMap(o, map[TIMESTAMP := HLeaf(Millis(now))]);
  }

  ghost predicate SameBeside(h: Shape, h': Shape, k: string) {
    && h.HMap? && h'.HMap?
    && forall l | l != k :: SubShape(h, l) == SubShape(h', l)
  }

  /** m[k] = make(map[string]any) */
  method PutEmpty(m: GoMap, k: string, ghost h: Shape) returns (sub: GoMap, ghost h': Shape)
    requires Tree(m, h)
    modifies m
    ensures Tree(m, h') && h' == Graft(h, k, HMap(sub, map[]))
    ensures SameBeside(h, h', k)
    ensures fresh(sub) && Objs(HMap(sub, map[])) == {sub}
    ensures Value(h'.kids[k]) == Obj(map[])
    ensures forall x | x in Objs(h') :: x in Objs(h) || fresh(x)
  {
    hide Objs, Apart, Holds;
    AllAllocated(Objs(h));
    sub := new GoMap();
    EmptyTree(sub);
    h' := Graft(h, k, HMap(sub, map[]));
    Put(m, k, SMap(sub), h, HMap(sub, map[]));
  }

  /** removeNilFieldsForValue */
  method RemoveNilFields(v: Slot, ghost h: Shape) returns (r: Slot, ghost c: Shape)
    requires Top(h) == v && Apart(h) && Holds(h)
    modifies Objs(h)
    ensures Top(c) == v && Apart(c) && Holds(c) && Objs(c) <= Objs(h)
    ensures v.SMap? ==> Value(c) == Obj(CleanMap(Value(h).m))
    ensures !v.SMap? ==> c == h
    ensures r == if Clean(Value(h)).Null? then SNull else v
    decreases h, 2
  {
    hide Objs, Apart, Holds, Value, CleanMap, CleanField;
    c := h;
    if v.SMap? {
      var m := v.o;
      var todo := m.fields.Keys;
      ghost var doc := Value(h).m;
      Kid(m, h, "");
      EntriesOfValue(h);
      while todo != {}
        invariant todo <= h.kids.Keys
        invariant Tree(m, c) && Objs(c) <= Objs(h)
        invariant forall k: string | k in todo || k !in h.kids :: SubShape(c, k) == SubShape(h, k)
        invariant forall k | k in h.kids.Keys - todo :: Entry(c, k) == CleanField(doc, k)
      {
        var k :| k in todo;
        assert SubShape(c, k) == SubShape(h, k);
        todo := todo - {k};
        ghost var c0 := c;
        c := RemoveNilField(m, k, c0, h.kids[k], doc);
      }
      CleanedDocument(h, c);
      Kid(m, c, "");
      EntriesOfValue(c);
      if |m.fields| == 0 {
        r := SNull;
      } else {
        r := v;
      }
    } else {
      r := v;
    }
  }

  lemma CleanedDocument(h: Shape, c: Shape)
    requires h.HMap? && c.HMap?
    requires forall k: string | k !in h.kids :: SubShape(c, k) == SubShape(h, k)
    requires forall k | k in h.kids.Keys :: Entry(c, k) == CleanField(Value(h).m, k)
    ensures Value(c) == Obj(CleanMap(Value(h).m))
    ensures CleanMap(Value(h).m) == map[] <==> c.kids.Keys == {}
  {
    hide Value, CleanMap;
    EntriesOfValue(h);
    EntriesOfValue(c);
    CleanMapByFields(Value(h).m);
    ValueByEntries(c, CleanMap(Value(h).m));
  }

  /** The loop body: drop field k when it is nil or cleans to nil. */
  method RemoveNilField(m: GoMap, k: string, ghost h: Shape, ghost kid: Shape, ghost doc: JsonMap) returns (ghost c: Shape)
    requires Tree(m, h) && k in h.kids && h.kids[k] == kid
    requires k in doc && doc[k] == Value(kid)
    modifies Objs(h)
    ensures Tree(m, c) && Objs(c) <= Objs(h)
    ensures forall l: string | l != k :: SubShape(c, l) == SubShape(h, l)
    ensures Entry(c, k) == CleanField(doc, k)
    decreases kid, 3
  {
    hide Objs, Apart, Holds, HoldsBeside, Value, CleanMap;
    Kid(m, h, k);
    c := h;
    var v := m.fields[k];
    if v == SNull {
      Delete(m, k, c);
      c := Rest(c, k);
    }
    if v.SMap? {
      Lend(m, h, k);
      AllAllocated(Objs(h));
      var sr, sub := RemoveNilFields(v, kid);
      Regraft(m, h, k, sub);
      GraftObjs(h, k, sub);
      c := Graft(h, k, sub);
      if sr == SNull {
        Delete(m, k, c);
        c := Rest(c, k);
      }
    }
  }

  /** genMeta: add a stamp to out for every leaf of s. */
  method GenMetaInto(s: GoMap, out: GoMap, now: int, ghost hs: Shape, ghost ho: Shape) returns (ghost c: Shape)
    requires Tree(s, hs) && Tree(out, ho) && Objs(hs) !! Objs(ho)
    modifies out
    ensures Tree(out, c)
    ensures forall x | x in Objs(c) :: x in Objs(ho) || fresh(x)
    ensures Value(c) == Obj(Value(ho).m + GenMeta(Value(hs).m, now))
    decreases hs, 1
  {
    hide Objs, Apart, Holds, Value, GenMeta, GenField;
    ghost var doc, am := Value(hs).m, Value(ho).m;
    AllAllocated(Objs(hs) + Objs(ho));
    Kid(s, hs, "");
    Kid(out, ho, "");
    KidsApart(s, hs);
    EntriesOfValue(hs);
    EntriesOfValue(ho);
    c := ho;
    var todo := s.fields.Keys;
    while todo != {}
      invariant todo <= hs.kids.Keys
      invariant Tree(out, c)
      invariant forall x | x in Objs(c) :: x in Objs(ho) || fresh(x)
      invariant forall k: string | k in todo || k !in hs.kids :: Entry(c, k) == Entry(ho, k)
      invariant forall k | k in hs.kids.Keys - todo ::
                  Entry(c, k) == if GenField(doc, now, k).Some? then GenField(doc, now, k) else Entry(ho, k)
    {
      var k :| k in todo;
      todo := todo - {k};
      var v := s.fields[k];
      ghost var c0 := c;
      NullHasNoMeta(doc, now, k);
      if v == SNull { continue; }
      c := GenMetaField(v, out, k, now, hs.kids[k], c0, doc);
    }
    GeneratedDocument(hs, ho, c, now);
  }

  lemma NullHasNoMeta(m: JsonMap, now: int, k: string)
    ensures k !in m || m[k].Null? <==> GenField(m, now, k).None?
  {}

  lemma GeneratedDocument(hs: Shape, ho: Shape, c: Shape, now: int)
    requires hs.HMap? && ho.HMap? && c.HMap?
    requires forall k: string | k !in hs.kids :: Entry(c, k) == Entry(ho, k)
    requires forall k | k in hs.kids.Keys ::
               Entry(c, k) == var g := GenField(Value(hs).m, now, k); if g.Some? then g else Entry(ho, k)
    ensures Value(c) == Obj(Value(ho).m + GenMeta(Value(hs).m, now))
  {
    hide Value, GenMeta;
    EntriesOfValue(hs);
    EntriesOfValue(ho);
    GenMetaByFields(Value(hs).m, Value(ho).m, now);
    ValueByEntries(c, Value(ho).m + GenMeta(Value(hs).m, now));
  }

  method GenMetaField(v: Slot, out: GoMap, k: string, now: int, ghost h: Shape, ghost ho: Shape, ghost doc: JsonMap)
    returns (ghost c: Shape)
    requires Top(h) == v && Apart(h) && Holds(h) && !h.HNull?
    requires k in doc && doc[k] == Value(h)
    requires Tree(out, ho) && out !in Objs(h)
    modifies out
    ensures Tree(out, c)
    ensures forall x | x in Objs(c) :: x in Objs(ho) || fresh(x)
    ensures forall l: string | l != k :: Entry(c, l) == Entry(ho, l)
    ensures Entry(c, k) == GenField(doc, now, k)
    decreases h, 3
  {
    hide Objs, Apart, Holds, HoldsBeside, Value, GenMeta;
    AllAllocated(Objs(ho) + Objs(h));
    if v.SLeaf? {
      var o, st := NewStamp(now);
      Put(out, k, SMap(o), ho, st);
      c := Graft(ho, k, st);
    } else {
      c := GenSubMeta(v.o, out, k, now, h, ho);
    }
  }

  /** sm := make(map[string]any); m[k] = sm; genMeta(v, &sm) */
  method GenSubMeta(s: GoMap, out: GoMap, k: string, now: int, ghost h: Shape, ghost ho: Shape) returns (ghost c: Shape)
    requires Tree(s, h) && Tree(out, ho) && out !in Objs(h)
    modifies out
    ensures Tree(out, c)
    ensures forall x | x in Objs(c) :: x in Objs(ho) || fresh(x)
    ensures forall l: string | l != k :: SubShape(c, l) == SubShape(ho, l)
    ensures Entry(c, k) == Some(Obj(GenMeta(Value(h).m, now)))
    decreases h, 2
  {
    hide Objs, Apart, Holds, HoldsBeside, Value, GenMeta;
    Kid(out, ho, k);
    AllAllocated(Objs(ho) + Objs(h));
    var sm, c0 := PutEmpty(out, k, ho);
    ghost var e := HMap(sm, map[]);
    c := c0;
    Lend(out, c, k);
    AllAllocated(Objs(c));
    ghost var sub := GenMetaInto(s, sm, now, h, e);
    assert map[] + GenMeta(Value(h).m, now) == GenMeta(Value(h).m, now);
    Regraft(out, c, k, sub);
    GraftObjs(c, k, sub);
    c := Graft(c, k, sub);
  }

  // ---------- The merge of one field ----------

  /** The three trees the merge works on: state, all metadata, this update's metadata. */
  datatype Trees = Trees(state: Shape, all: Shape, upd: Shape)

  ghost predicate Three(tgt: GoMap, am: GoMap, um: GoMap, w: Trees)
    reads Objs(w.state), Objs(w.all), Objs(w.upd)
  {
    && Tree(tgt, w.state) && Tree(am, w.all) && Tree(um, w.upd)
    && Objs(w.state) !! Objs(w.all) && Objs(w.state) !! Objs(w.upd) && Objs(w.all) !! Objs(w.upd)
  }

  lemma RootsAreMaps(tgt: GoMap, am: GoMap, um: GoMap, w: Trees)
    requires Three(tgt, am, um, w)
    ensures w.state.HMap? && w.all.HMap? && w.upd.HMap?
  {}

  ghost predicate OnlyFieldChanged(w: Trees, w': Trees, k: string) {
    SameBeside(w.state, w'.state, k) && SameBeside(w.all, w'.all, k) && SameBeside(w.upd, w'.upd, k)
  }

  method PutStamp(m: GoMap, k: string, now: int, ghost h: Shape) returns (ghost h': Shape)
    requires Tree(m, h)
    modifies m
    ensures Tree(m, h') && SameBeside(h, h', k) && Entry(h', k) == Some(Stamp(now))
    ensures forall x | x in Objs(h') :: x in Objs(h) || fresh(x)
  {
    hide Objs, Apart, Holds, Value;
    AllAllocated(Objs(h));
    var o, st := NewStamp(now);
    Put(m, k, SMap(o), h, st);
    h' := Graft(h, k, st);
  }

  lemma OnlyFieldChangedTwice(w: Trees, w': Trees, w'': Trees, k: string)
    requires OnlyFieldChanged(w, w', k) && OnlyFieldChanged(w', w'', k)
    ensures OnlyFieldChanged(w, w'', k)
  {}

  /** A scalar replaces whatever the field held. */
  method StoreLeaf(k: string, v: Slot, tgt: GoMap, am: GoMap, um: GoMap, now: int, ghost h: Shape, ghost w: Trees)
    returns (ghost w': Trees)
    requires Three(tgt, am, um, w)
    requires v.SLeaf? && Top(h) == v
    modifies tgt, am, um
    ensures Three(tgt, am, um, w') && OnlyFieldChanged(w, w', k)
    ensures Entry(w'.state, k) == Some(Value(h))
    ensures Entry(w'.all, k) == Entry(w'.upd, k) == Some(Stamp(now))
    ensures Objs(w'.state) <= Objs(w.state)
    ensures forall x | x in Objs(w'.all) :: x in Objs(w.all) || fresh(x)
    ensures forall x | x in Objs(w'.upd) :: x in Objs(w.upd) || fresh(x)
  {
    hide Objs, Apart, Holds, Value;
    Kid(tgt, w.state, "");
    Kid(am, w.all, "");
    Kid(um, w.upd, "");
    AllAllocated(Objs(w.state) + Objs(w.all) + Objs(w.upd));
    BareSlot(h);
    Put(tgt, k, v, w.state, h);
    ghost var a := PutStamp(am, k, now, w.all);
    AllAllocated(Objs(a));
    ghost var u := PutStamp(um, k, now, w.upd);
    w' := Trees(Graft(w.state, k, h), a, u);
  }

  /** m[k] = genMeta(sub) in a map of its own. */
  method PutGenMeta(m: GoMap, k: string, sub: GoMap, now: int, ghost h: Shape, ghost hs: Shape)
    returns (o: GoMap, ghost hm: Shape, ghost h': Shape)
    requires Tree(m, h) && Tree(sub, hs) && Objs(h) !! Objs(hs)
    modifies m
    ensures Tree(m, h') && Tree(o, hm) && h' == Graft(h, k, hm)
    ensures Value(hm) == Obj(GenMeta(Value(hs).m, now))
    ensures fresh(Objs(hm)) && Objs(h') <= Objs(h) + Objs(hm)
  {
    hide Objs, Apart, Holds, Value, GenMeta;
    AllAllocated(Objs(h) + Objs(hs));
    o := new GoMap();
    EmptyTree(o);
    hm := GenMetaInto(sub, o, now, hs, HMap(o, map[]));
    assert map[] + GenMeta(Value(hs).m, now) == GenMeta(Value(hs).m, now);
    Kid(m, h, k);
    AllAllocated(Objs(hm));
    Put(m, k, SMap(o), h, hm);
    h' := Graft(h, k, hm);
  }

  /** genMeta(sub) for all metadata, and a deep copy of it for this update's. */
  method PutGenMetaTwice(am: GoMap, um: GoMap, k: string, sub: GoMap, now: int, ghost ha: Shape, ghost hu: Shape, ghost hs: Shape)
    returns (ghost a: Shape, ghost u: Shape)
    requires Tree(am, ha) && Tree(um, hu) && Tree(sub, hs)
    requires Objs(ha) !! Objs(hu) && Objs(ha) !! Objs(hs) && Objs(hu) !! Objs(hs)
    modifies am, um
    ensures Tree(am, a) && Tree(um, u) && Objs(a) !! Objs(u)
    ensures SameBeside(ha, a, k) && SameBeside(hu, u, k)
    ensures Entry(a, k) == Entry(u, k) == Some(Obj(GenMeta(Value(hs).m, now)))
    ensures forall x | x in Objs(a) :: x in Objs(ha) || fresh(x)
    ensures forall x | x in Objs(u) :: x in Objs(hu) || fresh(x)
  {
    hide Objs, Apart, Holds, Value, GenMeta;
    Kid(am, ha, "");
    Kid(um, hu, "");
    AllAllocated(Objs(ha) + Objs(hu) + Objs(hs));
    var m;
    ghost var hm;
    m, hm, a := PutGenMeta(am, k, sub, now, ha, hs);
    AllAllocated(Objs(a) + Objs(hm));
    var d, hd := DeepCopy(m, hm);
    Put(um, k, SMap(d), hu, hd);
    u := Graft(hu, k, hd);
  }

  /** tg[k] = removeNilFieldsForValue(v) */
  method PutCleaned(m: GoMap, k: string, v: Slot, ghost h: Shape, ghost hv: Shape) returns (ghost h': Shape, ghost c: Shape)
    requires Tree(m, h) && v.SMap? && Tree(v.o, hv) && Objs(h) !! Objs(hv)
    modifies m, Objs(hv)
    ensures Tree(m, h') && SameBeside(h, h', k) && Entry(h', k) == Some(Clean(Value(hv)))
    ensures Tree(v.o, c) && Value(c) == Obj(CleanMap(Value(hv).m))
    ensures Objs(c) <= Objs(hv) && Objs(h') <= Objs(h) + Objs(hv)
  {
    hide Objs, Apart, Holds, Value, CleanMap;
    Kid(m, h, "");
    AllAllocated(Objs(h) + Objs(hv));
    var r;
    r, c := RemoveNilFields(v, hv);
    ghost var kept := if r == SNull then HNull else c;
    if r == SNull { BareSlot(HNull); }
    Put(m, k, r, h, kept);
    h' := Graft(h, k, kept);
    assert kept == HNull ==> Value(kept) == Null;
  }

  /** A map replaces a scalar, a null or a missing field: it is cleaned in place
      and handed over to the state; its metadata is generated twice over. */
  method StoreMap(k: string, v: Slot, tgt: GoMap, am: GoMap, um: GoMap, now: int, ghost h: Shape, ghost w: Trees)
    returns (ghost w': Trees)
    requires Three(tgt, am, um, w)
    requires v.SMap? && Top(h) == v && Apart(h) && Holds(h)
    requires Objs(h) !! Region(w)
    modifies tgt, am, um, Objs(h)
    ensures Three(tgt, am, um, w') && OnlyFieldChanged(w, w', k)
    ensures Entry(w'.state, k) == Some(Clean(Value(h)))
    ensures Entry(w'.all, k) == Entry(w'.upd, k) == Some(Obj(GenMeta(CleanMap(Value(h).m), now)))
    ensures Objs(w'.state) <= Objs(w.state) + Objs(h)
    ensures forall x | x in Objs(w'.all) :: x in Objs(w.all) || fresh(x)
    ensures forall x | x in Objs(w'.upd) :: x in Objs(w.upd) || fresh(x)
  {
    hide Objs, Apart, Holds, Value, GenMeta, CleanMap;
    Kid(tgt, w.state, "");
    Kid(am, w.all, "");
    Kid(um, w.upd, "");
    AllAllocated(Objs(w.state) + Objs(w.all) + Objs(w.upd) + Objs(h));
    ghost var st, c := PutCleaned(tgt, k, v, w.state, h);
    AllAllocated(Objs(st));
    ghost var a, u := PutGenMetaTwice(am, um, k, v.o, now, w.all, w.upd, c);
    w' := Trees(st, a, u);
  }

  /** The metadata map under k, made empty on the spot if there is none. */
  method SubMeta(m: GoMap, k: string, ghost h: Shape) returns (sub: GoMap, ghost h': Shape)
    requires Tree(m, h)
    requires k in h.kids ==> h.kids[k].HMap?
    modifies m
    ensures Tree(m, h') && SameBeside(h, h', k)
    ensures k in h'.kids && Top(h'.kids[k]) == SMap(sub)
    ensures Value(h'.kids[k]) == Obj(SubMap(Value(h).m, k))
    ensures forall x | x in Objs(h') :: x in Objs(h) || fresh(x)
  {
    hide Objs, Apart, Holds;
    Kid(m, h, k);
    h' := h;
    if k in m.fields {
      sub := m.fields[k].o;
    } else {
      sub, h' := PutEmpty(m, k, h);
    }
  }

  ghost function GraftAll(w: Trees, k: string, sub: Trees): Trees
    requires w.state.HMap? && w.all.HMap? && w.upd.HMap?
  {
    Trees(Graft(w.state, k, sub.state), Graft(w.all, k, sub.all), Graft(w.upd, k, sub.upd))
  }

  ghost function Region(w: Trees): set<GoMap> {
    Objs(w.state) + Objs(w.all) + Objs(w.upd)
  }

  ghost function RestAll(w: Trees, k: string): Trees
    requires w.state.HMap? && w.all.HMap? && w.upd.HMap?
  {
    Trees(Rest(w.state, k), Rest(w.all, k), Rest(w.upd, k))
  }

  ghost function KidTrees(w: Trees, k: string): Trees
    requires w.state.HMap? && w.all.HMap? && w.upd.HMap?
    requires k in w.state.kids && k in w.all.kids && k in w.upd.kids
  {
    Trees(w.state.kids[k], w.all.kids[k], w.upd.kids[k])
  }

  /** The three subtrees under k are lent out together ... */
  lemma LendAll(tgt: GoMap, am: GoMap, um: GoMap, subTgt: GoMap, mVal: GoMap, umVal: GoMap, w: Trees, k: string)
    requires Three(tgt, am, um, w)
    requires k in w.state.kids && k in w.all.kids && k in w.upd.kids
    requires Top(w.state.kids[k]) == SMap(subTgt) && Top(w.all.kids[k]) == SMap(mVal) && Top(w.upd.kids[k]) == SMap(umVal)
    ensures Three(subTgt, mVal, umVal, KidTrees(w, k)) && LentOut(tgt, am, um, subTgt, mVal, umVal, w, k)
    ensures Objs(w.state) == Objs(Rest(w.state, k)) + Objs(w.state.kids[k])
    ensures Objs(w.all) == Objs(Rest(w.all, k)) + Objs(w.all.kids[k])
    ensures Objs(w.upd) == Objs(Rest(w.upd, k)) + Objs(w.upd.kids[k])
    ensures Region(RestAll(w, k)) !! Region(KidTrees(w, k))
  {
    hide Objs, Apart, Holds, HoldsBeside;
    Lend(tgt, w.state, k);
    Lend(am, w.all, k);
    Lend(um, w.upd, k);
  }

  ghost predicate LentOut(tgt: GoMap, am: GoMap, um: GoMap, subTgt: GoMap, mVal: GoMap, umVal: GoMap, w: Trees, k: string)
    requires w.state.HMap? && w.all.HMap? && w.upd.HMap?
    requires k in w.state.kids && k in w.all.kids && k in w.upd.kids
    reads Region(RestAll(w, k))
  {
    && w.state.o == tgt && w.all.o == am && w.upd.o == um
    && Apart(w.state) && Apart(w.all) && Apart(w.upd)
    && HoldsBeside(w.state, k) && HoldsBeside(w.all, k) && HoldsBeside(w.upd, k)
    && tgt in Objs(Rest(w.state, k)) && am in Objs(Rest(w.all, k)) && um in Objs(Rest(w.upd, k))
    && k in tgt.fields && k in am.fields && k in um.fields
    && tgt.fields[k] == SMap(subTgt) && am.fields[k] == SMap(mVal) && um.fields[k] == SMap(umVal)
    && Objs(Rest(w.state, k)) !! Objs(Rest(w.all, k))
    && Objs(Rest(w.state, k)) !! Objs(Rest(w.upd, k))
    && Objs(Rest(w.all, k)) !! Objs(Rest(w.upd, k))
  }

  /** ... and put back together. */
  lemma RegraftAll(tgt: GoMap, am: GoMap, um: GoMap, subTgt: GoMap, mVal: GoMap, umVal: GoMap, w: Trees, k: string, sub: Trees)
    requires w.state.HMap? && w.all.HMap? && w.upd.HMap?
    requires k in w.state.kids && k in w.all.kids && k in w.upd.kids
    requires LentOut(tgt, am, um, subTgt, mVal, umVal, w, k) && Three(subTgt, mVal, umVal, sub)
    requires Region(RestAll(w, k)) !! Region(sub)
    ensures Three(tgt, am, um, GraftAll(w, k, sub)) && OnlyFieldChanged(w, GraftAll(w, k, sub), k)
    ensures tgt.fields[k] == SMap(subTgt) && (Value(sub.state) == Obj(map[]) <==> |subTgt.fields| == 0)
    ensures Objs(GraftAll(w, k, sub).state) == Objs(Rest(w.state, k)) + Objs(sub.state)
    ensures Objs(GraftAll(w, k, sub).all) == Objs(Rest(w.all, k)) + Objs(sub.all)
    ensures Objs(GraftAll(w, k, sub).upd) == Objs(Rest(w.upd, k)) + Objs(sub.upd)
  {
    hide Objs, Apart, Holds, HoldsBeside;
    Regraft(tgt, w.state, k, sub.state);
    Regraft(am, w.all, k, sub.all);
    Regraft(um, w.upd, k, sub.upd);
    GraftObjs(w.state, k, sub.state);
    GraftObjs(w.all, k, sub.all);
    GraftObjs(w.upd, k, sub.upd);
    Kid(subTgt, sub.state, "");
    assert Value(sub.state).m.Keys == subTgt.fields.Keys;
  }

  /** The recursive call on the maps under k. */
  method Descend(k: string, v: Slot, tgt: GoMap, am: GoMap, um: GoMap, subTgt: GoMap, mVal: GoMap, umVal: GoMap,
                 now: int, ghost h: Shape, ghost w: Trees)
    returns (ghost w': Trees)
    requires Three(tgt, am, um, w)
    requires v.SMap? && Top(h) == v && Apart(h) && Holds(h)
    requires Objs(h) !! Region(w)
    requires k in w.state.kids && k in w.all.kids && k in w.upd.kids
    requires Top(w.state.kids[k]) == SMap(subTgt) && Top(w.all.kids[k]) == SMap(mVal) && Top(w.upd.kids[k]) == SMap(umVal)
    requires MetaFits(Value(w.state.kids[k]).m, Value(h).m, Value(w.all.kids[k]).m)
    modifies Objs(w.state), Objs(w.all), Objs(w.upd), Objs(h)
    ensures Three(tgt, am, um, w') && OnlyFieldChanged(w, w', k)
    ensures k in w'.state.kids && (Value(w'.state.kids[k]) == Obj(map[]) <==> |subTgt.fields| == 0)
    ensures Entry(w'.state, k) == Some(Obj(MergeMap(Value(w.state.kids[k]).m, Value(h).m)))
    ensures Entry(w'.all, k) == Some(Obj(MetaMap(Value(w.state.kids[k]).m, Value(h).m, Value(w.all.kids[k]).m, now)))
    ensures Entry(w'.upd, k) == Some(Obj(UpdatedMap(Value(w.state.kids[k]).m, Value(h).m, Value(w.upd.kids[k]).m, now)))
    ensures Objs(w'.state) <= Objs(w.state) + Objs(h)
    ensures forall x | x in Objs(w'.all) :: x in Objs(w.all) || fresh(x)
    ensures forall x | x in Objs(w'.upd) :: x in Objs(w.upd) || fresh(x)
    decreases h, 2
  {
    hide Objs, Apart, Holds, HoldsBeside, LentOut, MergeMap, MetaMap, UpdatedMap, MetaFits;
    AllAllocated(Region(w) + Objs(h));
    LendAll(tgt, am, um, subTgt, mVal, umVal, w, k);
    ghost var sub := DoMergeState(subTgt, v.o, mVal, umVal, now, h, KidTrees(w, k));
    RegraftAll(tgt, am, um, subTgt, mVal, umVal, w, k, sub);
    w' := GraftAll(w, k, sub);
  }

  method DropMeta(k: string, tgt: GoMap, am: GoMap, um: GoMap, ghost w: Trees) returns (ghost w': Trees)
    requires Three(tgt, am, um, w)
    modifies am, um
    ensures w' == Trees(w.state, Rest(w.all, k), Rest(w.upd, k)) && Three(tgt, am, um, w')
    ensures OnlyFieldChanged(w, w', k)
    ensures Objs(w'.all) <= Objs(w.all) && Objs(w'.upd) <= Objs(w.upd)
  {
    hide Objs, Apart, Holds;
    AllAllocated(Region(w));
    Kid(am, w.all, k);
    Kid(um, w.upd, k);
    Delete(um, k, w.upd);
    Delete(am, k, w.all);
    w' := Trees(w.state, Rest(w.all, k), Rest(w.upd, k));
  }

  /** The metadata maps to merge into: the one under k in all metadata, or a new
      one, and a new one in this update's metadata. */
  method SubMetas(k: string, tgt: GoMap, am: GoMap, um: GoMap, ghost w: Trees)
    returns (mVal: GoMap, umVal: GoMap, ghost w': Trees)
    requires Three(tgt, am, um, w)
    requires k in w.all.kids ==> w.all.kids[k].HMap?
    modifies am, um
    ensures Three(tgt, am, um, w') && OnlyFieldChanged(w, w', k) && w'.state == w.state
    ensures k in w'.all.kids && Top(w'.all.kids[k]) == SMap(mVal)
    ensures k in w'.upd.kids && Top(w'.upd.kids[k]) == SMap(umVal)
    ensures Value(w'.all.kids[k]) == Obj(SubMap(Value(w.all).m, k))
    ensures Value(w'.upd.kids[k]) == Obj(map[])
    ensures forall x | x in Objs(w'.all) :: x in Objs(w.all) || fresh(x)
    ensures forall x | x in Objs(w'.upd) :: x in Objs(w.upd) || fresh(x)
  {
    hide Objs, Apart, Holds, Value;
    AllAllocated(Region(w));
    Kid(am, w.all, k);
    Kid(um, w.upd, k);
    ghost var a, u;
    mVal, a := SubMeta(am, k, w.all);
    AllAllocated(Objs(a));
    umVal, u := PutEmpty(um, k, w.upd);
    w' := Trees(w.state, a, u);
  }

  /** A map meets a map: merge recursively, and drop the metadata if nothing is left. */
  method MergeSub(k: string, v: Slot, tgt: GoMap, am: GoMap, um: GoMap, now: int, ghost h: Shape, ghost w: Trees)
    returns (ghost w': Trees)
    requires Three(tgt, am, um, w)
    requires v.SMap? && Top(h) == v && Apart(h) && Holds(h)
    requires Objs(h) !! Region(w)
    requires k in w.state.kids && w.state.kids[k].HMap?
    requires k in w.all.kids ==> w.all.kids[k].HMap?
    requires MetaFits(Value(w.state.kids[k]).m, Value(h).m, SubMap(Value(w.all).m, k))
    modifies Objs(w.state), Objs(w.all), Objs(w.upd), Objs(h)
    ensures Three(tgt, am, um, w') && OnlyFieldChanged(w, w', k)
    ensures Entry(w'.state, k) == Some(Obj(MergeMap(Value(w.state.kids[k]).m, Value(h).m)))
    ensures var t, s := Value(w.state.kids[k]).m, Value(h).m;
            && Entry(w'.all, k) == (if MergeMap(t, s) == map[] then None else Some(Obj(MetaMap(t, s, SubMap(Value(w.all).m, k), now))))
            && Entry(w'.upd, k) == (if MergeMap(t, s) == map[] then None else Some(Obj(UpdatedMap(t, s, map[], now))))
    ensures Objs(w'.state) <= Objs(w.state) + Objs(h)
    ensures forall x | x in Objs(w'.all) :: x in Objs(w.all) || fresh(x)
    ensures forall x | x in Objs(w'.upd) :: x in Objs(w.upd) || fresh(x)
    decreases h, 3
  {
    hide Objs, Apart, Holds, HoldsBeside, Value, MergeMap, MetaMap, UpdatedMap, MetaFits, SameBeside;
    Kid(tgt, w.state, k);
    Kid(am, w.all, k);
    Kid(um, w.upd, k);
    AllAllocated(Region(w) + Objs(h));
    var subTgt := tgt.fields[k].o;
    var mVal, umVal, w1 := SubMetas(k, tgt, am, um, w);
    AllAllocated(Region(w1));
    w' := Descend(k, v, tgt, am, um, subTgt, mVal, umVal, now, h, w1);
    OnlyFieldChangedTwice(w, w1, w', k);
    if |subTgt.fields| == 0 {
      Kid(am, w'.all, k);
      Kid(um, w'.upd, k);
      ghost var w2 := w';
      w' := DropMeta(k, tgt, am, um, w2);
      OnlyFieldChangedTwice(w, w2, w', k);
    }
  }

  // ---------- The merge ----------

  /** One field of the patch; d holds the documents the merge started from. */
  method MergeKey(k: string, v: Slot, tgt: GoMap, am: GoMap, um: GoMap, now: int, ghost h: Shape, ghost w: Trees, ghost d: Start)
    returns (ghost w': Trees)
    requires Three(tgt, am, um, w)
    requires Top(h) == v && Apart(h) && Holds(h) && Objs(h) !! Region(w)
    requires k in d.s && d.s[k] == Value(h) && d.now == now
    requires FieldFresh(w, d, k) && MetaFits(d.t, d.s, d.a)
    modifies Region(w), Objs(h)
    ensures Three(tgt, am, um, w') && OnlyFieldChanged(w, w', k)
    ensures FieldDone(w', d, k)
    ensures Objs(w'.state) <= Objs(w.state) + Objs(h)
    ensures forall x | x in Objs(w'.all) :: x in Objs(w.all) || fresh(x)
    ensures forall x | x in Objs(w'.upd) :: x in Objs(w.upd) || fresh(x)
    decreases h, 4
  {
    hide Objs, Apart, Holds, HoldsBeside, Value, MergeMap, MetaMap, UpdatedMap, GenMeta, CleanMap;
    Kid(tgt, w.state, k);
    Kid(am, w.all, k);
    Kid(um, w.upd, k);
    if v == SNull {
      w' := DropField(k, tgt, am, um, w);
    } else {
      if k in tgt.fields {
        if v.SMap? {
          if tgt.fields[k].SMap? {
            EntriesOfValue(w.all);
            if k !in d.a { NoMetaFits(d.t[k].m, d.s[k].m); }
            w' := MergeSub(k, v, tgt, am, um, now, h, w);
          } else {
            w' := StoreMap(k, v, tgt, am, um, now, h, w);
          }
        } else {
          w' := StoreLeaf(k, v, tgt, am, um, now, h, w);
        }
      } else {
        if v.SMap? {
          w' := StoreMap(k, v, tgt, am, um, now, h, w);
        } else {
          w' := StoreLeaf(k, v, tgt, am, um, now, h, w);
        }
      }
    }
  }

  /** A null in the patch deletes the field and its metadata. */
  method DropField(k: string, tgt: GoMap, am: GoMap, um: GoMap, ghost w: Trees) returns (ghost w': Trees)
    requires Three(tgt, am, um, w)
    modifies tgt, am
    ensures w' == Trees(Rest(w.state, k), Rest(w.all, k), w.upd) && Three(tgt, am, um, w')
    ensures OnlyFieldChanged(w, w', k)
    ensures Objs(w'.state) <= Objs(w.state) && Objs(w'.all) <= Objs(w.all)
  {
    hide Objs, Apart, Holds;
    AllAllocated(Region(w));
    Kid(tgt, w.state, k);
    Kid(am, w.all, k);
    Delete(tgt, k, w.state);
    Delete(am, k, w.all);
    w' := Trees(Rest(w.state, k), Rest(w.all, k), w.upd);
  }

  /** The documents a merge starts from. */
  datatype Start = Start(t: JsonMap, s: JsonMap, a: JsonMap, u: JsonMap, now: int)

  ghost predicate FieldDone(w: Trees, d: Start, k: string) {
    && Entry(w.state, k) == MergeField(d.t, d.s, k)
    && Entry(w.all, k) == MetaField(d.t, d.s, d.a, d.now, k)
    && Entry(w.upd, k) == UpdatedField(d.t, d.s, d.u, d.now, k)
  }

  ghost predicate FieldFresh(w: Trees, d: Start, k: string) {
    Entry(w.state, k) == Field(d.t, k) && Entry(w.all, k) == Field(d.a, k) && Entry(w.upd, k) == Field(d.u, k)
  }

  /** The loop of the merge: fields still to do are as they were, all others are merged. */
  ghost predicate Progress(w: Trees, d: Start, todo: set<string>) {
    && (forall k | k in todo :: FieldFresh(w, d, k))
    && (forall k | k !in todo :: FieldDone(w, d, k))
  }

  lemma ProgressStart(w: Trees, hs: Shape, now: int)
    requires w.state.HMap? && w.all.HMap? && w.upd.HMap? && hs.HMap?
    ensures Progress(w, Start(Value(w.state).m, Value(hs).m, Value(w.all).m, Value(w.upd).m, now), hs.kids.Keys)
  {
    hide Value, MergeField, MetaField, UpdatedField;
    EntriesOfValue(hs);
    EntriesOfValue(w.state);
    EntriesOfValue(w.all);
    EntriesOfValue(w.upd);
    UnmentionedFields(Value(w.state).m, Value(hs).m, Value(w.all).m, Value(w.upd).m, now);
  }

  lemma ProgressStep(w: Trees, w': Trees, d: Start, todo: set<string>, k: string)
    requires Progress(w, d, todo) && OnlyFieldChanged(w, w', k) && FieldDone(w', d, k)
    ensures Progress(w', d, todo - {k})
  {
    forall l | l != k
      ensures FieldFresh(w', d, l) <==> FieldFresh(w, d, l)
      ensures FieldDone(w', d, l) <==> FieldDone(w, d, l)
    {
      hide MergeField, MetaField, UpdatedField;
      assert SubShape(w.state, l) == SubShape(w'.state, l);
      assert SubShape(w.all, l) == SubShape(w'.all, l);
      assert SubShape(w.upd, l) == SubShape(w'.upd, l);
    }
  }

  lemma ProgressEnd(w: Trees, d: Start)
    requires w.state.HMap? && w.all.HMap? && w.upd.HMap?
    requires Progress(w, d, {})
    ensures Value(w.state) == Obj(MergeMap(d.t, d.s))
    ensures Value(w.all) == Obj(MetaMap(d.t, d.s, d.a, d.now))
    ensures Value(w.upd) == Obj(UpdatedMap(d.t, d.s, d.u, d.now))
  {
    hide Value, MergeMap, MetaMap, UpdatedMap, MergeField, MetaField, UpdatedField;
    MapsByFields(d.t, d.s, d.a, d.u, d.now);
    forall k: string
      ensures Entry(w.state, k) == Field(MergeMap(d.t, d.s), k)
      ensures Entry(w.all, k) == Field(MetaMap(d.t, d.s, d.a, d.now), k)
      ensures Entry(w.upd, k) == Field(UpdatedMap(d.t, d.s, d.u, d.now), k)
    {
      assert FieldDone(w, d, k);
    }
    ValueByEntries(w.state, MergeMap(d.t, d.s));
    ValueByEntries(w.all, MetaMap(d.t, d.s, d.a, d.now));
    ValueByEntries(w.upd, UpdatedMap(d.t, d.s, d.u, d.now));
  }

  /** doMergeState on a non-nil target: the maps of the patch are handed over to
      the state, all three trees stay apart. */
  method DoMergeState(tgt: GoMap, src: GoMap, am: GoMap, um: GoMap, now: int, ghost hs: Shape, ghost w: Trees)
    returns (ghost w': Trees)
    requires Three(tgt, am, um, w) && Tree(src, hs) && Objs(hs) !! Region(w)
    requires MetaFits(Value(w.state).m, Value(hs).m, Value(w.all).m)
    modifies Region(w), Objs(hs)
    ensures Three(tgt, am, um, w')
    ensures Value(w'.state) == Obj(MergeMap(Value(w.state).m, Value(hs).m))
    ensures Value(w'.all) == Obj(MetaMap(Value(w.state).m, Value(hs).m, Value(w.all).m, now))
    ensures Value(w'.upd) == Obj(UpdatedMap(Value(w.state).m, Value(hs).m, Value(w.upd).m, now))
    ensures Objs(w'.state) <= Objs(w.state) + Objs(hs)
    ensures forall x | x in Objs(w'.all) :: x in Objs(w.all) || fresh(x)
    ensures forall x | x in Objs(w'.upd) :: x in Objs(w.upd) || fresh(x)
    decreases hs, 1
  {
    hide Objs, Apart, Holds, Value, MergeMap, MetaMap, UpdatedMap, MetaFits, FieldDone, FieldFresh, Progress, SameBeside, Three;
    RootsAreMaps(tgt, am, um, w);
    ghost var d := Start(Value(w.state).m, Value(hs).m, Value(w.all).m, Value(w.upd).m, now);
    AllAllocated(Region(w) + Objs(hs));
    Kid(src, hs, "");
    KidsApart(src, hs);
    EntriesOfValue(hs);
    ProgressStart(w, hs, now);
    w' := w;
    var todo := src.fields.Keys;
    ghost var pool := Objs(hs);  // the maps of the patch not yet handed over
    while todo != {}
      invariant todo <= hs.kids.Keys && src.fields == old(src.fields)
      invariant Three(tgt, am, um, w') && Progress(w', d, todo)
      invariant src in pool && pool <= Objs(hs) && pool !! Region(w')
      invariant forall k | k in todo :: Holds(hs.kids[k]) && Objs(hs.kids[k]) <= pool
      invariant Objs(w'.state) <= Objs(w.state) + Objs(hs)
      invariant forall x | x in Objs(w'.all) :: x in Objs(w.all) || fresh(x)
      invariant forall x | x in Objs(w'.upd) :: x in Objs(w.upd) || fresh(x)
    {
      var k :| k in todo;
      pool := pool - Objs(hs.kids[k]);
      ghost var w0 := w';
      NextField(w0, d, todo, k);
      w' := MergeKey(k, src.fields[k], tgt, am, um, now, hs.kids[k], w0, d);
      ProgressStep(w0, w', d, todo, k);
      todo := todo - {k};
    }
    RootsAreMaps(tgt, am, um, w');
    ProgressEnd(w', d);
  }

  lemma NextField(w: Trees, d: Start, todo: set<string>, k: string)
    requires Progress(w, d, todo) && k in todo
    ensures FieldFresh(w, d, k)
  {}

  /** A map variable that may be nil. */
  ghost predicate TreeOrNil(o: GoMap?, h: Shape)
    reads Objs(h)
  {
    if o == null then h == HNull else Tree(o, h)
  }

  method MakeIfNil(o: GoMap?, ghost h: Shape) returns (r: GoMap, ghost h': Shape)
    requires TreeOrNil(o, h)
    ensures Tree(r, h') && Value(h') == Obj(Fields(Value(h)))
    ensures o != null ==> h' == h
    ensures o == null ==> fresh(Objs(h'))
  {
    h' := h;
    if o == null {
      r := new GoMap();
      EmptyTree(r);
      h' := HMap(r, map[]);
    } else {
      r := o;
    }
  }

  /** MergeState.  The patch is copied first, so it stays as it is and shares no
      map with the new state.  A nil target stays nil: the update is lost. */
  method MergeState(tgt: GoMap?, src: GoMap, allMeta: GoMap?, updatedMeta: GoMap?, now: int, ghost hs: Shape, ghost w: Trees)
    returns (am: GoMap, um: GoMap, ghost w': Trees)
    requires Tree(src, hs)
    requires TreeOrNil(tgt, w.state) && TreeOrNil(allMeta, w.all) && TreeOrNil(updatedMeta, w.upd)
    requires Objs(w.state) !! Objs(w.all) && Objs(w.state) !! Objs(w.upd) && Objs(w.all) !! Objs(w.upd)
    requires tgt != null ==> MetaFits(Value(w.state).m, Value(hs).m, Fields(Value(w.all)))
    modifies Region(w)
    ensures TreeOrNil(tgt, w'.state) && Tree(am, w'.all) && Tree(um, w'.upd)
    ensures Objs(w'.state) !! Objs(w'.all) && Objs(w'.state) !! Objs(w'.upd) && Objs(w'.all) !! Objs(w'.upd)
    ensures forall x | x in Region(w') :: x in Region(w) || fresh(x)
    ensures Objs(hs) !! Region(w) ==> Tree(src, hs) && Objs(hs) !! Region(w')  // the patch is as it was, and not shared
    ensures tgt != null ==>
              var t, s := Value(w.state).m, Value(hs).m;
              && Value(w'.state) == Obj(MergeMap(t, s))
              && Value(w'.all) == Obj(MetaMap(t, s, Fields(Value(w.all)), now))
              && Value(w'.upd) == Obj(UpdatedMap(t, s, Fields(Value(w.upd)), now))
    ensures tgt == null ==>
              && Value(w'.all) == Obj(Fields(Value(w.all)))
              && Value(w'.upd) == Obj(Fields(Value(w.upd)) + GenMeta(Value(hs).m, now))
  {
    hide Objs, Apart, Holds, Value, MergeMap, MetaMap, UpdatedMap, MetaFits, GenMeta;
    AllAllocated(Region(w) + Objs(hs));
    var srcCopy, hc := DeepCopy(src, hs);
    AllAllocated(Objs(hc));
    ghost var a, u;
    am, a := MakeIfNil(allMeta, w.all);
    AllAllocated(Objs(a));
    um, u := MakeIfNil(updatedMeta, w.upd);
    AllAllocated(Objs(u));
    if tgt == null {
      BareSlot(HNull);
      Kid(um, u, "");
      u := GenMetaInto(srcCopy, um, now, hc, u);
      w' := Trees(HNull, a, u);
    } else {
      w' := DoMergeState(tgt, srcCopy, am, um, now, hc, Trees(w.state, a, u));
    }
  }
}
