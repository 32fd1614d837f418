/** Mutable string-keyed maps in the heap, as Go's map[string]any, and trees of
    such maps.

    A ghost Shape is a JSON tree that also names the map object at each inner
    node.  It turns the heap into a value: Holds(h) says that the heap currently
    looks like h, Apart(h) that no map occurs twice in h, Value(h) is the JSON
    document h spells. */
module GoMaps {
  import opened Json
  import opened Options

  /** What a slot of a map holds: nil, a scalar (arrays included), or a map. */
  datatype Slot = SNull | SLeaf(v: Scalar) | SMap(o: GoMap)

  class GoMap {
    var fields: map<string, Slot>

    constructor ()
      ensures fields == map[]
    {
      fields := map[];
    }
  }

  datatype Shape = HNull | HLeaf(v: Scalar) | HMap(o: GoMap, kids: map<string, Shape>)

  function Top(h: Shape): Slot {
    match h
    case HNull => SNull
    case HLeaf(v) => SLeaf(v)
    case HMap(o, _) => SMap(o)
  }

  function Value(h: Shape): (j: Json)
    ensures h.HNull? <==> j.Null?
    ensures h.HMap? <==> j.Obj?
  {
    match h
    case HNull => Null
    case HLeaf(v) => Leaf(v)
    case HMap(_, kids) => Obj(map k | k in kids :: Value(kids[k]))
  }

  /** All map objects of the tree. */
  ghost function Objs(h: Shape): set<GoMap> {
    match h
    case HMap(o, kids) => {o} + set k, x | k in kids && x in Objs(kids[k]) :: x
    case _ => {}
  }

  ghost predicate Apart(h: Shape) {
    match h
    case HMap(o, kids) =>
      && (forall k | k in kids :: o !in Objs(kids[k]) && Apart(kids[k]))
      && (forall k, l | k in kids && l in kids && k != l :: Objs(kids[k]) !! Objs(kids[l]))
    case _ => true
  }

  ghost predicate Holds(h: Shape)
    reads Objs(h)
  {
    match h
    case HMap(o, kids) =>
      && o.fields.Keys == kids.Keys
      && forall k | k in kids :: o.fields[k] == Top(kids[k]) && Holds(kids[k])
    case _ => true
  }

  /** Map o is the root of the unshared tree h. */
  ghost predicate Tree(o: GoMap, h: Shape)
    reads Objs(h)
  {
    h.HMap? && h.o == o && Apart(h) && Holds(h)
  }

  /** Making and taking apart trees, without unfolding their definitions. */
  lemma EmptyTree(o: GoMap)
    requires o.fields == map[]
    ensures Tree(o, HMap(o, map[])) && Objs(HMap(o, map[])) == {o}
    ensures Value(HMap(o, map[])) == Obj(map[])
  {}

  lemma KidsApart(o: GoMap, h: Shape)
    requires Tree(o, h)
    ensures forall k | k in h.kids :: Apart(h.kids[k]) && Holds(h.kids[k]) && Objs(h.kids[k]) <= Objs(h) - {o}
    ensures o.fields.Keys == h.kids.Keys && forall k | k in h.kids :: o.fields[k] == Top(h.kids[k])
    ensures forall k, l | k in h.kids && l in h.kids && k != l :: Objs(h.kids[k]) !! Objs(h.kids[l])
  {}

  lemma BareSlot(h: Shape)
    requires !h.HMap?
    ensures Objs(h) == {} && Apart(h) && Holds(h)
  {}

  lemma Kid(o: GoMap, h: Shape, k: string)
    requires Tree(o, h)
    ensures o in Objs(h) && o.fields.Keys == h.kids.Keys
    ensures k in h.kids ==>
              && o.fields[k] == Top(h.kids[k])
              && Apart(h.kids[k]) && Holds(h.kids[k])
              && Objs(h.kids[k]) <= Objs(h) - {o}
  {}

  /** The entry of the root map under a key, as a document. */
  ghost function Entry(h: Shape, k: string): Option<Json> {
    match SubShape(h, k)
    case None => None
    case Some(x) => Some(Value(x))
  }

  ghost function SubShape(h: Shape, k: string): Option<Shape> {
    if h.HMap? && k in h.kids then Some(h.kids[k]) else None
  }

  lemma EntriesOfValue(h: Shape)
    requires h.HMap?
    ensures Value(h).m.Keys == h.kids.Keys
    ensures forall k | k in h.kids :: Value(h).m[k] == Value(h.kids[k])
    ensures forall k: string :: Entry(h, k) == Field(Value(h).m, k)
  {}

  lemma ValueByEntries(h: Shape, m: JsonMap)
    requires h.HMap? && forall k: string :: Entry(h, k) == Field(m, k)
    ensures Value(h) == Obj(m)
  {
    assert forall k :: k in h.kids <==> Field(m, k).Some?;
  }

  /** The tree without its subtree under k. */
  ghost function Rest(h: Shape, k: string): Shape
    requires h.HMap?
  {
    HMap(h.o, h.kids - {k})
  }

  /** The heap looks like h everywhere but in the subtree under k. */
  ghost predicate HoldsBeside(h: Shape, k: string)
    requires h.HMap?
    reads Objs(Rest(h, k))
  {
    && h.o.fields.Keys == h.kids.Keys
    && forall l | l in h.kids && l != k :: l in Rest(h, k).kids && h.o.fields[l] == Top(h.kids[l]) && Holds(h.kids[l])
  }

  ghost function Graft(h: Shape, k: string, sub: Shape): Shape
    requires h.HMap?
  {
    HMap(h.o, h.kids[k := sub])
  }

  lemma GraftObjs(p: Shape, k: string, h: Shape)
    requires p.HMap?
    ensures Objs(Graft(p, k, h)) == Objs(Rest(p, k)) + Objs(h)
    ensures Objs(Rest(p, k)) <= Objs(p)
  {
    var q := Graft(p, k, h);
    forall x | x in Objs(q) ensures x in Objs(Rest(p, k)) + Objs(h) {
      if x != p.o {
        var l :| l in q.kids && x in Objs(q.kids[l]);
        if l != k { assert l in Rest(p, k).kids; }
      }
    }
    forall x | x in Objs(Rest(p, k)) + Objs(h) ensures x in Objs(q) {
      if x in Objs(h) {
        assert q.kids[k] == h;
      } else if x != p.o {
        var l :| l in p.kids - {k} && x in Objs(p.kids[l]);
        assert q.kids[l] == p.kids[l];
      }
    }
  }

  lemma KidObjs(p: Shape, l: string)
    requires p.HMap? && l in p.kids
    ensures Objs(p.kids[l]) <= Objs(p)
  {}

  lemma GraftApart(p: Shape, k: string, h: Shape)
    requires p.HMap? && Apart(p) && Apart(h) && Objs(Rest(p, k)) !! Objs(h)
    ensures Apart(Graft(p, k, h))
  {
    var q := Graft(p, k, h);
    forall l | l in q.kids && l != k ensures Objs(q.kids[l]) !! Objs(h) {
      KidObjs(Rest(p, k), l);
    }
  }

  /** A subtree can be lent out to be changed ... */
  lemma Lend(o: GoMap, p: Shape, k: string)
    requires Tree(o, p) && k in p.kids
    ensures HoldsBeside(p, k) && o.fields[k] == Top(p.kids[k]) && o in Objs(Rest(p, k))
    ensures Apart(p.kids[k]) && Holds(p.kids[k])
    ensures Objs(p) == Objs(Rest(p, k)) + Objs(p.kids[k]) && Objs(Rest(p, k)) !! Objs(p.kids[k])
  {
    GraftObjs(p, k, p.kids[k]);
    assert Graft(p, k, p.kids[k]) == p;
  }

  /** ... and what it has become can be put back. */
  lemma Regraft(o: GoMap, p: Shape, k: string, h: Shape)
    requires p.HMap? && p.o == o && k in p.kids && Apart(p)
    requires HoldsBeside(p, k) && o.fields[k] == Top(h)
    requires Apart(h) && Holds(h) && Objs(Rest(p, k)) !! Objs(h)
    ensures Tree(o, Graft(p, k, h))
  {
    hide Objs, Apart;
    GraftApart(p, k, h);
  }

  lemma AllAllocated(s: set<GoMap>)
    ensures forall x | x in s :: allocated(x)
  {}

  /** m[k] = v, where v is the top of a tree apart from that of m. */
  method Put(o: GoMap, k: string, v: Slot, ghost p: Shape, ghost h: Shape)
    requires Tree(o, p)
    requires Apart(h) && Holds(h) && Top(h) == v && Objs(h) !! Objs(p)
    modifies o
    ensures Tree(o, Graft(p, k, h))
    ensures Objs(Graft(p, k, h)) <= Objs(p) + Objs(h)
  {
    o.fields := o.fields[k := v];
  }

  /** delete(m, k) */
  method Delete(o: GoMap, k: string, ghost p: Shape)
    requires Tree(o, p)
    modifies o
    ensures Tree(o, Rest(p, k))
    ensures Objs(Rest(p, k)) <= Objs(p)
  {
    o.fields := o.fields - {k};
  }

  /** DeepCopyMap: a fresh tree with the same document. */
  method DeepCopy(src: GoMap, ghost h: Shape) returns (r: GoMap, ghost c: Shape)
    requires Tree(src, h)
    ensures Tree(r, c) && fresh(Objs(c))
    ensures Value(c) == Value(h)
    decreases h, 1
  {
    hide Objs, Apart, Holds;
    AllAllocated(Objs(h));
    Kid(src, h, "");
    r := new GoMap();
    EmptyTree(r);
    c := HMap(r, map[]);
    var todo := src.fields.Keys;
    while todo != {}
      invariant todo <= h.kids.Keys
      invariant Tree(src, h) && r !in Objs(h)
      invariant Tree(r, c) && fresh(Objs(c))
      invariant c.kids.Keys == h.kids.Keys - todo
      invariant forall k | k in c.kids :: Value(c.kids[k]) == Value(h.kids[k])
    {
      var k :| k in todo;
      todo := todo - {k};
      Kid(src, h, k);
      c := CopyField(src.fields[k], r, k, h.kids[k], c);
    }
  }

  method CopyField(v: Slot, r: GoMap, k: string, ghost h: Shape, ghost c: Shape) returns (ghost c': Shape)
    requires Top(h) == v && Apart(h) && Holds(h)
    requires Tree(r, c)
    modifies r
    ensures Tree(r, c') && (forall x | x in Objs(c') :: x in Objs(c) || fresh(x))
    ensures exists w :: c'.kids == c.kids[k := w] && Value(w) == Value(h)
    decreases h, 3
  {
    AllAllocated(Objs(c));
    var w, wc := CopySlot(v, h);
    Put(r, k, w, c, wc);
    c' := HMap(r, c.kids[k := wc]);
  }

  method CopySlot(v: Slot, ghost h: Shape) returns (w: Slot, ghost c: Shape)
    requires Top(h) == v && Apart(h) && Holds(h)
    ensures Top(c) == w && Apart(c) && Holds(c) && fresh(Objs(c))
    ensures Value(c) == Value(h)
    decreases h, 2
  {
    match v
    case SMap(o) =>
      var r;
      r, c := DeepCopy(o, h);
      w := SMap(r);
    case _ =>
      w, c := v, h;
  }

  /** json.Unmarshal of an object: a fresh tree of maps. */
  method FromJson(m: JsonMap) returns (o: GoMap, ghost h: Shape)
    ensures Tree(o, h) && fresh(Objs(h)) && Value(h) == Obj(m)
    decreases Obj(m), 0
  {
    hide Objs, Apart, Holds, Value;
    o := new GoMap();
    EmptyTree(o);
    h := HMap(o, map[]);
    EntriesOfValue(h);
    var todo := m.Keys;
    while todo != {}
      invariant todo <= m.Keys
      invariant Tree(o, h) && fresh(Objs(h))
      invariant forall k :: Entry(h, k) == if k in todo then None else Field(m, k)
    {
      var k :| k in todo;
      todo := todo - {k};
      AllAllocated(Objs(h));
      var v, hv := SlotFromJson(m[k]);
      Put(o, k, v, h, hv);
      ghost var h0 := h;
      h := Graft(h0, k, hv);
      assert forall l | l != k :: SubShape(h, l) == SubShape(h0, l);
    }
    ValueByEntries(h, m);
  }

  method SlotFromJson(j: Json) returns (v: Slot, ghost h: Shape)
    ensures Top(h) == v && Apart(h) && Holds(h) && fresh(Objs(h)) && Value(h) == j
    decreases j, 1
  {
    match j
    case Null =>
      v, h := SNull, HNull;
    case Leaf(x) =>
      v, h := SLeaf(x), HLeaf(x);
    case Obj(m) =>
      var o;
      o, h := FromJson(m);
      v := SMap(o);
  }

  /** json.Marshal of a tree of maps. */
  method ToJson(o: GoMap, ghost h: Shape) returns (m: JsonMap)
    requires Tree(o, h)
    ensures Obj(m) == Value(h)
    decreases h, 0
  {
    hide Objs, Apart, Holds, Value;
    m := map[];
    AllAllocated(Objs(h));
    Kid(o, h, "");
    EntriesOfValue(h);
    var todo := o.fields.Keys;
    while todo != {}
      invariant todo <= h.kids.Keys && Tree(o, h)
      invariant m.Keys == h.kids.Keys - todo
      invariant forall k | k in m :: m[k] == Value(h.kids[k])
    {
      var k :| k in todo;
      todo := todo - {k};
      Kid(o, h, k);
      var j := SlotToJson(o.fields[k], h.kids[k]);
      m := m[k := j];
    }
    ValueByEntries(h, m);
  }

  method SlotToJson(v: Slot, ghost h: Shape) returns (j: Json)
    requires Top(h) == v && Apart(h) && Holds(h)
    ensures j == Value(h)
    decreases h, 1
  {
    match v
    case SNull => j := Null;
    case SLeaf(x) => j := Leaf(x);
    case SMap(o) =>
      var m := ToJson(o, h);
      j := Obj(m);
  }
}
