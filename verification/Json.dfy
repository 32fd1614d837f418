/** JSON documents as the shadow keeps them, and their leaf-level view.

    An array counts as a scalar: the merge and the delta replace and compare it
    as a whole.  A metadata tree is an ordinary JSON tree; a time stamp is the
    object {"timestamp": n}. */
module Json {
  import opened Options

  datatype Scalar = Bool(b: bool) | Num(n: real) | Str(s: string) | Arr(elems: seq<Json>)
  datatype Json = Null | Leaf(v: Scalar) | Obj(m: JsonMap)

  type JsonMap = map<string, Json>
  type Path = seq<string>

  /** The value under a key; a missing key reads as null, as a Go map lookup does. */
  function Get(m: JsonMap, k: string): Json {
    if k in m then m[k] else Null
  }

  /** The fields of an object; nothing else has any. */
  function Fields(j: Json): JsonMap {
    if j.Obj? then j.m else map[]
  }

  function Field(m: JsonMap, k: string): Option<Json> {
    if k in m then Some(m[k]) else None
  }

  /** The fields of the object under a key, or no fields at all. */
  function SubMap(m: JsonMap, k: string): JsonMap {
    if k in m && m[k].Obj? then m[k].m else map[]
  }

  /** The non-null scalar that sits exactly at path p, if there is one. */
  function LeafAt(j: Json, p: Path): Option<Scalar> {
    if p == [] then
      if j.Leaf? then Some(j.v) else None
    else if j.Obj? && p[0] in j.m then LeafAt(j.m[p[0]], p[1..])
    else None
  }

  const TIMESTAMP: string := "timestamp"

  function Millis(now: int): Scalar { Num(now as real) }

  function Stamp(now: int): Json { Obj(map[TIMESTAMP := Leaf(Millis(now))]) }

  predicate IsStamp(j: Json) {
    j.Obj? && j.m.Keys == {TIMESTAMP} && j.m[TIMESTAMP].Leaf?
  }

  /** The time stamp that a metadata tree carries exactly at path p. */
  function StampAt(j: Json, p: Path): Option<Scalar> {
    if p == [] then
      if IsStamp(j) then Some(j.m[TIMESTAMP].v) else None
    else if j.Obj? && p[0] in j.m then StampAt(j.m[p[0]], p[1..])
    else None
  }

  lemma NoStampInsideStamp(j: Json, p: Path)
    requires IsStamp(j) && p != []
    ensures StampAt(j, p) == None
  {
    if p[0] == TIMESTAMP {
      assert StampAt(j.m[TIMESTAMP], p[1..]) == None;
    }
  }

  /** No leaf anywhere below. */
  ghost predicate Leafless(j: Json) {
    match j
    case Null => true
    case Leaf(_) => false
    case Obj(m) => forall k | k in m :: Leafless(m[k])
  }

  lemma {:induction false} LeaflessHasNoLeaf(j: Json, p: Path)
    requires Leafless(j)
    ensures LeafAt(j, p) == None
  {
    if p != [] && j.Obj? && p[0] in j.m {
      LeaflessHasNoLeaf(j.m[p[0]], p[1..]);
    }
  }

  /** A value that is not leafless has a path to a leaf. */
  lemma {:induction false} LeafWitness(j: Json) returns (p: Path)
    requires !Leafless(j)
    ensures LeafAt(j, p).Some?
  {
    match j
    case Leaf(_) => p := [];
    case Obj(m) =>
      var k :| k in m && !Leafless(m[k]);
      var q := LeafWitness(m[k]);
      p := [k] + q;
      assert p[1..] == q;
  }
}
