/**
 * Parsed configuration trees and the diff of two of them (config_applier/safety.py).
 * A mapping is its entries in document order; looking a key up finds the first.
 */
module ConfigTree {
  import opened Basics
  import opened TextOrder

  datatype Scalar = Null | Bool(b: bool) | Num(value: real) | Str(s: string)

  datatype Entry = Entry(key: string, value: Value)

  datatype Value = Leaf(scalar: Scalar) | Listing(items: seq<Value>) | Mapping(entries: seq<Entry>)

  /** One step into a tree. */
  datatype Seg = Key(name: string) | Index(n: nat)

  type Path = seq<Seg>

  /** Python's `==` on scalars: true is 1, and 1 is 1.0. */
  function Plain(s: Scalar): Scalar {
    if s.Bool? then Num(if s.b then 1.0 else 0.0) else s
  }

  predicate ScalarEq(a: Scalar, b: Scalar) {
    Plain(a) == Plain(b)
  }

  function Find(es: seq<Entry>, k: string): (r: Option<nat>)
    ensures r.Some? ==> r.value < |es| && es[r.value].key == k
    ensures r.None? ==> forall e :: e in es ==> e.key != k
  {
    if es == [] then None
    else if es[0].key == k then Some(0)
    else match Find(es[1..], k) case None => None case Some(i) => Some(i + 1)
  }

  /** The subtree one step down, if there is one. */
  function Child(v: Value, seg: Seg): (r: Option<Value>)
    ensures r.Some? ==> r.value < v
  {
    match (v, seg)
    case (Mapping(es), Key(k)) =>
      (match Find(es, k)
       case None => None
       case Some(i) => assert es[i] in es; Some(es[i].value))
    case (Listing(items), Index(i)) => if i < |items| then Some(items[i]) else None
    case _ => None
  }

  function Keys(es: seq<Entry>): set<string> {
    set e | e in es :: e.key
  }

  function Segs(v: Value): set<Seg> {
    match v
    case Leaf(_) => {}
    case Listing(items) => set i: nat | i < |items| :: Index(i)
    case Mapping(es) => set e | e in es :: Key(e.key)
  }

  lemma SegsAreChildren(v: Value, seg: Seg)
    ensures seg in Segs(v) <==> Child(v, seg).Some?
  {
  }

  predicate Containers(a: Value, b: Value) {
    (a.Mapping? && b.Mapping?) || (a.Listing? && b.Listing?)
  }

  // ---------------------------------------------------------------------------
  // Trees up to Python equality, with some subtrees erased
  // ---------------------------------------------------------------------------

  datatype Tree = Tip(scalar: Scalar) | Node(isList: bool, kids: map<Seg, Tree>)

  /** The tree with every subtree at a path satisfying `drop` left out. */
  function Erase(drop: Path -> bool, at: Path, v: Value): Tree
    decreases v
  {
    match v
    case Leaf(s) => Tip(Plain(s))
    case _ =>
      Node(v.Listing?, map seg | seg in Segs(v) && !drop(at + [seg]) ::
        (SegsAreChildren(v, seg); Erase(drop, at + [seg], Child(v, seg).value)))
  }

  function Nothing(): Path -> bool {
    (p: Path) => false
  }

  /** What `==` sees of a tree: equal images are equal configurations. */
  function Image(v: Value): Tree {
    Erase(Nothing(), [], v)
  }

  // ---------------------------------------------------------------------------
  // The diff
  // ---------------------------------------------------------------------------

  /** The steps `_diff_mappings` and `_diff_lists` go through, in their order. */
  ghost function Steps(was: Value, now: Value): seq<Seg>
    requires Containers(was, now)
  {
    if was.Mapping? then
      var ks := Sorted(Keys(was.entries) + Keys(now.entries));
      seq(|ks|, i requires 0 <= i < |ks| => Key(ks[i]))
    else
      var n := if |was.items| >= |now.items| then |was.items| else |now.items|;
      seq(n, i requires 0 <= i < n => Index(i))
  }

  lemma StepsCover(was: Value, now: Value, seg: Seg)
    requires Containers(was, now)
    ensures seg in Steps(was, now) <==> Child(was, seg).Some? || Child(now, seg).Some?
    ensures Distinct(Steps(was, now))
  {
    SegsAreChildren(was, seg);
    SegsAreChildren(now, seg);
    if was.Mapping? {
      var ks := Sorted(Keys(was.entries) + Keys(now.entries));
      SortedMembers(Keys(was.entries) + Keys(now.entries));
      if seg.Key? && seg.name in ks {
        var i :| 0 <= i < |ks| && ks[i] == seg.name;
        assert Steps(was, now)[i] == seg;
      }
    } else if seg.Index? && seg in Segs(was) + Segs(now) {
      assert Steps(was, now)[seg.n] == seg;
    }
  }

  /** The changed paths below `at`, in report order. */
  ghost function Diff(was: Value, now: Value, at: Path): seq<Path>
    decreases was, 1, 0
  {
    if Containers(was, now) then DiffSteps(was, now, Steps(was, now), at)
    else if was.Leaf? && now.Leaf? && ScalarEq(was.scalar, now.scalar) then []
    else [at]
  }

  ghost function DiffSteps(was: Value, now: Value, segs: seq<Seg>, at: Path): seq<Path>
    decreases was, 0, |segs|
  {
    if segs == [] then [] else
      DiffSteps(was, now, segs[..|segs| - 1], at) + DiffStep(was, now, segs[|segs| - 1], at)
  }

  ghost function DiffStep(was: Value, now: Value, seg: Seg, at: Path): seq<Path>
    decreases was, 0, 0
  {
    match (Child(was, seg), Child(now, seg))
    case (Some(a), Some(b)) => Diff(a, b, at + [seg])
    case (None, None) => []
    case _ => [at + [seg]]
  }
}
