/**
 * What the reported paths of the configuration diff are: the shallowest places where the
 * two trees part, each once, covering every difference (config_applier/safety.py).
 */
module DiffTheorems {
  import opened Basics
  import opened ConfigTree

  function Lookup(v: Value, rel: Path): Option<Value>
    decreases |rel|
  {
    if rel == [] then Some(v) else
      match Child(v, rel[0]) case None => None case Some(c) => Lookup(c, rel[1..])
  }

  /** The two trees part here: present on one side only, different kinds, or unequal scalars. */
  predicate Parts(a: Option<Value>, b: Option<Value>) {
    match (a, b)
    case (None, None) => false
    case (Some(x), Some(y)) =>
      !Containers(x, y) && !(x.Leaf? && y.Leaf? && ScalarEq(x.scalar, y.scalar))
    case _ => true
  }

  predicate PartsAt(was: Value, now: Value, rel: Path) {
    Parts(Lookup(was, rel), Lookup(now, rel))
  }

  /** The trees part at `rel` and nowhere above it. */
  ghost predicate Frontier(was: Value, now: Value, rel: Path) {
    && PartsAt(was, now, rel)
    && forall k :: 0 <= k < |rel| ==> !PartsAt(was, now, rel[..k])
  }

  // ---------------------------------------------------------------------------
  // Membership
  // ---------------------------------------------------------------------------

  lemma {:induction false} InDiffSteps(was: Value, now: Value, segs: seq<Seg>, at: Path, p: Path)
    ensures p in DiffSteps(was, now, segs, at) <==> exists seg :: seg in segs && p in DiffStep(was, now, seg, at)
    decreases |segs|
  {
    if segs != [] {
      var init, last := segs[..|segs| - 1], segs[|segs| - 1];
      InDiffSteps(was, now, init, at, p);
      assert forall seg :: seg in segs <==> seg in init || seg == last;
      assert p in DiffSteps(was, now, segs, at) <==>
        p in DiffSteps(was, now, init, at) || p in DiffStep(was, now, last, at);
      if p in DiffStep(was, now, last, at) {
        assert last in segs;
      }
      if seg :| seg in init && p in DiffStep(was, now, seg, at) {
        assert seg in segs;
      }
    }
  }

  lemma {:induction false} DiffBelow(was: Value, now: Value, at: Path, p: Path)
    requires p in Diff(was, now, at)
    ensures at <= p
    ensures Containers(was, now) ==> |p| > |at| && p[..|at|] == at
    decreases was
  {
    if Containers(was, now) {
      InDiffSteps(was, now, Steps(was, now), at, p);
      var seg :| seg in Steps(was, now) && p in DiffStep(was, now, seg, at);
      StepBelow(was, now, seg, at, p);
    }
  }

  lemma {:induction false} StepBelow(was: Value, now: Value, seg: Seg, at: Path, p: Path)
    requires p in DiffStep(was, now, seg, at)
    ensures at + [seg] <= p
    ensures |p| > |at| && p[|at|] == seg && p[..|at|] == at
    decreases was, 0
  {
    if Child(was, seg).Some? && Child(now, seg).Some? {
      DiffBelow(Child(was, seg).value, Child(now, seg).value, at + [seg], p);
    }
    assert (at + [seg])[..|at|] == at;
  }

  lemma LookupOne(v: Value, rel: Path)
    requires |rel| == 1
    ensures Lookup(v, rel) == Child(v, rel[0])
  {
    assert rel[1..] == [];
    if Child(v, rel[0]).Some? {
      assert Lookup(Child(v, rel[0]).value, []) == Child(v, rel[0]);
    }
  }

  /** Lifting the frontier of a child to its parent. */
  lemma FrontierChild(was: Value, now: Value, rel: Path)
    requires Containers(was, now) && rel != []
    ensures Frontier(was, now, rel) <==>
      match (Child(was, rel[0]), Child(now, rel[0]))
      case (Some(a), Some(b)) => Frontier(a, b, rel[1..])
      case (None, None) => false
      case _ => rel == [rel[0]]
  {
    var seg, rest := rel[0], rel[1..];
    assert !PartsAt(was, now, rel[..0]);
    match (Child(was, seg), Child(now, seg)) {
      case (Some(a), Some(b)) =>
        forall k | 0 <= k < |rest|
          ensures PartsAt(a, b, rest[..k]) == PartsAt(was, now, rel[..k + 1])
        {
          assert rel[..k + 1][1..] == rest[..k];
        }
        if Frontier(a, b, rest) {
          forall k | 0 <= k < |rel|
            ensures !PartsAt(was, now, rel[..k])
          {
            if k > 0 { assert !PartsAt(a, b, rest[..k - 1]); }
          }
        }
        if Frontier(was, now, rel) {
          forall k | 0 <= k < |rest|
            ensures !PartsAt(a, b, rest[..k])
          {
            assert !PartsAt(was, now, rel[..k + 1]);
          }
        }
      case (None, None) =>
      case _ =>
        LookupOne(was, rel[..1]);
        LookupOne(now, rel[..1]);
        assert PartsAt(was, now, rel[..1]);
        if |rel| == 1 { assert rel[..1] == rel; }
        if |rel| > 1 { assert !Frontier(was, now, rel); }
    }
  }

  /**
   * THE DIFF, EXACTLY. A path is reported exactly when the trees part there and nowhere
   * above it; presentation, recursion and shortcuts do not matter.
   */
  lemma {:induction false} DiffIsFrontier(was: Value, now: Value, at: Path, rel: Path)
    ensures at + rel in Diff(was, now, at) <==> Frontier(was, now, rel)
    decreases was
  {
    if !Containers(was, now) {
      OffContainers(was, now, at, rel);
    } else if rel == [] {
      if at + rel in Diff(was, now, at) {
        DiffBelow(was, now, at, at + rel);
      }
    } else {
      var seg, p := rel[0], at + rel;
      FrontierChild(was, now, rel);
      InDiffSteps(was, now, Steps(was, now), at, p);
      StepsCover(was, now, seg);
      if s :| s in Steps(was, now) && p in DiffStep(was, now, s, at) {
        StepBelow(was, now, s, at, p);
        assert s == seg;
      }
      assert p == (at + [seg]) + rel[1..];
      if Child(was, seg).Some? && Child(now, seg).Some? {
        DiffIsFrontier(Child(was, seg).value, Child(now, seg).value, at + [seg], rel[1..]);
      }
    }
  }

  lemma OffContainers(was: Value, now: Value, at: Path, rel: Path)
    requires !Containers(was, now)
    ensures at + rel in Diff(was, now, at) <==> Frontier(was, now, rel)
  {
    if rel == [] {
      assert at + rel == at;
    } else {
      assert at + rel != at;
      if was.Leaf? && now.Leaf? && ScalarEq(was.scalar, now.scalar) {
        assert Child(was, rel[0]).None? && Child(now, rel[0]).None?;
      } else {
        assert PartsAt(was, now, rel[..0]);
      }
    }
  }

  // ---------------------------------------------------------------------------
  // No path twice, none above another
  // ---------------------------------------------------------------------------

  ghost predicate Incomparable(d: seq<Path>) {
    forall i, j :: 0 <= i < j < |d| ==> !(d[i] <= d[j]) && !(d[j] <= d[i])
  }

  lemma {:induction false} StepsIncomparable(was: Value, now: Value, segs: seq<Seg>, at: Path)
    requires Distinct(segs)
    requires forall seg :: seg in segs ==> Incomparable(DiffStep(was, now, seg, at))
    ensures Incomparable(DiffSteps(was, now, segs, at))
    decreases |segs|
  {
    if segs != [] {
      var init, last := segs[..|segs| - 1], segs[|segs| - 1];
      StepsIncomparable(was, now, init, at);
      var l, r := DiffSteps(was, now, init, at), DiffStep(was, now, last, at);
      assert Incomparable(r);
      forall i, j | 0 <= i < |l| && 0 <= j < |r|
        ensures !(l[i] <= r[j]) && !(r[j] <= l[i])
      {
        InDiffSteps(was, now, init, at, l[i]);
        var seg :| seg in init && l[i] in DiffStep(was, now, seg, at);
        StepBelow(was, now, seg, at, l[i]);
        StepBelow(was, now, last, at, r[j]);
        assert l[i][|at|] != r[j][|at|];
      }
    }
  }

  /** Reported paths are pairwise different and none lies under another. */
  lemma {:induction false} DiffIncomparable(was: Value, now: Value, at: Path)
    ensures Incomparable(Diff(was, now, at))
    decreases was
  {
    if Containers(was, now) {
      forall seg | seg in Steps(was, now)
        ensures Incomparable(DiffStep(was, now, seg, at))
      {
        if Child(was, seg).Some? && Child(now, seg).Some? {
          DiffIncomparable(Child(was, seg).value, Child(now, seg).value, at + [seg]);
        }
      }
      StepsCover(was, now, Key(""));
      StepsIncomparable(was, now, Steps(was, now), at);
    }
  }

  lemma PrefixesCompare(p: Path, q: Path, r: Path)
    ensures p <= r && q <= r ==> p <= q || q <= p
  {
  }

  /** Every place where the trees part lies at or under exactly one reported path. */
  lemma {:induction false} DiffCovers(was: Value, now: Value, rel: Path)
    requires PartsAt(was, now, rel)
    ensures exists i :: 0 <= i < |Diff(was, now, [])| && Diff(was, now, [])[i] <= rel
    ensures forall i, j :: 0 <= i < j < |Diff(was, now, [])| ==>
              !(Diff(was, now, [])[i] <= rel && Diff(was, now, [])[j] <= rel)
    decreases |rel|
  {
    var d := Diff(was, now, []);
    DiffIncomparable(was, now, []);
    forall i, j | 0 <= i < j < |d|
      ensures !(d[i] <= rel && d[j] <= rel)
    {
      PrefixesCompare(d[i], d[j], rel);
    }
    if k :| 0 <= k < |rel| && PartsAt(was, now, rel[..k]) {
      DiffCovers(was, now, rel[..k]);
      var i :| 0 <= i < |d| && d[i] <= rel[..k];
      assert d[i] <= rel;
    } else {
      DiffIsFrontier(was, now, [], rel);
      assert [] + rel == rel;
      assert rel in d;
    }
  }

  // ---------------------------------------------------------------------------
  // What an acceptable diff leaves fixed
  // ---------------------------------------------------------------------------

  lemma DiffOfChild(was: Value, now: Value, seg: Seg, at: Path, p: Path)
    requires Containers(was, now) && p in DiffStep(was, now, seg, at)
    ensures p in Diff(was, now, at)
  {
    StepsCover(was, now, seg);
    InDiffSteps(was, now, Steps(was, now), at, p);
  }

  /** If every reported path may be dropped, the trees agree once those are erased. */
  lemma {:induction false} DroppedDiffErases(drop: Path -> bool, was: Value, now: Value, at: Path)
    requires !drop(at) && forall p :: p in Diff(was, now, at) ==> drop(p)
    ensures Erase(drop, at, was) == Erase(drop, at, now)
    decreases was
  {
    if !Containers(was, now) {
      assert at !in Diff(was, now, at);
    } else {
      var a, b := Erase(drop, at, was), Erase(drop, at, now);
      forall seg
        ensures seg in a.kids <==> seg in b.kids
        ensures seg in a.kids ==> a.kids[seg] == b.kids[seg]
      {
        SegsAreChildren(was, seg);
        SegsAreChildren(now, seg);
        if seg in a.kids || seg in b.kids {
          ChildErases(drop, was, now, at, seg);
        }
      }
      assert a.kids == b.kids;
    }
  }

  lemma {:induction false} ChildErases(drop: Path -> bool, was: Value, now: Value, at: Path, seg: Seg)
    requires Containers(was, now) && !drop(at + [seg])
    requires forall p :: p in Diff(was, now, at) ==> drop(p)
    ensures match (Child(was, seg), Child(now, seg))
      case (Some(a), Some(b)) => Erase(drop, at + [seg], a) == Erase(drop, at + [seg], b)
      case (None, None) => true
      case _ => false
    decreases was, 0
  {
    forall p | p in DiffStep(was, now, seg, at)
      ensures drop(p)
    {
      DiffOfChild(was, now, seg, at, p);
    }
    var one := DiffStep(was, now, seg, at);
    assert one == [at + [seg]] ==> at + [seg] in one;
    if Child(was, seg).Some? && Child(now, seg).Some? {
      DroppedDiffErases(drop, Child(was, seg).value, Child(now, seg).value, at + [seg]);
    }
  }

  /** Dropping whole subtrees only: what is below a dropped path is dropped too. */
  ghost predicate Hereditary(drop: Path -> bool) {
    forall p, q :: drop(p) && p <= q ==> drop(q)
  }

  /** And conversely, when whole subtrees are dropped. */
  lemma {:induction false} ErasedAlikeDropsDiff(drop: Path -> bool, was: Value, now: Value, at: Path, p: Path)
    requires Hereditary(drop) && Erase(drop, at, was) == Erase(drop, at, now)
    requires p in Diff(was, now, at)
    ensures drop(p)
    decreases was
  {
    if Containers(was, now) {
      InDiffSteps(was, now, Steps(was, now), at, p);
      var seg :| seg in Steps(was, now) && p in DiffStep(was, now, seg, at);
      StepBelow(was, now, seg, at, p);
      SegsAreChildren(was, seg);
      SegsAreChildren(now, seg);
      if !drop(at + [seg]) {
        var a, b := Erase(drop, at, was), Erase(drop, at, now);
        assert seg in a.kids <==> seg in b.kids;
        if Child(was, seg).Some? && Child(now, seg).Some? {
          assert a.kids[seg] == b.kids[seg];
          ErasedAlikeDropsDiff(drop, Child(was, seg).value, Child(now, seg).value, at + [seg], p);
        }
      }
    }
  }

  /** THE FRAME. The diff is acceptable exactly when the erased trees are equal. */
  lemma DiffFrame(drop: Path -> bool, was: Value, now: Value)
    requires Hereditary(drop) && !drop([])
    ensures (forall p :: p in Diff(was, now, []) ==> drop(p)) <==>
            Erase(drop, [], was) == Erase(drop, [], now)
  {
    if Erase(drop, [], was) == Erase(drop, [], now) {
      forall p | p in Diff(was, now, [])
        ensures drop(p)
      {
        ErasedAlikeDropsDiff(drop, was, now, [], p);
      }
    } else if forall p :: p in Diff(was, now, []) ==> drop(p) {
      DroppedDiffErases(drop, was, now, []);
    }
  }

  /** No path is reported exactly when the two configurations are equal. */
  lemma NoDiffIffEqual(was: Value, now: Value)
    ensures Diff(was, now, []) == [] <==> Image(was) == Image(now)
  {
    DiffFrame(Nothing(), was, now);
    if Diff(was, now, []) != [] {
      assert Diff(was, now, [])[0] in Diff(was, now, []);
    }
  }
}
