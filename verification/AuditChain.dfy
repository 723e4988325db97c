/**
 * `verify_chain` (shared/audit_chain.py): what it reports, as functions of the export,
 * and the method that computes it with two dictionaries and a link-following walk.
 */
module AuditChain {
  import opened Basics
  import opened CanonicalRow

  /** One exported row: the twelve contract columns and the two chain columns. */
  datatype Row = Row(fields: Fields, prev: Field, hash: Field)

  function IdText(r: Row): string {
    match r.fields[0] case None => "None" case Some(t) => t
  }

  function Parent(r: Row): string {
    match r.prev case None => "" case Some(p) => p
  }

  function Hash(r: Row): string {
    match r.hash case None => "" case Some(h) => h
  }

  predicate IsLegacy(r: Row) {
    r.hash.None? && r.prev.None?
  }

  /** The source raises on a chained row whose parent text is empty. */
  predicate Raises(r: Row) {
    r.hash.Some? && r.prev == Some("")
  }

  /** A row that carries both chain columns and rehashes to its own `row_hash`. */
  predicate IsIntact(sha: Digest, r: Row) {
    r.hash.Some? && r.prev.Some? && ComputeRowHash(sha, r.prev.value, r.fields) == r.hash
  }

  datatype Break =
    | HalfChained(id: string)
    | Mutated(id: string)
    | NoStart
    | ExtraStart(id: string)
    | Unanchored(id: string)
    | Fork(id: string)
    | Unreachable(count: int)

  datatype Report = Report(ok: bool, chained: nat, legacy: nat, head: Option<string>, breaks: seq<Break>)

  /** Raised stands for the ValueError of `compute_row_hash`. */
  datatype Outcome = Raised | Done(report: Report)

  // ---------------------------------------------------------------------------
  // The first pass: sorting the rows
  // ---------------------------------------------------------------------------

  function Intact(sha: Digest, rows: seq<Row>): seq<Row> {
    Filter(rows, (r: Row) => IsIntact(sha, r))
  }

  function Chained(rows: seq<Row>): seq<Row> {
    Filter(rows, (r: Row) => !IsLegacy(r))
  }

  function Legacy(rows: seq<Row>): seq<Row> {
    Filter(rows, IsLegacy)
  }

  function Anchors(sha: Digest, rows: seq<Row>): set<string> {
    set r | r in rows && IsLegacy(r) :: LegacyAnchor(sha, Some(IdText(r)))
  }

  function RowBreak(sha: Digest, r: Row): seq<Break> {
    if IsLegacy(r) || IsIntact(sha, r) then []
    else if r.hash.None? || r.prev.None? then [HalfChained(IdText(r))]
    else [Mutated(IdText(r))]
  }

  function RowBreaks(sha: Digest, rows: seq<Row>): seq<Break> {
    if rows == [] then [] else
      RowBreaks(sha, rows[..|rows| - 1]) + RowBreak(sha, rows[|rows| - 1])
  }

  // ---------------------------------------------------------------------------
  // The dictionaries over the intact rows
  // ---------------------------------------------------------------------------

  function Hashes(acc: seq<Row>): set<string> {
    set r | r in acc :: Hash(r)
  }

  /** `by_prev[p]`: the rows naming parent `p`, in input order. */
  function Kids(acc: seq<Row>, p: string): seq<Row> {
    Filter(acc, (r: Row) => Parent(r) == p)
  }

  /** The keys of `by_prev` in insertion order. */
  function Parents(acc: seq<Row>): seq<string> {
    if acc == [] then [] else
      var ps := Parents(acc[..|acc| - 1]);
      var p := Parent(acc[|acc| - 1]);
      if p in ps then ps else ps + [p]
  }

  predicate IsRoot(acc: seq<Row>, p: string) {
    p == GENESIS || p !in Hashes(acc)
  }

  function StartsFrom(acc: seq<Row>, ps: seq<string>): seq<Row> {
    if ps == [] then [] else
      StartsFrom(acc, ps[..|ps| - 1]) +
      (if IsRoot(acc, ps[|ps| - 1]) then Kids(acc, ps[|ps| - 1]) else [])
  }

  function Starts(acc: seq<Row>): seq<Row> {
    StartsFrom(acc, Parents(acc))
  }

  function ExtraStarts(rows: seq<Row>): (bs: seq<Break>)
    ensures |bs| == |rows|
  {
    if rows == [] then [] else [ExtraStart(IdText(rows[0]))] + ExtraStarts(rows[1..])
  }

  function Forks(rows: seq<Row>): (bs: seq<Break>)
    ensures |bs| == |rows|
  {
    if rows == [] then [] else [Fork(IdText(rows[0]))] + Forks(rows[1..])
  }

  function StartBreaks(sha: Digest, rows: seq<Row>, acc: seq<Row>): seq<Break> {
    var starts := Starts(acc);
    (if acc != [] && starts == [] then [NoStart] else []) +
    (if |starts| > 1 then ExtraStarts(starts[1..]) else []) +
    (if starts != [] && Parent(starts[0]) != GENESIS && Parent(starts[0]) !in Anchors(sha, rows)
     then [Unanchored(IdText(starts[0]))] else [])
  }

  // ---------------------------------------------------------------------------
  // The walk
  // ---------------------------------------------------------------------------

  /** The first `n` rows met when following links from `r`. */
  function Trail(acc: seq<Row>, r: Row, n: nat): (w: seq<Row>)
    ensures |w| <= n
    decreases n
  {
    if n == 0 then []
    else if Kids(acc, Hash(r)) == [] then [r]
    else [r] + Trail(acc, Kids(acc, Hash(r))[0], n - 1)
  }

  /** The walk from the first start comes to an end. */
  ghost predicate WalkEnds(acc: seq<Row>) {
    Starts(acc) != [] ==> exists n: nat :: |Trail(acc, Starts(acc)[0], n)| < n
  }

  /** The rows the walk visits, in order. */
  ghost function Walk(acc: seq<Row>): seq<Row>
    requires WalkEnds(acc)
  {
    if Starts(acc) == [] then [] else
      var n: nat :| |Trail(acc, Starts(acc)[0], n)| < n;
      Trail(acc, Starts(acc)[0], n)
  }

  function ForkBreaks(acc: seq<Row>, walk: seq<Row>): seq<Break> {
    if walk == [] then [] else
      var kids := Kids(acc, Hash(walk[|walk| - 1]));
      ForkBreaks(acc, walk[..|walk| - 1]) +
      (if |kids| > 1 then Forks(kids[1..]) else [])
  }

  function ReachBreaks(acc: seq<Row>, walk: seq<Row>): seq<Break> {
    var unreached := |Hashes(acc)| - |walk|;
    if unreached > 0 then [Unreachable(unreached)] else []
  }

  predicate SomeRaises(rows: seq<Row>) {
    exists r :: r in rows && Raises(r)
  }

  /** `verify_chain` returns: it raises in its first pass, or its walk comes to an end. */
  ghost predicate Terminates(sha: Digest, rows: seq<Row>) {
    SomeRaises(rows) || WalkEnds(Intact(sha, rows))
  }

  /** What `verify_chain` reports, column by column. */
  ghost function Verify(sha: Digest, rows: seq<Row>): Outcome
    requires Terminates(sha, rows)
  {
    if SomeRaises(rows) then Raised else
      var acc := Intact(sha, rows);
      var walk := Walk(acc);
      var breaks := RowBreaks(sha, rows) + StartBreaks(sha, rows, acc) +
                    ForkBreaks(acc, walk) + ReachBreaks(acc, walk);
      Done(Report(breaks == [], |Hashes(acc)|, |Legacy(rows)|,
                  if walk == [] then None else Some(Hash(walk[|walk| - 1])), breaks))
  }

  // ---------------------------------------------------------------------------
  // Facts about the dictionaries
  // ---------------------------------------------------------------------------

  lemma KidsCount(acc: seq<Row>, p: string, x: Row)
    ensures multiset(Kids(acc, p))[x] == if Parent(x) == p then multiset(acc)[x] else 0
  {
    FilterCount(acc, (r: Row) => Parent(r) == p, x);
  }

  lemma {:induction false} ParentsDistinct(acc: seq<Row>)
    ensures Distinct(Parents(acc))
    ensures forall x :: x in acc ==> Parent(x) in Parents(acc)
    ensures forall p :: p in Parents(acc) ==> Kids(acc, p) != []
  {
    if acc != [] {
      var init, last := acc[..|acc| - 1], acc[|acc| - 1];
      ParentsDistinct(init);
      forall p | p in Parents(acc)
        ensures Kids(acc, p) != []
      {
        if p in Parents(init) {
          assert Kids(init, p) != [];
        }
      }
      forall x | x in acc
        ensures Parent(x) in Parents(acc)
      {
        assert x in init || x == last;
      }
    }
  }

  lemma {:induction false} StartsFromCount(acc: seq<Row>, ps: seq<string>, x: Row)
    requires Distinct(ps)
    ensures multiset(StartsFrom(acc, ps))[x] ==
            if Parent(x) in ps && IsRoot(acc, Parent(x)) then multiset(acc)[x] else 0
  {
    if ps != [] {
      var init, last := ps[..|ps| - 1], ps[|ps| - 1];
      assert ps == init + [last];
      StartsFromCount(acc, init, x);
      KidsCount(acc, last, x);
    }
  }

  /** The starts are exactly the rows whose parent is GENESIS or no chained hash. */
  lemma StartsCount(acc: seq<Row>, x: Row)
    ensures multiset(Starts(acc))[x] == if IsRoot(acc, Parent(x)) then multiset(acc)[x] else 0
  {
    ParentsDistinct(acc);
    StartsFromCount(acc, Parents(acc), x);
    if Parent(x) !in Parents(acc) {
      assert x !in acc;
      assert x !in multiset(acc);
    }
  }

  // ---------------------------------------------------------------------------
  // Facts about the walk
  // ---------------------------------------------------------------------------

  /** A child is a row of the bag, under that parent. */
  lemma KidAt(acc: seq<Row>, p: string, i: nat)
    requires i < |Kids(acc, p)|
    ensures Kids(acc, p)[i] in acc && Parent(Kids(acc, p)[i]) == p
  {
    FilterMember(acc, (r: Row) => Parent(r) == p, Kids(acc, p)[i]);
  }

  lemma IntactMember(sha: Digest, rows: seq<Row>, r: Row)
    ensures r in Intact(sha, rows) <==> r in rows && IsIntact(sha, r)
  {
    FilterMember(rows, (x: Row) => IsIntact(sha, x), r);
  }

  /** `w` follows links from `r` until a row with no child. */
  ghost predicate IsTrail(acc: seq<Row>, r: Row, w: seq<Row>) {
    && w != [] && w[0] == r
    && (forall i :: 0 <= i < |w| - 1 ==> Kids(acc, Hash(w[i])) != [] && w[i + 1] == Kids(acc, Hash(w[i]))[0])
    && Kids(acc, Hash(w[|w| - 1])) == []
  }

  lemma {:induction false} TrailShape(acc: seq<Row>, r: Row, n: nat)
    requires |Trail(acc, r, n)| < n
    ensures IsTrail(acc, r, Trail(acc, r, n))
    decreases n
  {
    var w := Trail(acc, r, n);
    if Kids(acc, Hash(r)) != [] {
      var next := Kids(acc, Hash(r))[0];
      TrailShape(acc, next, n - 1);
      var v := Trail(acc, next, n - 1);
      forall i | 0 <= i < |w| - 1
        ensures Kids(acc, Hash(w[i])) != [] && w[i + 1] == Kids(acc, Hash(w[i]))[0]
      {
        if i > 0 {
          assert w[i] == v[i - 1] && w[i + 1] == v[i];
        }
      }
    }
  }

  /** A finished trail is the trail for every larger step count. */
  lemma {:induction false} TrailOf(acc: seq<Row>, r: Row, w: seq<Row>, n: nat)
    requires IsTrail(acc, r, w) && |w| < n
    ensures Trail(acc, r, n) == w
    decreases n
  {
    if |w| > 1 {
      var next := Kids(acc, Hash(r))[0];
      assert w[1] == next;
      assert IsTrail(acc, next, w[1..]) by {
        var v := w[1..];
        forall i | 0 <= i < |v| - 1
          ensures Kids(acc, Hash(v[i])) != [] && v[i + 1] == Kids(acc, Hash(v[i]))[0]
        {
          assert v[i] == w[i + 1] && v[i + 1] == w[i + 2];
        }
      }
      TrailOf(acc, next, w[1..], n - 1);
      assert w == [r] + w[1..];
    }
  }

  lemma TrailUnique(acc: seq<Row>, r: Row, v: seq<Row>, w: seq<Row>)
    requires IsTrail(acc, r, v) && IsTrail(acc, r, w)
    ensures v == w
  {
    TrailOf(acc, r, v, |v| + |w| + 1);
    TrailOf(acc, r, w, |v| + |w| + 1);
  }

  lemma WalkShape(acc: seq<Row>)
    requires WalkEnds(acc)
    ensures Starts(acc) == [] ==> Walk(acc) == []
    ensures Starts(acc) != [] ==> IsTrail(acc, Starts(acc)[0], Walk(acc))
  {
    if Starts(acc) != [] {
      var n: nat :| |Trail(acc, Starts(acc)[0], n)| < n && Walk(acc) == Trail(acc, Starts(acc)[0], n);
      TrailShape(acc, Starts(acc)[0], n);
    }
  }

  /** Finding a finished trail from the first start settles the walk. */
  lemma WalkIs(acc: seq<Row>, w: seq<Row>)
    requires Starts(acc) != [] && IsTrail(acc, Starts(acc)[0], w)
    ensures WalkEnds(acc) && Walk(acc) == w
  {
    TrailOf(acc, Starts(acc)[0], w, |w| + 1);
    WalkShape(acc);
    TrailUnique(acc, Starts(acc)[0], Walk(acc), w);
  }

  /** A walk that ends never meets one hash twice: it would repeat from there for ever. */
  lemma {:induction false} TrailHashesDiffer(acc: seq<Row>, r: Row, w: seq<Row>, i: nat, j: nat)
    requires IsTrail(acc, r, w) && i < j < |w|
    ensures Hash(w[i]) != Hash(w[j])
    decreases |w| - j
  {
    if Hash(w[i]) == Hash(w[j]) {
      if j + 1 < |w| {
        assert w[i + 1] == w[j + 1];
        TrailHashesDiffer(acc, r, w, i + 1, j + 1);
      }
    }
  }

  function HashSeq(w: seq<Row>): (hs: seq<string>)
    ensures |hs| == |w| && forall i :: 0 <= i < |w| ==> hs[i] == Hash(w[i])
  {
    seq(|w|, i requires 0 <= i < |w| => Hash(w[i]))
  }

  lemma TrailMembers(acc: seq<Row>, r: Row, w: seq<Row>)
    requires r in acc && IsTrail(acc, r, w)
    ensures forall x :: x in w ==> x in acc
    ensures |w| <= |Hashes(acc)|
    ensures |w| == |Hashes(acc)| ==> forall h :: h in Hashes(acc) ==> exists i :: 0 <= i < |w| && Hash(w[i]) == h
  {
    forall i | 0 <= i < |w|
      ensures w[i] in acc
    {
      if i > 0 {
        KidAt(acc, Hash(w[i - 1]), 0);
        assert w[(i - 1) + 1] == Kids(acc, Hash(w[i - 1]))[0];
      }
    }
    var hs := HashSeq(w);
    forall i, j | 0 <= i < j < |hs|
      ensures hs[i] != hs[j]
    {
      TrailHashesDiffer(acc, r, w, i, j);
    }
    DistinctSize(hs);
    var met := set h | h in hs;
    forall h | h in met
      ensures h in Hashes(acc)
    {
      var i :| 0 <= i < |hs| && hs[i] == h;
      assert w[i] in acc;
    }
    SubsetSize(met, Hashes(acc));
    if |w| == |Hashes(acc)| {
      forall h | h in Hashes(acc)
        ensures exists i :: 0 <= i < |w| && Hash(w[i]) == h
      {
        assert h in met;
        var i :| 0 <= i < |hs| && hs[i] == h;
        assert Hash(w[i]) == h;
      }
    }
  }

  lemma SubsetSize<T>(a: set<T>, b: set<T>)
    requires a <= b
    ensures |a| <= |b|
    ensures |a| == |b| ==> a == b
  {
    assert b == a + (b - a);
    assert |b| == |a| + |b - a|;
  }

  // ---------------------------------------------------------------------------
  // The method
  // ---------------------------------------------------------------------------

  lemma KidsSnoc(acc: seq<Row>, x: Row, p: string)
    ensures Kids(acc + [x], p) == if Parent(x) == p then Kids(acc, p) + [x] else Kids(acc, p)
  {
    assert (acc + [x])[..|acc|] == acc;
  }

  lemma HashesSnoc(acc: seq<Row>, x: Row)
    ensures Hashes(acc + [x]) == Hashes(acc) + {Hash(x)}
  {
  }

  lemma ParentsSnoc(acc: seq<Row>, x: Row)
    ensures Parents(acc + [x]) ==
            if Parent(x) in Parents(acc) then Parents(acc) else Parents(acc) + [Parent(x)]
  {
    assert (acc + [x])[..|acc|] == acc;
  }

  lemma RowsSnoc(sha: Digest, rows: seq<Row>, i: nat)
    requires i < |rows|
    ensures Intact(sha, rows[..i + 1]) ==
            if IsIntact(sha, rows[i]) then Intact(sha, rows[..i]) + [rows[i]] else Intact(sha, rows[..i])
    ensures |Legacy(rows[..i + 1])| == |Legacy(rows[..i])| + if IsLegacy(rows[i]) then 1 else 0
    ensures Anchors(sha, rows[..i + 1]) ==
            Anchors(sha, rows[..i]) +
            if IsLegacy(rows[i]) then {LegacyAnchor(sha, Some(IdText(rows[i])))} else {}
    ensures RowBreaks(sha, rows[..i + 1]) == RowBreaks(sha, rows[..i]) + RowBreak(sha, rows[i])
  {
    assert rows[..i + 1][..i] == rows[..i];
    assert rows[..i + 1] == rows[..i] + [rows[i]];
  }

  /** The dictionaries of the source's first pass, tied to the intact rows they index. */
  ghost predicate Indexed(acc: seq<Row>, chained: map<string, Row>, byPrev: map<string, seq<Row>>,
                          keys: seq<string>)
  {
    && chained.Keys == Hashes(acc)
    && keys == Parents(acc)
    && (forall p :: p in byPrev <==> p in keys)
    && (forall p :: p in byPrev ==> byPrev[p] == Kids(acc, p))
  }

  function ByPrev(byPrev: map<string, seq<Row>>, p: string): seq<Row> {
    if p in byPrev then byPrev[p] else []
  }

  lemma ByPrevIsKids(acc: seq<Row>, chained: map<string, Row>, byPrev: map<string, seq<Row>>,
                     keys: seq<string>, p: string)
    requires Indexed(acc, chained, byPrev, keys)
    ensures ByPrev(byPrev, p) == Kids(acc, p)
  {
    ParentsDistinct(acc);
    if Kids(acc, p) != [] {
      KidAt(acc, p, 0);
      var kid := Kids(acc, p)[0];
      assert kid in acc && Parent(kid) == p;
    }
  }

  lemma KidsIndexSnoc(acc: seq<Row>, x: Row, byPrev: map<string, seq<Row>>)
    requires forall p :: p in byPrev ==> byPrev[p] == Kids(acc, p)
    requires ByPrev(byPrev, Parent(x)) == Kids(acc, Parent(x))
    ensures var longer := byPrev[Parent(x) := ByPrev(byPrev, Parent(x)) + [x]];
      forall p :: p in longer ==> longer[p] == Kids(acc + [x], p)
  {
    var longer := byPrev[Parent(x) := ByPrev(byPrev, Parent(x)) + [x]];
    forall p | p in longer
      ensures longer[p] == Kids(acc + [x], p)
    {
      KidsSnoc(acc, x, p);
    }
  }

  lemma IndexedSnoc(acc: seq<Row>, x: Row, chained: map<string, Row>, byPrev: map<string, seq<Row>>,
                    keys: seq<string>)
    requires Indexed(acc, chained, byPrev, keys)
    ensures Indexed(acc + [x], chained[Hash(x) := x],
                    byPrev[Parent(x) := ByPrev(byPrev, Parent(x)) + [x]],
                    if Parent(x) in keys then keys else keys + [Parent(x)])
  {
    HashesSnoc(acc, x);
    ParentsSnoc(acc, x);
    ByPrevIsKids(acc, chained, byPrev, keys, Parent(x));
    KidsIndexSnoc(acc, x, byPrev);
  }

  /** The locals of the first pass. */
  datatype Tables = Tables(chained: map<string, Row>, byPrev: map<string, seq<Row>>, keys: seq<string>,
                           legacy: nat, anchors: set<string>, breaks: seq<Break>)

  /** What the locals hold after reading `seen`. */
  ghost predicate Pass(sha: Digest, seen: seq<Row>, t: Tables) {
    && Indexed(Intact(sha, seen), t.chained, t.byPrev, t.keys)
    && t.legacy == |Legacy(seen)| && t.anchors == Anchors(sha, seen)
    && t.breaks == RowBreaks(sha, seen)
  }

  lemma PassSkip(sha: Digest, rows: seq<Row>, i: nat, t: Tables)
    requires i < |rows| && !IsIntact(sha, rows[i]) && Pass(sha, rows[..i], t)
    ensures Pass(sha, rows[..i + 1],
                 t.(legacy := t.legacy + (if IsLegacy(rows[i]) then 1 else 0),
                    anchors := t.anchors + (if IsLegacy(rows[i]) then {LegacyAnchor(sha, Some(IdText(rows[i])))} else {}),
                    breaks := t.breaks + RowBreak(sha, rows[i])))
  {
    RowsSnoc(sha, rows, i);
  }

  lemma PassIntact(sha: Digest, rows: seq<Row>, i: nat, t: Tables)
    requires i < |rows| && IsIntact(sha, rows[i]) && Pass(sha, rows[..i], t)
    ensures Pass(sha, rows[..i + 1],
                 t.(chained := t.chained[Hash(rows[i]) := rows[i]],
                    byPrev := t.byPrev[Parent(rows[i]) := ByPrev(t.byPrev, Parent(rows[i])) + [rows[i]]],
                    keys := if Parent(rows[i]) in t.keys then t.keys else t.keys + [Parent(rows[i])]))
  {
    RowsSnoc(sha, rows, i);
    IndexedSnoc(Intact(sha, rows[..i]), rows[i], t.chained, t.byPrev, t.keys);
  }

  lemma RaisesSnoc(rows: seq<Row>, i: nat)
    requires i < |rows|
    ensures SomeRaises(rows[..i + 1]) <==> SomeRaises(rows[..i]) || Raises(rows[i])
    ensures Raises(rows[i]) ==> SomeRaises(rows)
  {
    assert rows[..i + 1] == rows[..i] + [rows[i]];
    if Raises(rows[i]) {
      assert rows[i] in rows[..i + 1];
    }
  }

  /** One row of the first pass. */
  method SortRow(sha: Digest, rows: seq<Row>, i: nat, t: Tables) returns (ok: bool, t': Tables)
    requires i < |rows| && Pass(sha, rows[..i], t)
    ensures ok <==> !Raises(rows[i])
    ensures ok ==> Pass(sha, rows[..i + 1], t')
  {
    var row := rows[i];
    ok, t' := true, t;
    if row.hash.None? && row.prev.None? {
      PassSkip(sha, rows, i, t);
      t' := t.(legacy := t.legacy + 1, anchors := t.anchors + {LegacyAnchor(sha, Some(IdText(row)))});
      assert t.breaks + [] == t.breaks;
    } else if row.hash.None? || row.prev.None? {
      PassSkip(sha, rows, i, t);
      t' := t.(breaks := t.breaks + [HalfChained(IdText(row))]);
      assert t.anchors + {} == t.anchors;
    } else {
      var recomputed := ComputeRowHash(sha, row.prev.value, row.fields);
      if recomputed.None? {
        ok := false;
      } else if recomputed != row.hash {
        PassSkip(sha, rows, i, t);
        t' := t.(breaks := t.breaks + [Mutated(IdText(row))]);
        assert t.anchors + {} == t.anchors;
      } else {
        PassIntact(sha, rows, i, t);
        t' := t.(chained := t.chained[Hash(row) := row],
                 byPrev := t.byPrev[Parent(row) := ByPrev(t.byPrev, Parent(row)) + [row]],
                 keys := if Parent(row) in t.keys then t.keys else t.keys + [Parent(row)]);
      }
    }
  }

  /** The first pass. `ok` is false where the source raises. */
  method SortRows(sha: Digest, rows: seq<Row>) returns (ok: bool, t: Tables)
    ensures ok <==> !SomeRaises(rows)
    ensures ok ==> Pass(sha, rows, t)
  {
    ok, t := true, Tables(map[], map[], [], 0, {}, []);
    for i := 0 to |rows|
      invariant ok && !SomeRaises(rows[..i])
      invariant Pass(sha, rows[..i], t)
    {
      RaisesSnoc(rows, i);
      ok, t := SortRow(sha, rows, i, t);
      if !ok {
        return;
      }
    }
    assert rows[..|rows|] == rows;
  }

  lemma StartsSnoc(acc: seq<Row>, ps: seq<string>, i: nat)
    requires i < |ps|
    ensures StartsFrom(acc, ps[..i + 1]) == StartsFrom(acc, ps[..i]) + if IsRoot(acc, ps[i]) then Kids(acc, ps[i]) else []
  {
    assert ps[..i + 1][..i] == ps[..i];
  }

  method FindStarts(ghost acc: seq<Row>, chained: map<string, Row>, byPrev: map<string, seq<Row>>,
                    keys: seq<string>)
    returns (starts: seq<Row>)
    requires Indexed(acc, chained, byPrev, keys)
    ensures starts == Starts(acc)
  {
    starts := [];
    for i := 0 to |keys|
      invariant starts == StartsFrom(acc, keys[..i])
    {
      StartsSnoc(acc, keys, i);
      if keys[i] == GENESIS || keys[i] !in chained {
        starts := starts + byPrev[keys[i]];
      }
    }
    assert keys[..|keys|] == keys;
  }

  method CheckStarts(sha: Digest, rows: seq<Row>, ghost acc: seq<Row>, chained: map<string, Row>,
                     starts: seq<Row>, anchors: set<string>)
    returns (breaks: seq<Break>)
    requires chained.Keys == Hashes(acc) && starts == Starts(acc) && anchors == Anchors(sha, rows)
    ensures breaks == StartBreaks(sha, rows, acc)
  {
    breaks := [];
    assert chained.Keys == {} <==> acc == [] by {
      if acc != [] { assert Hash(acc[0]) in Hashes(acc); }
    }
    if chained.Keys != {} && |starts| == 0 {
      breaks := breaks + [NoStart];
    }
    if |starts| > 1 {
      breaks := breaks + ExtraStarts(starts[1..]);
    }
    if starts != [] && Parent(starts[0]) != GENESIS && Parent(starts[0]) !in anchors {
      breaks := breaks + [Unanchored(IdText(starts[0]))];
    }
  }

  lemma ForksSnoc(acc: seq<Row>, walk: seq<Row>, i: nat)
    requires i < |walk|
    ensures var kids := Kids(acc, Hash(walk[i]));
      ForkBreaks(acc, walk[..i + 1]) == ForkBreaks(acc, walk[..i]) + (if |kids| > 1 then Forks(kids[1..]) else [])
  {
    assert walk[..i + 1][..i] == walk[..i];
  }

  /** One step along a walk that ends. */
  lemma WalkStep(acc: seq<Row>, i: nat)
    requires Starts(acc) != [] && WalkEnds(acc) && i < |Walk(acc)|
    ensures var walk := Walk(acc);
      var kids := Kids(acc, Hash(walk[i]));
      && (kids != [] <==> i + 1 < |walk|) && (kids != [] ==> walk[i + 1] == kids[0])
      && ForkBreaks(acc, walk[..i + 1]) ==
         ForkBreaks(acc, walk[..i]) + (if |kids| > 1 then Forks(kids[1..]) else [])
  {
    WalkShape(acc);
    ForksSnoc(acc, Walk(acc), i);
  }

  /** The link-following walk. */
  method FollowLinks(ghost acc: seq<Row>, byPrev: map<string, seq<Row>>, start: Row)
    returns (head: string, visited: nat, breaks: seq<Break>)
    requires forall p :: ByPrev(byPrev, p) == Kids(acc, p)
    requires Starts(acc) != [] && start == Starts(acc)[0] && WalkEnds(acc)
    ensures visited == |Walk(acc)| > 0 && head == Hash(Walk(acc)[visited - 1])
    ensures breaks == ForkBreaks(acc, Walk(acc))
  {
    ghost var walk := Walk(acc);
    WalkShape(acc);
    var cursor: Option<Row> := Some(start);
    head, visited, breaks := "", 0, [];
    while cursor.Some?
      invariant visited <= |walk|
      invariant cursor == if visited < |walk| then Some(walk[visited]) else None
      invariant visited > 0 ==> head == Hash(walk[visited - 1])
      invariant breaks == ForkBreaks(acc, walk[..visited])
      decreases |walk| - visited
    {
      WalkStep(acc, visited);
      visited := visited + 1;
      head := Hash(cursor.value);
      var children := ByPrev(byPrev, head);
      if |children| > 1 {
        breaks := breaks + Forks(children[1..]);
      }
      cursor := if children != [] then Some(children[0]) else None;
    }
    assert walk[..visited] == walk;
  }

  /** `verify_chain`, for every export on which it returns. */
  method VerifyChain(sha: Digest, rows: seq<Row>) returns (out: Outcome)
    requires Terminates(sha, rows)
    ensures out == Verify(sha, rows)
  {
    var ok, t := SortRows(sha, rows);
    if !ok {
      return Raised;
    }
    ghost var acc := Intact(sha, rows);
    var starts := FindStarts(acc, t.chained, t.byPrev, t.keys);
    var first := CheckStarts(sha, rows, acc, t.chained, starts, t.anchors);
    WalkShape(acc);
    var head: Option<string> := None;
    var visited := 0;
    var forks := [];
    if starts != [] {
      forall p
        ensures ByPrev(t.byPrev, p) == Kids(acc, p)
      {
        ByPrevIsKids(acc, t.chained, t.byPrev, t.keys, p);
      }
      var tip;
      tip, visited, forks := FollowLinks(acc, t.byPrev, starts[0]);
      head := Some(tip);
    }
    assert |t.chained| == |t.chained.Keys|;
    var unreached := |t.chained| - visited;
    var reach := if unreached > 0 then [Unreachable(unreached)] else [];
    var breaks := t.breaks + first + forks + reach;
    out := Done(Report(breaks == [], |t.chained|, t.legacy, head, breaks));
  }
}
