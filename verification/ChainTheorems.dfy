/**
 * What a clean verdict of `verify_chain` means, and what it detects
 * (shared/audit_chain.py, and the promises of its module text and tests).
 */
module ChainTheorems {
  import opened Basics
  import opened CanonicalRow
  import opened AuditChain

  /** Rows in ledger order: each rehashes, each names the one before, the first is anchored. */
  ghost predicate IsChain(sha: Digest, anchors: set<string>, s: seq<Row>) {
    && (forall i :: 0 <= i < |s| ==> IsIntact(sha, s[i]))
    && (forall i :: 0 < i < |s| ==> Parent(s[i]) == Hash(s[i - 1]))
    && (s != [] ==> Parent(s[0]) == GENESIS || Parent(s[0]) in anchors)
  }

  /** No hash occurs twice, and the first row's parent is none of them. */
  ghost predicate IsSimple(s: seq<Row>) {
    && (forall i, j :: 0 <= i < j < |s| ==> Hash(s[i]) != Hash(s[j]))
    && (forall i :: 0 <= i < |s| ==> Hash(s[i]) != Parent(s[0]))
  }

  /** The chained rows of the export, as a bag, are exactly `s`. */
  ghost predicate Arranges(rows: seq<Row>, s: seq<Row>) {
    multiset(s) == multiset(Chained(rows))
  }

  ghost predicate NeverGenesis(sha: Digest) {
    forall x :: sha(x) != GENESIS
  }

  /** The verifier returns, and its report is ok. */
  ghost predicate Accepts(sha: Digest, rows: seq<Row>) {
    Terminates(sha, rows) && Verify(sha, rows).Done? && Verify(sha, rows).report.ok
  }

  // ---------------------------------------------------------------------------
  // Row breaks
  // ---------------------------------------------------------------------------

  lemma {:induction false} RowBreaksEmpty(sha: Digest, rows: seq<Row>)
    ensures RowBreaks(sha, rows) == [] <==> forall r :: r in rows ==> IsLegacy(r) || IsIntact(sha, r)
  {
    if rows != [] {
      var init, last := rows[..|rows| - 1], rows[|rows| - 1];
      RowBreaksEmpty(sha, init);
      assert rows == init + [last];
      assert forall r :: r in rows <==> r in init || r == last;
    }
  }

  /** With every chained row intact, the walk runs over all of them. */
  lemma IntactIsChained(sha: Digest, rows: seq<Row>)
    requires forall r :: r in rows ==> IsLegacy(r) || IsIntact(sha, r)
    ensures Intact(sha, rows) == Chained(rows)
  {
    FilterAgree(rows, (r: Row) => IsIntact(sha, r), (r: Row) => !IsLegacy(r));
  }

  lemma ChainedMember(rows: seq<Row>, r: Row)
    ensures r in Chained(rows) <==> r in rows && !IsLegacy(r)
  {
    FilterMember(rows, (x: Row) => !IsLegacy(x), r);
  }

  // ---------------------------------------------------------------------------
  // Soundness: a clean report exhibits the chain
  // ---------------------------------------------------------------------------

  lemma {:induction false} NoForks(acc: seq<Row>, walk: seq<Row>, i: nat)
    requires ForkBreaks(acc, walk) == [] && i < |walk|
    ensures |Kids(acc, Hash(walk[i]))| <= 1
  {
    if i < |walk| - 1 {
      NoForks(acc, walk[..|walk| - 1], i);
    }
  }

  /** What the four empty break lists say about the intact rows. */
  lemma CleanFacts(sha: Digest, rows: seq<Row>)
    requires Accepts(sha, rows)
    ensures !SomeRaises(rows)
    ensures forall r :: r in rows ==> IsLegacy(r) || IsIntact(sha, r)
    ensures var acc := Intact(sha, rows);
      && |Starts(acc)| <= 1 && (acc != [] ==> |Starts(acc)| == 1)
      && (acc != [] ==> Parent(Starts(acc)[0]) == GENESIS || Parent(Starts(acc)[0]) in Anchors(sha, rows))
      && |Hashes(acc)| <= |Walk(acc)|
      && (forall i :: 0 <= i < |Walk(acc)| ==> |Kids(acc, Hash(Walk(acc)[i]))| <= 1)
  {
    var acc := Intact(sha, rows);
    var walk := Walk(acc);
    assert RowBreaks(sha, rows) == [] && StartBreaks(sha, rows, acc) == [];
    assert ForkBreaks(acc, walk) == [] && ReachBreaks(acc, walk) == [];
    RowBreaksEmpty(sha, rows);
    forall i | 0 <= i < |walk|
      ensures |Kids(acc, Hash(walk[i]))| <= 1
    {
      NoForks(acc, walk, i);
    }
  }

  lemma StartInAcc(acc: seq<Row>)
    requires Starts(acc) != []
    ensures Starts(acc)[0] in acc && IsRoot(acc, Parent(Starts(acc)[0]))
  {
    var s := Starts(acc)[0];
    StartsCount(acc, s);
    assert s in multiset(Starts(acc));
    assert s in multiset(acc);
  }

  lemma SoleMember<T>(k: seq<T>, x: T)
    requires |k| <= 1 && x in k
    ensures k == [x] && multiset(k)[x] == 1
  {
    assert k == [k[0]];
  }

  /** A row with a root parent is the one start. */
  lemma RootCovered(acc: seq<Row>, x: Row)
    requires |Starts(acc)| == 1 && x in acc && IsRoot(acc, Parent(x))
    ensures x == Starts(acc)[0] && multiset(acc)[x] == 1
  {
    StartsCount(acc, x);
    assert x in multiset(acc);
    assert x in multiset(Starts(acc));
    SoleMember(Starts(acc), x);
  }

  /** A row whose parent was visited is the only child there, hence the next one visited. */
  lemma ChildCovered(acc: seq<Row>, r: Row, w: seq<Row>, i: nat, x: Row)
    requires IsTrail(acc, r, w) && i < |w| && x in acc && Parent(x) == Hash(w[i])
    requires |Kids(acc, Hash(w[i]))| <= 1
    ensures x in w && multiset(acc)[x] == 1
  {
    var kids := Kids(acc, Hash(w[i]));
    KidsCount(acc, Hash(w[i]), x);
    assert x in multiset(acc);
    assert x in multiset(kids);
    SoleMember(kids, x);
    assert w[i + 1] == x;
  }

  /** Every intact row is met by a clean walk, and none occurs twice in the export. */
  lemma WalkCovers(acc: seq<Row>, w: seq<Row>, x: Row)
    requires |Starts(acc)| == 1 && IsTrail(acc, Starts(acc)[0], w)
    requires |Hashes(acc)| <= |w|
    requires forall i :: 0 <= i < |w| ==> |Kids(acc, Hash(w[i]))| <= 1
    requires x in acc
    ensures x in w && multiset(acc)[x] == 1
  {
    if IsRoot(acc, Parent(x)) {
      RootCovered(acc, x);
    } else {
      StartInAcc(acc);
      TrailMembers(acc, Starts(acc)[0], w);
      var i :| 0 <= i < |w| && Hash(w[i]) == Parent(x);
      ChildCovered(acc, Starts(acc)[0], w, i, x);
    }
  }

  lemma RowsDistinct(acc: seq<Row>, r: Row, w: seq<Row>)
    requires IsTrail(acc, r, w)
    ensures Distinct(w)
    ensures forall i, j :: 0 <= i < j < |w| ==> Hash(w[i]) != Hash(w[j])
  {
    forall i, j | 0 <= i < j < |w|
      ensures Hash(w[i]) != Hash(w[j]) && w[i] != w[j]
    {
      TrailHashesDiffer(acc, r, w, i, j);
    }
  }

  lemma WalkIsBag(acc: seq<Row>, w: seq<Row>)
    requires |Starts(acc)| == 1 && IsTrail(acc, Starts(acc)[0], w)
    requires |Hashes(acc)| <= |w|
    requires forall i :: 0 <= i < |w| ==> |Kids(acc, Hash(w[i]))| <= 1
    ensures multiset(w) == multiset(acc)
  {
    StartInAcc(acc);
    TrailMembers(acc, Starts(acc)[0], w);
    RowsDistinct(acc, Starts(acc)[0], w);
    forall x
      ensures multiset(w)[x] == multiset(acc)[x]
    {
      DistinctCount(w, x);
      if x in acc {
        WalkCovers(acc, w, x);
      } else {
        assert x !in multiset(acc);
      }
    }
    SameMultiset(multiset(w), multiset(acc));
  }

  lemma TrailParents(acc: seq<Row>, r: Row, w: seq<Row>)
    requires IsTrail(acc, r, w)
    ensures forall i :: 0 < i < |w| ==> w[i] in acc && Parent(w[i]) == Hash(w[i - 1])
  {
    forall i | 0 < i < |w|
      ensures w[i] in acc && Parent(w[i]) == Hash(w[i - 1])
    {
      KidAt(acc, Hash(w[i - 1]), 0);
      assert w[(i - 1) + 1] == Kids(acc, Hash(w[i - 1]))[0];
    }
  }

  /** No hash of an intact row is GENESIS, so a root parent is none of the hashes. */
  lemma RootIsNoHash(sha: Digest, acc: seq<Row>, p: string)
    requires NeverGenesis(sha) && IsRoot(acc, p)
    requires forall r :: r in acc ==> IsIntact(sha, r)
    ensures forall r :: r in acc ==> Hash(r) != p
  {
    forall r | r in acc
      ensures Hash(r) != p
    {
      assert IsIntact(sha, r);
      assert Hash(r) == sha(Payload(r.prev.value, r.fields));
      assert Hash(r) in Hashes(acc);
    }
  }

  /**
   * SOUNDNESS. A clean report means the visited rows are one anchored chain, without
   * repetition, and as a bag they are all the chained rows of the export. Nothing is
   * assumed of the digest except that it is never the word GENESIS.
   */
  lemma OkMeansChain(sha: Digest, rows: seq<Row>)
    requires NeverGenesis(sha) && Accepts(sha, rows)
    ensures var w := Walk(Intact(sha, rows));
      && IsChain(sha, Anchors(sha, rows), w) && IsSimple(w) && Arranges(rows, w)
      && Verify(sha, rows).report.head == (if w == [] then None else Some(Hash(w[|w| - 1])))
  {
    CleanFacts(sha, rows);
    IntactIsChained(sha, rows);
    var acc := Intact(sha, rows);
    var w := Walk(acc);
    WalkShape(acc);
    if acc == [] {
      if Starts(acc) != [] { StartInAcc(acc); }
    } else {
      var s := Starts(acc)[0];
      StartInAcc(acc);
      TrailParents(acc, s, w);
      WalkIsBag(acc, w);
      RowsDistinct(acc, s, w);
      forall i | 0 <= i < |w|
        ensures w[i] in acc && IsIntact(sha, w[i])
      {
        assert w[i] in multiset(w);
        IntactMember(sha, rows, w[i]);
      }
      forall r | r in acc
        ensures IsIntact(sha, r)
      {
        IntactMember(sha, rows, r);
      }
      RootIsNoHash(sha, acc, Parent(s));
    }
  }

  // ---------------------------------------------------------------------------
  // Completeness: a chain is accepted
  // ---------------------------------------------------------------------------

  lemma SimpleDistinct(s: seq<Row>)
    requires IsSimple(s)
    ensures Distinct(s)
  {
  }

  lemma BagMembers(acc: seq<Row>, s: seq<Row>, x: Row)
    requires multiset(s) == multiset(acc)
    ensures x in acc <==> x in s
  {
    assert x in acc <==> x in multiset(acc);
    assert x in s <==> x in multiset(s);
  }

  lemma SingleBag<T>(k: seq<T>, x: T)
    requires multiset(k) == multiset{x}
    ensures k == [x]
  {
    assert |k| == |multiset(k)| == 1;
    assert k[0] in multiset(k);
  }

  lemma EmptyBag<T>(k: seq<T>)
    requires multiset(k) == multiset{}
    ensures k == []
  {
    assert |k| == |multiset(k)| == 0;
  }

  /** The children dictionary of a bag that arranges as `s`. */
  lemma KidsOfChain(sha: Digest, anchors: set<string>, acc: seq<Row>, s: seq<Row>, i: nat)
    requires IsChain(sha, anchors, s) && IsSimple(s) && multiset(s) == multiset(acc)
    requires i < |s|
    ensures Kids(acc, Hash(s[i])) == if i + 1 < |s| then [s[i + 1]] else []
  {
    var kids := Kids(acc, Hash(s[i]));
    SimpleDistinct(s);
    forall x
      ensures multiset(kids)[x] == if i + 1 < |s| && x == s[i + 1] then 1 else 0
    {
      KidsCount(acc, Hash(s[i]), x);
      DistinctCount(s, x);
      if x in s && Parent(x) == Hash(s[i]) {
        var j :| 0 <= j < |s| && s[j] == x;
        assert j > 0 && Hash(s[j - 1]) == Hash(s[i]);
      }
    }
    if i + 1 < |s| {
      SameMultiset(multiset(kids), multiset{s[i + 1]});
      SingleBag(kids, s[i + 1]);
    } else {
      SameMultiset(multiset(kids), multiset{});
      EmptyBag(kids);
    }
  }

  lemma HashInBag(acc: seq<Row>, s: seq<Row>, h: string)
    requires multiset(s) == multiset(acc)
    ensures h in Hashes(acc) <==> exists i :: 0 <= i < |s| && Hash(s[i]) == h
  {
    if h in Hashes(acc) {
      var r :| r in acc && Hash(r) == h;
      BagMembers(acc, s, r);
      var i :| 0 <= i < |s| && s[i] == r;
      assert Hash(s[i]) == h;
    }
    if exists i :: 0 <= i < |s| && Hash(s[i]) == h {
      var i :| 0 <= i < |s| && Hash(s[i]) == h;
      BagMembers(acc, s, s[i]);
    }
  }

  lemma StartsOfChain(sha: Digest, anchors: set<string>, acc: seq<Row>, s: seq<Row>)
    requires NeverGenesis(sha) && IsChain(sha, anchors, s) && IsSimple(s) && multiset(s) == multiset(acc)
    ensures Starts(acc) == if s == [] then [] else [s[0]]
  {
    var starts := Starts(acc);
    SimpleDistinct(s);
    forall x
      ensures multiset(starts)[x] == if s != [] && x == s[0] then 1 else 0
    {
      StartsCount(acc, x);
      DistinctCount(s, x);
      HashInBag(acc, s, Parent(x));
      if x in s {
        var j :| 0 <= j < |s| && s[j] == x;
        if j > 0 {
          assert IsIntact(sha, s[j - 1]);
          assert Parent(x) == Hash(s[j - 1]) == sha(Payload(s[j - 1].prev.value, s[j - 1].fields));
        }
      }
    }
    if s == [] {
      SameMultiset(multiset(starts), multiset{});
      EmptyBag(starts);
    } else {
      SameMultiset(multiset(starts), multiset{s[0]});
      SingleBag(starts, s[0]);
    }
  }

  lemma {:induction false} ForksOfChain(sha: Digest, anchors: set<string>, acc: seq<Row>, s: seq<Row>, n: nat)
    requires IsChain(sha, anchors, s) && IsSimple(s) && multiset(s) == multiset(acc) && n <= |s|
    ensures ForkBreaks(acc, s[..n]) == []
  {
    if n > 0 {
      ForksOfChain(sha, anchors, acc, s, n - 1);
      assert s[..n][..n - 1] == s[..n - 1];
      KidsOfChain(sha, anchors, acc, s, n - 1);
    }
  }

  lemma NoForksInChain(sha: Digest, anchors: set<string>, acc: seq<Row>, s: seq<Row>)
    requires IsChain(sha, anchors, s) && IsSimple(s) && multiset(s) == multiset(acc)
    ensures ForkBreaks(acc, s) == []
  {
    ForksOfChain(sha, anchors, acc, s, |s|);
    assert s[..|s|] == s;
  }

  lemma HashesOfChain(acc: seq<Row>, s: seq<Row>)
    requires IsSimple(s) && multiset(s) == multiset(acc)
    ensures |Hashes(acc)| == |s|
  {
    var hs := HashSeq(s);
    DistinctSize(hs);
    assert Hashes(acc) == set h | h in hs by {
      forall h
        ensures h in Hashes(acc) <==> h in hs
      {
        HashInBag(acc, s, h);
      }
    }
  }

  lemma WalkOfChain(sha: Digest, anchors: set<string>, acc: seq<Row>, s: seq<Row>)
    requires NeverGenesis(sha) && IsChain(sha, anchors, s) && IsSimple(s) && multiset(s) == multiset(acc)
    ensures WalkEnds(acc) && Walk(acc) == s
  {
    StartsOfChain(sha, anchors, acc, s);
    if s != [] {
      forall i | 0 <= i < |s| - 1
        ensures Kids(acc, Hash(s[i])) != [] && s[i + 1] == Kids(acc, Hash(s[i]))[0]
      {
        KidsOfChain(sha, anchors, acc, s, i);
      }
      KidsOfChain(sha, anchors, acc, s, |s| - 1);
      WalkIs(acc, s);
    }
  }

  /** Rows that arrange as a chain are all legacy or intact, and none makes the source raise. */
  lemma ArrangedRows(sha: Digest, rows: seq<Row>, s: seq<Row>)
    requires IsChain(sha, Anchors(sha, rows), s) && Arranges(rows, s)
    ensures !SomeRaises(rows) && RowBreaks(sha, rows) == []
    ensures Intact(sha, rows) == Chained(rows)
  {
    forall r | r in rows
      ensures IsLegacy(r) || IsIntact(sha, r)
      ensures !Raises(r)
    {
      ChainedMember(rows, r);
      BagMembers(Chained(rows), s, r);
    }
    IntactIsChained(sha, rows);
    RowBreaksEmpty(sha, rows);
  }

  lemma ArrangedStarts(sha: Digest, rows: seq<Row>, acc: seq<Row>, s: seq<Row>)
    requires NeverGenesis(sha) && multiset(s) == multiset(acc)
    requires IsChain(sha, Anchors(sha, rows), s) && IsSimple(s)
    ensures StartBreaks(sha, rows, acc) == []
  {
    StartsOfChain(sha, Anchors(sha, rows), acc, s);
    assert |multiset(s)| == |s| && |multiset(acc)| == |acc|;
  }

  lemma NothingToReport(sha: Digest, rows: seq<Row>, s: seq<Row>)
    requires !SomeRaises(rows) && RowBreaks(sha, rows) == [] && WalkEnds(Intact(sha, rows))
    requires Walk(Intact(sha, rows)) == s && |Hashes(Intact(sha, rows))| == |s|
    requires StartBreaks(sha, rows, Intact(sha, rows)) == [] && ForkBreaks(Intact(sha, rows), s) == []
    ensures Accepts(sha, rows)
  {
  }

  /**
   * COMPLETENESS. If the chained rows can be arranged as one simple anchored chain, the
   * walk ends, retraces that arrangement, and the report is clean.
   */
  lemma ChainMeansOk(sha: Digest, rows: seq<Row>, s: seq<Row>)
    requires NeverGenesis(sha)
    requires IsChain(sha, Anchors(sha, rows), s) && IsSimple(s) && Arranges(rows, s)
    ensures Accepts(sha, rows) && Walk(Intact(sha, rows)) == s
  {
    ArrangedRows(sha, rows, s);
    var acc := Intact(sha, rows);
    WalkOfChain(sha, Anchors(sha, rows), acc, s);
    ArrangedStarts(sha, rows, acc, s);
    NoForksInChain(sha, Anchors(sha, rows), acc, s);
    HashesOfChain(acc, s);
    NothingToReport(sha, rows, s);
  }

  /** THE VERDICT. `ok` is true exactly when the chained rows form one simple anchored chain. */
  lemma OkIffChain(sha: Digest, rows: seq<Row>)
    requires NeverGenesis(sha)
    ensures Accepts(sha, rows) <==>
            exists s :: IsChain(sha, Anchors(sha, rows), s) && IsSimple(s) && Arranges(rows, s)
  {
    if Accepts(sha, rows) {
      OkMeansChain(sha, rows);
    }
    if s :| IsChain(sha, Anchors(sha, rows), s) && IsSimple(s) && Arranges(rows, s) {
      ChainMeansOk(sha, rows, s);
    }
  }
}
