/**
 * Order independence, termination of the walk, and tamper evidence of the audit chain
 * (shared/audit_chain.py).
 */
module TamperEvidence {
  import opened Basics
  import opened CanonicalRow
  import opened AuditChain
  import opened ChainTheorems

  // ---------------------------------------------------------------------------
  // The input order does not matter
  // ---------------------------------------------------------------------------

  lemma PermutedParts(sha: Digest, rows: seq<Row>, other: seq<Row>)
    requires multiset(rows) == multiset(other)
    ensures SomeRaises(rows) == SomeRaises(other)
    ensures Anchors(sha, rows) == Anchors(sha, other)
    ensures |Legacy(rows)| == |Legacy(other)|
    ensures multiset(Chained(rows)) == multiset(Chained(other))
    ensures Hashes(Intact(sha, rows)) == Hashes(Intact(sha, other))
  {
    forall r
      ensures r in rows <==> r in other
    {
      BagMembers(other, rows, r);
    }
    FilterPermuted(rows, other, IsLegacy);
    FilterPermuted(rows, other, (r: Row) => !IsLegacy(r));
    FilterPermuted(rows, other, (r: Row) => IsIntact(sha, r));
    forall r
      ensures r in Intact(sha, rows) <==> r in Intact(sha, other)
    {
      BagMembers(Intact(sha, other), Intact(sha, rows), r);
    }
  }

  /** A permuted export gets the same verdict, the same counts and, when clean, the same head. */
  lemma OrderIndependent(sha: Digest, rows: seq<Row>, other: seq<Row>)
    requires NeverGenesis(sha) && multiset(rows) == multiset(other)
    ensures Accepts(sha, rows) <==> Accepts(sha, other)
    ensures Accepts(sha, rows) ==> Verify(sha, rows).report == Verify(sha, other).report
    ensures Terminates(sha, rows) && Terminates(sha, other) ==>
      match (Verify(sha, rows), Verify(sha, other))
      case (Raised, Raised) => true
      case (Done(a), Done(b)) => a.ok == b.ok && a.chained == b.chained && a.legacy == b.legacy
      case _ => false
  {
    PermutedParts(sha, rows, other);
    if Accepts(sha, rows) {
      OkMeansChain(sha, rows);
      ChainMeansOk(sha, other, Walk(Intact(sha, rows)));
      OkMeansChain(sha, other);
    }
    if Accepts(sha, other) {
      OkMeansChain(sha, other);
      ChainMeansOk(sha, rows, Walk(Intact(sha, other)));
    }
  }

  // ---------------------------------------------------------------------------
  // The walk ends
  // ---------------------------------------------------------------------------

  /** A row hash settles the parent it was computed over. */
  ghost predicate HashFixesParent(acc: seq<Row>) {
    forall r, q :: r in acc && q in acc && Hash(r) == Hash(q) ==> Parent(r) == Parent(q)
  }

  ghost predicate IsPath(acc: seq<Row>, w: seq<Row>) {
    && w != [] && w[0] in acc && IsRoot(acc, Parent(w[0]))
    && (forall i :: 0 < i < |w| ==> w[i] in acc && Parent(w[i]) == Hash(w[i - 1]))
  }

  /** Links met from a start never repeat: going back from a repeat would give the start a parent. */
  lemma {:induction false} PathHashesDiffer(acc: seq<Row>, w: seq<Row>, i: nat, j: nat)
    requires HashFixesParent(acc) && GENESIS !in Hashes(acc)
    requires IsPath(acc, w) && i < j < |w|
    ensures Hash(w[i]) != Hash(w[j])
    decreases i
  {
    assert w[j - 1] in acc && Hash(w[j - 1]) in Hashes(acc);
    if i > 0 {
      PathHashesDiffer(acc, w, i - 1, j - 1);
    }
  }

  lemma PathBounded(acc: seq<Row>, w: seq<Row>)
    requires HashFixesParent(acc) && GENESIS !in Hashes(acc) && IsPath(acc, w)
    ensures |w| <= |Hashes(acc)|
  {
    var hs := HashSeq(w);
    forall i, j | 0 <= i < j < |hs|
      ensures hs[i] != hs[j]
    {
      PathHashesDiffer(acc, w, i, j);
    }
    DistinctSize(hs);
    var met := set h | h in hs;
    forall h | h in met
      ensures h in Hashes(acc)
    {
      var i :| 0 <= i < |hs| && hs[i] == h;
      assert w[i] in acc;
    }
    SubsetSize(met, Hashes(acc));
  }

  lemma {:induction false} TrailLinks(acc: seq<Row>, r: Row, n: nat)
    requires n > 0 && r in acc
    ensures var w := Trail(acc, r, n);
      && w != [] && w[0] == r
      && forall i :: 0 < i < |w| ==> w[i] in acc && Parent(w[i]) == Hash(w[i - 1])
    decreases n
  {
    var kids := Kids(acc, Hash(r));
    if kids != [] && n > 1 {
      var next := kids[0];
      KidAt(acc, Hash(r), 0);
      TrailLinks(acc, next, n - 1);
      var v := Trail(acc, next, n - 1);
      var w := Trail(acc, r, n);
      forall i | 0 < i < |w|
        ensures w[i] in acc && Parent(w[i]) == Hash(w[i - 1])
      {
        assert w[i] == v[i - 1];
        if i > 1 { assert w[i - 1] == v[i - 2]; }
      }
    }
  }

  /**
   * TERMINATION. On any rows whatever, the walk ends within one step per distinct hash,
   * as soon as a row hash settles its parent.
   */
  lemma WalkTerminates(acc: seq<Row>)
    requires HashFixesParent(acc) && GENESIS !in Hashes(acc)
    ensures WalkEnds(acc) && |Walk(acc)| <= |Hashes(acc)|
  {
    if Starts(acc) != [] {
      StartInAcc(acc);
      var s := Starts(acc)[0];
      var n := |Hashes(acc)| + 1;
      TrailLinks(acc, s, n);
      PathBounded(acc, Trail(acc, s, n));
      WalkShape(acc);
      TrailMembers(acc, s, Walk(acc));
    }
  }

  lemma IntactHash(sha: Digest, r: Row)
    requires IsIntact(sha, r)
    ensures r.prev == Some(Parent(r)) && r.hash == Some(Hash(r)) && Parent(r) != ""
    ensures Hash(r) == sha(Payload(Parent(r), r.fields))
  {
  }

  /** Under a collision-free digest and parents without the record separator, it returns. */
  lemma VerifyReturns(sha: Digest, rows: seq<Row>)
    requires IdealDigest(sha)
    requires forall r :: r in rows && IsIntact(sha, r) ==> LINK_SEP !in Parent(r)
    ensures Terminates(sha, rows)
  {
    var acc := Intact(sha, rows);
    forall r, q | r in acc && q in acc && Hash(r) == Hash(q)
      ensures Parent(r) == Parent(q)
    {
      IntactMember(sha, rows, r);
      IntactMember(sha, rows, q);
      IntactHash(sha, r);
      IntactHash(sha, q);
      PayloadParts(Parent(r), r.fields, Parent(q), q.fields);
    }
    forall r | r in acc
      ensures Hash(r) != GENESIS
    {
      IntactMember(sha, rows, r);
      IntactHash(sha, r);
    }
    WalkTerminates(acc);
  }

  // ---------------------------------------------------------------------------
  // Chains under a collision-free digest
  // ---------------------------------------------------------------------------

  /** Every anchor commits to a legacy id without the record separator. */
  ghost predicate IdAnchors(sha: Digest, anchors: set<string>) {
    forall a :: a in anchors ==> exists id :: LINK_SEP !in id && a == LegacyAnchor(sha, Some(id))
  }

  ghost predicate CleanIds(rows: seq<Row>) {
    forall r :: r in rows && IsLegacy(r) ==> LINK_SEP !in IdText(r)
  }

  lemma ExportAnchors(sha: Digest, rows: seq<Row>)
    requires CleanIds(rows)
    ensures IdAnchors(sha, Anchors(sha, rows))
  {
  }

  /** A chain's parents are GENESIS, an anchor, or a digest: never with a record separator. */
  lemma ChainParentClean(sha: Digest, anchors: set<string>, s: seq<Row>, i: nat)
    requires IdealDigest(sha) && IdAnchors(sha, anchors) && IsChain(sha, anchors, s) && i < |s|
    ensures LINK_SEP !in Parent(s[i])
  {
    if i > 0 {
      IntactHash(sha, s[i - 1]);
    } else if Parent(s[0]) != GENESIS {
      var id :| LINK_SEP !in id && Parent(s[0]) == LegacyAnchor(sha, Some(id));
    }
  }

  /** The parent of the first row of a chain is no row hash at all. */
  lemma RootParentIsNoHash(sha: Digest, anchors: set<string>, s: seq<Row>, r: Row)
    requires IdealDigest(sha) && IdAnchors(sha, anchors) && IsChain(sha, anchors, s) && s != []
    requires IsIntact(sha, r)
    ensures Hash(r) != Parent(s[0])
  {
    IntactHash(sha, r);
    if Parent(s[0]) != GENESIS {
      var id :| LINK_SEP !in id && Parent(s[0]) == LegacyAnchor(sha, Some(id));
      AnchorIsNoRowHash(sha, id, Parent(r), r.fields);
    }
  }

  /** Equal hashes at two places of two chains: the same parent, hence the same distance to the root. */
  lemma {:induction false} SameDepth(sha: Digest, anchors: set<string>, s: seq<Row>,
                                     others: set<string>, t: seq<Row>, i: nat, j: nat)
    requires IdealDigest(sha) && IdAnchors(sha, anchors) && IdAnchors(sha, others)
    requires IsChain(sha, anchors, s) && IsChain(sha, others, t)
    requires i < |s| && j < |t| && Hash(s[i]) == Hash(t[j])
    ensures i == j
    decreases i
  {
    IntactHash(sha, s[i]);
    IntactHash(sha, t[j]);
    ChainParentClean(sha, anchors, s, i);
    ChainParentClean(sha, others, t, j);
    PayloadParts(Parent(s[i]), s[i].fields, Parent(t[j]), t[j].fields);
    if i == 0 && j > 0 {
      RootParentIsNoHash(sha, anchors, s, t[j - 1]);
    } else if j == 0 && i > 0 {
      RootParentIsNoHash(sha, others, t, s[i - 1]);
    } else if i > 0 {
      SameDepth(sha, anchors, s, others, t, i - 1, j - 1);
    }
  }

  /** So a chain never repeats a hash: no duplicate row can hide in it. */
  lemma ChainIsSimple(sha: Digest, anchors: set<string>, s: seq<Row>)
    requires IdealDigest(sha) && IdAnchors(sha, anchors) && IsChain(sha, anchors, s)
    ensures IsSimple(s)
  {
    forall i, j | 0 <= i < j < |s|
      ensures Hash(s[i]) != Hash(s[j])
    {
      if Hash(s[i]) == Hash(s[j]) {
        SameDepth(sha, anchors, s, anchors, s, i, j);
      }
    }
    forall i | 0 <= i < |s|
      ensures Hash(s[i]) != Parent(s[0])
    {
      RootParentIsNoHash(sha, anchors, s, s[i]);
    }
  }

  /** The verdict under a collision-free digest: ok exactly when some arrangement is a chain. */
  lemma OkIffSomeChain(sha: Digest, rows: seq<Row>)
    requires IdealDigest(sha) && CleanIds(rows)
    ensures Accepts(sha, rows) <==> exists s :: IsChain(sha, Anchors(sha, rows), s) && Arranges(rows, s)
  {
    ExportAnchors(sha, rows);
    OkIffChain(sha, rows);
    if s :| IsChain(sha, Anchors(sha, rows), s) && Arranges(rows, s) {
      ChainIsSimple(sha, Anchors(sha, rows), s);
    }
  }

  // ---------------------------------------------------------------------------
  // The head commits to the whole chain
  // ---------------------------------------------------------------------------

  ghost predicate CleanChain(s: seq<Row>) {
    forall i :: 0 <= i < |s| ==> CleanFields(s[i].fields)
  }

  lemma SameHashSameRow(sha: Digest, r: Row, q: Row)
    requires IdealDigest(sha) && IsIntact(sha, r) && IsIntact(sha, q)
    requires CleanFields(r.fields) && CleanFields(q.fields)
    requires LINK_SEP !in Parent(r) && LINK_SEP !in Parent(q)
    ensures Hash(r) == Hash(q) <==> r == q
  {
    IntactHash(sha, r);
    IntactHash(sha, q);
    PayloadInjective(Parent(r), r.fields, Parent(q), q.fields);
  }

  lemma {:induction false} SameHashSameHistory(sha: Digest, anchors: set<string>, s: seq<Row>,
                                               others: set<string>, t: seq<Row>, i: nat)
    requires IdealDigest(sha) && IdAnchors(sha, anchors) && IdAnchors(sha, others)
    requires IsChain(sha, anchors, s) && IsChain(sha, others, t) && CleanChain(s) && CleanChain(t)
    requires i < |s| && i < |t| && Hash(s[i]) == Hash(t[i])
    ensures s[..i + 1] == t[..i + 1]
  {
    SameRowAt(sha, anchors, s, others, t, i);
    if i > 0 {
      SameHashSameHistory(sha, anchors, s, others, t, i - 1);
    }
    PrefixGrows(s, t, i);
  }

  lemma PrefixGrows<T>(s: seq<T>, t: seq<T>, i: nat)
    requires i < |s| && i < |t| && s[..i] == t[..i] && s[i] == t[i]
    ensures s[..i + 1] == t[..i + 1]
  {
    assert s[..i + 1] == s[..i] + [s[i]] && t[..i + 1] == t[..i] + [t[i]];
  }

  lemma SameRowAt(sha: Digest, anchors: set<string>, s: seq<Row>, others: set<string>, t: seq<Row>, i: nat)
    requires IdealDigest(sha) && IdAnchors(sha, anchors) && IdAnchors(sha, others)
    requires IsChain(sha, anchors, s) && IsChain(sha, others, t) && CleanChain(s) && CleanChain(t)
    requires i < |s| && i < |t| && Hash(s[i]) == Hash(t[i])
    ensures s[i] == t[i] && (i > 0 ==> Hash(s[i - 1]) == Hash(t[i - 1]))
  {
    ChainParentClean(sha, anchors, s, i);
    ChainParentClean(sha, others, t, i);
    SameHashSameRow(sha, s[i], t[i]);
  }

  /** Chains with the same tip hash are the same chain. */
  lemma SameTipSameChain(sha: Digest, anchors: set<string>, s: seq<Row>, others: set<string>, t: seq<Row>)
    requires IdealDigest(sha) && IdAnchors(sha, anchors) && IdAnchors(sha, others)
    requires IsChain(sha, anchors, s) && IsChain(sha, others, t) && CleanChain(s) && CleanChain(t)
    requires s != [] && t != [] && Hash(s[|s| - 1]) == Hash(t[|t| - 1])
    ensures s == t
  {
    SameDepth(sha, anchors, s, others, t, |s| - 1, |t| - 1);
    SameHashSameHistory(sha, anchors, s, others, t, |s| - 1);
    assert s[..|s|] == s && t[..|t|] == t;
  }

  lemma ChainFieldsClean(rows: seq<Row>, s: seq<Row>)
    requires Arranges(rows, s) && forall r :: r in rows ==> CleanFields(r.fields)
    ensures CleanChain(s)
  {
    forall i | 0 <= i < |s|
      ensures CleanFields(s[i].fields)
    {
      BagMembers(Chained(rows), s, s[i]);
      ChainedMember(rows, s[i]);
    }
  }

  /** One bag has one simple arrangement. */
  lemma BothArrange(sha: Digest, rows: seq<Row>, s: seq<Row>, others: set<string>, t: seq<Row>)
    requires NeverGenesis(sha) && Arranges(rows, s) && Arranges(rows, t)
    requires IsChain(sha, Anchors(sha, rows), s) && IsSimple(s)
    requires IsChain(sha, others, t) && IsSimple(t)
    ensures s == t
  {
    WalkOfChain(sha, Anchors(sha, rows), Chained(rows), s);
    WalkOfChain(sha, others, Chained(rows), t);
  }

  /** What a clean export of well-formed rows exhibits. */
  ghost predicate Exhibits(sha: Digest, rows: seq<Row>, s: seq<Row>) {
    && IdAnchors(sha, Anchors(sha, rows)) && IsChain(sha, Anchors(sha, rows), s) && CleanChain(s)
    && IsSimple(s) && Arranges(rows, s)
  }

  function Tip(s: seq<Row>): Option<string> {
    if s == [] then None else Some(Hash(s[|s| - 1]))
  }

  lemma CleanExport(sha: Digest, rows: seq<Row>)
    requires IdealDigest(sha) && CleanIds(rows) && Accepts(sha, rows)
    requires forall r :: r in rows ==> CleanFields(r.fields)
    ensures var s := Walk(Intact(sha, rows));
      && Exhibits(sha, rows, s)
      && Verify(sha, rows).report.head == Tip(s)
  {
    ExportAnchors(sha, rows);
    OkMeansChain(sha, rows);
    ChainFieldsClean(rows, Walk(Intact(sha, rows)));
  }

  lemma TipPinsBag(sha: Digest, rows: seq<Row>, s: seq<Row>, other: seq<Row>, t: seq<Row>)
    requires IdealDigest(sha) && Exhibits(sha, rows, s) && Exhibits(sha, other, t)
    ensures Tip(s) == Tip(t) <==> multiset(Chained(rows)) == multiset(Chained(other))
  {
    if s != [] && t != [] && Tip(s) == Tip(t) {
      SameTipSameChain(sha, Anchors(sha, rows), s, Anchors(sha, other), t);
    }
    if multiset(Chained(rows)) == multiset(Chained(other)) {
      BothArrange(sha, rows, s, Anchors(sha, other), t);
    }
  }

  /**
   * PINNED HEAD. Two clean exports report the same head exactly when they hold the same
   * chained rows. Any truncation or rewrite therefore changes the head.
   */
  lemma HeadPinsChain(sha: Digest, rows: seq<Row>, other: seq<Row>)
    requires IdealDigest(sha) && CleanIds(rows) && CleanIds(other)
    requires forall r :: r in rows || r in other ==> CleanFields(r.fields)
    requires Accepts(sha, rows) && Accepts(sha, other)
    ensures Verify(sha, rows).report.head == Verify(sha, other).report.head <==>
            multiset(Chained(rows)) == multiset(Chained(other))
  {
    CleanExport(sha, rows);
    CleanExport(sha, other);
    TipPinsBag(sha, rows, Walk(Intact(sha, rows)), other, Walk(Intact(sha, other)));
  }

  // ---------------------------------------------------------------------------
  // Tampering with an honestly written ledger
  // ---------------------------------------------------------------------------

  /** What the broker wrote: unchained rows first, then a chain anchored at the last of them. */
  ghost predicate Written(sha: Digest, legacy: seq<Row>, chain: seq<Row>) {
    && (forall r :: r in legacy ==> IsLegacy(r)) && CleanIds(legacy)
    && (forall i :: 0 <= i < |chain| ==> IsIntact(sha, chain[i]))
    && (forall i :: 0 < i < |chain| ==> Parent(chain[i]) == Hash(chain[i - 1]))
    && (chain != [] ==> Parent(chain[0]) == LegacyAnchor(sha, LastId(legacy)))
  }

  function LastId(legacy: seq<Row>): Option<string> {
    if legacy == [] then None else Some(IdText(legacy[|legacy| - 1]))
  }

  function WrittenAnchors(sha: Digest, legacy: seq<Row>): set<string> {
    match LastId(legacy) case None => {} case Some(id) => {LegacyAnchor(sha, Some(id))}
  }

  lemma WrittenIsChain(sha: Digest, legacy: seq<Row>, chain: seq<Row>)
    requires Written(sha, legacy, chain)
    ensures IsChain(sha, WrittenAnchors(sha, legacy), chain)
    ensures IdAnchors(sha, WrittenAnchors(sha, legacy))
  {
  }

  /** The export keeps exactly the first `k` chained rows, and the row they are anchored to. */
  ghost predicate KeepsPrefix(legacy: seq<Row>, chain: seq<Row>, rows: seq<Row>, k: nat)
    requires k <= |chain|
  {
    && multiset(Chained(rows)) == multiset(chain[..k])
    && (k > 0 && legacy != [] ==> exists r :: r in rows && IsLegacy(r) && Some(IdText(r)) == LastId(legacy))
  }

  lemma SubBagMember(big: seq<Row>, rows: seq<Row>, r: Row)
    requires multiset(rows) <= multiset(big) && r in rows
    ensures r in big
  {
    assert r in multiset(rows);
    assert r in multiset(big);
  }

  /** A chain made of honest rows starts at the honest root and follows the honest order. */
  lemma {:induction false} HonestOrder(sha: Digest, anchors: set<string>, s: seq<Row>,
                                       others: set<string>, chain: seq<Row>, i: nat)
    requires IdealDigest(sha) && IdAnchors(sha, anchors) && IdAnchors(sha, others)
    requires IsChain(sha, anchors, s) && IsChain(sha, others, chain)
    requires forall r :: r in s ==> r in chain
    requires i < |s|
    ensures i < |chain| && s[i] == chain[i]
  {
    assert s[i] in s;
    var j :| 0 <= j < |chain| && chain[j] == s[i];
    SameDepth(sha, anchors, s, others, chain, i, j);
  }

  lemma ExportOfWritten(sha: Digest, legacy: seq<Row>, chain: seq<Row>, rows: seq<Row>)
    requires Written(sha, legacy, chain) && multiset(rows) <= multiset(legacy + chain)
    ensures CleanIds(rows) && IdAnchors(sha, Anchors(sha, rows))
    ensures forall r :: r in rows && !IsLegacy(r) ==> r in chain
  {
    forall r | r in rows
      ensures if IsLegacy(r) then r in legacy else r in chain
    {
      SubBagMember(legacy + chain, rows, r);
    }
    ExportAnchors(sha, rows);
  }

  lemma PrefixIsAccepted(sha: Digest, legacy: seq<Row>, chain: seq<Row>, rows: seq<Row>, k: nat)
    requires IdealDigest(sha) && Written(sha, legacy, chain)
    requires multiset(rows) <= multiset(legacy + chain)
    requires k <= |chain| && KeepsPrefix(legacy, chain, rows, k)
    ensures Accepts(sha, rows)
  {
    ExportOfWritten(sha, legacy, chain, rows);
    var s := chain[..k];
    assert IsChain(sha, Anchors(sha, rows), s);
    OkIffSomeChain(sha, rows);
  }

  lemma HonestPrefix(sha: Digest, anchors: set<string>, s: seq<Row>, others: set<string>, chain: seq<Row>)
    requires IdealDigest(sha) && IdAnchors(sha, anchors) && IdAnchors(sha, others)
    requires IsChain(sha, anchors, s) && IsChain(sha, others, chain)
    requires forall r :: r in s ==> r in chain
    ensures |s| <= |chain| && s == chain[..|s|]
  {
    forall i | 0 <= i < |s|
      ensures i < |chain| && s[i] == chain[i]
    {
      HonestOrder(sha, anchors, s, others, chain, i);
    }
    if s != [] {
      HonestOrder(sha, anchors, s, others, chain, |s| - 1);
    }
  }

  /** Anchors are told apart by the ids they commit to. */
  lemma AnchorNamesId(sha: Digest, a: string, b: string)
    requires IdealDigest(sha) && LegacyAnchor(sha, Some(a)) == LegacyAnchor(sha, Some(b))
    ensures a == b
  {
    assert LEGACY_TAG + a == LEGACY_TAG + b;
    assert a == (LEGACY_TAG + a)[|LEGACY_TAG|..] && b == (LEGACY_TAG + b)[|LEGACY_TAG|..];
  }

  lemma AnchorRowKept(sha: Digest, legacy: seq<Row>, rows: seq<Row>)
    requires IdealDigest(sha) && legacy != []
    requires LegacyAnchor(sha, LastId(legacy)) in Anchors(sha, rows)
    ensures exists r :: r in rows && IsLegacy(r) && Some(IdText(r)) == LastId(legacy)
  {
    var r :| r in rows && IsLegacy(r) && LegacyAnchor(sha, Some(IdText(r))) == LegacyAnchor(sha, LastId(legacy));
    AnchorNamesId(sha, IdText(r), LastId(legacy).value);
  }

  /** The walk over an accepted sub-export is an anchored chain of rows of the written one. */
  lemma AcceptedWalk(sha: Digest, legacy: seq<Row>, chain: seq<Row>, rows: seq<Row>)
    requires IdealDigest(sha) && Written(sha, legacy, chain)
    requires multiset(rows) <= multiset(legacy + chain) && Accepts(sha, rows)
    ensures var s := Walk(Intact(sha, rows));
      && IsChain(sha, Anchors(sha, rows), s) && Arranges(rows, s)
      && forall r :: r in s ==> r in chain
  {
    ExportOfWritten(sha, legacy, chain, rows);
    OkMeansChain(sha, rows);
    var s := Walk(Intact(sha, rows));
    forall r | r in s
      ensures r in chain
    {
      BagMembers(Chained(rows), s, r);
      ChainedMember(rows, r);
    }
  }

  lemma WalkIsPrefix(sha: Digest, legacy: seq<Row>, chain: seq<Row>, rows: seq<Row>)
    requires IdealDigest(sha) && Written(sha, legacy, chain)
    requires multiset(rows) <= multiset(legacy + chain) && Accepts(sha, rows)
    ensures var s := Walk(Intact(sha, rows));
      |s| <= |chain| && s == chain[..|s|] && multiset(Chained(rows)) == multiset(s)
  {
    ExportOfWritten(sha, legacy, chain, rows);
    WrittenIsChain(sha, legacy, chain);
    AcceptedWalk(sha, legacy, chain, rows);
    HonestPrefix(sha, Anchors(sha, rows), Walk(Intact(sha, rows)), WrittenAnchors(sha, legacy), chain);
  }

  /** A chain that starts where the written one does stands on the same legacy row. */
  lemma StartKeepsAnchor(sha: Digest, legacy: seq<Row>, chain: seq<Row>, rows: seq<Row>, s: seq<Row>)
    requires IdealDigest(sha) && Written(sha, legacy, chain) && legacy != []
    requires IsChain(sha, Anchors(sha, rows), s) && s != [] && chain != [] && s[0] == chain[0]
    ensures exists r :: r in rows && IsLegacy(r) && Some(IdText(r)) == LastId(legacy)
  {
    assert Parent(s[0]) == LegacyAnchor(sha, LastId(legacy)) == sha(LEGACY_TAG + LastId(legacy).value);
    AnchorRowKept(sha, legacy, rows);
  }

  lemma AcceptedIsPrefix(sha: Digest, legacy: seq<Row>, chain: seq<Row>, rows: seq<Row>) returns (k: nat)
    requires IdealDigest(sha) && Written(sha, legacy, chain)
    requires multiset(rows) <= multiset(legacy + chain) && Accepts(sha, rows)
    ensures k <= |chain| && KeepsPrefix(legacy, chain, rows, k)
  {
    var s := Walk(Intact(sha, rows));
    k := |s|;
    WalkIsPrefix(sha, legacy, chain, rows);
    if k > 0 && legacy != [] {
      AcceptedWalk(sha, legacy, chain, rows);
      assert s[0] == chain[0];
      StartKeepsAnchor(sha, legacy, chain, rows, s);
    }
  }

  /**
   * DELETION. Any sub-bag of a written ledger verifies exactly when its chained rows are a
   * prefix of the chain and the legacy row that prefix is anchored to is still there.
   */
  lemma SubExportVerdict(sha: Digest, legacy: seq<Row>, chain: seq<Row>, rows: seq<Row>)
    requires IdealDigest(sha) && Written(sha, legacy, chain)
    requires multiset(rows) <= multiset(legacy + chain)
    ensures Accepts(sha, rows) <==>
            exists k: nat :: k <= |chain| && KeepsPrefix(legacy, chain, rows, k)
  {
    if Accepts(sha, rows) {
      var k := AcceptedIsPrefix(sha, legacy, chain, rows);
    }
    if k: nat :| k <= |chain| && KeepsPrefix(legacy, chain, rows, k) {
      PrefixIsAccepted(sha, legacy, chain, rows, k);
    }
  }

  /**
   * MUTATION. A row that keeps an honest row's two chain columns but changes any contract
   * column makes every export holding it fail, whatever else the export holds.
   */
  lemma MutationDetected(sha: Digest, honest: Row, altered: Row, rows: seq<Row>)
    requires IdealDigest(sha) && IsIntact(sha, honest)
    requires altered.prev == honest.prev && altered.hash == honest.hash
    requires CleanFields(honest.fields) && CleanFields(altered.fields)
    requires altered.fields != honest.fields && altered in rows
    ensures !Accepts(sha, rows)
  {
    IntactHash(sha, honest);
    var p := Parent(honest);
    if IsIntact(sha, altered) {
      IntactHash(sha, altered);
      var a, h := Payload(p, altered.fields), Payload(p, honest.fields);
      assert a == h;
      assert Join(altered.fields) == a[|p| + 1..] && Join(honest.fields) == h[|p| + 1..];
      SplitJoin(altered.fields);
      SplitJoin(honest.fields);
    }
    if Accepts(sha, rows) {
      CleanFacts(sha, rows);
    }
  }
}
