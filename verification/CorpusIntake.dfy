/**
 * What binds an establishment run to the corpus it read (establish_intake/intake.py): the
 * manifest check, and the de-duplicated file names the documents are written under. Hashing
 * and the sanitizing of a document's name are inputs.
 */
module CorpusIntake {
  import opened Basics
  import opened Text

  datatype Doc = Doc(id: string, sha: string)

  /** One manifest item; None when it is not an object. */
  type Item = Option<Doc>

  // ---------------------------------------------------------------------------
  // The manifest
  // ---------------------------------------------------------------------------

  /** The hash each id stands for: of documents sharing an id, the last one's. */
  function ById(docs: seq<Doc>): map<string, string> {
    if docs == [] then map[] else ById(docs[..|docs| - 1])[docs[|docs| - 1].id := docs[|docs| - 1].sha]
  }

  predicate Matches(item: Item, byId: map<string, string>) {
    item.Some? && item.value.id in byId && byId[item.value.id] == item.value.sha
  }

  predicate Covers(items: seq<Item>, byId: map<string, string>, id: string) {
    exists i :: 0 <= i < |items| && Matches(items[i], byId) && items[i].value.id == id
  }

  /** The manifest raises no problem against the documents. */
  predicate Accepted(manifest: Option<seq<Item>>, docs: seq<Doc>) {
    && manifest.Some? && manifest.value != []
    && (forall i :: 0 <= i < |manifest.value| ==> Matches(manifest.value[i], ById(docs)))
    && (forall id :: id in ById(docs) ==> Covers(manifest.value, ById(docs), id))
  }

  /** `_verify_manifest`: how many problems it reports. */
  method VerifyManifest(manifest: Option<seq<Item>>, docs: seq<Doc>) returns (problems: nat)
    ensures problems == 0 <==> Accepted(manifest, docs)
  {
    problems := 0;
    if manifest.None? || manifest.value == [] {
      return 1;
    }
    var items := manifest.value;
    var byId: map<string, string> := map[];
    for i := 0 to |docs|
      invariant byId == ById(docs[..i])
    {
      assert docs[..i + 1][..i] == docs[..i];
      byId := byId[docs[i].id := docs[i].sha];
    }
    assert docs[..|docs|] == docs;
    var seen: set<string> := {};
    for i := 0 to |items|
      invariant problems == 0 <==> forall j :: 0 <= j < i ==> Matches(items[j], byId)
      invariant forall id :: id in seen <==> exists j :: 0 <= j < i && Matches(items[j], byId) && items[j].value.id == id
    {
      ghost var was := seen;
      if items[i].None? || items[i].value.id !in byId || byId[items[i].value.id] != items[i].value.sha {
        problems := problems + 1;
      } else {
        seen := seen + {items[i].value.id};
      }
      assert forall id :: id in was ==> id in seen;
    }
    var rest := byId.Keys;
    while rest != {}
      invariant rest <= byId.Keys
      invariant problems == 0 <==>
        && (forall j :: 0 <= j < |items| ==> Matches(items[j], byId))
        && (forall id :: id in byId.Keys - rest ==> id in seen)
      decreases rest
    {
      var id :| id in rest;
      if id !in seen {
        problems := problems + 1;
      }
      rest := rest - {id};
    }
    assert forall id :: id in byId ==> (id in seen <==> Covers(items, byId, id));
  }

  /** Documents that share an id are one and the same text. */
  ghost predicate IdsAgree(docs: seq<Doc>) {
    forall a, b :: a in docs && b in docs && a.id == b.id ==> a.sha == b.sha
  }

  /** The dictionary holds each id that occurs, with the hash of some document of that id. */
  lemma {:induction false} ByIdFinds(docs: seq<Doc>, id: string)
    ensures id in ById(docs) <==> exists d :: d in docs && d.id == id
    ensures id in ById(docs) ==> Doc(id, ById(docs)[id]) in docs
  {
    if docs != [] {
      var init, last := docs[..|docs| - 1], docs[|docs| - 1];
      ByIdFinds(init, id);
      assert docs == init + [last];
      if last.id == id {
        assert last in docs && last == Doc(id, last.sha);
      } else if d :| d in docs && d.id == id {
        assert d in init;
      }
    }
  }

  lemma MatchesIsMember(docs: seq<Doc>, item: Item)
    ensures Matches(item, ById(docs)) ==> item.Some? && item.value in docs
    ensures IdsAgree(docs) && item.Some? && item.value in docs ==> Matches(item, ById(docs))
  {
    if item.Some? {
      ByIdFinds(docs, item.value.id);
    }
  }

  /**
   * WHAT IS BOUND. An accepted manifest names every document of the run, with its own hash,
   * exactly when no two documents share an id with different texts.
   */
  lemma AcceptedBindsAllIff(items: seq<Item>, docs: seq<Doc>)
    requires Accepted(Some(items), docs)
    ensures (forall d :: d in docs ==> Some(d) in items) <==> IdsAgree(docs)
  {
    var byId := ById(docs);
    forall d | d in docs
      ensures d.id in byId && Some(Doc(d.id, byId[d.id])) in items && Doc(d.id, byId[d.id]) in docs
    {
      ByIdFinds(docs, d.id);
      assert Covers(items, byId, d.id);
      var i :| 0 <= i < |items| && Matches(items[i], byId) && items[i].value.id == d.id;
      assert items[i] == Some(Doc(d.id, byId[d.id]));
    }
    if forall d :: d in docs ==> Some(d) in items {
      forall d | d in docs
        ensures d.sha == byId[d.id]
      {
        var i :| 0 <= i < |items| && items[i] == Some(d);
        assert Matches(items[i], byId);
      }
    }
  }

  /**
   * THE BINDING. When documents that share an id are the same text, a non-empty manifest is
   * accepted exactly when it names precisely the documents of the run.
   */
  lemma ManifestBindsCorpus(items: seq<Item>, docs: seq<Doc>)
    requires IdsAgree(docs) && items != []
    ensures Accepted(Some(items), docs) <==>
            && (forall item :: item in items ==> item.Some? && item.value in docs)
            && (forall d :: d in docs ==> Some(d) in items)
  {
    var byId := ById(docs);
    forall item: Item
      ensures Matches(item, byId) <==> item.Some? && item.value in docs
    {
      MatchesIsMember(docs, item);
    }
    if Accepted(Some(items), docs) {
      AcceptedBindsAllIff(items, docs);
    }
    if (forall item :: item in items ==> item.Some? && item.value in docs) && (forall d :: d in docs ==> Some(d) in items) {
      forall id | id in byId
        ensures Covers(items, byId, id)
      {
        ByIdFinds(docs, id);
        var d :| d in docs && d.id == id;
        assert Some(d) in items;
        var i :| 0 <= i < |items| && items[i] == Some(d);
        assert Matches(items[i], byId);
      }
    }
  }

  /** With an id shared by two documents, the first one's text is bound by nothing. */
  lemma SharedIdEscapes(a: Doc, b: Doc)
    requires a.id == b.id && a.sha != b.sha
    ensures Accepted(Some([Some(b)]), [a, b]) && !Accepted(Some([Some(a), Some(b)]), [a, b])
  {
    var docs, items := [a, b], [Some(b)];
    assert docs[..1] == [a] && ([a])[..0] == [];
    assert ById([]) == map[];
    assert ById([a]) == map[a.id := a.sha];
    assert ById(docs) == map[a.id := b.sha];
    assert Matches(items[0], ById(docs));
    assert !Matches(([Some(a), Some(b)])[0], ById(docs));
  }

  // ---------------------------------------------------------------------------
  // File names
  // ---------------------------------------------------------------------------

  /** The `n`th name tried for a document: the name itself, then `-2`, `-3` and so on. */
  function Candidate(base: string, n: nat): string {
    if n <= 1 then base else base + "-" + Digits(n)
  }

  lemma CandidatesDiffer(base: string, m: nat, n: nat)
    requires 1 <= m < n
    ensures Candidate(base, m) != Candidate(base, n)
  {
    ValueOfDigits(m);
    ValueOfDigits(n);
    var tail := Candidate(base, n)[|base|..];
    assert tail == "-" + Digits(n) && tail[1..] == Digits(n);
    if 1 < m {
      var other := Candidate(base, m)[|base|..];
      assert other == "-" + Digits(m) && other[1..] == Digits(m);
    }
  }

  /** `name` is the first name tried for `base` that `used` does not hold. */
  ghost predicate FirstFree(base: string, used: set<string>, name: string) {
    exists n: nat :: n >= 1 && name == Candidate(base, n) && name !in used
      && forall m: nat :: 1 <= m < n ==> Candidate(base, m) in used
  }

  /** The inner loop of `_materialize_corpus`: it ends, on the first free name. */
  method Pick(base: string, used: set<string>) returns (name: string)
    ensures FirstFree(base, used, name)
  {
    name := base;
    var n: nat := 1;
    ghost var tried: set<string> := {};
    while name in used
      invariant n >= 1 && name == Candidate(base, n)
      invariant forall m: nat :: 1 <= m < n ==> Candidate(base, m) in tried
      invariant forall t :: t in tried ==> exists m: nat :: 1 <= m < n && t == Candidate(base, m)
      invariant tried <= used
      decreases used - tried
    {
      assert name !in tried by {
        if name in tried {
          var m: nat :| 1 <= m < n && name == Candidate(base, m);
          CandidatesDiffer(base, m, n);
        }
      }
      tried := tried + {name};
      n := n + 1;
      name := Candidate(base, n);
    }
  }

  function Names(s: seq<string>): set<string> {
    set n | n in s
  }

  ghost predicate EachFirstFree(bases: seq<string>, names: seq<string>) {
    |names| <= |bases| && forall i :: 0 <= i < |names| ==> FirstFree(bases[i], Names(names[..i]), names[i])
  }

  lemma NamesSnoc(bases: seq<string>, names: seq<string>, name: string)
    requires EachFirstFree(bases, names) && Distinct(names) && name !in Names(names)
    requires |names| < |bases| && FirstFree(bases[|names|], Names(names), name)
    ensures EachFirstFree(bases, names + [name]) && Distinct(names + [name])
    ensures Names(names + [name]) == Names(names) + {name}
  {
    var longer := names + [name];
    forall i | 0 <= i < |longer|
      ensures FirstFree(bases[i], Names(longer[..i]), longer[i])
    {
      assert longer[..i] == names[..i];
      assert names[..|names|] == names;
    }
  }

  /** `_materialize_corpus`: one file per document, no two under the same name. */
  method MaterializeCorpus(bases: seq<string>) returns (names: seq<string>)
    ensures |names| == |bases| && Distinct(names)
    ensures forall i :: 0 <= i < |names| ==> FirstFree(bases[i], Names(names[..i]), names[i])
  {
    names := [];
    var used: set<string> := {};
    for i := 0 to |bases|
      invariant |names| == i && Distinct(names)
      invariant used == Names(names) && EachFirstFree(bases, names)
    {
      var name := Pick(bases[i], used);
      NamesSnoc(bases, names, name);
      names := names + [name];
      used := used + {name};
    }
  }
}
