/**
 * One vault document, two writers (establish_intake/intake.py): an establishment replaces a
 * property's distilled body, a confirmed adjustment appends one sentence to the same
 * property, and both go through one motion of read, merge, copy, write and read back.
 * JSON text, sizes and rendering are parameters; storage faults are inputs.
 */
module VaultMerge {
  import opened Basics

  const MAX_ADJUSTMENTS: nat := 50
  const MAX_SPEC_BYTES: nat := 256 * 1024

  datatype Json = Obj(fields: map<string, Json>) | Arr(items: seq<Json>) | Str(text: string) | Atom(n: int)

  type Fields = map<string, Json>

  /** `block` renders a list of adjustments; None where an item lacks a field it needs. */
  datatype Codec = Codec(
    parse: string -> Option<Json>, dump: Json -> string, size: string -> nat, block: seq<Json> -> Option<string>)

  /** What is written reads back. */
  ghost predicate RoundTrips(k: Codec) {
    forall j :: k.parse(k.dump(j)) == Some(j)
  }

  datatype Adjustment = Adjustment(id: string, text: string, instructedBy: string, at: string, appliedBy: Option<string>)

  function Record(a: Adjustment): Json {
    Obj(map["id" := Str(a.id), "text" := Str(a.text), "instructed_by" := Str(a.instructedBy), "at" := Str(a.at)]
        + if a.appliedBy.Some? then map["applied_by" := Str(a.appliedBy.value)] else map[])
  }

  datatype Change =
    | Install(body: string, digest: string, assertions: Option<Json>, provenance: Option<Json>)
    | Adjust(adjustment: Adjustment)

  /** The vault object and the single recovery copy beside it. */
  datatype Vault = Vault(current: Option<string>, previous: Option<string>)

  datatype Fate = Stored | Failed | StoredThenFailed

  datatype ReadBack = Reads(found: Option<string>) | ReadFails

  /** How storage and the applier answer one attempt. */
  datatype Weather = Weather(getFails: bool, copy: Fate, put: Fate, back: ReadBack, converged: bool)

  datatype Attempt = Attempt(cls: string, prop: string, change: Change, weather: Weather)

  datatype Status = Rejected | Error | Installed | Pending

  // ---------------------------------------------------------------------------
  // Reading the document
  // ---------------------------------------------------------------------------

  /** The classes a vault object contributes: none when it is absent, unparseable or misshapen. */
  function ClassesOf(k: Codec, current: Option<string>): Fields {
    if current.None? then map[] else
      var parsed := k.parse(current.value);
      if parsed.Some? && parsed.value.Obj? && "classes" in parsed.value.fields && parsed.value.fields["classes"].Obj?
      then parsed.value.fields["classes"].fields else map[]
  }

  function Slot(classes: Fields, cls: string, prop: string): Option<Json> {
    if cls in classes && classes[cls].Obj? && prop in classes[cls].fields
    then Some(classes[cls].fields[prop]) else None
  }

  /** A property's current entry, `{}` when there is none. */
  function Entry(classes: Fields, cls: string, prop: string): Fields {
    var slot := Slot(classes, cls, prop);
    if slot.Some? && slot.value.Obj? then slot.value.fields else map[]
  }

  /** The standing adjustments of an entry. */
  function Listed(entry: Fields): seq<Json> {
    if "adjustments" in entry && entry["adjustments"].Arr? then entry["adjustments"].items else []
  }

  /** Everything about an entry that is not an adjustment. */
  function Distilled(entry: Fields): Fields {
    entry - {"adjustments"}
  }

  // ---------------------------------------------------------------------------
  // The two merges
  // ---------------------------------------------------------------------------

  predicate HasId(item: Json, id: string) {
    item.Obj? && "id" in item.fields && item.fields["id"] == Str(id)
  }

  predicate Carries(items: seq<Json>, id: string) {
    exists i :: 0 <= i < |items| && HasId(items[i], id)
  }

  function StripNewlines(s: string): string {
    if s != "" && s[|s| - 1] == '\n' then StripNewlines(s[..|s| - 1]) else s
  }

  /** `render_spec` */
  function Render(k: Codec, body: string, items: seq<Json>): Option<string> {
    if items == [] then Some(body)
    else if k.block(items).None? then None
    else
      var block := k.block(items).value;
      Some(if block == "" then body else if body == "" then block else StripNewlines(body) + "\n\n" + block)
  }

  function BodyText(entry: Fields): string {
    if "body" in entry && entry["body"].Str? then entry["body"].text else ""
  }

  datatype Merge = Refuse | Raise | Write(entry: Fields)

  /** What an establishment authors of an entry. */
  function Authored(body: string, digest: string, assertions: Option<Json>, provenance: Option<Json>): Fields {
    map["body" := Str(body), "sha256" := Str(digest)]
    + (if assertions.Some? then map["assertions" := assertions.value] else map[])
    + (if provenance.Some? then map["provenance" := provenance.value] else map[])
  }

  function WithAdjustments(entry: Fields, items: seq<Json>): Fields {
    if items == [] then entry else entry["adjustments" := Arr(items)]
  }

  /** `_append` */
  function Appended(k: Codec, entry: Fields, a: Adjustment): Merge {
    var items := Listed(entry);
    if Carries(items, a.id) then Write(entry)
    else if |items| + 1 > MAX_ADJUSTMENTS then Refuse
    else
      var text := Render(k, BodyText(entry), items + [Record(a)]);
      if text.None? then Raise
      else if k.size(text.value) > MAX_SPEC_BYTES then Refuse
      else Write(WithAdjustments(entry, items + [Record(a)]))
  }

  function Merged(k: Codec, entry: Fields, change: Change): Merge {
    match change
    case Install(body, digest, assertions, provenance) =>
      Write(WithAdjustments(Authored(body, digest, assertions, provenance), Listed(entry)))
    case Adjust(a) => Appended(k, entry, a)
  }

  // ---------------------------------------------------------------------------
  // One attempt
  // ---------------------------------------------------------------------------

  /** The one check of `_install` that bounds what is merged: the new body's own size. */
  predicate Admitted(k: Codec, change: Change) {
    change.Install? ==> k.size(change.body) <= MAX_SPEC_BYTES
  }

  function MergeOf(k: Codec, v: Vault, a: Attempt): Merge {
    Merged(k, Entry(ClassesOf(k, v.current), a.cls, a.prop), a.change)
  }

  function Placed(classes: Fields, cls: string, prop: string, entry: Fields): Fields {
    var properties := if cls in classes && classes[cls].Obj? then classes[cls].fields else map[];
    classes[cls := Obj(properties[prop := Obj(entry)])]
  }

  function Document(slug: string, classes: Fields): Json {
    Obj(map["schema_version" := Atom(1), "customer" := Str(slug), "classes" := Obj(classes)])
  }

  /** The attempt gets as far as touching storage. */
  predicate Proceeds(k: Codec, v: Vault, a: Attempt) {
    Admitted(k, a.change) && !a.weather.getFails && MergeOf(k, v, a).Write?
  }

  /** The current object reaches the recovery key. */
  predicate Copies(k: Codec, v: Vault, a: Attempt) {
    Proceeds(k, v, a) && v.current.Some? && !a.weather.copy.Failed?
  }

  /** The new document reaches the vault key. */
  predicate Lands(k: Codec, v: Vault, a: Attempt) {
    Proceeds(k, v, a) && (v.current.Some? ==> a.weather.copy.Stored?) && !a.weather.put.Failed?
  }

  function Written(k: Codec, slug: string, v: Vault, a: Attempt): string
    requires MergeOf(k, v, a).Write?
  {
    k.dump(Document(slug, Placed(ClassesOf(k, v.current), a.cls, a.prop, MergeOf(k, v, a).entry)))
  }

  function Next(k: Codec, slug: string, v: Vault, a: Attempt): Vault {
    Vault(if Lands(k, v, a) then Some(Written(k, slug, v, a)) else v.current,
          if Copies(k, v, a) then v.current else v.previous)
  }

  function StatusOf(k: Codec, slug: string, v: Vault, a: Attempt): Status {
    if !Admitted(k, a.change) then Rejected
    else if a.weather.getFails then Error
    else if MergeOf(k, v, a).Refuse? then Rejected
    else if MergeOf(k, v, a).Raise? then Error
    else if v.current.Some? && !a.weather.copy.Stored? then Error
    else if !a.weather.put.Stored? then Error
    else if a.weather.back != Reads(Some(Written(k, slug, v, a))) then Error
    else if a.weather.converged then Installed
    else Pending
  }

  function After(k: Codec, slug: string, v: Vault, attempts: seq<Attempt>): Vault {
    if attempts == [] then v else Next(k, slug, After(k, slug, v, attempts[..|attempts| - 1]), attempts[|attempts| - 1])
  }

  // ---------------------------------------------------------------------------
  // What one attempt keeps
  // ---------------------------------------------------------------------------

  /** A refused merge writes nothing; a success means the document landed, its predecessor copied. */
  lemma StatusIsHonest(k: Codec, slug: string, v: Vault, a: Attempt)
    ensures StatusOf(k, slug, v, a).Rejected? ==> Next(k, slug, v, a) == v
    ensures StatusOf(k, slug, v, a).Installed? || StatusOf(k, slug, v, a).Pending? ==>
              && Lands(k, v, a) && a.weather.back == Reads(Next(k, slug, v, a).current)
              && (v.current.Some? ==> Next(k, slug, v, a).previous == v.current)
  {
  }

  predicate Succeeds(status: Status) {
    status.Installed? || status.Pending?
  }

  /** The write was reached, and went wrong only after the new document was stored. */
  predicate FailsLate(k: Codec, slug: string, v: Vault, a: Attempt) {
    && Proceeds(k, v, a) && (v.current.Some? ==> a.weather.copy.Stored?)
    && (a.weather.put.StoredThenFailed?
        || (a.weather.put.Stored? && a.weather.back != Reads(Some(Written(k, slug, v, a)))))
  }

  /** What lands is what is reported so, and the errors that came too late to stop it. */
  lemma LandsIff(k: Codec, slug: string, v: Vault, a: Attempt)
    ensures Lands(k, v, a) <==> Succeeds(StatusOf(k, slug, v, a)) || FailsLate(k, slug, v, a)
    ensures FailsLate(k, slug, v, a) ==> StatusOf(k, slug, v, a).Error?
  {
  }

  /** The classes after an attempt: the one entry replaced, or everything as it was. */
  lemma ClassesAfter(k: Codec, slug: string, v: Vault, a: Attempt)
    requires RoundTrips(k)
    ensures ClassesOf(k, Next(k, slug, v, a).current) ==
            if Lands(k, v, a) then Placed(ClassesOf(k, v.current), a.cls, a.prop, MergeOf(k, v, a).entry)
            else ClassesOf(k, v.current)
  {
    if Lands(k, v, a) {
      var doc := Document(slug, Placed(ClassesOf(k, v.current), a.cls, a.prop, MergeOf(k, v, a).entry));
      assert k.parse(k.dump(doc)) == Some(doc);
      assert doc.fields["classes"].Obj?;
    }
  }

  /** Every other class, and every other property of the class, is as it was. */
  lemma OthersUnchanged(k: Codec, slug: string, v: Vault, a: Attempt, cls: string, prop: string)
    requires RoundTrips(k) && (cls, prop) != (a.cls, a.prop)
    ensures var now, was := ClassesOf(k, Next(k, slug, v, a).current), ClassesOf(k, v.current);
      && Slot(now, cls, prop) == Slot(was, cls, prop)
      && (cls != a.cls ==> (cls in now <==> cls in was) && (cls in was ==> now[cls] == was[cls]))
  {
    ClassesAfter(k, slug, v, a);
  }

  /** The entry an attempt leaves at its own property. */
  lemma EntryAfter(k: Codec, slug: string, v: Vault, a: Attempt, cls: string, prop: string)
    requires RoundTrips(k)
    ensures var now, was := ClassesOf(k, Next(k, slug, v, a).current), ClassesOf(k, v.current);
      Entry(now, cls, prop) ==
        if Lands(k, v, a) && (cls, prop) == (a.cls, a.prop) then MergeOf(k, v, a).entry else Entry(was, cls, prop)
  {
    ClassesAfter(k, slug, v, a);
    if (cls, prop) != (a.cls, a.prop) {
      OthersUnchanged(k, slug, v, a, cls, prop);
    }
  }

  /** Neither merge clears what the other wrote. */
  lemma MergesShare(k: Codec, entry: Fields, change: Change)
    requires Merged(k, entry, change).Write?
    ensures var made := Merged(k, entry, change).entry;
      && Listed(entry) <= Listed(made)
      && (change.Install? ==>
          && Listed(made) == Listed(entry)
          && Distilled(made) == Authored(change.body, change.digest, change.assertions, change.provenance))
      && (change.Adjust? ==>
          && Distilled(made) == Distilled(entry)
          && Listed(made) == if Carries(Listed(entry), change.adjustment.id) then Listed(entry)
                             else Listed(entry) + [Record(change.adjustment)])
  {
    var made := Merged(k, entry, change).entry;
    if change.Install? {
      var authored := Authored(change.body, change.digest, change.assertions, change.provenance);
      assert "adjustments" !in authored;
      assert Distilled(made) == authored;
    } else {
      assert Distilled(made) == Distilled(entry);
    }
  }

  // ---------------------------------------------------------------------------
  // Whole runs
  // ---------------------------------------------------------------------------

  ghost function ListAt(k: Codec, v: Vault, cls: string, prop: string): seq<Json> {
    Listed(Entry(ClassesOf(k, v.current), cls, prop))
  }

  ghost predicate UniqueIds(items: seq<Json>) {
    forall i, j, id :: 0 <= i < j < |items| && HasId(items[i], id) ==> !HasId(items[j], id)
  }

  lemma ListStep(k: Codec, slug: string, v: Vault, a: Attempt, cls: string, prop: string)
    requires RoundTrips(k)
    ensures ListAt(k, v, cls, prop) <= ListAt(k, Next(k, slug, v, a), cls, prop)
    ensures UniqueIds(ListAt(k, v, cls, prop)) ==> UniqueIds(ListAt(k, Next(k, slug, v, a), cls, prop))
    ensures |ListAt(k, v, cls, prop)| <= MAX_ADJUSTMENTS ==> |ListAt(k, Next(k, slug, v, a), cls, prop)| <= MAX_ADJUSTMENTS
  {
    EntryAfter(k, slug, v, a, cls, prop);
    if Lands(k, v, a) && (cls, prop) == (a.cls, a.prop) {
      var entry := Entry(ClassesOf(k, v.current), cls, prop);
      MergesShare(k, entry, a.change);
      if a.change.Adjust? && !Carries(Listed(entry), a.change.adjustment.id) {
        assert HasId(Record(a.change.adjustment), a.change.adjustment.id);
        forall id | HasId(Record(a.change.adjustment), id)
          ensures id == a.change.adjustment.id
        {
        }
      }
    }
  }

  /**
   * EVERY RUN of establishments and adjustments, under any faults: a property's standing
   * adjustments only grow, their ids stay unique, and there are never more than the ceiling.
   */
  lemma {:induction false} AdjustmentsOnlyGrow(k: Codec, slug: string, v: Vault, attempts: seq<Attempt>, cls: string, prop: string)
    requires RoundTrips(k)
    ensures var now := After(k, slug, v, attempts);
      && ListAt(k, v, cls, prop) <= ListAt(k, now, cls, prop)
      && (UniqueIds(ListAt(k, v, cls, prop)) ==> UniqueIds(ListAt(k, now, cls, prop)))
      && (|ListAt(k, v, cls, prop)| <= MAX_ADJUSTMENTS ==> |ListAt(k, now, cls, prop)| <= MAX_ADJUSTMENTS)
    decreases |attempts|
  {
    if attempts != [] {
      var n := |attempts| - 1;
      AdjustmentsOnlyGrow(k, slug, v, attempts[..n], cls, prop);
      ListStep(k, slug, After(k, slug, v, attempts[..n]), attempts[n], cls, prop);
    }
  }

  predicate Adjusts(a: Attempt, cls: string, prop: string, id: string) {
    (a.cls, a.prop) == (cls, prop) && a.change.Adjust? && a.change.adjustment.id == id
  }

  lemma RecordHasId(a: Adjustment, items: seq<Json>, id: string)
    ensures Carries(items + [Record(a)], id) <==> Carries(items, id) || id == a.id
  {
    var longer := items + [Record(a)];
    assert HasId(Record(a), id) <==> id == a.id;
    if i :| 0 <= i < |items| && HasId(items[i], id) {
      assert HasId(longer[i], id);
    }
    if id == a.id {
      assert HasId(longer[|items|], id);
    }
  }

  lemma StandsStep(k: Codec, slug: string, v: Vault, a: Attempt, cls: string, prop: string, id: string)
    requires RoundTrips(k)
    ensures Carries(ListAt(k, Next(k, slug, v, a), cls, prop), id) <==>
            Carries(ListAt(k, v, cls, prop), id) || (Adjusts(a, cls, prop, id) && Lands(k, v, a))
  {
    EntryAfter(k, slug, v, a, cls, prop);
    if Lands(k, v, a) && (cls, prop) == (a.cls, a.prop) {
      MergesShare(k, Entry(ClassesOf(k, v.current), cls, prop), a.change);
      if a.change.Adjust? {
        RecordHasId(a.change.adjustment, ListAt(k, v, cls, prop), id);
      }
    }
  }

  /** The `i`th attempt wrote that adjustment there: it was reported so, or failed too late. */
  ghost predicate WroteAt(k: Codec, slug: string, v: Vault, attempts: seq<Attempt>, i: nat, cls: string, prop: string, id: string) {
    && i < |attempts| && Adjusts(attempts[i], cls, prop, id)
    && var before := After(k, slug, v, attempts[..i]);
       Succeeds(StatusOf(k, slug, before, attempts[i])) || FailsLate(k, slug, before, attempts[i])
  }

  lemma WroteEarlier(k: Codec, slug: string, v: Vault, attempts: seq<Attempt>, cls: string, prop: string, id: string)
    requires attempts != []
    ensures var n := |attempts| - 1;
      (exists i :: WroteAt(k, slug, v, attempts, i, cls, prop, id)) <==>
        (exists i :: WroteAt(k, slug, v, attempts[..n], i, cls, prop, id)) || WroteAt(k, slug, v, attempts, n, cls, prop, id)
  {
    var n := |attempts| - 1;
    forall i: nat | i < n
      ensures WroteAt(k, slug, v, attempts, i, cls, prop, id) <==> WroteAt(k, slug, v, attempts[..n], i, cls, prop, id)
    {
      assert attempts[..n][..i] == attempts[..i];
    }
  }

  /**
   * WHAT STANDS. After any run an adjustment stands in a property's list exactly when it stood
   * there before, or some attempt to add it there was reported installed or pending, or was
   * reported as an error that came only after the document had been stored.
   */
  lemma {:induction false} AdjustmentStandsIff(k: Codec, slug: string, v: Vault, attempts: seq<Attempt>, cls: string, prop: string, id: string)
    requires RoundTrips(k)
    ensures Carries(ListAt(k, After(k, slug, v, attempts), cls, prop), id) <==>
            Carries(ListAt(k, v, cls, prop), id) || exists i :: WroteAt(k, slug, v, attempts, i, cls, prop, id)
    decreases |attempts|
  {
    if attempts != [] {
      var n := |attempts| - 1;
      var before := After(k, slug, v, attempts[..n]);
      AdjustmentStandsIff(k, slug, v, attempts[..n], cls, prop, id);
      StandsStep(k, slug, before, attempts[n], cls, prop, id);
      LandsIff(k, slug, before, attempts[n]);
      WroteEarlier(k, slug, v, attempts, cls, prop, id);
    }
  }

  /**
   * CONFIRMED MEANS KEPT. Once an adjustment is reported installed or pending, it stands in its
   * property's list after every later attempt, of either writer and under any faults.
   */
  lemma ConfirmedAdjustmentStays(k: Codec, slug: string, v: Vault, attempts: seq<Attempt>, i: nat)
    requires RoundTrips(k) && i < |attempts| && attempts[i].change.Adjust?
    requires Succeeds(StatusOf(k, slug, After(k, slug, v, attempts[..i]), attempts[i]))
    ensures Carries(ListAt(k, After(k, slug, v, attempts), attempts[i].cls, attempts[i].prop), attempts[i].change.adjustment.id)
  {
    var a := attempts[i];
    assert WroteAt(k, slug, v, attempts, i, a.cls, a.prop, a.change.adjustment.id);
    AdjustmentStandsIff(k, slug, v, attempts, a.cls, a.prop, a.change.adjustment.id);
  }

  /** What the last establishment to land at a property authored there; before one, what stood there. */
  ghost function LastAuthored(k: Codec, slug: string, v: Vault, attempts: seq<Attempt>, cls: string, prop: string): Fields {
    if attempts == [] then Distilled(Entry(ClassesOf(k, v.current), cls, prop)) else
      var n := |attempts| - 1;
      var a := attempts[n];
      if a.change.Install? && (a.cls, a.prop) == (cls, prop) && Lands(k, After(k, slug, v, attempts[..n]), a)
      then Authored(a.change.body, a.change.digest, a.change.assertions, a.change.provenance)
      else LastAuthored(k, slug, v, attempts[..n], cls, prop)
  }

  /** EVERY RUN: apart from its adjustments, a property is what the last landed establishment made it. */
  lemma {:induction false} BodyIsLastInstalled(k: Codec, slug: string, v: Vault, attempts: seq<Attempt>, cls: string, prop: string)
    requires RoundTrips(k)
    ensures Distilled(Entry(ClassesOf(k, After(k, slug, v, attempts).current), cls, prop)) ==
            LastAuthored(k, slug, v, attempts, cls, prop)
    decreases |attempts|
  {
    if attempts != [] {
      var n := |attempts| - 1;
      var before, a := After(k, slug, v, attempts[..n]), attempts[n];
      BodyIsLastInstalled(k, slug, v, attempts[..n], cls, prop);
      EntryAfter(k, slug, before, a, cls, prop);
      if Lands(k, before, a) && (cls, prop) == (a.cls, a.prop) {
        MergesShare(k, Entry(ClassesOf(k, before.current), cls, prop), a.change);
      }
    }
  }

  // ---------------------------------------------------------------------------
  // The recovery generation
  // ---------------------------------------------------------------------------

  /** The generation the last landed write replaced; before any, what the recovery key held. */
  ghost function LastReplaced(k: Codec, slug: string, v: Vault, attempts: seq<Attempt>): Option<string> {
    if attempts == [] then v.previous else
      var n := |attempts| - 1;
      var before := After(k, slug, v, attempts[..n]);
      if Lands(k, before, attempts[n]) && before.current.Some? then before.current
      else LastReplaced(k, slug, v, attempts[..n])
  }

  /** Since the last write that replaced something, an attempt copied and then did not write. */
  ghost predicate CopySpent(k: Codec, slug: string, v: Vault, attempts: seq<Attempt>) {
    attempts != [] &&
      var n := |attempts| - 1;
      var before := After(k, slug, v, attempts[..n]);
      !Lands(k, before, attempts[n]) && (Copies(k, before, attempts[n]) || CopySpent(k, slug, v, attempts[..n]))
  }

  lemma {:induction false} SpentMeansPresent(k: Codec, slug: string, v: Vault, attempts: seq<Attempt>)
    requires CopySpent(k, slug, v, attempts)
    ensures After(k, slug, v, attempts).current.Some?
    decreases |attempts|
  {
    var n := |attempts| - 1;
    if !Copies(k, After(k, slug, v, attempts[..n]), attempts[n]) {
      SpentMeansPresent(k, slug, v, attempts[..n]);
    }
  }

  /**
   * EVERY RUN: the recovery key holds, byte for byte, the generation the last landed write
   * replaced, except after an attempt that copied and then failed to write, when it holds the
   * current generation and the replaced one is gone.
   */
  lemma {:induction false} RecoveryKeyHolds(k: Codec, slug: string, v: Vault, attempts: seq<Attempt>)
    ensures var now := After(k, slug, v, attempts);
      now.previous == if CopySpent(k, slug, v, attempts) then now.current else LastReplaced(k, slug, v, attempts)
    decreases |attempts|
  {
    if attempts != [] {
      var n := |attempts| - 1;
      RecoveryKeyHolds(k, slug, v, attempts[..n]);
      if CopySpent(k, slug, v, attempts[..n]) {
        SpentMeansPresent(k, slug, v, attempts[..n]);
      }
    }
  }

  /** One establishment whose copy goes through and whose write fails: the generation before is gone. */
  lemma CopySpentExample(k: Codec, slug: string, current: string, previous: string)
    requires k.size("") <= MAX_SPEC_BYTES
    ensures var v := Vault(Some(current), Some(previous));
      var a := Attempt("c", "p", Install("", "", None, None), Weather(false, Stored, Failed, ReadFails, false));
      && CopySpent(k, slug, v, [a]) && StatusOf(k, slug, v, a).Error?
      && After(k, slug, v, [a]) == Vault(Some(current), Some(current))
  {
    var a := Attempt("c", "p", Install("", "", None, None), Weather(false, Stored, Failed, ReadFails, false));
    assert [a][..0] == [];
    assert After(k, slug, Vault(Some(current), Some(previous)), []) == Vault(Some(current), Some(previous));
  }

  /**
   * A landed write changes the document's classes exactly when the merged entry differs from
   * the one in place. When it does not, the recovery key comes to hold the same classes as the
   * current object, and the generation before is gone.
   */
  lemma ClassesUnchangedIff(k: Codec, slug: string, v: Vault, a: Attempt)
    requires RoundTrips(k) && Lands(k, v, a)
    ensures var now, was := Next(k, slug, v, a), ClassesOf(k, v.current);
      && (ClassesOf(k, now.current) == was <==> Slot(was, a.cls, a.prop) == Some(Obj(MergeOf(k, v, a).entry)))
      && (v.current.Some? ==> now.previous == v.current && ClassesOf(k, now.previous) == was)
  {
    ClassesAfter(k, slug, v, a);
    var was, entry := ClassesOf(k, v.current), MergeOf(k, v, a).entry;
    var now := Placed(was, a.cls, a.prop, entry);
    assert Slot(now, a.cls, a.prop) == Some(Obj(entry));
    if Slot(was, a.cls, a.prop) == Some(Obj(entry)) {
      assert was[a.cls].fields[a.prop := Obj(entry)] == was[a.cls].fields;
    }
  }

  /** An adjustment already standing is such a write. */
  lemma RepeatSpendsRecovery(k: Codec, slug: string, v: Vault, a: Attempt)
    requires RoundTrips(k) && Lands(k, v, a) && v.current.Some?
    requires a.change.Adjust? && Carries(ListAt(k, v, a.cls, a.prop), a.change.adjustment.id)
    ensures var now := Next(k, slug, v, a);
      && ClassesOf(k, now.current) == ClassesOf(k, v.current)
      && now.previous == v.current && ClassesOf(k, now.previous) == ClassesOf(k, now.current)
  {
    ClassesUnchangedIff(k, slug, v, a);
  }

  // ---------------------------------------------------------------------------
  // The size ceiling
  // ---------------------------------------------------------------------------

  /** What the applier demands of a property before it installs the document. */
  predicate WithinCeiling(k: Codec, entry: Fields) {
    var text := Render(k, BodyText(entry), Listed(entry));
    text.Some? && k.size(text.value) <= MAX_SPEC_BYTES
  }

  /** A new adjustment that lands renders within the ceiling the applier enforces. */
  lemma AdjustmentWithinCeiling(k: Codec, slug: string, v: Vault, a: Attempt)
    requires RoundTrips(k) && Lands(k, v, a)
    requires a.change.Adjust? && !Carries(ListAt(k, v, a.cls, a.prop), a.change.adjustment.id)
    ensures WithinCeiling(k, Entry(ClassesOf(k, Next(k, slug, v, a).current), a.cls, a.prop))
  {
    EntryAfter(k, slug, v, a, a.cls, a.prop);
    var entry := Entry(ClassesOf(k, v.current), a.cls, a.prop);
    MergesShare(k, entry, a.change);
    assert BodyText(Merged(k, entry, a.change).entry) == BodyText(entry);
  }

  /** An establishment measures its body alone, so it does so only if body and carried list fit together. */
  lemma InstallWithinCeilingIff(k: Codec, slug: string, v: Vault, a: Attempt)
    requires RoundTrips(k) && Lands(k, v, a) && a.change.Install?
    ensures WithinCeiling(k, Entry(ClassesOf(k, Next(k, slug, v, a).current), a.cls, a.prop)) <==>
            var text := Render(k, a.change.body, ListAt(k, v, a.cls, a.prop));
            text.Some? && k.size(text.value) <= MAX_SPEC_BYTES
  {
    EntryAfter(k, slug, v, a, a.cls, a.prop);
    var entry := Entry(ClassesOf(k, v.current), a.cls, a.prop);
    MergesShare(k, entry, a.change);
    var made := Merged(k, entry, a.change).entry;
    assert Authored(a.change.body, a.change.digest, a.change.assertions, a.change.provenance)["body"] == Str(a.change.body);
    assert Distilled(made)["body"] == made["body"];
  }

  /** A body that fills the ceiling passes `_install`, yet with any carried rule the document is refused. */
  lemma FullBodyOverflows(k: Codec, entry: Fields, body: string, digest: string, block: string)
    requires forall s: string :: k.size(s) >= |s|
    requires |body| == k.size(body) == MAX_SPEC_BYTES && body[|body| - 1] != '\n'
    requires Listed(entry) != [] && k.block(Listed(entry)) == Some(block) && block != ""
    ensures Admitted(k, Install(body, digest, None, None))
    ensures !WithinCeiling(k, Merged(k, entry, Install(body, digest, None, None)).entry)
  {
    var made := Merged(k, entry, Install(body, digest, None, None)).entry;
    assert BodyText(made) == body && Listed(made) == Listed(entry);
    var text := body + "\n\n" + block;
    assert Render(k, body, Listed(entry)) == Some(text) && |text| > |body|;
    assert k.size(text) >= |text|;
  }

  // ---------------------------------------------------------------------------
  // The intake daemon
  // ---------------------------------------------------------------------------

  /** The two objects the daemon writes, and its one motion over them. */
  class Intake {
    const k: Codec
    const slug: string
    var current: Option<string>
    var previous: Option<string>

    ghost function View(): Vault
      reads this
    {
      Vault(current, previous)
    }

    constructor (k: Codec, slug: string, v: Vault)
      ensures this.k == k && this.slug == slug && View() == v
    {
      this.k, this.slug := k, slug;
      current, previous := v.current, v.previous;
    }

    /** `_append`, as a loop over the standing list. */
    method Append(entry: Fields, a: Adjustment) returns (merge: Merge)
      ensures merge == Appended(k, entry, a)
    {
      var items := Listed(entry);
      for i := 0 to |items|
        invariant forall j :: 0 <= j < i ==> !HasId(items[j], a.id)
      {
        if HasId(items[i], a.id) {
          return Write(entry);
        }
      }
      items := items + [Record(a)];
      if |items| > MAX_ADJUSTMENTS {
        return Refuse;
      }
      var text := Render(k, BodyText(entry), items);
      if text.None? {
        return Raise;
      }
      if k.size(text.value) > MAX_SPEC_BYTES {
        return Refuse;
      }
      merge := Write(entry["adjustments" := Arr(items)]);
    }

    /** `_replace_body` */
    method ReplaceBody(entry: Fields, change: Change) returns (merge: Merge)
      requires change.Install?
      ensures merge == Merged(k, entry, change)
    {
      var made := map["body" := Str(change.body), "sha256" := Str(change.digest)];
      if change.assertions.Some? {
        made := made["assertions" := change.assertions.value];
      }
      if change.provenance.Some? {
        made := made["provenance" := change.provenance.value];
      }
      var carried := Listed(entry);
      if carried != [] {
        made := made["adjustments" := Arr(carried)];
      }
      merge := Write(made);
    }

    /** `_put_and_converge`: read, merge, copy the recovery generation, write, read back. */
    method PutAndConverge(a: Attempt) returns (status: Status)
      modifies this`current, this`previous
      ensures View() == Next(k, slug, old(View()), a)
      ensures status == StatusOf(k, slug, old(View()), a)
    {
      if a.change.Install? && k.size(a.change.body) > MAX_SPEC_BYTES {
        return Rejected;
      }
      if a.weather.getFails {
        return Error;
      }
      var found := current;
      var classes := ClassesOf(k, found);
      var entry := Entry(classes, a.cls, a.prop);
      var merge;
      if a.change.Install? {
        merge := ReplaceBody(entry, a.change);
      } else {
        merge := Append(entry, a.change.adjustment);
      }
      if merge.Refuse? {
        return Rejected;
      }
      if merge.Raise? {
        return Error;
      }
      if found.Some? {
        if !a.weather.copy.Failed? {
          previous := found;
        }
        if !a.weather.copy.Stored? {
          return Error;
        }
      }
      if a.cls !in classes || !classes[a.cls].Obj? {
        classes := classes[a.cls := Obj(map[])];
      }
      classes := classes[a.cls := Obj(classes[a.cls].fields[a.prop := Obj(merge.entry)])];
      var raw := k.dump(Document(slug, classes));
      assert classes == Placed(ClassesOf(k, found), a.cls, a.prop, merge.entry);
      if !a.weather.put.Failed? {
        current := Some(raw);
      }
      if !a.weather.put.Stored? {
        return Error;
      }
      if a.weather.back != Reads(Some(raw)) {
        return Error;
      }
      status := if a.weather.converged then Installed else Pending;
    }
  }
}
