/**
 * Boot by boot (bootstrap/translate.py): every boot first deletes the profile homes, and with
 * them the cron stores, of personas no longer authored, and then materializes the schedules.
 * When the ledger of routine changes still says what is scheduled.
 */
module CronBoots {
  import opened Basics
  import opened SeatConfig
  import opened Text
  import opened TextOrder
  import opened CronMaterialize
  import opened CronLedger

  /** The homes a boot writes: the slugs as authored. */
  function Authored(seat: Seat): set<string> {
    set p | p in seat.personas :: p.slug
  }

  /** A home whose persona is not authored, hidden directories apart. */
  predicate Orphan(authored: set<string>, slug: string) {
    authored != {} && slug !in authored && !("." <= slug)
  }

  /** `_reconcile_profile_homes`: the stores go with their homes, and nothing is reported. */
  function HomesKept(authored: set<string>, stores: Stores): Stores {
    map slug | slug in stores && !Orphan(authored, slug) :: stores[slug]
  }

  /** What one boot leaves: homes deleted even when the schedules are then refused. */
  function Boot(req: Request, stores: Stores): Stores {
    CronMaterialize.After(req, HomesKept(Authored(req.seat), stores))
  }

  ghost function BootReports(req: Request, stores: Stores): seq<Change> {
    RunReports(req, HomesKept(Authored(req.seat), stores))
  }

  ghost function NamesAt(stores: Stores, slug: string): set<string> {
    ManagedNames(StoreAt(stores, slug))
  }

  lemma HomesKeptAt(authored: set<string>, stores: Stores, slug: string)
    ensures StoreAt(HomesKept(authored, stores), slug) == if Orphan(authored, slug) then Store([], 0) else StoreAt(stores, slug)
    ensures NamesAt(HomesKept(authored, stores), slug) == if Orphan(authored, slug) then {} else NamesAt(stores, slug)
  {
  }

  lemma BootKeepsInv(req: Request, stores: Stores)
    requires StoresInv(stores)
    ensures StoresInv(HomesKept(Authored(req.seat), stores)) && StoresInv(Boot(req, stores))
  {
    var kept := HomesKept(Authored(req.seat), stores);
    forall slug
      ensures StoreInv(StoreAt(kept, slug))
    {
      HomesKeptAt(Authored(req.seat), stores, slug);
    }
    StoresKept(req, kept);
  }

  // ---------------------------------------------------------------------------
  // One boot
  // ---------------------------------------------------------------------------

  /** Every skill of `before` is still carried by a name of `after`. */
  ghost predicate AllCarriedOn(before: set<string>, after: set<string>) {
    forall k :: Holds(before, k) ==> Holds(after, k)
  }

  /**
   * The boot's reports tell what became of one home. Kept: no name that goes shares its skill
   * with one that is there afterwards. Deleted: every skill it held is scheduled there again,
   * since its going is not reported.
   */
  ghost predicate ToldAt(req: Request, stores: Stores, slug: string) {
    var before, after := NamesAt(stores, slug), NamesAt(Boot(req, stores), slug);
    if Orphan(Authored(req.seat), slug) then AllCarriedOn(before, after) else NoneShares(before, after)
  }

  ghost predicate Told(req: Request, stores: Stores) {
    forall slug :: ToldAt(req, stores, slug)
  }

  lemma OrphanAt(ledger: set<(string, string)>, req: Request, stores: Stores, slug: string)
    requires StoresInv(stores) && CleanSeat(req.seat) && Orphan(Authored(req.seat), slug)
    requires Mirrors(ledger, slug, NamesAt(stores, slug))
    ensures Mirrors(Folded(ledger, BootReports(req, stores)), slug, NamesAt(Boot(req, stores), slug)) <==>
            AllCarriedOn(NamesAt(stores, slug), NamesAt(Boot(req, stores), slug))
  {
    var before, after := NamesAt(stores, slug), NamesAt(Boot(req, stores), slug);
    var folded := Folded(ledger, BootReports(req, stores));
    BootKeepsInv(req, stores);
    HomesKeptAt(Authored(req.seat), stores, slug);
    assert after - {} == after && {} - after == {};
    forall k
      ensures (slug, k) in folded <==> Holds(before, k) || Holds(after, k)
    {
      RunAt(ledger, req, HomesKept(Authored(req.seat), stores), slug, k);
    }
  }

  lemma FaithfulBootAt(ledger: set<(string, string)>, req: Request, stores: Stores, slug: string)
    requires StoresInv(stores) && CleanSeat(req.seat) && Mirrors(ledger, slug, NamesAt(stores, slug))
    ensures Mirrors(Folded(ledger, BootReports(req, stores)), slug, NamesAt(Boot(req, stores), slug)) <==> ToldAt(req, stores, slug)
  {
    if Orphan(Authored(req.seat), slug) {
      OrphanAt(ledger, req, stores, slug);
    } else {
      BootKeepsInv(req, stores);
      HomesKeptAt(Authored(req.seat), stores, slug);
      FaithfulAtIff(ledger, req, HomesKept(Authored(req.seat), stores), slug);
    }
  }

  /** ONE BOOT. A faithful ledger stays faithful exactly when the reports tell of every home. */
  lemma FaithfulBootIff(ledger: set<(string, string)>, req: Request, stores: Stores)
    requires StoresInv(stores) && CleanSeat(req.seat) && Faithful(ledger, stores)
    ensures Faithful(Folded(ledger, BootReports(req, stores)), Boot(req, stores)) <==> Told(req, stores)
  {
    forall slug
      ensures Mirrors(Folded(ledger, BootReports(req, stores)), slug, ManagedNames(StoreAt(Boot(req, stores), slug))) <==>
              ToldAt(req, stores, slug)
    {
      assert Mirrors(ledger, slug, ManagedNames(StoreAt(stores, slug)));
      FaithfulBootAt(ledger, req, stores, slug);
    }
  }

  /**
   * THE SAME BOOT AGAIN. On an unchanged configuration the next boot reports nothing exactly
   * when no schedule is filed in a home the boot deletes, as a padded slug's is: that one is
   * reported as enabled again at every boot.
   */
  lemma RebootIsSilentIff(req: Request, stores: Stores)
    requires StoresInv(stores) && Ready(req)
    ensures BootReports(req, Boot(req, stores)) == [] <==>
            forall slug :: Orphan(Authored(req.seat), slug) ==> NamesAt(Boot(req, stores), slug) == {}
  {
    var authored, plan, now := Authored(req.seat), Desired(req).value, Boot(req, stores);
    var slugs := Sorted(Visited(req, plan));
    SortedMembers(Visited(req, plan));
    BootKeepsInv(req, stores);
    QuietOverIff(HomesKept(authored, now), plan, slugs);
    forall slug
      ensures (Orphan(authored, slug) ==> NamesAt(now, slug) == {}) <==>
              (slug in slugs ==> AsWanted(HomesKept(authored, now), plan, slug))
    {
      NamesAfter(req, HomesKept(authored, stores), slug);
      HomesKeptAt(authored, stores, slug);
      HomesKeptAt(authored, now, slug);
    }
  }

  // ---------------------------------------------------------------------------
  // Any boots
  // ---------------------------------------------------------------------------

  ghost function AllBoots(reqs: seq<Request>, stores: Stores): Stores {
    if reqs == [] then stores else Boot(reqs[|reqs| - 1], AllBoots(reqs[..|reqs| - 1], stores))
  }

  ghost function AllReports(reqs: seq<Request>, stores: Stores): seq<Change> {
    if reqs == [] then [] else
      var n := |reqs| - 1;
      AllReports(reqs[..n], stores) + BootReports(reqs[n], AllBoots(reqs[..n], stores))
  }

  lemma {:induction false} AllBootsKeepInv(reqs: seq<Request>, stores: Stores)
    requires StoresInv(stores)
    ensures StoresInv(AllBoots(reqs, stores))
    decreases |reqs|
  {
    if reqs != [] {
      AllBootsKeepInv(reqs[..|reqs| - 1], stores);
      BootKeepsInv(reqs[|reqs| - 1], AllBoots(reqs[..|reqs| - 1], stores));
    }
  }

  /** After the first `n` boots the folded reports are the schedule. */
  ghost predicate FaithfulAfter(reqs: seq<Request>, stores: Stores, n: nat)
    requires n <= |reqs|
  {
    Faithful(Folded({}, AllReports(reqs[..n], stores)), AllBoots(reqs[..n], stores))
  }

  ghost predicate AllFaithful(reqs: seq<Request>, stores: Stores, n: nat)
    requires n <= |reqs|
  {
    forall i :: 0 <= i <= n ==> FaithfulAfter(reqs, stores, i)
  }

  /** The reports of each of the first `n` boots tell of every home. */
  ghost predicate AllTold(reqs: seq<Request>, stores: Stores, n: nat)
    requires n <= |reqs|
  {
    forall i :: 0 <= i < n ==> Told(reqs[i], AllBoots(reqs[..i], stores))
  }

  lemma FaithfulStep(reqs: seq<Request>, stores: Stores, n: nat)
    requires n < |reqs| && StoresInv(stores) && CleanSeat(reqs[n].seat) && FaithfulAfter(reqs, stores, n)
    ensures FaithfulAfter(reqs, stores, n + 1) <==> Told(reqs[n], AllBoots(reqs[..n], stores))
  {
    assert reqs[..n + 1][..n] == reqs[..n];
    var before := AllBoots(reqs[..n], stores);
    AllBootsKeepInv(reqs[..n], stores);
    FoldedJoins({}, AllReports(reqs[..n], stores), BootReports(reqs[n], before));
    FaithfulBootIff(Folded({}, AllReports(reqs[..n], stores)), reqs[n], before);
  }

  lemma EmptyIsFaithful(reqs: seq<Request>, stores: Stores)
    requires forall slug :: ManagedNames(StoreAt(stores, slug)) == {}
    ensures FaithfulAfter(reqs, stores, 0)
  {
    assert reqs[..0] == [];
  }

  lemma {:induction false} ToldFaithful(reqs: seq<Request>, stores: Stores, n: nat)
    requires StoresInv(stores) && FaithfulAfter(reqs, stores, 0) && AllClean(reqs)
    requires n <= |reqs| && AllTold(reqs, stores, |reqs|)
    ensures FaithfulAfter(reqs, stores, n)
  {
    if n > 0 {
      ToldFaithful(reqs, stores, n - 1);
      FaithfulStep(reqs, stores, n - 1);
    }
  }

  ghost predicate AllClean(reqs: seq<Request>) {
    forall i :: 0 <= i < |reqs| ==> CleanSeat(reqs[i].seat)
  }

  /**
   * THE LEDGER FOLLOWS. Over any boots, with spaces or without, schedules accepted or refused,
   * contained or not, from stores holding no managed job: the folded reports are the schedule
   * after every boot exactly when every boot's reports tell of every home.
   */
  lemma LedgerFollowsIff(reqs: seq<Request>, stores: Stores)
    requires StoresInv(stores) && forall slug :: ManagedNames(StoreAt(stores, slug)) == {}
    requires AllClean(reqs)
    ensures AllFaithful(reqs, stores, |reqs|) <==> AllTold(reqs, stores, |reqs|)
  {
    EmptyIsFaithful(reqs, stores);
    if AllTold(reqs, stores, |reqs|) {
      forall n | 0 <= n <= |reqs|
        ensures FaithfulAfter(reqs, stores, n)
      {
        ToldFaithful(reqs, stores, n);
      }
    }
    if AllFaithful(reqs, stores, |reqs|) {
      forall n | 0 <= n < |reqs|
        ensures Told(reqs[n], AllBoots(reqs[..n], stores))
      {
        assert FaithfulAfter(reqs, stores, n) && FaithfulAfter(reqs, stores, n + 1);
        FaithfulStep(reqs, stores, n);
      }
    }
  }

  // ---------------------------------------------------------------------------
  // Seats without spaces
  // ---------------------------------------------------------------------------

  /** A seat without spaces whose schedules are filed under the slugs as authored. */
  ghost predicate PlainSeat(req: Request) {
    && req.seat.spaces.Unspaced? && CleanSeat(req.seat)
    && (forall p :: p in req.seat.personas ==> Home(req.seat, p) == p.slug)
    && req.reconcile <= Authored(req.seat)
  }

  /** No deleted home held a managed job. */
  ghost predicate NobodyLeaves(req: Request, stores: Stores) {
    forall slug :: Orphan(Authored(req.seat), slug) ==> NamesAt(stores, slug) == {}
  }

  lemma {:induction false} PlannedIsAuthored(seat: Seat, personas: seq<Persona>, slug: string)
    requires PlanOver(seat, personas).Some? && slug in PlanOver(seat, personas).value
    ensures exists p :: p in personas && Home(seat, p) == slug
  {
    var n := |personas| - 1;
    assert personas[n] in personas;
    if Home(seat, personas[n]) != slug {
      PlannedIsAuthored(seat, personas[..n], slug);
    }
  }

  /** A home deleted by a boot is not visited by it, so it stays gone. */
  lemma OrphanStaysGone(req: Request, stores: Stores, slug: string)
    requires StoresInv(stores) && PlainSeat(req) && Orphan(Authored(req.seat), slug)
    ensures NamesAt(Boot(req, stores), slug) == {}
  {
    BootKeepsInv(req, stores);
    HomesKeptAt(Authored(req.seat), stores, slug);
    if Ready(req) {
      NamesAfter(req, HomesKept(Authored(req.seat), stores), slug);
      if slug in Desired(req).value {
        PlannedIsAuthored(req.seat, req.seat.personas, slug);
      }
    }
  }

  lemma HoldsSome(names: set<string>)
    ensures AllCarriedOn(names, {}) <==> names == {}
  {
    if name :| name in names {
      assert Holds(names, SkillOf(name));
    }
  }

  lemma PlainBoot(req: Request, stores: Stores)
    requires StoresInv(stores) && PlainSeat(req) && PlainStores(stores)
    ensures PlainStores(Boot(req, stores)) && (Told(req, stores) <==> NobodyLeaves(req, stores))
  {
    var kept := HomesKept(Authored(req.seat), stores);
    BootKeepsInv(req, stores);
    forall slug
      ensures NamesAt(kept, slug) <= NamesAt(stores, slug)
    {
      HomesKeptAt(Authored(req.seat), stores, slug);
    }
    PlainStep(req, kept);
    forall slug
      ensures ToldAt(req, stores, slug) <==> (Orphan(Authored(req.seat), slug) ==> NamesAt(stores, slug) == {})
    {
      HomesKeptAt(Authored(req.seat), stores, slug);
      if Orphan(Authored(req.seat), slug) {
        OrphanStaysGone(req, stores, slug);
        HoldsSome(NamesAt(stores, slug));
      }
    }
  }

  ghost predicate NobodyLeft(reqs: seq<Request>, stores: Stores, n: nat)
    requires n <= |reqs|
  {
    forall i :: 0 <= i < n ==> NobodyLeaves(reqs[i], AllBoots(reqs[..i], stores))
  }

  ghost predicate AllPlain(reqs: seq<Request>) {
    forall i :: 0 <= i < |reqs| ==> PlainSeat(reqs[i])
  }

  lemma {:induction false} PlainBoots(reqs: seq<Request>, stores: Stores)
    requires StoresInv(stores) && PlainStores(stores) && AllPlain(reqs)
    ensures PlainStores(AllBoots(reqs, stores))
    decreases |reqs|
  {
    if reqs != [] {
      var n := |reqs| - 1;
      assert AllPlain(reqs[..n]);
      PlainBoots(reqs[..n], stores);
      AllBootsKeepInv(reqs[..n], stores);
      PlainBoot(reqs[n], AllBoots(reqs[..n], stores));
    }
  }

  lemma PlainTold(reqs: seq<Request>, stores: Stores)
    requires StoresInv(stores) && PlainStores(stores) && AllPlain(reqs)
    ensures AllTold(reqs, stores, |reqs|) <==> NobodyLeft(reqs, stores, |reqs|)
  {
    forall i | 0 <= i < |reqs|
      ensures Told(reqs[i], AllBoots(reqs[..i], stores)) <==> NobodyLeaves(reqs[i], AllBoots(reqs[..i], stores))
    {
      assert AllPlain(reqs[..i]);
      PlainBoots(reqs[..i], stores);
      AllBootsKeepInv(reqs[..i], stores);
      PlainBoot(reqs[i], AllBoots(reqs[..i], stores));
    }
  }

  /** The ledger names exactly the pairs whose managed name is in a store. */
  ghost predicate LedgerIs(ledger: set<(string, string)>, stores: Stores) {
    forall slug, skill :: (slug, skill) in ledger <==> ManagedName(slug, skill) in ManagedNames(StoreAt(stores, slug))
  }

  lemma PlainFaithful(ledger: set<(string, string)>, stores: Stores)
    requires PlainStores(stores)
    ensures Faithful(ledger, stores) <==> LedgerIs(ledger, stores)
  {
    forall slug, skill
      ensures Holds(ManagedNames(StoreAt(stores, slug)), skill) <==> ManagedName(slug, skill) in ManagedNames(StoreAt(stores, slug))
    {
      PlainHolds(slug, ManagedNames(StoreAt(stores, slug)), skill);
    }
    forall slug
      ensures Mirrors(ledger, slug, ManagedNames(StoreAt(stores, slug))) <==>
              forall skill :: (slug, skill) in ledger <==> ManagedName(slug, skill) in ManagedNames(StoreAt(stores, slug))
    {
    }
  }

  ghost predicate AllLedgersAre(reqs: seq<Request>, stores: Stores) {
    forall i :: 0 <= i <= |reqs| ==> LedgerIs(Folded({}, AllReports(reqs[..i], stores)), AllBoots(reqs[..i], stores))
  }

  /**
   * THE LEDGER IS THE SCHEDULE. Over any boots of seats without spaces, from stores holding no
   * managed job: after every boot folding the reports gives exactly the persona-skill pairs
   * scheduled, if and only if no persona that held a managed job ever left the configuration.
   */
  lemma LedgerIsScheduleIff(reqs: seq<Request>, stores: Stores)
    requires StoresInv(stores) && forall slug :: ManagedNames(StoreAt(stores, slug)) == {}
    requires AllPlain(reqs)
    ensures AllLedgersAre(reqs, stores) <==> NobodyLeft(reqs, stores, |reqs|)
  {
    assert AllClean(reqs);
    LedgerFollowsIff(reqs, stores);
    PlainTold(reqs, stores);
    forall i | 0 <= i <= |reqs|
      ensures FaithfulAfter(reqs, stores, i) <==> LedgerIs(Folded({}, AllReports(reqs[..i], stores)), AllBoots(reqs[..i], stores))
    {
      assert AllPlain(reqs[..i]);
      PlainBoots(reqs[..i], stores);
      PlainFaithful(Folded({}, AllReports(reqs[..i], stores)), AllBoots(reqs[..i], stores));
    }
  }

  // ---------------------------------------------------------------------------
  // A persona that leaves
  // ---------------------------------------------------------------------------

  /** A boot of one persona with one skill `s`, and no store that cannot be read. */
  function SimpleBoot(ch: Chars, slug: string): Request {
    var seat := Seat(ch, Unspaced, [OneRoutine(slug, "s", None)], (p: Persona) => []);
    Request(seat, {Strip(ch, slug)}, false, None, None, {Strip(ch, slug)})
  }

  lemma SimpleBootGoes(ch: Chars, slug: string)
    requires Strip(ch, slug) != ""
    ensures var req, home := SimpleBoot(ch, slug), Strip(ch, slug);
      && Ready(req) && Visited(req, Desired(req).value) == {home} && Authored(req.seat) == {slug}
      && DesiredNames(JobsOf(Desired(req).value, home)) == {ManagedName(home, "s")}
  {
    var req, p := SimpleBoot(ch, slug), OneRoutine(slug, "s", None);
    OneRoutinePlan(req.seat, slug, "s", None);
    var jobs := JobsOf(Desired(req).value, Strip(ch, slug));
    assert jobs[0] in jobs;
    assert req.seat.personas[0] == p && p in req.seat.personas;
  }

  lemma SimpleIsClean(ch: Chars, slug: string)
    requires (slug == "p" || slug == "q") && Strip(ch, slug) == slug
    ensures CleanSeat(SimpleBoot(ch, slug).seat)
  {
    var seat, p := SimpleBoot(ch, slug).seat, OneRoutine(slug, "s", None);
    assert seat.personas == [p] && Home(seat, p) == slug && Slots(seat, p) == [];
    assert Clean(slug, "s");
  }

  lemma SimpleSeat(ch: Chars, slug: string)
    requires slug == "p" || slug == "q"
    ensures Strip(ch, slug) == slug && PlainSeat(SimpleBoot(ch, slug))
  {
    StripPlain(ch, slug);
    SimpleIsClean(ch, slug);
    SimpleBootGoes(ch, slug);
  }

  /** The first boot, from no stores at all: the routine is scheduled and in the ledger. */
  lemma FirstBoot(ch: Chars, none: Stores)
    requires none == map[]
    ensures var req := SimpleBoot(ch, "q");
      && StoresInv(none) && ("q", "s") in Folded({}, BootReports(req, none))
      && NamesAt(Boot(req, none), "q") == {ManagedName("q", "s")}
  {
    var req := SimpleBoot(ch, "q");
    SimpleSeat(ch, "q");
    SimpleBootGoes(ch, "q");
    assert HomesKept(Authored(req.seat), none) == none;
    NamesAfter(req, none, "q");
    RunAt({}, req, none, "q", "s");
    SkillOfPlain("q", "s", "");
    assert ManagedName("q", "s") in NamesAt(Boot(req, none), "q") - {};
  }

  /** Boot 1 schedules a routine for q; boot 2 authors p instead: q's pair stays in the ledger. */
  lemma LeaverStaysInLedger(ch: Chars, none: Stores)
    requires none == map[]
    ensures var one, two := SimpleBoot(ch, "q"), SimpleBoot(ch, "p");
      && PlainSeat(one) && PlainSeat(two)
      && ("q", "s") in Folded({}, AllReports([one, two], none))
      && NamesAt(AllBoots([one, two], none), "q") == {}
  {
    var one, two := SimpleBoot(ch, "q"), SimpleBoot(ch, "p");
    FirstBoot(ch, none);
    SimpleSeat(ch, "q");
    SimpleSeat(ch, "p");
    SimpleBootGoes(ch, "p");
    assert "."[0] != "q"[0];
    Leaves(one, two, none, "q", "s");
  }

  lemma Leaves(one: Request, two: Request, stores: Stores, slug: string, skill: string)
    requires StoresInv(stores) && PlainSeat(two) && Orphan(Authored(two.seat), slug)
    requires (slug, skill) in Folded({}, BootReports(one, stores))
    ensures (slug, skill) in Folded({}, AllReports([one, two], stores))
    ensures NamesAt(AllBoots([one, two], stores), slug) == {}
  {
    TwoBoots(one, two, stores);
    BootKeepsInv(one, stores);
    LeaverStays(Folded({}, BootReports(one, stores)), two, Boot(one, stores), slug, skill);
  }

  lemma TwoBoots(one: Request, two: Request, stores: Stores)
    ensures AllBoots([one, two], stores) == Boot(two, Boot(one, stores))
    ensures Folded({}, AllReports([one, two], stores)) ==
            Folded(Folded({}, BootReports(one, stores)), BootReports(two, Boot(one, stores)))
  {
    assert [one, two][..1] == [one] && [one][..0] == [];
    assert AllBoots([one], stores) == Boot(one, stores);
    assert AllReports([one], stores) == [] + BootReports(one, stores) == BootReports(one, stores);
    FoldedJoins({}, BootReports(one, stores), BootReports(two, Boot(one, stores)));
  }

  /** Whatever the ledger says of a persona that leaves, it goes on saying. */
  lemma LeaverStays(ledger: set<(string, string)>, req: Request, stores: Stores, slug: string, skill: string)
    requires StoresInv(stores) && PlainSeat(req) && Orphan(Authored(req.seat), slug)
    ensures NamesAt(Boot(req, stores), slug) == {}
    ensures (slug, skill) in Folded(ledger, BootReports(req, stores)) <==> (slug, skill) in ledger
  {
    OrphanStaysGone(req, stores, slug);
    BootKeepsInv(req, stores);
    HomesKeptAt(Authored(req.seat), stores, slug);
    RunAt(ledger, req, HomesKept(Authored(req.seat), stores), slug, skill);
  }

  /** A persona authored as "a " reports its one routine as enabled again at the second boot. */
  lemma PaddedReportsAgain(ch: Chars, none: Stores)
    requires none == map[]
    ensures var req := SimpleBoot(ch, "a ");
      StoresInv(none) && Ready(req) && BootReports(req, Boot(req, none)) != []
  {
    var req := SimpleBoot(ch, "a ");
    PaddingGoes(ch);
    SimpleBootGoes(ch, "a ");
    assert "."[0] != "a"[0];
    assert Orphan(Authored(req.seat), "a");
    BootKeepsInv(req, none);
    NamesAfter(req, HomesKept(Authored(req.seat), none), "a");
    RebootIsSilentIff(req, none);
  }
}
