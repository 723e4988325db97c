/**
 * The ledger of routine changes (bootstrap/cron_materialize.py): a run reports exactly what
 * crossed the scheduled line, a repeated run reports nothing, and when folding the reports of
 * a run reproduces what is scheduled.
 */
module CronLedger {
  import opened Basics
  import opened SeatConfig
  import opened Text
  import opened TextOrder
  import opened CronMaterialize

  /** `RoutineChange` */
  datatype Change = Change(slug: string, skill: string, enabled: bool, schedule: Option<string>)

  function ManagedNames(s: Store): set<string> {
    set j | j in s.jobs && Ours(j) :: j.name
  }

  function DesiredNames(jobs: seq<Job>): set<string> {
    set j | j in jobs :: j.name
  }

  /** The job a name stands for in the dictionaries built from the list: the last one. */
  function LastNamed(jobs: seq<Job>, name: string): (found: Option<Job>)
    ensures found.Some? ==> found.value in jobs && found.value.name == name
    ensures found.None? <==> !Named(jobs, name)
  {
    if jobs == [] then None
    else if jobs[|jobs| - 1].name == name then Some(jobs[|jobs| - 1])
    else
      assert Named(jobs, name) <==> Named(jobs[..|jobs| - 1], name);
      LastNamed(jobs[..|jobs| - 1], name)
  }

  function OnChange(slug: string, jobs: seq<Job>, name: string): Change {
    var job := LastNamed(jobs, name);
    if job.None? then Change(slug, "", true, None)
    else Change(slug, job.value.skill, true, Some(job.value.schedule))
  }

  function OffChange(slug: string, name: string): Change {
    Change(slug, SkillOf(name), false, None)
  }

  function TurnedOn(slug: string, jobs: seq<Job>, names: seq<string>): (r: seq<Change>)
    ensures |r| == |names| && forall i :: 0 <= i < |r| ==> r[i] == OnChange(slug, jobs, names[i])
  {
    seq(|names|, i requires 0 <= i < |names| => OnChange(slug, jobs, names[i]))
  }

  function TurnedOff(slug: string, names: seq<string>): (r: seq<Change>)
    ensures |r| == |names| && forall i :: 0 <= i < |r| ==> r[i] == OffChange(slug, names[i])
  {
    seq(|names|, i requires 0 <= i < |names| => OffChange(slug, names[i]))
  }

  /** `_report_routine_changes` */
  ghost function Reports(slug: string, before: set<string>, jobs: seq<Job>): seq<Change> {
    var after := DesiredNames(jobs);
    TurnedOn(slug, jobs, Sorted(after - before)) + TurnedOff(slug, Sorted(before - after))
  }

  /** The reports of a run that visits these personas in this order. */
  ghost function ReportsOver(stores: Stores, plan: Plan, slugs: seq<string>): seq<Change> {
    if slugs == [] then [] else
      var n := |slugs| - 1;
      ReportsOver(stores, plan, slugs[..n])
      + Reports(slugs[n], ManagedNames(StoreAt(stores, slugs[n])), JobsOf(plan, slugs[n]))
  }

  ghost function RunReports(req: Request, stores: Stores): seq<Change> {
    if !Ready(req) then [] else
      ReportsOver(stores, Desired(req).value, Sorted(Visited(req, Desired(req).value)))
  }

  // ---------------------------------------------------------------------------
  // Exactly the delta
  // ---------------------------------------------------------------------------

  ghost predicate StoresInv(stores: Stores) {
    forall slug :: StoreInv(StoreAt(stores, slug))
  }

  lemma CarriedNames(stored: seq<StoredJob>, jobs: seq<Job>, refs: map<string, string>, next: nat)
    requires Carries(Managed(stored), jobs, refs)
    ensures ManagedNames(Store(stored, next)) == DesiredNames(jobs)
  {
    var managed := Managed(stored);
    forall name | name in ManagedNames(Store(stored, next))
      ensures name in DesiredNames(jobs)
    {
      var j :| j in stored && Ours(j) && j.name == name;
      FilterMember(stored, Ours, j);
      var i :| 0 <= i < |managed| && managed[i] == j;
      assert jobs[i].name == name && jobs[i] in jobs;
    }
    forall name | name in DesiredNames(jobs)
      ensures name in ManagedNames(Store(stored, next))
    {
      var job :| job in jobs && job.name == name;
      var i :| 0 <= i < |jobs| && jobs[i] == job;
      FilterMember(stored, Ours, managed[i]);
      assert managed[i].name == name;
    }
  }

  /** The managed names a run leaves in a store it visits. */
  lemma NamesAfter(req: Request, stores: Stores, slug: string)
    requires StoresInv(stores) && Ready(req)
    ensures ManagedNames(StoreAt(After(req, stores), slug)) ==
            if slug in Visited(req, Desired(req).value) then DesiredNames(JobsOf(Desired(req).value, slug))
            else ManagedNames(StoreAt(stores, slug))
  {
    var now, jobs := StoreAt(After(req, stores), slug), JobsOf(Desired(req).value, slug);
    RunConverges(req, stores, slug);
    if slug in Visited(req, Desired(req).value) {
      CarriedNames(now.jobs, jobs, RefsOf(req, slug, jobs), now.nextId);
    }
  }

  /** `reports` tells, name by name, how `after` differs from `before`. */
  ghost predicate Tells(reports: seq<Change>, names: seq<string>, slug: string, before: set<string>, after: set<string>) {
    && Distinct(names) && |reports| == |names|
    && (forall name :: name in names <==> (name in before) != (name in after))
    && (forall i :: 0 <= i < |names| ==> reports[i].slug == slug && (reports[i].enabled <==> names[i] in after))
  }

  /** An enabled report carries a wanted job's skill and schedule; a disabled one what its name says. */
  ghost predicate Details(report: Change, name: string, jobs: seq<Job>) {
    if report.enabled
    then exists job :: job in jobs && job.name == name && report == Change(report.slug, job.skill, true, Some(job.schedule))
    else report.skill == SkillOf(name) && report.schedule == None
  }

  lemma OnDetails(slug: string, jobs: seq<Job>, name: string)
    requires name in DesiredNames(jobs)
    ensures Details(OnChange(slug, jobs, name), name, jobs)
  {
    var job :| job in jobs && job.name == name;
    var k :| 0 <= k < |jobs| && jobs[k] == job;
    assert Named(jobs, name);
    assert LastNamed(jobs, name).value in jobs;
  }

  ghost function DeltaNames(before: set<string>, after: set<string>): seq<string> {
    Sorted(after - before) + Sorted(before - after)
  }

  lemma DeltaNamesAre(before: set<string>, after: set<string>)
    ensures Distinct(DeltaNames(before, after))
    ensures forall name :: name in DeltaNames(before, after) <==> (name in before) != (name in after)
    ensures forall i :: 0 <= i < |DeltaNames(before, after)| ==>
              (i < |Sorted(after - before)| <==> DeltaNames(before, after)[i] in after)
  {
    var on, off := Sorted(after - before), Sorted(before - after);
    SortedMembers(after - before);
    SortedMembers(before - after);
    JoinApart(on, off);
    forall i | 0 <= i < |on + off|
      ensures i < |on| <==> (on + off)[i] in after
    {
      if i < |on| { assert on[i] in on; } else { assert off[i - |on|] in off; }
    }
  }

  lemma JoinApart(on: seq<string>, off: seq<string>)
    requires Distinct(on) && Distinct(off) && forall name :: name in on ==> name !in off
    ensures Distinct(on + off) && forall name :: name in on + off <==> name in on || name in off
  {
    forall i, j | 0 <= i < j < |on + off|
      ensures (on + off)[i] != (on + off)[j]
    {
      if i < |on| <= j {
        assert on[i] in on && off[j - |on|] in off;
      }
    }
  }

  lemma ReportsTell(slug: string, before: set<string>, jobs: seq<Job>)
    ensures Tells(Reports(slug, before, jobs), DeltaNames(before, DesiredNames(jobs)), slug, before, DesiredNames(jobs))
  {
    DeltaNamesAre(before, DesiredNames(jobs));
  }

  lemma ReportDetails(slug: string, before: set<string>, jobs: seq<Job>, i: nat)
    requires i < |DeltaNames(before, DesiredNames(jobs))|
    ensures i < |Reports(slug, before, jobs)|
    ensures Details(Reports(slug, before, jobs)[i], DeltaNames(before, DesiredNames(jobs))[i], jobs)
  {
    var after := DesiredNames(jobs);
    DeltaNamesAre(before, after);
    var name := DeltaNames(before, after)[i];
    if i < |Sorted(after - before)| {
      OnDetails(slug, jobs, name);
    }
  }

  /**
   * THE DELTA. For a persona visited, the reports are exactly the names in which its store's
   * managed jobs before and after the run differ, each once: as enabled, with the authored
   * skill and schedule, when it is there afterwards; as disabled, with the skill its name
   * carries, when it is not.
   */
  lemma ReportsAreTheDelta(req: Request, stores: Stores, slug: string)
    requires StoresInv(stores) && Ready(req) && slug in Visited(req, Desired(req).value)
    ensures var before, after := ManagedNames(StoreAt(stores, slug)), ManagedNames(StoreAt(After(req, stores), slug));
      var jobs := JobsOf(Desired(req).value, slug);
      && Tells(Reports(slug, before, jobs), DeltaNames(before, after), slug, before, after)
      && forall i :: 0 <= i < |DeltaNames(before, after)| ==>
           Details(Reports(slug, before, jobs)[i], DeltaNames(before, after)[i], jobs)
  {
    var before, jobs := ManagedNames(StoreAt(stores, slug)), JobsOf(Desired(req).value, slug);
    NamesAfter(req, stores, slug);
    ReportsTell(slug, before, jobs);
    forall i | 0 <= i < |DeltaNames(before, DesiredNames(jobs))|
      ensures Details(Reports(slug, before, jobs)[i], DeltaNames(before, DesiredNames(jobs))[i], jobs)
    {
      ReportDetails(slug, before, jobs, i);
    }
  }

  /** One persona's reports are empty exactly when its managed names are the wanted ones. */
  lemma QuietOneIff(slug: string, before: set<string>, jobs: seq<Job>)
    ensures Reports(slug, before, jobs) == [] <==> before == DesiredNames(jobs)
  {
    var after := DesiredNames(jobs);
    ReportsTell(slug, before, jobs);
    DeltaNamesAre(before, after);
    assert |Reports(slug, before, jobs)| == |DeltaNames(before, after)|;
    if DeltaNames(before, after) != [] {
      assert DeltaNames(before, after)[0] in DeltaNames(before, after);
    } else {
      assert forall name :: name in before <==> name in after;
    }
  }

  ghost predicate AsWanted(stores: Stores, plan: Plan, slug: string) {
    ManagedNames(StoreAt(stores, slug)) == DesiredNames(JobsOf(plan, slug))
  }

  ghost predicate AllAsWanted(stores: Stores, plan: Plan, slugs: seq<string>) {
    forall slug :: slug in slugs ==> AsWanted(stores, plan, slug)
  }

  lemma WantedSnoc(stores: Stores, plan: Plan, slugs: seq<string>)
    requires slugs != []
    ensures AllAsWanted(stores, plan, slugs) <==>
            AllAsWanted(stores, plan, slugs[..|slugs| - 1]) && AsWanted(stores, plan, slugs[|slugs| - 1])
  {
    forall slug
      ensures slug in slugs <==> slug in slugs[..|slugs| - 1] || slug == slugs[|slugs| - 1]
    {
      MemberSnoc(slugs, slug);
    }
  }

  lemma {:induction false} QuietOverIff(stores: Stores, plan: Plan, slugs: seq<string>)
    ensures ReportsOver(stores, plan, slugs) == [] <==> AllAsWanted(stores, plan, slugs)
  {
    if slugs != [] {
      var n := |slugs| - 1;
      QuietOverIff(stores, plan, slugs[..n]);
      QuietOneIff(slugs[n], ManagedNames(StoreAt(stores, slugs[n])), JobsOf(plan, slugs[n]));
      WantedSnoc(stores, plan, slugs);
    }
  }

  /** Run again on the same configuration, nothing is reported. */
  lemma RerunIsSilent(req: Request, stores: Stores)
    requires StoresInv(stores) && Ready(req)
    ensures RunReports(req, After(req, stores)) == []
  {
    var plan := Desired(req).value;
    var slugs := Sorted(Visited(req, plan));
    SortedMembers(Visited(req, plan));
    forall slug | slug in slugs
      ensures AsWanted(After(req, stores), plan, slug)
    {
      NamesAfter(req, stores, slug);
    }
    QuietOverIff(After(req, stores), plan, slugs);
  }

  // ---------------------------------------------------------------------------
  // What a removed name says
  // ---------------------------------------------------------------------------

  /** The managed name after its prefix. */
  lemma AfterPrefix(slug: string, skill: string)
    ensures Cut(ManagedName(slug, skill), ':') == ("op-managed", Some(slug + ":" + skill))
  {
    var rest := slug + ":" + skill;
    assert ManagedName(slug, skill) == "op-managed" + [':'] + rest;
    CutAt("op-managed", ':', rest);
  }

  lemma BaseOfName(slug: string, skill: string, space: string)
    requires '@' !in slug && '@' !in skill
    ensures Cut(NameWithSpace(ManagedName(slug, skill), space), '@').0 == ManagedName(slug, skill)
  {
    var base := ManagedName(slug, skill);
    assert '@' !in base;
    if space == "" {
      CutNone(base, '@');
    } else {
      assert NameWithSpace(base, space) == base + ['@'] + space;
      CutAt(base, '@', space);
    }
  }

  lemma SkillOfPlain(slug: string, skill: string, space: string)
    requires ':' !in slug && '@' !in slug && '@' !in skill
    ensures SkillOf(NameWithSpace(ManagedName(slug, skill), space)) == skill
  {
    BaseOfName(slug, skill, space);
    AfterPrefix(slug, skill);
    assert slug + ":" + skill == slug + [':'] + skill;
    CutAt(slug, ':', skill);
  }

  lemma SkillHasNoAt(name: string)
    ensures '@' !in SkillOf(name)
  {
    var base := Cut(name, '@').0;
    CutParts(name, '@');
    CutParts(base, ':');
    var rest := Cut(base, ':').1;
    if rest.Some? {
      CutParts(rest.value, ':');
    }
  }

  /** A colon in the slug leaves part of it in front of the skill. */
  lemma SkillOfColon(slug: string, skill: string, space: string)
    requires ':' in slug && '@' !in slug && '@' !in skill
    ensures |SkillOf(NameWithSpace(ManagedName(slug, skill), space))| > |skill|
  {
    BaseOfName(slug, skill, space);
    AfterPrefix(slug, skill);
    assert slug + ":" + skill == slug + (":" + skill);
    CutLater(slug, ':', ":" + skill);
  }

  /** What stands for the skill when the slug itself is cut at an `@`. */
  function SlugRemnant(slug: string): string {
    var front := Cut(slug, '@').0;
    var (first, rest) := Cut(front, ':');
    if rest.None? then first else rest.value
  }

  /** An `@` in the slug cuts the name inside the slug: neither skill nor space is read. */
  lemma SkillOfCutSlug(slug: string, skill: string, space: string)
    requires '@' in slug
    ensures SkillOf(NameWithSpace(ManagedName(slug, skill), space)) == SlugRemnant(slug)
  {
    var name, front := NameWithSpace(ManagedName(slug, skill), space), Cut(slug, '@').0;
    BaseIsFront(slug, skill, space);
    assert Cut(name, '@').0 == PREFIX + front;
    assert PREFIX + front == "op-managed" + [':'] + front;
    CutAt("op-managed", ':', front);
  }

  lemma BaseIsFront(slug: string, skill: string, space: string)
    requires '@' in slug
    ensures Cut(NameWithSpace(ManagedName(slug, skill), space), '@').0 == PREFIX + Cut(slug, '@').0
  {
    var head, more := PREFIX + slug, ":" + skill + (if space == "" then "" else "@" + space);
    assert NameWithSpace(ManagedName(slug, skill), space) == head + more;
    assert '@' !in PREFIX;
    CutEarlier(PREFIX, slug, '@');
    CutLater(head, '@', more);
  }

  /**
   * THE NAME READS BACK. For every slug, skill and space, the skill recovered from a managed
   * name is the authored one exactly when the slug has no colon and the skill no `@`, or the
   * slug is itself cut at an `@` and what is left of it happens to be the skill.
   */
  lemma SkillReadsBackIff(slug: string, skill: string, space: string)
    ensures SkillOf(NameWithSpace(ManagedName(slug, skill), space)) == skill <==>
            if '@' in slug then SlugRemnant(slug) == skill else ':' !in slug && '@' !in skill
  {
    if '@' in slug {
      SkillOfCutSlug(slug, skill, space);
    } else if '@' in skill {
      SkillHasNoAt(NameWithSpace(ManagedName(slug, skill), space));
    } else if ':' in slug {
      SkillOfColon(slug, skill, space);
    } else {
      SkillOfPlain(slug, skill, space);
    }
  }

  lemma OneSorted(name: string)
    ensures Sorted({name}) == [name] && Sorted({}) == []
  {
    SortedMembers({name});
    var s := Sorted({name});
    DistinctSize(s);
    assert (set x | x in s) == {name};
    assert s[0] in s;
  }

  /** One job kept, one other name gone: the one report says the gone name's skill is off. */
  lemma OneTurnedOff(slug: string, kept: Job, gone: string)
    requires gone != kept.name
    ensures Reports(slug, {kept.name, gone}, [kept]) == [OffChange(slug, gone)]
  {
    var jobs := [kept];
    assert jobs[0] in jobs;
    assert DesiredNames(jobs) == {kept.name};
    assert {kept.name} - {kept.name, gone} == {};
    assert {kept.name, gone} - {kept.name} == {gone};
    OneSorted(gone);
  }

  /**
   * On a spaced seat the ledger cannot follow: a routine scheduled in two spaces and turned
   * off in one is reported as the skill turned off, though it is still scheduled in the other.
   */
  lemma SpacesBlurTheLedger(slug: string, skill: string, a: string, b: string, schedule: string)
    requires ':' !in slug && '@' !in slug && '@' !in skill && a != "" && b != "" && a != b
    ensures var base := ManagedName(slug, skill);
      var kept := Job(NameWithSpace(base, a), schedule, skill, None, Some(a), Some("local"), false);
      Reports(slug, {kept.name, NameWithSpace(base, b)}, [kept]) == [Change(slug, skill, false, None)]
  {
    var base := ManagedName(slug, skill);
    var kept := Job(NameWithSpace(base, a), schedule, skill, None, Some(a), Some("local"), false);
    var gone := NameWithSpace(base, b);
    assert kept.name[|base| + 1..] == a && gone[|base| + 1..] == b;
    SkillOfPlain(slug, skill, b);
    OneTurnedOff(slug, kept, gone);
  }

  // ---------------------------------------------------------------------------
  // Folding the ledger
  // ---------------------------------------------------------------------------

  /** The (persona, skill) pairs a reader of the ledger believes scheduled. */
  function Folded(ledger: set<(string, string)>, changes: seq<Change>): set<(string, string)> {
    if changes == [] then ledger else
      var n := |changes| - 1;
      var before, c := Folded(ledger, changes[..n]), changes[n];
      if c.enabled then before + {(c.slug, c.skill)} else before - {(c.slug, c.skill)}
  }

  lemma {:induction false} FoldedJoins(ledger: set<(string, string)>, a: seq<Change>, b: seq<Change>)
    ensures Folded(ledger, a + b) == Folded(Folded(ledger, a), b)
  {
    if b == [] {
      assert a + b == a;
    } else {
      FoldedJoins(ledger, a, b[..|b| - 1]);
      assert (a + b)[..|a + b| - 1] == a + b[..|b| - 1];
    }
  }

  /** Some name of the set carries the skill. */
  ghost predicate Holds(names: set<string>, skill: string) {
    exists name :: name in names && SkillOf(name) == skill
  }

  /** Every job's name reads back as its skill. */
  ghost predicate ReadsBack(jobs: seq<Job>) {
    forall job :: job in jobs ==> SkillOf(job.name) == job.skill
  }

  lemma {:induction false} FoldOn(ledger: set<(string, string)>, slug: string, jobs: seq<Job>, names: seq<string>, s: string, k: string)
    requires ReadsBack(jobs) && forall name :: name in names ==> Named(jobs, name)
    ensures (s, k) in Folded(ledger, TurnedOn(slug, jobs, names)) <==>
            (s, k) in ledger || (s == slug && exists name :: name in names && SkillOf(name) == k)
  {
    if names != [] {
      var n := |names| - 1;
      var init, last := names[..n], names[n];
      FoldOn(ledger, slug, jobs, init, s, k);
      var changes := TurnedOn(slug, jobs, names);
      assert changes[..n] == TurnedOn(slug, jobs, init);
      assert last in names;
      assert LastNamed(jobs, last).value in jobs;
      assert changes[n].skill == SkillOf(last);
      assert forall name :: name in names <==> name in init || name == last;
    }
  }

  lemma {:induction false} FoldOff(ledger: set<(string, string)>, slug: string, names: seq<string>, s: string, k: string)
    ensures (s, k) in Folded(ledger, TurnedOff(slug, names)) <==>
            (s, k) in ledger && !(s == slug && exists name :: name in names && SkillOf(name) == k)
  {
    if names != [] {
      var n := |names| - 1;
      var init, last := names[..n], names[n];
      FoldOff(ledger, slug, init, s, k);
      var changes := TurnedOff(slug, names);
      assert changes[..n] == TurnedOff(slug, init);
      assert forall name :: name in names <==> name in init || name == last;
    }
  }

  /** What folding one persona's reports makes of one pair. */
  lemma FoldReports(ledger: set<(string, string)>, slug: string, before: set<string>, jobs: seq<Job>, s: string, k: string)
    requires ReadsBack(jobs)
    ensures var after := DesiredNames(jobs);
      (s, k) in Folded(ledger, Reports(slug, before, jobs)) <==>
        if s != slug then (s, k) in ledger
        else ((s, k) in ledger || Holds(after - before, k)) && !Holds(before - after, k)
  {
    var after := DesiredNames(jobs);
    var on, off := Sorted(after - before), Sorted(before - after);
    SortedMembers(after - before);
    SortedMembers(before - after);
    var middle := Folded(ledger, TurnedOn(slug, jobs, on));
    FoldedJoins(ledger, TurnedOn(slug, jobs, on), TurnedOff(slug, off));
    AllNamed(jobs, on);
    FoldOn(ledger, slug, jobs, on, s, k);
    FoldOff(middle, slug, off, s, k);
  }

  lemma AllNamed(jobs: seq<Job>, names: seq<string>)
    requires forall name :: name in names ==> name in DesiredNames(jobs)
    ensures forall name :: name in names ==> Named(jobs, name)
  {
    forall name | name in names
      ensures Named(jobs, name)
    {
      var job :| job in jobs && job.name == name;
      var i :| 0 <= i < |jobs| && jobs[i] == job;
    }
  }

  /** The ledger and one persona's store agree. */
  ghost predicate Mirrors(ledger: set<(string, string)>, slug: string, names: set<string>) {
    forall skill :: (slug, skill) in ledger <==> Holds(names, skill)
  }

  /** No name that goes carries the skill of a name that is there afterwards. */
  ghost predicate NoneShares(before: set<string>, after: set<string>) {
    forall gone, kept :: gone in before - after && kept in after ==> SkillOf(gone) != SkillOf(kept)
  }

  /** Reports keep one persona's ledger faithful exactly when no removed name shares its skill. */
  lemma FaithfulOneIff(ledger: set<(string, string)>, slug: string, before: set<string>, jobs: seq<Job>)
    requires ReadsBack(jobs) && Mirrors(ledger, slug, before)
    ensures Mirrors(Folded(ledger, Reports(slug, before, jobs)), slug, DesiredNames(jobs)) <==> NoneShares(before, DesiredNames(jobs))
  {
    var after, folded := DesiredNames(jobs), Folded(ledger, Reports(slug, before, jobs));
    forall k
      ensures (slug, k) in folded <==> (Holds(before, k) || Holds(after - before, k)) && !Holds(before - after, k)
    {
      FoldReports(ledger, slug, before, jobs, slug, k);
    }
    FaithfulNames(ledger, folded, slug, before, after);
  }

  lemma FaithfulNames(ledger: set<(string, string)>, folded: set<(string, string)>, slug: string, before: set<string>, after: set<string>)
    requires forall k :: (slug, k) in folded <==> (Holds(before, k) || Holds(after - before, k)) && !Holds(before - after, k)
    ensures Mirrors(folded, slug, after) <==> NoneShares(before, after)
  {
    if NoneShares(before, after) {
      forall k
        ensures (slug, k) in folded <==> Holds(after, k)
      {
        if Holds(after, k) {
          var name :| name in after && SkillOf(name) == k;
          assert name in before || name in after - before;
        }
        if (slug, k) in folded && Holds(before, k) {
          var name :| name in before && SkillOf(name) == k;
          assert name in after || name in before - after;
        }
      }
    }
    if gone, kept :| gone in before - after && kept in after && SkillOf(gone) == SkillOf(kept) {
      var k := SkillOf(gone);
      assert Holds(before - after, k) && Holds(after, k);
      assert (slug, k) !in folded;
    }
  }

  /** Each persona's pairs are settled by its own reports. */
  lemma {:induction false} FoldOver(ledger: set<(string, string)>, stores: Stores, plan: Plan, slugs: seq<string>, slug: string, k: string)
    requires Distinct(slugs) && forall s :: s in slugs ==> ReadsBack(JobsOf(plan, s))
    ensures var before, jobs := ManagedNames(StoreAt(stores, slug)), JobsOf(plan, slug);
      (slug, k) in Folded(ledger, ReportsOver(stores, plan, slugs)) <==>
        if slug in slugs then (slug, k) in Folded(ledger, Reports(slug, before, jobs)) else (slug, k) in ledger
  {
    if slugs != [] {
      var n := |slugs| - 1;
      var init, last := slugs[..n], slugs[n];
      var before, jobs := ManagedNames(StoreAt(stores, last)), JobsOf(plan, last);
      var middle := Folded(ledger, ReportsOver(stores, plan, init));
      assert slugs == init + [last] && last !in init && last in slugs;
      FoldOver(ledger, stores, plan, init, slug, k);
      FoldedJoins(ledger, ReportsOver(stores, plan, init), Reports(last, before, jobs));
      FoldReports(middle, last, before, jobs, slug, k);
      FoldReports(ledger, last, before, jobs, slug, k);
    }
  }

  // ---------------------------------------------------------------------------
  // Whole runs
  // ---------------------------------------------------------------------------

  /** A slug and skill whose managed name reads back. */
  predicate Clean(slug: string, skill: string) {
    ':' !in slug && '@' !in slug && '@' !in skill
  }

  /** The slugs carry neither `:` nor `@`, and the skills of routines and slots no `@`. */
  ghost predicate CleanSeat(seat: Seat) {
    && (forall p, e :: p in seat.personas && e in p.cron && e.CronEntry? ==> Clean(Home(seat, p), e.skill))
    && (forall p, slot :: p in seat.personas && slot in Slots(seat, p) ==> Clean(Home(seat, p), slot.0))
  }

  /** A job named for a clean slug and its own skill. */
  ghost predicate CleanJob(slug: string, job: Job) {
    Clean(slug, job.skill) && exists space :: job.name == NameWithSpace(ManagedName(slug, job.skill), space)
  }

  ghost predicate CleanJobs(slug: string, jobs: seq<Job>) {
    forall job :: job in jobs ==> CleanJob(slug, job)
  }

  lemma CleanReadsBack(slug: string, jobs: seq<Job>)
    requires CleanJobs(slug, jobs)
    ensures ReadsBack(jobs)
  {
    forall job | job in jobs
      ensures SkillOf(job.name) == job.skill
    {
      assert CleanJob(slug, job);
      var space :| job.name == NameWithSpace(ManagedName(slug, job.skill), space);
      SkillOfPlain(slug, job.skill, space);
    }
  }

  lemma SpacedIsClean(spaces: Spaces, slug: string, job: Job, raw: string)
    requires Clean(slug, job.skill) && job.name == ManagedName(slug, job.skill) && SpacedJob(spaces, job, raw).Some?
    ensures CleanJob(slug, SpacedJob(spaces, job, raw).value)
  {
    if spaces.Unspaced? {
      assert job.name == NameWithSpace(ManagedName(slug, job.skill), "");
    } else {
      var made := SpacedJob(spaces, job, raw).value;
      assert made.name == NameWithSpace(ManagedName(slug, job.skill), spaces.deliver(raw).value.0);
    }
  }

  lemma {:induction false} AuthoredClean(seat: Seat, p: Persona, entries: seq<CronEntry>)
    requires AuthoredJobs(seat, p, entries).Some?
    requires forall e :: e in entries && e.CronEntry? ==> Clean(Home(seat, p), e.skill)
    ensures CleanJobs(Home(seat, p), AuthoredJobs(seat, p, entries).value)
  {
    if entries != [] {
      var n := |entries| - 1;
      var e := entries[n];
      AuthoredClean(seat, p, entries[..n]);
      assert e in entries;
      var wake := if e.wake.Some? then e.wake.value else WAKE_ALWAYS;
      var preRun := if wake == PRE_RUN_DECIDES then Some(e.preRun) else None;
      SpacedIsClean(seat.spaces, Home(seat, p),
                    Job(ManagedName(Home(seat, p), e.skill), e.schedule, e.skill, preRun, None, None, false), e.space);
    }
  }

  lemma {:induction false} SlotsClean(seat: Seat, p: Persona, slots: seq<(string, string)>)
    requires SlotJobs(seat, p, slots).Some?
    requires forall slot :: slot in slots ==> Clean(Home(seat, p), slot.0)
    ensures CleanJobs(Home(seat, p), SlotJobs(seat, p, slots).value)
  {
    if slots != [] {
      var n := |slots| - 1;
      SlotsClean(seat, p, slots[..n]);
      assert slots[n] in slots;
      SpacedIsClean(seat.spaces, Home(seat, p),
                    Job(ManagedName(Home(seat, p), slots[n].0), SLOT_SCHEDULE, slots[n].0, None, None, None, true), slots[n].1);
    }
  }

  lemma PersonaClean(seat: Seat, p: Persona)
    requires CleanSeat(seat) && p in seat.personas && DesiredFor(seat, p).Some?
    ensures CleanJobs(Home(seat, p), DesiredFor(seat, p).value)
  {
    AuthoredClean(seat, p, p.cron);
    SlotsClean(seat, p, Slots(seat, p));
  }

  lemma {:induction false} PlanClean(seat: Seat, personas: seq<Persona>, slug: string)
    requires CleanSeat(seat) && PlanOver(seat, personas).Some? && forall p :: p in personas ==> p in seat.personas
    ensures CleanJobs(slug, JobsOf(PlanOver(seat, personas).value, slug))
  {
    if personas != [] {
      var n := |personas| - 1;
      PlanClean(seat, personas[..n], slug);
      assert personas[n] in personas;
      AllPlanned(seat, personas, n);
      PersonaClean(seat, personas[n]);
    }
  }

  lemma DesiredClean(req: Request, slug: string)
    requires CleanSeat(req.seat) && Ready(req)
    ensures CleanJobs(slug, JobsOf(Desired(req).value, slug)) && ReadsBack(JobsOf(Desired(req).value, slug))
  {
    if !req.containment {
      PlanClean(req.seat, req.seat.personas, slug);
    }
    CleanReadsBack(slug, JobsOf(Desired(req).value, slug));
  }

  /** The ledger names exactly the (persona, skill) pairs scheduled in the stores. */
  ghost predicate Faithful(ledger: set<(string, string)>, stores: Stores) {
    forall slug :: Mirrors(ledger, slug, ManagedNames(StoreAt(stores, slug)))
  }

  /** In some store a name the run removes shares its skill with one that is there afterwards. */
  ghost predicate RunShares(req: Request, stores: Stores) {
    exists slug ::
      !NoneShares(ManagedNames(StoreAt(stores, slug)), ManagedNames(StoreAt(CronMaterialize.After(req, stores), slug)))
  }

  lemma StoresKept(req: Request, stores: Stores)
    requires StoresInv(stores)
    ensures StoresInv(CronMaterialize.After(req, stores))
  {
    forall slug
      ensures StoreInv(StoreAt(CronMaterialize.After(req, stores), slug))
    {
      RunConverges(req, stores, slug);
    }
  }

  /** What a run makes of one pair of the ledger, whatever the ledger says: added, then removed. */
  lemma RunAt(ledger: set<(string, string)>, req: Request, stores: Stores, slug: string, k: string)
    requires StoresInv(stores) && CleanSeat(req.seat)
    ensures var before, after := ManagedNames(StoreAt(stores, slug)), ManagedNames(StoreAt(CronMaterialize.After(req, stores), slug));
      (slug, k) in Folded(ledger, RunReports(req, stores)) <==>
        ((slug, k) in ledger || Holds(after - before, k)) && !Holds(before - after, k)
  {
    if Ready(req) {
      var plan := Desired(req).value;
      var slugs := Sorted(Visited(req, plan));
      SortedMembers(Visited(req, plan));
      NamesAfter(req, stores, slug);
      forall s | s in slugs
        ensures ReadsBack(JobsOf(plan, s))
      {
        DesiredClean(req, s);
      }
      FoldOver(ledger, stores, plan, slugs, slug, k);
      DesiredClean(req, slug);
      FoldReports(ledger, slug, ManagedNames(StoreAt(stores, slug)), JobsOf(plan, slug), slug, k);
    }
  }

  /** One persona's side of a run: faithful pairs stay so exactly when no removed name shares its skill. */
  lemma FaithfulAtIff(ledger: set<(string, string)>, req: Request, stores: Stores, slug: string)
    requires StoresInv(stores) && CleanSeat(req.seat) && Mirrors(ledger, slug, ManagedNames(StoreAt(stores, slug)))
    ensures var before, after := ManagedNames(StoreAt(stores, slug)), ManagedNames(StoreAt(CronMaterialize.After(req, stores), slug));
      Mirrors(Folded(ledger, RunReports(req, stores)), slug, after) <==> NoneShares(before, after)
  {
    var before, after := ManagedNames(StoreAt(stores, slug)), ManagedNames(StoreAt(CronMaterialize.After(req, stores), slug));
    var folded := Folded(ledger, RunReports(req, stores));
    forall k
      ensures (slug, k) in folded <==> (Holds(before, k) || Holds(after - before, k)) && !Holds(before - after, k)
    {
      RunAt(ledger, req, stores, slug, k);
    }
    FaithfulNames(ledger, folded, slug, before, after);
  }

  /**
   * ONE RUN. A faithful ledger stays faithful over a run, spaces or none, exactly when no
   * managed name the run removes shares persona and skill with one that is there afterwards.
   */
  lemma FaithfulRunIff(ledger: set<(string, string)>, req: Request, stores: Stores)
    requires StoresInv(stores) && CleanSeat(req.seat) && Faithful(ledger, stores)
    ensures Faithful(Folded(ledger, RunReports(req, stores)), CronMaterialize.After(req, stores)) <==> !RunShares(req, stores)
  {
    forall slug
      ensures Mirrors(Folded(ledger, RunReports(req, stores)), slug, ManagedNames(StoreAt(CronMaterialize.After(req, stores), slug))) <==>
        NoneShares(ManagedNames(StoreAt(stores, slug)), ManagedNames(StoreAt(CronMaterialize.After(req, stores), slug)))
    {
      assert Mirrors(ledger, slug, ManagedNames(StoreAt(stores, slug)));
      FaithfulAtIff(ledger, req, stores, slug);
    }
  }

  // ---------------------------------------------------------------------------
  // Seats without spaces
  // ---------------------------------------------------------------------------

  ghost predicate PlainName(slug: string, name: string) {
    exists skill :: Clean(slug, skill) && name == ManagedName(slug, skill)
  }

  /** Every managed name is a persona and a skill, without a space. */
  ghost predicate PlainStores(stores: Stores) {
    forall slug, name :: name in ManagedNames(StoreAt(stores, slug)) ==> PlainName(slug, name)
  }

  /** Plain names of one persona with one skill are one name. */
  lemma PlainNamesDiffer(slug: string, a: string, b: string)
    requires PlainName(slug, a) && PlainName(slug, b) && SkillOf(a) == SkillOf(b)
    ensures a == b
  {
    var x :| Clean(slug, x) && a == ManagedName(slug, x);
    var y :| Clean(slug, y) && b == ManagedName(slug, y);
    SkillOfPlain(slug, x, "");
    SkillOfPlain(slug, y, "");
  }

  lemma {:induction false} AuthoredPlain(seat: Seat, p: Persona, entries: seq<CronEntry>)
    requires seat.spaces.Unspaced? && AuthoredJobs(seat, p, entries).Some?
    requires forall e :: e in entries && e.CronEntry? ==> Clean(Home(seat, p), e.skill)
    ensures forall job :: job in AuthoredJobs(seat, p, entries).value ==> PlainName(Home(seat, p), job.name)
  {
    if entries != [] {
      var n := |entries| - 1;
      AuthoredPlain(seat, p, entries[..n]);
      assert entries[n] in entries;
      assert PlainName(Home(seat, p), ManagedName(Home(seat, p), entries[n].skill));
    }
  }

  lemma {:induction false} PlanPlain(seat: Seat, personas: seq<Persona>, slug: string)
    requires seat.spaces.Unspaced? && CleanSeat(seat) && PlanOver(seat, personas).Some?
    requires forall p :: p in personas ==> p in seat.personas
    ensures forall job :: job in JobsOf(PlanOver(seat, personas).value, slug) ==> PlainName(slug, job.name)
  {
    if personas != [] {
      var n := |personas| - 1;
      var p := personas[n];
      PlanPlain(seat, personas[..n], slug);
      assert p in personas;
      AuthoredPlain(seat, p, p.cron);
      assert Slots(seat, p) == [];
    }
  }

  lemma PlainStep(req: Request, stores: Stores)
    requires StoresInv(stores) && req.seat.spaces.Unspaced? && CleanSeat(req.seat) && PlainStores(stores)
    ensures PlainStores(CronMaterialize.After(req, stores)) && !RunShares(req, stores)
  {
    var now := CronMaterialize.After(req, stores);
    if Ready(req) {
      forall slug, name | name in ManagedNames(StoreAt(now, slug))
        ensures PlainName(slug, name)
      {
        if !req.containment { PlanPlain(req.seat, req.seat.personas, slug); }
        NamesAfter(req, stores, slug);
      }
    }
    forall slug
      ensures NoneShares(ManagedNames(StoreAt(stores, slug)), ManagedNames(StoreAt(now, slug)))
    {
      PlainNoneShares(slug, ManagedNames(StoreAt(stores, slug)), ManagedNames(StoreAt(now, slug)));
    }
  }

  lemma PlainNoneShares(slug: string, before: set<string>, after: set<string>)
    requires forall name :: name in before || name in after ==> PlainName(slug, name)
    ensures NoneShares(before, after)
  {
    forall gone, kept | gone in before - after && kept in after
      ensures SkillOf(gone) != SkillOf(kept)
    {
      if SkillOf(gone) == SkillOf(kept) { PlainNamesDiffer(slug, gone, kept); }
    }
  }

  /** Of plain names, the one that carries a skill is the skill's managed name. */
  lemma PlainHolds(slug: string, names: set<string>, skill: string)
    requires forall name :: name in names ==> PlainName(slug, name)
    ensures Holds(names, skill) <==> ManagedName(slug, skill) in names
  {
    var front := PREFIX + slug + ":";
    forall name | name in names
      ensures SkillOf(name) == skill <==> name == ManagedName(slug, skill)
    {
      var x :| Clean(slug, x) && name == ManagedName(slug, x);
      SkillOfPlain(slug, x, "");
      assert ManagedName(slug, x)[|front|..] == x && ManagedName(slug, skill)[|front|..] == skill;
    }
  }
}
