/**
 * `materialize_cron` (bootstrap/cron_materialize.py) in the source's own form: validate, stage
 * and read everything first, then remove and create jobs store by store, reporting as it goes.
 */
module CronStores {
  import opened Basics
  import opened SeatConfig
  import opened TextOrder
  import opened CronMaterialize
  import opened CronLedger
  import opened CronBoots

  // ---------------------------------------------------------------------------
  // Validation
  // ---------------------------------------------------------------------------

  lemma AuthoredSnoc(seat: Seat, p: Persona, i: nat)
    requires i < |p.cron|
    ensures var before, job := AuthoredJobs(seat, p, p.cron[..i]), EntryJob(seat, p, p.cron[i]);
      AuthoredJobs(seat, p, p.cron[..i + 1]) ==
        if before.None? || job.None? || Named(before.value, job.value.name) then None
        else Some(before.value + [job.value])
  {
    assert p.cron[..i + 1][..i] == p.cron[..i];
  }

  lemma PlanSnoc(seat: Seat, i: nat)
    requires i < |seat.personas|
    ensures var before, jobs := PlanOver(seat, seat.personas[..i]), DesiredFor(seat, seat.personas[i]);
      PlanOver(seat, seat.personas[..i + 1]) ==
        if before.None? || jobs.None? then None
        else Some(if jobs.value == [] then before.value else before.value[Home(seat, seat.personas[i]) := jobs.value])
  {
    assert seat.personas[..i + 1][..i] == seat.personas[..i];
  }

  /** The checks of one entry, in the source's order. */
  method CheckEntry(seat: Seat, p: Persona, e: CronEntry, slotSkills: set<string>) returns (job: Option<Job>)
    requires slotSkills == SlotSkills(seat, p)
    ensures job == EntryJob(seat, p, e)
  {
    if e.NotMapping? {
      return None;
    }
    if e.skill in slotSkills {
      return None;
    }
    if e.skill == "" || e.schedule == "" {
      return None;
    }
    if e.skill !in Scheduled(p) {
      return None;
    }
    var wake := if e.wake.Some? then e.wake.value else WAKE_ALWAYS;
    if wake !in {WAKE_ALWAYS, PRE_RUN_DECIDES} {
      return None;
    }
    if wake == PRE_RUN_DECIDES && e.preRun == "" {
      return None;
    }
    if Home(seat, p) == "" {
      return None;
    }
    var name := ManagedName(Home(seat, p), e.skill);
    var space: Option<string>, target: Option<string> := None, None;
    match seat.spaces {
      case Broken =>
        return None;
      case Unspaced =>
      case Spaced(deliver) =>
        var resolved := deliver(e.space);
        if resolved.None? {
          return None;
        }
        name := NameWithSpace(name, resolved.value.0);
        space, target := Some(resolved.value.0), Some(resolved.value.1);
    }
    var preRun := if wake == PRE_RUN_DECIDES then Some(e.preRun) else None;
    job := Some(Job(name, e.schedule, e.skill, preRun, space, target, false));
  }

  /** `_slot_jobs` */
  method CollectSlots(seat: Seat, p: Persona, slots: seq<(string, string)>) returns (jobs: Option<seq<Job>>)
    ensures jobs == SlotJobs(seat, p, slots)
  {
    var made: seq<Job> := [];
    for i := 0 to |slots|
      invariant SlotJobs(seat, p, slots[..i]) == Some(made)
    {
      SlotsSnoc(seat, p, slots, i);
      var job := SlotJob(seat, p, slots[i]);
      if job.None? {
        StaysUnslotted(seat, p, slots, i + 1);
        return None;
      }
      made := made + [job.value];
    }
    assert slots[..|slots|] == slots;
    jobs := Some(made);
  }

  lemma SlotsSnoc(seat: Seat, p: Persona, slots: seq<(string, string)>, i: nat)
    requires i < |slots|
    ensures var before, job := SlotJobs(seat, p, slots[..i]), SlotJob(seat, p, slots[i]);
      SlotJobs(seat, p, slots[..i + 1]) ==
        if before.None? || job.None? then None else Some(before.value + [job.value])
  {
    assert slots[..i + 1][..i] == slots[..i];
  }

  lemma {:induction false} StaysUnslotted(seat: Seat, p: Persona, slots: seq<(string, string)>, i: nat)
    requires i <= |slots| && SlotJobs(seat, p, slots[..i]).None?
    ensures SlotJobs(seat, p, slots).None?
    decreases |slots| - i
  {
    if i < |slots| {
      SlotsSnoc(seat, p, slots, i);
      StaysUnslotted(seat, p, slots, i + 1);
    } else {
      assert slots[..i] == slots;
    }
  }

  method CollectAuthored(seat: Seat, p: Persona) returns (jobs: Option<seq<Job>>)
    ensures jobs == AuthoredJobs(seat, p, p.cron)
  {
    var entries: seq<Job> := [];
    var slotSkills := SlotSkills(seat, p);
    for i := 0 to |p.cron|
      invariant AuthoredJobs(seat, p, p.cron[..i]) == Some(entries)
    {
      AuthoredSnoc(seat, p, i);
      var job := CheckEntry(seat, p, p.cron[i], slotSkills);
      if job.None? || Named(entries, job.value.name) {
        StaysUnauthored(seat, p, i + 1);
        return None;
      }
      entries := entries + [job.value];
    }
    assert p.cron[..|p.cron|] == p.cron;
    jobs := Some(entries);
  }

  /** One bad entry refuses the persona. */
  lemma {:induction false} StaysUnauthored(seat: Seat, p: Persona, i: nat)
    requires i <= |p.cron| && AuthoredJobs(seat, p, p.cron[..i]).None?
    ensures AuthoredJobs(seat, p, p.cron).None?
    decreases |p.cron| - i
  {
    if i < |p.cron| {
      AuthoredSnoc(seat, p, i);
      StaysUnauthored(seat, p, i + 1);
    } else {
      assert p.cron[..i] == p.cron;
    }
  }

  /** Everything one persona is to have scheduled, or None where it is refused. */
  method CollectPersona(seat: Seat, p: Persona) returns (jobs: Option<seq<Job>>)
    ensures jobs == DesiredFor(seat, p)
  {
    var authored := CollectAuthored(seat, p);
    var slotted := CollectSlots(seat, p, Slots(seat, p));
    if authored.None? || slotted.None? {
      return None;
    }
    jobs := Some(authored.value + slotted.value);
  }

  /** `_desired_by_persona` */
  method DesiredByPersona(seat: Seat) returns (plan: Option<Plan>)
    ensures plan == PlanOf(seat)
  {
    if seat.spaces.Broken? {
      return None;
    }
    var byPersona: Plan := map[];
    for i := 0 to |seat.personas|
      invariant PlanOver(seat, seat.personas[..i]) == Some(byPersona)
    {
      PlanSnoc(seat, i);
      var jobs := CollectPersona(seat, seat.personas[i]);
      if jobs.None? {
        StaysUnplanned(seat, i + 1);
        return None;
      }
      if jobs.value != [] {
        byPersona := byPersona[Home(seat, seat.personas[i]) := jobs.value];
      }
    }
    assert seat.personas[..|seat.personas|] == seat.personas;
    plan := Some(byPersona);
  }

  /** One refused persona refuses the seat. */
  lemma {:induction false} StaysUnplanned(seat: Seat, i: nat)
    requires i <= |seat.personas| && PlanOver(seat, seat.personas[..i]).None?
    ensures PlanOver(seat, seat.personas).None?
    decreases |seat.personas| - i
  {
    if i < |seat.personas| {
      PlanSnoc(seat, i);
      StaysUnplanned(seat, i + 1);
    } else {
      assert seat.personas[..i] == seat.personas;
    }
  }

  // ---------------------------------------------------------------------------
  // Removing by id
  // ---------------------------------------------------------------------------

  function Excluding(ids: set<nat>): StoredJob -> bool {
    (j: StoredJob) => j.id !in ids
  }

  function Ids(jobs: seq<StoredJob>): seq<nat> {
    seq(|jobs|, i requires 0 <= i < |jobs| => jobs[i].id)
  }

  function IdSet(ids: seq<nat>): set<nat> {
    set id | id in ids
  }

  lemma {:induction false} RemoveAnother(jobs: seq<StoredJob>, ids: set<nat>, id: nat)
    ensures Filter(Filter(jobs, Excluding(ids)), Excluding({id})) == Filter(jobs, Excluding(ids + {id}))
  {
    if jobs != [] {
      var init, last := jobs[..|jobs| - 1], jobs[|jobs| - 1];
      RemoveAnother(init, ids, id);
      var tail := if last.id !in ids then [last] else [];
      FilterJoins(Filter(init, Excluding(ids)), tail, Excluding({id}));
      assert Filter(jobs, Excluding(ids)) == Filter(init, Excluding(ids)) + tail;
      if last.id !in ids {
        assert tail[..0] == [] && Filter(tail, Excluding({id})) == if last.id != id then [last] else [];
      }
    }
  }

  lemma SameIdSameJob(s: Store, a: StoredJob, b: StoredJob)
    requires StoreInv(s) && a in s.jobs && b in s.jobs && a.id == b.id
    ensures a == b
  {
    var i :| 0 <= i < |s.jobs| && s.jobs[i] == a;
    var j :| 0 <= j < |s.jobs| && s.jobs[j] == b;
  }

  /** Removing the ids of the managed jobs removes exactly the managed jobs. */
  lemma ManagedIdsRemoveManaged(s: Store, ids: seq<nat>)
    requires StoreInv(s) && ids == Ids(Managed(s.jobs))
    ensures Filter(s.jobs, Excluding(IdSet(ids))) == Unmanaged(s.jobs)
  {
    var managed := Managed(s.jobs);
    var gone := IdSet(ids);
    forall j | j in s.jobs
      ensures Excluding(gone)(j) == Foreign(j)
    {
      if Ours(j) {
        FilterMember(s.jobs, Ours, j);
        var i :| 0 <= i < |managed| && managed[i] == j;
        assert ids[i] == j.id && ids[i] in ids;
      }
      if j.id in gone {
        var i :| 0 <= i < |ids| && ids[i] == j.id;
        FilterMember(s.jobs, Ours, managed[i]);
        SameIdSameJob(s, managed[i], j);
      }
    }
    FilterAgree(s.jobs, Excluding(gone), Foreign);
  }

  /** The names a run registers, in the order it visits personas. */
  function RegisteredOver(plan: Plan, slugs: seq<string>): seq<string> {
    if slugs == [] then [] else
      RegisteredOver(plan, slugs[..|slugs| - 1]) + NamesOf(JobsOf(plan, slugs[|slugs| - 1]))
  }

  function NamesOf(jobs: seq<Job>): seq<string> {
    seq(|jobs|, i requires 0 <= i < |jobs| => jobs[i].name)
  }

  /** `_report_routine_changes` */
  method ReportRoutineChanges(slug: string, before: set<string>, jobs: seq<Job>) returns (changes: seq<Change>)
    ensures changes == Reports(slug, before, jobs)
  {
    var after := DesiredNames(jobs);
    var on := SortKeys(after - before);
    changes := [];
    for i := 0 to |on|
      invariant changes == TurnedOn(slug, jobs, on[..i])
    {
      changes := changes + [OnChange(slug, jobs, on[i])];
    }
    assert on[..|on|] == on;
    var off := SortKeys(before - after);
    for i := 0 to |off|
      invariant changes == TurnedOn(slug, jobs, on) + TurnedOff(slug, off[..i])
    {
      changes := changes + [OffChange(slug, off[i])];
    }
    assert off[..|off|] == off;
  }

  // ---------------------------------------------------------------------------
  // The stores
  // ---------------------------------------------------------------------------

  /** The stores once these personas have been visited. */
  function StoresAfter(req: Request, plan: Plan, stores: Stores, slugs: seq<string>): Stores {
    if slugs == [] then stores else
      var n := |slugs| - 1;
      var before := StoresAfter(req, plan, stores, slugs[..n]);
      before[slugs[n] := Converged(req, slugs[n], StoreAt(before, slugs[n]), JobsOf(plan, slugs[n]))]
  }

  /** Each store is visited once, as the run found it; the others are not. */
  lemma {:induction false} StoreAfter(req: Request, plan: Plan, stores: Stores, slugs: seq<string>, slug: string)
    requires Distinct(slugs)
    ensures StoreAt(StoresAfter(req, plan, stores, slugs), slug) ==
            if slug in slugs then Converged(req, slug, StoreAt(stores, slug), JobsOf(plan, slug)) else StoreAt(stores, slug)
    ensures slug in StoresAfter(req, plan, stores, slugs) <==> slug in stores || slug in slugs
  {
    if slugs != [] {
      var n := |slugs| - 1;
      StoreAfter(req, plan, stores, slugs[..n], slug);
      assert slugs == slugs[..n] + [slugs[n]];
    }
  }

  /** The second pass, one persona further. */
  lemma VisitSnoc(req: Request, plan: Plan, stores: Stores, slugs: seq<string>, i: nat)
    requires Distinct(slugs) && i < |slugs|
    ensures var slug := slugs[i];
      var jobs := JobsOf(plan, slug);
      && StoreAt(StoresAfter(req, plan, stores, slugs[..i]), slug) == StoreAt(stores, slug)
      && StoresAfter(req, plan, stores, slugs[..i + 1]) ==
         StoresAfter(req, plan, stores, slugs[..i])[slug := Converged(req, slug, StoreAt(stores, slug), jobs)]
      && RegisteredOver(plan, slugs[..i + 1]) == RegisteredOver(plan, slugs[..i]) + NamesOf(jobs)
      && ReportsOver(stores, plan, slugs[..i + 1]) ==
         ReportsOver(stores, plan, slugs[..i]) + Reports(slug, ManagedNames(StoreAt(stores, slug)), jobs)
  {
    assert slugs[..i + 1][..i] == slugs[..i];
    StoreAfter(req, plan, stores, slugs[..i], slugs[i]);
    assert slugs[i] !in slugs[..i];
  }

  lemma StoresAfterAll(req: Request, stores: Stores)
    requires Ready(req)
    ensures StoresAfter(req, Desired(req).value, stores, Sorted(Visited(req, Desired(req).value))) == CronMaterialize.After(req, stores)
  {
    var plan := Desired(req).value;
    var slugs := Sorted(Visited(req, plan));
    SortedMembers(Visited(req, plan));
    var a, b := StoresAfter(req, plan, stores, slugs), CronMaterialize.After(req, stores);
    forall slug
      ensures slug in a <==> slug in b
      ensures StoreAt(a, slug) == StoreAt(b, slug)
    {
      StoreAfter(req, plan, stores, slugs, slug);
      assert slug in slugs <==> slug in Visited(req, plan);
    }
    SameStores(a, b);
  }

  lemma SameStores(a: Stores, b: Stores)
    requires a.Keys == b.Keys && forall slug :: StoreAt(a, slug) == StoreAt(b, slug)
    ensures a == b
  {
    forall slug | slug in a
      ensures a[slug] == b[slug]
    {
      assert StoreAt(a, slug) == a[slug] && StoreAt(b, slug) == b[slug];
    }
  }

  /** One persona's scripts staged, or None as soon as one cannot be. */
  method StageOne(req: Request, slug: string, jobs: seq<Job>) returns (refs: Option<map<string, string>>)
    ensures refs == Refs(req, slug, jobs)
  {
    var staged: map<string, string> := map[];
    for i := 0 to |jobs|
      invariant Refs(req, slug, jobs[..i]) == Some(staged)
    {
      RefsSnoc(req, slug, jobs, i);
      var job := jobs[i];
      if job.gated {
        var path := if req.gates.None? then None
                    else req.gates.value(slug, job.skill, if job.space.Some? then job.space.value else "");
        if path.None? {
          StaysUnstaged(req, slug, jobs, i + 1);
          return None;
        }
        staged := staged[job.name := path.value];
      } else if job.preRun.Some? {
        var path := if req.scripts.None? then None else req.scripts.value(slug, job.skill, job.preRun.value);
        if path.None? {
          StaysUnstaged(req, slug, jobs, i + 1);
          return None;
        }
        staged := staged[job.name := path.value];
      }
    }
    assert jobs[..|jobs|] == jobs;
    refs := Some(staged);
  }

  lemma RefsSnoc(req: Request, slug: string, jobs: seq<Job>, i: nat)
    requires i < |jobs|
    ensures var before := Refs(req, slug, jobs[..i]);
      Refs(req, slug, jobs[..i + 1]) ==
        if before.None? || !NeedsStaging(jobs[i]) then before
        else if Staged(req, slug, jobs[i]).None? then None
        else Some(before.value[jobs[i].name := Staged(req, slug, jobs[i]).value])
  {
    assert jobs[..i + 1][..i] == jobs[..i];
  }

  lemma {:induction false} StaysUnstaged(req: Request, slug: string, jobs: seq<Job>, i: nat)
    requires i <= |jobs| && Refs(req, slug, jobs[..i]).None?
    ensures Refs(req, slug, jobs).None?
    decreases |jobs| - i
  {
    if i < |jobs| {
      RefsSnoc(req, slug, jobs, i);
      StaysUnstaged(req, slug, jobs, i + 1);
    } else {
      assert jobs[..i] == jobs;
    }
  }

  /** Every script of the plan staged, or None as soon as one cannot be. */
  method StageAll(req: Request, plan: Plan) returns (staged: Option<map<string, map<string, string>>>)
    ensures staged.Some? <==> forall slug :: slug in plan ==> Refs(req, slug, plan[slug]).Some?
    ensures staged.Some? ==> staged.value.Keys == plan.Keys
    ensures staged.Some? ==> forall slug :: slug in plan ==> staged.value[slug] == RefsOf(req, slug, plan[slug])
  {
    var refsBySlug: map<string, map<string, string>> := map[];
    var rest := plan.Keys;
    while rest != {}
      invariant rest <= plan.Keys && refsBySlug.Keys == plan.Keys - rest
      invariant forall slug :: slug in refsBySlug ==> Refs(req, slug, plan[slug]) == Some(refsBySlug[slug])
      decreases rest
    {
      var slug :| slug in rest;
      var refs := StageOne(req, slug, plan[slug]);
      if refs.None? {
        return None;
      }
      refsBySlug := refsBySlug[slug := refs.value];
      rest := rest - {slug};
    }
    staged := Some(refsBySlug);
  }

  /** What the first pass remembers of a store: the ids to remove, and the managed names. */
  datatype Snapshot = Snapshot(ids: seq<nat>, names: set<string>)

  function SnapshotOf(s: Store): Snapshot {
    Snapshot(Ids(Managed(s.jobs)), ManagedNames(s))
  }

  ghost predicate Remembers(snapshots: map<string, Snapshot>, stores: Stores, slugs: seq<string>) {
    forall slug :: slug in slugs ==> slug in snapshots && snapshots[slug] == SnapshotOf(StoreAt(stores, slug))
  }

  /** The stores once these homes have been looked at. */
  ghost function HomesLeft(authored: set<string>, stores: Stores, seen: seq<string>): Stores {
    map slug | slug in stores && !(slug in seen && Orphan(authored, slug)) :: stores[slug]
  }

  function Orphans(authored: set<string>, slugs: seq<string>): seq<string> {
    Filter(slugs, (slug: string) => Orphan(authored, slug))
  }

  lemma HomesLeftSnoc(authored: set<string>, stores: Stores, names: seq<string>, i: nat)
    requires i < |names|
    ensures HomesLeft(authored, stores, names[..i + 1]) ==
            if Orphan(authored, names[i]) then HomesLeft(authored, stores, names[..i]) - {names[i]}
            else HomesLeft(authored, stores, names[..i])
    ensures Orphans(authored, names[..i + 1]) ==
            Orphans(authored, names[..i]) + if Orphan(authored, names[i]) then [names[i]] else []
  {
    assert names[..i + 1] == names[..i] + [names[i]];
    FilterSnoc(names[..i], names[i], (slug: string) => Orphan(authored, slug));
  }

  lemma HomesLeftAll(authored: set<string>, stores: Stores)
    ensures HomesLeft(authored, stores, Sorted(stores.Keys)) == HomesKept(authored, stores)
    ensures HomesLeft(authored, stores, []) == stores
  {
    SortedMembers(stores.Keys);
  }

  /** The cron store of every persona's profile home. */
  class CronHomes {
    var stores: Stores

    constructor (stores: Stores)
      ensures this.stores == stores
    {
      this.stores := stores;
    }

    method RemoveJob(slug: string, id: nat)
      modifies this
      ensures var s := StoreAt(old(stores), slug);
        stores == old(stores)[slug := s.(jobs := Filter(s.jobs, Excluding({id})))]
    {
      var s := StoreAt(stores, slug);
      stores := stores[slug := s.(jobs := Filter(s.jobs, Excluding({id})))];
    }

    method CreateJob(slug: string, job: Job, refs: map<string, string>)
      modifies this
      ensures var s := StoreAt(old(stores), slug);
        stores == old(stores)[slug := Store(s.jobs + [Made(s.nextId, job, refs)], s.nextId + 1)]
    {
      var s := StoreAt(stores, slug);
      stores := stores[slug := Store(s.jobs + [Made(s.nextId, job, refs)], s.nextId + 1)];
    }

    method RemoveAll(slug: string, ids: seq<nat>)
      modifies this
      ensures var s := StoreAt(old(stores), slug);
        stores == old(stores)[slug := s.(jobs := Filter(s.jobs, Excluding(IdSet(ids))))]
    {
      ghost var was, s := stores, StoreAt(stores, slug);
      stores := stores[slug := StoreAt(stores, slug)];
      FilterAll(s.jobs, Excluding(IdSet([])));
      for i := 0 to |ids|
        invariant stores == was[slug := s.(jobs := Filter(s.jobs, Excluding(IdSet(ids[..i]))))]
      {
        RemoveAnother(s.jobs, IdSet(ids[..i]), ids[i]);
        assert IdSet(ids[..i + 1]) == IdSet(ids[..i]) + {ids[i]};
        RemoveJob(slug, ids[i]);
      }
      assert ids[..|ids|] == ids;
    }

    method CreateAll(slug: string, jobs: seq<Job>, refs: map<string, string>)
      requires slug in stores
      modifies this
      ensures stores == old(stores)[slug := Created(old(stores)[slug], jobs, refs)]
    {
      ghost var was := stores;
      for i := 0 to |jobs|
        invariant stores == was[slug := Created(was[slug], jobs[..i], refs)]
      {
        assert jobs[..i + 1][..i] == jobs[..i];
        CreateJob(slug, jobs[i], refs);
      }
      assert jobs[..|jobs|] == jobs;
    }

    /** The second pass: nothing in it can fail. */
    method MutateAll(req: Request, plan: Plan, staged: map<string, map<string, string>>,
                     snapshots: map<string, Snapshot>, slugs: seq<string>)
      returns (registered: seq<string>, changes: seq<Change>)
      requires StoresInv(stores) && Distinct(slugs) && Remembers(snapshots, stores, slugs)
      requires staged.Keys == plan.Keys && forall slug :: slug in plan ==> staged[slug] == RefsOf(req, slug, plan[slug])
      modifies this
      ensures registered == RegisteredOver(plan, slugs) && changes == ReportsOver(old(stores), plan, slugs)
      ensures stores == StoresAfter(req, plan, old(stores), slugs)
    {
      ghost var was := stores;
      registered, changes := [], [];
      for i := 0 to |slugs|
        invariant registered == RegisteredOver(plan, slugs[..i]) && changes == ReportsOver(was, plan, slugs[..i])
        invariant stores == StoresAfter(req, plan, was, slugs[..i])
      {
        var slug := slugs[i];
        VisitSnoc(req, plan, was, slugs, i);
        assert slug in slugs;
        var jobs := JobsOf(plan, slug);
        var reported := VisitOne(slug, snapshots[slug], jobs, if slug in plan then staged[slug] else map[]);
        registered := registered + NamesOf(jobs);
        changes := changes + reported;
      }
      assert slugs[..|slugs|] == slugs;
    }

    /** One persona of the second pass. */
    method VisitOne(slug: string, snapshot: Snapshot, jobs: seq<Job>, refs: map<string, string>) returns (changes: seq<Change>)
      requires StoreInv(StoreAt(stores, slug)) && snapshot == SnapshotOf(StoreAt(stores, slug))
      modifies this
      ensures stores == old(stores)[slug := Created(Emptied(StoreAt(old(stores), slug)), jobs, refs)]
      ensures changes == Reports(slug, ManagedNames(StoreAt(old(stores), slug)), jobs)
    {
      ghost var was, s := stores, StoreAt(stores, slug);
      ManagedIdsRemoveManaged(s, snapshot.ids);
      RemoveAll(slug, snapshot.ids);
      assert stores == was[slug := Emptied(s)];
      CreateAll(slug, jobs, refs);
      assert stores == was[slug := Created(Emptied(s), jobs, refs)];
      changes := ReportRoutineChanges(slug, snapshot.names, jobs);
    }

    /** Every store listed, or None as soon as one cannot be. */
    method SnapshotAll(req: Request, slugs: seq<string>) returns (snapshots: Option<map<string, Snapshot>>)
      ensures snapshots.Some? <==> forall slug :: slug in slugs ==> slug in req.readable
      ensures snapshots.Some? ==> Remembers(snapshots.value, stores, slugs)
    {
      var taken: map<string, Snapshot> := map[];
      for i := 0 to |slugs|
        invariant forall slug :: slug in slugs[..i] ==> slug in req.readable
        invariant Remembers(taken, stores, slugs[..i])
      {
        if slugs[i] !in req.readable {
          assert slugs[i] in slugs;
          return None;
        }
        assert slugs[..i + 1] == slugs[..i] + [slugs[i]];
        taken := taken[slugs[i] := SnapshotOf(StoreAt(stores, slugs[i]))];
      }
      assert slugs[..|slugs|] == slugs;
      snapshots := Some(taken);
    }

    /**
     * `materialize_cron`: `ok` is false where it raises, before anything has changed. On a
     * run that goes through, the stores, the names registered and the changes reported are
     * those of the specification.
     */
    method Materialize(req: Request) returns (ok: bool, registered: seq<string>, changes: seq<Change>)
      requires StoresInv(stores)
      modifies this
      ensures ok <==> Ready(req)
      ensures stores == CronMaterialize.After(req, old(stores)) && changes == RunReports(req, old(stores))
      ensures registered == if ok then RegisteredOver(Desired(req).value, Sorted(Visited(req, Desired(req).value))) else []
    {
      ok, registered, changes := false, [], [];
      var plan: Plan := map[];
      if !req.containment {
        var desired := DesiredByPersona(req.seat);
        if desired.None? {
          return;
        }
        plan := desired.value;
      }
      var slugs := SortKeys(Visited(req, plan));
      SortedMembers(Visited(req, plan));
      var staged := StageAll(req, plan);
      if staged.None? {
        return;
      }
      var snapshots := SnapshotAll(req, slugs);
      assert snapshots.Some? <==> Visited(req, plan) <= req.readable;
      if snapshots.None? {
        return;
      }
      StoresAfterAll(req, stores);
      ok := true;
      registered, changes := MutateAll(req, plan, staged.value, snapshots.value, slugs);
    }

    /** `_reconcile_profile_homes`: the homes nobody authors go, cron stores and all. */
    method ReconcileHomes(authored: set<string>) returns (removed: seq<string>)
      modifies this
      ensures stores == HomesKept(authored, old(stores))
      ensures removed == Orphans(authored, Sorted(old(stores).Keys))
    {
      ghost var was := stores;
      removed := [];
      HomesLeftAll(authored, stores);
      if authored == {} {
        FilterNone(Sorted(stores.Keys), (slug: string) => Orphan(authored, slug));
        return;
      }
      var names := SortKeys(stores.Keys);
      for i := 0 to |names|
        invariant stores == HomesLeft(authored, was, names[..i]) && removed == Orphans(authored, names[..i])
      {
        HomesLeftSnoc(authored, was, names, i);
        if !("." <= names[i]) && names[i] !in authored {
          stores := stores - {names[i]};
          removed := removed + [names[i]];
        }
      }
      assert names[..|names|] == names;
    }

    /** The end of a boot: homes first, then the schedules. */
    method BootOnce(req: Request) returns (ok: bool, removed: seq<string>, registered: seq<string>, changes: seq<Change>)
      requires StoresInv(stores)
      modifies this
      ensures stores == Boot(req, old(stores)) && changes == BootReports(req, old(stores))
      ensures ok <==> Ready(req)
      ensures removed == Orphans(Authored(req.seat), Sorted(old(stores).Keys))
      ensures registered == if ok then RegisteredOver(Desired(req).value, Sorted(Visited(req, Desired(req).value))) else []
    {
      BootKeepsInv(req, stores);
      removed := ReconcileHomes(Authored(req.seat));
      ok, registered, changes := Materialize(req);
    }
  }
}
