/**
 * Reconciling authored schedules with the cron stores (bootstrap/cron_materialize.py, with
 * the naming of shared/cron_space.py): validation, what a run makes of every store, and the
 * report of what crossed the scheduled line. Staging, space resolution and couples slots are
 * parameters.
 */
module CronMaterialize {
  import opened Basics
  import opened SeatConfig
  import opened Text

  // ---------------------------------------------------------------------------
  // Names
  // ---------------------------------------------------------------------------

  const PREFIX: string := "op-managed:"

  function ManagedName(slug: string, skill: string): string {
    PREFIX + slug + ":" + skill
  }

  predicate IsManaged(name: string) {
    PREFIX <= name
  }

  /** `name_with_space` */
  function NameWithSpace(base: string, space: string): string {
    if space == "" then base else base + "@" + space
  }

  /** The skill recovered from a managed name: `split_name`, then `split(":", 2)[-1]`. */
  function SkillOf(name: string): string {
    var base := Cut(name, '@').0;
    var (first, rest) := Cut(base, ':');
    if rest.None? then first else
      var (second, last) := Cut(rest.value, ':');
      if last.None? then second else last.value
  }

  // ---------------------------------------------------------------------------
  // Validation
  // ---------------------------------------------------------------------------

  /** The seat's space configuration; `deliver` gives a space's key and delivery target. */
  datatype Spaces = Broken | Unspaced | Spaced(deliver: string -> Option<(string, string)>)

  datatype Job = Job(
    name: string, schedule: string, skill: string, preRun: Option<string>,
    space: Option<string>, deliver: Option<string>, gated: bool)

  /** `slots` lists a persona's couples slots, (skill, space); it is read only on a spaced seat. */
  datatype Seat = Seat(chars: Chars, spaces: Spaces, personas: seq<Persona>, slots: Persona -> seq<(string, string)>)

  function Home(seat: Seat, p: Persona): string {
    HomeOf(seat.chars, p)
  }

  const SLOT_SCHEDULE: string := "*/15 * * * *"

  function Slots(seat: Seat, p: Persona): seq<(string, string)> {
    if seat.spaces.Spaced? then seat.slots(p) else []
  }

  function SlotSkills(seat: Seat, p: Persona): set<string> {
    set slot | slot in Slots(seat, p) :: slot.0
  }

  /** One authored entry's job; None wherever the source raises. */
  function EntryJob(seat: Seat, p: Persona, e: CronEntry): Option<Job> {
    if e.NotMapping? || e.skill in SlotSkills(seat, p) then None
    else if e.skill == "" || e.schedule == "" || e.skill !in Scheduled(p) then None
    else
      var wake := if e.wake.Some? then e.wake.value else WAKE_ALWAYS;
      var preRun := if wake == PRE_RUN_DECIDES then Some(e.preRun) else None;
      if (wake != WAKE_ALWAYS && wake != PRE_RUN_DECIDES) || preRun == Some("") || Home(seat, p) == "" then None
      else SpacedJob(seat.spaces, Job(ManagedName(Home(seat, p), e.skill), e.schedule, e.skill, preRun, None, None, false), e.space)
  }

  /** On a spaced seat a job carries its space in its name and its delivery. */
  function SpacedJob(spaces: Spaces, job: Job, raw: string): Option<Job> {
    match spaces
    case Broken => None
    case Unspaced => Some(job)
    case Spaced(deliver) =>
      if deliver(raw).None? then None else
        var (key, target) := deliver(raw).value;
        Some(job.(name := NameWithSpace(job.name, key), space := Some(key), deliver := Some(target)))
  }

  predicate Named(jobs: seq<Job>, name: string) {
    exists i :: 0 <= i < |jobs| && jobs[i].name == name
  }

  function AuthoredJobs(seat: Seat, p: Persona, entries: seq<CronEntry>): Option<seq<Job>> {
    if entries == [] then Some([]) else
      var n := |entries| - 1;
      var before, job := AuthoredJobs(seat, p, entries[..n]), EntryJob(seat, p, entries[n]);
      if before.None? || job.None? || Named(before.value, job.value.name) then None
      else Some(before.value + [job.value])
  }

  function SlotJob(seat: Seat, p: Persona, slot: (string, string)): Option<Job> {
    if Home(seat, p) == "" then None
    else SpacedJob(seat.spaces, Job(ManagedName(Home(seat, p), slot.0), SLOT_SCHEDULE, slot.0, None, None, None, true), slot.1)
  }

  function SlotJobs(seat: Seat, p: Persona, slots: seq<(string, string)>): Option<seq<Job>> {
    if slots == [] then Some([]) else
      var n := |slots| - 1;
      var before, job := SlotJobs(seat, p, slots[..n]), SlotJob(seat, p, slots[n]);
      if before.None? || job.None? then None else Some(before.value + [job.value])
  }

  /** Everything one persona is to have scheduled. */
  function DesiredFor(seat: Seat, p: Persona): Option<seq<Job>> {
    var authored, slotted := AuthoredJobs(seat, p, p.cron), SlotJobs(seat, p, Slots(seat, p));
    if authored.None? || slotted.None? then None else Some(authored.value + slotted.value)
  }

  type Plan = map<string, seq<Job>>

  function PlanOver(seat: Seat, personas: seq<Persona>): Option<Plan> {
    if personas == [] then Some(map[]) else
      var n := |personas| - 1;
      var before, jobs := PlanOver(seat, personas[..n]), DesiredFor(seat, personas[n]);
      if before.None? || jobs.None? then None
      else Some(if jobs.value == [] then before.value else before.value[Home(seat, personas[n]) := jobs.value])
  }

  /** `_desired_by_persona` */
  function PlanOf(seat: Seat): Option<Plan> {
    if seat.spaces.Broken? then None else PlanOver(seat, seat.personas)
  }

  // ---------------------------------------------------------------------------
  // Staging and reading, before anything changes
  // ---------------------------------------------------------------------------

  /** A stager's answer for (slug, skill, script or space); None where it raises. */
  type Stager = (string, string, string) -> Option<string>

  datatype Request = Request(
    seat: Seat, reconcile: set<string>, containment: bool,
    scripts: Option<Stager>, gates: Option<Stager>, readable: set<string>)

  predicate NeedsStaging(job: Job) {
    job.gated || job.preRun.Some?
  }

  /** One job's staged script. */
  function Staged(req: Request, slug: string, job: Job): Option<string>
    requires NeedsStaging(job)
  {
    if job.gated then
      if req.gates.None? then None
      else req.gates.value(slug, job.skill, if job.space.Some? then job.space.value else "")
    else if req.scripts.None? then None
    else req.scripts.value(slug, job.skill, job.preRun.value)
  }

  /** The staged reference of each job name that needs one; None when any staging fails. */
  function Refs(req: Request, slug: string, jobs: seq<Job>): Option<map<string, string>> {
    if jobs == [] then Some(map[]) else
      var n := |jobs| - 1;
      var before := Refs(req, slug, jobs[..n]);
      if before.None? || !NeedsStaging(jobs[n]) then before
      else
        var path := Staged(req, slug, jobs[n]);
        if path.None? then None else Some(before.value[jobs[n].name := path.value])
  }

  function Desired(req: Request): Option<Plan> {
    if req.containment then Some(map[]) else PlanOf(req.seat)
  }

  function Visited(req: Request, plan: Plan): set<string> {
    plan.Keys + (req.reconcile - {""})
  }

  function JobsOf(plan: Plan, slug: string): seq<Job> {
    if slug in plan then plan[slug] else []
  }

  /** The first pass goes through: input valid, every script staged, every store read. */
  predicate Ready(req: Request) {
    && Desired(req).Some?
    && (forall slug :: slug in Desired(req).value ==> Refs(req, slug, Desired(req).value[slug]).Some?)
    && Visited(req, Desired(req).value) <= req.readable
  }

  // ---------------------------------------------------------------------------
  // The stores
  // ---------------------------------------------------------------------------

  datatype StoredJob = StoredJob(
    id: nat, name: string, schedule: string, skill: string, deliver: Option<string>, script: Option<string>)

  datatype Store = Store(jobs: seq<StoredJob>, nextId: nat)

  type Stores = map<string, Store>

  function StoreAt(stores: Stores, slug: string): Store {
    if slug in stores then stores[slug] else Store([], 0)
  }

  /** Ids name one job each, and none is still to be given out. */
  ghost predicate StoreInv(s: Store) {
    && (forall i :: 0 <= i < |s.jobs| ==> s.jobs[i].id < s.nextId)
    && (forall i, j :: 0 <= i < j < |s.jobs| ==> s.jobs[i].id != s.jobs[j].id)
  }

  function Made(id: nat, job: Job, refs: map<string, string>): StoredJob {
    StoredJob(id, job.name, job.schedule, job.skill, job.deliver, if job.name in refs then Some(refs[job.name]) else None)
  }

  function Created(s: Store, jobs: seq<Job>, refs: map<string, string>): Store {
    if jobs == [] then s else
      var n := |jobs| - 1;
      var before := Created(s, jobs[..n], refs);
      Store(before.jobs + [Made(before.nextId, jobs[n], refs)], before.nextId + 1)
  }

  predicate Ours(j: StoredJob) {
    IsManaged(j.name)
  }

  predicate Foreign(j: StoredJob) {
    !IsManaged(j.name)
  }

  function Unmanaged(jobs: seq<StoredJob>): seq<StoredJob> {
    Filter(jobs, Foreign)
  }

  function Managed(jobs: seq<StoredJob>): seq<StoredJob> {
    Filter(jobs, Ours)
  }

  function RefsOf(req: Request, slug: string, jobs: seq<Job>): map<string, string> {
    var refs := Refs(req, slug, jobs);
    if refs.Some? then refs.value else map[]
  }

  /** A store with its managed jobs removed. */
  function Emptied(s: Store): Store {
    s.(jobs := Unmanaged(s.jobs))
  }

  function Converged(req: Request, slug: string, s: Store, jobs: seq<Job>): Store {
    Created(Emptied(s), jobs, RefsOf(req, slug, jobs))
  }

  /** What a run leaves of every store. */
  function After(req: Request, stores: Stores): Stores {
    if !Ready(req) then stores else
      var plan := Desired(req).value;
      map slug | slug in stores.Keys + Visited(req, plan) ::
        if slug in Visited(req, plan) then Converged(req, slug, StoreAt(stores, slug), JobsOf(plan, slug))
        else stores[slug]
  }

  // ---------------------------------------------------------------------------
  // Convergence
  // ---------------------------------------------------------------------------

  /** What creation appends: one stored job per wanted job, in order, with its staged script. */
  ghost predicate Carries(stored: seq<StoredJob>, jobs: seq<Job>, refs: map<string, string>) {
    |stored| == |jobs| && forall i :: 0 <= i < |jobs| ==> stored[i] == Made(stored[i].id, jobs[i], refs)
  }

  lemma {:induction false} CreatedAppends(s: Store, jobs: seq<Job>, refs: map<string, string>)
    requires StoreInv(s)
    ensures StoreInv(Created(s, jobs, refs))
    ensures s.jobs <= Created(s, jobs, refs).jobs && Carries(Created(s, jobs, refs).jobs[|s.jobs|..], jobs, refs)
  {
    if jobs != [] {
      var n := |jobs| - 1;
      CreatedAppends(s, jobs[..n], refs);
    }
  }

  ghost predicate AllManaged(jobs: seq<Job>) {
    forall i :: 0 <= i < |jobs| ==> IsManaged(jobs[i].name)
  }

  lemma {:induction false} FilterKeepsInv(s: Store, n: nat)
    requires StoreInv(s) && n <= |s.jobs|
    ensures StoreInv(s.(jobs := Unmanaged(s.jobs[..n])))
  {
    if n > 0 {
      FilterKeepsInv(s, n - 1);
      assert s.jobs[..n][..n - 1] == s.jobs[..n - 1];
      var init := Unmanaged(s.jobs[..n - 1]);
      forall i | 0 <= i < |init|
        ensures init[i].id != s.jobs[n - 1].id
      {
        FilterMember(s.jobs[..n - 1], Foreign, init[i]);
      }
    }
  }

  lemma SplitByOwner(kept: seq<StoredJob>, made: seq<StoredJob>)
    requires (forall i :: 0 <= i < |kept| ==> Foreign(kept[i])) && (forall i :: 0 <= i < |made| ==> Ours(made[i]))
    ensures Managed(kept + made) == made && Unmanaged(kept + made) == kept
  {
    FilterJoins(kept, made, Ours);
    FilterJoins(kept, made, Foreign);
    FilterNone(kept, Ours);
    FilterAll(kept, Foreign);
    FilterAll(made, Ours);
    FilterNone(made, Foreign);
  }

  /** ONE STORE: its managed jobs become exactly the wanted ones; the others stay as they were. */
  lemma StoreConverges(req: Request, slug: string, s: Store, jobs: seq<Job>)
    requires StoreInv(s) && AllManaged(jobs)
    ensures var after := Converged(req, slug, s, jobs);
      && StoreInv(after)
      && Carries(Managed(after.jobs), jobs, RefsOf(req, slug, jobs))
      && Unmanaged(after.jobs) == Unmanaged(s.jobs)
  {
    var refs, kept := RefsOf(req, slug, jobs), Unmanaged(s.jobs);
    var base := s.(jobs := kept);
    FilterKeepsInv(s, |s.jobs|);
    assert s.jobs[..|s.jobs|] == s.jobs;
    CreatedAppends(base, jobs, refs);
    var after := Created(base, jobs, refs);
    var made := after.jobs[|kept|..];
    assert after.jobs == kept + made;
    forall i | 0 <= i < |kept|
      ensures Foreign(kept[i])
    {
      FilterMember(s.jobs, Foreign, kept[i]);
    }
    SplitByOwner(kept, made);
  }

  ghost predicate PlanNames(slug: string, jobs: seq<Job>) {
    forall i :: 0 <= i < |jobs| ==> ManagedName(slug, jobs[i].skill) <= jobs[i].name && IsManaged(jobs[i].name)
  }

  lemma SpacedJobName(spaces: Spaces, slug: string, job: Job, raw: string)
    requires job.name == ManagedName(slug, job.skill) && SpacedJob(spaces, job, raw).Some?
    ensures var made := SpacedJob(spaces, job, raw).value;
      ManagedName(slug, made.skill) <= made.name && IsManaged(made.name) && made.skill == job.skill
  {
  }

  lemma {:induction false} AuthoredNames(seat: Seat, p: Persona, entries: seq<CronEntry>)
    requires AuthoredJobs(seat, p, entries).Some?
    ensures PlanNames(Home(seat, p), AuthoredJobs(seat, p, entries).value)
  {
    if entries != [] {
      var n := |entries| - 1;
      AuthoredNames(seat, p, entries[..n]);
      var e := entries[n];
      var wake := if e.wake.Some? then e.wake.value else WAKE_ALWAYS;
      var preRun := if wake == PRE_RUN_DECIDES then Some(e.preRun) else None;
      SpacedJobName(seat.spaces, Home(seat, p),
                    Job(ManagedName(Home(seat, p), e.skill), e.schedule, e.skill, preRun, None, None, false), e.space);
    }
  }

  lemma {:induction false} SlotNames(seat: Seat, p: Persona, slots: seq<(string, string)>)
    requires SlotJobs(seat, p, slots).Some?
    ensures PlanNames(Home(seat, p), SlotJobs(seat, p, slots).value)
  {
    if slots != [] {
      var n := |slots| - 1;
      SlotNames(seat, p, slots[..n]);
      SpacedJobName(seat.spaces, Home(seat, p),
                    Job(ManagedName(Home(seat, p), slots[n].0), SLOT_SCHEDULE, slots[n].0, None, None, None, true), slots[n].1);
    }
  }

  /** Every job of a plan is named for its own persona and skill. */
  lemma {:induction false} PlanIsNamed(seat: Seat, personas: seq<Persona>, slug: string)
    requires PlanOver(seat, personas).Some?
    ensures PlanNames(slug, JobsOf(PlanOver(seat, personas).value, slug))
  {
    if personas != [] {
      var n := |personas| - 1;
      PlanIsNamed(seat, personas[..n], slug);
      AuthoredNames(seat, personas[n], personas[n].cron);
      SlotNames(seat, personas[n], Slots(seat, personas[n]));
    }
  }

  lemma DesiredIsNamed(req: Request, slug: string)
    requires Ready(req)
    ensures PlanNames(slug, JobsOf(Desired(req).value, slug)) && AllManaged(JobsOf(Desired(req).value, slug))
  {
    if !req.containment {
      PlanIsNamed(req.seat, req.seat.personas, slug);
    }
  }

  /**
   * CONVERGENCE. Either the run goes through, and every persona visited has exactly its
   * authored jobs under managed names and its other jobs untouched, or some check failed
   * first, and no store has changed at all.
   */
  lemma RunConverges(req: Request, stores: Stores, slug: string)
    requires StoreInv(StoreAt(stores, slug))
    ensures var was, now := StoreAt(stores, slug), StoreAt(After(req, stores), slug);
      && StoreInv(now)
      && (!Ready(req) ==> After(req, stores) == stores)
      && (Ready(req) && slug in Visited(req, Desired(req).value) ==>
          && Unmanaged(now.jobs) == Unmanaged(was.jobs)
          && Carries(Managed(now.jobs), JobsOf(Desired(req).value, slug),
                     RefsOf(req, slug, JobsOf(Desired(req).value, slug))))
      && (Ready(req) && slug !in Visited(req, Desired(req).value) ==> now == was)
  {
    if Ready(req) && slug in Visited(req, Desired(req).value) {
      DesiredIsNamed(req, slug);
      StoreConverges(req, slug, StoreAt(stores, slug), JobsOf(Desired(req).value, slug));
    }
  }

  /** Under containment nothing managed is left in any store visited, whatever is authored. */
  lemma ContainmentEmpties(req: Request, stores: Stores, slug: string)
    requires req.containment && slug in req.reconcile && slug != "" && req.reconcile - {""} <= req.readable
    requires StoreInv(StoreAt(stores, slug))
    ensures Ready(req) && Managed(StoreAt(After(req, stores), slug).jobs) == []
  {
    RunConverges(req, stores, slug);
  }

  // ---------------------------------------------------------------------------
  // Which personas a plan holds
  // ---------------------------------------------------------------------------

  /** The persona has something to schedule, and files it under `slug`. */
  predicate Files(seat: Seat, p: Persona, slug: string) {
    Home(seat, p) == slug && DesiredFor(seat, p).Some? && DesiredFor(seat, p).value != []
  }

  /** Of the personas filing under `slug`, the last. */
  ghost predicate IsLastFor(seat: Seat, personas: seq<Persona>, slug: string, j: nat) {
    && j < |personas| && Files(seat, personas[j], slug)
    && forall i :: j < i < |personas| ==> !Files(seat, personas[i], slug)
  }

  lemma FilesAt(seat: Seat, a: seq<Persona>, b: seq<Persona>, slug: string, i: nat)
    requires i < |a| && i < |b| && a[i] == b[i]
    ensures Files(seat, a[i], slug) <==> Files(seat, b[i], slug)
  {
  }

  lemma LastBeforeEnd(seat: Seat, personas: seq<Persona>, slug: string, j: nat)
    requires IsLastFor(seat, personas, slug, j) && j < |personas| - 1
    ensures IsLastFor(seat, personas[..|personas| - 1], slug, j)
  {
    var init := personas[..|personas| - 1];
    FilesAt(seat, personas, init, slug, j);
    forall i | j < i < |init|
      ensures !Files(seat, init[i], slug)
    {
      FilesAt(seat, personas, init, slug, i);
    }
  }

  lemma PlanParts(seat: Seat, personas: seq<Persona>)
    requires personas != [] && PlanOver(seat, personas).Some?
    ensures PlanOver(seat, personas[..|personas| - 1]).Some? && DesiredFor(seat, personas[|personas| - 1]).Some?
  {
  }

  lemma {:induction false} PrefixPlanned(seat: Seat, personas: seq<Persona>, i: nat)
    requires PlanOver(seat, personas).Some? && i <= |personas|
    ensures PlanOver(seat, personas[..i]).Some?
    decreases |personas| - i
  {
    if i == |personas| {
      assert personas[..i] == personas;
    } else {
      PrefixPlanned(seat, personas, i + 1);
      PlanParts(seat, personas[..i + 1]);
      assert personas[..i + 1][..i] == personas[..i];
    }
  }

  lemma AllPlanned(seat: Seat, personas: seq<Persona>, i: nat)
    requires PlanOver(seat, personas).Some? && i < |personas|
    ensures DesiredFor(seat, personas[i]).Some?
  {
    PrefixPlanned(seat, personas, i + 1);
    PlanParts(seat, personas[..i + 1]);
    assert personas[..i + 1][i] == personas[i];
  }

  lemma LastCases(seat: Seat, personas: seq<Persona>, slug: string, j: nat)
    requires IsLastFor(seat, personas, slug, j)
    ensures personas != [] && (Files(seat, personas[|personas| - 1], slug) <==> j == |personas| - 1)
    ensures j < |personas| - 1 ==> IsLastFor(seat, personas[..|personas| - 1], slug, j)
  {
    if j < |personas| - 1 {
      LastBeforeEnd(seat, personas, slug, j);
    }
  }

  lemma PlanSnoc(seat: Seat, personas: seq<Persona>, slug: string)
    requires personas != [] && PlanOver(seat, personas).Some?
    ensures var n := |personas| - 1;
      && PlanOver(seat, personas[..n]).Some? && DesiredFor(seat, personas[n]).Some?
      && (Files(seat, personas[n], slug) ==>
            && slug in PlanOver(seat, personas).value
            && PlanOver(seat, personas).value[slug] == DesiredFor(seat, personas[n]).value)
      && (!Files(seat, personas[n], slug) && slug in PlanOver(seat, personas[..n]).value ==>
            && slug in PlanOver(seat, personas).value
            && PlanOver(seat, personas).value[slug] == PlanOver(seat, personas[..n]).value[slug])
  {
    PlanParts(seat, personas);
  }

  /** A plan holds, under each slug, the jobs of the last persona filing there, or none. */
  lemma {:induction false} PlanIsTheLast(seat: Seat, personas: seq<Persona>, slug: string, j: nat)
    requires PlanOver(seat, personas).Some? && IsLastFor(seat, personas, slug, j)
    ensures slug in PlanOver(seat, personas).value
    ensures PlanOver(seat, personas).value[slug] == DesiredFor(seat, personas[j]).value
  {
    var n := |personas| - 1;
    LastCases(seat, personas, slug, j);
    PlanSnoc(seat, personas, slug);
    if j < n {
      PlanIsTheLast(seat, personas[..n], slug, j);
    }
  }

  /**
   * WHEN A SCHEDULE SURVIVES. A persona that has something to schedule gets exactly that, if
   * and only if the last persona filing under the same slug asks for exactly that as well:
   * whoever files there later replaces it without an error.
   */
  lemma NothingDroppedIff(seat: Seat, personas: seq<Persona>, k: nat)
    requires PlanOver(seat, personas).Some? && k < |personas| && DesiredFor(seat, personas[k]) != Some([])
    ensures Some(JobsOf(PlanOver(seat, personas).value, Home(seat, personas[k]))) == DesiredFor(seat, personas[k]) <==>
            exists j: nat ::
              && k <= j && IsLastFor(seat, personas, Home(seat, personas[k]), j)
              && DesiredFor(seat, personas[j]) == DesiredFor(seat, personas[k])
  {
    var slug := Home(seat, personas[k]);
    AllPlanned(seat, personas, k);
    LastExists(seat, personas, slug, k);
    forall j: nat | IsLastFor(seat, personas, slug, j)
      ensures Some(JobsOf(PlanOver(seat, personas).value, slug)) == DesiredFor(seat, personas[j])
    {
      PlanIsTheLast(seat, personas, slug, j);
    }
  }

  lemma {:induction false} LastExists(seat: Seat, personas: seq<Persona>, slug: string, k: nat)
    requires k < |personas| && Files(seat, personas[k], slug)
    ensures exists j: nat :: k <= j && IsLastFor(seat, personas, slug, j)
    decreases |personas| - k
  {
    if i :| k < i < |personas| && Files(seat, personas[i], slug) {
      LastExists(seat, personas, slug, i);
    } else {
      assert IsLastFor(seat, personas, slug, k);
    }
  }

  /** A persona with one skill, woken at one time, by a script if one is named. */
  function OneRoutine(slug: string, skill: string, script: Option<string>): Persona {
    var (wake, preRun) := if script.Some? then (Some(PRE_RUN_DECIDES), script.value) else (None, "");
    Persona(slug, "", [Skill(skill, true, None, true)], [CronEntry(skill, "0 8 * * *", wake, preRun, "")])
  }

  lemma OneRoutineJobs(seat: Seat, slug: string, skill: string, script: Option<string>)
    requires seat.spaces.Unspaced? && skill != "" && script != Some("")
    requires Home(seat, OneRoutine(slug, skill, script)) != ""
    ensures DesiredFor(seat, OneRoutine(slug, skill, script)) ==
            Some([Job(ManagedName(Home(seat, OneRoutine(slug, skill, script)), skill), "0 8 * * *", skill, script, None, None, false)])
  {
    var p := OneRoutine(slug, skill, script);
    assert p.skills[0] in p.skills && skill in Scheduled(p);
    assert SlotSkills(seat, p) == {};
    var job := Job(ManagedName(Home(seat, p), skill), "0 8 * * *", skill, script, None, None, false);
    assert EntryJob(seat, p, p.cron[0]) == Some(job);
    var none: seq<CronEntry> := p.cron[..|p.cron| - 1];
    assert none == [];
    assert AuthoredJobs(seat, p, none) == Some([]) && !Named([], job.name);
    assert [] + [job] == [job];
    assert AuthoredJobs(seat, p, p.cron) == Some([job]);
    var slots := Slots(seat, p);
    assert slots == [] && SlotJobs(seat, p, slots) == Some([]);
    assert [job] + [] == [job];
  }

  /** The plan of a seat with that one persona. */
  lemma OneRoutinePlan(seat: Seat, slug: string, skill: string, script: Option<string>)
    requires seat.spaces.Unspaced? && skill != "" && script != Some("")
    requires seat.personas == [OneRoutine(slug, skill, script)] && Home(seat, OneRoutine(slug, skill, script)) != ""
    ensures var home := Home(seat, OneRoutine(slug, skill, script));
      PlanOf(seat) == Some(map[home := [Job(ManagedName(home, skill), "0 8 * * *", skill, script, None, None, false)]])
  {
    OneRoutineJobs(seat, slug, skill, script);
    var none: seq<Persona> := seat.personas[..|seat.personas| - 1];
    assert none == [] && PlanOver(seat, none) == Some(map[]);
  }

  lemma PaddingGoes(ch: Chars)
    ensures Strip(ch, "a") == Strip(ch, "a ") == "a" != "a "
  {
    StripPlain(ch, "a");
    assert "a "[..1] == "a";
  }

  /**
   * Two slugs that differ as authored, "a" and "a ", are one slug here: the first persona's
   * routine is planned for nobody.
   */
  lemma PaddedSlugDrops(seat: Seat)
    requires seat.spaces.Unspaced?
    ensures var first, second := OneRoutine("a", "s", None), OneRoutine("a ", "r", None);
      && first.slug != second.slug
      && PlanOver(seat, [first, second]).Some?
      && PlanOver(seat, [first, second]).value.Keys == {"a"}
      && !Named(PlanOver(seat, [first, second]).value["a"], ManagedName("a", "s"))
      && DesiredFor(seat, first).Some? && Named(DesiredFor(seat, first).value, ManagedName("a", "s"))
  {
    var first, second := OneRoutine("a", "s", None), OneRoutine("a ", "r", None);
    var personas := [first, second];
    PaddingGoes(seat.chars);
    OneRoutineJobs(seat, "a", "s", None);
    OneRoutineJobs(seat, "a ", "r", None);
    assert personas[..1] == [first] && [first][..0] == [];
    assert PlanOver(seat, []) == Some(map[]);
    var own := DesiredFor(seat, first).value[0];
    assert own.name == ManagedName("a", "s");
    assert ManagedName("a", "s")[|PREFIX| + 2] == 's' && ManagedName("a", "r")[|PREFIX| + 2] == 'r';
  }
}
