/**
 * Booting with a configuration newer than the image (bootstrap/translate.py): what the image
 * cannot run is dropped first, so that pin resolution, skill installation and the staging of
 * pre-run scripts cannot fail on it. Content hashing and file contents are inputs.
 */
module ImageSkew {
  import opened Basics
  import opened SeatConfig
  import opened Text
  import CronMaterialize

  /** A skill body in the image: its content pin and the files in it. */
  datatype Body = Body(pin: string, files: set<string>)

  type Catalog = map<string, Body>

  datatype Finding =
    | SkillMissing(slug: string, skill: string)
    | PinMismatch(slug: string, skill: string, pinned: string, actual: string)
    | CronSkillSkipped(slug: string, skill: string)
    | PreRunMissing(slug: string, skill: string)

  // ---------------------------------------------------------------------------
  // Dropping
  // ---------------------------------------------------------------------------

  /** What is wrong with a skill on this image, if anything. */
  function SkillFinding(cat: Catalog, slug: string, s: Skill): Option<Finding> {
    if !Runs(s) then None
    else if s.name !in cat then Some(SkillMissing(slug, s.name))
    else if s.version.Some? && s.version.value != cat[s.name].pin
    then Some(PinMismatch(slug, s.name, s.version.value, cat[s.name].pin))
    else None
  }

  predicate Runnable(cat: Catalog, s: Skill) {
    SkillFinding(cat, "", s).None?
  }

  /** The names of the enabled skills this image cannot run. */
  function SkippedOf(cat: Catalog, skills: seq<Skill>): set<string> {
    set s | s in skills && !Runnable(cat, s) && s.Skill? :: s.name
  }

  function Skipped(cat: Catalog, p: Persona): set<string> {
    SkippedOf(cat, p.skills)
  }

  /** An entry that names a script its skill's body does not hold. */
  predicate LacksScript(cat: Catalog, e: CronEntry) {
    && ScriptDecides(e) && e.skill != "" && e.preRun != ""
    && e.skill in cat && e.preRun !in cat[e.skill].files
  }

  function CronFinding(cat: Catalog, skipped: set<string>, slug: string, e: CronEntry): Option<Finding> {
    if e.NotMapping? then None
    else if e.skill in skipped then Some(CronSkillSkipped(slug, e.skill))
    else if LacksScript(cat, e) then Some(PreRunMissing(slug, e.skill))
    else None
  }

  function KeptSkills(cat: Catalog, p: Persona): seq<Skill> {
    Filter(p.skills, (s: Skill) => Runnable(cat, s))
  }

  function KeptCron(cat: Catalog, p: Persona): seq<CronEntry> {
    Filter(p.cron, (e: CronEntry) => CronFinding(cat, Skipped(cat, p), p.slug, e).None?)
  }

  function Kept(cat: Catalog, p: Persona): Persona {
    p.(skills := KeptSkills(cat, p), cron := KeptCron(cat, p))
  }

  function SkillFindings(cat: Catalog, slug: string, skills: seq<Skill>): seq<Finding> {
    if skills == [] then [] else
      var n := |skills| - 1;
      var found := SkillFinding(cat, slug, skills[n]);
      SkillFindings(cat, slug, skills[..n]) + if found.Some? then [found.value] else []
  }

  function CronFindings(cat: Catalog, skipped: set<string>, slug: string, cron: seq<CronEntry>): seq<Finding> {
    if cron == [] then [] else
      var n := |cron| - 1;
      var found := CronFinding(cat, skipped, slug, cron[n]);
      CronFindings(cat, skipped, slug, cron[..n]) + if found.Some? then [found.value] else []
  }

  function Findings(cat: Catalog, p: Persona): seq<Finding> {
    SkillFindings(cat, p.slug, p.skills) + CronFindings(cat, Skipped(cat, p), p.slug, p.cron)
  }

  /** `_drop_unrunnable` */
  function Drop(cat: Catalog, personas: seq<Persona>): (seq<Persona>, seq<Finding>) {
    if personas == [] then ([], []) else
      var n := |personas| - 1;
      var (kept, findings) := Drop(cat, personas[..n]);
      (kept + [Kept(cat, personas[n])], findings + Findings(cat, personas[n]))
  }

  // ---------------------------------------------------------------------------
  // The later steps of boot
  // ---------------------------------------------------------------------------

  /** A skill that pin resolution reports an error for, or fails on. */
  predicate PinError(cat: Catalog, s: Skill) {
    s.Malformed? || (s.enabled && (s.name == "" || !Runnable(cat, s)))
  }

  /** `_resolve_skill_pins` raises. */
  predicate PinsFail(cat: Catalog, personas: seq<Persona>) {
    exists i :: 0 <= i < |personas| && HasPinError(cat, personas[i])
  }

  predicate HasPinError(cat: Catalog, p: Persona) {
    exists s :: s in p.skills && PinError(cat, s)
  }

  /** A profile's skills directory: the files under each skill. */
  type Profile = map<string, set<string>>

  function EnabledNames(p: Persona): set<string> {
    set s | s in p.skills && Runs(s) :: s.name
  }

  predicate CannotInstall(cat: Catalog, s: Skill) {
    s.Malformed? || (Runs(s) && s.name !in cat)
  }

  predicate InstallFails(cat: Catalog, p: Persona) {
    exists i :: 0 <= i < |p.skills| && CannotInstall(cat, p.skills[i])
  }

  /** The files of a skill after its body is copied over what is there. */
  function Copied(cat: Catalog, profile: Profile, name: string): set<string>
    requires name in cat
  {
    cat[name].files + if name in profile then profile[name] else {}
  }

  /** `_install_persona_skills`: enabled bodies copied in, other catalog skills and `prune` removed. */
  function Installed(cat: Catalog, p: Persona, profile: Profile, prune: set<string>): Profile
    requires !InstallFails(cat, p)
  {
    EnabledInCatalog(cat, p);
    map name | name in (profile.Keys - cat.Keys - prune) + EnabledNames(p) ::
      if name in EnabledNames(p) then Copied(cat, profile, name) else profile[name]
  }

  lemma EnabledInCatalog(cat: Catalog, p: Persona)
    requires !InstallFails(cat, p)
    ensures EnabledNames(p) <= cat.Keys
  {
    forall name | name in EnabledNames(p)
      ensures name in cat
    {
      var s :| s in p.skills && Runs(s) && s.name == name;
      var i :| 0 <= i < |p.skills| && p.skills[i] == s;
      assert !CannotInstall(cat, p.skills[i]);
    }
  }

  /** `_real_script_stager`: the reference is found only if the installed body holds the script. */
  function Stage(profile: Profile, skill: string, preRun: string): Option<string> {
    if skill in profile && preRun in profile[skill] then Some(skill + "/" + BaseName(preRun)) else None
  }

  function BaseName(path: string): string {
    if path == "" || path[|path| - 1] == '/' then "" else BaseName(path[..|path| - 1]) + [path[|path| - 1]]
  }

  // ---------------------------------------------------------------------------
  // Boot cannot fail on skew
  // ---------------------------------------------------------------------------

  lemma {:induction false} DropAt(cat: Catalog, personas: seq<Persona>)
    ensures |Drop(cat, personas).0| == |personas|
    ensures forall i :: 0 <= i < |personas| ==> Drop(cat, personas).0[i] == Kept(cat, personas[i])
  {
    if personas != [] {
      DropAt(cat, personas[..|personas| - 1]);
    }
  }

  lemma KeptSkillIff(cat: Catalog, p: Persona, s: Skill)
    ensures s in Kept(cat, p).skills <==> s in p.skills && Runnable(cat, s)
  {
    FilterMember(p.skills, (t: Skill) => Runnable(cat, t), s);
  }

  lemma KeptEntryIff(cat: Catalog, p: Persona, e: CronEntry)
    ensures e in Kept(cat, p).cron <==>
            e in p.cron && (e.CronEntry? ==> e.skill !in Skipped(cat, p) && !LacksScript(cat, e))
  {
    FilterMember(p.cron, (d: CronEntry) => CronFinding(cat, Skipped(cat, p), p.slug, d).None?, e);
  }

  /** A skill that is no mapping, or is enabled without a name: an authoring error, not skew. */
  predicate Misauthored(s: Skill) {
    s.Malformed? || (s.enabled && s.name == "")
  }

  predicate IsMisauthored(p: Persona) {
    exists s :: s in p.skills && Misauthored(s)
  }

  lemma PinErrorIff(cat: Catalog, p: Persona)
    ensures HasPinError(cat, Kept(cat, p)) <==> IsMisauthored(p)
  {
    if HasPinError(cat, Kept(cat, p)) {
      var s :| s in Kept(cat, p).skills && PinError(cat, s);
      KeptSkillIff(cat, p, s);
    }
    if IsMisauthored(p) {
      var s :| s in p.skills && Misauthored(s);
      KeptSkillIff(cat, p, s);
    }
  }

  /**
   * PINS AFTER DROPPING. Pin resolution fails on what is kept exactly when some authored
   * skill is no mapping or is enabled without a name: never because the image is older.
   */
  lemma PinsFailIff(cat: Catalog, personas: seq<Persona>)
    ensures PinsFail(cat, Drop(cat, personas).0) <==> exists i :: 0 <= i < |personas| && IsMisauthored(personas[i])
  {
    DropAt(cat, personas);
    var kept := Drop(cat, personas).0;
    forall i | 0 <= i < |personas|
      ensures HasPinError(cat, kept[i]) <==> IsMisauthored(personas[i])
    {
      PinErrorIff(cat, personas[i]);
    }
  }

  /** Installing a kept persona fails only on a skill that is no mapping. */
  lemma InstallFailsIff(cat: Catalog, p: Persona)
    ensures InstallFails(cat, Kept(cat, p)) <==> exists s :: s in p.skills && s.Malformed?
  {
    var skills := Kept(cat, p).skills;
    if InstallFails(cat, Kept(cat, p)) {
      var i :| 0 <= i < |skills| && CannotInstall(cat, skills[i]);
      assert skills[i] in skills;
      KeptSkillIff(cat, p, skills[i]);
    }
    if s :| s in p.skills && s.Malformed? {
      KeptSkillIff(cat, p, s);
      var i :| 0 <= i < |skills| && skills[i] == s;
      assert CannotInstall(cat, skills[i]);
    }
  }

  /**
   * What acceptance means: an accepted entry targets a skill its persona has enabled for
   * scheduled runs, becomes a job under the persona's own managed name at its authored time,
   * and carries a script exactly when a script decides its wake.
   */
  lemma AcceptedEntry(seat: CronMaterialize.Seat, p: Persona, e: CronEntry)
    requires CronMaterialize.EntryJob(seat, p, e).Some?
    ensures var job, slug := CronMaterialize.EntryJob(seat, p, e).value, CronMaterialize.Home(seat, p);
      && slug != "" && CronMaterialize.ManagedName(slug, e.skill) <= job.name
      && e.skill in EnabledNames(p) && e.skill != "" && job.skill == e.skill && !job.gated
      && job.schedule == e.schedule != "" && (job.space.Some? <==> seat.spaces.Spaced?)
      && job.preRun == (if ScriptDecides(e) then Some(e.preRun) else None) && (ScriptDecides(e) ==> e.preRun != "")
  {
    assert e.skill in Scheduled(p);
    var s :| s in p.skills && Runs(s) && s.scheduled && s.name == e.skill;
  }

  /**
   * STAGING AFTER DROPPING. Any surviving entry the materializer accepts finds its script in
   * the persona's installed skills, whatever the profile held before.
   */
  lemma StagingSucceeds(cat: Catalog, p: Persona, e: CronEntry, seat: CronMaterialize.Seat, profile: Profile, prune: set<string>)
    requires !InstallFails(cat, Kept(cat, p)) && e in Kept(cat, p).cron
    requires CronMaterialize.EntryJob(seat, Kept(cat, p), e).Some?
    ensures var job := CronMaterialize.EntryJob(seat, Kept(cat, p), e).value;
      job.preRun.Some? ==> Stage(Installed(cat, Kept(cat, p), profile, prune), job.skill, job.preRun.value).Some?
  {
    AcceptedEntry(seat, Kept(cat, p), e);
    EnabledInCatalog(cat, Kept(cat, p));
    KeptEntryIff(cat, p, e);
  }

  /** The stager over the profiles of a seat. */
  function StagerOver(profiles: map<string, Profile>): CronMaterialize.Stager {
    (slug: string, skill: string, preRun: string) =>
      if slug in profiles then Stage(profiles[slug], skill, preRun) else None
  }

  /** Every kept persona's skills are installed in its profile, the directory named by its slug. */
  ghost predicate AllInstalled(cat: Catalog, personas: seq<Persona>, profiles: map<string, Profile>) {
    forall i :: 0 <= i < |personas| ==>
      && personas[i].slug in profiles && !InstallFails(cat, Kept(cat, personas[i]))
      && exists before, prune :: profiles[personas[i].slug] == Installed(cat, Kept(cat, personas[i]), before, prune)
  }

  ghost predicate Stageable(req: CronMaterialize.Request, slug: string, jobs: seq<CronMaterialize.Job>) {
    forall job :: job in jobs && CronMaterialize.NeedsStaging(job) ==> CronMaterialize.Staged(req, slug, job).Some?
  }

  lemma {:induction false} StageableRefs(req: CronMaterialize.Request, slug: string, jobs: seq<CronMaterialize.Job>)
    requires Stageable(req, slug, jobs)
    ensures CronMaterialize.Refs(req, slug, jobs).Some?
  {
    if jobs != [] {
      StageableRefs(req, slug, jobs[..|jobs| - 1]);
      assert jobs[|jobs| - 1] in jobs;
    }
  }

  lemma {:induction false} RefsNeedAll(req: CronMaterialize.Request, slug: string, jobs: seq<CronMaterialize.Job>)
    requires CronMaterialize.Refs(req, slug, jobs).Some?
    ensures Stageable(req, slug, jobs)
  {
    if jobs != [] {
      RefsNeedAll(req, slug, jobs[..|jobs| - 1]);
      assert forall job :: job in jobs <==> job in jobs[..|jobs| - 1] || job == jobs[|jobs| - 1];
    }
  }

  lemma {:induction false} AuthoredFromEntries(seat: CronMaterialize.Seat, p: Persona, entries: seq<CronEntry>, job: CronMaterialize.Job)
    requires CronMaterialize.AuthoredJobs(seat, p, entries).Some? && job in CronMaterialize.AuthoredJobs(seat, p, entries).value
    ensures exists e :: e in entries && CronMaterialize.EntryJob(seat, p, e) == Some(job)
  {
    var n := |entries| - 1;
    if CronMaterialize.EntryJob(seat, p, entries[n]) == Some(job) {
      assert entries[n] in entries;
    } else {
      AuthoredFromEntries(seat, p, entries[..n], job);
    }
  }

  lemma {:induction false} SlotsAreGated(seat: CronMaterialize.Seat, p: Persona, slots: seq<(string, string)>)
    requires CronMaterialize.SlotJobs(seat, p, slots).Some?
    ensures forall job :: job in CronMaterialize.SlotJobs(seat, p, slots).value ==> job.gated
  {
    if slots != [] {
      SlotsAreGated(seat, p, slots[..|slots| - 1]);
    }
  }

  /** The request boot makes: what was kept, with the real stager over the installed profiles. */
  ghost predicate BootRequest(req: CronMaterialize.Request, cat: Catalog, personas: seq<Persona>, profiles: map<string, Profile>) {
    req.seat.personas == Drop(cat, personas).0 && !req.containment && req.scripts == Some(StagerOver(profiles))
  }

  /** The persona's schedule is filed under the slug its profile is installed under. */
  predicate AtHome(req: CronMaterialize.Request, p: Persona) {
    CronMaterialize.Home(req.seat, p) == p.slug
  }

  /** The settings gate of every couples slot can be staged. */
  ghost predicate GatesStage(req: CronMaterialize.Request, plan: CronMaterialize.Plan) {
    forall slug, job :: slug in plan && job in plan[slug] && job.gated ==> CronMaterialize.Staged(req, slug, job).Some?
  }

  /** Of one persona's jobs, those decided by a script find it. */
  lemma ScriptsStage(req: CronMaterialize.Request, cat: Catalog, personas: seq<Persona>, profiles: map<string, Profile>, i: nat, job: CronMaterialize.Job)
    requires BootRequest(req, cat, personas, profiles) && AllInstalled(cat, personas, profiles) && i < |personas|
    requires CronMaterialize.DesiredFor(req.seat, Kept(cat, personas[i])).Some?
    requires job in CronMaterialize.DesiredFor(req.seat, Kept(cat, personas[i])).value
    requires CronMaterialize.NeedsStaging(job) && !job.gated
    ensures CronMaterialize.Staged(req, personas[i].slug, job).Some?
  {
    var p := Kept(cat, personas[i]);
    var before, prune :| profiles[p.slug] == Installed(cat, p, before, prune);
    SlotsAreGated(req.seat, p, CronMaterialize.Slots(req.seat, p));
    AuthoredFromEntries(req.seat, p, p.cron, job);
    var e :| e in p.cron && CronMaterialize.EntryJob(req.seat, p, e) == Some(job);
    AcceptedEntry(req.seat, p, e);
    StagingSucceeds(cat, personas[i], e, req.seat, before, prune);
  }

  /** Under every planned slug some persona files, so one is the last to. */
  lemma {:induction false} PlannedSomewhere(seat: CronMaterialize.Seat, personas: seq<Persona>, slug: string)
    requires CronMaterialize.PlanOver(seat, personas).Some? && slug in CronMaterialize.PlanOver(seat, personas).value
    ensures exists i :: 0 <= i < |personas| && CronMaterialize.Files(seat, personas[i], slug)
  {
    var n := |personas| - 1;
    if !CronMaterialize.Files(seat, personas[n], slug) {
      CronMaterialize.AllPlanned(seat, personas, n);
      PlannedSomewhere(seat, personas[..n], slug);
      var i :| 0 <= i < n && CronMaterialize.Files(seat, personas[..n][i], slug);
      assert CronMaterialize.Files(seat, personas[i], slug);
    }
  }

  /** The profile the persona's schedule is filed under holds every script the schedule names. */
  ghost predicate ScriptsAtHome(req: CronMaterialize.Request, profiles: map<string, Profile>, p: Persona)
    requires CronMaterialize.DesiredFor(req.seat, p).Some?
  {
    forall job :: job in CronMaterialize.DesiredFor(req.seat, p).value && !job.gated && job.preRun.Some? ==>
      && CronMaterialize.Home(req.seat, p) in profiles
      && Stage(profiles[CronMaterialize.Home(req.seat, p)], job.skill, job.preRun.value).Some?
  }

  /** So it is for every persona whose schedule counts and is filed away from its own profile. */
  ghost predicate StraysFindScripts(req: CronMaterialize.Request, profiles: map<string, Profile>) {
    var ps := req.seat.personas;
    forall i: nat ::
      i < |ps| && CronMaterialize.IsLastFor(req.seat, ps, CronMaterialize.Home(req.seat, ps[i]), i) && !AtHome(req, ps[i])
      ==> ScriptsAtHome(req, profiles, ps[i])
  }

  lemma PlanStages(req: CronMaterialize.Request, cat: Catalog, personas: seq<Persona>, profiles: map<string, Profile>, slug: string)
    requires BootRequest(req, cat, personas, profiles) && AllInstalled(cat, personas, profiles)
    requires CronMaterialize.PlanOf(req.seat).Some? && slug in CronMaterialize.PlanOf(req.seat).value
    requires GatesStage(req, CronMaterialize.PlanOf(req.seat).value) && StraysFindScripts(req, profiles)
    ensures CronMaterialize.Refs(req, slug, CronMaterialize.PlanOf(req.seat).value[slug]).Some?
  {
    var ps, jobs := req.seat.personas, CronMaterialize.PlanOf(req.seat).value[slug];
    DropAt(cat, personas);
    PlannedSomewhere(req.seat, ps, slug);
    var k: nat :| k < |ps| && CronMaterialize.Files(req.seat, ps[k], slug);
    CronMaterialize.LastExists(req.seat, ps, slug, k);
    var i: nat :| CronMaterialize.IsLastFor(req.seat, ps, slug, i);
    CronMaterialize.PlanIsTheLast(req.seat, ps, slug, i);
    forall job | job in jobs && CronMaterialize.NeedsStaging(job)
      ensures CronMaterialize.Staged(req, slug, job).Some?
    {
      if !job.gated && AtHome(req, ps[i]) {
        ScriptsStage(req, cat, personas, profiles, i, job);
      }
    }
    StageableRefs(req, slug, jobs);
  }

  lemma StraysMustFind(req: CronMaterialize.Request, profiles: map<string, Profile>, i: nat)
    requires req.scripts == Some(StagerOver(profiles)) && !req.containment && CronMaterialize.Ready(req)
    requires i < |req.seat.personas|
    requires CronMaterialize.IsLastFor(req.seat, req.seat.personas, CronMaterialize.Home(req.seat, req.seat.personas[i]), i)
    ensures ScriptsAtHome(req, profiles, req.seat.personas[i])
  {
    var p := req.seat.personas[i];
    var slug := CronMaterialize.Home(req.seat, p);
    CronMaterialize.PlanIsTheLast(req.seat, req.seat.personas, slug, i);
    RefsNeedAll(req, slug, CronMaterialize.PlanOf(req.seat).value[slug]);
    forall job | job in CronMaterialize.DesiredFor(req.seat, p).value && !job.gated && job.preRun.Some?
      ensures slug in profiles && Stage(profiles[slug], job.skill, job.preRun.value).Some?
    {
      assert CronMaterialize.Staged(req, slug, job).Some?;
    }
  }

  /**
   * CONFIG AHEAD OF IMAGE. Once what the image lacks is dropped and the rest installed, on any
   * seat, materializing the schedules goes through exactly when nothing is authored wrongly,
   * every store can be read, every couples gate can be staged, and each schedule that a padded
   * slug files away from its own profile finds its scripts in the profile it is filed under.
   */
  lemma BootReadyIff(req: CronMaterialize.Request, cat: Catalog, personas: seq<Persona>, profiles: map<string, Profile>)
    requires BootRequest(req, cat, personas, profiles) && AllInstalled(cat, personas, profiles)
    ensures CronMaterialize.Ready(req) <==>
            && CronMaterialize.PlanOf(req.seat).Some?
            && GatesStage(req, CronMaterialize.PlanOf(req.seat).value)
            && CronMaterialize.Visited(req, CronMaterialize.PlanOf(req.seat).value) <= req.readable
            && StraysFindScripts(req, profiles)
  {
    if CronMaterialize.PlanOf(req.seat).Some? {
      var plan, ps := CronMaterialize.PlanOf(req.seat).value, req.seat.personas;
      if CronMaterialize.Ready(req) {
        forall slug | slug in plan
          ensures Stageable(req, slug, plan[slug])
        {
          RefsNeedAll(req, slug, plan[slug]);
        }
        forall i: nat | i < |ps| && CronMaterialize.IsLastFor(req.seat, ps, CronMaterialize.Home(req.seat, ps[i]), i)
          ensures ScriptsAtHome(req, profiles, ps[i])
        {
          StraysMustFind(req, profiles, i);
        }
      }
      if GatesStage(req, plan) && StraysFindScripts(req, profiles) {
        forall slug | slug in plan
          ensures CronMaterialize.Refs(req, slug, plan[slug]).Some?
        {
          PlanStages(req, cat, personas, profiles, slug);
        }
      }
    }
  }

  /** Where no slug is padded, no pre-run script refuses the schedules. */
  lemma BootFailsOnlyOnAuthoring(req: CronMaterialize.Request, cat: Catalog, personas: seq<Persona>, profiles: map<string, Profile>)
    requires BootRequest(req, cat, personas, profiles) && AllInstalled(cat, personas, profiles)
    requires forall i :: 0 <= i < |personas| ==> AtHome(req, personas[i])
    ensures CronMaterialize.Ready(req) <==>
            && CronMaterialize.PlanOf(req.seat).Some?
            && GatesStage(req, CronMaterialize.PlanOf(req.seat).value)
            && CronMaterialize.Visited(req, CronMaterialize.PlanOf(req.seat).value) <= req.readable
  {
    DropAt(cat, personas);
    forall i: nat | i < |personas|
      ensures AtHome(req, req.seat.personas[i])
    {
      assert AtHome(req, personas[i]);
    }
    BootReadyIff(req, cat, personas, profiles);
  }

  /** A seat of one persona whose one routine is woken by a script, on an image that carries both. */
  function ScriptSeat(ch: Chars, slug: string): CronMaterialize.Request {
    var seat := CronMaterialize.Seat(ch, CronMaterialize.Unspaced, [ScriptPersona(slug)], (p: Persona) => []);
    CronMaterialize.Request(seat, {}, false, Some(StagerOver(map[slug := map["s" := {"run.py"}]])), None, {"a"})
  }

  function ScriptPersona(slug: string): Persona {
    CronMaterialize.OneRoutine(slug, "s", Some("run.py"))
  }

  const SCRIPT_IMAGE: Catalog := map["s" := Body("pin", {"run.py"})]

  lemma NothingDropped(slug: string)
    ensures Kept(SCRIPT_IMAGE, ScriptPersona(slug)) == ScriptPersona(slug)
    ensures Drop(SCRIPT_IMAGE, [ScriptPersona(slug)]).0 == [ScriptPersona(slug)]
  {
    var cat, p := SCRIPT_IMAGE, ScriptPersona(slug);
    var none: seq<Persona> := [p][..0];
    assert none == [] && Drop(cat, none) == ([], []);
    assert forall s :: s in p.skills ==> Runnable(cat, s);
    assert Skipped(cat, p) == {};
    FilterAll(p.skills, (s: Skill) => Runnable(cat, s));
    FilterAll(p.cron, (e: CronEntry) => CronFinding(cat, Skipped(cat, p), p.slug, e).None?);
  }

  lemma ScriptInstalled(slug: string)
    ensures AllInstalled(SCRIPT_IMAGE, [ScriptPersona(slug)], map[slug := map["s" := {"run.py"}]])
  {
    var cat, p := SCRIPT_IMAGE, ScriptPersona(slug);
    NothingDropped(slug);
    assert p.skills[0] in p.skills && EnabledNames(p) == {"s"};
    var made := Installed(cat, p, map[], {});
    assert made.Keys == {"s"} && made["s"] == {"run.py"};
    assert made == map["s" := {"run.py"}];
  }

  /** The one schedule of that seat finds its script exactly where the slug has no padding. */
  lemma ScriptFoundIff(ch: Chars, slug: string)
    requires slug == "a" || slug == "a "
    ensures var req, profiles := ScriptSeat(ch, slug), map[slug := map["s" := {"run.py"}]];
      StraysFindScripts(req, profiles) <==> slug == "a"
  {
    var req, p, profiles := ScriptSeat(ch, slug), ScriptPersona(slug), map[slug := map["s" := {"run.py"}]];
    CronMaterialize.PaddingGoes(ch);
    CronMaterialize.OneRoutineJobs(req.seat, slug, "s", Some("run.py"));
    assert CronMaterialize.IsLastFor(req.seat, [p], "a", 0);
    var job := CronMaterialize.DesiredFor(req.seat, p).value[0];
    assert job in CronMaterialize.DesiredFor(req.seat, p).value;
  }

  /**
   * Padding alone decides: the same persona, its skill installed in the profile named by its
   * slug, boots as "a" and fails as "a ".
   */
  lemma PaddedSeatFails(ch: Chars, slug: string)
    requires slug == "a" || slug == "a "
    ensures var req, personas, profiles := ScriptSeat(ch, slug), [ScriptPersona(slug)], map[slug := map["s" := {"run.py"}]];
      && BootRequest(req, SCRIPT_IMAGE, personas, profiles) && AllInstalled(SCRIPT_IMAGE, personas, profiles)
      && (CronMaterialize.Ready(req) <==> slug == "a")
  {
    var req, p, profiles := ScriptSeat(ch, slug), ScriptPersona(slug), map[slug := map["s" := {"run.py"}]];
    NothingDropped(slug);
    ScriptInstalled(slug);
    CronMaterialize.PaddingGoes(ch);
    CronMaterialize.OneRoutinePlan(req.seat, slug, "s", Some("run.py"));
    BootReadyIff(req, SCRIPT_IMAGE, [p], profiles);
    ScriptFoundIff(ch, slug);
  }

  // ---------------------------------------------------------------------------
  // Dropping again
  // ---------------------------------------------------------------------------

  lemma {:induction false} NoSkillFindings(cat: Catalog, slug: string, skills: seq<Skill>)
    requires forall s :: s in skills ==> Runnable(cat, s)
    ensures SkillFindings(cat, slug, skills) == []
  {
    if skills != [] {
      NoSkillFindings(cat, slug, skills[..|skills| - 1]);
      assert skills[|skills| - 1] in skills;
    }
  }

  lemma {:induction false} NoCronFindings(cat: Catalog, skipped: set<string>, slug: string, cron: seq<CronEntry>)
    requires forall e :: e in cron ==> CronFinding(cat, skipped, slug, e).None?
    ensures CronFindings(cat, skipped, slug, cron) == []
  {
    if cron != [] {
      NoCronFindings(cat, skipped, slug, cron[..|cron| - 1]);
      assert cron[|cron| - 1] in cron;
    }
  }

  lemma KeptIsClean(cat: Catalog, p: Persona)
    ensures Kept(cat, Kept(cat, p)) == Kept(cat, p) && Findings(cat, Kept(cat, p)) == []
  {
    var q := Kept(cat, p);
    forall s | s in q.skills
      ensures Runnable(cat, s)
    {
      KeptSkillIff(cat, p, s);
    }
    assert Skipped(cat, q) == {};
    forall e | e in q.cron
      ensures CronFinding(cat, {}, q.slug, e).None?
    {
      KeptEntryIff(cat, p, e);
    }
    FilterAll(q.skills, (s: Skill) => Runnable(cat, s));
    FilterAll(q.cron, (e: CronEntry) => CronFinding(cat, Skipped(cat, q), q.slug, e).None?);
    NoSkillFindings(cat, q.slug, q.skills);
    NoCronFindings(cat, {}, q.slug, q.cron);
  }

  /** ONCE IS ENOUGH: a second drop against the same image changes nothing and finds nothing. */
  lemma {:induction false} DropAgain(cat: Catalog, personas: seq<Persona>)
    ensures Drop(cat, Drop(cat, personas).0) == (Drop(cat, personas).0, [])
  {
    if personas != [] {
      var n := |personas| - 1;
      DropAgain(cat, personas[..n]);
      KeptIsClean(cat, personas[n]);
      var kept := Drop(cat, personas).0;
      assert kept[..|kept| - 1] == Drop(cat, personas[..n]).0;
    }
  }

  // ---------------------------------------------------------------------------
  // Webhook triggers
  // ---------------------------------------------------------------------------

  /** None when the trigger is not a mapping. */
  type Trigger = Option<(string, string)>

  predicate EnabledOn(personas: seq<Persona>, slug: string, skill: string) {
    exists i :: 0 <= i < |personas| && personas[i].slug == slug && skill in EnabledNames(personas[i])
  }

  /** `_triggers_for_runnable` */
  function KeptTriggers(personas: seq<Persona>, triggers: seq<Trigger>): seq<Trigger> {
    Filter(triggers, (t: Trigger) => t.Some? ==> EnabledOn(personas, t.value.0, t.value.1))
  }

  /** The persona enables the skill, and this image carries it at its pin. */
  predicate CarriedBy(cat: Catalog, p: Persona, skill: string) {
    exists s :: s in p.skills && Runs(s) && s.name == skill
      && s.name in cat && (s.version.Some? ==> s.version.value == cat[s.name].pin)
  }

  lemma CarriedMeansKept(cat: Catalog, p: Persona, skill: string)
    ensures CarriedBy(cat, p, skill) <==> skill in EnabledNames(Kept(cat, p))
  {
    if skill in EnabledNames(Kept(cat, p)) {
      var s :| s in Kept(cat, p).skills && Runs(s) && s.name == skill;
      KeptSkillIff(cat, p, s);
    }
    if CarriedBy(cat, p, skill) {
      var s :| s in p.skills && Runs(s) && s.name == skill
        && s.name in cat && (s.version.Some? ==> s.version.value == cat[s.name].pin);
      KeptSkillIff(cat, p, s);
    }
  }

  /** A surviving trigger names a skill its persona enables and this image carries at its pin. */
  lemma TriggersNameRunnableSkills(cat: Catalog, personas: seq<Persona>, triggers: seq<Trigger>, t: Trigger)
    requires t in triggers && t.Some?
    ensures t in KeptTriggers(Drop(cat, personas).0, triggers) <==>
            exists i :: 0 <= i < |personas| && personas[i].slug == t.value.0 && CarriedBy(cat, personas[i], t.value.1)
  {
    var kept := Drop(cat, personas).0;
    DropAt(cat, personas);
    FilterMember(triggers, (u: Trigger) => u.Some? ==> EnabledOn(kept, u.value.0, u.value.1), t);
    if EnabledOn(kept, t.value.0, t.value.1) {
      var i :| 0 <= i < |kept| && kept[i].slug == t.value.0 && t.value.1 in EnabledNames(kept[i]);
      CarriedMeansKept(cat, personas[i], t.value.1);
    }
    if i :| 0 <= i < |personas| && personas[i].slug == t.value.0 && CarriedBy(cat, personas[i], t.value.1) {
      CarriedMeansKept(cat, personas[i], t.value.1);
      assert kept[i].slug == t.value.0;
    }
  }
}
