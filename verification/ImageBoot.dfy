/**
 * The boot steps of bootstrap/translate.py in the source's own form: loops that collect what
 * is kept, what is found and what is wrong, and a profile directory changed in place.
 */
module ImageBoot {
  import opened Basics
  import opened SeatConfig
  import opened ImageSkew

  lemma SkillsSnoc(cat: Catalog, slug: string, skills: seq<Skill>, i: nat, keep: Skill -> bool)
    requires i < |skills|
    ensures var s := skills[i];
      var found := SkillFinding(cat, slug, s);
      && (found.None? <==> Runnable(cat, s)) && (found.Some? ==> s.Skill?)
      && Filter(skills[..i + 1], keep) == Filter(skills[..i], keep) + (if keep(s) then [s] else [])
      && SkippedOf(cat, skills[..i + 1]) == SkippedOf(cat, skills[..i]) + (if found.Some? then {s.name} else {})
      && SkillFindings(cat, slug, skills[..i + 1]) ==
         SkillFindings(cat, slug, skills[..i]) + (if found.Some? then [found.value] else [])
  {
    assert skills[..i + 1][..i] == skills[..i] && skills[..i + 1] == skills[..i] + [skills[i]];
  }

  lemma CronSnoc(cat: Catalog, skipped: set<string>, slug: string, cron: seq<CronEntry>, i: nat, keep: CronEntry -> bool)
    requires i < |cron|
    ensures var found := CronFinding(cat, skipped, slug, cron[i]);
      && Filter(cron[..i + 1], keep) == Filter(cron[..i], keep) + (if keep(cron[i]) then [cron[i]] else [])
      && CronFindings(cat, skipped, slug, cron[..i + 1]) ==
         CronFindings(cat, skipped, slug, cron[..i]) + (if found.Some? then [found.value] else [])
  {
    assert cron[..i + 1][..i] == cron[..i];
  }

  method DropSkills(cat: Catalog, p: Persona) returns (kept: seq<Skill>, skipped: set<string>, findings: seq<Finding>)
    ensures kept == KeptSkills(cat, p) && skipped == Skipped(cat, p)
    ensures findings == SkillFindings(cat, p.slug, p.skills)
  {
    kept, skipped, findings := [], {}, [];
    ghost var keep := (s: Skill) => Runnable(cat, s);
    for i := 0 to |p.skills|
      invariant kept == Filter(p.skills[..i], keep)
      invariant skipped == SkippedOf(cat, p.skills[..i])
      invariant findings == SkillFindings(cat, p.slug, p.skills[..i])
    {
      var s := p.skills[i];
      SkillsSnoc(cat, p.slug, p.skills, i, keep);
      if !Runs(s) {
        kept := kept + [s];
      } else if s.name !in cat {
        findings := findings + [SkillMissing(p.slug, s.name)];
        skipped := skipped + {s.name};
      } else if s.version.Some? && s.version.value != cat[s.name].pin {
        findings := findings + [PinMismatch(p.slug, s.name, s.version.value, cat[s.name].pin)];
        skipped := skipped + {s.name};
      } else {
        kept := kept + [s];
      }
    }
    assert p.skills[..|p.skills|] == p.skills;
  }

  method DropCron(cat: Catalog, p: Persona, skipped: set<string>) returns (kept: seq<CronEntry>, findings: seq<Finding>)
    requires skipped == Skipped(cat, p)
    ensures kept == KeptCron(cat, p) && findings == CronFindings(cat, skipped, p.slug, p.cron)
  {
    kept, findings := [], [];
    ghost var keep := (e: CronEntry) => CronFinding(cat, Skipped(cat, p), p.slug, e).None?;
    for i := 0 to |p.cron|
      invariant kept == Filter(p.cron[..i], keep)
      invariant findings == CronFindings(cat, skipped, p.slug, p.cron[..i])
    {
      var e := p.cron[i];
      CronSnoc(cat, skipped, p.slug, p.cron, i, keep);
      assert keep(e) <==> CronFinding(cat, skipped, p.slug, e).None?;
      if e.NotMapping? {
        kept := kept + [e];
      } else if e.skill in skipped {
        findings := findings + [CronSkillSkipped(p.slug, e.skill)];
      } else if e.skill != "" && e.wake == Some(PRE_RUN_DECIDES) && e.preRun != ""
          && e.skill in cat && e.preRun !in cat[e.skill].files {
        findings := findings + [PreRunMissing(p.slug, e.skill)];
      } else {
        kept := kept + [e];
      }
    }
    assert p.cron[..|p.cron|] == p.cron;
  }

  /** `_drop_unrunnable` */
  method DropUnrunnable(cat: Catalog, personas: seq<Persona>) returns (kept: seq<Persona>, findings: seq<Finding>)
    ensures (kept, findings) == Drop(cat, personas)
  {
    kept, findings := [], [];
    for i := 0 to |personas|
      invariant (kept, findings) == Drop(cat, personas[..i])
    {
      var p := personas[i];
      assert personas[..i + 1][..i] == personas[..i];
      var skills, skipped, bySkill := DropSkills(cat, p);
      var cron, byEntry := DropCron(cat, p, skipped);
      kept := kept + [p.(skills := skills, cron := cron)];
      findings := findings + (bySkill + byEntry);
    }
    assert personas[..|personas|] == personas;
  }

  /** `_resolve_skill_pins`: the pin of each enabled skill, or None where it raises. */
  method ResolveSkillPins(cat: Catalog, personas: seq<Persona>) returns (pins: Option<map<(string, string), string>>)
    ensures pins.None? <==> PinsFail(cat, personas)
    ensures pins.Some? ==> forall i, s :: 0 <= i < |personas| && s in personas[i].skills && Runs(s) ==>
              (personas[i].slug, s.name) in pins.value
    ensures pins.Some? ==> forall key :: key in pins.value ==> key.1 in cat && pins.value[key] == cat[key.1].pin
  {
    var resolved: map<(string, string), string> := map[];
    var errors := 0;
    for i := 0 to |personas|
      invariant errors >= 0
      invariant errors == 0 <==> forall k :: 0 <= k < i ==> !HasPinError(cat, personas[k])
      invariant errors == 0 ==> forall k, s :: 0 <= k < i && s in personas[k].skills && Runs(s) ==>
                  (personas[k].slug, s.name) in resolved
      invariant forall key :: key in resolved ==> key.1 in cat && resolved[key] == cat[key.1].pin
    {
      var failed;
      resolved, failed := ResolvePersona(cat, personas[i], resolved);
      errors := errors + if failed then 1 else 0;
    }
    pins := if errors == 0 then Some(resolved) else None;
  }

  method ResolvePersona(cat: Catalog, p: Persona, before: map<(string, string), string>)
      returns (resolved: map<(string, string), string>, failed: bool)
    requires forall key :: key in before ==> key.1 in cat && before[key] == cat[key.1].pin
    ensures failed <==> HasPinError(cat, p)
    ensures before.Keys <= resolved.Keys
    ensures forall key :: key in resolved ==> key.1 in cat && resolved[key] == cat[key.1].pin
    ensures !failed ==> forall s :: s in p.skills && Runs(s) ==> (p.slug, s.name) in resolved
  {
    resolved, failed := before, false;
    for j := 0 to |p.skills|
      invariant failed <==> exists s :: s in p.skills[..j] && PinError(cat, s)
      invariant before.Keys <= resolved.Keys
      invariant forall key :: key in resolved ==> key.1 in cat && resolved[key] == cat[key.1].pin
      invariant !failed ==> forall s :: s in p.skills[..j] && Runs(s) ==> (p.slug, s.name) in resolved
    {
      var s := p.skills[j];
      assert p.skills[..j + 1] == p.skills[..j] + [s];
      assert s in p.skills[..j + 1];
      assert forall t :: t in p.skills[..j + 1] <==> t in p.skills[..j] || t == s;
      if s.Malformed? {
        failed := true;
      } else if s.enabled {
        if s.name == "" || s.name !in cat {
          failed := true;
        } else if s.version.Some? && s.version.value != cat[s.name].pin {
          failed := true;
        } else {
          resolved := resolved[(p.slug, s.name) := cat[s.name].pin];
        }
      }
    }
    assert p.skills[..|p.skills|] == p.skills;
  }

  /** A profile with these bodies copied in, before anything is removed. */
  function CopiedIn(cat: Catalog, profile: Profile, enabled: set<string>): Profile
    requires enabled <= cat.Keys
  {
    map name | name in profile.Keys + enabled :: if name in enabled then Copied(cat, profile, name) else profile[name]
  }

  lemma CopyOneMore(cat: Catalog, profile: Profile, enabled: set<string>, name: string)
    requires enabled <= cat.Keys && name in cat
    ensures var so := CopiedIn(cat, profile, enabled);
      so[name := Copied(cat, so, name)] == CopiedIn(cat, profile, enabled + {name})
  {
    var so := CopiedIn(cat, profile, enabled);
    assert Copied(cat, so, name) == Copied(cat, profile, name);
  }

  lemma PrunedIsInstalled(cat: Catalog, p: Persona, profile: Profile, prune: set<string>)
    requires !InstallFails(cat, p) && EnabledNames(p) <= cat.Keys
    ensures CopiedIn(cat, profile, EnabledNames(p)) - (cat.Keys + prune - EnabledNames(p)) == Installed(cat, p, profile, prune)
  {
  }

  /** A profile's own skills directory. */
  class ProfileDir {
    var skills: Profile

    constructor (skills: Profile)
      ensures this.skills == skills
    {
      this.skills := skills;
    }

    /** Copies enabled bodies until one cannot be; `done` is how many skills were passed. */
    method CopyEnabled(cat: Catalog, p: Persona) returns (ok: bool, enabled: set<string>)
      modifies this
      ensures ok <==> !InstallFails(cat, p)
      ensures ok ==> enabled == EnabledNames(p) && enabled <= cat.Keys
      ensures ok ==> skills == CopiedIn(cat, old(skills), enabled)
    {
      ghost var was := skills;
      enabled := {};
      for i := 0 to |p.skills|
        invariant forall k :: 0 <= k < i ==> !CannotInstall(cat, p.skills[k])
        invariant enabled == set s | s in p.skills[..i] && Runs(s) :: s.name
        invariant enabled <= cat.Keys
        invariant skills == CopiedIn(cat, was, enabled)
      {
        var s := p.skills[i];
        assert p.skills[..i + 1] == p.skills[..i] + [s];
        if s.Malformed? {
          assert CannotInstall(cat, p.skills[i]);
          return false, enabled;
        }
        if Runs(s) {
          if s.name !in cat {
            assert CannotInstall(cat, p.skills[i]);
            return false, enabled;
          }
          CopyOneMore(cat, was, enabled, s.name);
          skills := skills[s.name := Copied(cat, skills, s.name)];
          enabled := enabled + {s.name};
        }
      }
      assert p.skills[..|p.skills|] == p.skills;
      ok := true;
    }

    /** `_install_persona_skills` */
    method InstallPersonaSkills(cat: Catalog, p: Persona, prune: set<string>) returns (ok: bool)
      modifies this
      ensures ok <==> !InstallFails(cat, p)
      ensures ok ==> skills == Installed(cat, p, old(skills), prune)
    {
      ghost var was := skills;
      var enabled;
      ok, enabled := CopyEnabled(cat, p);
      if !ok {
        return;
      }
      ghost var full := skills;
      var removable := cat.Keys + prune;
      var children := skills.Keys;
      while children != {}
        invariant children <= full.Keys
        invariant skills == full - ((full.Keys - children) * (removable - enabled))
        decreases children
      {
        var child :| child in children;
        if child !in enabled && child in removable {
          skills := skills - {child};
        }
        children := children - {child};
      }
      assert skills == full - (removable - enabled);
      PrunedIsInstalled(cat, p, was, prune);
    }
  }
}
