/** The parts of a seat's customer.yaml that boot reads: personas, their skills and their schedules. */
module SeatConfig {
  import opened Basics
  import opened Text

  /** `name` is empty when missing; `version` is None for `pending`. */
  datatype Skill = Malformed | Skill(name: string, enabled: bool, version: Option<string>, scheduled: bool)

  /** Text fields are stripped, empty when missing; `wake` is None when missing or empty. */
  datatype CronEntry =
    | NotMapping
    | CronEntry(skill: string, schedule: string, wake: Option<string>, preRun: string, space: string)

  /** `slug` and `name` as authored, empty when missing. */
  datatype Persona = Persona(slug: string, name: string, skills: seq<Skill>, cron: seq<CronEntry>)

  /** The slug a persona's schedule is filed under: the authored slug, or the name, stripped. */
  function HomeOf(chars: Chars, p: Persona): string {
    Strip(chars, if p.slug != "" then p.slug else p.name)
  }

  const WAKE_ALWAYS: string := "always"
  const PRE_RUN_DECIDES: string := "pre_run_decides"

  /** An enabled skill that has a name. */
  predicate Runs(s: Skill) {
    s.Skill? && s.enabled && s.name != ""
  }

  /** `_scheduled_initiation_skills` */
  function Scheduled(p: Persona): set<string> {
    set s | s in p.skills && Runs(s) && s.scheduled :: s.name
  }

  /** The entry's wake is decided by a script. */
  predicate ScriptDecides(e: CronEntry) {
    e.CronEntry? && e.wake == Some(PRE_RUN_DECIDES)
  }
}
