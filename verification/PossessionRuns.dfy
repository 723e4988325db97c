/**
 * The admin and the person ceremony side by side (shared/admin_possession.py): what any
 * sequence of verdicts and messages, with any clock and any membership, can confirm.
 */
module PossessionRuns {
  import opened Basics
  import opened Possession

  /** What the roster predicate answers; Unreadable is a raised exception. */
  datatype Membership = Member | Stranger | Unreadable

  type Roster = Address -> Membership

  datatype Tables = Tables(admin: Table, people: Table)

  /** `strip().lower()`, the one spelling an address is stored under. */
  type Fold = string -> string

  function Normalized(fold: Fold, address: Option<string>): Address {
    match address case None => "" case Some(a) => fold(a)
  }

  function Admins(fold: Fold, listed: seq<string>): set<Address> {
    set a | a in listed && fold(a) != "" :: fold(a)
  }

  /** `person_reconcile`: an unreadable roster deletes nothing. */
  function PersonReconcile(t: Table, roster: Roster): Table {
    if exists a :: a in t.rows && roster(a).Unreadable? then t
    else Reconcile(t, set a | a in t.rows && roster(a).Member?)
  }

  // ---------------------------------------------------------------------------
  // The public operations
  // ---------------------------------------------------------------------------

  function AdminVerdict(fold: Fold, s: Tables, who: Option<string>, listed: seq<string>, now: real, minted: Nonce)
    : (Tables, Verdict)
  {
    var (t, v) := Resolve(Reconcile(s.admin, Admins(fold, listed)), Normalized(fold, who), now, minted);
    (s.(admin := t), v)
  }

  function AdminConfirm(fold: Fold, s: Tables, sender: Option<string>, text: Option<string>, listed: seq<string>, now: real)
    : (Tables, bool)
  {
    var t := Reconcile(s.admin, Admins(fold, listed));
    var a := Normalized(fold, sender);
    if a == "" || a !in Admins(fold, listed) || text.None? || text.value == "" then (s.(admin := t), false)
    else
      var (u, ok) := Accept(t, a, text.value, now);
      (s.(admin := u), ok)
  }

  /** A mailbox confirmed for the admin table is confirmed for its person too. */
  function PersonVerdict(fold: Fold, s: Tables, who: Option<string>, roster: Roster, now: real, minted: Nonce)
    : (Tables, Verdict)
  {
    var t := PersonReconcile(s.people, roster);
    var a := Normalized(fold, who);
    if a != "" && a in s.admin.rows && s.admin.rows[a].confirmed then (s.(people := t), IsConfirmed)
    else
      var (u, v) := Resolve(t, a, now, minted);
      (s.(people := u), v)
  }

  function PersonConfirm(fold: Fold, s: Tables, sender: Option<string>, text: Option<string>, roster: Roster, now: real)
    : (Tables, bool)
  {
    var t := PersonReconcile(s.people, roster);
    var a := Normalized(fold, sender);
    if a == "" || !roster(a).Member? || text.None? || text.value == "" then (s.(people := t), false)
    else
      var (u, ok) := Accept(t, a, text.value, now);
      (s.(people := u), ok)
  }

  // ---------------------------------------------------------------------------
  // Runs
  // ---------------------------------------------------------------------------

  datatype Step =
    | AskAdmin(who: Option<string>, listed: seq<string>, now: real, minted: Nonce)
    | AdminMail(sender: Option<string>, text: Option<string>, listed: seq<string>, now: real)
    | AskPerson(who: Option<string>, roster: Roster, now: real, minted: Nonce)
    | PersonMail(sender: Option<string>, text: Option<string>, roster: Roster, now: real)
    | ReconcileAdmins(listed: seq<string>)
    | ReconcilePeople(roster: Roster)

  function Next(fold: Fold, s: Tables, step: Step): Tables {
    match step
    case AskAdmin(who, listed, now, minted) => AdminVerdict(fold, s, who, listed, now, minted).0
    case AdminMail(sender, text, listed, now) => AdminConfirm(fold, s, sender, text, listed, now).0
    case AskPerson(who, roster, now, minted) => PersonVerdict(fold, s, who, roster, now, minted).0
    case PersonMail(sender, text, roster, now) => PersonConfirm(fold, s, sender, text, roster, now).0
    case ReconcileAdmins(listed) => s.(admin := Reconcile(s.admin, Admins(fold, listed)))
    case ReconcilePeople(roster) => s.(people := PersonReconcile(s.people, roster))
  }

  function After(fold: Fold, steps: seq<Step>): Tables
    decreases |steps|
  {
    if steps == [] then Tables(EMPTY, EMPTY)
    else Next(fold, After(fold, steps[..|steps| - 1]), steps[|steps| - 1])
  }

  lemma PersonReconcileKeeps(t: Table, roster: Roster)
    requires TableInv(t)
    ensures TableInv(PersonReconcile(t, roster))
  {
    ReconcileKeeps(t, set a | a in t.rows && roster(a).Member?);
  }

  lemma NextKeeps(fold: Fold, s: Tables, step: Step)
    requires TableInv(s.admin) && TableInv(s.people)
    ensures TableInv(Next(fold, s, step).admin) && TableInv(Next(fold, s, step).people)
  {
    match step
    case AskAdmin(who, listed, now, minted) =>
      ReconcileKeeps(s.admin, Admins(fold, listed));
      ResolveKeeps(Reconcile(s.admin, Admins(fold, listed)), Normalized(fold, who), now, minted);
    case AdminMail(sender, text, listed, now) =>
      ReconcileKeeps(s.admin, Admins(fold, listed));
      if text.Some? {
        AcceptKeeps(Reconcile(s.admin, Admins(fold, listed)), Normalized(fold, sender), text.value, now);
      }
    case AskPerson(who, roster, now, minted) =>
      PersonReconcileKeeps(s.people, roster);
      ResolveKeeps(PersonReconcile(s.people, roster), Normalized(fold, who), now, minted);
    case PersonMail(sender, text, roster, now) =>
      PersonReconcileKeeps(s.people, roster);
      if text.Some? {
        AcceptKeeps(PersonReconcile(s.people, roster), Normalized(fold, sender), text.value, now);
      }
    case ReconcileAdmins(listed) =>
      ReconcileKeeps(s.admin, Admins(fold, listed));
    case ReconcilePeople(roster) =>
      PersonReconcileKeeps(s.people, roster);
  }

  lemma {:induction false} RunKeeps(fold: Fold, steps: seq<Step>)
    ensures TableInv(After(fold, steps).admin) && TableInv(After(fold, steps).people)
    decreases |steps|
  {
    if steps != [] {
      RunKeeps(fold, steps[..|steps| - 1]);
      NextKeeps(fold, After(fold, steps[..|steps| - 1]), steps[|steps| - 1]);
    }
  }

  /** A challenge and its answer, with the address listed at every reconcile since. */
  ghost predicate ProvedIn(log: seq<Event>, a: Address) {
    exists i: nat, j: nat :: Answers(log, i, j) && log[i].to == a && StaysListed(log, a, i, |log|)
  }

  /**
   * EVERY RUN, ADMINS. A verdict says confirmed only for an address now on the list that was
   * challenged by an earlier verdict, answered that challenge with its nonce within the
   * time allowed, and was on the list at every reconcile since the challenge.
   */
  lemma AdminConfirmedOnlyByProof(fold: Fold, steps: seq<Step>, who: Option<string>, listed: seq<string>,
                                  now: real, minted: Nonce)
    requires AdminVerdict(fold, After(fold, steps), who, listed, now, minted).1 == IsConfirmed
    ensures var a := Normalized(fold, who);
      a in Admins(fold, listed) && ProvedIn(AdminVerdict(fold, After(fold, steps), who, listed, now, minted).0.admin.log, a)
  {
    RunKeeps(fold, steps);
    var t := Reconcile(After(fold, steps).admin, Admins(fold, listed));
    ReconcileKeeps(After(fold, steps).admin, Admins(fold, listed));
    ConfirmedWasProven(t, Normalized(fold, who));
  }

  /** EVERY RUN, PEOPLE. Confirmed by an own proof, or by a proof in the admin table. */
  lemma PersonConfirmedOnlyByProof(fold: Fold, steps: seq<Step>, who: Option<string>, roster: Roster,
                                   now: real, minted: Nonce)
    requires PersonVerdict(fold, After(fold, steps), who, roster, now, minted).1 == IsConfirmed
    ensures var s := PersonVerdict(fold, After(fold, steps), who, roster, now, minted).0;
      ProvedIn(s.people.log, Normalized(fold, who)) || ProvedIn(s.admin.log, Normalized(fold, who))
  {
    RunKeeps(fold, steps);
    var s, a := After(fold, steps), Normalized(fold, who);
    if a in s.admin.rows && s.admin.rows[a].confirmed {
      ConfirmedWasProven(s.admin, a);
    } else {
      PersonReconcileKeeps(s.people, roster);
      ConfirmedWasProven(PersonReconcile(s.people, roster), a);
    }
  }

  /** A message that is not accepted changes nothing but the reconcile it starts with. */
  lemma RefusedMailChangesNothing(fold: Fold, s: Tables, sender: Option<string>, text: Option<string>,
                                  listed: seq<string>, now: real)
    ensures var (s', ok) := AdminConfirm(fold, s, sender, text, listed, now);
      var t, a := Reconcile(s.admin, Admins(fold, listed)), Normalized(fold, sender);
      && (!ok ==> s' == s.(admin := t))
      && (ok <==> a != "" && text.Some? && a in t.rows && Stands(t.rows[a], now)
                  && Contains(text.value, t.rows[a].nonce.value))
  {
    if text.Some? && text.value == "" {
      var a := Normalized(fold, sender);
      var t := Reconcile(s.admin, Admins(fold, listed));
      if a in t.rows && Stands(t.rows[a], now) {
        assert |t.rows[a].nonce.value| > 0;
        assert !Contains("", t.rows[a].nonce.value);
      }
    }
  }

  /** Every live challenge, with its address, from both tables. */
  function AllOutstanding(s: Tables, now: real): set<(Nonce, Address)> {
    Outstanding(s.admin, now) + Outstanding(s.people, now)
  }

  ghost predicate FreshAcross(s: Tables) {
    && FreshNonces(s.admin.log) && FreshNonces(s.people.log)
    && (forall i, j ::
          0 <= i < |s.admin.log| && 0 <= j < |s.people.log| && s.admin.log[i].Issued? && s.people.log[j].Issued? ==>
          s.admin.log[i].nonce != s.people.log[j].nonce)
  }

  lemma OutstandingWasIssued(t: Table, now: real, n: Nonce, a: Address)
    requires TableInv(t) && (n, a) in Outstanding(t, now)
    ensures exists i: nat :: LiveIssue(t.log, a, i) && t.log[i].nonce == n
  {
    OutstandingExact(t, now, n, a);
  }

  lemma OneIssuePerNonce(t: Table, now: real, n: Nonce, a: Address, b: Address)
    requires TableInv(t) && FreshNonces(t.log)
    requires (n, a) in Outstanding(t, now) && (n, b) in Outstanding(t, now)
    ensures a == b
  {
    OutstandingWasIssued(t, now, n, a);
    OutstandingWasIssued(t, now, n, b);
    var i: nat :| LiveIssue(t.log, a, i) && t.log[i].nonce == n;
    var j: nat :| LiveIssue(t.log, b, j) && t.log[j].nonce == n;
    assert i == j;
  }

  /** With fresh nonces, an outstanding nonce names exactly one address. */
  lemma OutstandingIsAMap(s: Tables, now: real, n: Nonce, a: Address, b: Address)
    requires TableInv(s.admin) && TableInv(s.people) && FreshAcross(s)
    requires (n, a) in AllOutstanding(s, now) && (n, b) in AllOutstanding(s, now)
    ensures a == b
  {
    if (n, a) in Outstanding(s.admin, now) && (n, b) in Outstanding(s.admin, now) {
      OneIssuePerNonce(s.admin, now, n, a, b);
    } else if (n, a) in Outstanding(s.people, now) && (n, b) in Outstanding(s.people, now) {
      OneIssuePerNonce(s.people, now, n, a, b);
    } else {
      NeverInBoth(s, now, n, a, b);
      NeverInBoth(s, now, n, b, a);
    }
  }

  lemma NeverInBoth(s: Tables, now: real, n: Nonce, a: Address, b: Address)
    requires TableInv(s.admin) && TableInv(s.people) && FreshAcross(s)
    ensures !((n, a) in Outstanding(s.admin, now) && (n, b) in Outstanding(s.people, now))
  {
    if (n, a) in Outstanding(s.admin, now) {
      OutstandingWasIssued(s.admin, now, n, a);
      var i: nat :| LiveIssue(s.admin.log, a, i) && s.admin.log[i].nonce == n;
      forall j: nat
        ensures !(LiveIssue(s.people.log, b, j) && s.people.log[j].nonce == n)
      {
      }
      OutstandingExact(s.people, now, n, b);
    }
  }

  // ---------------------------------------------------------------------------
  // The persistent tables
  // ---------------------------------------------------------------------------

  class Store {
    const fold: Fold
    var admins: map<Address, Row>
    var people: map<Address, Row>
    ghost var adminLog: seq<Event>
    ghost var peopleLog: seq<Event>

    ghost function View(): Tables
      reads this
    {
      Tables(Table(admins, adminLog), Table(people, peopleLog))
    }

    constructor (fold: Fold)
      ensures this.fold == fold && View() == After(fold, [])
    {
      this.fold := fold;
      admins, people, adminLog, peopleLog := map[], map[], [], [];
    }

    method ReconcileAdminRows(listed: seq<string>)
      modifies this
      ensures View() == Next(fold, old(View()), ReconcileAdmins(listed))
    {
      var members := Admins(fold, listed);
      var stale := admins.Keys - members;
      admins := admins - stale;
      adminLog := adminLog + [Reconciled(members)];
      assert admins == map a | a in old(admins) && a in members :: old(admins)[a];
    }

    method ReconcilePersonRows(roster: Roster)
      modifies this
      ensures View() == Next(fold, old(View()), ReconcilePeople(roster))
    {
      var left := people.Keys;
      var kept: set<Address> := {};
      while left != {}
        invariant left <= people.Keys && kept == set a | a in people.Keys - left && roster(a).Member?
        invariant forall a :: a in people.Keys - left ==> !roster(a).Unreadable?
        decreases left
      {
        var a :| a in left;
        if roster(a).Unreadable? {
          return;
        }
        if roster(a).Member? {
          kept := kept + {a};
        }
        left := left - {a};
      }
      people := people - (people.Keys - kept);
      peopleLog := peopleLog + [Reconciled(kept)];
      assert kept == set a | a in old(people) && roster(a).Member?;
      assert people == map a | a in old(people) && a in kept :: old(people)[a];
    }

    method VerdictForAdmin(who: Option<string>, listed: seq<string>, now: real, minted: Nonce) returns (v: Verdict)
      modifies this
      ensures (View(), v) == AdminVerdict(fold, old(View()), who, listed, now, minted)
    {
      ReconcileAdminRows(listed);
      var a := Normalized(fold, who);
      if a == "" {
        return ChallengePending("");
      }
      if a in admins && admins[a].confirmed {
        return IsConfirmed;
      }
      if a in admins && Stands(admins[a], now) {
        return ChallengePending(admins[a].nonce.value);
      }
      admins := admins[a := Row(Some(minted), Some(now + NONCE_TTL_SECONDS), false)];
      adminLog := adminLog + [Issued(a, minted, now)];
      v := ChallengeIssued(minted);
    }

    method ConfirmAdmin(sender: Option<string>, text: Option<string>, listed: seq<string>, now: real) returns (ok: bool)
      modifies this
      ensures (View(), ok) == AdminConfirm(fold, old(View()), sender, text, listed, now)
    {
      ReconcileAdminRows(listed);
      var a := Normalized(fold, sender);
      if a == "" || a !in Admins(fold, listed) || text.None? || text.value == "" {
        return false;
      }
      if a !in admins || !Stands(admins[a], now) || !Contains(text.value, admins[a].nonce.value) {
        return false;
      }
      adminLog := adminLog + [Confirmed(a, admins[a].nonce.value, text.value, now)];
      admins := admins[a := Row(None, None, true)];
      ok := true;
    }

    method VerdictForPerson(who: Option<string>, roster: Roster, now: real, minted: Nonce) returns (v: Verdict)
      modifies this
      ensures (View(), v) == PersonVerdict(fold, old(View()), who, roster, now, minted)
    {
      ReconcilePersonRows(roster);
      var a := Normalized(fold, who);
      if a == "" {
        return ChallengePending("");
      }
      if a in admins && admins[a].confirmed {
        return IsConfirmed;
      }
      if a in people && people[a].confirmed {
        return IsConfirmed;
      }
      if a in people && Stands(people[a], now) {
        return ChallengePending(people[a].nonce.value);
      }
      people := people[a := Row(Some(minted), Some(now + NONCE_TTL_SECONDS), false)];
      peopleLog := peopleLog + [Issued(a, minted, now)];
      v := ChallengeIssued(minted);
    }

    method ConfirmPerson(sender: Option<string>, text: Option<string>, roster: Roster, now: real) returns (ok: bool)
      modifies this
      ensures (View(), ok) == PersonConfirm(fold, old(View()), sender, text, roster, now)
    {
      ReconcilePersonRows(roster);
      var a := Normalized(fold, sender);
      if a == "" || !roster(a).Member? || text.None? || text.value == "" {
        return false;
      }
      if a !in people || !Stands(people[a], now) || !Contains(text.value, people[a].nonce.value) {
        return false;
      }
      peopleLog := peopleLog + [Confirmed(a, people[a].nonce.value, text.value, now)];
      people := people[a := Row(None, None, true)];
      ok := true;
    }

    method OutstandingOf(rows: map<Address, Row>, now: real) returns (pairs: set<(Nonce, Address)>)
      ensures pairs == Outstanding(Table(rows, []), now)
    {
      pairs := {};
      var left := rows.Keys;
      while left != {}
        invariant left <= rows.Keys
        invariant pairs == set a | a in rows.Keys - left && Stands(rows[a], now) :: (rows[a].nonce.value, a)
        decreases left
      {
        var a :| a in left;
        if Stands(rows[a], now) {
          pairs := pairs + {(rows[a].nonce.value, a)};
        }
        left := left - {a};
      }
    }

    /** The recipient lock's reading: every live nonce with its address, both tables. */
    method OutstandingNonces(now: real) returns (pairs: set<(Nonce, Address)>)
      ensures pairs == AllOutstanding(View(), now)
    {
      var a := OutstandingOf(admins, now);
      var p := OutstandingOf(people, now);
      pairs := a + p;
    }
  }
}
