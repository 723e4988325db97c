/**
 * The mailbox-possession ceremony (shared/admin_possession.py): one table of challenges and
 * proofs per kind of person, driven by messages, clock readings and changing membership.
 * The log is history: what was issued, confirmed and reconciled, in order.
 */
module Possession {
  import opened Basics

  const NONCE_TTL_SECONDS: real := 259200.0

  type Address = string
  type Nonce = string

  datatype Row = Row(nonce: Option<Nonce>, expires: Option<real>, confirmed: bool)

  datatype Event =
    | Reconciled(members: set<Address>)
    | Issued(to: Address, nonce: Nonce, at: real)
    | Confirmed(who: Address, nonce: Nonce, text: string, at: real)

  datatype Table = Table(rows: map<Address, Row>, log: seq<Event>)

  const EMPTY: Table := Table(map[], [])

  /** `needle in text` */
  predicate Contains(text: string, needle: string) {
    exists i :: 0 <= i <= |text| && needle <= text[i..]
  }

  // ---------------------------------------------------------------------------
  // Operations on one table
  // ---------------------------------------------------------------------------

  /** `reconcile`: rows of addresses no longer listed are deleted. */
  function Reconcile(t: Table, members: set<Address>): Table {
    Table(map a | a in t.rows && a in members :: t.rows[a], t.log + [Reconciled(members)])
  }

  datatype Verdict = IsConfirmed | ChallengeIssued(nonce: Nonce) | ChallengePending(nonce: Nonce)

  /** A challenge that still stands at `now`. */
  predicate Stands(r: Row, now: real) {
    !r.confirmed && r.nonce.Some? && r.nonce.value != "" && r.expires.Some? && now <= r.expires.value
  }

  /** The part of `verdict` after reconciling. */
  function Resolve(t: Table, a: Address, now: real, minted: Nonce): (Table, Verdict) {
    if a == "" then (t, ChallengePending(""))
    else if a in t.rows && t.rows[a].confirmed then (t, IsConfirmed)
    else if a in t.rows && Stands(t.rows[a], now) then (t, ChallengePending(t.rows[a].nonce.value))
    else
      (Table(t.rows[a := Row(Some(minted), Some(now + NONCE_TTL_SECONDS), false)],
             t.log + [Issued(a, minted, now)]),
       ChallengeIssued(minted))
  }

  /** The part of `try_confirm` after reconciling and the membership test. */
  function Accept(t: Table, a: Address, text: string, now: real): (Table, bool) {
    if a in t.rows && Stands(t.rows[a], now) && Contains(text, t.rows[a].nonce.value) then
      (Table(t.rows[a := Row(None, None, true)], t.log + [Confirmed(a, t.rows[a].nonce.value, text, now)]), true)
    else (t, false)
  }

  // ---------------------------------------------------------------------------
  // Reading the log
  // ---------------------------------------------------------------------------

  datatype Standing = Nothing | Challenged(nonce: Nonce, at: real) | Proven

  /** The latest event that matters for an address decides where it stands. */
  function StandingOf(log: seq<Event>, a: Address): Standing {
    if log == [] then Nothing else
      match log[|log| - 1]
      case Issued(to, n, at) => if to == a then Challenged(n, at) else StandingOf(log[..|log| - 1], a)
      case Confirmed(who, _, _, _) => if who == a then Proven else StandingOf(log[..|log| - 1], a)
      case Reconciled(_) => if a !in log[|log| - 1].members then Nothing else StandingOf(log[..|log| - 1], a)
  }

  /** Between places `i` and `j` the address was on the list at every reconcile. */
  ghost predicate StaysListed(log: seq<Event>, a: Address, i: nat, j: nat) {
    forall k :: i < k < j && k < |log| && log[k].Reconciled? ==> a in log[k].members
  }

  /** Between places `i` and `j` nothing was issued to the address or confirmed by it. */
  ghost predicate Undisturbed(log: seq<Event>, a: Address, i: nat, j: nat) {
    forall k :: i < k < j && k < |log| ==>
      !(log[k].Issued? && log[k].to == a) && !(log[k].Confirmed? && log[k].who == a)
  }

  /** The challenge issued at `i` is the one that stands after the whole log. */
  ghost predicate LiveIssue(log: seq<Event>, a: Address, i: nat) {
    && i < |log| && log[i].Issued? && log[i].to == a
    && StaysListed(log, a, i, |log|) && Undisturbed(log, a, i, |log|)
  }

  /**
   * The confirmation at `j` answers the challenge at `i`: same address, same nonce, in the
   * text, in time, with the address listed and nothing else issued in between.
   */
  ghost predicate Answers(log: seq<Event>, i: nat, j: nat) {
    && i < j < |log| && log[i].Issued? && log[j].Confirmed? && log[i].to == log[j].who
    && log[i].nonce == log[j].nonce && Contains(log[j].text, log[i].nonce)
    && log[j].at <= log[i].at + NONCE_TTL_SECONDS
    && StaysListed(log, log[i].to, i, j) && Undisturbed(log, log[i].to, i, j)
  }

  lemma {:induction false} ChallengedIsLive(log: seq<Event>, a: Address, n: Nonce, at: real)
    ensures StandingOf(log, a) == Challenged(n, at) <==>
            exists i: nat :: LiveIssue(log, a, i) && log[i] == Issued(a, n, at)
  {
    if log != [] {
      var init, last := log[..|log| - 1], log[|log| - 1];
      ChallengedIsLive(init, a, n, at);
      var m := |init|;
      if i: nat :| LiveIssue(init, a, i) && init[i] == Issued(a, n, at) {
        assert log[i] == init[i];
        if StandingOf(log, a) == Challenged(n, at) && last != Issued(a, n, at) {
          assert LiveIssue(log, a, i);
        }
      }
      if last == Issued(a, n, at) {
        assert LiveIssue(log, a, m);
      }
      if i: nat :| LiveIssue(log, a, i) && log[i] == Issued(a, n, at) {
        if i < m {
          LiveEarlier(log, a, i);
          assert init[i] == log[i];
          assert !(log[m].Issued? && log[m].to == a) && !(log[m].Confirmed? && log[m].who == a);
        }
      }
    }
  }

  lemma LiveEarlier(log: seq<Event>, a: Address, i: nat)
    requires log != [] && LiveIssue(log, a, i) && i < |log| - 1
    ensures LiveIssue(log[..|log| - 1], a, i)
  {
    var init := log[..|log| - 1];
    forall k | i < k < |init|
      ensures init[k] == log[k]
    {
    }
  }

  /** A proven address has a confirmation since which it stayed listed and undisturbed. */
  lemma {:induction false} ProvenHasConfirmation(log: seq<Event>, a: Address)
    requires StandingOf(log, a) == Proven
    ensures exists j :: 0 <= j < |log| && log[j].Confirmed? && log[j].who == a
              && StaysListed(log, a, j, |log|) && Undisturbed(log, a, j, |log|)
  {
    var n := |log| - 1;
    var init, last := log[..n], log[n];
    if last.Confirmed? && last.who == a {
      assert StaysListed(log, a, n, |log|) && Undisturbed(log, a, n, |log|);
    } else {
      ProvenHasConfirmation(init, a);
      var j :| 0 <= j < |init| && init[j].Confirmed? && init[j].who == a
        && StaysListed(init, a, j, |init|) && Undisturbed(init, a, j, |init|);
      assert log[j] == init[j];
      forall k | j < k < |log|
        ensures log[k].Reconciled? ==> a in log[k].members
        ensures !(log[k].Issued? && log[k].to == a) && !(log[k].Confirmed? && log[k].who == a)
      {
        if k < n { assert log[k] == init[k]; }
      }
    }
  }

  // ---------------------------------------------------------------------------
  // The invariant
  // ---------------------------------------------------------------------------

  /** A row says exactly where the log says its address stands. */
  ghost predicate RowMatches(t: Table, a: Address) {
    match StandingOf(t.log, a)
    case Nothing => a !in t.rows
    case Challenged(n, at) => a in t.rows && t.rows[a] == Row(Some(n), Some(at + NONCE_TTL_SECONDS), false)
    case Proven => a in t.rows && t.rows[a] == Row(None, None, true)
  }

  /** Every confirmation in the log answers a challenge. */
  ghost predicate AllAnswered(log: seq<Event>) {
    forall j :: 0 <= j < |log| && log[j].Confirmed? ==> exists i: nat :: Answers(log, i, j)
  }

  ghost predicate TableInv(t: Table) {
    (forall a :: RowMatches(t, a)) && AllAnswered(t.log)
  }

  lemma AnswersLater(log: seq<Event>, e: Event, i: nat, j: nat)
    requires Answers(log, i, j)
    ensures Answers(log + [e], i, j)
  {
    var longer := log + [e];
    assert forall k :: 0 <= k < |log| ==> longer[k] == log[k];
  }

  lemma AnsweredSnoc(log: seq<Event>, e: Event)
    requires AllAnswered(log)
    requires e.Confirmed? ==> exists i: nat :: Answers(log + [e], i, |log|)
    ensures AllAnswered(log + [e])
  {
    var longer := log + [e];
    forall j | 0 <= j < |longer| && longer[j].Confirmed?
      ensures exists i: nat :: Answers(longer, i, j)
    {
      if j < |log| {
        assert longer[j] == log[j];
        var i: nat :| Answers(log, i, j);
        AnswersLater(log, e, i, j);
      }
    }
  }

  lemma StandingSnoc(log: seq<Event>, e: Event, a: Address)
    ensures StandingOf(log + [e], a) ==
      match e
      case Issued(to, n, at) => if to == a then Challenged(n, at) else StandingOf(log, a)
      case Confirmed(who, _, _, _) => if who == a then Proven else StandingOf(log, a)
      case Reconciled(_) => if a !in e.members then Nothing else StandingOf(log, a)
  {
    assert (log + [e])[..|log|] == log;
  }

  lemma ReconcileKeeps(t: Table, members: set<Address>)
    requires TableInv(t)
    ensures TableInv(Reconcile(t, members))
  {
    forall a
      ensures RowMatches(Reconcile(t, members), a)
    {
      assert RowMatches(t, a);
      StandingSnoc(t.log, Reconciled(members), a);
    }
    AnsweredSnoc(t.log, Reconciled(members));
  }

  lemma ResolveKeeps(t: Table, a: Address, now: real, nonce: Nonce)
    requires TableInv(t)
    ensures TableInv(Resolve(t, a, now, nonce).0)
  {
    var t' := Resolve(t, a, now, nonce).0;
    if t' != t {
      forall b
        ensures RowMatches(t', b)
      {
        assert RowMatches(t, b);
        StandingSnoc(t.log, Issued(a, nonce, now), b);
      }
      AnsweredSnoc(t.log, Issued(a, nonce, now));
    }
  }

  /** An accepted message answers the standing challenge. */
  lemma AcceptAnswers(t: Table, a: Address, text: string, now: real)
    requires TableInv(t) && a in t.rows && Stands(t.rows[a], now) && Contains(text, t.rows[a].nonce.value)
    ensures exists i: nat :: Answers(t.log + [Confirmed(a, t.rows[a].nonce.value, text, now)], i, |t.log|)
  {
    assert RowMatches(t, a);
    var n, at := StandingOf(t.log, a).nonce, StandingOf(t.log, a).at;
    ChallengedIsLive(t.log, a, n, at);
    var i: nat :| LiveIssue(t.log, a, i) && t.log[i] == Issued(a, n, at);
    var longer := t.log + [Confirmed(a, n, text, now)];
    assert forall k :: 0 <= k < |t.log| ==> longer[k] == t.log[k];
    assert Answers(longer, i, |t.log|);
  }

  lemma AcceptKeeps(t: Table, a: Address, text: string, now: real)
    requires TableInv(t)
    ensures TableInv(Accept(t, a, text, now).0)
  {
    var t' := Accept(t, a, text, now).0;
    if t' != t {
      var e := Confirmed(a, t.rows[a].nonce.value, text, now);
      forall b
        ensures RowMatches(t', b)
      {
        assert RowMatches(t, b);
        StandingSnoc(t.log, e, b);
      }
      AcceptAnswers(t, a, text, now);
      AnsweredSnoc(t.log, e);
    }
  }

  // ---------------------------------------------------------------------------
  // What a table promises
  // ---------------------------------------------------------------------------

  /**
   * A confirmed address was challenged, answered that challenge in time from the same
   * address, and has been on the list at every reconcile since the challenge went out.
   */
  lemma ConfirmedWasProven(t: Table, a: Address)
    requires TableInv(t) && a in t.rows && t.rows[a].confirmed
    ensures exists i: nat, j: nat :: Answers(t.log, i, j) && t.log[i].to == a && StaysListed(t.log, a, i, |t.log|)
  {
    assert RowMatches(t, a);
    ProvenHasConfirmation(t.log, a);
    var j :| 0 <= j < |t.log| && t.log[j].Confirmed? && t.log[j].who == a
      && StaysListed(t.log, a, j, |t.log|) && Undisturbed(t.log, a, j, |t.log|);
    var i: nat :| Answers(t.log, i, j);
    assert StaysListed(t.log, a, i, |t.log|);
  }

  /** No nonce was issued twice. */
  ghost predicate FreshNonces(log: seq<Event>) {
    forall i, j :: 0 <= i < j < |log| && log[i].Issued? && log[j].Issued? ==> log[i].nonce != log[j].nonce
  }

  /** After `k` the challenge issued at `i` is gone: superseded, used, or revoked. */
  predicate Spends(e: Event, a: Address) {
    match e
    case Issued(to, _, _) => to == a
    case Confirmed(who, _, _, _) => who == a
    case Reconciled(_) => a !in e.members
  }

  /** With fresh nonces a confirmation answers the one issue of its nonce. */
  lemma OwnIssueAnswered(log: seq<Event>, i: nat, j: nat)
    requires AllAnswered(log) && FreshNonces(log)
    requires i < |log| && j < |log| && log[i].Issued?
    ensures log[j].Confirmed? && log[j].nonce == log[i].nonce ==> Answers(log, i, j)
  {
  }

  /** A used, superseded or revoked nonce never confirms again, for anyone. */
  lemma SpentNonceNeverConfirms(log: seq<Event>, i: nat, k: nat, j: nat)
    requires AllAnswered(log) && FreshNonces(log)
    requires i < k < j < |log| && log[i].Issued? && Spends(log[k], log[i].to)
    ensures !(log[j].Confirmed? && log[j].nonce == log[i].nonce)
  {
    OwnIssueAnswered(log, i, j);
  }

  /** Each nonce confirms at most once. */
  lemma NonceConfirmsOnce(log: seq<Event>, j: nat, k: nat)
    requires AllAnswered(log) && FreshNonces(log)
    requires j < k < |log| && log[j].Confirmed? && log[k].Confirmed?
    ensures log[j].nonce != log[k].nonce
  {
    var i: nat :| Answers(log, i, j);
    SpentNonceNeverConfirms(log, i, j, k);
  }

  // ---------------------------------------------------------------------------
  // Outstanding nonces
  // ---------------------------------------------------------------------------

  /** The live challenges of one table, as (nonce, address) pairs. */
  function Outstanding(t: Table, now: real): set<(Nonce, Address)> {
    set a | a in t.rows && Stands(t.rows[a], now) :: (t.rows[a].nonce.value, a)
  }

  /**
   * Exactly the challenges issued, not superseded, used or revoked since, and not expired;
   * and never two for one address.
   */
  lemma OutstandingExact(t: Table, now: real, n: Nonce, a: Address)
    requires TableInv(t) && n != ""
    ensures (n, a) in Outstanding(t, now) <==>
      exists i: nat :: LiveIssue(t.log, a, i) && t.log[i].nonce == n && now <= t.log[i].at + NONCE_TTL_SECONDS
    ensures forall m :: (n, a) in Outstanding(t, now) && (m, a) in Outstanding(t, now) ==> m == n
  {
    assert RowMatches(t, a);
    if (n, a) in Outstanding(t, now) {
      var at := StandingOf(t.log, a).at;
      ChallengedIsLive(t.log, a, n, at);
    }
    if i: nat :| LiveIssue(t.log, a, i) && t.log[i].nonce == n && now <= t.log[i].at + NONCE_TTL_SECONDS {
      ChallengedIsLive(t.log, a, n, t.log[i].at);
    }
  }
}
