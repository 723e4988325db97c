/**
 * The gateway's gap buffer (shared/audit_client.py) as a protocol: emitters, one retry
 * thread, a broker that may be down or silent, the exit drain, and a kill at any point
 * between two critical sections. Every section under the lock is one atomic step; a send
 * is a stretch outside the lock during which anything else may happen.
 */
module GapBuffer {
  import opened Basics

  /** A held row's identity: its place among the rows `hold` accepted. */
  type Ticket = nat

  const MAX_ROWS: nat := 2000

  /**
   * How one send ends: the broker acknowledged; it was unreachable at connect (nothing left
   * the process); AuditWriteError (the row may or may not have landed); any other exception.
   */
  datatype Outcome = Acked | Unreachable | Ambiguous | Unexpected

  datatype Send = Send(row: Ticket, outcome: Outcome)

  /** Where the retry thread is. `landed` says the broker already stored the row being sent. */
  datatype Retrier = Idle | AtTop | Sending(head: Ticket, landed: bool) | Popping(head: Ticket)

  datatype Config = Config(maxRows: nat, deadline: nat)

  datatype State = State(
    pending: seq<Ticket>,
    gapStarted: Option<int>,
    retrier: Retrier,
    accepted: nat,         // rows `hold` has taken so far
    refused: nat,          // rows turned away, and tallied, because the buffer was full
    tallied: seq<Ticket>,  // losses recorded for accepted rows
    sends: seq<Send>,      // finished sends, in order
    ledger: seq<Ticket>,   // rows the broker stored, in order
    heldRecord: nat,       // the count on disk (0: no file)
    diskOk: bool,          // every write of that count succeeded
    drains: nat,           // exit drains that abandoned something
    threads: int)          // retry threads started and not yet ended

  const INITIAL: State := State([], None, Idle, 0, 0, [], [], [], 0, true, 0, 0)

  /** `wrote` in a step says whether its write of the held count succeeded. */
  datatype Step =
    | Hold(now: int, wrote: bool)
    | Top(now: int, wrote: bool)
    | Land
    | Return(outcome: Outcome)
    | Pop(wrote: bool)
    | Drain(wrote: bool)

  function Record(s: State, count: nat, wrote: bool): State {
    s.(heldRecord := if wrote then count else s.heldRecord, diskOk := s.diskOk && wrote)
  }

  function Abandon(s: State, wrote: bool): State {
    Record(s.(pending := [], gapStarted := None, tallied := s.tallied + s.pending), 0, wrote)
  }

  function HoldStep(c: Config, s: State, now: int, wrote: bool): State {
    if |s.pending| >= c.maxRows then s.(refused := s.refused + 1) else
      Record(s.(pending := s.pending + [s.accepted],
                accepted := s.accepted + 1,
                gapStarted := if s.gapStarted.None? then Some(now) else s.gapStarted,
                retrier := if s.retrier.Idle? then AtTop else s.retrier,
                threads := if s.retrier.Idle? then s.threads + 1 else s.threads),
             |s.pending| + 1, wrote)
  }

  function TopStep(c: Config, s: State, now: int, wrote: bool): State {
    if s.pending == [] then Record(s.(gapStarted := None, retrier := Idle, threads := s.threads - 1), 0, wrote)
    else if s.gapStarted.Some? && now - s.gapStarted.value >= c.deadline
    then Abandon(s, wrote).(retrier := Idle, threads := s.threads - 1)
    else s.(retrier := Sending(s.pending[0], false))
  }

  function ReturnStep(s: State, outcome: Outcome): State
    requires s.retrier.Sending?
  {
    var t := s.retrier.head;
    var after := s.(sends := s.sends + [Send(t, outcome)]);
    match outcome
    case Unreachable => after.(retrier := AtTop)
    case Acked => after.(retrier := Popping(t))
    case _ => after.(retrier := Popping(t), tallied := s.tallied + [t])
  }

  function PopStep(s: State, wrote: bool): State
    requires s.retrier.Popping?
  {
    var rest := if s.pending != [] && s.pending[0] == s.retrier.head then s.pending[1..] else s.pending;
    Record(s.(pending := rest, retrier := AtTop), |rest|, wrote)
  }

  function DrainStep(s: State, wrote: bool): State {
    if s.pending == [] then s else Abandon(s, wrote).(drains := s.drains + 1)
  }

  /** Which steps the threads and the broker may take. */
  predicate Enabled(s: State, step: Step) {
    match step
    case Hold(_, _) => true
    case Top(_, _) => s.retrier.AtTop?
    case Land => s.retrier.Sending? && !s.retrier.landed
    case Return(o) => s.retrier.Sending? && (o.Acked? ==> s.retrier.landed) && (o.Unreachable? ==> !s.retrier.landed)
    case Pop(_) => s.retrier.Popping?
    case Drain(_) => true
  }

  function Next(c: Config, s: State, step: Step): State
    requires Enabled(s, step)
  {
    match step
    case Hold(now, wrote) => HoldStep(c, s, now, wrote)
    case Top(now, wrote) => TopStep(c, s, now, wrote)
    case Land => s.(retrier := s.retrier.(landed := true), ledger := s.ledger + [s.retrier.head])
    case Return(o) => ReturnStep(s, o)
    case Pop(wrote) => PopStep(s, wrote)
    case Drain(wrote) => DrainStep(s, wrote)
  }

  /** `steps` can be taken one after another from the empty buffer. */
  predicate Runs(c: Config, steps: seq<Step>)
    decreases |steps|, 0
  {
    steps == [] ||
    (Runs(c, steps[..|steps| - 1]) && Enabled(After(c, steps[..|steps| - 1]), steps[|steps| - 1]))
  }

  /** The state a run ends in. */
  function After(c: Config, steps: seq<Step>): State
    requires Runs(c, steps)
    decreases |steps|, 1
  {
    if steps == [] then INITIAL else Next(c, After(c, steps[..|steps| - 1]), steps[|steps| - 1])
  }

  // ---------------------------------------------------------------------------
  // Counting what became of a row
  // ---------------------------------------------------------------------------

  function Acks(sends: seq<Send>, t: Ticket): nat {
    multiset(sends)[Send(t, Acked)]
  }

  function Losses(s: State, t: Ticket): nat {
    multiset(s.tallied)[t]
  }

  function Settled(s: State, t: Ticket): nat {
    Acks(s.sends, t) + Losses(s, t)
  }

  /** In the queue and not yet answered for. */
  predicate Waiting(s: State, t: Ticket) {
    t in s.pending && s.retrier != Popping(t)
  }

  /** The oldest row not yet taken off the queue. */
  function Low(s: State): int {
    s.accepted - |s.pending|
  }

  /** A send whose row an exit drain has meanwhile abandoned. */
  predicate Orphan(s: State) {
    s.retrier.Sending? && s.retrier.head < Low(s)
  }

  // ---------------------------------------------------------------------------
  // The invariant
  // ---------------------------------------------------------------------------

  /** The queue holds the youngest rows, in hold order, with a live retrier and a gap start. */
  ghost predicate QueueInv(c: Config, s: State) {
    && |s.pending| <= c.maxRows && |s.pending| <= s.accepted
    && (forall i :: 0 <= i < |s.pending| ==> s.pending[i] == Low(s) + i)
    && (s.pending != [] ==> !s.retrier.Idle? && s.gapStarted.Some?)
    && s.threads == (if s.retrier.Idle? then 0 else 1)
    && (s.diskOk ==> s.heldRecord == |s.pending|)
  }

  /** The row in flight is the head of the queue, or a drain took the queue from under it. */
  ghost predicate HeadInv(s: State) {
    && (s.retrier.Sending? || s.retrier.Popping? ==>
        s.retrier.head <= Low(s) && s.retrier.head < s.accepted)
    && (s.drains == 0 && (s.retrier.Sending? || s.retrier.Popping?) ==>
        s.pending != [] && s.retrier.head == Low(s))
  }

  /** Sends go through the rows in order, and only an unreachable broker is asked again. */
  ghost predicate SendsInOrder(s: State) {
    forall i, j :: 0 <= i < j < |s.sends| ==>
      && s.sends[i].row <= s.sends[j].row
      && (s.sends[i].row == s.sends[j].row ==> s.sends[i].outcome.Unreachable?)
  }

  /** Where a finished send stands against the retrier and the queue. */
  ghost predicate IsPast(s: State, x: Send) {
    && x.row < s.accepted
    && match s.retrier
       case Popping(t) => x.row <= t
       case Sending(t, _) => x.row < t || (x.row == t && x.outcome.Unreachable?)
       case _ => x.row < Low(s) || (x.row == Low(s) && x.outcome.Unreachable?)
  }

  ghost predicate SendInv(s: State) {
    SendsInOrder(s) && forall i :: 0 <= i < |s.sends| ==> IsPast(s, s.sends[i])
  }

  ghost predicate LedgerRises(s: State) {
    forall i, j :: 0 <= i < j < |s.ledger| ==> s.ledger[i] < s.ledger[j]
  }

  /** No stored row is ahead of the one being sent. */
  ghost predicate LedgerBehind(s: State) {
    forall i :: 0 <= i < |s.ledger| ==> IsBehind(s, s.ledger[i])
  }

  ghost predicate IsBehind(s: State, row: Ticket) {
    match s.retrier
    case Popping(t) => row <= t
    case Sending(t, landed) => row < t || (landed && row == t)
    case _ => row < Low(s)
  }

  ghost predicate AcksLanded(s: State) {
    forall t: Ticket :: Acks(s.sends, t) > 0 ==> t in s.ledger
  }

  /** The broker's ledger is in hold order, without duplicates, and holds every acknowledged row. */
  ghost predicate LedgerInv(s: State) {
    && LedgerRises(s) && LedgerBehind(s) && AcksLanded(s)
    && (s.retrier.Sending? && s.retrier.landed ==> s.retrier.head in s.ledger)
  }

  /** What is known of one row's fate. */
  ghost predicate FateOf(s: State, t: Ticket) {
    && (t >= s.accepted ==> Settled(s, t) == 0)
    && (t in s.pending && s.retrier != Popping(t) ==> Settled(s, t) == 0)
    && (t in s.pending && s.retrier == Popping(t) ==> Settled(s, t) == 1)
    && (t < Low(s) ==> 1 <= Settled(s, t) <= 2)
    && (t < Low(s) && s.retrier.Sending? && s.retrier.head == t ==> Settled(s, t) == 1)
    && (s.drains == 0 ==> Settled(s, t) <= 1)
  }

  ghost predicate FateInv(s: State) {
    forall t: Ticket :: FateOf(s, t)
  }

  /** Rows counted twice. */
  function Doubled(s: State): set<Ticket> {
    set t: Ticket | t < s.accepted && Settled(s, t) > 1
  }

  /** One double count per drain at most, and an orphaned send may still become one. */
  ghost predicate DoubleInv(s: State) {
    |Doubled(s)| + (if Orphan(s) then 1 else 0) <= s.drains
  }

  ghost predicate Inv(c: Config, s: State) {
    QueueInv(c, s) && HeadInv(s) && SendInv(s) && LedgerInv(s) && FateInv(s) && DoubleInv(s)
  }

  // ---------------------------------------------------------------------------
  // Preservation, one clause at a time
  // ---------------------------------------------------------------------------

  lemma QueueKeptHold(c: Config, s: State, now: int, wrote: bool)
    requires QueueInv(c, s) && HeadInv(s)
    ensures QueueInv(c, HoldStep(c, s, now, wrote)) && HeadInv(HoldStep(c, s, now, wrote))
  {
  }

  lemma QueueKeptPop(c: Config, s: State, wrote: bool)
    requires QueueInv(c, s) && HeadInv(s) && s.retrier.Popping?
    ensures QueueInv(c, PopStep(s, wrote)) && HeadInv(PopStep(s, wrote))
  {
  }

  lemma QueueKept(c: Config, s: State, step: Step)
    requires QueueInv(c, s) && HeadInv(s) && Enabled(s, step)
    ensures QueueInv(c, Next(c, s, step)) && HeadInv(Next(c, s, step))
  {
    match step
    case Hold(now, wrote) => QueueKeptHold(c, s, now, wrote);
    case Pop(wrote) => QueueKeptPop(c, s, wrote);
    case _ =>
  }

  lemma InQueue(c: Config, s: State, t: Ticket)
    requires QueueInv(c, s)
    ensures t in s.pending <==> Low(s) <= t < s.accepted
  {
    if Low(s) <= t < s.accepted {
      assert s.pending[t - Low(s)] == t;
    }
  }

  lemma QueueDistinct(c: Config, s: State, t: Ticket)
    requires QueueInv(c, s)
    ensures multiset(s.pending)[t] == if t in s.pending then 1 else 0
  {
    assert Distinct(s.pending);
    DistinctCount(s.pending, t);
  }

  /** A send that was past stays past, and the one that just ended is past too. */
  lemma PastKept(c: Config, s: State, step: Step, x: Send)
    requires QueueInv(c, s) && HeadInv(s) && IsPast(s, x) && Enabled(s, step)
    ensures IsPast(Next(c, s, step), x)
  {
  }

  lemma SendsKeptReturn(c: Config, s: State, outcome: Outcome)
    requires QueueInv(c, s) && HeadInv(s) && SendInv(s) && Enabled(s, Return(outcome))
    ensures SendInv(ReturnStep(s, outcome))
  {
    var s', x := ReturnStep(s, outcome), Send(s.retrier.head, outcome);
    assert s'.sends == s.sends + [x] && IsPast(s', x);
    forall i | 0 <= i < |s.sends|
      ensures IsPast(s', s.sends[i])
    {
      PastKept(c, s, Return(outcome), s.sends[i]);
    }
  }

  lemma SendsKept(c: Config, s: State, step: Step)
    requires QueueInv(c, s) && HeadInv(s) && SendInv(s) && Enabled(s, step)
    ensures SendInv(Next(c, s, step))
  {
    if step.Return? {
      SendsKeptReturn(c, s, step.outcome);
    } else {
      assert Next(c, s, step).sends == s.sends;
      forall i | 0 <= i < |s.sends|
        ensures IsPast(Next(c, s, step), s.sends[i])
      {
        PastKept(c, s, step, s.sends[i]);
      }
    }
  }

  lemma AcksSnoc(sends: seq<Send>, x: Send, t: Ticket)
    ensures Acks(sends + [x], t) == Acks(sends, t) + if x == Send(t, Acked) then 1 else 0
  {
  }

  lemma BehindKept(c: Config, s: State, step: Step, row: Ticket)
    requires QueueInv(c, s) && HeadInv(s) && IsBehind(s, row) && Enabled(s, step)
    ensures IsBehind(Next(c, s, step), row)
  {
  }

  lemma LedgerBehindKept(c: Config, s: State, step: Step)
    requires QueueInv(c, s) && HeadInv(s) && LedgerRises(s) && LedgerBehind(s) && Enabled(s, step)
    ensures LedgerRises(Next(c, s, step)) && LedgerBehind(Next(c, s, step))
  {
    forall i | 0 <= i < |s.ledger|
      ensures IsBehind(Next(c, s, step), s.ledger[i])
    {
      BehindKept(c, s, step, s.ledger[i]);
    }
    assert Next(c, s, step).ledger == if step.Land? then s.ledger + [s.retrier.head] else s.ledger;
  }

  lemma AcksKept(c: Config, s: State, step: Step)
    requires AcksLanded(s) && Enabled(s, step)
    requires s.retrier.Sending? && s.retrier.landed ==> s.retrier.head in s.ledger
    ensures AcksLanded(Next(c, s, step))
  {
    var s' := Next(c, s, step);
    forall t: Ticket | Acks(s'.sends, t) > 0
      ensures t in s'.ledger
    {
      if step.Return? {
        AcksSnoc(s.sends, Send(s.retrier.head, step.outcome), t);
      }
    }
  }

  lemma LedgerKept(c: Config, s: State, step: Step)
    requires QueueInv(c, s) && HeadInv(s) && LedgerInv(s) && Enabled(s, step)
    ensures LedgerInv(Next(c, s, step))
  {
    LedgerBehindKept(c, s, step);
    AcksKept(c, s, step);
  }

  /** The retrier gives the whole queue up at this step. */
  predicate GivesUp(c: Config, s: State, step: Step) {
    || step.Drain?
    || (step.Top? && s.gapStarted.Some? && step.now - s.gapStarted.value >= c.deadline)
  }

  /** How many times row `t` is answered for by one step. */
  function Answers(c: Config, s: State, step: Step, t: Ticket): nat {
    if step.Return? && !step.outcome.Unreachable? && s.retrier.Sending? && s.retrier.head == t then 1
    else if GivesUp(c, s, step) && t in s.pending then 1
    else 0
  }

  lemma SettledAfter(c: Config, s: State, step: Step, t: Ticket)
    requires QueueInv(c, s) && Enabled(s, step)
    ensures Settled(Next(c, s, step), t) == Settled(s, t) + Answers(c, s, step, t)
  {
    if step.Return? {
      AcksSnoc(s.sends, Send(s.retrier.head, step.outcome), t);
    } else if GivesUp(c, s, step) {
      QueueDistinct(c, s, t);
    }
  }

  lemma FateQuiet(c: Config, s: State, step: Step, t: Ticket)
    requires Inv(c, s) && Enabled(s, step) && !step.Return? && !GivesUp(c, s, step)
    ensures FateOf(Next(c, s, step), t)
  {
    var s' := Next(c, s, step);
    assert FateOf(s, t);
    QueueKept(c, s, step);
    InQueue(c, s, t);
    InQueue(c, s', t);
    SettledAfter(c, s, step, t);
    assert Settled(s', t) == Settled(s, t);
  }

  lemma FateReturn(c: Config, s: State, outcome: Outcome, t: Ticket)
    requires Inv(c, s) && Enabled(s, Return(outcome))
    ensures FateOf(ReturnStep(s, outcome), t)
  {
    assert FateOf(s, t);
    InQueue(c, s, t);
    SettledAfter(c, s, Return(outcome), t);
  }

  lemma FateGivesUp(c: Config, s: State, step: Step, t: Ticket)
    requires Inv(c, s) && Enabled(s, step) && GivesUp(c, s, step)
    ensures FateOf(Next(c, s, step), t)
  {
    var s' := Next(c, s, step);
    assert FateOf(s, t);
    InQueue(c, s, t);
    SettledAfter(c, s, step, t);
    assert s'.pending == [] && s'.accepted == s.accepted;
  }

  lemma FateKeptOf(c: Config, s: State, step: Step, t: Ticket)
    requires Inv(c, s) && Enabled(s, step)
    ensures FateOf(Next(c, s, step), t)
  {
    if step.Return? {
      FateReturn(c, s, step.outcome, t);
    } else if GivesUp(c, s, step) {
      FateGivesUp(c, s, step, t);
    } else {
      FateQuiet(c, s, step, t);
    }
  }

  lemma FateKept(c: Config, s: State, step: Step)
    requires Inv(c, s) && Enabled(s, step)
    ensures FateInv(Next(c, s, step))
  {
    forall t: Ticket
      ensures FateOf(Next(c, s, step), t)
    {
      FateKeptOf(c, s, step, t);
    }
  }

  /** The one row a step may count for the second time. */
  function Recounted(s: State, step: Step): set<Ticket> {
    if step.Return? && !step.outcome.Unreachable? && Orphan(s) then {s.retrier.head}
    else if step.Drain? && s.retrier.Popping? && s.retrier.head in s.pending then {s.retrier.head}
    else {}
  }

  lemma DoubledGrows(c: Config, s: State, step: Step, t: Ticket)
    requires Inv(c, s) && Enabled(s, step) && t in Doubled(Next(c, s, step))
    ensures t in Doubled(s) + Recounted(s, step)
  {
    assert FateOf(s, t);
    InQueue(c, s, t);
    SettledAfter(c, s, step, t);
  }

  lemma DoubleKept(c: Config, s: State, step: Step)
    requires Inv(c, s) && Enabled(s, step)
    ensures DoubleInv(Next(c, s, step))
  {
    var s' := Next(c, s, step);
    var extra := Recounted(s, step);
    forall t | t in Doubled(s')
      ensures t in Doubled(s) + extra
    {
      DoubledGrows(c, s, step, t);
    }
    UnionBound(Doubled(s'), Doubled(s), extra);
    QueueKept(c, s, step);
  }

  lemma UnionBound<T>(a: set<T>, b: set<T>, extra: set<T>)
    requires a <= b + extra
    ensures |a| <= |b| + |extra|
  {
    var all := b + extra;
    assert all == b + (extra - b) && |all| == |b| + |extra - b|;
    assert extra == (extra - b) + (extra * b);
    assert |extra| == |extra - b| + |extra * b|;
    assert all == a + (all - a) && |all| == |a| + |all - a|;
  }

  /** EVERY RUN. The invariant holds after any interleaving of any length. */
  lemma {:induction false} InvHolds(c: Config, steps: seq<Step>)
    requires Runs(c, steps)
    ensures Inv(c, After(c, steps))
    decreases |steps|
  {
    if steps == [] {
      assert forall t: Ticket :: Settled(INITIAL, t) == 0;
      assert Doubled(INITIAL) == {};
    } else {
      var init, last := steps[..|steps| - 1], steps[|steps| - 1];
      InvHolds(c, init);
      var s := After(c, init);
      QueueKept(c, s, last);
      SendsKept(c, s, last);
      LedgerKept(c, s, last);
      FateKept(c, s, last);
      DoubleKept(c, s, last);
    }
  }

  // ---------------------------------------------------------------------------
  // What the protocol promises
  // ---------------------------------------------------------------------------

  predicate NoDrain(steps: seq<Step>) {
    forall i :: 0 <= i < |steps| ==> !steps[i].Drain?
  }

  lemma {:induction false} NoDrainNoDrains(c: Config, steps: seq<Step>)
    requires Runs(c, steps) && NoDrain(steps)
    ensures After(c, steps).drains == 0
    decreases |steps|
  {
    if steps != [] {
      var init := steps[..|steps| - 1];
      assert forall i :: 0 <= i < |init| ==> init[i] == steps[i];
      NoDrainNoDrains(c, init);
      assert !steps[|steps| - 1].Drain?;
    }
  }

  /**
   * CONSERVATION. Until the exit drain runs, every row `hold` accepted is in exactly one of:
   * still waiting, acknowledged by the broker, counted as lost.
   */
  lemma Conserved(c: Config, steps: seq<Step>, t: Ticket)
    requires Runs(c, steps) && NoDrain(steps) && t < After(c, steps).accepted
    ensures var s := After(c, steps);
      (if Waiting(s, t) then 1 else 0) + Acks(s.sends, t) + Losses(s, t) == 1
  {
    InvHolds(c, steps);
    NoDrainNoDrains(c, steps);
    var s := After(c, steps);
    assert FateOf(s, t);
    InQueue(c, s, t);
  }

  /**
   * With exit drains: no accepted row is ever unaccounted for, none is counted more than
   * twice, and the rows counted twice are at most one per drain.
   */
  lemma ConservedAcrossDrains(c: Config, steps: seq<Step>)
    requires Runs(c, steps)
    ensures var s := After(c, steps);
      && (forall t: Ticket :: t < s.accepted ==>
          1 <= (if Waiting(s, t) then 1 else 0) + Acks(s.sends, t) + Losses(s, t) <= 2)
      && |Doubled(s)| <= s.drains
  {
    InvHolds(c, steps);
    var s := After(c, steps);
    forall t: Ticket | t < s.accepted
      ensures 1 <= (if Waiting(s, t) then 1 else 0) + Acks(s.sends, t) + Losses(s, t) <= 2
    {
      assert FateOf(s, t);
      InQueue(c, s, t);
    }
  }

  // ---------------------------------------------------------------------------
  // When a delivered row is counted as lost
  // ---------------------------------------------------------------------------

  /** Some exit drain of the run found the row still queued. */
  predicate Drained(c: Config, steps: seq<Step>, t: Ticket)
    requires Runs(c, steps)
    decreases |steps|
  {
    steps != [] &&
    var n := |steps| - 1;
    Drained(c, steps[..n], t) || (steps[n].Drain? && t in After(c, steps[..n]).pending)
  }

  /** A send of the row ended without an acknowledgement, though it may have landed. */
  predicate Botched(s: State, t: Ticket) {
    Send(t, Ambiguous) in s.sends || Send(t, Unexpected) in s.sends
  }

  lemma {:induction false} DrainedIsGone(c: Config, steps: seq<Step>, t: Ticket)
    requires Runs(c, steps) && Drained(c, steps, t)
    ensures t < Low(After(c, steps))
    decreases |steps|
  {
    var n := |steps| - 1;
    var s := After(c, steps[..n]);
    InvHolds(c, steps[..n]);
    InvHolds(c, steps);
    if Drained(c, steps[..n], t) {
      DrainedIsGone(c, steps[..n], t);
      LowRises(c, s, steps[n]);
    } else {
      InQueue(c, s, t);
    }
  }

  lemma LowRises(c: Config, s: State, step: Step)
    requires QueueInv(c, s) && Enabled(s, step)
    ensures Low(s) <= Low(Next(c, s, step))
  {
  }

  lemma BotchedIsPast(s: State, t: Ticket)
    requires SendInv(s) && Botched(s, t)
    ensures s.retrier.Idle? || s.retrier.AtTop? ==> t < Low(s)
    ensures s.retrier.Sending? ==> t < s.retrier.head
  {
    var x := if Send(t, Ambiguous) in s.sends then Send(t, Ambiguous) else Send(t, Unexpected);
    var i :| 0 <= i < |s.sends| && s.sends[i] == x;
    assert IsPast(s, s.sends[i]);
  }

  /** The row is stored, or is being sent. */
  predicate Underway(s: State, t: Ticket) {
    t in s.ledger || (s.retrier.Sending? && s.retrier.head == t)
  }

  /** A row that comes under way at a step starts clean: never drained, botched or counted. */
  lemma StartsClean(c: Config, steps: seq<Step>, t: Ticket)
    requires Runs(c, steps) && steps != []
    requires !Underway(After(c, steps[..|steps| - 1]), t) && Underway(After(c, steps), t)
    ensures var s := After(c, steps[..|steps| - 1]);
      && steps[|steps| - 1].Top? && After(c, steps).tallied == s.tallied && After(c, steps).sends == s.sends
      && Losses(s, t) == 0 && !Drained(c, steps[..|steps| - 1], t) && !Botched(s, t)
  {
    var n := |steps| - 1;
    var s := After(c, steps[..n]);
    InvHolds(c, steps[..n]);
    assert steps[n].Top? && s.pending != [] && t == s.pending[0];
    assert FateOf(s, t);
    if Drained(c, steps[..n], t) {
      DrainedIsGone(c, steps[..n], t);
    }
    if Botched(s, t) {
      BotchedIsPast(s, t);
    }
  }

  /** One step of a row under way: it is counted by a drain that finds it queued, or by its own send. */
  lemma CountedBy(c: Config, s: State, step: Step, t: Ticket)
    requires Inv(c, s) && Enabled(s, step) && Underway(s, t)
    ensures Losses(Next(c, s, step), t) > 0 <==>
            || Losses(s, t) > 0 || (step.Drain? && t in s.pending)
            || (step.Return? && s.retrier.head == t && (step.outcome.Ambiguous? || step.outcome.Unexpected?))
  {
    if t in s.ledger {
      var i :| 0 <= i < |s.ledger| && s.ledger[i] == t;
      assert IsBehind(s, s.ledger[i]);
    }
    InQueue(c, s, t);
    QueueDistinct(c, s, t);
  }

  lemma BotchedBy(c: Config, s: State, step: Step, t: Ticket)
    requires Enabled(s, step)
    ensures Botched(Next(c, s, step), t) <==>
            Botched(s, t) || (step.Return? && s.retrier.head == t && (step.outcome.Ambiguous? || step.outcome.Unexpected?))
  {
  }

  lemma {:induction false} UnderwayCountedIff(c: Config, steps: seq<Step>, t: Ticket)
    requires Runs(c, steps) && Underway(After(c, steps), t)
    ensures Losses(After(c, steps), t) > 0 <==> Drained(c, steps, t) || Botched(After(c, steps), t)
    decreases |steps|
  {
    var n := |steps| - 1;
    var s := After(c, steps[..n]);
    InvHolds(c, steps[..n]);
    if Underway(s, t) {
      UnderwayCountedIff(c, steps[..n], t);
      CountedBy(c, s, steps[n], t);
      BotchedBy(c, s, steps[n], t);
    } else {
      StartsClean(c, steps, t);
    }
  }

  /**
   * A DELIVERED ROW IS COUNTED, exactly when an exit drain found it still queued, or its send
   * ended without an acknowledgement although the broker had stored it.
   */
  lemma DeliveredCountedIff(c: Config, steps: seq<Step>, t: Ticket)
    requires Runs(c, steps) && t in After(c, steps).ledger
    ensures Losses(After(c, steps), t) > 0 <==> Drained(c, steps, t) || Botched(After(c, steps), t)
  {
    UnderwayCountedIff(c, steps, t);
  }

  /** AN ACKNOWLEDGED ROW IS COUNTED exactly when an exit drain found it still queued. */
  lemma AcknowledgedCountedIff(c: Config, steps: seq<Step>, t: Ticket)
    requires Runs(c, steps) && Acks(After(c, steps).sends, t) > 0
    ensures Losses(After(c, steps), t) > 0 <==> Drained(c, steps, t)
  {
    InvHolds(c, steps);
    var s := After(c, steps);
    DeliveredCountedIff(c, steps, t);
    assert Send(t, Acked) in multiset(s.sends);
    var i :| 0 <= i < |s.sends| && s.sends[i] == Send(t, Acked);
    forall j | 0 <= j < |s.sends| && s.sends[j].row == t
      ensures s.sends[j].outcome.Acked? || s.sends[j].outcome.Unreachable?
    {
      assert i < j || j < i || i == j;
    }
  }

  lemma RunOne(c: Config, steps: seq<Step>, step: Step)
    requires Runs(c, steps) && Enabled(After(c, steps), step)
    ensures Runs(c, steps + [step]) && After(c, steps + [step]) == Next(c, After(c, steps), step)
  {
    assert (steps + [step])[..|steps|] == steps;
  }

  /** A concrete race: the drain tallies the row whose send the broker then acknowledges. */
  lemma DrainCanDouble()
    ensures exists steps ::
      && Runs(Config(1, 120), steps)
      && var s := After(Config(1, 120), steps);
         s.drains == 1 && Acks(s.sends, 0) == 1 && Losses(s, 0) == 1
  {
    var c := Config(1, 120);
    var a: seq<Step> := [] + [Hold(0, true)];
    RunOne(c, [], Hold(0, true));
    var b := a + [Top(0, true)];
    RunOne(c, a, Top(0, true));
    var d := b + [Drain(true)];
    RunOne(c, b, Drain(true));
    assert After(c, d) == INITIAL.(accepted := 1, tallied := [0], retrier := Sending(0, false), drains := 1, threads := 1);
    var e := d + [Land];
    RunOne(c, d, Land);
    var f := e + [Return(Acked)];
    RunOne(c, e, Return(Acked));
    assert After(c, f).sends == [Send(0, Acked)] && After(c, f).tallied == [0];
  }

  /**
   * AT MOST ONCE. The broker's ledger never holds a held row twice and holds them in hold
   * order; a row is sent again only after the broker could not be reached.
   */
  lemma NeverResent(c: Config, steps: seq<Step>)
    requires Runs(c, steps)
    ensures var s := After(c, steps);
      && (forall i, j :: 0 <= i < j < |s.ledger| ==> s.ledger[i] < s.ledger[j])
      && (forall i, j :: 0 <= i < j < |s.sends| && s.sends[i].row == s.sends[j].row ==>
          s.sends[i].outcome.Unreachable?)
      && (forall i, j :: 0 <= i < j < |s.sends| && s.sends[i].outcome.Acked? && s.sends[j].outcome.Acked? ==>
          s.sends[i].row < s.sends[j].row)
      && (forall i :: 0 <= i < |s.sends| && s.sends[i].outcome.Acked? ==> s.sends[i].row in s.ledger)
  {
    InvHolds(c, steps);
    var s := After(c, steps);
    forall i | 0 <= i < |s.sends| && s.sends[i].outcome.Acked?
      ensures s.sends[i].row in s.ledger
    {
      assert s.sends[i] == Send(s.sends[i].row, Acked);
      assert s.sends[i] in multiset(s.sends);
      assert Acks(s.sends, s.sends[i].row) > 0;
    }
  }

  /**
   * However many holds come, at most one retry thread is ever alive; a queue that holds
   * anything has exactly one, and its gap start.
   */
  lemma QueueIsServed(c: Config, steps: seq<Step>)
    requires Runs(c, steps)
    ensures var s := After(c, steps);
      && 0 <= s.threads <= 1 && |s.pending| <= c.maxRows
      && (s.pending != [] ==> s.threads == 1 && !s.retrier.Idle? && s.gapStarted.Some?)
  {
    InvHolds(c, steps);
  }

  // ---------------------------------------------------------------------------
  // A kill between two critical sections
  // ---------------------------------------------------------------------------

  /** `count_rows_held_by_a_dead_gateway`: the losses the next boot records. */
  function NextBootTally(s: State): nat {
    if s.heldRecord <= MAX_ROWS then s.heldRecord else MAX_ROWS
  }

  /** Accepted rows that the kill really lost: not in the ledger and never counted. */
  function TrulyLost(s: State): set<Ticket> {
    set t: Ticket | t < s.accepted && t !in s.ledger && Losses(s, t) == 0
  }

  function QueueSet(s: State): set<Ticket> {
    set t | t in s.pending
  }

  lemma LostAreQueued(c: Config, s: State)
    requires Inv(c, s)
    ensures TrulyLost(s) <= QueueSet(s)
    ensures QueueSet(s) <= TrulyLost(s) + {Low(s)}
    ensures |QueueSet(s)| == |s.pending|
  {
    assert Distinct(s.pending);
    DistinctSize(s.pending);
    forall t: Ticket | t < s.accepted
      ensures t in TrulyLost(s) ==> t in QueueSet(s)
      ensures t in QueueSet(s) ==> t in TrulyLost(s) || t == Low(s)
    {
      assert FateOf(s, t);
      InQueue(c, s, t);
      if t in s.pending && t != Low(s) {
        assert t !in s.ledger;
      }
    }
  }

  /**
   * CRASH ACCOUNTING. If every write of the held count succeeded, a kill at any moment
   * outside a critical section is followed by a boot whose tally covers every row really
   * lost and overstates it by at most one (the row in flight).
   */
  lemma CrashAccounting(c: Config, steps: seq<Step>)
    requires Runs(c, steps) && c.maxRows <= MAX_ROWS && After(c, steps).diskOk
    ensures var s := After(c, steps);
      |TrulyLost(s)| <= NextBootTally(s) <= |TrulyLost(s)| + 1
  {
    InvHolds(c, steps);
    var s := After(c, steps);
    LostAreQueued(c, s);
    UnionBound(TrulyLost(s), QueueSet(s), {});
    UnionBound(QueueSet(s), TrulyLost(s), {Low(s)});
  }
}
