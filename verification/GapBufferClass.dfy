/**
 * `_GapBuffer` and `BrokerAuditClient.execute` (shared/audit_client.py) in the source's own
 * form: fields updated section by section, tied step by step to the protocol they implement.
 */
module GapBufferClass {
  import opened Basics
  import opened GapBuffer

  class Buffer {
    const config: Config
    var pending: seq<Ticket>
    var gapStarted: Option<int>
    var retrier: Retrier
    var heldRecord: nat
    // What the environment saw: counters and logs the source writes elsewhere.
    var accepted: nat
    var refused: nat
    var tallied: seq<Ticket>
    var threads: int
    ghost var sends: seq<Send>
    ghost var ledger: seq<Ticket>
    ghost var diskOk: bool
    ghost var drains: nat

    ghost function View(): State
      reads this
    {
      State(pending, gapStarted, retrier, accepted, refused, tallied, sends, ledger, heldRecord, diskOk, drains, threads)
    }

    constructor (config: Config)
      ensures this.config == config && View() == INITIAL
    {
      this.config := config;
      pending, gapStarted, retrier := [], None, Idle;
      heldRecord, accepted, refused, tallied := 0, 0, 0, [];
      sends, ledger, diskOk, drains, threads := [], [], true, 0, 0;
    }

    /** `_record_held`; `ok` is false when the file could not be written. */
    method RecordHeld(count: nat, ok: bool)
      modifies this`heldRecord, this`diskOk
      ensures View() == Record(old(View()), count, ok)
    {
      if ok {
        heldRecord := count;
      }
      diskOk := diskOk && ok;
    }

    /** `hold`: one critical section. */
    method HoldRow(now: int, ok: bool)
      modifies this
      ensures View() == Next(config, old(View()), Hold(now, ok))
    {
      if |pending| >= config.maxRows {
        refused := refused + 1;
        return;
      }
      pending := pending + [accepted];
      accepted := accepted + 1;
      if gapStarted.None? {
        gapStarted := Some(now);
      }
      RecordHeld(|pending|, ok);
      if retrier.Idle? {
        retrier := AtTop;
        threads := threads + 1;
      }
    }

    /** `_abandon_locked`: every queued row is tallied once, oldest first. */
    method AbandonLocked(ok: bool)
      modifies this
      ensures View() == Abandon(old(View()), ok)
    {
      while pending != []
        invariant old(tallied) + old(pending) == tallied + pending
        invariant View() == old(View()).(pending := pending, tallied := tallied)
      {
        tallied := tallied + [pending[0]];
        pending := pending[1..];
      }
      gapStarted := None;
      RecordHeld(0, ok);
    }

    /** The critical section at the top of the retry loop. False when the thread ends. */
    method RetryTop(now: int, ok: bool) returns (goOn: bool)
      requires retrier.AtTop?
      modifies this
      ensures View() == Next(config, old(View()), Top(now, ok))
      ensures goOn <==> retrier.Sending?
    {
      if pending == [] {
        gapStarted, retrier, threads := None, Idle, threads - 1;
        RecordHeld(0, ok);
        return false;
      }
      if gapStarted.Some? && now - gapStarted.value >= config.deadline {
        AbandonLocked(ok);
        retrier, threads := Idle, threads - 1;
        return false;
      }
      retrier := Sending(pending[0], false);
      goOn := true;
    }

    /** The broker stores the row being sent; nobody has been told yet. */
    method BrokerStores()
      requires retrier.Sending? && !retrier.landed
      modifies this
      ensures View() == Next(config, old(View()), Land)
    {
      ledger := ledger + [retrier.head];
      retrier := retrier.(landed := true);
    }

    /** The send returns or raises. */
    method SendEnds(outcome: Outcome)
      requires Enabled(View(), Return(outcome))
      modifies this
      ensures View() == Next(config, old(View()), Return(outcome))
    {
      var head := retrier.head;
      sends := sends + [Send(head, outcome)];
      match outcome
      case Unreachable =>
        retrier := AtTop;
      case Acked =>
        retrier := Popping(head);
      case _ =>
        tallied := tallied + [head];
        retrier := Popping(head);
    }

    /** The critical section after a finished send. */
    method RetryPop(ok: bool)
      requires retrier.Popping?
      modifies this
      ensures View() == Next(config, old(View()), Pop(ok))
    {
      if pending != [] && pending[0] == retrier.head {
        pending := pending[1..];
      }
      RecordHeld(|pending|, ok);
      retrier := AtTop;
    }

    method DrainAtExit(ok: bool)
      modifies this
      ensures View() == Next(config, old(View()), Drain(ok))
    {
      if pending != [] {
        AbandonLocked(ok);
        drains := drains + 1;
      }
    }

    /** Any stretch of the protocol, each step by the section that takes it. */
    method RunSteps(steps: seq<Step>)
      requires Follows(config, View(), steps)
      modifies this
      ensures View() == Reached(config, old(View()), steps)
    {
      ghost var start := View();
      for i := 0 to |steps|
        invariant Follows(config, start, steps[..i]) && Reached(config, start, steps[..i]) == View()
      {
        FollowsNext(config, start, steps, i);
        RunStep(steps[i]);
      }
      assert steps[..|steps|] == steps;
    }

    method RunStep(step: Step)
      requires Enabled(View(), step)
      modifies this
      ensures View() == Next(config, old(View()), step)
    {
      match step
      case Hold(now, ok) =>
        HoldRow(now, ok);
      case Top(now, ok) =>
        var _ := RetryTop(now, ok);
      case Land =>
        BrokerStores();
      case Return(outcome) =>
        SendEnds(outcome);
      case Pop(ok) =>
        RetryPop(ok);
      case Drain(ok) =>
        DrainAtExit(ok);
    }

    /** The critical sections of other threads: emitters that hold, the exit drain. */
    method RunOthers(others: seq<Step>)
      requires OthersOnly(others) && !retrier.Idle?
      modifies this
      ensures Follows(config, old(View()), others) && Reached(config, old(View()), others) == View()
      ensures retrier == old(retrier)
    {
      OthersCanRun(config, View(), others);
      RunSteps(others);
    }

    /**
     * `_retry_loop`, one turn per script entry, with the critical sections of other threads
     * wherever the lock is free: before the turn, while the send is out (before and after the
     * broker stores the row), and before the row is taken off the queue. The thread ends only
     * with an empty queue, and the whole is a stretch of the protocol.
     */
    method RetryLoop(script: seq<Turn>) returns (ghost steps: seq<Step>)
      requires retrier.AtTop? && forall i :: 0 <= i < |script| ==> CanHappen(script[i])
      modifies this
      ensures Follows(config, old(View()), steps) && Reached(config, old(View()), steps) == View()
      ensures retrier.Idle? ==> pending == [] && gapStarted == None
      ensures retrier.Idle? || retrier.AtTop?
    {
      steps := [];
      ghost var start := View();
      for i := 0 to |script|
        invariant retrier.AtTop?
        invariant Follows(config, start, steps) && Reached(config, start, steps) == View()
      {
        ghost var at := View();
        var goOn, more := OneTurn(script[i]);
        steps := ExtendAll(config, start, steps, at, more);
        if !goOn {
          return;
        }
      }
    }

    /** One turn; false when the thread ends. */
    method OneTurn(turn: Turn) returns (goOn: bool, ghost steps: seq<Step>)
      requires retrier.AtTop? && CanHappen(turn)
      modifies this
      ensures Follows(config, old(View()), steps) && Reached(config, old(View()), steps) == View()
      ensures if goOn then retrier.AtTop? else retrier.Idle? && pending == [] && gapStarted == None
    {
      ghost var start := View();
      RunOthers(turn.before);
      steps := Extend(config, start, turn.before, View(), Top(turn.now, turn.topOk));
      goOn := RetryTop(turn.now, turn.topOk);
      if goOn {
        ghost var at := View();
        ghost var rest := SendHead(turn);
        steps := ExtendAll(config, start, steps, at, rest);
      }
    }

    /** The rest of a turn that goes on: the send, and the row off the queue when it was answered. */
    method SendHead(turn: Turn) returns (ghost steps: seq<Step>)
      requires CanHappen(turn) && retrier.Sending? && !retrier.landed
      modifies this
      ensures Follows(config, old(View()), steps) && Reached(config, old(View()), steps) == View()
      ensures retrier.AtTop?
    {
      ghost var start := View();
      steps := SendOut(turn);
      if retrier.Popping? {
        ghost var at := View();
        ghost var popped := PopHead(turn);
        steps := ExtendAll(config, start, steps, at, popped);
      }
    }

    /** The answered row leaves the queue. */
    method PopHead(turn: Turn) returns (ghost steps: seq<Step>)
      requires CanHappen(turn) && retrier.Popping?
      modifies this
      ensures Follows(config, old(View()), steps) && Reached(config, old(View()), steps) == View()
      ensures retrier.AtTop?
    {
      ghost var start := View();
      RunOthers(turn.answered);
      steps := Extend(config, start, turn.answered, View(), Pop(turn.popOk));
      RetryPop(turn.popOk);
    }

    /** One send, from the moment the lock is released to the broker's answer. */
    method SendOut(turn: Turn) returns (ghost steps: seq<Step>)
      requires CanHappen(turn) && retrier.Sending? && !retrier.landed
      modifies this
      ensures Follows(config, old(View()), steps) && Reached(config, old(View()), steps) == View()
      ensures if turn.outcome.Unreachable? then retrier.AtTop? else retrier.Popping?
    {
      ghost var start := View();
      RunOthers(turn.sending);
      steps := ExtendAll(config, start, [], start, turn.sending);
      if turn.lands {
        steps := Extend(config, start, steps, View(), Land);
        BrokerStores();
      }
      ghost var at := View();
      RunOthers(turn.waiting);
      steps := ExtendAll(config, start, steps, at, turn.waiting);
      steps := Extend(config, start, steps, View(), Return(turn.outcome));
      SendEnds(turn.outcome);
    }
  }

  /**
   * One turn of the retry loop: what the clock and the broker answer, which writes of the held
   * count succeed, and what other threads do in each stretch where the lock is free.
   */
  datatype Turn = Turn(
    before: seq<Step>, now: int, topOk: bool,
    sending: seq<Step>, lands: bool, waiting: seq<Step>, outcome: Outcome,
    answered: seq<Step>, popOk: bool)

  predicate OthersOnly(steps: seq<Step>) {
    forall i :: 0 <= i < |steps| ==> steps[i].Hold? || steps[i].Drain?
  }

  /** An acknowledged row was stored; an unreachable broker stored nothing. */
  predicate CanHappen(turn: Turn) {
    && OthersOnly(turn.before) && OthersOnly(turn.sending) && OthersOnly(turn.waiting) && OthersOnly(turn.answered)
    && (turn.outcome.Acked? ==> turn.lands) && (turn.outcome.Unreachable? ==> !turn.lands)
  }

  /** `steps` can be taken from `s`, and where they lead. */
  ghost predicate Follows(c: Config, s: State, steps: seq<Step>)
    decreases |steps|, 0
  {
    steps == [] ||
    (Follows(c, s, steps[..|steps| - 1]) && Enabled(Reached(c, s, steps[..|steps| - 1]), steps[|steps| - 1]))
  }

  ghost function Reached(c: Config, s: State, steps: seq<Step>): State
    requires Follows(c, s, steps)
    decreases |steps|, 1
  {
    if steps == [] then s else Next(c, Reached(c, s, steps[..|steps| - 1]), steps[|steps| - 1])
  }

  lemma {:induction false} FollowsPrefix(c: Config, s: State, steps: seq<Step>, i: nat)
    requires Follows(c, s, steps) && i <= |steps|
    ensures Follows(c, s, steps[..i])
    decreases |steps| - i
  {
    if i == |steps| {
      assert steps[..i] == steps;
    } else {
      FollowsPrefix(c, s, steps, i + 1);
      assert steps[..i + 1][..i] == steps[..i];
    }
  }

  lemma FollowsNext(c: Config, s: State, steps: seq<Step>, i: nat)
    requires Follows(c, s, steps) && i < |steps|
    ensures Follows(c, s, steps[..i]) && Enabled(Reached(c, s, steps[..i]), steps[i])
    ensures Follows(c, s, steps[..i + 1]) && Reached(c, s, steps[..i + 1]) == Next(c, Reached(c, s, steps[..i]), steps[i])
  {
    FollowsPrefix(c, s, steps, i + 1);
    assert steps[..i + 1][..i] == steps[..i];
  }

  /** Emitters and the exit drain can always run, and never move a retry thread that is alive. */
  lemma {:induction false} OthersCanRun(c: Config, s: State, others: seq<Step>)
    requires OthersOnly(others) && !s.retrier.Idle?
    ensures Follows(c, s, others) && Reached(c, s, others).retrier == s.retrier
    decreases |others|
  {
    if others != [] {
      OthersCanRun(c, s, others[..|others| - 1]);
    }
  }

  ghost function Extend(c: Config, s: State, steps: seq<Step>, at: State, step: Step): (longer: seq<Step>)
    requires Follows(c, s, steps) && Reached(c, s, steps) == at && Enabled(at, step)
    ensures Follows(c, s, longer) && Reached(c, s, longer) == Next(c, at, step)
  {
    assert (steps + [step])[..|steps|] == steps;
    steps + [step]
  }

  lemma {:induction false} FollowsOn(c: Config, s: State, steps: seq<Step>, at: State, more: seq<Step>)
    requires Follows(c, s, steps) && Reached(c, s, steps) == at && Follows(c, at, more)
    ensures Follows(c, s, steps + more) && Reached(c, s, steps + more) == Reached(c, at, more)
  {
    if more == [] {
      assert steps + more == steps;
    } else {
      var n := |more| - 1;
      FollowsOn(c, s, steps, at, more[..n]);
      assert (steps + more)[..|steps + more| - 1] == steps + more[..n];
    }
  }

  ghost function ExtendAll(c: Config, s: State, steps: seq<Step>, at: State, more: seq<Step>): (longer: seq<Step>)
    requires Follows(c, s, steps) && Reached(c, s, steps) == at && Follows(c, at, more)
    ensures Follows(c, s, longer) && Reached(c, s, longer) == Reached(c, at, more)
  {
    FollowsOn(c, s, steps, at, more);
    steps + more
  }

  // ---------------------------------------------------------------------------
  // BrokerAuditClient.execute
  // ---------------------------------------------------------------------------

  const COLUMN_COUNT: nat := 12

  /** One call: how many parameters, who calls, and what a direct send would meet. */
  datatype Call = Call(params: nat, buffering: bool, isGateway: bool, direct: Outcome)

  /** What became of the row; `losses` is how many AuditWriteErrors were constructed. */
  datatype Fate = Delivered | Queued(row: Ticket) | DroppedFull | Raised(losses: nat)

  function HoldFate(c: Config, s: State): Fate {
    if |s.pending| >= c.maxRows then DroppedFull else Queued(s.accepted)
  }

  function RaisedBy(o: Outcome): Fate
    requires !o.Acked?
  {
    Raised(if o.Unexpected? then 0 else 1)
  }

  /** The buffering gateway's own path, past the parameter check. */
  predicate Buffers(call: Call) {
    call.params == COLUMN_COUNT && call.buffering && call.isGateway
  }

  /**
   * `execute`: `holding()` looks at the buffer `check`, then the lock is free (for the direct
   * send, when there is one) while other threads move the buffer on to `met`, where the row is
   * held or the call ends.
   */
  function Execute(c: Config, check: State, met: State, call: Call, now: int, ok: bool): (State, Fate) {
    if call.params != COLUMN_COUNT then (met, Raised(1))
    else if !Buffers(call) then (met, if call.direct.Acked? then Delivered else RaisedBy(call.direct))
    else if check.pending != [] then (HoldStep(c, met, now, ok), HoldFate(c, met))
    else match call.direct
      case Acked => (met, Delivered)
      case Unreachable => (HoldStep(c, met, now, ok), HoldFate(c, met))
      case o => (met, RaisedBy(o))
  }

  /** The call returns 1 to its caller. */
  predicate Returns(f: Fate) {
    !f.Raised?
  }

  /** The row has to be held, and the buffer `hold` meets is full. */
  predicate DropsQuietly(c: Config, check: State, met: State, call: Call) {
    Buffers(call) && (check.pending != [] || call.direct.Unreachable?) && |met.pending| >= c.maxRows
  }

  /**
   * The documented meaning of the return value 1 is "sent, or held". Whatever other threads do
   * between the check and the hold, it holds for every caller except one: a buffering gateway
   * whose row is not sent and whose `hold` meets a full buffer; that row is dropped.
   */
  lemma ReturnMeansSentOrHeld(c: Config, check: State, between: seq<Step>, call: Call, now: int, ok: bool)
    requires Follows(c, check, between)
    ensures var met := Reached(c, check, between);
      var (s', f) := Execute(c, check, met, call, now, ok);
      Returns(f) ==>
        ((f.Delivered? && call.direct.Acked? && s' == met)
         || (f.Queued? && f.row in s'.pending && s'.accepted == met.accepted + 1 && f.row == met.accepted)
         <==> !DropsQuietly(c, check, met, call))
  {
  }

  lemma {:induction false} OnlyHoldsGrow(c: Config, s: State, steps: seq<Step>)
    requires Follows(c, s, steps) && forall step :: step in steps ==> !step.Hold?
    ensures |Reached(c, s, steps).pending| <= |s.pending|
    decreases |steps|
  {
    if steps != [] {
      OnlyHoldsGrow(c, s, steps[..|steps| - 1]);
      assert steps[|steps| - 1] in steps;
    }
  }

  /**
   * What the buffer seen by `holding()` settles: a row is dropped only when that buffer was
   * already full, or another emitter held a row before this one could.
   */
  lemma DropNeedsFullOrRace(c: Config, check: State, between: seq<Step>, call: Call)
    requires Follows(c, check, between) && DropsQuietly(c, check, Reached(c, check, between), call)
    ensures |check.pending| >= c.maxRows || exists step :: step in between && step.Hold?
  {
    if forall step :: step in between ==> !step.Hold? {
      OnlyHoldsGrow(c, check, between);
    }
  }

  lemma {:induction false} AcceptedRises(c: Config, steps: seq<Step>, i: nat)
    requires Runs(c, steps) && i <= |steps|
    ensures Runs(c, steps[..i]) && After(c, steps[..i]).accepted <= After(c, steps).accepted
  {
    if i == |steps| {
      assert steps[..i] == steps;
    } else {
      AcceptedRises(c, steps[..|steps| - 1], i);
      assert steps[..|steps| - 1][..i] == steps[..i];
    }
  }

  /** At place `i` of a run a call's check is made, at place `j` its row is held as `row`. */
  predicate HoldsAt(c: Config, steps: seq<Step>, i: nat, j: nat, call: Call, row: Ticket)
    requires Runs(c, steps) && i <= j < |steps|
  {
    AcceptedRises(c, steps, i);
    AcceptedRises(c, steps, j);
    steps[j].Hold? &&
    Execute(c, After(c, steps[..i]), After(c, steps[..j]), call, steps[j].now, steps[j].wrote).1 == Queued(row)
  }

  /**
   * A HELD ROW IS ANSWERED FOR. At any later point of any run, the row a call held is waiting,
   * acknowledged or counted as lost: exactly one of these as long as no exit drain has run.
   */
  lemma HeldRowIsAnsweredFor(c: Config, steps: seq<Step>, i: nat, j: nat, call: Call, row: Ticket)
    requires Runs(c, steps) && i <= j < |steps| && HoldsAt(c, steps, i, j, call, row)
    ensures var s := After(c, steps);
      var times := (if Waiting(s, row) then 1 else 0) + Acks(s.sends, row) + Losses(s, row);
      1 <= times <= 2 && (NoDrain(steps) ==> times == 1)
  {
    AcceptedRises(c, steps, j);
    AcceptedRises(c, steps, j + 1);
    assert steps[..j + 1][..j] == steps[..j];
    ConservedAcrossDrains(c, steps);
    if NoDrain(steps) {
      Conserved(c, steps, row);
    }
  }

  /** A full buffer of one: the call returns 1 and the row is neither sent nor held. */
  lemma FullBufferReturnsOne()
    ensures var c := Config(1, 120);
      var s := HoldStep(c, INITIAL, 0, true);
      var (s', f) := Execute(c, s, s, Call(12, true, true, Acked), 1, true);
      Returns(f) && s'.accepted == s.accepted && s'.pending == s.pending && s'.refused == s.refused + 1
  {
  }

  /** The race: empty at the check, full when the unreachable send gives the row to `hold`. */
  lemma RaceReturnsOne()
    ensures var c, between, call := Config(1, 120), [Hold(0, true)], Call(12, true, true, Unreachable);
      && Follows(c, INITIAL, between) && INITIAL.pending == []
      && var met := Reached(c, INITIAL, between);
         var (s', f) := Execute(c, INITIAL, met, call, 1, true);
         Returns(f) && f == DroppedFull && s'.pending == met.pending && s'.accepted == met.accepted && s'.refused == 1
  {
    var c, first := Config(1, 120), Hold(0, true);
    assert [first][..0] == [];
    assert Follows(c, INITIAL, []);
    assert Reached(c, INITIAL, [first]) == HoldStep(c, INITIAL, 0, true);
  }

  /** A caller that does not buffer: no exception means the broker took the row. */
  lemma PlainReturnMeansTaken(c: Config, check: State, met: State, call: Call, now: int, ok: bool)
    requires !call.buffering || !call.isGateway
    ensures var (s', f) := Execute(c, check, met, call, now, ok);
      s' == met && (Returns(f) <==> f == Delivered) && (f == Delivered ==> call.direct.Acked?)
  {
  }

  /** One call, with whatever other threads do while the lock is free. */
  method ExecuteCall(buffer: Buffer, call: Call, between: seq<Step>, now: int, ok: bool) returns (fate: Fate)
    requires Follows(buffer.config, buffer.View(), between)
    modifies buffer
    ensures (buffer.View(), fate) ==
            Execute(buffer.config, old(buffer.View()), Reached(buffer.config, old(buffer.View()), between), call, now, ok)
  {
    var holding := buffer.pending != [];
    buffer.RunSteps(between);
    if call.params != COLUMN_COUNT {
      return Raised(1);
    }
    if !call.buffering || !call.isGateway {
      return if call.direct.Acked? then Delivered else RaisedBy(call.direct);
    }
    if holding {
      fate := HeldBy(buffer, now, ok);
      return;
    }
    match call.direct
    case Acked =>
      fate := Delivered;
    case Unreachable =>
      fate := HeldBy(buffer, now, ok);
    case o =>
      fate := RaisedBy(o);
  }

  method HeldBy(buffer: Buffer, now: int, ok: bool) returns (fate: Fate)
    modifies buffer
    ensures buffer.View() == HoldStep(buffer.config, old(buffer.View()), now, ok)
    ensures fate == HoldFate(buffer.config, old(buffer.View()))
  {
    fate := if |buffer.pending| >= buffer.config.maxRows then DroppedFull else Queued(buffer.accepted);
    buffer.HoldRow(now, ok);
  }
}
