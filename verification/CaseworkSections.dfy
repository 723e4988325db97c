/**
 * The replay register section by section (shared/casework_acts.py): a write is taken off its
 * queue under the lock, and its outcome is recorded under the lock again, with anything else
 * in between. One session; its queue may be dropped (cleared, expired, evicted) and reloaded
 * at any point between two sections.
 */
module CaseworkSections {
  import opened Basics
  import opened Casework

  /**
   * `hand`: writes taken off the present queue and not yet recorded; `past`: those taken off
   * queues since dropped. `writing`: rows of the present queue on their way to the broker.
   * `strays`: writes of dropped queues whose outcome the present queue was given.
   */
  datatype Session = Session(
    queue: Option<Queue>, hand: multiset<TaskWrite>, past: multiset<TaskWrite>,
    writing: multiset<Event>, strays: multiset<TaskWrite>)

  const QUIET: Session := Session(None, multiset{}, multiset{}, multiset{}, multiset{})

  datatype Section =
    | LoadQueue(good: seq<TaskWrite>, now: real)
    | Pop                                                        // `replay`, under the lock
    | Take                                                       // `blocked` and the post-tool hook, under the lock
    | Record(stale: bool, outcome: Outcome, session: string)     // `_record`, under the lock
    | Wrote(event: Event, taken: bool)                           // `_write` answered
    | FlushOut                                                   // `flush` takes the unwritten rows
    | DropQueue

  predicate Enabled(s: Session, step: Section) {
    match step
    case Record(stale, o, _) => o.write in (if stale then s.past else s.hand)
    case Wrote(e, _) => s.queue.Some? && e in s.writing
    case _ => true
  }

  function TakeFlying(q: Queue): Queue {
    q.(inFlight := None)
  }

  function InFlight(q: Queue): multiset<TaskWrite> {
    multiset(Flying(q))
  }

  /** The outcome joins the queue that is there now, whichever it is. */
  function RecordOn(s: Session, stale: bool, o: Outcome, session: string): Session {
    var e := EventOf(o.write, o.status, session, o.auditRef, o.reason);
    var t := if stale then s.(past := s.past - multiset{o.write}) else s.(hand := s.hand - multiset{o.write});
    if s.queue.None? then t else
      t.(queue := Some(s.queue.value.(outcomes := s.queue.value.outcomes + [o], rows := s.queue.value.rows + [e])),
         writing := s.writing + multiset{e},
         strays := if stale then s.strays + multiset{o.write} else s.strays)
  }

  function WroteOn(s: Session, e: Event, taken: bool): Session
    requires s.queue.Some?
  {
    var q := s.queue.value;
    s.(writing := s.writing - multiset{e},
       queue := Some(if taken then q.(taken := q.taken + [e]) else q.(unwritten := q.unwritten + [e])))
  }

  function Dropped(s: Session): Session {
    Session(None, multiset{}, s.past + s.hand, multiset{}, multiset{})
  }

  function Next(s: Session, step: Section): Session
    requires Enabled(s, step)
  {
    match step
    case LoadQueue(good, now) => s.(queue := Some(Enqueue(if s.queue.Some? then s.queue.value else NewQueue(now), good, now)))
    case Pop =>
      if s.queue.None? then s else s.(queue := Some(TakeNext(s.queue.value)), hand := s.hand + InFlight(s.queue.value))
    case Take =>
      if s.queue.None? then s else s.(queue := Some(TakeFlying(s.queue.value)), hand := s.hand + InFlight(s.queue.value))
    case Record(stale, o, session) => RecordOn(s, stale, o, session)
    case Wrote(e, taken) => WroteOn(s, e, taken)
    case FlushOut =>
      if s.queue.None? then s else
        s.(queue := Some(s.queue.value.(unwritten := [])), writing := s.writing + multiset(s.queue.value.unwritten))
    case DropQueue => Dropped(s)
  }

  predicate Follows(s: Session, steps: seq<Section>)
    decreases |steps|, 0
  {
    steps == [] || (Follows(s, steps[..|steps| - 1]) && Enabled(After(s, steps[..|steps| - 1]), steps[|steps| - 1]))
  }

  function After(s: Session, steps: seq<Section>): Session
    requires Follows(s, steps)
    decreases |steps|, 1
  {
    if steps == [] then s else Next(After(s, steps[..|steps| - 1]), steps[|steps| - 1])
  }

  // ---------------------------------------------------------------------------
  // Conservation
  // ---------------------------------------------------------------------------

  /** The writes handed out, or given by an earlier queue: answered for, being recorded, in flight. */
  ghost predicate HandedOut(q: Queue, hand: multiset<TaskWrite>, strays: multiset<TaskWrite>) {
    multiset(q.replayed) + strays == multiset(Writes(q.outcomes)) + hand + InFlight(q)
  }

  /** One row per outcome: with the broker, kept, or on its way. */
  ghost predicate RowsOnTheirWay(q: Queue, writing: multiset<Event>) {
    && |q.rows| == |q.outcomes|
    && (forall i :: 0 <= i < |q.rows| ==> Describes(q.rows[i], q.outcomes[i]))
    && multiset(q.rows) == multiset(q.taken) + multiset(q.unwritten) + writing
  }

  ghost predicate Accounted(s: Session) {
    if s.queue.None? then s.hand == multiset{} && s.writing == multiset{} && s.strays == multiset{}
    else
      && s.queue.value.accepted == s.queue.value.replayed + s.queue.value.pending
      && |s.queue.value.pending| <= MAX_QUEUE
      && HandedOut(s.queue.value, s.hand, s.strays) && RowsOnTheirWay(s.queue.value, s.writing)
  }

  lemma LoadAccounts(s: Session, good: seq<TaskWrite>, now: real)
    requires Accounted(s)
    ensures Accounted(Next(s, LoadQueue(good, now)))
  {
    var q := if s.queue.Some? then s.queue.value else NewQueue(now);
    var t := Taken(q, good);
    assert (q.replayed + q.pending) + t == q.replayed + (q.pending + t);
  }

  lemma OneHandedOut<T>(out: multiset<T>, strays: multiset<T>, done: multiset<T>, hand: multiset<T>, flying: multiset<T>, x: T)
    requires out + strays == done + hand + flying
    ensures (out + multiset{x}) + strays == done + (hand + flying) + multiset{x}
  {
    assert (out + multiset{x}) + strays == (out + strays) + multiset{x};
  }

  lemma OneGiven<T>(out: multiset<T>, strays: multiset<T>, done: multiset<T>, hand: multiset<T>, flying: multiset<T>, x: T)
    requires out + strays == done + hand + flying
    ensures out + (strays + multiset{x}) == (done + multiset{x}) + hand + flying
  {
    assert out + (strays + multiset{x}) == (out + strays) + multiset{x};
  }

  lemma PopHandsOut(q: Queue, hand: multiset<TaskWrite>, strays: multiset<TaskWrite>)
    requires HandedOut(q, hand, strays) && q.accepted == q.replayed + q.pending
    ensures HandedOut(TakeNext(q), hand + InFlight(q), strays)
    ensures TakeNext(q).accepted == TakeNext(q).replayed + TakeNext(q).pending
  {
    if q.pending != [] {
      assert q.replayed + q.pending == (q.replayed + [q.pending[0]]) + q.pending[1..];
      assert InFlight(TakeNext(q)) == multiset{q.pending[0]};
      OneHandedOut(multiset(q.replayed), strays, multiset(Writes(q.outcomes)), hand, InFlight(q), q.pending[0]);
    }
  }

  lemma PopAccounts(s: Session, step: Section)
    requires Accounted(s) && (step.Pop? || step.Take?)
    ensures Accounted(Next(s, step))
  {
    if s.queue.Some? && step.Pop? {
      PopHandsOut(s.queue.value, s.hand, s.strays);
    }
  }

  lemma OneMoves<T>(total: multiset<T>, done: multiset<T>, hand: multiset<T>, rest: multiset<T>, x: T)
    requires total == done + hand + rest && x in hand
    ensures total == (done + multiset{x}) + (hand - multiset{x}) + rest
  {
    assert hand == multiset{x} + (hand - multiset{x});
  }

  lemma RecordHandsOut(q: Queue, o: Outcome, r: Queue, hand: multiset<TaskWrite>, strays: multiset<TaskWrite>)
    requires HandedOut(q, hand, strays) && r.outcomes == q.outcomes + [o] && r.replayed == q.replayed && r.inFlight == q.inFlight
    ensures o.write in hand ==> HandedOut(r, hand - multiset{o.write}, strays)
    ensures HandedOut(r, hand, strays + multiset{o.write})
  {
    WritesSnoc(q.outcomes, o);
    assert multiset(Writes(r.outcomes)) == multiset(Writes(q.outcomes)) + multiset{o.write};
    OneGiven(multiset(q.replayed), strays, multiset(Writes(q.outcomes)), hand, InFlight(q), o.write);
    if o.write in hand {
      OneMoves(multiset(q.replayed) + strays, multiset(Writes(q.outcomes)), hand, InFlight(q), o.write);
    }
  }

  lemma RecordRows(s: Session, stale: bool, o: Outcome, session: string)
    requires s.queue.Some? && RowsOnTheirWay(s.queue.value, s.writing)
    ensures var r := RecordOn(s, stale, o, session);
      RowsOnTheirWay(r.queue.value, r.writing)
  {
    var q, e := s.queue.value, EventOf(o.write, o.status, session, o.auditRef, o.reason);
    var sent := multiset(q.taken) + multiset(q.unwritten);
    assert multiset(q.rows + [e]) == multiset(q.rows) + multiset{e};
    assert (sent + s.writing) + multiset{e} == sent + (s.writing + multiset{e});
  }

  lemma RecordAccounts(s: Session, stale: bool, o: Outcome, session: string)
    requires Accounted(s) && Enabled(s, Record(stale, o, session))
    ensures Accounted(RecordOn(s, stale, o, session))
  {
    if s.queue.Some? {
      RecordRows(s, stale, o, session);
      RecordHandsOut(s.queue.value, o, RecordOn(s, stale, o, session).queue.value, s.hand, s.strays);
    }
  }

  lemma RowArrives<T>(rows: multiset<T>, taken: multiset<T>, kept: multiset<T>, writing: multiset<T>, e: T)
    requires rows == taken + kept + writing && e in writing
    ensures rows == (taken + multiset{e}) + kept + (writing - multiset{e})
    ensures rows == taken + (kept + multiset{e}) + (writing - multiset{e})
  {
    assert writing == multiset{e} + (writing - multiset{e});
  }

  lemma WroteRows(q: Queue, writing: multiset<Event>, e: Event, taken: bool)
    requires RowsOnTheirWay(q, writing) && e in writing
    ensures RowsOnTheirWay(if taken then q.(taken := q.taken + [e]) else q.(unwritten := q.unwritten + [e]), writing - multiset{e})
  {
    RowArrives(multiset(q.rows), multiset(q.taken), multiset(q.unwritten), writing, e);
  }

  lemma WroteAccounts(s: Session, e: Event, taken: bool)
    requires Accounted(s) && Enabled(s, Wrote(e, taken))
    ensures Accounted(WroteOn(s, e, taken))
  {
    WroteRows(s.queue.value, s.writing, e, taken);
  }

  lemma StepAccounts(s: Session, step: Section)
    requires Accounted(s) && Enabled(s, step)
    ensures Accounted(Next(s, step))
  {
    match step
    case LoadQueue(good, now) => LoadAccounts(s, good, now);
    case Pop => PopAccounts(s, step);
    case Take => PopAccounts(s, step);
    case Record(stale, o, session) => RecordAccounts(s, stale, o, session);
    case Wrote(e, taken) => WroteAccounts(s, e, taken);
    case _ =>
  }

  /**
   * EVERY INTERLEAVING. Between any two sections, however operations overlap and whenever the
   * queue is dropped or reloaded: the writes are handed out in the order they were taken in;
   * those handed out, with those given by earlier queues, are the ones answered for, being
   * recorded and in flight; and each outcome has one row, with the broker, kept or on its way.
   */
  lemma {:induction false} EverySectionAccounts(steps: seq<Section>)
    requires Follows(QUIET, steps)
    ensures Accounted(After(QUIET, steps))
    decreases |steps|
  {
    if steps != [] {
      EverySectionAccounts(steps[..|steps| - 1]);
      StepAccounts(After(QUIET, steps[..|steps| - 1]), steps[|steps| - 1]);
    }
  }

  /** Whenever the queue is dropped, no write is between being taken off it and being recorded. */
  ghost predicate DropsIdle(steps: seq<Section>)
    requires Follows(QUIET, steps)
    decreases |steps|
  {
    steps != [] ==>
      && DropsIdle(steps[..|steps| - 1])
      && (steps[|steps| - 1].DropQueue? ==> After(QUIET, steps[..|steps| - 1]).hand == multiset{})
  }

  lemma {:induction false} NoStrays(steps: seq<Section>)
    requires Follows(QUIET, steps) && DropsIdle(steps)
    ensures After(QUIET, steps).past == multiset{} && After(QUIET, steps).strays == multiset{}
    decreases |steps|
  {
    if steps != [] {
      NoStrays(steps[..|steps| - 1]);
    }
  }

  /**
   * CONSERVATION. If no drop falls into the middle of a recording, then whenever no recording
   * is under way the writes taken in are those handed out and then those waiting, and those
   * handed out are, as a multiset, exactly the ones answered for and in flight.
   */
  lemma ConservedBetweenRecordings(steps: seq<Section>)
    requires Follows(QUIET, steps) && DropsIdle(steps)
    requires After(QUIET, steps).queue.Some? && After(QUIET, steps).hand == multiset{}
    ensures var q := After(QUIET, steps).queue.value;
      && q.accepted == q.replayed + q.pending
      && multiset(q.replayed) == multiset(Writes(q.outcomes)) + InFlight(q)
  {
    EverySectionAccounts(steps);
    NoStrays(steps);
    NothingMoving(After(QUIET, steps).queue.value);
  }

  lemma NothingMoving(q: Queue)
    ensures HandedOut(q, multiset{}, multiset{}) <==> multiset(q.replayed) == multiset(Writes(q.outcomes)) + InFlight(q)
  {
    var done := multiset(Writes(q.outcomes));
    assert multiset(q.replayed) + multiset{} == multiset(q.replayed) && done + multiset{} == done;
  }

  // ---------------------------------------------------------------------------
  // What overlapping costs
  // ---------------------------------------------------------------------------

  function OneWaiting(w: TaskWrite, now: real): Queue {
    NewQueue(now).(pending := [w], accepted := [w])
  }

  function OneFlying(w: TaskWrite, now: real): Queue {
    NewQueue(now).(inFlight := Some(w), accepted := [w], replayed := [w])
  }

  lemma LoadsOne(w: TaskWrite, now: real)
    ensures Next(QUIET, LoadQueue([w], now)) == QUIET.(queue := Some(OneWaiting(w, now)))
  {
    assert [] + [w] == [w];
  }

  lemma PopsOne(w: TaskWrite, now: real)
    ensures Next(QUIET.(queue := Some(OneWaiting(w, now))), Pop) == QUIET.(queue := Some(OneFlying(w, now)))
  {
    assert InFlight(OneWaiting(w, now)) == multiset{};
    assert [w][1..] == [] && [] + [w] == [w];
  }

  lemma TakesOne(w: TaskWrite, now: real)
    ensures Next(Next(QUIET.(queue := Some(OneFlying(w, now))), Take), DropQueue) == QUIET.(past := multiset{w})
  {
    assert InFlight(OneFlying(w, now)) == multiset{w};
    assert multiset{} + multiset{w} == multiset{w};
  }

  /** A write taken off its queue just before the queue is dropped. */
  lemma TakenThenDropped(w: TaskWrite, now: real)
    ensures Next(Next(Next(Next(QUIET, LoadQueue([w], now)), Pop), Take), DropQueue) == QUIET.(past := multiset{w})
  {
    LoadsOne(w, now);
    PopsOne(w, now);
    TakesOne(w, now);
  }

  /** Reloaded in the middle of that recording, the queue answers for a write it never took in. */
  lemma StrayOutcome(w: TaskWrite, now: real)
    ensures var s := Next(Next(Next(Next(QUIET, LoadQueue([w], now)), Pop), Take), DropQueue);
      var reloaded, record := Next(s, LoadQueue([], now)), Record(true, Fail(w, UPDATE_FAILED), "s");
      && Enabled(reloaded, record) && Next(reloaded, record).queue.Some?
      && Next(reloaded, record).queue.value.accepted == []
      && Next(reloaded, record).queue.value.outcomes == [Fail(w, UPDATE_FAILED)]
  {
    TakenThenDropped(w, now);
  }

  // ---------------------------------------------------------------------------
  // Operations one at a time
  // ---------------------------------------------------------------------------

  /** Undisturbed, the sections of `replay` make the queue of the one-step operation. */
  lemma ReplayIsSections(s: Session, session: string, ok: bool)
    requires s.queue.Some? && s.hand == multiset{} && s.writing == multiset{}
    ensures var q := s.queue.value;
      var popped := Next(s, Pop);
      var settled := if q.inFlight.None? then popped else Settled(popped, Fail(q.inFlight.value, NO_OUTCOME), session, ok);
      settled == s.(queue := Some(ReplayQueue(q, session, ok)))
  {
    var q := s.queue.value;
    if q.inFlight.Some? {
      assert InFlight(q) == multiset{q.inFlight.value};
    }
  }

  /** A recording and its answered row, with nothing in between. */
  function Settled(s: Session, o: Outcome, session: string, ok: bool): Session
    requires s.queue.Some? && o.write in s.hand
  {
    WroteOn(RecordOn(s, false, o, session), EventOf(o.write, o.status, session, o.auditRef, o.reason), ok)
  }

  /** Likewise `blocked` and the post-tool hook. */
  lemma SettleIsSections(s: Session, o: Outcome, session: string, ok: bool)
    requires s.queue.Some? && s.hand == multiset{} && s.writing == multiset{} && s.queue.value.inFlight == Some(o.write)
    ensures Settled(Next(s, Take), o, session, ok) == s.(queue := Some(SettleQueue(s.queue.value, o, session, ok)))
  {
    assert InFlight(s.queue.value) == multiset{o.write};
  }
}
