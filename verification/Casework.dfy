/**
 * The casework replay register (shared/casework_acts.py): per-session queues of task writes
 * that replace the model's arguments. Broker answers, clock readings and the ledger's key
 * derivation are inputs.
 */
module Casework {
  import opened Basics

  const UPDATE_TASK_TOOL: string := "mcp_smokeball_update_task"
  const TTL_SECONDS: real := 1800.0
  const MAX_SESSIONS: nat := 64
  const MAX_QUEUE: nat := 60
  const NO_OUTCOME: string := "no outcome was reported"
  const UPDATE_FAILED: string := "the task update failed"
  const UNTIED: string := "the update could not be tied to its call"

  datatype TaskWrite = TaskWrite(
    taskId: string, staffId: string, itemKey: string, matterId: string, skill: string,
    isCompleted: Option<bool>, assignees: Option<seq<string>>)

  /** The ledger's item key for a matter and a task; None where it raises. */
  type KeyOf = (string, string) -> Option<string>

  /** `valid_write` */
  predicate ValidWrite(keyOf: KeyOf, w: TaskWrite) {
    && w.taskId != "" && w.staffId != "" && w.itemKey != "" && w.skill != ""
    && keyOf(w.matterId, w.taskId) == Some(w.itemKey)
    && (w.isCompleted == Some(true)) !=
       (w.assignees.Some? && w.assignees.value != [] && forall a :: a in w.assignees.value ==> a != "")
  }

  datatype Arg = Text(t: string) | Flag(b: bool) | Names(ns: seq<string>)

  /** `tool_arguments` */
  function ToolArguments(w: TaskWrite): map<string, Arg> {
    map["task_id" := Text(w.taskId), "staff_id" := Text(w.staffId)]
    + (if w.isCompleted.Some? then map["is_completed" := Flag(w.isCompleted.value)] else map[])
    + (if w.assignees.Some? then map["assignee_ids" := Names(w.assignees.value)] else map[])
  }

  datatype Status = Completed | WriteFailed

  datatype Outcome = Outcome(write: TaskWrite, status: Status, reason: string, auditRef: string)

  /** The ledger row of one outcome; `note` is the call id or the error. */
  datatype Event = Event(write: TaskWrite, status: Status, session: string, note: string)

  /**
   * One session's queue. The last four fields are history: everything `load` took in,
   * everything handed to a live call, every outcome row made, and those the broker took.
   */
  datatype Queue = Queue(
    pending: seq<TaskWrite>, loadedAt: real, inFlight: Option<TaskWrite>,
    outcomes: seq<Outcome>, unwritten: seq<Event>,
    accepted: seq<TaskWrite>, replayed: seq<TaskWrite>, rows: seq<Event>, taken: seq<Event>)

  /** The ordered dictionary of queues: `order` lists its keys, oldest first. */
  datatype Register = Register(queues: map<string, Queue>, order: seq<string>)

  const EMPTY: Register := Register(map[], [])

  // ---------------------------------------------------------------------------
  // One queue
  // ---------------------------------------------------------------------------

  function NewQueue(now: real): Queue {
    Queue([], now, None, [], [], [], [], [], [])
  }

  function Room(q: Queue): nat {
    if |q.pending| < MAX_QUEUE then MAX_QUEUE - |q.pending| else 0
  }

  function Taken(q: Queue, good: seq<TaskWrite>): seq<TaskWrite> {
    if |good| <= Room(q) then good else good[..Room(q)]
  }

  function Enqueue(q: Queue, good: seq<TaskWrite>, now: real): Queue {
    q.(pending := q.pending + Taken(q, good), accepted := q.accepted + Taken(q, good), loadedAt := now)
  }

  /** The row's error text: never empty, at most 500 characters. */
  function ErrorNote(reason: string): string {
    var text := if reason == "" then "the task update did not complete" else reason;
    if |text| <= 500 then text else text[..500]
  }

  function EventOf(w: TaskWrite, status: Status, session: string, auditRef: string, reason: string): Event {
    Event(w, status, session, if status.Completed? then auditRef else ErrorNote(reason))
  }

  /** `_record`: one outcome, one row, and the row kept when the broker did not take it. */
  function RecordOutcome(q: Queue, o: Outcome, session: string, brokerOk: bool): Queue {
    var e := EventOf(o.write, o.status, session, o.auditRef, o.reason);
    q.(outcomes := q.outcomes + [o], rows := q.rows + [e],
       taken := if brokerOk then q.taken + [e] else q.taken,
       unwritten := if brokerOk then q.unwritten else q.unwritten + [e])
  }

  function TakeNext(q: Queue): Queue {
    if q.pending == [] then q.(inFlight := None) else
      q.(inFlight := Some(q.pending[0]), pending := q.pending[1..], replayed := q.replayed + [q.pending[0]])
  }

  function Fail(w: TaskWrite, reason: string): Outcome {
    Outcome(w, WriteFailed, reason, "")
  }

  /** `replay` on a live queue: the write left in flight fails, the next one goes out. */
  function ReplayQueue(q: Queue, session: string, brokerOk: bool): Queue {
    var next := TakeNext(q);
    if q.inFlight.Some? then RecordOutcome(next, Fail(q.inFlight.value, NO_OUTCOME), session, brokerOk) else next
  }

  /** What the post-tool hook is told about the call that just ran. */
  datatype Report = Report(callId: string, failed: bool, rawSession: string)

  function OutcomeOf(w: TaskWrite, report: Report): Outcome {
    if report.failed then Fail(w, UPDATE_FAILED)
    else if report.callId == "" then Fail(w, UNTIED)
    else Outcome(w, Completed, "", report.callId)
  }

  function SettleQueue(q: Queue, o: Outcome, session: string, brokerOk: bool): Queue {
    RecordOutcome(q.(inFlight := None), o, session, brokerOk)
  }

  /** The rows a second attempt got written, and those it did not. */
  function Picked(events: seq<Event>, answers: seq<bool>, want: bool): seq<Event>
    requires |answers| == |events|
  {
    if events == [] then [] else
      var n := |events| - 1;
      Picked(events[..n], answers[..n], want) + (if answers[n] == want then [events[n]] else [])
  }

  function FlushQueue(q: Queue, answers: seq<bool>): Queue
    requires |answers| == |q.unwritten|
  {
    q.(unwritten := Picked(q.unwritten, answers, false), taken := q.taken + Picked(q.unwritten, answers, true))
  }

  // ---------------------------------------------------------------------------
  // The queue invariant
  // ---------------------------------------------------------------------------

  function Writes(os: seq<Outcome>): seq<TaskWrite> {
    if os == [] then [] else Writes(os[..|os| - 1]) + [os[|os| - 1].write]
  }

  function Flying(q: Queue): seq<TaskWrite> {
    if q.inFlight.Some? then [q.inFlight.value] else []
  }

  /** The writes taken in are, in order: answered for, in flight, still waiting. */
  ghost predicate Conserves(q: Queue) {
    q.accepted == Writes(q.outcomes) + Flying(q) + q.pending
  }

  /** The writes handed to live calls are, in order: answered for, in flight. */
  ghost predicate ReplaysInOrder(q: Queue) {
    q.replayed == Writes(q.outcomes) + Flying(q)
  }

  ghost predicate Describes(e: Event, o: Outcome) {
    e.write == o.write && e.status == o.status && e.note == if o.status.Completed? then o.auditRef else ErrorNote(o.reason)
  }

  /** One row per outcome, each either with the broker or kept for another attempt. */
  ghost predicate RowsAccounted(q: Queue) {
    && |q.rows| == |q.outcomes|
    && (forall i :: 0 <= i < |q.rows| ==> Describes(q.rows[i], q.outcomes[i]))
    && multiset(q.rows) == multiset(q.taken) + multiset(q.unwritten)
  }

  ghost predicate QueueInv(q: Queue) {
    && Conserves(q) && ReplaysInOrder(q) && RowsAccounted(q)
    && |q.pending| <= MAX_QUEUE
    && (forall i :: 0 <= i < |q.outcomes| && q.outcomes[i].status.Completed? ==> q.outcomes[i].auditRef != "")
  }

  lemma WritesSnoc(os: seq<Outcome>, o: Outcome)
    ensures Writes(os + [o]) == Writes(os) + [o.write]
  {
    assert (os + [o])[..|os|] == os;
  }

  lemma EnqueueKeeps(q: Queue, good: seq<TaskWrite>, now: real)
    requires QueueInv(q)
    ensures QueueInv(Enqueue(q, good, now))
  {
    var t := Taken(q, good);
    assert Writes(q.outcomes) + Flying(q) + (q.pending + t) == (Writes(q.outcomes) + Flying(q) + q.pending) + t;
  }

  lemma RowsKept(q: Queue, o: Outcome, session: string, brokerOk: bool)
    requires RowsAccounted(q)
    ensures RowsAccounted(RecordOutcome(q, o, session, brokerOk))
  {
  }

  /** A queue whose flying write has just been replaced, before the old one is answered for. */
  ghost predicate Owes(q: Queue, w: TaskWrite) {
    && q.accepted == Writes(q.outcomes) + [w] + Flying(q) + q.pending
    && q.replayed == Writes(q.outcomes) + [w] + Flying(q)
  }

  lemma RecordPays(q: Queue, o: Outcome, session: string, brokerOk: bool)
    requires Owes(q, o.write) && RowsAccounted(q)
    ensures var r := RecordOutcome(q, o, session, brokerOk);
      Conserves(r) && ReplaysInOrder(r) && RowsAccounted(r)
  {
    WritesSnoc(q.outcomes, o);
    RowsKept(q, o, session, brokerOk);
  }

  lemma TakeNextOwes(q: Queue)
    requires Conserves(q) && ReplaysInOrder(q)
    ensures q.inFlight.Some? ==> Owes(TakeNext(q), q.inFlight.value)
    ensures q.inFlight.None? ==> Conserves(TakeNext(q)) && ReplaysInOrder(TakeNext(q))
  {
    if q.pending != [] {
      assert q.pending == [q.pending[0]] + q.pending[1..];
    }
  }

  lemma ReplayKeeps(q: Queue, session: string, brokerOk: bool)
    requires QueueInv(q)
    ensures QueueInv(ReplayQueue(q, session, brokerOk))
  {
    var next := TakeNext(q);
    TakeNextOwes(q);
    assert RowsAccounted(next);
    if q.inFlight.Some? {
      RecordPays(next, Fail(q.inFlight.value, NO_OUTCOME), session, brokerOk);
    }
  }

  lemma SettleKeeps(q: Queue, o: Outcome, session: string, brokerOk: bool)
    requires QueueInv(q) && q.inFlight == Some(o.write) && (o.status.Completed? ==> o.auditRef != "")
    ensures QueueInv(SettleQueue(q, o, session, brokerOk))
  {
    var landed := q.(inFlight := None);
    assert Flying(landed) == [] && Flying(q) == [o.write];
    assert Owes(landed, o.write);
    RecordPays(landed, o, session, brokerOk);
  }

  lemma {:induction false} PickedSplit(events: seq<Event>, answers: seq<bool>)
    requires |answers| == |events|
    ensures multiset(Picked(events, answers, true)) + multiset(Picked(events, answers, false)) == multiset(events)
  {
    if events != [] {
      var n := |events| - 1;
      PickedSplit(events[..n], answers[..n]);
      assert events == events[..n] + [events[n]];
    }
  }

  lemma FlushKeeps(q: Queue, answers: seq<bool>)
    requires QueueInv(q) && |answers| == |q.unwritten|
    ensures QueueInv(FlushQueue(q, answers))
  {
    PickedSplit(q.unwritten, answers);
  }

  // ---------------------------------------------------------------------------
  // The register
  // ---------------------------------------------------------------------------

  function Without(order: seq<string>, s: string): seq<string> {
    Filter(order, (x: string) => x != s)
  }

  function Drop(r: Register, s: string): Register {
    Register(r.queues - {s}, Without(r.order, s))
  }

  /** `_fresh`: a queue older than the TTL is gone. */
  function Expire(r: Register, s: string, now: real): Register {
    if s in r.queues && now - r.queues[s].loadedAt > TTL_SECONDS then Drop(r, s) else r
  }

  function Evict(r: Register): Register
    decreases |r.order|
  {
    if |r.order| > MAX_SESSIONS then Evict(Register(r.queues - {r.order[0]}, r.order[1..])) else r
  }

  function Put(r: Register, s: string, q: Queue): Register {
    r.(queues := r.queues[s := q])
  }

  datatype Step =
    | Load(session: string, writes: seq<TaskWrite>, now: real)
    | Replay(session: string, tool: string, now: real, brokerOk: bool)
    | Blocked(session: string, reason: string, now: real, brokerOk: bool)
    | PostTool(session: string, tool: string, report: Report, now: real, brokerOk: bool)
    | Flush(session: string, now: real, answers: seq<bool>)
    | Clear(session: string)
    | Look(session: string, now: real)   // active, pending, outcomes

  function LoadStep(keyOf: KeyOf, r: Register, s: string, writes: seq<TaskWrite>, now: real): Register {
    if s == "" then r else
      Evict(Loaded(keyOf, Expire(r, s, now), s, writes, now))
  }

  function ReplayStep(r: Register, s: string, tool: string, now: real, brokerOk: bool): Register {
    if tool != UPDATE_TASK_TOOL || s == "" then r else
      var f := Expire(r, s, now);
      if s in f.queues then Put(f, s, ReplayQueue(f.queues[s], s, brokerOk)) else f
  }

  function BlockedStep(r: Register, s: string, reason: string, now: real, brokerOk: bool): Register {
    var f := Expire(r, s, now);
    if s in f.queues && f.queues[s].inFlight.Some?
    then Put(f, s, SettleQueue(f.queues[s], Fail(f.queues[s].inFlight.value, reason), s, brokerOk)) else f
  }

  /** What the hook does to a fresh register. */
  function Reported(f: Register, s: string, report: Report, brokerOk: bool): Register {
    if s in f.queues && f.queues[s].inFlight.Some? then
      var o := OutcomeOf(f.queues[s].inFlight.value, report);
      Put(f, s, SettleQueue(f.queues[s], o, if o.status.Completed? then report.rawSession else s, brokerOk))
    else f
  }

  function PostStep(r: Register, s: string, tool: string, report: Report, now: real, brokerOk: bool): Register {
    if tool != UPDATE_TASK_TOOL || s == "" then r else Reported(Expire(r, s, now), s, report, brokerOk)
  }

  function FlushStep(r: Register, s: string, now: real, answers: seq<bool>): Register {
    if s == "" then r else
      var f := Expire(r, s, now);
      if s in f.queues && |answers| == |f.queues[s].unwritten|
      then Put(f, s, FlushQueue(f.queues[s], answers)) else f
  }

  function Next(keyOf: KeyOf, r: Register, step: Step): Register {
    match step
    case Load(s, writes, now) => LoadStep(keyOf, r, s, writes, now)
    case Replay(s, tool, now, ok) => ReplayStep(r, s, tool, now, ok)
    case Blocked(s, reason, now, ok) => BlockedStep(r, s, reason, now, ok)
    case PostTool(s, tool, report, now, ok) => PostStep(r, s, tool, report, now, ok)
    case Flush(s, now, answers) => FlushStep(r, s, now, answers)
    case Clear(s) => Drop(r, s)
    case Look(s, now) => if s == "" then r else Expire(r, s, now)
  }

  function After(keyOf: KeyOf, steps: seq<Step>): Register
    decreases |steps|
  {
    if steps == [] then EMPTY else Next(keyOf, After(keyOf, steps[..|steps| - 1]), steps[|steps| - 1])
  }

  ghost predicate RegisterInv(r: Register) {
    && Indexed(r) && |r.order| <= MAX_SESSIONS
    && (forall s :: s in r.queues ==> QueueInv(r.queues[s]))
  }

  lemma WithoutOrder(order: seq<string>, s: string)
    requires Distinct(order)
    ensures Distinct(Without(order, s))
    ensures forall x :: x in Without(order, s) <==> x in order && x != s
    ensures |Without(order, s)| <= |order|
  {
    forall x
      ensures x in Without(order, s) <==> x in order && x != s
    {
      FilterMember(order, (y: string) => y != s, x);
    }
    FilterDistinct(order, (y: string) => y != s);
  }

  lemma {:induction false} FilterDistinct<T>(s: seq<T>, keep: T -> bool)
    requires Distinct(s)
    ensures Distinct(Filter(s, keep))
  {
    if s != [] {
      var init, last := s[..|s| - 1], s[|s| - 1];
      FilterDistinct(init, keep);
      assert last !in init;
      FilterMember(init, keep, last);
    }
  }

  lemma DropKeeps(r: Register, s: string)
    requires RegisterInv(r)
    ensures RegisterInv(Drop(r, s))
  {
    WithoutOrder(r.order, s);
  }

  lemma ExpireKeeps(r: Register, s: string, now: real)
    requires RegisterInv(r)
    ensures RegisterInv(Expire(r, s, now))
  {
    DropKeeps(r, s);
  }

  lemma PutKeeps(r: Register, s: string, q: Queue)
    requires RegisterInv(r) && s in r.queues && QueueInv(q)
    ensures RegisterInv(Put(r, s, q))
  {
  }

  /** The order lists exactly the live sessions, each once. */
  ghost predicate Indexed(r: Register) {
    Distinct(r.order) && forall s :: s in r.order <==> s in r.queues
  }

  lemma DropOldest(r: Register)
    requires Indexed(r) && |r.order| > 1
    ensures var less := Register(r.queues - {r.order[0]}, r.order[1..]);
      Indexed(less) && less.order != [] && less.order[|less.order| - 1] == r.order[|r.order| - 1]
  {
    var less := r.order[1..];
    forall s
      ensures s in less <==> s in r.order && s != r.order[0]
    {
      if s in less {
        var i :| 0 <= i < |less| && less[i] == s;
        assert r.order[i + 1] == s;
      }
    }
  }

  /** Eviction only removes queues, and never the youngest. */
  lemma {:induction false} EvictRemoves(r: Register)
    requires Indexed(r)
    ensures Indexed(Evict(r)) && |Evict(r).order| <= MAX_SESSIONS
    ensures forall s :: s in Evict(r).queues ==> s in r.queues && Evict(r).queues[s] == r.queues[s]
    ensures r.order != [] ==> r.order[|r.order| - 1] in Evict(r).queues
    decreases |r.order|
  {
    if |r.order| > MAX_SESSIONS {
      DropOldest(r);
      EvictRemoves(Register(r.queues - {r.order[0]}, r.order[1..]));
    }
  }

  /** The register as `load` leaves it, before evicting. */
  function Loaded(keyOf: KeyOf, f: Register, s: string, writes: seq<TaskWrite>, now: real): Register {
    var good := Filter(writes, (w: TaskWrite) => ValidWrite(keyOf, w));
    var q := if s in f.queues then f.queues[s] else NewQueue(now);
    Register(f.queues[s := Enqueue(q, good, now)], Without(f.order, s) + [s])
  }

  lemma LoadedIndexed(keyOf: KeyOf, f: Register, s: string, writes: seq<TaskWrite>, now: real)
    requires Indexed(f)
    ensures Indexed(Loaded(keyOf, f, s, writes, now))
  {
    WithoutOrder(f.order, s);
  }

  lemma ExpireIndexed(r: Register, s: string, now: real)
    requires Indexed(r)
    ensures Indexed(Expire(r, s, now))
    ensures forall x :: x in Expire(r, s, now).queues ==> x in r.queues && Expire(r, s, now).queues[x] == r.queues[x]
  {
    WithoutOrder(r.order, s);
  }

  lemma LoadedKeeps(keyOf: KeyOf, f: Register, s: string, writes: seq<TaskWrite>, now: real)
    requires RegisterInv(f)
    ensures Indexed(Loaded(keyOf, f, s, writes, now))
    ensures forall x :: x in Loaded(keyOf, f, s, writes, now).queues ==> QueueInv(Loaded(keyOf, f, s, writes, now).queues[x])
  {
    var q := if s in f.queues then f.queues[s] else NewQueue(now);
    assert QueueInv(q);
    EnqueueKeeps(q, Filter(writes, (w: TaskWrite) => ValidWrite(keyOf, w)), now);
    LoadedIndexed(keyOf, f, s, writes, now);
  }

  lemma LoadKeeps(keyOf: KeyOf, r: Register, s: string, writes: seq<TaskWrite>, now: real)
    requires RegisterInv(r)
    ensures RegisterInv(LoadStep(keyOf, r, s, writes, now))
  {
    if s != "" {
      var f := Expire(r, s, now);
      ExpireKeeps(r, s, now);
      LoadedKeeps(keyOf, f, s, writes, now);
      EvictRemoves(Loaded(keyOf, f, s, writes, now));
    }
  }

  lemma ReplayStepKeeps(r: Register, s: string, tool: string, now: real, ok: bool)
    requires RegisterInv(r)
    ensures RegisterInv(ReplayStep(r, s, tool, now, ok))
  {
    var f := Expire(r, s, now);
    ExpireKeeps(r, s, now);
    if s in f.queues {
      ReplayKeeps(f.queues[s], s, ok);
      PutKeeps(f, s, ReplayQueue(f.queues[s], s, ok));
    }
  }

  lemma SettleStepKeeps(f: Register, s: string, o: Outcome, session: string, ok: bool)
    requires RegisterInv(f) && s in f.queues && f.queues[s].inFlight == Some(o.write)
    requires o.status.Completed? ==> o.auditRef != ""
    ensures RegisterInv(Put(f, s, SettleQueue(f.queues[s], o, session, ok)))
  {
    SettleKeeps(f.queues[s], o, session, ok);
    PutKeeps(f, s, SettleQueue(f.queues[s], o, session, ok));
  }

  lemma FlushStepKeeps(r: Register, s: string, now: real, answers: seq<bool>)
    requires RegisterInv(r)
    ensures RegisterInv(FlushStep(r, s, now, answers))
  {
    var f := Expire(r, s, now);
    ExpireKeeps(r, s, now);
    if s in f.queues && |answers| == |f.queues[s].unwritten| {
      FlushKeeps(f.queues[s], answers);
      PutKeeps(f, s, FlushQueue(f.queues[s], answers));
    }
  }

  lemma BlockedStepKeeps(r: Register, s: string, reason: string, now: real, ok: bool)
    requires RegisterInv(r)
    ensures RegisterInv(BlockedStep(r, s, reason, now, ok))
  {
    var f := Expire(r, s, now);
    ExpireKeeps(r, s, now);
    if s in f.queues && f.queues[s].inFlight.Some? {
      SettleStepKeeps(f, s, Fail(f.queues[s].inFlight.value, reason), s, ok);
    }
  }

  lemma ReportedKeeps(f: Register, s: string, report: Report, ok: bool)
    requires RegisterInv(f)
    ensures RegisterInv(Reported(f, s, report, ok))
  {
    if s in f.queues && f.queues[s].inFlight.Some? {
      var o := OutcomeOf(f.queues[s].inFlight.value, report);
      SettleStepKeeps(f, s, o, if o.status.Completed? then report.rawSession else s, ok);
    }
  }

  lemma PostStepKeeps(r: Register, s: string, tool: string, report: Report, now: real, ok: bool)
    requires RegisterInv(r)
    ensures RegisterInv(PostStep(r, s, tool, report, now, ok))
  {
    ExpireKeeps(r, s, now);
    ReportedKeeps(Expire(r, s, now), s, report, ok);
  }

  lemma StepKeeps(keyOf: KeyOf, r: Register, step: Step)
    requires RegisterInv(r)
    ensures RegisterInv(Next(keyOf, r, step))
  {
    match step
    case Load(s, writes, now) => LoadKeeps(keyOf, r, s, writes, now);
    case Clear(s) => DropKeeps(r, s);
    case Look(s, now) => ExpireKeeps(r, s, now);
    case Replay(s, tool, now, ok) => ReplayStepKeeps(r, s, tool, now, ok);
    case Flush(s, now, answers) => FlushStepKeeps(r, s, now, answers);
    case Blocked(s, reason, now, ok) => BlockedStepKeeps(r, s, reason, now, ok);
    case PostTool(s, tool, report, now, ok) => PostStepKeeps(r, s, tool, report, now, ok);
  }

  // ---------------------------------------------------------------------------
  // What the register promises
  // ---------------------------------------------------------------------------

  /**
   * EVERY RUN. After any operations on any sessions, each live queue accounts, in order, for
   * every write it took in; the writes handed out are a prefix of those; and every outcome
   * row is either with the broker or kept.
   */
  lemma {:induction false} EveryQueueAccounts(keyOf: KeyOf, steps: seq<Step>)
    ensures RegisterInv(After(keyOf, steps))
    ensures forall s :: s in After(keyOf, steps).queues ==>
      QueueInv(After(keyOf, steps).queues[s]) && After(keyOf, steps).queues[s].replayed <= After(keyOf, steps).queues[s].accepted
    decreases |steps|
  {
    if steps != [] {
      EveryQueueAccounts(keyOf, steps[..|steps| - 1]);
      StepKeeps(keyOf, After(keyOf, steps[..|steps| - 1]), steps[|steps| - 1]);
    }
  }

  lemma LoadLeavesOthers(keyOf: KeyOf, r: Register, s: string, writes: seq<TaskWrite>, now: real, other: string)
    requires Indexed(r) && other != s && other in LoadStep(keyOf, r, s, writes, now).queues
    ensures other in r.queues && LoadStep(keyOf, r, s, writes, now).queues[other] == r.queues[other]
  {
    if s != "" {
      var f := Expire(r, s, now);
      ExpireIndexed(r, s, now);
      LoadedIndexed(keyOf, f, s, writes, now);
      EvictRemoves(Loaded(keyOf, f, s, writes, now));
    }
  }

  /** A session's operations leave every other session's queue as it was, or evict it. */
  lemma SessionsNeverMix(keyOf: KeyOf, r: Register, step: Step, other: string)
    requires Indexed(r) && other != step.session
    requires other in Next(keyOf, r, step).queues
    ensures other in r.queues && Next(keyOf, r, step).queues[other] == r.queues[other]
  {
    if step.Load? {
      LoadLeavesOthers(keyOf, r, step.session, step.writes, step.now, other);
    }
  }

  /** A queue is live for a session at a time. */
  predicate Live(r: Register, s: string, now: real) {
    s != "" && s in r.queues && now - r.queues[s].loadedAt <= TTL_SECONDS
  }

  /** What the gate is told: leave the call alone, refuse it, or replay a write over it. */
  datatype Decision = Untouched | Refused | Act(write: TaskWrite)

  function Decide(r: Register, s: string, tool: string, now: real): Decision {
    if tool != UPDATE_TASK_TOOL || !Live(r, s, now) then Untouched
    else if r.queues[s].pending == [] then Refused
    else Act(r.queues[s].pending[0])
  }

  /**
   * A completed outcome appears only by the post-tool hook of the write in flight, told of a
   * success and of the call it belongs to; no operation changes or removes an earlier one.
   */
  lemma CompletedOnlyOnProof(keyOf: KeyOf, r: Register, step: Step, s: string)
    requires Indexed(r) && s in r.queues && s in Next(keyOf, r, step).queues
    requires step.session == s ==> (step.Load? ==> Live(r, s, step.now))
    ensures var q, q' := r.queues[s], Next(keyOf, r, step).queues[s];
      && q.outcomes <= q'.outcomes && |q'.outcomes| <= |q.outcomes| + 1
      && (|q'.outcomes| > |q.outcomes| && q'.outcomes[|q.outcomes|].status.Completed? ==>
          && step.PostTool? && step.session == s && step.tool == UPDATE_TASK_TOOL
          && !step.report.failed && step.report.callId != ""
          && q.inFlight == Some(q'.outcomes[|q.outcomes|].write)
          && q'.outcomes[|q.outcomes|].auditRef == step.report.callId)
  {
    if step.session != s {
      SessionsNeverMix(keyOf, r, step, s);
    } else if step.Load? {
      LoadOnLive(keyOf, r, s, step.writes, step.now);
    } else if step.Clear? {
      WithoutOrder(r.order, s);
    }
  }

  /** Loading into a live queue appends, in order, as many valid writes as there is room for. */
  lemma LoadOnLive(keyOf: KeyOf, r: Register, s: string, writes: seq<TaskWrite>, now: real)
    requires Indexed(r) && Live(r, s, now)
    ensures s in LoadStep(keyOf, r, s, writes, now).queues
    ensures LoadStep(keyOf, r, s, writes, now).queues[s] ==
            Enqueue(r.queues[s], Filter(writes, (w: TaskWrite) => ValidWrite(keyOf, w)), now)
  {
    LoadedIndexed(keyOf, r, s, writes, now);
    EvictRemoves(Loaded(keyOf, r, s, writes, now));
  }

  /**
   * THE NEXT WRITE, OR NONE. On a live queue a call is let through exactly with the first
   * accepted write not yet handed out, which is then handed out; it is refused exactly when
   * every accepted write has been handed out.
   */
  lemma ReplayHandsOutNext(r: Register, s: string, now: real, brokerOk: bool)
    requires RegisterInv(r) && Live(r, s, now)
    ensures var q, q' := r.queues[s], ReplayStep(r, s, UPDATE_TASK_TOOL, now, brokerOk).queues[s];
      && q'.accepted == q.accepted
      && (Decide(r, s, UPDATE_TASK_TOOL, now) == Refused <==> |q.replayed| == |q.accepted|)
      && (Decide(r, s, UPDATE_TASK_TOOL, now).Act? <==> |q.replayed| < |q.accepted|)
      && (|q.replayed| < |q.accepted| ==>
          && Decide(r, s, UPDATE_TASK_TOOL, now) == Act(q.accepted[|q.replayed|])
          && q'.replayed == q.replayed + [q.accepted[|q.replayed|]])
  {
    var q := r.queues[s];
    assert QueueInv(q);
    assert q.accepted == q.replayed + q.pending;
  }
}
