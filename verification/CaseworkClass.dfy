/**
 * `CaseworkActs` (shared/casework_acts.py) in the source's own form. Each method computes one
 * step of the register; the invariant of the register over any steps is proved there.
 */
module CaseworkClass {
  import opened Basics
  import opened Casework

  /** The live tool call's argument dictionary, which the register overwrites in place. */
  class ToolArgs {
    var entries: map<string, Arg>

    constructor (entries: map<string, Arg>)
      ensures this.entries == entries
    {
      this.entries := entries;
    }
  }

  class CaseworkActs {
    const keyOf: KeyOf
    var queues: map<string, Queue>
    var order: seq<string>

    ghost function View(): Register
      reads this
    {
      Register(queues, order)
    }

    constructor (keyOf: KeyOf)
      ensures this.keyOf == keyOf && View() == EMPTY
    {
      this.keyOf := keyOf;
      queues, order := map[], [];
    }

    method Fresh(session: string, now: real) returns (live: bool)
      modifies this
      ensures View() == Expire(old(View()), session, now)
      ensures live <==> session in queues
    {
      if session in queues && now - queues[session].loadedAt > TTL_SECONDS {
        queues := queues - {session};
        order := Without(order, session);
        return false;
      }
      live := session in queues;
    }

    /** Takes the valid writes in; returns how many are now waiting. */
    method LoadWrites(session: string, writes: seq<TaskWrite>, now: real) returns (waiting: nat)
      requires Indexed(View())
      modifies this
      ensures View() == Next(keyOf, old(View()), Load(session, writes, now))
      ensures session != "" ==> session in queues && waiting == |queues[session].pending|
    {
      if session == "" {
        return 0;
      }
      var good := Filter(writes, (w: TaskWrite) => ValidWrite(keyOf, w));
      var live := Fresh(session, now);
      ghost var current := View();
      ExpireIndexed(old(View()), session, now);
      var queue := if live then queues[session] else NewQueue(now);
      var taken := Taken(queue, good);
      queue := queue.(pending := queue.pending + taken, accepted := queue.accepted + taken, loadedAt := now);
      queues := queues[session := queue];
      order := Without(order, session) + [session];
      LoadedIndexed(keyOf, current, session, writes, now);
      ghost var loaded := View();
      assert loaded == Loaded(keyOf, current, session, writes, now);
      EvictRemoves(loaded);
      while |order| > MAX_SESSIONS
        invariant Evict(View()) == Evict(loaded)
        decreases |order|
      {
        queues := queues - {order[0]};
        order := order[1..];
      }
      waiting := |queue.pending|;
    }

    /** `_record`: the outcome, then the row, kept if the broker does not take it. */
    method RecordRow(session: string, o: Outcome, rowSession: string, brokerOk: bool)
      requires session in queues
      modifies this`queues
      ensures View() == Put(old(View()), session, RecordOutcome(old(queues[session]), o, rowSession, brokerOk))
    {
      var event := EventOf(o.write, o.status, rowSession, o.auditRef, o.reason);
      var queue := queues[session];
      queue := queue.(outcomes := queue.outcomes + [o], rows := queue.rows + [event]);
      if brokerOk {
        queue := queue.(taken := queue.taken + [event]);
      } else {
        queue := queue.(unwritten := queue.unwritten + [event]);
      }
      queues := queues[session := queue];
    }

    /**
     * The gate's question before the ceiling decides. When a write is replayed, a dictionary
     * of live arguments holds exactly that write's arguments afterwards; otherwise it is
     * untouched. `args` is null when the caller's arguments are not a dictionary.
     */
    method ReplayCall(session: string, tool: string, args: ToolArgs?, now: real, brokerOk: bool)
      returns (decision: Decision)
      modifies this, args
      ensures View() == Next(keyOf, old(View()), Replay(session, tool, now, brokerOk))
      ensures decision == Decide(old(View()), session, tool, now)
      ensures args != null ==>
        args.entries == if decision.Act? then ToolArguments(decision.write) else old(args.entries)
    {
      if tool != UPDATE_TASK_TOOL || session == "" {
        return Untouched;
      }
      var live := Fresh(session, now);
      if !live {
        return Untouched;
      }
      var queue := queues[session];
      var stale := queue.inFlight;
      if queue.pending == [] {
        decision := Refused;
        queue := queue.(inFlight := None);
      } else {
        var head := queue.pending[0];
        decision := Act(head);
        queue := queue.(pending := queue.pending[1..], inFlight := Some(head), replayed := queue.replayed + [head]);
      }
      queues := queues[session := queue];
      if stale.Some? {
        RecordRow(session, Fail(stale.value, NO_OUTCOME), session, brokerOk);
      }
      if decision.Act? && args != null {
        args.entries := ToolArguments(decision.write);
      }
    }

    method BlockedCall(session: string, reason: string, now: real, brokerOk: bool)
      modifies this
      ensures View() == Next(keyOf, old(View()), Blocked(session, reason, now, brokerOk))
    {
      var live := Fresh(session, now);
      if !live || queues[session].inFlight.None? {
        return;
      }
      var act := queues[session].inFlight.value;
      queues := queues[session := queues[session].(inFlight := None)];
      RecordRow(session, Fail(act, reason), session, brokerOk);
    }

    method OnPostTool(session: string, tool: string, report: Report, now: real, brokerOk: bool)
      modifies this
      ensures View() == Next(keyOf, old(View()), PostTool(session, tool, report, now, brokerOk))
    {
      if tool != UPDATE_TASK_TOOL || session == "" {
        return;
      }
      var live := Fresh(session, now);
      if !live || queues[session].inFlight.None? {
        return;
      }
      var act := queues[session].inFlight.value;
      queues := queues[session := queues[session].(inFlight := None)];
      if report.failed {
        RecordRow(session, Fail(act, UPDATE_FAILED), session, brokerOk);
      } else if report.callId == "" {
        RecordRow(session, Fail(act, UNTIED), session, brokerOk);
      } else {
        RecordRow(session, Outcome(act, Completed, "", report.callId), report.rawSession, brokerOk);
      }
    }

    /** Second attempt at the rows the broker did not take; `answers` are its replies. */
    method FlushRows(session: string, now: real, answers: seq<bool>) returns (left: nat)
      requires Live(View(), session, now) ==> |answers| == |queues[session].unwritten|
      modifies this
      ensures View() == Next(keyOf, old(View()), Flush(session, now, answers))
      ensures left == if Live(old(View()), session, now) then |queues[session].unwritten| else 0
    {
      if session == "" {
        return 0;
      }
      var live := Fresh(session, now);
      if !live {
        return 0;
      }
      var queue := queues[session];
      var events := queue.unwritten;
      var kept: seq<Event>, gone: seq<Event> := [], [];
      for i := 0 to |events|
        invariant kept == Picked(events[..i], answers[..i], false)
        invariant gone == Picked(events[..i], answers[..i], true)
      {
        assert events[..i + 1][..i] == events[..i] && answers[..i + 1][..i] == answers[..i];
        if answers[i] {
          gone := gone + [events[i]];
        } else {
          kept := kept + [events[i]];
        }
      }
      assert events[..|events|] == events && answers[..|events|] == answers;
      queues := queues[session := queue.(unwritten := kept, taken := queue.taken + gone)];
      left := |kept|;
    }

    method ClearSession(session: string)
      modifies this
      ensures View() == Next(keyOf, old(View()), Clear(session))
    {
      queues := queues - {session};
      order := Without(order, session);
    }

    /** Writes not yet finished, counting one in flight. */
    method PendingCount(session: string, now: real) returns (n: nat)
      requires RegisterInv(View())
      modifies this
      ensures View() == Next(keyOf, old(View()), Look(session, now))
      ensures n == if Live(old(View()), session, now)
                   then |queues[session].accepted| - |queues[session].outcomes| else 0
    {
      if session == "" {
        return 0;
      }
      var live := Fresh(session, now);
      if !live {
        return 0;
      }
      var queue := queues[session];
      n := |queue.pending| + if queue.inFlight.Some? then 1 else 0;
      assert QueueInv(queue);
      WritesLength(queue.outcomes);
    }
  }

  lemma {:induction false} WritesLength(os: seq<Casework.Outcome>)
    ensures |Writes(os)| == |os|
  {
    if os != [] {
      WritesLength(os[..|os| - 1]);
    }
  }
}
