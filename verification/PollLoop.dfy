/**
 * The config applier's apply and poll loop (config_applier/applier.py,
 * config_applier/__main__.py), and what any run of it leaves fixed. Object store, volume
 * and epoch-file faults are the inputs of each tick.
 */
module PollLoop {
  import opened Basics
  import opened ConfigTree
  import opened ConfigGate
  import opened ConfigDiff

  datatype Disk = Absent | File(data: Bytes)

  datatype EpochFile = NoEpoch | Epoch(n: int) | Garbled

  /** What one tick meets: the two HEADs, the GET, and which reads and writes succeed. */
  datatype Tick = Tick(
    seedHead: Option<string>, head: Option<string>, body: Option<Bytes>,
    readable: bool, writeOk: bool, epochReadable: bool, epochWriteOk: bool)

  /** `writes` is the history of what was written to the volume. */
  datatype Poll = Poll(disk: Disk, epochFile: EpochFile, lastEtag: Option<string>, seeded: bool, writes: seq<Bytes>)

  /** How an apply ends; Fault is ConfigApplyError. */
  datatype Result = Applied(epoch: int, changed: seq<Path>) | Rejected(changed: seq<Path>) | Held(changed: seq<Path>) | Fault

  function Parsed(env: Env, data: Bytes): Option<Value> {
    match env.parse(data) case Some(Mapping(es)) => Some(Mapping(es)) case _ => None
  }

  /** `_load_current`: the empty document only when there is no file at all. */
  function LoadCurrent(env: Env, disk: Disk, readable: bool): Option<Value> {
    match disk
    case Absent => Some(Mapping([]))
    case File(data) =>
      if !readable then None else
      match Parsed(env, data)
      case Some(v) => if v.entries == [] then None else Some(v)
      case None => None
  }

  function NextEpoch(prev: Option<int>): int {
    match prev case Some(e) => if e >= 0 then e + 1 else 1 case None => 1
  }

  function ReadEpoch(f: EpochFile, readable: bool): Option<int> {
    if readable && f.Epoch? then Some(f.n) else None
  }

  ghost function Apply(env: Env, disk: Disk, tick: Tick, prev: Option<int>): (Disk, Result) {
    if tick.body.None? then (disk, Fault)
    else if !env.valid(tick.body.value) || Parsed(env, tick.body.value).None? then (disk, Rejected([]))
    else
      var now := Parsed(env, tick.body.value).value;
      match LoadCurrent(env, disk, tick.readable)
      case None => (disk, Rejected([]))
      case Some(was) =>
        var changed := Diff(was, now, []);
        match Gate(env, was, now)
        case Deferred => (disk, Held(changed))
        case FloorRaised => (disk, Rejected(changed))
        case Proceed =>
          if !tick.writeOk then (disk, Fault)
          else (File(tick.body.value), Applied(NextEpoch(prev), changed))
  }

  function Seeded(s: Poll, tick: Tick): Poll {
    if s.seeded then s
    else if s.disk.Absent? then s.(seeded := true)
    else s.(seeded := true, lastEtag := tick.seedHead)
  }

  /** `run_once` */
  ghost function Once(env: Env, s: Poll, tick: Tick): Poll {
    var t := Seeded(s, tick);
    if tick.head.None? || tick.head == t.lastEtag then t else
      var (disk, result) := Apply(env, t.disk, tick, ReadEpoch(t.epochFile, tick.epochReadable));
      match result
      case Fault => t
      case Applied(epoch, _) =>
        t.(disk := disk, lastEtag := tick.head, writes := t.writes + [tick.body.value],
           epochFile := if tick.epochWriteOk then Epoch(epoch) else t.epochFile)
      case _ => t.(lastEtag := tick.head)
  }

  ghost function Runs(env: Env, s: Poll, ticks: seq<Tick>): Poll
    decreases |ticks|
  {
    if ticks == [] then s else Once(env, Runs(env, s, ticks[..|ticks| - 1]), ticks[|ticks| - 1])
  }

  // ---------------------------------------------------------------------------
  // The class
  // ---------------------------------------------------------------------------

  /** The loop of `_persona_exposures` over one exposure mapping. */
  method CollectExposure(env: Env, raw: seq<Entry>) returns (m: map<string, string>)
    ensures m == Collect(env, raw)
  {
    m := map[];
    for i := 0 to |raw|
      invariant m == Collect(env, raw[..i])
    {
      assert raw[..i + 1][..i] == raw[..i];
      if IsText(raw[i].value) {
        m := m[env.fold(raw[i].key) := env.fold(raw[i].value.scalar.s)];
      }
    }
    assert raw[..|raw|] == raw;
  }

  class Loop {
    const env: Env
    var disk: Disk
    var epochFile: EpochFile
    var lastEtag: Option<string>
    var seeded: bool
    ghost var writes: seq<Bytes>

    ghost function View(): Poll
      reads this
    {
      Poll(disk, epochFile, lastEtag, seeded, writes)
    }

    constructor (env: Env, disk: Disk, epochFile: EpochFile)
      ensures this.env == env && View() == Poll(disk, epochFile, None, false, [])
    {
      this.env, this.disk, this.epochFile := env, disk, epochFile;
      lastEtag, seeded, writes := None, false, [];
    }

    method SeedCache(tick: Tick)
      requires !seeded
      modifies this`seeded, this`lastEtag
      ensures View() == Seeded(old(View()), tick)
    {
      seeded := true;
      if disk.Absent? {
        return;
      }
      lastEtag := tick.seedHead;
    }

    /** `apply`: pull, validate, compare, gate, write. */
    method ApplyConfig(tick: Tick, prev: Option<int>) returns (result: Result)
      modifies this`disk, this`writes
      ensures (disk, result) == Apply(env, old(disk), tick, prev)
      ensures writes == if result.Applied? then old(writes) + [tick.body.value] else old(writes)
    {
      if tick.body.None? {
        return Fault;
      }
      var data := tick.body.value;
      if !env.valid(data) {
        return Rejected([]);
      }
      var now := Parsed(env, data);
      if now.None? {
        return Rejected([]);
      }
      var was := LoadCurrent(env, disk, tick.readable);
      if was.None? {
        return Rejected([]);
      }
      var changed := ChangedPaths(was.value, now.value, []);
      if was.value.entries != [] && !Acceptable(env.chars, changed) {
        return Held(changed);
      }
      if !FloorPreserving(env, now.value) {
        return Rejected(changed);
      }
      if !tick.writeOk {
        return Fault;
      }
      disk := File(data);
      writes := writes + [data];
      result := Applied(NextEpoch(prev), changed);
    }

    method RunOnce(tick: Tick)
      modifies this
      ensures View() == Once(env, old(View()), tick)
    {
      if !seeded {
        SeedCache(tick);
      }
      if tick.head.None? || tick.head == lastEtag {
        return;
      }
      var result := ApplyConfig(tick, ReadEpoch(epochFile, tick.epochReadable));
      if result.Fault? {
        return;
      }
      if result.Applied? && tick.epochWriteOk {
        epochFile := Epoch(result.epoch);
      }
      lastEtag := tick.head;
    }
  }

  // ---------------------------------------------------------------------------
  // Whole runs
  // ---------------------------------------------------------------------------

  /** The configuration the volume holds, when it holds a mapping. */
  function Config(env: Env, disk: Disk): Option<Value> {
    match disk case Absent => None case File(data) => Parsed(env, data)
  }

  /** What of a configuration the live path may not change. */
  function Frozen(env: Env, v: Value): Tree {
    Erase(Writable(env.chars), [], v)
  }

  /** Bytes that passed validation, parse to a mapping and respect the floors. */
  ghost predicate WellWritten(env: Env, data: Bytes) {
    env.valid(data) && Parsed(env, data).Some? && FloorPreserving(env, Parsed(env, data).value)
  }

  /** One tick writes nothing, or one well-written document with the same frozen part. */
  lemma TickFrame(env: Env, s: Poll, tick: Tick)
    ensures var s' := Once(env, s, tick);
      || (s'.disk == s.disk && s'.writes == s.writes)
      || (exists data ::
            && s'.disk == File(data) && s'.writes == s.writes + [data] && WellWritten(env, data)
            && (s.disk.Absent? ||
                (Config(env, s.disk).Some? &&
                 Frozen(env, Config(env, s.disk).value) == Frozen(env, Parsed(env, data).value))))
  {
    var t := Seeded(s, tick);
    var s' := Once(env, s, tick);
    if s'.writes != s.writes {
      var data := tick.body.value;
      var was := LoadCurrent(env, t.disk, tick.readable).value;
      var now := Parsed(env, data).value;
      assert Gate(env, was, now) == Proceed;
      if !s.disk.Absent? {
        GateFreezesTheRest(env, was, now);
      }
      assert s'.disk == File(data) && WellWritten(env, data);
    }
  }

  /** What a run that started with a stored configuration still stores. */
  ghost predicate KeepsFrozen(env: Env, first: Value, disk: Disk) {
    Config(env, disk).Some? && Frozen(env, Config(env, disk).value) == Frozen(env, first)
  }

  lemma {:induction false} RunKeepsFrozen(env: Env, s: Poll, ticks: seq<Tick>, first: Value)
    requires Config(env, s.disk) == Some(first)
    ensures KeepsFrozen(env, first, Runs(env, s, ticks).disk)
    decreases |ticks|
  {
    if ticks != [] {
      var init := ticks[..|ticks| - 1];
      RunKeepsFrozen(env, s, init, first);
      TickFrame(env, Runs(env, s, init), ticks[|ticks| - 1]);
    }
  }

  /**
   * EVERY RUN, LIVE SEAT. From a stored configuration, whatever the object store serves and
   * whatever faults occur, at every later time the volume holds a configuration equal to the
   * first one outside the live-writable subtrees; in particular every depth-one rebuild-class
   * field has the first one's value, or is absent as it was.
   */
  lemma RebuildFieldsFrozen(env: Env, s: Poll, ticks: seq<Tick>, first: Value, k: string)
    requires Config(env, s.disk) == Some(first) && TopRebuild(k)
    ensures var disk := Runs(env, s, ticks).disk;
      && KeepsFrozen(env, first, disk)
      && SameField(Get(first, k), Get(Config(env, disk).value, k))
  {
    RunKeepsFrozen(env, s, ticks, first);
    RebuildFieldsKept(env.chars, first, Config(env, Runs(env, s, ticks).disk).value, k);
  }

  /**
   * EVERY RUN, EVERY PERSONA. A seat whose personas are a list keeps that list at its length,
   * and every persona's rebuild-class field (slug, status, tone and its credentials) as it was.
   */
  lemma PersonasFrozen(env: Env, s: Poll, ticks: seq<Tick>, first: Value, ps: seq<Value>)
    requires Config(env, s.disk) == Some(first) && Get(first, "personas") == Some(Listing(ps))
    ensures Config(env, Runs(env, s, ticks).disk).Some?
    ensures var now := Config(env, Runs(env, s, ticks).disk).value;
      exists qs :: Get(now, "personas") == Some(Listing(qs)) && |qs| == |ps|
        && forall i, k :: 0 <= i < |ps| && PersonaRebuild(k) ==> SameField(Get(ps[i], k), Get(qs[i], k))
  {
    RunKeepsFrozen(env, s, ticks, first);
    var now := Config(env, Runs(env, s, ticks).disk).value;
    PersonasKept(env.chars, first, now, ps);
    var qs :| Get(now, "personas") == Some(Listing(qs)) && |qs| == |ps|
      && forall i :: 0 <= i < |ps| ==> Erase(Writable(env.chars), PersonaPath(i), ps[i]) == Erase(Writable(env.chars), PersonaPath(i), qs[i]);
    forall i, k | 0 <= i < |ps| && PersonaRebuild(k)
      ensures SameField(Get(ps[i], k), Get(qs[i], k))
    {
      PersonaFieldsKept(env.chars, i, ps[i], qs[i], k);
    }
  }

  /** A tick that writes gives a document the gate let through over the stored one. */
  lemma TickKeepsRole(env: Env, s: Poll, tick: Tick)
    requires Config(env, s.disk).Some? && MapsSeat(Config(env, s.disk).value)
    ensures var s' := Once(env, s, tick);
      || (s'.disk == s.disk && s'.writes == s.writes)
      || (exists data ::
            && s'.disk == File(data) && s'.writes == s.writes + [data] && Parsed(env, data).Some?
            && (MapsSeat(Parsed(env, data).value) ==>
                  SameField(SeatRole(Config(env, s.disk).value), SeatRole(Parsed(env, data).value))))
  {
    var t, s' := Seeded(s, tick), Once(env, s, tick);
    if s'.writes != s.writes {
      var data := tick.body.value;
      var was, now := Config(env, s.disk).value, Parsed(env, data).value;
      assert LoadCurrent(env, t.disk, tick.readable) == Some(was) && was.entries != [];
      if MapsSeat(now) {
        GateKeepsSeatRole(env, was, now);
      }
      assert s'.disk == File(data);
    }
  }

  ghost predicate SeatsMapped(env: Env, writes: seq<Bytes>) {
    forall i :: 0 <= i < |writes| ==> Parsed(env, writes[i]).Some? && MapsSeat(Parsed(env, writes[i]).value)
  }

  ghost predicate KeepsRole(env: Env, first: Value, disk: Disk) {
    && Config(env, disk).Some? && MapsSeat(Config(env, disk).value)
    && SameField(SeatRole(first), SeatRole(Config(env, disk).value))
  }

  /** EVERY RUN in which every document written maps `seat`: the seat's role stays the first one's. */
  lemma {:induction false} SeatRoleFrozen(env: Env, s: Poll, ticks: seq<Tick>, first: Value)
    requires Config(env, s.disk) == Some(first) && MapsSeat(first)
    requires SeatsMapped(env, Runs(env, s, ticks).writes)
    ensures KeepsRole(env, first, Runs(env, s, ticks).disk)
    decreases |ticks|
  {
    if ticks != [] {
      var init := ticks[..|ticks| - 1];
      var before, last := Runs(env, s, init), Runs(env, s, ticks).writes;
      EveryWriteIsGood(env, before, [ticks[|ticks| - 1]]);
      assert [ticks[|ticks| - 1]][..0] == [];
      assert Runs(env, before, [ticks[|ticks| - 1]]) == Runs(env, s, ticks);
      assert forall i :: 0 <= i < |before.writes| ==> before.writes[i] == last[i];
      SeatRoleFrozen(env, s, init, first);
      TickKeepsRole(env, before, ticks[|ticks| - 1]);
      if Runs(env, s, ticks).writes != before.writes {
        assert last[|before.writes|] in last;
      }
    }
  }

  /**
   * EVERY RUN, FRESH SEAT. The first document written is the reference for all later ones.
   */
  lemma {:induction false} FreshRunKeepsFirstWrite(env: Env, s: Poll, ticks: seq<Tick>)
    requires s.disk.Absent? && s.writes == []
    ensures var t := Runs(env, s, ticks);
      if t.writes == [] then t.disk.Absent?
      else Parsed(env, t.writes[0]).Some? && KeepsFrozen(env, Parsed(env, t.writes[0]).value, t.disk)
    decreases |ticks|
  {
    if ticks != [] {
      var init := ticks[..|ticks| - 1];
      FreshRunKeepsFirstWrite(env, s, init);
      TickFrame(env, Runs(env, s, init), ticks[|ticks| - 1]);
    }
  }

  /** Every document a run writes is valid, a mapping, and within the floors. */
  lemma {:induction false} EveryWriteIsGood(env: Env, s: Poll, ticks: seq<Tick>)
    ensures var t := Runs(env, s, ticks);
      && s.writes <= t.writes
      && (forall i :: |s.writes| <= i < |t.writes| ==> WellWritten(env, t.writes[i]))
      && (t.writes == s.writes ==> t.disk == s.disk)
      && (t.writes != s.writes ==> t.disk == File(t.writes[|t.writes| - 1]))
    decreases |ticks|
  {
    if ticks != [] {
      var init := ticks[..|ticks| - 1];
      EveryWriteIsGood(env, s, init);
      TickFrame(env, Runs(env, s, init), ticks[|ticks| - 1]);
    }
  }

  /** A stored file that is no mapping is never replaced by the live path. */
  lemma {:induction false} CorruptVolumeIsLeftAlone(env: Env, s: Poll, ticks: seq<Tick>)
    requires s.disk.File? && Config(env, s.disk).None?
    ensures Runs(env, s, ticks).disk == s.disk && Runs(env, s, ticks).writes == s.writes
    decreases |ticks|
  {
    if ticks != [] {
      CorruptVolumeIsLeftAlone(env, s, ticks[..|ticks| - 1]);
    }
  }

  // ---------------------------------------------------------------------------
  // The epoch counter
  // ---------------------------------------------------------------------------

  function Counted(f: EpochFile): nat {
    if f.Epoch? && f.n >= 0 then f.n else 0
  }

  /** While the epoch file can be read and written, it counts the writes exactly. */
  lemma {:induction false} EpochCountsWrites(env: Env, s: Poll, ticks: seq<Tick>)
    requires forall i :: 0 <= i < |ticks| ==> ticks[i].epochReadable && ticks[i].epochWriteOk
    ensures var t := Runs(env, s, ticks);
      |t.writes| >= |s.writes| && Counted(t.epochFile) == Counted(s.epochFile) + |t.writes| - |s.writes|
    decreases |ticks|
  {
    if ticks != [] {
      var init := ticks[..|ticks| - 1];
      assert forall i :: 0 <= i < |init| ==> init[i] == ticks[i];
      EpochCountsWrites(env, s, init);
    }
  }

  /** The tick applies a document. */
  ghost predicate Applies(env: Env, s: Poll, tick: Tick) {
    Once(env, s, tick).writes != s.writes
  }

  /** The epoch an apply at this tick is stamped with. */
  function Stamp(s: Poll, tick: Tick): int {
    NextEpoch(ReadEpoch(s.epochFile, tick.epochReadable))
  }

  lemma StampIsReported(env: Env, s: Poll, tick: Tick)
    requires Applies(env, s, tick)
    ensures var result := Apply(env, s.disk, tick, ReadEpoch(s.epochFile, tick.epochReadable)).1;
      result.Applied? && result.epoch == Stamp(s, tick)
    ensures Once(env, s, tick).epochFile == if tick.epochWriteOk then Epoch(Stamp(s, tick)) else s.epochFile
  {
    assert Seeded(s, tick).disk == s.disk && Seeded(s, tick).epochFile == s.epochFile;
  }

  lemma {:induction false} QuietKeepsEpoch(env: Env, s: Poll, ticks: seq<Tick>)
    requires Runs(env, s, ticks).writes == s.writes
    ensures Runs(env, s, ticks).epochFile == s.epochFile
    decreases |ticks|
  {
    if ticks != [] {
      var init, last := ticks[..|ticks| - 1], ticks[|ticks| - 1];
      EveryWriteIsGood(env, s, init);
      EveryWriteIsGood(env, Runs(env, s, init), [last]);
      assert [last][..0] == [];
      QuietKeepsEpoch(env, s, init);
    }
  }

  /**
   * CONSECUTIVE APPLIES. With any ticks in between that apply nothing, an apply is stamped
   * higher than the one before it exactly when its read of the epoch succeeds and the file has
   * moved past the earlier stamp: that stamp was persisted, or it was a 1 given because the
   * file, which held a count already, could not be read. Otherwise a stamp repeats or falls.
   */
  lemma StampRisesIff(env: Env, s: Poll, first: Tick, between: seq<Tick>, second: Tick)
    requires Applies(env, s, first)
    requires Runs(env, Once(env, s, first), between).writes == Once(env, s, first).writes
    requires Applies(env, Runs(env, Once(env, s, first), between), second)
    ensures Stamp(Runs(env, Once(env, s, first), between), second) > Stamp(s, first) <==>
            && second.epochReadable
            && (first.epochWriteOk || (!first.epochReadable && s.epochFile.Epoch? && s.epochFile.n >= 1))
  {
    StampIsReported(env, s, first);
    QuietKeepsEpoch(env, Once(env, s, first), between);
  }

  /** One apply on a live seat at epoch 5. */
  lemma SeatApplies(env: Env, was: Bytes, now: Bytes, a: bool, b: bool, tick: Tick, n: int)
    requires env.valid(now) && env.parse(was) == Some(SeatDocument(a)) && env.parse(now) == Some(SeatDocument(b))
    requires env.floors == map[]
    requires tick.head == Some(now) && tick.body == Some(now) && tick.readable && tick.writeOk && now != was
    ensures var s := Poll(File(was), Epoch(n), Some(was), true, []);
      Applies(env, s, tick) && Once(env, s, tick).disk == File(now) && Once(env, s, tick).lastEtag == Some(now)
  {
    SeatChangeProceeds(env, a, b);
  }

  /** A live seat at epoch 5 whose epoch file fails one read: the next apply is stamped 1. */
  lemma EpochCanRestart(env: Env, was: Bytes, now: Bytes)
    requires env.valid(now) && env.parse(was) == Some(SeatDocument(false)) && env.parse(now) == Some(SeatDocument(true))
    requires env.floors == map[] && now != was
    ensures var s := Poll(File(was), Epoch(5), Some(was), true, []);
      var tick := Tick(None, Some(now), Some(now), true, true, false, true);
      Applies(env, s, tick) && Once(env, s, tick).epochFile == Epoch(1)
  {
    var tick := Tick(None, Some(now), Some(now), true, true, false, true);
    SeatApplies(env, was, now, false, true, tick, 5);
    StampIsReported(env, Poll(File(was), Epoch(5), Some(was), true, []), tick);
  }

  /** A live seat at epoch 5 whose epoch file fails one write: two applies are stamped 6. */
  lemma EpochCanRepeat(env: Env, was: Bytes, now: Bytes)
    requires env.valid(now) && env.valid(was)
    requires env.parse(was) == Some(SeatDocument(false)) && env.parse(now) == Some(SeatDocument(true))
    requires env.floors == map[] && now != was
    ensures var s := Poll(File(was), Epoch(5), Some(was), true, []);
      var first := Tick(None, Some(now), Some(now), true, true, true, false);
      var second := Tick(None, Some(was), Some(was), true, true, true, true);
      var t := Once(env, s, first);
      Applies(env, s, first) && Applies(env, t, second) && Stamp(s, first) == Stamp(t, second) == 6
  {
    var s := Poll(File(was), Epoch(5), Some(was), true, []);
    var first := Tick(None, Some(now), Some(now), true, true, true, false);
    SeatApplies(env, was, now, false, true, first, 5);
    StampIsReported(env, s, first);
    SeatChangeProceeds(env, true, false);
  }
}
