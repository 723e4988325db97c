/**
 * The webhook gate's replay window (webhook_gate.py) and the trigger cooldown it hands
 * deliveries to last (shared/gate_trigger_throttle.py): tick arithmetic, the freshness check,
 * the guard's time-to-live, and the pipeline that decides what is recorded as handled.
 * Signatures, parsing, the authored policies and the forward's answer are inputs.
 */
module ReplayWindow {
  import opened Basics

  const TOLERANCE: real := 300.0
  const TTL: real := 360.0
  const TICKS_PER_SECOND: int := 10_000_000
  const EPOCH_OFFSET: int := 62_135_596_800

  /** Unix seconds of a .NET tick count, rounded down (the divisor is positive). */
  function Seconds(ticks: int): int {
    ticks / TICKS_PER_SECOND - EPOCH_OFFSET
  }

  predicate IsFresh(ts: int, now: real) {
    -TOLERANCE <= now - ts as real <= TOLERANCE
  }

  datatype Route = Smokeball | AgentMail

  /**
   * `complete`: every header, the client id and the secret are non-empty. `ticks`: the
   * timestamp header read as an integer. `signed`: the vendor's signature matches (for
   * AgentMail, the whole Svix verdict).
   */
  datatype Delivery = Delivery(route: Route, requestId: string, complete: bool, ticks: Option<int>, signed: bool)

  /** The window a delivery's (route, event type, matter) is throttled under. */
  datatype Throttle = Throttle(key: (Route, string, string), cooldown: nat)

  /** What the live configuration says about a delivery when each check runs. */
  datatype Policy = Policy(parked: bool, excluded: bool, untriggered: bool, throttle: Option<Throttle>)

  datatype Forward = Answered(status: int) | Unreachable

  /** The clock readings of one request, in the order they are taken. */
  datatype Stamps = Stamps(verify: real, seen: real, throttle: real, mark: real)

  datatype Post = Post(d: Delivery, policy: Policy, forward: Forward, at: Stamps)

  /** `seen`: request id to expiry. `windows`: throttle key to the end of its cooldown. */
  datatype Gate = Gate(seen: map<string, real>, windows: map<(Route, string, string), real>)

  const BOOT: Gate := Gate(map[], map[])

  // ---------------------------------------------------------------------------
  // One request
  // ---------------------------------------------------------------------------

  predicate SeenRecently(g: Gate, id: string, now: real) {
    id != "" && id in g.seen && g.seen[id] > now
  }

  /** `verify_smokeball_signature`; AgentMail's verdict is the input. */
  predicate Authentic(d: Delivery, now: real) {
    match d.route
    case AgentMail => d.signed
    case Smokeball =>
      d.complete && d.requestId != "" && d.ticks.Some? && IsFresh(Seconds(d.ticks.value), now) && d.signed
  }

  predicate Verified(g: Gate, d: Delivery, at: Stamps) {
    Authentic(d, at.verify) && (d.route.Smokeball? ==> !SeenRecently(g, d.requestId, at.seen))
  }

  function Unexpired(windows: map<(Route, string, string), real>, now: real): map<(Route, string, string), real> {
    map k | k in windows && windows[k] > now :: windows[k]
  }

  /** The throttle applies at all: a key to throttle under and a cooldown that is not zero. */
  predicate Throttles(p: Policy) {
    p.throttle.Some? && p.throttle.value.cooldown > 0
  }

  /** The cooldown window of this delivery is open. */
  predicate Cooling(g: Gate, p: Policy, now: real) {
    Throttles(p) && p.throttle.value.key in g.windows && g.windows[p.throttle.value.key] > now
  }

  /** The windows after the throttle's check: lapsed ones go, and a delivery let through opens one. */
  function Windows(g: Gate, p: Policy, now: real): map<(Route, string, string), real> {
    if !Throttles(p) then g.windows
    else if Cooling(g, p, now) then Unexpired(g.windows, now)
    else Unexpired(g.windows, now)[p.throttle.value.key := now + p.throttle.value.cooldown as real]
  }

  datatype Verdict = Unverified | Parked | Excluded | Untriggered | Cooled | Forwarded(status: int) | Failed

  function Decide(g: Gate, p: Post): Verdict {
    if !Verified(g, p.d, p.at) then Unverified
    else if p.policy.parked then Parked
    else if p.policy.excluded then Excluded
    else if p.policy.untriggered then Untriggered
    else if Cooling(g, p.policy, p.at.throttle) then Cooled
    else if p.forward.Answered? then Forwarded(p.forward.status)
    else Failed
  }

  /** The request reached the throttle. */
  predicate Throttled(v: Verdict) {
    v.Cooled? || v.Forwarded? || v.Failed?
  }

  /** The gate answered for the delivery: acknowledged without a wake, or forwarded with a 2xx. */
  predicate Settles(v: Verdict) {
    v.Parked? || v.Excluded? || v.Untriggered? || v.Cooled? || (v.Forwarded? && 200 <= v.status < 300)
  }

  /** `_mark_handled` */
  function Marked(seen: map<string, real>, d: Delivery, now: real): map<string, real> {
    if d.route.Smokeball? && d.requestId != "" then seen[d.requestId := now + TTL] else seen
  }

  function Next(g: Gate, p: Post): Gate {
    var v := Decide(g, p);
    Gate(if Settles(v) then Marked(g.seen, p.d, p.at.mark) else g.seen,
         if Throttled(v) then Windows(g, p.policy, p.at.throttle) else g.windows)
  }

  /** Requests handled one after another. */
  function After(posts: seq<Post>): Gate {
    if posts == [] then BOOT else Next(After(posts[..|posts| - 1]), posts[|posts| - 1])
  }

  predicate Handles(g: Gate, p: Post) {
    p.d.route.Smokeball? && Settles(Decide(g, p))
  }

  // ---------------------------------------------------------------------------
  // Arithmetic
  // ---------------------------------------------------------------------------

  /** The floor, for every tick count: the second the delivery was signed in. */
  lemma SecondsIsFloor(ticks: int, s: int)
    ensures Seconds(ticks) == s <==>
            s * TICKS_PER_SECOND <= ticks - EPOCH_OFFSET * TICKS_PER_SECOND < (s + 1) * TICKS_PER_SECOND
  {
    var q, r := ticks / TICKS_PER_SECOND, ticks % TICKS_PER_SECOND;
    assert ticks == q * TICKS_PER_SECOND + r;
  }

  predicate InOrder(at: Stamps) {
    at.verify <= at.seen <= at.throttle <= at.mark
  }

  /** The two readings that decide verification are at most `slack` apart. */
  predicate Prompt(at: Stamps, slack: real) {
    InOrder(at) && at.seen - at.verify <= slack
  }

  /**
   * COVERAGE. A delivery recorded as handled at `h` can be verified again at or after `h`
   * exactly when it was signed at least 60 seconds, less the gap allowed between the two clock
   * readings, after `h` (and is not already stale at `h`). With a single reading, `slack == 0`,
   * the guard covers the delivery exactly when `ts < h + 60`.
   */
  lemma CoverageBound(g: Gate, d: Delivery, h: real, slack: real)
    requires slack >= 0.0
    requires d.route.Smokeball? && d.complete && d.signed && d.ticks.Some? && d.requestId != ""
    requires d.requestId in g.seen && g.seen[d.requestId] == h + TTL
    ensures (exists at: Stamps :: h <= at.verify && Prompt(at, slack) && Verified(g, d, at))
            <==> Seconds(d.ticks.value) as real >= h + 60.0 - slack && Seconds(d.ticks.value) as real >= h - TOLERANCE
  {
    var last := Seconds(d.ticks.value) as real + TOLERANCE;
    if last + slack >= h + TTL && last >= h {
      var check := if last >= h + TTL then last else h + TTL;
      var at := Stamps(last, check, check, check);
      assert h <= at.verify && Prompt(at, slack) && Verified(g, d, at);
    }
  }

  // ---------------------------------------------------------------------------
  // Whole runs
  // ---------------------------------------------------------------------------

  /** The clock never runs backwards within or between requests. */
  ghost predicate ClockRuns(posts: seq<Post>, slack: real) {
    && (forall i :: 0 <= i < |posts| ==> Prompt(posts[i].at, slack))
    && (forall i, j :: 0 <= i < j < |posts| ==> posts[i].at.mark <= posts[j].at.verify)
  }

  /** The vendor signs a request id with one timestamp: `stamp`. */
  ghost predicate OneStampPerId(posts: seq<Post>, stamp: string -> int) {
    forall i :: 0 <= i < |posts| && posts[i].d.route.Smokeball? && posts[i].d.signed && posts[i].d.ticks.Some? ==>
      Seconds(posts[i].d.ticks.value) == stamp(posts[i].d.requestId)
  }

  ghost predicate HandledAt(posts: seq<Post>, i: nat) {
    i < |posts| && Handles(After(posts[..i]), posts[i])
  }

  lemma HandledNeedsId(g: Gate, p: Post)
    requires Handles(g, p)
    ensures p.d.complete && p.d.signed && p.d.requestId != "" && p.d.ticks.Some?
    ensures IsFresh(Seconds(p.d.ticks.value), p.at.verify) && !SeenRecently(g, p.d.requestId, p.at.seen)
    ensures Next(g, p).seen == g.seen[p.d.requestId := p.at.mark + TTL]
  {
  }

  /** What is recorded as handled at some point stays recorded, for no shorter a time. */
  lemma {:induction false} RecordLasts(posts: seq<Post>, slack: real, i: nat)
    requires ClockRuns(posts, slack) && HandledAt(posts, i)
    ensures posts[i].d.requestId in After(posts).seen
    ensures After(posts).seen[posts[i].d.requestId] >= posts[i].at.mark + TTL
    decreases |posts|
  {
    var n := |posts| - 1;
    var before := After(posts[..n]);
    if i == n {
      HandledNeedsId(before, posts[n]);
    } else {
      assert posts[..n][..i] == posts[..i];
      RecordLasts(posts[..n], slack, i);
      if Handles(before, posts[n]) {
        HandledNeedsId(before, posts[n]);
      }
    }
  }

  /**
   * EVERY RUN. When one request id is handled twice, it was signed at least 60 seconds, less
   * the reading gap, after it was first handled.
   */
  lemma HandledTwiceOnlyAhead(posts: seq<Post>, slack: real, stamp: string -> int, i: nat, j: nat)
    requires ClockRuns(posts, slack) && OneStampPerId(posts, stamp)
    requires i < j && HandledAt(posts, i) && HandledAt(posts, j)
    requires posts[i].d.requestId == posts[j].d.requestId
    ensures stamp(posts[i].d.requestId) as real >= posts[i].at.mark + 60.0 - slack
  {
    var before := posts[..j];
    assert before[..i] == posts[..i];
    RecordLasts(before, slack, i);
    HandledNeedsId(After(before), posts[j]);
  }

  /** So a vendor whose clock is less than a minute ahead has no delivery handled twice. */
  lemma AtMostOnce(posts: seq<Post>, slack: real, stamp: string -> int)
    requires ClockRuns(posts, slack) && OneStampPerId(posts, stamp)
    requires forall i: nat :: HandledAt(posts, i) ==> stamp(posts[i].d.requestId) as real < posts[i].at.mark + 60.0 - slack
    ensures forall i: nat, j: nat :: i < j && HandledAt(posts, i) && HandledAt(posts, j) ==>
              posts[i].d.requestId != posts[j].d.requestId
  {
    forall i: nat, j: nat | i < j && HandledAt(posts, i) && HandledAt(posts, j)
      ensures posts[i].d.requestId != posts[j].d.requestId
    {
      if posts[i].d.requestId == posts[j].d.requestId {
        HandledTwiceOnlyAhead(posts, slack, stamp, i, j);
      }
    }
  }

  /** Signed 100 seconds ahead, one delivery is handled at second 0 and again at second 365. */
  lemma HandledTwiceExample()
    ensures exists posts: seq<Post> ::
              && |posts| == 2 && ClockRuns(posts, 0.0) && posts[0].d == posts[1].d
              && HandledAt(posts, 0) && HandledAt(posts, 1)
  {
    var d := SignedAt(100);
    var a, b := ParkedAt(d, 0.0), ParkedAt(d, 365.0);
    var posts := [a, b];
    assert posts[..1] == [a] && posts[..0] == [] && [a][..0] == [];
    assert After([]) == BOOT && After([a]) == Next(BOOT, a);
    SecondsIsFloor(d.ticks.value, 100);
    assert HandledAt(posts, 0) && HandledAt(posts, 1);
  }

  function SignedAt(s: int): Delivery {
    Delivery(Smokeball, "r", true, Some((s + EPOCH_OFFSET) * TICKS_PER_SECOND), true)
  }

  /** A request of a parked seat, all its clock readings the same. */
  function ParkedAt(d: Delivery, now: real): Post {
    Post(d, Policy(true, false, false, None), Unreachable, Stamps(now, now, now, now))
  }

  // ---------------------------------------------------------------------------
  // Restarts
  // ---------------------------------------------------------------------------

  /** The gate's lives one after another: each starts with empty tables. */
  ghost predicate LivesRun(lives: seq<seq<Post>>, slack: real) {
    && (forall l :: 0 <= l < |lives| ==> ClockRuns(lives[l], slack))
    && (forall l, m, i, j :: 0 <= l < m < |lives| && 0 <= i < |lives[l]| && 0 <= j < |lives[m]| ==>
          lives[l][i].at.mark <= lives[m][j].at.verify)
  }

  ghost predicate HandledIn(lives: seq<seq<Post>>, l: nat, i: nat) {
    l < |lives| && HandledAt(lives[l], i)
  }

  /** What a restart forgets: from then on a delivery verifies again exactly while it is fresh. */
  lemma RestartReopensIff(d: Delivery, restart: real)
    requires d.route.Smokeball? && d.complete && d.signed && d.ticks.Some? && d.requestId != ""
    ensures (exists at: Stamps :: restart <= at.verify && Prompt(at, 0.0) && Verified(BOOT, d, at)) <==>
            restart <= Seconds(d.ticks.value) as real + TOLERANCE
  {
    var last := Seconds(d.ticks.value) as real + TOLERANCE;
    if restart <= last {
      var at := Stamps(last, last, last, last);
      assert restart <= at.verify && Prompt(at, 0.0) && Verified(BOOT, d, at);
    }
  }

  /** Every life after a handling sees its first request when that delivery is no longer fresh. */
  ghost predicate RestartsLate(lives: seq<seq<Post>>, stamp: string -> int) {
    forall l: nat, i: nat, m: nat, j: nat ::
      HandledIn(lives, l, i) && l < m < |lives| && j < |lives[m]| ==>
        lives[m][j].at.verify > stamp(lives[l][i].d.requestId) as real + TOLERANCE
  }

  /**
   * EVERY HISTORY. With restarts that fall outside the freshness window of what was handled
   * before them, and vendor clocks less than a minute ahead, every request id is handled at
   * most once over all the lives of the gate.
   */
  lemma AtMostOnceAcrossRestarts(lives: seq<seq<Post>>, slack: real, stamp: string -> int)
    requires LivesRun(lives, slack) && forall l :: 0 <= l < |lives| ==> OneStampPerId(lives[l], stamp)
    requires forall l: nat, i: nat :: HandledIn(lives, l, i) ==> stamp(lives[l][i].d.requestId) as real < lives[l][i].at.mark + 60.0 - slack
    requires RestartsLate(lives, stamp)
    ensures forall l: nat, i: nat, m: nat, j: nat ::
              HandledIn(lives, l, i) && HandledIn(lives, m, j) && (l, i) != (m, j) ==> lives[l][i].d.requestId != lives[m][j].d.requestId
  {
    forall l: nat, i: nat, m: nat, j: nat | HandledIn(lives, l, i) && HandledIn(lives, m, j) && (l < m || (l == m && i < j))
      ensures lives[l][i].d.requestId != lives[m][j].d.requestId
    {
      if l == m {
        assert forall n: nat :: HandledAt(lives[l], n) ==> HandledIn(lives, l, n);
        AtMostOnce(lives[l], slack, stamp);
      } else {
        HandledNeedsId(After(lives[m][..j]), lives[m][j]);
      }
    }
  }

  /** A restart a minute after a handling: the same delivery is handled again. */
  lemma RestartHandlesTwice()
    ensures exists lives: seq<seq<Post>> ::
              && |lives| == 2 && LivesRun(lives, 0.0) && |lives[0]| == |lives[1]| == 1
              && lives[0][0].d == lives[1][0].d && HandledIn(lives, 0, 0) && HandledIn(lives, 1, 0)
  {
    var d := SignedAt(0);
    var lives := [[ParkedAt(d, 0.0)], [ParkedAt(d, 60.0)]];
    assert lives[0][..0] == [] && lives[1][..0] == [];
    SecondsIsFloor(d.ticks.value, 0);
    assert HandledIn(lives, 0, 0) && HandledIn(lives, 1, 0);
  }

  /** A record appears only for a delivery the gate has answered for. */
  lemma {:induction false} RecordedWasHandled(posts: seq<Post>, id: string)
    requires id in After(posts).seen
    ensures exists i: nat :: HandledAt(posts, i) && posts[i].d.requestId == id && After(posts).seen[id] == posts[i].at.mark + TTL
    decreases |posts|
  {
    if posts != [] {
      var n := |posts| - 1;
      var before := After(posts[..n]);
      if Handles(before, posts[n]) && posts[n].d.requestId == id {
        assert HandledAt(posts, n);
      } else {
        RecordedWasHandled(posts[..n], id);
        var i: nat :| HandledAt(posts[..n], i) && posts[..n][i].d.requestId == id
          && before.seen[id] == posts[..n][i].at.mark + TTL;
        assert posts[..n][..i] == posts[..i];
        assert HandledAt(posts, i);
      }
    }
  }

  // ---------------------------------------------------------------------------
  // A forward that failed
  // ---------------------------------------------------------------------------

  /** The forward was not acknowledged with a 2xx. */
  predicate ForwardFailed(g: Gate, p: Post) {
    var v := Decide(g, p);
    v.Failed? || (v.Forwarded? && !(200 <= v.status < 300))
  }

  /** The replay guard does not hold a failed forward against its retry, whatever came before. */
  lemma FailureNotRecorded(g: Gate, p: Post, d: Delivery, at: Stamps)
    requires ForwardFailed(g, p)
    ensures Next(g, p).seen == g.seen
    ensures Verified(Next(g, p), d, at) <==> Verified(g, d, at)
  {
  }

  function VerdictAt(posts: seq<Post>, i: nat): Verdict
    requires i < |posts|
  {
    Decide(After(posts[..i]), posts[i])
  }

  predicate PassesThrottle(v: Verdict) {
    v.Forwarded? || v.Failed?
  }

  /** The `i`th request of a run opened a cooldown window under `key`. */
  predicate Opens(posts: seq<Post>, i: nat, key: (Route, string, string)) {
    && i < |posts| && Throttles(posts[i].policy) && posts[i].policy.throttle.value.key == key
    && PassesThrottle(VerdictAt(posts, i))
  }

  function WindowEnd(p: Post): real
    requires Throttles(p.policy)
  {
    p.at.throttle + p.policy.throttle.value.cooldown as real
  }

  /** A window under `key` that some request of the run opened is still open at `now`. */
  ghost predicate StillOpen(posts: seq<Post>, key: (Route, string, string), now: real) {
    exists i: nat :: Opens(posts, i, key) && WindowEnd(posts[i]) > now
  }

  lemma OpensEarlier(posts: seq<Post>, key: (Route, string, string), now: real)
    requires posts != []
    ensures var n := |posts| - 1;
      StillOpen(posts, key, now) <==>
        StillOpen(posts[..n], key, now) || (Opens(posts, n, key) && WindowEnd(posts[n]) > now)
  {
    var n := |posts| - 1;
    forall i: nat | i < n
      ensures Opens(posts, i, key) <==> Opens(posts[..n], i, key)
    {
      assert posts[..n][..i] == posts[..i];
    }
    if i: nat :| Opens(posts[..n], i, key) && WindowEnd(posts[..n][i]) > now {
      assert Opens(posts, i, key) && WindowEnd(posts[i]) > now;
    }
    if i: nat :| Opens(posts, i, key) && WindowEnd(posts[i]) > now {
      if i < n {
        assert Opens(posts[..n], i, key) && WindowEnd(posts[..n][i]) > now;
      }
    }
  }

  predicate OpensBy(g: Gate, p: Post, key: (Route, string, string)) {
    Throttles(p.policy) && p.policy.throttle.value.key == key && PassesThrottle(Decide(g, p))
  }

  /** One request: a window stands afterwards if it stood before, or the request opened it. */
  lemma WindowsStep(g: Gate, p: Post, key: (Route, string, string), now: real)
    requires InOrder(p.at) && p.at.mark <= now
    ensures key in Next(g, p).windows && Next(g, p).windows[key] > now <==>
            (key in g.windows && g.windows[key] > now) || (OpensBy(g, p, key) && WindowEnd(p) > now)
  {
  }

  /** At any time after a run, the throttle's table holds exactly the windows still open. */
  lemma {:induction false} WindowsAreOpen(posts: seq<Post>, slack: real, key: (Route, string, string), now: real)
    requires ClockRuns(posts, slack) && (posts != [] ==> posts[|posts| - 1].at.mark <= now)
    ensures key in After(posts).windows && After(posts).windows[key] > now <==> StillOpen(posts, key, now)
    decreases |posts|
  {
    if posts != [] {
      var n := |posts| - 1;
      OpensEarlier(posts, key, now);
      WindowsAreOpen(posts[..n], slack, key, now);
      WindowsStep(After(posts[..n]), posts[n], key, now);
      assert Opens(posts, n, key) <==> OpensBy(After(posts[..n]), posts[n], key);
    }
  }

  lemma OpensInPrefix(posts: seq<Post>, i: nat, j: nat, key: (Route, string, string))
    requires i < j <= |posts|
    ensures Opens(posts, i, key) <==> Opens(posts[..j], i, key)
  {
    assert posts[..j][..i] == posts[..i];
  }

  /** Before request `j` no window under the key is open exactly when every earlier one has ended. */
  lemma NoneOpenIff(posts: seq<Post>, j: nat, key: (Route, string, string), now: real)
    requires j <= |posts|
    ensures !StillOpen(posts[..j], key, now) <==>
            forall i: nat :: i < j && Opens(posts, i, key) ==> WindowEnd(posts[i]) <= now
  {
    forall i: nat | i < j
      ensures Opens(posts, i, key) <==> Opens(posts[..j], i, key)
    {
      OpensInPrefix(posts, i, j, key);
    }
    if i: nat :| Opens(posts[..j], i, key) && WindowEnd(posts[..j][i]) > now {
      assert i < j && Opens(posts, i, key) && WindowEnd(posts[i]) > now;
    }
    if i: nat :| i < j && Opens(posts, i, key) && WindowEnd(posts[i]) > now {
      assert Opens(posts[..j], i, key) && WindowEnd(posts[..j][i]) > now;
    }
  }

  lemma PrefixRuns(posts: seq<Post>, slack: real, j: nat)
    requires ClockRuns(posts, slack) && j < |posts|
    ensures ClockRuns(posts[..j], slack) && (j > 0 ==> posts[j - 1].at.mark <= posts[j].at.throttle)
  {
  }

  /**
   * EVERY RUN. A request that reaches the throttle is let through exactly when every window
   * opened before it under its key, by a forward that succeeded or one that failed, has ended.
   */
  lemma ForwardedIff(posts: seq<Post>, slack: real, j: nat)
    requires ClockRuns(posts, slack) && j < |posts| && Throttled(VerdictAt(posts, j))
    ensures PassesThrottle(VerdictAt(posts, j)) <==>
            (Throttles(posts[j].policy) ==>
               forall i: nat :: i < j && Opens(posts, i, posts[j].policy.throttle.value.key) ==> WindowEnd(posts[i]) <= posts[j].at.throttle)
  {
    if Throttles(posts[j].policy) {
      var key, now := posts[j].policy.throttle.value.key, posts[j].at.throttle;
      PrefixRuns(posts, slack, j);
      WindowsAreOpen(posts[..j], slack, key, now);
      NoneOpenIff(posts, j, key, now);
    }
  }

  /** Request `j` is the retry of the failed forward `i`, verified in its turn; anything may lie between. */
  predicate RetryOf(posts: seq<Post>, i: nat, j: nat) {
    && i < j < |posts| && ForwardFailed(After(posts[..i]), posts[i])
    && posts[j].d == posts[i].d && posts[j].policy == posts[i].policy
    && Verified(After(posts[..j]), posts[j].d, posts[j].at)
  }

  /**
   * RETRIES. The throttle opens its window before the forward's answer is known. So the retry
   * of a failed forward, whatever came between, is forwarded exactly when the trigger has no
   * cooldown, or the window the failure opened and every one opened since have ended.
   */
  lemma RetryForwardedIff(posts: seq<Post>, slack: real, i: nat, j: nat)
    requires ClockRuns(posts, slack) && RetryOf(posts, i, j)
    ensures PassesThrottle(VerdictAt(posts, j)) <==>
            (Throttles(posts[i].policy) ==>
               && WindowEnd(posts[i]) <= posts[j].at.throttle
               && forall m: nat :: i < m < j && Opens(posts, m, posts[i].policy.throttle.value.key) ==> WindowEnd(posts[m]) <= posts[j].at.throttle)
  {
    ForwardedIff(posts, slack, j);
    if Throttles(posts[i].policy) {
      var key := posts[i].policy.throttle.value.key;
      assert Opens(posts, i, key);
      ForwardedIff(posts, slack, i);
      assert posts[i].at.throttle <= posts[j].at.throttle;
    }
  }

  /**
   * Inside the cooldown of the failed attempt the retry is acknowledged, recorded as handled
   * and never forwarded; and every later copy is refused while that record stands.
   */
  lemma RetryInsideCooldownIsLost(posts: seq<Post>, slack: real, i: nat, j: nat, n: nat, at: Stamps)
    requires ClockRuns(posts, slack) && RetryOf(posts, i, j) && posts[i].d.route.Smokeball?
    requires Throttles(posts[i].policy) && posts[j].at.throttle < WindowEnd(posts[i])
    ensures VerdictAt(posts, j).Cooled? && HandledAt(posts, j)
    ensures j < n <= |posts| && at.seen < posts[j].at.mark + TTL ==> !Verified(After(posts[..n]), posts[i].d, at)
  {
    RetryForwardedIff(posts, slack, i, j);
    HandledNeedsId(After(posts[..j]), posts[j]);
    if j < n <= |posts| {
      assert posts[..n][..j] == posts[..j];
      RecordLasts(posts[..n], slack, j);
    }
  }

  /** A gate just booted: a failed forward at second 0 and its retry a minute later. */
  lemma LostRetryExample()
    ensures exists posts: seq<Post> ::
              && |posts| == 2 && ClockRuns(posts, 0.0) && RetryOf(posts, 0, 1)
              && posts[0].d.route.Smokeball? && HandledAt(posts, 1) && VerdictAt(posts, 1).Cooled?
  {
    var key: (Route, string, string) := (Smokeball, "matter.updated", "m");
    var policy := Policy(false, false, false, Some(Throttle(key, 1800)));
    var d := Delivery(Smokeball, "r", true, Some(EPOCH_OFFSET * TICKS_PER_SECOND), true);
    var a := Post(d, policy, Unreachable, Stamps(0.0, 0.0, 0.0, 0.0));
    var b := Post(d, policy, Answered(200), Stamps(60.0, 60.0, 60.0, 60.0));
    var posts := [a, b];
    assert posts[..1] == [a] && posts[..0] == [] && [a][..0] == [];
    assert After([]) == BOOT && After([a]) == Next(BOOT, a);
    assert Seconds(d.ticks.value) == 0;
    assert RetryOf(posts, 0, 1);
    RetryInsideCooldownIsLost(posts, 0.0, 0, 1, 2, b.at);
  }

  // ---------------------------------------------------------------------------
  // The gate process
  // ---------------------------------------------------------------------------

  /** The gate's shared dictionaries, updated in place by each request. */
  class GateProcess {
    var seen: map<string, real>
    var windows: map<(Route, string, string), real>

    ghost function View(): Gate
      reads this
    {
      Gate(seen, windows)
    }

    constructor ()
      ensures View() == BOOT
    {
      seen, windows := map[], map[];
    }

    method ReplaySeenRecently(id: string, now: real) returns (hit: bool)
      ensures hit <==> SeenRecently(View(), id, now)
    {
      if id == "" {
        return false;
      }
      hit := id in seen && seen[id] > now;
    }

    method MarkHandled(d: Delivery, now: real)
      modifies this`seen
      ensures seen == Marked(old(seen), d, now)
    {
      if d.route.Smokeball? {
        if d.requestId != "" {
          seen := seen[d.requestId := now + TTL];
        }
      }
    }

    /** `_VERIFIERS[route]` */
    method Verify(d: Delivery, at: Stamps) returns (ok: bool)
      ensures ok <==> Verified(View(), d, at)
    {
      if d.route.AgentMail? {
        return d.signed;
      }
      if !d.complete || d.requestId == "" || d.ticks.None? {
        return false;
      }
      var age := at.verify - Seconds(d.ticks.value) as real;
      if age > TOLERANCE || -age > TOLERANCE {
        return false;
      }
      if !d.signed {
        return false;
      }
      var replay := ReplaySeenRecently(d.requestId, at.seen);
      ok := !replay;
    }

    /** `TriggerThrottle.check`; true suppresses the delivery. */
    method CheckThrottle(policy: Policy, now: real) returns (cooled: bool)
      modifies this`windows
      ensures cooled <==> Cooling(old(View()), policy, now)
      ensures windows == Windows(old(View()), policy, now)
    {
      if policy.throttle.None? || policy.throttle.value.cooldown == 0 {
        return false;
      }
      var key := policy.throttle.value.key;
      windows := Unexpired(windows, now);
      if key in windows {
        return true;
      }
      windows := windows[key := now + policy.throttle.value.cooldown as real];
      cooled := false;
    }

    /** The route's part of `do_POST`, from verification on. */
    method DoPost(p: Post) returns (verdict: Verdict)
      modifies this
      ensures verdict == Decide(old(View()), p)
      ensures View() == Next(old(View()), p)
    {
      var ok := Verify(p.d, p.at);
      if !ok {
        return Unverified;
      }
      if p.policy.parked {
        MarkHandled(p.d, p.at.mark);
        return Parked;
      }
      if p.policy.excluded {
        MarkHandled(p.d, p.at.mark);
        return Excluded;
      }
      if p.policy.untriggered {
        MarkHandled(p.d, p.at.mark);
        return Untriggered;
      }
      var cooled := CheckThrottle(p.policy, p.at.throttle);
      if cooled {
        MarkHandled(p.d, p.at.mark);
        return Cooled;
      }
      match p.forward {
        case Unreachable =>
          verdict := Failed;
        case Answered(status) =>
          if 200 <= status < 300 {
            MarkHandled(p.d, p.at.mark);
          }
          verdict := Forwarded(status);
      }
    }
  }
}
