/**
 * The safety gate and one apply (config_applier/safety.py, config_applier/applier.py).
 * YAML parsing, the parity validator, case folding and the floor table are parameters.
 */
module ConfigGate {
  import opened Basics
  import opened Text
  import opened ConfigTree
  import opened DiffTheorems
  import opened ConfigPaths

  type Bytes = string

  datatype Env = Env(
    chars: Chars,                              // digits and spaces beyond ASCII
    parse: Bytes -> Option<Value>,             // None: not decodable, or not YAML
    valid: Bytes -> bool,                      // the validator reports no error
    fold: string -> string,                    // strip().lower()
    floors: map<string, map<string, string>>)  // vertical -> action class -> ceiling

  function Get(v: Value, key: string): Option<Value> {
    if v.Mapping? then Child(v, Key(key)) else None
  }

  // ---------------------------------------------------------------------------
  // Compliance floors
  // ---------------------------------------------------------------------------

  /** `_rank`: an unknown ceiling ranks above every known one. */
  function Rank(env: Env, ceiling: string): nat {
    var c := env.fold(ceiling);
    if c == "refused" then 0 else if c == "draft_for_review" then 1 else if c == "autonomous" then 2 else 3
  }

  function VerticalFloors(env: Env, vertical: Option<Value>): map<string, string> {
    match vertical
    case Some(Leaf(Str(v))) => if env.fold(v) in env.floors then env.floors[env.fold(v)] else map[]
    case _ => map[]
  }

  predicate IsText(v: Value) {
    v.Leaf? && v.scalar.Str?
  }

  /** The exposure map the source builds entry by entry: a later spelling overwrites. */
  function Collect(env: Env, es: seq<Entry>): map<string, string> {
    if es == [] then map[] else
      var m := Collect(env, es[..|es| - 1]);
      var e := es[|es| - 1];
      if IsText(e.value) then m[env.fold(e.key) := env.fold(e.value.scalar.s)] else m
  }

  function Exposure(env: Env, persona: Value): map<string, string> {
    match Get(persona, "entitlements")
    case Some(Mapping(es)) =>
      (match Get(Mapping(es), "exposure")
       case Some(Mapping(raw)) => Collect(env, raw)
       case _ => map[])
    case _ => map[]
  }

  function Personas(cfg: Value): seq<Value> {
    match Get(cfg, "personas") case Some(Listing(ps)) => ps case _ => []
  }

  predicate WithinFloor(env: Env, m: map<string, string>, cls: string, floor: string) {
    cls in m ==> Rank(env, m[cls]) <= Rank(env, floor)
  }

  /** `floor_preserving` */
  predicate FloorPreserving(env: Env, cfg: Value) {
    cfg.Mapping? &&
    var floors := VerticalFloors(env, Get(cfg, "vertical"));
    forall cls, p :: cls in floors && p in Personas(cfg) && p.Mapping? ==>
      WithinFloor(env, Exposure(env, p), cls, floors[cls])
  }

  /** Entry `i` is what a persona finally authors for the class `cls`. */
  ghost predicate Authors(env: Env, raw: seq<Entry>, cls: string, i: nat) {
    && i < |raw| && IsText(raw[i].value) && env.fold(raw[i].key) == cls
    && forall j :: i < j < |raw| && IsText(raw[j].value) ==> env.fold(raw[j].key) != cls
  }

  lemma AuthorsSnoc(env: Env, raw: seq<Entry>, cls: string, i: nat)
    requires raw != []
    ensures var n := |raw| - 1;
      Authors(env, raw, cls, i) <==>
        if IsText(raw[n].value) && env.fold(raw[n].key) == cls then i == n else Authors(env, raw[..n], cls, i)
  {
  }

  lemma {:induction false} CollectIsLast(env: Env, raw: seq<Entry>, cls: string)
    ensures cls in Collect(env, raw) <==> exists i: nat :: Authors(env, raw, cls, i)
    ensures forall i: nat :: Authors(env, raw, cls, i) ==> Collect(env, raw)[cls] == env.fold(raw[i].value.scalar.s)
  {
    if raw != [] {
      var n := |raw| - 1;
      CollectIsLast(env, raw[..n], cls);
      forall i: nat {:trigger Authors(env, raw, cls, i)}
        ensures Authors(env, raw, cls, i) <==>
          if IsText(raw[n].value) && env.fold(raw[n].key) == cls then i == n else Authors(env, raw[..n], cls, i)
      {
        AuthorsSnoc(env, raw, cls, i);
      }
      if IsText(raw[n].value) && env.fold(raw[n].key) == cls {
        assert Authors(env, raw, cls, n);
      } else if cls in Collect(env, raw) {
        var i: nat :| Authors(env, raw[..n], cls, i);
        assert Authors(env, raw, cls, i);
      }
    }
  }

  predicate AuthoredExposure(persona: Value, raw: seq<Entry>) {
    match Get(persona, "entitlements")
    case Some(Mapping(es)) => Get(Mapping(es), "exposure") == Some(Mapping(raw))
    case _ => false
  }

  /** No final authored ceiling of this persona for `cls` is more permissive than the floor. */
  ghost predicate KeepsFloor(env: Env, persona: Value, cls: string, floor: string) {
    forall raw: seq<Entry>, i: nat :: AuthoredExposure(persona, raw) && Authors(env, raw, cls, i) ==>
      Rank(env, env.fold(raw[i].value.scalar.s)) <= Rank(env, floor)
  }

  lemma FloorOfPersona(env: Env, persona: Value, cls: string, floor: string)
    ensures WithinFloor(env, Exposure(env, persona), cls, floor) <==> KeepsFloor(env, persona, cls, floor)
  {
    if raw: seq<Entry> :| AuthoredExposure(persona, raw) {
      CollectIsLast(env, raw, cls);
      assert Exposure(env, persona) == Collect(env, raw);
      if cls in Collect(env, raw) {
        var i: nat :| Authors(env, raw, cls, i);
        assert KeepsFloor(env, persona, cls, floor) ==>
          Rank(env, env.fold(raw[i].value.scalar.s)) <= Rank(env, floor);
      }
    } else {
      assert Exposure(env, persona) == map[] by {
        var ent := Get(persona, "entitlements");
        if ent.Some? && ent.value.Mapping? {
          var raw := Get(ent.value, "exposure");
          if raw.Some? && raw.value.Mapping? {
            assert AuthoredExposure(persona, raw.value.entries);
          }
        }
      }
    }
  }

  /**
   * The floor check passes exactly when no persona's final authored ceiling for a floored
   * class is more permissive than that floor.
   */
  lemma FloorsRespected(env: Env, cfg: Value)
    requires cfg.Mapping?
    ensures FloorPreserving(env, cfg) <==>
      var floors := VerticalFloors(env, Get(cfg, "vertical"));
      forall cls, p :: cls in floors && p in Personas(cfg) && p.Mapping? ==> KeepsFloor(env, p, cls, floors[cls])
  {
    var floors := VerticalFloors(env, Get(cfg, "vertical"));
    forall cls, p | cls in floors && p in Personas(cfg) && p.Mapping?
      ensures WithinFloor(env, Exposure(env, p), cls, floors[cls]) <==> KeepsFloor(env, p, cls, floors[cls])
    {
      FloorOfPersona(env, p, cls, floors[cls]);
    }
  }

  // ---------------------------------------------------------------------------
  // The gate
  // ---------------------------------------------------------------------------

  /** The judgement the source makes: on the rendered text of a path. */
  function Writable(ch: Chars): Path -> bool {
    (p: Path) => LiveWritableText(ch, Render(p))
  }

  predicate Acceptable(ch: Chars, paths: seq<Path>) {
    forall p :: p in paths ==> LiveWritableText(ch, Render(p))
  }

  datatype Verdict = Proceed | Deferred | FloorRaised

  /** `_safety_gate`, with held paths routed to DEFERRED as the poll loop asks. */
  ghost function Gate(env: Env, was: Value, now: Value): Verdict
    requires was.Mapping?
  {
    if was.entries != [] && !Acceptable(env.chars, Diff(was, now, [])) then Deferred
    else if !FloorPreserving(env, now) then FloorRaised
    else Proceed
  }

  /**
   * THE FRAME OF AN APPLY. On a live seat the gate lets a configuration through only if it
   * equals the running one once the live-writable subtrees are erased from both.
   */
  lemma GateFreezesTheRest(env: Env, was: Value, now: Value)
    requires was.Mapping? && was.entries != [] && Gate(env, was, now) == Proceed
    ensures Erase(Writable(env.chars), [], was) == Erase(Writable(env.chars), [], now)
    ensures FloorPreserving(env, now)
  {
    RootIsListedNowhere(env.chars);
    DroppedDiffErases(Writable(env.chars), was, now, []);
  }

  // ---------------------------------------------------------------------------
  // Rebuild-class fields at depth one
  // ---------------------------------------------------------------------------

  predicate TopRebuild(k: string) {
    [k] in NEVER_LIVE
  }

  lemma NeverListPlain(ch: Chars, i: nat, j: nat)
    requires i < |NEVER_LIVE| && j < |NEVER_LIVE[i]|
    ensures NEVER_LIVE[i][j] == WILD || WellFormedKey(ch, NEVER_LIVE[i][j])
  {
    var k := NEVER_LIVE[i][j];
    assert k != "" && DOT !in k;
    assert k == WILD || !IsDigitIn(ch, k[0]);
  }

  lemma TopRebuildPlain(ch: Chars, k: string)
    requires TopRebuild(k)
    ensures WellFormed(ch, [Key(k)]) && Rebuild([Key(k)])
  {
    var i :| 0 <= i < |NEVER_LIVE| && NEVER_LIVE[i] == [k];
    NeverListPlain(ch, i, 0);
    assert k != WILD by {
      assert |NEVER_LIVE[i]| == 1;
      assert NEVER_LIVE[i][0] != WILD;
    }
    assert Norm([Key(k)]) == [k];
  }

  /** Below a path where nothing is dropped, the erased tree is the whole image. */
  lemma {:induction false} NothingErased(drop: Path -> bool, at: Path, other: Path, v: Value)
    requires forall p :: at < p ==> !drop(p)
    ensures Erase(drop, at, v) == Erase(Nothing(), other, v)
    decreases v
  {
    if !v.Leaf? {
      var a, b := Erase(drop, at, v), Erase(Nothing(), other, v);
      forall seg | seg in Segs(v)
        ensures seg in a.kids && seg in b.kids && a.kids[seg] == b.kids[seg]
      {
        SegsAreChildren(v, seg);
        assert at < at + [seg];
        NothingErased(drop, at + [seg], other + [seg], Child(v, seg).value);
      }
      assert a.kids == b.kids;
    }
  }

  /** Equal up to Python equality, or absent, on both sides. */
  ghost predicate SameField(a: Option<Value>, b: Option<Value>) {
    match (a, b)
    case (Some(x), Some(y)) => Image(x) == Image(y)
    case (None, None) => true
    case _ => false
  }

  /** Trees equal once erased have the same child wherever it may not be erased. */
  lemma ChildKept(drop: Path -> bool, at: Path, was: Value, now: Value, seg: Seg)
    requires Erase(drop, at, was) == Erase(drop, at, now) && !drop(at + [seg])
    ensures Child(was, seg).Some? <==> Child(now, seg).Some?
    ensures Child(was, seg).Some? ==>
              Erase(drop, at + [seg], Child(was, seg).value) == Erase(drop, at + [seg], Child(now, seg).value)
  {
    SegsAreChildren(was, seg);
    SegsAreChildren(now, seg);
    if !was.Leaf? {
      var a, b := Erase(drop, at, was), Erase(drop, at, now);
      assert seg in a.kids <==> Child(was, seg).Some?;
      assert seg in b.kids <==> Child(now, seg).Some?;
      assert seg in a.kids ==> a.kids[seg] == b.kids[seg];
    }
  }

  /** Mappings that are equal once erased agree on a field nothing of which may be erased. */
  lemma FieldKept(drop: Path -> bool, at: Path, was: Value, now: Value, k: string)
    requires was.Mapping? && now.Mapping? && Erase(drop, at, was) == Erase(drop, at, now)
    requires forall p :: at + [Key(k)] <= p ==> !drop(p)
    ensures SameField(Get(was, k), Get(now, k))
  {
    var seg := Key(k);
    ChildKept(drop, at, was, now, seg);
    if Child(was, seg).Some? {
      NothingErased(drop, at + [seg], [], Child(was, seg).value);
      NothingErased(drop, at + [seg], [], Child(now, seg).value);
    }
  }

  lemma NothingDroppedUnder(ch: Chars, h: Path, p: Path)
    requires h != [] && WellFormed(ch, h) && Rebuild(h) && h <= p
    ensures !Writable(ch)(p)
  {
    assert p == h + p[|h|..];
    NothingWritableBelow(ch, h, p[|h|..]);
  }

  /** Equal erased documents agree on every depth-one rebuild-class field. */
  lemma RebuildFieldsKept(ch: Chars, was: Value, now: Value, k: string)
    requires was.Mapping? && now.Mapping? && TopRebuild(k)
    requires Erase(Writable(ch), [], was) == Erase(Writable(ch), [], now)
    ensures SameField(Get(was, k), Get(now, k))
  {
    TopRebuildPlain(ch, k);
    assert [] + [Key(k)] == [Key(k)];
    forall p | [Key(k)] <= p
      ensures !Writable(ch)(p)
    {
      NothingDroppedUnder(ch, [Key(k)], p);
    }
    FieldKept(Writable(ch), [], was, now, k);
  }

  // ---------------------------------------------------------------------------
  // The rebuild-class fields of every persona
  // ---------------------------------------------------------------------------

  function PersonaPath(i: nat): Path {
    [Key("personas"), Index(i)]
  }

  predicate PersonaRebuild(k: string) {
    ["personas", WILD, k] in NEVER_LIVE
  }

  lemma PersonaPathPlain(ch: Chars, i: nat, k: string)
    requires PersonaRebuild(k)
    ensures WellFormed(ch, [Key("personas"), Index(i), Key(k)]) && Rebuild([Key("personas"), Index(i), Key(k)])
  {
    var n :| 0 <= n < |NEVER_LIVE| && NEVER_LIVE[n] == ["personas", WILD, k];
    NeverListPlain(ch, n, 0);
    NeverListPlain(ch, n, 2);
    assert k != WILD by {
      assert |NEVER_LIVE[n]| == 3;
      assert NEVER_LIVE[n][2] != WILD;
    }
    var h := [Key("personas"), Index(i), Key(k)];
    assert Norm(h) == ["personas", WILD, k];
  }

  lemma NoWritableCovers(h: seq<string>)
    requires h == ["personas"] || h == ["personas", WILD]
    ensures forall n :: 0 <= n < |LIVE_WRITABLE| ==> !(LIVE_WRITABLE[n] <= h)
  {
    forall n | 0 <= n < |LIVE_WRITABLE|
      ensures !(LIVE_WRITABLE[n] <= h)
    {
      assert |LIVE_WRITABLE[n]| > 2 || LIVE_WRITABLE[n][0] != "personas";
    }
  }

  lemma PersonaListNotWritable(ch: Chars)
    ensures !LiveWritableText(ch, Render([Key("personas")]))
  {
    var whole := [Key("personas")];
    NeverListPlain(ch, 7, 0);
    assert NEVER_LIVE[7][0] == "personas" != WILD;
    assert Norm(whole) == ["personas"];
    NoWritableCovers(Norm(whole));
    JudgementsAgree(ch, whole);
  }

  lemma OnePersonaNotWritable(ch: Chars, i: nat)
    ensures !LiveWritableText(ch, Render([Key("personas"), Index(i)]))
  {
    var one := [Key("personas"), Index(i)];
    NeverListPlain(ch, 7, 0);
    assert NEVER_LIVE[7][0] == "personas" != WILD;
    assert Norm(one) == ["personas", WILD];
    NoWritableCovers(Norm(one));
    JudgementsAgree(ch, one);
  }

  /** The personas of equal erased documents: as many, and each equal once erased. */
  lemma PersonasKept(ch: Chars, was: Value, now: Value, ps: seq<Value>)
    requires was.Mapping? && now.Mapping? && Get(was, "personas") == Some(Listing(ps))
    requires Erase(Writable(ch), [], was) == Erase(Writable(ch), [], now)
    ensures exists qs :: Get(now, "personas") == Some(Listing(qs)) && |qs| == |ps|
              && forall i :: 0 <= i < |ps| ==> Erase(Writable(ch), PersonaPath(i), ps[i]) == Erase(Writable(ch), PersonaPath(i), qs[i])
  {
    var drop, seg := Writable(ch), Key("personas");
    assert [] + [seg] == [seg];
    PersonaListNotWritable(ch);
    ChildKept(drop, [], was, now, seg);
    var list := Child(now, seg).value;
    assert list.Listing?;
    ItemsKept(ch, ps, list.items);
  }

  lemma ItemKept(ch: Chars, ps: seq<Value>, qs: seq<Value>, i: nat)
    requires Erase(Writable(ch), [Key("personas")], Listing(ps)) == Erase(Writable(ch), [Key("personas")], Listing(qs))
    ensures i < |ps| <==> i < |qs|
    ensures i < |ps| ==> Erase(Writable(ch), PersonaPath(i), ps[i]) == Erase(Writable(ch), PersonaPath(i), qs[i])
  {
    OnePersonaNotWritable(ch, i);
    assert [Key("personas")] + [Index(i)] == PersonaPath(i);
    ChildKept(Writable(ch), [Key("personas")], Listing(ps), Listing(qs), Index(i));
  }

  lemma ItemsKept(ch: Chars, ps: seq<Value>, qs: seq<Value>)
    requires Erase(Writable(ch), [Key("personas")], Listing(ps)) == Erase(Writable(ch), [Key("personas")], Listing(qs))
    ensures |qs| == |ps|
    ensures forall i :: 0 <= i < |ps| ==> Erase(Writable(ch), PersonaPath(i), ps[i]) == Erase(Writable(ch), PersonaPath(i), qs[i])
  {
    ItemKept(ch, ps, qs, |ps|);
    ItemKept(ch, ps, qs, |qs|);
    forall i | 0 <= i < |ps|
      ensures Erase(Writable(ch), PersonaPath(i), ps[i]) == Erase(Writable(ch), PersonaPath(i), qs[i])
    {
      ItemKept(ch, ps, qs, i);
    }
  }

  /** Equal erased documents agree on every rebuild-class field of every persona. */
  lemma PersonaFieldsKept(ch: Chars, i: nat, p: Value, q: Value, k: string)
    requires PersonaRebuild(k)
    requires Erase(Writable(ch), PersonaPath(i), p) == Erase(Writable(ch), PersonaPath(i), q)
    ensures SameField(Get(p, k), Get(q, k))
  {
    var at, h := PersonaPath(i), [Key("personas"), Index(i), Key(k)];
    assert at + [Key(k)] == h;
    PersonaPathPlain(ch, i, k);
    forall r | h <= r
      ensures !Writable(ch)(r)
    {
      NothingDroppedUnder(ch, h, r);
    }
    if p.Mapping? && q.Mapping? {
      FieldKept(Writable(ch), at, p, q, k);
    }
  }

  // ---------------------------------------------------------------------------
  // A nested rebuild-class field
  // ---------------------------------------------------------------------------

  function SeatRole(cfg: Value): Option<Value> {
    match Get(cfg, "seat") case Some(seat) => Get(seat, "role") case None => None
  }

  /**
   * `seat.role` is on the never-list, but a change of it is reported there only when both
   * sides carry `seat` as a mapping; otherwise the live-writable path `seat` is reported.
   */
  lemma SeatRoleHeldIff(was: Value, now: Value)
    requires was.Mapping? && now.Mapping? && !SameField(SeatRole(was), SeatRole(now))
    ensures (exists p :: p in Diff(was, now, []) && [Key("seat"), Key("role")] <= p) <==>
            Get(was, "seat").Some? && Get(now, "seat").Some? && Get(was, "seat").value.Mapping? && Get(now, "seat").value.Mapping?
  {
    var seat, role := [Key("seat")], [Key("seat"), Key("role")];
    var a, b := Get(was, "seat"), Get(now, "seat");
    LookupOne(was, seat);
    LookupOne(now, seat);
    assert [] + seat == seat;
    if a.Some? && b.Some? && a.value.Mapping? && b.value.Mapping? {
      RoleReported(was, now);
    } else {
      assert PartsAt(was, now, seat) by {
        assert Lookup(was, seat) == a && Lookup(now, seat) == b;
      }
      forall p | role <= p
        ensures p !in Diff(was, now, [])
      {
        assert [] + p == p;
        DiffIsFrontier(was, now, [], p);
        assert p[..1] == seat;
      }
    }
  }

  lemma ChildPathReported(was: Value, now: Value, seg: Seg, at: Path)
    requires Containers(was, now)
    requires match (Child(was, seg), Child(now, seg))
      case (Some(x), Some(y)) => Image(x) != Image(y)
      case (None, None) => false
      case _ => true
    ensures exists p :: p in Diff(was, now, at) && at + [seg] <= p
  {
    var d := DiffStep(was, now, seg, at);
    if Child(was, seg).Some? && Child(now, seg).Some? {
      var x, y := Child(was, seg).value, Child(now, seg).value;
      NoDiffIffEqual(x, y);
      var rel := Diff(x, y, [])[0];
      assert [] + rel == rel;
      DiffIsFrontier(x, y, [], rel);
      DiffIsFrontier(x, y, at + [seg], rel);
      assert (at + [seg]) + rel in d;
    } else {
      assert at + [seg] in d;
    }
    var p :| p in d;
    StepBelow(was, now, seg, at, p);
    DiffOfChild(was, now, seg, at, p);
  }

  lemma RoleReported(was: Value, now: Value)
    requires was.Mapping? && now.Mapping? && !SameField(SeatRole(was), SeatRole(now))
    requires Get(was, "seat").Some? && Get(now, "seat").Some?
    requires Get(was, "seat").value.Mapping? && Get(now, "seat").value.Mapping?
    ensures exists p :: p in Diff(was, now, []) && [Key("seat"), Key("role")] <= p
  {
    var x, y := Get(was, "seat").value, Get(now, "seat").value;
    assert [] + [Key("seat")] == [Key("seat")];
    ChildPathReported(x, y, Key("role"), [Key("seat")]);
    var p :| p in Diff(x, y, [Key("seat")]) && [Key("seat")] + [Key("role")] <= p;
    assert p in DiffStep(was, now, Key("seat"), []);
    DiffOfChild(was, now, Key("seat"), [], p);
    assert [Key("seat")] + [Key("role")] == [Key("seat"), Key("role")];
  }

  /** The document carries `seat` as a mapping. */
  predicate MapsSeat(cfg: Value) {
    cfg.Mapping? && Get(cfg, "seat").Some? && Get(cfg, "seat").value.Mapping?
  }

  lemma SeatRolePlain(ch: Chars)
    ensures WellFormed(ch, [Key("seat"), Key("role")]) && Rebuild([Key("seat"), Key("role")])
  {
    NeverListPlain(ch, 12, 0);
    NeverListPlain(ch, 12, 1);
    assert NEVER_LIVE[12] == ["seat", "role"] && "seat" != WILD && "role" != WILD;
    assert Norm([Key("seat"), Key("role")]) == NEVER_LIVE[12];
  }

  lemma SeatRoleNotWritable(ch: Chars, p: Path)
    requires [Key("seat"), Key("role")] <= p
    ensures !LiveWritableText(ch, Render(p))
  {
    SeatRolePlain(ch);
    NothingDroppedUnder(ch, [Key("seat"), Key("role")], p);
    assert !Writable(ch)(p);
  }

  /** On a live seat a change let through keeps the role, as long as both sides map `seat`. */
  lemma GateKeepsSeatRole(env: Env, was: Value, now: Value)
    requires MapsSeat(was) && MapsSeat(now) && was.entries != [] && Gate(env, was, now) == Proceed
    ensures SameField(SeatRole(was), SeatRole(now))
  {
    if !SameField(SeatRole(was), SeatRole(now)) {
      SeatRoleHeldIff(was, now);
      var p :| p in Diff(was, now, []) && [Key("seat"), Key("role")] <= p;
      SeatRoleNotWritable(env.chars, p);
    }
  }

  lemma {:induction false} FindAppended(es: seq<Entry>, e: Entry, k: string)
    ensures Find(es + [e], k) ==
            if Find(es, k).Some? then Find(es, k) else if e.key == k then Some(|es|) else None
  {
    if es == [] {
      assert Find([e][1..], k) == None;
    } else {
      FindAppended(es[1..], e, k);
      assert (es + [e])[1..] == es[1..] + [e];
    }
  }

  lemma NoFrontierInside(v: Value, rel: Path)
    ensures !Frontier(v, v, rel)
  {
  }

  /** Adding one key to a document reports that key and nothing below it. */
  lemma AddedKeyReported(es: seq<Entry>, e: Entry, p: Path)
    requires Find(es, e.key).None?
    ensures p in Diff(Mapping(es), Mapping(es + [e]), []) ==> p == [Key(e.key)]
  {
    var was, now := Mapping(es), Mapping(es + [e]);
    assert [] + p == p;
    DiffIsFrontier(was, now, [], p);
    if p != [] {
      FrontierChild(was, now, p);
      if p[0].Key? {
        FindAppended(es, e, p[0].name);
        if Child(was, p[0]).Some? {
          NoFrontierInside(Child(was, p[0]).value, p[1..]);
        }
      }
    }
  }

  /** So adding a whole `seat`, role included, passes the gate on a running seat. */
  lemma WholeSeatPassesTheGate(env: Env, es: seq<Entry>, role: string)
    requires es != [] && Find(es, "seat").None?
    ensures var was := Mapping(es);
      var now := Mapping(es + [Entry("seat", Mapping([Entry("role", Leaf(Str(role)))]))]);
      && !SameField(SeatRole(was), SeatRole(now))
      && (FloorPreserving(env, now) ==> Gate(env, was, now) == Proceed)
  {
    var seat := Entry("seat", Mapping([Entry("role", Leaf(Str(role)))]));
    var was, now := Mapping(es), Mapping(es + [seat]);
    FindAppended(es, seat, "seat");
    assert SeatRole(was) == None && SeatRole(now) == Some(Leaf(Str(role)));
    SeatIsWritable(env.chars);
    forall p | p in Diff(was, now, [])
      ensures LiveWritableText(env.chars, Render(p))
    {
      AddedKeyReported(es, seat, p);
    }
  }

  lemma SeatIsWritable(ch: Chars)
    ensures LiveWritableText(ch, Render([Key("seat")]))
  {
    var p := [Key("seat")];
    NeverListPlain(ch, 12, 0);
    assert NEVER_LIVE[12][0] == "seat" != WILD;
    JudgementsAgree(ch, p);
    var n := Norm(p);
    assert n == ["seat"];
    assert LIVE_WRITABLE[8] <= n;
    forall i | 0 <= i < |NEVER_LIVE|
      ensures !(NEVER_LIVE[i] <= n)
    {
      assert |NEVER_LIVE[i]| > 1 || NEVER_LIVE[i][0] != "seat";
    }
  }

  /** Two documents of a live seat that differ at one live-writable place. */
  function SeatDocument(on: bool): Value {
    Mapping([Entry("seat", Leaf(Bool(on)))])
  }

  lemma SeatChangeProceeds(env: Env, was: bool, now: bool)
    requires env.floors == map[]
    ensures Gate(env, SeatDocument(was), SeatDocument(now)) == Proceed
  {
    SeatIsWritable(env.chars);
    forall p | p in Diff(SeatDocument(was), SeatDocument(now), [])
      ensures p == [Key("seat")]
    {
      SeatDiffAt(was, now, p);
    }
  }

  lemma LeafFrontier(a: Scalar, b: Scalar, rel: Path)
    ensures Frontier(Leaf(a), Leaf(b), rel) ==> rel == []
  {
  }

  lemma SeatDiffAt(was: bool, now: bool, p: Path)
    requires p in Diff(SeatDocument(was), SeatDocument(now), [])
    ensures p == [Key("seat")]
  {
    assert [] + p == p;
    DiffIsFrontier(SeatDocument(was), SeatDocument(now), [], p);
    if p != [] {
      FrontierChild(SeatDocument(was), SeatDocument(now), p);
      LeafFrontier(Bool(was), Bool(now), p[1..]);
    }
  }
}
