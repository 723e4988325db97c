/**
 * The live-writability judgement on dotted paths (config_applier/safety.py): the text form
 * the source computes, and the segment form it amounts to on well-formed keys.
 */
module ConfigPaths {
  import opened Text
  import opened ConfigTree

  const DOT: char := '.'
  const WILD: string := "*"

  /** The allow-list, as segments of its dotted entries. */
  const LIVE_WRITABLE: seq<seq<string>> := [
    ["personas", "*", "entitlements", "exposure"],
    ["personas", "*", "skills", "*", "initiation"],
    ["scope", "inbound_allow_from"],
    ["scope", "admins"],
    ["escalation"],
    ["webhook_triggers"],
    ["personas", "*", "skills", "*", "enabled"],
    ["personas", "*", "skills", "*", "settings"],
    ["seat"],
    ["output_classes"]
  ]

  /** The never-list. */
  const NEVER_LIVE: seq<seq<string>> := [
    ["vertical"],
    ["model"],
    ["memory"],
    ["hermes_ref"],
    ["customer_id"],
    ["fly_region"],
    ["connectors"],
    ["personas", "*", "google_auth"],
    ["personas", "*", "oauth"],
    ["personas", "*", "slug"],
    ["personas", "*", "status"],
    ["personas", "*", "tone"],
    ["seat", "role"],
    ["people"],
    ["spaces"]
  ]

  // ---------------------------------------------------------------------------
  // Text form
  // ---------------------------------------------------------------------------

  function DotSplit(t: string): (r: seq<string>)
    ensures r != []
    decreases |t|
  {
    CutLonger(t, DOT);
    var (head, tail) := Cut(t, DOT);
    match tail case None => [head] case Some(rest) => [head] + DotSplit(rest)
  }

  function DotJoin(parts: seq<string>): string {
    if parts == [] then "" else if |parts| == 1 then parts[0] else parts[0] + [DOT] + DotJoin(parts[1..])
  }

  function Wild(ch: Chars, part: string): string {
    if IsNumeric(ch, part) then WILD else part
  }

  function WildAll(ch: Chars, parts: seq<string>): (r: seq<string>)
    ensures |r| == |parts| && forall i :: 0 <= i < |parts| ==> r[i] == Wild(ch, parts[i])
  {
    seq(|parts|, i requires 0 <= i < |parts| => Wild(ch, parts[i]))
  }

  /** `_normalize_path` */
  function Normalize(ch: Chars, path: string): string {
    DotJoin(WildAll(ch, DotSplit(path)))
  }

  /** `_matches_prefix` */
  predicate MatchesPrefix(normalized: string, prefix: string) {
    normalized == prefix || prefix + [DOT] <= normalized
  }

  predicate Listed(normalized: string, list: seq<seq<string>>) {
    exists i :: 0 <= i < |list| && MatchesPrefix(normalized, DotJoin(list[i]))
  }

  /** `live_writable` */
  predicate LiveWritableText(ch: Chars, path: string) {
    Strip(ch, path) != "" &&
    var n := Normalize(ch, Strip(ch, path));
    !Listed(n, NEVER_LIVE) && Listed(n, LIVE_WRITABLE)
  }

  /** `rebuild_class` */
  predicate RebuildClassText(ch: Chars, path: string) {
    Strip(ch, path) != "" && Listed(Normalize(ch, Strip(ch, path)), NEVER_LIVE)
  }

  function SegText(seg: Seg): string {
    match seg case Key(k) => k case Index(i) => Digits(i)
  }

  function SegTexts(p: Path): (r: seq<string>)
    ensures |r| == |p| && forall i :: 0 <= i < |p| ==> r[i] == SegText(p[i])
  {
    seq(|p|, i requires 0 <= i < |p| => SegText(p[i]))
  }

  /** `_join` */
  function Joined(prefix: string, segment: string): string {
    if prefix == "" then segment else prefix + [DOT] + segment
  }

  /**
   * The dotted text of a path, joined segment by segment as the source does: an empty prefix
   * leaves no dot behind. An empty text is reported as "."; neither is on any list.
   */
  function Render(p: Path): string {
    if p == [] then "" else Joined(Render(p[..|p| - 1]), SegText(p[|p| - 1]))
  }

  // ---------------------------------------------------------------------------
  // Segment form
  // ---------------------------------------------------------------------------

  function SegNorm(seg: Seg): string {
    match seg case Key(k) => k case Index(_) => WILD
  }

  function Norm(p: Path): (r: seq<string>)
    ensures |r| == |p| && forall i :: 0 <= i < |p| ==> r[i] == SegNorm(p[i])
  {
    seq(|p|, i requires 0 <= i < |p| => SegNorm(p[i]))
  }

  predicate Under(n: seq<string>, list: seq<seq<string>>) {
    exists i :: 0 <= i < |list| && list[i] <= n
  }

  predicate Rebuild(p: Path) {
    Under(Norm(p), NEVER_LIVE)
  }

  predicate LiveWritable(p: Path) {
    !Rebuild(p) && Under(Norm(p), LIVE_WRITABLE)
  }

  /** Mapping keys the two forms agree on: no dot, not all digits, no space at either end. */
  predicate WellFormedKey(ch: Chars, k: string) {
    k != "" && DOT !in k && !IsNumeric(ch, k) && !IsSpace(ch, k[0]) && !IsSpace(ch, k[|k| - 1])
  }

  predicate WellFormed(ch: Chars, p: Path) {
    forall i :: 0 <= i < |p| ==> p[i].Key? ==> WellFormedKey(ch, p[i].name)
  }

  // ---------------------------------------------------------------------------
  // The two forms agree
  // ---------------------------------------------------------------------------

  ghost predicate DotFree(parts: seq<string>) {
    forall i :: 0 <= i < |parts| ==> DOT !in parts[i]
  }

  lemma {:induction false} SplitOfJoin(parts: seq<string>)
    requires parts != [] && DotFree(parts)
    ensures DotSplit(DotJoin(parts)) == parts
  {
    if |parts| == 1 {
      CutNone(parts[0], DOT);
    } else {
      SplitOfJoin(parts[1..]);
      CutAt(parts[0], DOT, DotJoin(parts[1..]));
    }
  }

  lemma {:induction false} JoinAppend(a: seq<string>, b: seq<string>)
    requires a != [] && b != []
    ensures DotJoin(a + b) == DotJoin(a) + [DOT] + DotJoin(b)
  {
    if |a| == 1 {
      assert (a + b)[1..] == b;
    } else {
      JoinAppend(a[1..], b);
      assert (a + b)[1..] == a[1..] + b;
    }
  }

  lemma {:induction false} SplitAppend(t: string, u: string)
    ensures DotSplit(t + [DOT] + u) == DotSplit(t) + DotSplit(u)
    decreases |t|
  {
    var (head, tail) := Cut(t, DOT);
    CutLonger(t, DOT);
    CutParts(t, DOT);
    match tail {
      case None =>
        CutAt(t, DOT, u);
      case Some(rest) =>
        SplitAppend(rest, u);
        CutAt(head, DOT, rest + [DOT] + u);
        assert t + [DOT] + u == head + [DOT] + (rest + [DOT] + u);
    }
  }

  /** On dot-free parts, the text test at a segment boundary is the prefix test on segments. */
  lemma PrefixOnText(n: seq<string>, prefix: seq<string>)
    requires n != [] && prefix != [] && DotFree(n) && DotFree(prefix)
    ensures MatchesPrefix(DotJoin(n), DotJoin(prefix)) <==> prefix <= n
  {
    SplitOfJoin(n);
    SplitOfJoin(prefix);
    var t, u := DotJoin(n), DotJoin(prefix);
    if prefix <= n && prefix != n {
      JoinAppend(prefix, n[|prefix|..]);
      assert n == prefix + n[|prefix|..];
    }
    if u + [DOT] <= t {
      var rest := t[|u| + 1..];
      assert t == u + [DOT] + rest;
      SplitAppend(u, rest);
    }
  }

  lemma ListsDotFree()
    ensures forall i :: 0 <= i < |NEVER_LIVE| ==> NEVER_LIVE[i] != [] && DotFree(NEVER_LIVE[i])
    ensures forall i :: 0 <= i < |LIVE_WRITABLE| ==> LIVE_WRITABLE[i] != [] && DotFree(LIVE_WRITABLE[i])
  {
  }

  lemma ListedIsUnder(n: seq<string>, list: seq<seq<string>>)
    requires n != [] && DotFree(n)
    requires forall i :: 0 <= i < |list| ==> list[i] != [] && DotFree(list[i])
    ensures Listed(DotJoin(n), list) <==> Under(n, list)
  {
    forall i | 0 <= i < |list|
      ensures MatchesPrefix(DotJoin(n), DotJoin(list[i])) <==> list[i] <= n
    {
      PrefixOnText(n, list[i]);
    }
  }

  lemma DigitsPlain(ch: Chars, t: string)
    requires AllDigits(t)
    ensures DOT !in t && !IsSpace(ch, t[0]) && !IsSpace(ch, t[|t| - 1]) && IsNumeric(ch, t)
  {
  }

  lemma SegTextPlain(ch: Chars, seg: Seg)
    requires seg.Key? ==> WellFormedKey(ch, seg.name)
    ensures var t := SegText(seg);
      t != "" && DOT !in t && !IsSpace(ch, t[0]) && !IsSpace(ch, t[|t| - 1]) && Wild(ch, t) == SegNorm(seg)
  {
    if seg.Index? { DigitsPlain(ch, Digits(seg.n)); }
  }

  lemma {:induction false} JoinEnds(parts: seq<string>)
    requires parts != [] && forall i :: 0 <= i < |parts| ==> parts[i] != ""
    ensures var t := DotJoin(parts);
      t != "" && t[0] == parts[0][0] && t[|t| - 1] == parts[|parts| - 1][|parts[|parts| - 1]| - 1]
  {
    if |parts| > 1 {
      JoinEnds(parts[1..]);
    }
  }

  lemma TextsPlain(ch: Chars, p: Path)
    requires WellFormed(ch, p)
    ensures DotFree(SegTexts(p)) && DotFree(Norm(p))
    ensures forall i :: 0 <= i < |p| ==> SegTexts(p)[i] != ""
    ensures WildAll(ch, SegTexts(p)) == Norm(p)
  {
    forall i | 0 <= i < |p|
      ensures SegText(p[i]) != "" && DOT !in SegText(p[i]) && Wild(ch, SegText(p[i])) == SegNorm(p[i])
      ensures DOT !in SegNorm(p[i])
    {
      SegTextPlain(ch, p[i]);
    }
  }

  /** Past a first segment that is not empty, joining is joining with dots. */
  lemma {:induction false} RenderIsJoin(p: Path)
    requires p != [] && SegText(p[0]) != ""
    ensures Render(p) == DotJoin(SegTexts(p)) != ""
  {
    var n := |p| - 1;
    if n == 0 {
      assert p[..0] == [] && SegTexts(p) == [SegText(p[0])];
    } else {
      RenderIsJoin(p[..n]);
      JoinAppend(SegTexts(p[..n]), [SegText(p[n])]);
      assert SegTexts(p) == SegTexts(p[..n]) + [SegText(p[n])];
    }
  }

  /** A rendered well-formed path has no space at either end. */
  lemma RenderEnds(ch: Chars, p: Path)
    requires p != [] && WellFormed(ch, p)
    ensures var t := Render(p);
      t == DotJoin(SegTexts(p)) != "" && !IsSpace(ch, t[0]) && !IsSpace(ch, t[|t| - 1])
  {
    TextsPlain(ch, p);
    var texts, n := SegTexts(p), |p| - 1;
    SegTextPlain(ch, p[0]);
    SegTextPlain(ch, p[n]);
    assert texts[0] == SegText(p[0]) && texts[n] == SegText(p[n]);
    JoinEnds(texts);
    RenderIsJoin(p);
  }

  lemma NormalizeRendered(ch: Chars, p: Path)
    requires p != [] && WellFormed(ch, p)
    ensures Strip(ch, Render(p)) == Render(p) != ""
    ensures Normalize(ch, Render(p)) == DotJoin(Norm(p)) && DotFree(Norm(p))
  {
    RenderEnds(ch, p);
    StripPlain(ch, Render(p));
    TextsPlain(ch, p);
    SplitOfJoin(SegTexts(p));
  }

  /**
   * The text judgement on a rendered path is the segment judgement on the path, for every
   * path whose keys are well formed.
   */
  lemma JudgementsAgree(ch: Chars, p: Path)
    requires WellFormed(ch, p)
    ensures LiveWritableText(ch, Render(p)) <==> LiveWritable(p)
    ensures RebuildClassText(ch, Render(p)) <==> Rebuild(p)
  {
    ListsDotFree();
    if p == [] {
      EmptyIsListedNowhere();
    } else {
      NormalizeRendered(ch, p);
      ListedIsUnder(Norm(p), NEVER_LIVE);
      ListedIsUnder(Norm(p), LIVE_WRITABLE);
    }
  }

  lemma EmptyIsListedNowhere()
    ensures !LiveWritable([]) && !Rebuild([])
  {
    assert Norm([]) == [];
    ListsDotFree();
  }

  /** An empty text, and the "." reported for it, are on no list. */
  lemma RootIsListedNowhere(ch: Chars)
    ensures !LiveWritableText(ch, "") && !RebuildClassText(ch, "")
    ensures !LiveWritableText(ch, ".") && !RebuildClassText(ch, ".")
  {
    var parts := ["", ""];
    ListsDotFree();
    assert DotJoin(parts) == "." by {
      assert parts[1..] == [""];
      assert DotJoin([""]) == "";
    }
    SplitOfJoin(parts);
    StripPlain(ch, ".");
    assert WildAll(ch, DotSplit(".")) == parts;
    ListedIsUnder(parts, NEVER_LIVE);
    ListedIsUnder(parts, LIVE_WRITABLE);
  }

  // ---------------------------------------------------------------------------
  // Below the never-list
  // ---------------------------------------------------------------------------

  lemma {:induction false} StripKeepsHead(ch: Chars, head: string, rest: string)
    requires head != "" && !IsSpace(ch, head[0]) && !IsSpace(ch, head[|head| - 1])
    ensures exists tail :: Strip(ch, head + rest) == head + tail && tail <= rest
    decreases |rest|
  {
    var t := head + rest;
    if rest == "" {
      assert t == head;
      assert Strip(ch, t) == head + "";
    } else if IsSpace(ch, rest[|rest| - 1]) {
      var less := rest[..|rest| - 1];
      assert t[..|t| - 1] == head + less;
      StripKeepsHead(ch, head, less);
      var tail :| Strip(ch, head + less) == head + tail && tail <= less;
      assert Strip(ch, t) == head + tail && tail <= rest;
    } else {
      assert Strip(ch, t) == head + rest;
    }
  }

  lemma WildAppend(ch: Chars, a: seq<string>, b: seq<string>)
    ensures WildAll(ch, a + b) == WildAll(ch, a) + WildAll(ch, b)
  {
  }

  lemma NormalizeAppend(ch: Chars, t: string, u: string)
    ensures Normalize(ch, t + [DOT] + u) == Normalize(ch, t) + [DOT] + Normalize(ch, u)
  {
    var a, b := DotSplit(t), DotSplit(u);
    SplitAppend(t, u);
    WildAppend(ch, a, b);
    JoinAppend(WildAll(ch, a), WildAll(ch, b));
  }

  /** Normalizing what follows a well-formed path leaves that path's part alone. */
  lemma HeadSurvives(ch: Chars, h: Path, tail: string)
    requires h != [] && WellFormed(ch, h)
    ensures DotJoin(Norm(h)) + [DOT] <= Normalize(ch, Render(h) + [DOT] + tail)
  {
    NormalizeRendered(ch, h);
    NormalizeAppend(ch, Render(h), tail);
  }

  lemma PrefixExtends(text: string, prefix: string, more: string)
    requires MatchesPrefix(text, prefix) && text + [DOT] <= more
    ensures MatchesPrefix(more, prefix)
  {
  }

  lemma TextsAppend(h: Path, rest: Path)
    ensures SegTexts(h + rest) == SegTexts(h) + SegTexts(rest)
  {
  }

  lemma RenderSplits(h: Path, rest: Path)
    requires h != [] && SegText(h[0]) != "" && rest != []
    ensures Render(h + rest) == Render(h) + [DOT] + DotJoin(SegTexts(rest))
  {
    var p, a, b := h + rest, SegTexts(h), SegTexts(rest);
    assert p[0] == h[0];
    RenderIsJoin(h);
    RenderIsJoin(p);
    TextsAppend(h, rest);
    JoinAppend(a, b);
  }

  lemma OnNeverList(ch: Chars, h: Path, text: string)
    requires h != [] && WellFormed(ch, h) && Rebuild(h) && DotJoin(Norm(h)) + [DOT] <= text
    ensures Listed(text, NEVER_LIVE)
  {
    TextsPlain(ch, h);
    ListsDotFree();
    var i :| 0 <= i < |NEVER_LIVE| && NEVER_LIVE[i] <= Norm(h);
    PrefixOnText(Norm(h), NEVER_LIVE[i]);
    PrefixExtends(DotJoin(Norm(h)), DotJoin(NEVER_LIVE[i]), text);
  }

  /** Stripping what is rendered below a well-formed path leaves that path and a dot in front. */
  lemma StrippedBelow(ch: Chars, h: Path, rest: Path) returns (tail: string)
    requires h != [] && WellFormed(ch, h) && rest != []
    ensures Strip(ch, Render(h + rest)) == Render(h) + [DOT] + tail
  {
    SegTextPlain(ch, h[0]);
    RenderSplits(h, rest);
    RenderEnds(ch, h);
    var head, below := Render(h) + [DOT], DotJoin(SegTexts(rest));
    StripKeepsHead(ch, head, below);
    tail :| Strip(ch, head + below) == head + tail && tail <= below;
  }

  /** Whatever the keys below look like, no path at or under a never-list path is writable. */
  lemma NothingWritableBelow(ch: Chars, h: Path, rest: Path)
    requires h != [] && WellFormed(ch, h) && Rebuild(h)
    ensures !LiveWritableText(ch, Render(h + rest))
  {
    if rest == [] {
      assert h + rest == h;
      JudgementsAgree(ch, h);
    } else {
      var tail := StrippedBelow(ch, h, rest);
      HeadSurvives(ch, h, tail);
      OnNeverList(ch, h, Normalize(ch, Render(h) + [DOT] + tail));
    }
  }

  /** The never-list wins: no path on it is live-writable, nor anything below. */
  lemma RebuildIsHereditary(p: Path, q: Path)
    requires p <= q
    ensures Rebuild(p) ==> Rebuild(q) && !LiveWritable(q)
  {
    if i :| 0 <= i < |NEVER_LIVE| && NEVER_LIVE[i] <= Norm(p) {
      assert NEVER_LIVE[i] <= Norm(q);
    }
  }
}
