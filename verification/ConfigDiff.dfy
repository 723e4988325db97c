/**
 * `changed_paths`, `_same_value`, `_diff_mappings` and `_diff_lists`
 * (config_applier/safety.py) as the mutually recursive loops they are. Each nested call
 * works on a strictly smaller subtree, or on the same tree at a lower rank.
 */
module ConfigDiff {
  import opened TextOrder
  import opened ConfigTree
  import opened DiffTheorems

  /** Whether anything is reported does not depend on the prefix. */
  lemma SilentAnywhere(was: Value, now: Value, at: Path)
    ensures Diff(was, now, at) == [] <==> Diff(was, now, []) == []
  {
    if Diff(was, now, at) != [] {
      var p := Diff(was, now, at)[0];
      DiffBelow(was, now, at, p);
      var rel := p[|at|..];
      assert at + rel == p && [] + rel == rel;
      DiffIsFrontier(was, now, at, rel);
      DiffIsFrontier(was, now, [], rel);
    }
    if Diff(was, now, []) != [] {
      var rel := Diff(was, now, [])[0];
      assert [] + rel == rel;
      DiffIsFrontier(was, now, [], rel);
      DiffIsFrontier(was, now, at, rel);
    }
  }

  method ChangedPaths(was: Value, now: Value, at: Path) returns (paths: seq<Path>)
    ensures paths == Diff(was, now, at)
    decreases was, 3
  {
    var same := SameValue(was, now);
    if same {
      SilentAnywhere(was, now, at);
      return [];
    }
    if was.Mapping? && now.Mapping? {
      paths := DiffMappings(was, now, at);
    } else if was.Listing? && now.Listing? {
      paths := DiffLists(was, now, at);
    } else {
      paths := [at];
    }
  }

  /** `_same_value` agrees with the diff, and with equality of the two trees. */
  method SameValue(was: Value, now: Value) returns (same: bool)
    ensures same <==> Diff(was, now, []) == []
    ensures same <==> Image(was) == Image(now)
    decreases was, 2
  {
    NoDiffIffEqual(was, now);
    if was.Mapping? && now.Mapping? {
      var paths := DiffMappings(was, now, []);
      return paths == [];
    }
    if was.Listing? && now.Listing? {
      var paths := DiffLists(was, now, []);
      return paths == [];
    }
    if was.Mapping? || now.Mapping? || was.Listing? || now.Listing? {
      return false;
    }
    same := ScalarEq(was.scalar, now.scalar);
  }

  method DiffMappings(was: Value, now: Value, at: Path) returns (paths: seq<Path>)
    requires was.Mapping? && now.Mapping?
    ensures paths == Diff(was, now, at)
    decreases was, 1
  {
    paths := [];
    var keys := SortKeys(Keys(was.entries) + Keys(now.entries));
    ghost var segs := Steps(was, now);
    for i := 0 to |keys|
      invariant paths == DiffSteps(was, now, segs[..i], at)
    {
      assert segs[..i + 1][..i] == segs[..i] && segs[i] == Key(keys[i]);
      var seg := Key(keys[i]);
      StepsCover(was, now, seg);
      var mine, theirs := Child(was, seg), Child(now, seg);
      if mine.None? || theirs.None? {
        paths := paths + [at + [seg]];
      } else {
        var deeper := ChangedPaths(mine.value, theirs.value, at + [seg]);
        paths := paths + deeper;
      }
    }
    assert segs[..|keys|] == segs;
  }

  method DiffLists(was: Value, now: Value, at: Path) returns (paths: seq<Path>)
    requires was.Listing? && now.Listing?
    ensures paths == Diff(was, now, at)
    decreases was, 1
  {
    paths := [];
    var n := if |was.items| >= |now.items| then |was.items| else |now.items|;
    ghost var segs := Steps(was, now);
    for i := 0 to n
      invariant paths == DiffSteps(was, now, segs[..i], at)
    {
      assert segs[..i + 1][..i] == segs[..i] && segs[i] == Index(i);
      if i >= |was.items| || i >= |now.items| {
        paths := paths + [at + [Index(i)]];
      } else {
        var deeper := ChangedPaths(was.items[i], now.items[i], at + [Index(i)]);
        paths := paths + deeper;
      }
    }
    assert segs[..n] == segs;
  }
}
