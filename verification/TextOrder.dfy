/** `sorted` on a set of strings: lexicographic order, least first. */
module TextOrder {
  import opened Basics

  predicate TextLe(a: string, b: string) {
    a == "" || (b != "" && (a[0] < b[0] || (a[0] == b[0] && TextLe(a[1..], b[1..]))))
  }

  lemma {:induction false} TextLeTotal(a: string, b: string)
    ensures TextLe(a, b) || TextLe(b, a)
  {
    if a != "" && b != "" && a[0] == b[0] {
      TextLeTotal(a[1..], b[1..]);
    }
  }

  lemma {:induction false} TextLeAntisymmetric(a: string, b: string)
    requires TextLe(a, b) && TextLe(b, a)
    ensures a == b
  {
    if a != "" {
      TextLeAntisymmetric(a[1..], b[1..]);
      assert a == [a[0]] + a[1..] && b == [b[0]] + b[1..];
    }
  }

  lemma {:induction false} TextLeTransitive(a: string, b: string, c: string)
    requires TextLe(a, b) && TextLe(b, c)
    ensures TextLe(a, c)
  {
    if a != "" && a[0] == b[0] && b[0] == c[0] {
      TextLeTransitive(a[1..], b[1..], c[1..]);
    }
  }

  ghost predicate IsLeast(s: set<string>, k: string) {
    k in s && forall j :: j in s ==> TextLe(k, j)
  }

  lemma {:induction false} LeastExists(s: set<string>)
    requires s != {}
    ensures exists k :: IsLeast(s, k)
  {
    var x :| x in s;
    if s == {x} {
      TextLeTotal(x, x);
      assert IsLeast(s, x);
    } else {
      LeastExists(s - {x});
      var y :| IsLeast(s - {x}, y);
      TextLeTotal(x, y);
      TextLeTotal(x, x);
      if TextLe(x, y) {
        forall j | j in s
          ensures TextLe(x, j)
        {
          if j != x { TextLeTransitive(x, y, j); }
        }
        assert IsLeast(s, x);
      } else {
        assert IsLeast(s, y);
      }
    }
  }

  /** `sorted(keys)`. */
  ghost function Sorted(s: set<string>): seq<string>
    decreases s
  {
    if s == {} then [] else
      LeastExists(s);
      var k :| IsLeast(s, k);
      [k] + Sorted(s - {k})
  }

  lemma {:induction false} SortedMembers(s: set<string>)
    ensures Distinct(Sorted(s))
    ensures forall k :: k in Sorted(s) <==> k in s
    decreases s
  {
    if s != {} {
      LeastExists(s);
      var k :| IsLeast(s, k) && Sorted(s) == [k] + Sorted(s - {k});
      SortedMembers(s - {k});
    }
  }

  /** `sorted(...)` by repeated selection. */
  method SortKeys(s: set<string>) returns (ks: seq<string>)
    ensures ks == Sorted(s)
  {
    ks := [];
    var rest := s;
    while rest != {}
      invariant Sorted(s) == ks + Sorted(rest)
      decreases rest
    {
      LeastExists(rest);
      var k :| k in rest && forall j :: j in rest ==> TextLe(k, j);
      ghost var least :| IsLeast(rest, least) && Sorted(rest) == [least] + Sorted(rest - {least});
      TextLeAntisymmetric(k, least);
      ks := ks + [k];
      rest := rest - {k};
    }
  }
}
