/** `sorted` on a set of strings: code-point lexicographic order. */
module Sorting {

  predicate Before(a: string, b: string) {
    a == [] || (b != [] && (a[0] < b[0] || (a[0] == b[0] && Before(a[1..], b[1..]))))
  }

  lemma {:induction false} BeforeTotal(a: string, b: string)
    ensures Before(a, b) || Before(b, a)
  {
    if a != [] && b != [] && a[0] == b[0] { BeforeTotal(a[1..], b[1..]); }
  }

  lemma {:induction false} BeforeAntisymmetric(a: string, b: string)
    requires Before(a, b) && Before(b, a)
    ensures a == b
  {
    if a != [] {
      BeforeAntisymmetric(a[1..], b[1..]);
      assert a == [a[0]] + a[1..] && b == [b[0]] + b[1..];
    }
  }

  lemma {:induction false} BeforeTransitive(a: string, b: string, c: string)
    requires Before(a, b) && Before(b, c)
    ensures Before(a, c)
  {
    if a != [] && a[0] == b[0] == c[0] { BeforeTransitive(a[1..], b[1..], c[1..]); }
  }

  ghost predicate IsFirst(m: string, s: set<string>) { m in s && forall x :: x in s ==> Before(m, x) }

  lemma {:induction false} FirstExists(s: set<string>)
    requires s != {}
    ensures exists m :: IsFirst(m, s)
  {
    var x :| x in s;
    BeforeTotal(x, x);
    if s == {x} {
      assert IsFirst(x, s);
    } else {
      FirstExists(s - {x});
      var m :| IsFirst(m, s - {x});
      BeforeTotal(x, m);
      if Before(m, x) {
        assert IsFirst(m, s);
      } else {
        forall y | y in s ensures Before(x, y) {
          if y != x { BeforeTransitive(x, m, y); }
        }
        assert IsFirst(x, s);
      }
    }
  }

  ghost function First(s: set<string>): (m: string)
    requires s != {}
    ensures IsFirst(m, s)
  {
    FirstExists(s);
    var m :| IsFirst(m, s);
    m
  }

  ghost function Sorted(s: set<string>): seq<string>
    decreases |s|
  {
    if s == {} then [] else [First(s)] + Sorted(s - {First(s)})
  }

  lemma {:induction false} SortedElements(s: set<string>)
    ensures forall x :: x in Sorted(s) <==> x in s
    ensures forall i, j :: 0 <= i < j < |Sorted(s)| ==> Sorted(s)[i] != Sorted(s)[j]
    decreases |s|
  {
    if s != {} { SortedElements(s - {First(s)}); }
  }

  method Least(s: set<string>) returns (m: string)
    requires s != {}
    ensures IsFirst(m, s)
  {
    hide Before;
    m :| m in s;
    var others := s - {m};
    BeforeTotal(m, m);
    while others != {}
      invariant others <= s && m in s
      invariant forall x :: x in s - others ==> Before(m, x)
      decreases |others|
    {
      var x :| x in others;
      ghost var seen := s - others;
      BeforeTotal(x, m);
      BeforeTotal(x, x);
      if !Before(m, x) {
        forall y | y in seen ensures Before(x, y) { BeforeTransitive(x, m, y); }
        m := x;
      }
      others := others - {x};
    }
    assert s - {} == s;
  }

  /** `sorted(keys)`, by repeated selection of the least element. */
  method Sort(s: set<string>) returns (r: seq<string>)
    ensures r == Sorted(s)
  {
    r := [];
    var left := s;
    while left != {}
      invariant r + Sorted(left) == Sorted(s)
      decreases |left|
    {
      var m := Least(left);
      BeforeAntisymmetric(m, First(left));
      assert r + Sorted(left) == (r + [m]) + Sorted(left - {m});
      r := r + [m];
      left := left - {m};
    }
  }
}
