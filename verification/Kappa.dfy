/** Cohen's kappa over exact reals: its bounds, when it is one, and why the degenerate zero is never
    reached. */
module Kappa {

  function Count(xs: seq<string>, c: string): (n: nat)
    ensures n <= |xs|
  {
    if xs == [] then 0 else (if xs[0] == c then 1 else 0) + Count(xs[1..], c)
  }

  /** Positions where both lists hold the same label. */
  function Matches(gold: seq<string>, judged: seq<string>): (n: nat)
    requires |gold| == |judged|
    ensures n <= |gold|
  {
    if gold == [] then 0 else (if gold[0] == judged[0] then 1 else 0) + Matches(gold[1..], judged[1..])
  }

  /** Positions where both lists hold `c`. */
  function Both(gold: seq<string>, judged: seq<string>, c: string): nat
    requires |gold| == |judged|
  {
    if gold == [] then 0 else (if gold[0] == judged[0] == c then 1 else 0) + Both(gold[1..], judged[1..], c)
  }

  function Categories(gold: seq<string>, judged: seq<string>): set<string> {
    (set c | c in gold) + (set c | c in judged)
  }

  // ---- sums over categories ----

  ghost function Pick(s: set<string>): string
    requires s != {}
  {
    var c :| c in s; c
  }

  /** How often labels of `s` occur in `xs`. */
  ghost function Total(s: set<string>, xs: seq<string>): int
    decreases |s|
  {
    if s == {} then 0 else Count(xs, Pick(s)) + Total(s - {Pick(s)}, xs)
  }

  ghost function BothTotal(s: set<string>, gold: seq<string>, judged: seq<string>): int
    requires |gold| == |judged|
    decreases |s|
  {
    if s == {} then 0 else Both(gold, judged, Pick(s)) + BothTotal(s - {Pick(s)}, gold, judged)
  }

  function Product(gold: seq<string>, judged: seq<string>, c: string): int { Count(gold, c) * Count(judged, c) }

  ghost function Products(s: set<string>, gold: seq<string>, judged: seq<string>): int
    decreases |s|
  {
    if s == {} then 0 else Product(gold, judged, Pick(s)) + Products(s - {Pick(s)}, gold, judged)
  }

  function Term(gold: seq<string>, judged: seq<string>, c: string): real
    requires |gold| > 0
  {
    Share(Count(gold, c), |gold|) * Share(Count(judged, c), |gold|)
  }

  /** `sum((gold.count(c) / n) * (judged.count(c) / n) for c in categories)` */
  ghost function Chance(s: set<string>, gold: seq<string>, judged: seq<string>): real
    requires |gold| > 0
    decreases |s|
  {
    if s == {} then 0.0 else Term(gold, judged, Pick(s)) + Chance(s - {Pick(s)}, gold, judged)
  }

  /** The sum does not depend on the order of the categories. */
  lemma {:induction false} ChancePick(s: set<string>, gold: seq<string>, judged: seq<string>, c: string)
    requires |gold| > 0 && c in s
    ensures Chance(s, gold, judged) == Term(gold, judged, c) + Chance(s - {c}, gold, judged)
    decreases |s|
  {
    hide Term;
    var p := Pick(s);
    if p != c {
      ChancePick(s - {p}, gold, judged, c);
      ChancePick(s - {c}, gold, judged, p);
      assert s - {p} - {c} == s - {c} - {p};
    }
  }

  // ---- each position counts once ----

  lemma {:induction false} TotalStep(s: set<string>, xs: seq<string>)
    requires xs != []
    ensures Total(s, xs) == (if xs[0] in s then 1 else 0) + Total(s, xs[1..])
    decreases |s|
  {
    if s != {} { TotalStep(s - {Pick(s)}, xs); }
  }

  lemma {:induction false} TotalIsLength(s: set<string>, xs: seq<string>)
    requires forall c :: c in xs ==> c in s
    ensures Total(s, xs) == |xs|
    decreases |xs|
  {
    if xs == [] {
      TotalOfNothing(s);
    } else {
      assert xs[0] in xs;
      TotalStep(s, xs);
      TotalIsLength(s, xs[1..]);
    }
  }

  lemma {:induction false} TotalOfNothing(s: set<string>)
    ensures Total(s, []) == 0
    decreases |s|
  {
    if s != {} { TotalOfNothing(s - {Pick(s)}); }
  }

  lemma {:induction false} BothStep(s: set<string>, gold: seq<string>, judged: seq<string>)
    requires |gold| == |judged| && gold != []
    ensures BothTotal(s, gold, judged)
         == (if gold[0] == judged[0] && gold[0] in s then 1 else 0) + BothTotal(s, gold[1..], judged[1..])
    decreases |s|
  {
    if s != {} { BothStep(s - {Pick(s)}, gold, judged); }
  }

  lemma {:induction false} BothOfNothing(s: set<string>)
    ensures BothTotal(s, [], []) == 0
    decreases |s|
  {
    if s != {} { BothOfNothing(s - {Pick(s)}); }
  }

  lemma {:induction false} BothIsMatches(s: set<string>, gold: seq<string>, judged: seq<string>)
    requires |gold| == |judged| && forall c :: c in gold ==> c in s
    ensures BothTotal(s, gold, judged) == Matches(gold, judged)
    decreases |gold|
  {
    if gold == [] {
      BothOfNothing(s);
    } else {
      assert gold[0] in gold;
      BothStep(s, gold, judged);
      BothIsMatches(s, gold[1..], judged[1..]);
    }
  }

  /** Inclusion and exclusion, for one label. */
  lemma {:induction false} CountsOverlap(gold: seq<string>, judged: seq<string>, c: string)
    requires |gold| == |judged|
    ensures Count(gold, c) + Count(judged, c) <= |gold| + Both(gold, judged, c)
    ensures Both(gold, judged, c) <= Count(gold, c)
  {
    if gold != [] { CountsOverlap(gold[1..], judged[1..], c); }
  }

  // ---- the two bounds on chance agreement ----

  lemma Squares(g: int, j: int)
    ensures 4 * (g * j) <= (g + j) * (g + j)
  {
    assert (g - j) * (g - j) >= 0;
  }

  lemma OneLabelBound(g: int, j: int, n: int, m: int)
    requires 0 <= g <= n && 0 <= j <= n && 0 <= m && g + j <= n + m
    ensures g * j <= n * j
    ensures 4 * (g * j) <= n * (g + j) + 2 * n * m
  {
    Squares(g, j);
    Monotone(g + j, g + j, n + m);
    Monotone(m, g + j, 2 * n);
    Monotone(j, g, n);
    Expand(g + j, n, m);
  }

  lemma Expand(s: int, n: int, m: int)
    ensures s * (n + m) == n * s + s * m && (2 * n) * m == 2 * n * m
  {
  }

  lemma Monotone(k: int, a: int, b: int)
    requires k >= 0 && a <= b
    ensures k * a <= k * b && a * k <= b * k
  {
  }

  lemma {:induction false} ProductBounds(s: set<string>, gold: seq<string>, judged: seq<string>)
    requires |gold| == |judged|
    ensures Products(s, gold, judged) <= |gold| * Total(s, judged)
    ensures 4 * Products(s, gold, judged) <= |gold| * (Total(s, gold) + Total(s, judged)) + 2 * |gold| * BothTotal(s, gold, judged)
    decreases |s|
  {
    if s != {} {
      var c, n, rest := Pick(s), |gold|, s - {Pick(s)};
      ProductBounds(rest, gold, judged);
      CountsOverlap(gold, judged, c);
      OneLabelBound(Count(gold, c), Count(judged, c), n, Both(gold, judged, c));
      Distribute(n, Count(gold, c), Count(judged, c), Both(gold, judged, c),
                 Total(rest, gold), Total(rest, judged), BothTotal(rest, gold, judged));
    }
  }

  lemma Distribute(n: int, g: int, j: int, m: int, G: int, J: int, M: int)
    ensures n * (j + J) == n * j + n * J
    ensures n * ((g + G) + (j + J)) + 2 * n * (m + M) == (n * (g + j) + 2 * n * m) + (n * (G + J) + 2 * n * M)
  {
  }

  function Share(k: int, n: int): real
    requires n > 0
  {
    k as real / n as real
  }

  lemma ShareIs(k: int, n: int)
    requires n > 0
    ensures Share(k, n) * n as real == k as real
  {
  }

  lemma Swap(a: real, b: real, n: real)
    ensures (a * b) * (n * n) == (a * n) * (b * n)
  {
    assert (a * b) * (n * n) == a * (b * (n * n));
    assert b * (n * n) == n * (b * n);
    assert a * (n * (b * n)) == (a * n) * (b * n);
  }

  lemma IntProduct(a: int, b: int)
    ensures (a * b) as real == (a as real) * (b as real)
  {
  }

  lemma TermIs(gold: seq<string>, judged: seq<string>, c: string)
    requires |gold| > 0
    ensures Term(gold, judged, c) * (|gold| * |gold|) as real == (Count(gold, c) * Count(judged, c)) as real
  {
    hide Count, Share;
    var n := |gold|;
    ShareIs(Count(gold, c), n);
    ShareIs(Count(judged, c), n);
    Swap(Share(Count(gold, c), n), Share(Count(judged, c), n), n as real);
    IntProduct(n, n);
    IntProduct(Count(gold, c), Count(judged, c));
  }

  function Scaled(x: real, n: int): real { x * (n * n) as real }

  lemma ScaledAdd(a: real, b: real, n: int)
    ensures Scaled(a + b, n) == Scaled(a, n) + Scaled(b, n)
  {
    Spread(a, b, (n * n) as real);
  }

  lemma TermScaled(gold: seq<string>, judged: seq<string>, c: string)
    requires |gold| > 0
    ensures Scaled(Term(gold, judged, c), |gold|) == Product(gold, judged, c) as real
  {
    hide Term, Count;
    TermIs(gold, judged, c);
  }

  lemma NothingScaled(n: int)
    ensures Scaled(0.0, n) == 0.0
  {
  }

  lemma {:induction false} ChanceIs(s: set<string>, gold: seq<string>, judged: seq<string>)
    requires |gold| > 0
    ensures Scaled(Chance(s, gold, judged), |gold|) == Products(s, gold, judged) as real
    decreases |s|
  {
    hide Term, Product, Scaled;
    if s == {} {
      NothingScaled(|gold|);
    } else {
      ChanceIs(s - {Pick(s)}, gold, judged);
      TermScaled(gold, judged, Pick(s));
      ScaledAdd(Term(gold, judged, Pick(s)), Chance(s - {Pick(s)}, gold, judged), |gold|);
    }
  }

  lemma Spread(a: real, b: real, k: real)
    ensures (a + b) * k == a * k + b * k
  {
  }

  function Observed(gold: seq<string>, judged: seq<string>): real
    requires |gold| == |judged| > 0
  {
    Share(Matches(gold, judged), |gold|)
  }

  lemma ByProducts(P: int, M: int, n: int, pe: real, po: real)
    requires n > 0 && 0 <= M <= n && P <= n * n && 2 * P <= n * n + n * M
    requires pe * (n * n) as real == P as real && po * n as real == M as real
    ensures pe <= 1.0 && po <= 1.0 && 2.0 * pe <= 1.0 + po
    ensures po == 1.0 <==> M == n
  {
    var k := (n * n) as real;
    IntProduct(n, n);
    IntProduct(n, M);
    assert n * n > 0 && k > 0.0;
    assert po * k == (po * n as real) * n as real by { Regroup(po, n as real); }
    Cancel(pe, 1.0, k);
    assert (2 * P) as real == 2.0 * P as real;
    Halves(pe, po, k, P as real);
    Cancel(po, 1.0, n as real);
  }

  lemma Regroup(a: real, n: real)
    ensures a * (n * n) == (a * n) * n
  {
  }

  lemma Halves(pe: real, po: real, k: real, p: real)
    requires k > 0.0 && pe * k == p && 2.0 * p <= k + po * k
    ensures 2.0 * pe <= 1.0 + po
  {
    Spread(1.0, po, k);
    Spread(pe, pe, k);
    Cancel(2.0 * pe, 1.0 + po, k);
  }

  lemma Cancel(a: real, b: real, k: real)
    requires k > 0.0 && a * k <= b * k
    ensures a <= b
  {
  }

  /** Chance agreement is at most one, and at most half of one plus the observed agreement. */
  lemma ChanceBounds(gold: seq<string>, judged: seq<string>)
    requires |gold| == |judged| > 0
    ensures var pe, po := Chance(Categories(gold, judged), gold, judged), Observed(gold, judged);
            && pe <= 1.0 && po <= 1.0 && 2.0 * pe <= 1.0 + po
            && (po == 1.0 <==> Matches(gold, judged) == |gold|)
  {
    hide Count, Both, Chance, Products, Total, BothTotal, Matches, Share;
    var s, n := Categories(gold, judged), |gold|;
    TotalIsLength(s, gold);
    TotalIsLength(s, judged);
    BothIsMatches(s, gold, judged);
    ProductBounds(s, gold, judged);
    ChanceIs(s, gold, judged);
    ShareIs(Matches(gold, judged), n);
    ByProducts(Products(s, gold, judged), Matches(gold, judged), n, Chance(s, gold, judged), Observed(gold, judged));
  }

  // ---- kappa ----

  /** `_cohens_kappa` */
  ghost function CohensKappa(gold: seq<string>, judged: seq<string>): real
    requires |gold| == |judged|
  {
    if |gold| == 0 then 0.0 else
      var po, pe := Observed(gold, judged), Chance(Categories(gold, judged), gold, judged);
      if pe >= 1.0 then (if po >= 1.0 then 1.0 else 0.0) else Divide(po - pe, 1.0 - pe)
  }

  lemma {:induction false} AllMatch(gold: seq<string>, judged: seq<string>)
    requires |gold| == |judged|
    ensures Matches(gold, judged) == |gold| <==> gold == judged
  {
    if gold != [] {
      AllMatch(gold[1..], judged[1..]);
      assert gold == [gold[0]] + gold[1..] && judged == [judged[0]] + judged[1..];
    }
  }

  function Divide(a: real, d: real): real
    requires d != 0.0
  {
    a / d
  }

  lemma DivideIs(a: real, d: real)
    requires d != 0.0
    ensures Divide(a, d) * d == a
  {
  }

  lemma Quotient(po: real, pe: real)
    requires pe < 1.0 && po <= 1.0 && 2.0 * pe <= 1.0 + po
    ensures -1.0 <= Divide(po - pe, 1.0 - pe) <= 1.0
    ensures Divide(po - pe, 1.0 - pe) == 1.0 <==> po == 1.0
  {
    hide Divide;
    var k, d := Divide(po - pe, 1.0 - pe), 1.0 - pe;
    DivideIs(po - pe, d);
    assert -1.0 * d == -d && 1.0 * d == d;
    Cancel(k, 1.0, d);
    Cancel(-1.0, k, d);
    if po == 1.0 { Cancel(1.0, k, d); }
  }

  /** Kappa lies between minus one and one; for non-empty lists it is one exactly when the judge agrees
      everywhere; and whenever chance agreement reaches one the judge does agree everywhere, so the
      degenerate answer zero is never given. */
  lemma KappaBounds(gold: seq<string>, judged: seq<string>)
    requires |gold| == |judged|
    ensures -1.0 <= CohensKappa(gold, judged) <= 1.0
    ensures gold != [] ==> (CohensKappa(gold, judged) == 1.0 <==> gold == judged)
    ensures gold != [] && Chance(Categories(gold, judged), gold, judged) >= 1.0 ==> gold == judged
  {
    hide Chance, Matches, Divide, Share;
    if gold != [] {
      ChanceBounds(gold, judged);
      AllMatch(gold, judged);
      var po, pe := Observed(gold, judged), Chance(Categories(gold, judged), gold, judged);
      if pe < 1.0 { Quotient(po, pe); }
    }
  }

  // ---- kappa from the positions alone ----

  lemma {:induction false} CountFront(xs: seq<string>, c: string)
    requires xs != []
    ensures Count(xs, c) == Count(xs[..|xs| - 1], c) + (if xs[|xs| - 1] == c then 1 else 0)
  {
    if |xs| == 1 {
      assert xs[..0] == [] && xs[1..] == [];
    } else {
      assert xs[1..][..|xs| - 2] == xs[..|xs| - 1][1..];
      CountFront(xs[1..], c);
    }
  }

  /** The places of `xs` that hold `c`, in row `i`. */
  ghost function RowPairs(i: int, xs: seq<string>, c: string): set<(int, int)> { set k | 0 <= k < |xs| && xs[k] == c :: (i, k) }

  lemma {:induction false} RowCount(i: int, xs: seq<string>, c: string)
    ensures |RowPairs(i, xs, c)| == Count(xs, c)
  {
    hide Count;
    if xs == [] {
      NoCount(c);
      assert RowPairs(i, xs, c) == {};
    } else {
      var m := |xs| - 1;
      RowCount(i, xs[..m], c);
      CountFront(xs, c);
      assert RowPairs(i, xs, c) == RowPairs(i, xs[..m], c) + (if xs[m] == c then {(i, m)} else {});
      assert (i, m) !in RowPairs(i, xs[..m], c);
    }
  }

  lemma NoCount(c: string)
    ensures Count([], c) == 0
  {
  }

  /** The pairs of positions, one in each list, that hold the same label. */
  ghost function SamePairs(gold: seq<string>, judged: seq<string>): set<(int, int)> {
    set i, k | 0 <= i < |gold| && 0 <= k < |judged| && gold[i] == judged[k] :: (i, k)
  }

  ghost function SamePlaces(gold: seq<string>, judged: seq<string>): set<int>
    requires |gold| == |judged|
  {
    set i | 0 <= i < |gold| && gold[i] == judged[i]
  }

  lemma SamePairsGrow(gold: seq<string>, judged: seq<string>)
    requires gold != []
    ensures |SamePairs(gold, judged)| == |SamePairs(gold[..|gold| - 1], judged)| + Count(judged, gold[|gold| - 1])
  {
    hide Count;
    var m := |gold| - 1;
    RowCount(m, judged, gold[m]);
    var s, t, row := SamePairs(gold[..m], judged), SamePairs(gold, judged), RowPairs(m, judged, gold[m]);
    assert t == s + row;
    assert s !! row;
  }

  lemma {:induction false} ProductsGrow(s: set<string>, gold: seq<string>, judged: seq<string>)
    requires gold != []
    ensures Products(s, gold, judged)
         == Products(s, gold[..|gold| - 1], judged) + (if gold[|gold| - 1] in s then Count(judged, gold[|gold| - 1]) else 0)
    decreases |s|
  {
    hide Count;
    if s != {} {
      var c, front := Pick(s), gold[..|gold| - 1];
      ProductsGrow(s - {c}, gold, judged);
      CountFront(gold, c);
      if gold[|gold| - 1] == c { OneMore(Count(front, c), Count(judged, c)); }
    }
  }

  lemma OneMore(a: int, b: int)
    ensures (a + 1) * b == a * b + b
  {
  }

  lemma {:induction false} ProductsOfNothing(s: set<string>, judged: seq<string>)
    ensures Products(s, [], judged) == 0
    decreases |s|
  {
    if s != {} { ProductsOfNothing(s - {Pick(s)}, judged); }
  }

  lemma {:induction false} ProductsArePairs(s: set<string>, gold: seq<string>, judged: seq<string>)
    requires forall c :: c in gold ==> c in s
    ensures Products(s, gold, judged) == |SamePairs(gold, judged)|
  {
    hide Count, Products;
    if gold == [] {
      ProductsOfNothing(s, judged);
      assert SamePairs(gold, judged) == {};
    } else {
      ProductsArePairs(s, gold[..|gold| - 1], judged);
      ProductsGrow(s, gold, judged);
      SamePairsGrow(gold, judged);
    }
  }

  lemma {:induction false} MatchesFront(gold: seq<string>, judged: seq<string>)
    requires |gold| == |judged| > 0
    ensures var m := |gold| - 1; Matches(gold, judged) == Matches(gold[..m], judged[..m]) + (if gold[m] == judged[m] then 1 else 0)
  {
    var m := |gold| - 1;
    if m == 0 {
      assert gold[..0] == [] && judged[..0] == [] && gold[1..] == [] && judged[1..] == [];
    } else {
      assert gold[1..][..m - 1] == gold[..m][1..] && judged[1..][..m - 1] == judged[..m][1..];
      MatchesFront(gold[1..], judged[1..]);
    }
  }

  lemma {:induction false} MatchesArePlaces(gold: seq<string>, judged: seq<string>)
    requires |gold| == |judged|
    ensures Matches(gold, judged) == |SamePlaces(gold, judged)|
  {
    hide Matches;
    if gold == [] {
      NowhereTheSame();
      assert SamePlaces(gold, judged) == {};
    } else {
      var m := |gold| - 1;
      MatchesArePlaces(gold[..m], judged[..m]);
      MatchesFront(gold, judged);
      assert SamePlaces(gold, judged) == SamePlaces(gold[..m], judged[..m]) + (if gold[m] == judged[m] then {m} else {});
    }
  }

  lemma NowhereTheSame()
    ensures Matches([], []) == 0
  {
  }

  lemma Cleared(k: real, pe: real, po: real, n: int, P: int, M: int)
    requires k * (1.0 - pe) == po - pe && pe * (n * n) as real == P as real && po * n as real == M as real
    ensures k * (n * n - P) as real == (n * M - P) as real
  {
    var N := (n * n) as real;
    Spread(1.0, -pe, N);
    Spread(po, -pe, N);
    assert (1.0 - pe) * N == N - P as real;
    IntProduct(n, n);
    Regroup(po, n as real);
    IntProduct(M, n);
    assert po * N == (n * M) as real;
    assert (po - pe) * N == (n * M) as real - P as real;
    assert k * ((1.0 - pe) * N) == (k * (1.0 - pe)) * N by { Triple(k, 1.0 - pe, N); }
  }

  lemma Triple(a: real, b: real, c: real)
    ensures a * (b * c) == (a * b) * c
  {
  }

  /** Kappa from the lists themselves: with `n` entries, `m` places where they agree and `p` pairs of places that hold
      the same label, kappa is `(n * m - p) / (n * n - p)`; and one when every pair does. */
  lemma KappaFromPlaces(gold: seq<string>, judged: seq<string>)
    requires |gold| == |judged| > 0
    ensures var n, m, p := |gold|, |SamePlaces(gold, judged)|, |SamePairs(gold, judged)|; var k := CohensKappa(gold, judged);
            && p <= n * n && (p == n * n ==> k == 1.0) && k * (n * n - p) as real == (n * m - p) as real
  {
    hide Chance, Matches, Divide, Share, SamePairs, SamePlaces, Categories, Observed;
    var po, pe := Observed(gold, judged), Chance(Categories(gold, judged), gold, judged);
    RatiosAre(gold, judged);
    ChanceBounds(gold, judged);
    KappaBounds(gold, judged);
    AllMatch(gold, judged);
    MatchesArePlaces(gold, judged);
    if pe < 1.0 { DivideIs(po - pe, 1.0 - pe); }
    FromRatios(CohensKappa(gold, judged), pe, po, |gold|, |SamePairs(gold, judged)|, |SamePlaces(gold, judged)|);
  }

  lemma RatiosAre(gold: seq<string>, judged: seq<string>)
    requires |gold| == |judged| > 0
    ensures Chance(Categories(gold, judged), gold, judged) * (|gold| * |gold|) as real == |SamePairs(gold, judged)| as real
    ensures Observed(gold, judged) * |gold| as real == |SamePlaces(gold, judged)| as real
  {
    hide Chance, Matches, Share, Products, Count, SamePairs, SamePlaces, Categories;
    InCategories(gold, judged);
    ProductsArePairs(Categories(gold, judged), gold, judged);
    MatchesArePlaces(gold, judged);
    ChanceIs(Categories(gold, judged), gold, judged);
    ShareIs(Matches(gold, judged), |gold|);
  }

  lemma FromRatios(k: real, pe: real, po: real, n: nat, p: nat, m: nat)
    requires n > 0 && pe <= 1.0 && pe * (n * n) as real == p as real && po * n as real == m as real
    requires if pe < 1.0 then k * (1.0 - pe) == po - pe else k == 1.0 && m == n
    ensures p <= n * n && (p == n * n ==> k == 1.0) && k * (n * n - p) as real == (n * m - p) as real
  {
    SquarePositive(n);
    Fraction(pe, n * n, p);
    if pe < 1.0 {
      Cleared(k, pe, po, n, p, m);
    } else {
      assert k * 0.0 == 0.0;
    }
  }

  lemma Fraction(x: real, d: int, p: int)
    requires d > 0 && x <= 1.0 && x * d as real == p as real
    ensures p <= d && (x < 1.0 <==> p < d)
  {
    AtMostAll(x, d as real);
    if x < 1.0 { LessThanAll(x, d as real); }
  }

  lemma InCategories(gold: seq<string>, judged: seq<string>)
    ensures forall c :: c in gold ==> c in Categories(gold, judged)
  {
  }

  lemma SquarePositive(n: int)
    requires n > 0
    ensures n * n > 0
  {
  }

  lemma AtMostAll(x: real, k: real)
    requires x <= 1.0 && k > 0.0
    ensures x * k <= k
  {
  }

  lemma LessThanAll(x: real, k: real)
    requires x < 1.0 && k > 0.0
    ensures x * k < k
  {
  }

  /** The same, computed. */
  method ComputeKappa(gold: seq<string>, judged: seq<string>) returns (k: real)
    requires |gold| == |judged|
    ensures k == CohensKappa(gold, judged)
  {
    hide Matches, Count, Share, Divide, Term;
    var n := |gold|;
    if n == 0 {
      return 0.0;
    }
    var po := Share(Matches(gold, judged), n);
    var left := Categories(gold, judged);
    var pe := 0.0;
    while left != {}
      invariant pe + Chance(left, gold, judged) == Chance(Categories(gold, judged), gold, judged)
      decreases |left|
    {
      var c :| c in left;
      ChancePick(left, gold, judged, c);
      pe := pe + Term(gold, judged, c);
      left := left - {c};
    }
    if pe >= 1.0 {
      return if po >= 1.0 then 1.0 else 0.0;
    }
    return Divide(po - pe, 1.0 - pe);
  }
}
