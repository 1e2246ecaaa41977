/** Scoring a calibration: counting over cases, gates and runs, and the asymmetric verdict. */
module Calibration {
  import opened Text
  import opened Kappa

  const MISSING := "MISSING"

  /** A gold case: its id and its labelled gates, in the order they are listed. */
  datatype GoldCase = GoldCase(caseId: string, expectedGates: seq<(string, string)>)

  /** The judge's gate verdicts, one map per identical run. */
  datatype CaseRuns = CaseRuns(case_: GoldCase, gateVerdicts: seq<map<string, string>>)

  datatype Row = Row(agreements: nat, total: nat, falsePass: nat, flips: nat)

  datatype Flip = Flip(caseId: string, gate: string)

  datatype Role = FreezeGate | Advisory

  datatype Thresholds = Thresholds(gateAgreementMin: real, falsePassMax: Option<nat>)

  function ThresholdsOf(r: Role): Thresholds {
    if r.FreezeGate? then Thresholds(0.9, Some(0)) else Thresholds(0.75, None)
  }

  datatype Report = Report(gateAgreement: real, falsePassCount: nat, flips: seq<Flip>, kappa: real, passed: bool, gates: map<string, Row>)

  // ---- one (case, gate) pair ----

  datatype Pair = Pair(caseId: string, gate: string, expected: string, verdicts: seq<string>)

  function VerdictOf(m: map<string, string>, gate: string): string { if gate in m then m[gate] else MISSING }

  /** `[rv.get(gate, _MISSING) for rv in gate_verdicts]` */
  function VerdictsOf(ms: seq<map<string, string>>, gate: string): seq<string> {
    if ms == [] then [] else [VerdictOf(ms[0], gate)] + VerdictsOf(ms[1..], gate)
  }

  function PairOf(c: CaseRuns, n: nat): Pair
    requires n < |c.case_.expectedGates|
  {
    var g := c.case_.expectedGates[n];
    Pair(c.case_.caseId, g.0, g.1, VerdictsOf(c.gateVerdicts, g.0))
  }

  function Hits(verdicts: seq<string>, expected: string): (n: nat)
    ensures n <= |verdicts|
  {
    if verdicts == [] then 0 else (if verdicts[0] == expected then 1 else 0) + Hits(verdicts[1..], expected)
  }

  predicate FalsePass(p: Pair) { p.expected == "FAIL" && "PASS" in p.verdicts }

  predicate Unstable(p: Pair) { exists i, j :: 0 <= i < j < |p.verdicts| && p.verdicts[i] != p.verdicts[j] }

  function RowOf(p: Pair): Row {
    Row(Hits(p.verdicts, p.expected), |p.verdicts|, if FalsePass(p) then 1 else 0, if Unstable(p) then 1 else 0)
  }

  function AddRows(a: Row, b: Row): Row {
    Row(a.agreements + b.agreements, a.total + b.total, a.falsePass + b.falsePass, a.flips + b.flips)
  }

  const ZERO := Row(0, 0, 0, 0)

  // ---- all pairs, in the order they are scored ----

  function CasePairs(c: CaseRuns, n: nat): seq<Pair>
    requires n <= |c.case_.expectedGates|
  {
    if n == 0 then [] else CasePairs(c, n - 1) + [PairOf(c, n - 1)]
  }

  function AllPairs(cs: seq<CaseRuns>): seq<Pair> {
    if cs == [] then [] else
      var c := cs[|cs| - 1];
      AllPairs(cs[..|cs| - 1]) + CasePairs(c, |c.case_.expectedGates|)
  }

  /** The four totals. */
  function Sum(ps: seq<Pair>): Row { if ps == [] then ZERO else AddRows(Sum(ps[..|ps| - 1]), RowOf(ps[|ps| - 1])) }

  function GateRow(m: map<string, Row>, gate: string): Row { if gate in m then m[gate] else ZERO }

  /** The per-gate matrix. */
  function Matrix(ps: seq<Pair>): map<string, Row> {
    if ps == [] then map[] else
      var m, p := Matrix(ps[..|ps| - 1]), ps[|ps| - 1];
      m[p.gate := AddRows(GateRow(m, p.gate), RowOf(p))]
  }

  function Flips(ps: seq<Pair>): seq<Flip> {
    if ps == [] then [] else
      var p := ps[|ps| - 1];
      Flips(ps[..|ps| - 1]) + (if Unstable(p) then [Flip(p.caseId, p.gate)] else [])
  }

  function Repeat(s: string, n: nat): (r: seq<string>)
    ensures |r| == n
  {
    if n == 0 then [] else Repeat(s, n - 1) + [s]
  }

  function GoldLabels(ps: seq<Pair>): seq<string> {
    if ps == [] then [] else GoldLabels(ps[..|ps| - 1]) + Repeat(ps[|ps| - 1].expected, |ps[|ps| - 1].verdicts|)
  }

  function JudgeLabels(ps: seq<Pair>): seq<string> {
    if ps == [] then [] else JudgeLabels(ps[..|ps| - 1]) + ps[|ps| - 1].verdicts
  }

  lemma {:induction false} LabelsAlign(ps: seq<Pair>)
    ensures |GoldLabels(ps)| == |JudgeLabels(ps)| == Sum(ps).total
  {
    if ps != [] { LabelsAlign(ps[..|ps| - 1]); }
  }

  function Agreement(r: Row): real { if r.total == 0 then 0.0 else Share(r.agreements, r.total) }

  /** `_verdict`: no flip, no forbidden false pass, enough agreement; kappa is not consulted. */
  function Verdict(role: Role, agreement: real, falsePass: nat, flips: seq<Flip>): bool {
    var t := ThresholdsOf(role);
    flips == [] && !(t.falsePassMax.Some? && falsePass > t.falsePassMax.value) && !(agreement < t.gateAgreementMin)
  }

  ghost function ReportOf(cs: seq<CaseRuns>, role: Role): Report {
    var ps := AllPairs(cs);
    LabelsAlign(ps);
    Report(Agreement(Sum(ps)), Sum(ps).falsePass, Flips(ps), CohensKappa(GoldLabels(ps), JudgeLabels(ps)),
           Verdict(role, Agreement(Sum(ps)), Sum(ps).falsePass, Flips(ps)), Matrix(ps))
  }

  // ---- score ----

  lemma SumGrows(ps: seq<Pair>, p: Pair)
    ensures Sum(ps + [p]) == AddRows(Sum(ps), RowOf(p))
    ensures Matrix(ps + [p]) == Matrix(ps)[p.gate := AddRows(GateRow(Matrix(ps), p.gate), RowOf(p))]
    ensures Flips(ps + [p]) == Flips(ps) + (if Unstable(p) then [Flip(p.caseId, p.gate)] else [])
    ensures GoldLabels(ps + [p]) == GoldLabels(ps) + Repeat(p.expected, |p.verdicts|)
    ensures JudgeLabels(ps + [p]) == JudgeLabels(ps) + p.verdicts
  {
    hide RowOf, Unstable, GateRow;
    assert (ps + [p])[..|ps|] == ps;
  }

  lemma HitsGrow(vs: seq<string>, i: nat, expected: string)
    requires i < |vs|
    ensures Hits(vs[..i + 1], expected) == Hits(vs[..i], expected) + (if vs[i] == expected then 1 else 0)
  {
    HitsAppend(vs[..i], vs[i], expected);
    assert vs[..i + 1] == vs[..i] + [vs[i]];
  }

  lemma {:induction false} HitsAppend(vs: seq<string>, v: string, expected: string)
    ensures Hits(vs + [v], expected) == Hits(vs, expected) + (if v == expected then 1 else 0)
  {
    if vs == [] {
      assert [v][1..] == [] && [] + [v] == [v];
    } else {
      assert (vs + [v])[1..] == vs[1..] + [v];
      HitsAppend(vs[1..], v, expected);
    }
  }

  /** `len(set(verdicts)) > 1` */
  lemma UnstableIs(p: Pair)
    ensures |set v | v in p.verdicts| > 1 <==> Unstable(p)
  {
    var s := set v | v in p.verdicts;
    if Unstable(p) {
      var i, j :| 0 <= i < j < |p.verdicts| && p.verdicts[i] != p.verdicts[j];
      assert {p.verdicts[i], p.verdicts[j]} <= s;
      CardinalityUp({p.verdicts[i], p.verdicts[j]}, s);
    } else if p.verdicts != [] {
      var a := p.verdicts[0];
      forall v | v in s ensures v == a {
        var k :| 0 <= k < |p.verdicts| && p.verdicts[k] == v;
      }
      assert s <= {a};
      CardinalityUp(s, {a});
    }
  }

  lemma {:induction false} CardinalityUp(a: set<string>, b: set<string>)
    requires a <= b
    ensures |a| <= |b|
  {
    if a != {} {
      var x :| x in a;
      CardinalityUp(a - {x}, b - {x});
    }
  }

  /** The inner loops: one gate of one case, over its runs. */
  method ScorePair(p: Pair, row: Row, gold: seq<string>, judge: seq<string>)
    returns (agreed: nat, row1: Row, gold1: seq<string>, judge1: seq<string>)
    ensures agreed == RowOf(p).agreements && row1 == AddRows(row, Row(agreed, |p.verdicts|, 0, 0))
    ensures gold1 == gold + Repeat(p.expected, |p.verdicts|) && judge1 == judge + p.verdicts
  {
    hide Unstable;
    agreed, row1, gold1, judge1 := 0, row, gold, judge;
    for i := 0 to |p.verdicts|
      invariant agreed == Hits(p.verdicts[..i], p.expected)
      invariant row1 == AddRows(row, Row(agreed, i, 0, 0))
      invariant gold1 == gold + Repeat(p.expected, i) && judge1 == judge + p.verdicts[..i]
    {
      var verdict := p.verdicts[i];
      HitsGrow(p.verdicts, i, p.expected);
      row1 := row1.(total := row1.total + 1);
      gold1 := gold1 + [p.expected];
      judge1 := judge1 + [verdict];
      if verdict == p.expected {
        agreed := agreed + 1;
        row1 := row1.(agreements := row1.agreements + 1);
      }
    }
    assert p.verdicts[..|p.verdicts|] == p.verdicts;
  }

  datatype Tally = Tally(sum: Row, flips: seq<Flip>, matrix: map<string, Row>, gold: seq<string>, judge: seq<string>)

  function TallyOf(ps: seq<Pair>): Tally { Tally(Sum(ps), Flips(ps), Matrix(ps), GoldLabels(ps), JudgeLabels(ps)) }

  method AddPair(t: Tally, p: Pair, ghost ps: seq<Pair>) returns (u: Tally)
    requires t == TallyOf(ps)
    ensures u == TallyOf(ps + [p])
  {
    hide Matrix, Sum, Flips, GoldLabels, JudgeLabels, Unstable, Hits, Repeat;
    SumGrows(ps, p);
    UnstableIs(p);
    var row := GateRow(t.matrix, p.gate);
    var agreed, gold, judge;
    agreed, row, gold, judge := ScorePair(p, row, t.gold, t.judge);
    var sum := t.sum.(agreements := t.sum.agreements + agreed, total := t.sum.total + |p.verdicts|);
    var flips := t.flips;
    if p.expected == "FAIL" && "PASS" in p.verdicts {
      sum := sum.(falsePass := sum.falsePass + 1);
      row := row.(falsePass := row.falsePass + 1);
    }
    if |set v | v in p.verdicts| > 1 {
      flips := flips + [Flip(p.caseId, p.gate)];
      row := row.(flips := row.flips + 1);
      sum := sum.(flips := sum.flips + 1);
    }
    u := Tally(sum, flips, t.matrix[p.gate := row], gold, judge);
  }

  lemma PairsGrow(cs: seq<CaseRuns>, i: nat)
    requires i < |cs|
    ensures AllPairs(cs[..i + 1]) == AllPairs(cs[..i]) + CasePairs(cs[i], |cs[i].case_.expectedGates|)
  {
    hide CasePairs;
    assert cs[..i + 1][..i] == cs[..i] && cs[..i + 1][i] == cs[i];
  }

  /** `score`, for a known role. */
  method Score(cs: seq<CaseRuns>, role: Role) returns (r: Report)
    ensures r == ReportOf(cs, role)
  {
    hide Matrix, Sum, Flips, GoldLabels, JudgeLabels, CasePairs, AllPairs, CohensKappa, Share;
    var t := Tally(ZERO, [], map[], [], []);
    Nothing(cs);
    for i := 0 to |cs|
      invariant t == TallyOf(AllPairs(cs[..i]))
    {
      t := ScoreCase(cs, i, t);
      PairsGrow(cs, i);
    }
    assert cs[..|cs|] == cs;
    LabelsAlign(AllPairs(cs));
    var agreement := if t.sum.total == 0 then 0.0 else Share(t.sum.agreements, t.sum.total);
    var kappa := ComputeKappa(t.gold, t.judge);
    r := Report(agreement, t.sum.falsePass, t.flips, kappa, Verdict(role, agreement, t.sum.falsePass, t.flips), t.matrix);
  }

  method ScoreCase(cs: seq<CaseRuns>, i: nat, t: Tally) returns (u: Tally)
    requires i < |cs| && t == TallyOf(AllPairs(cs[..i]))
    ensures u == TallyOf(AllPairs(cs[..i]) + CasePairs(cs[i], |cs[i].case_.expectedGates|))
  {
    hide TallyOf, AllPairs;
    var c := cs[i];
    ghost var before := AllPairs(cs[..i]);
    u := t;
    assert before + CasePairs(c, 0) == before;
    for n := 0 to |c.case_.expectedGates|
      invariant u == TallyOf(before + CasePairs(c, n))
    {
      u := AddPair(u, PairOf(c, n), before + CasePairs(c, n));
      assert before + CasePairs(c, n) + [PairOf(c, n)] == before + CasePairs(c, n + 1);
    }
  }

  lemma Nothing(cs: seq<CaseRuns>)
    ensures TallyOf(AllPairs(cs[..0])) == Tally(ZERO, [], map[], [], [])
  {
  }

  // ---- conservation ----

  ghost function PickGate(s: set<string>): string
    requires s != {}
  {
    var g :| g in s; g
  }

  /** The matrix summed over its gates. */
  ghost function SumGates(m: map<string, Row>, s: set<string>): Row
    decreases |s|
  {
    if s == {} then ZERO else AddRows(GateRow(m, PickGate(s)), SumGates(m, s - {PickGate(s)}))
  }

  lemma {:induction false} SumGatesPick(m: map<string, Row>, s: set<string>, g: string)
    requires g in s
    ensures SumGates(m, s) == AddRows(GateRow(m, g), SumGates(m, s - {g}))
    decreases |s|
  {
    hide GateRow;
    var p := PickGate(s);
    if p != g {
      SumGatesPick(m, s - {p}, g);
      SumGatesPick(m, s - {g}, p);
      assert s - {p} - {g} == s - {g} - {p};
    }
  }

  lemma {:induction false} SumGatesSame(m: map<string, Row>, k: map<string, Row>, s: set<string>)
    requires forall g :: g in s ==> GateRow(m, g) == GateRow(k, g)
    ensures SumGates(m, s) == SumGates(k, s)
    decreases |s|
  {
    hide GateRow;
    if s != {} { SumGatesSame(m, k, s - {PickGate(s)}); }
  }

  lemma SumGatesUpdate(m: map<string, Row>, g: string, r: Row)
    ensures SumGates(m[g := AddRows(GateRow(m, g), r)], m.Keys + {g}) == AddRows(SumGates(m, m.Keys), r)
  {
    var k, s := m[g := AddRows(GateRow(m, g), r)], m.Keys + {g};
    SumGatesPick(k, s, g);
    SumGatesSame(k, m, s - {g});
    if g in m {
      assert s == m.Keys;
      SumGatesPick(m, m.Keys, g);
    } else {
      assert s - {g} == m.Keys;
    }
  }

  lemma {:induction false} MatrixSums(ps: seq<Pair>)
    ensures SumGates(Matrix(ps), Matrix(ps).Keys) == Sum(ps)
  {
    hide RowOf, AddRows, GateRow;
    if ps != [] {
      var front, p := ps[..|ps| - 1], ps[|ps| - 1];
      MatrixSums(front);
      SumGatesUpdate(Matrix(front), p.gate, RowOf(p));
      assert Matrix(ps).Keys == Matrix(front).Keys + {p.gate};
    }
  }

  lemma {:induction false} FlipsCounted(ps: seq<Pair>)
    ensures |Flips(ps)| == Sum(ps).flips
  {
    hide Unstable, Hits;
    if ps != [] { FlipsCounted(ps[..|ps| - 1]); }
  }

  lemma {:induction false} MatchesAppend(a: seq<string>, b: seq<string>, c: seq<string>, d: seq<string>)
    requires |a| == |b| && |c| == |d|
    ensures Matches(a + c, b + d) == Matches(a, b) + Matches(c, d)
  {
    if a == [] {
      assert a + c == c && b + d == d;
    } else {
      assert (a + c)[1..] == a[1..] + c && (b + d)[1..] == b[1..] + d;
      MatchesAppend(a[1..], b[1..], c, d);
    }
  }

  lemma {:induction false} RepeatMatches(expected: string, vs: seq<string>)
    ensures Matches(Repeat(expected, |vs|), vs) == Hits(vs, expected)
  {
    if vs != [] {
      var front, v := vs[..|vs| - 1], vs[|vs| - 1];
      RepeatMatches(expected, front);
      MatchesAppend(Repeat(expected, |vs| - 1), front, [expected], [v]);
      assert front + [v] == vs;
      HitsAppend(front, v, expected);
    }
  }

  lemma {:induction false} LabelsMatch(ps: seq<Pair>)
    ensures |GoldLabels(ps)| == |JudgeLabels(ps)| == Sum(ps).total
    ensures Matches(GoldLabels(ps), JudgeLabels(ps)) == Sum(ps).agreements
  {
    hide Hits, Repeat, Matches, Unstable;
    if ps != [] {
      var front, p := ps[..|ps| - 1], ps[|ps| - 1];
      LabelsMatch(front);
      MatchesAppend(GoldLabels(front), JudgeLabels(front), Repeat(p.expected, |p.verdicts|), p.verdicts);
      RepeatMatches(p.expected, p.verdicts);
    } else {
      assert Matches([], []) == 0 by { NoMatches(); }
    }
  }

  lemma NoMatches()
    ensures Matches([], []) == 0
  {
  }

  /** The per-gate rows sum to the report's own figures, and the agreement that kappa corrects for chance
      is the agreement the report states. */
  lemma Conservation(cs: seq<CaseRuns>, role: Role)
    ensures var r := ReportOf(cs, role); var ps := AllPairs(cs); var t := SumGates(r.gates, r.gates.Keys);
            && t == Sum(ps) && t.falsePass == r.falsePassCount && t.flips == |r.flips| && r.gateAgreement == Agreement(t)
            && (t.total > 0 ==> |GoldLabels(ps)| == |JudgeLabels(ps)| > 0 && Observed(GoldLabels(ps), JudgeLabels(ps)) == r.gateAgreement)
  {
    hide Sum, Matrix, AllPairs, Flips, GoldLabels, JudgeLabels, SumGates, Matches, CohensKappa, Share;
    var ps := AllPairs(cs);
    MatrixSums(ps);
    FlipsCounted(ps);
    LabelsMatch(ps);
  }

  // ---- thresholds ----

  lemma AtLeast(a: nat, n: nat, num: nat, den: nat)
    requires n > 0 && den > 0
    ensures Share(a, n) < Share(num, den) <==> den * a < num * n
  {
    var x, y := Share(a, n), Share(num, den);
    ShareIs(a, n);
    ShareIs(num, den);
    var k := n as real * den as real;
    assert x * k == a as real * den as real by { Assoc(x, n as real, den as real); }
    assert y * k == num as real * n as real by { Assoc(y, den as real, n as real); }
    assert (den * a) as real == a as real * den as real && (num * n) as real == num as real * n as real by { IntProduct(den, a); IntProduct(num, n); }
    assert k > 0.0;
    Compare(x, y, k);
  }

  lemma Assoc(x: real, n: real, d: real)
    ensures x * (n * d) == (x * n) * d && n * d == d * n
  {
  }

  lemma Compare(x: real, y: real, k: real)
    requires k > 0.0
    ensures x < y <==> x * k < y * k
  {
  }

  lemma NineTenths()
    ensures Share(9, 10) == 0.9 && Share(3, 4) == 0.75
  {
  }
}
