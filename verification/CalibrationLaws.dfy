/** The calibration report said of the gold labels and the judge's maps themselves: each verdict is named by its case,
    the label of the case and the run. */
module CalibrationLaws {
  import opened Text
  import opened Kappa
  import opened Calibration

  ghost predicate IsLabel(cs: seq<CaseRuns>, i: int, n: int) { 0 <= i < |cs| && 0 <= n < |cs[i].case_.expectedGates| }

  ghost predicate IsRun(cs: seq<CaseRuns>, i: int, n: int, r: int) { IsLabel(cs, i, n) && 0 <= r < |cs[i].gateVerdicts| }

  /** The gate that the label is about. */
  ghost function GateAt(cs: seq<CaseRuns>, i: int, n: int): string
    requires IsLabel(cs, i, n)
  {
    cs[i].case_.expectedGates[n].0
  }

  /** What it should be. */
  ghost function Gold(cs: seq<CaseRuns>, i: int, n: int): string
    requires IsLabel(cs, i, n)
  {
    cs[i].case_.expectedGates[n].1
  }

  /** What the run says of it; a run silent on the gate reads "MISSING". */
  ghost function Said(cs: seq<CaseRuns>, i: int, n: int, r: int): string
    requires IsRun(cs, i, n, r)
  {
    var answers := cs[i].gateVerdicts[r];
    if GateAt(cs, i, n) in answers then answers[GateAt(cs, i, n)] else "MISSING"
  }

  /** Labels of the gate, or of any gate. */
  ghost predicate About(cs: seq<CaseRuns>, g: Option<string>, i: int, n: int)
    requires IsLabel(cs, i, n)
  {
    g.None? || g.value == GateAt(cs, i, n)
  }

  /** A label FAIL that some run passed. */
  ghost predicate PassedWrongly(cs: seq<CaseRuns>, i: int, n: int)
    requires IsLabel(cs, i, n)
  {
    Gold(cs, i, n) == "FAIL" && exists r :: IsRun(cs, i, n, r) && Said(cs, i, n, r) == "PASS"
  }

  /** A label that two runs answered differently. */
  ghost predicate Unsteady(cs: seq<CaseRuns>, i: int, n: int)
    requires IsLabel(cs, i, n)
  {
    exists r, s :: IsRun(cs, i, n, r) && IsRun(cs, i, n, s) && Said(cs, i, n, r) != Said(cs, i, n, s)
  }

  /** The verdicts given on a gate, or on all. */
  ghost function Verdicts(cs: seq<CaseRuns>, g: Option<string>): (s: set<(int, int, int)>)
    ensures forall v :: v in s <==> IsRun(cs, v.0, v.1, v.2) && About(cs, g, v.0, v.1)
  {
    set i, n, r | 0 <= i < |cs| && 0 <= n < |cs[i].case_.expectedGates| && 0 <= r < |cs[i].gateVerdicts| && About(cs, g, i, n) :: (i, n, r)
  }

  /** Those that are the label. */
  ghost function RightVerdicts(cs: seq<CaseRuns>, g: Option<string>): set<(int, int, int)> {
    set v | v in Verdicts(cs, g) && Said(cs, v.0, v.1, v.2) == Gold(cs, v.0, v.1)
  }

  /** The labels of a gate, or all. */
  ghost function Labels(cs: seq<CaseRuns>, g: Option<string>): (s: set<(int, int)>)
    ensures forall l :: l in s <==> IsLabel(cs, l.0, l.1) && About(cs, g, l.0, l.1)
  {
    set i, n | 0 <= i < |cs| && 0 <= n < |cs[i].case_.expectedGates| && About(cs, g, i, n) :: (i, n)
  }

  ghost function WronglyPassed(cs: seq<CaseRuns>, g: Option<string>): set<(int, int)> {
    set l | l in Labels(cs, g) && PassedWrongly(cs, l.0, l.1)
  }

  ghost function UnsteadyLabels(cs: seq<CaseRuns>, g: Option<string>): set<(int, int)> {
    set l | l in Labels(cs, g) && Unsteady(cs, l.0, l.1)
  }

  // ---- counting, one label after the other ----

  /** The figures for a gate, or the totals. */
  function RowFor(ps: seq<Pair>, g: Option<string>): Row { if g.None? then Sum(ps) else GateRow(Matrix(ps), g.value) }

  lemma RowForGrows(ps: seq<Pair>, p: Pair, g: Option<string>)
    ensures RowFor(ps + [p], g) == if g.None? || g.value == p.gate then AddRows(RowFor(ps, g), RowOf(p)) else RowFor(ps, g)
  {
    hide Sum, Matrix, RowOf, AddRows;
    SumGrows(ps, p);
  }

  ghost predicate Before(i: int, n: int, a: int, b: int) { i < a || (i == a && n < b) }

  ghost function PairsTo(cs: seq<CaseRuns>, a: nat, b: nat): seq<Pair>
    requires a <= |cs| && (if a < |cs| then b <= |cs[a].case_.expectedGates| else b == 0)
  {
    AllPairs(cs[..a]) + (if a < |cs| then CasePairs(cs[a], b) else [])
  }

  ghost function VerdictsTo(cs: seq<CaseRuns>, g: Option<string>, a: int, b: int): set<(int, int, int)> {
    set v | v in Verdicts(cs, g) && Before(v.0, v.1, a, b)
  }

  ghost function RightTo(cs: seq<CaseRuns>, g: Option<string>, a: int, b: int): set<(int, int, int)> {
    set v | v in RightVerdicts(cs, g) && Before(v.0, v.1, a, b)
  }

  ghost function WrongTo(cs: seq<CaseRuns>, g: Option<string>, a: int, b: int): set<(int, int)> {
    set l | l in WronglyPassed(cs, g) && Before(l.0, l.1, a, b)
  }

  ghost function UnsteadyTo(cs: seq<CaseRuns>, g: Option<string>, a: int, b: int): set<(int, int)> {
    set l | l in UnsteadyLabels(cs, g) && Before(l.0, l.1, a, b)
  }

  /** The first `m` runs of a label. */
  ghost function RunsOf(a: int, b: int, m: nat): (s: set<(int, int, int)>)
    ensures forall v :: v in s <==> v.0 == a && v.1 == b && 0 <= v.2 < m
    ensures |s| == m
  {
    if m == 0 then {} else RunsOf(a, b, m - 1) + {(a, b, m - 1)}
  }

  ghost function RightRuns(cs: seq<CaseRuns>, a: int, b: int, m: nat): (s: set<(int, int, int)>)
    requires IsLabel(cs, a, b) && m <= |cs[a].gateVerdicts|
    ensures forall v :: v in s <==> v.0 == a && v.1 == b && 0 <= v.2 < m && Said(cs, a, b, v.2) == Gold(cs, a, b)
  {
    if m == 0 then {} else RightRuns(cs, a, b, m - 1) + (if Said(cs, a, b, m - 1) == Gold(cs, a, b) then {(a, b, m - 1)} else {})
  }

  lemma {:induction false} VerdictsListed(ms: seq<map<string, string>>, gate: string)
    ensures |VerdictsOf(ms, gate)| == |ms|
    ensures forall r :: 0 <= r < |ms| ==> VerdictsOf(ms, gate)[r] == VerdictOf(ms[r], gate)
  {
    if ms != [] { VerdictsListed(ms[1..], gate); }
  }

  /** The scored pair holds the label, and what each run says of it. */
  lemma PairSays(cs: seq<CaseRuns>, a: int, b: int)
    requires IsLabel(cs, a, b)
    ensures var p := PairOf(cs[a], b);
            && p.caseId == cs[a].case_.caseId && p.gate == GateAt(cs, a, b) && p.expected == Gold(cs, a, b)
            && |p.verdicts| == |cs[a].gateVerdicts| && forall r :: 0 <= r < |p.verdicts| ==> p.verdicts[r] == Said(cs, a, b, r)
  {
    VerdictsListed(cs[a].gateVerdicts, GateAt(cs, a, b));
  }

  lemma {:induction false} HitsAreRight(cs: seq<CaseRuns>, a: int, b: int, m: nat)
    requires IsLabel(cs, a, b) && m <= |cs[a].gateVerdicts| && |PairOf(cs[a], b).verdicts| == |cs[a].gateVerdicts|
    ensures Hits(PairOf(cs[a], b).verdicts[..m], Gold(cs, a, b)) == |RightRuns(cs, a, b, m)|
  {
    hide PairOf, Said, Gold, Hits;
    if m == 0 {
      NoHits(Gold(cs, a, b));
    } else {
      PairSays(cs, a, b);
      HitsAreRight(cs, a, b, m - 1);
      HitsGrow(PairOf(cs[a], b).verdicts, m - 1, Gold(cs, a, b));
    }
  }

  lemma NoHits(expected: string)
    ensures Hits([], expected) == 0
  {
  }

  lemma RowSays(cs: seq<CaseRuns>, a: int, b: int)
    requires IsLabel(cs, a, b)
    ensures var m := |cs[a].gateVerdicts|;
            RowOf(PairOf(cs[a], b)) == Row(|RightRuns(cs, a, b, m)|, m, if PassedWrongly(cs, a, b) then 1 else 0, if Unsteady(cs, a, b) then 1 else 0)
  {
    hide PairOf, Said, Gold, Hits;
    var p, m := PairOf(cs[a], b), |cs[a].gateVerdicts|;
    PairSays(cs, a, b);
    HitsAreRight(cs, a, b, m);
    assert p.verdicts[..m] == p.verdicts;
    if PassedWrongly(cs, a, b) {
      var r :| IsRun(cs, a, b, r) && Said(cs, a, b, r) == "PASS";
      assert p.verdicts[r] == "PASS";
    }
    if Unsteady(cs, a, b) {
      var r, s :| IsRun(cs, a, b, r) && IsRun(cs, a, b, s) && Said(cs, a, b, r) != Said(cs, a, b, s);
      assert p.verdicts[r] != p.verdicts[s];
    }
    if Unstable(p) {
      var r, s :| 0 <= r < s < m && p.verdicts[r] != p.verdicts[s];
      assert IsRun(cs, a, b, r) && IsRun(cs, a, b, s);
    }
    if FalsePass(p) {
      var r :| 0 <= r < m && p.verdicts[r] == "PASS";
      assert IsRun(cs, a, b, r);
    }
  }

  lemma VerdictsGrow(cs: seq<CaseRuns>, g: Option<string>, a: int, b: int)
    requires IsLabel(cs, a, b)
    ensures |VerdictsTo(cs, g, a, b + 1)| == |VerdictsTo(cs, g, a, b)| + (if About(cs, g, a, b) then |cs[a].gateVerdicts| else 0)
  {
    hide Verdicts, RunsOf;
    var s, t, runs := VerdictsTo(cs, g, a, b), VerdictsTo(cs, g, a, b + 1), RunsOf(a, b, |cs[a].gateVerdicts|);
    forall v | v in t ensures v in s || (About(cs, g, a, b) && v in runs) {
    }
    if About(cs, g, a, b) {
      forall v | v in runs ensures v in t && v !in s {
      }
      assert t == s + runs;
    } else {
      assert t == s;
    }
  }

  lemma RightGrow(cs: seq<CaseRuns>, g: Option<string>, a: int, b: int)
    requires IsLabel(cs, a, b)
    ensures |RightTo(cs, g, a, b + 1)|
         == |RightTo(cs, g, a, b)| + (if About(cs, g, a, b) then |RightRuns(cs, a, b, |cs[a].gateVerdicts|)| else 0)
  {
    hide Verdicts, Said, Gold, RightRuns;
    var s, t, runs := RightTo(cs, g, a, b), RightTo(cs, g, a, b + 1), RightRuns(cs, a, b, |cs[a].gateVerdicts|);
    forall v | v in t ensures v in s || (About(cs, g, a, b) && v in runs) {
    }
    if About(cs, g, a, b) {
      forall v | v in runs ensures v in t && v !in s {
      }
      assert t == s + runs;
    } else {
      assert t == s;
    }
  }

  lemma WrongGrow(cs: seq<CaseRuns>, g: Option<string>, a: int, b: int)
    requires IsLabel(cs, a, b)
    ensures |WrongTo(cs, g, a, b + 1)| == |WrongTo(cs, g, a, b)| + (if About(cs, g, a, b) && PassedWrongly(cs, a, b) then 1 else 0)
  {
    hide PassedWrongly, Labels;
    var s := WrongTo(cs, g, a, b);
    assert WrongTo(cs, g, a, b + 1) == s + (if About(cs, g, a, b) && PassedWrongly(cs, a, b) then {(a, b)} else {});
    assert (a, b) !in s;
  }

  lemma UnsteadyGrow(cs: seq<CaseRuns>, g: Option<string>, a: int, b: int)
    requires IsLabel(cs, a, b)
    ensures |UnsteadyTo(cs, g, a, b + 1)| == |UnsteadyTo(cs, g, a, b)| + (if About(cs, g, a, b) && Unsteady(cs, a, b) then 1 else 0)
  {
    hide Unsteady, Labels;
    var s := UnsteadyTo(cs, g, a, b);
    assert UnsteadyTo(cs, g, a, b + 1) == s + (if About(cs, g, a, b) && Unsteady(cs, a, b) then {(a, b)} else {});
    assert (a, b) !in s;
  }

  /** The labels before a case are those up to the end of the case before it. */
  lemma NextCase(cs: seq<CaseRuns>, g: Option<string>, a: nat)
    requires a < |cs|
    ensures var b := |cs[a].case_.expectedGates|;
            && VerdictsTo(cs, g, a + 1, 0) == VerdictsTo(cs, g, a, b) && RightTo(cs, g, a + 1, 0) == RightTo(cs, g, a, b)
            && WrongTo(cs, g, a + 1, 0) == WrongTo(cs, g, a, b) && UnsteadyTo(cs, g, a + 1, 0) == UnsteadyTo(cs, g, a, b)
            && PairsTo(cs, a + 1, 0) == PairsTo(cs, a, b) && CountsTo(cs, g, a + 1, 0) == CountsTo(cs, g, a, b)
  {
    hide About, PassedWrongly, Unsteady, CasePairs, AllPairs;
    PairsGrow(cs, a);
    NoPairs(cs, a + 1);
  }

  lemma NoPairs(cs: seq<CaseRuns>, a: nat)
    requires a <= |cs|
    ensures PairsTo(cs, a, 0) == AllPairs(cs[..a])
  {
    if a < |cs| { assert CasePairs(cs[a], 0) == []; }
  }

  ghost function CountsTo(cs: seq<CaseRuns>, g: Option<string>, a: int, b: int): Row {
    Row(|RightTo(cs, g, a, b)|, |VerdictsTo(cs, g, a, b)|, |WrongTo(cs, g, a, b)|, |UnsteadyTo(cs, g, a, b)|)
  }

  lemma CountsGrow(cs: seq<CaseRuns>, g: Option<string>, a: int, b: int)
    requires IsLabel(cs, a, b)
    ensures var p := PairOf(cs[a], b);
            CountsTo(cs, g, a, b + 1) == if g.None? || g.value == p.gate then AddRows(CountsTo(cs, g, a, b), RowOf(p)) else CountsTo(cs, g, a, b)
  {
    hide RightTo, VerdictsTo, WrongTo, UnsteadyTo, RowOf, PairOf, PassedWrongly, Unsteady, RightRuns;
    RowSays(cs, a, b);
    PairSays(cs, a, b);
    VerdictsGrow(cs, g, a, b);
    RightGrow(cs, g, a, b);
    WrongGrow(cs, g, a, b);
    UnsteadyGrow(cs, g, a, b);
  }

  lemma {:induction false} RowsCount(cs: seq<CaseRuns>, g: Option<string>, a: nat, b: nat)
    requires a <= |cs| && (if a < |cs| then b <= |cs[a].case_.expectedGates| else b == 0)
    ensures RowFor(PairsTo(cs, a, b), g) == CountsTo(cs, g, a, b)
    decreases a, b
  {
    hide RowFor, CountsTo, PairsTo;
    if b > 0 {
      RowsCount(cs, g, a, b - 1);
      LabelCounted(cs, g, a, b - 1);
    } else if a > 0 {
      NextCase(cs, g, a - 1);
      RowsCount(cs, g, a - 1, |cs[a - 1].case_.expectedGates|);
    } else {
      NothingYet(cs, g);
    }
  }

  lemma LabelCounted(cs: seq<CaseRuns>, g: Option<string>, a: nat, b: nat)
    requires IsLabel(cs, a, b) && RowFor(PairsTo(cs, a, b), g) == CountsTo(cs, g, a, b)
    ensures RowFor(PairsTo(cs, a, b + 1), g) == CountsTo(cs, g, a, b + 1)
  {
    hide RowFor, CountsTo, PairsTo, PairOf, RowOf, AddRows;
    OnePair(cs, a, b);
    RowForGrows(PairsTo(cs, a, b), PairOf(cs[a], b), g);
    CountsGrow(cs, g, a, b);
  }

  lemma OnePair(cs: seq<CaseRuns>, a: nat, b: nat)
    requires IsLabel(cs, a, b)
    ensures PairsTo(cs, a, b + 1) == PairsTo(cs, a, b) + [PairOf(cs[a], b)]
  {
    hide PairOf, AllPairs;
  }

  lemma NothingYet(cs: seq<CaseRuns>, g: Option<string>)
    ensures RowFor(PairsTo(cs, 0, 0), g) == ZERO && CountsTo(cs, g, 0, 0) == ZERO
    ensures RightTo(cs, g, 0, 0) == {} && VerdictsTo(cs, g, 0, 0) == {} && WrongTo(cs, g, 0, 0) == {} && UnsteadyTo(cs, g, 0, 0) == {}
  {
    NoPairs(cs, 0);
  }

  lemma AllTo(cs: seq<CaseRuns>, g: Option<string>)
    ensures RightTo(cs, g, |cs|, 0) == RightVerdicts(cs, g) && VerdictsTo(cs, g, |cs|, 0) == Verdicts(cs, g)
    ensures WrongTo(cs, g, |cs|, 0) == WronglyPassed(cs, g) && UnsteadyTo(cs, g, |cs|, 0) == UnsteadyLabels(cs, g)
    ensures PairsTo(cs, |cs|, 0) == AllPairs(cs)
  {
    hide About, PassedWrongly, Unsteady, AllPairs;
    assert cs[..|cs|] == cs;
  }

  lemma RowIs(cs: seq<CaseRuns>, g: Option<string>)
    ensures RowFor(AllPairs(cs), g) == Row(|RightVerdicts(cs, g)|, |Verdicts(cs, g)|, |WronglyPassed(cs, g)|, |UnsteadyLabels(cs, g)|)
  {
    hide RowFor, RightTo, VerdictsTo, WrongTo, UnsteadyTo, PairsTo, RightVerdicts, Verdicts, WronglyPassed, UnsteadyLabels;
    RowsCount(cs, g, |cs|, 0);
    AllTo(cs, g);
  }

  // ---- the report ----

  lemma {:induction false} PairOrigin(c: CaseRuns, m: nat, p: Pair)
    requires m <= |c.case_.expectedGates|
    ensures p in CasePairs(c, m) <==> exists n :: 0 <= n < m && p == PairOf(c, n)
  {
    hide PairOf;
    if m > 0 { PairOrigin(c, m - 1, p); }
  }

  /** The pairs scored are those of the labels. */
  lemma {:induction false} PairsAreLabels(cs: seq<CaseRuns>, p: Pair)
    ensures p in AllPairs(cs) <==> exists i, n :: IsLabel(cs, i, n) && p == PairOf(cs[i], n)
  {
    hide PairOf, CasePairs;
    if cs != [] {
      var k := |cs| - 1;
      PairsAreLabels(cs[..k], p);
      PairOrigin(cs[k], |cs[k].case_.expectedGates|, p);
      forall i, n | IsLabel(cs, i, n) && p == PairOf(cs[i], n) ensures p in AllPairs(cs) {
        if i < k { assert IsLabel(cs[..k], i, n); }
      }
      forall i, n | IsLabel(cs[..k], i, n) && p == PairOf(cs[..k][i], n) ensures IsLabel(cs, i, n) && p == PairOf(cs[i], n) {
      }
      if n :| 0 <= n < |cs[k].case_.expectedGates| && p == PairOf(cs[k], n) { assert IsLabel(cs, k, n); }
    }
  }

  lemma {:induction false} MatrixKeys(ps: seq<Pair>, g: string)
    ensures g in Matrix(ps) <==> exists p :: p in ps && p.gate == g
  {
    hide RowOf, AddRows;
    if ps != [] {
      var front := ps[..|ps| - 1];
      MatrixKeys(front, g);
      assert ps == front + [ps[|ps| - 1]];
    }
  }

  lemma {:induction false} FlipsListed(ps: seq<Pair>, f: Flip)
    ensures f in Flips(ps) <==> exists p :: p in ps && Unstable(p) && f == Flip(p.caseId, p.gate)
  {
    hide Unstable;
    if ps != [] {
      var front := ps[..|ps| - 1];
      FlipsListed(front, f);
      assert ps == front + [ps[|ps| - 1]];
    }
  }

  /** The matrix has exactly the labelled gates, and under each: how many of its verdicts were the label, how many
      there were, how many of its labels FAIL some run passed and how many labels runs disagreed on. */
  lemma MatrixCounts(cs: seq<CaseRuns>, role: Role, g: string)
    ensures var gates := ReportOf(cs, role).gates;
            && (g in gates <==> exists i, n :: IsLabel(cs, i, n) && GateAt(cs, i, n) == g)
            && (g in gates ==> gates[g] == Row(|RightVerdicts(cs, Some(g))|, |Verdicts(cs, Some(g))|,
                                               |WronglyPassed(cs, Some(g))|, |UnsteadyLabels(cs, Some(g))|))
  {
    hide AllPairs, Sum, Matrix, Flips, GoldLabels, JudgeLabels, CohensKappa, Share, PairOf, Verdicts, RightVerdicts, WronglyPassed, UnsteadyLabels, Verdict;
    var ps := AllPairs(cs);
    RowIs(cs, Some(g));
    MatrixKeys(ps, g);
    if p :| p in ps && p.gate == g {
      PairsAreLabels(cs, p);
      var i, n :| IsLabel(cs, i, n) && p == PairOf(cs[i], n);
      PairSays(cs, i, n);
    }
    if i, n :| IsLabel(cs, i, n) && GateAt(cs, i, n) == g {
      PairsAreLabels(cs, PairOf(cs[i], n));
      PairSays(cs, i, n);
    }
  }

  /** The report's figures: the share of verdicts that were the label, the labels FAIL passed in some run, and a flip
      naming case and gate for each label that runs disagreed on. */
  lemma ReportCounts(cs: seq<CaseRuns>, role: Role, f: Flip)
    ensures var r := ReportOf(cs, role); var total := |Verdicts(cs, None)|;
            && r.gateAgreement == (if total == 0 then 0.0 else Share(|RightVerdicts(cs, None)|, total))
            && r.falsePassCount == |WronglyPassed(cs, None)| && |r.flips| == |UnsteadyLabels(cs, None)|
            && (f in r.flips <==> exists i, n :: IsLabel(cs, i, n) && Unsteady(cs, i, n) && f == Flip(cs[i].case_.caseId, GateAt(cs, i, n)))
  {
    hide AllPairs, Sum, Matrix, Flips, GoldLabels, JudgeLabels, CohensKappa, Share, PairOf, Verdicts, RightVerdicts, WronglyPassed, UnsteadyLabels, Verdict,
         Unsteady, Unstable;
    var ps := AllPairs(cs);
    RowIs(cs, None);
    FlipsCounted(ps);
    FlipsListed(ps, f);
    if p :| p in ps && Unstable(p) && f == Flip(p.caseId, p.gate) {
      PairsAreLabels(cs, p);
      var i, n :| IsLabel(cs, i, n) && p == PairOf(cs[i], n);
      PairSays(cs, i, n);
      SteadyIs(cs, i, n);
    }
    if i, n :| IsLabel(cs, i, n) && Unsteady(cs, i, n) && f == Flip(cs[i].case_.caseId, GateAt(cs, i, n)) {
      PairsAreLabels(cs, PairOf(cs[i], n));
      PairSays(cs, i, n);
      SteadyIs(cs, i, n);
    }
  }

  lemma SteadyIs(cs: seq<CaseRuns>, i: int, n: int)
    requires IsLabel(cs, i, n)
    ensures Unstable(PairOf(cs[i], n)) <==> Unsteady(cs, i, n)
  {
    hide PairOf, Hits, PassedWrongly, Unsteady, Unstable;
    RowSays(cs, i, n);
  }

  /** No run passed a label FAIL. */
  ghost predicate NoFalsePass(cs: seq<CaseRuns>) {
    forall i, n, r :: IsRun(cs, i, n, r) && Gold(cs, i, n) == "FAIL" ==> Said(cs, i, n, r) != "PASS"
  }

  /** Any two runs say the same of every label. */
  ghost predicate Steady(cs: seq<CaseRuns>) {
    forall i, n, r, s :: IsRun(cs, i, n, r) && IsRun(cs, i, n, s) ==> Said(cs, i, n, r) == Said(cs, i, n, s)
  }

  lemma NoneUnsteady(cs: seq<CaseRuns>)
    ensures |UnsteadyLabels(cs, None)| == 0 <==> Steady(cs)
  {
    hide Said;
    if l :| l in UnsteadyLabels(cs, None) {
    }
    if !Steady(cs) {
      var i, n, r, s :| IsRun(cs, i, n, r) && IsRun(cs, i, n, s) && Said(cs, i, n, r) != Said(cs, i, n, s);
      assert (i, n) in UnsteadyLabels(cs, None);
    }
  }

  lemma NoneWrong(cs: seq<CaseRuns>)
    ensures |WronglyPassed(cs, None)| == 0 <==> NoFalsePass(cs)
  {
    hide Said, Gold;
    if l :| l in WronglyPassed(cs, None) {
    }
    if !NoFalsePass(cs) {
      var i, n, r :| IsRun(cs, i, n, r) && Gold(cs, i, n) == "FAIL" && Said(cs, i, n, r) == "PASS";
      assert (i, n) in WronglyPassed(cs, None);
    }
  }

  lemma NoneGiven(cs: seq<CaseRuns>)
    ensures |Verdicts(cs, None)| == 0 <==> forall i, n, r :: !IsRun(cs, i, n, r)
  {
    if i, n, r :| IsRun(cs, i, n, r) {
      assert (i, n, r) in Verdicts(cs, None);
    }
  }

  /** A freeze-gate calibration passes exactly when there was something to judge, no two runs ever disagreed, no run passed
      a gate labelled FAIL, and at least nine tenths of the verdicts were the label. */
  lemma FreezeGatePass(cs: seq<CaseRuns>)
    ensures ReportOf(cs, FreezeGate).passed <==>
              && (exists i, n, r :: IsRun(cs, i, n, r)) && Steady(cs) && NoFalsePass(cs)
              && 10 * |RightVerdicts(cs, None)| >= 9 * |Verdicts(cs, None)|
  {
    hide ReportOf, Verdicts, RightVerdicts, Steady, NoFalsePass, WronglyPassed, UnsteadyLabels, Share, Unsteady;
    PassIs(cs, FreezeGate);
    NoneUnsteady(cs);
    NoneWrong(cs);
    NoneGiven(cs);
    NineTenths();
    if |Verdicts(cs, None)| > 0 { AtLeast(|RightVerdicts(cs, None)|, |Verdicts(cs, None)|, 9, 10); }
  }

  /** Silence is not a verdict: a run silent on a gate labelled PASS or FAIL is not right about it. */
  lemma SilenceIsWrong(cs: seq<CaseRuns>, i: int, n: int, r: int, g: Option<string>)
    requires IsRun(cs, i, n, r) && GateAt(cs, i, n) !in cs[i].gateVerdicts[r] && (Gold(cs, i, n) == "PASS" || Gold(cs, i, n) == "FAIL")
    ensures (i, n, r) !in RightVerdicts(cs, g)
    ensures forall s :: IsRun(cs, i, n, s) && Said(cs, i, n, s) in ["PASS", "FAIL"] ==> Unsteady(cs, i, n)
  {
    assert Said(cs, i, n, r) == "MISSING" && "MISSING"[0] == 'M';
  }

  lemma PassIs(cs: seq<CaseRuns>, role: Role)
    ensures var t := ThresholdsOf(role); var r := ReportOf(cs, role);
            r.passed <==> |UnsteadyLabels(cs, None)| == 0 && !(t.falsePassMax.Some? && |WronglyPassed(cs, None)| > t.falsePassMax.value)
                          && !((if |Verdicts(cs, None)| == 0 then 0.0 else Share(|RightVerdicts(cs, None)|, |Verdicts(cs, None)|)) < t.gateAgreementMin)
  {
    hide AllPairs, Sum, Matrix, Flips, GoldLabels, JudgeLabels, CohensKappa, Share, Verdicts, RightVerdicts, WronglyPassed, UnsteadyLabels, ThresholdsOf;
    RowIs(cs, None);
    FlipsCounted(AllPairs(cs));
  }

  /** An advisory calibration: the same with three quarters, and no bar on false passes. */
  lemma AdvisoryPass(cs: seq<CaseRuns>)
    ensures ReportOf(cs, Advisory).passed <==>
              && (exists i, n, r :: IsRun(cs, i, n, r)) && Steady(cs)
              && 4 * |RightVerdicts(cs, None)| >= 3 * |Verdicts(cs, None)|
  {
    hide ReportOf, Verdicts, RightVerdicts, Steady, WronglyPassed, UnsteadyLabels, Share, Unsteady;
    PassIs(cs, Advisory);
    NoneUnsteady(cs);
    NoneGiven(cs);
    NineTenths();
    if |Verdicts(cs, None)| > 0 { AtLeast(|RightVerdicts(cs, None)|, |Verdicts(cs, None)|, 3, 4); }
  }
}
