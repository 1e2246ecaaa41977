/** The optimisation loop: experiments until one meets the target or the budget is spent. */
module AutoResearch {
  import opened Text
  import C = Convergence

  type AgentRequest = C.AgentRequest

  datatype Operator = AtLeast | Above | AtMost | Below | Equals

  datatype Strategy = PromptPhrasing | ConstraintOrdering | ContextPruning | ModelComparison | Unknown

  datatype Experiment = Experiment(number: nat, variation: string, description: string, value: real, cost: real, success: bool)

  /** `float("-inf")`, `float("inf")` and the metric values. */
  datatype Best = NegativeInfinity | PositiveInfinity | Reached(value: real)

  datatype Variation = Variation(request: AgentRequest, description: string)

  datatype ResearchResult = ResearchResult(targetMet: bool, experimentsRun: nat, best: Option<Experiment>, bestValue: Best, history: seq<Experiment>, totalCost: real)

  predicate Rising(op: Operator) { op.AtLeast? || op.Above? }

  /** `_target_met` */
  predicate TargetMet(op: Operator, threshold: real, value: real) {
    match op
    case AtLeast => value >= threshold
    case Above => value > threshold
    case AtMost => value <= threshold
    case Below => value < threshold
    case Equals => -0.001 < value - threshold < 0.001
  }

  /** An equality target prefers the lower value. */
  predicate Better(op: Operator, new': real, current: real) { if Rising(op) then new' > current else new' < current }

  /** `_is_better` */
  predicate Improves(op: Operator, new': real, best: Best) {
    match best
    case NegativeInfinity => Rising(op)
    case PositiveInfinity => !Rising(op)
    case Reached(value) => Better(op, new', value)
  }

  function TotalCost(history: seq<Experiment>): real {
    if history == [] then 0.0 else TotalCost(history[..|history| - 1]) + history[|history| - 1].cost
  }

  // ---- what a history amounts to ----

  predicate Succeeded(history: seq<Experiment>, k: int) { 0 <= k < |history| && history[k].success }

  /** Experiment `k` has the best value of all, and no earlier one reaches it. */
  ghost predicate FirstBest(op: Operator, history: seq<Experiment>, k: int) {
    && Succeeded(history, k)
    && (forall j :: Succeeded(history, j) ==> !Better(op, history[j].value, history[k].value))
    && (forall j :: Succeeded(history, j) && j < k ==> Better(op, history[k].value, history[j].value))
  }

  ghost predicate IsBest(op: Operator, history: seq<Experiment>, best: Option<Experiment>, value: Best) {
    match best
    case None => value == (if Rising(op) then NegativeInfinity else PositiveInfinity) && forall k :: !Succeeded(history, k)
    case Some(e) => value == Reached(e.value) && exists k :: FirstBest(op, history, k) && history[k] == e
  }

  ghost predicate NoneMet(op: Operator, threshold: real, history: seq<Experiment>) {
    forall k :: Succeeded(history, k) ==> !TargetMet(op, threshold, history[k].value)
  }

  predicate Numbered(history: seq<Experiment>) {
    forall k :: 0 <= k < |history| ==> history[k].number == k + 1 && (!history[k].success ==> history[k].value == history[k].cost == 0.0)
  }

  /** The search stopped at the first success that meets the target, or found none. */
  ghost predicate Stopped(op: Operator, threshold: real, r: ResearchResult) {
    && IsBest(op, r.history, r.best, r.bestValue) && Numbered(r.history)
    && r.experimentsRun == |r.history| && r.totalCost == TotalCost(r.history)
    && if r.targetMet then
         var n := |r.history| - 1;
         n >= 0 && NoneMet(op, threshold, r.history[..n]) && r.history[n].success && TargetMet(op, threshold, r.history[n].value)
       else NoneMet(op, threshold, r.history)
  }

  lemma OneMoreTried(op: Operator, history: seq<Experiment>, best: Option<Experiment>, value: Best, e: Experiment)
    requires IsBest(op, history, best, value)
    ensures if e.success && Improves(op, e.value, value) then IsBest(op, history + [e], Some(e), Reached(e.value))
            else IsBest(op, history + [e], best, value)
  {
    var all, n := history + [e], |history|;
    assert forall k :: Succeeded(history, k) ==> all[k] == history[k] && Succeeded(all, k);
    assert forall k :: Succeeded(all, k) && k != n ==> all[k] == history[k] && Succeeded(history, k);
    if e.success && Improves(op, e.value, value) {
      forall j | Succeeded(history, j) ensures Better(op, e.value, history[j].value) {
        assert best.Some?;
        var k :| FirstBest(op, history, k) && history[k] == best.value;
        assert !Better(op, history[j].value, history[k].value);
      }
      assert Succeeded(all, n) && FirstBest(op, all, n);
    } else if best.Some? {
      var k :| FirstBest(op, history, k) && history[k] == best.value;
      assert FirstBest(op, all, k);
    }
  }

  lemma BestSucceeded(op: Operator, history: seq<Experiment>, k: int)
    requires FirstBest(op, history, k)
    ensures Succeeded(history, k)
  {
    hide Better;
  }

  lemma FirstBestIsLast(op: Operator, history: seq<Experiment>, k: int)
    requires FirstBest(op, history, k) && Succeeded(history, |history| - 1)
    ensures var n := |history| - 1;
            k == n <==> forall j :: Succeeded(history, j) && j < n ==> Better(op, history[n].value, history[j].value)
  {
    hide Better;
    var n := |history| - 1;
    if k < n { assert !Better(op, history[n].value, history[k].value); }
  }

  /** The best experiment is the last exactly when it beats every earlier success. */
  lemma BestIsLastIff(op: Operator, threshold: real, r: ResearchResult)
    requires Stopped(op, threshold, r) && r.targetMet
    ensures var n := |r.history| - 1;
            r.best == Some(r.history[n]) <==> forall j :: Succeeded(r.history, j) && j < n ==> Better(op, r.history[n].value, r.history[j].value)
  {
    hide FirstBest, Better, TotalCost, TargetMet;
    var history, n := r.history, |r.history| - 1;
    assert Succeeded(history, n);
    assert r.best.Some?;
    forall k | FirstBest(op, history, k) ensures Succeeded(history, k) { BestSucceeded(op, history, k); }
    var k :| FirstBest(op, history, k) && history[k] == r.best.value;
    BestSucceeded(op, history, k);
    FirstBestIsLast(op, history, k);
    assert history[k].number == k + 1 && history[n].number == n + 1;
  }

  /** For an inequality, the experiment that meets the target is the best. */
  lemma MetIsBest(op: Operator, threshold: real, r: ResearchResult)
    requires Stopped(op, threshold, r) && r.targetMet && op != Equals
    ensures r.best == Some(r.history[|r.history| - 1]) && r.bestValue.Reached? && TargetMet(op, threshold, r.bestValue.value)
  {
    hide TotalCost, FirstBest;
    var history, n := r.history, |r.history| - 1;
    forall j | Succeeded(history, j) && j < n ensures Better(op, history[n].value, history[j].value) {
      assert Succeeded(history[..n], j) && history[..n][j] == history[j];
    }
    BestIsLastIff(op, threshold, r);
  }

  /** The comparison that a target asks for, in numbers; an equality target allows a thousandth. */
  predicate Hits(op: Operator, threshold: real, value: real) {
    || (op == AtLeast && value >= threshold) || (op == Above && value > threshold)
    || (op == AtMost && value <= threshold) || (op == Below && value < threshold)
    || (op == Equals && threshold - 0.001 < value < threshold + 0.001)
  }

  /** A search that met its target did so with its last experiment and no earlier success; one that did not had no such
      success. The best value is the highest success for a target of at least or above, the lowest for any other. */
  lemma SearchMeans(op: Operator, threshold: real, r: ResearchResult, k: int)
    requires Stopped(op, threshold, r) && 0 <= k < |r.history| && r.history[k].success
    ensures Hits(op, threshold, r.history[k].value) <==> r.targetMet && k == |r.history| - 1
    ensures r.best.Some? && r.best.value.success && r.best.value in r.history && r.bestValue == Reached(r.best.value.value)
    ensures if op == AtLeast || op == Above then r.history[k].value <= r.best.value.value else r.history[k].value >= r.best.value.value
  {
    hide Stopped, FirstBest, TargetMet;
    assert Succeeded(r.history, k);
    HitsIs(op, threshold, r.history[k].value);
    if r.targetMet && k == |r.history| - 1 { LastMeets(op, threshold, r); } else { EarlierMisses(op, threshold, r, k); }
    SomeBest(op, threshold, r, k);
    var b := BestAt(op, threshold, r);
    BestSucceeded(op, r.history, b);
    NoneBeats(op, r.history, b, k);
  }

  lemma HitsIs(op: Operator, threshold: real, value: real)
    ensures Hits(op, threshold, value) <==> TargetMet(op, threshold, value)
  {
  }

  lemma SomeBest(op: Operator, threshold: real, r: ResearchResult, k: int)
    requires Stopped(op, threshold, r) && Succeeded(r.history, k)
    ensures r.best.Some?
  {
    hide TotalCost, TargetMet, FirstBest, Numbered, NoneMet;
  }

  lemma NoneBeats(op: Operator, history: seq<Experiment>, b: int, k: int)
    requires FirstBest(op, history, b) && Succeeded(history, b) && Succeeded(history, k)
    ensures if op == AtLeast || op == Above then history[k].value <= history[b].value else history[k].value >= history[b].value
  {
  }

  /** When the target is not met, the best value misses it too, whatever the operator. */
  lemma UnmetMeansBestMisses(op: Operator, threshold: real, r: ResearchResult)
    requires Stopped(op, threshold, r) && !r.targetMet && r.best.Some?
    ensures r.bestValue.Reached? && !TargetMet(op, threshold, r.bestValue.value)
  {
    hide TotalCost;
    var k :| FirstBest(op, r.history, k) && r.history[k] == r.best.value;
    assert Succeeded(r.history, k);
  }

  /** For an equality target that was met, the best value meets it exactly when no earlier success fell below
      the threshold: such a value is lower, hence preferred, and too low. */
  lemma EqualityBestMeetsIff(threshold: real, r: ResearchResult)
    requires Stopped(Equals, threshold, r) && r.targetMet
    ensures r.bestValue.Reached?
    ensures TargetMet(Equals, threshold, r.bestValue.value) <==>
              forall j :: Succeeded(r.history, j) && j < |r.history| - 1 ==> r.history[j].value >= threshold
  {
    hide Stopped, FirstBest;
    var history, n := r.history, |r.history| - 1;
    LastMeets(Equals, threshold, r);
    var k := BestAt(Equals, threshold, r);
    forall j | Succeeded(history, j) && j < n ensures !TargetMet(Equals, threshold, history[j].value) {
      EarlierMisses(Equals, threshold, r, j);
    }
    LowestMeetsIff(threshold, history, n, k);
  }

  lemma LastMeets(op: Operator, threshold: real, r: ResearchResult)
    requires Stopped(op, threshold, r) && r.targetMet
    ensures var n := |r.history| - 1; Succeeded(r.history, n) && TargetMet(op, threshold, r.history[n].value)
    ensures r.best.Some?
  {
    hide TotalCost, TargetMet, FirstBest, Numbered;
    assert Succeeded(r.history, |r.history| - 1);
  }

  lemma EarlierMisses(op: Operator, threshold: real, r: ResearchResult, j: int)
    requires Stopped(op, threshold, r) && Succeeded(r.history, j) && (r.targetMet ==> j < |r.history| - 1)
    ensures !TargetMet(op, threshold, r.history[j].value)
  {
    hide TotalCost, TargetMet, IsBest, Numbered;
    var n := |r.history| - 1;
    if r.targetMet { assert Succeeded(r.history[..n], j) && r.history[..n][j] == r.history[j]; }
  }

  lemma BestAt(op: Operator, threshold: real, r: ResearchResult) returns (k: nat)
    requires Stopped(op, threshold, r) && r.best.Some?
    ensures FirstBest(op, r.history, k) && k < |r.history| && r.history[k] == r.best.value && r.bestValue == Reached(r.best.value.value)
  {
    hide TotalCost, TargetMet, FirstBest, Numbered, NoneMet;
    forall b | FirstBest(op, r.history, b) ensures Succeeded(r.history, b) { BestSucceeded(op, r.history, b); }
    var b :| FirstBest(op, r.history, b) && r.history[b] == r.best.value;
    BestSucceeded(op, r.history, b);
    k := b;
  }

  lemma LowestMeetsIff(threshold: real, history: seq<Experiment>, n: nat, k: nat)
    requires n == |history| - 1 && Succeeded(history, n) && TargetMet(Equals, threshold, history[n].value) && FirstBest(Equals, history, k)
    requires forall j :: Succeeded(history, j) && j < n ==> !TargetMet(Equals, threshold, history[j].value)
    ensures TargetMet(Equals, threshold, history[k].value) <==> forall j :: Succeeded(history, j) && j < n ==> history[j].value >= threshold
  {
  }

  /** Such a history: 3 and then 5, for a target of 5. */
  lemma EqualityPrefersLower()
    ensures var low, hit := Experiment(1, "", "", 3.0, 0.0, true), Experiment(2, "", "", 5.0, 0.0, true);
            var r := ResearchResult(true, 2, Some(low), Reached(3.0), [low, hit], 0.0);
            Stopped(Equals, 5.0, r) && !TargetMet(Equals, 5.0, r.bestValue.value)
  {
    var low, hit := Experiment(1, "", "", 3.0, 0.0, true), Experiment(2, "", "", 5.0, 0.0, true);
    var history := [low, hit];
    assert history[..1] == [low] && [low][..0] == [];
    assert TotalCost([low]) == TotalCost([]) + 0.0;
    assert TotalCost(history) == TotalCost([low]) + 0.0;
    assert Succeeded(history, 0);
    assert FirstBest(Equals, history, 0);
  }

  // ---- variations ----

  function Clip(s: string, n: nat): string { if |s| <= n then s else s[..n] }

  /** `s[:n]` */
  function Upto<T>(s: seq<T>, n: int): seq<T> {
    if n >= 0 then (if n <= |s| then s[..n] else s) else (if -n <= |s| then s[..|s| + n] else [])
  }

  /** The fields the variations copy; declared inputs and temperature are not among them. */
  function Varied(base: AgentRequest, metadata: map<string, string>): AgentRequest {
    base.(metadata := metadata, declaredInputs := map[], temperature := None)
  }

  function Reordered(base: AgentRequest, constraints: seq<string>): AgentRequest {
    Varied(base, base.metadata["variation" := "constraint_ordering"]).(constraints := constraints)
  }

  function Pruned(base: AgentRequest, key: string): AgentRequest {
    Varied(base, base.metadata["variation" := "context_pruning"]["pruned" := key]).(upstream := base.upstream - {key})
  }

  /** How many experiments a strategy may run: only context pruning ignores the count it is given. */
  function Budget(strategy: Strategy, max: int, upstream: nat): nat {
    if max <= 0 then 0 else if strategy.ContextPruning? then max + upstream else max
  }

  class AutoResearchEngine {
    const op: Operator
    const threshold: real
    const max: int
    const batch: int

    constructor (op: Operator, threshold: real, max: int, batch: int)
      ensures this.op == op && this.threshold == threshold && this.max == max && this.batch == batch
    {
      this.op, this.threshold, this.max, this.batch := op, threshold, max, batch;
    }

    /** One experiment: the adapter may answer with any metric, or raise. */
    method RunExperiment(v: Variation, number: nat) returns (e: Experiment)
      ensures e.number == number && e.variation == Clip(v.request.prompt, 500) && e.description == v.description
      ensures !e.success ==> e.value == e.cost == 0.0
    {
      var answer: Option<(real, real)> := *;
      if answer.Some? {
        e := Experiment(number, Clip(v.request.prompt, 500), v.description, answer.value.0, answer.value.1, true);
      } else {
        e := Experiment(number, Clip(v.request.prompt, 500), v.description, 0.0, 0.0, false);
      }
    }

    /** The variation adapter may propose any texts, or raise. */
    method VaryPromptPhrasing(base: AgentRequest, count: int) returns (vs: seq<Variation>)
      ensures count >= 0 ==> |vs| <= count
      ensures forall v :: v in vs ==> v.request.prompt != "" && v.request.constraints == base.constraints && v.request.upstream == base.upstream
    {
      var texts: Option<seq<string>> := *;
      if !texts.Some? {
        return [];
      }
      var lines := texts.value;
      vs := [];
      for i := 0 to |lines|
        invariant forall v :: v in vs ==> v.request.prompt != "" && v.request.constraints == base.constraints && v.request.upstream == base.upstream
      {
        if lines[i] != "" {
          var request := Varied(base, base.metadata["variation" := "prompt_phrasing"]).(prompt := lines[i]);
          vs := vs + [Variation(request, "prompt variation: " + Clip(lines[i], 80))];
        }
      }
      vs := Upto(vs, count);
    }

    /** `random.shuffle`: some rearrangement. */
    method Shuffle(s: seq<string>) returns (r: seq<string>)
      ensures multiset(r) == multiset(s)
    {
      r := *;
      if multiset(r) != multiset(s) {
        r := s;
      }
    }

    /** Different orders of the same constraints, as many as wanted or as three times as many tries find. */
    method VaryConstraintOrdering(base: AgentRequest, count: int) returns (vs: seq<Variation>)
      ensures |base.constraints| < 2 ==> |vs| == 1 && vs[0].request == base
      ensures |base.constraints| >= 2 ==> |vs| <= (if count > 0 then count else 0) && (count > 0 ==> |vs| >= 1)
      ensures |base.constraints| >= 2 ==> forall v :: v in vs ==>
                (multiset(v.request.constraints) == multiset(base.constraints) && v.request == Reordered(base, v.request.constraints))
      ensures forall i, j :: 0 <= i < j < |vs| ==> vs[i].request.constraints != vs[j].request.constraints
    {
      if |base.constraints| < 2 {
        return [Variation(base, "baseline (no reordering possible)")];
      }
      vs := [];
      var seen: set<seq<string>> := {};
      var tries := 0;
      while tries < count * 3
        invariant 0 <= tries && (count <= 0 ==> tries == 0) && |vs| <= tries && (tries > 0 ==> |vs| >= 1) && (count > 0 ==> |vs| < count)
        invariant forall v :: v in vs ==>
          (v.request.constraints in seen && multiset(v.request.constraints) == multiset(base.constraints)
           && v.request == Reordered(base, v.request.constraints))
        invariant seen == {} <==> vs == []
        invariant forall i, j :: 0 <= i < j < |vs| ==> vs[i].request.constraints != vs[j].request.constraints
      {
        tries := tries + 1;
        var shuffled := Shuffle(base.constraints);
        if shuffled !in seen {
          seen := seen + {shuffled};
          vs := vs + [Variation(Reordered(base, shuffled), "constraints reordered")];
          if |vs| >= count {
            break;
          }
        }
      }
    }

    /** The baseline first, then the request without each of its upstream artifacts in turn. */
    method VaryContextPruning(base: AgentRequest, keys: seq<string>) returns (vs: seq<Variation>)
      ensures |vs| == 1 + |keys| && vs[0].request == base
      ensures forall i :: 0 <= i < |keys| ==> vs[i + 1].request == Pruned(base, keys[i])
    {
      vs := [];
      for i := 0 to |keys|
        invariant |vs| == i && forall j :: 0 <= j < i ==> vs[j].request == Pruned(base, keys[j])
      {
        vs := vs + [Variation(Pruned(base, keys[i]), "pruned upstream: " + keys[i])];
      }
      vs := [Variation(base, "baseline (no pruning)")] + vs;
    }

    /** `_generate_variations`; an unknown strategy raises. `keys` are the upstream artifacts in dictionary order. */
    method GenerateVariations(base: AgentRequest, strategy: Strategy, keys: seq<string>, count: int) returns (vs: Option<seq<Variation>>)
      ensures vs.None? <==> strategy.Unknown?
      ensures vs.Some? && strategy.ContextPruning? ==>
                |vs.value| == 1 + |keys| && vs.value[0].request == base && forall i :: 0 <= i < |keys| ==> vs.value[i + 1].request == Pruned(base, keys[i])
      ensures vs.Some? && count > 0 && !strategy.PromptPhrasing? ==> vs.value != []
      ensures vs.Some? && !strategy.ContextPruning? && (count >= 0 || !strategy.PromptPhrasing?) ==> |vs.value| <= (if count > 1 then count else 1)
    {
      match strategy {
        case PromptPhrasing =>
          var r := VaryPromptPhrasing(base, count);
          vs := Some(r);
        case ConstraintOrdering =>
          var r := VaryConstraintOrdering(base, count);
          vs := Some(r);
        case ContextPruning =>
          var r := VaryContextPruning(base, keys);
          vs := Some(r);
        case ModelComparison =>
          vs := Some(seq(if count > 0 then count else 0, n => Variation(base, "baseline (same request)")));
        case Unknown => vs := None;
      }
    }

    /** `optimize` */
    method Optimize(base: AgentRequest, strategy: Strategy, keys: seq<string>)
      returns (result: Option<ResearchResult>, ghost tried: seq<Variation>)
      ensures result.None? <==> strategy.Unknown? && max > 0
      ensures result.Some? ==> Stopped(op, threshold, result.value) && Follows(result.value.history, tried)
      ensures result.Some? && !result.value.targetMet ==>
                && |tried| == result.value.experimentsRun
                && (batch > 0 && !strategy.PromptPhrasing? ==> result.value.experimentsRun >= max)
      ensures result.Some? && (batch >= 0 || !strategy.PromptPhrasing?) ==> result.value.experimentsRun <= Budget(strategy, max, |keys|)
    {
      hide IsBest, TargetMet, Improves, TotalCost, Follows, Numbered, NoneMet, Clip, Stopped;
      var history: seq<Experiment> := [];
      tried := [];
      NothingFollows();
      var best: Option<Experiment> := None;
      var bestValue := if Rising(op) then NegativeInfinity else PositiveInfinity;
      var counter := 0;
      NothingTried(op, threshold);
      while counter < max
        invariant counter == |history| && Numbered(history) && NoneMet(op, threshold, history) && IsBest(op, history, best, bestValue)
        invariant Follows(history, tried) && |tried| == |history|
        invariant counter > 0 ==> max > 0 && !strategy.Unknown?
        invariant batch >= 0 || !strategy.PromptPhrasing? ==> counter <= Budget(strategy, max, |keys|)
      {
        var variations := GenerateVariations(base, strategy, keys, if batch < max - counter then batch else max - counter);
        if variations.None? {
          return None, tried;
        }
        if variations.value == [] {
          break;
        }
        var start := counter;
        ghost var past := tried;
        tried := past + variations.value;
        MoreToTry(history, past, variations.value);
        for i := 0 to |variations.value|
          invariant counter == start + i == |history| && |past| == start && Follows(history, tried)
          invariant Numbered(history) && NoneMet(op, threshold, history) && IsBest(op, history, best, bestValue)
        {
          counter := counter + 1;
          var e := RunExperiment(variations.value[i], counter);
          OneMoreTried(op, history, best, bestValue, e);
          ghost var before := history;
          history := history + [e];
          assert tried[start + i] == variations.value[i];
          OneMoreFollows(before, tried, e);
          NumberedGrows(before, e);
          if e.success {
            if Improves(op, e.value, bestValue) {
              best, bestValue := Some(e), Reached(e.value);
            }
            if TargetMet(op, threshold, e.value) {
              var cost := Sum(history);
              StopsHere(op, threshold, before, e, best, bestValue);
              return Some(ResearchResult(true, counter, best, bestValue, history, cost)), tried;
            }
          }
          OneMoreMissed(op, threshold, before, e);
        }
      }
      var cost := Sum(history);
      StopsNowhere(op, threshold, history, best, bestValue);
      result := Some(ResearchResult(false, counter, best, bestValue, history, cost));
    }

    method Sum(history: seq<Experiment>) returns (cost: real)
      ensures cost == TotalCost(history)
    {
      cost := 0.0;
      for i := 0 to |history|
        invariant cost == TotalCost(history[..i])
      {
        assert history[..i + 1][..i] == history[..i];
        cost := cost + history[i].cost;
      }
      assert history[..|history|] == history;
    }
  }

  /** Experiment `k` tried variation `k`. */
  predicate Follows(history: seq<Experiment>, tried: seq<Variation>) {
    && |history| <= |tried|
    && forall k :: 0 <= k < |history| ==>
         history[k].description == tried[k].description && history[k].variation == Clip(tried[k].request.prompt, 500)
  }

  lemma NothingFollows()
    ensures Follows([], [])
  {
  }

  lemma MoreToTry(history: seq<Experiment>, tried: seq<Variation>, more: seq<Variation>)
    requires Follows(history, tried)
    ensures Follows(history, tried + more)
  {
  }

  lemma OneMoreFollows(history: seq<Experiment>, tried: seq<Variation>, e: Experiment)
    requires Follows(history, tried) && |history| < |tried|
    requires e.description == tried[|history|].description && e.variation == Clip(tried[|history|].request.prompt, 500)
    ensures Follows(history + [e], tried)
  {
  }

  lemma NothingTried(op: Operator, threshold: real)
    ensures IsBest(op, [], None, if Rising(op) then NegativeInfinity else PositiveInfinity)
    ensures NoneMet(op, threshold, []) && Numbered([])
  {
  }

  lemma NumberedGrows(history: seq<Experiment>, e: Experiment)
    requires Numbered(history) && e.number == |history| + 1 && (!e.success ==> e.value == e.cost == 0.0)
    ensures Numbered(history + [e])
  {
  }

  lemma StopsHere(op: Operator, threshold: real, history: seq<Experiment>, e: Experiment, best: Option<Experiment>, value: Best)
    requires NoneMet(op, threshold, history) && e.success && TargetMet(op, threshold, e.value)
    requires IsBest(op, history + [e], best, value) && Numbered(history + [e])
    ensures Stopped(op, threshold, ResearchResult(true, |history| + 1, best, value, history + [e], TotalCost(history + [e])))
  {
    hide IsBest, NoneMet, TargetMet, Numbered, TotalCost;
    assert (history + [e])[..|history|] == history;
  }

  lemma StopsNowhere(op: Operator, threshold: real, history: seq<Experiment>, best: Option<Experiment>, value: Best)
    requires NoneMet(op, threshold, history) && IsBest(op, history, best, value) && Numbered(history)
    ensures Stopped(op, threshold, ResearchResult(false, |history|, best, value, history, TotalCost(history)))
  {
    hide IsBest, NoneMet, Numbered, TotalCost;
  }

  lemma OneMoreMissed(op: Operator, threshold: real, history: seq<Experiment>, e: Experiment)
    requires NoneMet(op, threshold, history) && (e.success ==> !TargetMet(op, threshold, e.value))
    ensures NoneMet(op, threshold, history + [e])
  {
    var all := history + [e];
    forall k | Succeeded(all, k) ensures !TargetMet(op, threshold, all[k].value) {
      assert k < |history| ==> Succeeded(history, k);
    }
  }
}
