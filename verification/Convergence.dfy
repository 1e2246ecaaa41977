/** The generate-validate loop with its lens reviews: what each round asks, what the ledger
    records, and when the loop stops. */
module Convergence {
  import opened Text

  datatype AgentRequest = AgentRequest(
    artifactType: string, event: string, spec: string, template: string, prompt: string,
    upstream: map<string, string>, currentArtifact: Option<string>, constraints: seq<string>,
    metadata: map<string, string>, declaredInputs: map<string, string>, temperature: Option<real>)

  datatype AgentResponse = AgentResponse(content: string, tokensOut: int, truncated: bool)

  /** A blocking issue; any of its fields may be missing from the JSON. */
  datatype Issue = Issue(gate: Option<string>, description: Option<string>, location: Option<string>)

  datatype ValidationResult = ValidationResult(
    status: string, summary: string, hardGates: map<string, string>, issues: seq<Issue>, warnings: seq<Issue>, score: int)

  /** A judge's response, once parsed. */
  datatype Reply = Reply(provider: string, model: string, verdict: ValidationResult)

  /** `lens` is absent from a validator's entry; a lens entry has neither gates nor a score. */
  datatype LedgerEntry = LedgerEntry(
    iteration: nat, lens: Option<string>, status: string, hardGates: map<string, string>, issues: seq<Issue>,
    score: Option<int>, hashedPrompt: string, provider: string, model: string, temperature: Option<real>)

  datatype Notice = Stale(iteration: nat) | Oscillating(iteration: nat)

  datatype Call = Generate(request: AgentRequest) | Judge(request: AgentRequest) | Review(lens: string, request: AgentRequest)

  /** How a run ends: a result, one of the exceptions that leave it, or, when no iteration is
      allowed at all, the unbound local of the final `return`. */
  datatype Outcome =
    | Returned(response: AgentResponse, result: ValidationResult)
    | TruncatedGeneration(artifactType: string, iteration: nat, tokensOut: int)
    | GeneratorRaised
    | ValidatorRaised
    | Unbound

  function GetOr(o: Option<string>, default: string): string { if o.Some? then o.value else default }

  // ---- the requests ----

  function Constraint(issue: Issue): string {
    "[" + GetOr(issue.gate, "") + "] " + GetOr(issue.description, "")
    + (if GetOr(issue.location, "") == "" then "" else " (at: " + issue.location.value + ")")
  }

  function Constraints(issues: seq<Issue>): seq<string> {
    seq(|issues|, n requires 0 <= n < |issues| => Constraint(issues[n]))
  }

  /** What a regeneration asks: the temperature is not carried over. */
  function Corrected(original: AgentRequest, issues: seq<Issue>): AgentRequest {
    original.(constraints := original.constraints + Constraints(issues), temperature := None)
  }

  function JudgeRequest(val: AgentRequest, content: string): AgentRequest {
    val.(currentArtifact := Some(content), temperature := Some(0.0))
  }

  function LensRequest(gen: AgentRequest, content: string, lens: string): AgentRequest {
    AgentRequest(gen.artifactType, "post_validation", gen.spec, "", "Review this artifact from a " + lens + " perspective.",
                 gen.upstream, Some(content), [], gen.metadata["lens" := lens], gen.declaredInputs, Some(0.0))
  }

  // ---- one round ----

  /** What was asked and answered in one iteration. `None` is a call that raised or did not parse;
      a truncated or failed generation is not judged; only a PASS is reviewed. */
  datatype Round = Round(request: AgentRequest, generation: Option<AgentResponse>, reply: Option<Reply>, reviews: seq<Option<Reply>>)

  predicate Complete(r: Round) { r.generation.Some? && !r.generation.value.truncated }

  predicate Judged(r: Round) { Complete(r) && r.reply.Some? }

  predicate Reviewed(r: Round) { Judged(r) && r.reply.value.verdict.status == "PASS" }

  predicate WellFormed(r: Round, lenses: seq<string>) {
    && (!Complete(r) ==> r.reply.None?)
    && (if Reviewed(r) then |r.reviews| == |lenses| else r.reviews == [])
  }

  function Relabelled(lens: string, issue: Issue): Issue {
    Issue(Some("lens:" + lens + ":" + GetOr(issue.gate, "unknown")), Some(GetOr(issue.description, "")), Some(GetOr(issue.location, "")))
  }

  function IssuesOf(lens: string, review: Option<Reply>): seq<Issue> {
    if review.None? || review.value.verdict.status != "FAIL" then []
    else var issues := review.value.verdict.issues; seq(|issues|, n requires 0 <= n < |issues| => Relabelled(lens, issues[n]))
  }

  function LensIssues(lenses: seq<string>, reviews: seq<Option<Reply>>): seq<Issue>
    requires |reviews| <= |lenses|
  {
    if reviews == [] then []
    else var n := |reviews| - 1; LensIssues(lenses, reviews[..n]) + IssuesOf(lenses[n], reviews[n])
  }

  /** PASS from the validator, and no lens that fails it with an issue to show. */
  predicate Accepted(r: Round, lenses: seq<string>)
    requires WellFormed(r, lenses)
  {
    Reviewed(r) && LensIssues(lenses, r.reviews) == []
  }

  predicate Rejected(r: Round, lenses: seq<string>)
    requires WellFormed(r, lenses)
  {
    Judged(r) && !Accepted(r, lenses)
  }

  /** What the next request must answer to. */
  function Findings(r: Round, lenses: seq<string>): seq<Issue>
    requires WellFormed(r, lenses) && Judged(r)
  {
    if Reviewed(r) then LensIssues(lenses, r.reviews) else r.reply.value.verdict.issues
  }

  function ReviewCalls(gen: AgentRequest, content: string, lenses: seq<string>): seq<Call> {
    seq(|lenses|, n requires 0 <= n < |lenses| => Review(lenses[n], LensRequest(gen, content, lenses[n])))
  }

  function CallsOf(gen: AgentRequest, val: AgentRequest, lenses: seq<string>, r: Round): seq<Call> {
    [Generate(r.request)]
    + (if Complete(r) then [Judge(JudgeRequest(val, r.generation.value.content))] else [])
    + (if Reviewed(r) then ReviewCalls(gen, r.generation.value.content, lenses) else [])
  }

  function VerdictEntry(val: AgentRequest, n: nat, reply: Reply): LedgerEntry {
    var v := reply.verdict;
    LedgerEntry(n, None, v.status, v.hardGates, v.issues, Some(v.score), val.prompt, reply.provider, reply.model, Some(0.0))
  }

  function ReviewEntry(lens: string, n: nat, reply: Reply): LedgerEntry {
    var v := reply.verdict;
    LedgerEntry(n, Some(lens), v.status, map[], v.issues, None, "Review this artifact from a " + lens + " perspective.",
                reply.provider, reply.model, Some(0.0))
  }

  /** A lens that raised leaves no entry. */
  function ReviewEntries(n: nat, lenses: seq<string>, reviews: seq<Option<Reply>>): seq<LedgerEntry>
    requires |reviews| <= |lenses|
  {
    if reviews == [] then []
    else
      var k := |reviews| - 1;
      ReviewEntries(n, lenses, reviews[..k]) + (if reviews[k].Some? then [ReviewEntry(lenses[k], n, reviews[k].value)] else [])
  }

  function EntriesOf(val: AgentRequest, lenses: seq<string>, n: nat, r: Round): seq<LedgerEntry>
    requires WellFormed(r, lenses)
  {
    if !Judged(r) then [] else [VerdictEntry(val, n, r.reply.value)] + ReviewEntries(n, lenses, r.reviews)
  }

  // ---- a whole run ----

  predicate AllWellFormed(rounds: seq<Round>, lenses: seq<string>) { forall k :: 0 <= k < |rounds| ==> WellFormed(rounds[k], lenses) }

  function RunCalls(gen: AgentRequest, val: AgentRequest, lenses: seq<string>, rounds: seq<Round>): seq<Call> {
    if rounds == [] then [] else
      RunCalls(gen, val, lenses, rounds[..|rounds| - 1]) + CallsOf(gen, val, lenses, rounds[|rounds| - 1])
  }

  function RunLedger(val: AgentRequest, lenses: seq<string>, rounds: seq<Round>): seq<LedgerEntry>
    requires AllWellFormed(rounds, lenses)
  {
    if rounds == [] then [] else
      RunLedger(val, lenses, rounds[..|rounds| - 1]) + EntriesOf(val, lenses, |rounds|, rounds[|rounds| - 1])
  }

  /** The request of round `k`: the original, or the original corrected by the round before alone. */
  predicate RequestsFollow(gen: AgentRequest, lenses: seq<string>, rounds: seq<Round>)
    requires AllWellFormed(rounds, lenses)
  {
    forall k :: 0 <= k < |rounds| ==> Asks(gen, lenses, rounds[..k], rounds[k].request)
  }

  /** The request that follows the rounds `past`. */
  predicate Asks(gen: AgentRequest, lenses: seq<string>, past: seq<Round>, request: AgentRequest)
    requires AllWellFormed(past, lenses)
  {
    if past == [] then request == gen
    else var last := past[|past| - 1]; Judged(last) && request == Corrected(gen, Findings(last, lenses))
  }

  /** A run goes on only past a rejected round, and only `max` times. */
  predicate IsRun(max: int, gen: AgentRequest, lenses: seq<string>, rounds: seq<Round>) {
    && AllWellFormed(rounds, lenses) && RequestsFollow(gen, lenses, rounds)
    && |rounds| <= (if max > 0 then max else 0)
    && (forall k :: 0 <= k < |rounds| - 1 ==> Rejected(rounds[k], lenses))
    && (|rounds| < max ==> rounds != [] && !Rejected(rounds[|rounds| - 1], lenses))
  }

  function OutcomeOf(val: AgentRequest, lenses: seq<string>, rounds: seq<Round>): Outcome
    requires AllWellFormed(rounds, lenses)
  {
    if rounds == [] then Unbound else EndOf(val, lenses, |rounds|, rounds[|rounds| - 1])
  }

  function EndOf(val: AgentRequest, lenses: seq<string>, n: nat, r: Round): Outcome
    requires WellFormed(r, lenses)
  {
    if r.generation.None? then GeneratorRaised
    else if r.generation.value.truncated then TruncatedGeneration(val.artifactType, n, r.generation.value.tokensOut)
    else if r.reply.None? then ValidatorRaised
    else
      var v := r.reply.value.verdict;
      Returned(r.generation.value, if !Reviewed(r) || Accepted(r, lenses) then v else
        v.(status := "FAIL", summary := "Lens review failures after " + NatText(n) + " iterations", issues := LensIssues(lenses, r.reviews)))
  }

  // ---- the two detectors ----

  /** `{issue.get("gate"): issue.get("description") ...}`: the last issue of a gate wins. */
  function Descriptions(issues: seq<Issue>): map<Option<string>, Option<string>> {
    if issues == [] then map[] else
      var n := |issues| - 1; Descriptions(issues[..n])[issues[n].gate := issues[n].description]
  }

  function FailedGates(e: LedgerEntry): set<string> { set g | g in e.hardGates && e.hardGates[g] == "FAIL" }

  predicate SameDescription(a: seq<Issue>, b: seq<Issue>, gate: string) {
    && Some(gate) in Descriptions(a) && Some(gate) in Descriptions(b)
    && Descriptions(a)[Some(gate)] == Descriptions(b)[Some(gate)]
  }

  predicate DetectStaleness(ledger: seq<LedgerEntry>) {
    |ledger| >= 2 &&
    var prev, curr := ledger[|ledger| - 2], ledger[|ledger| - 1];
    exists g :: g in FailedGates(prev) * FailedGates(curr) && SameDescription(prev.issues, curr.issues, g)
  }

  predicate DetectOscillation(ledger: seq<LedgerEntry>) {
    |ledger| >= 3
    && Swings(FailedGates(ledger[|ledger| - 3]), FailedGates(ledger[|ledger| - 2]), FailedGates(ledger[|ledger| - 1]))
  }

  predicate Swings(a: set<string>, b: set<string>, c: set<string>) { exists g :: g in a && g !in b && g in c }

  function Notices(ledger: seq<LedgerEntry>, n: nat): seq<Notice> {
    (if DetectStaleness(ledger) then [Stale(n)] else []) + (if DetectOscillation(ledger) then [Oscillating(n)] else [])
  }

  /** The warnings of a run: the detectors look only after a verdict that is not PASS, and not on the
      last iteration allowed. */
  function RunNotices(max: int, val: AgentRequest, lenses: seq<string>, rounds: seq<Round>): seq<Notice>
    requires AllWellFormed(rounds, lenses)
  {
    if rounds == [] then [] else
      var n := |rounds|;
      RunNotices(max, val, lenses, rounds[..n - 1]) + NoticesOf(max, n, rounds[n - 1], RunLedger(val, lenses, rounds))
  }

  function NoticesOf(max: int, n: nat, r: Round, ledger: seq<LedgerEntry>): seq<Notice> {
    if Judged(r) && !Reviewed(r) && n < max then Notices(ledger, n) else []
  }

  datatype ConvergenceState = ConvergenceState(currentIteration: nat, ledger: seq<LedgerEntry>)

  class ConvergenceLoop {
    const max: int
    /** Names of the lenses, in dictionary order. */
    const lenses: seq<string>
    /** The warnings logged. */
    var warned: seq<Notice>
    ghost var calls: seq<Call>

    constructor (max: int, lenses: seq<string>)
      ensures this.max == max && this.lenses == lenses && calls == [] && warned == []
    {
      this.max, this.lenses, calls, warned := max, lenses, [], [];
    }

    /** A generator may answer anything, or raise. */
    method InvokeGenerator(request: AgentRequest) returns (reply: Option<AgentResponse>)
      modifies this`calls
      ensures calls == old(calls) + [Generate(request)]
    {
      reply := *;
      calls := calls + [Generate(request)];
    }

    /** A judge may answer anything, raise, or answer what does not parse. */
    method InvokeJudge(ghost call: Call) returns (reply: Option<Reply>)
      modifies this`calls
      ensures calls == old(calls) + [call]
    {
      reply := *;
      calls := calls + [call];
    }

    /** `_run_lens_reviews`: every lens is asked, and none sees what another said. */
    method RunLensReviews(content: string, gen: AgentRequest, n: nat, ledger: seq<LedgerEntry>)
      returns (issues: seq<Issue>, ledger': seq<LedgerEntry>, ghost reviews: seq<Option<Reply>>)
      modifies this`calls
      ensures |reviews| == |lenses| && issues == LensIssues(lenses, reviews)
      ensures ledger' == ledger + ReviewEntries(n, lenses, reviews)
      ensures calls == old(calls) + ReviewCalls(gen, content, lenses)
    {
      hide LensIssues, ReviewEntries, ReviewCalls, LensRequest, ReviewEntry;
      issues, ledger', reviews := [], ledger, [];
      NothingReviewed(n, gen, content, lenses);
      for k := 0 to |lenses|
        invariant |reviews| == k && issues == LensIssues(lenses, reviews)
        invariant ledger' == ledger + ReviewEntries(n, lenses, reviews)
        invariant calls == old(calls) + ReviewCalls(gen, content, lenses)[..k]
      {
        var reply := InvokeJudge(Review(lenses[k], LensRequest(gen, content, lenses[k])));
        ReviewAdded(n, lenses, reviews, reply);
        ReviewCalled(gen, content, lenses, k);
        reviews := reviews + [reply];
        if reply.Some? {
          ledger' := ledger' + [ReviewEntry(lenses[k], n, reply.value)];
          if reply.value.verdict.status == "FAIL" {
            var found := RelabelAll(lenses[k], reply.value.verdict.issues);
            issues := issues + found;
          }
        }
      }
    }

    method RelabelAll(lens: string, issues: seq<Issue>) returns (r: seq<Issue>)
      ensures forall reply: Reply {:trigger IssuesOf(lens, Some(reply))} ::
                reply.verdict.status == "FAIL" && reply.verdict.issues == issues ==> r == IssuesOf(lens, Some(reply))
    {
      r := [];
      for j := 0 to |issues|
        invariant |r| == j && forall i :: 0 <= i < j ==> r[i] == Relabelled(lens, issues[i])
      {
        r := r + [Relabelled(lens, issues[j])];
      }
    }

    /** `_build_correction_request` */
    method BuildCorrectionRequest(original: AgentRequest, issues: seq<Issue>) returns (r: AgentRequest)
      ensures r == Corrected(original, issues)
    {
      var constraints := original.constraints;
      for k := 0 to |issues|
        invariant constraints == original.constraints + Constraints(issues)[..k]
      {
        var description, gate, location := GetOr(issues[k].description, ""), GetOr(issues[k].gate, ""), GetOr(issues[k].location, "");
        var constraint := "[" + gate + "] " + description;
        if location != "" {
          constraint := constraint + " (at: " + location + ")";
        }
        ConstraintIs(issues[k], constraint);
        constraints := constraints + [constraint];
      }
      r := AgentRequest(original.artifactType, original.event, original.spec, original.template, original.prompt,
                        original.upstream, original.currentArtifact, constraints, original.metadata, original.declaredInputs, None);
    }

    /** `run` */
    method Run(gen: AgentRequest, val: AgentRequest) returns (outcome: Outcome, state: ConvergenceState, ghost rounds: seq<Round>)
      modifies this
      ensures IsRun(max, gen, lenses, rounds) && outcome == OutcomeOf(val, lenses, rounds)
      ensures state == ConvergenceState(|rounds|, RunLedger(val, lenses, rounds))
      ensures calls == old(calls) + RunCalls(gen, val, lenses, rounds)
      ensures warned == old(warned) + RunNotices(max, val, lenses, rounds)
    {
      hide LensIssues, ReviewEntries, ReviewCalls, Corrected, JudgeRequest, Notices, RunCalls, RunLedger, RunNotices, VerdictEntry,
           GoingOn, IsRun, OutcomeOf, AllWellFormed, RequestsFollow, NatText, CallsOf, Judged, Reviewed, Complete, WellFormed, Rejected,
           Accepted, Findings, EndOf, EntriesOf, NoticesOf;
      state, rounds, outcome := ConvergenceState(0, []), [], Unbound;
      NothingYet(max, gen, val, lenses);
      var request := gen;
      var iteration := 0;
      while iteration < max
        invariant 0 <= iteration == |rounds| && (max > 0 ==> iteration <= max)
        invariant AllWellFormed(rounds, lenses)
        invariant if iteration < max then GoingOn(gen, lenses, rounds, request) else IsRun(max, gen, lenses, rounds)
        invariant outcome == OutcomeOf(val, lenses, rounds)
        invariant state == ConvergenceState(|rounds|, RunLedger(val, lenses, rounds))
        invariant calls == old(calls) + RunCalls(gen, val, lenses, rounds)
        invariant warned == old(warned) + RunNotices(max, val, lenses, rounds)
      {
        ghost var before := rounds;
        var n := iteration + 1;
        state := state.(currentIteration := n);
        var response := InvokeGenerator(request);
        if response.None? || response.value.truncated {
          ghost var r := Round(request, response, None, []);
          rounds := before + [r];
          Broken(max, val, lenses, n, r);
          RoundAdded(max, gen, val, lenses, before, r);
          Recorded(old(calls), RunCalls(gen, val, lenses, before), gen, val, lenses, r, calls);
          Ends(max, gen, lenses, before, request, r);
          outcome := if response.None? then GeneratorRaised else TruncatedGeneration(val.artifactType, n, response.value.tokensOut);
          return;
        }
        var content := response.value.content;
        var reply := InvokeJudge(Judge(JudgeRequest(val, content)));
        if reply.None? {
          ghost var r := Round(request, response, None, []);
          rounds := before + [r];
          Broken(max, val, lenses, n, r);
          RoundAdded(max, gen, val, lenses, before, r);
          Recorded(old(calls), RunCalls(gen, val, lenses, before), gen, val, lenses, r, calls);
          Ends(max, gen, lenses, before, request, r);
          outcome := ValidatorRaised;
          return;
        }
        var result := reply.value.verdict;
        state := state.(ledger := state.ledger + [VerdictEntry(val, n, reply.value)]);
        if result.status == "PASS" {
          var lensIssues, ledger, reviews := RunLensReviews(content, gen, n, state.ledger);
          Regroup(state.ledger[..|state.ledger| - 1], [VerdictEntry(val, n, reply.value)], ReviewEntries(n, lenses, reviews));
          state := state.(ledger := ledger);
          ghost var r := Round(request, response, reply, reviews);
          rounds := before + [r];
          Passing(max, val, lenses, n, r);
          RoundAdded(max, gen, val, lenses, before, r);
          Recorded(old(calls), RunCalls(gen, val, lenses, before), gen, val, lenses, r, calls);
          if lensIssues == [] {
            Ends(max, gen, lenses, before, request, r);
            outcome := Returned(response.value, result);
            return;
          }
          outcome := Returned(response.value, result.(status := "FAIL",
            summary := "Lens review failures after " + NatText(n) + " iterations", issues := lensIssues));
          if iteration == max - 1 {
            Ends(max, gen, lenses, before, request, r);
            return;
          }
          GoesOn(gen, lenses, before, request, r);
          request := BuildCorrectionRequest(gen, lensIssues);
        } else {
          ghost var r := Round(request, response, reply, []);
          rounds := before + [r];
          Failing(max, val, lenses, n, r);
          RoundAdded(max, gen, val, lenses, before, r);
          Recorded(old(calls), RunCalls(gen, val, lenses, before), gen, val, lenses, r, calls);
          outcome := Returned(response.value, result);
          if iteration < max - 1 {
            GoesOn(gen, lenses, before, request, r);
            warned := warned + Notices(state.ledger, n);
            Regroup(old(warned), RunNotices(max, val, lenses, before), Notices(state.ledger, n));
            request := BuildCorrectionRequest(gen, result.issues);
          } else {
            Ends(max, gen, lenses, before, request, r);
          }
        }
        iteration := iteration + 1;
      }
    }
  }

  lemma Broken(max: int, val: AgentRequest, lenses: seq<string>, n: nat, r: Round)
    requires r.reply.None? && r.reviews == []
    ensures WellFormed(r, lenses) && !Rejected(r, lenses) && !Reviewed(r) && EntriesOf(val, lenses, n, r) == []
    ensures forall ledger :: NoticesOf(max, n, r, ledger) == []
    ensures Complete(r) <==> r.generation.Some? && !r.generation.value.truncated
    ensures EndOf(val, lenses, n, r) == if r.generation.None? then GeneratorRaised
            else if r.generation.value.truncated then TruncatedGeneration(val.artifactType, n, r.generation.value.tokensOut) else ValidatorRaised
  {
  }

  lemma Passing(max: int, val: AgentRequest, lenses: seq<string>, n: nat, r: Round)
    requires r.generation.Some? && !r.generation.value.truncated && r.reply.Some? && r.reply.value.verdict.status == "PASS"
    requires |r.reviews| == |lenses|
    ensures WellFormed(r, lenses) && Complete(r) && Judged(r) && Reviewed(r)
    ensures forall ledger :: NoticesOf(max, n, r, ledger) == []
    ensures EntriesOf(val, lenses, n, r) == [VerdictEntry(val, n, r.reply.value)] + ReviewEntries(n, lenses, r.reviews)
    ensures Rejected(r, lenses) <==> LensIssues(lenses, r.reviews) != []
    ensures Findings(r, lenses) == LensIssues(lenses, r.reviews)
    ensures EndOf(val, lenses, n, r) == Returned(r.generation.value,
              if LensIssues(lenses, r.reviews) == [] then r.reply.value.verdict else r.reply.value.verdict.(status := "FAIL",
                summary := "Lens review failures after " + NatText(n) + " iterations", issues := LensIssues(lenses, r.reviews)))
  {
    hide NatText;
  }

  lemma Failing(max: int, val: AgentRequest, lenses: seq<string>, n: nat, r: Round)
    requires r.generation.Some? && !r.generation.value.truncated && r.reply.Some? && r.reply.value.verdict.status != "PASS"
    requires r.reviews == []
    ensures WellFormed(r, lenses) && Complete(r) && Judged(r) && !Reviewed(r) && Rejected(r, lenses)
    ensures forall ledger :: NoticesOf(max, n, r, ledger) == if n < max then Notices(ledger, n) else []
    ensures EntriesOf(val, lenses, n, r) == [VerdictEntry(val, n, r.reply.value)] && Findings(r, lenses) == r.reply.value.verdict.issues
    ensures EndOf(val, lenses, n, r) == Returned(r.generation.value, r.reply.value.verdict)
  {
    hide Notices;
  }

  lemma NothingReviewed(n: nat, gen: AgentRequest, content: string, lenses: seq<string>)
    ensures LensIssues(lenses, []) == [] && ReviewEntries(n, lenses, []) == []
    ensures |ReviewCalls(gen, content, lenses)| == |lenses|
  {
  }

  lemma ReviewCalled(gen: AgentRequest, content: string, lenses: seq<string>, k: nat)
    requires k < |lenses|
    ensures var all := ReviewCalls(gen, content, lenses);
            |all| == |lenses| && all[..k + 1] == all[..k] + [Review(lenses[k], LensRequest(gen, content, lenses[k]))]
  {
    hide LensRequest;
  }

  lemma ReviewAdded(n: nat, lenses: seq<string>, reviews: seq<Option<Reply>>, reply: Option<Reply>)
    requires |reviews| < |lenses|
    ensures LensIssues(lenses, reviews + [reply]) == LensIssues(lenses, reviews) + IssuesOf(lenses[|reviews|], reply)
    ensures ReviewEntries(n, lenses, reviews + [reply])
         == ReviewEntries(n, lenses, reviews) + (if reply.Some? then [ReviewEntry(lenses[|reviews|], n, reply.value)] else [])
  {
    assert (reviews + [reply])[..|reviews|] == reviews;
  }

  lemma ConstraintIs(issue: Issue, constraint: string)
    requires var location := GetOr(issue.location, "");
             var text := "[" + GetOr(issue.gate, "") + "] " + GetOr(issue.description, "");
             constraint == if location != "" then text + " (at: " + location + ")" else text
    ensures constraint == Constraint(issue)
  {
    var text := "[" + GetOr(issue.gate, "") + "] " + GetOr(issue.description, "");
    assert text + "" == text;
    assert GetOr(issue.location, "") != "" ==>
        text + " (at: " + issue.location.value + ")" == text + (" (at: " + issue.location.value + ")");
  }

  /** Every round so far was rejected and each was asked what the last demanded; `request` is what comes next. */
  ghost predicate GoingOn(gen: AgentRequest, lenses: seq<string>, rounds: seq<Round>, request: AgentRequest) {
    && AllWellFormed(rounds, lenses) && RequestsFollow(gen, lenses, rounds) && Asks(gen, lenses, rounds, request)
    && forall k :: 0 <= k < |rounds| ==> Rejected(rounds[k], lenses)
  }

  lemma NothingYet(max: int, gen: AgentRequest, val: AgentRequest, lenses: seq<string>)
    ensures RunCalls(gen, val, lenses, []) == [] && AllWellFormed([], lenses) && RunLedger(val, lenses, []) == []
    ensures RunNotices(max, val, lenses, []) == [] && OutcomeOf(val, lenses, []) == Unbound
    ensures GoingOn(gen, lenses, [], gen) && (max <= 0 ==> IsRun(max, gen, lenses, []))
  {
  }

  lemma FollowsMore(gen: AgentRequest, lenses: seq<string>, rounds: seq<Round>, r: Round)
    requires AllWellFormed(rounds, lenses) && WellFormed(r, lenses) && RequestsFollow(gen, lenses, rounds)
    requires Asks(gen, lenses, rounds, r.request)
    ensures AllWellFormed(rounds + [r], lenses) && RequestsFollow(gen, lenses, rounds + [r])
  {
    hide Asks, WellFormed;
    var all := rounds + [r];
    forall k | 0 <= k < |all| ensures Asks(gen, lenses, all[..k], all[k].request) {
      assert all[..k] == rounds[..k];
      assert rounds[..|rounds|] == rounds;
    }
  }

  lemma RoundAdded(max: int, gen: AgentRequest, val: AgentRequest, lenses: seq<string>, rounds: seq<Round>, r: Round)
    requires AllWellFormed(rounds, lenses) && WellFormed(r, lenses)
    ensures var all := rounds + [r]; var n := |all|;
            && AllWellFormed(all, lenses) && OutcomeOf(val, lenses, all) == EndOf(val, lenses, n, r)
            && RunCalls(gen, val, lenses, all) == RunCalls(gen, val, lenses, rounds) + CallsOf(gen, val, lenses, r)
            && RunLedger(val, lenses, all) == RunLedger(val, lenses, rounds) + EntriesOf(val, lenses, n, r)
            && RunNotices(max, val, lenses, all) == RunNotices(max, val, lenses, rounds) + NoticesOf(max, n, r, RunLedger(val, lenses, all))
  {
    hide WellFormed, CallsOf, EntriesOf, NoticesOf, EndOf;
    assert (rounds + [r])[..|rounds|] == rounds;
  }

  lemma Regroup<T>(a: seq<T>, b: seq<T>, c: seq<T>)
    ensures a + b + c == a + (b + c)
  {
  }

  lemma Recorded(start: seq<Call>, past: seq<Call>, gen: AgentRequest, val: AgentRequest, lenses: seq<string>, r: Round, now: seq<Call>)
    requires var first := start + past + [Generate(r.request)];
             now == if !Complete(r) then first else
               var second := first + [Judge(JudgeRequest(val, r.generation.value.content))];
               if Reviewed(r) then second + ReviewCalls(gen, r.generation.value.content, lenses) else second
    ensures now == start + (past + CallsOf(gen, val, lenses, r))
  {
    hide ReviewCalls, JudgeRequest;
  }

  lemma GoesOn(gen: AgentRequest, lenses: seq<string>, rounds: seq<Round>, request: AgentRequest, r: Round)
    requires WellFormed(r, lenses) && GoingOn(gen, lenses, rounds, request) && r.request == request && Rejected(r, lenses)
    ensures GoingOn(gen, lenses, rounds + [r], Corrected(gen, Findings(r, lenses)))
  {
    hide WellFormed, Corrected, Findings, Judged, RequestsFollow;
    FollowsMore(gen, lenses, rounds, r);
  }

  lemma Ends(max: int, gen: AgentRequest, lenses: seq<string>, rounds: seq<Round>, request: AgentRequest, r: Round)
    requires WellFormed(r, lenses) && GoingOn(gen, lenses, rounds, request) && r.request == request && |rounds| < max
    requires Rejected(r, lenses) ==> |rounds| + 1 == max
    ensures IsRun(max, gen, lenses, rounds + [r])
  {
    hide WellFormed, Rejected, RequestsFollow, Asks;
    FollowsMore(gen, lenses, rounds, r);
  }
}
