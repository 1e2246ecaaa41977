/** What the convergence loop promises: when it stops, what each request and each judge sees, what the
    ledger holds, and what the two detectors really detect. */
module ConvergenceLaws {
  import opened Text
  import opened Convergence

  // ---- stopping ----

  /** With every generation whole and every verdict readable, the run stops at the first accepted round,
      and else after exactly `max`. */
  lemma StopsAtFirst(max: int, gen: AgentRequest, lenses: seq<string>, rounds: seq<Round>)
    requires IsRun(max, gen, lenses, rounds) && max >= 1 && forall k :: 0 <= k < |rounds| ==> Judged(rounds[k])
    ensures forall k :: 0 <= k < |rounds| - 1 ==> !Accepted(rounds[k], lenses)
    ensures |rounds| == max || Accepted(rounds[|rounds| - 1], lenses)
  {
    assert forall k :: 0 <= k < |rounds| - 1 ==> Rejected(rounds[k], lenses);
  }

  /** The result is PASS exactly when some round was accepted. */
  lemma PassIff(max: int, gen: AgentRequest, val: AgentRequest, lenses: seq<string>, rounds: seq<Round>)
    requires IsRun(max, gen, lenses, rounds)
    ensures var o := OutcomeOf(val, lenses, rounds);
            (o.Returned? && o.result.status == "PASS") <==> exists k :: 0 <= k < |rounds| && Accepted(rounds[k], lenses)
  {
    hide Asks, RequestsFollow, WellFormed, LensIssues;
    if rounds != [] {
      assert forall k :: 0 <= k < |rounds| - 1 ==> Rejected(rounds[k], lenses);
    }
  }

  /** Accepted means: the validator says PASS, and every lens that says FAIL names no issue. A lens that
      raises, or fails without an issue to show, does not block. */
  lemma AcceptedIff(r: Round, lenses: seq<string>)
    requires WellFormed(r, lenses)
    ensures Accepted(r, lenses) <==>
              Reviewed(r) && forall n :: 0 <= n < |r.reviews| ==>
                r.reviews[n].Some? && r.reviews[n].value.verdict.status == "FAIL" ==> r.reviews[n].value.verdict.issues == []
  {
    NoLensIssues(lenses, r.reviews);
  }

  predicate Clears(review: Option<Reply>) {
    review.Some? && review.value.verdict.status == "FAIL" ==> review.value.verdict.issues == []
  }

  lemma {:induction false} NoLensIssues(lenses: seq<string>, reviews: seq<Option<Reply>>)
    requires |reviews| <= |lenses|
    ensures LensIssues(lenses, reviews) == [] <==> forall n :: 0 <= n < |reviews| ==> Clears(reviews[n])
  {
    if reviews != [] {
      hide IssuesOf, Clears;
      var k := |reviews| - 1;
      NoLensIssues(lenses, reviews[..k]);
      NoIssues(lenses[k], reviews[k]);
      assert forall n :: 0 <= n < k ==> reviews[..k][n] == reviews[n];
    }
  }

  lemma NoIssues(lens: string, review: Option<Reply>)
    ensures IssuesOf(lens, review) == [] <==> Clears(review)
  {
  }

  /** How a run ends, from its last round: a generation that raised or was cut off, a verdict that could not be read, or
      the generation with its verdict, which is FAIL with the lens issues where a PASS did not survive the lenses. */
  lemma EndsAs(val: AgentRequest, lenses: seq<string>, rounds: seq<Round>)
    requires AllWellFormed(rounds, lenses) && rounds != []
    ensures var r, o := rounds[|rounds| - 1], OutcomeOf(val, lenses, rounds);
            if r.generation.None? then o == GeneratorRaised
            else if r.generation.value.truncated then o == TruncatedGeneration(val.artifactType, |rounds|, r.generation.value.tokensOut)
            else if r.reply.None? then o == ValidatorRaised
            else
              var v := r.reply.value.verdict;
              && o.Returned? && o.response == r.generation.value && o.result.hardGates == v.hardGates
              && o.result.warnings == v.warnings && o.result.score == v.score
              && (if v.status == "PASS" && LensIssues(lenses, r.reviews) != [] then
                    && o.result.status == "FAIL" && o.result.issues == LensIssues(lenses, r.reviews)
                    && o.result.summary == "Lens review failures after " + NatText(|rounds|) + " iterations"
                  else o.result == v)
  {
    hide LensIssues, NatText;
  }

  /** The warnings: staleness or oscillation, as the detectors see the ledger after round `n`, when its verdict is not PASS
      and a further round is allowed. */
  lemma {:induction false} WarnedIff(max: int, val: AgentRequest, lenses: seq<string>, rounds: seq<Round>, n: nat)
    requires AllWellFormed(rounds, lenses)
    ensures Stale(n) in RunNotices(max, val, lenses, rounds) <==>
              1 <= n <= |rounds| && WarnsAt(max, rounds, n) && DetectStaleness(RunLedger(val, lenses, rounds[..n]))
    ensures Oscillating(n) in RunNotices(max, val, lenses, rounds) <==>
              1 <= n <= |rounds| && WarnsAt(max, rounds, n) && DetectOscillation(RunLedger(val, lenses, rounds[..n]))
  {
    hide DetectStaleness, DetectOscillation, RunLedger, WellFormed, NoticesOf, WarnsAt;
    if rounds != [] {
      var m := |rounds|;
      WarnedIff(max, val, lenses, rounds[..m - 1], n);
      NoticesAre(max, rounds, RunLedger(val, lenses, rounds), n);
      assert rounds[..m] == rounds;
      if 1 <= n < m {
        assert rounds[..m - 1][..n] == rounds[..n];
        WarnsSame(max, rounds, n);
      }
    }
  }

  lemma NoticesAre(max: int, rounds: seq<Round>, ledger: seq<LedgerEntry>, n: nat)
    requires rounds != []
    ensures var m := |rounds|; var notices := NoticesOf(max, m, rounds[m - 1], ledger);
            && (Stale(n) in notices <==> n == m && WarnsAt(max, rounds, m) && DetectStaleness(ledger))
            && (Oscillating(n) in notices <==> n == m && WarnsAt(max, rounds, m) && DetectOscillation(ledger))
  {
    hide DetectStaleness, DetectOscillation;
  }

  lemma WarnsSame(max: int, rounds: seq<Round>, n: nat)
    requires 1 <= n < |rounds|
    ensures WarnsAt(max, rounds[..|rounds| - 1], n) == WarnsAt(max, rounds, n)
  {
  }

  predicate WarnsAt(max: int, rounds: seq<Round>, n: nat)
    requires 1 <= n <= |rounds|
  {
    var r := rounds[n - 1];
    && r.generation.Some? && !r.generation.value.truncated && r.reply.Some? && r.reply.value.verdict.status != "PASS" && n < max
  }

  // ---- requests ----

  /** The line names the gate and the description, and the place if there is one. */
  predicate SaysIssue(line: string, issue: Issue) {
    line == "[" + (if issue.gate.Some? then issue.gate.value else "") + "] " + (if issue.description.Some? then issue.description.value else "")
            + (if issue.location.Some? && issue.location.value != "" then " (at: " + issue.location.value + ")" else "")
  }

  /** Issue `j` of a failing lens, under the lens's name. */
  predicate FromLens(lens: string, review: Option<Reply>, e: Issue, j: int) {
    && review.Some? && review.value.verdict.status == "FAIL" && 0 <= j < |review.value.verdict.issues|
    && var i := review.value.verdict.issues[j];
       && e.gate == Some("lens:" + lens + ":" + (if i.gate.Some? then i.gate.value else "unknown"))
       && e.description == Some(if i.description.Some? then i.description.value else "")
       && e.location == Some(if i.location.Some? then i.location.value else "")
  }

  lemma IssueOfLens(lens: string, review: Option<Reply>, e: Issue)
    ensures e in IssuesOf(lens, review) <==> exists j :: FromLens(lens, review, e, j)
  {
    if j :| FromLens(lens, review, e, j) {
      assert IssuesOf(lens, review)[j] == e;
    }
    if e in IssuesOf(lens, review) {
      var j :| 0 <= j < |IssuesOf(lens, review)| && IssuesOf(lens, review)[j] == e;
      assert FromLens(lens, review, e, j);
    }
  }

  /** The findings of the lenses are the issues of those that fail, each under the name of its lens. */
  lemma {:induction false} LensIssueIff(lenses: seq<string>, reviews: seq<Option<Reply>>, e: Issue)
    requires |reviews| <= |lenses|
    ensures e in LensIssues(lenses, reviews) <==> exists l, j :: 0 <= l < |reviews| && FromLens(lenses[l], reviews[l], e, j)
  {
    if reviews != [] {
      hide FromLens, IssuesOf;
      var k := |reviews| - 1;
      LensIssueIff(lenses, reviews[..k], e);
      IssueOfLens(lenses[k], reviews[k], e);
      assert forall l :: 0 <= l < k ==> reviews[..k][l] == reviews[l];
    }
  }

  lemma JudgedReplied(r: Round)
    requires Judged(r)
    ensures r.reply.Some?
  {
  }

  lemma FindingsAre(r: Round, lenses: seq<string>)
    requires WellFormed(r, lenses) && Judged(r)
    ensures Findings(r, lenses) == if r.reply.value.verdict.status == "PASS" then LensIssues(lenses, r.reviews) else r.reply.value.verdict.issues
  {
    hide LensIssues;
  }

  /** Every regeneration carries the original's constraints and then those of the round before, one for
      one: nothing accumulates. The original's temperature is the one other thing it does not keep. */
  lemma NoAccumulation(max: int, gen: AgentRequest, lenses: seq<string>, rounds: seq<Round>, k: nat)
    requires IsRun(max, gen, lenses, rounds) && 1 <= k < |rounds|
    ensures Judged(rounds[k - 1]) && rounds[k - 1].reply.Some?
    ensures var found := Findings(rounds[k - 1], lenses); var asked := rounds[k].request;
            && found == (if rounds[k - 1].reply.value.verdict.status == "PASS" then LensIssues(lenses, rounds[k - 1].reviews)
                         else rounds[k - 1].reply.value.verdict.issues)
            && |asked.constraints| == |gen.constraints| + |found|
            && (forall n :: 0 <= n < |gen.constraints| ==> asked.constraints[n] == gen.constraints[n])
            && (forall n :: 0 <= n < |found| ==> SaysIssue(asked.constraints[|gen.constraints| + n], found[n]))
            && asked.temperature == None && asked.(constraints := gen.constraints, temperature := gen.temperature) == gen
  {
    hide Corrected, WellFormed, Findings, Judged, Rejected;
    AskedAfter(gen, lenses, rounds, k);
    JudgedReplied(rounds[k - 1]);
    FindingsAre(rounds[k - 1], lenses);
    CorrectedIs(gen, Findings(rounds[k - 1], lenses));
  }

  lemma AskedAfter(gen: AgentRequest, lenses: seq<string>, rounds: seq<Round>, k: nat)
    requires AllWellFormed(rounds, lenses) && RequestsFollow(gen, lenses, rounds) && 1 <= k < |rounds|
    ensures Judged(rounds[k - 1]) && rounds[k].request == Corrected(gen, Findings(rounds[k - 1], lenses))
  {
    hide Corrected, WellFormed, Findings, Judged;
    var past := rounds[..k];
    assert Asks(gen, lenses, past, rounds[k].request);
    assert past[|past| - 1] == rounds[k - 1];
  }

  lemma CorrectedIs(gen: AgentRequest, found: seq<Issue>)
    ensures var asked := Corrected(gen, found);
            && |asked.constraints| == |gen.constraints| + |found|
            && (forall n :: 0 <= n < |gen.constraints| ==> asked.constraints[n] == gen.constraints[n])
            && (forall n :: 0 <= n < |found| ==> asked.constraints[|gen.constraints| + n] == Constraint(found[n]))
            && asked.temperature == None && asked.(constraints := gen.constraints, temperature := gen.temperature) == gen
  {
    hide Constraint;
  }

  predicate SameAnswers(a: Round, b: Round) { a.generation == b.generation && a.reply == b.reply && a.reviews == b.reviews }

  /** The answers of the adapters determine the whole run: its requests and its length. */
  lemma Determined(max: int, gen: AgentRequest, lenses: seq<string>, a: seq<Round>, b: seq<Round>)
    requires IsRun(max, gen, lenses, a) && IsRun(max, gen, lenses, b)
    requires forall k :: 0 <= k < |a| && k < |b| ==> SameAnswers(a[k], b[k])
    ensures a == b
  {
    hide WellFormed, Corrected, Judged, LensIssues, Rejected;
    var m := if |a| < |b| then |a| else |b|;
    SameRounds(gen, lenses, a, b, m);
    assert forall k :: 0 <= k < m ==> a[k] == a[..m][k] == b[..m][k] == b[k];
  }

  lemma {:induction false} SameRounds(gen: AgentRequest, lenses: seq<string>, a: seq<Round>, b: seq<Round>, n: nat)
    requires AllWellFormed(a, lenses) && AllWellFormed(b, lenses) && RequestsFollow(gen, lenses, a) && RequestsFollow(gen, lenses, b)
    requires forall k :: 0 <= k < |a| && k < |b| ==> SameAnswers(a[k], b[k])
    requires n <= |a| && n <= |b|
    ensures a[..n] == b[..n]
  {
    hide WellFormed, Asks, SameAnswers, Findings, Judged, Reviewed;
    if n > 0 {
      SameRounds(gen, lenses, a, b, n - 1);
      var past := a[..n - 1];
      assert Asks(gen, lenses, past, a[n - 1].request) && Asks(gen, lenses, past, b[n - 1].request);
      SameNext(gen, lenses, past, a[n - 1], b[n - 1]);
      assert a[..n] == past + [a[n - 1]] && b[..n] == past + [b[n - 1]];
    }
  }

  lemma SameNext(gen: AgentRequest, lenses: seq<string>, past: seq<Round>, a: Round, b: Round)
    requires AllWellFormed(past, lenses) && Asks(gen, lenses, past, a.request) && Asks(gen, lenses, past, b.request) && SameAnswers(a, b)
    ensures a == b
  {
    hide WellFormed, Corrected, Judged, Findings;
  }

  // ---- calls ----

  /** A request with another's fields, but for the artifact under judgement, at temperature zero. */
  predicate SameTask(request: AgentRequest, val: AgentRequest) {
    && request.artifactType == val.artifactType && request.event == val.event && request.spec == val.spec && request.template == val.template
    && request.prompt == val.prompt && request.upstream == val.upstream && request.constraints == val.constraints
    && request.metadata == val.metadata && request.declaredInputs == val.declaredInputs && request.temperature == Some(0.0)
  }

  /** A question from one lens: the generator's artifact and inputs, no constraint, the lens named, at temperature zero. */
  predicate LensTask(request: AgentRequest, gen: AgentRequest, lens: string) {
    && request.artifactType == gen.artifactType && request.event == "post_validation" && request.spec == gen.spec && request.template == ""
    && request.prompt == "Review this artifact from a " + lens + " perspective." && request.upstream == gen.upstream
    && request.constraints == [] && request.metadata == gen.metadata["lens" := lens] && request.declaredInputs == gen.declaredInputs
    && request.temperature == Some(0.0)
  }

  /** Every judge is asked about a generation that was whole, and shown it; the validator with the validation request,
      a lens, once the verdict on it was PASS, with nothing of what another judge said. */
  predicate Fair(gen: AgentRequest, val: AgentRequest, lenses: seq<string>, rounds: seq<Round>, c: Call) {
    match c
    case Generate(request) => exists k :: 0 <= k < |rounds| && rounds[k].request == request
    case Judge(request) =>
      && SameTask(request, val)
      && exists k :: 0 <= k < |rounds| && rounds[k].generation.Some? && !rounds[k].generation.value.truncated
                     && request.currentArtifact == Some(rounds[k].generation.value.content)
    case Review(lens, request) =>
      && LensTask(request, gen, lens) && lens in lenses
      && exists k :: 0 <= k < |rounds| && rounds[k].generation.Some? && !rounds[k].generation.value.truncated
                     && rounds[k].reply.Some? && rounds[k].reply.value.verdict.status == "PASS"
                     && request.currentArtifact == Some(rounds[k].generation.value.content)
  }

  function CountOf(rounds: seq<Round>, p: Round -> bool): nat {
    if rounds == [] then 0 else CountOf(rounds[..|rounds| - 1], p) + (if p(rounds[|rounds| - 1]) then 1 else 0)
  }

  lemma FairStays(gen: AgentRequest, val: AgentRequest, lenses: seq<string>, rounds: seq<Round>, r: Round, c: Call)
    requires Fair(gen, val, lenses, rounds, c)
    ensures Fair(gen, val, lenses, rounds + [r], c)
  {
    hide SameTask, LensTask;
    var all := rounds + [r];
    assert forall k :: 0 <= k < |rounds| ==> all[k] == rounds[k];
  }

  lemma FairRound(gen: AgentRequest, val: AgentRequest, lenses: seq<string>, rounds: seq<Round>, r: Round, c: Call)
    requires c in CallsOf(gen, val, lenses, r)
    ensures Fair(gen, val, lenses, rounds + [r], c)
  {
    hide SameTask, LensTask, JudgeRequest, LensRequest;
    var all := rounds + [r];
    assert all[|rounds|] == r;
    if c.Judge? {
      JudgeTaskIs(val, r.generation.value.content);
    } else if c.Review? {
      ReviewTaskIs(gen, lenses, r.generation.value.content, c.lens);
    }
  }

  lemma JudgeTaskIs(val: AgentRequest, content: string)
    ensures SameTask(JudgeRequest(val, content), val) && JudgeRequest(val, content).currentArtifact == Some(content)
  {
  }

  lemma ReviewTaskIs(gen: AgentRequest, lenses: seq<string>, content: string, lens: string)
    ensures LensTask(LensRequest(gen, content, lens), gen, lens) && LensRequest(gen, content, lens).currentArtifact == Some(content)
  {
  }

  /** All calls of a run are fair, and they are one generation a round, one verdict a whole generation and
      one question to each lens a passed verdict. */
  lemma {:induction false} CallsAreFair(gen: AgentRequest, val: AgentRequest, lenses: seq<string>, rounds: seq<Round>)
    ensures forall c :: c in RunCalls(gen, val, lenses, rounds) ==> Fair(gen, val, lenses, rounds, c)
    ensures |RunCalls(gen, val, lenses, rounds)| == |rounds| + CountOf(rounds, Complete) + CountOf(rounds, Reviewed) * |lenses|
  {
    if rounds != [] {
      hide Fair, Reviewed, Complete;
      var past, r := rounds[..|rounds| - 1], rounds[|rounds| - 1];
      CallsAreFair(gen, val, lenses, past);
      assert past + [r] == rounds;
      forall c | c in RunCalls(gen, val, lenses, rounds) ensures Fair(gen, val, lenses, rounds, c) {
        if c in RunCalls(gen, val, lenses, past) {
          FairStays(gen, val, lenses, past, r, c);
        } else {
          FairRound(gen, val, lenses, past, r, c);
        }
      }
      CallsOfRound(gen, val, lenses, r);
      Spread(CountOf(past, Reviewed), |lenses|);
    }
  }

  /** What the validator is asked, in order. */
  function Questions(calls: seq<Call>): seq<AgentRequest> {
    if calls == [] then [] else
      var c := calls[|calls| - 1];
      Questions(calls[..|calls| - 1]) + (if c.Judge? then [c.request] else [])
  }

  /** The artifacts that came whole, in order. */
  function Wholes(rounds: seq<Round>): seq<string> {
    if rounds == [] then [] else
      var r := rounds[|rounds| - 1];
      Wholes(rounds[..|rounds| - 1])
      + (if r.generation.Some? && !r.generation.value.truncated then [r.generation.value.content] else [])
  }

  lemma {:induction false} QuestionsAppend(a: seq<Call>, b: seq<Call>)
    ensures Questions(a + b) == Questions(a) + Questions(b)
    decreases |b|
  {
    if b == [] {
      assert a + b == a;
    } else {
      assert (a + b)[..|a + b| - 1] == a + b[..|b| - 1];
      QuestionsAppend(a, b[..|b| - 1]);
    }
  }

  lemma {:induction false} NoQuestions(calls: seq<Call>)
    requires forall c :: c in calls ==> !c.Judge?
    ensures Questions(calls) == []
  {
    if calls != [] { NoQuestions(calls[..|calls| - 1]); }
  }

  lemma QuestionOfRound(gen: AgentRequest, val: AgentRequest, lenses: seq<string>, r: Round)
    ensures Questions(CallsOf(gen, val, lenses, r)) == if Complete(r) then [JudgeRequest(val, r.generation.value.content)] else []
  {
    hide Questions, JudgeRequest, LensRequest;
    var first: seq<Call> := [Generate(r.request)];
    var middle: seq<Call> := if Complete(r) then [Judge(JudgeRequest(val, r.generation.value.content))] else [];
    var last: seq<Call> := if Reviewed(r) then ReviewCalls(gen, r.generation.value.content, lenses) else [];
    QuestionsAppend(first + middle, last);
    QuestionsAppend(first, middle);
    NoQuestions(first);
    NoQuestions(last);
    if Complete(r) { OneQuestion(JudgeRequest(val, r.generation.value.content)); } else { NoQuestions(middle); }
  }

  lemma OneQuestion(request: AgentRequest)
    ensures Questions([Judge(request)]) == [request]
  {
    assert [Judge(request)][..0] == [];
  }

  /** The validator is asked about the artifacts that came whole, each once, in order: the n-th question is about the n-th. */
  lemma {:induction false} QuestionsAreAboutWholes(gen: AgentRequest, val: AgentRequest, lenses: seq<string>, rounds: seq<Round>)
    ensures var questions, wholes := Questions(RunCalls(gen, val, lenses, rounds)), Wholes(rounds);
            && |questions| == |wholes|
            && forall n :: 0 <= n < |questions| ==> SameTask(questions[n], val) && questions[n].currentArtifact == Some(wholes[n])
  {
    hide CallsOf;
    if rounds != [] {
      var past, r := rounds[..|rounds| - 1], rounds[|rounds| - 1];
      QuestionsAreAboutWholes(gen, val, lenses, past);
      QuestionsAppend(RunCalls(gen, val, lenses, past), CallsOf(gen, val, lenses, r));
      QuestionOfRound(gen, val, lenses, r);
    }
  }

  /** Every lens is asked about every artifact whose verdict was PASS. */
  lemma {:induction false} EveryLensAsked(gen: AgentRequest, val: AgentRequest, lenses: seq<string>, rounds: seq<Round>, k: nat, l: nat)
    requires k < |rounds| && l < |lenses| && rounds[k].generation.Some? && !rounds[k].generation.value.truncated
    requires rounds[k].reply.Some? && rounds[k].reply.value.verdict.status == "PASS"
    ensures exists request :: Review(lenses[l], request) in RunCalls(gen, val, lenses, rounds)
              && LensTask(request, gen, lenses[l]) && request.currentArtifact == Some(rounds[k].generation.value.content)
  {
    var past, r := rounds[..|rounds| - 1], rounds[|rounds| - 1];
    if k < |past| {
      EveryLensAsked(gen, val, lenses, past, k, l);
    } else {
      var content := r.generation.value.content;
      assert ReviewCalls(gen, content, lenses)[l] == Review(lenses[l], LensRequest(gen, content, lenses[l]));
    }
  }

  lemma CallsOfRound(gen: AgentRequest, val: AgentRequest, lenses: seq<string>, r: Round)
    ensures |CallsOf(gen, val, lenses, r)| == 1 + (if Complete(r) then 1 else 0) + (if Reviewed(r) then |lenses| else 0)
  {
  }

  lemma Spread(n: nat, m: nat)
    ensures (n + 1) * m == n * m + m
  {
  }

  // ---- the ledger ----

  function Verdicts(ledger: seq<LedgerEntry>): seq<LedgerEntry> {
    if ledger == [] then [] else
      Verdicts(ledger[..|ledger| - 1]) + (if ledger[|ledger| - 1].lens.None? then [ledger[|ledger| - 1]] else [])
  }

  lemma {:induction false} VerdictsAppend(a: seq<LedgerEntry>, b: seq<LedgerEntry>)
    ensures Verdicts(a + b) == Verdicts(a) + Verdicts(b)
    decreases |b|
  {
    if b == [] {
      assert a + b == a;
    } else {
      assert (a + b)[..|a + b| - 1] == a + b[..|b| - 1];
      VerdictsAppend(a, b[..|b| - 1]);
    }
  }

  /** The entry holds the answer of lens `l`: its status and issues, without gates or score, and where they came from. */
  predicate LensSaid(lenses: seq<string>, reviews: seq<Option<Reply>>, e: LedgerEntry, l: int) {
    && 0 <= l < |reviews| && l < |lenses| && reviews[l].Some? && e.lens == Some(lenses[l])
    && var r := reviews[l].value;
       && e.status == r.verdict.status && e.issues == r.verdict.issues && e.hardGates == map[] && e.score == None
       && e.hashedPrompt == "Review this artifact from a " + lenses[l] + " perspective."
       && e.provider == r.provider && e.model == r.model && e.temperature == Some(0.0)
  }

  ghost predicate LensAnswered(lenses: seq<string>, reviews: seq<Option<Reply>>, e: LedgerEntry) {
    exists l :: LensSaid(lenses, reviews, e, l)
  }

  lemma {:induction false} ReviewsAreNotVerdicts(n: nat, lenses: seq<string>, reviews: seq<Option<Reply>>)
    requires |reviews| <= |lenses|
    ensures Verdicts(ReviewEntries(n, lenses, reviews)) == []
    ensures forall e :: e in ReviewEntries(n, lenses, reviews) ==> e.iteration == n && e.lens.Some? && LensAnswered(lenses, reviews, e)
  {
    if reviews != [] {
      var k := |reviews| - 1;
      ReviewsAreNotVerdicts(n, lenses, reviews[..k]);
      forall e | LensAnswered(lenses, reviews[..k], e) ensures LensAnswered(lenses, reviews, e) {
        var l :| LensSaid(lenses, reviews[..k], e, l);
        assert LensSaid(lenses, reviews, e, l);
      }
      if reviews[k].Some? { assert LensSaid(lenses, reviews, ReviewEntry(lenses[k], n, reviews[k].value), k); }
      var past, all := ReviewEntries(n, lenses, reviews[..k]), ReviewEntries(n, lenses, reviews);
      if reviews[k].Some? {
        assert all[..|all| - 1] == past;
      } else {
        assert all == past;
      }
    }
  }

  lemma OneVerdict(val: AgentRequest, lenses: seq<string>, n: nat, r: Round)
    requires WellFormed(r, lenses)
    ensures Verdicts(EntriesOf(val, lenses, n, r)) == if Judged(r) then [VerdictEntry(val, n, r.reply.value)] else []
  {
    hide VerdictEntry, ReviewEntries;
    if Judged(r) {
      var first, reviews := [VerdictEntry(val, n, r.reply.value)], ReviewEntries(n, lenses, r.reviews);
      VerdictIsVerdict(val, n, r.reply.value);
      VerdictsAppend(first, reviews);
      ReviewsAreNotVerdicts(n, lenses, r.reviews);
    }
  }

  lemma VerdictIsVerdict(val: AgentRequest, n: nat, reply: Reply)
    ensures var e := VerdictEntry(val, n, reply); Verdicts([e]) == [e]
  {
    assert [VerdictEntry(val, n, reply)][..0] == [];
  }

  /** Rounds whose verdicts could all be read, except perhaps the last. */
  predicate JudgedThrough(rounds: seq<Round>) { forall k :: 0 <= k < |rounds| - 1 ==> Judged(rounds[k]) }

  function VerdictEntries(val: AgentRequest, rounds: seq<Round>): seq<LedgerEntry> {
    if rounds == [] then [] else
      var n, r := |rounds|, rounds[|rounds| - 1];
      VerdictEntries(val, rounds[..n - 1]) + (if Judged(r) then [VerdictEntry(val, n, r.reply.value)] else [])
  }

  /** The validator's entries in the ledger are exactly the readable verdicts. */
  lemma {:induction false} VerdictsOfLedger(val: AgentRequest, lenses: seq<string>, rounds: seq<Round>)
    requires AllWellFormed(rounds, lenses)
    ensures Verdicts(RunLedger(val, lenses, rounds)) == VerdictEntries(val, rounds)
  {
    if rounds != [] {
      hide WellFormed, EntriesOf, Verdicts, VerdictEntry, Judged;
      var n := |rounds|;
      VerdictsOfLedger(val, lenses, rounds[..n - 1]);
      VerdictsAppend(RunLedger(val, lenses, rounds[..n - 1]), EntriesOf(val, lenses, n, rounds[n - 1]));
      OneVerdict(val, lenses, n, rounds[n - 1]);
    }
  }

  /** They are numbered from one, once each, as far as the verdicts could be read. */
  lemma VerdictsAreNumbered(val: AgentRequest, lenses: seq<string>, rounds: seq<Round>)
    requires AllWellFormed(rounds, lenses) && JudgedThrough(rounds)
    ensures var entries := Verdicts(RunLedger(val, lenses, rounds));
            && |entries| == (if rounds == [] || Judged(rounds[|rounds| - 1]) then |rounds| else |rounds| - 1)
            && forall k :: 0 <= k < |entries| ==> entries[k].iteration == k + 1 && Holds(val, rounds, k, entries[k])
  {
    hide RunLedger, Verdicts, WellFormed, JudgedThrough, VerdictEntries, Holds, Judged;
    VerdictsOfLedger(val, lenses, rounds);
    EntriesAreNumbered(val, rounds);
  }

  lemma {:induction false} EntriesAreNumbered(val: AgentRequest, rounds: seq<Round>)
    requires JudgedThrough(rounds)
    ensures var entries := VerdictEntries(val, rounds);
            && |entries| == (if rounds == [] || Judged(rounds[|rounds| - 1]) then |rounds| else |rounds| - 1)
            && forall k :: 0 <= k < |entries| ==> entries[k].iteration == k + 1 && Holds(val, rounds, k, entries[k])
  {
    if rounds != [] {
      hide Holds, Judged, VerdictEntry;
      var n := |rounds|;
      var past := rounds[..n - 1];
      assert forall k :: 0 <= k < |past| ==> past[k] == rounds[k];
      EntriesAreNumbered(val, past);
      forall k | 0 <= k < |VerdictEntries(val, past)| ensures Holds(val, rounds, k, VerdictEntries(val, past)[k]) {
        HoldsLater(val, past, rounds[n - 1], k, VerdictEntries(val, past)[k]);
        assert past + [rounds[n - 1]] == rounds;
      }
      if Judged(rounds[n - 1]) { HoldsLast(val, rounds); }
    }
  }

  lemma HoldsLater(val: AgentRequest, past: seq<Round>, r: Round, k: nat, e: LedgerEntry)
    requires Holds(val, past, k, e)
    ensures Holds(val, past + [r], k, e)
  {
  }

  lemma HoldsLast(val: AgentRequest, rounds: seq<Round>)
    requires rounds != [] && Judged(rounds[|rounds| - 1])
    ensures var n := |rounds|; var e := VerdictEntry(val, n, rounds[n - 1].reply.value);
            e.iteration == n && Holds(val, rounds, n - 1, e)
  {
  }

  predicate Holds(val: AgentRequest, rounds: seq<Round>, k: nat, e: LedgerEntry) {
    k < |rounds| && Judged(rounds[k]) &&
    var v := rounds[k].reply.value.verdict;
    && e.status == v.status && e.hardGates == v.hardGates && e.issues == v.issues && e.score == Some(v.score)
    && e.hashedPrompt == val.prompt && e.provider == rounds[k].reply.value.provider && e.model == rounds[k].reply.value.model
    && e.temperature == Some(0.0) && e.lens == None
  }

  /** A lens has an entry only for an iteration whose verdict was PASS, and it holds what the lens answered. */
  lemma {:induction false} ReviewsFollowAPass(val: AgentRequest, lenses: seq<string>, rounds: seq<Round>)
    requires AllWellFormed(rounds, lenses)
    ensures forall e :: e in RunLedger(val, lenses, rounds) ==>
              && 1 <= e.iteration <= |rounds| && Judged(rounds[e.iteration - 1])
              && (e.lens.Some? ==> Reviewed(rounds[e.iteration - 1]) && LensAnswered(lenses, rounds[e.iteration - 1].reviews, e))
  {
    if rounds != [] {
      hide EntriesOf, LensAnswered, Judged, Reviewed, WellFormed;
      var n := |rounds|;
      ReviewsFollowAPass(val, lenses, rounds[..n - 1]);
      EntriesFollow(val, lenses, n, rounds[n - 1]);
    }
  }

  lemma EntriesFollow(val: AgentRequest, lenses: seq<string>, n: nat, r: Round)
    requires WellFormed(r, lenses)
    ensures forall e :: e in EntriesOf(val, lenses, n, r) ==>
              && e.iteration == n && Judged(r) && (e.lens.Some? ==> Reviewed(r) && LensAnswered(lenses, r.reviews, e))
  {
    hide LensAnswered, ReviewEntries, LensIssues;
    ReviewsAreNotVerdicts(n, lenses, r.reviews);
    if !Reviewed(r) { NoReviewsAnswered(n, lenses); }
  }

  // ---- the detectors ----

  /** `i` is the last issue about a gate. */
  predicate LastAbout(issues: seq<Issue>, g: string, i: int) {
    0 <= i < |issues| && issues[i].gate == Some(g) && forall j :: i < j < |issues| ==> issues[j].gate != Some(g)
  }

  lemma {:induction false} DescriptionOf(issues: seq<Issue>, g: string)
    ensures Some(g) in Descriptions(issues) <==> exists i :: LastAbout(issues, g, i)
    ensures forall i :: LastAbout(issues, g, i) ==> Some(g) in Descriptions(issues) && Descriptions(issues)[Some(g)] == issues[i].description
  {
    if issues != [] {
      var n := |issues| - 1;
      var front := issues[..n];
      DescriptionOf(front, g);
      if issues[n].gate == Some(g) {
        assert LastAbout(issues, g, n);
      } else {
        assert forall i {:trigger LastAbout(issues, g, i)} :: LastAbout(issues, g, i) ==> LastAbout(front, g, i);
        assert forall i {:trigger LastAbout(front, g, i)} :: LastAbout(front, g, i) ==> LastAbout(issues, g, i);
      }
    }
  }

  /** Two verdicts fail a gate and say the same about it, each in its last word on it. */
  ghost predicate SameFailure(a: ValidationResult, b: ValidationResult) {
    exists g :: g in a.hardGates && a.hardGates[g] == "FAIL" && g in b.hardGates && b.hardGates[g] == "FAIL" && SameWord(a.issues, b.issues, g)
  }

  ghost predicate SameWord(a: seq<Issue>, b: seq<Issue>, g: string) {
    exists i, j :: LastAbout(a, g, i) && LastAbout(b, g, j) && a[i].description == b[j].description
  }

  lemma SameDescriptionIs(a: seq<Issue>, b: seq<Issue>, g: string)
    ensures SameDescription(a, b, g) <==> SameWord(a, b, g)
  {
    hide Descriptions;
    DescriptionOf(a, g);
    DescriptionOf(b, g);
  }

  lemma SameFailureIs(a: LedgerEntry, b: LedgerEntry, v: ValidationResult, w: ValidationResult)
    requires a.hardGates == v.hardGates && a.issues == v.issues && b.hardGates == w.hardGates && b.issues == w.issues
    ensures (exists g :: g in FailedGates(a) * FailedGates(b) && SameDescription(a.issues, b.issues, g)) <==> SameFailure(v, w)
  {
    hide SameDescription, SameWord;
    forall g ensures SameDescription(a.issues, b.issues, g) <==> SameWord(a.issues, b.issues, g) {
      SameDescriptionIs(a.issues, b.issues, g);
    }
  }

  /** How many lenses answered readably. */
  function Answered(reviews: seq<Option<Reply>>): nat {
    if reviews == [] then 0 else Answered(reviews[..|reviews| - 1]) + (if reviews[|reviews| - 1].Some? then 1 else 0)
  }

  lemma {:induction false} AnsweredEntries(n: nat, lenses: seq<string>, reviews: seq<Option<Reply>>)
    requires |reviews| <= |lenses|
    ensures |ReviewEntries(n, lenses, reviews)| == Answered(reviews)
    ensures forall e :: e in ReviewEntries(n, lenses, reviews) ==> FailedGates(e) == {}
  {
    if reviews != [] {
      var k := |reviews| - 1;
      AnsweredEntries(n, lenses, reviews[..k]);
      if reviews[k].Some? {
        assert FailedGates(ReviewEntry(lenses[k], n, reviews[k].value)) == {};
      }
    }
  }

  function Failed(r: Round): set<string>
    requires Judged(r)
  {
    var gates := r.reply.value.verdict.hardGates; set g | g in gates && gates[g] == "FAIL"
  }

  /** Where the loop consults the detectors: after a readable verdict that is not PASS. */
  predicate Consulted(lenses: seq<string>, rounds: seq<Round>) {
    && AllWellFormed(rounds, lenses) && JudgedThrough(rounds)
    && rounds != [] && Judged(rounds[|rounds| - 1]) && !Reviewed(rounds[|rounds| - 1])
  }

  /** What a judged round adds to the ledger. */
  lemma LedgerEnds(val: AgentRequest, lenses: seq<string>, rounds: seq<Round>, n: nat)
    requires AllWellFormed(rounds, lenses) && 1 <= n <= |rounds| && Judged(rounds[n - 1])
    ensures var r := rounds[n - 1]; var v, reviews := VerdictEntry(val, n, r.reply.value), ReviewEntries(n, lenses, r.reviews);
            && RunLedger(val, lenses, rounds[..n]) == RunLedger(val, lenses, rounds[..n - 1]) + [v] + reviews
            && |reviews| == Answered(r.reviews) && (forall e :: e in reviews ==> FailedGates(e) == {})
            && FailedGates(v) == Failed(r) && v.issues == r.reply.value.verdict.issues && v.hardGates == r.reply.value.verdict.hardGates
  {
    hide ReviewEntries, LensIssues;
    assert rounds[..n][..n - 1] == rounds[..n - 1];
    AnsweredEntries(n, lenses, rounds[n - 1].reviews);
    Regroup(RunLedger(val, lenses, rounds[..n - 1]), [VerdictEntry(val, n, rounds[n - 1].reply.value)], ReviewEntries(n, lenses, rounds[n - 1].reviews));
  }

  /** Staleness is a repeated failure of two rounds in a row, but only when no lens answered in the earlier:
      a lens entry in between blinds the detector. */
  lemma StaleIff(val: AgentRequest, lenses: seq<string>, rounds: seq<Round>)
    requires Consulted(lenses, rounds)
    ensures var n := |rounds|;
            DetectStaleness(RunLedger(val, lenses, rounds)) <==>
              (n >= 2 && Answered(rounds[n - 2].reviews) == 0
               && SameFailure(rounds[n - 2].reply.value.verdict, rounds[n - 1].reply.value.verdict))
  {
    hide SameFailure, SameDescription, Reviewed, Answered, ReviewEntries, RunLedger, VerdictEntry, FailedGates;
    var n, ledger := |rounds|, RunLedger(val, lenses, rounds);
    LedgerEnds(val, lenses, rounds, n);
    NoReviewsAnswered(n, lenses);
    assert rounds[..n] == rounds;
    Nothing(val, lenses);
    if n >= 2 {
      LedgerEnds(val, lenses, rounds, n - 1);
      var prev, curr := ledger[|ledger| - 2], ledger[|ledger| - 1];
      if Answered(rounds[n - 2].reviews) == 0 {
        SameFailureIs(prev, curr, rounds[n - 2].reply.value.verdict, rounds[n - 1].reply.value.verdict);
      } else {
        assert prev in ReviewEntries(n - 1, lenses, rounds[n - 2].reviews);
      }
    }
  }

  lemma NoReviewsAnswered(n: nat, lenses: seq<string>)
    ensures Answered([]) == 0 && ReviewEntries(n, lenses, []) == []
  {
  }

  lemma Nothing(val: AgentRequest, lenses: seq<string>)
    ensures RunLedger(val, lenses, []) == []
  {
  }

  lemma SwingsIff(a: set<string>, b: set<string>, c: set<string>)
    ensures Swings(a, b, c) <==> a * c - b != {}
  {
    if g :| g in a && g !in b && g in c {
      assert g in a * c - b;
    } else {
      assert forall g :: g in a * c - b ==> g in a && g !in b && g in c;
      assert a * c - b == {};
    }
  }

  /** Oscillation is a gate failing, passing and failing again in three rounds when no lens answered in the
      first two; with exactly one lens answer in the round before, any gate failing twice in a row is
      taken for it; with more, it is not seen. */
  lemma OscillatesIff(val: AgentRequest, lenses: seq<string>, rounds: seq<Round>)
    requires Consulted(lenses, rounds)
    ensures var n := |rounds|;
            DetectOscillation(RunLedger(val, lenses, rounds)) <==>
              && n >= 2
              && var answers := Answered(rounds[n - 2].reviews);
                 if answers == 0 then
                   n >= 3 && Answered(rounds[n - 3].reviews) == 0
                   && Failed(rounds[n - 3]) * Failed(rounds[n - 1]) - Failed(rounds[n - 2]) != {}
                 else answers == 1 && Failed(rounds[n - 2]) * Failed(rounds[n - 1]) != {}
  {
    hide Reviewed, Answered, ReviewEntries, RunLedger, VerdictEntry, FailedGates, Failed, Swings;
    var n, ledger := |rounds|, RunLedger(val, lenses, rounds);
    LedgerEnds(val, lenses, rounds, n);
    NoReviewsAnswered(n, lenses);
    assert rounds[..n] == rounds;
    Nothing(val, lenses);
    if |ledger| >= 3 {
      SwingsIff(FailedGates(ledger[|ledger| - 3]), FailedGates(ledger[|ledger| - 2]), FailedGates(ledger[|ledger| - 1]));
    }
    if n >= 2 {
      LedgerEnds(val, lenses, rounds, n - 1);
      if Answered(rounds[n - 2].reviews) == 0 {
        if n >= 3 {
          LedgerEnds(val, lenses, rounds, n - 2);
          if Answered(rounds[n - 3].reviews) > 0 {
            assert ledger[|ledger| - 3] in ReviewEntries(n - 2, lenses, rounds[n - 3].reviews);
          }
        }
      } else {
        var reviews := ReviewEntries(n - 1, lenses, rounds[n - 2].reviews);
        assert ledger[|ledger| - 2] == reviews[|reviews| - 1];
        if Answered(rounds[n - 2].reviews) > 1 {
          assert ledger[|ledger| - 3] == reviews[|reviews| - 2];
        }
      }
    }
  }
}
