/** Runs that freeze everything, and the record's count. */
module FreezeProgress {
  import opened Text
  import opened Template
  import opened LineEndings
  import opened ControlText
  import opened ControlCells
  import opened ControlDoc
  import opened ArtifactStore
  import opened ErState
  import opened ErText
  import opened FreezeSteps
  import opened FreezeDocs
  import opened FreezeText
  import opened FreezeLaws

  // ---- any acyclic, closed table can be frozen completely ----

  /** Every dependency is in the table and ranks below its dependant: the table is closed and acyclic. */
  ghost predicate Ranked(S: Setup, rank: map<string, nat>) {
    forall t :: t in S.deps ==> t in rank && forall u :: u in S.deps[t] ==> u in S.deps && u in rank && rank[u] < rank[t]
  }

  lemma {:induction false} ExecuteAppend(S: Setup, w: World, a: seq<Step>, b: seq<Step>)
    ensures Execute(S, w, a + b) == Execute(S, Execute(S, w, a), b)
    decreases |b|
  {
    hide Next;
    if b == [] {
      assert a + b == a;
    } else {
      ExecuteAppend(S, w, a, b[..|b| - 1]);
      assert (a + b)[..|a + b| - 1] == a + b[..|b| - 1];
    }
  }

  /** The empty text is a document without rows. */
  lemma BlankIsOk()
    ensures OkText("")
  {
    hide Names, RowOk, Untitled;
    BlankGap();
    assert IsDoc("", Doc("", []));
  }

  ghost function GenerateStep(t: string): Step { RunStep(t, Converged("")) }

  /** A decision on exactly the text that is on disk. */
  ghost function ApproveStep(S: Setup, w: World, t: string): Step
    requires OnDisk(w.docs, t)
  {
    FreezeStep(Decision(ArtifactIdFor(S, t), APPROVE, HashOf(w.docs[FileFor(t)]), "PASS", false, None), Targets(false, false, "PASS", ""))
  }

  lemma GenerateWorks(S: Setup, w: World, t: string)
    requires Inv(S, w.docs) && GoodTable(S) && GoodType(S, t) && !FrozenNow(w.docs, t)
    requires forall u :: u in DepsOf(S, t) ==> GoodType(S, u) && FrozenNow(w.docs, u)
    ensures GoodStep(S, GenerateStep(t))
    ensures var next := Next(S, w, GenerateStep(t)).docs;
            var doc := PersistedText(t, ArtifactIdFor(S, t), "");
            doc.Updated? && next == w.docs[FileFor(t) := doc.text]
  {
    hide Inv, GoodType, FrozenNow, PersistedText, FileFor, ArtifactIdFor, Statuses, FrozenTypes, OkText, IsFrozen, Clean, Fit;
    BlankIsOk();
    TypeIsClean(S, t);
    IdFits(S, t);
    PendingTextOk(t, ArtifactIdFor(S, t), "");
    FrozenIs(S, w.docs, t);
    NothingMissing(DepsOf(S, t), FrozenTypes(Statuses(w.docs)));
    forall u | u in DepsOf(S, t) ensures u in FrozenTypes(Statuses(w.docs)) {
      FrozenTypesAre(S, w.docs, u);
    }
  }

  lemma ApproverFits()
    ensures Writable("PASS") && Strip("PASS") == "PASS" && RecordFit("")
  {
    BlankFits();
    FixedValues();
    StripIdentity("PASS");
  }

  lemma GuardPasses(w: World, d: Decision, x: Targets)
    requires Authorized(d) && Approving(d.outcome) && FindFile(w.docs, d.artifactId).Some?
    requires var f := FindFile(w.docs, d.artifactId).value;
             f in w.docs && HashOf(w.docs[f]) == d.contentHash && StatusOf(w.docs[f]).Some?
    requires !x.er && !x.journal
    ensures Guard(w, d, x).None?
  {
    hide Authorized, Approving, FindFile, HashOf, StatusOf;
  }

  lemma ApproveWorks(S: Setup, w: World, t: string)
    requires Inv(S, w.docs) && GoodType(S, t) && OnDisk(w.docs, t)
    ensures GoodStep(S, ApproveStep(S, w, t))
    ensures var s := ApproveStep(S, w, t); var next := Next(S, w, s).docs;
            FrozenNow(next, t) && next == w.docs[FileFor(t) := FrozenFile(w.docs[FileFor(t)], s.d, "PASS")]
  {
    hide Inv, GoodType, FrozenFile, FileFor, ArtifactIdFor, OkText, IdOf, StatusOf, Fit, FindFile, HashOf, UniqueIds, ApplyFreeze, Guard, RecordFit, Strip;
    ApproverFits();
    HoldsOwn(S, w.docs, t);
    InvIsUnique(S, w.docs);
    FindFileIs(w.docs, ArtifactIdFor(S, t));
    var s := ApproveStep(S, w, t);
    GuardPasses(w, s.d, s.x);
    FreezeEffect(w, s.d, s.x);
    OwnerIsApprover(s.d);
    FrozenTextOk(w.docs[FileFor(t)], s.d, "PASS");
  }

  lemma OwnerIsApprover(d: Decision)
    requires d.owner.None?
    ensures OwnerOf(d) == d.decidedBy
  {
    StripAllSpace("");
  }

  lemma {:induction false} LowestRank(left: set<string>, rank: map<string, nat>) returns (t: string)
    requires left != {} && forall u :: u in left ==> u in rank
    ensures t in left && forall u :: u in left ==> rank[t] <= rank[u]
  {
    t :| t in left;
    if left != {t} {
      var u := LowestRank(left - {t}, rank);
      if rank[u] < rank[t] { t := u; }
    }
  }

  /** Two steps that freeze one more type and leave every other file alone. */
  lemma FreezeOne(S: Setup, w: World, t: string) returns (steps: seq<Step>)
    requires Inv(S, w.docs) && GoodTable(S) && GoodType(S, t) && !FrozenNow(w.docs, t)
    requires forall u :: u in DepsOf(S, t) ==> GoodType(S, u) && FrozenNow(w.docs, u)
    ensures GoodRun(S, steps) && Unmarked(steps) && Inv(S, Execute(S, w, steps).docs) && FrozenNow(Execute(S, w, steps).docs, t)
    ensures forall u :: GoodType(S, u) && FrozenNow(w.docs, u) ==> FrozenNow(Execute(S, w, steps).docs, u)
  {
    hide Inv, GoodType, PersistedText, FrozenFile, FileFor, ArtifactIdFor, OkText, StatusOf, GoodTable, GoodStep, Next, HashOf, DepsOf;
    var s1 := GenerateStep(t);
    GenerateWorks(S, w, t);
    StepKeepsInv(S, w, s1);
    var w1 := Next(S, w, s1);
    var s2 := ApproveStep(S, w1, t);
    ApproveWorks(S, w1, t);
    StepKeepsInv(S, w1, s2);
    var w2 := Next(S, w1, s2);
    steps := [s1, s2];
    TwoSteps(S, w, s1, s2);
    forall u | GoodType(S, u) && FrozenNow(w.docs, u) ensures FrozenNow(w2.docs, u) {
      if FileFor(u) == FileFor(t) { FileIsOwn(S, u, t); }
    }
  }

  lemma TwoSteps(S: Setup, w: World, s1: Step, s2: Step)
    ensures Execute(S, w, [s1, s2]) == Next(S, Next(S, w, s1), s2)
  {
    hide Next;
    assert [s1, s2][..1] == [s1] && [s1][..0] == [];
    assert Execute(S, w, [s1]) == Next(S, Execute(S, w, []), s1);
  }

  lemma {:induction false} FreezeRest(S: Setup, rank: map<string, nat>, w: World, left: set<string>) returns (steps: seq<Step>)
    requires GoodTable(S) && Ranked(S, rank) && Inv(S, w.docs) && left <= S.deps.Keys
    requires forall t :: t in S.deps && t !in left ==> FrozenNow(w.docs, t)
    ensures GoodRun(S, steps) && Unmarked(steps)
    ensures forall t :: t in S.deps ==> FrozenNow(Execute(S, w, steps).docs, t)
    decreases |left|
  {
    hide Inv, GoodType, FrozenNow, Execute, GoodStep;
    if left == {} {
      steps := [];
      NoSteps(S, w);
    } else {
      var t := LowestRank(left, rank);
      assert forall u :: u in S.deps[t] ==> u !in left;
      var first := [];
      NoSteps(S, w);
      if !FrozenNow(w.docs, t) {
        first := FreezeOne(S, w, t);
      }
      var w1 := Execute(S, w, first);
      var rest := FreezeRest(S, rank, w1, left - {t});
      steps := first + rest;
      ExecuteAppend(S, w, first, rest);
    }
  }

  lemma NoSteps(S: Setup, w: World)
    ensures Execute(S, w, []) == w
  {
  }

  /** From an empty directory, some run without mark-status freezes every type of an acyclic closed table. */
  lemma EveryTypeCanFreeze(S: Setup, rank: map<string, nat>, w: World) returns (steps: seq<Step>)
    requires GoodTable(S) && Ranked(S, rank) && Fresh(w)
    ensures GoodRun(S, steps) && Unmarked(steps)
    ensures forall t :: t in S.deps ==> FrozenNow(Execute(S, w, steps).docs, t)
  {
    hide GoodType, FrozenNow, Execute, GoodStep, Inv;
    NewInv(S, w);
    steps := FreezeRest(S, rank, w, S.deps.Keys);
  }

  // ---- the record's count ----

  /** A well-formed record with its seven rows, a count that is a number, and no backslash in a field. */
  ghost predicate ReadableAs(d: Doc) {
    RecordOk(d) && AllRows(d) && ReadState(d).Some? && NoBackslash(ReadState(d).value)
  }

  /** The record's text is that of such a document. */
  ghost predicate Readable(w: World) { w.er.Some? && exists d :: ReadableAs(d) && w.er.value == Render(d) }

  lemma ReadsCount(d: Doc)
    requires ReadableAs(d)
    ensures ReadText(Render(d)) == Render(d) && ReadStateText(Render(d)) == ReadState(d) && ReadState(d).Some?
  {
    hide WellFormed, AllRows, ReadState, NoBackslash, Render;
    ReadBack(d, ER_TITLES);
    ReadStateRendered(d);
  }

  /** The count that the code reads in the record's text. */
  ghost function CountOf(w: World): int
    requires Readable(w)
  {
    var d :| ReadableAs(d) && w.er.value == Render(d);
    ReadsCount(d);
    ReadStateText(ReadText(w.er.value)).value.frozenCount
  }

  ghost predicate Counted(w: World, s: Step) { s.FreezeStep? && s.x.er && ApplyFreeze(w, s.d, s.x).1.Applied? }

  /** Freezes of the run that were applied and given the record. */
  ghost function Freezes(S: Setup, w: World, steps: seq<Step>): nat {
    if steps == [] then 0 else
      var front := steps[..|steps| - 1];
      Freezes(S, w, front) + (if Counted(Execute(S, w, front), steps[|steps| - 1]) then 1 else 0)
  }

  /** What a freeze does to the record. */
  lemma RecordEffect(w: World, d: Decision, x: Targets)
    ensures var (next, r) := ApplyFreeze(w, d, x);
            && (x.er && r.Applied? ==>
                  && w.er.Some?
                  && var read := ReadStateText(ReadText(w.er.value));
                     && read.Some? && next.er == WriteStateText(ReadText(w.er.value), CountUp(read.value, x.now)) && next.er.Some?)
            && (!(x.er && r.Applied?) ==> next.er == w.er)
  {
    hide FindFile, HashOf, FrozenFile, FrozenText, StatusOf, ReadText, ReadStateText, WriteStateText, Authorized, Approving, OwnerOf, CountUp;
    RecordGuard(w, d, x);
  }

  lemma RecordGuard(w: World, d: Decision, x: Targets)
    ensures Guard(w, d, x).None? && x.er ==> w.er.Some?
  {
    hide FindFile, HashOf, StatusOf, Authorized, Approving;
  }

  lemma OthersKeepRecord(S: Setup, w: World, s: Step)
    requires !s.FreezeStep?
    ensures Next(S, w, s).er == w.er
  {
    hide PersistedText, IsFrozen, MissingUpstream, FindFile, StatusOf, WithStatus, FileFor, ArtifactIdFor;
  }

  /** The record cannot be counted up: its count is no number, or a field read from it is no template. */
  ghost predicate RecordBlocked(record: string, now: string) {
    var read := ReadStateText(ReadText(record));
    read.None? || exists v :: v in Values(CountUp(read.value, now)) && !IsTemplate(v)
  }

  lemma RecordBlockedIff(record: string, now: string)
    ensures var read := ReadStateText(ReadText(record));
            RecordBlocked(record, now) <==> read.None? || WriteStateText(ReadText(record), CountUp(read.value, now)).None?
  {
    hide ReadText, ReadStateText, WriteStateText, CountUp, Values, IsTemplate;
    var read := ReadStateText(ReadText(record));
    if read.Some? {
      var s := CountUp(read.value, now);
      WriteRaisesIff(ReadText(record), s);
      FieldCount(s);
    }
  }

  /** Whatever the decision and the files, a freeze that passes every guard is lost to the record, with the
      artifact already frozen and no journal entry, exactly when the upsert fails on the file or the record
      cannot be counted up. In a reachable directory, for values that a substitution takes literally or
      refuses, the upsert fails exactly when a provenance row that the file has gets a value that is no template. */
  lemma LostToRecordIff(S: Setup, w: World, d: Decision, x: Targets)
    requires Guard(w, d, x).None? && x.er
    ensures w.er.Some? && FindFile(w.docs, d.artifactId).Some? && FindFile(w.docs, d.artifactId).value in w.docs
    ensures var (next, r) := ApplyFreeze(w, d, x); var f := FindFile(w.docs, d.artifactId).value;
            && (!r.Applied? <==> !FrozenText(w.docs[f], d, x.today).Updated? || RecordBlocked(w.er.value, x.now))
            && (Inv(S, w.docs) && GoodStep(S, FreezeStep(d, x)) ==>
                  (!r.Applied? <==> ProvenanceBlocked(w.docs[f], d, x.today) || RecordBlocked(w.er.value, x.now)))
            && (!r.Applied? ==> next == w.(docs := w.docs[f := FrozenFile(w.docs[f], d, x.today)]))
  {
    hide FindFile, HashOf, FrozenFile, FrozenText, StatusOf, ReadText, ReadStateText, WriteStateText, Authorized, Approving, OwnerOf, CountUp,
         RecordBlocked, ProvenanceBlocked, Inv, GoodStep, WithStatus, SameProvenance;
    RecordGuard(w, d, x);
    RecordBlockedIff(w.er.value, x.now);
    if Inv(S, w.docs) && GoodStep(S, FreezeStep(d, x)) { ProvenanceLostIff(S, w, d, x); }
  }

  lemma CountUpFits(s: State, now: string)
    requires StateFits(s) && RecordFit(now)
    ensures StateFits(CountUp(s, now)) && NoBackslash(CountUp(s, now))
  {
    hide RecordFit;
    FitIsPlain(s.layer); FitIsPlain(s.artifact); FitIsPlain(s.step); FitIsPlain(s.nextAction); FitIsPlain(s.blockingOn); FitIsPlain(now);
  }

  /** Counting up a readable record gives a readable record. */
  lemma CountedUp(d: Doc, now: string) returns (e: Doc)
    requires ReadableAs(d) && RecordFit(now)
    ensures ReadableAs(e) && WriteStateText(Render(d), CountUp(ReadState(d).value, now)) == Some(Render(e))
    ensures ReadState(e) == Some(CountUp(ReadState(d).value, now))
  {
    hide RecordOk, AllRows, ReadState, NoBackslash, WriteStateText, WriteState, StateFits, RecordFit, CountUp, TextsTrimmed;
    ReadFits(d);
    var s := CountUp(ReadState(d).value, now);
    CountUpFits(ReadState(d).value, now);
    e := WriteState(d, s);
    WriteStateRendered(d, s);
    WriteKeepsRows(d, s);
    FitsAreTrimmed(s);
    WriteThenReadState(d, s);
  }

  lemma FitsAreTrimmed(s: State)
    requires StateFits(s)
    ensures TextsTrimmed(s)
  {
    hide RecordFit, Trimmed;
    FitIsPlain(s.layer); FitIsPlain(s.artifact); FitIsPlain(s.step); FitIsPlain(s.nextAction); FitIsPlain(s.blockingOn); FitIsPlain(s.lastUpdated);
  }

  lemma StepCounts(S: Setup, w: World, s: Step)
    requires Readable(w) && GoodStep(S, s)
    ensures Readable(Next(S, w, s))
    ensures CountOf(Next(S, w, s)) == CountOf(w) + (if Counted(w, s) then 1 else 0)
  {
    hide ReadState, ReadText, ReadStateText, WriteStateText, ReadableAs, ApplyFreeze, RunArtifact, MarkStatus, Writable, OwnerOf, RecordFit, OkText, GoodType;
    if s.FreezeStep? {
      RecordEffect(w, s.d, s.x);
      if Counted(w, s) {
        var d :| ReadableAs(d) && w.er.value == Render(d);
        ReadsCount(d);
        var e := CountedUp(d, s.x.now);
        ReadsCount(e);
      }
    } else {
      OthersKeepRecord(S, w, s);
    }
  }

  /** Over any run of all three writers, the record's frozen count grows by exactly the number of freezes
      applied with the record given. */
  lemma {:induction false} CountGrowsByFreezes(S: Setup, w: World, steps: seq<Step>)
    requires Readable(w) && GoodRun(S, steps)
    ensures Readable(Execute(S, w, steps)) && CountOf(Execute(S, w, steps)) == CountOf(w) + Freezes(S, w, steps)
  {
    hide Readable, GoodStep, Next, Counted, CountOf;
    if steps != [] {
      CountGrowsByFreezes(S, w, steps[..|steps| - 1]);
      StepCounts(S, Execute(S, w, steps[..|steps| - 1]), steps[|steps| - 1]);
    }
  }
}
