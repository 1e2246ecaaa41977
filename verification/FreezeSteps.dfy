/** The three writers of artifact files: the driver's `run_artifact`, the freeze authority's
    `apply_freeze_decision`, and the andon cord's `mark-status`, on the characters of the files. */
module FreezeSteps {
  import opened Text
  import opened Sorting
  import opened LineEndings
  import opened ControlText
  import opened ArtifactStore
  import opened ErState
  import opened ErText

  /** The initiative's slug and the upstream dependency table. */
  datatype Setup = Setup(slug: string, deps: map<string, seq<string>>)

  function DepsOf(S: Setup, t: string): seq<string> { if t in S.deps then S.deps[t] else [] }

  function ArtifactIdFor(S: Setup, t: string): string { t + ("-" + (S.slug + "-001")) }

  function FileFor(t: string): string { Lower(t) + ".md" }

  datatype DecisionOutcome = APPROVE | APPROVE_WITH_CONDITIONS | BLOCK | REMEDIATE_AND_RETRY | REQUIRE_REDESIGN | ROLLBACK

  datatype Decision = Decision(artifactId: string, outcome: DecisionOutcome, contentHash: Digest,
                               decidedBy: string, autoFreezeAttempted: bool, owner: Option<string>)

  datatype JournalEntry = JournalEntry(artifact: string, outcome: DecisionOutcome, decidedBy: string, contentHash: Digest)

  /** Everything on disk that the three writers touch; artifacts and the engagement record are their characters. */
  datatype World = World(docs: Docs, er: Option<string>, journal: Option<seq<JournalEntry>>)

  // ---- run_artifact ----

  function IdPrefix(id: string): string { Split(id, '-')[0] }

  function FrozenTypes(m: map<string, ArtifactStatus>): set<string> {
    set id | id in m && m[id] == FROZEN :: IdPrefix(id)
  }

  /** Required upstream types that no frozen artifact carries, in the table's order. */
  function Missing(required: seq<string>, frozen: set<string>): seq<string> {
    if required == [] then []
    else (if required[0] in frozen then [] else [required[0]]) + Missing(required[1..], frozen)
  }

  /** The same of some of the ids. */
  ghost function TypesAmong(m: map<string, ArtifactStatus>, ids: set<string>): set<string> {
    set id | id in ids && id in m && m[id] == FROZEN :: IdPrefix(id)
  }

  lemma NoneAmong(m: map<string, ArtifactStatus>)
    ensures TypesAmong(m, m.Keys - m.Keys) == {}
  {
  }

  lemma AllAmong(m: map<string, ArtifactStatus>)
    ensures TypesAmong(m, m.Keys) == FrozenTypes(m)
  {
    hide IdPrefix;
  }

  lemma OneMoreAmong(m: map<string, ArtifactStatus>, ids: set<string>, id: string)
    requires id in m
    ensures TypesAmong(m, ids + {id}) == TypesAmong(m, ids) + (if m[id] == FROZEN then {IdPrefix(id)} else {})
  {
    hide IdPrefix;
    forall t | t in TypesAmong(m, ids) + (if m[id] == FROZEN then {IdPrefix(id)} else {}) ensures t in TypesAmong(m, ids + {id}) {
      if t in TypesAmong(m, ids) {
        var x :| x in ids && x in m && m[x] == FROZEN && IdPrefix(x) == t;
        assert x in ids + {id};
      } else {
        assert id in ids + {id};
      }
    }
  }

  lemma MissingStep(required: seq<string>, i: nat, frozen: set<string>, missing: seq<string>)
    requires i < |required|
    ensures missing + Missing(required[i..], frozen)
         == (missing + (if required[i] in frozen then [] else [required[i]])) + Missing(required[i + 1..], frozen)
  {
    assert required[i..][0] == required[i] && required[i..][1..] == required[i + 1..];
  }

  lemma MissingEnd(required: seq<string>, frozen: set<string>, missing: seq<string>)
    ensures missing + Missing(required[|required|..], frozen) == missing
  {
    assert required[|required|..] == [];
  }

  ghost function MissingUpstream(S: Setup, docs: Docs, t: string): seq<string> {
    Missing(DepsOf(S, t), FrozenTypes(Statuses(docs)))
  }

  /** What the generate/validate loop makes of the type. */
  datatype Generation = NoKitSpec | Escalated | Converged(content: string)

  datatype RunResult = AlreadyFrozen | UpstreamNotFrozen(missing: seq<string>) | NoSpecError | EscalationNeeded | ConvergedPending
    | BlockUnwritable // the upsert raises: nothing written

  function PendingEntries(id: string): seq<Entry> {
    [Entry("Artifact ID", id), Entry("Status", "FREEZE_PENDING"), Entry("Last Validation", "PASS")]
  }

  const HEADING := "\n\n## Document Control\n\n"
  const FIELD_LINE := "| Field | Value |\n"
  const RULE_LINE := "|-------|-------|\n"
  const STATUS_LINE := "| Status | FREEZE_PENDING |\n"
  const VALIDATION_LINE := "| Last Validation | PASS |\n"

  function IdLine(id: string): string { "| Artifact ID | " + (id + " |\n") }

  /** The block put in front of a content that has none. */
  function WrappedText(t: string, id: string, content: string): string {
    "# " + (t + (HEADING + (FIELD_LINE + (RULE_LINE + (IdLine(id) + (STATUS_LINE + (VALIDATION_LINE + ("\n" + (content + "\n")))))))))
  }

  /** The text `_persist_freeze_pending` writes. */
  function PersistedText(t: string, id: string, content: string): Upserted {
    if HasId(content) then
      match Upsert(content, PendingEntries(id))
      case Updated(doc) => Updated(Ended(doc))
      case other => other
    else Updated(WrappedText(t, id, content))
  }

  ghost predicate IsFrozen(S: Setup, docs: Docs, t: string) {
    var m := Statuses(docs);
    ArtifactIdFor(S, t) in m && m[ArtifactIdFor(S, t)] == FROZEN
  }

  ghost function RunArtifact(S: Setup, w: World, t: string, g: Generation): (World, RunResult) {
    if IsFrozen(S, w.docs, t) then (w, AlreadyFrozen)
    else if MissingUpstream(S, w.docs, t) != [] then (w, UpstreamNotFrozen(MissingUpstream(S, w.docs, t)))
    else
      match g
      case NoKitSpec => (w, NoSpecError)
      case Escalated => (w, EscalationNeeded)
      case Converged(content) =>
        var doc := PersistedText(t, ArtifactIdFor(S, t), content);
        if doc.Updated? then (w.(docs := w.docs[FileFor(t) := doc.text]), ConvergedPending) else (w, BlockUnwritable)
  }

  // ---- apply_freeze_decision ----

  predicate Authorized(d: Decision) { !d.autoFreezeAttempted && Strip(d.decidedBy) != "" }

  predicate Approving(o: DecisionOutcome) { o.APPROVE? || o.APPROVE_WITH_CONDITIONS? }

  function OwnerOf(d: Decision): string {
    var given := Strip(if d.owner.Some? then d.owner.value else "");
    if given != "" then given else d.decidedBy
  }

  datatype FreezeResult = Applied(owner: string, frozenCount: Option<int>)
    | Unauthorized | NotApproved | NotFound | HashMismatch | StateError
    | NoStatusCell   // `write_artifact_status` raises: nothing written
    | ProvenanceUnwritable // the upsert raises: FROZEN was written, the provenance not
    | CountUnreadable // the record's count is no number: raised after the artifact was written
    | RecordUnwritable // a field of the record is no template: raised after the artifact was written

  predicate Refused(r: FreezeResult) { !r.Applied? && !r.ProvenanceUnwritable? && !r.CountUnreadable? && !r.RecordUnwritable? }

  function ProvenanceEntries(owner: string, approver: string, today: string): seq<Entry> {
    [Entry("Owner", owner), Entry("Frozen By", approver), Entry("Frozen Date", today)]
  }

  /** What the upsert makes of the file once its status reads FROZEN. */
  function FrozenText(file: string, d: Decision, today: string): Upserted {
    Upsert(ReadText(WithStatus(file, FROZEN)), ProvenanceEntries(OwnerOf(d), d.decidedBy, today))
  }

  /** The file as a freeze past every guard leaves it. */
  function FrozenFile(file: string, d: Decision, today: string): string {
    var r := FrozenText(file, d, today);
    if r.Updated? then r.text else WithStatus(file, FROZEN)
  }

  function HashOf(file: string): Digest { HashArtifactContent(ReadText(file)) }

  /** Which of the record and the journal the caller named; the dates are the clock's. */
  datatype Targets = Targets(er: bool, journal: bool, today: string, now: string)

  function CountUp(s: State, now: string): State { s.(frozenCount := s.frozenCount + 1, lastUpdated := now) }

  /** The guards, in order; `None` when all pass. */
  ghost function Guard(w: World, d: Decision, x: Targets): Option<FreezeResult> {
    if !Authorized(d) then Some(Unauthorized)
    else if !Approving(d.outcome) then Some(NotApproved)
    else
      var f := FindFile(w.docs, d.artifactId);
      if f.None? || f.value !in w.docs then Some(NotFound)
      else if HashOf(w.docs[f.value]) != d.contentHash then Some(HashMismatch)
      else if x.er && w.er.None? then Some(StateError)
      else if x.journal && w.journal.None? then Some(StateError)
      else if StatusOf(w.docs[f.value]).None? then Some(NoStatusCell)
      else None
  }

  function JournalFor(d: Decision): JournalEntry { JournalEntry(d.artifactId, d.outcome, d.decidedBy, d.contentHash) }

  ghost function ApplyFreeze(w: World, d: Decision, x: Targets): (World, FreezeResult) {
    var g := Guard(w, d, x);
    if g.Some? then (w, g.value)
    else
      var f := FindFile(w.docs, d.artifactId).value;
      var w1 := w.(docs := w.docs[f := FrozenFile(w.docs[f], d, x.today)]);
      var s := if x.er then ReadStateText(ReadText(w.er.value)) else None;
      if !FrozenText(w.docs[f], d, x.today).Updated? then (w1, ProvenanceUnwritable)
      else if x.er && s.None? then (w1, CountUnreadable)
      else if x.er && WriteStateText(ReadText(w.er.value), CountUp(s.value, x.now)).None? then (w1, RecordUnwritable)
      else
        var w2 := if x.er then w1.(er := WriteStateText(ReadText(w.er.value), CountUp(s.value, x.now))) else w1;
        var w3 := if x.journal then w2.(journal := Some(w.journal.value + [JournalFor(d)])) else w2;
        (w3, Applied(OwnerOf(d), if x.er then Some(s.value.frozenCount + 1) else None))
  }

  // ---- mark-status ----

  datatype MarkResult = Marked | BadStatus | NoArtifact

  ghost function MarkStatus(w: World, id: string, status: ArtifactStatus): (World, MarkResult) {
    if status != HALTED && status != FAULTED then (w, BadStatus)
    else
      var f := FindFile(w.docs, id);
      if f.None? || f.value !in w.docs || StatusOf(w.docs[f.value]).None? then (w, NoArtifact)
      else (w.(docs := w.docs[f.value := WithStatus(w.docs[f.value], status)]), Marked)
  }

  // ---- the writers, step by step ----

  class Initiative {
    const setup: Setup
    var docs: Docs
    var er: Option<string>
    var journal: Option<seq<JournalEntry>>

    constructor (setup: Setup, er: Option<string>, journal: Option<seq<JournalEntry>>)
      ensures this.setup == setup && Disk() == World(map[], er, journal)
    {
      this.setup, this.docs, this.er, this.journal := setup, map[], er, journal;
    }

    function Disk(): World
      reads this
    {
      World(docs, er, journal)
    }

    method FrozenOnDisk(t: string) returns (r: bool)
      ensures r == IsFrozen(setup, docs, t)
    {
      var m := ReadFrozenArtifacts(docs);
      r := ArtifactIdFor(setup, t) in m && m[ArtifactIdFor(setup, t)] == FROZEN;
    }

    /** `check_freeze_before_promote` */
    method CheckFreezeBeforePromote(t: string) returns (missing: seq<string>)
      ensures missing == MissingUpstream(setup, docs, t)
    {
      hide Statuses, IdPrefix, Missing, TypesAmong;
      var required := DepsOf(setup, t);
      var statuses := ReadFrozenArtifacts(docs);
      var frozenTypes := {};
      var left := statuses.Keys;
      NoneAmong(statuses);
      while left != {}
        invariant left <= statuses.Keys
        invariant frozenTypes == TypesAmong(statuses, statuses.Keys - left)
        decreases |left|
      {
        var id :| id in left;
        assert statuses.Keys - (left - {id}) == (statuses.Keys - left) + {id};
        OneMoreAmong(statuses, statuses.Keys - left, id);
        if statuses[id] == FROZEN {
          frozenTypes := frozenTypes + {IdPrefix(id)};
        }
        left := left - {id};
      }
      assert statuses.Keys - {} == statuses.Keys;
      AllAmong(statuses);
      missing := [];
      assert required[0..] == required;
      for i := 0 to |required|
        invariant Missing(required, frozenTypes) == missing + Missing(required[i..], frozenTypes)
      {
        MissingStep(required, i, frozenTypes, missing);
        if required[i] !in frozenTypes {
          missing := missing + [required[i]];
        }
      }
      MissingEnd(required, frozenTypes, missing);
    }

    method Run(t: string, generation: Generation) returns (r: RunResult)
      modifies this`docs
      ensures (Disk(), r) == RunArtifact(setup, old(Disk()), t, generation)
    {
      hide IsFrozen, MissingUpstream, PersistedText;
      var frozen := FrozenOnDisk(t);
      if frozen {
        return AlreadyFrozen;
      }
      var missing := CheckFreezeBeforePromote(t);
      if missing != [] {
        return UpstreamNotFrozen(missing);
      }
      match generation {
        case NoKitSpec => r := NoSpecError;
        case Escalated => r := EscalationNeeded;
        case Converged(content) =>
          var written := PersistFreezePending(t, content);
          r := if written then ConvergedPending else BlockUnwritable;
      }
    }

    /** `_persist_freeze_pending`; its own frozen guard cannot fire after the caller's. */
    method PersistFreezePending(t: string, content: string) returns (written: bool)
      requires !IsFrozen(setup, docs, t)
      modifies this`docs
      ensures var r := PersistedText(t, ArtifactIdFor(setup, t), content);
              && written == r.Updated?
              && docs == if r.Updated? then old(docs)[FileFor(t) := r.text] else old(docs)
    {
      hide IsFrozen, Upsert, WrappedText;
      var id := ArtifactIdFor(setup, t);
      var doc;
      if HasId(content) {
        var r := UpsertDocumentControlRows(content, PendingEntries(id));
        if !r.Updated? {
          return false;
        }
        doc := Ended(r.text);
      } else {
        doc := WrappedText(t, id, content);
      }
      docs := docs[FileFor(t) := doc];
      written := true;
    }

    method Freeze(d: Decision, x: Targets) returns (r: FreezeResult)
      modifies this
      ensures (Disk(), r) == ApplyFreeze(old(Disk()), d, x)
    {
      hide FindFile, HashOf, ReadText, ReadStateText, WriteStateText, Upsert, WithStatus, StatusOf, Strip;
      if !Authorized(d) {
        return Unauthorized;
      }
      if !Approving(d.outcome) {
        return NotApproved;
      }
      var target := FindArtifactPath(docs, d.artifactId);
      if target.None? || target.value !in docs {
        return NotFound;
      }
      if HashOf(docs[target.value]) != d.contentHash {
        return HashMismatch;
      }
      if x.er && er.None? {
        return StateError;
      }
      if x.journal && journal.None? {
        return StateError;
      }
      // every guard has passed: writes begin
      if StatusOf(docs[target.value]).None? {
        return NoStatusCell;
      }
      docs := docs[target.value := WithStatus(docs[target.value], FROZEN)];
      var text := UpsertDocumentControlRows(ReadText(docs[target.value]), ProvenanceEntries(OwnerOf(d), d.decidedBy, x.today));
      if !text.Updated? {
        return ProvenanceUnwritable;
      }
      docs := docs[target.value := text.text];
      assert docs == old(docs)[target.value := FrozenFile(old(docs)[target.value], d, x.today)];
      var count := None;
      if x.er {
        var state := ReadStateText(ReadText(er.value));
        if state.None? {
          return CountUnreadable;
        }
        var block := WriteErStateBlock(ReadText(er.value), CountUp(state.value, x.now));
        if block.None? {
          return RecordUnwritable;
        }
        er := block;
        count := Some(state.value.frozenCount + 1);
      }
      if x.journal {
        journal := Some(journal.value + [JournalFor(d)]);
      }
      r := Applied(OwnerOf(d), count);
    }

    method Mark(id: string, status: ArtifactStatus) returns (r: MarkResult)
      modifies this`docs
      ensures (Disk(), r) == MarkStatus(old(Disk()), id, status)
    {
      hide FindFile, StatusOf, WithStatus;
      if status != HALTED && status != FAULTED {
        return BadStatus;
      }
      var target := FindArtifactPath(docs, id);
      if target.None? || target.value !in docs || StatusOf(docs[target.value]).None? {
        return NoArtifact;
      }
      docs := docs[target.value := WithStatus(docs[target.value], status)];
      r := Marked;
    }
  }
}
