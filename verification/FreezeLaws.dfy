/** Laws over whole runs of the three writers: upstream closure, provenance, and what stays frozen. */
module FreezeLaws {
  import opened Text
  import LineEndings
  import opened ControlText
  import opened ControlDoc
  import opened ArtifactStore
  import opened ErState
  import opened ErText
  import opened FreezeSteps
  import opened FreezeDocs
  import opened FreezeText

  // ---- types, files and ids ----

  predicate TypeChar(c: char) { 'A' <= c <= 'Z' || IsDigit(c) }

  /** Upper-case, hyphen-free, and its id fits a cell. */
  predicate GoodType(S: Setup, t: string) {
    t != "" && (forall i :: 0 <= i < |t| ==> TypeChar(t[i])) && Fit(ArtifactIdFor(S, t))
  }

  lemma FileIsOwn(S: Setup, t: string, u: string)
    requires GoodType(S, t) && GoodType(S, u) && FileFor(t) == FileFor(u)
    ensures t == u
  {
    hide Fit, Lower;
    LowerAt(t);
    LowerAt(u);
    assert |FileFor(t)| == |t| + 3 && |FileFor(u)| == |u| + 3;
    forall i | 0 <= i < |t| ensures t[i] == u[i] {
      assert FileFor(t)[i] == LowerChar(t[i]) && FileFor(u)[i] == LowerChar(u[i]);
    }
  }

  lemma IdIsOwn(S: Setup, t: string, u: string)
    requires ArtifactIdFor(S, t) == ArtifactIdFor(S, u)
    ensures t == u
  {
    var tail := "-" + (S.slug + "-001");
    assert t == ArtifactIdFor(S, t)[..|t|] && u == ArtifactIdFor(S, u)[..|u|];
    assert |ArtifactIdFor(S, t)| == |t| + |tail| && |ArtifactIdFor(S, u)| == |u| + |tail|;
  }

  lemma IdPrefixIs(S: Setup, t: string)
    requires GoodType(S, t)
    ensures IdPrefix(ArtifactIdFor(S, t)) == t
  {
    hide Fit;
    assert '-' !in t;
    SplitCut(t, S.slug + "-001", '-');
    assert ArtifactIdFor(S, t) == t + (['-'] + (S.slug + "-001"));
  }

  lemma TypeIsClean(S: Setup, t: string)
    requires GoodType(S, t)
    ensures Clean(t)
  {
    hide Fit;
    assert forall c :: c in t ==> TypeChar(c);
  }

  // ---- what holds of every reachable directory ----

  /** File `f` holds the artifact of type `t`. */
  ghost predicate Holds(S: Setup, docs: Docs, f: string, t: string) {
    && GoodType(S, t) && f == FileFor(t) && f in docs
    && OkText(docs[f]) && IdOf(docs[f]) == Some(ArtifactIdFor(S, t)) && StatusOf(docs[f]).Some?
  }

  ghost predicate Inv(S: Setup, docs: Docs) { forall f :: f in docs ==> exists t :: Holds(S, docs, f, t) }

  ghost predicate OnDisk(docs: Docs, t: string) { FileFor(t) in docs }

  ghost predicate FrozenNow(docs: Docs, t: string) { OnDisk(docs, t) && StatusOf(docs[FileFor(t)]) == Some(FROZEN) }

  lemma HoldsOwn(S: Setup, docs: Docs, t: string)
    requires Inv(S, docs) && GoodType(S, t) && OnDisk(docs, t)
    ensures Holds(S, docs, FileFor(t), t)
  {
    hide GoodType, OkText, IdOf, StatusOf, FileFor;
    var u :| Holds(S, docs, FileFor(t), u);
    FileIsOwn(S, u, t);
  }

  lemma InvIsUnique(S: Setup, docs: Docs)
    requires Inv(S, docs)
    ensures UniqueIds(docs)
  {
    hide GoodType, OkText, IdOf, StatusOf, FileFor, ArtifactIdFor;
    forall f | f in docs ensures IdOf(docs[f]).Some? && StatusOf(docs[f]).Some? {
      var t :| Holds(S, docs, f, t);
    }
    forall f, g | f in docs && g in docs && IdOf(docs[f]) == IdOf(docs[g]) ensures f == g {
      var t :| Holds(S, docs, f, t);
      var u :| Holds(S, docs, g, u);
      IdIsOwn(S, t, u);
    }
  }

  /** The id of a type belongs to the type's own file. */
  lemma OwnerOfId(S: Setup, docs: Docs, f: string, t: string)
    requires Inv(S, docs) && f in docs && IdOf(docs[f]) == Some(ArtifactIdFor(S, t))
    ensures f == FileFor(t)
  {
    hide GoodType, OkText, IdOf, StatusOf, FileFor, ArtifactIdFor;
    var u :| Holds(S, docs, f, u);
    IdIsOwn(S, t, u);
  }

  /** The driver's frozen check is the file's own status. */
  lemma FrozenIs(S: Setup, docs: Docs, t: string)
    requires Inv(S, docs) && GoodType(S, t)
    ensures IsFrozen(S, docs, t) <==> FrozenNow(docs, t)
  {
    hide GoodType, OkText, IdOf, StatusOf, FileFor, ArtifactIdFor, Statuses, UniqueIds;
    var id := ArtifactIdFor(S, t);
    InvIsUnique(S, docs);
    StatusesAre(docs, id);
    if OnDisk(docs, t) { HoldsOwn(S, docs, t); }
    if id in Statuses(docs) {
      var f :| f in docs && IdOf(docs[f]) == Some(id);
      OwnerOfId(S, docs, f, t);
    }
  }

  /** The promotion check's frozen types are the frozen artifacts. */
  lemma FrozenTypesAre(S: Setup, docs: Docs, t: string)
    requires Inv(S, docs) && GoodType(S, t)
    ensures t in FrozenTypes(Statuses(docs)) <==> FrozenNow(docs, t)
  {
    hide OkText, IdOf, StatusOf, FileFor, ArtifactIdFor, Statuses, UniqueIds, IdPrefix, GoodType;
    var m := Statuses(docs);
    FrozenIs(S, docs, t);
    IdPrefixIs(S, t);
    if t in FrozenTypes(m) {
      var id :| id in m && m[id] == FROZEN && IdPrefix(id) == t;
      InvIsUnique(S, docs);
      StatusesAre(docs, id);
      var f :| f in docs && IdOf(docs[f]) == Some(id);
      var u :| Holds(S, docs, f, u);
      IdPrefixIs(S, u);
    }
  }

  lemma {:induction false} NothingMissing(required: seq<string>, frozen: set<string>)
    ensures Missing(required, frozen) == [] <==> forall r :: r in required ==> r in frozen
  {
    if required != [] {
      NothingMissing(required[1..], frozen);
      assert forall r :: r in required <==> r == required[0] || r in required[1..];
    }
  }

  // ---- steps and runs ----

  datatype Step = RunStep(t: string, g: Generation) | FreezeStep(d: Decision, x: Targets) | MarkStep(id: string, status: ArtifactStatus)

  ghost function Next(S: Setup, w: World, s: Step): World {
    match s
    case RunStep(t, g) => RunArtifact(S, w, t, g).0
    case FreezeStep(d, x) => ApplyFreeze(w, d, x).0
    case MarkStep(id, status) => MarkStatus(w, id, status).0
  }

  /** The generator's texts are well-formed documents; what a decision gives fits a cell, and a substitution takes
      it literally or refuses it. */
  ghost predicate GoodStep(S: Setup, s: Step) {
    match s
    case RunStep(t, g) => GoodType(S, t) && (g.Converged? ==> OkText(g.content))
    case FreezeStep(d, x) => Writable(OwnerOf(d)) && Writable(d.decidedBy) && Writable(x.today) && RecordFit(x.now)
    case MarkStep(_, _) => true
  }

  ghost function Execute(S: Setup, w: World, steps: seq<Step>): World {
    if steps == [] then w else Next(S, Execute(S, w, steps[..|steps| - 1]), steps[|steps| - 1])
  }

  ghost predicate GoodRun(S: Setup, steps: seq<Step>) { forall i :: 0 <= i < |steps| ==> GoodStep(S, steps[i]) }

  predicate Unmarked(steps: seq<Step>) { forall i :: 0 <= i < |steps| ==> !steps[i].MarkStep? }

  ghost predicate Fresh(w: World) { w.docs == map[] }

  /** At most one file changes in a step. */
  lemma FileStep(S: Setup, docs: Docs, f: string, t: string, d: string)
    requires Inv(S, docs) && GoodType(S, t) && f == FileFor(t)
    requires OkText(d) && IdOf(d) == Some(ArtifactIdFor(S, t)) && StatusOf(d).Some?
    ensures Inv(S, docs[f := d])
  {
    hide GoodType, OkText, IdOf, StatusOf, FileFor, ArtifactIdFor;
    var next := docs[f := d];
    forall g | g in next ensures exists u :: Holds(S, next, g, u) {
      if g == f {
        assert Holds(S, next, f, t);
      } else {
        var u :| Holds(S, docs, g, u);
        assert Holds(S, next, g, u);
      }
    }
  }

  /** A run leaves the directory alone or writes the pending document of its own type. */
  lemma RunEffect(S: Setup, w: World, t: string, g: Generation)
    ensures var (next, r) := RunArtifact(S, w, t, g);
            && (r != ConvergedPending ==> next == w)
            && (r == ConvergedPending ==> (
                  && g.Converged? && !IsFrozen(S, w.docs, t) && MissingUpstream(S, w.docs, t) == []
                  && PersistedText(t, ArtifactIdFor(S, t), g.content).Updated?
                  && next == w.(docs := w.docs[FileFor(t) := PersistedText(t, ArtifactIdFor(S, t), g.content).text])))
  {
    hide IsFrozen, MissingUpstream, PersistedText, FileFor, ArtifactIdFor;
  }

  /** What a converged run leaves: in the file named after its type, a well-formed artifact under the type's id, pending. */
  lemma RunWrites(S: Setup, w: World, t: string, content: string)
    requires GoodType(S, t) && OkText(content)
    requires RunArtifact(S, w, t, Converged(content)).1 == ConvergedPending
    ensures var next := RunArtifact(S, w, t, Converged(content)).0; var f := Lower(t) + ".md";
            && f in next.docs && next == w.(docs := w.docs[f := next.docs[f]]) && OkText(next.docs[f])
            && ReadCell(ReadText(next.docs[f]), ArtifactId) == Some(t + "-" + S.slug + "-001") && StatusOf(next.docs[f]) == Some(FREEZE_PENDING)
            && ReadsAs(next.docs[f], "Last Validation") == Some("PASS")
  {
    hide OkText, ReadsAs, StatusOf, RunArtifact, PersistedText, Fit, Clean, Lower, ReadCell, ReadText;
    RunEffect(S, w, t, Converged(content));
    TypeIsClean(S, t);
    IdFits(S, t);
    PendingTextOk(t, ArtifactIdFor(S, t), content);
    assert t + ("-" + (S.slug + "-001")) == t + "-" + S.slug + "-001";
  }

  lemma RunKeepsInv(S: Setup, w: World, t: string, g: Generation)
    requires Inv(S, w.docs) && GoodType(S, t) && (g.Converged? ==> OkText(g.content))
    ensures Inv(S, Next(S, w, RunStep(t, g)).docs)
  {
    hide GoodType, OkText, IdOf, StatusOf, FileFor, ArtifactIdFor, RunArtifact, PersistedText, Inv, Fit, Clean;
    RunEffect(S, w, t, g);
    if RunArtifact(S, w, t, g).1 == ConvergedPending {
      var id := ArtifactIdFor(S, t);
      TypeIsClean(S, t);
      IdFits(S, t);
      PendingTextOk(t, id, g.content);
      FileStep(S, w.docs, FileFor(t), t, PersistedText(t, id, g.content).text);
    }
  }

  lemma IdFits(S: Setup, t: string)
    requires GoodType(S, t)
    ensures Fit(ArtifactIdFor(S, t))
  {
  }

  /** The file found by an id is held by its type. */
  lemma FoundHolds(S: Setup, docs: Docs, id: string) returns (t: string)
    requires Inv(S, docs) && FindFile(docs, id).Some?
    ensures var f := FindFile(docs, id).value; Holds(S, docs, f, t) && IdOf(docs[f]) == Some(id)
  {
    hide GoodType, OkText, IdOf, StatusOf, FileFor, ArtifactIdFor, FindFile, UniqueIds;
    InvIsUnique(S, docs);
    FindFileIs(docs, id);
    var f := FindFile(docs, id).value;
    t :| Holds(S, docs, f, t);
  }

  /** A freeze changes nothing unless every guard passes; then the file is left as `FrozenFile` says. */
  lemma FreezeEffect(w: World, d: Decision, x: Targets)
    ensures var (next, r) := ApplyFreeze(w, d, x); var g := Guard(w, d, x);
            && (Refused(r) <==> g.Some?) && (g.Some? ==> next == w && r == g.value)
            && (g.None? ==>
                  var f := FindFile(w.docs, d.artifactId);
                  && f.Some? && f.value in w.docs && next.docs == w.docs[f.value := FrozenFile(w.docs[f.value], d, x.today)]
                  && StatusOf(w.docs[f.value]).Some? && HashOf(w.docs[f.value]) == d.contentHash
                  && !d.autoFreezeAttempted && Strip(d.decidedBy) != "" && (d.outcome == APPROVE || d.outcome == APPROVE_WITH_CONDITIONS))
  {
    hide FindFile, HashOf, FrozenFile, FrozenText, StatusOf, ReadStateText, WriteStateText, OwnerOf, Strip;
  }

  /** Which decisions are refused, why, and that a refusal writes nothing: one attempted automatically or by nobody, one
      that does not approve, one that names no file, one whose hash is not the file's, one whose record or journal is
      missing, one whose file has no status row. */
  lemma Refusals(w: World, d: Decision, x: Targets)
    ensures d.autoFreezeAttempted || Strip(d.decidedBy) == "" ==> ApplyFreeze(w, d, x) == (w, Unauthorized)
    ensures !d.autoFreezeAttempted && Strip(d.decidedBy) != "" && d.outcome != APPROVE && d.outcome != APPROVE_WITH_CONDITIONS ==>
              ApplyFreeze(w, d, x) == (w, NotApproved)
    ensures !d.autoFreezeAttempted && Strip(d.decidedBy) != "" && (d.outcome == APPROVE || d.outcome == APPROVE_WITH_CONDITIONS) ==>
              var f, r := FindFile(w.docs, d.artifactId), ApplyFreeze(w, d, x);
              if f.None? || f.value !in w.docs then r == (w, NotFound)
              else if LineEndings.HashArtifactContent(ReadText(w.docs[f.value])) != d.contentHash then r == (w, HashMismatch)
              else if (x.er && w.er.None?) || (x.journal && w.journal.None?) then r == (w, StateError)
              else if ReadCell(ReadText(w.docs[f.value]), Exact("Status")).None? then r == (w, NoStatusCell)
              else !Refused(r.1)
  {
    hide FindFile, FrozenFile, FrozenText, ReadCell, ReadStateText, WriteStateText, OwnerOf, Strip, ReadText;
  }

  /** What an applied freeze writes: status FROZEN and the provenance in the artifact, one more and the time in the
      record, one entry in the journal. The owner is the one named, or else the approver. */
  lemma AppliedWrites(w: World, d: Decision, x: Targets)
    requires ApplyFreeze(w, d, x).1.Applied?
    ensures FindFile(w.docs, d.artifactId).Some? && FindFile(w.docs, d.artifactId).value in w.docs
    ensures var (next, r) := ApplyFreeze(w, d, x); var f := FindFile(w.docs, d.artifactId).value;
            var owner := if d.owner.Some? && Strip(d.owner.value) != "" then Strip(d.owner.value) else d.decidedBy;
            && r.owner == owner && f in next.docs && next.docs == w.docs[f := next.docs[f]]
            && Upsert(ReadText(WriteCell(ReadText(w.docs[f]), Exact("Status"), "FROZEN")),
                      [Entry("Owner", owner), Entry("Frozen By", d.decidedBy), Entry("Frozen Date", x.today)]) == Updated(next.docs[f])
    ensures var (next, r) := ApplyFreeze(w, d, x);
            if x.er then
              w.er.Some? && var s := ReadStateText(ReadText(w.er.value));
              && s.Some? && r.frozenCount == Some(s.value.frozenCount + 1) && next.er.Some?
              && next.er == WriteStateText(ReadText(w.er.value), s.value.(frozenCount := s.value.frozenCount + 1, lastUpdated := x.now))
            else r.frozenCount == None && next.er == w.er
    ensures var next := ApplyFreeze(w, d, x).0;
            if x.journal then
              w.journal.Some? && next.journal == Some(w.journal.value + [JournalEntry(d.artifactId, d.outcome, d.decidedBy, d.contentHash)])
            else next.journal == w.journal
  {
    hide FindFile, HashOf, StatusOf, ReadStateText, WriteStateText, Upsert, ReadText, WriteCell, Strip;
    NoOwnerIsBlank(d);
  }

  lemma NoOwnerIsBlank(d: Decision)
    ensures OwnerOf(d) == if d.owner.Some? && Strip(d.owner.value) != "" then Strip(d.owner.value) else d.decidedBy
  {
    hide Strip;
    StripAllSpace("");
  }

  /** The entry a step makes: that of a freeze applied with the journal given. */
  ghost function EntryOf(w: World, s: Step): seq<JournalEntry> {
    if s.FreezeStep? && s.x.journal && ApplyFreeze(w, s.d, s.x).1.Applied?
    then [JournalEntry(s.d.artifactId, s.d.outcome, s.d.decidedBy, s.d.contentHash)] else []
  }

  lemma JournalStep(S: Setup, w: World, s: Step)
    ensures Next(S, w, s).journal == if w.journal.Some? then Some(w.journal.value + EntryOf(w, s)) else None
    ensures w.journal.None? ==> EntryOf(w, s) == []
  {
    hide FindFile, HashOf, StatusOf, ReadStateText, WriteStateText, Upsert, ReadText, WithStatus, Strip, OwnerOf, IsFrozen, MissingUpstream,
         PersistedText, ArtifactIdFor, FileFor;
    if w.journal.Some? { assert w.journal.value + [] == w.journal.value; }
  }

  /** The entries of the freezes that the run applied with the journal given, oldest first. */
  ghost function Journalled(S: Setup, w: World, steps: seq<Step>): seq<JournalEntry> {
    if steps == [] then [] else
      var front := steps[..|steps| - 1];
      Journalled(S, w, front) + EntryOf(Execute(S, w, front), steps[|steps| - 1])
  }

  /** Over any run the journal grows by exactly the freezes applied with it, in order. */
  lemma {:induction false} JournalIsFreezes(S: Setup, w: World, steps: seq<Step>)
    ensures Execute(S, w, steps).journal == if w.journal.Some? then Some(w.journal.value + Journalled(S, w, steps)) else None
  {
    hide Next, ApplyFreeze, EntryOf;
    if steps == [] {
      if w.journal.Some? { assert w.journal.value + [] == w.journal.value; }
    } else {
      var front := steps[..|steps| - 1];
      JournalIsFreezes(S, w, front);
      JournalStep(S, Execute(S, w, front), steps[|steps| - 1]);
      if w.journal.Some? {
        var e := EntryOf(Execute(S, w, front), steps[|steps| - 1]);
        assert w.journal.value + (Journalled(S, w, front) + e) == (w.journal.value + Journalled(S, w, front)) + e;
      }
    }
  }

  lemma FreezeKeepsInv(S: Setup, w: World, d: Decision, x: Targets)
    requires Inv(S, w.docs) && GoodStep(S, FreezeStep(d, x))
    ensures Inv(S, ApplyFreeze(w, d, x).0.docs)
    ensures Guard(w, d, x).None? ==>
              FindFile(w.docs, d.artifactId).Some? && FindFile(w.docs, d.artifactId).value in w.docs
              && StatusOf(FrozenFile(w.docs[FindFile(w.docs, d.artifactId).value], d, x.today)) == Some(FROZEN)
  {
    hide GoodType, OkText, IdOf, StatusOf, FileFor, ArtifactIdFor, FindFile, FrozenFile, Inv, ApplyFreeze, Guard, Fit, OwnerOf;
    FreezeEffect(w, d, x);
    if Guard(w, d, x).None? {
      var f := FindFile(w.docs, d.artifactId).value;
      var t := FoundHolds(S, w.docs, d.artifactId);
      FrozenTextOk(w.docs[f], d, x.today);
      FileStep(S, w.docs, f, t, FrozenFile(w.docs[f], d, x.today));
    }
  }

  /** A mark changes nothing unless it finds the file; then it writes the status. */
  lemma MarkEffect(w: World, id: string, status: ArtifactStatus)
    ensures var (next, r) := MarkStatus(w, id, status); var f := FindFile(w.docs, id);
            && (r != Marked ==> next == w)
            && (r == Marked ==> && (status == HALTED || status == FAULTED) && f.Some? && f.value in w.docs && StatusOf(w.docs[f.value]).Some?
                                && next == w.(docs := w.docs[f.value := WithStatus(w.docs[f.value], status)]))
  {
    hide FindFile, StatusOf, WithStatus;
  }

  lemma MarkKeepsInv(S: Setup, w: World, id: string, status: ArtifactStatus)
    requires Inv(S, w.docs)
    ensures Inv(S, Next(S, w, MarkStep(id, status)).docs)
    ensures var next := Next(S, w, MarkStep(id, status)).docs;
            forall f :: f in next ==> (f in w.docs && next[f] == w.docs[f]) || StatusOf(next[f]) == Some(HALTED) || StatusOf(next[f]) == Some(FAULTED)
  {
    hide GoodType, OkText, IdOf, StatusOf, FileFor, ArtifactIdFor, FindFile, WithStatus, Inv, MarkStatus;
    MarkEffect(w, id, status);
    if MarkStatus(w, id, status).1 == Marked {
      var f := FindFile(w.docs, id).value;
      var t := FoundHolds(S, w.docs, id);
      StatusTextOk(w.docs[f], status);
      FileStep(S, w.docs, f, t, WithStatus(w.docs[f], status));
    }
  }

  lemma StepKeepsInv(S: Setup, w: World, s: Step)
    requires Inv(S, w.docs) && GoodStep(S, s)
    ensures Inv(S, Next(S, w, s).docs)
  {
    hide GoodType, Inv, Fit, OkText, RunArtifact, ApplyFreeze, MarkStatus;
    match s
    case RunStep(t, g) => RunKeepsInv(S, w, t, g);
    case FreezeStep(d, x) => FreezeKeepsInv(S, w, d, x);
    case MarkStep(id, status) => MarkKeepsInv(S, w, id, status);
  }

  lemma {:induction false} RunsKeepInv(S: Setup, w: World, steps: seq<Step>)
    requires Inv(S, w.docs) && GoodRun(S, steps)
    ensures Inv(S, Execute(S, w, steps).docs)
  {
    hide Inv, GoodStep, Next;
    if steps != [] {
      RunsKeepInv(S, w, steps[..|steps| - 1]);
      StepKeepsInv(S, Execute(S, w, steps[..|steps| - 1]), steps[|steps| - 1]);
    }
  }

  // ---- upstream closure ----

  /** Types in the table and in its dependency lists are proper types. */
  ghost predicate GoodTable(S: Setup) {
    forall t :: t in S.deps ==> GoodType(S, t) && forall u :: u in S.deps[t] ==> GoodType(S, u)
  }

  ghost predicate Closed(S: Setup, docs: Docs) {
    forall t, u :: GoodType(S, t) && OnDisk(docs, t) && u in DepsOf(S, t) ==> FrozenNow(docs, u)
  }

  lemma PromotionCheck(S: Setup, docs: Docs, t: string)
    requires Inv(S, docs) && GoodTable(S) && MissingUpstream(S, docs, t) == []
    ensures forall u :: u in DepsOf(S, t) ==> FrozenNow(docs, u)
  {
    hide GoodType, Inv, FrozenNow, Statuses, FrozenTypes;
    NothingMissing(DepsOf(S, t), FrozenTypes(Statuses(docs)));
    forall u | u in DepsOf(S, t) ensures FrozenNow(docs, u) {
      FrozenTypesAre(S, docs, u);
    }
  }

  lemma {:induction false} MissingAre(required: seq<string>, frozen: set<string>, u: string)
    ensures u in Missing(required, frozen) <==> u in required && u !in frozen
  {
    if required != [] { MissingAre(required[1..], frozen, u); }
  }

  /** What a run of a type in such a directory does: nothing when the type is frozen, nothing but name the required types
      that are not frozen when there are any, else what the generation leads to; only a converged one is written. */
  lemma RunDecides(S: Setup, w: World, t: string, g: Generation, u: string)
    requires Inv(S, w.docs) && GoodTable(S) && GoodType(S, t)
    ensures var (next, r) := RunArtifact(S, w, t, g);
            if FrozenNow(w.docs, t) then next == w && r == AlreadyFrozen
            else if exists v :: v in DepsOf(S, t) && !FrozenNow(w.docs, v) then
              next == w && r.UpstreamNotFrozen? && (u in r.missing <==> u in DepsOf(S, t) && !FrozenNow(w.docs, u))
            else match g
              case NoKitSpec => next == w && r == NoSpecError
              case Escalated => next == w && r == EscalationNeeded
              case Converged(_) => r == ConvergedPending || (r == BlockUnwritable && next == w)
  {
    hide GoodType, Inv, FrozenNow, Statuses, FrozenTypes, Missing, PersistedText, IsFrozen, FileFor, ArtifactIdFor;
    FrozenIs(S, w.docs, t);
    var missing := MissingUpstream(S, w.docs, t);
    forall v ensures v in missing <==> v in DepsOf(S, t) && !FrozenNow(w.docs, v) {
      MissingAre(DepsOf(S, t), FrozenTypes(Statuses(w.docs)), v);
      if v in DepsOf(S, t) { FrozenTypesAre(S, w.docs, v); }
    }
    NothingMissing(DepsOf(S, t), FrozenTypes(Statuses(w.docs)));
    if missing != [] { assert missing[0] in missing; }
  }

  lemma RunKeepsClosed(S: Setup, w: World, t: string, g: Generation)
    requires Inv(S, w.docs) && GoodTable(S) && Closed(S, w.docs) && GoodType(S, t) && (g.Converged? ==> OkText(g.content))
    ensures Closed(S, RunArtifact(S, w, t, g).0.docs)
  {
    hide GoodType, Inv, OkText, StatusOf, RunArtifact, MissingUpstream, PersistedText, IsFrozen, GoodTable, FileFor;
    RunEffect(S, w, t, g);
    if RunArtifact(S, w, t, g).1 == ConvergedPending {
      PromotionCheck(S, w.docs, t);
      FrozenIs(S, w.docs, t);
      var next := w.docs[FileFor(t) := PersistedText(t, ArtifactIdFor(S, t), g.content).text];
      forall v, u | GoodType(S, v) && OnDisk(next, v) && u in DepsOf(S, v) ensures FrozenNow(next, u) {
        if FileFor(v) == FileFor(t) { FileIsOwn(S, v, t); } else { assert OnDisk(w.docs, v); }
        assert FrozenNow(w.docs, u);
      }
    }
  }

  lemma FreezeKeepsClosed(S: Setup, w: World, d: Decision, x: Targets)
    requires Inv(S, w.docs) && Closed(S, w.docs) && GoodStep(S, FreezeStep(d, x))
    ensures Closed(S, ApplyFreeze(w, d, x).0.docs)
  {
    hide GoodType, Inv, StatusOf, ApplyFreeze, Guard, FileFor, FindFile, FrozenFile, Fit, OwnerOf, DepsOf;
    FreezeEffect(w, d, x);
    FreezeKeepsInv(S, w, d, x);
    var next := ApplyFreeze(w, d, x).0.docs;
    forall v, u | GoodType(S, v) && OnDisk(next, v) && u in DepsOf(S, v) ensures FrozenNow(next, u) {
      assert OnDisk(w.docs, v);
      assert FrozenNow(w.docs, u);
    }
  }

  lemma {:induction false} RunsKeepClosed(S: Setup, w: World, steps: seq<Step>)
    requires Inv(S, w.docs) && GoodTable(S) && Closed(S, w.docs) && GoodRun(S, steps) && Unmarked(steps)
    ensures Closed(S, Execute(S, w, steps).docs)
  {
    hide Inv, Closed, GoodTable, GoodType, Fit, OkText, RunArtifact, ApplyFreeze, MarkStatus, RecordFit;
    if steps != [] {
      var front, last := steps[..|steps| - 1], steps[|steps| - 1];
      RunsKeepClosed(S, w, front);
      RunsKeepInv(S, w, front);
      var v := Execute(S, w, front);
      match last
      case RunStep(t, g) => RunKeepsClosed(S, v, t, g);
      case FreezeStep(d, x) => FreezeKeepsClosed(S, v, d, x);
    }
  }

  /** A chain of dependencies: each type needs the next one. */
  predicate Chain(S: Setup, path: seq<string>) {
    |path| >= 2 && forall i :: 0 <= i < |path| - 1 ==> path[i + 1] in DepsOf(S, path[i])
  }

  /** In every state reached without mark-status, an artifact on disk has everything upstream of it,
      however far, frozen. */
  lemma {:induction false} UpstreamClosure(S: Setup, w: World, steps: seq<Step>, path: seq<string>)
    requires Fresh(w) && GoodTable(S) && GoodRun(S, steps) && Unmarked(steps)
    requires Chain(S, path) && GoodType(S, path[0]) && OnDisk(Execute(S, w, steps).docs, path[0])
    ensures FrozenNow(Execute(S, w, steps).docs, path[|path| - 1])
    decreases |path|
  {
    hide GoodType, GoodStep, Execute, DepsOf, FileFor, StatusOf;
    RunsKeepClosed(S, w, steps);
    var docs := Execute(S, w, steps).docs;
    if |path| > 2 {
      var front := path[..|path| - 1];
      UpstreamClosure(S, w, steps, front);
      var u := front[|front| - 1];
      GoodUpstream(S, path, |path| - 2);
      assert path[|path| - 1] in DepsOf(S, u);
    }
  }

  lemma {:induction false} GoodUpstream(S: Setup, path: seq<string>, i: nat)
    requires GoodTable(S) && Chain(S, path) && i < |path| && GoodType(S, path[0])
    ensures GoodType(S, path[i])
  {
    hide GoodType;
    if i > 0 { assert path[i] in DepsOf(S, path[i - 1]); }
  }

  // ---- provenance and immutability ----

  /** Step `i` of the run applied an approving, authorised decision to file `f`, on the text the decision
      names, and `now` is the file as that freeze left it. */
  ghost predicate FrozenAt(S: Setup, w: World, steps: seq<Step>, f: string, now: string, i: nat) {
    && i < |steps| && steps[i].FreezeStep?
    && var before := Execute(S, w, steps[..i]);
       var d := steps[i].d;
       && f in before.docs && FindFile(before.docs, d.artifactId) == Some(f)
       && !d.autoFreezeAttempted && Strip(d.decidedBy) != "" && (d.outcome == APPROVE || d.outcome == APPROVE_WITH_CONDITIONS)
       && HashOf(before.docs[f]) == d.contentHash
       && Refused(ApplyFreeze(before, d, steps[i].x).1) == false
       && now == FrozenFile(before.docs[f], d, steps[i].x.today)
  }

  lemma FrozenAtLater(S: Setup, w: World, steps: seq<Step>, f: string, now: string, i: nat)
    requires steps != [] && FrozenAt(S, w, steps[..|steps| - 1], f, now, i)
    ensures FrozenAt(S, w, steps, f, now, i)
  {
    hide Execute, FindFile, HashOf, FrozenFile, ApplyFreeze;
    assert steps[..|steps| - 1][..i] == steps[..i];
  }

  lemma FrozenByLast(S: Setup, w: World, steps: seq<Step>, f: string)
    requires steps != [] && steps[|steps| - 1].FreezeStep?
    requires var v := Execute(S, w, steps[..|steps| - 1]); var s := steps[|steps| - 1];
             Guard(v, s.d, s.x).None? && FindFile(v.docs, s.d.artifactId) == Some(f)
    ensures f in Execute(S, w, steps).docs && FrozenAt(S, w, steps, f, Execute(S, w, steps).docs[f], |steps| - 1)
  {
    hide FindFile, HashOf, FrozenFile, ApplyFreeze, Guard;
    var v, s := Execute(S, w, steps[..|steps| - 1]), steps[|steps| - 1];
    FreezeEffect(v, s.d, s.x);
  }

  /** A file that reads FROZEN was frozen by such a step, and no later step has touched it. */
  lemma {:induction false} Provenance(S: Setup, w: World, steps: seq<Step>, f: string) returns (i: nat)
    requires Fresh(w) && GoodRun(S, steps)
    requires f in Execute(S, w, steps).docs && StatusOf(Execute(S, w, steps).docs[f]) == Some(FROZEN)
    ensures FrozenAt(S, w, steps, f, Execute(S, w, steps).docs[f], i)
  {
    hide Inv, GoodType, Fit, OkText, StatusOf, RunArtifact, ApplyFreeze, MarkStatus, Guard, FrozenAt, FindFile, FrozenFile, PersistedText, FileFor, ArtifactIdFor, IsFrozen, MissingUpstream, OwnerOf, Clean;
    if steps != [] {
      var front, last := steps[..|steps| - 1], steps[|steps| - 1];
      var v, e := Execute(S, w, front), Execute(S, w, steps);
      NewInv(S, w);
      RunsKeepInv(S, w, front);
      if last.FreezeStep? && Guard(v, last.d, last.x).None? && FindFile(v.docs, last.d.artifactId) == Some(f) {
        FrozenByLast(S, w, steps, f);
        i := |steps| - 1;
      } else {
        match last {
          case RunStep(t, g) => PendingIsNotFrozen(S, v, t, g, f);
          case FreezeStep(d, x) => FreezeEffect(v, d, x);
          case MarkStep(id, status) => MarkKeepsInv(S, v, id, status);
        }
        i := Provenance(S, w, front, f);
        FrozenAtLater(S, w, steps, f, e.docs[f], i);
      }
    }
  }

  lemma NewInv(S: Setup, w: World)
    requires Fresh(w)
    ensures Inv(S, w.docs)
  {
  }

  lemma PendingIsNotFrozen(S: Setup, w: World, t: string, g: Generation, f: string)
    requires Inv(S, w.docs) && GoodType(S, t) && (g.Converged? ==> OkText(g.content))
    requires f in RunArtifact(S, w, t, g).0.docs && StatusOf(RunArtifact(S, w, t, g).0.docs[f]) == Some(FROZEN)
    ensures f in w.docs && RunArtifact(S, w, t, g).0.docs[f] == w.docs[f]
  {
    hide GoodType, Inv, OkText, StatusOf, RunArtifact, MissingUpstream, PersistedText, IsFrozen, FileFor, ArtifactIdFor, Fit, Clean;
    RunEffect(S, w, t, g);
    if RunArtifact(S, w, t, g).1 == ConvergedPending {
      TypeIsClean(S, t);
      IdFits(S, t);
      PendingTextOk(t, ArtifactIdFor(S, t), g.content);
    }
  }

  /** A frozen file carries the tuple the schema demands, as the decision that froze it gave it, unless that
      freeze was blocked: then it carries what it carried before. */
  lemma FrozenCarriesProvenance(S: Setup, w: World, steps: seq<Step>, f: string) returns (i: nat)
    requires Fresh(w) && GoodRun(S, steps)
    requires f in Execute(S, w, steps).docs && StatusOf(Execute(S, w, steps).docs[f]) == Some(FROZEN)
    ensures i < |steps| && steps[i].FreezeStep? && f in Execute(S, w, steps[..i]).docs
    ensures var before, now := Execute(S, w, steps[..i]).docs[f], Execute(S, w, steps).docs[f]; var s := steps[i];
            && now == FrozenFile(before, s.d, s.x.today)
            && (if ProvenanceBlocked(before, s.d, s.x.today) then SameProvenance(before, now) else Provided(now, s.d, s.x.today))
  {
    hide Execute, StatusOf, FrozenFile, FindFile, HashOf, ApplyFreeze, Inv, GoodStep, IdOf, OkText, OwnerOf, Provided, SameProvenance, ProvenanceBlocked;
    i := Provenance(S, w, steps, f);
    NewInv(S, w);
    RunsKeepInv(S, w, steps[..i]);
    ProvidedBy(S, Execute(S, w, steps[..i]).docs, f, steps[i]);
  }

  lemma ProvidedBy(S: Setup, docs: Docs, f: string, s: Step)
    requires Inv(S, docs) && GoodStep(S, s) && s.FreezeStep? && f in docs && FindFile(docs, s.d.artifactId) == Some(f)
    ensures var now := FrozenFile(docs[f], s.d, s.x.today);
            if ProvenanceBlocked(docs[f], s.d, s.x.today) then SameProvenance(docs[f], now) else Provided(now, s.d, s.x.today)
  {
    hide StatusOf, FrozenFile, FrozenText, FindFile, Inv, IdOf, OkText, OwnerOf, Writable, RecordFit, GoodType, FileFor, ArtifactIdFor, Provided, SameProvenance, ProvenanceBlocked;
    var t := FoundHolds(S, docs, s.d.artifactId);
    FrozenTextOk(docs[f], s.d, s.x.today);
  }

  /** So a frozen file carries the tuple its decision gave exactly when that freeze was not blocked, or the
      file happened to carry it already. */
  lemma ProvidedIff(S: Setup, docs: Docs, f: string, s: Step)
    requires Inv(S, docs) && GoodStep(S, s) && s.FreezeStep? && f in docs && FindFile(docs, s.d.artifactId) == Some(f)
    ensures Provided(FrozenFile(docs[f], s.d, s.x.today), s.d, s.x.today)
       <==> !ProvenanceBlocked(docs[f], s.d, s.x.today) || Provided(docs[f], s.d, s.x.today)
  {
    hide StatusOf, FrozenFile, FindFile, Inv, IdOf, OkText, OwnerOf, GoodStep, ReadsAs, ProvenanceBlocked;
    ProvidedBy(S, docs, f, s);
    if !ProvenanceBlocked(docs[f], s.d, s.x.today) {
      assert Provided(FrozenFile(docs[f], s.d, s.x.today), s.d, s.x.today);
    } else {
      assert SameProvenance(docs[f], FrozenFile(docs[f], s.d, s.x.today));
    }
  }

  /** In a reachable directory a freeze past every guard raises after the artifact reads FROZEN, with nothing of the
      provenance, the record or the journal written, exactly when a provenance row that the file has is to get
      a value that is no template. */
  lemma ProvenanceLostIff(S: Setup, w: World, d: Decision, x: Targets)
    requires Inv(S, w.docs) && GoodStep(S, FreezeStep(d, x)) && Guard(w, d, x).None?
    ensures var f := FindFile(w.docs, d.artifactId); var (next, r) := ApplyFreeze(w, d, x);
            && f.Some? && f.value in w.docs
            && (r == ProvenanceUnwritable <==> ProvenanceBlocked(w.docs[f.value], d, x.today))
            && (r == ProvenanceUnwritable ==> next == w.(docs := w.docs[f.value := WithStatus(w.docs[f.value], FROZEN)])
                                              && StatusOf(next.docs[f.value]) == Some(FROZEN) && SameProvenance(w.docs[f.value], next.docs[f.value]))
  {
    hide StatusOf, FrozenText, WithStatus, FindFile, Inv, IdOf, OkText, OwnerOf, Writable, RecordFit, GoodType, FileFor, ArtifactIdFor, SameProvenance,
         ProvenanceBlocked, Provided, HashOf, ReadText, ReadStateText, WriteStateText, CountUp;
    var f := FindFile(w.docs, d.artifactId).value;
    var t := FoundHolds(S, w.docs, d.artifactId);
    FrozenTextOk(w.docs[f], d, x.today);
  }

  // ---- what freezing protects ----

  /** The one step that can unfreeze a type's artifact: a mark that names it. */
  predicate Marks(S: Setup, s: Step, t: string) {
    s.MarkStep? && s.id == ArtifactIdFor(S, t) && (s.status == HALTED || s.status == FAULTED)
  }

  lemma StepKeepsFrozen(S: Setup, w: World, s: Step, t: string)
    requires Inv(S, w.docs) && GoodStep(S, s) && GoodType(S, t) && !Marks(S, s, t) && FrozenNow(w.docs, t)
    ensures FrozenNow(Next(S, w, s).docs, t)
    ensures !s.FreezeStep? ==> Next(S, w, s).docs[FileFor(t)] == w.docs[FileFor(t)]
  {
    hide GoodType, Inv, OkText, StatusOf, RunArtifact, ApplyFreeze, Guard, FindFile, FrozenFile, MissingUpstream, PersistedText, IsFrozen,
         FileFor, ArtifactIdFor, Fit, OwnerOf, MarkStatus, RecordFit;
    match s
    case MarkStep(id, status) => MarkOfAnother(S, w, id, status, t);
    case RunStep(u, g) =>
      RunEffect(S, w, u, g);
      FrozenIs(S, w.docs, t);
      if FileFor(u) == FileFor(t) { FileIsOwn(S, u, t); }
    case FreezeStep(d, x) =>
      FreezeEffect(w, d, x);
      FreezeKeepsInv(S, w, d, x);
  }

  /** A mark that does not name the artifact leaves its file alone. */
  lemma MarkOfAnother(S: Setup, w: World, id: string, status: ArtifactStatus, t: string)
    requires Inv(S, w.docs) && GoodType(S, t) && FrozenNow(w.docs, t) && !Marks(S, MarkStep(id, status), t)
    ensures var next := MarkStatus(w, id, status).0; OnDisk(next.docs, t) && next.docs[FileFor(t)] == w.docs[FileFor(t)]
  {
    hide GoodType, Inv, OkText, StatusOf, IdOf, FindFile, WithStatus, FileFor, ArtifactIdFor, Lower;
    HoldsOwn(S, w.docs, t);
    if (status == HALTED || status == FAULTED) && FindFile(w.docs, id).Some? {
      var u := FoundHolds(S, w.docs, id);
    }
  }

  /** A frozen artifact is frozen after a step exactly when the step is no mark that names it. */
  lemma StaysFrozenIff(S: Setup, w: World, s: Step, t: string)
    requires Inv(S, w.docs) && GoodStep(S, s) && GoodType(S, t) && FrozenNow(w.docs, t)
    ensures FrozenNow(Next(S, w, s).docs, t) <==> !Marks(S, s, t)
  {
    hide GoodType, Inv, FrozenNow, GoodStep, MarkStatus, RunArtifact, ApplyFreeze, ArtifactIdFor;
    if Marks(S, s, t) { MarkThaws(S, w, t, s.status); } else { StepKeepsFrozen(S, w, s, t); }
  }

  predicate NeverMarked(S: Setup, steps: seq<Step>, t: string) { forall i :: 0 <= i < |steps| ==> !Marks(S, steps[i], t) }

  lemma LastStep(S: Setup, w: World, steps: seq<Step>)
    requires GoodRun(S, steps) && steps != []
    ensures var front, last := steps[..|steps| - 1], steps[|steps| - 1];
            GoodRun(S, front) && GoodStep(S, last) && Execute(S, w, steps) == Next(S, Execute(S, w, front), last)
  {
    hide GoodStep, Next;
  }

  lemma LastMark(S: Setup, steps: seq<Step>, t: string)
    requires steps != []
    ensures NeverMarked(S, steps, t) <==> NeverMarked(S, steps[..|steps| - 1], t) && !Marks(S, steps[|steps| - 1], t)
  {
    hide Marks;
    var front := steps[..|steps| - 1];
    assert steps == front + [steps[|steps| - 1]];
  }

  lemma {:induction false} FrozenStays(S: Setup, w: World, steps: seq<Step>, t: string)
    requires Inv(S, w.docs) && GoodRun(S, steps) && NeverMarked(S, steps, t) && GoodType(S, t) && FrozenNow(w.docs, t)
    ensures FrozenNow(Execute(S, w, steps).docs, t)
  {
    if steps != [] {
      hide GoodType, Inv, FrozenNow, Next, GoodStep, GoodRun, NeverMarked, Marks, Execute;
      var front, last := steps[..|steps| - 1], steps[|steps| - 1];
      LastStep(S, w, steps);
      LastMark(S, steps, t);
      FrozenStays(S, w, front, t);
      RunsKeepInv(S, w, front);
      StepKeepsFrozen(S, Execute(S, w, front), last, t);
    }
  }

  ghost predicate AlwaysFrozen(S: Setup, w: World, steps: seq<Step>, t: string) {
    forall n :: 0 <= n <= |steps| ==> FrozenNow(Execute(S, w, steps[..n]).docs, t)
  }

  /** Over any run a frozen artifact is frozen at every moment if and only if no step marks it. */
  lemma {:induction false} AlwaysFrozenIff(S: Setup, w: World, steps: seq<Step>, t: string)
    requires Inv(S, w.docs) && GoodRun(S, steps) && GoodType(S, t) && FrozenNow(w.docs, t)
    ensures AlwaysFrozen(S, w, steps, t) <==> NeverMarked(S, steps, t)
  {
    hide GoodType, Inv, FrozenNow, Next, GoodStep, GoodRun, NeverMarked, Marks, Execute, AlwaysFrozen;
    if steps == [] {
      NoSteps(S, w, t);
    } else {
      var front, last := steps[..|steps| - 1], steps[|steps| - 1];
      LastStep(S, w, steps);
      LastMark(S, steps, t);
      AlwaysFrozenIff(S, w, front, t);
      LastMoment(S, w, steps, t);
      RunsKeepInv(S, w, front);
      if AlwaysFrozen(S, w, front, t) {
        LastOf(S, w, front, t);
        StaysFrozenIff(S, Execute(S, w, front), last, t);
      }
    }
  }

  lemma NoSteps(S: Setup, w: World, t: string)
    requires FrozenNow(w.docs, t)
    ensures AlwaysFrozen(S, w, [], t) && NeverMarked(S, [], t)
  {
    var none: seq<Step> := [];
    assert forall n :: 0 <= n <= |none| ==> none[..n] == [];
  }

  lemma LastOf(S: Setup, w: World, steps: seq<Step>, t: string)
    requires AlwaysFrozen(S, w, steps, t)
    ensures FrozenNow(Execute(S, w, steps).docs, t)
  {
    hide Execute, FrozenNow;
    assert steps[..|steps|] == steps;
  }

  lemma LastMoment(S: Setup, w: World, steps: seq<Step>, t: string)
    requires steps != []
    ensures AlwaysFrozen(S, w, steps, t) <==>
              AlwaysFrozen(S, w, steps[..|steps| - 1], t) && FrozenNow(Execute(S, w, steps).docs, t)
  {
    hide Execute, FrozenNow;
    var front := steps[..|steps| - 1];
    assert forall n :: 0 <= n <= |front| ==> front[..n] == steps[..n];
    assert steps[..|steps|] == steps;
    if AlwaysFrozen(S, w, steps, t) {
      forall n | 0 <= n <= |front| ensures FrozenNow(Execute(S, w, front[..n]).docs, t) {
        assert FrozenNow(Execute(S, w, steps[..n]).docs, t);
      }
    }
    if AlwaysFrozen(S, w, front, t) && FrozenNow(Execute(S, w, steps).docs, t) {
      forall n | 0 <= n <= |steps| ensures FrozenNow(Execute(S, w, steps[..n]).docs, t) {
        if n < |steps| { assert FrozenNow(Execute(S, w, front[..n]).docs, t); }
      }
    }
  }

  /** While nobody marks it, no step of a run but another decision that matches its text may change a frozen
      artifact's file. */
  lemma FrozenSurvivesRuns(S: Setup, w: World, steps: seq<Step>, t: string, i: nat)
    requires Inv(S, w.docs) && GoodRun(S, steps) && GoodType(S, t) && FrozenNow(w.docs, t)
    requires i < |steps| && NeverMarked(S, steps[..i + 1], t)
    ensures var before, after := Execute(S, w, steps[..i]).docs, Execute(S, w, steps[..i + 1]).docs;
            && FrozenNow(before, t) && FrozenNow(after, t)
            && (!steps[i].FreezeStep? ==> OnDisk(before, t) && OnDisk(after, t) && after[FileFor(t)] == before[FileFor(t)])
  {
    hide GoodType, Inv, StatusOf, Next, GoodStep, FileFor, Marks;
    FrozenStays(S, w, steps[..i], t);
    RunsKeepInv(S, w, steps[..i]);
    StepKeepsFrozen(S, Execute(S, w, steps[..i]), steps[i], t);
    assert steps[..i + 1][..i] == steps[..i] && steps[..i + 1][i] == steps[i];
  }

  // ---- what mark-status undoes ----

  /** Marking a frozen artifact unfreezes it, and no other. */
  lemma MarkThaws(S: Setup, w: World, t: string, status: ArtifactStatus)
    requires Inv(S, w.docs) && GoodType(S, t) && FrozenNow(w.docs, t) && (status == HALTED || status == FAULTED)
    ensures var (next, r) := MarkStatus(w, ArtifactIdFor(S, t), status);
            && r == Marked && Inv(S, next.docs) && OnDisk(next.docs, t) && StatusOf(next.docs[FileFor(t)]) == Some(status)
            && !FrozenNow(next.docs, t)
            && forall u :: GoodType(S, u) && u != t ==> (FrozenNow(next.docs, u) <==> FrozenNow(w.docs, u))
  {
    hide GoodType, Inv, OkText, StatusOf, IdOf, FindFile, WithStatus, FileFor, ArtifactIdFor, UniqueIds, Lower;
    var id, f := ArtifactIdFor(S, t), FileFor(t);
    InvIsUnique(S, w.docs);
    HoldsOwn(S, w.docs, t);
    FindFileIs(w.docs, id);
    OwnerOfId(S, w.docs, FindFile(w.docs, id).value, t);
    MarkKeepsInv(S, w, id, status);
    StatusTextOk(w.docs[f], status);
    forall u | GoodType(S, u) && u != t ensures FileFor(u) != f {
      if FileFor(u) == f { FileIsOwn(S, u, t); }
    }
  }

  /** So a frozen file can be lost: marked, and then generated anew. */
  lemma MarkedCanBeRewritten(S: Setup, w: World, t: string, status: ArtifactStatus, content: string)
    requires Inv(S, w.docs) && GoodTable(S) && GoodType(S, t) && FrozenNow(w.docs, t) && (status == HALTED || status == FAULTED)
    requires t !in DepsOf(S, t) && MissingUpstream(S, w.docs, t) == []
    ensures var marked := MarkStatus(w, ArtifactIdFor(S, t), status).0;
            var doc := PersistedText(t, ArtifactIdFor(S, t), content);
            && RunArtifact(S, marked, t, Converged(content))
               == (if doc.Updated? then (marked.(docs := marked.docs[FileFor(t) := doc.text]), ConvergedPending) else (marked, BlockUnwritable))
            && (OkText(content) ==> doc.Updated?)
  {
    hide GoodType, Inv, FrozenNow, MarkStatus, Statuses, FrozenTypes, PersistedText, FileFor, ArtifactIdFor, IsFrozen, OkText, Clean, Fit;
    if OkText(content) {
      TypeIsClean(S, t);
      IdFits(S, t);
      PendingTextOk(t, ArtifactIdFor(S, t), content);
    }
    var marked := MarkStatus(w, ArtifactIdFor(S, t), status).0;
    MarkThaws(S, w, t, status);
    FrozenIs(S, marked.docs, t);
    PromotionCheck(S, w.docs, t);
    NothingMissing(DepsOf(S, t), FrozenTypes(Statuses(marked.docs)));
    forall u | u in DepsOf(S, t) ensures u in FrozenTypes(Statuses(marked.docs)) {
      FrozenTypesAre(S, marked.docs, u);
    }
  }
}
