/** A freeze on any artifact text at all: prose, tables of any width, several blocks. */
module FreezeAnyText {
  import opened Text
  import LineEndings
  import opened ControlText
  import opened ControlCells
  import opened ControlDoc
  import opened DocumentControl
  import opened ArtifactStore
  import opened FreezeSteps
  import opened FreezeDocs
  import opened FreezeText
  import opened AnyTable

  /** The labels that a freeze reads and writes. */
  const LABELS: set<LabelPattern> := {ArtifactId, Exact("Status"), Exact("Owner"), Exact("Frozen By"), Exact("Frozen Date")}

  /** A value that a cell can hold, that is none of the labels, and that a substitution writes as it stands. */
  predicate Settable(v: string) { Harmless(v, LABELS) && '\\' !in v && '\r' !in v }

  // ---- no carriage return comes in ----

  predicate NoCr(s: string) { '\r' !in s }

  lemma {:induction false} JoinNoCr(cells: seq<string>)
    requires |cells| >= 1 && forall c :: c in cells ==> NoCr(c)
    ensures NoCr(Join(cells))
  {
    assert cells[0] in cells;
    if |cells| > 1 { JoinNoCr(cells[1..]); }
  }

  lemma CellsNoCr(text: string)
    requires NoCr(text)
    ensures forall c :: c in Cells(text) ==> NoCr(c)
  {
    forall c | c in Cells(text) ensures NoCr(c) {
      var i :| 0 <= i < |Cells(text)| && Cells(text)[i] == c;
      SplitPieces(text, '|', i);
    }
  }

  lemma WriteNoCr(text: string, p: LabelPattern, v: string)
    requires NoCr(text) && NoCr(v)
    ensures NoCr(WriteCell(text, p, v))
  {
    hide Names, Cells, FindFrom;
    CellsNoCr(text);
    FindIs(Cells(text), p, 1);
    if Found(Cells(text), p) {
      var x := " " + v + " ";
      var next := Cells(text)[FindFrom(Cells(text), p, 1) + 1 := x];
      assert NoCr(x) && forall c :: c in next ==> c == x || c in Cells(text);
      JoinNoCr(next);
    }
  }

  lemma {:induction false} WriteAllNoCr(text: string, es: seq<Entry>)
    requires NoCr(text) && forall e :: e in es ==> NoCr(e.title) && NoCr(e.value) && '\\' !in e.value
    ensures var r := WriteAll(text, es); r.Some? ==> NoCr(r.value.0) && forall e :: e in r.value.1 ==> e in es
    decreases |es|
  {
    hide NoCr, ReadCell, WriteRow, WriteCell;
    if es != [] {
      var e, p := es[0], Exact(es[0].title);
      assert e in es && forall x :: x in es[1..] ==> x in es;
      PlainWriteRow(text, p, e.value);
      WriteNoCr(text, p, e.value);
      if ReadCell(text, p).Some? { WriteAllNoCr(WriteCell(text, p, e.value), es[1..]); } else { WriteAllNoCr(text, es[1..]); }
    }
  }

  lemma {:induction false} RowsNoCr(es: seq<Entry>, b: string)
    requires NoCr(b) && forall e :: e in es ==> NoCr(e.title) && NoCr(e.value)
    ensures NoCr(Rows(es, b))
  {
    if es != [] {
      assert es[0] in es;
      RowsNoCr(es[1..], b);
    }
  }

  lemma UpsertNoCr(text: string, es: seq<Entry>)
    requires NoCr(text) && forall e :: e in es ==> NoCr(e.title) && NoCr(e.value) && '\\' !in e.value
    ensures Upsert(text, es).Updated? ==> NoCr(Upsert(text, es).text)
  {
    hide NoCr, HasId, WriteAll, SplitLines, InsertLines, JoinLines, RowLines, Block, Rows, Ended;
    WriteAllNoCr(text, es);
    var r := WriteAll(text, es);
    if r.Some? && r.value.1 != [] {
      var (w, m) := r.value;
      TextInserted(w, m);
      if Block(w).Some? {
        var a, b := Block(w).value.0, Block(w).value.1;
        PartsNoCr(a, b);
        RowsNoCr(m, b);
        JoinedNoCr(Ended(a), Rows(m, b));
      }
    }
  }

  lemma PartsNoCr(a: string, b: string)
    requires NoCr(a + b)
    ensures NoCr(Ended(a)) && NoCr(b)
  {
    assert forall c :: c in a || c in b ==> c in a + b;
  }

  lemma JoinedNoCr(a: string, b: string)
    requires NoCr(a) && NoCr(b)
    ensures NoCr(a + b)
  {
  }

  /** Such a text is read as it is written. */
  lemma ReadsItself(text: string)
    requires NoCr(text)
    ensures ReadText(text) == text
  {
    LineEndings.UniversalFixesCrFree(text);
  }

  lemma ReadHasNone(file: string)
    ensures NoCr(ReadText(file))
  {
    LineEndings.UniversalLeavesNoCr(file);
  }

  // ---- the labels ----

  lemma LabelsAreTitles()
    ensures forall q :: q in LABELS ==> q in TITLES && !Names("", q)
  {
    hide Lower;
    LowerAt(""); LowerAt("Status"); LowerAt("Owner"); LowerAt("Frozen By"); LowerAt("Frozen Date");
    StripAllSpace("");
  }

  lemma FitIsHarmless(v: string)
    requires Fit(v) && NoCr(v)
    ensures Settable(v)
  {
    hide Names, PlainValue, Clean;
    LabelsAreTitles();
  }

  lemma StatusIsSettable(s: ArtifactStatus)
    requires s == FROZEN || s == HALTED || s == FAULTED
    ensures Settable(StatusText(s))
  {
    hide Fit, Settable;
    FixedValues();
    assert NoCr("FROZEN") && NoCr("HALTED") && NoCr("FAULTED");
    FitIsHarmless(StatusText(s));
  }

  lemma ProvenanceLabel(title: string, value: string)
    requires (title == "Owner" || title == "Frozen By" || title == "Frozen Date") && Settable(value)
    ensures Request(Entry(title, value), LABELS) && NoCr(title)
  {
    hide Lower, NamesId, Clean, PlainValue, Harmless;
    TitlesPlain();
    TitlesDiffer();
    TitleCell(title);
    assert Names(Cell(title), ArtifactId) <==> NamesId(title);
    NotTheId(title);
    TitleNames(title, "Status"); TitleNames(title, "Owner"); TitleNames(title, "Frozen By"); TitleNames(title, "Frozen Date");
  }

  lemma TitleCell(title: string)
    requires title == "Owner" || title == "Frozen By" || title == "Frozen Date"
    ensures PlainValue(title) && BarFree(title) && NoCr(title) && Strip(Cell(title)) == title
  {
    hide Clean;
    TitlesPlain();
    OneLineValue(title);
    assert NoCr("Owner") && NoCr("Frozen By") && NoCr("Frozen Date");
  }

  lemma ProvenanceRequests(owner: string, approver: string, today: string)
    requires Settable(owner) && Settable(approver) && Settable(today)
    ensures Requests(ProvenanceEntries(owner, approver, today), LABELS)
    ensures forall e :: e in ProvenanceEntries(owner, approver, today) ==> NoCr(e.title) && NoCr(e.value) && '\\' !in e.value
  {
    hide Request, Harmless, Names;
    LabelsAreTitles();
    ProvenanceLabel("Owner", owner);
    ProvenanceLabel("Frozen By", approver);
    ProvenanceLabel("Frozen Date", today);
    assert |"Owner"| == 5 && |"Frozen By"| == 9 && |"Frozen Date"| == 11;
  }

  lemma ProvenanceAsked(owner: string, approver: string, today: string)
    requires Settable(owner) && Settable(approver) && Settable(today)
    ensures var es := ProvenanceEntries(owner, approver, today);
            && Asked(es, ArtifactId).None? && Asked(es, Exact("Status")).None?
            && Asked(es, Exact("Owner")) == Some(owner) && Asked(es, Exact("Frozen By")) == Some(approver)
            && Asked(es, Exact("Frozen Date")) == Some(today)
  {
    hide Names, Requests, Settable, Asked;
    var es := ProvenanceEntries(owner, approver, today);
    ProvenanceRequests(owner, approver, today);
    assert |"Owner"| == 5 && |"Frozen By"| == 9 && |"Frozen Date"| == 11 && |"Status"| == 6;
    assert es[1..] == [Entry("Frozen By", approver), Entry("Frozen Date", today)] && es[1..][1..] == [Entry("Frozen Date", today)];
    RequestsTail(es, LABELS);
    RequestsTail(es[1..], LABELS);
    AskedFor(es, LABELS, ArtifactId);
    AskedFor(es, LABELS, Exact("Status"));
    AskedFor(es, LABELS, Exact("Owner"));
    AskedFor(es, LABELS, Exact("Frozen By"));
    AskedFor(es[1..], LABELS, Exact("Frozen By"));
    AskedFor(es, LABELS, Exact("Frozen Date"));
    AskedFor(es[1..], LABELS, Exact("Frozen Date"));
    AskedFor(es[1..][1..], LABELS, Exact("Frozen Date"));
  }

  // ---- status and freeze ----

  /** On any file with a status row, the status written is the status read. */
  lemma StatusAnyText(file: string, s: ArtifactStatus)
    requires StatusOf(file).Some? && (s == FROZEN || s == HALTED || s == FAULTED)
    ensures StatusOf(WithStatus(file, s)) == Some(s) && ReadText(WithStatus(file, s)) == WithStatus(file, s)
  {
    hide Names, WriteCell, ReadCell, ParseStatus, Canon;
    StatusIsSettable(s);
    ReadHasNone(file);
    WriteNoCr(ReadText(file), Exact("Status"), StatusText(s));
    ReadsItself(WithStatus(file, s));
    WriteThenRead(ReadText(file), Exact("Status"), StatusText(s));
    StatusReads(s);
  }

  lemma IdIsBlock(text: string)
    requires ReadCell(text, ArtifactId).Some?
    ensures HasId(text)
  {
    hide Names;
    FindIs(Cells(text), ArtifactId, 1);
    HasIdAt(Cells(text), 1, FindFrom(Cells(text), ArtifactId, 1));
  }

  lemma {:induction false} HasIdAt(cells: seq<string>, j: nat, k: nat)
    requires 1 <= j <= k && k + 1 < |cells| && Names(cells[k], ArtifactId)
    ensures HasIdFrom(cells, j)
    decreases k - j
  {
    hide Names;
    if j < k { HasIdAt(cells, j + 1, k); }
  }

  /** The provenance rows that the file lacks once its status is written can land in its block. */
  ghost predicate RowsCanLand(file: string, d: Decision, today: string) {
    var r := WriteAll(ReadText(WithStatus(file, FROZEN)), ProvenanceEntries(OwnerOf(d), d.decidedBy, today));
    r.Some? && r.value.1 != [] ==> Landing(r.value.0, LABELS)
  }

  /** A freeze of any file, whatever its tables look like: when the rows of the five labels stand apart and
      missing ones can land, the file then reads FROZEN under the same id, with the provenance as decided. */
  lemma FrozenAnyText(file: string, d: Decision, today: string)
    requires IdOf(file).Some? && StatusOf(file).Some? && Apart(ReadText(file), LABELS)
    requires Settable(OwnerOf(d)) && Settable(d.decidedBy) && Settable(today) && RowsCanLand(file, d, today)
    ensures FrozenText(file, d, today).Updated?
    ensures var next := FrozenFile(file, d, today);
            IdOf(next) == IdOf(file) && StatusOf(next) == Some(FROZEN) && Provided(next, d, today)
  {
    hide Names, Apart, WriteCell, ReadCell, ReadText, Requests, Asked, Settable, OwnerOf, Upsert, Landing, WriteAll, ParseStatus, HasId, LABELS;
    var text, es := ReadText(file), ProvenanceEntries(OwnerOf(d), d.decidedBy, today);
    StatusAnyText(file, FROZEN);
    var t1 := WithStatus(file, FROZEN);
    StatusFirst(file);
    IdIsBlock(t1);
    ProvenanceRequests(OwnerOf(d), d.decidedBy, today);
    UpsertAnyText(t1, es, LABELS);
    ProvenanceAsked(OwnerOf(d), d.decidedBy, today);
    LabelsListed();
    ReadHasNone(file);
    StatusWritten(file);
    UpsertNoCr(t1, es);
    ReadsItself(FrozenFile(file, d, today));
  }

  lemma LabelsListed()
    ensures ArtifactId in LABELS && Exact("Status") in LABELS && Exact("Owner") in LABELS
    ensures Exact("Frozen By") in LABELS && Exact("Frozen Date") in LABELS
  {
  }

  lemma StatusWritten(file: string)
    ensures NoCr(WithStatus(file, FROZEN))
  {
    hide WriteCell;
    ReadHasNone(file);
    StatusIsSettable(FROZEN);
    WriteNoCr(ReadText(file), Exact("Status"), StatusText(FROZEN));
  }

  /** Writing the status keeps the id and leaves the labels apart. */
  lemma StatusFirst(file: string)
    requires StatusOf(file).Some? && Apart(ReadText(file), LABELS)
    ensures var t1 := WithStatus(file, FROZEN); Apart(t1, LABELS) && ReadCell(t1, ArtifactId) == IdOf(file)
  {
    hide Names, Apart, WriteCell, ReadCell, Harmless, LABELS;
    StatusIsSettable(FROZEN);
    LabelsListed();
    FoundReads(ReadText(file), Exact("Status"));
    WriteApart(ReadText(file), Exact("Status"), StatusText(FROZEN), LABELS);
  }
}
