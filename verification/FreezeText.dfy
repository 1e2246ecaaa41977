/** What the three writers do to a file's characters, in terms of the document those characters are. */
module FreezeText {
  import opened Text
  import opened Template
  import LineEndings
  import opened ControlText
  import opened ControlCells
  import opened ControlDoc
  import opened DocumentControl
  import opened ArtifactStore
  import opened FreezeSteps
  import opened FreezeDocs

  // ---- ending with a newline ----

  lemma {:induction false} EndedRows(rows: seq<Row>)
    requires rows != []
    ensures RenderRows(EndRows(rows)) == Ended(RenderRows(rows))
  {
    var last := rows[|rows| - 1];
    if |rows| == 1 {
      assert EndRows(rows) == [last.(gap := Ended(last.gap))];
      OneRow(last);
      OneRow(last.(gap := Ended(last.gap)));
      EndedAfter(RowText(last), last.gap);
    } else {
      hide RowText;
      var rest := rows[1..];
      EndedRows(rest);
      assert EndRows(rows)[1..] == EndRows(rest) && EndRows(rows)[0] == rows[0];
      RenderedEnds(rest);
      Associate(RowText(rows[0]), rows[0].gap, RenderRows(rest));
      Associate(RowText(rows[0]), rows[0].gap, Ended(RenderRows(rest)));
      EndedTail(RowText(rows[0]) + rows[0].gap, RenderRows(rest));
    }
  }

  lemma OneRow(r: Row)
    ensures RenderRows([r]) == RowText(r) + r.gap
  {
    hide RowText;
    assert [r][1..] == [] && r.gap + "" == r.gap;
  }

  lemma RenderedEnds(rows: seq<Row>)
    requires rows != []
    ensures RenderRows(rows) != ""
  {
    assert RowText(rows[0])[0] == '|';
  }

  lemma Associate(a: string, b: string, c: string)
    ensures a + (b + c) == (a + b) + c
  {
  }

  lemma EndedTail(a: string, b: string)
    requires b != ""
    ensures Ended(a + b) == a + Ended(b)
  {
    assert a + b + "\n" == a + (b + "\n");
  }

  lemma EndedAfter(row: string, gap: string)
    requires row != "" && row[|row| - 1] == '|'
    ensures Ended(row + gap) == row + Ended(gap)
  {
    if gap == "" {
      assert row + gap == row;
    } else {
      EndedTail(row, gap);
    }
  }

  lemma EndDocRendered(d: Doc)
    ensures Render(EndDoc(d)) == Ended(Render(d))
  {
    if d.rows == [] {
      assert d.pre + "" == d.pre && Ended(d.pre) + "" == Ended(d.pre);
    } else {
      EndedRows(d.rows);
      RenderedEnds(d.rows);
      EndedTail(d.pre, RenderRows(d.rows));
    }
  }

  // ---- a new block around the content ----

  lemma {:induction false} JoinedRows(a: seq<Row>, b: seq<Row>)
    ensures RenderRows(a + b) == RenderRows(a) + RenderRows(b)
  {
    if a == [] {
      assert a + b == b;
    } else {
      hide RowText;
      assert (a + b)[0] == a[0] && (a + b)[1..] == a[1..] + b;
      JoinedRows(a[1..], b);
    }
  }

  lemma {:induction false} LastGap(rows: seq<Row>, more: string)
    requires rows != []
    ensures var last := rows[|rows| - 1];
            RenderRows(rows[|rows| - 1 := last.(gap := last.gap + more)]) == RenderRows(rows) + more
  {
    var n := |rows| - 1;
    var front, last := rows[..n], rows[n];
    assert rows == front + [last] && rows[n := last.(gap := last.gap + more)] == front + [last.(gap := last.gap + more)];
    JoinedRows(front, [last]);
    JoinedRows(front, [last.(gap := last.gap + more)]);
    OneRow(last);
    OneRow(last.(gap := last.gap + more));
    hide RowText, RenderRows;
    assert RowText(last) + (last.gap + more) == RowText(last) + last.gap + more;
  }

  lemma ConsRow(r: Row, rest: seq<Row>, line: string)
    requires r.gap == "\n" && RowText(r) + "\n" == line
    ensures RenderRows([r] + rest) == line + RenderRows(rest)
  {
    hide RowText;
    assert ([r] + rest)[1..] == rest;
    Associate(RowText(r), "\n", RenderRows(rest));
  }

  lemma FieldRow()
    ensures RowText(Row(" Field ", " Value ", "\n")) + "\n" == FIELD_LINE
  {
    assert RowText(Row(" Field ", " Value ", "\n")) == "| Field | Value |";
  }

  lemma RuleRow()
    ensures RowText(Row("-------", "-------", "\n")) + "\n" == RULE_LINE
  {
    assert RowText(Row("-------", "-------", "\n")) == "|-------|-------|";
  }

  lemma PendingRow()
    ensures RowText(Row(" Status ", " FREEZE_PENDING ", "\n")) + "\n" == STATUS_LINE
  {
    assert RowText(Row(" Status ", " FREEZE_PENDING ", "\n")) == "| Status | FREEZE_PENDING |";
  }

  lemma IdRow(id: string)
    ensures RowText(Row(" Artifact ID ", Cell(id), "\n")) + "\n" == IdLine(id)
  {
    var a := "| Artifact ID |";
    assert RowText(Row(" Artifact ID ", Cell(id), "\n")) == a + (Cell(id) + "|");
    assert a + (" " + id + " " + "|") + "\n" == (a + " ") + (id + " |\n");
    assert a + " " == "| Artifact ID | ";
  }

  lemma ValidationLine(gap: string, rest: string)
    ensures RowText(Row(" Last Validation ", " PASS ", "\n\n" + gap)) + (("\n\n" + gap) + rest) == VALIDATION_LINE + ("\n" + (gap + rest))
  {
    var row := RowText(Row(" Last Validation ", " PASS ", "\n\n" + gap));
    assert row == "| Last Validation | PASS |";
    assert "\n\n" == "\n" + "\n" && row + "\n" == VALIDATION_LINE;
    assert row + ((("\n" + "\n") + gap) + rest) == (row + "\n") + ("\n" + (gap + rest));
  }

  /** The wrapped document is the literal text around the content. */
  lemma WrapRendered(t: string, id: string, content: Doc)
    ensures Render(WrapDoc(t, id, content)) == WrappedText(t, id, Render(content))
  {
    hide RowText, RenderRows;
    var a, b := Row(" Field ", " Value ", "\n"), Row("-------", "-------", "\n");
    var c, e := Row(" Artifact ID ", Cell(id), "\n"), Row(" Status ", " FREEZE_PENDING ", "\n");
    var body := Body(content);
    BodyRendered(content);
    FieldRow();
    RuleRow();
    PendingRow();
    IdRow(id);
    ConsRow(e, body, STATUS_LINE);
    ConsRow(c, [e] + body, IdLine(id));
    ConsRow(b, [c] + ([e] + body), RULE_LINE);
    ConsRow(a, [b] + ([c] + ([e] + body)), FIELD_LINE);
    assert WrapDoc(t, id, content).rows == [a] + ([b] + ([c] + ([e] + body)));
    Opening(t, RenderRows([a] + ([b] + ([c] + ([e] + body)))));
  }

  lemma Opening(t: string, rest: string)
    ensures "# " + (t + "\n\n## Document Control\n\n") + rest == "# " + (t + (HEADING + rest))
  {
  }

  /** The rows of the wrapped document after the four of the head. */
  function Body(content: Doc): seq<Row> {
    if content.rows == [] then [Row(" Last Validation ", " PASS ", "\n\n" + (content.pre + "\n"))]
    else
      var last := content.rows[|content.rows| - 1];
      [Row(" Last Validation ", " PASS ", "\n\n" + content.pre)] + content.rows[|content.rows| - 1 := last.(gap := last.gap + "\n")]
  }

  lemma BodyRendered(content: Doc)
    ensures RenderRows(Body(content)) == VALIDATION_LINE + ("\n" + (Render(content) + "\n"))
  {
    hide RowText;
    if content.rows == [] {
      ValidationLine(content.pre + "\n", "");
      OneRow(Body(content)[0]);
      assert content.pre + "" == content.pre;
      assert ("\n\n" + (content.pre + "\n")) + "" == "\n\n" + (content.pre + "\n") && (content.pre + "\n") + "" == content.pre + "\n";
    } else {
      LastGap(content.rows, "\n");
      var tail := Body(content)[1..];
      ValidationLine(content.pre, RenderRows(tail));
      Associate(content.pre, RenderRows(content.rows), "\n");
    }
  }

  // ---- reading a file that is a document's text ----

  lemma {:induction false} RowsNoCr(rows: seq<Row>, T: set<LabelPattern>)
    requires RowsOk(rows, T)
    ensures '\r' !in RenderRows(rows)
  {
    hide Names, Untitled, LineEnd, AfterLine;
    if rows != [] {
      assert RowOk(rows[0], T);
      assert forall i :: 0 <= i < |rows[1..]| ==> rows[1..][i] == rows[i + 1];
      RowsNoCr(rows[1..], T);
      assert IsExoticBreak('\r');
    }
  }

  /** Reading gives such a text back as it is. */
  lemma ReadBack(d: Doc, T: set<LabelPattern>)
    requires WellFormed(d, T)
    ensures ReadText(Render(d)) == Render(d)
  {
    hide Names, Untitled, RowsOk, RenderRows;
    RowsNoCr(d.rows, T);
    assert IsExoticBreak('\r');
    LineEndings.UniversalFixesCrFree(Render(d));
  }

  function ReadsAs(file: string, title: string): Option<string> { ReadCell(ReadText(file), Exact(title)) }

  lemma TitleReads(d: Doc, title: string)
    requires Ok(d) && Exact(title) in TITLES
    ensures ReadsAs(Render(d), title) == ReadDoc(d, Exact(title))
  {
    hide WellFormed, ReadCell, ReadDoc;
    ReadBack(d, TITLES);
    ReadRendered(d, TITLES, Exact(title));
  }

  lemma FileReads(d: Doc)
    requires Ok(d)
    ensures IdOf(Render(d)) == DocId(d) && StatusOf(Render(d)) == DocStatus(d)
  {
    hide WellFormed, ReadCell, ReadDoc, ParseStatus;
    ReadBack(d, TITLES);
    TitlesAreOk();
    ReadRendered(d, TITLES, ArtifactId);
    ReadRendered(d, TITLES, Exact("Status"));
  }

  // ---- the three writers ----

  /** Generation writes the text of the pending document, whichever way the content came. */
  lemma PersistRendered(t: string, id: string, content: Doc)
    requires Ok(content) && Fit(id)
    ensures PersistedText(t, id, Render(content)) == Updated(Render(PendingDoc(t, id, content)))
  {
    hide WellFormed, Fit, UpsertDoc, Upsert, WrapDoc, EndDoc, HasBlock, HasId, EntriesOk, Ended, WrappedText, Blocked;
    PendingEntriesOk(id);
    PendingIsPlain(content.rows, id);
    TitlesAreOk();
    UpsertRendered(content, PendingEntries(id), TITLES);
    BlockRenderedHasId(content, TITLES);
    if HasBlock(content) {
      EndDocRendered(UpsertDoc(content, PendingEntries(id)));
    } else {
      WrapRendered(t, id, content);
    }
  }

  lemma PendingIsPlain(rows: seq<Row>, id: string)
    requires Fit(id)
    ensures !Blocked(rows, PendingEntries(id)) && AllLiteralOrBad(PendingEntries(id))
  {
    hide Holdable, Blocked;
    FixedValues();
    PlainNeverBlocks(rows, PendingEntries(id));
  }

  /** Writing a status writes the text of the document with that status. */
  lemma StatusRendered(d: Doc, s: ArtifactStatus)
    requires Ok(d) && (s == FROZEN || s == HALTED || s == FAULTED)
    ensures WithStatus(Render(d), s) == Render(StatusDoc(d, s))
  {
    hide WellFormed, WriteCell, SetDoc, FitValue;
    FixedValues();
    TitlesAreOk();
    ReadBack(d, TITLES);
    WriteRendered(d, TITLES, Exact("Status"), StatusText(s));
  }

  lemma StatusBlocksSame(d: Doc, s: ArtifactStatus, es: seq<Entry>)
    ensures Blocked(StatusDoc(d, s).rows, es) <==> Blocked(d.rows, es)
  {
    hide SetRows, RawRow, IsTemplate;
    var next := StatusDoc(d, s).rows;
    SetKeepsTitles(d.rows, Exact("Status"), StatusText(s));
    forall k: nat | k < |es| ensures BlockedAt(next, es, k) <==> BlockedAt(d.rows, es, k) {
      SameTitles(d.rows, next, Exact(es[k].title));
    }
    if Blocked(next, es) { var k: nat :| BlockedAt(next, es, k); assert BlockedAt(d.rows, es, k); }
    if Blocked(d.rows, es) { var k: nat :| BlockedAt(d.rows, es, k); assert BlockedAt(next, es, k); }
  }

  /** The upsert of a freeze gives the text of the frozen document, or raises when a provenance row that is
      there is to get a value that is no template. */
  lemma FreezeRendered(d: Doc, decision: Decision, today: string)
    requires Ok(d) && DocId(d).Some? && DocStatus(d).Some?
    requires Writable(OwnerOf(decision)) && Writable(decision.decidedBy) && Writable(today)
    ensures FrozenText(Render(d), decision, today)
         == if Blocked(d.rows, ProvenanceEntries(OwnerOf(decision), decision.decidedBy, today)) then BadTemplate
            else Updated(Render(FrozenDoc(d, decision, today)))
  {
    hide WellFormed, Holdable, LiteralOrBad, UpsertDoc, Upsert, EntriesOk, StatusDoc, OwnerOf, DocId, DocStatus, Lower, HasBlock, Blocked, WithStatus;
    var e := StatusDoc(d, FROZEN);
    var es := ProvenanceEntries(OwnerOf(decision), decision.decidedBy, today);
    StatusRendered(d, FROZEN);
    StatusIsOk(d, FROZEN);
    ReadBack(e, TITLES);
    ProvenanceOk(OwnerOf(decision), decision.decidedBy, today);
    StatusBlocksSame(d, FROZEN, es);
    TitlesAreOk();
    IdReads(e);
    UpsertRendered(e, es, TITLES);
  }

  lemma StatusIsOk(d: Doc, s: ArtifactStatus)
    requires Ok(d) && DocStatus(d).Some? && (s == FROZEN || s == HALTED || s == FAULTED)
    ensures Ok(StatusDoc(d, s)) && DocId(StatusDoc(d, s)) == DocId(d) && DocStatus(StatusDoc(d, s)) == Some(s)
  {
    hide WellFormed, SetDoc, DocId, DocStatus, Lower, ReadDoc;
    TitlesDiffer();
    SetStatusReads(d, s, "Artifact ID");
    SetStatusKeepsId(d, s);
  }

  // ---- the same of files ----

  /** The text of a well-formed document. */
  ghost predicate OkText(file: string) { exists d :: IsDoc(file, d) }

  predicate IsDoc(file: string, d: Doc) { Ok(d) && file == Render(d) }

  /** The provenance tuple the schema demands, as the decision gives it. */
  predicate Provided(file: string, d: Decision, today: string) {
    && ReadsAs(file, "Owner") == Some(OwnerOf(d)) && ReadsAs(file, "Frozen By") == Some(d.decidedBy)
    && ReadsAs(file, "Frozen Date") == Some(today)
  }

  /** Some provenance row that the file has is to get a value that is no template. */
  predicate ProvenanceBlocked(file: string, d: Decision, today: string) {
    || (ReadsAs(file, "Owner").Some? && !IsTemplate(OwnerOf(d)))
    || (ReadsAs(file, "Frozen By").Some? && !IsTemplate(d.decidedBy))
    || (ReadsAs(file, "Frozen Date").Some? && !IsTemplate(today))
  }

  lemma PendingTextOk(t: string, id: string, content: string)
    requires OkText(content) && Clean(t) && Fit(id)
    ensures var r := PersistedText(t, id, content);
            && r.Updated? && OkText(r.text) && IdOf(r.text) == Some(id) && StatusOf(r.text) == Some(FREEZE_PENDING)
            && ReadsAs(r.text, "Last Validation") == Some("PASS")
  {
    hide ReadsAs, ReadDoc, WellFormed, Fit, PendingDoc, PersistedText, Clean, DocId, DocStatus, IdOf, StatusOf, Render;
    var d :| IsDoc(content, d);
    PersistRendered(t, id, d);
    PendingOk(t, id, d);
    PendingSaysPass(t, id, d);
    TitleReads(PendingDoc(t, id, d), "Last Validation");
    FileReads(PendingDoc(t, id, d));
    assert IsDoc(PersistedText(t, id, content).text, PendingDoc(t, id, d));
  }

  lemma ProvenanceTitles()
    ensures Exact("Owner") in TITLES && Exact("Frozen By") in TITLES && Exact("Frozen Date") in TITLES
    ensures Lower("Status") != Lower("Owner") && Lower("Status") != Lower("Frozen By") && Lower("Status") != Lower("Frozen Date")
  {
    hide Lower;
    TitlesDiffer();
  }

  predicate SameProvenance(a: string, b: string) {
    && ReadsAs(a, "Owner") == ReadsAs(b, "Owner") && ReadsAs(a, "Frozen By") == ReadsAs(b, "Frozen By")
    && ReadsAs(a, "Frozen Date") == ReadsAs(b, "Frozen Date")
  }

  lemma StatusTextOk(file: string, s: ArtifactStatus)
    requires OkText(file) && StatusOf(file).Some? && (s == FROZEN || s == HALTED || s == FAULTED)
    ensures var next := WithStatus(file, s);
            OkText(next) && IdOf(next) == IdOf(file) && StatusOf(next) == Some(s) && SameProvenance(file, next)
  {
    hide WellFormed, StatusDoc, WithStatus, DocId, DocStatus, IdOf, StatusOf, Render, ReadsAs, ReadDoc, Lower;
    var d :| IsDoc(file, d);
    var e := StatusDoc(d, s);
    FileReads(d);
    StatusRendered(d, s);
    StatusIsOk(d, s);
    FileReads(e);
    assert IsDoc(WithStatus(file, s), e);
    ProvenanceTitles();
    TitleKept(d, s, "Owner");
    TitleKept(d, s, "Frozen By");
    TitleKept(d, s, "Frozen Date");
  }

  lemma TitleKept(d: Doc, s: ArtifactStatus, title: string)
    requires Ok(d) && DocStatus(d).Some? && (s == FROZEN || s == HALTED || s == FAULTED)
    requires Exact(title) in TITLES && Lower("Status") != Lower(title)
    ensures ReadsAs(Render(StatusDoc(d, s)), title) == ReadsAs(Render(d), title)
  {
    hide WellFormed, SetDoc, DocStatus, Lower, Render, ReadsAs, ReadDoc;
    SetStatusReads(d, s, title);
    TitleReads(d, title);
    TitleReads(StatusDoc(d, s), title);
  }

  /** What a freeze past the guards leaves: the file reads FROZEN and keeps its id; the provenance is there
      as decided unless the upsert raised, which it does exactly when it is blocked, and then the provenance
      reads as before. */
  lemma FrozenTextOk(file: string, d: Decision, today: string)
    requires OkText(file) && IdOf(file).Some? && StatusOf(file).Some?
    requires Writable(OwnerOf(d)) && Writable(d.decidedBy) && Writable(today)
    ensures var next, r := FrozenFile(file, d, today), FrozenText(file, d, today);
            && OkText(next) && IdOf(next) == IdOf(file) && StatusOf(next) == Some(FROZEN)
            && (if ProvenanceBlocked(file, d, today) then r == BadTemplate && SameProvenance(file, next)
                else r.Updated? && Provided(next, d, today))
  {
    hide WellFormed, Holdable, LiteralOrBad, FrozenDoc, FrozenText, WithStatus, DocId, DocStatus, IdOf, StatusOf, Render, ReadsAs, ReadDoc, OwnerOf,
         Blocked, IsTemplate;
    var doc :| IsDoc(file, doc);
    FileReads(doc);
    FreezeRendered(doc, d, today);
    BlockedIs(doc, d, today);
    if ProvenanceBlocked(file, d, today) {
      StatusTextOk(file, FROZEN);
    } else {
      var e := FrozenDoc(doc, d, today);
      FrozenReads(doc, d, today);
      FileReads(e);
      assert IsDoc(FrozenFile(file, d, today), e);
      ProvenanceTitles();
      TitleReads(e, "Owner");
      TitleReads(e, "Frozen By");
      TitleReads(e, "Frozen Date");
    }
  }

  lemma BlockedIs(doc: Doc, d: Decision, today: string)
    requires Ok(doc)
    ensures Blocked(doc.rows, ProvenanceEntries(OwnerOf(d), d.decidedBy, today)) <==> ProvenanceBlocked(Render(doc), d, today)
  {
    hide WellFormed, Render, ReadsAs, OwnerOf, IsTemplate, RawRow, Names;
    var es := ProvenanceEntries(OwnerOf(d), d.decidedBy, today);
    ProvenanceTitles();
    TitleReads(doc, "Owner"); RawRowIs(doc.rows, Exact("Owner"));
    TitleReads(doc, "Frozen By"); RawRowIs(doc.rows, Exact("Frozen By"));
    TitleReads(doc, "Frozen Date"); RawRowIs(doc.rows, Exact("Frozen Date"));
    assert BlockedAt(doc.rows, es, 0) || BlockedAt(doc.rows, es, 1) || BlockedAt(doc.rows, es, 2) <==> ProvenanceBlocked(Render(doc), d, today);
    assert forall k: nat :: BlockedAt(doc.rows, es, k) ==> k == 0 || k == 1 || k == 2;
  }
}
