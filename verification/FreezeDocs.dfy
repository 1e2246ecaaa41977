/** What the three writers leave in a document: which id, which status, which provenance. */
module FreezeDocs {
  import opened Text
  import opened Template
  import opened ControlText
  import opened ControlCells
  import opened ControlDoc
  import opened ControlInsert
  import opened DocumentControl
  import opened ArtifactStore
  import opened FreezeSteps

  // ---- the writers' work on a document ----

  function DocId(d: Doc): Option<string> { ReadDoc(d, ArtifactId) }

  function DocStatus(d: Doc): Option<ArtifactStatus> {
    var r := ReadDoc(d, Exact("Status"));
    if r.Some? then Some(ParseStatus(r.value)) else None
  }

  function EndRows(rows: seq<Row>): seq<Row>
    requires rows != []
  {
    var last := rows[|rows| - 1];
    rows[|rows| - 1 := last.(gap := Ended(last.gap))]
  }

  /** `if not doc.endswith("\n"): doc += "\n"` */
  function EndDoc(d: Doc): Doc { if d.rows == [] then d.(pre := Ended(d.pre)) else d.(rows := EndRows(d.rows)) }

  /** The document put around a content that has no block of its own. */
  function WrapDoc(t: string, id: string, content: Doc): Doc {
    var head := [Row(" Field ", " Value ", "\n"), Row("-------", "-------", "\n"),
                 Row(" Artifact ID ", Cell(id), "\n"), Row(" Status ", " FREEZE_PENDING ", "\n")];
    var pre := "# " + (t + "\n\n## Document Control\n\n");
    if content.rows == [] then
      Doc(pre, head + [Row(" Last Validation ", " PASS ", "\n\n" + (content.pre + "\n"))])
    else
      var last := content.rows[|content.rows| - 1];
      Doc(pre, head + [Row(" Last Validation ", " PASS ", "\n\n" + content.pre)]
               + content.rows[|content.rows| - 1 := last.(gap := last.gap + "\n")])
  }

  function PendingDoc(t: string, id: string, content: Doc): Doc {
    if HasBlock(content) then EndDoc(UpsertDoc(content, PendingEntries(id))) else WrapDoc(t, id, content)
  }

  function StatusDoc(d: Doc, s: ArtifactStatus): Doc { SetDoc(d, Exact("Status"), StatusText(s)) }

  function FrozenDoc(d: Doc, decision: Decision, today: string): Doc {
    UpsertDoc(StatusDoc(d, FROZEN), ProvenanceEntries(OwnerOf(decision), decision.decidedBy, today))
  }

  // ---- titles and fixed values ----

  /** A value that a cell can hold. */
  predicate Holdable(v: string) { FitValue(v, TITLES) }

  /** One that a substitution takes literally as well. */
  predicate Fit(v: string) { Holdable(v) && '\\' !in v }

  /** One that a cell can hold and a substitution takes literally or refuses. */
  predicate Writable(v: string) { Holdable(v) && LiteralOrBad(v) }

  predicate Ok(d: Doc) { WellFormed(d, TITLES) }

  /** No title has this length and first letter. */
  predicate NoTitleLikes(w: string) {
    w != "" && (var c := LowerChar(w[0]);
    && !(|w| == 11 && (c == 'a' || c == 'f')) && !(|w| == 6 && c == 's') && !(|w| == 15 && c == 'l')
    && !(|w| == 5 && c == 'o') && !(|w| == 9 && c == 'f')
    && !(|w| > 10 && c == 'a'))
  }

  predicate TitleShape(t: string) {
    t != "" && !NoTitleLikes(t)
  }

  lemma TitleShapes()
    ensures TitleShape("Artifact ID") && TitleShape("Status") && TitleShape("Last Validation")
    ensures TitleShape("Owner") && TitleShape("Frozen By") && TitleShape("Frozen Date")
  {
  }

  lemma DifferentShape(w: string, t: string)
    requires NoTitleLikes(w) && TitleShape(t)
    ensures Lower(w) != Lower(t)
  {
    hide Lower;
    LowerAt(w);
    LowerAt(t);
  }

  /** A plain word shaped like no title is no title. */
  lemma WordIsUntitled(w: string)
    requires PlainValue(w) && NoTitleLikes(w)
    ensures Untitled(" " + w + " ", TITLES)
  {
    hide Lower, NamesId, NoTitleLikes, TitleShape;
    TitleShapes();
    PaddedValue(w);
    NoId(w);
    forall p | p in TITLES ensures !Names(" " + w + " ", p) {
      if p.Exact? { DifferentShape(w, p.title); }
    }
  }

  lemma NoId(w: string)
    requires NoTitleLikes(w)
    ensures !NamesId(w)
  {
    hide Lower;
    if |w| > 10 {
      LowerAt(w[..8]);
      assert Lower(w[..8])[0] == LowerChar(w[0]);
      assert "artifact"[0] == 'a';
    }
  }

  predicate Word(w: string) { w != "" && forall c :: c in w ==> 'A' <= c <= 'Z' || c == '_' }

  lemma WordIsFit(w: string)
    requires Word(w) && NoTitleLikes(w)
    ensures Fit(w)
  {
    hide NoTitleLikes, Untitled;
    WordIsPlain(w);
    WordIsUntitled(w);
  }

  lemma WordIsPlain(w: string)
    requires Word(w)
    ensures PlainValue(w) && Clean(w)
  {
    assert w[0] in w && w[|w| - 1] in w;
  }

  lemma FixedValues()
    ensures Fit("FREEZE_PENDING") && Fit("PASS") && Fit("FROZEN") && Fit("HALTED") && Fit("FAULTED")
  {
    hide Fit, Holdable;
    WordIsFit("FREEZE_PENDING");
    WordIsFit("PASS");
    WordIsFit("FROZEN");
    WordIsFit("HALTED");
    WordIsFit("FAULTED");
  }

  lemma TitleEntry(title: string, value: string)
    requires title == "Artifact ID" || title == "Status" || title == "Last Validation" || title == "Owner" || title == "Frozen By" || title == "Frozen Date"
    requires Holdable(value)
    ensures EntryOk(Entry(title, value), TITLES)
  {
    hide Lower, NamesId, Clean, FitValue;
    TitlesPlain();
    PaddedValue(title);
    if title == "Artifact ID" {
      LowerId();
    } else {
      NotTheId(title);
    }
  }

  lemma TitlesPlain()
    ensures forall t :: t == "Artifact ID" || t == "Status" || t == "Last Validation" || t == "Owner" || t == "Frozen By" || t == "Frozen Date" ==>
              PlainValue(t) && Clean(t) && Exact(t) in TITLES && t != ""
  {
    hide PlainValue, Clean;
    PlainPending();
    PlainProvenance();
  }

  lemma PlainPending()
    ensures PlainValue("Artifact ID") && Clean("Artifact ID") && PlainValue("Status") && Clean("Status")
    ensures PlainValue("Last Validation") && Clean("Last Validation")
  {
    hide PlainValue, Clean;
    PlainTitle("Artifact ID"); PlainTitle("Status"); PlainTitle("Last Validation");
  }

  lemma PlainProvenance()
    ensures PlainValue("Owner") && Clean("Owner") && PlainValue("Frozen By") && Clean("Frozen By")
    ensures PlainValue("Frozen Date") && Clean("Frozen Date")
  {
    hide PlainValue, Clean;
    PlainTitle("Owner"); PlainTitle("Frozen By"); PlainTitle("Frozen Date");
  }

  lemma PlainTitle(t: string)
    requires t != "" && IsLetterOrBlank(t) && t[0] != ' ' && t[|t| - 1] != ' '
    ensures PlainValue(t) && Clean(t)
  {
    assert forall c :: c in t ==> c == ' ' || 'a' <= c <= 'z' || 'A' <= c <= 'Z';
    assert t[0] in t && t[|t| - 1] in t;
  }

  predicate IsLetterOrBlank(t: string) { forall i :: 0 <= i < |t| ==> t[i] == ' ' || 'a' <= t[i] <= 'z' || 'A' <= t[i] <= 'Z' }

  lemma NotTheId(t: string)
    requires t == "Status" || t == "Last Validation" || t == "Owner" || t == "Frozen By" || t == "Frozen Date"
    ensures !NamesId(t)
  {
    hide Lower;
    if |t| > 10 {
      LowerAt(t[..8]);
      assert Lower(t[..8])[0] == LowerChar(t[0]);
      assert "artifact"[0] == 'a' && "Last Validation"[0] == 'L' && "Frozen Date"[0] == 'F';
    }
  }

  lemma TitlesDiffer()
    ensures Lower("Artifact ID") != Lower("Status") && Lower("Artifact ID") != Lower("Last Validation")
    ensures Lower("Status") != Lower("Last Validation")
    ensures Lower("Owner") != Lower("Frozen By") && Lower("Owner") != Lower("Frozen Date") && Lower("Frozen By") != Lower("Frozen Date")
    ensures Lower("Owner") != Lower("Status") && Lower("Frozen By") != Lower("Status") && Lower("Frozen Date") != Lower("Status")
    ensures Lower("Owner") != Lower("Artifact ID") && Lower("Frozen By") != Lower("Artifact ID") && Lower("Frozen Date") != Lower("Artifact ID")
  {
    hide Lower;
    LowerAt("Artifact ID"); LowerAt("Status"); LowerAt("Last Validation");
    LowerAt("Owner"); LowerAt("Frozen By"); LowerAt("Frozen Date");
    assert LowerChar("Artifact ID"[0]) == 'a' && LowerChar("Frozen Date"[0]) == 'f';
  }

  lemma PendingEntriesOk(id: string)
    requires Fit(id)
    ensures EntriesOk(PendingEntries(id), TITLES)
  {
    hide EntryOk, Holdable, Lower;
    FixedValues();
    TitleEntry("Artifact ID", id);
    TitleEntry("Status", "FREEZE_PENDING");
    TitleEntry("Last Validation", "PASS");
    TitlesDiffer();
  }

  lemma ProvenanceOk(owner: string, approver: string, today: string)
    requires Holdable(owner) && Holdable(approver) && Holdable(today)
    ensures EntriesOk(ProvenanceEntries(owner, approver, today), TITLES)
  {
    hide EntryOk, Holdable, Lower;
    TitleEntry("Owner", owner);
    TitleEntry("Frozen By", approver);
    TitleEntry("Frozen Date", today);
    TitlesDiffer();
  }

  lemma TitlesAreOk()
    ensures TitlesOk(TITLES) && ArtifactId in TITLES && Exact("Artifact ID") in TITLES && Exact("Status") in TITLES
  {
  }

  // ---- the id row, found by pattern or by title ----

  lemma IdTitle(cell: string)
    requires Names(cell, Exact("Artifact ID"))
    ensures Names(cell, ArtifactId)
  {
    hide Lower;
    LowerId();
    var core := Strip(cell);
    var low := "artifact id";
    LowerAt(core);
    LowerAt(core[..8]);
    LowerAt(core[9..]);
    assert |core| == 11;
    assert forall i :: 0 <= i < 8 ==> Lower(core[..8])[i] == low[i] == "artifact"[i];
    assert forall i :: 0 <= i < 2 ==> Lower(core[9..])[i] == low[i + 9] == "id"[i];
    assert LowerChar(core[8]) == ' ' && core[8] == ' ';
    assert core[8..9] == [' '];
  }

  lemma {:induction false} IdRowSame(rows: seq<Row>)
    requires RowsOk(rows, TITLES)
    ensures RawRow(rows, ArtifactId) == RawRow(rows, Exact("Artifact ID"))
  {
    hide Names, Lower;
    if rows != [] {
      assert RowOk(rows[0], TITLES);
      if Names(rows[0].title, Exact("Artifact ID")) { IdTitle(rows[0].title); }
      assert forall i :: 0 <= i < |rows[1..]| ==> rows[1..][i] == rows[i + 1];
      IdRowSame(rows[1..]);
    }
  }

  lemma IdReads(d: Doc)
    requires Ok(d)
    ensures DocId(d) == ReadDoc(d, Exact("Artifact ID")) && (DocId(d).Some? <==> HasBlock(d))
  {
    hide Names;
    IdRowSame(d.rows);
    RawRowIs(d.rows, ArtifactId);
    RawRowIs(d.rows, Exact("Artifact ID"));
  }

  // ---- a final newline ----

  lemma EndedGapOk(r: Row)
    requires RowOk(r, TITLES)
    ensures RowOk(r.(gap := Ended(r.gap)), TITLES) && RowOk(r.(gap := r.gap + "\n"), TITLES)
  {
    hide Names, Untitled, Clean;
    NewlineGap(r.gap);
    NewlineStrips(r.gap);
    NewlineStrips(LineEnd(r.gap));
    NewlineStrips(AfterLine(r.gap));
    SameStripSameNames(r.gap, r.gap + "\n", TITLES);
    SameStripSameNames(LineEnd(r.gap), LineEnd(r.gap) + "\n", TITLES);
    SameStripSameNames(AfterLine(r.gap), AfterLine(r.gap) + "\n", TITLES);
    TitlesAreOk();
    StripAllSpace("");
    BlankIsUntitled("", TITLES);
    CleanNewline(r.gap);
  }

  lemma CleanNewline(s: string)
    requires Clean(s)
    ensures Clean(s + "\n") && Clean("\n\n" + s) && Clean("\n\n" + (s + "\n"))
  {
    assert !IsExoticBreak('\n');
  }

  lemma {:induction false} NewlineGap(gap: string)
    ensures LineEnd(gap + "\n") == (if '\n' in gap then LineEnd(gap) else LineEnd(gap) + "\n")
    ensures AfterLine(gap + "\n") == (if '\n' in gap then AfterLine(gap) + "\n" else "")
  {
    if gap == "" {
      assert gap + "\n" == "\n";
    } else {
      assert (gap + "\n")[1..] == gap[1..] + "\n";
      if gap[0] != '\n' { NewlineGap(gap[1..]); }
    }
  }

  /** Adding the final newline changes no row and keeps the document well formed. */
  lemma EndDocOk(d: Doc, p: LabelPattern)
    requires Ok(d)
    ensures Ok(EndDoc(d)) && RawRow(EndDoc(d).rows, p) == RawRow(d.rows, p)
  {
    hide Names, RowOk, Untitled, Clean;
    if d.rows == [] {
      EndedPre(d.pre);
    } else {
      var n := |d.rows| - 1;
      EndedGapOk(d.rows[n]);
      RawSame(d.rows, EndRows(d.rows), p);
    }
  }

  lemma EndedPre(pre: string)
    requires Clean(pre) && Untitled(pre, TITLES)
    ensures Clean(Ended(pre)) && Untitled(Ended(pre), TITLES)
  {
    hide Names, Untitled;
    CleanNewline(pre);
    NewlineStrips(pre);
    SameStripSameNames(pre, pre + "\n", TITLES);
  }

  // ---- the pending document ----

  /** Documents whose first rows agree read the same. */
  lemma SameRead(a: Doc, b: Doc, p: LabelPattern)
    requires RawRow(a.rows, p) == RawRow(b.rows, p)
    ensures ReadDoc(a, p) == ReadDoc(b, p)
  {
    hide RawRow, Names;
    RawRowIs(a.rows, p);
    RawRowIs(b.rows, p);
  }

  lemma ReadsStatus(d: Doc, s: ArtifactStatus)
    requires ReadDoc(d, Exact("Status")) == Some(StatusText(s))
    ensures DocStatus(d) == Some(s)
  {
    hide ReadDoc;
    StatusReads(s);
  }

  lemma PendingReads(content: Doc, id: string)
    requires Ok(content) && HasBlock(content) && Fit(id)
    ensures var d := EndDoc(UpsertDoc(content, PendingEntries(id)));
            Ok(d) && DocId(d) == Some(id) && DocStatus(d) == Some(FREEZE_PENDING)
  {
    hide RawRow, UpsertDoc, EntriesOk, WellFormed, Fit, Holdable, HasBlock, Canon, ReadDoc, EndDoc, DocId, DocStatus;
    var es := PendingEntries(id);
    PendingEntriesOk(id);
    TitlesAreOk();
    UpsertWellFormed(content, es, TITLES);
    var u := UpsertDoc(content, es);
    UpsertReads(content, es, TITLES, 0);
    UpsertReads(content, es, TITLES, 1);
    EndDocOk(u, Exact("Artifact ID"));
    EndDocOk(u, Exact("Status"));
    IdReads(EndDoc(u));
    SameRead(u, EndDoc(u), Exact("Artifact ID"));
    SameRead(u, EndDoc(u), Exact("Status"));
    ReadsStatus(EndDoc(u), FREEZE_PENDING);
  }

  // ---- a content without a block is wrapped ----

  lemma HeadOk(id: string)
    requires Fit(id)
    ensures var head := [Row(" Field ", " Value ", "\n"), Row("-------", "-------", "\n"),
                         Row(" Artifact ID ", Cell(id), "\n"), Row(" Status ", " FREEZE_PENDING ", "\n")];
            && RowsOk(head, TITLES) && (forall i :: 0 <= i < 4 ==> '\n' in head[i].gap)
            && RawRow(head, Exact("Artifact ID")) == Some(Cell(id)) && RawRow(head, Exact("Status")) == Some(" FREEZE_PENDING ")
  {
    hide RowOk, RawRow, Fit, Holdable, Names;
    HeaderRowOk();
    RuleRowOk();
    HeadReads(id);
    FixedValues();
    NewRowIs("Artifact ID", id, "\n");
    NewRowIs("Status", "FREEZE_PENDING", "\n");
    assert " " + "Artifact ID" + " " == " Artifact ID " && " " + "Status" + " " == " Status ";
    assert Cell("FREEZE_PENDING") == " FREEZE_PENDING ";
    var head := [Row(" Field ", " Value ", "\n"), Row("-------", "-------", "\n"),
                 Row(" Artifact ID ", Cell(id), "\n"), Row(" Status ", " FREEZE_PENDING ", "\n")];
    assert RowOk(head[0], TITLES) && RowOk(head[1], TITLES) && RowOk(head[2], TITLES) && RowOk(head[3], TITLES);
    assert "\n"[0] == '\n';
  }

  lemma NewRowIs(title: string, value: string, gap: string)
    requires title == "Artifact ID" || title == "Status" || title == "Last Validation"
    requires Fit(value) && gap == "\n"
    ensures RowOk(Row(" " + title + " ", Cell(value), gap), TITLES)
  {
    hide Names, Holdable, EntryOk, Untitled;
    TitleEntry(title, value);
    TitlesAreOk();
    BlankGap();
    NewRowOk(Entry(title, value), gap, "", TITLES);
  }

  lemma BlankGap()
    ensures Untitled("", TITLES) && Untitled("\n", TITLES) && Clean("\n") && Clean("\n" + "")
  {
    hide Names, Untitled, Clean;
    TitlesAreOk();
    StripAllSpace("");
    StripAllSpace("\n");
    BlankIsUntitled("", TITLES);
    BlankIsUntitled("\n", TITLES);
    NewlineIsClean();
    assert "\n" + "" == "\n";
  }

  lemma NewlineIsClean()
    ensures Clean("\n")
  {
  }

  lemma PlainRowOk(title: string, value: string)
    requires Clean(title) && Clean(value) && '\n' !in title && '\n' !in value
    requires Untitled(value, TITLES) && !Names(title, ArtifactId)
    ensures RowOk(Row(title, value, "\n"), TITLES)
  {
    hide Names, Untitled, Clean;
    BlankGap();
    assert LineEnd("\n") == "\n" && AfterLine("\n") == "";
  }

  lemma HeaderWords()
    ensures PlainValue("Field") && Clean("Field") && PlainValue("Value") && Clean("Value") && NoTitleLikes("Value")
    ensures " " + "Value" + " " == " Value " && " " + "Field" + " " == " Field "
  {
    hide PlainValue, Clean;
    PlainTitle("Field");
    PlainTitle("Value");
  }

  lemma HeaderRowOk()
    ensures RowOk(Row(" Field ", " Value ", "\n"), TITLES)
  {
    hide Names, Untitled, Clean, NoTitleLikes, RowOk, Trimmed;
    HeaderWords();
    WordIsUntitled("Value");
    NotTheIdCell("Field");
    PaddedClean("Field");
    PaddedClean("Value");
    PlainRowOk(" Field ", " Value ");
  }

  lemma NotTheIdCell(w: string)
    requires PlainValue(w) && |w| <= 10
    ensures !Names(" " + w + " ", ArtifactId)
  {
    PaddedValue(w);
  }

  lemma RuleRowOk()
    ensures RowOk(Row("-------", "-------", "\n"), TITLES)
  {
    hide Names, Untitled, RowOk;
    RuleUntitled();
    PlainRowOk("-------", "-------");
  }

  lemma RuleUntitled()
    ensures Untitled("-------", TITLES) && !Names("-------", ArtifactId)
  {
    hide Lower, NamesId, NoTitleLikes, TitleShape;
    var w := "-------";
    StripIdentity(w);
    RuleLikes();
    TitleShapes();
    NoId(w);
    forall p | p in TITLES ensures !Names(w, p) {
      if p.Exact? { DifferentShape(w, p.title); }
    }
  }

  lemma RuleLikes()
    ensures NoTitleLikes("-------") && Trimmed("-------")
  {
  }

  lemma HeadReads(id: string)
    ensures var head := [Row(" Field ", " Value ", "\n"), Row("-------", "-------", "\n"),
                         Row(" Artifact ID ", Cell(id), "\n"), Row(" Status ", " FREEZE_PENDING ", "\n")];
            RawRow(head, Exact("Artifact ID")) == Some(Cell(id)) && RawRow(head, Exact("Status")) == Some(" FREEZE_PENDING ")
  {
    hide Names;
    FieldIsNoTitle();
    RuleUntitled();
    TitlesAreOk();
    StatusIsNotId();
    var head := [Row(" Field ", " Value ", "\n"), Row("-------", "-------", "\n"),
                 Row(" Artifact ID ", Cell(id), "\n"), Row(" Status ", " FREEZE_PENDING ", "\n")];
    assert head[1..][1..] == head[2..] && head[2..][1..] == head[3..];
    forall p: LabelPattern | p == Exact("Artifact ID") || p == Exact("Status") ensures RawRow(head, p) == RawRow(head[2..], p) {
      assert RawRow(head[1..], p) == RawRow(head[2..], p);
    }
    assert head[2..][0].title == " Artifact ID " && head[3..][0].title == " Status ";
    assert RawRow(head[2..], Exact("Status")) == RawRow(head[3..], Exact("Status"));
  }

  lemma FieldIsNoTitle()
    ensures !Names(" Field ", Exact("Artifact ID")) && !Names(" Field ", Exact("Status"))
  {
    hide Lower;
    StripPadded(" ", "Field", " ");
    assert " " + "Field" + " " == " Field ";
    LowerAt("Field"); LowerAt("Artifact ID"); LowerAt("Status");
  }

  lemma StatusIsNotId()
    ensures Names(" Artifact ID ", Exact("Artifact ID")) && Names(" Status ", Exact("Status")) && !Names(" Artifact ID ", Exact("Status"))
  {
    hide Lower;
    StripPadded(" ", "Artifact ID", " ");
    StripPadded(" ", "Status", " ");
    assert " " + "Artifact ID" + " " == " Artifact ID " && " " + "Status" + " " == " Status ";
    TitlesDiffer();
  }

  lemma {:induction false} StripRightHead(s: string)
    requires s != "" && !IsSpace(s[0])
    ensures StripRight(s) != "" && StripRight(s)[0] == s[0]
  {
    if IsSpace(s[|s| - 1]) { StripRightHead(s[..|s| - 1]); }
  }

  /** A text that opens with a heading mark is no title. */
  lemma HeadingIsUntitled(s: string)
    requires s != "" && s[0] == '#'
    ensures Untitled(s, TITLES)
  {
    hide Lower, NamesId, TitleShape;
    StripRightHead(s);
    var core := Strip(s);
    assert core[0] == '#' && LowerChar('#') == '#';
    TitleShapes();
    NoId(core);
    forall p | p in TITLES ensures !Names(s, p) {
      if p.Exact? { DifferentShape(core, p.title); }
    }
  }

  lemma HeadingOk(t: string)
    requires Clean(t)
    ensures var pre := "# " + (t + "\n\n## Document Control\n\n"); Clean(pre) && Untitled(pre, TITLES)
  {
    hide Untitled, IsExoticBreak;
    var pre := "# " + (t + "\n\n## Document Control\n\n");
    assert pre[0] == '#';
    HeadingIsUntitled(pre);
    CleanLiterals();
    CleanJoin(t, "\n\n## Document Control\n\n");
    CleanJoin("# ", t + "\n\n## Document Control\n\n");
  }

  lemma CleanLiterals()
    ensures Clean("# ") && Clean("\n\n## Document Control\n\n")
  {
    assert forall i :: 0 <= i < |"\n\n## Document Control\n\n"| ==> "\n\n## Document Control\n\n"[i] in "\n# DocumentCr l";
    NiceChars();
  }

  lemma NiceChars()
    ensures forall c :: c in "\n# DocumentCr l" ==> !IsExoticBreak(c) && c != '|'
  {
  }

  lemma CleanJoin(a: string, b: string)
    requires Clean(a) && Clean(b)
    ensures Clean(a + b)
  {
    hide IsExoticBreak;
  }

  lemma ValidationRowOk(pre: string, last: bool)
    requires Clean(pre) && Untitled(pre, TITLES)
    ensures var gap := "\n\n" + (if last then pre + "\n" else pre);
            RowOk(Row(" Last Validation ", " PASS ", gap), TITLES) && '\n' in gap
  {
    hide Names, Untitled, Clean, Holdable, RowOk, EntryOk, LineEnd, AfterLine;
    var tail := "\n" + (if last then pre + "\n" else pre);
    var gap := "\n\n" + (if last then pre + "\n" else pre);
    assert gap == "\n" + tail;
    CleanNewline(pre);
    NewlineStrips(pre);
    NewlineStrips(if last then pre + "\n" else pre);
    SameStripSameNames(pre, tail, TITLES);
    FixedValues();
    TitleEntry("Last Validation", "PASS");
    TitlesAreOk();
    NewlineIsClean();
    assert gap[0] == '\n';
    NewRowOk(Entry("Last Validation", "PASS"), gap, tail, TITLES);
    assert " " + "Last Validation" + " " == " Last Validation " && " " + "PASS" + " " == " PASS ";
  }

  lemma WrapReads(t: string, id: string, content: Doc)
    requires Ok(content) && Clean(t) && Fit(id)
    ensures var d := WrapDoc(t, id, content);
            Ok(d) && DocId(d) == Some(id) && DocStatus(d) == Some(FREEZE_PENDING)
  {
    hide Names, RowOk, Untitled, Clean, Fit, Holdable, RawRow, ReadDoc, DocId, DocStatus;
    var d := WrapDoc(t, id, content);
    var head := [Row(" Field ", " Value ", "\n"), Row("-------", "-------", "\n"),
                 Row(" Artifact ID ", Cell(id), "\n"), Row(" Status ", " FREEZE_PENDING ", "\n")];
    HeadOk(id);
    HeadingOk(t);
    var bare := content.rows == [];
    ValidationRowOk(content.pre, bare);
    var lv := Row(" Last Validation ", " PASS ", "\n\n" + (if bare then content.pre + "\n" else content.pre));
    var tail := if bare then [] else content.rows[|content.rows| - 1 := content.rows[|content.rows| - 1].(gap := content.rows[|content.rows| - 1].gap + "\n")];
    if !bare { EndedGapOk(content.rows[|content.rows| - 1]); }
    assert RowsOk(tail, TITLES);
    JoinRowsOk(head, [lv], TITLES);
    JoinRowsOk(head + [lv], tail, TITLES);
    assert d.rows == head + [lv] + tail;
    HeadRead(head, [lv], tail, Exact("Artifact ID"));
    HeadRead(head, [lv], tail, Exact("Status"));
    assert Ok(d);
    IdReads(d);
    ReadFrom(d, Exact("Artifact ID"), Cell(id));
    ReadFrom(d, Exact("Status"), " FREEZE_PENDING ");
    StripPadded(" ", "FREEZE_PENDING", " ");
    assert " " + "FREEZE_PENDING" + " " == " FREEZE_PENDING ";
    FitStrips(id);
    ReadsStatus(d, FREEZE_PENDING);
  }

  lemma FitStrips(v: string)
    requires Fit(v)
    ensures Strip(Cell(v)) == v
  {
    PaddedValue(v);
  }

  lemma HeadRead(a: seq<Row>, b: seq<Row>, c: seq<Row>, p: LabelPattern)
    requires RawRow(a, p).Some?
    ensures RawRow(a + b + c, p) == RawRow(a, p)
  {
    hide RawRow;
    RawAppend(a + b, c, p);
    RawAppend(a, b, p);
  }

  lemma ReadFrom(d: Doc, p: LabelPattern, cell: string)
    requires RawRow(d.rows, p) == Some(cell)
    ensures ReadDoc(d, p) == Some(Strip(cell))
  {
    hide RawRow, Names;
    RawRowIs(d.rows, p);
  }

  // ---- freezing and marking ----

  /** Setting the status row keeps the id and every other row. */
  lemma SetStatusReads(d: Doc, s: ArtifactStatus, b: string)
    requires Ok(d) && DocStatus(d).Some? && Lower("Status") != Lower(b)
    requires s == FROZEN || s == HALTED || s == FAULTED
    ensures var e := SetDoc(d, Exact("Status"), StatusText(s));
            Ok(e) && DocStatus(e) == Some(s) && ReadDoc(e, Exact(b)) == ReadDoc(d, Exact(b))
  {
    hide RawRow, RowsOk, SetRows, ReadDoc, Lower, Canon;
    var v := StatusText(s);
    FixedValues();
    SetRowsOk(d.rows, TITLES, Exact("Status"), v);
    StatusRow(d);
    SetOwn(d.rows, "Status", v);
    SetOther(d.rows, "Status", v, b);
    var e := SetDoc(d, Exact("Status"), v);
    ReadFrom(e, Exact("Status"), Cell(v));
    FitStrips(v);
    ReadsStatus(e, s);
    SameRead(d, e, Exact(b));
  }

  lemma StatusRow(d: Doc)
    requires DocStatus(d).Some?
    ensures RawRow(d.rows, Exact("Status")).Some?
  {
    hide Names, RawRow;
    RawRowIs(d.rows, Exact("Status"));
  }

  lemma SetStatusKeepsId(d: Doc, s: ArtifactStatus)
    requires Ok(d) && DocStatus(d).Some? && (s == FROZEN || s == HALTED || s == FAULTED)
    ensures DocId(SetDoc(d, Exact("Status"), StatusText(s))) == DocId(d)
  {
    hide SetDoc, ReadDoc, DocStatus, Lower, DocId, WellFormed;
    TitlesDiffer();
    SetStatusReads(d, s, "Artifact ID");
    IdReads(d);
    IdReads(SetDoc(d, Exact("Status"), StatusText(s)));
  }

  /** A frozen document keeps its id, reads FROZEN, and carries the three provenance rows. */
  lemma FrozenReads(d: Doc, decision: Decision, today: string)
    requires Ok(d) && DocId(d).Some? && DocStatus(d).Some?
    requires Holdable(OwnerOf(decision)) && Holdable(decision.decidedBy) && Holdable(today)
    ensures var f := FrozenDoc(d, decision, today);
            && Ok(f) && DocId(f) == DocId(d) && DocStatus(f) == Some(FROZEN)
            && ReadDoc(f, Exact("Owner")) == Some(OwnerOf(decision)) && ReadDoc(f, Exact("Frozen By")) == Some(decision.decidedBy)
            && ReadDoc(f, Exact("Frozen Date")) == Some(today)
  {
    hide SetDoc, UpsertDoc, ReadDoc, WellFormed, EntriesOk, Holdable, OwnerOf, Lower, DocId, DocStatus, HasBlock, Canon;
    var e := SetDoc(d, Exact("Status"), StatusText(FROZEN));
    var es := ProvenanceEntries(OwnerOf(decision), decision.decidedBy, today);
    TitlesDiffer();
    TitlesAreOk();
    SetStatusReads(d, FROZEN, "Artifact ID");
    SetStatusKeepsId(d, FROZEN);
    ProvenanceOk(OwnerOf(decision), decision.decidedBy, today);
    IdReads(e);
    UpsertWellFormed(e, es, TITLES);
    UpsertReads(e, es, TITLES, 0);
    UpsertReads(e, es, TITLES, 1);
    UpsertReads(e, es, TITLES, 2);
    UpsertKeeps(e, es, TITLES, "Status");
    UpsertKeeps(e, es, TITLES, "Artifact ID");
    IdReads(UpsertDoc(e, es));
    StatusFollows(e, UpsertDoc(e, es));
  }

  lemma StatusFollows(a: Doc, b: Doc)
    requires ReadDoc(a, Exact("Status")) == ReadDoc(b, Exact("Status"))
    ensures DocStatus(a) == DocStatus(b)
  {
  }

  lemma PendingOk(t: string, id: string, content: Doc)
    requires Ok(content) && Clean(t) && Fit(id)
    ensures var d := PendingDoc(t, id, content); Ok(d) && DocId(d) == Some(id) && DocStatus(d) == Some(FREEZE_PENDING)
  {
    hide WellFormed, Fit, Holdable, DocId, DocStatus, UpsertDoc, WrapDoc, EndDoc, HasBlock, Clean;
    if HasBlock(content) { PendingReads(content, id); } else { WrapReads(t, id, content); }
  }

  lemma OtherTitle(w: string)
    requires w != "" && !IsSpace(w[0]) && !IsSpace(w[|w| - 1]) && |w| != 15
    ensures !Names(" " + w + " ", Exact("Last Validation"))
  {
    hide Lower;
    StripPadded(" ", w, " ");
    LowerAt(w);
    LowerAt("Last Validation");
  }

  lemma ValidationTitle()
    ensures Names(" Last Validation ", Exact("Last Validation"))
  {
    hide Lower;
    StripPadded(" ", "Last Validation", " ");
    assert " " + "Last Validation" + " " == " Last Validation ";
  }

  lemma NoneIsValidation()
    ensures !Names(" Field ", Exact("Last Validation")) && !Names("-------", Exact("Last Validation"))
    ensures !Names(" Artifact ID ", Exact("Last Validation")) && !Names(" Status ", Exact("Last Validation"))
    ensures Names(" Last Validation ", Exact("Last Validation"))
  {
    hide Names, Untitled;
    RuleIsNoTitle();
    OtherTitle("Field");
    OtherTitle("Artifact ID");
    OtherTitle("Status");
    ValidationTitle();
    assert " " + "Field" + " " == " Field " && " " + "Artifact ID" + " " == " Artifact ID " && " " + "Status" + " " == " Status ";
  }

  lemma RuleIsNoTitle()
    ensures !Names("-------", Exact("Last Validation"))
  {
    hide Names;
    RuleUntitled();
  }

  lemma ValidationRead(id: string, gap: string, tail: seq<Row>)
    ensures var head := [Row(" Field ", " Value ", "\n"), Row("-------", "-------", "\n"),
                         Row(" Artifact ID ", Cell(id), "\n"), Row(" Status ", " FREEZE_PENDING ", "\n")];
            RawRow(head + [Row(" Last Validation ", " PASS ", gap)] + tail, Exact("Last Validation")) == Some(" PASS ")
  {
    hide Names;
    NoneIsValidation();
    var head := [Row(" Field ", " Value ", "\n"), Row("-------", "-------", "\n"),
                 Row(" Artifact ID ", Cell(id), "\n"), Row(" Status ", " FREEZE_PENDING ", "\n")];
    var p, last := Exact("Last Validation"), [Row(" Last Validation ", " PASS ", gap)];
    assert head[1..][1..] == head[2..] && head[2..][1..] == head[3..] && head[3..][1..] == [];
    assert RawRow(head[3..], p) == RawRow([], p);
    assert RawRow(head[1..], p) == RawRow(head[2..], p);
    RawAppend(head + last, tail, p);
    RawAppend(head, last, p);
  }

  /** And it says that its last validation passed. */
  lemma PendingSaysPass(t: string, id: string, content: Doc)
    requires Ok(content) && Clean(t) && Fit(id)
    ensures ReadDoc(PendingDoc(t, id, content), Exact("Last Validation")) == Some("PASS")
  {
    hide RawRow, UpsertDoc, EntriesOk, WellFormed, Fit, Holdable, HasBlock, ReadDoc, EndDoc, Clean;
    if HasBlock(content) {
      var es := PendingEntries(id);
      PendingEntriesOk(id);
      TitlesAreOk();
      UpsertWellFormed(content, es, TITLES);
      UpsertReads(content, es, TITLES, 2);
      EndDocOk(UpsertDoc(content, es), Exact("Last Validation"));
      SameRead(UpsertDoc(content, es), EndDoc(UpsertDoc(content, es)), Exact("Last Validation"));
    } else {
      WrapSaysPass(t, id, content);
    }
  }

  lemma WrapSaysPass(t: string, id: string, content: Doc)
    ensures ReadDoc(WrapDoc(t, id, content), Exact("Last Validation")) == Some("PASS")
  {
    hide RawRow, ReadDoc;
    var d := WrapDoc(t, id, content);
    var n := |content.rows|;
    var gap := "\n\n" + (if n == 0 then content.pre + "\n" else content.pre);
    var tail := if n == 0 then [] else content.rows[n - 1 := content.rows[n - 1].(gap := content.rows[n - 1].gap + "\n")];
    ValidationRead(id, gap, tail);
    var head := [Row(" Field ", " Value ", "\n"), Row("-------", "-------", "\n"),
                 Row(" Artifact ID ", Cell(id), "\n"), Row(" Status ", " FREEZE_PENDING ", "\n")];
    assert d.rows == head + [Row(" Last Validation ", " PASS ", gap)] + tail;
    ReadFrom(d, Exact("Last Validation"), " PASS ");
    StripPadded(" ", "PASS", " ");
    assert " " + "PASS" + " " == " PASS ";
  }
}
