/** The engagement record as text: the code's searches and uncounted substitutions, and the proof that on a
    well-formed record they read and write the seven rows. */
module ErText {
  import opened Text
  import opened Regex
  import opened Template
  import opened ControlText
  import opened ControlCells
  import opened ControlDoc
  import opened DocumentControl
  import opened ControlPatterns
  import opened ErState

  // ---- every match replaced, on any text ----

  /** The value cells of all matches, left to right; a match takes the bar that closes its value. */
  function EveryCell(cells: seq<string>, p: LabelPattern, x: string): (r: seq<string>)
    requires |cells| >= 1
    ensures |r| == |cells|
    decreases |cells|
  {
    FindIs(cells, p, 1);
    var r := FindFrom(cells, p, 1);
    if r >= |cells| then cells else cells[..r + 1] + [x] + EveryCell(cells[r + 2..], p, x)
  }

  function WriteEvery(text: string, p: LabelPattern, v: string): string { Join(EveryCell(Cells(text), p, " " + v + " ")) }

  /** `re.sub(pattern, template, text)`: search, fill in the template, go on after the match. */
  function SubstituteEvery(text: string, p: LabelPattern, parts: seq<Part>): string
    decreases |text|
  {
    var i := Search(RowPattern(p), text);
    if i.None? || i.value > |text| then text else
      var m := Match(RowPattern(p), text[i.value..]);
      if m.NoMatch? then text else
        var label' := Front(m.parts, RowStart(p));
        var all := label' + Concat(Drop(m.parts, RowStart(p)));
        if all == "" || i.value + |all| > |text| then text
        else text[..i.value] + Fill(parts, all, label') + SubstituteEvery(text[i.value + |all|..], p, parts)
  }

  /** `None` where the template does not compile and `re.sub` raises, matches or not. */
  function Substituted(text: string, p: LabelPattern, value: string): Option<string> {
    var parts := ParseTemplate(RowTemplate(value));
    if parts.None? then None else Some(SubstituteEvery(text, p, parts.value))
  }

  /** For a value without a backslash, substituting with the regular expression is writing every such cell. */
  lemma SubstitutesEveryCell(text: string, p: LabelPattern, value: string)
    requires GoodTitle(p) && '\\' !in value
    ensures Substituted(text, p, value) == Some(WriteEvery(text, p, value))
  {
    hide ParseTemplate, RowTemplate, GoodTitle, SubstituteEvery, WriteEvery;
    PlainRowTemplate(value, "", "");
    EveryMatch(text, p, value, ParseTemplate(RowTemplate(value)).value);
  }

  lemma {:induction false} EveryMatch(text: string, p: LabelPattern, value: string, parts: seq<Part>)
    requires GoodTitle(p) && '\\' !in value && ParseTemplate(RowTemplate(value)) == Some(parts)
    ensures SubstituteEvery(text, p, parts) == WriteEvery(text, p, value)
    decreases |text|
  {
    hide Names, GoodTitle, Cells, Join, ParseTemplate, RowTemplate, Fill, FindFrom, EveryCell, SubstituteEvery;
    var cs := Cells(text);
    JoinSplit(text);
    CellsBarFree(text);
    EveryStep(cs, p, " " + value + " ");
    if Found(cs, p) {
      var r := FindFrom(cs, p, 1);
      var before, after, all := FirstMatch(text, p, parts);
      EveryMatch(after, p, value, parts);
      SplitJoin(cs[r + 2..]);
      PlainRowTemplate(value, all, "|" + (cs[r] + "|"));
      Spliced(cs, r, value, EveryCell(cs[r + 2..], p, " " + value + " "), before);
    } else {
      NoMatchLeft(text, p, parts);
    }
  }

  /** The first match replaced, the rest left to the next search. */
  lemma FirstMatch(text: string, p: LabelPattern, parts: seq<Part>) returns (before: string, after: string, all: string)
    requires GoodTitle(p) && Found(Cells(text), p)
    ensures var cs := Cells(text); var r := FindFrom(cs, p, 1);
            && r + 2 < |cs| && before == Join(cs[..r]) && after == Join(cs[r + 2..]) && |after| < |text|
            && SubstituteEvery(text, p, parts) == before + Fill(parts, all, "|" + (cs[r] + "|")) + SubstituteEvery(after, p, parts)
  {
    hide Names, Match, RowPattern, GoodTitle, Cells, Front, Drop, Join, Fill, Concat, FindFrom, SubstituteEvery, Search;
    before, after := SearchStops(text, p);
    var cs, r := Cells(text), FindFrom(Cells(text), p, 1);
    RowTakes(p, cs[r], cs[r + 1], after);
    assert text[|before|..] == "|" + (cs[r] + ("|" + (cs[r + 1] + ("|" + after))));
    CutText(before, cs[r], cs[r + 1], after, text);
    all := "|" + (cs[r] + "|") + (cs[r + 1] + "|");
    SubstituteStep(text, p, parts, |before|, all);
  }

  lemma SubstituteStep(text: string, p: LabelPattern, parts: seq<Part>, i: nat, all: string)
    requires Search(RowPattern(p), text) == Some(i) && i + |all| <= |text| && all != ""
    requires var m := Match(RowPattern(p), text[i..]); m.Matched? && all == Front(m.parts, RowStart(p)) + Concat(Drop(m.parts, RowStart(p)))
    ensures SubstituteEvery(text, p, parts)
         == text[..i] + Fill(parts, all, Front(Match(RowPattern(p), text[i..]).parts, RowStart(p))) + SubstituteEvery(text[i + |all|..], p, parts)
  {
    hide Match, RowPattern, Front, Drop, Fill, Concat, Search;
  }

  lemma NoMatchLeft(text: string, p: LabelPattern, parts: seq<Part>)
    requires GoodTitle(p) && !Found(Cells(text), p)
    ensures SubstituteEvery(text, p, parts) == text
  {
    hide Names, Match, RowPattern, GoodTitle, Cells, Front, Drop, Join, Fill, Concat, FindFrom;
    JoinSplit(text);
    CellsBarFree(text);
    SearchCells(Cells(text), p);
  }

  /** The text before a match, the match's replacement and the rest, as cells. */
  lemma Spliced(cs: seq<string>, r: nat, value: string, rest: seq<string>, before: string)
    requires 1 <= r && r + 2 < |cs| && |rest| == |cs| - r - 2 && before == Join(cs[..r])
    ensures before + (("|" + (cs[r] + "|")) + (" " + (value + " |"))) + Join(rest)
         == Join(cs[..r + 1] + [" " + value + " "] + rest)
  {
    hide Join;
    var x := " " + value + " ";
    var next := cs[..r + 1] + [x] + rest;
    assert next[..r] == cs[..r] && next[r + 2..] == rest && next[r + 1 := x] == next && next[r] == cs[r];
    WrittenText(next, r, value, before, Join(rest));
    assert " " + value + " |" == " " + (value + " |");
  }

  // ---- every row with a title, in a document ----

  lemma EveryShift(a: seq<string>, b: seq<string>, p: LabelPattern, x: string)
    requires a != [] && b != []
    requires var r, s := FindFrom(a + b, p, 1), FindFrom(b, p, 1);
             (s < |b| ==> r == s + |a|) && (s >= |b| ==> r >= |a| + |b|)
    ensures EveryCell(a + b, p, x) == a + EveryCell(b, p, x)
  {
    hide Names, EveryCell, FindFrom;
    FindIs(b, p, 1);
    FindIs(a + b, p, 1);
    EveryStep(b, p, x);
    EveryStep(a + b, p, x);
    var s := FindFrom(b, p, 1);
    if s < |b| {
      assert (a + b)[..s + |a| + 1] == a + b[..s + 1] && (a + b)[s + |a| + 2..] == b[s + 2..];
    }
  }

  lemma EveryStep(cells: seq<string>, p: LabelPattern, x: string)
    requires |cells| >= 1
    ensures var r := FindFrom(cells, p, 1);
            && (r < |cells| ==> r + 2 < |cells| && EveryCell(cells, p, x) == cells[..r + 1] + [x] + EveryCell(cells[r + 2..], p, x))
            && (r >= |cells| ==> EveryCell(cells, p, x) == cells)
  {
    hide Names, FindFrom;
    FindIs(cells, p, 1);
  }

  lemma EveryFirst(cells: seq<string>, p: LabelPattern, x: string)
    requires |cells| >= 4 && FindFrom(cells, p, 1) == 1
    ensures EveryCell(cells, p, x) == [cells[0], cells[1], x] + EveryCell(cells[3..], p, x)
  {
    hide Names;
  }

  lemma FirstCells(x: string, rows: seq<Row>)
    requires rows != []
    ensures [x] + RowCells(rows) == [x, rows[0].title, rows[0].value] + ([rows[0].gap] + RowCells(rows[1..]))
  {
  }

  lemma SetEveryFirst(rows: seq<Row>, field: string, v: string)
    requires rows != []
    ensures var first := if Names(rows[0].title, Exact(field)) then rows[0].(value := Cell(v)) else rows[0];
            SetEvery(rows, field, v) != [] && SetEvery(rows, field, v)[0] == first && SetEvery(rows, field, v)[1..] == SetEvery(rows[1..], field, v)
  {
    hide Names, Cell;
  }

  lemma NoneSet(field: string, v: string)
    ensures SetEvery([], field, v) == []
  {
  }

  /** The cells of one row written or passed over, the rest left to the next search. */
  lemma FirstRowWritten(cells: seq<string>, r: Row, after: seq<string>, p: LabelPattern, v: string)
    requires after != [] && after[0] == r.gap && |cells| >= 4 && cells == [cells[0], r.title, r.value] + after
    requires !Names(r.value, p) && !Names(r.gap, p) && '\n' !in Strip(r.value)
    ensures EveryCell(cells, p, v) == [cells[0], r.title, if Names(r.title, p) then v else r.value] + EveryCell(after, p, v)
  {
    hide Names, EveryCell, FindFrom, Strip;
    var head := [cells[0], r.title, r.value];
    FindShift(head, after, p, 1);
    SkipRow(cells, p);
    if Names(r.title, p) {
      EveryFirst(cells, p, v);
      assert cells[3..] == after;
    } else {
      EveryShift(head, after, p, v);
    }
  }

  lemma {:induction false} EveryRow(x: string, rows: seq<Row>, T: set<LabelPattern>, field: string, v: string)
    requires RowsOk(rows, T) && Exact(field) in T
    ensures EveryCell([x] + RowCells(rows), Exact(field), Cell(v)) == [x] + RowCells(SetEvery(rows, field, v))
    decreases |rows|
  {
    hide Names, RowOk, RowsOk, EveryCell, FindFrom, Strip, RowCells, SetEvery, Cell;
    var p := Exact(field);
    if rows == [] {
      NoRows(x, p, Cell(v));
      NoneSet(field, v);
    } else {
      var r, rest := rows[0], RowCells(rows[1..]);
      var cells := [x] + RowCells(rows);
      RowsTail(rows, T);
      RowReads(r, T, p);
      FirstCells(x, rows);
      EveryRow(r.gap, rows[1..], T, field, v);
      FirstRowWritten(cells, r, [r.gap] + rest, p, Cell(v));
      SetEveryFirst(rows, field, v);
      FirstCells(x, SetEvery(rows, field, v));
    }
  }

  lemma NoRows(x: string, p: LabelPattern, v: string)
    ensures EveryCell([x] + RowCells([]), p, v) == [x]
  {
    assert [x] + RowCells([]) == [x];
  }

  lemma {:induction false} SetEveryOk(rows: seq<Row>, T: set<LabelPattern>, field: string, v: string)
    requires RowsOk(rows, T) && FitValue(v, T)
    ensures RowsOk(SetEvery(rows, field, v), T)
    ensures |SetEvery(rows, field, v)| == |rows|
    ensures forall i :: 0 <= i < |rows| ==> SetEvery(rows, field, v)[i].gap == rows[i].gap && SetEvery(rows, field, v)[i].title == rows[i].title
  {
    if rows != [] {
      hide Names, Clean, Untitled, LineEnd, AfterLine;
      assert RowOk(rows[0], T);
      PaddedClean(v);
      SetEveryOk(rows[1..], T, field, v);
      assert forall i :: 0 <= i < |rows| - 1 ==> rows[1..][i] == rows[i + 1];
      var next := SetEvery(rows, field, v);
      forall i | 0 <= i < |next| ensures RowOk(next[i], T) {
        if i > 0 { assert next[i] == SetEvery(rows[1..], field, v)[i - 1]; }
      }
    }
  }

  /** On a well-formed document the text write of every match sets every row with the title. */
  lemma WriteEveryRendered(d: Doc, T: set<LabelPattern>, field: string, v: string)
    requires WellFormed(d, T) && Exact(field) in T && FitValue(v, T)
    ensures var e := d.(rows := SetEvery(d.rows, field, v));
            WellFormed(e, T) && WriteEvery(Render(d), Exact(field), v) == Render(e)
  {
    hide Untitled, RowsOk, SetEvery, RenderRows, EveryCell;
    var e := d.(rows := SetEvery(d.rows, field, v));
    SetEveryOk(d.rows, T, field, v);
    RowsSplit(d.pre, d.rows, T);
    RowsSplit(e.pre, e.rows, T);
    EveryRow(d.pre, d.rows, T, field, v);
    JoinSplit(Render(e));
  }

  // ---- the state block ----

  /** `m.group(1).strip() if m else ""` */
  function ExtractText(text: string, field: string): string {
    var r := SearchValue(text, Exact(field));
    if r.Some? then r.value else ""
  }

  /** `read_er_state_block`; `None` where the count is no number and `int` raises. */
  function ReadStateText(text: string): Option<State> {
    var count := ExtractText(text, "Frozen Count");
    var n := ParseInt(if count == "" then "0" else count);
    if n.None? then None else
      Some(State(ExtractText(text, "Current Layer"), ExtractText(text, "Current Artifact"), ExtractText(text, "Current Step"), n.value,
                 ExtractText(text, "Next Action"), ExtractText(text, "Blocking On"), ExtractText(text, "Last Updated")))
  }

  function WriteFieldsText(text: string, values: seq<string>, i: nat): Option<string>
    requires |values| == |FIELDS| && i <= |FIELDS|
  {
    if i == 0 then Some(text) else
      var before := WriteFieldsText(text, values, i - 1);
      if before.None? then None else Substituted(before.value, Exact(FIELDS[i - 1]), values[i - 1])
  }

  /** `write_er_state_block`; `None` where a substitution raises and the file stays as it was. */
  function WriteStateText(text: string, s: State): Option<string> { WriteFieldsText(text, Values(s), |FIELDS|) }

  /** `write_er_state_block`, field by field. */
  method WriteErStateBlock(text: string, s: State) returns (r: Option<string>)
    ensures r == WriteStateText(text, s)
  {
    hide Substituted, Values;
    var values := Values(s);
    FieldCount(s);
    var current := text;
    for i := 0 to |FIELDS|
      invariant |values| == |FIELDS| && WriteFieldsText(text, values, i) == Some(current)
    {
      var next := Substituted(current, Exact(FIELDS[i]), values[i]);
      if next.None? {
        StaysRaised(text, values, i + 1, |FIELDS|);
        return None;
      }
      current := next.value;
    }
    r := Some(current);
  }

  lemma {:induction false} StaysRaised(text: string, values: seq<string>, i: nat, n: nat)
    requires |values| == |FIELDS| && i <= n <= |FIELDS| && WriteFieldsText(text, values, i).None?
    ensures WriteFieldsText(text, values, n).None?
    decreases n
  {
    hide Substituted;
    if i < n { StaysRaised(text, values, i, n - 1); }
  }

  /** The write raises exactly when the value of some field is no template, whatever the text. */
  lemma WriteRaisesIff(text: string, s: State)
    ensures WriteStateText(text, s).None? <==> exists i :: 0 <= i < |FIELDS| && i < |Values(s)| && !IsTemplate(Values(s)[i])
  {
    hide Values, IsTemplate;
    FieldCount(s);
    RaisesFrom(text, Values(s), |FIELDS|);
  }

  lemma {:induction false} RaisesFrom(text: string, values: seq<string>, n: nat)
    requires |values| == |FIELDS| && n <= |FIELDS|
    ensures WriteFieldsText(text, values, n).None? <==> exists i :: 0 <= i < n && !IsTemplate(values[i])
    decreases n
  {
    hide Substituted, IsTemplate;
    if n > 0 {
      RaisesFrom(text, values, n - 1);
      var before := WriteFieldsText(text, values, n - 1);
      if before.Some? { SubstitutedIff(before.value, Exact(FIELDS[n - 1]), values[n - 1]); }
    }
  }

  lemma SubstitutedIff(text: string, p: LabelPattern, value: string)
    ensures Substituted(text, p, value).Some? <==> IsTemplate(value)
  {
    hide SubstituteEvery, ParseTemplate, RowTemplate;
  }

  // ---- the record as a document ----

  const ER_TITLES: set<LabelPattern> := set i | 0 <= i < |FIELDS| :: Exact(FIELDS[i])

  /** A record whose prose and cells hold no title where none belongs. */
  predicate RecordOk(d: Doc) { WellFormed(d, ER_TITLES) }

  /** A value that a row of the record can hold and a template leaves alone. */
  predicate RecordFit(v: string) { FitValue(v, ER_TITLES) && '\\' !in v }

  predicate StateFits(s: State) {
    RecordFit(s.layer) && RecordFit(s.artifact) && RecordFit(s.step) && RecordFit(s.nextAction) && RecordFit(s.blockingOn) && RecordFit(s.lastUpdated)
  }

  lemma FieldIsTitle(i: nat)
    requires i < |FIELDS|
    ensures Exact(FIELDS[i]) in ER_TITLES && GoodTitle(Exact(FIELDS[i]))
  {
    assert FIELDS[i] in FIELDS;
    FieldsAreGood(FIELDS[i]);
  }

  lemma FieldsAreGood(f: string)
    requires f in FIELDS
    ensures GoodTitle(Exact(f)) && f != "" && 'a' <= LowerChar(f[0]) <= 'z'
  {
  }

  /** Reading the text is reading the rows. */
  lemma ExtractRendered(d: Doc, i: nat)
    requires RecordOk(d) && i < |FIELDS|
    ensures ExtractText(Render(d), FIELDS[i]) == Extract(d.rows, FIELDS[i])
  {
    hide Names, WellFormed, ReadCell, SearchValue, GoodTitle;
    FieldIsTitle(i);
    SearchReadsCell(Render(d), Exact(FIELDS[i]));
    ReadRendered(d, ER_TITLES, Exact(FIELDS[i]));
    RawRowIs(d.rows, Exact(FIELDS[i]));
  }

  lemma ReadStateRendered(d: Doc)
    requires RecordOk(d)
    ensures ReadStateText(Render(d)) == ReadState(d)
  {
    hide RecordOk, Extract, ExtractText, ParseInt;
    ExtractRendered(d, 0); ExtractRendered(d, 1); ExtractRendered(d, 2); ExtractRendered(d, 3);
    ExtractRendered(d, 4); ExtractRendered(d, 5); ExtractRendered(d, 6);
  }

  lemma {:induction false} WriteFieldsRendered(d: Doc, values: seq<string>, n: nat)
    requires RecordOk(d) && |values| == |FIELDS| && n <= |FIELDS| && forall i :: 0 <= i < |values| ==> RecordFit(values[i])
    ensures var e := d.(rows := WriteFields(d.rows, values, n));
            RecordOk(e) && WriteFieldsText(Render(d), values, n) == Some(Render(e))
    decreases n
  {
    hide Names, WellFormed, Substituted, FitValue, Render, WriteEvery, SetEvery, GoodTitle;
    if n > 0 {
      WriteFieldsRendered(d, values, n - 1);
      var e := d.(rows := WriteFields(d.rows, values, n - 1));
      FieldIsTitle(n - 1);
      FitIsPlain(values[n - 1]);
      WriteEveryRendered(e, ER_TITLES, FIELDS[n - 1], values[n - 1]);
      SubstitutesEveryCell(Render(e), Exact(FIELDS[n - 1]), values[n - 1]);
    }
  }

  lemma FitIsPlain(v: string)
    requires RecordFit(v)
    ensures '\\' !in v && Trimmed(v) && FitValue(v, ER_TITLES)
  {
    hide Untitled;
  }

  lemma NumberFits(n: int)
    ensures RecordFit(IntText(n))
  {
    hide IntText, Names, Trimmed;
    var s := IntText(n);
    IntReads(n);
    IntChars(n);
    assert s[0] in s;
    NumberIsPlain(s);
    forall p | p in ER_TITLES ensures !Names(" " + s + " ", p) {
      FieldsAreGood(p.title);
      NumberIsNoTitle(s, p.title);
    }
  }

  lemma NumberIsPlain(s: string)
    requires Trimmed(s) && forall c :: c in s ==> c == '-' || IsDigit(c)
    ensures PlainValue(s) && Clean(s)
  {
  }

  /** A text whose first character is no letter is no title. */
  lemma NumberIsNoTitle(s: string, title: string)
    requires PlainValue(s) && s != "" && (s[0] == '-' || IsDigit(s[0])) && title != "" && 'a' <= LowerChar(title[0]) <= 'z'
    ensures !Names(" " + s + " ", Exact(title))
  {
    hide Lower, Names;
    PaddedValue(s);
    LowerAt(s);
    LowerAt(title);
    assert Lower(s)[0] == LowerChar(s[0]) && Lower(title)[0] == LowerChar(title[0]);
    NamesExactly(" " + s + " ", title);
  }

  lemma NamesExactly(cell: string, title: string)
    ensures Names(cell, Exact(title)) <==> Lower(Strip(cell)) == Lower(title)
  {
  }

  lemma IntChars(n: int)
    ensures forall c :: c in IntText(n) ==> c == '-' || IsDigit(c)
  {
    NatTextDigits(if n < 0 then -n else n);
  }

  lemma ValuesFit(s: State)
    requires StateFits(s)
    ensures |Values(s)| == |FIELDS| && forall i :: 0 <= i < |Values(s)| ==> RecordFit(Values(s)[i])
  {
    hide RecordFit, IntText;
    NumberFits(s.frozenCount);
  }

  /** The text written is the text of the written rows. */
  lemma WriteStateRendered(d: Doc, s: State)
    requires RecordOk(d) && StateFits(s)
    ensures RecordOk(WriteState(d, s)) && WriteStateText(Render(d), s) == Some(Render(WriteState(d, s)))
  {
    hide RecordOk, StateFits, Values, WriteFields, WriteFieldsText;
    ValuesFit(s);
    WriteFieldsRendered(d, Values(s), |FIELDS|);
  }

  /** The write, then the read, of the code's own text: with all seven rows in a well-formed record and values
      the rows can hold, the state written is the state read. */
  lemma WriteThenReadText(d: Doc, s: State)
    requires RecordOk(d) && AllRows(d) && StateFits(s)
    ensures WriteStateText(Render(d), s).Some? && ReadStateText(WriteStateText(Render(d), s).value) == Some(s)
  {
    hide RecordOk, WriteState, WriteStateText, ReadStateText, ReadState, AllRows, RecordFit, Trimmed;
    WriteStateRendered(d, s);
    FitIsPlain(s.layer); FitIsPlain(s.artifact); FitIsPlain(s.step); FitIsPlain(s.nextAction); FitIsPlain(s.blockingOn); FitIsPlain(s.lastUpdated);
    WriteThenReadState(d, s);
    ReadStateRendered(WriteState(d, s));
  }

  predicate NoBackslash(s: State) {
    && '\\' !in s.layer && '\\' !in s.artifact && '\\' !in s.step
    && '\\' !in s.nextAction && '\\' !in s.blockingOn && '\\' !in s.lastUpdated
  }

  /** What a well-formed record reads can be written back, but for backslashes. */
  lemma ReadFits(d: Doc)
    requires RecordOk(d) && ReadState(d).Some? && NoBackslash(ReadState(d).value)
    ensures StateFits(ReadState(d).value)
  {
    hide RecordOk, Extract, ParseInt, RecordFit;
    ExtractFits(d, "Current Layer"); ExtractFits(d, "Current Artifact"); ExtractFits(d, "Current Step");
    ExtractFits(d, "Next Action"); ExtractFits(d, "Blocking On"); ExtractFits(d, "Last Updated");
  }

  lemma ExtractFits(d: Doc, field: string)
    requires RecordOk(d) && '\\' !in Extract(d.rows, field)
    ensures RecordFit(Extract(d.rows, field))
  {
    hide Names, RawRow, RowIndex;
    var r := RowIndex(d.rows, Exact(field));
    RawRowIs(d.rows, Exact(field));
    if r < |d.rows| {
      assert RowOk(d.rows[r], ER_TITLES);
      StrippedFits(d.rows[r].value);
    } else {
      BlankFits();
    }
  }

  lemma StrippedFits(v: string)
    requires Clean(v) && '\n' !in v && Untitled(v, ER_TITLES) && '\\' !in Strip(v)
    ensures RecordFit(Strip(v))
  {
    hide Lower, StripLeft, StripRight;
    StripIs(v);
    StripPadded(" ", Strip(v), " ");
    forall p | p in ER_TITLES ensures !Names(" " + Strip(v) + " ", p) {
      assert !Names(v, p);
    }
  }

  lemma BlankFits()
    ensures RecordFit("")
  {
    hide Names, Lower;
    StripPadded(" ", "", " ");
    forall p | p in ER_TITLES ensures !Names(" " + "" + " ", p) {
      FieldsAreGood(p.title);
      LowerAt(p.title);
      LowerAt("");
      NamesExactly(" " + "" + " ", p.title);
    }
  }
}
