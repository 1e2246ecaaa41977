/** Documents as prose and two-column rows, and the proof that the text operations do to a rendered
    document what their names say: read, set and add rows. */
module ControlDoc {
  import opened Text
  import opened ControlText
  import opened ControlCells

  /** `|title|value|` and the text up to the next row. */
  datatype Row = Row(title: string, value: string, gap: string)

  datatype Doc = Doc(pre: string, rows: seq<Row>)

  function RowText(r: Row): string { "|" + (r.title + ("|" + (r.value + "|"))) }

  function RenderRows(rows: seq<Row>): string {
    if rows == [] then "" else RowText(rows[0]) + (rows[0].gap + RenderRows(rows[1..]))
  }

  /** The document's text. */
  function Render(d: Doc): string { d.pre + RenderRows(d.rows) }

  // ---- well-formed documents ----

  /** No bar, and no line boundary but `\n`. */
  predicate Clean(s: string) { BarFree(s) && forall c :: c in s ==> !IsExoticBreak(c) }

  /** The cell could not be taken for one of the titles in use. */
  predicate Untitled(cell: string, T: set<LabelPattern>) { forall p :: p in T ==> !Names(cell, p) }

  /** The rest of the row's line, and what follows it. */
  function LineEnd(gap: string): string {
    if gap == "" then "" else if gap[0] == '\n' then "\n" else [gap[0]] + LineEnd(gap[1..])
  }

  function AfterLine(gap: string): string {
    if gap == "" then "" else if gap[0] == '\n' then gap[1..] else AfterLine(gap[1..])
  }

  /** A row on a line of its own whose value is no title; titles stand in title cells only. */
  predicate RowOk(r: Row, T: set<LabelPattern>) {
    && Clean(r.title) && Clean(r.value) && Clean(r.gap) && '\n' !in r.title && '\n' !in r.value
    && Untitled(r.value, T) && Untitled(r.gap, T) && Untitled(LineEnd(r.gap), T) && Untitled(AfterLine(r.gap), T)
    && (ArtifactId in T && Names(r.title, ArtifactId) ==> Names(r.title, Exact("Artifact ID")))
  }

  predicate RowsOk(rows: seq<Row>, T: set<LabelPattern>) {
    && (forall i :: 0 <= i < |rows| ==> RowOk(rows[i], T))
    && (forall i :: 0 <= i < |rows| - 1 ==> '\n' in rows[i].gap)
  }

  predicate WellFormed(d: Doc, T: set<LabelPattern>) { Clean(d.pre) && Untitled(d.pre, T) && RowsOk(d.rows, T) }

  // ---- reading and setting rows ----

  function RowIndex(rows: seq<Row>, p: LabelPattern): (r: nat)
    ensures r <= |rows| && (r < |rows| ==> Names(rows[r].title, p))
    ensures forall i :: 0 <= i < r ==> !Names(rows[i].title, p)
  {
    if rows == [] then 0 else if Names(rows[0].title, p) then 0 else
      var r := RowIndex(rows[1..], p);
      assert forall i :: 1 <= i < r + 1 ==> rows[i] == rows[1..][i - 1];
      r + 1
  }

  function ReadDoc(d: Doc, p: LabelPattern): Option<string> {
    var r := RowIndex(d.rows, p);
    if r < |d.rows| then Some(Strip(d.rows[r].value)) else None
  }

  function SetRows(rows: seq<Row>, p: LabelPattern, v: string): seq<Row> {
    var r := RowIndex(rows, p);
    if r < |rows| then rows[r := rows[r].(value := " " + v + " ")] else rows
  }

  function SetDoc(d: Doc, p: LabelPattern, v: string): Doc { d.(rows := SetRows(d.rows, p, v)) }

  // ---- the text of a document, cell by cell ----

  function RowCells(rows: seq<Row>): seq<string> {
    if rows == [] then [] else [rows[0].title, rows[0].value, rows[0].gap] + RowCells(rows[1..])
  }

  lemma {:induction false} RowCellsAt(rows: seq<Row>, r: nat)
    requires r < |rows|
    ensures |RowCells(rows)| == 3 * |rows|
    ensures RowCells(rows)[3 * r] == rows[r].title && RowCells(rows)[3 * r + 1] == rows[r].value
  {
    if r > 0 {
      RowCellsAt(rows[1..], r - 1);
    } else if |rows| > 1 {
      RowCellsAt(rows[1..], 0);
    }
  }

  lemma RowsTail(rows: seq<Row>, T: set<LabelPattern>)
    requires rows != [] && RowsOk(rows, T)
    ensures RowOk(rows[0], T) && RowsOk(rows[1..], T)
  {
    hide RowOk;
    assert forall i :: 0 <= i < |rows[1..]| ==> rows[1..][i] == rows[i + 1];
  }

  lemma RowIsBarFree(r: Row, T: set<LabelPattern>)
    requires RowOk(r, T)
    ensures BarFree(r.title) && BarFree(r.value) && BarFree(r.gap)
  {
    hide Untitled, LineEnd, AfterLine, Names;
  }

  lemma FirstRow(x: string, rows: seq<Row>)
    requires rows != []
    ensures x + RenderRows(rows) == x + (RowText(rows[0]) + (rows[0].gap + RenderRows(rows[1..])))
    ensures [x] + RowCells(rows) == [x, rows[0].title, rows[0].value] + ([rows[0].gap] + RowCells(rows[1..]))
  {
    hide RowText;
    assert RowText(rows[0]) + (rows[0].gap + RenderRows(rows[1..])) == RenderRows(rows);
  }

  lemma {:induction false} RowsSplit(x: string, rows: seq<Row>, T: set<LabelPattern>)
    requires BarFree(x) && RowsOk(rows, T)
    ensures Cells(x + RenderRows(rows)) == [x] + RowCells(rows)
    decreases |rows|
  {
    if rows == [] {
      assert x + "" == x;
      SplitNone(x, '|');
    } else {
      hide RowOk, RowsOk, RowText, RenderRows, RowCells, Cells;
      var r := rows[0];
      RowsTail(rows, T);
      RowIsBarFree(r, T);
      RowsSplit(r.gap, rows[1..], T);
      RowCut(x, r, r.gap + RenderRows(rows[1..]));
      FirstRow(x, rows);
    }
  }

  lemma RowCut(x: string, r: Row, after: string)
    requires BarFree(x) && BarFree(r.title) && BarFree(r.value)
    ensures Cells(x + (RowText(r) + after)) == [x, r.title, r.value] + Cells(after)
  {
    var s2 := r.value + (['|'] + after);
    var s1 := r.title + (['|'] + s2);
    assert x + (RowText(r) + after) == x + (['|'] + s1);
    SplitCut(r.value, after, '|');
    SplitCut(r.title, s2, '|');
    SplitCut(x, s1, '|');
  }

  lemma {:induction false} FindShift(a: seq<string>, cells: seq<string>, p: LabelPattern, j: nat)
    requires 1 <= j
    ensures var r, s := FindFrom(cells, p, j), FindFrom(a + cells, p, j + |a|);
            (r < |cells| ==> s == r + |a|) && (r >= |cells| ==> s >= |a| + |cells|)
    decreases |cells| - j
  {
    hide Names;
    if j + 2 < |cells| {
      assert (a + cells)[j + |a|] == cells[j] && (a + cells)[j + |a| + 1] == cells[j + 1];
      FindShift(a, cells, p, j + 1);
    }
  }

  lemma ValueOneLine(v: string)
    requires '\n' !in v
    ensures '\n' !in Strip(v)
  {
    StripIs(v);
  }

  /** The first row found in the text is the first row with that title. */
  lemma {:induction false} FindInRows(x: string, rows: seq<Row>, T: set<LabelPattern>, p: LabelPattern)
    requires RowsOk(rows, T) && p in T
    ensures var cells := [x] + RowCells(rows); var r := RowIndex(rows, p);
            if r < |rows| then FindFrom(cells, p, 1) == 3 * r + 1 && 3 * r + 3 < |cells| else FindFrom(cells, p, 1) >= |cells|
    decreases |rows|
  {
    hide Names;
    if rows != [] {
      hide RowOk, RowsOk, Strip, FindFrom, RowCells, RowIndex;
      var r := rows[0];
      RowsTail(rows, T);
      RowReads(r, T, p);
      FirstRow(x, rows);
      FindInRows(r.gap, rows[1..], T, p);
      PastRow([x, r.title, r.value], [r.gap] + RowCells(rows[1..]), p);
      NextIndex(rows, p);
      assert |[x] + RowCells(rows)| == |[r.gap] + RowCells(rows[1..])| + 3;
    } else {
      assert [x] + RowCells(rows) == [x];
    }
  }

  lemma NextIndex(rows: seq<Row>, p: LabelPattern)
    requires rows != []
    ensures RowIndex(rows, p) == if Names(rows[0].title, p) then 0 else RowIndex(rows[1..], p) + 1
  {
    hide Names;
  }

  lemma RowReads(r: Row, T: set<LabelPattern>, p: LabelPattern)
    requires RowOk(r, T) && p in T
    ensures !Names(r.value, p) && !Names(r.gap, p) && '\n' !in Strip(r.value)
  {
    hide Names, LineEnd, AfterLine;
    ValueOneLine(r.value);
  }

  /** Where a search goes that starts at a row's title. */
  lemma PastRow(head: seq<string>, rest: seq<string>, p: LabelPattern)
    requires |head| == 3 && rest != [] && '\n' !in Strip(head[2]) && !Names(head[2], p) && !Names(rest[0], p)
    ensures var r, s := FindFrom(head + rest, p, 1), FindFrom(rest, p, 1);
            if Names(head[1], p) then r == 1 else if s < |rest| then r == s + 3 else r >= |rest| + 3
  {
    hide Names, FindFrom, Strip;
    FindShift(head, rest, p, 1);
    SkipRow(head + rest, p);
  }

  lemma SkipRow(cells: seq<string>, p: LabelPattern)
    requires |cells| >= 4 && '\n' !in Strip(cells[2]) && !Names(cells[2], p) && !Names(cells[3], p)
    ensures Names(cells[1], p) ==> FindFrom(cells, p, 1) == 1
    ensures !Names(cells[1], p) && FindFrom(cells, p, 4) < |cells| ==> FindFrom(cells, p, 1) == FindFrom(cells, p, 4)
    ensures !Names(cells[1], p) && FindFrom(cells, p, 4) >= |cells| ==> FindFrom(cells, p, 1) >= |cells|
  {
    hide Names;
    assert |cells| > 4 ==> FindFrom(cells, p, 2) == FindFrom(cells, p, 3);
    assert |cells| > 5 ==> FindFrom(cells, p, 3) == FindFrom(cells, p, 4);
  }

  lemma FindInDoc(d: Doc, T: set<LabelPattern>, p: LabelPattern)
    requires WellFormed(d, T) && p in T
    ensures Cells(Render(d)) == [d.pre] + RowCells(d.rows)
    ensures var r := RowIndex(d.rows, p);
            if r < |d.rows| then FindFrom(Cells(Render(d)), p, 1) == 3 * r + 1 && 3 * r + 3 < |Cells(Render(d))|
            else !Found(Cells(Render(d)), p)
  {
    RowsSplit(d.pre, d.rows, T);
    FindInRows(d.pre, d.rows, T, p);
  }

  /** Searching the text of a well-formed document is reading its first row with that title. */
  lemma ReadRendered(d: Doc, T: set<LabelPattern>, p: LabelPattern)
    requires WellFormed(d, T) && p in T
    ensures ReadCell(Render(d), p) == ReadDoc(d, p)
  {
    hide Names;
    FindInDoc(d, T, p);
    var r := RowIndex(d.rows, p);
    if r < |d.rows| { RowCellsAt(d.rows, r); }
  }

  lemma {:induction false} RowCellsSet(rows: seq<Row>, r: nat, x: string)
    requires r < |rows|
    ensures |RowCells(rows)| == 3 * |rows|
    ensures RowCells(rows[r := rows[r].(value := x)]) == RowCells(rows)[3 * r + 1 := x]
  {
    RowCellsAt(rows, r);
    if r > 0 {
      RowCellsSet(rows[1..], r - 1, x);
      assert rows[r := rows[r].(value := x)][1..] == rows[1..][r - 1 := rows[r].(value := x)];
      var head := [rows[0].title, rows[0].value, rows[0].gap];
      assert head + RowCells(rows[1..])[3 * (r - 1) + 1 := x] == (head + RowCells(rows[1..]))[3 * r + 1 := x];
    } else {
      assert rows[0 := rows[0].(value := x)][1..] == rows[1..];
    }
  }

  lemma SetKeepsWellFormed(d: Doc, T: set<LabelPattern>, p: LabelPattern, v: string)
    requires WellFormed(d, T) && FitValue(v, T)
    ensures WellFormed(SetDoc(d, p, v), T)
  {
    hide Names;
    var r := RowIndex(d.rows, p);
    if r < |d.rows| {
      assert RowOk(d.rows[r], T);
      PaddedClean(v);
    }
  }

  /** A value that can be written without upsetting the table: plain, and no title. */
  predicate FitValue(v: string, T: set<LabelPattern>) {
    PlainValue(v) && Clean(v) && Untitled(" " + v + " ", T)
  }

  lemma PaddedClean(v: string)
    requires Clean(v) && '\n' !in v
    ensures Clean(" " + v + " ") && '\n' !in " " + v + " "
  {
    assert forall c :: c in " " + v + " " ==> c == ' ' || c in v;
  }

  /** The one-cell write on the text is the one-row write on the document. */
  lemma WriteRendered(d: Doc, T: set<LabelPattern>, p: LabelPattern, v: string)
    requires WellFormed(d, T) && p in T && FitValue(v, T)
    ensures WriteCell(Render(d), p, v) == Render(SetDoc(d, p, v))
  {
    hide Names, Untitled, RowsOk, RowCells, RenderRows, FindFrom, RowIndex;
    FindInDoc(d, T, p);
    var r := RowIndex(d.rows, p);
    if r < |d.rows| {
      var x := " " + v + " ";
      RowCellsSet(d.rows, r, x);
      SetKeepsWellFormed(d, T, p, v);
      var e := SetDoc(d, p, v);
      RowsSplit(e.pre, e.rows, T);
      JoinSplit(Render(e));
      assert Cells(Render(d))[3 * r + 2 := x] == [d.pre] + RowCells(d.rows)[3 * r + 1 := x];
    }
  }
}
