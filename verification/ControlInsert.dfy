/** Adding rows: on a well-formed document the line splicing of `upsert_document_control_rows` puts the
    new rows at the end of the block that holds the Artifact ID row, and nowhere else. */
module ControlInsert {
  import opened Text
  import opened ControlText
  import opened ControlCells
  import opened ControlDoc

  // ---- the row-level meaning ----

  /** The next row stands on the next line, with nothing before it but blanks. */
  predicate Adjacent(gap: string) { AllSpace(AfterLine(gap)) && '\n' !in AfterLine(gap) }

  /** New rows, the last one followed by `tail`. */
  function NewRows(es: seq<Entry>, tail: string): seq<Row> {
    if es == [] then []
    else [Row(" " + es[0].title + " ", " " + es[0].value + " ", if |es| == 1 then "\n" + tail else "\n")] + NewRows(es[1..], tail)
  }

  function InsertInBlock(rows: seq<Row>, es: seq<Entry>): seq<Row>
    requires rows != []
    decreases |rows|
  {
    var g := rows[0].gap;
    if |rows| > 1 && Adjacent(g) then [rows[0]] + InsertInBlock(rows[1..], es)
    else [rows[0].(gap := Ended(LineEnd(g)))] + NewRows(es, AfterLine(g)) + rows[1..]
  }

  function InsertRowsInto(rows: seq<Row>, es: seq<Entry>): seq<Row>
    decreases |rows|
  {
    if rows == [] then []
    else if Names(rows[0].title, ArtifactId) then InsertInBlock(rows, es)
    else [rows[0]] + InsertRowsInto(rows[1..], es)
  }

  // ---- lines ----

  lemma {:induction false} LineParts(gap: string)
    ensures gap == LineEnd(gap) + AfterLine(gap)
    ensures '\n' in gap <==> EndsWithNewline(LineEnd(gap))
    ensures '\n' !in gap ==> LineEnd(gap) == gap && AfterLine(gap) == ""
    ensures forall c :: c in LineEnd(gap) || c in AfterLine(gap) ==> c in gap
    ensures forall i :: 0 <= i < |LineEnd(gap)| - 1 ==> LineEnd(gap)[i] != '\n'
  {
    if gap != "" && gap[0] != '\n' { LineParts(gap[1..]); }
  }

  predicate NoExotic(s: string) { forall c :: c in s ==> !IsExoticBreak(c) }

  /** One whole line, with or without its newline, then the rest. */
  lemma {:induction false} FirstLine(x: string, y: string)
    requires NoExotic(x) && x != "" && (forall i :: 0 <= i < |x| - 1 ==> x[i] != '\n')
    requires x[|x| - 1] == '\n' || y == ""
    ensures SplitLines(x + y) == [x] + SplitLines(y)
  {
    assert x[0] in x;
    if |x| == 1 {
      if x[0] == '\n' {
        assert (x + y)[1..] == y && x == ['\n'];
      } else {
        assert x + y == x && x[1..] == "" && SplitLines("") == [] && [x[0]] == x;
      }
    } else {
      assert (x + y)[1..] == x[1..] + y;
      FirstLine(x[1..], y);
      assert [x[0]] + x[1..] == x;
    }
  }

  lemma NoLines()
    ensures SplitLines("") == []
  {
  }

  /** A text cut after a newline splits into the lines of its parts. */
  lemma {:induction false} LinesAppend(x: string, y: string)
    requires NoExotic(x) && EndsWithNewline(x)
    ensures SplitLines(x + y) == SplitLines(x) + SplitLines(y)
    decreases |x|
  {
    hide SplitLines, LineEnd, AfterLine;
    var h, t := LineEnd(x), AfterLine(x);
    LineParts(x);
    HeadIsLine(x);
    FirstLine(h, t + y);
    FirstLine(h, t);
    assert x + y == h + (t + y);
    if t == "" {
      NoLines();
      assert t + y == y;
    } else {
      assert t[|t| - 1] == x[|x| - 1];
      LinesAppend(t, y);
      assert [h] + (SplitLines(t) + SplitLines(y)) == ([h] + SplitLines(t)) + SplitLines(y);
    }
  }

  lemma HeadIsLine(x: string)
    requires NoExotic(x) && EndsWithNewline(x)
    ensures LineEnd(x) != "" && NoExotic(LineEnd(x)) && NoExotic(AfterLine(x)) && EndsWithNewline(LineEnd(x))
  {
    hide IsExoticBreak;
    LineParts(x);
    assert x[|x| - 1] in x;
  }

  lemma {:induction false} LinesChars(s: string)
    ensures forall l, c :: l in SplitLines(s) && c in l ==> c in s
    decreases |s|
  {
    if s != "" {
      if s[0] == '\r' && |s| > 1 && s[1] == '\n' { LinesChars(s[2..]); } else { LinesChars(s[1..]); }
    }
  }

  lemma NoBarNoId(line: string)
    requires BarFree(line)
    ensures !HasId(line)
  {
    SplitNone(line, '|');
  }

  lemma BarFreeLines(s: string)
    requires BarFree(s)
    ensures forall l :: l in SplitLines(s) ==> !HasId(l) && !TableLine(l)
  {
    LinesChars(s);
    forall l | l in SplitLines(s) ensures !HasId(l) && !TableLine(l) {
      NoBarNoId(l);
      StripLeftIs(l);
      assert StripLeft(l) != "" ==> StripLeft(l)[0] in StripLeft(l);
    }
  }

  /** A row's line: blanks or prose, the row, the rest of the line. */
  lemma RowLineHasId(q: string, r: Row, h: string, T: set<LabelPattern>)
    requires BarFree(q) && BarFree(h) && RowOk(r, T) && ArtifactId in T
    ensures HasId(q + (RowText(r) + h)) <==> Names(r.title, ArtifactId)
  {
    hide Names;
    RowCut(q, r, h);
    SplitNone(h, '|');
    var cells := [q, r.title, r.value, h];
    assert Cells(q + (RowText(r) + h)) == cells;
    assert !HasIdFrom(cells, 3);
    assert !HasIdFrom(cells, 2);
  }

  lemma {:induction false} StripLeftKeeps(q: string, s: string)
    requires s != "" && !IsSpace(s[0])
    ensures AllSpace(q) ==> StripLeft(q + s) == s
    ensures !AllSpace(q) ==> StripLeft(q) != "" && StripLeft(q + s) == StripLeft(q) + s
  {
    if q == "" {
      assert q + s == s;
    } else if IsSpace(q[0]) {
      assert (q + s)[1..] == q[1..] + s;
      StripLeftKeeps(q[1..], s);
      assert AllSpace(q) <==> AllSpace(q[1..]);
    }
  }

  lemma RowLineIsTable(q: string, r: Row, h: string)
    requires BarFree(q)
    ensures TableLine(q + (RowText(r) + h)) <==> AllSpace(q)
  {
    StripLeftKeeps(q, RowText(r) + h);
    StripLeftIs(q);
    if !AllSpace(q) {
      var t := StripLeft(q);
      assert t[0] in t && (t + (RowText(r) + h))[0] == t[0];
    }
  }

  // ---- splicing ----

  lemma {:induction false} PassOver(a: seq<string>, b: seq<string>, added: seq<string>)
    requires forall l :: l in a ==> !HasId(l)
    ensures InsertLines(a + b, added) == Prefixed(a, InsertLines(b, added))
    decreases |a|
  {
    hide HasId, InsertAfterBlock;
    var r := InsertLines(b, added);
    if a == [] {
      assert a + b == b;
      if r.Some? { assert [] + r.value == r.value; }
    } else {
      assert (a + b)[1..] == a[1..] + b && a[0] in a;
      PassOver(a[1..], b, added);
      if r.Some? { assert [a[0]] + (a[1..] + r.value) == a + r.value; }
    }
  }

  lemma {:induction false} JoinLinesAppend(a: seq<string>, b: seq<string>)
    ensures JoinLines(a + b) == JoinLines(a) + JoinLines(b)
  {
    if a == [] {
      assert a + b == b;
    } else {
      assert (a + b)[1..] == a[1..] + b;
      JoinLinesAppend(a[1..], b);
      assert a[0] + (JoinLines(a[1..]) + JoinLines(b)) == (a[0] + JoinLines(a[1..])) + JoinLines(b);
    }
  }

  lemma RowLineText(e: Entry, s: string)
    ensures RowLine(e) + s == RowText(Row(" " + e.title + " ", " " + e.value + " ", "")) + ("\n" + s)
  {
  }

  /** The new lines, read as rows. */
  lemma {:induction false} RowLinesTail(es: seq<Entry>, tail: string)
    requires es != []
    ensures JoinLines(RowLines(es)) + tail == RenderRows(NewRows(es, tail))
  {
    hide RowLine, RowText;
    var e, rest := es[0], RowLines(es[1..]);
    assert RowLines(es)[1..] == rest && NewRows(es, tail)[1..] == NewRows(es[1..], tail);
    if |es| == 1 {
      assert rest == [] && NewRows(es[1..], tail) == [];
      RowLineText(e, tail);
      assert RowLine(e) + "" == RowLine(e) && "\n" + tail + "" == "\n" + tail;
    } else {
      RowLinesTail(es[1..], tail);
      RowLineText(e, JoinLines(rest) + tail);
      assert (RowLine(e) + JoinLines(rest)) + tail == RowLine(e) + (JoinLines(rest) + tail);
    }
    SameText(Row(" " + e.title + " ", " " + e.value + " ", ""), NewRows(es, tail)[0]);
  }

  lemma SameText(a: Row, b: Row)
    requires a.title == b.title && a.value == b.value
    ensures RowText(a) == RowText(b)
  {
  }

  lemma {:induction false} RenderAppend(a: seq<Row>, b: seq<Row>)
    ensures RenderRows(a + b) == RenderRows(a) + RenderRows(b)
  {
    hide RowText;
    if a == [] {
      assert a + b == b;
    } else {
      assert (a + b)[1..] == a[1..] + b;
      RenderAppend(a[1..], b);
      assert RowText(a[0]) + (a[0].gap + (RenderRows(a[1..]) + RenderRows(b)))
          == (RowText(a[0]) + (a[0].gap + RenderRows(a[1..]))) + RenderRows(b);
    }
  }

  function LineOf(q: string, r: Row): string { q + (RowText(r) + LineEnd(r.gap)) }

  lemma RowLineCut(q: string, rows: seq<Row>)
    requires rows != []
    ensures q + RenderRows(rows) == LineOf(q, rows[0]) + (AfterLine(rows[0].gap) + RenderRows(rows[1..]))
  {
    hide LineEnd, AfterLine, RowText;
    LineParts(rows[0].gap);
    CutFive(q, RowText(rows[0]), LineEnd(rows[0].gap), AfterLine(rows[0].gap), RenderRows(rows[1..]));
  }

  lemma CutFive(q: string, t: string, a: string, b: string, rest: string)
    ensures q + (t + ((a + b) + rest)) == (q + (t + a)) + (b + rest)
  {
  }

  lemma LastRowEnds(rows: seq<Row>)
    requires |rows| == 1 && '\n' !in rows[0].gap
    ensures AfterLine(rows[0].gap) + RenderRows(rows[1..]) == ""
  {
    LineParts(rows[0].gap);
  }

  /** A row's line comes off the front of the text. */
  lemma RowLineFirst(q: string, rows: seq<Row>, T: set<LabelPattern>)
    requires rows != [] && RowsOk(rows, T) && Clean(q) && '\n' !in q
    ensures SplitLines(q + RenderRows(rows))
         == [LineOf(q, rows[0])] + SplitLines(AfterLine(rows[0].gap) + RenderRows(rows[1..]))
  {
    hide SplitLines, LineEnd, AfterLine, RowOk, Clean, NoExotic, LineOf, RenderRows;
    var x, y := LineOf(q, rows[0]), AfterLine(rows[0].gap) + RenderRows(rows[1..]);
    assert RowOk(rows[0], T);
    RowLineCut(q, rows);
    RowLineShape(q, rows[0], T);
    if '\n' !in rows[0].gap {
      LastRowEnds(rows);
    }
    FirstLine(x, y);
  }

  lemma RowLineShape(q: string, r: Row, T: set<LabelPattern>)
    requires RowOk(r, T) && Clean(q) && '\n' !in q
    ensures var x := LineOf(q, r);
            && NoExotic(x) && x != "" && (forall i :: 0 <= i < |x| - 1 ==> x[i] != '\n')
            && ('\n' in r.gap ==> x[|x| - 1] == '\n')
  {
    hide IsExoticBreak, LineEnd, Names, Untitled;
    LineParts(r.gap);
    var h, head := LineEnd(r.gap), q + RowText(r);
    assert LineOf(q, r) == head + h;
    assert !IsExoticBreak('|') by { BarIsNoBreak(); }
    assert forall c :: c in head ==> c in q || c in r.title || c in r.value || c == '|';
    assert '\n' !in head;
  }

  lemma BarIsNoBreak()
    ensures !IsExoticBreak('|')
  {
  }

  /** Nothing after the block's last row looks like a table line. */
  lemma BlockStops(q: string, rows: seq<Row>, T: set<LabelPattern>)
    requires RowsOk(rows, T) && Clean(q) && (rows == [] || !AllSpace(q) || '\n' in q)
    ensures var ls := SplitLines(q + RenderRows(rows)); ls == [] || !TableLine(ls[0])
  {
    hide SplitLines, LineEnd, AfterLine, TableLine, RenderRows;
    if '\n' in q {
      LineParts(q);
      var h := LineEnd(q);
      HeadClean(q);
      FirstLine(h, AfterLine(q) + RenderRows(rows));
      assert q + RenderRows(rows) == h + (AfterLine(q) + RenderRows(rows));
      BarFreeLines(h);
      FirstLine(h, "");
      NoLines();
      assert h + "" == h && h in SplitLines(h);
    } else if rows == [] {
      assert RenderRows(rows) == "" by { NoRows(rows); }
      assert q + "" == q;
      BarFreeLines(q);
    } else {
      RowLineFirst(q, rows, T);
      RowLineIsTable(q, rows[0], LineEnd(rows[0].gap));
    }
  }

  lemma NoRows(rows: seq<Row>)
    requires rows == []
    ensures RenderRows(rows) == ""
  {
  }

  lemma HeadClean(q: string)
    requires Clean(q) && '\n' in q
    ensures var h := LineEnd(q); NoExotic(h) && BarFree(h) && h != "" && h[|h| - 1] == '\n'
  {
    hide IsExoticBreak;
    LineParts(q);
  }

  lemma EndedLine(p: string, r: Row)
    ensures Ended(LineOf(p, r)) == p + (RowText(r) + Ended(LineEnd(r.gap)))
  {
    hide LineEnd;
    var t, h := RowText(r), LineEnd(r.gap);
    assert t[|t| - 1] == '|';
    var line := LineOf(p, r);
    assert h == "" ==> line[|line| - 1] == '|';
    assert h != "" ==> line[|line| - 1] == h[|h| - 1];
    assert p + (t + (h + "\n")) == line + "\n";
  }

  lemma BlockRendered(p: string, row: Row, rows: seq<Row>, es: seq<Entry>, T: set<LabelPattern>)
    requires es != [] && RowsOk([row] + rows, T)
    ensures JoinLines(InsertAfterBlock(LineOf(p, row), SplitLines(AfterLine(row.gap) + RenderRows(rows)), RowLines(es)))
         == p + RenderRows(InsertInBlock([row] + rows, es))
    decreases |rows|
  {
    hide SplitLines, LineEnd, AfterLine, TableLine, RowLines, NewRows, RenderRows, Adjacent;
    var q := AfterLine(row.gap);
    TailOk(row, rows, T);
    if rows != [] && Adjacent(row.gap) {
      BlockGoesOn(p, row, rows, es, T);
      BlockRendered(q, rows[0], rows[1..], es, T);
      assert [rows[0]] + rows[1..] == rows;
    } else {
      BlockEndsHere(p, row, rows, es, T);
    }
  }

  lemma TailOk(row: Row, rows: seq<Row>, T: set<LabelPattern>)
    requires RowsOk([row] + rows, T)
    ensures RowsOk(rows, T) && RowOk(row, T) && Clean(AfterLine(row.gap)) && Clean(row.gap)
    ensures rows != [] ==> '\n' in row.gap && [rows[0]] + rows[1..] == rows
  {
    hide Names, IsExoticBreak, Untitled;
    var all := [row] + rows;
    assert all[0] == row && RowOk(all[0], T);
    forall i | 0 <= i < |rows| ensures RowOk(rows[i], T) { assert all[i + 1] == rows[i]; }
    forall i | 0 <= i < |rows| - 1 ensures '\n' in rows[i].gap { assert all[i + 1] == rows[i]; }
    LineParts(row.gap);
  }

  lemma BlockGoesOn(p: string, row: Row, rows: seq<Row>, es: seq<Entry>, T: set<LabelPattern>)
    requires rows != [] && RowsOk([row] + rows, T) && Adjacent(row.gap)
    ensures InsertAfterBlock(LineOf(p, row), SplitLines(AfterLine(row.gap) + RenderRows(rows)), RowLines(es))
         == [LineOf(p, row)] + InsertAfterBlock(LineOf(AfterLine(row.gap), rows[0]), SplitLines(AfterLine(rows[0].gap) + RenderRows(rows[1..])), RowLines(es))
    ensures RenderRows(InsertInBlock([row] + rows, es)) == RowText(row) + (row.gap + RenderRows(InsertInBlock(rows, es)))
    ensures forall s: string :: LineOf(p, row) + (AfterLine(row.gap) + s) == p + (RowText(row) + (row.gap + s))
  {
    hide SplitLines, LineEnd, AfterLine, TableLine, RowLines, NewRows;
    var q := AfterLine(row.gap);
    TailOk(row, rows, T);
    RowLineFirst(q, rows, T);
    RowLineIsTable(q, rows[0], LineEnd(rows[0].gap));
    var rest := SplitLines(AfterLine(rows[0].gap) + RenderRows(rows[1..]));
    assert ([LineOf(q, rows[0])] + rest)[1..] == rest;
    assert ([row] + rows)[1..] == rows;
    var out := InsertInBlock(rows, es);
    assert InsertInBlock([row] + rows, es) == [row] + out;
    assert ([row] + out)[1..] == out;
    LineParts(row.gap);
    forall s: string ensures LineOf(p, row) + (q + s) == p + (RowText(row) + (row.gap + s)) {
    }
  }

  lemma BlockEndsHere(p: string, row: Row, rows: seq<Row>, es: seq<Entry>, T: set<LabelPattern>)
    requires es != [] && RowsOk([row] + rows, T) && (rows == [] || !Adjacent(row.gap))
    ensures JoinLines(InsertAfterBlock(LineOf(p, row), SplitLines(AfterLine(row.gap) + RenderRows(rows)), RowLines(es)))
         == p + RenderRows(InsertInBlock([row] + rows, es))
  {
    hide SplitLines, LineEnd, AfterLine, TableLine, RowLines, NewRows;
    var q, g := AfterLine(row.gap), row.gap;
    TailOk(row, rows, T);
    BlockStops(q, rows, T);
    var ls := SplitLines(q + RenderRows(rows));
    SplitLinesJoin(q + RenderRows(rows));
    var line := LineOf(p, row);
    assert InsertAfterBlock(line, ls, RowLines(es)) == [Ended(line)] + RowLines(es) + ls;
    JoinLinesAppend([Ended(line)] + RowLines(es), ls);
    JoinLinesAppend([Ended(line)], RowLines(es));
    OneString(Ended(line));
    EndedLine(p, row);
    RowLinesTail(es, q);
    var last := row.(gap := Ended(LineEnd(g)));
    assert ([row] + rows)[1..] == rows;
    assert InsertInBlock([row] + rows, es) == [last] + NewRows(es, q) + rows;
    RenderAppend([last] + NewRows(es, q), rows);
    RenderAppend([last], NewRows(es, q));
    OneRow(last);
    SameText(row, last);
    Regroup(p, RowText(row), Ended(LineEnd(g)), JoinLines(RowLines(es)), q, RenderRows(rows));
  }

  lemma OneString(s: string)
    ensures JoinLines([s]) == s
  {
    assert [s][1..] == [] && s + "" == s;
  }

  lemma OneRow(r: Row)
    ensures RenderRows([r]) == RowText(r) + r.gap
  {
    assert [r][1..] == [] && r.gap + "" == r.gap;
  }

  lemma Regroup(p: string, t: string, h: string, added: string, q: string, rest: string)
    ensures (p + (t + h)) + added + (q + rest) == p + (((t + h) + (added + q)) + rest)
  {
  }

  /** Everything up to and including the last newline. */
  function WholeLines(q: string): string {
    if q == "" then "" else if q[|q| - 1] == '\n' then q else WholeLines(q[..|q| - 1])
  }

  lemma {:induction false} WholeLinesIs(q: string)
    ensures var w := WholeLines(q); w <= q && '\n' !in q[|w|..] && (w == "" || EndsWithNewline(w)) && q == w + q[|w|..]
  {
    if q != "" && q[|q| - 1] != '\n' {
      WholeLinesIs(q[..|q| - 1]);
      var w := WholeLines(q);
      assert q[|w|..] == q[..|q| - 1][|w|..] + [q[|q| - 1]];
    }
  }

  /** The lines of a text that starts with prose: those of the prose, then the first row's line. */
  lemma ProseThenRow(q: string, rows: seq<Row>, T: set<LabelPattern>) returns (w: string, p: string)
    requires rows != [] && RowsOk(rows, T) && Clean(q)
    ensures q == w + p && '\n' !in p && Clean(w) && Clean(p)
    ensures SplitLines(q + RenderRows(rows))
         == SplitLines(w) + ([LineOf(p, rows[0])] + SplitLines(AfterLine(rows[0].gap) + RenderRows(rows[1..])))
    ensures JoinLines(SplitLines(w)) == w
  {
    hide SplitLines, LineEnd, AfterLine, RenderRows, IsExoticBreak;
    w := WholeLines(q);
    WholeLinesIs(q);
    p := q[|w|..];
    RowLineFirst(p, rows, T);
    SplitLinesJoin(w);
    var rest := SplitLines(p + RenderRows(rows));
    if w == "" {
      NoLines();
      assert [] + rest == rest && q == p;
    } else {
      LinesAppend(w, p + RenderRows(rows));
      assert w + (p + RenderRows(rows)) == q + RenderRows(rows);
    }
  }

  /** Splicing the new lines into a document's text is inserting the new rows into the document. */
  lemma {:induction false} InsertRendered(q: string, rows: seq<Row>, es: seq<Entry>, T: set<LabelPattern>)
    requires es != [] && RowsOk(rows, T) && Clean(q) && ArtifactId in T && RowIndex(rows, ArtifactId) < |rows|
    ensures var r := InsertLines(SplitLines(q + RenderRows(rows)), RowLines(es));
            r.Some? && JoinLines(r.value) == q + RenderRows(InsertRowsInto(rows, es))
    decreases |rows|
  {
    hide SplitLines, LineEnd, AfterLine, RowLines, NewRows, Names, InsertInBlock, InsertAfterBlock, HasId, IsExoticBreak, RenderRows;
    var w, p := ProseThenRow(q, rows, T);
    var row, rest := rows[0], rows[1..];
    assert [row] + rest == rows;
    TailOk(row, rest, T);
    BarFreeLines(w);
    var line, later := LineOf(p, row), SplitLines(AfterLine(row.gap) + RenderRows(rest));
    LineParts(row.gap);
    RowLineHasId(p, row, LineEnd(row.gap), T);
    PassOver(SplitLines(w), [line] + later, RowLines(es));
    assert ([line] + later)[1..] == later;
    if Names(row.title, ArtifactId) {
      BlockRendered(p, row, rest, es, T);
      JoinLinesAppend(SplitLines(w), InsertAfterBlock(line, later, RowLines(es)));
      Associates(w, p, RenderRows(InsertInBlock(rows, es)));
    } else {
      InsertRendered(AfterLine(row.gap), rest, es, T);
      var r := InsertLines(later, RowLines(es)).value;
      JoinLinesAppend(SplitLines(w), [line] + r);
      FrontRow(p, row, InsertRowsInto(rest, es), r);
      Associates(w, p, RenderRows([row] + InsertRowsInto(rest, es)));
    }
  }

  lemma Associates(a: string, b: string, c: string)
    ensures a + (b + c) == a + b + c
  {
  }

  lemma FrontRow(p: string, row: Row, out: seq<Row>, lines: seq<string>)
    requires JoinLines(lines) == AfterLine(row.gap) + RenderRows(out)
    ensures JoinLines([LineOf(p, row)] + lines) == p + RenderRows([row] + out)
  {
    hide LineEnd, AfterLine;
    LineParts(row.gap);
    assert ([LineOf(p, row)] + lines)[1..] == lines && ([row] + out)[1..] == out;
    var a, b := LineEnd(row.gap), AfterLine(row.gap);
    assert (p + (RowText(row) + a)) + (b + RenderRows(out)) == p + (RowText(row) + ((a + b) + RenderRows(out)));
  }
}
