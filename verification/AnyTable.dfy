/** The upsert on any text at all, with tables of any width: what every label reads afterwards, and when a
    missing row lands where it will be read. */
module AnyTable {
  import opened Text
  import opened Template
  import opened ControlText
  import opened ControlCells
  import opened ControlDoc
  import opened ControlInsert
  import opened DocumentControl

  // ---- reading, along the cells ----

  function ReadSeq(cells: seq<string>, q: LabelPattern): Option<string> {
    if |cells| < 3 then None
    else if Names(cells[0], q) && '\n' !in Strip(cells[1]) then Some(Strip(cells[1]))
    else ReadSeq(cells[1..], q)
  }

  lemma {:induction false} SeqFrom(cells: seq<string>, q: LabelPattern, j: nat)
    requires 1 <= j <= |cells|
    ensures var r := FindFrom(cells, q, j);
            && (r < |cells| ==> r + 2 < |cells|)
            && ReadSeq(cells[j..], q) == if r < |cells| then Some(Strip(cells[r + 1])) else None
    decreases |cells| - j
  {
    hide Names, Strip;
    FindIs(cells, q, j);
    if j + 2 < |cells| {
      assert cells[j..][0] == cells[j] && cells[j..][1] == cells[j + 1] && cells[j..][1..] == cells[j + 1..];
      SeqFrom(cells, q, j + 1);
    }
  }

  /** The search starts behind the first bar. */
  lemma ReadIsSeq(text: string, q: LabelPattern)
    ensures ReadCell(text, q) == ReadSeq(Cells(text)[1..], q)
  {
    hide Names, Strip, ReadSeq;
    SeqFrom(Cells(text), q, 1);
  }

  /** A search finds its label among the first cells, whose last one is followed by `b[0]`, or goes on to the rest. */
  lemma {:induction false} ReadSplit(a: seq<string>, b: seq<string>, q: LabelPattern)
    requires b != [] && (|b| == 1 ==> a == [] || !Names(a[|a| - 1], q))
    ensures ReadSeq(a + b, q) == var h := ReadSeq(a + [b[0], ""], q); if h.Some? then h else ReadSeq(b, q)
  {
    hide Names, Strip;
    if a == [] {
      assert a + b == b && a + [b[0], ""] == [b[0], ""];
    } else {
      ReadSplit(a[1..], b, q);
      assert (a + b)[1..] == a[1..] + b && (a + [b[0], ""])[1..] == a[1..] + [b[0], ""];
      assert |a| > 1 ==> (a + b)[1] == a[1] && (a + [b[0], ""])[1] == a[1];
    }
  }

  /** What follows matters only to a label that stands last. */
  lemma {:induction false} HeadSame(a: seq<string>, z: string, z': string, q: LabelPattern)
    requires a == [] || !Names(a[|a| - 1], q)
    ensures ReadSeq(a + [z, ""], q) == ReadSeq(a + [z', ""], q)
  {
    hide Names, Strip;
    if a == [] {
      assert a + [z, ""] == [z, ""] && a + [z', ""] == [z', ""];
    } else {
      HeadSame(a[1..], z, z', q);
      assert (a + [z, ""])[1..] == a[1..] + [z, ""] && (a + [z', ""])[1..] == a[1..] + [z', ""];
      assert |a| > 1 ==> (a + [z, ""])[1] == a[1] && (a + [z', ""])[1] == a[1];
    }
  }

  /** A label that stands last is read with whatever blank follows it. */
  lemma {:induction false} HeadTaken(a: seq<string>, z: string, z': string, q: LabelPattern)
    requires a != [] && Names(a[|a| - 1], q) && AllSpace(z) && ReadSeq(a[..|a| - 1] + [a[|a| - 1], z'], q).None?
    ensures ReadSeq(a + [z, ""], q) == Some("")
  {
    hide Names;
    if |a| == 1 {
      StripAllSpace(z);
      assert a + [z, ""] == [a[0], z, ""];
    } else {
      var front, front' := a[..|a| - 1] + [a[|a| - 1], z'], a[1..][..|a| - 2] + [a[|a| - 1], z'];
      assert front[1..] == front' && front[0] == a[0] && front[1] == a[1];
      HeadTaken(a[1..], z, z', q);
      assert (a + [z, ""])[1..] == a[1..] + [z, ""] && (a + [z, ""])[1] == a[1];
    }
  }

  // ---- cells of joined texts ----

  lemma {:induction false} Glue(a: string, b: string)
    ensures Cells(a + b) == Glued(Cells(a), Cells(b))
  {
    if a == "" {
      assert a + b == b && [""][..0] == [] && "" + Cells(b)[0] == Cells(b)[0];
    } else {
      var r := Cells(a[1..]);
      assert (a + b)[0] == a[0] && (a + b)[1..] == a[1..] + b;
      Glue(a[1..], b);
      FirstOf(a);
      FirstOf(a + b);
      hide Cells;
      if a[0] == '|' { GluedBar(r, Cells(b)); } else { GluedChar(a[0], r, Cells(b)); }
    }
  }

  /** The last of the first cells runs on into the first of the others. */
  function Glued(a: seq<string>, b: seq<string>): seq<string>
    requires a != [] && b != []
  {
    a[..|a| - 1] + [a[|a| - 1] + b[0]] + b[1..]
  }

  lemma FirstOf(s: string)
    requires s != ""
    ensures var r := Cells(s[1..]); Cells(s) == if s[0] == '|' then [""] + r else [[s[0]] + r[0]] + r[1..]
  {
  }

  lemma GluedBar(r: seq<string>, b: seq<string>)
    requires r != [] && b != []
    ensures Glued([""] + r, b) == [""] + Glued(r, b)
  {
  }

  lemma GluedChar(c: char, r: seq<string>, b: seq<string>)
    requires r != [] && b != []
    ensures Glued([[c] + r[0]] + r[1..], b) == [[c] + Glued(r, b)[0]] + Glued(r, b)[1..]
  {
    if |r| == 1 { assert [c] + (r[0] + b[0]) == ([c] + r[0]) + b[0]; }
  }

  lemma {:induction false} BlankFirst(z: string, s: string)
    requires AllSpace(z)
    ensures Strip(z + s) == Strip(s)
  {
    if z == "" {
      assert z + s == s;
    } else {
      BlankFirst(z[1..], s);
      assert (z + s)[1..] == z[1..] + s;
    }
  }

  lemma BlankNamesSame(z: string, s: string, q: LabelPattern)
    requires AllSpace(z)
    ensures Names(z + s, q) <==> Names(s, q)
  {
    BlankFirst(z, s);
  }

  // ---- rows put into a text ----

  /** The first value asked for a label. */
  function Asked(es: seq<Entry>, q: LabelPattern): Option<string> {
    if es == [] then None else if Names(Cell(es[0].title), q) then Some(es[0].value) else Asked(es[1..], q)
  }

  /** Entries that make proper rows and whose values are no label. */
  predicate Plain(es: seq<Entry>, q: LabelPattern) {
    forall e :: e in es ==> BarFree(e.title) && PlainValue(e.value) && !Names(Cell(e.value), q)
  }

  function Rows(es: seq<Entry>, b: string): string { if es == [] then b else RowLine(es[0]) + Rows(es[1..], b) }

  lemma {:induction false} RowsAre(es: seq<Entry>, b: string)
    ensures JoinLines(RowLines(es)) + b == Rows(es, b)
  {
    hide RowLine;
    if es == [] {
      assert "" + b == b;
    } else {
      RowsAre(es[1..], b);
      assert (RowLine(es[0]) + JoinLines(RowLines(es[1..]))) + b == RowLine(es[0]) + (JoinLines(RowLines(es[1..])) + b);
    }
  }

  lemma RowCellsOf(z: string, e: Entry, s: string)
    requires BarFree(z) && BarFree(e.title) && PlainValue(e.value)
    ensures Cells(z + (RowLine(e) + s)) == [z, Cell(e.title), Cell(e.value)] + Cells("\n" + s)
  {
    PaddedValue(e.value);
    RowLineShape'(e, s);
    hide RowLine;
    var t, v := Cell(e.title), Cell(e.value);
    assert BarFree(t);
    ThreeCut(z, t, v, "\n" + s);
  }

  lemma ThreeCut(z: string, t: string, v: string, s: string)
    requires BarFree(z) && BarFree(t) && BarFree(v)
    ensures Cells(z + (['|'] + (t + (['|'] + (v + (['|'] + s)))))) == [z, t, v] + Cells(s)
  {
    hide Cells;
    CutOff(v, s);
    CutOff(t, v + (['|'] + s));
    CutOff(z, t + (['|'] + (v + (['|'] + s))));
    assert [z] + ([t] + ([v] + Cells(s))) == [z, t, v] + Cells(s);
  }

  lemma CutOff(a: string, b: string)
    requires BarFree(a)
    ensures Cells(a + (['|'] + b)) == [a] + Cells(b)
  {
    SplitCut(a, b, '|');
  }

  lemma RowLineShape'(e: Entry, s: string)
    ensures RowLine(e) + s == ['|'] + (Cell(e.title) + (['|'] + (Cell(e.value) + (['|'] + ("\n" + s)))))
  {
    var t, v := e.title, e.value;
    assert "| " + t + " | " == ['|'] + ((" " + t + " ") + (['|'] + " "));
    assert RowLine(e) == ("| " + t + " | ") + (v + " |\n");
    assert " " + (v + " |\n") == (" " + v + " ") + (['|'] + "\n");
  }

  /** Behind a blank, the new rows are read first, and then what was there. */
  lemma {:induction false} NewRowsFirst(z: string, es: seq<Entry>, b: string, q: LabelPattern)
    requires AllSpace(z) && BarFree(z) && Plain(es, q) && !Names("", q)
    decreases |es|
    ensures ReadSeq(Cells(z + Rows(es, b)), q) == if Asked(es, q).Some? then Asked(es, q) else ReadSeq(Cells(b), q)
  {
    hide Names, Cells, RowLine, Cell;
    if es == [] {
      BlankBefore(z, b, q);
    } else {
      assert es[0] in es && forall e :: e in es[1..] ==> e in es;
      var s := Rows(es[1..], b);
      RowCellsOf(z, es[0], s);
      NewRowsFirst("\n", es[1..], b, q);
      BlankNamesSame(z, "", q);
      assert z + "" == z;
      OneRowRead(z, es[0], Cells("\n" + s), q);
    }
  }

  lemma OneRowRead(z: string, e: Entry, rest: seq<string>, q: LabelPattern)
    requires rest != [] && PlainValue(e.value) && !Names(z, q) && !Names(Cell(e.value), q)
    ensures ReadSeq([z, Cell(e.title), Cell(e.value)] + rest, q) == if Names(Cell(e.title), q) then Some(e.value) else ReadSeq(rest, q)
  {
    hide Names, Strip, Cell;
    OneLineValue(e.value);
    var t, v := Cell(e.title), Cell(e.value);
    OneCell(z, [t, v] + rest, q);
    assert [z] + ([t, v] + rest) == [z, t, v] + rest;
    OneCell(t, [v] + rest, q);
    assert [t] + ([v] + rest) == [t, v] + rest;
    OneCell(v, rest, q);
  }

  lemma OneCell(c: string, rest: seq<string>, q: LabelPattern)
    ensures |rest| >= 2 || !Names(c, q) ==>
              ReadSeq([c] + rest, q) == if Names(c, q) && '\n' !in Strip(rest[0]) then Some(Strip(rest[0])) else ReadSeq(rest, q)
  {
    hide Names, Strip;
    assert ([c] + rest)[1..] == rest;
  }

  lemma OneLineValue(v: string)
    requires PlainValue(v)
    ensures Strip(Cell(v)) == v && '\n' !in v
  {
    PaddedValue(v);
  }

  lemma BlankBefore(z: string, b: string, q: LabelPattern)
    requires AllSpace(z) && BarFree(z)
    ensures ReadSeq(Cells(z + b), q) == ReadSeq(Cells(b), q)
  {
    hide Names, Strip;
    SplitNone(z, '|');
    Glue(z, b);
    var cb := Cells(b);
    assert [z][..0] == [] && Cells(z + b) == [z + cb[0]] + cb[1..];
    BlankNamesSame(z, cb[0], q);
    assert Cells(z + b)[1..] == cb[1..];
  }

  /** A text up to and with the end of a block whose last line ends with a bar. */
  predicate BarEnded(a: string) { var ca := Cells(a); |ca| >= 3 && AllSpace(ca[|ca| - 1]) }

  /** The last cell of that line. */
  function LastCell(a: string): string
    requires BarEnded(a)
  {
    var ca := Cells(a); ca[|ca| - 2]
  }

  /** The cells between its first and its last bar, and the blank after that. */
  function Inner(a: string): seq<string>
    requires BarEnded(a)
  {
    var ca := Cells(a); ca[1..|ca| - 1]
  }

  function Ending(a: string): string
    requires BarEnded(a)
  {
    var ca := Cells(a); ca[|ca| - 1]
  }

  lemma TextCells(a: string, b: string)
    requires BarEnded(a)
    ensures AllSpace(Ending(a)) && BarFree(Ending(a)) && Inner(a) != [] && Inner(a)[|Inner(a)| - 1] == LastCell(a)
    ensures Cells(a + b)[1..] == Inner(a) + Cells(Ending(a) + b)
  {
    var x, ca := Ending(a), Cells(a);
    CellsBarFree(a);
    assert x in ca && Inner(a) == ca[1..|ca| - 1];
    OneOnly(x);
    hide Cells, BarEnded, Glued, Inner, Ending;
    Glue(a, b);
    Glue(x, b);
    LastGlued(ca, Cells(b));
  }

  lemma OneOnly(x: string)
    requires BarFree(x)
    ensures Cells(x) == [x]
  {
    SplitNone(x, '|');
  }

  lemma LastGlued(ca: seq<string>, cb: seq<string>)
    requires |ca| >= 2 && cb != []
    ensures Glued(ca, cb)[1..] == ca[1..|ca| - 1] + Glued([ca[|ca| - 1]], cb)
  {
    var n := |ca| - 1;
    assert [ca[n]][..0] == [] && ca[..n][1..] == ca[1..n];
    assert (ca[..n] + ([ca[n] + cb[0]] + cb[1..]))[1..] == ca[..n][1..] + ([ca[n] + cb[0]] + cb[1..]);
  }

  /** Rows put between a block and what follows: when the block's last cell is not the label itself, a label that
      was not read before reads as asked, and one that is not asked for reads as before. */
  lemma InsertedReads(a: string, es: seq<Entry>, b: string, q: LabelPattern)
    requires BarEnded(a) && es != [] && Plain(es, q) && !Names("", q) && !Names(LastCell(a), q)
    ensures ReadCell(a + b, q).None? ==> ReadCell(a + Rows(es, b), q) == Asked(es, q)
    ensures Asked(es, q).None? ==> ReadCell(a + Rows(es, b), q) == ReadCell(a + b, q)
  {
    hide Names, Cells, ReadSeq, Rows, Asked, Plain;
    var p, x := Inner(a), Ending(a);
    TextCells(a, b);
    TextCells(a, Rows(es, b));
    ReadIsSeq(a + b, q);
    ReadIsSeq(a + Rows(es, b), q);
    var old', new' := Cells(x + b), Cells(x + Rows(es, b));
    ReadSplit(p, old', q);
    ReadSplit(p, new', q);
    HeadSame(p, old'[0], new'[0], q);
    NewRowsFirst(x, es, b, q);
    BlankBefore(x, b, q);
  }

  /** When the block's last cell is the label itself, it is read with the blank that the new rows put behind it. */
  lemma RowIsLost(a: string, es: seq<Entry>, b: string, q: LabelPattern)
    requires BarEnded(a) && es != [] && Plain(es, q) && Names(LastCell(a), q) && ReadCell(a + b, q).None?
    ensures ReadCell(a + Rows(es, b), q) == Some("")
  {
    hide Names, Cells, ReadSeq, Plain;
    var p, x := Inner(a), Ending(a);
    TextCells(a, b);
    TextCells(a, Rows(es, b));
    ReadIsSeq(a + b, q);
    ReadIsSeq(a + Rows(es, b), q);
    var n := |p| - 1;
    var old', new' := Cells(x + b), Cells(x + Rows(es, b));
    assert p + old' == p[..n] + ([p[n]] + old') && p[..n] + [p[n], ""] == p[..n] + [([p[n]] + old')[0], ""];
    ReadSplit(p[..n], [p[n]] + old', q);
    HeadTaken(p, x, "", q);
    FirstNew(x, es, b, q);
    ReadSplit(p, new', q);
  }

  lemma FirstNew(x: string, es: seq<Entry>, b: string, q: LabelPattern)
    requires BarFree(x) && es != [] && Plain(es, q)
    ensures |Cells(x + Rows(es, b))| >= 2 && Cells(x + Rows(es, b))[0] == x
  {
    hide Cells, RowLine, Names;
    assert es[0] in es;
    RowCellsOf(x, es[0], Rows(es[1..], b));
  }

  /** On any text whose block ends with a bar: a label that was not read before reads the value put in for it if
      and only if the block's last cell is not that label. */
  lemma LandsIff(a: string, es: seq<Entry>, b: string, q: LabelPattern, v: string)
    requires BarEnded(a) && Plain(es, q) && !Names("", q)
    requires ReadCell(a + b, q).None? && Asked(es, q) == Some(v) && v != ""
    ensures ReadCell(a + Rows(es, b), q) == Some(v) <==> !Names(LastCell(a), q)
  {
    hide Names, Cells, Plain, Rows, ReadCell, BarEnded;
    if Names(LastCell(a), q) { RowIsLost(a, es, b, q); } else { InsertedReads(a, es, b, q); }
  }

  // ---- where the block ends ----

  function LastOfBlock(rest: seq<string>): (n: nat)
    ensures n <= |rest|
  {
    if rest != [] && TableLine(rest[0]) then 1 + LastOfBlock(rest[1..]) else 0
  }

  /** Index of the last line of the block that holds the Artifact ID row. */
  function BlockEnd(lines: seq<string>): (r: Option<nat>)
    ensures r.Some? ==> r.value < |lines|
  {
    if lines == [] then None
    else if HasId(lines[0]) then Some(LastOfBlock(lines[1..]))
    else var r := BlockEnd(lines[1..]); if r.Some? then Some(r.value + 1) else None
  }

  /** The text up to the end of that block, and what follows; `None` when no line holds the row. */
  function Block(text: string): Option<(string, string)> {
    var ls := SplitLines(text);
    var e := BlockEnd(ls);
    if e.None? then None else Some((JoinLines(ls[..e.value + 1]), JoinLines(ls[e.value + 1..])))
  }

  lemma {:induction false} BlockInserted(line: string, rest: seq<string>, added: seq<string>)
    ensures var all, n := [line] + rest, LastOfBlock(rest);
            InsertAfterBlock(line, rest, added) == all[..n] + [Ended(all[n])] + added + all[n + 1..]
    decreases |rest|
  {
    hide TableLine, Ended;
    var all, n := [line] + rest, LastOfBlock(rest);
    if rest != [] && TableLine(rest[0]) {
      BlockInserted(rest[0], rest[1..], added);
      assert [rest[0]] + rest[1..] == rest && all[..n] == [line] + rest[..n - 1] && all[n] == rest[n - 1] && all[n + 1..] == rest[n..];
    } else {
      assert all[..0] == [] && all[1..] == rest;
    }
  }

  lemma InFront(x: string, a: seq<string>, b: seq<string>, c: seq<string>, d: seq<string>)
    ensures [x] + (a + b + c + d) == ([x] + a) + b + c + d
  {
  }

  lemma {:induction false} LinesInserted(lines: seq<string>, added: seq<string>)
    ensures var e := BlockEnd(lines);
            InsertLines(lines, added)
            == if e.None? then None else Some(lines[..e.value] + [Ended(lines[e.value])] + added + lines[e.value + 1..])
  {
    hide TableLine, Ended, HasId, InsertAfterBlock;
    if lines != [] {
      if HasId(lines[0]) {
        BlockInserted(lines[0], lines[1..], added);
        assert [lines[0]] + lines[1..] == lines;
      } else {
        LinesInserted(lines[1..], added);
        var e := BlockEnd(lines);
        if e.Some? {
          var n, rest := e.value - 1, lines[1..];
          assert lines[..e.value] == [lines[0]] + rest[..n] && lines[e.value] == rest[n] && lines[e.value + 1..] == rest[n + 1..];
          InFront(lines[0], rest[..n], [Ended(rest[n])], added, rest[n + 1..]);
        }
      }
    }
  }

  lemma {:induction false} BlockLineStands(lines: seq<string>)
    ensures BlockEnd(lines).Some? ==> lines[BlockEnd(lines).value] != ""
  {
    hide Names;
    if lines != [] {
      if HasId(lines[0]) {
        LastStands(lines[0], lines[1..]);
      } else {
        BlockLineStands(lines[1..]);
      }
    }
  }

  lemma {:induction false} LastStands(line: string, rest: seq<string>)
    requires line != ""
    ensures ([line] + rest)[LastOfBlock(rest)] != ""
    decreases |rest|
  {
    hide StripLeft;
    if rest != [] && TableLine(rest[0]) {
      StripLeftIs(rest[0]);
      assert StripLeft(rest[0])[0] in rest[0];
      LastStands(rest[0], rest[1..]);
      assert [rest[0]] + rest[1..] == rest;
    }
  }

  lemma EndedLast(front: string, last: string)
    requires last != ""
    ensures Ended(front + last) == front + Ended(last)
  {
    assert (front + last)[|front + last| - 1] == last[|last| - 1];
    assert front + last + "\n" == front + (last + "\n");
  }

  /** The text is its two parts, and the line surgery puts the rows, after a newline if one is missing, between them. */
  lemma TextInserted(text: string, es: seq<Entry>)
    ensures var r := InsertLines(SplitLines(text), RowLines(es)); var block := Block(text);
            && (r.Some? <==> block.Some?)
            && (block.Some? ==> text == block.value.0 + block.value.1)
            && (r.Some? ==> JoinLines(r.value) == Ended(block.value.0) + Rows(es, block.value.1))
  {
    hide SplitLines, RowLines, Ended, BlockEnd, InsertLines, JoinLines, Rows;
    var ls := SplitLines(text);
    var e := BlockEnd(ls);
    SplitLinesJoin(text);
    LinesInserted(ls, RowLines(es));
    BlockLineStands(ls);
    if e.Some? {
      var front, last, rest := ls[..e.value], ls[e.value], ls[e.value + 1..];
      assert ls[..e.value + 1] == front + [last] && ls == (front + [last]) + rest;
      JoinLinesAppend(front + [last], rest);
      JoinLinesAppend(front, [last]);
      OneString(last);
      EndedLast(JoinLines(front), last);
      JoinLinesAppend(front + [Ended(last)] + RowLines(es), rest);
      JoinLinesAppend(front + [Ended(last)], RowLines(es));
      JoinLinesAppend(front, [Ended(last)]);
      OneString(Ended(last));
      RowsAre(es, JoinLines(rest));
      Regrouped(JoinLines(front) + Ended(last), JoinLines(RowLines(es)), JoinLines(rest));
    }
  }

  lemma Regrouped(a: string, b: string, c: string)
    ensures a + b + c == a + (b + c)
  {
  }

  lemma {:induction false} SameStripped(p: seq<string>, c: string, c': string, rest: seq<string>, q: LabelPattern)
    requires Strip(c) == Strip(c')
    ensures ReadSeq(p + ([c] + rest), q) == ReadSeq(p + ([c'] + rest), q)
  {
    hide Strip;
    if p == [] {
      assert p + ([c] + rest) == [c] + rest && p + ([c'] + rest) == [c'] + rest;
      assert ([c] + rest)[1..] == rest && ([c'] + rest)[1..] == rest;
    } else {
      SameStripped(p[1..], c, c', rest, q);
      assert (p + ([c] + rest))[1..] == p[1..] + ([c] + rest) && (p + ([c'] + rest))[1..] == p[1..] + ([c'] + rest);
      if |p| > 1 { assert (p + ([c] + rest))[1] == p[1] && (p + ([c'] + rest))[1] == p[1]; }
    }
  }

  lemma EndedCells(a: string)
    requires BarEnded(a)
    ensures BarEnded(Ended(a)) && Inner(Ended(a)) == Inner(a) && LastCell(Ended(a)) == LastCell(a)
  {
    if !EndsWithNewline(a) {
      OneOnly("\n");
      hide Cells;
      Glue(a, "\n");
    }
  }

  /** A newline at the block's end changes no reading. */
  lemma EndedReads(a: string, b: string, q: LabelPattern)
    requires BarEnded(a)
    ensures ReadCell(Ended(a) + b, q) == ReadCell(a + b, q)
  {
    hide Names, Cells, ReadSeq, Strip, BarEnded, Inner, Ending;
    EndedCells(a);
    TextCells(a, b);
    TextCells(Ended(a), b);
    ReadIsSeq(a + b, q);
    ReadIsSeq(Ended(a) + b, q);
    var x, x', cb := Ending(a), Ending(Ended(a)), Cells(b);
    FirstGlued(x, b);
    FirstGlued(x', b);
    BlankFirst(x, cb[0]);
    BlankFirst(x', cb[0]);
    SameStripped(Inner(a), x' + cb[0], x + cb[0], cb[1..], q);
  }

  lemma FirstGlued(x: string, b: string)
    requires BarFree(x)
    ensures Cells(x + b) == [x + Cells(b)[0]] + Cells(b)[1..]
  {
    OneOnly(x);
    hide Cells;
    Glue(x, b);
    assert [x][..0] == [];
  }

  // ---- writing the rows that are there ----

  /** The row a label is read from has no other label in its title cell, and none in its value cell. */
  predicate ApartAt(cells: seq<string>, p: LabelPattern, T: set<LabelPattern>) {
    Found(cells, p) ==> OnlyLabel(cells, FindFrom(cells, p, 1), p, T)
  }

  predicate OnlyLabel(cells: seq<string>, j: nat, p: LabelPattern, T: set<LabelPattern>) {
    j + 1 < |cells| && forall q :: q in T ==> !Names(cells[j + 1], q) && (q != p ==> !Names(cells[j], q))
  }

  ghost predicate Apart(text: string, T: set<LabelPattern>) { forall p :: p in T ==> ApartAt(Cells(text), p, T) }

  /** A value that a cell can hold and that is no label. */
  predicate Harmless(v: string, T: set<LabelPattern>) { PlainValue(v) && forall q :: q in T ==> !Names(Cell(v), q) }

  lemma SearchStays(text: string, p: LabelPattern, v: string, q: LabelPattern, T: set<LabelPattern>)
    requires p in T && q in T && ApartAt(Cells(text), p, T) && Found(Cells(text), p) && Harmless(v, T)
    ensures Cells(WriteCell(text, p, v)) == Cells(text)[FindFrom(Cells(text), p, 1) + 1 := Cell(v)]
    ensures FindFrom(Cells(WriteCell(text, p, v)), q, 1) == FindFrom(Cells(text), q, 1)
  {
    hide Names, WriteCell;
    var cells := Cells(text);
    var j := FindFrom(cells, p, 1);
    FindIs(cells, p, 1);
    WrittenCells(text, p, v);
    OneLineValue(v);
    if q == p { FindFirst(cells[j + 1 := Cell(v)], p, 1, j); } else { UpdateKeepsFind(cells, q, j, Cell(v)); }
  }

  lemma OtherRow(cells: seq<string>, next: seq<string>, x: string, p: LabelPattern, q: LabelPattern, T: set<LabelPattern>)
    requires p in T && q in T && ApartAt(cells, p, T) && ApartAt(cells, q, T) && Found(cells, p)
    requires next == cells[FindFrom(cells, p, 1) + 1 := x] && FindFrom(next, q, 1) == FindFrom(cells, q, 1)
    requires forall t :: t in T ==> !Names(x, t)
    ensures ApartAt(next, q, T)
    ensures Found(cells, q) ==> var k := FindFrom(cells, q, 1);
                                k + 1 < |cells| && next[k + 1] == if q == p then x else cells[k + 1]
  {
    hide Names, FindFrom, OnlyLabel;
    LabelAt(cells, p);
    LabelAt(cells, q);
    if Found(cells, q) { OtherLabel(cells, next, x, FindFrom(cells, p, 1), FindFrom(cells, q, 1), p, q, T); }
  }

  lemma OtherLabel(cells: seq<string>, next: seq<string>, x: string, j: nat, k: nat, p: LabelPattern, q: LabelPattern, T: set<LabelPattern>)
    requires p in T && q in T && OnlyLabel(cells, j, p, T) && OnlyLabel(cells, k, q, T) && (p == q ==> j == k)
    requires Names(cells[k], q) && next == cells[j + 1 := x] && forall t :: t in T ==> !Names(x, t)
    ensures OnlyLabel(next, k, q, T) && next[k + 1] == if q == p then x else cells[k + 1]
  {
    hide Names;
  }

  lemma LabelAt(cells: seq<string>, p: LabelPattern)
    ensures var j := FindFrom(cells, p, 1); 1 <= j && (j < |cells| ==> j + 2 < |cells| && Names(cells[j], p))
  {
    hide Names;
    FindIs(cells, p, 1);
  }

  /** A write of one row leaves every other row as it was, and all of them apart. */
  lemma WriteApart(text: string, p: LabelPattern, v: string, T: set<LabelPattern>)
    requires Apart(text, T) && p in T && Found(Cells(text), p) && Harmless(v, T)
    ensures Apart(WriteCell(text, p, v), T)
    ensures forall q :: q in T ==> ReadCell(WriteCell(text, p, v), q) == if q == p then Some(v) else ReadCell(text, q)
  {
    hide Names, WriteCell, Harmless;
    var cells, next := Cells(text), Cells(WriteCell(text, p, v));
    var j := FindFrom(cells, p, 1);
    forall q | q in T
      ensures ApartAt(next, q, T) && ReadCell(WriteCell(text, p, v), q) == if q == p then Some(v) else ReadCell(text, q)
    {
      SearchStays(text, p, v, q, T);
      OneLineOf(v, T);
      OtherRow(cells, next, Cell(v), p, q, T);
    }
  }

  lemma OneLineOf(v: string, T: set<LabelPattern>)
    requires Harmless(v, T)
    ensures Strip(Cell(v)) == v && forall q :: q in T ==> !Names(Cell(v), q)
  {
    OneLineValue(v);
  }

  // ---- the whole upsert ----

  /** Different labels, each named by its own title only, with values that are written as they stand. */
  ghost predicate Requests(es: seq<Entry>, T: set<LabelPattern>) {
    && (forall q :: q in T ==> !Names("", q))
    && (forall e :: e in es ==> Request(e, T))
    && (forall i, j :: 0 <= i < j < |es| ==> es[i].title != es[j].title)
  }

  ghost predicate Request(e: Entry, T: set<LabelPattern>) {
    && Exact(e.title) in T && BarFree(e.title) && Harmless(e.value, T) && '\\' !in e.value
    && forall q :: q in T ==> (Names(Cell(e.title), q) <==> q == Exact(e.title))
  }

  lemma RequestsTail(es: seq<Entry>, T: set<LabelPattern>)
    requires es != [] && Requests(es, T)
    ensures Request(es[0], T) && Requests(es[1..], T)
    ensures forall e :: e in es[1..] ==> e.title != es[0].title
  {
    hide Request, Names;
    var rest := es[1..];
    assert es[0] in es && forall e :: e in rest ==> e in es;
    forall i, j | 0 <= i < j < |rest| ensures rest[i].title != rest[j].title {
      assert rest[i] == es[i + 1] && rest[j] == es[j + 1];
    }
    forall e | e in rest ensures e.title != es[0].title {
      var i :| 0 <= i < |rest| && rest[i] == e;
      assert es[i + 1] == e;
    }
  }

  /** No entry asks for a title that none of them has. */
  lemma {:induction false} AskedFor(es: seq<Entry>, T: set<LabelPattern>, q: LabelPattern)
    requires Requests(es, T) && q in T
    ensures Asked(es, q).None? <==> forall e :: e in es ==> q != Exact(e.title)
    ensures es != [] && q == Exact(es[0].title) ==> Asked(es, q) == Some(es[0].value) && Asked(es[1..], q).None?
    ensures es != [] && q != Exact(es[0].title) ==> Asked(es, q) == Asked(es[1..], q)
  {
    hide Names, Cell, Harmless;
    if es != [] {
      RequestsTail(es, T);
      AskedFor(es[1..], T, q);
      assert forall e :: e in es <==> e == es[0] || e in es[1..];
    }
  }

  /** What the first loop reads and collects: a row that is there is written, one that is not is asked for later. */
  lemma {:induction false} WriteAllReads(text: string, es: seq<Entry>, T: set<LabelPattern>) returns (w: string, m: seq<Entry>)
    requires Apart(text, T) && Requests(es, T)
    ensures WriteAll(text, es) == Some((w, m)) && Apart(w, T) && Requests(m, T) && forall e :: e in m ==> e in es
    ensures forall q :: q in T ==> ReadCell(w, q) == if ReadCell(text, q).Some? && Asked(es, q).Some? then Asked(es, q) else ReadCell(text, q)
    ensures forall q :: q in T ==> Asked(m, q) == if ReadCell(text, q).None? then Asked(es, q) else None
    decreases |es|
  {
    hide Names, Harmless, Request, Requests, Apart, ReadCell, WriteRow, Asked, WriteCell;
    if es == [] {
      w, m := text, [];
      NothingAsked(T);
    } else {
      var e, rest, p := es[0], es[1..], Exact(es[0].title);
      RequestsTail(es, T);
      RequestIs(e, T);
      forall q | q in T
        ensures q == p ==> Asked(es, q) == Some(e.value) && Asked(rest, q).None?
        ensures q != p ==> Asked(es, q) == Asked(rest, q)
      {
        AskedFor(es, T, q);
      }
      if ReadCell(text, p).Some? {
        var next := WriteCell(text, p, e.value);
        PlainWriteRow(text, p, e.value);
        FoundReads(text, p);
        WriteApart(text, p, e.value, T);
        w, m := WriteAllReads(next, rest, T);
      } else {
        var m1;
        w, m1 := WriteAllReads(text, rest, T);
        m := [e] + m1;
        MoreRequests(e, m1, rest, T);
        forall q | q in T ensures Asked(m, q) == if q == p then Some(e.value) else Asked(m1, q) {
          AskedFor(m, T, q);
          assert m[1..] == m1;
        }
      }
    }
  }

  lemma RequestIs(e: Entry, T: set<LabelPattern>)
    requires Request(e, T)
    ensures Exact(e.title) in T && Harmless(e.value, T) && '\\' !in e.value
  {
  }

  lemma FoundReads(text: string, p: LabelPattern)
    ensures ReadCell(text, p).Some? <==> Found(Cells(text), p)
  {
    hide Names, Cells;
  }

  lemma NothingAsked(T: set<LabelPattern>)
    ensures forall q :: q in T ==> Asked([], q).None?
    ensures (forall q :: q in T ==> !Names("", q)) ==> Requests([], T)
  {
    hide Names;
  }

  lemma MoreRequests(e: Entry, m: seq<Entry>, rest: seq<Entry>, T: set<LabelPattern>)
    requires Request(e, T) && Requests(m, T) && (forall x :: x in m ==> x in rest) && forall x :: x in rest ==> x.title != e.title
    ensures Requests([e] + m, T)
  {
    hide Request, Names;
    var all := [e] + m;
    forall i, j | 0 <= i < j < |all| ensures all[i].title != all[j].title {
      assert all[j] == m[j - 1] && all[j] in m;
      if i > 0 { assert all[i] == m[i - 1]; }
    }
  }

  lemma RequestsArePlain(es: seq<Entry>, T: set<LabelPattern>, q: LabelPattern)
    requires Requests(es, T) && q in T
    ensures Plain(es, q) && !Names("", q)
  {
    hide Names, PlainValue;
    forall e | e in es ensures BarFree(e.title) && PlainValue(e.value) && !Names(Cell(e.value), q) {
      assert Request(e, T);
    }
  }

  /** Rows may be put into the text: its block ends with a bar, and its last cell is none of the labels. */
  ghost predicate Landing(text: string, T: set<LabelPattern>) {
    && Block(text).Some? && BarEnded(Block(text).value.0)
    && forall q :: q in T ==> !Names(LastCell(Block(text).value.0), q)
  }

  /** On any text with an Artifact ID row, whatever its tables look like: when the rows read stand apart and the
      missing ones can land, the upsert goes through, every label it sets reads as asked, and every other one as before. */
  lemma UpsertAnyText(text: string, es: seq<Entry>, T: set<LabelPattern>)
    requires HasId(text) && Apart(text, T) && Requests(es, T)
    requires var r := WriteAll(text, es); r.Some? && r.value.1 != [] ==> Landing(r.value.0, T)
    ensures Upsert(text, es).Updated?
    ensures forall q :: q in T ==> ReadCell(Upsert(text, es).text, q) == if Asked(es, q).Some? then Asked(es, q) else ReadCell(text, q)
  {
    hide Names, Harmless, Apart, HasId, ReadCell, WriteAll, Asked, Requests, SplitLines, InsertLines, JoinLines, RowLines, Block, BarEnded, LastCell, Rows, Ended;
    var w, m := WriteAllReads(text, es, T);
    if m == [] {
      NothingAsked(T);
    } else {
      var block := Block(w).value;
      TextInserted(w, m);
      var a, b := block.0, block.1;
      EndedCells(a);
      forall q | q in T ensures ReadCell(Ended(a) + Rows(m, b), q) == if Asked(es, q).Some? then Asked(es, q) else ReadCell(text, q) {
        RequestsArePlain(m, T, q);
        EndedReads(a, b, q);
        InsertedReads(Ended(a), m, b, q);
      }
    }
  }

  /** The same of a single missing row, both ways: it reads as asked if and only if the block's last cell is not
      its label. */
  lemma MissingRowLandsIff(text: string, e: Entry, T: set<LabelPattern>)
    requires HasId(text) && Requests([e], T) && ReadCell(text, Exact(e.title)).None? && e.value != ""
    requires Block(text).Some? && BarEnded(Block(text).value.0)
    ensures Upsert(text, [e]).Updated?
    ensures ReadCell(Upsert(text, [e]).text, Exact(e.title)) == Some(e.value)
       <==> !Names(LastCell(Block(text).value.0), Exact(e.title))
  {
    hide Names, Harmless, HasId, ReadCell, WriteAll, SplitLines, InsertLines, JoinLines, RowLines, Block, BarEnded, LastCell, Rows, Ended, Request;
    OneMissing(text, e);
    var q, a, b := Exact(e.title), Block(text).value.0, Block(text).value.1;
    assert e in [e] && [e][1..] == [];
    RequestIs(e, T);
    AskedFor([e], T, q);
    RequestsArePlain([e], T, q);
    TextInserted(text, [e]);
    EndedCells(a);
    EndedReads(a, b, q);
    LandsIff(Ended(a), [e], b, q, e.value);
  }

  /** A label that stands in the heading of another table is taken for the row: the cell after it is
      overwritten, and no row is added. */
  lemma HeadingIsTaken(a: string, label': string, next: string, b: string, e: Entry, T: set<LabelPattern>)
    requires HasId(a + ("|" + (label' + ("|" + (next + ("|" + b)))))) && Requests([e], T)
    requires BarFree(label') && BarFree(next) && '\n' !in Strip(next) && Names(label', Exact(e.title))
    requires ReadSeq(Cells(a)[1..] + [label', ""], Exact(e.title)).None?
    ensures var text := a + ("|" + (label' + ("|" + (next + ("|" + b)))));
            && ReadCell(text, Exact(e.title)) == Some(Strip(next))
            && Upsert(text, [e]) == Updated(a + ("|" + (label' + ("|" + (Cell(e.value) + ("|" + b))))))
  {
    hide Names, Harmless, HasId, Strip, Upsert, Request, ReadCell, WriteCell, ReadSeq;
    assert e in [e];
    RequestIs(e, T);
    HeadingRead(a, label', next, b, Exact(e.title), e.value);
    OnePresent(a + ("|" + (label' + ("|" + (next + ("|" + b))))), e);
  }

  lemma HeadingRead(a: string, label': string, next: string, b: string, q: LabelPattern, v: string)
    requires BarFree(label') && BarFree(next) && '\n' !in Strip(next) && Names(label', q) && PlainValue(v)
    requires ReadSeq(Cells(a)[1..] + [label', ""], q).None?
    ensures var text := a + ("|" + (label' + ("|" + (next + ("|" + b)))));
            && ReadCell(text, q) == Some(Strip(next))
            && WriteCell(text, q, v) == a + ("|" + (label' + ("|" + (Cell(v) + ("|" + b)))))
  {
    hide Names, Strip, Cells, Join, FindFrom, ReadSeq;
    var ca, cb := Cells(a), Cells(b);
    PaddedValue(v);
    ThreeCells(a, label', next, b);
    ThreeCells(a, label', Cell(v), b);
    SearchFinds(ca, label', next, cb, q);
    JoinSplit(a + ("|" + (label' + ("|" + (Cell(v) + ("|" + b))))));
    assert (ca + [label', next] + cb)[|ca| + 1 := Cell(v)] == ca + [label', Cell(v)] + cb;
  }

  lemma OneMissing(text: string, e: Entry)
    requires ReadCell(text, Exact(e.title)).None?
    ensures WriteAll(text, [e]) == Some((text, [e]))
  {
    hide ReadCell, WriteRow;
    assert [e][1..] == [] && [e] + [] == [e];
  }

  lemma OnePresent(text: string, e: Entry)
    requires HasId(text) && ReadCell(text, Exact(e.title)).Some? && '\\' !in e.value
    ensures Upsert(text, [e]) == Updated(WriteCell(text, Exact(e.title), e.value))
  {
    hide HasId, ReadCell, WriteRow, WriteCell;
    var next := WriteCell(text, Exact(e.title), e.value);
    PlainWriteRow(text, Exact(e.title), e.value);
    assert [e][1..] == [] && WriteAll(next, []) == Some((next, []));
    assert WriteAll(text, [e]) == WriteAll(next, [e][1..]);
  }

  lemma ThreeCells(a: string, x: string, y: string, b: string)
    requires BarFree(x) && BarFree(y)
    ensures Cells(a + ("|" + (x + ("|" + (y + ("|" + b)))))) == Cells(a) + [x, y] + Cells(b)
  {
    var s := x + (['|'] + (y + (['|'] + b)));
    SplitAppend(a, s, '|');
    assert a + ['|'] + s == a + ("|" + (x + ("|" + (y + ("|" + b)))));
    CutOff(x, y + (['|'] + b));
    CutOff(y, b);
    assert Cells(a) + ([x] + ([y] + Cells(b))) == Cells(a) + [x, y] + Cells(b);
  }

  lemma SearchFinds(ca: seq<string>, x: string, y: string, cb: seq<string>, q: LabelPattern)
    requires ca != [] && cb != [] && Names(x, q) && '\n' !in Strip(y) && ReadSeq(ca[1..] + [x, ""], q).None?
    ensures FindFrom(ca + [x, y] + cb, q, 1) == |ca|
  {
    hide Names, Strip;
    var all := ca + [x, y] + cb;
    forall i | 1 <= i < |ca| ensures !(Names(all[i], q) && '\n' !in Strip(all[i + 1])) {
      SeqNone(ca[1..] + [x, ""], q, i - 1);
      assert all[i] == (ca[1..] + [x, ""])[i - 1] && all[i + 1] == (ca[1..] + [x, ""])[i];
    }
    FindFirst(all, q, 1, |ca|);
  }

  lemma {:induction false} SeqNone(cells: seq<string>, q: LabelPattern, i: nat)
    requires ReadSeq(cells, q).None? && i + 2 < |cells|
    ensures !(Names(cells[i], q) && '\n' !in Strip(cells[i + 1]))
  {
    hide Names, Strip;
    if i > 0 { SeqNone(cells[1..], q, i - 1); }
  }
}
