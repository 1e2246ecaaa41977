/** What one cell write does to any text at all: the written row reads back, and a row that shares
    no cell with it reads as before. */
module ControlCells {
  import opened Text
  import opened Template
  import opened ControlText

  predicate BarFree(s: string) { '|' !in s }

  lemma {:induction false} SplitJoin(cells: seq<string>)
    requires |cells| >= 1 && forall c :: c in cells ==> BarFree(c)
    ensures Cells(Join(cells)) == cells
  {
    assert cells[0] in cells;
    if |cells| == 1 {
      SplitNone(cells[0], '|');
    } else {
      SplitJoin(cells[1..]);
      SplitNone(cells[0], '|');
      assert cells[0] + ("|" + Join(cells[1..])) == cells[0] + ['|'] + Join(cells[1..]);
      SplitAppend(cells[0], Join(cells[1..]), '|');
      assert [cells[0]] + cells[1..] == cells;
    }
  }

  lemma {:induction false} JoinSplit(text: string)
    ensures Join(Cells(text)) == text
  {
    if text != "" {
      JoinSplit(text[1..]);
      var r := Cells(text[1..]);
      if text[0] == '|' {
        assert Cells(text)[1..] == r;
        assert "" + ("|" + text[1..]) == text;
      } else {
        assert Cells(text)[1..] == r[1..];
        if |r| > 1 {
          assert ([text[0]] + r[0]) + ("|" + Join(r[1..])) == [text[0]] + (r[0] + ("|" + Join(r[1..])));
        }
        assert [text[0]] + text[1..] == text;
      }
    }
  }

  lemma CellsBarFree(text: string)
    ensures forall c :: c in Cells(text) ==> BarFree(c)
  {
    forall c | c in Cells(text) ensures BarFree(c) {
      var i :| 0 <= i < |Cells(text)| && Cells(text)[i] == c;
      SplitPieces(text, '|', i);
    }
  }

  /** A value the row syntax can hold. */
  predicate PlainValue(v: string) { Trimmed(v) && BarFree(v) && '\n' !in v }

  lemma PaddedValue(v: string)
    requires PlainValue(v)
    ensures Strip(" " + v + " ") == v && BarFree(" " + v + " ")
  {
    StripPadded(" ", v, " ");
  }

  /** Searches agree on two texts that agree on where rows can match. */
  lemma {:induction false} FindSame(a: seq<string>, b: seq<string>, p: LabelPattern, j: nat)
    requires 1 <= j && |a| == |b|
    requires forall i :: j <= i && i + 2 < |a| ==>
               (Names(a[i], p) && '\n' !in Strip(a[i + 1]) <==> Names(b[i], p) && '\n' !in Strip(b[i + 1]))
    ensures FindFrom(a, p, j) == FindFrom(b, p, j)
    decreases |a| - j
  {
    hide Names;
    if j + 2 < |a| { FindSame(a, b, p, j + 1); }
  }

  lemma {:induction false} FindFirst(cells: seq<string>, p: LabelPattern, j: nat, at: nat)
    requires 1 <= j <= at && at + 2 < |cells| && Names(cells[at], p) && '\n' !in Strip(cells[at + 1])
    requires forall i :: j <= i < at ==> !(Names(cells[i], p) && '\n' !in Strip(cells[i + 1]))
    ensures FindFrom(cells, p, j) == at
    decreases at - j
  {
    hide Names;
    if j < at { FindFirst(cells, p, j + 1, at); }
  }

  lemma WrittenCells(text: string, p: LabelPattern, v: string)
    requires Found(Cells(text), p) && PlainValue(v)
    ensures var j := FindFrom(Cells(text), p, 1);
            j + 2 < |Cells(text)| && Cells(WriteCell(text, p, v)) == Cells(text)[j + 1 := " " + v + " "]
  {
    var cells := Cells(text);
    FindIs(cells, p, 1);
    PaddedValue(v);
    CellsBarFree(text);
    var j := FindFrom(cells, p, 1);
    SplitJoin(cells[j + 1 := " " + v + " "]);
  }

  /** On any text in which a row is found, the value written is the value read. */
  lemma WriteThenRead(text: string, p: LabelPattern, v: string)
    requires ReadCell(text, p).Some? && PlainValue(v)
    ensures ReadCell(WriteCell(text, p, v), p) == Some(v)
  {
    hide Names, WriteCell;
    var cells := Cells(text);
    FindIs(cells, p, 1);
    WrittenCells(text, p, v);
    PaddedValue(v);
    var j := FindFrom(cells, p, 1);
    FindFirst(cells[j + 1 := " " + v + " "], p, 1, j);
  }

  /** A row found in another place keeps its value, when the write neither hides nor makes up its label. */
  lemma WriteKeepsOthers(text: string, p: LabelPattern, v: string, q: LabelPattern)
    requires Found(Cells(text), p) && PlainValue(v)
    requires var j := FindFrom(Cells(text), p, 1);
             j + 2 < |Cells(text)| && !Names(Cells(text)[j], q) && !Names(Cells(text)[j + 1], q) && !Names(" " + v + " ", q)
    ensures ReadCell(WriteCell(text, p, v), q) == ReadCell(text, q)
  {
    hide Names, WriteCell;
    var cells := Cells(text);
    FindIs(cells, p, 1);
    WrittenCells(text, p, v);
    var j := FindFrom(cells, p, 1);
    UpdateKeepsFind(cells, q, j, " " + v + " ");
  }

  lemma UpdateKeepsFind(cells: seq<string>, q: LabelPattern, j: nat, x: string)
    requires j + 1 < |cells| && !Names(cells[j], q) && !Names(cells[j + 1], q) && !Names(x, q)
    ensures var next := cells[j + 1 := x]; var r := FindFrom(cells, q, 1);
            FindFrom(next, q, 1) == r && (r < |cells| ==> r + 1 < |cells| && next[r + 1] == cells[r + 1])
  {
    hide Names;
    var next := cells[j + 1 := x];
    forall i | 1 <= i && i + 2 < |cells|
      ensures Names(cells[i], q) && '\n' !in Strip(cells[i + 1]) <==> Names(next[i], q) && '\n' !in Strip(next[i + 1])
    {
      if i != j && i != j + 1 { assert next[i] == cells[i] && next[i + 1] == cells[i + 1]; }
    }
    FindSame(cells, next, q, 1);
    FindIs(cells, q, 1);
  }

  /** Writing the same value twice is writing it once; a row that is not there is not written. */
  lemma WriteTwice(text: string, p: LabelPattern, v: string)
    requires PlainValue(v)
    ensures WriteCell(WriteCell(text, p, v), p, v) == WriteCell(text, p, v)
  {
    hide Names;
    var cells := Cells(text);
    FindIs(cells, p, 1);
    if Found(cells, p) {
      WrittenCells(text, p, v);
      PaddedValue(v);
      var j := FindFrom(cells, p, 1);
      var next := cells[j + 1 := " " + v + " "];
      FindFirst(next, p, 1, j);
      assert next[j + 1 := " " + v + " "] == next;
    }
  }

  // ---- joining, and a value that stands for itself ----

  lemma {:induction false} JoinAppend(a: seq<string>, b: seq<string>)
    requires a != [] && b != []
    ensures Join(a + b) == Join(a) + ("|" + Join(b))
  {
    if |a| == 1 {
      assert (a + b)[1..] == b;
    } else {
      assert (a + b)[1..] == a[1..] + b;
      JoinAppend(a[1..], b);
      assert a[0] + ("|" + (Join(a[1..]) + ("|" + Join(b)))) == (a[0] + ("|" + Join(a[1..]))) + ("|" + Join(b));
    }
  }

  lemma WrittenText(cs: seq<string>, r: nat, value: string, before: string, after: string)
    requires 1 <= r && r + 2 < |cs| && before == Join(cs[..r]) && after == Join(cs[r + 2..])
    ensures Join(cs[r + 1 := " " + value + " "]) == before + ("|" + (cs[r] + "|") + (" " + value + " |")) + after
  {
    hide Join;
    var x := " " + value + " ";
    var next := cs[r + 1 := x];
    assert next == cs[..r] + ([cs[r], x] + cs[r + 2..]);
    JoinAppend(cs[..r], [cs[r], x] + cs[r + 2..]);
    JoinAppend([cs[r], x], cs[r + 2..]);
    JoinTwo(cs[r], x);
    assert x + "|" == " " + value + " |";
    assert before + ("|" + ((cs[r] + ("|" + x)) + ("|" + after))) == before + ("|" + (cs[r] + "|") + (x + "|")) + after;
  }

  lemma JoinTwo(a: string, b: string)
    ensures Join([a, b]) == a + ("|" + b)
  {
    assert [a, b][1..] == [b];
  }

  /** A value without a backslash stands for itself. */
  lemma PlainWriteRow(text: string, p: LabelPattern, value: string)
    requires '\\' !in value
    ensures WriteRow(text, p, value) == Some(WriteCell(text, p, value)) && IsTemplate(value)
  {
    hide Names, Cells, Join, ParseTemplate, RowTemplate, Fill, FindFrom;
    var cells := Cells(text);
    FindIs(cells, p, 1);
    PlainRowTemplate(value, "", "");
    if Found(cells, p) {
      var r := FindFrom(cells, p, 1);
      var title := "|" + (cells[r] + "|");
      PlainRowTemplate(value, title + (cells[r + 1] + "|"), title);
      WrittenText(cells, r, value, Join(cells[..r]), Join(cells[r + 2..]));
      assert " " + value + " |" == " " + (value + " |");
    }
  }
}
