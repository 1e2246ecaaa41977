/** The laws of `upsert_document_control_rows`: what it means on a document, and what it keeps. */
module DocumentControl {
  import opened Text
  import opened Template
  import opened ControlText
  import opened ControlCells
  import opened ControlDoc
  import opened ControlInsert

  // ---- reading, as a recursion over rows ----

  /** The raw value cell of the first row with the title. */
  function RawRow(rows: seq<Row>, p: LabelPattern): Option<string> {
    if rows == [] then None else if Names(rows[0].title, p) then Some(rows[0].value) else RawRow(rows[1..], p)
  }

  lemma {:induction false} RawRowIs(rows: seq<Row>, p: LabelPattern)
    ensures RawRow(rows, p) == var r := RowIndex(rows, p); if r < |rows| then Some(rows[r].value) else None
  {
    hide Names;
    if rows != [] { RawRowIs(rows[1..], p); }
  }

  lemma {:induction false} RawAppend(a: seq<Row>, b: seq<Row>, p: LabelPattern)
    ensures RawRow(a + b, p) == if RawRow(a, p).Some? then RawRow(a, p) else RawRow(b, p)
  {
    hide Names;
    if a == [] {
      assert a + b == b;
    } else {
      assert (a + b)[1..] == a[1..] + b;
      RawAppend(a[1..], b, p);
    }
  }

  /** Only titles and values are read. */
  lemma {:induction false} RawSame(a: seq<Row>, b: seq<Row>, p: LabelPattern)
    requires |a| == |b| && forall i :: 0 <= i < |a| ==> a[i].title == b[i].title && a[i].value == b[i].value
    ensures RawRow(a, p) == RawRow(b, p)
  {
    hide Names;
    if a != [] { RawSame(a[1..], b[1..], p); }
  }

  function Cell(v: string): string { " " + v + " " }

  lemma {:induction false} RawSet(rows: seq<Row>, p: LabelPattern, v: string, q: LabelPattern)
    requires forall i :: 0 <= i < |rows| && Names(rows[i].title, p) && Names(rows[i].title, q) ==> p == q
    ensures RawRow(SetRows(rows, p, v), q) ==
              if p == q && RawRow(rows, p).Some? then Some(Cell(v)) else RawRow(rows, q)
  {
    hide Names;
    if rows != [] {
      var rest := rows[1..];
      if !Names(rows[0].title, p) {
        assert forall i :: 0 <= i < |rest| ==> rest[i] == rows[i + 1];
        RawSet(rest, p, v, q);
        SetTail(rows, p, v);
        assert ([rows[0]] + SetRows(rest, p, v))[1..] == SetRows(rest, p, v);
      } else {
        assert SetRows(rows, p, v)[1..] == rest;
      }
    }
  }

  lemma SetTail(rows: seq<Row>, p: LabelPattern, v: string)
    requires rows != [] && !Names(rows[0].title, p)
    ensures SetRows(rows, p, v) == [rows[0]] + SetRows(rows[1..], p, v)
  {
    hide Names;
  }

  lemma SetKeepsTitles(rows: seq<Row>, p: LabelPattern, v: string)
    ensures |SetRows(rows, p, v)| == |rows|
    ensures forall i :: 0 <= i < |rows| ==> SetRows(rows, p, v)[i].title == rows[i].title && SetRows(rows, p, v)[i].gap == rows[i].gap
  {
    hide Names;
  }

  // ---- the operation on documents ----

  function WriteAllRows(rows: seq<Row>, es: seq<Entry>): (seq<Row>, seq<Entry>)
    decreases |es|
  {
    if es == [] then (rows, [])
    else
      var p := Exact(es[0].title);
      if RawRow(rows, p).Some? then WriteAllRows(SetRows(rows, p, es[0].value), es[1..])
      else
        var r := WriteAllRows(rows, es[1..]);
        (r.0, [es[0]] + r.1)
  }

  function UpsertRows(rows: seq<Row>, es: seq<Entry>): seq<Row> {
    var (written, missing) := WriteAllRows(rows, es);
    if missing == [] then written else InsertRowsInto(written, missing)
  }

  /** Set the rows that are there, add the others at the end of the Artifact ID block. */
  function UpsertDoc(d: Doc, es: seq<Entry>): Doc { d.(rows := UpsertRows(d.rows, es)) }

  predicate HasBlock(d: Doc) { RawRow(d.rows, ArtifactId).Some? }

  /** Entries with different titles and values the table can hold. */
  predicate EntriesOk(es: seq<Entry>, T: set<LabelPattern>) {
    && (forall i :: 0 <= i < |es| ==> EntryOk(es[i], T))
    && forall i, j :: 0 <= i < j < |es| ==> Lower(es[i].title) != Lower(es[j].title)
  }

  predicate EntryOk(e: Entry, T: set<LabelPattern>) {
    && Exact(e.title) in T && FitValue(e.value, T) && PlainValue(e.title) && Clean(e.title) && e.title != ""
    && (Names(Cell(e.title), ArtifactId) ==> Lower(e.title) == "artifact id")
  }

  lemma TitleNames(title: string, other: string)
    requires PlainValue(title)
    ensures Names(Cell(title), Exact(other)) <==> Lower(title) == Lower(other)
  {
    PaddedValue(title);
  }

  // ---- where the new rows go ----

  /** Index of the last row of the block that starts at `rows[0]`. */
  function BlockLast(rows: seq<Row>): (e: nat)
    requires rows != []
    ensures e < |rows|
    decreases |rows|
  {
    if |rows| > 1 && Adjacent(rows[0].gap) then BlockLast(rows[1..]) + 1 else 0
  }

  function InsertAt(rows: seq<Row>): (e: nat)
    requires RawRow(rows, ArtifactId).Some?
    ensures e < |rows|
  {
    if Names(rows[0].title, ArtifactId) then BlockLast(rows) else InsertAt(rows[1..]) + 1
  }

  function Spliced(rows: seq<Row>, e: nat, es: seq<Entry>): seq<Row>
    requires e < |rows|
  {
    rows[..e] + [rows[e].(gap := Ended(LineEnd(rows[e].gap)))] + NewRows(es, AfterLine(rows[e].gap)) + rows[e + 1..]
  }

  lemma ConsSpliced(rows: seq<Row>, e: nat, es: seq<Entry>)
    requires 0 < e < |rows|
    ensures Spliced(rows, e, es) == [rows[0]] + Spliced(rows[1..], e - 1, es)
  {
    hide NewRows, Ended, LineEnd, AfterLine;
    assert rows[..e] == [rows[0]] + rows[1..][..e - 1];
    assert rows[1..][e - 1] == rows[e] && rows[1..][e..] == rows[e + 1..];
  }

  lemma {:induction false} BlockSpliced(rows: seq<Row>, es: seq<Entry>)
    requires rows != []
    ensures InsertInBlock(rows, es) == Spliced(rows, BlockLast(rows), es)
    ensures forall i :: 0 <= i < BlockLast(rows) ==> Adjacent(rows[i].gap)
    ensures BlockLast(rows) + 1 < |rows| ==> !Adjacent(rows[BlockLast(rows)].gap)
    decreases |rows|
  {
    hide NewRows, Ended, LineEnd, AfterLine, Adjacent;
    if |rows| > 1 && Adjacent(rows[0].gap) {
      BlockSpliced(rows[1..], es);
      ConsSpliced(rows, BlockLast(rows), es);
      forall i | 0 <= i < BlockLast(rows) ensures Adjacent(rows[i].gap) {
        if i > 0 { assert rows[i] == rows[1..][i - 1]; }
      }
    } else {
      assert rows[..0] == [];
    }
  }

  /** The new rows land, in order, right after the last row of the block holding the Artifact ID row:
      every row between the two stands on the line after the one before it. */
  lemma {:induction false} InsertsAtBlockEnd(rows: seq<Row>, es: seq<Entry>)
    requires RawRow(rows, ArtifactId).Some?
    ensures var a, e := RowIndex(rows, ArtifactId), InsertAt(rows);
            && InsertRowsInto(rows, es) == Spliced(rows, e, es) && a <= e
            && (forall i :: a <= i < e ==> Adjacent(rows[i].gap))
            && (e + 1 < |rows| ==> !Adjacent(rows[e].gap))
    decreases |rows|
  {
    hide NewRows, Ended, LineEnd, AfterLine, Adjacent, Names, Spliced, InsertInBlock, BlockLast;
    if Names(rows[0].title, ArtifactId) {
      BlockSpliced(rows, es);
    } else {
      InsertsAtBlockEnd(rows[1..], es);
      var e := InsertAt(rows);
      ConsSpliced(rows, e, es);
      forall i | RowIndex(rows, ArtifactId) <= i < e ensures Adjacent(rows[i].gap) {
        assert rows[i] == rows[1..][i - 1];
      }
      assert e + 1 < |rows| ==> rows[e] == rows[1..][e - 1];
    }
  }

  lemma ReadSpliced(rows: seq<Row>, e: nat, es: seq<Entry>, p: LabelPattern)
    requires e < |rows|
    ensures var n := RawRow(NewRows(es, AfterLine(rows[e].gap)), p); var before := RawRow(rows[..e + 1], p);
            RawRow(Spliced(rows, e, es), p) == if before.Some? then before else if n.Some? then n else RawRow(rows[e + 1..], p)
  {
    hide NewRows, Ended, LineEnd, AfterLine, Names, RawRow;
    var n := NewRows(es, AfterLine(rows[e].gap));
    var last := rows[e].(gap := Ended(LineEnd(rows[e].gap)));
    RawAppend(rows[..e] + [last] + n, rows[e + 1..], p);
    RawAppend(rows[..e] + [last], n, p);
    RawSame(rows[..e] + [last], rows[..e + 1], p);
  }

  lemma RawCut(rows: seq<Row>, e: nat, p: LabelPattern)
    requires e < |rows|
    ensures RawRow(rows, p) == if RawRow(rows[..e + 1], p).Some? then RawRow(rows[..e + 1], p) else RawRow(rows[e + 1..], p)
  {
    hide RawRow;
    RawAppend(rows[..e + 1], rows[e + 1..], p);
    assert rows[..e + 1] + rows[e + 1..] == rows;
  }

  /** Added rows are read only where no row was before. */
  lemma ReadInserted(rows: seq<Row>, es: seq<Entry>, p: LabelPattern)
    requires RawRow(rows, ArtifactId).Some?
    requires RawRow(rows, p).Some? ==> RawRow(NewRows(es, AfterLine(rows[InsertAt(rows)].gap)), p).None?
    ensures RawRow(InsertRowsInto(rows, es), p)
         == if RawRow(rows, p).Some? then RawRow(rows, p) else RawRow(NewRows(es, AfterLine(rows[InsertAt(rows)].gap)), p)
  {
    hide NewRows, AfterLine, Names, RawRow, Spliced, InsertRowsInto, InsertAt;
    InsertsAtBlockEnd(rows, es);
    ReadSpliced(rows, InsertAt(rows), es, p);
    RawCut(rows, InsertAt(rows), p);
  }

  lemma {:induction false} NewRowsRead(es: seq<Entry>, tail: string, p: LabelPattern)
    ensures (forall e :: e in es ==> !Names(Cell(e.title), p)) ==> RawRow(NewRows(es, tail), p).None?
  {
    hide Names;
    if es != [] {
      assert es[0] in es;
      NewRowsRead(es[1..], tail, p);
      assert NewRows(es, tail)[1..] == NewRows(es[1..], tail);
      assert (forall e :: e in es ==> !Names(Cell(e.title), p)) ==> forall e :: e in es[1..] ==> !Names(Cell(e.title), p);
    }
  }

  lemma {:induction false} NewRowReads(es: seq<Entry>, tail: string, i: nat, T: set<LabelPattern>)
    requires i < |es| && EntriesOk(es, T)
    ensures RawRow(NewRows(es, tail), Exact(es[i].title)) == Some(Cell(es[i].value))
  {
    hide Names, FitValue;
    assert EntryOk(es[0], T) && EntryOk(es[i], T);
    TitleNames(es[0].title, es[i].title);
    assert NewRows(es, tail)[1..] == NewRows(es[1..], tail);
    if i > 0 {
      EntriesTail(es, T);
      NewRowReads(es[1..], tail, i - 1, T);
    }
  }

  lemma EntriesTail(es: seq<Entry>, T: set<LabelPattern>)
    requires es != [] && EntriesOk(es, T)
    ensures EntriesOk(es[1..], T) && EntryOk(es[0], T)
    ensures forall e :: e in es[1..] ==> Lower(e.title) != Lower(es[0].title)
  {
    hide EntryOk;
    var rest := es[1..];
    forall i | 0 <= i < |rest| ensures EntryOk(rest[i], T) && Lower(rest[i].title) != Lower(es[0].title) {
      assert rest[i] == es[i + 1];
    }
    forall i, j | 0 <= i < j < |rest| ensures Lower(rest[i].title) != Lower(rest[j].title) {
      assert rest[i] == es[i + 1] && rest[j] == es[j + 1];
    }
  }

  // ---- writing the rows that are there ----

  lemma {:induction false} WriteAllKeepsTitles(rows: seq<Row>, es: seq<Entry>)
    ensures var w := WriteAllRows(rows, es).0;
            && |w| == |rows|
            && forall i :: 0 <= i < |rows| ==> w[i].title == rows[i].title && w[i].gap == rows[i].gap
    decreases |es|
  {
    hide RawRow, SetRows;
    if es != [] {
      var p := Exact(es[0].title);
      SetKeepsTitles(rows, p, es[0].value);
      WriteAllKeepsTitles(SetRows(rows, p, es[0].value), es[1..]);
      WriteAllKeepsTitles(rows, es[1..]);
    }
  }

  lemma {:induction false} SameTitles(a: seq<Row>, b: seq<Row>, p: LabelPattern)
    requires |a| == |b| && forall i :: 0 <= i < |a| ==> a[i].title == b[i].title
    ensures RawRow(a, p).Some? <==> RawRow(b, p).Some?
    ensures RowIndex(a, p) == RowIndex(b, p)
  {
    hide Names;
    if a != [] { SameTitles(a[1..], b[1..], p); }
  }

  /** A write to one title leaves another alone. */
  lemma SetOther(rows: seq<Row>, a: string, v: string, b: string)
    requires Lower(a) != Lower(b)
    ensures RawRow(SetRows(rows, Exact(a), v), Exact(b)) == RawRow(rows, Exact(b))
  {
    hide SetRows, RawRow;
    RawSet(rows, Exact(a), v, Exact(b));
  }

  lemma SetOwn(rows: seq<Row>, a: string, v: string)
    ensures RawRow(SetRows(rows, Exact(a), v), Exact(a)) == if RawRow(rows, Exact(a)).Some? then Some(Cell(v)) else None
  {
    hide SetRows;
    RawSet(rows, Exact(a), v, Exact(a));
  }

  lemma {:induction false} WriteAllOther(rows: seq<Row>, es: seq<Entry>, b: string)
    requires forall e :: e in es ==> Lower(e.title) != Lower(b)
    ensures RawRow(WriteAllRows(rows, es).0, Exact(b)) == RawRow(rows, Exact(b))
    decreases |es|
  {
    hide RawRow, SetRows;
    if es != [] {
      assert es[0] in es;
      SetOther(rows, es[0].title, es[0].value, b);
      WriteAllOther(SetRows(rows, Exact(es[0].title), es[0].value), es[1..], b);
      WriteAllOther(rows, es[1..], b);
    }
  }

  lemma {:induction false} WriteAllOwn(rows: seq<Row>, es: seq<Entry>, T: set<LabelPattern>, i: nat)
    requires EntriesOk(es, T) && i < |es|
    ensures var (w, m) := WriteAllRows(rows, es); var p := Exact(es[i].title);
            && (RawRow(rows, p).Some? ==> RawRow(w, p) == Some(Cell(es[i].value)))
            && (RawRow(rows, p).None? ==> RawRow(w, p).None? && es[i] in m)
    decreases |es|
  {
    hide RawRow, SetRows, EntryOk;
    EntriesTail(es, T);
    var e, rest := es[0], es[1..];
    var next := SetRows(rows, Exact(e.title), e.value);
    if i == 0 {
      SetOwn(rows, e.title, e.value);
      WriteAllOther(next, rest, e.title);
      WriteAllOther(rows, rest, e.title);
    } else {
      assert es[i] == rest[i - 1] && es[i] in rest;
      SetOther(rows, e.title, e.value, es[i].title);
      WriteAllOwn(next, rest, T, i - 1);
      WriteAllOwn(rows, rest, T, i - 1);
    }
  }

  /** The rows found missing: those entries that no row answers to, in their order. */
  lemma {:induction false} MissingIs(rows: seq<Row>, es: seq<Entry>, T: set<LabelPattern>)
    requires EntriesOk(es, T)
    ensures var m := WriteAllRows(rows, es).1;
            && EntriesOk(m, T) && |m| <= |es|
            && forall e :: e in m ==> e in es && RawRow(rows, Exact(e.title)).None?
    decreases |es|
  {
    hide RawRow, SetRows, EntryOk;
    if es != [] {
      EntriesTail(es, T);
      var e, rest := es[0], es[1..];
      var next := SetRows(rows, Exact(e.title), e.value);
      MissingIs(next, rest, T);
      MissingIs(rows, rest, T);
      forall x | x in WriteAllRows(next, rest).1 ensures RawRow(rows, Exact(x.title)).None? {
        SetOther(rows, e.title, e.value, x.title);
      }
      var m := WriteAllRows(rows, rest).1;
      ConsOk(e, m, rest, T);
    }
  }

  lemma ConsOk(e: Entry, m: seq<Entry>, rest: seq<Entry>, T: set<LabelPattern>)
    requires EntryOk(e, T) && EntriesOk(m, T) && forall x :: x in m ==> x in rest
    requires forall x :: x in rest ==> Lower(x.title) != Lower(e.title)
    ensures EntriesOk([e] + m, T)
  {
    hide EntryOk;
    var all := [e] + m;
    forall i | 0 <= i < |all| ensures EntryOk(all[i], T) { if i > 0 { assert all[i] == m[i - 1]; } }
    forall i, j | 0 <= i < j < |all| ensures Lower(all[i].title) != Lower(all[j].title) {
      assert all[j] == m[j - 1] && all[j] in m;
      if i > 0 { assert all[i] == m[i - 1]; }
    }
  }

  /** Where the block is does not depend on the values. */
  lemma BlockStays(rows: seq<Row>, es: seq<Entry>)
    requires RawRow(rows, ArtifactId).Some?
    ensures RawRow(WriteAllRows(rows, es).0, ArtifactId).Some?
  {
    WriteAllKeepsTitles(rows, es);
    SameTitles(rows, WriteAllRows(rows, es).0, ArtifactId);
  }

  // ---- the laws ----

  /** Every requested row reads back its value. */
  lemma UpsertReads(d: Doc, es: seq<Entry>, T: set<LabelPattern>, i: nat)
    requires HasBlock(d) && EntriesOk(es, T) && i < |es|
    ensures RawRow(UpsertDoc(d, es).rows, Exact(es[i].title)) == Some(Cell(es[i].value))
    ensures ReadDoc(UpsertDoc(d, es), Exact(es[i].title)) == Some(es[i].value)
  {
    hide RawRow, InsertRowsInto, WriteAllRows, EntryOk;
    var (w, m) := WriteAllRows(d.rows, es);
    var p := Exact(es[i].title);
    WriteAllOwn(d.rows, es, T, i);
    MissingIs(d.rows, es, T);
    BlockStays(d.rows, es);
    if m != [] {
      var tail := AfterLine(w[InsertAt(w)].gap);
      if RawRow(d.rows, p).None? {
        var k :| 0 <= k < |m| && m[k] == es[i];
        NewRowReads(m, tail, k, T);
      } else {
        NotAdded(m, tail, es, i, T, d.rows);
      }
      ReadInserted(w, m, p);
    }
    ValueReads(es, i, T);
    RawRowIs(UpsertDoc(d, es).rows, p);
  }

  lemma NotAdded(m: seq<Entry>, tail: string, es: seq<Entry>, i: nat, T: set<LabelPattern>, rows: seq<Row>)
    requires EntriesOk(es, T) && EntriesOk(m, T) && i < |es|
    requires forall e :: e in m ==> e in es && RawRow(rows, Exact(e.title)).None?
    requires RawRow(rows, Exact(es[i].title)).Some?
    ensures RawRow(NewRows(m, tail), Exact(es[i].title)).None?
  {
    hide RawRow, NewRows, FitValue;
    forall e | e in m ensures !Names(Cell(e.title), Exact(es[i].title)) {
      var k :| 0 <= k < |es| && es[k] == e;
      assert EntryOk(es[k], T);
      TitleNames(e.title, es[i].title);
    }
    NewRowsRead(m, tail, Exact(es[i].title));
  }

  lemma ValueReads(es: seq<Entry>, i: nat, T: set<LabelPattern>)
    requires EntriesOk(es, T) && i < |es|
    ensures Strip(Cell(es[i].value)) == es[i].value
  {
    assert EntryOk(es[i], T);
    PaddedValue(es[i].value);
  }

  /** Every other row reads as before. */
  lemma UpsertKeeps(d: Doc, es: seq<Entry>, T: set<LabelPattern>, b: string)
    requires HasBlock(d) && EntriesOk(es, T) && forall e :: e in es ==> Lower(e.title) != Lower(b)
    ensures RawRow(UpsertDoc(d, es).rows, Exact(b)) == RawRow(d.rows, Exact(b))
    ensures ReadDoc(UpsertDoc(d, es), Exact(b)) == ReadDoc(d, Exact(b))
  {
    hide RawRow, InsertRowsInto, WriteAllRows, FitValue;
    var (w, m) := WriteAllRows(d.rows, es);
    WriteAllOther(d.rows, es, b);
    MissingIs(d.rows, es, T);
    BlockStays(d.rows, es);
    if m != [] {
      var tail := AfterLine(w[InsertAt(w)].gap);
      forall e | e in m ensures !Names(Cell(e.title), Exact(b)) {
        var k :| 0 <= k < |es| && es[k] == e;
        assert EntryOk(es[k], T);
        TitleNames(e.title, b);
      }
      NewRowsRead(m, tail, Exact(b));
      ReadInserted(w, m, Exact(b));
    }
    RawRowIs(d.rows, Exact(b));
    RawRowIs(UpsertDoc(d, es).rows, Exact(b));
  }

  /** The prose is untouched and the old rows stay in order with their titles: values of the first
      matching rows apart, the result is the old document with the missing rows spliced in, in their
      order, at the end of the block that holds the Artifact ID row. */
  lemma UpsertShape(d: Doc, es: seq<Entry>, T: set<LabelPattern>) returns (w: seq<Row>, m: seq<Entry>)
    requires HasBlock(d) && EntriesOk(es, T)
    ensures |w| == |d.rows| && forall i :: 0 <= i < |w| ==> w[i].title == d.rows[i].title && w[i].gap == d.rows[i].gap
    ensures forall e :: e in m <==> e in es && RawRow(d.rows, Exact(e.title)).None?
    ensures RawRow(w, ArtifactId).Some? && UpsertDoc(d, es).pre == d.pre
    ensures UpsertDoc(d, es).rows == if m == [] then w else Spliced(w, InsertAt(w), m)
  {
    hide RawRow, InsertRowsInto, EntryOk;
    w, m := WriteAllRows(d.rows, es).0, WriteAllRows(d.rows, es).1;
    WriteAllKeepsTitles(d.rows, es);
    BlockStays(d.rows, es);
    MissingIs(d.rows, es, T);
    forall e | e in es && RawRow(d.rows, Exact(e.title)).None? ensures e in m {
      var i :| 0 <= i < |es| && es[i] == e;
      WriteAllOwn(d.rows, es, T, i);
    }
    InsertsAtBlockEnd(w, m);
  }

  lemma SetSame(rows: seq<Row>, p: LabelPattern, v: string)
    requires RawRow(rows, p) == Some(Cell(v))
    ensures SetRows(rows, p, v) == rows
  {
    hide RawRow, Names;
    RawRowIs(rows, p);
    var r := RowIndex(rows, p);
    assert rows[r].(value := Cell(v)) == rows[r];
  }

  lemma {:induction false} NothingToWrite(rows: seq<Row>, es: seq<Entry>)
    requires forall i :: 0 <= i < |es| ==> RawRow(rows, Exact(es[i].title)) == Some(Cell(es[i].value))
    ensures WriteAllRows(rows, es) == (rows, [])
    decreases |es|
  {
    hide RawRow, SetRows;
    if es != [] {
      SetSame(rows, Exact(es[0].title), es[0].value);
      assert forall i :: 0 <= i < |es[1..]| ==> es[1..][i] == es[i + 1];
      NothingToWrite(rows, es[1..]);
    }
  }

  /** Applying the same rows twice is applying them once. */
  lemma UpsertTwice(d: Doc, es: seq<Entry>, T: set<LabelPattern>)
    requires HasBlock(d) && EntriesOk(es, T)
    ensures UpsertDoc(UpsertDoc(d, es), es) == UpsertDoc(d, es)
  {
    hide UpsertRows, RawRow, EntriesOk;
    var u := UpsertDoc(d, es);
    forall i | 0 <= i < |es| ensures RawRow(u.rows, Exact(es[i].title)) == Some(Cell(es[i].value)) {
      UpsertReads(d, es, T, i);
    }
    NothingToWrite(u.rows, es);
    NothingAdded(u.rows, es);
  }

  lemma NothingAdded(rows: seq<Row>, es: seq<Entry>)
    requires WriteAllRows(rows, es) == (rows, [])
    ensures UpsertRows(rows, es) == rows
  {
  }

  // ---- well-formed documents stay so; the text operation is the document operation ----

  lemma SetRowsOk(rows: seq<Row>, T: set<LabelPattern>, p: LabelPattern, v: string)
    requires RowsOk(rows, T) && FitValue(v, T)
    ensures RowsOk(SetRows(rows, p, v), T)
  {
    hide RowOk, FitValue, Names;
    SetKeepsTitles(rows, p, v);
    var r := RowIndex(rows, p);
    if r < |rows| { SetRowOk(rows[r], T, v); }
  }

  lemma SetRowOk(r: Row, T: set<LabelPattern>, v: string)
    requires RowOk(r, T) && FitValue(v, T)
    ensures RowOk(r.(value := " " + v + " "), T)
  {
    hide Names;
    PaddedClean(v);
  }

  /** Some row that is there is to get a value that is no template. */
  ghost predicate Blocked(rows: seq<Row>, es: seq<Entry>) { exists k: nat :: BlockedAt(rows, es, k) }

  predicate BlockedAt(rows: seq<Row>, es: seq<Entry>, k: nat) {
    k < |es| && RawRow(rows, Exact(es[k].title)).Some? && !IsTemplate(es[k].value)
  }

  predicate AllLiteralOrBad(es: seq<Entry>) { forall i :: 0 <= i < |es| ==> LiteralOrBad(es[i].value) }

  lemma BlockedTail(rows: seq<Row>, next: seq<Row>, es: seq<Entry>)
    requires es != [] && !BlockedAt(rows, es, 0)
    requires |next| == |rows| && forall i :: 0 <= i < |rows| ==> next[i].title == rows[i].title
    ensures Blocked(rows, es) <==> Blocked(next, es[1..])
  {
    hide RawRow, IsTemplate;
    forall k: nat | k < |es| - 1 ensures BlockedAt(next, es[1..], k) <==> BlockedAt(rows, es, k + 1) {
      SameTitles(rows, next, Exact(es[k + 1].title));
    }
    if Blocked(rows, es) {
      var k: nat :| BlockedAt(rows, es, k);
      assert BlockedAt(next, es[1..], k - 1);
    }
    if Blocked(next, es[1..]) {
      var k: nat :| BlockedAt(next, es[1..], k);
      assert BlockedAt(rows, es, k + 1);
    }
  }

  lemma WriteRowRendered(d: Doc, T: set<LabelPattern>, p: LabelPattern, v: string)
    requires WellFormed(d, T) && p in T && FitValue(v, T) && LiteralOrBad(v)
    ensures WriteRow(Render(d), p, v) == if IsTemplate(v) then Some(Render(SetDoc(d, p, v))) else None
  {
    hide RowsOk, RenderRows, WriteRow, IsTemplate, Names, Untitled;
    RaisesIsNoTemplate(Render(d), p, v);
    if '\\' !in v {
      PlainWriteRow(Render(d), p, v);
      WriteRendered(d, T, p, v);
    }
  }

  lemma {:induction false} WriteAllOk(rows: seq<Row>, es: seq<Entry>, T: set<LabelPattern>)
    requires RowsOk(rows, T) && forall i :: 0 <= i < |es| ==> EntryOk(es[i], T)
    ensures RowsOk(WriteAllRows(rows, es).0, T)
    decreases |es|
  {
    hide RawRow, SetRows, RowsOk, FitValue, Names;
    if es != [] {
      assert EntryOk(es[0], T) && forall i :: 0 <= i < |es[1..]| ==> es[1..][i] == es[i + 1];
      SetRowsOk(rows, T, Exact(es[0].title), es[0].value);
      WriteAllOk(SetRows(rows, Exact(es[0].title), es[0].value), es[1..], T);
      WriteAllOk(rows, es[1..], T);
    }
  }

  lemma {:induction false} WriteAllRendered(pre: string, rows: seq<Row>, es: seq<Entry>, T: set<LabelPattern>)
    requires Clean(pre) && Untitled(pre, T) && RowsOk(rows, T) && forall i :: 0 <= i < |es| ==> EntryOk(es[i], T)
    requires AllLiteralOrBad(es)
    ensures var (w, m) := WriteAllRows(rows, es);
            WriteAll(pre + RenderRows(rows), es) == if Blocked(rows, es) then None else Some((pre + RenderRows(w), m))
    decreases |es|
  {
    hide RawRow, SetRows, RowsOk, RowOk, FitValue, ReadCell, WriteRow, RenderRows, Names, Clean, IsTemplate, Blocked;
    if es == [] {
      NotBlocked(rows);
    } else {
      var d, p := Doc(pre, rows), Exact(es[0].title);
      assert EntryOk(es[0], T) && forall i :: 0 <= i < |es[1..]| ==> es[1..][i] == es[i + 1];
      ReadRendered(d, T, p);
      RawRowIs(rows, p);
      if RawRow(rows, p).Some? {
        var next := SetRows(rows, p, es[0].value);
        WriteRowRendered(d, T, p, es[0].value);
        SetRowsOk(rows, T, p, es[0].value);
        SetKeepsTitles(rows, p, es[0].value);
        WriteAllRendered(pre, next, es[1..], T);
        if IsTemplate(es[0].value) { BlockedTail(rows, next, es); } else { BlockedFirst(rows, es); }
      } else {
        WriteAllRendered(pre, rows, es[1..], T);
        BlockedTail(rows, rows, es);
      }
    }
  }

  lemma BlockedFirst(rows: seq<Row>, es: seq<Entry>)
    requires BlockedAt(rows, es, 0)
    ensures Blocked(rows, es)
  {
  }

  lemma NotBlocked(rows: seq<Row>)
    ensures !Blocked(rows, [])
  {
  }

  /** Values without a backslash block nothing. */
  lemma PlainNeverBlocks(rows: seq<Row>, es: seq<Entry>)
    requires forall i :: 0 <= i < |es| ==> '\\' !in es[i].value
    ensures !Blocked(rows, es) && AllLiteralOrBad(es)
  {
    hide RawRow, IsTemplate;
    forall k: nat | k < |es| ensures IsTemplate(es[k].value) {
      PlainWriteRow("", ArtifactId, es[k].value);
    }
  }

  lemma {:induction false} HasIdInRows(x: string, rows: seq<Row>, T: set<LabelPattern>)
    requires RowsOk(rows, T) && ArtifactId in T
    ensures HasIdFrom([x] + RowCells(rows), 1) <==> RawRow(rows, ArtifactId).Some?
    decreases |rows|
  {
    hide Names;
    if rows != [] {
      var r, rest := rows[0], RowCells(rows[1..]);
      var cells := [x] + RowCells(rows);
      assert RowOk(r, T);
      assert cells == [x, r.title, r.value] + ([r.gap] + rest);
      HasIdInRows(r.gap, rows[1..], T);
      HasIdShift([x, r.title, r.value], [r.gap] + rest, 1);
      assert HasIdFrom(cells, 1) <==> Names(cells[1], ArtifactId) || HasIdFrom(cells, 2);
      assert HasIdFrom(cells, 2) <==> HasIdFrom(cells, 3);
      assert HasIdFrom(cells, 3) <==> HasIdFrom(cells, 4);
    }
  }

  lemma {:induction false} HasIdShift(a: seq<string>, cells: seq<string>, j: nat)
    requires 1 <= j
    ensures HasIdFrom(a + cells, j + |a|) <==> HasIdFrom(cells, j)
    decreases |cells| - j
  {
    hide Names;
    if j + 1 < |cells| {
      assert (a + cells)[j + |a|] == cells[j];
      HasIdShift(a, cells, j + 1);
    }
  }

  lemma BlockRenderedHasId(d: Doc, T: set<LabelPattern>)
    requires WellFormed(d, T) && ArtifactId in T
    ensures HasId(Render(d)) <==> HasBlock(d)
  {
    RowsSplit(d.pre, d.rows, T);
    HasIdInRows(d.pre, d.rows, T);
  }

  /** On the text of a well-formed document, for values that a substitution takes literally or refuses, the
      code's text surgery does exactly `UpsertDoc`, or raises when a row that is there is to get a value that
      is no template; a document without an Artifact ID row is refused, and the line search never fails. */
  lemma UpsertRendered(d: Doc, es: seq<Entry>, T: set<LabelPattern>)
    requires WellFormed(d, T) && ArtifactId in T && EntriesOk(es, T) && AllLiteralOrBad(es)
    ensures Upsert(Render(d), es) == if !HasBlock(d) then NoBlock
                                     else if Blocked(d.rows, es) then BadTemplate else Updated(Render(UpsertDoc(d, es)))
  {
    hide RawRow, RowsOk, RenderRows, Clean, InsertRowsInto, EntryOk, HasId, InsertLines, SplitLines, WriteAll, WriteAllRows, Blocked, AllLiteralOrBad;
    BlockRenderedHasId(d, T);
    if HasBlock(d) {
      WriteAllRendered(d.pre, d.rows, es, T);
      WriteAllOk(d.rows, es, T);
      var (w, m) := WriteAllRows(d.rows, es);
      MissingIs(d.rows, es, T);
      BlockStays(d.rows, es);
      if m != [] {
        RawRowIs(w, ArtifactId);
        InsertRendered(d.pre, w, m, T);
      }
    }
  }

  predicate TitlesOk(T: set<LabelPattern>) { forall p :: p in T && p.Exact? ==> p.title != "" }

  lemma BlankIsUntitled(s: string, T: set<LabelPattern>)
    requires Strip(s) == "" && TitlesOk(T)
    ensures Untitled(s, T)
  {
  }

  lemma SameStripSameNames(a: string, b: string, T: set<LabelPattern>)
    requires Strip(a) == Strip(b) && Untitled(a, T)
    ensures Untitled(b, T)
  {
    forall p | p in T ensures !Names(b, p) {
      assert !Names(a, p);
    }
  }

  lemma NewlineStrips(s: string)
    ensures Strip("\n" + s) == Strip(s) && Strip(s + "\n") == Strip(s)
  {
    assert ("\n" + s)[1..] == s;
    StripRightOne(s);
  }

  lemma {:induction false} StripRightOne(s: string)
    ensures Strip(s + "\n") == Strip(s)
  {
    if s == "" {
      assert s + "\n" == "\n";
      StripAllSpace("\n");
    } else if IsSpace(s[0]) {
      assert (s + "\n")[1..] == s[1..] + "\n";
      StripRightOne(s[1..]);
    } else {
      var t := s + "\n";
      assert t[|t| - 1] == '\n' && t[..|t| - 1] == s;
      StripLeftPadded("", s);
      StripLeftPadded("", t);
      assert "" + s == s && "" + t == t;
    }
  }

  lemma LastRowOk(r: Row, T: set<LabelPattern>)
    requires RowOk(r, T) && TitlesOk(T)
    ensures RowOk(r.(gap := Ended(LineEnd(r.gap))), T) && '\n' in Ended(LineEnd(r.gap))
  {
    hide Names, Untitled, Clean;
    var h := LineEnd(r.gap);
    LineParts(r.gap);
    NewlineStrips(h);
    EndedParts(r.gap);
    if !EndsWithNewline(h) { SameStripSameNames(h, h + "\n", T); }
    BlankIsUntitled("", T);
    CleanEnded(r.gap);
  }

  lemma {:induction false} EndedParts(gap: string)
    ensures LineEnd(Ended(LineEnd(gap))) == Ended(LineEnd(gap)) && AfterLine(Ended(LineEnd(gap))) == ""
    ensures '\n' in Ended(LineEnd(gap))
  {
    var h := LineEnd(gap);
    LineParts(gap);
    var e := Ended(h);
    LineParts(e);
    WholeLine(e);
  }

  lemma {:induction false} WholeLine(e: string)
    requires EndsWithNewline(e) && forall i :: 0 <= i < |e| - 1 ==> e[i] != '\n'
    ensures LineEnd(e) == e && AfterLine(e) == ""
  {
    if |e| > 1 {
      WholeLine(e[1..]);
      assert [e[0]] + e[1..] == e;
    } else {
      assert e == "\n";
    }
  }

  lemma CleanEnded(gap: string)
    requires Clean(gap)
    ensures Clean(Ended(LineEnd(gap))) && Clean(AfterLine(gap)) && Clean("\n" + AfterLine(gap)) && Clean("\n")
  {
    LineParts(gap);
    assert !IsExoticBreak('\n');
  }

  lemma NewGapOk(tail: string, T: set<LabelPattern>)
    requires Untitled(tail, T) && TitlesOk(T)
    ensures Untitled("\n" + tail, T) && Untitled("\n", T) && Untitled("", T)
    ensures LineEnd("\n" + tail) == "\n" && AfterLine("\n" + tail) == tail && LineEnd("\n") == "\n" && AfterLine("\n") == ""
  {
    hide Names, Untitled;
    NewlineStrips(tail);
    SameStripSameNames(tail, "\n" + tail, T);
    StripAllSpace("\n");
    BlankIsUntitled("\n", T);
    BlankIsUntitled("", T);
    assert ("\n" + tail)[1..] == tail && "\n"[1..] == "";
  }

  lemma {:induction false} NewRowsOk(es: seq<Entry>, tail: string, T: set<LabelPattern>)
    requires (forall i :: 0 <= i < |es| ==> EntryOk(es[i], T)) && TitlesOk(T)
    requires Untitled(tail, T) && Clean(tail) && Clean("\n" + tail) && Clean("\n")
    ensures RowsOk(NewRows(es, tail), T) && |NewRows(es, tail)| == |es|
    ensures forall r :: r in NewRows(es, tail) ==> '\n' in r.gap
  {
    hide Names, Untitled, FitValue, RowOk, Clean;
    if es != [] {
      var rest := NewRows(es[1..], tail);
      assert forall i :: 0 <= i < |es[1..]| ==> es[1..][i] == es[i + 1];
      NewRowsOk(es[1..], tail, T);
      NewRowOk(es[0], if |es| == 1 then "\n" + tail else "\n", tail, T);
      assert NewRows(es, tail)[1..] == rest;
      if |es| > 1 { assert rest[0] == NewRows(es, tail)[1]; }
    }
  }

  lemma NewRowOk(e: Entry, gap: string, tail: string, T: set<LabelPattern>)
    requires EntryOk(e, T) && TitlesOk(T) && Untitled(tail, T) && (gap == "\n" + tail || gap == "\n") && Clean("\n" + tail) && Clean("\n")
    ensures RowOk(Row(" " + e.title + " ", " " + e.value + " ", gap), T)
  {
    hide Names, Untitled;
    PaddedClean(e.title);
    PaddedClean(e.value);
    NewGapOk(tail, T);
    TitleNames(e.title, "Artifact ID");
    LowerId();
  }

  lemma LowerId()
    ensures Lower("Artifact ID") == "artifact id"
  {
    hide Lower;
    var a, b := "Artifact ID", "artifact id";
    LowerAt(a);
    assert forall i :: 0 <= i < |a| ==> LowerChar(a[i]) == b[i];
  }

  lemma SplicedOk(rows: seq<Row>, e: nat, es: seq<Entry>, T: set<LabelPattern>)
    requires e < |rows| && RowsOk(rows, T) && TitlesOk(T) && forall i :: 0 <= i < |es| ==> EntryOk(es[i], T)
    ensures RowsOk(Spliced(rows, e, es), T)
  {
    hide RowOk, Untitled, Clean, LineEnd, AfterLine, Ended, NewRows, EntryOk;
    assert RowOk(rows[e], T);
    LastRowOk(rows[e], T);
    var tail := AfterLine(rows[e].gap);
    assert Untitled(tail, T) && Clean(rows[e].gap) by { RowParts(rows[e], T); }
    CleanEnded(rows[e].gap);
    NewRowsOk(es, tail, T);
    var a, n, c := rows[..e] + [rows[e].(gap := Ended(LineEnd(rows[e].gap)))], NewRows(es, tail), rows[e + 1..];
    JoinRowsOk(a, n, T);
    JoinRowsOk(a + n, c, T);
  }

  lemma RowParts(r: Row, T: set<LabelPattern>)
    requires RowOk(r, T)
    ensures Untitled(AfterLine(r.gap), T) && Clean(r.gap)
  {
  }

  lemma JoinRowsOk(a: seq<Row>, b: seq<Row>, T: set<LabelPattern>)
    requires RowsOk(a, T) && RowsOk(b, T) && (forall i :: 0 <= i < |a| ==> '\n' in a[i].gap)
    ensures RowsOk(a + b, T)
  {
    hide RowOk;
  }

  lemma SplicedKeepsBlock(rows: seq<Row>, e: nat, es: seq<Entry>, p: LabelPattern)
    requires e < |rows| && RawRow(rows, p).Some?
    ensures RawRow(Spliced(rows, e, es), p).Some?
  {
    hide RawRow, NewRows, AfterLine, Spliced;
    ReadSpliced(rows, e, es, p);
    RawCut(rows, e, p);
  }

  /** The result is again a well-formed document with its block. */
  lemma UpsertWellFormed(d: Doc, es: seq<Entry>, T: set<LabelPattern>)
    requires WellFormed(d, T) && HasBlock(d) && EntriesOk(es, T) && TitlesOk(T)
    ensures WellFormed(UpsertDoc(d, es), T) && HasBlock(UpsertDoc(d, es))
  {
    hide RawRow, RowOk, EntryOk, Clean, Names, Spliced, InsertRowsInto, WriteAllRows;
    WriteAllOk(d.rows, es, T);
    MissingIs(d.rows, es, T);
    BlockStays(d.rows, es);
    var (w, m) := WriteAllRows(d.rows, es);
    if m != [] {
      InsertsAtBlockEnd(w, m);
      SplicedOk(w, InsertAt(w), m, T);
      SplicedKeepsBlock(w, InsertAt(w), m, ArtifactId);
    }
  }
}
