/** Document Control tables as text: the searches, the single-cell write and the row insertion of
    `upsert_document_control_rows`, on any text whatever. A text is read as the cells between its bars. */
module ControlText {
  import opened Text
  import opened Template

  // ---- cells ----

  function Cells(text: string): (cs: seq<string>)
    ensures |cs| >= 1
  {
    Split(text, '|')
  }

  /** `"|".join(cells)` */
  function Join(cells: seq<string>): string
    requires |cells| >= 1
  {
    if |cells| == 1 then cells[0] else cells[0] + ("|" + Join(cells[1..]))
  }

  /** How a search names a row: an escaped label, or the pattern `Artifact\s+ID`. */
  datatype LabelPattern = Exact(title: string) | ArtifactId

  predicate NamesId(core: string) {
    && |core| > 10 && Lower(core[..8]) == "artifact" && Lower(core[|core| - 2..]) == "id"
    && AllSpace(core[8..|core| - 2])
  }

  predicate Names(cell: string, p: LabelPattern) {
    match p
    case Exact(title) => Lower(Strip(cell)) == Lower(title)
    case ArtifactId => NamesId(Strip(cell))
  }

  /** First cell that `\|\s*<label>\s*\|\s*(.*?)\s*\|` takes for its label: it has a bar on each side, and
      so does the next cell, which is one line. */
  function FindFrom(cells: seq<string>, p: LabelPattern, j: nat): (r: nat)
    requires 1 <= j
    ensures j <= r
    decreases |cells| - j
  {
    if j + 2 >= |cells| then |cells| + j
    else if Names(cells[j], p) && '\n' !in Strip(cells[j + 1]) then j
    else FindFrom(cells, p, j + 1)
  }

  predicate Found(cells: seq<string>, p: LabelPattern) { FindFrom(cells, p, 1) < |cells| }

  lemma {:induction false} FindIs(cells: seq<string>, p: LabelPattern, j: nat)
    requires 1 <= j
    ensures var r := FindFrom(cells, p, j);
            && (r < |cells| ==> r + 2 < |cells| && Names(cells[r], p) && '\n' !in Strip(cells[r + 1]))
            && (forall i :: j <= i < r && i + 2 < |cells| ==> !(Names(cells[i], p) && '\n' !in Strip(cells[i + 1])))
    decreases |cells| - j
  {
    hide Names, Strip;
    if j + 2 < |cells| && !(Names(cells[j], p) && '\n' !in Strip(cells[j + 1])) {
      FindIs(cells, p, j + 1);
    }
  }

  /** The value that a search reads, trimmed. */
  function ReadCell(text: string, p: LabelPattern): Option<string> {
    var cells := Cells(text);
    FindIs(cells, p, 1);
    if Found(cells, p) then Some(Strip(cells[FindFrom(cells, p, 1) + 1])) else None
  }

  /** `re.sub(..., rf"\1 {value} |", count=1)` on any value: the template filled in at the first match;
      `None` where it does not compile. */
  function WriteRow(text: string, p: LabelPattern, value: string): Option<string> {
    var parts := ParseTemplate(RowTemplate(value));
    if parts.None? then None else
      var cells := Cells(text);
      FindIs(cells, p, 1);
      if !Found(cells, p) then Some(text) else
        var r := FindFrom(cells, p, 1);
        var label' := "|" + (cells[r] + "|");
        Some(Join(cells[..r]) + Fill(parts.value, label' + (cells[r + 1] + "|"), label') + Join(cells[r + 2..]))
  }

  /** The same for a value that stands for itself; the text is unchanged when nothing matches. */
  function WriteCell(text: string, p: LabelPattern, value: string): string {
    var cells := Cells(text);
    FindIs(cells, p, 1);
    if Found(cells, p) then Join(cells[FindFrom(cells, p, 1) + 1 := " " + value + " "]) else text
  }

  /** `re.search(r"\|\s*Artifact\s+ID\s*\|", text)`: the label alone. */
  predicate HasIdFrom(cells: seq<string>, j: nat)
    requires 1 <= j
    decreases |cells| - j
  {
    j + 1 < |cells| && (Names(cells[j], ArtifactId) || HasIdFrom(cells, j + 1))
  }

  predicate HasId(text: string) { HasIdFrom(Cells(text), 1) }

  // ---- lines ----

  /** Line boundaries of `str.splitlines` other than `\n`. */
  predicate IsExoticBreak(c: char) {
    || c == '\r' || c == '\U{0b}' || c == '\U{0c}' || c == '\U{1c}' || c == '\U{1d}' || c == '\U{1e}'
    || c == '\U{85}' || c == '\U{2028}' || c == '\U{2029}'
  }

  /** `str.splitlines(keepends=True)` */
  function SplitLines(s: string): seq<string> {
    if s == "" then []
    else if s[0] == '\r' && |s| > 1 && s[1] == '\n' then ["\r\n"] + SplitLines(s[2..])
    else if s[0] == '\n' || IsExoticBreak(s[0]) then [[s[0]]] + SplitLines(s[1..])
    else
      var r := SplitLines(s[1..]);
      if r == [] then [[s[0]]] else [[s[0]] + r[0]] + r[1..]
  }

  function JoinLines(lines: seq<string>): string { if lines == [] then "" else lines[0] + JoinLines(lines[1..]) }

  lemma {:induction false} SplitLinesJoin(s: string)
    ensures JoinLines(SplitLines(s)) == s
    decreases |s|
  {
    if s != "" {
      if s[0] == '\r' && |s| > 1 && s[1] == '\n' {
        SplitLinesJoin(s[2..]);
        assert s == "\r\n" + s[2..];
      } else {
        SplitLinesJoin(s[1..]);
        assert s == [s[0]] + s[1..];
        var r := SplitLines(s[1..]);
        if s[0] != '\n' && !IsExoticBreak(s[0]) && r != [] {
          assert JoinLines(r) == r[0] + JoinLines(r[1..]);
          assert [s[0]] + (r[0] + JoinLines(r[1..])) == ([s[0]] + r[0]) + JoinLines(r[1..]);
        }
      }
    }
  }

  /** `line.lstrip().startswith("|")` */
  predicate TableLine(line: string) { StartsWith(StripLeft(line), "|") }

  predicate EndsWithNewline(line: string) { line != "" && line[|line| - 1] == '\n' }

  function Ended(line: string): string { if EndsWithNewline(line) then line else line + "\n" }

  /** From the anchor line on: past the table lines that follow it, then the new lines. */
  function InsertAfterBlock(line: string, rest: seq<string>, added: seq<string>): seq<string>
    decreases |rest|
  {
    if rest != [] && TableLine(rest[0]) then [line] + InsertAfterBlock(rest[0], rest[1..], added)
    else [Ended(line)] + added + rest
  }

  /** `None` where the source's `next` finds no line and raises. */
  function InsertLines(lines: seq<string>, added: seq<string>): Option<seq<string>>
    decreases |lines|
  {
    if lines == [] then None
    else if HasId(lines[0]) then Some(InsertAfterBlock(lines[0], lines[1..], added))
    else
      var r := InsertLines(lines[1..], added);
      if r.Some? then Some([lines[0]] + r.value) else None
  }

  /** A label and the value it should have. */
  datatype Entry = Entry(title: string, value: string)

  function RowLine(e: Entry): string { "| " + e.title + " | " + e.value + " |\n" }

  function RowLines(es: seq<Entry>): seq<string> { if es == [] then [] else [RowLine(es[0])] + RowLines(es[1..]) }

  // ---- upsert ----

  datatype Upserted = Updated(text: string) | NoBlock | NoAnchorLine
    | BadTemplate // a value for a row that is there is no template

  /** Write the rows that are there, collect those that are not; `None` where a write raises. */
  function WriteAll(text: string, es: seq<Entry>): Option<(string, seq<Entry>)>
    decreases |es|
  {
    if es == [] then Some((text, []))
    else if ReadCell(text, Exact(es[0].title)).Some? then
      var next := WriteRow(text, Exact(es[0].title), es[0].value);
      if next.None? then None else WriteAll(next.value, es[1..])
    else After([es[0]], WriteAll(text, es[1..]))
  }

  function After(missing: seq<Entry>, r: Option<(string, seq<Entry>)>): Option<(string, seq<Entry>)> {
    if r.None? then None else Some((r.value.0, missing + r.value.1))
  }

  function Upsert(text: string, es: seq<Entry>): Upserted {
    if !HasId(text) then NoBlock
    else
      var r := WriteAll(text, es);
      if r.None? then BadTemplate
      else
        var (written, missing) := r.value;
        if missing == [] then Updated(written)
        else
          match InsertLines(SplitLines(written), RowLines(missing))
          case None => NoAnchorLine
          case Some(lines) => Updated(JoinLines(lines))
  }

  lemma RaisesIsNoTemplate(text: string, p: LabelPattern, value: string)
    ensures WriteRow(text, p, value).None? <==> !IsTemplate(value)
  {
    hide Cells, FindFrom, ParseTemplate, Fill, Join, RowTemplate;
  }

  /** The first `k` entries go through, and the row of the next one is then there to be written with no template. */
  predicate StopsAt(text: string, es: seq<Entry>, k: nat) {
    k < |es| && WriteAll(text, es[..k]).Some?
    && ReadCell(WriteAll(text, es[..k]).value.0, Exact(es[k].title)).Some? && !IsTemplate(es[k].value)
  }

  /** One entry more. */
  lemma {:induction false} WriteAllLast(text: string, es: seq<Entry>, e: Entry)
    ensures var r := WriteAll(text, es);
            WriteAll(text, es + [e]) == if r.None? then None else After(r.value.1, WriteAll(r.value.0, [e]))
    decreases |es|
  {
    hide ReadCell, WriteRow;
    if es == [] {
      assert es + [e] == [e];
      var r := WriteAll(text, [e]);
      if r.Some? { assert [] + r.value.1 == r.value.1; }
    } else {
      assert (es + [e])[1..] == es[1..] + [e];
      var next := WriteRow(text, Exact(es[0].title), es[0].value);
      if ReadCell(text, Exact(es[0].title)).None? {
        WriteAllLast(text, es[1..], e);
        if WriteAll(text, es[1..]).Some? { AfterTwice([es[0]], WriteAll(text, es[1..]), e); }
      } else if next.Some? {
        WriteAllLast(next.value, es[1..], e);
      }
    }
  }

  lemma AfterTwice(a: seq<Entry>, r: Option<(string, seq<Entry>)>, e: Entry)
    requires r.Some?
    ensures After(a, After(r.value.1, WriteAll(r.value.0, [e]))) == After(a + r.value.1, WriteAll(r.value.0, [e]))
  {
    hide WriteAll;
    var s := WriteAll(r.value.0, [e]);
    if s.Some? { assert a + (r.value.1 + s.value.1) == (a + r.value.1) + s.value.1; }
  }

  lemma LastRaises(text: string, e: Entry)
    ensures WriteAll(text, [e]).None? <==> ReadCell(text, Exact(e.title)).Some? && !IsTemplate(e.value)
  {
    hide ReadCell, WriteRow, IsTemplate;
    RaisesIsNoTemplate(text, Exact(e.title), e.value);
    assert [e][1..] == [];
  }

  /** Writing the rows raises exactly when it comes to a row that is there and whose value is no template. */
  lemma {:induction false} WriteAllRaisesIff(text: string, es: seq<Entry>)
    ensures WriteAll(text, es).None? <==> exists k: nat :: StopsAt(text, es, k)
    decreases |es|
  {
    hide ReadCell, WriteAll, IsTemplate;
    if es == [] {
      NothingRaises(text);
      assert forall k: nat :: !StopsAt(text, es, k);
    } else {
      var front, e := es[..|es| - 1], es[|es| - 1];
      assert es == front + [e];
      WriteAllRaisesIff(text, front);
      WriteAllLast(text, front, e);
      assert forall k: nat :: k < |front| ==> front[..k] == es[..k] && front[k] == es[k];
      forall k: nat | StopsAt(text, es, k) ensures WriteAll(text, es).None? {
        if k < |front| { assert StopsAt(text, front, k); } else { LastRaises(WriteAll(text, front).value.0, e); }
      }
      if WriteAll(text, es).None? {
        if WriteAll(text, front).None? {
          var k: nat :| StopsAt(text, front, k);
          assert StopsAt(text, es, k);
        } else {
          LastRaises(WriteAll(text, front).value.0, e);
          assert StopsAt(text, es, |front|);
        }
      }
    }
  }

  lemma NothingRaises(text: string)
    ensures WriteAll(text, []).Some?
  {
  }

  /** On any text and for any values the upsert raises on a template exactly when there is a block and, of
      the entries in their order, one comes up whose row is there by then and whose value is no template. */
  lemma UpsertRaisesIff(text: string, es: seq<Entry>)
    ensures Upsert(text, es).BadTemplate? <==> HasId(text) && exists k: nat :: StopsAt(text, es, k)
  {
    hide HasId, WriteAll, InsertLines, SplitLines, JoinLines, RowLines, StopsAt;
    WriteAllRaisesIff(text, es);
  }

  /** The loop's state: the text so far, the rows found missing so far, the entries still to do. */
  function Pending(current: string, missing: seq<Entry>, rest: seq<Entry>): Option<(string, seq<Entry>)> {
    After(missing, WriteAll(current, rest))
  }

  lemma PendingStart(text: string, rows: seq<Entry>)
    ensures Pending(text, [], rows[0..]) == WriteAll(text, rows)
  {
    hide WriteAll;
    assert rows[0..] == rows;
    var r := WriteAll(text, rows);
    if r.Some? { assert [] + r.value.1 == r.value.1; }
  }

  lemma PendingStep(current: string, missing: seq<Entry>, rows: seq<Entry>, i: nat)
    requires i < |rows|
    ensures var p := Exact(rows[i].title); var next := WriteRow(current, p, rows[i].value);
            Pending(current, missing, rows[i..]) ==
              if ReadCell(current, p).None? then Pending(current, missing + [rows[i]], rows[i + 1..])
              else if next.None? then None
              else Pending(next.value, missing, rows[i + 1..])
  {
    hide ReadCell, WriteRow;
    assert rows[i..][0] == rows[i] && rows[i..][1..] == rows[i + 1..];
    var later := WriteAll(current, rows[i + 1..]);
    if later.Some? { assert missing + ([rows[i]] + later.value.1) == (missing + [rows[i]]) + later.value.1; }
  }

  lemma PendingEnd(current: string, missing: seq<Entry>, rows: seq<Entry>)
    ensures Pending(current, missing, rows[|rows|..]) == Some((current, missing))
  {
    assert rows[|rows|..] == [] && missing + [] == missing;
  }

  /** `upsert_document_control_rows`, loop by loop. */
  method UpsertDocumentControlRows(text: string, rows: seq<Entry>) returns (r: Upserted)
    ensures r == Upsert(text, rows)
  {
    hide ReadCell, WriteRow, SplitLines, InsertLines, HasId, WriteAll, Pending, JoinLines;
    if !HasId(text) {
      return NoBlock;
    }
    var current, missing := text, [];
    PendingStart(text, rows);
    for i := 0 to |rows|
      invariant WriteAll(text, rows) == Pending(current, missing, rows[i..])
    {
      PendingStep(current, missing, rows, i);
      var p := Exact(rows[i].title);
      if ReadCell(current, p).Some? {
        var next := WriteRow(current, p, rows[i].value);
        if next.None? {
          return BadTemplate;
        }
        current := next.value;
      } else {
        missing := missing + [rows[i]];
      }
    }
    PendingEnd(current, missing, rows);
    if missing == [] {
      return Updated(current);
    }
    var lines := InsertRows(SplitLines(current), missing);
    if lines.None? {
      return NoAnchorLine;
    }
    return Updated(JoinLines(lines.value));
  }

  method InsertRows(lines: seq<string>, missing: seq<Entry>) returns (r: Option<seq<string>>)
    ensures r == InsertLines(lines, RowLines(missing))
  {
    hide HasId, TableLine, RowLines, InsertAfterBlock;
    var added := RowLines(missing);
    var anchor := 0;
    InsertStart(lines, added);
    while anchor < |lines| && !HasId(lines[anchor])
      invariant 0 <= anchor <= |lines|
      invariant InsertLines(lines, added) == Prefixed(lines[..anchor], InsertLines(lines[anchor..], added))
    {
      StepPast(lines, anchor, added);
      anchor := anchor + 1;
    }
    if anchor == |lines| {
      return None;
    }
    assert lines[anchor..][0] == lines[anchor] && lines[anchor..][1..] == lines[anchor + 1..];
    var spliced := SpliceRows(lines, anchor, added);
    r := Some(spliced);
  }

  lemma InsertStart(lines: seq<string>, added: seq<string>)
    ensures InsertLines(lines, added) == Prefixed(lines[..0], InsertLines(lines[0..], added))
  {
    hide HasId, InsertAfterBlock;
    assert lines[0..] == lines && lines[..0] == [];
    var r := InsertLines(lines, added);
    if r.Some? { assert [] + r.value == r.value; }
  }

  /** The table lines after the anchor are passed over, then the new lines spliced in. */
  method SpliceRows(lines: seq<string>, anchor: nat, added: seq<string>) returns (r: seq<string>)
    requires anchor < |lines|
    ensures r == lines[..anchor] + InsertAfterBlock(lines[anchor], lines[anchor + 1..], added)
  {
    hide TableLine, InsertAfterBlock;
    var end := anchor;
    while end + 1 < |lines| && TableLine(lines[end + 1])
      invariant anchor <= end < |lines|
      invariant lines[..anchor] + InsertAfterBlock(lines[anchor], lines[anchor + 1..], added)
             == lines[..end] + InsertAfterBlock(lines[end], lines[end + 1..], added)
    {
      BlockStep(lines, end, added);
      end := end + 1;
    }
    BlockEnd(lines, end, added);
    r := lines[..end] + [Ended(lines[end])] + added + lines[end + 1..];
  }

  lemma BlockStep(lines: seq<string>, end: nat, added: seq<string>)
    requires end + 1 < |lines| && TableLine(lines[end + 1])
    ensures lines[..end] + InsertAfterBlock(lines[end], lines[end + 1..], added)
         == lines[..end + 1] + InsertAfterBlock(lines[end + 1], lines[end + 2..], added)
  {
    hide TableLine;
    assert lines[end + 1..][0] == lines[end + 1] && lines[end + 1..][1..] == lines[end + 2..];
    assert lines[..end + 1] == lines[..end] + [lines[end]];
  }

  lemma BlockEnd(lines: seq<string>, end: nat, added: seq<string>)
    requires end < |lines| && (end + 1 < |lines| ==> !TableLine(lines[end + 1]))
    ensures lines[..end] + InsertAfterBlock(lines[end], lines[end + 1..], added)
         == lines[..end] + [Ended(lines[end])] + added + lines[end + 1..]
  {
    hide TableLine;
    if end + 1 < |lines| { assert lines[end + 1..][0] == lines[end + 1]; }
    var rest := lines[end + 1..];
    assert lines[..end] + ([Ended(lines[end])] + added + rest) == lines[..end] + [Ended(lines[end])] + added + rest;
  }

  function Prefixed(front: seq<string>, r: Option<seq<string>>): Option<seq<string>> {
    if r.Some? then Some(front + r.value) else None
  }

  lemma StepPast(lines: seq<string>, i: nat, added: seq<string>)
    requires i < |lines| && !HasId(lines[i])
    ensures Prefixed(lines[..i], InsertLines(lines[i..], added)) == Prefixed(lines[..i + 1], InsertLines(lines[i + 1..], added))
  {
    hide HasId, TableLine;
    assert lines[i..][0] == lines[i] && lines[i..][1..] == lines[i + 1..];
    var r := InsertLines(lines[i + 1..], added);
    if r.Some? {
      assert lines[..i] + ([lines[i]] + r.value) == lines[..i + 1] + r.value;
    }
  }
}
