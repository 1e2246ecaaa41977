/** The engagement record's state block as rows: seven of them read into a state and written back. */
module ErState {
  import opened Text
  import opened ControlText
  import opened ControlCells
  import opened ControlDoc
  import opened DocumentControl

  datatype State = State(layer: string, artifact: string, step: string, frozenCount: int,
                         nextAction: string, blockingOn: string, lastUpdated: string)

  const FIELDS: seq<string> :=
    ["Current Layer", "Current Artifact", "Current Step", "Frozen Count", "Next Action", "Blocking On", "Last Updated"]

  /** Digits, with single underscores between them. */
  predicate DigitGroups(s: string) {
    && s != "" && IsDigit(s[0]) && IsDigit(s[|s| - 1])
    && (forall i :: 0 <= i < |s| ==> IsDigit(s[i]) || (s[i] == '_' && i > 0 && IsDigit(s[i - 1])))
  }

  function WithoutMarks(s: string): string {
    if s == "" then "" else (if s[0] == '_' then "" else [s[0]]) + WithoutMarks(s[1..])
  }

  /** Python's `int` on ASCII text; `None` where it raises. */
  function ParseInt(s: string): Option<int> {
    var t := Strip(s);
    var signed := t != "" && (t[0] == '-' || t[0] == '+');
    var digits := if signed then t[1..] else t;
    if DigitGroups(digits) then Some(IntOf(if signed then [t[0]] else "", WithoutMarks(digits))) else None
  }

  lemma {:induction false} DigitsOnly(s: string)
    requires forall c :: c in s ==> IsDigit(c)
    ensures WithoutMarks(s) == s && (s != "" ==> DigitGroups(s))
  {
    if s != "" {
      assert s[0] in s && s[|s| - 1] in s && s == [s[0]] + s[1..];
      DigitsOnly(s[1..]);
    }
  }

  lemma IntReads(n: int)
    ensures ParseInt(IntText(n)) == Some(n) && IntText(n) != "" && Trimmed(IntText(n))
  {
    hide NatText, NatOf, Strip, DigitGroups, WithoutMarks;
    var m := if n < 0 then -n else n;
    NatTextDigits(m);
    DigitsOnly(NatText(m));
    NatRoundTrip(m);
    SignedIsTrimmed(n < 0, NatText(m));
    StripIdentity(IntText(n));
  }

  lemma SignedIsTrimmed(negative: bool, digits: string)
    requires digits != "" && forall c :: c in digits ==> IsDigit(c)
    ensures Trimmed(if negative then "-" + digits else digits)
    ensures !IsSpace('-') && digits[0] != '-' && digits[0] != '+' && ("-" + digits)[1..] == digits
  {
    assert digits[0] in digits && digits[|digits| - 1] in digits;
  }

  // ---- one field ----

  /** The trimmed value of a field, or the empty text. */
  function Extract(rows: seq<Row>, field: string): string {
    var r := RawRow(rows, Exact(field));
    if r.Some? then Strip(r.value) else ""
  }

  /** `re.sub` without a count: every row with the title. */
  function SetEvery(rows: seq<Row>, field: string, v: string): seq<Row> {
    if rows == [] then []
    else [if Names(rows[0].title, Exact(field)) then rows[0].(value := Cell(v)) else rows[0]] + SetEvery(rows[1..], field, v)
  }

  lemma {:induction false} SetEveryReads(rows: seq<Row>, field: string, v: string, other: string)
    ensures RawRow(SetEvery(rows, field, v), Exact(other)) ==
              if Lower(field) == Lower(other) && RawRow(rows, Exact(field)).Some? then Some(Cell(v)) else RawRow(rows, Exact(other))
  {
    if rows != [] {
      SetEveryReads(rows[1..], field, v, other);
      assert SetEvery(rows, field, v)[1..] == SetEvery(rows[1..], field, v);
    }
  }

  // ---- the block ----

  function Values(s: State): seq<string> {
    [s.layer, s.artifact, s.step, IntText(s.frozenCount), s.nextAction, s.blockingOn, s.lastUpdated]
  }

  function WriteFields(rows: seq<Row>, values: seq<string>, i: nat): seq<Row>
    requires |values| == |FIELDS| && i <= |FIELDS|
  {
    if i == 0 then rows else SetEvery(WriteFields(rows, values, i - 1), FIELDS[i - 1], values[i - 1])
  }

  /** What `write_er_state_block` does to the rows. */
  function WriteState(d: Doc, s: State): Doc { d.(rows := WriteFields(d.rows, Values(s), |FIELDS|)) }

  /** What `read_er_state_block` reads from the rows; `None` where the count is no number. */
  function ReadState(d: Doc): Option<State> {
    var count := Extract(d.rows, "Frozen Count");
    var n := ParseInt(if count == "" then "0" else count);
    if n.None? then None else
      Some(State(Extract(d.rows, "Current Layer"), Extract(d.rows, "Current Artifact"), Extract(d.rows, "Current Step"), n.value,
                 Extract(d.rows, "Next Action"), Extract(d.rows, "Blocking On"), Extract(d.rows, "Last Updated")))
  }

  predicate AllRows(d: Doc) { forall i :: 0 <= i < |FIELDS| ==> RawRow(d.rows, Exact(FIELDS[i])).Some? }

  predicate TextsTrimmed(s: State) {
    && Trimmed(s.layer) && Trimmed(s.artifact) && Trimmed(s.step)
    && Trimmed(s.nextAction) && Trimmed(s.blockingOn) && Trimmed(s.lastUpdated)
  }

  lemma FieldsDiffer(i: nat, j: nat)
    requires i < j < |FIELDS|
    ensures Lower(FIELDS[i]) != Lower(FIELDS[j])
  {
    hide Lower;
    LowerAt(FIELDS[i]);
    LowerAt(FIELDS[j]);
    FieldLengths();
  }

  /** The titles differ in length or in their first letter. */
  lemma FieldLengths()
    ensures |FIELDS[0]| == 13 && |FIELDS[1]| == 16 && |FIELDS[2]| == 12 && |FIELDS[3]| == 12
    ensures |FIELDS[4]| == 11 && |FIELDS[5]| == 11 && |FIELDS[6]| == 12
    ensures LowerChar(FIELDS[2][0]) == 'c' && LowerChar(FIELDS[3][0]) == 'f' && LowerChar(FIELDS[6][0]) == 'l'
    ensures LowerChar(FIELDS[4][0]) == 'n' && LowerChar(FIELDS[5][0]) == 'b'
  {
  }

  lemma {:induction false} FieldsWritten(rows: seq<Row>, values: seq<string>, n: nat, i: nat)
    requires |values| == |FIELDS| && n <= |FIELDS| && i < |FIELDS|
    ensures RawRow(WriteFields(rows, values, n), Exact(FIELDS[i])) ==
              if i < n && RawRow(rows, Exact(FIELDS[i])).Some? then Some(Cell(values[i])) else RawRow(rows, Exact(FIELDS[i]))
    decreases n
  {
    hide RawRow, SetEvery, Lower;
    if n > 0 {
      FieldsWritten(rows, values, n - 1, i);
      FieldsWritten(rows, values, n - 1, n - 1);
      SetEveryReads(WriteFields(rows, values, n - 1), FIELDS[n - 1], values[n - 1], FIELDS[i]);
      if i < n - 1 { FieldsDiffer(i, n - 1); }
      if i > n - 1 { FieldsDiffer(n - 1, i); }
    }
  }

  lemma WrittenValue(d: Doc, s: State, i: nat)
    requires AllRows(d) && i < |FIELDS| && Trimmed(Values(s)[i])
    ensures Extract(WriteState(d, s).rows, FIELDS[i]) == Values(s)[i]
  {
    hide RawRow, WriteFields;
    FieldsWritten(d.rows, Values(s), |FIELDS|, i);
    StripPadded(" ", Values(s)[i], " ");
  }

  /** When all seven rows exist, a state that is written is the state that is read. */
  lemma WriteThenReadState(d: Doc, s: State)
    requires AllRows(d) && TextsTrimmed(s)
    ensures ReadState(WriteState(d, s)) == Some(s)
  {
    hide Extract, WriteState, IntText, ParseInt, Trimmed, AllRows;
    IntReads(s.frozenCount);
    WrittenValue(d, s, 0); WrittenValue(d, s, 1); WrittenValue(d, s, 2); WrittenValue(d, s, 3);
    WrittenValue(d, s, 4); WrittenValue(d, s, 5); WrittenValue(d, s, 6);
  }

  /** Each of the seven rows gets its own field. */
  lemma WrittenCells(d: Doc, s: State)
    requires AllRows(d)
    ensures var rows := WriteState(d, s).rows;
            && RawRow(rows, Exact("Current Layer")) == Some(Cell(s.layer)) && RawRow(rows, Exact("Current Artifact")) == Some(Cell(s.artifact))
            && RawRow(rows, Exact("Current Step")) == Some(Cell(s.step)) && RawRow(rows, Exact("Frozen Count")) == Some(Cell(IntText(s.frozenCount)))
            && RawRow(rows, Exact("Next Action")) == Some(Cell(s.nextAction)) && RawRow(rows, Exact("Blocking On")) == Some(Cell(s.blockingOn))
            && RawRow(rows, Exact("Last Updated")) == Some(Cell(s.lastUpdated))
  {
    hide RawRow, WriteFields, IntText;
    var values := Values(s);
    FieldsWritten(d.rows, values, 7, 0); FieldsWritten(d.rows, values, 7, 1); FieldsWritten(d.rows, values, 7, 2);
    FieldsWritten(d.rows, values, 7, 3); FieldsWritten(d.rows, values, 7, 4); FieldsWritten(d.rows, values, 7, 5);
    FieldsWritten(d.rows, values, 7, 6);
    assert FIELDS[0] == "Current Layer" && FIELDS[1] == "Current Artifact" && FIELDS[2] == "Current Step" && FIELDS[3] == "Frozen Count";
    assert FIELDS[4] == "Next Action" && FIELDS[5] == "Blocking On" && FIELDS[6] == "Last Updated";
  }

  /** A write keeps the seven rows. */
  lemma WriteKeepsRows(d: Doc, s: State)
    requires AllRows(d)
    ensures AllRows(WriteState(d, s))
  {
    hide RawRow, WriteFields;
    forall i | 0 <= i < |FIELDS| ensures RawRow(WriteState(d, s).rows, Exact(FIELDS[i])).Some? {
      FieldsWritten(d.rows, Values(s), |FIELDS|, i);
    }
  }

  lemma FieldCount(s: State)
    ensures |Values(s)| == |FIELDS|
  {
  }
}
