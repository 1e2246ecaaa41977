/** The execution ledger as Markdown: what `save` prints and what `load` reads back.
    The clock and the file system are parameters: `save` is a function of the
    ledger and a timestamp, `load` a function of the file's text. */
module LedgerText {
  import opened Text
  import opened Regex
  import opened Sorting
  import opened LineEndings

  /** One phase of one item. `started` and `completed` never reach the file. */
  datatype ItemPhaseStatus = ItemPhaseStatus(
    itemId: string, phase: string, status: string,
    agentId: Option<string>, started: Option<string>, completed: Option<string>,
    outputPath: Option<string>, validation: Option<string>, iterations: int)

  datatype GroupGateResult = GroupGateResult(
    groupName: string, status: string, testsBefore: int, testsAfter: int, testsDelta: int,
    lintClean: bool, itemsCompleted: int, itemsTotal: int, gateFilePath: string)

  datatype Key = Key(item: string, phase: string)

  /** The two dictionaries of the ledger. Every entry is filed under its own key. */
  datatype Ledger = Ledger(phases: map<Key, ItemPhaseStatus>, gates: map<string, GroupGateResult>) {
    ghost predicate Keyed() {
      && (forall k :: k in phases ==> phases[k].itemId == k.item && phases[k].phase == k.phase)
      && (forall g :: g in gates ==> gates[g].groupName == g)
    }
  }

  const EMPTY := Ledger(map[], map[])

  const PHASES: seq<string> := ["tests", "plan", "code", "review"]

  const PHASE_TITLE := "## Item Phase Status"
  const GATE_TITLE := "## Group Gates"

  /** `| a | b | ... |` */
  function HeaderRow(cells: seq<string>): string {
    if cells == [] then "|" else "| " + (cells[0] + (" " + HeaderRow(cells[1..])))
  }

  function Dashes(n: nat): string { if n == 0 then "" else "-" + Dashes(n - 1) }

  /** `|---|---|...|` with the given column widths. */
  function RuleRow(widths: seq<nat>): string {
    if widths == [] then "|" else "|" + (Dashes(widths[0]) + RuleRow(widths[1..]))
  }

  const PHASE_COLUMNS: seq<string> := ["Item ID", "Phase", "Status", "Agent", "Validation", "Iterations", "Output"]
  const GATE_COLUMNS: seq<string> := ["Group", "Status", "Tests Before", "Tests After", "Delta", "Lint", "Items"]
  const PHASE_WIDTHS: seq<nat> := [9, 7, 8, 7, 12, 12, 8]
  const GATE_WIDTHS: seq<nat> := [7, 8, 13, 13, 7, 6, 7]

  // ---- save ----

  /** `value or "-"` */
  function Cell(v: Option<string>): string { if v.None? || v.value == "" then "-" else v.value }

  /** `value.replace("|", "\\|")` */
  function Escape(s: string): string {
    if s == "" then "" else (if s[0] == '|' then "\\|" else [s[0]]) + Escape(s[1..])
  }

  function PhaseLine(r: ItemPhaseStatus): string {
    "| " + (r.itemId + (" | " + (r.phase + (" | " + (r.status + (" | " + (Cell(r.agentId) + (" | " +
    (Escape(Cell(r.validation)) + (" | " + (IntText(r.iterations) + (" | " + (Cell(r.outputPath) + " |")))))))))))))
  }

  function LintText(clean: bool): string { if clean then "clean" else "DIRTY" }

  function GateLine(g: GroupGateResult): string {
    "| " + (g.groupName + (" | " + (g.status + (" | " + (IntText(g.testsBefore) + (" | " +
    (IntText(g.testsAfter) + (" | " + (IntText(g.testsDelta) + (" | " + (LintText(g.lintClean) + (" | " +
    (IntText(g.itemsCompleted) + ("/" + (IntText(g.itemsTotal) + " |")))))))))))))))
  }

  /** The rows of one item, in canonical phase order. */
  function ItemRows(m: map<Key, ItemPhaseStatus>, item: string, phases: seq<string>): seq<ItemPhaseStatus> {
    if phases == [] then []
    else
      (if Key(item, phases[0]) in m then [m[Key(item, phases[0])]] else []) + ItemRows(m, item, phases[1..])
  }

  function Rows(m: map<Key, ItemPhaseStatus>, items: seq<string>): seq<ItemPhaseStatus> {
    if items == [] then [] else ItemRows(m, items[0], PHASES) + Rows(m, items[1..])
  }

  function GateRows(m: map<string, GroupGateResult>, names: seq<string>): seq<GroupGateResult>
    requires forall n :: n in names ==> n in m
  {
    if names == [] then [] else [m[names[0]]] + GateRows(m, names[1..])
  }

  ghost function SavedRows(L: Ledger): seq<ItemPhaseStatus> {
    Rows(L.phases, Sorted(set k | k in L.phases :: k.item))
  }

  ghost function SavedGates(L: Ledger): seq<GroupGateResult> {
    SortedElements(L.gates.Keys);
    GateRows(L.gates, Sorted(L.gates.Keys))
  }

  function PhaseLines(rows: seq<ItemPhaseStatus>): seq<string> {
    if rows == [] then [] else [PhaseLine(rows[0])] + PhaseLines(rows[1..])
  }

  function GateLines(rows: seq<GroupGateResult>): seq<string> {
    if rows == [] then [] else [GateLine(rows[0])] + GateLines(rows[1..])
  }

  lemma {:induction false} PhaseLinesGrow(a: seq<ItemPhaseStatus>, b: seq<ItemPhaseStatus>)
    ensures PhaseLines(a + b) == PhaseLines(a) + PhaseLines(b)
  {
    if a == [] {
      assert a + b == b;
    } else {
      assert (a + b)[1..] == a[1..] + b;
      PhaseLinesGrow(a[1..], b);
    }
  }

  function Preamble(stamp: string): seq<string> {
    ["#" + " Execution Ledger", "", "Last updated: " + stamp, "", PHASE_TITLE, "", HeaderRow(PHASE_COLUMNS), RuleRow(PHASE_WIDTHS)]
  }

  const MIDDLE: seq<string> := ["", GATE_TITLE, "", HeaderRow(GATE_COLUMNS), RuleRow(GATE_WIDTHS)]

  function LedgerLines(rows: seq<ItemPhaseStatus>, gates: seq<GroupGateResult>, stamp: string): seq<string> {
    Preamble(stamp) + PhaseLines(rows) + MIDDLE + GateLines(gates)
  }

  /** The text that `save` writes at time `stamp`. */
  ghost function Save(L: Ledger, stamp: string): string {
    Unlines(LedgerLines(SavedRows(L), SavedGates(L), stamp))
  }

  // ---- load ----

  /** `\s*(k+)\s*\|` */
  function TokenCell(k: CharClass, rest: Pattern): Pattern {
    Then(Star(Space), Then(Plus(k), Then(Star(Space), Then(One(Lit('|')), rest))))
  }

  /** `\s*([^|]*)\|` */
  function FreeCell(rest: Pattern): Pattern {
    Then(Star(Space), Then(Star(NotPipe), Then(One(Lit('|')), rest)))
  }

  function PhasePattern(): Pattern {
    Then(One(Lit('|')), TokenCell(NonSpace, TokenCell(Word, TokenCell(Word,
      FreeCell(FreeCell(TokenCell(Digit, FreeCell(Done))))))))
  }

  /** `\s*([^|]+)\|` */
  function NameCell(rest: Pattern): Pattern {
    Then(Star(Space), Then(Plus(NotPipe), Then(One(Lit('|')), rest)))
  }

  /** `\s*(-?\d+)\s*\|` */
  function SignedCell(rest: Pattern): Pattern {
    Then(Star(Space), Then(Opt(Lit('-')), Then(Plus(Digit), Then(Star(Space), Then(One(Lit('|')), rest)))))
  }

  /** `\s*(\d+)/(\d+)\s*\|` */
  function RatioCell(rest: Pattern): Pattern {
    Then(Star(Space), Then(Plus(Digit), Then(One(Lit('/')), Then(Plus(Digit),
      Then(Star(Space), Then(One(Lit('|')), rest))))))
  }

  function GatePattern(): Pattern {
    Then(One(Lit('|')), NameCell(TokenCell(Word, TokenCell(Digit, TokenCell(Digit,
      SignedCell(TokenCell(Word, RatioCell(Done))))))))
  }

  function ReadCell(s: string): Option<string> { if s == "-" then None else Some(s) }

  /** `replace("\\|", "|")` */
  function Unescape(s: string): string {
    if |s| < 2 then s
    else if s[0] == '\\' && s[1] == '|' then "|" + Unescape(s[2..])
    else [s[0]] + Unescape(s[1..])
  }

  /** The parts after a `TokenCell`, after a `FreeCell` or `NameCell`. */
  function AfterToken(p: Parts): Parts { p.Next().Next().Next().Next() }
  function AfterFree(p: Parts): Parts { p.Next().Next().Next() }
  function AfterSigned(p: Parts): Parts { AfterToken(p.Next()) }

  /** What `load` makes of the groups of a matched phase row. */
  function ParsedPhase(parts: Parts): ItemPhaseStatus {
    var item := parts.Next();
    var phase := AfterToken(item);
    var status := AfterToken(phase);
    var agent := AfterToken(status);
    var validation := AfterFree(agent);
    var iterations := AfterFree(validation);
    var output := AfterToken(iterations);
    ItemPhaseStatus(
      Strip(item.Next().Text()), Strip(phase.Next().Text()), Strip(status.Next().Text()),
      ReadCell(Strip(agent.Next().Text())), None, None,
      ReadCell(Strip(output.Next().Text())), ReadCell(Unescape(Strip(validation.Next().Text()))),
      NatOf(iterations.Next().Text()))
  }

  function ParsedGate(parts: Parts): GroupGateResult {
    var name := parts.Next();
    var status := AfterFree(name);
    var before := AfterToken(status);
    var after := AfterToken(before);
    var delta := AfterToken(after);
    var lint := AfterSigned(delta);
    var items := AfterToken(lint);
    GroupGateResult(
      Strip(name.Next().Text()), Strip(status.Next().Text()),
      NatOf(before.Next().Text()), NatOf(after.Next().Text()),
      IntOf(delta.Next().Text(), delta.Next().Next().Text()), Strip(lint.Next().Text()) == "clean",
      NatOf(items.Next().Text()), NatOf(items.Next().Next().Next().Text()), "")
  }

  function ReadPhase(line: string): Option<ItemPhaseStatus> {
    var m := Match(PhasePattern(), line);
    if m.Matched? then Some(ParsedPhase(m.parts)) else None
  }

  function ReadGate(line: string): Option<GroupGateResult> {
    var m := Match(GatePattern(), line);
    if m.Matched? then Some(ParsedGate(m.parts)) else None
  }

  /** Rows that `load` passes over as headings. */
  predicate Heading(stripped: string) {
    StartsWith(stripped, "|---") || StartsWith(stripped, "| Item ID") || StartsWith(stripped, "| Group")
  }

  /** What a line is to the loader: a section title, a row as each table would read it, or neither. */
  datatype Token = PhaseSection | GateSection | Ignored | Row(phase: Option<ItemPhaseStatus>, gate: Option<GroupGateResult>)

  function ScanRow(stripped: string): Token {
    if Heading(stripped) || !StartsWith(stripped, "|") then Ignored
    else Row(ReadPhase(stripped), ReadGate(stripped))
  }

  function Scan(line: string): Token {
    if Contains(line, PHASE_TITLE) then PhaseSection
    else if Contains(line, GATE_TITLE) then GateSection
    else ScanRow(Strip(line))
  }

  function ScanAll(lines: seq<string>): (ts: seq<Token>)
    ensures |ts| == |lines| && forall i :: 0 <= i < |lines| ==> ts[i] == Scan(lines[i])
  {
    if lines == [] then [] else [Scan(lines[0])] + ScanAll(lines[1..])
  }

  datatype Table = NoTable | PhaseTable | GateTable

  datatype Reader = Reader(ledger: Ledger, table: Table)

  function AddPhase(L: Ledger, r: Option<ItemPhaseStatus>): Ledger {
    if r.None? then L else L.(phases := L.phases[Key(r.value.itemId, r.value.phase) := r.value])
  }

  function AddGate(L: Ledger, g: Option<GroupGateResult>): Ledger {
    if g.None? then L else L.(gates := L.gates[g.value.groupName := g.value])
  }

  /** One iteration of the loop in `load`. */
  function Step(r: Reader, t: Token): Reader {
    match t
    case PhaseSection => r.(table := PhaseTable)
    case GateSection => r.(table := GateTable)
    case Ignored => r
    case Row(phase, gate) =>
      match r.table
      case NoTable => r
      case PhaseTable => r.(ledger := AddPhase(r.ledger, phase))
      case GateTable => r.(ledger := AddGate(r.ledger, gate))
  }

  function ReadTokens(r: Reader, ts: seq<Token>): Reader
    decreases |ts|
  {
    if ts == [] then r else ReadTokens(Step(r, ts[0]), ts[1..])
  }

  /** The ledger that `load` builds from a file's text, line endings folded as `read_text` does. */
  function Load(text: string): Ledger {
    ReadTokens(Reader(EMPTY, NoTable), ScanAll(Split(Universal(text), '\n'))).ledger
  }
}
