/** The two tables cell by cell: what a row is written as, and what a row with given cells loads as. */
module LedgerFormat {
  import opened Text
  import opened LedgerText
  import opened LedgerRoundTrip

  lemma SevenCells(a: string, b: string, c: string, d: string, e: string, f: string, g: string)
    ensures HeaderRow([a, b, c, d, e, f, g])
         == "| " + (a + (" | " + (b + (" | " + (c + (" | " + (d + (" | " + (e + (" | " + (f + (" | " + (g + " |")))))))))))))
  {
    hide HeaderRow;
    LastCell(g);
    var t := g + " |";
    NextCell(f, [g], t);
    t := f + (" | " + t);
    assert [f] + [g] == [f, g];
    NextCell(e, [f, g], t);
    t := e + (" | " + t);
    assert [e] + [f, g] == [e, f, g];
    NextCell(d, [e, f, g], t);
    t := d + (" | " + t);
    assert [d] + [e, f, g] == [d, e, f, g];
    NextCell(c, [d, e, f, g], t);
    t := c + (" | " + t);
    assert [c] + [d, e, f, g] == [c, d, e, f, g];
    NextCell(b, [c, d, e, f, g], t);
    t := b + (" | " + t);
    assert [b] + [c, d, e, f, g] == [b, c, d, e, f, g];
    NextCell(a, [b, c, d, e, f, g], t);
    assert [a] + [b, c, d, e, f, g] == [a, b, c, d, e, f, g];
  }

  lemma NextCell(a: string, rest: seq<string>, t: string)
    requires HeaderRow(rest) == "| " + t
    ensures HeaderRow([a] + rest) == "| " + (a + (" | " + t))
  {
    assert ([a] + rest)[1..] == rest;
    assert " " + ("| " + t) == " | " + t;
  }

  lemma LastCell(a: string)
    ensures HeaderRow([a]) == "| " + (a + " |")
  {
    assert [a][1..] == [];
    assert HeaderRow([a]) == "| " + (a + (" " + HeaderRow([])));
  }

  function Or(cell: Option<string>, blank: string): string { if cell.Some? && cell.value != "" then cell.value else blank }

  /** The cells of a phase row, in the order of the columns; a pipe in the validation cell is escaped. */
  lemma PhaseCells(r: ItemPhaseStatus)
    ensures PHASE_COLUMNS == ["Item ID", "Phase", "Status", "Agent", "Validation", "Iterations", "Output"]
    ensures PhaseLine(r) == HeaderRow([r.itemId, r.phase, r.status, Or(r.agentId, "-"), Escape(Or(r.validation, "-")),
                                       IntText(r.iterations), Or(r.outputPath, "-")])
  {
    hide HeaderRow, Escape, IntText;
    SevenCells(r.itemId, r.phase, r.status, Or(r.agentId, "-"), Escape(Or(r.validation, "-")), IntText(r.iterations), Or(r.outputPath, "-"));
  }

  function TextOf(cell: string): Option<string> { if cell == "-" then None else Some(cell) }

  /** What a phase row with given cells loads as: a dash is a missing value. */
  lemma PhaseRowLoads(id: string, phase: string, status: string, agent: string, validation: string, n: nat, output: string)
    requires Solid(id) && WordText(phase) && WordText(status)
    requires agent != "" && validation != "" && output != "" && CellText(agent) && CellText(validation) && CellText(output)
    ensures ReadPhase(HeaderRow([id, phase, status, agent, validation, NatText(n), output]))
         == Some(ItemPhaseStatus(id, phase, status, TextOf(agent), None, None, TextOf(output), TextOf(validation), n))
  {
    hide HeaderRow, ReadPhase, PhaseLine, NatText;
    var r := ItemPhaseStatus(id, phase, status, Some(agent), None, None, Some(output), Some(validation), n);
    PhaseLineReads(r);
    PhaseCells(r);
    PipeFree(validation);
    NatIsText(n);
  }

  lemma NatIsText(n: nat)
    ensures IntText(n) == NatText(n)
  {
  }

  /** The cells of a gate row. */
  lemma GateCellsAre(g: GroupGateResult)
    ensures GATE_COLUMNS == ["Group", "Status", "Tests Before", "Tests After", "Delta", "Lint", "Items"]
    ensures GateLine(g) == HeaderRow([g.groupName, g.status, IntText(g.testsBefore), IntText(g.testsAfter), IntText(g.testsDelta),
                                      if g.lintClean then "clean" else "DIRTY", IntText(g.itemsCompleted) + "/" + IntText(g.itemsTotal)])
  {
    hide HeaderRow, IntText;
    SevenCells(g.groupName, g.status, IntText(g.testsBefore), IntText(g.testsAfter), IntText(g.testsDelta),
               if g.lintClean then "clean" else "DIRTY", IntText(g.itemsCompleted) + "/" + IntText(g.itemsTotal));
    Ratio(IntText(g.itemsCompleted), IntText(g.itemsTotal));
  }

  lemma Ratio(a: string, b: string)
    ensures (a + "/" + b) + " |" == a + ("/" + (b + " |"))
  {
  }

  /** What a gate row with given cells loads as. */
  lemma GateRowLoads(name: string, status: string, before: nat, after: nat, delta: int, clean: bool, done: nat, total: nat)
    requires CellText(name) && WordText(status)
    ensures ReadGate(HeaderRow([name, status, NatText(before), NatText(after), IntText(delta), if clean then "clean" else "DIRTY",
                                NatText(done) + "/" + NatText(total)]))
         == Some(GroupGateResult(name, status, before, after, delta, clean, done, total, ""))
  {
    hide HeaderRow, ReadGate, GateLine, NatText;
    var g := GroupGateResult(name, status, before, after, delta, clean, done, total, "");
    GateLineReads(g);
    GateCellsAre(g);
    NatIsText(before);
    NatIsText(after);
    NatIsText(done);
    NatIsText(total);
  }
}
