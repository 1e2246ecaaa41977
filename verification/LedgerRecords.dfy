/** The ledger object: two dictionaries updated in place and written through to one file. */
module LedgerRecords {
  import opened Text
  import opened LedgerText
  import opened Sorting
  import LineEndings

  // ---- what each record call means ----

  function Lookup<K, V>(m: map<K, V>, k: K): Option<V> { if k in m then Some(m[k]) else None }

  function StartedRow(k: Key, agent: string, now: Option<string>): ItemPhaseStatus {
    ItemPhaseStatus(k.item, k.phase, "running", Some(agent), now, None, None, None, 0)
  }

  function FreshRow(k: Key): ItemPhaseStatus {
    ItemPhaseStatus(k.item, k.phase, "", None, None, None, None, None, 0)
  }

  function Existing(prev: Option<ItemPhaseStatus>, k: Key): ItemPhaseStatus {
    if prev.Some? then prev.value else FreshRow(k)
  }

  /** A completion keeps the agent and start time of the row it completes. */
  function CompletedRow(prev: Option<ItemPhaseStatus>, k: Key, output: string, validation: string,
                        iterations: int, now: Option<string>): ItemPhaseStatus {
    Existing(prev, k).(status := "passed", completed := now, outputPath := Some(output),
                      validation := Some(validation), iterations := iterations)
  }

  /** A failure keeps the rest of the row, including any output path of an earlier run. */
  function FailedRow(prev: Option<ItemPhaseStatus>, k: Key, error: string, now: Option<string>): ItemPhaseStatus {
    Existing(prev, k).(status := "failed", completed := now, validation := Some("FAIL: " + error))
  }

  predicate Passed(m: map<Key, ItemPhaseStatus>, k: Key) { k in m && m[k].status == "passed" }

  // ---- growing the printed rows from the front ----

  lemma {:induction false} RowsGrow(m: map<Key, ItemPhaseStatus>, a: seq<string>, b: seq<string>)
    ensures Rows(m, a + b) == Rows(m, a) + Rows(m, b)
  {
    if a == [] {
      assert a + b == b;
    } else {
      assert (a + b)[1..] == a[1..] + b;
      RowsGrow(m, a[1..], b);
    }
  }

  lemma {:induction false} ItemRowsGrow(m: map<Key, ItemPhaseStatus>, item: string, a: seq<string>, b: seq<string>)
    ensures ItemRows(m, item, a + b) == ItemRows(m, item, a) + ItemRows(m, item, b)
  {
    if a == [] {
      assert a + b == b;
    } else {
      assert (a + b)[1..] == a[1..] + b;
      ItemRowsGrow(m, item, a[1..], b);
    }
  }

  lemma {:induction false} GateRowsGrow(m: map<string, GroupGateResult>, names: seq<string>, i: nat)
    requires i < |names| && forall n :: n in names ==> n in m
    ensures GateLines(GateRows(m, names[..i + 1])) == GateLines(GateRows(m, names[..i])) + [GateLine(m[names[i]])]
  {
    hide GateLine;
    var a, b := names[..i + 1], names[..i];
    if i > 0 {
      assert a[1..] == names[1..][..i] && b[1..] == names[1..][..i - 1];
      GateRowsGrow(m, names[1..], i - 1);
      assert GateRows(m, a)[1..] == GateRows(m, a[1..]);
      assert GateRows(m, b)[1..] == GateRows(m, b[1..]);
    } else {
      assert GateRows(m, a) == [m[names[0]]];
      assert GateLines(GateRows(m, a)) == [GateLine(m[names[0]])];
    }
  }

  /** One more phase of one item printed. */
  lemma RowPrinted(m: map<Key, ItemPhaseStatus>, item: string, j: nat)
    requires j < |PHASES|
    ensures PhaseLines(ItemRows(m, item, PHASES[..j + 1])) ==
              PhaseLines(ItemRows(m, item, PHASES[..j])) +
              (if Key(item, PHASES[j]) in m then [PhaseLine(m[Key(item, PHASES[j])])] else [])
  {
    hide PhaseLine, PhaseLines;
    assert PHASES[..j + 1] == PHASES[..j] + [PHASES[j]];
    ItemRowsGrow(m, item, PHASES[..j], [PHASES[j]]);
    PhaseLinesGrow(ItemRows(m, item, PHASES[..j]), ItemRows(m, item, [PHASES[j]]));
    OnePhase(m, item, PHASES[j]);
  }

  lemma OnePhase(m: map<Key, ItemPhaseStatus>, item: string, phase: string)
    ensures PhaseLines(ItemRows(m, item, [phase])) == (if Key(item, phase) in m then [PhaseLine(m[Key(item, phase)])] else [])
  {
    hide PhaseLine, PhaseLines;
    var ps := [phase];
    NoPhases(m, item, ps[1..]);
    assert ps[0] == phase;
    if Key(item, phase) in m {
      OneLinePrinted(m[Key(item, phase)]);
      assert ItemRows(m, item, ps) == [m[Key(item, phase)]];
    } else {
      assert ItemRows(m, item, ps) == [];
      NoLines();
    }
  }

  lemma NoPhases(m: map<Key, ItemPhaseStatus>, item: string, ps: seq<string>)
    requires |ps| == 0
    ensures ItemRows(m, item, ps) == []
  {
  }

  lemma NoLines()
    ensures PhaseLines([]) == []
  {
  }

  lemma OneLinePrinted(r: ItemPhaseStatus)
    ensures PhaseLines([r]) == [PhaseLine(r)]
  {
    hide PhaseLine;
    assert [r][1..] == [];
  }

  lemma OneItem(m: map<Key, ItemPhaseStatus>, item: string)
    ensures Rows(m, [item]) == ItemRows(m, item, PHASES)
  {
    hide ItemRows;
    var items := [item];
    NoItems(m, items[1..]);
    assert Rows(m, items) == ItemRows(m, items[0], PHASES) + Rows(m, items[1..]);
  }

  lemma NoItems(m: map<Key, ItemPhaseStatus>, items: seq<string>)
    requires |items| == 0
    ensures Rows(m, items) == []
  {
  }

  lemma ItemPrinted(m: map<Key, ItemPhaseStatus>, items: seq<string>, i: nat)
    requires i < |items|
    ensures PhaseLines(Rows(m, items[..i + 1])) == PhaseLines(Rows(m, items[..i])) + PhaseLines(ItemRows(m, items[i], PHASES))
  {
    hide PhaseLine, PhaseLines, ItemRows;
    assert items[..i + 1] == items[..i] + [items[i]];
    RowsGrow(m, items[..i], [items[i]]);
    OneItem(m, items[i]);
    PhaseLinesGrow(Rows(m, items[..i]), ItemRows(m, items[i], PHASES));
  }

  // ---- reading ----

  lemma {:induction false} ReadKeyed(rd: Reader, ts: seq<Token>)
    requires rd.ledger.Keyed()
    ensures ReadTokens(rd, ts).ledger.Keyed()
    decreases |ts|
  {
    if ts != [] { ReadKeyed(Step(rd, ts[0]), ts[1..]); }
  }

  /** Every loaded row is filed under its own names. */
  lemma LoadIsKeyed(text: string)
    ensures Load(text).Keyed()
  {
    ReadKeyed(Reader(EMPTY, NoTable), ScanAll(Split(LineEndings.Universal(text), '\n')));
  }

  lemma {:induction false} ReadGrows(rd: Reader, ts: seq<Token>, t: Token)
    ensures ReadTokens(rd, ts + [t]) == Step(ReadTokens(rd, ts), t)
    decreases |ts|
  {
    if ts != [] {
      assert (ts + [t])[1..] == ts[1..] + [t];
      ReadGrows(Step(rd, ts[0]), ts[1..], t);
    }
  }

  lemma ReadOneMore(lines: seq<string>, i: nat)
    requires i < |lines|
    ensures ReadTokens(Reader(EMPTY, NoTable), ScanAll(lines[..i + 1]))
         == Step(ReadTokens(Reader(EMPTY, NoTable), ScanAll(lines[..i])), Scan(lines[i]))
  {
    hide Scan, ReadTokens, Step;
    assert ScanAll(lines[..i + 1]) == ScanAll(lines[..i]) + [Scan(lines[i])];
    ReadGrows(Reader(EMPTY, NoTable), ScanAll(lines[..i]), Scan(lines[i]));
  }

  function TableOf(inPhase: bool, inGate: bool): Table {
    if inPhase then PhaseTable else if inGate then GateTable else NoTable
  }

  class ExecutionLedger {
    var phases: map<Key, ItemPhaseStatus>
    var gates: map<string, GroupGateResult>
    /** The ledger file's text, if there is one. */
    var disk: Option<string>
    /** Every state written to the file by this object, oldest first. */
    ghost var written: seq<Ledger>

    function State(): Ledger
      reads this
    {
      Ledger(phases, gates)
    }

    ghost predicate Valid()
      reads this
    {
      State().Keyed()
    }

    /** What every record call adds: one more write, of the new state. */
    twostate predicate Wrote(now: string)
      reads this
    {
      Valid() && disk == Some(Save(State(), now)) && written == old(written) + [State()]
    }

    constructor (file: Option<string>)
      ensures State() == if file.Some? then Load(file.value) else EMPTY
      ensures Valid() && disk == file && written == []
    {
      phases, gates, disk, written := map[], map[], file, [];
      new;
      if file.Some? {
        LoadFile(file.value);
      }
    }

    /** `save` */
    method SaveFile(now: string)
      requires Valid()
      modifies this`disk, this`written
      ensures Wrote(now)
    {
      var lines := PrintPhases(Preamble(now));
      lines := lines + MIDDLE;
      lines := PrintGates(lines);
      disk := Some(Unlines(lines));
      written := written + [State()];
    }

    method PrintPhases(head: seq<string>) returns (lines: seq<string>)
      ensures lines == head + PhaseLines(SavedRows(State()))
    {
      hide PhaseLine, ItemRows, Rows, PhaseLines, SavedRows;
      lines := head;
      var items := Sort(set k | k in phases :: k.item);
      assert PhaseLines(Rows(phases, items[..0])) == [] by { NothingPrinted(phases); }
      for i := 0 to |items|
        invariant lines == head + PhaseLines(Rows(phases, items[..i]))
      {
        lines := PrintItem(lines, items[i]);
        ItemPrinted(phases, items, i);
      }
      assert items[..|items|] == items;
      AllPrinted(State(), items);
    }

    method PrintItem(head: seq<string>, item: string) returns (lines: seq<string>)
      ensures lines == head + PhaseLines(ItemRows(phases, item, PHASES))
    {
      hide PhaseLine, ItemRows, PhaseLines;
      lines := head;
      NothingOfItem(phases, item);
      for j := 0 to |PHASES|
        invariant lines == head + PhaseLines(ItemRows(phases, item, PHASES[..j]))
      {
        var k := Key(item, PHASES[j]);
        if k in phases {
          lines := lines + [PhaseLine(phases[k])];
        }
        RowPrinted(phases, item, j);
      }
      assert PHASES[..|PHASES|] == PHASES;
    }

    method PrintGates(head: seq<string>) returns (lines: seq<string>)
      ensures lines == head + GateLines(SavedGates(State()))
    {
      hide GateLine;
      lines := head;
      var names := Sort(gates.Keys);
      SortedElements(gates.Keys);
      for i := 0 to |names|
        invariant lines == head + GateLines(GateRows(gates, names[..i]))
      {
        GateRowsGrow(gates, names, i);
        lines := lines + [GateLine(gates[names[i]])];
      }
      assert names[..|names|] == names;
    }

    /** `load`: one pass over the lines, with the two table flags. */
    method LoadFile(content: string)
      modifies this`phases, this`gates
      ensures State() == Load(content) && Valid()
    {
      hide ReadPhase, ReadGate, Scan, ScanAll, ReadTokens, Contains;
      phases, gates := map[], map[];
      var inPhaseTable, inGateTable := false, false;
      var lines := Split(LineEndings.Universal(content), '\n');
      NothingRead();
      for i := 0 to |lines|
        invariant !(inPhaseTable && inGateTable)
        invariant ReadTokens(Reader(EMPTY, NoTable), ScanAll(lines[..i])) == Reader(State(), TableOf(inPhaseTable, inGateTable))
      {
        ReadOneMore(lines, i);
        var line := lines[i];
        inPhaseTable, inGateTable := ReadLine(line, inPhaseTable, inGateTable);
      }
      assert lines[..|lines|] == lines;
      LoadIsKeyed(content);
    }

    method ReadLine(line: string, inPhase: bool, inGate: bool) returns (inPhaseTable: bool, inGateTable: bool)
      requires !(inPhase && inGate)
      modifies this`phases, this`gates
      ensures !(inPhaseTable && inGateTable)
      ensures Reader(State(), TableOf(inPhaseTable, inGateTable))
           == Step(Reader(old(State()), TableOf(inPhase, inGate)), Scan(line))
    {
      hide ReadPhase, ReadGate, Contains, StartsWith;
      inPhaseTable, inGateTable := inPhase, inGate;
      var stripped := Strip(line);
      if Contains(line, PHASE_TITLE) {
        return true, false;
      }
      if Contains(line, GATE_TITLE) {
        return false, true;
      }
      if Heading(stripped) {
        return;
      }
      if inPhaseTable && StartsWith(stripped, "|") {
        var m := ReadPhase(stripped);
        if m.Some? {
          phases := phases[Key(m.value.itemId, m.value.phase) := m.value];
        }
      }
      if inGateTable && StartsWith(stripped, "|") {
        var m := ReadGate(stripped);
        if m.Some? {
          gates := gates[m.value.groupName := m.value];
        }
      }
    }

    method RecordPhaseStart(k: Key, agent: string, now: string)
      requires Valid()
      modifies this
      ensures phases == old(phases)[k := StartedRow(k, agent, Some(now))] && gates == old(gates) && Wrote(now)
      ensures phases[k] == ItemPhaseStatus(k.item, k.phase, "running", Some(agent), Some(now), None, None, None, 0)
    {
      hide Save;
      phases := phases[k := StartedRow(k, agent, Some(now))];
      SaveFile(now);
    }

    method RecordPhaseComplete(k: Key, output: string, validation: string, iterations: int, now: string)
      requires Valid()
      modifies this
      ensures phases == old(phases)[k := CompletedRow(Lookup(old(phases), k), k, output, validation, iterations, Some(now))]
      ensures var r := phases[k];
              && r.status == "passed" && r.completed == Some(now) && r.outputPath == Some(output)
              && r.validation == Some(validation) && r.iterations == iterations
              && (if k in old(phases) then var b := old(phases)[k];
                    r.itemId == b.itemId && r.phase == b.phase && r.agentId == b.agentId && r.started == b.started
                  else r.itemId == k.item && r.phase == k.phase && r.agentId == None && r.started == None)
      ensures gates == old(gates) && Wrote(now)
    {
      hide Save;
      if k in phases {
        phases := phases[k := phases[k].(status := "passed", completed := Some(now), outputPath := Some(output),
                                         validation := Some(validation), iterations := iterations)];
      } else {
        phases := phases[k := ItemPhaseStatus(k.item, k.phase, "passed", None, None, Some(now), Some(output),
                                              Some(validation), iterations)];
      }
      SaveFile(now);
    }

    method RecordPhaseFailed(k: Key, error: string, now: string)
      requires Valid()
      modifies this
      ensures phases == old(phases)[k := FailedRow(Lookup(old(phases), k), k, error, Some(now))]
      ensures var r := phases[k];
              && r.status == "failed" && r.completed == Some(now) && r.validation == Some("FAIL: " + error)
              && (if k in old(phases) then var b := old(phases)[k];
                    && r.itemId == b.itemId && r.phase == b.phase && r.agentId == b.agentId && r.started == b.started
                    && r.outputPath == b.outputPath && r.iterations == b.iterations
                  else r == ItemPhaseStatus(k.item, k.phase, "failed", None, None, Some(now), None, r.validation, 0))
      ensures gates == old(gates) && Wrote(now)
    {
      hide Save;
      if k in phases {
        phases := phases[k := phases[k].(status := "failed", completed := Some(now), validation := Some("FAIL: " + error))];
      } else {
        phases := phases[k := ItemPhaseStatus(k.item, k.phase, "failed", None, None, Some(now), None, Some("FAIL: " + error), 0)];
      }
      SaveFile(now);
    }

    method RecordGroupGate(result: GroupGateResult, now: string)
      requires Valid()
      modifies this
      ensures phases == old(phases) && gates == old(gates)[result.groupName := result] && Wrote(now)
    {
      hide Save;
      gates := gates[result.groupName := result];
      SaveFile(now);
    }

    function IsItemPhaseComplete(item: string, phase: string): bool
      reads this
    {
      Passed(phases, Key(item, phase))
    }

    method IsGroupComplete(itemIds: seq<string>) returns (r: bool)
      ensures r <==> forall i, p :: i in itemIds && p in PHASES ==> Passed(phases, Key(i, p))
    {
      for i := 0 to |itemIds|
        invariant forall n, p :: 0 <= n < i && p in PHASES ==> Passed(phases, Key(itemIds[n], p))
      {
        for j := 0 to |PHASES|
          invariant forall m :: 0 <= m < j ==> Passed(phases, Key(itemIds[i], PHASES[m]))
        {
          if !IsItemPhaseComplete(itemIds[i], PHASES[j]) {
            assert itemIds[i] in itemIds && PHASES[j] in PHASES;
            return false;
          }
        }
      }
      return true;
    }

    method AllGroupsComplete(groupNames: seq<string>) returns (r: bool)
      ensures r <==> forall g :: g in groupNames ==> g in gates && gates[g].status == "passed"
    {
      for i := 0 to |groupNames|
        invariant forall n :: 0 <= n < i ==> groupNames[n] in gates && gates[groupNames[n]].status == "passed"
      {
        if groupNames[i] !in gates || gates[groupNames[i]].status != "passed" {
          assert groupNames[i] in groupNames;
          return false;
        }
      }
      return true;
    }
  }

  lemma NothingPrinted(m: map<Key, ItemPhaseStatus>)
    ensures PhaseLines(Rows(m, [])) == []
  {
  }

  lemma NothingOfItem(m: map<Key, ItemPhaseStatus>, item: string)
    ensures PhaseLines(ItemRows(m, item, PHASES[..0])) == []
  {
  }

  lemma AllPrinted(L: Ledger, items: seq<string>)
    requires items == Sorted(set k | k in L.phases :: k.item)
    ensures Rows(L.phases, items) == SavedRows(L)
  {
  }

  lemma NothingRead()
    ensures ReadTokens(Reader(EMPTY, NoTable), ScanAll([])) == Reader(EMPTY, NoTable)
  {
  }
}
