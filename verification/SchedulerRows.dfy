/** What a group's run leaves, calls and reports, cell by cell. */
module SchedulerRows {
  import opened Text
  import opened LedgerText
  import opened LedgerRoundTrip
  import opened LedgerRecords
  import opened Scheduler

  lemma ResultCells(item: Item, k: Key, A: Agents)
    requires k.item == item.id
    ensures InFlight(item, k, A) == ItemPhaseStatus(item.id, k.phase, "running", if item.human then Some("human") else NormCell(Some(A.name)),
                                                    None, None, None, None, 0)
    ensures var row := ResultRow(item, k, A); var agent := NormCell(Some(A.name));
            if item.human then
              row == ItemPhaseStatus(item.id, k.phase, "passed", Some("human"), None, None, Some("pending-human"), Some("PENDING"), 0)
            else match A.outcome(k)
              case Done(output, verdict, n) =>
                row == ItemPhaseStatus(item.id, k.phase, "passed", agent, None, None, NormCell(Some(output)), NormCell(Some(verdict)), n)
              case Raised(error) =>
                row == ItemPhaseStatus(item.id, k.phase, "failed", agent, None, None, None, NormCell(Some("FAIL: " + error)), 0)
  {
  }

  lemma FinalCells(mode: string, before: Option<ItemPhaseStatus>, item: Item, p: nat, A: Agents)
    requires p < 4
    ensures var phases := ["tests", "plan", "code", "review"];
            var id, phase, agent := item.id, phases[p], NormCell(Some(A.name));
            var after := FinalRow(mode, before, item, Key(id, phase), A);
            if item.human then
              after == Some(ItemPhaseStatus(id, phase, "passed", Some("human"), None, None, Some("pending-human"), Some("PENDING"), 0))
            else if mode == "independent" && exists q :: 0 <= q < p && A.outcome(Key(id, phases[q])).Raised? then after == before
            else if mode != "independent" && before.Some? && before.value.status == "passed" then after == before
            else match A.outcome(Key(id, phase))
              case Done(output, verdict, iterations) =>
                after == Some(ItemPhaseStatus(id, phase, "passed", agent, None, None, NormCell(Some(output)), NormCell(Some(verdict)), iterations))
              case Raised(error) =>
                after == Some(if mode == "independent" then ItemPhaseStatus(id, phase, "running", agent, None, None, None, None, 0)
                              else ItemPhaseStatus(id, phase, "failed", agent, None, None, None, NormCell(Some("FAIL: " + error)), 0))
  {
    hide InFlight, ResultRow, NormCell;
    var phases := ["tests", "plan", "code", "review"];
    ResultCells(item, Key(item.id, phases[p]), A);
    assert PHASES == phases && PhaseNo(phases[p]) == p;
  }

  /** The row of phase `p` of item `n` after the group has run. A human's phase passes as pending. An AI's phase is
      skipped when independent and an earlier phase raised, or synchronised and passed before; else its outcome is
      recorded, except that an exception in independent mode leaves the row running. */
  lemma RowLeft(mode: string, b: map<Key, ItemPhaseStatus>, items: seq<Item>, n: nat, p: nat, A: Agents)
    requires DistinctIds(items) && n < |items| && p < 4
    ensures var phases := ["tests", "plan", "code", "review"];
            var id, phase, agent := items[n].id, phases[p], NormCell(Some(A.name));
            var before, after := Lookup(b, Key(id, phase)), Lookup(AfterGroup(mode, b, items, A), Key(id, phase));
            if items[n].human then
              after == Some(ItemPhaseStatus(id, phase, "passed", Some("human"), None, None, Some("pending-human"), Some("PENDING"), 0))
            else if mode == "independent" && exists q :: 0 <= q < p && A.outcome(Key(id, phases[q])).Raised? then after == before
            else if mode != "independent" && before.Some? && before.value.status == "passed" then after == before
            else match A.outcome(Key(id, phase))
              case Done(output, verdict, iterations) =>
                after == Some(ItemPhaseStatus(id, phase, "passed", agent, None, None, NormCell(Some(output)), NormCell(Some(verdict)), iterations))
              case Raised(error) =>
                after == Some(if mode == "independent" then ItemPhaseStatus(id, phase, "running", agent, None, None, None, None, 0)
                              else ItemPhaseStatus(id, phase, "failed", agent, None, None, None, NormCell(Some("FAIL: " + error)), 0))
  {
    hide FinalRow, DistinctIds;
    AfterGroupRow(mode, b, items, A, Key(items[n].id, PHASES[p]));
    IndexIs(items, n);
    FinalCells(mode, Lookup(b, Key(items[n].id, PHASES[p])), items[n], p, A);
  }

  /** Every other row stays as it was. */
  lemma RowKept(mode: string, b: map<Key, ItemPhaseStatus>, items: seq<Item>, A: Agents, k: Key)
    requires (forall n :: 0 <= n < |items| ==> items[n].id != k.item) || k.phase !in ["tests", "plan", "code", "review"]
    ensures Lookup(AfterGroup(mode, b, items, A), k) == Lookup(b, k)
  {
    AfterGroupRow(mode, b, items, A, k);
  }

  /** The calls of a group: an AI item's phases that no earlier exception of the item stops, when independent; those
      that had not passed, when synchronised. */
  lemma CallIff(mode: string, b: map<Key, ItemPhaseStatus>, items: seq<Item>, A: Agents, k: Key)
    ensures var phases := ["tests", "plan", "code", "review"];
            k in GroupCalls(mode, b, items, A) <==>
              exists n, p {:trigger items[n], phases[p]} :: 0 <= n < |items| && 0 <= p < 4 && k == Key(items[n].id, phases[p]) && !items[n].human
                && (if mode == "independent" then forall q :: 0 <= q < p ==> A.outcome(Key(items[n].id, phases[q])).Done?
                    else !(k in b && b[k].status == "passed"))
  {
    var phases := ["tests", "plan", "code", "review"];
    PhaseNumbers();
    assert PHASES == phases;
    if k in GroupCalls(mode, b, items, A) {
      var i, s :| i in items && s in PHASES && !i.human && Runs(mode, Lookup(b, Key(i.id, s)), i, Key(i.id, s), A) && k == Key(i.id, s);
      var n :| 0 <= n < |items| && items[n] == i;
      assert phases[PhaseNo(s)] == s;
    }
    if n, p :| 0 <= n < |items| && 0 <= p < 4 && k == Key(items[n].id, phases[p]) && !items[n].human
               && (if mode == "independent" then forall q :: 0 <= q < p ==> A.outcome(Key(items[n].id, phases[q])).Done?
                   else !(k in b && b[k].status == "passed")) {
      assert items[n] in items && phases[p] in PHASES;
      assert Runs(mode, Lookup(b, k), items[n], k, A);
    }
  }

  /** The AI items that a group's run in the mode completes. */
  ghost function DoneIn(mode: string, b: map<Key, ItemPhaseStatus>, items: seq<Item>, A: Agents): set<Item> {
    set i | i in items && !i.human && (
      if mode == "independent" then forall p :: p in ["tests", "plan", "code", "review"] ==> A.outcome(Key(i.id, p)).Done?
      else var k := Key(i.id, "review"); (k in b && b[k].status == "passed") || A.outcome(k).Done?)
  }

  lemma DoneAre(mode: string, b: map<Key, ItemPhaseStatus>, items: seq<Item>, A: Agents)
    ensures CompletedItems(mode, b, items, A) == DoneIn(mode, b, items, A)
    ensures FailedItems(mode, b, items, A) == {} <==> DoneIn(mode, b, items, A) == (set i | i in items && !i.human)
  {
    hide Succeeds;
    var ai, done := (set i | i in items && !i.human), DoneIn(mode, b, items, A);
    forall i | i in ai ensures Succeeds(mode, b, i, A) <==> i in done {
      SucceedsIff(mode, b, i, A);
    }
    assert done <= ai;
    assert CompletedItems(mode, b, items, A) == done;
    FailedLeft(mode, b, items, A, ai, done);
  }

  lemma SucceedsIff(mode: string, b: map<Key, ItemPhaseStatus>, i: Item, A: Agents)
    ensures Succeeds(mode, b, i, A) <==>
              if mode == "independent" then forall p :: p in ["tests", "plan", "code", "review"] ==> A.outcome(Key(i.id, p)).Done?
              else var k := Key(i.id, "review"); (k in b && b[k].status == "passed") || A.outcome(k).Done?
  {
    assert PHASES == ["tests", "plan", "code", "review"];
    if Reached(i.id, 4, A) {
      forall p | p in PHASES ensures A.outcome(Key(i.id, p)).Done? {
        assert PHASES[PhaseNo(p)] == p;
      }
    } else {
      var q :| 0 <= q < 4 && !A.outcome(Key(i.id, PHASES[q])).Done?;
      assert PHASES[q] in PHASES;
    }
  }

  lemma AiCounted(items: seq<Item>)
    requires DistinctIds(items)
    ensures |items| - |HumanItems(items)| == |set i | i in items && !i.human|
  {
    DistinctCount(items);
    var ai := set i | i in items && !i.human;
    assert (set i | i in items) == ai + HumanItems(items) && ai !! HumanItems(items);
  }

  lemma FailedLeft(mode: string, b: map<Key, ItemPhaseStatus>, items: seq<Item>, A: Agents, ai: set<Item>, done: set<Item>)
    requires ai == (set i | i in items && !i.human) && done <= ai
    requires forall i :: i in ai ==> (Succeeds(mode, b, i, A) <==> i in done)
    ensures FailedItems(mode, b, items, A) == {} <==> done == ai
  {
    hide Succeeds;
    assert FailedItems(mode, b, items, A) == ai - done;
    assert ai == (ai - done) + done;
  }

  /** The gate: passed when every AI item succeeded, all its phases when independent, its review when synchronised;
      with the number of those and of all AI items. */
  lemma GateSays(g: Group, b: map<Key, ItemPhaseStatus>, A: Agents)
    requires DistinctIds(g.items)
    ensures var ai := set i | i in g.items && !i.human;
            var alone := g.mode == "independent" && forall i, j, f :: 0 <= i < j < |g.items| && f in g.items[i].files ==> f !in g.items[j].files;
            var done := DoneIn(if alone then "independent" else "phase_sync", b, g.items, A);
            GateOf(g, b, A) == GroupGateResult(g.name, if done == ai then "passed" else "failed", 0, 0, 0, true, |done|, |ai|, "")
  {
    hide EffectiveMode, CompletedItems, FailedItems, HumanItems, DistinctIds;
    ModeIs(g);
    DoneAre(EffectiveMode(g), b, g.items, A);
    AiCounted(g.items);
  }
}
