/** Laws of whole scheduler runs: counting, gates, what a gate promises, and crash safety. */
module SchedulerLaws {
  import opened Text
  import opened LedgerText
  import opened LedgerRoundTrip
  import opened LedgerLaws
  import LedgerResume
  import opened LedgerVisible
  import opened LedgerRecords
  import opened Scheduler
  import opened SchedulerSteps

  // ---- one group, run again from any state on the way ----

  /** The rows of the group's own items are states its run passes through. */
  ghost predicate MidOn(mode: string, b: map<Key, ItemPhaseStatus>, h: map<Key, ItemPhaseStatus>, items: seq<Item>, A: Agents) {
    forall k: Key :: IndexOf(items, k.item) < |items| ==> MidRow(mode, Lookup(b, k), Lookup(h, k), items, k, A)
  }

  lemma FinalAgain(mode: string, before: Option<ItemPhaseStatus>, now: Option<ItemPhaseStatus>, items: seq<Item>, k: Key, A: Agents)
    requires MidRow(mode, before, now, items, k, A)
    ensures GroupRow(mode, now, items, k, A) == GroupRow(mode, before, items, k, A)
  {
  }

  lemma GroupAgain(mode: string, b: map<Key, ItemPhaseStatus>, h: map<Key, ItemPhaseStatus>, items: seq<Item>, A: Agents)
    requires MidGroup(mode, b, h, items, A)
    ensures AfterGroup(mode, h, items, A) == AfterGroup(mode, b, items, A)
  {
    hide MidRow, GroupRow;
    var again := AfterGroup(mode, h, items, A);
    forall k ensures Lookup(again, k) == GroupRow(mode, Lookup(b, k), items, k, A) {
      AfterGroupRow(mode, h, items, A, k);
      assert MidRow(mode, Lookup(b, k), Lookup(h, k), items, k, A);
      FinalAgain(mode, Lookup(b, k), Lookup(h, k), items, k, A);
    }
    FromRows(mode, b, again, items, A);
  }

  lemma SucceedsAgain(mode: string, b: map<Key, ItemPhaseStatus>, h: map<Key, ItemPhaseStatus>, items: seq<Item>, i: Item, A: Agents)
    requires DistinctIds(items) && i in items && !i.human && MidOn(mode, b, h, items, A)
    ensures Succeeds(mode, h, i, A) == Succeeds(mode, b, i, A)
  {
    var n :| 0 <= n < |items| && items[n] == i;
    IndexIs(items, n);
    var k := Key(i.id, "review");
    assert MidRow(mode, Lookup(b, k), Lookup(h, k), items, k, A);
  }

  lemma GateAgain(g: Group, b: map<Key, ItemPhaseStatus>, h: map<Key, ItemPhaseStatus>, A: Agents)
    requires DistinctIds(g.items) && MidOn(EffectiveMode(g), b, h, g.items, A)
    ensures CompletedItems(EffectiveMode(g), h, g.items, A) == CompletedItems(EffectiveMode(g), b, g.items, A)
    ensures FailedItems(EffectiveMode(g), h, g.items, A) == FailedItems(EffectiveMode(g), b, g.items, A)
    ensures GateOf(g, h, A) == GateOf(g, b, A)
  {
    hide Succeeds, MidOn;
    forall i | i in g.items && !i.human
      ensures Succeeds(EffectiveMode(g), h, i, A) == Succeeds(EffectiveMode(g), b, i, A)
    {
      SucceedsAgain(EffectiveMode(g), b, h, g.items, i, A);
    }
  }

  // ---- plans whose items have their own names ----

  /** No two items of the plan share an id. */
  ghost predicate DistinctPlan(plan: seq<Group>)
    decreases |plan|
  {
    plan == [] || (
      && DistinctIds(plan[0].items) && DistinctPlan(plan[1..])
      && forall g, x, y :: g in plan[1..] && x in plan[0].items && y in g.items ==> x.id != y.id)
  }

  ghost predicate Elsewhere(plan: seq<Group>, id: string) { forall g, x :: g in plan && x in g.items ==> x.id != id }

  lemma {:induction false} NotIndexed(items: seq<Item>, id: string)
    requires forall x :: x in items ==> x.id != id
    ensures IndexOf(items, id) == |items|
  {
    if items != [] {
      assert items[0] in items;
      NotIndexed(items[1..], id);
    }
  }

  lemma AfterElsewhere(g: Group, b: map<Key, ItemPhaseStatus>, A: Agents, k: Key)
    requires forall x :: x in g.items ==> x.id != k.item
    ensures Lookup(After(g, b, A), k) == Lookup(b, k)
  {
    hide FinalRow;
    AfterGroupRow(EffectiveMode(g), b, g.items, A, k);
    NotIndexed(g.items, k.item);
  }

  /** A run touches only its own items. */
  lemma {:induction false} MidElsewhere(b: map<Key, ItemPhaseStatus>, h: map<Key, ItemPhaseStatus>, plan: seq<Group>, A: Agents, k: Key)
    requires MidPlan(b, h, plan, A) && Elsewhere(plan, k.item)
    ensures Lookup(h, k) == Lookup(b, k)
    decreases |plan|
  {
    hide FinalRow, EffectiveMode, After, GatePasses;
    var g := plan[0];
    assert g in plan;
    if MidGroup(EffectiveMode(g), b, h, g.items, A) {
      assert MidRow(EffectiveMode(g), Lookup(b, k), Lookup(h, k), g.items, k, A);
      NotIndexed(g.items, k.item);
    } else {
      assert forall x :: x in plan[1..] ==> x in plan;
      AfterElsewhere(g, b, A, k);
      MidElsewhere(After(g, b, A), h, plan[1..], A, k);
    }
  }

  // ---- crash and resume ----

  predicate SameRun(r: Run, s: Run) {
    && r.phases == s.phases && r.attempted == s.attempted && r.passed == s.passed
    && r.completed == s.completed && r.failed == s.failed && r.human == s.human
  }

  lemma {:induction false} GatesDoNotMatter(b: map<Key, ItemPhaseStatus>, g1: map<string, GroupGateResult>, g2: map<string, GroupGateResult>,
                                            plan: seq<Group>, A: Agents)
    ensures SameRun(RunPlan(b, g1, plan, A), RunPlan(b, g2, plan, A))
    decreases |plan|
  {
    hide After, GateOf, GatePasses, CompletedItems, FailedItems, HumanItems, EffectiveMode;
    if plan != [] {
      var g := plan[0];
      GatesDoNotMatter(After(g, b, A), g1[g.name := GateOf(g, b, A)], g2[g.name := GateOf(g, b, A)], plan[1..], A);
    }
  }

  /** A group that has passed, seen from a state of a later group: running it again changes nothing. */
  lemma PassedGroupAgain(g: Group, b: map<Key, ItemPhaseStatus>, h: map<Key, ItemPhaseStatus>, rest: seq<Group>, A: Agents)
    requires DistinctIds(g.items) && MidPlan(After(g, b, A), h, rest, A)
    requires forall x :: x in g.items ==> Elsewhere(rest, x.id)
    ensures MidOn(EffectiveMode(g), b, h, g.items, A) && After(g, h, A) == h
  {
    hide FinalRow, MidPlan, EffectiveMode;
    var mode := EffectiveMode(g);
    forall k: Key ensures IndexOf(g.items, k.item) < |g.items| ==> Lookup(h, k) == GroupRow(mode, Lookup(b, k), g.items, k, A) {
      var j := IndexOf(g.items, k.item);
      if j < |g.items| {
        assert g.items[j] in g.items;
        MidElsewhere(After(g, b, A), h, rest, A, k);
        AfterGroupRow(mode, b, g.items, A, k);
      }
    }
    forall k ensures Lookup(h, k) == GroupRow(mode, Lookup(h, k), g.items, k, A) {
      if IndexOf(g.items, k.item) < |g.items| {
        FinalAgain(mode, Lookup(b, k), Lookup(h, k), g.items, k, A);
      }
    }
    FromRows(mode, h, h, g.items, A);
  }

  /** Stop a run after any write, start again from the rows on file: the rows, the counts and the
      groups attempted are those of the run that was never stopped. */
  lemma {:induction false} CrashIsInvisible(b: map<Key, ItemPhaseStatus>, gates: map<string, GroupGateResult>,
                                            h: map<Key, ItemPhaseStatus>, gatesOnFile: map<string, GroupGateResult>, plan: seq<Group>, A: Agents)
    requires DistinctPlan(plan) && MidPlan(b, h, plan, A)
    ensures SameRun(RunPlan(h, gatesOnFile, plan, A), RunPlan(b, gates, plan, A))
    decreases |plan|
  {
    hide MidRow, MidGroup, CompletedItems, FailedItems, HumanItems, AfterGroup, EffectiveMode, GateOf, GatePasses, DistinctIds,
         RunPlan, SameRun, MidOn;
    var g, rest := plan[0], plan[1..];
    var mode, gate := EffectiveMode(g), GateOf(g, b, A);
    if MidGroup(mode, b, h, g.items, A) {
      OwnRows(mode, b, h, g.items, A);
      GroupAgain(mode, b, h, g.items, A);
      GateAgain(g, b, h, A);
      GatesDoNotMatter(After(g, b, A), gatesOnFile[g.name := gate], gates[g.name := gate], rest, A);
      SameStep(b, gates, h, gatesOnFile, plan, A);
    } else {
      PassedGroupAgain(g, b, h, rest, A);
      GateAgain(g, b, h, A);
      CrashIsInvisible(After(g, b, A), gates[g.name := gate], h, gatesOnFile[g.name := gate], rest, A);
      SameStep(b, gates, h, gatesOnFile, plan, A);
    }
  }

  lemma SameStep(b: map<Key, ItemPhaseStatus>, gates: map<string, GroupGateResult>,
                 h: map<Key, ItemPhaseStatus>, gatesOnFile: map<string, GroupGateResult>, plan: seq<Group>, A: Agents)
    requires plan != [] && GateOf(plan[0], h, A) == GateOf(plan[0], b, A)
    requires CompletedItems(EffectiveMode(plan[0]), h, plan[0].items, A) == CompletedItems(EffectiveMode(plan[0]), b, plan[0].items, A)
    requires FailedItems(EffectiveMode(plan[0]), h, plan[0].items, A) == FailedItems(EffectiveMode(plan[0]), b, plan[0].items, A)
    requires After(plan[0], h, A) == After(plan[0], b, A) || GatePasses(plan[0], b, A)
    requires var gate := GateOf(plan[0], b, A);
             SameRun(RunPlan(After(plan[0], h, A), gatesOnFile[plan[0].name := gate], plan[1..], A),
                     RunPlan(After(plan[0], b, A), gates[plan[0].name := gate], plan[1..], A))
    ensures SameRun(RunPlan(h, gatesOnFile, plan, A), RunPlan(b, gates, plan, A))
  {
    hide CompletedItems, FailedItems, HumanItems, After, EffectiveMode, GateOf;
  }

  lemma OwnRows(mode: string, b: map<Key, ItemPhaseStatus>, h: map<Key, ItemPhaseStatus>, items: seq<Item>, A: Agents)
    requires MidGroup(mode, b, h, items, A)
    ensures MidOn(mode, b, h, items, A)
  {
  }

  lemma BareOfNorm(L: Ledger)
    ensures Bare(Norm(L).phases) == Bare(L.phases)
  {
  }

  /** The same through the file: whatever state `h` a run had last written, if the file carries its phases,
      loading it and running again ends as the uninterrupted run does. Gates may be lost; they do not matter. */
  lemma ResumeFromFile(start: Ledger, h: Ledger, stamp: string, plan: seq<Group>, A: Agents)
    requires DistinctPlan(plan) && MidPlan(Bare(start.phases), Bare(h.phases), plan, A)
    requires h.Keyed() && IsoStamp(stamp) && CarriesPhases(h) && StorableGates(h)
    ensures var back := Load(Save(h, stamp));
            SameRun(RunPlan(Bare(back.phases), back.gates, plan, A), RunPlan(Bare(start.phases), start.gates, plan, A))
  {
    hide Load, Save, CarriesPhases, StorableGates, RunPlan, MidPlan, DistinctPlan, Bare;
    var back := Load(Save(h, stamp));
    PhasesSurvive(h, stamp);
    BareOfNorm(h);
    CrashIsInvisible(Bare(start.phases), start.gates, Bare(back.phases), back.gates, plan, A);
  }

  lemma PassedOnFile(m: map<Key, ItemPhaseStatus>, back: map<Key, ItemPhaseStatus>, k: Key)
    requires LedgerResume.SameStatus(back, m)
    ensures HasPassed(Lookup(Bare(back), k)) <==> HasPassed(Lookup(Bare(m), k)) && k in back
  {
  }

  /** Where the file loses rows, a run that resumes from it makes in every group all the calls that were due, and
      besides them only calls that had passed and whose row is lost. */
  lemma LostRowsAreRedone(h: Ledger, stamp: string, mode: string, items: seq<Item>, A: Agents)
    requires h.Keyed() && IsoStamp(stamp) && (forall k :: k in h.phases ==> LedgerResume.Writable(h.phases[k])) && StorableGates(h)
    ensures var back := Load(Save(h, stamp)).phases; var due := GroupCalls(mode, Bare(h.phases), items, A);
            && due <= GroupCalls(mode, Bare(back), items, A)
            && forall k :: k in GroupCalls(mode, Bare(back), items, A) && k !in due ==> HasPassed(Lookup(Bare(h.phases), k)) && k !in back
  {
    hide Load, Save, LedgerResume.Writable, LedgerResume.SameStatus, StorableGate, Bare, HasPassed, Lookup, Reached, PhaseNo;
    LedgerResume.NoStatusInvented(h, stamp);
    var back := Load(Save(h, stamp)).phases;
    forall k ensures HasPassed(Lookup(Bare(back), k)) <==> HasPassed(Lookup(Bare(h.phases), k)) && k in back {
      PassedOnFile(h.phases, back, k);
    }
    var due, again := GroupCalls(mode, Bare(h.phases), items, A), GroupCalls(mode, Bare(back), items, A);
    forall k | k in due ensures k in again {
      var i, p :| i in items && p in PHASES && !i.human && Runs(mode, Lookup(Bare(h.phases), Key(i.id, p)), i, Key(i.id, p), A) && k == Key(i.id, p);
      assert Runs(mode, Lookup(Bare(back), Key(i.id, p)), i, Key(i.id, p), A);
    }
    forall k | k in again && k !in due ensures HasPassed(Lookup(Bare(h.phases), k)) && k !in back {
      var i, p :| i in items && p in PHASES && !i.human && Runs(mode, Lookup(Bare(back), Key(i.id, p)), i, Key(i.id, p), A) && k == Key(i.id, p);
      assert !Runs(mode, Lookup(Bare(h.phases), Key(i.id, p)), i, Key(i.id, p), A);
    }
  }

  // ---- what a run writes, the file can carry ----

  /** A cell text that comes back as it was. */
  predicate CarriesText(s: string) { CarriesCell(Some(s)) && Untitled(Cell(Some(s))) }

  predicate CarriesOutcome(r: Outcome) {
    match r
    case Done(output, validation, iterations) => CarriesText(output) && CarriesText(validation) && iterations >= 0
    case Raised(error) => CarriesText("FAIL: " + error)
  }

  /** An id without blanks that does not open like a heading, and outcomes whose texts the cells can hold. */
  ghost predicate CarriesItem(item: Item, A: Agents) {
    && Solid(item.id) && !StartsWith(item.id, "Group")
    && (!item.human ==> CarriesText(A.name) && forall p :: p in PHASES ==> CarriesOutcome(A.outcome(Key(item.id, p))))
  }

  ghost predicate CarriesItems(items: seq<Item>, A: Agents) { forall i :: i in items ==> CarriesItem(i, A) }

  ghost predicate CarriesPlan(plan: seq<Group>, A: Agents) {
    forall g :: g in plan ==> CellText(g.name) && DistinctIds(g.items) && CarriesItems(g.items, A)
  }

  predicate CarriesRow(r: Option<ItemPhaseStatus>) { r.Some? ==> CarriesPhase(r.value) }

  lemma NormCarries(r: ItemPhaseStatus)
    ensures CarriesPhase(NormPhase(r)) <==> CarriesPhase(r)
  {
    hide CellText, Solid, WordText, Untitled;
  }

  lemma HumanTexts()
    ensures CarriesText("human") && CarriesText("pending-human") && CarriesText("PENDING")
    ensures WordText("running") && WordText("passed") && WordText("failed") && forall p :: p in PHASES ==> WordText(p)
  {
    hide CarriesText;
    PlainCarries("human");
    PlainCarries("pending-human");
    PlainCarries("PENDING");
  }

  /** Letters and hyphens. */
  lemma PlainCarries(s: string)
    requires s != "" && forall c :: c in s ==> 'a' <= c <= 'z' || 'A' <= c <= 'Z' || c == '-'
    ensures CarriesText(s)
  {
    hide Contains;
    assert s[0] in s && s[|s| - 1] in s;
    NoHashUntitled(s);
  }

  lemma NoHashUntitled(s: string)
    requires '#' !in s
    ensures Untitled(s)
  {
    ContainsChars(s, PHASE_TITLE, '#');
    ContainsChars(s, GATE_TITLE, '#');
  }

  lemma InFlightCarries(item: Item, k: Key, A: Agents)
    requires CarriesItem(item, A) && k.item == item.id && k.phase in PHASES
    ensures CarriesPhase(InFlight(item, k, A))
  {
    hide CellText, Untitled, Solid, WordText;
    HumanTexts();
    NormCarries(StartedRow(k, AgentOf(item, A), None));
    DashIsUntitled();
  }

  lemma DashIsUntitled()
    ensures Untitled("-")
  {
    NoHashUntitled("-");
  }

  lemma ResultCarries(item: Item, k: Key, A: Agents)
    requires CarriesItem(item, A) && k.item == item.id && k.phase in PHASES
    ensures CarriesPhase(ResultRow(item, k, A))
  {
    hide CellText, Untitled, Solid, WordText;
    HumanTexts();
    InFlightCarries(item, k, A);
    DashIsUntitled();
    var started := Some(InFlight(item, k, A));
    if item.human {
      NormCarries(CompletedRow(started, k, "pending-human", "PENDING", 0, None));
    } else {
      match A.outcome(k)
      case Done(o, v, n) => NormCarries(CompletedRow(started, k, o, v, n, None));
      case Raised(e) => NormCarries(FailedRow(started, k, e, None));
    }
  }

  lemma GroupRowCarries(mode: string, before: Option<ItemPhaseStatus>, items: seq<Item>, k: Key, A: Agents)
    requires CarriesRow(before) && CarriesItems(items, A)
    ensures CarriesRow(GroupRow(mode, before, items, k, A))
  {
    hide CarriesPhase, CarriesItem, ResultRow, InFlight, Reached;
    var j := IndexOf(items, k.item);
    if j < |items| && Runs(mode, before, items[j], k, A) {
      PhaseNumbers();
      InFlightCarries(items[j], k, A);
      ResultCarries(items[j], k, A);
    }
  }

  lemma MidRowCarries(mode: string, before: Option<ItemPhaseStatus>, now: Option<ItemPhaseStatus>, items: seq<Item>, k: Key, A: Agents)
    requires CarriesRow(before) && CarriesItems(items, A) && MidRow(mode, before, now, items, k, A)
    ensures CarriesRow(now)
  {
    hide CarriesPhase, CarriesItem, ResultRow, InFlight, Reached, GroupRow;
    GroupRowCarries(mode, before, items, k, A);
    var j := IndexOf(items, k.item);
    if j < |items| && Runs(mode, before, items[j], k, A) {
      PhaseNumbers();
      InFlightCarries(items[j], k, A);
    }
  }

  ghost predicate CarriesRows(b: map<Key, ItemPhaseStatus>) { forall k :: CarriesRow(Lookup(b, k)) }

  lemma AfterCarries(g: Group, b: map<Key, ItemPhaseStatus>, A: Agents)
    requires CarriesRows(b) && CarriesItems(g.items, A)
    ensures CarriesRows(After(g, b, A))
  {
    hide CarriesRow, CarriesItem, GroupRow, EffectiveMode, AfterGroup;
    var mode := EffectiveMode(g);
    forall k ensures CarriesRow(Lookup(After(g, b, A), k)) {
      AfterGroupRow(mode, b, g.items, A, k);
      GroupRowCarries(mode, Lookup(b, k), g.items, k, A);
    }
  }

  lemma {:induction false} MidPlanCarries(b: map<Key, ItemPhaseStatus>, h: map<Key, ItemPhaseStatus>, plan: seq<Group>, A: Agents)
    requires CarriesRows(b) && CarriesPlan(plan, A) && MidPlan(b, h, plan, A)
    ensures CarriesRows(h)
    decreases |plan|
  {
    hide CarriesRow, CarriesItems, MidRow, EffectiveMode, After, GatePasses, CellText, DistinctIds;
    var g := plan[0];
    if MidGroup(EffectiveMode(g), b, h, g.items, A) {
      forall k ensures CarriesRow(Lookup(h, k)) {
        MidRowCarries(EffectiveMode(g), Lookup(b, k), Lookup(h, k), g.items, k, A);
      }
    } else {
      AfterCarries(g, b, A);
      MidPlanCarries(After(g, b, A), h, plan[1..], A);
    }
  }

  lemma BareCarries(L: Ledger)
    ensures CarriesPhases(L) <==> CarriesRows(Bare(L.phases))
  {
    hide CarriesPhase, NormPhase;
    forall k | k in L.phases ensures CarriesPhase(NormPhase(L.phases[k])) <==> CarriesPhase(L.phases[k]) {
      NormCarries(L.phases[k]);
    }
    if CarriesRows(Bare(L.phases)) {
      forall k | k in L.phases ensures CarriesPhase(L.phases[k]) {
        assert CarriesRow(Lookup(Bare(L.phases), k));
      }
    }
  }

  lemma GateIsStorable(g: Group, b: map<Key, ItemPhaseStatus>, A: Agents)
    requires CellText(g.name) && DistinctIds(g.items)
    ensures StorableGate(GateOf(g, b, A)) && GateOf(g, b, A).groupName == g.name
  {
    hide CellText, EffectiveMode, CompletedItems, FailedItems, HumanItems;
    HumanTexts();
    Accounting(EffectiveMode(g), b, g.items, A);
  }

  /** A plan whose group names no heading or section title hides. */
  ghost predicate VisibleNames(plan: seq<Group>) {
    forall g :: g in plan ==> !StartsWith(g.name, "Group") && !StartsWith(g.name, "Item ID") && Untitled(g.name)
  }

  /** Every state a run writes can be resumed from its file when the ids, names, outputs, verdicts and errors of the
      plan and the ledger it starts from can be carried; and it comes back whole, gates too, when moreover the
      group names are none that the loader skips. */
  lemma WrittenStatesCarry(start: Ledger, h: Ledger, plan: seq<Group>, A: Agents)
    requires CarriesPlan(plan, A) && MidPlan(Bare(start.phases), Bare(h.phases), plan, A) && GatesFrom(start.gates, h.gates, plan, A)
    requires CarriesPhases(start) && StorableGates(start)
    ensures CarriesPhases(h) && StorableGates(h)
    ensures Carryable(start) && VisibleNames(plan) ==> Carryable(h)
  {
    hide CarriesPhase, StorableGate, MidPlan, CarriesItems, DistinctIds, CellText, GateOf, Untitled, Bare;
    BareCarries(start);
    BareCarries(h);
    MidPlanCarries(Bare(start.phases), Bare(h.phases), plan, A);
    forall n | n in h.gates ensures StorableGate(h.gates[n]) {
      if PlanGate(h.gates[n], plan, A) {
        var i, b :| 0 <= i < |plan| && h.gates[n] == GateOf(plan[i], b, A);
        GateIsStorable(plan[i], b, A);
      }
    }
    if Carryable(start) && VisibleNames(plan) {
      forall n | n in h.gates ensures CarriesGate(h.gates[n]) {
        if PlanGate(h.gates[n], plan, A) {
          var i, b :| 0 <= i < |plan| && h.gates[n] == GateOf(plan[i], b, A);
          GateIsStorable(plan[i], b, A);
          assert plan[i] in plan;
        }
      }
    }
  }

  /** So a crash is invisible through the file, from the run's inputs alone: after any write, load and run again. */
  lemma ResumeAfterCrash(start: Ledger, h: Ledger, stamp: string, plan: seq<Group>, A: Agents)
    requires DistinctPlan(plan) && CarriesPlan(plan, A) && CarriesPhases(start) && StorableGates(start) && IsoStamp(stamp)
    requires h.Keyed() && MidPlan(Bare(start.phases), Bare(h.phases), plan, A) && GatesFrom(start.gates, h.gates, plan, A)
    ensures var back := Load(Save(h, stamp));
            SameRun(RunPlan(Bare(back.phases), back.gates, plan, A), RunPlan(Bare(start.phases), start.gates, plan, A))
  {
    hide CarriesPlan, CarriesPhases, StorableGates, MidPlan, GatesFrom, DistinctPlan, Bare, Save, Load, RunPlan, Carryable, VisibleNames;
    WrittenStatesCarry(start, h, plan, A);
    ResumeFromFile(start, h, stamp, plan, A);
  }

  // ---- calls ----

  /** The pairs of the first `n` groups that need a call, judged by the rows the run starts from. */
  function DueCalls(b: map<Key, ItemPhaseStatus>, plan: seq<Group>, n: nat, A: Agents): set<Key> {
    if n == 0 || plan == [] then {}
    else GroupCalls(EffectiveMode(plan[0]), b, plan[0].items, A) + DueCalls(b, plan[1..], n - 1, A)
  }

  lemma CallsAreOwn(mode: string, b: map<Key, ItemPhaseStatus>, items: seq<Item>, A: Agents, k: Key)
    ensures k in GroupCalls(mode, b, items, A) ==> exists x :: x in items && x.id == k.item
  {
  }

  lemma {:induction false} DueElsewhere(b: map<Key, ItemPhaseStatus>, plan: seq<Group>, n: nat, A: Agents, k: Key)
    requires Elsewhere(plan, k.item)
    ensures k !in DueCalls(b, plan, n, A)
    decreases |plan|
  {
    hide GroupCalls, EffectiveMode;
    if n > 0 && plan != [] {
      assert plan[0] in plan;
      assert forall g :: g in plan[1..] ==> g in plan;
      CallsAreOwn(EffectiveMode(plan[0]), b, plan[0].items, A, k);
      DueElsewhere(b, plan[1..], n - 1, A, k);
    }
  }

  lemma SameCalls(mode: string, b: map<Key, ItemPhaseStatus>, c: map<Key, ItemPhaseStatus>, items: seq<Item>, A: Agents)
    requires forall i, p :: i in items && p in PHASES ==> Lookup(c, Key(i.id, p)) == Lookup(b, Key(i.id, p))
    ensures GroupCalls(mode, c, items, A) == GroupCalls(mode, b, items, A)
  {
    hide Runs;
    forall i, p | i in items && p in PHASES
      ensures Runs(mode, Lookup(c, Key(i.id, p)), i, Key(i.id, p), A) == Runs(mode, Lookup(b, Key(i.id, p)), i, Key(i.id, p), A)
    {
    }
  }

  /** Running the first group leaves the calls due in the others as they were. */
  lemma {:induction false} DueUnmoved(b: map<Key, ItemPhaseStatus>, g: Group, rest: seq<Group>, n: nat, A: Agents)
    requires forall r, x, y :: r in rest && x in g.items && y in r.items ==> x.id != y.id
    ensures DueCalls(After(g, b, A), rest, n, A) == DueCalls(b, rest, n, A)
    decreases |rest|
  {
    hide After, GroupCalls, EffectiveMode;
    if n > 0 && rest != [] {
      assert rest[0] in rest;
      assert forall r :: r in rest[1..] ==> r in rest;
      forall i, p | i in rest[0].items && p in PHASES ensures Lookup(After(g, b, A), Key(i.id, p)) == Lookup(b, Key(i.id, p)) {
        AfterElsewhere(g, b, A, Key(i.id, p));
      }
      SameCalls(EffectiveMode(rest[0]), b, After(g, b, A), rest[0].items, A);
      DueUnmoved(b, g, rest[1..], n - 1, A);
    }
  }

  /** A run makes exactly the calls that were due when it started in the groups it attempts, each once. */
  lemma {:induction false} CallsAreDue(b: map<Key, ItemPhaseStatus>, gates: map<string, GroupGateResult>, plan: seq<Group>, A: Agents)
    requires DistinctPlan(plan)
    ensures RunCalls(b, plan, A) == multiset(DueCalls(b, plan, RunPlan(b, gates, plan, A).attempted, A))
    decreases |plan|
  {
    hide After, GateOf, GatePasses, CompletedItems, FailedItems, HumanItems, EffectiveMode, GroupCalls, DistinctIds;
    if plan != [] {
      var g, rest := plan[0], plan[1..];
      var now := GroupCalls(EffectiveMode(g), b, g.items, A);
      if GatePasses(g, b, A) {
        var b1, gates1 := After(g, b, A), gates[g.name := GateOf(g, b, A)];
        var n := RunPlan(b1, gates1, rest, A).attempted;
        CallsAreDue(b1, gates1, rest, A);
        DueUnmoved(b, g, rest, n, A);
        var later := DueCalls(b, rest, n, A);
        forall k | k in now ensures k !in later {
          CallsAreOwn(EffectiveMode(g), b, g.items, A, k);
          DueElsewhere(b, rest, n, A, k);
        }
        assert now !! later;
        assert RunPlan(b, gates, plan, A).attempted == n + 1;
      } else {
        assert DueCalls(b, rest, 0, A) == {};
      }
    }
  }

  predicate AllSynchronised(plan: seq<Group>) { forall g :: g in plan ==> EffectiveMode(g) == "phase_sync" }

  lemma {:induction false} DueNotPassed(b: map<Key, ItemPhaseStatus>, plan: seq<Group>, n: nat, A: Agents, k: Key)
    requires AllSynchronised(plan) && k in DueCalls(b, plan, n, A)
    ensures !HasPassed(Lookup(b, k))
    decreases |plan|
  {
    hide EffectiveMode;
    assert plan[0] in plan;
    assert forall g :: g in plan[1..] ==> g in plan;
    if k !in GroupCalls(EffectiveMode(plan[0]), b, plan[0].items, A) {
      DueNotPassed(b, plan[1..], n - 1, A, k);
    }
  }

  /** What is recorded as passed when a synchronised plan starts is never executed. */
  lemma PassedIsNeverRepeated(b: map<Key, ItemPhaseStatus>, gates: map<string, GroupGateResult>, plan: seq<Group>, A: Agents, k: Key)
    requires DistinctPlan(plan) && AllSynchronised(plan) && HasPassed(Lookup(b, k))
    ensures RunCalls(b, plan, A)[k] == 0
  {
    hide DistinctPlan, AllSynchronised, HasPassed;
    CallsAreDue(b, gates, plan, A);
    var n := RunPlan(b, gates, plan, A).attempted;
    if k in DueCalls(b, plan, n, A) {
      DueNotPassed(b, plan, n, A, k);
    }
  }

  // ---- running again ----

  lemma {:induction false} FinalIsMid(b: map<Key, ItemPhaseStatus>, gates: map<string, GroupGateResult>, plan: seq<Group>, A: Agents)
    requires plan != []
    ensures MidPlan(b, RunPlan(b, gates, plan, A).phases, plan, A)
    decreases |plan|
  {
    hide MidGroup, AfterGroup, GateOf, GatePasses, CompletedItems, FailedItems, HumanItems, EffectiveMode;
    var g, rest := plan[0], plan[1..];
    MidEnd(EffectiveMode(g), b, g.items, A);
    if GatePasses(g, b, A) && rest != [] {
      FinalIsMid(After(g, b, A), gates[g.name := GateOf(g, b, A)], rest, A);
    }
  }

  /** Running a plan twice is running it once: same rows, same counts. */
  lemma RunAgain(b: map<Key, ItemPhaseStatus>, gates: map<string, GroupGateResult>, plan: seq<Group>, A: Agents)
    requires DistinctPlan(plan)
    ensures var r := RunPlan(b, gates, plan, A); SameRun(RunPlan(r.phases, r.gates, plan, A), r)
  {
    hide MidPlan, DistinctPlan;
    var r := RunPlan(b, gates, plan, A);
    if plan != [] {
      FinalIsMid(b, gates, plan, A);
      CrashIsInvisible(b, gates, r.phases, r.gates, plan, A);
    }
  }

  lemma {:induction false} DueIsOwn(b: map<Key, ItemPhaseStatus>, plan: seq<Group>, n: nat, A: Agents, k: Key)
    requires k in DueCalls(b, plan, n, A)
    ensures exists g, i, p :: g in plan && i in g.items && !i.human && p in PHASES && k == Key(i.id, p)
    decreases |plan|
  {
    hide EffectiveMode;
    if k in GroupCalls(EffectiveMode(plan[0]), b, plan[0].items, A) {
      var i, p :| i in plan[0].items && p in PHASES && !i.human && k == Key(i.id, p);
      assert plan[0] in plan;
    } else {
      DueIsOwn(b, plan[1..], n - 1, A, k);
      var g, i, p :| g in plan[1..] && i in g.items && !i.human && p in PHASES && k == Key(i.id, p);
      assert g in plan;
    }
  }

  /** Once every AI phase has passed, a synchronised plan makes no adapter call at all. */
  lemma NothingLeftToCall(b: map<Key, ItemPhaseStatus>, plan: seq<Group>, A: Agents)
    requires DistinctPlan(plan) && AllSynchronised(plan)
    requires forall g, i, p :: g in plan && i in g.items && !i.human && p in PHASES ==> HasPassed(Lookup(b, Key(i.id, p)))
    ensures RunCalls(b, plan, A) == multiset{}
  {
    hide DistinctPlan, AllSynchronised, HasPassed;
    CallsAreDue(b, map[], plan, A);
    var n := RunPlan(b, map[], plan, A).attempted;
    forall k ensures k !in DueCalls(b, plan, n, A) {
      if k in DueCalls(b, plan, n, A) {
        DueIsOwn(b, plan, n, A, k);
        DueNotPassed(b, plan, n, A, k);
      }
    }
    assert DueCalls(b, plan, n, A) == {};
  }

  // ---- gates and counts ----

  predicate DistinctNames(plan: seq<Group>) { forall i, j :: 0 <= i < j < |plan| ==> plan[i].name != plan[j].name }

  predicate GateHas(gates: map<string, GroupGateResult>, name: string, status: string) {
    name in gates && gates[name].status == status
  }

  lemma GateStatus(g: Group, b: map<Key, ItemPhaseStatus>, A: Agents)
    ensures GateOf(g, b, A).status == if GatePasses(g, b, A) then "passed" else "failed"
  {
    hide After, EffectiveMode, CompletedItems, FailedItems, HumanItems;
  }

  predicate NotAmong(plan: seq<Group>, name: string) { forall i :: 0 <= i < |plan| ==> plan[i].name != name }

  lemma NotAmongRest(plan: seq<Group>, n: nat, name: string)
    requires 0 < n <= |plan| && NotAmong(plan[..n], name)
    ensures plan[0].name != name && NotAmong(plan[1..][..n - 1], name)
  {
    assert plan[..n][0] == plan[0];
    var later := plan[1..][..n - 1];
    forall i | 0 <= i < n - 1 ensures later[i].name != name { assert later[i] == plan[..n][i + 1]; }
  }

  lemma FirstIsNoOther(plan: seq<Group>, n: nat)
    requires DistinctNames(plan) && plan != [] && n <= |plan| - 1
    ensures NotAmong(plan[1..][..n], plan[0].name)
  {
    var later := plan[1..][..n];
    forall i | 0 <= i < n ensures later[i].name != plan[0].name { assert later[i] == plan[i + 1]; }
  }

  lemma SameLookup(a: map<string, GroupGateResult>, b: map<string, GroupGateResult>, name: string)
    requires Lookup(a, name) == Lookup(b, name) && name in b
    ensures name in a && a[name] == b[name]
  {
  }

  lemma OtherLookup(gates: map<string, GroupGateResult>, name: string, gate: GroupGateResult, other: string)
    requires other != name
    ensures Lookup(gates[name := gate], other) == Lookup(gates, other)
  {
  }

  /** What the first group of a plan adds to the rest of the run. */
  lemma FirstGate(b: map<Key, ItemPhaseStatus>, gates: map<string, GroupGateResult>, plan: seq<Group>, A: Agents)
    requires plan != []
    ensures var r, g := RunPlan(b, gates, plan, A), plan[0];
            var gates1 := gates[g.name := GateOf(g, b, A)];
            if GatePasses(g, b, A) then
              var s := RunPlan(After(g, b, A), gates1, plan[1..], A);
              r.gates == s.gates && r.attempted == s.attempted + 1 && r.passed == s.passed + 1
            else r.gates == gates1 && r.attempted == 1 && r.passed == 0
  {
    hide After, EffectiveMode, CompletedItems, FailedItems, HumanItems, GateOf, GatePasses;
  }

  /** The gates written are those of an initial segment of the plan; all of them passed but possibly
      the last, and only a failed one stops the run. */
  lemma {:induction false} GatesOfRun(b: map<Key, ItemPhaseStatus>, gates: map<string, GroupGateResult>, plan: seq<Group>, A: Agents)
    requires DistinctNames(plan)
    ensures var r := RunPlan(b, gates, plan, A);
            && r.passed <= r.attempted <= r.passed + 1 && r.attempted <= |plan|
            && (r.attempted == r.passed <==> r.passed == |plan|)
            && (forall i :: 0 <= i < r.attempted ==> GateHas(r.gates, plan[i].name, if i < r.passed then "passed" else "failed"))
            && (forall n :: NotAmong(plan[..r.attempted], n) ==> Lookup(r.gates, n) == Lookup(gates, n))
    decreases |plan|
  {
    hide After, EffectiveMode, CompletedItems, FailedItems, HumanItems, GateOf, GatePasses;
    if plan != [] {
      hide RunPlan, Lookup;
      var g, rest := plan[0], plan[1..];
      var r := RunPlan(b, gates, plan, A);
      FirstGate(b, gates, plan, A);
      GateStatus(g, b, A);
      if GatePasses(g, b, A) {
        var gates1 := gates[g.name := GateOf(g, b, A)];
        var s := RunPlan(After(g, b, A), gates1, rest, A);
        GatesOfRun(After(g, b, A), gates1, rest, A);
        forall i | 0 <= i < r.attempted
          ensures GateHas(r.gates, plan[i].name, if i < r.passed then "passed" else "failed")
        {
          if i > 0 {
            assert plan[i] == rest[i - 1];
          } else {
            FirstIsNoOther(plan, s.attempted);
            SameLookup(s.gates, gates1, g.name);
          }
        }
        forall n | NotAmong(plan[..r.attempted], n) ensures Lookup(r.gates, n) == Lookup(gates, n) {
          NotAmongRest(plan, r.attempted, n);
          OtherLookup(gates, g.name, GateOf(g, b, A), n);
        }
      } else {
        forall n | NotAmong(plan[..1], n) ensures Lookup(r.gates, n) == Lookup(gates, n) {
          NotAmongRest(plan, 1, n);
          OtherLookup(gates, g.name, GateOf(g, b, A), n);
        }
      }
    }
  }

  /** Every item of every attempted group is counted exactly once; the report says "complete" exactly
      when every group was attempted and passed. */
  lemma {:induction false} CountsOfRun(b: map<Key, ItemPhaseStatus>, gates: map<string, GroupGateResult>, plan: seq<Group>, A: Agents)
    requires forall g :: g in plan ==> DistinctIds(g.items)
    ensures var r := RunPlan(b, gates, plan, A);
            && r.passed <= r.attempted <= |plan|
            && r.completed + r.failed + r.human == ItemsTotal(plan[..r.attempted])
            && (r.failed == 0 <==> r.passed == |plan|)
            && (ResultOf(r, plan).status == "complete" <==> r.failed == 0)
    decreases |plan|
  {
    hide After, EffectiveMode, CompletedItems, FailedItems, HumanItems, DistinctIds;
    if plan != [] {
      var g, rest := plan[0], plan[1..];
      var r := RunPlan(b, gates, plan, A);
      assert g in plan;
      Accounting(EffectiveMode(g), b, g.items, A);
      GateCounts(g, b, A);
      assert forall x :: x in rest ==> x in plan;
      if GatePasses(g, b, A) {
        CountsOfRun(After(g, b, A), gates[g.name := GateOf(g, b, A)], rest, A);
        assert plan[..r.attempted][1..] == rest[..r.attempted - 1];
      } else {
        assert plan[..1][1..] == [] && ItemsTotal([]) == 0;
      }
    }
  }

  lemma GateCounts(g: Group, b: map<Key, ItemPhaseStatus>, A: Agents)
    ensures GatePasses(g, b, A) <==> |FailedItems(EffectiveMode(g), b, g.items, A)| == 0
  {
    hide FailedItems, EffectiveMode, CompletedItems, HumanItems;
  }

  // ---- what a passed gate promises ----

  ghost predicate GroupComplete(items: seq<Item>, b: map<Key, ItemPhaseStatus>) {
    forall i, p :: i in items && p in PHASES ==> HasPassed(Lookup(b, Key(i.id, p)))
  }

  lemma RowAfter(g: Group, b: map<Key, ItemPhaseStatus>, A: Agents, i: Item, p: string)
    requires DistinctIds(g.items) && i in g.items
    ensures Lookup(After(g, b, A), Key(i.id, p)) == FinalRow(EffectiveMode(g), Lookup(b, Key(i.id, p)), i, Key(i.id, p), A)
  {
    var n :| 0 <= n < |g.items| && g.items[n] == i;
    IndexIs(g.items, n);
    AfterGroupRow(EffectiveMode(g), b, g.items, A, Key(i.id, p));
  }

  /** When does a phase end up passed? */
  lemma PassedAfter(mode: string, before: Option<ItemPhaseStatus>, i: Item, k: Key, A: Agents)
    requires PhaseNo(k.phase) < 4 && k.item == i.id
    ensures i.human ==> HasPassed(FinalRow(mode, before, i, k, A))
    ensures !i.human && mode != "independent" ==>
              (HasPassed(FinalRow(mode, before, i, k, A)) <==> HasPassed(before) || A.outcome(k).Done?)
    ensures !i.human && mode == "independent" && Reached(i.id, PhaseNo(k.phase), A) ==>
              (HasPassed(FinalRow(mode, before, i, k, A)) <==> A.outcome(k).Done?)
  {
  }

  /** An independent group whose gate passed has every phase of every item passed. */
  lemma IndependentGateMeansComplete(g: Group, b: map<Key, ItemPhaseStatus>, A: Agents)
    requires DistinctIds(g.items) && EffectiveMode(g) == "independent" && GatePasses(g, b, A)
    ensures GroupComplete(g.items, After(g, b, A))
  {
    PhaseNumbers();
    forall i, p | i in g.items && p in PHASES ensures HasPassed(Lookup(After(g, b, A), Key(i.id, p))) {
      RowAfter(g, b, A, i, p);
      PassedAfter("independent", Lookup(b, Key(i.id, p)), i, Key(i.id, p), A);
      if !i.human {
        assert i !in FailedItems("independent", b, g.items, A);
        assert Reached(i.id, 4, A);
        assert A.outcome(Key(i.id, PHASES[PhaseNo(p)])).Done?;
      }
    }
  }

  /** A synchronised group's gate passes exactly when every AI item's review is passed afterwards. */
  lemma SyncGateIsReview(g: Group, b: map<Key, ItemPhaseStatus>, A: Agents)
    requires DistinctIds(g.items) && EffectiveMode(g) == "phase_sync"
    ensures GatePasses(g, b, A) <==>
              forall i :: i in g.items && !i.human ==> HasPassed(Lookup(After(g, b, A), Key(i.id, "review")))
  {
    hide After, EffectiveMode, HasPassed;
    forall i | i in g.items && !i.human
      ensures HasPassed(Lookup(After(g, b, A), Key(i.id, "review"))) <==> Succeeds("phase_sync", b, i, A)
    {
      RowAfter(g, b, A, i, "review");
      PassedAfter("phase_sync", Lookup(b, Key(i.id, "review")), i, Key(i.id, "review"), A);
    }
    assert FailedItems("phase_sync", b, g.items, A) == {} <==> forall i :: i in g.items && !i.human ==> Succeeds("phase_sync", b, i, A) by {
      assert forall i :: i in g.items && !i.human && !Succeeds("phase_sync", b, i, A) ==> i in FailedItems("phase_sync", b, g.items, A);
    }
  }

  /** A synchronised group is complete afterwards exactly when no AI phase raised that had not passed before. */
  lemma SyncCompleteIff(g: Group, b: map<Key, ItemPhaseStatus>, A: Agents)
    requires DistinctIds(g.items) && EffectiveMode(g) == "phase_sync"
    ensures GroupComplete(g.items, After(g, b, A)) <==>
              forall i, p :: i in g.items && !i.human && p in PHASES ==>
                HasPassed(Lookup(b, Key(i.id, p))) || A.outcome(Key(i.id, p)).Done?
  {
    hide After, EffectiveMode, HasPassed;
    PhaseNumbers();
    forall i, p | i in g.items && p in PHASES
      ensures HasPassed(Lookup(After(g, b, A), Key(i.id, p))) <==>
                i.human || HasPassed(Lookup(b, Key(i.id, p))) || A.outcome(Key(i.id, p)).Done?
    {
      RowAfter(g, b, A, i, p);
      PassedAfter("phase_sync", Lookup(b, Key(i.id, p)), i, Key(i.id, p), A);
    }
  }

  /** A synchronised gate can pass over a failed phase: tests raise, the review succeeds. */
  lemma SyncGateCanHideAFailure() returns (g: Group, A: Agents)
    ensures EffectiveMode(g) == "phase_sync" && DistinctIds(g.items)
    ensures GatePasses(g, map[], A) && !GroupComplete(g.items, After(g, map[], A))
  {
    var item := Item("A1", false, []);
    g := Group("Group 1", [item], "phase_sync");
    A := Agents("default", (k: Key) => if k.phase == "tests" then Raised("boom") else Done("out", "PASS", 1));
    var failed := FailedItems("phase_sync", map[], g.items, A);
    assert failed == {};
    SyncCompleteIff(g, map[], A);
    assert item in g.items && "tests" in PHASES && Lookup<Key, ItemPhaseStatus>(map[], Key(item.id, "tests")).None?;
    assert A.outcome(Key(item.id, "tests")).Raised?;
  }
}
