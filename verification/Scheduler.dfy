/** What a scheduler run must leave behind, said without any order of events: the row each
    (item, phase) ends with, the calls made, the gates written. */
module Scheduler {
  import opened Text
  import opened LedgerText
  import opened LedgerRoundTrip
  import opened LedgerRecords

  /** `ExecutionItem`; `human` is `assignee_type == "Human"`. */
  datatype Item = Item(id: string, human: bool, files: seq<string>)

  /** What the adapters make of one phase of one item. */
  datatype Outcome = Done(output: string, validation: string, iterations: int) | Raised(error: string)

  /** The run's constants: the generating adapter's name and the outcome of each (item, phase). */
  datatype Agents = Agents(name: string, outcome: Key -> Outcome)

  datatype Group = Group(name: string, items: seq<Item>, mode: string)

  predicate DistinctIds(items: seq<Item>) { forall i, j :: 0 <= i < j < |items| ==> items[i].id != items[j].id }

  function PhaseNo(phase: string): nat {
    if phase == "tests" then 0 else if phase == "plan" then 1 else if phase == "code" then 2
    else if phase == "review" then 3 else 4
  }

  function ItemKey(item: Item, p: nat): Key
    requires p < 4
  {
    Key(item.id, PHASES[p])
  }

  lemma PhaseNumbers()
    ensures |PHASES| == 4
    ensures forall p :: 0 <= p < 4 ==> PhaseNo(PHASES[p]) == p
    ensures forall s :: PhaseNo(s) < 4 ==> PHASES[PhaseNo(s)] == s && s in PHASES
    ensures forall s :: s in PHASES ==> PhaseNo(s) < 4
  {
  }

  // ---- rows, as the ledger file keeps them ----

  /** The rows without times, blank cells read as missing. */
  function Bare(m: map<Key, ItemPhaseStatus>): map<Key, ItemPhaseStatus> { map k | k in m :: NormPhase(m[k]) }

  function AgentOf(item: Item, A: Agents): string { if item.human then "human" else A.name }

  /** The row of a call in flight. */
  function InFlight(item: Item, k: Key, A: Agents): ItemPhaseStatus { NormPhase(StartedRow(k, AgentOf(item, A), None)) }

  /** The row left by a call that was recorded. */
  function ResultRow(item: Item, k: Key, A: Agents): ItemPhaseStatus {
    var started := Some(InFlight(item, k, A));
    if item.human then NormPhase(CompletedRow(started, k, "pending-human", "PENDING", 0, None)) else
    match A.outcome(k)
    case Done(o, v, n) => NormPhase(CompletedRow(started, k, o, v, n, None))
    case Raised(e) => NormPhase(FailedRow(started, k, e, None))
  }

  predicate HasPassed(r: Option<ItemPhaseStatus>) { r.Some? && r.value.status == "passed" }

  /** Independent mode gets to phase `n` of an item when no earlier phase of it raised. */
  predicate Reached(id: string, n: nat, A: Agents)
    requires n <= 4
  {
    forall q :: 0 <= q < n ==> A.outcome(Key(id, PHASES[q])).Done?
  }

  /** Does this group's run start (and so possibly overwrite) the row? */
  predicate Runs(mode: string, before: Option<ItemPhaseStatus>, item: Item, k: Key, A: Agents) {
    && PhaseNo(k.phase) < 4
    && (item.human || (if mode == "independent" then Reached(k.item, PhaseNo(k.phase), A) else !HasPassed(before)))
  }

  /** The row an item's phase ends with. An exception in independent mode leaves the row running. */
  function FinalRow(mode: string, before: Option<ItemPhaseStatus>, item: Item, k: Key, A: Agents): Option<ItemPhaseStatus> {
    if !Runs(mode, before, item, k, A) then before
    else if mode == "independent" && !item.human && A.outcome(k).Raised? then Some(InFlight(item, k, A))
    else Some(ResultRow(item, k, A))
  }

  /** Position of the item with this id, or the number of items. */
  function IndexOf(items: seq<Item>, id: string): (j: nat)
    ensures j <= |items| && (j < |items| ==> items[j].id == id)
    ensures forall n :: 0 <= n < j ==> items[n].id != id
  {
    if items == [] then 0 else if items[0].id == id then 0 else
      var j := IndexOf(items[1..], id);
      assert forall n :: 1 <= n < j + 1 ==> items[n] == items[1..][n - 1];
      j + 1
  }

  lemma IndexIs(items: seq<Item>, n: nat)
    requires DistinctIds(items) && n < |items|
    ensures IndexOf(items, items[n].id) == n
  {
  }

  function GroupRow(mode: string, before: Option<ItemPhaseStatus>, items: seq<Item>, k: Key, A: Agents): Option<ItemPhaseStatus> {
    var j := IndexOf(items, k.item);
    if j < |items| then FinalRow(mode, before, items[j], k, A) else before
  }

  function GroupKeys(items: seq<Item>): set<Key> { set i, p | i in items && p in PHASES :: Key(i.id, p) }

  /** The ledger rows after a group has run. */
  function AfterGroup(mode: string, b: map<Key, ItemPhaseStatus>, items: seq<Item>, A: Agents): map<Key, ItemPhaseStatus> {
    map k | k in b.Keys + GroupKeys(items) && GroupRow(mode, Lookup(b, k), items, k, A).Some? ::
      GroupRow(mode, Lookup(b, k), items, k, A).value
  }

  lemma AfterGroupRow(mode: string, b: map<Key, ItemPhaseStatus>, items: seq<Item>, A: Agents, k: Key)
    ensures Lookup(AfterGroup(mode, b, items, A), k) == GroupRow(mode, Lookup(b, k), items, k, A)
  {
    if k !in b && GroupRow(mode, Lookup(b, k), items, k, A).Some? {
      PhaseNumbers();
      assert k == Key(items[IndexOf(items, k.item)].id, k.phase);
    }
  }

  /** Rows that agree pointwise with the specification are the specification. */
  lemma FromRows(mode: string, b: map<Key, ItemPhaseStatus>, c: map<Key, ItemPhaseStatus>, items: seq<Item>, A: Agents)
    requires forall k :: Lookup(c, k) == GroupRow(mode, Lookup(b, k), items, k, A)
    ensures c == AfterGroup(mode, b, items, A)
  {
    hide GroupRow;
    var d := AfterGroup(mode, b, items, A);
    forall k ensures Lookup(c, k) == Lookup(d, k) {
      AfterGroupRow(mode, b, items, A, k);
    }
    assert forall k :: k in c <==> Lookup(c, k).Some?;
    assert forall k :: k in d <==> Lookup(d, k).Some?;
    assert forall k :: k in c ==> c[k] == Lookup(c, k).value;
    assert forall k :: k in d ==> d[k] == Lookup(d, k).value;
  }

  // ---- counts, gates ----

  /** Does the group count this item as completed? Phase-synchronised groups look at the review only. */
  predicate Succeeds(mode: string, b: map<Key, ItemPhaseStatus>, item: Item, A: Agents) {
    if mode == "independent" then Reached(item.id, 4, A)
    else HasPassed(Lookup(b, Key(item.id, "review"))) || A.outcome(Key(item.id, "review")).Done?
  }

  function HumanItems(items: seq<Item>): set<Item> { set i | i in items && i.human }

  function CompletedItems(mode: string, b: map<Key, ItemPhaseStatus>, items: seq<Item>, A: Agents): set<Item> {
    set i | i in items && !i.human && Succeeds(mode, b, i, A)
  }

  function FailedItems(mode: string, b: map<Key, ItemPhaseStatus>, items: seq<Item>, A: Agents): set<Item> {
    set i | i in items && !i.human && !Succeeds(mode, b, i, A)
  }

  lemma {:induction false} DistinctCount(items: seq<Item>)
    requires DistinctIds(items)
    ensures |set i | i in items| == |items|
  {
    if items != [] {
      DistinctCount(items[1..]);
      assert (set i | i in items) == {items[0]} + (set i | i in items[1..]);
      assert items[0] !in items[1..];
    }
  }

  /** Every item is counted once: completed, failed or human. */
  lemma Accounting(mode: string, b: map<Key, ItemPhaseStatus>, items: seq<Item>, A: Agents)
    requires DistinctIds(items)
    ensures |CompletedItems(mode, b, items, A)| + |FailedItems(mode, b, items, A)| + |HumanItems(items)| == |items|
  {
    hide Succeeds;
    DistinctCount(items);
    var c, f, h := CompletedItems(mode, b, items, A), FailedItems(mode, b, items, A), HumanItems(items);
    assert (set i | i in items) == c + f + h;
    assert c !! f && (c + f) !! h;
  }

  function Overlap(a: Item, b: Item): set<string> { set f | f in a.files && f in b.files }

  predicate PairwiseDisjoint(items: seq<Item>) {
    forall i, j :: 0 <= i < j < |items| ==> Overlap(items[i], items[j]) == {}
  }

  /** A group whose items share a file is synchronised, whatever mode it asks for. */
  function EffectiveMode(g: Group): string {
    if g.mode == "independent" && PairwiseDisjoint(g.items) then "independent" else "phase_sync"
  }

  /** The mode the group object is left with. */
  function ModeAfter(g: Group): string { if PairwiseDisjoint(g.items) then g.mode else "phase_sync" }

  /** The mode a group runs in and is left with, from the files of its items. */
  lemma ModeIs(g: Group)
    ensures EffectiveMode(g) == "independent" <==>
              g.mode == "independent" && forall i, j, f :: 0 <= i < j < |g.items| && f in g.items[i].files ==> f !in g.items[j].files
    ensures EffectiveMode(g) == "independent" || EffectiveMode(g) == "phase_sync"
    ensures (exists i, j, f :: 0 <= i < j < |g.items| && f in g.items[i].files && f in g.items[j].files) ==> ModeAfter(g) == "phase_sync"
    ensures (forall i, j, f :: 0 <= i < j < |g.items| && f in g.items[i].files ==> f !in g.items[j].files) ==> ModeAfter(g) == g.mode
    ensures EffectiveMode(g) == if ModeAfter(g) == "independent" then "independent" else "phase_sync"
  {
    if !PairwiseDisjoint(g.items) {
      var i, j :| 0 <= i < j < |g.items| && Overlap(g.items[i], g.items[j]) != {};
      var f :| f in Overlap(g.items[i], g.items[j]);
      assert f in g.items[i].files && f in g.items[j].files;
    } else {
      forall i, j, f | 0 <= i < j < |g.items| && f in g.items[i].files ensures f !in g.items[j].files {
        assert f !in Overlap(g.items[i], g.items[j]);
      }
    }
  }

  function GateOf(g: Group, b: map<Key, ItemPhaseStatus>, A: Agents): GroupGateResult {
    var mode := EffectiveMode(g);
    GroupGateResult(g.name, if FailedItems(mode, b, g.items, A) == {} then "passed" else "failed", 0, 0, 0, true,
                    |CompletedItems(mode, b, g.items, A)|, |g.items| - |HumanItems(g.items)|, "")
  }

  // ---- whole runs ----

  datatype Run = Run(phases: map<Key, ItemPhaseStatus>, gates: map<string, GroupGateResult>,
                     attempted: nat, passed: nat, completed: nat, failed: nat, human: nat)

  function After(g: Group, b: map<Key, ItemPhaseStatus>, A: Agents): map<Key, ItemPhaseStatus> {
    AfterGroup(EffectiveMode(g), b, g.items, A)
  }

  predicate GatePasses(g: Group, b: map<Key, ItemPhaseStatus>, A: Agents) { GateOf(g, b, A).status == "passed" }

  /** Groups run in order until a gate fails. */
  function RunPlan(b: map<Key, ItemPhaseStatus>, gates: map<string, GroupGateResult>, plan: seq<Group>, A: Agents): Run
    decreases |plan|
  {
    if plan == [] then Run(b, gates, 0, 0, 0, 0, 0)
    else
      var g, mode := plan[0], EffectiveMode(plan[0]);
      var b1, gates1 := After(g, b, A), gates[g.name := GateOf(g, b, A)];
      var c, f, h := |CompletedItems(mode, b, g.items, A)|, |FailedItems(mode, b, g.items, A)|, |HumanItems(g.items)|;
      if GatePasses(g, b, A) then
        var r := RunPlan(b1, gates1, plan[1..], A);
        r.(attempted := r.attempted + 1, passed := r.passed + 1,
           completed := r.completed + c, failed := r.failed + f, human := r.human + h)
      else Run(b1, gates1, 1, 0, c, f, h)
  }

  datatype ExecutionResult = ExecutionResult(
    status: string, groupsCompleted: nat, groupsTotal: nat, itemsCompleted: nat, itemsTotal: nat,
    itemsFailed: nat, itemsHumanPending: nat)

  function ItemsTotal(plan: seq<Group>): nat { if plan == [] then 0 else |plan[0].items| + ItemsTotal(plan[1..]) }

  /** What a run reports. */
  function ResultOf(run: Run, plan: seq<Group>): ExecutionResult {
    ExecutionResult(if run.passed == |plan| then "complete" else if run.passed > 0 then "partial" else "failed",
                    run.passed, |plan|, run.completed, ItemsTotal(plan), run.failed, run.human)
  }

  /** The adapter calls of one group: each at most once. */
  function GroupCalls(mode: string, b: map<Key, ItemPhaseStatus>, items: seq<Item>, A: Agents): set<Key> {
    set i, p | i in items && p in PHASES && !i.human && Runs(mode, Lookup(b, Key(i.id, p)), i, Key(i.id, p), A) :: Key(i.id, p)
  }

  function RunCalls(b: map<Key, ItemPhaseStatus>, plan: seq<Group>, A: Agents): multiset<Key>
    decreases |plan|
  {
    if plan == [] then multiset{}
    else
      multiset(GroupCalls(EffectiveMode(plan[0]), b, plan[0].items, A)) +
      (if GatePasses(plan[0], b, A) then RunCalls(After(plan[0], b, A), plan[1..], A) else multiset{})
  }
}
