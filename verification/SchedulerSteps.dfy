/** The states a group's run passes through, one recorded event at a time. */
module SchedulerSteps {
  import opened Text
  import opened LedgerText
  import opened LedgerRoundTrip
  import opened LedgerRecords
  import opened Scheduler

  // ---- what an observer of the adapters sees ----

  datatype Event = Submit(k: Key) | Settle(k: Key)

  /** The calls submitted and not yet settled. */
  function Flying(ev: seq<Event>): set<Key> {
    if ev == [] then {} else
      var f := Flying(ev[..|ev| - 1]);
      match ev[|ev| - 1]
      case Submit(k) => f + {k}
      case Settle(k) => f - {k}
  }

  function Submitted(ev: seq<Event>): multiset<Key> {
    if ev == [] then multiset{} else
      var m := Submitted(ev[..|ev| - 1]);
      match ev[|ev| - 1]
      case Submit(k) => m + multiset{k}
      case Settle(_) => m
  }

  /** May `k` be submitted while `other` is in flight? Phase barriers admit only the same phase;
      independent mode admits only other items. */
  predicate Admits(mode: string, other: Key, k: Key) {
    if mode == "independent" then other.item != k.item else other.phase == k.phase
  }

  predicate Fits(mode: string, flying: set<Key>, e: Event) {
    match e
    case Submit(k) => k !in flying && forall other :: other in flying ==> Admits(mode, other, k)
    case Settle(k) => k in flying
  }

  /** Every submission respects the barrier, every call settles at most once, after its submission. */
  predicate Orderly(mode: string, ev: seq<Event>) {
    ev == [] || (Orderly(mode, ev[..|ev| - 1]) && Fits(mode, Flying(ev[..|ev| - 1]), ev[|ev| - 1]))
  }

  /** The order of an item's phases. */
  predicate Precedes(a: string, b: string) {
    || (a == "tests" && b in ["plan", "code", "review"])
    || (a == "plan" && b in ["code", "review"])
    || (a == "code" && b == "review")
  }

  /** May `b` be called after `a`? An item's phases are called in order; under a barrier so are all items'. */
  predicate Later(mode: string, a: Key, b: Key) {
    Precedes(a.phase, b.phase) || (a.item != b.item && (mode == "independent" || a.phase == b.phase))
  }

  ghost predicate InOrder(mode: string, ev: seq<Event>) {
    forall i, j :: 0 <= i < j < |ev| && ev[i].Submit? && ev[j].Submit? ==> Later(mode, ev[i].k, ev[j].k)
  }

  lemma PhaseOrder(p: nat, q: nat)
    requires p < 4 && q < 4
    ensures Precedes(PHASES[p], PHASES[q]) <==> p < q
  {
  }

  lemma {:induction false} SubmittedAt(ev: seq<Event>, i: nat)
    requires i < |ev| && ev[i].Submit?
    ensures ev[i].k in Submitted(ev)
  {
    if i < |ev| - 1 {
      SubmittedAt(ev[..|ev| - 1], i);
    }
  }

  /** A new call keeps the order when it may come after every call made so far. */
  lemma OrderGrows(mode: string, ev: seq<Event>, e: Event)
    requires InOrder(mode, ev)
    requires e.Submit? ==> forall k :: k in Submitted(ev) ==> Later(mode, k, e.k)
    ensures InOrder(mode, ev + [e])
  {
    hide Later, Submitted;
    forall i | 0 <= i < |ev| && ev[i].Submit? ensures ev[i].k in Submitted(ev) {
      SubmittedAt(ev, i);
    }
  }

  lemma Extend(mode: string, ev: seq<Event>, e: Event)
    ensures Flying(ev + [e]) == (match e case Submit(k) => Flying(ev) + {k} case Settle(k) => Flying(ev) - {k})
    ensures Submitted(ev + [e]) == (match e case Submit(k) => Submitted(ev) + multiset{k} case Settle(_) => Submitted(ev))
    ensures Orderly(mode, ev + [e]) <==> (Orderly(mode, ev) && Fits(mode, Flying(ev), e))
  {
    assert (ev + [e])[..|ev + [e]| - 1] == ev;
  }

  // ---- states a group run passes through ----

  /** A row on disk during a group's run: untouched, in flight, or final. */
  predicate MidRow(mode: string, before: Option<ItemPhaseStatus>, now: Option<ItemPhaseStatus>, items: seq<Item>, k: Key, A: Agents) {
    || now == before
    || now == GroupRow(mode, before, items, k, A)
    || (var j := IndexOf(items, k.item);
        j < |items| && Runs(mode, before, items[j], k, A) && now == Some(InFlight(items[j], k, A)))
  }

  ghost predicate MidGroup(mode: string, b: map<Key, ItemPhaseStatus>, cur: map<Key, ItemPhaseStatus>, items: seq<Item>, A: Agents) {
    forall k :: MidRow(mode, Lookup(b, k), Lookup(cur, k), items, k, A)
  }

  lemma MidStart(mode: string, b: map<Key, ItemPhaseStatus>, items: seq<Item>, A: Agents)
    ensures MidGroup(mode, b, b, items, A)
  {
  }

  lemma MidInFlight(mode: string, b: map<Key, ItemPhaseStatus>, cur: map<Key, ItemPhaseStatus>, items: seq<Item>, j: nat, k: Key, A: Agents)
    requires MidGroup(mode, b, cur, items, A)
    requires j < |items| && IndexOf(items, k.item) == j && Runs(mode, Lookup(b, k), items[j], k, A)
    ensures MidGroup(mode, b, cur[k := InFlight(items[j], k, A)], items, A)
  {
    var next := cur[k := InFlight(items[j], k, A)];
    forall x ensures MidRow(mode, Lookup(b, x), Lookup(next, x), items, x, A) {
      assert MidRow(mode, Lookup(b, x), Lookup(cur, x), items, x, A);
    }
  }

  lemma MidFinal(mode: string, b: map<Key, ItemPhaseStatus>, cur: map<Key, ItemPhaseStatus>, items: seq<Item>, k: Key, row: ItemPhaseStatus, A: Agents)
    requires MidGroup(mode, b, cur, items, A)
    requires GroupRow(mode, Lookup(b, k), items, k, A) == Some(row)
    ensures MidGroup(mode, b, cur[k := row], items, A)
  {
    var next := cur[k := row];
    forall x ensures MidRow(mode, Lookup(b, x), Lookup(next, x), items, x, A) {
      assert MidRow(mode, Lookup(b, x), Lookup(cur, x), items, x, A);
    }
  }

  /** A state on disk during a whole run: some prefix of groups has passed, the next one is under way. */
  ghost predicate MidPlan(b: map<Key, ItemPhaseStatus>, cur: map<Key, ItemPhaseStatus>, plan: seq<Group>, A: Agents)
    decreases |plan|
  {
    plan != [] && (
      || MidGroup(EffectiveMode(plan[0]), b, cur, plan[0].items, A)
      || (GatePasses(plan[0], b, A) && MidPlan(After(plan[0], b, A), cur, plan[1..], A)))
  }

  /** A gate that a run of the plan may write. */
  ghost predicate PlanGate(gate: GroupGateResult, plan: seq<Group>, A: Agents) {
    exists i, b :: 0 <= i < |plan| && gate == GateOf(plan[i], b, A)
  }

  /** Each gate is one the run started with or one it may write. */
  ghost predicate GatesFrom(g0: map<string, GroupGateResult>, gates: map<string, GroupGateResult>, plan: seq<Group>, A: Agents) {
    forall name :: name in gates ==> (name in g0 && gates[name] == g0[name]) || PlanGate(gates[name], plan, A)
  }

  lemma MidEnd(mode: string, b: map<Key, ItemPhaseStatus>, items: seq<Item>, A: Agents)
    ensures MidGroup(mode, b, AfterGroup(mode, b, items, A), items, A)
  {
    forall k ensures MidRow(mode, Lookup(b, k), Lookup(AfterGroup(mode, b, items, A), k), items, k, A) {
      AfterGroupRow(mode, b, items, A, k);
    }
  }

  // ---- phase-synchronised progress ----

  /** The row of `k` once phases before `p` are done and, in phase `p`, the first `n` items have been
      seen with the calls of `futures` still in flight. */
  function SyncRow(before: Option<ItemPhaseStatus>, items: seq<Item>, p: nat, n: nat, futures: set<Item>, k: Key, A: Agents): Option<ItemPhaseStatus> {
    var j, q := IndexOf(items, k.item), PhaseNo(k.phase);
    if j == |items| || q > p || (q == p && j >= n) then before
    else if q == p && items[j] in futures then Some(InFlight(items[j], k, A))
    else FinalRow("phase_sync", before, items[j], k, A)
  }

  ghost predicate SyncState(b: map<Key, ItemPhaseStatus>, cur: map<Key, ItemPhaseStatus>, items: seq<Item>, p: nat, n: nat, futures: set<Item>, A: Agents) {
    forall k :: Lookup(cur, k) == SyncRow(Lookup(b, k), items, p, n, futures, k, A)
  }

  lemma SyncStart(b: map<Key, ItemPhaseStatus>, items: seq<Item>, A: Agents)
    ensures SyncState(b, b, items, 0, 0, {}, A)
  {
  }

  lemma SyncNextPhase(b: map<Key, ItemPhaseStatus>, cur: map<Key, ItemPhaseStatus>, items: seq<Item>, p: nat, A: Agents)
    requires SyncState(b, cur, items, p, |items|, {}, A)
    ensures SyncState(b, cur, items, p + 1, 0, {}, A)
  {
    forall k ensures Lookup(cur, k) == SyncRow(Lookup(b, k), items, p + 1, 0, {}, k, A) {
      assert Lookup(cur, k) == SyncRow(Lookup(b, k), items, p, |items|, {}, k, A);
    }
  }

  lemma SyncDone(b: map<Key, ItemPhaseStatus>, cur: map<Key, ItemPhaseStatus>, items: seq<Item>, A: Agents)
    requires SyncState(b, cur, items, 4, 0, {}, A)
    ensures cur == AfterGroup("phase_sync", b, items, A)
  {
    forall k ensures Lookup(cur, k) == GroupRow("phase_sync", Lookup(b, k), items, k, A) {
      assert Lookup(cur, k) == SyncRow(Lookup(b, k), items, 4, 0, {}, k, A);
    }
    FromRows("phase_sync", b, cur, items, A);
  }

  lemma KeyIs(items: seq<Item>, n: nat, p: nat, k: Key)
    requires DistinctIds(items) && n < |items| && p < 4
    ensures k == ItemKey(items[n], p) <==> IndexOf(items, k.item) == n && PhaseNo(k.phase) == p
  {
    IndexIs(items, n);
    PhaseNumbers();
  }

  /** An item whose row is already final: it passed before, or a human's row was just recorded. */
  lemma SyncSeen(b: map<Key, ItemPhaseStatus>, cur: map<Key, ItemPhaseStatus>, next: map<Key, ItemPhaseStatus>,
                 items: seq<Item>, p: nat, n: nat, futures: set<Item>, A: Agents)
    requires DistinctIds(items) && n < |items| && p < 4 && SyncState(b, cur, items, p, n, futures, A)
    requires items[n] !in futures
    requires var k := ItemKey(items[n], p);
             && Lookup(next, k) == FinalRow("phase_sync", Lookup(b, k), items[n], k, A)
             && forall x :: x != k ==> Lookup(next, x) == Lookup(cur, x)
    ensures SyncState(b, next, items, p, n + 1, futures, A)
  {
    forall x ensures Lookup(next, x) == SyncRow(Lookup(b, x), items, p, n + 1, futures, x, A) {
      KeyIs(items, n, p, x);
      assert Lookup(cur, x) == SyncRow(Lookup(b, x), items, p, n, futures, x, A);
    }
  }

  lemma SyncSubmitted(b: map<Key, ItemPhaseStatus>, cur: map<Key, ItemPhaseStatus>, items: seq<Item>, p: nat, n: nat,
                      futures: set<Item>, A: Agents)
    requires DistinctIds(items) && n < |items| && p < 4 && SyncState(b, cur, items, p, n, futures, A)
    requires forall i :: i in futures ==> i in items[..n]
    ensures var k := ItemKey(items[n], p);
            SyncState(b, cur[k := InFlight(items[n], k, A)], items, p, n + 1, futures + {items[n]}, A)
  {
    var k := ItemKey(items[n], p);
    var next := cur[k := InFlight(items[n], k, A)];
    forall x ensures Lookup(next, x) == SyncRow(Lookup(b, x), items, p, n + 1, futures + {items[n]}, x, A) {
      KeyIs(items, n, p, x);
      assert Lookup(cur, x) == SyncRow(Lookup(b, x), items, p, n, futures, x, A);
    }
  }

  lemma SyncSettled(b: map<Key, ItemPhaseStatus>, cur: map<Key, ItemPhaseStatus>, items: seq<Item>, p: nat, j: nat,
                    futures: set<Item>, A: Agents)
    requires DistinctIds(items) && j < |items| && p < 4 && SyncState(b, cur, items, p, |items|, futures, A)
    requires items[j] in futures && Runs("phase_sync", Lookup(b, ItemKey(items[j], p)), items[j], ItemKey(items[j], p), A)
    ensures var k := ItemKey(items[j], p);
            SyncState(b, cur[k := ResultRow(items[j], k, A)], items, p, |items|, futures - {items[j]}, A)
  {
    var k := ItemKey(items[j], p);
    var next := cur[k := ResultRow(items[j], k, A)];
    forall x ensures Lookup(next, x) == SyncRow(Lookup(b, x), items, p, |items|, futures - {items[j]}, x, A) {
      KeyIs(items, j, p, x);
      assert Lookup(cur, x) == SyncRow(Lookup(b, x), items, p, |items|, futures, x, A);
    }
  }

  // ---- independent progress ----

  /** How far each item is: `2 * p` when phase `p` is next, `2 * p + 1` while it runs, 8 at the end. */
  function IndRow(before: Option<ItemPhaseStatus>, items: seq<Item>, step: seq<nat>, k: Key, A: Agents): Option<ItemPhaseStatus>
    requires |step| == |items|
  {
    var j, q := IndexOf(items, k.item), PhaseNo(k.phase);
    if j == |items| || q >= 4 || step[j] <= 2 * q then before
    else if step[j] == 2 * q + 1 then Some(InFlight(items[j], k, A))
    else FinalRow("independent", before, items[j], k, A)
  }

  ghost predicate IndState(b: map<Key, ItemPhaseStatus>, cur: map<Key, ItemPhaseStatus>, items: seq<Item>, step: seq<nat>, A: Agents) {
    |step| == |items| && forall k :: Lookup(cur, k) == IndRow(Lookup(b, k), items, step, k, A)
  }

  /** An item runs its phases in order; it stops at the first exception or after the last phase. */
  predicate Position(item: Item, n: nat, active: bool, A: Agents) {
    && n <= 8 && (active ==> n < 8)
    && (!item.human ==> Reached(item.id, n / 2, A))
    && (!active ==> n == 8 || (!item.human && n % 2 == 1 && A.outcome(ItemKey(item, n / 2)).Raised?))
  }

  ghost predicate Positions(items: seq<Item>, step: seq<nat>, active: set<nat>, A: Agents) {
    && |step| == |items| && (forall j :: j in active ==> j < |items|)
    && forall j :: 0 <= j < |items| ==> Position(items[j], step[j], j in active, A)
  }

  function Below(n: nat): (s: set<nat>)
    ensures forall j: nat :: j in s <==> j < n
  {
    if n == 0 then {} else Below(n - 1) + {n - 1}
  }

  lemma IndStarts(b: map<Key, ItemPhaseStatus>, items: seq<Item>, A: Agents)
    ensures var step := seq(|items|, _ => 0); var active := Below(|items|);
            IndState(b, b, items, step, A) && Positions(items, step, active, A)
  {
  }

  lemma IndStarted(b: map<Key, ItemPhaseStatus>, cur: map<Key, ItemPhaseStatus>, items: seq<Item>, step: seq<nat>, j: nat, p: nat, A: Agents)
    requires DistinctIds(items) && IndState(b, cur, items, step, A) && j < |items| && p < 4 && step[j] == 2 * p
    ensures var k := ItemKey(items[j], p); IndState(b, cur[k := InFlight(items[j], k, A)], items, step[j := 2 * p + 1], A)
  {
    var k := ItemKey(items[j], p);
    var next := cur[k := InFlight(items[j], k, A)];
    forall x ensures Lookup(next, x) == IndRow(Lookup(b, x), items, step[j := 2 * p + 1], x, A) {
      KeyIs(items, j, p, x);
      assert Lookup(cur, x) == IndRow(Lookup(b, x), items, step, x, A);
    }
  }

  lemma IndFinished(b: map<Key, ItemPhaseStatus>, cur: map<Key, ItemPhaseStatus>, items: seq<Item>, step: seq<nat>, j: nat, p: nat, A: Agents)
    requires DistinctIds(items) && IndState(b, cur, items, step, A) && j < |items| && p < 4 && step[j] == 2 * p + 1
    requires var k := ItemKey(items[j], p);
             FinalRow("independent", Lookup(b, k), items[j], k, A) == Some(ResultRow(items[j], k, A))
    ensures var k := ItemKey(items[j], p); IndState(b, cur[k := ResultRow(items[j], k, A)], items, step[j := 2 * p + 2], A)
  {
    hide ResultRow, InFlight;
    var k := ItemKey(items[j], p);
    var next := cur[k := ResultRow(items[j], k, A)];
    forall x ensures Lookup(next, x) == IndRow(Lookup(b, x), items, step[j := 2 * p + 2], x, A) {
      KeyIs(items, j, p, x);
      assert Lookup(cur, x) == IndRow(Lookup(b, x), items, step, x, A);
    }
  }

  /** When nothing is left to run, the rows are the specification's, whatever the interleaving was. */
  lemma IndDone(b: map<Key, ItemPhaseStatus>, cur: map<Key, ItemPhaseStatus>, items: seq<Item>, step: seq<nat>, A: Agents)
    requires IndState(b, cur, items, step, A) && Positions(items, step, {}, A)
    ensures cur == AfterGroup("independent", b, items, A)
  {
    hide ResultRow, InFlight;
    forall k ensures Lookup(cur, k) == GroupRow("independent", Lookup(b, k), items, k, A) {
      assert Lookup(cur, k) == IndRow(Lookup(b, k), items, step, k, A);
      var j := IndexOf(items, k.item);
      if j < |items| && PhaseNo(k.phase) < 4 {
        PhaseNumbers();
        assert Position(items[j], step[j], false, A);
        assert k == ItemKey(items[j], PhaseNo(k.phase));
      }
    }
    FromRows("independent", b, cur, items, A);
  }

  /** The calls in flight. */
  function FlyingOf(items: seq<Item>, step: seq<nat>, active: set<nat>): set<Key>
    requires |step| == |items| && forall j :: j in active ==> j < |items|
  {
    set j | j in active && !items[j].human && step[j] % 2 == 1 && step[j] < 8 :: ItemKey(items[j], step[j] / 2)
  }

  /** The calls made so far. */
  function CallsOf(items: seq<Item>, step: seq<nat>): set<Key>
    requires |step| == |items|
  {
    set j, q | 0 <= j < |items| && 0 <= q < 4 && !items[j].human && 2 * q < step[j] :: ItemKey(items[j], q)
  }

  lemma CallsOfDone(b: map<Key, ItemPhaseStatus>, items: seq<Item>, step: seq<nat>, A: Agents)
    requires Positions(items, step, {}, A)
    ensures CallsOf(items, step) == GroupCalls("independent", b, items, A)
  {
    hide CallsOf, GroupCalls;
    forall k ensures k in CallsOf(items, step) ==> k in GroupCalls("independent", b, items, A) {
      CallWasDue(b, items, step, k, A);
    }
    forall k ensures k in GroupCalls("independent", b, items, A) ==> k in CallsOf(items, step) {
      CallWasMade(b, items, step, k, A);
    }
  }

  lemma CallWasDue(b: map<Key, ItemPhaseStatus>, items: seq<Item>, step: seq<nat>, k: Key, A: Agents)
    requires Positions(items, step, {}, A)
    ensures k in CallsOf(items, step) ==> k in GroupCalls("independent", b, items, A)
  {
    if k in CallsOf(items, step) {
      PhaseNumbers();
      var j, q :| 0 <= j < |items| && 0 <= q < 4 && !items[j].human && 2 * q < step[j] && k == ItemKey(items[j], q);
      assert Position(items[j], step[j], false, A);
      assert PHASES[q] in PHASES && k == Key(items[j].id, PHASES[q]);
    }
  }

  lemma CallWasMade(b: map<Key, ItemPhaseStatus>, items: seq<Item>, step: seq<nat>, k: Key, A: Agents)
    requires Positions(items, step, {}, A)
    ensures k in GroupCalls("independent", b, items, A) ==> k in CallsOf(items, step)
  {
    if k in GroupCalls("independent", b, items, A) {
      PhaseNumbers();
      var i, p :| i in items && p in PHASES && !i.human && Runs("independent", Lookup(b, Key(i.id, p)), i, Key(i.id, p), A) && k == Key(i.id, p);
      var j :| 0 <= j < |items| && items[j] == i;
      assert Position(items[j], step[j], false, A);
      assert k == ItemKey(items[j], PhaseNo(p));
      assert step[j] == 8 || A.outcome(ItemKey(items[j], step[j] / 2)).Raised?;
    }
  }

  lemma KeysDiffer(items: seq<Item>, i: nat, j: nat, p: nat, q: nat)
    requires DistinctIds(items) && i < |items| && j < |items| && p < 4 && q < 4
    ensures ItemKey(items[i], p) == ItemKey(items[j], q) <==> i == j && p == q
  {
    PhaseNumbers();
  }

  lemma CallStarts(items: seq<Item>, step: seq<nat>, active: set<nat>, j: nat, p: nat, ev: seq<Event>)
    requires DistinctIds(items) && |step| == |items| && (forall i :: i in active ==> i < |items|)
    requires j in active && !items[j].human && p < 4 && step[j] == 2 * p
    requires Orderly("independent", ev) && Flying(ev) == FlyingOf(items, step, active) && Submitted(ev) == multiset(CallsOf(items, step))
    ensures var k := ItemKey(items[j], p); var next := step[j := 2 * p + 1]; var ev1 := ev + [Submit(k)];
            && Orderly("independent", ev1) && Flying(ev1) == FlyingOf(items, next, active)
            && Submitted(ev1) == multiset(CallsOf(items, next))
  {
    hide Orderly, Flying, Submitted;
    var k := ItemKey(items[j], p);
    var next := step[j := 2 * p + 1];
    Extend("independent", ev, Submit(k));
    FlyingStarts(items, step, active, j, p);
    CallsStart(items, step, j, p);
  }

  /** Every call made so far may precede the next call of an item. */
  lemma CallsPrecede(items: seq<Item>, step: seq<nat>, j: nat, p: nat)
    requires DistinctIds(items) && |step| == |items| && j < |items| && p < 4 && step[j] == 2 * p
    ensures forall k :: k in CallsOf(items, step) ==> Later("independent", k, ItemKey(items[j], p))
  {
    forall k | k in CallsOf(items, step) ensures Later("independent", k, ItemKey(items[j], p)) {
      var i, q :| 0 <= i < |items| && 0 <= q < 4 && !items[i].human && 2 * q < step[i] && k == ItemKey(items[i], q);
      PhaseOrder(q, p);
    }
  }

  lemma FlyingStarts(items: seq<Item>, step: seq<nat>, active: set<nat>, j: nat, p: nat)
    requires DistinctIds(items) && |step| == |items| && (forall i :: i in active ==> i < |items|)
    requires j in active && !items[j].human && p < 4 && step[j] == 2 * p
    ensures var k := ItemKey(items[j], p);
            && FlyingOf(items, step[j := 2 * p + 1], active) == FlyingOf(items, step, active) + {k}
            && forall other :: other in FlyingOf(items, step, active) ==> other.item != k.item
  {
    var k := ItemKey(items[j], p);
    var next := step[j := 2 * p + 1];
    var f, g := FlyingOf(items, step, active), FlyingOf(items, next, active);
    forall x | x in f ensures x in g && x.item != k.item {
      var i :| i in active && !items[i].human && step[i] % 2 == 1 && step[i] < 8 && x == ItemKey(items[i], step[i] / 2);
      assert next[i] == step[i];
    }
    assert next[j] % 2 == 1 && next[j] / 2 == p;
    assert k in g;
    forall x | x in g ensures x in f || x == k {
      var i :| i in active && !items[i].human && next[i] % 2 == 1 && next[i] < 8 && x == ItemKey(items[i], next[i] / 2);
      if i != j { assert next[i] == step[i]; }
    }
  }

  lemma CallsStart(items: seq<Item>, step: seq<nat>, j: nat, p: nat)
    requires DistinctIds(items) && |step| == |items| && j < |items| && !items[j].human && p < 4 && step[j] == 2 * p
    ensures var k := ItemKey(items[j], p);
            && multiset(CallsOf(items, step[j := 2 * p + 1])) == multiset(CallsOf(items, step)) + multiset{k}
            && k !in CallsOf(items, step)
  {
    var k := ItemKey(items[j], p);
    var next := step[j := 2 * p + 1];
    var c, d := CallsOf(items, step), CallsOf(items, next);
    forall x | x in c ensures x in d && x != k {
      var i, q :| 0 <= i < |items| && 0 <= q < 4 && !items[i].human && 2 * q < step[i] && x == ItemKey(items[i], q);
      assert 2 * q < next[i];
      KeysDiffer(items, i, j, q, p);
    }
    assert k in d by { assert 2 * p < next[j]; }
    forall x | x in d ensures x in c || x == k {
      var i, q :| 0 <= i < |items| && 0 <= q < 4 && !items[i].human && 2 * q < next[i] && x == ItemKey(items[i], q);
      if i != j || q < p { assert 2 * q < step[i]; }
    }
    assert d == c + {k};
  }

  /** A call ends: recorded (`step` moves on) or by an exception (the item leaves `active`). */
  lemma CallEnds(items: seq<Item>, step: seq<nat>, active: set<nat>, next: seq<nat>, active1: set<nat>, j: nat, p: nat, ev: seq<Event>)
    requires DistinctIds(items) && |step| == |items| && (forall i :: i in active ==> i < |items|)
    requires j in active && !items[j].human && p < 4 && step[j] == 2 * p + 1
    requires (next == step && active1 == active - {j})
          || (next == step[j := 2 * p + 2] && active1 == (if p == 3 then active - {j} else active))
    requires Orderly("independent", ev) && Flying(ev) == FlyingOf(items, step, active) && Submitted(ev) == multiset(CallsOf(items, step))
    ensures var ev1 := ev + [Settle(ItemKey(items[j], p))];
            && Orderly("independent", ev1) && Flying(ev1) == FlyingOf(items, next, active1)
            && Submitted(ev1) == multiset(CallsOf(items, next))
  {
    hide Orderly, Flying, Submitted;
    var k := ItemKey(items[j], p);
    Extend("independent", ev, Settle(k));
    FlyingEnds(items, step, active, next, active1, j, p);
    assert CallsOf(items, next) == CallsOf(items, step) by {
      assert forall i, q {:trigger step[i], ItemKey(items[i], q)} :: 0 <= i < |items| && 0 <= q < 4 ==> (2 * q < next[i] <==> 2 * q < step[i]);
    }
  }

  lemma FlyingEnds(items: seq<Item>, step: seq<nat>, active: set<nat>, next: seq<nat>, active1: set<nat>, j: nat, p: nat)
    requires DistinctIds(items) && |step| == |items| && (forall i :: i in active ==> i < |items|)
    requires j in active && !items[j].human && p < 4 && step[j] == 2 * p + 1
    requires (next == step && active1 == active - {j})
          || (next == step[j := 2 * p + 2] && active1 == (if p == 3 then active - {j} else active))
    ensures ItemKey(items[j], p) in FlyingOf(items, step, active)
    ensures FlyingOf(items, next, active1) == FlyingOf(items, step, active) - {ItemKey(items[j], p)}
  {
    var k := ItemKey(items[j], p);
    var f, g := FlyingOf(items, step, active), FlyingOf(items, next, active1);
    assert step[j] % 2 == 1 && step[j] / 2 == p;
    assert k in f;
    forall x | x in g ensures x in f && x != k {
      var i :| i in active1 && !items[i].human && next[i] % 2 == 1 && next[i] < 8 && x == ItemKey(items[i], next[i] / 2);
      assert i != j && next[i] == step[i];
    }
    forall x | x in f && x != k ensures x in g {
      var i :| i in active && !items[i].human && step[i] % 2 == 1 && step[i] < 8 && x == ItemKey(items[i], step[i] / 2);
      assert i != j && next[i] == step[i];
    }
  }
}
