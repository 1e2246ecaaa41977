/** The registry as its callers see it: registration, lookup, inspection. */
module AdapterRegistry {
  import opened Text
  import opened Sorting
  import opened Registry

  // ---- lookups ----

  /** `e.context.get(k) == v` for every tag of the query. */
  predicate Matches(e: Entry, query: map<string, string>) {
    forall k :: k in query ==> k in e.context && e.context[k] == query[k]
  }

  function Matching(bucket: seq<Entry>, query: map<string, string>): seq<Entry> {
    if bucket == [] then [] else
      var n := |bucket| - 1; Matching(bucket[..n], query) + (if Matches(bucket[n], query) then [bucket[n]] else [])
  }

  lemma MatchingGrows(front: seq<Entry>, last: Entry, query: map<string, string>)
    ensures Matching(front + [last], query) == if Matches(last, query) then Matching(front, query) + [last] else Matching(front, query)
  {
    hide Matches;
    assert (front + [last])[..|front|] == front;
  }

  lemma {:induction false} MatchingIs(bucket: seq<Entry>, query: map<string, string>)
    ensures forall e :: e in Matching(bucket, query) <==> e in bucket && Matches(e, query)
    ensures Distinct(bucket) ==> Distinct(Matching(bucket, query))
    ensures query == map[] ==> Matching(bucket, query) == bucket
  {
    if bucket != [] {
      hide Matching, Matches, Distinct;
      var front, last := bucket[..|bucket| - 1], bucket[|bucket| - 1];
      assert bucket == front + [last];
      MatchingIs(front, query);
      MatchingGrows(front, last, query);
      DistinctGrows(front, last);
      DistinctGrows(Matching(front, query), last);
      if query == map[] { NoTags(last); }
    }
  }

  lemma NoTags(e: Entry)
    ensures Matches(e, map[])
  {
  }

  /** With an exact index, a lookup finds each stored entry that claims the action and has the tags, once,
      and nothing else. */
  lemma FoundIsStored(index: Index, store: Store, action: string, query: map<string, string>)
    requires Exact(index, store)
    ensures var found := Matching(Bucket(index, action), query);
            && Distinct(found)
            && forall e :: e in found <==>
                 && EntryKey(e) in store && store[EntryKey(e)] == Good(e) && action in e.capabilities
                 && forall k :: k in query ==> k in e.context && e.context[k] == query[k]
  {
    hide Distinct, Matching, EntryKey;
    assert ExactAt(Bucket(index, action), store, action);
    MatchingIs(Bucket(index, action), query);
  }

  // ---- inspection ----

  function Flat(index: Index, order: seq<string>): seq<Entry> {
    if order == [] then [] else Flat(index, order[..|order| - 1]) + Bucket(index, order[|order| - 1])
  }

  predicate HasIdentity(es: seq<Entry>, id: (string, string)) { exists x :: x in es && Identity(x) == id }

  /** The first entry of each identity. */
  function Firsts(es: seq<Entry>): seq<Entry> {
    if es == [] then [] else
      var n := |es| - 1; Firsts(es[..n]) + (if HasIdentity(es[..n], Identity(es[n])) then [] else [es[n]])
  }

  lemma {:induction false} FlatMembers(index: Index, order: seq<string>)
    ensures forall e :: e in Flat(index, order) <==> exists a :: a in order && e in Bucket(index, a)
  {
    if order != [] {
      var n := |order| - 1;
      FlatMembers(index, order[..n]);
      assert order == order[..n] + [order[n]];
    }
  }

  lemma {:induction false} FirstsAre(es: seq<Entry>)
    ensures Distinct(Firsts(es)) && (forall x :: x in Firsts(es) ==> x in es)
    ensures forall x :: x in es ==> HasIdentity(Firsts(es), Identity(x))
  {
    if es != [] {
      hide Firsts, Distinct;
      var front, last := es[..|es| - 1], es[|es| - 1];
      FirstsAre(front);
      assert es == front + [last];
      OneMore(front, last);
      DistinctGrows(Firsts(front), last);
    }
  }

  lemma OneMore(past: seq<Entry>, e: Entry)
    ensures Firsts(past + [e]) == Firsts(past) + (if HasIdentity(past, Identity(e)) then [] else [e])
    ensures forall id :: HasIdentity(past + [e], id) <==> HasIdentity(past, id) || id == Identity(e)
  {
    var all := past + [e];
    assert all[..|past|] == past;
    assert forall x :: x in all <==> x in past || x == e;
    assert e in all;
  }

  /** With an exact index, inspection lists each stored entry once, except those that claim nothing. */
  lemma AllEntriesExact(index: Index, store: Store, order: seq<string>)
    requires Exact(index, store) && Keyed(store) && forall a :: a in index ==> a in order
    ensures var all := Firsts(Flat(index, order));
            Distinct(all) && forall e :: e in all <==> Stored(store, e) && e.capabilities != []
  {
    hide Firsts, Flat, KeyOf;
    var flat := Flat(index, order);
    FlatMembers(index, order);
    FirstsAre(flat);
    forall e ensures e in flat <==> Stored(store, e) && e.capabilities != [] {
      forall a ensures e in Bucket(index, a) <==> Claims(store, e, a) { assert ExactAt(Bucket(index, a), store, a); }
      if Stored(store, e) && e.capabilities != [] {
        assert e.capabilities[0] in e.capabilities && Claims(store, e, e.capabilities[0]);
      }
    }
    forall e | e in flat ensures e in Firsts(flat) {
      var x :| x in Firsts(flat) && Identity(x) == Identity(e);
      assert Stored(store, x) && EntryKey(x) == EntryKey(e);
    }
  }

  lemma {:induction false} FirstsAppend(a: seq<Entry>, b: seq<Entry>, e: Entry)
    ensures e in Firsts(a + b) <==> e in Firsts(a) || (!HasIdentity(a, Identity(e)) && e in Firsts(b))
    ensures HasIdentity(a + b, Identity(e)) <==> HasIdentity(a, Identity(e)) || HasIdentity(b, Identity(e))
    decreases |b|
  {
    if b == [] {
      assert a + b == a;
    } else {
      hide Firsts, HasIdentity;
      var front, last := b[..|b| - 1], b[|b| - 1];
      FirstsAppend(a, front, e);
      assert b == front + [last] && a + b == (a + front) + [last];
      OneMoreIn(front, last, e);
      OneMoreIn(a + front, last, e);
    }
  }

  lemma OneMoreIn(past: seq<Entry>, last: Entry, e: Entry)
    ensures e in Firsts(past + [last]) <==> e in Firsts(past) || (!HasIdentity(past, Identity(e)) && e == last)
    ensures HasIdentity(past + [last], Identity(e)) <==> HasIdentity(past, Identity(e)) || Identity(last) == Identity(e)
  {
    hide Firsts, HasIdentity;
    OneMore(past, last);
  }

  lemma {:induction false} FirstsOfDistinct(es: seq<Entry>)
    requires Distinct(es)
    ensures Firsts(es) == es
  {
    if es != [] {
      var front, last := es[..|es| - 1], es[|es| - 1];
      assert es == front + [last];
      DistinctGrows(front, last);
      FirstsOfDistinct(front);
    }
  }

  /** The first action claimed by either entry, in the order given, is claimed by `e`. */
  predicate ClaimsFirst(order: seq<string>, x: Entry, e: Entry) {
    exists i :: 0 <= i < |order| && order[i] in e.capabilities && forall j :: 0 <= j < i ==> order[j] !in x.capabilities
  }

  predicate ClaimsAny(order: seq<string>, x: Entry, e: Entry) {
    exists i :: 0 <= i < |order| && (order[i] in e.capabilities || order[i] in x.capabilities)
  }

  lemma ClaimsGrow(front: seq<string>, last: string, x: Entry, e: Entry)
    ensures ClaimsFirst(front + [last], x, e) <==> ClaimsFirst(front, x, e) || (!ClaimsAny(front, x, e) && last in e.capabilities)
    ensures ClaimsAny(front + [last], x, e) <==> ClaimsAny(front, x, e) || last in e.capabilities || last in x.capabilities
  {
    var all, n := front + [last], |front|;
    assert forall i :: 0 <= i < n ==> all[i] == front[i];
    assert all[n] == last;
    if ClaimsFirst(front, x, e) {
      var i :| 0 <= i < n && front[i] in e.capabilities && forall j :: 0 <= j < i ==> front[j] !in x.capabilities;
      assert all[i] in e.capabilities;
    }
    if ClaimsAny(front, x, e) {
      var i :| 0 <= i < n && (front[i] in e.capabilities || front[i] in x.capabilities);
      assert all[i] == front[i];
    }
    if ClaimsFirst(all, x, e) && !ClaimsFirst(front, x, e) {
      var i :| 0 <= i <= n && all[i] in e.capabilities && forall j :: 0 <= j < i ==> all[j] !in x.capabilities;
      assert i == n;
      LeastClaim(front, x, e);
    }
  }

  /** With no action of `x` in sight, any claim of `e` is a first one. */
  lemma {:induction false} LeastClaim(front: seq<string>, x: Entry, e: Entry)
    requires (forall j :: 0 <= j < |front| ==> front[j] !in x.capabilities) && !ClaimsFirst(front, x, e)
    ensures !ClaimsAny(front, x, e)
  {
    forall i | 0 <= i < |front| ensures front[i] !in e.capabilities {
    }
  }

  /** What a bucket shows of a re-registered identity: the new entry where it claims the action, else the old
      one where that did. */
  lemma BucketShows(index: Index, store: Store, x: Entry, e: Entry, action: string)
    requires Exact(index, store) && Stored(store, x) && Identity(x) == Identity(e)
    ensures var bucket := Bucket(AddedTo(index, e, e.capabilities), action);
            && Distinct(bucket) && (e in bucket <==> action in e.capabilities || (x == e && action in x.capabilities))
            && (HasIdentity(bucket, Identity(e)) <==> action in e.capabilities || action in x.capabilities)
  {
    hide Replaced, Distinct, KeyOf;
    var old' := Bucket(index, action);
    assert ExactAt(old', store, action);
    AddedBuckets(index, e, e.capabilities, action);
    ReplacedDistinct(old', e);
    if action in e.capabilities {
      assert e in Replaced(old', e);
    } else if action in x.capabilities {
      assert Claims(store, x, action) && x in old';
    }
    assert forall y :: y in old' && Identity(y) == Identity(e) ==> EntryKey(y) == EntryKey(x) && y == x;
  }

  lemma {:induction false} ListedFrom(index: Index, store: Store, x: Entry, e: Entry, order: seq<string>)
    requires Exact(index, store) && Stored(store, x) && Identity(x) == Identity(e) && x != e
    ensures var flat := Flat(AddedTo(index, e, e.capabilities), order);
            && (e in Firsts(flat) <==> ClaimsFirst(order, x, e))
            && (HasIdentity(flat, Identity(e)) <==> ClaimsAny(order, x, e))
  {
    hide Firsts, HasIdentity, Exact, Stored, AddedTo, ClaimsFirst, ClaimsAny, Distinct, Flat, Bucket, Identity;
    if order == [] {
      NothingListed(AddedTo(index, e, e.capabilities), x, e);
    } else {
      var front, last := order[..|order| - 1], order[|order| - 1];
      var next := AddedTo(index, e, e.capabilities);
      ListedFrom(index, store, x, e, front);
      BucketShows(index, store, x, e, last);
      FlatGrows(next, order);
      BucketAppended(Flat(next, front), Bucket(next, last), e);
      assert order == front + [last];
      ClaimsGrow(front, last, x, e);
    }
  }

  lemma NothingListed(index: Index, x: Entry, e: Entry)
    ensures Firsts(Flat(index, [])) == [] && !HasIdentity(Flat(index, []), Identity(e)) && !ClaimsFirst([], x, e) && !ClaimsAny([], x, e)
  {
    hide Identity;
    assert Flat(index, []) == [];
  }

  lemma BucketAppended(flat: seq<Entry>, bucket: seq<Entry>, e: Entry)
    requires Distinct(bucket)
    ensures e in Firsts(flat + bucket) <==> e in Firsts(flat) || (!HasIdentity(flat, Identity(e)) && e in bucket)
    ensures HasIdentity(flat + bucket, Identity(e)) <==> HasIdentity(flat, Identity(e)) || HasIdentity(bucket, Identity(e))
  {
    hide Firsts, HasIdentity, Distinct;
    FirstsOfDistinct(bucket);
    FirstsAppend(flat, bucket, e);
  }

  lemma FlatGrows(index: Index, order: seq<string>)
    requires order != []
    ensures Flat(index, order) == Flat(index, order[..|order| - 1]) + Bucket(index, order[|order| - 1])
  {
  }

  /** An adapter re-registered over a different entry of its own, with the index exact before: inspection lists
      the entry now stored if and only if the first action, in the index's order, that either of the two claims
      is claimed by the new one. Otherwise it lists the old entry or, when neither claims anything, none. */
  lemma ListsCurrentIff(index: Index, store: Store, x: Entry, e: Entry, order: seq<string>)
    requires Exact(index, store) && Stored(store, x) && Identity(x) == Identity(e) && x != e
    ensures Stored(Put(store, e), e) && !Stored(Put(store, e), x)
    ensures e in Firsts(Flat(AddedTo(index, e, e.capabilities), order)) <==> ClaimsFirst(order, x, e)
  {
    hide Firsts, Flat, ClaimsFirst, AddedTo, Exact, KeyOf;
    ListedFrom(index, store, x, e, order);
  }

  /** Such a run: dropping "a" for "b" leaves the lookup of "a" answering an entry the store no longer holds,
      and inspection without the one it holds. */
  lemma StaleHidesCurrent()
    ensures var first := Entry("x", "1", ["a"], map[], "", "", map[], ""); var second := first.(capabilities := ["b"]);
            var index := IndexAfter(map[], [first, second]); var store := StoreAfter(map[], [first, second]);
            && Stored(store, second) && !Stored(store, first)
            && Bucket(index, "a") == [first] && second !in Firsts(Flat(index, ["a", "b"]))
  {
    hide Firsts, Flat, IndexAfter, StoreAfter, AddedTo, KeyOf, Exact;
    var first := Entry("x", "1", ["a"], map[], "", "", map[], "");
    var second := first.(capabilities := ["b"]);
    var none: Index, empty: Store := map[], map[];
    assert [first, second][..1] == [first] && [first][..0] == [];
    StepIs(none, empty, [first, second]);
    StepIs(none, empty, [first]);
    Nothing(none, empty);
    var one := AddedTo(none, first, ["a"]);
    NothingIsExact();
    RegisterKeepsExactIff(none, empty, first);
    AddedBuckets(none, first, ["a"], "a");
    AddedBuckets(one, second, ["b"], "a");
    ListsCurrentIff(one, Put(empty, first), first, second, ["a", "b"]);
    OldClaimsFirst(first, second);
  }

  lemma NothingIsExact()
    ensures Exact(map[], map[]) && Keyed(map[])
  {
  }

  lemma OldClaimsFirst(x: Entry, e: Entry)
    requires x.capabilities == ["a"] && e.capabilities == ["b"]
    ensures !ClaimsFirst(["a", "b"], x, e)
  {
    assert ["a", "b"][0] in x.capabilities;
  }

  datatype Registration = Accepted(diagnostic: string) | Rejected(diagnostic: string) | StoreRaised

  lemma NothingAdded(index: Index, e: Entry)
    ensures AddedTo(index, e, []) == index && Appended(index, e, []) == index
  {
  }

  lemma NothingRebuilt(store: Store)
    ensures Rebuilt(store, []) == map[]
  {
  }

  class ArtifactStore {
    var records: Store

    constructor (records: Store)
      ensures this.records == records
    {
      this.records := records;
    }

    /** `list`: the keys under the registry's prefix, in order. */
    method List() returns (keys: seq<string>)
      ensures keys == Sorted(records.Keys)
    {
      keys := Sort(records.Keys);
    }

    /** May raise, and then writes nothing. */
    method Write(key: string, r: Record) returns (ok: bool)
      modifies this
      ensures records == if ok then old(records)[key := r] else old(records)
    {
      ok := *;
      if ok {
        records := records[key := r];
      }
    }
  }

  class CapabilityRegistry {
    const store: ArtifactStore
    var index: Index
    /** The index's actions in the order they were first seen. */
    var order: seq<string>

    ghost predicate Valid()
      reads this
    {
      NoRepeats(order) && forall a :: a in order <==> a in index
    }

    /** A fresh process reads the store. */
    constructor (store: ArtifactStore)
      ensures this.store == store && Valid() && index == FreshIndex(store.records)
    {
      this.store := store;
      index, order := map[], [];
      new;
      RebuildIndexFromStore();
    }

    /** `self._index.setdefault(action, [])` */
    method SetDefault(action: string)
      requires Valid()
      modifies this`index, this`order
      ensures Valid() && index == old(index)[action := Bucket(old(index), action)]
    {
      if action !in index {
        index := index[action := []];
        order := order + [action];
      }
    }

    method RebuildIndexFromStore()
      modifies this`index, this`order
      ensures Valid() && index == FreshIndex(store.records)
    {
      hide Sorted, Rebuilt, Appended;
      index, order := map[], [];
      var keys := store.List();
      SortedElements(store.records.Keys);
      NothingRebuilt(store.records);
      for i := 0 to |keys|
        invariant unchanged(store) && Valid() && index == Rebuilt(store.records, keys[..i])
      {
        RebuiltGrows(store.records, keys, i);
        var record := store.records[keys[i]];
        if record.Malformed? {
          continue;
        }
        var entry := record.entry;
        ghost var before := index;
        NothingAdded(before, entry);
        for j := 0 to |entry.capabilities|
          invariant unchanged(store) && Valid() && index == Appended(before, entry, entry.capabilities[..j])
        {
          var action := entry.capabilities[j];
          AppendedGrows(before, entry, entry.capabilities, j);
          SetDefault(action);
          index := index[action := index[action] + [entry]];
        }
        assert entry.capabilities[..|entry.capabilities|] == entry.capabilities;
      }
      assert keys[..|keys|] == keys;
    }

    method OthersIn(bucket: seq<Entry>, id: (string, string)) returns (kept: seq<Entry>)
      ensures kept == Without(bucket, id)
    {
      kept := [];
      for j := 0 to |bucket|
        invariant kept == Without(bucket[..j], id)
      {
        assert bucket[..j + 1][..j] == bucket[..j];
        if Identity(bucket[j]) != id {
          kept := kept + [bucket[j]];
        }
      }
      assert bucket[..|bucket|] == bucket;
    }

    /** `_index_add` */
    method IndexAdd(entry: Entry)
      requires Valid()
      modifies this`index, this`order
      ensures Valid() && index == AddedTo(old(index), entry, entry.capabilities)
    {
      hide Without, AddedTo;
      NothingAdded(index, entry);
      for i := 0 to |entry.capabilities|
        invariant Valid() && index == AddedTo(old(index), entry, entry.capabilities[..i])
      {
        var action := entry.capabilities[i];
        AddedGrows(old(index), entry, entry.capabilities, i);
        SetDefault(action);
        var kept := OthersIn(index[action], Identity(entry));
        index := index[action := kept];
        index := index[action := index[action] + [entry]];
      }
      assert entry.capabilities[..|entry.capabilities|] == entry.capabilities;
    }

    /** The verifier's word is taken as it comes. */
    method Verify(entry: Entry) returns (accepted: bool, diagnostic: string)
    {
      accepted, diagnostic := *, *;
    }

    /** `register_adapter`: the store first, and the index only once the store has the entry. */
    method RegisterAdapter(entry: Entry) returns (outcome: Registration)
      requires Valid()
      modifies this`index, this`order, store
      ensures Valid()
      ensures if outcome.Accepted?
              then store.records == Put(old(store.records), entry) && index == AddedTo(old(index), entry, entry.capabilities)
              else store.records == old(store.records) && index == old(index)
    {
      var accepted, diagnostic := Verify(entry);
      if !accepted {
        return Rejected(diagnostic);
      }
      var written := store.Write(KeyOf(entry.id, entry.version), Good(entry));
      if !written {
        return StoreRaised;
      }
      IndexAdd(entry);
      outcome := Accepted(diagnostic);
    }

    /** `find_adapters`; no context is an empty one. */
    method FindAdapters(action: string, context: map<string, string>) returns (found: seq<Entry>)
      ensures found == Matching(Bucket(index, action), context)
    {
      var candidates := if action in index then index[action] else [];
      MatchingIs(candidates, context);
      if context == map[] {
        return candidates;
      }
      found := [];
      for i := 0 to |candidates|
        invariant found == Matching(candidates[..i], context)
      {
        assert candidates[..i + 1][..i] == candidates[..i];
        if Matches(candidates[i], context) {
          found := found + [candidates[i]];
        }
      }
      assert candidates[..|candidates|] == candidates;
    }

    /** `all_entries` */
    method AllEntries() returns (unique: seq<Entry>)
      requires Valid()
      ensures unique == Firsts(Flat(index, order))
    {
      hide Firsts, HasIdentity;
      unique := [];
      var seen: set<(string, string)> := {};
      NoneSeen();
      for i := 0 to |order|
        invariant unique == Firsts(Flat(index, order[..i])) && Remembers(seen, Flat(index, order[..i]))
      {
        assert order[..i + 1][..i] == order[..i];
        unique, seen := AddUnseen(index[order[i]], unique, seen, Flat(index, order[..i]));
      }
      assert order[..|order|] == order;
    }

    method AddUnseen(bucket: seq<Entry>, unique: seq<Entry>, seen: set<(string, string)>, ghost past: seq<Entry>)
      returns (unique': seq<Entry>, seen': set<(string, string)>)
      requires unique == Firsts(past) && Remembers(seen, past)
      ensures unique' == Firsts(past + bucket) && Remembers(seen', past + bucket)
    {
      hide Firsts, HasIdentity;
      unique', seen' := unique, seen;
      assert past + bucket[..0] == past;
      for j := 0 to |bucket|
        invariant unique' == Firsts(past + bucket[..j]) && Remembers(seen', past + bucket[..j])
      {
        var entry := bucket[j];
        OneMore(past + bucket[..j], entry);
        assert past + bucket[..j + 1] == past + bucket[..j] + [entry];
        if Identity(entry) in seen' {
          continue;
        }
        seen' := seen' + {Identity(entry)};
        unique' := unique' + [entry];
      }
      assert bucket[..|bucket|] == bucket;
    }
  }

  ghost predicate Remembers(seen: set<(string, string)>, past: seq<Entry>) {
    forall id :: id in seen <==> HasIdentity(past, id)
  }

  lemma NoneSeen()
    ensures Firsts([]) == [] && Remembers({}, [])
  {
  }
}
