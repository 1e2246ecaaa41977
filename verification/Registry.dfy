/** The capability registry: an in-memory index kept beside an artifact store, and exactly when
    the two agree. */
module Registry {
  import opened Text
  import opened Sorting

  datatype Entry = Entry(
    id: string, version: string, capabilities: seq<string>, contracts: map<string, string>,
    attestation: string, registeredAt: string, context: map<string, string>, health: string)

  /** What a key of the store holds: an entry, or bytes that do not parse as one. */
  datatype Record = Good(entry: Entry) | Malformed

  type Store = map<string, Record>

  type Index = map<string, seq<Entry>>

  function Identity(e: Entry): (string, string) { (e.id, e.version) }

  function KeyOf(id: string, version: string): string { "registry/" + id + "/" + version + ".json" }

  function EntryKey(e: Entry): string { KeyOf(e.id, e.version) }

  /** The one id goes on, after a slash, with a stretch that begins the other's version. */
  ghost predicate Shifted(a: string, v: string, b: string, w: string) { exists m :: b == a + "/" + m && v == m + "/" + w }

  /** Two different adapters share a key exactly when a slash can be read on either side of what one has in
      its id and the other in its version. */
  lemma KeysCollideIff(a: string, v: string, b: string, w: string)
    ensures KeyOf(a, v) == KeyOf(b, w) && (a, v) != (b, w) <==> Shifted(a, v, b, w) || Shifted(b, w, a, v)
  {
    var tail := ".json";
    KeyParts(a, v);
    KeyParts(b, w);
    if KeyOf(a, v) == KeyOf(b, w) {
      Cancel("registry/", a + "/" + (v + tail), b + "/" + (w + tail), KeyOf(a, v));
      var k := a + "/" + (v + tail);
      if |a| == |b| {
        assert a == k[..|a|] == b && v + tail == k[|a| + 1..] == w + tail;
        Chop(v, w, tail);
      } else if |a| < |b| {
        Overlap(a, v, b, w, tail);
      } else {
        Overlap(b, w, a, v, tail);
      }
    }
    if Shifted(a, v, b, w) { ShiftedCollides(a, v, b, w); }
    if Shifted(b, w, a, v) { ShiftedCollides(b, w, a, v); }
  }

  lemma Overlap(a: string, v: string, b: string, w: string, tail: string)
    requires |a| < |b| && a + "/" + (v + tail) == b + "/" + (w + tail)
    ensures Shifted(a, v, b, w)
  {
    var k := a + "/" + (v + tail);
    var m := b[|a| + 1..];
    assert k[|a|] == '/' && b == k[..|b|] && a == k[..|a|];
    assert b == a + "/" + m;
    assert k[|a| + 1..] == v + tail && k[|a| + 1..] == m + "/" + (w + tail);
    assert m + "/" + (w + tail) == (m + "/" + w) + tail;
    Chop(v, m + "/" + w, tail);
  }

  lemma ShiftedCollides(a: string, v: string, b: string, w: string)
    requires Shifted(a, v, b, w)
    ensures KeyOf(a, v) == KeyOf(b, w) && a != b
  {
    var m :| b == a + "/" + m && v == m + "/" + w;
    KeyParts(a, v);
    KeyParts(b, w);
    assert a + "/" + ((m + "/" + w) + ".json") == (a + "/" + m) + "/" + (w + ".json");
  }

  /** With no slash in the ids, different adapters have different keys, whatever the versions. */
  lemma KeysDiffer(a: Entry, b: Entry)
    requires '/' !in a.id && '/' !in b.id
    ensures EntryKey(a) == EntryKey(b) <==> Identity(a) == Identity(b)
  {
    KeysCollideIff(a.id, a.version, b.id, b.version);
    ShiftedHasSlash(a.id, a.version, b.id, b.version);
    ShiftedHasSlash(b.id, b.version, a.id, a.version);
  }

  lemma ShiftedHasSlash(a: string, v: string, b: string, w: string)
    ensures Shifted(a, v, b, w) ==> '/' in b
  {
    if Shifted(a, v, b, w) {
      var m :| b == a + "/" + m && v == m + "/" + w;
      assert b[|a|] == '/';
    }
  }

  lemma KeyParts(id: string, version: string)
    ensures KeyOf(id, version) == "registry/" + (id + "/" + (version + ".json"))
  {
  }

  lemma Cancel(p: string, s: string, t: string, k: string)
    requires k == p + s && k == p + t
    ensures s == t
  {
    assert k[|p|..] == s && k[|p|..] == t;
  }

  lemma Chop(s: string, t: string, tail: string)
    requires s + tail == t + tail
    ensures s == t
  {
    assert |s| == |t| && s == (s + tail)[..|s|] && t == (t + tail)[..|t|];
  }

  // ---- buckets ----

  function Bucket(index: Index, action: string): seq<Entry> { if action in index then index[action] else [] }

  function Without(bucket: seq<Entry>, id: (string, string)): seq<Entry> {
    if bucket == [] then [] else
      var n := |bucket| - 1; Without(bucket[..n], id) + (if Identity(bucket[n]) == id then [] else [bucket[n]])
  }

  /** No identity twice. */
  predicate Distinct(bucket: seq<Entry>) { forall i, j :: 0 <= i < j < |bucket| ==> Identity(bucket[i]) != Identity(bucket[j]) }

  lemma DistinctGrows(front: seq<Entry>, last: Entry)
    ensures Distinct(front + [last]) <==> Distinct(front) && forall x :: x in front ==> Identity(x) != Identity(last)
  {
    var all := front + [last];
    assert forall i :: 0 <= i < |front| ==> all[i] == front[i] && front[i] in front;
    assert all[|front|] == last;
  }

  lemma WithoutGrows(front: seq<Entry>, last: Entry, id: (string, string))
    ensures Without(front + [last], id) == if Identity(last) == id then Without(front, id) else Without(front, id) + [last]
  {
    assert (front + [last])[..|front|] == front;
  }

  lemma {:induction false} WithoutIs(bucket: seq<Entry>, id: (string, string))
    ensures forall x :: x in Without(bucket, id) <==> x in bucket && Identity(x) != id
    ensures Distinct(bucket) ==> Distinct(Without(bucket, id))
  {
    if bucket != [] {
      hide Without, Distinct;
      var front, last := bucket[..|bucket| - 1], bucket[|bucket| - 1];
      WithoutIs(front, id);
      assert bucket == front + [last];
      WithoutGrows(front, last, id);
      DistinctGrows(front, last);
      DistinctGrows(Without(front, id), last);
    }
  }

  lemma {:induction false} WithoutNone(bucket: seq<Entry>, id: (string, string))
    requires forall x :: x in bucket ==> Identity(x) != id
    ensures Without(bucket, id) == bucket
  {
    if bucket != [] {
      hide Without;
      var front, last := bucket[..|bucket| - 1], bucket[|bucket| - 1];
      assert bucket == front + [last] && last in bucket;
      WithoutNone(front, id);
      WithoutGrows(front, last, id);
    }
  }

  /** The bucket an accepted registration leaves. */
  function Replaced(bucket: seq<Entry>, e: Entry): seq<Entry> { Without(bucket, Identity(e)) + [e] }

  lemma ReplacedTwice(bucket: seq<Entry>, e: Entry)
    ensures Replaced(Replaced(bucket, e), e) == Replaced(bucket, e)
  {
    hide Without;
    var rest := Without(bucket, Identity(e));
    WithoutIs(bucket, Identity(e));
    WithoutNone(rest, Identity(e));
    WithoutGrows(rest, e, Identity(e));
  }

  /** `_index_add`, over the actions of `capabilities`. */
  function AddedTo(index: Index, e: Entry, capabilities: seq<string>): Index {
    if capabilities == [] then index else
      var n := |capabilities| - 1;
      var before := AddedTo(index, e, capabilities[..n]);
      before[capabilities[n] := Replaced(Bucket(before, capabilities[n]), e)]
  }

  lemma AddedGrows(index: Index, e: Entry, capabilities: seq<string>, i: nat)
    requires i < |capabilities|
    ensures var before := AddedTo(index, e, capabilities[..i]);
            AddedTo(index, e, capabilities[..i + 1]) == before[capabilities[i] := Replaced(Bucket(before, capabilities[i]), e)]
  {
    assert capabilities[..i + 1][..i] == capabilities[..i];
  }

  /** An action claimed twice is still indexed once; the other buckets are left alone. */
  lemma {:induction false} AddedBuckets(index: Index, e: Entry, capabilities: seq<string>, action: string)
    ensures Bucket(AddedTo(index, e, capabilities), action)
         == if action in capabilities then Replaced(Bucket(index, action), e) else Bucket(index, action)
  {
    hide Replaced;
    if capabilities != [] {
      var n := |capabilities| - 1;
      var front, last := capabilities[..n], capabilities[n];
      assert capabilities == front + [last];
      AddedBuckets(index, e, front, action);
      AddedBuckets(index, e, front, last);
      if last in front { ReplacedTwice(Bucket(index, last), e); }
    }
  }

  /** Every action of an entry, appended once for each time it is listed. */
  function Appended(index: Index, e: Entry, capabilities: seq<string>): Index {
    if capabilities == [] then index else
      var n := |capabilities| - 1;
      var before := Appended(index, e, capabilities[..n]);
      before[capabilities[n] := Bucket(before, capabilities[n]) + [e]]
  }

  lemma AppendedGrows(index: Index, e: Entry, capabilities: seq<string>, i: nat)
    requires i < |capabilities|
    ensures var before := Appended(index, e, capabilities[..i]);
            Appended(index, e, capabilities[..i + 1]) == before[capabilities[i] := Bucket(before, capabilities[i]) + [e]]
  {
    assert capabilities[..i + 1][..i] == capabilities[..i];
  }

  function Copies(e: Entry, capabilities: seq<string>, action: string): seq<Entry> {
    if capabilities == [] then [] else
      var n := |capabilities| - 1; Copies(e, capabilities[..n], action) + (if capabilities[n] == action then [e] else [])
  }

  lemma {:induction false} AppendedBuckets(index: Index, e: Entry, capabilities: seq<string>, action: string)
    ensures Bucket(Appended(index, e, capabilities), action) == Bucket(index, action) + Copies(e, capabilities, action)
  {
    if capabilities != [] {
      AppendedBuckets(index, e, capabilities[..|capabilities| - 1], action);
    }
  }

  /** `_rebuild_index_from_store`, over the given keys. */
  function Rebuilt(store: Store, keys: seq<string>): Index
    requires forall k :: k in keys ==> k in store
  {
    if keys == [] then map[] else
      var n := |keys| - 1;
      var before := Rebuilt(store, keys[..n]);
      if store[keys[n]].Malformed? then before else Appended(before, store[keys[n]].entry, store[keys[n]].entry.capabilities)
  }

  lemma RebuiltGrows(store: Store, keys: seq<string>, i: nat)
    requires i < |keys| && forall k :: k in keys ==> k in store
    ensures var before := Rebuilt(store, keys[..i]);
            Rebuilt(store, keys[..i + 1])
            == if store[keys[i]].Malformed? then before else Appended(before, store[keys[i]].entry, store[keys[i]].entry.capabilities)
  {
    assert keys[..i + 1][..i] == keys[..i];
  }

  /** What a fresh process indexes: the store's keys come in order. */
  ghost function FreshIndex(store: Store): Index {
    SortedElements(store.Keys);
    Rebuilt(store, Sorted(store.Keys))
  }

  // ---- agreement of index and store ----

  /** Every readable record lies under its own key, as it does when only the registry writes. */
  ghost predicate Keyed(store: Store) { forall k :: k in store && store[k].Good? ==> k == EntryKey(store[k].entry) }

  predicate Stored(store: Store, e: Entry) { EntryKey(e) in store && store[EntryKey(e)] == Good(e) }

  predicate Claims(store: Store, e: Entry, action: string) { Stored(store, e) && action in e.capabilities }

  /** Each bucket holds the stored entries that claim its action, once each. */
  ghost predicate Exact(index: Index, store: Store) {
    forall action :: ExactAt(Bucket(index, action), store, action)
  }

  ghost predicate ExactAt(bucket: seq<Entry>, store: Store, action: string) {
    Distinct(bucket) && forall e :: e in bucket <==> Claims(store, e, action)
  }

  /** The record a registration overwrites, if any, has no action that the new entry does not take over. */
  predicate NothingDropped(store: Store, e: Entry) {
    EntryKey(e) in store && store[EntryKey(e)].Good? ==>
      var old' := store[EntryKey(e)].entry;
      forall a :: a in old'.capabilities ==> Identity(old') == Identity(e) && a in e.capabilities
  }

  lemma ReplacedDistinct(bucket: seq<Entry>, e: Entry)
    requires Distinct(bucket)
    ensures Distinct(Replaced(bucket, e)) && forall x :: x in Replaced(bucket, e) <==> x == e || (x in bucket && Identity(x) != Identity(e))
  {
    hide Without, Distinct;
    WithoutIs(bucket, Identity(e));
    DistinctGrows(Without(bucket, Identity(e)), e);
  }

  function Put(store: Store, e: Entry): Store { store[EntryKey(e) := Good(e)] }

  /** An accepted registration keeps an exact index exact if and only if nothing it overwrites is dropped. */
  lemma RegisterKeepsExactIff(index: Index, store: Store, e: Entry)
    requires Exact(index, store) && Keyed(store)
    ensures Exact(AddedTo(index, e, e.capabilities), Put(store, e)) <==> NothingDropped(store, e)
  {
    hide AddedTo, ExactAt, Claims, Distinct, Replaced, EntryKey;
    var index' := AddedTo(index, e, e.capabilities);
    forall action ensures ExactAt(Bucket(index', action), Put(store, e), action) <==> NotDroppedAt(store, e, action) {
      AddedBuckets(index, e, e.capabilities, action);
      assert ExactAt(Bucket(index, action), store, action);
      ExactAtIff(Bucket(index, action), store, e, action);
    }
    NothingDroppedIs(store, e);
  }

  lemma NothingDroppedIs(store: Store, e: Entry)
    ensures NothingDropped(store, e) <==> forall action :: NotDroppedAt(store, e, action)
  {
    hide EntryKey;
    if EntryKey(e) in store && store[EntryKey(e)].Good? {
      assert forall a :: a in store[EntryKey(e)].entry.capabilities && NotDroppedAt(store, e, a) ==>
          Identity(store[EntryKey(e)].entry) == Identity(e) && a in e.capabilities;
    }
  }

  predicate NotDroppedAt(store: Store, e: Entry, action: string) {
    EntryKey(e) in store && store[EntryKey(e)].Good? && action in store[EntryKey(e)].entry.capabilities ==>
      Identity(store[EntryKey(e)].entry) == Identity(e) && action in e.capabilities
  }

  lemma ExactAtIff(bucket: seq<Entry>, store: Store, e: Entry, action: string)
    requires ExactAt(bucket, store, action) && Keyed(store)
    ensures ExactAt(if action in e.capabilities then Replaced(bucket, e) else bucket, Put(store, e), action) <==> NotDroppedAt(store, e, action)
  {
    hide Distinct, Replaced, KeyOf;
    var bucket' := if action in e.capabilities then Replaced(bucket, e) else bucket;
    ReplacedDistinct(bucket, e);
    var k := EntryKey(e);
    if k in store && store[k].Good? && action in store[k].entry.capabilities {
      var x := store[k].entry;
      assert Claims(store, x, action) && x in bucket;
      assert x != e ==> !Claims(Put(store, e), x, action);
    }
  }

  // ---- without that condition ----

  /** The same adapter has since been registered without the action. */
  predicate Superseded(store: Store, x: Entry, action: string) {
    && EntryKey(x) in store && store[EntryKey(x)].Good?
    && Identity(store[EntryKey(x)].entry) == Identity(x) && action !in store[EntryKey(x)].entry.capabilities
  }

  ghost predicate CoveredAt(bucket: seq<Entry>, store: Store, action: string) {
    && Distinct(bucket) && (forall e :: Claims(store, e, action) ==> e in bucket)
    && forall x :: x in bucket ==> '/' !in x.id && (Claims(store, x, action) || Superseded(store, x, action))
  }

  /** Every stored claim is indexed exactly once, and all else in a bucket is superseded. */
  ghost predicate Covered(index: Index, store: Store) { forall action :: CoveredAt(Bucket(index, action), store, action) }

  lemma RegisterKeepsCovered(index: Index, store: Store, e: Entry)
    requires Covered(index, store) && '/' !in e.id
    ensures Covered(AddedTo(index, e, e.capabilities), Put(store, e))
  {
    hide AddedTo, CoveredAt, Replaced;
    var index' := AddedTo(index, e, e.capabilities);
    forall action ensures CoveredAt(Bucket(index', action), Put(store, e), action) {
      AddedBuckets(index, e, e.capabilities, action);
      assert CoveredAt(Bucket(index, action), store, action);
      KeepsCoveredAt(Bucket(index, action), store, e, action);
    }
  }

  lemma KeepsCoveredAt(bucket: seq<Entry>, store: Store, e: Entry, action: string)
    requires CoveredAt(bucket, store, action) && '/' !in e.id
    ensures CoveredAt(if action in e.capabilities then Replaced(bucket, e) else bucket, Put(store, e), action)
  {
    hide Distinct, Replaced, EntryKey;
    ReplacedDistinct(bucket, e);
    forall x | x in bucket ensures EntryKey(x) == EntryKey(e) <==> Identity(x) == Identity(e) { KeysDiffer(x, e); }
  }

  // ---- runs ----

  function StoreAfter(store: Store, es: seq<Entry>): Store {
    if es == [] then store else Put(StoreAfter(store, es[..|es| - 1]), es[|es| - 1])
  }

  function IndexAfter(index: Index, es: seq<Entry>): Index {
    if es == [] then index else AddedTo(IndexAfter(index, es[..|es| - 1]), es[|es| - 1], es[|es| - 1].capabilities)
  }

  lemma {:induction false} StaysKeyed(store: Store, es: seq<Entry>)
    requires Keyed(store)
    ensures Keyed(StoreAfter(store, es))
  {
    if es != [] { StaysKeyed(store, es[..|es| - 1]); }
  }

  /** Over any run of accepted registrations the index is exact at every moment if and only if none of
      them drops anything. */
  lemma {:induction false} RunExactIff(index: Index, store: Store, es: seq<Entry>)
    requires Exact(index, store) && Keyed(store)
    ensures (forall n :: 0 <= n <= |es| ==> Exact(IndexAfter(index, es[..n]), StoreAfter(store, es[..n])))
       <==> (forall n :: 0 <= n < |es| ==> NothingDropped(StoreAfter(store, es[..n]), es[n]))
  {
    hide Exact, Keyed, NothingDropped, StoreAfter, IndexAfter;
    if es == [] {
      Nothing(index, store);
      assert es[..0] == [];
    } else {
      var m := |es| - 1;
      var front := es[..m];
      RunExactIff(index, store, front);
      assert forall n :: 0 <= n <= m ==> es[..n] == front[..n];
      assert front[..m] == front && es[..|es|] == es;
      assert forall n :: 0 <= n < m ==> es[n] == front[n];
      StepIs(index, store, es);
      StaysKeyed(store, front);
      if Exact(IndexAfter(index, front), StoreAfter(store, front)) {
        RegisterKeepsExactIff(IndexAfter(index, front), StoreAfter(store, front), es[m]);
      }
    }
  }

  lemma Nothing(index: Index, store: Store)
    ensures IndexAfter(index, []) == index && StoreAfter(store, []) == store
  {
  }

  lemma StepIs(index: Index, store: Store, es: seq<Entry>)
    requires es != []
    ensures var n := |es| - 1;
            && IndexAfter(index, es) == AddedTo(IndexAfter(index, es[..n]), es[n], es[n].capabilities)
            && StoreAfter(store, es) == Put(StoreAfter(store, es[..n]), es[n])
  {
  }

  /** Whatever is dropped, every stored claim stays indexed exactly once and only superseded entries linger. */
  lemma {:induction false} RunCovered(index: Index, store: Store, es: seq<Entry>)
    requires Covered(index, store) && forall n :: 0 <= n < |es| ==> '/' !in es[n].id
    ensures Covered(IndexAfter(index, es), StoreAfter(store, es))
  {
    hide Covered, AddedTo, Put;
    if es != [] {
      var n := |es| - 1;
      RunCovered(index, store, es[..n]);
      RegisterKeepsCovered(IndexAfter(index, es[..n]), StoreAfter(store, es[..n]), es[n]);
    }
  }

  // ---- a restart ----

  predicate NoRepeats(actions: seq<string>) { forall i, j :: 0 <= i < j < |actions| ==> actions[i] != actions[j] }

  /** An action is listed no more than once. */
  predicate ListedOnce(actions: seq<string>, action: string) {
    forall i, j :: 0 <= i < j < |actions| ==> !(actions[i] == actions[j] == action)
  }

  lemma ListedOnceGrows(front: seq<string>, last: string, action: string)
    ensures ListedOnce(front + [last], action) <==> ListedOnce(front, action) && (last == action ==> action !in front)
  {
    var all := front + [last];
    assert forall i :: 0 <= i < |front| ==> all[i] == front[i];
    if last == action && action in front {
      var i :| 0 <= i < |front| && front[i] == action;
      assert all[i] == all[|front|] == action;
    }
  }

  lemma {:induction false} CopiesAre(e: Entry, capabilities: seq<string>, action: string)
    ensures forall x :: x in Copies(e, capabilities, action) <==> x == e && action in capabilities
  {
    if capabilities != [] {
      var n := |capabilities| - 1;
      CopiesAre(e, capabilities[..n], action);
      assert capabilities == capabilities[..n] + [capabilities[n]];
    }
  }

  lemma {:induction false} CopiesOnce(e: Entry, capabilities: seq<string>, action: string)
    ensures |Copies(e, capabilities, action)| <= 1 <==> ListedOnce(capabilities, action)
  {
    if capabilities != [] {
      hide ListedOnce;
      var n := |capabilities| - 1;
      var front := capabilities[..n];
      CopiesOnce(e, front, action);
      CopiesAre(e, front, action);
      assert capabilities == front + [capabilities[n]];
      ListedOnceGrows(front, capabilities[n], action);
      assert action in front <==> e in Copies(e, front, action);
      assert Copies(e, front, action) != [] ==> Copies(e, front, action)[0] in Copies(e, front, action);
    }
  }

  predicate OnceIn(r: Record, action: string) { r.Good? ==> |Copies(r.entry, r.entry.capabilities, action)| <= 1 }

  lemma DistinctSum(bucket: seq<Entry>, e: Entry, copies: seq<Entry>)
    requires (forall x :: x in copies ==> x == e) && forall x :: x in bucket ==> Identity(x) != Identity(e)
    ensures Distinct(bucket + copies) <==> Distinct(bucket) && |copies| <= 1
  {
    var all := bucket + copies;
    assert forall i :: 0 <= i < |bucket| ==> all[i] == bucket[i] && bucket[i] in bucket;
    assert forall i :: 0 <= i < |copies| ==> all[|bucket| + i] == copies[i] && copies[i] in copies;
    if |copies| > 1 {
      assert Identity(all[|bucket|]) == Identity(all[|bucket| + 1]);
    }
  }

  lemma {:induction false} RebuiltAt(store: Store, keys: seq<string>, action: string)
    requires Keyed(store) && (forall k :: k in keys ==> k in store) && NoRepeats(keys)
    ensures var bucket := Bucket(Rebuilt(store, keys), action);
            && (forall e :: e in bucket <==> EntryKey(e) in keys && Claims(store, e, action))
            && (Distinct(bucket) <==> forall k :: k in keys ==> OnceIn(store[k], action))
  {
    hide KeyOf, Copies, Appended, Distinct, OnceIn;
    if keys == [] {
      NoneDistinct();
    } else {
      var n := |keys| - 1;
      var front, k := keys[..n], keys[n];
      assert keys == front + [k] && k !in front;
      RebuiltAt(store, front, action);
      if store[k].Good? {
        var e := store[k].entry;
        var before := Rebuilt(store, front);
        AppendedBuckets(before, e, e.capabilities, action);
        CopiesAre(e, e.capabilities, action);
        DistinctSum(Bucket(before, action), e, Copies(e, e.capabilities, action));
        OnceIs(e, action);
        assert forall x :: Claims(store, x, action) && EntryKey(x) == k ==> x == e;
      } else {
        MalformedOnce(store[k], action);
      }
    }
  }

  lemma NoneDistinct()
    ensures Distinct([])
  {
  }

  lemma OnceIs(e: Entry, action: string)
    ensures OnceIn(Good(e), action) <==> |Copies(e, e.capabilities, action)| <= 1
  {
  }

  lemma MalformedOnce(r: Record, action: string)
    requires r.Malformed?
    ensures OnceIn(r, action)
  {
  }

  lemma RebuiltExactAt(store: Store, keys: seq<string>, action: string)
    requires Keyed(store) && NoRepeats(keys) && forall k :: k in keys <==> k in store
    ensures ExactAt(Bucket(Rebuilt(store, keys), action), store, action) <==> forall k :: k in store ==> OnceIn(store[k], action)
  {
    hide Rebuilt, OnceIn, NoRepeats, EntryKey, Distinct;
    RebuiltAt(store, keys, action);
  }

  /** A restart rebuilds an exact index if and only if no stored entry lists an action twice; registering
      such an entry, in contrast, indexes it once. */
  lemma RebuildExactIff(store: Store)
    requires Keyed(store)
    ensures Exact(FreshIndex(store), store) <==> forall k :: k in store && store[k].Good? ==> NoRepeats(store[k].entry.capabilities)
  {
    hide Rebuilt, OnceIn, EntryKey, ExactAt, Keyed, Sorted;
    var keys := Sorted(store.Keys);
    SortedElements(store.Keys);
    forall action ensures ExactAt(Bucket(Rebuilt(store, keys), action), store, action) <==> forall k :: k in store ==> OnceIn(store[k], action) {
      RebuiltExactAt(store, keys, action);
    }
    forall k | k in store ensures (store[k].Good? ==> NoRepeats(store[k].entry.capabilities)) <==> forall action :: OnceIn(store[k], action) {
      OnceEverywhere(store[k]);
    }
    if Exact(Rebuilt(store, keys), store) {
      forall k, action | k in store ensures OnceIn(store[k], action) {
        assert ExactAt(Bucket(Rebuilt(store, keys), action), store, action);
      }
    }
  }

  lemma OnceEverywhere(r: Record)
    ensures (r.Good? ==> NoRepeats(r.entry.capabilities)) <==> forall action :: OnceIn(r, action)
  {
    if r.Good? { NoRepeatsIs(r.entry); }
  }

  lemma NoRepeatsIs(e: Entry)
    ensures NoRepeats(e.capabilities) <==> forall action :: OnceIn(Good(e), action)
  {
    forall action ensures OnceIn(Good(e), action) <==> ListedOnce(e.capabilities, action) {
      CopiesOnce(e, e.capabilities, action);
    }
    var actions := e.capabilities;
    forall i, j | 0 <= i < j < |actions| && actions[i] == actions[j] ensures !OnceIn(Good(e), actions[i]) {
    }
  }

  lemma {:induction false} CountInDistinct(bucket: seq<Entry>, x: Entry)
    requires Distinct(bucket)
    ensures multiset(bucket)[x] == if x in bucket then 1 else 0
  {
    if bucket != [] {
      var n := |bucket| - 1;
      assert bucket == bucket[..n] + [bucket[n]];
      CountInDistinct(bucket[..n], x);
    }
  }

  /** An exact index and its rebuild differ at most in the order within a bucket. */
  lemma RestartChangesNothing(index: Index, store: Store, action: string)
    requires Exact(index, store) && Keyed(store)
    requires forall k :: k in store && store[k].Good? ==> NoRepeats(store[k].entry.capabilities)
    ensures multiset(Bucket(index, action)) == multiset(Bucket(FreshIndex(store), action))
  {
    hide FreshIndex, Distinct, NoRepeats, Claims, Keyed;
    RebuildExactIff(store);
    var a, b := Bucket(index, action), Bucket(FreshIndex(store), action);
    assert ExactAt(a, store, action) && ExactAt(b, store, action);
    forall x ensures multiset(a)[x] == multiset(b)[x] {
      CountInDistinct(a, x);
      CountInDistinct(b, x);
    }
  }
}
