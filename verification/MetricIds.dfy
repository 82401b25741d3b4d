/** What the metric id allocator of system/common/metric_id_allocator.cc does to its state, and what
    every run of it keeps. */
module MetricIds {
  import opened Wrappers
  import opened Recency
  import opened Sets

  const MAX_UNPAIRED: nat := 200
  const MAX_PAIRED: nat := 65000
  const MIN_ID: int := 1
  const MAX_ID: int := 65534
  const RANGE: nat := MAX_ID - MIN_ID + 1

  /** A 48-bit device address. */
  type RawAddress = a: nat | a < 0x1_0000_0000_0000

  type Devices = seq<Entry<RawAddress, int>>

  datatype Callback = Saved(addr: RawAddress, id: int) | Forgotten(addr: RawAddress, id: int)

  /** Both caches as recency sequences, the id index, the cursor and the callbacks made so far. */
  datatype View = View(paired: Devices, temporary: Devices, ids: set<int>, next: int, callbacks: seq<Callback>)

  predicate IsValidId(id: int) {
    MIN_ID <= id <= MAX_ID
  }

  // --- cyclic order of the ids ---

  /** The id `j` places after `c` in cyclic order. */
  function Nth(c: int, j: nat): (id: int)
    ensures IsValidId(id)
    ensures IsValidId(c) && j == 0 ==> id == c
  {
    MIN_ID + (c - MIN_ID + j) % RANGE
  }

  function Succ(id: int): int {
    if id + 1 > MAX_ID then MIN_ID else id + 1
  }

  lemma NthSucc(c: int, j: nat)
    requires IsValidId(c)
    ensures Nth(c, j + 1) == Succ(Nth(c, j))
  {
  }

  lemma NthNth(c: int, i: nat, j: nat)
    ensures Nth(Nth(c, i), j) == Nth(c, i + j)
  {
  }

  lemma NthInjective(c: int, i: nat, j: nat)
    requires i < j < i + RANGE
    ensures Nth(c, i) != Nth(c, j)
  {
  }

  ghost function Window(c: int, n: nat): set<int> {
    set i | 0 <= i < n :: Nth(c, i)
  }

  lemma {:induction false} WindowSize(c: int, n: nat)
    requires n <= RANGE
    ensures |Window(c, n)| == n
  {
    if n == 0 {
      assert Window(c, n) == {};
    } else {
      WindowSize(c, n - 1);
      WindowStep(c, n - 1);
    }
  }

  lemma WindowStep(c: int, n: nat)
    requires n < RANGE
    ensures Window(c, n + 1) == Window(c, n) + {Nth(c, n)} && Nth(c, n) !in Window(c, n)
  {
    forall i | 0 <= i < n ensures Nth(c, i) != Nth(c, n) {
      NthInjective(c, i, n);
    }
  }

  /** Pigeonhole: more than |ids| consecutive ids cannot all be taken. */
  lemma Pigeonhole(ids: set<int>, c: int, n: nat)
    requires n <= RANGE && forall i :: 0 <= i < n ==> Nth(c, i) in ids
    ensures n <= |ids|
  {
    WindowSize(c, n);
    SubsetSize(Window(c, n), ids);
  }

  /** How many taken ids stand between the cursor and the first free id. */
  ghost function Skips(ids: set<int>, c: int, n: nat := 0): (j: nat)
    requires |ids| < RANGE && n <= |ids| && forall i :: 0 <= i < n ==> Nth(c, i) in ids
    ensures n <= j <= |ids| && Nth(c, j) !in ids && forall i :: 0 <= i < j ==> Nth(c, i) in ids
    decreases |ids| - n
  {
    if Nth(c, n) !in ids then n
    else
      Pigeonhole(ids, c, n + 1);
      Skips(ids, c, n + 1)
  }

  lemma FirstFreeIsUnique(ids: set<int>, c: int, j: nat)
    requires |ids| < RANGE && Nth(c, j) !in ids && forall i :: 0 <= i < j ==> Nth(c, i) in ids
    ensures Skips(ids, c) == j
  {
  }

  // --- the operations ---

  /** Whose id is what. */
  ghost function Owners(v: View): map<RawAddress, int> {
    AsMap(v.paired) + AsMap(v.temporary)
  }

  ghost predicate Known(v: View, a: RawAddress) {
    Has(v.paired, a) || Has(v.temporary, a)
  }

  ghost function IdOf(v: View, a: RawAddress): int
    requires Known(v, a)
  {
    if Has(v.paired, a) then Lookup(v.paired, a) else Lookup(v.temporary, a)
  }

  /** The first id in cyclic order from the cursor that nobody holds. */
  ghost function FreshId(v: View): int
    requires |v.ids| < RANGE
  {
    Nth(v.next, Skips(v.ids, v.next))
  }

  ghost function EvictedIds(e: Option<Entry<RawAddress, int>>): set<int> {
    if e.Some? then {e.value.value} else {}
  }

  ghost function AllocateId(v: View, a: RawAddress): View
    requires |v.ids| < RANGE
  {
    if Has(v.paired, a) then v.(paired := Touch(v.paired, a))
    else if Has(v.temporary, a) then v.(temporary := Touch(v.temporary, a))
    else Bind(v, a, FreshId(v))
  }

  /** A new temporary device gets `id`; the cursor moves past it. */
  ghost function Bind(v: View, a: RawAddress, id: int): View {
    var evicted := Evicted(v.temporary, MAX_UNPAIRED, a);
    v.(temporary := Put(v.temporary, MAX_UNPAIRED, a, id),
       ids := v.ids + {id} - EvictedIds(evicted),
       next := Succ(id))
  }

  ghost function ForgottenCallback(e: Option<Entry<RawAddress, int>>): seq<Callback> {
    if e.Some? then [Forgotten(e.value.key, e.value.value)] else []
  }

  ghost function SaveDevice(v: View, a: RawAddress): View {
    if Has(v.paired, a) then v.(paired := Touch(v.paired, a))
    else if !Has(v.temporary, a) then v
    else
      var id := Lookup(v.temporary, a);
      var evicted := Evicted(v.paired, MAX_PAIRED, a);
      v.(temporary := Without(Touch(v.temporary, a), a),
         paired := Put(v.paired, MAX_PAIRED, a, id),
         ids := v.ids - EvictedIds(evicted),
         callbacks := v.callbacks + ForgottenCallback(evicted) + [Saved(a, id)])
  }

  ghost function ForgetDevice(v: View, a: RawAddress): View {
    if !Has(v.paired, a) then v
    else
      var id := Lookup(v.paired, a);
      v.(paired := Without(Touch(v.paired, a), a),
         ids := v.ids - {id},
         callbacks := v.callbacks + [Forgotten(a, id)])
  }

  // --- the invariant ---

  ghost predicate Injective(m: map<RawAddress, int>) {
    forall a, b :: a in m && b in m && m[a] == m[b] ==> a == b
  }

  /** The id index is exactly the ids held, no two addresses share an id and no address is in both
      caches. */
  ghost predicate Agree(paired: map<RawAddress, int>, temporary: map<RawAddress, int>, ids: set<int>) {
    && paired.Keys !! temporary.Keys
    && Injective(paired + temporary)
    && ids == (paired + temporary).Values
  }

  /** Indexes agree, caches respect their capacities, all ids and the cursor are in range. */
  ghost predicate Inv(v: View) {
    && UniqueKeys(v.paired) && |v.paired| <= MAX_PAIRED
    && UniqueKeys(v.temporary) && |v.temporary| <= MAX_UNPAIRED
    && Agree(AsMap(v.paired), AsMap(v.temporary), v.ids)
    && (forall id :: id in v.ids ==> IsValidId(id))
    && IsValidId(v.next)
  }

  lemma {:induction false} ValuesSize(m: map<RawAddress, int>)
    ensures |m.Values| <= |m|
    decreases |m|
  {
    if m != map[] {
      var a :| a in m;
      var rest := m - {a};
      assert rest.Keys == m.Keys - {a};
      ValuesSize(rest);
      assert m.Values <= rest.Values + {m[a]} by {
        forall x | x in m.Values ensures x in rest.Values + {m[a]} {
          var b :| b in m && m[b] == x;
          assert b != a ==> b in rest && rest[b] == x;
        }
      }
      SubsetSize(m.Values, rest.Values + {m[a]});
    }
  }

  /** The capacities keep the index strictly below the id range. */
  lemma IdsBound(v: View)
    requires Inv(v)
    ensures |v.ids| <= MAX_PAIRED + MAX_UNPAIRED < RANGE
  {
    ValuesSize(Owners(v));
    AsMapSize(v.paired);
    AsMapSize(v.temporary);
    assert Owners(v).Keys == AsMap(v.paired).Keys + AsMap(v.temporary).Keys;
  }

  lemma DropOwner(m: map<RawAddress, int>, a: RawAddress)
    requires Injective(m) && a in m
    ensures Injective(m - {a}) && (m - {a}).Values == m.Values - {m[a]}
  {
    var m' := m - {a};
    forall x ensures x in m'.Values <==> x in m.Values - {m[a]} {
      if x in m.Values - {m[a]} {
        var b :| b in m && m[b] == x;
        assert b in m' && m'[b] == x;
      }
    }
  }

  lemma AddOwner(m: map<RawAddress, int>, a: RawAddress, id: int)
    requires Injective(m) && a !in m && id !in m.Values
    ensures Injective(m[a := id]) && m[a := id].Values == m.Values + {id}
  {
    var m' := m[a := id];
    forall x ensures x in m'.Values <==> x in m.Values + {id} {
      if x in m.Values {
        var b :| b in m && m[b] == x;
        assert b in m' && m'[b] == x;
      } else if x == id {
        assert m'[a] == x;
      }
    }
  }

  // --- Init ---

  /** The caches and the index are empty, as at construction and after Close. */
  ghost predicate Empty(v: View) {
    v.paired == [] && v.temporary == [] && v.ids == {}
  }

  /** One saved device is loaded: a device it evicts is forgotten, the cursor moves past its id. */
  ghost function LoadOne(v: View, p: Entry<RawAddress, int>): View {
    var evicted := Evicted(v.paired, MAX_PAIRED, p.key);
    v.(paired := Put(v.paired, MAX_PAIRED, p.key, p.value),
       ids := v.ids - EvictedIds(evicted) + {p.value},
       next := if p.value + 1 > v.next then p.value + 1 else v.next,
       callbacks := v.callbacks + ForgottenCallback(evicted))
  }

  ghost function Load(v: View, devices: Devices): View {
    if devices == [] then v
    else
      var n := |devices| - 1;
      LoadOne(Load(v, devices[..n]), devices[n])
  }

  ghost function Init(v: View, devices: Devices): View {
    var v1 := Load(v.(next := MIN_ID), devices);
    v1.(next := if v1.next > MAX_ID then MIN_ID else v1.next)
  }

  ghost function SavedIds(devices: Devices): set<int> {
    if devices == [] then {} else SavedIds(devices[..|devices| - 1]) + {devices[|devices| - 1].value}
  }

  lemma {:induction false} SavedIdsAre(devices: Devices, x: int)
    ensures x in SavedIds(devices) <==> exists i :: 0 <= i < |devices| && devices[i].value == x
  {
    if devices != [] {
      var n := |devices| - 1;
      SavedIdsAre(devices[..n], x);
      assert forall i :: 0 <= i < n ==> devices[i] == devices[..n][i];
      assert devices[n].value == x || x in SavedIds(devices[..n]) <==> x in SavedIds(devices);
    }
  }

  ghost predicate UniqueIds(devices: Devices) {
    forall i, j :: 0 <= i < j < |devices| ==> devices[i].value != devices[j].value
  }

  ghost predicate AllValid(devices: Devices) {
    forall i :: 0 <= i < |devices| ==> IsValidId(devices[i].value)
  }

  lemma AsMapAt(devices: Devices, i: nat)
    requires UniqueKeys(devices) && i < |devices|
    ensures devices[i].key in AsMap(devices) && AsMap(devices)[devices[i].key] == devices[i].value
  {
    AsMapHas(devices, devices[i].key);
  }

  lemma PutBack(m: map<RawAddress, int>, a: RawAddress)
    requires a in m
    ensures (m - {a})[a := m[a]] == m
  {
    assert ((m - {a})[a := m[a]]).Keys == m.Keys;
  }

  /** The last device aside, the map of the devices is that of those before. */
  lemma AsMapLast(devices: Devices)
    requires UniqueKeys(devices) && devices != []
    ensures var n := |devices| - 1;
            && UniqueKeys(devices[..n]) && devices[n].key !in AsMap(devices[..n])
            && AsMap(devices) == AsMap(devices[..n])[devices[n].key := devices[n].value]
  {
    var n := |devices| - 1;
    AsMapDrop(devices, n);
    assert devices[..n] + devices[n + 1..] == devices[..n];
    AsMapAt(devices, n);
    PutBack(AsMap(devices), devices[n].key);
  }

  /** The paired and the saved devices together fit the paired cache. */
  ghost predicate Together(v: View, devices: Devices) {
    |AsMap(v.paired).Keys + AsMap(devices).Keys| <= MAX_PAIRED
  }

  /** There is room for a key of `all`, of which the cache holds only some. */
  lemma NobodyEvicted(s: Devices, all: set<RawAddress>, a: RawAddress)
    requires UniqueKeys(s) && AsMap(s).Keys <= all && a in all && |all| <= MAX_PAIRED
    ensures Evicted(s, MAX_PAIRED, a) == None && |s| <= MAX_PAIRED
  {
    AsMapSize(s);
    AsMapHas(s, a);
    SubsetSize(AsMap(s).Keys, all);
    if !Has(s, a) {
      SubsetSize(AsMap(s).Keys + {a}, all);
    }
  }

  /** From `v` to `v'` the paired cache came to hold `m` and the index `ids`, and nothing else but the cursor
      changed. */
  ghost predicate Stored(v: View, v': View, m: map<RawAddress, int>, ids: set<int>) {
    && UniqueKeys(v'.paired) && |v'.paired| <= MAX_PAIRED && AsMap(v'.paired) == m
    && v'.ids == ids && v'.temporary == v.temporary && v'.callbacks == v.callbacks
  }

  /** Loading distinct addresses that fit the cache together with the paired ones evicts nobody: the cache then
      holds the saved devices over those it had, and the index their ids besides those it had. */
  lemma {:induction false} LoadMerges(v: View, devices: Devices)
    requires UniqueKeys(v.paired) && UniqueKeys(devices) && Together(v, devices)
    ensures Stored(v, Load(v, devices), AsMap(v.paired) + AsMap(devices), v.ids + SavedIds(devices))
  {
    if devices == [] {
      LoadNone(v);
    } else {
      var n := |devices| - 1;
      var before, last := devices[..n], devices[n];
      TogetherBefore(v, devices);
      LoadMerges(v, before);
      LoadLast(v, Load(v, before), AsMap(v.paired) + AsMap(before), v.ids + SavedIds(before), last,
               AsMap(v.paired).Keys + AsMap(devices).Keys);
      MergeOne(AsMap(v.paired), AsMap(before), last.key, last.value);
      AddOne(v.ids, SavedIds(before), last.value);
    }
  }

  lemma LoadNone(v: View)
    requires UniqueKeys(v.paired) && Together(v, [])
    ensures Stored(v, v, AsMap(v.paired) + map[], v.ids + {})
  {
    AsMapSize(v.paired);
    assert AsMap(v.paired).Keys + {} == AsMap(v.paired).Keys;
    assert AsMap(v.paired) + map[] == AsMap(v.paired);
  }

  lemma LoadLast(v0: View, v: View, m: map<RawAddress, int>, ids: set<int>,
                 p: Entry<RawAddress, int>, all: set<RawAddress>)
    requires Stored(v0, v, m, ids) && m.Keys <= all && p.key in all && |all| <= MAX_PAIRED
    ensures Stored(v0, LoadOne(v, p), m[p.key := p.value], ids + {p.value})
  {
    NobodyEvicted(v.paired, all, p.key);
    AsMapPut(v.paired, MAX_PAIRED, p.key, p.value);
  }

  lemma MergeOne(p: map<RawAddress, int>, d: map<RawAddress, int>, a: RawAddress, id: int)
    ensures p + d[a := id] == (p + d)[a := id]
  {
  }

  lemma AddOne(a: set<int>, b: set<int>, x: int)
    ensures a + b + {x} == a + (b + {x})
  {
  }

  lemma TogetherBefore(v: View, devices: Devices)
    requires UniqueKeys(devices) && devices != [] && Together(v, devices)
    ensures var n, all := |devices| - 1, AsMap(v.paired).Keys + AsMap(devices).Keys;
            && UniqueKeys(devices[..n]) && Together(v, devices[..n]) && devices[n].key in all
            && (AsMap(v.paired) + AsMap(devices[..n])).Keys <= all
            && AsMap(devices) == AsMap(devices[..n])[devices[n].key := devices[n].value]
  {
    AsMapLast(devices);
    SubsetSize(AsMap(v.paired).Keys + AsMap(devices[..|devices| - 1]).Keys,
               AsMap(v.paired).Keys + AsMap(devices).Keys);
  }

  /** Loading moves the cursor past every saved id, and no further than one past the range. */
  lemma {:induction false} LoadPasses(v: View, devices: Devices)
    requires AllValid(devices) && MIN_ID <= v.next <= MAX_ID + 1
    ensures v.next <= Load(v, devices).next <= MAX_ID + 1
    ensures forall i :: 0 <= i < |devices| ==> devices[i].value < Load(v, devices).next
  {
    if devices != [] {
      LoadPasses(v, devices[..|devices| - 1]);
      assert forall i :: 0 <= i < |devices| - 1 ==> devices[i] == devices[..|devices| - 1][i];
    }
  }

  /** `m` is the largest saved id, or one below the range if there is none. */
  ghost predicate IsLargest(devices: Devices, m: int) {
    && (forall i :: 0 <= i < |devices| ==> devices[i].value <= m)
    && if devices == [] then m == MIN_ID - 1 else exists i :: 0 <= i < |devices| && devices[i].value == m
  }

  lemma {:induction false} LoadCursor(v: View, devices: Devices, m: int)
    requires AllValid(devices) && v.next == MIN_ID && IsLargest(devices, m)
    ensures Load(v, devices).next == m + 1
  {
    LoadPasses(v, devices);
    LoadReached(v, devices);
  }

  /** The cursor moves only to one past a saved id. */
  lemma {:induction false} LoadReached(v: View, devices: Devices)
    ensures var next := Load(v, devices).next;
            next == v.next || exists i :: 0 <= i < |devices| && devices[i].value + 1 == next
  {
    if devices != [] {
      var n := |devices| - 1;
      LoadReached(v, devices[..n]);
      if Load(v, devices[..n]).next != v.next {
        var i :| 0 <= i < n && devices[..n][i].value + 1 == Load(v, devices[..n]).next;
        assert devices[i] == devices[..n][i];
      }
      assert devices[n].value + 1 == Load(v, devices).next || Load(v, devices).next == Load(v, devices[..n]).next;
    }
  }

  /** After Init the cursor stands just past the largest saved id, or at the least id if that was the last one or
      nothing was saved. */
  lemma InitCursor(v: View, devices: Devices, m: int)
    requires AllValid(devices) && IsLargest(devices, m)
    ensures Init(v, devices).next == if m == MAX_ID then MIN_ID else m + 1
  {
    LoadCursor(v.(next := MIN_ID), devices, m);
    LoadPasses(v.(next := MIN_ID), devices);
  }

  lemma SavedIdsAreValues(devices: Devices)
    requires UniqueKeys(devices)
    ensures SavedIds(devices) == AsMap(devices).Values
  {
    forall x ensures x in SavedIds(devices) <==> x in AsMap(devices).Values {
      SavedIdsAre(devices, x);
      forall i | 0 <= i < |devices| && devices[i].value == x ensures x in AsMap(devices).Values {
        AsMapAt(devices, i);
      }
      forall a | a in AsMap(devices) && AsMap(devices)[a] == x
        ensures exists i :: 0 <= i < |devices| && devices[i].value == x
      {
        AsMapHas(devices, a);
        assert devices[IndexOf(devices, a)].value == x;
      }
    }
  }

  lemma InjectiveIff(devices: Devices)
    requires UniqueKeys(devices)
    ensures Injective(AsMap(devices)) <==> UniqueIds(devices)
  {
    var m := AsMap(devices);
    if UniqueIds(devices) {
      forall a, b | a in m && b in m && m[a] == m[b] ensures a == b {
        AsMapHas(devices, a);
        AsMapHas(devices, b);
        assert devices[IndexOf(devices, a)].value == devices[IndexOf(devices, b)].value;
      }
    } else {
      var i, j :| 0 <= i < j < |devices| && devices[i].value == devices[j].value;
      AsMapAt(devices, i);
      AsMapAt(devices, j);
      assert !Injective(m);
    }
  }

  lemma JoinedValues(p: map<RawAddress, int>, t: map<RawAddress, int>)
    requires p.Keys !! t.Keys
    ensures (p + t).Values == t.Values + p.Values
  {
    forall x ensures x in (p + t).Values <==> x in t.Values + p.Values {
      if x in t.Values {
        var b :| b in t && t[b] == x;
        assert (p + t)[b] == x;
      } else if x in p.Values {
        var b :| b in p && p[b] == x;
        assert (p + t)[b] == x;
      }
    }
  }

  /** Two maps agree with all their values exactly when they share neither addresses nor ids. */
  lemma AgreeJoined(p: map<RawAddress, int>, t: map<RawAddress, int>)
    requires Injective(t)
    ensures Agree(p, t, t.Values + p.Values) <==> p.Keys !! t.Keys && Injective(p) && p.Values !! t.Values
  {
    if p.Keys !! t.Keys {
      JoinedValues(p, t);
      var m := p + t;
      if Injective(m) {
        forall a, b | a in p && b in p && p[a] == p[b] ensures a == b {
          assert m[a] == m[b];
        }
        forall a, b | a in p && b in t ensures p[a] != t[b] {
          assert m[a] == p[a] && m[b] == t[b];
        }
      }
      if Injective(p) && p.Values !! t.Values {
        forall a, b | a in p && b in t ensures p[a] != t[b] {
          assert p[a] in p.Values && t[b] in t.Values;
        }
      }
    }
  }

  /** What a map leaves of the owners `p` and `t` when its addresses leave `p`: distinct ids, apart from those
      its addresses had. */
  lemma Untouched(p: map<RawAddress, int>, t: map<RawAddress, int>, d: map<RawAddress, int>)
    requires p.Keys !! t.Keys && Injective(p + t) && d.Keys !! t.Keys
    ensures var w := (p - d.Keys) + t;
            && w.Keys !! d.Keys && Injective(w) && w.Values !! HadBefore(p, d)
            && (p + t).Values == w.Values + HadBefore(p, d) && (p + d) + t == d + w
  {
    var w, all := (p - d.Keys) + t, p + t;
    assert forall a :: a in w ==> a in all && w[a] == all[a];
    assert (p + d) + t == d + w;
    UntouchedValues(p, t, d);
    forall a, b | a in w && b in d && b in p ensures w[a] != p[b] {
      assert all[a] == w[a] && all[b] == p[b];
    }
  }

  lemma UntouchedValues(p: map<RawAddress, int>, t: map<RawAddress, int>, d: map<RawAddress, int>)
    requires p.Keys !! t.Keys && d.Keys !! t.Keys
    ensures (p + t).Values == ((p - d.Keys) + t).Values + HadBefore(p, d)
  {
    var w, all := (p - d.Keys) + t, p + t;
    forall x ensures x in all.Values <==> x in w.Values + HadBefore(p, d) {
      if x in all.Values {
        var a :| a in all && all[a] == x;
        assert if a in d then x in HadBefore(p, d) else w[a] == x;
      }
      if x in w.Values {
        var a :| a in w && w[a] == x;
        assert all[a] == x;
      } else if x in HadBefore(p, d) {
        var a :| a in d && a in p && p[a] == x;
        assert all[a] == x;
      }
    }
  }

  /** The ids that the addresses of `d` have in `p`. */
  ghost function HadBefore(p: map<RawAddress, int>, d: map<RawAddress, int>): set<int> {
    set a | a in d && a in p :: p[a]
  }

  lemma AgreeMerged(p: map<RawAddress, int>, t: map<RawAddress, int>, d: map<RawAddress, int>, ids: set<int>)
    requires Agree(p, t, ids)
    ensures Agree(p + d, t, ids + d.Values)
       <==> d.Keys !! t.Keys && Injective(d) && d.Values * ids == HadBefore(p, d)
  {
    if d.Keys !! t.Keys {
      var w, had := (p - d.Keys) + t, HadBefore(p, d);
      Untouched(p, t, d);
      AgreeJoined(d, w);
      JoinedValues(d, w);
      assert (p + d).Keys !! t.Keys;
      OverlapIs(d.Values, w.Values, had);
    } else {
      var a :| a in d && a in t;
      assert a in p + d;
    }
  }

  /** The overlap of `s` with two disjoint sets is the second exactly when `s` misses the first and covers the
      second. */
  lemma OverlapIs(s: set<int>, w: set<int>, had: set<int>)
    requires w !! had
    ensures s * (w + had) == had <==> s !! w && had <= s
    ensures w + had + s == w + s <==> had <= s
  {
    if s * (w + had) == had {
      assert forall x :: x in had ==> x in s * (w + had);
      assert s * w <= s * (w + had);
    }
    if w + had + s == w + s {
      assert forall x :: x in had ==> x in w + s;
    }
  }

  /** The ids that the saved addresses had before, as paired devices. */
  ghost function OldIds(v: View, devices: Devices): set<int> {
    HadBefore(AsMap(v.paired), AsMap(devices))
  }

  /** No two saved devices share an id, no saved address is a temporary device, and the saved ids that were in
      use are exactly those the saved addresses had. */
  ghost predicate Loadable(v: View, devices: Devices) {
    && UniqueIds(devices)
    && (forall i :: 0 <= i < |devices| ==> !Has(v.temporary, devices[i].key))
    && SavedIds(devices) * v.ids == OldIds(v, devices)
  }

  lemma NoneTemporary(v: View, devices: Devices)
    requires UniqueKeys(devices) && UniqueKeys(v.temporary)
    ensures (forall i :: 0 <= i < |devices| ==> !Has(v.temporary, devices[i].key))
       <==> AsMap(devices).Keys !! AsMap(v.temporary).Keys
  {
    var d, t := AsMap(devices), AsMap(v.temporary);
    forall i | 0 <= i < |devices| ensures Has(v.temporary, devices[i].key) <==> devices[i].key in t {
      AsMapHas(v.temporary, devices[i].key);
    }
    forall i | 0 <= i < |devices| ensures devices[i].key in d {
      AsMapAt(devices, i);
    }
    forall a | a in d ensures exists i :: 0 <= i < |devices| && devices[i].key == a {
      AsMapHas(devices, a);
    }
  }

  /** As long as paired and saved devices together fit the cache, and the saved ids are in range, Init keeps the
      invariant exactly when the saved devices are loadable. */
  lemma InitInv(v: View, devices: Devices)
    requires Inv(v) && UniqueKeys(devices) && Together(v, devices) && AllValid(devices)
    ensures Inv(Init(v, devices)) <==> Loadable(v, devices)
  {
    InitStores(v, devices);
    StoredInv(v, Init(v, devices), AsMap(v.paired) + AsMap(devices), v.ids + SavedIds(devices));
    SavedIdsAreValues(devices);
    NoneTemporary(v, devices);
    InjectiveIff(devices);
    AgreeMerged(AsMap(v.paired), AsMap(v.temporary), AsMap(devices), v.ids);
  }

  lemma InitStores(v: View, devices: Devices)
    requires Inv(v) && UniqueKeys(devices) && Together(v, devices) && AllValid(devices)
    ensures Stored(v, Init(v, devices), AsMap(v.paired) + AsMap(devices), v.ids + SavedIds(devices))
    ensures IsValidId(Init(v, devices).next) && forall id :: id in v.ids + SavedIds(devices) ==> IsValidId(id)
  {
    LoadMerges(v.(next := MIN_ID), devices);
    LoadPasses(v.(next := MIN_ID), devices);
    forall id | id in SavedIds(devices) ensures IsValidId(id) {
      SavedIdsAre(devices, id);
    }
  }

  lemma StoredInv(v: View, v': View, m: map<RawAddress, int>, ids: set<int>)
    requires Inv(v) && Stored(v, v', m, ids) && IsValidId(v'.next) && forall id :: id in ids ==> IsValidId(id)
    ensures Inv(v') <==> Agree(m, AsMap(v.temporary), ids)
  {
  }

  lemma One(e: Entry<RawAddress, int>)
    ensures var s: Devices := [e];
            UniqueKeys(s) && AsMap(s) == map[e.key := e.value] && AsMap(s).Values == SavedIds(s) == {e.value}
  {
    var s: Devices := [e];
    assert s[1..] == [] && s[..0] == [];
    assert AsMap(s)[e.key] == e.value;
  }

  /** A cache with one device agrees with its index. */
  lemma OnePaired(e: Entry<RawAddress, int>, next: int, callbacks: seq<Callback>)
    requires IsValidId(e.value) && IsValidId(next)
    ensures Inv(View([e], [], {e.value}, next, callbacks)) && Inv(View([], [e], {e.value}, next, callbacks))
  {
    One(e);
    var m: map<RawAddress, int> := AsMap([e]);
    assert m + map[] == m && map[] + m == m;
  }

  /** Two saved devices with one id break the invariant, a saved id that was given out to another device before
      does, and so does a paired device saved with another id, whose old id nobody holds any more. */
  lemma InitCanFail(callbacks: seq<Callback>)
    ensures var v := View([], [], {}, MIN_ID, callbacks);
            Inv(v) && !Inv(Init(v, [Entry(1, 5), Entry(2, 5)]))
    ensures var v := View([], [Entry(3, 1)], {1}, 2, callbacks);
            Inv(v) && !Inv(Init(v, [Entry(4, 1)]))
    ensures var v := View([Entry(1, 1)], [], {1}, 2, callbacks);
            Inv(v) && !Inv(Init(v, [Entry(1, 2)])) && Inv(Init(v, [Entry(1, 1)]))
  {
    SharedIds(View([], [], {}, MIN_ID, callbacks), [Entry(1, 5), Entry(2, 5)]);
    OnePaired(Entry(3, 1), 2, callbacks);
    OnePaired(Entry(1, 1), 2, callbacks);
    LoadOneDevice(View([], [Entry(3, 1)], {1}, 2, callbacks), Entry(4, 1));
    LoadOneDevice(View([Entry(1, 1)], [], {1}, 2, callbacks), Entry(1, 2));
    LoadOneDevice(View([Entry(1, 1)], [], {1}, 2, callbacks), Entry(1, 1));
    One(Entry(1, 1));
    assert !Has<RawAddress, int>([], 1);
  }

  lemma SharedIds(v: View, devices: Devices)
    requires Empty(v) && IsValidId(v.next) && UniqueKeys(devices) && AllValid(devices)
    requires |devices| == 2 && devices[0].value == devices[1].value
    ensures Inv(v) && !Inv(Init(v, devices))
  {
    assert AsMap(v.paired) + AsMap(v.temporary) == map[];
    AsMapSize(devices);
    assert AsMap(v.paired).Keys + AsMap(devices).Keys == AsMap(devices).Keys;
    InitInv(v, devices);
  }

  /** Loading a single device. */
  lemma LoadOneDevice(v: View, e: Entry<RawAddress, int>)
    requires Inv(v) && |v.paired| <= 1 && IsValidId(e.value)
    ensures Inv(Init(v, [e])) <==>
      && !Has(v.temporary, e.key)
      && {e.value} * v.ids == if e.key in AsMap(v.paired) then {AsMap(v.paired)[e.key]} else {}
  {
    RoomForOne(v, e);
    LoadableOne(v, e);
    InitInv(v, [e]);
  }

  lemma RoomForOne(v: View, e: Entry<RawAddress, int>)
    requires UniqueKeys(v.paired) && |v.paired| <= 1 && IsValidId(e.value)
    ensures var devices: Devices := [e];
            UniqueKeys(devices) && Together(v, devices) && AllValid(devices)
  {
    One(e);
    AsMapSize(v.paired);
    assert AsMap([e]).Keys == {e.key};
  }

  lemma LoadableOne(v: View, e: Entry<RawAddress, int>)
    ensures Loadable(v, [e]) <==>
      && !Has(v.temporary, e.key)
      && {e.value} * v.ids == if e.key in AsMap(v.paired) then {AsMap(v.paired)[e.key]} else {}
  {
    var devices: Devices, p := [e], AsMap(v.paired);
    One(e);
    assert OldIds(v, devices) == if e.key in p then {p[e.key]} else {};
    assert devices[0].key == e.key;
  }

  // --- runs between Init and Close ---

  datatype Call = Allocate(addr: RawAddress) | Save(addr: RawAddress) | Forget(addr: RawAddress)

  ghost function Step(v: View, call: Call): View
    requires |v.ids| < RANGE
  {
    match call
    case Allocate(a) => AllocateId(v, a)
    case Save(a) => SaveDevice(v, a)
    case Forget(a) => ForgetDevice(v, a)
  }

  /** The id a call hands out for the first time, if any. */
  ghost function Issued(v: View, call: Call): Option<int>
    requires |v.ids| < RANGE
  {
    if call.Allocate? && !Known(v, call.addr) then Some(FreshId(v)) else None
  }

  ghost function KeyOf(e: Option<Entry<RawAddress, int>>): Option<RawAddress> {
    if e.Some? then Some(e.value.key) else None
  }

  /** The address evicted or forgotten by a call, if any. */
  ghost function Dropped(v: View, call: Call): Option<RawAddress> {
    match call
    case Allocate(a) => if Known(v, a) then None else KeyOf(Evicted(v.temporary, MAX_UNPAIRED, a))
    case Save(a) =>
      if Has(v.paired, a) || !Has(v.temporary, a) then None else KeyOf(Evicted(v.paired, MAX_PAIRED, a))
    case Forget(a) => if Has(v.paired, a) then Some(a) else None
  }

  ghost function Minus(m: map<RawAddress, int>, d: Option<RawAddress>): map<RawAddress, int> {
    if d.Some? then m - {d.value} else m
  }

  ghost function IdsOf(m: map<RawAddress, int>, d: Option<RawAddress>): set<int>
    requires d.Some? ==> d.value in m
  {
    if d.Some? then {m[d.value]} else {}
  }

  /** A call keeps the invariant; it drops at most the one evicted or forgotten owner and binds a new
      address to a fresh id. */
  ghost predicate StepEffect(v: View, call: Call)
    requires |v.ids| < RANGE
  {
    var dropped, issued := Dropped(v, call), Issued(v, call);
    && Inv(Step(v, call))
    && (dropped.Some? ==> dropped.value in Owners(v))
    && (issued.Some? ==> call.addr !in Owners(v) && issued.value !in v.ids)
    && var kept := Minus(Owners(v), dropped);
       Owners(Step(v, call)) == if issued.Some? then kept[call.addr := issued.value] else kept
  }

  lemma AgreeAllocate(p: map<RawAddress, int>, t: map<RawAddress, int>, ids: set<int>,
                      a: RawAddress, id: int, d: Option<RawAddress>)
    requires Agree(p, t, ids) && a !in p + t && id !in ids && (d.Some? ==> d.value in t)
    ensures var t' := Minus(t, d)[a := id];
            Agree(p, t', ids + {id} - IdsOf(t, d)) && p + t' == Minus(p + t, d)[a := id]
  {
    var t' := Minus(t, d)[a := id];
    assert p + t' == Minus(p + t, d)[a := id];
    if d.Some? {
      DropOwner(p + t, d.value);
    }
    AddOwner(Minus(p + t, d), a, id);
  }

  lemma AgreeSave(p: map<RawAddress, int>, t: map<RawAddress, int>, ids: set<int>,
                  a: RawAddress, d: Option<RawAddress>)
    requires Agree(p, t, ids) && a in t && (d.Some? ==> d.value in p)
    ensures var p', t' := Minus(p, d)[a := t[a]], t - {a};
            Agree(p', t', ids - IdsOf(p, d)) && p' + t' == Minus(p + t, d)
  {
    var p', t' := Minus(p, d)[a := t[a]], t - {a};
    assert p' + t' == Minus(p + t, d);
    if d.Some? {
      DropOwner(p + t, d.value);
    }
  }

  lemma AgreeForget(p: map<RawAddress, int>, t: map<RawAddress, int>, ids: set<int>, a: RawAddress)
    requires Agree(p, t, ids) && a in p
    ensures Agree(p - {a}, t, ids - {p[a]}) && (p - {a}) + t == (p + t) - {a}
  {
    assert (p - {a}) + t == (p + t) - {a};
    DropOwner(p + t, a);
  }

  lemma BindEffect(v: View, a: RawAddress, id: int)
    requires Inv(v) && !Known(v, a) && id !in v.ids && IsValidId(id)
    ensures Inv(Bind(v, a, id))
    ensures var d := KeyOf(Evicted(v.temporary, MAX_UNPAIRED, a));
            && (d.Some? ==> d.value in Owners(v)) && a !in Owners(v)
            && Owners(Bind(v, a, id)) == Minus(Owners(v), d)[a := id]
  {
    AsMapHas(v.paired, a);
    AsMapHas(v.temporary, a);
    AsMapPut(v.temporary, MAX_UNPAIRED, a, id);
    AgreeAllocate(AsMap(v.paired), AsMap(v.temporary), v.ids, a, id, KeyOf(Evicted(v.temporary, MAX_UNPAIRED, a)));
  }

  lemma KnownEffect(v: View, a: RawAddress)
    requires Inv(v) && Known(v, a) && |v.ids| < RANGE
    ensures Inv(AllocateId(v, a)) && Owners(AllocateId(v, a)) == Owners(v)
  {
    AsMapTouch(v.paired, a);
    AsMapTouch(v.temporary, a);
  }

  lemma AllocateEffect(v: View, a: RawAddress)
    requires Inv(v)
    ensures |v.ids| < RANGE && StepEffect(v, Allocate(a))
  {
    IdsBound(v);
    if Known(v, a) {
      KnownEffect(v, a);
    } else {
      BindEffect(v, a, FreshId(v));
    }
  }

  lemma SaveEffect(v: View, a: RawAddress)
    requires Inv(v)
    ensures |v.ids| < RANGE && StepEffect(v, Save(a))
  {
    IdsBound(v);
    AsMapHas(v.paired, a);
    AsMapHas(v.temporary, a);
    var p, t := AsMap(v.paired), AsMap(v.temporary);
    if a in p {
      SaveOldEffect(v, a);
    } else if a in t {
      SaveNewEffect(v, a);
    }
  }

  lemma SaveOldEffect(v: View, a: RawAddress)
    requires Inv(v) && Has(v.paired, a)
    ensures Inv(SaveDevice(v, a)) && Owners(SaveDevice(v, a)) == Owners(v)
  {
    AsMapTouch(v.paired, a);
  }

  lemma SaveNewEffect(v: View, a: RawAddress)
    requires Inv(v) && !Has(v.paired, a) && Has(v.temporary, a)
    ensures Inv(SaveDevice(v, a))
    ensures var d := KeyOf(Evicted(v.paired, MAX_PAIRED, a));
            (d.Some? ==> d.value in Owners(v)) && Owners(SaveDevice(v, a)) == Minus(Owners(v), d)
  {
    AsMapHas(v.temporary, a);
    AsMapTouch(v.temporary, a);
    AsMapWithout(Touch(v.temporary, a), a);
    var t := AsMap(v.temporary);
    AsMapPut(v.paired, MAX_PAIRED, a, t[a]);
    AgreeSave(AsMap(v.paired), t, v.ids, a, KeyOf(Evicted(v.paired, MAX_PAIRED, a)));
  }

  lemma ForgetEffect(v: View, a: RawAddress)
    requires Inv(v)
    ensures |v.ids| < RANGE && StepEffect(v, Forget(a))
  {
    IdsBound(v);
    AsMapHas(v.paired, a);
    AsMapHas(v.temporary, a);
    var p, t := AsMap(v.paired), AsMap(v.temporary);
    if a in p {
      ForgetPairedEffect(v, a);
    }
  }

  lemma ForgetPairedEffect(v: View, a: RawAddress)
    requires Inv(v) && Has(v.paired, a)
    ensures Inv(ForgetDevice(v, a)) && Owners(ForgetDevice(v, a)) == Owners(v) - {a}
  {
    AsMapHas(v.paired, a);
    AsMapTouch(v.paired, a);
    AsMapWithout(Touch(v.paired, a), a);
    AgreeForget(AsMap(v.paired), AsMap(v.temporary), v.ids, a);
  }

  lemma StepKeeps(v: View, call: Call)
    requires Inv(v)
    ensures |v.ids| < RANGE && StepEffect(v, call)
  {
    match call
    case Allocate(a) => AllocateEffect(v, a);
    case Save(a) => SaveEffect(v, a);
    case Forget(a) => ForgetEffect(v, a);
  }

  // --- the search always ends ---

  ghost function Held(v: View): set<int> {
    AsMap(v.paired).Values + AsMap(v.temporary).Values
  }

  /** Every id of the index is held by a device, and the cursor is in range. Unlike the invariant this needs
      no distinct ids. */
  ghost predicate Searchable(v: View) {
    && UniqueKeys(v.paired) && |v.paired| <= MAX_PAIRED
    && UniqueKeys(v.temporary) && |v.temporary| <= MAX_UNPAIRED
    && v.ids <= Held(v) && IsValidId(v.next)
  }

  lemma InvSearchable(v: View)
    requires Inv(v)
    ensures Searchable(v)
  {
    JoinedValues(AsMap(v.paired), AsMap(v.temporary));
  }

  /** The search for a free id ends. */
  lemma SearchEnds(v: View)
    requires Searchable(v)
    ensures |v.ids| <= MAX_PAIRED + MAX_UNPAIRED < RANGE
  {
    ValuesSize(AsMap(v.paired));
    ValuesSize(AsMap(v.temporary));
    AsMapSize(v.paired);
    AsMapSize(v.temporary);
    SubsetSize(v.ids, Held(v));
  }

  lemma ValuesWithout(m: map<RawAddress, int>, a: RawAddress)
    requires a in m
    ensures m.Values - {m[a]} <= (m - {a}).Values
  {
    forall x | x in m.Values - {m[a]} ensures x in (m - {a}).Values {
      var b :| b in m && m[b] == x;
      assert (m - {a})[b] == x;
    }
  }

  lemma ValuesWith(m: map<RawAddress, int>, a: RawAddress, id: int)
    requires a !in m
    ensures m.Values + {id} <= m[a := id].Values
  {
    forall x | x in m.Values + {id} ensures x in m[a := id].Values {
      if x in m.Values {
        var b :| b in m && m[b] == x;
        assert m[a := id][b] == x;
      } else {
        assert m[a := id][a] == x;
      }
    }
  }

  /** A new entry of a cache holds its id, and only the id of the entry it evicts is lost. */
  lemma PutHolds(s: Devices, capacity: nat, a: RawAddress, id: int)
    requires UniqueKeys(s) && |s| <= capacity && 0 < capacity && !Has(s, a)
    ensures UniqueKeys(Put(s, capacity, a, id)) && |Put(s, capacity, a, id)| <= capacity
    ensures AsMap(s).Values + {id} - EvictedIds(Evicted(s, capacity, a)) <= AsMap(Put(s, capacity, a, id)).Values
  {
    var m, evicted := AsMap(s), Evicted(s, capacity, a);
    AsMapHas(s, a);
    AsMapPut(s, capacity, a, id);
    if evicted.Some? {
      ValuesWithout(m, evicted.value.key);
      ValuesWith(m - {evicted.value.key}, a, id);
    } else {
      ValuesWith(m, a, id);
    }
  }

  /** Taking an entry out of a cache loses only its id. */
  lemma TakeHolds(s: Devices, a: RawAddress)
    requires UniqueKeys(s) && Has(s, a)
    ensures var s' := Without(Touch(s, a), a);
            UniqueKeys(s') && |s'| <= |s| && AsMap(s).Values - {Lookup(s, a)} <= AsMap(s').Values
  {
    AsMapHas(s, a);
    AsMapTouch(s, a);
    AsMapWithout(Touch(s, a), a);
    ValuesWithout(AsMap(s), a);
  }

  lemma AllocateSearchable(v: View, a: RawAddress)
    requires Searchable(v) && |v.ids| < RANGE
    ensures Searchable(AllocateId(v, a))
  {
    AsMapTouch(v.paired, a);
    AsMapTouch(v.temporary, a);
    if !Known(v, a) {
      PutHolds(v.temporary, MAX_UNPAIRED, a, FreshId(v));
    }
  }

  lemma SaveSearchable(v: View, a: RawAddress)
    requires Searchable(v)
    ensures Searchable(SaveDevice(v, a))
  {
    AsMapTouch(v.paired, a);
    if !Has(v.paired, a) && Has(v.temporary, a) {
      TakeHolds(v.temporary, a);
      PutHolds(v.paired, MAX_PAIRED, a, Lookup(v.temporary, a));
    }
  }

  lemma ForgetSearchable(v: View, a: RawAddress)
    requires Searchable(v)
    ensures Searchable(ForgetDevice(v, a))
  {
    if Has(v.paired, a) {
      TakeHolds(v.paired, a);
    }
  }

  /** Whatever is called, the next search ends too. */
  lemma StepSearchable(v: View, call: Call)
    requires Searchable(v)
    ensures |v.ids| < RANGE && Searchable(Step(v, call))
  {
    SearchEnds(v);
    match call
    case Allocate(a) => AllocateSearchable(v, a);
    case Save(a) => SaveSearchable(v, a);
    case Forget(a) => ForgetSearchable(v, a);
  }

  /** So it is after Init exactly when every id in use is saved, or held by a device that is not saved. */
  lemma InitSearchable(v: View, devices: Devices)
    requires Searchable(v) && UniqueKeys(devices) && Together(v, devices) && AllValid(devices)
    ensures Searchable(Init(v, devices)) <==> NoneLeft(v, devices)
  {
    LoadMerges(v.(next := MIN_ID), devices);
    LoadPasses(v.(next := MIN_ID), devices);
    SavedIdsAreValues(devices);
    MergedValues(AsMap(v.paired), AsMap(devices));
  }

  lemma MergedValues(p: map<RawAddress, int>, d: map<RawAddress, int>)
    ensures (p + d).Values == d.Values + (p - d.Keys).Values
  {
    assert p + d == (p - d.Keys) + d;
    JoinedValues(p - d.Keys, d);
  }

  /** Every id in use is saved again, or held by a device that is not saved as a paired one. */
  ghost predicate NoneLeft(v: View, devices: Devices) {
    v.ids <= SavedIds(devices) + (AsMap(v.paired) - AsMap(devices).Keys).Values + AsMap(v.temporary).Values
  }

  /** With nobody paired before, searches end whatever is loaded. */
  lemma NoneLeftByNobody(v: View, devices: Devices)
    requires Searchable(v) && v.paired == []
    ensures NoneLeft(v, devices)
  {
  }

  /** All that Init promises. */
  lemma InitKeeps(v: View, devices: Devices)
    ensures UniqueKeys(devices) && Together(v, devices) && AllValid(devices) ==>
              && (Inv(v) ==> (Inv(Init(v, devices)) <==> Loadable(v, devices)))
              && (Searchable(v) ==> (Searchable(Init(v, devices)) <==> NoneLeft(v, devices)))
  {
    if UniqueKeys(devices) && Together(v, devices) && AllValid(devices) {
      if Inv(v) {
        InitInv(v, devices);
      }
      if Searchable(v) {
        InitSearchable(v, devices);
      }
    }
  }

  lemma TakeOneMore(devices: Devices, i: nat)
    requires i < |devices|
    ensures devices[..i + 1] == devices[..i] + [devices[i]] && devices[..i + 1][..i] == devices[..i]
    ensures AllValid(devices[..i + 1]) <==> AllValid(devices[..i]) && IsValidId(devices[i].value)
    ensures AllValid(devices) ==> IsValidId(devices[i].value)
  {
    var all := devices[..i + 1];
    assert all == devices[..i] + [devices[i]];
    assert forall j :: 0 <= j < i ==> all[j] == devices[..i][j];
  }

  /** What every call keeps: the invariant, and that searches end. */
  ghost predicate Kept(v: View, v': View) {
    && (Inv(v) ==> Inv(v'))
    && (Searchable(v) ==> Searchable(v') && |v'.ids| < RANGE)
  }

  lemma AllocateKeeps(v: View, a: RawAddress)
    requires |v.ids| < RANGE
    ensures Kept(v, AllocateId(v, a))
  {
    if Inv(v) {
      StepKeeps(v, Allocate(a));
    }
    if Searchable(v) {
      StepSearchable(v, Allocate(a));
      SearchEnds(AllocateId(v, a));
    }
  }

  lemma SaveKeeps(v: View, a: RawAddress)
    ensures Kept(v, SaveDevice(v, a))
  {
    if Inv(v) {
      StepKeeps(v, Save(a));
    }
    if Searchable(v) {
      StepSearchable(v, Save(a));
      SearchEnds(SaveDevice(v, a));
    }
  }

  lemma ForgetKeeps(v: View, a: RawAddress)
    ensures Kept(v, ForgetDevice(v, a))
  {
    if Inv(v) {
      StepKeeps(v, Forget(a));
    }
    if Searchable(v) {
      StepSearchable(v, Forget(a));
      SearchEnds(ForgetDevice(v, a));
    }
  }

  /** Without devices everything agrees. */
  lemma EmptyInv(v: View)
    requires Empty(v) && IsValidId(v.next)
    ensures Inv(v) && Searchable(v)
  {
    assert AsMap(v.paired) + AsMap(v.temporary) == map[];
    InvSearchable(v);
  }

  // --- every run ---

  /** One call; it needs a free id to be in range, or the search would never end. */
  ghost predicate Next(v: View, call: Call, v': View) {
    |v.ids| < RANGE && v' == Step(v, call)
  }

  ghost predicate IsRun(states: seq<View>, calls: seq<Call>) {
    && |states| == |calls| + 1
    && Inv(states[0])
    && forall i :: 0 <= i < |calls| ==> CallAt(states, calls, i)
  }

  ghost predicate CallAt(states: seq<View>, calls: seq<Call>, i: nat)
    requires |states| == |calls| + 1 && i < |calls|
  {
    Next(states[i], calls[i], states[i + 1])
  }

  /** Call number `i` of a run. */
  lemma NextAt(states: seq<View>, calls: seq<Call>, i: nat)
    requires IsRun(states, calls) && i < |calls|
    ensures Next(states[i], calls[i], states[i + 1])
  {
    assert CallAt(states, calls, i);
  }

  lemma NextKeeps(v: View, call: Call, v': View)
    requires Inv(v) && Next(v, call, v')
    ensures Inv(v')
  {
    StepKeeps(v, call);
  }

  /** The invariant holds in every state of every run. */
  lemma {:induction false} RunInv(states: seq<View>, calls: seq<Call>, i: nat)
    requires IsRun(states, calls) && i < |states|
    ensures Inv(states[i])
  {
    if i > 0 {
      RunInv(states, calls, i - 1);
      NextAt(states, calls, i - 1);
      NextKeeps(states[i - 1], calls[i - 1], states[i]);
    }
  }

  /** No run is ever short of a free id, and the cursor rests in range. */
  lemma RunBound(states: seq<View>, calls: seq<Call>, i: nat)
    requires IsRun(states, calls) && i < |states|
    ensures |states[i].ids| <= MAX_PAIRED + MAX_UNPAIRED < RANGE && IsValidId(states[i].next)
  {
    RunInv(states, calls, i);
    IdsBound(states[i]);
  }

  /** A call takes the id only from the address it drops. */
  lemma StepKeepsId(v: View, call: Call, a: RawAddress)
    requires Inv(v) && |v.ids| < RANGE
    ensures a in Owners(v) && Dropped(v, call) != Some(a) ==>
              a in Owners(Step(v, call)) && Owners(Step(v, call))[a] == Owners(v)[a]
  {
    StepKeeps(v, call);
  }

  /** An address keeps its id, through SaveDevice too, until it is evicted or forgotten. */
  lemma {:induction false} IdIsStable(states: seq<View>, calls: seq<Call>, a: RawAddress, i: nat, j: nat)
    requires IsRun(states, calls) && i <= j < |states| && a in Owners(states[i])
    requires forall k :: i <= k < j ==> Dropped(states[k], calls[k]) != Some(a)
    ensures a in Owners(states[j]) && Owners(states[j])[a] == Owners(states[i])[a]
    decreases j
  {
    if i < j {
      IdIsStable(states, calls, a, i, j - 1);
      RunInv(states, calls, j - 1);
      NextAt(states, calls, j - 1);
      StepKeepsId(states[j - 1], calls[j - 1], a);
    }
  }

  /** Owning an id is being found with it in one of the caches. */
  lemma OwnerIsKnown(v: View, a: RawAddress)
    requires Inv(v)
    ensures a in Owners(v) <==> Known(v, a)
    ensures Known(v, a) ==> IdOf(v, a) == Owners(v)[a]
  {
    AsMapHas(v.paired, a);
    AsMapHas(v.temporary, a);
  }

  /** Searches end in every state of every run that starts with every id in use held by a device, sharing ids
      or not. */
  lemma {:induction false} RunSearchable(states: seq<View>, calls: seq<Call>, i: nat)
    requires |states| == |calls| + 1 && i < |states| && Searchable(states[0])
    requires forall k :: 0 <= k < |calls| ==> CallAt(states, calls, k)
    ensures Searchable(states[i]) && |states[i].ids| < RANGE
  {
    if i > 0 {
      RunSearchable(states, calls, i - 1);
      assert CallAt(states, calls, i - 1);
      StepSearchable(states[i - 1], calls[i - 1]);
    }
    SearchEnds(states[i]);
  }

  // --- what the callbacks tell ---

  /** A record kept by following the callbacks: a saved device is entered, a forgotten one struck out. */
  ghost function Replay(record: map<RawAddress, int>, callbacks: seq<Callback>): map<RawAddress, int> {
    if callbacks == [] then record
    else
      var before := Replay(record, callbacks[..|callbacks| - 1]);
      var last := callbacks[|callbacks| - 1];
      if last.Saved? then before[last.addr := last.id] else before - {last.addr}
  }

  lemma ReplaySnoc(record: map<RawAddress, int>, callbacks: seq<Callback>, c: Callback)
    ensures var before := Replay(record, callbacks);
            Replay(record, callbacks + [c]) == if c.Saved? then before[c.addr := c.id] else before - {c.addr}
  {
    assert (callbacks + [c])[..|callbacks|] == callbacks;
  }

  lemma SaveMirrored(v: View, a: RawAddress, record: map<RawAddress, int>)
    requires UniqueKeys(v.paired) && |v.paired| <= MAX_PAIRED && Replay(record, v.callbacks) == AsMap(v.paired)
    requires !Has(v.paired, a) && Has(v.temporary, a)
    ensures Replay(record, SaveDevice(v, a).callbacks) == AsMap(SaveDevice(v, a).paired)
  {
    var id, evicted := Lookup(v.temporary, a), Evicted(v.paired, MAX_PAIRED, a);
    AsMapPut(v.paired, MAX_PAIRED, a, id);
    if evicted.Some? {
      ReplaySnoc(record, v.callbacks, Forgotten(evicted.value.key, evicted.value.value));
    } else {
      assert v.callbacks + [] == v.callbacks;
    }
    ReplaySnoc(record, v.callbacks + ForgottenCallback(evicted), Saved(a, id));
  }

  lemma StepMirrored(v: View, call: Call, v': View, record: map<RawAddress, int>)
    requires UniqueKeys(v.paired) && |v.paired| <= MAX_PAIRED && Next(v, call, v')
    requires Replay(record, v.callbacks) == AsMap(v.paired)
    ensures Replay(record, v'.callbacks) == AsMap(v'.paired)
  {
    AsMapTouch(v.paired, call.addr);
    if call.Save? && !Has(v.paired, call.addr) && Has(v.temporary, call.addr) {
      SaveMirrored(v, call.addr, record);
    } else if call.Forget? && Has(v.paired, call.addr) {
      AsMapWithout(Touch(v.paired, call.addr), call.addr);
      ReplaySnoc(record, v.callbacks, Forgotten(call.addr, Lookup(v.paired, call.addr)));
    }
  }

  lemma RunPaired(states: seq<View>, calls: seq<Call>, i: nat)
    requires IsRun(states, calls) && i < |states|
    ensures UniqueKeys(states[i].paired) && |states[i].paired| <= MAX_PAIRED
  {
    RunInv(states, calls, i);
  }

  /** A record of the paired devices kept by following the save and forget callbacks agrees with the
      paired cache after every call. */
  lemma {:induction false} CallbacksMirrorPaired(states: seq<View>, calls: seq<Call>,
                                                 record: map<RawAddress, int>, i: nat)
    requires IsRun(states, calls) && i < |states|
    requires Replay(record, states[0].callbacks) == AsMap(states[0].paired)
    ensures Replay(record, states[i].callbacks) == AsMap(states[i].paired)
  {
    if i > 0 {
      CallbacksMirrorPaired(states, calls, record, i - 1);
      RunPaired(states, calls, i - 1);
      NextAt(states, calls, i - 1);
      StepMirrored(states[i - 1], calls[i - 1], states[i], record);
    }
  }

  /** A device newly paired is reported with the id it keeps, after the device it evicts, if any, with its id. */
  lemma SaveTells(v: View, a: RawAddress)
    requires UniqueKeys(v.paired) && |v.paired| <= MAX_PAIRED && UniqueKeys(v.temporary)
    requires !Has(v.paired, a) && Has(v.temporary, a)
    ensures a in AsMap(v.temporary)
    ensures var p, saved := AsMap(v.paired), Saved(a, AsMap(v.temporary)[a]);
            match Dropped(v, Save(a))
            case None => SaveDevice(v, a).callbacks == v.callbacks + [saved]
            case Some(d) => d in p && SaveDevice(v, a).callbacks == v.callbacks + [Forgotten(d, p[d]), saved]
  {
    AsMapHas(v.temporary, a);
    var evicted, saved := Evicted(v.paired, MAX_PAIRED, a), Saved(a, AsMap(v.temporary)[a]);
    if evicted.Some? {
      EvictedIsHeld(v.paired, a);
    }
    JoinCallbacks(v.callbacks, evicted, saved);
  }

  lemma EvictedIsHeld(s: Devices, a: RawAddress)
    requires UniqueKeys(s) && Evicted(s, MAX_PAIRED, a).Some?
    ensures var e := Evicted(s, MAX_PAIRED, a).value; e.key in AsMap(s) && AsMap(s)[e.key] == e.value
  {
    AsMapAt(s, |s| - 1);
  }

  lemma JoinCallbacks(callbacks: seq<Callback>, e: Option<Entry<RawAddress, int>>, saved: Callback)
    ensures callbacks + ForgottenCallback(e) + [saved]
         == callbacks + if e.Some? then [Forgotten(e.value.key, e.value.value), saved] else [saved]
  {
  }

  /** A device forgotten is reported with its id; nothing else is ever reported. */
  lemma OthersTell(v: View, call: Call)
    requires |v.ids| < RANGE && UniqueKeys(v.paired)
    requires call.Save? ==> Has(v.paired, call.addr) || !Has(v.temporary, call.addr)
    ensures var p := AsMap(v.paired);
            Step(v, call).callbacks ==
            v.callbacks + if call.Forget? && call.addr in p then [Forgotten(call.addr, p[call.addr])] else []
  {
    AsMapHas(v.paired, call.addr);
  }

  // --- the reuse gap ---

  ghost function AsSet(id: Option<int>): set<int> {
    if id.Some? then {id.value} else {}
  }

  /** The ids issued fresh by the calls `lo`, ..., `hi - 1` of a run. */
  ghost function IssuedIn(states: seq<View>, calls: seq<Call>, lo: nat, hi: nat): set<int>
    requires IsRun(states, calls) && lo <= hi <= |calls|
  {
    if lo == hi then {}
    else
      NextAt(states, calls, hi - 1);
      IssuedIn(states, calls, lo, hi - 1) + AsSet(Issued(states[hi - 1], calls[hi - 1]))
  }

  /** The cursor has moved `n` places from `c`, and every id it passed, like every id held now, is in
      `seen`. */
  ghost predicate Lap(v: View, c: int, n: nat, seen: set<int>) {
    && v.next == Nth(c, n)
    && v.ids <= seen
    && (forall k :: 0 <= k < n ==> Nth(c, k) in seen)
  }

  /** Every id before the one issued next is taken, so it is in `seen`. */
  lemma Passed(v: View, c: int, n: nat, seen: set<int>)
    requires |v.ids| < RANGE && Lap(v, c, n, seen)
    ensures var j := Skips(v.ids, v.next);
            FreshId(v) == Nth(c, n + j) && forall k :: 0 <= k < n + j ==> Nth(c, k) in seen
  {
    var j := Skips(v.ids, v.next);
    NthNth(c, n, j);
    forall k | n <= k < n + j ensures Nth(c, k) in seen {
      NthNth(c, n, k - n);
    }
  }

  /** What a call does to index and cursor. */
  lemma StepIssues(v: View, call: Call)
    requires |v.ids| < RANGE
    ensures Step(v, call).ids <= v.ids + AsSet(Issued(v, call))
    ensures Step(v, call).next == if Issued(v, call).Some? then Succ(FreshId(v)) else v.next
  {
  }

  lemma LapStep(v: View, call: Call, c: int, n: nat, seen: set<int>) returns (n': nat)
    requires |v.ids| < RANGE && IsValidId(c) && Lap(v, c, n, seen)
    ensures Lap(Step(v, call), c, n', seen + AsSet(Issued(v, call)))
  {
    StepIssues(v, call);
    if Issued(v, call).Some? {
      Passed(v, c, n, seen);
      var j := Skips(v.ids, v.next);
      NthSucc(c, n + j);
      n' := n + j + 1;
    } else {
      n' := n;
    }
  }

  lemma LapStart(v: View)
    requires IsValidId(v.next)
    ensures Lap(v, v.next, 0, v.ids + {})
  {
  }

  /** The same step, with the ids held at the start and the ids issued since kept apart. */
  lemma LapNext(v: View, call: Call, v': View, c: int, n: nat, held: set<int>, before: set<int>) returns (n': nat)
    requires Next(v, call, v') && IsValidId(c) && Lap(v, c, n, held + before)
    ensures Lap(v', c, n', held + (before + AsSet(Issued(v, call))))
  {
    n' := LapStep(v, call, c, n, held + before);
    assert held + before + AsSet(Issued(v, call)) == held + (before + AsSet(Issued(v, call)));
  }

  lemma IssuedInStep(states: seq<View>, calls: seq<Call>, lo: nat, hi: nat)
    requires IsRun(states, calls) && lo < hi <= |calls|
    ensures Next(states[hi - 1], calls[hi - 1], states[hi])
    ensures IssuedIn(states, calls, lo, hi)
         == IssuedIn(states, calls, lo, hi - 1) + AsSet(Issued(states[hi - 1], calls[hi - 1]))
  {
    NextAt(states, calls, hi - 1);
  }

  lemma {:induction false} LapRun(states: seq<View>, calls: seq<Call>, lo: nat, hi: nat) returns (n: nat)
    requires IsRun(states, calls) && lo <= hi <= |calls|
    ensures Lap(states[hi], states[lo].next, n, states[lo].ids + IssuedIn(states, calls, lo, hi))
    decreases hi
  {
    RunBound(states, calls, lo);
    if lo == hi {
      n := 0;
      LapStart(states[lo]);
    } else {
      n := LapRun(states, calls, lo, hi - 1);
      IssuedInStep(states, calls, lo, hi);
      n := LapNext(states[hi - 1], calls[hi - 1], states[hi], states[lo].next, n,
                   states[lo].ids, IssuedIn(states, calls, lo, hi - 1));
    }
  }

  /** One lap of the cursor, from just past `x` to `x` again, meets every other id. */
  lemma LapCovers(x: int, y: int, m: nat) returns (k: nat)
    requires IsValidId(x) && IsValidId(y) && y != x && Nth(Succ(x), m) == x
    ensures k < m && Nth(Succ(x), k) == y
  {
    k := (y - Succ(x)) % RANGE;
  }

  /** If a whole lap met only ids of `held` and `issued`, whatever `held` leaves free was issued. */
  lemma GapFromLap(held: set<int>, issued: set<int>, x: int, m: nat)
    requires IsValidId(x) && x in held && Nth(Succ(x), m) == x
    requires forall k :: 0 <= k < m ==> Nth(Succ(x), k) in held + issued
    ensures |issued - {x}| >= RANGE - |held|
  {
    forall y | y in Window(MIN_ID, RANGE) ensures y in held + (issued - {x}) {
      if y != x {
        var k := LapCovers(x, y, m);
        assert y in held + issued;
      }
    }
    WindowSize(MIN_ID, RANGE);
    SubsetSize(Window(MIN_ID, RANGE), held + (issued - {x}));
  }

  /** An id issued fresh is held afterwards, and the cursor stands just past it. */
  lemma IssuedIsHeld(v: View, call: Call)
    requires Inv(v) && |v.ids| < RANGE
    ensures match Issued(v, call)
            case None => true
            case Some(x) => IsValidId(x) && x in Step(v, call).ids && Step(v, call).next == Succ(x)
  {
    StepKeeps(v, call);
    if Issued(v, call).Some? {
      assert Owners(Step(v, call))[call.addr] == Issued(v, call).value;
    }
  }

  /** Call number `i` of a run issues `x` fresh. */
  ghost predicate IssuesAt(states: seq<View>, calls: seq<Call>, i: nat, x: int) {
    && IsRun(states, calls) && i < |calls|
    && Next(states[i], calls[i], states[i + 1]) && Issued(states[i], calls[i]) == Some(x)
  }

  lemma HeldAfter(states: seq<View>, calls: seq<Call>, i: nat, x: int)
    requires IssuesAt(states, calls, i, x)
    ensures IsValidId(x) && x in states[i + 1].ids && states[i + 1].next == Succ(x)
  {
    RunInv(states, calls, i);
    IssuedIsHeld(states[i], calls[i]);
  }

  lemma LapIssue(v: View, call: Call, c: int, n: nat, seen: set<int>, x: int) returns (m: nat)
    requires |v.ids| < RANGE && Lap(v, c, n, seen) && Issued(v, call) == Some(x)
    ensures Nth(c, m) == x && forall k :: 0 <= k < m ==> Nth(c, k) in seen
  {
    Passed(v, c, n, seen);
    m := n + Skips(v.ids, v.next);
  }

  lemma LapBefore(states: seq<View>, calls: seq<Call>, lo: nat, j: nat, x: int) returns (m: nat)
    requires IssuesAt(states, calls, j, x) && lo <= j
    ensures Nth(states[lo].next, m) == x
    ensures forall k :: 0 <= k < m ==> Nth(states[lo].next, k) in states[lo].ids + IssuedIn(states, calls, lo, j)
  {
    var n := LapRun(states, calls, lo, j);
    m := LapIssue(states[j], calls[j], states[lo].next, n, states[lo].ids + IssuedIn(states, calls, lo, j), x);
  }

  /** Between two fresh issues of the same id, at least 334 other ids are issued fresh, whatever is
      called in between. */
  lemma ReuseGap(states: seq<View>, calls: seq<Call>, i: nat, j: nat, x: int)
    requires IssuesAt(states, calls, i, x) && IssuesAt(states, calls, j, x) && i < j
    ensures |IssuedIn(states, calls, i + 1, j) - {x}| >= RANGE - (MAX_PAIRED + MAX_UNPAIRED) == 334
  {
    HeldAfter(states, calls, i, x);
    RunBound(states, calls, i + 1);
    var m := LapBefore(states, calls, i + 1, j, x);
    GapFromLap(states[i + 1].ids, IssuedIn(states, calls, i + 1, j), x, m);
  }
}
