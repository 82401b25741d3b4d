/** The least-recently-used cache of system/common/lru.h: a doubly linked list of nodes plus a map
    from each key to its own node. `Recency` gives the abstract view (entries, most recent first)
    and what every operation does to it; `LruCache` is the linked structure and refines it. */
module Recency {
  import opened Wrappers

  datatype Entry<K, V> = Entry(key: K, value: V)

  ghost predicate Has<K, V>(s: seq<Entry<K, V>>, k: K) {
    exists i :: 0 <= i < |s| && s[i].key == k
  }

  /** Where `k` stands. */
  ghost function IndexOf<K, V>(s: seq<Entry<K, V>>, k: K): (i: nat)
    requires Has(s, k)
    ensures i < |s| && s[i].key == k
  {
    var i :| 0 <= i < |s| && s[i].key == k; i
  }

  ghost function Lookup<K, V>(s: seq<Entry<K, V>>, k: K): V
    requires Has(s, k)
  {
    s[IndexOf(s, k)].value
  }

  ghost predicate UniqueKeys<K, V>(s: seq<Entry<K, V>>) {
    forall i, j :: 0 <= i < j < |s| ==> s[i].key != s[j].key
  }

  ghost function Without<K, V>(s: seq<Entry<K, V>>, k: K): seq<Entry<K, V>> {
    if Has(s, k) then s[..IndexOf(s, k)] + s[IndexOf(s, k) + 1..] else s
  }

  ghost function Touch<K, V>(s: seq<Entry<K, V>>, k: K): seq<Entry<K, V>> {
    if Has(s, k) then [s[IndexOf(s, k)]] + Without(s, k) else s
  }

  ghost function Put<K, V>(s: seq<Entry<K, V>>, capacity: nat, k: K, v: V): seq<Entry<K, V>>
    requires capacity > 0
  {
    if Has(s, k) then [Entry(k, v)] + Without(s, k)
    else if |s| == capacity then [Entry(k, v)] + s[..|s| - 1]
    else [Entry(k, v)] + s
  }

  ghost function Evicted<K, V>(s: seq<Entry<K, V>>, capacity: nat, k: K): Option<Entry<K, V>>
    requires capacity > 0
  {
    if !Has(s, k) && |s| == capacity then Some(s[|s| - 1]) else None
  }

  lemma UniqueDrop<K, V>(s: seq<Entry<K, V>>, i: nat)
    requires UniqueKeys(s) && i < |s|
    ensures UniqueKeys(s[..i] + s[i + 1..]) && !Has(s[..i] + s[i + 1..], s[i].key)
  {
    var s' := s[..i] + s[i + 1..];
    forall a, b | 0 <= a < b < |s'| ensures s'[a].key != s'[b].key {
      assert s'[a] == s[if a < i then a else a + 1] && s'[b] == s[if b < i then b else b + 1];
    }
    forall a | 0 <= a < |s'| ensures s'[a].key != s[i].key {
      assert s'[a] == s[if a < i then a else a + 1];
    }
  }

  /** The view without its order. */
  ghost function AsMap<K, V>(s: seq<Entry<K, V>>): map<K, V> {
    if s == [] then map[] else AsMap(s[1..])[s[0].key := s[0].value]
  }

  lemma {:induction false} AsMapHas<K, V>(s: seq<Entry<K, V>>, k: K)
    requires UniqueKeys(s)
    ensures Has(s, k) <==> k in AsMap(s)
    ensures Has(s, k) ==> AsMap(s)[k] == Lookup(s, k)
  {
    if s != [] {
      var t := s[1..];
      AsMapHas(t, k);
      assert Has(t, k) ==> s[IndexOf(t, k) + 1].key == k;
      assert Has(s, k) && k != s[0].key ==> t[IndexOf(s, k) - 1].key == k;
    }
  }

  lemma AsMapCons<K, V>(s: seq<Entry<K, V>>, e: Entry<K, V>)
    requires UniqueKeys(s) && !Has(s, e.key)
    ensures UniqueKeys([e] + s) && AsMap([e] + s) == AsMap(s)[e.key := e.value]
  {
    var s' := [e] + s;
    assert s'[1..] == s;
    assert forall j :: 0 < j < |s'| ==> s'[j] == s[j - 1];
  }

  lemma {:induction false} AsMapDrop<K, V>(s: seq<Entry<K, V>>, i: nat)
    requires UniqueKeys(s) && i < |s|
    ensures var s' := s[..i] + s[i + 1..];
            UniqueKeys(s') && AsMap(s') == AsMap(s) - {s[i].key} && !Has(s', s[i].key)
  {
    UniqueDrop(s, i);
    var t, s' := s[1..], s[..i] + s[i + 1..];
    UniqueTail(s);
    if i == 0 {
      assert s' == t;
      AsMapHas(t, s[0].key);
      PutMinus(AsMap(t), s[0].key, s[0].value);
    } else {
      AsMapDrop(t, i - 1);
      assert s'[1..] == t[..i - 1] + t[i..] && s'[0] == s[0];
      MinusPut(AsMap(t), s[i].key, s[0].key, s[0].value);
    }
  }

  lemma UniqueTail<K, V>(s: seq<Entry<K, V>>)
    requires UniqueKeys(s) && s != []
    ensures UniqueKeys(s[1..])
  {
  }

  lemma PutMinus<K, V>(m: map<K, V>, k: K, v: V)
    requires k !in m
    ensures m[k := v] - {k} == m
  {
  }

  lemma MinusPut<K, V>(m: map<K, V>, k: K, k': K, v: V)
    requires k != k'
    ensures (m - {k})[k' := v] == m[k' := v] - {k}
  {
  }

  lemma {:induction false} AsMapSize<K, V>(s: seq<Entry<K, V>>)
    requires UniqueKeys(s)
    ensures |AsMap(s)| == |s|
  {
    if s != [] {
      AsMapSize(s[1..]);
      assert !Has(s[1..], s[0].key);
      AsMapHas(s[1..], s[0].key);
    }
  }

  lemma AsMapWithout<K, V>(s: seq<Entry<K, V>>, k: K)
    requires UniqueKeys(s)
    ensures UniqueKeys(Without(s, k)) && AsMap(Without(s, k)) == AsMap(s) - {k} && !Has(Without(s, k), k)
  {
    if Has(s, k) {
      AsMapDrop(s, IndexOf(s, k));
    } else {
      AsMapHas(s, k);
      assert AsMap(s) - {k} == AsMap(s);
    }
  }

  lemma AsMapTouch<K, V>(s: seq<Entry<K, V>>, k: K)
    requires UniqueKeys(s)
    ensures UniqueKeys(Touch(s, k)) && AsMap(Touch(s, k)) == AsMap(s) && |Touch(s, k)| == |s|
  {
    if Has(s, k) {
      AsMapHas(s, k);
      AsMapWithout(s, k);
      AsMapCons(Without(s, k), s[IndexOf(s, k)]);
      assert (AsMap(s) - {k})[k := Lookup(s, k)] == AsMap(s);
    }
  }

  /** A write binds the key and drops the evicted key, if any; the order aside, nothing else changes. */
  lemma AsMapPut<K, V>(s: seq<Entry<K, V>>, capacity: nat, k: K, v: V)
    requires UniqueKeys(s) && |s| <= capacity && 0 < capacity
    ensures var s' := Put(s, capacity, k, v);
            && UniqueKeys(s') && |s'| <= capacity
            && match Evicted(s, capacity, k)
               case None => AsMap(s') == AsMap(s)[k := v]
               case Some(e) =>
                 && e.key != k && e.key in AsMap(s) && AsMap(s)[e.key] == e.value
                 && AsMap(s') == (AsMap(s) - {e.key})[k := v]
  {
    if Has(s, k) {
      AsMapWithout(s, k);
      AsMapCons(Without(s, k), Entry(k, v));
      assert (AsMap(s) - {k})[k := v] == AsMap(s)[k := v];
    } else if |s| == capacity {
      var t := s[..|s| - 1];
      AsMapHas(s, s[|s| - 1].key);
      AsMapDrop(s, |s| - 1);
      assert t + s[|s|..] == t;
      assert !Has(t, k);
      AsMapCons(t, Entry(k, v));
    } else {
      AsMapCons(s, Entry(k, v));
    }
  }

  /** The map sends each key of the view to its own node of the ring (whose first node is the
      sentinel), and holds nothing else. */
  ghost predicate Indexed<K, V, N>(s: seq<Entry<K, V>>, m: map<K, N>, ring: seq<N>) {
    && UniqueKeys(s)
    && |m| == |s| == |ring| - 1
    && m.Keys == AsMap(s).Keys
    && (forall i {:trigger ring[i]} {:trigger NodeAt(s, m, ring, i)} :: 0 < i < |ring| ==> NodeAt(s, m, ring, i))
  }

  ghost predicate NodeAt<K, V, N>(s: seq<Entry<K, V>>, m: map<K, N>, ring: seq<N>, i: int)
    requires 0 < i < |ring| == |s| + 1
  {
    s[i - 1].key in m && m[s[i - 1].key] == ring[i]
  }

  lemma IndexedDrop<K, V, N>(s: seq<Entry<K, V>>, m: map<K, N>, ring: seq<N>, i: nat)
    requires Indexed(s, m, ring) && i < |s|
    ensures Indexed(s[..i] + s[i + 1..], m - {s[i].key}, ring[..i + 1] + ring[i + 2..])
  {
    var s', m', ring' := s[..i] + s[i + 1..], m - {s[i].key}, ring[..i + 1] + ring[i + 2..];
    AsMapDrop(s, i);
    assert ring[i + 1] in ring && s[i].key in m;
    assert m'.Keys == m.Keys - {s[i].key};
    forall j | 0 < j < |ring'| ensures NodeAt(s', m', ring', j) {
      var o := if j <= i then j else j + 1;
      assert s'[j - 1] == s[o - 1] && ring'[j] == ring[o];
    }
  }

  lemma IndexedCons<K, V, N>(s: seq<Entry<K, V>>, m: map<K, N>, ring: seq<N>, e: Entry<K, V>, n: N)
    requires Indexed(s, m, ring) && !Has(s, e.key)
    ensures Indexed([e] + s, m[e.key := n], [ring[0], n] + ring[1..])
  {
    var s', m', ring' := [e] + s, m[e.key := n], [ring[0], n] + ring[1..];
    AsMapCons(s, e);
    AsMapHas(s, e.key);
    assert m'.Keys == m.Keys + {e.key};
    forall j | 0 < j < |ring'| ensures NodeAt(s', m', ring', j) {
      if j == 1 {
        assert s'[j - 1] == e && ring'[j] == n;
      } else {
        assert s'[j - 1] == s[j - 2] && ring'[j] == ring[j - 1];
      }
    }
  }

  lemma IndexedSet<K, V, N>(s: seq<Entry<K, V>>, m: map<K, N>, ring: seq<N>, v: V)
    requires Indexed(s, m, ring) && |s| > 0
    ensures Indexed([Entry(s[0].key, v)] + s[1..], m, ring)
  {
    var s' := [Entry(s[0].key, v)] + s[1..];
    assert forall j :: 0 <= j < |s| ==> s'[j].key == s[j].key;
    assert s'[1..] == s[1..];
    forall j | 0 < j < |ring| ensures NodeAt(s', m, ring, j) {
      assert NodeAt(s, m, ring, j);
    }
  }

  lemma IndexedTouch<K, V, N>(s: seq<Entry<K, V>>, m: map<K, N>, ring: seq<N>, k: K)
    requires Indexed(s, m, ring) && Has(s, k)
    ensures var i := IndexOf(s, k);
            Indexed(Touch(s, k), m, [ring[0], ring[i + 1]] + (ring[..i + 1] + ring[i + 2..])[1..])
  {
    var i := IndexOf(s, k);
    var s1, m1, ring1 := s[..i] + s[i + 1..], m - {k}, ring[..i + 1] + ring[i + 2..];
    IndexedDrop(s, m, ring, i);
    assert !Has(s1, k) by {
      AsMapDrop(s, i);
    }
    assert m1[k := ring[i + 1]] == m;
    IndexedCons(s1, m1, ring1, s[i], ring[i + 1]);
  }
}

/** Whole histories of cache operations. */
module LruHistory {
  import opened Wrappers
  import opened Recency

  /** `Use` stands for `Find`, `Get` and `HasKey`, which touch the list alike. */
  datatype Op<K, V> = Use(key: K) | PutOp(key: K, value: V) | RemoveOp(key: K) | ClearOp

  ghost function Step<K, V>(s: seq<Entry<K, V>>, capacity: nat, op: Op<K, V>): seq<Entry<K, V>>
    requires capacity > 0
  {
    match op
    case Use(k) => Touch(s, k)
    case PutOp(k, v) => Put(s, capacity, k, v)
    case RemoveOp(k) => Without(s, k)
    case ClearOp => []
  }

  ghost function Run<K, V>(ops: seq<Op<K, V>>, capacity: nat): seq<Entry<K, V>>
    requires capacity > 0
  {
    if ops == [] then [] else Step(Run(ops[..|ops| - 1], capacity), capacity, ops[|ops| - 1])
  }

  /** When `k` was last asked for or written, by the operations alone; -1 for never. */
  ghost function LastTouch<K, V>(ops: seq<Op<K, V>>, k: K): int {
    if ops == [] then -1
    else
      var op := ops[|ops| - 1];
      if Touches(op, k) then |ops| - 1 else LastTouch(ops[..|ops| - 1], k)
  }

  /** The value most recently written under `k`. */
  ghost function LastWritten<K, V>(ops: seq<Op<K, V>>, k: K): Option<V> {
    if ops == [] then None
    else
      var op := ops[|ops| - 1];
      if op.PutOp? && op.key == k then Some(op.value) else LastWritten(ops[..|ops| - 1], k)
  }

  /** What the operations alone say about the cache: bounded, one entry per key, ordered by last
      touch, each value the last one written. */
  ghost predicate Explained<K, V>(ops: seq<Op<K, V>>, capacity: nat, s: seq<Entry<K, V>>) {
    && UniqueKeys(s) && |s| <= capacity
    && (forall i, j :: 0 <= i < j < |s| ==> LastTouch(ops, s[i].key) > LastTouch(ops, s[j].key))
    && (forall i :: 0 <= i < |s| ==> LastTouch(ops, s[i].key) >= 0 && LastWritten(ops, s[i].key) == Some(s[i].value))
  }

  lemma {:induction false} RunExplained<K, V>(ops: seq<Op<K, V>>, capacity: nat)
    requires capacity > 0
    ensures Explained(ops, capacity, Run(ops, capacity))
  {
    if ops != [] {
      var before, op := ops[..|ops| - 1], ops[|ops| - 1];
      RunExplained(before, capacity);
      StepExplained(before, op, capacity, Run(before, capacity));
      assert ops == before + [op];
    }
  }

  ghost predicate Touches<K, V>(op: Op<K, V>, k: K) {
    (op.Use? || op.PutOp?) && op.key == k
  }

  lemma LastTouchBound<K, V>(ops: seq<Op<K, V>>, k: K)
    ensures -1 <= LastTouch(ops, k) < |ops|
  {
  }

  lemma Extend<K, V>(before: seq<Op<K, V>>, op: Op<K, V>, k: K)
    ensures LastTouch(before + [op], k) == if Touches(op, k) then |before| else LastTouch(before, k)
    ensures LastWritten(before + [op], k)
         == if op.PutOp? && op.key == k then Some(op.value) else LastWritten(before, k)
  {
    assert (before + [op])[..|before|] == before;
  }

  lemma ExplainedDrop<K, V>(ops: seq<Op<K, V>>, capacity: nat, s: seq<Entry<K, V>>, i: nat)
    requires Explained(ops, capacity, s) && i < |s|
    ensures Explained(ops, capacity, s[..i] + s[i + 1..]) && !Has(s[..i] + s[i + 1..], s[i].key)
  {
    var s' := s[..i] + s[i + 1..];
    UniqueDrop(s, i);
    forall j | 0 <= j < |s'| ensures s'[j] == s[if j < i then j else j + 1] {
    }
  }

  lemma ExplainedStay<K, V>(before: seq<Op<K, V>>, op: Op<K, V>, capacity: nat, s: seq<Entry<K, V>>)
    requires Explained(before, capacity, s)
    requires forall i :: 0 <= i < |s| ==> !Touches(op, s[i].key)
    ensures Explained(before + [op], capacity, s)
  {
    forall i | 0 <= i < |s|
      ensures LastTouch(before + [op], s[i].key) == LastTouch(before, s[i].key)
      ensures LastWritten(before + [op], s[i].key) == LastWritten(before, s[i].key)
    {
      Extend(before, op, s[i].key);
    }
  }

  lemma ExplainedFront<K, V>(before: seq<Op<K, V>>, op: Op<K, V>, capacity: nat, s: seq<Entry<K, V>>, e: Entry<K, V>)
    requires Explained(before, capacity, s) && |s| < capacity && !Has(s, e.key) && Touches(op, e.key)
    requires if op.PutOp? then e.value == op.value else LastWritten(before, e.key) == Some(e.value)
    ensures Explained(before + [op], capacity, [e] + s)
  {
    var s' := [e] + s;
    ExplainedStay(before, op, capacity, s);
    Extend(before, op, e.key);
    forall j | 0 < j < |s'| ensures s'[j] == s[j - 1] && LastTouch(before + [op], s'[j].key) < |before| {
      LastTouchBound(before, s[j - 1].key);
      Extend(before, op, s[j - 1].key);
    }
  }

  lemma StepExplained<K, V>(before: seq<Op<K, V>>, op: Op<K, V>, capacity: nat, s: seq<Entry<K, V>>)
    requires capacity > 0 && Explained(before, capacity, s)
    ensures Explained(before + [op], capacity, Step(s, capacity, op))
  {
    if op.ClearOp? {
    } else if Has(s, op.key) {
      HitExplained(before, op, capacity, s);
    } else if op.PutOp? {
      MissExplained(before, op, capacity, s);
    } else {
      ExplainedStay(before, op, capacity, s);
    }
  }

  lemma HitExplained<K, V>(before: seq<Op<K, V>>, op: Op<K, V>, capacity: nat, s: seq<Entry<K, V>>)
    requires capacity > 0 && Explained(before, capacity, s) && !op.ClearOp? && Has(s, op.key)
    ensures Explained(before + [op], capacity, Step(s, capacity, op))
  {
    var i := IndexOf(s, op.key);
    ExplainedDrop(before, capacity, s, i);
    var rest := Without(s, op.key);
    if op.RemoveOp? {
      ExplainedStay(before, op, capacity, rest);
    } else {
      ExplainedFront(before, op, capacity, rest, if op.PutOp? then Entry(op.key, op.value) else s[i]);
    }
  }

  lemma MissExplained<K, V>(before: seq<Op<K, V>>, op: Op<K, V>, capacity: nat, s: seq<Entry<K, V>>)
    requires capacity > 0 && Explained(before, capacity, s) && op.PutOp? && !Has(s, op.key)
    ensures Explained(before + [op], capacity, Put(s, capacity, op.key, op.value))
  {
    var e := Entry(op.key, op.value);
    if |s| < capacity {
      ExplainedFront(before, op, capacity, s, e);
    } else {
      ExplainedDrop(before, capacity, s, |s| - 1);
      assert s[..|s| - 1] + s[|s|..] == s[..|s| - 1];
      ExplainedFront(before, op, capacity, s[..|s| - 1], e);
    }
  }

  /** A write of a new key into a full cache drops exactly the least recently touched key, with its
      last written value; every other write drops nothing. */
  lemma PutEvictsLeastRecent<K, V>(ops: seq<Op<K, V>>, capacity: nat, k: K, v: V, x: K)
    requires capacity > 0
    ensures var s := Run(ops, capacity);
            var s' := Run(ops + [PutOp(k, v)], capacity);
            match Evicted(s, capacity, k)
            case None => Has(s', x) <==> Has(s, x) || x == k
            case Some(e) =>
              && Has(s, e.key) && LastWritten(ops, e.key) == Some(e.value)
              && (Has(s, x) ==> LastTouch(ops, e.key) <= LastTouch(ops, x))
              && (Has(s', x) <==> (Has(s, x) && x != e.key) || x == k)
  {
    RunExplained(ops, capacity);
    assert (ops + [PutOp(k, v)])[..|ops|] == ops;
    var s := Run(ops, capacity);
    AsMapPut(s, capacity, k, v);
    AsMapHas(s, x);
    AsMapHas(Put(s, capacity, k, v), x);
    if Evicted(s, capacity, k).Some? {
      AsMapHas(s, s[|s| - 1].key);
    }
  }

  /** The other operations change the set of keys only by what they remove. */
  lemma OthersOnlyRemove<K, V>(ops: seq<Op<K, V>>, capacity: nat, op: Op<K, V>, x: K)
    requires capacity > 0 && !op.PutOp?
    ensures Has(Run(ops + [op], capacity), x)
       <==> Has(Run(ops, capacity), x) && !op.ClearOp? && (op.RemoveOp? ==> x != op.key)
  {
    RunExplained(ops, capacity);
    assert (ops + [op])[..|ops|] == ops;
    var s := Run(ops, capacity);
    AsMapHas(s, x);
    match op
    case Use(k) =>
      AsMapTouch(s, k);
      AsMapHas(Touch(s, k), x);
    case RemoveOp(k) =>
      AsMapWithout(s, k);
      AsMapHas(Without(s, k), x);
    case ClearOp =>
  }
}

module LruCache {
  import opened Wrappers
  import opened Recency

  /** A list node; the sentinel of the circular list carries no meaningful key or value. */
  class Node<K(0), V(0)> {
    var key: K
    var value: V
    var prev: Node<K, V>
    var next: Node<K, V>

    constructor Sentinel()
      ensures prev == this && next == this
    {
      prev, next := this, this;
    }

    constructor (k: K, v: V)
      ensures key == k && value == v
    {
      key, value, prev, next := k, v, this, this;
    }
  }

  class LruCache<K(==, 0), V(0)> {
    const capacity: nat
    const sentinel: Node<K, V>
    var lruMap: map<K, Node<K, V>>
    /** The nodes of the circular list in order, sentinel first. */
    ghost var ring: seq<Node<K, V>>
    /** The nodes this cache owns. */
    ghost var repr: set<Node<K, V>>
    /** Abstract view: the entries, most recently touched first. */
    ghost var contents: seq<Entry<K, V>>

    ghost predicate Linked()
      reads this, repr
    {
      && |ring| > 0 && ring[0] == sentinel
      && (forall i :: 0 <= i < |ring| ==> ring[i] in repr)
      && (forall i, j :: 0 <= i < j < |ring| ==> ring[i] != ring[j])
      && (forall i {:trigger ring[i].next} :: 0 <= i < |ring| - 1 ==> ring[i].next == ring[i + 1])
      && (forall i {:trigger ring[i].prev} :: 0 < i < |ring| ==> ring[i].prev == ring[i - 1])
      && ring[|ring| - 1].next == sentinel && sentinel.prev == ring[|ring| - 1]
    }

    /** The list holds the entries of the view, in order. */
    ghost predicate Holds()
      reads this, repr
    {
      && |contents| == |ring| - 1
      && forall i {:trigger ring[i]} :: 0 < i < |ring| ==>
           ring[i] in repr && ring[i].key == contents[i - 1].key && ring[i].value == contents[i - 1].value
    }

    ghost predicate Valid()
      reads this, repr
    {
      Linked() && Holds() && Indexed(contents, lruMap, ring) && |contents| <= capacity && 0 < capacity
    }

    constructor (capacity: nat)
      requires capacity > 0  // a zero capacity is fatal
      ensures Valid() && contents == [] && this.capacity == capacity
      ensures fresh(repr)
    {
      this.capacity := capacity;
      lruMap := map[];
      var s := new Node<K, V>.Sentinel();
      sentinel := s;
      ring, repr := [s], {s};
      contents := [];
    }

    /** Lets the neighbours of the node at position `i` of the ring point past it. */
    method Bypass(n: Node<K, V>, ghost i: nat)
      requires Linked() && 0 < i < |ring| && ring[i] == n
      modifies this`ring, repr
      ensures Linked() && ring == old(ring[..i] + ring[i + 1..])
      ensures forall m :: m in repr ==> m.key == old(m.key) && m.value == old(m.value)
    {
      n.prev.next := n.next;
      n.next.prev := n.prev;
      ring := ring[..i] + ring[i + 1..];
    }

    /** Takes the node at position `i` of the ring out of the list. */
    method Unlink(n: Node<K, V>, ghost i: nat)
      requires Linked() && Holds() && 0 < i < |ring| && ring[i] == n
      modifies this`ring, this`contents, repr
      ensures Linked() && ring == old(ring[..i] + ring[i + 1..])
      ensures Holds() && contents == old(contents[..i - 1] + contents[i..])
      ensures n.key == old(n.key) && n.value == old(n.value)
    {
      Bypass(n, i);
      contents := contents[..i - 1] + contents[i..];
    }

    /** Inserts a node that is not in the list right behind the sentinel. */
    method LinkFront(n: Node<K, V>)
      requires Linked() && Holds() && n !in ring && n in repr
      modifies this`ring, this`contents, repr
      ensures Linked() && ring == old([sentinel, n] + ring[1..])
      ensures Holds() && contents == old([Entry(n.key, n.value)] + contents)
    {
      n.next := sentinel.next;
      n.prev := sentinel;
      n.next.prev := n;
      sentinel.next := n;
      ring := [sentinel, n] + ring[1..];
      contents := [Entry(n.key, n.value)] + contents;
    }

    method Clear()
      requires Valid()
      modifies this, repr
      ensures repr == old(repr)
      ensures Valid() && contents == []
    {
      lruMap := map[];
      sentinel.next, sentinel.prev := sentinel, sentinel;
      ring, contents := [sentinel], [];
    }

    /** The node of `key`, moved to the head of the list, or null. */
    method Find(key: K) returns (n: Node?<K, V>)
      requires Valid()
      modifies this`ring, this`contents, repr
      ensures Valid() && contents == Touch(old(contents), key)
      ensures (n == null) == !Has(old(contents), key)
      ensures n != null ==> |contents| > 0 && n == ring[1] && contents[0] == Entry(key, Lookup(old(contents), key))
    {
      AsMapHas(contents, key);
      if key !in lruMap {
        return null;
      }
      n := lruMap[key];
      ghost var i := IndexOf(contents, key);
      Unlink(n, i + 1);
      LinkFront(n);
      IndexedTouch(old(contents), lruMap, old(ring), key);
    }

    method Get(key: K) returns (found: bool, value: V)
      requires Valid()
      modifies this`ring, this`contents, repr
      ensures Valid() && contents == Touch(old(contents), key)
      ensures found == Has(old(contents), key)
      ensures found ==> value == Lookup(old(contents), key)
    {
      var n := Find(key);
      if n == null {
        found, value := false, *;
      } else {
        found, value := true, n.value;
      }
    }

    method HasKey(key: K) returns (found: bool)
      requires Valid()
      modifies this`ring, this`contents, repr
      ensures Valid() && contents == Touch(old(contents), key)
      ensures found == Has(old(contents), key)
    {
      var n := Find(key);
      found := n != null;
    }

    method Put(key: K, value: V) returns (evicted: Option<Entry<K, V>>)
      requires Valid()
      modifies this, repr
      ensures Valid() && contents == Recency.Put(old(contents), capacity, key, value)
      ensures evicted == Evicted(old(contents), capacity, key)
      ensures repr >= old(repr) && fresh(repr - old(repr))
    {
      var n := Find(key);
      if n != null {
        SetFront(n, value);
        return None;
      }
      evicted := MakeRoom();
      PushFront(key, value);
    }

    /** Drops the tail node when the cache is full. */
    method MakeRoom() returns (evicted: Option<Entry<K, V>>)
      requires Valid()
      modifies this`ring, this`contents, this`lruMap, repr
      ensures Valid() && |contents| < capacity
      ensures var s := old(contents);
              if |s| == capacity then evicted == Some(s[|s| - 1]) && contents == s[..|s| - 1]
              else evicted == None && contents == s
    {
      if |lruMap| == capacity {
        evicted := Some(Entry(sentinel.prev.key, sentinel.prev.value));
        Erase(sentinel.prev, |contents| - 1);
      } else {
        evicted := None;
      }
    }

    /** Overwrites the value of the head node. */
    method SetFront(n: Node<K, V>, value: V)
      requires Valid() && |contents| > 0 && n == ring[1]
      modifies this`contents, n
      ensures Valid() && contents == old([Entry(contents[0].key, value)] + contents[1..])
    {
      n.value := value;
      contents := [Entry(contents[0].key, value)] + contents[1..];
      IndexedSet(old(contents), lruMap, ring, value);
    }

    /** Drops a node of the list together with its map entry. */
    method Erase(n: Node<K, V>, ghost i: nat)
      requires Valid() && i < |contents| && n == ring[i + 1]
      modifies this`ring, this`contents, this`lruMap, repr
      ensures Valid() && contents == old(contents[..i] + contents[i + 1..])
    {
      IndexedDrop(contents, lruMap, ring, i);
      lruMap := lruMap - {n.key};
      Unlink(n, i + 1);
    }

    method PushFront(key: K, value: V)
      requires Valid() && !Has(contents, key) && |contents| < capacity
      modifies this, repr
      ensures Valid() && contents == [Entry(key, value)] + old(contents)
      ensures repr >= old(repr) && fresh(repr - old(repr))
    {
      var n := new Node(key, value);
      IndexedCons(contents, lruMap, ring, Entry(key, value), n);
      repr, lruMap := repr + {n}, lruMap[key := n];
      LinkFront(n);
    }

    method Remove(key: K) returns (removed: bool)
      requires Valid()
      modifies this`ring, this`contents, this`lruMap, repr
      ensures Valid() && contents == Without(old(contents), key)
      ensures removed == Has(old(contents), key)
    {
      AsMapHas(contents, key);
      if key !in lruMap {
        return false;
      }
      Erase(lruMap[key], IndexOf(contents, key));
      removed := true;
    }

    method Size() returns (n: nat)
      requires Valid()
      ensures n == |contents| <= capacity
    {
      n := |lruMap|;
    }
  }
}
