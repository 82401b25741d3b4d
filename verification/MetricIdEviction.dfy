/** Whom the metric id allocator evicts, over every run: the device of the full cache that was least recently asked
    for. */
module MetricIdEviction {
  import opened Wrappers
  import opened Recency
  import opened MetricIds

  /** The last of the calls that asked for `a`, or saved it if `saving`; -1 for none. */
  ghost function LastAsked(calls: seq<Call>, a: RawAddress, saving: bool): int {
    if calls == [] then -1
    else
      var n := |calls| - 1;
      if calls[n] == Allocate(a) || (saving && calls[n] == Save(a)) then n else LastAsked(calls[..n], a, saving)
  }

  /** The most recently asked for stand first; devices not asked for since the start stand last. */
  ghost predicate ByRecency(calls: seq<Call>, s: Devices, saving: bool) {
    && UniqueKeys(s)
    && forall i, j :: 0 <= i < j < |s| ==>
         || LastAsked(calls, s[i].key, saving) > LastAsked(calls, s[j].key, saving)
         || LastAsked(calls, s[j].key, saving) == -1
  }

  lemma {:induction false} LastAskedBound(calls: seq<Call>, a: RawAddress, saving: bool)
    ensures -1 <= LastAsked(calls, a, saving) < |calls|
  {
    if calls != [] {
      LastAskedBound(calls[..|calls| - 1], a, saving);
    }
  }

  lemma AskedSnoc(calls: seq<Call>, call: Call, a: RawAddress, saving: bool)
    ensures LastAsked(calls + [call], a, saving)
         == if call == Allocate(a) || (saving && call == Save(a)) then |calls| else LastAsked(calls, a, saving)
  {
    assert (calls + [call])[..|calls|] == calls;
  }

  lemma RecencyDrop(calls: seq<Call>, s: Devices, saving: bool, i: nat)
    requires ByRecency(calls, s, saving) && i < |s|
    ensures ByRecency(calls, s[..i] + s[i + 1..], saving)
  {
    var s' := s[..i] + s[i + 1..];
    UniqueDrop(s, i);
    forall a, b | 0 <= a < b < |s'|
      ensures LastAsked(calls, s'[a].key, saving) > LastAsked(calls, s'[b].key, saving)
           || LastAsked(calls, s'[b].key, saving) == -1
    {
      assert s'[a] == s[if a < i then a else a + 1] && s'[b] == s[if b < i then b else b + 1];
    }
  }

  /** A call that asks for no device of the cache leaves its order right. */
  lemma RecencyStay(calls: seq<Call>, call: Call, s: Devices, saving: bool)
    requires ByRecency(calls, s, saving) && !(Has(s, call.addr) && (call.Allocate? || (saving && call.Save?)))
    ensures ByRecency(calls + [call], s, saving)
  {
    forall i | 0 <= i < |s| ensures LastAsked(calls + [call], s[i].key, saving) == LastAsked(calls, s[i].key, saving) {
      AskedSnoc(calls, call, s[i].key, saving);
    }
  }

  /** The device asked for comes first. */
  lemma RecencyFront(calls: seq<Call>, call: Call, s: Devices, saving: bool, e: Entry<RawAddress, int>)
    requires ByRecency(calls, s, saving) && !Has(s, e.key) && call.addr == e.key
    requires call.Allocate? || (saving && call.Save?)
    ensures ByRecency(calls + [call], [e] + s, saving)
  {
    var s' := [e] + s;
    RecencyStay(calls, call, s, saving);
    AskedSnoc(calls, call, e.key, saving);
    forall j | 0 < j < |s'| ensures s'[j] == s[j - 1] && LastAsked(calls + [call], s'[j].key, saving) < |calls| {
      AskedSnoc(calls, call, s[j - 1].key, saving);
      LastAskedBound(calls, s[j - 1].key, saving);
    }
  }

  /** A lookup of a device that is there. */
  lemma RecencyTouch(calls: seq<Call>, call: Call, s: Devices, saving: bool)
    requires ByRecency(calls, s, saving) && Has(s, call.addr) && (call.Allocate? || (saving && call.Save?))
    ensures ByRecency(calls + [call], Touch(s, call.addr), saving)
  {
    var i := IndexOf(s, call.addr);
    RecencyDrop(calls, s, saving, i);
    UniqueDrop(s, i);
    RecencyFront(calls, call, Without(s, call.addr), saving, s[i]);
  }

  /** A device that is taken out. */
  lemma RecencyTake(calls: seq<Call>, call: Call, s: Devices, saving: bool)
    requires ByRecency(calls, s, saving) && Has(s, call.addr) && !call.Allocate? && !(saving && call.Save?)
    ensures ByRecency(calls + [call], Without(Touch(s, call.addr), call.addr), saving)
  {
    var i := IndexOf(s, call.addr);
    var rest := s[..i] + s[i + 1..];
    RecencyDrop(calls, s, saving, i);
    UniqueDrop(s, i);
    WithoutTouch(s, call.addr);
    RecencyStay(calls, call, rest, saving);
  }

  lemma WithoutTouch(s: Devices, a: RawAddress)
    requires UniqueKeys(s) && Has(s, a)
    ensures var i := IndexOf(s, a);
            Without(Touch(s, a), a) == s[..i] + s[i + 1..]
  {
    var i := IndexOf(s, a);
    var rest, t := s[..i] + s[i + 1..], Touch(s, a);
    UniqueDrop(s, i);
    AsMapTouch(s, a);
    assert t == [s[i]] + rest && t[0].key == a;
    assert Has(t, a) && IndexOf(t, a) == 0;
    assert t[..0] + t[1..] == rest;
  }

  lemma RecencyDropLast(calls: seq<Call>, s: Devices, saving: bool, a: RawAddress)
    requires ByRecency(calls, s, saving) && s != [] && !Has(s, a)
    ensures ByRecency(calls, s[..|s| - 1], saving) && !Has(s[..|s| - 1], a)
  {
    assert forall i :: 0 <= i < |s| - 1 ==> s[..|s| - 1][i] == s[i];
  }

  /** A new device, and the eviction it causes. */
  lemma RecencyPut(calls: seq<Call>, call: Call, s: Devices, saving: bool, capacity: nat, id: int)
    requires ByRecency(calls, s, saving) && !Has(s, call.addr) && 0 < capacity && |s| <= capacity
    requires call.Allocate? || (saving && call.Save?)
    ensures ByRecency(calls + [call], Put(s, capacity, call.addr, id), saving)
  {
    var e := Entry(call.addr, id);
    if |s| == capacity {
      RecencyDropLast(calls, s, saving, call.addr);
      RecencyFront(calls, call, s[..|s| - 1], saving, e);
    } else {
      RecencyFront(calls, call, s, saving, e);
    }
  }

  lemma TemporaryRecency(calls: seq<Call>, v: View, call: Call)
    requires ByRecency(calls, v.temporary, false) && |v.temporary| <= MAX_UNPAIRED && |v.ids| < RANGE
    requires Has(v.paired, call.addr) ==> !Has(v.temporary, call.addr)
    ensures ByRecency(calls + [call], Step(v, call).temporary, false)
  {
    if call.Allocate? && Has(v.temporary, call.addr) {
      RecencyTouch(calls, call, v.temporary, false);
    } else if call.Allocate? && !Has(v.paired, call.addr) {
      RecencyPut(calls, call, v.temporary, false, MAX_UNPAIRED, FreshId(v));
    } else if call.Save? && Has(v.temporary, call.addr) {
      RecencyTake(calls, call, v.temporary, false);
    } else {
      RecencyStay(calls, call, v.temporary, false);
    }
  }

  lemma PairedRecency(calls: seq<Call>, v: View, call: Call)
    requires ByRecency(calls, v.paired, true) && |v.paired| <= MAX_PAIRED && |v.ids| < RANGE
    ensures ByRecency(calls + [call], Step(v, call).paired, true)
  {
    if Has(v.paired, call.addr) {
      if call.Forget? {
        RecencyTake(calls, call, v.paired, true);
      } else {
        RecencyTouch(calls, call, v.paired, true);
      }
    } else if call.Save? && Has(v.temporary, call.addr) {
      RecencyPut(calls, call, v.paired, true, MAX_PAIRED, Lookup(v.temporary, call.addr));
    } else {
      RecencyStay(calls, call, v.paired, true);
    }
  }

  /** Both caches are in order of the calls that asked for their devices. */
  ghost predicate Ordered(calls: seq<Call>, v: View) {
    ByRecency(calls, v.temporary, false) && ByRecency(calls, v.paired, true)
  }

  lemma NextOrdered(calls: seq<Call>, v: View, call: Call, v': View)
    requires Inv(v) && Next(v, call, v') && Ordered(calls, v)
    ensures Ordered(calls + [call], v')
  {
    OneCache(v, call.addr);
    TemporaryRecency(calls, v, call);
    PairedRecency(calls, v, call);
  }

  lemma StartOrdered(v: View)
    requires Inv(v)
    ensures Ordered([], v)
  {
  }

  /** So they are in every state of every run. */
  lemma {:induction false} RunOrdered(states: seq<View>, calls: seq<Call>, i: nat)
    requires IsRun(states, calls) && i < |states|
    ensures Ordered(calls[..i], states[i])
  {
    if i == 0 {
      StartOrdered(states[0]);
    } else {
      RunOrdered(states, calls, i - 1);
      CallOrdered(states, calls, i - 1, calls[..i - 1]);
      assert calls[..i] == calls[..i - 1] + [calls[i - 1]];
    }
  }

  lemma CallOrdered(states: seq<View>, calls: seq<Call>, i: nat, before: seq<Call>)
    requires IsRun(states, calls) && i < |calls| && Ordered(before, states[i])
    ensures Ordered(before + [calls[i]], states[i + 1])
  {
    RunInv(states, calls, i);
    NextAt(states, calls, i);
    NextOrdered(before, states[i], calls[i], states[i + 1]);
  }

  lemma OneCache(v: View, a: RawAddress)
    requires Inv(v)
    ensures |v.paired| <= MAX_PAIRED && |v.temporary| <= MAX_UNPAIRED
    ensures Has(v.paired, a) ==> !Has(v.temporary, a)
  {
    AsMapHas(v.paired, a);
    AsMapHas(v.temporary, a);
  }

  lemma LastIsLeast(calls: seq<Call>, s: Devices, saving: bool, x: RawAddress)
    requires ByRecency(calls, s, saving) && Has(s, x)
    ensures LastAsked(calls, s[|s| - 1].key, saving) <= LastAsked(calls, x, saving)
  {
    LastAskedBound(calls, x, saving);
    assert s[IndexOf(s, x)].key == x;
  }

  /** The device a call evicts: the last of its cache, which is full. */
  lemma EvictedIsLast(v: View, call: Call)
    requires !call.Forget? && Dropped(v, call).Some?
    ensures var s, d := if call.Save? then v.paired else v.temporary, Dropped(v, call).value;
            s != [] && s[|s| - 1].key == d && Has(s, d) && |s| == if call.Save? then MAX_PAIRED else MAX_UNPAIRED
  {
  }

  /** In every run an allocation or a save that evicts finds its cache full and drops a device of it such that no
      other device there was last asked for earlier. */
  lemma EvictsLeastRecent(states: seq<View>, calls: seq<Call>, i: nat, x: RawAddress)
    requires IsRun(states, calls) && i < |calls| && !calls[i].Forget? && Dropped(states[i], calls[i]).Some?
    ensures var v, saving := states[i], calls[i].Save?;
            var s, d := if saving then v.paired else v.temporary, Dropped(v, calls[i]).value;
            && Has(s, d) && |s| == (if saving then MAX_PAIRED else MAX_UNPAIRED)
            && (Has(s, x) ==> LastAsked(calls[..i], d, saving) <= LastAsked(calls[..i], x, saving))
  {
    var v, saving := states[i], calls[i].Save?;
    var s := if saving then v.paired else v.temporary;
    RunOrdered(states, calls, i);
    EvictedIsLast(v, calls[i]);
    if Has(s, x) {
      LastIsLeast(calls[..i], s, saving, x);
    }
  }
}
