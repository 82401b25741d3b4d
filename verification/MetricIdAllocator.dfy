/** The allocator object of system/common/metric_id_allocator.cc over its two linked caches. Every
    method is proved against the state change of the same name in `MetricIds`. */
module MetricIdAllocator {
  import opened Wrappers
  import opened Recency
  import opened LruCache
  import Ids = MetricIds
  import opened MetricIds

  datatype InitOutcome = Refused | Fatal | Initialized

  class MetricIdAllocator {
    const paired: LruCache<RawAddress, int>
    const temporary: LruCache<RawAddress, int>
    var idSet: set<int>
    var nextId: int
    var initialized: bool
    /** The save and forget callbacks made so far. */
    var callbacks: seq<Callback>

    ghost predicate Valid()
      reads paired, paired.repr, temporary, temporary.repr
    {
      && paired != temporary && paired.repr !! temporary.repr
      && paired.capacity == MAX_PAIRED && temporary.capacity == MAX_UNPAIRED
      && forall c :: c in {paired, temporary} ==> c.Valid()
    }

    ghost function Abs(): View
      reads this, paired, temporary
    {
      View(paired.contents, temporary.contents, idSet, nextId, callbacks)
    }

    constructor ()
      ensures Valid() && fresh(paired) && fresh(paired.repr) && fresh(temporary) && fresh(temporary.repr)
      ensures Abs() == View([], [], {}, MIN_ID, []) && !initialized && Inv(Abs()) && Searchable(Abs())
    {
      paired := new LruCache(MAX_PAIRED);
      temporary := new LruCache(MAX_UNPAIRED);
      idSet, nextId, initialized, callbacks := {}, MIN_ID, false, [];
      new;
      EmptyInv(Abs());
    }

    method ForgetDevicePostprocess(a: RawAddress, id: int)
      modifies this`idSet, this`callbacks
      ensures idSet == old(idSet) - {id} && callbacks == old(callbacks) + [Forgotten(a, id)]
    {
      idSet := idSet - {id};
      callbacks := callbacks + [Forgotten(a, id)];
    }

    /** Takes the first free id, skipping at most |idSet| taken ones, and steps past it. */
    method TakeFreeId() returns (id: int)
      requires |idSet| < RANGE && IsValidId(nextId)
      modifies this`nextId
      ensures id == Nth(old(nextId), Skips(idSet, old(nextId))) && nextId == Succ(id)
    {
      ghost var c, j := nextId, 0;
      while nextId in idSet
        invariant nextId == Nth(c, j) && j <= |idSet|
        invariant forall i :: 0 <= i < j ==> Nth(c, i) in idSet
        decreases |idSet| - j
      {
        Pigeonhole(idSet, c, j + 1);
        nextId := nextId + 1;
        if nextId > MAX_ID {
          nextId := MIN_ID;
        }
        NthSucc(c, j);
        j := j + 1;
      }
      FirstFreeIsUnique(idSet, c, j);
      id := nextId;
      nextId := nextId + 1;
      if nextId > MAX_ID {
        nextId := MIN_ID;
      }
    }

    /** The id a device already has, asking the paired cache first. */
    method Query(a: RawAddress) returns (found: bool, id: int)
      requires Valid()
      modifies paired, paired.repr, temporary, temporary.repr
      ensures Valid() && paired.repr == old(paired.repr) && temporary.repr == old(temporary.repr)
      ensures found == Known(old(Abs()), a) && (found ==> id == IdOf(old(Abs()), a))
      ensures paired.contents == Touch(old(paired.contents), a)
      ensures temporary.contents
           == if Has(old(paired.contents), a) then old(temporary.contents) else Touch(old(temporary.contents), a)
    {
      found, id := AskPaired(a);
      if !found {
        found, id := AskTemporary(a);
      }
    }

    method AskPaired(a: RawAddress) returns (found: bool, id: int)
      requires Valid()
      modifies paired, paired.repr
      ensures Valid() && paired.repr == old(paired.repr) && paired.contents == Touch(old(paired.contents), a)
      ensures found == Has(old(paired.contents), a) && (found ==> id == Lookup(old(paired.contents), a))
    {
      found, id := paired.Get(a);
      assert temporary.Valid();
    }

    method AskTemporary(a: RawAddress) returns (found: bool, id: int)
      requires Valid()
      modifies temporary, temporary.repr
      ensures Valid() && temporary.repr == old(temporary.repr)
      ensures temporary.contents == Touch(old(temporary.contents), a)
      ensures found == Has(old(temporary.contents), a) && (found ==> id == Lookup(old(temporary.contents), a))
    {
      found, id := temporary.Get(a);
      assert paired.Valid();
    }

    /** Stores a new temporary device, freeing the id of the device it evicts. */
    method Remember(a: RawAddress, id: int)
      requires Valid()
      modifies this`idSet, temporary, temporary.repr
      ensures Valid() && fresh(temporary.repr - old(temporary.repr))
      ensures temporary.contents == Put(old(temporary.contents), MAX_UNPAIRED, a, id)
      ensures idSet == old(idSet) + {id} - EvictedIds(Evicted(old(temporary.contents), MAX_UNPAIRED, a))
    {
      idSet := idSet + {id};
      var evicted := PutTemporary(a, id);
      if evicted.Some? {
        idSet := idSet - {evicted.value.value};
      }
    }

    method PutTemporary(a: RawAddress, id: int) returns (evicted: Option<Entry<RawAddress, int>>)
      requires Valid()
      modifies temporary, temporary.repr
      ensures Valid() && fresh(temporary.repr - old(temporary.repr))
      ensures temporary.contents == Put(old(temporary.contents), MAX_UNPAIRED, a, id)
      ensures evicted == Evicted(old(temporary.contents), MAX_UNPAIRED, a)
    {
      evicted := temporary.Put(a, id);
      assert paired.Valid();
    }

    /** Gives a new device the first free id and moves the cursor past it. */
    method AllocateFresh(a: RawAddress) returns (id: int)
      requires Valid() && |idSet| < RANGE && IsValidId(nextId)
      modifies this`idSet, this`nextId, temporary, temporary.repr
      ensures Valid() && fresh(temporary.repr - old(temporary.repr))
      ensures id == FreshId(old(Abs())) && Abs() == Bind(old(Abs()), a, id)
    {
      id := TakeFreeId();
      Remember(a, id);
    }

    method FindOrAllocate(a: RawAddress) returns (id: int)
      requires Valid() && |idSet| < RANGE && IsValidId(nextId)
      modifies this`idSet, this`nextId, paired, paired.repr, temporary, temporary.repr
      ensures Valid() && fresh(temporary.repr - old(temporary.repr)) && paired.repr == old(paired.repr)
      ensures Abs() == Ids.AllocateId(old(Abs()), a)
      ensures id == if Known(old(Abs()), a) then IdOf(old(Abs()), a) else FreshId(old(Abs()))
    {
      var found: bool;
      found, id := Query(a);
      if !found {
        assert Abs() == old(Abs());
        id := AllocateFresh(a);
      }
    }

    /** The call may be made in every state in which the search for a free id ends. */
    method AllocateId(a: RawAddress) returns (id: int)
      requires Valid() && |idSet| < RANGE && IsValidId(nextId)
      modifies this`idSet, this`nextId, paired, paired.repr, temporary, temporary.repr
      ensures Valid() && fresh(temporary.repr - old(temporary.repr)) && paired.repr == old(paired.repr)
      ensures Abs() == Ids.AllocateId(old(Abs()), a) && Kept(old(Abs()), Abs())
      ensures id == if Known(old(Abs()), a) then IdOf(old(Abs()), a) else FreshId(old(Abs()))
    {
      AllocateKeeps(Abs(), a);
      id := FindOrAllocate(a);
    }

    /** Loads the saved devices, in whatever order the map yields them, over whatever devices there are. */
    method Init(devices: Devices) returns (outcome: InitOutcome)
      requires Valid()
      modifies this, paired, paired.repr
      ensures (outcome == Refused) == old(initialized)
      ensures outcome == Fatal <==> !old(initialized) && (|devices| > MAX_PAIRED || !AllValid(devices))
      ensures outcome == Refused ==> Abs() == old(Abs()) && initialized
      ensures outcome == Initialized ==>
        && Valid() && fresh(paired.repr - old(paired.repr))
        && Abs() == Ids.Init(old(Abs()), devices) && initialized
      ensures outcome == Initialized ==>
        forall m :: IsLargest(devices, m) ==> nextId == if m == MAX_ID then MIN_ID else m + 1
      ensures outcome == Initialized && UniqueKeys(devices) && Together(old(Abs()), devices) ==>
        && (old(Inv(Abs())) ==> (Inv(Abs()) <==> Loadable(old(Abs()), devices)))
        && (old(Searchable(Abs())) ==> (Searchable(Abs()) <==> NoneLeft(old(Abs()), devices)))
    {
      if initialized {
        return Refused;
      }
      if |devices| > MAX_PAIRED {
        return Fatal;
      }
      InitKeeps(Abs(), devices);
      ghost var v := Abs();
      var ok := Load(devices);
      if !ok {
        return Fatal;
      }
      forall m | IsLargest(devices, m) ensures nextId == if m == MAX_ID then MIN_ID else m + 1 {
        InitCursor(v, devices, m);
      }
      return Initialized;
    }

    /** The loading loop, and the cursor after it. */
    method Load(devices: Devices) returns (ok: bool)
      requires Valid() && !initialized
      modifies this, paired, paired.repr
      ensures Valid() && fresh(paired.repr - old(paired.repr))
      ensures ok == initialized == AllValid(devices)
      ensures ok ==> Abs() == Ids.Init(old(Abs()), devices)
    {
      nextId := MIN_ID;
      ok := LoadAll(devices);
      if !ok {
        return;
      }
      if nextId > MAX_ID {
        nextId := MIN_ID;
      }
      initialized := true;
    }

    /** The loading loop, up to the first id out of range. */
    method LoadAll(devices: Devices) returns (ok: bool)
      requires Valid()
      modifies this`idSet, this`nextId, this`callbacks, paired, paired.repr
      ensures Valid() && fresh(paired.repr - old(paired.repr))
      ensures ok == AllValid(devices)
      ensures ok ==> Abs() == Ids.Load(old(Abs()), devices)
    {
      for i := 0 to |devices|
        invariant Valid() && fresh(paired.repr - old(paired.repr))
        invariant AllValid(devices[..i]) && Abs() == Ids.Load(old(Abs()), devices[..i])
      {
        TakeOneMore(devices, i);
        if devices[i].value < MIN_ID || devices[i].value > MAX_ID {
          return false;
        }
        LoadOne(devices[i]);
      }
      assert devices[..|devices|] == devices;
      return true;
    }

    /** One round of the loading loop. */
    method LoadOne(p: Entry<RawAddress, int>)
      requires Valid()
      modifies this`idSet, this`nextId, this`callbacks, paired, paired.repr
      ensures Valid() && fresh(paired.repr - old(paired.repr))
      ensures Abs() == Ids.LoadOne(old(Abs()), p)
    {
      StorePaired(p.key, p.value);
      EnterId(p.value);
    }

    method EnterId(id: int)
      modifies this`idSet, this`nextId
      ensures idSet == old(idSet) + {id} && nextId == if id + 1 > old(nextId) then id + 1 else old(nextId)
    {
      idSet := idSet + {id};
      nextId := if id + 1 > nextId then id + 1 else nextId;
    }

    method Close() returns (closed: bool)
      requires Valid()
      modifies this`idSet, this`initialized, paired, paired.repr, temporary, temporary.repr
      ensures Valid() && paired.repr == old(paired.repr) && temporary.repr == old(temporary.repr)
      ensures closed == old(initialized) && !initialized
      ensures if closed then Empty(Abs()) && nextId == old(nextId) else Abs() == old(Abs())
      ensures closed && IsValidId(nextId) ==> Inv(Abs()) && Searchable(Abs())
    {
      if !initialized {
        return false;
      }
      ClearCaches();
      idSet := {};
      initialized := false;
      if IsValidId(nextId) {
        EmptyInv(Abs());
      }
      return true;
    }

    method ClearCaches()
      requires Valid()
      modifies paired, paired.repr, temporary, temporary.repr
      ensures Valid() && paired.repr == old(paired.repr) && temporary.repr == old(temporary.repr)
      ensures paired.contents == [] && temporary.contents == []
    {
      paired.Clear();
      temporary.Clear();
    }

    method IsEmpty() returns (empty: bool)
      requires Valid()
      ensures empty <==> paired.contents == [] && temporary.contents == []
    {
      var p := paired.Size();
      var t := temporary.Size();
      empty := p == 0 && t == 0;
    }

    /** Takes a device out of a cache. */
    static method Take(cache: LruCache<RawAddress, int>, a: RawAddress) returns (found: bool, id: int)
      requires cache.Valid()
      modifies cache, cache.repr
      ensures cache.Valid() && cache.repr == old(cache.repr)
      ensures found == Has(old(cache.contents), a) && (found ==> id == Lookup(old(cache.contents), a))
      ensures cache.contents == if found then Without(Touch(old(cache.contents), a), a) else old(cache.contents)
    {
      found, id := cache.Get(a);
      if found {
        var _ := cache.Remove(a);
      }
    }

    /** Stores a paired device, forgetting the device it evicts. */
    method StorePaired(a: RawAddress, id: int)
      requires Valid()
      modifies this`idSet, this`callbacks, paired, paired.repr
      ensures Valid() && fresh(paired.repr - old(paired.repr))
      ensures paired.contents == Put(old(paired.contents), MAX_PAIRED, a, id)
      ensures var evicted := Evicted(old(paired.contents), MAX_PAIRED, a);
              idSet == old(idSet) - EvictedIds(evicted) && callbacks == old(callbacks) + ForgottenCallback(evicted)
    {
      var evicted := paired.Put(a, id);
      if evicted.Some? {
        ForgetDevicePostprocess(evicted.value.key, evicted.value.value);
      }
    }

    /** Stores a newly paired device and reports it. */
    method StoreSaved(a: RawAddress, id: int)
      requires Valid()
      modifies this`idSet, this`callbacks, paired, paired.repr
      ensures Valid() && fresh(paired.repr - old(paired.repr))
      ensures paired.contents == Put(old(paired.contents), MAX_PAIRED, a, id)
      ensures var evicted := Evicted(old(paired.contents), MAX_PAIRED, a);
              && idSet == old(idSet) - EvictedIds(evicted)
              && callbacks == old(callbacks) + ForgottenCallback(evicted) + [Saved(a, id)]
    {
      StorePaired(a, id);
      callbacks := callbacks + [Saved(a, id)];
    }

    method TakeTemporary(a: RawAddress) returns (found: bool, id: int)
      requires Valid()
      modifies temporary, temporary.repr
      ensures Valid() && temporary.repr == old(temporary.repr)
      ensures found == Has(old(temporary.contents), a) && (found ==> id == Lookup(old(temporary.contents), a))
      ensures temporary.contents
           == if found then Without(Touch(old(temporary.contents), a), a) else old(temporary.contents)
    {
      found, id := Take(temporary, a);
      assert paired.Valid();
    }

    /** The part of SaveDevice for a device that is not paired yet. */
    method SaveTemporary(a: RawAddress, saved: bool) returns (ok: bool)
      requires Valid() && !Has(paired.contents, a)
      modifies this`idSet, this`callbacks, paired, paired.repr, temporary, temporary.repr
      ensures Valid() && fresh(paired.repr - old(paired.repr)) && temporary.repr == old(temporary.repr)
      ensures Abs() == Ids.SaveDevice(old(Abs()), a)
      ensures ok <==> Has(old(Abs()).temporary, a) && saved
    {
      var found, id := TakeTemporary(a);
      if !found {
        return false;
      }
      StoreSaved(a, id);
      ok := saved;
    }

    method Save(a: RawAddress, saved: bool) returns (ok: bool)
      requires Valid()
      modifies this`idSet, this`callbacks, paired, paired.repr, temporary, temporary.repr
      ensures Valid() && fresh(paired.repr - old(paired.repr)) && temporary.repr == old(temporary.repr)
      ensures Abs() == Ids.SaveDevice(old(Abs()), a)
      ensures ok <==> Has(old(Abs()).paired, a) || (Has(old(Abs()).temporary, a) && saved)
    {
      var found, _ := AskPaired(a);
      if found {
        return true;
      }
      assert Abs() == old(Abs());
      ok := SaveTemporary(a, saved);
    }

    /** `saved` is what the save callback answers. */
    method SaveDevice(a: RawAddress, saved: bool) returns (ok: bool)
      requires Valid()
      modifies this`idSet, this`callbacks, paired, paired.repr, temporary, temporary.repr
      ensures Valid() && fresh(paired.repr - old(paired.repr)) && temporary.repr == old(temporary.repr)
      ensures Abs() == Ids.SaveDevice(old(Abs()), a) && Kept(old(Abs()), Abs())
      ensures ok <==> Has(old(Abs()).paired, a) || (Has(old(Abs()).temporary, a) && saved)
    {
      SaveKeeps(Abs(), a);
      ok := Save(a, saved);
    }

    /** Takes a device out of the paired cache. */
    method TakePaired(a: RawAddress) returns (found: bool, id: int)
      requires Valid()
      modifies paired, paired.repr
      ensures Valid() && paired.repr == old(paired.repr)
      ensures found == Has(old(paired.contents), a) && (found ==> id == Lookup(old(paired.contents), a))
      ensures paired.contents == if found then Without(Touch(old(paired.contents), a), a) else old(paired.contents)
    {
      found, id := Take(paired, a);
      assert temporary.Valid();
    }

    method Forget(a: RawAddress)
      requires Valid()
      modifies this`idSet, this`callbacks, paired, paired.repr
      ensures Valid() && paired.repr == old(paired.repr)
      ensures Abs() == Ids.ForgetDevice(old(Abs()), a)
    {
      var found, id := TakePaired(a);
      if found {
        ForgetDevicePostprocess(a, id);
      }
    }

    method ForgetDevice(a: RawAddress)
      requires Valid()
      modifies this`idSet, this`callbacks, paired, paired.repr
      ensures Valid() && paired.repr == old(paired.repr)
      ensures Abs() == Ids.ForgetDevice(old(Abs()), a) && Kept(old(Abs()), Abs())
    {
      ForgetKeeps(Abs(), a);
      Forget(a);
    }
  }
}
