/**
 MDSReadLock: a flag, an item name and a store, with a destructor that unlocks and the copy assignment the
 compiler supplies.  It shows why the response handlers hold no lock after `lock = mds->is_..._available()`.
 */
module ReadLock {

  /** The read locks of one process, by item: one entry for each descriptor it has open. */
  class Store {
    var items: set<string>
    var held: multiset<string>

    constructor (items: set<string>)
      ensures this.items == items && held == multiset{}
    {
      this.items, held := items, multiset{};
    }

    /** A read lock is granted exactly when the item exists. */
    method GetReadLock(name: string) returns (ok: bool)
      modifies this`held
      ensures ok <==> name in items
      ensures held == if ok then old(held) + multiset{name} else old(held)
    {
      ok := name in items;
      if ok { held := held + multiset{name}; }
    }

    /** Every descriptor recorded for the item is unlocked and closed. */
    method UnlockAndClose(name: string)
      modifies this`held
      ensures held == old(held)[name := 0]
    {
      while name in held
        invariant held[name := 0] == old(held)[name := 0]
        decreases held[name]
      {
        held := held - multiset{name};
      }
      assert held == held[name := 0];
    }
  }

  class MDSReadLock {
    var name: string
    var locked: bool
    var mds: Store?

    constructor ()
      ensures name == "" && !locked && mds == null
    {
      name, locked, mds := "", false, null;
    }

    constructor Of(n: string, l: bool, store: Store)
      ensures name == n && locked == l && mds == store
    {
      name, locked, mds := n, l, store;
    }

    /** clearLock(), and also what the destructor does. */
    method ClearLock()
      requires locked ==> mds != null
      modifies this`locked, mds
      ensures !locked
      ensures mds != null ==> mds.held == if old(locked) then old(mds.held)[name := 0] else old(mds.held)
      ensures mds != null ==> mds.items == old(mds.items)
    {
      if locked { mds.UnlockAndClose(name); }
      locked := false;
    }

    /** The implicit copy assignment: member by member, with no transfer of the lock. */
    method Assign(src: MDSReadLock)
      modifies this
      ensures name == src.name && locked == old(src.locked) && mds == src.mds
    {
      name, locked, mds := src.name, src.locked, src.mds;
    }
  }

  /**
   `lock = mds->is_x_available()`: the temporary that carries the result is destroyed after the assignment.
   The handler's lock answers whether the item was there and fresh, and the store holds no lock for it.
   */
  method AssignAvailability(lock: MDSReadLock, mds: Store, name: string, current: bool)
    requires !lock.locked
    modifies lock, mds
    ensures mds.items == old(mds.items)
    ensures lock.locked <==> name in mds.items && current
    ensures lock.name == name && lock.mds == mds
    ensures name in mds.items ==> mds.held == old(mds.held)[name := 0]
    ensures name !in mds.items ==> mds.held == old(mds.held)
  {
    var ok := mds.GetReadLock(name);
    var temp := new MDSReadLock.Of(name, ok, mds);
    if !current { temp.ClearLock(); }
    lock.Assign(temp);
    temp.ClearLock();
  }
}
