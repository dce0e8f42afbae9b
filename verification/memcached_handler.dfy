/** MemcachedSessionHandler in src/: session data under "sess-<name>-<id>", the
    lock the key "sess-<name>-<id>-lock" taken with add, polled every 20 ms,
    and an isLocked flag remembering whether this handler took it. */
module MemcachedHandler {
  import opened PhpValues
  import opened MemcachedStore

  /** How often read() tries add(lock): once every 20 ms for the effective limit. */
  function LockAttempts(maxExecutionTime: int): nat {
    PollCount(EffectiveMaxTime(maxExecutionTime), 50)
  }

  class MemcachedSessionHandler {
    var sessionName: string
    var sessionId: string
    var memcached: Memcached?
    var isLocked: bool

    constructor ()
      ensures sessionName == "" && sessionId == "" && memcached == null && !isLocked
    {
      sessionName := "";
      sessionId := "";
      memcached := null;
      isLocked := false;
    }

    /** The guard of write, destroy and updateTimestamp: a hex, truthy id equal to the bound one. */
    predicate Owns(id: string)
      reads this
    {
      CtypeXdigit(id) && Truthy(id) && sessionId == id
    }

    /** Binds the session name and the server the save path points at. */
    method Open(server: Memcached, sessionName: string) returns (ok: bool)
      modifies this
      ensures ok
      ensures this.sessionName == sessionName && memcached == server
      ensures sessionId == old(sessionId) && isLocked == old(isLocked)
    {
      this.sessionName := sessionName;
      memcached := server;
      ok := true;
    }

    /** close() as written: deletes the bound id's lock key when isLocked is set and
        unbinds the id, but leaves isLocked as it was. */
    method CloseAsWritten() returns (ok: bool)
      requires memcached != null
      modifies this, memcached
      ensures ok
      ensures memcached == old(memcached) && sessionName == old(sessionName)
      ensures sessionId == "" && isLocked == old(isLocked)
      ensures memcached.items == if old(isLocked) then old(memcached.items) - {LockKey(sessionName, old(sessionId))}
                                 else old(memcached.items)
    {
      var lock := LockKey(sessionName, sessionId);
      if isLocked {
        var _ := memcached.Delete(lock);
      }
      sessionId := "";
      ok := true;
    }

    /** close() with the flag cleared together with the lock it stands for. */
    method Close() returns (ok: bool)
      requires memcached != null
      modifies this, memcached
      ensures ok
      ensures memcached == old(memcached) && sessionName == old(sessionName)
      ensures sessionId == "" && !isLocked
      ensures memcached.items == if old(isLocked) then old(memcached.items) - {LockKey(sessionName, old(sessionId))}
                                 else old(memcached.items)
    {
      var lock := LockKey(sessionName, sessionId);
      if isLocked {
        var _ := memcached.Delete(lock);
      }
      sessionId := "";
      isLocked := false;
      ok := true;
    }

    /** Binds id, polls add for the lock key, then returns the stored value (or "") and
        refreshes the entry's expiration. `attempts` counts the add calls made. */
    method Read(id: string, maxExecutionTime: int, gcMaxlifetime: int) returns (r: ReadResult, ghost attempts: nat)
      requires memcached != null
      modifies this, memcached
      ensures memcached == old(memcached) && sessionName == old(sessionName)
      ensures attempts <= LockAttempts(maxExecutionTime)
      ensures !CtypeXdigit(id) ==>
        && r == Content("") && attempts == 0
        && sessionId == old(sessionId) && isLocked == old(isLocked) && memcached.items == old(memcached.items)
      ensures CtypeXdigit(id) ==> sessionId == id
      ensures CtypeXdigit(id)
              && (LockAttempts(maxExecutionTime) == 0 || LockKey(sessionName, id) in old(memcached.items)) ==>
        && r == ReadFailed && attempts == LockAttempts(maxExecutionTime)
        && isLocked == old(isLocked) && memcached.items == old(memcached.items)
      ensures CtypeXdigit(id)
              && LockAttempts(maxExecutionTime) > 0 && LockKey(sessionName, id) !in old(memcached.items) ==>
        && attempts == 1 && isLocked
        && r == Content(ValueOrEmpty(old(memcached.items), EntryKey(sessionName, id)))
        && memcached.items == Retimed(old(memcached.items)[LockKey(sessionName, id) := Item("1", 0)],
                                      EntryKey(sessionName, id), gcMaxlifetime)
        && LockKey(sessionName, id) in memcached.items
    {
      attempts := 0;
      if !CtypeXdigit(id) {
        return Content(""), attempts;
      }
      sessionId := id;
      var key := EntryKey(sessionName, id);
      var lock := LockKey(sessionName, id);
      LockKeyIsNotEntryKey(sessionName, sessionName, id, id);
      var success := false;
      for i := 0 to LockAttempts(maxExecutionTime)
        invariant !success && attempts == i
        invariant sessionId == id && isLocked == old(isLocked)
        invariant memcached == old(memcached) && sessionName == old(sessionName)
        invariant memcached.items == old(memcached.items)
        invariant i > 0 ==> lock in memcached.items
      {
        success := memcached.Add(lock, "1", 0);
        attempts := attempts + 1;
        if success {
          break;
        }
        // usleep(20 ms): no other process is modelled, so the next attempt sees the same keys
      }
      if !success {
        return ReadFailed, attempts;
      }
      isLocked := true;
      var data := memcached.GetOrEmpty(key);
      var _ := memcached.Touch(key, gcMaxlifetime);
      r := Content(data);
    }

    /** Stores data for the bound id, deletes the lock key and clears the flag, without
        checking that this handler holds the lock. */
    method Write(id: string, data: string, gcMaxlifetime: int) returns (ok: bool)
      requires memcached != null
      modifies this, memcached
      ensures memcached == old(memcached) && sessionName == old(sessionName) && sessionId == old(sessionId)
      ensures ok == old(Owns(id))
      ensures ok ==> !isLocked
                     && memcached.items == old(memcached.items)[EntryKey(sessionName, id) := Item(data, gcMaxlifetime)]
                                           - {LockKey(sessionName, id)}
      ensures !ok ==> isLocked == old(isLocked) && memcached.items == old(memcached.items)
    {
      if !CtypeXdigit(id) {
        return false;
      }
      if !Truthy(id) || sessionId != id {
        return false;
      }
      var key := EntryKey(sessionName, id);
      var lock := LockKey(sessionName, id);
      ok := memcached.Set(key, data, gcMaxlifetime);
      var _ := memcached.Delete(lock);
      isLocked := false;
    }

    /** Unbinds the id, deletes entry and lock keys and clears the flag; absent keys are no error. */
    method Destroy(id: string) returns (ok: bool)
      requires memcached != null
      modifies this, memcached
      ensures memcached == old(memcached) && sessionName == old(sessionName)
      ensures ok == old(Owns(id))
      ensures ok ==> sessionId == "" && !isLocked && !Owns(id)
                     && memcached.items == old(memcached.items) - {EntryKey(sessionName, id), LockKey(sessionName, id)}
      ensures !ok ==> sessionId == old(sessionId) && isLocked == old(isLocked) && memcached.items == old(memcached.items)
    {
      if !CtypeXdigit(id) {
        return false;
      }
      if !Truthy(id) || sessionId != id {
        return false;
      }
      sessionId := "";
      var key := EntryKey(sessionName, id);
      var lock := LockKey(sessionName, id);
      var _ := memcached.Delete(key);
      var _ := memcached.Delete(lock);
      isLocked := false;
      ok := true;
    }

    /** memcached expires entries itself; gc's `return true` under `: int` is 1. */
    method Gc(maxlifetime: int) returns (count: int)
      ensures count == 1
    {
      count := 1;
    }

    /** Draws ids until one whose entry key holds no truthy value; `draws` are the
        successive random_bytes(16) results. */
    method CreateSid(draws: seq<Bytes16>) returns (id: string)
      requires memcached != null
      requires exists k :: 0 <= k < |draws| && !TruthyAt(memcached.items, EntryKey(sessionName, Bin2Hex(draws[k])))
      ensures |id| == 32 && forall i :: 0 <= i < |id| ==> IsLowerHexDigit(id[i])
      ensures !TruthyAt(memcached.items, EntryKey(sessionName, id))
      ensures exists k :: 0 <= k < |draws| && id == Bin2Hex(draws[k])
                          && forall j :: 0 <= j < k ==> TruthyAt(memcached.items, EntryKey(sessionName, Bin2Hex(draws[j])))
    {
      ghost var unused :| 0 <= unused < |draws| && !TruthyAt(memcached.items, EntryKey(sessionName, Bin2Hex(draws[unused])));
      var k := 0;
      id := Bin2Hex(draws[k]);
      while memcached.GetTruthy(EntryKey(sessionName, id))
        invariant k <= unused
        invariant id == Bin2Hex(draws[k])
        invariant forall j :: 0 <= j < k ==> TruthyAt(memcached.items, EntryKey(sessionName, Bin2Hex(draws[j])))
        decreases unused - k
      {
        k := k + 1;
        id := Bin2Hex(draws[k]);
      }
    }

    /** Collision check: true when id is hex and its entry key holds a truthy value. */
    method ValidateId(id: string) returns (collides: bool)
      requires memcached != null
      ensures collides <==> CtypeXdigit(id) && TruthyAt(memcached.items, EntryKey(sessionName, id))
    {
      if !CtypeXdigit(id) {
        return false;
      }
      collides := memcached.GetTruthy(EntryKey(sessionName, id));
    }

    /** Refreshes the entry's expiration while the lock key holds a truthy value, then
        deletes the lock and clears the flag; returns whether the entry was there to touch. */
    method UpdateTimestamp(id: string, data: string, gcMaxlifetime: int) returns (ok: bool)
      requires memcached != null
      modifies this, memcached
      ensures memcached == old(memcached) && sessionName == old(sessionName) && sessionId == old(sessionId)
      ensures var allowed := old(Owns(id)) && TruthyAt(old(memcached.items), LockKey(sessionName, id));
        && ok == (allowed && EntryKey(sessionName, id) in old(memcached.items))
        && isLocked == (if allowed then false else old(isLocked))
        && memcached.items == if allowed
                              then Retimed(old(memcached.items), EntryKey(sessionName, id), gcMaxlifetime) - {LockKey(sessionName, id)}
                              else old(memcached.items)
    {
      if !CtypeXdigit(id) {
        return false;
      }
      if !Truthy(id) || sessionId != id {
        return false;
      }
      var key := EntryKey(sessionName, id);
      var lock := LockKey(sessionName, id);
      if !memcached.GetTruthy(lock) {
        return false;
      }
      ok := memcached.Touch(key, gcMaxlifetime);
      var _ := memcached.Delete(lock);
      isLocked := false;
    }
  }

  // Whole sessions, each on a fresh server and fresh handlers.

  /** What was written under the lock is what the next read returns, except that a
      falsy value ("" or "0") reads back as "". */
  method WriteThenRead(name: string, id: string, data: string, initial: Items, ttl: int)
    returns (written: bool, reread: ReadResult)
    requires CtypeXdigit(id) && Truthy(id)
    requires LockKey(name, id) !in initial
    ensures written && reread == Content(if Truthy(data) then data else "")
  {
    LockKeyIsNotEntryKey(name, name, id, id);
    var server := new Memcached(initial);
    var h := new MemcachedSessionHandler();
    var _ := h.Open(server, name);
    var first;
    ghost var attempts;
    first, attempts := h.Read(id, 0, ttl);
    written := h.Write(id, data, ttl);
    var _ := h.Close();
    reread, attempts := h.Read(id, 0, ttl);
  }

  /** While one handler holds the lock, a second handler's read of the same id fails;
      once the holder has written, the second handler reads what it wrote. */
  method SecondReaderWaits(name: string, id: string, data: string, initial: Items, ttl: int)
    returns (first: ReadResult, second: ReadResult, afterWrite: ReadResult)
    requires CtypeXdigit(id) && Truthy(id) && Truthy(data)
    requires LockKey(name, id) !in initial
    ensures first.Content? && second == ReadFailed && afterWrite == Content(data)
  {
    LockKeyIsNotEntryKey(name, name, id, id);
    var server := new Memcached(initial);
    var holder := new MemcachedSessionHandler();
    var waiter := new MemcachedSessionHandler();
    var _ := holder.Open(server, name);
    var _ := waiter.Open(server, name);
    ghost var attempts;
    first, attempts := holder.Read(id, 0, ttl);
    second, attempts := waiter.Read(id, 0, ttl);
    var _ := holder.Write(id, data, ttl);
    afterWrite, attempts := waiter.Read(id, 0, ttl);
  }

  /** read() only touches the entry, which does nothing to a missing key: a never-used id
      reads as "", stays free for validateId, and updateTimestamp then fails (yet releases the lock). */
  method FreshIdIsNotMaterialised(name: string, id: string, initial: Items, ttl: int)
    returns (r: ReadResult, collides: bool, touched: bool, lockLeft: bool)
    requires CtypeXdigit(id) && Truthy(id)
    requires EntryKey(name, id) !in initial && LockKey(name, id) !in initial
    ensures r == Content("") && !collides && !touched && !lockLeft
  {
    LockKeyIsNotEntryKey(name, name, id, id);
    var server := new Memcached(initial);
    var h := new MemcachedSessionHandler();
    var _ := h.Open(server, name);
    ghost var attempts;
    r, attempts := h.Read(id, 0, ttl);
    collides := h.ValidateId(id);
    touched := h.UpdateTimestamp(id, "", ttl);
    lockLeft := LockKey(name, id) in server.items;
  }

  /** destroy succeeds once; the immediate repeat fails because the id is unbound. */
  method DestroyTwice(name: string, id: string, initial: Items, ttl: int)
    returns (first: bool, second: bool, collides: bool)
    requires CtypeXdigit(id) && Truthy(id)
    requires LockKey(name, id) !in initial
    ensures first && !second && !collides
  {
    var server := new Memcached(initial);
    var h := new MemcachedSessionHandler();
    var _ := h.Open(server, name);
    var r;
    ghost var attempts;
    r, attempts := h.Read(id, 0, ttl);
    first := h.Destroy(id);
    second := h.Destroy(id);
    collides := h.ValidateId(id);
  }

  /** An id from create_sid passes the hex guard and does not collide. */
  method NewIdDoesNotCollide(name: string, initial: Items, draws: seq<Bytes16>)
    returns (id: string, collides: bool)
    requires exists k :: 0 <= k < |draws| && !TruthyAt(initial, EntryKey(name, Bin2Hex(draws[k])))
    ensures CtypeXdigit(id) && !collides
  {
    var server := new Memcached(initial);
    var h := new MemcachedSessionHandler();
    var _ := h.Open(server, name);
    id := h.CreateSid(draws);
    collides := h.ValidateId(id);
  }

  /** With close() as written, a reused handler keeps isLocked after its first session; when
      its next read times out on a lock another handler holds, its close deletes that lock. */
  method StaleFlagReleasesForeignLock(name: string, a: string, b: string, initial: Items, ttl: int)
    returns (second: ReadResult, otherLockLeft: bool)
    requires CtypeXdigit(a) && CtypeXdigit(b) && a != b
    requires LockKey(name, a) !in initial && LockKey(name, b) !in initial
    ensures second == ReadFailed && !otherLockLeft
  {
    var server := new Memcached(initial);
    var h := new MemcachedSessionHandler();
    var other := new MemcachedSessionHandler();
    var _ := h.Open(server, name);
    var _ := other.Open(server, name);
    var first, held;
    ghost var attempts;
    first, attempts := h.Read(a, 0, ttl);
    var _ := h.CloseAsWritten();
    held, attempts := other.Read(b, 0, ttl);
    second, attempts := h.Read(b, 0, ttl);
    var _ := h.CloseAsWritten();
    otherLockLeft := LockKey(name, b) in server.items;
  }

  /** The same sequence with close() clearing the flag: the other handler keeps its lock. */
  method ClearedFlagKeepsForeignLock(name: string, a: string, b: string, initial: Items, ttl: int)
    returns (second: ReadResult, otherLockLeft: bool)
    requires CtypeXdigit(a) && CtypeXdigit(b) && a != b
    requires LockKey(name, a) !in initial && LockKey(name, b) !in initial
    ensures second == ReadFailed && otherLockLeft
  {
    if LockKey(name, a) == LockKey(name, b) {
      LockKeyInjective(name, a, b);
    }
    var server := new Memcached(initial);
    var h := new MemcachedSessionHandler();
    var other := new MemcachedSessionHandler();
    var _ := h.Open(server, name);
    var _ := other.Open(server, name);
    var first, held;
    ghost var attempts;
    first, attempts := h.Read(a, 0, ttl);
    var _ := h.Close();
    held, attempts := other.Read(b, 0, ttl);
    second, attempts := h.Read(b, 0, ttl);
    var _ := h.Close();
    otherLockLeft := LockKey(name, b) in server.items;
  }
}
