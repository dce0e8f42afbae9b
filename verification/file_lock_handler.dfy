/** FilesSessionHandler at the repository root: session data in "sess_<id>"
    files, the lock an exclusively created regular file "sess_<id>.lock",
    polled every 100 ms. */
module FileLockHandler {
  import opened PhpValues
  import opened FileSystemModel

  /** How often read() tries fopen(lock, 'x'): once every 100 ms for max_execution_time
      seconds, with no default, so an unset (zero) limit allows no attempt at all. */
  function LockAttempts(maxExecutionTime: int): nat {
    PollCount(maxExecutionTime, 10)
  }

  lemma LockAttemptsBound(maxExecutionTime: int)
    ensures maxExecutionTime <= 0 ==> LockAttempts(maxExecutionTime) == 0
    ensures maxExecutionTime > 0 ==> LockAttempts(maxExecutionTime) == 10 * maxExecutionTime
  {
  }

  /** read()'s guards: a hex id, and no other truthy id already bound. */
  predicate ReadAccepts(boundId: string, id: string) {
    CtypeXdigit(id) && !(Truthy(boundId) && boundId != id)
  }

  /** A stale lock is an ordinary sess_* regular file, so gc sweeps it like an entry. */
  lemma StaleLockFileIsCollected(nodes: Nodes, dir: string, id: string, maxlifetime: int, now: int)
    requires IsFile(nodes, LockFile(dir, id))
    requires nodes[LockFile(dir, id)].mtime + maxlifetime <= now
    ensures LockFile(dir, id) in Expired(nodes, dir, maxlifetime, now)
  {
    assert LockFile(dir, id).name[..5] == "sess_";
  }

  class FilesSessionHandler {
    var sessionSavePath: string
    var sessionId: string

    constructor ()
      ensures sessionSavePath == "" && sessionId == ""
    {
      sessionSavePath := "";
      sessionId := "";
    }

    /** The guard of write, destroy and updateTimestamp: a hex, truthy id equal to the bound one. */
    predicate Owns(id: string)
      reads this
    {
      CtypeXdigit(id) && Truthy(id) && sessionId == id
    }

    method Open(savePath: string, sessionName: string) returns (ok: bool)
      modifies this
      ensures ok
      ensures sessionSavePath == savePath && sessionId == old(sessionId)
    {
      sessionSavePath := savePath;
      ok := true;
    }

    /** Removes a lock file left behind for the bound id and unbinds it. */
    method Close(fs: FileSystem) returns (ok: bool)
      modifies this, fs
      ensures ok
      ensures sessionId == "" && sessionSavePath == old(sessionSavePath)
      ensures fs.nodes == Unlinked(old(fs.nodes), LockFile(sessionSavePath, old(sessionId)))
    {
      var lock := LockFile(sessionSavePath, sessionId);
      if fs.Exists(lock) {
        var _ := fs.Unlink(lock);
      }
      sessionId := "";
      ok := true;
    }

    /** Binds id, polls for the lock file, then touches the entry and returns its content.
        `attempts` counts the fopen calls made. */
    method Read(fs: FileSystem, id: string, maxExecutionTime: int, now: int) returns (r: ReadResult, ghost attempts: nat)
      modifies this, fs
      ensures sessionSavePath == old(sessionSavePath)
      ensures attempts <= LockAttempts(maxExecutionTime)
      ensures !ReadAccepts(old(sessionId), id) ==>
        r == Content("") && sessionId == old(sessionId) && fs.nodes == old(fs.nodes) && attempts == 0
      ensures ReadAccepts(old(sessionId), id) ==> sessionId == id
      ensures ReadAccepts(old(sessionId), id)
              && (LockAttempts(maxExecutionTime) == 0 || LockFile(sessionSavePath, id) in old(fs.nodes)) ==>
        r == ReadFailed && fs.nodes == old(fs.nodes) && attempts == LockAttempts(maxExecutionTime)
      ensures ReadAccepts(old(sessionId), id)
              && LockAttempts(maxExecutionTime) > 0 && LockFile(sessionSavePath, id) !in old(fs.nodes) ==>
        && attempts == 1
        && r == Content(ContentsAsString(old(fs.nodes), SessionFile(sessionSavePath, id)))
        && fs.nodes == Touched(old(fs.nodes)[LockFile(sessionSavePath, id) := File("", now)], SessionFile(sessionSavePath, id), now)
        && IsFile(fs.nodes, LockFile(sessionSavePath, id)) && SessionFile(sessionSavePath, id) in fs.nodes
    {
      attempts := 0;
      if !CtypeXdigit(id) {
        return Content(""), attempts;
      }
      if Truthy(sessionId) && sessionId != id {
        return Content(""), attempts;
      }
      sessionId := id;
      var entry := SessionFile(sessionSavePath, id);
      var lock := LockFile(sessionSavePath, id);
      LockFileIsNotSessionFile(sessionSavePath, id, id);
      var handle := false;
      for i := 0 to LockAttempts(maxExecutionTime)
        invariant !handle && attempts == i
        invariant sessionId == id && sessionSavePath == old(sessionSavePath)
        invariant fs.nodes == old(fs.nodes)
        invariant i > 0 ==> lock in fs.nodes
      {
        handle := fs.CreateExclusive(lock, now);
        attempts := attempts + 1;
        if handle {
          break;
        }
        // usleep(100 ms): no other process is modelled, so the next attempt sees the same directory
      }
      if !handle {
        return ReadFailed, attempts;
      }
      var _ := fs.Touch(entry, now);
      r := Content(fs.GetContents(entry));
    }

    /** read() as it is declared, `: string`: outside strict_types PHP turns its
        `return false` into "", so a lock timeout reaches the caller as an empty session. */
    method ReadAsDeclared(fs: FileSystem, id: string, maxExecutionTime: int, now: int) returns (s: string)
      modifies this, fs
      ensures sessionSavePath == old(sessionSavePath)
      ensures !ReadAccepts(old(sessionId), id) ==>
        s == "" && sessionId == old(sessionId) && fs.nodes == old(fs.nodes)
      ensures ReadAccepts(old(sessionId), id) ==> sessionId == id
      ensures ReadAccepts(old(sessionId), id)
              && (LockAttempts(maxExecutionTime) == 0 || LockFile(sessionSavePath, id) in old(fs.nodes)) ==>
        s == "" && fs.nodes == old(fs.nodes)
      ensures ReadAccepts(old(sessionId), id)
              && LockAttempts(maxExecutionTime) > 0 && LockFile(sessionSavePath, id) !in old(fs.nodes) ==>
        && s == ContentsAsString(old(fs.nodes), SessionFile(sessionSavePath, id))
        && fs.nodes == Touched(old(fs.nodes)[LockFile(sessionSavePath, id) := File("", now)], SessionFile(sessionSavePath, id), now)
        && IsFile(fs.nodes, LockFile(sessionSavePath, id)) && SessionFile(sessionSavePath, id) in fs.nodes
    {
      var r;
      ghost var attempts;
      r, attempts := Read(fs, id, maxExecutionTime, now);
      s := CoerceToString(r);
    }

    /** Stores data while this handler holds the lock file, then removes the lock. */
    method Write(fs: FileSystem, id: string, data: string, now: int) returns (ok: bool)
      modifies fs
      ensures var allowed := Owns(id) && LockFile(sessionSavePath, id) in old(fs.nodes);
        && ok == (allowed && !IsDir(old(fs.nodes), SessionFile(sessionSavePath, id)))
        && fs.nodes == if allowed
                       then Unlinked(Written(old(fs.nodes), SessionFile(sessionSavePath, id), data, now), LockFile(sessionSavePath, id))
                       else old(fs.nodes)
    {
      if !CtypeXdigit(id) {
        return false;
      }
      if !Truthy(id) || sessionId != id {
        return false;
      }
      var entry := SessionFile(sessionSavePath, id);
      var lock := LockFile(sessionSavePath, id);
      if !fs.Exists(lock) {
        return false;
      }
      var written := fs.PutContents(entry, data, now);
      var _ := fs.Unlink(lock);
      ok := written;
    }

    /** Unbinds the id and unlinks entry and lock; their absence is not an error. */
    method Destroy(fs: FileSystem, id: string) returns (ok: bool)
      modifies this, fs
      ensures sessionSavePath == old(sessionSavePath)
      ensures ok == old(Owns(id))
      ensures ok ==> sessionId == "" && !Owns(id)
                     && fs.nodes == Unlinked(Unlinked(old(fs.nodes), SessionFile(sessionSavePath, id)), LockFile(sessionSavePath, id))
      ensures !ok ==> sessionId == old(sessionId) && fs.nodes == old(fs.nodes)
    {
      if !CtypeXdigit(id) {
        return false;
      }
      if !Truthy(id) || sessionId != id {
        return false;
      }
      sessionId := "";
      var _ := fs.Unlink(SessionFile(sessionSavePath, id));
      var _ := fs.Unlink(LockFile(sessionSavePath, id));
      ok := true;
    }

    /** Scans the save directory and unlinks every expired sess_* regular file, counting them. */
    method Gc(fs: FileSystem, maxlifetime: int, now: int) returns (count: nat)
      modifies fs
      ensures fs.nodes == old(fs.nodes) - Expired(old(fs.nodes), sessionSavePath, maxlifetime, now)
      ensures count == |Expired(old(fs.nodes), sessionSavePath, maxlifetime, now)|
    {
      var dir := sessionSavePath;
      ghost var victims := Expired(fs.nodes, dir, maxlifetime, now);
      var unread := fs.Listing(dir);
      ListingCoversExpired(fs.nodes, dir, maxlifetime, now, unread);
      count := 0;
      while unread != {}
        invariant forall p :: p in unread ==> p in old(fs.nodes) && p.dir == dir
        invariant fs.nodes == old(fs.nodes) - (victims - unread)
        invariant count == |victims - unread|
        decreases unread
      {
        var p :| p in unread;
        SweepVisit(old(fs.nodes), dir, maxlifetime, now, unread, p);
        if fs.IsRegularFile(p) && HasSessionPrefix(p.name) && fs.MTime(p) + maxlifetime <= now {
          SweepRemoves(old(fs.nodes), victims, unread, p);
          var _ := fs.Unlink(p);
          count := count + 1;
        } else {
          SweepKeeps(victims, unread, p);
        }
        unread := unread - {p};
      }
    }

    /** Draws ids until one names no existing entry; `draws` are the successive random_bytes(16) results. */
    method CreateSid(fs: FileSystem, draws: seq<Bytes16>) returns (id: string)
      requires exists k :: 0 <= k < |draws| && SessionFile(sessionSavePath, Bin2Hex(draws[k])) !in fs.nodes
      ensures |id| == 32 && forall i :: 0 <= i < |id| ==> IsLowerHexDigit(id[i])
      ensures SessionFile(sessionSavePath, id) !in fs.nodes
      ensures exists k :: 0 <= k < |draws| && id == Bin2Hex(draws[k])
                          && forall j :: 0 <= j < k ==> SessionFile(sessionSavePath, Bin2Hex(draws[j])) in fs.nodes
    {
      ghost var unused :| 0 <= unused < |draws| && SessionFile(sessionSavePath, Bin2Hex(draws[unused])) !in fs.nodes;
      var k := 0;
      id := Bin2Hex(draws[k]);
      while fs.Exists(SessionFile(sessionSavePath, id))
        invariant k <= unused
        invariant id == Bin2Hex(draws[k])
        invariant forall j :: 0 <= j < k ==> SessionFile(sessionSavePath, Bin2Hex(draws[j])) in fs.nodes
        decreases unused - k
      {
        k := k + 1;
        id := Bin2Hex(draws[k]);
      }
    }

    /** Collision check: true when id is hex and its entry exists. */
    method ValidateId(fs: FileSystem, id: string) returns (collides: bool)
      ensures collides <==> CtypeXdigit(id) && SessionFile(sessionSavePath, id) in fs.nodes
    {
      if !CtypeXdigit(id) {
        return false;
      }
      collides := fs.Exists(SessionFile(sessionSavePath, id));
    }

    /** Refreshes the entry's mtime while this handler holds the lock file, then removes the lock. */
    method UpdateTimestamp(fs: FileSystem, id: string, data: string, now: int) returns (ok: bool)
      modifies fs
      ensures var allowed := Owns(id) && LockFile(sessionSavePath, id) in old(fs.nodes);
        && ok == allowed
        && fs.nodes == if allowed
                       then Unlinked(Touched(old(fs.nodes), SessionFile(sessionSavePath, id), now), LockFile(sessionSavePath, id))
                       else old(fs.nodes)
    {
      if !CtypeXdigit(id) {
        return false;
      }
      if !Truthy(id) || sessionId != id {
        return false;
      }
      var entry := SessionFile(sessionSavePath, id);
      var lock := LockFile(sessionSavePath, id);
      if !fs.Exists(lock) {
        return false;
      }
      ok := fs.Touch(entry, now);
      var _ := fs.Unlink(lock);
    }
  }

  // Whole sessions, each on a fresh directory and fresh handlers.

  /** A value written under the lock is what the next read of that id returns. */
  method WriteThenRead(dir: string, id: string, data: string, initial: Nodes, t0: int, t1: int, t2: int)
    returns (written: bool, reread: ReadResult)
    requires CtypeXdigit(id) && Truthy(id)
    requires LockFile(dir, id) !in initial && !IsDir(initial, SessionFile(dir, id))
    ensures written && reread == Content(data)
  {
    LockFileIsNotSessionFile(dir, id, id);
    var fs := new FileSystem(initial);
    var h := new FilesSessionHandler();
    var _ := h.Open(dir, "PHPSESSID");
    var first;
    ghost var attempts;
    first, attempts := h.Read(fs, id, 30, t0);
    written := h.Write(fs, id, data, t1);
    var _ := h.Close(fs);
    reread, attempts := h.Read(fs, id, 30, t2);
  }

  /** While one handler holds the lock, a second handler's read of the same id fails;
      once the holder has written, the second handler reads what it wrote. */
  method SecondReaderWaits(dir: string, id: string, data: string, initial: Nodes, now: int)
    returns (first: ReadResult, second: ReadResult, afterWrite: ReadResult)
    requires CtypeXdigit(id) && Truthy(id)
    requires LockFile(dir, id) !in initial && !IsDir(initial, SessionFile(dir, id))
    ensures first.Content? && second == ReadFailed && afterWrite == Content(data)
  {
    LockFileIsNotSessionFile(dir, id, id);
    var fs := new FileSystem(initial);
    var holder := new FilesSessionHandler();
    var waiter := new FilesSessionHandler();
    var _ := holder.Open(dir, "PHPSESSID");
    var _ := waiter.Open(dir, "PHPSESSID");
    ghost var attempts;
    first, attempts := holder.Read(fs, id, 30, now);
    second, attempts := waiter.Read(fs, id, 30, now);
    var _ := holder.Write(fs, id, data, now);
    afterWrite, attempts := waiter.Read(fs, id, 30, now);
  }

  /** As declared, a read that times out on a held lock returns "", the value of an empty
      session; the corrected read reports the failure. */
  method TimedOutReadLooksEmpty(dir: string, id: string, initial: Nodes, now: int)
    returns (asDeclared: string, corrected: ReadResult)
    requires CtypeXdigit(id) && LockFile(dir, id) in initial
    ensures asDeclared == "" && corrected == ReadFailed
  {
    var fs := new FileSystem(initial);
    var h := new FilesSessionHandler();
    var _ := h.Open(dir, "PHPSESSID");
    asDeclared := h.ReadAsDeclared(fs, id, 30, now);
    var _ := h.Close(fs);
    fs := new FileSystem(initial);
    ghost var attempts;
    corrected, attempts := h.Read(fs, id, 30, now);
  }

  /** With max_execution_time unset (0) the root handler never tries the lock: as declared,
      every read of an unlocked, stored session returns "" and leaves no lock, so the
      session's data is never seen and write is refused. */
  method UnsetTimeLimitReadsEmpty(dir: string, id: string, data: string, initial: Nodes, now: int)
    returns (s: string, lockLeft: bool, written: bool)
    requires CtypeXdigit(id) && Truthy(id)
    requires LockFile(dir, id) !in initial && IsFile(initial, SessionFile(dir, id))
    requires initial[SessionFile(dir, id)].content == data
    ensures s == "" && !lockLeft && !written
  {
    var fs := new FileSystem(initial);
    var h := new FilesSessionHandler();
    var _ := h.Open(dir, "PHPSESSID");
    s := h.ReadAsDeclared(fs, id, 0, now);
    lockLeft := fs.Exists(LockFile(dir, id));
    written := h.Write(fs, id, data, now);
  }

  /** The consequence of the coerced timeout: the waiter goes on as if it had the session,
      its write passes every guard, and it unlinks the lock file the holder still relies on. */
  method WriteAfterTimeoutBreaksLock(dir: string, id: string, data: string, initial: Nodes, now: int)
    returns (waiterSaw: string, waiterWrote: bool, lockLeft: bool)
    requires CtypeXdigit(id) && Truthy(id)
    requires LockFile(dir, id) !in initial && !IsDir(initial, SessionFile(dir, id))
    ensures waiterSaw == "" && waiterWrote && !lockLeft
  {
    LockFileIsNotSessionFile(dir, id, id);
    var fs := new FileSystem(initial);
    var holder := new FilesSessionHandler();
    var waiter := new FilesSessionHandler();
    var _ := holder.Open(dir, "PHPSESSID");
    var _ := waiter.Open(dir, "PHPSESSID");
    var held;
    ghost var attempts;
    held, attempts := holder.Read(fs, id, 30, now);
    waiterSaw := waiter.ReadAsDeclared(fs, id, 30, now);
    waiterWrote := waiter.Write(fs, id, data, now);
    lockLeft := fs.Exists(LockFile(dir, id));
  }

  /** Strict mode: a never-used id reads as an empty session and its entry then exists. */
  method FreshIdReadsEmpty(dir: string, id: string, initial: Nodes, now: int)
    returns (r: ReadResult, collides: bool)
    requires CtypeXdigit(id)
    requires SessionFile(dir, id) !in initial && LockFile(dir, id) !in initial
    ensures r == Content("") && collides
  {
    var fs := new FileSystem(initial);
    var h := new FilesSessionHandler();
    var _ := h.Open(dir, "PHPSESSID");
    ghost var attempts;
    r, attempts := h.Read(fs, id, 30, now);
    collides := h.ValidateId(fs, id);
  }

  /** destroy succeeds once and removes the entry; the immediate repeat fails because the id is unbound. */
  method DestroyTwice(dir: string, id: string, initial: Nodes, now: int)
    returns (first: bool, second: bool, collides: bool)
    requires CtypeXdigit(id) && Truthy(id)
    requires LockFile(dir, id) !in initial && !IsDir(initial, SessionFile(dir, id))
    ensures first && !second && !collides
  {
    LockFileIsNotSessionFile(dir, id, id);
    var fs := new FileSystem(initial);
    var h := new FilesSessionHandler();
    var _ := h.Open(dir, "PHPSESSID");
    var r;
    ghost var attempts;
    r, attempts := h.Read(fs, id, 30, now);
    first := h.Destroy(fs, id);
    second := h.Destroy(fs, id);
    collides := h.ValidateId(fs, id);
  }

  /** An id from create_sid passes the hex guard and does not collide. */
  method NewIdDoesNotCollide(dir: string, initial: Nodes, draws: seq<Bytes16>)
    returns (id: string, collides: bool)
    requires exists k :: 0 <= k < |draws| && SessionFile(dir, Bin2Hex(draws[k])) !in initial
    ensures CtypeXdigit(id) && !collides
  {
    var fs := new FileSystem(initial);
    var h := new FilesSessionHandler();
    var _ := h.Open(dir, "PHPSESSID");
    id := h.CreateSid(fs, draws);
    collides := h.ValidateId(fs, id);
  }

  /** Entries aged 10, 50 and 120 seconds, maxlifetime 60: only the oldest goes. */
  method GcSweepsOnlyStale(dir: string, now: int) returns (count: nat, left: set<Path>)
    ensures count == 1 && left == {SessionFile(dir, "a"), SessionFile(dir, "b")}
  {
    var a, b, c := SessionFile(dir, "a"), SessionFile(dir, "b"), SessionFile(dir, "c");
    var initial := map[a := File("x", now - 10), b := File("y", now - 50), c := File("z", now - 120)];
    assert Expired(initial, dir, 60, now) == {c};
    var fs := new FileSystem(initial);
    var h := new FilesSessionHandler();
    var _ := h.Open(dir, "PHPSESSID");
    count := h.Gc(fs, 60, now);
    left := fs.nodes.Keys;
  }

  /** While one truthy id is bound, a read of another id is refused with "" and changes nothing;
      the first session can still be written. */
  method SecondIdRefused(dir: string, a: string, b: string, data: string, initial: Nodes, now: int)
    returns (other: ReadResult, written: bool)
    requires CtypeXdigit(a) && Truthy(a) && CtypeXdigit(b) && a != b
    requires LockFile(dir, a) !in initial && !IsDir(initial, SessionFile(dir, a))
    ensures other == Content("") && written
  {
    LockFileIsNotSessionFile(dir, a, a);
    var fs := new FileSystem(initial);
    var h := new FilesSessionHandler();
    var _ := h.Open(dir, "PHPSESSID");
    var r;
    ghost var attempts;
    r, attempts := h.Read(fs, a, 30, now);
    other, attempts := h.Read(fs, b, 30, now);
    written := h.Write(fs, a, data, now);
  }
}
