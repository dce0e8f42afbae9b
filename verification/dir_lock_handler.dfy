/** FilesSessionHandler in src/: session data in "sess_<id>" files, the lock a
    directory "sess_<id>.lock" made with mkdir, polled every 20 ms. */
module DirLockHandler {
  import opened PhpValues
  import opened FileSystemModel

  /** How often read() tries mkdir(lock): once every 20 ms for the effective limit. */
  function LockAttempts(maxExecutionTime: int): nat {
    PollCount(EffectiveMaxTime(maxExecutionTime), 50)
  }

  /** A zero (unset) limit still allows 1500 attempts; only a negative one allows none. */
  lemma LockAttemptsDefault(maxExecutionTime: int)
    ensures maxExecutionTime == 0 ==> LockAttempts(maxExecutionTime) == 1500
    ensures LockAttempts(maxExecutionTime) == 0 <==> maxExecutionTime < 0
  {
  }

  /** A lock is a directory, which gc never removes, however old. */
  lemma HeldLockSurvivesGc(nodes: Nodes, dir: string, id: string, maxlifetime: int, now: int)
    requires IsDir(nodes, LockFile(dir, id))
    ensures LockFile(dir, id) in nodes - Expired(nodes, dir, maxlifetime, now)
  {
  }

  class FilesSessionHandler {
    var sessionSavePath: string
    var sessionId: string

    constructor ()
      ensures sessionSavePath == "" && sessionId == ""
    {
      sessionSavePath := "";
      sessionId := "";
    }

    /** The guard of write, destroy and updateTimestamp: a hex, truthy id equal to the bound one. */
    predicate Owns(id: string)
      reads this
    {
      CtypeXdigit(id) && Truthy(id) && sessionId == id
    }

    method Open(savePath: string, sessionName: string) returns (ok: bool)
      modifies this
      ensures ok
      ensures sessionSavePath == savePath && sessionId == old(sessionId)
    {
      sessionSavePath := savePath;
      ok := true;
    }

    /** Removes a lock directory left behind for the bound id and unbinds it. */
    method Close(fs: FileSystem) returns (ok: bool)
      modifies this, fs
      ensures ok
      ensures sessionId == "" && sessionSavePath == old(sessionSavePath)
      ensures fs.nodes == RemovedDir(old(fs.nodes), LockFile(sessionSavePath, old(sessionId)))
    {
      var lock := LockFile(sessionSavePath, sessionId);
      if fs.Exists(lock) {
        var _ := fs.Rmdir(lock);
      }
      sessionId := "";
      ok := true;
    }

    /** Binds id (replacing whatever was bound), polls mkdir for the lock, then touches
        the entry and returns its content. `attempts` counts the mkdir calls made. */
    method Read(fs: FileSystem, id: string, maxExecutionTime: int, now: int) returns (r: ReadResult, ghost attempts: nat)
      modifies this, fs
      ensures sessionSavePath == old(sessionSavePath)
      ensures attempts <= LockAttempts(maxExecutionTime)
      ensures !CtypeXdigit(id) ==>
        r == Content("") && sessionId == old(sessionId) && fs.nodes == old(fs.nodes) && attempts == 0
      ensures CtypeXdigit(id) ==> sessionId == id
      ensures CtypeXdigit(id)
              && (LockAttempts(maxExecutionTime) == 0 || LockFile(sessionSavePath, id) in old(fs.nodes)) ==>
        r == ReadFailed && fs.nodes == old(fs.nodes) && attempts == LockAttempts(maxExecutionTime)
      ensures CtypeXdigit(id)
              && LockAttempts(maxExecutionTime) > 0 && LockFile(sessionSavePath, id) !in old(fs.nodes) ==>
        && attempts == 1
        && r == Content(ContentsAsString(old(fs.nodes), SessionFile(sessionSavePath, id)))
        && fs.nodes == Touched(old(fs.nodes)[LockFile(sessionSavePath, id) := Dir(now)], SessionFile(sessionSavePath, id), now)
        && IsDir(fs.nodes, LockFile(sessionSavePath, id)) && SessionFile(sessionSavePath, id) in fs.nodes
    {
      attempts := 0;
      if !CtypeXdigit(id) {
        return Content(""), attempts;
      }
      sessionId := id;
      var entry := SessionFile(sessionSavePath, id);
      var lock := LockFile(sessionSavePath, id);
      LockFileIsNotSessionFile(sessionSavePath, id, id);
      var handle := false;
      for i := 0 to LockAttempts(maxExecutionTime)
        invariant !handle && attempts == i
        invariant sessionId == id && sessionSavePath == old(sessionSavePath)
        invariant fs.nodes == old(fs.nodes)
        invariant i > 0 ==> lock in fs.nodes
      {
        handle := fs.Mkdir(lock, now);
        attempts := attempts + 1;
        if handle {
          break;
        }
        // usleep(20 ms): no other process is modelled, so the next attempt sees the same directory
      }
      if !handle {
        return ReadFailed, attempts;
      }
      var _ := fs.Touch(entry, now);
      r := Content(fs.GetContents(entry));
    }

    /** read() as it is declared, `: string`: outside strict_types PHP turns its
        `return false` into "", so a lock timeout reaches the caller as an empty session. */
    method ReadAsDeclared(fs: FileSystem, id: string, maxExecutionTime: int, now: int) returns (s: string)
      modifies this, fs
      ensures sessionSavePath == old(sessionSavePath)
      ensures !CtypeXdigit(id) ==>
        s == "" && sessionId == old(sessionId) && fs.nodes == old(fs.nodes)
      ensures CtypeXdigit(id) ==> sessionId == id
      ensures CtypeXdigit(id)
              && (LockAttempts(maxExecutionTime) == 0 || LockFile(sessionSavePath, id) in old(fs.nodes)) ==>
        s == "" && fs.nodes == old(fs.nodes)
      ensures CtypeXdigit(id)
              && LockAttempts(maxExecutionTime) > 0 && LockFile(sessionSavePath, id) !in old(fs.nodes) ==>
        && s == ContentsAsString(old(fs.nodes), SessionFile(sessionSavePath, id))
        && fs.nodes == Touched(old(fs.nodes)[LockFile(sessionSavePath, id) := Dir(now)], SessionFile(sessionSavePath, id), now)
        && IsDir(fs.nodes, LockFile(sessionSavePath, id)) && SessionFile(sessionSavePath, id) in fs.nodes
    {
      var r;
      ghost var attempts;
      r, attempts := Read(fs, id, maxExecutionTime, now);
      s := CoerceToString(r);
    }

    /** Stores data for the bound id and removes the lock directory, without checking
        that this handler holds it; returns whether the store succeeded. */
    method Write(fs: FileSystem, id: string, data: string, now: int) returns (ok: bool)
      modifies fs
      ensures ok == (Owns(id) && !IsDir(old(fs.nodes), SessionFile(sessionSavePath, id)))
      ensures fs.nodes == if Owns(id)
                          then RemovedDir(Written(old(fs.nodes), SessionFile(sessionSavePath, id), data, now), LockFile(sessionSavePath, id))
                          else old(fs.nodes)
    {
      if !CtypeXdigit(id) {
        return false;
      }
      if !Truthy(id) || sessionId != id {
        return false;
      }
      var entry := SessionFile(sessionSavePath, id);
      var lock := LockFile(sessionSavePath, id);
      var written := fs.PutContents(entry, data, now);
      var _ := fs.Rmdir(lock);
      ok := written;
    }

    /** Unbinds the id, unlinks the entry and removes the lock directory when each exists. */
    method Destroy(fs: FileSystem, id: string) returns (ok: bool)
      modifies this, fs
      ensures sessionSavePath == old(sessionSavePath)
      ensures ok == old(Owns(id))
      ensures ok ==> sessionId == "" && !Owns(id)
                     && fs.nodes == RemovedDir(Unlinked(old(fs.nodes), SessionFile(sessionSavePath, id)), LockFile(sessionSavePath, id))
      ensures !ok ==> sessionId == old(sessionId) && fs.nodes == old(fs.nodes)
    {
      if !CtypeXdigit(id) {
        return false;
      }
      if !Truthy(id) || sessionId != id {
        return false;
      }
      sessionId := "";
      var entry := SessionFile(sessionSavePath, id);
      var lock := LockFile(sessionSavePath, id);
      if fs.Exists(entry) {
        var _ := fs.Unlink(entry);
      }
      if fs.Exists(lock) {
        var _ := fs.Rmdir(lock);
      }
      ok := true;
    }

    /** Scans the save directory and unlinks every expired sess_* regular file, counting them. */
    method Gc(fs: FileSystem, maxlifetime: int, now: int) returns (count: nat)
      modifies fs
      ensures fs.nodes == old(fs.nodes) - Expired(old(fs.nodes), sessionSavePath, maxlifetime, now)
      ensures count == |Expired(old(fs.nodes), sessionSavePath, maxlifetime, now)|
    {
      var dir := sessionSavePath;
      ghost var victims := Expired(fs.nodes, dir, maxlifetime, now);
      var unread := fs.Listing(dir);
      ListingCoversExpired(fs.nodes, dir, maxlifetime, now, unread);
      count := 0;
      while unread != {}
        invariant forall p :: p in unread ==> p in old(fs.nodes) && p.dir == dir
        invariant fs.nodes == old(fs.nodes) - (victims - unread)
        invariant count == |victims - unread|
        decreases unread
      {
        var p :| p in unread;
        SweepVisit(old(fs.nodes), dir, maxlifetime, now, unread, p);
        if fs.IsRegularFile(p) && HasSessionPrefix(p.name) && fs.MTime(p) + maxlifetime <= now {
          SweepRemoves(old(fs.nodes), victims, unread, p);
          var _ := fs.Unlink(p);
          count := count + 1;
        } else {
          SweepKeeps(victims, unread, p);
        }
        unread := unread - {p};
      }
    }

    /** Draws ids until one names no existing entry; `draws` are the successive random_bytes(16) results. */
    method CreateSid(fs: FileSystem, draws: seq<Bytes16>) returns (id: string)
      requires exists k :: 0 <= k < |draws| && SessionFile(sessionSavePath, Bin2Hex(draws[k])) !in fs.nodes
      ensures |id| == 32 && forall i :: 0 <= i < |id| ==> IsLowerHexDigit(id[i])
      ensures SessionFile(sessionSavePath, id) !in fs.nodes
      ensures exists k :: 0 <= k < |draws| && id == Bin2Hex(draws[k])
                          && forall j :: 0 <= j < k ==> SessionFile(sessionSavePath, Bin2Hex(draws[j])) in fs.nodes
    {
      ghost var unused :| 0 <= unused < |draws| && SessionFile(sessionSavePath, Bin2Hex(draws[unused])) !in fs.nodes;
      var k := 0;
      id := Bin2Hex(draws[k]);
      while fs.Exists(SessionFile(sessionSavePath, id))
        invariant k <= unused
        invariant id == Bin2Hex(draws[k])
        invariant forall j :: 0 <= j < k ==> SessionFile(sessionSavePath, Bin2Hex(draws[j])) in fs.nodes
        decreases unused - k
      {
        k := k + 1;
        id := Bin2Hex(draws[k]);
      }
    }

    /** Collision check: true when id is hex and its entry exists. */
    method ValidateId(fs: FileSystem, id: string) returns (collides: bool)
      ensures collides <==> CtypeXdigit(id) && SessionFile(sessionSavePath, id) in fs.nodes
    {
      if !CtypeXdigit(id) {
        return false;
      }
      collides := fs.Exists(SessionFile(sessionSavePath, id));
    }

    /** Refreshes the entry's mtime while the lock directory exists, then removes the lock. */
    method UpdateTimestamp(fs: FileSystem, id: string, data: string, now: int) returns (ok: bool)
      modifies fs
      ensures var allowed := Owns(id) && LockFile(sessionSavePath, id) in old(fs.nodes);
        && ok == allowed
        && fs.nodes == if allowed
                       then RemovedDir(Touched(old(fs.nodes), SessionFile(sessionSavePath, id), now), LockFile(sessionSavePath, id))
                       else old(fs.nodes)
    {
      if !CtypeXdigit(id) {
        return false;
      }
      if !Truthy(id) || sessionId != id {
        return false;
      }
      var entry := SessionFile(sessionSavePath, id);
      var lock := LockFile(sessionSavePath, id);
      if !fs.Exists(lock) {
        return false;
      }
      ok := fs.Touch(entry, now);
      var _ := fs.Rmdir(lock);
    }
  }

  // Whole sessions, each on a fresh directory and fresh handlers.

  /** A value written under the lock is what the next read of that id returns. */
  method WriteThenRead(dir: string, id: string, data: string, initial: Nodes, t0: int, t1: int, t2: int)
    returns (written: bool, reread: ReadResult)
    requires CtypeXdigit(id) && Truthy(id)
    requires LockFile(dir, id) !in initial && !IsDir(initial, SessionFile(dir, id))
    ensures written && reread == Content(data)
  {
    LockFileIsNotSessionFile(dir, id, id);
    var fs := new FileSystem(initial);
    var h := new FilesSessionHandler();
    var _ := h.Open(dir, "PHPSESSID");
    var first;
    ghost var attempts;
    first, attempts := h.Read(fs, id, 0, t0);
    written := h.Write(fs, id, data, t1);
    var _ := h.Close(fs);
    reread, attempts := h.Read(fs, id, 0, t2);
  }

  /** While one handler holds the lock, a second handler's read of the same id fails;
      once the holder has written, the second handler reads what it wrote. */
  method SecondReaderWaits(dir: string, id: string, data: string, initial: Nodes, now: int)
    returns (first: ReadResult, second: ReadResult, afterWrite: ReadResult)
    requires CtypeXdigit(id) && Truthy(id)
    requires LockFile(dir, id) !in initial && !IsDir(initial, SessionFile(dir, id))
    ensures first.Content? && second == ReadFailed && afterWrite == Content(data)
  {
    LockFileIsNotSessionFile(dir, id, id);
    var fs := new FileSystem(initial);
    var holder := new FilesSessionHandler();
    var waiter := new FilesSessionHandler();
    var _ := holder.Open(dir, "PHPSESSID");
    var _ := waiter.Open(dir, "PHPSESSID");
    ghost var attempts;
    first, attempts := holder.Read(fs, id, 0, now);
    second, attempts := waiter.Read(fs, id, 0, now);
    var _ := holder.Write(fs, id, data, now);
    afterWrite, attempts := waiter.Read(fs, id, 0, now);
  }

  /** As declared, a read that times out on a held lock returns "", the value of an empty
      session; the corrected read reports the failure. */
  method TimedOutReadLooksEmpty(dir: string, id: string, initial: Nodes, now: int)
    returns (asDeclared: string, corrected: ReadResult)
    requires CtypeXdigit(id) && LockFile(dir, id) in initial
    ensures asDeclared == "" && corrected == ReadFailed
  {
    var fs := new FileSystem(initial);
    var h := new FilesSessionHandler();
    var _ := h.Open(dir, "PHPSESSID");
    asDeclared := h.ReadAsDeclared(fs, id, 0, now);
    fs := new FileSystem(initial);
    ghost var attempts;
    corrected, attempts := h.Read(fs, id, 0, now);
  }

  /** The consequence of the coerced timeout: the waiter goes on as if it had the session,
      its write (which checks no lock) succeeds and removes the holder's lock directory. */
  method WriteAfterTimeoutBreaksLock(dir: string, id: string, data: string, initial: Nodes, now: int)
    returns (waiterSaw: string, waiterWrote: bool, lockLeft: bool)
    requires CtypeXdigit(id) && Truthy(id)
    requires LockFile(dir, id) !in initial && !IsDir(initial, SessionFile(dir, id))
    ensures waiterSaw == "" && waiterWrote && !lockLeft
  {
    LockFileIsNotSessionFile(dir, id, id);
    var fs := new FileSystem(initial);
    var holder := new FilesSessionHandler();
    var waiter := new FilesSessionHandler();
    var _ := holder.Open(dir, "PHPSESSID");
    var _ := waiter.Open(dir, "PHPSESSID");
    var held;
    ghost var attempts;
    held, attempts := holder.Read(fs, id, 0, now);
    waiterSaw := waiter.ReadAsDeclared(fs, id, 0, now);
    waiterWrote := waiter.Write(fs, id, data, now);
    lockLeft := fs.Exists(LockFile(dir, id));
  }

  /** read() rebinds without a check: reading a second id leaves the first id's lock
      directory behind, and close() removes only the second one. */
  method RebindLeaksFirstLock(dir: string, a: string, b: string, initial: Nodes, now: int)
    returns (second: ReadResult, firstLockLeft: bool, secondLockLeft: bool)
    requires CtypeXdigit(a) && CtypeXdigit(b) && a != b
    requires LockFile(dir, a) !in initial && LockFile(dir, b) !in initial
    ensures second.Content? && firstLockLeft && !secondLockLeft
  {
    LockFileIsNotSessionFile(dir, a, a);
    LockFileIsNotSessionFile(dir, b, b);
    LockFileIsNotSessionFile(dir, a, b);
    LockFileIsNotSessionFile(dir, b, a);
    if LockFile(dir, a) == LockFile(dir, b) {
      LockFileInjective(dir, a, b);
    }
    var fs := new FileSystem(initial);
    var h := new FilesSessionHandler();
    var _ := h.Open(dir, "PHPSESSID");
    var first;
    ghost var attempts;
    first, attempts := h.Read(fs, a, 0, now);
    second, attempts := h.Read(fs, b, 0, now);
    var _ := h.Close(fs);
    firstLockLeft := fs.Exists(LockFile(dir, a));
    secondLockLeft := fs.Exists(LockFile(dir, b));
  }

  /** Strict mode: a never-used id reads as an empty session and its entry then exists. */
  method FreshIdReadsEmpty(dir: string, id: string, initial: Nodes, now: int)
    returns (r: ReadResult, collides: bool)
    requires CtypeXdigit(id)
    requires SessionFile(dir, id) !in initial && LockFile(dir, id) !in initial
    ensures r == Content("") && collides
  {
    var fs := new FileSystem(initial);
    var h := new FilesSessionHandler();
    var _ := h.Open(dir, "PHPSESSID");
    ghost var attempts;
    r, attempts := h.Read(fs, id, 0, now);
    collides := h.ValidateId(fs, id);
  }

  /** destroy succeeds once and removes the entry; the immediate repeat fails because the id is unbound. */
  method DestroyTwice(dir: string, id: string, initial: Nodes, now: int)
    returns (first: bool, second: bool, collides: bool)
    requires CtypeXdigit(id) && Truthy(id)
    requires LockFile(dir, id) !in initial && !IsDir(initial, SessionFile(dir, id))
    ensures first && !second && !collides
  {
    LockFileIsNotSessionFile(dir, id, id);
    var fs := new FileSystem(initial);
    var h := new FilesSessionHandler();
    var _ := h.Open(dir, "PHPSESSID");
    var r;
    ghost var attempts;
    r, attempts := h.Read(fs, id, 0, now);
    first := h.Destroy(fs, id);
    second := h.Destroy(fs, id);
    collides := h.ValidateId(fs, id);
  }

  /** An id from create_sid passes the hex guard and does not collide. */
  method NewIdDoesNotCollide(dir: string, initial: Nodes, draws: seq<Bytes16>)
    returns (id: string, collides: bool)
    requires exists k :: 0 <= k < |draws| && SessionFile(dir, Bin2Hex(draws[k])) !in initial
    ensures CtypeXdigit(id) && !collides
  {
    var fs := new FileSystem(initial);
    var h := new FilesSessionHandler();
    var _ := h.Open(dir, "PHPSESSID");
    id := h.CreateSid(fs, draws);
    collides := h.ValidateId(fs, id);
  }

  /** A stale entry and an equally stale lock directory: gc removes the entry only. */
  method GcKeepsLockDirectory(dir: string, id: string, now: int) returns (count: nat, left: set<Path>)
    requires CtypeXdigit(id)
    ensures count == 1 && left == {LockFile(dir, id)}
  {
    LockFileIsNotSessionFile(dir, id, id);
    var entry, lock := SessionFile(dir, id), LockFile(dir, id);
    var initial := map[entry := File("x", now - 120), lock := Dir(now - 120)];
    assert Expired(initial, dir, 60, now) == {entry};
    var fs := new FileSystem(initial);
    var h := new FilesSessionHandler();
    var _ := h.Open(dir, "PHPSESSID");
    count := h.Gc(fs, 60, now);
    left := fs.nodes.Keys;
  }
}
