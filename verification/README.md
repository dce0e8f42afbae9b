# Session save handlers of mintyphp/session-handlers, modelled in Dafny

PHP calls a session save handler through a fixed protocol:

- `open` binds the storage location.
- `read` takes an exclusive lock on the session and returns its data.
- `write` or `updateTimestamp` stores the data or refreshes its age, then releases the lock.
- `close` releases any lock that is left.
- `destroy` removes a session.
- `gc` evicts old sessions.
- `create_sid` and `validateId` generate session ids and check them for collisions.

This project models the three handlers of the repository. Each one is an imperative Dafny class whose fields are the PHP object's fields. The store it works on is a second class:

| handler | Dafny module | session entry | lock | poll rate |
|---|---|---|---|---|
| `FilesSessionHandler.php` | `FileLockHandler` | file `sess_<id>` | regular file `sess_<id>.lock`, created with `fopen(…, 'x')` | 10 per second |
| `src/FilesSessionHandler.php` | `DirLockHandler` | file `sess_<id>` | directory `sess_<id>.lock`, created with `mkdir` | 50 per second |
| `src/MemcachedSessionHandler.php` | `MemcachedHandler` | key `sess-<name>-<id>` | key `sess-<name>-<id>-lock`, created with `add` | 50 per second |

The supporting modules are these:

- `PhpValues` holds the PHP value rules the handlers rely on:
  - `ctype_xdigit`, the hex-id check;
  - string truthiness (`""` and `"0"` are false);
  - `?: 30`, the default lock time;
  - `bin2hex` of `random_bytes(16)`, proved injective;
  - the `string|false` result of `read` (`ReadResult`).
- `FileSystemModel` models one directory tree:
  - a map from `(dir, name)` to a regular file (content, mtime) or a directory (mtime);
  - the PHP primitives the file handlers call (`fopen 'x'`, `mkdir`, `touch`, `file_put_contents`, `unlink`, `rmdir`, `readdir`);
  - `Expired`, the set of files `gc` must remove.
- `MemcachedStore` models the memcached server as a map from key to (value, expiration), with `add`, `set`, `touch`, `delete` and `get`.

Every handler method is proved against that state. Its `ensures` gives:

- the exact new store, as a function of the old store;
- the new values of the handler's fields;
- the return value, including each guard's early return.

The polling loops are `for` loops. The `gc` directory scan is a `while` loop over the entries still unread. Each `create_sid` is a `while` loop over candidate draws.

Scenario methods at the end of each handler module drive whole sessions through fresh handlers and a fresh store. They prove these properties:

- write-then-read returns the data;
- a second reader times out while the lock is held;
- a fresh id is materialised, or not;
- a repeated `destroy` returns false;
- new ids do not collide;
- `gc` spares or removes exactly what it should.

The root handler has no default for `max_execution_time`. With the setting at 0 (PHP's command-line default), `read` makes no lock attempt and always fails. `FileLockHandler.LockAttemptsBound` states this, the `Read` contract covers it, and `FileLockHandler.UnsetTimeLimitReadsEmpty` shows the effect on a stored session.

## Model

| member | source | states |
|---|---|---|
| `PhpValues.Bin2Hex` | FilesSessionHandler.php:187 | bin2hex yields two characters per byte, all lower-case hex digits |
| `PhpValues.Bin2HexIsSessionId` | src/FilesSessionHandler.php:181 | an id drawn from 16 random bytes has 32 characters, passes ctype_xdigit and is truthy |
| `PhpValues.Bin2HexInjective` | src/MemcachedSessionHandler.php:158 | two draws that give the same id were the same 16 bytes |
| `PhpValues.NibbleChar` | src/MemcachedSessionHandler.php:158 | each nibble becomes a lower-case hex digit |
| `PhpValues.NibbleCharInjective` | src/MemcachedSessionHandler.php:158 | different nibbles give different digits |
| `PhpValues.TimeoutCoercesToEmpty` | FilesSessionHandler.php:64-93 | once false is coerced to the declared string type, a lock timeout cannot be told apart from an empty session, though the two results differ |
| `FileSystemModel.Touched` | FilesSessionHandler.php:96 | touch creates a missing file empty, or only moves an existing node's mtime; content, kind and every other node are kept |
| `FileSystemModel.Written` | FilesSessionHandler.php:122 | file_put_contents makes the name a regular file holding exactly the data, and changes nothing when the name is a directory |
| `FileSystemModel.Unlinked` | FilesSessionHandler.php:123 | unlink removes the name only when it is a regular file; every other node is kept |
| `FileSystemModel.RemovedDir` | src/FilesSessionHandler.php:114 | rmdir removes the name only when it is a directory; every other node is kept |
| `FileSystemModel.LockFileIsNotSessionFile` | FilesSessionHandler.php:77-78 | for a hex id, the lock marker of any id never names a session file |
| `FileSystemModel.LockFileInjective` | src/FilesSessionHandler.php:74 | different ids have different lock markers |
| `FileSystemModel.ExpiredSpares` | FilesSessionHandler.php:158-165 | gc keeps every directory, every file outside the save path, every name without the sess_ prefix and every file younger than maxlifetime, unchanged |
| `FileSystemModel.SweepKeeps` | FilesSessionHandler.php:158-160 | a scan step over a name that is kept leaves the removed set as it was |
| `FileSystemModel.SweepRemoves` | FilesSessionHandler.php:161-163 | a scan step that unlinks an expired file removes one more name and counts one more |
| `FileSystemModel.FileSystem.CreateExclusive` | FilesSessionHandler.php:84 | fopen 'x' succeeds exactly when the name is absent, and then leaves an empty regular file |
| `FileSystemModel.FileSystem.Mkdir` | src/FilesSessionHandler.php:80 | mkdir succeeds exactly when the name is absent, and then leaves a directory |
| `FileSystemModel.FileSystem.Touch` | src/FilesSessionHandler.php:91 | the tree becomes Touched of the old one; touch never fails in the model |
| `FileSystemModel.FileSystem.PutContents` | src/FilesSessionHandler.php:113 | file_put_contents fails exactly on a directory, and the tree becomes Written of the old one |
| `FileSystemModel.FileSystem.Unlink` | FilesSessionHandler.php:141-142 | unlink succeeds exactly on a regular file, and the tree becomes Unlinked of the old one |
| `FileSystemModel.FileSystem.Rmdir` | src/FilesSessionHandler.php:134-135 | rmdir succeeds exactly on a directory, and the tree becomes RemovedDir of the old one |
| `FileLockHandler.LockAttemptsBound` | FilesSessionHandler.php:82-83 | read makes 10 lock attempts per second of max_execution_time, and none when the setting is 0 or negative |
| `FileLockHandler.StaleLockFileIsCollected` | FilesSessionHandler.php:158-163 | a lock file is a sess_ regular file, so gc removes a stale one like an entry |
| `FileLockHandler.FilesSessionHandler.constructor` | FilesSessionHandler.php:11-12 | a new handler has an empty save path and no bound id |
| `FileLockHandler.FilesSessionHandler.Open` | FilesSessionHandler.php:31-39 | open binds the save path, leaves the id alone and returns true |
| `FileLockHandler.FilesSessionHandler.Close` | FilesSessionHandler.php:42-61 | close unlinks the bound id's lock file if it is a file, unbinds the id and returns true |
| `FileLockHandler.FilesSessionHandler.Read` | FilesSessionHandler.php:64-102 | read changes nothing for a non-hex id or while another truthy id is bound. Otherwise it binds the id. If all lock attempts fail, it returns false after exactly LockAttempts tries, with the tree unchanged. On success, the lock file and the entry exist, the entry is touched, and the result is the entry's old content ("" when missing) |
| `FileLockHandler.FilesSessionHandler.ReadAsDeclared` | FilesSessionHandler.php:64-102 | read as PHP runs it under the `: string` declaration. A non-hex id, or another truthy id already bound, gives "" with nothing changed. A timeout, including the zero-attempt case of a max_execution_time of 0, also gives "" with the tree unchanged. On success the lock file is created, the entry is touched, and the result is the entry's old content |
| `FileLockHandler.FilesSessionHandler.Write` | FilesSessionHandler.php:105-126 | write proceeds only for the bound hex truthy id with an existing lock file: it stores the data (failing only on a directory entry) and unlinks the lock, and returns whether the store succeeded; a refused call returns false and changes nothing |
| `FileLockHandler.FilesSessionHandler.Destroy` | FilesSessionHandler.php:129-148 | destroy with the bound, hex, truthy id unbinds it, unlinks entry and lock and returns true; otherwise it returns false and changes nothing |
| `FileLockHandler.FilesSessionHandler.Gc` | FilesSessionHandler.php:151-173 | gc removes exactly the Expired set and returns its size |
| `FileLockHandler.FilesSessionHandler.CreateSid` | FilesSessionHandler.php:176-195 | create_sid returns the first drawn id with no entry in the save path: 32 lower-case hex characters, with every earlier draw colliding |
| `FileLockHandler.FilesSessionHandler.ValidateId` | FilesSessionHandler.php:198-215 | validateId is true exactly when the id is hex and its entry exists |
| `FileLockHandler.FilesSessionHandler.UpdateTimestamp` | FilesSessionHandler.php:218-240 | with the bound hex truthy id and an existing lock file, it touches the entry (content kept) and unlinks the lock; otherwise it returns false and changes nothing |
| `FileLockHandler.WriteThenRead` | FilesSessionHandler.php:64-126 | data written under the lock is what the next read returns |
| `FileLockHandler.SecondReaderWaits` | FilesSessionHandler.php:83-93 | a second handler's read times out while the first holds the lock, and reads the written data once the first has written |
| `FileLockHandler.TimedOutReadLooksEmpty` | FilesSessionHandler.php:91-92 | a read blocked by a held lock returns "" as declared, where the corrected read returns false |
| `FileLockHandler.UnsetTimeLimitReadsEmpty` | FilesSessionHandler.php:82-93 | with max_execution_time 0, read as declared returns "" for a stored session, takes no lock, and the following write is refused |
| `FileLockHandler.WriteAfterTimeoutBreaksLock` | FilesSessionHandler.php:105-126 | a waiter whose timeout was coerced to "" can still write, and that write unlinks the holder's lock |
| `FileLockHandler.FreshIdReadsEmpty` | FilesSessionHandler.php:95-101 | reading a never-used id returns "" and creates its entry, so validateId then reports it |
| `FileLockHandler.DestroyTwice` | FilesSessionHandler.php:129-148 | destroy succeeds once; the repeat fails because the id is unbound |
| `FileLockHandler.NewIdDoesNotCollide` | FilesSessionHandler.php:176-215 | an id from create_sid passes ctype_xdigit and validateId reports no collision |
| `FileLockHandler.GcSweepsOnlyStale` | FilesSessionHandler.php:151-173 | with entries aged 10, 50 and 120 s and maxlifetime 60 s, gc removes only the oldest and returns 1 |
| `FileLockHandler.SecondIdRefused` | FilesSessionHandler.php:66-67 | while one id is bound, reading another returns "" and the first session can still be written |
| `DirLockHandler.LockAttemptsDefault` | src/FilesSessionHandler.php:78-79 | read makes 50 attempts per second, 1500 when max_execution_time is 0, and none only for a negative setting |
| `DirLockHandler.HeldLockSurvivesGc` | src/FilesSessionHandler.php:154 | a lock directory is never in the set gc removes |
| `DirLockHandler.FilesSessionHandler.constructor` | src/FilesSessionHandler.php:11-12 | a new handler has an empty save path and no bound id |
| `DirLockHandler.FilesSessionHandler.Open` | src/FilesSessionHandler.php:31-38 | open binds the save path and returns true |
| `DirLockHandler.FilesSessionHandler.Close` | src/FilesSessionHandler.php:41-56 | close removes the bound id's lock directory if it is one, unbinds the id and returns true |
| `DirLockHandler.FilesSessionHandler.Read` | src/FilesSessionHandler.php:59-97 | read changes nothing for a non-hex id. Otherwise it rebinds without checking, and either times out after exactly LockAttempts mkdir calls with the tree unchanged, or leaves the lock directory and a touched entry and returns the entry's old content |
| `DirLockHandler.FilesSessionHandler.ReadAsDeclared` | src/FilesSessionHandler.php:59-97 | read as PHP runs it under the `: string` declaration. A non-hex id gives "" with nothing changed. A timeout also gives "" with the tree unchanged. On success the lock directory is created, the entry is touched, and the result is the entry's old content |
| `DirLockHandler.FilesSessionHandler.Write` | src/FilesSessionHandler.php:100-117 | write proceeds for the bound hex truthy id without looking at the lock: it stores the data (failing only on a directory entry), removes the lock directory and returns whether the store succeeded; a refused id returns false and changes nothing |
| `DirLockHandler.FilesSessionHandler.Destroy` | src/FilesSessionHandler.php:120-142 | destroy with the bound id unbinds it, unlinks the entry file and removes the lock directory, and returns true; otherwise it returns false and changes nothing |
| `DirLockHandler.FilesSessionHandler.Gc` | src/FilesSessionHandler.php:145-167 | gc removes exactly the Expired set and returns its size |
| `DirLockHandler.FilesSessionHandler.CreateSid` | src/FilesSessionHandler.php:170-188 | create_sid returns the first drawn id with no entry, 32 lower-case hex characters |
| `DirLockHandler.FilesSessionHandler.ValidateId` | src/FilesSessionHandler.php:191-207 | validateId is true exactly when the id is hex and its entry exists |
| `DirLockHandler.FilesSessionHandler.UpdateTimestamp` | src/FilesSessionHandler.php:210-232 | with the bound id and an existing lock, it touches the entry and removes the lock directory; otherwise it returns false and changes nothing |
| `DirLockHandler.WriteThenRead` | src/FilesSessionHandler.php:59-117 | data written under the lock is what the next read returns |
| `DirLockHandler.SecondReaderWaits` | src/FilesSessionHandler.php:78-89 | a second reader times out while the lock directory exists, and reads the written data afterwards |
| `DirLockHandler.TimedOutReadLooksEmpty` | src/FilesSessionHandler.php:86-88 | a blocked read returns "" as declared, where the corrected read returns false |
| `DirLockHandler.WriteAfterTimeoutBreaksLock` | src/FilesSessionHandler.php:100-117 | a waiter whose timeout was coerced to "" can write, and that write removes the holder's lock |
| `DirLockHandler.RebindLeaksFirstLock` | src/FilesSessionHandler.php:61-68 | reading a second id rebinds the handler; close then removes only the second lock, and the first is left behind |
| `DirLockHandler.FreshIdReadsEmpty` | src/FilesSessionHandler.php:90-96 | reading a never-used id returns "" and creates its entry |
| `DirLockHandler.DestroyTwice` | src/FilesSessionHandler.php:120-142 | destroy succeeds once, and the repeat fails |
| `DirLockHandler.NewIdDoesNotCollide` | src/FilesSessionHandler.php:170-207 | an id from create_sid passes ctype_xdigit and does not collide |
| `DirLockHandler.GcKeepsLockDirectory` | src/FilesSessionHandler.php:145-167 | from a stale entry and an equally old lock directory, gc removes only the entry |
| `MemcachedStore.Retimed` | src/MemcachedSessionHandler.php:88 | touch gives a present key the new expiration and keeps its value; a missing key stays missing |
| `MemcachedStore.LockKeyIsNotEntryKey` | src/MemcachedSessionHandler.php:67-68 | for a hex id, no lock key is an entry key |
| `MemcachedStore.LockKeyInjective` | src/MemcachedSessionHandler.php:68 | under one session name, different ids have different lock keys |
| `MemcachedStore.Memcached.Add` | src/MemcachedSessionHandler.php:74 | add succeeds exactly when the key is absent, and only then stores it |
| `MemcachedStore.Memcached.Set` | src/MemcachedSessionHandler.php:111 | set stores the value under the key, replacing any old item; it never fails in the model |
| `MemcachedStore.Memcached.Touch` | src/MemcachedSessionHandler.php:205 | touch succeeds exactly when the key is present, and retimes it |
| `MemcachedStore.Memcached.Delete` | src/MemcachedSessionHandler.php:130-131 | delete removes the key, succeeding exactly when it was present |
| `MemcachedHandler.MemcachedSessionHandler.constructor` | src/MemcachedSessionHandler.php:11-14 | a new handler has no name, no bound id, no server and no lock |
| `MemcachedHandler.MemcachedSessionHandler.Open` | src/MemcachedSessionHandler.php:17-31 | open binds the session name and the server, and returns true |
| `MemcachedHandler.MemcachedSessionHandler.CloseAsWritten` | src/MemcachedSessionHandler.php:34-50 | close deletes the bound id's lock key only when isLocked is set, unbinds the id, and leaves isLocked as it was |
| `MemcachedHandler.MemcachedSessionHandler.Close` | src/MemcachedSessionHandler.php:34-50 | as close, but isLocked is cleared together with the lock it stands for |
| `MemcachedHandler.MemcachedSessionHandler.Read` | src/MemcachedSessionHandler.php:53-94 | read returns "" with no change for a non-hex id, and otherwise rebinds. If all add attempts fail, it returns false after exactly LockAttempts tries with the store and isLocked unchanged. On success, isLocked is set, the lock key holds "1", the entry is retimed, and the result is the stored value, or "" when it is absent or falsy |
| `MemcachedHandler.MemcachedSessionHandler.Write` | src/MemcachedSessionHandler.php:97-116 | write returns true exactly for the bound hex truthy id, since set never fails in the model. Then it sets the entry with the gc lifetime, deletes the lock key and clears isLocked; a refused id changes nothing |
| `MemcachedHandler.MemcachedSessionHandler.Destroy` | src/MemcachedSessionHandler.php:119-137 | destroy with the bound id unbinds it, deletes entry and lock keys, clears isLocked and returns true; otherwise it returns false and changes nothing |
| `MemcachedHandler.MemcachedSessionHandler.Gc` | src/MemcachedSessionHandler.php:140-144 | gc returns 1, the int value of true |
| `MemcachedHandler.MemcachedSessionHandler.CreateSid` | src/MemcachedSessionHandler.php:147-165 | create_sid returns the first drawn id whose entry key holds no truthy value, 32 lower-case hex characters |
| `MemcachedHandler.MemcachedSessionHandler.ValidateId` | src/MemcachedSessionHandler.php:168-184 | validateId is true exactly when the id is hex and its entry holds a truthy value |
| `MemcachedHandler.MemcachedSessionHandler.UpdateTimestamp` | src/MemcachedSessionHandler.php:187-210 | with the bound id and a truthy lock key, it retimes the entry, deletes the lock and clears isLocked, and returns whether the entry existed; otherwise nothing changes |
| `MemcachedHandler.WriteThenRead` | src/MemcachedSessionHandler.php:53-116 | written data is read back, except that a falsy value ("" or "0") reads back as "" |
| `MemcachedHandler.SecondReaderWaits` | src/MemcachedSessionHandler.php:73-83 | a second handler's read fails while the lock key exists, and reads the written data afterwards |
| `MemcachedHandler.FreshIdIsNotMaterialised` | src/MemcachedSessionHandler.php:85-88 | reading a never-used id returns "" but creates no entry, so validateId reports no collision; updateTimestamp then fails, yet still releases the lock |
| `MemcachedHandler.DestroyTwice` | src/MemcachedSessionHandler.php:119-137 | destroy succeeds once, and the repeat fails |
| `MemcachedHandler.NewIdDoesNotCollide` | src/MemcachedSessionHandler.php:147-184 | an id from create_sid passes ctype_xdigit and does not collide |
| `MemcachedHandler.StaleFlagReleasesForeignLock` | src/MemcachedSessionHandler.php:34-50 | with close as written, a reused handler whose later read failed deletes the lock another handler holds |
| `MemcachedHandler.ClearedFlagKeepsForeignLock` | src/MemcachedSessionHandler.php:43-46 | with isLocked cleared on close, the same sequence leaves the other handler's lock in place |

## Left out

- `FileSystemModel.FileSystem.Touch`: touch never fails. The source's failure path is not modelled. In that path `updateTimestamp` returns false but still releases the lock (FilesSessionHandler.php:235-239, src/FilesSessionHandler.php:227-231).
- `FileLockHandler.FilesSessionHandler.UpdateTimestamp`: returns true whenever the guards and the lock check pass, because touch never fails in the model.
- `DirLockHandler.FilesSessionHandler.UpdateTimestamp`: returns true whenever the guards and the lock check pass, for the same reason.
- `FileSystemModel.FileSystem.PutContents`: file_put_contents fails only when the name is a directory. Other I/O failures, such as permissions or a full disk, are not modelled. In those cases `write` still releases the lock.
- `MemcachedStore.Memcached.Set`: set never fails. The source's failure path is not modelled; there `write` returns false but still deletes the lock key and clears isLocked (src/MemcachedSessionHandler.php:111-115).
- `MemcachedHandler.MemcachedSessionHandler.Write`: returns true whenever the guards pass, because set never fails in the model.
- The real filesystem, the Memcached client connection (`parse_url`, `addServer`) and `quit()`. The file tree and the server are maps. `open` only binds the path or name. Both `close` methods return true, without the `quit()` result.
- `usleep`, `time()` and `ini_get`. Each call takes one `now`, `max_execution_time` and `session.gc_maxlifetime` as parameters.
- Other processes acting while a handler polls. The model is sequential: a failed attempt sees the same store on every later poll. Contention between handlers is shown only by interleaving whole calls in the scenario methods.
- `LOCK_EX` on `file_put_contents`, and `fclose` of the lock handle.
- Memcached's own expiry. A key stays until it is deleted, and its expiration is only recorded.
- Directory hierarchy. A path is a (directory, name) pair, and `rmdir` of a non-empty directory is not distinguished.
- PHP's loose `!=` between numeric-looking strings (`"1e3" != "1000"` is false in PHP). Ids are compared as strings.
- `random_bytes`. Its 16-byte results come in as a sequence of draws.
- `FileLockHandler.FilesSessionHandler.CreateSid`: requires that some draw is not taken. Real ids are random, so the loop ends with probability 1; the model does not prove that, it assumes a free draw exists.
- `DirLockHandler.FilesSessionHandler.CreateSid`: the same requirement, for the same reason.
- `MemcachedHandler.MemcachedSessionHandler.CreateSid`: the same requirement, for the same reason.
- `LoggingSessionHandler.php`, `src/LoggingSessionHandler.php`, `run-tests.php` and the `experiments/` scripts. They are a logging decorator, a test driver and demos, and hold none of the protocol.

Where the wording of the handlers' documentation and the code differ, the model follows the code:

- The memcached `read` only touches the entry, and touch does not create a missing key. A fresh id is therefore not materialised in the store.
- A second `destroy` of the same id returns false, because the first one unbinds the id.

## Findings

| source | as written | input that shows it | evidently intended | confidence | as-written member | corrected member |
|---|---|---|---|---|---|---|
| FilesSessionHandler.php:64-93 | `read` is declared `: string` without strict types, so `return false` on a lock timeout becomes `""` | handler A holds the lock on id `ab`; handler B reads `ab` and every attempt fails. B gets `""`, then its `write("ab", …)` succeeds and unlinks A's lock | report the timeout as false (`string\|false`), so PHP fails the session start | not executed | `FileLockHandler.FilesSessionHandler.ReadAsDeclared`, shown by `FileLockHandler.TimedOutReadLooksEmpty` and `FileLockHandler.WriteAfterTimeoutBreaksLock` | `FileLockHandler.FilesSessionHandler.Read` |
| src/FilesSessionHandler.php:59-89 | the same `: string` declaration coerces the timeout's `false` to `""` | the lock directory for `ab` exists; a second handler's read of `ab` returns `""`, and its write removes the lock directory | report the timeout as false | not executed | `DirLockHandler.FilesSessionHandler.ReadAsDeclared`, shown by `DirLockHandler.TimedOutReadLooksEmpty` and `DirLockHandler.WriteAfterTimeoutBreaksLock` | `DirLockHandler.FilesSessionHandler.Read` |
| src/MemcachedSessionHandler.php:34-50 | `close` deletes the lock when `isLocked` is set but never clears the flag | handler H reads `a` and closes without writing (isLocked stays true). Handler G then locks `b`. H's read of `b` fails, and H's close deletes G's lock key | clear `isLocked` whenever the lock is released or the id is unbound | not executed | `MemcachedHandler.MemcachedSessionHandler.CloseAsWritten`, shown by `MemcachedHandler.StaleFlagReleasesForeignLock` | `MemcachedHandler.MemcachedSessionHandler.Close`, shown by `MemcachedHandler.ClearedFlagKeepsForeignLock` |
