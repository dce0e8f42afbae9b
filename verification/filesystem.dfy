/** The part of a POSIX filesystem the two files-based handlers touch: the
    entries of directories, each a regular file (content and mtime) or a
    directory (mtime only), and the PHP primitives over them. */
module FileSystemModel {
  import opened PhpValues

  /** "$dir/$name" */
  datatype Path = Path(dir: string, name: string)

  datatype Node = File(content: string, mtime: int) | Dir(mtime: int)

  type Nodes = map<Path, Node>

  /** PHP's is_file: a regular file, not a directory. */
  predicate IsFile(nodes: Nodes, p: Path) {
    p in nodes && nodes[p].File?
  }

  predicate IsDir(nodes: Nodes, p: Path) {
    p in nodes && nodes[p].Dir?
  }

  /** `(string) @file_get_contents(p)`: a regular file's content; "" when p is missing or a directory. */
  function ContentsAsString(nodes: Nodes, p: Path): string {
    if IsFile(nodes, p) then nodes[p].content else ""
  }

  /** touch(p) at time now: creates an empty file when p is missing, otherwise only moves its mtime. */
  function Touched(nodes: Nodes, p: Path, now: int): (r: Nodes)
    ensures r.Keys == nodes.Keys + {p}
    ensures r[p].mtime == now
    ensures ContentsAsString(r, p) == ContentsAsString(nodes, p)
    ensures IsDir(r, p) == IsDir(nodes, p)
    ensures forall q :: q in nodes && q != p ==> r[q] == nodes[q]
  {
    if p in nodes then nodes[p := nodes[p].(mtime := now)] else nodes[p := File("", now)]
  }

  /** file_put_contents(p, data) at time now; it fails, changing nothing, when p is a directory. */
  function Written(nodes: Nodes, p: Path, data: string, now: int): (r: Nodes)
    ensures IsDir(nodes, p) ==> r == nodes
    ensures !IsDir(nodes, p) ==> r.Keys == nodes.Keys + {p} && IsFile(r, p) && ContentsAsString(r, p) == data && r[p].mtime == now
    ensures forall q :: q in nodes && q != p ==> r[q] == nodes[q]
  {
    if IsDir(nodes, p) then nodes else nodes[p := File(data, now)]
  }

  /** unlink(p): removes a regular file; it fails, changing nothing, on a directory or a missing name. */
  function Unlinked(nodes: Nodes, p: Path): (r: Nodes)
    ensures !IsFile(r, p)
    ensures r.Keys == if IsFile(nodes, p) then nodes.Keys - {p} else nodes.Keys
    ensures forall q :: q in r ==> r[q] == nodes[q]
  {
    if IsFile(nodes, p) then nodes - {p} else nodes
  }

  /** rmdir(p): removes a directory; it fails, changing nothing, on a regular file or a missing name. */
  function RemovedDir(nodes: Nodes, p: Path): (r: Nodes)
    ensures !IsDir(r, p)
    ensures r.Keys == if IsDir(nodes, p) then nodes.Keys - {p} else nodes.Keys
    ensures forall q :: q in r ==> r[q] == nodes[q]
  {
    if IsDir(nodes, p) then nodes - {p} else nodes
  }

  /** The names in directory dir ("." and ".." are directories of the tree itself and are left out). */
  function Entries(nodes: Nodes, dir: string): set<Path> {
    set p | p in nodes && p.dir == dir
  }

  /** "$save_path/sess_$id": where a session's data lives. */
  function SessionFile(dir: string, id: string): Path {
    Path(dir, "sess_" + id)
  }

  /** "$save_path/sess_$id.lock": the marker whose exclusive creation is the session's lock. */
  function LockFile(dir: string, id: string): Path {
    Path(dir, "sess_" + id + ".lock")
  }

  /** A lock marker never names a session file: a hex id cannot end in "k". */
  lemma LockFileIsNotSessionFile(dir: string, a: string, b: string)
    requires CtypeXdigit(a)
    ensures SessionFile(dir, a) != LockFile(dir, b)
  {
    var entry, lock := SessionFile(dir, a).name, LockFile(dir, b).name;
    assert entry[|entry| - 1] == a[|a| - 1];
    assert lock[|lock| - 1] == 'k';
  }

  /** Different ids have different lock markers. */
  lemma LockFileInjective(dir: string, a: string, b: string)
    requires LockFile(dir, a) == LockFile(dir, b)
    ensures a == b
  {
    var na, nb := LockFile(dir, a).name, LockFile(dir, b).name;
    assert a == na[5..|na| - 5];
    assert b == nb[5..|nb| - 5];
  }

  /** `substr($file, 0, 5) == 'sess_'` */
  predicate HasSessionPrefix(name: string) {
    |name| >= 5 && name[..5] == "sess_"
  }

  /** What gc($maxlifetime) removes from directory dir at time now: every regular file
      named sess_* whose mtime + maxlifetime is not in the future. */
  function Expired(nodes: Nodes, dir: string, maxlifetime: int, now: int): set<Path> {
    set p | p in nodes && p.dir == dir && nodes[p].File? && HasSessionPrefix(p.name)
                       && nodes[p].mtime + maxlifetime <= now
  }

  /** gc leaves every directory, every name outside dir or without the sess_ prefix,
      and every file touched within the last maxlifetime seconds, exactly as it was. */
  lemma ExpiredSpares(nodes: Nodes, dir: string, maxlifetime: int, now: int, p: Path)
    requires p in nodes
    requires nodes[p].Dir? || p.dir != dir || !HasSessionPrefix(p.name) || nodes[p].mtime + maxlifetime > now
    ensures p in nodes - Expired(nodes, dir, maxlifetime, now)
    ensures (nodes - Expired(nodes, dir, maxlifetime, now))[p] == nodes[p]
  {
  }

  /** What a scan step sees: a name not yet visited is still there, unchanged, and it is
      a victim exactly when the source's is_file, prefix and age test holds of it now. */
  lemma SweepVisit(nodes: Nodes, dir: string, maxlifetime: int, now: int, unread: set<Path>, p: Path)
    requires p in unread && p in nodes && p.dir == dir
    ensures var victims := Expired(nodes, dir, maxlifetime, now);
            var current := nodes - (victims - unread);
            && p in current && current[p] == nodes[p]
            && (p in victims <==> IsFile(current, p) && HasSessionPrefix(p.name) && current[p].mtime + maxlifetime <= now)
  {
  }

  /** Every name gc may remove is among the entries readdir yields for the save path,
      and every entry yielded is a name in that directory. */
  lemma ListingCoversExpired(nodes: Nodes, dir: string, maxlifetime: int, now: int, unread: set<Path>)
    requires unread == Entries(nodes, dir)
    ensures Expired(nodes, dir, maxlifetime, now) - unread == {}
    ensures forall p :: p in unread ==> p in nodes && p.dir == dir
  {
  }

  /** A sweep step that visits p and keeps it. */
  lemma SweepKeeps(victims: set<Path>, unread: set<Path>, p: Path)
    requires p in unread && p !in victims
    ensures victims - (unread - {p}) == victims - unread
  {
  }

  /** A sweep step that visits p and unlinks it: one more name gone, one more counted. */
  lemma SweepRemoves(nodes: Nodes, victims: set<Path>, unread: set<Path>, p: Path)
    requires p in unread && p in victims && p in nodes && nodes[p].File?
    ensures Unlinked(nodes - (victims - unread), p) == nodes - (victims - (unread - {p}))
    ensures |victims - (unread - {p})| == |victims - unread| + 1
  {
    var gone := victims - unread;
    assert victims - (unread - {p}) == gone + {p};
    assert Unlinked(nodes - gone, p) == (nodes - gone) - {p};
  }

  /** The one directory the handlers keep their files in, as a mutable map of entries. */
  class FileSystem {
    var nodes: Nodes

    constructor (initial: Nodes)
      ensures nodes == initial
    {
      nodes := initial;
    }

    /** file_exists: a regular file or a directory. */
    function Exists(p: Path): bool
      reads this
    {
      p in nodes
    }

    function IsRegularFile(p: Path): bool
      reads this
    {
      IsFile(nodes, p)
    }

    function MTime(p: Path): int
      reads this
      requires p in nodes
    {
      nodes[p].mtime
    }

    /** file_get_contents, cast to string. */
    function GetContents(p: Path): string
      reads this
    {
      ContentsAsString(nodes, p)
    }

    /** The entries readdir yields for dir. */
    function Listing(dir: string): set<Path>
      reads this
    {
      Entries(nodes, dir)
    }

    /** fopen(p, 'x'): atomically creates an empty regular file, failing when the name exists in any form. */
    method CreateExclusive(p: Path, now: int) returns (created: bool)
      modifies this
      ensures created == (p !in old(nodes))
      ensures nodes == if created then old(nodes)[p := File("", now)] else old(nodes)
    {
      created := p !in nodes;
      if created {
        nodes := nodes[p := File("", now)];
      }
    }

    /** mkdir(p): atomically creates a directory, failing when the name exists in any form. */
    method Mkdir(p: Path, now: int) returns (created: bool)
      modifies this
      ensures created == (p !in old(nodes))
      ensures nodes == if created then old(nodes)[p := Dir(now)] else old(nodes)
    {
      created := p !in nodes;
      if created {
        nodes := nodes[p := Dir(now)];
      }
    }

    method Touch(p: Path, now: int) returns (ok: bool)
      modifies this
      ensures ok && nodes == Touched(old(nodes), p, now)
    {
      nodes := Touched(nodes, p, now);
      ok := true;
    }

    method PutContents(p: Path, data: string, now: int) returns (ok: bool)
      modifies this
      ensures ok == !IsDir(old(nodes), p)
      ensures nodes == Written(old(nodes), p, data, now)
    {
      ok := !IsDir(nodes, p);
      nodes := Written(nodes, p, data, now);
    }

    method Unlink(p: Path) returns (ok: bool)
      modifies this
      ensures ok == IsFile(old(nodes), p)
      ensures nodes == Unlinked(old(nodes), p)
    {
      ok := IsFile(nodes, p);
      nodes := Unlinked(nodes, p);
    }

    method Rmdir(p: Path) returns (ok: bool)
      modifies this
      ensures ok == IsDir(old(nodes), p)
      ensures nodes == RemovedDir(old(nodes), p)
    {
      ok := IsDir(nodes, p);
      nodes := RemovedDir(nodes, p);
    }
  }
}
