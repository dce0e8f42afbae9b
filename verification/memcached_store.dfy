/** The memcached server as the Memcached client sees it: keys holding a string
    value and the expiration it was stored or last touched with. Expiry by
    the server's clock is not modelled; a key stays until it is deleted. */
module MemcachedStore {
  import opened PhpValues

  datatype Item = Item(value: string, ttl: int)

  type Items = map<string, Item>

  /** `$memcached->get($key)` used as a condition: present, with a truthy value. */
  predicate TruthyAt(items: Items, key: string) {
    key in items && Truthy(items[key].value)
  }

  /** `$memcached->get($key) ?: ''` */
  function ValueOrEmpty(items: Items, key: string): string {
    if TruthyAt(items, key) then items[key].value else ""
  }

  /** touch($key, $ttl): a present key keeps its value and takes the new expiration;
      a missing key stays missing. */
  function Retimed(items: Items, key: string, ttl: int): (r: Items)
    ensures r.Keys == items.Keys
    ensures key in items ==> r[key] == Item(items[key].value, ttl)
    ensures forall k :: k in items && k != key ==> r[k] == items[k]
  {
    if key in items then items[key := Item(items[key].value, ttl)] else items
  }

  /** "sess-$prefix-$id": where a session's data lives. */
  function EntryKey(name: string, id: string): string {
    "sess-" + name + "-" + id
  }

  /** "sess-$prefix-$id-lock": the key whose add-if-absent is the session's lock. */
  function LockKey(name: string, id: string): string {
    "sess-" + name + "-" + id + "-lock"
  }

  /** Entries and locks live in disjoint key spaces: a hex id cannot end in "k". */
  lemma LockKeyIsNotEntryKey(name: string, other: string, a: string, b: string)
    requires CtypeXdigit(a)
    ensures EntryKey(name, a) != LockKey(other, b)
  {
    var entry, lock := EntryKey(name, a), LockKey(other, b);
    assert entry[|entry| - 1] == a[|a| - 1];
    assert lock[|lock| - 1] == 'k';
  }

  /** Under one session name, different ids have different lock keys. */
  lemma LockKeyInjective(name: string, a: string, b: string)
    requires LockKey(name, a) == LockKey(name, b)
    ensures a == b
  {
    var ka, kb := LockKey(name, a), LockKey(name, b);
    var from := |name| + 6;
    assert a == ka[from..|ka| - 5];
    assert b == kb[from..|kb| - 5];
  }

  class Memcached {
    var items: Items

    constructor (initial: Items)
      ensures items == initial
    {
      items := initial;
    }

    function GetTruthy(key: string): bool
      reads this
    {
      TruthyAt(items, key)
    }

    function GetOrEmpty(key: string): string
      reads this
    {
      ValueOrEmpty(items, key)
    }

    /** add: atomically stores the key only when it is absent. */
    method Add(key: string, value: string, ttl: int) returns (added: bool)
      modifies this
      ensures added == (key !in old(items))
      ensures items == if added then old(items)[key := Item(value, ttl)] else old(items)
    {
      added := key !in items;
      if added {
        items := items[key := Item(value, ttl)];
      }
    }

    method Set(key: string, value: string, ttl: int) returns (ok: bool)
      modifies this
      ensures ok && items == old(items)[key := Item(value, ttl)]
    {
      items := items[key := Item(value, ttl)];
      ok := true;
    }

    method Touch(key: string, ttl: int) returns (ok: bool)
      modifies this
      ensures ok == (key in old(items))
      ensures items == Retimed(old(items), key, ttl)
    {
      ok := key in items;
      items := Retimed(items, key, ttl);
    }

    method Delete(key: string) returns (ok: bool)
      modifies this
      ensures ok == (key in old(items))
      ensures items == old(items) - {key}
    {
      ok := key in items;
      items := items - {key};
    }
  }
}
