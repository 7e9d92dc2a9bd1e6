/** The part of Redis the services rely on: keys with a value and an optional
    expiry instant.  A key whose expiry has been reached reads as absent. */
module Redis {
  import opened Basics

  /** Redis keeps every value as a string.  `Integer` is one that INCR accepts,
      `Data` is any other payload, kept in decoded form. */
  datatype Cell<+V> = Integer(n: int) | Data(v: V)

  datatype Entry<+V> = Entry(cell: Cell<V>, expiry: Option<int>)

  type Store<V> = map<string, Entry<V>>

  /** What a store holds under one key. */
  type Slot<V> = Option<Entry<V>>

  function Lookup<V>(s: Store<V>, key: string): Slot<V> {
    if key in s then Some(s[key]) else None
  }

  function Write<V>(s: Store<V>, key: string, x: Slot<V>): Store<V> {
    if x.Some? then s[key := x.value] else s - {key}
  }

  predicate Live<V>(x: Slot<V>, now: int) {
    x.Some? && (x.value.expiry.Some? ==> now < x.value.expiry.value)
  }

  function Read<V>(x: Slot<V>, now: int): Option<Cell<V>> {
    if Live(x, now) then Some(x.value.cell) else None
  }

  /** SET with a TTL; a TTL that is not positive sets no expiry. */
  function SetSlot<V>(cell: Cell<V>, ttl: int, now: int): Slot<V> {
    Some(Entry(cell, if ttl > 0 then Some(now + ttl) else None))
  }

  /** INCR: an absent key counts from 0, a live one keeps its expiry, and a value
      that is not an integer is an error that changes nothing. */
  function IncrSlot<V>(x: Slot<V>, now: int): (Slot<V>, Option<int>) {
    if !Live(x, now) then (Some(Entry(Integer(1), None)), Some(1))
    else match x.value.cell
      case Integer(n) => (Some(x.value.(cell := Integer(n + 1))), Some(n + 1))
      case Data(_) => (x, None)
  }

  /** EXPIRE: no effect on an absent key; a TTL that is not positive deletes. */
  function ExpireSlot<V>(x: Slot<V>, ttl: int, now: int): Slot<V> {
    if !Live(x, now) then x
    else if ttl <= 0 then None
    else Some(x.value.(expiry := Some(now + ttl)))
  }

  /** The connection.  Every call reads the clock through `now`. */
  class RedisClient<V> {
    var store: Store<V>

    constructor ()
      ensures store == map[]
    {
      store := map[];
    }

    method Get(key: string, now: int) returns (r: Option<Cell<V>>)
      ensures r == Read(Lookup(store, key), now)
    {
      r := Read(Lookup(store, key), now);
    }

    method Set(key: string, cell: Cell<V>, ttl: int, now: int)
      modifies this
      ensures store == Write(old(store), key, SetSlot(cell, ttl, now))
    {
      store := Write(store, key, SetSlot(cell, ttl, now));
    }

    method Incr(key: string, now: int) returns (r: Option<int>)
      modifies this
      ensures store == Write(old(store), key, IncrSlot(Lookup(old(store), key), now).0)
      ensures r == IncrSlot(Lookup(old(store), key), now).1
    {
      var (slot, n) := IncrSlot(Lookup(store, key), now);
      store := Write(store, key, slot);
      r := n;
    }

    method Expire(key: string, ttl: int, now: int)
      modifies this
      ensures store == Write(old(store), key, ExpireSlot(Lookup(old(store), key), ttl, now))
    {
      store := Write(store, key, ExpireSlot(Lookup(store, key), ttl, now));
    }

    method Delete(key: string)
      modifies this
      ensures store == Write(old(store), key, None)
    {
      store := Write(store, key, None);
    }
  }
}
