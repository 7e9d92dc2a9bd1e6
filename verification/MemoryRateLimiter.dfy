/** The in-memory rate limiter: a table of entries that are updated in place, and a
    background pass that drops the ones it takes to be of no further use. */
module MemoryRateLimiter {
  import opened Basics

  datatype Config = Config(maxAttempts: int, lockoutDuration: int, resetWindow: int)

  function WithDefaults(c: Config): Config {
    Config(if c.maxAttempts == 0 then 5 else c.maxAttempts,
           if c.lockoutDuration == 0 then 15 * MINUTE else c.lockoutDuration,
           if c.resetWindow == 0 then 15 * MINUTE else c.resetWindow)
  }

  /** The zero instant of a lock that was never set; clock readings are natural
      numbers, so it is never in the future. */
  const ZERO_TIME := 0

  datatype Entry = Entry(failedAttempts: int, lockedUntil: int, lastAttempt: int)

  type Table = map<string, Entry>

  // ---------- what each operation does to the table ----------

  function Ask(c: Config, m: Table, ip: string, now: nat): (Table, bool) {
    if ip !in m then (m, true)
    else if m[ip].lockedUntil > now then (m, false)
    else if m[ip].failedAttempts >= c.maxAttempts then (m - {ip}, true)
    else (m, true)
  }

  function Succeed(m: Table, ip: string): Table {
    m - {ip}
  }

  function Failed(c: Config, e: Entry, now: nat): Entry {
    var failed := if now - e.lastAttempt > c.resetWindow then 1 else e.failedAttempts + 1;
    Entry(failed, if failed >= c.maxAttempts then now + c.lockoutDuration else e.lockedUntil, now)
  }

  function Fail(c: Config, m: Table, ip: string, now: nat): Table {
    m[ip := if ip in m then Failed(c, m[ip], now) else Entry(1, ZERO_TIME, now)]
  }

  predicate Stale(c: Config, e: Entry, now: nat) {
    now - e.lastAttempt > c.resetWindow && now > e.lockedUntil
  }

  function Cleanup(c: Config, m: Table, now: nat): Table {
    map ip | ip in m && !Stale(c, m[ip], now) :: m[ip]
  }

  // ---------- the limiter ----------

  class RateLimitEntry {
    var failedAttempts: int
    var lockedUntil: int
    var lastAttempt: int

    constructor (failedAttempts: int, lastAttempt: int)
      ensures Value() == Entry(failedAttempts, ZERO_TIME, lastAttempt)
    {
      this.failedAttempts, this.lastAttempt := failedAttempts, lastAttempt;
      this.lockedUntil := ZERO_TIME;
    }

    function Value(): Entry
      reads this
    {
      Entry(failedAttempts, lockedUntil, lastAttempt)
    }

    method FailAgain(c: Config, now: nat)
      modifies this
      ensures Value() == Failed(c, old(Value()), now)
    {
      if now - lastAttempt > c.resetWindow {
        failedAttempts := 1;
      } else {
        failedAttempts := failedAttempts + 1;
      }
      lastAttempt := now;
      if failedAttempts >= c.maxAttempts {
        lockedUntil := now + c.lockoutDuration;
      }
    }
  }

  class RateLimiter {
    const config: Config
    var attempts: map<string, RateLimitEntry>

    /** No two IPs share an entry. */
    ghost predicate Valid()
      reads this
    {
      forall a, b :: a in attempts && b in attempts && a != b ==> attempts[a] != attempts[b]
    }

    ghost function Contents(): Table
      reads this, attempts.Values
    {
      map ip | ip in attempts :: attempts[ip].Value()
    }

    constructor (config: Config)
      ensures Valid() && Contents() == map[] && this.config == WithDefaults(config)
    {
      this.config := WithDefaults(config);
      attempts := map[];
    }

    method IsAllowed(ip: string, now: nat) returns (allowed: bool)
      requires Valid()
      modifies this
      ensures Valid() && attempts.Values <= old(attempts.Values)
      ensures (Contents(), allowed) == Ask(config, old(Contents()), ip, now)
    {
      if ip !in attempts {
        return true;
      }
      var entry := attempts[ip];
      if entry.lockedUntil > now {
        return false;
      }
      if entry.failedAttempts >= config.maxAttempts {
        attempts := attempts - {ip};
        assert Contents() == old(Contents()) - {ip};
        return true;
      }
      return true;
    }

    method RecordSuccess(ip: string)
      requires Valid()
      modifies this
      ensures Valid() && attempts.Values <= old(attempts.Values)
      ensures Contents() == Succeed(old(Contents()), ip)
    {
      attempts := attempts - {ip};
    }

    method RecordFailure(ip: string, now: nat)
      requires Valid()
      modifies this, if ip in attempts then {attempts[ip]} else {}
      ensures Valid() && fresh(attempts.Values - old(attempts.Values))
      ensures Contents() == Fail(config, old(Contents()), ip, now)
    {
      if ip !in attempts {
        var entry := new RateLimitEntry(1, now);
        assert forall a :: a in attempts ==> attempts[a] in attempts.Values;
        attempts := attempts[ip := entry];
        return;
      }
      attempts[ip].FailAgain(config, now);
    }

    /** One tick of the background pass; a Go map is visited in any order. */
    method CleanupOldEntries(now: nat)
      requires Valid()
      modifies this
      ensures Valid() && attempts.Values <= old(attempts.Values)
      ensures Contents() == Cleanup(config, old(Contents()), now)
    {
      var todo := attempts.Keys;
      while todo != {}
        invariant todo <= old(attempts.Keys)
        invariant attempts.Keys <= old(attempts.Keys)
        invariant forall ip :: ip in attempts ==> attempts[ip] == old(attempts)[ip]
        invariant forall ip :: ip in todo ==> ip in attempts
        invariant forall ip :: ip in old(attempts) && ip !in todo ==>
          (ip in attempts <==> !Stale(config, old(attempts)[ip].Value(), now))
        decreases todo
      {
        var ip :| ip in todo;
        var entry := attempts[ip];
        if now - entry.lastAttempt > config.resetWindow && now > entry.lockedUntil {
          attempts := attempts - {ip};
        }
        todo := todo - {ip};
      }
    }
  }
}
