/** The limiter as an object: breaker fields and the local entry map, updated by each request. */
module Limiters {
  import opened Prelude
  import opened RateLimit
  import Text

  predicate IsCleanupDue(lastCleanup: Option<nat>, now: nat) {
    lastCleanup.None? || now - lastCleanup.value >= MINUTE
  }

  /** The local entries that a request arriving now finds. */
  function Kept(entries: map<string, nat>, lastCleanup: Option<nat>, now: nat, ttl: nat): map<string, nat> {
    if IsCleanupDue(lastCleanup, now) then map k | k in entries && entries[k] >= now - ttl :: entries[k] else entries
  }

  // ----- Which keys are remembered

  datatype Local = Local(entries: map<string, nat>, lastCleanup: Option<nat>)

  datatype Visit = Visit(key: string, at: nat)

  function AfterVisit(l: Local, v: Visit, ttl: nat, maxEntries: nat): Local {
    var kept := Kept(l.entries, l.lastCleanup, v.at, ttl);
    Local(if v.key in kept || |kept| < maxEntries then kept[v.key := v.at] else kept,
          if IsCleanupDue(l.lastCleanup, v.at) then Some(v.at) else l.lastCleanup)
  }

  function LocalAfter(visits: seq<Visit>, ttl: nat, maxEntries: nat): Local {
    if visits == [] then Local(map[], None)
    else AfterVisit(LocalAfter(visits[..|visits| - 1], ttl, maxEntries), visits[|visits| - 1], ttl, maxEntries)
  }

  ghost predicate AreOrdered(visits: seq<Visit>) {
    forall i, j :: 0 <= i < j < |visits| ==> visits[i].at <= visits[j].at
  }

  ghost predicate IsVisit(visits: seq<Visit>, key: string, at: nat) {
    exists i :: 0 <= i < |visits| && visits[i] == Visit(key, at)
  }

  /** What is remembered of a key is one of its visits. */
  lemma {:induction false} EntriesAreVisits(visits: seq<Visit>, ttl: nat, maxEntries: nat)
    ensures var entries := LocalAfter(visits, ttl, maxEntries).entries;
            |entries| <= maxEntries && forall k :: k in entries ==> IsVisit(visits, k, entries[k])
  {
    if visits != [] {
      var n := |visits| - 1;
      var front := LocalAfter(visits[..n], ttl, maxEntries);
      EntriesAreVisits(visits[..n], ttl, maxEntries);
      KeptIsSmaller(front.entries, front.lastCleanup, visits[n].at, ttl);
      GrowsByOne(Kept(front.entries, front.lastCleanup, visits[n].at, ttl), visits[n].key, visits[n].at);
      var entries := LocalAfter(visits, ttl, maxEntries).entries;
      forall k | k in entries ensures IsVisit(visits, k, entries[k]) {
        if entries[k] != visits[n].at || k != visits[n].key {
          var i :| 0 <= i < n && visits[..n][i] == Visit(k, entries[k]);
          assert visits[i] == Visit(k, entries[k]);
        }
      }
    }
  }

  lemma KeptIsSmaller(entries: map<string, nat>, lastCleanup: Option<nat>, now: nat, ttl: nat)
    ensures |Kept(entries, lastCleanup, now, ttl)| <= |entries|
  {
    var kept := Kept(entries, lastCleanup, now, ttl);
    SubsetIsSmaller(kept.Keys, entries.Keys);
  }

  lemma {:induction false} SubsetIsSmaller(a: set<string>, b: set<string>)
    requires a <= b
    ensures |a| <= |b|
  {
    if a != {} {
      var k :| k in a;
      SubsetIsSmaller(a - {k}, b - {k});
    }
  }

  lemma GrowsByOne(entries: map<string, nat>, key: string, at: nat)
    ensures |entries[key := at]| == if key in entries then |entries| else |entries| + 1
  {
    assert entries[key := at].Keys == entries.Keys + {key};
    if key in entries {
      assert entries[key := at].Keys == entries.Keys;
    }
  }

  /** A key that got its token bucket keeps it for as long as the ttl after a visit, however full the map is. */
  lemma {:induction false} SeenKeysStay(visits: seq<Visit>, ttl: nat, maxEntries: nat, i: nat)
    requires AreOrdered(visits) && i < |visits| && visits[|visits| - 1].at <= visits[i].at + ttl
    requires visits[i].key in LocalAfter(visits[..i + 1], ttl, maxEntries).entries
    ensures var entries := LocalAfter(visits, ttl, maxEntries).entries;
            visits[i].key in entries && visits[i].at <= entries[visits[i].key]
  {
    var n := |visits| - 1;
    if i == n {
      assert visits[..i + 1] == visits;
    } else {
      assert visits[..n][..i + 1] == visits[..i + 1] && visits[n - 1].at <= visits[n].at;
      SeenKeysStay(visits[..n], ttl, maxEntries, i);
    }
  }

  /** A cleanup leaves no key whose last visit is longer ago than the ttl. */
  lemma CleanupForgets(visits: seq<Visit>, ttl: nat, maxEntries: nat, key: string)
    requires visits != [] && IsCleanupDue(LocalAfter(visits[..|visits| - 1], ttl, maxEntries).lastCleanup,
                                          visits[|visits| - 1].at)
    requires forall i :: 0 <= i < |visits| && visits[i].key == key ==> visits[i].at + ttl < visits[|visits| - 1].at
    ensures key !in LocalAfter(visits, ttl, maxEntries).entries
  {
    var n := |visits| - 1;
    var entries := LocalAfter(visits[..n], ttl, maxEntries).entries;
    EntriesAreVisits(visits[..n], ttl, maxEntries);
    if key in entries {
      var i :| 0 <= i < n && visits[..n][i] == Visit(key, entries[key]);
      assert visits[i].key == key;
    }
  }

  class Limiter {
    const lower: string -> string
    const distributed: bool
    const cfg: BreakerConfig
    const limit: nat
    const ttl: nat
    const maxEntries: nat
    var circuitFailures: nat
    var circuitOpenUntil: Option<nat>
    var entries: map<string, nat>
    var lastCleanup: Option<nat>

    function Circuit(): Breaker
      reads this
    {
      Breaker(circuitFailures, circuitOpenUntil)
    }

    ghost predicate Valid()
      reads this
    {
      |entries| <= maxEntries && circuitFailures < cfg.failCount
    }

    /** `lower` is the lower-casing of keys, `distributed` whether a shared counter is configured. */
    constructor (lower: string -> string, distributed: bool, cfg: BreakerConfig, limit: nat, ttl: nat, maxEntries: nat)
      requires cfg.failCount > 0
      ensures Valid() && Circuit() == CLOSED_BREAKER && entries == map[] && lastCleanup.None?
      ensures this.lower == lower && this.distributed == distributed
      ensures this.cfg == cfg && this.limit == limit && this.ttl == ttl && this.maxEntries == maxEntries
    {
      this.lower, this.distributed := lower, distributed;
      this.cfg, this.limit, this.ttl, this.maxEntries := cfg, limit, ttl, maxEntries;
      circuitFailures, circuitOpenUntil := 0, None;
      entries, lastCleanup := map[], None;
    }

    method IsCircuitOpen(now: nat) returns (open: bool)
      requires Valid()
      modifies this`circuitOpenUntil
      ensures Valid() && open == IsOpen(old(Circuit()), now)
      ensures circuitOpenUntil == if open then old(circuitOpenUntil) else None
    {
      if circuitOpenUntil.None? {
        return false;
      }
      if now < circuitOpenUntil.value {
        return true;
      }
      circuitOpenUntil := None;
      open := false;
    }

    method OnDistributedFailure(now: nat)
      requires Valid()
      modifies this`circuitFailures, this`circuitOpenUntil
      ensures Valid()
      ensures Circuit() == if IsOpen(old(Circuit()), now) then old(Circuit()) else OnFailure(cfg, old(Circuit()), now)
    {
      if circuitOpenUntil.Some? && now < circuitOpenUntil.value {
        return;
      }
      circuitFailures := circuitFailures + 1;
      if circuitFailures >= cfg.failCount {
        circuitOpenUntil := Some(now + cfg.openWindow);
        circuitFailures := 0;
      }
    }

    /** Asks the shared counter unless the circuit is open; `reply` is what it would answer, or nothing on error. */
    method AllowDistributed(now: nat, reply: Option<nat>) returns (allowed: bool, decided: bool)
      requires Valid()
      modifies this`circuitFailures, this`circuitOpenUntil
      ensures Valid() && Circuit() == AfterAttempt(cfg, old(Circuit()), Attempt(now, reply.Some?))
      ensures decided <==> !IsOpen(old(Circuit()), now) && reply.Some?
      ensures decided ==> allowed == (reply.value <= limit)
    {
      var open := IsCircuitOpen(now);
      if open {
        return false, false;
      }
      if reply.None? {
        OnDistributedFailure(now);
        return false, false;
      }
      circuitFailures, circuitOpenUntil := 0, None;
      allowed, decided := reply.value <= limit, true;
    }

    /** Once a minute, forgets the keys not seen for longer than the ttl. */
    method CleanupIfNeeded(now: nat)
      requires Valid()
      modifies this`entries, this`lastCleanup
      ensures Valid()
      ensures entries == Kept(old(entries), old(lastCleanup), now, ttl)
      ensures lastCleanup == if IsCleanupDue(old(lastCleanup), now) then Some(now) else old(lastCleanup)
    {
      if lastCleanup.Some? && now - lastCleanup.value < MINUTE {
        return;
      }
      var todo := entries.Keys;
      while todo != {}
        modifies this`entries
        invariant todo <= old(entries).Keys
        invariant entries.Keys <= old(entries).Keys && |entries| <= maxEntries
        invariant forall k :: k in old(entries) ==>
            (k in entries <==> k in todo || old(entries)[k] >= now - ttl)
        invariant forall k :: k in entries ==> entries[k] == old(entries)[k]
        decreases |todo|
      {
        var key :| key in todo;
        todo := todo - {key};
        if entries[key] < now - ttl {
          ghost var before := entries.Keys;
          entries := entries - {key};
          assert entries.Keys == before - {key};
        }
      }
      lastCleanup := Some(now);
    }

    /** Lets unknown keys through once the map is full; otherwise asks the key's token bucket. */
    method AllowLocal(key: string, now: nat, token: bool) returns (allowed: bool)
      requires Valid()
      modifies this`entries, this`lastCleanup
      ensures Valid()
      ensures Local(entries, lastCleanup)
              == AfterVisit(Local(old(entries), old(lastCleanup)), Visit(key, now), ttl, maxEntries)
      ensures allowed == (token || key !in entries)
    {
      CleanupIfNeeded(now);
      if key !in entries && |entries| >= maxEntries {
        return true;
      }
      ghost var before := entries.Keys;
      entries := entries[key := now];
      assert entries.Keys == before + {key};
      allowed := token;
    }

    /**
      A blank key is let through. The shared counter decides exactly when it is configured, the circuit is closed and
      it answers; every other request is decided locally, and the number of local entries stays bounded.
     */
    method Allow(raw: string, now: nat, reply: Option<nat>, token: bool) returns (allowed: bool, byCounter: bool)
      requires Valid()
      modifies this
      ensures Valid()
      ensures var key := Text.Trim(lower(raw));
              && (byCounter <==> key != "" && distributed && !IsOpen(old(Circuit()), now) && reply.Some?)
              && (byCounter ==> allowed == (reply.value <= limit) && entries == old(entries))
              && (key == "" ==> allowed && entries == old(entries))
              && Circuit() == (if key == "" || !distributed then old(Circuit())
                               else AfterAttempt(cfg, old(Circuit()), Attempt(now, reply.Some?)))
      ensures var key := Text.Trim(lower(raw));
              key != "" && !byCounter ==>
                && Local(entries, lastCleanup)
                   == AfterVisit(Local(old(entries), old(lastCleanup)), Visit(key, now), ttl, maxEntries)
                && allowed == (token || key !in entries)
    {
      var key := Text.Trim(lower(raw));
      if key == "" {
        return true, false;
      }
      allowed, byCounter := false, false;
      if distributed {
        allowed, byCounter := AllowDistributed(now, reply);
      }
      if !byCounter {
        allowed := AllowLocal(key, now, token);
      }
    }
  }
}
