/**
  Creating conversations under the Redis lease lock: clients wait for the key, look for an open
  conversation, insert one if there is none, and release. Clocks tick and clients die at any point.
 */
module CreateLock {
  import opened Prelude
  import opened ChatModel

  datatype Lease = Lease(token: nat, expiresAt: nat)

  /** Where a caller of CreateConversation is. Tokens are drawn at random, so no two are equal. */
  datatype Phase =
    | Idle
    | Waiting(site: string, visitor: string, token: nat)
    | Locked(site: string, visitor: string, token: nat, at: nat)
    | Checked(site: string, visitor: string, token: nat, at: nat)
    | Leaving(site: string, visitor: string, token: nat, at: nat)

  datatype World = World(
    now: nat, store: map<string, Lease>, clients: map<nat, Phase>,
    conversations: map<nat, Conversation>, nextConversation: nat, nextToken: nat)

  const START := World(0, map[], map[], map[], 1, 0)

  datatype Action =
    | Begin(client: nat, site: string, visitor: string)
    | Acquire(client: nat)
    | Look(client: nat)
    | Insert(client: nat)
    | Abandon(client: nat)
    | Release(client: nat)
    | Vanish(client: nat)
    | CloseOne(id: nat)
    | Tick(elapsed: nat)

  function LockKey(site: string, visitor: string): string {
    "conversation:create:" + site + ":" + visitor
  }

  function PhaseOf(s: World, client: nat): Phase {
    if client in s.clients then s.clients[client] else Idle
  }

  predicate Holds(p: Phase) {
    p.Locked? || p.Checked? || p.Leaving?
  }

  function KeyOf(p: Phase): string
    requires !p.Idle?
  {
    LockKey(p.site, p.visitor)
  }

  /** SET key token NX PX ttl succeeds. */
  predicate IsFree(store: map<string, Lease>, key: string, now: nat) {
    key !in store || store[key].expiresAt <= now
  }

  /** The release script: delete the key only if it still carries the caller's token. */
  function CompareAndDelete(store: map<string, Lease>, key: string, token: nat): (r: map<string, Lease>)
    ensures forall k :: k in r <==> k in store && !(k == key && store[k].token == token)
    ensures forall k :: k in r ==> r[k] == store[k]
  {
    if key in store && store[key].token == token then store - {key} else store
  }

  predicate Enabled(s: World, a: Action) {
    match a
    case Begin(client, _, _) => PhaseOf(s, client).Idle?
    case Acquire(client) => PhaseOf(s, client).Waiting? && IsFree(s.store, KeyOf(PhaseOf(s, client)), s.now)
    case Look(client) => PhaseOf(s, client).Locked?
    case Insert(client) => PhaseOf(s, client).Checked?
    case Abandon(client) => PhaseOf(s, client).Locked? || PhaseOf(s, client).Checked?
    case Release(client) => PhaseOf(s, client).Leaving?
    case Vanish(_) => true
    case CloseOne(id) => id in s.conversations
    case Tick(_) => true
  }

  function Next(s: World, a: Action, ttl: nat): World
    requires Enabled(s, a)
  {
    match a
    case Begin(client, site, visitor) =>
      s.(clients := s.clients[client := Waiting(site, visitor, s.nextToken)], nextToken := s.nextToken + 1)
    case Acquire(client) =>
      var p := PhaseOf(s, client);
      s.(store := s.store[KeyOf(p) := Lease(p.token, s.now + ttl)],
         clients := s.clients[client := Locked(p.site, p.visitor, p.token, s.now)])
    case Look(client) =>
      var p := PhaseOf(s, client);
      s.(clients := s.clients[client :=
        if LatestOpen(s.conversations, p.site, p.visitor, s.nextConversation).Some?
        then Leaving(p.site, p.visitor, p.token, p.at) else Checked(p.site, p.visitor, p.token, p.at)])
    case Insert(client) =>
      var p := PhaseOf(s, client);
      s.(conversations := s.conversations[s.nextConversation :=
           Conversation(p.site, p.visitor, true, None, None, None, None, None, None)],
         nextConversation := s.nextConversation + 1,
         clients := s.clients[client := Leaving(p.site, p.visitor, p.token, p.at)])
    case Abandon(client) =>
      var p := PhaseOf(s, client);
      s.(clients := s.clients[client := Leaving(p.site, p.visitor, p.token, p.at)])
    case Release(client) =>
      var p := PhaseOf(s, client);
      s.(store := CompareAndDelete(s.store, KeyOf(p), p.token), clients := s.clients[client := Idle])
    case Vanish(client) => s.(clients := s.clients[client := Idle])
    case CloseOne(id) => s.(conversations := s.conversations[id := s.conversations[id].(open := false)])
    case Tick(elapsed) => s.(now := s.now + elapsed)
  }

  ghost predicate IsRun(run: seq<Action>, ttl: nat)
    decreases |run|, 0
  {
    run == [] || (IsRun(run[..|run| - 1], ttl) && Enabled(Final(run[..|run| - 1], ttl), run[|run| - 1]))
  }

  function Final(run: seq<Action>, ttl: nat): World
    requires IsRun(run, ttl)
    decreases |run|, 1
  {
    if run == [] then START else Next(Final(run[..|run| - 1], ttl), run[|run| - 1], ttl)
  }

  // ----- Leases exclude each other

  predicate IsLive(s: World, p: Phase, ttl: nat) {
    Holds(p) && s.now < p.at + ttl
  }

  ghost predicate Tokens(s: World) {
    && (forall c :: !PhaseOf(s, c).Idle? ==> PhaseOf(s, c).token < s.nextToken)
    && (forall k :: k in s.store ==> s.store[k].token < s.nextToken)
    && (forall c, d :: c != d && !PhaseOf(s, c).Idle? && !PhaseOf(s, d).Idle? ==>
        PhaseOf(s, c).token != PhaseOf(s, d).token)
  }

  /** A live holder's lease is the one in the store. */
  ghost predicate Leased(s: World, ttl: nat) {
    forall c :: IsLive(s, PhaseOf(s, c), ttl) ==>
      var p := PhaseOf(s, c);
      KeyOf(p) in s.store && s.store[KeyOf(p)] == Lease(p.token, p.at + ttl)
  }

  lemma StepKeepsTokens(s: World, a: Action, ttl: nat)
    requires Enabled(s, a) && Tokens(s)
    ensures Tokens(Next(s, a, ttl))
  {
    var s' := Next(s, a, ttl);
    assert forall c :: !PhaseOf(s', c).Idle? && !(a.Begin? && c == a.client) ==>
        !PhaseOf(s, c).Idle? && PhaseOf(s', c).token == PhaseOf(s, c).token;
  }

  lemma StepKeepsLeased(s: World, a: Action, ttl: nat)
    requires Enabled(s, a) && Tokens(s) && Leased(s, ttl)
    ensures Leased(Next(s, a, ttl), ttl)
  {
    var s' := Next(s, a, ttl);
    forall c | IsLive(s', PhaseOf(s', c), ttl)
      ensures KeyOf(PhaseOf(s', c)) in s'.store
      ensures s'.store[KeyOf(PhaseOf(s', c))] == Lease(PhaseOf(s', c).token, PhaseOf(s', c).at + ttl)
    {
      if !(a.Acquire? && a.client == c) {
        assert IsLive(s, PhaseOf(s, c), ttl);
      }
    }
  }

  lemma {:induction false} RunsKeepLeases(run: seq<Action>, ttl: nat)
    requires IsRun(run, ttl)
    ensures Tokens(Final(run, ttl)) && Leased(Final(run, ttl), ttl)
  {
    if run != [] {
      var s, a := Final(run[..|run| - 1], ttl), run[|run| - 1];
      RunsKeepLeases(run[..|run| - 1], ttl);
      StepKeepsTokens(s, a, ttl);
      StepKeepsLeased(s, a, ttl);
    }
  }

  /** Two clients never hold unexpired leases on one key. */
  lemma LeasesExclude(run: seq<Action>, ttl: nat, c: nat, d: nat)
    requires IsRun(run, ttl)
    requires IsLive(Final(run, ttl), PhaseOf(Final(run, ttl), c), ttl)
             && IsLive(Final(run, ttl), PhaseOf(Final(run, ttl), d), ttl)
    requires KeyOf(PhaseOf(Final(run, ttl), c)) == KeyOf(PhaseOf(Final(run, ttl), d))
    ensures c == d
  {
    RunsKeepLeases(run, ttl);
  }

  /** Releasing never removes a lease that somebody else still holds, however late it comes. */
  lemma ReleaseSparesOthers(run: seq<Action>, ttl: nat, c: nat, d: nat)
    requires IsRun(run, ttl) && Enabled(Final(run, ttl), Release(c)) && c != d
    requires IsLive(Final(run, ttl), PhaseOf(Final(run, ttl), d), ttl)
    ensures var key := KeyOf(PhaseOf(Final(run, ttl), d));
            key in Next(Final(run, ttl), Release(c), ttl).store
            && Next(Final(run, ttl), Release(c), ttl).store[key] == Final(run, ttl).store[key]
  {
    RunsKeepLeases(run, ttl);
  }

  /** A holder whose lease has not run out frees the key by releasing. */
  lemma ReleaseFrees(run: seq<Action>, ttl: nat, c: nat)
    requires IsRun(run, ttl) && Enabled(Final(run, ttl), Release(c))
    requires IsLive(Final(run, ttl), PhaseOf(Final(run, ttl), c), ttl)
    ensures KeyOf(PhaseOf(Final(run, ttl), c)) !in Next(Final(run, ttl), Release(c), ttl).store
  {
    RunsKeepLeases(run, ttl);
  }

  /** Even if every holder dies, any key is free again one lease later. */
  lemma {:induction false} LeasesRunOut(run: seq<Action>, ttl: nat, key: string)
    requires IsRun(run, ttl)
    ensures IsFree(Final(run, ttl).store, key, Final(run, ttl).now + ttl)
  {
    if run != [] {
      LeasesRunOut(run[..|run| - 1], ttl, key);
    }
  }

  // ----- At most one open conversation per visitor

  /** Every insert of the run happens before its client's lease runs out. */
  ghost predicate IsPunctual(run: seq<Action>, ttl: nat)
    requires IsRun(run, ttl)
  {
    run == [] ||
    (var s, a := Final(run[..|run| - 1], ttl), run[|run| - 1];
     IsPunctual(run[..|run| - 1], ttl) && (a.Insert? ==> IsLive(s, PhaseOf(s, a.client), ttl)))
  }

  ghost predicate OneOpen(conversations: map<nat, Conversation>) {
    forall i, j, site, visitor | i in conversations && j in conversations
      :: IsOpenFor(conversations[i], site, visitor) && IsOpenFor(conversations[j], site, visitor) ==> i == j
  }

  ghost predicate NoneOpen(conversations: map<nat, Conversation>, site: string, visitor: string) {
    forall i :: i in conversations ==> !IsOpenFor(conversations[i], site, visitor)
  }

  /** A client that looked, found nothing and still holds its lease is right that there is nothing. */
  ghost predicate LooksHold(s: World, ttl: nat) {
    forall c :: PhaseOf(s, c).Checked? && IsLive(s, PhaseOf(s, c), ttl) ==>
      NoneOpen(s.conversations, PhaseOf(s, c).site, PhaseOf(s, c).visitor)
  }

  ghost predicate IdsBelow(s: World) {
    forall i :: i in s.conversations ==> i < s.nextConversation
  }

  lemma StepKeepsLooks(s: World, a: Action, ttl: nat)
    requires Enabled(s, a) && Tokens(s) && Leased(s, ttl) && LooksHold(s, ttl) && IdsBelow(s)
    requires a.Insert? ==> IsLive(s, PhaseOf(s, a.client), ttl)
    ensures LooksHold(Next(s, a, ttl), ttl) && IdsBelow(Next(s, a, ttl))
  {
    var s' := Next(s, a, ttl);
    forall c | PhaseOf(s', c).Checked? && IsLive(s', PhaseOf(s', c), ttl)
      ensures NoneOpen(s'.conversations, PhaseOf(s', c).site, PhaseOf(s', c).visitor)
    {
      assert IsLive(s, PhaseOf(s, c), ttl);
    }
  }

  /** If no insert comes after its lease has run out, a visitor never has two open conversations. */
  lemma {:induction false} OneOpenPerVisitor(run: seq<Action>, ttl: nat)
    requires IsRun(run, ttl) && IsPunctual(run, ttl)
    ensures OneOpen(Final(run, ttl).conversations)
    ensures LooksHold(Final(run, ttl), ttl) && IdsBelow(Final(run, ttl))
  {
    if run != [] {
      var s, a := Final(run[..|run| - 1], ttl), run[|run| - 1];
      OneOpenPerVisitor(run[..|run| - 1], ttl);
      RunsKeepLeases(run[..|run| - 1], ttl);
      StepKeepsLooks(s, a, ttl);
      StepKeepsOneOpen(s, a, ttl);
    }
  }

  lemma StepKeepsOneOpen(s: World, a: Action, ttl: nat)
    requires Enabled(s, a) && LooksHold(s, ttl) && OneOpen(s.conversations)
    requires a.Insert? ==> IsLive(s, PhaseOf(s, a.client), ttl)
    ensures OneOpen(Next(s, a, ttl).conversations)
  {
    if a.Insert? {
      assert NoneOpen(s.conversations, PhaseOf(s, a.client).site, PhaseOf(s, a.client).visitor);
    }
  }

  /** A step breaks the rule exactly when it inserts for a visitor who has an open conversation by then. */
  lemma OnlyStaleInsertsDuplicate(s: World, a: Action, ttl: nat)
    requires Enabled(s, a) && IdsBelow(s) && OneOpen(s.conversations)
    ensures OneOpen(Next(s, a, ttl).conversations)
            <==> (a.Insert? ==> NoneOpen(s.conversations, PhaseOf(s, a.client).site, PhaseOf(s, a.client).visitor))
  {
    if a.Insert? && !NoneOpen(s.conversations, PhaseOf(s, a.client).site, PhaseOf(s, a.client).visitor) {
      var p, all := PhaseOf(s, a.client), Next(s, a, ttl).conversations;
      var i :| i in s.conversations && IsOpenFor(s.conversations[i], p.site, p.visitor);
      assert IsOpenFor(all[i], p.site, p.visitor) && IsOpenFor(all[s.nextConversation], p.site, p.visitor);
    }
  }

  /**
    In a run whose inserts have all been in time so far, the next step breaks the rule exactly when it is an insert
    that comes after its lease has run out and finds the visitor with an open conversation.
   */
  lemma OnlyExpiredInsertsDuplicate(run: seq<Action>, ttl: nat, a: Action)
    requires IsRun(run, ttl) && IsPunctual(run, ttl) && Enabled(Final(run, ttl), a)
    ensures var s := Final(run, ttl);
            !OneOpen(Next(s, a, ttl).conversations) <==>
            && a.Insert? && !IsLive(s, PhaseOf(s, a.client), ttl)
            && !NoneOpen(s.conversations, PhaseOf(s, a.client).site, PhaseOf(s, a.client).visitor)
  {
    OneOpenPerVisitor(run, ttl);
    OnlyStaleInsertsDuplicate(Final(run, ttl), a, ttl);
  }

  // ----- A late insert does break it

  function LateRun(ttl: nat): seq<Action> {
    [Begin(0, "s", "v"), Acquire(0), Look(0), Tick(ttl), Begin(1, "s", "v"), Acquire(1), Look(1), Insert(1), Insert(0)]
  }

  function LateState(ttl: nat, i: nat): World {
    var key := LockKey("s", "v");
    var first, second := map[key := Lease(0, ttl)], map[key := Lease(1, ttl + ttl)];
    var row := Conversation("s", "v", true, None, None, None, None, None, None);
    if i == 0 then START
    else if i == 1 then World(0, map[], map[0 := Waiting("s", "v", 0)], map[], 1, 1)
    else if i == 2 then World(0, first, map[0 := Locked("s", "v", 0, 0)], map[], 1, 1)
    else if i == 3 then World(0, first, map[0 := Checked("s", "v", 0, 0)], map[], 1, 1)
    else if i == 4 then World(ttl, first, map[0 := Checked("s", "v", 0, 0)], map[], 1, 1)
    else if i == 5 then World(ttl, first, map[0 := Checked("s", "v", 0, 0), 1 := Waiting("s", "v", 1)], map[], 1, 2)
    else if i == 6 then World(ttl, second, map[0 := Checked("s", "v", 0, 0), 1 := Locked("s", "v", 1, ttl)], map[],
                              1, 2)
    else if i == 7 then World(ttl, second, map[0 := Checked("s", "v", 0, 0), 1 := Checked("s", "v", 1, ttl)], map[],
                              1, 2)
    else if i == 8 then
      World(ttl, second, map[0 := Checked("s", "v", 0, 0), 1 := Leaving("s", "v", 1, ttl)], map[1 := row], 2, 2)
    else World(ttl, second, map[0 := Leaving("s", "v", 0, 0), 1 := Leaving("s", "v", 1, ttl)],
               map[1 := row, 2 := row], 3, 2)
  }

  lemma {:induction false} LatePrefix(ttl: nat, i: nat)
    requires i <= 9
    ensures IsRun(LateRun(ttl)[..i], ttl) && Final(LateRun(ttl)[..i], ttl) == LateState(ttl, i)
  {
    if i > 0 {
      LatePrefix(ttl, i - 1);
      LateStep(ttl, i - 1);
      assert LateRun(ttl)[..i][..i - 1] == LateRun(ttl)[..i - 1];
    }
  }

  lemma LateStep(ttl: nat, i: nat)
    requires i < 9
    ensures Enabled(LateState(ttl, i), LateRun(ttl)[i])
    ensures Next(LateState(ttl, i), LateRun(ttl)[i], ttl) == LateState(ttl, i + 1)
  {
    if i == 2 || i == 6 {
      assert LatestOpen(map[], "s", "v", 1).None?;
    }
    var n, s' := Next(LateState(ttl, i), LateRun(ttl)[i], ttl), LateState(ttl, i + 1);
    assert n.store == s'.store && n.conversations == s'.conversations;
    assert n.clients == s'.clients;
  }

  /** A client that sleeps through its lease between looking and inserting makes a second open conversation. */
  lemma LateInsertDuplicates(ttl: nat)
    ensures IsRun(LateRun(ttl), ttl) && !IsPunctual(LateRun(ttl), ttl)
    ensures !OneOpen(Final(LateRun(ttl), ttl).conversations)
  {
    LatePrefix(ttl, 8);
    LatePrefix(ttl, 9);
    assert LateRun(ttl)[..9] == LateRun(ttl);
    var convs := Final(LateRun(ttl), ttl).conversations;
    assert IsOpenFor(convs[1], "s", "v") && IsOpenFor(convs[2], "s", "v");
  }

  // ----- The retry loop

  /** What one attempt finds: the store, or no store at all. */
  datatype Visit = Visit(now: nat, store: map<string, Lease>) | Unreachable

  datatype LockResult = Acquired(attempt: nat, store: map<string, Lease>) | Failed(attempt: nat) | GaveUp | BadKey

  const DEFAULT_TTL_MILLIS: nat := 5000

  /** The attempt finds the store with the key taken. */
  predicate IsBusy(v: Visit, name: string) {
    v.Visit? && !IsFree(v.store, name, v.now)
  }

  /** Retries SETNX at every visit until it succeeds, the store fails or the caller's patience ends. */
  method Lock(prefix: string, key: string, token: nat, ttl: int, visits: seq<Visit>) returns (r: LockResult)
    ensures r.BadKey? <==> Text.Trim(key) == ""
    ensures var name := prefix + ":" + Text.Trim(key);
            && (r.GaveUp? ==> forall i :: 0 <= i < |visits| ==> IsBusy(visits[i], name))
            && (r.Failed? || r.Acquired? ==>
                  r.attempt < |visits| && forall i :: 0 <= i < r.attempt ==> IsBusy(visits[i], name))
            && (r.Failed? ==> visits[r.attempt].Unreachable?)
            && (r.Acquired? ==>
                  && visits[r.attempt].Visit? && IsFree(visits[r.attempt].store, name, visits[r.attempt].now)
                  && r.store == visits[r.attempt].store[name :=
                       Lease(token, visits[r.attempt].now + if ttl <= 0 then DEFAULT_TTL_MILLIS else ttl)])
  {
    var trimmed := Text.Trim(key);
    if trimmed == "" {
      return BadKey;
    }
    var name, lease := prefix + ":" + trimmed, if ttl <= 0 then DEFAULT_TTL_MILLIS else ttl;
    for i := 0 to |visits|
      invariant forall k :: 0 <= k < i ==> IsBusy(visits[k], name)
    {
      if visits[i].Unreachable? {
        return Failed(i);
      }
      var store := visits[i].store;
      if name !in store || store[name].expiresAt <= visits[i].now {
        return Acquired(i, store[name := Lease(token, visits[i].now + lease)]);
      }
    }
    r := GaveUp;
  }
}
