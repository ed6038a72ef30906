/**
 Refresh tokens and the blacklist in two backends: Redis keys that expire by themselves, with a
 per-user index for bulk revocation, against plain maps that are scanned. Tokens appear as their
 hashes, times are in milliseconds.
 */
module Tokens {
  import opened Common

  datatype Record = Record(user: nat, expiresAt: int)
  datatype Index = Index(members: set<nat>, expiresAt: int)
  datatype Redis = Redis(now: int, records: map<nat, Record>, index: map<nat, Index>, blacklist: map<nat, int>)

  datatype Metadata = Metadata(user: nat, expiresAt: int, revokedAt: Option<int>)
  datatype Memory = Memory(now: int, tokens: map<nat, Metadata>, blacklist: map<nat, int>)

  datatype Op =
    | Store(user: nat, hash: nat, seconds: nat)
    | Revoke(hash: nat)
    | RevokeAll(user: nat)
    | Blacklist(hash: nat, seconds: nat)
    | Probe(hash: nat)
    | Cleanup
    | Wait(ms: nat)

  // ---------- answers ----------

  /** An expired Redis key reads as absent. */
  function RedisGet(r: Redis, hash: nat): Option<Record> {
    if hash in r.records && r.now < r.records[hash].expiresAt then Some(r.records[hash]) else None
  }

  function RedisValidate(r: Redis, hash: nat): Option<nat> {
    var data := RedisGet(r, hash);
    if data.Some? && data.value.expiresAt > r.now then Some(data.value.user) else None
  }

  function MemoryValidate(m: Memory, hash: nat): Option<nat> {
    if hash in m.tokens && m.tokens[hash].expiresAt > m.now && m.tokens[hash].revokedAt.None? then Some(m.tokens[hash].user) else None
  }

  predicate RedisBlacklisted(r: Redis, hash: nat) {
    hash in r.blacklist && r.now < r.blacklist[hash]
  }

  predicate MemoryBlacklisted(m: Memory, hash: nat) {
    hash in m.blacklist && m.blacklist[hash] > m.now
  }

  /** The members of a user's index; an expired index reads as empty. */
  function Members(r: Redis, user: nat): set<nat> {
    if user in r.index && r.now < r.index[user].expiresAt then r.index[user].members else {}
  }

  // ---------- the two backends ----------

  function RedisStep(r: Redis, op: Op): Redis {
    match op
    case Store(user, hash, seconds) =>
      var expiresAt := r.now + seconds * 1000;
      r.(records := r.records[hash := Record(user, expiresAt)],
         index := r.index[user := Index(Members(r, user) + {hash}, expiresAt)])
    case Revoke(hash) =>
      var data := RedisGet(r, hash);
      var index :=
        if data.Some? && Members(r, data.value.user) != {} then
          var user := data.value.user;
          r.index[user := r.index[user].(members := r.index[user].members - {hash})]
        else r.index;
      r.(records := r.records - {hash}, index := index)
    case RevokeAll(user) =>
      if Members(r, user) == {} then r
      else r.(records := r.records - Members(r, user), index := r.index - {user})
    case Blacklist(hash, seconds) => r.(blacklist := r.blacklist[hash := r.now + seconds * 1000])
    case Probe(_) => r
    case Cleanup => r
    case Wait(ms) => r.(now := r.now + ms)
  }

  function RevokeUser(tokens: map<nat, Metadata>, user: nat, at: int): map<nat, Metadata> {
    map h | h in tokens :: if tokens[h].user == user && tokens[h].revokedAt.None? then tokens[h].(revokedAt := Some(at)) else tokens[h]
  }

  function MemoryStep(m: Memory, op: Op): Memory {
    match op
    case Store(user, hash, seconds) => m.(tokens := m.tokens[hash := Metadata(user, m.now + seconds * 1000, None)])
    case Revoke(hash) =>
      if hash in m.tokens then m.(tokens := m.tokens[hash := m.tokens[hash].(revokedAt := Some(m.now))]) else m
    case RevokeAll(user) => m.(tokens := RevokeUser(m.tokens, user, m.now))
    case Blacklist(hash, seconds) => m.(blacklist := m.blacklist[hash := m.now + seconds * 1000])
    case Probe(hash) => if hash in m.blacklist && m.blacklist[hash] <= m.now then m.(blacklist := m.blacklist - {hash}) else m
    case Cleanup =>
      m.(blacklist := map h | h in m.blacklist && m.blacklist[h] > m.now :: m.blacklist[h],
         tokens := map h | h in m.tokens && m.tokens[h].expiresAt > m.now :: m.tokens[h])
    case Wait(ms) => m.(now := m.now + ms)
  }

  // ---------- simulation ----------

  /** The backends answer alike about one hash, and agree until when. */
  ghost predicate HashAgrees(r: Redis, m: Memory, h: nat) {
    && RedisValidate(r, h) == MemoryValidate(m, h)
    && (RedisValidate(r, h).Some? ==> r.records[h].expiresAt == m.tokens[h].expiresAt)
    && (RedisBlacklisted(r, h) <==> MemoryBlacklisted(m, h))
    && (RedisBlacklisted(r, h) ==> r.blacklist[h] == m.blacklist[h])
  }

  /** A live token is in exactly its own user's index, which lives at least as long. */
  ghost predicate IndexRight(r: Redis, u: nat, h: nat) {
    RedisGet(r, h).Some? ==>
      && (h in Members(r, u) <==> r.records[h].user == u)
      && (r.records[h].user == u ==> u in r.index && r.index[u].expiresAt >= r.records[h].expiresAt)
  }

  ghost predicate Simulates(r: Redis, m: Memory) {
    && r.now == m.now
    && (forall h :: HashAgrees(r, m, h))
    && (forall u, h :: IndexRight(r, u, h))
  }

  /** The new index lifetime covers the user's other live tokens, and the token is in nobody else's index. */
  ghost predicate StoreAdmissible(r: Redis, user: nat, hash: nat, seconds: nat) {
    && (forall h :: h != hash && RedisValidate(r, h) == Some(user) ==> r.records[h].expiresAt <= r.now + seconds * 1000)
    && (forall u :: u != user ==> hash !in Members(r, u))
  }

  ghost predicate Admissible(r: Redis, op: Op) {
    op.Store? ==> op.seconds > 0 && StoreAdmissible(r, op.user, op.hash, op.seconds)
  }

  lemma StepKeepsHash(r: Redis, m: Memory, op: Op, h: nat)
    requires r.now == m.now && HashAgrees(r, m, h) && Admissible(r, op)
    requires op.RevokeAll? ==> IndexRight(r, op.user, h)
    ensures HashAgrees(RedisStep(r, op), MemoryStep(m, op), h)
  {
  }

  lemma StepKeepsIndex(r: Redis, op: Op, u: nat, h: nat)
    requires IndexRight(r, u, h) && Admissible(r, op)
    ensures IndexRight(RedisStep(r, op), u, h)
  {
    match op
    case Store(user, hash, seconds) =>
      if h != hash && RedisGet(r, h).Some? && r.records[h].user == user {
        assert RedisValidate(r, h) == Some(user);
      }
      if u != user {
        assert hash !in Members(r, u);
        assert Members(RedisStep(r, op), u) == Members(r, u);
      } else {
        assert Members(RedisStep(r, op), u) == Members(r, u) + {hash};
      }
    case _ =>
  }

  /** One step of both backends keeps them in agreement, cleanup and probing included. */
  lemma StepSimulates(r: Redis, m: Memory, op: Op)
    requires Simulates(r, m) && Admissible(r, op)
    ensures Simulates(RedisStep(r, op), MemoryStep(m, op))
  {
    hide HashAgrees, IndexRight, Admissible;
    var r1, m1 := RedisStep(r, op), MemoryStep(m, op);
    forall h
      ensures HashAgrees(r1, m1, h)
    {
      assert HashAgrees(r, m, h);
      if op.RevokeAll? {
        assert IndexRight(r, op.user, h);
      }
      StepKeepsHash(r, m, op, h);
    }
    forall u, h
      ensures IndexRight(r1, u, h)
    {
      assert IndexRight(r, u, h);
      StepKeepsIndex(r, op, u, h);
    }
  }

  // ---------- every run ----------

  function RunRedis(r: Redis, ops: seq<Op>): Redis {
    if ops == [] then r else RedisStep(RunRedis(r, ops[..|ops| - 1]), ops[|ops| - 1])
  }

  function RunMemory(m: Memory, ops: seq<Op>): Memory {
    if ops == [] then m else MemoryStep(RunMemory(m, ops[..|ops| - 1]), ops[|ops| - 1])
  }

  ghost predicate AdmissibleRun(r: Redis, ops: seq<Op>) {
    ops == [] || (AdmissibleRun(r, ops[..|ops| - 1]) && Admissible(RunRedis(r, ops[..|ops| - 1]), ops[|ops| - 1]))
  }

  lemma {:induction false} RunsSimulate(now: int, ops: seq<Op>)
    requires AdmissibleRun(Redis(now, map[], map[], map[]), ops)
    ensures Simulates(RunRedis(Redis(now, map[], map[], map[]), ops), RunMemory(Memory(now, map[], map[]), ops))
  {
    if ops != [] {
      RunsSimulate(now, ops[..|ops| - 1]);
      StepSimulates(RunRedis(Redis(now, map[], map[], map[]), ops[..|ops| - 1]), RunMemory(Memory(now, map[], map[]), ops[..|ops| - 1]), ops[|ops| - 1]);
    }
  }

  /** Every token is stored for its one owner and with the one lifetime. */
  ghost predicate OneLifetimeOneOwner(ops: seq<Op>, lifetime: nat, owner: nat -> nat) {
    forall i :: 0 <= i < |ops| && ops[i].Store? ==> ops[i].seconds == lifetime && ops[i].user == owner(ops[i].hash)
  }

  /** What one lifetime and one owner leave in Redis: nothing outlives a token stored now, and indexes never mix owners. */
  ghost predicate Fixed(r: Redis, lifetime: nat, owner: nat -> nat) {
    && (forall h :: h in r.records ==> r.records[h].expiresAt <= r.now + lifetime * 1000)
    && (forall u, h :: u in r.index && h in r.index[u].members ==> owner(h) == u)
  }

  lemma MembersAreOwned(r: Redis, lifetime: nat, owner: nat -> nat, u: nat, h: nat)
    requires Fixed(r, lifetime, owner)
    ensures h in Members(r, u) ==> owner(h) == u
  {
  }

  lemma StepKeepsFixed(r: Redis, op: Op, lifetime: nat, owner: nat -> nat)
    requires Fixed(r, lifetime, owner) && (op.Store? ==> op.seconds == lifetime && op.user == owner(op.hash))
    ensures Fixed(RedisStep(r, op), lifetime, owner)
    ensures lifetime > 0 ==> Admissible(r, op)
  {
    if op.Store? && lifetime > 0 {
      forall u | u != op.user
        ensures op.hash !in Members(r, u)
      {
        MembersAreOwned(r, lifetime, owner, u, op.hash);
      }
    }
  }

  lemma {:induction false} FixedLifetimeIsAdmissible(r0: Redis, ops: seq<Op>, lifetime: nat, owner: nat -> nat)
    requires OneLifetimeOneOwner(ops, lifetime, owner) && lifetime > 0 && r0.records == map[] && r0.index == map[]
    ensures AdmissibleRun(r0, ops) && Fixed(RunRedis(r0, ops), lifetime, owner)
  {
    if ops != [] {
      hide Fixed, RedisStep, Admissible;
      FixedLifetimeIsAdmissible(r0, ops[..|ops| - 1], lifetime, owner);
      assert ops[|ops| - 1].Store? ==> ops[|ops| - 1].seconds == lifetime;
      StepKeepsFixed(RunRedis(r0, ops[..|ops| - 1]), ops[|ops| - 1], lifetime, owner);
    }
  }

  /**
   With one token lifetime and one user per token, after any sequence of stores, revocations by token,
   by hash or for a whole user, blacklistings, cleanups and clock steps, both backends give the same
   answer about every token.
   */
  lemma BackendsAgree(now: int, ops: seq<Op>, lifetime: nat, owner: nat -> nat, h: nat)
    requires OneLifetimeOneOwner(ops, lifetime, owner) && lifetime > 0
    ensures var (r, m) := (RunRedis(Redis(now, map[], map[], map[]), ops), RunMemory(Memory(now, map[], map[]), ops));
      RedisValidate(r, h) == MemoryValidate(m, h) && (RedisBlacklisted(r, h) <==> MemoryBlacklisted(m, h))
  {
    FixedLifetimeIsAdmissible(Redis(now, map[], map[], map[]), ops, lifetime, owner);
    RunsSimulate(now, ops);
    assert HashAgrees(RunRedis(Redis(now, map[], map[], map[]), ops), RunMemory(Memory(now, map[], map[]), ops), h);
  }

  /** Bulk revocation through the index kills exactly the user's live tokens. */
  lemma RevokeAllIsExact(r: Redis, m: Memory, user: nat, h: nat)
    requires Simulates(r, m)
    ensures RedisValidate(RedisStep(r, RevokeAll(user)), h)
      == if RedisValidate(r, h) == Some(user) then None else RedisValidate(r, h)
    ensures Members(RedisStep(r, RevokeAll(user)), user) == {}
  {
    assert IndexRight(r, user, h);
  }

  // ---------- what an operation means for later answers ----------

  /** The time that passes over a run. */
  function Elapsed(ops: seq<Op>): nat {
    if ops == [] then 0 else Elapsed(ops[..|ops| - 1]) + if ops[|ops| - 1].Wait? then ops[|ops| - 1].ms else 0
  }

  predicate Stores(op: Op, h: nat) {
    op.Store? && op.hash == h
  }

  /** The run does not store the token. */
  ghost predicate NeverStores(ops: seq<Op>, h: nat) {
    forall i :: 0 <= i < |ops| ==> !Stores(ops[i], h)
  }

  /** The run neither stores nor revokes the token, alone or with its user's others. */
  ghost predicate LeavesAlone(ops: seq<Op>, u: nat, h: nat) {
    NeverStores(ops, h) && forall i :: 0 <= i < |ops| ==> ops[i] != Revoke(h) && ops[i] != RevokeAll(u)
  }

  ghost predicate NeverBlacklists(ops: seq<Op>, h: nat) {
    forall i :: 0 <= i < |ops| ==> !(ops[i].Blacklist? && ops[i].hash == h)
  }

  /** Revoking a token makes neither backend accept it and changes no other answer of either. */
  lemma RevokeIsExact(r: Redis, m: Memory, h: nat, other: nat)
    ensures var (r1, m1) := (RedisStep(r, Revoke(h)), MemoryStep(m, Revoke(h)));
      && RedisValidate(r1, other) == (if other == h then None else RedisValidate(r, other))
      && MemoryValidate(m1, other) == (if other == h then None else MemoryValidate(m, other))
      && (RedisBlacklisted(r1, other) <==> RedisBlacklisted(r, other))
      && (MemoryBlacklisted(m1, other) <==> MemoryBlacklisted(m, other))
      && (RedisGet(r, h).Some? ==> Members(r1, r.records[h].user) == Members(r, r.records[h].user) - {h})
  {
  }

  lemma {:induction false} DeadStaysDeadInRedis(r: Redis, ops: seq<Op>, h: nat)
    requires RedisValidate(r, h).None? && NeverStores(ops, h)
    ensures RedisValidate(RunRedis(r, ops), h).None?
  {
    if ops != [] {
      DeadStaysDeadInRedis(r, ops[..|ops| - 1], h);
      assert !Stores(ops[|ops| - 1], h);
    }
  }

  lemma {:induction false} DeadStaysDeadInMemory(m: Memory, ops: seq<Op>, h: nat)
    requires MemoryValidate(m, h).None? && NeverStores(ops, h)
    ensures MemoryValidate(RunMemory(m, ops), h).None?
  {
    if ops != [] {
      DeadStaysDeadInMemory(m, ops[..|ops| - 1], h);
      assert !Stores(ops[|ops| - 1], h);
    }
  }

  /** From any state of both backends, a revoked token is refused, whatever happens, until it is stored again. */
  lemma RevokedUntilStored(r: Redis, m: Memory, h: nat, ops: seq<Op>)
    requires NeverStores(ops, h)
    ensures RedisValidate(RunRedis(RedisStep(r, Revoke(h)), ops), h) == None
    ensures MemoryValidate(RunMemory(MemoryStep(m, Revoke(h)), ops), h) == None
  {
    hide RedisStep, MemoryStep, RedisValidate, MemoryValidate;
    RevokeIsExact(r, m, h, h);
    DeadStaysDeadInRedis(RedisStep(r, Revoke(h)), ops, h);
    DeadStaysDeadInMemory(MemoryStep(m, Revoke(h)), ops, h);
  }

  /** So are all tokens of a user whose tokens were revoked together. */
  lemma AllRevokedUntilStored(r: Redis, m: Memory, user: nat, h: nat, ops: seq<Op>)
    requires Simulates(r, m) && RedisValidate(r, h) == Some(user) && NeverStores(ops, h)
    ensures RedisValidate(RunRedis(RedisStep(r, RevokeAll(user)), ops), h) == None
    ensures MemoryValidate(RunMemory(MemoryStep(m, RevokeAll(user)), ops), h) == None
  {
    RevokeAllIsExact(r, m, user, h);
    assert HashAgrees(r, m, h);
    DeadStaysDeadInRedis(RedisStep(r, RevokeAll(user)), ops, h);
    DeadStaysDeadInMemory(MemoryStep(m, RevokeAll(user)), ops, h);
  }

  /** A stored token is its entry in memory until it expires, when a cleanup may drop it. */
  lemma {:induction false} StoredInMemory(m: Memory, u: nat, h: nat, seconds: nat, ops: seq<Op>)
    requires LeavesAlone(ops, u, h)
    ensures var m1 := RunMemory(MemoryStep(m, Store(u, h, seconds)), ops);
      && m1.now == m.now + Elapsed(ops)
      && (h in m1.tokens ==> m1.tokens[h] == Metadata(u, m.now + seconds * 1000, None))
      && (h !in m1.tokens ==> m1.now >= m.now + seconds * 1000)
  {
    if ops != [] {
      StoredInMemory(m, u, h, seconds, ops[..|ops| - 1]);
      assert !Stores(ops[|ops| - 1], h) && ops[|ops| - 1] != Revoke(h) && ops[|ops| - 1] != RevokeAll(u);
    }
  }

  lemma {:induction false} AgreeFurther(r: Redis, m: Memory, ops: seq<Op>)
    requires Simulates(r, m) && AdmissibleRun(r, ops)
    ensures Simulates(RunRedis(r, ops), RunMemory(m, ops))
  {
    if ops != [] {
      hide Simulates, Admissible, RedisStep, MemoryStep;
      AgreeFurther(r, m, ops[..|ops| - 1]);
      StepSimulates(RunRedis(r, ops[..|ops| - 1]), RunMemory(m, ops[..|ops| - 1]), ops[|ops| - 1]);
    }
  }

  /** A stored token is accepted for its user for exactly its lifetime, in both backends, on every run that leaves it alone. */
  lemma StoredForItsLifetime(r: Redis, m: Memory, u: nat, h: nat, seconds: nat, ops: seq<Op>)
    requires Simulates(r, m) && Admissible(r, Store(u, h, seconds)) && AdmissibleRun(RedisStep(r, Store(u, h, seconds)), ops)
    requires LeavesAlone(ops, u, h)
    ensures var (r1, m1) := (RunRedis(RedisStep(r, Store(u, h, seconds)), ops), RunMemory(MemoryStep(m, Store(u, h, seconds)), ops));
      RedisValidate(r1, h) == MemoryValidate(m1, h) == if Elapsed(ops) < seconds * 1000 then Some(u) else None
  {
    hide Admissible, RedisStep, MemoryStep, IndexRight;
    StepSimulates(r, m, Store(u, h, seconds));
    AgreeFurther(RedisStep(r, Store(u, h, seconds)), MemoryStep(m, Store(u, h, seconds)), ops);
    assert HashAgrees(RunRedis(RedisStep(r, Store(u, h, seconds)), ops), RunMemory(MemoryStep(m, Store(u, h, seconds)), ops), h);
    StoredInMemory(m, u, h, seconds, ops);
  }

  lemma {:induction false} BlacklistedInRedis(r: Redis, h: nat, seconds: nat, ops: seq<Op>)
    requires NeverBlacklists(ops, h)
    ensures var r1 := RunRedis(RedisStep(r, Blacklist(h, seconds)), ops);
      r1.now == r.now + Elapsed(ops) && h in r1.blacklist && r1.blacklist[h] == r.now + seconds * 1000
  {
    if ops != [] {
      BlacklistedInRedis(r, h, seconds, ops[..|ops| - 1]);
    }
  }

  lemma {:induction false} BlacklistedInMemory(m: Memory, h: nat, seconds: nat, ops: seq<Op>)
    requires NeverBlacklists(ops, h)
    ensures var m1 := RunMemory(MemoryStep(m, Blacklist(h, seconds)), ops);
      && m1.now == m.now + Elapsed(ops)
      && (h in m1.blacklist ==> m1.blacklist[h] == m.now + seconds * 1000)
      && (h !in m1.blacklist ==> m1.now >= m.now + seconds * 1000)
  {
    if ops != [] {
      BlacklistedInMemory(m, h, seconds, ops[..|ops| - 1]);
    }
  }

  /** A blacklisted token is on the list for exactly the given time, in both backends, whatever else happens. */
  lemma BlacklistedForItsTime(r: Redis, m: Memory, h: nat, seconds: nat, ops: seq<Op>)
    requires NeverBlacklists(ops, h)
    ensures RedisBlacklisted(RunRedis(RedisStep(r, Blacklist(h, seconds)), ops), h) <==> Elapsed(ops) < seconds * 1000
    ensures MemoryBlacklisted(RunMemory(MemoryStep(m, Blacklist(h, seconds)), ops), h) <==> Elapsed(ops) < seconds * 1000
  {
    BlacklistedInRedis(r, h, seconds, ops);
    BlacklistedInMemory(m, h, seconds, ops);
  }

  /** Storing or blacklisting one token changes no answer about another, nor the one list for the other. */
  lemma OthersUntouched(r: Redis, m: Memory, u: nat, h: nat, seconds: nat, other: nat)
    requires other != h
    ensures RedisValidate(RedisStep(r, Store(u, h, seconds)), other) == RedisValidate(r, other)
    ensures MemoryValidate(MemoryStep(m, Store(u, h, seconds)), other) == MemoryValidate(m, other)
    ensures RedisBlacklisted(RedisStep(r, Blacklist(h, seconds)), other) <==> RedisBlacklisted(r, other)
    ensures MemoryBlacklisted(MemoryStep(m, Blacklist(h, seconds)), other) <==> MemoryBlacklisted(m, other)
    ensures RedisValidate(RedisStep(r, Blacklist(h, seconds)), h) == RedisValidate(r, h)
    ensures MemoryValidate(MemoryStep(m, Blacklist(h, seconds)), h) == MemoryValidate(m, h)
    ensures RedisBlacklisted(RedisStep(r, Store(u, h, seconds)), h) <==> RedisBlacklisted(r, h)
    ensures MemoryBlacklisted(MemoryStep(m, Store(u, h, seconds)), h) <==> MemoryBlacklisted(m, h)
  {
  }

  /** A token never blacklisted, starting with empty lists, is on neither. */
  lemma {:induction false} NeverBlacklistedIsNot(now: int, h: nat, ops: seq<Op>)
    requires NeverBlacklists(ops, h)
    ensures h !in RunRedis(Redis(now, map[], map[], map[]), ops).blacklist && h !in RunMemory(Memory(now, map[], map[]), ops).blacklist
  {
    if ops != [] {
      NeverBlacklistedIsNot(now, h, ops[..|ops| - 1]);
    }
  }

  // ---------- exactly when a store is safe ----------

  /** Store, let time pass, revoke everything of one user: do the backends still agree about the probe? */
  ghost predicate AgreeAfterStore(r: Redis, m: Memory, store: Op, wait: nat, user: nat, probe: nat) {
    var r1 := RedisStep(RedisStep(RedisStep(r, store), Wait(wait)), RevokeAll(user));
    var m1 := MemoryStep(MemoryStep(MemoryStep(m, store), Wait(wait)), RevokeAll(user));
    RedisValidate(r1, probe) == MemoryValidate(m1, probe)
  }

  /** A longer-lived token of the same user outlives the index and so survives the bulk revocation in Redis only. */
  lemma ShorterStoreDiverges(r: Redis, m: Memory, user: nat, hash: nat, seconds: nat, other: nat)
    requires Simulates(r, m) && seconds > 0 && other != hash
    requires RedisValidate(r, other) == Some(user) && r.records[other].expiresAt > r.now + seconds * 1000
    ensures !AgreeAfterStore(r, m, Store(user, hash, seconds), seconds * 1000, user, other)
  {
    assert HashAgrees(r, m, other);
    var r2 := RedisStep(RedisStep(r, Store(user, hash, seconds)), Wait(seconds * 1000));
    assert Members(r2, user) == {};
  }

  /** A token that changes hands is still in its former user's index, which takes it down in Redis only. */
  lemma ReassignedTokenDiverges(r: Redis, m: Memory, user: nat, hash: nat, seconds: nat, former: nat)
    requires Simulates(r, m) && seconds > 0 && former != user && hash in Members(r, former)
    ensures !AgreeAfterStore(r, m, Store(user, hash, seconds), 0, former, hash)
  {
    var r2 := RedisStep(RedisStep(r, Store(user, hash, seconds)), Wait(0));
    assert Members(r2, former) == Members(r, former);
  }

  /** After a store the backends agree on every later bulk revocation exactly when the store was admissible. */
  lemma StoreSafeExactly(r: Redis, m: Memory, user: nat, hash: nat, seconds: nat)
    requires Simulates(r, m) && seconds > 0
    ensures StoreAdmissible(r, user, hash, seconds)
      <==> forall wait, u, probe :: AgreeAfterStore(r, m, Store(user, hash, seconds), wait, u, probe)
  {
    var store := Store(user, hash, seconds);
    if StoreAdmissible(r, user, hash, seconds) {
      StepSimulates(r, m, store);
      forall wait: nat, u: nat, probe: nat
        ensures AgreeAfterStore(r, m, store, wait, u, probe)
      {
        AdmissibleStoreAgrees(RedisStep(r, store), MemoryStep(m, store), wait, u, probe);
      }
    } else if u :| u != user && hash in Members(r, u) {
      ReassignedTokenDiverges(r, m, user, hash, seconds, u);
    } else {
      var h :| h != hash && RedisValidate(r, h) == Some(user) && r.records[h].expiresAt > r.now + seconds * 1000;
      ShorterStoreDiverges(r, m, user, hash, seconds, h);
    }
  }

  lemma AdmissibleStoreAgrees(r: Redis, m: Memory, wait: nat, u: nat, probe: nat)
    requires Simulates(r, m)
    ensures RedisValidate(RedisStep(RedisStep(r, Wait(wait)), RevokeAll(u)), probe)
      == MemoryValidate(MemoryStep(MemoryStep(m, Wait(wait)), RevokeAll(u)), probe)
  {
    StepSimulates(r, m, Wait(wait));
    StepSimulates(RedisStep(r, Wait(wait)), MemoryStep(m, Wait(wait)), RevokeAll(u));
    assert HashAgrees(RedisStep(RedisStep(r, Wait(wait)), RevokeAll(u)), MemoryStep(MemoryStep(m, Wait(wait)), RevokeAll(u)), probe);
  }

  // ---------- the services ----------

  /** The in-memory fallback: two maps, scanned for bulk revocation and for cleanup. */
  class MemoryTokenStore {
    var now: int
    var tokens: map<nat, Metadata>
    var blacklist: map<nat, int>

    constructor (now: int)
      ensures View() == Memory(now, map[], map[])
    {
      this.now, tokens, blacklist := now, map[], map[];
    }

    function View(): Memory
      reads this
    {
      Memory(now, tokens, blacklist)
    }

    method StoreRefreshToken(user: nat, hash: nat, seconds: nat)
      modifies this`tokens
      ensures View() == MemoryStep(old(View()), Store(user, hash, seconds))
    {
      var expiresAt := now + seconds * 1000;
      tokens := tokens[hash := Metadata(user, expiresAt, None)];
    }

    /** Answers, and drops the entry it found expired. */
    method IsBlacklisted(hash: nat) returns (answer: bool)
      modifies this`blacklist
      ensures answer == MemoryBlacklisted(old(View()), hash)
      ensures View() == MemoryStep(old(View()), Probe(hash))
    {
      if hash in blacklist && blacklist[hash] > now {
        return true;
      }
      if hash in blacklist {
        blacklist := blacklist - {hash};
      }
      answer := false;
    }

    method RevokeRefreshTokenHash(hash: nat)
      modifies this`tokens
      ensures View() == MemoryStep(old(View()), Revoke(hash))
    {
      if hash in tokens {
        tokens := tokens[hash := tokens[hash].(revokedAt := Some(now))];
      }
    }

    /** Visits every entry once and counts those it revokes. */
    method RevokeAllUserTokens(user: nat) returns (revokedCount: nat)
      modifies this`tokens
      ensures View() == MemoryStep(old(View()), RevokeAll(user))
      ensures revokedCount == |set h | h in old(tokens) && old(tokens)[h].user == user && old(tokens)[h].revokedAt.None?|
    {
      var todo: set<nat> := tokens.Keys;
      ghost var revoked: set<nat> := {};
      revokedCount := 0;
      while todo != {}
        invariant todo <= tokens.Keys == old(tokens).Keys
        invariant forall h :: h in todo ==> tokens[h] == old(tokens)[h]
        invariant forall h :: h in tokens && h !in todo ==> tokens[h] == RevokeUser(old(tokens), user, now)[h]
        invariant revoked == set h | h in old(tokens) && h !in todo && old(tokens)[h].user == user && old(tokens)[h].revokedAt.None?
        invariant revokedCount == |revoked|
        decreases todo
      {
        var h :| h in todo;
        if tokens[h].user == user && tokens[h].revokedAt.None? {
          tokens := tokens[h := tokens[h].(revokedAt := Some(now))];
          revokedCount := revokedCount + 1;
          revoked := revoked + {h};
        }
        todo := todo - {h};
      }
      assert tokens == RevokeUser(old(tokens), user, now);
      assert revoked == set h | h in old(tokens) && old(tokens)[h].user == user && old(tokens)[h].revokedAt.None?;
    }

    /** Deletes the expired entries of both maps. */
    method CleanupExpiredEntries()
      modifies this
      ensures View() == MemoryStep(old(View()), Cleanup)
    {
      var todo: set<nat> := blacklist.Keys;
      while todo != {}
        invariant todo <= blacklist.Keys <= old(blacklist).Keys
        invariant forall h :: h in blacklist ==> blacklist[h] == old(blacklist)[h]
        invariant forall h :: h in old(blacklist) && h !in todo ==> (h in blacklist <==> old(blacklist)[h] > now)
        invariant forall h :: h in old(blacklist) && h in todo ==> h in blacklist
        invariant tokens == old(tokens) && now == old(now)
        decreases todo
      {
        var h :| h in todo;
        todo := todo - {h};
        if blacklist[h] <= now {
          blacklist := blacklist - {h};
        }
      }
      todo := tokens.Keys;
      ghost var cleaned := blacklist;
      while todo != {}
        invariant todo <= tokens.Keys <= old(tokens).Keys
        invariant forall h :: h in tokens ==> tokens[h] == old(tokens)[h]
        invariant forall h :: h in old(tokens) && h !in todo ==> (h in tokens <==> old(tokens)[h].expiresAt > now)
        invariant blacklist == cleaned && now == old(now)
        decreases todo
      {
        var h :| h in todo;
        todo := todo - {h};
        if tokens[h].expiresAt <= now {
          tokens := tokens - {h};
        }
      }
    }
  }

  /** The Redis backend: one key per token plus a set of hashes per user. */
  class RedisTokenStore {
    var now: int
    var records: map<nat, Record>
    var index: map<nat, Index>
    var blacklist: map<nat, int>

    constructor (now: int)
      ensures View() == Redis(now, map[], map[], map[])
    {
      this.now, records, index, blacklist := now, map[], map[], map[];
    }

    function View(): Redis
      reads this
    {
      Redis(now, records, index, blacklist)
    }

    /** SET with expiry, then SADD and EXPIRE on the user's index. */
    method StoreRefreshToken(user: nat, hash: nat, seconds: nat)
      modifies this
      ensures View() == RedisStep(old(View()), Store(user, hash, seconds))
    {
      var expiresAt := now + seconds * 1000;
      records := records[hash := Record(user, expiresAt)];
      var members := Members(View(), user) + {hash};
      index := index[user := Index(members, expiresAt)];
    }

    /** GET to learn the user, SREM from its index, DEL. */
    method RevokeRefreshTokenHash(hash: nat)
      modifies this
      ensures View() == RedisStep(old(View()), Revoke(hash))
    {
      var data := RedisGet(View(), hash);
      if data.Some? {
        var user := data.value.user;
        if Members(View(), user) != {} {
          index := index[user := index[user].(members := index[user].members - {hash})];
        }
      }
      records := records - {hash};
    }

    /** SMEMBERS, then one DEL per hash and one for the index. */
    method RevokeAllUserTokens(user: nat) returns (revokedCount: nat)
      modifies this
      ensures View() == RedisStep(old(View()), RevokeAll(user))
      ensures revokedCount == |Members(old(View()), user)|
    {
      var hashes := Members(View(), user);
      revokedCount := 0;
      if hashes != {} {
        var todo := hashes;
        while todo != {}
          invariant todo <= hashes
          invariant records == old(records) - (hashes - todo)
          invariant now == old(now) && index == old(index) && blacklist == old(blacklist)
          decreases todo
        {
          var h :| h in todo;
          records := records - {h};
          todo := todo - {h};
        }
        index := index - {user};
        revokedCount := |hashes|;
      }
    }
  }
}
