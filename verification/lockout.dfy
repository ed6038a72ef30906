/**
 Brute-force protection: a lock after too many failed logins, kept in Redis hashes that expire by
 themselves or in a plain map. Logins overlap: each checks the lock first and records its failure,
 or clears the record, some time later. Times are milliseconds since the epoch.
 */
module Lockout {
  import opened Common

  datatype Config = Config(max: int, lockout: int, window: int)
  datatype Attempts = Attempts(count: int, last: int, lockedUntil: Option<int>)
  datatype Key = Key(data: Attempts, expiresAt: int)

  predicate Sensible(cfg: Config) {
    cfg.lockout > 0 && cfg.window >= 0
  }

  // ---------- the Redis branch ----------

  /** hgetall: an expired key reads as empty. */
  function Live(key: Option<Key>, now: int): Option<Attempts> {
    if key.Some? && now < key.value.expiresAt then Some(key.value.data) else None
  }

  /** Until when the account is locked, if it is. */
  function Status(data: Option<Attempts>, now: int): Option<int> {
    if data.Some? && data.value.lockedUntil.Some? && now < data.value.lockedUntil.value then data.value.lockedUntil else None
  }

  predicate LockExpired(data: Option<Attempts>, now: int) {
    data.Some? && data.value.lockedUntil.Some? && data.value.lockedUntil.value <= now
  }

  function RedisCheck(key: Option<Key>, now: int): Option<Key> {
    if LockExpired(Live(key, now), now) then None else key
  }

  /** The lifetime of the key, in whole seconds. */
  function Ttl(cfg: Config): int {
    (cfg.lockout + cfg.window + 999) / 1000 * 1000
  }

  /** The count starts again after a pause. */
  function NewCount(cfg: Config, seen: Option<Attempts>, calledAt: int): int {
    var stored := if seen.Some? then seen.value.count else 0;
    var last := if seen.Some? then seen.value.last else 0;
    (if last != 0 && calledAt - last > cfg.window then 0 else stored) + 1
  }

  /**
   The pipeline that follows the awaited hgetall: it writes what was computed from the hash as read then.
   The lockedUntil field of a hash that is still there stays in place; the lifetime starts with the write.
   */
  function RedisWrite(cfg: Config, key: Option<Key>, seen: Option<Attempts>, calledAt: int, now: int): Key {
    var count := NewCount(cfg, seen, calledAt);
    var present := Live(key, now);
    var lock :=
      if count >= cfg.max then Some(calledAt + cfg.lockout)
      else if present.Some? then present.value.lockedUntil
      else None;
    Key(Attempts(count, calledAt, lock), now + Ttl(cfg))
  }

  // ---------- the memory branch ----------

  function MemoryCheck(data: Option<Attempts>, now: int): Option<Attempts> {
    if LockExpired(data, now) then None else data
  }

  /** A first failure, or one after a pause, starts a new record and never locks. */
  function MemoryRecord(cfg: Config, data: Option<Attempts>, now: int): Attempts {
    if data.None? || now - data.value.last > cfg.window then Attempts(1, now, None)
    else
      var count := data.value.count + 1;
      Attempts(count, now, if count >= cfg.max then Some(now + cfg.lockout) else data.value.lockedUntil)
  }

  // ---------- logins ----------

  /** A recording under way: when it was called, what it read, and how often the record had changed by then. */
  datatype Reading = Reading(calledAt: int, seen: Option<Attempts>, version: nat)

  /**
   One account: its record; the logins past their check with the time of it; those that found the lock over
   and are deleting the record, and the recordings between their read and their write, each with how often
   the record had changed by then; that number of changes; and the failures since the last clear.
   */
  datatype World<S> = World(now: int, store: Option<S>, pending: map<nat, int>, erasing: map<nat, nat>, reading: map<nat, Reading>, version: nat, log: seq<int>)

  /**
   A login checks the lock and deletes the record of one that is over; then it reads and later writes the
   record of its failure, or succeeds, or ends without either (a suspended user, a wrong second factor, a crash).
   */
  datatype Event =
    | Begin(login: nat) | Erase(login: nat)
    | Read(login: nat) | Write(login: nat)
    | Succeed(login: nat) | Drop(login: nat) | Wait(ms: nat)

  function Advance<S>(w: World<S>, e: Event, locked: bool, expired: bool, seen: Option<Attempts>, stored: Option<S>): World<S> {
    match e
    case Begin(id) =>
      if id in w.pending || locked then w
      else w.(pending := w.pending[id := w.now], erasing := if expired then w.erasing[id := w.version] else w.erasing)
    case Erase(id) =>
      if id !in w.erasing then w
      else w.(store := None, erasing := w.erasing - {id}, version := if w.store.None? then w.version else w.version + 1)
    case Read(id) =>
      if id !in w.pending || id in w.erasing || id in w.reading then w
      else w.(reading := w.reading[id := Reading(w.now, seen, w.version)])
    case Write(id) =>
      if id !in w.reading then w
      else
        w.(store := stored, pending := w.pending - {id}, reading := w.reading - {id},
           version := w.version + 1, log := w.log + [w.reading[id].calledAt])
    case Succeed(id) =>
      if id !in w.pending || id in w.erasing || id in w.reading then w
      else w.(store := None, pending := w.pending - {id}, version := w.version + 1, log := [])
    case Drop(id) => w.(pending := w.pending - {id}, erasing := w.erasing - {id}, reading := w.reading - {id})
    case Wait(ms) => w.(now := w.now + ms)
  }

  function RedisStep(cfg: Config, w: World<Key>, e: Event): World<Key> {
    var data := Live(w.store, w.now);
    var stored :=
      if e.Write? && e.login in w.reading then
        Some(RedisWrite(cfg, w.store, w.reading[e.login].seen, w.reading[e.login].calledAt, w.now))
      else None;
    Advance(w, e, Status(data, w.now).Some?, LockExpired(data, w.now), data, stored)
  }

  /**
   Memory deletes and records in one step each, at the erasure and at the write, the latter with the time
   of the call; nothing it read before matters.
   */
  function MemoryStep(cfg: Config, w: World<Attempts>, e: Event): World<Attempts> {
    var stored :=
      if e.Write? && e.login in w.reading then Some(MemoryRecord(cfg, w.store, w.reading[e.login].calledAt)) else None;
    Advance(w, e, Status(w.store, w.now).Some?, LockExpired(w.store, w.now), w.store, stored)
  }

  function RedisRun(cfg: Config, w: World<Key>, run: seq<Event>): World<Key>
    decreases |run|
  {
    if run == [] then w else RedisRun(cfg, RedisStep(cfg, w, run[0]), run[1..])
  }

  function MemoryRun(cfg: Config, w: World<Attempts>, run: seq<Event>): World<Attempts>
    decreases |run|
  {
    if run == [] then w else MemoryRun(cfg, MemoryStep(cfg, w, run[0]), run[1..])
  }

  function Fresh<S>(start: int): World<S> {
    World(start, None, map[], map[], map[], 0, [])
  }

  /**
   What a run keeps to: the longest time from a check to the call that records the failure, the longest
   time from that call's read to its write, whether the record may change between a read and its write or
   between a check and its deletion, and how many logins are between their check and their end.
   */
  datatype Bounds = Bounds(delay: int, latency: int, overlap: bool, logins: nat)

  predicate AllowedEvent(cfg: Config, w: World<Attempts>, e: Event, b: Bounds) {
    match e
    case Begin(_) => |MemoryStep(cfg, w, e).pending| <= b.logins
    case Erase(id) => id in w.erasing ==> b.overlap || w.erasing[id] == w.version || w.store.None?
    case Read(id) => id !in w.erasing && (id in w.pending && id !in w.reading ==> w.now - w.pending[id] <= b.delay)
    case Write(id) =>
      id in w.reading ==>
        && w.now - w.reading[id].calledAt <= b.latency
        && (b.overlap || w.reading[id].version == w.version)
    case Succeed(id) => id !in w.erasing
    case _ => true
  }

  predicate Allowed(cfg: Config, w: World<Attempts>, run: seq<Event>, b: Bounds)
    decreases |run|
  {
    run == [] || (AllowedEvent(cfg, w, run[0], b) && Allowed(cfg, MemoryStep(cfg, w, run[0]), run[1..], b))
  }

  // ---------- the two branches agree ----------

  predicate SameAnswer(r: World<Key>, m: World<Attempts>) {
    Status(Live(r.store, r.now), r.now) == Status(m.store, m.now)
  }

  /** At every moment of the run both branches give the same isLocked and lockedUntil. */
  predicate SameAnswers(cfg: Config, r: World<Key>, m: World<Attempts>, run: seq<Event>)
    decreases |run|
  {
    SameAnswer(r, m) && (run == [] || SameAnswers(cfg, RedisStep(cfg, r, run[0]), MemoryStep(cfg, m, run[0]), run[1..]))
  }

  /** A record is in order: it locks exactly when it is full, from its last attempt on. */
  predicate Orderly(cfg: Config, a: Attempts) {
    a.lockedUntil == if a.count >= cfg.max then Some(a.last + cfg.lockout) else None
  }

  /** Whoever is still at work checked no later than the latency after the attempt that set a lock, or found it over. */
  ghost predicate LockAfterChecks(w: World<Attempts>, b: Bounds) {
    && (forall id :: id in w.pending ==> w.pending[id] <= w.now)
    && (w.store.Some? && w.store.value.lockedUntil.Some? ==>
          forall id :: id in w.pending && id !in w.erasing ==> w.pending[id] <= w.store.value.last + b.latency)
  }

  /** Deletions under way belong to pending logins; while the record is unchanged, its lock is over. */
  ghost predicate ErasuresFollow(w: World<Attempts>) {
    forall id :: id in w.erasing ==>
      && id in w.pending && id !in w.reading && w.erasing[id] <= w.version
      && (w.erasing[id] == w.version ==> LockExpired(w.store, w.now))
  }

  /** A single login in flight finds no lock, and nothing changes the record under its recording. */
  ghost predicate OneByOne(w: World<Attempts>) {
    && |w.pending| <= 1
    && (forall id :: id in w.reading ==> id in w.pending && w.reading[id].version == w.version)
    && (forall id :: id in w.erasing ==> id in w.pending && id !in w.reading && w.erasing[id] == w.version)
    && (w.store.Some? && w.store.value.lockedUntil.Some? ==> forall id :: id in w.pending ==> id in w.erasing)
  }

  /** What one recording read still is the record, or it had expired when it was read. */
  ghost predicate ReadingRight(cfg: Config, r: World<Key>, m: World<Attempts>, id: nat, b: Bounds)
    requires id in r.reading && id in m.reading
  {
    var seen, at := r.reading[id].seen, m.reading[id].calledAt;
    && r.reading[id].calledAt == at && 0 < at <= m.now && id in m.pending && id !in m.erasing && at - m.pending[id] <= b.delay
    && m.reading[id].version <= m.version
    && (m.reading[id].version == m.version ==>
          && (m.store.Some? ==> m.store.value.last <= at)
          && (if seen.Some? then m.store == seen else m.store.Some? ==> at >= m.store.value.last + Ttl(cfg)))
  }

  /** The record relation: a live hash is the memory record; a dead one leaves a stale record at most. */
  ghost predicate StoresAgree(cfg: Config, r: World<Key>, m: World<Attempts>, b: Bounds) {
    && (m.store.Some? ==> Orderly(cfg, m.store.value) && 0 < m.store.value.last <= m.now)
    && (match Live(r.store, r.now)
        case Some(a) => m.store == Some(a) && a.last + Ttl(cfg) <= r.store.value.expiresAt <= a.last + Ttl(cfg) + b.latency
        case None => m.store.Some? ==> m.now >= m.store.value.last + Ttl(cfg))
  }

  /** Redis deletes where memory does; where it does not, its hash had expired by the check. */
  ghost predicate ErasuresAgree(r: World<Key>, m: World<Attempts>) {
    && r.erasing.Keys <= m.erasing.Keys
    && (forall id :: id in m.erasing && id !in r.erasing && m.erasing[id] == m.version ==> Live(r.store, r.now).None?)
  }

  ghost predicate Simulates(cfg: Config, r: World<Key>, m: World<Attempts>, b: Bounds) {
    && r.now == m.now > 0 && r.pending == m.pending && r.log == m.log && r.reading.Keys == m.reading.Keys
    && LockAfterChecks(m, b) && StoresAgree(cfg, r, m, b)
    && ErasuresFollow(m) && ErasuresAgree(r, m)
    && (forall id :: id in m.reading ==> ReadingRight(cfg, r, m, id, b))
  }

  /** Failures come in time for the window, or the key dies with the window and writes are immediate. */
  predicate InTime(cfg: Config, b: Bounds) {
    b.delay + b.latency <= cfg.window || (Ttl(cfg) == cfg.window + 1 && b.latency == 0)
  }

  /** One login at a time, or recordings that nothing disturbs and that come in time. */
  predicate Safe(cfg: Config, b: Bounds) {
    b.logins <= 1 || (!b.overlap && InTime(cfg, b))
  }

  predicate BoundsSensible(b: Bounds) {
    b.delay >= 0 && b.latency >= 0
  }

  /** An undisturbed write stores the same record in both branches. */
  lemma WriteAgrees(cfg: Config, r: World<Key>, m: World<Attempts>, id: nat, b: Bounds)
    requires Sensible(cfg) && cfg.max >= 2 && BoundsSensible(b) && Safe(cfg, b)
    requires r.now == m.now && StoresAgree(cfg, r, m, b) && LockAfterChecks(m, b) && (b.logins <= 1 ==> OneByOne(m))
    requires id in r.reading && id in m.reading && ReadingRight(cfg, r, m, id, b)
    requires m.reading[id].version == m.version && m.now - m.reading[id].calledAt <= b.latency
    ensures RedisWrite(cfg, r.store, r.reading[id].seen, r.reading[id].calledAt, r.now).data ==
            MemoryRecord(cfg, m.store, m.reading[id].calledAt)
    ensures var a := MemoryRecord(cfg, m.store, m.reading[id].calledAt);
      && Orderly(cfg, a) && a.last == m.reading[id].calledAt && 0 < a.last <= m.now < a.last + Ttl(cfg) + b.latency + 1
    ensures RedisWrite(cfg, r.store, r.reading[id].seen, r.reading[id].calledAt, r.now).expiresAt == r.now + Ttl(cfg) > r.now
  {
  }

  lemma WriteStoresAgree(cfg: Config, r: World<Key>, m: World<Attempts>, id: nat, b: Bounds)
    requires Sensible(cfg) && cfg.max >= 2 && BoundsSensible(b) && Safe(cfg, b)
    requires Simulates(cfg, r, m, b) && (b.logins <= 1 ==> OneByOne(m)) && AllowedEvent(cfg, m, Write(id), b) && id in m.reading
    ensures StoresAgree(cfg, RedisStep(cfg, r, Write(id)), MemoryStep(cfg, m, Write(id)), b)
    ensures MemoryRecord(cfg, m.store, m.reading[id].calledAt).last == m.reading[id].calledAt
  {
    WriteAgrees(cfg, r, m, id, b);
    hide NewCount, Orderly, Ttl, OneByOne, Safe, RedisWrite, MemoryRecord, LockAfterChecks, ErasuresFollow, ErasuresAgree;
  }

  lemma WriteSimulates(cfg: Config, r: World<Key>, m: World<Attempts>, id: nat, b: Bounds)
    requires Sensible(cfg) && cfg.max >= 2 && BoundsSensible(b) && Safe(cfg, b)
    requires Simulates(cfg, r, m, b) && (b.logins <= 1 ==> OneByOne(m)) && AllowedEvent(cfg, m, Write(id), b)
    ensures Simulates(cfg, RedisStep(cfg, r, Write(id)), MemoryStep(cfg, m, Write(id)), b)
  {
    hide OneByOne, Safe, RedisWrite, MemoryRecord, StoresAgree, Live, LockExpired, Status;
    if id in m.reading {
      WriteStoresAgree(cfg, r, m, id, b);
    }
  }

  /** Both branches find the same lock; one found over in memory only belongs to a hash that has expired. */
  lemma ChecksAgree(cfg: Config, r: World<Key>, m: World<Attempts>, b: Bounds)
    requires Sensible(cfg) && r.now == m.now && StoresAgree(cfg, r, m, b)
    ensures Status(Live(r.store, r.now), r.now) == Status(m.store, m.now)
    ensures LockExpired(Live(r.store, r.now), r.now) ==> LockExpired(m.store, m.now)
    ensures LockExpired(m.store, m.now) && !LockExpired(Live(r.store, r.now), r.now) ==> Live(r.store, r.now).None?
  {
  }

  lemma BeginSimulates(cfg: Config, r: World<Key>, m: World<Attempts>, id: nat, b: Bounds)
    requires Sensible(cfg) && BoundsSensible(b) && Simulates(cfg, r, m, b)
    ensures Simulates(cfg, RedisStep(cfg, r, Begin(id)), MemoryStep(cfg, m, Begin(id)), b)
  {
    hide StoresAgree, Live;
    ChecksAgree(cfg, r, m, b);
    SameStoresAgree(cfg, r, m, RedisStep(cfg, r, Begin(id)), MemoryStep(cfg, m, Begin(id)), b);
  }

  lemma ReadSimulates(cfg: Config, r: World<Key>, m: World<Attempts>, id: nat, b: Bounds)
    requires Sensible(cfg) && BoundsSensible(b) && Simulates(cfg, r, m, b) && AllowedEvent(cfg, m, Read(id), b)
    ensures Simulates(cfg, RedisStep(cfg, r, Read(id)), MemoryStep(cfg, m, Read(id)), b)
  {
  }

  lemma EraseSimulates(cfg: Config, r: World<Key>, m: World<Attempts>, id: nat, b: Bounds)
    requires Sensible(cfg) && BoundsSensible(b) && Simulates(cfg, r, m, b) && AllowedEvent(cfg, m, Erase(id), b)
    requires Safe(cfg, b) && (b.logins <= 1 ==> OneByOne(m))
    ensures Simulates(cfg, RedisStep(cfg, r, Erase(id)), MemoryStep(cfg, m, Erase(id)), b)
  {
  }

  lemma SucceedSimulates(cfg: Config, r: World<Key>, m: World<Attempts>, id: nat, b: Bounds)
    requires Sensible(cfg) && BoundsSensible(b) && Simulates(cfg, r, m, b) && AllowedEvent(cfg, m, Succeed(id), b)
    ensures Simulates(cfg, RedisStep(cfg, r, Succeed(id)), MemoryStep(cfg, m, Succeed(id)), b)
  {
  }

  lemma DropSimulates(cfg: Config, r: World<Key>, m: World<Attempts>, id: nat, b: Bounds)
    requires Sensible(cfg) && BoundsSensible(b) && Simulates(cfg, r, m, b)
    ensures Simulates(cfg, RedisStep(cfg, r, Drop(id)), MemoryStep(cfg, m, Drop(id)), b)
  {
    hide StoresAgree;
    SameStoresAgree(cfg, r, m, RedisStep(cfg, r, Drop(id)), MemoryStep(cfg, m, Drop(id)), b);
  }

  lemma SameStoresAgree(cfg: Config, r: World<Key>, m: World<Attempts>, r': World<Key>, m': World<Attempts>, b: Bounds)
    requires StoresAgree(cfg, r, m, b) && r'.now == r.now && m'.now == m.now && r'.store == r.store && m'.store == m.store
    ensures StoresAgree(cfg, r', m', b)
  {
  }

  lemma WaitSimulates(cfg: Config, r: World<Key>, m: World<Attempts>, ms: nat, b: Bounds)
    requires Sensible(cfg) && BoundsSensible(b) && Simulates(cfg, r, m, b)
    ensures Simulates(cfg, RedisStep(cfg, r, Wait(ms)), MemoryStep(cfg, m, Wait(ms)), b)
  {
  }

  lemma PendingGrows(pending: map<nat, int>, id: nat, at: int)
    requires id !in pending
    ensures |pending[id := at]| == |pending| + 1 && pending[id := at] - {id} == pending
  {
    assert pending[id := at].Keys == pending.Keys + {id};
  }

  lemma PendingShrinks(pending: map<nat, int>, id: nat)
    requires id in pending
    ensures |pending - {id}| == |pending| - 1
  {
    assert (pending - {id}).Keys == pending.Keys - {id};
  }

  lemma PendingNeverGrows(pending: map<nat, int>, id: nat)
    ensures |pending - {id}| <= |pending|
  {
    if id in pending {
      PendingShrinks(pending, id);
    } else {
      assert pending - {id} == pending;
    }
  }

  lemma BeginKeepsOneByOne(cfg: Config, m: World<Attempts>, id: nat, b: Bounds)
    requires OneByOne(m) && AllowedEvent(cfg, m, Begin(id), b) && b.logins <= 1
    ensures OneByOne(MemoryStep(cfg, m, Begin(id)))
  {
    NoneOrOne(m.pending, id, m.now);
  }

  lemma EndKeepsOneByOne(cfg: Config, m: World<Attempts>, e: Event, b: Bounds)
    requires OneByOne(m) && AllowedEvent(cfg, m, e, b) && (e.Write? || e.Succeed? || e.Drop?)
    ensures OneByOne(MemoryStep(cfg, m, e))
  {
    hide MemoryRecord;
    NoneOrOne(m.pending, e.login, m.now);
  }

  lemma EraseKeepsOneByOne(cfg: Config, m: World<Attempts>, id: nat)
    requires OneByOne(m)
    ensures OneByOne(MemoryStep(cfg, m, Erase(id)))
  {
    NoneOrOne(m.pending, id, m.now);
  }

  lemma StepKeepsOneByOne(cfg: Config, m: World<Attempts>, e: Event, b: Bounds)
    requires OneByOne(m) && AllowedEvent(cfg, m, e, b) && b.logins <= 1
    ensures OneByOne(MemoryStep(cfg, m, e))
  {
    if e.Begin? {
      BeginKeepsOneByOne(cfg, m, e.login, b);
    } else if e.Erase? {
      EraseKeepsOneByOne(cfg, m, e.login);
    } else if e.Write? || e.Succeed? || e.Drop? {
      EndKeepsOneByOne(cfg, m, e, b);
    }
  }

  lemma NoneOrOne(pending: map<nat, int>, id: nat, at: int)
    requires |pending| <= 1
    ensures |pending[id := at]| <= 1 && id !in pending ==> pending == map[]
    ensures id in pending ==> pending - {id} == map[]
    ensures |pending - {id}| <= 1 && forall other :: other in pending && id in pending ==> other == id
  {
    PendingNeverGrows(pending, id);
    if id in pending {
      PendingShrinks(pending, id);
    } else {
      PendingGrows(pending, id, at);
    }
  }

  /** The branches agree about one account; with a single login in flight it also finds no lock. */
  ghost predicate InStep(cfg: Config, r: World<Key>, m: World<Attempts>, b: Bounds) {
    Simulates(cfg, r, m, b) && (b.logins <= 1 ==> OneByOne(m))
  }

  /** Every step that keeps to the bounds keeps the branches in agreement. */
  lemma StepSimulates(cfg: Config, r: World<Key>, m: World<Attempts>, e: Event, b: Bounds)
    requires Sensible(cfg) && cfg.max >= 2 && BoundsSensible(b) && Safe(cfg, b)
    requires InStep(cfg, r, m, b) && AllowedEvent(cfg, m, e, b)
    ensures InStep(cfg, RedisStep(cfg, r, e), MemoryStep(cfg, m, e), b)
  {
    hide Simulates, OneByOne, Safe, Sensible, BoundsSensible, AllowedEvent, RedisStep, MemoryStep;
    if b.logins <= 1 {
      StepKeepsOneByOne(cfg, m, e, b);
    }
    match e
    case Begin(id) => BeginSimulates(cfg, r, m, id, b);
    case Erase(id) => EraseSimulates(cfg, r, m, id, b);
    case Read(id) => ReadSimulates(cfg, r, m, id, b);
    case Write(id) => WriteSimulates(cfg, r, m, id, b);
    case Succeed(id) => SucceedSimulates(cfg, r, m, id, b);
    case Drop(id) => DropSimulates(cfg, r, m, id, b);
    case Wait(ms) => WaitSimulates(cfg, r, m, ms, b);
  }

  lemma {:induction false} RunSimulates(cfg: Config, r: World<Key>, m: World<Attempts>, run: seq<Event>, b: Bounds)
    requires Sensible(cfg) && cfg.max >= 2 && BoundsSensible(b) && Safe(cfg, b)
    requires InStep(cfg, r, m, b) && Allowed(cfg, m, run, b)
    ensures InStep(cfg, RedisRun(cfg, r, run), MemoryRun(cfg, m, run), b) && SameAnswers(cfg, r, m, run)
    decreases |run|
  {
    SimulationAnswersAlike(cfg, r, m, b);
    if run != [] {
      hide InStep, SameAnswer, RedisStep, MemoryStep, AllowedEvent;
      StepSimulates(cfg, r, m, run[0], b);
      RunSimulates(cfg, RedisStep(cfg, r, run[0]), MemoryStep(cfg, m, run[0]), run[1..], b);
    }
  }

  lemma SimulationAnswersAlike(cfg: Config, r: World<Key>, m: World<Attempts>, b: Bounds)
    requires Sensible(cfg) && InStep(cfg, r, m, b)
    ensures SameAnswer(r, m)
  {
  }

  /** From a fresh account, undisturbed recordings that come in time keep the branches in agreement at every moment. */
  lemma UndisturbedRunsAgree(cfg: Config, start: int, run: seq<Event>, b: Bounds)
    requires Sensible(cfg) && cfg.max >= 2 && BoundsSensible(b) && Safe(cfg, b)
    requires start > 0 && Allowed(cfg, Fresh(start), run, b)
    ensures SameAnswers(cfg, Fresh(start), Fresh(start), run)
    ensures RedisRun(cfg, Fresh(start), run).log == MemoryRun(cfg, Fresh(start), run).log
  {
    RunSimulates(cfg, Fresh(start), Fresh(start), run, b);
  }

  // ---------- runs that separate the branches ----------

  /** At no moment are more than so many logins of the Redis branch between their check and their end. */
  predicate FewInFlight(cfg: Config, w: World<Key>, run: seq<Event>, logins: nat)
    decreases |run|
  {
    |w.pending| <= logins && (run == [] || FewInFlight(cfg, RedisStep(cfg, w, run[0]), run[1..], logins))
  }

  /** The run keeps to the bounds in both branches and leads to these worlds. */
  predicate Leads(cfg: Config, r0: World<Key>, m0: World<Attempts>, run: seq<Event>, r: World<Key>, m: World<Attempts>, b: Bounds) {
    && RedisRun(cfg, r0, run) == r && MemoryRun(cfg, m0, run) == m
    && Allowed(cfg, m0, run, b) && FewInFlight(cfg, r0, run, b.logins)
  }

  lemma {:induction false} LeadsFurther(cfg: Config, r0: World<Key>, m0: World<Attempts>, run: seq<Event>, r: World<Key>, m: World<Attempts>, e: Event, b: Bounds)
    requires Leads(cfg, r0, m0, run, r, m, b)
    requires AllowedEvent(cfg, m, e, b) && |RedisStep(cfg, r, e).pending| <= b.logins
    ensures Leads(cfg, r0, m0, run + [e], RedisStep(cfg, r, e), MemoryStep(cfg, m, e), b)
    decreases |run|
  {
    hide AllowedEvent, RedisStep, MemoryStep;
    var longer := run + [e];
    if run == [] {
      assert longer == [e] && longer[1..] == [];
      var r', m' := RedisStep(cfg, r, e), MemoryStep(cfg, m, e);
      assert RedisRun(cfg, r', []) == r' && MemoryRun(cfg, m', []) == m';
      assert Allowed(cfg, m', [], b) && FewInFlight(cfg, r', [], b.logins);
    } else {
      assert longer[0] == run[0] && longer[1..] == run[1..] + [e];
      LeadsFurther(cfg, RedisStep(cfg, r0, run[0]), MemoryStep(cfg, m0, run[0]), run[1..], r, m, e, b);
    }
  }

  lemma Extend(cfg: Config, r0: World<Key>, m0: World<Attempts>, run: seq<Event>, r: World<Key>, m: World<Attempts>, e: Event, b: Bounds)
    returns (longer: seq<Event>, r': World<Key>, m': World<Attempts>)
    requires Leads(cfg, r0, m0, run, r, m, b)
    requires AllowedEvent(cfg, m, e, b) && |RedisStep(cfg, r, e).pending| <= b.logins
    ensures r' == RedisStep(cfg, r, e) && m' == MemoryStep(cfg, m, e) && Leads(cfg, r0, m0, longer, r', m', b)
  {
    longer, r', m' := run + [e], RedisStep(cfg, r, e), MemoryStep(cfg, m, e);
    LeadsFurther(cfg, r0, m0, run, r, m, e, b);
  }

  lemma {:induction false} LeadsEndsInFlight(cfg: Config, r0: World<Key>, m0: World<Attempts>, run: seq<Event>, r: World<Key>, m: World<Attempts>, b: Bounds)
    requires Leads(cfg, r0, m0, run, r, m, b)
    ensures |r.pending| <= b.logins
    decreases |run|
  {
    if run != [] {
      hide AllowedEvent, RedisStep, MemoryStep;
      LeadsEndsInFlight(cfg, RedisStep(cfg, r0, run[0]), MemoryStep(cfg, m0, run[0]), run[1..], r, m, b);
    }
  }

  lemma AddWait(cfg: Config, r0: World<Key>, m0: World<Attempts>, run: seq<Event>, r: World<Key>, m: World<Attempts>, ms: nat, b: Bounds)
    returns (longer: seq<Event>, r': World<Key>, m': World<Attempts>)
    requires Leads(cfg, r0, m0, run, r, m, b)
    ensures Leads(cfg, r0, m0, longer, r', m', b) && r' == r.(now := r.now + ms) && m' == m.(now := m.now + ms)
  {
    hide Leads, RedisWrite, MemoryRecord;
    LeadsEndsInFlight(cfg, r0, m0, run, r, m, b);
    longer, r', m' := Extend(cfg, r0, m0, run, r, m, Wait(ms), b);
  }

  /** A check that finds no lock and no expired one. */
  lemma AddCheck(cfg: Config, r0: World<Key>, m0: World<Attempts>, run: seq<Event>, r: World<Key>, m: World<Attempts>, id: nat, b: Bounds)
    returns (longer: seq<Event>, r': World<Key>, m': World<Attempts>)
    requires Leads(cfg, r0, m0, run, r, m, b) && id !in r.pending && id !in m.pending
    requires |r.pending| < b.logins && |m.pending| < b.logins
    requires Status(Live(r.store, r.now), r.now).None? && !LockExpired(Live(r.store, r.now), r.now)
    requires Status(m.store, m.now).None? && !LockExpired(m.store, m.now)
    ensures Leads(cfg, r0, m0, longer, r', m', b)
    ensures r' == r.(pending := r.pending[id := r.now]) && m' == m.(pending := m.pending[id := m.now])
  {
    hide Leads, RedisWrite, MemoryRecord, Live, Status, LockExpired;
    PendingGrows(r.pending, id, r.now);
    PendingGrows(m.pending, id, m.now);
    longer, r', m' := Extend(cfg, r0, m0, run, r, m, Begin(id), b);
  }

  lemma AddCall(cfg: Config, r0: World<Key>, m0: World<Attempts>, run: seq<Event>, r: World<Key>, m: World<Attempts>, id: nat, b: Bounds)
    returns (longer: seq<Event>, r': World<Key>, m': World<Attempts>)
    requires Leads(cfg, r0, m0, run, r, m, b) && id in r.pending && id in m.pending && id !in r.reading && id !in m.reading
    requires id !in r.erasing && id !in m.erasing && m.now - m.pending[id] <= b.delay
    ensures Leads(cfg, r0, m0, longer, r', m', b)
    ensures r' == r.(reading := r.reading[id := Reading(r.now, Live(r.store, r.now), r.version)])
    ensures m' == m.(reading := m.reading[id := Reading(m.now, m.store, m.version)])
  {
    hide Leads, RedisWrite, MemoryRecord, Live, Status, LockExpired;
    LeadsEndsInFlight(cfg, r0, m0, run, r, m, b);
    longer, r', m' := Extend(cfg, r0, m0, run, r, m, Read(id), b);
  }

  lemma AddWriteStep(cfg: Config, r0: World<Key>, m0: World<Attempts>, run: seq<Event>, r: World<Key>, m: World<Attempts>, id: nat, b: Bounds)
    returns (longer: seq<Event>, r': World<Key>, m': World<Attempts>)
    requires Leads(cfg, r0, m0, run, r, m, b) && id in r.reading && id in m.reading
    requires m.now - m.reading[id].calledAt <= b.latency && (b.overlap || m.reading[id].version == m.version)
    ensures Leads(cfg, r0, m0, longer, r', m', b)
    ensures r' == RedisStep(cfg, r, Write(id)) && m' == MemoryStep(cfg, m, Write(id))
  {
    hide Leads, RedisWrite, MemoryRecord, Live, Status, LockExpired;
    LeadsEndsInFlight(cfg, r0, m0, run, r, m, b);
    PendingNeverGrows(r.pending, id);
    longer, r', m' := Extend(cfg, r0, m0, run, r, m, Write(id), b);
  }

  lemma AddWrite(cfg: Config, r0: World<Key>, m0: World<Attempts>, run: seq<Event>, r: World<Key>, m: World<Attempts>, id: nat, b: Bounds)
    returns (longer: seq<Event>, r': World<Key>, m': World<Attempts>)
    requires Leads(cfg, r0, m0, run, r, m, b) && id in r.reading && id in m.reading
    requires m.now - m.reading[id].calledAt <= b.latency && (b.overlap || m.reading[id].version == m.version)
    ensures Leads(cfg, r0, m0, longer, r', m', b)
    ensures r'.store == Some(RedisWrite(cfg, r.store, r.reading[id].seen, r.reading[id].calledAt, r.now)) && r'.now == r.now
    ensures r'.pending == r.pending - {id} && r'.reading == r.reading - {id} && r'.log == r.log + [r.reading[id].calledAt]
    ensures r'.erasing == r.erasing && m'.erasing == m.erasing
    ensures m'.store == Some(MemoryRecord(cfg, m.store, m.reading[id].calledAt)) && m'.now == m.now
    ensures m'.pending == m.pending - {id} && m'.reading == m.reading - {id} && m'.log == m.log + [m.reading[id].calledAt]
  {
    hide Leads, RedisWrite, MemoryRecord, Live, Status, LockExpired;
    longer, r', m' := AddWriteStep(cfg, r0, m0, run, r, m, id, b);
  }

  lemma {:induction false} DifferentAnswers(cfg: Config, r0: World<Key>, m0: World<Attempts>, run: seq<Event>, r: World<Key>, m: World<Attempts>, b: Bounds)
    requires Leads(cfg, r0, m0, run, r, m, b) && !SameAnswer(r, m)
    ensures !SameAnswers(cfg, r0, m0, run)
    decreases |run|
  {
    if run != [] {
      hide AllowedEvent, RedisStep, MemoryStep, SameAnswer;
      DifferentAnswers(cfg, RedisStep(cfg, r0, run[0]), MemoryStep(cfg, m0, run[0]), run[1..], r, m, b);
    }
  }

  /** The record after some failures at one instant. */
  function Filled(cfg: Config, count: nat, now: int): Option<Attempts> {
    if count == 0 then None
    else Some(Attempts(count, now, if count >= cfg.max then Some(now + cfg.lockout) else None))
  }

  function FilledKey(cfg: Config, count: nat, now: int): Option<Key> {
    if count == 0 then None else Some(Key(Filled(cfg, count, now).value, now + Ttl(cfg)))
  }

  function Repeat(t: int, k: nat): seq<int> {
    seq(k, i => t)
  }

  lemma RepeatGrows(log: seq<int>, t: int, k: nat)
    ensures log + Repeat(t, 0) == log
    ensures log + [t] + Repeat(t, k) == log + Repeat(t, k + 1) == log + Repeat(t, k) + [t]
  {
  }

  /** Room for one more failure at this instant, by a login nobody uses. */
  predicate HasRoom<S(==)>(cfg: Config, w: World<S>, store: Option<S>, count: nat, id: nat) {
    && Sensible(cfg) && cfg.max >= 2 && count < cfg.max && w.now > 0 && w.store == store
    && id !in w.pending && id !in w.erasing && id !in w.reading
  }

  function FailedOnce<S>(w: World<S>, store: Option<S>): World<S> {
    w.(store := store, version := w.version + 1, log := w.log + [w.now])
  }

  /** A login that has just checked and read. */
  function Called<S>(w: World<S>, id: nat, seen: Option<Attempts>): World<S> {
    w.(pending := w.pending[id := w.now], reading := w.reading[id := Reading(w.now, seen, w.version)])
  }

  lemma CalledEnds<S>(w: World<S>, id: nat, seen: Option<Attempts>)
    requires id !in w.pending && id !in w.reading
    ensures Called(w, id, seen).pending - {id} == w.pending && Called(w, id, seen).reading - {id} == w.reading
  {
  }

  lemma WriteInRedis(cfg: Config, w: World<Key>, count: nat, id: nat)
    requires HasRoom(cfg, w, FilledKey(cfg, count, w.now), count, id)
    ensures RedisStep(cfg, Called(w, id, Live(w.store, w.now)), Write(id)) == FailedOnce(w, FilledKey(cfg, count + 1, w.now))
  {
    CalledEnds(w, id, Live(w.store, w.now));
    FilledIsLive(cfg, count, w.now);
    WriteCountsWhatWasRead(cfg, count, count, w.now);
    hide RedisWrite, Live, Filled, FilledKey, Status, LockExpired;
  }

  lemma WriteInMemory(cfg: Config, w: World<Attempts>, count: nat, id: nat)
    requires HasRoom(cfg, w, Filled(cfg, count, w.now), count, id)
    ensures MemoryStep(cfg, Called(w, id, w.store), Write(id)) == FailedOnce(w, Filled(cfg, count + 1, w.now))
  {
    CalledEnds(w, id, w.store);
    MemoryCountsOn(cfg, count, w.now);
    hide MemoryRecord, Filled, Status, LockExpired;
  }

  /** One login after the other checks, reads and writes at one instant. */
  lemma AddRound(cfg: Config, r0: World<Key>, m0: World<Attempts>, run: seq<Event>, r: World<Key>, m: World<Attempts>,
                 rc: nat, mc: nat, id: nat, b: Bounds)
    returns (longer: seq<Event>, r': World<Key>, m': World<Attempts>)
    requires Leads(cfg, r0, m0, run, r, m, b) && BoundsSensible(b) && r.now == m.now
    requires HasRoom(cfg, r, FilledKey(cfg, rc, r.now), rc, id) && HasRoom(cfg, m, Filled(cfg, mc, m.now), mc, id)
    requires |r.pending| < b.logins && |m.pending| < b.logins
    ensures Leads(cfg, r0, m0, longer, r', m', b)
    ensures r' == FailedOnce(r, FilledKey(cfg, rc + 1, r.now)) && m' == FailedOnce(m, Filled(cfg, mc + 1, m.now))
  {
    FilledIsLive(cfg, rc, r.now);
    FilledIsLive(cfg, mc, m.now);
    WriteInRedis(cfg, r, rc, id);
    WriteInMemory(cfg, m, mc, id);
    CalledEnds(r, id, Live(r.store, r.now));
    hide Leads, RedisStep, MemoryStep, FailedOnce, Live, Filled, FilledKey, Status, LockExpired;
    longer, r', m' := AddCheck(cfg, r0, m0, run, r, m, id, b);
    longer, r', m' := AddCall(cfg, r0, m0, longer, r', m', id, b);
    assert r' == Called(r, id, Live(r.store, r.now)) && m' == Called(m, id, m.store);
    longer, r', m' := AddWriteStep(cfg, r0, m0, longer, r', m', id, b);
  }

  /** Only logins with smaller ids are under way. */
  ghost predicate Below<S>(w: World<S>, first: nat) {
    forall id :: id in w.pending || id in w.erasing || id in w.reading ==> id < first
  }

  /** So many logins one after the other at one instant. */
  lemma AddRounds(cfg: Config, r0: World<Key>, m0: World<Attempts>, run: seq<Event>, r: World<Key>, m: World<Attempts>,
                  rc: nat, mc: nat, first: nat, k: nat, b: Bounds)
    returns (longer: seq<Event>, r': World<Key>, m': World<Attempts>)
    requires Sensible(cfg) && cfg.max >= 2 && rc + k <= cfg.max && mc + k <= cfg.max
    requires Leads(cfg, r0, m0, run, r, m, b) && BoundsSensible(b) && r.now == m.now > 0
    requires r.store == FilledKey(cfg, rc, r.now) && m.store == Filled(cfg, mc, m.now)
    requires Below(r, first) && Below(m, first)
    requires |r.pending| < b.logins && |m.pending| < b.logins
    ensures Leads(cfg, r0, m0, longer, r', m', b)
    ensures r' == r.(store := FilledKey(cfg, rc + k, r.now), version := r.version + k, log := r.log + Repeat(r.now, k))
    ensures m' == m.(store := Filled(cfg, mc + k, m.now), version := m.version + k, log := m.log + Repeat(m.now, k))
    decreases k
  {
    hide Leads, RedisStep, MemoryStep, Filled, FilledKey, Repeat;
    if k == 0 {
      longer, r', m' := run, r, m;
      RepeatGrows(r.log, r.now, 0);
      RepeatGrows(m.log, m.now, 0);
    } else {
      longer, r', m' := AddRound(cfg, r0, m0, run, r, m, rc, mc, first, b);
      longer, r', m' := AddRounds(cfg, r0, m0, longer, r', m', rc + 1, mc + 1, first + 1, k - 1, b);
      RepeatGrows(r.log, r.now, k - 1);
      RepeatGrows(m.log, m.now, k - 1);
    }
  }

  lemma StartsAnywhere(cfg: Config, start: int, b: Bounds)
    ensures Leads(cfg, Fresh(start), Fresh(start), [], Fresh(start), Fresh(start), b)
  {
  }

  /** With a maximum below two, the first failure locks in Redis only. */
  lemma FirstFailure(cfg: Config, start: int, b: Bounds) returns (run: seq<Event>, r: World<Key>, m: World<Attempts>)
    requires Sensible(cfg) && cfg.max < 2 && start > 0 && BoundsSensible(b) && b.logins >= 1
    ensures Leads(cfg, Fresh(start), Fresh(start), run, r, m, b) && r.now == start && r.pending == map[]
    ensures Status(Live(r.store, start), start) == Some(start + cfg.lockout)
    ensures m == World(start, Some(Attempts(1, start, None)), map[], map[], map[], 1, [start])
  {
    StartsAnywhere(cfg, start, b);
    run := [];
    hide Leads;
    assert map[0 := start] - {0} == map[];
    run, r, m := Extend(cfg, Fresh(start), Fresh(start), run, Fresh(start), Fresh(start), Begin(0), b);
    run, r, m := Extend(cfg, Fresh(start), Fresh(start), run, r, m, Read(0), b);
    run, r, m := Extend(cfg, Fresh(start), Fresh(start), run, r, m, Write(0), b);
  }

  lemma SingleAttemptLocksDiffer(cfg: Config, start: int, b: Bounds) returns (run: seq<Event>)
    requires Sensible(cfg) && cfg.max < 2 && start > 0 && BoundsSensible(b) && b.logins >= 1
    ensures Allowed(cfg, Fresh(start), run, b) && !SameAnswers(cfg, Fresh(start), Fresh(start), run)
  {
    var r, m;
    run, r, m := FirstFailure(cfg, start, b);
    assert !SameAnswer(r, m);
    hide Leads, SameAnswer;
    DifferentAnswers(cfg, Fresh(start), Fresh(start), run, r, m, b);
    LeadsIsAllowed(cfg, Fresh(start), Fresh(start), run, r, m, b);
  }

  lemma LeadsIsAllowed(cfg: Config, r0: World<Key>, m0: World<Attempts>, run: seq<Event>, r: World<Key>, m: World<Attempts>, b: Bounds)
    requires Leads(cfg, r0, m0, run, r, m, b)
    ensures Allowed(cfg, m0, run, b) && FewInFlight(cfg, r0, run, b.logins)
    ensures RedisRun(cfg, r0, run) == r && MemoryRun(cfg, m0, run) == m
  {
  }

  lemma FilledIsLive(cfg: Config, count: nat, now: int)
    requires Sensible(cfg)
    ensures Live(FilledKey(cfg, count, now), now) == Filled(cfg, count, now)
    ensures Status(Filled(cfg, count, now), now).Some? <==> count >= cfg.max && count > 0
    ensures !LockExpired(Filled(cfg, count, now), now)
  {
  }

  /** A write counts on from what was read, whatever has been written since. */
  lemma WriteCountsWhatWasRead(cfg: Config, count: nat, since: nat, now: int)
    requires Sensible(cfg) && now > 0 && count < cfg.max && (since == count || since == count + 1)
    ensures Some(RedisWrite(cfg, FilledKey(cfg, since, now), Filled(cfg, count, now), now, now)) == FilledKey(cfg, count + 1, now)
  {
  }

  lemma MemoryCountsOn(cfg: Config, count: nat, now: int)
    requires Sensible(cfg) && cfg.max >= 2
    ensures Some(MemoryRecord(cfg, Filled(cfg, count, now), now)) == Filled(cfg, count + 1, now)
  {
  }

  predicate Idle<S>(w: World<S>) {
    w.pending == map[] && w.erasing == map[] && w.reading == map[]
  }

  /** Two logins have checked and read, and neither has written. */
  function TwoReads<S>(w: World<S>, seen: Option<Attempts>): World<S> {
    var x := Reading(w.now, seen, w.version);
    w.(pending := map[0 := w.now, 1 := w.now], reading := map[0 := x, 1 := x])
  }

  function TwoWrites<S>(w: World<S>, store: Option<S>): World<S> {
    w.(store := store, pending := map[], reading := map[], version := w.version + 2, log := w.log + [w.now] + [w.now])
  }

  lemma TwoReadsInRedis(cfg: Config, w: World<Key>, count: nat)
    requires Sensible(cfg) && count < cfg.max && w.store == FilledKey(cfg, count, w.now) && Idle(w)
    ensures RedisStep(cfg, RedisStep(cfg, RedisStep(cfg, RedisStep(cfg, w, Begin(0)), Begin(1)), Read(0)), Read(1)) ==
            TwoReads(w, Filled(cfg, count, w.now))
  {
    FilledIsLive(cfg, count, w.now);
    hide RedisWrite, Live, Status, LockExpired, Filled, FilledKey;
  }

  lemma TwoReadsInMemory(cfg: Config, w: World<Attempts>, count: nat)
    requires Sensible(cfg) && count < cfg.max && w.store == Filled(cfg, count, w.now) && Idle(w)
    ensures MemoryStep(cfg, MemoryStep(cfg, MemoryStep(cfg, MemoryStep(cfg, w, Begin(0)), Begin(1)), Read(0)), Read(1)) ==
            TwoReads(w, Filled(cfg, count, w.now))
  {
    FilledIsLive(cfg, count, w.now);
    hide MemoryRecord, Status, LockExpired, Filled;
  }

  /** The lost update: both writes count on from the same reading, so the hash counts one failure for two. */
  lemma TwoWritesInRedis(cfg: Config, w: World<Key>, count: nat)
    requires Sensible(cfg) && count < cfg.max && w.store == FilledKey(cfg, count, w.now) && w.now > 0
    ensures RedisStep(cfg, RedisStep(cfg, TwoReads(w, Filled(cfg, count, w.now)), Write(0)), Write(1)) ==
            TwoWrites(w, FilledKey(cfg, count + 1, w.now))
  {
    WriteCountsWhatWasRead(cfg, count, count, w.now);
    WriteCountsWhatWasRead(cfg, count, count + 1, w.now);
    WritesLeaveNothing(w.now, Filled(cfg, count, w.now), w.version);
    hide RedisWrite, Live, Status, LockExpired, Filled, FilledKey;
  }

  /** One of two readers has written. */
  function OneWrite<S>(w: World<S>, seen: Option<Attempts>, store: Option<S>): World<S> {
    w.(store := store, pending := map[1 := w.now], reading := map[1 := Reading(w.now, seen, w.version)],
       version := w.version + 1, log := w.log + [w.now])
  }

  lemma TwoWritesInMemory(cfg: Config, w: World<Attempts>, count: nat)
    requires Sensible(cfg) && cfg.max >= 2 && w.store == Filled(cfg, count, w.now)
    ensures MemoryStep(cfg, MemoryStep(cfg, TwoReads(w, Filled(cfg, count, w.now)), Write(0)), Write(1)) ==
            TwoWrites(w, Filled(cfg, count + 2, w.now))
  {
    MemoryCountsOn(cfg, count, w.now);
    MemoryCountsOn(cfg, count + 1, w.now);
    hide MemoryRecord, Status, LockExpired, Filled;
    var seen := Filled(cfg, count, w.now);
    var x := Reading(w.now, seen, w.version);
    assert map[0 := w.now, 1 := w.now] - {0} == map[1 := w.now] && map[0 := x, 1 := x] - {0} == map[1 := x];
    var w1 := OneWrite(w, seen, Filled(cfg, count + 1, w.now));
    assert MemoryStep(cfg, TwoReads(w, seen), Write(0)) == w1;
    assert map[1 := w.now] - {1} == map[] && map[1 := x] - {1} == map[];
    assert MemoryStep(cfg, w1, Write(1)) == TwoWrites(w, Filled(cfg, count + 2, w.now));
  }

  lemma WritesLeaveNothing(t: int, seen: Option<Attempts>, version: nat)
    ensures (map[0 := t, 1 := t] - {0}) - {1} == map[] && 1 in map[0 := t, 1 := t] - {0}
    ensures var x := Reading(t, seen, version);
      (map[0 := x, 1 := x] - {0}) - {1} == map[] && 1 in map[0 := x, 1 := x] - {0}
      && (map[0 := x, 1 := x] - {0})[1] == x
    ensures |map[0 := t]| == 1 && |map[0 := t, 1 := t]| == 2 && |map[0 := t, 1 := t] - {0}| == 1
  {
    PendingGrows(map[], 0, t);
    PendingGrows(map[0 := t], 1, t);
    assert map[0 := t, 1 := t] - {0} == map[1 := t];
    PendingGrows(map[], 1, t);
  }

  /** No login is under way. */
  predicate Quiet<S>(w: World<S>) {
    w.now > 0 && Idle(w)
  }

  /** Two logins overlap: Redis counts one failure and memory two. */
  lemma AddPair(cfg: Config, r0: World<Key>, m0: World<Attempts>, run: seq<Event>, r: World<Key>, m: World<Attempts>, rc: nat, mc: nat, b: Bounds)
    returns (longer: seq<Event>, r': World<Key>, m': World<Attempts>)
    requires Sensible(cfg) && cfg.max >= 2 && rc < cfg.max && mc < cfg.max
    requires BoundsSensible(b) && b.overlap && b.logins >= 2
    requires Leads(cfg, r0, m0, run, r, m, b) && Quiet(r) && Quiet(m) && r.now == m.now
    requires r.store == FilledKey(cfg, rc, r.now) && m.store == Filled(cfg, mc, m.now)
    ensures Leads(cfg, r0, m0, longer, r', m', b)
    ensures r' == TwoWrites(r, FilledKey(cfg, rc + 1, r.now)) && m' == TwoWrites(m, Filled(cfg, mc + 2, m.now))
  {
    TwoReadsInRedis(cfg, r, rc);
    TwoReadsInMemory(cfg, m, mc);
    TwoWritesInRedis(cfg, r, rc);
    TwoWritesInMemory(cfg, m, mc);
    FilledIsLive(cfg, rc, r.now);
    FilledIsLive(cfg, mc, m.now);
    WritesLeaveNothing(r.now, None, 0);
    longer, r', m' := AddReads(cfg, r0, m0, run, r, m, b);
    hide Leads, RedisWrite, MemoryRecord, Live, Status, LockExpired, Filled, FilledKey;
    longer, r', m' := Extend(cfg, r0, m0, longer, r', m', Write(0), b);
    longer, r', m' := Extend(cfg, r0, m0, longer, r', m', Write(1), b);
  }

  lemma AddBegins(cfg: Config, r0: World<Key>, m0: World<Attempts>, run: seq<Event>, r: World<Key>, m: World<Attempts>, b: Bounds)
    returns (longer: seq<Event>, r': World<Key>, m': World<Attempts>)
    requires Leads(cfg, r0, m0, run, r, m, b) && Quiet(r) && Quiet(m) && r.now == m.now && b.logins >= 2
    requires Status(Live(r.store, r.now), r.now).None? && !LockExpired(Live(r.store, r.now), r.now)
    requires !LockExpired(m.store, m.now)
    ensures Leads(cfg, r0, m0, longer, r', m', b)
    ensures r' == RedisStep(cfg, RedisStep(cfg, r, Begin(0)), Begin(1))
    ensures m' == MemoryStep(cfg, MemoryStep(cfg, m, Begin(0)), Begin(1))
    ensures r' == r.(pending := map[0 := r.now, 1 := r.now])
    ensures m' == if Status(m.store, m.now).Some? then m else m.(pending := map[0 := m.now, 1 := m.now])
  {
    WritesLeaveNothing(r.now, None, 0);
    hide Leads, RedisWrite, MemoryRecord, Live, Status, LockExpired;
    longer, r', m' := Extend(cfg, r0, m0, run, r, m, Begin(0), b);
    longer, r', m' := Extend(cfg, r0, m0, longer, r', m', Begin(1), b);
  }

  lemma AddReads(cfg: Config, r0: World<Key>, m0: World<Attempts>, run: seq<Event>, r: World<Key>, m: World<Attempts>, b: Bounds)
    returns (longer: seq<Event>, r': World<Key>, m': World<Attempts>)
    requires BoundsSensible(b) && b.logins >= 2
    requires Leads(cfg, r0, m0, run, r, m, b) && Quiet(r) && Quiet(m) && r.now == m.now
    requires Status(Live(r.store, r.now), r.now).None? && !LockExpired(Live(r.store, r.now), r.now)
    requires !LockExpired(m.store, m.now)
    ensures Leads(cfg, r0, m0, longer, r', m', b)
    ensures r' == RedisStep(cfg, RedisStep(cfg, RedisStep(cfg, RedisStep(cfg, r, Begin(0)), Begin(1)), Read(0)), Read(1))
    ensures m' == MemoryStep(cfg, MemoryStep(cfg, MemoryStep(cfg, MemoryStep(cfg, m, Begin(0)), Begin(1)), Read(0)), Read(1))
    ensures r'.pending == map[0 := r.now, 1 := r.now]
    ensures Status(m.store, m.now).Some? ==> m' == m
  {
    longer, r', m' := AddBegins(cfg, r0, m0, run, r, m, b);
    WritesLeaveNothing(r.now, None, 0);
    hide Leads, RedisWrite, MemoryRecord, Live, Status, LockExpired;
    longer, r', m' := Extend(cfg, r0, m0, longer, r', m', Read(0), b);
    longer, r', m' := Extend(cfg, r0, m0, longer, r', m', Read(1), b);
  }

  /** Once memory has locked, it refuses a pair that Redis still lets in. */
  lemma AddPairWhenLocked(cfg: Config, r0: World<Key>, m0: World<Attempts>, run: seq<Event>, r: World<Key>, m: World<Attempts>, rc: nat, mc: nat, b: Bounds)
    returns (longer: seq<Event>, r': World<Key>, m': World<Attempts>)
    requires Sensible(cfg) && cfg.max >= 2 && rc < cfg.max <= mc
    requires BoundsSensible(b) && b.overlap && b.logins >= 2
    requires Leads(cfg, r0, m0, run, r, m, b) && Quiet(r) && Quiet(m) && r.now == m.now
    requires r.store == FilledKey(cfg, rc, r.now) && m.store == Filled(cfg, mc, m.now)
    ensures Leads(cfg, r0, m0, longer, r', m', b)
    ensures r' == TwoWrites(r, FilledKey(cfg, rc + 1, r.now)) && m' == m
  {
    TwoReadsInRedis(cfg, r, rc);
    TwoWritesInRedis(cfg, r, rc);
    FilledIsLive(cfg, rc, r.now);
    FilledIsLive(cfg, mc, m.now);
    WritesLeaveNothing(r.now, None, 0);
    longer, r', m' := AddReads(cfg, r0, m0, run, r, m, b);
    hide Leads, RedisWrite, MemoryRecord, Live, Status, LockExpired, Filled, FilledKey;
    longer, r', m' := Extend(cfg, r0, m0, longer, r', m', Write(0), b);
    longer, r', m' := Extend(cfg, r0, m0, longer, r', m', Write(1), b);
  }

  /** A lost update, then single failures up to the maximum: memory is locked and Redis is one failure short. */
  lemma LostUpdate(cfg: Config, start: int, b: Bounds) returns (run: seq<Event>, r: World<Key>, m: World<Attempts>)
    requires Sensible(cfg) && cfg.max >= 2 && start > 0 && BoundsSensible(b) && b.overlap && b.logins >= 2
    ensures Leads(cfg, Fresh(start), Fresh(start), run, r, m, b) && Quiet(r) && Quiet(m) && r.now == m.now == start
    ensures r.store == FilledKey(cfg, cfg.max - 1, start) && m.store == Filled(cfg, cfg.max, start)
    ensures r.log == Repeat(start, cfg.max)
  {
    var r0: World<Key>, m0: World<Attempts> := Fresh(start), Fresh(start);
    StartsAnywhere(cfg, start, b);
    run, r, m := AddPair(cfg, r0, m0, [], r0, m0, 0, 0, b);
    hide Leads, Filled, FilledKey;
    run, r, m := AddRounds(cfg, r0, m0, run, r, m, 1, 2, 0, cfg.max - 2, b);
  }

  lemma LostUpdatesDiffer(cfg: Config, start: int, b: Bounds) returns (run: seq<Event>)
    requires Sensible(cfg) && cfg.max >= 2 && start > 0 && BoundsSensible(b) && b.overlap && b.logins >= 2
    ensures Allowed(cfg, Fresh(start), run, b) && !SameAnswers(cfg, Fresh(start), Fresh(start), run)
  {
    var r, m;
    run, r, m := LostUpdate(cfg, start, b);
    FilledIsLive(cfg, cfg.max - 1, start);
    FilledIsLive(cfg, cfg.max, start);
    hide Leads, Filled, FilledKey;
    DifferentAnswers(cfg, Fresh(start), Fresh(start), run, r, m, b);
    LeadsIsAllowed(cfg, Fresh(start), Fresh(start), run, r, m, b);
  }

  /** One failure short of the lock, the last one has been read. */
  lemma ReadBeforeLock(cfg: Config, start: int, b: Bounds) returns (run: seq<Event>, r: World<Key>, m: World<Attempts>)
    requires Sensible(cfg) && cfg.max >= 2 && start > 0 && BoundsSensible(b) && b.logins >= 2
    ensures Leads(cfg, Fresh(start), Fresh(start), run, r, m, b) && r.now == m.now == start
    ensures r.store == FilledKey(cfg, cfg.max - 1, start) && m.store == Filled(cfg, cfg.max - 1, start)
    ensures r.pending == m.pending == map[0 := start]
    ensures r.reading == map[0 := Reading(start, m.store, r.version)] && m.reading == map[0 := Reading(start, m.store, m.version)]
    ensures m.log == Repeat(start, cfg.max - 1) && r.erasing == m.erasing == map[]
  {
    RepeatAlone(start, cfg.max - 1);
    var r0: World<Key>, m0: World<Attempts> := Fresh(start), Fresh(start);
    StartsAnywhere(cfg, start, b);
    run, r, m := AddRounds(cfg, r0, m0, [], r0, m0, 0, 0, 2, cfg.max - 1, b);
    hide Leads, Filled, FilledKey, Repeat;
    run, r, m := AddRead(cfg, r0, m0, run, r, m, b);
  }

  /** The last failure before the lock is under way while a second login passes its check. */
  lemma LockBehindACheck(cfg: Config, start: int, b: Bounds, write: nat) returns (run: seq<Event>, r: World<Key>, m: World<Attempts>)
    requires Sensible(cfg) && cfg.max >= 2 && start > 0 && BoundsSensible(b) && b.logins >= 2 && write <= b.latency
    ensures Leads(cfg, Fresh(start), Fresh(start), run, r, m, b) && r.now == m.now == start + write
    ensures m.store == Filled(cfg, cfg.max, start) && m.pending == r.pending == map[1 := start + write] && m.reading == r.reading == map[]
    ensures r.store == Some(Key(Filled(cfg, cfg.max, start).value, start + write + Ttl(cfg)))
    ensures m.log == Repeat(start, cfg.max - 1) + [start] && r.erasing == m.erasing == map[]
  {
    hide *;
    run, r, m := ReadBeforeLock(cfg, start, b);
    LastWriteLocks(cfg, start, start + write);
    run, r, m := AddLaterCheck(cfg, Fresh(start), Fresh(start), run, r, m, b, write);
    run, r, m := AddLaterWrite(cfg, Fresh(start), Fresh(start), run, r, m, b, start);
  }

  lemma AddRead(cfg: Config, r0: World<Key>, m0: World<Attempts>, run: seq<Event>, r: World<Key>, m: World<Attempts>, b: Bounds)
    returns (longer: seq<Event>, r': World<Key>, m': World<Attempts>)
    requires Sensible(cfg) && cfg.max >= 2 && BoundsSensible(b) && b.logins >= 2
    requires Leads(cfg, r0, m0, run, r, m, b) && Quiet(r) && Quiet(m) && r.now == m.now
    requires r.store == FilledKey(cfg, cfg.max - 1, r.now) && m.store == Filled(cfg, cfg.max - 1, m.now)
    ensures Leads(cfg, r0, m0, longer, r', m', b)
    ensures r' == r.(pending := map[0 := r.now], reading := map[0 := Reading(r.now, m.store, r.version)])
    ensures m' == m.(pending := map[0 := m.now], reading := map[0 := Reading(m.now, m.store, m.version)])
  {
    FilledIsLive(cfg, cfg.max - 1, r.now);
    WritesLeaveNothing(r.now, None, 0);
    hide Leads, RedisWrite, MemoryRecord, Live, Status, LockExpired, Filled, FilledKey;
    longer, r', m' := Extend(cfg, r0, m0, run, r, m, Begin(0), b);
    longer, r', m' := Extend(cfg, r0, m0, longer, r', m', Read(0), b);
  }

  /** The hash counts up to the maximum, alive or not by now. */
  lemma LastWriteLocks(cfg: Config, start: int, now: int)
    requires Sensible(cfg) && cfg.max >= 2 && 0 < start <= now
    ensures RedisWrite(cfg, FilledKey(cfg, cfg.max - 1, start), Filled(cfg, cfg.max - 1, start), start, now) ==
            Key(Filled(cfg, cfg.max, start).value, now + Ttl(cfg))
    ensures Some(MemoryRecord(cfg, Filled(cfg, cfg.max - 1, start), start)) == Filled(cfg, cfg.max, start)
    ensures Status(Live(FilledKey(cfg, cfg.max - 1, start), now), now).None? && !LockExpired(Live(FilledKey(cfg, cfg.max - 1, start), now), now)
    ensures Status(Filled(cfg, cfg.max - 1, start), now).None? && !LockExpired(Filled(cfg, cfg.max - 1, start), now)
  {
  }

  lemma AddLaterWrite(cfg: Config, r0: World<Key>, m0: World<Attempts>, run: seq<Event>, r: World<Key>, m: World<Attempts>, b: Bounds, start: int)
    returns (longer: seq<Event>, r': World<Key>, m': World<Attempts>)
    requires Sensible(cfg) && cfg.max >= 2 && 0 < start <= r.now == m.now <= start + b.latency
    requires Leads(cfg, r0, m0, run, r, m, b)
    requires r.store == FilledKey(cfg, cfg.max - 1, start) && m.store == Filled(cfg, cfg.max - 1, start)
    requires r.pending == m.pending == map[0 := start, 1 := r.now]
    requires r.reading == map[0 := Reading(start, m.store, r.version)] && m.reading == map[0 := Reading(start, m.store, m.version)]
    ensures Leads(cfg, r0, m0, longer, r', m', b) && r'.now == m'.now == r.now
    ensures m'.store == Filled(cfg, cfg.max, start) && m'.pending == r'.pending == map[1 := r.now] && m'.reading == r'.reading == map[]
    ensures r'.store == Some(Key(Filled(cfg, cfg.max, start).value, r.now + Ttl(cfg)))
    ensures m'.log == m.log + [start] && r'.erasing == r.erasing && m'.erasing == m.erasing
  {
    hide *;
    LastWriteLocks(cfg, start, r.now);
    OnlyTheOther(start, r.now, r.reading[0], m.reading[0]);
    longer, r', m' := AddWrite(cfg, r0, m0, run, r, m, 0, b);
  }

  lemma OnlyTheOther(at: int, later: int, x: Reading, y: Reading)
    ensures map[0 := at, 1 := later] - {0} == map[1 := later]
    ensures map[0 := x] - {0} == map[] && map[0 := y] - {0} == map[]
    ensures map[1 := at] - {1} == map[] && map[1 := x] - {1} == map[] && map[1 := y] - {1} == map[]
  {
  }

  lemma AddLaterCheck(cfg: Config, r0: World<Key>, m0: World<Attempts>, run: seq<Event>, r: World<Key>, m: World<Attempts>, b: Bounds, write: nat)
    returns (longer: seq<Event>, r': World<Key>, m': World<Attempts>)
    requires b.logins >= 2 && Leads(cfg, r0, m0, run, r, m, b) && r.now == m.now && r.pending == m.pending == map[0 := r.now]
    requires Status(Live(r.store, r.now + write), r.now + write).None? && !LockExpired(Live(r.store, r.now + write), r.now + write)
    requires Status(m.store, r.now + write).None? && !LockExpired(m.store, r.now + write)
    ensures Leads(cfg, r0, m0, longer, r', m', b)
    ensures r' == r.(now := r.now + write, pending := map[0 := r.now, 1 := r.now + write])
    ensures m' == m.(now := r.now + write, pending := map[0 := r.now, 1 := r.now + write])
  {
    hide Leads, Live, Status, LockExpired;
    PendingGrows(map[], 0, r.now);
    longer, r', m' := AddWait(cfg, r0, m0, run, r, m, write, b);
    longer, r', m' := AddCheck(cfg, r0, m0, longer, r', m', 1, b);
    assert map[0 := r.now][1 := r.now + write] == map[0 := r.now, 1 := r.now + write];
  }

  /** A failure after the window keeps the old lock field in a live hash, and drops it in memory. */
  lemma LateWrite(cfg: Config, start: int, expiresAt: int)
    requires Sensible(cfg) && cfg.max >= 2 && start > 0 && expiresAt > start + cfg.window + 1
    ensures var now, old_ := start + cfg.window + 1, Filled(cfg, cfg.max, start);
      && Live(Some(Key(old_.value, expiresAt)), now) == old_
      && RedisWrite(cfg, Some(Key(old_.value, expiresAt)), old_, now, now) == Key(Attempts(1, now, Some(start + cfg.lockout)), now + Ttl(cfg))
      && MemoryRecord(cfg, old_, now) == Attempts(1, now, None)
  {
  }

  lemma AddLateFailure(cfg: Config, r0: World<Key>, m0: World<Attempts>, run: seq<Event>, r: World<Key>, m: World<Attempts>, b: Bounds, start: int, checked: int)
    returns (longer: seq<Event>, r': World<Key>, m': World<Attempts>)
    requires Sensible(cfg) && cfg.max >= 2 && b.latency >= 0 && start > 0
    requires Leads(cfg, r0, m0, run, r, m, b) && r.now == m.now == start + cfg.window + 1
    requires m.store == Filled(cfg, cfg.max, start) && m.pending == r.pending == map[1 := checked] && m.erasing == r.erasing == map[]
    requires r.store.Some? && r.store.value.data == Filled(cfg, cfg.max, start).value && r.store.value.expiresAt > r.now
    requires r.reading == map[1 := Reading(r.now, m.store, r.version)] && m.reading == map[1 := Reading(r.now, m.store, m.version)]
    ensures Leads(cfg, r0, m0, longer, r', m', b) && Quiet(r') && Quiet(m') && r'.now == m'.now == r.now
    ensures r'.store == Some(Key(Attempts(1, r.now, Some(start + cfg.lockout)), r.now + Ttl(cfg)))
    ensures m'.store == Some(Attempts(1, r.now, None))
  {
    hide RedisWrite, MemoryRecord, Live, Filled, Ttl, Leads;
    LateWrite(cfg, start, r.store.value.expiresAt);
    OnlyTheOther(checked, r.now, r.reading[1], m.reading[1]);
    longer, r', m' := AddWrite(cfg, r0, m0, run, r, m, 1, b);
  }

  lemma AddLateRead(cfg: Config, r0: World<Key>, m0: World<Attempts>, run: seq<Event>, r: World<Key>, m: World<Attempts>, b: Bounds, wait: nat)
    returns (longer: seq<Event>, r': World<Key>, m': World<Attempts>)
    requires Leads(cfg, r0, m0, run, r, m, b) && r.now == m.now && wait <= b.delay && b.logins >= 1
    requires m.pending == r.pending == map[1 := r.now] && m.erasing == r.erasing == map[] && m.reading == r.reading == map[]
    ensures Leads(cfg, r0, m0, longer, r', m', b)
    ensures r' == r.(now := r.now + wait, reading := map[1 := Reading(r.now + wait, Live(r.store, r.now + wait), r.version)])
    ensures m' == m.(now := r.now + wait, reading := map[1 := Reading(r.now + wait, m.store, m.version)])
  {
    hide Leads, Live;
    longer, r', m' := AddWait(cfg, r0, m0, run, r, m, wait, b);
    longer, r', m' := AddCall(cfg, r0, m0, longer, r', m', 1, b);
  }

  /** How long the lock is being written while the other login checks, so that it can fail after the window. */
  function WriteTime(cfg: Config, b: Bounds): int {
    if b.latency == 0 then 0 else if b.delay >= cfg.window then 1 else cfg.window + 1 - b.delay
  }

  lemma FailedLate(cfg: Config, start: int, b: Bounds) returns (run: seq<Event>, r: World<Key>, m: World<Attempts>)
    requires Sensible(cfg) && cfg.max >= 2 && start > 0 && BoundsSensible(b) && b.logins >= 2 && !InTime(cfg, b)
    ensures Leads(cfg, Fresh(start), Fresh(start), run, r, m, b) && Quiet(r) && Quiet(m) && r.now == m.now == start + cfg.window + 1
    ensures r.store == Some(Key(Attempts(1, r.now, Some(start + cfg.lockout)), r.now + Ttl(cfg))) && m.store == Some(Attempts(1, r.now, None))
  {
    var write := WriteTime(cfg, b);
    assert Ttl(cfg) > 0;
    run, r, m := LockBehindACheck(cfg, start, b, write);
    LateWrite(cfg, start, start + write + Ttl(cfg));
    hide *;
    run, r, m := AddLateRead(cfg, Fresh(start), Fresh(start), run, r, m, b, cfg.window + 1 - write);
    run, r, m := AddLateFailure(cfg, Fresh(start), Fresh(start), run, r, m, b, start, start + write);
  }

  /** A failure after the window: an old lock in Redis and none in memory, or, once that is over, one failure more in memory. */
  lemma LateFailuresDiffer(cfg: Config, start: int, b: Bounds) returns (run: seq<Event>)
    requires Sensible(cfg) && cfg.max >= 2 && start > 0 && BoundsSensible(b) && b.logins >= 2 && !InTime(cfg, b)
    ensures Allowed(cfg, Fresh(start), run, b) && !SameAnswers(cfg, Fresh(start), Fresh(start), run)
  {
    var r, m;
    run, r, m := FailedLate(cfg, start, b);
    if cfg.lockout <= cfg.window + 1 {
      run, r, m := AddProbe(cfg, Fresh(start), Fresh(start), run, r, m, b);
      assert r.store == FilledKey(cfg, 0, r.now) && m.store == Filled(cfg, 1, m.now);
      hide Leads;
      run, r, m := AddRounds(cfg, Fresh(start), Fresh(start), run, r, m, 0, 1, 0, cfg.max - 1, b);
      FilledIsLive(cfg, cfg.max - 1, r.now);
      FilledIsLive(cfg, cfg.max, r.now);
    }
    assert !SameAnswer(r, m);
    hide Leads, SameAnswer;
    DifferentAnswers(cfg, Fresh(start), Fresh(start), run, r, m, b);
    LeadsIsAllowed(cfg, Fresh(start), Fresh(start), run, r, m, b);
  }

  /** One more check makes Redis delete the hash whose old lock is over. */
  lemma AddProbe(cfg: Config, r0: World<Key>, m0: World<Attempts>, run: seq<Event>, r: World<Key>, m: World<Attempts>, b: Bounds)
    returns (longer: seq<Event>, r': World<Key>, m': World<Attempts>)
    requires b.logins >= 2 && Leads(cfg, r0, m0, run, r, m, b) && Quiet(r) && Quiet(m) && r.now == m.now
    requires LockExpired(Live(r.store, r.now), r.now) && m.store.Some? && m.store.value.lockedUntil.None?
    ensures Leads(cfg, r0, m0, longer, r', m', b) && Quiet(r') && Quiet(m') && r'.now == m'.now == r.now
    ensures r'.store.None? && m'.store == m.store
  {
    PendingGrows(map[], 0, r.now);
    assert map[0 := r.now] - {0} == map[];
    hide Leads, RedisWrite, MemoryRecord;
    longer, r', m' := Extend(cfg, r0, m0, run, r, m, Begin(0), b);
    longer, r', m' := Extend(cfg, r0, m0, longer, r', m', Erase(0), b);
    longer, r', m' := Extend(cfg, r0, m0, longer, r', m', Drop(0), b);
  }

  /** Both branches give the same isLocked and lockedUntil at every moment of every run within the bounds. */
  ghost predicate BranchesAgree(cfg: Config, b: Bounds) {
    forall start: int, run: seq<Event> :: start > 0 && Allowed(cfg, Fresh(start), run, b) ==> SameAnswers(cfg, Fresh(start), Fresh(start), run)
  }

  /**
   The branches agree on all runs within the bounds exactly when the maximum is at least two and either
   logins come one at a time, or they fail in time for the window and no record changes between a
   recording's read and its write, or between a check and the deletion it awaits.
   */
  lemma BranchesAgreeExactly(cfg: Config, b: Bounds)
    requires Sensible(cfg) && BoundsSensible(b) && b.logins >= 1
    ensures BranchesAgree(cfg, b) <==> cfg.max >= 2 && Safe(cfg, b)
  {
    hide Allowed, SameAnswers;
    if cfg.max < 2 {
      var run := SingleAttemptLocksDiffer(cfg, 1, b);
    } else if b.logins > 1 && b.overlap {
      var run := LostUpdatesDiffer(cfg, 1, b);
    } else if b.logins > 1 && !InTime(cfg, b) {
      var run := LateFailuresDiffer(cfg, 1, b);
    } else {
      forall start: int, run: seq<Event> | start > 0 && Allowed(cfg, Fresh(start), run, b)
        ensures SameAnswers(cfg, Fresh(start), Fresh(start), run)
      {
        UndisturbedRunsAgree(cfg, start, run, b);
      }
    }
  }

  // ---------- how many failures a window holds ----------

  /** Fewer than the limit plus one failures lie within any closed interval of window length. */
  ghost predicate Bounded(log: seq<int>, limit: int, window: int) {
    forall i, j :: 0 <= i <= j < |log| && log[j] - log[i] <= window ==> j - i < limit
  }

  ghost predicate Sorted(log: seq<int>, now: int) {
    && (forall i, j :: 0 <= i <= j < |log| ==> log[i] <= log[j])
    && (forall i :: 0 <= i < |log| ==> log[i] <= now)
  }

  /** The last failures, as many as counted, follow a pause longer than the window. */
  predicate ChainStarts(log: seq<int>, count: int, window: int) {
    && 1 <= count <= |log|
    && (count < |log| ==> log[|log| - count] - log[|log| - count - 1] > window)
  }

  /** Before a call at this time the log has ended: no record, and the last lock is over, or a record of earlier attempts. */
  predicate LogEnds(cfg: Config, w: World<Attempts>, at: int) {
    w.log == [] || w.log[|w.log| - 1] + (if w.store.None? then cfg.lockout else 0) <= at
  }

  /** The logins that can still record: past their check, and not about to delete a lock that is over. */
  function Active(w: World<Attempts>): set<nat> {
    w.pending.Keys - w.erasing.Keys
  }

  /** The record counts the latest chain of failures; once locked, only logins already past their check can add to it. */
  ghost predicate CountsChain(cfg: Config, w: World<Attempts>, logins: nat) {
    && LogEnds(cfg, w, w.now)
    && (w.store.Some? ==>
          var a := w.store.value;
          && ChainStarts(w.log, a.count, cfg.window) && a.last == w.log[|w.log| - 1]
          && Orderly(cfg, a)
          && (a.lockedUntil.Some? ==> a.count + |Active(w)| <= cfg.max + logins - 1))
  }

  /** Recordings under way belong to pending logins and, while the record is unchanged, were called after it was made. */
  ghost predicate CallsFollow(cfg: Config, w: World<Attempts>) {
    forall id :: id in w.reading ==>
      && id in w.pending && w.reading[id].calledAt <= w.now && w.reading[id].version <= w.version
      && (w.reading[id].version == w.version ==> LogEnds(cfg, w, w.reading[id].calledAt))
  }

  ghost predicate BoundInv(cfg: Config, w: World<Attempts>, logins: nat) {
    && |w.pending| <= logins && CallsFollow(cfg, w)
    && Sorted(w.log, w.now) && CountsChain(cfg, w, logins) && Bounded(w.log, cfg.max + logins - 1, cfg.window)
  }

  lemma LongerLogIsBounded(log: seq<int>, t: int, chain: int, limit: int, window: int)
    requires Sorted(log, t) && Bounded(log, limit, window) && 0 <= window
    requires chain <= limit && ChainStarts(log + [t], chain, window)
    ensures Bounded(log + [t], limit, window) && Sorted(log + [t], t)
  {
    var longer := log + [t];
    var first := |longer| - chain;
    forall i | 0 <= i < first
      ensures t - longer[i] > window
    {
      assert longer[i] <= longer[first - 1];
      assert longer[first] <= t;
    }
  }

  lemma EarlierThanCall(cfg: Config, w: World<Attempts>, at: int)
    requires Sorted(w.log, w.now) && LogEnds(cfg, w, at) && cfg.lockout > 0
    ensures Sorted(w.log, at)
  {
  }

  /** An undisturbed write lengthens the chain, or starts one after a pause longer than the window. */
  lemma WriteExtendsChain(cfg: Config, w: World<Attempts>, id: nat, logins: nat)
    requires Sensible(cfg) && cfg.max >= 2 && cfg.lockout > cfg.window && logins >= 1
    requires CountsChain(cfg, w, logins) && |w.pending| <= logins && id in w.reading && id in Active(w)
    requires LogEnds(cfg, w, w.reading[id].calledAt)
    ensures var record, log := MemoryRecord(cfg, w.store, w.reading[id].calledAt), w.log + [w.reading[id].calledAt];
      && ChainStarts(log, record.count, cfg.window) && record.last == log[|log| - 1] && Orderly(cfg, record)
      && record.count <= cfg.max + logins - 1
      && (record.lockedUntil.Some? ==> record.count + |Active(w)| - 1 <= cfg.max + logins - 1)
  {
    ActiveArePending(w, id);
    hide Active;
  }

  lemma ActiveArePending(w: World<Attempts>, id: nat)
    ensures |Active(w)| <= |w.pending|
    ensures id in Active(w) ==> |Active(w)| >= 1 && |Active(w) - {id}| == |Active(w)| - 1
  {
    SubsetIsSmaller(Active(w), w.pending.Keys);
  }

  lemma SubsetIsSmaller(a: set<nat>, b: set<nat>)
    requires a <= b
    ensures |a| <= |b|
  {
    assert b == a + (b - a);
  }

  lemma WriteKeepsCalls(cfg: Config, w: World<Attempts>, id: nat)
    requires CallsFollow(cfg, w) && id in w.reading
    ensures CallsFollow(cfg, MemoryStep(cfg, w, Write(id)))
    ensures id !in w.erasing ==> Active(MemoryStep(cfg, w, Write(id))) == Active(w) - {id}
  {
    hide MemoryRecord, LogEnds;
  }

  /** An undisturbed recording belongs to a login that can still fail, called after all failures so far. */
  lemma UndisturbedIsActive(cfg: Config, w: World<Attempts>, id: nat)
    requires CallsFollow(cfg, w) && id in w.reading && id !in w.erasing && w.reading[id].version == w.version
    ensures id in w.pending && id in Active(w) && w.reading[id].calledAt <= w.now && LogEnds(cfg, w, w.reading[id].calledAt)
  {
    hide LogEnds;
  }

  lemma WriteKeepsBound(cfg: Config, w: World<Attempts>, id: nat, b: Bounds)
    requires Sensible(cfg) && cfg.max >= 2 && cfg.lockout > cfg.window && b.logins >= 1 && !b.overlap
    requires BoundInv(cfg, w, b.logins) && id in w.reading && id !in w.erasing && AllowedEvent(cfg, w, Write(id), b)
    ensures BoundInv(cfg, MemoryStep(cfg, w, Write(id)), b.logins)
  {
    hide Bounded, ChainStarts, Orderly, MemoryRecord, Sorted, Active, CallsFollow, LogEnds;
    var at := w.reading[id].calledAt;
    UndisturbedIsActive(cfg, w, id);
    WriteKeepsCalls(cfg, w, id);
    EarlierThanCall(cfg, w, at);
    WriteExtendsChain(cfg, w, id, b.logins);
    ActiveArePending(w, id);
    PendingShrinks(w.pending, id);
    var record, after := MemoryRecord(cfg, w.store, at), MemoryStep(cfg, w, Write(id));
    LongerLogIsBounded(w.log, at, record.count, cfg.max + b.logins - 1, cfg.window);
    SortedUntilLater(after.log, at, w.now);
    EndsAtCall(cfg, w, after, at);
  }

  lemma EndsAtCall(cfg: Config, w: World<Attempts>, after: World<Attempts>, at: int)
    requires after.store.Some? && after.log == w.log + [at] && at <= after.now
    ensures LogEnds(cfg, after, after.now)
  {
  }

  lemma SortedUntilLater(log: seq<int>, at: int, now: int)
    requires Sorted(log, at) && at <= now
    ensures Sorted(log, now)
  {
  }

  lemma BeginIsInactive(cfg: Config, w: World<Attempts>, id: nat)
    requires CallsFollow(cfg, w)
    ensures var after := MemoryStep(cfg, w, Begin(id));
      && CallsFollow(cfg, after) && after.store == w.store && after.log == w.log && after.now == w.now
      && (w.store.Some? && w.store.value.lockedUntil.Some? ==> Active(after) == Active(w))
  {
    hide LogEnds;
    SameEnds(cfg, w, MemoryStep(cfg, w, Begin(id)));
  }

  lemma BeginKeepsBound(cfg: Config, w: World<Attempts>, id: nat, b: Bounds)
    requires Sensible(cfg) && BoundInv(cfg, w, b.logins) && AllowedEvent(cfg, w, Begin(id), b)
    ensures BoundInv(cfg, MemoryStep(cfg, w, Begin(id)), b.logins)
  {
    hide Bounded, Sorted, ChainStarts, CallsFollow, Active, MemoryStep, Orderly;
    BeginIsInactive(cfg, w, id);
  }

  /** Deleting the unchanged record of a lock that is over, or nothing. */
  lemma EraseKeepsBound(cfg: Config, w: World<Attempts>, id: nat, b: Bounds)
    requires Sensible(cfg) && !b.overlap && BoundInv(cfg, w, b.logins) && ErasuresFollow(w) && AllowedEvent(cfg, w, Erase(id), b)
    ensures BoundInv(cfg, MemoryStep(cfg, w, Erase(id)), b.logins)
  {
    hide Bounded, Sorted, ChainStarts, Active;
  }

  lemma EmptyIsBounded(limit: int, window: int, now: int)
    ensures Bounded([], limit, window) && Sorted([], now)
  {
  }

  /** A reading is taken after all failures so far. */
  lemma ReadKeepsCalls(cfg: Config, w: World<Attempts>, id: nat)
    requires CallsFollow(cfg, w) && LogEnds(cfg, w, w.now)
    ensures var after := MemoryStep(cfg, w, Read(id));
      && after.now == w.now && after.store == w.store && after.log == w.log && after.pending == w.pending
      && Active(after) == Active(w) && CallsFollow(cfg, after)
  {
    hide LogEnds, MemoryRecord, Status, LockExpired;
    SameEnds(cfg, w, MemoryStep(cfg, w, Read(id)));
  }

  lemma ReadKeepsBound(cfg: Config, w: World<Attempts>, id: nat, b: Bounds)
    requires Sensible(cfg) && BoundInv(cfg, w, b.logins)
    ensures BoundInv(cfg, MemoryStep(cfg, w, Read(id)), b.logins)
  {
    hide Bounded, Sorted, ChainStarts, Orderly, CallsFollow, Active, MemoryStep;
    ReadKeepsCalls(cfg, w, id);
  }

  /** What a login that gives up, or succeeds, changes besides the record. */
  lemma Ended(cfg: Config, w: World<Attempts>, e: Event)
    requires e.Succeed? || e.Drop?
    ensures var after := MemoryStep(cfg, w, e);
      && after.now == w.now && |after.pending| <= |w.pending| && |Active(after)| <= |Active(w)|
      && ((after.store == w.store && after.log == w.log) || (after.store == None && after.log == []))
  {
    hide Active;
    var after := MemoryStep(cfg, w, e);
    PendingNeverGrows(w.pending, e.login);
    if after != w {
      if e.Succeed? {
        SucceededOnly(cfg, w, e.login);
      } else {
        DroppedOnly(cfg, w, e.login);
      }
      hide MemoryStep;
      OneLess(w, after, e.login);
      SubsetIsSmaller(Active(after), Active(w));
    }
  }

  lemma SucceededOnly(cfg: Config, w: World<Attempts>, id: nat)
    ensures var after := MemoryStep(cfg, w, Succeed(id));
      after == w || (after.pending == w.pending - {id} && after.erasing == w.erasing && after.now == w.now && after.store == None && after.log == [])
  {
    hide MemoryRecord, LockExpired, Status;
  }

  lemma DroppedOnly(cfg: Config, w: World<Attempts>, id: nat)
    ensures var after := MemoryStep(cfg, w, Drop(id));
      after.(pending := w.pending, erasing := w.erasing, reading := w.reading) == w
      && after.pending == w.pending - {id} && after.erasing == w.erasing - {id}
  {
    hide MemoryRecord, LockExpired, Status;
  }

  lemma OneLess(w: World<Attempts>, after: World<Attempts>, id: nat)
    requires after.pending == w.pending || after.pending == w.pending - {id}
    requires after.erasing == w.erasing || (after.erasing == w.erasing - {id} && after.pending == w.pending - {id})
    ensures Active(after) <= Active(w)
  {
  }

  lemma DropKeepsCalls(cfg: Config, w: World<Attempts>, id: nat)
    requires CallsFollow(cfg, w)
    ensures CallsFollow(cfg, MemoryStep(cfg, w, Drop(id)))
  {
    hide MemoryRecord, LogEnds, LockExpired, Status;
    SameEnds(cfg, w, MemoryStep(cfg, w, Drop(id)));
  }

  lemma SucceedKeepsCalls(cfg: Config, w: World<Attempts>, id: nat)
    requires CallsFollow(cfg, w)
    ensures CallsFollow(cfg, MemoryStep(cfg, w, Succeed(id)))
  {
    hide MemoryRecord, LogEnds, LockExpired, Status;
  }

  lemma SameEnds(cfg: Config, w: World<Attempts>, after: World<Attempts>)
    ensures after.store == w.store && after.log == w.log ==> forall at :: LogEnds(cfg, after, at) == LogEnds(cfg, w, at)
  {
  }

  lemma EndKeepsBound(cfg: Config, w: World<Attempts>, e: Event, b: Bounds)
    requires Sensible(cfg) && BoundInv(cfg, w, b.logins) && (e.Succeed? || e.Drop?) && AllowedEvent(cfg, w, e, b)
    ensures BoundInv(cfg, MemoryStep(cfg, w, e), b.logins)
  {
    hide Bounded, Sorted, ChainStarts, Orderly, CallsFollow, Active, MemoryStep;
    Ended(cfg, w, e);
    if e.Succeed? {
      SucceedKeepsCalls(cfg, w, e.login);
    } else {
      DropKeepsCalls(cfg, w, e.login);
    }
    EmptyIsBounded(cfg.max + b.logins - 1, cfg.window, w.now);
  }

  /** Time passes and nothing else changes. */
  lemma Waited(cfg: Config, w: World<Attempts>, ms: nat)
    requires CallsFollow(cfg, w)
    ensures var after := MemoryStep(cfg, w, Wait(ms));
      && after.now == w.now + ms && after.store == w.store && after.log == w.log && after.pending == w.pending
      && Active(after) == Active(w) && CallsFollow(cfg, after)
  {
    hide LogEnds;
    SameEnds(cfg, w, MemoryStep(cfg, w, Wait(ms)));
  }

  lemma WaitKeepsBound(cfg: Config, w: World<Attempts>, ms: nat, b: Bounds)
    requires Sensible(cfg) && BoundInv(cfg, w, b.logins)
    ensures BoundInv(cfg, MemoryStep(cfg, w, Wait(ms)), b.logins)
  {
    hide Bounded, Sorted, ChainStarts, Orderly, CallsFollow, Active, MemoryStep;
    Waited(cfg, w, ms);
    SortedUntilLater(w.log, w.now, w.now + ms);
  }

  lemma BeginKeepsErasures(cfg: Config, w: World<Attempts>, id: nat)
    requires ErasuresFollow(w) && w.reading.Keys <= w.pending.Keys
    ensures ErasuresFollow(MemoryStep(cfg, w, Begin(id)))
  {
    hide MemoryRecord, Status, LockExpired;
  }

  lemma WaitKeepsErasures(cfg: Config, w: World<Attempts>, ms: nat)
    requires ErasuresFollow(w)
    ensures ErasuresFollow(MemoryStep(cfg, w, Wait(ms)))
  {
  }

  /** A change of the record ends the claim of every deletion still under way. */
  lemma StepKeepsErasures(cfg: Config, w: World<Attempts>, e: Event)
    requires ErasuresFollow(w) && w.reading.Keys <= w.pending.Keys
    ensures ErasuresFollow(MemoryStep(cfg, w, e))
  {
    if e.Begin? {
      BeginKeepsErasures(cfg, w, e.login);
    } else if e.Wait? {
      WaitKeepsErasures(cfg, w, e.ms);
    } else {
      hide MemoryRecord, Status;
      var after := MemoryStep(cfg, w, e);
      forall id | id in after.erasing
        ensures id in after.pending && id !in after.reading && after.erasing[id] <= after.version
        ensures after.erasing[id] == after.version ==> LockExpired(after.store, after.now)
      {
        assert id in w.erasing && after.erasing[id] == w.erasing[id];
      }
    }
  }

  lemma StepKeepsBound(cfg: Config, w: World<Attempts>, e: Event, b: Bounds)
    requires Sensible(cfg) && cfg.max >= 2 && cfg.lockout > cfg.window && b.logins >= 1 && !b.overlap
    requires BoundInv(cfg, w, b.logins) && ErasuresFollow(w) && AllowedEvent(cfg, w, e, b)
    ensures BoundInv(cfg, MemoryStep(cfg, w, e), b.logins) && ErasuresFollow(MemoryStep(cfg, w, e))
  {
    assert e.Write? && e.login in w.reading ==> e.login !in w.erasing;
    assert w.reading.Keys <= w.pending.Keys;
    hide BoundInv, ErasuresFollow;
    StepKeepsErasures(cfg, w, e);
    match e
    case Begin(id) => BeginKeepsBound(cfg, w, id, b);
    case Erase(id) => EraseKeepsBound(cfg, w, id, b);
    case Read(id) => ReadKeepsBound(cfg, w, id, b);
    case Write(id) =>
      if id in w.reading {
        WriteKeepsBound(cfg, w, id, b);
      }
    case Wait(ms) => WaitKeepsBound(cfg, w, ms, b);
    case _ => EndKeepsBound(cfg, w, e, b);
  }

  lemma {:induction false} RunKeepsBound(cfg: Config, w: World<Attempts>, run: seq<Event>, b: Bounds)
    requires Sensible(cfg) && cfg.max >= 2 && cfg.lockout > cfg.window && b.logins >= 1 && !b.overlap
    requires BoundInv(cfg, w, b.logins) && ErasuresFollow(w) && Allowed(cfg, w, run, b)
    ensures BoundInv(cfg, MemoryRun(cfg, w, run), b.logins)
    decreases |run|
  {
    if run != [] {
      hide BoundInv, ErasuresFollow, MemoryStep, AllowedEvent;
      StepKeepsBound(cfg, w, run[0], b);
      RunKeepsBound(cfg, MemoryStep(cfg, w, run[0]), run[1..], b);
    }
  }

  /** On every run of recordings that nothing disturbs, failures within one window never outnumber the maximum by more than the other logins in flight. */
  ghost predicate WindowsBounded(cfg: Config) {
    forall start: int, run: seq<Event>, b: Bounds :: b.logins >= 1 && !b.overlap && Allowed(cfg, Fresh(start), run, b)
      ==> Bounded(MemoryRun(cfg, Fresh(start), run).log, cfg.max + b.logins - 1, cfg.window)
  }

  predicate AllowedBoth(cfg: Config, start: int, run: seq<Event>, b: Bounds) {
    start > 0 && b.logins >= 1 && Allowed(cfg, Fresh(start), run, b) && FewInFlight(cfg, Fresh(start), run, b.logins)
  }

  /** The same of the Redis branch, with any number of logins in flight and the other bounds as given. */
  ghost predicate RedisWindowsBounded(cfg: Config, b: Bounds) {
    forall start: int, run: seq<Event>, logins: nat :: AllowedBoth(cfg, start, run, b.(logins := logins))
      ==> Bounded(RedisRun(cfg, Fresh(start), run).log, cfg.max + logins - 1, cfg.window)
  }

  lemma LockoutOutlastsWindow(cfg: Config)
    requires Sensible(cfg) && cfg.max >= 2 && cfg.lockout > cfg.window
    ensures WindowsBounded(cfg)
  {
    forall start: int, run: seq<Event>, b: Bounds | b.logins >= 1 && !b.overlap && Allowed(cfg, Fresh(start), run, b)
      ensures Bounded(MemoryRun(cfg, Fresh(start), run).log, cfg.max + b.logins - 1, cfg.window)
    {
      assert BoundInv(cfg, Fresh(start), b.logins);
      hide Allowed, MemoryRun;
      RunKeepsBound(cfg, Fresh(start), run, b);
      hide Bounded, Sorted, CountsChain, CallsFollow;
    }
  }

  /** Below a maximum of two the first failure in memory does not lock, and a second comes at the same instant. */
  lemma FirstFailureNeverLocks(cfg: Config, start: int, b: Bounds) returns (run: seq<Event>)
    requires Sensible(cfg) && cfg.max < 2 && start > 0 && BoundsSensible(b) && b.logins >= 1
    ensures Allowed(cfg, Fresh(start), run, b) && MemoryRun(cfg, Fresh(start), run).log == [start, start]
  {
    var r, m;
    run, r, m := FirstFailure(cfg, start, b);
    hide Leads, RedisWrite, Live;
    assert map[1 := start] - {1} == map[];
    PendingGrows(map[], 1, start);
    run, r, m := Extend(cfg, Fresh(start), Fresh(start), run, r, m, Begin(1), b);
    run, r, m := Extend(cfg, Fresh(start), Fresh(start), run, r, m, Read(1), b);
    run, r, m := Extend(cfg, Fresh(start), Fresh(start), run, r, m, Write(1), b);
    LeadsIsAllowed(cfg, Fresh(start), Fresh(start), run, r, m, b);
  }

  /** With a lockout no longer than the window, single logins fill up, wait for the lock to end, and fail once more. */
  lemma ShortLockoutExceeds(cfg: Config, start: int, b: Bounds) returns (run: seq<Event>, r: World<Key>, m: World<Attempts>)
    requires Sensible(cfg) && cfg.max >= 2 && cfg.lockout <= cfg.window && start > 0 && BoundsSensible(b) && b.logins == 1
    ensures Leads(cfg, Fresh(start), Fresh(start), run, r, m, b)
    ensures m.log == r.log == Repeat(start, cfg.max) + [start + cfg.lockout]
  {
    StartsAnywhere(cfg, start, b);
    run, r, m := AddRounds(cfg, Fresh(start), Fresh(start), [], Fresh(start), Fresh(start), 0, 0, 0, cfg.max, b);
    RepeatAlone(start, cfg.max);
    var later := start + cfg.lockout;
    LockIsOver(cfg, start);
    hide Leads, RedisWrite, MemoryRecord, Live, Status, LockExpired, Filled, FilledKey, Repeat;
    run, r, m := AddWait(cfg, Fresh(start), Fresh(start), run, r, m, cfg.lockout, b);
    run, r, m := AddFinalFailure(cfg, start, run, r, m, b);
  }

  lemma RepeatAlone(t: int, k: nat)
    ensures [] + Repeat(t, k) == Repeat(t, k)
  {
  }

  lemma LockIsOver(cfg: Config, start: int)
    requires Sensible(cfg) && cfg.max >= 2
    ensures var now := start + cfg.lockout;
      && Status(Filled(cfg, cfg.max, start), now).None?
      && Status(Live(FilledKey(cfg, cfg.max, start), now), now).None?
  {
  }

  lemma AddFinalFailure(cfg: Config, start: int, run: seq<Event>, r: World<Key>, m: World<Attempts>, b: Bounds)
    returns (longer: seq<Event>, r': World<Key>, m': World<Attempts>)
    requires BoundsSensible(b) && b.logins >= 1 && Leads(cfg, Fresh(start), Fresh(start), run, r, m, b)
    requires r.now == m.now && Idle(r) && Idle(m)
    requires Status(m.store, m.now).None? && Status(Live(r.store, r.now), r.now).None?
    ensures Leads(cfg, Fresh(start), Fresh(start), longer, r', m', b)
    ensures r'.log == r.log + [r.now] && m'.log == m.log + [m.now]
  {
    longer, r', m' := AddClearedCheck(cfg, start, run, r, m, b);
    hide Leads, RedisWrite, MemoryRecord, Live;
    longer, r', m' := AddCall(cfg, Fresh(start), Fresh(start), longer, r', m', 0, b);
    longer, r', m' := AddWrite(cfg, Fresh(start), Fresh(start), longer, r', m', 0, b);
  }

  /** A check that finds no lock in force, and deletes one that is over. */
  lemma AddClearedCheck(cfg: Config, start: int, run: seq<Event>, r: World<Key>, m: World<Attempts>, b: Bounds)
    returns (longer: seq<Event>, r': World<Key>, m': World<Attempts>)
    requires b.logins >= 1 && Leads(cfg, Fresh(start), Fresh(start), run, r, m, b) && Idle(r) && Idle(m) && r.now == m.now
    requires Status(m.store, m.now).None? && Status(Live(r.store, r.now), r.now).None?
    ensures Leads(cfg, Fresh(start), Fresh(start), longer, r', m', b) && r'.now == m'.now == r.now
    ensures r'.pending == m'.pending == map[0 := r.now] && r'.erasing == m'.erasing == map[] && r'.reading == m'.reading == map[]
    ensures r'.log == r.log && m'.log == m.log
  {
    PendingGrows(map[], 0, r.now);
    assert map[0 := m.version] - {0} == map[] && map[0 := r.version] - {0} == map[];
    hide Leads, RedisWrite, MemoryRecord, Live, Status, LockExpired;
    longer, r', m' := Extend(cfg, Fresh(start), Fresh(start), run, r, m, Begin(0), b);
    longer, r', m' := Extend(cfg, Fresh(start), Fresh(start), longer, r', m', Erase(0), b);
  }

  lemma OneTooMany(log: seq<int>, start: int, max: int, later: int, window: int)
    requires max >= 2 && later <= start + window && log == Repeat(start, max) + [later] && start <= later
    ensures !Bounded(log, max, window)
  {
    assert log[max] - log[0] <= window;
  }

  /** Two overlapping logins, though nothing disturbs them, put one failure more than the maximum at one instant. */
  lemma OverlapExceedsMaximum(cfg: Config, start: int, b: Bounds) returns (run: seq<Event>)
    requires Sensible(cfg) && cfg.max >= 2 && start > 0 && BoundsSensible(b) && !b.overlap && b.logins == 2
    ensures Allowed(cfg, Fresh(start), run, b) && MemoryRun(cfg, Fresh(start), run).log == Repeat(start, cfg.max + 1)
  {
    var r, m;
    run, r, m := LockBehindACheck(cfg, start, b, 0);
    RepeatGrows([], start, cfg.max - 1);
    RepeatGrows([], start, cfg.max);
    RepeatAlone(start, cfg.max - 1);
    RepeatAlone(start, cfg.max + 1);
    hide Leads, RedisWrite, MemoryRecord, Live, Filled, Repeat, Ttl;
    run, r, m := AddCall(cfg, Fresh(start), Fresh(start), run, r, m, 1, b);
    run, r, m := AddWrite(cfg, Fresh(start), Fresh(start), run, r, m, 1, b);
    LeadsIsAllowed(cfg, Fresh(start), Fresh(start), run, r, m, b);
  }

  /** In memory the bound holds on all undisturbed runs exactly when the maximum is at least two and a lock outlasts the window. */
  lemma WindowsBoundedExactly(cfg: Config)
    requires Sensible(cfg)
    ensures WindowsBounded(cfg) <==> cfg.max >= 2 && cfg.lockout > cfg.window
  {
    var b := Bounds(0, 0, false, 1);
    if cfg.max < 2 {
      var run := FirstFailureNeverLocks(cfg, 1, b);
      var log := MemoryRun(cfg, Fresh(1), run).log;
      assert log[1] - log[0] <= cfg.window && !Bounded(log, cfg.max + b.logins - 1, cfg.window);
    } else if cfg.lockout <= cfg.window {
      var run, r, m := ShortLockoutExceeds(cfg, 1, b);
      hide Bounded;
      LeadsIsAllowed(cfg, Fresh(1), Fresh(1), run, r, m, b);
      OneTooMany(m.log, 1, cfg.max, 1 + cfg.lockout, cfg.window);
    } else {
      LockoutOutlastsWindow(cfg);
    }
  }

  /** A single login in flight cannot be disturbed. */
  lemma {:induction false} SingleLoginsAreUndisturbed(cfg: Config, m: World<Attempts>, run: seq<Event>, b: Bounds)
    requires b.logins <= 1 && OneByOne(m) && Allowed(cfg, m, run, b)
    ensures Allowed(cfg, m, run, b.(overlap := false))
    decreases |run|
  {
    if run != [] {
      StepKeepsOneByOne(cfg, m, run[0], b);
      SingleLoginsAreUndisturbed(cfg, MemoryStep(cfg, m, run[0]), run[1..], b);
    }
  }

  /** A lost update before the last failure and another at it: two more failures than the maximum at one instant. */
  lemma LostUpdatesExceed(cfg: Config, start: int, b: Bounds) returns (run: seq<Event>, r: World<Key>, m: World<Attempts>)
    requires Sensible(cfg) && cfg.max >= 2 && start > 0 && BoundsSensible(b) && b.overlap && b.logins == 2
    ensures Leads(cfg, Fresh(start), Fresh(start), run, r, m, b) && r.log == Repeat(start, cfg.max) + [start] + [start]
    ensures !Bounded(r.log, cfg.max + b.logins - 1, cfg.window)
  {
    run, r, m := LostUpdate(cfg, start, b);
    hide Leads, Filled, FilledKey;
    run, r, m := AddPairWhenLocked(cfg, Fresh(start), Fresh(start), run, r, m, cfg.max - 1, cfg.max, b);
    assert r.log[cfg.max + 1] - r.log[0] <= cfg.window;
  }

  lemma RedisInheritsBound(cfg: Config, start: int, run: seq<Event>, b: Bounds)
    requires Sensible(cfg) && cfg.max >= 2 && BoundsSensible(b) && Safe(cfg, b) && cfg.lockout > cfg.window
    requires AllowedBoth(cfg, start, run, b)
    ensures Bounded(RedisRun(cfg, Fresh(start), run).log, cfg.max + b.logins - 1, cfg.window)
  {
    LockoutOutlastsWindow(cfg);
    UndisturbedRunsAgree(cfg, start, run, b);
    if b.logins <= 1 {
      assert OneByOne(Fresh(start));
      SingleLoginsAreUndisturbed(cfg, Fresh(start), run, b);
      assert Allowed(cfg, Fresh(start), run, b.(overlap := false));
    }
    hide Allowed, RedisRun, MemoryRun, Bounded, FewInFlight;
  }

  /**
   For failures that come in time, the bound holds in Redis on all runs exactly when a lock outlasts the
   window and no record changes between a recording's read and its write, or a check and its deletion.
   */
  lemma RedisWindowsBoundedExactly(cfg: Config, b: Bounds)
    requires Sensible(cfg) && cfg.max >= 2 && BoundsSensible(b) && InTime(cfg, b)
    ensures RedisWindowsBounded(cfg, b) <==> cfg.lockout > cfg.window && !b.overlap
  {
    if b.overlap {
      var two := b.(logins := 2);
      var run, r, m := LostUpdatesExceed(cfg, 1, two);
      hide Bounded, Leads, Allowed;
      LeadsIsAllowed(cfg, Fresh(1), Fresh(1), run, r, m, two);
      assert AllowedBoth(cfg, 1, run, b.(logins := 2));
    } else if cfg.lockout <= cfg.window {
      var one := b.(logins := 1);
      var run, r, m := ShortLockoutExceeds(cfg, 1, one);
      hide Bounded, Leads, Allowed;
      LeadsIsAllowed(cfg, Fresh(1), Fresh(1), run, r, m, one);
      OneTooMany(r.log, 1, cfg.max, 1 + cfg.lockout, cfg.window);
      assert AllowedBoth(cfg, 1, run, b.(logins := 1));
    } else {
      forall start: int, run: seq<Event>, logins: nat | AllowedBoth(cfg, start, run, b.(logins := logins))
        ensures Bounded(RedisRun(cfg, Fresh(start), run).log, cfg.max + logins - 1, cfg.window)
      {
        RedisInheritsBound(cfg, start, run, b.(logins := logins));
      }
    }
  }

  // ---------- the service ----------

  datatype LockStatus = LockStatus(isLocked: bool, lockedUntil: Option<int>, remainingMinutes: Option<int>, attemptCount: Option<int>)

  /** What a check reports about a record. */
  function Report(data: Option<Attempts>, now: int): LockStatus {
    if Status(data, now).Some? then
      var until := data.value.lockedUntil.value;
      LockStatus(true, Some(until), Some((until - now + 59999) / 60000), Some(data.value.count))
    else LockStatus(false, None, None, if data.Some? && !LockExpired(data, now) then Some(data.value.count) else None)
  }

  /** The fewest minutes after which this moment has passed are named; the count is that of the record, while it has not been dropped. */
  lemma ReportMeans(data: Option<Attempts>, now: int)
    ensures var report := Report(data, now);
      && (report.isLocked <==> data.Some? && data.value.lockedUntil.Some? && now < data.value.lockedUntil.value)
      && (report.isLocked ==>
            && report.lockedUntil == data.value.lockedUntil && report.attemptCount == Some(data.value.count)
            && report.remainingMinutes.Some? && report.remainingMinutes.value > 0
            && now + (report.remainingMinutes.value - 1) * 60000 < report.lockedUntil.value <= now + report.remainingMinutes.value * 60000)
      && (!report.isLocked ==>
            && report.lockedUntil.None? && report.remainingMinutes.None?
            && report.attemptCount == if data.Some? && data.value.lockedUntil.None? then Some(data.value.count) else None)
  {
  }

  /** A hash lives for the first whole number of seconds that covers lockout and window. */
  lemma KeyLivesInWholeSeconds(cfg: Config, key: Option<Key>, seen: Option<Attempts>, calledAt: int, now: int, later: int)
    requires Sensible(cfg)
    ensures exists seconds: int ::
      && 1000 * (seconds - 1) < cfg.lockout + cfg.window <= 1000 * seconds
      && (Live(Some(RedisWrite(cfg, key, seen, calledAt, now)), later).Some? <==> later < now + 1000 * seconds)
  {
    var seconds := (cfg.lockout + cfg.window + 999) / 1000;
    assert Ttl(cfg) == 1000 * seconds;
    assert 1000 * (seconds - 1) < cfg.lockout + cfg.window <= 1000 * seconds;
    hide NewCount;
  }

  /** One undisturbed check of the state machine leaves the record that the call leaves. */
  lemma CheckIsBeginAndErase(cfg: Config, r: World<Key>, m: World<Attempts>, id: nat)
    requires id !in r.pending && id !in r.erasing && id !in m.pending && id !in m.erasing
    ensures RedisStep(cfg, RedisStep(cfg, r, Begin(id)), Erase(id)).store == RedisCheck(r.store, r.now)
    ensures MemoryStep(cfg, MemoryStep(cfg, m, Begin(id)), Erase(id)).store == MemoryCheck(m.store, m.now)
    ensures id in RedisStep(cfg, r, Begin(id)).pending <==> !Report(Live(r.store, r.now), r.now).isLocked
    ensures id in MemoryStep(cfg, m, Begin(id)).pending <==> !Report(m.store, m.now).isLocked
  {
    hide RedisWrite, MemoryRecord;
  }

  function Lookup<T>(m: map<nat, T>, id: nat): Option<T> {
    if id in m then Some(m[id]) else None
  }

  /** The map with one account's record replaced or removed. */
  function Put<T>(m: map<nat, T>, id: nat, value: Option<T>): map<nat, T> {
    if value.Some? then m[id := value.value] else m - {id}
  }

  /** One instance: with Redis connected every call works on the hashes, without it on the map. */
  class BruteForceService {
    const cfg: Config
    const connected: bool
    var redis: map<nat, Key>
    var failedAttempts: map<nat, Attempts>

    constructor (cfg: Config, connected: bool)
      ensures this.cfg == cfg && this.connected == connected && failedAttempts == map[]
    {
      this.cfg := cfg;
      this.connected := connected;
      redis := map[];
      failedAttempts := map[];
    }

    method CheckAccountLock(id: nat, now: int) returns (status: LockStatus)
      modifies this
      ensures status == Report(if connected then Live(old(Lookup(redis, id)), now) else old(Lookup(failedAttempts, id)), now)
      ensures redis == if connected then Put(old(redis), id, RedisCheck(old(Lookup(redis, id)), now)) else old(redis)
      ensures failedAttempts ==
              if connected then old(failedAttempts) else Put(old(failedAttempts), id, MemoryCheck(old(Lookup(failedAttempts, id)), now))
    {
      if connected {
        var data := Live(Lookup(redis, id), now);
        if data.None? {
          status := LockStatus(false, None, None, None);
        } else {
          var lockedUntil := data.value.lockedUntil;
          if lockedUntil.Some? && now < lockedUntil.value {
            status := LockStatus(true, lockedUntil, Some((lockedUntil.value - now + 59999) / 60000), Some(data.value.count));
          } else if lockedUntil.Some? {
            redis := redis - {id};
            status := LockStatus(false, None, None, None);
          } else {
            status := LockStatus(false, None, None, Some(data.value.count));
          }
        }
        return;
      }
      if id !in failedAttempts {
        return LockStatus(false, None, None, None);
      }
      var attempts := failedAttempts[id];
      if attempts.lockedUntil.Some? {
        var lockedUntil := attempts.lockedUntil.value;
        if now < lockedUntil {
          return LockStatus(true, Some(lockedUntil), Some((lockedUntil - now + 59999) / 60000), Some(attempts.count));
        }
        failedAttempts := failedAttempts - {id};
        return LockStatus(false, None, None, None);
      }
      return LockStatus(false, None, None, Some(attempts.count));
    }

    /** hgetall, awaited before anything is computed. */
    method ReadAttempts(id: nat, now: int) returns (seen: Option<Attempts>)
      ensures seen.Some? <==> id in redis && now < redis[id].expiresAt
      ensures seen.Some? ==> seen.value == redis[id].data
    {
      seen := None;
      if id in redis && now < redis[id].expiresAt {
        seen := Some(redis[id].data);
      }
    }

    /** The awaited pipeline: fields are set on the hash as it is now, from what was read before. */
    method WriteAttempts(id: nat, seen: Option<Attempts>, calledAt: int, now: int) returns (locked: bool, attemptCount: int)
      modifies this`redis
      ensures redis == old(redis)[id := RedisWrite(cfg, old(Lookup(redis, id)), seen, calledAt, now)]
      ensures attemptCount == redis[id].data.count && (locked <==> attemptCount >= cfg.max)
    {
      var count := if seen.Some? then seen.value.count else 0;
      var lastAttempt := if seen.Some? then seen.value.last else 0;
      if lastAttempt != 0 && calledAt - lastAttempt > cfg.window {
        count := 0;
      }
      count := count + 1;
      var hash := if id in redis && now < redis[id].expiresAt then redis[id].data else Attempts(0, 0, None);
      hash := hash.(count := count, last := calledAt);
      if count >= cfg.max {
        hash := hash.(lockedUntil := Some(calledAt + cfg.lockout));
      }
      redis := redis[id := Key(hash, now + Ttl(cfg))];
      return count >= cfg.max, count;
    }

    method RecordInMemory(id: nat, now: int) returns (locked: bool, attemptCount: int)
      modifies this`failedAttempts
      ensures failedAttempts == old(failedAttempts)[id := MemoryRecord(cfg, old(Lookup(failedAttempts, id)), now)]
      ensures attemptCount == failedAttempts[id].count
      ensures locked <==> attemptCount >= cfg.max && failedAttempts[id].lockedUntil.Some?
    {
      if id !in failedAttempts {
        failedAttempts := failedAttempts[id := Attempts(1, now, None)];
        return false, 1;
      }
      var attempts := failedAttempts[id];
      if now - attempts.last > cfg.window {
        failedAttempts := failedAttempts[id := Attempts(1, now, None)];
        return false, 1;
      }
      attempts := attempts.(count := attempts.count + 1, last := now);
      if attempts.count >= cfg.max {
        attempts := attempts.(lockedUntil := Some(now + cfg.lockout));
      }
      failedAttempts := failedAttempts[id := attempts];
      return attempts.count >= cfg.max, attempts.count;
    }

    /** One call that nothing disturbs between its read and its write. */
    method RecordFailedAttempt(id: nat, calledAt: int, writtenAt: int) returns (locked: bool, attemptCount: int)
      modifies this
      ensures redis ==
              if connected then
                old(redis)[id := RedisWrite(cfg, old(Lookup(redis, id)), Live(old(Lookup(redis, id)), calledAt), calledAt, writtenAt)]
              else old(redis)
      ensures failedAttempts ==
              if connected then old(failedAttempts)
              else old(failedAttempts)[id := MemoryRecord(cfg, old(Lookup(failedAttempts, id)), calledAt)]
      ensures attemptCount == if connected then redis[id].data.count else failedAttempts[id].count
      ensures locked <==> attemptCount >= cfg.max && (connected || failedAttempts[id].lockedUntil.Some?)
    {
      if connected {
        var seen := ReadAttempts(id, calledAt);
        locked, attemptCount := WriteAttempts(id, seen, calledAt, writtenAt);
      } else {
        locked, attemptCount := RecordInMemory(id, calledAt);
      }
    }

    method ClearFailedAttempts(id: nat)
      modifies this
      ensures redis == if connected then Put(old(redis), id, None) else old(redis)
      ensures failedAttempts == if connected then old(failedAttempts) else Put(old(failedAttempts), id, None)
    {
      if connected {
        redis := redis - {id};
        return;
      }
      failedAttempts := failedAttempts - {id};
    }

    /** How many more failures the account may have. */
    method GetRemainingAttempts(id: nat, now: int) returns (remaining: int)
      modifies this
      ensures var data := if connected then Live(old(Lookup(redis, id)), now) else old(Lookup(failedAttempts, id));
              var count := if data.Some? && !LockExpired(data, now) then data.value.count else 0;
              && remaining >= 0
              && (Status(data, now).Some? ==> remaining == 0)
              && (Status(data, now).None? ==> remaining == if count < cfg.max then cfg.max - count else 0)
    {
      var status := CheckAccountLock(id, now);
      if status.isLocked {
        return 0;
      }
      var count := if status.attemptCount.Some? then status.attemptCount.value else 0;
      return if cfg.max - count > 0 then cfg.max - count else 0;
    }
  }
}
