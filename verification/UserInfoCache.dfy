/**
 The three-tier cache of user display info: a per-process memo, a shared Redis entry, and the
 database. Lookups of many threads interleave step by step; times are seconds.
 */
module UserInfoCache {
  import opened Options

  const MEMO_MAX := 4096
  const MEMO_TTL := 300
  const REDIS_TTL := 600

  datatype Info = Info(id: int, username: string, name: string)

  // ----- tier one: the in-process memo -----

  datatype Memo = Memo(infos: map<int, Info>, expiries: map<int, int>)

  ghost predicate WellFormed(m: Memo) {
    m.infos.Keys == m.expiries.Keys && |m.infos| <= MEMO_MAX
  }

  predicate MemoHit(m: Memo, uid: int, now: int) {
    uid in m.infos && uid in m.expiries && now < m.expiries[uid]
  }

  function Dropped(m: Memo, uid: int): Memo {
    Memo(m.infos - {uid}, m.expiries - {uid})
  }

  /** An expired entry is dropped by the lookup that finds it. */
  function AfterMemoGet(m: Memo, uid: int, now: int): Memo {
    if uid in m.infos && !MemoHit(m, uid, now) then Dropped(m, uid) else m
  }

  /** A full memo is emptied before the new entry goes in. */
  function AfterMemoPut(m: Memo, uid: int, info: Info, now: int): Memo {
    var room := if |m.infos| >= MEMO_MAX then Memo(map[], map[]) else m;
    Memo(room.infos[uid := info], room.expiries[uid := now + MEMO_TTL])
  }

  lemma DropStaysBounded(m: Memo, uid: int)
    requires WellFormed(m)
    ensures WellFormed(Dropped(m, uid))
  {
    var kept := m.infos.Keys - {uid};
    assert Dropped(m, uid).infos.Keys == kept && Dropped(m, uid).expiries.Keys == kept;
    assert |kept| <= |m.infos.Keys|;
  }

  lemma PutStaysBounded(m: Memo, uid: int, info: Info, now: int)
    requires WellFormed(m)
    ensures WellFormed(AfterMemoPut(m, uid, info, now))
  {
    var room := if |m.infos| >= MEMO_MAX then Memo(map[], map[]) else m;
    assert room.infos[uid := info].Keys == room.infos.Keys + {uid};
  }

  /** Whatever a process does with its memo, it holds at most 4096 users, each with an expiry. */
  lemma MemoStaysBounded(m: Memo, uid: int, info: Info, now: int)
    requires WellFormed(m)
    ensures WellFormed(AfterMemoPut(m, uid, info, now))
    ensures WellFormed(AfterMemoGet(m, uid, now)) && WellFormed(Dropped(m, uid))
  {
    DropStaysBounded(m, uid);
    PutStaysBounded(m, uid, info, now);
  }

  /** What a memo remembers: an entry just put, for 300 seconds and no longer; the others with it
      unless it held 4096 users, when they are forgotten; a dropped user no more. */
  lemma MemoMeans(m: Memo, uid: int, info: Info, now: int, later: int)
    requires WellFormed(m)
    ensures MemoHit(AfterMemoPut(m, uid, info, now), uid, later) <==> later < now + 300
    ensures AfterMemoPut(m, uid, info, now).infos[uid] == info
    ensures forall u :: u != uid ==>
              (MemoHit(AfterMemoPut(m, uid, info, now), u, later) <==> |m.infos| < 4096 && MemoHit(m, u, later))
    ensures forall u :: MemoHit(Dropped(m, uid), u, later) <==> u != uid && MemoHit(m, u, later)
    ensures forall u :: u in m.infos && u != uid && |m.infos| < 4096 ==>
              AfterMemoPut(m, uid, info, now).infos[u] == m.infos[u]
  {
  }

  class UserInfoMemo {
    var infos: map<int, Info>
    var expiries: map<int, int>

    function Value(): Memo
      reads this
    {
      Memo(infos, expiries)
    }

    constructor ()
      ensures Value() == Memo(map[], map[]) && WellFormed(Value())
    {
      infos, expiries := map[], map[];
    }

    method MemoGet(uid: int, now: int) returns (found: Option<Info>)
      requires WellFormed(Value())
      modifies this
      ensures WellFormed(Value()) && Value() == AfterMemoGet(old(Value()), uid, now)
      ensures found == if MemoHit(old(Value()), uid, now) then Some(old(infos)[uid]) else None
    {
      if uid !in infos {
        return None;
      }
      if expiries[uid] <= now {
        MemoStaysBounded(Value(), uid, infos[uid], now);
        infos, expiries := infos - {uid}, expiries - {uid};
        return None;
      }
      return Some(infos[uid]);
    }

    method MemoPut(uid: int, info: Info, now: int)
      requires WellFormed(Value())
      modifies this
      ensures WellFormed(Value()) && Value() == AfterMemoPut(old(Value()), uid, info, now)
    {
      MemoStaysBounded(Value(), uid, info, now);
      if |infos| >= MEMO_MAX {
        infos, expiries := map[], map[];
      }
      infos := infos[uid := info];
      expiries := expiries[uid := now + MEMO_TTL];
    }

    method Drop(uid: int)
      requires WellFormed(Value())
      modifies this
      ensures WellFormed(Value()) && Value() == Dropped(old(Value()), uid)
    {
      if uid in infos {
        MemoStaysBounded(Value(), uid, infos[uid], 0);
      } else {
        assert infos - {uid} == infos && expiries - {uid} == expiries;
      }
      infos, expiries := infos - {uid}, expiries - {uid};
    }
  }

  // ----- lookups interleaved over workers, Redis and the database -----

  /** The users table over time. */
  type Rows = (int, int) -> Option<Info>

  /** `readAt` is when the row was read from the database. */
  datatype RedisEntry = RedisEntry(info: Info, expiry: int, readAt: int)

  /** Where a memo entry's value comes from: when its row was read, and, when it was copied from
      a Redis entry, the time that entry was to expire. */
  datatype Origin = Origin(readAt: int, redisExpiry: Option<int>)

  /** An answer, with the origin of the memo entry it was served from if it was a memo hit. */
  datatype Answer = Answer(uid: int, info: Info, at: int, readAt: int, hit: Option<Origin>)

  /** Where a lookup is, which process it runs in, and when it began. */
  datatype Lookup =
    | AskRedis(worker: nat, uid: int, began: int)
    | AskDatabase(worker: nat, uid: int, began: int)
    | FillMemo(worker: nat, uid: int, began: int, info: Info, origin: Origin)
    | FillRedis(worker: nat, uid: int, began: int, info: Info, origin: Origin)

  /** `origins` records, per process and user, where the last value put in the memo came from. */
  datatype World = World(
    clock: int, memos: map<nat, Memo>, origins: map<(nat, int), Origin>, redis: map<int, RedisEntry>,
    lookups: map<nat, Lookup>, answers: seq<Answer>)

  datatype Step =
    | Tick(seconds: nat)
    | Begin(thread: nat, worker: nat, uid: int)
    | ReadRedis(thread: nat, reachable: bool)
    | ReadDatabase(thread: nat, reachable: bool)
    | WriteMemo(thread: nat)
    | WriteRedis(thread: nat, reachable: bool)
    | InvalidateMemo(worker: nat, uid: int)
    | InvalidateRedis(uid: int)

  function MemoOf(w: World, worker: nat): Memo {
    if worker in w.memos then w.memos[worker] else Memo(map[], map[])
  }

  function OriginOf(w: World, worker: nat, uid: int): Origin {
    if (worker, uid) in w.origins then w.origins[(worker, uid)] else Origin(w.clock, None)
  }

  predicate RedisHit(w: World, uid: int) { uid in w.redis && w.clock < w.redis[uid].expiry }

  function Answering(w: World, uid: int, info: Info, readAt: int, hit: Option<Origin>): World {
    w.(answers := w.answers + [Answer(uid, info, w.clock, readAt, hit)])
  }

  /** The lookup tries the memo; an expired entry is dropped on the way. */
  function Begun(w: World, t: nat, worker: nat, uid: int): World {
    var m, o := MemoOf(w, worker), OriginOf(w, worker, uid);
    var v := w.(memos := w.memos[worker := AfterMemoGet(m, uid, w.clock)]);
    if MemoHit(m, uid, w.clock) then Answering(v, uid, m.infos[uid], o.readAt, Some(o))
    else v.(lookups := v.lookups[t := AskRedis(worker, uid, w.clock)])
  }

  function RedisRead(w: World, t: nat, k: Lookup, reachable: bool): World
    requires k.AskRedis?
  {
    if reachable && RedisHit(w, k.uid) then
      var e := w.redis[k.uid];
      w.(lookups := w.lookups[t := FillMemo(k.worker, k.uid, k.began, e.info, Origin(e.readAt, Some(e.expiry)))])
    else w.(lookups := w.lookups[t := AskDatabase(k.worker, k.uid, k.began)])
  }

  function DatabaseRead(rows: Rows, w: World, t: nat, k: Lookup, reachable: bool): World
    requires k.AskDatabase?
  {
    var row := rows(k.uid, w.clock);
    if reachable && row.Some? then
      w.(lookups := w.lookups[t := FillMemo(k.worker, k.uid, k.began, row.value, Origin(w.clock, None))])
    else w.(lookups := w.lookups - {t})
  }

  function MemoWritten(w: World, k: Lookup): World
    requires k.FillMemo?
  {
    w.(memos := w.memos[k.worker := AfterMemoPut(MemoOf(w, k.worker), k.uid, k.info, w.clock)],
       origins := w.origins[(k.worker, k.uid) := k.origin])
  }

  /** What came from Redis is the answer; what came from the database goes to Redis first. */
  function MemoFilled(w: World, t: nat, k: Lookup): World
    requires k.FillMemo?
  {
    var v := MemoWritten(w, k);
    if k.origin.redisExpiry.None? then
      v.(lookups := w.lookups[t := FillRedis(k.worker, k.uid, k.began, k.info, k.origin)])
    else Answering(v.(lookups := w.lookups - {t}), k.uid, k.info, k.origin.readAt, None)
  }

  function RedisFilled(w: World, t: nat, k: Lookup, reachable: bool): World
    requires k.FillRedis?
  {
    var e := RedisEntry(k.info, w.clock + REDIS_TTL, k.origin.readAt);
    var v := w.(lookups := w.lookups - {t}, redis := if reachable then w.redis[k.uid := e] else w.redis);
    Answering(v, k.uid, k.info, k.origin.readAt, None)
  }

  /** One step of one thread. A lookup of id 0 answers "unknown" and one whose user cannot be
      read answers a placeholder; neither touches the caches, so neither is recorded. */
  function Next(rows: Rows, w: World, s: Step): World {
    match s
    case Tick(seconds) => w.(clock := w.clock + seconds)
    case Begin(t, worker, uid) => if t in w.lookups || uid == 0 then w else Begun(w, t, worker, uid)
    case ReadRedis(t, reachable) =>
      if t in w.lookups && w.lookups[t].AskRedis? then RedisRead(w, t, w.lookups[t], reachable) else w
    case ReadDatabase(t, reachable) =>
      if t in w.lookups && w.lookups[t].AskDatabase? then DatabaseRead(rows, w, t, w.lookups[t], reachable) else w
    case WriteMemo(t) =>
      if t in w.lookups && w.lookups[t].FillMemo? then MemoFilled(w, t, w.lookups[t]) else w
    case WriteRedis(t, reachable) =>
      if t in w.lookups && w.lookups[t].FillRedis? then RedisFilled(w, t, w.lookups[t], reachable) else w
    case InvalidateMemo(worker, uid) => w.(memos := w.memos[worker := Dropped(MemoOf(w, worker), uid)])
    case InvalidateRedis(uid) => w.(redis := w.redis - {uid})
  }

  function Steps(rows: Rows, w: World, steps: seq<Step>): World
    decreases |steps|
  {
    if steps == [] then w else Steps(rows, Next(rows, w, steps[0]), steps[1..])
  }

  const Cold := World(0, map[], map[], map[], map[], [])

  // ----- every value held is the row as it was when read -----

  ghost predicate Read(rows: Rows, uid: int, info: Info, readAt: int, clock: int) {
    readAt <= clock && rows(uid, readAt) == Some(info)
  }

  ghost predicate MemosSourced(rows: Rows, memos: map<nat, Memo>, origins: map<(nat, int), Origin>, clock: int) {
    forall n, uid :: n in memos && uid in memos[n].infos ==>
      (n, uid) in origins && Read(rows, uid, memos[n].infos[uid], origins[(n, uid)].readAt, clock)
  }

  predicate LookupSourced(rows: Rows, k: Lookup, clock: int) {
    k.FillMemo? || k.FillRedis? ==> k.origin.readAt <= clock && rows(k.uid, k.origin.readAt) == Some(k.info)
  }

  ghost predicate LookupsSourced(rows: Rows, lookups: map<nat, Lookup>, clock: int) {
    forall t :: t in lookups ==> LookupSourced(rows, lookups[t], clock)
  }

  ghost predicate RedisSourced(rows: Rows, redis: map<int, RedisEntry>, clock: int) {
    forall uid :: uid in redis ==> Read(rows, uid, redis[uid].info, redis[uid].readAt, clock)
  }

  ghost predicate AnswersSourced(rows: Rows, answers: seq<Answer>) {
    forall a :: a in answers ==> Read(rows, a.uid, a.info, a.readAt, a.at)
  }

  ghost predicate Sourced(rows: Rows, w: World) {
    && MemosSourced(rows, w.memos, w.origins, w.clock) && LookupsSourced(rows, w.lookups, w.clock)
    && RedisSourced(rows, w.redis, w.clock) && AnswersSourced(rows, w.answers)
  }

  lemma TickKeepsSourced(rows: Rows, w: World, later: int)
    requires Sourced(rows, w) && w.clock <= later
    ensures Sourced(rows, w.(clock := later))
  {
    assert LookupsSourced(rows, w.lookups, later);
  }

  /** Removing entries from one process's memo. */
  predicate Shrunk(m: Memo, n: Memo) {
    && n.infos.Keys <= m.infos.Keys && n.expiries.Keys <= m.expiries.Keys
    && (forall uid :: uid in n.infos ==> n.infos[uid] == m.infos[uid])
    && (forall uid :: uid in n.expiries ==> n.expiries[uid] == m.expiries[uid])
  }

  lemma ShrinkKeepsSourced(rows: Rows, w: World, n: nat, m: Memo)
    requires Sourced(rows, w) && Shrunk(MemoOf(w, n), m)
    ensures Sourced(rows, w.(memos := w.memos[n := m]))
  {
    forall i, uid | i in w.memos[n := m] && uid in w.memos[n := m][i].infos
      ensures (i, uid) in w.origins
              && Read(rows, uid, w.memos[n := m][i].infos[uid], w.origins[(i, uid)].readAt, w.clock)
    {
      assert i in w.memos && uid in w.memos[i].infos;
    }
  }

  lemma MemoWrittenKeepsSourced(rows: Rows, w: World, k: Lookup)
    requires Sourced(rows, w) && k.FillMemo? && LookupSourced(rows, k, w.clock)
    ensures Sourced(rows, MemoWritten(w, k))
  {
    var v := MemoWritten(w, k);
    forall i, uid | i in v.memos && uid in v.memos[i].infos
      ensures (i, uid) in v.origins && Read(rows, uid, v.memos[i].infos[uid], v.origins[(i, uid)].readAt, w.clock)
    {
      if (i, uid) != (k.worker, k.uid) {
        assert i in w.memos && uid in w.memos[i].infos && v.memos[i].infos[uid] == w.memos[i].infos[uid];
      }
    }
  }

  lemma LookupKeepsSourced(rows: Rows, w: World, t: nat, k: Lookup)
    requires Sourced(rows, w) && LookupSourced(rows, k, w.clock)
    ensures Sourced(rows, w.(lookups := w.lookups[t := k])) && Sourced(rows, w.(lookups := w.lookups - {t}))
  {
  }

  lemma AnsweringKeepsSourced(rows: Rows, w: World, uid: int, info: Info, readAt: int, hit: Option<Origin>)
    requires Sourced(rows, w) && Read(rows, uid, info, readAt, w.clock)
    ensures Sourced(rows, Answering(w, uid, info, readAt, hit))
  {
  }

  lemma BegunKeepsSourced(rows: Rows, w: World, t: nat, worker: nat, uid: int)
    requires Sourced(rows, w)
    ensures Sourced(rows, Begun(w, t, worker, uid))
  {
    var m := MemoOf(w, worker);
    ShrinkKeepsSourced(rows, w, worker, AfterMemoGet(m, uid, w.clock));
    var v := w.(memos := w.memos[worker := AfterMemoGet(m, uid, w.clock)]);
    if MemoHit(m, uid, w.clock) {
      assert worker in w.memos && uid in w.memos[worker].infos;
      var o := OriginOf(w, worker, uid);
      AnsweringKeepsSourced(rows, v, uid, m.infos[uid], o.readAt, Some(o));
    } else {
      LookupKeepsSourced(rows, v, t, AskRedis(worker, uid, w.clock));
    }
  }

  lemma ReadsKeepSourced(rows: Rows, w: World, t: nat, k: Lookup, reachable: bool)
    requires Sourced(rows, w)
    ensures k.AskRedis? ==> Sourced(rows, RedisRead(w, t, k, reachable))
    ensures k.AskDatabase? ==> Sourced(rows, DatabaseRead(rows, w, t, k, reachable))
  {
    if k.AskRedis? {
      if reachable && RedisHit(w, k.uid) {
        var e := w.redis[k.uid];
        LookupKeepsSourced(rows, w, t, FillMemo(k.worker, k.uid, k.began, e.info, Origin(e.readAt, Some(e.expiry))));
      } else {
        LookupKeepsSourced(rows, w, t, AskDatabase(k.worker, k.uid, k.began));
      }
    } else if k.AskDatabase? {
      var row := rows(k.uid, w.clock);
      LookupKeepsSourced(rows, w, t, k);
      if row.Some? {
        LookupKeepsSourced(rows, w, t, FillMemo(k.worker, k.uid, k.began, row.value, Origin(w.clock, None)));
      }
    }
  }

  lemma WritesKeepSourced(rows: Rows, w: World, t: nat, k: Lookup, reachable: bool)
    requires Sourced(rows, w) && LookupSourced(rows, k, w.clock)
    ensures k.FillMemo? ==> Sourced(rows, MemoFilled(w, t, k))
    ensures k.FillRedis? ==> Sourced(rows, RedisFilled(w, t, k, reachable))
  {
    if k.FillMemo? {
      MemoWrittenKeepsSourced(rows, w, k);
      var v := MemoWritten(w, k);
      if k.origin.redisExpiry.None? {
        LookupKeepsSourced(rows, v, t, FillRedis(k.worker, k.uid, k.began, k.info, k.origin));
      } else {
        LookupKeepsSourced(rows, v, t, k);
        AnsweringKeepsSourced(rows, v.(lookups := w.lookups - {t}), k.uid, k.info, k.origin.readAt, None);
      }
    } else if k.FillRedis? {
      LookupKeepsSourced(rows, w, t, k);
      var e := RedisEntry(k.info, w.clock + REDIS_TTL, k.origin.readAt);
      var v := w.(lookups := w.lookups - {t}, redis := if reachable then w.redis[k.uid := e] else w.redis);
      AnsweringKeepsSourced(rows, v, k.uid, k.info, k.origin.readAt, None);
    }
  }

  lemma NextKeepsSourced(rows: Rows, w: World, s: Step)
    requires Sourced(rows, w)
    ensures Sourced(rows, Next(rows, w, s))
  {
    match s
    case Tick(seconds) => TickKeepsSourced(rows, w, w.clock + seconds);
    case Begin(t, worker, uid) => BegunKeepsSourced(rows, w, t, worker, uid);
    case ReadRedis(t, reachable) => if t in w.lookups { ReadsKeepSourced(rows, w, t, w.lookups[t], reachable); }
    case ReadDatabase(t, reachable) => if t in w.lookups { ReadsKeepSourced(rows, w, t, w.lookups[t], reachable); }
    case WriteMemo(t) => if t in w.lookups { WritesKeepSourced(rows, w, t, w.lookups[t], true); }
    case WriteRedis(t, reachable) => if t in w.lookups { WritesKeepSourced(rows, w, t, w.lookups[t], reachable); }
    case InvalidateMemo(worker, uid) => ShrinkKeepsSourced(rows, w, worker, Dropped(MemoOf(w, worker), uid));
    case InvalidateRedis(_) =>
  }

  lemma {:induction false} StepsKeepSourced(rows: Rows, w: World, steps: seq<Step>)
    requires Sourced(rows, w)
    ensures Sourced(rows, Steps(rows, w, steps))
    decreases |steps|
  {
    if steps != [] {
      NextKeepsSourced(rows, w, steps[0]);
      StepsKeepSourced(rows, Next(rows, w, steps[0]), steps[1..]);
    }
  }

  // ----- how long values are held -----

  /** No lookup in flight has been running for more than `delay` seconds. */
  ghost predicate Prompt(w: World, delay: nat) {
    forall t :: t in w.lookups ==> w.clock <= w.lookups[t].began + delay
  }

  ghost predicate AlwaysPrompt(rows: Rows, w: World, steps: seq<Step>, delay: nat)
    decreases |steps|
  {
    Prompt(w, delay) && (steps != [] ==> AlwaysPrompt(rows, Next(rows, w, steps[0]), steps[1..], delay))
  }

  /** A Redis entry is written within `delay` of its row being read. */
  predicate RedisTimed(readAt: int, expiry: int, delay: nat) {
    readAt + REDIS_TTL <= expiry <= readAt + REDIS_TTL + delay
  }

  predicate OriginTimed(o: Origin, delay: nat) {
    o.redisExpiry.Some? ==> RedisTimed(o.readAt, o.redisExpiry.value, delay)
  }

  /** A memo entry from the database is put within `delay` of its row being read; one from
      Redis within `delay` of a moment at which the Redis entry was alive. */
  predicate MemoTimed(o: Origin, expiry: int, delay: nat) {
    && OriginTimed(o, delay)
    && expiry <= MEMO_TTL + delay + if o.redisExpiry.Some? then o.redisExpiry.value - 1 else o.readAt
  }

  predicate LookupTimed(k: Lookup, clock: int, delay: nat) {
    && k.began <= clock
    && (k.FillMemo? || k.FillRedis? ==>
          && OriginTimed(k.origin, delay)
          && (k.origin.redisExpiry.Some? ==> k.began < k.origin.redisExpiry.value)
          && (k.origin.redisExpiry.None? ==> k.began <= k.origin.readAt <= clock))
    && (k.FillRedis? ==> k.origin.redisExpiry.None?)
  }

  /** An answer served from the memo at or after the time its source Redis entry expired. */
  predicate LateHit(a: Answer) {
    a.hit.Some? && a.hit.value.redisExpiry.Some? && a.hit.value.redisExpiry.value <= a.at
  }

  predicate AnswerTimed(a: Answer, delay: nat) {
    && a.at - MEMO_TTL - REDIS_TTL - 2 * delay < a.readAt
    && (LateHit(a) ==> a.readAt <= a.at - REDIS_TTL)
    && (delay == 0 && a.readAt <= a.at - REDIS_TTL ==> LateHit(a))
  }

  ghost predicate MemosTimed(memos: map<nat, Memo>, origins: map<(nat, int), Origin>, delay: nat) {
    && (forall n :: n in memos ==> WellFormed(memos[n]))
    && (forall n, uid :: n in memos && uid in memos[n].expiries ==>
          (n, uid) in origins && MemoTimed(origins[(n, uid)], memos[n].expiries[uid], delay))
  }

  ghost predicate LookupsTimed(lookups: map<nat, Lookup>, clock: int, delay: nat) {
    forall t :: t in lookups ==> LookupTimed(lookups[t], clock, delay)
  }

  ghost predicate AllRedisTimed(redis: map<int, RedisEntry>, delay: nat) {
    forall uid :: uid in redis ==> RedisTimed(redis[uid].readAt, redis[uid].expiry, delay)
  }

  ghost predicate AnswersTimed(answers: seq<Answer>, delay: nat) {
    forall a :: a in answers ==> AnswerTimed(a, delay)
  }

  ghost predicate Timed(w: World, delay: nat) {
    && MemosTimed(w.memos, w.origins, delay) && LookupsTimed(w.lookups, w.clock, delay)
    && AllRedisTimed(w.redis, delay) && AnswersTimed(w.answers, delay)
  }

  lemma MemoChangesWellFormed(m: Memo, uid: int, now: int)
    requires WellFormed(m)
    ensures forall info :: WellFormed(AfterMemoPut(m, uid, info, now))
    ensures WellFormed(AfterMemoGet(m, uid, now)) && WellFormed(Dropped(m, uid))
  {
    MemoStaysBounded(m, uid, Info(0, "", ""), now);
    forall info ensures WellFormed(AfterMemoPut(m, uid, info, now)) {
      MemoStaysBounded(m, uid, info, now);
    }
  }

  lemma ShrinkKeepsTimed(w: World, n: nat, m: Memo, delay: nat)
    requires Timed(w, delay) && Shrunk(MemoOf(w, n), m) && WellFormed(m)
    ensures Timed(w.(memos := w.memos[n := m]), delay)
  {
    var memos := w.memos[n := m];
    forall i, uid | i in memos && uid in memos[i].expiries
      ensures (i, uid) in w.origins && MemoTimed(w.origins[(i, uid)], memos[i].expiries[uid], delay)
    {
      assert i in w.memos && uid in w.memos[i].expiries;
    }
  }

  lemma PutExpiries(m: Memo, uid: int, info: Info, now: int)
    ensures var n := AfterMemoPut(m, uid, info, now);
            forall u :: u in n.expiries ==>
              if u == uid then n.expiries[u] == now + MEMO_TTL else u in m.expiries && n.expiries[u] == m.expiries[u]
  {
  }

  lemma MemoWrittenKeepsTimed(w: World, k: Lookup, delay: nat)
    requires Timed(w, delay) && k.FillMemo? && MemoTimed(k.origin, w.clock + MEMO_TTL, delay)
    ensures Timed(MemoWritten(w, k), delay)
  {
    var m := MemoOf(w, k.worker);
    MemoChangesWellFormed(m, k.uid, w.clock);
    PutExpiries(m, k.uid, k.info, w.clock);
    PuttingKeepsTimed(w, k.worker, k.uid, AfterMemoPut(m, k.uid, k.info, w.clock), k.origin, delay);
  }

  lemma PuttingKeepsTimed(w: World, worker: nat, uid: int, n: Memo, o: Origin, delay: nat)
    requires MemosTimed(w.memos, w.origins, delay) && MemoTimed(o, w.clock + MEMO_TTL, delay) && WellFormed(n)
    requires forall u :: u in n.expiries ==>
               if u == uid then n.expiries[u] == w.clock + MEMO_TTL
               else u in MemoOf(w, worker).expiries && n.expiries[u] == MemoOf(w, worker).expiries[u]
    ensures MemosTimed(w.memos[worker := n], w.origins[(worker, uid) := o], delay)
  {
    var memos, origins := w.memos[worker := n], w.origins[(worker, uid) := o];
    forall i, u | i in memos && u in memos[i].expiries
      ensures (i, u) in origins && MemoTimed(origins[(i, u)], memos[i].expiries[u], delay)
    {
      if (i, u) != (worker, uid) {
        assert i in w.memos && u in w.memos[i].expiries && memos[i].expiries[u] == w.memos[i].expiries[u];
      }
    }
  }

  lemma LookupKeepsTimed(w: World, t: nat, k: Lookup, delay: nat)
    requires Timed(w, delay) && LookupTimed(k, w.clock, delay)
    ensures Timed(w.(lookups := w.lookups[t := k]), delay) && Timed(w.(lookups := w.lookups - {t}), delay)
  {
  }

  lemma AnsweringKeepsTimed(w: World, uid: int, info: Info, readAt: int, hit: Option<Origin>, delay: nat)
    requires Timed(w, delay) && AnswerTimed(Answer(uid, info, w.clock, readAt, hit), delay)
    ensures Timed(Answering(w, uid, info, readAt, hit), delay)
  {
  }

  lemma BegunKeepsTimed(w: World, t: nat, worker: nat, uid: int, delay: nat)
    requires Timed(w, delay)
    ensures Timed(Begun(w, t, worker, uid), delay)
  {
    var m := MemoOf(w, worker);
    MemoChangesWellFormed(m, uid, w.clock);
    ShrinkKeepsTimed(w, worker, AfterMemoGet(m, uid, w.clock), delay);
    var v := w.(memos := w.memos[worker := AfterMemoGet(m, uid, w.clock)]);
    if MemoHit(m, uid, w.clock) {
      assert worker in w.memos && uid in w.memos[worker].expiries;
      var o := OriginOf(w, worker, uid);
      AnsweringKeepsTimed(v, uid, m.infos[uid], o.readAt, Some(o), delay);
    } else {
      LookupKeepsTimed(v, t, AskRedis(worker, uid, w.clock), delay);
    }
  }

  lemma ReadsKeepTimed(rows: Rows, w: World, t: nat, k: Lookup, reachable: bool, delay: nat)
    requires Timed(w, delay) && LookupTimed(k, w.clock, delay)
    ensures k.AskRedis? ==> Timed(RedisRead(w, t, k, reachable), delay)
    ensures k.AskDatabase? ==> Timed(DatabaseRead(rows, w, t, k, reachable), delay)
  {
    LookupKeepsTimed(w, t, k, delay);
    if k.AskRedis? {
      if reachable && RedisHit(w, k.uid) {
        var e := w.redis[k.uid];
        var o := Origin(e.readAt, Some(e.expiry));
        LookupKeepsTimed(w, t, FillMemo(k.worker, k.uid, k.began, e.info, o), delay);
      } else {
        LookupKeepsTimed(w, t, AskDatabase(k.worker, k.uid, k.began), delay);
      }
    } else if k.AskDatabase? {
      var row := rows(k.uid, w.clock);
      if row.Some? {
        LookupKeepsTimed(w, t, FillMemo(k.worker, k.uid, k.began, row.value, Origin(w.clock, None)), delay);
      }
    }
  }

  lemma WritesKeepTimed(w: World, t: nat, k: Lookup, reachable: bool, delay: nat)
    requires Timed(w, delay) && LookupTimed(k, w.clock, delay) && w.clock <= k.began + delay
    ensures k.FillMemo? ==> Timed(MemoFilled(w, t, k), delay)
    ensures k.FillRedis? ==> Timed(RedisFilled(w, t, k, reachable), delay)
  {
    if k.FillMemo? {
      MemoWrittenKeepsTimed(w, k, delay);
      var v := MemoWritten(w, k);
      if k.origin.redisExpiry.None? {
        LookupKeepsTimed(v, t, FillRedis(k.worker, k.uid, k.began, k.info, k.origin), delay);
      } else {
        LookupKeepsTimed(v, t, k, delay);
        AnsweringKeepsTimed(v.(lookups := w.lookups - {t}), k.uid, k.info, k.origin.readAt, None, delay);
      }
    } else if k.FillRedis? {
      LookupKeepsTimed(w, t, k, delay);
      var e := RedisEntry(k.info, w.clock + REDIS_TTL, k.origin.readAt);
      var v := w.(lookups := w.lookups - {t}, redis := if reachable then w.redis[k.uid := e] else w.redis);
      AnsweringKeepsTimed(v, k.uid, k.info, k.origin.readAt, None, delay);
    }
  }

  lemma NextKeepsTimed(rows: Rows, w: World, s: Step, delay: nat)
    requires Timed(w, delay) && Prompt(w, delay)
    ensures Timed(Next(rows, w, s), delay)
  {
    match s
    case Tick(_) =>
    case Begin(t, worker, uid) => BegunKeepsTimed(w, t, worker, uid, delay);
    case ReadRedis(t, reachable) =>
      if t in w.lookups { ReadsKeepTimed(rows, w, t, w.lookups[t], reachable, delay); }
    case ReadDatabase(t, reachable) =>
      if t in w.lookups { ReadsKeepTimed(rows, w, t, w.lookups[t], reachable, delay); }
    case WriteMemo(t) => if t in w.lookups { WritesKeepTimed(w, t, w.lookups[t], true, delay); }
    case WriteRedis(t, reachable) => if t in w.lookups { WritesKeepTimed(w, t, w.lookups[t], reachable, delay); }
    case InvalidateMemo(worker, uid) =>
      MemoChangesWellFormed(MemoOf(w, worker), uid, w.clock);
      ShrinkKeepsTimed(w, worker, Dropped(MemoOf(w, worker), uid), delay);
    case InvalidateRedis(_) =>
  }

  lemma {:induction false} StepsKeepTimed(rows: Rows, w: World, steps: seq<Step>, delay: nat)
    requires Timed(w, delay) && AlwaysPrompt(rows, w, steps, delay)
    ensures Timed(Steps(rows, w, steps), delay)
    decreases |steps|
  {
    if steps != [] {
      NextKeepsTimed(rows, w, steps[0], delay);
      StepsKeepTimed(rows, Next(rows, w, steps[0]), steps[1..], delay);
    }
  }

  /** `info` was the user's row at some moment after `since` and no later than `until`. */
  ghost predicate WasRow(rows: Rows, uid: int, info: Info, since: int, until: int) {
    exists t :: since < t <= until && rows(uid, t) == Some(info)
  }

  /** In every interleaving where a lookup takes at most `delay` seconds, each answer was the
      user's row less than 900 + 2 * delay seconds before it was given, and no memo ever holds
      more than 4096 users. */
  lemma AnswersAreRecent(rows: Rows, steps: seq<Step>, delay: nat)
    requires AlwaysPrompt(rows, Cold, steps, delay)
    ensures forall a :: a in Steps(rows, Cold, steps).answers ==>
              WasRow(rows, a.uid, a.info, a.at - 900 - 2 * delay, a.at)
    ensures forall n :: n in Steps(rows, Cold, steps).memos ==> |Steps(rows, Cold, steps).memos[n].infos| <= 4096
  {
    StepsKeepSourced(rows, Cold, steps);
    StepsKeepTimed(rows, Cold, steps, delay);
    var w := Steps(rows, Cold, steps);
    forall a | a in w.answers ensures WasRow(rows, a.uid, a.info, a.at - 900 - 2 * delay, a.at) {
      assert Read(rows, a.uid, a.info, a.readAt, a.at) && AnswerTimed(a, delay);
    }
  }

  /** Once a user is invalidated, a lookup in that process finds neither tier and goes to the
      database. */
  lemma InvalidationForcesRead(rows: Rows, w: World, t: nat, worker: nat, uid: int)
    requires uid != 0 && t !in w.lookups
    ensures var a := Next(rows, Next(rows, w, InvalidateMemo(worker, uid)), InvalidateRedis(uid));
            var v := Next(rows, Next(rows, a, Begin(t, worker, uid)), ReadRedis(t, true));
            && v.answers == w.answers && t in v.lookups && v.lookups[t] == AskDatabase(worker, uid, w.clock)
  {
    var a := Next(rows, Next(rows, w, InvalidateMemo(worker, uid)), InvalidateRedis(uid));
    assert !MemoHit(MemoOf(a, worker), uid, a.clock) && !RedisHit(a, uid);
    var b := Next(rows, a, Begin(t, worker, uid));
    assert b.lookups[t] == AskRedis(worker, uid, w.clock);
  }

  lemma FiveSteps(rows: Rows, w: World, a: Step, b: Step, c: Step, d: Step, e: Step)
    ensures Steps(rows, w, [a, b, c, d, e]) ==
            Next(rows, Next(rows, Next(rows, Next(rows, Next(rows, w, a), b), c), d), e)
  {
    StepsAppend(rows, w, [], a);
    StepsAppend(rows, w, [] + [a], b);
    StepsAppend(rows, w, [] + [a] + [b], c);
    StepsAppend(rows, w, [] + [a] + [b] + [c], d);
    StepsAppend(rows, w, [] + [a] + [b] + [c] + [d], e);
    assert [] + [a] + [b] + [c] + [d] + [e] == [a, b, c, d, e];
  }

  /** With Redis unreachable a lookup that misses the memo answers with the user's row as it is,
      whatever Redis holds, and remembers it in the memo alone. */
  lemma LookupWithoutRedis(rows: Rows, w: World, t: nat, worker: nat, uid: int)
    requires uid != 0 && t !in w.lookups && rows(uid, w.clock).Some? && !MemoHit(MemoOf(w, worker), uid, w.clock)
    ensures var v := Steps(rows, w, [Begin(t, worker, uid), ReadRedis(t, false), ReadDatabase(t, true), WriteMemo(t),
                                     WriteRedis(t, false)]);
            && v.answers == w.answers + [Answer(uid, rows(uid, w.clock).value, w.clock, w.clock, None)]
            && v.redis == w.redis && v.lookups == w.lookups && v.clock == w.clock
            && MemoHit(MemoOf(v, worker), uid, w.clock) && MemoOf(v, worker).infos[uid] == rows(uid, w.clock).value
  {
    FiveSteps(rows, w, Begin(t, worker, uid), ReadRedis(t, false), ReadDatabase(t, true), WriteMemo(t),
              WriteRedis(t, false));
    var c := RowRead(rows, w, t, worker, uid);
    RowFilled(rows, c, t, FillMemo(worker, uid, w.clock, rows(uid, w.clock).value, Origin(w.clock, None)));
    assert c.lookups - {t} == w.lookups;
  }

  lemma RowRead(rows: Rows, w: World, t: nat, worker: nat, uid: int) returns (c: World)
    requires uid != 0 && t !in w.lookups && rows(uid, w.clock).Some? && !MemoHit(MemoOf(w, worker), uid, w.clock)
    ensures c ==
            Next(rows, Next(rows, Next(rows, w, Begin(t, worker, uid)), ReadRedis(t, false)), ReadDatabase(t, true))
    ensures c.answers == w.answers && c.redis == w.redis && c.clock == w.clock
    ensures c.lookups ==
            w.lookups[t := FillMemo(worker, uid, w.clock, rows(uid, w.clock).value, Origin(w.clock, None))]
  {
    var a := Next(rows, w, Begin(t, worker, uid));
    assert a.lookups[t] == AskRedis(worker, uid, w.clock);
    var b := Next(rows, a, ReadRedis(t, false));
    assert b.lookups[t] == AskDatabase(worker, uid, w.clock);
    c := Next(rows, b, ReadDatabase(t, true));
  }

  lemma RowFilled(rows: Rows, c: World, t: nat, k: Lookup)
    requires t in c.lookups && c.lookups[t] == k && k.FillMemo? && k.origin == Origin(c.clock, None)
    ensures var e := Next(rows, Next(rows, c, WriteMemo(t)), WriteRedis(t, false));
            && e.answers == c.answers + [Answer(k.uid, k.info, c.clock, c.clock, None)]
            && e.redis == c.redis && e.lookups == c.lookups - {t} && e.clock == c.clock
            && MemoHit(MemoOf(e, k.worker), k.uid, c.clock) && MemoOf(e, k.worker).infos[k.uid] == k.info
  {
    var d := Next(rows, c, WriteMemo(t));
    assert d.lookups[t] == FillRedis(k.worker, k.uid, k.began, k.info, k.origin);
    assert d.lookups - {t} == c.lookups - {t};
  }

  // ----- when an answer can be ten minutes old -----

  /** Two histories of the users table in which the same users exist at the same times. */
  ghost predicate SameUsers(rows: Rows, other: Rows) {
    forall uid, t :: rows(uid, t).Some? <==> other(uid, t).Some?
  }

  predicate AlikeMemo(m: Memo, n: Memo) { m.infos.Keys == n.infos.Keys && m.expiries == n.expiries }

  predicate AlikeLookup(k: Lookup, l: Lookup) {
    && k.worker == l.worker && k.uid == l.uid && k.began == l.began
    && (k.AskRedis? ==> l.AskRedis?) && (k.AskDatabase? ==> l.AskDatabase?)
    && (k.FillMemo? ==> l.FillMemo? && k.origin == l.origin)
    && (k.FillRedis? ==> l.FillRedis? && k.origin == l.origin)
  }

  predicate AlikeRedis(e: RedisEntry, f: RedisEntry) { e.expiry == f.expiry && e.readAt == f.readAt }

  predicate AlikeAnswer(a: Answer, b: Answer) {
    a.uid == b.uid && a.at == b.at && a.readAt == b.readAt && a.hit == b.hit
  }

  ghost predicate AlikeMemos(a: map<nat, Memo>, b: map<nat, Memo>) {
    a.Keys == b.Keys && forall n :: n in a ==> AlikeMemo(a[n], b[n])
  }

  ghost predicate AlikeLookups(a: map<nat, Lookup>, b: map<nat, Lookup>) {
    a.Keys == b.Keys && forall t :: t in a ==> AlikeLookup(a[t], b[t])
  }

  ghost predicate AlikeRedisMaps(a: map<int, RedisEntry>, b: map<int, RedisEntry>) {
    a.Keys == b.Keys && forall uid :: uid in a ==> AlikeRedis(a[uid], b[uid])
  }

  ghost predicate AlikeAnswers(a: seq<Answer>, b: seq<Answer>) {
    |a| == |b| && forall i :: 0 <= i < |a| ==> AlikeAnswer(a[i], b[i])
  }

  /** The two worlds differ in the values they hold and in nothing else. */
  ghost predicate Alike(w: World, v: World) {
    && w.clock == v.clock && w.origins == v.origins && AlikeMemos(w.memos, v.memos)
    && AlikeLookups(w.lookups, v.lookups) && AlikeRedisMaps(w.redis, v.redis) && AlikeAnswers(w.answers, v.answers)
  }

  lemma MemoStepsAlike(m: Memo, n: Memo, uid: int, a: Info, b: Info, now: int)
    requires AlikeMemo(m, n)
    ensures MemoHit(m, uid, now) == MemoHit(n, uid, now)
    ensures AlikeMemo(AfterMemoGet(m, uid, now), AfterMemoGet(n, uid, now))
    ensures AlikeMemo(AfterMemoPut(m, uid, a, now), AfterMemoPut(n, uid, b, now))
    ensures AlikeMemo(Dropped(m, uid), Dropped(n, uid))
  {
    assert |m.infos| == |m.infos.Keys| && |n.infos| == |n.infos.Keys|;
  }

  lemma MemoChangeAlike(w: World, v: World, n: nat, m: Memo, m': Memo)
    requires Alike(w, v) && AlikeMemo(m, m')
    ensures Alike(w.(memos := w.memos[n := m]), v.(memos := v.memos[n := m']))
  {
  }

  lemma LookupChangeAlike(w: World, v: World, t: nat, k: Lookup, l: Lookup)
    requires Alike(w, v) && AlikeLookup(k, l)
    ensures Alike(w.(lookups := w.lookups[t := k]), v.(lookups := v.lookups[t := l]))
    ensures Alike(w.(lookups := w.lookups - {t}), v.(lookups := v.lookups - {t}))
  {
  }

  lemma AnsweringAlike(w: World, v: World, uid: int, a: Info, b: Info, readAt: int, hit: Option<Origin>)
    requires Alike(w, v)
    ensures Alike(Answering(w, uid, a, readAt, hit), Answering(v, uid, b, readAt, hit))
  {
  }

  lemma MemosOfAlike(w: World, v: World, n: nat)
    requires Alike(w, v)
    ensures AlikeMemo(MemoOf(w, n), MemoOf(v, n))
  {
  }

  lemma BegunAlike(w: World, v: World, t: nat, worker: nat, uid: int)
    requires Alike(w, v)
    ensures Alike(Begun(w, t, worker, uid), Begun(v, t, worker, uid))
  {
    var m, n, now := MemoOf(w, worker), MemoOf(v, worker), w.clock;
    MemosOfAlike(w, v, worker);
    MemoStepsAlike(m, n, uid, Info(0, "", ""), Info(0, "", ""), now);
    MemoChangeAlike(w, v, worker, AfterMemoGet(m, uid, now), AfterMemoGet(n, uid, now));
    var w' := w.(memos := w.memos[worker := AfterMemoGet(m, uid, now)]);
    var v' := v.(memos := v.memos[worker := AfterMemoGet(n, uid, now)]);
    if MemoHit(m, uid, now) {
      var o := OriginOf(w, worker, uid);
      AnsweringAlike(w', v', uid, m.infos[uid], n.infos[uid], o.readAt, Some(o));
    } else {
      LookupChangeAlike(w', v', t, AskRedis(worker, uid, now), AskRedis(worker, uid, now));
    }
  }

  lemma RedisReadAlike(w: World, v: World, t: nat, k: Lookup, l: Lookup, reachable: bool)
    requires Alike(w, v) && AlikeLookup(k, l) && k.AskRedis?
    ensures Alike(RedisRead(w, t, k, reachable), RedisRead(v, t, l, reachable))
  {
    if k.uid in w.redis {
      var e, f := w.redis[k.uid], v.redis[k.uid];
      assert AlikeRedis(e, f);
      var o := Origin(e.readAt, Some(e.expiry));
      LookupChangeAlike(w, v, t, FillMemo(k.worker, k.uid, k.began, e.info, o),
                        FillMemo(k.worker, k.uid, k.began, f.info, o));
    }
    LookupChangeAlike(w, v, t, AskDatabase(k.worker, k.uid, k.began), AskDatabase(k.worker, k.uid, k.began));
  }

  lemma DatabaseReadAlike(rows: Rows, other: Rows, w: World, v: World, t: nat, k: Lookup, l: Lookup, reachable: bool)
    requires SameUsers(rows, other) && Alike(w, v) && AlikeLookup(k, l) && k.AskDatabase?
    ensures Alike(DatabaseRead(rows, w, t, k, reachable), DatabaseRead(other, v, t, l, reachable))
  {
    var a, b := rows(k.uid, w.clock), other(k.uid, w.clock);
    assert a.Some? <==> b.Some?;
    LookupChangeAlike(w, v, t, k, l);
    if a.Some? {
      var o := Origin(w.clock, None);
      LookupChangeAlike(w, v, t, FillMemo(k.worker, k.uid, k.began, a.value, o),
                        FillMemo(k.worker, k.uid, k.began, b.value, o));
    }
  }

  lemma MemoFilledAlike(w: World, v: World, t: nat, k: Lookup, l: Lookup)
    requires Alike(w, v) && AlikeLookup(k, l) && k.FillMemo?
    ensures Alike(MemoFilled(w, t, k), MemoFilled(v, t, l))
  {
    var m, n, now, o := MemoOf(w, k.worker), MemoOf(v, k.worker), w.clock, k.origin;
    MemosOfAlike(w, v, k.worker);
    MemoStepsAlike(m, n, k.uid, k.info, l.info, now);
    MemoChangeAlike(w, v, k.worker, AfterMemoPut(m, k.uid, k.info, now), AfterMemoPut(n, k.uid, l.info, now));
    var w', v' := MemoWritten(w, k), MemoWritten(v, l);
    assert Alike(w', v');
    if o.redisExpiry.None? {
      LookupChangeAlike(w', v', t, FillRedis(k.worker, k.uid, k.began, k.info, o),
                        FillRedis(k.worker, k.uid, k.began, l.info, o));
    } else {
      LookupChangeAlike(w', v', t, k, l);
      AnsweringAlike(w'.(lookups := w.lookups - {t}), v'.(lookups := v.lookups - {t}),
                     k.uid, k.info, l.info, o.readAt, None);
    }
  }

  lemma RedisChangeAlike(a: map<int, RedisEntry>, b: map<int, RedisEntry>, uid: int, e: RedisEntry, f: RedisEntry)
    requires AlikeRedisMaps(a, b) && AlikeRedis(e, f)
    ensures AlikeRedisMaps(a[uid := e], b[uid := f])
  {
  }

  lemma RedisFilledAlike(w: World, v: World, t: nat, k: Lookup, l: Lookup, reachable: bool)
    requires Alike(w, v) && AlikeLookup(k, l) && k.FillRedis?
    ensures Alike(RedisFilled(w, t, k, reachable), RedisFilled(v, t, l, reachable))
  {
    LookupChangeAlike(w, v, t, k, l);
    var e := RedisEntry(k.info, w.clock + REDIS_TTL, k.origin.readAt);
    var f := RedisEntry(l.info, w.clock + REDIS_TTL, k.origin.readAt);
    var a := if reachable then w.redis[k.uid := e] else w.redis;
    var b := if reachable then v.redis[k.uid := f] else v.redis;
    RedisChangeAlike(w.redis, v.redis, k.uid, e, f);
    AnsweringAlike(w.(lookups := w.lookups - {t}, redis := a), v.(lookups := v.lookups - {t}, redis := b),
                   k.uid, k.info, l.info, k.origin.readAt, None);
  }

  lemma NextKeepsAlike(rows: Rows, other: Rows, w: World, v: World, s: Step)
    requires SameUsers(rows, other) && Alike(w, v)
    ensures Alike(Next(rows, w, s), Next(other, v, s))
  {
    match s
    case Tick(_) =>
    case Begin(t, worker, uid) => BegunAlike(w, v, t, worker, uid);
    case ReadRedis(t, reachable) =>
      if t in w.lookups && w.lookups[t].AskRedis? {
        RedisReadAlike(w, v, t, w.lookups[t], v.lookups[t], reachable);
      }
    case ReadDatabase(t, reachable) =>
      if t in w.lookups && w.lookups[t].AskDatabase? {
        DatabaseReadAlike(rows, other, w, v, t, w.lookups[t], v.lookups[t], reachable);
      }
    case WriteMemo(t) =>
      if t in w.lookups && w.lookups[t].FillMemo? {
        MemoFilledAlike(w, v, t, w.lookups[t], v.lookups[t]);
      }
    case WriteRedis(t, reachable) =>
      if t in w.lookups && w.lookups[t].FillRedis? {
        RedisFilledAlike(w, v, t, w.lookups[t], v.lookups[t], reachable);
      }
    case InvalidateMemo(worker, uid) =>
      MemosOfAlike(w, v, worker);
      MemoStepsAlike(MemoOf(w, worker), MemoOf(v, worker), uid, Info(0, "", ""), Info(0, "", ""), w.clock);
      MemoChangeAlike(w, v, worker, Dropped(MemoOf(w, worker), uid), Dropped(MemoOf(v, worker), uid));
    case InvalidateRedis(_) =>
  }

  /** The values in the users table steer no lookup: only who exists does. */
  lemma {:induction false} StepsKeepAlike(rows: Rows, other: Rows, w: World, v: World, steps: seq<Step>)
    requires SameUsers(rows, other) && Alike(w, v)
    ensures Alike(Steps(rows, w, steps), Steps(other, v, steps))
    decreases |steps|
  {
    if steps != [] {
      NextKeepsAlike(rows, other, w, v, steps[0]);
      StepsKeepAlike(rows, other, Next(rows, w, steps[0]), Next(other, v, steps[0]), steps[1..]);
    }
  }

  /** The `i`-th answer of a run had not been the user's row for the last `age` seconds. */
  ghost predicate StaleAnswer(rows: Rows, steps: seq<Step>, i: nat, age: int) {
    && i < |Steps(rows, Cold, steps).answers|
    && var a := Steps(rows, Cold, steps).answers[i];
       !WasRow(rows, a.uid, a.info, a.at - age, a.at)
  }

  /** The same steps give such an answer for some history of the users' names. */
  ghost predicate CanBeStale(rows: Rows, steps: seq<Step>, i: nat, age: int) {
    exists other: Rows :: SameUsers(rows, other) && StaleAnswer(other, steps, i, age)
  }

  /** The history in which the user is renamed for good right after `readAt`. */
  function RenamedAfter(rows: Rows, uid: int, readAt: int): Rows {
    (u, t) =>
      if u == uid && t > readAt && rows(u, t).Some? && rows(uid, readAt).Some?
      then Some(rows(uid, readAt).value.(name := rows(uid, readAt).value.name + "x")) else rows(u, t)
  }

  /** For every run and every age: an answer can be that old if and only if its row was read
      that long before. */
  lemma StaleExactly(rows: Rows, steps: seq<Step>, i: nat, age: int)
    requires i < |Steps(rows, Cold, steps).answers|
    ensures var a := Steps(rows, Cold, steps).answers[i];
            CanBeStale(rows, steps, i, age) <==> a.readAt <= a.at - age
  {
    var a := Steps(rows, Cold, steps).answers[i];
    if a.readAt <= a.at - age {
      var other := RenamedAfter(rows, a.uid, a.readAt);
      assert SameUsers(rows, other);
      SameAnswer(rows, other, steps, i);
      assert |a.info.name + "x"| != |a.info.name|;
      assert forall t :: t > a.readAt ==> other(a.uid, t) != Some(a.info);
      assert StaleAnswer(other, steps, i, age);
    }
    if other: Rows :| SameUsers(rows, other) && StaleAnswer(other, steps, i, age) {
      SameAnswer(rows, other, steps, i);
    }
  }

  lemma SameAnswer(rows: Rows, other: Rows, steps: seq<Step>, i: nat)
    requires SameUsers(rows, other) && i < |Steps(rows, Cold, steps).answers|
    ensures i < |Steps(other, Cold, steps).answers|
    ensures var a, b := Steps(rows, Cold, steps).answers[i], Steps(other, Cold, steps).answers[i];
            AlikeAnswer(a, b) && Read(rows, a.uid, a.info, a.readAt, a.at)
            && Read(other, b.uid, b.info, b.readAt, b.at)
  {
    StepsKeepAlike(rows, other, Cold, Cold, steps);
    StepsKeepSourced(rows, Cold, steps);
    StepsKeepSourced(other, Cold, steps);
    assert Steps(rows, Cold, steps).answers[i] in Steps(rows, Cold, steps).answers;
    assert Steps(other, Cold, steps).answers[i] in Steps(other, Cold, steps).answers;
  }

  /** With lookups that take no time, an answer can be ten minutes old or more, for some
      history of the users' names, if and only if it is a memo hit served once the Redis entry
      it was copied from has expired. */
  lemma TenMinutesExactly(rows: Rows, steps: seq<Step>, i: nat)
    requires AlwaysPrompt(rows, Cold, steps, 0) && i < |Steps(rows, Cold, steps).answers|
    ensures CanBeStale(rows, steps, i, 600) <==> LateHit(Steps(rows, Cold, steps).answers[i])
  {
    StaleExactly(rows, steps, i, 600);
    StepsKeepTimed(rows, Cold, steps, 0);
    assert Steps(rows, Cold, steps).answers[i] in Steps(rows, Cold, steps).answers;
  }

  /** However long lookups take, such a hit can be that old. */
  lemma LateHitCanBeStale(rows: Rows, steps: seq<Step>, delay: nat, i: nat)
    requires AlwaysPrompt(rows, Cold, steps, delay) && i < |Steps(rows, Cold, steps).answers|
    requires LateHit(Steps(rows, Cold, steps).answers[i])
    ensures CanBeStale(rows, steps, i, 600)
  {
    StaleExactly(rows, steps, i, 600);
    StepsKeepTimed(rows, Cold, steps, delay);
    assert Steps(rows, Cold, steps).answers[i] in Steps(rows, Cold, steps).answers;
  }

  // ----- an instance -----

  lemma {:induction false} StepsAppend(rows: Rows, w: World, steps: seq<Step>, s: Step)
    ensures Steps(rows, w, steps + [s]) == Next(rows, Steps(rows, w, steps), s)
    ensures AlwaysPrompt(rows, w, steps, 0) && Prompt(Next(rows, Steps(rows, w, steps), s), 0) ==>
              AlwaysPrompt(rows, w, steps + [s], 0)
    decreases |steps|
  {
    if steps == [] {
      assert ([] + [s])[1..] == [];
    } else {
      assert (steps + [s])[1..] == steps[1..] + [s];
      StepsAppend(rows, Next(rows, w, steps[0]), steps[1..], s);
    }
  }

  lemma Extend(rows: Rows, steps: seq<Step>, w: World, s: Step) returns (longer: seq<Step>, v: World)
    requires Steps(rows, Cold, steps) == w && AlwaysPrompt(rows, Cold, steps, 0) && Prompt(Next(rows, w, s), 0)
    ensures v == Next(rows, w, s)
    ensures Steps(rows, Cold, longer) == v && AlwaysPrompt(rows, Cold, longer, 0)
  {
    StepsAppend(rows, Cold, steps, s);
    longer, v := steps + [s], Next(rows, w, s);
  }

  const FromDatabase := Origin(0, None)
  const FromRedis := Origin(0, Some(600))

  function Asking(k: Lookup): World {
    World(0, map[1 := Memo(map[], map[])], map[], map[], map[1 := k], [])
  }

  function Filled(was: Info, lookups: map<nat, Lookup>): World {
    World(0, map[1 := Memo(map[7 := was], map[7 := 300])], map[(1, 7) := FromDatabase], map[], lookups, [])
  }

  function Warm(was: Info): World {
    Filled(was, map[]).(redis := map[7 := RedisEntry(was, 600, 0)], answers := [Answer(7, was, 0, 0, None)])
  }

  lemma DatabaseLookupBegins(rows: Rows)
    ensures Next(rows, Cold, Begin(1, 1, 7)) == Asking(AskRedis(1, 7, 0))
  {
    assert Dropped(Memo(map[], map[]), 7) == Memo(map[], map[]);
  }

  lemma DatabaseLookupMisses(rows: Rows)
    ensures Next(rows, Asking(AskRedis(1, 7, 0)), ReadRedis(1, true)) == Asking(AskDatabase(1, 7, 0))
  {
    var w := Asking(AskRedis(1, 7, 0));
    assert w.lookups[1 := AskDatabase(1, 7, 0)] == map[1 := AskDatabase(1, 7, 0)];
  }

  lemma DatabaseLookupReads(rows: Rows, was: Info)
    requires rows(7, 0) == Some(was)
    ensures Next(rows, Asking(AskDatabase(1, 7, 0)), ReadDatabase(1, true)) ==
            Asking(FillMemo(1, 7, 0, was, FromDatabase))
  {
    var w := Asking(AskDatabase(1, 7, 0));
    var k := FillMemo(1, 7, 0, was, FromDatabase);
    assert w.lookups[1 := k] == map[1 := k];
  }

  lemma DatabaseLookupFills(rows: Rows, was: Info)
    ensures Next(rows, Asking(FillMemo(1, 7, 0, was, FromDatabase)), WriteMemo(1)) ==
            Filled(was, map[1 := FillRedis(1, 7, 0, was, FromDatabase)])
  {
    var k := FillMemo(1, 7, 0, was, FromDatabase);
    var m := AfterMemoPut(Memo(map[], map[]), 7, was, 0);
    assert m == Memo(map[7 := was], map[7 := 300]);
    assert map[1 := Memo(map[], map[])][1 := m] == map[1 := m];
    var l := FillRedis(1, 7, 0, was, FromDatabase);
    assert map[1 := k][1 := l] == map[1 := l];
  }

  lemma DatabaseLookupEnds(rows: Rows, was: Info)
    ensures Next(rows, Filled(was, map[1 := FillRedis(1, 7, 0, was, FromDatabase)]), WriteRedis(1, true)) == Warm(was)
  {
    var l := FillRedis(1, 7, 0, was, FromDatabase);
    assert map[1 := l] - {1} == map[];
  }

  lemma LookupFromDatabase(rows: Rows, was: Info) returns (steps: seq<Step>, w: World)
    requires rows(7, 0) == Some(was)
    ensures Steps(rows, Cold, steps) == w && AlwaysPrompt(rows, Cold, steps, 0) && w == Warm(was)
  {
    DatabaseLookupBegins(rows);
    DatabaseLookupMisses(rows);
    DatabaseLookupReads(rows, was);
    DatabaseLookupFills(rows, was);
    DatabaseLookupEnds(rows, was);
    steps, w := Extend(rows, [], Cold, Begin(1, 1, 7));
    steps, w := Extend(rows, steps, w, ReadRedis(1, true));
    steps, w := Extend(rows, steps, w, ReadDatabase(1, true));
    steps, w := Extend(rows, steps, w, WriteMemo(1));
    steps, w := Extend(rows, steps, w, WriteRedis(1, true));
  }

  /** A second process reads the entry from Redis in its last second. */
  ghost predicate Copied(was: Info, w: World, answers: seq<Answer>) {
    && w.clock == 599 && w.lookups == map[] && MemoOf(w, 2) == Memo(map[7 := was], map[7 := 899])
    && OriginOf(w, 2, 7) == FromRedis && w.answers == answers + [Answer(7, was, 599, 0, None)]
  }

  lemma LookupFromRedis(rows: Rows, was: Info, before: seq<Step>, start: World) returns (steps: seq<Step>, w: World)
    requires Steps(rows, Cold, before) == start && AlwaysPrompt(rows, Cold, before, 0)
    requires start.clock == 0 && start.lookups == map[] && 2 !in start.memos
    requires start.redis == map[7 := RedisEntry(was, 600, 0)]
    ensures Steps(rows, Cold, steps) == w && AlwaysPrompt(rows, Cold, steps, 0) && Copied(was, w, start.answers)
  {
    steps, w := Extend(rows, before, start, Tick(599));
    steps, w := Extend(rows, steps, w, Begin(1, 2, 7));
    assert w.lookups[1] == AskRedis(2, 7, 599) && MemoOf(w, 2) == Memo(map[], map[]);
    steps, w := Extend(rows, steps, w, ReadRedis(1, true));
    steps, w := MemoFromRedis(rows, was, steps, w);
  }

  lemma MemoFromRedis(rows: Rows, was: Info, before: seq<Step>, start: World) returns (steps: seq<Step>, w: World)
    requires Steps(rows, Cold, before) == start && AlwaysPrompt(rows, Cold, before, 0) && start.clock == 599
    requires start.lookups == map[1 := FillMemo(2, 7, 599, was, FromRedis)] && MemoOf(start, 2) == Memo(map[], map[])
    ensures Steps(rows, Cold, steps) == w && AlwaysPrompt(rows, Cold, steps, 0) && Copied(was, w, start.answers)
  {
    steps, w := Extend(rows, before, start, WriteMemo(1));
    assert w.lookups.Keys == {};
  }

  /** A second process can refill its memo from Redis just before the Redis entry expires, so
      even instantaneous lookups can answer with a name changed 898 seconds before. */
  lemma StaleBeyondTenMinutes(was: Info, becomes: Info) returns (rows: Rows, steps: seq<Step>)
    requires was != becomes
    ensures forall t :: rows(7, t) == Some(if t <= 0 then was else becomes)
    ensures AlwaysPrompt(rows, Cold, steps, 0)
    ensures Steps(rows, Cold, steps).answers ==
            [Answer(7, was, 0, 0, None), Answer(7, was, 599, 0, None), Answer(7, was, 898, 0, Some(FromRedis))]
  {
    rows := (uid, t) => Some(if t <= 0 then was else becomes);
    var w;
    steps, w := LookupFromDatabase(rows, was);
    steps, w := LookupFromRedis(rows, was, steps, w);
    steps, w := Extend(rows, steps, w, Tick(299));
    assert MemoHit(MemoOf(w, 2), 7, 898) && OriginOf(w, 2, 7) == FromRedis;
    steps, w := Extend(rows, steps, w, Begin(1, 2, 7));
  }
}
