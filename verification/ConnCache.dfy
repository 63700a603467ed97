/**
 The cache of cloud connections of CloudDriverHandler_common.go: first one caller at a time, then any
 number of concurrent callers over a sync.Map whose operations are the atomic steps. `key` stands for
 the hash that turns a ConnectionInfo into a cache key.
 */
module ConnCache {
  import opened Strings

  type Info = string  // a ConnectionInfo
  type Time = int

  const TTL := 50 * 60 * 1_000_000_000  // connectionCacheTTL, in nanoseconds

  /** A connection, as ConnectCloud made it. */
  datatype Conn = Conn(serial: nat, info: Info)

  datatype Entry = Entry(conn: Conn, expiresAt: Time)

  type Cache = map<string, Entry>

  ghost predicate Injective(key: Info -> string) {
    forall i, j :: key(i) == key(j) ==> i == j
  }

  // ------------------------------------------------------------------ one caller at a time

  /** Without the entries that have expired before `now`. */
  function Purged(cache: Cache, now: Time): Cache {
    map k | k in cache && !(now > cache[k].expiresAt) :: cache[k]
  }

  /** An entry that is given out: profiling asks for a new connection every time. */
  predicate Hit(cache: Cache, key: string, profiling: bool, now: Time) {
    !profiling && key in cache && now < cache[key].expiresAt
  }

  class ConnectionCache {
    var entries: Cache

    constructor ()
      ensures entries == map[]
    {
      entries := map[];
    }

    /**
     commonGetCloudConnection: `asked` and `made` are the readings of the clock at the lookup and after
     ConnectCloud, which answers `connected`.
     */
    method CommonGetCloudConnection(info: Info, key: Info -> string, profiling: bool, asked: Time, connected: Option<Conn>, made: Time)
        returns (r: Option<Conn>)
      modifies this
      ensures Hit(old(entries), key(info), profiling, asked) ==>
                r == Some(old(entries)[key(info)].conn) && entries == old(entries)
      ensures !Hit(old(entries), key(info), profiling, asked) ==>
                r == connected && entries == if connected.None? then old(entries)
                                             else Purged(old(entries), made)[key(info) := Entry(connected.value, made + TTL)]
      // profiling always connects anew, an entry serves until it expires
      ensures profiling || key(info) !in old(entries) || asked >= old(entries)[key(info)].expiresAt ==> r == connected
      ensures !profiling && key(info) in old(entries) && asked < old(entries)[key(info)].expiresAt ==>
                r == Some(old(entries)[key(info)].conn) && entries == old(entries)
      ensures !Hit(old(entries), key(info), profiling, asked) && connected.Some? ==>
                (forall k | k in entries :: made <= entries[k].expiresAt) &&
                (forall k | k != key(info) :: k in entries <==> k in old(entries) && made <= old(entries)[k].expiresAt)
    {
      var cacheKey := key(info);
      if !profiling && cacheKey in entries && asked < entries[cacheKey].expiresAt {
        return Some(entries[cacheKey].conn);
      }
      if connected.None? { return None; }
      ghost var before := entries;
      var todo := entries.Keys;
      while todo != {}
        invariant todo <= before.Keys
        invariant entries == map k | k in before && (k in todo || !(made > before[k].expiresAt)) :: before[k]
        decreases |todo|
      {
        var k :| k in todo;
        if k in entries && made > entries[k].expiresAt {
          entries := entries - {k};
        }
        todo := todo - {k};
      }
      assert entries == Purged(before, made);
      entries := entries[cacheKey := Entry(connected.value, made + TTL)];
      return connected;
    }
  }

  // ------------------------------------------------------------------ concurrent callers

  type Tid = nat

  datatype Pc =
    | Arrived
    | Loaded(found: Option<Entry>)
    | Connecting
    | Built(conn: Conn)
    | Ranging(conn: Conn, now: Time)                                    // `now` has been read
    | Visiting(conn: Conn, now: Time, visited: string, entry: Entry)    // Range has shown an entry

  datatype Caller = Caller(info: Info, pc: Pc)

  /** A connection given to a caller, with the clock's reading at the test of the cached entry. */
  datatype Answer = Cached(info: Info, conn: Conn, at: Time) | New(info: Info, conn: Conn)

  datatype State = State(
    cache: Cache,
    clock: Time,
    callers: map<Tid, Caller>,
    stamps: map<Conn, Time>,  // when the connection was stamped, after it was built
    nextSerial: nat,
    answers: seq<Answer>)

  datatype Action =
    | Tick(d: nat)
    | Arrive(t: Tid, info: Info)
    | Load(t: Tid, profiling: bool)
    | Test(t: Tid)
    | Connect(t: Tid, ok: bool)
    | Stamp(t: Tid)
    | Visit(t: Tid, k: string)
    | Drop(t: Tid)
    | Store(t: Tid)

  const Init := State(map[], 0, map[], map[], 0, [])

  predicate At(s: State, t: Tid) { t in s.callers }

  predicate Enabled(s: State, a: Action) {
    match a
    case Tick(_) => true
    case Arrive(t, _) => t !in s.callers
    case Load(t, _) => At(s, t) && s.callers[t].pc.Arrived?
    case Test(t) => At(s, t) && s.callers[t].pc.Loaded?
    case Connect(t, _) => At(s, t) && s.callers[t].pc.Connecting?
    case Stamp(t) => At(s, t) && s.callers[t].pc.Built?
    case Visit(t, k) => At(s, t) && s.callers[t].pc.Ranging? && k in s.cache
    case Drop(t) => At(s, t) && s.callers[t].pc.Visiting?
    case Store(t) => At(s, t) && s.callers[t].pc.Ranging?
  }

  function Goto(s: State, t: Tid, pc: Pc): State
    requires t in s.callers
  {
    s.(callers := s.callers[t := s.callers[t].(pc := pc)])
  }

  function Return(s: State, t: Tid, answer: Answer): State {
    s.(callers := s.callers - {t}, answers := s.answers + [answer])
  }

  function Apply(key: Info -> string, s: State, a: Action): State
    requires Enabled(s, a)
  {
    match a
    case Tick(d) => s.(clock := s.clock + d)
    case Arrive(t, info) => s.(callers := s.callers[t := Caller(info, Arrived)])
    case Load(t, profiling) =>
      var k := key(s.callers[t].info);
      Goto(s, t, if profiling then Connecting else Loaded(if k in s.cache then Some(s.cache[k]) else None))
    case Test(t) =>
      var found := s.callers[t].pc.found;
      if found.Some? && s.clock < found.value.expiresAt
      then Return(s, t, Cached(s.callers[t].info, found.value.conn, s.clock)) else Goto(s, t, Connecting)
    case Connect(t, ok) =>
      if ok then Goto(s, t, Built(Conn(s.nextSerial, s.callers[t].info))).(nextSerial := s.nextSerial + 1)
      else s.(callers := s.callers - {t})
    case Stamp(t) =>
      var conn := s.callers[t].pc.conn;
      Goto(s, t, Ranging(conn, s.clock)).(stamps := s.stamps[conn := s.clock])
    case Visit(t, k) => Goto(s, t, Visiting(s.callers[t].pc.conn, s.callers[t].pc.now, k, s.cache[k]))
    case Drop(t) =>
      var pc := s.callers[t].pc;
      Goto(s, t, Ranging(pc.conn, pc.now)).(cache := if pc.now > pc.entry.expiresAt then s.cache - {pc.visited} else s.cache)
    case Store(t) =>
      var pc := s.callers[t].pc;
      Return(s, t, New(s.callers[t].info, pc.conn)).(
        cache := s.cache[key(s.callers[t].info) := Entry(pc.conn, pc.now + TTL)])
  }

  // ------------------------------------------------------------------ the invariant

  /** A connection whose stamping is on record, and the end of its time. */
  predicate Stamped(s: State, conn: Conn, expiresAt: Time) {
    conn.serial < s.nextSerial && conn in s.stamps && expiresAt == s.stamps[conn] + TTL
  }

  predicate EntryInv(s: State, key: Info -> string, k: string, e: Entry) {
    key(e.conn.info) == k && Stamped(s, e.conn, e.expiresAt)
  }

  predicate CallerInv(s: State, key: Info -> string, c: Caller) {
    match c.pc
    case Loaded(Some(e)) => EntryInv(s, key, key(c.info), e)
    case Built(conn) => conn.info == c.info && conn.serial < s.nextSerial && conn !in s.stamps
    case Ranging(conn, now) => conn.info == c.info && Stamped(s, conn, now + TTL)
    case Visiting(conn, now, _, _) => conn.info == c.info && Stamped(s, conn, now + TTL)
    case _ => true
  }

  /** The answer's connection has its caller's key; a cached one was within its time when looked at. */
  predicate AnswerInv(s: State, key: Info -> string, a: Answer) {
    match a
    case Cached(info, conn, at) => key(conn.info) == key(info) && conn in s.stamps && at < s.stamps[conn] + TTL
    case New(info, conn) => conn.info == info
  }

  ghost predicate Inv(s: State, key: Info -> string) {
    && (forall k | k in s.cache :: EntryInv(s, key, k, s.cache[k]))
    && (forall t | t in s.callers :: CallerInv(s, key, s.callers[t]))
    && (forall t, u | t in s.callers && u in s.callers && t != u && s.callers[t].pc.Built? && s.callers[u].pc.Built? ::
          s.callers[t].pc.conn != s.callers[u].pc.conn)
    && (forall conn | conn in s.stamps :: conn.serial < s.nextSerial && s.stamps[conn] <= s.clock)
    && (forall i | 0 <= i < |s.answers| :: AnswerInv(s, key, s.answers[i]))
  }

  /** What a step may do to the records that the invariant rests on. */
  predicate Grows(s: State, s': State) {
    s.nextSerial <= s'.nextSerial && forall conn | conn in s.stamps :: conn in s'.stamps && s'.stamps[conn] == s.stamps[conn]
  }

  /** A step of caller `t` keeps the invariant when its own part and the one entry it may store keep it. */
  lemma StepOfKeepsInv(s: State, s': State, key: Info -> string, t: Tid, stored: string)
    requires Inv(s, key) && Grows(s, s') && s'.clock >= s.clock
    requires forall u | u in s'.callers && u != t :: u in s.callers && s'.callers[u] == s.callers[u]
    requires forall k | k in s'.cache && k != stored :: k in s.cache && s'.cache[k] == s.cache[k]
    requires stored in s'.cache ==> EntryInv(s', key, stored, s'.cache[stored])
    requires t in s'.callers ==> CallerInv(s', key, s'.callers[t])
    requires forall u | u in s.callers && u != t && s.callers[u].pc.Built? ::
               s.callers[u].pc.conn !in s'.stamps && (t in s'.callers && s'.callers[t].pc.Built? ==> s'.callers[t].pc.conn != s.callers[u].pc.conn)
    requires forall conn | conn in s'.stamps :: conn.serial < s'.nextSerial && s'.stamps[conn] <= s'.clock
    requires s.answers <= s'.answers && forall i | |s.answers| <= i < |s'.answers| :: AnswerInv(s', key, s'.answers[i])
    ensures Inv(s', key)
  {}

  lemma TickKeepsInv(key: Info -> string, s: State, d: nat)
    requires Inv(s, key)
    ensures Inv(s.(clock := s.clock + d), key)
  {}

  lemma StepKeepsInv(key: Info -> string, s: State, a: Action)
    requires Inv(s, key) && Enabled(s, a)
    ensures Inv(Apply(key, s, a), key)
  {
    if a.Tick? {
      TickKeepsInv(key, s, a.d);
    } else {
      CallerStep(key, s, a);
    }
  }

  lemma CallerStep(key: Info -> string, s: State, a: Action)
    requires Inv(s, key) && Enabled(s, a) && !a.Tick?
    ensures Inv(Apply(key, s, a), key)
  {
    if a.t in s.callers { assert CallerInv(s, key, s.callers[a.t]); }
    if a.Visit? || a.Drop? || a.Store? {
      StepOfKeepsInv(s, Apply(key, s, a), key, a.t, key(s.callers[a.t].info));
    } else {
      CacheKeptStep(key, s, a);
    }
  }

  /** The steps up to the stamping leave the cache alone. */
  lemma CacheKeptStep(key: Info -> string, s: State, a: Action)
    requires Inv(s, key) && Enabled(s, a) && (a.Arrive? || a.Load? || a.Test? || a.Connect? || a.Stamp?)
    requires a.t in s.callers ==> CallerInv(s, key, s.callers[a.t])
    ensures Inv(Apply(key, s, a), key)
  {
    var k := if a.Arrive? then "" else key(s.callers[a.t].info);
    assert k in s.cache ==> EntryInv(s, key, k, s.cache[k]);
    if a.Stamp? {
      StampedStep(key, s, a.t);
    } else {
      CacheKeptCaller(key, s, a, k);
    }
    StepOfKeepsInv(s, Apply(key, s, a), key, a.t, k);
  }

  /** What the stepping caller has is in order afterwards. */
  lemma CacheKeptCaller(key: Info -> string, s: State, a: Action, k: string)
    requires Inv(s, key) && Enabled(s, a) && (a.Arrive? || a.Load? || a.Test? || a.Connect?)
    requires a.t in s.callers ==> CallerInv(s, key, s.callers[a.t]) && k == key(s.callers[a.t].info)
    requires k in s.cache ==> EntryInv(s, key, k, s.cache[k])
    ensures var s' := Apply(key, s, a);
            && s'.stamps == s.stamps && s'.cache == s.cache && s.nextSerial <= s'.nextSerial
            && (a.t in s'.callers ==> CallerInv(s', key, s'.callers[a.t]))
            && (s'.answers == s.answers || (|s'.answers| == |s.answers| + 1 && s.answers <= s'.answers && AnswerInv(s', key, s'.answers[|s.answers|])))
  {}

  lemma StampedStep(key: Info -> string, s: State, t: Tid)
    requires Inv(s, key) && Enabled(s, Stamp(t)) && CallerInv(s, key, s.callers[t])
    ensures var s' := Apply(key, s, Stamp(t));
            Grows(s, s') && CallerInv(s', key, s'.callers[t]) && s'.answers == s.answers && s'.cache == s.cache
  {}

  // ------------------------------------------------------------------ every run

  function Run(key: Info -> string, s: State, acts: seq<Action>): Option<State>
    decreases |acts|
  {
    if acts == [] then Some(s)
    else if Enabled(s, acts[0]) then Run(key, Apply(key, s, acts[0]), acts[1..])
    else None
  }

  lemma {:induction false} RunKeepsInv(key: Info -> string, s: State, acts: seq<Action>)
    requires Inv(s, key) && Run(key, s, acts).Some?
    ensures Inv(Run(key, s, acts).value, key)
    decreases |acts|
  {
    if acts != [] {
      StepKeepsInv(key, s, acts[0]);
      RunKeepsInv(key, Apply(key, s, acts[0]), acts[1..]);
    }
  }

  /**
   In every interleaving, a cached connection that a caller is given was, when the entry was looked at,
   less than the TTL past the moment it was stamped.
   */
  lemma CachedIsInTime(key: Info -> string, acts: seq<Action>, s: State, i: nat)
    requires Run(key, Init, acts) == Some(s) && i < |s.answers| && s.answers[i].Cached?
    ensures s.answers[i].conn in s.stamps && s.answers[i].at < s.stamps[s.answers[i].conn] + TTL
  {
    RunKeepsInv(key, Init, acts);
    assert AnswerInv(s, key, s.answers[i]);
  }

  /** Everybody is given connections to what they asked for. */
  ghost predicate Right(key: Info -> string) {
    forall acts, i | Run(key, Init, acts).Some? && 0 <= i < |Run(key, Init, acts).value.answers| ::
      RightAnswer(Run(key, Init, acts).value.answers[i])
  }

  predicate RightAnswer(a: Answer) { a.conn.info == a.info }

  lemma {:induction false} RunConcat(key: Info -> string, s: State, a: seq<Action>, b: seq<Action>)
    requires Run(key, s, a).Some?
    ensures Run(key, s, a + b) == Run(key, Run(key, s, a).value, b)
    decreases |a|
  {
    if a == [] {
      assert a + b == b;
    } else {
      assert (a + b)[1..] == a[1..] + b;
      RunConcat(key, Apply(key, s, a[0]), a[1..], b);
    }
  }

  lemma Extend(key: Info -> string, acts: seq<Action>, s: State, a: Action) returns (acts': seq<Action>, s': State)
    requires Run(key, Init, acts) == Some(s) && Enabled(s, a)
    ensures acts' == acts + [a] && s' == Apply(key, s, a) && Run(key, Init, acts') == Some(s')
  {
    acts', s' := acts + [a], Apply(key, s, a);
    RunConcat(key, Init, acts, [a]);
    assert Run(key, s, [a]) == Run(key, s', []) by { assert [a][1..] == []; }
  }

  /** One caller's complete miss. */
  lemma MissRun(key: Info -> string, info: Info) returns (acts: seq<Action>, s: State)
    ensures Run(key, Init, acts) == Some(s) && s.callers == map[] && s.clock == 0
    ensures key(info) in s.cache && s.cache[key(info)] == Entry(Conn(0, info), TTL)
  {
    acts, s := [], Init;
    acts, s := Extend(key, acts, s, Arrive(0, info));
    acts, s := Extend(key, acts, s, Load(0, true));
    acts, s := Extend(key, acts, s, Connect(0, true));
    acts, s := Extend(key, acts, s, Stamp(0));
    acts, s := Extend(key, acts, s, Store(0));
  }

  /** Two ConnectionInfos with one key: the second caller is given the first one's connection. */
  lemma CollisionMixes(key: Info -> string, i: Info, j: Info)
    requires key(i) == key(j) && i != j
    ensures !Right(key)
  {
    var acts, s := MissRun(key, i);
    var n := |s.answers|;
    acts, s := Extend(key, acts, s, Arrive(1, j));
    acts, s := Extend(key, acts, s, Load(1, false));
    assert s.callers[1].pc.found == Some(Entry(Conn(0, i), TTL));
    acts, s := Extend(key, acts, s, Test(1));
    assert s.answers[n] == Cached(j, Conn(0, i), 0);
    assert !RightAnswer(Run(key, Init, acts).value.answers[n]);
  }

  /** The cache gives every caller a connection built for what it asked for exactly when no two keys collide. */
  lemma RightIffInjective(key: Info -> string)
    ensures Right(key) <==> Injective(key)
  {
    if Injective(key) {
      forall acts, i | Run(key, Init, acts).Some? && 0 <= i < |Run(key, Init, acts).value.answers|
        ensures RightAnswer(Run(key, Init, acts).value.answers[i])
      {
        RunKeepsInv(key, Init, acts);
        assert AnswerInv(Run(key, Init, acts).value, key, Run(key, Init, acts).value.answers[i]);
      }
    } else {
      var i, j :| key(i) == key(j) && i != j;
      CollisionMixes(key, i, j);
    }
  }
}
