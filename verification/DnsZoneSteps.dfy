/**
 The requests of DNS-ZoneManager.go step by step, any number of them at once: each takes its zone's
 (connection, name) lock, reads, writes one row at a time, and lets the lock go. The last section shows
 that DnsZone's requests, which take effect at once, say all there is to say about these runs.
 */
module DnsZoneSteps {
  import opened Strings
  import opened IidCodec
  import D = DnsZone

  type DB = D.DB
  type Call = D.Call
  type Tid = nat

  /** One statement on the database, for the request's zone. */
  datatype Write =
    | SaveZone(systemId: string)
    | DropZone
    | SaveRecord(alias: string, systemId: string)
    | DropRecord(alias: string)
    | DropRecords

  function Written(db: DB, conn: string, zone: string, w: Write): DB {
    match w
    case SaveZone(id) => db.(zones := db.zones[D.ZoneKey(conn, zone) := id])
    case DropZone => db.(zones := db.zones - {D.ZoneKey(conn, zone)})
    case SaveRecord(alias, id) => db.(records := db.records[D.RecordKey(conn, alias, zone) := id])
    case DropRecord(alias) => db.(records := db.records - {D.RecordKey(conn, alias, zone)})
    case DropRecords => db.(records := D.WithoutRecords(db.records, conn, zone))
  }

  function AllWritten(db: DB, conn: string, zone: string, ws: seq<Write>): DB
    decreases |ws|
  {
    if ws == [] then db else AllWritten(Written(db, conn, zone, ws[0]), conn, zone, ws[1..])
  }

  // ------------------------------------------------------------------ what a request writes

  function RecordSaves(zone: string, kept: seq<D.Record>): seq<Write> {
    seq(|kept|, i requires 0 <= i < |kept| => SaveRecord(D.Alias(zone, i), kept[i].systemId))
  }

  /** The statements that succeed, once the request has read what it needs. */
  function Plan(db: DB, q: Call): seq<Write> {
    var there, row := D.HasZone(db, q.conn, q.zone), q.Register? || q.Create? || q.Delete? || D.RecordKey(q.conn, q.alias, q.zone) in db.records;
    match q
    case Register(_, zone, has, info, saveZone, saveRecord) =>
      if !has || there || info.None? || !saveZone then []
      else
        var kept := D.Kept(info.value.records, info.value.domain);
        [SaveZone(Encode(GetMSShortID(info.value.systemId), info.value.systemId))] +
        RecordSaves(zone, kept[..D.Saved(saveRecord, |kept|, 0)])
    case Create(_, _, has, xid, info, saveZone) =>
      if !has || there || info.None? || !saveZone then [] else [SaveZone(Encode(xid, info.value.systemId))]
    case Add(_, _, alias, name, rtype, has, info, save) =>
      if !has || row || !there || info.None? || !save then []
      else
        var id := D.FindRecord(info.value.records, name, rtype);
        if id == "" then [] else [SaveRecord(alias, id)]
    case Change(conn, zone, alias, name, rtype, has, info, drop, save) =>
      if !has || !row || !there || info.None? || !drop then []
      else
        var id := D.FindRecord(info.value.records, name, rtype);
        if id == "" || id == db.records[D.RecordKey(conn, alias, zone)] then []
        else [DropRecord(alias)] + if save then [SaveRecord(alias, id)] else []
    case Remove(_, _, alias, force, has, answer, drop) =>
      if has && row && there && D.GoesOn(force, answer) && drop then [DropRecord(alias)] else []
    case Delete(_, _, force, has, answer, dropZone, dropRecords) =>
      if !has || !there || !D.GoesOn(force, answer) then []
      else
        (if dropZone then [DropZone] else []) +
        if (dropZone || force || answer == D.NotFound) && dropRecords then [DropRecords] else []
  }

  lemma {:induction false} AllWrittenConcat(db: DB, conn: string, zone: string, a: seq<Write>, b: seq<Write>)
    ensures AllWritten(db, conn, zone, a + b) == AllWritten(AllWritten(db, conn, zone, a), conn, zone, b)
    decreases |a|
  {
    if a == [] {
      assert a + b == b;
    } else {
      assert (a + b)[1..] == a[1..] + b;
      AllWrittenConcat(Written(db, conn, zone, a[0]), conn, zone, a[1..], b);
    }
  }

  lemma OneWritten(db: DB, conn: string, zone: string, w: Write)
    ensures AllWritten(db, conn, zone, [w]) == Written(db, conn, zone, w)
  {
    assert [w][1..] == [];
  }

  lemma TwoWritten(db: DB, conn: string, zone: string, v: Write, w: Write)
    ensures AllWritten(db, conn, zone, [v] + [w]) == Written(Written(db, conn, zone, v), conn, zone, w)
  {
    AllWrittenConcat(db, conn, zone, [v], [w]);
    OneWritten(db, conn, zone, v);
    OneWritten(Written(db, conn, zone, v), conn, zone, w);
  }

  lemma {:induction false} RecordsWritten(db: DB, conn: string, zone: string, kept: seq<D.Record>)
    ensures AllWritten(db, conn, zone, RecordSaves(zone, kept)) == db.(records := D.WithRecords(db.records, conn, zone, kept))
  {
    if kept != [] {
      var n := |kept| - 1;
      RecordsWritten(db, conn, zone, kept[..n]);
      var last := SaveRecord(D.Alias(zone, n), kept[n].systemId);
      assert RecordSaves(zone, kept) == RecordSaves(zone, kept[..n]) + [last];
      AllWrittenConcat(db, conn, zone, RecordSaves(zone, kept[..n]), [last]);
      OneWritten(AllWritten(db, conn, zone, RecordSaves(zone, kept[..n])), conn, zone, last);
    }
  }

  /** Undisturbed, the statements of a request make its whole effect. */
  lemma PlanIsEffect(db: DB, q: Call)
    ensures AllWritten(db, q.conn, q.zone, Plan(db, q)) == D.Effect(db, q)
  {
    match q
    case Register(_, _, _, _, _, _) => RegisterWritten(db, q);
    case Create(conn, zone, _, xid, info, _) =>
      if Plan(db, q) != [] { OneWritten(db, conn, zone, Plan(db, q)[0]); }
    case Add(conn, zone, _, _, _, _, _, _) =>
      if Plan(db, q) != [] { OneWritten(db, conn, zone, Plan(db, q)[0]); }
    case Change(_, _, _, _, _, _, _, _, _) => ChangeWritten(db, q);
    case Remove(conn, zone, alias, _, _, _, _) =>
      if Plan(db, q) != [] { OneWritten(db, conn, zone, DropRecord(alias)); }
    case Delete(_, _, _, _, _, _, _) => DeleteWritten(db, q);
  }

  lemma RegisterWritten(db: DB, q: Call)
    requires q.Register?
    ensures AllWritten(db, q.conn, q.zone, Plan(db, q)) == D.Effect(db, q)
  {
    if Plan(db, q) != [] {
      var kept := D.Kept(q.info.value.records, q.info.value.domain);
      var done := kept[..D.Saved(q.saveRecord, |kept|, 0)];
      var first := Plan(db, q)[0];
      AllWrittenConcat(db, q.conn, q.zone, [first], RecordSaves(q.zone, done));
      OneWritten(db, q.conn, q.zone, first);
      RecordsWritten(Written(db, q.conn, q.zone, first), q.conn, q.zone, done);
    }
  }

  lemma ChangeWritten(db: DB, q: Call)
    requires q.Change?
    ensures AllWritten(db, q.conn, q.zone, Plan(db, q)) == D.Effect(db, q)
  {
    var ws := Plan(db, q);
    if |ws| == 1 {
      OneWritten(db, q.conn, q.zone, ws[0]);
    } else if ws != [] {
      TwoWritten(db, q.conn, q.zone, ws[0], ws[1]);
      var k := D.RecordKey(q.conn, q.alias, q.zone);
      assert (db.records - {k})[k := ws[1].systemId] == db.records[k := ws[1].systemId];
    }
  }

  lemma DeleteWritten(db: DB, q: Call)
    requires q.Delete?
    ensures AllWritten(db, q.conn, q.zone, Plan(db, q)) == D.Effect(db, q)
  {
    var ws := Plan(db, q);
    if |ws| == 1 {
      OneWritten(db, q.conn, q.zone, ws[0]);
    } else if ws != [] {
      TwoWritten(db, q.conn, q.zone, ws[0], ws[1]);
    }
  }

  // ------------------------------------------------------------------ the machine

  /** A request that holds its zone's lock: a writer that has not read yet or has still to write, or a reader. */
  datatype Task =
    | Writer(call: Call, todo: Option<seq<Write>>)
    | Reader(conn: string, zone: string)

  predicate On(k: Task, conn: string, zone: string) {
    if k.Writer? then k.call.conn == conn && k.call.zone == zone else k.conn == conn && k.zone == zone
  }

  /** `calls`: the requests that have let their lock go, in that order. */
  datatype State = State(db: DB, tasks: map<Tid, Task>, calls: seq<Call>)

  datatype Action =
    | Lock(t: Tid, call: Call)
    | RLock(t: Tid, conn: string, zone: string)
    | Read(t: Tid)
    | Write(t: Tid)
    | Unlock(t: Tid)

  predicate Enabled(s: State, a: Action) {
    match a
    case Lock(t, q) => t !in s.tasks && forall u | u in s.tasks :: !On(s.tasks[u], q.conn, q.zone)
    case RLock(t, conn, zone) => t !in s.tasks && forall u | u in s.tasks && On(s.tasks[u], conn, zone) :: s.tasks[u].Reader?
    case Read(t) => t in s.tasks && s.tasks[t].Writer? && s.tasks[t].todo.None?
    case Write(t) => t in s.tasks && s.tasks[t].Writer? && s.tasks[t].todo.Some? && s.tasks[t].todo.value != []
    case Unlock(t) => t in s.tasks && (s.tasks[t].Writer? ==> s.tasks[t].todo == Some([]))
  }

  function Apply(s: State, a: Action): State
    requires Enabled(s, a)
  {
    match a
    case Lock(t, q) => s.(tasks := s.tasks[t := Writer(q, None)])
    case RLock(t, conn, zone) => s.(tasks := s.tasks[t := Reader(conn, zone)])
    case Read(t) => s.(tasks := s.tasks[t := s.tasks[t].(todo := Some(Plan(s.db, s.tasks[t].call)))])
    case Write(t) =>
      var k := s.tasks[t];
      s.(db := Written(s.db, k.call.conn, k.call.zone, k.todo.value[0]), tasks := s.tasks[t := k.(todo := Some(k.todo.value[1..]))])
    case Unlock(t) =>
      s.(tasks := s.tasks - {t}, calls := if s.tasks[t].Writer? then s.calls + [s.tasks[t].call] else s.calls)
  }

  function Run(s: State, acts: seq<Action>): Option<State>
    decreases |acts|
  {
    if acts == [] then Some(s)
    else if Enabled(s, acts[0]) then Run(Apply(s, acts[0]), acts[1..])
    else None
  }

  // ------------------------------------------------------------------ the invariant

  /** Nobody is writing in the zone. */
  predicate Still(s: State, conn: string, zone: string) {
    forall t | t in s.tasks && On(s.tasks[t], conn, zone) :: !Writing(s.tasks[t])
  }

  predicate Writing(k: Task) { k.Writer? && k.todo.Some? }

  /** What a writer has still to write makes its whole effect; `one` are the tables of the finished requests. */
  ghost predicate PlanInv(db: DB, one: DB, k: Task) {
    Writing(k) ==>
      D.Agree(AllWritten(db, k.call.conn, k.call.zone, k.todo.value), D.Effect(one, k.call), k.call.conn, k.call.zone)
  }

  ghost predicate StillInv(s: State, one: DB) {
    forall conn, zone | Still(s, conn, zone) :: D.Agree(s.db, one, conn, zone)
  }

  predicate Meet(k: Task, l: Task) {
    if l.Writer? then On(k, l.call.conn, l.call.zone) else On(k, l.conn, l.zone)
  }

  /** A writer is alone in its zone. */
  predicate LockInv(s: State) {
    forall t, u | t in s.tasks && u in s.tasks && t != u && Meet(s.tasks[t], s.tasks[u]) :: s.tasks[t].Reader? && s.tasks[u].Reader?
  }

  ghost predicate Inv(s: State, one: DB) {
    LockInv(s) && StillInv(s, one) && forall t | t in s.tasks :: PlanInv(s.db, one, s.tasks[t])
  }

  /** A statement changes rows of its zone only, and what it makes of them depends on them only. */
  lemma WrittenElsewhere(db: DB, conn: string, zone: string, w: Write, conn': string, zone': string)
    requires !(conn == conn' && zone == zone')
    ensures D.Agree(db, Written(db, conn, zone, w), conn', zone')
  {}

  lemma WrittenAgree(a: DB, b: DB, conn: string, zone: string, w: Write)
    requires D.Agree(a, b, conn, zone)
    ensures D.Agree(Written(a, conn, zone, w), Written(b, conn, zone, w), conn, zone)
  {}

  lemma {:induction false} AllWrittenAgree(a: DB, b: DB, conn: string, zone: string, ws: seq<Write>)
    requires D.Agree(a, b, conn, zone)
    ensures D.Agree(AllWritten(a, conn, zone, ws), AllWritten(b, conn, zone, ws), conn, zone)
    decreases |ws|
  {
    if ws != [] {
      WrittenAgree(a, b, conn, zone, ws[0]);
      AllWrittenAgree(Written(a, conn, zone, ws[0]), Written(b, conn, zone, ws[0]), conn, zone, ws[1..]);
    }
  }

  lemma AgreeOnward(a: DB, b: DB, c: DB, conn: string, zone: string)
    requires D.Agree(a, b, conn, zone)
    ensures D.Agree(b, c, conn, zone) <==> D.Agree(a, c, conn, zone)
    ensures D.Agree(c, b, conn, zone) <==> D.Agree(c, a, conn, zone)
  {}

  /** What happens in other zones does not touch a plan. */
  lemma PlanStays(db: DB, db': DB, one: DB, one': DB, k: Task)
    requires PlanInv(db, one, k)
    requires k.Writer? ==> D.Agree(db, db', k.call.conn, k.call.zone) && D.Agree(one, one', k.call.conn, k.call.zone)
    ensures PlanInv(db', one', k)
  {
    if Writing(k) {
      var q := k.call;
      AllWrittenAgree(db, db', q.conn, q.zone, k.todo.value);
      D.ReadsOwnZone(one, one', q);
      AgreeOnward(AllWritten(db, q.conn, q.zone, k.todo.value), AllWritten(db', q.conn, q.zone, k.todo.value), D.Effect(one, q), q.conn, q.zone);
      AgreeOnward(D.Effect(one, q), D.Effect(one', q), AllWritten(db', q.conn, q.zone, k.todo.value), q.conn, q.zone);
    }
  }

  lemma LockKeepsInv(s: State, one: DB, a: Action)
    requires Inv(s, one) && Enabled(s, a) && (a.Lock? || a.RLock?)
    ensures Inv(Apply(s, a), one)
  {
    var s' := Apply(s, a);
    assert LockInv(s');
    forall conn, zone | Still(s', conn, zone) ensures D.Agree(s.db, one, conn, zone) {
      forall t | t in s.tasks && On(s.tasks[t], conn, zone) ensures !Writing(s.tasks[t]) { assert s'.tasks[t] == s.tasks[t]; }
      assert Still(s, conn, zone);
    }
  }

  lemma ReadKeepsInv(s: State, one: DB, t: Tid)
    requires Inv(s, one) && Enabled(s, Read(t))
    ensures Inv(Apply(s, Read(t)), one)
  {
    var s', q := Apply(s, Read(t)), s.tasks[t].call;
    assert Still(s, q.conn, q.zone) by {
      forall u | u in s.tasks && On(s.tasks[u], q.conn, q.zone) ensures !Writing(s.tasks[u]) {
        assert u != t ==> Meet(s.tasks[u], s.tasks[t]);
      }
    }
    PlanIsEffect(s.db, q);
    D.ReadsOwnZone(s.db, one, q);
    forall conn, zone | Still(s', conn, zone) ensures D.Agree(s.db, one, conn, zone) {
      forall u | u in s.tasks && On(s.tasks[u], conn, zone) ensures !Writing(s.tasks[u]) {
        if u != t { assert s'.tasks[u] == s.tasks[u]; }
      }
      assert Still(s, conn, zone);
    }
  }

  lemma WriteKeepsInv(s: State, one: DB, t: Tid)
    requires Inv(s, one) && Enabled(s, Write(t))
    ensures Inv(Apply(s, Write(t)), one)
  {
    var s', q, w := Apply(s, Write(t)), s.tasks[t].call, s.tasks[t].todo.value[0];
    forall u | u in s'.tasks ensures PlanInv(s'.db, one, s'.tasks[u]) {
      if u == t {
        assert PlanInv(s.db, one, s.tasks[t]);
      } else {
        assert !Meet(s.tasks[t], s.tasks[u]);
        if s.tasks[u].Writer? { WrittenElsewhere(s.db, q.conn, q.zone, w, s.tasks[u].call.conn, s.tasks[u].call.zone); }
        PlanStays(s.db, s'.db, one, one, s.tasks[u]);
      }
    }
    forall conn, zone | Still(s', conn, zone) ensures D.Agree(s'.db, one, conn, zone) {
      assert Writing(s'.tasks[t]);
      assert !On(s'.tasks[t], conn, zone);
      forall u | u in s.tasks && On(s.tasks[u], conn, zone) ensures !Writing(s.tasks[u]) {
        if u != t { assert s'.tasks[u] == s.tasks[u]; }
      }
      assert Still(s, conn, zone);
      WrittenElsewhere(s.db, q.conn, q.zone, w, conn, zone);
      AgreeOnward(s.db, s'.db, one, conn, zone);
    }
  }

  lemma UnlockKeepsInv(s: State, one: DB, t: Tid)
    requires Inv(s, one) && Enabled(s, Unlock(t))
    ensures Inv(Apply(s, Unlock(t)), if s.tasks[t].Writer? then D.Effect(one, s.tasks[t].call) else one)
  {
    if s.tasks[t].Writer? { WriterReturns(s, one, t); } else { ReaderReturns(s, one, t); }
  }

  lemma ReaderReturns(s: State, one: DB, t: Tid)
    requires Inv(s, one) && t in s.tasks && s.tasks[t].Reader?
    ensures Inv(s.(tasks := s.tasks - {t}), one)
  {
    var s' := s.(tasks := s.tasks - {t});
    forall conn, zone | Still(s', conn, zone) ensures D.Agree(s.db, one, conn, zone) {
      forall u | u in s.tasks && On(s.tasks[u], conn, zone) ensures !Writing(s.tasks[u]) {
        if u != t { assert s'.tasks[u] == s.tasks[u]; }
      }
      assert Still(s, conn, zone);
    }
  }

  lemma WriterReturns(s: State, one: DB, t: Tid)
    requires Inv(s, one) && Enabled(s, Unlock(t)) && s.tasks[t].Writer?
    ensures Inv(Apply(s, Unlock(t)), D.Effect(one, s.tasks[t].call))
  {
    var s', q := Apply(s, Unlock(t)), s.tasks[t].call;
    var one' := D.Effect(one, q);
    assert PlanInv(s.db, one, s.tasks[t]);
    forall u | u in s'.tasks ensures PlanInv(s.db, one', s'.tasks[u]) {
      assert !Meet(s.tasks[t], s.tasks[u]);
      if s.tasks[u].Writer? { D.TouchesOwnZone(one, q, s.tasks[u].call.conn, s.tasks[u].call.zone); }
      PlanStays(s.db, s.db, one, one', s.tasks[u]);
    }
    forall conn, zone | Still(s', conn, zone) ensures D.Agree(s.db, one', conn, zone) {
      if !(conn == q.conn && zone == q.zone) {
        forall u | u in s.tasks && On(s.tasks[u], conn, zone) ensures !Writing(s.tasks[u]) { assert s'.tasks[u] == s.tasks[u]; }
        assert Still(s, conn, zone);
        D.TouchesOwnZone(one, q, conn, zone);
        AgreeOnward(one, one', s.db, conn, zone);
      }
    }
  }

  // ------------------------------------------------------------------ every run

  lemma {:induction false} OneMoreCall(db: DB, calls: seq<Call>, q: Call)
    ensures D.Run(db, calls + [q]) == D.Effect(D.Run(db, calls), q)
    decreases |calls|
  {
    if calls == [] {
      assert [] + [q] == [q] && [q][1..] == [];
    } else {
      assert (calls + [q])[1..] == calls[1..] + [q];
      OneMoreCall(D.Effect(db, calls[0]), calls[1..], q);
    }
  }

  lemma StepKeepsInv(s: State, start: DB, a: Action)
    requires Inv(s, D.Run(start, s.calls)) && Enabled(s, a)
    ensures Inv(Apply(s, a), D.Run(start, Apply(s, a).calls))
  {
    var one := D.Run(start, s.calls);
    match a
    case Read(t) => ReadKeepsInv(s, one, t);
    case Write(t) => WriteKeepsInv(s, one, t);
    case Unlock(t) =>
      UnlockKeepsInv(s, one, t);
      if s.tasks[t].Writer? { OneMoreCall(start, s.calls, s.tasks[t].call); }
    case _ => LockKeepsInv(s, one, a);
  }

  lemma {:induction false} RunKeepsInv(s: State, start: DB, acts: seq<Action>)
    requires Inv(s, D.Run(start, s.calls)) && Run(s, acts).Some?
    ensures Inv(Run(s, acts).value, D.Run(start, Run(s, acts).value.calls))
    decreases |acts|
  {
    if acts != [] {
      StepKeepsInv(s, start, acts[0]);
      RunKeepsInv(Apply(s, acts[0]), start, acts[1..]);
    }
  }

  /**
   In every interleaving of the steps of any requests: a zone that nobody is writing in has the rows
   that the finished requests give it one after the other, in the order in which they let their locks
   go. Once all have returned, that is so for both tables as they are.
   */
  lemma OneAfterTheOther(start: DB, acts: seq<Action>, s: State)
    requires Run(State(start, map[], []), acts) == Some(s)
    ensures forall conn, zone | Still(s, conn, zone) :: D.Agree(s.db, D.Run(start, s.calls), conn, zone)
    ensures s.tasks == map[] ==> s.db == D.Run(start, s.calls)
  {
    Started(start);
    RunKeepsInv(State(start, map[], []), start, acts);
    if s.tasks == map[] {
      forall conn, zone ensures D.Agree(s.db, D.Run(start, s.calls), conn, zone) { assert Still(s, conn, zone); }
      D.AgreeEverywhere(s.db, D.Run(start, s.calls));
    }
  }

  lemma Started(start: DB)
    ensures Inv(State(start, map[], []), D.Run(start, []))
  {}

  /** A reader that holds its zone's lock sees rows of finished requests only. */
  lemma ReadersSeeFinished(start: DB, acts: seq<Action>, s: State, t: Tid)
    requires Run(State(start, map[], []), acts) == Some(s) && t in s.tasks && s.tasks[t].Reader?
    ensures D.Agree(s.db, D.Run(start, s.calls), s.tasks[t].conn, s.tasks[t].zone)
  {
    Started(start);
    RunKeepsInv(State(start, map[], []), start, acts);
    forall u | u in s.tasks && On(s.tasks[u], s.tasks[t].conn, s.tasks[t].zone) ensures !Writing(s.tasks[u]) {
      assert u != t ==> Meet(s.tasks[u], s.tasks[t]);
    }
    assert Still(s, s.tasks[t].conn, s.tasks[t].zone);
  }

  /** So record rows have their zone's row in every interleaving, wherever nobody is writing, without the one failure. */
  lemma OwnedWhereStill(acts: seq<Action>, s: State, k: D.RecordKey)
    requires Run(State(D.DB(map[], map[]), map[], []), acts) == Some(s) && D.NeverStrands(D.DB(map[], map[]), s.calls)
    requires k in s.db.records && Still(s, k.conn, k.zone)
    ensures D.HasZone(s.db, k.conn, k.zone)
  {
    var start := D.DB(map[], map[]);
    OneAfterTheOther(start, acts, s);
    D.RunKeepsOwned(start, s.calls);
    assert D.Agree(s.db, D.Run(start, s.calls), k.conn, k.zone);
  }
}
