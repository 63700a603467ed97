/**
 The registry protocol of KeyPairManager.go: MetaDB rows on one side, the key pairs of the clouds on
 the other, changed by any number of concurrent CreateKey, RegisterKey, DeleteKey and
 UnregisterResource(KEY) requests. Every database access, driver call and lock operation is one
 atomic step and may fail; the per-name lock admits one holder at a time.
 */
module KeyRegistry {
  import opened Strings
  import opened IidCodec
  import SpLock

  type LockKey = SpLock.LockKey
  type Rid = nat
  type Serial = nat  // numbers the key pairs that CreateKey has made

  datatype CspRef = CspRef(conn: string, cspId: string)

  /** A key pair made by CreateKey and the row it belongs in. */
  datatype Made = Made(key: LockKey, xid: string, cspId: string)

  /** The events that end Spider's responsibility for a key pair it made. */
  datatype Release = Deleted | NotFound | Forced | Unregistered | RolledBack | RollbackFailed

  datatype Op =
    | CreateKey(xid: string)
    | RegisterKey(cspId: string)
    | DeleteKey(force: bool)
    | Unregister

  datatype Pc =
    | Waiting                   // in keySPLock.Lock
    | Locked
    | Absent                    // has seen that its name has no row
    | Created(serial: Serial)   // the driver has made the key pair
    | RollingBack(serial: Serial)
    | Fetched(cspId: string)    // the driver has shown the key pair to register
    | GotRow(systemId: string)
    | Dropping(why: Release)    // about to delete the row
    | Returning                 // only the deferred Unlock is left

  datatype Request = Request(op: Op, key: LockKey, pc: Pc)

  datatype State = State(
    rows: map<LockKey, string>,        // (connection, name) -> "SP-XID:CSP-ID"
    csp: set<CspRef>,
    holder: map<LockKey, Rid>,
    reqs: map<Rid, Request>,
    owned: map<Serial, Made>,          // made and not yet released
    released: map<Serial, Release>,
    overwritten: nat)                  // Inserts that hit an existing row

  /** The answers of a driver's DeleteKey. */
  datatype Answer = Done | Refused | Missing | Failed

  datatype Action =
    | Arrive(r: Rid, op: Op, key: LockKey)
    | Lock(r: Rid)
    | CheckRow(r: Rid, dbOk: bool)
    | CallCreate(r: Rid, ok: bool, cspId: string, serial: Serial)
    | CallGet(r: Rid, ok: bool, cspId: string)
    | Insert(r: Rid, dbOk: bool)
    | Rollback(r: Rid, answer: Answer)
    | CallDelete(r: Rid, answer: Answer)
    | DropRow(r: Rid, dbOk: bool)
    | Unlock(r: Rid)
    | CspChange(ref: CspRef, there: bool)  // somebody else works on the cloud

  const Init := State(map[], {}, map[], map[], map[], map[], 0)

  predicate Enabled(s: State, a: Action) {
    match a
    case Arrive(r, op, key) => r !in s.reqs
    case CspChange(_, _) => true
    case _ => a.r in s.reqs && PcEnabled(s, s.reqs[a.r], a)
  }

  predicate PcEnabled(s: State, q: Request, a: Action) {
    match a
    case Lock(_) => q.pc == Waiting && q.key !in s.holder
    case CheckRow(_, _) => q.pc == Locked
    case CallCreate(_, ok, cspId, serial) =>
      q.pc == Absent && q.op.CreateKey? && serial !in s.owned && serial !in s.released &&
      (ok ==> CspRef(q.key.conn, cspId) !in s.csp)
    case CallGet(_, ok, cspId) =>
      q.pc == Absent && q.op.RegisterKey? && (ok ==> CspRef(q.key.conn, cspId) in s.csp)
    case Insert(_, _) => (q.pc.Created? && q.op.CreateKey? && q.pc.serial in s.owned) || q.pc.Fetched?
    case Rollback(_, _) => q.pc.RollingBack? && q.pc.serial in s.owned
    case CallDelete(_, _) => q.pc.GotRow? && q.op.DeleteKey?
    case DropRow(_, _) => q.pc.Dropping?
    case Unlock(_) => q.pc == Returning
    case _ => false
  }

  function Goto(s: State, r: Rid, pc: Pc): State
    requires r in s.reqs
  {
    s.(reqs := s.reqs[r := s.reqs[r].(pc := pc)])
  }

  /** infostore.Insert is db.Save: it replaces the row when there is one. */
  function Save(s: State, key: LockKey, systemId: string): State {
    s.(rows := s.rows[key := systemId], overwritten := if key in s.rows then s.overwritten + 1 else s.overwritten)
  }

  function Disown(s: State, gone: set<Serial>, why: Release): State {
    s.(owned := s.owned - gone, released := s.released + map n | n in gone :: why)
  }

  /** The key pair a delete call reaches: what the row decodes to. */
  function Target(q: Request): CspRef
    requires q.pc.GotRow?
  {
    CspRef(q.key.conn, GetDriverIID(IID(q.key.id, q.pc.systemId)).systemId)
  }

  function AfterCheck(s: State, r: Rid): State
    requires r in s.reqs
  {
    var q := s.reqs[r];
    var found := q.key in s.rows;
    Goto(s, r,
      match q.op
      case CreateKey(_) => if found then Returning else Absent
      case RegisterKey(_) => if found then Returning else Absent
      case DeleteKey(_) => if found then GotRow(s.rows[q.key]) else Returning
      case Unregister => if found then Dropping(Unregistered) else Returning)
  }

  function AfterCreate(s: State, r: Rid, xid: string, cspId: string, serial: Serial): State
    requires r in s.reqs
  {
    var key := s.reqs[r].key;
    Goto(s.(csp := s.csp + {CspRef(key.conn, cspId)}, owned := s.owned[serial := Made(key, xid, cspId)]),
         r, Created(serial))
  }

  function AfterSave(s: State, r: Rid, systemId: string): State
    requires r in s.reqs
  {
    Goto(Save(s, s.reqs[r].key, systemId), r, Returning)
  }

  /** Only the error of the rollback's DeleteKey is looked at, not its boolean. */
  function AfterRollback(s: State, r: Rid, n: Serial, answer: Answer): State
    requires r in s.reqs && n in s.owned
  {
    var s' := if answer == Done then s.(csp := s.csp - {CspRef(s.reqs[r].key.conn, s.owned[n].cspId)}) else s;
    Goto(Disown(s', {n}, if answer == Done then RolledBack else RollbackFailed), r, Returning)
  }

  function AfterDelete(s: State, r: Rid, answer: Answer, force: bool, target: CspRef): State
    requires r in s.reqs
  {
    match answer
    case Done => Goto(s.(csp := s.csp - {target}), r, Dropping(Deleted))
    case Missing => Goto(s, r, Dropping(NotFound))
    case _ => Goto(s, r, if force then Dropping(Forced) else Returning)
  }

  function OwnedAt(s: State, key: LockKey): set<Serial> {
    set n | n in s.owned && s.owned[n].key == key
  }

  function AfterDrop(s: State, r: Rid, why: Release): State
    requires r in s.reqs
  {
    var key := s.reqs[r].key;
    Goto(Disown(s.(rows := s.rows - {key}), OwnedAt(s, key), why), r, Returning)
  }

  function Apply(s: State, a: Action): State
    requires Enabled(s, a)
  {
    match a
    case Arrive(r, op, key) => s.(reqs := s.reqs[r := Request(op, key, Waiting)])
    case CspChange(ref, there) => s.(csp := if there then s.csp + {ref} else s.csp - {ref})
    case Lock(r) => Goto(s.(holder := s.holder[s.reqs[r].key := r]), r, Locked)
    case Unlock(r) => s.(holder := s.holder - {s.reqs[r].key}, reqs := s.reqs - {r})
    case CheckRow(r, dbOk) => if dbOk then AfterCheck(s, r) else Goto(s, r, Returning)
    case CallCreate(r, ok, cspId, serial) =>
      if ok then AfterCreate(s, r, s.reqs[r].op.xid, cspId, serial) else Goto(s, r, Returning)
    case CallGet(r, ok, cspId) => Goto(s, r, if ok then Fetched(cspId) else Returning)
    case Insert(r, dbOk) =>
      var q := s.reqs[r];
      (match q.pc
       case Created(n) =>
         if dbOk then AfterSave(s, r, Encode(q.op.xid, s.owned[n].cspId)) else Goto(s, r, RollingBack(n))
       case Fetched(cspId) =>
         if dbOk then AfterSave(s, r, Encode(GetMSShortID(cspId), cspId)) else Goto(s, r, Returning))
    case Rollback(r, answer) => AfterRollback(s, r, s.reqs[r].pc.serial, answer)
    case CallDelete(r, answer) => AfterDelete(s, r, answer, s.reqs[r].op.force, Target(s.reqs[r]))
    case DropRow(r, dbOk) => if dbOk then AfterDrop(s, r, s.reqs[r].pc.why) else Goto(s, r, Returning)
  }

  // ------------------------------------------------------------------ the invariant

  /** The row of a key pair says where it is. */
  ghost predicate Recorded(s: State, m: Made) {
    m.key in s.rows && s.rows[m.key] == Encode(m.xid, m.cspId)
  }

  /** The request that holds the key pair's lock is busy inserting its row or rolling it back. */
  ghost predicate InFlight(s: State, n: Serial, m: Made) {
    m.key in s.holder && s.holder[m.key] in s.reqs &&
    (s.reqs[s.holder[m.key]].pc == Created(n) || s.reqs[s.holder[m.key]].pc == RollingBack(n))
  }

  ghost predicate LockInv(s: State) {
    && (forall k | k in s.holder :: s.holder[k] in s.reqs && s.reqs[s.holder[k]].key == k && s.reqs[s.holder[k]].pc != Waiting)
    && (forall r | r in s.reqs && s.reqs[r].pc != Waiting :: s.reqs[r].key in s.holder && s.holder[s.reqs[r].key] == r)
  }

  ghost predicate RequestInv(s: State, q: Request) {
    match q.pc
    case Absent => q.key !in s.rows
    case Fetched(_) => q.key !in s.rows && q.op.RegisterKey?
    case Created(n) => q.key !in s.rows && q.op.CreateKey? && n in s.owned && s.owned[n].key == q.key && s.owned[n].xid == q.op.xid
    case RollingBack(n) => q.key !in s.rows && q.op.CreateKey? && n in s.owned && s.owned[n].key == q.key
    case GotRow(t) => q.key in s.rows && s.rows[q.key] == t
    case Dropping(_) => q.key in s.rows
    case _ => true
  }

  ghost predicate OwnedInv(s: State) {
    && (forall n | n in s.owned :: Recorded(s, s.owned[n]) || InFlight(s, n, s.owned[n]))
    && (forall n, n' | n in s.owned && n' in s.owned && n != n' :: s.owned[n].key != s.owned[n'].key)
    && s.owned.Keys !! s.released.Keys
  }

  ghost predicate Inv(s: State) {
    && LockInv(s)
    && (forall r | r in s.reqs :: RequestInv(s, s.reqs[r]))
    && OwnedInv(s)
    && s.overwritten == 0
  }

  // ------------------------------------------------------------------ one step

  /** What a request inside its lock may touch: its own position, row and key pair. */
  ghost predicate Local(s: State, s': State, r: Rid) {
    && r in s.reqs && s.reqs[r].pc != Waiting
    && s'.holder == s.holder
    && r in s'.reqs && s'.reqs == s.reqs[r := s'.reqs[r]]
    && s'.reqs[r].key == s.reqs[r].key && s'.reqs[r].pc != Waiting
    && (forall k | k != s.reqs[r].key :: (k in s'.rows <==> k in s.rows) && (k in s.rows ==> s'.rows[k] == s.rows[k]))
    && (forall n | n in s.owned && s.owned[n].key != s.reqs[r].key :: n in s'.owned && s'.owned[n] == s.owned[n])
    && (forall n | n in s'.owned && s'.owned[n].key != s.reqs[r].key :: n in s.owned && s.owned[n] == s'.owned[n])
  }

  /** The invariant at one name. */
  ghost predicate InvAt(s: State, r: Rid, key: LockKey)
    requires r in s.reqs
  {
    && RequestInv(s, s.reqs[r])
    && (forall n | n in s.owned && s.owned[n].key == key :: Recorded(s, s.owned[n]) || InFlight(s, n, s.owned[n]))
    && (forall n, n' | n in s.owned && n' in s.owned && n != n' :: s.owned[n].key != key || s.owned[n'].key != key)
  }

  lemma OthersKeepRequestInv(s: State, s': State, r: Rid, r': Rid)
    requires LockInv(s) && Local(s, s', r) && r' in s.reqs && r' != r && RequestInv(s, s.reqs[r'])
    ensures s'.reqs[r'] == s.reqs[r'] && RequestInv(s', s.reqs[r'])
  {}

  lemma OthersKeepOwned(s: State, s': State, r: Rid, n: Serial)
    requires LockInv(s) && Local(s, s', r) && n in s'.owned && s'.owned[n].key != s.reqs[r].key
    requires n in s.owned ==> Recorded(s, s.owned[n]) || InFlight(s, n, s.owned[n])
    ensures s'.owned[n] == s.owned[n] && (Recorded(s', s.owned[n]) || InFlight(s', n, s.owned[n]))
  {
    assert n in s.owned;
    var m := s.owned[n];
    if m.key in s.holder {
      var h := s.holder[m.key];
      assert s.reqs[h].key == m.key && h != r;
      assert s'.reqs[h] == s.reqs[h];
    }
  }

  /** The lock makes local steps harmless to everybody else. */
  lemma LocalKeepsInv(s: State, s': State, r: Rid)
    requires Inv(s) && Local(s, s', r)
    requires InvAt(s', r, s.reqs[r].key) && s'.owned.Keys !! s'.released.Keys && s'.overwritten == 0
    ensures Inv(s')
  {
    var key := s.reqs[r].key;
    assert LockInv(s');
    forall r' | r' in s'.reqs ensures RequestInv(s', s'.reqs[r']) {
      if r' != r { OthersKeepRequestInv(s, s', r, r'); }
    }
    forall n | n in s'.owned
      ensures Recorded(s', s'.owned[n]) || InFlight(s', n, s'.owned[n])
      ensures s'.owned[n].key != key ==> n in s.owned && s'.owned[n] == s.owned[n]
    {
      if s'.owned[n].key != key { OthersKeepOwned(s, s', r, n); }
    }
    assert OwnedInv(s');
  }

  /** A request moves on without touching rows or key pairs. */
  lemma MoveKeepsInv(s: State, r: Rid, pc: Pc)
    requires Inv(s) && r in s.reqs && s.reqs[r].pc != Waiting && pc != Waiting
    requires s.reqs[r].pc.Created? ==> pc == RollingBack(s.reqs[r].pc.serial)
    requires !s.reqs[r].pc.RollingBack? && RequestInv(s, s.reqs[r].(pc := pc))
    ensures Inv(Goto(s, r, pc))
  {
    var s' := Goto(s, r, pc);
    forall n | n in s.owned ensures Recorded(s', s.owned[n]) || InFlight(s', n, s.owned[n]) {
      assert Recorded(s, s.owned[n]) || InFlight(s, n, s.owned[n]);
    }
    assert RequestInv(s', s'.reqs[r]);
    LocalKeepsInv(s, s', r);
  }

  /** The cloud side plays no part in the invariant. */
  lemma CspKeepsInv(s: State, csp: set<CspRef>)
    requires Inv(s)
    ensures Inv(s.(csp := csp))
  {
    var s' := s.(csp := csp);
    forall r | r in s.reqs ensures RequestInv(s', s.reqs[r]) {
      assert RequestInv(s, s.reqs[r]);
    }
    forall n | n in s.owned ensures Recorded(s', s.owned[n]) || InFlight(s', n, s.owned[n]) {
      assert Recorded(s, s.owned[n]) || InFlight(s, n, s.owned[n]);
    }
  }

  /** At a name whose lock holder sees no row, only the key pair that the holder works on is owned. */
  lemma OwnedWithoutRow(s: State, r: Rid)
    requires Inv(s) && r in s.reqs && s.reqs[r].pc != Waiting && s.reqs[r].key !in s.rows
    ensures forall n | n in s.owned && s.owned[n].key == s.reqs[r].key ::
              s.reqs[r].pc == Created(n) || s.reqs[r].pc == RollingBack(n)
  {}

  lemma AfterCreateKeepsInv(s: State, r: Rid, xid: string, cspId: string, serial: Serial)
    requires Inv(s) && r in s.reqs && s.reqs[r].pc == Absent && s.reqs[r].op == CreateKey(xid)
    requires serial !in s.owned && serial !in s.released
    ensures Inv(AfterCreate(s, r, xid, cspId, serial))
  {
    var s' := AfterCreate(s, r, xid, cspId, serial);
    assert RequestInv(s, s.reqs[r]);
    OwnedWithoutRow(s, r);
    assert forall n | n in s.owned :: s.owned[n].key != s.reqs[r].key;
    assert InFlight(s', serial, s'.owned[serial]);
    LocalKeepsInv(s, s', r);
  }

  lemma AfterSaveKeepsInv(s: State, r: Rid, systemId: string)
    requires Inv(s) && r in s.reqs && s.reqs[r].key !in s.rows
    requires s.reqs[r].pc.Fetched? || (s.reqs[r].pc.Created? && s.reqs[r].pc.serial in s.owned &&
               systemId == Encode(s.owned[s.reqs[r].pc.serial].xid, s.owned[s.reqs[r].pc.serial].cspId))
    ensures Inv(AfterSave(s, r, systemId))
  {
    var s' := AfterSave(s, r, systemId);
    OwnedWithoutRow(s, r);
    LocalKeepsInv(s, s', r);
  }

  lemma DisownKeepsInv(s: State, r: Rid, rows: map<LockKey, string>, gone: set<Serial>, why: Release)
    requires Inv(s) && r in s.reqs && s.reqs[r].pc != Waiting
    requires rows == s.rows || rows == s.rows - {s.reqs[r].key}
    requires gone == OwnedAt(s, s.reqs[r].key)
    ensures Inv(Goto(Disown(s.(rows := rows), gone, why), r, Returning))
  {
    var s' := Goto(Disown(s.(rows := rows), gone, why), r, Returning);
    assert forall n | n in s'.owned :: s'.owned[n].key != s.reqs[r].key;
    LocalKeepsInv(s, s', r);
  }

  lemma AfterRollbackKeepsInv(s: State, r: Rid, n: Serial, answer: Answer)
    requires Inv(s) && r in s.reqs && s.reqs[r].pc == RollingBack(n) && n in s.owned
    ensures Inv(AfterRollback(s, r, n, answer))
  {
    assert RequestInv(s, s.reqs[r]);
    OwnedWithoutRow(s, r);
    var s' := if answer == Done then s.(csp := s.csp - {CspRef(s.reqs[r].key.conn, s.owned[n].cspId)}) else s;
    CspKeepsInv(s, s'.csp);
    assert s'.(rows := s'.rows) == s';
    assert {n} == OwnedAt(s', s.reqs[r].key);
    DisownKeepsInv(s', r, s'.rows, {n}, if answer == Done then RolledBack else RollbackFailed);
  }

  lemma AfterDeleteKeepsInv(s: State, r: Rid, answer: Answer, force: bool, target: CspRef)
    requires Inv(s) && r in s.reqs && s.reqs[r].pc.GotRow?
    ensures Inv(AfterDelete(s, r, answer, force, target))
  {
    assert RequestInv(s, s.reqs[r]);
    match answer
    case Done =>
      CspKeepsInv(s, s.csp - {target});
      MoveKeepsInv(s.(csp := s.csp - {target}), r, Dropping(Deleted));
    case Missing => MoveKeepsInv(s, r, Dropping(NotFound));
    case _ => MoveKeepsInv(s, r, if force then Dropping(Forced) else Returning);
  }

  lemma ArriveKeepsInv(s: State, r: Rid, op: Op, key: LockKey)
    requires Inv(s) && Enabled(s, Arrive(r, op, key))
    ensures Inv(Apply(s, Arrive(r, op, key)))
  {}

  lemma LockKeepsInv(s: State, r: Rid)
    requires Inv(s) && Enabled(s, Lock(r))
    ensures Inv(Apply(s, Lock(r)))
  {
    var s' := Apply(s, Lock(r));
    assert LockInv(s');
    forall n | n in s'.owned ensures Recorded(s', s'.owned[n]) || InFlight(s', n, s'.owned[n]) {
      assert Recorded(s, s.owned[n]) || InFlight(s, n, s.owned[n]);
    }
  }

  lemma UnlockKeepsLocks(s: State, r: Rid)
    requires LockInv(s) && Enabled(s, Unlock(r))
    ensures LockInv(Apply(s, Unlock(r)))
  {}

  lemma UnlockKeepsInv(s: State, r: Rid)
    requires Inv(s) && Enabled(s, Unlock(r))
    ensures Inv(Apply(s, Unlock(r)))
  {
    var s' := Apply(s, Unlock(r));
    UnlockKeepsLocks(s, r);
    forall n | n in s'.owned ensures Recorded(s', s'.owned[n]) || InFlight(s', n, s'.owned[n]) {
      assert Recorded(s, s.owned[n]) || InFlight(s, n, s.owned[n]);
    }
    forall r' | r' in s'.reqs ensures RequestInv(s', s'.reqs[r']) {
      assert RequestInv(s, s.reqs[r']);
    }
  }

  lemma InsertKeepsInv(s: State, r: Rid, dbOk: bool)
    requires Inv(s) && Enabled(s, Insert(r, dbOk))
    ensures Inv(Apply(s, Insert(r, dbOk)))
  {
    assert RequestInv(s, s.reqs[r]);
    match s.reqs[r].pc
    case Created(n) =>
      if dbOk { AfterSaveKeepsInv(s, r, Encode(s.reqs[r].op.xid, s.owned[n].cspId)); } else { MoveKeepsInv(s, r, RollingBack(n)); }
    case Fetched(cspId) =>
      if dbOk { AfterSaveKeepsInv(s, r, Encode(GetMSShortID(cspId), cspId)); } else { MoveKeepsInv(s, r, Returning); }
  }

  lemma DropRowKeepsInv(s: State, r: Rid, dbOk: bool)
    requires Inv(s) && Enabled(s, DropRow(r, dbOk))
    ensures Inv(Apply(s, DropRow(r, dbOk)))
  {
    assert RequestInv(s, s.reqs[r]);
    if dbOk {
      DisownKeepsInv(s, r, s.rows - {s.reqs[r].key}, OwnedAt(s, s.reqs[r].key), s.reqs[r].pc.why);
    } else {
      MoveKeepsInv(s, r, Returning);
    }
  }

  lemma CallKeepsInv(s: State, a: Action)
    requires Inv(s) && Enabled(s, a) && (a.CallCreate? || a.CallGet? || a.CheckRow?)
    ensures Inv(Apply(s, a))
  {
    assert RequestInv(s, s.reqs[a.r]);
    match a
    case CheckRow(r, dbOk) => MoveKeepsInv(s, r, Apply(s, a).reqs[r].pc);
    case CallCreate(r, ok, cspId, serial) =>
      if ok { AfterCreateKeepsInv(s, r, s.reqs[r].op.xid, cspId, serial); } else { MoveKeepsInv(s, r, Returning); }
    case CallGet(r, ok, cspId) => MoveKeepsInv(s, r, if ok then Fetched(cspId) else Returning);
  }

  lemma StepKeepsInv(s: State, a: Action)
    requires Inv(s) && Enabled(s, a)
    ensures Inv(Apply(s, a))
  {
    match a
    case Arrive(r, op, key) => ArriveKeepsInv(s, r, op, key);
    case CspChange(ref, there) => CspKeepsInv(s, Apply(s, a).csp);
    case Lock(r) => LockKeepsInv(s, r);
    case Unlock(r) => UnlockKeepsInv(s, r);
    case Insert(r, dbOk) => InsertKeepsInv(s, r, dbOk);
    case Rollback(r, answer) => AfterRollbackKeepsInv(s, r, s.reqs[r].pc.serial, answer);
    case CallDelete(r, answer) => AfterDeleteKeepsInv(s, r, answer, s.reqs[r].op.force, Target(s.reqs[r]));
    case DropRow(r, dbOk) => DropRowKeepsInv(s, r, dbOk);
    case _ => CallKeepsInv(s, a);
  }

  // ------------------------------------------------------------------ every run

  function Run(s: State, acts: seq<Action>): Option<State>
    decreases |acts|
  {
    if acts == [] then Some(s)
    else if Enabled(s, acts[0]) then Run(Apply(s, acts[0]), acts[1..])
    else None
  }

  lemma {:induction false} RunKeepsInv(s: State, acts: seq<Action>)
    requires Inv(s) && Run(s, acts).Some?
    ensures Inv(Run(s, acts).value)
    decreases |acts|
  {
    if acts != [] {
      StepKeepsInv(s, acts[0]);
      RunKeepsInv(Apply(s, acts[0]), acts[1..]);
    }
  }

  /** Insert is an upsert, yet in no interleaving does it ever replace a row. */
  lemma InsertNeverOverwrites(acts: seq<Action>)
    requires Run(Init, acts).Some?
    ensures Run(Init, acts).value.overwritten == 0
  {
    RunKeepsInv(Init, acts);
  }

  /** The key pairs that CreateKey made in a run. */
  function MadeIn(acts: seq<Action>): set<Serial> {
    if acts == [] then {}
    else (if acts[0].CallCreate? && acts[0].ok then {acts[0].serial} else {}) + MadeIn(acts[1..])
  }

  lemma StepAccounts(s: State, a: Action)
    requires Enabled(s, a)
    ensures var s' := Apply(s, a);
            s'.owned.Keys + s'.released.Keys ==
            s.owned.Keys + s.released.Keys + if a.CallCreate? && a.ok then {a.serial} else {}
  {
    if !OwnersStep(a) {
      OthersKeepOwners(s, a);
    }
  }

  /** The steps that change which key pairs are owned. */
  predicate OwnersStep(a: Action) {
    a.CallCreate? || a.Rollback? || a.DropRow?
  }

  lemma OthersKeepOwners(s: State, a: Action)
    requires Enabled(s, a) && !OwnersStep(a)
    ensures Apply(s, a).owned == s.owned && Apply(s, a).released == s.released
  {
    match a
    case CallDelete(r, answer) => AfterDeleteKeepsOwners(s, r, answer, s.reqs[r].op.force, Target(s.reqs[r]));
    case _ =>
  }

  lemma AfterDeleteKeepsOwners(s: State, r: Rid, answer: Answer, force: bool, target: CspRef)
    requires r in s.reqs
    ensures var s' := AfterDelete(s, r, answer, force, target); s'.owned == s.owned && s'.released == s.released
  {}

  lemma {:induction false} RunAccounts(s: State, acts: seq<Action>)
    requires Run(s, acts).Some?
    ensures var s' := Run(s, acts).value;
            s'.owned.Keys + s'.released.Keys == s.owned.Keys + s.released.Keys + MadeIn(acts)
    decreases |acts|
  {
    if acts != [] {
      StepAccounts(s, acts[0]);
      RunAccounts(Apply(s, acts[0]), acts[1..]);
    }
  }

  /**
   No key pair is lost: in every interleaving, at every point, each key pair that CreateKey made is
   either released by exactly one recorded event, or named by its row, or in the hands of the one
   request that holds its (connection, name) lock.
   */
  lemma EveryKeyAccounted(acts: seq<Action>, n: Serial)
    requires Run(Init, acts).Some? && n in MadeIn(acts)
    ensures var s := Run(Init, acts).value;
            (n in s.owned) != (n in s.released) &&
            (n in s.owned ==> Recorded(s, s.owned[n]) || InFlight(s, n, s.owned[n]))
  {
    RunKeepsInv(Init, acts);
    RunAccounts(Init, acts);
  }

  /** Once all requests have returned, every key pair still owned is named by its own row. */
  lemma QuietMeansRecorded(acts: seq<Action>, n: Serial)
    requires Run(Init, acts).Some? && Run(Init, acts).value.reqs == map[] && n in Run(Init, acts).value.owned
    ensures var s := Run(Init, acts).value;
            Recorded(s, s.owned[n]) && forall n' | n' in s.owned && n' != n :: s.owned[n'].key != s.owned[n].key
  {
    RunKeepsInv(Init, acts);
  }

  /** A rollback leaves no row; one the driver answered well leaves no key pair either. */
  lemma RollbackMeans(s: State, r: Rid, answer: Answer)
    requires Inv(s) && Enabled(s, Rollback(r, answer))
    ensures var n, s' := s.reqs[r].pc.serial, Apply(s, Rollback(r, answer));
            var m := s.owned[n];
            m.key !in s'.rows && n in s'.released &&
            (s'.released[n] == RolledBack <==> answer == Done) &&
            (answer == Done ==> CspRef(m.key.conn, m.cspId) !in s'.csp)
  {}

  /** Dropping a row releases exactly the key pair that the row names, with the reason found before. */
  lemma DropMeans(s: State, r: Rid, n: Serial)
    requires Inv(s) && Enabled(s, DropRow(r, true)) && n in s.owned
    ensures var s' := Apply(s, DropRow(r, true));
            if s.owned[n].key == s.reqs[r].key
            then Recorded(s, s.owned[n]) && n !in s'.owned && s'.released[n] == s.reqs[r].pc.why
            else n in s'.owned
  {}

  /**
   What a release stands for: the key pair was owned and no row is left under its name. Either its own
   request has rolled it back, and if the driver answered well it is gone from the cloud; or the row
   that named it has been dropped, for the reason found before.
   */
  ghost predicate Releases(s: State, a: Action, s': State, n: Serial) {
    && (a.Rollback? || a.DropRow?) && a.r in s.reqs && n in s.owned && n in s'.released
    && s.reqs[a.r].key == s.owned[n].key && s.owned[n].key !in s'.rows
    && if a.Rollback?
       then s.reqs[a.r].pc == RollingBack(n) && s'.released[n] in {RolledBack, RollbackFailed} &&
            (s'.released[n] == RolledBack ==> CspRef(s.owned[n].key.conn, s.owned[n].cspId) !in s'.csp)
       else Recorded(s, s.owned[n]) && s.reqs[a.r].pc == Dropping(s'.released[n])
  }

  lemma ReleaseMeans(s: State, a: Action, n: Serial)
    requires Inv(s) && Enabled(s, a) && n !in s.released && n in Apply(s, a).released
    ensures Releases(s, a, Apply(s, a), n)
  {
    if !OwnersStep(a) {
      OthersKeepOwners(s, a);
    } else if a.Rollback? {
      RollbackReleases(s, a.r, a.answer, n);
    } else if a.DropRow? {
      DropReleases(s, a.r, a.dbOk, n);
    }
  }

  lemma RollbackReleases(s: State, r: Rid, answer: Answer, n: Serial)
    requires Inv(s) && Enabled(s, Rollback(r, answer)) && n !in s.released && n in Apply(s, Rollback(r, answer)).released
    ensures Releases(s, Rollback(r, answer), Apply(s, Rollback(r, answer)), n)
  {
    assert RequestInv(s, s.reqs[r]);
    RollbackMeans(s, r, answer);
  }

  lemma DropReleases(s: State, r: Rid, dbOk: bool, n: Serial)
    requires Inv(s) && Enabled(s, DropRow(r, dbOk)) && n !in s.released && n in Apply(s, DropRow(r, dbOk)).released
    ensures Releases(s, DropRow(r, dbOk), Apply(s, DropRow(r, dbOk)), n)
  {
    DropMeans(s, r, n);
  }

  /**
   DeleteKey sends the driver the name and ID that CreateKey got exactly when the stored pair is
   readable; a driver that deletes it then removes that very key pair.
   */
  lemma DeleteReachesItsKey(s: State, r: Rid, n: Serial)
    requires Inv(s) && r in s.reqs && s.reqs[r].pc.GotRow? && n in s.owned && s.owned[n].key == s.reqs[r].key
    ensures var m := s.owned[n];
            (GetDriverIID(IID(m.key.id, s.reqs[r].pc.systemId)) == IID(m.xid, m.cspId) <==> Readable(m.xid, m.cspId)) &&
            (Readable(m.xid, m.cspId) ==> Target(s.reqs[r]) == CspRef(m.key.conn, m.cspId))
  {
    var m := s.owned[n];
    assert RequestInv(s, s.reqs[r]);
    assert Recorded(s, m) || InFlight(s, n, m);
    RoundTrip(m.key.id, m.xid, m.cspId);
  }
}
