/**
 The straight-line code of KeyPairManager.go on its two stores. Every call carries along the run of
 the KeyRegistry machine that it amounts to, so what is proved of all runs holds of this code.
 */
module KeyPairManager {
  import opened Strings
  import opened IidCodec
  import opened KeyRegistry

  /** Every call leaves the stores where a run of the machine leaves them, with no request under way. */
  class KeyPairStores {
    var rows: map<LockKey, string>
    var csp: set<CspRef>
    ghost var trace: seq<Action>
    ghost var machine: State

    ghost predicate Follows()
      reads this
    {
      Run(Init, trace) == Some(machine)
    }

    ghost predicate Valid()
      reads this
    {
      Follows() && machine.rows == rows && machine.csp == csp && machine.reqs == map[] && machine.holder == map[]
    }

    constructor ()
      ensures Valid() && rows == map[] && csp == {}
    {
      rows, csp := map[], {};
      trace, machine := [], Init;
    }

    ghost method Step(a: Action)
      requires Follows() && Enabled(machine, a)
      modifies this`trace, this`machine
      ensures Follows() && machine == Apply(old(machine), a) && trace == old(trace) + [a]
    {
      RunOneMore(Init, trace, a);
      trace, machine := trace + [a], Apply(machine, a);
    }

    /** The machine stands where the code does, with one request inside its lock. */
    ghost predicate At(op: Op, key: LockKey, pc: Pc)
      reads this
    {
      Follows() && machine.rows == rows && machine.csp == csp &&
      machine.reqs == map[0 := Request(op, key, pc)] && machine.holder == map[key := 0]
    }

    /** A request arrives, takes its lock and looks its row up. */
    ghost method Begin(op: Op, key: LockKey, check: bool)
      requires Valid()
      modifies this`trace, this`machine
      ensures old(trace) <= trace
      ensures At(op, key, if !check then Returning else
                          match op
                          case CreateKey(_) => if key in rows then Returning else Absent
                          case RegisterKey(_) => if key in rows then Returning else Absent
                          case DeleteKey(_) => if key in rows then GotRow(rows[key]) else Returning
                          case Unregister => if key in rows then Dropping(Unregistered) else Returning)
    {
      Step(Arrive(0, op, key));
      Step(Lock(0));
      assert At(op, key, Locked);
      Step(CheckRow(0, check));
    }

    /** The deferred Unlock. */
    ghost method Return(op: Op, key: LockKey)
      requires At(op, key, Returning)
      modifies this`trace, this`machine
      ensures Valid() && old(trace) <= trace
    {
      Step(Unlock(0));
      assert machine.reqs == map[] && machine.holder == map[];
    }

    /** The driver's CreateKey. */
    method CallCreateKey(key: LockKey, xid: string, made: Option<string>)
      requires At(Op.CreateKey(xid), key, Absent) && (made.Some? ==> CspRef(key.conn, made.value) !in csp)
      modifies this`csp, this`trace, this`machine
      ensures old(trace) <= trace
      ensures made.None? ==> csp == old(csp) && At(Op.CreateKey(xid), key, Returning)
      ensures made.Some? ==>
                csp == old(csp) + {CspRef(key.conn, made.value)} &&
                exists n :: At(Op.CreateKey(xid), key, Created(n)) && n in machine.owned && machine.owned[n] == Made(key, xid, made.value)
    {
      ghost var serial := NewSerial(machine.owned.Keys + machine.released.Keys);
      Step(CallCreate(0, made.Some?, if made.Some? then made.value else "", serial));
      if made.Some? {
        csp := csp + {CspRef(key.conn, made.value)};
        assert At(Op.CreateKey(xid), key, Created(serial));
      }
    }

    /** CreateKey's insertion, with the rollback when it fails; `undo` answers the driver's DeleteKey. */
    method InsertCreated(key: LockKey, xid: string, cspId: string, ghost n: Serial, save: bool, undo: Answer)
      requires At(Op.CreateKey(xid), key, Created(n)) && n in machine.owned && machine.owned[n] == Made(key, xid, cspId)
      modifies this
      ensures old(trace) <= trace && At(Op.CreateKey(xid), key, Returning)
      ensures rows == if save then old(rows)[key := Encode(xid, cspId)] else old(rows)
      ensures csp == if !save && undo == Done then old(csp) - {CspRef(key.conn, cspId)} else old(csp)
    {
      Step(Insert(0, save));
      if save {
        rows := rows[key := Encode(xid, cspId)];
      } else {
        RollBack(key, xid, cspId, n, undo);
      }
    }

    method RollBack(key: LockKey, xid: string, cspId: string, ghost n: Serial, undo: Answer)
      requires At(Op.CreateKey(xid), key, RollingBack(n)) && n in machine.owned && machine.owned[n] == Made(key, xid, cspId)
      modifies this`csp, this`trace, this`machine
      ensures old(trace) <= trace && At(Op.CreateKey(xid), key, Returning)
      ensures csp == if undo == Done then old(csp) - {CspRef(key.conn, cspId)} else old(csp)
    {
      Step(Rollback(0, undo));
      if undo == Done { csp := csp - {CspRef(key.conn, cspId)}; }
    }

    /** CreateKey. The cloud gives a new key pair an ID that is not in use. */
    method CreateKey(key: LockKey, xid: string, check: bool, made: Option<string>, save: bool, undo: Answer) returns (r: Option<IID>)
      requires Valid() && (made.Some? ==> CspRef(key.conn, made.value) !in csp)
      modifies this
      ensures Valid() && old(trace) <= trace
      ensures r.Some? <==> check && key !in old(rows) && made.Some? && save
      ensures r.Some? ==> r.value == GetUserIID(IID(key.id, Encode(xid, made.value)))
      ensures rows == if r.Some? then old(rows)[key := Encode(xid, made.value)] else old(rows)
      // what it answers and what the driver will get is the pair that was made, if that is readable
      ensures r.Some? && Readable(xid, made.value) ==>
                r == Some(IID(key.id, made.value)) && GetDriverIID(IID(key.id, rows[key])) == IID(xid, made.value)
      ensures csp == if check && key !in old(rows) && made.Some? && (save || undo != Done)
                     then old(csp) + {CspRef(key.conn, made.value)} else old(csp)
    {
      ghost var op := Op.CreateKey(xid);
      Begin(op, key, check);
      if !check || key in rows { Return(op, key); return None; }
      CallCreateKey(key, xid, made);
      if made.None? { Return(op, key); return None; }
      ghost var n :| At(op, key, Created(n)) && n in machine.owned && machine.owned[n] == Made(key, xid, made.value);
      InsertCreated(key, xid, made.value, n, save, undo);
      Return(op, key);
      if !save { return None; }
      if Readable(xid, made.value) {
        RoundTrip(key.id, xid, made.value);
        UserRoundTrip(key.id, xid, made.value);
      }
      return Some(GetUserIID(IID(key.id, Encode(xid, made.value))));
    }

    /** RegisterKey of a key pair that the cloud already has. */
    method RegisterKey(key: LockKey, userSystemId: string, check: bool, found: Option<string>, save: bool) returns (ok: bool)
      requires Valid() && (found.Some? ==> CspRef(key.conn, found.value) in csp)
      modifies this
      ensures Valid() && old(trace) <= trace && csp == old(csp)
      ensures ok <==> check && key !in old(rows) && found.Some? && save
      ensures rows == if ok then old(rows)[key := Encode(GetMSShortID(found.value), found.value)] else old(rows)
      // the row gives the driver the registered ID and its short form, and the user the ID, for every ID without ":"
      ensures ok && ':' !in found.value ==>
                GetDriverIID(IID(key.id, rows[key])) == IID(GetMSShortID(found.value), found.value) &&
                GetUserIID(IID(key.id, rows[key])) == IID(key.id, found.value)
    {
      ghost var op := Op.RegisterKey(userSystemId);
      Begin(op, key, check);
      if !check || key in rows { Return(op, key); return false; }
      Step(CallGet(0, found.Some?, if found.Some? then found.value else ""));
      if found.None? { Return(op, key); return false; }
      assert At(op, key, Fetched(found.value));
      Step(Insert(0, save));
      if save { rows := rows[key := Encode(GetMSShortID(found.value), found.value)]; }
      Return(op, key);
      RegisteredReads(key, found.value);
      return save;
    }

    /** The driver's DeleteKey on what the row decodes to. */
    method CallDeleteKey(key: LockKey, force: bool, answer: Answer) returns (goOn: bool, ghost why: Release)
      requires key in rows && At(Op.DeleteKey(force), key, GotRow(rows[key]))
      modifies this`csp, this`trace, this`machine
      ensures old(trace) <= trace && At(Op.DeleteKey(force), key, if goOn then Dropping(why) else Returning)
      ensures goOn <==> force || answer == Done || answer == Missing
      ensures csp == if answer == Done then old(csp) - {CspRef(key.conn, GetDriverSystemId(IID(key.id, rows[key])))} else old(csp)
    {
      Step(CallDelete(0, answer));
      if answer == Done { csp := csp - {CspRef(key.conn, GetDriverSystemId(IID(key.id, rows[key])))}; }
      goOn := force || answer == Done || answer == Missing;
      why := if answer == Done then Deleted else if answer == Missing then NotFound else Forced;
    }

    /**
     DeleteKey: the row goes after the driver's true or "not found", or by force. By force it answers
     true even when the row could not be deleted.
     */
    method DeleteKey(key: LockKey, force: bool, check: bool, answer: Answer, drop: bool) returns (ok: bool)
      requires Valid()
      modifies this
      ensures Valid() && old(trace) <= trace
      ensures rows == if check && key in old(rows) && (force || answer == Done || answer == Missing) && drop
                      then old(rows) - {key} else old(rows)
      ensures csp == if check && key in old(rows) && answer == Done
                     then old(csp) - {CspRef(key.conn, GetDriverSystemId(IID(key.id, old(rows)[key])))} else old(csp)
      ensures ok <==> check && key in old(rows) && answer == Done && (drop || force)
    {
      ghost var op := Op.DeleteKey(force);
      Begin(op, key, check);
      if !check || key !in rows { Return(op, key); return false; }
      ghost var why;
      var goOn;
      goOn, why := CallDeleteKey(key, force, answer);
      if !goOn { Return(op, key); return false; }
      DeleteRow(op, key, why, drop);
      Return(op, key);
      return answer == Done && (drop || force);
    }

    method DeleteRow(ghost op: Op, key: LockKey, ghost why: Release, drop: bool)
      requires At(op, key, Dropping(why))
      modifies this`rows, this`trace, this`machine
      ensures old(trace) <= trace && At(op, key, Returning)
      ensures rows == if drop then old(rows) - {key} else old(rows)
    {
      Step(DropRow(0, drop));
      if drop { rows := rows - {key}; }
    }
  }

  lemma RegisteredReads(key: LockKey, cspId: string)
    ensures var row := Encode(GetMSShortID(cspId), cspId);
            ':' !in cspId ==> GetDriverIID(IID(key.id, row)) == IID(GetMSShortID(cspId), cspId) && GetUserIID(IID(key.id, row)) == IID(key.id, cspId)
  {
    if ':' !in cspId { RegisterRoundTrip(key.id, cspId); }
  }

  lemma {:induction false} RunOneMore(s: State, acts: seq<Action>, a: Action)
    requires Run(s, acts).Some? && Enabled(Run(s, acts).value, a)
    ensures Run(s, acts + [a]) == Some(Apply(Run(s, acts).value, a))
    decreases |acts|
  {
    if acts == [] {
      assert [] + [a] == [a] && [a][1..] == [];
      assert Run(Apply(s, a), []) == Some(Apply(s, a));
    } else {
      assert (acts + [a])[1..] == acts[1..] + [a];
      RunOneMore(Apply(s, acts[0]), acts[1..], a);
    }
  }

  lemma NewSerial(used: set<Serial>) returns (n: Serial)
    ensures n !in used
  {
    n := AboveAll(used);
  }

  lemma {:induction false} AboveAll(used: set<Serial>) returns (n: Serial)
    ensures forall m | m in used :: m < n
  {
    if used == {} {
      n := 0;
    } else {
      var m :| m in used;
      var k := AboveAll(used - {m});
      n := if k > m then k else m + 1;
      assert forall x | x in used :: x == m || x in used - {m};
    }
  }

  /**
   Between calls of this code, every key pair that CreateKey has made and that was not released by a
   recorded event is named by its own row, and no call has ever replaced a row.
   */
  lemma EveryKeyHasItsRow(stores: KeyPairStores, n: Serial)
    requires stores.Valid() && n in MadeIn(stores.trace)
    ensures stores.machine.overwritten == 0
    ensures n in stores.machine.released ||
            (n in stores.machine.owned &&
             var m := stores.machine.owned[n]; m.key in stores.rows && stores.rows[m.key] == Encode(m.xid, m.cspId))
  {
    var s := stores.machine;
    assert Run(Init, stores.trace).value == s;
    EveryKeyAccounted(stores.trace, n);
    InsertNeverOverwrites(stores.trace);
    if n in s.owned {
      QuietMeansRecorded(stores.trace, n);
      assert Recorded(s, s.owned[n]) && s.rows == stores.rows;
    }
  }
}
