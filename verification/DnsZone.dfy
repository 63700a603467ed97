/**
 DNS zones and their records, DNS-ZoneManager.go: a table of zones, a table of record aliases, and
 the requests that change them under the zone's (connection, name) lock. What the cloud and the
 database answer is passed in, call by call.
 */
module DnsZone {
  import opened Strings
  import opened IidCodec

  datatype ZoneKey = ZoneKey(conn: string, nameId: string)
  datatype RecordKey = RecordKey(conn: string, nameId: string, zone: string)  // the primary key

  /** A record as a driver reports it; `nameId` is Spider's alias, `data` its values and TTL. */
  datatype Record = Record(nameId: string, systemId: string, name: string, rtype: string, data: string)

  datatype Zone = Zone(nameId: string, systemId: string, domain: string, records: seq<Record>)

  /** The two tables. */
  datatype DB = DB(zones: map<ZoneKey, string>, records: map<RecordKey, string>)

  predicate HasZone(db: DB, conn: string, zone: string) { ZoneKey(conn, zone) in db.zones }

  predicate HasRecords(db: DB, conn: string, zone: string) {
    exists k | k in db.records :: k.conn == conn && k.zone == zone
  }

  function WithoutRecords(rows: map<RecordKey, string>, conn: string, zone: string): map<RecordKey, string> {
    map k | k in rows && !(k.conn == conn && k.zone == zone) :: rows[k]
  }

  // ------------------------------------------------------------------ names

  function Fqdn(name: string): string {
    if name == "" || name[|name| - 1] == '.' then name else name + "."
  }

  predicate Matches(r: Record, name: string, rtype: string) {
    r.rtype == rtype && (r.name == name || r.name == Fqdn(name))
  }

  /** findRecordSystemId: the ID of the first match, "" for none. */
  function FindRecord(records: seq<Record>, name: string, rtype: string): string {
    if records == [] then ""
    else if Matches(records[0], name, rtype) then records[0].systemId
    else FindRecord(records[1..], name, rtype)
  }

  /** A record of the type that is called by the name, as it is or with one trailing dot. */
  predicate IsCalled(r: Record, name: string, rtype: string) {
    r.rtype == rtype && (r.name == name || (r.name == name + "." && name != "" && name[|name| - 1] != '.'))
  }

  predicate FirstCalled(records: seq<Record>, name: string, rtype: string, i: int) {
    0 <= i < |records| && IsCalled(records[i], name, rtype) && forall j | 0 <= j < i :: !IsCalled(records[j], name, rtype)
  }

  predicate NoneCalled(records: seq<Record>, name: string, rtype: string) {
    forall i | 0 <= i < |records| :: !IsCalled(records[i], name, rtype)
  }

  /** What the lookup finds: the ID of the first record of that type and name, "" when there is none. */
  lemma {:induction false} FindRecordFinds(records: seq<Record>, name: string, rtype: string)
    ensures NoneCalled(records, name, rtype) ==> FindRecord(records, name, rtype) == ""
    ensures forall i | FirstCalled(records, name, rtype, i) :: FindRecord(records, name, rtype) == records[i].systemId
    ensures NoneCalled(records, name, rtype) || exists i :: FirstCalled(records, name, rtype, i)
  {
    if records != [] {
      var rest := records[1..];
      FindRecordFinds(rest, name, rtype);
      if IsCalled(records[0], name, rtype) {
        assert FirstCalled(records, name, rtype, 0);
      } else {
        forall i | FirstCalled(records, name, rtype, i) ensures FindRecord(records, name, rtype) == records[i].systemId {
          assert forall j | 0 <= j < i - 1 :: rest[j] == records[j + 1];
          assert FirstCalled(rest, name, rtype, i - 1);
        }
        if i :| FirstCalled(rest, name, rtype, i) {
          assert forall j | 0 < j <= i :: records[j] == rest[j - 1];
          assert FirstCalled(records, name, rtype, i + 1);
        } else {
          assert forall j | 0 < j < |records| :: records[j] == rest[j - 1];
        }
      }
    }
  }

  method FindRecordSystemId(records: seq<Record>, name: string, rtype: string) returns (id: string)
    ensures id == FindRecord(records, name, rtype)
    ensures (exists i :: FirstCalled(records, name, rtype, i) && records[i].systemId == id) ||
            (NoneCalled(records, name, rtype) && id == "")
  {
    FindRecordFinds(records, name, rtype);
    for i := 0 to |records|
      invariant FindRecord(records, name, rtype) == FindRecord(records[i..], name, rtype)
    {
      if Matches(records[i], name, rtype) {
        return records[i].systemId;
      }
    }
    return "";
  }

  /** For a driver that reports fully qualified names, the caller's trailing dot makes no difference. */
  lemma {:induction false} TrailingDotIgnored(records: seq<Record>, name: string, rtype: string)
    requires forall i | 0 <= i < |records| :: HasSuffix(records[i].name, ".")
    ensures FindRecord(records, Fqdn(name), rtype) == FindRecord(records, name, rtype)
  {
    if records != [] {
      var n := records[0].name;
      AtChar(n, ".", |n| - 1, 0);
      TrailingDotIgnored(records[1..], name, rtype);
    }
  }

  function Alias(zone: string, count: nat): string { zone + "-record-" + Itoa(count) }

  /** What is kept: all records but the NS and SOA records of the domain itself. */
  lemma {:induction false} KeptAre(records: seq<Record>, domain: string)
    ensures forall r :: r in Kept(records, domain) <==> r in records && !(r.name == domain && r.rtype in {"NS", "SOA"})
  {
    if records != [] {
      var n := |records| - 1;
      KeptAre(records[..n], domain);
      assert records == records[..n] + [records[n]];
    }
  }

  lemma AliasInjective(zone: string, i: nat, j: nat)
    requires Alias(zone, i) == Alias(zone, j)
    ensures i == j
  {
    assert Itoa(i) == Alias(zone, i)[|zone + "-record-"|..];
    assert Itoa(j) == Alias(zone, j)[|zone + "-record-"|..];
    ItoaInjective(i, j);
  }

  // ------------------------------------------------------------------ registering

  /** The zone's own NS and SOA records, which belong to the cloud. */
  predicate Apex(r: Record, domain: string) {
    r.name == domain && (r.rtype == "NS" || r.rtype == "SOA")
  }

  function Kept(records: seq<Record>, domain: string): seq<Record> {
    if records == [] then []
    else
      var last := records[|records| - 1];
      Kept(records[..|records| - 1], domain) + if Apex(last, domain) then [] else [last]
  }

  function Aliased(zone: string, kept: seq<Record>): seq<Record> {
    seq(|kept|, i requires 0 <= i < |kept| => kept[i].(nameId := Alias(zone, i)))
  }

  /** The record rows after one upsert per kept record. */
  function WithRecords(rows: map<RecordKey, string>, conn: string, zone: string, kept: seq<Record>): map<RecordKey, string> {
    if kept == [] then rows
    else
      var n := |kept| - 1;
      WithRecords(rows, conn, zone, kept[..n])[RecordKey(conn, Alias(zone, n), zone) := kept[n].systemId]
  }

  lemma {:induction false} KeptPrefix(records: seq<Record>, domain: string, i: nat)
    requires i <= |records|
    ensures Kept(records[..i], domain) <= Kept(records, domain)
  {
    if i < |records| {
      var n := |records| - 1;
      assert records[..n][..i] == records[..i];
      KeptPrefix(records[..n], domain, i);
    } else {
      assert records[..i] == records;
    }
  }

  /** One more record of the cloud's list is either the next kept one or the zone's own. */
  lemma KeptGrows(records: seq<Record>, domain: string, i: nat, count: nat)
    requires i < |records| && count <= |Kept(records, domain)| && Kept(records[..i], domain) == Kept(records, domain)[..count]
    ensures var all := Kept(records, domain);
            if Apex(records[i], domain) then Kept(records[..i + 1], domain) == all[..count]
            else count < |all| && all[count] == records[i] && Kept(records[..i + 1], domain) == all[..count + 1]
  {
    KeptNext(records, domain, i);
    KeptPrefix(records, domain, i + 1);
    PrefixGrows(Kept(records, domain), Kept(records[..i], domain), Kept(records[..i + 1], domain));
  }

  lemma KeptNext(records: seq<Record>, domain: string, i: nat)
    requires i < |records|
    ensures Kept(records[..i + 1], domain) == Kept(records[..i], domain) + if Apex(records[i], domain) then [] else [records[i]]
  {
    assert records[..i + 1][..i] == records[..i];
  }

  lemma PrefixGrows(all: seq<Record>, a: seq<Record>, b: seq<Record>)
    requires a <= b <= all
    ensures a == all[..|a|] && b == all[..|b|] && b == a + all[|a|..|b|]
  {}

  lemma WithRecordsGrows(rows: map<RecordKey, string>, conn: string, zone: string, all: seq<Record>, n: nat)
    requires n < |all|
    ensures WithRecords(rows, conn, zone, all[..n + 1]) ==
            WithRecords(rows, conn, zone, all[..n])[RecordKey(conn, Alias(zone, n), zone) := all[n].systemId]
  {
    assert all[..n + 1][..n] == all[..n];
  }

  lemma AliasedNext(zone: string, all: seq<Record>, n: nat)
    requires n < |all|
    ensures Aliased(zone, all[..n + 1]) == Aliased(zone, all[..n]) + [all[n].(nameId := Alias(zone, n))]
  {}

  /** Where a kept record comes from. */
  lemma {:induction false} KeptFrom(records: seq<Record>, domain: string, i: nat) returns (j: nat)
    requires i < |Kept(records, domain)|
    ensures j < |records| && records[j] == Kept(records, domain)[i] && !Apex(records[j], domain)
    ensures |Kept(records[..j], domain)| == i
  {
    var n := |records| - 1;
    if i < |Kept(records[..n], domain)| {
      j := KeptFrom(records[..n], domain, i);
      assert records[..n][..j] == records[..j];
    } else {
      j := n;
    }
  }

  /** The rows of a zone that had none: one per kept record, under its alias. */
  lemma {:induction false} RegisteredRows(rows: map<RecordKey, string>, conn: string, zone: string, kept: seq<Record>, k: RecordKey)
    requires k.conn == conn && k.zone == zone && k !in rows
    ensures var rows' := WithRecords(rows, conn, zone, kept);
            (k in rows' <==> exists i | 0 <= i < |kept| :: k.nameId == Alias(zone, i)) &&
            (forall i | 0 <= i < |kept| && k.nameId == Alias(zone, i) :: k in rows' && rows'[k] == kept[i].systemId)
  {
    if kept != [] {
      var n := |kept| - 1;
      RegisteredRows(rows, conn, zone, kept[..n], k);
      forall i | 0 <= i < n ensures Alias(zone, i) != Alias(zone, n) {
        if Alias(zone, i) == Alias(zone, n) { AliasInjective(zone, i, n); }
      }
      assert forall i | 0 <= i < n :: kept[..n][i] == kept[i];
    }
  }

  lemma {:induction false} RegisteredElsewhere(rows: map<RecordKey, string>, conn: string, zone: string, kept: seq<Record>)
    ensures WithoutRecords(WithRecords(rows, conn, zone, kept), conn, zone) == WithoutRecords(rows, conn, zone)
  {
    if kept != [] {
      RegisteredElsewhere(rows, conn, zone, kept[..|kept| - 1]);
    }
  }

  // ------------------------------------------------------------------ the requests

  /** How the database and driver calls of a request end. */
  datatype Call =
    | Register(conn: string, zone: string, has: bool, info: Option<Zone>, saveZone: bool, saveRecord: nat -> bool)
    | Create(conn: string, zone: string, has: bool, xid: string, info: Option<Zone>, saveZone: bool)
    | Add(conn: string, zone: string, alias: string, name: string, rtype: string, has: bool, info: Option<Zone>, save: bool)
    | Change(conn: string, zone: string, alias: string, name: string, rtype: string, has: bool, info: Option<Zone>,
             drop: bool, save: bool)
    | Remove(conn: string, zone: string, alias: string, force: bool, has: bool, answer: Removal, drop: bool)
    | Delete(conn: string, zone: string, force: bool, has: bool, answer: Removal, dropZone: bool, dropRecords: bool)

  datatype Removal = Removed(done: bool) | NotFound | Failed

  /** How many of the saves succeed before the first that fails. */
  function Saved(save: nat -> bool, n: nat, from: nat): (k: nat)
    requires from <= n
    ensures from <= k <= n
    decreases n - from
  {
    if from == n || !save(from) then from else Saved(save, n, from + 1)
  }

  /** A removal that goes on to the rows: by force, by a "not found", or by the driver's true. */
  predicate GoesOn(force: bool, answer: Removal) { force || answer == NotFound || answer == Removed(true) }

  function RegisterEffect(db: DB, q: Call): DB
    requires q.Register?
  {
    if !q.has || HasZone(db, q.conn, q.zone) || q.info.None? || !q.saveZone then db
    else
      var kept := Kept(q.info.value.records, q.info.value.domain);
      DB(db.zones[ZoneKey(q.conn, q.zone) := Encode(GetMSShortID(q.info.value.systemId), q.info.value.systemId)],
         WithRecords(db.records, q.conn, q.zone, kept[..Saved(q.saveRecord, |kept|, 0)]))
  }

  function CreateEffect(db: DB, q: Call): DB
    requires q.Create?
  {
    if !q.has || HasZone(db, q.conn, q.zone) || q.info.None? || !q.saveZone then db
    else db.(zones := db.zones[ZoneKey(q.conn, q.zone) := Encode(q.xid, q.info.value.systemId)])
  }

  function AddEffect(db: DB, q: Call): DB
    requires q.Add?
  {
    var k := RecordKey(q.conn, q.alias, q.zone);
    if !q.has || k in db.records || !HasZone(db, q.conn, q.zone) || q.info.None? then db
    else
      var id := FindRecord(q.info.value.records, q.name, q.rtype);
      if id == "" || !q.save then db else db.(records := db.records[k := id])
  }

  function ChangeEffect(db: DB, q: Call): DB
    requires q.Change?
  {
    var k := RecordKey(q.conn, q.alias, q.zone);
    if !q.has || k !in db.records || !HasZone(db, q.conn, q.zone) || q.info.None? then db
    else
      var id := FindRecord(q.info.value.records, q.name, q.rtype);
      if id == "" || id == db.records[k] || !q.drop then db
      else if !q.save then db.(records := db.records - {k})
      else db.(records := db.records[k := id])
  }

  function RemoveEffect(db: DB, q: Call): DB
    requires q.Remove?
  {
    var k := RecordKey(q.conn, q.alias, q.zone);
    if q.has && k in db.records && HasZone(db, q.conn, q.zone) && GoesOn(q.force, q.answer) && q.drop
    then db.(records := db.records - {k}) else db
  }

  function DeleteEffect(db: DB, q: Call): DB
    requires q.Delete?
  {
    if !q.has || !HasZone(db, q.conn, q.zone) || !GoesOn(q.force, q.answer) then db
    else
      var forced := q.force || q.answer == NotFound;
      DB(if q.dropZone then db.zones - {ZoneKey(q.conn, q.zone)} else db.zones,
         if (q.dropZone || forced) && q.dropRecords then WithoutRecords(db.records, q.conn, q.zone) else db.records)
  }

  function Effect(db: DB, q: Call): DB {
    match q
    case Register(_, _, _, _, _, _) => RegisterEffect(db, q)
    case Create(_, _, _, _, _, _) => CreateEffect(db, q)
    case Add(_, _, _, _, _, _, _, _) => AddEffect(db, q)
    case Change(_, _, _, _, _, _, _, _, _) => ChangeEffect(db, q)
    case Remove(_, _, _, _, _, _, _) => RemoveEffect(db, q)
    case Delete(_, _, _, _, _, _, _) => DeleteEffect(db, q)
  }

  /** What attachRecordNameIds may return: the reported records that have a row, each with one such row's alias. */
  ghost predicate Attached(rows: map<RecordKey, string>, conn: string, zone: string, infos: seq<Record>, lookup: nat -> bool,
                           r: seq<Record>)
  {
    if infos == [] then r == []
    else
      var n := |infos| - 1;
      if !lookup(n) || !(exists k | k in rows :: RowFor(rows, k, conn, zone, infos[n].systemId))
      then Attached(rows, conn, zone, infos[..n], lookup, r)
      else
        && r != [] && Attached(rows, conn, zone, infos[..n], lookup, r[..|r| - 1])
        && r[|r| - 1] == infos[n].(nameId := r[|r| - 1].nameId)
        && RecordKey(conn, r[|r| - 1].nameId, zone) in rows
        && RowFor(rows, RecordKey(conn, r[|r| - 1].nameId, zone), conn, zone, infos[n].systemId)
  }

  predicate RowFor(rows: map<RecordKey, string>, k: RecordKey, conn: string, zone: string, systemId: string)
    requires k in rows
  {
    k.conn == conn && k.zone == zone && rows[k] == systemId
  }

  /** What GetDNSZone may return. */
  ghost predicate GetResult(db: DB, conn: string, zone: string, cloud: string -> Option<Zone>, lookup: nat -> bool, r: Option<Zone>) {
    if !HasZone(db, conn, zone) then r == None
    else
      var row := IID(zone, db.zones[ZoneKey(conn, zone)]);
      match cloud(GetDriverSystemId(row))
      case None => r == None
      case Some(info) =>
        && r.Some? && r.value == Zone(zone, GetUserIID(row).systemId, info.domain, r.value.records)
        && Attached(db.records, conn, zone, info.records, lookup, r.value.records)
  }

  class MetaDB {
    var zones: map<ZoneKey, string>
    var records: map<RecordKey, string>

    ghost function Db(): DB
      reads this
    {
      DB(zones, records)
    }

    constructor ()
      ensures Db() == DB(map[], map[])
    {
      zones, records := map[], map[];
    }

    /** RegisterDNSZone's loop over the records that the cloud's zone already has. */
    method RegisterRecords(conn: string, zone: string, info: Zone, save: nat -> bool) returns (r: Option<seq<Record>>)
      modifies this`records
      ensures var kept := Kept(info.records, info.domain);
              records == WithRecords(old(records), conn, zone, kept[..Saved(save, |kept|, 0)]) &&
              r == if Saved(save, |kept|, 0) == |kept| then Some(Aliased(zone, kept)) else None
    {
      var list := [];
      var count := 0;
      ghost var all := Kept(info.records, info.domain);
      for i := 0 to |info.records|
        invariant count <= |all| && Kept(info.records[..i], info.domain) == all[..count]
        invariant list == Aliased(zone, all[..count])
        invariant records == WithRecords(old(records), conn, zone, all[..count])
        invariant Saved(save, |all|, 0) == Saved(save, |all|, count)
      {
        var record := info.records[i];
        KeptGrows(info.records, info.domain, i, count);
        if Apex(record, info.domain) { continue; }
        var alias := Alias(zone, count);
        count := count + 1;
        if !save(count - 1) { return None; }
        WithRecordsGrows(old(records), conn, zone, all, count - 1);
        AliasedNext(zone, all, count - 1);
        records := records[RecordKey(conn, alias, zone) := record.systemId];
        list := list + [record.(nameId := alias)];
      }
      assert info.records[..|info.records|] == info.records;
      return Some(list);
    }

    method RegisterDNSZone(q: Call) returns (r: Option<Zone>)
      requires q.Register?
      modifies this
      ensures Db() == RegisterEffect(old(Db()), q)
      ensures r.Some? <==> q.has && !HasZone(old(Db()), q.conn, q.zone) && q.info.Some? && q.saveZone &&
                           var kept := Kept(q.info.value.records, q.info.value.domain); Saved(q.saveRecord, |kept|, 0) == |kept|
      ensures r.Some? ==> r.value.records == Aliased(q.zone, Kept(q.info.value.records, q.info.value.domain))
      // the zone's row reads back for every ID without ":"
      ensures r.Some? ==> zones == old(zones)[ZoneKey(q.conn, q.zone) := zones[ZoneKey(q.conn, q.zone)]]
      ensures r.Some? && ':' !in q.info.value.systemId ==>
                GetDriverSystemId(IID(q.zone, zones[ZoneKey(q.conn, q.zone)])) == q.info.value.systemId &&
                GetUserIID(IID(q.zone, zones[ZoneKey(q.conn, q.zone)])) == IID(q.zone, q.info.value.systemId)
    {
      if !q.has || ZoneKey(q.conn, q.zone) in zones { return None; }
      if q.info.None? { return None; }
      var info := q.info.value;
      if !q.saveZone { return None; }
      zones := zones[ZoneKey(q.conn, q.zone) := Encode(GetMSShortID(info.systemId), info.systemId)];
      var list := RegisterRecords(q.conn, q.zone, info, q.saveRecord);
      if list.None? { return None; }
      if ':' !in info.systemId { RegisterRoundTrip(q.zone, info.systemId); }
      return Some(Zone(q.zone, info.systemId, info.domain, list.value));
    }

    method CreateDNSZone(q: Call) returns (ok: bool)
      requires q.Create?
      modifies this`zones
      ensures Db() == CreateEffect(old(Db()), q)
      ensures ok <==> Db() != old(Db())
      ensures ok <==> q.has && ZoneKey(q.conn, q.zone) !in old(zones) && q.info.Some? && q.saveZone
      // the row gives the driver the name and ID it made the zone with, if the pair is readable
      ensures ok ==> zones == old(zones)[ZoneKey(q.conn, q.zone) := zones[ZoneKey(q.conn, q.zone)]]
      ensures ok && Readable(q.xid, q.info.value.systemId) ==>
                GetDriverIID(IID(q.zone, zones[ZoneKey(q.conn, q.zone)])) == IID(q.xid, q.info.value.systemId) &&
                GetUserIID(IID(q.zone, zones[ZoneKey(q.conn, q.zone)])) == IID(q.zone, q.info.value.systemId)
    {
      if !q.has || ZoneKey(q.conn, q.zone) in zones { return false; }
      if q.info.None? { return false; }
      if !q.saveZone { return false; }  // the rollback is the driver's DeleteDNSZone
      zones := zones[ZoneKey(q.conn, q.zone) := Encode(q.xid, q.info.value.systemId)];
      assert ZoneKey(q.conn, q.zone) in zones && ZoneKey(q.conn, q.zone) !in old(zones);
      RoundTrip(q.zone, q.xid, q.info.value.systemId);
      if Readable(q.xid, q.info.value.systemId) { UserRoundTrip(q.zone, q.xid, q.info.value.systemId); }
      return true;
    }

    method AddDNSRecord(q: Call) returns (ok: bool)
      requires q.Add?
      modifies this`records
      ensures Db() == AddEffect(old(Db()), q)
      ensures ok <==> RecordKey(q.conn, q.alias, q.zone) !in old(records) && RecordKey(q.conn, q.alias, q.zone) in records
      ensures ok ==> HasZone(Db(), q.conn, q.zone)
      // the ID is that of the first reported record of the requested type and name
      ensures ok ==> exists i ::
                FirstCalled(q.info.value.records, q.name, q.rtype, i) &&
                records == old(records)[RecordKey(q.conn, q.alias, q.zone) := q.info.value.records[i].systemId]
      ensures !ok ==> records == old(records)
      ensures ok <==> q.has && RecordKey(q.conn, q.alias, q.zone) !in old(records) && ZoneKey(q.conn, q.zone) in zones && q.info.Some? &&
                      q.save && exists i :: FirstCalled(q.info.value.records, q.name, q.rtype, i) && q.info.value.records[i].systemId != ""
    {
      var k := RecordKey(q.conn, q.alias, q.zone);
      if q.info.Some? { FindRecordFinds(q.info.value.records, q.name, q.rtype); }
      if !q.has || k in records { return false; }
      if ZoneKey(q.conn, q.zone) !in zones { return false; }
      if q.info.None? { return false; }
      var id := FindRecordSystemId(q.info.value.records, q.name, q.rtype);
      if id == "" { return false; }
      if !q.save { return false; }
      records := records[k := id];
      return true;
    }

    /** A change of the record's ID is a deletion and an insertion; failing between the two loses the alias. */
    method ChangeDNSRecord(q: Call) returns (ok: bool)
      requires q.Change?
      modifies this`records
      ensures Db() == ChangeEffect(old(Db()), q)
      ensures var k := RecordKey(q.conn, q.alias, q.zone);
              ok <==> q.has && k in old(records) && HasZone(Db(), q.conn, q.zone) && q.info.Some? && k in records &&
                      FindRecord(q.info.value.records, q.name, q.rtype) in {"", records[k]}
      // the ID is then that of the first reported record of the type and name, or as before if there is none or it has none
      ensures ok ==> var k, all := RecordKey(q.conn, q.alias, q.zone), q.info.value.records;
                k in records && records == old(records)[k := records[k]] &&
                ((exists i :: FirstCalled(all, q.name, q.rtype, i) && records[k] == if all[i].systemId == "" then old(records)[k] else all[i].systemId) ||
                 (NoneCalled(all, q.name, q.rtype) && records == old(records)))
      ensures !ok ==> records == old(records) || records == old(records) - {RecordKey(q.conn, q.alias, q.zone)}
    {
      if q.info.Some? { FindRecordFinds(q.info.value.records, q.name, q.rtype); }
      var k := RecordKey(q.conn, q.alias, q.zone);
      if !q.has || k !in records { return false; }
      if ZoneKey(q.conn, q.zone) !in zones { return false; }
      if q.info.None? { return false; }
      var id := FindRecordSystemId(q.info.value.records, q.name, q.rtype);
      if id != "" && id != records[k] {
        if !q.drop { return false; }
        records := records - {k};
        if !q.save { return false; }
        records := records[k := id];
      }
      return true;
    }

    /** None is an error. By force, and after "not found", the answer comes even when the row stays. */
    method RemoveDNSRecord(q: Call) returns (r: Option<bool>)
      requires q.Remove?
      modifies this`records
      ensures Db() == RemoveEffect(old(Db()), q)
      ensures r.Some? <==> q.has && RecordKey(q.conn, q.alias, q.zone) in old(records) && HasZone(Db(), q.conn, q.zone) &&
                           (q.answer == Removed(false) || (GoesOn(q.force, q.answer) && (q.drop || q.force || q.answer == NotFound)))
      ensures r.Some? ==> r.value == (q.answer == Removed(true))
      ensures records == if q.has && ZoneKey(q.conn, q.zone) in zones && (q.force || q.answer in {NotFound, Removed(true)}) && q.drop
                         then old(records) - {RecordKey(q.conn, q.alias, q.zone)} else old(records)
    {
      var k := RecordKey(q.conn, q.alias, q.zone);
      if !q.has || k !in records || ZoneKey(q.conn, q.zone) !in zones { return None; }
      var forced := q.force;
      match q.answer {
        case Removed(done) => if !forced && !done { return Some(false); }
        case NotFound => forced := true;
        case Failed => if !forced { return None; }
      }
      if q.drop {
        records := records - {k};
      } else if !forced {
        return None;
      }
      return Some(q.answer == Removed(true));
    }

    method DeleteDNSZone(q: Call) returns (r: Option<bool>)
      requires q.Delete?
      modifies this
      ensures Db() == DeleteEffect(old(Db()), q)
      ensures r.Some? <==> q.has && HasZone(old(Db()), q.conn, q.zone) &&
                           (q.answer == Removed(false) || (GoesOn(q.force, q.answer) &&
                            ((q.dropZone && q.dropRecords) || q.force || q.answer == NotFound)))
      ensures r.Some? ==> r.value == (q.answer == Removed(true))
      ensures zones == if q.has && (q.force || q.answer in {NotFound, Removed(true)}) && q.dropZone
                       then old(zones) - {ZoneKey(q.conn, q.zone)} else old(zones)
      ensures var goes := q.has && ZoneKey(q.conn, q.zone) in old(zones) && (q.force || q.answer in {NotFound, Removed(true)}) &&
                          (q.dropZone || q.force || q.answer == NotFound) && q.dropRecords;
              forall k :: k in records <==> k in old(records) && !(goes && k.conn == q.conn && k.zone == q.zone)
      ensures forall k | k in records && k in old(records) :: records[k] == old(records)[k]
    {
      if !q.has || ZoneKey(q.conn, q.zone) !in zones { return None; }
      var forced := q.force;
      match q.answer {
        case Removed(done) => if !forced && !done { return Some(false); }
        case NotFound => forced := true;
        case Failed => if !forced { return None; }
      }
      if q.dropZone {
        zones := zones - {ZoneKey(q.conn, q.zone)};
      } else if !forced {
        return None;
      }
      if q.dropRecords {
        records := WithoutRecords(records, q.conn, q.zone);
      } else if !forced {
        return None;
      }
      return Some(q.answer == Removed(true));
    }

    /** The database may return any row that meets the three conditions. */
    method AttachRecordNameIds(conn: string, zone: string, infos: seq<Record>, lookup: nat -> bool) returns (r: seq<Record>)
      ensures Attached(records, conn, zone, infos, lookup, r)
    {
      r := [];
      for i := 0 to |infos|
        invariant Attached(records, conn, zone, infos[..i], lookup, r)
      {
        assert infos[..i + 1][..i] == infos[..i];
        if !lookup(i) || !(exists k | k in records :: RowFor(records, k, conn, zone, infos[i].systemId)) { continue; }
        var k :| k in records && RowFor(records, k, conn, zone, infos[i].systemId);
        assert k == RecordKey(conn, k.nameId, zone);
        r := r + [infos[i].(nameId := k.nameId)];
        assert r[..|r| - 1] + [r[|r| - 1]] == r;
      }
      assert infos[..|infos|] == infos;
    }

    /** GetDNSZone of the zone's row; `cloud` is the driver's GetDNSZone by system ID. */
    method GetDNSZone(conn: string, zone: string, cloud: string -> Option<Zone>, lookup: nat -> bool) returns (r: Option<Zone>)
      ensures GetResult(Db(), conn, zone, cloud, lookup, r)
    {
      if ZoneKey(conn, zone) !in zones { return None; }
      var spiderIId := IID(zone, zones[ZoneKey(conn, zone)]);
      var answer := cloud(GetDriverSystemId(spiderIId));
      if answer.None? { return None; }
      var list := AttachRecordNameIds(conn, zone, answer.value.records, lookup);
      return Some(Zone(zone, GetUserIID(spiderIId).systemId, answer.value.domain, list));
    }
  }

  // ------------------------------------------------------------------ registering, then getting

  predicate DistinctIds(records: seq<Record>) {
    forall i, j | 0 <= i < j < |records| :: records[i].systemId != records[j].systemId
  }

  /** Of a registered zone's records, exactly the kept ones have a row, and only their own alias fits. */
  lemma RowsFit(rows: map<RecordKey, string>, conn: string, zone: string, records: seq<Record>, domain: string, n: nat, k: RecordKey)
    requires n < |records| && DistinctIds(records) && k.conn == conn && k.zone == zone && k !in rows
    ensures var rows' := WithRecords(rows, conn, zone, Kept(records, domain));
            k in rows' && RowFor(rows', k, conn, zone, records[n].systemId) <==>
              !Apex(records[n], domain) && k.nameId == Alias(zone, |Kept(records[..n], domain)|)
  {
    var kept := Kept(records, domain);
    var m := |Kept(records[..n], domain)|;
    RegisteredRows(rows, conn, zone, kept, k);
    KeptPrefix(records, domain, n + 1);
    assert records[..n + 1][..n] == records[..n];
    if !Apex(records[n], domain) {
      assert Kept(records[..n + 1], domain)[m] == records[n];
    }
    forall i | 0 <= i < |kept| && kept[i].systemId == records[n].systemId ensures i == m && !Apex(records[n], domain) {
      var j := KeptFrom(records, domain, i);
      assert j == n;
    }
  }

  /** ... which is all that the lookups depend on. */
  ghost predicate Fits(rows: map<RecordKey, string>, conn: string, zone: string, records: seq<Record>, domain: string, n: nat, k: RecordKey)
    requires n < |records|
  {
    k in rows && RowFor(rows, k, conn, zone, records[n].systemId) <==>
      !Apex(records[n], domain) && k.nameId == Alias(zone, |Kept(records[..n], domain)|) && k.conn == conn && k.zone == zone
  }

  lemma AliasedGrows(zone: string, records: seq<Record>, domain: string, n: nat)
    requires n < |records|
    ensures var before := Kept(records[..n], domain);
            Aliased(zone, Kept(records[..n + 1], domain)) ==
            Aliased(zone, before) + if Apex(records[n], domain) then [] else [records[n].(nameId := Alias(zone, |before|))]
  {
    assert records[..n + 1][..n] == records[..n];
  }

  /** A zone's records after registration, for the first `n` that the cloud reports. */
  lemma {:induction false} AttachedIsAliased(rows: map<RecordKey, string>, conn: string, zone: string, records: seq<Record>,
                                             domain: string, lookup: nat -> bool, n: nat, r: seq<Record>)
    requires n <= |records| && forall i | 0 <= i < n :: lookup(i)
    requires forall i, k | 0 <= i < |records| :: Fits(rows, conn, zone, records, domain, i, k)
    requires Attached(rows, conn, zone, records[..n], lookup, r)
    ensures r == Aliased(zone, Kept(records[..n], domain))
  {
    if n > 0 {
      var m := n - 1;
      var infos := records[..n];
      assert infos[..m] == records[..m] && infos[m] == records[m];
      AliasedGrows(zone, records, domain, m);
      var own := RecordKey(conn, Alias(zone, |Kept(records[..m], domain)|), zone);
      assert Fits(rows, conn, zone, records, domain, m, own);
      if Apex(records[m], domain) {
        forall k | k in rows ensures !RowFor(rows, k, conn, zone, infos[m].systemId) {
          assert Fits(rows, conn, zone, records, domain, m, k);
        }
        AttachedIsAliased(rows, conn, zone, records, domain, lookup, m, r);
      } else {
        assert own in rows && RowFor(rows, own, conn, zone, infos[m].systemId);
        assert Fits(rows, conn, zone, records, domain, m, RecordKey(conn, r[|r| - 1].nameId, zone));
        AttachedIsAliased(rows, conn, zone, records, domain, lookup, m, r[..|r| - 1]);
        assert r == r[..|r| - 1] + [r[|r| - 1]];
      }
    }
  }

  /**
   GetDNSZone of a freshly registered zone, the cloud's zone being unchanged: whatever rows the
   database picks, it returns exactly the records that are not the zone's own NS and SOA, in the
   cloud's order, each under its own alias.
   */
  lemma RegisterThenGet(db: DB, q: Call, cloud: string -> Option<Zone>, lookup: nat -> bool, r: Option<Zone>)
    requires q.Register? && q.has && !HasZone(db, q.conn, q.zone) && q.info.Some? && q.saveZone
    requires forall i | 0 <= i < |Kept(q.info.value.records, q.info.value.domain)| :: q.saveRecord(i)
    requires !HasRecords(db, q.conn, q.zone) && DistinctIds(q.info.value.records) && forall i: nat :: lookup(i)
    requires Readable(GetMSShortID(q.info.value.systemId), q.info.value.systemId) && cloud(q.info.value.systemId) == q.info
    requires GetResult(RegisterEffect(db, q), q.conn, q.zone, cloud, lookup, r)
    ensures r == Some(Zone(q.zone, q.info.value.systemId, q.info.value.domain,
                           Aliased(q.zone, Kept(q.info.value.records, q.info.value.domain))))
    ensures forall i, j | 0 <= i < j < |r.value.records| :: r.value.records[i].nameId != r.value.records[j].nameId
    ensures forall i | 0 <= i < |r.value.records| :: r.value.records[i].nameId == q.zone + "-record-" + Itoa(i)
    ensures forall d | d in q.info.value.records ::
              Listed(r.value.records, d) <==> !(d.name == q.info.value.domain && d.rtype in {"NS", "SOA"})
  {
    var info := q.info.value;
    UserRoundTrip(q.zone, GetMSShortID(info.systemId), info.systemId);
    var kept := Kept(info.records, info.domain);
    AllSaved(q.saveRecord, |kept|, 0);
    assert kept[..|kept|] == kept && info.records[..|info.records|] == info.records;
    var rows := WithRecords(db.records, q.conn, q.zone, kept);
    assert RegisterEffect(db, q).records == rows;
    AllFit(db, q.conn, q.zone, info.records, info.domain);
    AttachedIsAliased(rows, q.conn, q.zone, info.records, info.domain, lookup, |info.records|, r.value.records);
    AliasesDistinct(q.zone, kept);
    KeptAre(info.records, info.domain);
    forall d | d in info.records
      ensures Listed(Aliased(q.zone, kept), d) <==> !(d.name == info.domain && d.rtype in {"NS", "SOA"})
    {
      KeptIsListed(info, q.zone, d);
    }
  }

  /** The cloud's record is in the list, under some name. */
  predicate Listed(list: seq<Record>, d: Record) {
    exists i | 0 <= i < |list| :: list[i].(nameId := "") == d.(nameId := "")
  }

  lemma KeptIsListed(info: Zone, zone: string, d: Record)
    requires d in info.records
    ensures Listed(Aliased(zone, Kept(info.records, info.domain)), d) <==> !(d.name == info.domain && d.rtype in {"NS", "SOA"})
  {
    var kept := Kept(info.records, info.domain);
    var list := Aliased(zone, kept);
    KeptAre(info.records, info.domain);
    if i :| 0 <= i < |list| && list[i].(nameId := "") == d.(nameId := "") {
      assert kept[i] in kept && kept[i].(nameId := "") == d.(nameId := "");
      assert kept[i].name == d.name && kept[i].rtype == d.rtype;
    }
    if d in kept {
      var i :| 0 <= i < |kept| && kept[i] == d;
      assert list[i].(nameId := "") == d.(nameId := "");
    }
  }

  lemma AllFit(db: DB, conn: string, zone: string, records: seq<Record>, domain: string)
    requires !HasRecords(db, conn, zone) && DistinctIds(records)
    ensures forall i, k | 0 <= i < |records| ::
              Fits(WithRecords(db.records, conn, zone, Kept(records, domain)), conn, zone, records, domain, i, k)
  {
    forall i, k | 0 <= i < |records|
      ensures Fits(WithRecords(db.records, conn, zone, Kept(records, domain)), conn, zone, records, domain, i, k)
    {
      if k.conn == conn && k.zone == zone {
        RowsFit(db.records, conn, zone, records, domain, i, k);
      }
    }
  }

  lemma AliasesDistinct(zone: string, kept: seq<Record>)
    ensures forall i, j | 0 <= i < j < |kept| :: Aliased(zone, kept)[i].nameId != Aliased(zone, kept)[j].nameId
  {
    forall i, j | 0 <= i < j < |kept| ensures Alias(zone, i) != Alias(zone, j) {
      if Alias(zone, i) == Alias(zone, j) { AliasInjective(zone, i, j); }
    }
  }

  lemma {:induction false} AllSaved(save: nat -> bool, n: nat, from: nat)
    requires from <= n && forall i | from <= i < n :: save(i)
    ensures Saved(save, n, from) == n
    decreases n - from
  {
    if from < n { AllSaved(save, n, from + 1); }
  }

  // ------------------------------------------------------------------ ownership over runs

  /** Every record row belongs to a zone row. */
  ghost predicate Owned(db: DB) {
    forall k | k in db.records :: HasZone(db, k.conn, k.zone)
  }

  /** The one failure that leaves records behind: the zone row goes, its record rows do not. */
  predicate Strands(db: DB, q: Call) {
    q.Delete? && q.has && HasZone(db, q.conn, q.zone) && GoesOn(q.force, q.answer) && q.dropZone && !q.dropRecords &&
    HasRecords(db, q.conn, q.zone)
  }

  /** A request leaves every record row with its zone exactly when it is not that failure. */
  lemma EffectKeepsOwned(db: DB, q: Call)
    requires Owned(db)
    ensures Owned(Effect(db, q)) <==> !Strands(db, q)
  {
    if q.Register? && RegisterEffect(db, q) != db {
      var kept := Kept(q.info.value.records, q.info.value.domain);
      RegisterKeepsOwned(db, q, kept[..Saved(q.saveRecord, |kept|, 0)]);
    } else if q.Delete? {
      if Strands(db, q) {
        var k :| k in db.records && k.conn == q.conn && k.zone == q.zone;
        assert k in Effect(db, q).records;
      }
    }
  }

  lemma RegisterKeepsOwned(db: DB, q: Call, kept: seq<Record>)
    requires Owned(db)
    ensures var rows := WithRecords(db.records, q.conn, q.zone, kept);
            forall k | k in rows :: (k.conn == q.conn && k.zone == q.zone) || HasZone(db, k.conn, k.zone)
  {}

  function Run(db: DB, calls: seq<Call>): DB
    decreases |calls|
  {
    if calls == [] then db else Run(Effect(db, calls[0]), calls[1..])
  }

  predicate NeverStrands(db: DB, calls: seq<Call>)
    decreases |calls|
  {
    calls == [] || (!Strands(db, calls[0]) && NeverStrands(Effect(db, calls[0]), calls[1..]))
  }

  lemma {:induction false} RunKeepsOwned(db: DB, calls: seq<Call>)
    requires Owned(db) && NeverStrands(db, calls)
    ensures Owned(Run(db, calls))
    decreases |calls|
  {
    if calls != [] {
      EffectKeepsOwned(db, calls[0]);
      RunKeepsOwned(Effect(db, calls[0]), calls[1..]);
    }
  }

  /** What RegisterThenGet asks of the table holds after every run without that failure. */
  lemma RegistersIntoEmpty(calls: seq<Call>, conn: string, zone: string)
    requires NeverStrands(DB(map[], map[]), calls) && !HasZone(Run(DB(map[], map[]), calls), conn, zone)
    ensures !HasRecords(Run(DB(map[], map[]), calls), conn, zone)
  {
    RunKeepsOwned(DB(map[], map[]), calls);
  }

  /**
   ChangeDNSRecord keeps the one row of the record's alias, except when it has deleted it to give it
   a new ID and the insertion fails. The new ID is the one in the driver's answer.
   */
  lemma ChangeKeepsAlias(db: DB, q: Call)
    requires q.Change? && RecordKey(q.conn, q.alias, q.zone) in db.records
    ensures var k, db' := RecordKey(q.conn, q.alias, q.zone), ChangeEffect(db, q);
            var moves := q.has && HasZone(db, q.conn, q.zone) && q.info.Some? && q.drop &&
                         FindRecord(q.info.value.records, q.name, q.rtype) !in {"", db.records[k]};
            && (k in db'.records <==> !moves || q.save)
            && (k in db'.records ==>
                  db'.records[k] == if moves then FindRecord(q.info.value.records, q.name, q.rtype) else db.records[k])
            && (forall k' | k' != k :: k' in db'.records <==> k' in db.records)
  {}

  // ------------------------------------------------------------------ requests on different zones

  predicate SameZone(q: Call, p: Call) { q.conn == p.conn && q.zone == p.zone }

  /** The two tables have the same rows for one zone. */
  ghost predicate Agree(a: DB, b: DB, conn: string, zone: string) {
    && (HasZone(a, conn, zone) <==> HasZone(b, conn, zone))
    && (HasZone(a, conn, zone) ==> a.zones[ZoneKey(conn, zone)] == b.zones[ZoneKey(conn, zone)])
    && (forall k: RecordKey | k.conn == conn && k.zone == zone ::
          (k in a.records <==> k in b.records) && (k in a.records && k in b.records ==> a.records[k] == b.records[k]))
  }

  /** A request changes rows of its own zone only ... */
  lemma TouchesOwnZone(db: DB, q: Call, conn: string, zone: string)
    requires !(q.conn == conn && q.zone == zone)
    ensures Agree(db, Effect(db, q), conn, zone)
  {
    if q.Register? && RegisterEffect(db, q) != db {
      var kept := Kept(q.info.value.records, q.info.value.domain);
      var done := kept[..Saved(q.saveRecord, |kept|, 0)];
      RegisteredElsewhere(db.records, q.conn, q.zone, done);
      assert forall k: RecordKey | k.conn == conn && k.zone == zone ::
          k in WithRecords(db.records, q.conn, q.zone, done) <==> k in WithoutRecords(WithRecords(db.records, q.conn, q.zone, done), q.conn, q.zone);
    }
  }

  /** ... and what it makes of them depends on them only: that is all its zone's lock has to guard. */
  lemma ReadsOwnZone(a: DB, b: DB, q: Call)
    requires Agree(a, b, q.conn, q.zone)
    ensures Agree(Effect(a, q), Effect(b, q), q.conn, q.zone)
  {
    if q.Register? && RegisterEffect(a, q) != a {
      var kept := Kept(q.info.value.records, q.info.value.domain);
      SameInsertions(a, b, q.conn, q.zone, kept[..Saved(q.saveRecord, |kept|, 0)]);
    }
  }

  lemma {:induction false} SameInsertions(a: DB, b: DB, conn: string, zone: string, kept: seq<Record>)
    requires Agree(a, b, conn, zone)
    ensures Agree(a.(records := WithRecords(a.records, conn, zone, kept)), b.(records := WithRecords(b.records, conn, zone, kept)), conn, zone)
  {
    if kept != [] { SameInsertions(a, b, conn, zone, kept[..|kept| - 1]); }
  }

  lemma AgreeEverywhere(a: DB, b: DB)
    requires forall conn, zone :: Agree(a, b, conn, zone)
    ensures a == b
  {
    forall k: ZoneKey ensures k in a.zones <==> k in b.zones {
      assert Agree(a, b, k.conn, k.nameId);
    }
    forall k | k in a.zones ensures a.zones[k] == b.zones[k] {
      assert Agree(a, b, k.conn, k.nameId);
    }
    forall k: RecordKey ensures k in a.records <==> k in b.records {
      assert Agree(a, b, k.conn, k.zone);
    }
    forall k | k in a.records ensures a.records[k] == b.records[k] {
      assert Agree(a, b, k.conn, k.zone);
    }
    assert a.zones == b.zones && a.records == b.records;
  }

  /** What the last two lemmas say of a request, for any function on the tables. */
  ghost predicate ActsOn(f: DB -> DB, conn: string, zone: string) {
    && (forall db, conn', zone' :: (conn' == conn && zone' == zone) || Agree(db, f(db), conn', zone'))
    && (forall a, b :: Agree(a, b, conn, zone) ==> Agree(f(a), f(b), conn, zone))
  }

  lemma DisjointCommute(f: DB -> DB, g: DB -> DB, db: DB, conn: string, zone: string, conn': string, zone': string)
    requires ActsOn(f, conn, zone) && ActsOn(g, conn', zone') && !(conn == conn' && zone == zone')
    ensures g(f(db)) == f(g(db))
  {
    forall c, z ensures Agree(g(f(db)), f(g(db)), c, z) {
      if c == conn && z == zone {
        assert Agree(f(db), g(f(db)), c, z) && Agree(db, g(db), c, z) && Agree(f(db), f(g(db)), c, z);
      } else if c == conn' && z == zone' {
        assert Agree(g(db), f(g(db)), c, z) && Agree(db, f(db), c, z) && Agree(g(db), g(f(db)), c, z);
      } else {
        assert Agree(db, f(db), c, z) && Agree(f(db), g(f(db)), c, z);
        assert Agree(db, g(db), c, z) && Agree(g(db), f(g(db)), c, z);
      }
    }
    AgreeEverywhere(g(f(db)), f(g(db)));
  }

  lemma CallActsOn(q: Call)
    ensures ActsOn((db: DB) => Effect(db, q), q.conn, q.zone)
  {
    forall db, conn, zone | !(conn == q.conn && zone == q.zone) ensures Agree(db, Effect(db, q), conn, zone) {
      TouchesOwnZone(db, q, conn, zone);
    }
    forall a, b | Agree(a, b, q.conn, q.zone) ensures Agree(Effect(a, q), Effect(b, q), q.conn, q.zone) {
      ReadsOwnZone(a, b, q);
    }
  }

  /** Requests on different zones, which no common lock orders, leave the same tables in either order. */
  lemma CallsCommute(db: DB, q: Call, p: Call)
    requires !SameZone(q, p)
    ensures Effect(Effect(db, q), p) == Effect(Effect(db, p), q)
  {
    CallActsOn(q);
    CallActsOn(p);
    var f, g := (db: DB) => Effect(db, q), (db: DB) => Effect(db, p);
    DisjointCommute(f, g, db, q.conn, q.zone, p.conn, p.zone);
    assert g(f(db)) == f(g(db));
  }
}
