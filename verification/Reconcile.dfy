/**
 The three reconciliations of MetaDB rows with what a cloud lists: ListAllResource and
 classifyResourceLists of CommonManager.go and ListAllS3Buckets of S3Manager.go. They are written
 with different loops, and meet one specification when the cloud's IDs are distinct.
 */
module Reconcile {
  import opened IidCodec

  // ------------------------------------------------------------------ the specification

  ghost function KeySet<T(!new)>(items: seq<T>, key: T -> string): set<string> {
    set t | t in items :: key(t)
  }

  /** The items, in order, whose key is (or is not) among the IDs. */
  ghost function Select<T(!new)>(items: seq<T>, key: T -> string, ids: set<string>, keep: bool): seq<T> {
    if items == [] then []
    else
      var n := |items| - 1;
      Select(items[..n], key, ids, keep) + if (key(items[n]) in ids) == keep then [items[n]] else []
  }

  lemma {:induction false} SelectMembers<T(!new)>(items: seq<T>, key: T -> string, ids: set<string>, keep: bool)
    ensures forall t :: t in Select(items, key, ids, keep) <==> t in items && (key(t) in ids) == keep
  {
    if items != [] {
      var n := |items| - 1;
      SelectMembers(items[..n], key, ids, keep);
      assert items == items[..n] + [items[n]];
    }
  }

  /** The two selections of a list share it out. */
  lemma {:induction false} SelectSplits<T(!new)>(items: seq<T>, key: T -> string, ids: set<string>)
    ensures multiset(Select(items, key, ids, true) + Select(items, key, ids, false)) == multiset(items)
  {
    if items != [] {
      var n := |items| - 1;
      SelectSplits(items[..n], key, ids);
      AddedToEither(Select(items[..n], key, ids, true), Select(items[..n], key, ids, false), items[..n], items[n], key(items[n]) in ids);
      assert items == items[..n] + [items[n]];
    }
  }

  lemma AddedToEither<T>(a: seq<T>, b: seq<T>, all: seq<T>, t: T, first: bool)
    requires multiset(a + b) == multiset(all)
    ensures multiset((a + if first == true then [t] else []) + (b + if first == false then [t] else [])) == multiset(all + [t])
  {}

  /** Only what the ID set says about the items' own keys matters. */
  lemma {:induction false} SelectSame<T(!new)>(items: seq<T>, key: T -> string, ids: set<string>, ids': set<string>, keep: bool)
    requires forall t | t in items :: key(t) in ids <==> key(t) in ids'
    ensures Select(items, key, ids, keep) == Select(items, key, ids', keep)
  {
    if items != [] {
      var n := |items| - 1;
      assert forall t | t in items[..n] :: t in items;
      SelectSame(items[..n], key, ids, ids', keep);
      assert items[n] in items;
    }
  }

  predicate DistinctKeys<T(!new)>(items: seq<T>, key: T -> string) {
    forall i, j | 0 <= i < j < |items| :: key(items[i]) != key(items[j])
  }

  // ------------------------------------------------------------------ ListAllResource

  const SystemId: IID -> string := (i: IID) => i.systemId

  /** The user-side IIDs of the rows. */
  function UserRows(rows: seq<IID>): seq<IID> {
    seq(|rows|, i requires 0 <= i < |rows| => GetUserIID(rows[i]))
  }

  /** The inner loop goes on after a match: the row once for every entry with its ID. */
  ghost function Copies(row: IID, csp: seq<IID>): seq<IID> {
    if csp == [] then []
    else Copies(row, csp[..|csp| - 1]) + if row.systemId == csp[|csp| - 1].systemId then [row] else []
  }

  ghost function Repeated(rows: seq<IID>, csp: seq<IID>): seq<IID> {
    if rows == [] then []
    else Repeated(rows[..|rows| - 1], csp) + Copies(rows[|rows| - 1], csp)
  }

  lemma Prefix<T>(s: seq<T>, i: nat)
    requires i < |s|
    ensures s[..i + 1][..i] == s[..i] && s[..i + 1] == s[..i] + [s[i]]
  {}

  /** The mapped list and the Spider-only list: the first pair of nested loops. */
  method MapRows(rows: seq<IID>, csp: seq<IID>) returns (mapped: seq<IID>, onlySpider: seq<IID>)
    ensures mapped == Repeated(rows, csp)
    ensures onlySpider == Select(rows, SystemId, KeySet(csp, SystemId), false)
  {
    mapped, onlySpider := [], [];
    for i := 0 to |rows|
      invariant mapped == Repeated(rows[..i], csp)
      invariant onlySpider == Select(rows[..i], SystemId, KeySet(csp, SystemId), false)
    {
      RowNext(rows, csp, i);
      var row, exist := rows[i], false;
      ghost var before := mapped;
      for j := 0 to |csp|
        invariant mapped == before + Copies(row, csp[..j])
        invariant exist <==> Listed(csp[..j], row.systemId)
      {
        CopiesNext(row, csp, j);
        if row.systemId == csp[j].systemId {
          mapped := mapped + [row];
          exist := true;
        }
      }
      assert csp[..|csp|] == csp;
      if !exist {
        onlySpider := onlySpider + [row];
      }
    }
    assert rows[..|rows|] == rows;
  }

  predicate Listed(items: seq<IID>, id: string) {
    exists m | 0 <= m < |items| :: items[m].systemId == id
  }

  lemma CopiesNext(row: IID, csp: seq<IID>, j: nat)
    requires j < |csp|
    ensures row.systemId == csp[j].systemId ==> Copies(row, csp[..j + 1]) == Copies(row, csp[..j]) + [row] && Listed(csp[..j + 1], row.systemId)
    ensures row.systemId != csp[j].systemId ==>
              Copies(row, csp[..j + 1]) == Copies(row, csp[..j]) && (Listed(csp[..j + 1], row.systemId) <==> Listed(csp[..j], row.systemId))
  {
    Prefix(csp, j);
    if row.systemId == csp[j].systemId {
      assert csp[..j + 1][j].systemId == row.systemId;
    } else if m :| 0 <= m < j && csp[..j][m].systemId == row.systemId {
      assert csp[..j + 1][m].systemId == row.systemId;
    }
  }

  /** What one more row adds to the two lists. */
  lemma RowNext(rows: seq<IID>, csp: seq<IID>, i: nat)
    requires i < |rows|
    ensures Repeated(rows[..i + 1], csp) == Repeated(rows[..i], csp) + Copies(rows[i], csp)
    ensures Select(rows[..i + 1], SystemId, KeySet(csp, SystemId), false) ==
            Select(rows[..i], SystemId, KeySet(csp, SystemId), false) + if Listed(csp, rows[i].systemId) then [] else [rows[i]]
  {
    Prefix(rows, i);
    InKeySet(csp, rows[i].systemId);
  }

  lemma InKeySet(items: seq<IID>, id: string)
    ensures id in KeySet(items, SystemId) <==> exists m | 0 <= m < |items| :: items[m].systemId == id
  {
    if id in KeySet(items, SystemId) {
      var t :| t in items && SystemId(t) == id;
    }
    if m :| 0 <= m < |items| && items[m].systemId == id {
      assert items[m] in items && SystemId(items[m]) == id;
    }
  }

  /** The cloud-only list: the second pair of nested loops. */
  method Unmapped(csp: seq<IID>, mapped: seq<IID>) returns (onlyCsp: seq<IID>)
    ensures onlyCsp == Select(csp, SystemId, KeySet(mapped, SystemId), false)
  {
    onlyCsp := [];
    for i := 0 to |csp|
      invariant onlyCsp == Select(csp[..i], SystemId, KeySet(mapped, SystemId), false)
    {
      Prefix(csp, i);
      InKeySet(mapped, csp[i].systemId);
      if |mapped| <= 0 {
        onlyCsp := onlyCsp + [csp[i]];
      } else {
        var isMapped := false;
        for j := 0 to |mapped|
          invariant isMapped <==> exists m | 0 <= m < j :: mapped[m].systemId == csp[i].systemId
        {
          if csp[i].systemId == mapped[j].systemId {
            isMapped := true;
          }
        }
        if isMapped == false {
          onlyCsp := onlyCsp + [csp[i]];
        }
      }
    }
    assert csp[..|csp|] == csp;
  }

  /** ListAllResource on the rows and the cloud's list, with its four branches. */
  method ListAllResource(rows: seq<IID>, csp: seq<IID>) returns (mapped: seq<IID>, onlySpider: seq<IID>, onlyCsp: seq<IID>)
    ensures mapped == Repeated(UserRows(rows), csp)
    ensures onlySpider == Select(UserRows(rows), SystemId, KeySet(csp, SystemId), false)
    ensures onlyCsp == Select(csp, SystemId, KeySet(UserRows(rows), SystemId), false)
  {
    var users := ToUserRows(rows);
    if |csp| <= 0 {
      NothingListed(users);
      if |users| <= 0 { return [], [], []; }
      return [], users, [];
    }
    if |users| <= 0 {
      SelectAll(csp);
      var all := [];
      for i := 0 to |csp|
        invariant all == csp[..i]
      {
        all := all + [csp[i]];
      }
      return [], [], all;
    }
    mapped, onlySpider := MapRows(users, csp);
    onlyCsp := Unmapped(csp, mapped);
    UnmappedIsUnknown(users, csp);
  }

  method ToUserRows(rows: seq<IID>) returns (users: seq<IID>)
    ensures users == UserRows(rows)
  {
    users := [];
    for i := 0 to |rows|
      invariant |users| == i && forall j | 0 <= j < i :: users[j] == GetUserIID(rows[j])
    {
      users := users + [GetUserIID(rows[i])];
    }
  }

  lemma UnmappedIsUnknown(users: seq<IID>, csp: seq<IID>)
    ensures Select(csp, SystemId, KeySet(Repeated(users, csp), SystemId), false) == Select(csp, SystemId, KeySet(users, SystemId), false)
  {
    RepeatedKeys(users, csp);
    SelectSame(csp, SystemId, KeySet(Repeated(users, csp), SystemId), KeySet(users, SystemId), false);
  }

  /** Against an empty list every row is Spider's only, and none is mapped. */
  lemma {:induction false} NothingListed(rows: seq<IID>)
    ensures Repeated(rows, []) == [] && Select(rows, SystemId, KeySet([], SystemId), false) == rows
  {
    if rows != [] {
      NothingListed(rows[..|rows| - 1]);
      assert rows == rows[..|rows| - 1] + [rows[|rows| - 1]];
    }
  }

  lemma {:induction false} SelectAll(csp: seq<IID>)
    ensures Select(csp, SystemId, {}, false) == csp && KeySet([], SystemId) == {}
  {
    if csp != [] {
      SelectAll(csp[..|csp| - 1]);
      assert csp == csp[..|csp| - 1] + [csp[|csp| - 1]];
    }
  }

  lemma {:induction false} CopiesMembers(row: IID, csp: seq<IID>, t: IID)
    ensures t in Copies(row, csp) <==> t == row && row.systemId in KeySet(csp, SystemId)
  {
    if csp != [] {
      CopiesMembers(row, csp[..|csp| - 1], t);
      KeySetGrows(csp);
    }
  }

  lemma KeySetGrows(csp: seq<IID>)
    requires csp != []
    ensures KeySet(csp, SystemId) == KeySet(csp[..|csp| - 1], SystemId) + {csp[|csp| - 1].systemId}
  {
    assert csp == csp[..|csp| - 1] + [csp[|csp| - 1]];
    forall id ensures id in KeySet(csp, SystemId) <==> id in KeySet(csp[..|csp| - 1], SystemId) + {csp[|csp| - 1].systemId} {
      InKeySet(csp, id);
      InKeySet(csp[..|csp| - 1], id);
    }
  }

  lemma {:induction false} RepeatedMembers(rows: seq<IID>, csp: seq<IID>, t: IID)
    ensures t in Repeated(rows, csp) <==> t in rows && t.systemId in KeySet(csp, SystemId)
  {
    if rows != [] {
      var n := |rows| - 1;
      RepeatedMembers(rows[..n], csp, t);
      CopiesMembers(rows[n], csp, t);
      assert rows == rows[..n] + [rows[n]];
    }
  }

  /** A cloud entry is matched by the mapped list exactly when it is matched by the rows. */
  lemma RepeatedKeys(rows: seq<IID>, csp: seq<IID>)
    ensures forall e | e in csp :: e.systemId in KeySet(Repeated(rows, csp), SystemId) <==> e.systemId in KeySet(rows, SystemId)
  {
    forall e | e in csp ensures e.systemId in KeySet(Repeated(rows, csp), SystemId) <==> e.systemId in KeySet(rows, SystemId) {
      assert SystemId(e) in KeySet(csp, SystemId);
      if e.systemId in KeySet(Repeated(rows, csp), SystemId) {
        var t :| t in Repeated(rows, csp) && SystemId(t) == e.systemId;
        RepeatedMembers(rows, csp, t);
        assert SystemId(t) in KeySet(rows, SystemId);
      }
      if e.systemId in KeySet(rows, SystemId) {
        var t :| t in rows && SystemId(t) == e.systemId;
        RepeatedMembers(rows, csp, t);
        assert SystemId(t) in KeySet(Repeated(rows, csp), SystemId);
      }
    }
  }

  // ------------------------------------------------------------------ what the missing break costs

  /** How many cloud entries carry the ID. */
  ghost function Times(csp: seq<IID>, id: string): nat {
    if csp == [] then 0
    else Times(csp[..|csp| - 1], id) + if csp[|csp| - 1].systemId == id then 1 else 0
  }

  lemma {:induction false} CopiesSize(row: IID, csp: seq<IID>)
    ensures |Copies(row, csp)| == Times(csp, row.systemId) && forall t | t in Copies(row, csp) :: t == row
    ensures Times(csp, row.systemId) > 0 <==> row.systemId in KeySet(csp, SystemId)
  {
    if csp != [] {
      CopiesSize(row, csp[..|csp| - 1]);
      KeySetGrows(csp);
    }
  }

  lemma {:induction false} DistinctTimes(csp: seq<IID>, id: string)
    requires DistinctKeys(csp, SystemId)
    ensures Times(csp, id) <= 1
  {
    if csp != [] {
      var n := |csp| - 1;
      DistinctTimes(csp[..n], id);
      if csp[n].systemId == id {
        CopiesSize(csp[n], csp[..n]);
        InKeySet(csp[..n], id);
      }
    }
  }

  /** With each row in the cloud's list at most once, the repeating loop is a selection. */
  lemma {:induction false} RepeatedIsSelect(rows: seq<IID>, csp: seq<IID>)
    requires forall r | r in rows :: Times(csp, r.systemId) <= 1
    ensures Repeated(rows, csp) == Select(rows, SystemId, KeySet(csp, SystemId), true)
  {
    if rows != [] {
      var n := |rows| - 1;
      assert forall r | r in rows[..n] :: r in rows;
      RepeatedIsSelect(rows[..n], csp);
      assert rows[n] in rows;
      CopiesSize(rows[n], csp);
      assert Copies(rows[n], csp) == if rows[n].systemId in KeySet(csp, SystemId) then [rows[n]] else [] by {
        if |Copies(rows[n], csp)| == 1 { assert Copies(rows[n], csp)[0] in Copies(rows[n], csp); }
      }
    }
  }

  /** The mapped list is never shorter than the selection, and longer when some row is repeated. */
  lemma {:induction false} RepeatedSize(rows: seq<IID>, csp: seq<IID>)
    ensures |Repeated(rows, csp)| >= |Select(rows, SystemId, KeySet(csp, SystemId), true)|
    ensures |Repeated(rows, csp)| == |Select(rows, SystemId, KeySet(csp, SystemId), true)| ==>
              forall r | r in rows :: Times(csp, r.systemId) <= 1
  {
    if rows != [] {
      var n := |rows| - 1;
      RepeatedSize(rows[..n], csp);
      CopiesSize(rows[n], csp);
      assert rows == rows[..n] + [rows[n]];
    }
  }

  /**
   The mapped and the Spider-only list together are a permutation of the rows exactly when no row's
   ID occurs twice in the cloud's list; a row whose ID does is listed as mapped again and again.
   */
  lemma SharedOutIff(rows: seq<IID>, csp: seq<IID>)
    ensures multiset(Repeated(rows, csp) + Select(rows, SystemId, KeySet(csp, SystemId), false)) == multiset(rows)
            <==> forall r | r in rows :: Times(csp, r.systemId) <= 1
  {
    var ids := KeySet(csp, SystemId);
    SelectSplits(rows, SystemId, ids);
    if forall r | r in rows :: Times(csp, r.systemId) <= 1 {
      RepeatedIsSelect(rows, csp);
    }
    RepeatedSize(rows, csp);
    var a, b := Repeated(rows, csp) + Select(rows, SystemId, ids, false), Select(rows, SystemId, ids, true) + Select(rows, SystemId, ids, false);
    assert |multiset(a)| == |a| && |multiset(b)| == |b|;
  }

  // ------------------------------------------------------------------ classifyResourceLists

  const DriverId: IID -> string := (row: IID) => GetDriverSystemId(row)

  /** The first entry with the ID stands for it. */
  ghost predicate MappedInfos(rows: seq<IID>, infos: seq<IID>, mapped: seq<IID>) {
    var known := Select(rows, DriverId, KeySet(infos, SystemId), true);
    |mapped| == |known| && forall i | 0 <= i < |mapped| :: mapped[i] in infos && mapped[i].systemId == DriverId(known[i])
  }

  /** classifyResourceLists: rows as they are stored, the cloud's own entries in the mapped list. */
  method ClassifyResourceLists(rows: seq<IID>, infos: seq<IID>) returns (mapped: seq<IID>, onlySpider: seq<IID>, onlyCsp: seq<IID>)
    ensures MappedInfos(rows, infos, mapped)
    ensures onlySpider == Select(rows, DriverId, KeySet(infos, SystemId), false)
    ensures onlyCsp == Select(infos, SystemId, KeySet(rows, DriverId), false)
  {
    mapped, onlySpider := MatchRows(rows, infos);
    onlyCsp := UnmappedInfos(infos, mapped);
    MappedInfosKeys(rows, infos, mapped);
    SelectSame(infos, SystemId, KeySet(mapped, SystemId), KeySet(rows, DriverId), false);
  }

  method UnmappedInfos(infos: seq<IID>, mapped: seq<IID>) returns (onlyCsp: seq<IID>)
    ensures onlyCsp == Select(infos, SystemId, KeySet(mapped, SystemId), false)
  {
    onlyCsp := [];
    for i := 0 to |infos|
      invariant onlyCsp == Select(infos[..i], SystemId, KeySet(mapped, SystemId), false)
    {
      Prefix(infos, i);
      InKeySet(mapped, infos[i].systemId);
      var isMapped := false;
      for j := 0 to |mapped|
        invariant !isMapped && forall m | 0 <= m < j :: mapped[m].systemId != infos[i].systemId
      {
        if mapped[j].systemId == infos[i].systemId {
          isMapped := true;
          break;
        }
      }
      if !isMapped {
        onlyCsp := onlyCsp + [infos[i]];
      }
    }
    assert infos[..|infos|] == infos;
  }

  method MatchRows(rows: seq<IID>, infos: seq<IID>) returns (mapped: seq<IID>, onlySpider: seq<IID>)
    ensures MappedInfos(rows, infos, mapped)
    ensures onlySpider == Select(rows, DriverId, KeySet(infos, SystemId), false)
  {
    mapped, onlySpider := [], [];
    for i := 0 to |rows|
      invariant MappedInfos(rows[..i], infos, mapped)
      invariant onlySpider == Select(rows[..i], DriverId, KeySet(infos, SystemId), false)
    {
      var id := GetDriverSystemId(rows[i]);
      UnmatchedNext(rows, infos, i);
      var found := false;
      ghost var before := mapped;
      for j := 0 to |infos|
        invariant !found && mapped == before
        invariant forall m | 0 <= m < j :: infos[m].systemId != id
      {
        if infos[j].systemId == id {
          mapped := mapped + [infos[j]];
          found := true;
          break;
        }
      }
      MappedInfosGrow(rows, infos, before, i);
      if !found {
        onlySpider := onlySpider + [rows[i]];
      }
    }
    assert rows[..|rows|] == rows;
  }

  lemma UnmatchedNext(rows: seq<IID>, infos: seq<IID>, i: nat)
    requires i < |rows|
    ensures DriverId(rows[i]) in KeySet(infos, SystemId) <==> exists m | 0 <= m < |infos| :: infos[m].systemId == DriverId(rows[i])
    ensures Select(rows[..i + 1], DriverId, KeySet(infos, SystemId), false) ==
            Select(rows[..i], DriverId, KeySet(infos, SystemId), false) +
            if DriverId(rows[i]) in KeySet(infos, SystemId) then [] else [rows[i]]
  {
    Prefix(rows, i);
    InKeySet(infos, DriverId(rows[i]));
  }

  /** One more row adds any entry with its ID, or nothing when there is none. */
  lemma MappedInfosGrow(rows: seq<IID>, infos: seq<IID>, mapped: seq<IID>, i: nat)
    requires i < |rows| && MappedInfos(rows[..i], infos, mapped)
    ensures DriverId(rows[i]) !in KeySet(infos, SystemId) ==> MappedInfos(rows[..i + 1], infos, mapped)
    ensures forall e | e in infos && e.systemId == DriverId(rows[i]) :: MappedInfos(rows[..i + 1], infos, mapped + [e])
  {
    Prefix(rows, i);
    forall e | e in infos && e.systemId == DriverId(rows[i]) ensures MappedInfos(rows[..i + 1], infos, mapped + [e]) {
      assert SystemId(e) in KeySet(infos, SystemId);
    }
  }

  /** An entry is matched by the mapped entries exactly when it is matched by the rows. */
  lemma MappedInfosKeys(rows: seq<IID>, infos: seq<IID>, mapped: seq<IID>)
    requires MappedInfos(rows, infos, mapped)
    ensures forall e | e in infos :: SystemId(e) in KeySet(mapped, SystemId) <==> SystemId(e) in KeySet(rows, DriverId)
  {
    forall e | e in infos ensures SystemId(e) in KeySet(mapped, SystemId) <==> SystemId(e) in KeySet(rows, DriverId) {
      if SystemId(e) in KeySet(mapped, SystemId) { MappedIsKnown(rows, infos, mapped, e); }
      if SystemId(e) in KeySet(rows, DriverId) { KnownIsMapped(rows, infos, mapped, e); }
    }
  }

  lemma MappedIsKnown(rows: seq<IID>, infos: seq<IID>, mapped: seq<IID>, e: IID)
    requires MappedInfos(rows, infos, mapped) && SystemId(e) in KeySet(mapped, SystemId)
    ensures SystemId(e) in KeySet(rows, DriverId)
  {
    var known := Select(rows, DriverId, KeySet(infos, SystemId), true);
    SelectMembers(rows, DriverId, KeySet(infos, SystemId), true);
    var t :| t in mapped && SystemId(t) == SystemId(e);
    var i :| 0 <= i < |mapped| && mapped[i] == t;
    assert known[i] in known && known[i] in rows;
  }

  lemma KnownIsMapped(rows: seq<IID>, infos: seq<IID>, mapped: seq<IID>, e: IID)
    requires MappedInfos(rows, infos, mapped) && e in infos && SystemId(e) in KeySet(rows, DriverId)
    ensures SystemId(e) in KeySet(mapped, SystemId)
  {
    var ids := KeySet(infos, SystemId);
    var known := Select(rows, DriverId, ids, true);
    SelectMembers(rows, DriverId, ids, true);
    assert SystemId(e) in ids;
    var t :| t in rows && DriverId(t) == SystemId(e);
    assert t in known;
    var i :| 0 <= i < |known| && known[i] == t;
    assert mapped[i] in mapped && SystemId(mapped[i]) == SystemId(e);
  }

  // ------------------------------------------------------------------ ListAllS3Buckets

  const Name: string -> string := (n: string) => n

  function Buckets(names: seq<string>): seq<IID> {
    seq(|names|, i requires 0 <= i < |names| => IID(names[i], names[i]))
  }

  /** ListAllS3Buckets: rows store the bucket's name as it is, and the inner loops stop at a match. */
  method ListAllS3Buckets(rows: seq<IID>, names: seq<string>) returns (mapped: seq<IID>, onlySpider: seq<IID>, onlyCsp: seq<IID>)
    ensures mapped == Select(rows, SystemId, KeySet(names, Name), true)
    ensures onlySpider == Select(rows, SystemId, KeySet(names, Name), false)
    ensures onlyCsp == Buckets(Select(names, Name, KeySet(rows, SystemId), false))
  {
    NamesAreKeys(names);
    if |rows| == 0 && |names| == 0 { return [], [], []; }
    if |names| == 0 {
      NothingKept(rows);
      return [], rows, [];
    }
    if |rows| == 0 {
      onlyCsp := [];
      for i := 0 to |names|
        invariant onlyCsp == Buckets(names[..i])
      {
        onlyCsp := onlyCsp + [IID(names[i], names[i])];
      }
      assert names[..|names|] == names;
      AllNames(names);
      return [], [], onlyCsp;
    }
    mapped, onlySpider := SplitRows(rows, names);
    onlyCsp := UnmappedNames(names, mapped);
    S3Keys(rows, names);
    SelectSame(names, Name, KeySet(mapped, SystemId), KeySet(rows, SystemId), false);
  }

  method SplitRows(rows: seq<IID>, names: seq<string>) returns (mapped: seq<IID>, onlySpider: seq<IID>)
    ensures mapped == Select(rows, SystemId, KeySet(names, Name), true)
    ensures onlySpider == Select(rows, SystemId, KeySet(names, Name), false)
  {
    NamesAreKeys(names);
    mapped, onlySpider := [], [];
    for i := 0 to |rows|
      invariant mapped == Select(rows[..i], SystemId, KeySet(names, Name), true)
      invariant onlySpider == Select(rows[..i], SystemId, KeySet(names, Name), false)
    {
      Prefix(rows, i);
      var found := false;
      ghost var before := mapped;
      for j := 0 to |names|
        invariant !found && mapped == before && rows[i].systemId !in names[..j]
      {
        if rows[i].systemId == names[j] {
          mapped := mapped + [rows[i]];
          found := true;
          break;
        }
      }
      if !found {
        onlySpider := onlySpider + [rows[i]];
      }
    }
    assert rows[..|rows|] == rows;
  }

  method UnmappedNames(names: seq<string>, mapped: seq<IID>) returns (onlyCsp: seq<IID>)
    ensures onlyCsp == Buckets(Select(names, Name, KeySet(mapped, SystemId), false))
  {
    onlyCsp := [];
    for i := 0 to |names|
      invariant onlyCsp == Buckets(Select(names[..i], Name, KeySet(mapped, SystemId), false))
    {
      Prefix(names, i);
      InKeySet(mapped, names[i]);
      var isMapped := false;
      for j := 0 to |mapped|
        invariant !isMapped && forall m | 0 <= m < j :: mapped[m].systemId != names[i]
      {
        if names[i] == mapped[j].systemId {
          isMapped := true;
          break;
        }
      }
      if !isMapped {
        onlyCsp := onlyCsp + [IID(names[i], names[i])];
      }
    }
    assert names[..|names|] == names;
  }

  lemma NamesAreKeys(names: seq<string>)
    ensures forall n :: n in KeySet(names, Name) <==> n in names
  {}

  lemma {:induction false} NothingKept(rows: seq<IID>)
    ensures Select(rows, SystemId, KeySet([], Name), true) == [] && Select(rows, SystemId, KeySet([], Name), false) == rows
  {
    if rows != [] {
      NothingKept(rows[..|rows| - 1]);
      assert rows == rows[..|rows| - 1] + [rows[|rows| - 1]];
    }
  }

  lemma {:induction false} AllNames(names: seq<string>)
    ensures Select(names, Name, KeySet([], SystemId), false) == names
  {
    if names != [] {
      AllNames(names[..|names| - 1]);
      assert names == names[..|names| - 1] + [names[|names| - 1]];
    }
  }

  lemma S3Keys(rows: seq<IID>, names: seq<string>)
    ensures var mapped := Select(rows, SystemId, KeySet(names, Name), true);
            forall n | n in names :: Name(n) in KeySet(mapped, SystemId) <==> Name(n) in KeySet(rows, SystemId)
  {}

  // ------------------------------------------------------------------ one specification

  /** Rows and cloud entries shared out by ID, in their own order. */
  ghost predicate Classified(rows: seq<IID>, key: IID -> string, csp: seq<IID>,
                             mapped: seq<IID>, onlySpider: seq<IID>, onlyCsp: seq<IID>)
  {
    && mapped == Select(rows, key, KeySet(csp, SystemId), true)
    && onlySpider == Select(rows, key, KeySet(csp, SystemId), false)
    && onlyCsp == Select(csp, SystemId, KeySet(rows, key), false)
  }

  /**
   For a cloud list with distinct IDs: mapped and Spider-only rows are a permutation of the rows, an
   entry is cloud-only exactly when no row has its ID, and no ID is in two of the categories.
   */
  lemma ClassifiedMeans(rows: seq<IID>, key: IID -> string, csp: seq<IID>, mapped: seq<IID>, onlySpider: seq<IID>, onlyCsp: seq<IID>)
    requires Classified(rows, key, csp, mapped, onlySpider, onlyCsp)
    ensures multiset(mapped + onlySpider) == multiset(rows)
    ensures forall e :: e in onlyCsp <==> e in csp && forall r | r in rows :: key(r) != e.systemId
    ensures KeySet(mapped, key) !! KeySet(onlySpider, key) && KeySet(mapped, key) !! KeySet(onlyCsp, SystemId)
    ensures KeySet(onlySpider, key) !! KeySet(onlyCsp, SystemId)
  {
    var ids := KeySet(csp, SystemId);
    SelectSplits(rows, key, ids);
    SelectMembers(rows, key, ids, true);
    SelectMembers(rows, key, ids, false);
    SelectMembers(csp, SystemId, KeySet(rows, key), false);
    forall e ensures e in onlyCsp <==> e in csp && forall r | r in rows :: key(r) != e.systemId {
      if e in csp && SystemId(e) in KeySet(rows, key) {
        var r :| r in rows && key(r) == SystemId(e);
      }
    }
  }

  /** ListAllResource's result, for distinct cloud IDs. */
  lemma ResourceListsClassified(rows: seq<IID>, csp: seq<IID>)
    requires DistinctKeys(csp, SystemId)
    ensures var users, ids := UserRows(rows), KeySet(csp, SystemId);
            Classified(users, SystemId, csp, Repeated(users, csp), Select(users, SystemId, ids, false),
                       Select(csp, SystemId, KeySet(users, SystemId), false))
  {
    forall r | r in UserRows(rows) ensures Times(csp, r.systemId) <= 1 {
      DistinctTimes(csp, r.systemId);
    }
    RepeatedIsSelect(UserRows(rows), csp);
  }

  /** classifyResourceLists' result, for distinct cloud IDs: the mapped entries are those of the mapped rows, one each. */
  lemma InfoListsClassified(rows: seq<IID>, infos: seq<IID>, mapped: seq<IID>, known: seq<IID>, i: nat, e: IID)
    requires DistinctKeys(infos, SystemId) && MappedInfos(rows, infos, mapped)
    requires known == Select(rows, DriverId, KeySet(infos, SystemId), true) && i < |known|
    requires e in infos && e.systemId == DriverId(known[i])
    ensures |mapped| == |known| && mapped[i] == e
  {}

  /** ListAllS3Buckets' result, with or without distinct names. */
  lemma BucketListsClassified(rows: seq<IID>, names: seq<string>)
    ensures Classified(rows, SystemId, Buckets(names), Select(rows, SystemId, KeySet(names, Name), true),
                       Select(rows, SystemId, KeySet(names, Name), false), Buckets(Select(names, Name, KeySet(rows, SystemId), false)))
  {
    NamesAreKeys(names);
    forall n ensures n in KeySet(Buckets(names), SystemId) <==> n in KeySet(names, Name) {
      InKeySet(Buckets(names), n);
      if n in names {
        var m :| 0 <= m < |names| && names[m] == n;
        assert Buckets(names)[m].systemId == n;
      }
    }
    assert KeySet(Buckets(names), SystemId) == KeySet(names, Name);
    BucketsSelect(names, KeySet(rows, SystemId));
  }

  lemma {:induction false} BucketsSelect(names: seq<string>, ids: set<string>)
    ensures Select(Buckets(names), SystemId, ids, false) == Buckets(Select(names, Name, ids, false))
  {
    if names != [] {
      var n := |names| - 1;
      BucketsSelect(names[..n], ids);
      assert Buckets(names)[..n] == Buckets(names[..n]);
    }
  }

  /**
   For readable rows "the row's ID" is the CSP ID that was stored, so the cloud-only entries are
   exactly those whose ID no row was stored with.
   */
  lemma ReadableRowsDecode(name: string, xid: string, cspId: string)
    requires Readable(xid, cspId)
    ensures SystemId(GetUserIID(IID(name, Encode(xid, cspId)))) == cspId == DriverId(IID(name, Encode(xid, cspId)))
  {
    UserRoundTrip(name, xid, cspId);
  }
}
