/**
 Backup files of the MetaDB, backup.go and backup_scheduler.go: files named after the time they were
 made, and a rotation that deletes the first names in string order.
 */
module Backup {
  import opened Strings

  const PREFIX := "cb-spider_backup_"
  const SUFFIX := ".db"

  // ------------------------------------------------------------------ string order

  /** The order of sort.Strings. */
  predicate Less(s: string, t: string) {
    t != "" && (s == "" || s[0] < t[0] || (s[0] == t[0] && Less(s[1..], t[1..])))
  }

  lemma {:induction false} LessTotal(s: string, t: string)
    ensures Less(s, t) || Less(t, s) || s == t
    ensures !(Less(s, t) && Less(t, s)) && !Less(s, s)
  {
    if s != "" && t != "" {
      LessTotal(s[1..], t[1..]);
      assert s == [s[0]] + s[1..] && t == [t[0]] + t[1..];
    }
    if s != "" { LessTotal(s[1..], s[1..]); }
  }

  lemma {:induction false} LessTransitive(s: string, t: string, u: string)
    requires Less(s, t) && Less(t, u)
    ensures Less(s, u)
  {
    if s != "" && s[0] == t[0] == u[0] { LessTransitive(s[1..], t[1..], u[1..]); }
  }

  /** Texts of equal length are compared first. */
  lemma {:induction false} LessConcat(a: string, b: string, a': string, b': string)
    requires |a| == |a'|
    ensures Less(a + b, a' + b') <==> Less(a, a') || (a == a' && Less(b, b'))
  {
    if a == "" {
      assert a + b == b && a' + b' == b';
    } else {
      assert (a + b)[1..] == a[1..] + b && (a' + b')[1..] == a'[1..] + b';
      LessConcat(a[1..], b, a'[1..], b');
      assert a == [a[0]] + a[1..] && a' == [a'[0]] + a'[1..];
      LessTotal(a[1..], a'[1..]);
    }
  }

  /** Numerals of equal length are ordered as their numbers. */
  lemma {:induction false} DigitsOrder(s: string, t: string)
    requires |s| == |t| && Digits(s) && Digits(t)
    ensures Less(s, t) <==> DigitsValue(s) < DigitsValue(t)
    ensures s == t <==> DigitsValue(s) == DigitsValue(t)
  {
    if s != "" {
      DigitsHead(s);
      DigitsHead(t);
      DigitsOrder(s[1..], t[1..]);
      HeadOrder(DigitValue(s[0]), DigitValue(t[0]), Pow10(|s| - 1), DigitsValue(s[1..]), DigitsValue(t[1..]));
      assert s == [s[0]] + s[1..] && t == [t[0]] + t[1..];
    }
  }

  lemma HeadOrder(h: nat, k: nat, p: nat, a: nat, b: nat)
    requires a < p && b < p
    ensures h * p + a < k * p + b <==> h < k || (h == k && a < b)
    ensures h * p + a == k * p + b <==> h == k && a == b
  {
    if h < k { assert k * p >= (h + 1) * p == h * p + p; }
    if k < h { assert h * p >= (k + 1) * p == k * p + p; }
  }

  /** Two padded numbers that fit, followed by anything. */
  lemma FieldOrder(n: nat, m: nat, w: nat, b: string, b': string)
    requires w >= 1 && n < Pow10(w) && m < Pow10(w)
    ensures Less(Padded(n, w) + b, Padded(m, w) + b') <==> n < m || (n == m && Less(b, b'))
  {
    PaddedSize(n, w);
    PaddedSize(m, w);
    DigitsOrder(Padded(n, w), Padded(m, w));
    LessConcat(Padded(n, w), b, Padded(m, w), b');
  }

  // ------------------------------------------------------------------ names and times

  datatype Time = Time(year: nat, month: nat, day: nat, hour: nat, minute: nat, second: nat) {
    predicate Valid() {
      1 <= month <= 12 && 1 <= day <= 31 && hour < 24 && minute < 60 && second < 60
    }
  }

  predicate Before(a: Time, b: Time) {
    a.year < b.year || (a.year == b.year && (
    a.month < b.month || (a.month == b.month && (
    a.day < b.day || (a.day == b.day && (
    a.hour < b.hour || (a.hour == b.hour && (
    a.minute < b.minute || (a.minute == b.minute && a.second < b.second)))))))))
  }

  /** The layout "20060102_150405". */
  function Format(t: Time): string { Padded(t.year, 4) + AfterYear(t) }

  function AfterYear(t: Time): string {
    Padded(t.month, 2) + (Padded(t.day, 2) + ("_" +
      (Padded(t.hour, 2) + (Padded(t.minute, 2) + (Padded(t.second, 2) + "")))))
  }

  function FileName(t: Time): string { PREFIX + (Format(t) + SUFFIX) }

  lemma FormatOrder(a: Time, b: Time)
    requires a.Valid() && b.Valid() && a.year <= 9999 && b.year <= 9999
    ensures Less(Format(a), Format(b)) <==> Before(a, b)
    ensures |Format(a)| == |Format(b)|
  {
    Powers();
    var s6, t6 := Padded(a.second, 2) + "", Padded(b.second, 2) + "";
    var s5, t5 := Padded(a.minute, 2) + s6, Padded(b.minute, 2) + t6;
    var s4, t4 := Padded(a.hour, 2) + s5, Padded(b.hour, 2) + t5;
    var s3, t3 := "_" + s4, "_" + t4;
    var s2, t2 := Padded(a.day, 2) + s3, Padded(b.day, 2) + t3;
    var s1, t1 := Padded(a.month, 2) + s2, Padded(b.month, 2) + t2;
    FieldOrder(a.second, b.second, 2, "", "");
    FieldOrder(a.minute, b.minute, 2, s6, t6);
    FieldOrder(a.hour, b.hour, 2, s5, t5);
    LessTotal("_", "_");
    LessConcat("_", s4, "_", t4);
    FieldOrder(a.day, b.day, 2, s3, t3);
    FieldOrder(a.month, b.month, 2, s2, t2);
    FieldOrder(a.year, b.year, 4, s1, t1);
    FormatSize(a);
    FormatSize(b);
  }

  lemma FormatSize(a: Time)
    requires a.Valid() && a.year <= 9999
    ensures |Format(a)| == 15
  {
    Powers();
    PaddedSize(a.year, 4);
    PaddedSize(a.month, 2);
    PaddedSize(a.day, 2);
    PaddedSize(a.hour, 2);
    PaddedSize(a.minute, 2);
    PaddedSize(a.second, 2);
  }

  /** The string order of backup names is the order of their times. */
  lemma NameOrder(a: Time, b: Time)
    requires a.Valid() && b.Valid() && a.year <= 9999 && b.year <= 9999
    ensures Less(FileName(a), FileName(b)) <==> Before(a, b)
  {
    FormatOrder(a, b);
    LessTotal(SUFFIX, SUFFIX);
    LessConcat(Format(a), SUFFIX, Format(b), SUFFIX);
    LessTotal(PREFIX, PREFIX);
    LessConcat(PREFIX, Format(a) + SUFFIX, PREFIX, Format(b) + SUFFIX);
  }

  lemma ItoaShorter(n: nat)
    requires n >= 10
    ensures Itoa(n) == Itoa(n / 10) + [Digit(n % 10)] && |Itoa(n)| == |Itoa(n / 10)| + 1
  {}

  /** The year 10000 is written as 1000 and one more digit. */
  lemma FiveDigits()
    ensures Padded(10000, 4) == Padded(1000, 4) + "0"
  {
    ItoaShorter(10);
    ItoaShorter(100);
    ItoaShorter(1000);
    ItoaShorter(10000);
  }

  /** A smaller number with one more digit behind it still comes first. */
  lemma LongerFirst(k: nat, z: nat, y: nat, w: nat, d: string, s: string, t: string)
    requires w >= 1 && k < y < Pow10(w) && Padded(z, w) == Padded(k, w) + d
    ensures Less(Padded(z, w) + t, Padded(y, w) + s)
  {
    FieldOrder(k, y, w, d + t, s);
    assert Padded(z, w) + t == Padded(k, w) + (d + t);
  }

  lemma FormatFirst(a: Time, b: Time)
    requires Less(Format(a) + SUFFIX, Format(b) + SUFFIX)
    ensures Less(FileName(a), FileName(b))
  {
    LessTotal(PREFIX, PREFIX);
    LessConcat(PREFIX, Format(a) + SUFFIX, PREFIX, Format(b) + SUFFIX);
  }

  /** The names of year 10000 sort before those of 9999. */
  lemma YearTenThousand(a: Time, b: Time)
    requires a.year == 9999 && b.year == 10000
    ensures Less(FileName(b), FileName(a)) && Before(a, b)
  {
    FiveDigits();
    Powers();
    LongerFirst(1000, b.year, a.year, 4, "0", AfterYear(a) + SUFFIX, AfterYear(b) + SUFFIX);
    assert Format(a) + SUFFIX == Padded(a.year, 4) + (AfterYear(a) + SUFFIX);
    assert Format(b) + SUFFIX == Padded(b.year, 4) + (AfterYear(b) + SUFFIX);
    FormatFirst(b, a);
  }

  /** Backup names sort by their times, for all times up to the end of a year, if and only if that year is at most 9999. */
  lemma NamesSortIff(year: nat)
    ensures (forall a: Time, b: Time | a.Valid() && b.Valid() && a.year <= year && b.year <= year ::
               Less(FileName(a), FileName(b)) <==> Before(a, b))
            <==> year <= 9999
  {
    if year <= 9999 {
      forall a: Time, b: Time | a.Valid() && b.Valid() && a.year <= year && b.year <= year
        ensures Less(FileName(a), FileName(b)) <==> Before(a, b)
      {
        NameOrder(a, b);
      }
    } else {
      var a, b := Time(9999, 1, 1, 0, 0, 0), Time(10000, 1, 1, 0, 0, 0);
      YearTenThousand(a, b);
      LessTotal(FileName(a), FileName(b));
    }
  }

  // ------------------------------------------------------------------ rotation

  /** What listBackupFiles takes for a backup. */
  predicate IsBackup(name: string) { HasPrefix(name, PREFIX) && HasSuffix(name, SUFFIX) }

  function Backups(files: set<string>): set<string> { set f | f in files && IsBackup(f) }

  /** The `n` names of the set that come first in string order. */
  function Oldest(names: set<string>, n: int): set<string> {
    set f | f in names && |Earlier(names, f)| < n
  }

  function Earlier(names: set<string>, f: string): set<string> { set g | g in names && Less(g, f) }

  predicate Ascending(s: seq<string>) { forall i, j | 0 <= i < j < |s| :: Less(s[i], s[j]) }

  function Members(s: seq<string>): set<string> { set f | f in s }

  lemma {:induction false} AscendingSize(s: seq<string>)
    requires Ascending(s)
    ensures |Members(s)| == |s|
  {
    if s != [] {
      var n := |s| - 1;
      AscendingSize(s[..n]);
      assert s == s[..n] + [s[n]];
      assert Members(s) == Members(s[..n]) + {s[n]};
      if s[n] in s[..n] { LessTotal(s[n], s[n]); }
    } else {
      assert Members(s) == {};
    }
  }

  /** The oldest names of an ascending list are its first ones. */
  lemma OldestOfAscending(s: seq<string>, n: nat)
    requires Ascending(s) && n <= |s|
    ensures Oldest(Members(s), n) == Members(s[..n])
  {
    forall i | 0 <= i < |s| ensures |Earlier(Members(s), s[i])| == i { EarlierOfAscending(s, i); }
    forall f ensures f in Oldest(Members(s), n) <==> f in Members(s[..n]) {
      if f in Members(s) {
        var i :| 0 <= i < |s| && s[i] == f;
        if f in s[..n] {
          var j :| 0 <= j < n && s[..n][j] == f;
          LessTotal(f, f);
          assert i == j;
        }
        if i < n { assert s[..n][i] == f; }
      }
    }
  }

  lemma EarlierOfAscending(s: seq<string>, i: nat)
    requires Ascending(s) && i < |s|
    ensures |Earlier(Members(s), s[i])| == i
  {
    forall g ensures g in Earlier(Members(s), s[i]) <==> g in Members(s[..i]) {
      if g in Members(s) {
        var j :| 0 <= j < |s| && s[j] == g;
        LessTotal(g, s[i]);
        if j < i { assert s[..i][j] == g; }
        if g in s[..i] {
          var k :| 0 <= k < i && s[..i][k] == g;
        }
      }
    }
    assert Earlier(Members(s), s[i]) == Members(s[..i]);
    AscendingSize(s[..i]);
  }

  /** sort.Strings, on distinct names. */
  method SortStrings(names: seq<string>) returns (sorted: seq<string>)
    requires forall i, j | 0 <= i < j < |names| :: names[i] != names[j]
    ensures Ascending(sorted) && Members(sorted) == Members(names)
  {
    sorted := [];
    for k := 0 to |names|
      invariant Ascending(sorted) && Members(sorted) == Members(names[..k])
    {
      var x := names[k];
      assert names[..k + 1] == names[..k] + [x];
      assert x !in Members(names[..k]);
      var i := 0;
      while i < |sorted| && Less(sorted[i], x)
        invariant 0 <= i <= |sorted| && forall j | 0 <= j < i :: Less(sorted[j], x)
      {
        i := i + 1;
      }
      InsertAscending(sorted, x, i);
      sorted := sorted[..i] + [x] + sorted[i..];
    }
    assert names[..|names|] == names;
  }

  lemma InsertAscending(s: seq<string>, x: string, i: nat)
    requires Ascending(s) && i <= |s| && x !in s && (forall j | 0 <= j < i :: Less(s[j], x)) && (i < |s| ==> !Less(s[i], x))
    ensures Ascending(s[..i] + [x] + s[i..]) && Members(s[..i] + [x] + s[i..]) == Members(s) + {x}
  {
    forall j | i <= j < |s| ensures Less(x, s[j]) {
      LessTotal(x, s[i]);
      assert s[i] in s;
      if j > i { LessTransitive(x, s[i], s[j]); }
    }
    InsertBetween((a, b) => Less(a, b), s, x, i);
    assert s == s[..i] + s[i..];
  }

  /** Inserting between the smaller and the larger elements keeps a sequence ascending, for any order. */
  lemma InsertBetween(less: (string, string) -> bool, s: seq<string>, x: string, i: nat)
    requires i <= |s| && forall j, k | 0 <= j < k < |s| :: less(s[j], s[k])
    requires (forall j | 0 <= j < i :: less(s[j], x)) && forall j | i <= j < |s| :: less(x, s[j])
    ensures var r := s[..i] + [x] + s[i..]; forall j, k | 0 <= j < k < |r| :: less(r[j], r[k])
  {}

  /** What a directory holds after a rotation whose removals end as `removes` says. */
  function Rotated(files: set<string>, maxCount: int, removes: string -> bool): set<string> {
    var oldest := Oldest(Backups(files), |Backups(files)| - maxCount);
    set f | f in files && !(f in oldest && removes(f))
  }

  lemma ListedGrows(files: set<string>, todo: set<string>, names: seq<string>, f: string)
    requires todo <= files && f in todo && Members(names) == Backups(files - todo) && |names| == |Backups(files - todo)|
    ensures f !in names
    ensures var names' := if IsBackup(f) then names + [f] else names;
            Members(names') == Backups(files - (todo - {f})) && |names'| == |Backups(files - (todo - {f}))|
  {
    assert f !in Members(names);
    assert Backups(files - (todo - {f})) == Backups(files - todo) + if IsBackup(f) then {f} else {};
    assert Members(names + [f]) == Members(names) + {f};
  }

  class BackupDir {
    var files: set<string>

    constructor ()
      ensures files == {}
    {
      files := {};
    }

    method ListBackupFiles() returns (names: seq<string>)
      ensures Members(names) == Backups(files) && |names| == |Backups(files)|
      ensures forall f :: f in names <==> f in files && HasPrefix(f, "cb-spider_backup_") && HasSuffix(f, ".db")
      ensures forall i, j | 0 <= i < j < |names| :: names[i] != names[j]
    {
      names := [];
      var todo := files;
      while todo != {}
        invariant todo <= files
        invariant Members(names) == Backups(files - todo) && |names| == |Backups(files - todo)|
        invariant forall i, j | 0 <= i < j < |names| :: names[i] != names[j]
        decreases |todo|
      {
        var f :| f in todo;
        ListedGrows(files, todo, names, f);
        if IsBackup(f) {
          names := names + [f];
        }
        todo := todo - {f};
      }
      assert files - {} == files;
      assert forall f :: f in names <==> f in Members(names);
    }

    method RotateBackups(maxCount: int, removes: string -> bool)
      requires maxCount >= 0
      modifies this
      ensures files == Rotated(old(files), maxCount, removes)
    {
      var backups := ListBackupFiles();
      if |backups| <= maxCount {
        assert Oldest(Backups(files), |Backups(files)| - maxCount) == {};
        return;
      }
      backups := SortStrings(backups);
      AscendingSize(backups);
      var deleteCount := |backups| - maxCount;
      OldestOfAscending(backups, deleteCount);
      ghost var before := files;
      for i := 0 to deleteCount
        invariant files == set f | f in before && !(f in backups[..i] && removes(f))
      {
        assert backups[..i + 1] == backups[..i] + [backups[i]];
        if removes(backups[i]) {
          files := files - {backups[i]};
        }
      }
    }

    /** performBackup: a backup under a name that is taken fails, and the failure removes the file of that name. */
    method PerformBackup(now: Time, vacuum: bool, maxCount: int, removes: string -> bool)
      requires maxCount >= 0
      modifies this
      ensures files == AfterCycle(old(files), Cycle(now, vacuum), maxCount, removes)
    {
      var name := FileName(now);
      if !vacuum || name in files {
        files := files - {name};
        return;
      }
      files := files + {name};
      RotateBackups(maxCount, removes);
    }
  }

  // ------------------------------------------------------------------ runs of backup cycles

  datatype Cycle = Cycle(at: Time, vacuum: bool)

  function AfterBackup(files: set<string>, name: string, vacuum: bool, maxCount: int, removes: string -> bool): set<string> {
    if !vacuum || name in files then files - {name} else Rotated(files + {name}, maxCount, removes)
  }

  function AfterCycle(files: set<string>, c: Cycle, maxCount: int, removes: string -> bool): set<string> {
    AfterBackup(files, FileName(c.at), c.vacuum, maxCount, removes)
  }

  function AfterCycles(files: set<string>, cycles: seq<Cycle>, maxCount: int, removes: string -> bool): set<string> {
    if cycles == [] then files
    else AfterCycle(AfterCycles(files, cycles[..|cycles| - 1], maxCount, removes), cycles[|cycles| - 1], maxCount, removes)
  }

  /** The names of the backups made, oldest first. */
  function Made(cycles: seq<Cycle>): seq<string> {
    if cycles == [] then []
    else
      var c := cycles[|cycles| - 1];
      Made(cycles[..|cycles| - 1]) + if c.vacuum then [FileName(c.at)] else []
  }

  predicate Increasing(cycles: seq<Cycle>) {
    && (forall i | 0 <= i < |cycles| :: cycles[i].at.Valid() && cycles[i].at.year <= 9999)
    && (forall i, j | 0 <= i < j < |cycles| :: Before(cycles[i].at, cycles[j].at))
  }

  function Latest(s: seq<string>, n: nat): seq<string> {
    if |s| <= n then s else s[|s| - n..]
  }

  lemma {:induction false} MadeFrom(cycles: seq<Cycle>, name: string)
    requires name in Made(cycles)
    ensures exists i | 0 <= i < |cycles| :: FileName(cycles[i].at) == name
  {
    var n := |cycles| - 1;
    if name in Made(cycles[..n]) {
      MadeFrom(cycles[..n], name);
      var i :| 0 <= i < n && FileName(cycles[..n][i].at) == name;
      assert cycles[i] == cycles[..n][i];
    } else {
      assert FileName(cycles[n].at) == name;
    }
  }

  /** Each new name comes after all names made before. */
  lemma NextIsLater(cycles: seq<Cycle>, name: string)
    requires cycles != [] && Increasing(cycles) && name in Made(cycles[..|cycles| - 1])
    ensures Less(name, FileName(cycles[|cycles| - 1].at))
  {
    var n := |cycles| - 1;
    MadeFrom(cycles[..n], name);
    var i :| 0 <= i < n && FileName(cycles[..n][i].at) == name;
    NameOrder(cycles[i].at, cycles[n].at);
  }

  lemma {:induction false} MadeAscending(cycles: seq<Cycle>)
    requires Increasing(cycles)
    ensures Ascending(Made(cycles))
  {
    if cycles != [] {
      var n := |cycles| - 1;
      MadeAscending(cycles[..n]);
      var before := Made(cycles[..n]);
      forall i | 0 <= i < |before| ensures Less(before[i], FileName(cycles[n].at)) {
        NextIsLater(cycles, before[i]);
      }
    }
  }

  lemma NameIsBackup(t: Time)
    ensures IsBackup(FileName(t))
  {}

  lemma {:induction false} MadeAreBackups(cycles: seq<Cycle>)
    ensures forall f | f in Made(cycles) :: IsBackup(f)
  {
    forall f | f in Made(cycles) ensures IsBackup(f) {
      MadeFrom(cycles, f);
      var i :| 0 <= i < |cycles| && FileName(cycles[i].at) == f;
      NameIsBackup(cycles[i].at);
    }
  }

  /** Among other files that are no backups, the backups are the ones listed. */
  lemma BackupsAmong(others: set<string>, kept: seq<string>)
    requires (forall f | f in kept :: IsBackup(f)) && Backups(others) == {}
    ensures Backups(others + Members(kept)) == Members(kept) && forall f | f in kept :: f !in others
  {
    assert forall f | f in others :: f !in Backups(others);
  }

  /** A rotation whose removals succeed keeps the last of an ascending list of backups. */
  lemma RotatedAscending(others: set<string>, kept: seq<string>, maxCount: nat, removes: string -> bool)
    requires Ascending(kept) && (forall f :: removes(f)) && (forall f | f in kept :: IsBackup(f)) && Backups(others) == {}
    ensures Rotated(others + Members(kept), maxCount, removes) == others + Members(Latest(kept, maxCount))
  {
    BackupsAmong(others, kept);
    AscendingSize(kept);
    var excess := |kept| - maxCount;
    if excess > 0 {
      OldestOfAscending(kept, excess);
      SplitMembers(kept, excess);
      RemovedFrom(others, Members(kept), Members(kept[..excess]));
    } else {
      assert Oldest(Members(kept), excess) == {};
    }
  }

  lemma RemovedFrom(others: set<string>, kept: set<string>, gone: set<string>)
    requires others !! kept && gone <= kept
    ensures (set f | f in others + kept && f !in gone) == others + (kept - gone)
  {}

  /** The latest backups and a later one, cut to the maximum, are the latest again. */
  lemma LatestGrows(made: seq<string>, x: string, maxCount: nat)
    requires maxCount >= 1
    ensures Latest(Latest(made, maxCount) + [x], maxCount) == Latest(made + [x], maxCount)
    ensures Ascending(made + [x]) ==> Ascending(Latest(made, maxCount) + [x])
    ensures forall f | f in Latest(made, maxCount) :: f in made
    ensures Members(Latest(made, maxCount) + [x]) == Members(Latest(made, maxCount)) + {x}
  {
    var from := if |made| <= maxCount then 0 else |made| - maxCount;
    var all, kept := made + [x], Latest(made, maxCount) + [x];
    assert kept == all[from..];
    if Ascending(all) { SuffixAscending(all, from); }
    assert Latest(kept, maxCount) == if |all| <= maxCount then all else all[|all| - maxCount..];
  }

  lemma SuffixAscending(s: seq<string>, from: nat)
    requires Ascending(s) && from <= |s|
    ensures Ascending(s[from..])
  {}

  lemma RotatedLatest(others: set<string>, made: seq<string>, x: string, maxCount: nat, removes: string -> bool)
    requires Ascending(made + [x]) && maxCount >= 1 && (forall f :: removes(f))
    requires (forall f | f in made :: IsBackup(f)) && IsBackup(x) && Backups(others) == {}
    ensures Rotated(others + Members(Latest(made, maxCount)) + {x}, maxCount, removes) == others + Members(Latest(made + [x], maxCount))
  {
    LatestGrows(made, x, maxCount);
    RotatedAscending(others, Latest(made, maxCount) + [x], maxCount, removes);
    assert others + Members(Latest(made, maxCount)) + {x} == others + (Members(Latest(made, maxCount)) + {x});
  }

  lemma SplitMembers(s: seq<string>, n: nat)
    requires Ascending(s) && n <= |s|
    ensures Members(s[n..]) == Members(s) - Members(s[..n])
  {
    forall f ensures f in Members(s[n..]) <==> f in Members(s) && f !in Members(s[..n]) {
      assert s == s[..n] + s[n..];
      if f in s[n..] && f in s[..n] {
        var i :| 0 <= i < n && s[..n][i] == f;
        var j :| 0 <= j < |s| - n && s[n..][j] == f;
        assert Less(s[i], s[n + j]);
        LessTotal(f, f);
      }
    }
  }

  /**
   After any run of backup cycles at increasing times, with removals that succeed, the directory holds
   its other files and exactly the latest backups, maxCount of them when there are that many.
   */
  lemma {:induction false} KeepsLatest(others: set<string>, cycles: seq<Cycle>, maxCount: nat, removes: string -> bool)
    requires Increasing(cycles) && maxCount >= 1 && (forall f :: removes(f)) && Backups(others) == {}
    ensures AfterCycles(others, cycles, maxCount, removes) == others + Members(Latest(Made(cycles), maxCount))
    ensures |Members(Latest(Made(cycles), maxCount))| == if |Made(cycles)| <= maxCount then |Made(cycles)| else maxCount
  {
    if cycles != [] {
      KeepsLatest(others, cycles[..|cycles| - 1], maxCount, removes);
      CycleKeepsLatest(others, cycles, maxCount, removes);
    } else {
      assert Members([]) == {};
    }
    MadeAscending(cycles);
    AscendingSize(Latest(Made(cycles), maxCount));
  }

  lemma CycleKeepsLatest(others: set<string>, cycles: seq<Cycle>, maxCount: nat, removes: string -> bool)
    requires cycles != [] && Increasing(cycles) && maxCount >= 1 && (forall f :: removes(f)) && Backups(others) == {}
    ensures AfterCycle(others + Members(Latest(Made(cycles[..|cycles| - 1]), maxCount)), cycles[|cycles| - 1], maxCount, removes)
            == others + Members(Latest(Made(cycles), maxCount))
  {
    var n := |cycles| - 1;
    NotThere(others, cycles, maxCount);
    MadeAscending(cycles);
    MadeAreBackups(cycles[..n]);
    NameIsBackup(cycles[n].at);
    BackupKeepsLatest(others, Made(cycles[..n]), FileName(cycles[n].at), cycles[n].vacuum, maxCount, removes);
  }

  lemma BackupKeepsLatest(others: set<string>, made: seq<string>, name: string, vacuum: bool, maxCount: nat, removes: string -> bool)
    requires maxCount >= 1 && (forall f :: removes(f)) && Backups(others) == {} && name !in others + Members(Latest(made, maxCount))
    requires (forall f | f in made :: IsBackup(f)) && IsBackup(name) && (vacuum ==> Ascending(made + [name]))
    ensures AfterBackup(others + Members(Latest(made, maxCount)), name, vacuum, maxCount, removes)
            == others + Members(Latest(made + if vacuum then [name] else [], maxCount))
  {
    if vacuum {
      RotatedLatest(others, made, name, maxCount, removes);
    } else {
      assert made + [] == made;
    }
  }

  /** The name of a new backup is not taken. */
  lemma NotThere(others: set<string>, cycles: seq<Cycle>, maxCount: nat)
    requires cycles != [] && Increasing(cycles) && Backups(others) == {}
    ensures FileName(cycles[|cycles| - 1].at) !in others + Members(Latest(Made(cycles[..|cycles| - 1]), maxCount))
  {
    var n := |cycles| - 1;
    var name, made := FileName(cycles[n].at), Made(cycles[..n]);
    NameIsBackup(cycles[n].at);
    assert name in others ==> name in Backups(others);
    forall f | f in Latest(made, maxCount) ensures f != name {
      assert f in made;
      NextIsLater(cycles, f);
      LessTotal(f, name);
    }
  }
}
