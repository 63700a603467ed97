/**
 CreateRDBMSDatabase of RDBMSManager.go: the choice between a driver's native calls and direct SQL, the
 rollback of a half-made database, and the text of the CREATE DATABASE statement. Which optional
 interfaces the driver has and how its calls end are parameters.
 */
module RdbmsRouter {
  import opened Strings

  // ------------------------------------------------------------------ what is asked

  predicate IsWordChar(c: char) {
    'A' <= c <= 'Z' || 'a' <= c <= 'z' || '0' <= c <= '9' || c == '_'
  }

  /** validateSQLSafeValue with sqlIdentifierPattern, or with dbNamePattern, which allows "-" too. */
  predicate Safe(s: string, dash: bool) {
    s != "" && forall i | 0 <= i < |s| :: IsWordChar(s[i]) || (dash && s[i] == '-')
  }

  datatype Request = Request(dbName: string, charset: string, collation: string)

  /** The request's values after trimming. */
  function TrimmedValues(q: Request): Request {
    Request(TrimSpace(q.dbName), TrimSpace(q.charset), TrimSpace(q.collation))
  }

  predicate Valid(q: Request) {
    Safe(q.dbName, true) && (q.charset == "" || Safe(q.charset, false)) && (q.collation == "" || Safe(q.collation, false))
  }

  predicate Plain(q: Request) { q.charset == "" && q.collation == "" }

  // ------------------------------------------------------------------ the CREATE DATABASE text

  /** createDatabaseSQL's statement for MySQL and MariaDB. */
  function CreateStatement(q: Request): string {
    "CREATE DATABASE `" + (q.dbName + ("`" +
      ((if q.charset != "" then " CHARACTER SET `" + (q.charset + "`") else "") +
       (if q.collation != "" then " COLLATE `" + (q.collation + "`") else ""))))
  }

  /** Text up to a backtick, and what follows the backtick. */
  function Quoted(s: string): Option<(string, string)> {
    var i := Index(s, "`");
    if i == -1 then None else Some((s[..i], s[i + 1..]))
  }

  /** A clause that may be missing: its keyword, then a name in backticks. */
  function Clause(s: string, keyword: string): Option<(string, string)> {
    if HasPrefix(s, keyword) then Quoted(s[|keyword|..]) else Some(("", s))
  }

  /** How an engine reads the statement. */
  function ParseCreate(s: string): Option<Request> {
    if !HasPrefix(s, "CREATE DATABASE `") then None
    else
      match Quoted(s[|"CREATE DATABASE `"|..])
      case None => None
      case Some((name, s1)) =>
        match Clause(s1, " CHARACTER SET `")
        case None => None
        case Some((charset, s2)) =>
          match Clause(s2, " COLLATE `")
          case None => None
          case Some((collation, s3)) => if s3 == "" then Some(Request(name, charset, collation)) else None
  }

  predicate NoTick(s: string) { '`' !in s }

  lemma QuotedReads(name: string, rest: string)
    ensures NoTick(name) ==> Quoted(name + ("`" + rest)) == Some((name, rest))
    ensures !NoTick(name) ==> Quoted(name + ("`" + rest)).Some? && Quoted(name + ("`" + rest)).value.0 != name
  {
    var s := name + ("`" + rest);
    assert s == name + ['`'] + rest;
    if NoTick(name) {
      FirstChar(name, '`', rest);
      assert s[|name| + 1..] == rest && s[..|name|] == name;
    } else {
      var k :| 0 <= k < |name| && name[k] == '`';
      assert s[k..k + 1] == "`";
      assert At(s, "`", k) && Occurs(s, "`");
      assert |s[..Index(s, "`")]| < |name|;
    }
  }

  lemma ClauseReads(keyword: string, name: string, rest: string)
    ensures Clause(keyword + (name + ("`" + rest)), keyword) == Quoted(name + ("`" + rest))
  {}

  function CollatePart(collation: string): string {
    if collation != "" then " COLLATE `" + (collation + "`") else ""
  }

  lemma CollateReads(collation: string)
    ensures NoTick(collation) ==> Clause(CollatePart(collation), " COLLATE `") == Some((collation, ""))
    ensures !NoTick(collation) ==>
              Clause(CollatePart(collation), " COLLATE `").Some? && Clause(CollatePart(collation), " COLLATE `").value.0 != collation
  {
    if collation != "" {
      assert collation + "`" == collation + ("`" + "");
      ClauseReads(" COLLATE `", collation, "");
      QuotedReads(collation, "");
    }
  }

  /** What the statement says after the database's name, read up to the COLLATE clause. */
  lemma CharsetReads(charset: string, collation: string)
    ensures var s := (if charset != "" then " CHARACTER SET `" + (charset + "`") else "") + CollatePart(collation);
            var r := Clause(s, " CHARACTER SET `");
            if NoTick(charset) then r == Some((charset, CollatePart(collation))) else r.Some? && r.value.0 != charset
  {
    var c := CollatePart(collation);
    if charset != "" {
      var s := " CHARACTER SET `" + (charset + ("`" + c));
      assert " CHARACTER SET `" + (charset + "`") + c == s;
      ClauseReads(" CHARACTER SET `", charset, c);
      QuotedReads(charset, c);
    } else {
      assert "" + c == c;
      if collation != "" { NotAt(c, " CHARACTER SET `", 0, 2); }
    }
  }

  /** The statement reads back as the three values it was built from exactly when none of them holds a backtick. */
  lemma StatementReadsBack(q: Request)
    ensures ParseCreate(CreateStatement(q)) == Some(q) <==> NoTick(q.dbName) && NoTick(q.charset) && NoTick(q.collation)
  {
    var tail := (if q.charset != "" then " CHARACTER SET `" + (q.charset + "`") else "") + CollatePart(q.collation);
    var s := CreateStatement(q);
    assert s == "CREATE DATABASE `" + (q.dbName + ("`" + tail));
    assert s[..|"CREATE DATABASE `"|] == "CREATE DATABASE `" && s[|"CREATE DATABASE `"|..] == q.dbName + ("`" + tail);
    QuotedReads(q.dbName, tail);
    CharsetReads(q.charset, q.collation);
    CollateReads(q.collation);
  }

  lemma SafeHasNoTick(s: string, dash: bool)
    requires Safe(s, dash)
    ensures NoTick(s)
  {}

  /** The statement word for word. */
  lemma StatementText(q: Request)
    requires q.charset != "" && q.collation != ""
    ensures CreateStatement(q) == "CREATE DATABASE `" + q.dbName + "` CHARACTER SET `" + q.charset + "` COLLATE `" + q.collation + "`"
    ensures CreateStatement(q.(charset := "", collation := "")) == "CREATE DATABASE `" + q.dbName + "`"
  {
    assert "`" + " CHARACTER SET `" == "` CHARACTER SET `" && "`" + " COLLATE `" == "` COLLATE `";
  }

  /** Validated values always read back. */
  lemma ValidatedReadsBack(q: Request)
    requires Valid(q)
    ensures ParseCreate(CreateStatement(q)) == Some(q)
  {
    SafeHasNoTick(q.dbName, true);
    if q.charset != "" { SafeHasNoTick(q.charset, false); }
    if q.collation != "" { SafeHasNoTick(q.collation, false); }
    StatementReadsBack(q);
  }

  // ------------------------------------------------------------------ the engine

  datatype Settings = Settings(charset: string, collation: string)

  type Databases = map<string, Settings>

  /** The server's default charset, the default collation of each charset, and the charset of each collation. */
  datatype Engine = Engine(defaultCharset: string, collationOf: string -> string, charsetOf: string -> string)

  /** What a database is created with. */
  function Made(e: Engine, charset: string, collation: string): Settings {
    if collation != "" then Settings(if charset != "" then charset else e.charsetOf(collation), collation)
    else if charset != "" then Settings(charset, e.collationOf(charset))
    else Settings(e.defaultCharset, e.collationOf(e.defaultCharset))
  }

  /** An engine rejects a collation of another charset. */
  predicate Compatible(e: Engine, q: Request) {
    q.charset != "" && q.collation != "" ==> e.charsetOf(q.collation) == q.charset
  }

  /** A database has what was asked for; what was not asked for is the engine's affair. */
  predicate Honours(s: Settings, q: Request) {
    (q.charset != "" ==> s.charset == q.charset) && (q.collation != "" ==> s.collation == q.collation)
  }

  // ------------------------------------------------------------------ the router

  /** The optional interfaces that the driver implements; `paired` and `fallback` are what their methods say. */
  datatype Driver = Driver(options: bool, paired: bool, charsetApi: bool, builder: bool, manager: bool, fallback: bool)

  datatype Path =
    | OptionsApi   // CreateDatabaseWithOptions
    | CharsetApi   // CreateDatabaseWithCharset, then ALTER DATABASE
    | BuiltSql     // the driver's own statement
    | DirectSql    // createDatabaseSQL
    | NativeApi    // CreateDatabase
    | Unsupported

  function Route(d: Driver, plain: bool): Path {
    if d.options then OptionsApi
    else if d.charsetApi then CharsetApi
    else if d.builder && !plain then BuiltSql
    else if d.manager then (if plain then NativeApi else if d.fallback then DirectSql else Unsupported)
    else DirectSql
  }

  /** How the calls end: everything before the routing, the lookup, the creation, the ALTER and the cleanup. */
  datatype Answers = Answers(ready: bool, engine: string, lookup: bool, create: bool, alter: bool, cleanup: bool)

  predicate MySqlLike(engine: string) {
    EqualFold(AsciiFold, engine, "mysql") || EqualFold(AsciiFold, engine, "mariadb")
  }

  /** The request gets as far as the routing. */
  predicate Admitted(q: Request, a: Answers) {
    q.dbName != "" && Valid(TrimmedValues(q)) && a.ready && (Plain(TrimmedValues(q)) || MySqlLike(a.engine))
  }

  /** The letters, digits and the underscore, and in names the dash. */
  predicate OnlyWords(s: string, dash: bool) {
    forall c | c in s :: 'A' <= c <= 'Z' || 'a' <= c <= 'z' || '0' <= c <= '9' || c == '_' || (dash && c == '-')
  }

  /** What comes before the routing, by the characters of the values. */
  lemma AdmittedMeans(q: Request, a: Answers)
    ensures var name, charset, collation := TrimSpace(q.dbName), TrimSpace(q.charset), TrimSpace(q.collation);
            Admitted(q, a) <==>
              name != "" && OnlyWords(name, true) && OnlyWords(charset, false) && OnlyWords(collation, false) &&
              a.ready && (charset == collation == "" || MySqlLike(a.engine))
  {
    SafeMeans(TrimSpace(q.dbName), true);
    SafeMeans(TrimSpace(q.charset), false);
    SafeMeans(TrimSpace(q.collation), false);
    assert q.dbName == "" ==> TrimSpace(q.dbName) == "";
  }

  lemma SafeMeans(s: string, dash: bool)
    ensures Safe(s, dash) <==> s != "" && OnlyWords(s, dash)
  {
    if Safe(s, dash) {
      forall c | c in s ensures 'A' <= c <= 'Z' || 'a' <= c <= 'z' || '0' <= c <= '9' || c == '_' || (dash && c == '-') {
        var i :| 0 <= i < |s| && s[i] == c;
      }
    } else if s != "" {
      var i :| 0 <= i < |s| && !(IsWordChar(s[i]) || (dash && s[i] == '-'));
      assert s[i] in s;
    }
  }

  /** The call that creates the database takes effect. */
  predicate Creates(e: Engine, dbs: Databases, q: Request, a: Answers) {
    a.create && q.dbName !in dbs && Compatible(e, q)
  }

  /** A driver that needs the pair is asked with the charset's default collation. */
  predicate LooksUp(d: Driver, q: Request) { d.options && d.paired && q.charset != "" && q.collation == "" }

  /** The database settings that a paired driver's native call gives when it gets the charset alone: the server's. */
  function MadeByOptions(e: Engine, paired: bool, charset: string, collation: string): Settings {
    if paired && collation == "" then Made(e, "", "") else Made(e, charset, collation)
  }

  /** When each of the ways succeeds. */
  predicate Succeeds(e: Engine, d: Driver, q: Request, a: Answers, dbs: Databases) {
    match Route(d, Plain(q))
    case OptionsApi => Creates(e, dbs, q, a) && (LooksUp(d, q) ==> a.lookup)
    case CharsetApi => a.create && q.dbName !in dbs && (q.collation != "" ==> a.alter)
    case BuiltSql | DirectSql | NativeApi => Creates(e, dbs, q, a)
    case Unsupported => false
  }

  /** What was asked for, and the engine's own for the rest; a collation brings its charset. */
  function Given(e: Engine, q: Request): Settings {
    if q.collation != "" then Settings(e.charsetOf(q.collation), q.collation) else Made(e, q.charset, "")
  }

  class Instance {
    const engine: Engine
    var databases: Databases

    constructor (engine: Engine)
      ensures this.engine == engine && databases == map[]
    {
      this.engine := engine;
      databases := map[];
    }

    /** The native calls and the SQL statements that create a database at one go. */
    method Create(name: string, s: Settings, takes: bool) returns (ok: bool)
      modifies this`databases
      ensures ok == (takes && name !in old(databases))
      ensures databases == if ok then old(databases)[name := s] else old(databases)
    {
      if !takes || name in databases { return false; }
      databases := databases[name := s];
      return true;
    }

    /** The native creation with the charset, then the collation by ALTER DATABASE, undone if that fails. */
    method CreateByCharsetApi(d: Driver, q: Request, a: Answers) returns (ok: bool)
      modifies this`databases
      ensures ok == (a.create && q.dbName !in old(databases) && (q.collation == "" || a.alter))
      ensures ok ==> databases == old(databases)[q.dbName :=
                if q.collation == "" then Made(engine, q.charset, "") else Settings(engine.charsetOf(q.collation), q.collation)]
      ensures !ok ==> databases == if a.create && q.dbName !in old(databases) && !(d.manager && a.cleanup)
                                   then old(databases)[q.dbName := Made(engine, q.charset, "")] else old(databases)
    {
      ok := Create(q.dbName, Made(engine, q.charset, ""), a.create);
      if !ok { return; }
      if q.collation != "" {
        if !a.alter {
          if d.manager {
            if a.cleanup { databases := databases - {q.dbName}; }
          }
          return false;
        }
        databases := databases[q.dbName := Settings(engine.charsetOf(q.collation), q.collation)];
      }
    }

    /**
     CreateRDBMSDatabase. Success means a new database with what was asked for (see Honoured for the
     one reservation), an error leaves a database behind only in the case of LeftBehind.
     */
    method CreateRDBMSDatabase(d: Driver, request: Request, a: Answers) returns (ok: bool)
      requires forall c :: engine.collationOf(c) != ""
      modifies this`databases
      ensures ok <==> Admitted(request, a) && Succeeds(engine, d, TrimmedValues(request), a, old(databases))
      ensures ok ==> var q := TrimmedValues(request);
                Admitted(request, a) && q.dbName !in old(databases) && q.dbName in databases &&
                databases == old(databases)[q.dbName := databases[q.dbName]] &&
                (Honours(databases[q.dbName], q) <==> Honoured(engine, d, q)) &&
                (LooksUp(d, q) ==> databases[q.dbName] == Settings(q.charset, engine.collationOf(q.charset)))
      ensures !ok ==> databases == if Admitted(request, a) && LeftBehind(d, TrimmedValues(request), a, old(databases))
                                   then old(databases)[TrimmedValues(request).dbName := Made(engine, TrimmedValues(request).charset, "")]
                                   else old(databases)
      // the new database has the very values that the request gives, but for outer spaces, and the engine's for the others
      ensures ok ==>
                var name, charset, collation := TrimSpace(request.dbName), TrimSpace(request.charset), TrimSpace(request.collation);
                && name !in old(databases) && name in databases && databases == old(databases)[name := databases[name]]
                && databases[name] ==
                   (if collation != "" then Settings(engine.charsetOf(collation), collation)
                    else if charset != "" then Settings(charset, engine.collationOf(charset))
                    else Settings(engine.defaultCharset, engine.collationOf(engine.defaultCharset)))
                && (charset != "" && (collation == "" || d.options || !d.charsetApi) ==> databases[name].charset == charset)
      // and when it succeeds
      ensures var name, charset, collation := TrimSpace(request.dbName), TrimSpace(request.charset), TrimSpace(request.collation);
              ok <==>
                && name != "" && OnlyWords(name, true) && OnlyWords(charset, false) && OnlyWords(collation, false)
                && a.ready && (charset == collation == "" || MySqlLike(a.engine))
                && a.create && name !in old(databases)
                && (if !d.options && d.charsetApi then collation != "" ==> a.alter
                    else charset != "" && collation != "" ==> engine.charsetOf(collation) == charset)
                && (d.options && d.paired && charset != "" && collation == "" ==> a.lookup)
                && (d.options || d.charsetApi || d.builder || !d.manager || d.fallback || charset == collation == "")
      // an error leaves something behind exactly when the ALTER of the charset API fails and nothing cleans up after it
      ensures !ok ==>
                var name, charset, collation := TrimSpace(request.dbName), TrimSpace(request.charset), TrimSpace(request.collation);
                databases ==
                if name != "" && OnlyWords(name, true) && OnlyWords(charset, false) && OnlyWords(collation, false) &&
                   a.ready && MySqlLike(a.engine) && !d.options && d.charsetApi && collation != "" &&
                   a.create && name !in old(databases) && !a.alter && !(d.manager && a.cleanup)
                then old(databases)[name := if charset != "" then Settings(charset, engine.collationOf(charset))
                                            else Settings(engine.defaultCharset, engine.collationOf(engine.defaultCharset))]
                else old(databases)
    {
      AdmittedMeans(request, a);
      var admitted := Admit(request, a);
      if !admitted { return false; }
      ok := Dispatch(d, TrimmedValues(request), a);
    }

    /** Trimming, validation and everything else that comes before the routing. */
    method Admit(request: Request, a: Answers) returns (ok: bool)
      ensures ok == Admitted(request, a)
    {
      if request.dbName == "" { return false; }
      var q := TrimmedValues(request);
      if !Safe(q.dbName, true) { return false; }
      if q.charset != "" && !Safe(q.charset, false) { return false; }
      if q.collation != "" && !Safe(q.collation, false) { return false; }
      if !a.ready { return false; }
      return Plain(q) || MySqlLike(a.engine);
    }

    /** The interfaces in their order of priority. */
    method Dispatch(d: Driver, q: Request, a: Answers) returns (ok: bool)
      requires forall c :: engine.collationOf(c) != ""
      modifies this`databases
      ensures ok <==> Succeeds(engine, d, q, a, old(databases))
      ensures ok ==>
                q.dbName !in old(databases) && q.dbName in databases &&
                databases == old(databases)[q.dbName := databases[q.dbName]] &&
                (Honours(databases[q.dbName], q) <==> Honoured(engine, d, q)) &&
                (LooksUp(d, q) ==> databases[q.dbName] == Settings(q.charset, engine.collationOf(q.charset)))
      ensures ok ==> databases[q.dbName] == Given(engine, q)
      ensures !ok ==> databases == if LeftBehind(d, q, a, old(databases))
                                   then old(databases)[q.dbName := Made(engine, q.charset, "")] else old(databases)
      ensures !ok && databases != old(databases) && (d.charsetApi ==> d.manager) ==> !a.cleanup
    {
      if d.options {
        var collation := q.collation;
        if q.charset != "" && collation == "" && d.paired {
          if !a.lookup { return false; }
          collation := engine.collationOf(q.charset);
        }
        ok := Create(q.dbName, MadeByOptions(engine, d.paired, q.charset, collation), a.create && Compatible(engine, q));
        return;
      }
      if d.charsetApi {
        ok := CreateByCharsetApi(d, q, a);
        return;
      }
      if d.builder && !Plain(q) {
        ok := Create(q.dbName, Made(engine, q.charset, q.collation), a.create && Compatible(engine, q));
        return;
      }
      if d.manager {
        if !Plain(q) {
          if !d.fallback { return false; }
          ok := Create(q.dbName, Made(engine, q.charset, q.collation), a.create && Compatible(engine, q));
          return;
        }
        ok := Create(q.dbName, Made(engine, "", ""), a.create);
        return;
      }
      ok := Create(q.dbName, Made(engine, q.charset, q.collation), a.create && Compatible(engine, q));
    }
  }

  /** ALTER DATABASE ... COLLATE takes the collation's charset along: only a pair that belongs together keeps both. */
  predicate Honoured(e: Engine, d: Driver, q: Request) {
    Route(d, Plain(q)) == CharsetApi ==> Compatible(e, q)
  }

  /** An error that leaves the database behind: the ALTER fails and the cleanup is missing or fails as well. */
  predicate LeftBehind(d: Driver, q: Request, a: Answers, dbs: Databases) {
    Route(d, Plain(q)) == CharsetApi && q.collation != "" && a.create && q.dbName !in dbs && !a.alter && !(d.manager && a.cleanup)
  }
}
