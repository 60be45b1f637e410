/** The deployment-aware database set-up of database.py: the backend is
    chosen from `DATABASE_URL`, the same test picks the DDL dialect, and the
    default admin is seeded once with the dialect's parameter placeholder.
    The two engines are two `ComplaintStore`s; the DDL text itself (column
    types) is not modelled, only which table each statement creates and in
    which dialect. */
module Schema {
  import opened Common
  import opened Text
  import opened Store

  datatype Backend = Postgres | Sqlite

  const PostgresPrefix: string := "postgresql"

  /** `database_url and database_url.startswith('postgresql')` */
  predicate UsesPostgres(url: Option<string>) {
    url.Some? && StartsWith(url.value, PostgresPrefix)
  }

  /** `get_db_connection` (database.py lines 11-24). */
  function SelectBackend(url: Option<string>): Backend {
    if UsesPostgres(url) then Postgres else Sqlite
  }

  /** PostgreSQL is chosen exactly for the URLs that are "postgresql"
      followed by anything; an unset variable, and every other URL, select
      the SQLite file. */
  lemma PostgresExactlyForPostgresqlUrls(url: Option<string>)
    ensures SelectBackend(url) == Postgres <==> exists rest :: url == Some(PostgresPrefix + rest)
    ensures url.None? ==> SelectBackend(url) == Sqlite
  {
    if SelectBackend(url) == Postgres {
      var rest := url.value[|PostgresPrefix|..];
      assert url.value == PostgresPrefix + rest;
    }
    forall rest | url == Some(PostgresPrefix + rest) ensures UsesPostgres(url) {
      assert url.value[..|PostgresPrefix|] == PostgresPrefix;
    }
  }

  /** The older `postgres://` scheme, which some hosts hand out, does not
      start with "postgresql" and so selects the SQLite file. */
  lemma PostgresSchemeSelectsSqlite(rest: string)
    ensures SelectBackend(Some("postgres://" + rest)) == Sqlite
  {
    var s := "postgres://" + rest;
    if |PostgresPrefix| <= |s| {
      assert s[..|PostgresPrefix|][8] == ':' != PostgresPrefix[8];
    }
  }

  /** The parameter marker of each driver: psycopg2's `%s`, sqlite3's `?`. */
  function Placeholder(b: Backend): string {
    match b
    case Postgres => "%s"
    case Sqlite => "?"
  }

  const InsertHead: string := "INSERT INTO admins (" + "username, password_hash, " + "name) VALUES ("

  /** The admin insert of database.py lines 155-161, without its layout. */
  function AdminInsertSql(b: Backend): string {
    var p := Placeholder(b);
    InsertHead + p + ", " + p + ", " + p + ")"
  }

  /** The statements `init_database` sends. */
  datatype Statement =
    | CreateTableIfNotExists(table: Table, dialect: Backend)
    | CountAdminRows
    | InsertAdmin(sql: string, admin: AdminRow)

  /** The tables both branches create, in this order. database.py writes the
      two branches out separately (lines 37-88 for PostgreSQL, 92-145 for
      SQLite); this single list records the reading that they create the same
      four tables in the same order, differing only in column types. */
  const SchemaTables: seq<Table> := [Complaints, Users, Admins, StatusHistory]

  /** The statements issued for a given URL, admin count and password hash. */
  function InitStatements(url: Option<string>, adminCount: nat, passwordHash: string): seq<Statement> {
    var dialect := SelectBackend(url);
    var ddl := seq(|SchemaTables|, i requires 0 <= i < |SchemaTables| => CreateTableIfNotExists(SchemaTables[i], dialect));
    ddl + [CountAdminRows]
    + (if adminCount == 0 then [InsertAdmin(AdminInsertSql(dialect), DefaultAdmin(passwordHash))] else [])
  }

  /** The statements written out: the four tables in order, the count, and
      the insert only for an empty admin table. */
  lemma InitStatementsInOrder(url: Option<string>, adminCount: nat, passwordHash: string)
    ensures var d := SelectBackend(url);
      InitStatements(url, adminCount, passwordHash)
      == [CreateTableIfNotExists(Complaints, d), CreateTableIfNotExists(Users, d),
          CreateTableIfNotExists(Admins, d), CreateTableIfNotExists(StatusHistory, d), CountAdminRows]
         + (if adminCount == 0 then [InsertAdmin(AdminInsertSql(d), DefaultAdmin(passwordHash))] else [])
  {
  }

  /** The schema always matches the connection: every statement is in the
      dialect of the backend connected to, and the admin insert uses `%s`
      exactly for PostgreSQL and `?` exactly for SQLite. */
  lemma DialectAgreesWithConnection(url: Option<string>, adminCount: nat, passwordHash: string)
    ensures var ss := InitStatements(url, adminCount, passwordHash);
      && (forall i :: 0 <= i < |ss| && ss[i].CreateTableIfNotExists? ==> ss[i].dialect == SelectBackend(url))
      && (forall i :: 0 <= i < |ss| && ss[i].InsertAdmin? ==>
            && (Contains(ss[i].sql, "%s") <==> UsesPostgres(url))
            && (Contains(ss[i].sql, "?") <==> !UsesPostgres(url)))
  {
    PlaceholderMatchesBackend(Postgres);
    PlaceholderMatchesBackend(Sqlite);
  }

  lemma PlaceholderMatchesBackend(b: Backend)
    ensures Contains(AdminInsertSql(b), "%s") <==> b == Postgres
    ensures Contains(AdminInsertSql(b), "?") <==> b == Sqlite
  {
    var p := Placeholder(b);
    var tail := ", " + p + ", " + p + ")";
    assert AdminInsertSql(b) == InsertHead + p + tail;
    ContainsInfix(InsertHead, p, tail);
    HeadHasNoMarkers();
    if b == Postgres {
      assert '?' !in tail;
      NoCharNoContains(AdminInsertSql(b), "?", '?');
    } else {
      assert '%' !in tail;
      NoCharNoContains(AdminInsertSql(b), "%s", '%');
    }
  }

  lemma HeadHasNoMarkers()
    ensures '?' !in InsertHead && '%' !in InsertHead
  {
    assert '?' !in "INSERT INTO admins (" && '%' !in "INSERT INTO admins (";
    assert '?' !in "username, password_hash, " && '%' !in "username, password_hash, ";
    assert '?' !in "name) VALUES (" && '%' !in "name) VALUES (";
  }

  /** Whichever backend is chosen, the four tables are created, each once,
      and always with `IF NOT EXISTS`. Both dialects share `SchemaTables`, so
      this states that reading of the two branches rather than comparing
      them. */
  lemma SameTablesOnBothBackends(url: Option<string>, adminCount: nat, passwordHash: string)
    ensures var ss := InitStatements(url, adminCount, passwordHash);
      && (set i | 0 <= i < |ss| && ss[i].CreateTableIfNotExists? :: ss[i].table) == AllTables
      && (forall i, j :: 0 <= i < j < |ss| && ss[i].CreateTableIfNotExists? && ss[j].CreateTableIfNotExists?
            ==> ss[i].table != ss[j].table)
  {
    var ss := InitStatements(url, adminCount, passwordHash);
    assert ss[0].table == Complaints && ss[1].table == Users && ss[2].table == Admins && ss[3].table == StatusHistory;
    assert forall i :: 4 <= i < |ss| ==> !ss[i].CreateTableIfNotExists?;
  }

  /** The default admin is inserted exactly when the count is zero. */
  lemma SeedOnlyIntoEmptyAdmins(url: Option<string>, adminCount: nat, passwordHash: string)
    ensures var ss := InitStatements(url, adminCount, passwordHash);
      (exists i :: 0 <= i < |ss| && ss[i].InsertAdmin?) <==> adminCount == 0
  {
    var ss := InitStatements(url, adminCount, passwordHash);
    if adminCount == 0 {
      assert ss[|ss| - 1].InsertAdmin?;
    }
    assert forall i :: 0 <= i < |SchemaTables| + 1 ==> !ss[i].InsertAdmin?;
  }

  /** The row `cursor.fetchone()` returns for `SELECT COUNT(*) FROM admins`.
      sqlite3 returns a `sqlite3.Row`, which can be indexed by position.
      psycopg2's `RealDictCursor` (database.py line 17) returns a dict keyed
      by column name, and PostgreSQL names the column "count". */
  datatype CountRow = Positional(columns: seq<nat>) | ByName(fields: map<string, nat>)

  function FetchCountRow(b: Backend, count: nat): CountRow {
    match b
    case Postgres => ByName(map["count" := count])
    case Sqlite => Positional([count])
  }

  /** `result[0]`, as database.py line 150 reads it on both backends: a
      position on a sqlite3 row, but a lookup of the key 0 on a dict whose
      keys are column names, which raises `KeyError`. */
  function IndexZero(row: CountRow): Option<nat> {
    match row
    case Positional(cs) => if |cs| > 0 then Some(cs[0]) else None
    case ByName(_) => None
  }

  /** The read the line evidently intends: by column name on the dict row,
      by position on the sqlite3 row. */
  function ReadCount(row: CountRow): Option<nat> {
    match row
    case Positional(cs) => if |cs| > 0 then Some(cs[0]) else None
    case ByName(cs) => if "count" in cs then Some(cs["count"]) else None
  }

  /** `init_database` as written, on one database: `None` when reading the
      count raises. The exception escapes before `conn.commit()` (line 163),
      and psycopg2 does not commit on its own, so the CREATEs are discarded
      and the database is left as it was. */
  function InitAsWritten(url: Option<string>, db: Db, passwordHash: string): Option<Db> {
    match IndexZero(FetchCountRow(SelectBackend(url), |db.admins|))
    case None => None
    case Some(count) => Some(InitSpec(db, passwordHash))
  }

  /** `init_database` with the count read by column name on PostgreSQL. */
  function InitCorrected(url: Option<string>, db: Db, passwordHash: string): Option<Db> {
    match ReadCount(FetchCountRow(SelectBackend(url), |db.admins|))
    case None => None
    case Some(count) => Some(InitSpec(db, passwordHash))
  }

  /** As written, the set-up fails on exactly the PostgreSQL deployments: a
      "postgresql" URL makes `result[0]` raise, so no table is created and no
      admin seeded, even into an empty database. On SQLite it seeds. */
  lemma PostgresInitAsWrittenRaises(url: Option<string>, db: Db, passwordHash: string)
    ensures InitAsWritten(url, db, passwordHash).None? <==> UsesPostgres(url)
    ensures !UsesPostgres(url) ==> InitAsWritten(url, db, passwordHash) == Some(InitSpec(db, passwordHash))
    ensures UsesPostgres(url) && db.admins == [] ==>
      InitAsWritten(url, db, passwordHash) != Some(InitSpec(db, passwordHash))
  {
  }

  /** Corrected, the count is read on both backends, so every deployment
      creates the schema and seeds the default admin into an empty table. */
  lemma CorrectedInitSeedsOnBothBackends(url: Option<string>, db: Db, passwordHash: string)
    ensures ReadCount(FetchCountRow(SelectBackend(url), |db.admins|)) == Some(|db.admins|)
    ensures InitCorrected(url, db, passwordHash) == Some(InitSpec(db, passwordHash))
    ensures db.admins == [] ==> InitCorrected(url, db, passwordHash).value.admins == [DefaultAdmin(passwordHash)]
  {
  }

  /** The two databases a deployment can reach: the PostgreSQL server and
      the local `fixmyhyd.db` file. */
  class Deployment {
    const postgres: ComplaintStore
    const sqliteFile: ComplaintStore

    ghost predicate Valid()
      reads this, postgres, sqliteFile
    {
      postgres != sqliteFile && postgres.Valid() && sqliteFile.Valid()
    }

    constructor (server: ComplaintStore, file: ComplaintStore)
      requires server != file && server.Valid() && file.Valid()
      ensures Valid() && postgres == server && sqliteFile == file
    {
      postgres, sqliteFile := server, file;
    }

    /** `get_db_connection()`: the store behind the chosen backend. */
    method Connect(url: Option<string>) returns (conn: ComplaintStore)
      ensures conn == (if SelectBackend(url) == Postgres then postgres else sqliteFile)
    {
      if url.Some? && StartsWith(url.value, PostgresPrefix) {
        conn := postgres;
      } else {
        conn := sqliteFile;
      }
    }

    /** `init_database()` of database.py with the count read corrected (see
        `InitCorrected`): connect, test the URL again for the dialect, create
        the four tables, count the admins and seed the default one if there
        are none. Only the connected store changes. */
    method InitDatabase(url: Option<string>, passwordHash: string) returns (issued: seq<Statement>)
      requires Valid()
      modifies postgres, sqliteFile
      ensures Valid()
      ensures var conn := if SelectBackend(url) == Postgres then postgres else sqliteFile;
        var other := if SelectBackend(url) == Postgres then sqliteFile else postgres;
        && conn.State() == InitSpec(old(conn.State()), passwordHash)
        && other.State() == old(other.State())
        && issued == InitStatements(url, |old(conn.admins)|, passwordHash)
        && Some(conn.State()) == InitCorrected(url, old(conn.State()), passwordHash)
    {
      var conn := Connect(url);
      ghost var other := if conn == postgres then sqliteFile else postgres;
      ghost var otherBefore := other.State();
      var isPostgres := url.Some? && StartsWith(url.value, PostgresPrefix);
      var dialect := if isPostgres then Postgres else Sqlite;
      var adminsBefore := conn.admins;
      InitStatementsInOrder(url, |adminsBefore|, passwordHash);
      conn.CreateTable(Complaints);
      conn.CreateTable(Users);
      conn.CreateTable(Admins);
      conn.CreateTable(StatusHistory);
      issued := [CreateTableIfNotExists(Complaints, dialect), CreateTableIfNotExists(Users, dialect),
                 CreateTableIfNotExists(Admins, dialect), CreateTableIfNotExists(StatusHistory, dialect)];
      var n := conn.CountAdmins();
      var row := FetchCountRow(dialect, n);
      issued := issued + [CountAdminRows];
      if ReadCount(row) == Some(0) {
        var sql := if isPostgres then AdminInsertSql(Postgres) else AdminInsertSql(Sqlite);
        conn.AddAdmin(DefaultAdmin(passwordHash));
        issued := issued + [InsertAdmin(sql, DefaultAdmin(passwordHash))];
      }
      assert |adminsBefore| == 0 ==> conn.admins == [DefaultAdmin(passwordHash)];
      assert other.State() == otherBefore;
    }
  }

  /** Running the set-up twice against the same URL seeds the admin at most
      once: the second run issues no insert, whatever the first found. */
  lemma SecondInitInsertsNothing(db: Db, url: Option<string>, h1: string, h2: string)
    ensures var once := InitSpec(db, h1);
      && |once.admins| >= 1
      && InitSpec(once, h2) == once
      && InitStatements(url, |once.admins|, h2) == InitStatements(url, 1, h2)
      && forall s :: s in InitStatements(url, |once.admins|, h2) ==> !s.InsertAdmin?
  {
    InitIsIdempotent(db, h1, h2);
    SeedOnlyIntoEmptyAdmins(url, |InitSpec(db, h1).admins|, h2);
  }
}
