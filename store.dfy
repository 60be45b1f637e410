/** The relational store as the endpoints use it: the `complaints` table
    with its append-only `status_history` audit trail, the `admins` table and
    the set of tables created so far. The SQL engine is replaced by maps and
    sequences; what the engine enforces on the complaint INSERT (the UNIQUE
    `ghmc_id`, the NOT NULL columns, parameters it cannot bind) is modelled
    as the rollback it causes. */
module Store {
  import opened Common
  import opened Text
  import opened JsonValue
  import opened Http

  datatype Table = Complaints | StatusHistory | Users | Admins

  const AllTables: set<Table> := {Complaints, StatusHistory, Users, Admins}

  /** The message of the `sqlite3.OperationalError` raised by a statement on
      a table that was never created. */
  function NoSuchTable(t: Table): string {
    "no such table: "
    + match t
      case Complaints => "complaints"
      case StatusHistory => "status_history"
      case Users => "users"
      case Admins => "admins"
  }

  datatype AdminRow = AdminRow(username: string, passwordHash: string, name: string)

  /** The account seeded into an empty `admins` table; the hash is whatever
      `hash_password('admin123')` produced (it is salted at random). */
  function DefaultAdmin(passwordHash: string): AdminRow {
    AdminRow("admin", passwordHash, "System Administrator")
  }

  /** The seed-once rule: the default admin is added only when the table is
      empty. */
  function SeedDefaultAdmin(admins: seq<AdminRow>, passwordHash: string): seq<AdminRow> {
    if |admins| == 0 then [DefaultAdmin(passwordHash)] else admins
  }

  /** After seeding there is an admin; existing admins are kept as they were;
      seeding again adds nothing, whatever the new salt. */
  lemma SeedingIsOnce(admins: seq<AdminRow>, h1: string, h2: string)
    ensures |SeedDefaultAdmin(admins, h1)| >= 1
    ensures admins != [] ==> SeedDefaultAdmin(admins, h1) == admins
    ensures admins == [] ==> SeedDefaultAdmin(admins, h1) == [DefaultAdmin(h1)]
    ensures SeedDefaultAdmin(SeedDefaultAdmin(admins, h1), h2) == SeedDefaultAdmin(admins, h1)
  {
  }

  /** The values one complaint INSERT binds (app.py lines 795-802). */
  datatype Row = Row(ghmcId: string, category: Json, priority: Json, subject: Json, description: Json,
                     location: Option<string>, zone: Json, lat: Option<real>, lng: Option<real>,
                     userId: Option<int>)

  /** A stored complaint: the inserted values and the columns with defaults. */
  datatype Complaint = Complaint(row: Row, status: Json, submittedBy: string, createdAt: nat, updatedAt: nat)

  /** One `status_history` row. */
  datatype HistoryEntry = HistoryEntry(complaintId: nat, oldStatus: Json, newStatus: Json, changedBy: Json,
                                       comments: Json)

  /** The whole store: complaints by id, the audit trail in insertion order,
      the next AUTOINCREMENT id, the tables that exist and the admins. */
  datatype Db = Db(complaints: map<nat, Complaint>, history: seq<HistoryEntry>, nextId: nat,
                   tables: set<Table>, admins: seq<AdminRow>)

  const EmptyDb: Db := Db(map[], [], 1, {}, [])

  /** What the store's constraints keep true: ids below the AUTOINCREMENT
      counter, audit entries only for ids handed out, `ghmc_id` unique. */
  ghost predicate Consistent(db: Db) {
    && db.nextId >= 1
    && (forall id :: id in db.complaints ==> 1 <= id < db.nextId)
    && (forall i :: 0 <= i < |db.history| ==> 1 <= db.history[i].complaintId < db.nextId)
    && (forall a, b :: a in db.complaints && b in db.complaints && a != b ==>
          db.complaints[a].row.ghmcId != db.complaints[b].row.ghmcId)
  }

  /** `init_database` (app.py lines 70-136): create the four tables if they
      are missing and seed the default admin once. */
  function InitSpec(db: Db, passwordHash: string): Db {
    db.(tables := db.tables + AllTables, admins := SeedDefaultAdmin(db.admins, passwordHash))
  }

  /** Initialising touches only the tables and admins, leaves at least one
      admin, and a second run changes nothing. */
  lemma InitIsIdempotent(db: Db, h1: string, h2: string)
    ensures var once := InitSpec(db, h1);
      && once.tables == db.tables + AllTables && |once.admins| >= 1
      && once.complaints == db.complaints && once.history == db.history && once.nextId == db.nextId
      && InitSpec(once, h2) == once
  {
    SeedingIsOnce(db.admins, h1, h2);
  }

  /** The `sqlite3.Error`s the complaint INSERT raises: no `complaints`
      table, a duplicate `ghmc_id`, a NULL in a NOT NULL column, or a list or
      dict parameter. */
  predicate InsertFails(db: Db, row: Row) {
    || Complaints !in db.tables
    || (exists id :: id in db.complaints && db.complaints[id].row.ghmcId == row.ghmcId)
    || row.category == JNull || row.subject == JNull || row.description == JNull
    || !(Bindable(row.category) && Bindable(row.priority) && Bindable(row.subject)
         && Bindable(row.description) && Bindable(row.zone))
  }

  /** The INSERT in one transaction: the new row under the next id with the
      status `Submitted`, or a rollback. No audit entry is written. */
  function InsertSpec(db: Db, row: Row, now: nat): (Db, Option<nat>) {
    if InsertFails(db, row) then (db, None)
    else
      (db.(complaints := db.complaints[db.nextId := Complaint(row, JStr("Submitted"), "Citizen", now, now)],
           nextId := db.nextId + 1),
       Some(db.nextId))
  }

  /** `update_complaint_status`: the body's `status` (any value, `None` if
      absent), `changed_by` (default `Admin`) and `comments` (default empty)
      become one audit entry beside the new status. An unknown id is a 404; a
      value sqlite cannot bind raises before anything is committed. Nothing
      catches a database error here: a missing `complaints` table makes the
      SELECT raise, a missing `status_history` table the audit INSERT, and
      the uncommitted UPDATE is discarded with the connection. */
  function UpdateStatusSpec(db: Db, id: nat, body: map<string, Json>, now: nat): (Db, Response) {
    var newStatus := Get(body, "status", JNull);
    var changedBy := Get(body, "changed_by", JStr("Admin"));
    var comments := Get(body, "comments", JStr(""));
    if Complaints !in db.tables then (db, Unhandled)
    else if id !in db.complaints then (db, Response(404, ErrorBody("Complaint not found")))
    else if !(Bindable(newStatus) && Bindable(changedBy) && Bindable(comments)) then (db, Unhandled)
    else if StatusHistory !in db.tables then (db, Unhandled)
    else
      var c := db.complaints[id];
      (db.(complaints := db.complaints[id := c.(status := newStatus, updatedAt := now)],
           history := db.history + [HistoryEntry(id, c.status, newStatus, changedBy, comments)]),
       Response(200, SuccessBody("Status updated successfully")))
  }

  /** The audit entry written for a deletion. */
  function DeletionEntry(id: nat, status: Json): HistoryEntry {
    HistoryEntry(id, status, JStr("Deleted"), JStr("Admin"), JStr("Complaint deleted by admin"))
  }

  /** `delete_complaint`: log the deletion, then remove the row; an unknown
      id is a 404. A missing table makes a statement raise
      `sqlite3.OperationalError`, which is caught: rollback and 500. */
  function DeleteSpec(db: Db, id: nat): (Db, Response) {
    if Complaints !in db.tables then (db, Response(500, StatusErrorBody(NoSuchTable(Complaints))))
    else if id !in db.complaints then (db, Response(404, ErrorBody("Complaint not found")))
    else if StatusHistory !in db.tables then (db, Response(500, StatusErrorBody(NoSuchTable(StatusHistory))))
    else
      (db.(history := db.history + [DeletionEntry(id, db.complaints[id].status)],
           complaints := db.complaints - {id}),
       Response(200, SuccessBody("Complaint ID " + Decimal(id) + " has been deleted.")))
  }

  /** A successful INSERT gets an id never used before, stores exactly the
      given values with status `Submitted`, and leaves the other complaints
      and the audit trail alone; a failed one changes nothing. A duplicate
      `ghmc_id` always fails. */
  lemma InsertOutcome(db: Db, row: Row, now: nat)
    requires Consistent(db)
    ensures var (db', id) := InsertSpec(db, row, now);
      && Consistent(db')
      && db'.history == db.history && db'.admins == db.admins && db'.tables == db.tables
      && (id.None? <==> InsertFails(db, row))
      && (id.None? ==> db' == db)
      && (id.Some? ==> && id.value !in db.complaints
                       && (forall i :: 0 <= i < |db.history| ==> db.history[i].complaintId != id.value)
                       && db'.complaints == db.complaints[id.value := Complaint(row, JStr("Submitted"), "Citizen", now, now)])
    ensures (exists other :: other in db.complaints && db.complaints[other].row.ghmcId == row.ghmcId)
      ==> InsertSpec(db, row, now).1.None?
    ensures Complaints !in db.tables ==> InsertSpec(db, row, now) == (db, None)
  {
    var (db', id) := InsertSpec(db, row, now);
    if id.Some? {
      forall a, b | a in db'.complaints && b in db'.complaints && a != b
        ensures db'.complaints[a].row.ghmcId != db'.complaints[b].row.ghmcId
      {
        if a == db.nextId {
          assert db'.complaints[a].row == row;
        } else if b == db.nextId {
          assert db'.complaints[b].row == row;
        }
      }
    }
  }

  /** Both administrative operations answer 404 for an id that is not
      stored in an existing `complaints` table, and then change nothing. */
  lemma UnknownIdChangesNothing(db: Db, id: nat, body: map<string, Json>, now: nat)
    requires Complaints in db.tables && id !in db.complaints
    ensures UpdateStatusSpec(db, id, body, now) == (db, Response(404, ErrorBody("Complaint not found")))
    ensures DeleteSpec(db, id) == (db, Response(404, ErrorBody("Complaint not found")))
  {
  }

  /** Against a database whose `complaints` or `status_history` table is
      missing, neither administrative operation succeeds or changes
      anything: the status update ends in an unhandled error (or the 404 of
      an unknown id), the deletion in the caught error's 500. */
  lemma MissingTableChangesNothing(db: Db, id: nat, body: map<string, Json>, now: nat)
    requires Complaints !in db.tables || StatusHistory !in db.tables
    ensures UpdateStatusSpec(db, id, body, now).0 == db && UpdateStatusSpec(db, id, body, now).1.status != 200
    ensures DeleteSpec(db, id).0 == db && DeleteSpec(db, id).1.status != 200
    ensures Complaints !in db.tables ==>
      && UpdateStatusSpec(db, id, body, now).1 == Unhandled
      && DeleteSpec(db, id).1 == Response(500, StatusErrorBody("no such table: complaints"))
    ensures Complaints in db.tables && id in db.complaints ==>
      && UpdateStatusSpec(db, id, body, now).1.status == 500
      && DeleteSpec(db, id).1 == Response(500, StatusErrorBody("no such table: status_history"))
  {
    assert NoSuchTable(Complaints) == "no such table: " + "complaints" == "no such table: complaints";
    assert NoSuchTable(StatusHistory) == "no such table: " + "status_history" == "no such table: status_history";
  }

  /** A status update of a stored complaint appends exactly one entry whose
      old status is the status just before, changes that complaint's status
      and update time only, and keeps every other complaint as it was. */
  lemma StatusUpdateIsLogged(db: Db, id: nat, body: map<string, Json>, now: nat)
    requires Consistent(db) && Complaints in db.tables && StatusHistory in db.tables && id in db.complaints
    requires Bindable(Get(body, "status", JNull))
    requires Bindable(Get(body, "changed_by", JStr("Admin"))) && Bindable(Get(body, "comments", JStr("")))
    ensures var (db', resp) := UpdateStatusSpec(db, id, body, now);
      && Consistent(db')
      && resp.status == 200
      && |db'.history| == |db.history| + 1 && db'.history[..|db.history|] == db.history
      && db'.history[|db.history|].complaintId == id
      && db'.history[|db.history|].oldStatus == db.complaints[id].status
      && db'.history[|db.history|].newStatus == Get(body, "status", JNull)
      && db'.complaints.Keys == db.complaints.Keys
      && db'.complaints[id] == db.complaints[id].(status := Get(body, "status", JNull), updatedAt := now)
      && (forall other :: other in db.complaints && other != id ==> db'.complaints[other] == db.complaints[other])
  {
    var db' := UpdateStatusSpec(db, id, body, now).0;
    assert db'.history[..|db.history|] == db.history;
    forall a, b | a in db'.complaints && b in db'.complaints && a != b
      ensures db'.complaints[a].row.ghmcId != db'.complaints[b].row.ghmcId
    {
      assert db'.complaints[a].row == db.complaints[a].row;
      assert db'.complaints[b].row == db.complaints[b].row;
    }
  }

  /** Entries recording the deletion of complaint `id`. */
  function CountDeletions(history: seq<HistoryEntry>, id: nat): nat {
    if history == [] then 0
    else CountDeletions(history[..|history| - 1], id)
         + (if history[|history| - 1].complaintId == id && history[|history| - 1].newStatus == JStr("Deleted")
            then 1 else 0)
  }

  /** Deleting a stored complaint appends exactly one `Deleted` entry that
      carries its last status, then removes that row and no other. */
  lemma DeletionIsLogged(db: Db, id: nat)
    requires Consistent(db) && Complaints in db.tables && StatusHistory in db.tables && id in db.complaints
    ensures var (db', resp) := DeleteSpec(db, id);
      && Consistent(db')
      && resp.status == 200
      && db'.history == db.history + [DeletionEntry(id, db.complaints[id].status)]
      && CountDeletions(db'.history, id) == CountDeletions(db.history, id) + 1
      && id !in db'.complaints
      && db'.complaints.Keys == db.complaints.Keys - {id}
      && (forall other :: other in db'.complaints ==> db'.complaints[other] == db.complaints[other])
  {
    var db' := DeleteSpec(db, id).0;
    assert db'.history[..|db'.history| - 1] == db.history;
  }

  /** The operations that change the store after start-up. */
  datatype Operation =
    | Initialise(passwordHash: string)
    | Submit(row: Row, now: nat)
    | SetStatus(id: nat, body: map<string, Json>, now: nat)
    | Remove(id: nat)

  function Apply(db: Db, op: Operation): Db {
    match op
    case Initialise(h) => InitSpec(db, h)
    case Submit(row, now) => InsertSpec(db, row, now).0
    case SetStatus(id, body, now) => UpdateStatusSpec(db, id, body, now).0
    case Remove(id) => DeleteSpec(db, id).0
  }

  function ApplyAll(db: Db, ops: seq<Operation>): Db
    decreases |ops|
  {
    if ops == [] then db else ApplyAll(Apply(db, ops[0]), ops[1..])
  }

  /** One operation keeps the store consistent and appends at most one
      audit entry, keeping the earlier ones. */
  lemma ApplyKeepsHistory(db: Db, op: Operation)
    requires Consistent(db)
    ensures var next := Apply(db, op);
      && Consistent(next)
      && |db.history| <= |next.history| <= |db.history| + 1
      && next.history[..|db.history|] == db.history
  {
    match op {
      case Initialise(h) =>
      case Submit(row, now) => InsertOutcome(db, row, now);
      case SetStatus(id, body, now) =>
        if Apply(db, op) != db {
          StatusUpdateIsLogged(db, id, body, now);
        }
      case Remove(id) =>
        if Apply(db, op) != db {
          DeletionIsLogged(db, id);
        }
    }
  }

  /** Whatever operations run, the store stays consistent (so `ghmc_id`
      stays unique), the audit trail only grows at its end (no entry is ever
      changed or removed), and every operation adds at most one entry. */
  lemma {:induction false} HistoryIsAppendOnly(db: Db, ops: seq<Operation>)
    requires Consistent(db)
    ensures var db' := ApplyAll(db, ops);
      && Consistent(db')
      && |db.history| <= |db'.history| <= |db.history| + |ops|
      && db'.history[..|db.history|] == db.history
    decreases |ops|
  {
    if ops != [] {
      var next := Apply(db, ops[0]);
      ApplyKeepsHistory(db, ops[0]);
      HistoryIsAppendOnly(next, ops[1..]);
      var db' := ApplyAll(next, ops[1..]);
      assert db' == ApplyAll(db, ops);
      assert db'.history[..|db.history|] == db'.history[..|next.history|][..|db.history|];
    }
  }

  /** The store as the endpoints see it: the tables' current contents. */
  class ComplaintStore {
    var complaints: map<nat, Complaint>
    var history: seq<HistoryEntry>
    var nextId: nat
    var tables: set<Table>
    var admins: seq<AdminRow>

    function State(): Db
      reads this
    {
      Db(complaints, history, nextId, tables, admins)
    }

    ghost predicate Valid()
      reads this
    {
      Consistent(State())
    }

    /** A database file that has no tables yet. */
    constructor ()
      ensures Valid() && State() == EmptyDb
    {
      complaints, history, nextId, tables, admins := map[], [], 1, {}, [];
    }

    /** `CREATE TABLE IF NOT EXISTS`: an existing table is left as it is. */
    method CreateTable(t: Table)
      requires Valid()
      modifies this
      ensures Valid() && State() == old(State()).(tables := old(tables) + {t})
    {
      tables := tables + {t};
    }

    /** `SELECT COUNT(*) FROM admins` */
    method CountAdmins() returns (n: nat)
      ensures n == |admins|
    {
      n := |admins|;
    }

    /** `INSERT INTO admins ...` */
    method AddAdmin(a: AdminRow)
      requires Valid()
      modifies this
      ensures Valid() && State() == old(State()).(admins := old(admins) + [a])
    {
      admins := admins + [a];
    }

    /** `init_database` of app.py (lines 70-136): four `CREATE TABLE IF NOT
        EXISTS`, then the default admin if the admin count is zero. */
    method InitDatabase(passwordHash: string)
      requires Valid()
      modifies this
      ensures Valid() && State() == InitSpec(old(State()), passwordHash)
    {
      CreateTable(Complaints);
      CreateTable(StatusHistory);
      CreateTable(Users);
      CreateTable(Admins);
      var count := CountAdmins();
      if count == 0 {
        AddAdmin(DefaultAdmin(passwordHash));
      }
    }

    /** The complaint INSERT and its commit or rollback (app.py lines
        785-823): the new id, or `None` after a rollback. */
    method Insert(row: Row, now: nat) returns (id: Option<nat>)
      requires Valid()
      modifies this
      ensures Valid() && (State(), id) == InsertSpec(old(State()), row, now)
    {
      InsertOutcome(State(), row, now);
      if InsertFails(State(), row) {
        return None;
      }
      id := Some(nextId);
      complaints := complaints[nextId := Complaint(row, JStr("Submitted"), "Citizen", now, now)];
      nextId := nextId + 1;
    }

    /** `update_complaint_status` (app.py lines 874-901). */
    method UpdateStatus(id: nat, body: map<string, Json>, now: nat) returns (resp: Response)
      requires Valid()
      modifies this
      ensures Valid() && (State(), resp) == UpdateStatusSpec(old(State()), id, body, now)
    {
      var newStatus := Get(body, "status", JNull);
      var changedBy := Get(body, "changed_by", JStr("Admin"));
      var comments := Get(body, "comments", JStr(""));
      if Complaints !in tables {
        return Unhandled;
      }
      if id !in complaints {
        return Response(404, ErrorBody("Complaint not found"));
      }
      if !(Bindable(newStatus) && Bindable(changedBy) && Bindable(comments)) || StatusHistory !in tables {
        return Unhandled;
      }
      StatusUpdateIsLogged(State(), id, body, now);
      var oldStatus := complaints[id].status;
      complaints := complaints[id := complaints[id].(status := newStatus, updatedAt := now)];
      history := history + [HistoryEntry(id, oldStatus, newStatus, changedBy, comments)];
      resp := Response(200, SuccessBody("Status updated successfully"));
    }

    /** `delete_complaint` (app.py lines 933-965). */
    method Delete(id: nat) returns (resp: Response)
      requires Valid()
      modifies this
      ensures Valid() && (State(), resp) == DeleteSpec(old(State()), id)
    {
      if Complaints !in tables {
        return Response(500, StatusErrorBody(NoSuchTable(Complaints)));
      }
      if id !in complaints {
        return Response(404, ErrorBody("Complaint not found"));
      }
      if StatusHistory !in tables {
        return Response(500, StatusErrorBody(NoSuchTable(StatusHistory)));
      }
      DeletionIsLogged(State(), id);
      history := history + [DeletionEntry(id, complaints[id].status)];
      complaints := complaints - {id};
      resp := Response(200, SuccessBody("Complaint ID " + Decimal(id) + " has been deleted."));
    }
  }
}
