/**
 * The gin server of myapp/main.go: one users table with an auto-increment
 * id and a unique id_number, a sensor-data table, the Bearer middleware,
 * register, /mydata, admin login and the admin create and update handlers.
 *
 * As in the main.go model, the database is a value and every handler a
 * function to its status and the database after its writes; what bcrypt,
 * jwt and gorm return is passed in.
 */
module MyApp {
  import opened Wrappers
  import Server
  import Text

  /** A users row: Age and Gender are nullable columns. */
  datatype User = User(idNumber: string, password: string, age: Option<int>, gender: Option<string>, role: string)

  datatype SensorData = SensorData(userId: nat, timestamp: int, irSignal: int, redSignal: int, batchId: string)

  /** Users keyed by their primary key; nextId is the next auto-increment value. */
  datatype Db = Db(users: map<nat, User>, nextId: nat, sensorData: seq<SensorData>)

  datatype Outcome = Outcome(status: int, db: Db)

  /** The claims authMiddleware (Server.Authenticate with this program's verifier) stores in the context. */
  datatype Claims = Claims(userId: nat, role: string)

  const USER_ROLE: string := "user"
  const ADMIN_ROLE: string := "admin"
  const MIN_PASSWORD: nat := 6

  predicate IdNumberTaken(users: map<nat, User>, idNumber: string)
  {
    exists id :: id in users && users[id].idNumber == idNumber
  }

  /** The table's invariant: keys below the auto-increment counter, id_number unique. */
  predicate WellFormed(db: Db)
  {
    (forall id :: id in db.users ==> id < db.nextId) &&
    (forall a, b :: a in db.users && b in db.users && db.users[a].idNumber == db.users[b].idNumber ==> a == b)
  }

  // ---- /register ----

  datatype RegisterError = EmptyIdNumber | ShortPassword | UnknownRole

  /** register's input checks, in the order the handler makes them. */
  function RegisterValidation(idNumber: string, password: string, role: string): Option<RegisterError>
  {
    if |idNumber| == 0 then Some(EmptyIdNumber)
    else if Text.Utf8Len(password) < MIN_PASSWORD then Some(ShortPassword)
    else if role != USER_ROLE && role != ADMIN_ROLE then Some(UnknownRole)
    else None
  }

  /** Each check reports only when the earlier ones passed, and the request passes exactly when all three hold. */
  lemma RegisterValidationOrder(idNumber: string, password: string, role: string)
    ensures RegisterValidation(idNumber, password, role) == Some(EmptyIdNumber) <==> idNumber == ""
    ensures RegisterValidation(idNumber, password, role) == Some(ShortPassword) <==> idNumber != "" && Text.Utf8Len(password) < MIN_PASSWORD
    ensures RegisterValidation(idNumber, password, role) == Some(UnknownRole) <==>
      idNumber != "" && Text.Utf8Len(password) >= MIN_PASSWORD && role !in {USER_ROLE, ADMIN_ROLE}
    ensures RegisterValidation(idNumber, password, role).None? <==>
      idNumber != "" && Text.Utf8Len(password) >= MIN_PASSWORD && role in {USER_ROLE, ADMIN_ROLE}
  {
  }

  /** DB.Create of a new row: it takes the next auto-increment id. */
  function Insert(db: Db, user: User): Db
  {
    db.(users := db.users[db.nextId := user], nextId := db.nextId + 1)
  }

  /**
   * /register: 422 when validation fails or the id_number is taken; 500
   * when hashing or the insert fails; otherwise a row with the hash and the
   * requested role and no age or gender.
   */
  function Register(db: Db, idNumber: string, password: string, role: string, hashed: Option<string>, createOk: bool): (o: Outcome)
    ensures o.status in {Server.OK, Server.UNPROCESSABLE, Server.INTERNAL_ERROR}
    ensures o.db.sensorData == db.sensorData && db.users.Keys <= o.db.users.Keys
  {
    if RegisterValidation(idNumber, password, role).Some? then Outcome(Server.UNPROCESSABLE, db)
    else if IdNumberTaken(db.users, idNumber) then Outcome(Server.UNPROCESSABLE, db)
    else if hashed.None? || !createOk then Outcome(Server.INTERNAL_ERROR, db)
    else Outcome(Server.OK, Insert(db, User(idNumber, hashed.value, None, None, role)))
  }

  /**
   * Registration succeeds exactly for a valid request with a free id_number;
   * it then adds one row under a fresh id with the hash and the role, keeps
   * every other row and keeps the table well formed. Otherwise nothing changes.
   */
  lemma RegisterSpec(db: Db, idNumber: string, password: string, role: string, hashed: Option<string>, createOk: bool)
    requires WellFormed(db)
    ensures var o := Register(db, idNumber, password, role, hashed, createOk);
      (o.status == Server.UNPROCESSABLE <==> RegisterValidation(idNumber, password, role).Some? || IdNumberTaken(db.users, idNumber)) &&
      (o.status == Server.OK ==>
        db.nextId !in db.users && o.db.users == db.users[db.nextId := User(idNumber, hashed.value, None, None, role)] &&
        role in {USER_ROLE, ADMIN_ROLE}) &&
      (o.status != Server.OK ==> o.db == db) &&
      WellFormed(o.db)
  {
    RegisterValidationOrder(idNumber, password, role);
    var o := Register(db, idNumber, password, role, hashed, createOk);
    if o.status == Server.OK {
      InsertWellFormed(db, User(idNumber, hashed.value, None, None, role));
    }
  }

  /** Inserting a row whose id_number no row has keeps the table well formed. */
  lemma InsertWellFormed(db: Db, user: User)
    requires WellFormed(db) && !IdNumberTaken(db.users, user.idNumber)
    ensures WellFormed(Insert(db, user))
    ensures db.nextId !in db.users
  {
    var d := Insert(db, user);
    forall a, b | a in d.users && b in d.users && d.users[a].idNumber == d.users[b].idNumber
      ensures a == b
    {
      if a != db.nextId && b != db.nextId {
        assert db.users[a].idNumber == db.users[b].idNumber;
      }
    }
  }

  // ---- /mydata ----

  /** DB.Where("user_id = ?").Find: the user's rows, in table order. */
  function RowsOf(rows: seq<SensorData>, userId: nat): seq<SensorData>
  {
    if |rows| == 0 then []
    else (if rows[0].userId == userId then [rows[0]] else []) + RowsOf(rows[1..], userId)
  }

  /** The rows found are exactly the table's rows of that user. */
  lemma {:induction false} RowsOfSpec(rows: seq<SensorData>, userId: nat, x: SensorData)
    ensures x in RowsOf(rows, userId) <==> x in rows && x.userId == userId
    ensures |RowsOf(rows, userId)| <= |rows|
  {
    if |rows| > 0 {
      RowsOfSpec(rows[1..], userId, x);
      assert rows == [rows[0]] + rows[1..];
    }
  }

  /**
   * /mydata for the user the token names: 500 on a query error; with no rows
   * the reply is 200 with data nil, otherwise 200 with the rows.
   */
  function MyData(db: Db, userId: nat, queryFails: bool): (r: (int, Option<seq<SensorData>>))
    ensures r.0 in {Server.OK, Server.INTERNAL_ERROR}
    ensures r.1.Some? ==> r.0 == Server.OK && |r.1.value| > 0
  {
    if queryFails then (Server.INTERNAL_ERROR, None)
    else
      var rows := RowsOf(db.sensorData, userId);
      if |rows| == 0 then (Server.OK, None) else (Server.OK, Some(rows))
  }

  /** The data is nil exactly when the user has no rows; otherwise it is the user's rows and only theirs. */
  lemma MyDataSpec(db: Db, userId: nat, x: SensorData)
    ensures var (status, data) := MyData(db, userId, false);
      status == Server.OK &&
      (data.None? <==> forall i :: 0 <= i < |db.sensorData| ==> db.sensorData[i].userId != userId) &&
      (data.Some? ==> (x in data.value <==> x in db.sensorData && x.userId == userId))
  {
    RowsOfSpec(db.sensorData, userId, x);
    var rows := RowsOf(db.sensorData, userId);
    if |rows| == 0 {
      forall i | 0 <= i < |db.sensorData|
        ensures db.sensorData[i].userId != userId
      {
        RowsOfSpec(db.sensorData, userId, db.sensorData[i]);
      }
    } else {
      RowsOfSpec(db.sensorData, userId, rows[0]);
    }
  }

  // ---- /admin/login ----

  /** The admin login's test: an admin row with that id_number whose stored password equals the submitted text. */
  predicate AdminPasswordMatches(db: Db, idNumber: string, password: string)
  {
    exists id :: id in db.users && db.users[id].idNumber == idNumber && db.users[id].role == ADMIN_ROLE &&
      db.users[id].password == password
  }

  /** /admin/login: 401 unless the stored password is the submitted text; 500 when the token cannot be made. */
  function AdminLogin(db: Db, idNumber: string, password: string, tokenOk: bool): (status: int)
    ensures status in {Server.OK, Server.UNAUTHORIZED, Server.INTERNAL_ERROR}
    ensures status != Server.UNAUTHORIZED <==> AdminPasswordMatches(db, idNumber, password)
  {
    if !AdminPasswordMatches(db, idNumber, password) then Server.UNAUTHORIZED
    else if !tokenOk then Server.INTERNAL_ERROR
    else Server.OK
  }

  /**
   * An admin who registered with a password whose hash differs from it can
   * never log in as admin with that password: the stored value is the hash.
   */
  lemma RegisteredAdminLockedOut(db: Db, idNumber: string, password: string, hashed: string, tokenOk: bool)
    requires WellFormed(db)
    requires Register(db, idNumber, password, ADMIN_ROLE, Some(hashed), true).status == Server.OK
    requires hashed != password
    ensures AdminLogin(Register(db, idNumber, password, ADMIN_ROLE, Some(hashed), true).db, idNumber, password, tokenOk)
      == Server.UNAUTHORIZED
  {
    RegisterSpec(db, idNumber, password, ADMIN_ROLE, Some(hashed), true);
  }

  // ---- admin users ----

  /**
   * /admin/users (POST): 403 unless the caller's role is "admin"; 422 for an
   * empty id_number or a password under six UTF-8 bytes; 409 for a taken
   * id_number; 500 when hashing or the insert fails; otherwise a row with
   * role "user" and the given (possibly nil) age and gender.
   */
  function AdminCreate(db: Db, role: string, idNumber: string, password: string, age: Option<int>, gender: Option<string>,
                       hashed: Option<string>, createOk: bool): (o: Outcome)
    ensures o.status in {Server.OK, Server.FORBIDDEN, Server.UNPROCESSABLE, Server.CONFLICT, Server.INTERNAL_ERROR}
    ensures o.db.sensorData == db.sensorData && db.users.Keys <= o.db.users.Keys
  {
    if role != ADMIN_ROLE then Outcome(Server.FORBIDDEN, db)
    else if |idNumber| == 0 || Text.Utf8Len(password) < MIN_PASSWORD then Outcome(Server.UNPROCESSABLE, db)
    else if IdNumberTaken(db.users, idNumber) then Outcome(Server.CONFLICT, db)
    else if hashed.None? || !createOk then Outcome(Server.INTERNAL_ERROR, db)
    else Outcome(Server.OK, Insert(db, User(idNumber, hashed.value, age, gender, USER_ROLE)))
  }

  /**
   * Only an admin creates users, only with a non-empty id_number and a
   * password of six or more, and the new row always has role "user".
   */
  lemma AdminCreateRules(db: Db, role: string, idNumber: string, password: string, age: Option<int>, gender: Option<string>,
                         hashed: Option<string>, createOk: bool)
    requires WellFormed(db)
    ensures var o := AdminCreate(db, role, idNumber, password, age, gender, hashed, createOk);
      (role != ADMIN_ROLE ==> o == Outcome(Server.FORBIDDEN, db)) &&
      (o.status == Server.OK <==>
        role == ADMIN_ROLE && idNumber != "" && Text.Utf8Len(password) >= MIN_PASSWORD && !IdNumberTaken(db.users, idNumber) &&
        hashed.Some? && createOk) &&
      (o.status == Server.OK ==> o.db.users == db.users[db.nextId := User(idNumber, hashed.value, age, gender, USER_ROLE)]) &&
      (o.status != Server.OK ==> o.db == db) &&
      WellFormed(o.db)
  {
    var o := AdminCreate(db, role, idNumber, password, age, gender, hashed, createOk);
    if o.status == Server.OK {
      InsertWellFormed(db, User(idNumber, hashed.value, age, gender, USER_ROLE));
    }
  }

  /**
   * The update handlers' write after the lookup: 404 when no row has the
   * id; id_number, age and gender are replaced by the request's values,
   * nil or empty included; DB.Save fails on the unique index when another
   * row holds the new id_number, or for any other reason when saveOk is false.
   */
  function OverwriteUser(db: Db, id: nat, idNumber: string, age: Option<int>, gender: Option<string>, saveOk: bool): (o: Outcome)
    ensures o.status in {Server.OK, Server.NOT_FOUND, Server.INTERNAL_ERROR}
    ensures o.db.users.Keys == db.users.Keys && o.db.nextId == db.nextId && o.db.sensorData == db.sensorData
  {
    if id !in db.users then Outcome(Server.NOT_FOUND, db)
    else
      var user := db.users[id].(idNumber := idNumber, age := age, gender := gender);
      if !saveOk || exists other :: other in db.users && other != id && db.users[other].idNumber == idNumber then
        Outcome(Server.INTERNAL_ERROR, db)
      else Outcome(Server.OK, db.(users := db.users[id := user]))
  }

  /** PUT /admin/users/:id: 403 unless admin, then the overwrite. */
  function AdminUpdate(db: Db, role: string, id: nat, idNumber: string, age: Option<int>, gender: Option<string>, saveOk: bool): (o: Outcome)
    ensures o.status in {Server.OK, Server.FORBIDDEN, Server.NOT_FOUND, Server.INTERNAL_ERROR}
    ensures o.db.users.Keys == db.users.Keys && o.db.nextId == db.nextId && o.db.sensorData == db.sensorData
  {
    if role != ADMIN_ROLE then Outcome(Server.FORBIDDEN, db) else OverwriteUser(db, id, idNumber, age, gender, saveOk)
  }

  /**
   * A successful overwrite sets exactly the three fields to the request's
   * values, so a nil age or gender clears the stored one; password and role
   * stay; no other row changes; the table stays well formed.
   */
  lemma OverwriteUserFields(db: Db, id: nat, idNumber: string, age: Option<int>, gender: Option<string>, saveOk: bool)
    requires WellFormed(db)
    ensures var o := OverwriteUser(db, id, idNumber, age, gender, saveOk);
      WellFormed(o.db) &&
      (o.status == Server.NOT_FOUND <==> id !in db.users) &&
      (o.status != Server.OK ==> o.db == db) &&
      (o.status == Server.OK ==>
        o.db.users.Keys == db.users.Keys &&
        o.db.users[id] == User(idNumber, db.users[id].password, age, gender, db.users[id].role) &&
        (forall k :: k in db.users && k != id ==> o.db.users[k] == db.users[k]))
  {
  }

  /** Only an admin can update, and for an admin the update is the overwrite. */
  lemma AdminUpdateRules(db: Db, role: string, id: nat, idNumber: string, age: Option<int>, gender: Option<string>, saveOk: bool)
    ensures role != ADMIN_ROLE ==> AdminUpdate(db, role, id, idNumber, age, gender, saveOk) == Outcome(Server.FORBIDDEN, db)
    ensures role == ADMIN_ROLE ==> AdminUpdate(db, role, id, idNumber, age, gender, saveOk) == OverwriteUser(db, id, idNumber, age, gender, saveOk)
  {
  }

  /** A request without age and gender wipes both columns of a row that had them. */
  lemma UpdateWithoutAgeClearsIt(db: Db, id: nat, idNumber: string, saveOk: bool)
    requires WellFormed(db) && id in db.users && db.users[id].age.Some?
    requires OverwriteUser(db, id, idNumber, None, None, saveOk).status == Server.OK
    ensures OverwriteUser(db, id, idNumber, None, None, saveOk).db.users[id].age.None?
    ensures OverwriteUser(db, id, idNumber, None, None, saveOk).db.users[id].gender.None?
  {
  }
}
