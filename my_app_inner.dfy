/**
 * The gin server of myapp/myapp/main.go. Its tables, its /register and the
 * write of its update handler are those of myapp/main.go (module MyApp);
 * what differs is modelled here: the program installs no authentication
 * middleware, its admin handlers check no role, its admin create checks no
 * lengths, and its admin login issues no token.
 */
module MyAppInner {
  import opened Wrappers
  import Server
  import MyApp

  /**
   * The user id /mydata finds in the gin context. No middleware of this
   * program stores "user_id", so the lookup never finds one.
   */
  const SESSION_USER: Option<nat> := None

  /** /mydata: 401 without a user id in the context; otherwise 500 on a query error or 200 with the user's rows. */
  function MyData(db: MyApp.Db, session: Option<nat>, queryFails: bool): (r: (int, Option<seq<MyApp.SensorData>>))
    ensures r.0 in {Server.OK, Server.UNAUTHORIZED, Server.INTERNAL_ERROR}
    ensures r.0 == Server.UNAUTHORIZED <==> session.None?
    ensures r.1.Some? <==> r.0 == Server.OK
  {
    if session.None? then (Server.UNAUTHORIZED, None)
    else if queryFails then (Server.INTERNAL_ERROR, None)
    else (Server.OK, Some(MyApp.RowsOf(db.sensorData, session.value)))
  }

  /** With a user id, the reply holds exactly that user's rows. */
  lemma MyDataRows(db: MyApp.Db, userId: nat, x: MyApp.SensorData)
    ensures var (status, data) := MyData(db, Some(userId), false);
      status == Server.OK && data.Some? && (x in data.value <==> x in db.sensorData && x.userId == userId)
  {
    MyApp.RowsOfSpec(db.sensorData, userId, x);
  }

  /** As the program is wired, /mydata answers 401 to every request. */
  lemma MyDataAlwaysUnauthorized(db: MyApp.Db, queryFails: bool)
    ensures MyData(db, SESSION_USER, queryFails) == (Server.UNAUTHORIZED, None)
  {
  }

  /** /admin/login: 200 exactly when an admin row with that id_number stores the submitted text itself. */
  function AdminLogin(db: MyApp.Db, idNumber: string, password: string): (status: int)
    ensures status == Server.OK <==> MyApp.AdminPasswordMatches(db, idNumber, password)
    ensures status != Server.OK ==> status == Server.UNAUTHORIZED
  {
    if !MyApp.AdminPasswordMatches(db, idNumber, password) then Server.UNAUTHORIZED else Server.OK
  }

  /** An admin registered through /register, whose row holds the hash, is refused with the password itself. */
  lemma RegisteredAdminRefused(db: MyApp.Db, idNumber: string, password: string, hashed: string)
    requires MyApp.WellFormed(db)
    requires MyApp.Register(db, idNumber, password, MyApp.ADMIN_ROLE, Some(hashed), true).status == Server.OK
    requires hashed != password
    ensures AdminLogin(MyApp.Register(db, idNumber, password, MyApp.ADMIN_ROLE, Some(hashed), true).db, idNumber, password)
      == Server.UNAUTHORIZED
  {
    MyApp.RegisterSpec(db, idNumber, password, MyApp.ADMIN_ROLE, Some(hashed), true);
  }

  /**
   * /admin/users (POST), open to every caller: 409 for a taken id_number,
   * 500 when hashing or the insert fails, otherwise a row with role "user".
   * Neither the id_number nor the password is checked.
   */
  function AdminCreate(db: MyApp.Db, idNumber: string, password: string, age: Option<int>, gender: Option<string>,
                       hashed: Option<string>, createOk: bool): (o: MyApp.Outcome)
    ensures o.status in {Server.OK, Server.CONFLICT, Server.INTERNAL_ERROR}
    ensures o.db.sensorData == db.sensorData && db.users.Keys <= o.db.users.Keys
  {
    if MyApp.IdNumberTaken(db.users, idNumber) then MyApp.Outcome(Server.CONFLICT, db)
    else if hashed.None? || !createOk then MyApp.Outcome(Server.INTERNAL_ERROR, db)
    else MyApp.Outcome(Server.OK, MyApp.Insert(db, MyApp.User(idNumber, hashed.value, age, gender, MyApp.USER_ROLE)))
  }

  /**
   * Creation succeeds exactly for a free id_number when hashing and the
   * insert succeed, whatever the id_number's or password's length; the row
   * gets role "user"; the table stays well formed.
   */
  lemma AdminCreateRules(db: MyApp.Db, idNumber: string, password: string, age: Option<int>, gender: Option<string>,
                         hashed: Option<string>, createOk: bool)
    requires MyApp.WellFormed(db)
    ensures var o := AdminCreate(db, idNumber, password, age, gender, hashed, createOk);
      (o.status == Server.OK <==> !MyApp.IdNumberTaken(db.users, idNumber) && hashed.Some? && createOk) &&
      (o.status == Server.OK ==>
        o.db.users == db.users[db.nextId := MyApp.User(idNumber, hashed.value, age, gender, MyApp.USER_ROLE)]) &&
      (o.status != Server.OK ==> o.db == db) &&
      MyApp.WellFormed(o.db)
  {
    var o := AdminCreate(db, idNumber, password, age, gender, hashed, createOk);
    if o.status == Server.OK {
      MyApp.InsertWellFormed(db, MyApp.User(idNumber, hashed.value, age, gender, MyApp.USER_ROLE));
    }
  }

  /** Unlike myapp/main.go, an empty id_number with a one-character password is accepted. */
  lemma AdminCreateShortPassword(db: MyApp.Db, hashed: string)
    requires MyApp.WellFormed(db) && !MyApp.IdNumberTaken(db.users, "")
    ensures AdminCreate(db, "", "x", None, None, Some(hashed), true).status == Server.OK
    ensures MyApp.AdminCreate(db, MyApp.ADMIN_ROLE, "", "x", None, None, Some(hashed), true).status == Server.UNPROCESSABLE
  {
  }
}
