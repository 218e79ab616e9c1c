/**
 * The gin server of main.go: sample-id parsing, channel categories, the age
 * computation, the Bearer check of authMiddleware, and the decisions of the
 * register, update-info, bind, get_user, collect/data and admin user handlers.
 *
 * The database is a value: each table is a map keyed by the column the
 * handlers look rows up by. A handler is a function from the database (and
 * the request) to its HTTP status and the database after the writes it made.
 * What gorm, bcrypt, jwt and uuid would return is passed in: a fresh uuid, a
 * password hash (None when hashing fails), whether a lookup fails with a
 * database error, whether a write succeeds.
 */
module Server {
  import opened Wrappers
  import opened Text

  // HTTP status codes.
  const OK: int := 200
  const BAD_REQUEST: int := 400
  const UNAUTHORIZED: int := 401
  const FORBIDDEN: int := 403
  const NOT_FOUND: int := 404
  const CONFLICT: int := 409
  const UNPROCESSABLE: int := 422
  const INTERNAL_ERROR: int := 500

  // ---- sample ids ----

  /** parseDeviceID: the text before the first '-', or an error when there is no '-'. */
  function ParseDeviceID(sampleId: string): (r: Option<string>)
    ensures r.Some? <==> Count(sampleId, '-') >= 1
  {
    SplitCount(sampleId, '-');
    var parts := Split(sampleId, '-');
    if |parts| < 2 then None else Some(parts[0])
  }

  /** A device id is found exactly when the id holds a '-', and it is the dash-free text before the first one. */
  lemma ParseDeviceIDSpec(sampleId: string)
    ensures ParseDeviceID(sampleId).Some? <==> '-' in sampleId
    ensures ParseDeviceID(sampleId).Some? ==>
      ParseDeviceID(sampleId).value == sampleId[..Find(sampleId, '-')] && '-' !in ParseDeviceID(sampleId).value
  {
    FindSpec(sampleId, '-');
    var k := Find(sampleId, '-');
    var parts := Split(sampleId, '-');
    if k == -1 {
      assert parts == [sampleId];
    } else {
      var rest := Split(sampleId[k + 1..], '-');
      assert parts == [sampleId[..k]] + rest;
      assert |parts| >= 2 && parts[0] == sampleId[..k];
    }
  }

  /** isValidSampleID: any non-empty id. */
  function IsValidSampleID(sampleId: string): (r: bool)
    ensures r <==> sampleId != ""
  {
    |sampleId| > 0
  }

  /** The text parseSampleID hands to time.Parse: "p1-p2-p3 p4:p5:p6". */
  function StampOf(parts: seq<string>): string
    requires |parts| >= 7
  {
    parts[1] + "-" + parts[2] + "-" + parts[3] + " " + parts[4] + ":" + parts[5] + ":" + parts[6]
  }

  /** parseSampleID up to the time stamp text: the device id and the stamp, or an error below eight parts. */
  function ParseSampleID(sampleId: string): (r: Option<(string, string)>)
    ensures r.Some? ==> ParseDeviceID(sampleId) == Some(r.value.0)
  {
    var parts := Split(sampleId, '-');
    if |parts| < 8 then None else Some((parts[0], StampOf(parts)))
  }

  /** An id is accepted exactly when it holds at least seven dashes. */
  lemma ParseSampleIDCount(sampleId: string)
    ensures ParseSampleID(sampleId).Some? <==> Count(sampleId, '-') >= 7
  {
    SplitCount(sampleId, '-');
  }

  /** Joined dash-free parts, eight or more, parse back to the first part and the stamp of the next six. */
  lemma ParseSampleIDOfParts(parts: seq<string>)
    requires |parts| >= 8
    requires forall i :: 0 <= i < |parts| ==> '-' !in parts[i]
    ensures ParseSampleID(Join(parts, '-')) == Some((parts[0], StampOf(parts)))
  {
    SplitJoin(parts, '-');
  }

  /** Joined dash-free parts, fewer than eight, are rejected. */
  lemma ParseSampleIDTooFew(parts: seq<string>)
    requires 1 <= |parts| < 8
    requires forall i :: 0 <= i < |parts| ==> '-' !in parts[i]
    ensures ParseSampleID(Join(parts, '-')) == None
  {
    SplitJoin(parts, '-');
  }

  // ---- categories ----

  /** getCategoryByChannel. */
  function CategoryByChannel(channelId: int): (r: Option<string>)
    ensures r.Some? ==> ChannelOfCategory(r.value) == Some(channelId)
  {
    match channelId
    case 0 => Some("type1")
    case 1 => Some("type2")
    case 3 => Some("type3")
    case 5 => Some("type4")
    case 7 => Some("type5")
    case _ => None
  }

  /** The channel a category belongs to: the reverse reading of getCategoryByChannel's table. */
  function ChannelOfCategory(category: string): Option<int>
  {
    if category == "type1" then Some(0)
    else if category == "type2" then Some(1)
    else if category == "type3" then Some(3)
    else if category == "type4" then Some(5)
    else if category == "type5" then Some(7)
    else None
  }

  /** Exactly channels 0, 1, 3, 5 and 7 have a category, and the category names its channel back. */
  lemma CategoryRoundTrip(channelId: int)
    ensures CategoryByChannel(channelId).Some? <==> channelId in {0, 1, 3, 5, 7}
    ensures CategoryByChannel(channelId).Some? ==> ChannelOfCategory(CategoryByChannel(channelId).value) == Some(channelId)
  {
  }

  /** Every category the table names comes from exactly one channel. */
  lemma CategoryOfChannel(category: string)
    ensures ChannelOfCategory(category).Some? ==> CategoryByChannel(ChannelOfCategory(category).value) == Some(category)
  {
  }

  // ---- dates and ages ----

  /** A calendar date of the proleptic Gregorian calendar Go's time package uses. */
  datatype Date = Date(year: int, month: int, day: int)

  predicate IsLeap(y: int) { y % 4 == 0 && (y % 100 != 0 || y % 400 == 0) }

  function DaysIn(y: int, m: int): int
  {
    if m == 2 then (if IsLeap(y) then 29 else 28)
    else if m == 4 || m == 6 || m == 9 || m == 11 then 30
    else 31
  }

  predicate ValidDate(d: Date) { 1 <= d.month <= 12 && 1 <= d.day <= DaysIn(d.year, d.month) }

  /** Days of year y before the first of month m. */
  function DaysBefore(y: int, m: int): int
  {
    var leap := if IsLeap(y) && m > 2 then 1 else 0;
    leap +
      (if m <= 1 then 0 else if m == 2 then 31 else if m == 3 then 59 else if m == 4 then 90
       else if m == 5 then 120 else if m == 6 then 151 else if m == 7 then 181 else if m == 8 then 212
       else if m == 9 then 243 else if m == 10 then 273 else if m == 11 then 304 else 334)
  }

  /** time.Time.YearDay: 1 on January 1st, up to 365 or 366. */
  function YearDay(d: Date): int { DaysBefore(d.year, d.month) + d.day }

  /** Month and day of a come strictly before those of b. */
  predicate EarlierInYear(a: Date, b: Date) { a.month < b.month || (a.month == b.month && a.day < b.day) }

  /** calculateAge as written: the year difference, less one while today's YearDay is below the birth date's. */
  function CalculateAgeAsWritten(birth: Date, today: Date): (age: int)
    ensures today.year - birth.year - 1 <= age <= today.year - birth.year
  {
    today.year - birth.year - (if YearDay(today) < YearDay(birth) then 1 else 0)
  }

  /** The age calculateAge's comment describes: less one while this year's birthday is still ahead. */
  function CalculateAge(birth: Date, today: Date): int
  {
    today.year - birth.year - (if EarlierInYear(today, birth) then 1 else 0)
  }

  /** The n-th birthday after birth falls on or before today. */
  predicate BirthdayReached(birth: Date, n: int, today: Date)
  {
    birth.year + n < today.year || (birth.year + n == today.year && !EarlierInYear(today, birth))
  }

  /** The age is the number of birthdays reached: birthday number age is reached and the next one is not. */
  lemma CalculateAgeCounts(birth: Date, today: Date)
    ensures BirthdayReached(birth, CalculateAge(birth, today), today)
    ensures !BirthdayReached(birth, CalculateAge(birth, today) + 1, today)
  {
  }

  /** Someone born on 1 March 2000 is one year old on 1 March 2001; the YearDay test says 0 (2000 is a leap year). */
  lemma CalculateAgeLeapYear()
    ensures ValidDate(Date(2000, 3, 1)) && ValidDate(Date(2001, 3, 1))
    ensures CalculateAgeAsWritten(Date(2000, 3, 1), Date(2001, 3, 1)) == 0
    ensures CalculateAge(Date(2000, 3, 1), Date(2001, 3, 1)) == 1
  {
    assert IsLeap(2000) && !IsLeap(2001);
  }

  /** Within years of the same kind, YearDay orders dates by month and day. */
  lemma YearDayOrder(a: Date, b: Date)
    requires ValidDate(a) && ValidDate(b) && IsLeap(a.year) == IsLeap(b.year)
    ensures YearDay(a) < YearDay(b) <==> EarlierInYear(a, b)
  {
  }

  /** The two readings agree whenever the birth year and this year are both leap years or both are not. */
  lemma CalculateAgeAgrees(birth: Date, today: Date)
    requires ValidDate(birth) && ValidDate(today) && IsLeap(birth.year) == IsLeap(today.year)
    ensures CalculateAgeAsWritten(birth, today) == CalculateAge(birth, today)
  {
    YearDayOrder(today, birth);
  }

  // ---- authMiddleware ----

  const BEARER: string := "Bearer "

  /**
   * authMiddleware's two header checks: an empty header and a header that
   * strings.TrimPrefix leaves unchanged are refused; otherwise the token is
   * what follows the prefix.
   */
  function BearerToken(header: string): (r: Option<string>)
    ensures r.Some? ==> StartsWith(header, BEARER) && BEARER + r.value == header
  {
    if header == "" then None
    else
      var token := TrimPrefix(header, BEARER);
      if token == header then None else Some(token)
  }

  /** The header carries token t exactly when it is "Bearer " followed by t. */
  lemma BearerTokenSpec(header: string, token: string)
    ensures BearerToken(header) == Some(token) <==> header == BEARER + token
  {
    if header == BEARER + token {
      assert StartsWith(header, BEARER);
      assert |TrimPrefix(header, BEARER)| < |header|;
      assert header[|BEARER|..] == token;
    }
  }

  /** A header without the exact prefix is refused. */
  lemma BearerTokenRefused(header: string)
    ensures BearerToken(header).None? <==> !StartsWith(header, BEARER)
  {
    if StartsWith(header, BEARER) {
      assert |TrimPrefix(header, BEARER)| < |header|;
    }
  }

  /** The claims the token carries. */
  datatype Claims = Claims(userUuid: string, role: string)

  /**
   * authMiddleware: None (401) unless the header carries a bearer token that
   * verify (jwt.ParseWithClaims with its validity check) accepts.
   */
  function Authenticate<C>(header: string, verify: string -> Option<C>): (r: Option<C>)
    ensures r.Some? ==> StartsWith(header, BEARER) && r == verify(header[|BEARER|..])
    ensures !StartsWith(header, BEARER) ==> r.None?
  {
    BearerTokenRefused(header);
    match BearerToken(header)
    case None => None
    case Some(token) =>
      BearerTokenSpec(header, token);
      assert header[|BEARER|..] == token;
      verify(token)
  }

  // ---- tables ----

  datatype User = User(userUuid: string, userId: string, username: string, gender: string,
                       birthdate: Option<Date>, age: int, createdAt: int, firstVisit: int)

  datatype Auth = Auth(authUuid: string, userUuid: string, password: string, role: string)

  datatype Sample = Sample(sampleUuid: string, userUuid: string, sampleId: string, deviceId: string,
                           timestamp: int, data: seq<bv8>, category: string)

  /** users keyed by user_id, auth keyed by user_uuid, samples keyed by sample_id. */
  datatype Db = Db(users: map<string, User>, auths: map<string, Auth>, samples: map<string, Sample>)

  /** A handler's status and the database after it. */
  datatype Outcome = Outcome(status: int, db: Db)

  /** The uuids generateUUID would return for the new rows. */
  datatype FreshIds = FreshIds(userUuid: string, authUuid: string)

  const DEFAULT_ROLE: string := "user"
  const ADMIN_ROLE: string := "admin"
  const MIN_PASSWORD: nat := 6
  const UNKNOWN_CATEGORY: string := "unknown"

  // ---- /register ----

  /**
   * /register: 422 for an empty user id, a password under six UTF-8 bytes or
   * a taken user id; 500 and no change when hashing fails or either insert of
   * the transaction fails (the transaction is rolled back). Otherwise a User
   * and an Auth with role "user" are inserted and the transaction committed;
   * the commit's result is not checked, so the answer is 200 even when the
   * commit fails and nothing was stored.
   */
  function Register(db: Db, userId: string, password: string, hashed: Option<string>,
                    ids: FreshIds, now: int, createOk: bool, commitOk: bool): (o: Outcome)
    ensures o.status in {OK, UNPROCESSABLE, INTERNAL_ERROR}
    ensures o.db.users.Keys <= db.users.Keys + {userId} && o.db.samples == db.samples
  {
    if |userId| == 0 then Outcome(UNPROCESSABLE, db)
    else if Utf8Len(password) < MIN_PASSWORD then Outcome(UNPROCESSABLE, db)
    else if userId in db.users then Outcome(UNPROCESSABLE, db)
    else if hashed.None? then Outcome(INTERNAL_ERROR, db)
    else if !createOk then Outcome(INTERNAL_ERROR, db)
    else if !commitOk then Outcome(OK, db)
    else
      var user := User(ids.userUuid, userId, "", "", None, 0, now, now);
      var auth := Auth(ids.authUuid, ids.userUuid, hashed.value, DEFAULT_ROLE);
      Outcome(OK, db.(users := db.users[userId := user], auths := db.auths[ids.userUuid := auth]))
  }

  /** Registration is refused with 422 exactly on an empty id, a short password or a taken id, and then changes nothing. */
  lemma RegisterRefuses(db: Db, userId: string, password: string, hashed: Option<string>, ids: FreshIds, now: int,
                        createOk: bool, commitOk: bool)
    ensures var o := Register(db, userId, password, hashed, ids, now, createOk, commitOk);
      (o.status == UNPROCESSABLE <==> userId == "" || Utf8Len(password) < MIN_PASSWORD || userId in db.users) &&
      (o.status == OK <==> userId != "" && Utf8Len(password) >= MIN_PASSWORD && userId !in db.users && hashed.Some? && createOk) &&
      (o.status != OK ==> o.db == db)
  {
  }

  /**
   * A successful registration whose commit goes through adds exactly one user
   * and one auth row with role "user", and no other row changes; one whose
   * commit fails is still answered 200 and stores nothing.
   */
  lemma RegisterCreates(db: Db, userId: string, password: string, hashed: Option<string>, ids: FreshIds, now: int,
                        createOk: bool, commitOk: bool)
    requires Register(db, userId, password, hashed, ids, now, createOk, commitOk).status == OK
    ensures var d := Register(db, userId, password, hashed, ids, now, createOk, commitOk).db;
      userId !in db.users &&
      (!commitOk ==> d == db) &&
      (commitOk ==>
        d.users.Keys == db.users.Keys + {userId} &&
        d.users[userId].userId == userId && d.users[userId].userUuid == ids.userUuid &&
        d.auths[ids.userUuid].role == DEFAULT_ROLE && d.auths[ids.userUuid].password == hashed.value &&
        (forall k :: k in db.users && k != userId ==> d.users[k] == db.users[k]) &&
        d.samples == db.samples)
  {
  }

  /** Registering the same id a second time, after a committed registration, is refused. */
  lemma RegisterTwice(db: Db, userId: string, password: string, hashed: Option<string>, ids: FreshIds, now: int,
                      password2: string, hashed2: Option<string>, ids2: FreshIds, now2: int, createOk2: bool, commitOk2: bool)
    requires Register(db, userId, password, hashed, ids, now, true, true).status == OK
    ensures Register(Register(db, userId, password, hashed, ids, now, true, true).db, userId, password2, hashed2, ids2, now2,
                     createOk2, commitOk2).status == UNPROCESSABLE
  {
  }

  /** len counts bytes: a password of three two-byte letters is six long to the length check. */
  lemma RegisterCountsBytes(db: Db, hashed: string, ids: FreshIds, now: int)
    requires "u" !in db.users
    ensures |"\U{E9}\U{E9}\U{E9}"| == 3 < MIN_PASSWORD
    ensures Register(db, "u", "\U{E9}\U{E9}\U{E9}", Some(hashed), ids, now, true, true).status == OK
  {
    var p := "\U{E9}\U{E9}\U{E9}";
    assert Utf8Len(p[2..]) == 2;
    assert Utf8Len(p[1..]) == 4;
  }

  // ---- /update-info ----

  /** What DB.First found. */
  datatype Lookup<T> = Found(row: T) | Missing | DbError

  /**
   * /update-info for the user the token names: 400 when the birth date does
   * not parse, 500 when the user cannot be read or saved; otherwise name,
   * gender and birth date are overwritten and the age recomputed. The saved
   * row is returned.
   */
  function UpdateInfo(user: Lookup<User>, username: string, gender: string, birthdate: Option<Date>,
                      today: Date, saveOk: bool): (r: (int, Option<User>))
    ensures r.0 in {OK, BAD_REQUEST, INTERNAL_ERROR}
    ensures r.1.Some? <==> r.0 == OK
  {
    if birthdate.None? then (BAD_REQUEST, None)
    else if !user.Found? then (INTERNAL_ERROR, None)
    else
      var u := user.row.(username := username, gender := gender, birthdate := birthdate,
                         age := CalculateAgeAsWritten(birthdate.value, today));
      if !saveOk then (INTERNAL_ERROR, None) else (OK, Some(u))
  }

  /**
   * An update overwrites the three submitted fields, stores calculateAge as
   * written for the birth date and keeps every other field. The stored age
   * counts the birthdays reached whenever the birth year and this year are
   * both leap years or both are not.
   */
  lemma UpdateInfoFields(u: User, username: string, gender: string, birth: Date, today: Date)
    ensures var (status, saved) := UpdateInfo(Found(u), username, gender, Some(birth), today, true);
      status == OK && saved.Some? &&
      saved.value.username == username && saved.value.gender == gender && saved.value.birthdate == Some(birth) &&
      saved.value.age == CalculateAgeAsWritten(birth, today) &&
      saved.value.userUuid == u.userUuid && saved.value.userId == u.userId && saved.value.createdAt == u.createdAt
    ensures ValidDate(birth) && ValidDate(today) && IsLeap(birth.year) == IsLeap(today.year) ==>
      var saved := UpdateInfo(Found(u), username, gender, Some(birth), today, true).1.value;
      BirthdayReached(birth, saved.age, today) && !BirthdayReached(birth, saved.age + 1, today)
  {
    if ValidDate(birth) && ValidDate(today) && IsLeap(birth.year) == IsLeap(today.year) {
      CalculateAgeAgrees(birth, today);
      CalculateAgeCounts(birth, today);
    }
  }

  /** Born 1 March 2000, an update made on 1 March 2001 stores age 0, one birthday short. */
  lemma UpdateInfoLeapYearAge(u: User, username: string, gender: string)
    ensures var saved := UpdateInfo(Found(u), username, gender, Some(Date(2000, 3, 1)), Date(2001, 3, 1), true).1;
      saved.Some? && saved.value.age == 0 && BirthdayReached(Date(2000, 3, 1), 1, Date(2001, 3, 1))
  {
    CalculateAgeLeapYear();
  }

  // ---- /client/bind ----

  /**
   * /client/bind: binds the trimmed sample id to the caller. 400 for an
   * empty id or one without '-'; an existing sample owned by someone else
   * gives 409, one owned by the caller 200 without change, an unowned one is
   * assigned to the caller; a missing one is created with the device id and
   * category "unknown". A lookup error other than "not found" gives 500.
   */
  function Bind(db: Db, rawSampleId: string, caller: string, sampleUuid: string, lookupFails: bool, writeOk: bool): (o: Outcome)
    ensures o.status in {OK, BAD_REQUEST, CONFLICT, INTERNAL_ERROR}
    ensures o.status != OK ==> o.db == db
    ensures o.db.users == db.users && o.db.auths == db.auths
  {
    var sampleId := Trim(rawSampleId);
    if sampleId == "" then Outcome(BAD_REQUEST, db)
    else if !IsValidSampleID(sampleId) then Outcome(BAD_REQUEST, db)
    else
      var deviceId := ParseDeviceID(sampleId);
      if deviceId.None? then Outcome(BAD_REQUEST, db)
      else if lookupFails then Outcome(INTERNAL_ERROR, db)
      else if sampleId in db.samples then
        var existing := db.samples[sampleId];
        if existing.userUuid != "" && existing.userUuid != caller then Outcome(CONFLICT, db)
        else if existing.userUuid == caller then Outcome(OK, db)
        else if !writeOk then Outcome(INTERNAL_ERROR, db)
        else Outcome(OK, db.(samples := db.samples[sampleId := existing.(userUuid := caller)]))
      else if !writeOk then Outcome(INTERNAL_ERROR, db)
      else
        var sample := Sample(sampleUuid, caller, sampleId, deviceId.value, 0, [], UNKNOWN_CATEGORY);
        Outcome(OK, db.(samples := db.samples[sampleId := sample]))
  }

  /** A sample bound to another user is never taken over: the answer is 409 and nothing changes. */
  lemma BindNeverSteals(db: Db, rawSampleId: string, caller: string, sampleUuid: string, writeOk: bool)
    requires var id := Trim(rawSampleId);
      id in db.samples && '-' in id && db.samples[id].userUuid != "" && db.samples[id].userUuid != caller
    ensures Bind(db, rawSampleId, caller, sampleUuid, false, writeOk) == Outcome(CONFLICT, db)
  {
    ParseDeviceIDSpec(Trim(rawSampleId));
  }

  /**
   * After a successful bind the sample belongs to the caller; a new sample
   * carries the device id and category "unknown"; no other sample changes
   * and users and auth rows are untouched.
   */
  lemma BindOwns(db: Db, rawSampleId: string, caller: string, sampleUuid: string, lookupFails: bool, writeOk: bool)
    requires Bind(db, rawSampleId, caller, sampleUuid, lookupFails, writeOk).status == OK
    ensures var id, d := Trim(rawSampleId), Bind(db, rawSampleId, caller, sampleUuid, lookupFails, writeOk).db;
      id in d.samples && d.samples[id].userUuid == caller &&
      (id !in db.samples ==> d.samples[id].deviceId == id[..Find(id, '-')] && d.samples[id].category == UNKNOWN_CATEGORY) &&
      (forall k :: k in db.samples && k != id ==> k in d.samples && d.samples[k] == db.samples[k]) &&
      d.samples.Keys == db.samples.Keys + {id} && d.users == db.users && d.auths == db.auths
  {
    ParseDeviceIDSpec(Trim(rawSampleId));
  }

  /** Binding again after a successful bind answers 200 and changes nothing. */
  lemma BindIdempotent(db: Db, rawSampleId: string, caller: string, sampleUuid: string, writeOk: bool,
                       sampleUuid2: string, writeOk2: bool)
    requires Bind(db, rawSampleId, caller, sampleUuid, false, writeOk).status == OK
    ensures var d := Bind(db, rawSampleId, caller, sampleUuid, false, writeOk).db;
      Bind(d, rawSampleId, caller, sampleUuid2, false, writeOk2) == Outcome(OK, d)
  {
    BindOwns(db, rawSampleId, caller, sampleUuid, false, writeOk);
  }

  // ---- /collect/get_user ----

  /** gin's c.Query: the value of the key, or "" when the query lacks it. */
  function QueryValue(query: map<string, string>, key: string): string
  {
    if key in query then query[key] else ""
  }

  /**
   * /collect/get_user: the owner of the sample named by the trimmed
   * "sample_id" query value. 400 when it is empty, 404 when the sample is
   * missing, 500 on a lookup error, 409 while no user is bound.
   */
  function GetUser(db: Db, query: map<string, string>, lookupFails: bool): (r: (int, Option<string>))
    ensures r.0 in {OK, BAD_REQUEST, NOT_FOUND, CONFLICT, INTERNAL_ERROR}
    ensures r.1.Some? <==> r.0 == OK
  {
    var sampleId := Trim(QueryValue(query, "sample_id"));
    if sampleId == "" then (BAD_REQUEST, None)
    else if lookupFails then (INTERNAL_ERROR, None)
    else if sampleId !in db.samples then (NOT_FOUND, None)
    else if db.samples[sampleId].userUuid == "" then (CONFLICT, None)
    else (OK, Some(db.samples[sampleId].userUuid))
  }

  /** The uuid is returned exactly for a bound sample, and it is that sample's owner. */
  lemma GetUserSpec(db: Db, query: map<string, string>)
    ensures var id, r := Trim(QueryValue(query, "sample_id")), GetUser(db, query, false);
      (r.0 == OK <==> id != "" && id in db.samples && db.samples[id].userUuid != "") &&
      (r.0 == OK ==> r.1 == Some(db.samples[id].userUuid)) &&
      (r.0 != OK ==> r.1.None?)
  {
  }

  /** After a user binds a sample, get_user with that sample id names that user. */
  lemma BindThenGetUser(db: Db, rawSampleId: string, caller: string, sampleUuid: string, writeOk: bool)
    requires caller != ""
    requires Bind(db, rawSampleId, caller, sampleUuid, false, writeOk).status == OK
    ensures GetUser(Bind(db, rawSampleId, caller, sampleUuid, false, writeOk).db, map["sample_id" := rawSampleId], false)
      == (OK, Some(caller))
  {
    BindOwns(db, rawSampleId, caller, sampleUuid, false, writeOk);
    TrimIdempotent(rawSampleId);
  }

  // ---- /collect/data ----

  /**
   * /collect/data: 400 when the trimmed sample id or user uuid is empty or
   * there is no data, 404 / 500 when the sample cannot be found, 403 when the
   * uuid is not the sample's owner; otherwise data and time stamp are saved.
   */
  function CollectData(db: Db, rawSampleId: string, rawUserUuid: string, data: seq<bv8>, now: int,
                       lookupFails: bool, writeOk: bool): (o: Outcome)
    ensures o.status in {OK, BAD_REQUEST, NOT_FOUND, FORBIDDEN, INTERNAL_ERROR}
    ensures o.db.users == db.users && o.db.auths == db.auths && o.db.samples.Keys == db.samples.Keys
  {
    var sampleId := Trim(rawSampleId);
    var userUuid := Trim(rawUserUuid);
    if sampleId == "" || userUuid == "" || |data| == 0 then Outcome(BAD_REQUEST, db)
    else if lookupFails then Outcome(INTERNAL_ERROR, db)
    else if sampleId !in db.samples then Outcome(NOT_FOUND, db)
    else if db.samples[sampleId].userUuid != userUuid then Outcome(FORBIDDEN, db)
    else if !writeOk then Outcome(INTERNAL_ERROR, db)
    else Outcome(OK, db.(samples := db.samples[sampleId := db.samples[sampleId].(data := data, timestamp := now)]))
  }

  /**
   * Data is stored only for the sample's owner: a new upload is accepted
   * exactly when every field is present, the sample exists and the uuid owns
   * it, and then only that sample's data and time stamp change.
   */
  lemma CollectDataOwnerOnly(db: Db, rawSampleId: string, rawUserUuid: string, data: seq<bv8>, now: int)
    ensures var id, uuid, o := Trim(rawSampleId), Trim(rawUserUuid), CollectData(db, rawSampleId, rawUserUuid, data, now, false, true);
      (o.status == OK <==> id != "" && uuid != "" && |data| > 0 && id in db.samples && db.samples[id].userUuid == uuid) &&
      (o.status == FORBIDDEN <==> id != "" && uuid != "" && |data| > 0 && id in db.samples && db.samples[id].userUuid != uuid) &&
      (o.status == OK ==> o.db.samples == db.samples[id := db.samples[id].(data := data, timestamp := now)] &&
                          o.db.users == db.users && o.db.auths == db.auths) &&
      (o.status != OK ==> o.db == db)
  {
  }

  /** The collection round: bind, ask get_user for the owner, submit with that uuid; the data ends up in the sample. */
  lemma BindGetUserCollect(db: Db, sampleId: string, caller: string, sampleUuid: string, data: seq<bv8>, now: int)
    requires Trim(sampleId) == sampleId && Trim(caller) == caller && caller != "" && |data| > 0
    requires Bind(db, sampleId, caller, sampleUuid, false, true).status == OK
    ensures var d := Bind(db, sampleId, caller, sampleUuid, false, true).db;
      var owner := GetUser(d, map["sample_id" := sampleId], false).1;
      owner == Some(caller) &&
      var o := CollectData(d, sampleId, owner.value, data, now, false, true);
      o.status == OK && o.db.samples[sampleId].data == data && o.db.samples[sampleId].userUuid == caller
  {
    BindThenGetUser(db, sampleId, caller, sampleUuid, true);
    BindOwns(db, sampleId, caller, sampleUuid, false, true);
  }

  // ---- admin user handlers ----

  /**
   * POST /admin/users: 403 unless the token's role is "admin"; 422 for an
   * empty user id or a password under six UTF-8 bytes; 409 for a taken user
   * id; otherwise an Auth row (role "user") and then a User row with the
   * optional age and gender are created. The two writes are separate: when the
   * second fails the first stays.
   */
  function AdminCreate(db: Db, role: string, userId: string, password: string, age: Option<int>, gender: Option<string>,
                       hashed: Option<string>, ids: FreshIds, now: int, authWriteOk: bool, userWriteOk: bool): (o: Outcome)
    ensures o.status in {OK, FORBIDDEN, UNPROCESSABLE, CONFLICT, INTERNAL_ERROR}
    ensures o.db.users.Keys <= db.users.Keys + {userId} && o.db.samples == db.samples
  {
    if role != ADMIN_ROLE then Outcome(FORBIDDEN, db)
    else if |userId| == 0 || Utf8Len(password) < MIN_PASSWORD then Outcome(UNPROCESSABLE, db)
    else if userId in db.users then Outcome(CONFLICT, db)
    else if hashed.None? then Outcome(INTERNAL_ERROR, db)
    else
      var auth := Auth(ids.authUuid, ids.userUuid, hashed.value, DEFAULT_ROLE);
      var user := User(ids.userUuid, userId, "", if gender.Some? then gender.value else "", None,
                       if age.Some? then age.value else 0, now, now);
      if !authWriteOk then Outcome(INTERNAL_ERROR, db)
      else
        var withAuth := db.(auths := db.auths[ids.userUuid := auth]);
        if !userWriteOk then Outcome(INTERNAL_ERROR, withAuth)
        else Outcome(OK, withAuth.(users := db.users[userId := user]))
  }

  /**
   * Only an admin token creates users, only with a non-empty id and a
   * password of six or more, and the new user always has role "user", age 0
   * and gender "" unless given.
   */
  lemma AdminCreateRules(db: Db, role: string, userId: string, password: string, age: Option<int>, gender: Option<string>,
                         hashed: Option<string>, ids: FreshIds, now: int, authWriteOk: bool, userWriteOk: bool)
    ensures var o := AdminCreate(db, role, userId, password, age, gender, hashed, ids, now, authWriteOk, userWriteOk);
      (role != ADMIN_ROLE ==> o == Outcome(FORBIDDEN, db)) &&
      (o.status == OK ==>
        role == ADMIN_ROLE && userId != "" && Utf8Len(password) >= MIN_PASSWORD && userId !in db.users &&
        o.db.auths[ids.userUuid].role == DEFAULT_ROLE && o.db.users[userId].userUuid == ids.userUuid &&
        o.db.users[userId].age == (if age.Some? then age.value else 0) &&
        o.db.users[userId].gender == (if gender.Some? then gender.value else ""))
  {
  }

  /** When the user row cannot be written, the auth row already written stays behind with no user. */
  lemma AdminCreateLeavesAuth(db: Db, userId: string, password: string, age: Option<int>, gender: Option<string>,
                              hashed: string, ids: FreshIds, now: int)
    requires userId != "" && Utf8Len(password) >= MIN_PASSWORD && userId !in db.users
    ensures var o := AdminCreate(db, ADMIN_ROLE, userId, password, age, gender, Some(hashed), ids, now, true, false);
      o.status == INTERNAL_ERROR && ids.userUuid in o.db.auths && userId !in o.db.users
  {
  }

  /**
   * PUT /admin/users/:user_id: 403 unless admin; 404 when no user has the
   * path's user id; 500 when the user's auth row is missing. A non-empty
   * password replaces the hash, and the auth row is saved; then age and
   * gender are replaced only when given, and the user row is saved. The user
   * id in the body is never used.
   */
  function AdminUpdate(db: Db, role: string, pathUserId: string, password: string, age: Option<int>, gender: Option<string>,
                       hashed: Option<string>, authWriteOk: bool, userWriteOk: bool): (o: Outcome)
    ensures o.status in {OK, FORBIDDEN, NOT_FOUND, INTERNAL_ERROR}
    ensures o.db.users.Keys == db.users.Keys && o.db.samples == db.samples
  {
    if role != ADMIN_ROLE then Outcome(FORBIDDEN, db)
    else if pathUserId !in db.users then Outcome(NOT_FOUND, db)
    else
      var user := db.users[pathUserId];
      if user.userUuid !in db.auths then Outcome(INTERNAL_ERROR, db)
      else
        var auth := db.auths[user.userUuid];
        if password != "" && hashed.None? then Outcome(INTERNAL_ERROR, db)
        else
          var auth2 := if password != "" then auth.(password := hashed.value) else auth;
          if !authWriteOk then Outcome(INTERNAL_ERROR, db)
          else
            var withAuth := db.(auths := db.auths[user.userUuid := auth2]);
            var user2 := user.(age := if age.Some? then age.value else user.age,
                               gender := if gender.Some? then gender.value else user.gender);
            if !userWriteOk then Outcome(INTERNAL_ERROR, withAuth)
            else Outcome(OK, withAuth.(users := db.users[pathUserId := user2]))
  }

  /**
   * The field rules of a successful admin update: absent fields keep their
   * values, an empty password keeps the hash, a given one stores the new
   * hash, and nothing but this user's row and auth row changes.
   */
  lemma AdminUpdateFields(db: Db, pathUserId: string, password: string, age: Option<int>, gender: Option<string>,
                          hashed: Option<string>)
    requires AdminUpdate(db, ADMIN_ROLE, pathUserId, password, age, gender, hashed, true, true).status == OK
    ensures var d, u := AdminUpdate(db, ADMIN_ROLE, pathUserId, password, age, gender, hashed, true, true).db, db.users[pathUserId];
      d.users.Keys == db.users.Keys && d.auths.Keys == db.auths.Keys &&
      d.users[pathUserId].age == (if age.Some? then age.value else u.age) &&
      d.users[pathUserId].gender == (if gender.Some? then gender.value else u.gender) &&
      d.users[pathUserId].(age := u.age, gender := u.gender) == u &&
      d.auths[u.userUuid].password == (if password == "" then db.auths[u.userUuid].password else hashed.value) &&
      d.auths[u.userUuid].role == db.auths[u.userUuid].role &&
      (forall k :: k in db.users && k != pathUserId ==> d.users[k] == db.users[k]) &&
      (forall k :: k in db.auths && k != u.userUuid ==> d.auths[k] == db.auths[k]) &&
      d.samples == db.samples
  {
  }
}
