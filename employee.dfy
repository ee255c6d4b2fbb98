/**
 * The employee dashboard: sign-in with its selfie and location guards and the
 * holiday compensatory credit, sign-out of today's record, and the lookup of
 * today's record among the recent ones.
 */
module EmployeeDashboard {
  import opened Wrappers
  import opened Tables
  import opened Clock
  import opened Schema

  /** Counter defaults written by the compensatory upsert (`|| 12`, `|| 10`, `|| 15`). */
  const DefaultCasual: int := 12
  const DefaultSick: int := 10
  const DefaultEarned: int := 15

  /** How many recent records `fetchAttendance` reads (`.limit(30)`). */
  const RecentLimit: nat := 30

  /**
   * `.from('holidays').eq('date', date).single()` yields a row: exactly one
   * holiday is stored for that date (no row, or several, is an error and reads as
   * "no holiday").
   */
  predicate IsHoliday(holidays: seq<Row<Holiday>>, date: Day)
  {
    Count(holidays, (h: Row<Holiday>) => h.val.date == date) == 1
  }

  /**
   * The row the compensatory upsert writes: the stored compensatory counter (null
   * read as 0) plus one, and each other counter kept unless it is null or 0, in
   * which case its default is written.
   */
  function CompensatedRow(current: Option<BalanceRow>, now: Millis): (r: BalanceRow)
    ensures r.counters.Keys == {Casual, Sick, Earned, Compensatory}
    ensures r.counters[Compensatory] == CounterOr(current, Compensatory, 0) + 1
    ensures current.None? ==> r.counters == map[Compensatory := 1, Casual := 12, Sick := 10, Earned := 15]
    ensures forall t :: (t in {Casual, Sick, Earned} && current.Some? && t in current.value.counters
                         && current.value.counters[t] != 0) ==> r.counters[t] == current.value.counters[t]
    ensures CounterOr(current, Casual, 0) == 0 ==> r.counters[Casual] == DefaultCasual
    ensures CounterOr(current, Sick, 0) == 0 ==> r.counters[Sick] == DefaultSick
    ensures CounterOr(current, Earned, 0) == 0 ==> r.counters[Earned] == DefaultEarned
    ensures r.updatedAt == Some(now)
  {
    BalanceRow(
      map[Compensatory := CounterOr(current, Compensatory, 0) + 1,
          Casual := CounterOr(current, Casual, DefaultCasual),
          Sick := CounterOr(current, Sick, DefaultSick),
          Earned := CounterOr(current, Earned, DefaultEarned)],
      Some(now))
  }

  /** The balance row of `user`, when there is one. */
  function BalanceOf(balances: map<Id, BalanceRow>, user: Id): (r: Option<BalanceRow>)
    ensures r.Some? <==> user in balances
    ensures r.Some? ==> r.value == balances[user]
  {
    if user in balances then Some(balances[user]) else None
  }

  /**
   * `addCompensatoryLeave`: on a holiday date the user's balance row is upserted
   * with one more compensatory credit; on any other date nothing changes.
   */
  method AddCompensatoryLeave(db: Database, user: Id, date: Day, now: Millis)
    modifies db`balances
    ensures IsHoliday(db.holidays, date) ==>
      db.balances == old(db.balances)[user := CompensatedRow(BalanceOf(old(db.balances), user), now)]
    ensures !IsHoliday(db.holidays, date) ==> db.balances == old(db.balances)
  {
    if IsHoliday(db.holidays, date) {
      var current := BalanceOf(db.balances, user);
      db.balances := db.balances[user := CompensatedRow(current, now)];
    }
  }

  /** The balance table after the holiday credit of a sign-in at `now`. */
  function SignInBalances(balances: map<Id, BalanceRow>, holidays: seq<Row<Holiday>>, user: Id, now: Millis)
    : map<Id, BalanceRow>
  {
    if IsHoliday(holidays, DayOf(now))
    then balances[user := CompensatedRow(BalanceOf(balances, user), now)]
    else balances
  }

  /** `.eq('employee_id', user)`: the user's own rows, in table order. */
  function OwnRecords(attendance: seq<Row<AttendanceRecord>>, user: Id): (r: seq<Row<AttendanceRecord>>)
    ensures forall x :: x in r <==> x in attendance && x.val.employeeId == user
  {
    var mine := (x: Row<AttendanceRecord>) => x.val.employeeId == user;
    FilterMembers(attendance, mine);
    Filter(attendance, mine)
  }

  /** The query returns each of the user's records exactly as often as the table holds it. */
  lemma OwnRecordsCounts(attendance: seq<Row<AttendanceRecord>>, user: Id)
    ensures forall x :: multiset(OwnRecords(attendance, user))[x] ==
              (if x.val.employeeId == user then multiset(attendance)[x] else 0)
  {
    var mine := (x: Row<AttendanceRecord>) => x.val.employeeId == user;
    FilterCounts(attendance, mine);
    assert OwnRecords(attendance, user) == Filter(attendance, mine);
  }

  /** `fetchAttendance`: the user's records, newest sign-in first, at most thirty. */
  function RecentAttendance(attendance: seq<Row<AttendanceRecord>>, user: Id): (r: seq<Row<AttendanceRecord>>)
    ensures |r| <= RecentLimit
    ensures forall x :: x in r ==> x in attendance && x.val.employeeId == user
    ensures forall i, j :: 0 <= i < j < |r| ==> r[i].val.signinTime >= r[j].val.signinTime
  {
    var mine := OwnRecords(attendance, user);
    SortByMembers(mine, SigninDescending);
    Limit(SortBy(mine, SigninDescending), RecentLimit)
  }

  /**
   * Nothing of the user's is lost but for the limit: all records are listed when
   * there are thirty or fewer; otherwise thirty are, and every omitted record is no
   * newer than any listed one.
   */
  lemma RecentAttendanceComplete(attendance: seq<Row<AttendanceRecord>>, user: Id)
    ensures var r := RecentAttendance(attendance, user);
      && |r| == (if |OwnRecords(attendance, user)| <= RecentLimit then |OwnRecords(attendance, user)| else RecentLimit)
      && (|OwnRecords(attendance, user)| <= RecentLimit ==>
            forall x :: x in attendance && x.val.employeeId == user ==> x in r)
      && (forall x :: x in attendance && x.val.employeeId == user && x !in r ==>
            forall i :: 0 <= i < |r| ==> x.val.signinTime <= r[i].val.signinTime)
  {
    var mine := OwnRecords(attendance, user);
    var ordered := SortBy(mine, SigninDescending);
    SortByMembers(mine, SigninDescending);
    assert |ordered| == |multiset(ordered)| == |multiset(mine)| == |mine|;
    LimitOmitted(ordered, SigninDescending, RecentLimit);
  }

  /**
   * Today's record: the first of `recent` whose sign-in falls on `today`
   * (`data.find(record => record.signin_time.includes(today))`).
   */
  function TodayRecord(recent: seq<Row<AttendanceRecord>>, today: Day): (r: Option<Row<AttendanceRecord>>)
    ensures r.Some? ==> exists k :: (0 <= k < |recent| && recent[k] == r.value
      && forall j :: 0 <= j < k ==> DayOf(recent[j].val.signinTime) != today)
    ensures r.Some? ==> DayOf(r.value.val.signinTime) == today
    ensures r.None? <==> forall j :: 0 <= j < |recent| ==> DayOf(recent[j].val.signinTime) != today
  {
    match FindFirst(recent, (x: Row<AttendanceRecord>) => DayOf(x.val.signinTime) == today)
    case None => None
    case Some(k) => Some(recent[k])
  }

  /**
   * The attendance table after signing out record `id`: only the rows with that key
   * change, and only in the sign-out time and place.
   */
  function SignedOut(rows: seq<Row<AttendanceRecord>>, id: Id, now: Millis, location: Location): (r: seq<Row<AttendanceRecord>>)
    ensures |r| == |rows|
    ensures forall i :: 0 <= i < |rows| && rows[i].id != id ==> r[i] == rows[i]
    ensures forall i :: 0 <= i < |rows| && rows[i].id == id ==>
      r[i].id == id && r[i].val == rows[i].val.(signoutTime := Some(now), signoutLocation := Some(location))
  {
    Update(rows, id, (a: AttendanceRecord) => a.(signoutTime := Some(now), signoutLocation := Some(location)))
  }

  /** How a sign-in or sign-out attempt ended. */
  datatype Outcome = Done | NoSelfie | NoLocation | UploadFailed | NoRecordToday

  /** The verdict on a sign-in attempt: selfie first, then location, then the selfie upload. */
  function SignInVerdict(capturedImage: bool, location: Option<Location>, upload: Option<string>): (o: Outcome)
    ensures o == Done <==> capturedImage && location.Some? && upload.Some?
    ensures !capturedImage ==> o == NoSelfie
    ensures capturedImage && location.None? ==> o == NoLocation
    ensures capturedImage && location.Some? && upload.None? ==> o == UploadFailed
  {
    if !capturedImage then NoSelfie
    else if location.None? then NoLocation
    else if upload.None? then UploadFailed
    else Done
  }

  /** The record a successful sign-in inserts. */
  function SigninRecord(user: Id, now: Millis, location: Location, selfieUrl: string): (r: AttendanceRecord)
    ensures r.employeeId == user && r.signinTime == now && r.status == Pending
    ensures r.signinLocation == Some(location) && r.selfieUrl == Some(selfieUrl)
    ensures r.signoutTime.None? && r.signoutLocation.None? && r.approvedBy.None?
  {
    AttendanceRecord(user, now, Some(location), Some(selfieUrl), None, None, Pending, None)
  }

  /**
   * The writes of a sign-in that passed its guards: the holiday credit, then one
   * pending record for the user under a fresh key.
   */
  method RecordSignIn(db: Database, user: Id, now: Millis, location: Location, selfieUrl: string)
    requires db.Valid()
    modifies db`attendance, db`balances, db`nextId
    ensures db.Valid()
    ensures db.attendance == old(db.attendance) + [Row(old(db.nextId), SigninRecord(user, now, location, selfieUrl))]
    ensures db.nextId == old(db.nextId) + 1
    ensures db.balances == SignInBalances(old(db.balances), db.holidays, user, now)
  {
    AddCompensatoryLeave(db, user, DayOf(now), now);
    var id := db.InsertAttendance(SigninRecord(user, now, location, selfieUrl));
  }

  /** The component state of the employee dashboard for the signed-in `user`. */
  class EmployeePanel {
    const db: Database
    const user: Id
    /** The camera view is open. */
    var showCamera: bool
    /** A camera stream has been granted; it is stopped but never released. */
    var streamHeld: bool
    /** A selfie has been captured from the camera. */
    var capturedImage: bool
    /** The last geolocation fix, if any. */
    var location: Option<Location>
    /** The recent records shown in the history list. */
    var attendance: seq<Row<AttendanceRecord>>
    /** Today's record, if the user has signed in today. */
    var todayAttendance: Option<Row<AttendanceRecord>>

    constructor (db: Database, user: Id)
      ensures this.db == db && this.user == user
      ensures !showCamera && !streamHeld && !capturedImage && location.None?
      ensures attendance == [] && todayAttendance.None?
    {
      this.db := db;
      this.user := user;
      showCamera, streamHeld, capturedImage := false, false, false;
      location := None;
      attendance := [];
      todayAttendance := None;
    }

    /** `startCamera`: the camera view opens; a granted stream is held from then on. */
    method StartCamera(granted: bool)
      modifies this`showCamera, this`streamHeld
      ensures showCamera && streamHeld == (old(streamHeld) || granted)
    {
      showCamera := true;
      if granted {
        streamHeld := true;
      }
    }

    /** `stopCamera`: with a stream held, the view closes and the captured selfie is discarded. */
    method StopCamera()
      modifies this`showCamera, this`capturedImage
      ensures showCamera == (old(showCamera) && !streamHeld)
      ensures capturedImage == (old(capturedImage) && !streamHeld)
    {
      if streamHeld {
        showCamera := false;
        capturedImage := false;
      }
    }

    /**
     * `captureSelfie` as written: with the video and canvas mounted (`frameReady`) the
     * frame is stored as the selfie and the camera is stopped, which discards it again.
     */
    method CaptureSelfie(frameReady: bool)
      modifies this`showCamera, this`capturedImage
      ensures capturedImage == CapturedAfter(streamHeld, frameReady, old(capturedImage))
      ensures showCamera == (old(showCamera) && !(frameReady && streamHeld))
    {
      if frameReady {
        capturedImage := true;
        StopCamera();
      }
    }

    /** A capture that stops the camera and then keeps the frame as the selfie. */
    method CaptureSelfieKeepingImage(frameReady: bool)
      modifies this`showCamera, this`capturedImage
      ensures capturedImage == CapturedAfterIntended(frameReady, old(capturedImage))
      ensures showCamera == (old(showCamera) && !(frameReady && streamHeld))
    {
      if frameReady {
        StopCamera();
        capturedImage := true;
      }
    }

    /**
     * `getCurrentLocation`: a fix from the browser (`Some`) replaces the location;
     * an unsupported or failed request (`None`) leaves it as it was.
     */
    method GetCurrentLocation(fix: Option<Location>)
      modifies this`location
      ensures location == if fix.Some? then fix else old(location)
    {
      if fix.Some? {
        location := fix;
      }
    }

    /** `fetchAttendance`: reloads the recent records and picks today's. */
    method FetchAttendance(now: Millis)
      modifies this`attendance, this`todayAttendance
      ensures attendance == RecentAttendance(db.attendance, user)
      ensures todayAttendance == TodayRecord(attendance, DayOf(now))
    {
      attendance := RecentAttendance(db.attendance, user);
      todayAttendance := TodayRecord(attendance, DayOf(now));
    }

    /**
     * `handleSignIn`: refused without a selfie or a location, and abandoned when the
     * selfie upload (`upload`, the public URL or `None`) fails; a refusal changes
     * nothing. Otherwise the holiday credit is applied, one pending record for the
     * user is inserted, the selfie is cleared and the history reloads.
     */
    method HandleSignIn(upload: Option<string>, now: Millis) returns (outcome: Outcome)
      requires db.Valid()
      modifies this`capturedImage, this`attendance, this`todayAttendance
      modifies db`attendance, db`balances, db`nextId
      ensures db.Valid()
      ensures outcome == SignInVerdict(old(capturedImage), location, upload)
      ensures outcome != Done ==>
        db.attendance == old(db.attendance) && db.balances == old(db.balances) && db.nextId == old(db.nextId)
      ensures outcome != Done ==>
        capturedImage == old(capturedImage) && attendance == old(attendance) && todayAttendance == old(todayAttendance)
      ensures outcome == Done ==>
        db.attendance == old(db.attendance) + [Row(old(db.nextId), SigninRecord(user, now, location.value, upload.value))]
        && db.nextId == old(db.nextId) + 1
      ensures outcome == Done ==>
        db.balances == SignInBalances(old(db.balances), db.holidays, user, now)
      ensures outcome == Done ==> !capturedImage && attendance == RecentAttendance(db.attendance, user)
      ensures outcome == Done ==> todayAttendance == TodayRecord(attendance, DayOf(now))
    {
      outcome := SignInVerdict(capturedImage, location, upload);
      if outcome == Done {
        AcceptSignIn(upload.value, now);
      }
    }

    /**
     * The part of `handleSignIn` after its guards: the writes of the sign-in, the
     * selfie cleared and the history reloaded.
     */
    method AcceptSignIn(selfieUrl: string, now: Millis)
      requires db.Valid() && location.Some?
      modifies this`capturedImage, this`attendance, this`todayAttendance
      modifies db`attendance, db`balances, db`nextId
      ensures db.Valid()
      ensures db.attendance == old(db.attendance) + [Row(old(db.nextId), SigninRecord(user, now, location.value, selfieUrl))]
      ensures db.nextId == old(db.nextId) + 1
      ensures db.balances == SignInBalances(old(db.balances), db.holidays, user, now)
      ensures !capturedImage && attendance == RecentAttendance(db.attendance, user)
      ensures todayAttendance == TodayRecord(attendance, DayOf(now))
    {
      capturedImage := false;
      RecordSignIn(db, user, now, location.value, selfieUrl);
      var history := RecentAttendance(db.attendance, user);
      attendance, todayAttendance := history, TodayRecord(history, DayOf(now));
    }

    /**
     * `handleSignOut`: refused without a record for today or without a location,
     * changing nothing; otherwise only that record gets the sign-out time and place,
     * and the history reloads.
     */
    method HandleSignOut(now: Millis) returns (outcome: Outcome)
      requires db.Valid()
      modifies this`attendance, this`todayAttendance, db`attendance
      ensures db.Valid()
      ensures outcome == (if old(todayAttendance).None? then NoRecordToday
                          else if location.None? then NoLocation
                          else Done)
      ensures outcome != Done ==>
        db.attendance == old(db.attendance) && attendance == old(attendance) && todayAttendance == old(todayAttendance)
      ensures outcome == Done ==>
        db.attendance == SignedOut(old(db.attendance), old(todayAttendance).value.id, now, location.value)
      ensures outcome == Done ==>
        attendance == RecentAttendance(db.attendance, user) && todayAttendance == TodayRecord(attendance, DayOf(now))
    {
      if todayAttendance.None? {
        return NoRecordToday;
      }
      if location.None? {
        return NoLocation;
      }
      var id, loc := todayAttendance.value.id, location.value;
      UpdateKeepsKeyed(db.attendance, id,
        (r: AttendanceRecord) => r.(signoutTime := Some(now), signoutLocation := Some(loc)), db.nextId);
      db.attendance := SignedOut(db.attendance, id, now, loc);
      FetchAttendance(now);
      outcome := Done;
    }
  }

  /**
   * Repeated sign-ins on a holiday are not idempotent: each upsert adds one more
   * compensatory credit to what the previous one stored.
   */
  lemma {:induction false} CompensationAccumulates(current: Option<BalanceRow>, t1: Millis, t2: Millis)
    ensures CompensatedRow(Some(CompensatedRow(current, t1)), t2).counters[Compensatory]
         == CompensatedRow(current, t1).counters[Compensatory] + 1
  {
    var first := CompensatedRow(current, t1);
    assert CounterOr(Some(first), Compensatory, 0) == first.counters[Compensatory];
  }

  /** A second upsert keeps the casual, sick and earned counters the first one wrote. */
  lemma {:induction false} CompensationKeepsOtherCounters(current: Option<BalanceRow>, t1: Millis, t2: Millis)
    ensures var first := CompensatedRow(current, t1);
      var second := CompensatedRow(Some(first), t2);
      && second.counters[Casual] == first.counters[Casual]
      && second.counters[Sick] == first.counters[Sick]
      && second.counters[Earned] == first.counters[Earned]
  {
    var first := CompensatedRow(current, t1);
    assert CounterOr(Some(first), Casual, DefaultCasual) == first.counters[Casual];
    assert CounterOr(Some(first), Sick, DefaultSick) == first.counters[Sick];
    assert CounterOr(Some(first), Earned, DefaultEarned) == first.counters[Earned];
  }

  /**
   * A sign-in made today is always seen as today's record, provided no record of
   * the user is stamped later than now: either it is among the thirty listed, or
   * thirty newer ones are, and the newest of those also falls on today.
   */
  lemma TodaysSignInIsFound(attendance: seq<Row<AttendanceRecord>>, user: Id, x: Row<AttendanceRecord>, now: Millis)
    requires x in attendance && x.val.employeeId == user && DayOf(x.val.signinTime) == DayOf(now)
    requires forall y :: y in attendance && y.val.employeeId == user ==> y.val.signinTime <= now
    ensures TodayRecord(RecentAttendance(attendance, user), DayOf(now)).Some?
  {
    var r := RecentAttendance(attendance, user);
    RecentAttendanceComplete(attendance, user);
    if x in r {
      var k :| 0 <= k < |r| && r[k] == x;
      assert DayOf(r[k].val.signinTime) == DayOf(now);
    } else {
      assert |r| == RecentLimit;
      var t := r[0].val.signinTime;
      DayOfMonotone(x.val.signinTime, t);
      DayOfMonotone(t, now);
      assert DayOf(r[0].val.signinTime) == DayOf(now);
    }
  }

  /**
   * The selfie flag after `captureSelfie` as written: with a frame to draw, the
   * image is stored and then `stopCamera` clears it again whenever a camera stream
   * is held.
   */
  function CapturedAfter(streamHeld: bool, frameReady: bool, before: bool): bool
  {
    if frameReady then !streamHeld else before
  }

  /** The selfie flag after a capture that keeps the image once the camera is stopped. */
  function CapturedAfterIntended(frameReady: bool, before: bool): bool
  {
    frameReady || before
  }

  /**
   * As written, a capture from a granted camera leaves no selfie, so the sign-in
   * that follows is refused for want of one.
   */
  lemma CaptureLosesSelfie(before: bool, location: Option<Location>, upload: Option<string>)
    ensures !CapturedAfter(true, true, before)
    ensures SignInVerdict(CapturedAfter(true, true, before), location, upload) == NoSelfie
  {
  }

  /** With the image kept, a capture followed by a located, uploaded sign-in goes through. */
  lemma IntendedCaptureAllowsSignIn(before: bool, location: Location, upload: string)
    ensures CapturedAfterIntended(true, before)
    ensures SignInVerdict(CapturedAfterIntended(true, before), Some(location), Some(upload)) == Done
  {
  }
}
