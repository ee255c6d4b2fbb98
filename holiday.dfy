/**
 * The holiday calendar: the role that gates editing, the admin-only add and
 * delete, and the listing in date order.
 */
module HolidayCalendar {
  import opened Wrappers
  import opened Tables
  import opened Clock
  import opened Schema

  /** The add-holiday form; an empty date input is `None`. */
  datatype HolidayForm = HolidayForm(date: Option<Day>, name: string, description: string)

  const EmptyHolidayForm: HolidayForm := HolidayForm(None, "", "")

  /** The `.order('date')` key. */
  function ByDate(r: Row<Holiday>): int
  {
    r.val.date
  }

  /** `fetchHolidays`: every stored holiday, earliest date first. */
  function Listing(holidays: seq<Row<Holiday>>): (r: seq<Row<Holiday>>)
    ensures multiset(r) == multiset(holidays)
    ensures forall i, j :: 0 <= i < j < |r| ==> r[i].val.date <= r[j].val.date
  {
    SortBy(holidays, ByDate)
  }

  /** How an add or delete ended. */
  datatype EditOutcome = Saved | MissingField | NotAdmin | Cancelled

  /** The calendar's component state. */
  class HolidayCalendarPanel {
    const db: Database
    const user: Id
    var holidays: seq<Row<Holiday>>
    var newHoliday: HolidayForm
    var userRole: string

    constructor (db: Database, user: Id)
      ensures this.db == db && this.user == user
      ensures holidays == [] && newHoliday == EmptyHolidayForm && userRole == ""
    {
      this.db := db;
      this.user := user;
      holidays := [];
      newHoliday := EmptyHolidayForm;
      userRole := "";
    }

    /** Typing into the form. */
    method Edit(f: HolidayForm)
      modifies this`newHoliday
      ensures newHoliday == f
    {
      newHoliday := f;
    }

    /** `fetchUserRole`: the user's role, `employee` when the lookup yields none. */
    method FetchUserRole()
      modifies this`userRole
      ensures userRole == RoleOrEmployee(Lookup(db.employees, user))
      ensures Lookup(db.employees, user).None? ==> userRole == "employee"
    {
      userRole := RoleOrEmployee(Lookup(db.employees, user));
    }

    /** `fetchHolidays`: reloads the listing. */
    method FetchHolidays()
      modifies this`holidays
      ensures holidays == Listing(db.holidays)
    {
      holidays := Listing(db.holidays);
    }

    /**
     * `addHoliday`: the browser refuses an empty date or name; a non-admin is refused;
     * an admin inserts the holiday, then the form resets and the listing reloads.
     */
    method AddHoliday() returns (outcome: EditOutcome)
      requires db.Valid()
      modifies db`holidays, db`nextId, this`newHoliday, this`holidays
      ensures db.Valid()
      ensures outcome == (if old(newHoliday).date.None? || old(newHoliday).name == "" then MissingField
                          else if userRole != "admin" then NotAdmin
                          else Saved)
      ensures outcome != Saved ==>
        && db.holidays == old(db.holidays) && db.nextId == old(db.nextId)
        && newHoliday == old(newHoliday) && holidays == old(holidays)
      ensures outcome == Saved ==>
        && db.holidays == old(db.holidays)
             + [Row(old(db.nextId), Holiday(old(newHoliday).date.value, old(newHoliday).name, old(newHoliday).description))]
        && db.nextId == old(db.nextId) + 1
        && newHoliday == EmptyHolidayForm
        && holidays == Listing(db.holidays)
    {
      if newHoliday.date.None? || newHoliday.name == "" {
        return MissingField;
      }
      if userRole != "admin" {
        return NotAdmin;
      }
      var id := db.InsertHoliday(Holiday(newHoliday.date.value, newHoliday.name, newHoliday.description));
      newHoliday := EmptyHolidayForm;
      FetchHolidays();
      outcome := Saved;
    }

    /**
     * `deleteHoliday`: a non-admin is refused, a declined confirmation cancels;
     * otherwise exactly the holiday with key `id` is removed.
     */
    method DeleteHoliday(id: Id, confirmed: bool) returns (outcome: EditOutcome)
      requires db.Valid()
      modifies db`holidays, this`holidays
      ensures db.Valid()
      ensures outcome == (if userRole != "admin" then NotAdmin else if !confirmed then Cancelled else Saved)
      ensures outcome != Saved ==> db.holidays == old(db.holidays) && holidays == old(holidays)
      ensures outcome == Saved ==>
        && db.holidays == Delete(old(db.holidays), id)
        && (forall x :: x in db.holidays <==> x in old(db.holidays) && x.id != id)
        && holidays == Listing(db.holidays)
    {
      if userRole != "admin" {
        return NotAdmin;
      }
      if !confirmed {
        return Cancelled;
      }
      DeleteKeepsKeyed(db.holidays, id, db.nextId);
      db.holidays := Delete(db.holidays, id);
      FetchHolidays();
      outcome := Saved;
    }
  }
}
