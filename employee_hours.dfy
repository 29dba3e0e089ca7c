/** The weekly-hours report of src/app/api/reports/employee-hours/route.ts:
    per user, the hours of each day of one week and the week's total over
    that user's timesheet rows, a traffic-light status for the total, and a
    summary over all reported users.

    The handler reads the users (as `getUsers` returns them) and the
    timesheet rows of the week; the model takes both listings as arguments. */
module EmployeeHours {
  import opened Wrappers
  import opened Docs
  import opened Seqs
  import opened LumaListings

  /** The week and year reported when the query leaves them out
      (src/app/api/reports/employee-hours/route.ts:7-8). */
  const DefaultWeek := 8
  const DefaultYear := 2026

  /** Eight hours a day, six at least, over a five-day week (lines 23-25). */
  const HoursTarget := 8.0
  const HoursMinimum := 6.0
  const WeeklyTarget := HoursTarget * 5.0

  /** `Math.round`: the nearest integer, a half rounded up. */
  function Round(x: real): (n: int)
    ensures n as real - 0.5 <= x < n as real + 0.5
  {
    (x + 0.5).Floor
  }

  // ------------------------------------------------------------ status

  datatype Status = Red | Orange | Yellow | Green | Blue

  function StatusLabel(s: Status): string {
    match s
    case Red => "Sin registro"
    case Orange => "Bajo registro"
    case Yellow => "Parcial"
    case Green => "Completado"
    case Blue => "Horas extra"
  }

  /** The first-match classification of lines 60-75. Each status holds on
      its own band of totals, so exactly one applies; a negative total is
      "low". */
  function Classify(total: real): (s: Status)
    ensures s == Red <==> total == 0.0
    ensures s == Orange <==> total != 0.0 && total < HoursMinimum * 5.0
    ensures s == Yellow <==> HoursMinimum * 5.0 <= total < WeeklyTarget
    ensures s == Green <==> total == WeeklyTarget
    ensures s == Blue <==> total > WeeklyTarget
  {
    if total == 0.0 then Red
    else if total < HoursMinimum * 5.0 then Orange
    else if total < WeeklyTarget then Yellow
    else if total == WeeklyTarget then Green
    else Blue
  }

  /** `Math.round((total / weeklyTarget) * 100)`: the share of the 40-hour
      week, in percent, not capped at 100 (line 85). */
  function Completion(total: real): (p: int)
    ensures (p as real - 0.5) * WeeklyTarget <= total * 100.0 < (p as real + 0.5) * WeeklyTarget
  {
    Round(total / WeeklyTarget * 100.0)
  }

  /** Sixty hours are 150 percent, twenty are 50: the percentage is not
      capped. */
  lemma CompletionExamples()
    ensures Completion(60.0) == 150 && Completion(20.0) == 50
    ensures Completion(WeeklyTarget) == 100 && Completion(0.0) == 0
  {
  }

  /** `Math.round(total / 5 * 100) / 100`: the daily average over five days,
      to the cent (lines 55, 82). */
  function AverageDaily(total: real): (a: real)
    ensures a * 100.0 == Round(total / 5.0 * 100.0) as real
    ensures -0.005 <= total / 5.0 - a < 0.005
  {
    Round(total / 5.0 * 100.0) as real / 100.0
  }

  // --------------------------------------------------------- day sums

  datatype Day = Mon | Tue | Wed | Thu | Fri | Sat | Sun

  /** The hours of one day of a week. */
  function HoursOn(h: DayHours, d: Day): real {
    match d
    case Mon => h.mon case Tue => h.tue case Wed => h.wed case Thu => h.thu
    case Fri => h.fri case Sat => h.sat case Sun => h.sun
  }

  /** The hours a timesheet row gives to day `d`. */
  function DayOf(d: Day): TimeEntryDoc -> real {
    (e: TimeEntryDoc) => HoursOn(e.hours, d)
  }

  /** The stored total of a timesheet row. */
  function TotalOf(e: TimeEntryDoc): real {
    e.total
  }

  /** The rows of one user, in listing order (line 29). */
  function UserEntries(timeEntries: seq<TimeEntryDoc>, userId: string): (r: seq<TimeEntryDoc>)
    ensures forall e :: e in r <==> e in timeEntries && e.userId == userId
  {
    Filter(timeEntries, (e: TimeEntryDoc) => e.userId == userId)
  }

  /** The loop of lines 44-53: each day's hours and the stored totals of the
      rows, added up one row at a time. The total is the sum of the stored
      `total` fields, not of the day fields. */
  method AddUpEntries(userEntries: seq<TimeEntryDoc>) returns (dailyHours: DayHours, total: real)
    ensures forall d :: HoursOn(dailyHours, d) == Sum(userEntries, DayOf(d))
    ensures total == Sum(userEntries, TotalOf)
  {
    dailyHours := NoHours;
    total := 0.0;
    var i := 0;
    while i < |userEntries|
      invariant 0 <= i <= |userEntries|
      invariant forall d :: HoursOn(dailyHours, d) == Sum(userEntries[..i], DayOf(d))
      invariant total == Sum(userEntries[..i], TotalOf)
    {
      var entry := userEntries[i];
      assert userEntries[..i + 1] == userEntries[..i] + [entry];
      forall d ensures Sum(userEntries[..i + 1], DayOf(d)) == Sum(userEntries[..i], DayOf(d)) + HoursOn(entry.hours, d) {
        SumSnoc(userEntries[..i], entry, DayOf(d));
      }
      SumSnoc(userEntries[..i], entry, TotalOf);
      dailyHours := dailyHours.(
        mon := dailyHours.mon + entry.hours.mon, tue := dailyHours.tue + entry.hours.tue,
        wed := dailyHours.wed + entry.hours.wed, thu := dailyHours.thu + entry.hours.thu,
        fri := dailyHours.fri + entry.hours.fri, sat := dailyHours.sat + entry.hours.sat,
        sun := dailyHours.sun + entry.hours.sun);
      total := total + entry.total;
      i := i + 1;
    }
    assert userEntries[..i] == userEntries;
  }

  // ------------------------------------------------------------- rows

  datatype EmployeeRow = EmployeeRow(
    userId: string, userName: string, dailyHours: DayHours, totalHours: real,
    averageDailyHours: real, status: Status, statusLabel: string,
    completionPercentage: int)

  /** What the report says about `user` given the week's rows. */
  ghost predicate RowFor(row: EmployeeRow, user: UserDoc, timeEntries: seq<TimeEntryDoc>) {
    var mine := UserEntries(timeEntries, user.id);
    && row.userId == user.id && row.userName == user.name
    && (forall d :: HoursOn(row.dailyHours, d) == Sum(mine, DayOf(d)))
    && row.totalHours == Sum(mine, TotalOf)
    && row.averageDailyHours == AverageDaily(row.totalHours)
    && row.status == Classify(row.totalHours)
    && row.statusLabel == StatusLabel(row.status)
    && row.completionPercentage == Completion(row.totalHours)
  }

  /** The row of one user (lines 27-87). */
  method FormatEmployee(user: UserDoc, timeEntries: seq<TimeEntryDoc>) returns (row: EmployeeRow)
    ensures RowFor(row, user, timeEntries)
  {
    var userEntries := UserEntries(timeEntries, user.id);
    var dailyHours, total := AddUpEntries(userEntries);
    var status := Classify(total);
    row := EmployeeRow(user.id, user.name, dailyHours, total, AverageDaily(total),
                       status, StatusLabel(status), Completion(total));
  }

  /** A user without rows in the week gets zero hours every day and the
      status "no entry". */
  lemma NoEntriesNoHours(row: EmployeeRow, user: UserDoc, timeEntries: seq<TimeEntryDoc>)
    requires RowFor(row, user, timeEntries)
    requires forall e :: e in timeEntries ==> e.userId != user.id
    ensures row.dailyHours == NoHours && row.totalHours == 0.0
    ensures row.status == Red && row.completionPercentage == 0
  {
    var mine := UserEntries(timeEntries, user.id);
    assert mine == [];
    assert forall d :: HoursOn(row.dailyHours, d) == 0.0;
    assert HoursOn(row.dailyHours, Mon) == 0.0 && HoursOn(row.dailyHours, Tue) == 0.0;
    assert HoursOn(row.dailyHours, Wed) == 0.0 && HoursOn(row.dailyHours, Thu) == 0.0;
    assert HoursOn(row.dailyHours, Fri) == 0.0 && HoursOn(row.dailyHours, Sat) == 0.0;
    assert HoursOn(row.dailyHours, Sun) == 0.0;
  }

  /** `filteredUsers` (lines 17-20): one user when a (non-empty) id is
      given, everybody otherwise. */
  function SelectUsers(users: seq<UserDoc>, userId: Option<string>): (r: seq<UserDoc>)
    ensures !Truthy(userId) ==> r == users
    ensures Truthy(userId) ==> forall u :: u in r <==> u in users && u.id == userId.value
  {
    if Truthy(userId) then Filter(users, (u: UserDoc) => u.id == userId.value) else users
  }

  /** `filteredUsers.map(...)`: one row per selected user, in order. */
  method FormatEmployees(users: seq<UserDoc>, timeEntries: seq<TimeEntryDoc>) returns (rows: seq<EmployeeRow>)
    ensures |rows| == |users|
    ensures forall i :: 0 <= i < |users| ==> RowFor(rows[i], users[i], timeEntries)
  {
    rows := [];
    var i := 0;
    while i < |users|
      invariant 0 <= i <= |users| && |rows| == i
      invariant forall k :: 0 <= k < i ==> RowFor(rows[k], users[k], timeEntries)
    {
      var row := FormatEmployee(users[i], timeEntries);
      rows := rows + [row];
      i := i + 1;
    }
  }

  // ---------------------------------------------------------- summary

  /** How many rows carry status `s`. */
  function Count(rows: seq<EmployeeRow>, s: Status): nat {
    |Filter(rows, (r: EmployeeRow) => r.status == s)|
  }

  function RowHours(r: EmployeeRow): real {
    r.totalHours
  }

  /** Every row has exactly one status, so the five counts add up to the
      number of rows. */
  lemma {:induction false} CountsPartition(rows: seq<EmployeeRow>)
    ensures Count(rows, Green) + Count(rows, Blue) + Count(rows, Red) +
            Count(rows, Orange) + Count(rows, Yellow) == |rows|
  {
    if rows != [] {
      CountsPartition(rows[1..]);
      CountStep(rows, Green);
      CountStep(rows, Blue);
      CountStep(rows, Red);
      CountStep(rows, Orange);
      CountStep(rows, Yellow);
    }
  }

  /** The first row adds one to the count of its own status only. */
  lemma CountStep(rows: seq<EmployeeRow>, s: Status)
    requires rows != []
    ensures Count(rows, s) == (if rows[0].status == s then 1 else 0) + Count(rows[1..], s)
  {
  }

  function StatusOf(r: EmployeeRow): Status {
    r.status
  }

  /** `filter(e => e.status === s).length` counts each row whose status is
      `s` once: it is how often `s` occurs among the rows' statuses. */
  lemma {:induction false} CountIsMultiplicity(rows: seq<EmployeeRow>, s: Status)
    ensures Count(rows, s) == multiset(MapSeq(rows, StatusOf))[s]
  {
    if rows != [] {
      StatusesStep(rows);
      CountIsMultiplicity(rows[1..], s);
      CountStep(rows, s);
    }
  }

  /** The statuses of the rows: the first row's, then the rest's. */
  lemma StatusesStep(rows: seq<EmployeeRow>)
    requires rows != []
    ensures multiset(MapSeq(rows, StatusOf)) == multiset{rows[0].status} + multiset(MapSeq(rows[1..], StatusOf))
  {
    assert MapSeq(rows, StatusOf) == [rows[0].status] + MapSeq(rows[1..], StatusOf);
  }

  datatype Summary = Summary(
    totalEmployees: nat, completed: nat, overTime: nat, noEntry: nat,
    lowEntry: nat, partial: nat, totalHours: real, averageHours: Option<real>)

  /** The summary of lines 90-99. The average of no employees is `NaN` in
      the source; here it is absent. */
  function Summarize(rows: seq<EmployeeRow>): (s: Summary)
    ensures s.totalEmployees == |rows|
    ensures s.completed == Count(rows, Green) && s.overTime == Count(rows, Blue)
    ensures s.noEntry == Count(rows, Red) && s.lowEntry == Count(rows, Orange)
    ensures s.partial == Count(rows, Yellow)
    ensures s.completed + s.overTime + s.noEntry + s.lowEntry + s.partial == s.totalEmployees
    ensures s.totalHours == Sum(rows, RowHours)
    ensures s.averageHours.None? <==> rows == []
    ensures s.averageHours.Some? ==>
              s.averageHours.value * 100.0 == Round(s.totalHours / |rows| as real * 100.0) as real
  {
    CountsPartition(rows);
    var total := Sum(rows, RowHours);
    Summary(|rows|, Count(rows, Green), Count(rows, Blue), Count(rows, Red),
            Count(rows, Orange), Count(rows, Yellow), total,
            if rows == [] then None
            else Some(Round(total / |rows| as real * 100.0) as real / 100.0))
  }

  // ----------------------------------------------------------- report

  /** The filter `{ weekNumber, year }` of line 13; a week or year of 0 is
      falsy and filters nothing. */
  function WeekFilter(weekNumber: int, year: int): TimeEntryFilter {
    TimeEntryFilter(None, None, Some(weekNumber), Some(year))
  }

  datatype Report = Report(employees: seq<EmployeeRow>, summary: Summary, weekNumber: int, year: int)

  /** The `GET` handler: `users` as `getUsers` lists them and `found` the
      timesheet rows the store returns; an absent or empty `weekNumber` or
      `year` parameter takes its default. */
  method EmployeeHoursReport(users: seq<UserDoc>, found: seq<TimeEntryDoc>,
                             weekParam: Option<int>, yearParam: Option<int>, userId: Option<string>)
    returns (r: Report)
    ensures r.weekNumber == weekParam.GetOr(DefaultWeek) && r.year == yearParam.GetOr(DefaultYear)
    ensures var selected := SelectUsers(users, userId);
      && |r.employees| == |selected|
      && forall i :: 0 <= i < |selected| ==>
           RowFor(r.employees[i], selected[i], GetTimeEntries(found, WeekFilter(r.weekNumber, r.year)))
    ensures r.summary == Summarize(r.employees)
  {
    var weekNumber := weekParam.GetOr(DefaultWeek);
    var year := yearParam.GetOr(DefaultYear);
    var timeEntries := GetTimeEntries(found, WeekFilter(weekNumber, year));
    var filteredUsers := SelectUsers(users, userId);
    var formattedData := FormatEmployees(filteredUsers, timeEntries);
    r := Report(formattedData, Summarize(formattedData), weekNumber, year);
  }

  /** With a user id only that user can be reported; without one every
      listed user is reported once, in listing order. */
  lemma ReportedUsers(r: Report, users: seq<UserDoc>, found: seq<TimeEntryDoc>, userId: Option<string>)
    requires var selected := SelectUsers(users, userId);
      && |r.employees| == |selected|
      && forall i :: 0 <= i < |selected| ==>
           RowFor(r.employees[i], selected[i], GetTimeEntries(found, WeekFilter(r.weekNumber, r.year)))
    ensures Truthy(userId) ==> forall i :: 0 <= i < |r.employees| ==> r.employees[i].userId == userId.value
    ensures !Truthy(userId) ==> (|r.employees| == |users| &&
              forall i :: 0 <= i < |users| ==> r.employees[i].userId == users[i].id)
  {
    var selected := SelectUsers(users, userId);
    if Truthy(userId) {
      forall i | 0 <= i < |r.employees| ensures r.employees[i].userId == userId.value {
        assert selected[i] in selected;
      }
    }
  }

  /** One value occurs as often among the user's rows of the listing as
      among the user's rows of that week in the store's answer. */
  lemma SameCount(found: seq<TimeEntryDoc>, weekNumber: int, year: int, userId: string, x: TimeEntryDoc)
    requires weekNumber != 0 && year != 0
    ensures multiset(UserEntries(GetTimeEntries(found, WeekFilter(weekNumber, year)), userId))[x] ==
            multiset(Filter(found, (e: TimeEntryDoc) => e.userId == userId && e.weekNumber == weekNumber && e.year == year))[x]
  {
    var listed := GetTimeEntries(found, WeekFilter(weekNumber, year));
    FilterMultiset(listed, (e: TimeEntryDoc) => e.userId == userId, x);
    FilterMultiset(found, (e: TimeEntryDoc) => MatchesTimeEntry(WeekFilter(weekNumber, year), e), x);
    FilterMultiset(found, (e: TimeEntryDoc) => e.userId == userId && e.weekNumber == weekNumber && e.year == year, x);
  }

  /** The hours of a user's row count exactly the rows of that user whose
      week and year are the ones asked for (both non-zero), whatever order
      the store lists them in. */
  lemma {:induction false} OnlyThatWeek(found: seq<TimeEntryDoc>, weekNumber: int, year: int, userId: string, f: TimeEntryDoc -> real)
    requires weekNumber != 0 && year != 0
    ensures Sum(UserEntries(GetTimeEntries(found, WeekFilter(weekNumber, year)), userId), f) ==
            Sum(Filter(found, (e: TimeEntryDoc) => e.userId == userId && e.weekNumber == weekNumber && e.year == year), f)
  {
    var pq := (e: TimeEntryDoc) => e.userId == userId && e.weekNumber == weekNumber && e.year == year;
    var listed := GetTimeEntries(found, WeekFilter(weekNumber, year));
    var mine := UserEntries(listed, userId);
    var direct := Filter(found, pq);
    forall x ensures multiset(mine)[x] == multiset(direct)[x] {
      SameCount(found, weekNumber, year, userId, x);
    }
    assert multiset(mine) == multiset(direct);
    SumPermutation(mine, direct, f);
  }
}
