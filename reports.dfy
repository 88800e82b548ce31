/** The reports page of frontend/src/pages/Reports.jsx: the requests of a date range and
    perhaps one service, the totals over them, the per-service and per-employee figures, and
    the CSV text of the export. Dates are day numbers; reading a date string into one is a
    parameter (`None` for a string that is not a date). */
module Reports {
  import opened Wrappers
  import Text
  import Seqs
  import Sorting

  /** The fields of a request the page reads. The status uses the capitalised vocabulary
      `Approved` / `Pending` / `Rejected` of this page. */
  datatype Request = Request(date: string, employeeId: int, hours: real, reason: string, status: string)

  /** The fields of an employee the page reads; `serviceId` may be null. */
  datatype Employee = Employee(id: int, firstName: string, lastName: string, serviceId: Option<int>)

  datatype Service = Service(id: int, name: string)

  /** The service selector: every service, or the one whose id the selected text parses to. */
  datatype ServiceFilter = AllServices | OneService(id: int)

  /** `employees.find(emp => emp.id === id)`. */
  function EmployeeOf(employees: seq<Employee>, id: int): (r: Option<Employee>)
    ensures r.Some? ==> r.value in employees && r.value.id == id
    ensures r.None? <==> forall e :: e in employees ==> e.id != id
    ensures r.Some? ==> exists i :: 0 <= i < |employees| && employees[i] == r.value
                                    && forall j :: 0 <= j < i ==> employees[j].id != id
  {
    Seqs.Find(employees, (e: Employee) => e.id == id)
  }

  /** `employee?.service_id === serviceId` for the employee of the request. */
  predicate InService(employees: seq<Employee>, r: Request, serviceId: int)
  {
    var e := EmployeeOf(employees, r.employeeId);
    e.Some? && e.value.serviceId == Some(serviceId)
  }

  /** The filter of one request: its date lies within the range, both ends included, and,
      with one service selected, its employee exists and belongs to that service. A date
      that does not read as a date is never in range. */
  predicate Kept(r: Request, employees: seq<Employee>, dayOf: string -> Option<int>,
                 start: Option<int>, end: Option<int>, filter: ServiceFilter)
  {
    var day := dayOf(r.date);
    var inRange := day.Some? && start.Some? && end.Some? && start.value <= day.value <= end.value;
    if filter.AllServices? then inRange else inRange && InService(employees, r, filter.id)
  }

  /** `filteredRequests`. */
  function FilteredRequests(requests: seq<Request>, employees: seq<Employee>, dayOf: string -> Option<int>,
                            start: Option<int>, end: Option<int>, filter: ServiceFilter): (r: seq<Request>)
    ensures forall x :: x in r <==> x in requests && Kept(x, employees, dayOf, start, end, filter)
    ensures Seqs.IsSubsequence(r, requests)
  {
    Seqs.FilterIsSubsequence(requests, (x: Request) => Kept(x, employees, dayOf, start, end, filter));
    Seqs.Filter(requests, (x: Request) => Kept(x, employees, dayOf, start, end, filter))
  }

  /** With one service selected, a request whose employee is unknown is left out whatever
      its date. */
  lemma UnknownEmployeeExcluded(requests: seq<Request>, employees: seq<Employee>, dayOf: string -> Option<int>,
                                start: Option<int>, end: Option<int>, serviceId: int, r: Request)
    requires forall e :: e in employees ==> e.id != r.employeeId
    ensures r !in FilteredRequests(requests, employees, dayOf, start, end, OneService(serviceId))
  {
  }

  // ---------------------------------------------------------------- totals

  predicate IsApproved(r: Request) { r.status == "Approved" }
  predicate IsPending(r: Request) { r.status == "Pending" }
  predicate IsRejected(r: Request) { r.status == "Rejected" }

  function Hours(r: Request): real { r.hours }

  /** `stats`. */
  datatype Stats = Stats(totalRequests: nat, totalHours: real, approvedRequests: nat, approvedHours: real,
                         pendingRequests: nat, rejectedRequests: nat)

  function ComputeStats(filtered: seq<Request>): (s: Stats)
    ensures s.totalRequests == |filtered|
    ensures s.approvedRequests <= s.totalRequests && s.pendingRequests <= s.totalRequests
            && s.rejectedRequests <= s.totalRequests
  {
    Stats(|filtered|, Seqs.Sum(filtered, Hours),
          Seqs.Count(filtered, IsApproved), Seqs.Sum(Seqs.Filter(filtered, IsApproved), Hours),
          Seqs.Count(filtered, IsPending), Seqs.Count(filtered, IsRejected))
  }

  /** The three statuses are exclusive, so their counts add up to at most the total; and with
      hours that are not negative, the approved hours are at most the total hours. */
  lemma {:induction false} StatsBounded(filtered: seq<Request>)
    ensures var s := ComputeStats(filtered);
            s.approvedRequests + s.pendingRequests + s.rejectedRequests <= s.totalRequests
    ensures (forall i :: 0 <= i < |filtered| ==> filtered[i].hours >= 0.0) ==>
              0.0 <= ComputeStats(filtered).approvedHours <= ComputeStats(filtered).totalHours
  {
    var settled := (r: Request) => IsApproved(r) || IsRejected(r);
    Seqs.CountDisjoint(filtered, IsApproved, IsRejected);
    ApprovedOrRejected(filtered);
    Seqs.CountDisjoint(filtered, IsPending, settled);
    if forall i :: 0 <= i < |filtered| ==> filtered[i].hours >= 0.0 {
      Seqs.SumFilterBound(filtered, IsApproved, Hours);
      var approved := Seqs.Filter(filtered, IsApproved);
      assert forall i :: 0 <= i < |approved| ==> Hours(approved[i]) >= 0.0;
      Seqs.SumNonNegative(approved, Hours);
    }
  }

  /** The count of settled requests is the sum of the approved and rejected counts. */
  lemma {:induction false} ApprovedOrRejected(s: seq<Request>)
    ensures Seqs.Count(s, (r: Request) => IsApproved(r) || IsRejected(r))
            == Seqs.Count(s, IsApproved) + Seqs.Count(s, IsRejected)
  {
    if s != [] {
      ApprovedOrRejected(s[1..]);
    }
  }

  // ---------------------------------------------------------------- per service

  /** One entry of `serviceStats`. */
  datatype ServiceStat = ServiceStat(id: int, name: string, employeeCount: nat, requestCount: nat,
                                     totalHours: real, approvedHours: real)

  function StatOfService(service: Service, employees: seq<Employee>, filtered: seq<Request>): ServiceStat
  {
    var serviceRequests := Seqs.Filter(filtered, (r: Request) => InService(employees, r, service.id));
    ServiceStat(service.id, service.name,
                Seqs.Count(employees, (e: Employee) => e.serviceId == Some(service.id)),
                |serviceRequests|, Seqs.Sum(serviceRequests, Hours),
                Seqs.Sum(Seqs.Filter(serviceRequests, IsApproved), Hours))
  }

  /** `serviceStats`: one entry per service, in the services' order, including services
      without any request; each request count is at most the number of filtered requests. */
  function ServiceStats(services: seq<Service>, employees: seq<Employee>, filtered: seq<Request>): (r: seq<ServiceStat>)
    ensures |r| == |services|
    ensures forall i :: 0 <= i < |r| ==> r[i].id == services[i].id && r[i].name == services[i].name
                                         && r[i].requestCount <= |filtered| && r[i].employeeCount <= |employees|
  {
    Seqs.Map(services, (s: Service) => StatOfService(s, employees, filtered))
  }

  // ---------------------------------------------------------------- per employee

  /** One entry of `employeeStats`. */
  datatype EmployeeStat = EmployeeStat(id: int, firstName: string, lastName: string, requestCount: nat,
                                       totalHours: real, approvedHours: real)

  function StatOfEmployee(employee: Employee, filtered: seq<Request>): EmployeeStat
  {
    var own := Seqs.Filter(filtered, (r: Request) => r.employeeId == employee.id);
    EmployeeStat(employee.id, employee.firstName, employee.lastName, |own|, Seqs.Sum(own, Hours),
                 Seqs.Sum(Seqs.Filter(own, IsApproved), Hours))
  }

  /** The comparator `b.totalHours - a.totalHours`: negative when `a` has more hours. */
  function MoreHours(a: EmployeeStat, b: EmployeeStat): bool
  {
    b.totalHours - a.totalHours < 0.0
  }

  const TOP_EMPLOYEES: nat := 10

  /** `employeeStats`: the employees' figures, by decreasing hours, the first ten. */
  function EmployeeStats(employees: seq<Employee>, filtered: seq<Request>): (r: seq<EmployeeStat>)
    ensures |r| <= TOP_EMPLOYEES && |r| <= |employees|
  {
    var all := AllEmployeeStats(employees, filtered);
    Seqs.Slice(Sorting.Sort(all, MoreHours), 0, TOP_EMPLOYEES)
  }

  /** Every employee's figures, in the employees' order. */
  function AllEmployeeStats(employees: seq<Employee>, filtered: seq<Request>): (r: seq<EmployeeStat>)
    ensures |r| == |employees|
    ensures forall k :: 0 <= k < |r| ==> r[k] == StatOfEmployee(employees[k], filtered)
  {
    Seqs.Map(employees, (e: Employee) => StatOfEmployee(e, filtered))
  }

  /** The comparator is consistent: more hours is a strict weak order. */
  lemma MoreHoursConsistent(s: seq<EmployeeStat>)
    ensures Sorting.StrictWeakOn(s, MoreHours)
  {
  }

  /** The top list runs from the most hours down, holds ten entries or every employee when
      there are fewer, and each entry is the figure of one of the employees. */
  lemma TopEmployeesOrdered(employees: seq<Employee>, filtered: seq<Request>)
    ensures var r := EmployeeStats(employees, filtered);
            (forall i, j :: 0 <= i < j < |r| ==> r[i].totalHours >= r[j].totalHours)
            && |r| == (if |employees| < TOP_EMPLOYEES then |employees| else TOP_EMPLOYEES)
            && forall x :: x in r ==> exists e :: e in employees && x == StatOfEmployee(e, filtered)
  {
    var all := AllEmployeeStats(employees, filtered);
    assert EmployeeStats(employees, filtered) == Seqs.Slice(Sorting.Sort(all, MoreHours), 0, TOP_EMPLOYEES);
    MoreHoursConsistent(all);
    Sorting.SortSorted(all, MoreHours);
    TopOfSorted(Sorting.Sort(all, MoreHours));
    var r := EmployeeStats(employees, filtered);
    forall x | x in r
      ensures exists e :: e in employees && x == StatOfEmployee(e, filtered)
    {
      assert x in multiset(Sorting.Sort(all, MoreHours));
      StatIsOfEmployee(employees, filtered, x);
    }
  }

  /** The top list is the head of the sorted list, and that sort is stable: employees with
      equal hours keep the order of the employee list, so among equal hours the first listed
      employees are the ones that reach the top ten. */
  lemma EqualHoursKeepListOrder(employees: seq<Employee>, filtered: seq<Request>, c: EmployeeStat)
    ensures var sorted := Sorting.Sort(AllEmployeeStats(employees, filtered), MoreHours);
            var r := EmployeeStats(employees, filtered);
            r == sorted[..|r|]
    ensures var all := AllEmployeeStats(employees, filtered);
            Sorting.TiedWith(Sorting.Sort(all, MoreHours), c, MoreHours) == Sorting.TiedWith(all, c, MoreHours)
  {
    var all := AllEmployeeStats(employees, filtered);
    Seqs.TakePrefix(Sorting.Sort(all, MoreHours), TOP_EMPLOYEES);
    MoreHoursConsistent([c] + all);
    Sorting.SortStable(all, c, MoreHours);
  }

  /** The first ten of a list sorted by decreasing hours are in decreasing hours. */
  lemma TopOfSorted(sorted: seq<EmployeeStat>)
    requires Sorting.Sorted(sorted, MoreHours)
    ensures var r := Seqs.Slice(sorted, 0, TOP_EMPLOYEES);
            (forall i, j :: 0 <= i < j < |r| ==> r[i].totalHours >= r[j].totalHours)
            && |r| == (if |sorted| < TOP_EMPLOYEES then |sorted| else TOP_EMPLOYEES)
            && forall x :: x in r ==> x in sorted
  {
    Seqs.TakePrefix(sorted, TOP_EMPLOYEES);
  }

  lemma StatIsOfEmployee(employees: seq<Employee>, filtered: seq<Request>, x: EmployeeStat)
    requires x in AllEmployeeStats(employees, filtered)
    ensures exists e :: e in employees && x == StatOfEmployee(e, filtered)
  {
    var all := AllEmployeeStats(employees, filtered);
    var k :| 0 <= k < |all| && all[k] == x;
    assert employees[k] in employees;
  }

  // ---------------------------------------------------------------- the detail table and the export

  /** The detail table: the first ten filtered requests. */
  function DetailRows(filtered: seq<Request>): (r: seq<Request>)
    ensures |r| <= 10 && |r| <= |filtered| && r == filtered[..|r|]
    ensures |filtered| <= 10 ==> r == filtered
  {
    Seqs.TakePrefix(filtered, 10);
    Seqs.Slice(filtered, 0, 10)
  }

  const CSV_HEADER: string := "Date,Employé,Service,Heures,Motif,Statut"

  /** The six fields of a request's CSV line. The employee's name reads "undefined undefined"
      when the employee is unknown; the service name falls back to "N/A"; only the reason is
      put in double quotes. `showHours` writes a number as JavaScript does. */
  function CsvFields(r: Request, employees: seq<Employee>, services: seq<Service>, showHours: real -> string): (f: seq<string>)
    ensures |f| == 6 && f[0] == r.date && f[4] == "\"" + r.reason + "\"" && f[5] == r.status
  {
    var e := EmployeeOf(employees, r.employeeId);
    var name := if e.Some? then e.value.firstName + " " + e.value.lastName else "undefined undefined";
    var s := if e.Some? && e.value.serviceId.Some? then Seqs.Find(services, (x: Service) => x.id == e.value.serviceId.value) else None;
    var serviceName := if s.Some? && s.value.name != "" then s.value.name else "N/A";
    [r.date, name, serviceName, showHours(r.hours), "\"" + r.reason + "\"", r.status]
  }

  function CsvLine(r: Request, employees: seq<Employee>, services: seq<Service>, showHours: real -> string): string
  {
    Text.Join(CsvFields(r, employees, services, showHours), ",")
  }

  /** The lines of the requests. */
  function CsvLines(filtered: seq<Request>, employees: seq<Employee>, services: seq<Service>, showHours: real -> string): (r: seq<string>)
    ensures |r| == |filtered|
    ensures forall k :: 0 <= k < |r| ==> r[k] == CsvLine(filtered[k], employees, services, showHours)
  {
    Seqs.Map(filtered, (r: Request) => CsvLine(r, employees, services, showHours))
  }

  /** `csvContent`: the header, then one line per filtered request, joined by newlines. */
  function Csv(filtered: seq<Request>, employees: seq<Employee>, services: seq<Service>, showHours: real -> string): string
  {
    Text.Join([CSV_HEADER] + CsvLines(filtered, employees, services, showHours), "\n")
  }

  /** No field of the request's line holds a comma or a newline. */
  predicate PlainFields(r: Request, employees: seq<Employee>, services: seq<Service>, showHours: real -> string)
  {
    forall f :: f in CsvFields(r, employees, services, showHours) ==> ',' !in f && '\n' !in f
  }

  /** When no field holds a comma or a newline, the export reads back line by line and field
      by field: a header and then, for request `i`, its six fields in order. */
  lemma {:induction false} CsvReadsBack(filtered: seq<Request>, employees: seq<Employee>, services: seq<Service>,
                                         showHours: real -> string, i: nat)
    requires i < |filtered|
    requires forall k :: 0 <= k < |filtered| ==> PlainFields(filtered[k], employees, services, showHours)
    ensures var lines := Text.Split(Csv(filtered, employees, services, showHours), '\n');
            |lines| == |filtered| + 1 && lines[0] == CSV_HEADER
            && Text.Split(lines[i + 1], ',') == CsvFields(filtered[i], employees, services, showHours)
  {
    CsvLinesReadBack(filtered, employees, services, showHours);
    var fields := CsvFields(filtered[i], employees, services, showHours);
    assert PlainFields(filtered[i], employees, services, showHours);
    forall k | 0 <= k < |fields|
      ensures ',' !in fields[k]
    {
      assert fields[k] in fields;
    }
    Text.SplitJoin(fields, ',');
    assert CsvLines(filtered, employees, services, showHours)[i] == Text.Join(fields, [',']);
  }

  /** The export splits on newlines into the header and the requests' lines. */
  lemma {:induction false} CsvLinesReadBack(filtered: seq<Request>, employees: seq<Employee>, services: seq<Service>,
                                             showHours: real -> string)
    requires forall k :: 0 <= k < |filtered| ==> PlainFields(filtered[k], employees, services, showHours)
    ensures Text.Split(Csv(filtered, employees, services, showHours), '\n')
            == [CSV_HEADER] + CsvLines(filtered, employees, services, showHours)
  {
    var body := CsvLines(filtered, employees, services, showHours);
    forall k | 0 <= k < |body|
      ensures '\n' !in body[k]
    {
      LineHasNoNewline(filtered[k], employees, services, showHours);
    }
    HeaderThenLines(body);
  }

  /** The header followed by lines without a newline reads back by splitting on newlines. */
  lemma HeaderThenLines(body: seq<string>)
    requires forall k :: 0 <= k < |body| ==> '\n' !in body[k]
    ensures Text.Split(Text.Join([CSV_HEADER] + body, "\n"), '\n') == [CSV_HEADER] + body
  {
    HeaderPlain();
    FirstThenLines(CSV_HEADER, body, '\n');
  }

  lemma HeaderPlain()
    ensures '\n' !in CSV_HEADER
  {
  }

  /** A line and then lines, none holding the separator, read back by splitting. */
  lemma FirstThenLines(first: string, body: seq<string>, c: char)
    requires c !in first
    requires forall k :: 0 <= k < |body| ==> c !in body[k]
    ensures Text.Split(Text.Join([first] + body, [c]), c) == [first] + body
  {
    var lines := [first] + body;
    forall k | 0 <= k < |lines|
      ensures c !in lines[k]
    {
      if k > 0 {
        assert lines[k] == body[k - 1];
      }
    }
    Text.SplitJoin(lines, c);
  }

  lemma LineHasNoNewline(r: Request, employees: seq<Employee>, services: seq<Service>, showHours: real -> string)
    requires PlainFields(r, employees, services, showHours)
    ensures '\n' !in CsvLine(r, employees, services, showHours)
  {
    NoCharInJoin(CsvFields(r, employees, services, showHours), '\n', ',');
  }

  /** A joined string holds a character only if a part or the separator does. */
  lemma {:induction false} NoCharInJoin(parts: seq<string>, c: char, sep: char)
    requires c != sep
    requires forall f :: f in parts ==> c !in f
    ensures c !in Text.Join(parts, [sep])
  {
    if |parts| > 1 {
      NoCharInJoin(parts[1..], c, sep);
    }
  }
}
