/** The employees page of frontend/src/pages/Employees.jsx: the search, the service names,
    the e-mail rule of the form, and the calls the form and the delete button make. */
module EmployeesPage {
  import opened Wrappers
  import Text
  import Seqs
  import opened PageCommon

  /** The fields of an employee and of a service the page reads, under the names the page
      uses (`first_name`, `email`, `service_id`); the API sends other keys, see
      `SearchAsWrittenThrows` below. */
  datatype Employee = Employee(id: int, firstName: string, lastName: string, email: string, serviceId: Option<int>)

  datatype Service = Service(id: int, name: string)

  /** The term occurs, in any case, in the first name, the last name or the e-mail. */
  predicate EmployeeMatches(e: Employee, term: string)
  {
    Text.ContainsIgnoreCase(e.firstName, term) || Text.ContainsIgnoreCase(e.lastName, term)
    || Text.ContainsIgnoreCase(e.email, term)
  }

  /** `filteredEmployees`. */
  function FilteredEmployees(employees: seq<Employee>, term: string): (r: seq<Employee>)
    ensures forall e :: e in r <==> e in employees && EmployeeMatches(e, term)
    ensures Seqs.IsSubsequence(r, employees)
  {
    Seqs.FilterIsSubsequence(employees, (e: Employee) => EmployeeMatches(e, term));
    Seqs.Filter(employees, (e: Employee) => EmployeeMatches(e, term))
  }

  /** An employee is found by its own e-mail, and by an empty search. */
  lemma SearchCovers(employees: seq<Employee>, e: Employee)
    requires e in employees
    ensures e in FilteredEmployees(employees, e.email) && e in FilteredEmployees(employees, "")
  {
    Text.ContainsSelf(e.email);
  }

  /** `getServiceName`. */
  function ServiceName(services: seq<Service>, id: Option<int>): (r: string)
    ensures (id.None? || forall s :: s in services ==> s.id != id.value) ==> r == "Service inconnu"
    ensures id.Some? && (exists s :: s in services && s.id == id.value) ==>
              exists i :: 0 <= i < |services| && services[i].id == id.value && r == services[i].name
                          && forall j :: 0 <= j < i ==> services[j].id != id.value
  {
    var s := if id.Some? then Seqs.Find(services, (x: Service) => x.id == id.value) else None;
    if s.Some? then s.value.name else "Service inconnu"
  }

  /** The body of the form. */
  datatype EmployeeForm = EmployeeForm(firstName: string, lastName: string, email: string, phone: string,
                                       employeeNumber: string, position: string, serviceId: string)

  /** `handleDelete`: a deletion once confirmed. */
  function HandleDelete(id: int, confirmed: bool): (m: Mutation<EmployeeForm>)
    ensures m.Delete? <==> confirmed
    ensures m.Delete? ==> m.id == id
  {
    ConfirmDelete(id, confirmed)
  }

  // ---------------------------------------------------------------- the search on the objects the API sends

  /** The keys of `EmployeeRead`, the object `GET /employees` sends for an employee
      (backend/models/employee.py:73-84). */
  const EMPLOYEE_READ_KEYS: set<string> :=
    {"employeeID", "employeeNumber", "lastName", "firstName", "serviceID", "contractType", "contact",
     "birthdate", "createdAt", "updatedAt"}

  /** An object of that shape: no other key, and the two names, which are never null. */
  predicate IsEmployeeRead(o: JsonObject)
  {
    o.Keys <= EMPLOYEE_READ_KEYS && "firstName" in o && "lastName" in o
  }

  /** The test of `filteredEmployees` as written: it reads `first_name`, `last_name` and
      `email`, none of which the API sends. */
  function MatchesAsWritten(o: JsonObject, term: string): Result<bool, Thrown>
  {
    OrElse(ReadIncludes(o, "first_name", term), OrElse(ReadIncludes(o, "last_name", term), ReadIncludes(o, "email", term)))
  }

  function SearchAsWritten(objs: seq<JsonObject>, term: string): Result<seq<JsonObject>, Thrown>
  {
    FilterOrThrow(objs, (o: JsonObject) => MatchesAsWritten(o, term))
  }

  /** As written, the search throws on any non-empty list the API sends, whatever the term:
      even the empty term the page starts with, so the page fails as soon as employees load. */
  lemma SearchAsWrittenThrows(objs: seq<JsonObject>, term: string)
    requires objs != [] && forall o :: o in objs ==> IsEmployeeRead(o)
    ensures SearchAsWritten(objs, term) == Err(TypeError)
  {
    assert objs[0] in objs;
    assert "first_name" !in objs[0];
  }

  /** The test reading the names the API sends, and its contact when there is one. */
  function MatchesCorrected(o: JsonObject, term: string): Result<bool, Thrown>
  {
    OrElse(ReadIncludes(o, "firstName", term), OrElse(ReadIncludes(o, "lastName", term), Ok(ReadIncludesOptional(o, "contact", term))))
  }

  function SearchCorrected(objs: seq<JsonObject>, term: string): Result<seq<JsonObject>, Thrown>
  {
    FilterOrThrow(objs, (o: JsonObject) => MatchesCorrected(o, term))
  }

  /** Corrected, the search never throws on what the API sends, and keeps exactly the
      employees whose first name, last name or contact contains the term, ignoring case. */
  lemma SearchCorrectedKeepsMatches(objs: seq<JsonObject>, term: string)
    requires forall o :: o in objs ==> IsEmployeeRead(o)
    ensures SearchCorrected(objs, term).Ok?
    ensures forall o :: o in SearchCorrected(objs, term).value <==>
              o in objs && (Text.ContainsIgnoreCase(o["firstName"], term) || Text.ContainsIgnoreCase(o["lastName"], term)
                            || ("contact" in o && Text.ContainsIgnoreCase(o["contact"], term)))
  {
    forall i | 0 <= i < |objs|
      ensures MatchesCorrected(objs[i], term).Ok?
    {
      assert objs[i] in objs;
    }
  }

  // ---------------------------------------------------------------- the e-mail rule

  predicate IsLetter(c: char) { Text.IsUpper(c) || Text.IsLower(c) }

  /** `[A-Z0-9._%+-]` under the `i` flag. */
  predicate LocalChar(c: char) { IsLetter(c) || Text.IsDigit(c) || c in "._%+-" }

  /** `[A-Z0-9.-]` under the `i` flag. */
  predicate DomainChar(c: char) { IsLetter(c) || Text.IsDigit(c) || c in ".-" }

  /** The pattern `^[A-Z0-9._%+-]+@[A-Z0-9.-]+\.[A-Z]{2,}$` with the `i` flag matches with the
      `@` at `at` and the last dot at `dot`. */
  predicate MatchesAt(s: string, at: int, dot: int)
  {
    && 1 <= at && at + 2 <= dot && dot + 3 <= |s|
    && s[at] == '@' && s[dot] == '.'
    && (forall k :: 0 <= k < at ==> LocalChar(s[k]))
    && (forall k :: at < k < dot ==> DomainChar(s[k]))
    && (forall k :: dot < k < |s| ==> IsLetter(s[k]))
  }

  /** The e-mail rule of the form: the pattern matches somewhere. */
  predicate EmailAccepted(s: string)
  {
    exists at, dot :: 0 <= at < |s| && 0 <= dot < |s| && MatchesAt(s, at, dot)
  }

  /** A match has exactly one `@`, a letter-only ending of two letters or more after its last
      dot, and something before the `@` and between it and that dot. */
  lemma MatchShape(s: string, at: int, dot: int)
    requires MatchesAt(s, at, dot)
    ensures forall k :: 0 <= k < |s| && s[k] == '@' ==> k == at
    ensures forall k :: dot < k < |s| ==> s[k] != '.'
    ensures |s| - dot - 1 >= 2
  {
  }

  /** A one-letter ending is refused, and an accepted address holds an `@`. */
  lemma EmailRefusals(s: string)
    ensures !EmailAccepted("a@b.c")
    ensures EmailAccepted(s) ==> '@' in s
  {
    if EmailAccepted(s) {
      var at, dot :| 0 <= at < |s| && 0 <= dot < |s| && MatchesAt(s, at, dot);
      assert s[at] in s;
    }
  }

  /** A usual address is accepted, and so is one with two dots in a row in its domain, which
      the pattern lets through. */
  lemma EmailAcceptances()
    ensures EmailAccepted("jean.dupont@ghs.fr")
    ensures EmailAccepted("a@b..fr")
  {
    assert MatchesAt("jean.dupont@ghs.fr", 11, 15);
    assert MatchesAt("a@b..fr", 1, 4);
  }
}
