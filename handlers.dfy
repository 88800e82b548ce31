/** The write endpoints of backend/main.py over the session store. Each handler receives the
    outcome of its authentication dependency (`get_current_active_user`, already resolved to an
    account or an error) and runs, in order: the profile guard, the body's schema constraints
    (422), then the checks of its own body, then the commit. Whenever it fails the tables are
    left as they were. */
module Handlers {
  import opened Wrappers
  import opened Fields
  import opened Errors
  import opened Times
  import opened Validators
  import opened AccountModel
  import opened Records
  import opened Store
  import opened Auth
  import ServiceModel
  import EmployeeModel
  import RequestModel

  const ADMINISTRATOR_ONLY: seq<string> := ["Administrator"]
  const ADMINISTRATOR_SUPERVISOR: seq<string> := ["Administrator", "Supervisor"]

  const INVALID_BODY: string := "request body does not match the schema"
  const SERVICE_EXISTS: string := "Un service avec ce code existe déjà"
  const SERVICE_NOT_FOUND: string := "Service non trouvé"
  const SERVICE_DELETED: string := "Service supprimé avec succès"
  const EMPLOYEE_EXISTS: string := "Un employé avec ce numéro existe déjà"
  const UNKNOWN_SERVICE: string := "Le service spécifié n'existe pas"
  const EMPLOYEE_NOT_FOUND: string := "Employé non trouvé"
  const EMPLOYEE_DELETED: string := "Employé supprimé avec succès"
  const UNKNOWN_EMPLOYEE: string := "L'employé spécifié n'existe pas"
  const USERNAME_EXISTS: string := "Un compte avec ce nom d'utilisateur existe déjà"
  const REQUEST_NOT_FOUND: string := "Demande non trouvée"
  const NOT_YOUR_REQUEST: string := "Vous n'avez pas l'autorisation de modifier cette demande"
  const UNKNOWN_EMPLOYEES: string := "Un ou plusieurs employés spécifiés n'existent pas"
  const SELF_DELEGATION: string := "Un employé ne peut pas se déléguer à lui-même"
  const UNKNOWN_REQUEST: string := "La demande spécifiée n'existe pas"
  const UNKNOWN_VALIDATOR: string := "Le validateur spécifié n'existe pas"
  const NULL_IN_REQUIRED_COLUMN: string := "NOT NULL constraint failed"

  /** The loop `for key, value in data.items(): setattr(row, key, value)`, which also notes
      whether some value is a null bound for a NOT NULL column. */
  method SetAttributes<R, C>(row: R, items: seq<C>, apply: (R, C) -> R, nullsRequired: C -> bool)
    returns (r: R, nulled: bool)
    ensures r == ApplyAll(apply, row, items)
    ensures nulled <==> exists c :: c in items && nullsRequired(c)
  {
    r, nulled := row, false;
    var i := 0;
    while i < |items|
      invariant 0 <= i <= |items|
      invariant r == ApplyAll(apply, row, items[..i])
      invariant nulled <==> exists c :: c in items[..i] && nullsRequired(c)
    {
      assert items[..i + 1][..i] == items[..i];
      assert items[..i + 1] == items[..i] + [items[i]];
      r := apply(r, items[i]);
      nulled := nulled || nullsRequired(items[i]);
      i := i + 1;
    }
    assert items[..|items|] == items;
  }

  // ---------------------------------------------------------------- services

  /** `POST /services`; `isAlnumChar` is Python's one-character `isalnum`. */
  method CreateService(db: Session, caller: Result<Account, Error>, body: ServiceModel.ServiceCreate, now: int,
                       isAlnumChar: char -> bool)
    returns (r: Result<ServiceModel.Service, Error>)
    requires db.Valid()
    modifies db
    ensures db.Valid()
    ensures RequireProfile(ADMINISTRATOR_SUPERVISOR, caller).Err? ==> r == Err(RequireProfile(ADMINISTRATOR_SUPERVISOR, caller).error)
    ensures caller.Ok? && RequireProfile(ADMINISTRATOR_SUPERVISOR, caller).Ok? ==>
              (!ServiceModel.CreateFits(body) ==> r == Err(Http(UNPROCESSABLE, INVALID_BODY)))
              && (ServiceModel.CreateFits(body) && ValidateServiceCode(body.serviceCode, isAlnumChar).Fail? ==>
                    r == Err(ValidateServiceCode(body.serviceCode, isAlnumChar).error))
              && (ServiceModel.CreateFits(body) && ValidateServiceCode(body.serviceCode, isAlnumChar).Pass? && CodeTaken(old(db.services), body.serviceCode) ==>
                    r == Err(Http(BAD_REQUEST, SERVICE_EXISTS)))
              && (ServiceModel.CreateFits(body) && ValidateServiceCode(body.serviceCode, isAlnumChar).Pass? && !CodeTaken(old(db.services), body.serviceCode) ==>
                    r.Ok?)
    ensures r.Ok? ==> 2 <= |r.value.serviceCode| <= ServiceModel.CODE_MAX
                      && r.value == ServiceModel.NewService(body, r.value.serviceID, now)
                      && r.value.serviceID !in old(db.services)
                      && db.State() == old(db.State()).(services := old(db.services)[r.value.serviceID := r.value])
    ensures r.Err? ==> db.State() == old(db.State())
  {
    var user := RequireProfile(ADMINISTRATOR_SUPERVISOR, caller);
    if user.Err? {
      return Err(user.error);
    }
    if !ServiceModel.CreateFits(body) {
      return Err(Http(UNPROCESSABLE, INVALID_BODY));
    }
    var check := ValidateServiceCode(body.serviceCode, isAlnumChar);
    if check.Fail? {
      return Err(check.error);
    }
    if CodeTaken(db.services, body.serviceCode) {
      return Err(Http(BAD_REQUEST, SERVICE_EXISTS));
    }
    var row := ServiceModel.NewService(body, 0, now);
    FreshCodeKeepsServicesOk(db.services, db.nextServiceID, row);
    r := db.InsertService(row);
  }

  /** `PUT /services/{id}`: the fields sent replace the stored ones; a null for a required
      column, or a code another service has, fails at commit. */
  method UpdateService(db: Session, caller: Result<Account, Error>, id: int, u: ServiceModel.ServiceUpdate)
    returns (r: Result<ServiceModel.Service, Error>)
    requires db.Valid()
    modifies db
    ensures db.Valid()
    ensures RequireProfile(ADMINISTRATOR_SUPERVISOR, caller).Err? ==> r == Err(RequireProfile(ADMINISTRATOR_SUPERVISOR, caller).error)
    ensures caller.Ok? && RequireProfile(ADMINISTRATOR_SUPERVISOR, caller).Ok? ==>
              (!ServiceModel.UpdateFits(u) ==> r == Err(Http(UNPROCESSABLE, INVALID_BODY)))
              && (ServiceModel.UpdateFits(u) && id !in old(db.services) ==> r == Err(Http(NOT_FOUND, SERVICE_NOT_FOUND)))
              && (ServiceModel.UpdateFits(u) && id in old(db.services) && ServiceModel.ClearsRequired(u) ==> r.Err? && r.error.Database?)
              && (ServiceModel.UpdateFits(u) && id in old(db.services) && !ServiceModel.ClearsRequired(u) ==>
                    (r.Ok? <==> ServicesOk(old(db.services)[id := ServiceModel.Merge(old(db.services)[id], u)])))
    ensures r.Ok? ==> id in old(db.services) && r.value == ServiceModel.Merge(old(db.services)[id], u)
                      && db.State() == old(db.State()).(services := old(db.services)[id := r.value])
    ensures r.Err? ==> db.State() == old(db.State())
  {
    var user := RequireProfile(ADMINISTRATOR_SUPERVISOR, caller);
    if user.Err? {
      return Err(user.error);
    }
    if !ServiceModel.UpdateFits(u) {
      return Err(Http(UNPROCESSABLE, INVALID_BODY));
    }
    if id !in db.services {
      return Err(Http(NOT_FOUND, SERVICE_NOT_FOUND));
    }
    var stored := db.services[id];
    var row, nulled := SetAttributes(stored, ServiceModel.Changes(u), ServiceModel.ApplyChange, ServiceModel.NullsRequired);
    ServiceModel.ChangesMerge(stored, u);
    ServiceModel.ChangesNullsRequired(u);
    if nulled {
      return Err(Database(NULL_IN_REQUIRED_COLUMN));
    }
    r := db.ReplaceService(row);
  }

  /** `DELETE /services/{id}`: administrators only. */
  method DeleteService(db: Session, caller: Result<Account, Error>, id: int) returns (r: Result<string, Error>)
    requires db.Valid()
    modifies db
    ensures db.Valid()
    ensures RequireProfile(ADMINISTRATOR_ONLY, caller).Err? ==> r == Err(RequireProfile(ADMINISTRATOR_ONLY, caller).error)
    ensures RequireProfile(ADMINISTRATOR_ONLY, caller).Ok? && id !in old(db.services) ==> r == Err(Http(NOT_FOUND, SERVICE_NOT_FOUND))
    ensures r.Ok? <==> RequireProfile(ADMINISTRATOR_ONLY, caller).Ok? && id in old(db.services)
    ensures r.Ok? ==> r.value == SERVICE_DELETED && db.State() == old(db.State()).(services := old(db.services) - {id})
    ensures r.Err? ==> db.State() == old(db.State())
  {
    var user := RequireProfile(ADMINISTRATOR_ONLY, caller);
    if user.Err? {
      return Err(user.error);
    }
    if id !in db.services {
      return Err(Http(NOT_FOUND, SERVICE_NOT_FOUND));
    }
    db.DeleteService(id);
    r := Ok(SERVICE_DELETED);
  }

  // ---------------------------------------------------------------- employees

  /** `POST /employees`: the number's format, then its uniqueness, then the service. */
  method CreateEmployee(db: Session, caller: Result<Account, Error>, body: EmployeeModel.EmployeeCreate, now: int)
    returns (r: Result<EmployeeModel.Employee, Error>)
    requires db.Valid()
    modifies db
    ensures db.Valid()
    ensures RequireProfile(ADMINISTRATOR_SUPERVISOR, caller).Err? ==> r == Err(RequireProfile(ADMINISTRATOR_SUPERVISOR, caller).error)
    ensures caller.Ok? && RequireProfile(ADMINISTRATOR_SUPERVISOR, caller).Ok? ==>
              (!EmployeeModel.CreateFits(body) ==> r == Err(Http(UNPROCESSABLE, INVALID_BODY)))
              && (EmployeeModel.CreateFits(body) && |body.employeeNumber| < 3 ==>
                    r == Err(Http(BAD_REQUEST, EMPLOYEE_NUMBER_MESSAGE)))
              && (EmployeeModel.CreateFits(body) && |body.employeeNumber| >= 3 && NumberTaken(old(db.employees), body.employeeNumber) ==>
                    r == Err(Http(BAD_REQUEST, EMPLOYEE_EXISTS)))
              && ((EmployeeModel.CreateFits(body) && |body.employeeNumber| >= 3 && !NumberTaken(old(db.employees), body.employeeNumber)
                   && body.serviceID !in old(db.services)) ==> r == Err(Http(BAD_REQUEST, UNKNOWN_SERVICE)))
              && ((EmployeeModel.CreateFits(body) && |body.employeeNumber| >= 3 && !NumberTaken(old(db.employees), body.employeeNumber)
                   && body.serviceID in old(db.services)) ==> r.Ok?)
    ensures r.Ok? ==> r.value == EmployeeModel.NewEmployee(body, r.value.employeeID, now)
                      && r.value.employeeID !in old(db.employees)
                      && db.State() == old(db.State()).(employees := old(db.employees)[r.value.employeeID := r.value])
    ensures r.Err? ==> db.State() == old(db.State())
  {
    var user := RequireProfile(ADMINISTRATOR_SUPERVISOR, caller);
    if user.Err? {
      return Err(user.error);
    }
    if !EmployeeModel.CreateFits(body) {
      return Err(Http(UNPROCESSABLE, INVALID_BODY));
    }
    var check := ValidateEmployeeNumber(body.employeeNumber);
    if check.Fail? {
      return Err(check.error);
    }
    if NumberTaken(db.employees, body.employeeNumber) {
      return Err(Http(BAD_REQUEST, EMPLOYEE_EXISTS));
    }
    if body.serviceID !in db.services {
      return Err(Http(BAD_REQUEST, UNKNOWN_SERVICE));
    }
    var row := EmployeeModel.NewEmployee(body, 0, now);
    FreshNumberKeepsEmployeesOk(db.employees, db.nextEmployeeID, row);
    r := db.InsertEmployee(row);
  }

  /** `PUT /employees/{id}`: no uniqueness check of its own; a number another employee has
      fails at commit. */
  method UpdateEmployee(db: Session, caller: Result<Account, Error>, id: int, u: EmployeeModel.EmployeeUpdate)
    returns (r: Result<EmployeeModel.Employee, Error>)
    requires db.Valid()
    modifies db
    ensures db.Valid()
    ensures RequireProfile(ADMINISTRATOR_SUPERVISOR, caller).Err? ==> r == Err(RequireProfile(ADMINISTRATOR_SUPERVISOR, caller).error)
    ensures caller.Ok? && RequireProfile(ADMINISTRATOR_SUPERVISOR, caller).Ok? ==>
              (!EmployeeModel.UpdateFits(u) ==> r == Err(Http(UNPROCESSABLE, INVALID_BODY)))
              && (EmployeeModel.UpdateFits(u) && id !in old(db.employees) ==> r == Err(Http(NOT_FOUND, EMPLOYEE_NOT_FOUND)))
              && (EmployeeModel.UpdateFits(u) && id in old(db.employees) && EmployeeModel.ClearsRequired(u) ==> r.Err? && r.error.Database?)
              && (EmployeeModel.UpdateFits(u) && id in old(db.employees) && !EmployeeModel.ClearsRequired(u) ==>
                    (r.Ok? <==> EmployeesOk(old(db.employees)[id := EmployeeModel.Merge(old(db.employees)[id], u)])))
    ensures r.Ok? ==> id in old(db.employees) && r.value == EmployeeModel.Merge(old(db.employees)[id], u)
                      && db.State() == old(db.State()).(employees := old(db.employees)[id := r.value])
    ensures r.Err? ==> db.State() == old(db.State())
  {
    var user := RequireProfile(ADMINISTRATOR_SUPERVISOR, caller);
    if user.Err? {
      return Err(user.error);
    }
    if !EmployeeModel.UpdateFits(u) {
      return Err(Http(UNPROCESSABLE, INVALID_BODY));
    }
    if id !in db.employees {
      return Err(Http(NOT_FOUND, EMPLOYEE_NOT_FOUND));
    }
    var stored := db.employees[id];
    var row, nulled := SetAttributes(stored, EmployeeModel.Changes(u), EmployeeModel.ApplyChange, EmployeeModel.NullsRequired);
    EmployeeModel.ChangesMerge(stored, u);
    EmployeeModel.ChangesNullsRequired(u);
    if nulled {
      return Err(Database(NULL_IN_REQUIRED_COLUMN));
    }
    r := db.ReplaceEmployee(row);
  }

  /** `DELETE /employees/{id}`: administrators only. */
  method DeleteEmployee(db: Session, caller: Result<Account, Error>, id: int) returns (r: Result<string, Error>)
    requires db.Valid()
    modifies db
    ensures db.Valid()
    ensures RequireProfile(ADMINISTRATOR_ONLY, caller).Err? ==> r == Err(RequireProfile(ADMINISTRATOR_ONLY, caller).error)
    ensures RequireProfile(ADMINISTRATOR_ONLY, caller).Ok? && id !in old(db.employees) ==> r == Err(Http(NOT_FOUND, EMPLOYEE_NOT_FOUND))
    ensures r.Ok? <==> RequireProfile(ADMINISTRATOR_ONLY, caller).Ok? && id in old(db.employees)
    ensures r.Ok? ==> r.value == EMPLOYEE_DELETED && db.State() == old(db.State()).(employees := old(db.employees) - {id})
    ensures r.Err? ==> db.State() == old(db.State())
  {
    var user := RequireProfile(ADMINISTRATOR_ONLY, caller);
    if user.Err? {
      return Err(user.error);
    }
    if id !in db.employees {
      return Err(Http(NOT_FOUND, EMPLOYEE_NOT_FOUND));
    }
    db.DeleteEmployee(id);
    r := Ok(EMPLOYEE_DELETED);
  }

  // ---------------------------------------------------------------- accounts

  /** `POST /accounts`: the employee must exist and the username be free; the stored password
      is `hash(password)`. A second account for the same employee is refused only by the
      table's unique constraint, at commit. */
  method CreateAccount(db: Session, caller: Result<Account, Error>, body: AccountCreate, hash: string -> string, now: int)
    returns (r: Result<AccountRead, Error>)
    requires db.Valid()
    modifies db
    ensures db.Valid()
    ensures RequireProfile(ADMINISTRATOR_ONLY, caller).Err? ==> r == Err(RequireProfile(ADMINISTRATOR_ONLY, caller).error)
    ensures caller.Ok? && RequireProfile(ADMINISTRATOR_ONLY, caller).Ok? ==>
              (!CreateFits(body) ==> r == Err(Http(UNPROCESSABLE, INVALID_BODY)))
              && (CreateFits(body) && body.employeeID !in old(db.employees) ==> r == Err(Http(BAD_REQUEST, UNKNOWN_EMPLOYEE)))
              && (CreateFits(body) && body.employeeID in old(db.employees) && UsernameTaken(old(db.accounts), body.username) ==>
                    r == Err(Http(BAD_REQUEST, USERNAME_EXISTS)))
              && (CreateFits(body) && body.employeeID in old(db.employees) && !UsernameTaken(old(db.accounts), body.username) ==>
                    (r.Ok? <==> (forall k :: k in old(db.accounts) ==> old(db.accounts)[k].employeeID != body.employeeID)
                                && FitsIn(hash(body.password), PASSWORD_MAX)))
    ensures caller.Ok? && r.Err? && r.error.Database? ==>
              (exists k :: k in old(db.accounts) && old(db.accounts)[k].employeeID == body.employeeID)
              || !FitsIn(hash(body.password), PASSWORD_MAX)
    ensures r.Ok? ==> var row := NewAccount(body, hash(body.password), r.value.accountID, now);
                      r.value == ReadOf(row) && r.value.accountID !in old(db.accounts)
                      && db.State() == old(db.State()).(accounts := old(db.accounts)[r.value.accountID := row])
    ensures r.Err? ==> db.State() == old(db.State())
  {
    var user := RequireProfile(ADMINISTRATOR_ONLY, caller);
    if user.Err? {
      return Err(user.error);
    }
    if !CreateFits(body) {
      return Err(Http(UNPROCESSABLE, INVALID_BODY));
    }
    if body.employeeID !in db.employees {
      return Err(Http(BAD_REQUEST, UNKNOWN_EMPLOYEE));
    }
    if UsernameTaken(db.accounts, body.username) {
      return Err(Http(BAD_REQUEST, USERNAME_EXISTS));
    }
    var row := NewAccount(body, hash(body.password), 0, now);
    var id := db.nextAccountID;
    var m := db.accounts;
    var m' := m[id := row.(accountID := id)];
    ghost var free := forall k :: k in m ==> m[k].employeeID != body.employeeID;
    if free && FitsIn(hash(body.password), PASSWORD_MAX) {
      forall a, b | a in m' && b in m'
        ensures m'[a].username == m'[b].username ==> a == b
        ensures m'[a].employeeID == m'[b].employeeID ==> a == b
      {
        if a == id && b != id {
          assert m[b].username != body.username;
        } else if a != id && b == id {
          assert m[a].username != body.username;
        }
      }
      assert AccountsOk(m');
    } else if !free {
      var k :| k in m && m[k].employeeID == body.employeeID;
      assert m'[k].employeeID == m'[id].employeeID;
    } else {
      assert !AccountModel.RowFits(m'[id]);
    }
    var stored := db.InsertAccount(row);
    match stored
    case Ok(a) => r := Ok(ReadOf(a));
    case Err(e) => r := Err(e);
  }

  // ---------------------------------------------------------------- requests

  /** The times of a request body are clock times, as Python `time` values always are. */
  predicate CreateTimesValid(b: RequestModel.RequestCreate)
  {
    b.startAt.Valid() && b.endAt.Valid()
    && (b.previousStart.Some? ==> b.previousStart.value.Valid())
    && (b.previousEnd.Some? ==> b.previousEnd.value.Valid())
  }

  /** `POST /requests`: the date is not in the past, the hours are a working range, the
      previous range (when both ends are given) is increasing, the employee exists. The row is
      built from the body itself, so `createdBy` is whatever the client sent. */
  method CreateRequest(db: Session, caller: Result<Account, Error>, body: RequestModel.RequestCreate, today: int, now: int)
    returns (r: Result<RequestModel.Request, Error>)
    requires db.Valid() && CreateTimesValid(body)
    modifies db
    ensures db.Valid()
    ensures caller.Err? ==> r == Err(caller.error)
    ensures caller.Ok? ==>
              (ValidateRequestDate(body.requestDate, today).Fail? ==> r == Err(ValidateRequestDate(body.requestDate, today).error))
              && (ValidateRequestDate(body.requestDate, today).Pass? && ValidateWorkingHours(body.startAt, body.endAt).Fail? ==>
                    r == Err(ValidateWorkingHours(body.startAt, body.endAt).error))
    ensures r.Ok? <==> caller.Ok? && today <= body.requestDate && ValidateWorkingHours(body.startAt, body.endAt).Pass?
                       && (body.previousStart.Some? && body.previousEnd.Some? ==>
                             body.previousStart.value.Micros() < body.previousEnd.value.Micros())
                       && body.employeeID in old(db.employees)
    ensures r.Ok? ==> r.value == RequestModel.NewRequest(body, r.value.requestID, now)
                      && r.value.status == RequestModel.Pending && r.value.createdBy == body.createdBy
                      && r.value.requestID !in old(db.requests)
                      && db.State() == old(db.State()).(requests := old(db.requests)[r.value.requestID := r.value])
    ensures r.Err? ==> db.State() == old(db.State())
  {
    if caller.Err? {
      return Err(caller.error);
    }
    var check := ValidateRequestDate(body.requestDate, today);
    if check.Fail? {
      return Err(check.error);
    }
    check := ValidateWorkingHours(body.startAt, body.endAt);
    if check.Fail? {
      return Err(check.error);
    }
    if body.previousStart.Some? && body.previousEnd.Some? {
      check := ValidateTimeRange(body.previousStart.value, body.previousEnd.value);
      if check.Fail? {
        return Err(check.error);
      }
    }
    if body.employeeID !in db.employees {
      return Err(Http(BAD_REQUEST, UNKNOWN_EMPLOYEE));
    }
    var row := db.InsertRequest(RequestModel.NewRequest(body, 0, now));
    r := Ok(row);
  }

  /** The pair of times `update_request` validates: the new start with the new end when both
      are sent, else the new start with the stored end, else the stored start with the new
      end; nothing when no time is sent. */
  function HoursToCheck(row: RequestModel.Request, u: RequestModel.RequestUpdate): (r: Option<(Time, Time)>)
    ensures r.None? <==> !(u.startAt.Set? && u.startAt.value.Some?) && !(u.endAt.Set? && u.endAt.value.Some?)
  {
    if u.startAt.Set? && u.startAt.value.Some? && u.endAt.Set? && u.endAt.value.Some? then
      Some((u.startAt.value.value, u.endAt.value.value))
    else if u.startAt.Set? && u.startAt.value.Some? then Some((u.startAt.value.value, row.endAt))
    else if u.endAt.Set? && u.endAt.value.Some? then Some((row.startAt, u.endAt.value.value))
    else None
  }

  /** The validated pair is exactly the pair the merge stores; when no time is sent the stored
      pair is kept. So an update never stores working hours it has not validated. */
  lemma HoursCheckCoversStoredPair(row: RequestModel.Request, u: RequestModel.RequestUpdate)
    ensures HoursToCheck(row, u).Some? ==>
              HoursToCheck(row, u).value == (RequestModel.Merge(row, u).startAt, RequestModel.Merge(row, u).endAt)
    ensures HoursToCheck(row, u).None? ==>
              RequestModel.Merge(row, u).startAt == row.startAt && RequestModel.Merge(row, u).endAt == row.endAt
  {
  }

  /** The times of an update body are clock times. */
  predicate UpdateTimesValid(u: RequestModel.RequestUpdate)
  {
    (u.startAt.Set? && u.startAt.value.Some? ==> u.startAt.value.value.Valid())
    && (u.endAt.Set? && u.endAt.value.Some? ==> u.endAt.value.value.Valid())
  }

  /** Whether the caller may edit the request: its own employee, or an administrator or a
      supervisor. */
  predicate MayEdit(user: Account, row: RequestModel.Request)
  {
    row.employeeID == user.employeeID || ProfileValue(user.profile) in ADMINISTRATOR_SUPERVISOR
  }

  /** `PUT /requests/{id}`: 404, then the ownership rule (403), then the date and hour checks,
      then the partial update. The status is stored as sent, with no transition rule. */
  method UpdateRequest(db: Session, caller: Result<Account, Error>, id: int, u: RequestModel.RequestUpdate, today: int)
    returns (r: Result<RequestModel.Request, Error>)
    requires db.Valid() && UpdateTimesValid(u)
    modifies db
    ensures db.Valid()
    ensures caller.Err? ==> r == Err(caller.error)
    ensures caller.Ok? ==>
              (id !in old(db.requests) ==> r == Err(Http(NOT_FOUND, REQUEST_NOT_FOUND)))
              && (id in old(db.requests) && !MayEdit(caller.value, old(db.requests)[id]) ==> r == Err(Http(FORBIDDEN, NOT_YOUR_REQUEST)))
    ensures caller.Ok? && id in old(db.requests) && MayEdit(caller.value, old(db.requests)[id]) ==>
              var stored := old(db.requests)[id];
              (DateCheck(u, today).Fail? ==> r == Err(DateCheck(u, today).error))
              && (DateCheck(u, today).Pass? && HoursCheck(stored, u).Fail? ==> r == Err(HoursCheck(stored, u).error))
              && (DateCheck(u, today).Pass? && HoursCheck(stored, u).Pass? && RequestModel.ClearsRequired(u) ==>
                    r == Err(Database(NULL_IN_REQUIRED_COLUMN)))
    ensures r.Ok? <==> caller.Ok? && id in old(db.requests) && MayEdit(caller.value, old(db.requests)[id])
                       && UpdateAccepted(old(db.requests)[id], u, today)
    ensures r.Ok? ==> r.value == RequestModel.Merge(old(db.requests)[id], u)
                      && db.State() == old(db.State()).(requests := old(db.requests)[id := r.value])
                      && (forall s :: u.status == Set(Some(s)) ==> r.value.status == s)
                      && (HoursToCheck(old(db.requests)[id], u).Some? ==> ValidateWorkingHours(r.value.startAt, r.value.endAt).Pass?)
    ensures r.Err? ==> db.State() == old(db.State())
  {
    if caller.Err? {
      return Err(caller.error);
    }
    var user := caller.value;
    if id !in db.requests {
      return Err(Http(NOT_FOUND, REQUEST_NOT_FOUND));
    }
    var stored := db.requests[id];
    if stored.employeeID != user.employeeID && ProfileValue(user.profile) !in ADMINISTRATOR_SUPERVISOR {
      return Err(Http(FORBIDDEN, NOT_YOUR_REQUEST));
    }
    r := ApplyRequestUpdate(db, stored, u, today);
  }

  /** What the body of an update to `stored` must satisfy: a new date is not in the past,
      the hours that end up checked pass the working-hours rule, and no required column is
      set to null. */
  predicate UpdateAccepted(stored: RequestModel.Request, u: RequestModel.RequestUpdate, today: int)
    requires stored.startAt.Valid() && stored.endAt.Valid() && UpdateTimesValid(u)
  {
    && (u.requestDate.Set? && u.requestDate.value.Some? ==> today <= u.requestDate.value.value)
    && (HoursToCheck(stored, u).Some? ==> ValidateWorkingHours(HoursToCheck(stored, u).value.0, HoursToCheck(stored, u).value.1).Pass?)
    && !RequestModel.ClearsRequired(u)
  }

  /** The date check of an update: only a date that is sent is checked. */
  function DateCheck(u: RequestModel.RequestUpdate, today: int): Outcome<Error>
  {
    if u.requestDate.Set? && u.requestDate.value.Some? then ValidateRequestDate(u.requestDate.value.value, today) else Pass
  }

  /** The working-hours check of an update, on the pair `HoursToCheck` picks. */
  function HoursCheck(stored: RequestModel.Request, u: RequestModel.RequestUpdate): Outcome<Error>
    requires stored.startAt.Valid() && stored.endAt.Valid() && UpdateTimesValid(u)
  {
    var pair := HoursToCheck(stored, u);
    if pair.Some? then ValidateWorkingHours(pair.value.0, pair.value.1) else Pass
  }

  /** The second half of `PUT /requests/{id}`, once the caller may edit the stored request:
      the validations, then `setattr` of each field sent, then the commit. */
  method ApplyRequestUpdate(db: Session, stored: RequestModel.Request, u: RequestModel.RequestUpdate, today: int)
    returns (r: Result<RequestModel.Request, Error>)
    requires db.Valid() && UpdateTimesValid(u) && stored.requestID in db.requests && db.requests[stored.requestID] == stored
    modifies db
    ensures db.Valid()
    ensures r.Ok? <==> UpdateAccepted(stored, u, today)
    ensures DateCheck(u, today).Fail? ==> r == Err(DateCheck(u, today).error)
    ensures DateCheck(u, today).Pass? && HoursCheck(stored, u).Fail? ==> r == Err(HoursCheck(stored, u).error)
    ensures DateCheck(u, today).Pass? && HoursCheck(stored, u).Pass? && RequestModel.ClearsRequired(u) ==>
              r == Err(Database(NULL_IN_REQUIRED_COLUMN))
    ensures r.Ok? ==> r.value == RequestModel.Merge(stored, u)
                      && db.State() == old(db.State()).(requests := old(db.requests)[stored.requestID := r.value])
                      && (forall s :: u.status == Set(Some(s)) ==> r.value.status == s)
                      && (HoursToCheck(stored, u).Some? ==> ValidateWorkingHours(r.value.startAt, r.value.endAt).Pass?)
    ensures r.Err? ==> db.State() == old(db.State())
  {
    var dateCheck := DateCheck(u, today);
    if dateCheck.Fail? {
      return Err(dateCheck.error);
    }
    var hoursCheck := HoursCheck(stored, u);
    if hoursCheck.Fail? {
      return Err(hoursCheck.error);
    }
    var row, nulled := SetAttributes(stored, RequestModel.Changes(u), RequestModel.ApplyChange, RequestModel.NullsRequired);
    RequestModel.ChangesMerge(stored, u);
    RequestModel.ChangesNullsRequired(u);
    if nulled {
      return Err(Database(NULL_IN_REQUIRED_COLUMN));
    }
    HoursCheckCoversStoredPair(stored, u);
    db.ReplaceRequest(row);
    r := Ok(row);
  }

  // ---------------------------------------------------------------- delegations and workflows

  /** `POST /delegations`: the date range, then both employees exist, then they differ. */
  method CreateDelegation(db: Session, caller: Result<Account, Error>, body: DelegationCreate)
    returns (r: Result<Delegation, Error>)
    requires db.Valid()
    modifies db
    ensures db.Valid()
    ensures RequireProfile(ADMINISTRATOR_SUPERVISOR, caller).Err? ==> r == Err(RequireProfile(ADMINISTRATOR_SUPERVISOR, caller).error)
    ensures caller.Ok? && RequireProfile(ADMINISTRATOR_SUPERVISOR, caller).Ok? ==>
              (body.endAt < body.startAt ==> r == Err(Http(BAD_REQUEST, DATE_RANGE_MESSAGE)))
              && (body.startAt <= body.endAt && (body.delegatedBy !in old(db.employees) || body.delegatedTo !in old(db.employees)) ==>
                    r == Err(Http(BAD_REQUEST, UNKNOWN_EMPLOYEES)))
              && (body.startAt <= body.endAt && body.delegatedBy in old(db.employees) && body.delegatedBy == body.delegatedTo ==>
                    r == Err(Http(BAD_REQUEST, SELF_DELEGATION)))
    ensures r.Ok? <==> RequireProfile(ADMINISTRATOR_SUPERVISOR, caller).Ok? && body.startAt <= body.endAt
                       && body.delegatedBy in old(db.employees) && body.delegatedTo in old(db.employees)
                       && body.delegatedBy != body.delegatedTo
    ensures r.Ok? ==> r.value == NewDelegation(body, r.value.delegationID) && r.value.delegationID !in old(db.delegations)
                      && db.State() == old(db.State()).(delegations := old(db.delegations)[r.value.delegationID := r.value])
    ensures r.Err? ==> db.State() == old(db.State())
  {
    var user := RequireProfile(ADMINISTRATOR_SUPERVISOR, caller);
    if user.Err? {
      return Err(user.error);
    }
    var check := ValidateDateRange(body.startAt, body.endAt);
    if check.Fail? {
      return Err(check.error);
    }
    if body.delegatedBy !in db.employees || body.delegatedTo !in db.employees {
      return Err(Http(BAD_REQUEST, UNKNOWN_EMPLOYEES));
    }
    if body.delegatedBy == body.delegatedTo {
      return Err(Http(BAD_REQUEST, SELF_DELEGATION));
    }
    var row := db.InsertDelegation(NewDelegation(body, 0));
    r := Ok(row);
  }

  /** `POST /workflows`: the request exists, then the validator exists. */
  method CreateWorkflow(db: Session, caller: Result<Account, Error>, body: WorkflowCreate)
    returns (r: Result<Workflow, Error>)
    requires db.Valid()
    modifies db
    ensures db.Valid()
    ensures RequireProfile(ADMINISTRATOR_SUPERVISOR, caller).Err? ==> r == Err(RequireProfile(ADMINISTRATOR_SUPERVISOR, caller).error)
    ensures caller.Ok? && RequireProfile(ADMINISTRATOR_SUPERVISOR, caller).Ok? ==>
              (body.requestID !in old(db.requests) ==> r == Err(Http(BAD_REQUEST, UNKNOWN_REQUEST)))
              && (body.requestID in old(db.requests) && body.validator !in old(db.employees) ==> r == Err(Http(BAD_REQUEST, UNKNOWN_VALIDATOR)))
    ensures r.Ok? <==> RequireProfile(ADMINISTRATOR_SUPERVISOR, caller).Ok? && body.requestID in old(db.requests)
                       && body.validator in old(db.employees)
    ensures r.Ok? ==> r.value == NewWorkflow(body, r.value.workflowID) && r.value.workflowID !in old(db.workflows)
                      && db.State() == old(db.State()).(workflows := old(db.workflows)[r.value.workflowID := r.value])
    ensures r.Err? ==> db.State() == old(db.State())
  {
    var user := RequireProfile(ADMINISTRATOR_SUPERVISOR, caller);
    if user.Err? {
      return Err(user.error);
    }
    if body.requestID !in db.requests {
      return Err(Http(BAD_REQUEST, UNKNOWN_REQUEST));
    }
    if body.validator !in db.employees {
      return Err(Http(BAD_REQUEST, UNKNOWN_VALIDATOR));
    }
    var row := db.InsertWorkflow(NewWorkflow(body, 0));
    r := Ok(row);
  }
}
