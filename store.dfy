/** The database as the handlers see it through a SQLModel session: one map per table, keyed
    by primary key, and one auto-increment counter per table. `Valid` holds the constraints the
    tables declare (primary keys, `unique=True` columns, column widths); a commit that would
    break one fails with a database error and is rolled back. */
module Store {
  import opened Wrappers
  import opened Errors
  import opened ServiceModel
  import opened EmployeeModel
  import opened AccountModel
  import opened RequestModel
  import opened Records

  /** `serviceCode` is unique. */
  predicate UniqueServiceCodes(m: map<int, Service>)
  {
    forall a, b :: a in m && b in m && m[a].serviceCode == m[b].serviceCode ==> a == b
  }

  /** `employeeNumber` is unique. */
  predicate UniqueEmployeeNumbers(m: map<int, Employee>)
  {
    forall a, b :: a in m && b in m && m[a].employeeNumber == m[b].employeeNumber ==> a == b
  }

  /** `username` is unique. */
  predicate UniqueUsernames(m: map<int, Account>)
  {
    forall a, b :: a in m && b in m && m[a].username == m[b].username ==> a == b
  }

  /** `employeeID` is unique among accounts: at most one account per employee. */
  predicate OneAccountPerEmployee(m: map<int, Account>)
  {
    forall a, b :: a in m && b in m && m[a].employeeID == m[b].employeeID ==> a == b
  }

  /** The constraints a commit enforces on each table. */
  predicate ServicesOk(m: map<int, Service>)
  {
    UniqueServiceCodes(m) && (forall k :: k in m ==> m[k].serviceID == k && ServiceModel.RowFits(m[k]))
  }

  predicate EmployeesOk(m: map<int, Employee>)
  {
    UniqueEmployeeNumbers(m) && (forall k :: k in m ==> m[k].employeeID == k && EmployeeModel.RowFits(m[k]))
  }

  predicate AccountsOk(m: map<int, Account>)
  {
    UniqueUsernames(m) && OneAccountPerEmployee(m) && (forall k :: k in m ==> m[k].accountID == k && AccountModel.RowFits(m[k]))
  }

  /** Request rows keep their key; their times are real clock times, as every Python `time` is. */
  predicate RequestsOk(m: map<int, Request>)
  {
    forall k :: k in m ==> m[k].requestID == k && m[k].startAt.Valid() && m[k].endAt.Valid()
  }

  predicate DelegationsOk(m: map<int, Delegation>)
  {
    forall k :: k in m ==> m[k].delegationID == k
  }

  predicate WorkflowsOk(m: map<int, Workflow>)
  {
    forall k :: k in m ==> m[k].workflowID == k
  }

  /** The account whose username is `username`, if any: `select(Account).where(...).first()`. */
  function AccountNamed(accounts: map<int, Account>, username: string): (r: Option<Account>)
    requires UniqueUsernames(accounts)
    ensures r.Some? <==> exists k :: k in accounts && accounts[k].username == username
    ensures r.Some? ==> r.value.username == username && r.value in accounts.Values
    ensures r.Some? && AccountsOk(accounts) ==> r.value.accountID in accounts && accounts[r.value.accountID] == r.value
  {
    if exists k :: k in accounts && accounts[k].username == username then
      var k :| k in accounts && accounts[k].username == username;
      Some(accounts[k])
    else None
  }

  /** Whether some service already has this code. */
  predicate CodeTaken(m: map<int, Service>, code: string)
  {
    exists k :: k in m && m[k].serviceCode == code
  }

  /** Whether some employee already has this number. */
  predicate NumberTaken(m: map<int, Employee>, number: string)
  {
    exists k :: k in m && m[k].employeeNumber == number
  }

  /** Whether some account already has this username. */
  predicate UsernameTaken(m: map<int, Account>, username: string)
  {
    exists k :: k in m && m[k].username == username
  }

  /** A snapshot of every table. */
  datatype Tables = Tables(
    services: map<int, Service>,
    employees: map<int, Employee>,
    accounts: map<int, Account>,
    requests: map<int, Request>,
    delegations: map<int, Delegation>,
    workflows: map<int, Workflow>)

  const COMMIT_FAILED: string := "commit rejected by a table constraint"

  /** The session: the tables and the next key of each. */
  class Session {
    var services: map<int, Service>
    var employees: map<int, Employee>
    var accounts: map<int, Account>
    var requests: map<int, Request>
    var delegations: map<int, Delegation>
    var workflows: map<int, Workflow>
    var nextServiceID: int
    var nextEmployeeID: int
    var nextAccountID: int
    var nextRequestID: int
    var nextDelegationID: int
    var nextWorkflowID: int

    function State(): Tables
      reads this
    {
      Tables(services, employees, accounts, requests, delegations, workflows)
    }

    /** Every declared constraint holds and every counter is above the keys in use. */
    predicate Valid()
      reads this
    {
      ServicesOk(services) && EmployeesOk(employees) && AccountsOk(accounts)
      && RequestsOk(requests) && DelegationsOk(delegations) && WorkflowsOk(workflows)
      && (forall k :: k in services ==> k < nextServiceID)
      && (forall k :: k in employees ==> k < nextEmployeeID)
      && (forall k :: k in accounts ==> k < nextAccountID)
      && (forall k :: k in requests ==> k < nextRequestID)
      && (forall k :: k in delegations ==> k < nextDelegationID)
      && (forall k :: k in workflows ==> k < nextWorkflowID)
    }

    /** An empty database. */
    constructor ()
      ensures Valid()
      ensures State() == Tables(map[], map[], map[], map[], map[], map[])
    {
      services, employees, accounts := map[], map[], map[];
      requests, delegations, workflows := map[], map[], map[];
      nextServiceID, nextEmployeeID, nextAccountID := 1, 1, 1;
      nextRequestID, nextDelegationID, nextWorkflowID := 1, 1, 1;
    }

    /** `session.add(service); session.commit()` for a new service: the database assigns a
        fresh key; a broken constraint rolls the commit back. */
    method InsertService(row: Service) returns (r: Result<Service, Error>)
      requires Valid()
      modifies this
      ensures Valid()
      ensures r.Ok? <==> ServicesOk(old(services)[old(nextServiceID) := row.(serviceID := old(nextServiceID))])
      ensures r.Ok? ==> r.value == row.(serviceID := r.value.serviceID) && r.value.serviceID !in old(services)
                        && State() == old(State()).(services := old(services)[r.value.serviceID := r.value])
      ensures r.Err? ==> r.error.Database? && State() == old(State())
    {
      var stored := row.(serviceID := nextServiceID);
      if ServicesOk(services[nextServiceID := stored]) {
        services := services[nextServiceID := stored];
        nextServiceID := nextServiceID + 1;
        r := Ok(stored);
      } else {
        r := Err(Database(COMMIT_FAILED));
      }
    }

    /** Commit of a modified service row (its key is kept). */
    method ReplaceService(row: Service) returns (r: Result<Service, Error>)
      requires Valid() && row.serviceID in services
      modifies this
      ensures Valid()
      ensures r.Ok? <==> ServicesOk(old(services)[row.serviceID := row])
      ensures r.Ok? ==> r.value == row && State() == old(State()).(services := old(services)[row.serviceID := row])
      ensures r.Err? ==> r.error.Database? && State() == old(State())
    {
      if ServicesOk(services[row.serviceID := row]) {
        services := services[row.serviceID := row];
        r := Ok(row);
      } else {
        r := Err(Database(COMMIT_FAILED));
      }
    }

    /** `session.delete(service); session.commit()`. */
    method DeleteService(id: int)
      requires Valid() && id in services
      modifies this
      ensures Valid()
      ensures State() == old(State()).(services := old(services) - {id})
    {
      services := services - {id};
    }

    method InsertEmployee(row: Employee) returns (r: Result<Employee, Error>)
      requires Valid()
      modifies this
      ensures Valid()
      ensures r.Ok? <==> EmployeesOk(old(employees)[old(nextEmployeeID) := row.(employeeID := old(nextEmployeeID))])
      ensures r.Ok? ==> r.value == row.(employeeID := r.value.employeeID) && r.value.employeeID !in old(employees)
                        && State() == old(State()).(employees := old(employees)[r.value.employeeID := r.value])
      ensures r.Err? ==> r.error.Database? && State() == old(State())
    {
      var stored := row.(employeeID := nextEmployeeID);
      if EmployeesOk(employees[nextEmployeeID := stored]) {
        employees := employees[nextEmployeeID := stored];
        nextEmployeeID := nextEmployeeID + 1;
        r := Ok(stored);
      } else {
        r := Err(Database(COMMIT_FAILED));
      }
    }

    method ReplaceEmployee(row: Employee) returns (r: Result<Employee, Error>)
      requires Valid() && row.employeeID in employees
      modifies this
      ensures Valid()
      ensures r.Ok? <==> EmployeesOk(old(employees)[row.employeeID := row])
      ensures r.Ok? ==> r.value == row && State() == old(State()).(employees := old(employees)[row.employeeID := row])
      ensures r.Err? ==> r.error.Database? && State() == old(State())
    {
      if EmployeesOk(employees[row.employeeID := row]) {
        employees := employees[row.employeeID := row];
        r := Ok(row);
      } else {
        r := Err(Database(COMMIT_FAILED));
      }
    }

    method DeleteEmployee(id: int)
      requires Valid() && id in employees
      modifies this
      ensures Valid()
      ensures State() == old(State()).(employees := old(employees) - {id})
    {
      employees := employees - {id};
    }

    method InsertAccount(row: Account) returns (r: Result<Account, Error>)
      requires Valid()
      modifies this
      ensures Valid()
      ensures r.Ok? <==> AccountsOk(old(accounts)[old(nextAccountID) := row.(accountID := old(nextAccountID))])
      ensures r.Ok? ==> r.value == row.(accountID := r.value.accountID) && r.value.accountID !in old(accounts)
                        && State() == old(State()).(accounts := old(accounts)[r.value.accountID := r.value])
      ensures r.Err? ==> r.error.Database? && State() == old(State())
    {
      var stored := row.(accountID := nextAccountID);
      if AccountsOk(accounts[nextAccountID := stored]) {
        accounts := accounts[nextAccountID := stored];
        nextAccountID := nextAccountID + 1;
        r := Ok(stored);
      } else {
        r := Err(Database(COMMIT_FAILED));
      }
    }

    method ReplaceAccount(row: Account) returns (r: Result<Account, Error>)
      requires Valid() && row.accountID in accounts
      modifies this
      ensures Valid()
      ensures r.Ok? <==> AccountsOk(old(accounts)[row.accountID := row])
      ensures r.Ok? ==> r.value == row && State() == old(State()).(accounts := old(accounts)[row.accountID := row])
      ensures r.Err? ==> r.error.Database? && State() == old(State())
    {
      if AccountsOk(accounts[row.accountID := row]) {
        accounts := accounts[row.accountID := row];
        r := Ok(row);
      } else {
        r := Err(Database(COMMIT_FAILED));
      }
    }

    method InsertRequest(row: Request) returns (r: Request)
      requires Valid() && row.startAt.Valid() && row.endAt.Valid()
      modifies this
      ensures Valid()
      ensures r == row.(requestID := r.requestID) && r.requestID !in old(requests)
      ensures State() == old(State()).(requests := old(requests)[r.requestID := r])
    {
      r := row.(requestID := nextRequestID);
      requests := requests[nextRequestID := r];
      nextRequestID := nextRequestID + 1;
    }

    method ReplaceRequest(row: Request)
      requires Valid() && row.requestID in requests && row.startAt.Valid() && row.endAt.Valid()
      modifies this
      ensures Valid()
      ensures State() == old(State()).(requests := old(requests)[row.requestID := row])
    {
      requests := requests[row.requestID := row];
    }

    method InsertDelegation(row: Delegation) returns (r: Delegation)
      requires Valid()
      modifies this
      ensures Valid()
      ensures r == row.(delegationID := r.delegationID) && r.delegationID !in old(delegations)
      ensures State() == old(State()).(delegations := old(delegations)[r.delegationID := r])
    {
      r := row.(delegationID := nextDelegationID);
      delegations := delegations[nextDelegationID := r];
      nextDelegationID := nextDelegationID + 1;
    }

    method InsertWorkflow(row: Workflow) returns (r: Workflow)
      requires Valid()
      modifies this
      ensures Valid()
      ensures r == row.(workflowID := r.workflowID) && r.workflowID !in old(workflows)
      ensures State() == old(State()).(workflows := old(workflows)[r.workflowID := r])
    {
      r := row.(workflowID := nextWorkflowID);
      workflows := workflows[nextWorkflowID := r];
      nextWorkflowID := nextWorkflowID + 1;
    }
  }

  /** A service row whose code is new joins the table without breaking its constraints, as
      long as the row fits the columns. */
  lemma {:induction false} FreshCodeKeepsServicesOk(m: map<int, Service>, id: int, row: Service)
    requires ServicesOk(m) && id !in m && !CodeTaken(m, row.serviceCode) && ServiceModel.RowFits(row)
    ensures ServicesOk(m[id := row.(serviceID := id)])
  {
    var m' := m[id := row.(serviceID := id)];
    forall a, b | a in m' && b in m' && m'[a].serviceCode == m'[b].serviceCode
      ensures a == b
    {
      if a == id && b != id {
        assert false;
      } else if a != id && b == id {
        assert false;
      }
    }
  }

  /** The same for an employee whose number is new. */
  lemma {:induction false} FreshNumberKeepsEmployeesOk(m: map<int, Employee>, id: int, row: Employee)
    requires EmployeesOk(m) && id !in m && !NumberTaken(m, row.employeeNumber) && EmployeeModel.RowFits(row)
    ensures EmployeesOk(m[id := row.(employeeID := id)])
  {
    var m' := m[id := row.(employeeID := id)];
    forall a, b | a in m' && b in m' && m'[a].employeeNumber == m'[b].employeeNumber
      ensures a == b
    {
      if a == id && b != id {
        assert false;
      } else if a != id && b == id {
        assert false;
      }
    }
  }
}
