/** The accounts page of frontend/src/pages/Accounts.jsx: the search, the employees still
    without an account, the profile wording, the active/inactive cards and the form's rules. */
module AccountsPage {
  import opened Wrappers
  import Text
  import Seqs

  /** The fields of an account and of an employee the page reads. */
  datatype Account = Account(username: string, employeeID: int, profile: string, isActive: bool)

  datatype Employee = Employee(employeeID: int, firstName: string, lastName: string)

  /** The employee an account belongs to, if listed. */
  function EmployeeOf(employees: seq<Employee>, id: int): (r: Option<Employee>)
    ensures r.Some? ==> r.value in employees && r.value.employeeID == id
    ensures r.None? <==> forall e :: e in employees ==> e.employeeID != id
    ensures r.Some? ==> exists i :: 0 <= i < |employees| && employees[i] == r.value
                                    && forall j :: 0 <= j < i ==> employees[j].employeeID != id
  {
    Seqs.Find(employees, (e: Employee) => e.employeeID == id)
  }

  /** The search term occurs, in any case, in the username or in the first or last name of
      the account's employee. */
  predicate AccountMatches(account: Account, employees: seq<Employee>, term: string)
  {
    var e := EmployeeOf(employees, account.employeeID);
    Text.ContainsIgnoreCase(account.username, term)
    || (e.Some? && Text.ContainsIgnoreCase(e.value.firstName, term))
    || (e.Some? && Text.ContainsIgnoreCase(e.value.lastName, term))
  }

  /** `filteredAccounts`. */
  function FilteredAccounts(accounts: seq<Account>, employees: seq<Employee>, term: string): (r: seq<Account>)
    ensures forall a :: a in r <==> a in accounts && AccountMatches(a, employees, term)
    ensures Seqs.IsSubsequence(r, accounts)
  {
    Seqs.FilterIsSubsequence(accounts, (a: Account) => AccountMatches(a, employees, term));
    Seqs.Filter(accounts, (a: Account) => AccountMatches(a, employees, term))
  }

  /** An empty search lists every account; an account's own username always finds it. */
  lemma SearchCovers(accounts: seq<Account>, employees: seq<Employee>, a: Account)
    requires a in accounts
    ensures a in FilteredAccounts(accounts, employees, "")
    ensures a in FilteredAccounts(accounts, employees, a.username)
  {
    Text.ContainsSelf(a.username);
  }

  /** `employeesWithoutAccount`. */
  function EmployeesWithoutAccount(employees: seq<Employee>, accounts: seq<Account>): (r: seq<Employee>)
    ensures forall e :: e in r <==> e in employees && forall a :: a in accounts ==> a.employeeID != e.employeeID
  {
    Seqs.Filter(employees, (e: Employee) => !Seqs.Any(accounts, (a: Account) => a.employeeID == e.employeeID))
  }

  /** The create button is disabled exactly when every employee has an account. */
  predicate CreateDisabled(employees: seq<Employee>, accounts: seq<Account>)
  {
    |EmployeesWithoutAccount(employees, accounts)| == 0
  }

  lemma {:induction false} CreateDisabledIff(employees: seq<Employee>, accounts: seq<Account>)
    ensures CreateDisabled(employees, accounts) <==>
              forall e :: e in employees ==> exists a :: a in accounts && a.employeeID == e.employeeID
  {
    var r := EmployeesWithoutAccount(employees, accounts);
    if |r| > 0 {
      assert r[0] in r;
    }
  }

  /** `getProfileText`: three profiles are named; anything else reads "Validateur". */
  function ProfileText(profile: string): (r: string)
    ensures profile == "Administrator" <==> r == "Administrateur"
    ensures profile == "Supervisor" <==> r == "Superviseur"
    ensures profile == "Coordinator" <==> r == "Coordinateur"
    ensures profile !in {"Administrator", "Supervisor", "Coordinator"} <==> r == "Validateur"
  {
    if profile == "Administrator" then "Administrateur"
    else if profile == "Supervisor" then "Superviseur"
    else if profile == "Coordinator" then "Coordinateur"
    else "Validateur"
  }

  predicate IsActive(a: Account) { a.isActive }

  predicate IsInactive(a: Account) { !a.isActive }

  /** The "Comptes actifs" and "Comptes inactifs" cards. */
  function ActiveCounts(accounts: seq<Account>): (r: (nat, nat))
    ensures r.0 + r.1 == |accounts|
  {
    Seqs.CountOpposites(accounts, IsActive, IsInactive);
    (Seqs.Count(accounts, IsActive), Seqs.Count(accounts, IsInactive))
  }

  /** The creation form: an employee chosen, a username of at least 3 characters and a
      password of at least 6. */
  datatype AccountForm = AccountForm(employeeID: string, username: string, password: string)

  datatype FormError = EmployeeRequired | UsernameRequired | UsernameTooShort | PasswordRequired | PasswordTooShort

  /** The errors the form shows, one per field at most. */
  function FormErrors(form: AccountForm): (r: set<FormError>)
    ensures r == {} <==> form.employeeID != "" && |form.username| >= 3 && |form.password| >= 6
    ensures UsernameRequired in r ==> UsernameTooShort !in r
    ensures PasswordRequired in r ==> PasswordTooShort !in r
  {
    (if form.employeeID == "" then {EmployeeRequired} else {})
    + (if form.username == "" then {UsernameRequired} else if |form.username| < 3 then {UsernameTooShort} else {})
    + (if form.password == "" then {PasswordRequired} else if |form.password| < 6 then {PasswordTooShort} else {})
  }
}
