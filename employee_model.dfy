/** Employees as the backend stores them (backend/models/employee.py): the contract types,
    the table row with its column limits, the creation schema and the partial-update schema. */
module EmployeeModel {
  import opened Wrappers
  import opened Fields

  /** `ContractType`. */
  datatype ContractType = CDI | CDD | Interim | Stage | Alternance | MOO

  function ContractValue(c: ContractType): string
  {
    match c
    case CDI => "CDI"
    case CDD => "CDD"
    case Interim => "Interim"
    case Stage => "Stage"
    case Alternance => "Alternance"
    case MOO => "MOO"
  }

  /** Pydantic's enum validation for a contract type. */
  function ParseContract(v: string): (r: Option<ContractType>)
    ensures r.Some? ==> ContractValue(r.value) == v
  {
    if v == "CDI" then Some(CDI)
    else if v == "CDD" then Some(CDD)
    else if v == "Interim" then Some(Interim)
    else if v == "Stage" then Some(Stage)
    else if v == "Alternance" then Some(Alternance)
    else if v == "MOO" then Some(MOO)
    else None
  }

  const CONTRACT_VALUES: seq<string> := ["CDI", "CDD", "Interim", "Stage", "Alternance", "MOO"]

  /** Serialising then parsing gives the contract type back, and exactly six values parse. */
  lemma ContractRoundTrip(c: ContractType, d: ContractType, v: string)
    ensures ParseContract(ContractValue(c)) == Some(c)
    ensures ContractValue(c) == ContractValue(d) ==> c == d
    ensures ParseContract(v).Some? <==> v in CONTRACT_VALUES
    ensures |CONTRACT_VALUES| == 6
  {
    assert ParseContract(ContractValue(d)) == Some(d);
  }

  const NUMBER_MAX: nat := 20
  const LAST_NAME_MAX: nat := 20
  const FIRST_NAME_MAX: nat := 30
  const CONTACT_MAX: nat := 20

  /** A row of the `employees` table. */
  datatype Employee = Employee(
    employeeID: int,
    employeeNumber: string,
    lastName: string,
    firstName: string,
    serviceID: int,
    contractType: ContractType,
    contact: Option<string>,
    birthdate: Option<int>,
    createdAt: int,
    updatedAt: int)

  predicate OptionFits(s: Option<string>, n: nat)
  {
    s.Some? ==> FitsIn(s.value, n)
  }

  /** The column widths of the table. */
  predicate RowFits(e: Employee)
  {
    FitsIn(e.employeeNumber, NUMBER_MAX) && FitsIn(e.lastName, LAST_NAME_MAX)
    && FitsIn(e.firstName, FIRST_NAME_MAX) && OptionFits(e.contact, CONTACT_MAX)
  }

  /** `EmployeeCreate`. */
  datatype EmployeeCreate = EmployeeCreate(
    employeeNumber: string,
    lastName: string,
    firstName: string,
    serviceID: int,
    contractType: ContractType,
    contact: Option<string>,
    birthdate: Option<int>)

  /** A creation body that leaves out the optional fields gets their declared defaults. */
  function DefaultEmployeeCreate(employeeNumber: string, lastName: string, firstName: string, serviceID: int): (b: EmployeeCreate)
    ensures b.contractType == CDI && b.contact == None && b.birthdate == None
    ensures b.employeeNumber == employeeNumber && b.lastName == lastName
    ensures b.firstName == firstName && b.serviceID == serviceID
  {
    EmployeeCreate(employeeNumber, lastName, firstName, serviceID, CDI, None, None)
  }

  /** The `max_length` constraints Pydantic checks on a creation body. */
  predicate CreateFits(b: EmployeeCreate)
  {
    FitsIn(b.employeeNumber, NUMBER_MAX) && FitsIn(b.lastName, LAST_NAME_MAX)
    && FitsIn(b.firstName, FIRST_NAME_MAX) && OptionFits(b.contact, CONTACT_MAX)
  }

  /** `Employee.model_validate(body)`. */
  function NewEmployee(b: EmployeeCreate, id: int, now: int): (r: Employee)
    ensures r.employeeID == id && r.createdAt == now && r.updatedAt == now
    ensures r.employeeNumber == b.employeeNumber && r.lastName == b.lastName && r.firstName == b.firstName
    ensures r.serviceID == b.serviceID && r.contractType == b.contractType
    ensures r.contact == b.contact && r.birthdate == b.birthdate
    ensures CreateFits(b) ==> RowFits(r)
  {
    Employee(id, b.employeeNumber, b.lastName, b.firstName, b.serviceID, b.contractType, b.contact, b.birthdate, now, now)
  }

  /** `EmployeeUpdate`: every field optional, every field nullable. */
  datatype EmployeeUpdate = EmployeeUpdate(
    employeeNumber: Field<Option<string>>,
    lastName: Field<Option<string>>,
    firstName: Field<Option<string>>,
    serviceID: Field<Option<int>>,
    contractType: Field<Option<ContractType>>,
    contact: Field<Option<string>>,
    birthdate: Field<Option<int>>)

  /** The `max_length` constraints Pydantic checks on an update body (null passes). */
  predicate UpdateFits(u: EmployeeUpdate)
  {
    (u.employeeNumber.Set? ==> OptionFits(u.employeeNumber.value, NUMBER_MAX))
    && (u.lastName.Set? ==> OptionFits(u.lastName.value, LAST_NAME_MAX))
    && (u.firstName.Set? ==> OptionFits(u.firstName.value, FIRST_NAME_MAX))
    && (u.contact.Set? ==> OptionFits(u.contact.value, CONTACT_MAX))
  }

  /** One `setattr` of the update loop. */
  datatype EmployeeChange =
    | SetEmployeeNumber(employeeNumber: Option<string>)
    | SetLastName(lastName: Option<string>)
    | SetFirstName(firstName: Option<string>)
    | SetServiceID(serviceID: Option<int>)
    | SetContractType(contractType: Option<ContractType>)
    | SetContact(contact: Option<string>)
    | SetBirthdate(birthdate: Option<int>)

  /** The item `model_dump(exclude_unset=True)` yields for each field. */
  function Item1(u: EmployeeUpdate): seq<EmployeeChange> { if u.employeeNumber.Set? then [SetEmployeeNumber(u.employeeNumber.value)] else [] }
  function Item2(u: EmployeeUpdate): seq<EmployeeChange> { if u.lastName.Set? then [SetLastName(u.lastName.value)] else [] }
  function Item3(u: EmployeeUpdate): seq<EmployeeChange> { if u.firstName.Set? then [SetFirstName(u.firstName.value)] else [] }
  function Item4(u: EmployeeUpdate): seq<EmployeeChange> { if u.serviceID.Set? then [SetServiceID(u.serviceID.value)] else [] }
  function Item5(u: EmployeeUpdate): seq<EmployeeChange> { if u.contractType.Set? then [SetContractType(u.contractType.value)] else [] }
  function Item6(u: EmployeeUpdate): seq<EmployeeChange> { if u.contact.Set? then [SetContact(u.contact.value)] else [] }
  function Item7(u: EmployeeUpdate): seq<EmployeeChange> { if u.birthdate.Set? then [SetBirthdate(u.birthdate.value)] else [] }

  /** `model_dump(exclude_unset=True).items()`, in declaration order. */
  function Changes(u: EmployeeUpdate): seq<EmployeeChange>
  {
    Item1(u) + Item2(u) + Item3(u) + Item4(u) + Item5(u) + Item6(u) + Item7(u)
  }

  /** A change that writes null into a NOT NULL column. */
  predicate NullsRequired(c: EmployeeChange)
  {
    (c.SetEmployeeNumber? && c.employeeNumber.None?) || (c.SetLastName? && c.lastName.None?)
    || (c.SetFirstName? && c.firstName.None?) || (c.SetServiceID? && c.serviceID.None?)
    || (c.SetContractType? && c.contractType.None?)
  }

  /** The update sends null for a column that may not be null. */
  predicate ClearsRequired(u: EmployeeUpdate)
  {
    u.employeeNumber == Set(None) || u.lastName == Set(None) || u.firstName == Set(None)
    || u.serviceID == Set(None) || u.contractType == Set(None)
  }

  /** `setattr(row, key, value)`; a null for a NOT NULL column leaves the row as it is. */
  function ApplyChange(r: Employee, c: EmployeeChange): Employee
  {
    match c
    case SetEmployeeNumber(v) => if v.Some? then r.(employeeNumber := v.value) else r
    case SetLastName(v) => if v.Some? then r.(lastName := v.value) else r
    case SetFirstName(v) => if v.Some? then r.(firstName := v.value) else r
    case SetServiceID(v) => if v.Some? then r.(serviceID := v.value) else r
    case SetContractType(v) => if v.Some? then r.(contractType := v.value) else r
    case SetContact(v) => r.(contact := v)
    case SetBirthdate(v) => r.(birthdate := v)
  }

  /** The row after a successful partial update, field by field. */
  function Merge(r: Employee, u: EmployeeUpdate): Employee
  {
    r.(employeeNumber := u.employeeNumber.Or(Some(r.employeeNumber)).GetOr(r.employeeNumber),
       lastName := u.lastName.Or(Some(r.lastName)).GetOr(r.lastName),
       firstName := u.firstName.Or(Some(r.firstName)).GetOr(r.firstName),
       serviceID := u.serviceID.Or(Some(r.serviceID)).GetOr(r.serviceID),
       contractType := u.contractType.Or(Some(r.contractType)).GetOr(r.contractType),
       contact := u.contact.Or(r.contact),
       birthdate := u.birthdate.Or(r.birthdate))
  }

  /** A merge keeps the key and the timestamps, and keeps the column widths when the body
      passed schema validation. */
  lemma MergeKeepsShape(r: Employee, u: EmployeeUpdate)
    ensures Merge(r, u).employeeID == r.employeeID
    ensures Merge(r, u).createdAt == r.createdAt && Merge(r, u).updatedAt == r.updatedAt
    ensures RowFits(r) && UpdateFits(u) ==> RowFits(Merge(r, u))
  {
  }

  function Step(r: Employee, item: seq<EmployeeChange>): Employee
  {
    ApplyStep(ApplyChange, r, item)
  }

  lemma MergeBySteps(r: Employee, u: EmployeeUpdate)
    ensures Step(Step(Step(Step(Step(Step(Step(r, Item1(u)), Item2(u)), Item3(u)), Item4(u)), Item5(u)), Item6(u)), Item7(u))
            == Merge(r, u)
  {
    var m := Merge(r, u);
    var s1 := Step(r, Item1(u));
    assert s1 == r.(employeeNumber := m.employeeNumber);
    var s2 := Step(s1, Item2(u));
    assert s2 == s1.(lastName := m.lastName);
    var s3 := Step(s2, Item3(u));
    assert s3 == s2.(firstName := m.firstName);
    var s4 := Step(s3, Item4(u));
    assert s4 == s3.(serviceID := m.serviceID);
    var s5 := Step(s4, Item5(u));
    assert s5 == s4.(contractType := m.contractType);
    var s6 := Step(s5, Item6(u));
    assert s6 == s5.(contact := m.contact);
    var s7 := Step(s6, Item7(u));
    assert s7 == s6.(birthdate := m.birthdate);
  }

  /** Running `setattr` over the items of the payload yields the field-wise merge. */
  lemma {:induction false} ChangesMerge(r: Employee, u: EmployeeUpdate)
    ensures ApplyAll(ApplyChange, r, Changes(u)) == Merge(r, u)
  {
    var i1, i2, i3, i4, i5, i6, i7 := Item1(u), Item2(u), Item3(u), Item4(u), Item5(u), Item6(u), Item7(u);
    ApplyAllStep(ApplyChange, r, [], i1);
    assert [] + i1 == i1;
    ApplyAllStep(ApplyChange, r, i1, i2);
    ApplyAllStep(ApplyChange, r, i1 + i2, i3);
    ApplyAllStep(ApplyChange, r, i1 + i2 + i3, i4);
    ApplyAllStep(ApplyChange, r, i1 + i2 + i3 + i4, i5);
    ApplyAllStep(ApplyChange, r, i1 + i2 + i3 + i4 + i5, i6);
    ApplyAllStep(ApplyChange, r, i1 + i2 + i3 + i4 + i5 + i6, i7);
    MergeBySteps(r, u);
  }

  /** Some item writes null into a NOT NULL column exactly when the update clears one. */
  lemma ChangesNullsRequired(u: EmployeeUpdate)
    ensures (exists c :: c in Changes(u) && NullsRequired(c)) <==> ClearsRequired(u)
  {
    var cs := Changes(u);
    if ClearsRequired(u) {
      var k := if u.employeeNumber == Set(None) then SetEmployeeNumber(None)
               else if u.lastName == Set(None) then SetLastName(None)
               else if u.firstName == Set(None) then SetFirstName(None)
               else if u.serviceID == Set(None) then SetServiceID(None)
               else SetContractType(None);
      assert k in cs;
    } else {
      forall c | c in cs ensures !NullsRequired(c) {
        assert c in Item1(u) || c in Item2(u) || c in Item3(u) || c in Item4(u) || c in Item5(u)
            || c in Item6(u) || c in Item7(u);
      }
    }
  }
}
