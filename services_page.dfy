/** The services page of frontend/src/pages/Services.jsx: the search, the employee count of
    a service, and the calls its form and its delete button make. */
module ServicesPage {
  import opened Wrappers
  import Text
  import Seqs
  import opened PageCommon

  /** The fields of a service and of an employee the page reads, under the names the page
      uses (`id`, `name`, `service_id`); the description is optional. The API sends other
      keys, see `SearchAsWrittenThrows` below. */
  datatype Service = Service(id: int, name: string, description: Option<string>)

  datatype Employee = Employee(id: int, serviceId: Option<int>)

  /** The term occurs, in any case, in the name or in the description. */
  predicate ServiceMatches(service: Service, term: string)
  {
    Text.ContainsIgnoreCase(service.name, term)
    || (service.description.Some? && Text.ContainsIgnoreCase(service.description.value, term))
  }

  /** `filteredServices`. */
  function FilteredServices(services: seq<Service>, term: string): (r: seq<Service>)
    ensures forall s :: s in r <==> s in services && ServiceMatches(s, term)
    ensures Seqs.IsSubsequence(r, services)
  {
    Seqs.FilterIsSubsequence(services, (s: Service) => ServiceMatches(s, term));
    Seqs.Filter(services, (s: Service) => ServiceMatches(s, term))
  }

  /** A service without a description is found by its name only. */
  lemma NoDescriptionSearchesName(service: Service, term: string)
    requires service.description.None?
    ensures ServiceMatches(service, term) <==> Text.ContainsIgnoreCase(service.name, term)
  {
  }

  /** `getEmployeeCount`: the employees attached to the service. */
  function EmployeeCount(employees: seq<Employee>, serviceId: int): (n: nat)
    ensures n <= |employees|
    ensures n == 0 <==> forall e :: e in employees ==> e.serviceId != Some(serviceId)
  {
    var attached := Seqs.Filter(employees, (e: Employee) => e.serviceId == Some(serviceId));
    assert |attached| > 0 ==> attached[0] in attached;
    |attached|
  }

  /** The body of the form. */
  datatype ServiceForm = ServiceForm(name: string, description: string)

  /** `handleDelete`: refused, with an error message and no call and without asking, while an
      employee is attached; otherwise a deletion once confirmed. The boolean tells whether
      the refusal message is shown. */
  function HandleDelete(employees: seq<Employee>, id: int, confirmed: bool): (r: (Mutation<ServiceForm>, bool))
    ensures r.1 <==> EmployeeCount(employees, id) > 0
    ensures r.0.Delete? <==> EmployeeCount(employees, id) == 0 && confirmed
    ensures r.0.Delete? ==> r.0.id == id
    ensures !r.0.Delete? ==> r.0 == NoCall
  {
    if EmployeeCount(employees, id) > 0 then (NoCall, true)
    else (ConfirmDelete(id, confirmed), false)
  }

  /** A service that still has employees can never be deleted from this page. */
  lemma AttachedServiceKept(employees: seq<Employee>, e: Employee, confirmed: bool)
    requires e in employees && e.serviceId.Some?
    ensures HandleDelete(employees, e.serviceId.value, confirmed).0 == NoCall
  {
  }

  // ---------------------------------------------------------------- the search on the objects the API sends

  /** The keys of `ServiceRead`, the object `GET /services` sends for a service
      (backend/models/service.py:47-56). */
  const SERVICE_READ_KEYS: set<string> :=
    {"serviceID", "serviceCode", "serviceName", "parentServiceID", "description", "manager", "createdAt", "updatedAt"}

  /** An object of that shape: no other key, and the code and name, which are never null. */
  predicate IsServiceRead(o: JsonObject)
  {
    o.Keys <= SERVICE_READ_KEYS && "serviceCode" in o && "serviceName" in o
  }

  /** The test of `filteredServices` as written: it reads `name`, which the API does not
      send, and the optional `description`. */
  function MatchesAsWritten(o: JsonObject, term: string): Result<bool, Thrown>
  {
    OrElse(ReadIncludes(o, "name", term), Ok(ReadIncludesOptional(o, "description", term)))
  }

  function SearchAsWritten(objs: seq<JsonObject>, term: string): Result<seq<JsonObject>, Thrown>
  {
    FilterOrThrow(objs, (o: JsonObject) => MatchesAsWritten(o, term))
  }

  /** As written, the search throws on any non-empty list the API sends, whatever the term. */
  lemma SearchAsWrittenThrows(objs: seq<JsonObject>, term: string)
    requires objs != [] && forall o :: o in objs ==> IsServiceRead(o)
    ensures SearchAsWritten(objs, term) == Err(TypeError)
  {
    assert objs[0] in objs;
    assert "name" !in objs[0];
  }

  /** The test reading the name the API sends, and the description when there is one. */
  function MatchesCorrected(o: JsonObject, term: string): Result<bool, Thrown>
  {
    OrElse(ReadIncludes(o, "serviceName", term), Ok(ReadIncludesOptional(o, "description", term)))
  }

  function SearchCorrected(objs: seq<JsonObject>, term: string): Result<seq<JsonObject>, Thrown>
  {
    FilterOrThrow(objs, (o: JsonObject) => MatchesCorrected(o, term))
  }

  /** Corrected, the search never throws on what the API sends, and keeps exactly the
      services whose name or description contains the term, ignoring case. */
  lemma SearchCorrectedKeepsMatches(objs: seq<JsonObject>, term: string)
    requires forall o :: o in objs ==> IsServiceRead(o)
    ensures SearchCorrected(objs, term).Ok?
    ensures forall o :: o in SearchCorrected(objs, term).value <==>
              o in objs && (Text.ContainsIgnoreCase(o["serviceName"], term)
                            || ("description" in o && Text.ContainsIgnoreCase(o["description"], term)))
  {
    forall i | 0 <= i < |objs|
      ensures MatchesCorrected(objs[i], term).Ok?
    {
      assert objs[i] in objs;
    }
  }
}
