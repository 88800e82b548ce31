/** The validation page of frontend/src/pages/Validation.jsx: the status filter, the summary
    counts, and the status updates the approve and reject buttons send. */
module ValidationPage {
  import opened Wrappers
  import Seqs
  import RequestModel
  import opened PageCommon

  /** The fields of a request the page reads. */
  datatype Request = Request(id: int, employeeId: int, status: string)

  datatype Employee = Employee(id: int, firstName: string, lastName: string)

  const ALL: string := "all"

  /** `filteredRequests`: every request for "all", otherwise the requests whose status is
      exactly the selected one. */
  function FilteredRequests(requests: seq<Request>, statusFilter: string): (r: seq<Request>)
    ensures statusFilter == ALL ==> r == requests
    ensures statusFilter != ALL ==> forall x :: x in r <==> x in requests && x.status == statusFilter
  {
    if statusFilter == ALL then requests
    else Seqs.Filter(requests, (x: Request) => x.status == statusFilter)
  }

  /** The three summary cards: pending, approved and rejected, over all requests. */
  datatype Summary = Summary(pending: nat, approved: nat, rejected: nat)

  function SummaryCounts(requests: seq<Request>): (s: Summary)
    ensures s.pending <= |requests| && s.approved <= |requests| && s.rejected <= |requests|
  {
    Summary(Seqs.Count(requests, (x: Request) => x.status == "Pending"),
            Seqs.Count(requests, (x: Request) => x.status == "Approved"),
            Seqs.Count(requests, (x: Request) => x.status == "Rejected"))
  }

  /** The summary ignores the filter: each card counts what the matching filter would list,
      whatever filter is selected. */
  lemma SummaryIgnoresFilter(requests: seq<Request>)
    ensures SummaryCounts(requests).pending == |FilteredRequests(requests, "Pending")|
    ensures SummaryCounts(requests).approved == |FilteredRequests(requests, "Approved")|
    ensures SummaryCounts(requests).rejected == |FilteredRequests(requests, "Rejected")|
  {
    FilterSameCount(requests, "Pending");
    FilterSameCount(requests, "Approved");
    FilterSameCount(requests, "Rejected");
  }

  lemma FilterSameCount(requests: seq<Request>, status: string)
    requires status != ALL
    ensures Seqs.Count(requests, (x: Request) => x.status == status) == |FilteredRequests(requests, status)|
  {
  }

  /** `getEmployeeName`. */
  function EmployeeName(employees: seq<Employee>, id: int): (r: string)
    ensures (forall e :: e in employees ==> e.id != id) ==> r == "Employé inconnu"
    ensures (exists e :: e in employees && e.id == id) ==>
              exists i :: 0 <= i < |employees| && employees[i].id == id
                          && r == employees[i].firstName + " " + employees[i].lastName
                          && forall j :: 0 <= j < i ==> employees[j].id != id
  {
    var e := Seqs.Find(employees, (x: Employee) => x.id == id);
    if e.Some? then e.value.firstName + " " + e.value.lastName else "Employé inconnu"
  }

  /** The body of the status update. */
  datatype StatusUpdate = StatusUpdate(status: string, comment: string)

  const APPROVED_COMMENT: string := "Demande approuvée"
  const REJECTED_COMMENT: string := "Demande rejetée"

  /** `handleApprove`. */
  function Approve(request: Request): (m: Mutation<StatusUpdate>)
    ensures m == Update(request.id, StatusUpdate("Approved", APPROVED_COMMENT))
  {
    Update(request.id, StatusUpdate("Approved", APPROVED_COMMENT))
  }

  /** `handleReject`: `prompt` is what the dialog returned (`None` when it was cancelled);
      an empty or cancelled answer is replaced by the default comment. The update is sent
      in every case. */
  function Reject(request: Request, prompt: Option<string>): (m: Mutation<StatusUpdate>)
    ensures m.Update? && m.id == request.id && m.data.status == "Rejected"
    ensures m.data.comment != ""
    ensures prompt.Some? && prompt.value != "" ==> m.data.comment == prompt.value
  {
    var comment := if prompt.Some? && prompt.value != "" then prompt.value else REJECTED_COMMENT;
    Update(request.id, StatusUpdate("Rejected", comment))
  }

  /** Approving and rejecting send statuses of this page's vocabulary, which the API's
      status enumeration does not contain. */
  lemma DecisionsNotApiStatuses(request: Request, prompt: Option<string>)
    ensures RequestModel.ParseStatus(Approve(request).data.status).None?
    ensures RequestModel.ParseStatus(Reject(request, prompt).data.status).None?
  {
    RequestModel.ClientLabelsAreNotStatuses();
  }

  /** The decision buttons of a row: offered only on a pending request. */
  function RowDecision(request: Request, approve: bool, prompt: Option<string>): (m: Mutation<StatusUpdate>)
    ensures !ActionsOffered(request.status) ==> m == NoCall
    ensures ActionsOffered(request.status) ==> m.Update? && m.id == request.id
  {
    if !ActionsOffered(request.status) then NoCall
    else if approve then Approve(request) else Reject(request, prompt)
  }
}
