/** Delegations and approval workflows (backend/models/delegation.py and
    backend/models/workflow.py): record shapes only, as the create handlers use them. */
module Records {
  import opened Wrappers

  /** A row of the `delegations` table; the two dates are day numbers. */
  datatype Delegation = Delegation(delegationID: int, delegatedBy: int, delegatedTo: int, startAt: int, endAt: int)

  /** `DelegationCreate`. */
  datatype DelegationCreate = DelegationCreate(delegatedBy: int, delegatedTo: int, startAt: int, endAt: int)

  /** `Delegation.model_validate(body)` with the key the database assigns. */
  function NewDelegation(b: DelegationCreate, id: int): (r: Delegation)
    ensures r.delegationID == id && r.delegatedBy == b.delegatedBy && r.delegatedTo == b.delegatedTo
    ensures r.startAt == b.startAt && r.endAt == b.endAt
  {
    Delegation(id, b.delegatedBy, b.delegatedTo, b.startAt, b.endAt)
  }

  /** A row of the `workflows` table; `assignDate` and `validationDate` are datetimes. */
  datatype Workflow = Workflow(
    workflowID: int,
    requestID: int,
    validator: int,
    delegate: Option<int>,
    assignDate: int,
    validationDate: Option<int>,
    status: int)

  /** `WorkflowCreate`: it has no validation date. */
  datatype WorkflowCreate = WorkflowCreate(requestID: int, validator: int, delegate: Option<int>, assignDate: int, status: int)

  /** `Workflow.model_validate(body)`: a new workflow is not validated yet. */
  function NewWorkflow(b: WorkflowCreate, id: int): (r: Workflow)
    ensures r.workflowID == id && r.requestID == b.requestID && r.validator == b.validator
    ensures r.delegate == b.delegate && r.assignDate == b.assignDate && r.status == b.status
    ensures r.validationDate == None
  {
    Workflow(id, b.requestID, b.validator, b.delegate, b.assignDate, None, b.status)
  }
}
