/** Overtime requests as the backend stores them (backend/models/request.py): the status
    enumeration, the table row, the creation and partial-update schemas and the
    request/employee link rows that carry the hour totals. Dates are day numbers, datetimes
    microsecond counts (see module Times). */
module RequestModel {
  import opened Wrappers
  import opened Fields
  import opened Times

  /** `RequestStatus`: the seven values the API accepts for a request's status. */
  datatype RequestStatus =
    | Pending | Submitted | FirstLevelApproved | InProgress | SecondLevelApproved | Accepted | Rejected

  /** The string each status is serialised as. */
  function StatusValue(s: RequestStatus): string
  {
    match s
    case Pending => "pending"
    case Submitted => "submitted"
    case FirstLevelApproved => "firstLevelApproved"
    case InProgress => "inProgress"
    case SecondLevelApproved => "secondLevelApproved"
    case Accepted => "accepted"
    case Rejected => "rejected"
  }

  /** Pydantic's enum validation: the status whose value is `v`, if there is one. */
  function ParseStatus(v: string): (r: Option<RequestStatus>)
    ensures r.Some? ==> StatusValue(r.value) == v
  {
    if v == "pending" then Some(Pending)
    else if v == "submitted" then Some(Submitted)
    else if v == "firstLevelApproved" then Some(FirstLevelApproved)
    else if v == "inProgress" then Some(InProgress)
    else if v == "secondLevelApproved" then Some(SecondLevelApproved)
    else if v == "accepted" then Some(Accepted)
    else if v == "rejected" then Some(Rejected)
    else None
  }

  const STATUS_VALUES: seq<string> :=
    ["pending", "submitted", "firstLevelApproved", "inProgress", "secondLevelApproved", "accepted", "rejected"]

  /** Serialising then parsing gives the status back, so distinct statuses have distinct
      values, and exactly the seven listed values parse. */
  lemma StatusRoundTrip(s: RequestStatus, t: RequestStatus, v: string)
    ensures ParseStatus(StatusValue(s)) == Some(s)
    ensures StatusValue(s) == StatusValue(t) ==> s == t
    ensures ParseStatus(v).Some? <==> v in STATUS_VALUES
    ensures |STATUS_VALUES| == 7
  {
    assert ParseStatus(StatusValue(t)) == Some(t);
  }

  /** The capitalised labels the validation pages send are not statuses of this API. */
  lemma ClientLabelsAreNotStatuses()
    ensures ParseStatus("Approved") == None && ParseStatus("Rejected") == None && ParseStatus("Pending") == None
  {
  }

  /** A row of the `requests` table. */
  datatype Request = Request(
    requestID: int,
    employeeID: int,
    requestDate: int,
    previousStart: Option<Time>,
    previousEnd: Option<Time>,
    startAt: Time,
    endAt: Time,
    status: RequestStatus,
    comment: Option<string>,
    createdBy: Option<int>,
    validatedN1At: Option<int>,
    validatedN2At: Option<int>,
    createdAt: int,
    updatedAt: int)

  /** `RequestCreate`: what a client may send to create a request. It has no status. */
  datatype RequestCreate = RequestCreate(
    employeeID: int,
    requestDate: int,
    previousStart: Option<Time>,
    previousEnd: Option<Time>,
    startAt: Time,
    endAt: Time,
    comment: Option<string>,
    createdBy: Option<int>)

  /** `Request.model_validate(body)` with the primary key the database assigns and `now` for
      both timestamps' default factories. */
  function NewRequest(body: RequestCreate, id: int, now: int): (r: Request)
    ensures r.status == Pending
    ensures r.requestID == id && r.createdAt == now && r.updatedAt == now
    ensures r.employeeID == body.employeeID && r.requestDate == body.requestDate
    ensures r.startAt == body.startAt && r.endAt == body.endAt
    ensures r.previousStart == body.previousStart && r.previousEnd == body.previousEnd
    ensures r.comment == body.comment && r.createdBy == body.createdBy
    ensures r.validatedN1At == None && r.validatedN2At == None
  {
    Request(id, body.employeeID, body.requestDate, body.previousStart, body.previousEnd,
            body.startAt, body.endAt, Pending, body.comment, body.createdBy, None, None, now, now)
  }

  /** `RequestUpdate`: every field may be left out, and every field may be sent as null. */
  datatype RequestUpdate = RequestUpdate(
    requestDate: Field<Option<int>>,
    previousStart: Field<Option<Time>>,
    previousEnd: Field<Option<Time>>,
    startAt: Field<Option<Time>>,
    endAt: Field<Option<Time>>,
    status: Field<Option<RequestStatus>>,
    comment: Field<Option<string>>,
    validatedN1At: Field<Option<int>>,
    validatedN2At: Field<Option<int>>)

  /** One `setattr` of the update loop. */
  datatype RequestChange =
    | SetRequestDate(requestDate: Option<int>)
    | SetPreviousStart(previousStart: Option<Time>)
    | SetPreviousEnd(previousEnd: Option<Time>)
    | SetStartAt(startAt: Option<Time>)
    | SetEndAt(endAt: Option<Time>)
    | SetStatus(status: Option<RequestStatus>)
    | SetComment(comment: Option<string>)
    | SetValidatedN1At(validatedN1At: Option<int>)
    | SetValidatedN2At(validatedN2At: Option<int>)

  /** The item `model_dump(exclude_unset=True)` yields for each field: one when the client
      sent the field, none otherwise. */
  function Item1(u: RequestUpdate): seq<RequestChange> { if u.requestDate.Set? then [SetRequestDate(u.requestDate.value)] else [] }
  function Item2(u: RequestUpdate): seq<RequestChange> { if u.previousStart.Set? then [SetPreviousStart(u.previousStart.value)] else [] }
  function Item3(u: RequestUpdate): seq<RequestChange> { if u.previousEnd.Set? then [SetPreviousEnd(u.previousEnd.value)] else [] }
  function Item4(u: RequestUpdate): seq<RequestChange> { if u.startAt.Set? then [SetStartAt(u.startAt.value)] else [] }
  function Item5(u: RequestUpdate): seq<RequestChange> { if u.endAt.Set? then [SetEndAt(u.endAt.value)] else [] }
  function Item6(u: RequestUpdate): seq<RequestChange> { if u.status.Set? then [SetStatus(u.status.value)] else [] }
  function Item7(u: RequestUpdate): seq<RequestChange> { if u.comment.Set? then [SetComment(u.comment.value)] else [] }
  function Item8(u: RequestUpdate): seq<RequestChange> { if u.validatedN1At.Set? then [SetValidatedN1At(u.validatedN1At.value)] else [] }
  function Item9(u: RequestUpdate): seq<RequestChange> { if u.validatedN2At.Set? then [SetValidatedN2At(u.validatedN2At.value)] else [] }

  /** `model_dump(exclude_unset=True).items()`: the fields the client sent, in declaration order. */
  function Changes(u: RequestUpdate): seq<RequestChange>
  {
    Item1(u) + Item2(u) + Item3(u) + Item4(u) + Item5(u) + Item6(u) + Item7(u) + Item8(u) + Item9(u)
  }

  /** A change that writes null into a NOT NULL column: the commit that follows fails. */
  predicate NullsRequired(c: RequestChange)
  {
    (c.SetRequestDate? && c.requestDate.None?) || (c.SetStartAt? && c.startAt.None?)
    || (c.SetEndAt? && c.endAt.None?) || (c.SetStatus? && c.status.None?)
  }

  /** The update sends null for a column that may not be null. */
  predicate ClearsRequired(u: RequestUpdate)
  {
    u.requestDate == Set(None) || u.startAt == Set(None) || u.endAt == Set(None) || u.status == Set(None)
  }

  /** `setattr(row, key, value)` for one change; a null for a NOT NULL column is reported by
      `NullsRequired` and leaves the in-memory row as it is (the commit is rolled back). */
  function ApplyChange(r: Request, c: RequestChange): Request
  {
    match c
    case SetRequestDate(v) => if v.Some? then r.(requestDate := v.value) else r
    case SetPreviousStart(v) => r.(previousStart := v)
    case SetPreviousEnd(v) => r.(previousEnd := v)
    case SetStartAt(v) => if v.Some? then r.(startAt := v.value) else r
    case SetEndAt(v) => if v.Some? then r.(endAt := v.value) else r
    case SetStatus(v) => if v.Some? then r.(status := v.value) else r
    case SetComment(v) => r.(comment := v)
    case SetValidatedN1At(v) => r.(validatedN1At := v)
    case SetValidatedN2At(v) => r.(validatedN2At := v)
  }

  /** The row after a successful partial update: each field sent replaces the stored one,
      every other field (the key, the employee, the creator, both timestamps) is kept. */
  function Merge(r: Request, u: RequestUpdate): Request
  {
    r.(requestDate := u.requestDate.Or(Some(r.requestDate)).GetOr(r.requestDate),
       previousStart := u.previousStart.Or(r.previousStart),
       previousEnd := u.previousEnd.Or(r.previousEnd),
       startAt := u.startAt.Or(Some(r.startAt)).GetOr(r.startAt),
       endAt := u.endAt.Or(Some(r.endAt)).GetOr(r.endAt),
       status := u.status.Or(Some(r.status)).GetOr(r.status),
       comment := u.comment.Or(r.comment),
       validatedN1At := u.validatedN1At.Or(r.validatedN1At),
       validatedN2At := u.validatedN2At.Or(r.validatedN2At))
  }

  /** Partial updates leave the identifying fields and both timestamps alone, and a status
      sent by the client is stored whatever the current status is. */
  lemma MergeKeepsIdentity(r: Request, u: RequestUpdate)
    ensures Merge(r, u).requestID == r.requestID && Merge(r, u).employeeID == r.employeeID
    ensures Merge(r, u).createdBy == r.createdBy
    ensures Merge(r, u).createdAt == r.createdAt && Merge(r, u).updatedAt == r.updatedAt
    ensures u.status == Unset ==> Merge(r, u).status == r.status
    ensures forall s :: u.status == Set(Some(s)) ==> Merge(r, u).status == s
  {
  }

  /** A row of the `requestEmployee` link table: the hour totals belong here, not to
      `Request`. */
  datatype RequestEmployee = RequestEmployee(id: int, employeeID: int, requestID: int, totalHours: real)

  /** Applying one optional item. */
  function Step(r: Request, item: seq<RequestChange>): Request
  {
    ApplyStep(ApplyChange, r, item)
  }

  /** The field-wise merge reached one field at a time. */
  lemma MergeBySteps(r: Request, u: RequestUpdate)
    ensures Step(Step(Step(Step(Step(Step(Step(Step(Step(r, Item1(u)), Item2(u)), Item3(u)), Item4(u)), Item5(u)), Item6(u)), Item7(u)), Item8(u)), Item9(u))
            == Merge(r, u)
  {
    var m := Merge(r, u);
    var s1 := Step(r, Item1(u));
    assert s1 == r.(requestDate := m.requestDate);
    var s2 := Step(s1, Item2(u));
    assert s2 == s1.(previousStart := m.previousStart);
    var s3 := Step(s2, Item3(u));
    assert s3 == s2.(previousEnd := m.previousEnd);
    var s4 := Step(s3, Item4(u));
    assert s4 == s3.(startAt := m.startAt);
    var s5 := Step(s4, Item5(u));
    assert s5 == s4.(endAt := m.endAt);
    var s6 := Step(s5, Item6(u));
    assert s6 == s5.(status := m.status);
    var s7 := Step(s6, Item7(u));
    assert s7 == s6.(comment := m.comment);
    var s8 := Step(s7, Item8(u));
    assert s8 == s7.(validatedN1At := m.validatedN1At);
    var s9 := Step(s8, Item9(u));
    assert s9 == s8.(validatedN2At := m.validatedN2At);
  }

  /** Running `setattr` over the items of the payload yields the field-wise merge. */
  lemma {:induction false} ChangesMerge(r: Request, u: RequestUpdate)
    ensures ApplyAll(ApplyChange, r, Changes(u)) == Merge(r, u)
  {
    var i1, i2, i3, i4, i5, i6, i7, i8, i9 := Item1(u), Item2(u), Item3(u), Item4(u), Item5(u), Item6(u), Item7(u), Item8(u), Item9(u);
    assert Changes(u) == i1 + i2 + i3 + i4 + i5 + i6 + i7 + i8 + i9;
    ApplyAllStep(ApplyChange, r, [], i1);
    assert [] + i1 == i1;
    ApplyAllStep(ApplyChange, r, i1, i2);
    ApplyAllStep(ApplyChange, r, i1 + i2, i3);
    ApplyAllStep(ApplyChange, r, i1 + i2 + i3, i4);
    ApplyAllStep(ApplyChange, r, i1 + i2 + i3 + i4, i5);
    ApplyAllStep(ApplyChange, r, i1 + i2 + i3 + i4 + i5, i6);
    ApplyAllStep(ApplyChange, r, i1 + i2 + i3 + i4 + i5 + i6, i7);
    ApplyAllStep(ApplyChange, r, i1 + i2 + i3 + i4 + i5 + i6 + i7, i8);
    ApplyAllStep(ApplyChange, r, i1 + i2 + i3 + i4 + i5 + i6 + i7 + i8, i9);
    MergeBySteps(r, u);
  }

  /** Some item writes null into a NOT NULL column exactly when the update clears one. */
  lemma ChangesNullsRequired(u: RequestUpdate)
    ensures (exists c :: c in Changes(u) && NullsRequired(c)) <==> ClearsRequired(u)
  {
    var cs := Changes(u);
    if ClearsRequired(u) {
      var k := if u.requestDate == Set(None) then SetRequestDate(None)
               else if u.startAt == Set(None) then SetStartAt(None)
               else if u.endAt == Set(None) then SetEndAt(None)
               else SetStatus(None);
      assert k in cs;
    } else {
      forall c | c in cs ensures !NullsRequired(c) {
        assert c in Item1(u) || c in Item2(u) || c in Item3(u) || c in Item4(u) || c in Item5(u)
            || c in Item6(u) || c in Item7(u) || c in Item8(u) || c in Item9(u);
      }
    }
  }
}
