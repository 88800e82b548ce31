/** Services as the backend stores them (backend/models/service.py): the table row with its
    column limits, the creation schema and the partial-update schema. A service may name a
    parent service; nothing requires the parent links to be acyclic. */
module ServiceModel {
  import opened Wrappers
  import opened Fields

  const CODE_MAX: nat := 10
  const NAME_MAX: nat := 100
  const MANAGER_MAX: nat := 100

  /** A row of the `services` table. */
  datatype Service = Service(
    serviceID: int,
    serviceCode: string,
    serviceName: string,
    parentServiceID: Option<int>,
    description: Option<string>,
    manager: Option<string>,
    createdAt: int,
    updatedAt: int)

  /** An optional string column with a length limit. */
  predicate OptionFits(s: Option<string>, n: nat)
  {
    s.Some? ==> FitsIn(s.value, n)
  }

  /** The column widths of the table. */
  predicate RowFits(s: Service)
  {
    FitsIn(s.serviceCode, CODE_MAX) && FitsIn(s.serviceName, NAME_MAX) && OptionFits(s.manager, MANAGER_MAX)
  }

  /** `ServiceCreate`. */
  datatype ServiceCreate = ServiceCreate(
    serviceCode: string,
    serviceName: string,
    parentServiceID: Option<int>,
    description: Option<string>,
    manager: Option<string>)

  /** The `max_length` constraints Pydantic checks on a creation body. */
  predicate CreateFits(b: ServiceCreate)
  {
    FitsIn(b.serviceCode, CODE_MAX) && FitsIn(b.serviceName, NAME_MAX) && OptionFits(b.manager, MANAGER_MAX)
  }

  /** `Service.model_validate(body)` with the key the database assigns and `now` for both
      timestamps. */
  function NewService(b: ServiceCreate, id: int, now: int): (r: Service)
    ensures r.serviceID == id && r.createdAt == now && r.updatedAt == now
    ensures r.serviceCode == b.serviceCode && r.serviceName == b.serviceName
    ensures r.parentServiceID == b.parentServiceID && r.description == b.description && r.manager == b.manager
    ensures CreateFits(b) ==> RowFits(r)
  {
    Service(id, b.serviceCode, b.serviceName, b.parentServiceID, b.description, b.manager, now, now)
  }

  /** `ServiceUpdate`: every field optional, every field nullable. */
  datatype ServiceUpdate = ServiceUpdate(
    serviceCode: Field<Option<string>>,
    serviceName: Field<Option<string>>,
    parentServiceID: Field<Option<int>>,
    description: Field<Option<string>>,
    manager: Field<Option<string>>)

  /** The `max_length` constraints Pydantic checks on an update body (null passes). */
  predicate UpdateFits(u: ServiceUpdate)
  {
    (u.serviceCode.Set? ==> OptionFits(u.serviceCode.value, CODE_MAX))
    && (u.serviceName.Set? ==> OptionFits(u.serviceName.value, NAME_MAX))
    && (u.manager.Set? ==> OptionFits(u.manager.value, MANAGER_MAX))
  }

  /** One `setattr` of the update loop. */
  datatype ServiceChange =
    | SetServiceCode(serviceCode: Option<string>)
    | SetServiceName(serviceName: Option<string>)
    | SetParentServiceID(parentServiceID: Option<int>)
    | SetDescription(description: Option<string>)
    | SetManager(manager: Option<string>)

  /** The item `model_dump(exclude_unset=True)` yields for each field. */
  function Item1(u: ServiceUpdate): seq<ServiceChange> { if u.serviceCode.Set? then [SetServiceCode(u.serviceCode.value)] else [] }
  function Item2(u: ServiceUpdate): seq<ServiceChange> { if u.serviceName.Set? then [SetServiceName(u.serviceName.value)] else [] }
  function Item3(u: ServiceUpdate): seq<ServiceChange> { if u.parentServiceID.Set? then [SetParentServiceID(u.parentServiceID.value)] else [] }
  function Item4(u: ServiceUpdate): seq<ServiceChange> { if u.description.Set? then [SetDescription(u.description.value)] else [] }
  function Item5(u: ServiceUpdate): seq<ServiceChange> { if u.manager.Set? then [SetManager(u.manager.value)] else [] }

  /** `model_dump(exclude_unset=True).items()`, in declaration order. */
  function Changes(u: ServiceUpdate): seq<ServiceChange>
  {
    Item1(u) + Item2(u) + Item3(u) + Item4(u) + Item5(u)
  }

  /** A change that writes null into a NOT NULL column. */
  predicate NullsRequired(c: ServiceChange)
  {
    (c.SetServiceCode? && c.serviceCode.None?) || (c.SetServiceName? && c.serviceName.None?)
  }

  /** The update sends null for a column that may not be null. */
  predicate ClearsRequired(u: ServiceUpdate)
  {
    u.serviceCode == Set(None) || u.serviceName == Set(None)
  }

  /** `setattr(row, key, value)`; a null for a NOT NULL column leaves the row as it is. */
  function ApplyChange(r: Service, c: ServiceChange): Service
  {
    match c
    case SetServiceCode(v) => if v.Some? then r.(serviceCode := v.value) else r
    case SetServiceName(v) => if v.Some? then r.(serviceName := v.value) else r
    case SetParentServiceID(v) => r.(parentServiceID := v)
    case SetDescription(v) => r.(description := v)
    case SetManager(v) => r.(manager := v)
  }

  /** The row after a successful partial update, field by field. */
  function Merge(r: Service, u: ServiceUpdate): Service
  {
    r.(serviceCode := u.serviceCode.Or(Some(r.serviceCode)).GetOr(r.serviceCode),
       serviceName := u.serviceName.Or(Some(r.serviceName)).GetOr(r.serviceName),
       parentServiceID := u.parentServiceID.Or(r.parentServiceID),
       description := u.description.Or(r.description),
       manager := u.manager.Or(r.manager))
  }

  /** A merge keeps the key and the timestamps, keeps the column widths when the body passed
      schema validation, and accepts any parent, the service itself included. */
  lemma MergeKeepsShape(r: Service, u: ServiceUpdate)
    ensures Merge(r, u).serviceID == r.serviceID
    ensures Merge(r, u).createdAt == r.createdAt && Merge(r, u).updatedAt == r.updatedAt
    ensures RowFits(r) && UpdateFits(u) ==> RowFits(Merge(r, u))
    ensures u.parentServiceID == Set(Some(r.serviceID)) ==> Merge(r, u).parentServiceID == Some(r.serviceID)
  {
  }

  function Step(r: Service, item: seq<ServiceChange>): Service
  {
    ApplyStep(ApplyChange, r, item)
  }

  lemma MergeBySteps(r: Service, u: ServiceUpdate)
    ensures Step(Step(Step(Step(Step(r, Item1(u)), Item2(u)), Item3(u)), Item4(u)), Item5(u)) == Merge(r, u)
  {
    var m := Merge(r, u);
    var s1 := Step(r, Item1(u));
    assert s1 == r.(serviceCode := m.serviceCode);
    var s2 := Step(s1, Item2(u));
    assert s2 == s1.(serviceName := m.serviceName);
    var s3 := Step(s2, Item3(u));
    assert s3 == s2.(parentServiceID := m.parentServiceID);
    var s4 := Step(s3, Item4(u));
    assert s4 == s3.(description := m.description);
    var s5 := Step(s4, Item5(u));
    assert s5 == s4.(manager := m.manager);
  }

  /** Running `setattr` over the items of the payload yields the field-wise merge. */
  lemma {:induction false} ChangesMerge(r: Service, u: ServiceUpdate)
    ensures ApplyAll(ApplyChange, r, Changes(u)) == Merge(r, u)
  {
    var i1, i2, i3, i4, i5 := Item1(u), Item2(u), Item3(u), Item4(u), Item5(u);
    ApplyAllStep(ApplyChange, r, [], i1);
    assert [] + i1 == i1;
    ApplyAllStep(ApplyChange, r, i1, i2);
    ApplyAllStep(ApplyChange, r, i1 + i2, i3);
    ApplyAllStep(ApplyChange, r, i1 + i2 + i3, i4);
    ApplyAllStep(ApplyChange, r, i1 + i2 + i3 + i4, i5);
    MergeBySteps(r, u);
  }

  /** Some item writes null into a NOT NULL column exactly when the update clears one. */
  lemma ChangesNullsRequired(u: ServiceUpdate)
    ensures (exists c :: c in Changes(u) && NullsRequired(c)) <==> ClearsRequired(u)
  {
    var cs := Changes(u);
    if ClearsRequired(u) {
      var k := if u.serviceCode == Set(None) then SetServiceCode(None) else SetServiceName(None);
      assert k in cs;
    } else {
      forall c | c in cs ensures !NullsRequired(c) {
        assert c in Item1(u) || c in Item2(u) || c in Item3(u) || c in Item4(u) || c in Item5(u);
      }
    }
  }
}
