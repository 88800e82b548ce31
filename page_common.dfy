/** What the list pages of frontend/src/pages share: the call a page hands to its mutation
    hooks, and the status wording of the validation and requests pages. */
module PageCommon {
  import opened Wrappers
  import Text
  import RequestModel

  /** The call a page issues: create with a body, update of an id with a body, delete of an
      id, or none at all. The HTTP request and the cache refresh are not modelled. */
  datatype Mutation<P> = Create(data: P) | Update(id: int, data: P) | Delete(id: int) | NoCall

  /** `onSubmit` of the services and employees forms: an update of the record being edited,
      identified by its id, otherwise a creation; the form's data is the body either way. */
  function Submit<P>(form: P, editing: Option<int>): (m: Mutation<P>)
    ensures m.Update? <==> editing.Some?
    ensures m.Update? ==> m.id == editing.value
    ensures m.Create? || m.Update?
    ensures m.data == form
  {
    if editing.Some? then Update(editing.value, form) else Create(form)
  }

  /** `if (window.confirm(...)) deleteMutation.mutate(id)`: the answer to the confirmation
      dialog is an input. */
  function ConfirmDelete<P>(id: int, confirmed: bool): (m: Mutation<P>)
    ensures m.Delete? <==> confirmed
    ensures m.Delete? ==> m.id == id
    ensures !confirmed ==> m == NoCall
  {
    if confirmed then Delete(id) else NoCall
  }

  /** `getStatusText` of the validation and requests pages, over their own capitalised
      vocabulary: any other status reads "En attente". */
  function StatusText(status: string): (r: string)
    ensures status == "Approved" <==> r == "Approuvée"
    ensures status == "Rejected" <==> r == "Rejetée"
    ensures status != "Approved" && status != "Rejected" <==> r == "En attente"
  {
    if status == "Approved" then "Approuvée"
    else if status == "Rejected" then "Rejetée"
    else "En attente"
  }

  /** Every status the backend stores reads "En attente" on these pages, accepted and
      rejected requests included. */
  lemma BackendStatusesReadPending(s: RequestModel.RequestStatus)
    ensures StatusText(RequestModel.StatusValue(s)) == "En attente"
  {
  }

  /** The edit, delete, approve and reject buttons appear only on a `Pending` request. */
  predicate ActionsOffered(status: string)
  {
    status == "Pending"
  }

  /** None of the backend's statuses offers them: its `pending` is in lower case. */
  lemma BackendStatusesOfferNoAction(s: RequestModel.RequestStatus)
    ensures !ActionsOffered(RequestModel.StatusValue(s))
  {
  }

  // ---------------------------------------------------------------- searching the objects the API sends

  /** A JSON object as the API sends it, reduced to its keys that hold text. A key it lacks
      and a key holding null behave alike here: reading a method of either throws, and
      optional chaining on either gives `undefined`, so both are left out of the map. */
  type JsonObject = map<string, string>

  /** What a search test can throw: a method called on `undefined` or `null`. */
  datatype Thrown = TypeError

  /** `o.key.toLowerCase().includes(term.toLowerCase())`: a TypeError when the key holds no
      text. */
  function ReadIncludes(o: JsonObject, key: string, term: string): (r: Result<bool, Thrown>)
    ensures r.Err? <==> key !in o
    ensures r.Ok? ==> (r.value <==> Text.ContainsIgnoreCase(o[key], term))
  {
    if key in o then Ok(Text.ContainsIgnoreCase(o[key], term)) else Err(TypeError)
  }

  /** `o.key?.toLowerCase().includes(term.toLowerCase())`: `undefined`, which is falsy, when
      the key holds no text. */
  function ReadIncludesOptional(o: JsonObject, key: string, term: string): (r: bool)
    ensures r <==> key in o && Text.ContainsIgnoreCase(o[key], term)
  {
    key in o && Text.ContainsIgnoreCase(o[key], term)
  }

  /** `a || b` over tests that may throw: a throw in `a` propagates, and `b` runs, and may
      throw, only when `a` is false. */
  function OrElse(a: Result<bool, Thrown>, b: Result<bool, Thrown>): (r: Result<bool, Thrown>)
    ensures r.Ok? <==> a.Ok? && (a.value || b.Ok?)
    ensures r.Ok? ==> (r.value <==> a.value || b.value)
  {
    if a.Err? then a else if a.value then Ok(true) else b
  }

  /** `Array.prototype.filter` with a test that may throw: the first throw propagates;
      otherwise the elements the test keeps, in order. */
  function FilterOrThrow(objs: seq<JsonObject>, test: JsonObject -> Result<bool, Thrown>): (r: Result<seq<JsonObject>, Thrown>)
    ensures r.Err? <==> exists i :: 0 <= i < |objs| && test(objs[i]).Err?
    ensures r.Ok? ==> forall o :: o in r.value <==> o in objs && test(o) == Ok(true)
  {
    if objs == [] then Ok([])
    else
      var rest := FilterOrThrow(objs[1..], test);
      assert forall o :: o in objs <==> o == objs[0] || o in objs[1..];
      assert forall i :: 1 <= i < |objs| ==> objs[i] == objs[1..][i - 1];
      match test(objs[0])
      case Err(e) => Err(e)
      case Ok(keep) =>
        if rest.Err? then rest
        else Ok((if keep then [objs[0]] else []) + rest.value)
  }
}
