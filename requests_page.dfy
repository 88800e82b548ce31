/** The requests page of frontend/src/pages/Requests.jsx: the form's rules, the body it
    submits, and the row actions. */
module RequestsPage {
  import opened Wrappers
  import AuthService
  import opened PageCommon

  /** The form's text fields. */
  datatype FormData = FormData(date: string, hours: string, reason: string)

  /** The hours field is accepted when it reads as a number from 0.5 to 12 in steps of 0.5;
      `parsed` is the number the field holds (`None` when it is not one). */
  predicate HoursAccepted(parsed: Option<real>)
  {
    parsed.Some? && 0.5 <= parsed.value <= 12.0 && (2.0 * parsed.value).Floor as real == 2.0 * parsed.value
  }

  /** The whole form is accepted: a date, valid hours and a reason. */
  predicate FormAccepted(form: FormData, parseFloat: string -> Option<real>)
  {
    form.date != "" && form.hours != "" && HoursAccepted(parseFloat(form.hours)) && form.reason != ""
  }

  /** `k` half hours. */
  function Halves(k: int): real { k as real / 2.0 }

  /** The hours accepted are the halves from 1 to 24: exactly 24 values. */
  lemma AcceptedHours(h: real)
    ensures HoursAccepted(Some(h)) <==> exists k: int :: 1 <= k <= 24 && h == Halves(k)
  {
    if HoursAccepted(Some(h)) {
      var k := (2.0 * h).Floor;
      assert h == Halves(k);
    }
  }

  /** The body sent to create a request. */
  datatype RequestBody = RequestBody(date: string, hours: real, reason: string, employeeId: Option<int>)

  /** `user.id` of the context's user. The user object the login stores has the fields
      `username`, `profile` and `employeeID`; `id` reads `undefined`. */
  function UserId(user: AuthService.User): Option<int>
  {
    None
  }

  /** `onSubmit` as written: the form's fields, the hours as a number, and `employee_id` set
      to `user.id`. The call is a creation even while a request is being edited. */
  function Submit(form: FormData, hours: real, user: AuthService.User, editing: Option<int>): (m: Mutation<RequestBody>)
    ensures m.Create? && m.data.date == form.date && m.data.reason == form.reason && m.data.hours == hours
  {
    Create(RequestBody(form.date, hours, form.reason, UserId(user)))
  }

  /** As written, the body never names the employee, whoever is logged in, and editing makes
      a new request instead of changing the edited one. */
  lemma SubmitLosesEmployee(form: FormData, hours: real, user: AuthService.User, editing: Option<int>)
    ensures Submit(form, hours, user, editing).data.employeeId == None
    ensures !Submit(form, hours, user, editing).Update?
  {
  }

  /** Corrected: the body names the logged-in employee through `user.employeeID`. */
  function CorrectedSubmit(form: FormData, hours: real, user: AuthService.User, editing: Option<int>): (m: Mutation<RequestBody>)
    ensures m.Create? && m.data == RequestBody(form.date, hours, form.reason, Some(user.employeeID))
  {
    Create(RequestBody(form.date, hours, form.reason, Some(user.employeeID)))
  }

  /** With the correction, the request belongs to the employee of the stored session. */
  lemma CorrectedSubmitNamesEmployee(items: map<string, string>, data: AuthService.LoginData,
                                     stringify: AuthService.User -> string, parse: string -> Option<AuthService.User>,
                                     form: FormData, hours: real)
    requires stringify(data.user) != "" && parse(stringify(data.user)) == Some(data.user)
    ensures var stored := AuthService.GetUser(AuthService.LoggedIn(items, data, stringify), parse);
            stored.Found? && CorrectedSubmit(form, hours, stored.user, None).data.employeeId == Some(data.user.employeeID)
  {
    AuthService.LoginThenRead(items, data, stringify, parse);
  }

  /** The row actions: edit opens the form on the request, delete asks first; both only on a
      pending request. */
  function RowDelete(status: string, id: int, confirmed: bool): (m: Mutation<RequestBody>)
    ensures m.Delete? <==> ActionsOffered(status) && confirmed
    ensures m.Delete? ==> m.id == id
  {
    if ActionsOffered(status) then ConfirmDelete(id, confirmed) else NoCall
  }
}
