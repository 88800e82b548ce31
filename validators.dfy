/** The backend's custom validators (backend/validators.py). Each one either passes or raises
    an `HTTPException` with status 400 and a fixed French message. Today's date, which the
    request-date check reads from the clock, is a parameter. */
module Validators {
  import opened Wrappers
  import opened Errors
  import opened Times
  import Text

  const TIME_RANGE_MESSAGE: string := "L'heure de fin doit être postérieure à l'heure de début"
  const DATE_RANGE_MESSAGE: string := "La date de fin doit être postérieure à la date de début"
  const PAST_DATE_MESSAGE: string := "La date de demande ne peut pas être dans le passé"
  const DURATION_MESSAGE: string := "La durée de travail ne peut pas excéder 12 heures"
  const EMPLOYEE_NUMBER_MESSAGE: string := "Le numéro d'employé doit contenir au moins 3 caractères"
  const SERVICE_CODE_LENGTH_MESSAGE: string := "Le code service doit contenir au moins 2 caractères"
  const SERVICE_CODE_CHARS_MESSAGE: string := "Le code service ne peut contenir que des lettres et des chiffres"

  /** The longest shift the working-hours check admits, in minutes. */
  const MAX_WORK_MINUTES: int := 12 * 60

  /** `validate_time_range`: the end must come strictly after the start. */
  function ValidateTimeRange(start: Time, end: Time): (r: Outcome<Error>)
    requires start.Valid() && end.Valid()
    ensures r.Fail? <==> end.Micros() <= start.Micros()
    ensures r.Fail? ==> r.error == Http(BAD_REQUEST, TIME_RANGE_MESSAGE)
  {
    BeforeIsMicrosOrder(start, end);
    if !Before(start, end) then Fail(Http(BAD_REQUEST, TIME_RANGE_MESSAGE)) else Pass
  }

  /** `validate_date_range` on day numbers: only an end strictly before the start fails. */
  function ValidateDateRange(start: int, end: int): (r: Outcome<Error>)
    ensures r.Pass? <==> start <= end
    ensures r.Fail? ==> r.error == Http(BAD_REQUEST, DATE_RANGE_MESSAGE)
  {
    if end < start then Fail(Http(BAD_REQUEST, DATE_RANGE_MESSAGE)) else Pass
  }

  /** `validate_request_date`, with `date.today()` passed in. */
  function ValidateRequestDate(requestDate: int, today: int): (r: Outcome<Error>)
    ensures r.Pass? <==> today <= requestDate
    ensures r.Fail? ==> r.error == Http(BAD_REQUEST, PAST_DATE_MESSAGE)
  {
    if requestDate < today then Fail(Http(BAD_REQUEST, PAST_DATE_MESSAGE)) else Pass
  }

  /** The duration the working-hours check measures: whole minutes, seconds ignored. */
  function DurationMinutes(start: Time, end: Time): int
  {
    end.Minutes() - start.Minutes()
  }

  /** `validate_working_hours`: the range check first, then at most twelve hours counted in
      whole minutes. */
  function ValidateWorkingHours(start: Time, end: Time): (r: Outcome<Error>)
    requires start.Valid() && end.Valid()
    ensures r.Pass? <==> start.Micros() < end.Micros() && DurationMinutes(start, end) <= MAX_WORK_MINUTES
    ensures end.Micros() <= start.Micros() ==> r == Fail(Http(BAD_REQUEST, TIME_RANGE_MESSAGE))
    ensures start.Micros() < end.Micros() && r.Fail? ==> r.error == Http(BAD_REQUEST, DURATION_MESSAGE)
  {
    match ValidateTimeRange(start, end)
    case Fail(e) => Fail(e)
    case Pass =>
      var startMinutes := start.hour * 60 + start.minute;
      var endMinutes := end.hour * 60 + end.minute;
      if endMinutes - startMinutes > 12 * 60 then Fail(Http(BAD_REQUEST, DURATION_MESSAGE)) else Pass
  }

  /** Exactly twelve hours is accepted. */
  lemma TwelveHoursAccepted()
    ensures ValidateWorkingHours(Time(8, 0, 0, 0), Time(20, 0, 0, 0)) == Pass
  {
  }

  /** One minute more is rejected by the duration check. */
  lemma TwelveHoursAndOneMinuteRejected()
    ensures ValidateWorkingHours(Time(8, 0, 0, 0), Time(20, 1, 0, 0)) == Fail(Http(BAD_REQUEST, DURATION_MESSAGE))
  {
  }

  /** Seconds do not count: a shift 59 seconds longer than twelve hours still passes. */
  lemma SecondsIgnored()
    ensures ValidateWorkingHours(Time(8, 0, 0, 0), Time(20, 0, 59, 0)) == Pass
  {
    assert Time(20, 0, 59, 0).Micros() - Time(8, 0, 0, 0).Micros() > MAX_WORK_MINUTES * 60 * 1000000;
  }

  /** Every accepted range lasts at most twelve hours and one minute less one microsecond. */
  lemma {:induction false} AcceptedDurationBound(start: Time, end: Time)
    requires start.Valid() && end.Valid()
    requires ValidateWorkingHours(start, end) == Pass
    ensures end.Micros() - start.Micros() < (MAX_WORK_MINUTES + 1) * 60 * 1000000
  {
    var s := start.second * 1000000 + start.micro;
    var e := end.second * 1000000 + end.micro;
    assert start.Micros() == start.Minutes() * 60000000 + s;
    assert end.Micros() == end.Minutes() * 60000000 + e;
    assert e < 60000000;
    assert end.Minutes() <= start.Minutes() + MAX_WORK_MINUTES;
    assert end.Minutes() * 60000000 <= (start.Minutes() + MAX_WORK_MINUTES) * 60000000;
  }

  /** `validate_employee_number_format`: at least three characters (the empty string fails too). */
  function ValidateEmployeeNumber(employeeNumber: string): (r: Outcome<Error>)
    ensures r.Pass? <==> |employeeNumber| >= 3
    ensures r.Fail? ==> r.error == Http(BAD_REQUEST, EMPLOYEE_NUMBER_MESSAGE)
  {
    if employeeNumber == [] || |employeeNumber| < 3 then Fail(Http(BAD_REQUEST, EMPLOYEE_NUMBER_MESSAGE))
    else Pass
  }

  /** `validate_service_code_format`: the length check first, then letters and digits only.
      `isAlnumChar` is Python's test of one character (`str.isalnum`), which accepts the
      letters and digits of every script. */
  function ValidateServiceCode(serviceCode: string, isAlnumChar: char -> bool): (r: Outcome<Error>)
    ensures r.Pass? <==> |serviceCode| >= 2 && forall i :: 0 <= i < |serviceCode| ==> isAlnumChar(serviceCode[i])
    ensures |serviceCode| < 2 ==> r == Fail(Http(BAD_REQUEST, SERVICE_CODE_LENGTH_MESSAGE))
    ensures |serviceCode| >= 2 && r.Fail? ==> r.error == Http(BAD_REQUEST, SERVICE_CODE_CHARS_MESSAGE)
  {
    if serviceCode == [] || |serviceCode| < 2 then Fail(Http(BAD_REQUEST, SERVICE_CODE_LENGTH_MESSAGE))
    else if !Text.IsAlnum(serviceCode, isAlnumChar) then Fail(Http(BAD_REQUEST, SERVICE_CODE_CHARS_MESSAGE))
    else Pass
  }

  /** On an ASCII code the check accepts exactly ASCII letters and digits: `-`, `_`, a space
      or any other ASCII punctuation is refused. */
  lemma AsciiCodeChecked(serviceCode: string, isAlnumChar: char -> bool)
    requires Text.AgreesOnAscii(isAlnumChar)
    requires forall i :: 0 <= i < |serviceCode| ==> serviceCode[i] < '\U{80}'
    ensures ValidateServiceCode(serviceCode, isAlnumChar).Pass? <==>
              |serviceCode| >= 2 && forall i :: 0 <= i < |serviceCode| ==> Text.IsAlnumChar(serviceCode[i])
  {
    forall i | 0 <= i < |serviceCode|
      ensures isAlnumChar(serviceCode[i]) <==> Text.IsAlnumChar(serviceCode[i])
    {
      var c := serviceCode[i];
      assert c < '\U{80}';
    }
  }

  /** A code with an accented capital, such as "RÉA", passes whenever Python counts `É` as a
      letter, as it does. */
  lemma AccentedCodeAccepted(isAlnumChar: char -> bool)
    requires Text.AgreesOnAscii(isAlnumChar) && isAlnumChar('\U{C9}')
    ensures ValidateServiceCode("R\U{C9}A", isAlnumChar) == Pass
  {
    assert isAlnumChar('R') && isAlnumChar('A');
  }

  /** A one-character code that is not alphanumeric is reported as too short: the length
      check runs first. */
  lemma ShortCodeReportsLength(isAlnumChar: char -> bool)
    ensures ValidateServiceCode("-", isAlnumChar) == Fail(Http(BAD_REQUEST, SERVICE_CODE_LENGTH_MESSAGE))
  {
  }
}
