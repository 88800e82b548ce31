/** The dashboard of frontend/src/pages/Dashboard.jsx: the four stat cards, the recent and
    urgent lists, and the week's summary. Data still loading is `None`. Unlike the other
    pages, this one counts the backend's own lower-case statuses. */
module Dashboard {
  import opened Wrappers
  import Seqs
  import RequestModel

  /** The fields of a request the dashboard reads. */
  datatype Request = Request(requestID: int, employeeID: int, requestDate: string, status: string)

  /** `data?.length || 0`. */
  function LengthOrZero<T>(data: Option<seq<T>>): (n: nat)
    ensures data.None? ==> n == 0
    ensures data.Some? ==> n == |data.value|
  {
    if data.Some? then |data.value| else 0
  }

  /** The four cards: my requests, pending requests, employees and services. */
  function Stats<E, S>(myRequests: Option<seq<Request>>, pending: Option<seq<Request>>,
                       employees: Option<seq<E>>, services: Option<seq<S>>): (r: seq<nat>)
    ensures |r| == 4
    ensures r[0] == LengthOrZero(myRequests) && r[1] == LengthOrZero(pending)
    ensures r[2] == LengthOrZero(employees) && r[3] == LengthOrZero(services)
  {
    [LengthOrZero(myRequests), LengthOrZero(pending), LengthOrZero(employees), LengthOrZero(services)]
  }

  /** `data?.slice(0, n) || []`: the first `n`, or all when there are fewer. */
  function Prefix(data: Option<seq<Request>>, n: nat): (r: seq<Request>)
    ensures data.None? ==> r == []
    ensures data.Some? ==> |r| == (if |data.value| < n then |data.value| else n) && r == data.value[..|r|]
  {
    if data.Some? then
      Seqs.TakePrefix(data.value, n);
      Seqs.Slice(data.value, 0, n)
    else []
  }

  /** `recentRequests`: my first five requests. */
  function RecentRequests(myRequests: Option<seq<Request>>): (r: seq<Request>)
    ensures myRequests.None? ==> r == []
    ensures myRequests.Some? ==> |r| == (if |myRequests.value| < 5 then |myRequests.value| else 5)
                                 && r == myRequests.value[..|r|]
  {
    Prefix(myRequests, 5)
  }

  /** `urgentRequests`: the first three pending requests. Their approve and reject buttons
      have no handler: the list offers no action. */
  function UrgentRequests(pending: Option<seq<Request>>): (r: seq<Request>)
    ensures pending.None? ==> r == []
    ensures pending.Some? ==> |r| == (if |pending.value| < 3 then |pending.value| else 3)
                              && r == pending.value[..|r|]
  {
    Prefix(pending, 3)
  }

  /** The week's summary: my requests accepted, pending and rejected, by exact status. */
  datatype Summary = Summary(accepted: nat, pending: nat, rejected: nat)

  predicate HasStatus(x: Request, status: RequestModel.RequestStatus)
  {
    x.status == RequestModel.StatusValue(status)
  }

  predicate IsAccepted(x: Request) { HasStatus(x, RequestModel.Accepted) }

  predicate IsPending(x: Request) { HasStatus(x, RequestModel.Pending) }

  predicate IsRejected(x: Request) { HasStatus(x, RequestModel.Rejected) }

  function WeekSummary(myRequests: Option<seq<Request>>): (s: Summary)
  {
    if myRequests.None? then Summary(0, 0, 0)
    else
      var rs := myRequests.value;
      Summary(Seqs.Count(rs, IsAccepted), Seqs.Count(rs, IsPending), Seqs.Count(rs, IsRejected))
  }

  /** The three counts never exceed the "Mes demandes" card, since a request has one
      status. */
  lemma SummaryWithinTotal(myRequests: Option<seq<Request>>)
    ensures var s := WeekSummary(myRequests);
            s.accepted + s.pending + s.rejected <= LengthOrZero(myRequests)
  {
    if myRequests.Some? {
      Seqs.CountDisjoint3(myRequests.value, IsAccepted, IsPending, IsRejected);
    }
  }
}
