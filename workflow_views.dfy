/** The workflow screens of frontend/src/components/index.jsx: the manager's list with its
    deadline and its reject dialog, the HR list, and the analytics of `ReportsAndAnalytics`.
    These screens use the French workflow vocabulary of statuses ("Soumise au responsable",
    "Validée par la RH", ...), distinct from the backend's and from the other pages'.
    Instants are milliseconds since the epoch; reading a date string is a parameter that
    gives `None` for a string that is not a date. */
module WorkflowViews {
  import opened Wrappers
  import Text
  import Seqs
  import Sorting

  /** The fields of a request these screens read. */
  datatype Demande = Demande(demandeID: int, employeID: int, serviceID: int, dateJour: string,
                             totalHeures: real, statut: string)

  datatype Employe = Employe(employeID: int, nomComplet: string)

  datatype Service = Service(serviceID: int, nomService: string)

  const DAY_MS: int := 1000 * 60 * 60 * 24

  // ---------------------------------------------------------------- manager list

  const MANAGER_STATUSES: set<string> := {"Soumise au responsable", "En attente de suivi"}

  /** `pendingDemandes`: the requests waiting for the manager. */
  function PendingDemandes(demandes: seq<Demande>): (r: seq<Demande>)
    ensures forall d :: d in r <==> d in demandes && d.statut in MANAGER_STATUSES
    ensures Seqs.IsSubsequence(r, demandes)
  {
    Seqs.FilterIsSubsequence(demandes, (d: Demande) => d.statut in MANAGER_STATUSES);
    Seqs.Filter(demandes, (d: Demande) => d.statut in MANAGER_STATUSES)
  }

  /** `Math.ceil(x / DAY_MS)`. */
  function CeilDays(x: int): int
  {
    -((-x) / DAY_MS)
  }

  /** `daysDiff`: whole days, rounded up, from the request's date to now; `None` when the
      date does not read (JavaScript computes NaN there). */
  function DaysDiff(now: int, dateOf: string -> Option<int>, d: Demande): Option<int>
  {
    var date := dateOf(d.dateJour);
    if date.Some? then Some(CeilDays(now - date.value)) else None
  }

  /** `isUrgent`: more than five days have been counted. */
  predicate IsUrgent(now: int, dateOf: string -> Option<int>, d: Demande)
  {
    var diff := DaysDiff(now, dateOf, d);
    diff.Some? && diff.value > 5
  }

  /** The deadline column, `7 - daysDiff` days. */
  function DaysLeft(now: int, dateOf: string -> Option<int>, d: Demande): Option<int>
  {
    var diff := DaysDiff(now, dateOf, d);
    if diff.Some? then Some(7 - diff.value) else None
  }

  /** Rounding up: `CeilDays(x)` is the least whole number of days covering `x`. */
  lemma CeilDaysBounds(x: int)
    ensures (CeilDays(x) - 1) * DAY_MS < x <= CeilDays(x) * DAY_MS
  {
  }

  /** A request is urgent exactly when more than five full days have elapsed since its date,
      and an urgent request has at most one day left of its seven. */
  lemma {:induction false} UrgentAfterFiveDays(now: int, dateOf: string -> Option<int>, d: Demande)
    requires dateOf(d.dateJour).Some?
    ensures IsUrgent(now, dateOf, d) <==> now - dateOf(d.dateJour).value > 5 * DAY_MS
    ensures IsUrgent(now, dateOf, d) ==> DaysLeft(now, dateOf, d).value <= 1
  {
    var x := now - dateOf(d.dateJour).value;
    CeilDaysBounds(x);
    var c := CeilDays(x);
    if c > 5 {
      assert (c - 1) * DAY_MS >= 5 * DAY_MS;
    } else {
      assert c * DAY_MS <= 5 * DAY_MS;
    }
  }

  /** The banner over the list: some waiting request is urgent. */
  predicate UrgentAlert(now: int, dateOf: string -> Option<int>, demandes: seq<Demande>)
  {
    Seqs.Any(PendingDemandes(demandes), (d: Demande) => IsUrgent(now, dateOf, d))
  }

  /** The banner shows exactly when some request waiting for the manager is urgent. */
  lemma UrgentAlertIff(now: int, dateOf: string -> Option<int>, demandes: seq<Demande>)
    ensures UrgentAlert(now, dateOf, demandes) <==>
              exists d :: d in demandes && d.statut in MANAGER_STATUSES && IsUrgent(now, dateOf, d)
  {
    var p := PendingDemandes(demandes);
    if UrgentAlert(now, dateOf, demandes) {
      var i :| 0 <= i < |p| && IsUrgent(now, dateOf, p[i]);
      assert p[i] in p;
    }
    if exists d :: d in demandes && d.statut in MANAGER_STATUSES && IsUrgent(now, dateOf, d) {
      var d :| d in demandes && d.statut in MANAGER_STATUSES && IsUrgent(now, dateOf, d);
      assert d in p;
    }
  }

  /** The manager's reject dialog: the request it is about, the reason typed so far and
      whether it is open. */
  class RejectDialog {
    var selected: Option<int>
    var reason: string
    var open: bool

    constructor ()
      ensures selected == None && reason == "" && !open
    {
      selected := None;
      reason := "";
      open := false;
    }

    /** The confirm button is disabled while the reason is blank. */
    function ConfirmEnabled(): (b: bool)
      reads this
      ensures b <==> !Text.AllSpace(reason)
    {
      Text.TrimEmptyIffAllSpace(reason);
      Text.Trim(reason) != ""
    }

    /** `handleReject(id)`: the dialog opens on that request; the reason is kept. */
    method HandleReject(id: int)
      modifies this
      ensures selected == Some(id) && open && reason == old(reason)
    {
      selected := Some(id);
      open := true;
    }

    /** Typing in the text area. */
    method SetReason(text: string)
      modifies this
      ensures reason == text && selected == old(selected) && open == old(open)
    {
      reason := text;
    }

    /** A click on "Confirmer le rejet": nothing while it is disabled; otherwise `onReject`
        is called with the selected request and the reason (returned here), and the dialog
        is closed and cleared. */
    method ClickConfirm() returns (onReject: Option<(Option<int>, string)>)
      modifies this
      ensures !old(ConfirmEnabled()) ==> onReject == None && selected == old(selected)
                                         && reason == old(reason) && open == old(open)
      ensures old(ConfirmEnabled()) ==> onReject == Some((old(selected), old(reason)))
                                        && selected == None && reason == "" && !open
    {
      if !ConfirmEnabled() {
        onReject := None;
        return;
      }
      onReject := Some((selected, reason));
      open := false;
      reason := "";
      selected := None;
    }

    /** "Annuler": closed and cleared, nothing reported. */
    method Cancel()
      modifies this
      ensures selected == None && reason == "" && !open
    {
      open := false;
      reason := "";
      selected := None;
    }
  }

  // ---------------------------------------------------------------- HR list

  const HR_STATUSES: set<string> := {"En attente de validation RH", "Validée après suivi"}

  /** `finalValidationDemandes`. */
  function FinalValidationDemandes(demandes: seq<Demande>): (r: seq<Demande>)
    ensures forall d :: d in r <==> d in demandes && d.statut in HR_STATUSES
    ensures Seqs.IsSubsequence(r, demandes)
  {
    Seqs.FilterIsSubsequence(demandes, (d: Demande) => d.statut in HR_STATUSES);
    Seqs.Filter(demandes, (d: Demande) => d.statut in HR_STATUSES)
  }

  /** No request is on both lists: the manager's and HR's statuses are disjoint. */
  lemma ListsDisjoint(demandes: seq<Demande>, d: Demande)
    ensures !(d in PendingDemandes(demandes) && d in FinalValidationDemandes(demandes))
  {
  }

  function EmployeID(d: Demande): int { d.employeID }

  /** "Employés concernés": `new Set(list.map(d => d.employeID)).size`. */
  function EmployeesConcerned(list: seq<Demande>): (n: nat)
    ensures n == |set d | d in list :: d.employeID|
    ensures n <= |list|
    ensures n == 0 <==> list == []
  {
    DistinctIds(list);
    Seqs.DistinctCount(Seqs.Map(list, EmployeID))
  }

  /** The values of the mapped list are the employees' ids, and there is one when the list is
      not empty. */
  lemma DistinctIds(list: seq<Demande>)
    ensures (set x | x in Seqs.Map(list, EmployeID)) == (set d | d in list :: d.employeID)
    ensures list != [] ==> |set d | d in list :: d.employeID| > 0
  {
    var ids := Seqs.Map(list, EmployeID);
    forall x | x in ids ensures x in (set d | d in list :: d.employeID) {
      var k :| 0 <= k < |ids| && ids[k] == x;
      assert list[k] in list;
    }
    forall d | d in list ensures d.employeID in ids {
      var k :| 0 <= k < |list| && list[k] == d;
      assert ids[k] == d.employeID;
    }
    if list != [] {
      var ofList := set d | d in list :: d.employeID;
      assert list[0].employeID in ofList;
      assert |ofList - {list[0].employeID}| == |ofList| - 1;
    }
  }

  // ---------------------------------------------------------------- analytics

  datatype Period = Week | Month | Quarter | AllTime

  /** The days each period reaches back. */
  function PeriodDays(p: Period): (r: Option<int>)
    ensures p == AllTime <==> r.None?
  {
    match p
    case Week => Some(7)
    case Month => Some(30)
    case Quarter => Some(90)
    case AllTime => None
  }

  /** The service selector: every service, or the one whose id the selected text parses to. */
  datatype ServiceFilter = AllServices | OneService(id: int)

  /** The filter of one request: the service matches, and the date is no earlier than the
      period's start (a date that does not read fails that comparison). */
  predicate InPeriod(d: Demande, now: int, dateOf: string -> Option<int>, period: Period, filter: ServiceFilter)
  {
    var serviceMatch := filter.AllServices? || d.serviceID == filter.id;
    var days := PeriodDays(period);
    var date := dateOf(d.dateJour);
    var periodMatch := days.None? || (date.Some? && date.value >= now - days.value * DAY_MS);
    serviceMatch && periodMatch
  }

  /** `filteredDemandes`. */
  function FilteredDemandes(demandes: seq<Demande>, now: int, dateOf: string -> Option<int>,
                            period: Period, filter: ServiceFilter): (r: seq<Demande>)
    ensures forall d :: d in r <==> d in demandes && InPeriod(d, now, dateOf, period, filter)
    ensures Seqs.IsSubsequence(r, demandes)
  {
    Seqs.FilterIsSubsequence(demandes, (d: Demande) => InPeriod(d, now, dateOf, period, filter));
    Seqs.Filter(demandes, (d: Demande) => InPeriod(d, now, dateOf, period, filter))
  }

  /** The periods are nested: what the week shows the month shows, what the month shows the
      quarter shows, and "Toute la période" shows every request of the service. */
  lemma PeriodsNested(demandes: seq<Demande>, now: int, dateOf: string -> Option<int>, filter: ServiceFilter, d: Demande)
    ensures d in FilteredDemandes(demandes, now, dateOf, Week, filter) ==> d in FilteredDemandes(demandes, now, dateOf, Month, filter)
    ensures d in FilteredDemandes(demandes, now, dateOf, Month, filter) ==> d in FilteredDemandes(demandes, now, dateOf, Quarter, filter)
    ensures d in FilteredDemandes(demandes, now, dateOf, Quarter, filter) ==> d in FilteredDemandes(demandes, now, dateOf, AllTime, filter)
    ensures d in FilteredDemandes(demandes, now, dateOf, AllTime, filter) <==>
              d in demandes && (filter.AllServices? || d.serviceID == filter.id)
  {
  }

  const VALIDATED: string := "Validée par la RH"
  const REJECTED: string := "Rejetée"
  const HOURLY_RATE: real := 25.0

  predicate IsValidated(d: Demande) { d.statut == VALIDATED }
  predicate IsRejected(d: Demande) { d.statut == REJECTED }
  predicate IsInProgress(d: Demande) { d.statut != VALIDATED && d.statut != REJECTED }

  function Heures(d: Demande): real { d.totalHeures }

  function Cost(d: Demande): real { d.totalHeures * HOURLY_RATE }

  /** `stats` (the simulated processing time is a constant and is not modelled). */
  datatype Stats = Stats(totalDemandes: nat, demandesValidees: nat, demandesRejetees: nat, totalHeures: real, coutEstime: real)

  function ComputeStats(filtered: seq<Demande>): (s: Stats)
    ensures s.totalDemandes == |filtered|
  {
    Stats(|filtered|, Seqs.Count(filtered, IsValidated), Seqs.Count(filtered, IsRejected),
          Seqs.Sum(filtered, Heures), Seqs.Sum(Seqs.Filter(filtered, IsValidated), Cost))
  }

  /** "En cours": the total less the validated and the rejected. */
  function EnCours(s: Stats): int
  {
    s.totalDemandes - s.demandesValidees - s.demandesRejetees
  }

  /** "En cours" counts exactly the requests neither validated nor rejected, so it is never
      negative; and the estimated cost is the hourly rate times the validated hours. */
  lemma {:induction false} StatsMeaning(filtered: seq<Demande>)
    ensures EnCours(ComputeStats(filtered)) == Seqs.Count(filtered, IsInProgress) >= 0
    ensures ComputeStats(filtered).coutEstime == HOURLY_RATE * Seqs.Sum(Seqs.Filter(filtered, IsValidated), Heures)
  {
    ThreeWaySplit(filtered);
    SumScaled(Seqs.Filter(filtered, IsValidated));
  }

  lemma {:induction false} ThreeWaySplit(s: seq<Demande>)
    ensures Seqs.Count(s, IsValidated) + Seqs.Count(s, IsRejected) + Seqs.Count(s, IsInProgress) == |s|
  {
    if s != [] {
      ThreeWaySplit(s[1..]);
    }
  }

  lemma {:induction false} SumScaled(s: seq<Demande>)
    ensures Seqs.Sum(s, Cost) == HOURLY_RATE * Seqs.Sum(s, Heures)
  {
    if s != [] {
      SumScaled(s[1..]);
    }
  }

  /** One bar of "Demandes par service". */
  datatype ServiceBar = ServiceBar(nom: string, count: nat, heures: real)

  function BarOf(service: Service, filtered: seq<Demande>): ServiceBar
  {
    var own := Seqs.Filter(filtered, (d: Demande) => d.serviceID == service.serviceID);
    ServiceBar(service.nomService, |own|, Seqs.Sum(own, Heures))
  }

  function HasRequests(bar: ServiceBar): bool { bar.count > 0 }

  /** `demandesParService`: the services' bars, keeping those with at least one request. */
  function DemandesParService(services: seq<Service>, filtered: seq<Demande>): (r: seq<ServiceBar>)
    ensures forall b :: b in r ==> b.count > 0
  {
    Seqs.Filter(Seqs.Map(services, (s: Service) => BarOf(s, filtered)), HasRequests)
  }

  /** A service has a bar exactly when some filtered request belongs to it. */
  lemma BarIffRequests(services: seq<Service>, filtered: seq<Demande>, service: Service)
    requires service in services
    ensures BarOf(service, filtered) in DemandesParService(services, filtered) <==>
              exists d :: d in filtered && d.serviceID == service.serviceID
  {
    var own := Seqs.Filter(filtered, (d: Demande) => d.serviceID == service.serviceID);
    var bars := Seqs.Map(services, (s: Service) => BarOf(s, filtered));
    var k :| 0 <= k < |services| && services[k] == service;
    assert bars[k] == BarOf(service, filtered);
    if exists d :: d in filtered && d.serviceID == service.serviceID {
      var d :| d in filtered && d.serviceID == service.serviceID;
      assert d in own;
    }
    if |own| > 0 {
      assert own[0] in own;
    }
  }

  // ---------------------------------------------------------------- "Top employés"

  /** One row of the employee ranking. */
  datatype RankRow = RankRow(employeID: int, nomComplet: string, demandes: nat, heures: real)

  function RowOf(e: Employe, filtered: seq<Demande>): RankRow
  {
    var own := Seqs.Filter(filtered, (d: Demande) => d.employeID == e.employeID);
    RankRow(e.employeID, e.nomComplet, |own|, Seqs.Sum(own, Heures))
  }

  /** As written: the first five employees of the list, in the list's order, whatever their
      hours. */
  function TopEmployesAsWritten(employes: seq<Employe>, filtered: seq<Demande>): (r: seq<RankRow>)
    ensures |r| <= 5
  {
    Seqs.Map(Seqs.Slice(employes, 0, 5), (e: Employe) => RowOf(e, filtered))
  }

  /** The ranking as written can leave out the employee with the most hours: with six
      employees of whom only the sixth has a request, the sixth is not listed. */
  lemma RankingIgnoresHours(d: Demande)
    requires d.employeID == 6 && d.totalHeures == 3.0
    ensures var employes := [Employe(1, "a"), Employe(2, "b"), Employe(3, "c"), Employe(4, "d"), Employe(5, "e"), Employe(6, "f")];
            var top := TopEmployesAsWritten(employes, [d]);
            RowOf(employes[5], [d]).heures == 3.0
            && forall row :: row in top ==> row.heures == 0.0
  {
    var employes := [Employe(1, "a"), Employe(2, "b"), Employe(3, "c"), Employe(4, "d"), Employe(5, "e"), Employe(6, "f")];
    Seqs.TakePrefix(employes, 5);
    assert Seqs.Filter([d], (x: Demande) => x.employeID == 6) == [d];
    forall k | 0 <= k < 5
      ensures RowOf(employes[k], [d]).heures == 0.0
    {
      assert Seqs.Filter([d], (x: Demande) => x.employeID == employes[k].employeID) == [];
    }
  }

  /** The comparator "more hours first". */
  function MoreHours(a: RankRow, b: RankRow): bool { b.heures - a.heures < 0.0 }

  /** Corrected: every employee's row, by decreasing hours, the first five. */
  function TopEmployes(employes: seq<Employe>, filtered: seq<Demande>): (r: seq<RankRow>)
    ensures |r| <= 5
  {
    var rows := Seqs.Map(employes, (e: Employe) => RowOf(e, filtered));
    Seqs.Slice(Sorting.Sort(rows, MoreHours), 0, 5)
  }

  /** The corrected ranking runs by decreasing hours, and no employee left out has more
      hours than one listed. */
  lemma {:induction false} TopEmployesRanked(employes: seq<Employe>, filtered: seq<Demande>)
    ensures var r := TopEmployes(employes, filtered);
            (forall i, j :: 0 <= i < j < |r| ==> r[i].heures >= r[j].heures)
            && |r| == (if |employes| < 5 then |employes| else 5)
    ensures var r := TopEmployes(employes, filtered);
            var sorted := Sorting.Sort(Seqs.Map(employes, (e: Employe) => RowOf(e, filtered)), MoreHours);
            forall i, k :: 0 <= i < |r| && |r| <= k < |sorted| ==> r[i].heures >= sorted[k].heures
  {
    var rows := Seqs.Map(employes, (e: Employe) => RowOf(e, filtered));
    assert Sorting.StrictWeakOn(rows, MoreHours);
    Sorting.SortSorted(rows, MoreHours);
    Seqs.TakePrefix(Sorting.Sort(rows, MoreHours), 5);
  }
}
