/** The admin appointments table: a list of appointments changed only by
    status updates, shown through four conjunctive filters and an optional
    row limit, with a per-row menu of status actions. */
module AppointmentsTable {
  import opened Options
  import opened Collections
  import opened Text
  import opened AppointmentStatus

  datatype Appointment = Appointment(
    id: string,
    clientName: string,
    clientPhone: string,
    clientEmail: string,
    service: string,
    professional: string,
    date: string,
    time: string,
    status: Status,
    price: real,
    notes: Option<string>)

  /** `updateAppointmentStatus`: every appointment with the given id gets the
      new status; nothing else changes and the order is kept. */
  function UpdateStatus(apps: seq<Appointment>, id: string, st: Status): (r: seq<Appointment>)
    ensures |r| == |apps|
    ensures forall i :: 0 <= i < |apps| ==> r[i].id == apps[i].id
    ensures forall i :: 0 <= i < |apps| && apps[i].id == id ==>
              r[i].status == st && r[i].(status := apps[i].status) == apps[i]
    ensures forall i :: 0 <= i < |apps| && apps[i].id != id ==> r[i] == apps[i]
  {
    UpdateWhere(apps, (a: Appointment) => a.id == id, (a: Appointment) => a.(status := st))
  }

  /** Setting a status twice is setting the later one. */
  lemma UpdateStatusLastWins(apps: seq<Appointment>, id: string, s1: Status, s2: Status)
    ensures UpdateStatus(UpdateStatus(apps, id, s1), id, s2) == UpdateStatus(apps, id, s2)
  {
    var a := UpdateStatus(UpdateStatus(apps, id, s1), id, s2);
    var b := UpdateStatus(apps, id, s2);
    assert forall i :: 0 <= i < |a| ==> a[i] == b[i];
  }

  /** An id that no appointment has leaves the list as it is. */
  lemma UpdateStatusAbsentId(apps: seq<Appointment>, id: string, st: Status)
    requires forall i :: 0 <= i < |apps| ==> apps[i].id != id
    ensures UpdateStatus(apps, id, st) == apps
  {
  }

  /** The filter bar; an empty string means "any". */
  datatype Criteria = Criteria(status: string, professional: string, date: string, search: string)

  const NoCriteria := Criteria("", "", "", "")

  /** The free-text search: the lower-cased client name or service contains
      the lower-cased query, or the phone contains the query as typed. */
  predicate SearchHit(a: Appointment, q: string) {
    || Includes(Lower(a.clientName), Lower(q))
    || Includes(a.clientPhone, q)
    || Includes(Lower(a.service), Lower(q))
  }

  /** The filter callback, with its early returns. */
  predicate Matches(a: Appointment, c: Criteria) {
    if c.status != "" && Key(a.status) != c.status then false
    else if c.professional != "" && a.professional != c.professional then false
    else if c.date != "" && a.date != c.date then false
    else if c.search != "" then SearchHit(a, c.search)
    else true
  }

  /** The early returns amount to a conjunction in which every empty
      criterion is ignored and every other one must hold. */
  lemma MatchesIsConjunction(a: Appointment, c: Criteria)
    ensures Matches(a, c) <==>
              && (c.status == "" || Key(a.status) == c.status)
              && (c.professional == "" || a.professional == c.professional)
              && (c.date == "" || a.date == c.date)
              && (c.search == "" || SearchHit(a, c.search))
  {
  }

  /** A status criterion keeps exactly the appointments with that status. */
  lemma StatusCriterion(a: Appointment, st: Status)
    ensures Matches(a, NoCriteria.(status := Key(st))) <==> a.status == st
  {
    KeyRoundTrip(a.status);
    KeyRoundTrip(st);
  }

  /** `s.slice(0, end)`, `end` being `undefined` when there is no limit. A
      negative end counts from the back. */
  function SliceTo<T>(s: seq<T>, end: Option<int>): (r: seq<T>)
    ensures |r| <= |s| && r == s[..|r|]
    ensures end.None? ==> r == s
    ensures end.Some? && end.value >= 0 ==> |r| == if end.value < |s| then end.value else |s|
    ensures end.Some? && end.value < 0 ==> |r| == if |s| + end.value > 0 then |s| + end.value else 0
  {
    match end
    case None => s
    case Some(n) =>
      if n >= 0 then (if n < |s| then s[..n] else s)
      else (if |s| + n > 0 then s[..|s| + n] else [])
  }

  /** `filteredAppointments`: the matching appointments in list order, cut
      to `limit` rows when a limit is given. */
  function Filtered(apps: seq<Appointment>, c: Criteria, limit: Option<int>): (r: seq<Appointment>)
    ensures IsSubseq(r, apps)
    ensures forall i :: 0 <= i < |r| ==> Matches(r[i], c)
    ensures |r| <= |Filter((a: Appointment) => Matches(a, c), apps)|
    ensures r == Filter((a: Appointment) => Matches(a, c), apps)[..|r|]
    ensures limit.Some? && limit.value >= 0 ==>
              var n := |Filter((a: Appointment) => Matches(a, c), apps)|;
              |r| == if limit.value < n then limit.value else n
    ensures limit.Some? && limit.value < 0 ==>
              var n := |Filter((a: Appointment) => Matches(a, c), apps)|;
              |r| == if n + limit.value > 0 then n + limit.value else 0
    ensures limit.None? ==> forall a :: a in apps && Matches(a, c) ==> a in r
    ensures limit.None? ==> |r| == |Filter((a: Appointment) => Matches(a, c), apps)|
  {
    var all := Filter((a: Appointment) => Matches(a, c), apps);
    var r := SliceTo(all, limit);
    PrefixSubseq(all, apps, |r|);
    r
  }

  /** With no criterion and no limit every appointment is listed. */
  lemma NoCriteriaListsAll(apps: seq<Appointment>)
    ensures Filtered(apps, NoCriteria, None) == apps
  {
    FilterAll((a: Appointment) => Matches(a, NoCriteria), apps);
  }

  function ProfessionalOf(apps: seq<Appointment>): (r: seq<string>)
    ensures |r| == |apps|
    ensures forall i :: 0 <= i < |apps| ==> r[i] == apps[i].professional
  {
    seq(|apps|, i requires 0 <= i < |apps| => apps[i].professional)
  }

  /** The professional filter's options, `[...new Set(professionals)]`:
      every professional with an appointment, once each, in the order they
      first appear. */
  function Professionals(apps: seq<Appointment>): (r: seq<string>)
    ensures NoDuplicates(r)
    ensures forall p :: p in r <==> exists i :: 0 <= i < |apps| && apps[i].professional == p
    ensures forall p :: p in r <==> p in ProfessionalOf(apps)
    ensures forall i, j :: 0 <= i < j < |r| ==>
              FirstIndex(ProfessionalOf(apps), r[i]) < FirstIndex(ProfessionalOf(apps), r[j])
  {
    var names := ProfessionalOf(apps);
    assert forall p :: p in names <==> exists i :: 0 <= i < |apps| && apps[i].professional == p by {
      forall p | p in names ensures exists i :: 0 <= i < |apps| && apps[i].professional == p {
        var i :| 0 <= i < |names| && names[i] == p;
        assert apps[i].professional == p;
      }
    }
    Dedup(names)
  }

  /** The items of a row's action menu. */
  datatype Action = Confirm | Complete | Edit | Cancel

  /** The menu of an appointment with status `st`: "Confirmar" for a pending
      one, "Marcar como Concluído" for a confirmed one, then "Editar" and
      "Cancelar" for all. */
  function MenuActions(st: Status): (r: seq<Action>)
    ensures Confirm in r <==> st == Pending
    ensures Complete in r <==> st == Confirmed
    ensures Edit in r && Cancel in r
    ensures NoDuplicates(r)
  {
    (if st == Pending then [Confirm] else [])
    + (if st == Confirmed then [Complete] else [])
    + [Edit, Cancel]
  }

  /** The status an action sets; "Editar" has no handler. */
  function Target(act: Action): Option<Status> {
    match act
    case Confirm => Some(Confirmed)
    case Complete => Some(Completed)
    case Edit => None
    case Cancel => Some(Cancelled)
  }

  /** The status changes the menu allows: confirm a pending appointment,
      complete a confirmed one, cancel any. */
  predicate AllowedChange(from: Status, to: Status) {
    (from == Pending && to == Confirmed) || (from == Confirmed && to == Completed) || to == Cancelled
  }

  /** The menu offers exactly the allowed changes. */
  lemma MenuOffersAllowedChanges(from: Status, to: Status)
    ensures AllowedChange(from, to) <==>
              exists act :: act in MenuActions(from) && Target(act) == Some(to)
  {
    if AllowedChange(from, to) {
      if to == Cancelled {
        assert Cancel in MenuActions(from) && Target(Cancel) == Some(to);
      } else if from == Pending {
        assert Confirm in MenuActions(from) && Target(Confirm) == Some(to);
      } else {
        assert Complete in MenuActions(from) && Target(Complete) == Some(to);
      }
    }
  }

  /** Choosing a menu item of row `i` updates the list through
      `updateAppointmentStatus` with the row's id. */
  function ChooseAction(apps: seq<Appointment>, i: nat, act: Action): (r: seq<Appointment>)
    requires i < |apps| && act in MenuActions(apps[i].status)
    ensures |r| == |apps|
    ensures Target(act).Some? ==>
              r[i].status == Target(act).value && AllowedChange(apps[i].status, r[i].status)
    ensures Target(act).Some? ==>
              forall j :: 0 <= j < |apps| && apps[j].id == apps[i].id ==> r[j].status == Target(act).value
    ensures forall j :: 0 <= j < |apps| && apps[j].id != apps[i].id ==> r[j] == apps[j]
    ensures forall j :: 0 <= j < |apps| ==> r[j].(status := apps[j].status) == apps[j]
    ensures Target(act).None? ==> r == apps
  {
    match Target(act)
    case None => apps
    case Some(st) =>
      MenuOffersAllowedChanges(apps[i].status, st);
      UpdateStatus(apps, apps[i].id, st)
  }
}
