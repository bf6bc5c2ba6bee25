/** The client's appointment card: a status badge, and the reschedule,
    cancel, contact and location buttons that only upcoming appointments
    offer. */
module AppointmentCard {
  import opened Options
  import opened AppointmentStatus

  datatype ClientAppointment = ClientAppointment(
    id: string,
    date: string,
    time: string,
    service: string,
    professional: string,
    status: Status,
    price: string)

  /** The badge styles the card gives each status. */
  datatype BadgeVariant = Destructive | Default | Secondary | Outline

  function Variant(st: Status): BadgeVariant {
    match st
    case Pending => Destructive
    case Confirmed => Default
    case Completed => Secondary
    case Cancelled => Outline
  }

  /** `getStatusBadge`: the style and the Portuguese label of a status. */
  function Badge(st: Status): (r: (BadgeVariant, string))
    ensures r.1 == Label(st)
    ensures r.1 != []
  {
    (Variant(st), Label(st))
  }

  /** Different statuses never share a badge: neither its style nor its
      label. */
  lemma BadgeDistinguishes(a: Status, b: Status)
    requires a != b
    ensures Badge(a).0 != Badge(b).0 && Badge(a).1 != Badge(b).1
  {
    if Label(a) == Label(b) {
      LabelInjective(a, b);
    }
  }

  predicate IsUpcoming(a: ClientAppointment) {
    a.status == Confirmed || a.status == Pending
  }

  predicate IsPast(a: ClientAppointment) {
    a.status == Completed || a.status == Cancelled
  }

  /** Every appointment is either upcoming or past, never both. */
  lemma UpcomingOrPast(a: ClientAppointment)
    ensures IsUpcoming(a) != IsPast(a)
  {
  }

  datatype CardButton = Reschedule | CancelAppointment | Contact | Location

  /** The `showActions` prop; like a defaulted parameter, leaving it out
      means `true`. */
  function ShowActions(prop: Option<bool>): bool {
    prop.GetOr(true)
  }

  /** The buttons the card renders: the reschedule and cancel pair, then the
      contact and location pair, both only when actions are shown and the
      appointment is upcoming. */
  function Buttons(a: ClientAppointment, prop: Option<bool>): (r: seq<CardButton>)
    ensures r != [] <==> ShowActions(prop) && IsUpcoming(a)
    ensures r != [] ==> r == [Reschedule, CancelAppointment, Contact, Location]
    ensures prop == Some(false) ==> r == []
  {
    var actions := if ShowActions(prop) && IsUpcoming(a) then [Reschedule, CancelAppointment] else [];
    var contacts := if ShowActions(prop) && IsUpcoming(a) then [Contact, Location] else [];
    actions + contacts
  }

  /** A past appointment offers no buttons, whatever the prop says, and an
      upcoming one offers them all unless the prop turns them off. */
  lemma PastCardsHaveNoButtons(a: ClientAppointment, prop: Option<bool>)
    ensures IsPast(a) ==> Buttons(a, prop) == []
    ensures IsUpcoming(a) && prop != Some(false) ==> CancelAppointment in Buttons(a, prop)
  {
    UpcomingOrPast(a);
  }
}
