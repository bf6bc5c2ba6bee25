/** The four appointment statuses that the admin table, the calendar and
    the client card all share, with their filter keys and badge labels. */
module AppointmentStatus {
  import opened Options

  datatype Status = Pending | Confirmed | Completed | Cancelled

  /** The string a status is stored as, and the value of the status filter. */
  function Key(s: Status): string {
    match s
    case Pending => "pending"
    case Confirmed => "confirmed"
    case Completed => "completed"
    case Cancelled => "cancelled"
  }

  /** Reads a status filter value back; unknown strings name no status. */
  function FromKey(k: string): (r: Option<Status>)
    ensures r.Some? ==> Key(r.value) == k
    ensures r.None? ==> forall s: Status :: Key(s) != k
  {
    if k == "pending" then Some(Pending)
    else if k == "confirmed" then Some(Confirmed)
    else if k == "completed" then Some(Completed)
    else if k == "cancelled" then Some(Cancelled)
    else None
  }

  /** The Portuguese badge label of a status. */
  function Label(s: Status): (r: string)
    ensures r != []
  {
    match s
    case Pending => "Pendente"
    case Confirmed => "Confirmado"
    case Completed => "Concluído"
    case Cancelled => "Cancelado"
  }

  /** Every status key reads back as itself. */
  lemma KeyRoundTrip(s: Status)
    ensures FromKey(Key(s)) == Some(s)
  {
  }

  /** No two statuses share a badge label. */
  lemma LabelInjective(a: Status, b: Status)
    requires Label(a) == Label(b)
    ensures a == b
  {
  }
}
