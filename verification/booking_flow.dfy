/** The booking wizard: a step counter bounded by four and an eight-field
    draft, changed only by the wizard's own handlers and by the global
    `openBooking` event. React's `setState` is read as "replace the state
    with a function of it", so every handler is a pure transition. */
module BookingFlow {
  import opened Options

  const TotalSteps: int := 4

  /** The draft's eight text fields, in declaration order. */
  datatype Field =
    | Service | ServicePrice | Professional | Date | Time
    | CustomerName | CustomerPhone | CustomerEmail

  datatype Draft = Draft(
    service: string,
    servicePrice: string,
    professional: string,
    date: string,
    time: string,
    customerName: string,
    customerPhone: string,
    customerEmail: string)

  const EmptyDraft := Draft("", "", "", "", "", "", "", "")

  datatype Wizard = Wizard(step: int, draft: Draft)

  /** The state the wizard mounts with and returns to on every reset. */
  const Initial := Wizard(1, EmptyDraft)

  /** A service as offered on a card: its name and its price label. */
  datatype Offer = Offer(name: string, price: string)

  /** The service cards of step 1. */
  const StepOneServices: seq<Offer> := [
    Offer("Corte Clássico", "R$ 45,00"),
    Offer("Corte + Barba", "R$ 85,00"),
    Offer("Barba Completa", "R$ 55,00"),
    Offer("Corte Premium", "R$ 75,00")]

  /** The professionals of step 2. */
  const ProfessionalNames: seq<string> := ["Carlos Silva", "Ana Costa"]

  /** The date and time buttons of step 3. */
  const AvailableDates: seq<string> := ["2 Out (Hoje)", "3 Out (Amanhã)", "4 Out (Sex)"]
  const AvailableTimes: seq<string> := [
    "09:00", "09:30", "10:00", "10:30", "11:00", "11:30",
    "14:00", "14:30", "15:00", "15:30", "16:00", "16:30", "17:00"]

  /** The services of the landing page's service section, which opens the
      wizard with one of them pre-selected (name and `priceString`). */
  const LandingPageServices: seq<Offer> := [
    Offer("Corte Clássico", "R$ 45,00"),
    Offer("Corte + Barba", "R$ 85,00"),
    Offer("Barba Completa", "R$ 55,00"),
    Offer("Tratamento Capilar", "R$ 60,00")]

  function Get(d: Draft, f: Field): string {
    match f
    case Service => d.service
    case ServicePrice => d.servicePrice
    case Professional => d.professional
    case Date => d.date
    case Time => d.time
    case CustomerName => d.customerName
    case CustomerPhone => d.customerPhone
    case CustomerEmail => d.customerEmail
  }

  /** `setBookingData(prev => ({ ...prev, [f]: v }))`. */
  function Set(d: Draft, f: Field, v: string): (r: Draft)
    ensures Get(r, f) == v
    ensures forall g :: g != f ==> Get(r, g) == Get(d, g)
  {
    match f
    case Service => d.(service := v)
    case ServicePrice => d.(servicePrice := v)
    case Professional => d.(professional := v)
    case Date => d.(date := v)
    case Time => d.(time := v)
    case CustomerName => d.(customerName := v)
    case CustomerPhone => d.(customerPhone := v)
    case CustomerEmail => d.(customerEmail := v)
  }

  /** The fields outside `changed` are equal in `a` and `b`. */
  predicate Unchanged(a: Draft, b: Draft, changed: set<Field>) {
    forall f :: f !in changed ==> Get(a, f) == Get(b, f)
  }

  predicate InRange(w: Wizard) {
    1 <= w.step <= TotalSteps
  }

  /** `nextStep`: one step forward, a no-op on the last step. */
  function NextStep(w: Wizard): (r: Wizard)
    ensures r.draft == w.draft
    ensures w.step < TotalSteps ==> r.step == w.step + 1
    ensures w.step >= TotalSteps ==> r == w
    ensures InRange(w) ==> InRange(r)
  {
    if w.step < TotalSteps then w.(step := w.step + 1) else w
  }

  /** `prevStep`: one step back, a no-op on the first step. */
  function PrevStep(w: Wizard): (r: Wizard)
    ensures r.draft == w.draft
    ensures w.step > 1 ==> r.step == w.step - 1
    ensures w.step <= 1 ==> r == w
    ensures InRange(w) ==> InRange(r)
  {
    if w.step > 1 then w.(step := w.step - 1) else w
  }

  /** `resetFlow`, and `handleClose`, which is `resetFlow` followed by the
      parent's `onClose`: step 1 and an empty draft, whatever came before. */
  function ResetFlow(w: Wizard): (r: Wizard)
    ensures r.step == 1
    ensures forall f :: Get(r.draft, f) == ""
  {
    Initial
  }

  /** `selectService`: records the card's name and price, then `nextStep`. */
  function SelectService(w: Wizard, o: Offer): (r: Wizard)
    ensures r.draft.service == o.name && r.draft.servicePrice == o.price
    ensures Unchanged(r.draft, w.draft, {Service, ServicePrice})
    ensures r.step == NextStep(w).step
  {
    NextStep(w.(draft := Set(Set(w.draft, Service, o.name), ServicePrice, o.price)))
  }

  /** `selectProfessional`: records the name, then `nextStep`. */
  function SelectProfessional(w: Wizard, name: string): (r: Wizard)
    ensures r.draft.professional == name
    ensures Unchanged(r.draft, w.draft, {Professional})
    ensures r.step == NextStep(w).step
  {
    NextStep(w.(draft := Set(w.draft, Professional, name)))
  }

  /** A date, time or contact input: only that field changes, the step
      does not. Choosing a date keeps the chosen time. */
  function SetField(w: Wizard, f: Field, v: string): (r: Wizard)
    ensures r.step == w.step
    ensures Get(r.draft, f) == v
    ensures Unchanged(r.draft, w.draft, {f})
  {
    w.(draft := Set(w.draft, f, v))
  }

  /** The `openBooking` listener. `isOpen` is the flag the effect captured
      when it registered the listener. With a service in the payload it
      records the service and jumps to step 2; without one it goes back to
      step 1 if the wizard is open and does nothing otherwise. */
  function OpenBooking(payload: Option<Offer>, isOpen: bool, w: Wizard): (r: Wizard)
    ensures payload.Some? ==>
              && r.step == 2
              && r.draft.service == payload.value.name
              && r.draft.servicePrice == payload.value.price
              && Unchanged(r.draft, w.draft, {Service, ServicePrice})
    ensures payload.None? && isOpen ==> r.step == 1 && r.draft == w.draft
    ensures payload.None? && !isOpen ==> r == w
  {
    match payload
    case Some(o) =>
      Wizard(2, Set(Set(w.draft, Service, o.name), ServicePrice, o.price))
    case None =>
      if isOpen then w.(step := 1) else w
  }

  /** `confirmBooking`: logs, alerts and closes; the only state change is
      the reset of `handleClose`. */
  function ConfirmBooking(w: Wizard): (r: Wizard)
    ensures r.step == 1
    ensures forall f :: Get(r.draft, f) == ""
  {
    ResetFlow(w)
  }

  /** The dialog title; empty outside the four steps. */
  function StepTitle(step: int): (r: string)
    ensures r != [] <==> 1 <= step <= TotalSteps
    ensures 1 <= step <= TotalSteps ==> r[0] == ('0' as int + step) as char
  {
    if step == 1 then "1. Escolha o Serviço"
    else if step == 2 then "2. Selecione o Profissional"
    else if step == 3 then "3. Data e Horário"
    else if step == 4 then "4. Confirme e Finalize"
    else ""
  }

  /** "Próximo" is rendered only before step 3. */
  predicate NextShown(w: Wizard) {
    w.step < 3
  }

  /** "Próximo" is disabled while the current step's choice is missing. */
  predicate NextDisabled(w: Wizard) {
    (w.step == 1 && w.draft.service == "") || (w.step == 2 && w.draft.professional == "")
  }

  /** "Voltar" is always rendered and disabled on step 1. */
  predicate BackDisabled(w: Wizard) {
    w.step == 1
  }

  /** "Continuar para Confirmação" is rendered on step 3 once both a date
      and a time are chosen. */
  predicate ContinueShown(w: Wizard) {
    w.step == 3 && w.draft.date != "" && w.draft.time != ""
  }

  /** "Finalizar Agendamento" is disabled while name or phone is empty. */
  predicate SubmitDisabled(w: Wizard) {
    w.draft.customerName == "" || w.draft.customerPhone == ""
  }

  /** The submit control depends on name and phone only: the optional
      email never changes it. */
  lemma SubmitIgnoresEmail(w: Wizard, email: string)
    ensures SubmitDisabled(SetField(w, CustomerEmail, email)) == SubmitDisabled(w)
    ensures !SubmitDisabled(w) <==> w.draft.customerName != "" && w.draft.customerPhone != ""
  {
  }

  /** "Próximo" moves the wizard exactly when it is shown and the current
      step's choice is made; it never goes past step 3. */
  lemma NextControl(w: Wizard)
    requires InRange(w)
    ensures Dispatch(w, ClickNext).step == w.step + 1 <==>
              w.step < 3 && (w.step == 1 ==> w.draft.service != "")
                         && (w.step == 2 ==> w.draft.professional != "")
    ensures Dispatch(w, ClickNext).step != w.step + 1 ==> Dispatch(w, ClickNext) == w
    ensures Dispatch(w, ClickNext).step <= 3 || Dispatch(w, ClickNext) == w
  {
  }

  /** "Continuar para Confirmação" reaches step 4 exactly from step 3 with a
      date and a time chosen. */
  lemma ContinueControl(w: Wizard)
    requires InRange(w)
    ensures Dispatch(w, ClickContinue).step == 4 && w.step != 4 <==>
              w.step == 3 && w.draft.date != "" && w.draft.time != ""
    ensures Dispatch(w, ClickContinue).draft == w.draft
  {
  }

  /** Going back undoes going forward, and the other way round. */
  lemma StepsAreInverse(w: Wizard)
    ensures 1 <= w.step < TotalSteps ==> PrevStep(NextStep(w)) == w
    ensures 1 < w.step <= TotalSteps ==> NextStep(PrevStep(w)) == w
  {
  }

  /** What a user or the page can do to the wizard. Card and button events
      carry the index of the card or button they belong to. */
  datatype Event =
    | ClickNext
    | ClickBack
    | PickService(i: nat)
    | PickProfessional(i: nat)
    | PickDate(i: nat)
    | PickTime(i: nat)
    | ClickContinue
    | TypeName(text: string)
    | TypePhone(text: string)
    | TypeEmail(text: string)
    | ClickFinish
    | Dismiss
    | OpenRequest(payload: Option<Offer>, isOpen: bool)

  /** The event can happen in this state: its control is rendered and not
      disabled, and an open request carries nothing or a landing-page
      service. */
  predicate Enabled(w: Wizard, e: Event) {
    match e
    case ClickNext => NextShown(w) && !NextDisabled(w)
    case ClickBack => !BackDisabled(w)
    case PickService(i) => w.step == 1 && i < |StepOneServices|
    case PickProfessional(i) => w.step == 2 && i < |ProfessionalNames|
    case PickDate(i) => w.step == 3 && i < |AvailableDates|
    case PickTime(i) => w.step == 3 && i < |AvailableTimes|
    case ClickContinue => ContinueShown(w)
    case TypeName(_) => w.step == 4
    case TypePhone(_) => w.step == 4
    case TypeEmail(_) => w.step == 4
    case ClickFinish => w.step == 4 && !SubmitDisabled(w)
    case Dismiss => true
    case OpenRequest(p, _) => p.Some? ==> p.value in LandingPageServices
  }

  /** The handler an enabled event runs. */
  function Apply(w: Wizard, e: Event): Wizard
    requires Enabled(w, e)
  {
    match e
    case ClickNext => NextStep(w)
    case ClickBack => PrevStep(w)
    case PickService(i) => SelectService(w, StepOneServices[i])
    case PickProfessional(i) => SelectProfessional(w, ProfessionalNames[i])
    case PickDate(i) => SetField(w, Date, AvailableDates[i])
    case PickTime(i) => SetField(w, Time, AvailableTimes[i])
    case ClickContinue => NextStep(w)
    case TypeName(s) => SetField(w, CustomerName, s)
    case TypePhone(s) => SetField(w, CustomerPhone, s)
    case TypeEmail(s) => SetField(w, CustomerEmail, s)
    case ClickFinish => ConfirmBooking(w)
    case Dismiss => ResetFlow(w)
    case OpenRequest(p, open) => OpenBooking(p, open, w)
  }

  /** An event whose control is absent or disabled changes nothing. */
  function Dispatch(w: Wizard, e: Event): Wizard {
    if Enabled(w, e) then Apply(w, e) else w
  }

  /** The state after a sequence of events. */
  function Run(w: Wizard, es: seq<Event>): Wizard
    decreases |es|
  {
    if es == [] then w else Run(Dispatch(w, es[0]), es[1..])
  }

  /** The wizard's invariant: the step is in range, and every step past
      the first holds the choices of the steps before it. */
  predicate WellFormed(w: Wizard) {
    && InRange(w)
    && (w.step >= 2 ==> w.draft.service != "")
    && (w.step >= 3 ==> w.draft.professional != "")
    && (w.step == 4 ==> w.draft.date != "" && w.draft.time != "")
  }

  /** One event keeps the invariant. */
  lemma DispatchKeepsWellFormed(w: Wizard, e: Event)
    requires WellFormed(w)
    ensures WellFormed(Dispatch(w, e))
  {
    if Enabled(w, e) {
      match e
      case OpenRequest(p, _) =>
        if p.Some? {
          assert p.value.name != "";
        }
      case _ =>
    }
  }

  /** Any sequence of events keeps the invariant. */
  lemma {:induction false} RunKeepsWellFormed(w: Wizard, es: seq<Event>)
    requires WellFormed(w)
    ensures WellFormed(Run(w, es))
    decreases |es|
  {
    if es != [] {
      DispatchKeepsWellFormed(w, es[0]);
      RunKeepsWellFormed(Dispatch(w, es[0]), es[1..]);
    }
  }

  /** Every state the wizard can reach from its initial state has its step
      in 1..4, and is past step k only with step k's choice made. */
  lemma ReachableWellFormed(es: seq<Event>)
    ensures InRange(Run(Initial, es))
    ensures Run(Initial, es).step >= 2 ==> Run(Initial, es).draft.service != ""
    ensures Run(Initial, es).step >= 3 ==> Run(Initial, es).draft.professional != ""
    ensures Run(Initial, es).step == 4 ==>
              Run(Initial, es).draft.date != "" && Run(Initial, es).draft.time != ""
  {
    RunKeepsWellFormed(Initial, es);
  }

  /** One event at the head of a run. */
  lemma RunHead(w: Wizard, w': Wizard, es: seq<Event>)
    requires es != [] && Dispatch(w, es[0]) == w'
    ensures Run(w, es) == Run(w', es[1..])
  {
  }

  /** The choices of a booking: the first service card, the first
      professional, the first date and the first time, then "Continuar"
      reaches the confirmation step with all four choices in the draft. */
  lemma ChooseFirstOfEach()
    ensures Dispatch(Dispatch(Dispatch(Dispatch(Dispatch(Initial, PickService(0)), PickProfessional(0)),
                                       PickDate(0)), PickTime(0)), ClickContinue)
         == Wizard(4, EmptyDraft.(service := "Corte Clássico", servicePrice := "R$ 45,00",
                                  professional := "Carlos Silva", date := "2 Out (Hoje)",
                                  time := "09:00"))
  {
    var w1 := Wizard(2, EmptyDraft.(service := "Corte Clássico", servicePrice := "R$ 45,00"));
    assert Dispatch(Initial, PickService(0)) == w1;
    var w2 := Wizard(3, w1.draft.(professional := "Carlos Silva"));
    assert Dispatch(w1, PickProfessional(0)) == w2;
    var w3 := w2.(draft := w2.draft.(date := "2 Out (Hoje)"));
    assert Dispatch(w2, PickDate(0)) == w3;
    var w4 := w3.(draft := w3.draft.(time := "09:00"));
    assert Dispatch(w3, PickTime(0)) == w4;
  }

  /** Typing a name and a phone on the confirmation step enables
      "Finalizar Agendamento", and finishing resets the wizard. */
  lemma FinishBooking(w: Wizard)
    requires w.step == 4
    ensures var w' := Run(w, [TypeName("Maria Souza"), TypePhone("11999990000")]);
            && w'.step == 4
            && w'.draft == w.draft.(customerName := "Maria Souza", customerPhone := "11999990000")
            && !SubmitDisabled(w')
            && Dispatch(w', ClickFinish) == Initial
  {
    var es := [TypeName("Maria Souza"), TypePhone("11999990000")];
    var w1 := w.(draft := w.draft.(customerName := "Maria Souza"));
    RunHead(w, w1, es);
    RunHead(w1, w1.(draft := w1.draft.(customerPhone := "11999990000")), es[1..]);
  }
}
