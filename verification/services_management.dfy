/** The admin services list: toggling, deleting, the add/edit dialog and
    the all/active/inactive view. */
module ServicesManagement {
  import opened Options
  import opened Collections

  datatype Category = Cut | Beard | Treatment | Coloring

  datatype Service = Service(
    id: string,
    name: string,
    description: string,
    price: real,
    duration: int,
    category: Category,
    isActive: bool,
    image: Option<string>)

  /** The dialog's form; price and duration are the typed text. */
  datatype Form = Form(
    name: string,
    description: string,
    price: string,
    duration: string,
    category: Category,
    isActive: bool)

  const DefaultForm := Form("", "", "", "", Cut, true)

  /** Which services the list shows. */
  datatype Visibility = All | ActiveOnly | InactiveOnly

  /** The component's state. */
  datatype Page = Page(
    services: seq<Service>,
    dialogOpen: bool,
    editing: Option<Service>,
    visibility: Visibility,
    form: Form)

  /** `resetForm`: the form back to its defaults (empty text, category
      "cut", available) and no service under edit; the rest is kept. */
  function ResetForm(p: Page): (r: Page)
    ensures r.form.name == "" && r.form.description == ""
    ensures r.form.price == "" && r.form.duration == ""
    ensures r.form.category == Cut && r.form.isActive
    ensures r.editing == None
    ensures r.services == p.services && r.dialogOpen == p.dialogOpen && r.visibility == p.visibility
  {
    p.(form := DefaultForm, editing := None)
  }

  /** `editingService?.id || Date.now().toString()`: an empty id is falsy,
      so it is replaced by the fresh one as well. */
  function SubmittedId(editing: Option<Service>, freshId: string): string {
    StringOr(if editing.Some? then Some(editing.value.id) else None, freshId)
  }

  /** `{ ...s, ...serviceData }`: the form's fields, the parsed numbers and
      the id over the stored service, whose image is kept. */
  function Merge(s: Service, f: Form, id: string, price: real, duration: int): Service {
    Service(id, f.name, f.description, price, duration, f.category, f.isActive, s.image)
  }

  /** `handleSubmit`. `price` and `duration` are what `parseFloat` and
      `parseInt` make of the form's text, and `freshId` is the
      `Date.now()` id. Editing rewrites every service with the edited id;
      adding appends one service at the end. The dialog closes and the form
      is reset. */
  function HandleSubmit(p: Page, freshId: string, price: real, duration: int): (r: Page)
    ensures !r.dialogOpen && r.form == DefaultForm && r.editing == None
    ensures r.visibility == p.visibility
    ensures p.editing.Some? ==>
              && |r.services| == |p.services|
              && (forall i :: 0 <= i < |p.services| && p.services[i].id != p.editing.value.id ==>
                    r.services[i] == p.services[i])
              && (forall i :: 0 <= i < |p.services| && p.services[i].id == p.editing.value.id ==>
                    && r.services[i].id == SubmittedId(p.editing, freshId)
                    && r.services[i].name == p.form.name
                    && r.services[i].description == p.form.description
                    && r.services[i].category == p.form.category
                    && r.services[i].isActive == p.form.isActive
                    && r.services[i].price == price
                    && r.services[i].duration == duration
                    && r.services[i].image == p.services[i].image)
    ensures p.editing.None? ==>
              && |r.services| == |p.services| + 1
              && r.services[..|p.services|] == p.services
              && r.services[|p.services|]
                 == Service(freshId, p.form.name, p.form.description, price, duration,
                            p.form.category, p.form.isActive, None)
  {
    var id := SubmittedId(p.editing, freshId);
    var services :=
      match p.editing
      case Some(e) =>
        UpdateWhere(p.services, (s: Service) => s.id == e.id,
                    (s: Service) => Merge(s, p.form, id, price, duration))
      case None =>
        p.services + [Service(id, p.form.name, p.form.description, price, duration,
                              p.form.category, p.form.isActive, None)];
    ResetForm(p.(services := services, dialogOpen := false))
  }

  /** Editing a service keeps its id when the id is non-empty. */
  lemma EditKeepsId(p: Page, freshId: string, price: real, duration: int, i: nat)
    requires p.editing.Some? && p.editing.value.id != ""
    requires i < |p.services| && p.services[i].id == p.editing.value.id
    ensures HandleSubmit(p, freshId, price, duration).services[i].id == p.services[i].id
  {
  }

  /** `handleEdit`: opens the dialog on `s` with the form filled from it.
      `priceText` and `durationText` are what `toString` makes of its
      numbers. */
  function HandleEdit(p: Page, s: Service, priceText: string, durationText: string): (r: Page)
    ensures r.dialogOpen && r.editing == Some(s)
    ensures r.form.name == s.name && r.form.description == s.description
    ensures r.form.category == s.category && r.form.isActive == s.isActive
    ensures r.form.price == priceText && r.form.duration == durationText
    ensures r.services == p.services && r.visibility == p.visibility
  {
    p.(editing := Some(s), dialogOpen := true,
       form := Form(s.name, s.description, priceText, durationText, s.category, s.isActive))
  }

  /** Opening a service for edit and saving without changes leaves the
      list as it was, when the numbers parse back to themselves, the id is
      non-empty and every service with that id is this one. */
  lemma EditThenSubmitKeepsList(p: Page, s: Service, priceText: string, durationText: string,
                                freshId: string)
    requires s.id != ""
    requires forall i :: 0 <= i < |p.services| && p.services[i].id == s.id ==> p.services[i] == s
    ensures HandleSubmit(HandleEdit(p, s, priceText, durationText), freshId, s.price, s.duration).services
         == p.services
  {
    var r := HandleSubmit(HandleEdit(p, s, priceText, durationText), freshId, s.price, s.duration).services;
    assert forall i :: 0 <= i < |r| ==> r[i] == p.services[i];
  }

  /** `toggleServiceStatus`: flips `isActive` of every service with the id. */
  function ToggleStatus(services: seq<Service>, id: string): (r: seq<Service>)
    ensures |r| == |services|
    ensures forall i :: 0 <= i < |services| && services[i].id == id ==>
              r[i] == services[i].(isActive := !services[i].isActive)
    ensures forall i :: 0 <= i < |services| && services[i].id != id ==> r[i] == services[i]
  {
    UpdateWhere(services, (s: Service) => s.id == id, (s: Service) => s.(isActive := !s.isActive))
  }

  /** Toggling twice restores the list. */
  lemma ToggleTwice(services: seq<Service>, id: string)
    ensures ToggleStatus(ToggleStatus(services, id), id) == services
  {
    var r := ToggleStatus(ToggleStatus(services, id), id);
    assert forall i :: 0 <= i < |r| ==> r[i] == services[i];
  }

  /** `deleteService`: drops every service with the id and keeps the others
      in their order. */
  function Delete(services: seq<Service>, id: string): (r: seq<Service>)
    ensures forall i :: 0 <= i < |r| ==> r[i].id != id
    ensures forall s :: s in services && s.id != id ==> multiset(r)[s] == multiset(services)[s]
    ensures IsSubseq(r, services)
  {
    var keep := (s: Service) => s.id != id;
    assert forall s :: s in services && s.id != id ==>
             multiset(Filter(keep, services))[s] == multiset(services)[s] by {
      forall s | s in services && s.id != id
        ensures multiset(Filter(keep, services))[s] == multiset(services)[s]
      {
        FilterMultiset(keep, services, s);
      }
    }
    Filter(keep, services)
  }

  /** `filteredServices`. */
  function Visible(services: seq<Service>, v: Visibility): (r: seq<Service>)
    ensures IsSubseq(r, services)
    ensures v == ActiveOnly ==> forall s :: s in r <==> s in services && s.isActive
    ensures v == InactiveOnly ==> forall s :: s in r <==> s in services && !s.isActive
  {
    Filter((s: Service) => match v
                           case ActiveOnly => s.isActive
                           case InactiveOnly => !s.isActive
                           case All => true,
           services)
  }

  /** "Todos" shows the list as it is. */
  lemma AllShowsEverything(services: seq<Service>)
    ensures Visible(services, All) == services
  {
    FilterAll((s: Service) => match All
                              case ActiveOnly => s.isActive
                              case InactiveOnly => !s.isActive
                              case All => true,
              services);
  }

  /** The header's "N serviços ativos". */
  function ActiveCount(services: seq<Service>): (n: nat)
    ensures n <= |services|
  {
    |Filter((s: Service) => s.isActive, services)|
  }

  /** The active and the inactive views together hold every service once,
      and the active view is as long as the header's count. */
  lemma ViewsPartition(services: seq<Service>)
    ensures |Visible(services, ActiveOnly)| + |Visible(services, InactiveOnly)| == |services|
    ensures |Visible(services, ActiveOnly)| == ActiveCount(services)
  {
    var act := (s: Service) => match ActiveOnly
                               case ActiveOnly => s.isActive
                               case InactiveOnly => !s.isActive
                               case All => true;
    var inact := (s: Service) => match InactiveOnly
                                 case ActiveOnly => s.isActive
                                 case InactiveOnly => !s.isActive
                                 case All => true;
    FilterPartition(act, inact, services);
    assert Visible(services, ActiveOnly) == Filter(act, services);
    assert Visible(services, InactiveOnly) == Filter(inact, services);
    FilterSame(act, (s: Service) => s.isActive, services);
  }

  /** `getCategoryLabel`. */
  function CategoryLabel(c: Category): (r: string)
    ensures r != []
  {
    match c
    case Cut => "Corte"
    case Beard => "Barba"
    case Treatment => "Tratamento"
    case Coloring => "Coloração"
  }

  /** No two categories share a label. */
  lemma CategoryLabelInjective(a: Category, b: Category)
    requires CategoryLabel(a) == CategoryLabel(b)
    ensures a == b
  {
  }
}
