/** The admin staff list: toggling, and the add/edit dialog whose
    specialties field is the list joined with ", " and split back on ",". */
module StaffManagement {
  import opened Options
  import opened Collections
  import opened Text

  datatype Hours = Hours(start: string, end: string)

  datatype Staff = Staff(
    id: string,
    name: string,
    email: string,
    phone: string,
    role: string,
    specialties: seq<string>,
    experience: string,
    rating: real,
    reviewCount: int,
    isActive: bool,
    avatar: Option<string>,
    workingHours: map<string, Option<Hours>>)

  /** The dialog's form; specialties are one comma-separated text. */
  datatype Form = Form(
    name: string,
    email: string,
    phone: string,
    role: string,
    specialties: string,
    experience: string,
    isActive: bool)

  const DefaultForm := Form("", "", "", "", "", "", true)

  /** The component's state. */
  datatype Page = Page(staff: seq<Staff>, dialogOpen: bool, editing: Option<Staff>, form: Form)

  /** `resetForm`: every text field empty, active, nobody under edit. */
  function ResetForm(p: Page): (r: Page)
    ensures r.form.name == "" && r.form.email == "" && r.form.phone == ""
    ensures r.form.role == "" && r.form.specialties == "" && r.form.experience == ""
    ensures r.form.isActive
    ensures r.editing == None
    ensures r.staff == p.staff && r.dialogOpen == p.dialogOpen
  {
    p.(form := DefaultForm, editing := None)
  }

  /** `formData.specialties.split(",").map(s => s.trim())`: one trimmed,
      comma-free piece per comma-separated part. */
  function ParseSpecialties(text: string): (r: seq<string>)
    ensures |r| == |Split(text, ',')| && |r| >= 1
    ensures forall i :: 0 <= i < |r| ==> r[i] == Trim(Split(text, ',')[i])
    ensures forall i :: 0 <= i < |r| ==> Clean(r[i], ',')
  {
    var pieces := Split(text, ',');
    var r := TrimEach(pieces);
    forall i | 0 <= i < |r|
      ensures Clean(r[i], ',')
    {
      TrimIdempotent(pieces[i]);
      if ',' in r[i] {
        TrimKeepsCharacters(pieces[i], ',');
      }
    }
    r
  }

  /** `specialties.join(", ")`, the form text of an edited member. */
  function JoinSpecialties(specialties: seq<string>): string {
    Join(specialties, ", ")
  }

  /** Specialties that are trimmed and comma-free survive the trip through
      the form text, as long as there is at least one. */
  lemma SpecialtiesRoundTrip(specialties: seq<string>)
    requires |specialties| >= 1
    requires forall i :: 0 <= i < |specialties| ==> Clean(specialties[i], ',')
    ensures ParseSpecialties(JoinSpecialties(specialties)) == specialties
  {
    SplitTrimJoin(specialties, ',');
  }

  /** An empty list does not: its form text is empty, which parses to one
      empty specialty. */
  lemma EmptySpecialtiesComeBackAsOne()
    ensures ParseSpecialties(JoinSpecialties([])) == [""]
  {
  }

  /** `editingStaff?.id || Date.now().toString()`. */
  function SubmittedId(editing: Option<Staff>, freshId: string): string {
    StringOr(if editing.Some? then Some(editing.value.id) else None, freshId)
  }

  /** `staffData`: the form, the parsed specialties and the id, with
      rating, review count and working hours carried over from the member
      under edit, or 0, 0 and no hours for a new one. */
  function StaffData(f: Form, editing: Option<Staff>, freshId: string, avatar: Option<string>): (r: Staff)
    ensures r.id == SubmittedId(editing, freshId)
    ensures r.specialties == ParseSpecialties(f.specialties)
    ensures r.name == f.name && r.email == f.email && r.phone == f.phone
    ensures r.role == f.role && r.experience == f.experience && r.isActive == f.isActive
    ensures editing.Some? ==>
              && r.rating == editing.value.rating
              && r.reviewCount == editing.value.reviewCount
              && r.workingHours == editing.value.workingHours
    ensures editing.None? ==> r.rating == 0.0 && r.reviewCount == 0 && r.workingHours == map[]
    ensures r.avatar == avatar
  {
    Staff(SubmittedId(editing, freshId), f.name, f.email, f.phone, f.role,
          ParseSpecialties(f.specialties), f.experience,
          if editing.Some? then editing.value.rating else 0.0,
          if editing.Some? then editing.value.reviewCount else 0,
          f.isActive, avatar,
          if editing.Some? then editing.value.workingHours else map[])
  }

  /** `handleSubmit`: editing rewrites every member with the edited id
      (keeping that member's avatar); adding appends one member. The dialog
      closes and the form is reset. */
  function HandleSubmit(p: Page, freshId: string): (r: Page)
    ensures !r.dialogOpen && r.form == DefaultForm && r.editing == None
    ensures p.editing.Some? ==>
              && |r.staff| == |p.staff|
              && (forall i :: 0 <= i < |p.staff| && p.staff[i].id != p.editing.value.id ==>
                    r.staff[i] == p.staff[i])
              && (forall i :: 0 <= i < |p.staff| && p.staff[i].id == p.editing.value.id ==>
                    r.staff[i] == StaffData(p.form, p.editing, freshId, p.staff[i].avatar))
    ensures p.editing.None? ==>
              && |r.staff| == |p.staff| + 1
              && r.staff[..|p.staff|] == p.staff
              && r.staff[|p.staff|] == StaffData(p.form, None, freshId, None)
  {
    var staff :=
      match p.editing
      case Some(e) =>
        UpdateWhere(p.staff, (s: Staff) => s.id == e.id,
                    (s: Staff) => StaffData(p.form, p.editing, freshId, s.avatar))
      case None =>
        p.staff + [StaffData(p.form, None, freshId, None)];
    ResetForm(p.(staff := staff, dialogOpen := false))
  }

  /** `handleEdit`: opens the dialog on `m` with the form filled from it. */
  function HandleEdit(p: Page, m: Staff): (r: Page)
    ensures r.dialogOpen && r.editing == Some(m) && r.staff == p.staff
    ensures r.form.name == m.name && r.form.email == m.email && r.form.phone == m.phone
    ensures r.form.role == m.role && r.form.experience == m.experience
    ensures r.form.isActive == m.isActive
    ensures r.form.specialties == JoinSpecialties(m.specialties)
  {
    p.(editing := Some(m), dialogOpen := true,
       form := Form(m.name, m.email, m.phone, m.role, JoinSpecialties(m.specialties),
                    m.experience, m.isActive))
  }

  /** Opening a member for edit and saving without changes leaves the list
      as it was, when the member's id is non-empty, every member with that
      id is this one, and its specialties survive the form text. */
  lemma EditThenSubmitKeepsList(p: Page, m: Staff, freshId: string)
    requires m.id != ""
    requires forall i :: 0 <= i < |p.staff| && p.staff[i].id == m.id ==> p.staff[i] == m
    requires |m.specialties| >= 1
    requires forall i :: 0 <= i < |m.specialties| ==> Clean(m.specialties[i], ',')
    ensures HandleSubmit(HandleEdit(p, m), freshId).staff == p.staff
  {
    SpecialtiesRoundTrip(m.specialties);
    var r := HandleSubmit(HandleEdit(p, m), freshId).staff;
    assert forall i :: 0 <= i < |r| ==> r[i] == p.staff[i];
  }

  /** `toggleStaffStatus`: flips `isActive` of every member with the id. */
  function ToggleStatus(staff: seq<Staff>, id: string): (r: seq<Staff>)
    ensures |r| == |staff|
    ensures forall i :: 0 <= i < |staff| && staff[i].id == id ==>
              r[i] == staff[i].(isActive := !staff[i].isActive)
    ensures forall i :: 0 <= i < |staff| && staff[i].id != id ==> r[i] == staff[i]
  {
    UpdateWhere(staff, (s: Staff) => s.id == id, (s: Staff) => s.(isActive := !s.isActive))
  }

  /** Toggling twice restores the list. */
  lemma ToggleTwice(staff: seq<Staff>, id: string)
    ensures ToggleStatus(ToggleStatus(staff, id), id) == staff
  {
    var r := ToggleStatus(ToggleStatus(staff, id), id);
    assert forall i :: 0 <= i < |r| ==> r[i] == staff[i];
  }

  /** The header's "N funcionários ativos": together with the inactive
      members it makes up the whole team, and it is the team's size exactly
      when everyone is active. */
  function ActiveCount(staff: seq<Staff>): (n: nat)
    ensures n + |Filter((s: Staff) => !s.isActive, staff)| == |staff|
    ensures n <= |staff|
    ensures n == |staff| <==> forall i :: 0 <= i < |staff| ==> staff[i].isActive
  {
    var active := (s: Staff) => s.isActive;
    var act := Filter(active, staff);
    FilterPartition(active, (s: Staff) => !s.isActive, staff);
    if forall i :: 0 <= i < |staff| ==> staff[i].isActive then
      FilterAll(active, staff);
      |act|
    else
      var k :| 0 <= k < |staff| && !staff[k].isActive;
      FilterDropsSomething(active, staff, k);
      |act|
  }
}
