/** The client's profile settings: a personal-data form that is editable
    only in edit mode, a password form whose button needs a current
    password and a confirmed new one, and four notification switches. */
module ProfileSettings {
  import opened Collections
  import opened Text

  datatype User = User(name: string, email: string, phone: string, loyaltyPoints: int)

  datatype FormField = Name | Email | Phone | CurrentPassword | NewPassword | ConfirmPassword

  datatype Form = Form(
    name: string,
    email: string,
    phone: string,
    currentPassword: string,
    newPassword: string,
    confirmPassword: string)

  datatype NotificationKey = EmailReminders | SmsReminders | Promotions | AppointmentUpdates

  datatype Notifications = Notifications(
    emailReminders: bool,
    smsReminders: bool,
    promotions: bool,
    appointments: bool)

  datatype Settings = Settings(isEditing: bool, form: Form, notifications: Notifications)

  function Get(f: Form, field: FormField): string {
    match field
    case Name => f.name
    case Email => f.email
    case Phone => f.phone
    case CurrentPassword => f.currentPassword
    case NewPassword => f.newPassword
    case ConfirmPassword => f.confirmPassword
  }

  /** `{ ...prev, [name]: value }` on the form. */
  function Set(f: Form, field: FormField, v: string): (r: Form)
    ensures Get(r, field) == v
    ensures forall g :: g != field ==> Get(r, g) == Get(f, g)
  {
    match field
    case Name => f.(name := v)
    case Email => f.(email := v)
    case Phone => f.(phone := v)
    case CurrentPassword => f.(currentPassword := v)
    case NewPassword => f.(newPassword := v)
    case ConfirmPassword => f.(confirmPassword := v)
  }

  function GetSwitch(n: Notifications, k: NotificationKey): bool {
    match k
    case EmailReminders => n.emailReminders
    case SmsReminders => n.smsReminders
    case Promotions => n.promotions
    case AppointmentUpdates => n.appointments
  }

  /** The fields shown in the personal-data card, which follow edit mode;
      the password fields are always enabled. */
  predicate IsProfileField(field: FormField) {
    field == Name || field == Email || field == Phone
  }

  predicate InputEnabled(s: Settings, field: FormField) {
    !IsProfileField(field) || s.isEditing
  }

  /** The page as it first renders for `user`: not editing, the form
      holding the user's data and empty passwords, and every switch on
      except promotions. */
  function Initial(user: User): (s: Settings)
    ensures !s.isEditing
    ensures Get(s.form, Name) == user.name && Get(s.form, Email) == user.email
         && Get(s.form, Phone) == user.phone
    ensures forall field :: !IsProfileField(field) ==> Get(s.form, field) == ""
    ensures forall k :: GetSwitch(s.notifications, k) <==> k != Promotions
  {
    Settings(false,
             Form(user.name, user.email, user.phone, "", "", ""),
             Notifications(true, true, false, true))
  }

  /** `handleInputChange`: typing into an enabled input sets that one field;
      a disabled input takes no input. */
  function InputChange(s: Settings, field: FormField, v: string): (r: Settings)
    ensures r.isEditing == s.isEditing && r.notifications == s.notifications
    ensures InputEnabled(s, field) ==> Get(r.form, field) == v
    ensures forall g :: g != field ==> Get(r.form, g) == Get(s.form, g)
    ensures !InputEnabled(s, field) ==> r == s
  {
    if InputEnabled(s, field) then s.(form := Set(s.form, field, v)) else s
  }

  /** `handleNotificationChange`: one switch takes the new value. */
  function NotificationChange(s: Settings, k: NotificationKey, v: bool): (r: Settings)
    ensures GetSwitch(r.notifications, k) == v
    ensures forall j :: j != k ==> GetSwitch(r.notifications, j) == GetSwitch(s.notifications, j)
    ensures r.isEditing == s.isEditing && r.form == s.form
  {
    var n := s.notifications;
    var n' := match k
      case EmailReminders => n.(emailReminders := v)
      case SmsReminders => n.(smsReminders := v)
      case Promotions => n.(promotions := v)
      case AppointmentUpdates => n.(appointments := v);
    s.(notifications := n')
  }

  /** "Editar Perfil": enters edit mode and nothing else. */
  function StartEdit(s: Settings): (r: Settings)
    ensures r.isEditing
    ensures forall field :: InputEnabled(r, field)
    ensures r.form == s.form && r.notifications == s.notifications
  {
    s.(isEditing := true)
  }

  /** `handleSaveProfile`: leaves edit mode keeping what was typed (there is
      no store to write to). */
  function SaveProfile(s: Settings): (r: Settings)
    ensures !r.isEditing
    ensures forall field :: InputEnabled(r, field) <==> !IsProfileField(field)
    ensures r.form == s.form && r.notifications == s.notifications
  {
    s.(isEditing := false)
  }

  /** "Cancelar": leaves edit mode; the typed values are not put back. */
  function CancelEdit(s: Settings): (r: Settings)
    ensures !r.isEditing
    ensures r.form == s.form && r.notifications == s.notifications
  {
    s.(isEditing := false)
  }

  /** Cancelling an edit keeps what was typed, just as saving does. */
  lemma CancelKeepsTypedValues(s: Settings, field: FormField, v: string)
    requires IsProfileField(field)
    ensures Get(CancelEdit(InputChange(StartEdit(s), field, v)).form, field) == v
    ensures CancelEdit(InputChange(StartEdit(s), field, v)) == SaveProfile(InputChange(StartEdit(s), field, v))
  {
  }

  /** Outside edit mode no typing reaches the personal data. */
  lemma ProfileLockedOutsideEdit(s: Settings, field: FormField, v: string)
    requires !s.isEditing
    ensures forall g :: IsProfileField(g) ==> Get(InputChange(s, field, v).form, g) == Get(s.form, g)
  {
  }

  /** The "Alterar Senha" button is enabled when the current and new
      passwords are filled in and the confirmation repeats the new one. */
  predicate ChangePasswordEnabled(f: Form) {
    !(f.currentPassword == "" || f.newPassword == "" || f.newPassword != f.confirmPassword)
  }

  /** `handleChangePassword`: clears the three password fields. */
  function ChangePassword(s: Settings): (r: Settings)
    ensures forall field :: !IsProfileField(field) ==> Get(r.form, field) == ""
    ensures forall field :: IsProfileField(field) ==> Get(r.form, field) == Get(s.form, field)
    ensures r.isEditing == s.isEditing && r.notifications == s.notifications
    ensures !ChangePasswordEnabled(r.form)
  {
    s.(form := s.form.(currentPassword := "", newPassword := "", confirmPassword := ""))
  }

  /** Filling the three password fields with a matching pair enables the
      button, and pressing it disables it again. */
  lemma PasswordRoundTrip(user: User, current: string, pw: string)
    requires current != "" && pw != ""
    ensures var s := InputChange(InputChange(InputChange(Initial(user),
                       CurrentPassword, current), NewPassword, pw), ConfirmPassword, pw);
            ChangePasswordEnabled(s.form) && !ChangePasswordEnabled(ChangePassword(s).form)
  {
  }

  /** A mismatched confirmation keeps the button disabled. */
  lemma MismatchDisables(f: Form)
    requires f.newPassword != f.confirmPassword
    ensures !ChangePasswordEnabled(f)
  {
  }

  /** The first character of each word, an empty word giving nothing. */
  function FirstLetters(words: seq<string>): (r: string)
    ensures |r| <= |words|
  {
    if words == [] then ""
    else if words[0] == [] then FirstLetters(words[1..])
    else [words[0][0]] + FirstLetters(words[1..])
  }

  /** The words that are not empty, in order. */
  function NonEmptyWords(words: seq<string>): seq<string> {
    Filter((w: string) => w != [], words)
  }

  /** One letter per non-empty word: letter `i` is the first character of
      the `i`-th non-empty word, and of word `i` itself when no word is
      empty. */
  lemma {:induction false} FirstLettersOfWords(words: seq<string>)
    ensures |FirstLetters(words)| == |NonEmptyWords(words)|
    ensures forall i :: 0 <= i < |NonEmptyWords(words)| ==>
              FirstLetters(words)[i] == NonEmptyWords(words)[i][0]
    ensures (forall j :: 0 <= j < |words| ==> words[j] != []) ==>
              |FirstLetters(words)| == |words|
              && forall i :: 0 <= i < |words| ==> FirstLetters(words)[i] == words[i][0]
  {
    if words != [] {
      FirstLettersOfWords(words[1..]);
      if words[0] != [] {
        assert NonEmptyWords(words) == [words[0]] + NonEmptyWords(words[1..]);
      } else {
        assert NonEmptyWords(words) == NonEmptyWords(words[1..]);
      }
    }
  }

  /** The avatar fallback: the upper-cased first letters of the name's
      space-separated words, an empty word giving none. */
  function Initials(name: string): (r: string)
    ensures |r| == |NonEmptyWords(Split(name, ' '))|
    ensures forall i :: 0 <= i < |r| ==> r[i] == UpperChar(NonEmptyWords(Split(name, ' '))[i][0])
    ensures forall i :: 0 <= i < |r| ==> UpperChar(r[i]) == r[i]
  {
    FirstLettersOfWords(Split(name, ' '));
    Upper(FirstLetters(Split(name, ' ')))
  }

  /** A name made of non-empty, space-free words joined by single spaces
      has one initial per word: its first letter, upper-cased. */
  lemma InitialsOfWords(words: seq<string>)
    requires |words| >= 1
    requires forall i :: 0 <= i < |words| ==> words[i] != [] && ' ' !in words[i]
    ensures |Initials(Join(words, " "))| == |words|
    ensures forall i :: 0 <= i < |words| ==> Initials(Join(words, " "))[i] == UpperChar(words[i][0])
  {
    SplitJoin(words, ' ');
    FilterAll((w: string) => w != [], words);
  }

  lemma FirstLettersCons(w: string, rest: seq<string>)
    ensures FirstLetters([w] + rest) == (if w == [] then [] else [w[0]]) + FirstLetters(rest)
  {
    assert ([w] + rest)[1..] == rest;
  }

  /** A name of two words has their two first letters as initials. */
  lemma InitialsOfTwoWords(a: string, b: string)
    requires a != [] && b != [] && ' ' !in a && ' ' !in b
    ensures Initials(a + " " + b) == [UpperChar(a[0]), UpperChar(b[0])]
  {
    SplitAfterHead(a, ' ', b);
    SplitSeparatorFree(b, ' ');
    assert a + " " + b == a + [' '] + b;
    FirstLettersCons(b, []);
    FirstLettersCons(a, [b]);
  }

  lemma SplitDoubleSpace(a: string, b: string)
    requires ' ' !in a && ' ' !in b
    ensures Split(a + "  " + b, ' ') == [a, "", b]
  {
    var tail := [' '] + b;
    SplitSeparatorFree(b, ' ');
    SplitAfterHead([], ' ', b);
    assert [] + [' '] + b == tail;
    SplitAfterHead(a, ' ', tail);
    assert a + "  " + b == a + [' '] + tail;
  }

  lemma FirstLettersSkipEmpty(a: string, b: string)
    requires a != [] && b != []
    ensures FirstLetters([a, "", b]) == [a[0], b[0]]
  {
    FirstLettersCons(b, []);
    FirstLettersCons("", [b]);
    assert ["", b] == [""] + [b];
    FirstLettersCons(a, ["", b]);
    assert [a, "", b] == [a] + ["", b];
  }

  /** A doubled space between two words adds no initial. */
  lemma InitialsSkipEmptyWord(a: string, b: string)
    requires a != [] && b != [] && ' ' !in a && ' ' !in b
    ensures Initials(a + "  " + b) == [UpperChar(a[0]), UpperChar(b[0])]
  {
    SplitDoubleSpace(a, b);
    FirstLettersSkipEmpty(a, b);
  }
}
