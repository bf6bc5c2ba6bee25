# Barbershop booking and back office, modelled in Dafny

The site is a React landing page for a barbershop, with an admin area and a
client area. Almost all of it is presentation. The logic it does hold lives
in a handful of components, and each is read here as a pure state machine:
React's `setState(f)` becomes "the next state is `f(state)`".

- **Booking wizard** (`BookingFlow`). A step counter bounded by four and an
  eight-field draft. The draft is changed by the card, button and input
  handlers, by the reset on close, and by the global `openBooking` event.
  That event comes with or without a pre-selected service. The model proves
  that every state reachable from the initial one keeps the step in 1..4.
  It also proves that each step past the first carries the choices of the
  steps before it.
- **Appointments table** (`AppointmentsTable`):
  - status updates by id;
  - a four-criterion filter (status, professional, date, free-text search)
    followed by `slice(0, limit)`;
  - the de-duplicated professional list;
  - the per-row action menu (confirm only a pending appointment, complete
    only a confirmed one, cancel any).
- **Services management** (`ServicesManagement`):
  - add or edit through one dialog;
  - toggle and delete by id;
  - the all/active/inactive views and the active count;
  - category labels.
- **Staff management** (`StaffManagement`):
  - add or edit, with the specialties typed as one comma-separated text;
  - the fields carried over from the member being edited;
  - toggle by id and the active count.
- **Calendar day view** (`CalendarView`):
  - the twenty half-hour slots from 09:00 to 18:30;
  - the appointments of a date, for everyone or for one professional;
  - the appointment each slot shows;
  - the quick statistics.
- **Loyalty card** (`LoyaltyCard`): the next reward still out of reach, the
  points missing for it, the progress towards it, and which redeem buttons
  are enabled.
- **Profile settings** (`ProfileSettings`):
  - the personal-data form, editable only in edit mode;
  - the password form and its enabling rule;
  - the notification switches;
  - the avatar initials.
- **Appointment card** (`AppointmentCard`): the upcoming/past partition of
  statuses, the status badge, and which buttons an appointment offers.

Shared modules:

- `Options`: an option type.
- `Collections`:
  - `Array.prototype.filter`, as `Filter`;
  - `[...new Set(xs)]`, as `Dedup`;
  - a pointwise map-where.
- `Text`:
  - ASCII `toLowerCase`/`toUpperCase`, `includes` and `trim`;
  - `split` on one character, and `join`.
- `AppointmentStatus`: the four statuses, their filter keys and their badge
  labels.

Four facts about the booking component shape the model:

- Confirming a booking sends nothing anywhere
  (src/components/BookingFlow.tsx:141-146). It logs, shows an alert and
  closes, so `ConfirmBooking` is the close-time reset.
- Choosing a date sets only the date and keeps the time already chosen
  (src/components/BookingFlow.tsx:235).
- The wizard has four steps (src/components/BookingFlow.tsx:70).
- The services and professionals are the component's own constant lists
  (src/components/BookingFlow.tsx:39-56). They are not fetched.

Two behaviours of the code are modelled as written and stated as lemmas.
Neither is treated as a defect:

- Cancelling a profile edit keeps what was typed (`CancelKeepsTypedValues`).
- A staff member with no specialties comes back from an edit-and-save with
  one empty specialty (`EmptySpecialtiesComeBackAsOne`).

## Model

| member | source | states |
|---|---|---|
| BookingFlow.NextStep | src/components/BookingFlow.tsx:96-100 | below the last step it advances exactly one step; on step 4 it changes nothing; the draft is untouched and a step in 1..4 stays in 1..4 |
| BookingFlow.PrevStep | src/components/BookingFlow.tsx:102-106 | above step 1 it goes back exactly one step; on step 1 it changes nothing; the draft is untouched and the step stays in 1..4 |
| BookingFlow.StepsAreInverse | src/components/BookingFlow.tsx:96-106 | inside the range, going back undoes going forward and going forward undoes going back |
| BookingFlow.ResetFlow | src/components/BookingFlow.tsx:108-125 | whatever the prior state, the wizard ends on step 1 with all eight draft fields empty |
| BookingFlow.SelectService | src/components/BookingFlow.tsx:127-134 | the draft records the card's name and price, every other draft field is as before, and the step moves as `nextStep` moves it |
| BookingFlow.SelectProfessional | src/components/BookingFlow.tsx:136-139 | only the professional changes in the draft, and the step moves as `nextStep` moves it |
| BookingFlow.SetField | src/components/BookingFlow.tsx:235-253 | a date, time or contact input changes exactly its own field and not the step; in particular a new date keeps the chosen time |
| BookingFlow.OpenBooking | src/components/BookingFlow.tsx:74-87 | with a service it records name and price and jumps to step 2, leaving the other six fields alone; without one it returns to step 1 when open and is a no-op when closed |
| BookingFlow.ConfirmBooking | src/components/BookingFlow.tsx:141-146 | finishing a booking leaves the wizard on step 1 with an empty draft |
| BookingFlow.StepTitle | src/components/BookingFlow.tsx:148-156 | the title is non-empty exactly for steps 1 to 4, and then starts with the step's digit |
| BookingFlow.NextControl | src/components/BookingFlow.tsx:368-376 | "Próximo" advances the step exactly when the step is below 3 and the current step's choice is made; otherwise the click changes nothing |
| BookingFlow.ContinueControl | src/components/BookingFlow.tsx:263-270 | "Continuar para Confirmação" reaches step 4 exactly from step 3 with both a date and a time chosen, and keeps the draft |
| BookingFlow.SubmitIgnoresEmail | src/components/BookingFlow.tsx:344 | submit is enabled iff name and phone are non-empty; typing an email never changes it |
| BookingFlow.DispatchKeepsWellFormed | src/components/BookingFlow.tsx:96-139 | any event, enabled or not, keeps the step in range and every passed step's choice in the draft |
| BookingFlow.RunKeepsWellFormed | src/components/BookingFlow.tsx:96-139 | any sequence of events keeps that invariant |
| BookingFlow.ReachableWellFormed | src/components/BookingFlow.tsx:58-70 | from the mounted state, every reachable state has step 1..4, a service from step 2 on, a professional from step 3 on, and a date and a time on step 4 |
| BookingFlow.ChooseFirstOfEach | src/components/BookingFlow.tsx:185-270 | choosing the first card of each step and continuing lands on step 4 with exactly those four choices recorded |
| BookingFlow.FinishBooking | src/components/BookingFlow.tsx:315-344 | on step 4, typing a name and a phone enables submit, and submitting returns the wizard to its mounted state |
| AppointmentStatus.FromKey | src/components/admin/AppointmentsTable.tsx:186-189 | a known filter key reads back as the status with that key; any other string names no status |
| AppointmentStatus.KeyRoundTrip | src/components/admin/AppointmentsTable.tsx:186-189 | every status's key reads back as that status |
| AppointmentStatus.LabelInjective | src/components/admin/AppointmentsTable.tsx:110-115 | no two statuses share a badge label |
| AppointmentsTable.UpdateStatus | src/components/admin/AppointmentsTable.tsx:124-132 | length, order and ids are kept; entries with the id get the new status and nothing else changes in them; every other entry is unchanged |
| AppointmentsTable.UpdateStatusLastWins | src/components/admin/AppointmentsTable.tsx:124-132 | two updates of the same id equal the later one |
| AppointmentsTable.UpdateStatusAbsentId | src/components/admin/AppointmentsTable.tsx:124-132 | an id no appointment has leaves the list as it is |
| AppointmentsTable.MatchesIsConjunction | src/components/admin/AppointmentsTable.tsx:135-146 | the early returns amount to: each empty criterion is ignored, each other one must hold, and the search hits on lower-cased name or service or on the raw phone |
| AppointmentsTable.StatusCriterion | src/components/admin/AppointmentsTable.tsx:136 | a status criterion alone keeps exactly the appointments with that status |
| AppointmentsTable.SliceTo | src/components/admin/AppointmentsTable.tsx:149 | the result is a prefix; an absent limit keeps everything, a non-negative one keeps min(limit, length), a negative one drops that many from the back |
| AppointmentsTable.Filtered | src/components/admin/AppointmentsTable.tsx:134-149 | an order-preserving subsequence of matching appointments and a prefix of the unlimited result; with no limit it is as long as the list of matches, so it is that list, repeats included; with a limit its length is that of `slice(0, limit)` on the matches (the limit or all matches when non-negative, counting from the back when negative) |
| AppointmentsTable.NoCriteriaListsAll | src/components/admin/AppointmentsTable.tsx:134-149 | with every criterion empty and no limit the table lists every appointment |
| AppointmentsTable.Professionals | src/components/admin/AppointmentsTable.tsx:151 | no duplicates, exactly the professionals that occur, in order of first occurrence |
| AppointmentsTable.MenuActions | src/components/admin/AppointmentsTable.tsx:293-319 | "Confirmar" appears iff pending, "Marcar como Concluído" iff confirmed; "Editar" and "Cancelar" always; no item twice |
| AppointmentsTable.MenuOffersAllowedChanges | src/components/admin/AppointmentsTable.tsx:293-319 | a status change is offered by some menu item iff it is pending→confirmed, confirmed→completed or anything→cancelled |
| AppointmentsTable.ChooseAction | src/components/admin/AppointmentsTable.tsx:293-319 | choosing an offered item sets every row with the chosen row's id to the item's status, always an allowed change; rows with other ids are untouched and no field but the status changes; "Editar" changes nothing |
| ServicesManagement.ResetForm | src/components/admin/ServicesManagement.tsx:87-97 | the form goes back to empty text, category "cut", active, and nothing is under edit; the list and view are kept |
| Options.StringOr | src/components/admin/ServicesManagement.tsx:119 | the optional string when it is present and non-empty, otherwise the fallback, so the result is empty only when both are; the staff form's id (StaffManagement.tsx:124) is taken the same way |
| ServicesManagement.HandleSubmit | src/components/admin/ServicesManagement.tsx:112-130 | editing rewrites exactly the entries with the edited id and keeps the length; adding appends exactly one entry with the form's data; the dialog closes and the form resets |
| ServicesManagement.EditKeepsId | src/components/admin/ServicesManagement.tsx:119-123 | an edited service keeps its id |
| ServicesManagement.HandleEdit | src/components/admin/ServicesManagement.tsx:99-110 | the dialog opens on the service with the form holding its name, description, category, status and the price and duration as text |
| ServicesManagement.EditThenSubmitKeepsList | src/components/admin/ServicesManagement.tsx:99-130 | opening a service and saving it unchanged leaves the list as it was |
| ServicesManagement.ToggleStatus | src/components/admin/ServicesManagement.tsx:132-138 | `isActive` flips on the entries with the id only; length, order and all other fields are kept |
| ServicesManagement.ToggleTwice | src/components/admin/ServicesManagement.tsx:132-138 | toggling twice restores the list |
| ServicesManagement.Delete | src/components/admin/ServicesManagement.tsx:140-142 | no entry with the id remains; every other entry stays, as often as before and in its order |
| ServicesManagement.Visible | src/components/admin/ServicesManagement.tsx:164-168 | an order-preserving subsequence; "active" holds exactly the active services, "inactive" exactly the others |
| ServicesManagement.AllShowsEverything | src/components/admin/ServicesManagement.tsx:164-168 | "all" shows the list unchanged |
| ServicesManagement.ViewsPartition | src/components/admin/ServicesManagement.tsx:164-177 | the active and inactive views split the list by count, and the active view has the header's active count |
| ServicesManagement.ActiveCount | src/components/admin/ServicesManagement.tsx:177 | never more than the number of services |
| ServicesManagement.CategoryLabelInjective | src/components/admin/ServicesManagement.tsx:144-152 | every category has a label and no two share one |
| StaffManagement.ResetForm | src/components/admin/StaffManagement.tsx:91-102 | every text field empty, active, nobody under edit; the list is kept |
| StaffManagement.ParseSpecialties | src/components/admin/StaffManagement.tsx:123 | one entry per comma-separated piece, each the trimmed piece, so none has outer white space or a comma |
| StaffManagement.SpecialtiesRoundTrip | src/components/admin/StaffManagement.tsx:111-123 | a non-empty list of trimmed, comma-free specialties survives `join(", ")` followed by split-and-trim |
| StaffManagement.EmptySpecialtiesComeBackAsOne | src/components/admin/StaffManagement.tsx:111-123 | an empty list comes back as one empty specialty |
| StaffManagement.StaffData | src/components/admin/StaffManagement.tsx:121-128 | the form's fields and parsed specialties; rating, review count and working hours come from the edited member, or 0, 0 and none when adding |
| StaffManagement.HandleSubmit | src/components/admin/StaffManagement.tsx:118-138 | editing rewrites exactly the entries with the edited id and keeps the length; adding appends one entry; the dialog closes and the form resets |
| StaffManagement.HandleEdit | src/components/admin/StaffManagement.tsx:104-116 | the dialog opens on the member with the form holding its data and its specialties joined by ", " |
| StaffManagement.EditThenSubmitKeepsList | src/components/admin/StaffManagement.tsx:104-138 | opening a member whose specialties are clean and saving it unchanged leaves the list as it was |
| StaffManagement.ToggleStatus | src/components/admin/StaffManagement.tsx:140-146 | `isActive` flips on the entries with the id only; everything else is kept |
| StaffManagement.ToggleTwice | src/components/admin/StaffManagement.tsx:140-146 | toggling twice restores the list |
| StaffManagement.ActiveCount | src/components/admin/StaffManagement.tsx:155 | the active count and the number of inactive members add up to the team's size; it equals the size exactly when everyone is active |
| CalendarView.Pad2 | src/components/admin/CalendarView.tsx:93-94 | two digits that read back as the number |
| CalendarView.SlotLabel | src/components/admin/CalendarView.tsx:92-95 | slot k reads as the clock time 09:00 plus 30·k minutes, with hours below 24 and minutes below 60 |
| CalendarView.ClockMinutesInjective | src/components/admin/CalendarView.tsx:185-188 | two strings that read as the same clock time are equal, so the time a label reads as fixes its text, which is what the string comparison with `startTime` needs |
| CalendarView.SlotLabelUnique | src/components/admin/CalendarView.tsx:92-95 | the only string reading as slot k's time is its label, zero-padded "HH:MM" ending in ":00" for even k and ":30" for odd k |
| CalendarView.TimeSlots | src/components/admin/CalendarView.tsx:90-97 | twenty labels, label k reading as 09:00 plus 30·k minutes |
| CalendarView.DaySlotsOrdered | src/components/admin/CalendarView.tsx:90-97 | the slots run from "09:00" to "18:30", strictly increasing in time, with no label twice |
| CalendarView.ForDate | src/components/admin/CalendarView.tsx:72-78 | an order-preserving subsequence; every entry is on the date and, unless "all" is selected, of the selected professional; every such appointment is kept as often as it occurs in the list |
| CalendarView.OneProfessionalNarrowsAll | src/components/admin/CalendarView.tsx:72-78 | selecting one professional gives the everyone view of the date filtered to that professional |
| CalendarView.ProfessionalOptions | src/components/admin/CalendarView.tsx:102 | "all" first, then exactly the professionals that occur, each once, in order of first occurrence |
| CalendarView.SlotAppointment | src/components/admin/CalendarView.tsx:185-188 | nothing iff no appointment of the day starts at the slot; otherwise the first one that does |
| CalendarView.StatusCountsSum | src/components/admin/CalendarView.tsx:239-265 | the four status counts add up to the number of appointments found, so the three shown never exceed it |
| CalendarView.FreeSlots | src/components/admin/CalendarView.tsx:219-222 | the number of slots shown as available, between 0 and the slot count, and all of them on an empty day |
| CalendarView.FreeSlotsCons | src/components/admin/CalendarView.tsx:185-222 | one more appointment takes one slot away when it starts at a slot nobody else holds, and none otherwise |
| CalendarView.FreeAndTakenPartition | src/components/admin/CalendarView.tsx:185-222 | free and taken slots together are all the slots |
| CalendarView.FreeSlotsLowerBound | src/components/admin/CalendarView.tsx:272 | each appointment takes at most one slot, so at least slots minus appointments stay free |
| CalendarView.FreeSlotsDistinctStarts | src/components/admin/CalendarView.tsx:272 | when the day's appointments start at distinct slot labels, the free count is exactly slots minus appointments, the page's formula |
| CalendarView.SharedSlotTakesOne | src/components/admin/CalendarView.tsx:272 | two appointments starting at the same slot leave one slot fewer showing as available, while the page's figure is one lower still |
| CalendarView.OffGridTakesNone | src/components/admin/CalendarView.tsx:272 | an appointment starting between slot labels leaves every slot showing as available, while the page's figure is one lower |
| CalendarView.SharedSlotMiscount | src/components/admin/CalendarView.tsx:272 | two appointments at "14:30" make the page say 18 while 19 slots show as available |
| CalendarView.OffGridMiscount | src/components/admin/CalendarView.tsx:272 | one appointment at "14:15" makes the page say 19 while all 20 slots show as available |
| CalendarView.Stats | src/components/admin/CalendarView.tsx:239-272 | the three shown figures are the day's confirmed, pending and completed counts, together at most the number found; "Disponíveis" is slots minus appointments, never above the slots the grid shows free |
| CalendarView.CorrectedStats | src/components/admin/CalendarView.tsx:239-272 | the same status counts as the page, with "Disponíveis" equal to the number of slots the grid shows free: between 0 and the slot count and never below the page's figure |
| CalendarView.StatsAgreeOnDistinctStarts | src/components/admin/CalendarView.tsx:272 | when the day's appointments start at distinct slot labels, the page's statistics equal the corrected ones |
| CalendarView.StatsMiscountSharedSlot | src/components/admin/CalendarView.tsx:272 | two appointments in one slot make the page's "Disponíveis" one lower than the corrected figure |
| CalendarView.OffGridIsNoSlot | src/components/admin/CalendarView.tsx:90-97 | a clock time off the half hour, before 09:00 or after 18:30 is no slot label |
| LoyaltyCard.RewardsWellOrdered | src/components/client/LoyaltyCard.tsx:21-58 | the rewards' thresholds are positive and strictly ascending |
| LoyaltyCard.NextReward | src/components/client/LoyaltyCard.tsx:61 | nothing iff every threshold is reached; otherwise the first reward in list order whose threshold exceeds the points, which therefore cannot be redeemed |
| LoyaltyCard.PointsToNext | src/components/client/LoyaltyCard.tsx:62 | positive iff there is a next reward, and then exactly what is missing to its threshold; 0 otherwise |
| LoyaltyCard.Progress | src/components/client/LoyaltyCard.tsx:63 | 100 with no next reward; otherwise the points as a percentage of the next threshold (progress times threshold is 100 times the points), at least 0 and below 100 for non-negative points |
| LoyaltyCard.ProgressGrows | src/components/client/LoyaltyCard.tsx:61-63 | while the next reward stays the same, more points never show less progress |
| LoyaltyCard.ButtonLabel | src/components/client/LoyaltyCard.tsx:166 | "Resgatar" iff the points reach the threshold, and "Indisponível" otherwise; "Resgatar" whenever the button is enabled |
| LoyaltyCard.NextIsCheapestUnreached | src/components/client/LoyaltyCard.tsx:21-61 | on a list sorted by threshold, the next reward has the smallest threshold above the points |
| LoyaltyCard.RedeemableBelowNext | src/components/client/LoyaltyCard.tsx:61-134 | on a sorted list, a reward is redeemable exactly when its threshold lies below the next reward's, and every reward is when there is none |
| LoyaltyCard.NextRewardMonotone | src/components/client/LoyaltyCard.tsx:61 | on a sorted list, more points never bring a lower next threshold |
| LoyaltyCard.RedeemMonotone | src/components/client/LoyaltyCard.tsx:134-162 | more points never make a reward unredeemable or disable an enabled button |
| LoyaltyCard.CardAtSomePoints | src/components/client/LoyaltyCard.tsx:61-162 | at 180 points "Combo Premium" is next, 20 points away, and "Corte Grátis" can be redeemed; at 250 "Combo Premium" is reached but its button stays disabled; at 500 nothing is next |
| ProfileSettings.Initial | src/components/client/ProfileSettings.tsx:24-38 | not editing; the form holds the user's name, email and phone with empty passwords; every switch is on except promotions |
| ProfileSettings.Set | src/components/client/ProfileSettings.tsx:40-43 | the named field takes the value and no other field changes |
| ProfileSettings.InputChange | src/components/client/ProfileSettings.tsx:40-43 | an enabled input sets only its field; a disabled one changes nothing; edit mode and switches are kept |
| ProfileSettings.ProfileLockedOutsideEdit | src/components/client/ProfileSettings.tsx:98-137 | outside edit mode no typing reaches name, email or phone |
| ProfileSettings.NotificationChange | src/components/client/ProfileSettings.tsx:45-47 | the one switch takes the value; the other switches and the form are unchanged |
| ProfileSettings.StartEdit | src/components/client/ProfileSettings.tsx:155 | enters edit mode, enabling every input, and changes nothing else |
| ProfileSettings.SaveProfile | src/components/client/ProfileSettings.tsx:49-53 | leaves edit mode, so only the password inputs stay enabled, keeping the form and switches |
| ProfileSettings.CancelEdit | src/components/client/ProfileSettings.tsx:150 | leaves edit mode with the form and switches as they are |
| ProfileSettings.CancelKeepsTypedValues | src/components/client/ProfileSettings.tsx:144-158 | a value typed during an edit is still there after "Cancelar", which ends in the same state as saving |
| ProfileSettings.ChangePassword | src/components/client/ProfileSettings.tsx:55-64 | the three password fields become empty, which disables the button; name, email, phone, mode and switches are kept |
| ProfileSettings.PasswordRoundTrip | src/components/client/ProfileSettings.tsx:216-218 | a current password and a matching new one enable "Alterar Senha"; pressing it disables the button again |
| ProfileSettings.MismatchDisables | src/components/client/ProfileSettings.tsx:218 | a confirmation that differs from the new password keeps the button disabled |
| ProfileSettings.FirstLettersOfWords | src/components/client/ProfileSettings.tsx:82 | one letter per non-empty word, letter i being the first character of the i-th non-empty word; when no word is empty, of word i |
| ProfileSettings.Initials | src/components/client/ProfileSettings.tsx:82 | initial i is the upper-cased first letter of the name's i-th non-empty space-separated word, and there is one per such word |
| ProfileSettings.InitialsOfWords | src/components/client/ProfileSettings.tsx:82 | a name of non-empty space-free words joined by single spaces has exactly their upper-cased first letters as initials |
| ProfileSettings.InitialsOfTwoWords | src/components/client/ProfileSettings.tsx:82 | two space-free words give their two first letters, upper-cased |
| ProfileSettings.InitialsSkipEmptyWord | src/components/client/ProfileSettings.tsx:82 | a doubled space between the words adds no initial |
| AppointmentCard.Badge | src/components/client/AppointmentCard.tsx:33-53 | the badge shows the shared status label, never empty |
| AppointmentCard.BadgeDistinguishes | src/components/client/AppointmentCard.tsx:33-46 | different statuses get different badge styles and different labels |
| AppointmentCard.UpcomingOrPast | src/components/client/AppointmentCard.tsx:74-75 | every appointment is exactly one of upcoming and past |
| AppointmentCard.Buttons | src/components/client/AppointmentCard.tsx:113-181 | the four buttons appear, all together, iff actions are shown (by default they are) and the appointment is upcoming; `showActions={false}` hides them |
| AppointmentCard.PastCardsHaveNoButtons | src/components/client/AppointmentCard.tsx:113-162 | a past appointment offers no button; an upcoming one offers "Cancelar" unless actions are turned off |
| Collections.Filter | src/components/admin/AppointmentsTable.tsx:134-148 | the result is an order-preserving subsequence of the input holding exactly the values that satisfy the predicate |
| Collections.FilterMultiset | src/components/admin/AppointmentsTable.tsx:134-148 | a value that satisfies the predicate is kept as often as it occurs in the input |
| Collections.Dedup | src/components/admin/AppointmentsTable.tsx:151 | the same values as the input, each once, in order of first occurrence |
| Text.Lower | src/components/admin/AppointmentsTable.tsx:140-142 | same length, each character lower-cased |
| Text.TrimStartShape | src/components/admin/StaffManagement.tsx:123 | the front trim keeps a suffix that does not start with white space, and every character it drops is white space |
| Text.TrimEndShape | src/components/admin/StaffManagement.tsx:123 | the back trim keeps a prefix that does not end with white space, and every character it drops is white space |
| Text.TrimShape | src/components/admin/StaffManagement.tsx:123 | the trimmed text neither starts nor ends with white space and occurs in the original |
| Text.TrimIdempotent | src/components/admin/StaffManagement.tsx:123 | trimming twice is trimming once |
| Text.JoinSplit | src/components/admin/StaffManagement.tsx:111-123 | joining the pieces of a split with the same separator gives back the text |
| Text.SplitJoin | src/components/client/ProfileSettings.tsx:82 | splitting pieces joined by a separator they do not hold gives back the pieces |
| Text.SplitTrimJoin | src/components/admin/StaffManagement.tsx:111-123 | clean pieces joined with ", " come back from split-and-trim unchanged |

## Left out

- Rendering: JSX, CSS classes, icons, and the colour maps `getStatusColor` and `getCategoryColor`.
- Handlers that only log have no state effect, so they have no model: redeeming a reward, cancelling or rescheduling from the client card, and saving the profile beyond leaving edit mode. The alert of a confirmed booking is also left out.
- Staff deletion and the appointments menu's "Editar": the source gives them no handler.
- `Date.now()` ids: the fresh id is a parameter of the submit functions.
- `parseFloat`, `parseInt` and `toString`: parsed prices and durations are parameters, and so is the text they are turned back into.
- Dates: `toISOString`, `toLocaleDateString`, the calendar widget, the previous/next-day buttons and the unused week mode. The calendar works on the date string it is given.
- Unicode case mapping: `toLowerCase` and `toUpperCase` are modelled on ASCII letters only.
- The dialog's open state: it lives in the dialog manager's own `openBooking` listener and in the parent's `onClose`. The wizard's listener sees `isOpen` as a parameter.
- The static mock data of the admin tables and the client's points history, beyond what the lemmas use.
- LoyaltyCard.Progress: computed on exact reals, not IEEE doubles, so rounding is not modelled.

## Findings

| source | as written | input that shows it | evidently intended | confidence | as-written member | corrected member |
|---|---|---|---|---|---|---|
| src/components/admin/CalendarView.tsx:272 | "Disponíveis" is the slot count minus the number of appointments found for the day | two appointments on the day at "14:30" (professional "all") make it 18 while 19 slots show "Horário disponível"; one at "14:15" makes it 19 while all 20 do; 21 appointments make it negative | the number of slots the day view shows as available | medium, not executed | CalendarView.SharedSlotTakesOne, CalendarView.OffGridTakesNone, CalendarView.StatsMiscountSharedSlot | CalendarView.FreeSlots, CalendarView.CorrectedStats |
