/** The admin calendar's day view: the half-hour slots of a working day,
    the appointments of the selected date (optionally of one professional),
    the appointment shown in each slot and the quick statistics under it. */
module CalendarView {
  import opened Options
  import opened Collections
  import opened AppointmentStatus

  datatype CalAppointment = CalAppointment(
    id: string,
    clientName: string,
    service: string,
    professional: string,
    startTime: string,
    endTime: string,
    status: Status,
    date: string)

  /** The professional filter value that shows everyone. */
  const AllProfessionals := "all"

  /** Number of half-hour slots from 09:00 to 18:30. */
  const SlotCount := 20

  predicate IsDigit(c: char) {
    '0' <= c <= '9'
  }

  function DigitChar(d: nat): (c: char)
    requires d < 10
    ensures IsDigit(c) && c as int - '0' as int == d
  {
    (48 + d) as char
  }

  /** `n.toString().padStart(2, '0')` for a number below one hundred. */
  function Pad2(n: nat): (r: string)
    requires n < 100
    ensures |r| == 2 && IsDigit(r[0]) && IsDigit(r[1])
    ensures 10 * (r[0] as int - '0' as int) + (r[1] as int - '0' as int) == n
  {
    [DigitChar(n / 10), DigitChar(n % 10)]
  }

  /** The number two digit characters spell. */
  function TwoDigits(a: char, b: char): int {
    10 * (a as int - '0' as int) + (b as int - '0' as int)
  }

  /** Reads an "HH:MM" clock string, hours below 24 and minutes below 60,
      as minutes after midnight; anything else reads as nothing. */
  function ClockMinutes(s: string): Option<int> {
    if |s| == 5 && IsDigit(s[0]) && IsDigit(s[1]) && s[2] == ':' && IsDigit(s[3]) && IsDigit(s[4])
       && TwoDigits(s[0], s[1]) < 24 && TwoDigits(s[3], s[4]) < 60
    then
      Some(60 * TwoDigits(s[0], s[1]) + TwoDigits(s[3], s[4]))
    else
      None
  }

  lemma TwoDigitsInjective(a: char, b: char, c: char, d: char)
    requires IsDigit(a) && IsDigit(b) && IsDigit(c) && IsDigit(d)
    requires TwoDigits(a, b) == TwoDigits(c, d)
    ensures a == c && b == d
  {
    assert a as int == c as int;
  }

  /** Two strings that read as the same clock time are the same string, so
      a label is fixed by the time it reads as. */
  lemma ClockMinutesInjective(s: string, t: string)
    requires ClockMinutes(s).Some? && ClockMinutes(s) == ClockMinutes(t)
    ensures s == t
  {
    var hs, ms := TwoDigits(s[0], s[1]), TwoDigits(s[3], s[4]);
    var ht, mt := TwoDigits(t[0], t[1]), TwoDigits(t[3], t[4]);
    assert 60 * hs + ms == 60 * ht + mt;
    assert hs == (60 * hs + ms) / 60 && ht == (60 * ht + mt) / 60;
    TwoDigitsInjective(s[0], s[1], t[0], t[1]);
    TwoDigitsInjective(s[3], s[4], t[3], t[4]);
    assert forall i :: 0 <= i < 5 ==> s[i] == t[i];
  }

  /** The label of slot `k`: the hour `9 + k / 2`, padded, then ":00" or
      ":30". */
  function SlotLabel(k: nat): (r: string)
    requires k < SlotCount
    ensures ClockMinutes(r) == Some(540 + 30 * k)
  {
    Pad2(9 + k / 2) + (if k % 2 == 0 then ":00" else ":30")
  }

  /** Slot `k`'s label is the only string reading as its time. */
  lemma SlotLabelUnique(k: nat, t: string)
    requires k < SlotCount
    requires ClockMinutes(t) == Some(540 + 30 * k)
    ensures t == SlotLabel(k)
    ensures t[2..] == (if k % 2 == 0 then ":00" else ":30")
  {
    ClockMinutesInjective(SlotLabel(k), t);
  }

  /** The slots of a day as a closed form, one every thirty minutes. */
  function DaySlots(): (r: seq<string>)
    ensures |r| == SlotCount
    ensures forall k :: 0 <= k < |r| ==> ClockMinutes(r[k]) == Some(540 + 30 * k)
  {
    seq(SlotCount, (k: int) requires 0 <= k < SlotCount => SlotLabel(k))
  }

  /** `getTimeSlots`: two labels per hour for the hours 9 to 18. */
  method TimeSlots() returns (slots: seq<string>)
    ensures |slots| == SlotCount
    ensures forall k :: 0 <= k < |slots| ==> ClockMinutes(slots[k]) == Some(540 + 30 * k)
    ensures slots == DaySlots()
  {
    slots := [];
    var hour := 9;
    while hour < 19
      invariant 9 <= hour <= 19
      invariant |slots| == 2 * (hour - 9)
      invariant forall k :: 0 <= k < |slots| ==> slots[k] == SlotLabel(k)
    {
      var k := |slots|;
      assert k / 2 == hour - 9 && (k + 1) / 2 == hour - 9;
      slots := slots + [Pad2(hour) + ":00"];
      slots := slots + [Pad2(hour) + ":30"];
      hour := hour + 1;
    }
  }

  /** The slots run from "09:00" to "18:30" in strictly increasing time, so
      no label repeats. */
  lemma DaySlotsOrdered()
    ensures DaySlots()[0] == "09:00" && DaySlots()[SlotCount - 1] == "18:30"
    ensures forall i, j :: 0 <= i < j < SlotCount ==>
              ClockMinutes(DaySlots()[i]).value < ClockMinutes(DaySlots()[j]).value
    ensures NoDuplicates(DaySlots())
  {
    var r := DaySlots();
    assert r[0] == Pad2(9) + ":00";
    assert r[SlotCount - 1] == Pad2(18) + ":30";
    forall i, j | 0 <= i < j < |r| ensures r[i] != r[j] {
      assert ClockMinutes(r[i]) != ClockMinutes(r[j]);
    }
  }

  /** Whether an appointment belongs in the view of `date` filtered by
      `selected`. */
  predicate Shown(a: CalAppointment, date: string, selected: string) {
    a.date == date && (selected == AllProfessionals || a.professional == selected)
  }

  /** `getAppointmentsForDate`: the appointments of the date, and of the
      selected professional unless everyone is selected, in list order. */
  function ForDate(apps: seq<CalAppointment>, date: string, selected: string): (r: seq<CalAppointment>)
    ensures IsSubseq(r, apps)
    ensures forall i :: 0 <= i < |r| ==> r[i].date == date
    ensures selected != AllProfessionals ==> forall i :: 0 <= i < |r| ==> r[i].professional == selected
    ensures forall i :: 0 <= i < |apps| && Shown(apps[i], date, selected) ==> apps[i] in r
    ensures forall a :: Shown(a, date, selected) ==> multiset(r)[a] == multiset(apps)[a]
  {
    var shown := (a: CalAppointment) => Shown(a, date, selected);
    assert forall a :: Shown(a, date, selected) ==>
             multiset(Filter(shown, apps))[a] == multiset(apps)[a] by {
      forall a | Shown(a, date, selected)
        ensures multiset(Filter(shown, apps))[a] == multiset(apps)[a]
      {
        FilterMultiset(shown, apps, a);
      }
    }
    Filter(shown, apps)
  }

  /** The test "belongs to professional `p`". */
  function OfProfessional(p: string): CalAppointment -> bool {
    (a: CalAppointment) => a.professional == p
  }

  /** Choosing one professional narrows the everyone view of the same date
      to that professional's appointments, in the same order. */
  lemma OneProfessionalNarrowsAll(apps: seq<CalAppointment>, date: string, p: string)
    requires p != AllProfessionals
    ensures ForDate(apps, date, p) == Filter(OfProfessional(p), ForDate(apps, date, AllProfessionals))
  {
    FilterFilter((a: CalAppointment) => Shown(a, date, AllProfessionals),
                 OfProfessional(p),
                 (a: CalAppointment) => Shown(a, date, p), apps);
  }

  function NamesOf(apps: seq<CalAppointment>): (r: seq<string>)
    ensures |r| == |apps|
    ensures forall i :: 0 <= i < |apps| ==> r[i] == apps[i].professional
  {
    if apps == [] then [] else [apps[0].professional] + NamesOf(apps[1..])
  }

  /** The professional selector: "all" first, then every professional of
      the list once, in order of first appearance. */
  function ProfessionalOptions(apps: seq<CalAppointment>): (r: seq<string>)
    ensures |r| >= 1 && r[0] == AllProfessionals
    ensures NoDuplicates(r[1..])
    ensures forall p :: p in r[1..] <==> exists i :: 0 <= i < |apps| && apps[i].professional == p
    ensures forall p :: p in r[1..] <==> p in NamesOf(apps)
    ensures forall i, j :: 1 <= i < j < |r| ==>
              FirstIndex(NamesOf(apps), r[i]) < FirstIndex(NamesOf(apps), r[j])
  {
    var names := NamesOf(apps);
    assert forall p :: p in names <==> exists i :: 0 <= i < |apps| && apps[i].professional == p by {
      forall p | p in names ensures exists i :: 0 <= i < |apps| && apps[i].professional == p {
        var i :| 0 <= i < |names| && names[i] == p;
        assert apps[i].professional == p;
      }
    }
    var r := [AllProfessionals] + Dedup(names);
    assert r[1..] == Dedup(names);
    r
  }

  /** The appointment a slot shows: the first one of the day that starts
      exactly at the slot's label. */
  function SlotAppointment(day: seq<CalAppointment>, slot: string): (r: Option<CalAppointment>)
    ensures r.None? <==> forall i :: 0 <= i < |day| ==> day[i].startTime != slot
    ensures r.Some? ==> exists i :: 0 <= i < |day| && day[i] == r.value && r.value.startTime == slot
                         && forall j :: 0 <= j < i ==> day[j].startTime != slot
  {
    if day == [] then None
    else if day[0].startTime == slot then Some(day[0])
    else
      var r := SlotAppointment(day[1..], slot);
      if r.Some? then
        var i :| 0 <= i < |day[1..]| && day[1..][i] == r.value && r.value.startTime == slot
                 && forall j :: 0 <= j < i ==> day[1..][j].startTime != slot;
        assert day[i + 1] == r.value;
        r
      else
        r
  }

  predicate IsFree(day: seq<CalAppointment>, slot: string) {
    SlotAppointment(day, slot).None?
  }

  /** How many of the day's appointments have status `st`. */
  function StatusCount(day: seq<CalAppointment>, st: Status): nat {
    |Filter((a: CalAppointment) => a.status == st, day)|
  }

  /** The four status counts share out the day's appointments, so the three
      shown counts never exceed the number found. */
  lemma {:induction false} StatusCountsSum(day: seq<CalAppointment>)
    ensures StatusCount(day, Pending) + StatusCount(day, Confirmed)
          + StatusCount(day, Completed) + StatusCount(day, Cancelled) == |day|
  {
    if day != [] {
      StatusCountsSum(day[1..]);
    }
  }

  /** The number of slots the day view shows as "Horário disponível". */
  function FreeSlots(slots: seq<string>, day: seq<CalAppointment>): (n: nat)
    ensures n <= |slots|
    ensures day == [] ==> n == |slots|
  {
    var free := (s: string) => IsFree(day, s);
    assert day == [] ==> Filter(free, slots) == slots by {
      if day == [] {
        FilterAll(free, slots);
      }
    }
    |Filter(free, slots)|
  }

  /** Adding an appointment at the front of the day takes away one free slot
      when it starts at a slot no other appointment holds, and none
      otherwise. */
  lemma FreeSlotsCons(slots: seq<string>, a: CalAppointment, rest: seq<CalAppointment>)
    requires NoDuplicates(slots)
    ensures a.startTime in slots && IsFree(rest, a.startTime) ==>
              FreeSlots(slots, [a] + rest) == FreeSlots(slots, rest) - 1
    ensures !(a.startTime in slots && IsFree(rest, a.startTime)) ==>
              FreeSlots(slots, [a] + rest) == FreeSlots(slots, rest)
  {
    var day := [a] + rest;
    assert day[1..] == rest;
    FilterExcludeOne((s: string) => IsFree(rest, s), (s: string) => IsFree(day, s), slots, a.startTime);
  }

  /** Free and taken slots together are all the slots. */
  lemma FreeAndTakenPartition(slots: seq<string>, day: seq<CalAppointment>)
    ensures FreeSlots(slots, day) + |Filter((s: string) => !IsFree(day, s), slots)| == |slots|
  {
    FilterPartition((s: string) => IsFree(day, s), (s: string) => !IsFree(day, s), slots);
  }

  /** Each appointment takes at most one slot away. */
  lemma {:induction false} FreeSlotsLowerBound(slots: seq<string>, day: seq<CalAppointment>)
    requires NoDuplicates(slots)
    ensures FreeSlots(slots, day) >= |slots| - |day|
  {
    if day != [] {
      assert day == [day[0]] + day[1..];
      FreeSlotsLowerBound(slots, day[1..]);
      FreeSlotsCons(slots, day[0], day[1..]);
    }
  }

  /** Appointments that start at distinct slot labels each take exactly one
      slot. */
  lemma {:induction false} FreeSlotsDistinctStarts(slots: seq<string>, day: seq<CalAppointment>)
    requires NoDuplicates(slots)
    requires forall i :: 0 <= i < |day| ==> day[i].startTime in slots
    requires forall i, j :: 0 <= i < j < |day| ==> day[i].startTime != day[j].startTime
    ensures FreeSlots(slots, day) == |slots| - |day|
  {
    if day != [] {
      assert day == [day[0]] + day[1..];
      FreeSlotsDistinctStarts(slots, day[1..]);
      FreeSlotsCons(slots, day[0], day[1..]);
    }
  }

  /** The "Disponíveis" figure as the page computes it: slots minus
      appointments. */
  function AvailableAsWritten(slots: seq<string>, day: seq<CalAppointment>): int {
    |slots| - |day|
  }

  /** Two appointments starting at the same slot take one slot between
      them, while the page's figure drops by two. */
  lemma SharedSlotTakesOne(slots: seq<string>, a: CalAppointment, b: CalAppointment)
    requires NoDuplicates(slots)
    requires a.startTime == b.startTime && a.startTime in slots
    ensures FreeSlots(slots, [a, b]) == |slots| - 1
    ensures AvailableAsWritten(slots, [a, b]) == FreeSlots(slots, [a, b]) - 1
  {
    FreeSlotsCons(slots, b, []);
    assert [b] + [] == [b];
    FreeSlotsCons(slots, a, [b]);
    assert [a] + [b] == [a, b];
  }

  /** An appointment that starts between slots takes none, while the
      page's figure drops by one. */
  lemma OffGridTakesNone(slots: seq<string>, c: CalAppointment)
    requires NoDuplicates(slots)
    requires c.startTime !in slots
    ensures FreeSlots(slots, [c]) == |slots|
    ensures AvailableAsWritten(slots, [c]) == FreeSlots(slots, [c]) - 1
  {
    FreeSlotsCons(slots, c, []);
    assert [c] + [] == [c];
  }

  lemma HalfPastTwoIsSlot()
    ensures "14:30" in DaySlots()
  {
    var r := DaySlots();
    assert r[11] == SlotLabel(11);
    assert Pad2(14) == "14";
    assert r[11] == "14:30";
  }

  /** A clock time that is not on the half hour, or lies before 09:00 or
      after 18:30, is no slot label. */
  lemma OffGridIsNoSlot(t: string)
    requires ClockMinutes(t).Some?
    requires var m := ClockMinutes(t).value; m % 30 != 0 || m < 540 || m > 1110
    ensures t !in DaySlots()
  {
    var slots := DaySlots();
    forall k | 0 <= k < |slots| ensures slots[k] != t {
      assert ClockMinutes(slots[k]) == Some(540 + 30 * k);
    }
  }

  lemma QuarterPastTwoIsNoSlot()
    ensures "14:15" !in DaySlots()
  {
    assert ClockMinutes("14:15") == Some(855);
    OffGridIsNoSlot("14:15");
  }

  /** Two appointments starting in the same slot leave 19 slots showing as
      available, but the page's figure says 18. */
  lemma SharedSlotMiscount(a: CalAppointment, b: CalAppointment)
    requires a.startTime == "14:30" && b.startTime == "14:30"
    ensures AvailableAsWritten(DaySlots(), [a, b]) == 18
    ensures FreeSlots(DaySlots(), [a, b]) == 19
  {
    DaySlotsOrdered();
    HalfPastTwoIsSlot();
    SharedSlotTakesOne(DaySlots(), a, b);
  }

  /** An appointment at "14:15" takes no slot, yet the page's figure drops
      to 19. */
  lemma OffGridMiscount(c: CalAppointment)
    requires c.startTime == "14:15"
    ensures AvailableAsWritten(DaySlots(), [c]) == 19
    ensures FreeSlots(DaySlots(), [c]) == 20
  {
    DaySlotsOrdered();
    QuarterPastTwoIsNoSlot();
    OffGridTakesNone(DaySlots(), c);
  }

  /** The quick statistics under the day view. */
  datatype DayStats = DayStats(confirmed: nat, pending: nat, completed: nat, available: int)

  /** The statistics of a day as the page shows them: three status counts
      and "Disponíveis" as slots minus appointments, which goes negative
      past twenty appointments. */
  function Stats(slots: seq<string>, day: seq<CalAppointment>): (r: DayStats)
    ensures r.confirmed == StatusCount(day, Confirmed) && r.pending == StatusCount(day, Pending)
         && r.completed == StatusCount(day, Completed)
    ensures r.confirmed + r.pending + r.completed <= |day|
    ensures r.available == AvailableAsWritten(slots, day)
    ensures NoDuplicates(slots) ==> r.available <= FreeSlots(slots, day)
  {
    StatusCountsSum(day);
    assert NoDuplicates(slots) ==> FreeSlots(slots, day) >= |slots| - |day| by {
      if NoDuplicates(slots) {
        FreeSlotsLowerBound(slots, day);
      }
    }
    DayStats(StatusCount(day, Confirmed), StatusCount(day, Pending),
             StatusCount(day, Completed), AvailableAsWritten(slots, day))
  }

  /** The statistics with "Disponíveis" counted as the slots the grid shows
      as free: the same status counts, and an available figure that never
      falls below the page's or below zero. */
  function CorrectedStats(slots: seq<string>, day: seq<CalAppointment>): (r: DayStats)
    ensures r.(available := 0) == Stats(slots, day).(available := 0)
    ensures r.available == FreeSlots(slots, day)
    ensures 0 <= r.available <= |slots|
    ensures NoDuplicates(slots) ==> r.available >= Stats(slots, day).available
  {
    Stats(slots, day).(available := FreeSlots(slots, day))
  }

  /** When the day's appointments start at distinct slot labels the page's
      figure is right. */
  lemma StatsAgreeOnDistinctStarts(slots: seq<string>, day: seq<CalAppointment>)
    requires NoDuplicates(slots)
    requires forall i :: 0 <= i < |day| ==> day[i].startTime in slots
    requires forall i, j :: 0 <= i < j < |day| ==> day[i].startTime != day[j].startTime
    ensures CorrectedStats(slots, day) == Stats(slots, day)
  {
    FreeSlotsDistinctStarts(slots, day);
  }

  /** Two appointments in one slot make the page's figure one lower than
      the corrected one. */
  lemma StatsMiscountSharedSlot(slots: seq<string>, a: CalAppointment, b: CalAppointment)
    requires NoDuplicates(slots)
    requires a.startTime == b.startTime && a.startTime in slots
    ensures Stats(slots, [a, b]).available == CorrectedStats(slots, [a, b]).available - 1
  {
    SharedSlotTakesOne(slots, a, b);
  }
}
