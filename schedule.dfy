/**
 * The race schedule: the status badge, the three listings (upcoming in date order,
 * completed newest first, all races sorted in the store), the roster lookup and the
 * countdown to an upcoming race.
 */
module Schedule {
  import opened Wrappers
  import opened Seqs
  import opened Domain
  import opened Store

  datatype Variant = Default | Secondary | Destructive
  datatype Badge = Badge(caption: string, variant: Variant)

  /** The badge shown for a race status. */
  function StatusBadge(s: Status): (b: Badge)
    ensures b.variant == Secondary <==> s == Completed
    ensures b.variant == Destructive <==> s == Cancelled
  {
    match s
    case Upcoming => Badge("قادم", Default)
    case Active => Badge("نشط", Default)
    case Completed => Badge("مكتمل", Secondary)
    case Cancelled => Badge("ملغي", Destructive)
  }

  /** Different statuses never share a label. */
  lemma StatusLabelsDistinct(s: Status, t: Status)
    ensures StatusBadge(s).caption == StatusBadge(t).caption ==> s == t
  {
  }

  datatype View = UpcomingView | CompletedView | AllView

  /** `getRacesToShow`: the races of the selected tab, in store order. */
  function RacesToShow(view: View, races: seq<Race>): (r: seq<Race>)
    ensures view == AllView ==> r == races
    ensures view != AllView ==>
      var status := if view == UpcomingView then Upcoming else Completed;
      && (forall i :: 0 <= i < |r| ==> r[i] in races && r[i].status == status)
      && (forall i :: 0 <= i < |races| && races[i].status == status ==> races[i] in r)
  {
    match view
    case UpcomingView => RacesWithStatus(races, {Upcoming})
    case CompletedView => RacesWithStatus(races, {Completed})
    case AllView => races
  }

  function IdIn(ids: seq<string>): Horse -> bool {
    (h: Horse) => h.id in ids
  }

  function HorseIdOf(h: Horse): string {
    h.id
  }

  /** `getRegisteredHorses`: the known horses whose id is on the roster, in store order. */
  function RegisteredHorses(horses: seq<Horse>, roster: seq<string>): (r: seq<Horse>)
    ensures |r| <= |horses|
    ensures forall h :: h in r <==> h in horses && h.id in roster
    ensures SubsequenceOf(r, horses)
  {
    FilterSubsequence(horses, IdIn(roster));
    Filter(horses, IdIn(roster))
  }

  /** Only the set of roster ids matters: their order and repetitions do not. */
  lemma RosterAsSet(horses: seq<Horse>, roster: seq<string>, other: seq<string>)
    requires forall x :: x in roster <==> x in other
    ensures RegisteredHorses(horses, roster) == RegisteredHorses(horses, other)
  {
    FilterAgree(horses, IdIn(roster), IdIn(other));
  }

  /** With unique horse ids in the store, the roster lookup lists each horse once. */
  lemma RegisteredHorsesUnique(horses: seq<Horse>, roster: seq<string>)
    requires NoDup(Map(horses, HorseIdOf))
    ensures NoDup(Map(RegisteredHorses(horses, roster), HorseIdOf))
  {
    FilterKeepsDistinct(horses, IdIn(roster), HorseIdOf);
  }

  /** `sortRacesByDate`: sorts the given array in place, stably, by start time. */
  method SortRacesByDate(a: array<Race>, when: Race -> int)
    modifies a
    ensures a[..] == SortBy(old(a[..]), when)
  {
    SortInPlace(a, when);
  }

  /** The "upcoming" tab: the upcoming races, earliest first. */
  method UpcomingListing(races: seq<Race>, when: Race -> int) returns (r: seq<Race>)
    ensures r == SortBy(RacesWithStatus(races, {Upcoming}), when)
  {
    r := SortedCopy(RacesWithStatus(races, {Upcoming}), when);
  }

  /** The "completed" tab: the completed races, latest first. */
  method CompletedListing(races: seq<Race>, when: Race -> int) returns (r: seq<Race>)
    ensures r == Reverse(SortBy(RacesWithStatus(races, {Completed}), when))
  {
    var sorted := SortedCopy(RacesWithStatus(races, {Completed}), when);
    r := Reverse(sorted);
  }

  /** The "all" tab sorts the store's own race array, so the store's order changes. */
  method AllListing(store: DataStore, when: Race -> int) returns (r: seq<Race>)
    modifies store
    ensures store.races == SortBy(old(store.races), when) && r == store.races
    ensures store.horses == old(store.horses) && store.results == old(store.results)
    ensures store.notifications == old(store.notifications)
  {
    var sorted := SortedCopy(store.races, when);
    store.races := sorted;
    r := sorted;
  }

  /** The upcoming listing holds exactly the upcoming races, each once, earliest first. */
  lemma UpcomingListingOrdered(races: seq<Race>, when: Race -> int)
    ensures var up := SortBy(RacesWithStatus(races, {Upcoming}), when);
      && multiset(up) == multiset(RacesWithStatus(races, {Upcoming}))
      && (forall i :: 0 <= i < |up| ==> up[i].status == Upcoming)
      && (forall i, j :: 0 <= i < j < |up| ==> when(up[i]) <= when(up[j]))
  {
    var upcoming := RacesWithStatus(races, {Upcoming});
    SortByPermutes(upcoming, when);
    SortBySorted(upcoming, when);
    var up := SortBy(upcoming, when);
    forall i | 0 <= i < |up| ensures up[i].status == Upcoming {
      assert up[i] in multiset(upcoming);
    }
  }

  /** The completed listing holds exactly the completed races, each once, latest first. */
  lemma CompletedListingOrdered(races: seq<Race>, when: Race -> int)
    ensures var done := Reverse(SortBy(RacesWithStatus(races, {Completed}), when));
      && multiset(done) == multiset(RacesWithStatus(races, {Completed}))
      && (forall i :: 0 <= i < |done| ==> done[i].status == Completed)
      && (forall i, j :: 0 <= i < j < |done| ==> when(done[i]) >= when(done[j]))
  {
    var completed := RacesWithStatus(races, {Completed});
    var sorted := SortBy(completed, when);
    SortByPermutes(completed, when);
    SortBySorted(completed, when);
    ReverseOfSorted(sorted, when);
    ReversePermutes(sorted);
    AllCompleted(Reverse(sorted), completed);
  }

  /** A reordering of completed races holds only completed races. */
  lemma AllCompleted(done: seq<Race>, completed: seq<Race>)
    requires multiset(done) == multiset(completed)
    requires forall i :: 0 <= i < |completed| ==> completed[i].status == Completed
    ensures forall i :: 0 <= i < |done| ==> done[i].status == Completed
  {
    forall i | 0 <= i < |done| ensures done[i].status == Completed {
      assert done[i] in multiset(completed);
    }
  }

  lemma {:induction false} ReversePermutes<T>(s: seq<T>)
    ensures multiset(Reverse(s)) == multiset(s)
  {
    if s != [] {
      ReversePermutes(s[1..]);
      assert Reverse(s) == Reverse(s[1..]) + [s[0]];
      assert s == [s[0]] + s[1..];
    }
  }

  const HourMs := 3600000
  const DayMs := 24 * HourMs

  datatype Countdown = InDays(days: nat) | InHours(hours: nat) | UnderAnHour

  /**
   * `getTimeUntilRace`, given the milliseconds from now to the race: nothing for a
   * race in the past, whole days when at least a day remains, else whole hours, else
   * "less than an hour".
   */
  function TimeUntil(diff: int): (c: Option<Countdown>)
    ensures c.None? <==> diff < 0
    ensures c == Some(UnderAnHour) <==> 0 <= diff < HourMs
    ensures c.Some? && c.value.InDays? <==> diff >= DayMs
    ensures c.Some? && c.value.InDays? ==>
      c.value.days * DayMs <= diff < (c.value.days + 1) * DayMs
    ensures c.Some? && c.value.InHours? ==>
      1 <= c.value.hours < 24 && c.value.hours * HourMs <= diff < (c.value.hours + 1) * HourMs
  {
    if diff < 0 then None
    else
      var days := diff / DayMs;
      var hours := diff % DayMs / HourMs;
      if days > 0 then Some(InDays(days))
      else if hours > 0 then Some(InHours(hours))
      else Some(UnderAnHour)
  }

  const DayWord := " يوم"
  const DaysSuffix := " أيام"
  const HourWord := " ساعة"
  const HoursSuffix := " ساعات"

  /** The countdown label; `show` renders a number. The plural word is added above one. */
  function CountdownText(c: Countdown, show: nat -> string): (t: string)
    ensures c.InDays? ==>
      (c.days > 1 <==> t == show(c.days) + DayWord + DaysSuffix) &&
      (c.days <= 1 <==> t == show(c.days) + DayWord)
    ensures c.InHours? ==>
      (c.hours > 1 <==> t == show(c.hours) + HourWord + HoursSuffix) &&
      (c.hours <= 1 <==> t == show(c.hours) + HourWord)
  {
    match c
    case InDays(d) => show(d) + DayWord + (if d > 1 then DaysSuffix else "")
    case InHours(h) => show(h) + HourWord + (if h > 1 then HoursSuffix else "")
    case UnderAnHour => "أقل من ساعة"
  }

  /** The schedule page's selected tab. */
  class SchedulePage {
    var selectedView: View

    constructor ()
      ensures selectedView == UpcomingView
    {
      selectedView := UpcomingView;
    }

    method SelectView(view: View)
      modifies this
      ensures selectedView == view
    {
      selectedView := view;
    }
  }
}
