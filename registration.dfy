/**
 * Horse registration: the eligibility check (capacity, duplicate entry, age category),
 * the page's selection state, and the registration it triggers in the store.
 */
module Registration {
  import opened Wrappers
  import opened Seqs
  import opened Domain
  import opened Store
  import opened Auth

  datatype Reason = InvalidData | RaceFull | AlreadyRegistered | AgeMismatch

  /** The message shown for each reason. */
  function Message(r: Reason): string {
    match r
    case InvalidData => "بيانات غير صحيحة"
    case RaceFull => "السباق مكتمل العدد"
    case AlreadyRegistered => "الحصان مسجل مسبقاً في هذا السباق"
    case AgeMismatch => "الحصان لا يتوافق مع فئة العمر المطلوبة"
  }

  /** The order in which the checks report. */
  function Rank(r: Reason): nat {
    match r
    case InvalidData => 0
    case RaceFull => 1
    case AlreadyRegistered => 2
    case AgeMismatch => 3
  }

  datatype Eligibility = Eligibility(eligible: bool, reasons: seq<Reason>)

  /** `pattern` occurs in `text` starting at index `i`. */
  predicate OccursAt(text: string, pattern: string, i: int) {
    0 <= i && i + |pattern| <= |text| && text[i..i + |pattern|] == pattern
  }

  /** `String.prototype.includes`: the pattern occurs somewhere in the text. */
  predicate Includes(text: string, pattern: string) {
    exists i :: 0 <= i <= |text| && OccursAt(text, pattern, i)
  }

  /** A text lacking one of the pattern's characters does not include the pattern. */
  lemma MissingCharacter(text: string, pattern: string, k: nat)
    requires k < |pattern| && pattern[k] !in text
    ensures !Includes(text, pattern)
  {
  }

  lemma IncludesItself(text: string)
    ensures Includes(text, text)
  {
    assert OccursAt(text, text, 0);
  }

  const FourAndOver := "4 سنوات فما فوق"
  const FiveAndOver := "5 سنوات فما فوق"

  /** The recognised age patterns, in the order they are tried. */
  const AgePatterns: seq<string> := ["2-3", "3-4", "4-5", FourAndOver, FiveAndOver]

  /** The ages pattern `k` admits: three inclusive ranges, then two lower bounds. */
  predicate AgeAllowed(k: nat, age: int)
    requires k < 5
  {
    match k
    case 0 => 2 <= age <= 3
    case 1 => 3 <= age <= 4
    case 2 => 4 <= age <= 5
    case 3 => 4 <= age
    case 4 => 5 <= age
  }

  /** The age check: an `else if` chain over the patterns the category includes. */
  predicate AgeRejected(category: string, age: int) {
    if Includes(category, "2-3") && (age < 2 || age > 3) then true
    else if Includes(category, "3-4") && (age < 3 || age > 4) then true
    else if Includes(category, "4-5") && (age < 4 || age > 5) then true
    else if Includes(category, FourAndOver) && age < 4 then true
    else if Includes(category, FiveAndOver) && age < 5 then true
    else false
  }

  /**
   * What the chain decides: the age is rejected exactly when some pattern that the
   * category includes does not admit it (a pattern that matches but admits the age
   * does not stop the chain).
   */
  lemma AgeRejectedIff(category: string, age: int)
    ensures AgeRejected(category, age) <==>
      exists k :: 0 <= k < 5 && Includes(category, AgePatterns[k]) && !AgeAllowed(k, age)
  {
    if AgeRejected(category, age) {
      if Includes(category, "2-3") && (age < 2 || age > 3) {
        assert Includes(category, AgePatterns[0]) && !AgeAllowed(0, age);
      } else if Includes(category, "3-4") && (age < 3 || age > 4) {
        assert Includes(category, AgePatterns[1]) && !AgeAllowed(1, age);
      } else if Includes(category, "4-5") && (age < 4 || age > 5) {
        assert Includes(category, AgePatterns[2]) && !AgeAllowed(2, age);
      } else if Includes(category, FourAndOver) && age < 4 {
        assert Includes(category, AgePatterns[3]) && !AgeAllowed(3, age);
      } else {
        assert Includes(category, AgePatterns[4]) && !AgeAllowed(4, age);
      }
    }
  }

  /** A category including exactly one of the patterns constrains the age by that pattern alone. */
  lemma SinglePatternCategory(category: string, k: nat, age: int)
    requires k < 5 && Includes(category, AgePatterns[k])
    requires forall m :: 0 <= m < 5 && m != k ==> !Includes(category, AgePatterns[m])
    ensures AgeRejected(category, age) <==> !AgeAllowed(k, age)
  {
    AgeRejectedIff(category, age);
  }

  /** A category including none of the patterns imposes no age constraint. */
  lemma OpenCategory(category: string, age: int)
    requires forall m :: 0 <= m < 5 ==> !Includes(category, AgePatterns[m])
    ensures !AgeRejected(category, age)
  {
    AgeRejectedIff(category, age);
  }

  /** The reasons for the failed checks, pushed in the order capacity, duplicate, age. */
  function Flagged(full: bool, duplicate: bool, age: bool): (reasons: seq<Reason>)
    ensures RaceFull in reasons <==> full
    ensures AlreadyRegistered in reasons <==> duplicate
    ensures AgeMismatch in reasons <==> age
    ensures InvalidData !in reasons
    ensures forall i, j :: 0 <= i < j < |reasons| ==> Rank(reasons[i]) < Rank(reasons[j])
  {
    (if full then [RaceFull] else []) + (if duplicate then [AlreadyRegistered] else [])
      + (if age then [AgeMismatch] else [])
  }

  /** The reasons a known race and horse fail the check. */
  function Reasons(race: Race, horse: Horse, horseId: string): (reasons: seq<Reason>)
    ensures RaceFull in reasons <==> |race.registeredHorses| >= race.maxHorses
    ensures AlreadyRegistered in reasons <==> horseId in race.registeredHorses
    ensures AgeMismatch in reasons <==> AgeRejected(race.ageCategory, horse.age)
    ensures InvalidData !in reasons
    ensures forall i, j :: 0 <= i < j < |reasons| ==> Rank(reasons[i]) < Rank(reasons[j])
  {
    Flagged(|race.registeredHorses| >= race.maxHorses, horseId in race.registeredHorses,
            AgeRejected(race.ageCategory, horse.age))
  }

  /** `checkEligibility`: every check is made; the reasons come in the order capacity, duplicate, age. */
  function CheckEligibility(races: seq<Race>, horses: seq<Horse>, raceId: string, horseId: string): (e: Eligibility)
    ensures e.eligible <==> e.reasons == []
    ensures FindRace(races, raceId).None? || FindHorse(horses, horseId).None? ==>
      e == Eligibility(false, [InvalidData])
    ensures FindRace(races, raceId).Some? && FindHorse(horses, horseId).Some? ==>
      e.reasons == Reasons(FindRace(races, raceId).value, FindHorse(horses, horseId).value, horseId)
    ensures forall i, j :: 0 <= i < j < |e.reasons| ==> Rank(e.reasons[i]) < Rank(e.reasons[j])
  {
    match (FindRace(races, raceId), FindHorse(horses, horseId))
    case (Some(race), Some(horse)) =>
      var reasons := Reasons(race, horse, horseId);
      Eligibility(|reasons| == 0, reasons)
    case _ => Eligibility(false, [InvalidData])
  }

  /** An eligible pair always registers: the store's capacity guard passes. */
  lemma EligibleRegisters(races: seq<Race>, horses: seq<Horse>, raceId: string, horseId: string)
    requires CheckEligibility(races, horses, raceId, horseId).eligible
    ensures Register(races, raceId, horseId).ok
  {
  }

  /** Registering only eligible horses keeps the checked race's roster free of duplicates. */
  lemma EligibleKeepsRosterDistinct(races: seq<Race>, horses: seq<Horse>, raceId: string, horseId: string, i: nat)
    requires CheckEligibility(races, horses, raceId, horseId).eligible
    requires i < |races| && FindRace(races, raceId) == Some(races[i])
    requires NoDup(races[i].registeredHorses)
    ensures NoDup(Register(races, raceId, horseId).races[i].registeredHorses)
  {
    var roster := races[i].registeredHorses;
    assert horseId !in roster;
    var grown := Register(races, raceId, horseId).races[i].registeredHorses;
    assert grown == roster + [horseId];
    forall a, b | 0 <= a < b < |grown| ensures grown[a] != grown[b] {
      if b == |roster| {
        assert grown[a] == roster[a];
      }
    }
  }

  /** The "4 and over" category is a lower bound only: age 4 passes, age 3 does not. */
  lemma FourAndOverIsLowerBound(age: int)
    ensures AgeRejected(FourAndOver, age) <==> age < 4
  {
    IncludesItself(FourAndOver);
    MissingCharacter(FourAndOver, "2-3", 1);
    MissingCharacter(FourAndOver, "3-4", 1);
    MissingCharacter(FourAndOver, "4-5", 1);
    MissingCharacter(FourAndOver, FiveAndOver, 0);
  }

  /** The seed category "3-5 سنوات" matches none of the patterns, so it admits every age. */
  lemma ThreeToFiveIsOpen(age: int)
    ensures !AgeRejected("3-5 سنوات", age)
  {
    var c := "3-5 سنوات";
    MissingCharacter(c, "2-3", 0);
    MissingCharacter(c, "3-4", 2);
    MissingCharacter(c, "4-5", 0);
    MissingCharacter(c, FourAndOver, 0);
    MissingCharacter(c, FiveAndOver, 8);
  }

  /** A range category is inclusive at both ends. */
  lemma TwoToThreeIsInclusive(age: int)
    ensures AgeRejected("2-3 سنوات", age) <==> age < 2 || age > 3
  {
    var c := "2-3 سنوات";
    assert OccursAt(c, "2-3", 0);
    MissingCharacter(c, "3-4", 2);
    MissingCharacter(c, "4-5", 0);
    MissingCharacter(c, FourAndOver, 0);
    MissingCharacter(c, FiveAndOver, 0);
  }

  /** Seed horses '1' and '3' against seed race '1' fail only as duplicates. */
  lemma SeedHorsesAlreadyRegistered()
    ensures CheckEligibility(SeedRaces, SeedHorses, "1", "1") == Eligibility(false, [AlreadyRegistered])
    ensures CheckEligibility(SeedRaces, SeedHorses, "1", "3") == Eligibility(false, [AlreadyRegistered])
  {
    var race, first, third := SeedRaces[0], SeedHorses[0], SeedHorses[2];
    assert FindRace(SeedRaces, "1") == Some(race);
    assert FindHorse(SeedHorses, "1") == Some(first);
    assert FindHorse(SeedHorses, "3") == Some(third);
    assert race.ageCategory == FourAndOver && first.age == 5 && third.age == 6;
    FourAndOverIsLowerBound(5);
    FourAndOverIsLowerBound(6);
    assert race.registeredHorses == ["1", "2", "3"] && race.maxHorses == 12;
    OnlyDuplicate(race, first, "1");
    OnlyDuplicate(race, third, "3");
  }

  /** A pair that fails only the duplicate check is refused for that reason alone. */
  lemma OnlyDuplicate(race: Race, horse: Horse, horseId: string)
    requires |race.registeredHorses| < race.maxHorses && horseId in race.registeredHorses
    requires !AgeRejected(race.ageCategory, horse.age)
    ensures Reasons(race, horse, horseId) == [AlreadyRegistered]
  {
  }

  /** `availableRaces`: the upcoming races. */
  function AvailableRaces(races: seq<Race>): (r: seq<Race>)
    ensures forall i :: 0 <= i < |r| ==> r[i] in races && r[i].status == Upcoming
    ensures forall i :: 0 <= i < |races| && races[i].status == Upcoming ==> races[i] in r
  {
    RacesWithStatus(races, {Upcoming})
  }

  /** `userHorses`: the current user's own horses; none without a user. */
  function OwnHorses(horses: seq<Horse>, user: Option<User>): (r: seq<Horse>)
    ensures user.None? ==> r == []
    ensures user.Some? ==> forall i :: 0 <= i < |r| ==> r[i] in horses && r[i].ownerId == user.value.id
    ensures user.Some? ==> forall i :: 0 <= i < |horses| && horses[i].ownerId == user.value.id ==> horses[i] in r
  {
    if user.None? then [] else Filter(horses, OwnedBy(user.value.id))
  }

  /** Eligibility alone, with the fact that an eligible pair registers. */
  function IsEligible(races: seq<Race>, horses: seq<Horse>, raceId: string, horseId: string): (b: bool)
    ensures b == CheckEligibility(races, horses, raceId, horseId).eligible
    ensures b ==> Register(races, raceId, horseId).ok
  {
    if CheckEligibility(races, horses, raceId, horseId).eligible then
      EligibleRegisters(races, horses, raceId, horseId);
      true
    else
      false
  }

  datatype Outcome = SelectionMissing | NotEligible(reasons: seq<Reason>) | Registered | RegistrationFailed

  /** The registration page's selection state. */
  class RegistrationPage {
    var selectedRace: string
    var selectedHorse: string

    constructor ()
      ensures selectedRace == "" && selectedHorse == ""
    {
      selectedRace, selectedHorse := "", "";
    }

    method SelectRace(raceId: string)
      modifies this
      ensures selectedRace == raceId && selectedHorse == old(selectedHorse)
    {
      selectedRace := raceId;
    }

    method SelectHorse(horseId: string)
      modifies this
      ensures selectedHorse == horseId && selectedRace == old(selectedRace)
    {
      selectedHorse := horseId;
    }

    /**
     * `handleRegistration`: the store is asked to register only when both ids are
     * selected and the pair is eligible; a success clears the selection.
     */
    method HandleRegistration(store: DataStore) returns (outcome: Outcome)
      modifies this, store
      ensures store.horses == old(store.horses) && store.results == old(store.results)
      ensures store.notifications == old(store.notifications)
      ensures old(selectedRace) == "" || old(selectedHorse) == "" ==>
        outcome == SelectionMissing && store.races == old(store.races)
        && selectedRace == old(selectedRace) && selectedHorse == old(selectedHorse)
      ensures old(selectedRace) != "" && old(selectedHorse) != "" ==>
        var e := CheckEligibility(old(store.races), old(store.horses), old(selectedRace), old(selectedHorse));
        var reg := Register(old(store.races), old(selectedRace), old(selectedHorse));
        && (!e.eligible ==>
              outcome == NotEligible(e.reasons) && store.races == old(store.races)
              && selectedRace == old(selectedRace) && selectedHorse == old(selectedHorse))
        && (e.eligible ==>
              outcome == Registered && store.races == reg.races
              && selectedRace == "" && selectedHorse == "")
    {
      if selectedRace == "" || selectedHorse == "" {
        return SelectionMissing;
      }
      var eligible := IsEligible(store.races, store.horses, selectedRace, selectedHorse);
      if !eligible {
        return NotEligible(CheckEligibility(store.races, store.horses, selectedRace, selectedHorse).reasons);
      }
      var ok := store.RegisterHorseToRace(selectedRace, selectedHorse);
      if ok {
        selectedRace, selectedHorse := "", "";
        outcome := Registered;
      } else {
        outcome := RegistrationFailed;
      }
    }
  }
}
