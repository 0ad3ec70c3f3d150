/**
 * The entity store of the dashboard: four collections, replaced wholesale by each
 * operation, with the seed data used when nothing was saved before.
 */
module Store {
  import opened Wrappers
  import opened Seqs
  import opened Domain

  /** `Partial<Horse>`: `None` leaves a field as it is; optional fields carry `Some(None)` to clear them. */
  datatype HorsePatch = HorsePatch(
    id: Option<string>,
    name: Option<string>,
    breed: Option<string>,
    age: Option<int>,
    ownerId: Option<string>,
    ownerName: Option<string>,
    trainerId: Option<Option<string>>,
    trainerName: Option<Option<string>>,
    color: Option<string>,
    weight: Option<int>,
    wins: Option<int>,
    races: Option<int>,
    image: Option<Option<string>>)

  /** `Partial<Race>`. */
  datatype RacePatch = RacePatch(
    id: Option<string>,
    name: Option<string>,
    date: Option<string>,
    time: Option<string>,
    distance: Option<int>,
    ageCategory: Option<string>,
    maxHorses: Option<int>,
    registeredHorses: Option<seq<string>>,
    status: Option<Status>,
    prize: Option<int>,
    location: Option<string>,
    organizerId: Option<string>,
    organizerName: Option<string>)

  /** `{ ...horse, ...updates }`. */
  function ApplyHorsePatch(h: Horse, p: HorsePatch): Horse {
    Horse(p.id.GetOr(h.id), p.name.GetOr(h.name), p.breed.GetOr(h.breed), p.age.GetOr(h.age),
          p.ownerId.GetOr(h.ownerId), p.ownerName.GetOr(h.ownerName), p.trainerId.GetOr(h.trainerId),
          p.trainerName.GetOr(h.trainerName), p.color.GetOr(h.color), p.weight.GetOr(h.weight),
          p.wins.GetOr(h.wins), p.races.GetOr(h.races), p.image.GetOr(h.image))
  }

  /** `{ ...race, ...updates }`. */
  function ApplyRacePatch(r: Race, p: RacePatch): Race {
    Race(p.id.GetOr(r.id), p.name.GetOr(r.name), p.date.GetOr(r.date), p.time.GetOr(r.time),
         p.distance.GetOr(r.distance), p.ageCategory.GetOr(r.ageCategory), p.maxHorses.GetOr(r.maxHorses),
         p.registeredHorses.GetOr(r.registeredHorses), p.status.GetOr(r.status), p.prize.GetOr(r.prize),
         p.location.GetOr(r.location), p.organizerId.GetOr(r.organizerId), p.organizerName.GetOr(r.organizerName))
  }

  const NoHorseChange := HorsePatch(None, None, None, None, None, None, None, None, None, None, None, None, None)

  lemma EmptyHorsePatch(h: Horse)
    ensures ApplyHorsePatch(h, NoHorseChange) == h
  {
  }

  const NoRaceChange := RacePatch(None, None, None, None, None, None, None, None, None, None, None, None, None)

  lemma EmptyRacePatch(r: Race)
    ensures ApplyRacePatch(r, NoRaceChange) == r
  {
  }

  /** Applying the same update twice has the effect of applying it once. */
  lemma HorsePatchTwice(h: Horse, p: HorsePatch)
    ensures ApplyHorsePatch(ApplyHorsePatch(h, p), p) == ApplyHorsePatch(h, p)
  {
  }

  lemma RacePatchTwice(r: Race, p: RacePatch)
    ensures ApplyRacePatch(ApplyRacePatch(r, p), p) == ApplyRacePatch(r, p)
  {
  }

  function RaceIdIs(id: string): Race -> bool {
    (r: Race) => r.id == id
  }

  function HorseIdIs(id: string): Horse -> bool {
    (h: Horse) => h.id == id
  }

  function OwnedBy(ownerId: string): Horse -> bool {
    (h: Horse) => h.ownerId == ownerId
  }

  function StatusIn(statuses: set<Status>): Race -> bool {
    (r: Race) => r.status in statuses
  }

  /** `races.find(r => r.id === id)`: the first race with this id. */
  function FindRace(races: seq<Race>, id: string): (r: Option<Race>)
    ensures r.None? <==> forall i :: 0 <= i < |races| ==> races[i].id != id
    ensures r.Some? ==> exists i :: (0 <= i < |races| && races[i] == r.value && r.value.id == id
      && forall j :: 0 <= j < i ==> races[j].id != id)
  {
    match FindIndex(races, RaceIdIs(id))
    case None => None
    case Some(i) => Some(races[i])
  }

  /** `horses.find(h => h.id === id)`: the first horse with this id. */
  function FindHorse(horses: seq<Horse>, id: string): (r: Option<Horse>)
    ensures r.None? <==> forall i :: 0 <= i < |horses| ==> horses[i].id != id
    ensures r.Some? ==> exists i :: (0 <= i < |horses| && horses[i] == r.value && r.value.id == id
      && forall j :: 0 <= j < i ==> horses[j].id != id)
  {
    match FindIndex(horses, HorseIdIs(id))
    case None => None
    case Some(i) => Some(horses[i])
  }

  /** The races whose status is one of `statuses`, in store order. */
  function RacesWithStatus(races: seq<Race>, statuses: set<Status>): (r: seq<Race>)
    ensures forall i :: 0 <= i < |r| ==> r[i] in races && r[i].status in statuses
    ensures forall i :: 0 <= i < |races| && races[i].status in statuses ==> races[i] in r
  {
    Filter(races, StatusIn(statuses))
  }

  /** `updateHorse`'s new collection: every horse with this id patched, all others untouched. */
  function UpdatedHorses(horses: seq<Horse>, id: string, updates: HorsePatch): (r: seq<Horse>)
    ensures |r| == |horses|
    ensures forall i :: 0 <= i < |horses| && horses[i].id != id ==> r[i] == horses[i]
    ensures forall i :: 0 <= i < |horses| && horses[i].id == id ==> r[i] == ApplyHorsePatch(horses[i], updates)
    ensures (forall i :: 0 <= i < |horses| ==> horses[i].id != id) ==> r == horses
  {
    seq(|horses|, i requires 0 <= i < |horses| =>
      if horses[i].id == id then ApplyHorsePatch(horses[i], updates) else horses[i])
  }

  /** `updateRace`'s new collection. */
  function UpdatedRaces(races: seq<Race>, id: string, updates: RacePatch): (r: seq<Race>)
    ensures |r| == |races|
    ensures forall i :: 0 <= i < |races| && races[i].id != id ==> r[i] == races[i]
    ensures forall i :: 0 <= i < |races| && races[i].id == id ==> r[i] == ApplyRacePatch(races[i], updates)
    ensures (forall i :: 0 <= i < |races| ==> races[i].id != id) ==> r == races
  {
    seq(|races|, i requires 0 <= i < |races| =>
      if races[i].id == id then ApplyRacePatch(races[i], updates) else races[i])
  }

  datatype Registration = Registration(ok: bool, races: seq<Race>)

  /** Whether `race` still has a free place (`registeredHorses.length < maxHorses`). */
  predicate HasRoom(race: Race) {
    |race.registeredHorses| < race.maxHorses
  }

  /**
   * `registerHorseToRace`: capacity is checked on the first race with the id; on
   * success the horse id is appended to the roster of every race with that id.
   * There is no duplicate check.
   */
  function Register(races: seq<Race>, raceId: string, horseId: string): (r: Registration)
    ensures |r.races| == |races|
    ensures r.ok <==> FindRace(races, raceId).Some? && HasRoom(FindRace(races, raceId).value)
    ensures !r.ok ==> r.races == races
    ensures forall i :: 0 <= i < |races| && races[i].id != raceId ==> r.races[i] == races[i]
    ensures r.ok ==> forall i :: 0 <= i < |races| && races[i].id == raceId ==>
      r.races[i] == races[i].(registeredHorses := races[i].registeredHorses + [horseId])
  {
    match FindRace(races, raceId)
    case None => Registration(false, races)
    case Some(race) =>
      if HasRoom(race) then
        Registration(true, seq(|races|, i requires 0 <= i < |races| =>
          if races[i].id == raceId
          then races[i].(registeredHorses := races[i].registeredHorses + [horseId])
          else races[i]))
      else Registration(false, races)
  }

  ghost predicate WithinCapacity(races: seq<Race>) {
    forall i :: 0 <= i < |races| ==> |races[i].registeredHorses| <= races[i].maxHorses
  }

  ghost predicate UniqueRaceIds(races: seq<Race>) {
    forall i, j :: 0 <= i < j < |races| ==> races[i].id != races[j].id
  }

  /** A successful registration grows the checked race's roster by one, within its capacity. */
  lemma RegisterWithinCapacity(races: seq<Race>, raceId: string, horseId: string, i: nat)
    requires FindRace(races, raceId).Some? && Register(races, raceId, horseId).ok
    requires i < |races| && races[i] == FindRace(races, raceId).value
    ensures Register(races, raceId, horseId).races[i].registeredHorses == races[i].registeredHorses + [horseId]
    ensures |Register(races, raceId, horseId).races[i].registeredHorses| <= races[i].maxHorses
  {
  }

  /**
   * With unique race ids, registration keeps every roster within its capacity and
   * never shortens a roster.
   */
  lemma RegisterKeepsCapacity(races: seq<Race>, raceId: string, horseId: string)
    requires WithinCapacity(races) && UniqueRaceIds(races)
    ensures WithinCapacity(Register(races, raceId, horseId).races)
    ensures forall i :: 0 <= i < |races| ==>
      races[i].registeredHorses <= Register(races, raceId, horseId).races[i].registeredHorses
  {
    var r := Register(races, raceId, horseId);
    if r.ok {
      var race := FindRace(races, raceId).value;
      var k :| 0 <= k < |races| && races[k] == race && race.id == raceId;
      forall i | 0 <= i < |races| ensures |r.races[i].registeredHorses| <= r.races[i].maxHorses {
        if races[i].id == raceId {
          assert i == k;
        }
      }
    }
  }

  const SeedHorses: seq<Horse> := [
    Horse("1", "البرق الأصيل", "عربي أصيل", 5, "3", "فاطمة الخيل", None, Some("سعد المدرب"), "كستنائي", 450, 12, 20, None),
    Horse("2", "نسيم الصحراء", "عربي مختلط", 4, "3", "فاطمة الخيل", None, Some("أحمد الخبير"), "أشقر", 420, 8, 15, None),
    Horse("3", "فارس الشام", "عربي أصيل", 6, "6", "خالد الفارس", None, Some("محمد الأسطورة"), "أدهم", 480, 15, 18, None)
  ]

  const SeedRaces: seq<Race> := [
    Race("1", "كأس الملك للخيول العربية", "2024-12-25", "15:00", 2000, "4 سنوات فما فوق", 12,
         ["1", "2", "3"], Upcoming, 100000, "ميدان الرياض", "2", "محمد السباق"),
    Race("2", "سباق الأمير للمهرات", "2024-12-20", "16:30", 1600, "3-5 سنوات", 10,
         ["1", "2"], Completed, 75000, "ميدان جدة", "2", "محمد السباق")
  ]

  const SeedResults: seq<RaceResult> := [
    RaceResult("1", "2", "سباق الأمير للمهرات", "1", "البرق الأصيل", 1, "1:38.45", "أحمد الفارس", None, None, "4", "2024-12-20T16:45:00Z"),
    RaceResult("2", "2", "سباق الأمير للمهرات", "2", "نسيم الصحراء", 2, "1:39.12", "محمد السريع", None, None, "4", "2024-12-20T16:45:00Z")
  ]

  /** The write path has no duplicate check: seed horse '1', already on race '1', is appended again. */
  lemma RegisterAcceptsDuplicate()
    ensures Register(SeedRaces, "1", "1").ok
    ensures Register(SeedRaces, "1", "1").races[0].registeredHorses == ["1", "2", "3", "1"]
  {
    assert FindRace(SeedRaces, "1") == Some(SeedRaces[0]);
  }

  /** The store state; every operation replaces a collection with a new one. */
  class DataStore {
    var horses: seq<Horse>
    var races: seq<Race>
    var results: seq<RaceResult>
    var notifications: seq<Notification>

    /** The state before loading: four empty collections. */
    constructor ()
      ensures horses == [] && races == [] && results == [] && notifications == []
    {
      horses, races, results, notifications := [], [], [], [];
    }

    /** Loading: each saved collection is used if present, otherwise the seed data (no notifications). */
    method Load(savedHorses: Option<seq<Horse>>, savedRaces: Option<seq<Race>>,
                savedResults: Option<seq<RaceResult>>, savedNotifications: Option<seq<Notification>>)
      modifies this
      ensures horses == savedHorses.GetOr(SeedHorses)
      ensures races == savedRaces.GetOr(SeedRaces)
      ensures results == savedResults.GetOr(SeedResults)
      ensures notifications == savedNotifications.GetOr([])
    {
      horses := savedHorses.GetOr(SeedHorses);
      races := savedRaces.GetOr(SeedRaces);
      results := savedResults.GetOr(SeedResults);
      notifications := savedNotifications.GetOr([]);
    }

    /** `addHorse`: the record gets the fresh id and is appended; it is also returned. */
    method AddHorse(horse: Horse, freshId: string) returns (newHorse: Horse)
      modifies this
      ensures newHorse.id == freshId && newHorse.(id := horse.id) == horse
      ensures horses == old(horses) + [newHorse]
      ensures races == old(races) && results == old(results) && notifications == old(notifications)
    {
      newHorse := horse.(id := freshId);
      horses := horses + [newHorse];
    }

    method UpdateHorse(id: string, updates: HorsePatch)
      modifies this
      ensures horses == UpdatedHorses(old(horses), id, updates)
      ensures races == old(races) && results == old(results) && notifications == old(notifications)
    {
      horses := UpdatedHorses(horses, id, updates);
    }

    method AddRace(race: Race, freshId: string) returns (newRace: Race)
      modifies this
      ensures newRace.id == freshId && newRace.(id := race.id) == race
      ensures races == old(races) + [newRace]
      ensures horses == old(horses) && results == old(results) && notifications == old(notifications)
    {
      newRace := race.(id := freshId);
      races := races + [newRace];
    }

    method UpdateRace(id: string, updates: RacePatch)
      modifies this
      ensures races == UpdatedRaces(old(races), id, updates)
      ensures horses == old(horses) && results == old(results) && notifications == old(notifications)
    {
      races := UpdatedRaces(races, id, updates);
    }

    method RegisterHorseToRace(raceId: string, horseId: string) returns (ok: bool)
      modifies this
      ensures ok == Register(old(races), raceId, horseId).ok
      ensures races == Register(old(races), raceId, horseId).races
      ensures horses == old(horses) && results == old(results) && notifications == old(notifications)
    {
      var outcome := Register(races, raceId, horseId);
      races := outcome.races;
      ok := outcome.ok;
    }

    /** `addResult`, one append per call. */
    method AddResult(result: RaceResult, freshId: string) returns (newResult: RaceResult)
      modifies this
      ensures newResult.id == freshId && newResult.(id := result.id) == result
      ensures results == old(results) + [newResult]
      ensures horses == old(horses) && races == old(races) && notifications == old(notifications)
    {
      newResult := result.(id := freshId);
      results := results + [newResult];
    }

    /** `addNotification`: the fresh id and the creation time are filled in. */
    method AddNotification(notification: Notification, freshId: string, now: string)
      modifies this
      ensures notifications == old(notifications) + [notification.(id := freshId, createdAt := now)]
      ensures horses == old(horses) && races == old(races) && results == old(results)
    {
      notifications := notifications + [notification.(id := freshId, createdAt := now)];
    }
  }
}
