/**
 * The records of the dashboard (horses, races, race results, notifications).
 * Ids, dates, times and timestamps are the strings the application stores;
 * counters and measures are unbounded integers.
 */
module Domain {
  import opened Wrappers

  /** The closed four-value race status. */
  datatype Status = Upcoming | Active | Completed | Cancelled

  datatype NotificationKind = Info | Success | Warning | Error

  datatype Horse = Horse(
    id: string,
    name: string,
    breed: string,
    age: int,
    ownerId: string,
    ownerName: string,
    trainerId: Option<string>,
    trainerName: Option<string>,
    color: string,
    weight: int,
    wins: int,
    races: int,
    image: Option<string>)

  datatype Race = Race(
    id: string,
    name: string,
    date: string,
    time: string,
    distance: int,
    ageCategory: string,
    maxHorses: int,
    registeredHorses: seq<string>,
    status: Status,
    prize: int,
    location: string,
    organizerId: string,
    organizerName: string)

  datatype RaceResult = RaceResult(
    id: string,
    raceId: string,
    raceName: string,
    horseId: string,
    horseName: string,
    position: int,
    time: string,
    jockeyName: string,
    penalties: Option<string>,
    notes: Option<string>,
    judgeId: string,
    createdAt: string)

  datatype Notification = Notification(
    id: string,
    userId: string,
    title: string,
    message: string,
    kind: NotificationKind,
    read: bool,
    createdAt: string)
}
