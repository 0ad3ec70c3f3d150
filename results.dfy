/**
 * Results entry: the judge picks a race, gets one draft row per registered horse,
 * edits the rows, and submits them; complete rows are saved to the store in
 * position order, one result per row whose horse is known.
 */
module Results {
  import opened Wrappers
  import opened Seqs
  import opened Domain
  import opened Store
  import opened Auth
  import opened Schedule

  /** One row of the results form. */
  datatype Draft = Draft(horseId: string, position: int, time: string, jockeyName: string,
                         penalties: string, notes: string)

  /** A change to one field of a row. */
  datatype Edit =
    | SetPosition(position: int)
    | SetTime(time: string)
    | SetJockey(jockeyName: string)
    | SetPenalties(penalties: string)
    | SetNotes(notes: string)

  /** The races results can be entered for: upcoming or active ones. */
  function SelectableRaces(races: seq<Race>): (r: seq<Race>)
    ensures forall i :: 0 <= i < |r| ==> r[i] in races && r[i].status in {Upcoming, Active}
    ensures forall i :: 0 <= i < |races| && races[i].status in {Upcoming, Active} ==> races[i] in r
  {
    RacesWithStatus(races, {Upcoming, Active})
  }

  function BlankDraft(horse: Horse, position: int): Draft {
    Draft(horse.id, position, "", "", "", "")
  }

  /** The rows offered for a race: its known horses in store order, numbered from 1, all fields blank. */
  function BuildDrafts(horses: seq<Horse>, roster: seq<string>): (d: seq<Draft>)
    ensures |d| == |RegisteredHorses(horses, roster)|
    ensures forall i :: 0 <= i < |d| ==>
      d[i].horseId == RegisteredHorses(horses, roster)[i].id && d[i].horseId in roster
    ensures forall i :: 0 <= i < |d| ==> d[i].position == i + 1
    ensures forall i :: 0 <= i < |d| ==>
      d[i].time == "" && d[i].jockeyName == "" && d[i].penalties == "" && d[i].notes == ""
  {
    var known := RegisteredHorses(horses, roster);
    seq(|known|, i requires 0 <= i < |known| => BlankDraft(known[i], i + 1))
  }

  /** The rows follow the store's order: an earlier position holds a horse stored earlier. */
  lemma DraftsInStoreOrder(horses: seq<Horse>, roster: seq<string>)
    ensures var d := BuildDrafts(horses, roster);
      forall i, j :: 0 <= i < j < |d| ==> Precedes(Map(horses, HorseIdOf), d[i].horseId, d[j].horseId)
  {
    var known := RegisteredHorses(horses, roster);
    var d := BuildDrafts(horses, roster);
    SubsequenceOrder(known, horses);
    forall i, j | 0 <= i < j < |d| ensures Precedes(Map(horses, HorseIdOf), d[i].horseId, d[j].horseId) {
      MapPrecedes(horses, HorseIdOf, known[i], known[j]);
    }
  }

  /** One field replaced; the row's horse never changes. */
  function ApplyEdit(d: Draft, e: Edit): (r: Draft)
    ensures r.horseId == d.horseId
    ensures e.SetPosition? ==> r == d.(position := e.position)
    ensures e.SetTime? ==> r == d.(time := e.time)
    ensures e.SetJockey? ==> r == d.(jockeyName := e.jockeyName)
    ensures e.SetPenalties? ==> r == d.(penalties := e.penalties)
    ensures e.SetNotes? ==> r == d.(notes := e.notes)
  {
    match e
    case SetPosition(p) => d.(position := p)
    case SetTime(t) => d.(time := t)
    case SetJockey(j) => d.(jockeyName := j)
    case SetPenalties(p) => d.(penalties := p)
    case SetNotes(n) => d.(notes := n)
  }

  /** `updateResult`: the row at `index` edited, every other row kept; an index out of range changes nothing. */
  function EditDraft(drafts: seq<Draft>, index: int, e: Edit): (r: seq<Draft>)
    ensures |r| == |drafts|
    ensures forall i :: 0 <= i < |r| ==> r[i].horseId == drafts[i].horseId
    ensures forall i :: 0 <= i < |r| && i != index ==> r[i] == drafts[i]
    ensures 0 <= index < |r| ==> r[index] == ApplyEdit(drafts[index], e)
    ensures !(0 <= index < |drafts|) ==> r == drafts
  {
    seq(|drafts|, i requires 0 <= i < |drafts| => if i == index then ApplyEdit(drafts[i], e) else drafts[i])
  }

  predicate Complete(d: Draft) {
    d.time != "" && d.jockeyName != ""
  }

  function IsIncomplete(d: Draft): bool {
    !Complete(d)
  }

  /** The submit guard: no row lacks a time or a jockey. */
  predicate AllComplete(drafts: seq<Draft>) {
    |Filter(drafts, IsIncomplete)| == 0
  }

  lemma AllCompleteIff(drafts: seq<Draft>)
    ensures AllComplete(drafts) <==> forall i :: 0 <= i < |drafts| ==> Complete(drafts[i])
  {
    var f := Filter(drafts, IsIncomplete);
    if !AllComplete(drafts) {
      assert f[0] in f;
    } else {
      forall i | 0 <= i < |drafts| ensures Complete(drafts[i]) {
        assert drafts[i] in drafts;
      }
    }
  }

  /** Freshly built rows can never be submitted as they are. */
  lemma FreshDraftsIncomplete(horses: seq<Horse>, roster: seq<string>)
    requires BuildDrafts(horses, roster) != []
    ensures !AllComplete(BuildDrafts(horses, roster))
  {
    AllCompleteIff(BuildDrafts(horses, roster));
  }

  function DraftPosition(d: Draft): int {
    d.position
  }

  /** What a submission stamps on every result. */
  datatype Submission = Submission(raceId: string, raceName: string, judgeId: string)

  /** The id and creation time each saved result receives. */
  datatype Stamp = Stamp(id: string, createdAt: string)

  function RecordOf(d: Draft, horse: Horse, s: Submission, stamp: Stamp): RaceResult {
    RaceResult(stamp.id, s.raceId, s.raceName, d.horseId, horse.name, d.position, d.time,
               d.jockeyName, Some(d.penalties), Some(d.notes), s.judgeId, stamp.createdAt)
  }

  /** The row a saved result came from. */
  function DraftOf(r: RaceResult): Draft {
    Draft(r.horseId, r.position, r.time, r.jockeyName, r.penalties.GetOr(""), r.notes.GetOr(""))
  }

  /** A saved result gives back the row it was made from. */
  lemma RecordRoundTrip(d: Draft, horse: Horse, s: Submission, stamp: Stamp)
    ensures DraftOf(RecordOf(d, horse, s, stamp)) == d
  {
  }

  function KnownHorse(horses: seq<Horse>): Draft -> bool {
    (d: Draft) => FindHorse(horses, d.horseId).Some?
  }

  /**
   * The results saved for rows in the given order: one per row whose horse is in the
   * store, carrying the row's values and the submission's race and judge.
   */
  function RecordsFrom(rows: seq<Draft>, horses: seq<Horse>, s: Submission, stamps: seq<Stamp>): (r: seq<RaceResult>)
    requires |stamps| == |rows|
    ensures |r| <= |rows|
    ensures forall i :: 0 <= i < |r| ==>
      r[i].raceId == s.raceId && r[i].raceName == s.raceName && r[i].judgeId == s.judgeId
    decreases |rows|
  {
    if rows == [] then []
    else
      var n := |rows| - 1;
      RecordsFrom(rows[..n], horses, s, stamps[..n]) + LastRecord(rows[n], horses, s, stamps[n])
  }

  /** The result saved for a single row, if its horse is known. */
  function LastRecord(d: Draft, horses: seq<Horse>, s: Submission, stamp: Stamp): (r: seq<RaceResult>)
    ensures |r| <= 1
    ensures |r| == 1 <==> FindHorse(horses, d.horseId).Some?
    ensures |r| == 1 ==> r[0] == RecordOf(d, FindHorse(horses, d.horseId).value, s, stamp)
  {
    match FindHorse(horses, d.horseId)
    case Some(h) => [RecordOf(d, h, s, stamp)]
    case None => []
  }

  /**
   * The saved results are exactly the rows whose horse is known, in row order:
   * reading each result back as a row gives the filtered rows.
   */
  lemma {:induction false} RecordsAreKnownRows(rows: seq<Draft>, horses: seq<Horse>, s: Submission, stamps: seq<Stamp>)
    requires |stamps| == |rows|
    ensures Map(RecordsFrom(rows, horses, s, stamps), DraftOf) == Filter(rows, KnownHorse(horses))
  {
    if rows != [] {
      var n := |rows| - 1;
      var init, row := rows[..n], rows[n];
      var known := KnownHorse(horses);
      RecordsAreKnownRows(init, horses, s, stamps[..n]);
      assert init + [row] == rows;
      FilterSnoc(init, row, known);
      var front := RecordsFrom(init, horses, s, stamps[..n]);
      var last := LastRecord(row, horses, s, stamps[n]);
      assert RecordsFrom(rows, horses, s, stamps) == front + last;
      MapAppend(front, last, DraftOf);
      LastRecordRow(row, horses, s, stamps[n]);
    }
  }

  /** Read back as rows, a single row's results are the row itself if its horse is known, else nothing. */
  lemma LastRecordRow(row: Draft, horses: seq<Horse>, s: Submission, stamp: Stamp)
    ensures Map(LastRecord(row, horses, s, stamp), DraftOf) == if KnownHorse(horses)(row) then [row] else []
  {
    if KnownHorse(horses)(row) {
      RecordRoundTrip(row, FindHorse(horses, row.horseId).value, s, stamp);
    }
  }

  /** Taking one more row adds that row's result. */
  lemma RecordsSnoc(rows: seq<Draft>, horses: seq<Horse>, s: Submission, stamps: seq<Stamp>, k: nat)
    requires |stamps| == |rows| && k < |rows|
    ensures RecordsFrom(rows[..k + 1], horses, s, stamps[..k + 1]) ==
      RecordsFrom(rows[..k], horses, s, stamps[..k]) + LastRecord(rows[k], horses, s, stamps[k])
  {
    assert rows[..k + 1][..k] == rows[..k] && stamps[..k + 1][..k] == stamps[..k];
  }

  /** Every row with a known horse is saved, so with all horses known no row is dropped. */
  lemma AllKnownAllSaved(rows: seq<Draft>, horses: seq<Horse>, s: Submission, stamps: seq<Stamp>)
    requires |stamps| == |rows|
    requires forall i :: 0 <= i < |rows| ==> FindHorse(horses, rows[i].horseId).Some?
    ensures |RecordsFrom(rows, horses, s, stamps)| == |rows|
  {
    FilterKeepsAll(rows, KnownHorse(horses));
    RecordsAreKnownRows(rows, horses, s, stamps);
    assert |Map(RecordsFrom(rows, horses, s, stamps), DraftOf)| == |RecordsFrom(rows, horses, s, stamps)|;
  }

  /** Rows taken in position order give results in position order. */
  lemma RecordsOrdered(rows: seq<Draft>, horses: seq<Horse>, s: Submission, stamps: seq<Stamp>)
    requires |stamps| == |rows|
    requires SortedBy(rows, DraftPosition)
    ensures var r := RecordsFrom(rows, horses, s, stamps);
      forall i, j :: 0 <= i < j < |r| ==> r[i].position <= r[j].position
  {
    var r := RecordsFrom(rows, horses, s, stamps);
    RecordsAreKnownRows(rows, horses, s, stamps);
    var m := Filter(rows, KnownHorse(horses));
    FilterSorted(rows, KnownHorse(horses), DraftPosition);
    forall i, j | 0 <= i < j < |r| ensures r[i].position <= r[j].position {
      assert DraftOf(r[i]) == m[i] && DraftOf(r[j]) == m[j];
    }
  }

  function PositionOf(r: RaceResult): int {
    r.position
  }

  function ResultRaceIs(raceId: string): RaceResult -> bool {
    (r: RaceResult) => r.raceId == raceId
  }

  /** `getResultsByRace`: the race's results, by position, ties in the order they were saved. */
  function ResultsByRace(results: seq<RaceResult>, raceId: string): (r: seq<RaceResult>)
    ensures |r| == |Filter(results, ResultRaceIs(raceId))|
    ensures forall i :: 0 <= i < |r| ==> r[i] in results && r[i].raceId == raceId
  {
    var f := Filter(results, ResultRaceIs(raceId));
    SortByPermutes(f, PositionOf);
    MultisetMembers(SortBy(f, PositionOf), f);
    SortBy(f, PositionOf)
  }

  lemma ResultsByRaceSpec(results: seq<RaceResult>, raceId: string, k: int)
    ensures var r := ResultsByRace(results, raceId);
      && multiset(r) == multiset(Filter(results, ResultRaceIs(raceId)))
      && (forall i :: 0 <= i < |r| ==> r[i].raceId == raceId)
      && (forall i, j :: 0 <= i < j < |r| ==> r[i].position <= r[j].position)
      && Filter(r, KeyIs(PositionOf, k)) == Filter(Filter(results, ResultRaceIs(raceId)), KeyIs(PositionOf, k))
  {
    var f := Filter(results, ResultRaceIs(raceId));
    SortByPermutes(f, PositionOf);
    SortBySorted(f, PositionOf);
    SortByStable(f, PositionOf, k);
    var r := SortBy(f, PositionOf);
    forall i | 0 <= i < |r| ensures r[i].raceId == raceId {
      assert r[i] in multiset(f);
      assert r[i] in f;
    }
  }

  datatype SubmitOutcome = NothingToSubmit | IncompleteRows | Saved

  /** The results page's state: the chosen race, its rows, and whether the dialog is open. */
  class ResultsPage {
    var selectedRace: string
    var drafts: seq<Draft>
    var dialogOpen: bool

    constructor ()
      ensures selectedRace == "" && drafts == [] && !dialogOpen
    {
      selectedRace, drafts, dialogOpen := "", [], false;
    }

    method SetDialogOpen(open: bool)
      modifies this
      ensures dialogOpen == open && selectedRace == old(selectedRace) && drafts == old(drafts)
    {
      dialogOpen := open;
    }

    /** `handleRaceSelect`: always records the choice; rows are rebuilt only for a race that exists. */
    method HandleRaceSelect(store: DataStore, raceId: string)
      modifies this
      ensures selectedRace == raceId && dialogOpen == old(dialogOpen)
      ensures FindRace(store.races, raceId).Some? ==>
        drafts == BuildDrafts(store.horses, FindRace(store.races, raceId).value.registeredHorses)
      ensures FindRace(store.races, raceId).None? ==> drafts == old(drafts)
    {
      selectedRace := raceId;
      var race := FindRace(store.races, raceId);
      if race.Some? {
        drafts := BuildDrafts(store.horses, race.value.registeredHorses);
      }
    }

    /** `updateResult`. */
    method UpdateResult(index: int, e: Edit)
      modifies this
      ensures drafts == EditDraft(old(drafts), index, e)
      ensures selectedRace == old(selectedRace) && dialogOpen == old(dialogOpen)
    {
      drafts := EditDraft(drafts, index, e);
    }

    /**
     * `handleSubmitResults`: with a race chosen that exists, a signed-in user and every row
     * complete, saves the rows in position order (`stamps[k]` is the id and time of the
     * k-th of them) and resets the page; otherwise nothing changes.
     */
    method HandleSubmitResults(store: DataStore, user: Option<User>, stamps: seq<Stamp>) returns (outcome: SubmitOutcome)
      requires |stamps| == |drafts|
      modifies this, store
      ensures store.horses == old(store.horses) && store.races == old(store.races)
      ensures store.notifications == old(store.notifications)
      ensures outcome == NothingToSubmit <==>
        old(selectedRace) == "" || user.None? || FindRace(old(store.races), old(selectedRace)).None?
      ensures outcome == IncompleteRows <==> outcome != NothingToSubmit && !AllComplete(old(drafts))
      ensures !outcome.Saved? ==>
        store.results == old(store.results) &&
        selectedRace == old(selectedRace) && drafts == old(drafts) && dialogOpen == old(dialogOpen)
      ensures outcome.Saved? ==>
        var s := Submission(old(selectedRace), FindRace(old(store.races), old(selectedRace)).value.name, user.value.id);
        var saved := RecordsFrom(SortBy(old(drafts), DraftPosition), old(store.horses), s, stamps);
        && store.results == old(store.results) + saved
        && selectedRace == "" && drafts == [] && !dialogOpen
    {
      if selectedRace == "" || user.None? {
        return NothingToSubmit;
      }
      var race := FindRace(store.races, selectedRace);
      if race.None? {
        return NothingToSubmit;
      }
      if |Filter(drafts, IsIncomplete)| > 0 {
        return IncompleteRows;
      }
      var s := Submission(selectedRace, race.value.name, user.value.id);
      var rows := SortedCopy(drafts, DraftPosition);
      SaveRows(store, rows, s, stamps);
      outcome := Saved;
      dialogOpen, selectedRace, drafts := false, "", [];
    }
  }

  /** The submit loop: one `addResult` per row whose horse is in the store, in row order. */
  method SaveRows(store: DataStore, rows: seq<Draft>, s: Submission, stamps: seq<Stamp>)
    requires |stamps| == |rows|
    modifies store
    ensures store.results == old(store.results) + RecordsFrom(rows, old(store.horses), s, stamps)
    ensures store.horses == old(store.horses) && store.races == old(store.races)
    ensures store.notifications == old(store.notifications)
  {
    ghost var horses, saved := store.horses, store.results;
    var k := 0;
    while k < |rows|
      invariant 0 <= k <= |rows|
      invariant store.horses == horses && store.races == old(store.races)
      invariant store.notifications == old(store.notifications)
      invariant store.results == saved + RecordsFrom(rows[..k], horses, s, stamps[..k])
    {
      ghost var current := store.results;
      SaveRow(store, rows[k], s, stamps[k]);
      SaveRowsStep(rows, horses, s, stamps, k, saved, current, store.results);
      k := k + 1;
    }
    assert rows[..|rows|] == rows && stamps[..|rows|] == stamps;
  }

  /** After one more turn of the submit loop the results hold one more row's result. */
  lemma SaveRowsStep(rows: seq<Draft>, horses: seq<Horse>, s: Submission, stamps: seq<Stamp>, k: nat,
                     saved: seq<RaceResult>, current: seq<RaceResult>, next: seq<RaceResult>)
    requires |stamps| == |rows| && k < |rows|
    requires current == saved + RecordsFrom(rows[..k], horses, s, stamps[..k])
    requires next == current + LastRecord(rows[k], horses, s, stamps[k])
    ensures next == saved + RecordsFrom(rows[..k + 1], horses, s, stamps[..k + 1])
  {
    RecordsSnoc(rows, horses, s, stamps, k);
    AppendAssociative(saved, RecordsFrom(rows[..k], horses, s, stamps[..k]), LastRecord(rows[k], horses, s, stamps[k]));
  }

  /** One turn of the submit loop: the row's result is added when its horse is in the store. */
  method SaveRow(store: DataStore, row: Draft, s: Submission, stamp: Stamp)
    modifies store
    ensures store.results == old(store.results) + LastRecord(row, old(store.horses), s, stamp)
    ensures store.horses == old(store.horses) && store.races == old(store.races)
    ensures store.notifications == old(store.notifications)
  {
    var horse := FindHorse(store.horses, row.horseId);
    if horse.Some? {
      var record := RecordOf(row, horse.value, s, stamp);
      var result := store.AddResult(record, stamp.id);
      assert result == record;
    }
  }

  /** A submission saves its rows in position order. */
  lemma SubmissionOrdered(drafts: seq<Draft>, horses: seq<Horse>, s: Submission, stamps: seq<Stamp>)
    requires |stamps| == |drafts|
    ensures var r := RecordsFrom(SortBy(drafts, DraftPosition), horses, s, stamps);
      forall i, j :: 0 <= i < j < |r| ==> r[i].position <= r[j].position
  {
    SortBySorted(drafts, DraftPosition);
    RecordsOrdered(SortBy(drafts, DraftPosition), horses, s, stamps);
  }
}
