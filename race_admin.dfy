/**
 * The race management page: a text form for one race, creating a race or editing
 * the selected one. Numeric fields are held as text; `parse` stands for `parseInt`
 * and `show` for `toString`.
 */
module RaceAdmin {
  import opened Wrappers
  import opened Domain
  import opened Store
  import opened Auth

  /** The form's text fields. */
  datatype RaceForm = RaceForm(
    name: string,
    date: string,
    time: string,
    distance: string,
    ageCategory: string,
    maxHorses: string,
    prize: string,
    location: string,
    description: string)

  datatype RaceField = NameField | DateField | TimeField | DistanceField | AgeCategoryField
                     | MaxHorsesField | PrizeField | LocationField | DescriptionField

  /** Every field empty. */
  const BlankRaceForm := RaceForm("", "", "", "", "", "", "", "", "")

  /** The text a field holds. */
  function FieldText(f: RaceForm, field: RaceField): string {
    match field
    case NameField => f.name
    case DateField => f.date
    case TimeField => f.time
    case DistanceField => f.distance
    case AgeCategoryField => f.ageCategory
    case MaxHorsesField => f.maxHorses
    case PrizeField => f.prize
    case LocationField => f.location
    case DescriptionField => f.description
  }

  /** `handleInputChange`'s update: `{ ...prev, [field]: value }`. */
  function WithField(f: RaceForm, field: RaceField, value: string): (r: RaceForm)
    ensures FieldText(r, field) == value
    ensures forall other :: other != field ==> FieldText(r, other) == FieldText(f, other)
  {
    match field
    case NameField => f.(name := value)
    case DateField => f.(date := value)
    case TimeField => f.(time := value)
    case DistanceField => f.(distance := value)
    case AgeCategoryField => f.(ageCategory := value)
    case MaxHorsesField => f.(maxHorses := value)
    case PrizeField => f.(prize := value)
    case LocationField => f.(location := value)
    case DescriptionField => f.(description := value)
  }

  /** `handleEdit`'s form: the race's fields as text, with an empty description. */
  function FormOf(race: Race, show: int -> string): RaceForm {
    RaceForm(race.name, race.date, race.time, show(race.distance), race.ageCategory,
             show(race.maxHorses), show(race.prize), race.location, "")
  }

  /**
   * `raceData`: the race the form describes. It is always upcoming, keeps the selected
   * race's roster (a new race has none), and is organised by the current user. Its id
   * is left empty: the store gives a new race its id, an edit keeps the old one.
   */
  function RaceData(form: RaceForm, selected: Option<Race>, user: User, parse: string -> int): (r: Race)
    ensures r.status == Upcoming
    ensures r.registeredHorses == if selected.Some? then selected.value.registeredHorses else []
    ensures r.organizerId == user.id && r.organizerName == user.name
    ensures r.name == form.name && r.date == form.date && r.time == form.time
    ensures r.ageCategory == form.ageCategory && r.location == form.location
    ensures r.distance == parse(form.distance) && r.maxHorses == parse(form.maxHorses)
    ensures r.prize == parse(form.prize)
  {
    Race("", form.name, form.date, form.time, parse(form.distance), form.ageCategory,
         parse(form.maxHorses), if selected.Some? then selected.value.registeredHorses else [],
         Upcoming, parse(form.prize), form.location, user.id, user.name)
  }

  /** The race data as `Partial<Race>`: every field but the id. */
  function AsRacePatch(r: Race): (p: RacePatch)
    ensures forall target :: ApplyRacePatch(target, p) == r.(id := target.id)
  {
    RacePatch(None, Some(r.name), Some(r.date), Some(r.time), Some(r.distance), Some(r.ageCategory),
              Some(r.maxHorses), Some(r.registeredHorses), Some(r.status), Some(r.prize), Some(r.location),
              Some(r.organizerId), Some(r.organizerName))
  }

  /**
   * Editing a race and submitting the form unchanged gives back the race's own fields and
   * roster; only the status (reset to upcoming) and the organizer (the current user) change.
   */
  lemma EditThenSubmit(race: Race, user: User, parse: string -> int, show: int -> string)
    requires forall n :: parse(show(n)) == n
    ensures RaceData(FormOf(race, show), Some(race), user, parse).(id := race.id) ==
            race.(status := Upcoming, organizerId := user.id, organizerName := user.name)
  {
  }

  /** Submitting an edit changes the selected race, and only it, into the form's race under the same id. */
  lemma EditReplacesSelected(races: seq<Race>, selected: Race, form: RaceForm, user: User, parse: string -> int, i: int)
    requires 0 <= i < |races|
    ensures var edited := RaceData(form, Some(selected), user, parse);
      var after := UpdatedRaces(races, selected.id, AsRacePatch(edited));
      && |after| == |races|
      && (races[i].id == selected.id ==> after[i] == edited.(id := selected.id))
      && (races[i].id != selected.id ==> after[i] == races[i])
  {
  }

  /** The race management page's state. */
  class RaceManagementPage {
    var selectedRace: Option<Race>
    var form: RaceForm
    var dialogOpen: bool

    constructor ()
      ensures selectedRace == None && form == BlankRaceForm && !dialogOpen
    {
      selectedRace, form, dialogOpen := None, BlankRaceForm, false;
    }

    /** `handleInputChange`: one field takes the typed text. */
    method HandleInputChange(field: RaceField, value: string)
      modifies this
      ensures form == WithField(old(form), field, value)
      ensures selectedRace == old(selectedRace) && dialogOpen == old(dialogOpen)
    {
      form := WithField(form, field, value);
    }

    /** `resetForm`: every field cleared and nothing selected. */
    method ResetForm()
      modifies this
      ensures form == BlankRaceForm && selectedRace == None
      ensures dialogOpen == old(dialogOpen)
    {
      form, selectedRace := BlankRaceForm, None;
    }

    /** The dialog's `onOpenChange`: only the open flag changes. */
    method SetDialogOpen(open: bool)
      modifies this
      ensures dialogOpen == open && selectedRace == old(selectedRace) && form == old(form)
    {
      dialogOpen := open;
    }

    /** `handleEdit`: the race is selected, its fields fill the form, and the dialog opens. */
    method HandleEdit(race: Race, show: int -> string)
      modifies this
      ensures selectedRace == Some(race) && form == FormOf(race, show) && dialogOpen
    {
      selectedRace := Some(race);
      form := FormOf(race, show);
      dialogOpen := true;
    }

    /**
     * `handleSubmit`: without a user nothing happens. Otherwise the selected race is
     * updated, or a new race is added under `freshId`; then the dialog closes and the
     * form is reset.
     */
    method HandleSubmit(store: DataStore, user: Option<User>, parse: string -> int, freshId: string)
      modifies this, store
      ensures store.horses == old(store.horses) && store.results == old(store.results)
      ensures store.notifications == old(store.notifications)
      ensures user.None? ==>
        store.races == old(store.races) && selectedRace == old(selectedRace)
        && form == old(form) && dialogOpen == old(dialogOpen)
      ensures user.Some? ==>
        var data := RaceData(old(form), old(selectedRace), user.value, parse);
        && (old(selectedRace).Some? ==>
              store.races == UpdatedRaces(old(store.races), old(selectedRace).value.id, AsRacePatch(data)))
        && (old(selectedRace).None? ==> store.races == old(store.races) + [data.(id := freshId)])
        && form == BlankRaceForm && selectedRace == None && !dialogOpen
    {
      if user.None? {
        return;
      }
      var data := RaceData(form, selectedRace, user.value, parse);
      if selectedRace.Some? {
        store.UpdateRace(selectedRace.value.id, AsRacePatch(data));
      } else {
        var _ := store.AddRace(data, freshId);
      }
      dialogOpen := false;
      ResetForm();
    }
  }
}
