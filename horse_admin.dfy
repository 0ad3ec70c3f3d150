/**
 * The horse management page: which horses a user manages, a text form for one
 * horse, creating a horse or editing the selected one, the win rate and the
 * "distinguished" badge. `parse` stands for `parseInt` and `show` for `toString`.
 */
module HorseAdmin {
  import opened Wrappers
  import opened Seqs
  import opened Domain
  import opened Store
  import opened Auth
  import opened Schedule
  import opened Statistics

  /** `userHorses`: an admin manages every horse, anyone else the horses they own. */
  function ManagedHorses(user: Option<User>, horses: seq<Horse>): (r: seq<Horse>)
    ensures user.Some? && user.value.role == Admin ==> r == horses
    ensures user.Some? && user.value.role != Admin ==>
      forall h :: h in r <==> h in horses && h.ownerId == user.value.id
    ensures user.None? ==> r == []
    ensures |r| <= |horses|
  {
    match user
    case None => []
    case Some(u) => if u.role == Admin then horses else Filter(horses, OwnedBy(u.id))
  }

  /** A non-admin's list keeps the store order of their horses. */
  lemma ManagedHorsesInOrder(user: User, horses: seq<Horse>, key: Horse -> int)
    requires user.role != Admin
    requires SortedBy(horses, key)
    ensures SortedBy(ManagedHorses(Some(user), horses), key)
  {
    FilterSorted(horses, OwnedBy(user.id), key);
  }

  /** The form's text fields. */
  datatype HorseForm = HorseForm(
    name: string,
    breed: string,
    age: string,
    color: string,
    weight: string,
    trainerName: string)

  datatype HorseField = NameField | BreedField | AgeField | ColorField | WeightField | TrainerNameField

  const BlankHorseForm := HorseForm("", "", "", "", "", "")

  function FieldText(f: HorseForm, field: HorseField): string {
    match field
    case NameField => f.name
    case BreedField => f.breed
    case AgeField => f.age
    case ColorField => f.color
    case WeightField => f.weight
    case TrainerNameField => f.trainerName
  }

  /** `handleInputChange`'s update: `{ ...prev, [field]: value }`. */
  function WithField(f: HorseForm, field: HorseField, value: string): (r: HorseForm)
    ensures FieldText(r, field) == value
    ensures forall other :: other != field ==> FieldText(r, other) == FieldText(f, other)
  {
    match field
    case NameField => f.(name := value)
    case BreedField => f.(breed := value)
    case AgeField => f.(age := value)
    case ColorField => f.(color := value)
    case WeightField => f.(weight := value)
    case TrainerNameField => f.(trainerName := value)
  }

  /** `handleEdit`'s form: a missing trainer name becomes the empty text. */
  function FormOf(horse: Horse, show: int -> string): HorseForm {
    HorseForm(horse.name, horse.breed, show(horse.age), horse.color, show(horse.weight),
              horse.trainerName.GetOr(""))
  }

  /**
   * `horseData`: the horse the form describes, owned by the current user, with the
   * selected horse's counters (a new horse starts at zero). It names a trainer but has
   * no trainer id and no image. Its id is left empty for the store to fill.
   */
  function HorseData(form: HorseForm, selected: Option<Horse>, user: User, parse: string -> int): (h: Horse)
    ensures h.ownerId == user.id && h.ownerName == user.name
    ensures selected.Some? ==> h.wins == selected.value.wins && h.races == selected.value.races
    ensures selected.None? ==> h.wins == 0 && h.races == 0
    ensures h.name == form.name && h.breed == form.breed && h.color == form.color
    ensures h.age == parse(form.age) && h.weight == parse(form.weight)
    ensures h.trainerName == Some(form.trainerName)
    ensures h.trainerId == None && h.image == None
  {
    Horse("", form.name, form.breed, parse(form.age), user.id, user.name, None, Some(form.trainerName),
          form.color, parse(form.weight),
          if selected.Some? then selected.value.wins else 0,
          if selected.Some? then selected.value.races else 0,
          None)
  }

  /** The horse data as `Partial<Horse>`: the id, trainer id and image are not part of it. */
  function AsHorsePatch(h: Horse): (p: HorsePatch)
    ensures forall target ::
      ApplyHorsePatch(target, p) == h.(id := target.id, trainerId := target.trainerId, image := target.image)
  {
    HorsePatch(None, Some(h.name), Some(h.breed), Some(h.age), Some(h.ownerId), Some(h.ownerName),
               None, Some(h.trainerName), Some(h.color), Some(h.weight), Some(h.wins), Some(h.races), None)
  }

  /**
   * Editing a horse and submitting the form unchanged keeps its name, breed, age, colour,
   * weight, counters, trainer id and image; the trainer name is kept when there was one
   * (none becomes the empty name), and the owner becomes the current user.
   */
  lemma EditThenSubmit(horse: Horse, user: User, parse: string -> int, show: int -> string)
    requires forall n :: parse(show(n)) == n
    ensures ApplyHorsePatch(horse, AsHorsePatch(HorseData(FormOf(horse, show), Some(horse), user, parse))) ==
            horse.(ownerId := user.id, ownerName := user.name, trainerName := Some(horse.trainerName.GetOr("")))
  {
  }

  /** `getWinRate`: zero for a horse without races, otherwise wins per race as a percentage. */
  function HorseWinRate(wins: int, races: int): (rate: real)
    ensures races == 0 ==> rate == 0.0
    ensures races != 0 ==> rate * races as real == wins as real * 100.0
  {
    if races == 0 then 0.0 else wins as real / races as real * 100.0
  }

  /** The management page and the statistics agree on every race count that is not negative. */
  lemma WinRatesAgree(wins: int, races: int)
    requires races >= 0
    ensures HorseWinRate(wins, races) == WinRate(wins, races)
  {
    if races > 0 {
      var a, b := HorseWinRate(wins, races), WinRate(wins, races);
      assert a * races as real == b * races as real;
    }
  }

  /** The badge: more than five wins is distinguished, anything else is active. */
  function Distinguished(wins: int): bool {
    wins > 5
  }

  function HorseBadge(horse: Horse): (b: Badge)
    ensures b.variant == Default <==> Distinguished(horse.wins)
    ensures b.variant == Secondary <==> !Distinguished(horse.wins)
    ensures b.caption == if horse.wins > 5 then "متميز" else "نشط"
  {
    if horse.wins > 5 then Badge("متميز", Default) else Badge("نشط", Secondary)
  }

  /** The horse management page's state. */
  class HorseManagementPage {
    var selectedHorse: Option<Horse>
    var form: HorseForm
    var dialogOpen: bool

    constructor ()
      ensures selectedHorse == None && form == BlankHorseForm && !dialogOpen
    {
      selectedHorse, form, dialogOpen := None, BlankHorseForm, false;
    }

    method HandleInputChange(field: HorseField, value: string)
      modifies this
      ensures form == WithField(old(form), field, value)
      ensures selectedHorse == old(selectedHorse) && dialogOpen == old(dialogOpen)
    {
      form := WithField(form, field, value);
    }

    /** `resetForm`: every field cleared and nothing selected. */
    method ResetForm()
      modifies this
      ensures form == BlankHorseForm && selectedHorse == None
      ensures dialogOpen == old(dialogOpen)
    {
      form, selectedHorse := BlankHorseForm, None;
    }

    /** The dialog's `onOpenChange`: only the open flag changes. */
    method SetDialogOpen(open: bool)
      modifies this
      ensures dialogOpen == open && selectedHorse == old(selectedHorse) && form == old(form)
    {
      dialogOpen := open;
    }

    /** `handleEdit`: the horse is selected, its fields fill the form, and the dialog opens. */
    method HandleEdit(horse: Horse, show: int -> string)
      modifies this
      ensures selectedHorse == Some(horse) && form == FormOf(horse, show) && dialogOpen
    {
      selectedHorse := Some(horse);
      form := FormOf(horse, show);
      dialogOpen := true;
    }

    /**
     * `handleSubmit`: without a user nothing happens. Otherwise the selected horse is
     * updated, or a new horse is added under `freshId`; then the dialog closes and the
     * form is reset.
     */
    method HandleSubmit(store: DataStore, user: Option<User>, parse: string -> int, freshId: string)
      modifies this, store
      ensures store.races == old(store.races) && store.results == old(store.results)
      ensures store.notifications == old(store.notifications)
      ensures user.None? ==>
        store.horses == old(store.horses) && selectedHorse == old(selectedHorse)
        && form == old(form) && dialogOpen == old(dialogOpen)
      ensures user.Some? ==>
        var data := HorseData(old(form), old(selectedHorse), user.value, parse);
        && (old(selectedHorse).Some? ==>
              store.horses == UpdatedHorses(old(store.horses), old(selectedHorse).value.id, AsHorsePatch(data)))
        && (old(selectedHorse).None? ==> store.horses == old(store.horses) + [data.(id := freshId)])
        && form == BlankHorseForm && selectedHorse == None && !dialogOpen
    {
      if user.None? {
        return;
      }
      var data := HorseData(form, selectedHorse, user.value, parse);
      if selectedHorse.Some? {
        store.UpdateHorse(selectedHorse.value.id, AsHorsePatch(data));
      } else {
        var _ := store.AddHorse(data, freshId);
      }
      dialogOpen := false;
      ResetForm();
    }
  }
}
