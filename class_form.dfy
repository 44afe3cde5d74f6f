/**
 * The create/edit form of one class. The form keeps one text per field,
 * seeded from the record being edited (or empty when creating). Submitting
 * checks that the seven required texts are filled, builds a record and hands
 * it to the view-model as an insert (create) or an update (edit), then closes
 * the form. In edit mode a confirmation dialog guards deletion.
 *
 * The view-model and the `onClose` callback are observed through one log of
 * `Event`s, in the order the form issues them.
 */
module ClassFormModel {
  import opened Wrappers
  import opened Decimal
  import opened YogaData

  const REQUIRED_FIELDS_ERROR: string := "Please fill all required field!"

  /** What the form hands to the outside world. */
  datatype Event =
    | Insert(record: YogaClass)   // viewModel.insertYogaClass
    | Update(record: YogaClass)   // viewModel.updateYogaClass
    | Delete(id: int)             // viewModel.deleteYogaClass
    | Close                       // onClose()
  {
    function Kind(): EventKind {
      match this
      case Insert(_) => InsertKind
      case Update(_) => UpdateKind
      case Delete(_) => DeleteKind
      case Close => CloseKind
    }
  }

  datatype EventKind = InsertKind | UpdateKind | DeleteKind | CloseKind

  /** How many events of `log` are of kind `k`. */
  function Count(log: seq<Event>, k: EventKind): nat {
    if log == [] then 0 else (if log[0].Kind() == k then 1 else 0) + Count(log[1..], k)
  }

  /** The form's text fields. */
  datatype FormFields = FormFields(
    dayOfWeek: string,
    time: string,
    teacher: string,
    capacity: string,
    price: string,
    duration: string,
    classType: string,
    description: string)

  /** The fields the user types into; the day comes from the date picker instead. */
  datatype TextField = Time | Teacher | Capacity | Price | Duration | ClassType | Description

  function WithText(f: FormFields, field: TextField, value: string): FormFields {
    match field
    case Time => f.(time := value)
    case Teacher => f.(teacher := value)
    case Capacity => f.(capacity := value)
    case Price => f.(price := value)
    case Duration => f.(duration := value)
    case ClassType => f.(classType := value)
    case Description => f.(description := value)
  }

  /** The id the form keeps: the edited record's, or 0 when creating. */
  function SeedId(original: Option<YogaClass>): int {
    if original.Some? then original.value.id else 0
  }

  /** Initial texts: the edited record rendered field by field, or all empty. */
  function SeedFields(original: Option<YogaClass>): FormFields {
    match original
    case None => FormFields("", "", "", "", "", "", "", "")
    case Some(c) =>
      FormFields(c.dayOfWeek, c.time, c.teacher, IntToString(c.capacity), c.price,
                 IntToString(c.duration), c.classType,
                 if c.description.Some? then c.description.value else "")
  }

  /** Some required text is empty; the description is optional. */
  predicate MissingRequired(f: FormFields) {
    f.dayOfWeek == "" || f.time == "" || f.teacher == "" ||
    f.capacity == "" || f.price == "" || f.classType == "" || f.duration == ""
  }

  /** Capacity and duration are texts `toInt()` accepts. */
  predicate NumbersParse(f: FormFields) {
    IsIntLiteral(f.capacity) && IsIntLiteral(f.duration)
  }

  /** The record a valid submit builds; an empty description becomes absent. */
  function BuildRecord(id: int, f: FormFields): YogaClass
    requires NumbersParse(f)
  {
    YogaClass(id, f.dayOfWeek, f.time, f.teacher, ParseInt(f.capacity), f.price,
              ParseInt(f.duration), f.classType,
              if f.description == "" then None else Some(f.description))
  }

  /** What a submit issues: nothing when a required text is missing, else one dispatch and a close. */
  function SubmitEvents(original: Option<YogaClass>, f: FormFields): seq<Event>
    requires !MissingRequired(f) ==> NumbersParse(f)
  {
    if MissingRequired(f) then []
    else
      var r := BuildRecord(SeedId(original), f);
      [if original.None? then Insert(r) else Update(r), Close]
  }

  /** The error text after a submit: set on failure, left as it was otherwise. */
  function SubmitError(previous: string, f: FormFields): string {
    if MissingRequired(f) then REQUIRED_FIELDS_ERROR else previous
  }

  /** What confirming deletion issues: the delete of the edited record `c`, then a close. */
  function DeleteEvents(c: YogaClass): seq<Event> {
    [Delete(c.id), Close]
  }

  lemma CountPair(x: Event, y: Event, k: EventKind)
    ensures Count([x, y], k) == (if x.Kind() == k then 1 else 0) + (if y.Kind() == k then 1 else 0)
  {
    assert Count([x, y], k) == (if x.Kind() == k then 1 else 0) + Count([x, y][1..], k);
    assert [x, y][1..] == [y];
    assert Count([y], k) == (if y.Kind() == k then 1 else 0) + Count([y][1..], k);
    assert [y][1..] == [];
  }

  /** A submit with a required text missing issues nothing and shows the error. */
  lemma IncompleteSubmitDoesNothing(original: Option<YogaClass>, f: FormFields, previous: string)
    requires MissingRequired(f)
    ensures SubmitEvents(original, f) == []
    ensures SubmitError(previous, f) == "Please fill all required field!"
  {
  }

  /** A submit closes the form exactly when every required text is filled, and closing is its last act. */
  lemma SubmitClosesIffComplete(original: Option<YogaClass>, f: FormFields)
    requires !MissingRequired(f) ==> NumbersParse(f)
    ensures Count(SubmitEvents(original, f), CloseKind) == (if MissingRequired(f) then 0 else 1)
    ensures !MissingRequired(f) ==> SubmitEvents(original, f)[|SubmitEvents(original, f)| - 1] == Close
  {
    if !MissingRequired(f) {
      var log := SubmitEvents(original, f);
      CountPair(log[0], log[1], CloseKind);
    }
  }

  /** Creating: one insert of a record with id 0 carrying the typed texts, no update, no delete. */
  lemma CreateInsertsOnce(f: FormFields)
    requires !MissingRequired(f) && NumbersParse(f)
    ensures var log := SubmitEvents(None, f);
      Count(log, InsertKind) == 1 &&
      Count(log, UpdateKind) == 0 &&
      Count(log, DeleteKind) == 0 &&
      log[0].Insert? && log[0].record.id == 0 &&
      log[0].record.dayOfWeek == f.dayOfWeek && log[0].record.time == f.time &&
      log[0].record.teacher == f.teacher && log[0].record.classType == f.classType
  {
    var log := SubmitEvents(None, f);
    CountPair(log[0], log[1], InsertKind);
    CountPair(log[0], log[1], UpdateKind);
    CountPair(log[0], log[1], DeleteKind);
  }

  /** Editing: one update keeping the edited record's id, no insert, no delete. */
  lemma EditUpdatesOnce(c: YogaClass, f: FormFields)
    requires !MissingRequired(f) && NumbersParse(f)
    ensures var log := SubmitEvents(Some(c), f);
      Count(log, UpdateKind) == 1 &&
      Count(log, InsertKind) == 0 &&
      Count(log, DeleteKind) == 0 &&
      log[0].Update? && log[0].record.id == c.id &&
      log[0].record.dayOfWeek == f.dayOfWeek && log[0].record.time == f.time &&
      log[0].record.teacher == f.teacher && log[0].record.classType == f.classType
  {
    var log := SubmitEvents(Some(c), f);
    CountPair(log[0], log[1], InsertKind);
    CountPair(log[0], log[1], UpdateKind);
    CountPair(log[0], log[1], DeleteKind);
  }

  /** The description is optional: it never decides validity, and it is stored as absent exactly when empty. */
  lemma DescriptionIsOptional(id: int, f: FormFields, d: string)
    requires NumbersParse(f)
    ensures MissingRequired(f) == MissingRequired(f.(description := d))
    ensures BuildRecord(id, f).description.None? <==> f.description == ""
    ensures BuildRecord(id, f).description.Some? ==> BuildRecord(id, f).description.value == f.description
  {
  }

  /** A fresh create form is empty, has id 0, and cannot be submitted as it is. */
  lemma CreateFormStartsEmpty()
    ensures SeedId(None) == 0
    ensures SeedFields(None) == FormFields("", "", "", "", "", "", "", "")
    ensures MissingRequired(SeedFields(None))
  {
  }

  /**
   * Opening a stored record and submitting it untouched rebuilds the same
   * record, provided its required texts are non-empty, its numbers fit an
   * `Int`, and its description is not the empty string.
   */
  lemma SeedThenBuildRoundTrip(c: YogaClass)
    requires c.dayOfWeek != "" && c.time != "" && c.teacher != "" && c.price != "" && c.classType != ""
    requires IsInt32(c.capacity) && IsInt32(c.duration)
    requires c.description != Some("")
    ensures !MissingRequired(SeedFields(Some(c)))
    ensures NumbersParse(SeedFields(Some(c)))
    ensures BuildRecord(SeedId(Some(c)), SeedFields(Some(c))) == c
  {
    IntStringRoundTrip(c.capacity);
    IntStringRoundTrip(c.duration);
  }

  /** Confirming deletion in edit mode issues one delete, of the edited record's id, and then closes. */
  lemma ConfirmDeleteDeletesOnce(c: YogaClass)
    ensures var log := DeleteEvents(c);
      Count(log, DeleteKind) == 1 &&
      Count(log, InsertKind) == 0 && Count(log, UpdateKind) == 0 &&
      log[0] == Delete(c.id) && log[|log| - 1] == Close
  {
    var log := DeleteEvents(c);
    CountPair(log[0], log[1], InsertKind);
    CountPair(log[0], log[1], UpdateKind);
    CountPair(log[0], log[1], DeleteKind);
  }

  /** The form's state: the texts, the error line, the delete dialog and what it has issued. */
  class ClassForm {
    const original: Option<YogaClass>
    const id: int
    var dayOfWeek: string
    var time: string
    var teacher: string
    var capacity: string
    var price: string
    var duration: string
    var classType: string
    var description: string
    var errorMessage: string
    var showDeleteDialog: bool
    var events: seq<Event>

    /**
     * The kept id belongs to the edited record (0 when creating), and the
     * delete dialog can only be open when editing.
     */
    ghost predicate Valid()
      reads this
    {
      id == SeedId(original) && (showDeleteDialog ==> original.Some?)
    }

    function Fields(): FormFields
      reads this
    {
      FormFields(dayOfWeek, time, teacher, capacity, price, duration, classType, description)
    }

    /** Open the form on `yogaClass` (edit) or on nothing (create). */
    constructor (yogaClass: Option<YogaClass>)
      ensures Valid()
      ensures original == yogaClass && Fields() == SeedFields(yogaClass)
      ensures errorMessage == "" && !showDeleteDialog && events == []
    {
      original := yogaClass;
      id := if yogaClass.Some? then yogaClass.value.id else 0;
      match yogaClass {
        case None =>
          dayOfWeek, time, teacher, capacity, price, duration, classType, description :=
            "", "", "", "", "", "", "", "";
        case Some(c) =>
          dayOfWeek, time, teacher := c.dayOfWeek, c.time, c.teacher;
          capacity, price, duration := IntToString(c.capacity), c.price, IntToString(c.duration);
          classType := c.classType;
          description := if c.description.Some? then c.description.value else "";
      }
      errorMessage := "";
      showDeleteDialog := false;
      events := [];
    }

    /** The user types `value` into one text field. */
    method Edit(field: TextField, value: string)
      requires Valid()
      modifies this
      ensures Valid()
      ensures Fields() == WithText(old(Fields()), field, value)
      ensures errorMessage == old(errorMessage) && showDeleteDialog == old(showDeleteDialog)
      ensures events == old(events)
    {
      match field {
        case Time => time := value;
        case Teacher => teacher := value;
        case Capacity => capacity := value;
        case Price => price := value;
        case Duration => duration := value;
        case ClassType => classType := value;
        case Description => description := value;
      }
    }

    /** The date picker reports the weekday name of the chosen date. */
    method PickDay(day: string)
      requires Valid()
      modifies this`dayOfWeek
      ensures Valid()
      ensures Fields() == old(Fields()).(dayOfWeek := day)
    {
      dayOfWeek := day;
    }

    /** The submit button; `toInt()` must accept capacity and duration once the check passes. */
    method Submit()
      requires Valid()
      requires !MissingRequired(Fields()) ==> NumbersParse(Fields())
      modifies this`errorMessage, this`events
      ensures Valid()
      ensures errorMessage == SubmitError(old(errorMessage), Fields())
      ensures events == old(events) + SubmitEvents(original, Fields())
    {
      if dayOfWeek == "" || time == "" || teacher == "" ||
         capacity == "" || price == "" || classType == "" || duration == "" {
        errorMessage := REQUIRED_FIELDS_ERROR;
      } else {
        var newClass := YogaClass(id, dayOfWeek, time, teacher, ParseInt(capacity), price,
                                  ParseInt(duration), classType,
                                  if description == "" then None else Some(description));
        if original.None? {
          events := events + [Insert(newClass)];
        } else {
          events := events + [Update(newClass)];
        }
        events := events + [Close];
      }
    }

    /** The delete button, shown only when editing. */
    method OpenDeleteDialog()
      requires Valid() && original.Some?
      modifies this`showDeleteDialog
      ensures Valid() && showDeleteDialog
    {
      showDeleteDialog := true;
    }

    /** "Delete" in the confirmation dialog, which is open only when editing. */
    method ConfirmDelete()
      requires Valid() && showDeleteDialog
      modifies this`showDeleteDialog, this`events
      ensures Valid() && !showDeleteDialog
      ensures original.Some? && events == old(events) + DeleteEvents(original.value)
    {
      events := events + [Delete(original.value.id)];
      showDeleteDialog := false;
      events := events + [Close];
    }

    /** "Cancel" in the confirmation dialog, or dismissing it: nothing is issued. */
    method CancelDelete()
      requires Valid()
      modifies this`showDeleteDialog
      ensures Valid() && !showDeleteDialog && events == old(events)
    {
      showDeleteDialog := false;
    }

    /** The form's own cancel button: close without saving. */
    method Cancel()
      requires Valid()
      modifies this`events
      ensures Valid()
      ensures events == old(events) + [Close]
    {
      events := events + [Close];
    }
  }
}
