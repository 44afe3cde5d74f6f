# Yoga class administration: search and form rules

A model of the two pieces of logic in the YogaAdmin Android app. The rest of the app is screen layout and
forwarding to storage.

- **The list screen's search.** `YogaClass.matchesSearchQuery(query, filter)` picks the record fields that a
  filter label consults: "Time", "Day of Week", "Teacher", or every searchable field for any other label,
  "All" included. It then tests those fields for the query, ignoring letter case. The screen shows the
  records that pass, in their stored order (`ClassSearch`, built on `IgnoreCase` and `Decimal`).
- **The class form.** It is seeded from the record being edited, or left empty for a new class. The submit
  button checks the seven required texts, builds a record and dispatches one insert or one update to the
  view-model, then closes the form. In edit mode, a confirmation dialog guards deletion
  (`ClassFormModel`).

The record is `YogaData.YogaClass`. Kotlin's property `type` is called `classType` here, because `type` is
a Dafny keyword. The view-model and the form's `onClose` callback are observed through one log of
`Event`s (`Insert`, `Update`, `Delete`, `Close`), kept in the order the form issues them. `ClassForm` is a
class whose fields are the form's mutable state, and its handlers are methods. Each handler's `ensures`
ties the new log to a pure function (`SubmitEvents`, `DeleteEvents`), and the lemmas state the promised
properties about those functions.

Case-insensitive matching is `IgnoreCase.ContainsIgnoringCase`: a scan that tries each start position.
`IgnoreCase.ContainsMeansOccurs` proves that it agrees with an independent definition ("the query occurs
at some position i"). `Decimal` models `Int.toString()` and `String.toInt()`, used for the id, capacity
and duration.

## Model

| member | source | states |
|---|---|---|
| IgnoreCase.ContainsMeansOccurs | app/src/main/java/com/example/yogaappadmin/screens/ClassListScreen.kt:173-183 | `contains(query, ignoreCase = true)` holds exactly when the query occurs at some position of the text, with characters compared by their lower-case form |
| IgnoreCase.ContainsMeansLowerSubstring | app/src/main/java/com/example/yogaappadmin/screens/ClassListScreen.kt:173-183 | ignoring case is the same as a plain substring test on the lower-cased text and the lower-cased query |
| IgnoreCase.ContainsIgnoresQueryCase | app/src/main/java/com/example/yogaappadmin/screens/ClassListScreen.kt:173-183 | two queries with the same lower-case form give the same answer on any text |
| ClassSearch.TimeFilterReadsOnlyTime | app/src/main/java/com/example/yogaappadmin/screens/ClassListScreen.kt:173 | under "Time", a record matches iff the query occurs in its time ignoring case; no other field is consulted |
| ClassSearch.DayFilterReadsOnlyDay | app/src/main/java/com/example/yogaappadmin/screens/ClassListScreen.kt:174 | under "Day of Week", a record matches iff the query occurs in its day of week; nothing else is consulted |
| ClassSearch.TeacherFilterReadsOnlyTeacher | app/src/main/java/com/example/yogaappadmin/screens/ClassListScreen.kt:175 | under "Teacher", a record matches iff the query occurs in its teacher; nothing else is consulted |
| ClassSearch.OtherFilterSearchesAllTexts | app/src/main/java/com/example/yogaappadmin/screens/ClassListScreen.kt:176-183 | any other label, "All" included, matches iff the query occurs in one of time, day, teacher, id, price, duration, type, or the description when present |
| ClassSearch.FieldFilterImpliesAll | app/src/main/java/com/example/yogaappadmin/screens/ClassListScreen.kt:173-183 | a match under "Time", "Day of Week" or "Teacher" is also a match under "All" |
| ClassSearch.DescriptionCountsOnlyWhenPresent | app/src/main/java/com/example/yogaappadmin/screens/ClassListScreen.kt:183 | the description adds a match only when it is present and contains the query; a record without one matches under "All" exactly as on its other fields |
| ClassSearch.EmptyQueryMatches | app/src/main/java/com/example/yogaappadmin/screens/ClassListScreen.kt:171-184 | the empty query matches every record under every label |
| ClassSearch.MatchIgnoresQueryCase | app/src/main/java/com/example/yogaappadmin/screens/ClassListScreen.kt:173-183 | changing the ASCII letter case of the query never changes whether a record matches |
| ClassSearch.FilterIsOrderedSelection | app/src/main/java/com/example/yogaappadmin/screens/ClassListScreen.kt:130-132 | the shown list takes records from strictly increasing positions, and a position is taken exactly when its record matches |
| ClassSearch.FilterMembership | app/src/main/java/com/example/yogaappadmin/screens/ClassListScreen.kt:130-132 | a record is shown iff it is stored and matches |
| ClassSearch.FilterEmptyQueryKeepsAll | app/src/main/java/com/example/yogaappadmin/screens/ClassListScreen.kt:130-132 | with an empty search box, the whole list is shown unchanged |
| ClassSearch.FieldFilterRefinesAll | app/src/main/java/com/example/yogaappadmin/screens/ClassListScreen.kt:130-132 | the list for a single-field label equals the "All" list filtered again by that label, so it is an ordered sub-list of it |
| ClassSearch.FilterIgnoresQueryCase | app/src/main/java/com/example/yogaappadmin/screens/ClassListScreen.kt:130-132 | the shown list does not depend on the letter case of the query |
| Decimal.NatToString | app/src/main/java/com/example/yogaappadmin/screens/ClassListScreen.kt:179 | the text that the "All" search matches for id and duration (ClassListScreen.kt:179 and 181) is a non-empty run of digits that reads back as the number and has no leading zero unless it is "0" |
| Decimal.IntStringRoundTrip | app/src/main/java/com/example/yogaappadmin/components/ClassForm.kt:271-272 | `toInt()` accepts the `toString()` text of every `Int` and gives the same value back |
| ClassFormModel.CreateFormStartsEmpty | app/src/main/java/com/example/yogaappadmin/components/ClassForm.kt:40-48 | a create form keeps id 0, has every text empty, and so cannot be submitted as it is |
| ClassFormModel.SeedThenBuildRoundTrip | app/src/main/java/com/example/yogaappadmin/components/ClassForm.kt:40-48 | submitting an edit form untouched rebuilds the edited record, provided its required texts are non-empty, its numbers fit an `Int` and its description is not "" |
| ClassFormModel.IncompleteSubmitDoesNothing | app/src/main/java/com/example/yogaappadmin/components/ClassForm.kt:262-264 | if any required text is empty, submit sets "Please fill all required field!" and issues nothing at all: no insert, update, delete or close |
| ClassFormModel.SubmitClosesIffComplete | app/src/main/java/com/example/yogaappadmin/components/ClassForm.kt:262-285 | a submit closes the form exactly once, as its last act, when every required text is filled, and never otherwise |
| ClassFormModel.CreateInsertsOnce | app/src/main/java/com/example/yogaappadmin/components/ClassForm.kt:266-280 | a valid create issues exactly one insert and no update or delete; the record has id 0 and the typed day, time, teacher and type |
| ClassFormModel.EditUpdatesOnce | app/src/main/java/com/example/yogaappadmin/components/ClassForm.kt:266-283 | a valid edit issues exactly one update and no insert or delete; the record keeps the edited record's id and carries the typed day, time, teacher and type |
| ClassFormModel.DescriptionIsOptional | app/src/main/java/com/example/yogaappadmin/components/ClassForm.kt:262-275 | the description never affects validation; it is stored as absent iff it is empty, and verbatim otherwise |
| ClassFormModel.ConfirmDeleteDeletesOnce | app/src/main/java/com/example/yogaappadmin/components/ClassForm.kt:88-94 | confirming in edit mode issues exactly one delete, of the edited record's id, no insert or update, and ends with a close |
| ClassFormModel.ClassForm.constructor | app/src/main/java/com/example/yogaappadmin/components/ClassForm.kt:40-56 | the texts are seeded from the edited record, or empty; the id is the record's, or 0; no error, dialog hidden, nothing issued |
| ClassFormModel.ClassForm.Edit | app/src/main/java/com/example/yogaappadmin/components/ClassForm.kt:146-250 | typing into one text field changes that text only; nothing is issued |
| ClassFormModel.ClassForm.PickDay | app/src/main/java/com/example/yogaappadmin/components/ClassForm.kt:134-138 | the weekday chosen in the date picker replaces the day text and nothing else |
| ClassFormModel.ClassForm.Submit | app/src/main/java/com/example/yogaappadmin/components/ClassForm.kt:258-285 | the log grows by exactly the submit's events (nothing, or one insert/update and a close), and the error text is set only on failure |
| ClassFormModel.ClassForm.OpenDeleteDialog | app/src/main/java/com/example/yogaappadmin/components/ClassForm.kt:67-80 | the delete button, available only in edit mode, shows the dialog; the form's invariant keeps the dialog closed outside edit mode |
| ClassFormModel.ClassForm.ConfirmDelete | app/src/main/java/com/example/yogaappadmin/components/ClassForm.kt:88-94 | confirming, possible only when editing, hides the dialog and issues exactly the edited record's delete followed by a close |
| ClassFormModel.ClassForm.CancelDelete | app/src/main/java/com/example/yogaappadmin/components/ClassForm.kt:100-105 | cancelling or dismissing the dialog only hides it; nothing is issued |
| ClassFormModel.ClassForm.Cancel | app/src/main/java/com/example/yogaappadmin/components/ClassForm.kt:293-297 | the form's cancel button only closes the form |

## Left out

- Compose layout, styling, keyboard hiding, scrolling and the list screen's own UI state (which form is open, the filter menu): these are user-interface behaviour only.
- `showDatePickerDialog` (ClassForm.kt:309-327) uses the Android dialog, `java.time.LocalDate` and locale-dependent weekday names. `PickDay` takes whatever weekday text the picker supplies.
- Price is kept as its displayed text, in the record and in the form. `price.toDouble()` on submit and `price.toString()` in search use floating-point parsing and formatting, which this model does not include. So typing "10" stores the text "10", where the app would store 10.0 and later display and search "10.0".
- ClassFormModel.ClassForm.Submit: requires that capacity and duration are texts `toInt()` accepts whenever the required fields are filled. In the app, other texts throw an unhandled exception, and that crash path is not modelled. The app's `price.toDouble()` (ClassForm.kt:273) also throws on a non-numeric price text, before any insert, update or close. The model instead stores such a price text verbatim and issues the dispatch and the close.
- Decimal.IntStringRoundTrip: only ASCII digits are modelled. Kotlin's `toInt()` also accepts other Unicode decimal digits.
- Case-insensitive matching folds ASCII letters only. Kotlin's full Unicode case mapping is not modelled.
- `YogaViewModel.kt` is not part of this model. Its methods only launch coroutines that forward to the local store and the cloud helper, whose code is not available. The form's calls to it appear as `Event`s in the log.
- The sync dialog, its network check and the sync call in ClassListScreen.kt:140-152 depend on the network and on the unseen cloud helper.
- Capacity is not searched, as in the app. Because `remember` has no key, the model assumes that each form instance is opened once, for one record. This is how the list screen uses it.
