/** The program builder (app/programs/page.tsx): the list of entries a coach
    edits before saving a program for a client. */
module ProgramsPage {
  import opened Records

  /** `addExercise`: one entry at the end with 3 sets of 10, 90 seconds of
      rest, and the old length as its order. */
  function AddExercise(entries: seq<ProgramEntry>, exercise: Exercise): (r: seq<ProgramEntry>)
    ensures |r| == |entries| + 1
    ensures r[..|entries|] == entries
    ensures r[|entries|].exerciseId == exercise.id && r[|entries|].exerciseName == exercise.name
    ensures r[|entries|].requiredEquipment == exercise.requiredEquipment
    ensures r[|entries|].sets == 3 && r[|entries|].reps == 10 && r[|entries|].restSeconds == 90
    ensures r[|entries|].order == |entries|
  {
    entries + [ProgramEntry(exercise.id, exercise.name, exercise.requiredEquipment, 3, 10, 90, |entries|)]
  }

  /** `removeExercise`: keeps every entry whose position differs from
      `index`; an index outside the list removes nothing. Orders are not
      renumbered. */
  function RemoveExercise(entries: seq<ProgramEntry>, index: int): (r: seq<ProgramEntry>)
    ensures 0 <= index < |entries| ==> |r| == |entries| - 1
    ensures !(0 <= index < |entries|) ==> r == entries
    ensures forall k :: 0 <= k < |r| ==> r[k] == (if 0 <= index <= k then entries[k + 1] else entries[k])
  {
    if 0 <= index < |entries| then entries[..index] + entries[index + 1..] else entries
  }

  /** Removing the entry just added gives the list back. */
  lemma RemoveUndoesAdd(entries: seq<ProgramEntry>, exercise: Exercise)
    ensures RemoveExercise(AddExercise(entries, exercise), |entries|) == entries
  {
  }

  /** Removal leaves the order fields as they were: after adding two
      exercises and removing the first, the one left still says order 1. */
  lemma RemoveKeepsOrderFields(a: Exercise, b: Exercise)
    ensures var r := RemoveExercise(AddExercise(AddExercise([], a), b), 0);
      |r| == 1 && r[0].exerciseId == b.id && r[0].order == 1
  {
  }

  /** The fields a coach edits on an entry. */
  datatype Field = Sets | Reps | RestSeconds

  function Get(e: ProgramEntry, f: Field): int {
    match f
    case Sets => e.sets
    case Reps => e.reps
    case RestSeconds => e.restSeconds
  }

  /** Entries that agree except possibly on field `f`. */
  predicate SameBut(a: ProgramEntry, b: ProgramEntry, f: Field) {
    && a.exerciseId == b.exerciseId
    && a.exerciseName == b.exerciseName
    && a.requiredEquipment == b.requiredEquipment
    && a.order == b.order
    && forall g: Field :: g != f ==> Get(a, g) == Get(b, g)
  }

  function Set(e: ProgramEntry, f: Field, value: int): (r: ProgramEntry)
    ensures Get(r, f) == value && SameBut(r, e, f)
  {
    match f
    case Sets => e.(sets := value)
    case Reps => e.(reps := value)
    case RestSeconds => e.(restSeconds := value)
  }

  /** `updateExercise`: only field `f` of the entry at `index` changes. An
      index outside the list throws before the list is replaced, so nothing
      changes. */
  function UpdateExercise(entries: seq<ProgramEntry>, index: int, f: Field, value: int): (r: seq<ProgramEntry>)
    ensures |r| == |entries|
    ensures forall k :: 0 <= k < |r| && k != index ==> r[k] == entries[k]
    ensures 0 <= index < |entries| ==> Get(r[index], f) == value && SameBut(r[index], entries[index], f)
    ensures !(0 <= index < |entries|) ==> r == entries
  {
    if 0 <= index < |entries| then entries[index := Set(entries[index], f, value)] else entries
  }

  /** Writing a field's current value changes nothing. */
  lemma UpdateWithSameValue(entries: seq<ProgramEntry>, index: int, f: Field)
    requires 0 <= index < |entries|
    ensures UpdateExercise(entries, index, f, Get(entries[index], f)) == entries
  {
    var e := entries[index];
    assert Set(e, f, Get(e, f)) == e by {
      match f
      case Sets =>
      case Reps =>
      case RestSeconds =>
    }
  }

  /** The second of two writes to one field wins. */
  lemma UpdateTwice(entries: seq<ProgramEntry>, index: int, f: Field, v1: int, v2: int)
    ensures UpdateExercise(UpdateExercise(entries, index, f, v1), index, f, v2) == UpdateExercise(entries, index, f, v2)
  {
    if 0 <= index < |entries| {
      var e := entries[index];
      assert Set(Set(e, f, v1), f, v2) == Set(e, f, v2) by {
        match f
        case Sets =>
        case Reps =>
        case RestSeconds =>
      }
    }
  }

  /** The builder's form. */
  datatype Form = Form(selectedClient: Option<string>, name: string, entries: seq<ProgramEntry>)

  /** The row a save inserts. */
  datatype ProgramInsert = ProgramInsert(clientId: string, name: string, exercises: seq<ProgramEntry>)

  datatype SaveOutcome = SaveOutcome(form: Form, insert: Option<ProgramInsert>, notice: string)

  /** `saveProgram`: needs a client, a name and at least one entry. A
      successful insert clears the form; a failed one (`insertError`) keeps
      it. */
  function SaveProgram(form: Form, insertError: Option<string>): (o: SaveOutcome)
    ensures o.insert.Some? <==> form.selectedClient.Some? && form.name != "" && |form.entries| > 0
    ensures o.insert.Some? ==> o.insert.value == ProgramInsert(form.selectedClient.value, form.name, form.entries)
    ensures o.insert.Some? && insertError.None? ==> o.form == Form(None, "", [])
    ensures o.insert.None? || insertError.Some? ==> o.form == form
  {
    if form.selectedClient.None? || form.name == "" || |form.entries| == 0 then
      SaveOutcome(form, None, "Please select client, enter program name, and add exercises")
    else
      var row := ProgramInsert(form.selectedClient.value, form.name, form.entries);
      match insertError
      case Some(message) => SaveOutcome(form, Some(row), "Failed to save program: " + message)
      case None => SaveOutcome(Form(None, "", []), Some(row), "Program saved successfully!")
  }

  /** A save that went through leaves a form that cannot be saved again
      until it is filled in anew, whatever the store would answer. */
  lemma SavedFormNotResaved(form: Form, insertError: Option<string>)
    requires SaveProgram(form, None).insert.Some?
    ensures var again := SaveProgram(SaveProgram(form, None).form, insertError);
      again.insert.None? && again.form == Form(None, "", [])
  {
  }

  /** A failed save can be retried: the kept form yields the same row. */
  lemma FailedSaveRetries(form: Form, message: string, insertError: Option<string>)
    ensures SaveProgram(SaveProgram(form, Some(message)).form, insertError).insert
      == SaveProgram(form, insertError).insert
  {
  }
}
