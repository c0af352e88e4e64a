/** The admin's training form: opening it to add or to edit, saving it, and
    the delete confirmation. The screen does not change the list itself; it
    hands a command to the dashboard. `parseInt` is a parameter: the model
    only needs what it returns for the capacity text. */
module TrainingManagement {
  import opened Wrappers
  import opened Model

  /** The form's fields, all text as typed. */
  datatype Form = Form(title: string, date: string, venue: string, speaker: string, topic: string,
                       capacity: string, status: string)

  /** The modal's state: visible or not, the training being edited (none when adding), the form. */
  datatype Editor = Editor(visible: bool, current: Option<Training>, form: Form)

  /** What the screen asks the dashboard to do. */
  datatype Command = UpdateTraining(training: Training) | AddTraining(draft: TrainingDraft) | DeleteTraining(id: string)

  /** The answer to the delete confirmation; `Dismissed` is a tap outside the alert. */
  datatype Choice = CancelChoice | DeleteChoice | Dismissed

  const BlankForm: Form := Form("", "", "", "", "", "", Upcoming)

  /** "Add New Training": every text field empty, status "Upcoming", nothing being edited. */
  function OpenAdd(e: Editor): (r: Editor)
    ensures r.visible && r.current.None?
    ensures r.form.title == "" && r.form.date == "" && r.form.venue == "" && r.form.speaker == ""
    ensures r.form.topic == "" && r.form.capacity == "" && r.form.status == Upcoming
  {
    Editor(true, None, BlankForm)
  }

  /** The form filled from a training; capacity as its text. */
  function FormOf(t: Training): Form
  {
    Form(t.title, t.date, t.venue, t.speaker, t.topic, CapacityText(t.capacity), t.status)
  }

  /** "Edit" on a training. */
  function OpenEdit(e: Editor, t: Training): (r: Editor)
    ensures r.visible && r.current == Some(t)
    ensures r.form == FormOf(t)
  {
    Editor(true, Some(t), FormOf(t))
  }

  /** The draft a form describes: its text fields as typed, the capacity through `parseInt`. */
  function DraftOf(f: Form, parseInt: string -> Capacity): TrainingDraft
  {
    TrainingDraft(f.title, f.date, f.venue, f.speaker, f.topic, parseInt(f.capacity), f.status)
  }

  /** "Save": in edit mode the edited training overlaid with the form, its id kept
      because the form has none; in add mode the form alone, without an id. The
      modal closes either way; no field is checked. */
  function Save(e: Editor, parseInt: string -> Capacity): (r: (Editor, Command))
    ensures !r.0.visible && r.0.current == e.current && r.0.form == e.form
    ensures e.current.Some? ==> r.1.UpdateTraining? && r.1.training.id == e.current.value.id
    ensures e.current.None? ==> r.1.AddTraining?
    ensures r.1.UpdateTraining? || r.1.AddTraining?
    ensures var d := if r.1.UpdateTraining? then WithoutId(r.1.training) else r.1.draft;
            d == TrainingDraft(e.form.title, e.form.date, e.form.venue, e.form.speaker, e.form.topic,
                               parseInt(e.form.capacity), e.form.status)
  {
    var draft := DraftOf(e.form, parseInt);
    var cmd := match e.current
      case Some(t) => UpdateTraining(WithId(draft, t.id))
      case None => AddTraining(draft);
    (e.(visible := false), cmd)
  }

  /** Opening a training for edit and saving it unchanged gives back the same
      training, provided `parseInt` reads the capacity's own text back. */
  lemma {:induction false} EditSaveRoundTrip(e: Editor, t: Training, parseInt: string -> Capacity)
    requires parseInt(CapacityText(t.capacity)) == t.capacity
    ensures Save(OpenEdit(e, t), parseInt).1 == UpdateTraining(t)
  {
    var r := Save(OpenEdit(e, t), parseInt).1;
    assert WithoutId(r.training) == WithoutId(t);
  }

  /** Save accepts a blank form: the add command carries empty text and whatever
      `parseInt` makes of the empty capacity. */
  lemma SaveDoesNotValidate(e: Editor, parseInt: string -> Capacity)
    ensures Save(OpenAdd(e), parseInt).1 == AddTraining(TrainingDraft("", "", "", "", "", parseInt(""), Upcoming))
  {
  }

  /** "Delete" on a training: only the Delete answer forwards the id. */
  function HandleDelete(id: string, choice: Choice): (r: Option<Command>)
    ensures r.Some? <==> choice == DeleteChoice
    ensures r.Some? ==> r.value == DeleteTraining(id)
  {
    if choice == DeleteChoice then Some(DeleteTraining(id)) else None
  }
}
