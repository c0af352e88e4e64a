/** The admin's attendance screen: which trainings can be selected, which
    officers have no record yet for the selected training (a value the screen
    computes but never renders), which records are shown, and when pressing
    "Record" emits a new attendance record. */
module AttendanceTracker {
  import opened Wrappers
  import opened Seqs
  import opened Model

  /** The screen's own state: the selected training id and the officer-id input. */
  datatype Tracker = Tracker(selectedTrainingId: string, currentOfficerId: string)

  const MissingInputAlert: string := "Please select a training and enter an Officer ID."
  const UnknownOfficerAlert: string := "Officer ID not found."

  /** A record exists for this training and officer. */
  predicate Recorded(recs: seq<AttendanceRecord>, trainingId: string, officerId: string)
  {
    Any(recs, RecordForPair(trainingId, officerId))
  }

  /** Typing into the officer-id field. */
  function EnterOfficerId(s: Tracker, text: string): Tracker
  {
    s.(currentOfficerId := text)
  }

  /** The training the selection refers to: the first with that id, if any. */
  function SelectedTraining(ts: seq<Training>, s: Tracker): (r: Option<Training>)
    ensures r.None? <==> !HasTraining(ts, s.selectedTrainingId)
    ensures r.Some? ==> exists k :: 0 <= k < |ts| && ts[k] == r.value && ts[k].id == s.selectedTrainingId
                                 && forall j :: 0 <= j < k ==> ts[j].id != s.selectedTrainingId
  {
    Find(ts, TrainingIdIs(s.selectedTrainingId))
  }

  /** With distinct ids, the selected training is the one carrying the selected id. */
  lemma SelectedTrainingUnique(ts: seq<Training>, s: Tracker, k: nat)
    requires DistinctTrainingIds(ts)
    requires k < |ts| && ts[k].id == s.selectedTrainingId
    ensures SelectedTraining(ts, s) == Some(ts[k])
  {
    FindOnly(ts, TrainingIdIs(s.selectedTrainingId), k);
  }

  /** An officer is still to be recorded for the training when no record for the pair exists. */
  function NotYetRecorded(recs: seq<AttendanceRecord>, trainingId: string): Officer -> bool
  {
    (o: Officer) => !Recorded(recs, trainingId, o.id)
  }

  /** `officersForSelectedTraining`: the officers with no record yet for the
      selected training. The screen computes it but never renders it or
      passes it anywhere. */
  function OfficersForSelectedTraining(os: seq<Officer>, recs: seq<AttendanceRecord>, s: Tracker): (r: seq<Officer>)
    ensures forall o :: o in r <==> o in os && !Recorded(recs, s.selectedTrainingId, o.id)
    ensures forall o: Officer :: multiset(r)[o] == if Recorded(recs, s.selectedTrainingId, o.id) then 0 else multiset(os)[o]
    ensures IsSubsequence(r, os)
  {
    Filter(os, NotYetRecorded(recs, s.selectedTrainingId))
  }

  /** The records listed under "Recorded Attendance". */
  function ShownRecords(recs: seq<AttendanceRecord>, s: Tracker): (r: seq<AttendanceRecord>)
    ensures forall rec :: multiset(r)[rec] == if rec.trainingId == s.selectedTrainingId then multiset(recs)[rec] else 0
    ensures IsSubsequence(r, recs)
  {
    Filter(recs, RecordForTraining(s.selectedTrainingId))
  }

  /** What pressing "Record" does: at most one record handed to the dashboard,
      at most one alert, and the screen's next state. */
  datatype Outcome = Outcome(emitted: Option<AttendanceRecord>, alert: Option<string>, tracker: Tracker)

  /** Pressing "Record" with the check-in time `now` (the clock is a parameter). */
  function RecordAttendance(s: Tracker, os: seq<Officer>, now: string): (r: Outcome)
    ensures r.emitted.Some? <==> s.selectedTrainingId != "" && s.currentOfficerId != "" && HasOfficer(os, s.currentOfficerId)
    ensures r.emitted.Some? ==> r.emitted.value == AttendanceRecord(s.selectedTrainingId, s.currentOfficerId, now, true)
    ensures r.alert.Some? <==> r.emitted.None?
    ensures r.alert == Some(MissingInputAlert) <==> s.selectedTrainingId == "" || s.currentOfficerId == ""
    ensures r.alert == Some(UnknownOfficerAlert) <==>
              s.selectedTrainingId != "" && s.currentOfficerId != "" && !HasOfficer(os, s.currentOfficerId)
    ensures r.tracker.selectedTrainingId == s.selectedTrainingId
    ensures r.tracker.currentOfficerId == if r.emitted.Some? then "" else s.currentOfficerId
  {
    if s.selectedTrainingId != "" && s.currentOfficerId != "" then
      if Any(os, OfficerIdIs(s.currentOfficerId)) then
        Outcome(Some(AttendanceRecord(s.selectedTrainingId, s.currentOfficerId, now, true)), None,
                s.(currentOfficerId := ""))
      else
        Outcome(None, Some(UnknownOfficerAlert), s)
    else
      Outcome(None, Some(MissingInputAlert), s)
  }

  /** The handler does not consult `officersForSelectedTraining`: an officer
      who already has a record for the selected training, and so is absent from
      that value, is recorded again. */
  lemma RecordIgnoresExistingRecords(s: Tracker, os: seq<Officer>, recs: seq<AttendanceRecord>, now: string, k: nat)
    requires s.selectedTrainingId != ""
    requires k < |os| && os[k].id == s.currentOfficerId && os[k].id != ""
    requires Recorded(recs, s.selectedTrainingId, os[k].id)
    ensures os[k] !in OfficersForSelectedTraining(os, recs, s)
    ensures RecordAttendance(s, os, now).emitted == Some(AttendanceRecord(s.selectedTrainingId, os[k].id, now, true))
  {
  }

  /** Nor does it check the selected id against the trainings, or their status:
      any non-empty selection with a known officer emits a record. This is a
      fact about the handler alone; the screen itself only offers upcoming
      trainings for selection. */
  lemma RecordIgnoresTrainings(s: Tracker, ts: seq<Training>, os: seq<Officer>, now: string)
    requires s.selectedTrainingId != "" && s.currentOfficerId != ""
    requires HasOfficer(os, s.currentOfficerId)
    requires forall t :: t in UpcomingTrainings(ts) ==> t.id != s.selectedTrainingId
    ensures RecordAttendance(s, os, now).emitted.Some?
  {
  }
}
