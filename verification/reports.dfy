/** The two reports of the admin's Reports screen, as projections of the
    three lists. They take the lists as values and return only rows, so
    generating a report cannot change trainings, officers or attendance. */
module Reports {
  import opened Wrappers
  import opened Strings
  import opened Seqs
  import opened Model

  const UnknownOfficer: string := "Unknown Officer"
  const NoAttendees: string := "No attendees"
  const NoneMissing: string := "None"
  const ListSeparator: string := ", "

  datatype AttendanceRow = AttendanceRow(id: string, title: string, date: string, totalAttendees: nat, attendeesList: string)

  datatype ComplianceRow = ComplianceRow(id: string, name: string, cooperative: string, status: string,
                                         missing: string, trainingsCompleted: nat)

  /** The name shown for a record: the first officer with the record's officer
      id, unless there is none or the name is empty. */
  function AttendeeName(os: seq<Officer>, rec: AttendanceRecord): (r: string)
    ensures r != ""
    ensures !HasOfficer(os, rec.officerId) ==> r == UnknownOfficer
    ensures forall k ::
      (0 <= k < |os| && os[k].id == rec.officerId &&
       forall j :: 0 <= j < k ==> os[j].id != rec.officerId) ==> r == OrElse(os[k].name, UnknownOfficer)
  {
    var name := match Find(os, OfficerIdIs(rec.officerId))
      case Some(o) => o.name
      case None => "";
    OrElse(name, UnknownOfficer)
  }

  function NameIn(os: seq<Officer>): AttendanceRecord -> string
  {
    rec => AttendeeName(os, rec)
  }

  /** The names listed for a training: one per record for it, in record order. */
  function Attendees(os: seq<Officer>, recs: seq<AttendanceRecord>, trainingId: string): (r: seq<string>)
    ensures |r| == Count(recs, RecordForTraining(trainingId))
    ensures forall i :: 0 <= i < |r| ==> r[i] != ""
    ensures forall i :: 0 <= i < |r| ==> r[i] == AttendeeName(os, Filter(recs, RecordForTraining(trainingId))[i])
  {
    Map(Filter(recs, RecordForTraining(trainingId)), NameIn(os))
  }

  /** One training's row of the attendance report. */
  function AttendanceRowFor(os: seq<Officer>, recs: seq<AttendanceRecord>, t: Training): (r: AttendanceRow)
    ensures r.id == t.id && r.title == t.title && r.date == t.date
    ensures r.totalAttendees == |set k: nat | k < |recs| && recs[k].trainingId == t.id|
    ensures r.totalAttendees == 0 ==> r.attendeesList == NoAttendees
    ensures r.totalAttendees > 0 ==> r.attendeesList != "" && r.attendeesList == Join(Attendees(os, recs, t.id), ListSeparator)
  {
    var names := Attendees(os, recs, t.id);
    CountIsPositionCount(recs, RecordForTraining(t.id));
    assert Positions(recs, RecordForTraining(t.id), |recs|) == set k: nat | k < |recs| && recs[k].trainingId == t.id;
    AttendanceRow(t.id, t.title, t.date, |names|, OrElse(Join(names, ListSeparator), NoAttendees))
  }

  function RowIn(os: seq<Officer>, recs: seq<AttendanceRecord>): Training -> AttendanceRow
  {
    t => AttendanceRowFor(os, recs, t)
  }

  /** The attendance report: one row per training, in training order. */
  function AttendanceReport(ts: seq<Training>, os: seq<Officer>, recs: seq<AttendanceRecord>): (r: seq<AttendanceRow>)
    ensures |r| == |ts|
    ensures forall i :: 0 <= i < |ts| ==> r[i] == AttendanceRowFor(os, recs, ts[i])
  {
    Map(ts, RowIn(os, recs))
  }

  /** The count ignores whether a record is marked present, and counts a
      repeated (training, officer) pair once per record. */
  lemma CountIgnoresPresence(os: seq<Officer>, t: Training, rec: AttendanceRecord)
    requires rec.trainingId == t.id && !rec.isPresent
    ensures AttendanceRowFor(os, [rec, rec], t).totalAttendees == 2
  {
    assert (set k: nat | k < 2 && [rec, rec][k].trainingId == t.id) == {0, 1};
  }

  /** The "No attendees" text is not reserved: an officer with that name yields
      a row with one attendee and the same text as an empty row. */
  lemma FallbackTextIsAmbiguous(t: Training, officerId: string, now: string)
    ensures var o := Officer(officerId, NoAttendees, "", "", Compliant, [], [], []);
            var row := AttendanceRowFor([o], [AttendanceRecord(t.id, officerId, now, true)], t);
            row.totalAttendees == 1 && row.attendeesList == NoAttendees
  {
    var o := Officer(officerId, NoAttendees, "", "", Compliant, [], [], []);
    var recs := [AttendanceRecord(t.id, officerId, now, true)];
    assert Filter(recs, RecordForTraining(t.id)) == recs;
    assert Find([o], OfficerIdIs(officerId)) == Some(o);
  }

  /** One officer's row of the compliance report: the stored status and
      attended list are reported as they are, never recomputed. */
  function ComplianceRowFor(o: Officer): (r: ComplianceRow)
    ensures r.id == o.id && r.name == o.name && r.cooperative == o.cooperative
    ensures r.status == o.complianceStatus
    ensures r.trainingsCompleted == |o.trainingsAttended|
    ensures |o.missingRequirements| == 0 || (|o.missingRequirements| == 1 && o.missingRequirements[0] == "") ==> r.missing == NoneMissing
    ensures !(|o.missingRequirements| == 0 || (|o.missingRequirements| == 1 && o.missingRequirements[0] == "")) ==>
              r.missing == Join(o.missingRequirements, ListSeparator)
  {
    ComplianceRow(o.id, o.name, o.cooperative, o.complianceStatus,
                  OrElse(Join(o.missingRequirements, ListSeparator), NoneMissing),
                  |o.trainingsAttended|)
  }

  /** The compliance report: one row per officer, in officer order. */
  function ComplianceReport(os: seq<Officer>): (r: seq<ComplianceRow>)
    ensures |r| == |os|
    ensures forall i :: 0 <= i < |os| ==> r[i] == ComplianceRowFor(os[i])
  {
    Map(os, ComplianceRowFor)
  }

  /** Two empty labels join to ", ", so "None" is shown only for no label or a
      single empty one. */
  lemma EmptyLabelsAreNotNone(o: Officer)
    requires o.missingRequirements == ["", ""]
    ensures ComplianceRowFor(o).missing == ListSeparator
  {
  }

  /** The status is not derived from the requirements: a "Compliant" officer with
      a missing requirement is reported as "Compliant". */
  lemma StatusNotRecomputed(o: Officer)
    requires o.complianceStatus == Compliant && o.missingRequirements == ["Financial Literacy Training"]
    ensures ComplianceRowFor(o).status == Compliant
    ensures ComplianceRowFor(o).missing == "Financial Literacy Training"
  {
  }
}
