/** The seed lists every session starts from, and what does and does not
    hold of them. Several consistency rules one would expect of a training
    ledger fail on this data; the lemmas below show which. */
module MockData {
  import opened Seqs
  import opened Model

  const Trainings: seq<Training> := [
    Training("t1", "Financial Literacy for Cooperatives", "2025-06-15", "Naga City Convention Center",
             "Atty. Maria Santos", "Basic Accounting", Num(100), "Upcoming"),
    Training("t2", "Good Governance in Cooperatives", "2025-07-01", "CDO Training Room",
             "Mr. John Dela Cruz", "Ethical Leadership", Num(50), "Upcoming"),
    Training("t3", "Digital Transformation for SMEs", "2025-05-20", "Online Webinar",
             "Ms. Sarah Lee", "E-commerce Strategies", Num(200), "Completed"),
    Training("t4", "Cooperative Law Updates", "2025-04-10", "City Hall Auditorium",
             "Atty. David Reyes", "Recent Legislation", Num(75), "Completed")
  ]

  const Officers: seq<Officer> := [
    Officer("officer-456", "Juan Dela Cruz", "Naga Farmers Coop", "Treasurer", "Compliant",
            [], ["t3", "t4"],
            [Certificate("cert1", "t3", "2025-05-25", "CERT-2025-001")]),
    Officer("officer-789", "Maria Clara", "Naga Fisherfolk Coop", "Secretary", "Non-compliant",
            ["Financial Literacy Training"], ["t4"], []),
    Officer("officer-101", "Pedro Penduko", "Naga Transport Coop", "Board Member", "Compliant",
            [], ["t1", "t2", "t3"],
            [Certificate("cert2", "t1", "2025-06-16", "CERT-2025-002")])
  ]

  const Attendance: seq<AttendanceRecord> := [
    AttendanceRecord("t3", "officer-456", "2025-05-20T09:00:00", true),
    AttendanceRecord("t4", "officer-456", "2025-04-10T09:15:00", true),
    AttendanceRecord("t4", "officer-789", "2025-04-10T09:20:00", true)
  ]

  /** The seed trainings are t1..t4, with distinct ids, positive capacities
      and a known status. */
  lemma SeedTrainingsWellFormed()
    ensures |Trainings| == 4
    ensures Trainings[0].id == "t1" && Trainings[1].id == "t2" && Trainings[2].id == "t3" && Trainings[3].id == "t4"
    ensures DistinctTrainingIds(Trainings)
    ensures forall i :: 0 <= i < |Trainings| ==> Trainings[i].capacity.Num? && Trainings[i].capacity.n > 0
    ensures forall i :: 0 <= i < |Trainings| ==> Trainings[i].status in {Upcoming, Completed}
  {
  }

  /** The seed officers have distinct ids. */
  lemma SeedOfficerIdsDistinct()
    ensures DistinctOfficerIds(Officers)
  {
  }

  /** Every seed record names a seed training and a seed officer, is marked
      present, and no (training, officer) pair is recorded twice. */
  lemma SeedAttendanceConsistent()
    ensures forall k :: 0 <= k < |Attendance| ==> HasTraining(Trainings, Attendance[k].trainingId)
    ensures forall k :: 0 <= k < |Attendance| ==> HasOfficer(Officers, Attendance[k].officerId)
    ensures forall k :: 0 <= k < |Attendance| ==> Attendance[k].isPresent
    ensures forall k, m :: 0 <= k < m < |Attendance| ==>
      (Attendance[k].trainingId, Attendance[k].officerId) != (Attendance[m].trainingId, Attendance[m].officerId)
  {
    assert Trainings[2].id == "t3" && Trainings[3].id == "t4";
    assert Officers[0].id == "officer-456" && Officers[1].id == "officer-789";
  }

  /** In the seed, an officer is "Compliant" exactly when no requirement is missing. */
  lemma SeedComplianceMatchesRequirements()
    ensures forall i :: 0 <= i < |Officers| ==>
      (Officers[i].complianceStatus == Compliant <==> |Officers[i].missingRequirements| == 0)
  {
  }

  /** Seed certificates have distinct ids and numbers, and each names a seed training. */
  lemma SeedCertificatesConsistent()
    ensures Officers[0].certificates[0].id != Officers[2].certificates[0].id
    ensures Officers[0].certificates[0].certificateNo != Officers[2].certificates[0].certificateNo
    ensures forall i, c :: 0 <= i < |Officers| && c in Officers[i].certificates ==> HasTraining(Trainings, c.trainingId)
  {
    assert Trainings[0].id == "t1" && Trainings[2].id == "t3";
  }

  /** The trainings an officer is credited with by present attendance records,
      collected record by record. */
  function PresentTrainings(recs: seq<AttendanceRecord>, officerId: string): (r: set<string>)
    ensures forall id :: id in r <==>
      exists k :: 0 <= k < |recs| && recs[k].officerId == officerId && recs[k].isPresent && recs[k].trainingId == id
    decreases |recs|
  {
    if |recs| == 0 then {}
    else
      var rest := PresentTrainings(recs[1..], officerId);
      if recs[0].officerId == officerId && recs[0].isPresent then {recs[0].trainingId} + rest else rest
  }

  /** `trainingsAttended` agrees with the present records of the officer. */
  predicate AttendedMatchesRecords(o: Officer, recs: seq<AttendanceRecord>)
  {
    (set id | id in o.trainingsAttended) == PresentTrainings(recs, o.id)
  }

  /** The attended lists agree with the records for officer-456 and officer-789 but
      not for officer-101, who is credited with t1, t2 and t3 with no record at all. */
  lemma SeedAttendedDrift()
    ensures AttendedMatchesRecords(Officers[0], Attendance)
    ensures AttendedMatchesRecords(Officers[1], Attendance)
    ensures !AttendedMatchesRecords(Officers[2], Attendance)
    ensures PresentTrainings(Attendance, Officers[2].id) == {}
  {
    var p456 := PresentTrainings(Attendance, "officer-456");
    assert "t3" in p456 by { assert Attendance[0].trainingId == "t3"; }
    assert "t4" in p456 by { assert Attendance[1].trainingId == "t4"; }
    forall id | id in p456 ensures id in {"t3", "t4"} {
      var k :| 0 <= k < |Attendance| && Attendance[k].officerId == "officer-456" && Attendance[k].trainingId == id;
      assert k == 0 || k == 1;
    }
    assert p456 == {"t3", "t4"};
    var p789 := PresentTrainings(Attendance, "officer-789");
    assert "t4" in p789 by { assert Attendance[2].trainingId == "t4"; }
    forall id | id in p789 ensures id == "t4" {
      var k :| 0 <= k < |Attendance| && Attendance[k].officerId == "officer-789" && Attendance[k].trainingId == id;
      assert k == 2;
    }
    assert p789 == {"t4"};
    assert Officers[2].id == "officer-101";
    var p101 := PresentTrainings(Attendance, "officer-101");
    assert forall k :: 0 <= k < |Attendance| ==> Attendance[k].officerId != "officer-101";
    assert p101 == {};
    var attended101 := set id | id in Officers[2].trainingsAttended;
    assert "t1" in attended101;
    assert attended101 != p101;
  }

  /** officer-101 holds a certificate for t1, which is still "Upcoming" and has no record. */
  lemma SeedCertificateWithoutAttendance()
    ensures Officers[2].certificates[0].trainingId == Trainings[0].id
    ensures Trainings[0].status == Upcoming
    ensures !Any(Attendance, RecordForTraining(Trainings[0].id))
  {
  }
}
