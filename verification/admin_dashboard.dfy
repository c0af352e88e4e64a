/** The admin dashboard owns the app's three lists and the only operations
    that change them: replace-by-id, append with a generated id, delete by
    id and unconditional append. None of them checks for duplicates, for a
    missing id or for records that refer to a deleted training. */
module AdminDashboard {
  import opened Wrappers
  import opened Strings
  import opened Seqs
  import opened Model
  import MockData
  import AttendanceTracker
  import TrainingManagement

  /** The three lists the dashboard holds. */
  datatype Ledger = Ledger(trainings: seq<Training>, officers: seq<Officer>, attendance: seq<AttendanceRecord>)

  /** The lists start as the seed data. */
  function Initial(): Ledger
  {
    Ledger(MockData.Trainings, MockData.Officers, MockData.Attendance)
  }

  /** `updateTraining`: every training with the update's id becomes the update. */
  function UpdateTraining(l: Ledger, u: Training): (r: Ledger)
    ensures |r.trainings| == |l.trainings|
    ensures forall i :: 0 <= i < |l.trainings| ==> r.trainings[i] == if l.trainings[i].id == u.id then u else l.trainings[i]
    ensures r.officers == l.officers && r.attendance == l.attendance
  {
    l.(trainings := ReplaceWhere(l.trainings, TrainingIdIs(u.id), u))
  }

  /** An update whose id no training has changes nothing, and reports nothing. */
  lemma UpdateTrainingUnknownId(l: Ledger, u: Training)
    requires !HasTraining(l.trainings, u.id)
    ensures UpdateTraining(l, u) == l
  {
    ReplaceWhereNothingSelected(l.trainings, TrainingIdIs(u.id), u);
  }

  /** An update keeps every position's id, so distinct ids stay distinct;
      updating twice is updating once. */
  lemma UpdateTrainingKeepsIds(l: Ledger, u: Training)
    ensures forall i :: 0 <= i < |l.trainings| ==> UpdateTraining(l, u).trainings[i].id == l.trainings[i].id
    ensures DistinctTrainingIds(l.trainings) ==> DistinctTrainingIds(UpdateTraining(l, u).trainings)
    ensures UpdateTraining(UpdateTraining(l, u), u) == UpdateTraining(l, u)
  {
    ReplaceWhereIdempotent(l.trainings, TrainingIdIs(u.id), u);
  }

  /** The id `addTraining` would give the `n`-th training: "t" followed by `n` in decimal. */
  function GeneratedTrainingId(n: nat): string
  {
    "t" + Decimal(n)
  }

  /** Each training's id is the one its position would be generated with. */
  ghost predicate CanonicalTrainingIds(ts: seq<Training>)
  {
    forall i :: 0 <= i < |ts| ==> ts[i].id == GeneratedTrainingId(i + 1)
  }

  /** Ids generated for different positions differ. */
  lemma GeneratedIdsDiffer(a: nat, b: nat)
    requires a != b
    ensures GeneratedTrainingId(a) != GeneratedTrainingId(b)
  {
    if GeneratedTrainingId(a) == GeneratedTrainingId(b) {
      assert Decimal(a) == GeneratedTrainingId(a)[1..];
      assert Decimal(b) == GeneratedTrainingId(b)[1..];
      DecimalInjective(a, b);
    }
  }

  /** A list whose ids follow the generation scheme has no repeated id. */
  lemma CanonicalIdsAreDistinct(ts: seq<Training>)
    requires CanonicalTrainingIds(ts)
    ensures DistinctTrainingIds(ts)
  {
    forall i, j | 0 <= i < j < |ts|
      ensures ts[i].id != ts[j].id
    {
      GeneratedIdsDiffer(i + 1, j + 1);
    }
  }

  /** The seed trainings are numbered as `addTraining` would have numbered them. */
  lemma SeedIdsCanonical()
    ensures CanonicalTrainingIds(MockData.Trainings)
  {
    MockData.SeedTrainingsWellFormed();
    assert Decimal(1) == "1" && Decimal(2) == "2" && Decimal(3) == "3" && Decimal(4) == "4";
  }

  /** The id `addTraining` generates: "t" followed by the new length. */
  function NextTrainingId(ts: seq<Training>): string
  {
    GeneratedTrainingId(|ts| + 1)
  }

  /** `addTraining`: appends the draft with the generated id. */
  function AddTraining(l: Ledger, d: TrainingDraft): (r: Ledger)
    ensures |r.trainings| == |l.trainings| + 1
    ensures r.trainings[..|l.trainings|] == l.trainings
    ensures WithoutId(r.trainings[|l.trainings|]) == d
    ensures r.trainings[|l.trainings|].id == NextTrainingId(l.trainings)
    ensures r.officers == l.officers && r.attendance == l.attendance
  {
    l.(trainings := l.trainings + [WithId(d, NextTrainingId(l.trainings))])
  }

  /** As long as trainings are only added, ids follow the scheme and stay distinct. */
  lemma AddKeepsCanonicalIds(l: Ledger, d: TrainingDraft)
    requires CanonicalTrainingIds(l.trainings)
    ensures CanonicalTrainingIds(AddTraining(l, d).trainings)
    ensures DistinctTrainingIds(AddTraining(l, d).trainings)
  {
    CanonicalIdsAreDistinct(AddTraining(l, d).trainings);
  }

  /** `deleteTraining`: drops every training with the id, keeping the others in
      order; officers and attendance are left as they are. */
  function DeleteTraining(l: Ledger, id: string): (r: Ledger)
    ensures forall t :: t in r.trainings <==> t in l.trainings && t.id != id
    ensures forall t: Training :: t.id != id ==> multiset(r.trainings)[t] == multiset(l.trainings)[t]
    ensures IsSubsequence(r.trainings, l.trainings)
    ensures r.officers == l.officers && r.attendance == l.attendance
  {
    l.(trainings := Filter(l.trainings, TrainingIdIsNot(id)))
  }

  /** Deleting does not cascade: a record for the deleted training stays and
      now refers to no training. */
  lemma DeleteLeavesDanglingRecords(l: Ledger, id: string, k: nat)
    requires k < |l.attendance| && l.attendance[k].trainingId == id
    ensures DeleteTraining(l, id).attendance[k] == l.attendance[k]
    ensures !HasTraining(DeleteTraining(l, id).trainings, l.attendance[k].trainingId)
  {
  }

  /** Deleting keeps distinct ids distinct. */
  lemma DeleteKeepsDistinctIds(l: Ledger, id: string)
    requires DistinctTrainingIds(l.trainings)
    ensures DistinctTrainingIds(DeleteTraining(l, id).trainings)
  {
    SubsequenceKeepsDistinct(DeleteTraining(l, id).trainings, l.trainings, TrainingId);
  }

  /** With ids t1..tn, deleting t1 leaves t2..tn. */
  lemma DeleteFirstCanonical(l: Ledger)
    requires CanonicalTrainingIds(l.trainings) && |l.trainings| >= 1
    ensures DeleteTraining(l, l.trainings[0].id).trainings == l.trainings[1..]
  {
    var ts := l.trainings;
    forall i | 0 < i < |ts| ensures ts[i].id != ts[0].id {
      GeneratedIdsDiffer(1, i + 1);
    }
    FilterDropsHead(ts, TrainingIdIsNot(ts[0].id));
  }

  /** With ids t1..tn (n >= 2), deleting t1 and then adding gives two trainings with id tn. */
  lemma DeleteThenAddCollides(l: Ledger, d: TrainingDraft)
    requires CanonicalTrainingIds(l.trainings) && |l.trainings| >= 2
    ensures var r := AddTraining(DeleteTraining(l, l.trainings[0].id), d);
            var n := |l.trainings|;
            |r.trainings| == n && r.trainings[n - 2].id == GeneratedTrainingId(n)
            && r.trainings[n - 1].id == GeneratedTrainingId(n)
            && !DistinctTrainingIds(r.trainings)
  {
    DeleteFirstCanonical(l);
    var r := AddTraining(DeleteTraining(l, l.trainings[0].id), d);
    var n := |l.trainings|;
    assert r.trainings[n - 2] == l.trainings[n - 1];
  }

  /** The four-training case with the ids written out. */
  lemma DeleteThenAddCollidesFour(l: Ledger, d: TrainingDraft)
    requires CanonicalTrainingIds(l.trainings) && |l.trainings| == 4
    ensures var r := AddTraining(DeleteTraining(l, "t1"), d);
            |r.trainings| == 4 && r.trainings[2].id == "t4" && r.trainings[3].id == "t4"
  {
    assert GeneratedTrainingId(1) == "t1" && GeneratedTrainingId(4) == "t4";
    DeleteThenAddCollides(l, d);
  }

  /** From the seed: delete t1, add a training, and t4 appears twice. */
  lemma SeedDeleteThenAddCollides(d: TrainingDraft)
    ensures var r := AddTraining(DeleteTraining(Initial(), "t1"), d);
            |r.trainings| == 4 && r.trainings[2].id == "t4" && r.trainings[3].id == "t4"
  {
    SeedIdsCanonical();
    DeleteThenAddCollidesFour(Initial(), d);
  }

  /** `updateOfficer`: the same replace-by-id as for trainings. */
  function UpdateOfficer(l: Ledger, u: Officer): (r: Ledger)
    ensures |r.officers| == |l.officers|
    ensures forall i :: 0 <= i < |l.officers| ==> r.officers[i] == if l.officers[i].id == u.id then u else l.officers[i]
    ensures r.trainings == l.trainings && r.attendance == l.attendance
  {
    l.(officers := ReplaceWhere(l.officers, OfficerIdIs(u.id), u))
  }

  /** An officer update with an unknown id changes nothing; ids are kept. */
  lemma UpdateOfficerKeepsIds(l: Ledger, u: Officer)
    ensures !HasOfficer(l.officers, u.id) ==> UpdateOfficer(l, u) == l
    ensures forall i :: 0 <= i < |l.officers| ==> UpdateOfficer(l, u).officers[i].id == l.officers[i].id
    ensures DistinctOfficerIds(l.officers) ==> DistinctOfficerIds(UpdateOfficer(l, u).officers)
  {
    if !HasOfficer(l.officers, u.id) {
      ReplaceWhereNothingSelected(l.officers, OfficerIdIs(u.id), u);
    }
  }

  /** `addAttendanceRecord`: appends the record, whatever it is. */
  function AddAttendanceRecord(l: Ledger, rec: AttendanceRecord): (r: Ledger)
    ensures |r.attendance| == |l.attendance| + 1 && r.attendance[..|l.attendance|] == l.attendance
    ensures r.attendance[|l.attendance|] == rec
    ensures r.trainings == l.trainings && r.officers == l.officers
  {
    l.(attendance := l.attendance + [rec])
  }

  /** How many records there are for a (training, officer) pair. */
  function PairCount(recs: seq<AttendanceRecord>, trainingId: string, officerId: string): nat
  {
    Count(recs, RecordForPair(trainingId, officerId))
  }

  /** Appending a record adds one to its own pair's count, so a pair already
      recorded is recorded twice. */
  lemma AddAttendanceCountsPair(l: Ledger, rec: AttendanceRecord)
    ensures PairCount(AddAttendanceRecord(l, rec).attendance, rec.trainingId, rec.officerId)
            == PairCount(l.attendance, rec.trainingId, rec.officerId) + 1
  {
    FilterAppend(l.attendance, [rec], RecordForPair(rec.trainingId, rec.officerId));
  }

  /** "Total Trainings": the number of entries in the list. It never falls
      below the number of different training ids, and it equals that number
      exactly when ids are distinct, so after an id collision it overcounts. */
  function TotalTrainings(l: Ledger): (n: nat)
    ensures |Keys(l.trainings, TrainingId)| <= n
    ensures n == |Keys(l.trainings, TrainingId)| <==> DistinctTrainingIds(l.trainings)
  {
    KeysCount(l.trainings, TrainingId);
    |l.trainings|
  }

  /** "Registered Officers": the number of entries in the list, related to
      the number of different officer ids as for trainings. */
  function RegisteredOfficers(l: Ledger): (n: nat)
    ensures |Keys(l.officers, OfficerId)| <= n
    ensures n == |Keys(l.officers, OfficerId)| <==> DistinctOfficerIds(l.officers)
  {
    KeysCount(l.officers, OfficerId);
    |l.officers|
  }

  /** From the seed, deleting t1 and then adding makes "Total Trainings" show
      more trainings than there are different ids. */
  lemma SeedDeleteThenAddOvercounts(d: TrainingDraft)
    ensures var r := AddTraining(DeleteTraining(Initial(), "t1"), d);
            TotalTrainings(r) > |Keys(r.trainings, TrainingId)|
  {
    var r := AddTraining(DeleteTraining(Initial(), "t1"), d);
    SeedDeleteThenAddCollides(d);
    assert TrainingId(r.trainings[2]) == TrainingId(r.trainings[3]);
    assert !DistinctTrainingIds(r.trainings);
  }

  /** "Non-Compliant Officers": the number of officers whose stored status is "Non-compliant". */
  function NonCompliantCount(l: Ledger): (n: nat)
    ensures n == |set i: nat | i < |l.officers| && l.officers[i].complianceStatus == NonCompliant|
  {
    CountIsPositionCount(l.officers, OfficerStatusIs(NonCompliant));
    assert Positions(l.officers, OfficerStatusIs(NonCompliant), |l.officers|)
        == set i: nat | i < |l.officers| && l.officers[i].complianceStatus == NonCompliant;
    Count(l.officers, OfficerStatusIs(NonCompliant))
  }

  /** The seed overview: 4 trainings, 3 officers, 1 non-compliant. */
  lemma SeedOverview()
    ensures TotalTrainings(Initial()) == 4 && RegisteredOfficers(Initial()) == 3
    ensures NonCompliantCount(Initial()) == 1
  {
    var os := MockData.Officers;
    assert (set i: nat | i < |os| && os[i].complianceStatus == NonCompliant) == {1};
  }

  /** Routes a command from the training form to the matching list operation. */
  function ApplyTrainingCommand(l: Ledger, c: TrainingManagement.Command): (r: Ledger)
    ensures c.UpdateTraining? ==> r == UpdateTraining(l, c.training)
    ensures c.AddTraining? ==> r == AddTraining(l, c.draft)
    ensures c.DeleteTraining? ==> r == DeleteTraining(l, c.id)
  {
    match c
    case UpdateTraining(t) => UpdateTraining(l, t)
    case AddTraining(d) => AddTraining(l, d)
    case DeleteTraining(id) => DeleteTraining(l, id)
  }

  /** The command an unchanged edit-save of the training at `k` sends. */
  function EditSaveCommand(l: Ledger, e: TrainingManagement.Editor, k: nat, parseInt: string -> Capacity): TrainingManagement.Command
    requires k < |l.trainings|
  {
    TrainingManagement.Save(TrainingManagement.OpenEdit(e, l.trainings[k]), parseInt).1
  }

  /** Editing a listed training and saving without changes writes that training
      over every training sharing its id, and leaves everything else as it was
      (given that `parseInt` reads the capacity text back). */
  lemma EditSaveOverwritesSameId(l: Ledger, e: TrainingManagement.Editor, k: nat, parseInt: string -> Capacity)
    requires k < |l.trainings|
    requires parseInt(CapacityText(l.trainings[k].capacity)) == l.trainings[k].capacity
    ensures var r := ApplyTrainingCommand(l, EditSaveCommand(l, e, k, parseInt));
            |r.trainings| == |l.trainings| && r.officers == l.officers && r.attendance == l.attendance
            && forall i :: 0 <= i < |l.trainings| ==>
                 r.trainings[i] == if l.trainings[i].id == l.trainings[k].id then l.trainings[k] else l.trainings[i]
  {
    TrainingManagement.EditSaveRoundTrip(e, l.trainings[k], parseInt);
  }

  /** An unchanged edit-save leaves the lists as they were exactly when every
      training sharing the edited one's id is equal to it; with distinct ids
      that always holds. */
  lemma EditSaveKeepsLedger(l: Ledger, e: TrainingManagement.Editor, k: nat, parseInt: string -> Capacity)
    requires k < |l.trainings|
    requires parseInt(CapacityText(l.trainings[k].capacity)) == l.trainings[k].capacity
    ensures ApplyTrainingCommand(l, EditSaveCommand(l, e, k, parseInt)) == l
            <==> forall j :: 0 <= j < |l.trainings| && l.trainings[j].id == l.trainings[k].id ==> l.trainings[j] == l.trainings[k]
    ensures DistinctTrainingIds(l.trainings) ==> ApplyTrainingCommand(l, EditSaveCommand(l, e, k, parseInt)) == l
  {
    EditSaveOverwritesSameId(l, e, k, parseInt);
    var r := ApplyTrainingCommand(l, EditSaveCommand(l, e, k, parseInt));
    if r == l {
      forall j | 0 <= j < |l.trainings| && l.trainings[j].id == l.trainings[k].id
        ensures l.trainings[j] == l.trainings[k]
      {
        assert r.trainings[j] == l.trainings[k];
      }
    }
  }

  /** Once two different trainings share an id (as after a delete and an add),
      an unchanged edit-save of the second overwrites the first with it. */
  lemma EditSaveAfterCollision(l: Ledger, e: TrainingManagement.Editor, a: Training, b: Training, parseInt: string -> Capacity)
    requires l.trainings == [a, b] && a.id == b.id && a != b
    requires parseInt(CapacityText(b.capacity)) == b.capacity
    ensures ApplyTrainingCommand(l, EditSaveCommand(l, e, 1, parseInt)).trainings == [b, b]
  {
    EditSaveOverwritesSameId(l, e, 1, parseInt);
  }

  /** With distinct ids, saving the form of the training at `k` (whatever was
      typed) changes that training's fields to the form's and nothing else: its
      id, the other trainings and the other two lists stay as they were. */
  lemma EditSaveChangesOnlyEdited(l: Ledger, e: TrainingManagement.Editor, k: nat, parseInt: string -> Capacity)
    requires DistinctTrainingIds(l.trainings)
    requires k < |l.trainings| && e.current == Some(l.trainings[k])
    ensures var r := ApplyTrainingCommand(l, TrainingManagement.Save(e, parseInt).1);
            && |r.trainings| == |l.trainings|
            && r.trainings[k] == WithId(TrainingManagement.DraftOf(e.form, parseInt), l.trainings[k].id)
            && (forall i :: 0 <= i < |l.trainings| && i != k ==> r.trainings[i] == l.trainings[i])
            && r.officers == l.officers && r.attendance == l.attendance
  {
    var c := TrainingManagement.Save(e, parseInt).1;
    assert c == TrainingManagement.UpdateTraining(WithId(TrainingManagement.DraftOf(e.form, parseInt), l.trainings[k].id));
  }

  /** The corrected add followed by any edit-save changes only the edited training. */
  lemma FreshAddThenEditChangesOnlyEdited(l: Ledger, d: TrainingDraft, e: TrainingManagement.Editor, k: nat,
                                          parseInt: string -> Capacity)
    requires DistinctTrainingIds(l.trainings)
    requires k <= |l.trainings| && e.current == Some(AddTrainingFresh(l, d).trainings[k])
    ensures var l1 := AddTrainingFresh(l, d);
            var r := ApplyTrainingCommand(l1, TrainingManagement.Save(e, parseInt).1);
            && |r.trainings| == |l1.trainings|
            && r.trainings[k] == WithId(TrainingManagement.DraftOf(e.form, parseInt), l1.trainings[k].id)
            && (forall i :: 0 <= i < |l1.trainings| && i != k ==> r.trainings[i] == l1.trainings[i])
            && r.officers == l1.officers && r.attendance == l1.attendance
  {
    EditSaveChangesOnlyEdited(AddTrainingFresh(l, d), e, k, parseInt);
  }

  /** With the corrected add, distinct ids stay distinct, so an unchanged
      edit-save after it leaves the lists as they were. */
  lemma FreshAddThenEditKeepsLedger(l: Ledger, d: TrainingDraft, e: TrainingManagement.Editor, k: nat, parseInt: string -> Capacity)
    requires DistinctTrainingIds(l.trainings)
    requires k <= |l.trainings|
    requires parseInt(CapacityText(AddTrainingFresh(l, d).trainings[k].capacity)) == AddTrainingFresh(l, d).trainings[k].capacity
    ensures var l1 := AddTrainingFresh(l, d);
            ApplyTrainingCommand(l1, EditSaveCommand(l1, e, k, parseInt)) == l1
  {
    EditSaveKeepsLedger(AddTrainingFresh(l, d), e, k, parseInt);
  }

  /** Pressing "Record" on the attendance screen, with the dashboard appending
      whatever record is emitted. */
  function RecordAttendance(l: Ledger, s: AttendanceTracker.Tracker, now: string): (r: (Ledger, AttendanceTracker.Tracker))
    ensures var out := AttendanceTracker.RecordAttendance(s, l.officers, now);
            r.0 == (if out.emitted.Some? then AddAttendanceRecord(l, out.emitted.value) else l) && r.1 == out.tracker
  {
    var out := AttendanceTracker.RecordAttendance(s, l.officers, now);
    match out.emitted
    case Some(rec) => (AddAttendanceRecord(l, rec), out.tracker)
    case None => (l, out.tracker)
  }

  /** Recording the same officer twice for the same training, re-entering the
      id in between, leaves two more records for the pair: nothing rejects the
      duplicate. */
  lemma RecordTwiceDuplicates(l: Ledger, s: AttendanceTracker.Tracker, now1: string, now2: string)
    requires s.selectedTrainingId != "" && s.currentOfficerId != ""
    requires HasOfficer(l.officers, s.currentOfficerId)
    ensures var (l1, s1) := RecordAttendance(l, s, now1);
            var (l2, _) := RecordAttendance(l1, AttendanceTracker.EnterOfficerId(s1, s.currentOfficerId), now2);
            PairCount(l2.attendance, s.selectedTrainingId, s.currentOfficerId)
              == PairCount(l.attendance, s.selectedTrainingId, s.currentOfficerId) + 2
  {
    var (l1, s1) := RecordAttendance(l, s, now1);
    AddAttendanceCountsPair(l, AttendanceRecord(s.selectedTrainingId, s.currentOfficerId, now1, true));
    AddAttendanceCountsPair(l1, AttendanceRecord(s.selectedTrainingId, s.currentOfficerId, now2, true));
  }

  // The corrected id scheme (see Findings in the README): number a new training
  // one past the largest number any "t<digits>" id carries.

  /** The number in an id of the form "t<digits>", and 0 for any other id. */
  function IdNumber(id: string): nat
  {
    if 2 <= |id| && id[0] == 't' && AllDigits(id[1..]) then ParseDecimal(id[1..]) else 0
  }

  lemma IdNumberOfGenerated(n: nat)
    ensures IdNumber(GeneratedTrainingId(n)) == n
  {
    var id := GeneratedTrainingId(n);
    assert id[1..] == Decimal(n);
    ParseDecimalOfDecimal(n);
  }

  /** The largest number carried by an id in the list. */
  function MaxIdNumber(ts: seq<Training>): (m: nat)
    ensures forall i :: 0 <= i < |ts| ==> IdNumber(ts[i].id) <= m
  {
    if |ts| == 0 then 0
    else
      var m := MaxIdNumber(ts[..|ts| - 1]);
      var last := IdNumber(ts[|ts| - 1].id);
      if last > m then last else m
  }

  /** A fresh id: one past the largest number in use. */
  function FreshTrainingId(ts: seq<Training>): (id: string)
    ensures forall i :: 0 <= i < |ts| ==> ts[i].id != id
  {
    var n := MaxIdNumber(ts) + 1;
    IdNumberOfGenerated(n);
    GeneratedTrainingId(n)
  }

  /** `addTraining` with the fresh id: distinct ids stay distinct, whatever was deleted before. */
  function AddTrainingFresh(l: Ledger, d: TrainingDraft): (r: Ledger)
    ensures |r.trainings| == |l.trainings| + 1 && r.trainings[..|l.trainings|] == l.trainings
    ensures WithoutId(r.trainings[|l.trainings|]) == d
    ensures forall i :: 0 <= i < |l.trainings| ==> r.trainings[|l.trainings|].id != l.trainings[i].id
    ensures DistinctTrainingIds(l.trainings) ==> DistinctTrainingIds(r.trainings)
    ensures r.officers == l.officers && r.attendance == l.attendance
  {
    l.(trainings := l.trainings + [WithId(d, FreshTrainingId(l.trainings))])
  }

  /** On lists numbered t1..tn the fresh id is the generated one, so the
      correction only differs once something has been deleted. */
  lemma {:induction false} FreshIdAgreesOnCanonical(ts: seq<Training>)
    requires CanonicalTrainingIds(ts)
    ensures MaxIdNumber(ts) == |ts|
    ensures FreshTrainingId(ts) == NextTrainingId(ts)
    decreases |ts|
  {
    if |ts| > 0 {
      FreshIdAgreesOnCanonical(ts[..|ts| - 1]);
      IdNumberOfGenerated(|ts|);
    }
  }

  /** From the seed, deleting t1 and adding with the fresh id keeps ids distinct. */
  lemma SeedDeleteThenAddFreshDistinct(d: TrainingDraft)
    ensures DistinctTrainingIds(AddTrainingFresh(DeleteTraining(Initial(), "t1"), d).trainings)
  {
    MockData.SeedTrainingsWellFormed();
    DeleteKeepsDistinctIds(Initial(), "t1");
  }
}
