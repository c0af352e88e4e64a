/** The record shapes held in the app's three in-memory lists (trainings,
    officers, attendance), with the status strings the screens compare
    against. Fields are plain strings as in the JavaScript objects: the app
    never validates a status, a date or an id. */
module Model {
  import opened Strings
  import opened Seqs

  /** A training's capacity: a number, or NaN when the capacity text did not parse. */
  datatype Capacity = Num(n: int) | NaN

  datatype Training = Training(
    id: string,
    title: string,
    date: string,
    venue: string,
    speaker: string,
    topic: string,
    capacity: Capacity,
    status: string)

  /** A training as the add form sends it: every field but the id. */
  datatype TrainingDraft = TrainingDraft(
    title: string,
    date: string,
    venue: string,
    speaker: string,
    topic: string,
    capacity: Capacity,
    status: string)

  datatype Certificate = Certificate(id: string, trainingId: string, issueDate: string, certificateNo: string)

  datatype Officer = Officer(
    id: string,
    name: string,
    cooperative: string,
    position: string,
    complianceStatus: string,
    missingRequirements: seq<string>,
    trainingsAttended: seq<string>,
    certificates: seq<Certificate>)

  datatype AttendanceRecord = AttendanceRecord(trainingId: string, officerId: string, checkinTime: string, isPresent: bool)

  const Upcoming: string := "Upcoming"
  const Completed: string := "Completed"
  const Compliant: string := "Compliant"
  const NonCompliant: string := "Non-compliant"

  /** `{ ...draft, id }` */
  function WithId(d: TrainingDraft, id: string): (t: Training)
    ensures t.id == id
    ensures WithoutId(t) == d
  {
    Training(id, d.title, d.date, d.venue, d.speaker, d.topic, d.capacity, d.status)
  }

  /** Every field of a training but its id. */
  function WithoutId(t: Training): TrainingDraft
  {
    TrainingDraft(t.title, t.date, t.venue, t.speaker, t.topic, t.capacity, t.status)
  }

  /** `String(capacity)`: the decimal text of a number, "NaN" otherwise. */
  function CapacityText(c: Capacity): (r: string)
    ensures r != ""
    ensures c.NaN? <==> r == "NaN"
    ensures c.Num? && c.n >= 0 ==> AllDigits(r) && ParseDecimal(r) == c.n
    ensures c.Num? && c.n < 0 ==> r[0] == '-' && AllDigits(r[1..]) && ParseDecimal(r[1..]) == -c.n
  {
    match c
    case NaN => "NaN"
    case Num(n) =>
      if n < 0 then
        ParseDecimalOfDecimal(-n);
        var r := "-" + Decimal(-n);
        assert r[0] != "NaN"[0];
        assert r[1..] == Decimal(-n);
        r
      else
        ParseDecimalOfDecimal(n);
        assert !IsDigit("NaN"[0]);
        Decimal(n)
  }

  // The selectors the screens pass to `filter`, `find` and `some`. Naming them
  // makes two uses of the same selector the same term.

  function TrainingIdIs(id: string): Training -> bool
  {
    (t: Training) => t.id == id
  }

  function TrainingIdIsNot(id: string): Training -> bool
  {
    (t: Training) => t.id != id
  }

  function TrainingStatusIs(status: string): Training -> bool
  {
    (t: Training) => t.status == status
  }

  function OfficerIdIs(id: string): Officer -> bool
  {
    (o: Officer) => o.id == id
  }

  function OfficerStatusIs(status: string): Officer -> bool
  {
    (o: Officer) => o.complianceStatus == status
  }

  function RecordForTraining(trainingId: string): AttendanceRecord -> bool
  {
    (r: AttendanceRecord) => r.trainingId == trainingId
  }

  function RecordForPair(trainingId: string, officerId: string): AttendanceRecord -> bool
  {
    (r: AttendanceRecord) => r.trainingId == trainingId && r.officerId == officerId
  }

  /** The trainings with status "Upcoming", in stored order. Both the
      attendance screen's picker and the officer's "Upcoming Trainings" list
      show exactly these, whoever is looking. */
  function UpcomingTrainings(ts: seq<Training>): (r: seq<Training>)
    ensures forall t :: t in r <==> t in ts && t.status == Upcoming
    ensures forall t: Training :: multiset(r)[t] == if t.status == Upcoming then multiset(ts)[t] else 0
    ensures IsSubsequence(r, ts)
  {
    Filter(ts, TrainingStatusIs(Upcoming))
  }

  function TrainingId(t: Training): string
  {
    t.id
  }

  function OfficerId(o: Officer): string
  {
    o.id
  }

  /** No two trainings share an id. */
  ghost predicate DistinctTrainingIds(ts: seq<Training>)
  {
    DistinctBy(ts, TrainingId)
  }

  /** No two officers share an id. */
  ghost predicate DistinctOfficerIds(os: seq<Officer>)
  {
    DistinctBy(os, OfficerId)
  }

  /** Some training has the id. */
  predicate HasTraining(ts: seq<Training>, id: string)
  {
    Any(ts, TrainingIdIs(id))
  }

  /** Some officer has the id. */
  predicate HasOfficer(os: seq<Officer>, id: string)
  {
    Any(os, OfficerIdIs(id))
  }
}
