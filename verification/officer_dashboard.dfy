/** The officer's own dashboard. It reads the seed lists directly, not the
    admin's working copies, and computes its lists once per user id. */
module OfficerDashboard {
  import opened Wrappers
  import opened Strings
  import opened Seqs
  import opened Model
  import MockData

  const UnknownTraining: string := "Unknown Training"

  /** The component's state: the user id its lists were last computed for,
      the officer found, and the two training lists. */
  datatype Dashboard = Dashboard(computedFor: Option<string>, officer: Option<Officer>,
                                 upcoming: seq<Training>, completed: seq<Training>)

  /** Before the first computation: no officer, empty lists. */
  const Initial: Dashboard := Dashboard(None, None, [], [])

  /** The dashboard's officer: the first with the user id. */
  function CurrentOfficer(os: seq<Officer>, userId: string): (r: Option<Officer>)
    ensures r.None? <==> !HasOfficer(os, userId)
    ensures r.Some? ==> exists k :: 0 <= k < |os| && os[k] == r.value && os[k].id == userId
                                 && forall j :: 0 <= j < k ==> os[j].id != userId
  {
    Find(os, OfficerIdIs(userId))
  }

  function AttendedBy(o: Officer): Training -> bool
  {
    (t: Training) => t.id in o.trainingsAttended
  }

  /** The "Completed Trainings" list: the trainings whose id the officer's
      attended list holds, in training order, whatever their status. */
  function CompletedTrainings(ts: seq<Training>, o: Officer): (r: seq<Training>)
    ensures forall t :: t in r <==> t in ts && t.id in o.trainingsAttended
    ensures forall t: Training :: multiset(r)[t] == if t.id in o.trainingsAttended then multiset(ts)[t] else 0
    ensures IsSubsequence(r, ts)
  {
    Filter(ts, AttendedBy(o))
  }

  /** The effect run for a user id: look the officer up in `os`; when found,
      recompute both lists from `ts`, otherwise keep the old lists. */
  function Compute(d: Dashboard, userId: string, os: seq<Officer>, ts: seq<Training>): (r: Dashboard)
    ensures r.computedFor == Some(userId)
    ensures r.officer == CurrentOfficer(os, userId)
    ensures r.officer.Some? ==> r.upcoming == UpcomingTrainings(ts) && r.completed == CompletedTrainings(ts, r.officer.value)
    ensures r.officer.None? ==> r.upcoming == d.upcoming && r.completed == d.completed
  {
    match CurrentOfficer(os, userId)
    case Some(o) => Dashboard(Some(userId), Some(o), UpcomingTrainings(ts), CompletedTrainings(ts, o))
    case None => Dashboard(Some(userId), None, d.upcoming, d.completed)
  }

  /** A render with `userId`: the effect runs against the seed lists only when
      the user id differs from the one last computed for. */
  function Render(d: Dashboard, userId: string): (r: Dashboard)
    ensures d.computedFor == Some(userId) ==> r == d
    ensures d.computedFor != Some(userId) ==> r == Compute(d, userId, MockData.Officers, MockData.Trainings)
  {
    if d.computedFor == Some(userId) then d else Compute(d, userId, MockData.Officers, MockData.Trainings)
  }

  /** Rendering again with the same user id changes nothing. */
  lemma RenderIdempotent(d: Dashboard, userId: string)
    ensures Render(Render(d, userId), userId) == Render(d, userId)
  {
  }

  /** What the screen shows. */
  datatype Screen = Loading | Profile(officer: Officer, upcoming: seq<Training>, completed: seq<Training>)

  function View(d: Dashboard): (r: Screen)
    ensures r.Loading? <==> d.officer.None?
  {
    match d.officer
    case None => Loading
    case Some(o) => Profile(o, d.upcoming, d.completed)
  }

  /** A user id that names no seed officer leaves the screen loading, however often it renders. */
  lemma UnknownUserStaysLoading(d: Dashboard, userId: string)
    requires !HasOfficer(MockData.Officers, userId) && d.computedFor != Some(userId)
    ensures View(Render(d, userId)).Loading?
    ensures View(Render(Render(d, userId), userId)).Loading?
  {
  }

  /** The "Missing Requirements" section: the labels, or the compliant notice. */
  datatype RequirementsSection = Labels(labels: seq<string>) | CompliantNotice

  function MissingSection(o: Officer): (r: RequirementsSection)
    ensures r.Labels? <==> |o.missingRequirements| > 0
    ensures r.Labels? ==> r.labels == o.missingRequirements
  {
    if |o.missingRequirements| > 0 then Labels(o.missingRequirements) else CompliantNotice
  }

  /** The section ignores the stored status: a "Non-compliant" officer with no
      listed requirement is told they are compliant. */
  lemma MissingSectionIgnoresStatus(o: Officer)
    requires o.complianceStatus == NonCompliant && o.missingRequirements == []
    ensures MissingSection(o) == CompliantNotice
  {
  }

  /** A certificate's title: the seed training with its training id, or the fallback. */
  function CertificateTitle(ts: seq<Training>, c: Certificate): (r: string)
    ensures !HasTraining(ts, c.trainingId) ==> r == UnknownTraining
    ensures r != ""
    ensures forall k :: (0 <= k < |ts| && ts[k].id == c.trainingId &&
                         forall j :: 0 <= j < k ==> ts[j].id != c.trainingId) ==> r == OrElse(ts[k].title, UnknownTraining)
  {
    var title := match Find(ts, TrainingIdIs(c.trainingId))
      case Some(t) => t.title
      case None => "";
    OrElse(title, UnknownTraining)
  }

  /** Of four trainings of which the first two are upcoming, those two are listed. */
  lemma UpcomingFirstTwo(ts: seq<Training>)
    requires |ts| == 4 && ts[0].status == Upcoming && ts[1].status == Upcoming
    requires ts[2].status != Upcoming && ts[3].status != Upcoming
    ensures UpcomingTrainings(ts) == ts[..2]
  {
    var p := TrainingStatusIs(Upcoming);
    FilterFour(ts, p);
    assert Kept(ts[0], p) == [ts[0]] && Kept(ts[1], p) == [ts[1]];
    assert Kept(ts[2], p) == [] && Kept(ts[3], p) == [];
    assert [ts[0]] + ([ts[1]] + ([] + [])) == ts[..2];
  }

  /** Of four trainings of which the officer attended only the last two, those two are listed. */
  lemma CompletedLastTwo(ts: seq<Training>, o: Officer)
    requires |ts| == 4 && ts[0].id !in o.trainingsAttended && ts[1].id !in o.trainingsAttended
    requires ts[2].id in o.trainingsAttended && ts[3].id in o.trainingsAttended
    ensures CompletedTrainings(ts, o) == ts[2..]
  {
    var p := AttendedBy(o);
    FilterFour(ts, p);
    assert Kept(ts[0], p) == [] && Kept(ts[1], p) == [];
    assert Kept(ts[2], p) == [ts[2]] && Kept(ts[3], p) == [ts[3]];
    assert [] + ([] + ([ts[2]] + [ts[3]])) == ts[2..];
  }

  /** Which seed trainings officer-456's attended list names. */
  lemma SeedAttendedBy456()
    ensures MockData.Trainings[0].id !in MockData.Officers[0].trainingsAttended
    ensures MockData.Trainings[1].id !in MockData.Officers[0].trainingsAttended
    ensures MockData.Trainings[2].id in MockData.Officers[0].trainingsAttended
    ensures MockData.Trainings[3].id in MockData.Officers[0].trainingsAttended
  {
  }

  lemma SeedLists()
    ensures UpcomingTrainings(MockData.Trainings) == MockData.Trainings[..2]
    ensures CompletedTrainings(MockData.Trainings, MockData.Officers[0]) == MockData.Trainings[2..]
  {
    UpcomingFirstTwo(MockData.Trainings);
    SeedAttendedBy456();
    CompletedLastTwo(MockData.Trainings, MockData.Officers[0]);
  }

  lemma SeedCurrentOfficer()
    ensures CurrentOfficer(MockData.Officers, "officer-456") == Some(MockData.Officers[0])
    ensures CurrentOfficer(MockData.Officers, "officer-101") == Some(MockData.Officers[2])
  {
    var os := MockData.Officers;
    FindOnly(os, OfficerIdIs("officer-456"), 0);
    FindOnly(os, OfficerIdIs("officer-101"), 2);
  }

  /** The first render for a seed officer's id shows that officer with both
      lists computed from the seed trainings. */
  lemma FirstRenderOfSeedOfficer(userId: string, o: Officer)
    requires CurrentOfficer(MockData.Officers, userId) == Some(o)
    ensures View(Render(Initial, userId))
            == Profile(o, UpcomingTrainings(MockData.Trainings), CompletedTrainings(MockData.Trainings, o))
  {
  }

  /** The officer who logs in ("officer-456") sees t1 and t2 upcoming and t3 and t4 completed. */
  lemma SeedOfficerView()
    ensures var v := View(Render(Initial, "officer-456"));
            v.Profile? && v.officer == MockData.Officers[0]
            && v.upcoming == MockData.Trainings[..2] && v.completed == MockData.Trainings[2..]
  {
    SeedCurrentOfficer();
    FirstRenderOfSeedOfficer("officer-456", MockData.Officers[0]);
    SeedLists();
  }

  /** The completed list is not filtered by status: an attended training that
      is still upcoming is in both lists. */
  lemma CompletedNotFilteredByStatus(ts: seq<Training>, o: Officer, k: nat)
    requires k < |ts| && ts[k].status == Upcoming && ts[k].id in o.trainingsAttended
    ensures ts[k] in UpcomingTrainings(ts) && ts[k] in CompletedTrainings(ts, o)
  {
  }

  lemma SeedAttendedBy101()
    ensures MockData.Trainings[0].id in MockData.Officers[2].trainingsAttended
    ensures MockData.Trainings[0].status == Upcoming
  {
  }

  /** For officer-101, t1 is both upcoming and completed. */
  lemma CompletedOverlapsUpcoming()
    ensures var v := View(Render(Initial, "officer-101"));
            v.Profile? && MockData.Trainings[0] in v.upcoming && MockData.Trainings[0] in v.completed
  {
    var o := MockData.Officers[2];
    SeedCurrentOfficer();
    FirstRenderOfSeedOfficer("officer-101", o);
    SeedAttendedBy101();
    CompletedNotFilteredByStatus(MockData.Trainings, o, 0);
  }
}
