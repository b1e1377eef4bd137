/** Two runs from a desk without disputes: one in which a resolved dispute loses its
    notes, and one in which a resource is active although a dispute holds it. */
module DisputeWitnesses {
  import opened Prelude
  import opened BookingModel
  import opened BookingRuns
  import opened BookingInvariant
  import opened DisputeModel
  import opened DisputeRuns
  import opened DisputeTheorems
  import opened DisputeNotes
  import opened Text

  /** Organization 0 with administrator 1 and member 2, its free resource 7 and slot 9. */
  function Rows(): Tables {
    Tables({1, 2}, map[0 := Organization(0, true)],
           map[(1, 0) := Membership(ADMIN, APPROVED), (2, 0) := Membership(MEMBER, APPROVED)],
           map[7 := Resource(0, 0, {}, ACTIVE, 0, 0, None)], map[9 := Slot(7, 1_000, PUBLISHED, None)], map[], [])
  }

  function Start(): DeskState {
    DeskState(World(Rows(), 0, map[], History(map[], map[])), map[], [], map[])
  }

  /** Member 2 books the slot, the administrator completes the booking, and the member
      opens dispute 40 about it. */
  function Opening(): seq<DeskEvent> {
    [Base(Create(9, 2, Some(0), 20)), Base(Complete(20, 1)), OpenDispute(20, 2, Some(0), 40)]
  }

  function WithBooking(status: BookingStatus, completedAt: Option<Time>): World {
    World(Rows().(bookings := map[20 := Booking(9, 2, 0, status, 0, None, None, completedAt)]), 0, map[],
          History(map[20 := 0], map[]))
  }

  function Confirmed(): DeskState {
    DeskState(WithBooking(CONFIRMED, None), map[], [], map[])
  }

  function Done(): DeskState {
    DeskState(WithBooking(COMPLETED, Some(0)), map[], [], map[])
  }

  function Row(status: DisputeStatus, notes: Option<string>, reviewer: Option<Id>, resolvedAt: Option<Time>): Dispute {
    Dispute(20, 0, 2, status, notes, reviewer, resolvedAt)
  }

  function Opened(): DisputeEvent {
    DisputeEvent(40, None, OPEN, Some("Dispute opened"))
  }

  function Disputed(): DeskState {
    Done().(disputes := map[40 := Row(OPEN, None, None, None)], events := [Opened()])
  }

  lemma StartIsInitial()
    ensures DeskInitial(Start()) && NotesKept(Start().disputes) && PlansNoted(Start().pending) && HoldsKept(Start())
  {
    InitialInv(Start().world);
  }

  lemma BookingAccepted()
    ensures Validate(Rows(), 9, 2, Some(0), 0) == Ok(BookingContext(2, 0, 7, 9, 0, 0))
  {
    assert Approved(Rows(), 2, 0) && 0 in BookableBy(Rows().resources[7]);
    assert CanAccess(Rows(), 7, 2, 0);
  }

  lemma CreateStepIs()
    ensures DeskStep(Start(), Opening()[0]) == Confirmed()
  {
    BookingAccepted();
  }

  lemma CompleteStepIs()
    ensures DeskStep(Confirmed(), Opening()[1]) == Done()
  {
  }

  lemma OpenStepIs()
    ensures DeskStep(Done(), Opening()[2]) == Disputed()
  {
    assert Disputed().events == [] + [Opened()];
    assert ActiveIn(Rows(), 2, 0, 0);
  }

  lemma RunsToDisputed()
    ensures DeskRun(Start(), Opening()) == Disputed()
  {
    CreateStepIs();
    CompleteStepIs();
    OpenStepIs();
    var events := Opening();
    assert events[1..][1..] == events[2..] && events[2..][1..] == [];
    assert DeskRun(Start(), events) == DeskRun(Confirmed(), events[1..]) == DeskRun(Done(), events[2..]);
  }

  // ---------- Lost notes ----------

  /** The administrator notes something, then reads a resolution that relies on it and
      an update that blanks it; the update commits first. */
  function Race(): seq<DeskEvent> {
    [TransitionAtOnce(40, Update(None, Some("x"), NONE), 1, Some(0)),
     ReadTransition(50, 40, Update(Some(RESOLVED), None, NONE), 1, Some(0)),
     ReadTransition(51, 40, Update(None, Some(" "), NONE), 1, Some(0)),
     CommitPending(51)]
  }

  function Noted(): DeskState {
    Disputed().(disputes := map[40 := Row(OPEN, Some("x"), Some(1), None)])
  }

  function Resolve(): TransitionPlan {
    TransitionPlan(40, OPEN, 7, 1, Some(RESOLVED), None, NONE, true)
  }

  function Blank(): TransitionPlan {
    TransitionPlan(40, OPEN, 7, 1, None, Some(""), NONE, false)
  }

  function ReadOne(): DeskState {
    Noted().(pending := map[50 := Resolve()])
  }

  function ReadBoth(): DeskState {
    Noted().(pending := map[50 := Resolve(), 51 := Blank()])
  }

  function Blanked(): DeskState {
    ReadOne().(disputes := map[40 := Row(OPEN, Some(""), Some(1), None)])
  }

  lemma AdministratorMayAct(desk: Desk)
    requires desk.db.memberships == Rows().memberships && desk.db.activeUsers == Rows().activeUsers
    requires desk.db.organizations == Rows().organizations
    ensures CanManage(desk.db, 0, 1, Some(0))
  {
  }

  lemma NotedStep()
    ensures DeskStep(Disputed(), Race()[0]) == Noted()
  {
    AdministratorMayAct(DeskOf(Disputed()));
    assert Trim("x") == "x";
  }

  lemma ReadSteps()
    ensures DeskStep(Noted(), Race()[1]) == ReadOne()
    ensures DeskStep(ReadOne(), Race()[2]) == ReadBoth()
  {
    AdministratorMayAct(DeskOf(Noted()));
    assert Trim("x") == "x" && Trim(" ") == "";
  }

  lemma BlankStep()
    ensures DeskStep(ReadBoth(), Race()[3]) == Blanked()
  {
    assert ReadBoth().pending - {51} == ReadOne().pending;
  }

  lemma RunsToBlanked()
    ensures DeskRun(Disputed(), Race()) == Blanked()
  {
    NotedStep();
    ReadSteps();
    BlankStep();
    var events := Race();
    assert events[1..][1..] == events[2..] && events[2..][1..] == events[3..] && events[3..][1..] == [];
    assert DeskRun(Disputed(), events) == DeskRun(Noted(), events[1..]) == DeskRun(ReadOne(), events[2..]);
    assert DeskRun(ReadOne(), events[2..]) == DeskRun(ReadBoth(), events[3..]);
  }

  lemma ResolutionLoses()
    ensures LosesNotes(Blanked(), CommitPending(50))
    ensures var v := DeskStep(Blanked(), CommitPending(50));
            40 in v.disputes && v.disputes[40].status == RESOLVED && !NonBlank(v.disputes[40].notes)
  {
    assert Trim("") == "";
  }

  /** A run from an initial desk ends with a resolved dispute that has no notes. */
  lemma InterleavedNotesCanBeLost()
    ensures DeskInitial(Start()) && NotesKept(Start().disputes) && PlansNoted(Start().pending)
    ensures var w := DeskRun(Start(), Opening() + Race());
            && LosesNotes(w, CommitPending(50))
            && var v := DeskStep(w, CommitPending(50));
               40 in v.disputes && v.disputes[40].status == RESOLVED && !NonBlank(v.disputes[40].notes)
  {
    StartIsInitial();
    RunsToDisputed();
    RunsToBlanked();
    DeskRunAppend(Start(), Opening(), Race());
    ResolutionLoses();
  }

  // ---------- A broken hold ----------

  /** The administrator takes the resource out of use, and an edit sets it active. */
  function HoldAndEdit(): seq<DeskEvent> {
    [TransitionAtOnce(40, Update(Some(UNDER_REVIEW), None, MARK_UNAVAILABLE), 1, Some(0)),
     Base(UpdateResource(7, 0, 0, {}, Some(ACTIVE)))]
  }

  function Held(status: ResourceStatus): DeskState {
    var w := Disputed().world;
    DeskState(w.(db := w.db.(resources := map[7 := Resource(0, 0, {}, status, 0, 0, Some(40))])),
              map[40 := Row(UNDER_REVIEW, None, Some(1), None)],
              [Opened(), DisputeEvent(40, Some(OPEN), UNDER_REVIEW, None)], map[])
  }

  lemma HoldStep()
    ensures DeskStep(Disputed(), HoldAndEdit()[0]) == Held(INACTIVE)
  {
    AdministratorMayAct(DeskOf(Disputed()));
    assert [Opened()] + [DisputeEvent(40, Some(OPEN), UNDER_REVIEW, None)] == Held(INACTIVE).events;
  }

  lemma EditStep()
    ensures DeskStep(Held(INACTIVE), HoldAndEdit()[1]) == Held(ACTIVE)
    ensures Reactivates(Held(INACTIVE), HoldAndEdit()[1])
  {
  }

  lemma RunsToActive()
    ensures DeskRun(Disputed(), HoldAndEdit()) == Held(ACTIVE)
  {
    HoldStep();
    EditStep();
    var events := HoldAndEdit();
    assert events[1..][1..] == [];
    assert DeskRun(Disputed(), events) == DeskRun(Held(INACTIVE), events[1..]);
  }

  lemma NotKept()
    ensures Held(ACTIVE).world.db.resources[7].unavailableDispute == Some(40) && !HoldsKept(Held(ACTIVE))
  {
    assert Held(ACTIVE).world.db.resources[7].unavailableDispute == Some(40);
  }

  /** A run from an initial desk ends with an active resource that a dispute holds. */
  lemma HoldCanBeBroken()
    ensures DeskInitial(Start()) && HoldsKept(Start())
    ensures var v := DeskRun(Start(), Opening() + HoldAndEdit());
            && 7 in v.world.db.resources && v.world.db.resources[7].status == ACTIVE
            && v.world.db.resources[7].unavailableDispute == Some(40) && !HoldsKept(v)
  {
    StartIsInitial();
    RunsToDisputed();
    RunsToActive();
    DeskRunAppend(Start(), Opening(), HoldAndEdit());
    NotKept();
  }
}
