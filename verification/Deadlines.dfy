/** The deadline of a cancellation by the user is checked with its reads. Its writes may
    come after it; this module says exactly when. */
module Deadlines {
  import opened Prelude
  import opened BookingModel
  import opened BookingRuns
  import opened BookingInvariant
  import opened StaleWrites

  /** Every booking that a step ends by its user is ended before its deadline. */
  ghost predicate EndsOnTime(w: World, v: World) {
    forall b :: b in v.history.ended && b !in w.history.ended && v.history.ended[b] == ByUser ==>
      b in w.db.bookings && w.clock < CancellationDeadline(w.db, w.db.bookings[b])
  }

  /** The writes of a cancellation by the user that find its booking confirmed, but the
      deadline past. */
  predicate CommitsLate(w: World, e: Event) {
    && e.CommitCancel? && e.tx in w.plans && w.plans[e.tx].byUser
    && w.plans[e.tx].booking in w.db.bookings
    && var booking := w.db.bookings[w.plans[e.tx].booking];
       booking.status == CONFIRMED && w.clock >= CancellationDeadline(w.db, booking)
  }

  lemma CommitOnTimeExactly(w: World, tx: Id)
    requires Inv(w) && tx in w.plans
    ensures EndsOnTime(w, CommitStep(w, tx)) <==> !CommitsLate(w, CommitCancel(tx))
  {
    var plan := w.plans[tx];
    if plan.booking in w.db.bookings && w.db.bookings[plan.booking].status == CONFIRMED {
      assert plan.booking !in w.history.ended;
      assert CommitStep(w, tx).history.ended == w.history.ended[plan.booking := EndingOf(plan)];
    }
  }

  lemma {:induction false} RevocationEnds(db: Database, resource: Id, listed: seq<Id>, ended: map<Id, Ending>, b: Id)
    requires forall i :: 0 <= i < |listed| ==> listed[i] in db.bookings
    ensures var after := EndEach(db, resource, listed, ended);
            b in after && b !in ended ==> after[b] == ByRevocation
    decreases |listed|
  {
    if listed != [] {
      RevocationEnds(db, resource, listed[..|listed| - 1], ended, b);
    }
  }

  lemma ReevaluationEndsOnTime(w: World, resource: Id, listed: seq<Id>)
    requires ListsSome(w.db, resource, w.clock, listed)
    ensures EndsOnTime(w, Step(w, Reevaluate(resource, listed)))
  {
    ReevaluateIs(w, resource, listed);
    forall b: Id
      ensures var after := RevokeStep(w, resource, listed).history.ended;
              b in after && b !in w.history.ended ==> after[b] == ByRevocation
    {
      RevocationEnds(w.db, resource, listed, w.history.ended, b);
    }
  }

  /** A step ends a booking by its user after the deadline exactly when it is such a
      write. */
  lemma EndsOnTimeExactly(w: World, e: Event)
    requires Inv(w)
    ensures EndsOnTime(w, Step(w, e)) <==> !CommitsLate(w, e)
  {
    match e
    case CommitCancel(tx) => if tx in w.plans { CommitOnTimeExactly(w, tx); }
    case Reevaluate(resource, listed) =>
      if ListsSome(w.db, resource, w.clock, listed) { ReevaluationEndsOnTime(w, resource, listed); }
    case _ =>
  }

  ghost predicate OnTimeThroughout(w: World, events: seq<Event>)
    decreases |events|
  {
    events == [] || (EndsOnTime(w, Step(w, events[0])) && OnTimeThroughout(Step(w, events[0]), events[1..]))
  }

  ghost predicate EverCommitsLate(w: World, events: seq<Event>)
    decreases |events|
  {
    events != [] && (CommitsLate(w, events[0]) || EverCommitsLate(Step(w, events[0]), events[1..]))
  }

  /** In a run every cancellation by the user takes effect before its deadline exactly
      when no such write happens in it. */
  lemma {:induction false} OnTimeThroughoutExactly(w: World, events: seq<Event>)
    requires Inv(w)
    ensures OnTimeThroughout(w, events) <==> !EverCommitsLate(w, events)
    decreases |events|
  {
    if events != [] {
      EndsOnTimeExactly(w, events[0]);
      StepInv(w, events[0]);
      OnTimeThroughoutExactly(Step(w, events[0]), events[1..]);
    }
  }

  // ---------- A late cancellation ----------

  /** User 1 books a slot that starts at 1,000, reads a cancellation at 0, and its
      writes come at 2,000. */
  function LateRun(): seq<Event> {
    [Create(9, 1, Some(5), 20), ReadCancel(30, 20, 1, None), Tick(2_000), CommitCancel(30)]
  }

  function Read(): World {
    Booked().(plans := map[30 := CancelPlan(20, 1, true, 0, PUBLISHED, 0)])
  }

  function AfterStart(): World {
    Read().(clock := 2_000)
  }

  lemma ReadSteps()
    ensures Step(Booked(), ReadCancel(30, 20, 1, None)) == Read()
    ensures Step(Read(), Tick(2_000)) == AfterStart()
  {
  }

  lemma RunsThroughStart()
    ensures Run(Opening(), LateRun()) == Step(AfterStart(), CommitCancel(30))
  {
    FirstSteps();
    ReadSteps();
    var events := LateRun();
    assert events[1..][1..] == events[2..] && events[2..][1..] == events[3..] && events[3..][1..] == [];
    assert Run(Opening(), events) == Run(Booked(), events[1..]) == Run(Read(), events[2..]) == Run(AfterStart(), events[3..]);
  }

  lemma CommitsAfterStart()
    ensures CommitsLate(AfterStart(), CommitCancel(30))
    ensures Step(AfterStart(), CommitCancel(30)).db.bookings[20].status == CANCELLED
  {
  }

  /** It happens: the booking is cancelled by its user after it has started. */
  lemma LateCancellationExists()
    ensures Initial(Opening())
    ensures var v := Run(Opening(), LateRun());
            && 20 in v.db.bookings && v.db.bookings[20].status == CANCELLED
            && 20 in v.history.ended && v.history.ended[20] == ByUser
            && v.clock >= CancellationDeadline(v.db, v.db.bookings[20])
  {
    RunsThroughStart();
    CommitsAfterStart();
  }
}
