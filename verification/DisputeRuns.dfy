/** Runs of bookings and disputes together. A transition is either one step or, like
    a cancellation, its reads and its writes with any other steps in between. */
module DisputeRuns {
  import opened Prelude
  import opened BookingModel
  import opened BookingRuns
  import opened BookingInvariant
  import opened BookingTheorems
  import opened DisputeModel

  datatype DeskState = DeskState(
    world: World,
    disputes: map<Id, Dispute>,
    events: seq<DisputeEvent>,
    pending: map<Id, TransitionPlan>)

  type DeskWorld = t: DeskState | BookingsExist(t.disputes, t.world.db.bookings)
    witness DeskState(World(Tables({}, map[], map[], map[], map[], map[], []), 0, map[], History(map[], map[])),
                      map[], [], map[])

  datatype DeskEvent =
    | Base(event: Event)
    | OpenDispute(booking: Id, user: Id, root: Option<Id>, dispute: Id)
    | ReadTransition(tx: Id, dispute: Id, update: Update, user: Id, root: Option<Id>)
    | CommitPending(tx: Id)
    | TransitionAtOnce(dispute: Id, update: Update, user: Id, root: Option<Id>)

  function DbOf(w: World): Database {
    w.db
  }

  function DeskOf(w: DeskWorld): Desk {
    DeskTables(DbOf(w.world), w.disputes, w.events)
  }

  function BaseStep(w: DeskWorld, next: World): DeskWorld
    requires w.world.db.bookings.Keys <= next.db.bookings.Keys
  {
    w.(world := next)
  }

  /** The world with the rows of a dispute transaction written back. */
  function WriteBack(w: DeskWorld, desk: Desk): DeskState {
    w.(world := w.world.(db := desk.db), disputes := desk.disputes, events := desk.events)
  }

  ghost function DeskStep(w: DeskWorld, e: DeskEvent): DeskWorld {
    match e
    case Base(event) =>
      BookingsAfterStep(w.world, event);
      if event.HoldResource? || event.ReleaseHold? then w else BaseStep(w, Step(w.world, event))
    case OpenDispute(booking, user, root, id) => WriteBack(w, Open(DeskOf(w), booking, user, root, id).0)
    case ReadTransition(tx, id, update, user, root) =>
      var plan := PlanTransition(DeskOf(w), id, update, user, root);
      if tx in w.pending || plan.Err? then w else w.(pending := w.pending[tx := plan.value])
    case CommitPending(tx) =>
      if tx !in w.pending then w
      else WriteBack(w, CommitTransition(DeskOf(w), w.pending[tx], w.world.clock).0).(pending := w.pending - {tx})
    case TransitionAtOnce(id, update, user, root) =>
      WriteBack(w, Transition(DeskOf(w), id, update, user, root, w.world.clock).0)
  }

  ghost function DeskRun(w: DeskWorld, events: seq<DeskEvent>): DeskWorld
    decreases |events|
  {
    if events == [] then w else DeskRun(DeskStep(w, events[0]), events[1..])
  }

  lemma {:induction false} DeskRunAppend(w: DeskWorld, first: seq<DeskEvent>, second: seq<DeskEvent>)
    ensures DeskRun(w, first + second) == DeskRun(DeskRun(w, first), second)
    decreases |first|
  {
    if first == [] {
      assert first + second == second;
    } else {
      assert (first + second)[0] == first[0];
      assert (first + second)[1..] == first[1..] + second;
      DeskRunAppend(DeskStep(w, first[0]), first[1..], second);
    }
  }

  // ---------- The event log of a dispute ----------

  function LogOf(events: seq<DisputeEvent>, d: Id): seq<DisputeEvent> {
    if events == [] then []
    else (if events[0].dispute == d then [events[0]] else []) + LogOf(events[1..], d)
  }

  lemma {:induction false} LogAppend(events: seq<DisputeEvent>, e: DisputeEvent, d: Id)
    ensures LogOf(events + [e], d) == LogOf(events, d) + (if e.dispute == d then [e] else [])
  {
    if events == [] {
      assert events + [e] == [e];
    } else {
      var first := if events[0].dispute == d then [events[0]] else [];
      var last := if e.dispute == d then [e] else [];
      assert (events + [e])[1..] == events[1..] + [e];
      LogAppend(events[1..], e, d);
      assert first + (LogOf(events[1..], d) + last) == (first + LogOf(events[1..], d)) + last;
    }
  }

  /** The moves a dispute may make. */
  predicate MayMove(from: DisputeStatus, to: DisputeStatus) {
    (from, to) in {(OPEN, UNDER_REVIEW), (OPEN, RESOLVED), (OPEN, DisputeStatus.REJECTED),
                   (UNDER_REVIEW, RESOLVED), (UNDER_REVIEW, DisputeStatus.REJECTED)}
  }

  /** A log that starts by opening the dispute and makes only such moves, each from where
      the one before it ended. */
  predicate Connected(log: seq<DisputeEvent>) {
    && log != []
    && log[0].from == None && log[0].to == OPEN
    && (forall i :: 0 < i < |log| ==> log[i].from == Some(log[i - 1].to) && MayMove(log[i - 1].to, log[i].to))
  }

  function Rank(status: DisputeStatus): nat {
    match status
    case OPEN => 0
    case UNDER_REVIEW => 1
    case _ => 2
  }

  lemma {:induction false} ConnectedRank(log: seq<DisputeEvent>, i: nat)
    requires Connected(log) && i < |log|
    ensures i <= Rank(log[i].to)
  {
    if i > 0 {
      ConnectedRank(log, i - 1);
    }
  }

  // ---------- The invariant ----------

  predicate DisputeOk(disputes: map<Id, Dispute>, events: seq<DisputeEvent>, d: Id) {
    var log := LogOf(events, d);
    if d in disputes then
      && Connected(log)
      && log[|log| - 1].to == disputes[d].status
      && (Terminal(disputes[d].status) <==> disputes[d].resolvedAt.Some?)
    else log == []
  }

  ghost predicate DisputesOk(disputes: map<Id, Dispute>, events: seq<DisputeEvent>) {
    forall d: Id :: DisputeOk(disputes, events, d)
  }

  predicate OnePerBooking(disputes: map<Id, Dispute>) {
    forall d, e :: d in disputes && e in disputes && d != e ==> disputes[d].booking != disputes[e].booking
  }

  predicate OnCompleted(disputes: map<Id, Dispute>, bookings: map<Id, Booking>) {
    forall d :: d in disputes ==> disputes[d].booking in bookings && bookings[disputes[d].booking].status == COMPLETED
  }

  /** The resource a dispute is about. */
  predicate Concerns(disputes: map<Id, Dispute>, bookings: map<Id, Booking>, slots: map<Id, Slot>, d: Id, resource: Id) {
    && d in disputes && disputes[d].booking in bookings
    && bookings[disputes[d].booking].slot in slots
    && slots[bookings[disputes[d].booking].slot].resource == resource
  }

  predicate TransitionSound(w: DeskState, plan: TransitionPlan) {
    && Concerns(w.disputes, w.world.db.bookings, w.world.db.slots, plan.dispute, plan.resource)
    && (plan.status.Some? ==> plan.status.value in AllowedTransitions(plan.expected))
    && plan.terminal == Terminal(if plan.status.Some? then plan.status.value else plan.expected)
  }

  predicate PendingSound(w: DeskState) {
    forall tx :: tx in w.pending ==> TransitionSound(w, w.pending[tx])
  }

  ghost predicate DeskSound(w: DeskState) {
    && DisputesOk(w.disputes, w.events)
    && OnePerBooking(w.disputes)
    && OnCompleted(w.disputes, w.world.db.bookings)
    && PendingSound(w)
  }

  ghost predicate DeskInv(w: DeskWorld) {
    Inv(w.world) && DeskSound(w)
  }

  /** A desk that has taken no dispute yet, beside any sound booking state. */
  ghost predicate DeskInitial(w: DeskWorld) {
    Inv(w.world) && w.disputes == map[] && w.events == [] && w.pending == map[]
  }

  lemma DeskInitialInv(w: DeskWorld)
    requires DeskInitial(w)
    ensures DeskInv(w)
  {
  }

  // ---------- Preservation ----------

  /** The rows that disputes depend on only evolve, and no dispute disappears. */
  ghost predicate Carries(w: DeskState, v: DeskState) {
    && RowsEvolve(w.world.db.bookings, v.world.db.bookings)
    && SlotsEvolve(w.world.db.slots, v.world.db.slots)
    && (forall d :: d in w.disputes ==> d in v.disputes && v.disputes[d].booking == w.disputes[d].booking)
  }

  lemma PendingAcrossStep(w: DeskState, v: DeskState)
    requires PendingSound(w) && Carries(w, v)
    requires forall tx :: tx in v.pending ==> tx in w.pending && v.pending[tx] == w.pending[tx]
    ensures PendingSound(v)
  {
  }

  lemma CompletedAcrossStep(disputes: map<Id, Dispute>, before: map<Id, Booking>, after: map<Id, Booking>)
    requires OnCompleted(disputes, before) && RowsEvolve(before, after)
    ensures OnCompleted(disputes, after)
  {
  }

  lemma BaseInv(w: DeskWorld, event: Event)
    requires DeskInv(w)
    ensures DeskInv(DeskStep(w, Base(event)))
  {
    var v := DeskStep(w, Base(event));
    if !event.HoldResource? && !event.ReleaseHold? {
      StepInv(w.world, event);
      StepEvolves(w.world, event);
      BaseSound(w, v);
    }
  }

  lemma BaseSound(w: DeskState, v: DeskState)
    requires DeskSound(w) && v == w.(world := v.world)
    requires RowsEvolve(w.world.db.bookings, v.world.db.bookings) && SlotsEvolve(w.world.db.slots, v.world.db.slots)
    ensures DeskSound(v)
  {
    CompletedAcrossStep(w.disputes, w.world.db.bookings, v.world.db.bookings);
    PendingAcrossStep(w, v);
  }

  lemma OpenKeepsLogs(disputes: map<Id, Dispute>, events: seq<DisputeEvent>, id: Id, dispute: Dispute, notes: Option<string>)
    requires DisputesOk(disputes, events) && id !in disputes
    requires dispute.status == OPEN && dispute.resolvedAt == None
    ensures DisputesOk(disputes[id := dispute], events + [DisputeEvent(id, None, OPEN, notes)])
  {
    var disputes', e := disputes[id := dispute], DisputeEvent(id, None, OPEN, notes);
    var events' := events + [e];
    forall d: Id ensures DisputeOk(disputes', events', d) {
      LogAppend(events, e, d);
      assert DisputeOk(disputes, events, d);
    }
  }

  function NewDispute(booking: Id, user: Id, root: Id): Dispute {
    Dispute(booking, root, user, OPEN, None, None, None)
  }

  /** What an accepted opening has checked, and what it wrote. */
  lemma OpenWrites(desk: Desk, booking: Id, user: Id, root: Option<Id>, id: Id)
    requires Open(desk, booking, user, root, id).1.Ok?
    ensures root.Some? && id !in desk.disputes
    ensures forall d :: d in desk.disputes ==> desk.disputes[d].booking != booking
    ensures booking in desk.db.bookings && desk.db.bookings[booking].status == COMPLETED
    ensures desk.db.bookings[booking].user == user && desk.db.bookings[booking].root == root.value
    ensures Open(desk, booking, user, root, id).0
         == DeskTables(desk.db, desk.disputes[id := NewDispute(booking, user, root.value)],
                       desk.events + [DisputeEvent(id, None, OPEN, Some("Dispute opened"))])
  {
  }

  /** The step of an opening: what it writes, or nothing. */
  lemma OpenStepIs(w: DeskWorld, booking: Id, user: Id, root: Option<Id>, id: Id)
    ensures var v := DeskStep(w, OpenDispute(booking, user, root, id));
            if Open(DeskOf(w), booking, user, root, id).1.Ok?
            then root.Some? && v == w.(disputes := w.disputes[id := NewDispute(booking, user, root.value)],
                                       events := w.events + [DisputeEvent(id, None, OPEN, Some("Dispute opened"))])
            else v == w
  {
    if Open(DeskOf(w), booking, user, root, id).1.Ok? {
      OpenWrites(DeskOf(w), booking, user, root, id);
    }
  }

  lemma OpenKeepsDesk(w: DeskWorld, booking: Id, user: Id, root: Option<Id>, id: Id)
    requires DeskSound(w)
    ensures var v := DeskStep(w, OpenDispute(booking, user, root, id)); DeskSound(v) && v.world == w.world
  {
    OpenStepIs(w, booking, user, root, id);
    if Open(DeskOf(w), booking, user, root, id).1.Ok? {
      OpenWrites(DeskOf(w), booking, user, root, id);
      OpenKeepsLogs(w.disputes, w.events, id, NewDispute(booking, user, root.value), Some("Dispute opened"));
      OpenSound(w, DeskStep(w, OpenDispute(booking, user, root, id)), id, booking);
    }
  }

  lemma OpenSound(w: DeskState, v: DeskState, id: Id, booking: Id)
    requires DeskSound(w) && DisputesOk(v.disputes, v.events)
    requires id !in w.disputes && v.disputes.Keys == w.disputes.Keys + {id} && v.disputes[id].booking == booking
    requires forall d :: d in w.disputes ==> v.disputes[d] == w.disputes[d] && w.disputes[d].booking != booking
    requires booking in w.world.db.bookings && w.world.db.bookings[booking].status == COMPLETED
    requires v.world == w.world && v.pending == w.pending
    ensures DeskSound(v)
  {
  }

  lemma ReadKeepsDesk(w: DeskWorld, tx: Id, id: Id, update: Update, user: Id, root: Option<Id>)
    requires DeskSound(w)
    ensures var v := DeskStep(w, ReadTransition(tx, id, update, user, root)); DeskSound(v) && v.world == w.world
  {
    if PlanTransition(DeskOf(w), id, update, user, root).Ok? {
      PlanIsSound(w, id, update, user, root);
    }
  }

  lemma PlanIsSound(w: DeskWorld, id: Id, update: Update, user: Id, root: Option<Id>)
    requires PlanTransition(DeskOf(w), id, update, user, root).Ok?
    ensures TransitionSound(w, PlanTransition(DeskOf(w), id, update, user, root).value)
  {
  }

  function EventOf(plan: TransitionPlan): seq<DisputeEvent> {
    if plan.status.Some? && plan.status.value != plan.expected then
      [DisputeEvent(plan.dispute, Some(plan.expected), plan.status.value, plan.notes)]
    else []
  }

  lemma MoveConnects(log: seq<DisputeEvent>, e: DisputeEvent)
    requires Connected(log) && e.from == Some(log[|log| - 1].to) && MayMove(log[|log| - 1].to, e.to)
    ensures Connected(log + [e])
  {
  }

  lemma CommitKeepsLogs(disputes: map<Id, Dispute>, events: seq<DisputeEvent>, plan: TransitionPlan, now: Time)
    requires DisputesOk(disputes, events)
    requires plan.dispute in disputes && disputes[plan.dispute].status == plan.expected
    requires plan.status.Some? ==> plan.status.value in AllowedTransitions(plan.expected)
    requires plan.terminal == Terminal(if plan.status.Some? then plan.status.value else plan.expected)
    ensures DisputesOk(disputes[plan.dispute := UpdatedDispute(disputes[plan.dispute], plan, now)], events + EventOf(plan))
  {
    var disputes' := disputes[plan.dispute := UpdatedDispute(disputes[plan.dispute], plan, now)];
    var events' := events + EventOf(plan);
    forall d: Id ensures DisputeOk(disputes', events', d) {
      assert DisputeOk(disputes, events, d);
      if EventOf(plan) == [] {
        assert events' == events;
      } else {
        LogAppend(events, EventOf(plan)[0], d);
        if d == plan.dispute {
          MoveConnects(LogOf(events, d), EventOf(plan)[0]);
        }
      }
    }
  }

  /** What a successful commit writes. */
  lemma CommitWrites(desk: Desk, plan: TransitionPlan, now: Time)
    requires CommitTransition(desk, plan, now).1.Ok?
    ensures plan.dispute in desk.disputes && desk.disputes[plan.dispute].status == plan.expected
    ensures ApplyAction(desk.db, plan.resource, plan.dispute, plan.action).Some?
    ensures CommitTransition(desk, plan, now).0
         == DeskTables(ApplyAction(desk.db, plan.resource, plan.dispute, plan.action).value,
                       desk.disputes[plan.dispute := UpdatedDispute(desk.disputes[plan.dispute], plan, now)],
                       desk.events + EventOf(plan))
  {
  }

  /** An action on a resource is one of the environment steps of the booking system. */
  function ActionEvent(plan: TransitionPlan): Event {
    match plan.action
    case NONE => Tick(0)
    case MARK_UNAVAILABLE => HoldResource(plan.resource, plan.dispute)
    case RESTORE => ReleaseHold(plan.resource)
  }

  lemma ActionIsStep(w: World, plan: TransitionPlan)
    requires ApplyAction(w.db, plan.resource, plan.dispute, plan.action).Some?
    ensures w.(db := ApplyAction(w.db, plan.resource, plan.dispute, plan.action).value) == Step(w, ActionEvent(plan))
  {
  }

  /** A commit moves the booking system by the step of its action, or not at all. */
  lemma CommitMovesWorld(w: DeskWorld, plan: TransitionPlan)
    ensures var commit := CommitTransition(DeskOf(w), plan, w.world.clock);
            WriteBack(w, commit.0).world == if commit.1.Ok? then Step(w.world, ActionEvent(plan)) else w.world
  {
    if CommitTransition(DeskOf(w), plan, w.world.clock).1.Ok? {
      CommitWrites(DeskOf(w), plan, w.world.clock);
      ActionIsStep(w.world, plan);
    }
  }

  lemma CommitKeepsDesk(w: DeskWorld, plan: TransitionPlan)
    requires DeskSound(w) && TransitionSound(w, plan)
    requires var v := WriteBack(w, CommitTransition(DeskOf(w), plan, w.world.clock).0);
             RowsEvolve(w.world.db.bookings, v.world.db.bookings) && SlotsEvolve(w.world.db.slots, v.world.db.slots)
    ensures DeskSound(WriteBack(w, CommitTransition(DeskOf(w), plan, w.world.clock).0))
  {
    var v := WriteBack(w, CommitTransition(DeskOf(w), plan, w.world.clock).0);
    if CommitTransition(DeskOf(w), plan, w.world.clock).1.Ok? {
      CommitWrites(DeskOf(w), plan, w.world.clock);
      CommitKeepsLogs(w.disputes, w.events, plan, w.world.clock);
      CommitSound(w, v, plan, w.world.clock);
    }
  }

  lemma CommitInv(w: DeskWorld, plan: TransitionPlan)
    requires DeskInv(w) && TransitionSound(w, plan)
    ensures DeskInv(WriteBack(w, CommitTransition(DeskOf(w), plan, w.world.clock).0))
  {
    CommitMovesWorld(w, plan);
    WorldMoves(w.world, WriteBack(w, CommitTransition(DeskOf(w), plan, w.world.clock).0).world, ActionEvent(plan));
    CommitKeepsDesk(w, plan);
  }

  lemma WorldMoves(w: World, v: World, e: Event)
    requires Inv(w) && (v == w || v == Step(w, e))
    ensures Inv(v) && RowsEvolve(w.db.bookings, v.db.bookings) && SlotsEvolve(w.db.slots, v.db.slots)
  {
    if v != w {
      StepInv(w, e);
      StepEvolves(w, e);
    }
  }

  lemma CommitSound(w: DeskState, v: DeskState, plan: TransitionPlan, now: Time)
    requires OnePerBooking(w.disputes) && OnCompleted(w.disputes, w.world.db.bookings) && PendingSound(w)
    requires DisputesOk(v.disputes, v.events)
    requires plan.dispute in w.disputes
    requires v.disputes == w.disputes[plan.dispute := UpdatedDispute(w.disputes[plan.dispute], plan, now)]
    requires RowsEvolve(w.world.db.bookings, v.world.db.bookings) && SlotsEvolve(w.world.db.slots, v.world.db.slots)
    requires v.pending == w.pending
    ensures DeskSound(v)
  {
    CompletedAcrossStep(w.disputes, w.world.db.bookings, v.world.db.bookings);
    PendingAcrossStep(w, v);
  }

  lemma PendingIs(w: DeskWorld, tx: Id)
    requires tx in w.pending
    ensures var v := WriteBack(w, CommitTransition(DeskOf(w), w.pending[tx], w.world.clock).0);
            DeskStep(w, CommitPending(tx)) == v.(pending := w.pending - {tx}) && v.pending == w.pending
  {
  }

  lemma CommitPendingInv(w: DeskWorld, tx: Id)
    requires DeskInv(w) && tx in w.pending
    ensures DeskInv(DeskStep(w, CommitPending(tx)))
  {
    CommitInv(w, w.pending[tx]);
    PendingIs(w, tx);
    PendingDropped(WriteBack(w, CommitTransition(DeskOf(w), w.pending[tx], w.world.clock).0), tx);
  }

  lemma AtOnceInv(w: DeskWorld, id: Id, update: Update, user: Id, root: Option<Id>)
    requires DeskInv(w)
    ensures DeskInv(DeskStep(w, TransitionAtOnce(id, update, user, root)))
  {
    var plan := PlanTransition(DeskOf(w), id, update, user, root);
    AtOnceIs(w, id, update, user, root);
    if plan.Ok? {
      PlanIsSound(w, id, update, user, root);
      CommitInv(w, plan.value);
    }
  }

  /** A transition in one step is the commit of its plan, or nothing. */
  lemma AtOnceIs(w: DeskWorld, id: Id, update: Update, user: Id, root: Option<Id>)
    ensures var plan := PlanTransition(DeskOf(w), id, update, user, root);
            DeskStep(w, TransitionAtOnce(id, update, user, root))
            == if plan.Ok? then WriteBack(w, CommitTransition(DeskOf(w), plan.value, w.world.clock).0) else w
  {
  }

  lemma PendingDropped(w: DeskWorld, tx: Id)
    requires DeskInv(w)
    ensures DeskInv(w.(pending := w.pending - {tx}))
  {
  }

  lemma DeskStepInv(w: DeskWorld, e: DeskEvent)
    requires DeskInv(w)
    ensures DeskInv(DeskStep(w, e))
  {
    match e
    case Base(event) => BaseInv(w, event);
    case OpenDispute(booking, user, root, id) => OpenKeepsDesk(w, booking, user, root, id);
    case ReadTransition(tx, id, update, user, root) => ReadKeepsDesk(w, tx, id, update, user, root);
    case CommitPending(tx) => if tx in w.pending { CommitPendingInv(w, tx); }
    case TransitionAtOnce(id, update, user, root) => AtOnceInv(w, id, update, user, root);
  }

  lemma {:induction false} DeskRunInv(w: DeskWorld, events: seq<DeskEvent>)
    requires DeskInv(w)
    ensures DeskInv(DeskRun(w, events))
    decreases |events|
  {
    if events != [] {
      DeskStepInv(w, events[0]);
      DeskRunInv(DeskStep(w, events[0]), events[1..]);
    }
  }
}
