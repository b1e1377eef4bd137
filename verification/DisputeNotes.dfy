/** The notes of resolved and rejected disputes: kept when a transition is one step, and
    exactly when they can be lost if its reads and its writes are apart. */
module DisputeNotes {
  import opened Prelude
  import opened DisputeModel
  import opened DisputeRuns
  import opened Text

  ghost predicate NotesKept(disputes: map<Id, Dispute>) {
    forall d :: d in disputes && Terminal(disputes[d].status) ==> NonBlank(disputes[d].notes)
  }

  /** A commit keeps the notes of terminal disputes non-blank exactly when it brings
      its own notes or the row it writes still has some, or leaves the dispute open. */
  lemma CommitKeepsNotesExactly(w: DeskWorld, id: Id, update: Update, user: Id, root: Option<Id>, later: Desk, now: Time)
    requires PlanTransition(DeskOf(w), id, update, user, root).Ok?
    requires NotesKept(later.disputes)
    requires CommitTransition(later, PlanTransition(DeskOf(w), id, update, user, root).value, now).1.Ok?
    ensures id in later.disputes
    ensures var plan := PlanTransition(DeskOf(w), id, update, user, root).value;
            NotesKept(CommitTransition(later, plan, now).0.disputes)
            <==> (plan.terminal ==> plan.notes.Some? || NonBlank(later.disputes[id].notes))
  {
    var plan := PlanTransition(DeskOf(w), id, update, user, root).value;
    CommitWrites(later, plan, now);
    var after := CommitTransition(later, plan, now).0.disputes;
    if update.notes.Some? {
      TrimIsTight(update.notes.value);
    }
    assert after == later.disputes[id := UpdatedDispute(later.disputes[id], plan, now)];
    assert Terminal(after[id].status) <==> plan.terminal;
  }

  /** Without anything in between, the notes read are the notes written, so the
      condition always holds. */
  lemma AtOnceKeepsNotes(w: DeskWorld, id: Id, update: Update, user: Id, root: Option<Id>)
    requires NotesKept(w.disputes)
    ensures NotesKept(DeskStep(w, TransitionAtOnce(id, update, user, root)).disputes)
  {
    var plan := PlanTransition(DeskOf(w), id, update, user, root);
    if plan.Ok? && CommitTransition(DeskOf(w), plan.value, w.world.clock).1.Ok? {
      CommitKeepsNotesExactly(w, id, update, user, root, DeskOf(w), w.world.clock);
    }
  }

  lemma OpenKeepsNotes(w: DeskWorld, booking: Id, user: Id, root: Option<Id>, id: Id)
    requires NotesKept(w.disputes)
    ensures NotesKept(DeskStep(w, OpenDispute(booking, user, root, id)).disputes)
  {
    if Open(DeskOf(w), booking, user, root, id).1.Ok? {
      OpenWrites(DeskOf(w), booking, user, root, id);
    }
  }

  lemma StepKeepsNotes(w: DeskWorld, e: DeskEvent)
    requires NotesKept(w.disputes) && !e.CommitPending?
    ensures NotesKept(DeskStep(w, e).disputes)
  {
    match e
    case OpenDispute(booking, user, root, id) => OpenKeepsNotes(w, booking, user, root, id);
    case TransitionAtOnce(id, update, user, root) => AtOnceKeepsNotes(w, id, update, user, root);
    case _ =>
  }

  // ---------- Runs ----------

  /** A pending transition that ends the dispute brings notes, if any, that are not
      blank; it ends the dispute if its new or its expected status does. */
  ghost predicate PlansNoted(pending: map<Id, TransitionPlan>) {
    forall tx :: tx in pending ==> PlanNoted(pending[tx])
  }

  predicate PlanNoted(plan: TransitionPlan) {
    && plan.terminal == Terminal(if plan.status.Some? then plan.status.value else plan.expected)
    && (plan.terminal && plan.notes.Some? ==> NonBlank(plan.notes))
  }

  lemma PlanIsNoted(desk: Desk, id: Id, update: Update, user: Id, root: Option<Id>)
    requires PlanTransition(desk, id, update, user, root).Ok?
    ensures PlanNoted(PlanTransition(desk, id, update, user, root).value)
  {
  }

  /** A commit that ends its dispute without notes of its own, on a row that has lost the
      notes it read. */
  predicate LosesNotes(w: DeskWorld, e: DeskEvent) {
    && e.CommitPending? && e.tx in w.pending
    && var plan := w.pending[e.tx];
       && CommitTransition(DeskOf(w), plan, w.world.clock).1.Ok?
       && plan.dispute in w.disputes
       && plan.terminal && plan.notes.None? && !NonBlank(w.disputes[plan.dispute].notes)
  }

  lemma CommitPendingNotesExactly(w: DeskWorld, tx: Id)
    requires NotesKept(w.disputes) && PlansNoted(w.pending) && tx in w.pending
    ensures NotesKept(DeskStep(w, CommitPending(tx)).disputes) <==> !LosesNotes(w, CommitPending(tx))
  {
    var plan := w.pending[tx];
    assert PlanNoted(plan);
    if CommitTransition(DeskOf(w), plan, w.world.clock).1.Ok? {
      CommitWrites(DeskOf(w), plan, w.world.clock);
      PlannedNotes(w.disputes, plan, w.world.clock);
    }
  }

  lemma PlannedNotes(disputes: map<Id, Dispute>, plan: TransitionPlan, now: Time)
    requires NotesKept(disputes) && PlanNoted(plan)
    requires plan.dispute in disputes && disputes[plan.dispute].status == plan.expected
    ensures NotesKept(disputes[plan.dispute := UpdatedDispute(disputes[plan.dispute], plan, now)])
       <==> !(plan.terminal && plan.notes.None? && !NonBlank(disputes[plan.dispute].notes))
  {
    var after := disputes[plan.dispute := UpdatedDispute(disputes[plan.dispute], plan, now)];
    assert Terminal(after[plan.dispute].status) <==> plan.terminal;
  }

  lemma StepKeepsPlansNoted(w: DeskWorld, e: DeskEvent)
    requires PlansNoted(w.pending)
    ensures PlansNoted(DeskStep(w, e).pending)
  {
    if e.ReadTransition? && PlanTransition(DeskOf(w), e.dispute, e.update, e.user, e.root).Ok? {
      PlanIsNoted(DeskOf(w), e.dispute, e.update, e.user, e.root);
    }
  }

  /** A step keeps the notes of every terminal dispute exactly when it is not such a
      commit. */
  lemma StepKeepsNotesExactly(w: DeskWorld, e: DeskEvent)
    requires NotesKept(w.disputes) && PlansNoted(w.pending)
    ensures NotesKept(DeskStep(w, e).disputes) <==> !LosesNotes(w, e)
  {
    if e.CommitPending? {
      if e.tx in w.pending { CommitPendingNotesExactly(w, e.tx); }
    } else {
      StepKeepsNotes(w, e);
    }
  }

  ghost predicate NotesThroughout(w: DeskWorld, events: seq<DeskEvent>)
    decreases |events|
  {
    NotesKept(w.disputes) && (events == [] || NotesThroughout(DeskStep(w, events[0]), events[1..]))
  }

  ghost predicate EverLosesNotes(w: DeskWorld, events: seq<DeskEvent>)
    decreases |events|
  {
    events != [] && (LosesNotes(w, events[0]) || EverLosesNotes(DeskStep(w, events[0]), events[1..]))
  }

  /** However transitions interleave, terminal disputes have non-blank notes in every
      state of a run exactly when the run has no such commit. */
  lemma {:induction false} NotesThroughoutExactly(w: DeskWorld, events: seq<DeskEvent>)
    requires NotesKept(w.disputes) && PlansNoted(w.pending)
    ensures NotesThroughout(w, events) <==> !EverLosesNotes(w, events)
    decreases |events|
  {
    if events != [] {
      StepKeepsNotesExactly(w, events[0]);
      StepKeepsPlansNoted(w, events[0]);
      if !LosesNotes(w, events[0]) {
        NotesThroughoutExactly(DeskStep(w, events[0]), events[1..]);
      }
    }
  }

  /** With every transition in one step, each terminal dispute has non-blank notes in
      every state of every run. */
  lemma {:induction false} NotesInEveryState(w: DeskWorld, events: seq<DeskEvent>)
    requires NotesKept(w.disputes)
    requires forall i :: 0 <= i < |events| ==> !events[i].CommitPending?
    ensures NotesKept(DeskRun(w, events).disputes)
    decreases |events|
  {
    if events != [] {
      StepKeepsNotes(w, events[0]);
      NotesInEveryState(DeskStep(w, events[0]), events[1..]);
    }
  }
}
