/** One trajectory row with its events, and the statements sessions run against it. */
module TrajectoryStore {
  import opened Options
  import opened ReplayModel

  datatype TrajectoryStatus = TrajectoryRunning | TrajectoryCompleted | TrajectoryFailed

  /** The status moves the transition table allows: a running trajectory completes or fails. */
  predicate IsValidTransition(current: TrajectoryStatus, target: TrajectoryStatus) {
    current.TrajectoryRunning? && (target.TrajectoryCompleted? || target.TrajectoryFailed?)
  }

  predicate IsTerminal(status: TrajectoryStatus) { status.TrajectoryCompleted? || status.TrajectoryFailed? }

  datatype Trajectory = Trajectory(status: TrajectoryStatus, nextSequence: nat, events: seq<Event>)

  /** An append call, after sanitizing, payload limits and component resolution. */
  datatype Request = Request(
    parent: Option<Id>,
    externalId: Option<string>,
    componentId: Option<Id>,
    content: EventContent)

  type Session = nat

  /** What a session has written and not committed; it holds the row lock meanwhile. */
  datatype Pending = Pending(owner: Session, row: Trajectory)

  /** `nextId` is the next unused event identifier: generated identifiers never repeat. */
  datatype Database = Database(committed: Trajectory, pending: Option<Pending>, nextId: Id)

  // ---------- what the rows promise ----------

  predicate Occurs(id: Id, events: seq<Event>) { exists e :: e in events && e.id == id }

  predicate ParentKnown(row: Trajectory, request: Request) {
    request.parent.None? || Occurs(request.parent.value, row.events)
  }

  /** Sequence numbers are exactly 1..next_sequence, in order, and the digests cover them. */
  ghost predicate Numbered(row: Trajectory) {
    && |row.events| == row.nextSequence
    && (forall i :: 0 <= i < |row.events| ==> row.events[i].sequenceNumber == i + 1)
    && (forall i :: 0 <= i < |row.events| ==> row.events[i].digest == Digest(i + 1, row.events[i].content))
  }

  /** Identifiers are unique, and so are external identifiers where set. */
  ghost predicate Distinct(events: seq<Event>) {
    forall i, j :: 0 <= i < j < |events| ==>
      events[i].id != events[j].id && (events[i].externalId.Some? ==> events[i].externalId != events[j].externalId)
  }

  /** Each parent link points to an earlier event. */
  ghost predicate Linked(events: seq<Event>) {
    forall i :: 0 <= i < |events| && events[i].parent.Some? ==> Occurs(events[i].parent.value, events[..i])
  }

  ghost predicate Consistent(row: Trajectory, nextId: Id) {
    && Numbered(row) && Distinct(row.events) && Linked(row.events)
    && forall e :: e in row.events ==> e.id < nextId
  }

  // ---------- the statements ----------

  function ByExternalId(events: seq<Event>, x: Option<string>): (r: Option<Event>)
    ensures r.Some? ==> r.value in events && r.value.externalId == x && x.Some?
    ensures r.None? && x.Some? ==> forall e :: e in events ==> e.externalId != x
  {
    if x.None? || events == [] then None
    else if events[0].externalId == x then Some(events[0])
    else ByExternalId(events[1..], x)
  }

  predicate Owns(db: Database, session: Session) { db.pending.Some? && db.pending.value.owner == session }

  function Rollback(db: Database, session: Session): Database {
    if Owns(db, session) then db.(pending := None) else db
  }

  function Commit(db: Database, session: Session): Database {
    if Owns(db, session) then db.(committed := db.pending.value.row, pending := None) else db
  }

  /** The conditional counter update: takes the row lock and a number, or updates nothing. */
  function Allocate(db: Database, session: Session): (Database, Option<nat>)
    requires db.pending.None?
  {
    var row := db.committed;
    if row.status.TrajectoryRunning? then
      (db.(pending := Some(Pending(session, row.(nextSequence := row.nextSequence + 1)))), Some(row.nextSequence + 1))
    else (db, None)
  }

  /** The conditional status update. */
  function Transition(db: Database, session: Session, from: TrajectoryStatus, to: TrajectoryStatus): (Database, bool)
    requires db.pending.None?
  {
    if db.committed.status == from then (db.(pending := Some(Pending(session, db.committed.(status := to)))), true)
    else (db, false)
  }

  function NewEvent(request: Request, id: Id, number: nat): Event {
    Event(id, number, request.parent, request.externalId, request.componentId, request.content,
          Digest(number, request.content))
  }

  /** The unique indexes of the events table. */
  predicate Violates(events: seq<Event>, e: Event) {
    exists x :: x in events &&
      (x.id == e.id || x.sequenceNumber == e.sequenceNumber || (e.externalId.Some? && x.externalId == e.externalId))
  }

  function Insert(db: Database, session: Session, e: Event): (Database, bool)
    requires Owns(db, session)
  {
    var row := db.pending.value.row;
    if Violates(row.events, e) then (db.(nextId := db.nextId + 1), false)
    else (Database(db.committed, Some(Pending(session, row.(events := row.events + [e]))), db.nextId + 1), true)
  }

  datatype Outcome =
    | Recorded(event: Event)
    | Returned(event: Event)
    | DuplicateEvent
    | UnknownParent
    | TerminalTrajectory
    | IntegrityFailure

  /** The early duplicate check compares under the earlier row's own sequence number. */
  function Reconcile(existing: Event, content: EventContent): Outcome {
    if existing.digest == Digest(existing.sequenceNumber, content) then Returned(existing) else DuplicateEvent
  }

  // ---------- one call without interference ----------

  /** What appending does when no other session is writing. */
  function AppendAlone(db: Database, request: Request): (Database, Outcome)
  {
    var earlier := ByExternalId(db.committed.events, request.externalId);
    if !ParentKnown(db.committed, request) then (db, UnknownParent)
    else if earlier.Some? then
      (db, if earlier.value.content == request.content then Returned(earlier.value) else DuplicateEvent)
    else if !db.committed.status.TrajectoryRunning? then (db, TerminalTrajectory)
    else
      var number := db.committed.nextSequence + 1;
      var e := NewEvent(request, db.nextId, number);
      (Database(db.committed.(nextSequence := number, events := db.committed.events + [e]), None, db.nextId + 1), Recorded(e))
  }

  /** The parent named, if any, is some recorded event of the trajectory. */
  predicate NamesRecordedParent(row: Trajectory, request: Request) {
    request.parent.Some? ==> exists e :: e in row.events && e.id == request.parent.value
  }

  predicate NamesRecordedEvent(row: Trajectory, request: Request) {
    request.externalId.Some? && exists e :: e in row.events && e.externalId == request.externalId
  }

  predicate RepeatsRecordedEvent(row: Trajectory, request: Request) {
    request.externalId.Some? && exists e :: e in row.events && e.externalId == request.externalId && e.content == request.content
  }

  /** How an undisturbed append ends, in terms of the recorded events: which refusals, which repeats, and what a
      recorded event holds. */
  lemma AppendAloneExactly(db: Database, request: Request)
    requires Consistent(db.committed, db.nextId)
    ensures var row, (after, outcome) := db.committed, AppendAlone(db, request);
      && (outcome.UnknownParent? <==> !NamesRecordedParent(row, request))
      && (outcome.Returned? <==> NamesRecordedParent(row, request) && RepeatsRecordedEvent(row, request))
      && (outcome.DuplicateEvent? <==>
            NamesRecordedParent(row, request) && NamesRecordedEvent(row, request) && !RepeatsRecordedEvent(row, request))
      && (outcome.TerminalTrajectory? <==>
            NamesRecordedParent(row, request) && !NamesRecordedEvent(row, request) && row.status != TrajectoryRunning)
      && (outcome.Recorded? <==>
            NamesRecordedParent(row, request) && !NamesRecordedEvent(row, request) && row.status == TrajectoryRunning)
      && (outcome.Recorded? ==>
            && outcome.event.content == request.content && outcome.event.parent == request.parent
            && outcome.event.externalId == request.externalId && outcome.event.componentId == request.componentId
            && outcome.event.sequenceNumber == |row.events| + 1 && outcome.event.id !in (set e | e in row.events :: e.id)
            && outcome.event.digest == Digest(|row.events| + 1, request.content)
            && after.committed.events == row.events + [outcome.event] && after.committed.status == row.status)
      && (!outcome.Recorded? ==> after == db)
  {
    var row := db.committed;
    var earlier := ByExternalId(row.events, request.externalId);
    hide Linked, ByExternalId;
    if earlier.Some? && RepeatsRecordedEvent(row, request) {
      var e :| e in row.events && e.externalId == request.externalId && e.content == request.content;
      OneHolder(row, e, earlier.value);
    }
    assert NamesRecordedEvent(row, request) <==> earlier.Some?;
    assert NamesRecordedParent(row, request) <==> ParentKnown(row, request);
  }

  lemma OneHolder(row: Trajectory, e: Event, f: Event)
    requires Distinct(row.events) && e in row.events && f in row.events && e.externalId.Some? && e.externalId == f.externalId
    ensures e == f
  {
    var i :| 0 <= i < |row.events| && row.events[i] == e;
    var j :| 0 <= j < |row.events| && row.events[j] == f;
  }

  lemma NothingViolated(row: Trajectory, nextId: Id, e: Event)
    requires Consistent(row, nextId) && e.id == nextId && e.sequenceNumber == row.nextSequence + 1
    ensures Violates(row.events, e) <==> ByExternalId(row.events, e.externalId).Some?
  {
    forall x | x in row.events ensures x.id != e.id && x.sequenceNumber != e.sequenceNumber { }
  }

  /** The recorder over one trajectory row: every statement changes the stored state in place. */
  class Recorder {
    var committed: Trajectory
    var pending: Option<Pending>
    var nextId: Id

    constructor ()
      ensures Db() == Database(Trajectory(TrajectoryRunning, 0, []), None, 0) && Valid()
    {
      committed, pending, nextId := Trajectory(TrajectoryRunning, 0, []), None, 0;
    }

    function Db(): Database
      reads this
    {
      Database(committed, pending, nextId)
    }

    ghost predicate Valid()
      reads this
    {
      Consistent(committed, nextId)
    }

    method AllocateSequence(session: Session) returns (number: Option<nat>)
      requires pending.None?
      modifies this
      ensures (Db(), number) == Allocate(old(Db()), session)
    {
      if committed.status.TrajectoryRunning? {
        pending := Some(Pending(session, committed.(nextSequence := committed.nextSequence + 1)));
        number := Some(committed.nextSequence + 1);
      } else {
        number := None;
      }
    }

    method TransitionStatus(session: Session, from: TrajectoryStatus, to: TrajectoryStatus) returns (updated: bool)
      requires pending.None?
      modifies this
      ensures (Db(), updated) == Transition(old(Db()), session, from, to)
    {
      updated := committed.status == from;
      if updated { pending := Some(Pending(session, committed.(status := to))); }
    }

    method AddEvent(session: Session, e: Event) returns (inserted: bool)
      requires Owns(Db(), session)
      modifies this
      ensures (Db(), inserted) == Insert(old(Db()), session, e)
    {
      var row := pending.value.row;
      inserted := !Violates(row.events, e);
      if inserted { pending := Some(Pending(session, row.(events := row.events + [e]))); }
      nextId := nextId + 1;
    }

    method CommitSession(session: Session)
      modifies this
      ensures Db() == Commit(old(Db()), session)
    {
      if pending.Some? && pending.value.owner == session { committed, pending := pending.value.row, None; }
    }

    /** An append with its commit, undisturbed: known parent, duplicate check, number, insert. */
    method AppendEvent(session: Session, request: Request) returns (outcome: Outcome)
      requires Valid() && pending.None?
      modifies this
      ensures (Db(), outcome) == AppendAlone(old(Db()), request)
      ensures Valid() && pending.None?
    {
      hide Numbered, Distinct, Linked, Violates, Occurs;
      if !ParentKnown(committed, request) { return UnknownParent; }
      var earlier := ByExternalId(committed.events, request.externalId);
      if earlier.Some? {
        StoredDigest(committed, earlier.value);
        return Reconcile(earlier.value, request.content);
      }
      var number := AllocateSequence(session);
      if number.None? { return TerminalTrajectory; }
      var e := NewEvent(request, nextId, number.value);
      NothingViolated(committed, nextId, e);
      ExtendConsistent(committed, nextId, request);
      var inserted := AddEvent(session, e);
      CommitSession(session);
      outcome := Recorded(e);
    }

    /** Completing or failing with its commit, undisturbed. */
    method Finish(session: Session, target: TrajectoryStatus) returns (changed: bool)
      requires Valid() && pending.None?
      modifies this
      ensures changed <==> old(committed.status) == TrajectoryRunning && target != TrajectoryRunning
      ensures Db() == if changed then old(Db()).(committed := old(committed).(status := target)) else old(Db())
      ensures Valid()
    {
      if !IsValidTransition(committed.status, target) { return false; }
      changed := TransitionStatus(session, committed.status, target);
      CommitSession(session);
    }
  }

  lemma StoredDigest(row: Trajectory, e: Event)
    requires Numbered(row) && e in row.events
    ensures e.digest == Digest(e.sequenceNumber, e.content) && 1 <= e.sequenceNumber <= row.nextSequence
  {
  }

  /** Extending a consistent row by the event just numbered keeps it consistent. */
  lemma ExtendConsistent(row: Trajectory, nextId: Id, request: Request)
    requires Consistent(row, nextId) && ParentKnown(row, request)
    requires ByExternalId(row.events, request.externalId).None?
    ensures var e := NewEvent(request, nextId, row.nextSequence + 1);
      Consistent(row.(nextSequence := row.nextSequence + 1, events := row.events + [e]), nextId + 1)
  {
    hide Occurs, ByExternalId;
    var e := NewEvent(request, nextId, row.nextSequence + 1);
    var events := row.events + [e];
    forall i | 0 <= i < |events| && events[i].parent.Some? ensures Occurs(events[i].parent.value, events[..i]) {
      if i < |row.events| { assert events[..i] == row.events[..i]; } else { assert events[..i] == row.events; }
    }
    forall i | 0 <= i < |row.events| ensures events[i].id != e.id && (events[i].externalId.Some? ==> events[i].externalId != e.externalId) {
      assert row.events[i] in row.events;
    }
  }

  // ---------- ancestor walks ----------

  function EventOf(id: Id, events: seq<Event>): (e: Event)
    requires Occurs(id, events)
    ensures e in events && e.id == id
  {
    if events[0].id == id then events[0] else
      assert Occurs(id, events[1..]) by { var e :| e in events && e.id == id; }
      EventOf(id, events[1..])
  }

  /** Following parent links from an event: each step lands on a smaller sequence number, so the
      walk ends, and it visits at most sequenceNumber - 1 ancestors. */
  function Ancestors(row: Trajectory, e: Event): (walk: seq<Event>)
    requires Numbered(row) && Linked(row.events) && e in row.events
    ensures |walk| < e.sequenceNumber
    ensures forall i :: 0 <= i < |walk| ==> walk[i] in row.events && walk[i].sequenceNumber < e.sequenceNumber
    ensures forall i, j :: 0 <= i < j < |walk| ==> walk[j].sequenceNumber < walk[i].sequenceNumber
    decreases e.sequenceNumber
  {
    ParentIsEarlier(row, e);
    if e.parent.None? then [] else
      var parent := EventOf(e.parent.value, row.events[..e.sequenceNumber - 1]);
      assert parent in row.events && parent.sequenceNumber < e.sequenceNumber;
      hide Occurs, Numbered, Linked;
      [parent] + Ancestors(row, parent)
  }

  lemma ParentIsEarlier(row: Trajectory, e: Event)
    requires Numbered(row) && Linked(row.events) && e in row.events
    ensures 1 <= e.sequenceNumber <= |row.events|
    ensures e.parent.Some? ==> Occurs(e.parent.value, row.events[..e.sequenceNumber - 1])
    ensures forall x :: x in row.events[..e.sequenceNumber - 1] ==> x.sequenceNumber < e.sequenceNumber && x in row.events
  {
    hide Occurs;
    var i :| 0 <= i < |row.events| && row.events[i] == e;
  }
}
