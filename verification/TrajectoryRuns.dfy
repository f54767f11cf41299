/** Any number of sessions appending to and closing one trajectory, interleaved statement by statement. */
module TrajectoryRuns {
  import opened Options
  import opened ReplayModel
  import opened TrajectoryStore

  /** How far a session is with its current call. */
  datatype Phase =
    | Idle
    | Requested(request: Request)
    | Checking(request: Request)
    | Ready(request: Request)
    | Allocated(request: Request, number: nat)
    | Inserted(request: Request, event: Event)
    | Lost(request: Request, number: nat)
    | Answered(request: Request, outcome: Outcome)
    | Closing(target: TrajectoryStatus)
    | Transitioning(from: TrajectoryStatus, target: TrajectoryStatus)
    | Transitioned(target: TrajectoryStatus)
    | Settled(target: TrajectoryStatus, changed: bool)

  datatype System = System(db: Database, sessions: map<Session, Phase>)

  /** A session starts a call, executes its next statement, or dies. */
  datatype Action = Append(request: Request) | Close(target: TrajectoryStatus) | Proceed | Crash

  datatype Move = Move(session: Session, action: Action)

  function PhaseOf(s: System, c: Session): Phase { if c in s.sessions then s.sessions[c] else Idle }

  predicate AtRest(p: Phase) { p.Idle? || p.Answered? || p.Settled? }

  /** The phases in which a session holds the row lock. */
  predicate Holds(p: Phase) { p.Allocated? || p.Inserted? || p.Transitioned? }

  // ---------- one statement of an append ----------

  function CheckParent(db: Database, c: Session, r: Request): (Database, Phase) {
    if ParentKnown(db.committed, r) then (db, Checking(r)) else (db, Answered(r, UnknownParent))
  }

  function CheckDuplicate(db: Database, c: Session, r: Request): (Database, Phase) {
    var earlier := ByExternalId(db.committed.events, r.externalId);
    if earlier.Some? then (db, Answered(r, Reconcile(earlier.value, r.content))) else (db, Ready(r))
  }

  /** Waits while another session holds the row. */
  function TakeNumber(db: Database, c: Session, r: Request): (Database, Phase) {
    if db.pending.Some? then (db, Ready(r)) else
      var (after, number) := Allocate(db, c);
      (after, if number.Some? then Allocated(r, number.value) else Answered(r, TerminalTrajectory))
  }

  function InsertRow(db: Database, c: Session, r: Request, number: nat): (Database, Phase) {
    if !Owns(db, c) then (db, Answered(r, IntegrityFailure)) else
      var e := NewEvent(r, db.nextId, number);
      var (after, inserted) := Insert(db, c, e);
      if inserted then (after, Inserted(r, e)) else (Rollback(after, c), Lost(r, number))
  }

  /** After losing: the hash compared was built with the loser's own sequence number. */
  function LookAgain(db: Database, c: Session, r: Request, number: nat): (Database, Phase) {
    var earlier := ByExternalId(db.committed.events, r.externalId);
    (db, Answered(r, if earlier.None? then IntegrityFailure
                     else if earlier.value.digest == Digest(number, r.content) then Returned(earlier.value)
                     else DuplicateEvent))
  }

  // ---------- one statement of a close ----------

  function ReadStatus(db: Database, c: Session, target: TrajectoryStatus): (Database, Phase) {
    if IsValidTransition(db.committed.status, target) then (db, Transitioning(db.committed.status, target))
    else (db, Settled(target, false))
  }

  function UpdateStatus(db: Database, c: Session, from: TrajectoryStatus, target: TrajectoryStatus): (Database, Phase) {
    if db.pending.Some? then (db, Transitioning(from, target)) else
      var (after, updated) := Transition(db, c, from, target);
      (after, if updated then Transitioned(target) else Settled(target, false))
  }

  function Advance(db: Database, c: Session, p: Phase): (Database, Phase) {
    match p
    case Requested(r) => CheckParent(db, c, r)
    case Checking(r) => CheckDuplicate(db, c, r)
    case Ready(r) => TakeNumber(db, c, r)
    case Allocated(r, number) => InsertRow(db, c, r, number)
    case Inserted(r, e) => (Commit(db, c), Answered(r, Recorded(e)))
    case Lost(r, number) => LookAgain(db, c, r, number)
    case Closing(target) => ReadStatus(db, c, target)
    case Transitioning(from, target) => UpdateStatus(db, c, from, target)
    case Transitioned(target) => (Commit(db, c), Settled(target, true))
    case _ => (db, p)
  }

  function Act(db: Database, c: Session, p: Phase, a: Action): (Database, Phase) {
    match a
    case Append(r) => if AtRest(p) then (db, Requested(r)) else (db, p)
    case Close(target) => if AtRest(p) then (db, Closing(target)) else (db, p)
    case Proceed => Advance(db, c, p)
    case Crash => (Rollback(db, c), Idle)
  }

  function Step(s: System, m: Move): System {
    var (db, p) := Act(s.db, m.session, PhaseOf(s, m.session), m.action);
    System(db, s.sessions[m.session := p])
  }

  function Run(s: System, moves: seq<Move>): System
    decreases |moves|
  {
    if moves == [] then s else Run(Step(s, moves[0]), moves[1..])
  }

  function Start(): System { System(Database(Trajectory(TrajectoryRunning, 0, []), None, 0), map[]) }

  // ---------- the invariant ----------

  /** The event a session wrote carries what it asked for. */
  predicate Carries(e: Event, r: Request) {
    e.content == r.content && e.externalId == r.externalId && e.parent == r.parent && e.componentId == r.componentId
  }

  predicate Taken(row: Trajectory, x: Option<string>, below: int) {
    x.Some? && exists e :: e in row.events && e.externalId == x && e.sequenceNumber < below
  }

  predicate Truthful(row: Trajectory, r: Request, outcome: Outcome) {
    match outcome
    case Recorded(e) => e in row.events && Carries(e, r)
    case Returned(e) => e in row.events && r.externalId.Some? && e.externalId == r.externalId && e.content == r.content
    case DuplicateEvent => Taken(row, r.externalId, row.nextSequence + 1)
    case TerminalTrajectory => IsTerminal(row.status)
    case UnknownParent => r.parent.Some?
    case IntegrityFailure => false
  }

  function Extended(row: Trajectory, e: Event): Trajectory {
    row.(nextSequence := row.nextSequence + 1, events := row.events + [e])
  }

  ghost predicate Fits(db: Database, c: Session, p: Phase) {
    match p
    case Checking(r) => ParentKnown(db.committed, r)
    case Ready(r) => ParentKnown(db.committed, r)
    case Allocated(r, number) =>
      && Owns(db, c) && ParentKnown(db.committed, r) && db.committed.status.TrajectoryRunning?
      && number == db.committed.nextSequence + 1
      && db.pending.value.row == db.committed.(nextSequence := db.committed.nextSequence + 1)
    case Inserted(r, e) =>
      && Owns(db, c) && Carries(e, r) && db.committed.status.TrajectoryRunning?
      && db.pending.value.row == Extended(db.committed, e) && Consistent(Extended(db.committed, e), db.nextId)
    case Lost(r, number) => Taken(db.committed, r.externalId, number)
    case Transitioning(from, target) => IsValidTransition(from, target)
    case Transitioned(target) =>
      && Owns(db, c) && IsValidTransition(db.committed.status, target)
      && db.pending.value.row == db.committed.(status := target)
    case Answered(r, outcome) => Truthful(db.committed, r, outcome)
    case _ => true
  }

  ghost predicate Inv(s: System) {
    && Consistent(s.db.committed, s.db.nextId)
    && (s.db.pending.Some? ==> Holds(PhaseOf(s, s.db.pending.value.owner)))
    && forall c :: Fits(s.db, c, PhaseOf(s, c))
  }

  /** Commits only extend the event list, and close a running trajectory at most once. */
  ghost predicate Evolves(before: Trajectory, after: Trajectory) {
    && before.events <= after.events
    && before.nextSequence <= after.nextSequence
    && (IsTerminal(before.status) ==> after == before)
  }

  // ---------- every statement keeps it ----------

  /** What a statement of session c may do to the database. */
  ghost predicate Polite(before: Database, c: Session, p: Phase, after: Database, q: Phase) {
    && Consistent(after.committed, after.nextId)
    && Evolves(before.committed, after.committed)
    && Fits(after, c, q)
    && (before.pending.Some? && before.pending.value.owner != c ==> after == before)
    && (after.pending.Some? ==> after.pending == before.pending || after.pending.value.owner == c)
    && (Owns(after, c) ==> Holds(q))
  }

  lemma ChecksPolite(db: Database, c: Session, r: Request)
    requires Consistent(db.committed, db.nextId) && !Owns(db, c)
    ensures var (a, q) := CheckParent(db, c, r); Polite(db, c, Requested(r), a, q)
    ensures ParentKnown(db.committed, r) ==> var (a, q) := CheckDuplicate(db, c, r); Polite(db, c, Checking(r), a, q)
    ensures ParentKnown(db.committed, r) ==> var (a, q) := TakeNumber(db, c, r); Polite(db, c, Ready(r), a, q)
  {
    assert ParentKnown(db.committed, r) || r.parent.Some?;
    hide Numbered, Distinct, Linked, ParentKnown;
    var earlier := ByExternalId(db.committed.events, r.externalId);
    if earlier.Some? { StoredDigest(db.committed, earlier.value); }
  }

  lemma InsertPolite(db: Database, c: Session, r: Request, number: nat)
    requires Consistent(db.committed, db.nextId) && Fits(db, c, Allocated(r, number))
    ensures var (a, q) := InsertRow(db, c, r, number); Polite(db, c, Allocated(r, number), a, q)
  {
    hide Numbered, Distinct, Linked, ParentKnown, Violates;
    var e, row := NewEvent(r, db.nextId, number), db.committed;
    NothingViolated(row, db.nextId, e);
    var earlier := ByExternalId(row.events, r.externalId);
    if earlier.None? {
      ExtendConsistent(row, db.nextId, r);
    } else {
      StoredDigest(row, earlier.value);
    }
  }

  lemma LookAgainPolite(db: Database, c: Session, r: Request, number: nat)
    requires Consistent(db.committed, db.nextId) && !Owns(db, c) && Taken(db.committed, r.externalId, number)
    ensures var (a, q) := LookAgain(db, c, r, number); Polite(db, c, Lost(r, number), a, q) && q == Answered(r, DuplicateEvent)
  {
    hide Linked, Violates;
    var row := db.committed;
    var e :| e in row.events && e.externalId == r.externalId && e.sequenceNumber < number;
    var found := ByExternalId(row.events, r.externalId).value;
    OneHolder(row, e, found);
    hide Distinct;
    StoredDigest(row, e);
  }

  lemma ClosePolite(db: Database, c: Session, p: Phase)
    requires Consistent(db.committed, db.nextId) && Fits(db, c, p) && (Owns(db, c) ==> Holds(p))
    requires p.Closing? || p.Transitioning? || p.Transitioned? || p.Inserted?
    ensures var (a, q) := Advance(db, c, p); Polite(db, c, p, a, q)
  {
    if p.Transitioned? { StatusAside(db.committed, db.nextId, p.target); }
    hide Numbered, Distinct, Linked;
  }

  lemma StatusAside(row: Trajectory, nextId: Id, status: TrajectoryStatus)
    requires Consistent(row, nextId)
    ensures Consistent(row.(status := status), nextId)
  {
  }

  lemma ActPolite(db: Database, c: Session, p: Phase, a: Action)
    requires Consistent(db.committed, db.nextId) && Fits(db, c, p) && (Owns(db, c) ==> Holds(p))
    ensures var (d, q) := Act(db, c, p, a); Polite(db, c, p, d, q)
  {
    hide Consistent, ParentKnown;
    if a.Proceed? && (p.Requested? || p.Checking? || p.Ready?) {
      hide CheckParent, CheckDuplicate, TakeNumber, Polite;
      ChecksPolite(db, c, p.request);
    } else if a.Proceed? && p.Allocated? {
      hide InsertRow, Polite;
      InsertPolite(db, c, p.request, p.number);
    } else if a.Proceed? && p.Lost? {
      hide LookAgain, Polite;
      LookAgainPolite(db, c, p.request, p.number);
    } else if a.Proceed? && (p.Closing? || p.Transitioning? || p.Transitioned? || p.Inserted?) {
      hide Polite, Advance;
      ClosePolite(db, c, p);
    }
  }

  /** What other sessions know stays true. */
  lemma OthersFit(before: Database, after: Database, c: Session, p: Phase, d: Session, q: Phase, x: Phase)
    requires Polite(before, c, p, after, x) && Fits(before, d, q) && c != d
    ensures Fits(after, d, q)
  {
    hide Consistent;
    if !Holds(q) {
      OccurrencesStay(before.committed, after.committed);
    }
  }

  lemma OccurrencesStay(before: Trajectory, after: Trajectory)
    requires Evolves(before, after)
    ensures forall e :: e in before.events ==> e in after.events
    ensures forall r :: ParentKnown(before, r) ==> ParentKnown(after, r)
    ensures forall x, n, m :: Taken(before, x, n) && n <= m ==> Taken(after, x, m)
  {
    forall e | e in before.events ensures e in after.events { }
    forall r | ParentKnown(before, r) ensures ParentKnown(after, r) {
      if r.parent.Some? {
        var e :| e in before.events && e.id == r.parent.value;
        assert e in after.events;
      }
    }
    forall x, n, m | Taken(before, x, n) && n <= m ensures Taken(after, x, m) {
      var e :| e in before.events && e.externalId == x && e.sequenceNumber < n;
      assert e in after.events;
    }
  }

  lemma StepKeepsInv(s: System, m: Move)
    requires Inv(s)
    ensures Inv(Step(s, m)) && Evolves(s.db.committed, Step(s, m).db.committed)
  {
    hide Consistent, Fits, Act, Evolves;
    var t, c := Step(s, m), m.session;
    ActPolite(s.db, c, PhaseOf(s, c), m.action);
    forall d ensures Fits(t.db, d, PhaseOf(t, d)) {
      if d != c { OthersFit(s.db, t.db, c, PhaseOf(s, c), d, PhaseOf(s, d), PhaseOf(t, c)); }
    }
  }

  /** Over every run: the invariant holds throughout, committed events are never changed or
      removed, and a terminal trajectory never changes again. */
  lemma {:induction false} RunKeepsInv(s: System, moves: seq<Move>)
    requires Inv(s)
    ensures Inv(Run(s, moves)) && Evolves(s.db.committed, Run(s, moves).db.committed)
    decreases |moves|
  {
    hide Inv;
    if moves != [] {
      StepKeepsInv(s, moves[0]);
      RunKeepsInv(Step(s, moves[0]), moves[1..]);
    }
  }

  lemma StartInv()
    ensures Inv(Start())
  {
  }

  /** In every reachable state: sequence numbers are exactly 1..next_sequence, external
      identifiers and parent links are sound, and every answer given is truthful. */
  lemma EveryRunIsSound(moves: seq<Move>)
    ensures var s := Run(Start(), moves);
      && Consistent(s.db.committed, s.db.nextId)
      && forall c :: PhaseOf(s, c).Answered? ==> Truthful(s.db.committed, PhaseOf(s, c).request, PhaseOf(s, c).outcome)
  {
    hide Consistent;
    StartInv();
    RunKeepsInv(Start(), moves);
    var s := Run(Start(), moves);
    hide Run;
    forall c | PhaseOf(s, c).Answered? ensures Truthful(s.db.committed, PhaseOf(s, c).request, PhaseOf(s, c).outcome) {
      assert Fits(s.db, c, PhaseOf(s, c));
    }
  }

  // ---------- retries ----------

  /** Session c only executes statements of its current call. */
  ghost predicate OnlyProceeds(c: Session, moves: seq<Move>) {
    forall m :: m in moves && m.session == c ==> m.action.Proceed?
  }

  function MovesOf(c: Session, moves: seq<Move>): nat {
    if moves == [] then 0 else (if moves[0].session == c then 1 else 0) + MovesOf(c, moves[1..])
  }

  /** The call of a session whose external identifier is already recorded, after k of its statements. */
  function RetryPhase(r: Request, e: Event, k: nat): Phase {
    if k == 0 then Requested(r) else if k == 1 then Checking(r)
    else Answered(r, if e.content == r.content then Returned(e) else DuplicateEvent)
  }

  lemma RetryStep(s: System, m: Move, c: Session, r: Request, e: Event, k: nat)
    requires Inv(s) && e in s.db.committed.events && e.externalId == r.externalId && e.externalId.Some?
    requires ParentKnown(s.db.committed, r) && PhaseOf(s, c) == RetryPhase(r, e, k)
    requires m.session == c ==> m.action.Proceed?
    ensures PhaseOf(Step(s, m), c) == RetryPhase(r, e, if m.session == c then k + 1 else k)
    ensures m.session == c ==> Step(s, m).db == s.db
  {
    hide Linked, ParentKnown, TakeNumber, InsertRow, LookAgain, ReadStatus, UpdateStatus;
    if m.session == c && k == 1 {
      var found := ByExternalId(s.db.committed.events, r.externalId).value;
      OneHolder(s.db.committed, e, found);
      StoredDigest(s.db.committed, e);
    }
  }

  /** None of the session's own statements changes the database. */
  predicate NeverWrites(c: Session, s: System, moves: seq<Move>)
    decreases |moves|
  {
    moves == [] ||
    ((moves[0].session == c ==> Step(s, moves[0]).db == s.db) && NeverWrites(c, Step(s, moves[0]), moves[1..]))
  }

  /** A retry whose earlier event is committed never waits, never writes and never takes a number:
      whatever the others do, after two of its own statements it returns that very event when the
      content agrees and is rejected when it differs. */
  lemma {:induction false} RetryFindsEarlierEvent(s: System, moves: seq<Move>, c: Session, r: Request, e: Event, k: nat)
    requires Inv(s) && e in s.db.committed.events && e.externalId == r.externalId && e.externalId.Some?
    requires ParentKnown(s.db.committed, r) && PhaseOf(s, c) == RetryPhase(r, e, k) && OnlyProceeds(c, moves)
    ensures PhaseOf(Run(s, moves), c) == RetryPhase(r, e, k + MovesOf(c, moves))
    ensures NeverWrites(c, s, moves)
    decreases |moves|
  {
    hide Inv, ParentKnown, RetryPhase, Step;
    if moves != [] {
      var t := Step(s, moves[0]);
      RetryStep(s, moves[0], c, r, e, k);
      StepKeepsInv(s, moves[0]);
      OccurrencesStay(s.db.committed, t.db.committed);
      assert OnlyProceeds(c, moves[1..]);
      RetryFindsEarlierEvent(t, moves[1..], c, r, e, if moves[0].session == c then k + 1 else k);
    }
  }

  /** Past the duplicate check of an append that found nothing. */
  predicate PastCheck(p: Phase, r: Request) {
    || p == Ready(r) || (p.Allocated? && p.request == r) || (p.Inserted? && p.request == r) || (p.Lost? && p.request == r)
    || (p.Answered? && p.request == r && !p.outcome.Returned?)
  }

  lemma PastCheckStep(s: System, m: Move, c: Session, r: Request)
    requires Inv(s) && PastCheck(PhaseOf(s, c), r) && (m.session == c ==> m.action.Proceed?)
    ensures PastCheck(PhaseOf(Step(s, m), c), r)
  {
    assert Fits(s.db, c, PhaseOf(s, c));
    hide Consistent, ParentKnown, Violates;
    if m.session == c && PhaseOf(s, c).Lost? {
      assert !Owns(s.db, c);
      LookAgainPolite(s.db, c, r, PhaseOf(s, c).number);
    }
  }

  /** Once past the check, a call never gets the earlier event back, identical or not: the loser of
      the insert race compares a hash made with its own number and is rejected. */
  lemma {:induction false} PastCheckNeverReturns(s: System, moves: seq<Move>, c: Session, r: Request)
    requires Inv(s) && PastCheck(PhaseOf(s, c), r) && OnlyProceeds(c, moves)
    ensures PastCheck(PhaseOf(Run(s, moves), c), r)
    decreases |moves|
  {
    hide Inv, PastCheck, Step;
    if moves != [] {
      PastCheckStep(s, moves[0], c, r);
      StepKeepsInv(s, moves[0]);
      assert OnlyProceeds(c, moves[1..]);
      PastCheckNeverReturns(Step(s, moves[0]), moves[1..], c, r);
    }
  }

  // ---------- the parent check ----------

  /** The parent check refuses a call exactly when a parent is named and no event committed at that statement carries
      its id. */
  lemma ParentCheckExactly(s: System, c: Session, r: Request)
    requires PhaseOf(s, c) == Requested(r)
    ensures var t := Step(s, Move(c, Proceed));
      && t.db == s.db
      && (PhaseOf(t, c) == Answered(r, UnknownParent)
          <==> r.parent.Some? && forall e :: e in s.db.committed.events ==> e.id != r.parent.value)
      && (PhaseOf(t, c) == Checking(r)
          <==> r.parent.None? || exists e :: e in s.db.committed.events && e.id == r.parent.value)
  {
  }

  /** The call got past its parent check, or was refused by it. */
  predicate Checked(p: Phase, r: Request, known: bool) {
    if known then
      || p == Checking(r) || p == Ready(r) || (p.Allocated? && p.request == r) || (p.Inserted? && p.request == r)
      || (p.Lost? && p.request == r) || (p.Answered? && p.request == r && !p.outcome.UnknownParent?)
    else p == Answered(r, UnknownParent)
  }

  lemma {:induction false} CheckedStays(s: System, moves: seq<Move>, c: Session, r: Request, known: bool)
    requires Checked(PhaseOf(s, c), r, known) && OnlyProceeds(c, moves)
    ensures Checked(PhaseOf(Run(s, moves), c), r, known)
    decreases |moves|
  {
    if moves != [] {
      var t := Step(s, moves[0]);
      assert Checked(PhaseOf(t, c), r, known) by { hide ByExternalId, Allocate, Insert, ParentKnown; }
      hide Step, Checked;
      assert OnlyProceeds(c, moves[1..]);
      CheckedStays(t, moves[1..], c, r, known);
    }
  }

  /** Over every interleaving: a call ends as UnknownParent if and only if, when it checked, a parent was named and no
      committed event carried its id. */
  lemma UnknownParentExactly(s: System, c: Session, r: Request, moves: seq<Move>)
    requires PhaseOf(s, c) == Requested(r) && OnlyProceeds(c, moves)
    requires PhaseOf(Run(Step(s, Move(c, Proceed)), moves), c).Answered?
    ensures PhaseOf(Run(Step(s, Move(c, Proceed)), moves), c).outcome.UnknownParent?
       <==> r.parent.Some? && forall e :: e in s.db.committed.events ==> e.id != r.parent.value
  {
    ParentCheckExactly(s, c, r);
    var t := Step(s, Move(c, Proceed));
    hide Run, Step;
    CheckedStays(t, moves, c, r, PhaseOf(t, c) == Checking(r));
  }

  ghost predicate AlreadyRecorded(row: Trajectory, r: Request) {
    r.externalId.Some? && exists e :: e in row.events && e.externalId == r.externalId && e.content == r.content
  }

  /** Appends are idempotent exactly as far as the duplicate check sees: about to check, a call ends
      by returning an earlier event if and only if an event with its external identifier and its
      content is committed at that moment. */
  lemma RetryReturnsExactly(s: System, c: Session, r: Request, moves: seq<Move>)
    requires Inv(s) && PhaseOf(s, c) == Checking(r) && OnlyProceeds(c, moves)
    requires PhaseOf(Run(Step(s, Move(c, Proceed)), moves), c).Answered?
    ensures PhaseOf(Run(Step(s, Move(c, Proceed)), moves), c).outcome.Returned? <==> AlreadyRecorded(s.db.committed, r)
  {
    var row, t := s.db.committed, Step(s, Move(c, Proceed));
    StepKeepsInv(s, Move(c, Proceed));
    assert Fits(s.db, c, PhaseOf(s, c));
    var found := ByExternalId(row.events, r.externalId);
    if found.Some? {
      var e := found.value;
      RetryStep(s, Move(c, Proceed), c, r, e, 1);
      RetryFindsEarlierEvent(t, moves, c, r, e, 2);
      OneContent(row, e, r);
    } else {
      hide Inv, Run;
      assert PhaseOf(t, c) == Ready(r);
      PastCheckNeverReturns(t, moves, c, r);
    }
  }

  lemma OneContent(row: Trajectory, e: Event, r: Request)
    requires Distinct(row.events) && e in row.events && e.externalId == r.externalId && e.externalId.Some?
    ensures AlreadyRecorded(row, r) <==> e.content == r.content
  {
    if AlreadyRecorded(row, r) {
      var f :| f in row.events && f.externalId == r.externalId && f.content == r.content;
      OneHolder(row, e, f);
    }
  }

  lemma {:induction false} RunConcat(s: System, a: seq<Move>, b: seq<Move>)
    ensures Run(s, a + b) == Run(Run(s, a), b)
    decreases |a|
  {
    hide Step;
    if a == [] {
      assert a + b == b;
    } else {
      assert (a + b)[0] == a[0] && (a + b)[1..] == a[1..] + b;
      RunConcat(Step(s, a[0]), a[1..], b);
    }
  }

  lemma RunAppend(s: System, a: seq<Move>, m: Move)
    ensures Run(s, a + [m]) == Step(Run(s, a), m)
  {
    RunConcat(s, a, [m]);
    assert [m][1..] == [];
  }

  /** Six moves of one session: the call and its statements. */
  function WholeAppend(c: Session, r: Request): seq<Move> {
    [Move(c, Append(r)), Move(c, Proceed), Move(c, Proceed), Move(c, Proceed), Move(c, Proceed), Move(c, Proceed)]
  }

  lemma AnsweredStays(s: System, c: Session)
    requires AtRest(PhaseOf(s, c)) && c in s.sessions
    ensures Step(s, Move(c, Proceed)) == s
  {
  }

  /** The two checks of an append, from its request on. */
  lemma ChecksAlone(s: System, c: Session, r: Request)
    requires Inv(s) && s.db.pending.None? && PhaseOf(s, c) == Requested(r)
    ensures var t := Step(Step(s, Move(c, Proceed)), Move(c, Proceed));
      && t.db == s.db && c in t.sessions
      && PhaseOf(t, c) ==
           if !ParentKnown(s.db.committed, r) then Answered(r, UnknownParent)
           else if ByExternalId(s.db.committed.events, r.externalId).Some? then Answered(r, AppendAlone(s.db, r).1)
           else Ready(r)
  {
    var earlier := ByExternalId(s.db.committed.events, r.externalId);
    if earlier.Some? { StoredDigest(s.db.committed, earlier.value); }
    hide Consistent, Numbered, Distinct, Linked, ParentKnown, Violates;
  }

  /** The writes of an append that passed its checks. */
  lemma WritesAlone(s: System, c: Session, r: Request)
    requires Inv(s) && s.db.pending.None? && PhaseOf(s, c) == Ready(r) && ParentKnown(s.db.committed, r)
    requires ByExternalId(s.db.committed.events, r.externalId).None?
    ensures var p := Move(c, Proceed);
      var t := Step(Step(Step(s, p), p), p);
      t.db == AppendAlone(s.db, r).0 && PhaseOf(t, c) == Answered(r, AppendAlone(s.db, r).1)
  {
    var p, row := Move(c, Proceed), s.db.committed;
    NothingViolated(row, s.db.nextId, NewEvent(r, s.db.nextId, row.nextSequence + 1));
    hide Inv, Consistent, ParentKnown, Violates, ByExternalId;
    if row.status.TrajectoryRunning? {
      assert PhaseOf(Step(s, p), c) == Allocated(r, row.nextSequence + 1);
      assert PhaseOf(Step(Step(s, p), p), c).Inserted?;
    } else {
      assert PhaseOf(Step(s, p), c) == Answered(r, TerminalTrajectory);
      AnsweredStays(Step(s, p), c);
    }
  }

  /** The uninterrupted append of the recorder is one of the interleaved runs. */
  lemma AloneIsARun(s: System, c: Session, r: Request)
    requires Inv(s) && s.db.pending.None? && AtRest(PhaseOf(s, c))
    ensures var t := Run(s, WholeAppend(c, r));
      t.db == AppendAlone(s.db, r).0 && PhaseOf(t, c) == Answered(r, AppendAlone(s.db, r).1)
  {
    var p := Move(c, Proceed);
    var s1 := Step(s, Move(c, Append(r)));
    assert s1.db == s.db && PhaseOf(s1, c) == Requested(r);
    StepKeepsInv(s, Move(c, Append(r)));
    hide Inv, Run, Step, ByExternalId, ParentKnown;
    SixMoves(s, WholeAppend(c, r));
    ChecksAlone(s1, c, r);
    StepKeepsInv(s1, p);
    StepKeepsInv(Step(s1, p), p);
    var s3 := Step(Step(s1, p), p);
    if PhaseOf(s3, c) == Ready(r) {
      WritesAlone(s3, c, r);
    } else {
      AnsweredStays(s3, c);
    }
  }

  /** Four moves of one session: the closing call and its statements. */
  function WholeClose(c: Session, target: TrajectoryStatus): seq<Move> {
    [Move(c, Close(target)), Move(c, Proceed), Move(c, Proceed), Move(c, Proceed)]
  }

  lemma CloseSteps(s: System, c: Session, target: TrajectoryStatus)
    requires s.db.pending.None? && PhaseOf(s, c) == Closing(target)
    ensures var p := Move(c, Proceed);
      Step(Step(Step(s, p), p), p).db ==
        if IsValidTransition(s.db.committed.status, target) then s.db.(committed := s.db.committed.(status := target)) else s.db
  {
    var p := Move(c, Proceed);
    if IsValidTransition(s.db.committed.status, target) {
      assert PhaseOf(Step(s, p), c) == Transitioning(s.db.committed.status, target);
      assert PhaseOf(Step(Step(s, p), p), c) == Transitioned(target);
    } else {
      AnsweredStays(Step(s, p), c);
    }
  }

  /** The uninterrupted close of the recorder is one of the interleaved runs. */
  lemma CloseIsARun(s: System, c: Session, target: TrajectoryStatus)
    requires s.db.pending.None? && AtRest(PhaseOf(s, c))
    ensures Run(s, WholeClose(c, target)).db ==
      if s.db.committed.status == TrajectoryRunning && target != TrajectoryRunning
      then s.db.(committed := s.db.committed.(status := target)) else s.db
  {
    var m := WholeClose(c, target);
    assert m == [m[0]] + [m[1], m[2], m[3]];
    RunConcat(s, [m[0]], [m[1], m[2], m[3]]);
    assert Run(s, [m[0]]) == Step(s, m[0]) by { assert [m[0]][1..] == []; }
    var s1 := Step(s, m[0]);
    assert s1.db == s.db && PhaseOf(s1, c) == Closing(target);
    hide Run, Step;
    ThreeMoves(s1, [m[1], m[2], m[3]]);
    CloseSteps(s1, c, target);
  }

  lemma SixMoves(s: System, m: seq<Move>)
    requires |m| == 6
    ensures Run(s, m) == Step(Step(Step(Step(Step(Step(s, m[0]), m[1]), m[2]), m[3]), m[4]), m[5])
  {
    hide Step;
    ThreeMoves(s, m[..3]);
    ThreeMoves(Run(s, m[..3]), m[3..]);
    assert m == m[..3] + m[3..];
    RunConcat(s, m[..3], m[3..]);
  }

  lemma ThreeMoves(s: System, m: seq<Move>)
    requires |m| == 3
    ensures Run(s, m) == Step(Step(Step(s, m[0]), m[1]), m[2])
  {
    hide Step;
    RunAppend(s, m[..1], m[1]);
    RunAppend(s, m[..2], m[2]);
    assert m[..1] + [m[1]] == m[..2] && m[..2] + [m[2]] == m;
    assert m[..1][1..] == [];
  }

  lemma {:induction false} OthersUntouched(s: System, moves: seq<Move>, c: Session)
    requires forall m :: m in moves ==> m.session != c
    ensures PhaseOf(Run(s, moves), c) == PhaseOf(s, c)
    decreases |moves|
  {
    if moves != [] { OthersUntouched(Step(s, moves[0]), moves[1..], c); }
  }

  /** Whoever loses the insert race is told its data conflicts, whether or not it agrees. */
  lemma RaceLoserRejected(s: System, c: Session)
    requires Inv(s) && PhaseOf(s, c).Lost?
    ensures PhaseOf(Step(s, Move(c, Proceed)), c) == Answered(PhaseOf(s, c).request, DuplicateEvent)
  {
    assert Fits(s.db, c, PhaseOf(s, c));
    LookAgainPolite(s.db, c, PhaseOf(s, c).request, PhaseOf(s, c).number);
    hide Consistent;
  }

  /** Where the code is not idempotent: session b checks for duplicates just before session a records
      the identical event; b then loses the insert and is told its data conflicts, although it agrees. */
  lemma IdenticalRaceRejected(s: System, a: Session, b: Session, r: Request)
    requires Inv(s) && s.db.pending.None? && s.db.committed.status.TrajectoryRunning?
    requires a != b && AtRest(PhaseOf(s, a)) && PhaseOf(s, b) == Checking(r)
    requires r.externalId.Some? && ByExternalId(s.db.committed.events, r.externalId).None?
    ensures var p := Move(b, Proceed);
      var t := Run(Step(s, p), WholeAppend(a, r));
      var u := Step(Step(Step(t, p), p), p);
      && PhaseOf(t, a).Answered? && PhaseOf(t, a).outcome.Recorded?
      && PhaseOf(u, b) == Answered(r, DuplicateEvent) && u.db.committed == t.db.committed
  {
    var p := Move(b, Proceed);
    assert Fits(s.db, b, PhaseOf(s, b));
    var s1 := Step(s, p);
    assert s1.db == s.db && PhaseOf(s1, b) == Ready(r) && PhaseOf(s1, a) == PhaseOf(s, a);
    StepKeepsInv(s, p);
    AloneIsARun(s1, a, r);
    var t := Run(s1, WholeAppend(a, r));
    OthersUntouched(s1, WholeAppend(a, r), b);
    RunKeepsInv(s1, WholeAppend(a, r));
    hide Run, WholeAppend, ParentKnown;
    LoserRejected(t, b, r);
  }

  /** Ready with its external identifier taken, and nobody holding the row: three statements to a rejection. */
  lemma LoserRejected(t: System, b: Session, r: Request)
    requires Inv(t) && t.db.pending.None? && t.db.committed.status.TrajectoryRunning? && PhaseOf(t, b) == Ready(r)
    requires ByExternalId(t.db.committed.events, r.externalId).Some?
    ensures var p := Move(b, Proceed);
      var u := Step(Step(Step(t, p), p), p);
      PhaseOf(u, b) == Answered(r, DuplicateEvent) && u.db.committed == t.db.committed
  {
    LoserStatements(t.db, b, r);
    hide Inv, Consistent, ParentKnown, ByExternalId, TakeNumber, InsertRow, LookAgain;
    var p, n := Move(b, Proceed), t.db.committed.nextSequence + 1;
    var t1 := Step(t, p);
    assert t1.db == TakeNumber(t.db, b, r).0 && PhaseOf(t1, b) == Allocated(r, n);
    var t2 := Step(t1, p);
    assert t2.db == InsertRow(t1.db, b, r, n).0 && PhaseOf(t2, b) == Lost(r, n);
  }

  lemma LoserStatements(db: Database, b: Session, r: Request)
    requires Consistent(db.committed, db.nextId) && db.pending.None? && db.committed.status.TrajectoryRunning?
    requires ByExternalId(db.committed.events, r.externalId).Some?
    ensures var n := db.committed.nextSequence + 1;
      var d1 := TakeNumber(db, b, r).0;
      var d2 := InsertRow(d1, b, r, n).0;
      && TakeNumber(db, b, r).1 == Allocated(r, n) && InsertRow(d1, b, r, n).1 == Lost(r, n)
      && LookAgain(d2, b, r, n) == (d2, Answered(r, DuplicateEvent)) && d2.committed == db.committed
  {
    var row := db.committed;
    NothingViolated(row, db.nextId, NewEvent(r, db.nextId, row.nextSequence + 1));
    StoredDigest(row, ByExternalId(row.events, r.externalId).value);
    hide Consistent, Violates, ByExternalId;
  }
}
