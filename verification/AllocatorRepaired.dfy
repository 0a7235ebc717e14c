/**
 When all active bookings are disjoint: which statuses Confirm may accept, and that Reschedule
 must check and write under the lock Create takes. Repeating Reschedule's check in the same step
 without the lock is not enough. For the code as it is, each write that can break disjointness
 has its own exact condition.
 */
module AllocatorRepaired {
  import opened Options
  import opened BookingRows
  import opened Allocator
  import opened AllocatorSafety

  /**
   Confirm accepts no CANCELLED booking, and no COMPLETED one if it accepts PENDING ones: otherwise
   no booking ever gets to be COMPLETED.
   */
  predicate NeverRevives(confirmFrom: set<Status>) {
    Cancelled !in confirmFrom && !(Pending in confirmFrom && Completed in confirmFrom)
  }

  predicate Repaired(c: Config) {
    NeverRevives(c.confirmFrom) && c.reschedule == UnderLock
  }

  /** The statuses a booking can have: without a way into CONFIRMED there is no way past it. */
  predicate Attainable(c: Config, status: Status) {
    match status
    case Pending => true
    case Cancelled => true
    case NoShow => false
    case _ => Pending in c.confirmFrom || Cancelled in c.confirmFrom
  }

  ghost predicate StatusesOk(c: Config, db: Table) {
    forall id :: id in db.rows ==> Attainable(c, db.rows[id].status)
  }

  lemma NextDbStatuses(c: Config, db: Table, locks: map<ProId, Thread>, p: Phase, op: Op)
    requires PastOk(db) && PhaseOk(c, db, p) && StatusesOk(c, db)
    ensures StatusesOk(c, NextDb(c, db, locks, p, op))
  {
    if op.Write? && p.Ready? && Guard(db, p.id, p.seen.status) {
      assert Attainable(c, db.rows[p.id].status);
    }
  }

  /** Active bookings of one professional do not overlap. */
  ghost predicate Disjoint(db: Table) {
    forall a, b | a in db.rows && b in db.rows && a != b ::
      Active(db.rows[a]) && Active(db.rows[b]) && db.rows[a].pro == db.rows[b].pro ==>
        !Overlaps(db.rows[a], db.rows[b].start, db.rows[b].end)
  }

  /** No active booking of the professional but `self` meets the row's padded interval. */
  ghost predicate ClearOf(c: Config, db: Table, padded: Row, self: BookingId) {
    forall id | id in db.rows && id != self ::
      Active(db.rows[id]) && db.rows[id].pro == padded.pro ==> Misses(c, db.rows[id], padded)
  }

  ghost predicate PhaseClear(c: Config, db: Table, p: Phase) {
    (p.Checked? || p.Inserted?) ==> ClearOf(c, db, Requested(p.req), p.req.id)
  }

  /** Rows other than `moved` that are active were active before, at the same place. */
  ghost predicate NoNewActive(db: Table, db': Table, moved: Option<BookingId>) {
    forall id :: id in db.rows && id in db'.rows && Some(id) != moved && Active(db'.rows[id]) ==>
      Active(db.rows[id]) && db'.rows[id] == db.rows[id].(status := db'.rows[id].status)
  }

  /** The booking a handler is about to move, if its step is a write that goes through. */
  function MovedBy(c: Config, db: Table, locks: map<ProId, Thread>, p: Phase, op: Op): Option<BookingId> {
    if op.Write? && p.Ready? && p.action.Reschedule? && MayMove(c, db, locks, p.id, p.seen, p.action.newStart)
    then Some(p.id) else None
  }

  lemma WriteActive(c: Config, db: Table, locks: map<ProId, Thread>, action: Action, id: BookingId, seen: Row)
    requires Repaired(c) && PastOk(db) && PhaseOk(c, db, Ready(action, id, seen)) && StatusesOk(c, db)
    ensures NoNewActive(db, WriteDb(c, db, locks, action, id, seen),
                        MovedBy(c, db, locks, Ready(action, id, seen), Write))
  {
    if Guard(db, id, seen.status) { assert Attainable(c, db.rows[id].status); }
  }

  lemma NextDbActive(c: Config, db: Table, locks: map<ProId, Thread>, p: Phase, op: Op)
    requires Repaired(c) && PastOk(db) && PhaseOk(c, db, p) && StatusesOk(c, db)
    ensures NoNewActive(db, NextDb(c, db, locks, p, op), MovedBy(c, db, locks, p, op))
  {
    if op.Write? && p.Ready? {
      WriteActive(c, db, locks, p.action, p.id, p.seen);
    }
  }

  /** Missing the padded interval is missing the booking. */
  lemma MissesRaw(c: Config, r: Row, padded: Row)
    requires Misses(c, r, padded)
    ensures !Overlaps(r, padded.start, padded.end) && !Overlaps(padded, r.start, r.end)
  {}

  /** A move under the lock lands where no other active booking of the professional is. */
  lemma MoveLandsClear(c: Config, db: Table, locks: map<ProId, Thread>, id: BookingId, seen: Row, newStart: int)
    requires Repaired(c) && MayMove(c, db, locks, id, seen, newStart) && SameBooking(db.rows[id], seen)
    ensures ClearOf(c, db, Moved(db.rows[id], newStart, seen), id)
  {
    forall a | a in db.rows && a != id && Active(db.rows[a]) && db.rows[a].pro == seen.pro
      ensures Misses(c, db.rows[a], Moved(db.rows[id], newStart, seen))
    {
      var b := Bounds(c, Moved(seen, newStart, seen));
      assert !Blocks(db.rows[a], seen.pro, b.0, b.1);
    }
  }

  lemma AdmitDisjoint(c: Config, db: Table, req: Request)
    requires Disjoint(db) && req.id !in db.rows && ClearOf(c, db, Requested(req), req.id)
    ensures Disjoint(Admit(db, req))
  {
    forall a | a in db.rows && Active(db.rows[a]) && db.rows[a].pro == req.pro
      ensures !Overlaps(db.rows[a], req.start, req.end) && !Overlaps(Requested(req), db.rows[a].start, db.rows[a].end)
    {
      MissesRaw(c, db.rows[a], Requested(req));
    }
  }

  lemma MoveDisjoint(c: Config, db: Table, id: BookingId, seen: Row, newStart: int)
    requires Disjoint(db) && id in db.rows && id in db.past
    requires ClearOf(c, db, Moved(db.rows[id], newStart, seen), id)
    ensures Disjoint(MoveRow(db, id, seen, newStart))
  {
    var r := Moved(db.rows[id], newStart, seen);
    forall a | a in db.rows && a != id && Active(db.rows[a]) && db.rows[a].pro == r.pro
      ensures !Overlaps(db.rows[a], r.start, r.end) && !Overlaps(r, db.rows[a].start, db.rows[a].end)
    {
      MissesRaw(c, db.rows[a], r);
    }
  }

  /** Elsewhere no row appears and no active booking gets a new place. */
  lemma OtherRowsKept(c: Config, db: Table, locks: map<ProId, Thread>, p: Phase, op: Op)
    requires !(op.Commit? && p.Inserted?) && MovedBy(c, db, locks, p, op).None?
    ensures NextDb(c, db, locks, p, op).rows.Keys == db.rows.Keys
  {}

  lemma NextDbDisjoint(c: Config, db: Table, locks: map<ProId, Thread>, p: Phase, op: Op)
    requires Repaired(c) && PastOk(db) && PhaseOk(c, db, p) && StatusesOk(c, db)
    requires Disjoint(db) && PhaseClear(c, db, p)
    ensures Disjoint(NextDb(c, db, locks, p, op))
  {
    if op.Commit? && p.Inserted? {
      if p.req.id !in db.rows { AdmitDisjoint(c, db, p.req); }
    } else if MovedBy(c, db, locks, p, op).Some? {
      MoveLandsClear(c, db, locks, p.id, p.seen, p.action.newStart);
      MoveDisjoint(c, db, p.id, p.seen, p.action.newStart);
    } else {
      NextDbActive(c, db, locks, p, op);
      OtherRowsKept(c, db, locks, p, op);
    }
  }

  lemma ClearAfterCheck(c: Config, db: Table, req: Request)
    requires !Conflicts(c, db, req)
    ensures ClearOf(c, db, Requested(req), req.id)
  {
    var b := Bounds(c, Requested(req));
    forall id | id in db.rows && id != req.id && Active(db.rows[id]) && db.rows[id].pro == req.pro
      ensures Misses(c, db.rows[id], Requested(req))
    {
      assert !Blocks(db.rows[id], req.pro, b.0, b.1);
    }
  }

  /** A handler's check stays true as long as no row of its professional is added or moved. */
  lemma ClearStable(c: Config, db: Table, locks: map<ProId, Thread>, p: Phase, op: Op, q: Phase)
    requires Repaired(c) && PastOk(db) && PhaseOk(c, db, p) && StatusesOk(c, db) && PhaseClear(c, db, q)
    requires p.Inserted? && InCreate(q) ==> p.req.pro != q.req.pro
    requires InCreate(q) ==> q.req.pro in locks
    ensures PhaseClear(c, NextDb(c, db, locks, p, op), q)
  {
    var db', moved := NextDb(c, db, locks, p, op), MovedBy(c, db, locks, p, op);
    NextDbActive(c, db, locks, p, op);
    if q.Checked? || q.Inserted? {
      forall id | id in db'.rows && id != q.req.id && Active(db'.rows[id]) && db'.rows[id].pro == q.req.pro
        ensures Misses(c, db'.rows[id], Requested(q.req))
      {
        if id !in db.rows {
          NewRowUnderLock(c, db, locks, p, op, id);
        } else {
          MovedElsewhere(c, db, locks, p, op);
        }
      }
    }
  }

  lemma MovedElsewhere(c: Config, db: Table, locks: map<ProId, Thread>, p: Phase, op: Op)
    requires Repaired(c) && PhaseOk(c, db, p)
    ensures var moved := MovedBy(c, db, locks, p, op);
            moved.Some? ==>
              && moved.value in db.rows && db.rows[moved.value].pro !in locks
              && NextDb(c, db, locks, p, op).rows[moved.value].pro == db.rows[moved.value].pro
  {}

  lemma NextPhaseClear(c: Config, db: Table, locks: map<ProId, Thread>, p: Phase, op: Op)
    requires Repaired(c) && PastOk(db) && PhaseOk(c, db, p) && PhaseClear(c, db, p)
    ensures PhaseClear(c, NextDb(c, db, locks, p, op), NextPhase(c, db, locks, p, op))
  {
    if op.CheckConflict? && p.Locked? && !Conflicts(c, db, p.req) {
      ClearAfterCheck(c, db, p.req);
    }
  }

  ghost predicate Clear(c: Config, s: State) {
    Safe(c, s) && StatusesOk(c, s.db) && Disjoint(s.db) && forall t :: PhaseClear(c, s.db, PhaseOf(s, t))
  }

  lemma HandlerStepClear(c: Config, s: State, t: Thread, op: Op)
    requires Repaired(c) && Clear(c, s)
    ensures Clear(c, Apply(c, s, Handler(t, op)))
  {
    var s', p := Apply(c, s, Handler(t, op)), PhaseOf(s, t);
    HandlerStepSafe(c, s, t, op);
    assert HandlerOk(c, s, t);
    NextDbDisjoint(c, s.db, s.locks, p, op);
    NextDbStatuses(c, s.db, s.locks, p, op);
    forall u ensures PhaseClear(c, s'.db, PhaseOf(s', u)) {
      assert HandlerOk(c, s, u);
      if u == t {
        NextPhaseClear(c, s.db, s.locks, p, op);
      } else {
        ClearStable(c, s.db, s.locks, p, op, PhaseOf(s, u));
      }
    }
  }

  lemma DepositStepClear(c: Config, s: State, id: BookingId, succeeded: bool)
    requires Clear(c, s)
    ensures Clear(c, Apply(c, s, DepositIntent(id, succeeded)))
  {
    var s' := Apply(c, s, DepositIntent(id, succeeded));
    DepositStepSafe(c, s, id, succeeded);
    forall u ensures PhaseClear(c, s'.db, PhaseOf(s', u)) {
      assert PhaseClear(c, s.db, PhaseOf(s, u));
    }
  }

  lemma {:induction false} RunClear(c: Config, steps: seq<Step>, k: nat)
    requires Repaired(c) && k <= |steps|
    ensures Clear(c, Run(c, steps, k))
  {
    if k > 0 {
      RunClear(c, steps, k - 1);
      var s := Run(c, steps, k - 1);
      match steps[k - 1]
      case Handler(t, op) => HandlerStepClear(c, s, t, op);
      case DepositIntent(id, succeeded) => DepositStepClear(c, s, id, succeeded);
    }
  }

  /** With both changes no two active bookings of a professional ever overlap, in any run. */
  lemma RepairedBookingsDisjoint(c: Config, steps: seq<Step>, k: nat)
    requires Repaired(c) && k <= |steps|
    ensures Disjoint(Run(c, steps, k).db)
  {
    RunClear(c, steps, k);
  }

  // ----- runs of the code that go wrong -----

  ghost predicate Reachable(c: Config, s: State) {
    exists steps: seq<Step> :: Run(c, steps, |steps|) == s
  }

  lemma {:induction false} RunPrefix(c: Config, steps: seq<Step>, more: seq<Step>, k: nat)
    requires k <= |steps|
    ensures Run(c, steps + more, k) == Run(c, steps, k)
  {
    if k > 0 {
      RunPrefix(c, steps, more, k - 1);
    }
  }

  lemma ReachableStep(c: Config, s: State, step: Step)
    requires Reachable(c, s)
    ensures Reachable(c, Apply(c, s, step))
  {
    var steps: seq<Step> :| Run(c, steps, |steps|) == s;
    RunPrefix(c, steps, [step], |steps|);
    assert Run(c, steps + [step], |steps + [step]|) == Apply(c, s, step);
  }

  /** An undisturbed Create of a free slot admits the booking. */
  lemma CreateAdmits(c: Config, s: State, t: Thread, req: Request) returns (s': State)
    requires Reachable(c, s) && PhaseOf(s, t).Idle? && req.pro !in s.locks
    requires req.id !in s.db.rows && !Conflicts(c, s.db, req)
    ensures Reachable(c, s') && s' == State(Admit(s.db, req), s.locks, s.phases[t := Idle])
  {
    var locked := s.locks[req.pro := t];
    ReachableStep(c, s, Handler(t, BeginCreate(req)));
    var s1 := State(s.db, locked, s.phases[t := Locked(req)]);
    ReachableStep(c, s1, Handler(t, CheckConflict));
    var s2 := State(s.db, locked, s1.phases[t := Checked(req)]);
    s' := CommitAdmits(c, s2, t, req);
    assert s'.phases == s.phases[t := Idle];
    assert s'.locks == s.locks;
  }

  lemma CommitAdmits(c: Config, s: State, t: Thread, req: Request) returns (s': State)
    requires Reachable(c, s) && PhaseOf(s, t) == Checked(req) && req.id !in s.db.rows
    ensures Reachable(c, s') && s' == State(Admit(s.db, req), s.locks - {req.pro}, s.phases[t := Idle])
  {
    ReachableStep(c, s, Handler(t, Insert));
    var s1 := State(s.db, s.locks, s.phases[t := Inserted(req)]);
    ReachableStep(c, s1, Handler(t, Commit));
    s' := Apply(c, s1, Handler(t, Commit));
    assert s'.phases == s.phases[t := Idle];
  }

  /** A handler that reads a booking, decides and writes without being disturbed. */
  lemma ServiceWrites(c: Config, s: State, t: Thread, action: Action, id: BookingId) returns (s': State)
    requires Reachable(c, s) && PhaseOf(s, t).Idle? && id in s.db.rows
    requires Allowed(c, s.db, action, id, s.db.rows[id], true)
    ensures Reachable(c, s') && s'.db == WriteDb(c, s.db, s.locks, action, id, s.db.rows[id])
    ensures s'.locks == s.locks
    ensures forall u :: u != t ==> PhaseOf(s', u) == PhaseOf(s, u)
  {
    var seen := s.db.rows[id];
    ReachableStep(c, s, Handler(t, ReadBooking(action, id)));
    var s1 := State(s.db, s.locks, s.phases[t := Read(action, id, seen)]);
    ReachableStep(c, s1, Handler(t, Validate(true)));
    var s2 := State(s.db, s.locks, s1.phases[t := Ready(action, id, seen)]);
    ReachableStep(c, s2, Handler(t, Write));
    s' := Apply(c, s2, Handler(t, Write));
  }

  const R1 := Request(1, 0, 0, 0, 100, false, 0, 0)
  const R2 := Request(2, 0, 0, 0, 100, false, 0, 0)
  const R3 := Request(2, 0, 0, 200, 300, false, 0, 0)

  lemma FirstBooking(c: Config) returns (s: State)
    ensures Reachable(c, s) && s == State(Admit(INIT.db, R1), map[], map[1 := Idle])
  {
    assert Run(c, [], 0) == INIT;
    assert Reachable(c, INIT);
    s := CreateAdmits(c, INIT, 1, R1);
  }

  /** Booking 1 cancelled, its slot taken by booking 2. */
  lemma SlotTakenOver(c: Config) returns (s: State)
    ensures Reachable(c, s) && PhaseOf(s, 4).Idle? && s.locks == map[]
    ensures s.db == Admit(Restatus(Admit(INIT.db, R1), 1, Cancelled), R2)
  {
    var s1 := FirstBooking(c);
    var s2 := ServiceWrites(c, s1, 2, Cancel, 1);
    assert PhaseOf(s2, 4).Idle? && PhaseOf(s2, 3).Idle?;
    s := CreateAdmits(c, s2, 3, R2);
  }

  /** Booking 1 confirmed and completed, its slot taken by booking 2. */
  lemma SlotTakenAgain(c: Config) returns (s: State)
    requires Pending in c.confirmFrom
    ensures Reachable(c, s) && PhaseOf(s, 5).Idle? && s.locks == map[]
    ensures 1 in s.db.rows && 2 in s.db.rows && 1 in s.db.past
    ensures s.db.rows[1] == Requested(R1).(status := Completed) && s.db.rows[2] == Requested(R2)
  {
    var s1 := FirstBooking(c);
    var s2 := ServiceWrites(c, s1, 2, Confirm, 1);
    assert PhaseOf(s2, 3).Idle? && PhaseOf(s2, 4).Idle? && PhaseOf(s2, 5).Idle?;
    var s3 := ServiceWrites(c, s2, 3, Complete, 1);
    s := CreateAdmits(c, s3, 4, R2);
  }

  /** Confirming a booking that holds no slot any more: the slot may be taken, and both are active. */
  lemma ConfirmRevivesIntoOverlap(c: Config)
    requires !NeverRevives(c.confirmFrom)
    ensures exists s :: Reachable(c, s) && !Disjoint(s.db)
  {
    var s4: State;
    if Cancelled in c.confirmFrom {
      var s3 := SlotTakenOver(c);
      s4 := ServiceWrites(c, s3, 4, Confirm, 1);
    } else {
      var s3 := SlotTakenAgain(c);
      s4 := ServiceWrites(c, s3, 5, Confirm, 1);
    }
    assert 1 in s4.db.rows && 2 in s4.db.rows && Active(s4.db.rows[1]) && Active(s4.db.rows[2]);
    assert Overlaps(s4.db.rows[1], s4.db.rows[2].start, s4.db.rows[2].end);
  }

  /**
   Without the lock a reschedule, even one that checks and writes in a single step, can land on
   a booking another handler has checked but not committed.
   */
  lemma RescheduleOverlapsInFlightCreate(c: Config)
    requires c.reschedule != UnderLock
    ensures exists s :: Reachable(c, s) && !Disjoint(s.db)
  {
    var s1 := FirstBooking(c);
    ReachableStep(c, s1, Handler(2, BeginCreate(R3)));
    var s2 := State(s1.db, map[0 := 2], map[1 := Idle, 2 := Locked(R3)]);
    assert Apply(c, s1, Handler(2, BeginCreate(R3))) == s2;
    ReachableStep(c, s2, Handler(2, CheckConflict));
    var s3 := State(s1.db, map[0 := 2], map[1 := Idle, 2 := Checked(R3)]);
    assert Apply(c, s2, Handler(2, CheckConflict)) == s3;
    var s4 := ServiceWrites(c, s3, 3, Reschedule(200), 1);
    assert s4.db == MoveRow(s3.db, 1, s3.db.rows[1], 200);
    var s5 := CommitAdmits(c, s4, 2, R3);
    assert 1 in s5.db.rows && 2 in s5.db.rows && Active(s5.db.rows[1]) && Active(s5.db.rows[2]);
    assert Overlaps(s5.db.rows[1], s5.db.rows[2].start, s5.db.rows[2].end);
  }

  /** The two conditions are exactly what disjointness in every run needs. */
  lemma DisjointExactlyWhenRepaired(c: Config)
    ensures (forall s :: Reachable(c, s) ==> Disjoint(s.db)) <==> Repaired(c)
  {
    if Repaired(c) {
      forall s | Reachable(c, s) ensures Disjoint(s.db) {
        var steps: seq<Step> :| Run(c, steps, |steps|) == s;
        RepairedBookingsDisjoint(c, steps, |steps|);
      }
    } else if !NeverRevives(c.confirmFrom) {
      ConfirmRevivesIntoOverlap(c);
    } else {
      RescheduleOverlapsInFlightCreate(c);
    }
  }

  // ----- the writes of the code as it is -----

  /** No other active booking of the professional meets the row's own interval. */
  predicate MeetsNone(db: Table, r: Row, self: BookingId) {
    forall id | id in db.rows :: id != self && Active(db.rows[id]) && db.rows[id].pro == r.pro ==>
      !Overlaps(db.rows[id], r.start, r.end)
  }

  /** One row is put into the table: what decides is whether it is active and meets another. */
  lemma PutDisjointIff(db: Table, db': Table, id: BookingId)
    requires Disjoint(db) && id in db'.rows && db'.rows == db.rows[id := db'.rows[id]]
    requires id in db.rows ==> db.rows[id].pro == db'.rows[id].pro
    ensures Disjoint(db') <==> !Active(db'.rows[id]) || MeetsNone(db, db'.rows[id], id)
  {
    var r := db'.rows[id];
    if Active(r) && Disjoint(db') {
      forall a | a in db.rows && a != id && Active(db.rows[a]) && db.rows[a].pro == r.pro
        ensures !Overlaps(db.rows[a], r.start, r.end)
      {
        assert a in db'.rows && db'.rows[a] == db.rows[a];
      }
    }
  }

  /** What a handler's step must find for the table to stay disjoint. */
  predicate StepFits(c: Config, db: Table, locks: map<ProId, Thread>, p: Phase, op: Op) {
    if op.Commit? && p.Inserted? then p.req.id in db.rows || MeetsNone(db, Requested(p.req), p.req.id)
    else if op.Write? && p.Ready? && p.action.Confirm? then
      Guard(db, p.id, p.seen.status) ==> Active(db.rows[p.id]) || MeetsNone(db, db.rows[p.id], p.id)
    else if op.Write? && p.Ready? && p.action.Reschedule? then
      MayMove(c, db, locks, p.id, p.seen, p.action.newStart) && Active(db.rows[p.id]) ==>
        MeetsNone(db, Moved(db.rows[p.id], p.action.newStart, p.seen), p.id)
    else true
  }

  /**
   From a disjoint table a confirmation leaves it disjoint exactly when the booking is active
   already or meets no active booking of its professional.
   */
  lemma ConfirmDisjointIff(db: Table, id: BookingId)
    requires Disjoint(db) && id in db.rows && id in db.past
    ensures Disjoint(Restatus(db, id, Confirmed)) <==> Active(db.rows[id]) || MeetsNone(db, db.rows[id], id)
  {
    var db' := Restatus(db, id, Confirmed);
    PutDisjointIff(db, db', id);
    if Active(db.rows[id]) {
      forall a | a in db.rows && a != id && Active(db.rows[a]) && db.rows[a].pro == db.rows[id].pro
        ensures !Overlaps(db.rows[a], db.rows[id].start, db.rows[id].end)
      {}
    }
  }

  /** A move leaves it disjoint exactly when the booking holds no slot or the new place is free. */
  lemma MoveDisjointIff(db: Table, id: BookingId, seen: Row, newStart: int)
    requires Disjoint(db) && id in db.rows && id in db.past
    ensures Disjoint(MoveRow(db, id, seen, newStart)) <==>
      !Active(db.rows[id]) || MeetsNone(db, Moved(db.rows[id], newStart, seen), id)
  {
    PutDisjointIff(db, MoveRow(db, id, seen, newStart), id);
  }

  lemma RestatusDisjoint(db: Table, id: BookingId, to: Status)
    requires Disjoint(db) && id in db.rows && id in db.past
    requires Active(db.rows[id]) || to !in {Pending, Confirmed, InProgress}
    ensures Disjoint(Restatus(db, id, to))
  {
    var db' := Restatus(db, id, to);
    forall a, b | a in db'.rows && b in db'.rows && a != b && Active(db'.rows[a]) && Active(db'.rows[b])
                  && db'.rows[a].pro == db'.rows[b].pro
      ensures !Overlaps(db'.rows[a], db'.rows[b].start, db'.rows[b].end)
    {
      assert Active(db.rows[a]) && Active(db.rows[b]);
    }
  }

  /** The other writes only ever free a slot or keep it. */
  lemma OtherWritesDisjoint(c: Config, db: Table, locks: map<ProId, Thread>, p: Phase, op: Op)
    requires PastOk(db) && PhaseOk(c, db, p) && Disjoint(db)
    requires !(op.Commit? && p.Inserted?)
    requires op.Write? && p.Ready? ==> !p.action.Confirm? && !p.action.Reschedule?
    ensures Disjoint(NextDb(c, db, locks, p, op))
  {
    if op.Write? && p.Ready? && Guard(db, p.id, p.seen.status) {
      RestatusDisjoint(db, p.id, Target(p.action));
      assert NextDb(c, db, locks, p, op).rows == Restatus(db, p.id, Target(p.action)).rows;
    } else if op.Expire? && p.Idle? && Guard(db, op.stale, Pending) {
      RestatusDisjoint(db, op.stale, Cancelled);
    } else {
      assert NextDb(c, db, locks, p, op).rows == db.rows;
    }
  }

  /** A handler's step keeps a disjoint table disjoint exactly when it fits; no other step can break it. */
  lemma StepDisjointIff(c: Config, db: Table, locks: map<ProId, Thread>, p: Phase, op: Op)
    requires PastOk(db) && PhaseOk(c, db, p) && Disjoint(db)
    ensures Disjoint(NextDb(c, db, locks, p, op)) <==> StepFits(c, db, locks, p, op)
  {
    if op.Commit? && p.Inserted? {
      if p.req.id !in db.rows { PutDisjointIff(db, Admit(db, p.req), p.req.id); }
    } else if op.Write? && p.Ready? && p.action.Confirm? {
      if Guard(db, p.id, p.seen.status) { ConfirmDisjointIff(db, p.id); }
    } else if op.Write? && p.Ready? && p.action.Reschedule? {
      if MayMove(c, db, locks, p.id, p.seen, p.action.newStart) {
        MoveDisjointIff(db, p.id, p.seen, p.action.newStart);
      }
    } else {
      OtherWritesDisjoint(c, db, locks, p, op);
    }
  }

  /** Every one of the first k steps fits where it is taken. */
  predicate RunFits(c: Config, steps: seq<Step>, k: nat)
    requires k <= |steps|
  {
    k == 0 || (RunFits(c, steps, k - 1) && match steps[k - 1]
      case Handler(t, op) =>
        var s := Run(c, steps, k - 1); StepFits(c, s.db, s.locks, PhaseOf(s, t), op)
      case DepositIntent(_, _) => true)
  }

  ghost predicate DisjointUpTo(c: Config, steps: seq<Step>, k: nat)
    requires k <= |steps|
  {
    forall j :: 0 <= j <= k ==> Disjoint(Run(c, steps, j).db)
  }

  lemma StepKeepsDisjointIff(c: Config, steps: seq<Step>, k: nat)
    requires k < |steps| && Disjoint(Run(c, steps, k).db)
    ensures Disjoint(Run(c, steps, k + 1).db) <==>
      match steps[k]
      case Handler(t, op) =>
        StepFits(c, Run(c, steps, k).db, Run(c, steps, k).locks, PhaseOf(Run(c, steps, k), t), op)
      case DepositIntent(_, _) => true
  {
    var s := Run(c, steps, k);
    match steps[k]
    case Handler(t, op) =>
      RunSafe(c, steps, k);
      assert HandlerOk(c, s, t);
      StepDisjointIff(c, s.db, s.locks, PhaseOf(s, t), op);
    case DepositIntent(id, succeeded) => assert DepositDb(s.db, id, succeeded).rows == s.db.rows;
  }

  /** A run keeps all active bookings disjoint throughout exactly when each of its steps fits. */
  lemma {:induction false} DisjointThroughoutIff(c: Config, steps: seq<Step>, k: nat)
    requires k <= |steps|
    ensures DisjointUpTo(c, steps, k) <==> RunFits(c, steps, k)
  {
    if k > 0 {
      DisjointThroughoutIff(c, steps, k - 1);
      if DisjointUpTo(c, steps, k - 1) {
        assert Disjoint(Run(c, steps, k - 1).db);
        StepKeepsDisjointIff(c, steps, k - 1);
      }
    }
  }
}
