/**
 What every run of the allocator keeps: bookings placed by Create do not overlap as long as
 nobody moves or revives them, deposits precede confirmation, and counts follow history.
 */
module AllocatorSafety {
  import opened BookingRows
  import opened Allocator

  // ----- the shape every step keeps -----

  predicate SameBooking(r: Row, seen: Row) {
    r.pro == seen.pro && r.home == seen.home && r.deposit == seen.deposit
  }

  /** What a handler ready to write has established about the row it read. */
  ghost predicate Decided(c: Config, db: Table, action: Action, id: BookingId, seen: Row) {
    match action
    case Confirm => (seen.deposit > 0 ==> id in db.everPaid) && seen.status in c.confirmFrom
    case Start => seen.status == Confirmed
    case Complete => seen.status == InProgress || seen.status == Confirmed
    case Cancel => seen.status == Pending || seen.status == Confirmed || seen.status == InProgress
    case Reschedule(_) => seen.status == Pending || seen.status == Confirmed
  }

  /** The booking a handler works on exists, and the handler knows what it needs about it. */
  ghost predicate PhaseOk(c: Config, db: Table, p: Phase) {
    match p
    case Read(_, id, seen) => id in db.rows && SameBooking(db.rows[id], seen)
    case Ready(action, id, seen) =>
      id in db.rows && SameBooking(db.rows[id], seen) && Decided(c, db, action, id, seen)
    case Logging(e) => e.booking in db.rows && e.to != Completed
    case Settling(id) => id in db.rows && (db.rows[id].deposit > 0 ==> id in db.everPaid)
    case _ => true
  }

  /** Every booking has a past, and admission orders are distinct. */
  ghost predicate PastOk(db: Table) {
    && db.past.Keys == db.rows.Keys
    && (forall id :: id in db.past ==> db.past[id].order < db.admitted)
    && (forall a, b :: a in db.past && b in db.past && a != b ==> db.past[a].order != db.past[b].order)
  }

  predicate NeedsDeposit(r: Row) {
    r.deposit > 0 && (r.status == Confirmed || r.status == InProgress || r.status == Completed)
  }

  /** Bookings past confirmation, or settled, had their deposit paid at some point. */
  ghost predicate Paid(db: Table) {
    && db.deposits <= db.everPaid
    && (forall id :: id in db.rows && NeedsDeposit(db.rows[id]) ==> id in db.everPaid)
    && (forall id :: id in db.settled ==> id in db.rows && (db.rows[id].deposit > 0 ==> id in db.everPaid))
  }

  /** Rows stay and keep their identity, and payments are remembered. */
  ghost predicate Evolves(db: Table, db': Table) {
    && (forall id :: id in db.rows ==> id in db'.rows && SameBooking(db'.rows[id], db.rows[id]))
    && db.everPaid <= db'.everPaid
  }

  lemma RestatusKeeps(db: Table, id: BookingId, to: Status)
    requires PastOk(db) && id in db.rows
    ensures PastOk(Restatus(db, id, to)) && Evolves(db, Restatus(db, id, to))
    ensures Paid(db) && (NeedsDeposit(db.rows[id].(status := to)) ==> id in db.everPaid) ==> Paid(Restatus(db, id, to))
  {}

  /** The pasts stay in order when one row and its marks change. */
  lemma MarksKeepPast(db: Table, db': Table, id: BookingId)
    requires PastOk(db) && id in db.rows && db'.admitted == db.admitted
    requires db'.rows.Keys == db.rows.Keys && id in db'.past && db'.past == db.past[id := db'.past[id]]
    requires db'.past[id].order == db.past[id].order
    ensures PastOk(db')
  {}

  lemma MoveKeeps(db: Table, id: BookingId, seen: Row, newStart: int)
    requires PastOk(db) && id in db.rows
    ensures PastOk(MoveRow(db, id, seen, newStart)) && Evolves(db, MoveRow(db, id, seen, newStart))
    ensures Paid(db) ==> Paid(MoveRow(db, id, seen, newStart))
  {}

  lemma AdmitKeeps(db: Table, req: Request)
    requires PastOk(db) && req.id !in db.rows
    ensures PastOk(Admit(db, req)) && Evolves(db, Admit(db, req))
    ensures Paid(db) ==> Paid(Admit(db, req))
  {}

  lemma WriteKeeps(c: Config, db: Table, locks: map<ProId, Thread>, action: Action, id: BookingId, seen: Row)
    requires PastOk(db) && Paid(db) && PhaseOk(c, db, Ready(action, id, seen))
    ensures var db' := WriteDb(c, db, locks, action, id, seen); PastOk(db') && Evolves(db, db') && Paid(db')
  {
    match action
    case Reschedule(newStart) =>
      if MayMove(c, db, locks, id, seen, newStart) { MoveKeeps(db, id, seen, newStart); }
    case Complete =>
      if Guard(db, id, seen.status) { RestatusKeeps(db, id, Completed); }
    case _ =>
      if Guard(db, id, seen.status) { RestatusKeeps(db, id, Target(action)); }
  }

  lemma NextDbKeeps(c: Config, db: Table, locks: map<ProId, Thread>, p: Phase, op: Op)
    requires PastOk(db) && Paid(db) && PhaseOk(c, db, p)
    ensures var db' := NextDb(c, db, locks, p, op); PastOk(db') && Evolves(db, db') && Paid(db')
  {
    match op
    case Commit =>
      if p.Inserted? && p.req.id !in db.rows { AdmitKeeps(db, p.req); }
    case Write =>
      if p.Ready? { WriteKeeps(c, db, locks, p.action, p.id, p.seen); }
    case Expire(id) =>
      if p.Idle? && Guard(db, id, Pending) { RestatusKeeps(db, id, Cancelled); }
    case _ =>
  }

  lemma NextPhaseOk(c: Config, db: Table, locks: map<ProId, Thread>, p: Phase, op: Op)
    requires PastOk(db) && Paid(db) && PhaseOk(c, db, p)
    ensures PhaseOk(c, NextDb(c, db, locks, p, op), NextPhase(c, db, locks, p, op))
  {}

  lemma PhaseOkStable(c: Config, db: Table, db': Table, p: Phase)
    requires PhaseOk(c, db, p) && Evolves(db, db')
    ensures PhaseOk(c, db', p)
  {}

  // ----- completed bookings and the counter -----

  predicate CompletedBy(db: Table, i: nat, pro: ProId)
    requires i < |db.history|
  {
    var e := db.history[i];
    e.to == Completed && e.booking in db.rows && db.rows[e.booking].pro == pro
  }

  /** The COMPLETED rows among the first k of the history that belong to the professional. */
  function CompletedEvents(db: Table, pro: ProId, k: nat): nat
    requires k <= |db.history|
  {
    if k == 0 then 0 else CompletedEvents(db, pro, k - 1) + if CompletedBy(db, k - 1, pro) then 1 else 0
  }

  ghost predicate HistoryOk(db: Table) {
    && (forall i :: 0 <= i < |db.history| ==> db.history[i].booking in db.rows)
    && (forall pro :: CountOf(db.counts, pro) == CompletedEvents(db, pro, |db.history|))
  }

  lemma {:induction false} CompletedEventsStable(db: Table, db': Table, pro: ProId, k: nat)
    requires k <= |db.history| && db.history <= db'.history && Evolves(db, db')
    requires forall i :: 0 <= i < |db.history| ==> db.history[i].booking in db.rows
    ensures CompletedEvents(db', pro, k) == CompletedEvents(db, pro, k)
  {
    if k > 0 {
      CompletedEventsStable(db, db', pro, k - 1);
      assert db'.history[k - 1] == db.history[k - 1];
    }
  }

  /** At most one history row is written, and only a completion counts. */
  ghost predicate HistoryStep(db: Table, db': Table, pro: ProId) {
    || (db'.history == db.history && db'.counts == db.counts)
    || (exists e :: db'.history == db.history + [e] && e.booking in db'.rows && e.to != Completed
          && db'.counts == db.counts)
    || (exists e :: db'.history == db.history + [e] && e.to == Completed
          && e.booking in db'.rows && db'.rows[e.booking].pro == pro
          && db'.counts == db.counts[pro := CountOf(db.counts, pro) + 1])
  }

  lemma NextDbHistory(c: Config, db: Table, locks: map<ProId, Thread>, p: Phase, op: Op)
    requires PastOk(db) && PhaseOk(c, db, p)
    ensures HistoryStep(db, NextDb(c, db, locks, p, op), if p.Ready? then p.seen.pro else 0)
  {}

  lemma HistoryStepOk(db: Table, db': Table, pro: ProId)
    requires HistoryOk(db) && Evolves(db, db') && HistoryStep(db, db', pro)
    ensures HistoryOk(db')
  {
    forall q ensures CountOf(db'.counts, q) == CompletedEvents(db', q, |db'.history|) {
      CompletedEventsStable(db, db', q, |db.history|);
    }
  }

  // ----- bookings nobody moved or revived -----

  ghost predicate Untouched(db: Table, id: BookingId) {
    id in db.rows && id in db.past && Active(db.rows[id]) && !db.past[id].moved && !db.past[id].revived
  }

  /** The row misses the other one's interval, padded before and after. */
  predicate Misses(c: Config, r: Row, padded: Row) {
    var b := Bounds(c, padded);
    !Overlaps(r, b.0, b.1)
  }

  /** The later admission's padded interval misses the earlier booking. */
  ghost predicate RowsApart(c: Config, db: Table) {
    forall a, b | Untouched(db, a) && Untouched(db, b) && db.rows[a].pro == db.rows[b].pro ::
      db.past[a].order < db.past[b].order ==> Misses(c, db.rows[a], db.rows[b])
  }

  ghost predicate RequestApart(c: Config, db: Table, req: Request) {
    forall id :: Untouched(db, id) && db.rows[id].pro == req.pro && id != req.id
      ==> Misses(c, db.rows[id], Requested(req))
  }

  ghost predicate PhaseApart(c: Config, db: Table, p: Phase) {
    (p.Checked? || p.Inserted?) ==> RequestApart(c, db, p.req)
  }

  /** A booking that is untouched now was untouched before, at the same place. */
  ghost predicate NoNewUntouched(db: Table, db': Table) {
    forall id :: id in db.rows && Untouched(db', id) ==>
      Untouched(db, id) && db'.rows[id] == db.rows[id].(status := db'.rows[id].status)
      && db'.past[id].order == db.past[id].order
  }

  lemma WriteUntouched(c: Config, db: Table, locks: map<ProId, Thread>, action: Action, id: BookingId, seen: Row)
    requires PastOk(db)
    ensures NoNewUntouched(db, WriteDb(c, db, locks, action, id, seen))
  {}

  lemma NextDbUntouched(c: Config, db: Table, locks: map<ProId, Thread>, p: Phase, op: Op)
    requires PastOk(db)
    ensures NoNewUntouched(db, NextDb(c, db, locks, p, op))
  {
    if op.Write? && p.Ready? {
      WriteUntouched(c, db, locks, p.action, p.id, p.seen);
    }
  }

  lemma NextDbRowsApart(c: Config, db: Table, locks: map<ProId, Thread>, p: Phase, op: Op)
    requires PastOk(db) && RowsApart(c, db) && PhaseApart(c, db, p)
    ensures RowsApart(c, NextDb(c, db, locks, p, op))
  {
    NextDbUntouched(c, db, locks, p, op);
  }

  // ----- every run -----

  /** A handler inside Create holds its professional's lock. */
  ghost predicate Holds(locks: map<ProId, Thread>, t: Thread, p: Phase) {
    InCreate(p) ==> p.req.pro in locks && locks[p.req.pro] == t
  }

  ghost predicate DbOk(c: Config, db: Table) {
    PastOk(db) && Paid(db) && HistoryOk(db) && RowsApart(c, db)
  }

  ghost predicate HandlerOk(c: Config, s: State, t: Thread) {
    var p := PhaseOf(s, t);
    PhaseOk(c, s.db, p) && PhaseApart(c, s.db, p) && Holds(s.locks, t, p)
  }

  ghost predicate Safe(c: Config, s: State) {
    DbOk(c, s.db) && forall t :: HandlerOk(c, s, t)
  }

  lemma NextPhaseApart(c: Config, db: Table, locks: map<ProId, Thread>, p: Phase, op: Op)
    requires PastOk(db) && PhaseApart(c, db, p)
    ensures PhaseApart(c, NextDb(c, db, locks, p, op), NextPhase(c, db, locks, p, op))
  {
    NextDbUntouched(c, db, locks, p, op);
  }

  /** Only a commit adds a row, of the professional its handler has locked. */
  lemma NewRowUnderLock(c: Config, db: Table, locks: map<ProId, Thread>, p: Phase, op: Op, id: BookingId)
    requires PastOk(db) && id !in db.rows && id in NextDb(c, db, locks, p, op).rows
    ensures p.Inserted? && NextDb(c, db, locks, p, op).rows[id].pro == p.req.pro
  {}

  lemma OthersApart(c: Config, db: Table, locks: map<ProId, Thread>, p: Phase, op: Op, q: Phase)
    requires PastOk(db) && PhaseApart(c, db, q)
    requires InCreate(p) && InCreate(q) ==> p.req.pro != q.req.pro
    ensures PhaseApart(c, NextDb(c, db, locks, p, op), q)
  {
    NextDbUntouched(c, db, locks, p, op);
    if q.Checked? || q.Inserted? {
      var db' := NextDb(c, db, locks, p, op);
      forall id | Untouched(db', id) && db'.rows[id].pro == q.req.pro && id != q.req.id
        ensures Misses(c, db'.rows[id], Requested(q.req))
      {
        if id !in db.rows {
          NewRowUnderLock(c, db, locks, p, op, id);
        }
      }
    }
  }

  lemma NextLocksHeld(c: Config, s: State, t: Thread, op: Op, u: Thread)
    requires Holds(s.locks, t, PhaseOf(s, t)) && Holds(s.locks, u, PhaseOf(s, u))
    ensures Holds(Apply(c, s, Handler(t, op)).locks, u, PhaseOf(Apply(c, s, Handler(t, op)), u))
  {}

  lemma HandlerStepSafe(c: Config, s: State, t: Thread, op: Op)
    requires Safe(c, s)
    ensures Safe(c, Apply(c, s, Handler(t, op)))
  {
    var s', p := Apply(c, s, Handler(t, op)), PhaseOf(s, t);
    assert HandlerOk(c, s, t);
    NextDbKeeps(c, s.db, s.locks, p, op);
    NextDbHistory(c, s.db, s.locks, p, op);
    HistoryStepOk(s.db, s'.db, if p.Ready? then p.seen.pro else 0);
    NextDbRowsApart(c, s.db, s.locks, p, op);
    forall u ensures HandlerOk(c, s', u) {
      assert HandlerOk(c, s, u);
      NextLocksHeld(c, s, t, op, u);
      if u == t {
        NextPhaseOk(c, s.db, s.locks, p, op);
        NextPhaseApart(c, s.db, s.locks, p, op);
      } else {
        PhaseOkStable(c, s.db, s'.db, PhaseOf(s, u));
        OthersApart(c, s.db, s.locks, p, op, PhaseOf(s, u));
      }
    }
  }

  lemma DepositStepSafe(c: Config, s: State, id: BookingId, succeeded: bool)
    requires Safe(c, s)
    ensures Safe(c, Apply(c, s, DepositIntent(id, succeeded)))
  {
    var db, db' := s.db, DepositDb(s.db, id, succeeded);
    HistoryStepOk(db, db', 0);
    forall u ensures HandlerOk(c, s.(db := db'), u) {
      assert HandlerOk(c, s, u);
      PhaseOkStable(c, db, db', PhaseOf(s, u));
    }
  }

  lemma {:induction false} RunSafe(c: Config, steps: seq<Step>, k: nat)
    requires k <= |steps|
    ensures Safe(c, Run(c, steps, k))
  {
    if k > 0 {
      RunSafe(c, steps, k - 1);
      match steps[k - 1]
      case Handler(t, op) => HandlerStepSafe(c, Run(c, steps, k - 1), t, op);
      case DepositIntent(id, succeeded) => DepositStepSafe(c, Run(c, steps, k - 1), id, succeeded);
    }
  }

  lemma RunRowsApart(c: Config, steps: seq<Step>, k: nat)
    requires k <= |steps|
    ensures PastOk(Run(c, steps, k).db) && RowsApart(c, Run(c, steps, k).db)
  {
    RunSafe(c, steps, k);
  }

  lemma UntouchedMiss(c: Config, db: Table, a: BookingId, b: BookingId)
    requires PastOk(db) && RowsApart(c, db)
    requires Untouched(db, a) && Untouched(db, b) && a != b && db.rows[a].pro == db.rows[b].pro
    ensures if db.past[a].order < db.past[b].order then Misses(c, db.rows[a], db.rows[b])
            else Misses(c, db.rows[b], db.rows[a])
  {}

  /** At no instant does the row meet the other booking, its travel before a home visit or its buffer. */
  lemma MissesAt(c: Config, r: Row, padded: Row, t: int)
    requires Misses(c, r, padded)
    ensures During(t, r.start, r.end) ==>
      && !During(t, padded.start, padded.end)
      && !During(t, padded.start - (if padded.home then c.padding.travel else 0), padded.end + c.padding.buffer)
  {}

  /**
   In every interleaved, crashing run of the code: two active bookings of one professional that
   nobody moved or revived have no instant in common, and the earlier admitted one keeps clear of
   the later one's travel before a home visit and of the buffer after it.
   */
  lemma CreatedBookingsApart(c: Config, steps: seq<Step>, k: nat, a: BookingId, b: BookingId, t: int)
    requires k <= |steps|
    requires var db := Run(c, steps, k).db;
             Untouched(db, a) && Untouched(db, b) && a != b && db.rows[a].pro == db.rows[b].pro
    ensures var db := Run(c, steps, k).db;
            && !(During(t, db.rows[a].start, db.rows[a].end) && During(t, db.rows[b].start, db.rows[b].end))
            && (db.past[a].order < db.past[b].order && During(t, db.rows[a].start, db.rows[a].end) ==>
                  !During(t, db.rows[b].start - (if db.rows[b].home then c.padding.travel else 0),
                          db.rows[b].end + c.padding.buffer))
  {
    RunRowsApart(c, steps, k);
    var db := Run(c, steps, k).db;
    UntouchedMiss(c, db, a, b);
    if db.past[a].order < db.past[b].order {
      MissesAt(c, db.rows[a], db.rows[b], t);
    } else {
      MissesAt(c, db.rows[b], db.rows[a], t);
    }
  }

  /** In every run a booking that needed a deposit and got confirmed, or was settled, had it paid before. */
  lemma DepositBeforeConfirmation(c: Config, steps: seq<Step>, k: nat, id: BookingId)
    requires k <= |steps|
    requires var db := Run(c, steps, k).db;
             id in db.rows && (NeedsDeposit(db.rows[id]) || (id in db.settled && db.rows[id].deposit > 0))
    ensures exists j :: 0 <= j <= k && id in Run(c, steps, j).db.deposits
  {
    RunSafe(c, steps, k);
    EverPaidWasPaid(c, steps, k, id);
  }

  lemma {:induction false} EverPaidWasPaid(c: Config, steps: seq<Step>, k: nat, id: BookingId)
    requires k <= |steps| && id in Run(c, steps, k).db.everPaid
    ensures exists j :: 0 <= j <= k && id in Run(c, steps, j).db.deposits
  {
    if k > 0 && id in Run(c, steps, k - 1).db.everPaid {
      EverPaidWasPaid(c, steps, k - 1, id);
    } else if k > 0 {
      assert id in Run(c, steps, k).db.deposits;
    }
  }

  /** In every run booking_count is the number of COMPLETED rows in the professional's history. */
  lemma CountFollowsHistory(c: Config, steps: seq<Step>, k: nat, pro: ProId)
    requires k <= |steps|
    ensures var db := Run(c, steps, k).db;
            CountOf(db.counts, pro) == CompletedEvents(db, pro, |db.history|)
  {
    RunSafe(c, steps, k);
  }
}
