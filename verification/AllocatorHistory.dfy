/**
 What the allocator's tables remember of a run: the marks on a booking, the deposits, and the locks
 all have their causes in earlier steps.
 */
module AllocatorHistory {
  import opened BookingRows
  import opened Allocator
  import opened AllocatorSafety

  // ----- moved and revived bookings -----

  /** The handler's step writes a reschedule of the booking. */
  predicate Moves(p: Phase, op: Op, id: BookingId) {
    op.Write? && p.Ready? && p.id == id && p.action.Reschedule?
  }

  /** The booking is cancelled, completed or a no-show. */
  predicate OverAt(db: Table, id: BookingId) {
    id in db.rows && db.rows[id].status !in {Pending, Confirmed, InProgress}
  }

  /** A mark that is new has its cause in this step. */
  ghost predicate MarksCaused(db: Table, db': Table, id: BookingId, moves: bool) {
    id in db'.past ==>
      && (db'.past[id].moved ==> (id in db.past && db.past[id].moved) || moves)
      && (db'.past[id].revived ==> (id in db.past && db.past[id].revived) || OverAt(db, id))
  }

  lemma WriteMarks(c: Config, db: Table, locks: map<ProId, Thread>, action: Action, written: BookingId, seen: Row,
                   id: BookingId)
    ensures MarksCaused(db, WriteDb(c, db, locks, action, written, seen), id, written == id && action.Reschedule?)
  {}

  lemma NextDbMarks(c: Config, db: Table, locks: map<ProId, Thread>, p: Phase, op: Op, id: BookingId)
    ensures MarksCaused(db, NextDb(c, db, locks, p, op), id, Moves(p, op, id))
  {
    if op.Write? && p.Ready? { WriteMarks(c, db, locks, p.action, p.id, p.seen, id); }
  }

  predicate MovedAt(c: Config, steps: seq<Step>, j: nat, id: BookingId)
    requires j < |steps|
  {
    steps[j].Handler? && Moves(PhaseOf(Run(c, steps, j), steps[j].t), steps[j].op, id)
  }

  predicate WasMoved(c: Config, steps: seq<Step>, k: nat, id: BookingId)
    requires k <= |steps|
  {
    exists j :: 0 <= j < k && MovedAt(c, steps, j, id)
  }

  predicate WasOver(c: Config, steps: seq<Step>, k: nat, id: BookingId)
    requires k <= |steps|
  {
    exists j :: 0 <= j < k && OverAt(Run(c, steps, j).db, id)
  }

  lemma StepMarks(c: Config, steps: seq<Step>, k: nat, n: nat, id: BookingId)
    requires k < |steps| && n == k + 1
    ensures MarksCaused(Run(c, steps, k).db, Run(c, steps, n).db, id, MovedAt(c, steps, k, id))
  {
    var s := Run(c, steps, k);
    match steps[k]
    case Handler(t, op) => NextDbMarks(c, s.db, s.locks, PhaseOf(s, t), op, id);
    case DepositIntent(_, _) =>
  }

  /** A booking is marked moved only by a reschedule, and revived only after it was over. */
  lemma {:induction false} MarksHaveCauses(c: Config, steps: seq<Step>, k: nat, id: BookingId)
    requires k <= |steps| && id in Run(c, steps, k).db.past
    ensures Run(c, steps, k).db.past[id].moved ==> WasMoved(c, steps, k, id)
    ensures Run(c, steps, k).db.past[id].revived ==> WasOver(c, steps, k, id)
  {
    if k > 0 {
      StepMarks(c, steps, k - 1, k, id);
      if id in Run(c, steps, k - 1).db.past { MarksHaveCauses(c, steps, k - 1, id); }
    }
  }

  /** Since its creation the booking was always pending, confirmed or in progress, and nobody moved it. */
  predicate AlwaysActiveInPlace(c: Config, steps: seq<Step>, k: nat, id: BookingId)
    requires k <= |steps|
  {
    && id in Run(c, steps, k).db.rows
    && !OverAt(Run(c, steps, k).db, id) && !WasOver(c, steps, k, id) && !WasMoved(c, steps, k, id)
  }

  lemma AlwaysActiveIsUntouched(c: Config, steps: seq<Step>, k: nat, id: BookingId)
    requires k <= |steps| && AlwaysActiveInPlace(c, steps, k, id)
    ensures Untouched(Run(c, steps, k).db, id)
  {
    RunRowsApart(c, steps, k);
    MarksHaveCauses(c, steps, k, id);
  }

  /** In every run two such bookings of one professional have no instant in common. */
  lemma AlwaysActiveApart(c: Config, steps: seq<Step>, k: nat, a: BookingId, b: BookingId, t: int)
    requires k <= |steps| && a != b
    requires AlwaysActiveInPlace(c, steps, k, a) && AlwaysActiveInPlace(c, steps, k, b)
    requires Run(c, steps, k).db.rows[a].pro == Run(c, steps, k).db.rows[b].pro
    ensures var rows := Run(c, steps, k).db.rows;
      !(During(t, rows[a].start, rows[a].end) && During(t, rows[b].start, rows[b].end))
  {
    AlwaysActiveIsUntouched(c, steps, k, a);
    AlwaysActiveIsUntouched(c, steps, k, b);
    CreatedBookingsApart(c, steps, k, a, b, t);
  }

  // ----- deposits and locks -----

  /** What the last of the first k deposit updates of the booking said. */
  function LastDeposit(steps: seq<Step>, id: BookingId, k: nat): bool
    requires k <= |steps|
  {
    if k == 0 then false
    else if steps[k - 1].DepositIntent? && steps[k - 1].id == id then steps[k - 1].succeeded
    else LastDeposit(steps, id, k - 1)
  }

  lemma HandlersKeepDeposits(c: Config, db: Table, locks: map<ProId, Thread>, p: Phase, op: Op)
    ensures NextDb(c, db, locks, p, op).deposits == db.deposits
  {}

  /** Confirm finds the deposit paid exactly when its latest update says so. */
  lemma {:induction false} DepositsAreCurrent(c: Config, steps: seq<Step>, id: BookingId, k: nat)
    requires k <= |steps|
    ensures id in Run(c, steps, k).db.deposits <==> LastDeposit(steps, id, k)
  {
    if k > 0 {
      DepositsAreCurrent(c, steps, id, k - 1);
      var s := Run(c, steps, k - 1);
      match steps[k - 1]
      case Handler(t, op) => HandlersKeepDeposits(c, s.db, s.locks, PhaseOf(s, t), op);
      case DepositIntent(_, _) =>
    }
  }

  /** A professional's row is locked only by a handler that is inside Create for this professional. */
  ghost predicate LocksJustified(s: State) {
    forall pro :: pro in s.locks ==>
      InCreate(PhaseOf(s, s.locks[pro])) && PhaseOf(s, s.locks[pro]).req.pro == pro
  }

  lemma NextLocksJustified(c: Config, s: State, t: Thread, op: Op)
    requires LocksJustified(s)
    ensures LocksJustified(Apply(c, s, Handler(t, op)))
  {
    var s' := Apply(c, s, Handler(t, op));
    forall pro | pro in s'.locks
      ensures InCreate(PhaseOf(s', s'.locks[pro])) && PhaseOf(s', s'.locks[pro]).req.pro == pro
    {
      if pro in s.locks { assert InCreate(PhaseOf(s, s.locks[pro])); }
    }
  }

  /** So in every run the lock is free again once its handler has committed, failed or crashed. */
  lemma {:induction false} LocksAreReleased(c: Config, steps: seq<Step>, k: nat)
    requires k <= |steps|
    ensures LocksJustified(Run(c, steps, k))
  {
    if k > 0 {
      LocksAreReleased(c, steps, k - 1);
      var s := Run(c, steps, k - 1);
      match steps[k - 1]
      case Handler(t, op) => NextLocksJustified(c, s, t, op);
      case DepositIntent(_, _) =>
    }
  }
}
