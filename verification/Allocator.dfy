/**
 The booking allocator as a state machine. Each step is one database statement of a
 handler in internal/bookings; handlers interleave freely and may crash between steps.
 `Create` locks the professional's row, checks, inserts and commits; the other handlers
 read a booking, decide on what they read, and write later.
 */
module Allocator {
  import opened Options
  import opened BookingRows

  type Thread = int

  datatype Request = Request(id: BookingId, pro: ProId, customer: int, start: int, end: int,
                             home: bool, deposit: int, total: int)

  datatype Action = Confirm | Start | Complete | Cancel | Reschedule(newStart: int)

  /** One row of booking_status_history. */
  datatype Event = Event(booking: BookingId, to: Status)

  /** What a booking's past says about it: its admission order, whether it was moved or revived. */
  datatype Past = Past(order: nat, moved: bool, revived: bool)

  /** The tables; the last four fields only remember the past. */
  datatype Table = Table(
    rows: map<BookingId, Row>,
    history: seq<Event>,
    counts: map<ProId, nat>,    // booking_count
    deposits: set<BookingId>,   // bookings whose DEPOSIT intent is SUCCEEDED now
    everPaid: set<BookingId>,   // bookings whose DEPOSIT intent was ever SUCCEEDED
    settled: set<BookingId>,    // bookings settlement was run for
    past: map<BookingId, Past>,
    admitted: nat)

  /** Where a handler stands between two statements. */
  datatype Phase =
    | Idle
    | Locked(req: Request)
    | Checked(req: Request)
    | Inserted(req: Request)
    | Read(action: Action, id: BookingId, seen: Row)
    | Ready(action: Action, id: BookingId, seen: Row)
    | Logging(event: Event)
    | Settling(settle: BookingId)

  datatype State = State(db: Table, locks: map<ProId, Thread>, phases: map<Thread, Phase>)

  const INIT := State(Table(map[], [], map[], {}, {}, {}, map[], 0), map[], map[])

  /** How Reschedule writes: as the code does, with its check repeated, or also under Create's lock. */
  datatype RescheduleMode = Unguarded | OneStep | UnderLock

  /** `confirmFrom` are the statuses Confirm accepts. */
  datatype Config = Config(padding: Padding, confirmFrom: set<Status>, reschedule: RescheduleMode)

  /** The code confirms from any status and reschedules Unguarded. */
  function Code(padding: Padding): Config {
    Config(padding, {Pending, Confirmed, InProgress, Completed, Cancelled, NoShow}, Unguarded)
  }

  datatype Op =
    | BeginCreate(request: Request)
    | CheckConflict
    | Insert
    | Commit
    | ReadBooking(todo: Action, booking: BookingId)
    | Validate(windowOk: bool)
    | Write
    | Log
    | Settle
    | Expire(stale: BookingId)
    | Crash

  datatype Step = Handler(t: Thread, op: Op) | DepositIntent(id: BookingId, succeeded: bool)

  // ----- decisions -----

  function Requested(req: Request): Row {
    Row(req.pro, req.customer, Pending, req.start, req.end, req.home, req.deposit, req.total)
  }

  function Bounds(c: Config, r: Row): (int, int) {
    CheckBounds(r.start, r.end, r.home, c.padding)
  }

  /** The query under Create's lock: an active booking meets the padded interval. */
  predicate Conflicts(c: Config, db: Table, req: Request) {
    var b := Bounds(c, Requested(req));
    HasOverlap(db.rows, req.pro, b.0, b.1, Some(req.id))
  }

  /** Go's conversion of a duration in seconds to whole minutes rounds towards zero. */
  function WholeMinutes(seconds: int): int {
    if seconds >= 0 then seconds / 60 else -(-seconds / 60)
  }

  /** Reschedule keeps the booking's length in whole minutes. */
  function Moved(r: Row, newStart: int, seen: Row): Row {
    r.(start := newStart, end := newStart + WholeMinutes(seen.end - seen.start) * 60)
  }

  /** A booking of whole minutes keeps its length exactly, any other loses less than a minute of it. */
  lemma MovedKeepsLength(r: Row, newStart: int)
    requires r.start <= r.end
    ensures var m := Moved(r, newStart, r);
      && m.start == newStart
      && 0 <= (r.end - r.start) - (m.end - m.start) < 60
      && ((r.end - r.start) % 60 == 0 ==> m.end - m.start == r.end - r.start)
      && m == r.(start := m.start, end := m.end)
  {}

  predicate SlotStillFree(c: Config, db: Table, id: BookingId, seen: Row, newStart: int) {
    var b := Bounds(c, Moved(seen, newStart, seen));
    !HasOverlap(db.rows, seen.pro, b.0, b.1, Some(id))
  }

  /** The decision a handler takes on the row it has read. */
  predicate Allowed(c: Config, db: Table, action: Action, id: BookingId, seen: Row, windowOk: bool) {
    match action
    case Confirm => (seen.deposit > 0 ==> id in db.deposits) && seen.status in c.confirmFrom
    case Start => seen.status == Confirmed
    case Complete => seen.status == InProgress || seen.status == Confirmed
    case Cancel => seen.status != Cancelled && seen.status != Completed && seen.status != NoShow
    case Reschedule(newStart) =>
      && (seen.status == Pending || seen.status == Confirmed)
      && SlotStillFree(c, db, id, seen, newStart) && windowOk
  }

  /** The WHERE clause of a guarded status update. */
  predicate Guard(db: Table, id: BookingId, from: Status) {
    id in db.rows && id in db.past && db.rows[id].status == from
  }

  predicate MayMove(c: Config, db: Table, locks: map<ProId, Thread>, id: BookingId, seen: Row, newStart: int) {
    && id in db.rows && id in db.past
    && (c.reschedule != Unguarded ==> SlotStillFree(c, db, id, seen, newStart))
    && (c.reschedule == UnderLock ==> seen.pro !in locks)
  }

  function Target(action: Action): Status
    requires !action.Reschedule?
  {
    match action
    case Confirm => Confirmed
    case Start => InProgress
    case Complete => Completed
    case Cancel => Cancelled
  }

  // ----- what a step does to the tables -----

  function Admit(db: Table, req: Request): Table {
    db.(rows := db.rows[req.id := Requested(req)],
        history := db.history + [Event(req.id, Pending)],
        past := db.past[req.id := Past(db.admitted, false, false)],
        admitted := db.admitted + 1)
  }

  /** `UpdateStatus` once its guard holds; its history row is a later statement. */
  function Restatus(db: Table, id: BookingId, to: Status): Table
    requires id in db.rows && id in db.past
  {
    var r, p := db.rows[id], db.past[id];
    db.(rows := db.rows[id := r.(status := to)],
        past := db.past[id := p.(revived := p.revived || !Active(r))])
  }

  function CountOf(counts: map<ProId, nat>, pro: ProId): nat {
    if pro in counts then counts[pro] else 0
  }

  /** `CompleteStatus`: status, count and history row in one transaction. */
  function CompleteRow(db: Table, id: BookingId, pro: ProId): Table
    requires id in db.rows && id in db.past
  {
    Restatus(db, id, Completed).(
      counts := db.counts[pro := CountOf(db.counts, pro) + 1],
      history := db.history + [Event(id, Completed)])
  }

  /** `Store.Reschedule`: new times, whatever the status. */
  function MoveRow(db: Table, id: BookingId, seen: Row, newStart: int): Table
    requires id in db.rows && id in db.past
  {
    db.(rows := db.rows[id := Moved(db.rows[id], newStart, seen)],
        past := db.past[id := db.past[id].(moved := true)])
  }

  function WriteDb(c: Config, db: Table, locks: map<ProId, Thread>,
                   action: Action, id: BookingId, seen: Row): Table {
    match action
    case Reschedule(newStart) =>
      if MayMove(c, db, locks, id, seen, newStart) then MoveRow(db, id, seen, newStart) else db
    case Complete => if Guard(db, id, seen.status) then CompleteRow(db, id, seen.pro) else db
    case _ => if Guard(db, id, seen.status) then Restatus(db, id, Target(action)) else db
  }

  function NextDb(c: Config, db: Table, locks: map<ProId, Thread>, p: Phase, op: Op): Table {
    match op
    case Commit => if p.Inserted? && p.req.id !in db.rows then Admit(db, p.req) else db
    case Write => if p.Ready? then WriteDb(c, db, locks, p.action, p.id, p.seen) else db
    case Log => if p.Logging? then db.(history := db.history + [p.event]) else db
    case Settle => if p.Settling? then db.(settled := db.settled + {p.settle}) else db
    case Expire(id) => if p.Idle? && Guard(db, id, Pending) then Restatus(db, id, Cancelled) else db
    case _ => db
  }

  function DepositDb(db: Table, id: BookingId, succeeded: bool): Table {
    if succeeded then db.(deposits := db.deposits + {id}, everPaid := db.everPaid + {id})
    else db.(deposits := db.deposits - {id})
  }

  // ----- what a step does to its handler -----

  function AfterWrite(c: Config, db: Table, locks: map<ProId, Thread>,
                      action: Action, id: BookingId, seen: Row): Phase {
    match action
    case Reschedule(newStart) =>
      if MayMove(c, db, locks, id, seen, newStart) then Logging(Event(id, seen.status)) else Idle
    case Complete => if Guard(db, id, seen.status) then Settling(id) else Idle
    case _ => if Guard(db, id, seen.status) then Logging(Event(id, Target(action))) else Idle
  }

  /** A step its handler is not ready for leaves the handler where it is. */
  function NextPhase(c: Config, db: Table, locks: map<ProId, Thread>, p: Phase, op: Op): Phase {
    match op
    case BeginCreate(req) => if p.Idle? && req.pro !in locks then Locked(req) else p
    case CheckConflict =>
      if !p.Locked? then p else if Conflicts(c, db, p.req) then Idle else Checked(p.req)
    case Insert => if p.Checked? then Inserted(p.req) else p
    case Commit => if p.Inserted? then Idle else p
    case ReadBooking(action, id) => if p.Idle? && id in db.rows then Read(action, id, db.rows[id]) else p
    case Validate(windowOk) =>
      if !p.Read? then p
      else if Allowed(c, db, p.action, p.id, p.seen, windowOk) then Ready(p.action, p.id, p.seen) else Idle
    case Write => if p.Ready? then AfterWrite(c, db, locks, p.action, p.id, p.seen) else p
    case Log => if p.Logging? then Idle else p
    case Settle => if p.Settling? then Idle else p
    case Expire(id) => if p.Idle? && Guard(db, id, Pending) then Logging(Event(id, Cancelled)) else p
    case Crash => Idle
  }

  predicate InCreate(p: Phase) {
    p.Locked? || p.Checked? || p.Inserted?
  }

  function NextLocks(locks: map<ProId, Thread>, t: Thread, p: Phase, p': Phase): map<ProId, Thread> {
    if p.Idle? && p'.Locked? then locks[p'.req.pro := t]
    else if InCreate(p) && p'.Idle? then locks - {p.req.pro}
    else locks
  }

  function PhaseOf(s: State, t: Thread): Phase {
    if t in s.phases then s.phases[t] else Idle
  }

  function Apply(c: Config, s: State, step: Step): State {
    match step
    case Handler(t, op) =>
      var p := PhaseOf(s, t);
      var p' := NextPhase(c, s.db, s.locks, p, op);
      State(NextDb(c, s.db, s.locks, p, op), NextLocks(s.locks, t, p, p'), s.phases[t := p'])
    case DepositIntent(id, succeeded) => s.(db := DepositDb(s.db, id, succeeded))
  }

  /** The state after the first k steps of a run. */
  function Run(c: Config, steps: seq<Step>, k: nat): State
    requires k <= |steps|
  {
    if k == 0 then INIT else Apply(c, Run(c, steps, k - 1), steps[k - 1])
  }
}
