/**
 The booking store and the service methods on it as sequential code (internal/bookings).
 Each method does to the tables what the allocator machine's handler does when it runs alone.
 */
module BookingStore {
  import opened Options
  import opened EffectiveWindows
  import opened BookingRows
  import opened Slots
  import opened Allocator
  import opened AllocatorSafety

  datatype BookingError =
    | NotFound | NotYours | DepositRequired | InvalidTransition | NotConfirmed | NotActive
    | CannotCancel | CannotReschedule | StartInPast | SlotUnavailable | SlotJustBooked | DuplicateId

  function Logged(db: Table, e: Event): Table {
    db.(history := db.history + [e])
  }

  // ----- the machine's handlers, run alone -----

  /** A service handler from reading the booking to its history row, with nobody in between. */
  function Alone(c: Config, db: Table, action: Action, id: BookingId, windowOk: bool): Table {
    var s := Apply(c, State(db, map[], map[]), Handler(0, ReadBooking(action, id)));
    Apply(c, Apply(c, Apply(c, s, Handler(0, Validate(windowOk))), Handler(0, Write)), Handler(0, Log)).db
  }

  /** Create from taking the lock to its commit, with nobody in between. */
  function AloneCreate(c: Config, db: Table, req: Request): Table {
    var s := Apply(c, State(db, map[], map[]), Handler(0, BeginCreate(req)));
    Apply(c, Apply(c, Apply(c, s, Handler(0, CheckConflict)), Handler(0, Insert)), Handler(0, Commit)).db
  }

  /** The expiry job on one booking. */
  function AloneExpire(c: Config, db: Table, id: BookingId): Table {
    Apply(c, Apply(c, State(db, map[], map[]), Handler(0, Expire(id))), Handler(0, Log)).db
  }

  /** What a service method does to the tables once the caller may act on the booking. */
  ghost function Effect(c: Config, db: Table, action: Action, id: BookingId, windowOk: bool): Table
    requires PastOk(db) && id in db.rows
  {
    if !Allowed(c, db, action, id, db.rows[id], windowOk) then db
    else
      match action
      case Complete => CompleteRow(db, id, db.rows[id].pro)
      case Reschedule(newStart) =>
        Logged(MoveRow(db, id, db.rows[id], newStart), Event(id, db.rows[id].status))
      case _ => Logged(Restatus(db, id, Target(action)), Event(id, Target(action)))
  }

  ghost function CreateEffect(c: Config, db: Table, req: Request): Table {
    if Conflicts(c, db, req) || req.id in db.rows then db else Admit(db, req)
  }

  /** The machine's conflict query is the one on the padded interval. */
  lemma CreateEffectIs(padding: Padding, db: Table, req: Request, start: int, end: int)
    requires start == req.start - (if req.home then padding.travel else 0) && end == req.end + padding.buffer
    ensures CreateEffect(Code(padding), db, req) ==
      if HasOverlap(db.rows, req.pro, start, end, Some(req.id)) || req.id in db.rows then db else Admit(db, req)
  {}

  lemma AloneConfirms(c: Config, db: Table, id: BookingId, windowOk: bool)
    requires PastOk(db) && id in db.rows
    ensures Alone(c, db, Action.Confirm, id, windowOk) == Effect(c, db, Action.Confirm, id, windowOk)
  {}

  lemma AloneStarts(c: Config, db: Table, id: BookingId, windowOk: bool)
    requires PastOk(db) && id in db.rows
    ensures Alone(c, db, Action.Start, id, windowOk) == Effect(c, db, Action.Start, id, windowOk)
  {}

  lemma AloneCompletes(c: Config, db: Table, id: BookingId, windowOk: bool)
    requires PastOk(db) && id in db.rows
    ensures Alone(c, db, Action.Complete, id, windowOk) == Effect(c, db, Action.Complete, id, windowOk)
  {}

  /** After its transaction a completion is settled. */
  lemma CompletedIsSettled(c: Config, db: Table, id: BookingId)
    requires PastOk(db) && id in db.rows && db.rows[id].status in {InProgress, Confirmed}
    ensures var s := Apply(c, State(db, map[], map[]), Handler(0, ReadBooking(Action.Complete, id)));
      var written := Apply(c, Apply(c, s, Handler(0, Validate(true))), Handler(0, Write));
      Apply(c, written, Handler(0, Settle)).db == CompleteRow(db, id, db.rows[id].pro).(settled := db.settled + {id})
  {}

  lemma AloneCancels(c: Config, db: Table, id: BookingId, windowOk: bool)
    requires PastOk(db) && id in db.rows
    ensures Alone(c, db, Action.Cancel, id, windowOk) == Effect(c, db, Action.Cancel, id, windowOk)
  {}

  lemma AloneReschedules(c: Config, db: Table, id: BookingId, newStart: int, windowOk: bool)
    requires PastOk(db) && id in db.rows
    ensures var action := Action.Reschedule(newStart);
      Alone(c, db, action, id, windowOk) == Effect(c, db, action, id, windowOk)
  {}

  lemma AloneCreates(c: Config, db: Table, req: Request)
    ensures AloneCreate(c, db, req) == CreateEffect(c, db, req)
  {}

  lemma AloneExpires(c: Config, db: Table, id: BookingId)
    requires PastOk(db)
    ensures AloneExpire(c, db, id) ==
      if Guard(db, id, Pending) then Logged(Restatus(db, id, Cancelled), Event(id, Cancelled)) else db
  {}

  /** The window half of the slot check for a booking's padded interval. */
  ghost predicate WindowFits(weekly: seq<WeeklyWindow>, exceptions: seq<DayException>, zone: int,
                             booking: Row, padding: Padding) {
    var start := if booking.home then booking.start - padding.travel else booking.start;
    FitsSome(multiset(DayWindows(weekly, exceptions, LocalDay(start, zone))),
             MinutesOfDay(start, zone), MinutesOfDay(booking.end + padding.buffer, zone))
  }

  /** The whole slot check for a booking's padded interval. */
  ghost predicate SlotFreeFor(rows: map<BookingId, Row>, weekly: seq<WeeklyWindow>, exceptions: seq<DayException>,
                              zone: int, booking: Row, padding: Padding, exclude: Option<BookingId>) {
    SlotFree(Calendar(weekly, exceptions, rows, booking.pro, zone, padding),
             if booking.home then booking.start - padding.travel else booking.start,
             booking.end + padding.buffer, exclude)
  }

  /** Where the machine's decision and the service's checks on a reschedule meet. */
  lemma RescheduleEffect(padding: Padding, db: Table, id: BookingId, newStart: int,
                         weekly: seq<WeeklyWindow>, exceptions: seq<DayException>, zone: int)
    requires PastOk(db) && id in db.rows
    ensures var b := db.rows[id];
      var moved := Moved(b, newStart, b);
      Effect(Code(padding), db, Action.Reschedule(newStart), id, WindowFits(weekly, exceptions, zone, moved, padding)) ==
        if b.status in {Pending, Confirmed} && SlotFreeFor(db.rows, weekly, exceptions, zone, moved, padding, Some(id))
        then Logged(MoveRow(db, id, b, newStart), Event(id, b.status)) else db
  {}

  class Store {
    const padding: Padding
    var rows: map<BookingId, Row>
    var history: seq<Event>
    var counts: map<ProId, nat>
    var deposits: set<BookingId>
    ghost var everPaid: set<BookingId>
    ghost var settled: set<BookingId>
    ghost var past: map<BookingId, Past>
    ghost var admitted: nat

    ghost function Tables(): Table
      reads this
    {
      Table(rows, history, counts, deposits, everPaid, settled, past, admitted)
    }

    ghost predicate Valid()
      reads this
    {
      PastOk(Tables())
    }

    constructor (padding: Padding)
      ensures Valid() && Tables() == INIT.db && this.padding == padding
    {
      this.padding := padding;
      rows, history, counts, deposits := map[], [], map[], {};
      everPaid, settled, past, admitted := {}, {}, map[], 0;
    }

    /** `CreateIfSlotFree`: the transaction's check and insert. */
    method CreateIfSlotFree(req: Request, start: int, end: int) returns (r: Result<Row, BookingError>)
      requires Valid()
      requires start == req.start - (if req.home then padding.travel else 0) && end == req.end + padding.buffer
      modifies this
      ensures Valid()
      ensures r.Failure? ==> r == Failure(SlotUnavailable) || r == Failure(DuplicateId)
      ensures r == Failure(SlotUnavailable) <==> HasOverlap(old(rows), req.pro, start, end, Some(req.id))
      ensures ProperRows(old(rows)) && start < end ==>
                (r == Failure(SlotUnavailable) <==> Occupied(old(rows), req.pro, start, end, Some(req.id)))
      ensures r == Failure(DuplicateId) ==> req.id in old(rows)
      ensures r.Success? ==>
                && req.id !in old(rows)
                && r.value == Row(req.pro, req.customer, Pending, req.start, req.end, req.home, req.deposit, req.total)
                && rows == old(rows)[req.id := r.value]
                && history == old(history) + [Event(req.id, Pending)]
      ensures r.Failure? ==> Tables() == old(Tables())
      ensures Tables() == CreateEffect(Code(padding), old(Tables()), req)
    {
      if ProperRows(rows) && start < end {
        HasOverlapIffOccupied(rows, req.pro, start, end, Some(req.id));
      }
      CreateEffectIs(padding, Tables(), req, start, end);
      if HasOverlap(rows, req.pro, start, end, Some(req.id)) {
        return Failure(SlotUnavailable);
      }
      if req.id in rows {
        return Failure(DuplicateId);
      }
      AdmitKeeps(Tables(), req);
      rows := rows[req.id := Requested(req)];
      history := history + [Event(req.id, Pending)];
      past := past[req.id := Past(admitted, false, false)];
      admitted := admitted + 1;
      return Success(rows[req.id]);
    }

    /** `UpdateStatus`. */
    method UpdateStatus(id: BookingId, from: Status, to: Status) returns (r: Result<Row, BookingError>)
      requires Valid()
      modifies this
      ensures Valid()
      ensures r.Success? <==> id in old(rows) && old(rows)[id].status == from
      ensures r.Success? ==>
                && rows == old(rows)[id := old(rows)[id].(status := to)]
                && history == old(history) + [Event(id, to)]
                && counts == old(counts)
      ensures r.Success? ==>
                Tables() == Logged(Restatus(old(Tables()), id, to), Event(id, to)) && r.value == rows[id]
      ensures r.Failure? ==> Tables() == old(Tables()) && r.error == InvalidTransition
    {
      if id !in rows || rows[id].status != from {
        return Failure(InvalidTransition);
      }
      MarksKeepPast(Tables(), Restatus(Tables(), id, to), id);
      ghost var db := Restatus(Tables(), id, to);
      past := past[id := past[id].(revived := past[id].revived || !Active(rows[id]))];
      rows := rows[id := rows[id].(status := to)];
      assert Tables() == db;
      history := history + [Event(id, to)];
      return Success(rows[id]);
    }

    /** `CompleteStatus`: the count moves with the status. */
    method CompleteStatus(id: BookingId, from: Status, pro: ProId) returns (r: Result<Row, BookingError>)
      requires Valid()
      modifies this
      ensures Valid()
      ensures r.Success? <==> id in old(rows) && old(rows)[id].status == from
      ensures r.Success? ==>
                && rows == old(rows)[id := old(rows)[id].(status := Completed)]
                && history == old(history) + [Event(id, Completed)]
                && counts == old(counts)[pro := (if pro in old(counts) then old(counts)[pro] else 0) + 1]
      ensures r.Success? ==> Tables() == CompleteRow(old(Tables()), id, pro) && r.value == rows[id]
      ensures r.Failure? ==> Tables() == old(Tables()) && r.error == InvalidTransition
    {
      r := UpdateStatus(id, from, Completed);
      if r.Success? {
        counts := counts[pro := CountOf(counts, pro) + 1];
      }
    }

    /** `Store.Reschedule`. */
    method SetTimes(id: BookingId, seen: Row, newStart: int) returns (r: Result<Row, BookingError>)
      requires Valid()
      modifies this
      ensures Valid()
      ensures r.Success? <==> id in old(rows)
      ensures r.Failure? ==> r.error == NotFound
      ensures r.Success? ==>
                && rows == old(rows)[id := old(rows)[id].(
                     start := newStart, end := newStart + WholeMinutes(seen.end - seen.start) * 60)]
                && history == old(history) + [Event(id, seen.status)]
      ensures r.Success? ==>
                && Tables() == Logged(MoveRow(old(Tables()), id, seen, newStart), Event(id, seen.status))
                && r.value == rows[id]
      ensures r.Failure? ==> Tables() == old(Tables())
    {
      if id !in rows {
        return Failure(NotFound);
      }
      MarksKeepPast(Tables(), MoveRow(Tables(), id, seen, newStart), id);
      ghost var db := MoveRow(Tables(), id, seen, newStart);
      past := past[id := past[id].(moved := true)];
      rows := rows[id := Moved(rows[id], newStart, seen)];
      assert Tables() == db;
      history := history + [Event(id, seen.status)];
      return Success(rows[id]);
    }

    method Confirm(pro: ProId, id: BookingId) returns (r: Result<Row, BookingError>)
      requires Valid()
      modifies this
      ensures Valid()
      ensures r == if id !in old(rows) then Failure(NotFound)
                   else if old(rows)[id].pro != pro then Failure(NotYours)
                   else if old(rows)[id].deposit > 0 && id !in old(deposits) then Failure(DepositRequired)
                   else Success(old(rows)[id].(status := Confirmed))
      ensures r.Success? ==> rows == old(rows)[id := r.value] && history == old(history) + [Event(id, Confirmed)]
      ensures r.Failure? ==> Tables() == old(Tables())
      ensures id in old(rows) && old(rows)[id].pro == pro ==>
                Tables() == Effect(Code(padding), old(Tables()), Action.Confirm, id, true)
    {
      if id !in rows { return Failure(NotFound); }
      var b := rows[id];
      if b.pro != pro { return Failure(NotYours); }
      if b.deposit > 0 && id !in deposits { return Failure(DepositRequired); }
      r := UpdateStatus(id, b.status, Confirmed);
    }

    method Start(pro: ProId, id: BookingId) returns (r: Result<Row, BookingError>)
      requires Valid()
      modifies this
      ensures Valid()
      ensures r == if id !in old(rows) then Failure(NotFound)
                   else if old(rows)[id].pro != pro then Failure(NotYours)
                   else if old(rows)[id].status != Confirmed then Failure(NotConfirmed)
                   else Success(old(rows)[id].(status := InProgress))
      ensures r.Success? ==> rows == old(rows)[id := r.value] && history == old(history) + [Event(id, InProgress)]
      ensures r.Failure? ==> Tables() == old(Tables())
      ensures id in old(rows) && old(rows)[id].pro == pro ==>
                Tables() == Effect(Code(padding), old(Tables()), Action.Start, id, true)
    {
      if id !in rows { return Failure(NotFound); }
      var b := rows[id];
      if b.pro != pro { return Failure(NotYours); }
      if b.status != Confirmed { return Failure(NotConfirmed); }
      r := UpdateStatus(id, b.status, InProgress);
    }

    method Complete(pro: ProId, id: BookingId) returns (r: Result<Row, BookingError>)
      requires Valid()
      modifies this
      ensures Valid()
      ensures r == if id !in old(rows) then Failure(NotFound)
                   else if old(rows)[id].pro != pro then Failure(NotYours)
                   else if old(rows)[id].status !in {InProgress, Confirmed} then Failure(NotActive)
                   else Success(old(rows)[id].(status := Completed))
      ensures r.Success? ==>
                && rows == old(rows)[id := r.value]
                && history == old(history) + [Event(id, Completed)]
                && counts == old(counts)[pro := (if pro in old(counts) then old(counts)[pro] else 0) + 1]
      ensures r.Failure? ==> Tables() == old(Tables())
      ensures id in old(rows) && old(rows)[id].pro == pro ==>
                Tables() == Effect(Code(padding), old(Tables()), Action.Complete, id, true)
    {
      if id !in rows { return Failure(NotFound); }
      var b := rows[id];
      if b.pro != pro { return Failure(NotYours); }
      if b.status != InProgress && b.status != Confirmed { return Failure(NotActive); }
      r := CompleteStatus(id, b.status, pro);
    }

    /** `caller` is the customer's id, `callerPro` the caller's professional profile if there is one. */
    method Cancel(caller: int, callerPro: Option<ProId>, id: BookingId) returns (r: Result<Row, BookingError>)
      requires Valid()
      modifies this
      ensures Valid()
      ensures r == if id !in old(rows) then Failure(NotFound)
                   else if old(rows)[id].customer != caller && callerPro != Some(old(rows)[id].pro) then Failure(NotYours)
                   else if old(rows)[id].status !in {Pending, Confirmed, InProgress} then Failure(CannotCancel)
                   else Success(old(rows)[id].(status := Cancelled))
      ensures r.Success? ==> rows == old(rows)[id := r.value] && history == old(history) + [Event(id, Cancelled)]
      ensures r.Failure? ==> Tables() == old(Tables())
      ensures id in old(rows) && (old(rows)[id].customer == caller || callerPro == Some(old(rows)[id].pro)) ==>
                Tables() == Effect(Code(padding), old(Tables()), Action.Cancel, id, true)
    {
      if id !in rows { return Failure(NotFound); }
      var b := rows[id];
      if b.customer != caller && callerPro != Some(b.pro) { return Failure(NotYours); }
      if b.status == Cancelled || b.status == Completed || b.status == NoShow { return Failure(CannotCancel); }
      r := UpdateStatus(id, b.status, Cancelled);
    }

    /** `acquired` is whether the cache granted the lock on the new start time. */
    method Reschedule(customer: int, id: BookingId, newStart: int, now: int,
                      weekly: seq<WeeklyWindow>, exceptions: seq<DayException>, zone: int, acquired: bool)
      returns (r: Result<Row, BookingError>)
      requires Valid()
      modifies this
      ensures Valid()
      ensures r == if id !in old(rows) then Failure(NotFound)
                   else if old(rows)[id].customer != customer then Failure(NotYours)
                   else if old(rows)[id].status !in {Pending, Confirmed} then Failure(CannotReschedule)
                   else if newStart < now - 300 then Failure(StartInPast)
                   else if !SlotFreeFor(old(rows), weekly, exceptions, zone,
                                        Moved(old(rows)[id], newStart, old(rows)[id]), padding, Some(id))
                     then Failure(SlotUnavailable)
                   else if !acquired then Failure(SlotJustBooked)
                   else Success(Moved(old(rows)[id], newStart, old(rows)[id]))
      ensures r.Success? ==> rows == old(rows)[id := r.value] && history == old(history) + [Event(id, r.value.status)]
      ensures r.Failure? ==> Tables() == old(Tables())
      ensures id in old(rows) && old(rows)[id].customer == customer && !StartPast(newStart, now) && acquired ==>
                Tables() == Effect(Code(padding), old(Tables()), Action.Reschedule(newStart), id,
                                   WindowFits(weekly, exceptions, zone, Moved(old(rows)[id], newStart, old(rows)[id]), padding))
    {
      if id !in rows { return Failure(NotFound); }
      var b := rows[id];
      RescheduleEffect(padding, Tables(), id, newStart, weekly, exceptions, zone);
      if b.customer != customer { return Failure(NotYours); }
      if b.status != Pending && b.status != Confirmed { return Failure(CannotReschedule); }
      if StartPast(newStart, now) { return Failure(StartInPast); }
      var end := newStart + WholeMinutes(b.end - b.start) * 60;
      var bounds := CheckBounds(newStart, end, b.home, padding);
      var ok := SlotAvailable(Calendar(weekly, exceptions, rows, b.pro, zone, padding), bounds.0, bounds.1, Some(id));
      if !ok { return Failure(SlotUnavailable); }
      if !acquired { return Failure(SlotJustBooked); }
      r := SetTimes(id, b, newStart);
    }

    /**
     Create from the slot check on: the lookups of service and professional are its inputs.
     `acquired` is whether the cache granted the lock on the start time.
     */
    method Create(req: Request, now: int, weekly: seq<WeeklyWindow>, exceptions: seq<DayException>,
                  zone: int, acquired: bool)
      returns (r: Result<Row, BookingError>)
      requires Valid()
      modifies this
      ensures Valid()
      ensures var row := Row(req.pro, req.customer, Pending, req.start, req.end, req.home, req.deposit, req.total);
        && r.Failure? == (req.start < now - 300 || !SlotFreeFor(old(rows), weekly, exceptions, zone, row, padding, None)
                          || !acquired || req.id in old(rows))
        && (r.Failure? ==> r.error == if req.start < now - 300 then StartInPast
                                      else if !SlotFreeFor(old(rows), weekly, exceptions, zone, row, padding, None) then SlotUnavailable
                                      else if !acquired then SlotJustBooked
                                      else DuplicateId)
        && (r.Success? ==>
              && r.value == row && rows == old(rows)[req.id := row]
              && history == old(history) + [Event(req.id, Pending)]
              && Tables() == Admit(old(Tables()), req))
      ensures r.Failure? ==> Tables() == old(Tables())
    {
      if StartPast(req.start, now) { return Failure(StartInPast); }
      var bounds := CheckBounds(req.start, req.end, req.home, padding);
      var ok := SlotAvailable(Calendar(weekly, exceptions, rows, req.pro, zone, padding), bounds.0, bounds.1, None);
      if !ok { return Failure(SlotUnavailable); }
      if !acquired { return Failure(SlotJustBooked); }
      r := CreateIfSlotFree(req, bounds.0, bounds.1);
    }
  }
}
