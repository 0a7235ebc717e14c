/** The bookings table: the columns the slot checks and the status changes read or write. */
module BookingRows {
  import opened Options

  type BookingId = int
  type ProId = int

  datatype Status = Pending | Confirmed | InProgress | Completed | Cancelled | NoShow

  /** Times are seconds, money is cents. */
  datatype Row = Row(pro: ProId, customer: int, status: Status, start: int, end: int,
                     home: bool, deposit: int, total: int)

  /** The statuses that occupy a slot. */
  predicate Active(r: Row) {
    r.status == Pending || r.status == Confirmed || r.status == InProgress
  }

  predicate Overlaps(r: Row, start: int, end: int) {
    r.start < end && r.end > start
  }

  /** The service's padding, in seconds. */
  datatype Padding = Padding(buffer: nat, travel: nat)

  /** `checkBounds`: travel before a home visit, the buffer after every booking. */
  function CheckBounds(start: int, end: int, home: bool, p: Padding): (int, int) {
    (if home then start - p.travel else start, end + p.buffer)
  }

  predicate Blocks(r: Row, pro: ProId, start: int, end: int) {
    r.pro == pro && Active(r) && Overlaps(r, start, end)
  }

  /** Whether `ListOverlapping` returns anything: an active booking of the professional meets the interval. */
  predicate HasOverlap(rows: map<BookingId, Row>, pro: ProId, start: int, end: int, exclude: Option<BookingId>) {
    exists id :: id in rows && Blocks(rows[id], pro, start, end) && exclude != Some(id)
  }

  // ----- what an overlap is -----

  predicate During(t: int, start: int, end: int) {
    start <= t < end
  }

  /** Two proper intervals overlap exactly when they have an instant in common: touching is no overlap. */
  lemma OverlapsIffCommonInstant(r: Row, start: int, end: int)
    requires r.start < r.end && start < end
    ensures Overlaps(r, start, end) <==> exists t :: During(t, r.start, r.end) && During(t, start, end)
  {
    if Overlaps(r, start, end) {
      var t := if r.start < start then start else r.start;
      assert During(t, r.start, r.end) && During(t, start, end);
    }
  }

  /** Intervals that do not overlap have no instant in common, proper or not. */
  lemma ApartMeansNoCommonInstant(r: Row, start: int, end: int, t: int)
    requires !Overlaps(r, start, end)
    ensures !(During(t, r.start, r.end) && During(t, start, end))
  {}

  /** The booking is one of the professional's that are not over, and holds the instant. */
  predicate HoldsAt(r: Row, pro: ProId, t: int) {
    r.pro == pro && r.status in {Pending, Confirmed, InProgress} && During(t, r.start, r.end)
  }

  /** An instant of the interval is held by another booking than the excluded one. */
  ghost predicate Occupied(rows: map<BookingId, Row>, pro: ProId, start: int, end: int, exclude: Option<BookingId>) {
    exists id, t :: id in rows && exclude != Some(id) && HoldsAt(rows[id], pro, t) && During(t, start, end)
  }

  ghost predicate ProperRows(rows: map<BookingId, Row>) {
    forall id :: id in rows ==> rows[id].start < rows[id].end
  }

  lemma HasOverlapIffOccupied(rows: map<BookingId, Row>, pro: ProId, start: int, end: int, exclude: Option<BookingId>)
    requires ProperRows(rows) && start < end
    ensures HasOverlap(rows, pro, start, end, exclude) <==> Occupied(rows, pro, start, end, exclude)
  {
    if id :| id in rows && Blocks(rows[id], pro, start, end) && exclude != Some(id) {
      OverlapsIffCommonInstant(rows[id], start, end);
      var t :| During(t, rows[id].start, rows[id].end) && During(t, start, end);
      assert HoldsAt(rows[id], pro, t);
    }
    if id, t :| id in rows && exclude != Some(id) && HoldsAt(rows[id], pro, t) && During(t, start, end) {
      OverlapsIffCommonInstant(rows[id], start, end);
      assert Blocks(rows[id], pro, start, end);
    }
  }
}
