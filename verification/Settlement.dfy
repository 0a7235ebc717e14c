/**
 Settlement of completed bookings: the fee split is exact to the cent, and however often
 settlement is attempted, and wherever the attempts crash, a booking is credited at most
 its total. A crash between the two credits is never made good.
 */
module Settlements {
  import opened Options
  import opened Ledger
  import opened Payments

  /** The fee is the whole number of cents nearest to the exact percentage, the higher of two. */
  lemma FeeIsNearestCentIff(total: nat, bps: nat, n: int)
    ensures n == RoundedShare(total, bps) <==> -10000 < 2 * (n * 10000 - total * bps) <= 10000
  {}

  /** For rates up to 100 percent the fee is part of the total. */
  lemma FeeWithinTotal(total: nat, bps: nat)
    requires bps <= 10000
    ensures 0 <= RoundedShare(total, bps) <= total
  {
    assert total * bps <= total * 10000;
  }

  // ----- what a booking was credited -----

  predicate ForBooking(e: Entry, booking: int) {
    e.reference == Earn(booking) || e.reference == Fee(booking)
  }

  function CreditedUpTo(entries: seq<Entry>, booking: int, k: nat): int
    requires k <= |entries|
  {
    if k == 0 then 0
    else CreditedUpTo(entries, booking, k - 1) + if ForBooking(entries[k - 1], booking) then entries[k - 1].amount else 0
  }

  function Credited(b: Book, booking: int): int {
    CreditedUpTo(b.entries, booking, |b.entries|)
  }

  lemma {:induction false} CreditedPrefix(entries: seq<Entry>, e: Entry, booking: int, k: nat)
    requires k <= |entries|
    ensures CreditedUpTo(entries + [e], booking, k) == CreditedUpTo(entries, booking, k)
  {
    if k > 0 { CreditedPrefix(entries, e, booking, k - 1); }
  }

  lemma CreditedPost(b: Book, p: Posting, booking: int)
    ensures Credited(Post(b, p), booking) == Credited(b, booking)
      + if Refusal(b, p).None? && (p.reference == Earn(booking) || p.reference == Fee(booking)) then p.amount else 0
  {
    if Refusal(b, p).None? {
      var e := Post(b, p).entries[|b.entries|];
      CreditedPrefix(b.entries, e, booking, |b.entries|);
    }
  }

  // ----- one attempt -----

  /** Rates up to 100 percent; the professional has an account. */
  predicate Normal(s: Settlement) {
    s.proUser != "" && s.bps <= 10000
  }

  /** What an attempt finds: nothing credited yet, only the earnings, or both. */
  ghost predicate Unsettled(b: Book, booking: int) {
    !Exists(b, Earn(booking)) && !Exists(b, Fee(booking)) && Credited(b, booking) == 0
  }

  /** Only the professional's part, out of this total. */
  ghost predicate HalfSettled(b: Book, booking: int, total: int) {
    Exists(b, Earn(booking)) && !Exists(b, Fee(booking)) && 0 < Credited(b, booking) <= total
  }

  ghost predicate FullySettled(b: Book, booking: int, total: int) {
    Exists(b, Earn(booking)) && Exists(b, Fee(booking)) && Credited(b, booking) == total
  }

  /** An attempt that returns without error credited exactly the total, in the exact split. */
  lemma SettleConserves(b: Book, s: Settlement)
    requires s.total > 0 && Normal(s) && Unsettled(b, s.booking) && SettleError(b, s).None?
    ensures FullySettled(SettleBook(b, s), s.booking, s.total)
    ensures EarningsOf(s) + FeeOf(s) == s.total && EarningsOf(s) > 0 && FeeOf(s) > 0
  {
    EarnStep(b, s);
    FeeStep(Post(b, EarnPosting(s)), s);
    PostExists(Post(b, EarnPosting(s)), FeePosting(s), Fee(s.booking));
  }

  /**
   An attempt succeeds exactly when there is nothing to settle, or the professional has an account,
   nothing of the booking is credited yet, and both parts are at least a cent.
   */
  lemma SettleSucceedsIff(b: Book, s: Settlement)
    ensures SettleError(b, s).None? <==>
      s.total <= 0 || (s.proUser != "" && !Exists(b, Earn(s.booking)) && !Exists(b, Fee(s.booking))
                       && 0 < FeeOf(s) < s.total)
  {
    if s.total > 0 { PostExists(b, EarnPosting(s), Fee(s.booking)); }
  }

  // ----- any number of attempts, interleaved -----

  /** The ledger, and the attempts that have credited the earnings but not yet tried the fee. */
  datatype SettleState = SettleState(book: Book, between: map<int, Settlement>)

  /** One statement of an attempt at settling the booking, a crash, or someone else's posting. */
  datatype SettleOp =
    | CreditEarnings(attempt: int, proUser: string, currency: string, bps: nat)
    | CreditFee(attempt: int)
    | Crash(attempt: int)
    | Other(p: Posting)

  predicate Foreign(p: Posting, booking: int) {
    p.reference != Earn(booking) && p.reference != Fee(booking)
  }

  predicate Relevant(op: SettleOp, booking: int) {
    match op
    case CreditEarnings(_, proUser, _, bps) => proUser != "" && bps <= 10000
    case Other(p) => Foreign(p, booking)
    case _ => true
  }

  function SettleApply(st: SettleState, op: SettleOp, booking: int, total: int): SettleState
    requires total > 0
  {
    match op
    case CreditEarnings(a, proUser, currency, bps) =>
      var p := EarnPosting(Settlement(booking, total, proUser, currency, bps));
      if a in st.between || Refusal(st.book, p).Some? then st
      else SettleState(Post(st.book, p), st.between[a := Settlement(booking, total, proUser, currency, bps)])
    case CreditFee(a) =>
      if a !in st.between || st.between[a].total <= 0 then st
      else SettleState(Post(st.book, FeePosting(st.between[a])), st.between - {a})
    case Crash(a) => st.(between := st.between - {a})
    case Other(p) => st.(book := Post(st.book, p))
  }

  function SettleRun(b: Book, ops: seq<SettleOp>, booking: int, total: int, k: nat): SettleState
    requires k <= |ops| && total > 0
  {
    if k == 0 then SettleState(b, map[])
    else SettleApply(SettleRun(b, ops, booking, total, k - 1), ops[k - 1], booking, total)
  }

  /** An attempt with nobody in between is `SettleBooking`. */
  lemma AloneIsSettleBooking(st: SettleState, a: int, s: Settlement)
    requires a !in st.between && s.total > 0
    ensures var credited := SettleApply(st, CreditEarnings(a, s.proUser, s.currency, s.bps), s.booking, s.total);
      SettleApply(credited, CreditFee(a), s.booking, s.total).book == SettleBook(st.book, s)
  {
    assert s == Settlement(s.booking, s.total, s.proUser, s.currency, s.bps);
  }

  /** A crash between the credits: the earnings are in, the fee is not, and nobody will credit it. */
  lemma CrashLosesFee(b: Book, a: int, s: Settlement)
    requires s.total > 0 && Normal(s) && Unsettled(b, s.booking) && 0 < FeeOf(s) < s.total
    ensures var start := SettleApply(SettleState(b, map[]), CreditEarnings(a, s.proUser, s.currency, s.bps), s.booking, s.total);
      var now := SettleApply(SettleApply(start, Crash(a), s.booking, s.total), CreditFee(a), s.booking, s.total);
      && now.between == map[] && HalfSettled(now.book, s.booking, s.total)
      && Credited(now.book, s.booking) == s.total - FeeOf(s)
  {
    assert s == Settlement(s.booking, s.total, s.proUser, s.currency, s.bps);
    EarnStep(b, s);
    assert (map[a := s] - {a}) == map[];
  }

  lemma ForeignStep(b: Book, p: Posting, booking: int)
    requires Foreign(p, booking)
    ensures Exists(Post(b, p), Earn(booking)) <==> Exists(b, Earn(booking))
    ensures Exists(Post(b, p), Fee(booking)) <==> Exists(b, Fee(booking))
    ensures Credited(Post(b, p), booking) == Credited(b, booking)
  {
    PostExists(b, p, Earn(booking));
    PostExists(b, p, Fee(booking));
    CreditedPost(b, p, booking);
  }

  /** An attempt between its credits is alone, and what was credited is its professional's part. */
  ghost predicate SettleInv(st: SettleState, booking: int, total: int) {
    && (|| (Unsettled(st.book, booking) && st.between == map[])
        || HalfSettled(st.book, booking, total)
        || (FullySettled(st.book, booking, total) && st.between == map[]))
    && (forall a :: a in st.between ==>
          && st.between[a].booking == booking && st.between[a].total == total && Normal(st.between[a])
          && st.between.Keys == {a} && Credited(st.book, booking) == EarningsOf(st.between[a]))
  }

  lemma EarnStep(b: Book, s: Settlement)
    requires s.total > 0 && Normal(s) && Refusal(b, EarnPosting(s)).None?
    ensures !Exists(b, Earn(s.booking))
    ensures Unsettled(b, s.booking) ==>
      HalfSettled(Post(b, EarnPosting(s)), s.booking, s.total)
      && Credited(Post(b, EarnPosting(s)), s.booking) == EarningsOf(s)
  {
    FeeWithinTotal(s.total, s.bps);
    PostExists(b, EarnPosting(s), Earn(s.booking));
    PostExists(b, EarnPosting(s), Fee(s.booking));
    CreditedPost(b, EarnPosting(s), s.booking);
  }

  lemma FeeStep(b: Book, s: Settlement)
    requires s.total > 0 && Normal(s) && HalfSettled(b, s.booking, s.total)
    requires Credited(b, s.booking) == EarningsOf(s)
    ensures var b' := Post(b, FeePosting(s));
            HalfSettled(b', s.booking, s.total) || FullySettled(b', s.booking, s.total)
  {
    PostExists(b, FeePosting(s), Earn(s.booking));
    PostExists(b, FeePosting(s), Fee(s.booking));
    CreditedPost(b, FeePosting(s), s.booking);
  }

  lemma SettleApplyInv(st: SettleState, op: SettleOp, booking: int, total: int)
    requires total > 0 && Relevant(op, booking) && SettleInv(st, booking, total)
    ensures SettleInv(SettleApply(st, op, booking, total), booking, total)
  {
    match op
    case CreditEarnings(a, proUser, currency, bps) =>
      var s := Settlement(booking, total, proUser, currency, bps);
      if a !in st.between && Refusal(st.book, EarnPosting(s)).None? { EarnStep(st.book, s); }
    case CreditFee(a) =>
      if a in st.between {
        FeeStep(st.book, st.between[a]);
        assert st.between - {a} == map[];
      }
    case Crash(a) =>
      if a in st.between { assert st.between - {a} == map[]; } else { assert st.between - {a} == st.between; }
    case Other(p) => ForeignStep(st.book, p, booking);
  }

  lemma {:induction false} SettleRunInv(b: Book, ops: seq<SettleOp>, booking: int, total: int, k: nat)
    requires k <= |ops| && total > 0 && Unsettled(b, booking)
    requires forall op :: op in ops ==> Relevant(op, booking)
    ensures SettleInv(SettleRun(b, ops, booking, total, k), booking, total)
  {
    if k > 0 {
      SettleRunInv(b, ops, booking, total, k - 1);
      assert Relevant(ops[k - 1], booking);
      SettleApplyInv(SettleRun(b, ops, booking, total, k - 1), ops[k - 1], booking, total);
    }
  }

  /** The amount is the professional's part at the rate of this attempt. */
  predicate IsEarningsOf(op: SettleOp, total: nat, amount: int) {
    op.CreditEarnings? && op.bps <= 10000 && amount == total - RoundedShare(total, op.bps)
  }

  /** One of the first k steps is an attempt whose earnings are what the booking was credited. */
  predicate CreditedByAttempt(ops: seq<SettleOp>, k: nat, total: nat, credited: int)
    requires k <= |ops|
  {
    exists j :: 0 <= j < k && IsEarningsOf(ops[j], total, credited)
  }

  /** Only crediting the earnings makes a booking half settled. */
  lemma OtherStepsKeepHalf(st: SettleState, op: SettleOp, booking: int, total: int)
    requires total > 0 && Relevant(op, booking) && SettleInv(st, booking, total)
    requires op.CreditEarnings? ==> SettleApply(st, op, booking, total).book == st.book
    requires HalfSettled(SettleApply(st, op, booking, total).book, booking, total)
    ensures HalfSettled(st.book, booking, total)
    ensures Credited(SettleApply(st, op, booking, total).book, booking) == Credited(st.book, booking)
  {
    match op
    case CreditFee(a) => if a in st.between { PostExists(st.book, FeePosting(st.between[a]), Fee(booking)); }
    case Other(p) => ForeignStep(st.book, p, booking);
    case _ =>
  }

  lemma {:induction false} HalfIsEarnings(b: Book, ops: seq<SettleOp>, booking: int, total: int, k: nat)
    requires k <= |ops| && total > 0 && Unsettled(b, booking)
    requires forall op :: op in ops ==> Relevant(op, booking)
    requires HalfSettled(SettleRun(b, ops, booking, total, k).book, booking, total)
    ensures CreditedByAttempt(ops, k, total, Credited(SettleRun(b, ops, booking, total, k).book, booking))
  {
    if k > 0 {
      var st, op := SettleRun(b, ops, booking, total, k - 1), ops[k - 1];
      SettleRunInv(b, ops, booking, total, k - 1);
      assert Relevant(op, booking);
      if op.CreditEarnings? && st.book != SettleApply(st, op, booking, total).book {
        EarnStep(st.book, Settlement(booking, total, op.proUser, op.currency, op.bps));
        assert IsEarningsOf(ops[k - 1], total, Credited(SettleRun(b, ops, booking, total, k).book, booking));
      } else {
        OtherStepsKeepHalf(st, op, booking, total);
        HalfIsEarnings(b, ops, booking, total, k - 1);
      }
    }
  }

  /**
   However attempts interleave, repeat and crash, a booking is credited nothing, the earnings of one
   of the attempts, or its total.
   */
  lemma NeverOverpaid(b: Book, ops: seq<SettleOp>, booking: int, total: int, k: nat)
    requires k <= |ops| && total > 0 && Unsettled(b, booking)
    requires forall op :: op in ops ==> Relevant(op, booking)
    ensures var b' := SettleRun(b, ops, booking, total, k).book;
      || Unsettled(b', booking)
      || (HalfSettled(b', booking, total) && CreditedByAttempt(ops, k, total, Credited(b', booking)))
      || FullySettled(b', booking, total)
  {
    SettleRunInv(b, ops, booking, total, k);
    if HalfSettled(SettleRun(b, ops, booking, total, k).book, booking, total) {
      HalfIsEarnings(b, ops, booking, total, k);
    }
  }

  /** The entry is the professional's or the platform's part of the total at the attempt's rate. */
  predicate IsPartOf(e: Entry, op: SettleOp, booking: int, total: nat) {
    && op.CreditEarnings? && e.direction == Credit
    && e.account.currency == (if op.currency == "" then "NGN" else op.currency)
    && (e.reference == Earn(booking) ==>
          e.account.user == op.proUser && e.category == CatEarning && e.amount == total - RoundedShare(total, op.bps))
    && (e.reference == Fee(booking) ==>
          && e.account.user == "00000000-0000-0000-0000-000000000000"
          && e.category == CatPlatformFee && e.amount == RoundedShare(total, op.bps))
  }

  predicate PartOfSome(e: Entry, ops: seq<SettleOp>, k: nat, booking: int, total: nat)
    requires k <= |ops|
  {
    exists j :: 0 <= j < k && IsPartOf(e, ops[j], booking, total)
  }

  predicate FromAttempt(s: Settlement, op: SettleOp, booking: int, total: int) {
    op.CreditEarnings? && s == Settlement(booking, total, op.proUser, op.currency, op.bps)
  }

  /** An attempt between its credits carries what it began with. */
  lemma {:induction false} BetweenFromAttempt(b: Book, ops: seq<SettleOp>, booking: int, total: int, k: nat, a: int)
    returns (j: nat)
    requires k <= |ops| && total > 0 && a in SettleRun(b, ops, booking, total, k).between
    ensures j < k && FromAttempt(SettleRun(b, ops, booking, total, k).between[a], ops[j], booking, total)
  {
    var st := SettleRun(b, ops, booking, total, k - 1);
    if a in st.between && SettleRun(b, ops, booking, total, k).between[a] == st.between[a] {
      j := BetweenFromAttempt(b, ops, booking, total, k - 1, a);
    } else {
      j := k - 1;
    }
  }

  /**
   In every run each of the booking's entries is the share of the right account: the earnings the
   professional's, the fee the platform's, both at the rate of an attempt of the run.
   */
  lemma {:induction false} PartsGoToTheirOwners(b: Book, ops: seq<SettleOp>, booking: int, total: int, k: nat, i: nat)
    requires k <= |ops| && total > 0 && Unsettled(b, booking)
    requires forall op :: op in ops ==> Relevant(op, booking)
    requires var b' := SettleRun(b, ops, booking, total, k).book; i < |b'.entries| && ForBooking(b'.entries[i], booking)
    ensures PartOfSome(SettleRun(b, ops, booking, total, k).book.entries[i], ops, k, booking, total)
  {
    if k > 0 {
      var st, op := SettleRun(b, ops, booking, total, k - 1), ops[k - 1];
      if i < |st.book.entries| {
        PartsGoToTheirOwners(b, ops, booking, total, k - 1, i);
        var j :| 0 <= j < k - 1 && IsPartOf(st.book.entries[i], ops[j], booking, total);
        assert IsPartOf(SettleRun(b, ops, booking, total, k).book.entries[i], ops[j], booking, total);
      } else {
        assert Relevant(op, booking);
        if op.CreditFee? {
          var j := BetweenFromAttempt(b, ops, booking, total, k - 1, op.attempt);
          assert IsPartOf(SettleRun(b, ops, booking, total, k).book.entries[i], ops[j], booking, total);
        } else {
          assert IsPartOf(SettleRun(b, ops, booking, total, k).book.entries[i], ops[k - 1], booking, total);
        }
      }
    }
  }

  /** After a crash between the credits the fee is lost for good: no later attempt resumes. */
  lemma {:induction false} SettlementNeverResumes(b: Book, ops: seq<SettleOp>, booking: int, total: int, k: nat)
    requires k <= |ops| && total > 0 && Exists(b, Earn(booking))
    requires forall op :: op in ops ==> Relevant(op, booking)
    ensures var st := SettleRun(b, ops, booking, total, k);
      && st.between == map[]
      && Exists(st.book, Earn(booking))
      && (Exists(st.book, Fee(booking)) <==> Exists(b, Fee(booking)))
      && Credited(st.book, booking) == Credited(b, booking)
  {
    if k > 0 {
      SettlementNeverResumes(b, ops, booking, total, k - 1);
      var st := SettleRun(b, ops, booking, total, k - 1);
      assert Relevant(ops[k - 1], booking);
      match ops[k - 1]
      case CreditEarnings(a, proUser, currency, bps) =>
        var s := Settlement(booking, total, proUser, currency, bps);
        if Refusal(st.book, EarnPosting(s)).None? { EarnStep(st.book, s); }
      case CreditFee(_) =>
      case Crash(a) => assert st.between - {a} == map[];
      case Other(p) => ForeignStep(st.book, p, booking);
    }
  }
}
