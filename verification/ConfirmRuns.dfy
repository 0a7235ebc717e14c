/**
 Every interleaving of `confirmPayment` threads on one payment intent, with crashes, retries,
 other ledger traffic and gateway declines (internal/payments/service.go). A thread is two
 guarded postings, each a read of the ledger followed by a separate transaction, then a mark.
 */
module ConfirmRuns {
  import opened Options
  import opened Ledger
  import opened Payments

  /** Where a thread stands; the booleans are what it read. */
  datatype Phase =
    | SeenReceipt(credited: bool)
    | HasReceipt
    | SeenCharge(charged: bool)
    | HasCharge
    | Short
    | Returned(ok: bool)

  datatype State = State(book: Book, status: IntentStatus, phases: map<int, Phase>)

  /**
   Begin and Advance are a thread's own statements. Decline is `MarkIntentFailed` after a gateway's
   refusal; its status test is an earlier statement, so it may come at any time. Other is any
   posting with a reference of its own.
   */
  datatype Op = Begin(thread: int) | Advance(thread: int) | Crash(thread: int) | Decline | Other(p: Posting)

  function NextBook(b: Book, i: Intent, ph: Phase): Book {
    if ph == SeenReceipt(false) then Post(b, ReceiptPosting(i))
    else if ph == SeenCharge(false) then Post(b, ChargePosting(i))
    else b
  }

  function NextPhase(b: Book, i: Intent, ph: Phase): Phase {
    match ph
    case SeenReceipt(credited) =>
      if credited || Refusal(b, ReceiptPosting(i)).None? then HasReceipt else Returned(false)
    case HasReceipt => SeenCharge(Exists(b, Charge(i.id)))
    case SeenCharge(charged) =>
      if charged || Refusal(b, ChargePosting(i)).None? then HasCharge
      else if Refusal(b, ChargePosting(i)) == Some(InsufficientBalance) then Phase.Short
      else Returned(false)
    case HasCharge => Returned(true)
    case Short => Returned(false)
    case Returned(_) => ph
  }

  function NextStatus(s: IntentStatus, ph: Phase): IntentStatus {
    if ph == HasCharge then Succeeded else if ph == Phase.Short then Failed else s
  }

  function Apply(st: State, i: Intent, op: Op): State {
    match op
    case Begin(t) =>
      if t in st.phases then st
      else st.(phases := st.phases[t := SeenReceipt(Exists(st.book, Receipt(i.id)))])
    case Advance(t) =>
      if t !in st.phases then st
      else State(NextBook(st.book, i, st.phases[t]), NextStatus(st.status, st.phases[t]),
                 st.phases[t := NextPhase(st.book, i, st.phases[t])])
    case Crash(t) => st.(phases := st.phases - {t})
    case Decline => st.(status := Failed)
    case Other(p) => st.(book := Post(st.book, p))
  }

  function Run(st: State, i: Intent, ops: seq<Op>, k: nat): State
    requires k <= |ops|
  {
    if k == 0 then st else Apply(Run(st, i, ops, k - 1), i, ops[k - 1])
  }

  /** Ledger references of an intent are used for that intent only. */
  predicate Foreign(op: Op, i: Intent) {
    op.Other? ==> op.p.reference != Receipt(i.id) && op.p.reference != Charge(i.id)
  }

  /** Nothing else takes money out of the wallet the payment passes through. */
  predicate Undisturbed(op: Op, i: Intent) {
    Foreign(op, i) && (op.Other? && op.p.direction == Debit ==> AccountOf(op.p) != WalletOf(i))
  }

  // ----- what holds in every reachable state -----

  /** The customer's wallet in the intent's currency, naira if it names none. */
  predicate InCustomersWallet(e: Entry, i: Intent) {
    e.account.user == i.customer && e.account.currency == if i.currency == "" then "NGN" else i.currency
  }

  predicate IsReceipt(e: Entry, i: Intent) {
    InCustomersWallet(e, i) && e.direction == Credit && e.amount == i.amount && e.category == CatAdjustment
  }

  /** The charge carries the category of the part of the price it pays. */
  predicate IsCharge(e: Entry, i: Intent) {
    && InCustomersWallet(e, i) && e.direction == Debit && e.amount == i.amount
    && (i.amountType == DepositPart ==> e.category == CatDeposit)
    && (i.amountType == BalancePart ==> e.category == CatBalance)
    && (i.amountType == FullPart ==> e.category == CatFull)
  }

  predicate ExistsBefore(b: Book, r: Reference, k: int) {
    exists j :: 0 <= j < k <= |b.entries| && b.entries[j].reference == r
  }

  /** At most one receipt and at most one charge, of the intent's amount, the charge after the receipt. */
  ghost predicate PaidInOrder(b: Book, i: Intent) {
    && (forall j, k :: 0 <= j < k < |b.entries| ==> b.entries[j].reference != b.entries[k].reference)
    && (forall j :: 0 <= j < |b.entries| && b.entries[j].reference == Receipt(i.id) ==> IsReceipt(b.entries[j], i))
    && (forall j :: 0 <= j < |b.entries| && b.entries[j].reference == Charge(i.id) ==>
          IsCharge(b.entries[j], i) && ExistsBefore(b, Receipt(i.id), j))
  }

  predicate Settled(b: Book, i: Intent) {
    Exists(b, Receipt(i.id)) && Exists(b, Charge(i.id))
  }

  predicate PhaseOk(b: Book, i: Intent, ph: Phase) {
    match ph
    case SeenReceipt(credited) => credited ==> Exists(b, Receipt(i.id))
    case HasReceipt => Exists(b, Receipt(i.id))
    case SeenCharge(charged) => Exists(b, Receipt(i.id)) && (charged ==> Exists(b, Charge(i.id)))
    case HasCharge => Settled(b, i)
    case Short => Exists(b, Receipt(i.id))
    case Returned(ok) => ok ==> Settled(b, i)
  }

  ghost predicate Inv(st: State, i: Intent) {
    && Sound(st.book)
    && PaidInOrder(st.book, i)
    && (st.status == Succeeded ==> Settled(st.book, i))
    && (forall t :: t in st.phases ==> PhaseOk(st.book, i, st.phases[t]))
  }

  /** A ledger without entries for the intent, no thread, and an intent not yet paid. */
  ghost predicate Initial(st: State, i: Intent) {
    && Sound(st.book) && Payable(i)
    && !Exists(st.book, Receipt(i.id)) && !Exists(st.book, Charge(i.id))
    && st.status != Succeeded && st.phases == map[]
  }

  /** A posting in the right place of the protocol keeps the entries in order. */
  lemma PostInOrder(b: Book, i: Intent, p: Posting)
    requires Sound(b) && PaidInOrder(b, i)
    requires p.reference == Receipt(i.id) ==> p == ReceiptPosting(i)
    requires p.reference == Charge(i.id) ==> p == ChargePosting(i) && Exists(b, Receipt(i.id))
    ensures PaidInOrder(Post(b, p), i)
  {
    PostSound(b, p);
    var b' := Post(b, p);
    if Refusal(b, p).None? {
      forall j | 0 <= j < |b'.entries| && b'.entries[j].reference == Charge(i.id)
        ensures IsCharge(b'.entries[j], i) && ExistsBefore(b', Receipt(i.id), j)
      {
        if j < |b.entries| {
          assert b.entries[j] == b'.entries[j];
          assert ExistsBefore(b, Receipt(i.id), j);
          var m :| 0 <= m < j && b.entries[m].reference == Receipt(i.id);
          assert b'.entries[m] == b.entries[m];
        } else {
          var m :| 0 <= m < |b.entries| && b.entries[m].reference == Receipt(i.id);
          assert b'.entries[m] == b.entries[m];
        }
      }
    }
  }

  lemma PhaseStable(b: Book, i: Intent, p: Posting, ph: Phase)
    requires PhaseOk(b, i, ph)
    ensures PhaseOk(Post(b, p), i, ph)
  {
    PostExists(b, p, Receipt(i.id));
    PostExists(b, p, Charge(i.id));
  }

  /** Any posting allowed by the protocol keeps everything but the phases that move. */
  lemma PostInv(st: State, i: Intent, p: Posting)
    requires Inv(st, i)
    requires p.reference == Receipt(i.id) ==> p == ReceiptPosting(i)
    requires p.reference == Charge(i.id) ==> p == ChargePosting(i) && Exists(st.book, Receipt(i.id))
    ensures Inv(st.(book := Post(st.book, p)), i)
  {
    PostSound(st.book, p);
    PostInOrder(st.book, i, p);
    PostExists(st.book, p, Receipt(i.id));
    PostExists(st.book, p, Charge(i.id));
    forall t | t in st.phases ensures PhaseOk(Post(st.book, p), i, st.phases[t]) {
      PhaseStable(st.book, i, p, st.phases[t]);
    }
  }

  /** Where a thread gets to is justified by the ledger it leaves behind. */
  lemma AdvanceOk(b: Book, i: Intent, ph: Phase)
    requires PhaseOk(b, i, ph)
    ensures PhaseOk(NextBook(b, i, ph), i, NextPhase(b, i, ph))
  {
    PostExists(b, ReceiptPosting(i), Receipt(i.id));
    PostExists(b, ChargePosting(i), Receipt(i.id));
    PostExists(b, ChargePosting(i), Charge(i.id));
  }

  lemma ApplyInv(st: State, i: Intent, op: Op)
    requires Inv(st, i) && Foreign(op, i)
    ensures Inv(Apply(st, i, op), i)
  {
    match op
    case Advance(t) =>
      if t in st.phases {
        var ph := st.phases[t];
        AdvanceOk(st.book, i, ph);
        if ph == SeenReceipt(false) { PostInv(st, i, ReceiptPosting(i)); }
        if ph == SeenCharge(false) { PostInv(st, i, ChargePosting(i)); }
      }
    case Other(p) => PostInv(st, i, p);
    case _ =>
  }

  lemma {:induction false} RunInv(st: State, i: Intent, ops: seq<Op>, k: nat)
    requires k <= |ops| && Initial(st, i) && forall op :: op in ops ==> Foreign(op, i)
    ensures Inv(Run(st, i, ops, k), i)
  {
    if k == 0 {
      forall j | 0 <= j < |st.book.entries|
        ensures st.book.entries[j].reference != Receipt(i.id) && st.book.entries[j].reference != Charge(i.id)
      {}
    } else {
      RunInv(st, i, ops, k - 1);
      ApplyInv(Run(st, i, ops, k - 1), i, ops[k - 1]);
    }
  }

  /** Any mix of concurrent, crashed and repeated confirmations pays the intent at most once, in order. */
  lemma ConfirmedAtMostOnce(st: State, i: Intent, ops: seq<Op>, k: nat)
    requires k <= |ops| && Initial(st, i) && forall op :: op in ops ==> Foreign(op, i)
    ensures var now := Run(st, i, ops, k);
      && PaidInOrder(now.book, i)
      && (now.status == Succeeded ==> Settled(now.book, i))
      && (forall t :: t in now.phases && now.phases[t] == Returned(true) ==> Settled(now.book, i))
  {
    RunInv(st, i, ops, k);
  }

  // ----- when nothing else debits the wallet -----

  lemma NeverShortStep(st: State, i: Intent, op: Op)
    requires Payable(i) && Inv(st, i) && Undisturbed(op, i) && !Payments.Short(st.book, i)
    ensures !Payments.Short(Apply(st, i, op).book, i)
  {
    var b := st.book;
    assert Balance(b, WalletOf(i)) >= 0;
    match op
    case Advance(t) =>
      if t in st.phases && st.phases[t] == SeenReceipt(false) {
        PostExists(b, ReceiptPosting(i), Receipt(i.id));
        PostExists(b, ReceiptPosting(i), Charge(i.id));
      }
      if t in st.phases && st.phases[t] == SeenCharge(false) {
        PostExists(b, ChargePosting(i), Charge(i.id));
        PostExists(b, ChargePosting(i), Receipt(i.id));
      }
    case Other(p) =>
      PostExists(b, p, Receipt(i.id));
      PostExists(b, p, Charge(i.id));
    case _ =>
  }

  lemma {:induction false} NeverShort(st: State, i: Intent, ops: seq<Op>, k: nat)
    requires k <= |ops| && Initial(st, i) && forall op :: op in ops ==> Undisturbed(op, i)
    ensures Inv(Run(st, i, ops, k), i) && !Payments.Short(Run(st, i, ops, k).book, i)
  {
    if k == 0 {
      RunInv(st, i, ops, 0);
    } else {
      NeverShort(st, i, ops, k - 1);
      assert Undisturbed(ops[k - 1], i);
      ApplyInv(Run(st, i, ops, k - 1), i, ops[k - 1]);
      NeverShortStep(Run(st, i, ops, k - 1), i, ops[k - 1]);
    }
  }

  /**
   From wherever a run stopped, one undisturbed confirmation succeeds and leaves exactly one
   receipt and one charge.
   */
  lemma RetrySucceeds(st: State, i: Intent, ops: seq<Op>, k: nat)
    requires k <= |ops| && Initial(st, i) && forall op :: op in ops ==> Undisturbed(op, i)
    ensures var now := Run(st, i, ops, k);
      && ConfirmError(now.book, i).None?
      && ConfirmStatus(now.book, i, now.status) == Succeeded
      && PaidInOrder(ConfirmBook(now.book, i), i)
      && Settled(ConfirmBook(now.book, i), i)
  {
    NeverShort(st, i, ops, k);
    var b := Run(st, i, ops, k).book;
    ConfirmSucceedsIff(b, i);
    PostInOrder(b, i, ReceiptPosting(i));
    PostSound(b, ReceiptPosting(i));
    PostExists(b, ReceiptPosting(i), Receipt(i.id));
    PostInOrder(AfterReceipt(b, i), i, ChargePosting(i));
  }

  // ----- a thread alone -----

  /** A thread that begins and takes its four steps with nobody else in between. */
  function Alone(st: State, i: Intent, t: int): State {
    var a := Advance(t);
    Apply(Apply(Apply(Apply(Apply(st, i, Begin(t)), i, a), i, a), i, a), i, a)
  }

  lemma AfterFirstHalf(st: State, i: Intent, t: int)
    requires t !in st.phases
    ensures Apply(Apply(st, i, Begin(t)), i, Advance(t)) ==
      if ReceiptError(st.book, i).None? then State(AfterReceipt(st.book, i), st.status, st.phases[t := HasReceipt])
      else st.(phases := st.phases[t := Returned(false)])
  {}

  lemma AfterSecondHalf(st: State, i: Intent, t: int)
    requires t in st.phases && st.phases[t] == HasReceipt
    ensures Apply(Apply(Apply(st, i, Advance(t)), i, Advance(t)), i, Advance(t)) ==
      match ChargeError(st.book, i)
      case None => State(AfterCharge(st.book, i), Succeeded, st.phases[t := Returned(true)])
      case Some(e) =>
        State(st.book, if e == InsufficientBalance then Failed else st.status, st.phases[t := Returned(false)])
  {}

  /** Run alone, the steps do to ledger and status, and return, what the sequential code does. */
  lemma AloneIsConfirmPayment(st: State, i: Intent, t: int)
    requires t !in st.phases
    ensures Alone(st, i, t) == State(ConfirmBook(st.book, i), ConfirmStatus(st.book, i, st.status),
                                     st.phases[t := Returned(ConfirmError(st.book, i).None?)])
  {
    AfterFirstHalf(st, i, t);
    if ReceiptError(st.book, i).None? {
      AfterSecondHalf(Apply(Apply(st, i, Begin(t)), i, Advance(t)), i, t);
    }
  }

  /** A crash after the receipt leaves the payment received, uncharged and in nobody's hands. */
  lemma CrashAfterReceipt(st: State, i: Intent, t: int)
    requires Initial(st, i)
    ensures var now := Apply(Apply(Apply(st, i, Begin(t)), i, Advance(t)), i, Crash(t));
      && now == State(Post(st.book, ReceiptPosting(i)), st.status, map[])
      && Exists(now.book, Receipt(i.id)) && !Exists(now.book, Charge(i.id))
  {
    PostExists(st.book, ReceiptPosting(i), Receipt(i.id));
    PostExists(st.book, ReceiptPosting(i), Charge(i.id));
    assert (st.phases[t := HasReceipt] - {t}) == map[];
  }

  /** A decline that was decided before the payment went through overwrites the status: there is no guard. */
  lemma LateDeclineOverwrites(st: State, i: Intent, t: int)
    requires Initial(st, i)
    ensures var paid := Alone(st, i, t);
      && Settled(paid.book, i) && paid.status == Succeeded
      && Apply(paid, i, Decline) == paid.(status := Failed)
  {
    AloneIsConfirmPayment(st, i, t);
    ConfirmSucceedsIff(st.book, i);
  }

  // ----- the confirmation that reports failure although the payment is complete -----

  /**
   A thread about to charge is told the wallet is short exactly when another thread has charged in
   between and the rest of the wallet does not cover the amount: the balance is tested before the
   reference.
   */
  lemma RefusedIffRaced(st: State, i: Intent, ops: seq<Op>, k: nat, t: int)
    requires k <= |ops| && Initial(st, i) && forall op :: op in ops ==> Undisturbed(op, i)
    requires var now := Run(st, i, ops, k); t in now.phases && now.phases[t] == SeenCharge(false)
    ensures var now := Run(st, i, ops, k);
      NextPhase(now.book, i, now.phases[t]) == Phase.Short <==>
        Exists(now.book, Charge(i.id)) && Balance(now.book, WalletOf(i)) < i.amount
  {
    NeverShort(st, i, ops, k);
    var now := Run(st, i, ops, k);
    assert PhaseOk(now.book, i, now.phases[t]);
  }

  lemma RunNext(st: State, i: Intent, ops: seq<Op>, k: nat, now: State)
    requires k < |ops| && Run(st, i, ops, k) == now
    ensures Run(st, i, ops, k + 1) == Apply(now, i, ops[k])
  {}

  /** Two webhook deliveries at once. */
  const RACE := [Begin(1), Advance(1), Advance(1), Begin(2), Advance(2), Advance(2),
                 Advance(1), Advance(1), Advance(2), Advance(2)]

  lemma FirstReads(st: State, i: Intent, paid: Book)
    requires st.phases == map[] && !Exists(st.book, Receipt(i.id))
    requires Refusal(st.book, ReceiptPosting(i)).None? && paid == Post(st.book, ReceiptPosting(i))
    requires !Exists(paid, Charge(i.id))
    ensures Run(st, i, RACE, 3) == State(paid, st.status, map[1 := SeenCharge(false)])
  {
    RunNext(st, i, RACE, 0, st);
    RunNext(st, i, RACE, 1, State(st.book, st.status, map[1 := SeenReceipt(false)]));
    RunNext(st, i, RACE, 2, State(paid, st.status, map[1 := HasReceipt]));
  }

  /** One thread's move, with the others where they are. */
  lemma RunAdvance(st: State, i: Intent, ops: seq<Op>, k: nat, now: State, t: int, ph: Phase)
    requires k < |ops| && Run(st, i, ops, k) == now && ops[k] == Advance(t)
    requires t in now.phases && NextPhase(now.book, i, now.phases[t]) == ph
    ensures Run(st, i, ops, k + 1) == State(NextBook(now.book, i, now.phases[t]), NextStatus(now.status, now.phases[t]),
                                            now.phases[t := ph])
  {}

  /** Both threads come to read that there is no charge yet. */
  lemma RaceBegins(st: State, i: Intent, paid: Book)
    requires Run(st, i, RACE, 3) == State(paid, st.status, map[1 := SeenCharge(false)])
    requires Exists(paid, Receipt(i.id)) && !Exists(paid, Charge(i.id))
    ensures Run(st, i, RACE, 6) == State(paid, st.status, map[1 := SeenCharge(false), 2 := SeenCharge(false)])
  {
    var one := map[1 := SeenCharge(false)];
    RunNext(st, i, RACE, 3, State(paid, st.status, one));
    RunAdvance(st, i, RACE, 4, State(paid, st.status, one[2 := SeenReceipt(true)]), 2, HasReceipt);
    RunAdvance(st, i, RACE, 5, State(paid, st.status, one[2 := HasReceipt]), 2, SeenCharge(false));
  }

  lemma FirstCharges(st: State, i: Intent, paid: Book, charged: Book)
    requires Run(st, i, RACE, 6) == State(paid, st.status, map[1 := SeenCharge(false), 2 := SeenCharge(false)])
    requires Refusal(paid, ChargePosting(i)).None? && charged == Post(paid, ChargePosting(i))
    ensures Run(st, i, RACE, 8) == State(charged, Succeeded, map[1 := Returned(true), 2 := SeenCharge(false)])
  {
    RunNext(st, i, RACE, 6, State(paid, st.status, map[1 := SeenCharge(false), 2 := SeenCharge(false)]));
    RunNext(st, i, RACE, 7, State(charged, st.status, map[1 := HasCharge, 2 := SeenCharge(false)]));
  }

  lemma SecondIsRefused(st: State, i: Intent, charged: Book)
    requires Run(st, i, RACE, 8) == State(charged, Succeeded, map[1 := Returned(true), 2 := SeenCharge(false)])
    requires Refusal(charged, ChargePosting(i)) == Some(InsufficientBalance)
    ensures Run(st, i, RACE, 10) == State(charged, Failed, map[1 := Returned(true), 2 := Returned(false)])
  {
    RunNext(st, i, RACE, 8, State(charged, Succeeded, map[1 := Returned(true), 2 := SeenCharge(false)]));
    RunNext(st, i, RACE, 9, State(charged, Succeeded, map[1 := Returned(true), 2 := Phase.Short]));
  }

  /**
   Whenever the wallet does not already hold the amount, two deliveries can complete the payment
   and leave the intent FAILED.
   */
  lemma PaidIntentEndsFailed(st: State, i: Intent)
    requires Initial(st, i) && Balance(st.book, WalletOf(i)) < i.amount
    ensures forall op :: op in RACE ==> Undisturbed(op, i)
    ensures var now := Run(st, i, RACE, |RACE|); Settled(now.book, i) && now.status == Failed
  {
    assert Balance(st.book, WalletOf(i)) >= 0;
    var paid := Post(st.book, ReceiptPosting(i));
    var charged := Post(paid, ChargePosting(i));
    PostExists(st.book, ReceiptPosting(i), Receipt(i.id));
    PostExists(st.book, ReceiptPosting(i), Charge(i.id));
    PostExists(paid, ChargePosting(i), Charge(i.id));
    PostExists(paid, ChargePosting(i), Receipt(i.id));
    FirstReads(st, i, paid);
    RaceBegins(st, i, paid);
    FirstCharges(st, i, paid, charged);
    SecondIsRefused(st, i, charged);
  }

  // ----- and when it cannot happen -----

  /** Nothing but confirmations of the intent touches its status or takes money out of its wallet. */
  predicate Quiet(op: Op, i: Intent) {
    Undisturbed(op, i) && !op.Decline?
  }

  /** The wallet holds the amount beside what is received and not yet charged. */
  predicate Plenty(b: Book, i: Intent) {
    var passing := if Exists(b, Receipt(i.id)) && !Exists(b, Charge(i.id)) then i.amount else 0;
    i.amount + passing <= Balance(b, WalletOf(i))
  }

  /** No thread has been told the wallet is short, and none will be. */
  ghost predicate Unfailing(st: State, i: Intent) {
    Plenty(st.book, i) && st.status != Failed && forall t :: t in st.phases ==> st.phases[t] != Phase.Short
  }

  lemma PlentyAfter(b: Book, i: Intent, ph: Phase)
    requires Payable(i) && Sound(b) && PhaseOk(b, i, ph) && Plenty(b, i)
    ensures Plenty(NextBook(b, i, ph), i)
    ensures ph != Phase.Short ==> NextPhase(b, i, ph) != Phase.Short
  {
    PostExists(b, ReceiptPosting(i), Receipt(i.id));
    PostExists(b, ReceiptPosting(i), Charge(i.id));
    PostExists(b, ChargePosting(i), Receipt(i.id));
    PostExists(b, ChargePosting(i), Charge(i.id));
  }

  lemma UnfailingStep(st: State, i: Intent, op: Op)
    requires Payable(i) && Inv(st, i) && Unfailing(st, i) && Quiet(op, i)
    ensures Unfailing(Apply(st, i, op), i)
  {
    match op
    case Advance(t) => if t in st.phases { PlentyAfter(st.book, i, st.phases[t]); }
    case Other(p) =>
      PostExists(st.book, p, Receipt(i.id));
      PostExists(st.book, p, Charge(i.id));
    case _ =>
  }

  lemma {:induction false} UnfailingRun(st: State, i: Intent, ops: seq<Op>, k: nat)
    requires k <= |ops| && Initial(st, i) && Unfailing(st, i) && forall op :: op in ops ==> Quiet(op, i)
    ensures Inv(Run(st, i, ops, k), i) && Unfailing(Run(st, i, ops, k), i)
  {
    if k == 0 {
      RunInv(st, i, ops, 0);
    } else {
      UnfailingRun(st, i, ops, k - 1);
      assert Quiet(ops[k - 1], i);
      ApplyInv(Run(st, i, ops, k - 1), i, ops[k - 1]);
      UnfailingStep(Run(st, i, ops, k - 1), i, ops[k - 1]);
    }
  }

  /** The run completes the payment and leaves the intent FAILED, with nobody else at fault. */
  ghost predicate EndsPaidAndFailed(st: State, i: Intent, ops: seq<Op>) {
    && (forall op :: op in ops ==> Quiet(op, i))
    && Settled(Run(st, i, ops, |ops|).book, i)
    && Run(st, i, ops, |ops|).status == Failed
  }

  /** A payment can end complete and FAILED exactly when the wallet does not hold the amount beforehand. */
  lemma PaidAndFailedIff(st: State, i: Intent)
    requires Initial(st, i) && st.status != Failed
    ensures (exists ops :: EndsPaidAndFailed(st, i, ops)) <==> Balance(st.book, WalletOf(i)) < i.amount
  {
    if Balance(st.book, WalletOf(i)) < i.amount {
      PaidIntentEndsFailed(st, i);
      forall op | op in RACE ensures Quiet(op, i) {}
      assert EndsPaidAndFailed(st, i, RACE);
    } else {
      forall ops | EndsPaidAndFailed(st, i, ops) ensures false {
        UnfailingRun(st, i, ops, |ops|);
      }
    }
  }
}
