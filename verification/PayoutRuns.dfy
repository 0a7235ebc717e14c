/**
 Every interleaving of payout requests, payments, other ledger traffic and the clock around one
 professional's wallet (internal/payouts/service.go, `RequestPayout`). A request is a check, a
 debit and an insert, three separate statements.
 */
module PayoutRuns {
  import opened Options
  import opened Ledger
  import opened Payments
  import opened Payouts

  /** How far a request has come; its position in the list is its ledger reference. */
  datatype Stage = Checked | Refused | Debited | Lost | Waiting | PaidOut

  datatype Request = Request(amount: int, stage: Stage)

  /** A payment through this wallet whose receipt is in the ledger; it is open until charged. */
  datatype Passing = Passing(intent: Intent, isOpen: bool)

  datatype State = State(h: History, now: int, requests: seq<Request>, payments: seq<Passing>)

  datatype Config = Config(user: string, currency: string, holding: int)

  datatype Op =
    | Tick(seconds: nat)
    | PostOther(p: Posting)
    | Receive(i: Intent)
    | ChargeOpen(k: nat)
    | Check(amount: int, bankOk: bool)
    | DebitRequest(k: nat)
    | Record(k: nat)
    | Crash(k: nat)
    | MarkPaid(k: nat)
    | Whole(amount: int, bankOk: bool)

  function Wallet(c: Config): Account {
    AccountOf(PayoutPosting(c.user, c.currency, 0, 0))
  }

  function Since(c: Config, st: State): int {
    st.now - c.holding
  }

  function Restage(st: State, k: nat, before: Stage, after: Stage): State {
    if k < |st.requests| && st.requests[k].stage == before
    then st.(requests := st.requests[k := Request(st.requests[k].amount, after)])
    else st
  }

  /** `bankOk` is whether the bank account asked for, if any, is the professional's. */
  function CheckStep(c: Config, st: State, amount: int, bankOk: bool): State
    requires Stamped(st.h)
  {
    if amount > 0 && Available(st.h, Wallet(c), Since(c, st)) >= amount && bankOk
    then st.(requests := st.requests + [Request(amount, Checked)])
    else st
  }

  function DebitStep(c: Config, st: State, k: nat): State {
    if k >= |st.requests| || st.requests[k].stage != Checked then st
    else
      var p := PayoutPosting(c.user, c.currency, st.requests[k].amount, k);
      if Refusal(st.h.book, p).Some? then Restage(st, k, Checked, Refused)
      else Restage(st, k, Checked, Debited).(h := PostAt(st.h, p, st.now))
  }

  function ReceiveStep(c: Config, st: State, i: Intent): State {
    if WalletOf(i) != Wallet(c) || Refusal(st.h.book, ReceiptPosting(i)).Some? then st
    else st.(h := PostAt(st.h, ReceiptPosting(i), st.now), payments := st.payments + [Passing(i, true)])
  }

  function ChargeStep(st: State, k: nat): State {
    if k >= |st.payments| || !st.payments[k].isOpen then st
    else
      var i := st.payments[k].intent;
      if Refusal(st.h.book, ChargePosting(i)).Some? then st
      else st.(h := PostAt(st.h, ChargePosting(i), st.now), payments := st.payments[k := Passing(i, false)])
  }

  /** A request that runs through undisturbed. */
  function WholeStep(c: Config, st: State, amount: int, bankOk: bool): State
    requires Stamped(st.h)
  {
    Restage(DebitStep(c, CheckStep(c, st, amount, bankOk), |st.requests|), |st.requests|, Debited, Waiting)
  }

  function Apply(c: Config, st: State, op: Op): State
    requires Stamped(st.h)
  {
    match op
    case Tick(s) => st.(now := st.now + s)
    case PostOther(p) => st.(h := PostAt(st.h, p, st.now))
    case Receive(i) => ReceiveStep(c, st, i)
    case ChargeOpen(k) => ChargeStep(st, k)
    case Check(amount, bankOk) => CheckStep(c, st, amount, bankOk)
    case DebitRequest(k) => DebitStep(c, st, k)
    case Record(k) => Restage(st, k, Debited, Waiting)
    case Crash(k) => Restage(Restage(st, k, Checked, Refused), k, Debited, Lost)
    case MarkPaid(k) => Restage(st, k, Waiting, PaidOut)
    case Whole(amount, bankOk) => WholeStep(c, st, amount, bankOk)
  }

  function Run(c: Config, st: State, ops: seq<Op>, k: nat): (r: State)
    requires Stamped(st.h) && k <= |ops|
    ensures Stamped(r.h)
  {
    if k == 0 then st else Apply(c, Run(c, st, ops, k - 1), ops[k - 1])
  }

  lemma RunNext(c: Config, st: State, ops: seq<Op>, k: nat)
    requires Stamped(st.h) && k < |ops|
    ensures Run(c, st, ops, k + 1) == Apply(c, Run(c, st, ops, k), ops[k])
  {}

  /** Run through undisturbed, the three steps are `RequestPayout`, whatever bank account it names. */
  lemma WholeIsRequestPayout(c: Config, st: State, pro: Professional, owners: map<int, int>, amount: int,
                             bankAccount: Option<int>)
    requires Stamped(st.h) && c.currency != "" && pro.user == c.user
    ensures var n := |st.requests|;
      var now := WholeStep(c, st, amount, OwnBankAccount(owners, pro.id, bankAccount));
      match RequestError(st.h, owners, pro, c.currency, Since(c, st), amount, bankAccount, n)
      case None =>
        && now.h == PostAt(st.h, PayoutPosting(c.user, c.currency, amount, n), st.now)
        && now.requests == st.requests + [Request(amount, Waiting)]
      case Some(e) =>
        && now.h == st.h
        && now.requests == if e.InTheLedger? then st.requests + [Request(amount, Refused)] else st.requests
  {}

  // ----- conservation: where the payout debits went -----

  /** What was debited from the account for payouts by the first k entries. */
  function PayoutDebits(entries: seq<Entry>, a: Account, k: nat): int
    requires k <= |entries|
  {
    if k == 0 then 0
    else
      var e := entries[k - 1];
      PayoutDebits(entries, a, k - 1) + if e.category == CatPayout && e.account == a then e.amount else 0
  }

  /** The total of the requests in the given stages. */
  function Total(rs: seq<Request>, stages: set<Stage>, k: nat): int
    requires k <= |rs|
  {
    if k == 0 then 0 else Total(rs, stages, k - 1) + if rs[k - 1].stage in stages then rs[k - 1].amount else 0
  }

  const TAKEN := {Debited, Lost, Waiting, PaidOut}

  lemma {:induction false} TotalPrefix(rs: seq<Request>, r: Request, stages: set<Stage>, k: nat)
    requires k <= |rs|
    ensures Total(rs + [r], stages, k) == Total(rs, stages, k)
  {
    if k > 0 { TotalPrefix(rs, r, stages, k - 1); }
  }

  lemma {:induction false} TotalUpdate(rs: seq<Request>, j: nat, s: Stage, stages: set<Stage>, k: nat)
    requires j < |rs| && k <= |rs|
    ensures Total(rs[j := Request(rs[j].amount, s)], stages, k) == Total(rs, stages, k) +
      if j >= k then 0
      else (if s in stages then rs[j].amount else 0) - (if rs[j].stage in stages then rs[j].amount else 0)
  {
    if k > 0 { TotalUpdate(rs, j, s, stages, k - 1); }
  }

  lemma {:induction false} DebitsPrefix(entries: seq<Entry>, e: Entry, a: Account, k: nat)
    requires k <= |entries|
    ensures PayoutDebits(entries + [e], a, k) == PayoutDebits(entries, a, k)
  {
    if k > 0 { DebitsPrefix(entries, e, a, k - 1); }
  }

  function AllDebits(h: History, a: Account): int {
    PayoutDebits(h.book.entries, a, |h.book.entries|)
  }

  lemma PostDebits(h: History, p: Posting, now: int, a: Account)
    ensures AllDebits(PostAt(h, p, now), a) == AllDebits(h, a) +
      if Refusal(h.book, p).None? && p.category == CatPayout && AccountOf(p) == a then p.amount else 0
  {
    if Refusal(h.book, p).None? {
      DebitsPrefix(h.book.entries, Post(h.book, p).entries[|h.book.entries|], a, |h.book.entries|);
    }
  }

  predicate Accounted(c: Config, st: State) {
    && AllDebits(st.h, Wallet(c)) == Total(st.requests, TAKEN, |st.requests|)
    && (forall k :: 0 <= k < |st.requests| ==> st.requests[k].amount > 0)
  }

  /** Only `RequestPayout` posts payouts of this wallet; others may be paid out meanwhile. */
  predicate NoPayout(c: Config, op: Op) {
    op.PostOther? && op.p.category == CatPayout ==> AccountOf(op.p) != Wallet(c)
  }

  lemma RestageAccounted(c: Config, st: State, k: nat, before: Stage, after: Stage)
    requires Accounted(c, st) && (before in TAKEN <==> after in TAKEN)
    ensures Accounted(c, Restage(st, k, before, after))
  {
    if k < |st.requests| { TotalUpdate(st.requests, k, after, TAKEN, |st.requests|); }
  }

  lemma CheckAccounted(c: Config, st: State, amount: int, bankOk: bool)
    requires Stamped(st.h) && Accounted(c, st)
    ensures Accounted(c, CheckStep(c, st, amount, bankOk))
  {
    TotalPrefix(st.requests, Request(amount, Checked), TAKEN, |st.requests|);
  }

  lemma DebitAccounted(c: Config, st: State, k: nat)
    requires Accounted(c, st)
    ensures Accounted(c, DebitStep(c, st, k))
  {
    if k < |st.requests| && st.requests[k].stage == Checked {
      var p := PayoutPosting(c.user, c.currency, st.requests[k].amount, k);
      PostDebits(st.h, p, st.now, Wallet(c));
      TotalUpdate(st.requests, k, Debited, TAKEN, |st.requests|);
      TotalUpdate(st.requests, k, Refused, TAKEN, |st.requests|);
    }
  }

  lemma ApplyAccounted(c: Config, st: State, op: Op)
    requires Stamped(st.h) && Accounted(c, st) && NoPayout(c, op)
    ensures Accounted(c, Apply(c, st, op))
  {
    match op
    case Tick(_) =>
    case PostOther(p) => PostDebits(st.h, p, st.now, Wallet(c));
    case Receive(i) => PostDebits(st.h, ReceiptPosting(i), st.now, Wallet(c));
    case ChargeOpen(k) =>
      if k < |st.payments| { PostDebits(st.h, ChargePosting(st.payments[k].intent), st.now, Wallet(c)); }
    case Check(amount, bankOk) => CheckAccounted(c, st, amount, bankOk);
    case DebitRequest(k) => DebitAccounted(c, st, k);
    case Record(k) => RestageAccounted(c, st, k, Debited, Waiting);
    case Crash(k) =>
      RestageAccounted(c, st, k, Checked, Refused);
      RestageAccounted(c, Restage(st, k, Checked, Refused), k, Debited, Lost);
    case MarkPaid(k) => RestageAccounted(c, st, k, Waiting, PaidOut);
    case Whole(amount, bankOk) =>
      CheckAccounted(c, st, amount, bankOk);
      var checked := CheckStep(c, st, amount, bankOk);
      DebitAccounted(c, checked, |st.requests|);
      RestageAccounted(c, DebitStep(c, checked, |st.requests|), |st.requests|, Debited, Waiting);
  }

  /** Stages split the total, and every part is non-negative. */
  lemma {:induction false} TotalSplit(rs: seq<Request>, k: nat)
    requires k <= |rs| && forall j :: 0 <= j < k ==> rs[j].amount > 0
    ensures Total(rs, TAKEN, k) == Total(rs, {PaidOut}, k) + Total(rs, {Waiting}, k)
                                   + Total(rs, {Debited}, k) + Total(rs, {Lost}, k)
    ensures Total(rs, {Waiting}, k) >= 0 && Total(rs, {Debited}, k) >= 0 && Total(rs, {Lost}, k) >= 0
  {
    if k > 0 { TotalSplit(rs, k - 1); }
  }

  lemma StepAccounted(c: Config, st: State, ops: seq<Op>, k: nat, n: nat)
    requires Stamped(st.h) && k < |ops| && n == k + 1
    requires Accounted(c, Run(c, st, ops, k)) && NoPayout(c, ops[k])
    ensures Accounted(c, Run(c, st, ops, n))
  {
    var before := Run(c, st, ops, k);
    ApplyAccounted(c, before, ops[k]);
    RunNext(c, st, ops, k);
  }

  lemma {:induction false} RunAccounted(c: Config, st: State, ops: seq<Op>, k: nat)
    requires Stamped(st.h) && k <= |ops| && Accounted(c, st)
    requires forall j :: 0 <= j < k ==> NoPayout(c, ops[j])
    ensures Accounted(c, Run(c, st, ops, k))
  {
    if k > 0 {
      RunAccounted(c, st, ops, k - 1);
      StepAccounted(c, st, ops, k - 1, k);
    }
  }

  /**
   In every interleaving every cent debited for payouts is paid out, waiting, about to be recorded,
   or lost in a crash between debit and insert; so what is marked PAID never exceeds the debits.
   */
  lemma PayoutsConserved(c: Config, st: State, ops: seq<Op>, k: nat)
    requires Stamped(st.h) && k <= |ops| && Accounted(c, st) && forall op :: op in ops ==> NoPayout(c, op)
    ensures var now := Run(c, st, ops, k);
      var debits := AllDebits(now.h, Wallet(c));
      && debits == Total(now.requests, {PaidOut}, |now.requests|) + Total(now.requests, {Waiting}, |now.requests|)
                   + Total(now.requests, {Debited}, |now.requests|) + Total(now.requests, {Lost}, |now.requests|)
      && Total(now.requests, {PaidOut}, |now.requests|) <= debits
  {
    RunAccounted(c, st, ops, k);
    var now := Run(c, st, ops, k);
    TotalSplit(now.requests, |now.requests|);
  }

  // ----- held earnings -----

  /** Received for payments through the wallet and not yet charged. */
  function Owed(ps: seq<Passing>, k: nat): int
    requires k <= |ps|
  {
    if k == 0 then 0 else Owed(ps, k - 1) + if ps[k - 1].isOpen then ps[k - 1].intent.amount else 0
  }

  lemma {:induction false} OwedPrefix(ps: seq<Passing>, p: Passing, k: nat)
    requires k <= |ps|
    ensures Owed(ps + [p], k) == Owed(ps, k)
  {
    if k > 0 { OwedPrefix(ps, p, k - 1); }
  }

  lemma {:induction false} OwedClosed(ps: seq<Passing>, j: nat, k: nat)
    requires j < |ps| && k <= |ps| && ps[j].isOpen
    ensures Owed(ps[j := Passing(ps[j].intent, false)], k) == Owed(ps, k) - if j < k then ps[j].intent.amount else 0
  {
    if k > 0 { OwedClosed(ps, j, k - 1); }
  }

  lemma {:induction false} OwedNonNegative(ps: seq<Passing>, k: nat)
    requires k <= |ps| && forall j :: 0 <= j < k ==> ps[j].intent.amount > 0
    ensures Owed(ps, k) >= 0
  {
    if k > 0 { OwedNonNegative(ps, k - 1); }
  }

  function TotalOwed(st: State): int {
    Owed(st.payments, |st.payments|)
  }

  predicate Covered(c: Config, st: State)
    requires Stamped(st.h)
  {
    Earned(st.h, Wallet(c), Since(c, st)) + TotalOwed(st) <= Balance(st.h.book, Wallet(c))
  }

  /** The payments passing through are positive and through this wallet. */
  ghost predicate Base(c: Config, st: State) {
    && Stamped(st.h) && Sound(st.h.book) && c.holding >= 0
    && (forall k :: 0 <= k < |st.payments| ==>
          st.payments[k].intent.amount > 0 && WalletOf(st.payments[k].intent) == Wallet(c))
  }

  ghost predicate Safe(c: Config, st: State) {
    Base(c, st) && Covered(c, st)
  }

  /** Nothing but payouts and charges takes money out of the wallet. */
  predicate Ordinary(c: Config, op: Op) {
    op.PostOther? && AccountOf(op.p) == Wallet(c) ==> op.p.direction == Credit
  }

  /** The ledger accepts the debit of the request. */
  predicate DebitGoesThrough(c: Config, st: State, k: nat) {
    && k < |st.requests| && st.requests[k].stage == Checked
    && Refusal(st.h.book, PayoutPosting(c.user, c.currency, st.requests[k].amount, k)).None?
  }

  /** If the debit of the request goes through, it leaves room for held earnings and open payments. */
  predicate Within(c: Config, st: State, k: nat)
    requires Stamped(st.h)
  {
    DebitGoesThrough(c, st, k) ==>
      st.requests[k].amount + TotalOwed(st) <= Available(st.h, Wallet(c), Since(c, st))
  }

  /** Every debit the step takes is within what is available when it is taken. */
  predicate Affordable(c: Config, st: State, op: Op)
    requires Stamped(st.h)
  {
    match op
    case DebitRequest(k) => Within(c, st, k)
    case Whole(amount, bankOk) => Within(c, CheckStep(c, st, amount, bankOk), |st.requests|)
    case _ => true
  }

  lemma DebitBase(c: Config, st: State, k: nat)
    requires Base(c, st)
    ensures Base(c, DebitStep(c, st, k))
  {
    if DebitGoesThrough(c, st, k) {
      PostSound(st.h.book, PayoutPosting(c.user, c.currency, st.requests[k].amount, k));
    }
  }

  /** The step that decides: after it the wallet covers its obligations exactly when it was within them. */
  lemma DebitCoveredIff(c: Config, st: State, k: nat)
    requires Safe(c, st)
    ensures Covered(c, DebitStep(c, st, k)) <==> Within(c, st, k)
  {
    if DebitGoesThrough(c, st, k) {
      var p := PayoutPosting(c.user, c.currency, st.requests[k].amount, k);
      PostEarned(st.h, p, st.now, Wallet(c), Since(c, st));
      OwedNonNegative(st.payments, |st.payments|);
    }
  }

  lemma PostSafe(c: Config, st: State, p: Posting)
    requires Base(c, st) && (AccountOf(p) == Wallet(c) ==> p.direction == Credit)
    ensures Base(c, st.(h := PostAt(st.h, p, st.now)))
    ensures Covered(c, st) ==> Covered(c, st.(h := PostAt(st.h, p, st.now)))
  {
    PostSound(st.h.book, p);
    PostEarned(st.h, p, st.now, Wallet(c), Since(c, st));
  }

  lemma ReceiveSafe(c: Config, st: State, i: Intent)
    requires Base(c, st)
    ensures Base(c, ReceiveStep(c, st, i)) && (Covered(c, st) ==> Covered(c, ReceiveStep(c, st, i)))
  {
    PostSound(st.h.book, ReceiptPosting(i));
    PostEarned(st.h, ReceiptPosting(i), st.now, Wallet(c), Since(c, st));
    OwedPrefix(st.payments, Passing(i, true), |st.payments|);
  }

  lemma ChargeSafe(c: Config, st: State, k: nat)
    requires Base(c, st)
    ensures Base(c, ChargeStep(st, k)) && (Covered(c, st) ==> Covered(c, ChargeStep(st, k)))
  {
    if k < |st.payments| && st.payments[k].isOpen {
      var p := ChargePosting(st.payments[k].intent);
      PostSound(st.h.book, p);
      PostEarned(st.h, p, st.now, Wallet(c), Since(c, st));
      OwedClosed(st.payments, k, |st.payments|);
    }
  }

  lemma TickSafe(c: Config, st: State, s: nat)
    requires Base(c, st)
    ensures Base(c, st.(now := st.now + s)) && (Covered(c, st) ==> Covered(c, st.(now := st.now + s)))
  {
    EarnedShrinks(st.h, Wallet(c), Since(c, st), Since(c, st) + s, |st.h.stamps|);
  }

  /** Requests that move between stages touch neither the wallet nor what it owes. */
  lemma OnlyRequests(c: Config, st: State, st': State)
    requires Base(c, st) && st'.h == st.h && st'.now == st.now && st'.payments == st.payments
    ensures Base(c, st') && (Covered(c, st') <==> Covered(c, st))
  {}

  lemma WholeBase(c: Config, st: State, amount: int, bankOk: bool)
    requires Base(c, st)
    ensures Base(c, WholeStep(c, st, amount, bankOk))
    ensures Covered(c, st) ==>
      (Covered(c, WholeStep(c, st, amount, bankOk)) <==> Within(c, CheckStep(c, st, amount, bankOk), |st.requests|))
  {
    var n, checked := |st.requests|, CheckStep(c, st, amount, bankOk);
    OnlyRequests(c, st, checked);
    var debited := DebitStep(c, checked, n);
    DebitBase(c, checked, n);
    if Covered(c, st) { DebitCoveredIff(c, checked, n); }
    OnlyRequests(c, debited, Restage(debited, n, Debited, Waiting));
  }

  lemma CrashBase(c: Config, st: State, k: nat)
    requires Base(c, st)
    ensures Base(c, Apply(c, st, Crash(k))) && (Covered(c, Apply(c, st, Crash(k))) <==> Covered(c, st))
  {
    OnlyRequests(c, st, Apply(c, st, Crash(k)));
  }

  /** From a covered wallet any step leaves it covered exactly when it is affordable. */
  lemma StepCoveredIff(c: Config, st: State, op: Op)
    requires Base(c, st) && Ordinary(c, op)
    ensures Base(c, Apply(c, st, op))
    ensures Covered(c, st) ==> (Covered(c, Apply(c, st, op)) <==> Affordable(c, st, op))
  {
    match op
    case Tick(s) => TickSafe(c, st, s);
    case PostOther(p) => PostSafe(c, st, p);
    case Receive(i) => ReceiveSafe(c, st, i);
    case ChargeOpen(k) => ChargeSafe(c, st, k);
    case DebitRequest(k) =>
      DebitBase(c, st, k);
      if Covered(c, st) { DebitCoveredIff(c, st, k); }
    case Whole(amount, bankOk) => WholeBase(c, st, amount, bankOk);
    case Check(amount, bankOk) => OnlyRequests(c, st, CheckStep(c, st, amount, bankOk));
    case Record(k) => OnlyRequests(c, st, Restage(st, k, Debited, Waiting));
    case Crash(k) => CrashBase(c, st, k);
    case MarkPaid(k) => OnlyRequests(c, st, Restage(st, k, Waiting, PaidOut));
  }

  /** Every step up to the k-th is affordable where it is taken. */
  predicate AffordableRun(c: Config, st: State, ops: seq<Op>, k: nat)
    requires Stamped(st.h) && k <= |ops|
  {
    k == 0 || (AffordableRun(c, st, ops, k - 1) && Affordable(c, Run(c, st, ops, k - 1), ops[k - 1]))
  }

  /** The wallet covers its obligations in each of the first k states. */
  predicate CoveredRun(c: Config, st: State, ops: seq<Op>, k: nat)
    requires Stamped(st.h) && k <= |ops|
  {
    Covered(c, Run(c, st, ops, k)) && (k == 0 || CoveredRun(c, st, ops, k - 1))
  }

  /**
   However requests, payments and the clock interleave, the wallet covers held earnings and open
   payments throughout exactly when each payout debit is within what is available when it is taken.
   */
  lemma {:induction false} CoveredThroughoutIff(c: Config, st: State, ops: seq<Op>, k: nat)
    requires k <= |ops| && Safe(c, st) && forall op :: op in ops ==> Ordinary(c, op)
    ensures Base(c, Run(c, st, ops, k))
    ensures CoveredRun(c, st, ops, k) <==> AffordableRun(c, st, ops, k)
  {
    if k > 0 {
      CoveredThroughoutIff(c, st, ops, k - 1);
      StepCoveredIff(c, Run(c, st, ops, k - 1), ops[k - 1]);
    }
  }

  /** Held earnings are never paid out: in every such run withdrawable plus held is the wallet. */
  lemma HeldEarningsStay(c: Config, st: State, ops: seq<Op>, k: nat)
    requires k <= |ops| && Safe(c, st) && forall op :: op in ops ==> Ordinary(c, op)
    requires AffordableRun(c, st, ops, k)
    ensures var now := Run(c, st, ops, k);
      && Held(now.h, Wallet(c), Since(c, now))
      && Available(now.h, Wallet(c), Since(c, now)) + Earned(now.h, Wallet(c), Since(c, now))
         == Balance(now.h.book, Wallet(c))
  {
    CoveredThroughoutIff(c, st, ops, k);
    var now := Run(c, st, ops, k);
    OwedNonNegative(now.payments, |now.payments|);
  }

  /** A request that runs undisturbed while no payment is open is always affordable: it has just been checked. */
  lemma UndisturbedIsAffordable(c: Config, st: State, amount: int, bankOk: bool)
    requires Stamped(st.h) && TotalOwed(st) == 0
    ensures Affordable(c, st, Whole(amount, bankOk))
  {}

  // ----- requests that are not -----

  lemma WholeGoesThrough(c: Config, st: State, x: int)
    requires Stamped(st.h) && c.user != "" && 0 < x <= Available(st.h, Wallet(c), Since(c, st))
    requires Earned(st.h, Wallet(c), Since(c, st)) >= 0 && !Exists(st.h.book, PayoutRef(|st.requests|))
    ensures WholeStep(c, st, x, true) == st.(h := PostAt(st.h, PayoutPosting(c.user, c.currency, x, |st.requests|), st.now),
                                       requests := st.requests + [Request(x, Waiting)])
    ensures Refusal(st.h.book, PayoutPosting(c.user, c.currency, x, |st.requests|)).None?
  {}

  /**
   A request made while a payment through the wallet is between its receipt and its charge: both go
   through, and held earnings stay covered exactly when request and payment together were available.
   */
  lemma PayoutDuringPayment(c: Config, st: State, x: int, k: nat)
    requires Safe(c, st) && c.user != "" && k < |st.payments| && st.payments[k].isOpen
    requires 0 < x <= Available(st.h, Wallet(c), Since(c, st))
    requires x + st.payments[k].intent.amount <= Balance(st.h.book, Wallet(c))
    requires !Exists(st.h.book, PayoutRef(|st.requests|)) && !Exists(st.h.book, Charge(st.payments[k].intent.id))
    ensures var now := Apply(c, Apply(c, st, Whole(x, true)), ChargeOpen(k));
      && now.requests == st.requests + [Request(x, Waiting)] && !now.payments[k].isOpen
      && (Held(now.h, Wallet(c), Since(c, now)) <==>
            x + st.payments[k].intent.amount <= Available(st.h, Wallet(c), Since(c, st)))
  {
    var px := PayoutPosting(c.user, c.currency, x, |st.requests|);
    var pc := ChargePosting(st.payments[k].intent);
    EarnedShrinks(st.h, Wallet(c), Since(c, st), Since(c, st), |st.h.stamps|);
    WholeGoesThrough(c, st, x);
    PostExists(st.h.book, px, Charge(st.payments[k].intent.id));
    PostEarned(st.h, px, st.now, Wallet(c), Since(c, st));
    PostEarned(PostAt(st.h, px, st.now), pc, st.now, Wallet(c), Since(c, st));
  }

  predicate BothChecked(c: Config, st: State, n: nat, x: int, y: int) {
    && |st.requests| == n + 2
    && st.requests[n] == Request(x, Checked) && st.requests[n + 1] == Request(y, Checked)
    && 0 < x && 0 < y && x + y <= Balance(st.h.book, Wallet(c))
    && !Exists(st.h.book, PayoutRef(n)) && !Exists(st.h.book, PayoutRef(n + 1))
  }

  lemma RacingDebits(c: Config, st: State, n: nat, x: int, y: int)
    requires Safe(c, st) && c.user != "" && BothChecked(c, st, n, x, y)
    ensures var now := DebitStep(c, DebitStep(c, st, n), n + 1);
      && now.requests == st.requests[n := Request(x, Debited)][n + 1 := Request(y, Debited)]
      && Stamped(now.h) && now.now == st.now
      && Earned(now.h, Wallet(c), Since(c, now)) == Earned(st.h, Wallet(c), Since(c, st))
      && Balance(now.h.book, Wallet(c)) == Balance(st.h.book, Wallet(c)) - x - y
  {
    var px := PayoutPosting(c.user, c.currency, x, n);
    PostExists(st.h.book, px, PayoutRef(n + 1));
    PostEarned(st.h, px, st.now, Wallet(c), Since(c, st));
    PostEarned(DebitStep(c, st, n).h, PayoutPosting(c.user, c.currency, y, n + 1), st.now, Wallet(c), Since(c, st));
  }

  /** Two requests that both check before either debits. */
  function Race(c: Config, st: State, x: int, y: int): (r: State)
    requires Stamped(st.h)
    ensures Stamped(r.h)
  {
    var n := |st.requests|;
    var checked := Apply(c, Apply(c, st, Check(x, true)), Check(y, true));
    Apply(c, Apply(c, checked, DebitRequest(n)), DebitRequest(n + 1))
  }

  /**
   Both succeed as soon as the wallet covers them, and held earnings leave the wallet exactly when
   together they exceed what was available.
   */
  lemma RacingRequests(c: Config, st: State, x: int, y: int)
    requires Safe(c, st) && c.user != ""
    requires 0 < x <= Available(st.h, Wallet(c), Since(c, st)) && 0 < y <= Available(st.h, Wallet(c), Since(c, st))
    requires x + y <= Balance(st.h.book, Wallet(c))
    requires !Exists(st.h.book, PayoutRef(|st.requests|)) && !Exists(st.h.book, PayoutRef(|st.requests| + 1))
    ensures var n := |st.requests|;
      var now := Race(c, st, x, y);
      && |now.requests| == n + 2 && now.requests[n].stage == Debited && now.requests[n + 1].stage == Debited
      && (Held(now.h, Wallet(c), Since(c, now)) <==> x + y <= Available(st.h, Wallet(c), Since(c, st)))
  {
    RacingDebits(c, CheckStep(c, CheckStep(c, st, x, true), y, true), |st.requests|, x, y);
  }

  // ----- crashes and the clock -----

  /** A crash after the debit loses the payout and keeps the debit; before it nothing has happened. */
  lemma CrashKeepsDebit(c: Config, st: State, k: nat)
    requires Stamped(st.h) && k < |st.requests|
    ensures var now := Apply(c, st, Crash(k));
      && now.h == st.h && now.payments == st.payments
      && now.requests == st.requests[k := Request(st.requests[k].amount,
           match st.requests[k].stage
           case Checked => Refused
           case Debited => Lost
           case s => s)]
  {}

  lemma {:induction false} NothingEarnedSince(h: History, a: Account, since: int, k: nat)
    requires Stamped(h) && k <= |h.stamps| && forall j :: 0 <= j < |h.stamps| ==> h.stamps[j] < since
    ensures EarnedUpTo(h, a, since, k) == 0
  {
    if k > 0 { NothingEarnedSince(h, a, since, k - 1); }
  }

  /** Once the holding period has passed since the last entry, the whole wallet can be withdrawn. */
  lemma HoldingPeriodEnds(c: Config, st: State, seconds: nat)
    requires Stamped(st.h) && Sound(st.h.book) && seconds > c.holding
    requires forall j :: 0 <= j < |st.h.stamps| ==> st.h.stamps[j] <= st.now
    ensures var later := Apply(c, st, Tick(seconds));
      Available(later.h, Wallet(c), Since(c, later)) == Balance(st.h.book, Wallet(c))
  {
    NothingEarnedSince(st.h, Wallet(c), st.now + seconds - c.holding, |st.h.stamps|);
    assert Balance(st.h.book, Wallet(c)) >= 0;
  }
}
