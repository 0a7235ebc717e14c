/**
 Payouts and the holding window over recent earnings (internal/payouts/service.go and store.go;
 `SumEarnings` in internal/payments/store.go). Times are seconds; the ledger's rows carry the
 time they were written.
 */
module Payouts {
  import opened Options
  import opened Ledger
  import opened Payments

  /** A ledger with the `created_at` of each entry. */
  datatype History = History(book: Book, stamps: seq<int>)

  predicate Stamped(h: History) {
    |h.stamps| == |h.book.entries|
  }

  function PostAt(h: History, p: Posting, now: int): History {
    if Refusal(h.book, p).Some? then h else History(Post(h.book, p), h.stamps + [now])
  }

  /** The k-th entry is an earning of the account written at or after `since`. */
  predicate EarnedSince(h: History, a: Account, since: int, k: int)
    requires Stamped(h) && 0 <= k < |h.stamps|
  {
    var e := h.book.entries[k];
    e.account == a && e.direction == Credit && e.category == CatEarning && h.stamps[k] >= since
  }

  function EarnedUpTo(h: History, a: Account, since: int, k: nat): int
    requires Stamped(h) && k <= |h.stamps|
  {
    if k == 0 then 0
    else if EarnedSince(h, a, since, k - 1) then EarnedUpTo(h, a, since, k - 1) + h.book.entries[k - 1].amount
    else EarnedUpTo(h, a, since, k - 1)
  }

  function Earned(h: History, a: Account, since: int): int
    requires Stamped(h)
  {
    EarnedUpTo(h, a, since, |h.stamps|)
  }

  /** What may be withdrawn when earnings since `since` are held. */
  function Available(h: History, a: Account, since: int): int
    requires Stamped(h)
  {
    if Balance(h.book, a) - Earned(h, a, since) < 0 then 0 else Balance(h.book, a) - Earned(h, a, since)
  }

  /** The wallet covers the earnings still held. */
  predicate Held(h: History, a: Account, since: int)
    requires Stamped(h)
  {
    Earned(h, a, since) <= Balance(h.book, a)
  }

  // ----- what a posting and the passing of time do to the held earnings -----

  lemma {:induction false} EarnedPrefix(h: History, h': History, a: Account, since: int, k: nat)
    requires Stamped(h) && Stamped(h') && k <= |h.stamps| <= |h'.stamps|
    requires forall j :: 0 <= j < k ==> h'.book.entries[j] == h.book.entries[j] && h'.stamps[j] == h.stamps[j]
    ensures EarnedUpTo(h', a, since, k) == EarnedUpTo(h, a, since, k)
  {
    if k > 0 { EarnedPrefix(h, h', a, since, k - 1); }
  }

  predicate IsEarning(p: Posting, a: Account) {
    p.direction == Credit && p.category == CatEarning && AccountOf(p) == a
  }

  /** How one accepted posting moves the balance and the held earnings. */
  lemma PostEarned(h: History, p: Posting, now: int, a: Account, since: int)
    requires Stamped(h)
    ensures Stamped(PostAt(h, p, now))
    ensures Earned(PostAt(h, p, now), a, since) == Earned(h, a, since) +
      if Refusal(h.book, p).None? && IsEarning(p, a) && now >= since then p.amount else 0
    ensures Balance(PostAt(h, p, now).book, a) == Balance(h.book, a) +
      if Refusal(h.book, p).Some? || AccountOf(p) != a then 0
      else if p.direction == Credit then p.amount else -p.amount
  {
    if Refusal(h.book, p).None? {
      EarnedPrefix(h, PostAt(h, p, now), a, since, |h.stamps|);
    }
  }

  /** As the window moves on, earnings leave it and none enter. */
  lemma {:induction false} EarnedShrinks(h: History, a: Account, since: int, later: int, k: nat)
    requires Stamped(h) && Sound(h.book) && since <= later && k <= |h.stamps|
    ensures 0 <= EarnedUpTo(h, a, later, k) <= EarnedUpTo(h, a, since, k)
  {
    if k > 0 {
      EarnedShrinks(h, a, since, later, k - 1);
      assert h.book.entries[k - 1].amount > 0;
    }
  }

  /** A debit of the account leaves held earnings covered exactly when it takes no more than is available. */
  lemma DebitKeepsHeldIff(h: History, p: Posting, now: int, a: Account, since: int)
    requires Stamped(h) && Held(h, a, since)
    requires p.direction == Debit && AccountOf(p) == a && Refusal(h.book, p).None?
    ensures Stamped(PostAt(h, p, now))
    ensures Held(PostAt(h, p, now), a, since) <==> p.amount <= Available(h, a, since)
  {
    PostEarned(h, p, now, a, since);
  }

  /** Withdrawable and held together are the wallet exactly when the wallet covers what is held. */
  lemma AvailablePlusPendingIff(h: History, a: Account, since: int)
    requires Stamped(h) && Sound(h.book)
    ensures Available(h, a, since) + Earned(h, a, since) == Balance(h.book, a) <==> Held(h, a, since)
    ensures 0 <= Available(h, a, since) <= Balance(h.book, a)
    ensures forall later :: since <= later ==>
      Available(h, a, since) <= Available(h, a, later) && Earned(h, a, later) <= Earned(h, a, since)
  {
    assert Balance(h.book, a) >= 0;
    EarnedShrinks(h, a, since, since, |h.stamps|);
    forall later | since <= later
      ensures Available(h, a, since) <= Available(h, a, later) && Earned(h, a, later) <= Earned(h, a, since)
    {
      EarnedShrinks(h, a, since, later, |h.stamps|);
    }
  }

  // ----- the service -----

  datatype PayoutStatus = PayoutPending | PayoutPaid

  datatype PayoutRow = PayoutRow(pro: int, bankAccount: Option<int>, amount: int, status: PayoutStatus)

  datatype PayoutError =
    | NotPositive | NothingAvailable | NoSuchAccount | NotYourAccount | InTheLedger(e: LedgerError) | CannotBePaid

  datatype Professional = Professional(id: int, user: string)

  datatype Summary = Summary(totalEarned: int, available: int, pending: int, walletBalance: int,
                             thisWeek: int, thisMonth: int)

  function PayoutPosting(user: string, currency: string, amount: int, n: int): Posting {
    Posting(user, Debit, CatPayout, amount, currency, PayoutRef(n))
  }

  /** Why a request is refused; nothing is written before the last test. */
  function RequestError(h: History, owners: map<int, int>, pro: Professional, currency: string, since: int,
                        amount: int, bankAccount: Option<int>, n: int): Option<PayoutError>
    requires Stamped(h)
  {
    if amount <= 0 then Some(NotPositive)
    else if Available(h, Account(pro.user, currency), since) < amount then Some(NothingAvailable)
    else if bankAccount.Some? && bankAccount.value !in owners then Some(NoSuchAccount)
    else if bankAccount.Some? && owners[bankAccount.value] != pro.id then Some(NotYourAccount)
    else if Refusal(h.book, PayoutPosting(pro.user, currency, amount, n)).Some? then
      Some(InTheLedger(Refusal(h.book, PayoutPosting(pro.user, currency, amount, n)).value))
    else None
  }

  /** The bank account asked for is none, or one that exists and belongs to the professional. */
  predicate OwnBankAccount(owners: map<int, int>, pro: int, bankAccount: Option<int>) {
    bankAccount.Some? ==> bankAccount.value in owners && owners[bankAccount.value] == pro
  }

  /** What an accepted request has established. */
  lemma AcceptedRequest(h: History, owners: map<int, int>, pro: Professional, currency: string, since: int,
                        amount: int, bankAccount: Option<int>, n: int)
    requires Stamped(h)
    ensures RequestError(h, owners, pro, currency, since, amount, bankAccount, n).None? <==>
      && 0 < amount && amount + Earned(h, Account(pro.user, currency), since) <= Balance(h.book, Account(pro.user, currency))
      && OwnBankAccount(owners, pro.id, bankAccount)
      && Refusal(h.book, PayoutPosting(pro.user, currency, amount, n)).None?
  {}

  /** Which refusal comes back, in the order of the tests. */
  lemma RefusedRequest(h: History, owners: map<int, int>, pro: Professional, currency: string, since: int,
                       amount: int, bankAccount: Option<int>, n: int)
    requires Stamped(h)
    ensures var r := RequestError(h, owners, pro, currency, since, amount, bankAccount, n);
      var a := Account(pro.user, currency);
      && (r == Some(NotPositive) <==> amount <= 0)
      && (r == Some(NothingAvailable) <==> 0 < amount && Balance(h.book, a) < amount + Earned(h, a, since))
      && (r == Some(NoSuchAccount) <==>
            0 < amount && amount + Earned(h, a, since) <= Balance(h.book, a)
            && bankAccount.Some? && bankAccount.value !in owners)
      && (r == Some(NotYourAccount) <==>
            0 < amount && amount + Earned(h, a, since) <= Balance(h.book, a)
            && bankAccount.Some? && bankAccount.value in owners && owners[bankAccount.value] != pro.id)
  {}

  /** It takes the amount out of the professional's wallet and nothing out of any other. */
  lemma RequestMovesMoney(h: History, owners: map<int, int>, pro: Professional, currency: string, since: int,
                          amount: int, bankAccount: Option<int>, n: int, now: int, a: Account)
    requires Stamped(h) && currency != ""
    requires RequestError(h, owners, pro, currency, since, amount, bankAccount, n).None?
    ensures Balance(PostAt(h, PayoutPosting(pro.user, currency, amount, n), now).book, a) ==
      Balance(h.book, a) - if a.user == pro.user && a.currency == currency then amount else 0
  {}

  class PayoutDesk {
    const ledger: PaymentStore
    const currency: string
    const holding: int
    var stamps: seq<int>
    var payouts: seq<PayoutRow>
    /** Bank account id to the professional it belongs to. */
    var owners: map<int, int>

    constructor (ledger: PaymentStore, currency: string, holding: int, stamps: seq<int>)
      requires currency != "" && |stamps| == |ledger.entries|
      ensures Valid() && this.ledger == ledger && this.currency == currency && this.holding == holding
      ensures this.stamps == stamps && payouts == [] && owners == map[] && PaysOwners()
    {
      this.ledger, this.currency, this.holding := ledger, currency, holding;
      this.stamps, payouts, owners := stamps, [], map[];
    }

    predicate Valid()
      reads this, ledger
    {
      currency != "" && Stamped(Past())
    }

    function Past(): History
      reads this, ledger
    {
      History(ledger.Books(), stamps)
    }

    function Wallet(user: string): Account { Account(user, currency) }

    /** Every payout that names a bank account names one of the professional it is for. */
    ghost predicate PaysOwners()
      reads this
    {
      forall i :: 0 <= i < |payouts| && payouts[i].bankAccount.Some? ==>
        && payouts[i].bankAccount.value in owners
        && owners[payouts[i].bankAccount.value] == payouts[i].pro
    }

    /** `SumEarnings`. */
    method SumEarnings(user: string, since: int) returns (sum: int)
      requires Valid()
      ensures sum == Earned(Past(), Wallet(user), since)
    {
      sum := 0;
      for k := 0 to |stamps|
        invariant sum == EarnedUpTo(Past(), Wallet(user), since, k)
      {
        var e := ledger.entries[k];
        if e.account == Account(user, currency) && e.direction == Credit && e.category == CatEarning
           && stamps[k] >= since {
          sum := sum + e.amount;
        }
      }
    }

    method GetWallet(user: string) returns (balance: int)
      ensures balance == Balance(ledger.Books(), Wallet(user))
    {
      balance := 0;
      if Account(user, currency) in ledger.wallets { balance := ledger.wallets[Account(user, currency)]; }
    }

    method AvailableBalance(user: string, now: int) returns (available: int)
      requires Valid()
      ensures available == Available(Past(), Wallet(user), now - holding)
    {
      var balance := GetWallet(user);
      var pending := SumEarnings(user, now - holding);
      available := balance - pending;
      if available < 0 { available := 0; }
    }

    /** The dashboard; `monday` and `firstOfMonth` are when week and month began, `epoch` is the zero time. */
    method EarningsSummary(user: string, now: int, monday: int, firstOfMonth: int, epoch: int) returns (r: Summary)
      requires Valid()
      ensures r.totalEarned == Earned(Past(), Wallet(user), epoch)
      ensures r.pending == Earned(Past(), Wallet(user), now - holding)
      ensures r.available == Available(Past(), Wallet(user), now - holding)
      ensures r.walletBalance == Balance(Past().book, Wallet(user))
      ensures r.thisWeek == Earned(Past(), Wallet(user), monday)
      ensures r.thisMonth == Earned(Past(), Wallet(user), firstOfMonth)
      ensures r.available + r.pending == r.walletBalance <==> Held(Past(), Wallet(user), now - holding)
    {
      var balance := GetWallet(user);
      var pending := SumEarnings(user, now - holding);
      var total := SumEarnings(user, epoch);
      var thisWeek := SumEarnings(user, monday);
      var thisMonth := SumEarnings(user, firstOfMonth);
      var available := balance - pending;
      if available < 0 { available := 0; }
      return Summary(total, available, pending, balance, thisWeek, thisMonth);
    }

    /** `RequestPayout`, run alone; `n` is the fresh number in its ledger reference. */
    method RequestPayout(pro: Professional, amount: int, bankAccount: Option<int>, now: int, n: int)
      returns (r: Option<PayoutError>)
      requires Valid()
      modifies this`stamps, this`payouts, ledger`wallets, ledger`entries
      ensures Valid()
      ensures r == RequestError(old(Past()), owners, pro, currency, now - holding, amount, bankAccount, n)
      ensures old(PaysOwners()) ==> PaysOwners()
      ensures r.None? ==>
                && 0 < amount <= Available(old(Past()), Wallet(pro.user), now - holding)
                && (bankAccount.Some? ==> bankAccount.value in owners && owners[bankAccount.value] == pro.id)
                && (forall a :: Balance(Past().book, a) ==
                      old(Balance(Past().book, a)) - if a == Wallet(pro.user) then amount else 0)
      ensures Past() == if r.Some? then old(Past())
                        else PostAt(old(Past()), PayoutPosting(pro.user, currency, amount, n), now)
      ensures payouts == if r.Some? then old(payouts)
                         else old(payouts) + [PayoutRow(pro.id, bankAccount, amount, PayoutPending)]
    {
      if amount <= 0 { return Some(NotPositive); }
      var available := AvailableBalance(pro.user, now);
      if available < amount { return Some(NothingAvailable); }
      if bankAccount.Some? {
        if bankAccount.value !in owners { return Some(NoSuchAccount); }
        if owners[bankAccount.value] != pro.id { return Some(NotYourAccount); }
      }
      var d := ledger.ApplyLedger(pro.user, Debit, CatPayout, amount, currency, PayoutRef(n));
      if d.Failure? { return Some(InTheLedger(d.error)); }
      stamps := stamps + [now];
      payouts := payouts + [PayoutRow(pro.id, bankAccount, amount, PayoutPending)];
      return None;
    }

    /** `MarkPaid`: a guarded update; an unknown payout fails like one already paid. */
    method MarkPaid(id: int) returns (r: Option<PayoutError>)
      modifies this`payouts
      ensures r.None? <==> 0 <= id < |old(payouts)| && old(payouts)[id].status == PayoutPending
      ensures r.Some? ==> r == Some(CannotBePaid) && payouts == old(payouts)
      ensures r.None? ==> payouts == old(payouts)[id := old(payouts)[id].(status := PayoutPaid)]
      ensures old(PaysOwners()) ==> PaysOwners()
    {
      if 0 <= id < |payouts| && payouts[id].status == PayoutPending {
        payouts := payouts[id := payouts[id].(status := PayoutPaid)];
        return None;
      }
      return Some(CannotBePaid);
    }
  }
}
