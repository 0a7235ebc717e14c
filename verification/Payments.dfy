/**
 Confirming a payment and settling a booking as sequential code over the ledger
 (internal/payments/service.go and store.go).
 */
module Payments {
  import opened Options
  import opened Ledger

  datatype AmountType = DepositPart | BalancePart | FullPart

  datatype IntentStatus = Pending | Succeeded | Failed | Refunded | Cancelled

  /** What the gateway says about a payment; a signed webhook says Paid. */
  datatype GatewayAnswer = Paid | Declined | StillPending | Unreachable

  datatype ConfirmFailure = IntentNotFound | GatewayDown | InLedger(e: LedgerError)

  /** A payment intent's immutable columns; its status is kept beside it. */
  datatype Intent = Intent(id: int, customer: string, amountType: AmountType, amount: int, currency: string)

  function CategoryFor(t: AmountType): Category {
    match t
    case DepositPart => CatDeposit
    case BalancePart => CatBalance
    case FullPart => CatFull
  }

  function ReceiptPosting(i: Intent): Posting {
    Posting(i.customer, Credit, CatAdjustment, i.amount, i.currency, Receipt(i.id))
  }

  function ChargePosting(i: Intent): Posting {
    Posting(i.customer, Debit, CategoryFor(i.amountType), i.amount, i.currency, Charge(i.id))
  }

  function WalletOf(i: Intent): Account {
    AccountOf(ChargePosting(i))
  }

  /** Intents are only created with a customer and a positive amount. */
  predicate Payable(i: Intent) {
    i.customer != "" && i.amount > 0
  }

  // ----- the effect of one undisturbed confirmation -----

  function AfterReceipt(b: Book, i: Intent): Book {
    if Exists(b, Receipt(i.id)) then b else Post(b, ReceiptPosting(i))
  }

  function AfterCharge(b: Book, i: Intent): Book {
    if Exists(b, Charge(i.id)) then b else Post(b, ChargePosting(i))
  }

  function ReceiptError(b: Book, i: Intent): Option<LedgerError> {
    if Exists(b, Receipt(i.id)) then None else Refusal(b, ReceiptPosting(i))
  }

  function ChargeError(b: Book, i: Intent): Option<LedgerError> {
    if Exists(b, Charge(i.id)) then None else Refusal(b, ChargePosting(i))
  }

  function ConfirmError(b: Book, i: Intent): Option<LedgerError> {
    if ReceiptError(b, i).Some? then ReceiptError(b, i) else ChargeError(AfterReceipt(b, i), i)
  }

  function ConfirmBook(b: Book, i: Intent): Book {
    if ReceiptError(b, i).Some? then b else AfterCharge(AfterReceipt(b, i), i)
  }

  function ConfirmStatus(b: Book, i: Intent, s: IntentStatus): IntentStatus {
    match ConfirmError(b, i)
    case None => Succeeded
    case Some(e) => if ReceiptError(b, i).None? && e == InsufficientBalance then Failed else s
  }

  // ----- settlement amounts -----

  /** `roundMoney` of a percentage: cents, halves away from zero; the rate is in basis points. */
  function RoundedShare(total: nat, bps: nat): nat {
    (2 * total * bps + 10000) / 20000
  }

  datatype Settlement = Settlement(booking: int, total: int, proUser: string, currency: string, bps: nat)

  const PLATFORM := "00000000-0000-0000-0000-000000000000"

  function FeeOf(s: Settlement): int
    requires s.total > 0
  {
    RoundedShare(s.total, s.bps)
  }

  function EarningsOf(s: Settlement): int
    requires s.total > 0
  {
    s.total - FeeOf(s)
  }

  function EarnPosting(s: Settlement): Posting
    requires s.total > 0
  {
    Posting(s.proUser, Credit, CatEarning, EarningsOf(s), s.currency, Earn(s.booking))
  }

  function FeePosting(s: Settlement): Posting
    requires s.total > 0
  {
    Posting(PLATFORM, Credit, CatPlatformFee, FeeOf(s), s.currency, Fee(s.booking))
  }

  /** The effect of one undisturbed settlement. */
  function SettleBook(b: Book, s: Settlement): Book {
    if s.total <= 0 || Refusal(b, EarnPosting(s)).Some? then b
    else Post(Post(b, EarnPosting(s)), FeePosting(s))
  }

  /** The error it returns. */
  function SettleError(b: Book, s: Settlement): Option<LedgerError> {
    if s.total <= 0 then None
    else if Refusal(b, EarnPosting(s)).Some? then Refusal(b, EarnPosting(s))
    else Refusal(Post(b, EarnPosting(s)), FeePosting(s))
  }

  /** What an account is due of a settled total: the professional all but the fee, the platform the fee. */
  function SettledShare(total: nat, bps: nat, proUser: string, currency: string, a: Account): int {
    var c := if currency == "" then "NGN" else currency;
    (if a == Account(proUser, c) then total - RoundedShare(total, bps) else 0)
    + (if a == Account("00000000-0000-0000-0000-000000000000", c) then RoundedShare(total, bps) else 0)
  }

  /** A settlement without error moves exactly these amounts. */
  lemma SettleMovesMoney(b: Book, s: Settlement, a: Account)
    requires s.total > 0 && SettleError(b, s).None?
    ensures Balance(SettleBook(b, s), a) == Balance(b, a) + SettledShare(s.total, s.bps, s.proUser, s.currency, a)
  {}

  // ----- the store and the service -----

  class PaymentStore {
    var wallets: map<Account, int>
    var entries: seq<Entry>
    var status: map<int, IntentStatus>

    function Books(): Book
      reads this
    {
      Book(wallets, entries)
    }

    constructor ()
      ensures Books() == EMPTY && status == map[]
    {
      wallets, entries, status := map[], [], map[];
    }

    /** `applyLedger`: the transaction commits both writes or neither. */
    method ApplyLedger(user: string, direction: Direction, category: Category, amount: int,
                       currency: string, reference: Reference)
      returns (r: Result<int, LedgerError>)
      modifies this`wallets, this`entries
      ensures var p := Posting(user, direction, category, amount, currency, reference);
        && Books() == Post(old(Books()), p)
        && r == match Refusal(old(Books()), p) {
                case Some(e) => Failure(e)
                case None => Success(Balance(Books(), AccountOf(p)))
              }
    {
      if user == "" { return Failure(InvalidUser); }
      if amount <= 0 { return Failure(InvalidAmount); }
      var account := Account(user, if currency == "" then "NGN" else currency);
      var balance := 0;
      if account in wallets {
        balance := wallets[account];
      } else if direction == Debit {
        return Failure(InsufficientBalance);
      }
      if direction == Debit && balance < amount { return Failure(InsufficientBalance); }
      var newBalance := if direction == Credit then balance + amount else balance - amount;
      var known := TransactionExists(reference);
      if known { return Failure(DuplicateReference); }
      wallets := wallets[account := newBalance];
      entries := entries + [Entry(account, direction, category, amount, newBalance, reference)];
      return Success(newBalance);
    }

    method TransactionExists(reference: Reference) returns (found: bool)
      ensures found <==> Exists(Books(), reference)
    {
      for i := 0 to |entries|
        invariant forall j :: 0 <= j < i ==> entries[j].reference != reference
      {
        if entries[i].reference == reference { return true; }
      }
      return false;
    }

    method MarkIntentSucceeded(id: int)
      modifies this`status
      ensures status == if id in old(status) then old(status)[id := Succeeded] else old(status)
    {
      if id in status && status[id] != Succeeded { status := status[id := Succeeded]; }
    }

    /** No guard on the status it replaces. */
    method MarkIntentFailed(id: int)
      modifies this`status
      ensures status == if id in old(status) then old(status)[id := Failed] else old(status)
    {
      if id in status { status := status[id := Failed]; }
    }

    /** `confirmPayment`, run alone. */
    method ConfirmPayment(i: Intent) returns (r: Option<LedgerError>)
      requires i.id in status
      modifies this
      ensures r == ConfirmError(old(Books()), i)
      ensures Books() == ConfirmBook(old(Books()), i)
      ensures status == old(status)[i.id := ConfirmStatus(old(Books()), i, old(status)[i.id])]
    {
      var credited := TransactionExists(Receipt(i.id));
      if !credited {
        var c := ApplyLedger(i.customer, Credit, CatAdjustment, i.amount, i.currency, Receipt(i.id));
        if c.Failure? { return Some(c.error); }
      }
      var charged := TransactionExists(Charge(i.id));
      if !charged {
        var d := ApplyLedger(i.customer, Debit, CategoryFor(i.amountType), i.amount, i.currency, Charge(i.id));
        if d.Failure? {
          if d.error == InsufficientBalance { MarkIntentFailed(i.id); }
          return Some(d.error);
        }
      }
      MarkIntentSucceeded(i.id);
      return None;
    }

    /**
     `ConfirmByReference`: only PENDING intents are looked at. A gateway with signed webhooks is
     believed; for the other one the status endpoint's answer decides.
     */
    method ConfirmByReference(i: Intent, answer: GatewayAnswer) returns (r: Option<ConfirmFailure>)
      modifies this
      ensures i.id !in old(status) ==> r == Some(IntentNotFound)
      ensures i.id in old(status) && (old(status)[i.id] != Pending || answer == StillPending || answer == Declined) ==>
                r.None?
      ensures i.id in old(status) && old(status)[i.id] == Pending && answer == Unreachable ==> r == Some(GatewayDown)
      ensures var decided := i.id in old(status) && old(status)[i.id] == Pending;
        && (decided && answer == Paid ==>
              && r == (match ConfirmError(old(Books()), i) case None => None case Some(e) => Some(InLedger(e)))
              && Books() == ConfirmBook(old(Books()), i)
              && status == old(status)[i.id := ConfirmStatus(old(Books()), i, Pending)])
        && (decided && answer == Declined ==> Books() == old(Books()) && status == old(status)[i.id := Failed])
        && (!decided || answer == StillPending || answer == Unreachable ==>
              Books() == old(Books()) && status == old(status))
    {
      r := None;
      if i.id !in status { return Some(IntentNotFound); }
      if status[i.id] != Pending { return; }
      match answer
      case Paid =>
        var e := ConfirmPayment(i);
        if e.Some? { r := Some(InLedger(e.value)); }
      case Declined => MarkIntentFailed(i.id);
      case StillPending =>
      case Unreachable => r := Some(GatewayDown);
    }

    /** `SettleBooking`: earnings, then fee; the second credit's error comes after the first is committed. */
    method SettleBooking(s: Settlement) returns (r: Option<LedgerError>)
      modifies this`wallets, this`entries
      ensures r == SettleError(old(Books()), s)
      ensures Books() == SettleBook(old(Books()), s)
      ensures r.None? && s.total > 0 ==> forall a ::
                Balance(Books(), a) == Balance(old(Books()), a) + SettledShare(s.total, s.bps, s.proUser, s.currency, a)
    {
      if s.total > 0 && SettleError(Books(), s).None? {
        forall a { SettleMovesMoney(Books(), s, a); }
      }
      if s.total <= 0 { return None; }
      var fee := RoundedShare(s.total, s.bps);
      var earnings := s.total - fee;
      var e := ApplyLedger(s.proUser, Credit, CatEarning, earnings, s.currency, Earn(s.booking));
      if e.Failure? { return Some(e.error); }
      var f := ApplyLedger(PLATFORM, Credit, CatPlatformFee, fee, s.currency, Fee(s.booking));
      if f.Failure? { return Some(f.error); }
      return None;
    }
  }

  // ----- confirmation, run alone -----

  /** A wallet short of a payment already received: the one thing that makes a retry fail. */
  predicate Short(b: Book, i: Intent) {
    Exists(b, Receipt(i.id)) && !Exists(b, Charge(i.id)) && Balance(b, WalletOf(i)) < i.amount
  }

  /** From any sound ledger a confirmation run alone succeeds exactly when the wallet is not short. */
  lemma ConfirmSucceedsIff(b: Book, i: Intent)
    requires Sound(b) && Payable(i)
    ensures ConfirmError(b, i).None? <==> !Short(b, i)
    ensures ConfirmError(b, i).None? ==>
              Exists(ConfirmBook(b, i), Receipt(i.id)) && Exists(ConfirmBook(b, i), Charge(i.id))
    ensures Sound(ConfirmBook(b, i))
  {
    var b1 := AfterReceipt(b, i);
    assert Balance(b, WalletOf(i)) >= 0;
    PostExists(b, ReceiptPosting(i), Receipt(i.id));
    PostExists(b, ReceiptPosting(i), Charge(i.id));
    PostExists(b1, ChargePosting(i), Charge(i.id));
    PostExists(b1, ChargePosting(i), Receipt(i.id));
    PostSound(b, ReceiptPosting(i));
    PostSound(b1, ChargePosting(i));
  }

  /** A confirmation of an untouched intent passes the money through: no wallet holds more or less after it. */
  lemma ConfirmMovesNothing(b: Book, i: Intent, a: Account)
    requires Sound(b) && Payable(i) && !Exists(b, Receipt(i.id)) && !Exists(b, Charge(i.id))
    ensures ConfirmError(b, i).None? && Balance(ConfirmBook(b, i), a) == Balance(b, a)
  {
    assert Balance(b, WalletOf(i)) >= 0;
    PostExists(b, ReceiptPosting(i), Charge(i.id));
  }

  /** Confirming again changes nothing and reports success. */
  lemma ConfirmIdempotent(b: Book, i: Intent)
    requires Sound(b) && Payable(i) && ConfirmError(b, i).None?
    ensures ConfirmBook(ConfirmBook(b, i), i) == ConfirmBook(b, i)
    ensures ConfirmError(ConfirmBook(b, i), i).None?
  {
    ConfirmSucceedsIff(b, i);
  }
}
