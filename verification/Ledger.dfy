/**
 Wallets and their append-only ledger (internal/payments/store.go, `applyLedger`). Money is
 integer cents. A ledger reference is a fixed prefix and an id; the prefixes of the source
 never collide, so a datatype stands for the string.
 */
module Ledger {
  import opened Options

  datatype Account = Account(user: string, currency: string)

  datatype Direction = Debit | Credit

  datatype Category =
    | CatDeposit | CatBalance | CatFull | CatRefund | CatEarning | CatPlatformFee | CatPayout | CatAdjustment

  datatype Reference =
    | Receipt(intent: int) | Charge(intent: int) | Earn(booking: int) | Fee(booking: int) | PayoutRef(n: int)

  datatype Posting = Posting(user: string, direction: Direction, category: Category, amount: int,
                             currency: string, reference: Reference)

  datatype Entry = Entry(account: Account, direction: Direction, category: Category, amount: int,
                         balanceAfter: int, reference: Reference)

  datatype Book = Book(wallets: map<Account, int>, entries: seq<Entry>)

  const EMPTY := Book(map[], [])

  datatype LedgerError = InvalidUser | InvalidAmount | InsufficientBalance | DuplicateReference

  /** A missing currency means naira. */
  function AccountOf(p: Posting): Account {
    Account(p.user, if p.currency == "" then "NGN" else p.currency)
  }

  /** A wallet that does not exist has balance 0. */
  function Balance(b: Book, a: Account): int {
    if a in b.wallets then b.wallets[a] else 0
  }

  /** `TransactionExists`. */
  predicate Exists(b: Book, r: Reference) {
    exists i :: 0 <= i < |b.entries| && b.entries[i].reference == r
  }

  /** Why `applyLedger` refuses a posting, tested in this order; the unique key is the last test. */
  function Refusal(b: Book, p: Posting): Option<LedgerError> {
    if p.user == "" then Some(InvalidUser)
    else if p.amount <= 0 then Some(InvalidAmount)
    else if p.direction == Debit && Balance(b, AccountOf(p)) < p.amount then Some(InsufficientBalance)
    else if Exists(b, p.reference) then Some(DuplicateReference)
    else None
  }

  function NewBalance(b: Book, p: Posting): int {
    if p.direction == Credit then Balance(b, AccountOf(p)) + p.amount else Balance(b, AccountOf(p)) - p.amount
  }

  function Post(b: Book, p: Posting): Book {
    if Refusal(b, p).Some? then b
    else Book(b.wallets[AccountOf(p) := NewBalance(b, p)],
              b.entries + [Entry(AccountOf(p), p.direction, p.category, p.amount, NewBalance(b, p), p.reference)])
  }

  // ----- what the entries say -----

  function Signed(e: Entry, a: Account): int {
    if e.account != a then 0 else if e.direction == Credit then e.amount else -e.amount
  }

  /** Credits minus debits of the account over the first k entries. */
  function Net(entries: seq<Entry>, a: Account, k: nat): int
    requires k <= |entries|
  {
    if k == 0 then 0 else Net(entries, a, k - 1) + Signed(entries[k - 1], a)
  }

  /** Balances are the sums of the entries and never negative; references are unique. */
  ghost predicate Sound(b: Book) {
    && (forall a :: Balance(b, a) == Net(b.entries, a, |b.entries|))
    && (forall a :: Balance(b, a) >= 0)
    && (forall i {:trigger b.entries[i]} :: 0 <= i < |b.entries| ==>
          && b.entries[i].amount > 0
          && b.entries[i].balanceAfter >= 0
          && b.entries[i].balanceAfter == Net(b.entries, b.entries[i].account, i + 1))
    && (forall i, j :: 0 <= i < j < |b.entries| ==> b.entries[i].reference != b.entries[j].reference)
  }

  lemma {:induction false} NetPrefix(entries: seq<Entry>, more: seq<Entry>, a: Account, k: nat)
    requires k <= |entries|
    ensures Net(entries + more, a, k) == Net(entries, a, k)
  {
    if k > 0 {
      NetPrefix(entries, more, a, k - 1);
      assert (entries + more)[k - 1] == entries[k - 1];
    }
  }

  lemma NetSnoc(entries: seq<Entry>, e: Entry, a: Account)
    ensures Net(entries + [e], a, |entries| + 1) == Net(entries, a, |entries|) + Signed(e, a)
  {
    NetPrefix(entries, [e], a, |entries|);
  }

  lemma PostSound(b: Book, p: Posting)
    requires Sound(b)
    ensures Sound(Post(b, p))
  {
    if Refusal(b, p).None? {
      var b' := Post(b, p);
      var e := b'.entries[|b.entries|];
      forall a ensures Balance(b', a) == Net(b'.entries, a, |b'.entries|) && Balance(b', a) >= 0 {
        NetSnoc(b.entries, e, a);
        assert Balance(b, a) >= 0;
      }
      forall i {:trigger b'.entries[i]} | 0 <= i < |b'.entries|
        ensures && b'.entries[i].amount > 0 && b'.entries[i].balanceAfter >= 0
                && b'.entries[i].balanceAfter == Net(b'.entries, b'.entries[i].account, i + 1)
      {
        if i < |b.entries| {
          NetPrefix(b.entries, [e], b.entries[i].account, i + 1);
        } else {
          assert Balance(b', e.account) == e.balanceAfter;
        }
      }
    }
  }

  /** The ledger after the first k of a list of attempted postings. */
  function PostAll(ps: seq<Posting>, k: nat): Book
    requires k <= |ps|
  {
    if k == 0 then EMPTY else Post(PostAll(ps, k - 1), ps[k - 1])
  }

  /** In every run balances are credits minus debits, never negative, and references never repeat. */
  lemma {:induction false} LedgerSound(ps: seq<Posting>, k: nat)
    requires k <= |ps|
    ensures Sound(PostAll(ps, k))
  {
    if k > 0 {
      LedgerSound(ps, k - 1);
      PostSound(PostAll(ps, k - 1), ps[k - 1]);
    }
  }

  /** Not even in between: after any number of committed entries each account's sum is non-negative. */
  lemma {:induction false} NeverOverdrawn(b: Book, a: Account, k: nat)
    requires Sound(b) && k <= |b.entries|
    ensures Net(b.entries, a, k) >= 0
  {
    if k > 0 {
      NeverOverdrawn(b, a, k - 1);
      if b.entries[k - 1].account == a {
        assert b.entries[k - 1].balanceAfter == Net(b.entries, a, k);
      }
    }
  }

  lemma PostExists(b: Book, p: Posting, r: Reference)
    ensures Exists(Post(b, p), r) <==> Exists(b, r) || (Refusal(b, p).None? && p.reference == r)
  {
    if Refusal(b, p).None? {
      var b' := Post(b, p);
      assert b'.entries[|b.entries|].reference == p.reference;
      if i :| 0 <= i < |b.entries| && b.entries[i].reference == r {
        assert b'.entries[i].reference == r;
      }
    }
  }
}
