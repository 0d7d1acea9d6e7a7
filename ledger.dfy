/**
 * The card ledger of the card-management service: the balance arithmetic of
 * `CardRepository` and the card and log tables behind it.
 *
 * `UsedCredit` is a nullable decimal, and the repository computes on it with
 * C#'s lifted operators: `null + x` is null and `null > 0` is false.
 */
module Ledger {
  import opened Wrappers
  import Constants
  import opened Funds
  import opened Contracts

  /** `x + d` on a nullable decimal. */
  function LiftedAdd(x: Option<int>, d: int): (r: Option<int>)
    ensures r.Some? <==> x.Some?
    ensures r.Some? ==> r.value - x.value == d
  {
    match x
    case None => None
    case Some(v) => Some(v + d)
  }

  /** `x > 0` on a nullable decimal: false for null. */
  predicate LiftedPositive(x: Option<int>) {
    x.Some? && x.value > 0
  }

  function Min(a: int, b: int): int {
    if a <= b then a else b
  }

  /** What the card holder owns net of the credit drawn. */
  function Net(c: CardData): int
    requires c.usedCredit.Some?
  {
    c.balance - c.usedCredit.value
  }

  /** A card whose balance is not negative and whose drawn credit lies within its limit. */
  predicate Healthy(c: CardData) {
    c.balance >= 0 && 0 <= OrZero(c.usedCredit) <= OrZero(c.creditLimit)
  }

  /** The card after a successful `WithdrawAsync(amount)`: balance first, then credit. */
  function Withdrawn(c: CardData, amount: int): (r: CardData)
    ensures r.number == c.number && r.creditLimit == c.creditLimit
    ensures r.usedCredit.Some? <==> c.usedCredit.Some?
    ensures amount <= c.balance ==> r == c.(balance := c.balance - amount)
    ensures amount > c.balance ==> r.balance == 0
    // with a used-credit value the whole amount leaves the net position ...
    ensures c.usedCredit.Some? ==> Net(r) == Net(c) - amount
    // ... and an admitted withdrawal keeps the card within its limit
    ensures Healthy(c) && HasSufficientFunds(c.balance, c.creditLimit, c.usedCredit, amount) ==> Healthy(r)
  {
    if c.balance >= amount then
      c.(balance := c.balance - amount)
    else
      c.(balance := 0, usedCredit := LiftedAdd(c.usedCredit, amount - c.balance))
  }

  /** The card after a successful `DepositAsync(amount, fee)`: drawn credit is repaid first. */
  function Deposited(c: CardData, amount: int, fee: int): (r: CardData)
    ensures r.number == c.number && r.creditLimit == c.creditLimit
    ensures r.usedCredit.Some? <==> c.usedCredit.Some?
    ensures r.balance >= c.balance
    // no drawn credit: only a positive net amount reaches the balance
    ensures !LiftedPositive(c.usedCredit) ==> r == c.(balance := c.balance + Max(amount - fee, 0))
    // drawn credit: the whole net amount, even a negative one, moves the net position
    ensures LiftedPositive(c.usedCredit) ==> Net(r) == Net(c) + (amount - fee)
    ensures LiftedPositive(c.usedCredit) && amount - fee >= 0 ==> 0 <= r.usedCredit.value <= c.usedCredit.value
    ensures LiftedPositive(c.usedCredit) && amount - fee < 0 ==> r.usedCredit.value > c.usedCredit.value
    // the debt is repaid first: a net amount within it leaves the balance alone, and one
    // that covers it clears it before the rest reaches the balance
    ensures LiftedPositive(c.usedCredit) && amount - fee <= c.usedCredit.value ==> r.balance == c.balance
    ensures LiftedPositive(c.usedCredit) && amount - fee >= c.usedCredit.value ==> r.usedCredit == Some(0)
    ensures Healthy(c) && amount - fee >= 0 ==> Healthy(r)
  {
    var net := amount - fee;
    if LiftedPositive(c.usedCredit) then
      var repayment := Min(net, c.usedCredit.value);
      var rest := net - repayment;
      var repaid := c.(usedCredit := Some(c.usedCredit.value - repayment));
      if rest > 0 then repaid.(balance := repaid.balance + rest) else repaid
    else if net > 0 then
      c.(balance := c.balance + net)
    else
      c
  }

  /** A refund of a withdrawal restores the card's net position. */
  lemma RefundRestoresNet(c: CardData, amount: int)
    requires c.usedCredit.Some? && amount >= 0
    ensures Net(Deposited(Withdrawn(c, amount), amount, 0)) == Net(c)
  {
    var w := Withdrawn(c, amount);
    if !LiftedPositive(w.usedCredit) {
      assert Deposited(w, amount, 0) == w.(balance := w.balance + amount);
    }
  }

  /** On a card with no drawn credit, an admitted withdrawal followed by its refund is the identity. */
  lemma {:induction false} RefundRestoresCleanCard(c: CardData, amount: int)
    requires c.usedCredit == Some(0) && c.balance >= 0 && amount > 0
    ensures Deposited(Withdrawn(c, amount), amount, 0) == c
  {
    if amount <= c.balance {
      assert Withdrawn(c, amount) == c.(balance := c.balance - amount);
    } else {
      var w := Withdrawn(c, amount);
      assert w.usedCredit == Some(amount - c.balance) && w.balance == 0;
      assert LiftedPositive(w.usedCredit);
    }
  }

  /**
   * A refund does not undo a withdrawal that came out of the balance when the card
   * also had credit drawn: the refund repays credit instead of restoring the balance.
   */
  lemma RefundRepaysCreditFirst()
    ensures var c := CardData("1", 500, Some(1000), Some(200));
            var r := Deposited(Withdrawn(c, 300), 300, 0);
            r.balance == 300 && r.usedCredit == Some(0) && r != c
  {
    var c := CardData("1", 500, Some(1000), Some(200));
    var w := Withdrawn(c, 300);
    assert w == CardData("1", 200, Some(1000), Some(200));
    assert LiftedPositive(w.usedCredit);
    assert Deposited(w, 300, 0) == CardData("1", 300, Some(1000), Some(0));
  }

  /**
   * With a limit but a null used-credit value, a withdrawal beyond the balance is
   * admitted, empties the balance, and records the overdraft nowhere.
   */
  lemma NullUsedCreditLosesOverdraft(c: CardData, amount: int)
    requires c.usedCredit.None? && c.creditLimit.Some? && 0 <= c.balance < amount <= c.balance + c.creditLimit.value
    ensures HasSufficientFunds(c.balance, c.creditLimit, c.usedCredit, amount)
    ensures Withdrawn(c, amount) == c.(balance := 0)
  {
  }

  /** The repository scenarios of the card-management unit tests, in whole currency units. */
  lemma RepositoryScenarios()
    ensures Withdrawn(CardData("123456789", 500, Some(1000), Some(0)), 200).balance == 300
    ensures var r := Withdrawn(CardData("123456789", 100, Some(1000), Some(0)), 300);
            r.balance == 0 && r.usedCredit == Some(200)
    ensures !HasSufficientFunds(100, Some(200), Some(0), 400)
    ensures Deposited(CardData("123456789", 500, Some(1000), Some(0)), 200, 0).balance == 700
    ensures var r := Deposited(CardData("123456789", 100, Some(1000), Some(200)), 150, 0);
            r.balance == 100 && r.usedCredit == Some(50)
    ensures var r := Deposited(CardData("123456789", 100, Some(1000), Some(200)), 300, 0);
            r.balance == 200 && r.usedCredit == Some(0)
  {
  }

  /** `CardTransactionLog`; its GUID key is not modelled. */
  datatype CardLog = CardLog(cardNumber: string, amount: int, logType: Constants.LogType, createdAt: int)

  /** The card and log tables as they were when a database transaction began. */
  datatype Snapshot = Snapshot(cards: map<string, CardData>, logs: seq<CardLog>)

  /**
   * The card database: the `Cards` table keyed by its unique card number, the
   * `CardsLogs` table, and the open database transaction, if any.
   */
  class CardStore {
    var cards: map<string, CardData>
    var logs: seq<CardLog>
    var savepoint: Option<Snapshot>

    /** Every card is stored under its own number (the unique index on `CardNumber`). */
    ghost predicate Valid()
      reads this
    {
      forall n | n in cards :: cards[n].number == n
    }

    constructor (initial: seq<CardData>)
      ensures Valid() && logs == [] && savepoint == None
      ensures cards.Keys == set c | c in initial :: c.number
    {
      var m: map<string, CardData> := map[];
      var i := 0;
      while i < |initial|
        invariant 0 <= i <= |initial|
        invariant forall n | n in m :: m[n].number == n
        invariant m.Keys == set c | c in initial[..i] :: c.number
      {
        m := m[initial[i].number := initial[i]];
        assert initial[..i + 1] == initial[..i] + [initial[i]];
        i := i + 1;
      }
      assert initial[..i] == initial;
      cards := m;
      logs := [];
      savepoint := None;
    }

    /** `GetByNumberAsync` */
    function GetByNumber(number: string): (r: Option<CardData>)
      reads this
      ensures r.Some? <==> number in cards
      ensures Valid() && r.Some? ==> r.value.number == number
    {
      if number in cards then Some(cards[number]) else None
    }

    /** `AddAsync`; a second card with the same number violates the unique index and is refused. */
    method Add(card: CardData) returns (ok: bool)
      modifies this
      ensures ok <==> card.number !in old(cards)
      ensures cards == if ok then old(cards)[card.number := card] else old(cards)
      ensures logs == old(logs) && savepoint == old(savepoint)
      ensures old(Valid()) ==> Valid()
    {
      ok := card.number !in cards;
      if ok {
        cards := cards[card.number := card];
      }
    }

    /** `UpdateAsync`: writes the row of a card already stored. */
    method Update(card: CardData)
      requires card.number in cards
      modifies this
      ensures cards == old(cards)[card.number := card]
      ensures logs == old(logs) && savepoint == old(savepoint)
      ensures old(Valid()) ==> Valid()
    {
      cards := cards[card.number := card];
    }

    /** `WithdrawAsync`: refused for an unknown card or insufficient funds. */
    method Withdraw(number: string, amount: int) returns (ok: bool)
      modifies this
      ensures ok <==> number in old(cards) && HasSufficientFunds(old(cards)[number].balance, old(cards)[number].creditLimit, old(cards)[number].usedCredit, amount)
      ensures cards == if ok then old(cards)[number := Withdrawn(old(cards)[number], amount)] else old(cards)
      ensures logs == old(logs) && savepoint == old(savepoint)
      ensures old(Valid()) ==> Valid()
    {
      var found := GetByNumber(number);
      if found.None? || !HasSufficientFunds(found.value.balance, found.value.creditLimit, found.value.usedCredit, amount) {
        return false;
      }
      var card := found.value;
      if card.balance >= amount {
        card := card.(balance := card.balance - amount);
      } else {
        var remaining := amount - card.balance;
        card := card.(balance := 0, usedCredit := LiftedAdd(card.usedCredit, remaining));
      }
      cards := cards[number := card];
      ok := true;
    }

    /** `DepositAsync(amount, fee)`: the fee is taken off first; refused only for an unknown card. */
    method Deposit(number: string, amount: int, fee: int) returns (ok: bool)
      modifies this
      ensures ok <==> number in old(cards)
      ensures cards == if ok then old(cards)[number := Deposited(old(cards)[number], amount, fee)] else old(cards)
      ensures logs == old(logs) && savepoint == old(savepoint)
      ensures old(Valid()) ==> Valid()
    {
      var rest := amount - fee;
      var found := GetByNumber(number);
      if found.None? {
        return false;
      }
      var card := found.value;
      if LiftedPositive(card.usedCredit) {
        var repayment := Min(rest, card.usedCredit.GetOr(0));
        card := card.(usedCredit := Some(card.usedCredit.value - repayment));
        rest := rest - repayment;
      }
      if rest > 0 {
        card := card.(balance := card.balance + rest);
      }
      cards := cards[number := card];
      ok := true;
    }

    /** `ICardTransactionRepository.AddAsync` */
    method AppendLog(log: CardLog)
      modifies this
      ensures logs == old(logs) + [log]
      ensures cards == old(cards) && savepoint == old(savepoint)
    {
      logs := logs + [log];
    }

    /** `BeginTransactionAsync` on the handler's fresh database context. */
    method BeginTransaction()
      modifies this
      ensures savepoint == Some(Snapshot(old(cards), old(logs)))
      ensures cards == old(cards) && logs == old(logs)
    {
      savepoint := Some(Snapshot(cards, logs));
    }

    method Commit()
      modifies this
      ensures savepoint == None
      ensures cards == old(cards) && logs == old(logs)
    {
      savepoint := None;
    }

    /**
     * `RollbackAsync`: restores the open transaction's rollback point. The SQL Server
     * provider refuses to roll back a transaction already committed or rolled back: that
     * call throws and changes nothing.
     */
    method Rollback() returns (threw: bool)
      modifies this
      ensures threw <==> old(savepoint).None?
      ensures savepoint == None
      ensures old(savepoint).Some? ==> cards == old(savepoint).value.cards && logs == old(savepoint).value.logs
      ensures threw ==> cards == old(cards) && logs == old(logs)
    {
      if savepoint.None? {
        return true;
      }
      cards := savepoint.value.cards;
      logs := savepoint.value.logs;
      savepoint := None;
      return false;
    }

    /** The disposal that ends `await using`: a transaction still open is rolled back; a finished one is left alone. */
    method Dispose()
      modifies this
      ensures savepoint == None
      ensures old(savepoint).Some? ==> cards == old(savepoint).value.cards && logs == old(savepoint).value.logs
      ensures old(savepoint).None? ==> cards == old(cards) && logs == old(logs)
    {
      if savepoint.Some? {
        cards := savepoint.value.cards;
        logs := savepoint.value.logs;
      }
      savepoint := None;
    }
  }
}
