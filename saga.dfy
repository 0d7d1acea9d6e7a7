/**
 * Runs of the transfer saga across the three services, each consumer handling the event
 * the previous one published.
 */
module Saga {
  import opened Wrappers
  import opened Constants
  import opened Funds
  import opened Contracts
  import opened Ledger
  import opened Caching
  import opened CardEvents
  import opened Transactions
  import CacheKeys

  /** A bus that grew by one event ending in `m` grew by `[m]`. */
  lemma PublishedOne(before: seq<Message>, after: seq<Message>, m: Message)
    requires |after| == |before| + 1 && after[..|before|] == before && after[|before|] == m
    ensures after == before + [m]
  {
  }

  /**
   * The debit half of an admitted transfer: the record is made, the sender debited and
   * logged, the record marked withdrawn, and the deposit requested. The record and withdraw
   * steps are the corrected handlers, which do what the handlers as written do when nothing fails.
   */
  method DebitPhase(cards: CardStore, cache: Cache, txs: TransactionStore, bus: Bus,
                    id: TxId, sender: string, recipient: string, amount: int, now: int)
    requires cards.Valid() && txs.Valid()
    requires id !in txs.transactions
    requires Admits(cards.cards, sender, amount)
    modifies cards, cache, txs, bus
    ensures cards.Valid() && txs.Valid()
    ensures cards.cards == old(cards.cards)[sender := Ledger.Withdrawn(old(cards.cards)[sender], amount)]
    ensures cards.logs == old(cards.logs) + [CardLog(sender, -amount, Withdrawal, now)]
    ensures txs.transactions == old(txs.transactions)[id := CardTransaction(id, sender, recipient, amount, Withdrawn, now, Some(now))]
    ensures bus.published == old(bus.published) + [WithdrawFunds(id, sender, recipient, amount), FundsWithdrawn(id, sender, recipient, amount),
                                                   DepositFunds(id, recipient, sender, amount)]
    ensures cache.entries == old(cache.entries) && cache.locks == old(cache.locks)
  {
    ConsumeTransactionAuthorizedCorrected(txs, bus, id, sender, recipient, amount, now, RecordNoFault);
    ghost var published := bus.published;
    ConsumeWithdrawFundsCorrected(cards, cache, bus, id, sender, recipient, amount, now, WithdrawNoFault);
    PublishedOne(published, bus.published, FundsWithdrawn(id, sender, recipient, amount));
    ConsumeFundsWithdrawn(txs, bus, id, sender, recipient, amount, now, StepNoFault);
  }

  /**
   * A transfer the authorization service admitted, run to completion with no failures: the
   * sender is debited the amount, the recipient credited the amount less the fee, both moves
   * logged, the record completed, and the sender's transfer lock is still held.
   */
  method Transfer(cards: CardStore, cache: Cache, txs: TransactionStore, bus: Bus,
                  id: TxId, sender: string, recipient: string, amount: int, now: int)
    requires cards.Valid() && txs.Valid()
    requires id !in txs.transactions
    requires sender in cache.locks
    requires Admits(cards.cards, sender, amount)
    requires recipient in cards.cards && sender != recipient
    requires FeeIn(cache.entries, CacheKeys.PaymentFee()) != 0
    modifies cards, cache, txs, bus
    ensures var fee := FeeIn(old(cache.entries), CacheKeys.PaymentFee());
            && cards.cards == old(cards.cards)[sender := Ledger.Withdrawn(old(cards.cards)[sender], amount)]
                                              [recipient := Deposited(old(cards.cards)[recipient], amount, fee)]
            && cards.logs == old(cards.logs) + [CardLog(sender, -amount, Withdrawal, now), CardLog(recipient, amount, Deposit, now)]
            && bus.published == old(bus.published) + [WithdrawFunds(id, sender, recipient, amount), FundsWithdrawn(id, sender, recipient, amount),
                                                      DepositFunds(id, recipient, sender, amount), TransactionCompleted(id)]
    ensures id in txs.transactions && txs.transactions[id].status == Completed
    ensures txs.transactions[id].senderNumber == sender && txs.transactions[id].recipientNumber == recipient && txs.transactions[id].amount == amount
    ensures sender in cache.locks
  {
    DebitPhase(cards, cache, txs, bus, id, sender, recipient, amount, now);
    ghost var published := bus.published;
    ConsumeDepositFundsCorrected(cards, cache, bus, id, recipient, sender, amount, now, DepositNoFault);
    PublishedOne(published, bus.published, TransactionCompleted(id));
    ConsumeTransactionCompleted(txs, id, now, false);
  }

  /** In a completed transfer the fee leaves the two cards' combined net position, and nothing else does. */
  lemma TransferMovesAmountLessFee(s: CardData, r: CardData, amount: int, fee: int)
    requires s.usedCredit.Some? && r.usedCredit.Some?
    requires amount > fee
    ensures Net(Ledger.Withdrawn(s, amount)) == Net(s) - amount
    ensures Net(Deposited(r, amount, fee)) == Net(r) + amount - fee
    ensures Net(Ledger.Withdrawn(s, amount)) + Net(Deposited(r, amount, fee)) == Net(s) + Net(r) - fee
  {
  }

  /**
   * A transfer to a card the ledger does not know, admitted on a stale or foreign view: the
   * deposit fails, the sender is refunded, and the record ends refunded with the sender's
   * net position restored; the sender's lock is still held.
   */
  method TransferToUnknownRecipient(cards: CardStore, cache: Cache, txs: TransactionStore, bus: Bus,
                                    id: TxId, sender: string, recipient: string, amount: int, now: int)
    requires cards.Valid() && txs.Valid()
    requires id !in txs.transactions
    requires sender in cache.locks
    requires Admits(cards.cards, sender, amount)
    requires recipient !in cards.cards
    requires FeeIn(cache.entries, CacheKeys.PaymentFee()) != 0
    modifies cards, cache, txs, bus
    ensures cards.cards == old(cards.cards)[sender := Deposited(Ledger.Withdrawn(old(cards.cards)[sender], amount), amount, 0)]
    ensures old(cards.cards)[sender].usedCredit.Some? && amount >= 0 ==> Net(cards.cards[sender]) == Net(old(cards.cards)[sender])
    ensures cards.logs == old(cards.logs) + [CardLog(sender, -amount, Withdrawal, now), CardLog(sender, amount, Refund, now)]
    ensures bus.published == old(bus.published) + [WithdrawFunds(id, sender, recipient, amount), FundsWithdrawn(id, sender, recipient, amount),
                                                   DepositFunds(id, recipient, sender, amount),
                                                   TransactionFailed(id, InvalidRecipient, true, Some(sender), Some(amount)),
                                                   RefundRequested(id, sender, amount), TransactionRefunded(id)]
    ensures id in txs.transactions && txs.transactions[id].status == Refunded
    ensures sender in cache.locks
  {
    DebitPhase(cards, cache, txs, bus, id, sender, recipient, amount, now);
    ghost var published := bus.published;
    ConsumeDepositFundsCorrected(cards, cache, bus, id, recipient, sender, amount, now, DepositNoFault);
    PublishedOne(published, bus.published, TransactionFailed(id, InvalidRecipient, true, Some(sender), Some(amount)));
    ConsumeTransactionFailed(txs, bus, id, true, Some(sender), Some(amount), now, StepNoFault);
    ConsumeRefundRequested(cards, bus, id, sender, amount, now, RefundNoFault);
    ConsumeTransactionRefunded(txs, id, now, false);
    if old(cards.cards)[sender].usedCredit.Some? && amount >= 0 {
      RefundRestoresNet(old(cards.cards)[sender], amount);
    }
  }

  /**
   * As written, a withdrawal whose log write fails is rolled back, yet the failure asks for a
   * refund: the sender ends credited with an amount that never left the card.
   */
  method WithdrawLogFailureRefundsUnpaidAmount(cards: CardStore, cache: Cache, txs: TransactionStore, bus: Bus,
                                               id: TxId, sender: string, recipient: string, amount: int, now: int)
    requires cards.Valid() && txs.Valid()
    requires Admits(cards.cards, sender, amount) && amount > 0
    modifies cards, cache, txs, bus
    ensures cards.cards == old(cards.cards)[sender := Deposited(old(cards.cards)[sender], amount, 0)]
    ensures old(cards.cards)[sender].usedCredit.Some? ==> Net(cards.cards[sender]) == Net(old(cards.cards)[sender]) + amount
    ensures bus.published == old(bus.published) + [TransactionFailed(id, ServerError, true, Some(sender), Some(amount)),
                                                   RefundRequested(id, sender, amount), TransactionRefunded(id)]
  {
    var escaped := ConsumeWithdrawFunds(cards, cache, bus, id, sender, recipient, amount, now, WithdrawLogThrows);
    PublishedOne(old(bus.published), bus.published, TransactionFailed(id, ServerError, true, Some(sender), Some(amount)));
    ConsumeTransactionFailed(txs, bus, id, true, Some(sender), Some(amount), now, StepNoFault);
    ConsumeRefundRequested(cards, bus, id, sender, amount, now, RefundNoFault);
    ConsumeTransactionRefunded(txs, id, now, false);
  }

  /** With the corrected withdrawal the same failure leaves the card untouched and fails the transfer without a refund. */
  method WithdrawLogFailureCorrected(cards: CardStore, cache: Cache, txs: TransactionStore, bus: Bus,
                                     id: TxId, sender: string, recipient: string, amount: int, now: int)
    requires cards.Valid() && txs.Valid()
    requires Admits(cards.cards, sender, amount)
    modifies cards, cache, txs, bus
    ensures cards.cards == old(cards.cards) && cards.logs == old(cards.logs)
    ensures bus.published == old(bus.published) + [TransactionFailed(id, ServerError, false, Some(sender), Some(amount))]
    ensures id in old(txs.transactions) ==> id in txs.transactions && txs.transactions[id].status == Failed
    ensures sender !in cache.locks
  {
    ConsumeWithdrawFundsCorrected(cards, cache, bus, id, sender, recipient, amount, now, WithdrawLogThrows);
    PublishedOne(old(bus.published), bus.published, TransactionFailed(id, ServerError, false, Some(sender), Some(amount)));
    ConsumeTransactionFailed(txs, bus, id, false, Some(sender), Some(amount), now, StepNoFault);
  }

  /**
   * As written, a deposit committed but not announced makes the catch block's rollback throw:
   * the recipient is credited, yet no event reaches the transaction service, so the record
   * is never moved on.
   */
  method CompletionLostAfterDeposit(cards: CardStore, cache: Cache, bus: Bus,
                                    id: TxId, sender: string, recipient: string, amount: int, now: int)
    returns (escaped: bool)
    requires cards.Valid()
    requires recipient in cards.cards
    requires FeeIn(cache.entries, CacheKeys.PaymentFee()) != 0
    modifies cards, bus
    ensures escaped
    ensures cards.cards == old(cards.cards)[recipient := Deposited(old(cards.cards)[recipient], amount, FeeIn(old(cache.entries), CacheKeys.PaymentFee()))]
    ensures bus.published == old(bus.published)
  {
    escaped := ConsumeDepositFunds(cards, cache, bus, id, recipient, sender, amount, now, DepositPublishThrows);
  }

  /**
   * With the corrected deposit the same failure fails the transfer without a refund: the
   * recipient keeps the credit, the sender is not paid back, and the record ends failed.
   */
  method CompletionLostAfterDepositCorrected(cards: CardStore, cache: Cache, txs: TransactionStore, bus: Bus,
                                             id: TxId, sender: string, recipient: string, amount: int, now: int)
    requires cards.Valid() && txs.Valid()
    requires id in txs.transactions
    requires recipient in cards.cards
    requires FeeIn(cache.entries, CacheKeys.PaymentFee()) != 0
    modifies cards, cache, txs, bus
    ensures cards.cards == old(cards.cards)[recipient := Deposited(old(cards.cards)[recipient], amount, FeeIn(old(cache.entries), CacheKeys.PaymentFee()))]
    ensures id in txs.transactions && txs.transactions[id].status == Failed
    ensures bus.published == old(bus.published) + [TransactionFailed(id, ServerError, false, None, None)]
  {
    ConsumeDepositFundsCorrected(cards, cache, bus, id, recipient, sender, amount, now, DepositPublishThrows);
    PublishedOne(old(bus.published), bus.published, TransactionFailed(id, ServerError, false, None, None));
    ConsumeTransactionFailed(txs, bus, id, false, None, None, now, StepNoFault);
  }

  /**
   * The compensation branch after a refund-bearing failure: the record is marked and the
   * refund requested, the card is credited back without a fee and logged, and the record
   * ends refunded.
   */
  method RefundPhase(cards: CardStore, txs: TransactionStore, bus: Bus, id: TxId, sender: string, amount: int, now: int)
    requires cards.Valid() && txs.Valid()
    requires id in txs.transactions && sender in cards.cards
    modifies cards, txs, bus
    ensures cards.Valid() && txs.Valid()
    ensures cards.cards == old(cards.cards)[sender := Deposited(old(cards.cards)[sender], amount, 0)]
    ensures cards.logs == old(cards.logs) + [CardLog(sender, amount, Refund, now)]
    ensures bus.published == old(bus.published) + [RefundRequested(id, sender, amount), TransactionRefunded(id)]
    ensures id in txs.transactions && txs.transactions[id].status == Refunded
  {
    ConsumeTransactionFailed(txs, bus, id, true, Some(sender), Some(amount), now, StepNoFault);
    ConsumeRefundRequested(cards, bus, id, sender, amount, now, RefundNoFault);
    ConsumeTransactionRefunded(txs, id, now, false);
  }

  /**
   * As written, a withdrawal committed but not handed over makes the catch block's rollback
   * throw: the sender is debited, keeps the transfer lock, and no event asks for a refund.
   */
  method WithdrawnFundsStranded(cards: CardStore, cache: Cache, bus: Bus,
                                id: TxId, sender: string, recipient: string, amount: int, now: int)
    returns (escaped: bool)
    requires cards.Valid()
    requires Admits(cards.cards, sender, amount)
    requires sender in cache.locks
    modifies cards, cache, bus
    ensures escaped
    ensures cards.cards == old(cards.cards)[sender := Ledger.Withdrawn(old(cards.cards)[sender], amount)]
    ensures sender in cache.locks
    ensures bus.published == old(bus.published)
  {
    escaped := ConsumeWithdrawFunds(cards, cache, bus, id, sender, recipient, amount, now, WithdrawPublishThrows);
  }

  /**
   * With the corrected withdrawal the same failure asks for the refund: the sender is debited
   * and credited back, the record ends refunded, and the lock is released.
   */
  method WithdrawnFundsRefundedCorrected(cards: CardStore, cache: Cache, txs: TransactionStore, bus: Bus,
                                         id: TxId, sender: string, recipient: string, amount: int, now: int)
    requires cards.Valid() && txs.Valid()
    requires id in txs.transactions
    requires Admits(cards.cards, sender, amount)
    modifies cards, cache, txs, bus
    ensures cards.cards == old(cards.cards)[sender := Deposited(Ledger.Withdrawn(old(cards.cards)[sender], amount), amount, 0)]
    ensures old(cards.cards)[sender].usedCredit.Some? && amount >= 0 ==> Net(cards.cards[sender]) == Net(old(cards.cards)[sender])
    ensures bus.published == old(bus.published) + [TransactionFailed(id, ServerError, true, Some(sender), Some(amount)),
                                                   RefundRequested(id, sender, amount), TransactionRefunded(id)]
    ensures id in txs.transactions && txs.transactions[id].status == Refunded
    ensures sender !in cache.locks
  {
    ConsumeWithdrawFundsCorrected(cards, cache, bus, id, sender, recipient, amount, now, WithdrawPublishThrows);
    PublishedOne(old(bus.published), bus.published, TransactionFailed(id, ServerError, true, Some(sender), Some(amount)));
    RefundPhase(cards, txs, bus, id, sender, amount, now);
    if old(cards.cards)[sender].usedCredit.Some? && amount >= 0 {
      RefundRestoresNet(old(cards.cards)[sender], amount);
    }
  }

  /**
   * As written, a record committed but whose withdrawal request cannot be published makes the
   * catch block's rollback throw: the record stays authorized and nothing moves the saga on.
   */
  method AuthorizedRecordStranded(txs: TransactionStore, bus: Bus, id: TxId, sender: string, recipient: string, amount: int, now: int)
    returns (escaped: bool)
    requires txs.Valid()
    requires id !in txs.transactions
    modifies txs, bus
    ensures escaped
    ensures id in txs.transactions && txs.transactions[id].status == TransactionStatus.Authorized
    ensures bus.published == old(bus.published)
  {
    escaped := ConsumeTransactionAuthorized(txs, bus, id, sender, recipient, amount, now, RecordPublishThrows);
  }

  /** With the corrected handler the same failure fails the transfer, and the record ends failed. */
  method AuthorizedRecordFailedCorrected(txs: TransactionStore, bus: Bus, id: TxId, sender: string, recipient: string, amount: int, now: int)
    requires txs.Valid()
    requires id !in txs.transactions
    modifies txs, bus
    ensures id in txs.transactions && txs.transactions[id].status == Failed
    ensures bus.published == old(bus.published) + [TransactionFailed(id, ServerError, false, None, None)]
  {
    ConsumeTransactionAuthorizedCorrected(txs, bus, id, sender, recipient, amount, now, RecordPublishThrows);
    ConsumeTransactionFailed(txs, bus, id, false, None, None, now, StepNoFault);
  }

  /** Status changes are not guarded: a late completion turns a refunded transfer into a completed one. */
  method LateCompletionOverwritesRefund(txs: TransactionStore, id: TxId, now: int)
    requires id in txs.transactions && txs.transactions[id].status == Refunded
    modifies txs
    ensures id in txs.transactions && txs.transactions[id].status == Completed
  {
    ConsumeTransactionCompleted(txs, id, now, false);
  }
}
