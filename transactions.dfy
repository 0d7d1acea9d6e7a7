/** The transaction service: the transfer records and the saga consumers that move their status. */
module Transactions {
  import opened Wrappers
  import opened Constants
  import opened Contracts

  /** `CardTransaction`; `updatedAt` is `None` while the column still holds its default value, before the first status change. */
  datatype CardTransaction = CardTransaction(
    id: TxId, senderNumber: string, recipientNumber: string, amount: int,
    status: TransactionStatus, createdAt: int, updatedAt: Option<int>)

  /**
   * Every record of `before` is still in `after`, for the same transfer: who pays whom, how
   * much, and when the record was made.
   */
  ghost predicate KeepsTransfers(before: map<TxId, CardTransaction>, after: map<TxId, CardTransaction>) {
    forall id | id in before ::
      && id in after
      && after[id].id == before[id].id
      && after[id].senderNumber == before[id].senderNumber && after[id].recipientNumber == before[id].recipientNumber
      && after[id].amount == before[id].amount && after[id].createdAt == before[id].createdAt
  }

  /** The `Transactions` table keyed by transaction id, and the open database transaction, if any. */
  class TransactionStore {
    var transactions: map<TxId, CardTransaction>
    var savepoint: Option<map<TxId, CardTransaction>>

    /** Every record is stored under its own id. */
    ghost predicate Valid()
      reads this
    {
      forall id | id in transactions :: transactions[id].id == id
    }

    constructor ()
      ensures transactions == map[] && savepoint == None && Valid()
    {
      transactions := map[];
      savepoint := None;
    }

    /** `GetByIdAsync` */
    function GetById(id: TxId): (r: Option<CardTransaction>)
      reads this
      ensures r.Some? <==> id in transactions
      ensures Valid() && r.Some? ==> r.value.id == id
    {
      if id in transactions then Some(transactions[id]) else None
    }

    /** `AddTransactionAsync`; a second record with the same id violates the key and is refused. */
    method Add(t: CardTransaction) returns (ok: bool)
      modifies this
      ensures ok <==> t.id !in old(transactions)
      ensures transactions == if ok then old(transactions)[t.id := t] else old(transactions)
      ensures KeepsTransfers(old(transactions), transactions)
      ensures savepoint == old(savepoint)
      ensures old(Valid()) ==> Valid()
    {
      ok := t.id !in transactions;
      if ok {
        transactions := transactions[t.id := t];
      }
    }

    /** `UpdateStatusAsync`: sets the status and the update time of a known record; an unknown id is ignored. */
    method UpdateStatus(id: TxId, status: TransactionStatus, now: int)
      modifies this
      ensures id in old(transactions) ==>
                transactions == old(transactions)[id := old(transactions)[id].(status := status, updatedAt := Some(now))]
      ensures id !in old(transactions) ==> transactions == old(transactions)
      ensures KeepsTransfers(old(transactions), transactions)
      ensures savepoint == old(savepoint)
      ensures old(Valid()) ==> Valid()
    {
      var t := GetById(id);
      if t.Some? {
        transactions := transactions[id := t.value.(status := status, updatedAt := Some(now))];
      }
    }

    method BeginTransaction()
      modifies this
      ensures savepoint == Some(old(transactions)) && transactions == old(transactions)
    {
      savepoint := Some(transactions);
    }

    method Commit()
      modifies this
      ensures savepoint == None && transactions == old(transactions)
    {
      savepoint := None;
    }

    /**
     * `RollbackAsync`: restores the open transaction's rollback point. On a transaction
     * already committed or rolled back the SQL Server provider throws and nothing changes.
     */
    method Rollback() returns (threw: bool)
      modifies this
      ensures threw <==> old(savepoint).None?
      ensures savepoint == None
      ensures transactions == if old(savepoint).Some? then old(savepoint).value else old(transactions)
    {
      if savepoint.None? {
        return true;
      }
      transactions := savepoint.value;
      savepoint := None;
      return false;
    }

    /** The disposal that ends `await using`: a transaction still open is rolled back; a finished one is left alone. */
    method Dispose()
      modifies this
      ensures savepoint == None
      ensures transactions == if old(savepoint).Some? then old(savepoint).value else old(transactions)
    {
      if savepoint.Some? {
        transactions := savepoint.value;
      }
      savepoint := None;
    }
  }

  /** Which call of `TransactionAuthorizedEventHandler` throws, if any. */
  datatype RecordFault = RecordNoFault | RecordAddThrows | RecordCommitThrows | RecordPublishThrows

  /**
   * `TransactionAuthorizedEventHandler.Consume`: records the transfer as authorized in a database
   * transaction, then asks for the withdrawal. A failure before the commit rolls back and fails
   * the transfer without a refund; a failure to ask for the withdrawal comes after the commit,
   * so the catch block's rollback throws and the record stays authorized with no event at all.
   */
  method ConsumeTransactionAuthorized(store: TransactionStore, bus: Bus, id: TxId, sender: string, recipient: string,
                               amount: int, now: int, fault: RecordFault) returns (escaped: bool)
    modifies store, bus
    ensures var recorded := fault != RecordAddThrows && id !in old(store.transactions) && fault != RecordCommitThrows;
            && (escaped <==> recorded && fault == RecordPublishThrows)
            && store.transactions == (if recorded then old(store.transactions)[id := CardTransaction(id, sender, recipient, amount, TransactionStatus.Authorized, now, None)]
                                      else old(store.transactions))
            && bus.published == old(bus.published) +
                 (if escaped then []
                  else [if recorded then WithdrawFunds(id, sender, recipient, amount) else TransactionFailed(id, ServerError, false, None, None)])
    ensures KeepsTransfers(old(store.transactions), store.transactions)
    ensures store.savepoint == None
    ensures old(store.Valid()) ==> store.Valid()
  {
    store.BeginTransaction();
    var failed := true;
    if fault != RecordAddThrows {
      var added := store.Add(CardTransaction(id, sender, recipient, amount, TransactionStatus.Authorized, now, None));
      if added && fault != RecordCommitThrows {
        store.Commit();
        if fault != RecordPublishThrows {
          bus.Publish(WithdrawFunds(id, sender, recipient, amount));
          failed := false;
        }
      }
    }
    escaped := false;
    if failed {
      escaped := store.Rollback();
      if escaped {
        return;
      }
      bus.Publish(TransactionFailed(id, ServerError, false, None, None));
    } else {
      store.Dispose();
    }
  }

  /**
   * `ConsumeTransactionAuthorized` with the catch block rolling back only a transaction still
   * open, so that every failure fails the transfer without a refund; a record already committed stays.
   */
  method ConsumeTransactionAuthorizedCorrected(store: TransactionStore, bus: Bus, id: TxId, sender: string, recipient: string,
                                               amount: int, now: int, fault: RecordFault)
    modifies store, bus
    ensures var recorded := fault != RecordAddThrows && id !in old(store.transactions) && fault != RecordCommitThrows;
            && store.transactions == (if recorded then old(store.transactions)[id := CardTransaction(id, sender, recipient, amount, TransactionStatus.Authorized, now, None)]
                                      else old(store.transactions))
            && bus.published == old(bus.published) +
                 [if recorded && fault != RecordPublishThrows then WithdrawFunds(id, sender, recipient, amount)
                  else TransactionFailed(id, ServerError, false, None, None)]
    ensures KeepsTransfers(old(store.transactions), store.transactions)
    ensures store.savepoint == None
    ensures old(store.Valid()) ==> store.Valid()
  {
    store.BeginTransaction();
    var failed := true;
    if fault != RecordAddThrows {
      var added := store.Add(CardTransaction(id, sender, recipient, amount, TransactionStatus.Authorized, now, None));
      if added && fault != RecordCommitThrows {
        store.Commit();
        if fault != RecordPublishThrows {
          bus.Publish(WithdrawFunds(id, sender, recipient, amount));
          failed := false;
        }
      }
    }
    store.Dispose();
    if failed {
      bus.Publish(TransactionFailed(id, ServerError, false, None, None));
    }
  }

  /** Which call of a status-then-publish consumer throws, if any. */
  datatype StepFault = StepNoFault | StatusThrows | StepPublishThrows

  /**
   * `FundsWithdrawnEventHandler.Consume`: marks the transfer as withdrawn and asks for the
   * deposit to the recipient; a failure asks for the sender to be refunded.
   */
  method ConsumeFundsWithdrawn(store: TransactionStore, bus: Bus, id: TxId, sender: string, recipient: string,
                        amount: int, now: int, fault: StepFault)
    modifies store
    modifies bus
    ensures fault != StatusThrows && id in old(store.transactions) ==>
              store.transactions == old(store.transactions)[id := old(store.transactions)[id].(status := Withdrawn, updatedAt := Some(now))]
    ensures fault == StatusThrows || id !in old(store.transactions) ==> store.transactions == old(store.transactions)
    // the deposit goes to the recipient on the sender's behalf; otherwise the sender gets the amount back
    ensures bus.published == old(bus.published) +
              [if fault == StepNoFault then DepositFunds(id, recipient, sender, amount)
               else TransactionFailed(id, ServerError, true, Some(sender), Some(amount))]
    ensures KeepsTransfers(old(store.transactions), store.transactions)
    ensures store.savepoint == old(store.savepoint)
    ensures old(store.Valid()) ==> store.Valid()
  {
    if fault != StatusThrows {
      store.UpdateStatus(id, Withdrawn, now);
      if fault != StepPublishThrows {
        bus.Publish(DepositFunds(id, recipient, sender, amount));
        return;
      }
    }
    bus.Publish(TransactionFailed(id, ServerError, true, Some(sender), Some(amount)));
  }

  /** The status a failure leaves the transfer in. */
  function FailedStatus(needRefund: bool): (s: TransactionStatus)
    ensures s == RefundPending <==> needRefund
    ensures s == Failed <==> !needRefund
  {
    if needRefund then RefundPending else Failed
  }

  /**
   * `TransactionFailedEventHandler.Consume`: marks the transfer as refund-pending or failed and,
   * when the failure carries a card and an amount to refund, requests the refund.
   * A failure is only logged.
   */
  method ConsumeTransactionFailed(store: TransactionStore, bus: Bus, id: TxId, needRefund: bool,
                           refundCard: Option<string>, refundAmount: Option<int>, now: int, fault: StepFault)
    modifies store, bus
    ensures fault != StatusThrows && id in old(store.transactions) ==>
              store.transactions == old(store.transactions)[id := old(store.transactions)[id].(status := FailedStatus(needRefund), updatedAt := Some(now))]
    ensures fault == StatusThrows || id !in old(store.transactions) ==> store.transactions == old(store.transactions)
    // a refund is requested exactly for a refund-bearing failure that names the card and the amount
    ensures bus.published == old(bus.published) +
              (if fault == StepNoFault && needRefund && refundCard.Some? && refundAmount.Some?
               then [RefundRequested(id, refundCard.value, refundAmount.value)] else [])
    ensures KeepsTransfers(old(store.transactions), store.transactions)
    ensures store.savepoint == old(store.savepoint)
    ensures old(store.Valid()) ==> store.Valid()
  {
    if fault == StatusThrows {
      return;
    }
    store.UpdateStatus(id, if needRefund then RefundPending else Failed, now);
    if needRefund && refundCard.Some? && refundAmount.Some? && fault != StepPublishThrows {
      bus.Publish(RefundRequested(id, refundCard.value, refundAmount.value));
    }
  }

  /** `TransactionCompletedEventHandler.Consume`: marks the transfer as completed, whatever its status was. */
  method ConsumeTransactionCompleted(store: TransactionStore, id: TxId, now: int, statusThrows: bool)
    modifies store
    ensures !statusThrows && id in old(store.transactions) ==>
              store.transactions == old(store.transactions)[id := old(store.transactions)[id].(status := Completed, updatedAt := Some(now))]
    ensures statusThrows || id !in old(store.transactions) ==> store.transactions == old(store.transactions)
    ensures KeepsTransfers(old(store.transactions), store.transactions)
    ensures store.savepoint == old(store.savepoint)
    ensures old(store.Valid()) ==> store.Valid()
  {
    if !statusThrows {
      store.UpdateStatus(id, Completed, now);
    }
  }

  /** `TransactionRefundedEventHandler.Consume`: marks the transfer as refunded, whatever its status was. */
  method ConsumeTransactionRefunded(store: TransactionStore, id: TxId, now: int, statusThrows: bool)
    modifies store
    ensures !statusThrows && id in old(store.transactions) ==>
              store.transactions == old(store.transactions)[id := old(store.transactions)[id].(status := Refunded, updatedAt := Some(now))]
    ensures statusThrows || id !in old(store.transactions) ==> store.transactions == old(store.transactions)
    ensures KeepsTransfers(old(store.transactions), store.transactions)
    ensures store.savepoint == old(store.savepoint)
    ensures old(store.Valid()) ==> store.Valid()
  {
    if !statusThrows {
      store.UpdateStatus(id, Refunded, now);
    }
  }
}
