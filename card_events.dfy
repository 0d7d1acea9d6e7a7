/**
 * The card-management consumers of the transfer saga: withdrawing from the sender,
 * depositing to the recipient and refunding the sender.
 *
 * A fault names the call that throws. The calls made inside a `catch` block are taken
 * to succeed, except its first one: rolling back a database transaction that is already
 * committed or rolled back throws, and that exception leaves the consumer with nothing
 * more done (`escaped`).
 */
module CardEvents {
  import opened Wrappers
  import Constants
  import opened Funds
  import opened Contracts
  import opened Ledger
  import opened Caching
  import CacheKeys

  /** The refund-bearing failure every saga step publishes when the sender's money is out. */
  function RefundingFailure(id: TxId, reason: Constants.Reason, sender: string, amount: int): (m: Message)
    ensures m.TransactionFailed? && m.needRefund && m.refundCard == Some(sender) && m.refundAmount == Some(amount)
  {
    TransactionFailed(id, reason, true, Some(sender), Some(amount))
  }

  /** Which call of `WithdrawFundsEventHandler` throws, if any. */
  datatype WithdrawFault =
    | WithdrawNoFault | WithdrawThrows
    | RefusalRollbackThrows | RefusalReleaseThrows | RefusalPublishThrows
    | WithdrawLogThrows | WithdrawCommitThrows | WithdrawPublishThrows

  /** A withdrawal the sender's card admits. */
  predicate Admits(cards: map<string, CardData>, number: string, amount: int) {
    number in cards && HasSufficientFunds(cards[number].balance, cards[number].creditLimit, cards[number].usedCredit, amount)
  }

  /**
   * `WithdrawFundsEventHandler.Consume`: inside a database transaction, takes the amount
   * from the sender and logs it, then hands over to the deposit step; the sender's
   * transfer lock stays held. On refusal or failure it rolls back, releases the lock
   * and announces the failure. A failure after the refusal was rolled back, or after the
   * commit, makes the catch block's rollback throw: nothing is announced then, and the
   * lock stays held after the commit or when its own release was the call that threw.
   */
  method ConsumeWithdrawFunds(store: CardStore, cache: Cache, bus: Bus, id: TxId, sender: string, recipient: string,
                       amount: int, now: int, fault: WithdrawFault) returns (escaped: bool)
    modifies store, cache, bus
    ensures var admitted := fault != WithdrawThrows && Admits(old(store.cards), sender, amount);
            var committed := admitted && fault != WithdrawLogThrows && fault != WithdrawCommitThrows;
            var handedOver := committed && fault != WithdrawPublishThrows;
            && (escaped <==> (!admitted && fault in {RefusalReleaseThrows, RefusalPublishThrows}) || (committed && fault == WithdrawPublishThrows))
            && store.cards == (if committed then old(store.cards)[sender := Withdrawn(old(store.cards)[sender], amount)] else old(store.cards))
            && store.logs == old(store.logs) + (if committed then [CardLog(sender, -amount, Constants.Withdrawal, now)] else [])
            // the lock is released exactly when the withdrawal did not go through, unless releasing it threw
            && cache.locks == (if committed || (!admitted && fault == RefusalReleaseThrows) then old(cache.locks)
                               else old(cache.locks) - {sender})
            // an escaped exception announces nothing; otherwise exactly one event
            && (escaped ==> bus.published == old(bus.published))
            && (!escaped ==> |bus.published| == |old(bus.published)| + 1 && bus.published[..|old(bus.published)|] == old(bus.published))
            && (!escaped ==> (handedOver <==> bus.published[|old(bus.published)|] == FundsWithdrawn(id, sender, recipient, amount)))
            // a refund is asked for exactly when the withdrawal was admitted, for the sender and the amount
            && (!handedOver && !escaped ==> (bus.published[|old(bus.published)|].TransactionFailed?
                                             && (bus.published[|old(bus.published)|].needRefund <==> admitted)))
            && (!handedOver && !escaped && admitted ==> bus.published[|old(bus.published)|] == RefundingFailure(id, Constants.ServerError, sender, amount))
            && (!admitted && fault !in {WithdrawThrows, RefusalRollbackThrows, RefusalReleaseThrows, RefusalPublishThrows} ==>
                  bus.published[|old(bus.published)|] == TransactionFailed(id, Constants.InsufficientFunds, false, None, None))
    ensures cache.entries == old(cache.entries)
    ensures store.savepoint == None
    ensures old(store.Valid()) ==> store.Valid()
  {
    store.BeginTransaction();
    var needRefund := false;
    var failed := false;
    escaped := false;
    if fault == WithdrawThrows {
      failed := true;
    } else {
      var success := store.Withdraw(sender, amount);
      if !success {
        if fault == RefusalRollbackThrows {
          failed := true;
        } else {
          var refusedRollbackThrew := store.Rollback();
          if fault == RefusalReleaseThrows {
            failed := true;
          } else {
            cache.ReleaseLock(sender);
            if fault != RefusalPublishThrows {
              bus.Publish(TransactionFailed(id, Constants.InsufficientFunds, needRefund, None, None));
              return;
            }
            failed := true;
          }
        }
      } else {
        needRefund := true;
        if fault == WithdrawLogThrows {
          failed := true;
        } else {
          store.AppendLog(CardLog(sender, -amount, Constants.Withdrawal, now));
          if fault == WithdrawCommitThrows {
            failed := true;
          } else {
            store.Commit();
            if fault == WithdrawPublishThrows {
              failed := true;
            } else {
              bus.Publish(FundsWithdrawn(id, sender, recipient, amount));
            }
          }
        }
      }
    }
    if failed {
      escaped := store.Rollback();
      if escaped {
        return;
      }
      cache.ReleaseLock(sender);
      bus.Publish(TransactionFailed(id, Constants.ServerError, needRefund, Some(sender), Some(amount)));
    }
  }

  /**
   * `ConsumeWithdrawFunds` with the refund flag raised only once the withdrawal is committed,
   * so that a failure asks for a refund exactly when the sender's money is out, and with the
   * catch block rolling back only a transaction still open, so that every failure is announced.
   */
  method ConsumeWithdrawFundsCorrected(store: CardStore, cache: Cache, bus: Bus, id: TxId, sender: string, recipient: string,
                                       amount: int, now: int, fault: WithdrawFault)
    modifies store, cache, bus
    ensures var admitted := fault != WithdrawThrows && Admits(old(store.cards), sender, amount);
            var committed := admitted && fault != WithdrawLogThrows && fault != WithdrawCommitThrows;
            var handedOver := committed && fault != WithdrawPublishThrows;
            && store.cards == (if committed then old(store.cards)[sender := Withdrawn(old(store.cards)[sender], amount)] else old(store.cards))
            && store.logs == old(store.logs) + (if committed then [CardLog(sender, -amount, Constants.Withdrawal, now)] else [])
            && |bus.published| == |old(bus.published)| + 1 && bus.published[..|old(bus.published)|] == old(bus.published)
            && (handedOver <==> bus.published[|old(bus.published)|] == FundsWithdrawn(id, sender, recipient, amount))
            && cache.locks == (if handedOver then old(cache.locks) else old(cache.locks) - {sender})
            // a refund is asked for exactly when the sender's card was debited
            && (!handedOver ==> (bus.published[|old(bus.published)|].TransactionFailed?
                                 && (bus.published[|old(bus.published)|].needRefund <==> committed)))
            && (!handedOver && admitted ==> bus.published[|old(bus.published)|] == TransactionFailed(id, Constants.ServerError, committed, Some(sender), Some(amount)))
    ensures cache.entries == old(cache.entries)
    ensures store.savepoint == None
    ensures old(store.Valid()) ==> store.Valid()
  {
    store.BeginTransaction();
    var needRefund := false;
    var failed := false;
    if fault == WithdrawThrows {
      failed := true;
    } else {
      var success := store.Withdraw(sender, amount);
      if !success {
        if fault == RefusalRollbackThrows {
          failed := true;
        } else {
          store.Dispose();
          if fault == RefusalReleaseThrows {
            failed := true;
          } else {
            cache.ReleaseLock(sender);
            if fault != RefusalPublishThrows {
              bus.Publish(TransactionFailed(id, Constants.InsufficientFunds, needRefund, None, None));
              return;
            }
            failed := true;
          }
        }
      } else if fault == WithdrawLogThrows {
        failed := true;
      } else {
        store.AppendLog(CardLog(sender, -amount, Constants.Withdrawal, now));
        if fault == WithdrawCommitThrows {
          failed := true;
        } else {
          store.Commit();
          needRefund := true;
          if fault == WithdrawPublishThrows {
            failed := true;
          } else {
            bus.Publish(FundsWithdrawn(id, sender, recipient, amount));
          }
        }
      }
    }
    if failed {
      store.Dispose();
      cache.ReleaseLock(sender);
      bus.Publish(TransactionFailed(id, Constants.ServerError, needRefund, Some(sender), Some(amount)));
    }
  }

  /** Which call of `DepositFundsEventHandler` throws, if any. */
  datatype DepositFault = DepositNoFault | FeeReadThrows | FailurePublishThrows | DepositThrows | DepositLogThrows | DepositCommitThrows | DepositPublishThrows

  /**
   * `DepositFundsEventHandler.Consume`: reads the current fee from the cache, credits the
   * recipient with the amount less the fee and logs the gross amount, in one database
   * transaction, then completes the transfer. A missing (zero) fee, an unknown recipient or
   * any failure before the commit asks for the sender to be refunded; the locks are not touched.
   * A failure to announce the completion comes after the commit: the catch block's rollback
   * throws, and the transfer is left with no event at all.
   */
  method ConsumeDepositFunds(store: CardStore, cache: Cache, bus: Bus, id: TxId, recipient: string, sender: string,
                      amount: int, now: int, fault: DepositFault) returns (escaped: bool)
    modifies store, bus
    ensures var fee := FeeIn(old(cache.entries), CacheKeys.PaymentFee());
            var reached := fault != FeeReadThrows && fee != 0 && fault != DepositThrows && recipient in old(store.cards);
            var committed := reached && fault != DepositLogThrows && fault != DepositCommitThrows;
            && store.cards == (if committed then old(store.cards)[recipient := Deposited(old(store.cards)[recipient], amount, fee)] else old(store.cards))
            && store.logs == old(store.logs) + (if committed then [CardLog(recipient, amount, Constants.Deposit, now)] else [])
            && (escaped <==> committed && fault == DepositPublishThrows)
            && (escaped ==> bus.published == old(bus.published))
            && (!escaped ==> |bus.published| == |old(bus.published)| + 1 && bus.published[..|old(bus.published)|] == old(bus.published))
            && (!escaped ==> (bus.published[|old(bus.published)|] == TransactionCompleted(id) <==> committed))
            // the sender is refunded exactly when the recipient was not credited
            && (!committed ==> (bus.published[|old(bus.published)|].TransactionFailed?
                                && bus.published[|old(bus.published)|].needRefund
                                && bus.published[|old(bus.published)|].refundCard == Some(sender)
                                && bus.published[|old(bus.published)|].refundAmount == Some(amount)))
            && (fault == DepositNoFault && fee == 0 ==> bus.published[|old(bus.published)|] == RefundingFailure(id, Constants.FeeNotFound, sender, amount))
            && (fault == DepositNoFault && fee != 0 && recipient !in old(store.cards) ==>
                  bus.published[|old(bus.published)|] == RefundingFailure(id, Constants.InvalidRecipient, sender, amount))
    ensures store.savepoint == None
    ensures old(store.Valid()) ==> store.Valid()
  {
    store.BeginTransaction();
    var deposited := false;
    var failed := false;
    if fault == FeeReadThrows {
      failed := true;
    } else {
      var fee := FeeIn(cache.entries, CacheKeys.PaymentFee());
      if fee == 0 {
        failed := SendFailedEvent(bus, id, sender, amount, Constants.FeeNotFound, fault == FailurePublishThrows);
      } else if fault == DepositThrows {
        failed := true;
      } else {
        var success := store.Deposit(recipient, amount, fee);
        if !success {
          failed := SendFailedEvent(bus, id, sender, amount, Constants.InvalidRecipient, fault == FailurePublishThrows);
        } else if fault == DepositLogThrows {
          failed := true;
        } else {
          store.AppendLog(CardLog(recipient, amount, Constants.Deposit, now));
          if fault == DepositCommitThrows {
            failed := true;
          } else {
            store.Commit();
            deposited := true;
            if fault == DepositPublishThrows {
              failed := true;
            } else {
              bus.Publish(TransactionCompleted(id));
            }
          }
        }
      }
    }
    escaped := false;
    if failed {
      escaped := store.Rollback();
      if escaped {
        return;
      }
      bus.Publish(TransactionFailed(id, Constants.ServerError, !deposited,
        if !deposited then Some(sender) else None, if !deposited then Some(amount) else None));
    } else {
      store.Dispose();
    }
  }

  /**
   * `ConsumeDepositFunds` with the catch block rolling back only a transaction still open, so
   * that a completion that cannot be announced fails the transfer without a refund, as the
   * handler's `NeedRefund = !isFundsDeposited` means it to.
   */
  method ConsumeDepositFundsCorrected(store: CardStore, cache: Cache, bus: Bus, id: TxId, recipient: string, sender: string,
                      amount: int, now: int, fault: DepositFault)
    modifies store, bus
    ensures var fee := FeeIn(old(cache.entries), CacheKeys.PaymentFee());
            var reached := fault != FeeReadThrows && fee != 0 && fault != DepositThrows && recipient in old(store.cards);
            var committed := reached && fault != DepositLogThrows && fault != DepositCommitThrows;
            && store.cards == (if committed then old(store.cards)[recipient := Deposited(old(store.cards)[recipient], amount, fee)] else old(store.cards))
            && store.logs == old(store.logs) + (if committed then [CardLog(recipient, amount, Constants.Deposit, now)] else [])
            && |bus.published| == |old(bus.published)| + 1 && bus.published[..|old(bus.published)|] == old(bus.published)
            && (bus.published[|old(bus.published)|] == TransactionCompleted(id) <==> committed && fault != DepositPublishThrows)
            && (committed && fault == DepositPublishThrows ==>
                  bus.published[|old(bus.published)|] == TransactionFailed(id, Constants.ServerError, false, None, None))
            // the sender is refunded exactly when the recipient was not credited
            && (!committed ==> (bus.published[|old(bus.published)|].TransactionFailed?
                                && bus.published[|old(bus.published)|].needRefund
                                && bus.published[|old(bus.published)|].refundCard == Some(sender)
                                && bus.published[|old(bus.published)|].refundAmount == Some(amount)))
            && (fault == DepositNoFault && fee == 0 ==> bus.published[|old(bus.published)|] == RefundingFailure(id, Constants.FeeNotFound, sender, amount))
            && (fault == DepositNoFault && fee != 0 && recipient !in old(store.cards) ==>
                  bus.published[|old(bus.published)|] == RefundingFailure(id, Constants.InvalidRecipient, sender, amount))
    ensures store.savepoint == None
    ensures old(store.Valid()) ==> store.Valid()
  {
    store.BeginTransaction();
    var deposited := false;
    var failed := false;
    if fault == FeeReadThrows {
      failed := true;
    } else {
      var fee := FeeIn(cache.entries, CacheKeys.PaymentFee());
      if fee == 0 {
        failed := SendFailedEvent(bus, id, sender, amount, Constants.FeeNotFound, fault == FailurePublishThrows);
      } else if fault == DepositThrows {
        failed := true;
      } else {
        var success := store.Deposit(recipient, amount, fee);
        if !success {
          failed := SendFailedEvent(bus, id, sender, amount, Constants.InvalidRecipient, fault == FailurePublishThrows);
        } else if fault == DepositLogThrows {
          failed := true;
        } else {
          store.AppendLog(CardLog(recipient, amount, Constants.Deposit, now));
          if fault == DepositCommitThrows {
            failed := true;
          } else {
            store.Commit();
            deposited := true;
            if fault == DepositPublishThrows {
              failed := true;
            } else {
              bus.Publish(TransactionCompleted(id));
            }
          }
        }
      }
    }
    if failed {
      store.Dispose();
      bus.Publish(TransactionFailed(id, Constants.ServerError, !deposited,
        if !deposited then Some(sender) else None, if !deposited then Some(amount) else None));
    } else {
      store.Dispose();
    }
  }

  /** `SendFailedEvent`: publishes a refund-bearing failure, unless publishing throws. */
  method SendFailedEvent(bus: Bus, id: TxId, sender: string, amount: int, reason: Constants.Reason, publishThrows: bool)
    returns (threw: bool)
    modifies bus
    ensures threw <==> publishThrows
    ensures bus.published == old(bus.published) + (if threw then [] else [RefundingFailure(id, reason, sender, amount)])
  {
    if publishThrows {
      return true;
    }
    bus.Publish(TransactionFailed(id, reason, true, Some(sender), Some(amount)));
    return false;
  }

  /** Which call of `RefundRequestedEventHandler` throws, if any. */
  datatype RefundFault = RefundNoFault | RefundDepositThrows | RefundLogThrows | RefundPublishThrows

  /**
   * `RefundRequestedEventHandler.Consume`: credits the amount back to the card without a
   * fee and without a database transaction, logs it and announces the refund. An unknown
   * card or any failure is only logged, and what was saved before it stays saved.
   */
  method ConsumeRefundRequested(store: CardStore, bus: Bus, id: TxId, number: string, amount: int, now: int, fault: RefundFault)
    modifies store, bus
    ensures var credited := fault != RefundDepositThrows && number in old(store.cards);
            && store.cards == (if credited then old(store.cards)[number := Deposited(old(store.cards)[number], amount, 0)] else old(store.cards))
            && store.logs == old(store.logs) + (if credited && fault != RefundLogThrows then [CardLog(number, amount, Constants.Refund, now)] else [])
            // the refund is announced only once the card is credited and logged
            && bus.published == old(bus.published) + (if credited && fault == RefundNoFault then [TransactionRefunded(id)] else [])
    ensures store.savepoint == old(store.savepoint)
    ensures old(store.Valid()) ==> store.Valid()
  {
    if fault == RefundDepositThrows {
      return;
    }
    var success := store.Deposit(number, amount, 0);
    if !success {
      return;
    }
    if fault == RefundLogThrows {
      return;
    }
    store.AppendLog(CardLog(number, amount, Constants.Refund, now));
    if fault == RefundPublishThrows {
      return;
    }
    bus.Publish(TransactionRefunded(id));
  }
}
