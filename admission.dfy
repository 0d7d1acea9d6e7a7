/**
 * Admission of a transfer by the authorization service: the sender's transfer lock, the
 * checks in their order, and the announcement that starts the saga.
 */
module Admission {
  import opened Wrappers
  import opened Funds
  import opened Contracts
  import opened Caching
  import opened Fraud
  import opened Authorization
  import CacheKeys

  /** `EnsureFeeAcceptableAsync`: the amount exceeds the cached fee, and a fee is set (a missing one reads as 0). */
  function FeeAcceptable(entries: map<string, Entry>, amount: int): (ok: bool)
    ensures ok ==> FeeIn(entries, CacheKeys.PaymentFee()) != 0
    ensures FeeIn(entries, CacheKeys.PaymentFee()) > 0 ==> (ok <==> amount > FeeIn(entries, CacheKeys.PaymentFee()))
    ensures CacheKeys.PaymentFee() !in entries ==> !ok
  {
    var fee := FeeIn(entries, CacheKeys.PaymentFee());
    amount > fee && fee != 0
  }

  /**
   * `GetCardAsync`: the cached view of the card, else the card-management answer when it
   * succeeded, else null. The answer is not cached.
   */
  function FetchCardData(entries: map<string, Entry>, service: CardService, number: string): (r: Option<CardData>)
    ensures CardDataIn(entries, CacheKeys.CardData(number)).Some? ==> r == CardDataIn(entries, CacheKeys.CardData(number))
    ensures CardDataIn(entries, CacheKeys.CardData(number)).None? ==>
              (r.Some? <==> LookupSucceeds(service, number)) && (r.Some? ==> r == service[number].data)
  {
    var cached := CardDataIn(entries, CacheKeys.CardData(number));
    if cached.None? && LookupSucceeds(service, number) then service[number].data else cached
  }

  /** The fetched view of the sender admits the amount. */
  predicate SenderCanPay(entries: map<string, Entry>, service: CardService, sender: string, amount: int) {
    var data := FetchCardData(entries, service, sender);
    data.Some? && HasSufficientFunds(data.value.balance, data.value.creditLimit, data.value.usedCredit, amount)
  }

  /** The cache already holds an active status for the card. */
  predicate CachedActive(entries: map<string, Entry>, number: string) {
    var s := StatusIn(entries, CacheKeys.CardStatus(number));
    s.Some? && s.value.isActive
  }

  /** `IsDuplicateTransaction`, at time `now` with a window of `period` seconds. */
  method IsDuplicateTransaction(cache: Cache, sender: string, recipient: string, amount: int, now: int, period: int)
    returns (duplicate: bool)
    modifies cache
    ensures var key := CacheKeys.TransactionFraud(sender);
            var v := FraudCheck(SortedSetIn(old(cache.entries), key), recipient, amount, now, period);
            duplicate == v.duplicate && SortedSetIn(cache.entries, key) == v.after
    ensures AgreeOutside(old(cache.entries), cache.entries, {CacheKeys.TransactionFraud(sender)})
    ensures cache.locks == old(cache.locks)
  {
    var key := CacheKeys.TransactionFraud(sender);
    cache.RemoveRangeByScore(key, 0, now - period);
    var existing := SortedSetIn(cache.entries, key);
    if exists e | e in existing :: e.recipientNumber == recipient && e.amount == amount {
      return true;
    }
    cache.AddToSortedSet(key, FraudEntry(now, amount, recipient), now);
    return false;
  }

  /** The call of `AuthorizeTransactionHandler` that throws, if any; it throws before changing anything. */
  datatype AdmissionStep = LockAcquire | FeeRead | SenderStatus | RecipientStatus | FraudRead | SenderData | RecipientData | Publish

  /** The settings, the clock and the collaborators' answers of one admission. */
  datatype AdmissionEnv = AdmissionEnv(
    now: int,                       // Unix seconds
    cacheDuration: int,             // seconds a cached status lives
    fraudPeriod: int,               // seconds of the duplicate window
    service: CardService,
    transactionId: TxId,            // the id the new event gets
    faultAt: Option<AdmissionStep>,
    senderAuthorizeFault: AuthorizeFault,
    recipientAuthorizeFault: AuthorizeFault)

  /** `EnsureCardActive` for the sender, then for the recipient; a throw counts as inactive. */
  method StatusChecks(store: AuthStore, cache: Cache, env: AdmissionEnv, sender: string, recipient: string)
    returns (active: bool)
    modifies store, cache
    ensures active ==> RecordsActive(cache.entries, store.authorizations, store.logs, sender)
                       && RecordsActive(cache.entries, store.authorizations, store.logs, recipient)
    // two cached active statuses pass with nothing written
    ensures env.faultAt != Some(SenderStatus) && env.faultAt != Some(RecipientStatus)
            && CachedActive(old(cache.entries), sender) && CachedActive(old(cache.entries), recipient) ==>
              active && cache.entries == old(cache.entries)
    ensures AgreeOutside(old(cache.entries), cache.entries, {CacheKeys.CardStatus(sender), CacheKeys.CardStatus(recipient)})
    ensures AgreeOutside(old(store.authorizations), store.authorizations, {sender, recipient})
    ensures cache.locks == old(cache.locks)
  {
    if env.faultAt == Some(SenderStatus) {
      return false;
    }
    var senderActive := EnsureCardActive(store, cache, env.service, sender, env.now, env.cacheDuration, env.senderAuthorizeFault);
    if !senderActive {
      return false;
    }
    ghost var entries, auths, logs := cache.entries, store.authorizations, store.logs;
    if env.faultAt == Some(RecipientStatus) {
      return false;
    }
    active := EnsureCardActive(store, cache, env.service, recipient, env.now, env.cacheDuration, env.recipientAuthorizeFault);
    if active {
      SenderStaysActive(entries, auths, logs, cache.entries, store.authorizations, store.logs, sender, recipient);
    }
  }

  /** The checks between acquiring and releasing the lock, in the handler's order; a throw counts as a refusal. */
  method AdmissionChecks(store: AuthStore, cache: Cache, env: AdmissionEnv, sender: string, recipient: string, amount: int)
    returns (passed: bool, ghost reached: bool)
    modifies store, cache
    // the fraud window is read and written only once the amount, the fee and both statuses pass
    ensures !reached ==> SortedSetIn(cache.entries, CacheKeys.TransactionFraud(sender)) == SortedSetIn(old(cache.entries), CacheKeys.TransactionFraud(sender))
    ensures reached ==> amount > 0 && FeeAcceptable(old(cache.entries), amount)
                        && RecordsActive(cache.entries, store.authorizations, store.logs, sender)
                        && RecordsActive(cache.entries, store.authorizations, store.logs, recipient)
    // once it is reached, the window keeps what the duplicate check leaves, and the verdict is the window and the funds
    ensures reached ==>
              var v := FraudCheck(SortedSetIn(old(cache.entries), CacheKeys.TransactionFraud(sender)), recipient, amount, env.now, env.fraudPeriod);
              && SortedSetIn(cache.entries, CacheKeys.TransactionFraud(sender)) == v.after
              && (passed <==> (!v.duplicate && env.faultAt !in {Some(SenderData), Some(RecipientData)}
                              && SenderCanPay(old(cache.entries), env.service, sender, amount)
                              && FetchCardData(old(cache.entries), env.service, recipient).Some?))
    ensures passed ==> reached
    ensures passed ==> amount > 0 && FeeAcceptable(old(cache.entries), amount)
    ensures passed ==> RecordsActive(cache.entries, store.authorizations, store.logs, sender)
                       && RecordsActive(cache.entries, store.authorizations, store.logs, recipient)
    ensures passed ==> !HasMatch(Pruned(SortedSetIn(old(cache.entries), CacheKeys.TransactionFraud(sender)), env.now, env.fraudPeriod), recipient, amount)
    ensures passed ==> SenderCanPay(old(cache.entries), env.service, sender, amount)
                       && FetchCardData(old(cache.entries), env.service, recipient).Some?
    // with both statuses cached as active, the verdict is the fee, the window and the funds
    ensures env.faultAt !in {Some(FeeRead), Some(SenderStatus), Some(RecipientStatus), Some(FraudRead)}
            && amount > 0 && FeeAcceptable(old(cache.entries), amount)
            && CachedActive(old(cache.entries), sender) && CachedActive(old(cache.entries), recipient) ==>
              var v := FraudCheck(SortedSetIn(old(cache.entries), CacheKeys.TransactionFraud(sender)), recipient, amount, env.now, env.fraudPeriod);
              && SortedSetIn(cache.entries, CacheKeys.TransactionFraud(sender)) == v.after
              && (passed <==> (!v.duplicate && env.faultAt !in {Some(SenderData), Some(RecipientData)}
                              && SenderCanPay(old(cache.entries), env.service, sender, amount)
                              && FetchCardData(old(cache.entries), env.service, recipient).Some?))
    ensures AgreeOutside(old(cache.entries), cache.entries, {CacheKeys.CardStatus(sender), CacheKeys.CardStatus(recipient), CacheKeys.TransactionFraud(sender)})
    ensures AgreeOutside(old(store.authorizations), store.authorizations, {sender, recipient})
    ensures cache.locks == old(cache.locks)
  {
    reached := false;
    StatusKeysApart(sender, recipient);
    if amount <= 0 || env.faultAt == Some(FeeRead) || !FeeAcceptable(cache.entries, amount) {
      return false, reached;
    }
    var active := StatusChecks(store, cache, env, sender, recipient);
    if !active {
      return false, reached;
    }
    if env.faultAt == Some(FraudRead) {
      return false, reached;
    }
    ghost var checked := cache.entries;
    DataKeysUntouched(old(cache.entries), checked, sender, recipient);
    var duplicate := IsDuplicateTransaction(cache, sender, recipient, amount, env.now, env.fraudPeriod);
    reached := true;
    FraudWriteKeepsStatuses(checked, cache.entries, store.authorizations, store.logs, sender, recipient);
    if duplicate {
      return false, reached;
    }
    if env.faultAt == Some(SenderData) {
      return false, reached;
    }
    var senderData := FetchCardData(cache.entries, env.service, sender);
    if env.faultAt == Some(RecipientData) {
      return false, reached;
    }
    var recipientData := FetchCardData(cache.entries, env.service, recipient);
    if senderData.None? || recipientData.None? {
      return false, reached;
    }
    if !HasSufficientFunds(senderData.value.balance, senderData.value.creditLimit, senderData.value.usedCredit, amount) {
      return false, reached;
    }
    return true, reached;
  }

  /** Writing the sender's fraud window keeps both cards' statuses and data. */
  lemma FraudWriteKeepsStatuses(entries: map<string, Entry>, entries': map<string, Entry>, auths: map<string, bool>,
                                logs: seq<AuthorizationLog>, sender: string, recipient: string)
    requires AgreeOutside(entries, entries', {CacheKeys.TransactionFraud(sender)})
    ensures RecordsActive(entries', auths, logs, sender) == RecordsActive(entries, auths, logs, sender)
    ensures RecordsActive(entries', auths, logs, recipient) == RecordsActive(entries, auths, logs, recipient)
    ensures CardDataIn(entries', CacheKeys.CardData(sender)) == CardDataIn(entries, CacheKeys.CardData(sender))
    ensures CardDataIn(entries', CacheKeys.CardData(recipient)) == CardDataIn(entries, CacheKeys.CardData(recipient))
  {
    StatusKeysApart(sender, recipient);
    CacheKeys.KeyKindsDistinct(sender, sender);
    CacheKeys.KeyKindsDistinct(recipient, sender);
  }

  /** The recipient's status check leaves the sender's records as they were, unless the two are one card. */
  lemma SenderStaysActive(entries: map<string, Entry>, auths: map<string, bool>, logs: seq<AuthorizationLog>,
                          entries': map<string, Entry>, auths': map<string, bool>, logs': seq<AuthorizationLog>,
                          sender: string, recipient: string)
    requires RecordsActive(entries, auths, logs, sender)
    requires RecordsActive(entries', auths', logs', recipient)
    requires AgreeOutside(entries, entries', {CacheKeys.CardStatus(recipient)})
    requires AgreeOutside(auths, auths', {recipient})
    requires AppendedFor(logs, logs', recipient)
    ensures RecordsActive(entries', auths', logs', sender)
  {
    if sender != recipient {
      CacheKeys.CardStatusInjective(sender, recipient);
      AppendedForOthersKeepsLast(logs, logs', recipient, sender);
    }
  }

  lemma StatusKeysApart(sender: string, recipient: string)
    ensures CacheKeys.TransactionFraud(sender) != CacheKeys.CardStatus(sender)
    ensures CacheKeys.TransactionFraud(sender) != CacheKeys.CardStatus(recipient)
  {
    CacheKeys.KeyKindsDistinct(sender, sender);
    CacheKeys.KeyKindsDistinct(recipient, sender);
  }

  /** The status and fraud writes of the checks leave the cards' data keys alone. */
  lemma DataKeysUntouched(entries: map<string, Entry>, entries': map<string, Entry>, sender: string, recipient: string)
    requires AgreeOutside(entries, entries', {CacheKeys.CardStatus(sender), CacheKeys.CardStatus(recipient), CacheKeys.TransactionFraud(sender)})
    ensures CardDataIn(entries', CacheKeys.CardData(sender)) == CardDataIn(entries, CacheKeys.CardData(sender))
    ensures CardDataIn(entries', CacheKeys.CardData(recipient)) == CardDataIn(entries, CacheKeys.CardData(recipient))
  {
    CacheKeys.KeyKindsDistinct(sender, sender);
    CacheKeys.KeyKindsDistinct(sender, recipient);
    CacheKeys.KeyKindsDistinct(recipient, sender);
    CacheKeys.KeyKindsDistinct(recipient, recipient);
  }

  /**
   * `AuthorizeTransactionHandler.Handle`: takes the sender's transfer lock, runs the checks,
   * and on success announces the authorized transfer and keeps the lock for the saga; on
   * refusal or failure it releases the lock and answers false.
   */
  method AuthorizeTransaction(store: AuthStore, cache: Cache, bus: Bus, env: AdmissionEnv,
                              sender: string, recipient: string, amount: int) returns (ok: bool, ghost reached: bool)
    modifies store, cache, bus
    // the fraud window is read and written only under the lock, once the amount, the fee and both statuses pass
    ensures !reached ==> SortedSetIn(cache.entries, CacheKeys.TransactionFraud(sender)) == SortedSetIn(old(cache.entries), CacheKeys.TransactionFraud(sender))
    ensures reached ==> sender !in old(cache.locks) && env.faultAt != Some(LockAcquire)
                        && amount > 0 && FeeAcceptable(old(cache.entries), amount)
                        && RecordsActive(cache.entries, store.authorizations, store.logs, sender)
                        && RecordsActive(cache.entries, store.authorizations, store.logs, recipient)
    ensures reached ==>
              var v := FraudCheck(SortedSetIn(old(cache.entries), CacheKeys.TransactionFraud(sender)), recipient, amount, env.now, env.fraudPeriod);
              && SortedSetIn(cache.entries, CacheKeys.TransactionFraud(sender)) == v.after
              && (ok <==> (!v.duplicate && env.faultAt !in {Some(SenderData), Some(RecipientData), Some(Publish)}
                          && SenderCanPay(old(cache.entries), env.service, sender, amount)
                          && FetchCardData(old(cache.entries), env.service, recipient).Some?))
    ensures ok ==> reached
    // a sender whose lock is held is refused with nothing changed
    ensures sender in old(cache.locks) && env.faultAt != Some(LockAcquire) ==>
              !ok && cache.locks == old(cache.locks) && cache.entries == old(cache.entries)
              && store.authorizations == old(store.authorizations) && store.logs == old(store.logs)
    // the lock is kept exactly by an admitted transfer
    ensures cache.locks == if ok then old(cache.locks) + {sender} else if sender in old(cache.locks) && env.faultAt != Some(LockAcquire) then old(cache.locks) else old(cache.locks) - {sender}
    ensures ok ==> sender !in old(cache.locks)
    ensures bus.published == old(bus.published) + if ok then [TransactionAuthorized(env.transactionId, sender, recipient, amount)] else []
    // what an admitted transfer satisfies
    ensures ok ==> amount > 0 && FeeAcceptable(old(cache.entries), amount)
    ensures ok ==> RecordsActive(cache.entries, store.authorizations, store.logs, sender)
                   && RecordsActive(cache.entries, store.authorizations, store.logs, recipient)
    ensures ok ==> !HasMatch(Pruned(SortedSetIn(old(cache.entries), CacheKeys.TransactionFraud(sender)), env.now, env.fraudPeriod), recipient, amount)
    ensures ok ==> SenderCanPay(old(cache.entries), env.service, sender, amount) && FetchCardData(old(cache.entries), env.service, recipient).Some?
    // and the transfers it admits
    ensures (env.faultAt == None && sender !in old(cache.locks) && amount > 0 && FeeAcceptable(old(cache.entries), amount)
             && CachedActive(old(cache.entries), sender) && CachedActive(old(cache.entries), recipient)
             && !HasMatch(Pruned(SortedSetIn(old(cache.entries), CacheKeys.TransactionFraud(sender)), env.now, env.fraudPeriod), recipient, amount)
             && SenderCanPay(old(cache.entries), env.service, sender, amount)
             && FetchCardData(old(cache.entries), env.service, recipient).Some?) ==> ok
    ensures AgreeOutside(old(cache.entries), cache.entries, {CacheKeys.CardStatus(sender), CacheKeys.CardStatus(recipient), CacheKeys.TransactionFraud(sender)})
    ensures AgreeOutside(old(store.authorizations), store.authorizations, {sender, recipient})
  {
    reached := false;
    if env.faultAt == Some(LockAcquire) {
      cache.ReleaseLock(sender);
      return false, reached;
    }
    var acquired := cache.AcquireLock(sender);
    if !acquired {
      return false, reached;
    }
    var passed;
    passed, reached := AdmissionChecks(store, cache, env, sender, recipient, amount);
    if !passed || env.faultAt == Some(Publish) {
      cache.ReleaseLock(sender);
      return false, reached;
    }
    bus.Publish(TransactionAuthorized(env.transactionId, sender, recipient, amount));
    return true, reached;
  }
}
