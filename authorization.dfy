/**
 * The authorization service's record of card approvals: the card-status table, the
 * append-only authorization log, card authorization, and the cached card status.
 */
module Authorization {
  import opened Wrappers
  import Constants
  import opened Contracts
  import opened Caching
  import CacheKeys

  /** `AuthorizationLog`; its GUID key is not modelled. */
  datatype AuthorizationLog = AuthorizationLog(cardNumber: string, isAuthorized: bool, reason: Constants.Reason, createdAt: int)

  /**
   * The card-management service as seen through `CardManagementService.GetCardAsync`: the
   * answer it gives for each card number; a number without an answer stands for a call
   * that failed and returned null.
   */
  type CardService = map<string, Result<CardData>>

  /** `card is { IsSuccess: true, Data: not null }` */
  predicate LookupSucceeds(service: CardService, number: string) {
    number in service && service[number].IsSuccess()
  }

  /**
   * `GetLastAuthorizationAsync`: the log entry of the card with the latest creation time;
   * among entries created at the same time, the one appended last.
   */
  function LastAuthorization(logs: seq<AuthorizationLog>, number: string): (r: Option<AuthorizationLog>)
    ensures r.Some? <==> exists i | 0 <= i < |logs| :: logs[i].cardNumber == number
    ensures r.Some? ==> r.value in logs && r.value.cardNumber == number
    ensures r.Some? ==> forall i | 0 <= i < |logs| && logs[i].cardNumber == number :: logs[i].createdAt <= r.value.createdAt
  {
    if |logs| == 0 then None
    else
      var rest := LastAuthorization(logs[..|logs| - 1], number);
      var last := logs[|logs| - 1];
      if last.cardNumber != number then rest
      else if rest.Some? && rest.value.createdAt > last.createdAt then rest
      else Some(last)
  }

  /** The latest decision for the card approved it. */
  predicate LastApproves(logs: seq<AuthorizationLog>, number: string) {
    var last := LastAuthorization(logs, number);
    last.Some? && last.value.isAuthorized
  }

  /** Entries appended for other cards do not change a card's latest decision. */
  lemma {:induction false} LastAuthorizationIgnoresOthers(logs: seq<AuthorizationLog>, extra: seq<AuthorizationLog>, number: string)
    requires forall i | 0 <= i < |extra| :: extra[i].cardNumber != number
    ensures LastAuthorization(logs + extra, number) == LastAuthorization(logs, number)
    decreases |extra|
  {
    if |extra| > 0 {
      var shorter := extra[..|extra| - 1];
      assert (logs + extra)[..|logs + extra| - 1] == logs + shorter;
      LastAuthorizationIgnoresOthers(logs, shorter, number);
    } else {
      assert logs + extra == logs;
    }
  }

  /** With a clock that does not run backwards, a freshly appended entry is the card's latest decision. */
  lemma LastAuthorizationOfAppended(logs: seq<AuthorizationLog>, log: AuthorizationLog)
    requires forall i | 0 <= i < |logs| :: logs[i].createdAt <= log.createdAt
    ensures LastAuthorization(logs + [log], log.cardNumber) == Some(log)
  {
    assert (logs + [log])[..|logs + [log]| - 1] == logs;
  }

  /** `new` extends `old` with entries about `number` only. */
  predicate AppendedFor(old_: seq<AuthorizationLog>, new_: seq<AuthorizationLog>, number: string) {
    |old_| <= |new_| && new_[..|old_|] == old_ && forall i | |old_| <= i < |new_| :: new_[i].cardNumber == number
  }

  lemma AppendedForOthersKeepsLast(old_: seq<AuthorizationLog>, new_: seq<AuthorizationLog>, number: string, other: string)
    requires AppendedFor(old_, new_, number) && other != number
    ensures LastAuthorization(new_, other) == LastAuthorization(old_, other)
  {
    var extra := new_[|old_|..];
    assert new_ == old_ + extra;
    LastAuthorizationIgnoresOthers(old_, extra, other);
  }

  /**
   * Whether the card counts as active, reading the sources in the order the service does:
   * the cached status, else the card-status row, else the latest authorization decision.
   */
  predicate RecordsActive(entries: map<string, Entry>, authorizations: map<string, bool>, logs: seq<AuthorizationLog>, number: string) {
    var cached := StatusIn(entries, CacheKeys.CardStatus(number));
    if cached.Some? then cached.value.isActive
    else if number in authorizations then authorizations[number]
    else LastApproves(logs, number)
  }

  /** The authorization database: `CardAuthorizations` keyed by card number, and `AuthorizationLogs`. */
  class AuthStore {
    var authorizations: map<string, bool>
    var logs: seq<AuthorizationLog>

    constructor (authorizations: map<string, bool>, logs: seq<AuthorizationLog>)
      ensures this.authorizations == authorizations && this.logs == logs
    {
      this.authorizations := authorizations;
      this.logs := logs;
    }

    /** `IAuthLogRepository.AddAsync` */
    method AddLog(log: AuthorizationLog)
      modifies this
      ensures logs == old(logs) + [log]
      ensures authorizations == old(authorizations)
    {
      logs := logs + [log];
    }

    /** `SetCardStatusAsync`: adds the row, or updates the existing one. */
    method SetCardStatus(number: string, isActive: bool)
      modifies this
      ensures authorizations == old(authorizations)[number := isActive]
      ensures logs == old(logs)
    {
      authorizations := authorizations[number := isActive];
    }
  }

  /** `CanAuthorizeCard`: every card that exists is approved. */
  function CanAuthorizeCard(number: string): bool {
    true
  }

  /** Which call of `AuthorizeCardHandler` throws, if any. */
  datatype AuthorizeFault = AuthorizeNoFault | LastLogThrows | DenialLogThrows | DecisionLogThrows | UpsertThrows | StatusCacheThrows

  /**
   * `AuthorizeCardHandler.Handle`: a card whose latest decision approved it stays approved;
   * otherwise a card unknown to card management is denied and the denial logged, and a
   * known card is decided on, the decision logged, stored and cached for `expiration`
   * seconds. Any failure answers false.
   */
  method AuthorizeCard(store: AuthStore, cache: Cache, service: CardService, number: string, now: int,
                       expiration: int, fault: AuthorizeFault) returns (authorized: bool)
    modifies store, cache
    ensures var approvedBefore := fault != LastLogThrows && LastApproves(old(store.logs), number);
            var decided := fault != LastLogThrows && !approvedBefore && LookupSucceeds(service, number);
            var stored := decided && fault != DecisionLogThrows && fault != UpsertThrows;
            && (authorized <==> approvedBefore || (stored && fault != StatusCacheThrows))
            && store.logs == old(store.logs) +
                 (if fault == LastLogThrows || approvedBefore then []
                  else if !decided then (if fault == DenialLogThrows then [] else [AuthorizationLog(number, false, Constants.CardNotFound, now)])
                  else if fault == DecisionLogThrows then []
                  else [AuthorizationLog(number, true, Constants.Reason.Authorized, now)])
            && store.authorizations == (if stored then old(store.authorizations)[number := true] else old(store.authorizations))
            && cache.entries == (if stored && fault != StatusCacheThrows
                                 then old(cache.entries)[CacheKeys.CardStatus(number) := Entry(StatusValue(CachedCardStatus(number, true)), Some(expiration))]
                                 else old(cache.entries))
    ensures AppendedFor(old(store.logs), store.logs, number)
    // a card unknown to card management is never approved anew
    ensures authorized && !LookupSucceeds(service, number) ==> LastApproves(old(store.logs), number) && store.logs == old(store.logs)
    ensures cache.locks == old(cache.locks)
  {
    if fault == LastLogThrows {
      return false;
    }
    var last := LastAuthorization(store.logs, number);
    if last.Some? && last.value.isAuthorized {
      return true;
    }
    if !LookupSucceeds(service, number) {
      if fault != DenialLogThrows {
        store.AddLog(AuthorizationLog(number, false, Constants.CardNotFound, now));
      }
      return false;
    }
    var decision := CanAuthorizeCard(number);
    if fault == DecisionLogThrows {
      return false;
    }
    store.AddLog(AuthorizationLog(number, decision, if decision then Constants.Reason.Authorized else Constants.AuthorizationFailed, now));
    if fault == UpsertThrows {
      return false;
    }
    store.SetCardStatus(number, decision);
    if fault == StatusCacheThrows {
      return false;
    }
    cache.Set(CacheKeys.CardStatus(number), StatusValue(CachedCardStatus(number, decision)), expiration);
    return decision;
  }

  /**
   * `EnsureCardActive`: the cached status if there is one; else the stored row, which is then
   * cached for `expiration` seconds; else the card is authorized (and, when approved, the
   * authorization caches its status).
   */
  method EnsureCardActive(store: AuthStore, cache: Cache, service: CardService, number: string, now: int,
                          expiration: int, fault: AuthorizeFault) returns (active: bool)
    modifies store, cache
    // what the card's records say before is what is answered, unless the authorization fails ...
    ensures RecordsActive(old(cache.entries), old(store.authorizations), old(store.logs), number) && fault != LastLogThrows ==> active
    ensures fault == AuthorizeNoFault ==>
              (active <==> RecordsActive(old(cache.entries), old(store.authorizations), old(store.logs), number)
                           || (StatusIn(old(cache.entries), CacheKeys.CardStatus(number)).None?
                               && number !in old(store.authorizations) && LookupSucceeds(service, number)))
    // ... and an active answer is backed by the records afterwards
    ensures active ==> RecordsActive(cache.entries, store.authorizations, store.logs, number)
    // only this card's status, row and log change
    ensures AgreeOutside(old(cache.entries), cache.entries, {CacheKeys.CardStatus(number)})
    ensures AgreeOutside(old(store.authorizations), store.authorizations, {number})
    ensures number in old(store.authorizations) ==> number in store.authorizations
    // a cached status is answered as it is, with nothing written
    ensures StatusIn(old(cache.entries), CacheKeys.CardStatus(number)).Some? ==>
              active == StatusIn(old(cache.entries), CacheKeys.CardStatus(number)).value.isActive
              && cache.entries == old(cache.entries) && store.authorizations == old(store.authorizations) && store.logs == old(store.logs)
    ensures AppendedFor(old(store.logs), store.logs, number)
    ensures cache.locks == old(cache.locks)
  {
    var key := CacheKeys.CardStatus(number);
    var cached := StatusIn(cache.entries, key);
    if cached.Some? {
      return cached.value.isActive;
    }
    if number in store.authorizations {
      active := store.authorizations[number];
      cache.Set(key, StatusValue(CachedCardStatus(number, active)), expiration);
      return;
    }
    active := AuthorizeCard(store, cache, service, number, now, expiration, fault);
    if active && StatusIn(cache.entries, key).None? {
      // approved by its latest decision, with nothing written
      assert store.logs == old(store.logs) && store.authorizations == old(store.authorizations);
      assert LastApproves(store.logs, number);
    }
  }

  /** Which call of the authorization service's `CardUpdatedEventHandler` throws, if any. */
  datatype RefreshFault = RefreshNoFault | RowReadThrows | StatusWriteThrows

  /**
   * The authorization service's `CardUpdatedEventHandler.Consume`: re-caches the stored
   * status of a known card for `expiration` seconds, or authorizes a card it has no row for.
   * A failure of its own calls is rethrown with nothing changed.
   */
  method ConsumeCardUpdated(store: AuthStore, cache: Cache, service: CardService, number: string, now: int,
                            expiration: int, fault: RefreshFault, authorizeFault: AuthorizeFault) returns (completed: bool)
    modifies store, cache
    ensures completed <==> fault == RefreshNoFault || (fault == StatusWriteThrows && number !in old(store.authorizations))
    ensures number in old(store.authorizations) && completed ==>
              cache.entries == old(cache.entries)[CacheKeys.CardStatus(number) :=
                                 Entry(StatusValue(CachedCardStatus(number, old(store.authorizations)[number])), Some(expiration))]
              && store.authorizations == old(store.authorizations) && store.logs == old(store.logs)
    ensures !completed ==> cache.entries == old(cache.entries) && store.authorizations == old(store.authorizations) && store.logs == old(store.logs)
    // afterwards the cached status, where there is one, agrees with the stored row
    ensures completed && StatusIn(cache.entries, CacheKeys.CardStatus(number)).Some? && number in store.authorizations ==>
              StatusIn(cache.entries, CacheKeys.CardStatus(number)).value.isActive == store.authorizations[number]
              || StatusIn(cache.entries, CacheKeys.CardStatus(number)) == StatusIn(old(cache.entries), CacheKeys.CardStatus(number))
    ensures AgreeOutside(old(cache.entries), cache.entries, {CacheKeys.CardStatus(number)})
    ensures AppendedFor(old(store.logs), store.logs, number)
    ensures cache.locks == old(cache.locks)
  {
    if fault == RowReadThrows {
      return false;
    }
    if number !in store.authorizations {
      var _ := AuthorizeCard(store, cache, service, number, now, expiration, authorizeFault);
      return true;
    }
    if fault == StatusWriteThrows {
      return false;
    }
    cache.Set(CacheKeys.CardStatus(number), StatusValue(CachedCardStatus(number, store.authorizations[number])), expiration);
    return true;
  }
}
