/** The card-management commands and queries, and its projection of card updates into the cache. */
module CardCommands {
  import opened Wrappers
  import Constants
  import opened Contracts
  import opened Ledger
  import opened Caching
  import CacheKeys

  /** Which call of `CreateCardHandler` throws, if any. */
  datatype CreateFault = CreateNoFault | AddThrows | CreatePublishThrows | CreateLogThrows

  /** A new card: the requested number, balance and limit, and no credit drawn. */
  function NewCard(number: string, initialBalance: int, creditLimit: Option<int>): (c: CardData)
    ensures c.number == number && c.balance == initialBalance && c.creditLimit == creditLimit
    ensures c.usedCredit == Some(0)
    ensures initialBalance >= 0 && (creditLimit.None? || creditLimit.value >= 0) ==> Healthy(c)
  {
    CardData(number, initialBalance, creditLimit, Some(0))
  }

  /**
   * `CreateCardHandler.Handle`: stores the card, announces it, logs the opening balance
   * and returns it. A card number already in use makes the store throw; every
   * exception is logged and rethrown, so what was done before it stays done.
   */
  method CreateCard(store: CardStore, bus: Bus, number: string, initialBalance: int, creditLimit: Option<int>,
                    now: int, fault: CreateFault) returns (r: Completion<CardData>)
    modifies store, bus
    ensures var card := NewCard(number, initialBalance, creditLimit);
            var added := number !in old(store.cards) && fault != AddThrows;
            && (r.Returned? <==> added && fault == CreateNoFault)
            && (r.Returned? ==> r.value == card)
            && store.cards == (if added then old(store.cards)[number := card] else old(store.cards))
            && bus.published == old(bus.published) + (if added && fault != CreatePublishThrows then [CardUpdated(card)] else [])
            && store.logs == old(store.logs) + (if added && fault == CreateNoFault then [CardLog(number, initialBalance, Constants.Initial, now)] else [])
    ensures store.savepoint == old(store.savepoint)
    ensures old(store.Valid()) ==> store.Valid()
  {
    var card := NewCard(number, initialBalance, creditLimit);
    if fault == AddThrows {
      return Threw;
    }
    var ok := store.Add(card);
    if !ok {
      return Threw;
    }
    if fault == CreatePublishThrows {
      return Threw;
    }
    bus.Publish(CardUpdated(card));
    if fault == CreateLogThrows {
      return Threw;
    }
    store.AppendLog(CardLog(card.number, card.balance, Constants.Initial, now));
    return Returned(card);
  }

  /** The card with the requested balance and limit applied; a missing field keeps the stored value. */
  function UpdatedCard(c: CardData, balance: Option<int>, creditLimit: Option<int>): (r: CardData)
    ensures r.number == c.number && r.usedCredit == c.usedCredit
    ensures balance.Some? ==> r.balance == balance.value
    ensures creditLimit.Some? ==> r.creditLimit == creditLimit
    // a field changes only when the request carries it with a different value
    ensures r.balance != c.balance ==> balance.Some? && balance.value != c.balance
    ensures r.creditLimit != c.creditLimit ==> creditLimit.Some? && creditLimit != c.creditLimit
  {
    c.(balance := balance.GetOr(c.balance), creditLimit := if creditLimit.Some? then creditLimit else c.creditLimit)
  }

  /** Applying the same update twice is applying it once. */
  lemma UpdatedCardIdempotent(c: CardData, balance: Option<int>, creditLimit: Option<int>)
    ensures UpdatedCard(UpdatedCard(c, balance, creditLimit), balance, creditLimit) == UpdatedCard(c, balance, creditLimit)
  {
  }

  /** A request without fields, or whose fields equal the stored ones, changes nothing. */
  lemma UpdatedCardUnchangedWhenNothingDiffers(c: CardData, balance: Option<int>, creditLimit: Option<int>)
    ensures UpdatedCard(c, balance, creditLimit) == c <==>
            (balance.None? || balance.value == c.balance) && (creditLimit.None? || creditLimit == c.creditLimit)
  {
  }

  /** Which call of `UpdateCardHandler` throws, if any. */
  datatype UpdateFault = UpdateNoFault | LookupThrows | UpdateThrows | UpdatePublishThrows | UpdateLogThrows

  /**
   * `UpdateCardHandler.Handle`: applies a balance and/or limit change to an existing card,
   * announces it, and logs a balance change as its difference. The answer is true only
   * when something changed and every step succeeded.
   */
  method UpdateCard(store: CardStore, bus: Bus, number: string, balance: Option<int>, creditLimit: Option<int>,
                    now: int, fault: UpdateFault) returns (ok: bool)
    requires store.Valid()
    modifies store, bus
    ensures var before := if number in old(store.cards) then old(store.cards)[number] else NewCard(number, 0, None);
            var updated := UpdatedCard(before, balance, creditLimit);
            var changed := (balance.Some? || creditLimit.Some?) && number in old(store.cards) && updated != before;
            var stored := changed && fault != LookupThrows && fault != UpdateThrows;
            // a failing log call matters only when the balance changed, since only then is it made
            && (ok <==> changed && (fault == UpdateNoFault || (fault == UpdateLogThrows && updated.balance == before.balance)))
            && store.cards == (if stored then old(store.cards)[number := updated] else old(store.cards))
            && bus.published == old(bus.published) + (if stored && fault != UpdatePublishThrows then [CardUpdated(updated)] else [])
            && store.logs == old(store.logs) + (if ok && updated.balance != before.balance
                                                then [CardLog(number, updated.balance - before.balance, Constants.Update, now)] else [])
    ensures store.savepoint == old(store.savepoint)
    ensures store.Valid()
  {
    if balance.None? && creditLimit.None? {
      return false;
    }
    if fault == LookupThrows {
      return false;
    }
    var found := store.GetByNumber(number);
    if found.None? {
      return false;
    }
    var card := found.value;
    var balanceUpdated := false;
    var limitUpdated := false;
    var initialBalance := card.balance;
    if balance.Some? && balance.value != card.balance {
      card := card.(balance := balance.value);
      balanceUpdated := true;
    }
    if creditLimit.Some? && creditLimit != card.creditLimit {
      card := card.(creditLimit := creditLimit);
      limitUpdated := true;
    }
    assert card == UpdatedCard(found.value, balance, creditLimit);
    if !balanceUpdated && !limitUpdated {
      return false;
    }
    if fault == UpdateThrows {
      return false;
    }
    store.Update(card);
    if fault == UpdatePublishThrows {
      return false;
    }
    bus.Publish(CardUpdated(card));
    if balanceUpdated {
      if fault == UpdateLogThrows {
        return false;
      }
      store.AppendLog(CardLog(card.number, -(initialBalance - card.balance), Constants.Update, now));
    }
    return true;
  }

  /** Which call of `GetCardHandler` throws, if any. */
  datatype GetCardFault = GetNoFault | CacheReadThrows | StoreReadThrows | CacheWriteThrows

  /**
   * `GetCardHandler.Handle`: the cached view if there is one, otherwise the stored card,
   * which is then cached for `expiration` seconds; null for an unknown card. The handler
   * catches nothing: an exception reaches the caller, and the cache is then as it was.
   */
  method GetCard(cache: Cache, store: CardStore, number: string, expiration: int, fault: GetCardFault)
    returns (r: Completion<Option<CardData>>)
    modifies cache
    ensures var key := CacheKeys.CardData(number);
            var hit := fault != CacheReadThrows && CardDataIn(old(cache.entries), key).Some?;
            && (r.Threw? <==> fault == CacheReadThrows
                              || (!hit && (fault == StoreReadThrows || (number in store.cards && fault == CacheWriteThrows))))
            && (r.Threw? ==> cache.entries == old(cache.entries))
            && (r.Returned? ==>
                  && (r.value.None? <==> !hit && number !in store.cards)
                  // whatever is answered is what the cache holds afterwards
                  && (r.value.Some? ==> CardDataIn(cache.entries, key) == r.value)
                  && (hit ==> r.value == CardDataIn(old(cache.entries), key) && cache.entries == old(cache.entries))
                  && (!hit && number in store.cards ==>
                        r.value == Some(store.cards[number])
                        && cache.entries == old(cache.entries)[key := Entry(CardDataValue(store.cards[number]), Some(expiration))])
                  && (r.value.None? ==> cache.entries == old(cache.entries)))
    ensures cache.locks == old(cache.locks)
  {
    var key := CacheKeys.CardData(number);
    if fault == CacheReadThrows {
      return Threw;
    }
    var cached := CardDataIn(cache.entries, key);
    if cached.Some? {
      return Returned(cached);
    }
    if fault == StoreReadThrows {
      return Threw;
    }
    var card := store.GetByNumber(number);
    if card.None? {
      return Returned(None);
    }
    if fault == CacheWriteThrows {
      return Threw;
    }
    cache.Set(key, CardDataValue(card.value), expiration);
    return Returned(card);
  }

  /**
   * The cached view after a card update: a fresh copy of the event when nothing was
   * cached, otherwise the cached view with the new balance and with the limit and used
   * credit of the event where it carries them.
   */
  function MergeCardData(cached: Option<CardData>, event: CardData): (r: CardData)
    ensures r.balance == event.balance
    ensures cached.None? ==> r == event
    ensures cached.Some? ==> r.number == cached.value.number
    ensures event.creditLimit.Some? || cached.None? ==> r.creditLimit == event.creditLimit
    ensures event.creditLimit.None? && cached.Some? ==> r.creditLimit == cached.value.creditLimit
    ensures event.usedCredit.Some? || cached.None? ==> r.usedCredit == event.usedCredit
    ensures event.usedCredit.None? && cached.Some? ==> r.usedCredit == cached.value.usedCredit
  {
    match cached
    case None => event
    case Some(c) =>
      c.(balance := event.balance,
         creditLimit := if event.creditLimit.Some? then event.creditLimit else c.creditLimit,
         usedCredit := if event.usedCredit.Some? then event.usedCredit else c.usedCredit)
  }

  /** Delivering the same update twice leaves the view as delivering it once. */
  lemma MergeCardDataIdempotent(cached: Option<CardData>, event: CardData)
    ensures MergeCardData(Some(MergeCardData(cached, event)), event) == MergeCardData(cached, event)
  {
  }

  /** An update carrying every field makes the view equal to the event, whatever was cached for its number. */
  lemma MergeCompleteEvent(cached: Option<CardData>, event: CardData)
    requires event.creditLimit.Some? && event.usedCredit.Some?
    requires cached.Some? ==> cached.value.number == event.number
    ensures MergeCardData(cached, event) == event
  {
  }

  /**
   * Card management's `CardUpdatedEventHandler.Consume`: refreshes the cached view of
   * the card for `expiration` seconds; a cache failure is rethrown with nothing written.
   */
  method ConsumeCardUpdated(cache: Cache, event: CardData, expiration: int, cacheThrows: bool) returns (completed: bool)
    modifies cache
    ensures completed <==> !cacheThrows
    ensures var key := CacheKeys.CardData(event.number);
            cache.entries == if completed
              then old(cache.entries)[key := Entry(CardDataValue(MergeCardData(CardDataIn(old(cache.entries), key), event)), Some(expiration))]
              else old(cache.entries)
    ensures cache.locks == old(cache.locks)
  {
    if cacheThrows {
      return false;
    }
    var key := CacheKeys.CardData(event.number);
    var cached := CardDataIn(cache.entries, key);
    var view := if cached.None? then event else cached.value.(balance := event.balance,
      creditLimit := if event.creditLimit.Some? then event.creditLimit else cached.value.creditLimit,
      usedCredit := if event.usedCredit.Some? then event.usedCredit else cached.value.usedCredit);
    cache.Set(key, CardDataValue(view), expiration);
    return true;
  }
}
