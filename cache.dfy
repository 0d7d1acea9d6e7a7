/**
 * The shared cache: a key/value store with expirations, per-key sorted sets
 * (used for the fraud window) and the per-card transfer locks.
 */
module Caching {
  import opened Wrappers
  import opened Contracts

  /** `CachedFraudData`: one recent transfer of a sender. */
  datatype FraudEntry = FraudEntry(timestamp: int, amount: int, recipientNumber: string)

  /** `CachedCardStatus` */
  datatype CachedCardStatus = CachedCardStatus(cardNumber: string, isActive: bool)

  datatype CacheValue =
    | CardDataValue(card: CardData)
    | StatusValue(status: CachedCardStatus)
    | FeeValue(fee: int)
      // a sorted set maps each member to its score
    | SortedSet(members: map<FraudEntry, int>)

  /** A cached value and the expiration (in seconds) it was written with, if any. */
  datatype Entry = Entry(value: CacheValue, expiration: Option<int>)

  /** `GetAsync<CachedCardData>(key)`; a missing key or a value of another type reads as null. */
  function CardDataIn(entries: map<string, Entry>, key: string): Option<CardData> {
    if key in entries && entries[key].value.CardDataValue? then Some(entries[key].value.card) else None
  }

  /** `GetAsync<CachedCardStatus>(key)` */
  function StatusIn(entries: map<string, Entry>, key: string): Option<CachedCardStatus> {
    if key in entries && entries[key].value.StatusValue? then Some(entries[key].value.status) else None
  }

  /** `GetAsync<decimal>(key)`: a missing value reads as `default(decimal)`, that is 0. */
  function FeeIn(entries: map<string, Entry>, key: string): int {
    if key in entries && entries[key].value.FeeValue? then entries[key].value.fee else 0
  }

  /** `GetSortedSetAsync(key)`: a missing key reads as the empty set. */
  function SortedSetIn(entries: map<string, Entry>, key: string): map<FraudEntry, int> {
    if key in entries && entries[key].value.SortedSet? then entries[key].value.members else map[]
  }

  /** The members left after removing every member whose score lies in `[min, max]`. */
  function RemoveByScore(members: map<FraudEntry, int>, min: int, max: int): (r: map<FraudEntry, int>)
    ensures forall e :: e in r <==> e in members && !(min <= members[e] <= max)
    ensures forall e | e in r :: r[e] == members[e]
  {
    map e | e in members && !(min <= members[e] <= max) :: members[e]
  }

  class Cache {
    var entries: map<string, Entry>
    /** Card numbers whose transfer lock is held. */
    var locks: set<string>

    constructor (initial: map<string, Entry>)
      ensures entries == initial && locks == {}
    {
      entries := initial;
      locks := {};
    }

    /** `SetAsync(key, value, expiration)` */
    method Set(key: string, value: CacheValue, expiration: int)
      modifies this
      ensures entries == old(entries)[key := Entry(value, Some(expiration))]
      ensures locks == old(locks)
    {
      entries := entries[key := Entry(value, Some(expiration))];
    }

    /** `RemoveRangeByScoreAsync(key, min, max)`; a key that holds no sorted set is left alone. */
    method RemoveRangeByScore(key: string, min: int, max: int)
      modifies this
      ensures SortedSetIn(entries, key) == RemoveByScore(SortedSetIn(old(entries), key), min, max)
      ensures AgreeOutside(old(entries), entries, {key})
      ensures locks == old(locks)
    {
      if key in entries && entries[key].value.SortedSet? {
        var e := entries[key];
        entries := entries[key := e.(value := SortedSet(RemoveByScore(e.value.members, min, max)))];
      }
    }

    /** `AddToSortedSetAsync(key, member, score)`: inserts the member, or moves it to the new score. */
    method AddToSortedSet(key: string, member: FraudEntry, score: int)
      modifies this
      ensures SortedSetIn(entries, key) == SortedSetIn(old(entries), key)[member := score]
      ensures AgreeOutside(old(entries), entries, {key})
      ensures locks == old(locks)
    {
      var members := SortedSetIn(entries, key);
      var expiration := if key in entries && entries[key].value.SortedSet? then entries[key].expiration else None;
      entries := entries[key := Entry(SortedSet(members[member := score]), expiration)];
    }

    /** `AcquireLockAsync(CardLock(cardNumber), ...)`: set-if-absent. */
    method AcquireLock(cardNumber: string) returns (acquired: bool)
      modifies this
      ensures acquired <==> cardNumber !in old(locks)
      ensures locks == old(locks) + {cardNumber}
      ensures entries == old(entries)
    {
      acquired := cardNumber !in locks;
      locks := locks + {cardNumber};
    }

    /** `ReleaseLockAsync(CardLock(cardNumber))`: unconditional and idempotent. */
    method ReleaseLock(cardNumber: string)
      modifies this
      ensures locks == old(locks) - {cardNumber}
      ensures entries == old(entries)
    {
      locks := locks - {cardNumber};
    }
  }

  /** Two acquisitions without a release in between: the second one fails. */
  method LockMutualExclusion(cache: Cache, cardNumber: string) returns (first: bool, second: bool)
    modifies cache
    ensures !second
    ensures first <==> cardNumber !in old(cache.locks)
  {
    first := cache.AcquireLock(cardNumber);
    second := cache.AcquireLock(cardNumber);
  }
}
