/**
 * The duplicate-transfer window: each sender has a sorted set of its recent transfers,
 * scored by their time in Unix seconds.
 */
module Fraud {
  import opened Caching

  /** The recent transfers still inside the window: those scored in `[0, now - period]` are gone. */
  function Pruned(members: map<FraudEntry, int>, now: int, period: int): (r: map<FraudEntry, int>)
    ensures forall e | e in r :: e in members && r[e] == members[e]
    ensures forall e | e in members :: e in r <==> (members[e] < 0 || members[e] > now - period)
  {
    RemoveByScore(members, 0, now - period)
  }

  /** A recent transfer to the same recipient for the same amount. */
  predicate HasMatch(members: map<FraudEntry, int>, recipient: string, amount: int) {
    exists e | e in members :: e.recipientNumber == recipient && e.amount == amount
  }

  /** The outcome of a duplicate check: the verdict and the sender's recent transfers afterwards. */
  datatype FraudVerdict = FraudVerdict(duplicate: bool, after: map<FraudEntry, int>)

  /**
   * `IsDuplicateTransaction` on the sender's sorted set: prune the window, then either report
   * a match or record this transfer at score `now`.
   */
  function FraudCheck(members: map<FraudEntry, int>, recipient: string, amount: int, now: int, period: int): (v: FraudVerdict)
    ensures v.duplicate <==> HasMatch(Pruned(members, now, period), recipient, amount)
    ensures v.duplicate ==> v.after == Pruned(members, now, period)
    ensures !v.duplicate ==> v.after == Pruned(members, now, period)[FraudEntry(now, amount, recipient) := now]
    // the window never holds a transfer it should have forgotten, except the one just recorded
    ensures forall e | e in v.after :: v.after[e] < 0 || v.after[e] > now - period || e == FraudEntry(now, amount, recipient)
  {
    var pruned := Pruned(members, now, period);
    if HasMatch(pruned, recipient, amount) then FraudVerdict(true, pruned)
    else FraudVerdict(false, pruned[FraudEntry(now, amount, recipient) := now])
  }

  /** After a transfer passes, an identical one within the window is reported as a duplicate. */
  lemma RepeatWithinWindowIsDuplicate(members: map<FraudEntry, int>, recipient: string, amount: int,
                                      first: int, second: int, period: int)
    requires !FraudCheck(members, recipient, amount, first, period).duplicate
    requires first < 0 || first > second - period
    ensures FraudCheck(FraudCheck(members, recipient, amount, first, period).after, recipient, amount, second, period).duplicate
  {
    var after := FraudCheck(members, recipient, amount, first, period).after;
    var e := FraudEntry(first, amount, recipient);
    assert e in after && after[e] == first;
    assert e in Pruned(after, second, period);
  }

  /** Once every recorded transfer has left the window, the same transfer passes again and is recorded alone. */
  lemma AfterWindowNotDuplicate(members: map<FraudEntry, int>, recipient: string, amount: int, now: int, period: int)
    requires forall e | e in members :: 0 <= members[e] <= now - period
    ensures var v := FraudCheck(members, recipient, amount, now, period);
            !v.duplicate && v.after == map[FraudEntry(now, amount, recipient) := now]
  {
    assert Pruned(members, now, period) == map[];
  }

  /** A transfer to another recipient or for another amount is never blocked by this one. */
  lemma DifferentTransferNotBlocked(members: map<FraudEntry, int>, recipient: string, amount: int, now: int, period: int,
                                    other: string, otherAmount: int, later: int)
    requires !HasMatch(members, other, otherAmount)
    requires recipient != other || amount != otherAmount
    ensures !FraudCheck(FraudCheck(members, recipient, amount, now, period).after, other, otherAmount, later, period).duplicate
  {
  }
}
