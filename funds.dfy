/**
 * The single admission predicate on a card's funds.
 *
 * Amounts are C# `decimal` values stored with 4 decimal places; they are
 * modelled exactly as integers counting units of 0.0001.
 */
module Funds {
  import opened Wrappers

  /** `x ?? 0` */
  function OrZero(x: Option<int>): int {
    x.GetOr(0)
  }

  function Max(a: int, b: int): int {
    if a >= b then a else b
  }

  /** Balance plus the unused part of the credit line; a missing limit or used credit reads as 0. */
  function AvailableFunds(balance: int, creditLimit: Option<int>, usedCredit: Option<int>): (r: int)
    ensures r >= balance
    ensures OrZero(usedCredit) >= OrZero(creditLimit) ==> r == balance
    ensures OrZero(usedCredit) < OrZero(creditLimit) ==> r - balance == OrZero(creditLimit) - OrZero(usedCredit)
  {
    var availableCredit := OrZero(creditLimit) - OrZero(usedCredit);
    balance + Max(availableCredit, 0)
  }

  /** `FundsHelper.HasSufficientFunds` */
  function HasSufficientFunds(balance: int, creditLimit: Option<int>, usedCredit: Option<int>, amount: int): (ok: bool)
    // either the balance covers the amount, or the shortfall fits into the unused credit
    ensures ok <==> amount <= balance || amount - balance <= OrZero(creditLimit) - OrZero(usedCredit)
    ensures amount <= balance ==> ok
    // an over-used credit line adds nothing
    ensures OrZero(usedCredit) >= OrZero(creditLimit) ==> (ok <==> amount <= balance)
    ensures creditLimit.None? && usedCredit.None? ==> (ok <==> amount <= balance)
  {
    AvailableFunds(balance, creditLimit, usedCredit) >= amount
  }

  lemma SufficientFundsMonotoneInAmount(balance: int, creditLimit: Option<int>, usedCredit: Option<int>, amount: int, smaller: int)
    requires smaller <= amount
    ensures HasSufficientFunds(balance, creditLimit, usedCredit, amount) ==> HasSufficientFunds(balance, creditLimit, usedCredit, smaller)
  {
  }

  lemma SufficientFundsMonotoneInBalance(balance: int, larger: int, creditLimit: Option<int>, usedCredit: Option<int>, amount: int)
    requires balance <= larger
    ensures HasSufficientFunds(balance, creditLimit, usedCredit, amount) ==> HasSufficientFunds(larger, creditLimit, usedCredit, amount)
  {
  }
}
