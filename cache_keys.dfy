/** Builders of the cache keys, and the facts that keep the key kinds apart. */
module CacheKeys {

  const Prefix: string := "card:"

  function CardData(cardNumber: string): string {
    Prefix + cardNumber + ":data"
  }

  function CardStatus(cardNumber: string): string {
    Prefix + cardNumber + ":status"
  }

  function TransactionFraud(cardNumber: string): string {
    Prefix + cardNumber + ":fraud"
  }

  function PaymentFee(): string {
    "fee"
  }

  /** A key `card:{n}{suffix}` determines `n` once the suffix is fixed. */
  lemma PrefixedKeyInjective(a: string, b: string, suffix: string)
    requires Prefix + a + suffix == Prefix + b + suffix
    ensures a == b
  {
    var k := Prefix + a + suffix;
    assert |a| == |b|;
    assert a == k[|Prefix|..|Prefix| + |a|];
    assert b == (Prefix + b + suffix)[|Prefix|..|Prefix| + |b|];
  }

  lemma CardDataInjective(a: string, b: string)
    ensures CardData(a) == CardData(b) ==> a == b
  {
    if CardData(a) == CardData(b) {
      PrefixedKeyInjective(a, b, ":data");
    }
  }

  lemma CardStatusInjective(a: string, b: string)
    ensures CardStatus(a) == CardStatus(b) ==> a == b
  {
    if CardStatus(a) == CardStatus(b) {
      PrefixedKeyInjective(a, b, ":status");
    }
  }

  lemma TransactionFraudInjective(a: string, b: string)
    ensures TransactionFraud(a) == TransactionFraud(b) ==> a == b
  {
    if TransactionFraud(a) == TransactionFraud(b) {
      PrefixedKeyInjective(a, b, ":fraud");
    }
  }

  /** Keys of different kinds never collide: their last characters differ, and "fee" is too short. */
  lemma KeyKindsDistinct(a: string, b: string)
    ensures CardData(a) != CardStatus(b)
    ensures CardData(a) != TransactionFraud(b)
    ensures CardStatus(a) != TransactionFraud(b)
    ensures CardData(a) != PaymentFee() && CardStatus(a) != PaymentFee() && TransactionFraud(a) != PaymentFee()
  {
    var d, s, f := CardData(a), CardStatus(b), TransactionFraud(b);
    assert d[|d| - 1] == 'a';
    assert s[|s| - 1] == 's';
    assert f[|f| - 1] == 'd';
    assert CardStatus(a)[|CardStatus(a)| - 1] == 's';
    assert |CardData(a)| > 3 && |CardStatus(a)| > 3 && |TransactionFraud(a)| > 3;
  }
}
