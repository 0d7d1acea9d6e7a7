/** Records and messages shared between the services, and the message bus seen as an outbox. */
module Contracts {
  import opened Wrappers
  import opened Constants

  /** Transaction identifier (a GUID in the services). */
  type TxId = nat

  /**
   * The four card fields carried by `CardResponseDto`, `CachedCardData` and
   * `CardUpdatedEvent`, and stored by the `Card` entity.
   */
  datatype CardData = CardData(number: string, balance: int, creditLimit: Option<int>, usedCredit: Option<int>)

  /** `Result<T>`: the answer of a request/response call. */
  datatype Result<T> = Result(data: Option<T>, error: string) {

    predicate IsSuccess()
    {
      data.Some?
    }

    /** `Result<T>.Success(data)`; `data` may be null at run time. */
    static function Success(data: Option<T>): (r: Result<T>)
      ensures r.data == data && r.error == ""
      ensures r.IsSuccess() <==> data.Some?
    {
      Result(data, "")
    }

    static function Failure(error: string): (r: Result<T>)
      ensures r.data.None? && r.error == error
      ensures !r.IsSuccess()
    {
      Result(None, error)
    }
  }

  /** The events published on the bus. */
  datatype Message =
    | CardUpdated(card: CardData)
    | TransactionAuthorized(id: TxId, cardNumber: string, recipientNumber: string, amount: int)
    | WithdrawFunds(id: TxId, cardNumber: string, recipientNumber: string, amount: int)
    | FundsWithdrawn(id: TxId, cardNumber: string, recipientNumber: string, amount: int)
      // `cardNumber` is the recipient here; `senderNumber` is the card to refund on failure
    | DepositFunds(id: TxId, cardNumber: string, senderNumber: string, amount: int)
    | TransactionCompleted(id: TxId)
    | TransactionFailed(id: TxId, reason: Reason, needRefund: bool, refundCard: Option<string>, refundAmount: Option<int>)
    | RefundRequested(id: TxId, cardNumber: string, amount: int)
    | TransactionRefunded(id: TxId)

  /** The publish endpoint, recorded as the sequence of everything published so far. */
  class Bus {
    var published: seq<Message>

    constructor ()
      ensures published == []
    {
      published := [];
    }

    method Publish(m: Message)
      modifies this
      ensures published == old(published) + [m]
    {
      published := published + [m];
    }
  }
}
