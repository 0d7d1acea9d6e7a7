/** The string constants shared by the services, as enumerations. */
module Constants {

  /** Status of a card transaction, stored as its name. The class is declared in `Constants/TransactionType.cs`. */
  datatype TransactionStatus =
    | Pending | Authorized | Withdrawn | Completed | Failed | RefundPending | Refunded
  {
    function Name(): string {
      match this
      case Pending => "Pending"
      case Authorized => "Authorized"
      case Withdrawn => "Funds withdrawn"
      case Completed => "Completed"
      case Failed => "Failed"
      case RefundPending => "Refund pending"
      case Refunded => "Refunded"
    }
  }

  /** Kind of a card log entry, stored as its name. The class is declared in `Constants/TransactionStatus.cs`. */
  datatype LogType = Initial | Withdrawal | Deposit | Refund | Update {
    function Name(): string {
      match this
      case Initial => "Initial balance"
      case Withdrawal => "Withdrawal"
      case Deposit => "Deposit"
      case Refund => "Refund"
      case Update => "Balance update"
    }
  }

  /** Reason carried by a failure event or an authorization log entry. */
  datatype Reason =
    | InsufficientFunds | InvalidRecipient | FeeNotFound | ServerError
    | CardNotFound | Authorized | AuthorizationFailed
  {
    function Name(): string {
      match this
      case InsufficientFunds => "Insufficient funds"
      case InvalidRecipient => "Invalid recipient card"
      case FeeNotFound => "Fee not found"
      case ServerError => "Server error"
      case CardNotFound => "Card not found"
      case Authorized => "Authorized"
      case AuthorizationFailed => "Authorization failed"
    }
  }

  /** Statuses are persisted as strings: distinct statuses never share a name. */
  lemma StatusNamesDistinct(a: TransactionStatus, b: TransactionStatus)
    ensures a.Name() == b.Name() <==> a == b
  {
  }

  /** Log kinds are persisted as strings: distinct kinds never share a name. */
  lemma LogTypeNamesDistinct(a: LogType, b: LogType)
    ensures a.Name() == b.Name() <==> a == b
  {
  }

  /** Reasons travel as strings: distinct reasons never share a text. */
  lemma ReasonNamesDistinct(a: Reason, b: Reason)
    ensures a.Name() == b.Name() <==> a == b
  {
  }
}
