/** Values shared by scoring, ingestion and the ledger. */
module Domain {
  import opened Wrappers

  // Amounts are whole ten-thousandths of a currency unit, the scale of NUMERIC(19, 4).
  type Money = int
  type TxId = nat

  datatype TransactionType = Expense | Income | Transfer | Refund | SharedExpense

  datatype EventKind =
    | TransactionEvent(kind: TransactionType)
    | ReceivableEvent
    | PayableEvent
    | RecurringEvent
    | UnknownEvent

  /** A normalized financial event; every field but the description may be missing. */
  datatype Event = Event(
    kind: EventKind,
    amount: Option<Money>,
    currency: Option<string>,
    occurredAt: Option<int>,  // microseconds
    description: string,
    merchant: Option<string>,
    identifiers: seq<string>)

  datatype Decision = Merge | PossibleDuplicate | NewTransaction

  /** The smallest amount NUMERIC(19, 4) cannot hold. */
  const MONEY_LIMIT: Money := 10_000_000_000_000_000_000

  const SUPPORTED_CURRENCIES: set<string> :=
    {"AED", "AUD", "CAD", "CHF", "CNY", "EUR", "GBP", "HKD", "INR", "JPY", "NZD", "SGD", "USD"}
}
