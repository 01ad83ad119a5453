/** The records of the persisted store (users, subscriptions and the
    webhook ledger) and the shape of an incoming billing event. */
module Schema {
  import opened Values

  /** A row of the `users` table. */
  datatype User = User(tokenIdentifier: string, email: Option<string>)

  /** Opaque key-value data passed through from the billing provider. */
  type Metadata = map<string, string>

  /** A row of the `subscriptions` table. Instants are epoch milliseconds;
      an absent optional field is one the row does not carry. */
  datatype Subscription = Subscription(
    polarId: string,
    polarPriceId: string,
    currency: string,
    interval: string,
    userId: Option<string>,
    status: string,
    currentPeriodStart: int,
    currentPeriodEnd: int,
    cancelAtPeriodEnd: bool,
    amount: int,
    startedAt: int,
    endedAt: Option<int>,
    canceledAt: Option<int>,
    customerCancellationReason: Option<string>,
    customerCancellationComment: Option<string>,
    metadata: Metadata,
    customFieldData: Metadata,
    customerId: string)

  /** The `data` object of a webhook payload. Timestamps are the provider's
      ISO-8601 strings; a field is optional where the handler tests it. */
  datatype EventData = EventData(
    id: string,
    createdAt: string,
    modifiedAt: Option<string>,
    priceId: string,
    currency: string,
    recurringInterval: string,
    metadata: Option<Metadata>,
    status: string,
    currentPeriodStart: string,
    currentPeriodEnd: string,
    cancelAtPeriodEnd: bool,
    amount: int,
    startedAt: string,
    endedAt: Option<string>,
    canceledAt: Option<string>,
    customerCancellationReason: Option<string>,
    customerCancellationComment: Option<string>,
    customFieldData: Option<Metadata>,
    customerId: string)

  /** A verified, parsed webhook payload `{ type, data }`. */
  datatype Event = Event(eventType: string, data: EventData)

  /** A row of the append-only `webhookEvents` ledger. */
  datatype LedgerEntry = LedgerEntry(
    eventType: string,
    polarEventId: string,
    createdAt: string,
    modifiedAt: string,
    data: EventData)

  /** The three tables of the store. */
  datatype Store = Store(
    users: seq<User>,
    subscriptions: seq<Subscription>,
    webhookEvents: seq<LedgerEntry>)

  /** Conversion of an ISO-8601 timestamp to epoch milliseconds
      (`new Date(x).getTime()`), supplied by the runtime. */
  type EpochMs = string -> int
}
