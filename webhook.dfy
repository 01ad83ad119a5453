/** The webhook event applier as a pure transition over the store: the
    ledger entry every event writes, the row `subscription.created`
    inserts, and the patch each other subscription event applies to the
    first row carrying the event's `polarId`. */
module Webhook {
  import opened Values
  import opened Schema

  const Created := "subscription.created"
  const Updated := "subscription.updated"
  const Active := "subscription.active"
  const Canceled := "subscription.canceled"
  const Uncanceled := "subscription.uncanceled"
  const Revoked := "subscription.revoked"
  const OrderCreated := "order.created"

  /** The event types that patch an existing row. */
  predicate IsPatchEvent(t: string) {
    t == Updated || t == Active || t == Canceled || t == Uncanceled || t == Revoked
  }

  /** Why a mutation is rolled back: reading `data.metadata.userId` throws
      when the payload has no metadata, and the aborted mutation keeps none
      of its writes, the ledger insert included. */
  datatype Abort = MissingMetadata

  /** A `subscription.created` payload without metadata makes the handler throw. */
  predicate Aborts(ev: Event) {
    ev.eventType == Created && ev.data.metadata.None?
  }

  /** The ledger row written for every event, whatever its type. */
  function LedgerEntryFor(ev: Event): (e: LedgerEntry)
    ensures e.eventType == ev.eventType && e.polarEventId == ev.data.id && e.data == ev.data
    ensures e.createdAt == ev.data.createdAt
    ensures Truthy(ev.data.modifiedAt) ==> e.modifiedAt == ev.data.modifiedAt.value
    ensures !Truthy(ev.data.modifiedAt) ==> e.modifiedAt == ev.data.createdAt
  {
    LedgerEntry(ev.eventType, ev.data.id, ev.data.createdAt,
                OrElse(ev.data.modifiedAt, ev.data.createdAt), ev.data)
  }

  /** An optional timestamp converted only when it is truthy (`x ? toMs(x) : undefined`). */
  function OptionalInstant(s: Option<string>, epochMs: EpochMs): (r: Option<int>)
    ensures r.Some? <==> Truthy(s)
    ensures r.Some? ==> r.value == epochMs(s.value)
  {
    if Truthy(s) then Some(epochMs(s.value)) else None
  }

  /** `m || {}` on an optional key-value object. */
  function MetadataOrEmpty(m: Option<Metadata>): (r: Metadata)
    ensures m.Some? ==> r == m.value
    ensures m.None? ==> r == map[]
  {
    if m.Some? then m.value else map[]
  }

  /** The row `subscription.created` inserts, or None when the payload has no
      metadata to read the owning user from. */
  function NewSubscription(d: EventData, epochMs: EpochMs): (r: Option<Subscription>)
    ensures r.None? <==> d.metadata.None?
    ensures r.Some? ==> r.value.polarId == d.id && r.value.status == d.status
    ensures r.Some? ==> r.value.userId == (if "userId" in d.metadata.value then Some(d.metadata.value["userId"]) else None)
    ensures r.Some? ==> r.value.metadata == d.metadata.value
    ensures r.Some? ==> r.value.customFieldData == MetadataOrEmpty(d.customFieldData)
    ensures r.Some? ==> r.value.polarPriceId == d.priceId && r.value.currency == d.currency &&
                        r.value.interval == d.recurringInterval && r.value.amount == d.amount &&
                        r.value.customerId == d.customerId && r.value.cancelAtPeriodEnd == d.cancelAtPeriodEnd
    ensures r.Some? ==> r.value.currentPeriodStart == epochMs(d.currentPeriodStart) &&
                        r.value.currentPeriodEnd == epochMs(d.currentPeriodEnd) &&
                        r.value.startedAt == epochMs(d.startedAt)
    ensures r.Some? ==> r.value.endedAt == OptionalInstant(d.endedAt, epochMs) &&
                        r.value.canceledAt == OptionalInstant(d.canceledAt, epochMs)
    ensures r.Some? ==> r.value.customerCancellationReason == NonEmpty(d.customerCancellationReason)
    ensures r.Some? ==> r.value.customerCancellationComment == NonEmpty(d.customerCancellationComment)
  {
    match d.metadata
    case None => None
    case Some(meta) =>
      Some(Subscription(
        polarId := d.id,
        polarPriceId := d.priceId,
        currency := d.currency,
        interval := d.recurringInterval,
        userId := if "userId" in meta then Some(meta["userId"]) else None,
        status := d.status,
        currentPeriodStart := epochMs(d.currentPeriodStart),
        currentPeriodEnd := epochMs(d.currentPeriodEnd),
        cancelAtPeriodEnd := d.cancelAtPeriodEnd,
        amount := d.amount,
        startedAt := epochMs(d.startedAt),
        endedAt := OptionalInstant(d.endedAt, epochMs),
        canceledAt := OptionalInstant(d.canceledAt, epochMs),
        customerCancellationReason := NonEmpty(d.customerCancellationReason),
        customerCancellationComment := NonEmpty(d.customerCancellationComment),
        metadata := MetadataOrEmpty(d.metadata),
        customFieldData := MetadataOrEmpty(d.customFieldData),
        customerId := d.customerId))
  }

  /** `subscription.updated`: billing terms, period and pass-through data. */
  function PatchUpdated(s: Subscription, d: EventData, epochMs: EpochMs): (r: Subscription)
    ensures r == s.(amount := r.amount, status := r.status,
                    currentPeriodStart := r.currentPeriodStart, currentPeriodEnd := r.currentPeriodEnd,
                    cancelAtPeriodEnd := r.cancelAtPeriodEnd,
                    metadata := r.metadata, customFieldData := r.customFieldData)
    ensures r.amount == d.amount && r.status == d.status && r.cancelAtPeriodEnd == d.cancelAtPeriodEnd
    ensures r.currentPeriodStart == epochMs(d.currentPeriodStart)
    ensures r.currentPeriodEnd == epochMs(d.currentPeriodEnd)
    ensures r.metadata == MetadataOrEmpty(d.metadata)
    ensures r.customFieldData == MetadataOrEmpty(d.customFieldData)
  {
    s.(amount := d.amount,
       status := d.status,
       currentPeriodStart := epochMs(d.currentPeriodStart),
       currentPeriodEnd := epochMs(d.currentPeriodEnd),
       cancelAtPeriodEnd := d.cancelAtPeriodEnd,
       metadata := MetadataOrEmpty(d.metadata),
       customFieldData := MetadataOrEmpty(d.customFieldData))
  }

  /** `subscription.active`: status and start instant. */
  function PatchActive(s: Subscription, d: EventData, epochMs: EpochMs): (r: Subscription)
    ensures r == s.(status := r.status, startedAt := r.startedAt)
    ensures r.status == d.status && r.startedAt == epochMs(d.startedAt)
  {
    s.(status := d.status, startedAt := epochMs(d.startedAt))
  }

  /** `subscription.canceled`: status, cancellation instant and the customer's
      reason and comment, each absent when the payload's value is falsy. */
  function PatchCanceled(s: Subscription, d: EventData, epochMs: EpochMs): (r: Subscription)
    ensures r == s.(status := r.status, canceledAt := r.canceledAt,
                    customerCancellationReason := r.customerCancellationReason,
                    customerCancellationComment := r.customerCancellationComment)
    ensures r.status == d.status
    ensures r.canceledAt == OptionalInstant(d.canceledAt, epochMs)
    ensures r.customerCancellationReason.Some? <==> Truthy(d.customerCancellationReason)
    ensures r.customerCancellationComment.Some? <==> Truthy(d.customerCancellationComment)
    ensures r.customerCancellationReason.Some? ==> r.customerCancellationReason == d.customerCancellationReason
    ensures r.customerCancellationComment.Some? ==> r.customerCancellationComment == d.customerCancellationComment
  {
    s.(status := d.status,
       canceledAt := OptionalInstant(d.canceledAt, epochMs),
       customerCancellationReason := NonEmpty(d.customerCancellationReason),
       customerCancellationComment := NonEmpty(d.customerCancellationComment))
  }

  /** `subscription.uncanceled`: the payload's status, and every trace of the
      cancellation cleared whatever the row held before. */
  function PatchUncanceled(s: Subscription, d: EventData): (r: Subscription)
    ensures r == s.(status := r.status, cancelAtPeriodEnd := r.cancelAtPeriodEnd, canceledAt := r.canceledAt,
                    customerCancellationReason := r.customerCancellationReason,
                    customerCancellationComment := r.customerCancellationComment)
    ensures r.status == d.status && !r.cancelAtPeriodEnd
    ensures r.canceledAt.None? && r.customerCancellationReason.None? && r.customerCancellationComment.None?
  {
    s.(status := d.status,
       cancelAtPeriodEnd := false,
       canceledAt := None,
       customerCancellationReason := None,
       customerCancellationComment := None)
  }

  /** `subscription.revoked`: status forced to "revoked" whatever the payload
      says, and the end instant set from `ended_at` or cleared. */
  function PatchRevoked(s: Subscription, d: EventData, epochMs: EpochMs): (r: Subscription)
    ensures r == s.(status := r.status, endedAt := r.endedAt)
    ensures r.status == "revoked"
    ensures r.endedAt == OptionalInstant(d.endedAt, epochMs)
  {
    s.(status := "revoked", endedAt := OptionalInstant(d.endedAt, epochMs))
  }

  /** The patch a patching event applies to the row it found. */
  function Patch(t: string, s: Subscription, d: EventData, epochMs: EpochMs): (r: Subscription)
    requires IsPatchEvent(t)
  {
    if t == Updated then PatchUpdated(s, d, epochMs)
    else if t == Active then PatchActive(s, d, epochMs)
    else if t == Canceled then PatchCanceled(s, d, epochMs)
    else if t == Uncanceled then PatchUncanceled(s, d)
    else PatchRevoked(s, d, epochMs)
  }

  /** The row `.withIndex("polarId", ...).first()` returns: the earliest
      inserted row with that provider id. */
  function FirstWithPolarId(subs: seq<Subscription>, polarId: string): (r: Option<nat>)
    ensures r.Some? ==> r.value < |subs| && subs[r.value].polarId == polarId
    ensures r.Some? ==> forall j :: 0 <= j < r.value ==> subs[j].polarId != polarId
    ensures r.None? <==> forall j :: 0 <= j < |subs| ==> subs[j].polarId != polarId
  {
    FirstIndex(subs, (s: Subscription) => s.polarId == polarId)
  }

  /** The subscriptions table after an event that commits. */
  function ApplyToTable(subs: seq<Subscription>, ev: Event, epochMs: EpochMs): (r: seq<Subscription>)
    requires !Aborts(ev)
    ensures |r| == if ev.eventType == Created then |subs| + 1 else |subs|
    ensures forall i :: 0 <= i < |subs| ==> r[i].polarId == subs[i].polarId && r[i].userId == subs[i].userId
    ensures forall i :: 0 <= i < |subs| && r[i] != subs[i] ==>
      IsPatchEvent(ev.eventType) && FirstWithPolarId(subs, ev.data.id) == Some(i)
  {
    if ev.eventType == Created then
      subs + [NewSubscription(ev.data, epochMs).value]
    else if IsPatchEvent(ev.eventType) then
      match FirstWithPolarId(subs, ev.data.id)
      case None => subs
      case Some(i) => subs[i := Patch(ev.eventType, subs[i], ev.data, epochMs)]
    else
      subs
  }

  /** One call of the handler: the ledger entry and the table change commit
      together, or the mutation aborts and the store is left as it was. */
  function Step(st: Store, ev: Event, epochMs: EpochMs): (r: Result<Store, Abort>)
    ensures r.Err? <==> Aborts(ev)
    ensures r.Ok? ==> r.value.users == st.users
    ensures r.Ok? ==> r.value.webhookEvents == st.webhookEvents + [LedgerEntryFor(ev)]
  {
    if Aborts(ev) then Err(MissingMetadata)
    else Ok(Store(st.users, ApplyToTable(st.subscriptions, ev, epochMs),
                  st.webhookEvents + [LedgerEntryFor(ev)]))
  }

  /** The store after handling `events` in order; an aborted call changes nothing. */
  function Replay(st: Store, events: seq<Event>, epochMs: EpochMs): Store
    decreases |events|
  {
    if |events| == 0 then st
    else
      var next := match Step(st, events[0], epochMs) case Ok(s) => s case Err(_) => st;
      Replay(next, events[1..], epochMs)
  }

  /** The number of `subscription.created` events among `events` that commit. */
  function CreatedCount(events: seq<Event>): nat {
    if |events| == 0 then 0
    else (if events[0].eventType == Created && !Aborts(events[0]) then 1 else 0) + CreatedCount(events[1..])
  }

  // ---------------------------------------------------------------------
  // Properties of a single event

  /** Creation appends exactly one row and checks for no existing row with the
      same provider id. */
  lemma CreatedAppendsOneRow(subs: seq<Subscription>, ev: Event, epochMs: EpochMs)
    requires ev.eventType == Created && ev.data.metadata.Some?
    ensures var t := ApplyToTable(subs, ev, epochMs);
      |t| == |subs| + 1 && t[..|subs|] == subs &&
      t[|subs|].polarId == ev.data.id && t[|subs|].status == ev.data.status &&
      t[|subs|].userId == (if "userId" in ev.data.metadata.value then Some(ev.data.metadata.value["userId"]) else None)
  {
  }

  /** Redelivering the same creation event leaves two rows with its provider
      id, and a later lookup by that id finds the earlier of them, never the
      duplicate. */
  lemma RedeliveredCreateDuplicates(subs: seq<Subscription>, ev: Event, epochMs: EpochMs)
    requires ev.eventType == Created && ev.data.metadata.Some?
    ensures var t := ApplyToTable(ApplyToTable(subs, ev, epochMs), ev, epochMs);
      |t| == |subs| + 2 && t[|subs|].polarId == ev.data.id && t[|subs| + 1].polarId == ev.data.id &&
      FirstWithPolarId(t, ev.data.id).Some? && FirstWithPolarId(t, ev.data.id).value <= |subs|
  {
    var t := ApplyToTable(ApplyToTable(subs, ev, epochMs), ev, epochMs);
    assert t[|subs|].polarId == ev.data.id;
  }

  /** A patching event whose provider id matches no row changes nothing in the
      table; `order.created` and unknown types never change it. */
  lemma UnmatchedEventLeavesTable(subs: seq<Subscription>, ev: Event, epochMs: EpochMs)
    requires ev.eventType != Created
    requires IsPatchEvent(ev.eventType) ==> forall j :: 0 <= j < |subs| ==> subs[j].polarId != ev.data.id
    ensures ApplyToTable(subs, ev, epochMs) == subs
  {
  }

  /** A patching event changes only the first row with its provider id; all
      other rows, and the row's identity fields, stay as they were. */
  lemma PatchTouchesOnlyFirstMatch(subs: seq<Subscription>, ev: Event, epochMs: EpochMs, i: nat)
    requires IsPatchEvent(ev.eventType)
    requires i < |subs| && subs[i].polarId == ev.data.id
    requires forall j :: 0 <= j < i ==> subs[j].polarId != ev.data.id
    ensures var t := ApplyToTable(subs, ev, epochMs);
      |t| == |subs| &&
      (forall j :: 0 <= j < |subs| && j != i ==> t[j] == subs[j]) &&
      t[i].polarId == subs[i].polarId && t[i].userId == subs[i].userId &&
      t[i].polarPriceId == subs[i].polarPriceId && t[i].currency == subs[i].currency &&
      t[i].interval == subs[i].interval && t[i].customerId == subs[i].customerId
  {
    assert FirstWithPolarId(subs, ev.data.id) == Some(i);
  }

  /** Uncanceling twice is the same as uncanceling once. */
  lemma UncanceledIdempotent(subs: seq<Subscription>, ev: Event, epochMs: EpochMs)
    requires ev.eventType == Uncanceled
    ensures ApplyToTable(ApplyToTable(subs, ev, epochMs), ev, epochMs) == ApplyToTable(subs, ev, epochMs)
  {
    var t := ApplyToTable(subs, ev, epochMs);
    match FirstWithPolarId(subs, ev.data.id)
    case None =>
    case Some(i) =>
      assert t[i].polarId == ev.data.id;
      assert forall j :: 0 <= j < i ==> t[j].polarId != ev.data.id;
      assert FirstWithPolarId(t, ev.data.id) == Some(i);
  }

  // ---------------------------------------------------------------------
  // Properties of a sequence of events

  /** The ledger entries of `events`, one per event, in order. */
  function LedgerEntries(events: seq<Event>): (r: seq<LedgerEntry>)
    ensures |r| == |events|
    ensures forall k :: 0 <= k < |events| ==> r[k] == LedgerEntryFor(events[k])
  {
    if |events| == 0 then [] else [LedgerEntryFor(events[0])] + LedgerEntries(events[1..])
  }

  /** Appending one element and then a run is appending the run it starts. */
  lemma AppendOneThenMore<T>(a: seq<T>, e: T, b: seq<T>)
    ensures (a + [e]) + b == a + ([e] + b)
  {
  }

  /** Every committed call appends exactly its own ledger entry, in order,
      and no call touches the users table. */
  lemma {:induction false} LedgerRecordsEveryEvent(st: Store, events: seq<Event>, epochMs: EpochMs)
    requires forall k :: 0 <= k < |events| ==> !Aborts(events[k])
    ensures Replay(st, events, epochMs).users == st.users
    ensures Replay(st, events, epochMs).webhookEvents == st.webhookEvents + LedgerEntries(events)
    decreases |events|
  {
    if |events| == 0 {
      assert st.webhookEvents + LedgerEntries(events) == st.webhookEvents;
    } else {
      var next := Step(st, events[0], epochMs).value;
      LedgerRecordsEveryEvent(next, events[1..], epochMs);
      AppendOneThenMore(st.webhookEvents, LedgerEntryFor(events[0]), LedgerEntries(events[1..]));
    }
  }

  /** Rows are never removed or reordered: only creation events add rows, and
      no event changes the provider id or the owner of an existing row. */
  lemma {:induction false} RowsOnlyGrowByCreation(st: Store, events: seq<Event>, epochMs: EpochMs)
    ensures |Replay(st, events, epochMs).subscriptions| == |st.subscriptions| + CreatedCount(events)
    ensures forall i :: 0 <= i < |st.subscriptions| ==>
      Replay(st, events, epochMs).subscriptions[i].polarId == st.subscriptions[i].polarId &&
      Replay(st, events, epochMs).subscriptions[i].userId == st.subscriptions[i].userId
    decreases |events|
  {
    if |events| > 0 {
      var next := match Step(st, events[0], epochMs) case Ok(s) => s case Err(_) => st;
      RowsOnlyGrowByCreation(next, events[1..], epochMs);
      var ev := events[0];
      if !Aborts(ev) && IsPatchEvent(ev.eventType) {
        match FirstWithPolarId(st.subscriptions, ev.data.id)
        case None =>
        case Some(i) =>
          PatchTouchesOnlyFirstMatch(st.subscriptions, ev, epochMs, i);
      }
    }
  }
}
