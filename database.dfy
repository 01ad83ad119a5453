/** The persisted store as an object whose tables the webhook mutation
    updates in place: one insert into the ledger, then one insert or one
    patch of the subscriptions table, or nothing when the mutation aborts. */
module Database {
  import opened Values
  import opened Schema
  import opened Webhook

  datatype Outcome = Committed | RolledBack(reason: Abort)

  class Db {
    /** `new Date(x).getTime()` as the runtime provides it. */
    const epochMs: EpochMs
    var users: seq<User>
    var subscriptions: seq<Subscription>
    var webhookEvents: seq<LedgerEntry>

    /** The tables as a value, the view queries read. */
    function Snapshot(): Store
      reads this
    {
      Store(users, subscriptions, webhookEvents)
    }

    constructor (epochMs: EpochMs, users: seq<User>)
      ensures this.epochMs == epochMs
      ensures Snapshot() == Store(users, [], [])
    {
      this.epochMs := epochMs;
      this.users := users;
      this.subscriptions := [];
      this.webhookEvents := [];
    }

    /** `handleWebhookEvent`: record the event in the ledger, then apply it. */
    method HandleWebhookEvent(ev: Event) returns (outcome: Outcome)
      modifies this`subscriptions, this`webhookEvents
      ensures outcome.RolledBack? <==> Aborts(ev)
      ensures outcome.RolledBack? ==> Snapshot() == old(Snapshot())
      ensures outcome.Committed? ==> webhookEvents == old(webhookEvents) + [LedgerEntryFor(ev)]
      ensures outcome.Committed? ==> Ok(Snapshot()) == Step(old(Snapshot()), ev, epochMs)
      ensures outcome.Committed? && ev.eventType == Created ==>
        subscriptions == old(subscriptions) + [NewSubscription(ev.data, epochMs).value]
      ensures outcome.Committed? && !IsPatchEvent(ev.eventType) && ev.eventType != Created ==>
        subscriptions == old(subscriptions)
      ensures outcome.Committed? && IsPatchEvent(ev.eventType) ==>
        |subscriptions| == |old(subscriptions)| &&
        forall j :: 0 <= j < |subscriptions| && subscriptions[j] != old(subscriptions)[j] ==>
          FirstWithPolarId(old(subscriptions), ev.data.id) == Some(j)
    {
      var d := ev.data;
      var ledgerBefore := webhookEvents;
      webhookEvents := webhookEvents + [LedgerEntryFor(ev)];
      outcome := Committed;

      if ev.eventType == Created {
        if d.metadata.None? {
          // `data.metadata.userId` throws; the mutation's writes are discarded
          webhookEvents := ledgerBefore;
          outcome := RolledBack(MissingMetadata);
          return;
        }
        var row := NewSubscription(d, epochMs);
        subscriptions := subscriptions + [row.value];
      } else if IsPatchEvent(ev.eventType) {
        var found := FirstWithPolarId(subscriptions, d.id);
        if found.Some? {
          var i := found.value;
          var patched;
          if ev.eventType == Updated {
            patched := PatchUpdated(subscriptions[i], d, epochMs);
          } else if ev.eventType == Active {
            patched := PatchActive(subscriptions[i], d, epochMs);
          } else if ev.eventType == Canceled {
            patched := PatchCanceled(subscriptions[i], d, epochMs);
          } else if ev.eventType == Uncanceled {
            patched := PatchUncanceled(subscriptions[i], d);
          } else {
            patched := PatchRevoked(subscriptions[i], d, epochMs);
          }
          subscriptions := subscriptions[i := patched];
        }
      }
      // `order.created` and unrecognised types: the ledger entry only
    }
  }
}
