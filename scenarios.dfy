/** Concrete runs of the handler followed by the status query: a created
    subscription makes its owner active, a cancellation turns that off. */
module Scenarios {
  import opened Values
  import opened Schema
  import opened Webhook
  import opened Status

  /** A payload with every field empty, for building events field by field. */
  const Blank := EventData(
    id := "", createdAt := "", modifiedAt := None, priceId := "", currency := "",
    recurringInterval := "", metadata := None, status := "", currentPeriodStart := "",
    currentPeriodEnd := "", cancelAtPeriodEnd := false, amount := 0, startedAt := "",
    endedAt := None, canceledAt := None, customerCancellationReason := None,
    customerCancellationComment := None, customFieldData := None, customerId := "")

  const CreateSub1 := Event(Created, Blank.(
    id := "sub_1", priceId := "price_1", currency := "usd", recurringInterval := "month",
    metadata := Some(map["userId" := "user_42"]), status := "active",
    currentPeriodStart := "2024-01-01T00:00:00Z", currentPeriodEnd := "2024-02-01T00:00:00Z",
    amount := 1000, startedAt := "2024-01-01T00:00:00Z", customerId := "cus_1"))

  const CancelSub1 := Event(Canceled, Blank.(
    id := "sub_1", status := "canceled", canceledAt := Some("2024-01-15T00:00:00Z"),
    customerCancellationReason := Some("too_expensive")))

  /** Creating `sub_1` for `user_42` on an empty table gives one row owned by
      that user, and the user's status becomes active. */
  lemma CreatedSubscriptionIsActive(epochMs: EpochMs)
    ensures var st := Step(Store([User("user_42", Some("a@example.com"))], [], []), CreateSub1, epochMs).value;
      |st.subscriptions| == 1 && |st.webhookEvents| == 1 &&
      st.subscriptions[0].userId == Some("user_42") && st.subscriptions[0].status == "active" &&
      st.subscriptions[0].currentPeriodStart == epochMs("2024-01-01T00:00:00Z") &&
      StatusForToken(st, "user_42") == Ok(true)
  {
    var st := Step(Store([User("user_42", Some("a@example.com"))], [], []), CreateSub1, epochMs).value;
    assert FirstWithToken(st.users, "user_42") == Some(0);
    assert FirstWithUserId(st.subscriptions, "user_42") == Some(0);
  }

  /** Cancelling `sub_1` afterwards records the cancellation and the user's
      status is no longer active. */
  lemma CanceledSubscriptionIsInactive(epochMs: EpochMs)
    ensures var st1 := Step(Store([User("user_42", Some("a@example.com"))], [], []), CreateSub1, epochMs).value;
      var st2 := Step(st1, CancelSub1, epochMs).value;
      |st2.subscriptions| == 1 && |st2.webhookEvents| == 2 &&
      st2.subscriptions[0].status == "canceled" &&
      st2.subscriptions[0].canceledAt == Some(epochMs("2024-01-15T00:00:00Z")) &&
      st2.subscriptions[0].customerCancellationReason == Some("too_expensive") &&
      StatusForToken(st2, "user_42") == Ok(false)
  {
    var st1 := Step(Store([User("user_42", Some("a@example.com"))], [], []), CreateSub1, epochMs).value;
    assert FirstWithPolarId(st1.subscriptions, "sub_1") == Some(0);
    var st2 := Step(st1, CancelSub1, epochMs).value;
    assert FirstWithToken(st2.users, "user_42") == Some(0);
    assert FirstWithUserId(st2.subscriptions, "user_42") == Some(0);
  }
}
