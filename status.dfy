/** The read-only subscription queries: resolve a token identifier to its
    user, take that user's first subscription, and report whether its
    status is "active". */
module Status {
  import opened Values
  import opened Schema
  import opened Webhook

  /** The outcome of `.unique()` on an index: no row, exactly one row, or
      several rows, in which case the query throws. */
  datatype Unique<+T> = NoMatch | One(value: T) | Several

  /** A query that throws instead of returning. */
  datatype QueryError = MultipleUsersWithToken

  /** The position of the first user carrying this token identifier. */
  function FirstWithToken(users: seq<User>, token: string): (r: Option<nat>)
    ensures r.Some? ==> r.value < |users| && users[r.value].tokenIdentifier == token
    ensures r.Some? ==> forall j :: 0 <= j < r.value ==> users[j].tokenIdentifier != token
    ensures r.None? <==> forall j :: 0 <= j < |users| ==> users[j].tokenIdentifier != token
  {
    FirstIndex(users, (u: User) => u.tokenIdentifier == token)
  }

  /** `users.withIndex("by_token", eq token).unique()`: the first match, unless
      a second one follows it. */
  function UniqueUserByToken(users: seq<User>, token: string): (r: Unique<User>)
    ensures r.NoMatch? <==> forall i :: 0 <= i < |users| ==> users[i].tokenIdentifier != token
    ensures r.One? ==> r.value in users && r.value.tokenIdentifier == token
  {
    match FirstWithToken(users, token)
    case None => NoMatch
    case Some(i) =>
      if FirstWithToken(users[i + 1..], token).None? then One(users[i]) else Several
  }

  /** `.unique()` returns a user exactly when one user carries the token. */
  lemma UniqueFindsSingleUser(users: seq<User>, token: string)
    ensures UniqueUserByToken(users, token).One? <==> SingleUser(users, token)
  {
    match FirstWithToken(users, token)
    case None =>
      assert UniqueUserByToken(users, token) == NoMatch;
    case Some(i) =>
      var rest := users[i + 1..];
      match FirstWithToken(rest, token)
      case None =>
        assert UniqueUserByToken(users, token) == One(users[i]);
        assert SingleUser(users, token) by {
          forall j | 0 <= j < |users| && j != i
            ensures users[j].tokenIdentifier != token
          {
            if j > i { assert users[j] == rest[j - i - 1]; }
          }
        }
      case Some(k) =>
        assert UniqueUserByToken(users, token) == Several;
        assert !SingleUser(users, token) by {
          assert users[i + 1 + k] == rest[k];
          TwoHoldersAreNotSingle(users, token, i, i + 1 + k);
        }
  }

  /** Two distinct users carrying the token rule out a single holder. */
  lemma TwoHoldersAreNotSingle(users: seq<User>, token: string, a: nat, b: nat)
    requires a < |users| && b < |users| && a != b
    requires users[a].tokenIdentifier == token && users[b].tokenIdentifier == token
    ensures !SingleUser(users, token)
  {
    forall i | 0 <= i < |users| && users[i].tokenIdentifier == token
      ensures exists j :: 0 <= j < |users| && j != i && users[j].tokenIdentifier == token
    {
      if i == a { assert users[b].tokenIdentifier == token; } else { assert users[a].tokenIdentifier == token; }
    }
  }

  /** `.unique()` throws exactly when two users carry the token. */
  lemma UniqueRejectsSharedToken(users: seq<User>, token: string)
    ensures UniqueUserByToken(users, token).Several? <==> SharedToken(users, token)
  {
    match FirstWithToken(users, token)
    case None =>
    case Some(i) =>
      var rest := users[i + 1..];
      match FirstWithToken(rest, token)
      case None =>
        forall a, b | 0 <= a < b < |users| && users[a].tokenIdentifier == token
          ensures users[b].tokenIdentifier != token
        {
          assert users[b] == rest[b - i - 1];
        }
      case Some(k) =>
        assert users[i + 1 + k] == rest[k];
  }

  /** At least two users carry this token identifier. */
  ghost predicate SharedToken(users: seq<User>, token: string) {
    exists i, j :: 0 <= i < j < |users| && users[i].tokenIdentifier == token && users[j].tokenIdentifier == token
  }

  /** The row `subscriptions.withIndex("userId", eq token).first()` returns:
      the earliest inserted subscription owned by that user. */
  function FirstWithUserId(subs: seq<Subscription>, token: string): (r: Option<nat>)
    ensures r.Some? ==> r.value < |subs| && subs[r.value].userId == Some(token)
    ensures r.Some? ==> forall j :: 0 <= j < r.value ==> subs[j].userId != Some(token)
    ensures r.None? <==> forall j :: 0 <= j < |subs| ==> subs[j].userId != Some(token)
  {
    FirstIndex(subs, (s: Subscription) => s.userId == Some(token))
  }

  /** Exactly one user carries this token identifier. */
  ghost predicate SingleUser(users: seq<User>, token: string) {
    exists i :: 0 <= i < |users| && users[i].tokenIdentifier == token &&
      forall j :: 0 <= j < |users| && j != i ==> users[j].tokenIdentifier != token
  }

  /** No user carries this token identifier. */
  ghost predicate NoUser(users: seq<User>, token: string) {
    forall i :: 0 <= i < |users| ==> users[i].tokenIdentifier != token
  }

  /** No subscription is owned by this token identifier. */
  ghost predicate NoSubscription(subs: seq<Subscription>, token: string) {
    forall j :: 0 <= j < |subs| ==> subs[j].userId != Some(token)
  }

  /** The earliest subscription owned by `token` exists and is active. */
  ghost predicate FirstSubscriptionActive(subs: seq<Subscription>, token: string) {
    exists i :: 0 <= i < |subs| && subs[i].userId == Some(token) && subs[i].status == "active" &&
      forall j :: 0 <= j < i ==> subs[j].userId != Some(token)
  }

  /** One user carries the token and that user's earliest subscription is active. */
  ghost predicate ActiveToken(st: Store, token: string) {
    SingleUser(st.users, token) && FirstSubscriptionActive(st.subscriptions, token)
  }

  /** The token finds nothing to report: no user carries it, or the one user
      who does owns no subscription. */
  ghost predicate Absent(st: Store, token: string) {
    NoUser(st.users, token) || (SingleUser(st.users, token) && NoSubscription(st.subscriptions, token))
  }

  /** The common tail of both status queries, once a user has been found. */
  function ActiveFor(subs: seq<Subscription>, user: User): bool {
    match FirstWithUserId(subs, user.tokenIdentifier)
    case None => false
    case Some(i) => subs[i].status == "active"
  }

  /** The tail of the status queries reads the user's earliest subscription. */
  lemma ActiveForFirst(subs: seq<Subscription>, user: User)
    ensures ActiveFor(subs, user) <==> FirstSubscriptionActive(subs, user.tokenIdentifier)
  {
    var token := user.tokenIdentifier;
    match FirstWithUserId(subs, token)
    case None =>
    case Some(i) =>
      if FirstSubscriptionActive(subs, token) {
        var k :| 0 <= k < |subs| && subs[k].userId == Some(token) && subs[k].status == "active" &&
          forall j :: 0 <= j < k ==> subs[j].userId != Some(token);
        assert k == i;
      }
  }

  /** Status of the user with this token identifier: true exactly when one
      user has the token and that user's earliest subscription is active; an
      error exactly when several users share the token. */
  function StatusForToken(st: Store, token: string): (r: Result<bool, QueryError>)
    ensures r == Ok(true) <==> ActiveToken(st, token)
    ensures r.Err? <==> SharedToken(st.users, token)
  {
    UniqueFindsSingleUser(st.users, token);
    UniqueRejectsSharedToken(st.users, token);
    match UniqueUserByToken(st.users, token)
    case Several => Err(MultipleUsersWithToken)
    case NoMatch => Ok(false)
    case One(u) => ActiveForFirst(st.subscriptions, u); Ok(ActiveFor(st.subscriptions, u))
  }

  /** `checkUserSubscriptionStatus`: an explicit, truthy `userId` argument is
      used as the token identifier; otherwise the caller's identity is, and
      an anonymous caller has no active subscription. */
  function CheckUserSubscriptionStatus(st: Store, userIdArg: Option<string>, identity: Option<string>): (r: Result<bool, QueryError>)
    ensures r == Ok(true) <==>
      if Truthy(userIdArg) then ActiveToken(st, userIdArg.value) else identity.Some? && ActiveToken(st, identity.value)
    ensures r.Err? <==>
      if Truthy(userIdArg) then SharedToken(st.users, userIdArg.value) else identity.Some? && SharedToken(st.users, identity.value)
  {
    if Truthy(userIdArg) then StatusForToken(st, userIdArg.value)
    else if identity.None? then Ok(false)
    else StatusForToken(st, identity.value)
  }

  /** `checkUserSubscriptionStatusByClerkId`: the token `"user_" + id` is tried
      first and the raw id only when no user carries the prefixed one. */
  function CheckUserSubscriptionStatusByClerkId(st: Store, clerkUserId: string): (r: Result<bool, QueryError>)
    ensures r == Ok(true) <==>
      ActiveToken(st, "user_" + clerkUserId) || (NoUser(st.users, "user_" + clerkUserId) && ActiveToken(st, clerkUserId))
    ensures r.Err? <==>
      SharedToken(st.users, "user_" + clerkUserId) || (NoUser(st.users, "user_" + clerkUserId) && SharedToken(st.users, clerkUserId))
  {
    var prefixed := "user_" + clerkUserId;
    match UniqueUserByToken(st.users, prefixed)
    case NoMatch => StatusForToken(st, clerkUserId)
    case _ => StatusForToken(st, prefixed)
  }

  /** `fetchUserSubscription`: the caller's earliest subscription, if the
      caller is known and owns one. */
  function FetchUserSubscription(st: Store, identity: Option<string>): (r: Result<Option<Subscription>, QueryError>)
    ensures r.Err? <==> identity.Some? && SharedToken(st.users, identity.value)
    ensures r == Ok(None) <==> identity.None? || Absent(st, identity.value)
    ensures r.Ok? && r.value.Some? ==>
      exists i :: 0 <= i < |st.subscriptions| && st.subscriptions[i] == r.value.value &&
        st.subscriptions[i].userId == identity && forall j :: 0 <= j < i ==> st.subscriptions[j].userId != identity
  {
    if identity.None? then Ok(None)
    else
      UniqueFindsSingleUser(st.users, identity.value);
      UniqueRejectsSharedToken(st.users, identity.value);
      match UniqueUserByToken(st.users, identity.value)
      case Several => Err(MultipleUsersWithToken)
      case NoMatch => Ok(None)
      case One(u) =>
        match FirstWithUserId(st.subscriptions, u.tokenIdentifier)
        case None => Ok(None)
        case Some(i) => Ok(Some(st.subscriptions[i]))
  }

  // ---------------------------------------------------------------------
  // Properties

  /** Missing identity, missing user and missing subscription all read as
      "no active subscription" (or no subscription), never as an error, in
      each of the three queries. */
  lemma AbsenceIsNotAnError(st: Store, userIdArg: Option<string>, identity: Option<string>, clerkUserId: string)
    ensures !Truthy(userIdArg) && identity.None? ==> CheckUserSubscriptionStatus(st, userIdArg, identity) == Ok(false)
    ensures Truthy(userIdArg) && Absent(st, userIdArg.value) ==> CheckUserSubscriptionStatus(st, userIdArg, identity) == Ok(false)
    ensures !Truthy(userIdArg) && identity.Some? && Absent(st, identity.value) ==>
      CheckUserSubscriptionStatus(st, userIdArg, identity) == Ok(false)
    ensures identity.None? || Absent(st, identity.value) ==> FetchUserSubscription(st, identity) == Ok(None)
    ensures Absent(st, "user_" + clerkUserId) && (NoUser(st.users, "user_" + clerkUserId) ==> Absent(st, clerkUserId)) ==>
      CheckUserSubscriptionStatusByClerkId(st, clerkUserId) == Ok(false)
  {
    if Truthy(userIdArg) { AbsentReadsFalse(st, userIdArg.value); }
    if identity.Some? { AbsentReadsFalse(st, identity.value); }
    AbsentReadsFalse(st, "user_" + clerkUserId);
    AbsentReadsFalse(st, clerkUserId);
  }

  /** An absent token is neither shared nor active, so its status is false. */
  lemma AbsentReadsFalse(st: Store, token: string)
    ensures Absent(st, token) ==> StatusForToken(st, token) == Ok(false)
  {
    if SharedToken(st.users, token) {
      var a, b :| 0 <= a < b < |st.users| && st.users[a].tokenIdentifier == token && st.users[b].tokenIdentifier == token;
      assert !NoUser(st.users, token) by {
        assert st.users[a].tokenIdentifier == token;
      }
      TwoHoldersAreNotSingle(st.users, token, a, b);
    }
  }

  /** The Clerk variant answers for `"user_" + id` whenever some user carries
      that token, and for the raw id otherwise. */
  lemma ClerkPrefersPrefixedToken(st: Store, clerkUserId: string)
    ensures (exists i :: 0 <= i < |st.users| && st.users[i].tokenIdentifier == "user_" + clerkUserId) ==>
      CheckUserSubscriptionStatusByClerkId(st, clerkUserId) == StatusForToken(st, "user_" + clerkUserId)
    ensures (forall i :: 0 <= i < |st.users| ==> st.users[i].tokenIdentifier != "user_" + clerkUserId) ==>
      CheckUserSubscriptionStatusByClerkId(st, clerkUserId) == StatusForToken(st, clerkUserId)
  {
  }

  /** The status query and the subscription fetch agree: the status is true
      exactly when the fetched subscription exists and is active. */
  lemma FetchAgreesWithStatus(st: Store, identity: Option<string>)
    ensures CheckUserSubscriptionStatus(st, None, identity) == Ok(true) <==>
      (FetchUserSubscription(st, identity).Ok? && FetchUserSubscription(st, identity).value.Some? &&
       FetchUserSubscription(st, identity).value.value.status == "active")
    ensures CheckUserSubscriptionStatus(st, None, identity).Err? <==> FetchUserSubscription(st, identity).Err?
  {
  }

  /** Revoking the subscription a user's status is read from turns the
      status off, whatever status the revocation payload carries. */
  lemma RevokedFirstSubscriptionIsInactive(st: Store, ev: Event, epochMs: EpochMs, token: string)
    requires ev.eventType == Revoked
    requires match FirstWithUserId(st.subscriptions, token)
             case Some(i) => st.subscriptions[i].polarId == ev.data.id &&
                             FirstWithPolarId(st.subscriptions, ev.data.id) == Some(i)
             case None => false
    ensures StatusForToken(Step(st, ev, epochMs).value, token) != Ok(true)
  {
    var i := FirstWithUserId(st.subscriptions, token).value;
    var t := Step(st, ev, epochMs).value.subscriptions;
    PatchTouchesOnlyFirstMatch(st.subscriptions, ev, epochMs, i);
    assert t[i].status == "revoked";
    assert forall j :: 0 <= j < i ==> t[j].userId != Some(token);
    assert FirstWithUserId(t, token) == Some(i);
  }
}
