/**
 * The test notification a signed-in user can send to their own devices:
 * a placeholder message, or a Danish expiry alert when items in the
 * user's stashes are due within a week, pushed once to each of the user's
 * subscriptions.
 */
module TestPush {
  import opened Wrappers
  import opened Text
  import opened Expiration
  import opened Collections
  import opened Ordering
  import opened Store
  import opened Delivery
  import opened Alerts
  import CronJob

  const NoSubscriptionsMessage: string := "No push subscriptions found. Please enable notifications first."

  const DefaultTitle: string := "Test"
  const DefaultBody: string := "Notifikationer virker"
  const DefaultUrl: string := "/"
  const TestTag: string := "test-notification"

  /** The stashes the user belongs to, in membership order. */
  function StashIdsOf(db: Db, userId: Id): (r: seq<Id>)
    ensures forall id :: id in r <==> IsMember(db, id, userId)
  {
    var ms := Filter(db.members, (m: Membership) => m.userId == userId);
    var r := Map(ms, (m: Membership) => m.stashId);
    assert forall id :: id in r ==> IsMember(db, id, userId) by {
      forall id | id in r ensures IsMember(db, id, userId) {
        var k :| 0 <= k < |r| && r[k] == id;
        var j :| 0 <= j < |db.members| && db.members[j] == ms[k];
      }
    }
    assert forall id :: IsMember(db, id, userId) ==> id in r by {
      forall id | IsMember(db, id, userId) ensures id in r {
        var j :| 0 <= j < |db.members| && db.members[j].stashId == id && db.members[j].userId == userId;
        assert db.members[j] in db.members;
        var k :| 0 <= k < |ms| && ms[k] == db.members[j];
        assert r[k] == id;
      }
    }
    r
  }

  /** The items of the user's stashes with an expiry date at most a week ahead. */
  function Candidates(db: Db, userId: Id, now: int): (r: seq<Item>)
    ensures forall it :: it in r <==> it in db.items && IsMember(db, it.stashId, userId) && CronJob.Due(it, now)
  {
    var stashIds := StashIdsOf(db, userId);
    Filter(db.items, (it: Item) => it.stashId in stashIds && CronJob.Due(it, now))
  }

  /** The sort key of an item: its expiry date (every candidate has one). */
  function ExpiryKey(it: Item): int {
    it.expiry.GetOr(0)
  }

  /** Earlier expiry first. */
  predicate ExpiryLe(a: Item, b: Item) {
    ExpiryKey(a) <= ExpiryKey(b)
  }

  lemma ExpiryLeTotal()
    ensures TotalPreorder(ExpiryLe)
  {
  }

  /** The candidates ordered by expiry date, soonest first. */
  function Ordered(db: Db, userId: Id, now: int): (r: seq<Item>)
    ensures multiset(r) == multiset(Candidates(db, userId, now))
    ensures SortedBy(r, ExpiryLe)
  {
    ExpiryLeTotal();
    SortBy(Candidates(db, userId, now), ExpiryLe)
  }

  /** Whole days until the item expires (an undated item counts as expiring now; no candidate is undated). */
  function DaysLeft(it: Item, now: int): int {
    DaysUntil(it.expiry.GetOr(now), now)
  }

  predicate IsExpired(now: int, it: Item) {
    DaysLeft(it, now) <= 0
  }

  predicate IsSoon(now: int, it: Item) {
    0 < DaysLeft(it, now) <= 7
  }

  function ExpiredOf(items: seq<Item>, now: int): seq<Item> {
    Filter(items, (it: Item) => IsExpired(now, it))
  }

  function SoonOf(items: seq<Item>, now: int): seq<Item> {
    Filter(items, (it: Item) => IsSoon(now, it))
  }

  function NamesOf(items: seq<Item>): (r: seq<string>)
    ensures |r| == |items|
  {
    Map(items, (it: Item) => it.name)
  }

  /**
   * The test message: the expired alert when any item has expired,
   * otherwise the soon alert when any is due within the week, otherwise
   * the placeholder. The tag is fixed and the message does not ask to
   * stay on screen.
   */
  function Message(items: seq<Item>, now: int): (p: Payload)
    ensures p.tag == TestTag && p.requireInteraction.None?
    ensures |ExpiredOf(items, now)| > 0 ==>
      p.title == AlertTitle && p.url == ExpiredUrl && p.body == AlertBody(ExpiredBucket, NamesOf(ExpiredOf(items, now)))
    ensures |ExpiredOf(items, now)| == 0 && |SoonOf(items, now)| > 0 ==>
      p.title == AlertTitle && p.url == SoonUrl && p.body == AlertBody(SoonBucket, NamesOf(SoonOf(items, now)))
    ensures |ExpiredOf(items, now)| == 0 && |SoonOf(items, now)| == 0 ==>
      p.title == DefaultTitle && p.url == DefaultUrl && p.body == DefaultBody
  {
    var expired := ExpiredOf(items, now);
    var soon := SoonOf(items, now);
    if |expired| > 0 then Payload(AlertTitle, AlertBody(ExpiredBucket, NamesOf(expired)), ExpiredUrl, TestTag, None)
    else if |soon| > 0 then Payload(AlertTitle, AlertBody(SoonBucket, NamesOf(soon)), SoonUrl, TestTag, None)
    else Payload(DefaultTitle, DefaultBody, DefaultUrl, TestTag, None)
  }

  /**
   * Items a week or less away split into expired and soon: every one is
   * in exactly one of the two groups.
   */
  lemma {:induction false} ExpiredSoonPartition(items: seq<Item>, now: int)
    requires forall k :: 0 <= k < |items| ==> DaysLeft(items[k], now) <= 7
    ensures |ExpiredOf(items, now)| + |SoonOf(items, now)| == |items|
  {
    if |items| > 0 {
      assert forall k :: 0 <= k < |items[1..]| ==> items[1..][k] == items[k + 1];
      ExpiredSoonPartition(items[1..], now);
    }
  }

  /**
   * Every fetched item is either expired or due soon, so the two groups
   * of the sorted candidates together hold all of them.
   */
  lemma CandidatesPartition(db: Db, userId: Id, now: int)
    ensures |ExpiredOf(Ordered(db, userId, now), now)| + |SoonOf(Ordered(db, userId, now), now)|
         == |Candidates(db, userId, now)|
  {
    var items := Ordered(db, userId, now);
    forall k | 0 <= k < |items| ensures DaysLeft(items[k], now) <= 7 {
      assert items[k] in multiset(Candidates(db, userId, now));
      DaysUntilAtMost(items[k].expiry.value, now, 7);
    }
    ExpiredSoonPartition(items, now);
    assert |multiset(items)| == |items|;
  }

  /** A group's body depends on its items only through their count and, for one item, its name. */
  lemma BodyIgnoresOrder(b: Bucket, s: seq<Item>, t: seq<Item>)
    requires multiset(s) == multiset(t)
    ensures AlertBody(b, NamesOf(s)) == AlertBody(b, NamesOf(t))
  {
    assert |multiset(s)| == |s| && |multiset(t)| == |t|;
    if |s| == 1 {
      SingletonPermutation(s, t);
    }
  }

  /**
   * The message does not depend on the order of the items: only the sizes
   * of the two groups are used, and the single item's name when a group
   * holds one, so the sort by expiry date cannot change what is sent.
   */
  lemma MessageIgnoresOrder(s: seq<Item>, t: seq<Item>, now: int)
    requires multiset(s) == multiset(t)
    ensures Message(s, now) == Message(t, now)
  {
    var isExpired := (it: Item) => IsExpired(now, it);
    var isSoon := (it: Item) => IsSoon(now, it);
    FilterPermutation(s, t, isExpired);
    FilterPermutation(s, t, isSoon);
    BodyIgnoresOrder(ExpiredBucket, ExpiredOf(s, now), ExpiredOf(t, now));
    BodyIgnoresOrder(SoonBucket, SoonOf(s, now), SoonOf(t, now));
  }

  /** What the test sender reports: successful sends and the number of subscriptions. */
  datatype TestReport = TestReport(sent: nat, total: nat)

  /** No two subscription rows share an id (the table's primary key). */
  predicate UniqueSubscriptionIds(db: Db) {
    forall i, j :: 0 <= i < j < |db.subscriptions| ==> db.subscriptions[i].id != db.subscriptions[j].id
  }

  /**
   * The test send. `answer(k)` is the push service's answer for the `k`-th
   * subscription of the user; sends go through the helper as written.
   * Without a session the request is refused; without subscriptions it is
   * a bad request; otherwise one message goes to each subscription, the
   * successes are counted against the total, and the subscriptions
   * reported gone are deleted: those answered 410, or all of the user's
   * when push keys are missing.
   */
  method SendTest(
    db: Db, now: int, session: Option<SessionUser>,
    keysConfigured: bool, answer: nat -> Answer)
    returns (r: Result<TestReport, HttpError>, db': Db)
    ensures SignedIn(session).None? ==> r == Err(Unauthorized) && db' == db
    ensures SignedIn(session).Some? && SubscriptionsOf(db, SignedIn(session).value) == [] ==>
      r == Err(BadRequest(NoSubscriptionsMessage)) && db' == db
    ensures SignedIn(session).Some? && SubscriptionsOf(db, SignedIn(session).value) != [] ==> r.Ok?
    ensures r.Ok? ==> r.value.total == |SubscriptionsOf(db, SignedIn(session).value)| && r.value.sent <= r.value.total
    ensures r.Ok? ==> r.value.sent == Successes(OutcomesAsWritten(keysConfigured, answer, r.value.total))
    ensures r.Ok? && keysConfigured ==> r.value.sent == DeliveredCount(answer, r.value.total)
    ensures r.Ok? && keysConfigured ==>
      (r.value.sent == 0 <==> forall k :: 0 <= k < r.value.total ==> answer(k) != Delivered)
    ensures r.Ok? && keysConfigured ==> forall k :: 0 <= k < r.value.total && answer(k) == Refused(GoneStatus) ==>
      SubscriptionsOf(db, SignedIn(session).value)[k] !in db'.subscriptions
    ensures r.Ok? && !keysConfigured ==> r.value.sent == 0
    ensures r.Ok? && !keysConfigured ==>
      forall s :: s in db.subscriptions && s.userId == SignedIn(session).value ==> s !in db'.subscriptions
    ensures db' == db.(subscriptions := db'.subscriptions)
    ensures forall s :: s in db'.subscriptions ==> s in db.subscriptions
    ensures UniqueSubscriptionIds(db) && r.Ok? ==>
      forall s :: s in db.subscriptions && s.userId != SignedIn(session).value ==> s in db'.subscriptions
  {
    var user := SignedIn(session);
    if user.None? {
      return Err(Unauthorized), db;
    }
    var subs := SubscriptionsOf(db, user.value);
    if |subs| == 0 {
      return Err(BadRequest(NoSubscriptionsMessage)), db;
    }
    var message := Message(Ordered(db, user.value, now), now);
    var sent;
    sent, db' := SendToAll(db, user.value, message, keysConfigured, answer);
    r := Ok(TestReport(sent, |subs|));
  }

  /**
   * One message to each of the user's subscriptions through the helper as
   * written: the successes are counted, the subscriptions reported gone
   * are deleted (with push keys missing, all of the user's), and with
   * unique ids no other user's row is touched.
   */
  method SendToAll(db: Db, userId: Id, message: Payload, keysConfigured: bool, answer: nat -> Answer)
    returns (sent: nat, db': Db)
    ensures sent <= |SubscriptionsOf(db, userId)|
    ensures sent == Successes(OutcomesAsWritten(keysConfigured, answer, |SubscriptionsOf(db, userId)|))
    ensures keysConfigured ==> sent == DeliveredCount(answer, |SubscriptionsOf(db, userId)|)
    ensures keysConfigured ==>
      (sent == 0 <==> forall k :: 0 <= k < |SubscriptionsOf(db, userId)| ==> answer(k) != Delivered)
    ensures keysConfigured ==> forall k :: 0 <= k < |SubscriptionsOf(db, userId)| && answer(k) == Refused(GoneStatus) ==>
      SubscriptionsOf(db, userId)[k] !in db'.subscriptions
    ensures !keysConfigured ==> sent == 0
    ensures !keysConfigured ==> forall s :: s in db.subscriptions && s.userId == userId ==> s !in db'.subscriptions
    ensures db' == db.(subscriptions := db'.subscriptions)
    ensures forall s :: s in db'.subscriptions ==> s in db.subscriptions
    ensures UniqueSubscriptionIds(db) ==>
      forall s :: s in db.subscriptions && s.userId != userId ==> s in db'.subscriptions
  {
    var subs := SubscriptionsOf(db, userId);
    var attempts := Map(subs, (s: Subscription) => Attempt(s.id, message));
    var outcomes := OutcomesAsWritten(keysConfigured, answer, |attempts|);
    var removed;
    sent, removed, db' := Deliver(db, attempts, outcomes);
    assert OnePerRow(subs, attempts);
    if keysConfigured {
      NoSuccessIff(answer, |attempts|);
      SuccessesAreDeliveries(answer, |attempts|);
      assert forall k :: 0 <= k < |subs| && answer(k) == Refused(GoneStatus) ==> subs[k] !in db'.subscriptions by {
        GoneRowsDeleted(db, db', subs, attempts, outcomes);
      }
    } else {
      NoSuccesses(outcomes);
      UnconfiguredDeletesAll(db, db', userId, attempts, answer);
    }
    assert UniqueSubscriptionIds(db) ==> forall s :: s in db.subscriptions && s.userId != userId ==> s in db'.subscriptions by {
      if UniqueSubscriptionIds(db) {
        OthersKept(db, db', userId, attempts, outcomes);
      }
    }
  }

  /** With push keys set, no send succeeds exactly when the service delivers none. */
  lemma NoSuccessIff(answer: nat -> Answer, n: nat)
    ensures Successes(OutcomesAsWritten(true, answer, n)) == 0 <==> forall k :: 0 <= k < n ==> answer(k) != Delivered
  {
    SuccessesNone(OutcomesAsWritten(true, answer, n));
  }

  /** A row disappears only when some attempt targeted it. */
  lemma DeletedWereTargeted(db: Db, db': Db, attempts: seq<Attempt>, outcomes: seq<Outcome>)
    requires |outcomes| == |attempts|
    requires PurgedExactly(db, db', attempts, outcomes)
    ensures forall s :: s in db.subscriptions && s !in db'.subscriptions ==> s.id in Targets(attempts)
  {
    forall s | s in db.subscriptions && s !in db'.subscriptions ensures s.id in Targets(attempts) {
      var k :| 0 <= k < |attempts| && attempts[k].subscriptionId == s.id && outcomes[k] == Gone;
    }
  }

  /** One attempt per subscription of `subs`, in order, at that subscription's id. */
  predicate OnePerRow(subs: seq<Subscription>, attempts: seq<Attempt>) {
    |attempts| == |subs| && forall k :: 0 <= k < |subs| ==> attempts[k].subscriptionId == subs[k].id
  }

  /** A subscription of the table whose attempt was reported gone is deleted. */
  lemma GoneRowsDeleted(db: Db, db': Db, subs: seq<Subscription>, attempts: seq<Attempt>, outcomes: seq<Outcome>)
    requires OnePerRow(subs, attempts) && |outcomes| == |attempts|
    requires forall k :: 0 <= k < |subs| ==> subs[k] in db.subscriptions
    requires PurgedExactly(db, db', attempts, outcomes)
    ensures forall k :: 0 <= k < |subs| && outcomes[k] == Gone ==> subs[k] !in db'.subscriptions
  {
    forall k | 0 <= k < |subs| && outcomes[k] == Gone ensures subs[k] !in db'.subscriptions {
      assert attempts[k].subscriptionId == subs[k].id;
    }
  }

  /** No success among the outcomes exactly when none is `Sent`. */
  lemma {:induction false} SuccessesNone(outcomes: seq<Outcome>)
    ensures Successes(outcomes) == 0 <==> forall k :: 0 <= k < |outcomes| ==> outcomes[k] != Sent
  {
    if |outcomes| > 0 {
      var n := |outcomes| - 1;
      SuccessesNone(outcomes[..n]);
      assert forall k :: 0 <= k < n ==> outcomes[..n][k] == outcomes[k];
    }
  }

  /** With the helper as written and no push keys, every subscription of the user is deleted. */
  lemma UnconfiguredDeletesAll(db: Db, db': Db, userId: Id, attempts: seq<Attempt>, answer: nat -> Answer)
    requires OnePerRow(SubscriptionsOf(db, userId), attempts)
    requires PurgedExactly(db, db', attempts, OutcomesAsWritten(false, answer, |attempts|))
    ensures forall s :: s in db.subscriptions && s.userId == userId ==> s !in db'.subscriptions
  {
    var subs := SubscriptionsOf(db, userId);
    var outcomes := OutcomesAsWritten(false, answer, |attempts|);
    forall s | s in db.subscriptions && s.userId == userId ensures s !in db'.subscriptions {
      var k :| 0 <= k < |subs| && subs[k] == s;
      assert attempts[k].subscriptionId == s.id && outcomes[k] == Gone;
    }
  }

  /**
   * With unique ids, deleting only rows whose id one of the user's
   * attempts targeted keeps every other user's rows.
   */
  lemma OthersKept(db: Db, db': Db, userId: Id, attempts: seq<Attempt>, outcomes: seq<Outcome>)
    requires UniqueSubscriptionIds(db)
    requires OnePerRow(SubscriptionsOf(db, userId), attempts) && |outcomes| == |attempts|
    requires PurgedExactly(db, db', attempts, outcomes)
    ensures forall s :: s in db.subscriptions && s.userId != userId ==> s in db'.subscriptions
  {
    forall s | s in db.subscriptions && s.userId != userId
      ensures s in db'.subscriptions
    {
      NotTargeted(db, userId, s);
      assert forall k :: 0 <= k < |attempts| ==> attempts[k].subscriptionId != s.id;
    }
  }

  /** With unique ids, no subscription of the user shares its id with another user's row. */
  lemma NotTargeted(db: Db, userId: Id, s: Subscription)
    requires UniqueSubscriptionIds(db)
    requires s in db.subscriptions && s.userId != userId
    ensures forall k :: 0 <= k < |SubscriptionsOf(db, userId)| ==> SubscriptionsOf(db, userId)[k].id != s.id
  {
    var subs := SubscriptionsOf(db, userId);
    forall k | 0 <= k < |subs| ensures subs[k].id != s.id {
      var i :| 0 <= i < |db.subscriptions| && db.subscriptions[i] == s;
      var j :| 0 <= j < |db.subscriptions| && db.subscriptions[j] == subs[k];
      assert i != j;
    }
  }
}
