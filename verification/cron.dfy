/**
 * The daily expiry job: every user who belongs to a stash with items due
 * within a week gets at most three Danish alerts (expired, due tomorrow,
 * due soon) on each of their push subscriptions; subscriptions the push
 * service reports gone are deleted.
 */
module CronJob {
  import opened Wrappers
  import opened Text
  import opened Expiration
  import opened Collections
  import opened Store
  import opened Delivery
  import opened Alerts

  /** The job's secret: the first configured of the two environment variables. */
  function ConfiguredSecret(cronSecret: Option<string>, cronApiKey: Option<string>): (r: Option<string>)
    ensures Truthy(cronSecret) ==> r == cronSecret
    ensures !Truthy(cronSecret) ==> r == cronApiKey
  {
    if Truthy(cronSecret) then cronSecret else cronApiKey
  }

  const BearerPrefix: string := "Bearer "

  /**
   * Whether the request may run: always when no secret is configured,
   * otherwise exactly when the authorization header is the secret as a
   * bearer token or the API-key header is the secret.
   */
  function Admitted(authorization: Option<string>, apiKey: Option<string>, secret: Option<string>): (ok: bool)
    ensures !Truthy(secret) ==> ok
    ensures Truthy(secret) && authorization == Some(BearerPrefix + secret.value) ==> ok
    ensures Truthy(secret) && apiKey == secret ==> ok
    ensures Truthy(secret) && authorization != Some(BearerPrefix + secret.value) && apiKey != secret ==> !ok
  {
    !Truthy(secret)
    || (Truthy(authorization) && authorization.value == BearerPrefix + secret.value)
    || (Truthy(apiKey) && apiKey.value == secret.value)
  }

  /** How far ahead the job looks. */
  const LookaheadMs: int := 7 * DayMs

  /** The item has an expiry date no later than a week from now. */
  predicate Due(it: Item, now: int) {
    it.expiry.Some? && it.expiry.value <= now + LookaheadMs
  }

  /** The items the job fetches: those with an expiry date at most a week ahead, each at most seven days away. */
  function DueItems(db: Db, now: int): (r: seq<Item>)
    ensures |r| <= |db.items|
    ensures forall k :: 0 <= k < |r| ==> r[k] in db.items && r[k].expiry.Some? && DaysUntil(r[k].expiry.value, now) <= 7
    ensures forall it :: it in db.items && Due(it, now) ==> it in r
  {
    var r := Filter(db.items, (it: Item) => Due(it, now));
    assert forall k :: 0 <= k < |r| ==> DaysUntil(r[k].expiry.value, now) <= 7 by {
      forall k | 0 <= k < |r| ensures DaysUntil(r[k].expiry.value, now) <= 7 {
        DaysUntilAtMost(r[k].expiry.value, now, 7);
      }
    }
    r
  }

  /** One (member, item) pair the job visits: who, which item, how many days left. */
  datatype Mention = Mention(userId: Id, itemName: string, days: int)

  /** The memberships of a stash, in table order. */
  function MembersOf(db: Db, stashId: Id): (r: seq<Membership>)
    ensures forall m :: m in r <==> m in db.members && m.stashId == stashId
  {
    MembershipsWhere(db, (m: Membership) => m.stashId == stashId)
  }

  /** The pairs visited for one item: each member of the item's stash, in order. */
  function ItemMentions(db: Db, it: Item, days: int): (r: seq<Mention>)
    ensures |r| == |MembersOf(db, it.stashId)|
    ensures forall k :: 0 <= k < |r| ==> r[k] == Mention(MembersOf(db, it.stashId)[k].userId, it.name, days)
    ensures forall m :: m in db.members && m.stashId == it.stashId ==> Mention(m.userId, it.name, days) in r
  {
    var members := MembersOf(db, it.stashId);
    var r := Map(members, (m: Membership) => Mention(m.userId, it.name, days));
    assert forall m :: m in members ==> Mention(m.userId, it.name, days) in r by {
      forall m | m in members ensures Mention(m.userId, it.name, days) in r {
        var k :| 0 <= k < |members| && members[k] == m;
        assert r[k] == Mention(m.userId, it.name, days);
      }
    }
    r
  }

  /** The pairs visited for the item `it`: none when it has no expiry date. */
  function DatedItemMentions(db: Db, it: Item, now: int): (r: seq<Mention>)
    ensures it.expiry.None? ==> r == []
    ensures it.expiry.Some? ==> r == ItemMentions(db, it, DaysUntil(it.expiry.value, now))
  {
    match it.expiry
    case None => []
    case Some(e) => ItemMentions(db, it, DaysUntil(e, now))
  }

  /** The pairs visited for the fetched items, item by item; undated items are skipped. */
  function Mentions(db: Db, items: seq<Item>, now: int): (r: seq<Mention>)
    ensures forall it, m :: it in items && it.expiry.Some? && m in db.members && m.stashId == it.stashId ==>
      Mention(m.userId, it.name, DaysUntil(it.expiry.value, now)) in r
  {
    if |items| == 0 then []
    else
      var rest := Mentions(db, items[1..], now);
      assert forall it :: it in items ==> it == items[0] || it in items[1..];
      DatedItemMentions(db, items[0], now) + rest
  }

  /** When every fetched item is at most seven days away, so is every visited pair. */
  lemma {:induction false} MentionsWithinWeek(db: Db, items: seq<Item>, now: int)
    requires forall k :: 0 <= k < |items| ==> items[k].expiry.Some? && DaysUntil(items[k].expiry.value, now) <= 7
    ensures forall k :: 0 <= k < |Mentions(db, items, now)| ==> Mentions(db, items, now)[k].days <= 7
  {
    if |items| > 0 {
      assert forall k :: 0 <= k < |items[1..]| ==> items[1..][k] == items[k + 1];
      MentionsWithinWeek(db, items[1..], now);
    }
  }

  /** The item names a user has collected in each bucket. */
  datatype Buckets = Buckets(expired: seq<string>, tomorrow: seq<string>, soon: seq<string>)

  const NoBuckets: Buckets := Buckets([], [], [])

  /** The names in one bucket. */
  function Names(b: Buckets, k: Bucket): seq<string> {
    match k
    case ExpiredBucket => b.expired
    case TomorrowBucket => b.tomorrow
    case SoonBucket => b.soon
  }

  /** The buckets with one more item name put in the bucket its day-count selects, if any. */
  function File(b: Buckets, m: Mention): (r: Buckets)
    ensures forall k :: Names(r, k) == Names(b, k) + (if BucketFor(m.days) == Some(k) then [m.itemName] else [])
  {
    match BucketFor(m.days)
    case Some(ExpiredBucket) => b.(expired := b.expired + [m.itemName])
    case Some(TomorrowBucket) => b.(tomorrow := b.tomorrow + [m.itemName])
    case Some(SoonBucket) => b.(soon := b.soon + [m.itemName])
    case None => b
  }

  /** One user's entry in the job's per-user map. */
  datatype Recipient = Recipient(userId: Id, buckets: Buckets)

  /** The user's entry is updated, or appended when the user is new (map insertion order). */
  function Record(rs: seq<Recipient>, m: Mention): (r: seq<Recipient>) {
    match FirstIndex(rs, (x: Recipient) => x.userId == m.userId)
    case Some(i) => rs[i := Recipient(m.userId, File(rs[i].buckets, m))]
    case None => rs + [Recipient(m.userId, File(NoBuckets, m))]
  }

  /** The per-user map after visiting the pairs in order. */
  function Group(ms: seq<Mention>): seq<Recipient> {
    if |ms| == 0 then []
    else Record(Group(ms[..|ms| - 1]), ms[|ms| - 1])
  }

  /** Reference: the names of the items in bucket `k` that were visited for user `u`, in visiting order. */
  function NamesFor(ms: seq<Mention>, u: Id, k: Bucket): seq<string> {
    if |ms| == 0 then []
    else
      var m := ms[|ms| - 1];
      NamesFor(ms[..|ms| - 1], u, k) + (if m.userId == u && BucketFor(m.days) == Some(k) then [m.itemName] else [])
  }

  /** Some pair was visited for user `u`. */
  predicate Mentioned(ms: seq<Mention>, u: Id) {
    exists k :: 0 <= k < |ms| && ms[k].userId == u
  }

  /** The map has an entry for user `u`. */
  predicate Listed(rs: seq<Recipient>, u: Id) {
    exists i :: 0 <= i < |rs| && rs[i].userId == u
  }

  /** A user never visited has collected nothing. */
  lemma {:induction false} NamesForUnmentioned(ms: seq<Mention>, u: Id, k: Bucket)
    requires !Mentioned(ms, u)
    ensures NamesFor(ms, u, k) == []
  {
    if |ms| > 0 {
      var n := |ms| - 1;
      assert !Mentioned(ms[..n], u) by {
        forall j | 0 <= j < n ensures ms[..n][j].userId != u {
          assert ms[..n][j] == ms[j];
        }
      }
      NamesForUnmentioned(ms[..n], u, k);
    }
  }

  /** No user has two entries. */
  predicate DistinctUsers(rs: seq<Recipient>) {
    forall i, j :: 0 <= i < j < |rs| ==> rs[i].userId != rs[j].userId
  }

  /** The entries are for exactly the visited users. */
  ghost predicate SameUsers(rs: seq<Recipient>, ms: seq<Mention>) {
    forall u :: Listed(rs, u) <==> Mentioned(ms, u)
  }

  /** Every entry holds the reference names of its user. */
  predicate NamesMatch(rs: seq<Recipient>, ms: seq<Mention>) {
    forall i, k :: 0 <= i < |rs| ==> Names(rs[i].buckets, k) == NamesFor(ms, rs[i].userId, k)
  }

  /** The grouping invariant: one entry per user, exactly the visited users, each holding the reference names. */
  ghost predicate GroupedFrom(rs: seq<Recipient>, ms: seq<Mention>) {
    DistinctUsers(rs) && SameUsers(rs, ms) && NamesMatch(rs, ms)
  }

  /**
   * The per-user map has one entry per visited user, no user twice, and
   * each entry's buckets hold exactly the names of that user's items of
   * that bucket, in visiting order.
   */
  lemma {:induction false} GroupIsPerUser(ms: seq<Mention>)
    ensures GroupedFrom(Group(ms), ms)
  {
    if |ms| > 0 {
      var n := |ms| - 1;
      GroupIsPerUser(ms[..n]);
      RecordKeepsGrouping(Group(ms[..n]), ms[..n], ms[n]);
      assert ms[..n] + [ms[n]] == ms;
    }
  }

  /** Recording one more pair keeps the grouping invariant. */
  lemma RecordKeepsGrouping(rs: seq<Recipient>, ms: seq<Mention>, m: Mention)
    requires GroupedFrom(rs, ms)
    ensures GroupedFrom(Record(rs, m), ms + [m])
  {
    MentionedSnoc(ms, m);
    match FirstIndex(rs, (x: Recipient) => x.userId == m.userId)
    case Some(i) =>
      var r := rs[i := Recipient(m.userId, File(rs[i].buckets, m))];
      SameUserIds(rs, r);
      assert Listed(rs, m.userId);
      ExistingNames(rs, ms, m, i);
    case None =>
      assert !Listed(rs, m.userId);
      var r := rs + [Recipient(m.userId, File(NoBuckets, m))];
      AppendedUsers(rs, r[|rs|]);
      NewNames(rs, ms, m);
  }

  /** Visiting one more pair adds its user to the visited users. */
  lemma MentionedSnoc(ms: seq<Mention>, m: Mention)
    ensures forall u :: Mentioned(ms + [m], u) <==> Mentioned(ms, u) || u == m.userId
  {
    var ms' := ms + [m];
    forall u ensures Mentioned(ms', u) <==> Mentioned(ms, u) || u == m.userId {
      if Mentioned(ms', u) && u != m.userId {
        var k :| 0 <= k < |ms'| && ms'[k].userId == u;
        assert ms[k] == ms'[k];
      }
      if Mentioned(ms, u) {
        var k :| 0 <= k < |ms| && ms[k].userId == u;
        assert ms'[k] == ms[k];
      }
      if u == m.userId {
        assert ms'[|ms|] == m;
      }
    }
  }

  /** Visiting one more pair adds its item name to its user's bucket, and to nothing else. */
  lemma NamesForSnoc(ms: seq<Mention>, m: Mention, u: Id, k: Bucket)
    ensures NamesFor(ms + [m], u, k)
         == NamesFor(ms, u, k) + (if m.userId == u && BucketFor(m.days) == Some(k) then [m.itemName] else [])
  {
    assert (ms + [m])[..|ms|] == ms;
  }

  /** Entries with the same users in the same order are distinct and listed alike. */
  lemma SameUserIds(rs: seq<Recipient>, r: seq<Recipient>)
    requires |r| == |rs| && forall j :: 0 <= j < |r| ==> r[j].userId == rs[j].userId
    ensures DistinctUsers(r) <==> DistinctUsers(rs)
    ensures forall u :: Listed(r, u) <==> Listed(rs, u)
  {
    forall u ensures Listed(r, u) <==> Listed(rs, u) {
      if Listed(r, u) {
        var j :| 0 <= j < |r| && r[j].userId == u;
        assert rs[j].userId == u;
      }
      if Listed(rs, u) {
        var j :| 0 <= j < |rs| && rs[j].userId == u;
        assert r[j].userId == u;
      }
    }
  }

  /** Appending an entry for a new user keeps the users distinct and lists that user too. */
  lemma AppendedUsers(rs: seq<Recipient>, x: Recipient)
    requires DistinctUsers(rs) && !Listed(rs, x.userId)
    ensures DistinctUsers(rs + [x])
    ensures forall u :: Listed(rs + [x], u) <==> Listed(rs, u) || u == x.userId
  {
    var r := rs + [x];
    forall u ensures Listed(r, u) <==> Listed(rs, u) || u == x.userId {
      if Listed(r, u) && u != x.userId {
        var j :| 0 <= j < |r| && r[j].userId == u;
        assert rs[j].userId == u;
      }
      if Listed(rs, u) {
        var j :| 0 <= j < |rs| && rs[j].userId == u;
        assert r[j].userId == u;
      }
      assert r[|rs|].userId == x.userId;
    }
    forall i, j | 0 <= i < j < |r| ensures r[i].userId != r[j].userId {
      if j == |rs| {
        assert r[i] == rs[i];
      } else {
        assert r[i] == rs[i] && r[j] == rs[j];
      }
    }
  }

  /** The names invariant after recording a pair for a user already in the map. */
  lemma ExistingNames(rs: seq<Recipient>, ms: seq<Mention>, m: Mention, i: nat)
    requires DistinctUsers(rs) && NamesMatch(rs, ms) && i < |rs| && rs[i].userId == m.userId
    ensures NamesMatch(rs[i := Recipient(m.userId, File(rs[i].buckets, m))], ms + [m])
  {
    var r := rs[i := Recipient(m.userId, File(rs[i].buckets, m))];
    forall j, k | 0 <= j < |r| ensures Names(r[j].buckets, k) == NamesFor(ms + [m], r[j].userId, k) {
      NamesForSnoc(ms, m, r[j].userId, k);
      if j != i {
        assert r[j] == rs[j] && rs[j].userId != m.userId;
      }
    }
  }

  /** The names invariant after appending an entry for a new user. */
  lemma NewNames(rs: seq<Recipient>, ms: seq<Mention>, m: Mention)
    requires SameUsers(rs, ms) && NamesMatch(rs, ms) && !Listed(rs, m.userId)
    ensures NamesMatch(rs + [Recipient(m.userId, File(NoBuckets, m))], ms + [m])
  {
    var r := rs + [Recipient(m.userId, File(NoBuckets, m))];
    forall j, k | 0 <= j < |r| ensures Names(r[j].buckets, k) == NamesFor(ms + [m], r[j].userId, k) {
      NamesForSnoc(ms, m, r[j].userId, k);
      if j < |rs| {
        assert r[j] == rs[j];
        assert rs[j].userId != m.userId;
      } else {
        NamesForUnmentioned(ms, m.userId, k);
      }
    }
  }

  /** The number of pairs visited for user `u`. */
  function MentionCount(ms: seq<Mention>, u: Id): (n: nat)
    ensures n <= |ms|
  {
    if |ms| == 0 then 0
    else MentionCount(ms[..|ms| - 1], u) + (if ms[|ms| - 1].userId == u then 1 else 0)
  }

  /** When every pair is at most seven days away, each of a user's pairs is filed in exactly one bucket. */
  lemma {:induction false} EveryMentionFiledOnce(ms: seq<Mention>, u: Id)
    requires forall k :: 0 <= k < |ms| ==> ms[k].days <= 7
    ensures |NamesFor(ms, u, ExpiredBucket)| + |NamesFor(ms, u, TomorrowBucket)| + |NamesFor(ms, u, SoonBucket)|
         == MentionCount(ms, u)
  {
    if |ms| > 0 {
      var n := |ms| - 1;
      assert forall k :: 0 <= k < n ==> ms[..n][k] == ms[k];
      EveryMentionFiledOnce(ms[..n], u);
    }
  }

  /** The buckets that hold at least one name, in alert order. */
  function Kinds(b: Buckets): (r: seq<Bucket>)
    ensures |r| <= 3
    ensures forall k :: k in r <==> |Names(b, k)| > 0
    ensures forall i, j :: 0 <= i < j < |r| ==> Rank(r[i]) < Rank(r[j])
  {
    (if |b.expired| > 0 then [ExpiredBucket] else [])
    + (if |b.tomorrow| > 0 then [TomorrowBucket] else [])
    + (if |b.soon| > 0 then [SoonBucket] else [])
  }

  /** The tag that lets a newer alert of the same bucket replace an older one on the device. */
  function BucketTag(k: Bucket): string {
    match k
    case ExpiredBucket => "expired-items"
    case TomorrowBucket => "expiring-tomorrow"
    case SoonBucket => "expiring-soon"
  }

  /**
   * The alert for one bucket: the Danish title, the body naming the item or
   * the count, the inventory filtered to expired items for the expired
   * bucket and to soon-expiring items otherwise, and a notification that
   * stays on screen for the expired and tomorrow buckets only.
   */
  function Notice(k: Bucket, names: seq<string>): (p: Payload)
    ensures p.title == AlertTitle && p.body == AlertBody(k, names)
    ensures p.url == ExpiredUrl <==> k == ExpiredBucket
    ensures p.requireInteraction == Some(true) <==> k != SoonBucket
    ensures p.requireInteraction.Some?
  {
    assert |ExpiredUrl| != |SoonUrl|;
    Payload(AlertTitle, AlertBody(k, names), if k == ExpiredBucket then ExpiredUrl else SoonUrl, BucketTag(k), Some(k != SoonBucket))
  }

  /** The alerts for one user: one per non-empty bucket, in the order expired, tomorrow, soon. */
  function Notifications(b: Buckets): (r: seq<Payload>)
    ensures |r| == |Kinds(b)| <= 3
    ensures forall i :: 0 <= i < |r| ==> r[i] == Notice(Kinds(b)[i], Names(b, Kinds(b)[i]))
  {
    Map(Kinds(b), (k: Bucket) => Notice(k, Names(b, k)))
  }

  /** `a` times `b`, by repeated addition (keeps the solver out of non-linear arithmetic). */
  function Times(a: nat, b: nat): nat {
    if a == 0 then 0 else b + Times(a - 1, b)
  }

  /** Every alert to every subscription: alert by alert, and subscription by subscription within one. */
  function Fanout(notes: seq<Payload>, subs: seq<Subscription>): (r: seq<Attempt>)
    ensures |r| == Times(|notes|, |subs|)
    ensures forall a :: a in r ==> a.payload in notes
    ensures forall a :: a in r ==> exists k :: 0 <= k < |subs| && subs[k].id == a.subscriptionId
  {
    if |notes| == 0 then []
    else
      var first := Map(subs, (s: Subscription) => Attempt(s.id, notes[0]));
      var rest := Fanout(notes[1..], subs);
      assert forall x :: x in notes[1..] ==> x in notes;
      first + rest
  }

  /** The sends for one user: none without a subscription, otherwise every alert to every subscription of theirs. */
  function RecipientAttempts(db: Db, rc: Recipient): (r: seq<Attempt>)
    ensures |r| == Times(|Kinds(rc.buckets)|, |SubscriptionsOf(db, rc.userId)|)
    ensures SubscriptionsOf(db, rc.userId) == [] ==> r == []
    ensures forall a :: a in r ==> a.payload in Notifications(rc.buckets)
    ensures forall a :: a in r ==> OwnsSubscription(db, rc.userId, a.subscriptionId)
  {
    var subs := SubscriptionsOf(db, rc.userId);
    if |subs| == 0 then []
    else
      var r := Fanout(Notifications(rc.buckets), subs);
      assert forall a :: a in r ==> OwnsSubscription(db, rc.userId, a.subscriptionId) by {
        forall a | a in r ensures OwnsSubscription(db, rc.userId, a.subscriptionId) {
          var k :| 0 <= k < |subs| && subs[k].id == a.subscriptionId;
          RowIsOwned(db, rc.userId, subs[k]);
        }
      }
      r
  }

  /** The number of sends the alerts call for: alerts times subscriptions, summed over users. */
  function PlannedSends(db: Db, rs: seq<Recipient>): nat {
    if |rs| == 0 then 0
    else PlannedSends(db, rs[..|rs| - 1]) + Times(|Kinds(rs[|rs| - 1].buckets)|, |SubscriptionsOf(db, rs[|rs| - 1].userId)|)
  }

  /** Attempt `a` sends one of recipient `rc`'s alerts to one of their own subscriptions. */
  predicate SendsTo(db: Db, rc: Recipient, a: Attempt) {
    a.payload in Notifications(rc.buckets) && OwnsSubscription(db, rc.userId, a.subscriptionId)
  }

  /** Attempt `a` sends one of some recipient's alerts to one of that recipient's subscriptions. */
  predicate SendsToSome(db: Db, rs: seq<Recipient>, a: Attempt) {
    exists i :: 0 <= i < |rs| && SendsTo(db, rs[i], a)
  }

  lemma SendsToSomeExtended(db: Db, rs: seq<Recipient>, n: nat, a: Attempt)
    requires n <= |rs| && SendsToSome(db, rs[..n], a)
    ensures SendsToSome(db, rs, a)
  {
    var i :| 0 <= i < n && SendsTo(db, rs[..n][i], a);
    assert rs[..n][i] == rs[i];
  }

  /** All sends of the job, user by user in map order. */
  function Plan(db: Db, rs: seq<Recipient>): (r: seq<Attempt>)
    ensures |r| == PlannedSends(db, rs)
    ensures forall a :: a in r ==> SendsToSome(db, rs, a)
  {
    if |rs| == 0 then []
    else
      var n := |rs| - 1;
      var init := Plan(db, rs[..n]);
      var last := RecipientAttempts(db, rs[n]);
      assert forall a :: a in init ==> SendsToSome(db, rs, a) by {
        forall a | a in init ensures SendsToSome(db, rs, a) {
          SendsToSomeExtended(db, rs, n, a);
        }
      }
      assert forall a :: a in last ==> SendsTo(db, rs[n], a);
      init + last
  }

  /** Every send of the job at time `now`, in order. */
  function JobSends(db: Db, now: int): seq<Attempt> {
    Plan(db, Group(Mentions(db, DueItems(db, now), now)))
  }

  /**
   * The whole job. `answer(k)` is the push service's answer to the `k`-th
   * send and `keysConfigured` says whether push keys are set; sends go
   * through the helper as written. Unauthorized requests change nothing;
   * otherwise the report counts the fetched items, the successful sends
   * and the deleted subscriptions, and the only change to the database is
   * the deletion of exactly the subscriptions reported gone. When push keys
   * are missing every send reports gone, so nothing is sent and every
   * targeted subscription is deleted.
   */
  method CheckExpiring(
    db: Db, now: int,
    authorization: Option<string>, apiKey: Option<string>,
    cronSecret: Option<string>, cronApiKey: Option<string>,
    keysConfigured: bool, answer: nat -> Answer)
    returns (r: Result<JobReport, HttpError>, db': Db)
    ensures !Admitted(authorization, apiKey, ConfiguredSecret(cronSecret, cronApiKey)) ==> r == Err(Unauthorized) && db' == db
    ensures Admitted(authorization, apiKey, ConfiguredSecret(cronSecret, cronApiKey)) ==> r.Ok?
    ensures r.Ok? ==> r.value.itemsChecked == |DueItems(db, now)|
    ensures r.Ok? ==> r.value.notificationsSent + r.value.subscriptionsRemoved <= PlannedSends(db, Group(Mentions(db, DueItems(db, now), now)))
    ensures r.Ok? ==> r.value.notificationsSent == Successes(OutcomesAsWritten(keysConfigured, answer, |JobSends(db, now)|))
    ensures r.Ok? && keysConfigured ==> r.value.notificationsSent == DeliveredCount(answer, |JobSends(db, now)|)
    ensures r.Ok? ==> r.value.subscriptionsRemoved == |SubscriptionIds(db) - SubscriptionIds(db')|
    ensures db' == db.(subscriptions := db'.subscriptions)
    ensures |db'.subscriptions| <= |db.subscriptions|
    ensures forall s :: s in db'.subscriptions ==> s in db.subscriptions
    ensures r.Ok? ==> PurgedExactly(db, db', JobSends(db, now), OutcomesAsWritten(keysConfigured, answer, |JobSends(db, now)|))
    ensures r.Ok? && !keysConfigured ==> r.value.notificationsSent == 0
    ensures r.Ok? && !keysConfigured ==>
      forall s :: s in db.subscriptions ==> (s in db'.subscriptions <==> s.id !in Targets(JobSends(db, now)))
  {
    if !Admitted(authorization, apiKey, ConfiguredSecret(cronSecret, cronApiKey)) {
      return Err(Unauthorized), db;
    }
    var items := DueItems(db, now);
    var attempts := JobSends(db, now);
    var outcomes := OutcomesAsWritten(keysConfigured, answer, |attempts|);
    var sent, removed;
    sent, removed, db' := Deliver(db, attempts, outcomes);
    r := Ok(JobReport(|items|, sent, removed));
    if keysConfigured {
      SuccessesAreDeliveries(answer, |attempts|);
    } else {
      UnconfiguredGoneIffTargeted(attempts, answer);
    }
  }

  /**
   * An item expiring exactly now is zero days away: the status badge shows
   * it as danger, while the daily job already files it as expired.
   */
  lemma DayZeroDisagreement(now: int)
    ensures GetExpirationStatus(Some(now), now) == Danger
    ensures BucketFor(DaysUntil(now, now)) == Some(ExpiredBucket)
  {
    ExpiringNowIsDanger(now);
  }
}
