/**
 * The API-key job that alerts per item: an item due within a week is
 * announced, in English, only on the days it is exactly 7, 3, 1 or 0 days
 * away, to every subscription of every member of its stash.
 */
module ThresholdJob {
  import opened Wrappers
  import opened Text
  import opened Expiration
  import opened Collections
  import opened Store
  import opened Delivery
  import CronJob

  /**
   * The job runs only when an API key is configured and the request's
   * API-key header equals it.
   */
  function KeyAdmitted(apiKey: Option<string>, expectedKey: Option<string>): (ok: bool)
    ensures !Truthy(expectedKey) ==> !ok
    ensures Truthy(expectedKey) ==> (ok <==> apiKey == expectedKey)
  {
    Truthy(expectedKey) && apiKey == expectedKey
  }

  /**
   * Without a configured key this job turns every request away, while the
   * daily job lets every request in.
   */
  lemma UnsetKeyContrast(authorization: Option<string>, apiKey: Option<string>)
    ensures !KeyAdmitted(apiKey, None)
    ensures CronJob.Admitted(authorization, apiKey, CronJob.ConfiguredSecret(None, None))
  {
  }

  /** The day-counts on which an item is announced. */
  const Thresholds: seq<int> := [7, 3, 1, 0]

  const AlertTitle: string := "Expiration Alert"
  const AlertUrl: string := "/expiring"
  const ExpiredPhrase: string := " has expired!"
  const TomorrowPhrase: string := " expires tomorrow!"
  const InPhrase: string := " expires in "
  const DaysWord: string := " days"

  /** The text for an item `days` days from expiry: expired, tomorrow, or in so many days. */
  function Body(name: string, days: int): (r: string)
    ensures StartsWith(r, name)
    ensures days <= 0 ==> r == name + ExpiredPhrase
    ensures days == 1 ==> r == name + TomorrowPhrase
    ensures days > 1 ==> r == name + InPhrase + NatToDecimal(days) + DaysWord
  {
    var tail := if days <= 0 then ExpiredPhrase
      else if days == 1 then TomorrowPhrase
      else InPhrase + IntToDecimal(days) + DaysWord;
    assert (name + tail)[..|name|] == name;
    name + tail
  }

  /** Two day-counts above one whose bodies agree are equal. */
  lemma BodyInjectiveAboveOne(name: string, d1: int, d2: int)
    requires d1 > 1 && d2 > 1 && Body(name, d1) == Body(name, d2)
    ensures d1 == d2
  {
    var s1, s2 := NatToDecimal(d1), NatToDecimal(d2);
    var p := name + InPhrase;
    assert Body(name, d1) == p + s1 + DaysWord;
    assert Body(name, d2) == p + s2 + DaysWord;
    assert |s1| == |s2|;
    assert s1 == Body(name, d1)[|p|..|p| + |s1|];
    assert s2 == Body(name, d2)[|p|..|p| + |s2|];
    NatToDecimalInjective(d1, d2);
  }

  /**
   * The body tells the day-count apart: two bodies for one name agree only
   * for the same count, or for two counts at or below zero.
   */
  lemma BodyInjective(name: string, d1: int, d2: int)
    ensures Body(name, d1) == Body(name, d2) ==> d1 == d2 || (d1 <= 0 && d2 <= 0)
  {
    if d1 > 1 && d2 > 1 {
      if Body(name, d1) == Body(name, d2) {
        BodyInjectiveAboveOne(name, d1, d2);
      }
    } else if d1 <= 0 && d2 == 1 {
      ExpiredNotTomorrow(name, d1);
    } else if d1 == 1 && d2 <= 0 {
      ExpiredNotTomorrow(name, d2);
    } else if d1 <= 1 && d2 > 1 {
      BodyEndings(name, d1, d2);
    } else if d1 > 1 && d2 <= 1 {
      BodyEndings(name, d2, d1);
    }
  }

  /** The expired body is shorter than the tomorrow body. */
  lemma ExpiredNotTomorrow(name: string, d: int)
    requires d <= 0
    ensures Body(name, d) != Body(name, 1)
  {
    assert |ExpiredPhrase| != |TomorrowPhrase|;
  }

  /** A body for a count of at most one ends with `!`, one for more ends with `s`. */
  lemma BodyEndings(name: string, d1: int, d2: int)
    requires d1 <= 1 && d2 > 1
    ensures Body(name, d1) != Body(name, d2)
  {
    var b1, b2 := Body(name, d1), Body(name, d2);
    assert b1[|b1| - 1] == '!';
    assert b2[|b2| - 1] == 's';
  }

  const TagPrefix: string := "expiring-"

  /** The tag that keeps one alert per item and day-count on the device. */
  function Tag(itemId: Id, days: int): (r: string)
    ensures StartsWith(r, TagPrefix)
  {
    var r := TagPrefix + itemId + "-" + IntToDecimal(days);
    assert r[..|TagPrefix|] == TagPrefix;
    r
  }

  /**
   * Tags of non-negative day-counts never collide: the tag determines the
   * item and the count, even for item ids that contain `-`.
   */
  lemma TagInjective(i1: Id, d1: int, i2: Id, d2: int)
    requires d1 >= 0 && d2 >= 0 && Tag(i1, d1) == Tag(i2, d2)
    ensures i1 == i2 && d1 == d2
  {
    var p1, p2 := TagPrefix + i1 + "-", TagPrefix + i2 + "-";
    var q1, q2 := NatToDecimal(d1), NatToDecimal(d2);
    assert Tag(i1, d1) == p1 + q1 && Tag(i2, d2) == p2 + q2;
    assert '-' !in q1 && '-' !in q2;
    LastIndexOfSuffix(p1, q1, '-');
    LastIndexOfSuffix(p2, q2, '-');
    assert |p1| == |p2|;
    assert p1 == (p1 + q1)[..|p1|] && p2 == (p2 + q2)[..|p2|];
    assert q1 == (p1 + q1)[|p1|..] && q2 == (p2 + q2)[|p2|..];
    assert i1 == p1[|TagPrefix|..|p1| - 1] && i2 == p2[|TagPrefix|..|p2| - 1];
    NatToDecimalInjective(d1, d2);
  }

  /** The alert for one item on one day: stays on screen from the day before expiry on. */
  function Notice(it: Item, days: int): (p: Payload)
    ensures p.title == AlertTitle && p.url == AlertUrl
    ensures p.body == Body(it.name, days) && p.tag == Tag(it.id, days)
    ensures p.requireInteraction == Some(days <= 1)
  {
    Payload(AlertTitle, Body(it.name, days), AlertUrl, Tag(it.id, days), Some(days <= 1))
  }

  /** One payload to every subscription of one member, in table order. */
  function MemberAttempts(db: Db, m: Membership, p: Payload): (r: seq<Attempt>)
    ensures |r| == |SubscriptionsOf(db, m.userId)|
    ensures forall a :: a in r ==> a.payload == p && OwnsSubscription(db, m.userId, a.subscriptionId)
    ensures forall s :: s in SubscriptionsOf(db, m.userId) ==> Attempt(s.id, p) in r
  {
    var subs := SubscriptionsOf(db, m.userId);
    var r := Map(subs, (s: Subscription) => Attempt(s.id, p));
    assert forall s :: s in subs ==> Attempt(s.id, p) in r by {
      forall s | s in subs ensures Attempt(s.id, p) in r {
        var k :| 0 <= k < |subs| && subs[k] == s;
        assert r[k] == Attempt(s.id, p);
      }
    }
    assert forall a :: a in r ==> OwnsSubscription(db, m.userId, a.subscriptionId) by {
      forall a | a in r ensures OwnsSubscription(db, m.userId, a.subscriptionId) {
        var k :| 0 <= k < |r| && r[k] == a;
        RowIsOwned(db, m.userId, subs[k]);
      }
    }
    r
  }

  /** Attempt `a` goes to a subscription of one of the memberships `ms`. */
  predicate ToSomeMember(db: Db, ms: seq<Membership>, a: Attempt) {
    exists k :: 0 <= k < |ms| && OwnsSubscription(db, ms[k].userId, a.subscriptionId)
  }

  /** The number of subscriptions the members hold, counted member by member. */
  function SubscriptionTotal(db: Db, ms: seq<Membership>): nat {
    if |ms| == 0 then 0 else |SubscriptionsOf(db, ms[0].userId)| + SubscriptionTotal(db, ms[1..])
  }

  /** `r` sends `p` to every subscription of every one of the memberships `ms`. */
  predicate ReachesMembers(db: Db, ms: seq<Membership>, p: Payload, r: seq<Attempt>) {
    forall k, s :: 0 <= k < |ms| && s in SubscriptionsOf(db, ms[k].userId) ==> Attempt(s.id, p) in r
  }

  /** One payload to every subscription of every member, member by member. */
  function MembersAttempts(db: Db, ms: seq<Membership>, p: Payload): (r: seq<Attempt>)
    ensures |r| == SubscriptionTotal(db, ms)
    ensures forall a :: a in r ==> a.payload == p && ToSomeMember(db, ms, a)
    ensures ReachesMembers(db, ms, p, r)
  {
    if |ms| == 0 then []
    else
      var first := MemberAttempts(db, ms[0], p);
      var rest := MembersAttempts(db, ms[1..], p);
      assert ReachesMembers(db, ms, p, first + rest) by {
        forall k, s | 0 <= k < |ms| && s in SubscriptionsOf(db, ms[k].userId) ensures Attempt(s.id, p) in first + rest {
          if k > 0 {
            assert ms[1..][k - 1] == ms[k];
          }
        }
      }
      assert forall a :: a in rest ==> ToSomeMember(db, ms, a) by {
        forall a | a in rest ensures ToSomeMember(db, ms, a) {
          var k :| 0 <= k < |ms[1..]| && OwnsSubscription(db, ms[1..][k].userId, a.subscriptionId);
          assert ms[1..][k] == ms[k + 1];
        }
      }
      first + rest
  }

  /** The day-count of a dated item, when it is one of the announced counts. */
  function AnnouncedDays(it: Item, now: int): (r: Option<int>)
    ensures r.Some? <==> it.expiry.Some? && DaysUntil(it.expiry.value, now) in Thresholds
    ensures r.Some? ==> r.value == DaysUntil(it.expiry.value, now)
  {
    match it.expiry
    case None => None
    case Some(e) => if DaysUntil(e, now) in Thresholds then Some(DaysUntil(e, now)) else None
  }

  /**
   * On an announced day, `r` sends the item's alert for that day to every
   * subscription of every member of the item's stash.
   */
  predicate Reaches(db: Db, it: Item, now: int, r: seq<Attempt>) {
    AnnouncedDays(it, now).Some? ==>
      ReachesMembers(db, CronJob.MembersOf(db, it.stashId), Notice(it, AnnouncedDays(it, now).value), r)
  }

  /** The number of sends for one item: on an announced day, one per subscription of each member of its stash. */
  function ItemSendCount(db: Db, it: Item, now: int): nat {
    if AnnouncedDays(it, now).Some? then SubscriptionTotal(db, CronJob.MembersOf(db, it.stashId)) else 0
  }

  /** The number of sends for all the items, summed item by item. */
  function PlannedTotal(db: Db, items: seq<Item>, now: int): nat {
    if |items| == 0 then 0 else ItemSendCount(db, items[0], now) + PlannedTotal(db, items[1..], now)
  }

  /** The sends for one item: none off the announced days, otherwise its alert to every member's subscriptions. */
  function ItemAttempts(db: Db, it: Item, now: int): (r: seq<Attempt>)
    ensures AnnouncedDays(it, now).None? ==> r == []
    ensures AnnouncedDays(it, now).Some? ==> |r| == SubscriptionTotal(db, CronJob.MembersOf(db, it.stashId))
    ensures forall a :: a in r ==> AnnouncedDays(it, now).Some? && a.payload == Notice(it, AnnouncedDays(it, now).value)
    ensures forall a :: a in r ==> ToSomeMember(db, CronJob.MembersOf(db, it.stashId), a)
    ensures Reaches(db, it, now, r)
  {
    match AnnouncedDays(it, now)
    case None => []
    case Some(d) => MembersAttempts(db, CronJob.MembersOf(db, it.stashId), Notice(it, d))
  }

  /** Attempt `a` carries the alert of one of `items` on an announced day. */
  predicate AnnouncesSome(items: seq<Item>, now: int, a: Attempt) {
    exists k :: 0 <= k < |items| && AnnouncedDays(items[k], now).Some?
      && a.payload == Notice(items[k], AnnouncedDays(items[k], now).value)
  }

  /** All sends of the job, item by item. */
  function Plan(db: Db, items: seq<Item>, now: int): (r: seq<Attempt>)
    ensures forall a :: a in r ==> AnnouncesSome(items, now, a)
    ensures |r| == PlannedTotal(db, items, now)
    ensures forall k :: 0 <= k < |items| ==> Reaches(db, items[k], now, r)
  {
    if |items| == 0 then []
    else
      var first := ItemAttempts(db, items[0], now);
      var rest := Plan(db, items[1..], now);
      PlanReaches(db, items, now, first, rest);
      assert forall a :: a in rest ==> AnnouncesSome(items, now, a) by {
        forall a | a in rest ensures AnnouncesSome(items, now, a) {
          var k :| 0 <= k < |items[1..]| && AnnouncedDays(items[1..][k], now).Some?
            && a.payload == Notice(items[1..][k], AnnouncedDays(items[1..][k], now).value);
          assert items[1..][k] == items[k + 1];
        }
      }
      first + rest
  }

  /** The first item's sends followed by the other items' sends reach everyone either part reaches. */
  lemma PlanReaches(db: Db, items: seq<Item>, now: int, first: seq<Attempt>, rest: seq<Attempt>)
    requires |items| > 0 && Reaches(db, items[0], now, first)
    requires forall k :: 0 <= k < |items[1..]| ==> Reaches(db, items[1..][k], now, rest)
    ensures forall k :: 0 <= k < |items| ==> Reaches(db, items[k], now, first + rest)
  {
    forall k | 0 <= k < |items| ensures Reaches(db, items[k], now, first + rest) {
      if k == 0 {
        ReachesGrows(db, items[0], now, first, first + rest);
      } else {
        assert items[1..][k - 1] == items[k];
        ReachesGrows(db, items[k], now, rest, first + rest);
      }
    }
  }

  /** Reaching everyone with some sends still holds once more sends are added. */
  lemma ReachesGrows(db: Db, it: Item, now: int, r: seq<Attempt>, r': seq<Attempt>)
    requires Reaches(db, it, now, r)
    requires forall a :: a in r ==> a in r'
    ensures Reaches(db, it, now, r')
  {
  }

  /** `p` is the alert of dated item `it` on a day it is exactly one of the announced counts away. */
  predicate AlertOnThreshold(it: Item, now: int, p: Payload) {
    it.expiry.Some? && DaysUntil(it.expiry.value, now) in Thresholds && p == Notice(it, DaysUntil(it.expiry.value, now))
  }

  /**
   * Every alert the job sends is for a fetched item on one of its announced
   * days, with that item's day-count.
   */
  lemma PlanOnlyOnThresholds(db: Db, items: seq<Item>, now: int, a: Attempt)
    requires a in Plan(db, items, now)
    ensures exists k :: 0 <= k < |items| && AlertOnThreshold(items[k], now, a.payload)
  {
    var k :| 0 <= k < |items| && AnnouncedDays(items[k], now).Some?
      && a.payload == Notice(items[k], AnnouncedDays(items[k], now).value);
  }

  /**
   * The whole job. `answer(k)` is the push service's answer to the `k`-th
   * send; sends go through the helper as written. Requests without the
   * configured key change nothing; otherwise the report counts the fetched
   * items, the successful sends and the deleted subscriptions, and the only
   * change is the deletion of exactly the subscriptions reported gone. When
   * push keys are missing nothing is sent and every targeted subscription
   * is deleted.
   */
  method CheckExpiring(
    db: Db, now: int, apiKey: Option<string>, expectedKey: Option<string>,
    keysConfigured: bool, answer: nat -> Answer)
    returns (r: Result<JobReport, HttpError>, db': Db)
    ensures !KeyAdmitted(apiKey, expectedKey) ==> r == Err(Unauthorized) && db' == db
    ensures KeyAdmitted(apiKey, expectedKey) ==> r.Ok?
    ensures r.Ok? ==> r.value.itemsChecked == |CronJob.DueItems(db, now)|
    ensures r.Ok? ==> r.value.notificationsSent + r.value.subscriptionsRemoved <= |Plan(db, CronJob.DueItems(db, now), now)|
    ensures r.Ok? ==> r.value.notificationsSent == Successes(OutcomesAsWritten(keysConfigured, answer, |Plan(db, CronJob.DueItems(db, now), now)|))
    ensures r.Ok? && keysConfigured ==> r.value.notificationsSent == DeliveredCount(answer, |Plan(db, CronJob.DueItems(db, now), now)|)
    ensures r.Ok? ==> r.value.subscriptionsRemoved == |SubscriptionIds(db) - SubscriptionIds(db')|
    ensures db' == db.(subscriptions := db'.subscriptions)
    ensures |db'.subscriptions| <= |db.subscriptions|
    ensures forall s :: s in db'.subscriptions ==> s in db.subscriptions
    ensures r.Ok? ==> PurgedExactly(db, db', Plan(db, CronJob.DueItems(db, now), now),
      OutcomesAsWritten(keysConfigured, answer, |Plan(db, CronJob.DueItems(db, now), now)|))
    ensures r.Ok? && !keysConfigured ==> r.value.notificationsSent == 0
    ensures r.Ok? && !keysConfigured ==>
      forall s :: s in db.subscriptions ==> (s in db'.subscriptions <==> s.id !in Targets(Plan(db, CronJob.DueItems(db, now), now)))
  {
    if !KeyAdmitted(apiKey, expectedKey) {
      return Err(Unauthorized), db;
    }
    var items := CronJob.DueItems(db, now);
    var attempts := Plan(db, items, now);
    var outcomes := OutcomesAsWritten(keysConfigured, answer, |attempts|);
    var sent, removed;
    sent, removed, db' := Deliver(db, attempts, outcomes);
    r := Ok(JobReport(|items|, sent, removed));
    if keysConfigured {
      SuccessesAreDeliveries(answer, |attempts|);
    } else {
      UnconfiguredGoneIffTargeted(attempts, answer);
    }
  }
}
