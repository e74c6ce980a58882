/**
 * Push delivery as the notification jobs perform it: each attempt sends
 * one payload to one subscription. The push service is an oracle that
 * answers each attempt with `Sent`, `Gone` (the service reports the
 * subscription expired, or push keys are not configured) or `Throws`. A
 * success is counted; a `Gone` deletes the subscription row and is counted
 * as a removal; a throw, and a delete of a row that an earlier attempt
 * already removed, are caught and change nothing.
 */
module Delivery {
  import opened Wrappers
  import opened Store

  /** The JSON payload of a push message; `requireInteraction` is left out of some payloads. */
  datatype Payload = Payload(title: string, body: string, url: string, tag: string, requireInteraction: Option<bool>)

  /** What the push service did with one attempt. */
  datatype Outcome = Sent | Gone | Throws

  /** One send of `payload` to the subscription with id `subscriptionId`. */
  datatype Attempt = Attempt(subscriptionId: Id, payload: Payload)

  /** What a notification job reports: items fetched, sends that succeeded, rows deleted. */
  datatype JobReport = JobReport(itemsChecked: nat, notificationsSent: nat, subscriptionsRemoved: nat)

  /** The two counters and the ids of the subscription rows not yet deleted. */
  datatype Tally = Tally(sent: nat, removed: nat, live: set<Id>)

  /** The effect of one attempt's outcome. */
  function Step(t: Tally, a: Attempt, o: Outcome): (r: Tally)
    ensures r.sent == t.sent + (if o == Sent then 1 else 0)
    ensures r.sent + r.removed <= t.sent + t.removed + 1
    ensures r.live <= t.live && t.live - r.live <= {a.subscriptionId}
    ensures r.removed + |r.live| == t.removed + |t.live|
    ensures o == Gone ==> a.subscriptionId !in r.live
    ensures o != Gone ==> r.live == t.live
  {
    match o
    case Sent => t.(sent := t.sent + 1)
    case Gone =>
      if a.subscriptionId in t.live then Tally(t.sent, t.removed + 1, t.live - {a.subscriptionId}) else t
    case Throws => t
  }

  /** The tally after the attempts in order, starting from `t`. */
  function Run(t: Tally, attempts: seq<Attempt>, outcomes: seq<Outcome>): Tally
    requires |outcomes| == |attempts|
    decreases |attempts|
  {
    if |attempts| == 0 then t
    else
      var n := |attempts| - 1;
      Step(Run(t, attempts[..n], outcomes[..n]), attempts[n], outcomes[n])
  }

  /** The number of `Sent` outcomes. */
  function Successes(outcomes: seq<Outcome>): (n: nat)
    ensures n <= |outcomes|
  {
    if |outcomes| == 0 then 0
    else Successes(outcomes[..|outcomes| - 1]) + (if outcomes[|outcomes| - 1] == Sent then 1 else 0)
  }

  /**
   * Running the attempts counts exactly the successes, counts at most one
   * event per attempt, only deletes rows, counts each deleted row once,
   * deletes only rows some attempt reported gone, and deletes every such row.
   */
  lemma {:induction false} RunCounts(t: Tally, attempts: seq<Attempt>, outcomes: seq<Outcome>)
    requires |outcomes| == |attempts|
    ensures Run(t, attempts, outcomes).sent == t.sent + Successes(outcomes)
    ensures Run(t, attempts, outcomes).sent + Run(t, attempts, outcomes).removed <= t.sent + t.removed + |attempts|
    ensures Run(t, attempts, outcomes).live <= t.live
    ensures Run(t, attempts, outcomes).removed + |Run(t, attempts, outcomes).live| == t.removed + |t.live|
    ensures forall id :: id in t.live - Run(t, attempts, outcomes).live ==>
      exists k :: 0 <= k < |attempts| && attempts[k].subscriptionId == id && outcomes[k] == Gone
    ensures forall k :: 0 <= k < |attempts| && outcomes[k] == Gone ==>
      attempts[k].subscriptionId !in Run(t, attempts, outcomes).live
    decreases |attempts|
  {
    if |attempts| > 0 {
      var n := |attempts| - 1;
      RunCounts(t, attempts[..n], outcomes[..n]);
      var before := Run(t, attempts[..n], outcomes[..n]);
      var after := Run(t, attempts, outcomes);
      assert after == Step(before, attempts[n], outcomes[n]);
      forall id | id in t.live - after.live
        ensures exists k :: 0 <= k < |attempts| && attempts[k].subscriptionId == id && outcomes[k] == Gone
      {
        if id in t.live - before.live {
          var k :| 0 <= k < n && attempts[..n][k].subscriptionId == id && outcomes[..n][k] == Gone;
          assert attempts[k].subscriptionId == id && outcomes[k] == Gone;
        } else {
          assert attempts[n].subscriptionId == id && outcomes[n] == Gone;
        }
      }
      forall k | 0 <= k < |attempts| && outcomes[k] == Gone
        ensures attempts[k].subscriptionId !in after.live
      {
        if k < n {
          assert attempts[..n][k] == attempts[k] && outcomes[..n][k] == outcomes[k];
        }
      }
    }
  }

  /**
   * The send loop of the notification jobs: every attempt in order, with
   * the counters and deletions of `Step`. Returns the number of successes,
   * the number of removals and the ids of the rows that remain.
   */
  method DeliverAll(attempts: seq<Attempt>, outcomes: seq<Outcome>, live: set<Id>)
    returns (sent: nat, removed: nat, remaining: set<Id>)
    requires |outcomes| == |attempts|
    ensures Tally(sent, removed, remaining) == Run(Tally(0, 0, live), attempts, outcomes)
    ensures sent == Successes(outcomes)
    ensures sent + removed <= |attempts|
    ensures remaining <= live && removed == |live| - |remaining|
  {
    sent, removed, remaining := 0, 0, live;
    var i := 0;
    while i < |attempts|
      invariant 0 <= i <= |attempts|
      invariant Tally(sent, removed, remaining) == Run(Tally(0, 0, live), attempts[..i], outcomes[..i])
    {
      var id := attempts[i].subscriptionId;
      ghost var before := Tally(sent, removed, remaining);
      match outcomes[i] {
        case Sent =>
          sent := sent + 1;
        case Gone =>
          if id in remaining {
            remaining := remaining - {id};
            removed := removed + 1;
          }
        case Throws =>
      }
      assert Tally(sent, removed, remaining) == Step(before, attempts[i], outcomes[i]);
      assert attempts[..i + 1][..i] == attempts[..i] && outcomes[..i + 1][..i] == outcomes[..i];
      i := i + 1;
    }
    assert attempts[..i] == attempts && outcomes[..i] == outcomes;
    RunCounts(Tally(0, 0, live), attempts, outcomes);
  }

  /** Some attempt at subscription `id` was answered `Gone`. */
  predicate ReportedGone(attempts: seq<Attempt>, outcomes: seq<Outcome>, id: Id)
    requires |outcomes| == |attempts|
  {
    exists k :: 0 <= k < |attempts| && attempts[k].subscriptionId == id && outcomes[k] == Gone
  }

  /** `db'` keeps exactly the subscription rows of `db` that no attempt reported gone. */
  predicate PurgedExactly(db: Db, db': Db, attempts: seq<Attempt>, outcomes: seq<Outcome>)
    requires |outcomes| == |attempts|
  {
    forall s :: s in db.subscriptions ==> (s in db'.subscriptions <==> !ReportedGone(attempts, outcomes, s.id))
  }

  /**
   * The send loop applied to the subscription table: returns the number of
   * successes, the number of deleted ids and the table without exactly the
   * rows whose id some attempt found gone; nothing else in the store changes.
   */
  method Deliver(db: Db, attempts: seq<Attempt>, outcomes: seq<Outcome>)
    returns (sent: nat, removed: nat, db': Db)
    requires |outcomes| == |attempts|
    ensures sent == Successes(outcomes)
    ensures sent + removed <= |attempts|
    ensures removed == |SubscriptionIds(db) - SubscriptionIds(db')|
    ensures db' == db.(subscriptions := db'.subscriptions)
    ensures forall s :: s in db'.subscriptions ==> s in db.subscriptions
    ensures |db'.subscriptions| <= |db.subscriptions|
    ensures PurgedExactly(db, db', attempts, outcomes)
  {
    var remaining;
    sent, removed, remaining := DeliverAll(attempts, outcomes, SubscriptionIds(db));
    db' := KeepSubscriptions(db, remaining);
    RunCounts(Tally(0, 0, SubscriptionIds(db)), attempts, outcomes);
    KeptIff(db, remaining);
    KeptIds(db, remaining);
    forall s | s in db.subscriptions
      ensures s in db'.subscriptions <==> !ReportedGone(attempts, outcomes, s.id)
    {
      if s.id !in remaining {
        assert s.id in SubscriptionIds(db) - remaining;
      }
    }
    forall s | s in db'.subscriptions ensures s in db.subscriptions {
    }
    assert SubscriptionIds(db) - remaining <= SubscriptionIds(db);
    SetMinusSize(SubscriptionIds(db), remaining);
  }

  lemma SetMinusSize<T>(a: set<T>, b: set<T>)
    requires b <= a
    ensures |a - b| == |a| - |b|
  {
    assert a == (a - b) + b;
  }

  /** What the push service answers to one send: accepted, or rejected with an HTTP status. */
  datatype Answer = Delivered | Refused(status: int)

  /** The status with which the push service reports a subscription expired or unsubscribed. */
  const GoneStatus: int := 410

  /**
   * The send helper as written: without push keys it reports failure
   * before contacting the service, exactly as for a gone subscription, so
   * the caller deletes the row; a 410 also reports failure; any other
   * rejection throws.
   */
  function SendPushAsWritten(keysConfigured: bool, answer: Answer): (o: Outcome)
    ensures o == Sent <==> keysConfigured && answer == Delivered
    ensures o == Gone <==> !keysConfigured || answer == Refused(GoneStatus)
  {
    if !keysConfigured then Gone
    else match answer
      case Delivered => Sent
      case Refused(status) => if status == GoneStatus then Gone else Throws
  }

  /**
   * The send helper as the deletion rule intends it: only the service's
   * 410 marks a subscription gone; missing push keys are a failure that
   * deletes nothing.
   */
  function SendPush(keysConfigured: bool, answer: Answer): (o: Outcome)
    ensures o == Sent <==> keysConfigured && answer == Delivered
    ensures o == Gone <==> keysConfigured && answer == Refused(GoneStatus)
    ensures keysConfigured ==> o == SendPushAsWritten(keysConfigured, answer)
  {
    if !keysConfigured then Throws else SendPushAsWritten(keysConfigured, answer)
  }

  /** The outcomes of `n` sends whose service answers are `answer(0)`, `answer(1)`, and so on. */
  function Outcomes(keysConfigured: bool, answer: nat -> Answer, n: nat): (r: seq<Outcome>)
    ensures |r| == n
    ensures forall k :: 0 <= k < n ==> r[k] == SendPush(keysConfigured, answer(k))
  {
    seq(n, k requires 0 <= k < n => SendPush(keysConfigured, answer(k)))
  }

  /** The outcomes of `n` sends through the helper as written. */
  function OutcomesAsWritten(keysConfigured: bool, answer: nat -> Answer, n: nat): (r: seq<Outcome>)
    ensures |r| == n
    ensures forall k :: 0 <= k < n ==> r[k] == SendPushAsWritten(keysConfigured, answer(k))
  {
    seq(n, k requires 0 <= k < n => SendPushAsWritten(keysConfigured, answer(k)))
  }

  /** The number of the first `n` sends that the service accepts. */
  function DeliveredCount(answer: nat -> Answer, n: nat): (c: nat)
    ensures c <= n
  {
    if n == 0 then 0 else DeliveredCount(answer, n - 1) + (if answer(n - 1) == Delivered then 1 else 0)
  }

  /** With push keys set, the successes are exactly the sends the service accepts. */
  lemma {:induction false} SuccessesAreDeliveries(answer: nat -> Answer, n: nat)
    ensures Successes(OutcomesAsWritten(true, answer, n)) == DeliveredCount(answer, n)
    ensures Successes(Outcomes(true, answer, n)) == DeliveredCount(answer, n)
  {
    if n > 0 {
      SuccessesAreDeliveries(answer, n - 1);
      assert OutcomesAsWritten(true, answer, n)[..n - 1] == OutcomesAsWritten(true, answer, n - 1);
      assert Outcomes(true, answer, n)[..n - 1] == Outcomes(true, answer, n - 1);
    }
  }

  /** With the helper as written and no push keys, an attempt's row is reported gone exactly when it is targeted. */
  lemma UnconfiguredGoneIffTargeted(attempts: seq<Attempt>, answer: nat -> Answer)
    ensures forall id :: ReportedGone(attempts, OutcomesAsWritten(false, answer, |attempts|), id) <==> id in Targets(attempts)
    ensures Successes(OutcomesAsWritten(false, answer, |attempts|)) == 0
  {
    var outcomes := OutcomesAsWritten(false, answer, |attempts|);
    NoSuccesses(outcomes);
    forall id | id in Targets(attempts) ensures ReportedGone(attempts, outcomes, id) {
      var k :| 0 <= k < |attempts| && attempts[k].subscriptionId == id;
      assert outcomes[k] == Gone;
    }
  }

  /** The ids the attempts send to. */
  function Targets(attempts: seq<Attempt>): (r: set<Id>)
    ensures forall k :: 0 <= k < |attempts| ==> attempts[k].subscriptionId in r
    ensures forall id :: id in r ==> exists k :: 0 <= k < |attempts| && attempts[k].subscriptionId == id
  {
    set k | 0 <= k < |attempts| :: attempts[k].subscriptionId
  }

  /** A run in which every outcome is `Gone` deletes exactly the live rows it targets. */
  lemma {:induction false} AllGone(t: Tally, attempts: seq<Attempt>, outcomes: seq<Outcome>)
    requires |outcomes| == |attempts|
    requires forall k :: 0 <= k < |outcomes| ==> outcomes[k] == Gone
    ensures Run(t, attempts, outcomes).live == t.live - Targets(attempts)
    decreases |attempts|
  {
    if |attempts| > 0 {
      var n := |attempts| - 1;
      assert forall k :: 0 <= k < n ==> outcomes[..n][k] == outcomes[k];
      AllGone(t, attempts[..n], outcomes[..n]);
      TargetsSnoc(attempts);
      var before := Run(t, attempts[..n], outcomes[..n]);
      assert Run(t, attempts, outcomes) == Step(before, attempts[n], Gone);
      var id := attempts[n].subscriptionId;
      GoneRemoves(before, attempts[n]);
      MinusSnoc(t.live, Targets(attempts[..n]), id);
    }
  }

  lemma MinusSnoc<T>(a: set<T>, b: set<T>, x: T)
    ensures (a - b) - {x} == a - (b + {x})
  {
  }

  /** A `Gone` outcome leaves every live row but the attempt's. */
  lemma GoneRemoves(t: Tally, a: Attempt)
    ensures Step(t, a, Gone).live == t.live - {a.subscriptionId}
  {
    if a.subscriptionId !in t.live {
      assert t.live - {a.subscriptionId} == t.live;
    }
  }

  /** The targets of a sequence of attempts are those of all but the last, plus the last's. */
  lemma TargetsSnoc(attempts: seq<Attempt>)
    requires |attempts| > 0
    ensures Targets(attempts) == Targets(attempts[..|attempts| - 1]) + {attempts[|attempts| - 1].subscriptionId}
  {
    var n := |attempts| - 1;
    forall id | id in Targets(attempts) ensures id in Targets(attempts[..n]) + {attempts[n].subscriptionId} {
      var k :| 0 <= k < |attempts| && attempts[k].subscriptionId == id;
      if k < n {
        assert attempts[..n][k] == attempts[k];
      }
    }
    forall id | id in Targets(attempts[..n]) ensures id in Targets(attempts) {
      var k :| 0 <= k < n && attempts[..n][k].subscriptionId == id;
      assert attempts[k] == attempts[..n][k];
    }
  }

  /** A run in which no outcome is `Gone` deletes nothing. */
  lemma {:induction false} NoneGone(t: Tally, attempts: seq<Attempt>, outcomes: seq<Outcome>)
    requires |outcomes| == |attempts|
    requires forall k :: 0 <= k < |outcomes| ==> outcomes[k] != Gone
    ensures Run(t, attempts, outcomes).live == t.live
    ensures Run(t, attempts, outcomes).removed == t.removed
    decreases |attempts|
  {
    if |attempts| > 0 {
      var n := |attempts| - 1;
      assert forall k :: 0 <= k < n ==> outcomes[..n][k] == outcomes[k];
      NoneGone(t, attempts[..n], outcomes[..n]);
    }
  }

  /**
   * With the helper as written and no push keys, a run sends nothing and
   * deletes every subscription it targets.
   */
  lemma UnconfiguredKeysPurge(attempts: seq<Attempt>, answer: nat -> Answer, live: set<Id>)
    ensures var t := Run(Tally(0, 0, live), attempts, OutcomesAsWritten(false, answer, |attempts|));
      t.sent == 0 && t.live == live - Targets(attempts)
  {
    var outcomes := OutcomesAsWritten(false, answer, |attempts|);
    RunCounts(Tally(0, 0, live), attempts, outcomes);
    NoSuccesses(outcomes);
    AllGone(Tally(0, 0, live), attempts, outcomes);
  }

  /** With the corrected helper and no push keys, a run sends nothing and deletes nothing. */
  lemma UnconfiguredKeysKeep(attempts: seq<Attempt>, answer: nat -> Answer, live: set<Id>)
    ensures var t := Run(Tally(0, 0, live), attempts, Outcomes(false, answer, |attempts|));
      t.sent == 0 && t.removed == 0 && t.live == live
  {
    var outcomes := Outcomes(false, answer, |attempts|);
    RunCounts(Tally(0, 0, live), attempts, outcomes);
    NoSuccesses(outcomes);
    NoneGone(Tally(0, 0, live), attempts, outcomes);
  }

  /** Outcomes none of which is `Sent` count no successes. */
  lemma {:induction false} NoSuccesses(outcomes: seq<Outcome>)
    requires forall k :: 0 <= k < |outcomes| ==> outcomes[k] != Sent
    ensures Successes(outcomes) == 0
  {
    if |outcomes| > 0 {
      NoSuccesses(outcomes[..|outcomes| - 1]);
    }
  }
}
