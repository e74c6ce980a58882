/**
 * Expiration classification (`getExpirationStatus` in the shared types
 * file): the whole-day count until an expiry instant, rounded up, and the
 * four-way status the badges, filters and lists use.
 *
 * Instants are integer milliseconds since the epoch; the current time is a
 * parameter.
 */
module Expiration {
  import opened Wrappers

  /** Milliseconds in a day: `1000 * 60 * 60 * 24`. */
  const DayMs: int := 86_400_000

  /** The exact ceiling of `a / b` for a positive divisor (`Math.ceil`). */
  function CeilDiv(a: int, b: int): (r: int)
    requires b > 0
    ensures b * (r - 1) < a <= b * r
  {
    var q := (-a) / b;
    assert -a == b * q + (-a) % b;
    -q
  }

  /** Multiplying by a positive factor keeps a strict order. */
  lemma MulStrict(b: int, x: int, y: int)
    requires b > 0 && b * x < b * y
    ensures x < y
  {
    assert b * (y - x) == b * y - b * x;
  }

  /** The rounded-up quotient is at most `k` exactly when the dividend is at most `b * k`. */
  lemma CeilDivAtMost(a: int, b: int, k: int)
    requires b > 0
    ensures CeilDiv(a, b) <= k <==> a <= b * k
  {
    var r := CeilDiv(a, b);
    if r <= k {
      assert b * k - b * r == b * (k - r) >= 0;
    }
    if a <= b * k {
      MulStrict(b, r - 1, k);
    }
  }

  /** A larger dividend never gives a smaller rounded-up quotient. */
  lemma CeilDivMonotonic(a1: int, a2: int, b: int)
    requires b > 0 && a1 <= a2
    ensures CeilDiv(a1, b) <= CeilDiv(a2, b)
  {
    CeilDivAtMost(a1, b, CeilDiv(a2, b));
  }

  /** Whole days from `now` until `expiry`, any started day counting as one. */
  function DaysUntil(expiry: int, now: int): (d: int)
    ensures DayMs * (d - 1) < expiry - now <= DayMs * d
  {
    CeilDiv(expiry - now, DayMs)
  }

  /** `DaysUntil` is at most `k` exactly when the expiry is no later than `k` days from now. */
  lemma DaysUntilAtMost(expiry: int, now: int, k: int)
    ensures DaysUntil(expiry, now) <= k <==> expiry <= now + k * DayMs
  {
    CeilDivAtMost(expiry - now, DayMs, k);
  }

  /** A later expiry is never fewer days away. */
  lemma DaysUntilMonotonic(e1: int, e2: int, now: int)
    requires e1 <= e2
    ensures DaysUntil(e1, now) <= DaysUntil(e2, now)
  {
    CeilDivMonotonic(e1 - now, e2 - now, DayMs);
  }

  /** The four badge states. */
  datatype Status = Safe | Warning | Danger | Expired

  /** How urgent a status is: safe 0, warning 1, danger 2, expired 3. */
  function Severity(s: Status): (n: nat)
    ensures n <= 3
  {
    match s
    case Safe => 0
    case Warning => 1
    case Danger => 2
    case Expired => 3
  }

  /** The status of an item `d` whole days from expiry. */
  function Classify(d: int): Status {
    if d < 0 then Expired
    else if d <= 3 then Danger
    else if d <= 7 then Warning
    else Safe
  }

  /** More days left is never more urgent. */
  lemma ClassifyMonotonic(d1: int, d2: int)
    requires d1 <= d2
    ensures Severity(Classify(d2)) <= Severity(Classify(d1))
  {
  }

  /**
   * `getExpirationStatus`: no date is safe; otherwise the status follows the
   * time left, in milliseconds: expired once a full day has passed, danger
   * up to three days ahead, warning up to seven, safe beyond.
   */
  function GetExpirationStatus(expiry: Option<int>, now: int): (r: Status)
    ensures expiry.None? ==> r == Safe
    ensures expiry.Some? ==> (r == Expired <==> expiry.value <= now - DayMs)
    ensures expiry.Some? ==> (r == Danger <==> now - DayMs < expiry.value <= now + 3 * DayMs)
    ensures expiry.Some? ==> (r == Warning <==> now + 3 * DayMs < expiry.value <= now + 7 * DayMs)
    ensures expiry.Some? ==> (r == Safe <==> now + 7 * DayMs < expiry.value)
  {
    match expiry
    case None => Safe
    case Some(e) =>
      DaysUntilAtMost(e, now, -1);
      DaysUntilAtMost(e, now, 3);
      DaysUntilAtMost(e, now, 7);
      Classify(DaysUntil(e, now))
  }

  /** A later expiry date never gives a more urgent status. */
  lemma StatusMonotonic(e1: int, e2: int, now: int)
    requires e1 <= e2
    ensures Severity(GetExpirationStatus(Some(e2), now)) <= Severity(GetExpirationStatus(Some(e1), now))
  {
    DaysUntilMonotonic(e1, e2, now);
    ClassifyMonotonic(DaysUntil(e1, now), DaysUntil(e2, now));
  }

  /** An item expiring exactly now is zero days away and shown as danger, not expired. */
  lemma ExpiringNowIsDanger(now: int)
    ensures DaysUntil(now, now) == 0
    ensures GetExpirationStatus(Some(now), now) == Danger
  {
  }
}
