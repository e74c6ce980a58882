/**
 * The expiration badge: a status label and a days text for a dated item,
 * or the no-expiration label for an undated one.
 */
module ExpirationBadge {
  import opened Wrappers
  import opened Text
  import opened Expiration
  import opened Translations
  import opened LanguageContext

  /** The translation key of each status's label (`getStatusLabel`). */
  function StatusLabelKey(s: Status): (k: string)
    ensures StartsWith(k, ExpirationKeyPrefix)
  {
    match s
    case Safe => ExpirationKeyPrefix + "ok"
    case Warning => ExpirationKeyPrefix + "expiringSoon"
    case Danger => ExpirationKeyPrefix + "expiresSoon"
    case Expired => ExpirationKeyPrefix + "expired"
  }

  /** Every status has a label in the table, and no two statuses share one key or one English label. */
  lemma StatusLabelsTotalAndInjective()
    ensures forall s :: TableEntry(StatusLabelKey(s)).Some?
    ensures forall s, s' :: s != s' ==> StatusLabelKey(s) != StatusLabelKey(s')
    ensures forall s, s' :: s != s' ==> T(En, StatusLabelKey(s)) != T(En, StatusLabelKey(s'))
  {
    forall s
      ensures TableEntry(StatusLabelKey(s)) == ExpirationEntry(StatusLabelKey(s)[|ExpirationKeyPrefix|..])
    {
      var k := StatusLabelKey(s);
      assert k[..|CategoryKeyPrefix|][0] != CategoryKeyPrefix[0];
      assert k[..|RoleKeyPrefix|][0] != RoleKeyPrefix[0];
    }
    forall s, s' | s != s'
      ensures StatusLabelKey(s) != StatusLabelKey(s')
    {
      assert StatusLabelKey(s)[|ExpirationKeyPrefix|..] != StatusLabelKey(s')[|ExpirationKeyPrefix|..];
    }
  }

  /** What the badge says about the day count (`getDaysText`). */
  datatype DaysText = DaysAgo(n: nat) | Today | Tomorrow | InDays(n: nat)

  /** The days text for a day count `d`: past days as a positive count, then today, tomorrow, or a count. */
  function GetDaysText(d: int): (r: DaysText)
    ensures d < 0 <==> r.DaysAgo?
    ensures d == 0 <==> r.Today?
    ensures d == 1 <==> r.Tomorrow?
    ensures r.DaysAgo? ==> r.n > 0 && r.n == -d
    ensures r.InDays? ==> r.n >= 2 && r.n == d
  {
    if d < 0 then DaysAgo(-d)
    else if d == 0 then Today
    else if d == 1 then Tomorrow
    else InDays(d)
  }

  /** The days text as shown in a language. */
  function DaysTextString(lang: Lang, t: DaysText): string {
    match t
    case DaysAgo(n) => NatToDecimal(n) + " " + T(lang, ExpirationKeyPrefix + "daysAgo")
    case Today => T(lang, ExpirationKeyPrefix + "today")
    case Tomorrow => T(lang, ExpirationKeyPrefix + "tomorrow")
    case InDays(n) => NatToDecimal(n) + " " + T(lang, ExpirationKeyPrefix + "days")
  }

  /** What the badge shows. */
  datatype Badge =
    | Undated(caption: string)
    | Dated(status: Status, days: DaysText, text: string)

  /** The badge for an optional expiry date at time `now`. */
  function Render(lang: Lang, expiry: Option<int>, now: int): (b: Badge)
    ensures expiry.None? <==> b.Undated?
    ensures b.Undated? ==> b.caption == T(lang, ExpirationKeyPrefix + "noExpiration")
    ensures b.Dated? ==> b.status == GetExpirationStatus(expiry, now)
    ensures b.Dated? ==> b.days == GetDaysText(DaysUntil(expiry.value, now))
    ensures b.Dated? ==> b.text == T(lang, StatusLabelKey(b.status)) + " (" + DaysTextString(lang, b.days) + ")"
  {
    match expiry
    case None => Undated(T(lang, ExpirationKeyPrefix + "noExpiration"))
    case Some(e) =>
      var status := GetExpirationStatus(expiry, now);
      var days := GetDaysText(DaysUntil(e, now));
      Dated(status, days, T(lang, StatusLabelKey(status)) + " (" + DaysTextString(lang, days) + ")")
  }

  /**
   * The label and the days text never contradict each other: a past count
   * only with the expired label, today and tomorrow only with the danger
   * label, and a plain count of days only with danger, warning or OK.
   */
  lemma BadgeConsistent(lang: Lang, e: int, now: int)
    ensures var b := Render(lang, Some(e), now);
      && (b.days.DaysAgo? <==> b.status == Expired)
      && (b.days.Today? || b.days.Tomorrow? ==> b.status == Danger)
      && (b.days.InDays? && b.days.n <= 3 ==> b.status == Danger)
      && (b.days.InDays? && 3 < b.days.n <= 7 ==> b.status == Warning)
      && (b.days.InDays? && 7 < b.days.n ==> b.status == Safe)
  {
  }

  /** An item expiring exactly now reads "Expires Soon! (Today)" in English. */
  lemma ExpiringNowBadge(now: int)
    ensures Render(En, Some(now), now).text == "Expires Soon! (Today)"
  {
    ExpiringNowIsDanger(now);
    var k := ExpirationKeyPrefix + "expiresSoon";
    assert k[..|CategoryKeyPrefix|][0] != CategoryKeyPrefix[0];
    assert k[..|RoleKeyPrefix|][0] != RoleKeyPrefix[0];
    assert k[|ExpirationKeyPrefix|..] == "expiresSoon";
    var today := ExpirationKeyPrefix + "today";
    assert today[..|CategoryKeyPrefix|][0] != CategoryKeyPrefix[0];
    assert today[..|RoleKeyPrefix|][0] != RoleKeyPrefix[0];
    assert today[|ExpirationKeyPrefix|..] == "today";
  }
}
