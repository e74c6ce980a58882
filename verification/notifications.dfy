/**
 * The in-page notification hook: the user's notification settings, kept
 * in local storage across reloads, the browser's notification permission,
 * and the expiration alerts the page raises while it is open.
 */
module Notifications {
  import opened Wrappers
  import opened Text
  import ThresholdJob

  /** What the user chose on the settings page. */
  datatype Settings = Settings(enabled: bool, expirationAlerts: bool, daysBeforeExpiration: int)

  /** Settings of a user who never chose: notifications off, alerts on, a week ahead. */
  const DefaultSettings: Settings := Settings(false, true, 7)

  /** A partial settings object: each field is either supplied or left out. */
  datatype SettingsPatch = SettingsPatch(enabled: Option<bool>, expirationAlerts: Option<bool>, daysBeforeExpiration: Option<int>)

  /** The browser's answer on notifications. */
  datatype Permission = Default | Granted | Denied

  /**
   * What local storage holds under the settings key: nothing, text that
   * does not parse, or settings this hook stored.
   */
  datatype Saved = Nothing | Unreadable | Stored(settings: Settings)

  /** The hook's state together with the storage entry it keeps in step. */
  datatype Hook = Hook(settings: Settings, permission: Permission, supported: bool, saved: Saved)

  /** Settings with the supplied fields of `p` laid over `s`. */
  function Merge(s: Settings, p: SettingsPatch): (r: Settings)
    ensures p.enabled.Some? ==> r.enabled == p.enabled.value
    ensures p.enabled.None? ==> r.enabled == s.enabled
    ensures p.expirationAlerts.Some? ==> r.expirationAlerts == p.expirationAlerts.value
    ensures p.expirationAlerts.None? ==> r.expirationAlerts == s.expirationAlerts
    ensures p.daysBeforeExpiration.Some? ==> r.daysBeforeExpiration == p.daysBeforeExpiration.value
    ensures p.daysBeforeExpiration.None? ==> r.daysBeforeExpiration == s.daysBeforeExpiration
  {
    Settings(p.enabled.GetOr(s.enabled), p.expirationAlerts.GetOr(s.expirationAlerts),
             p.daysBeforeExpiration.GetOr(s.daysBeforeExpiration))
  }

  /** The patch that supplies what `q` supplies and otherwise what `p` supplies. */
  function Then(p: SettingsPatch, q: SettingsPatch): SettingsPatch {
    SettingsPatch(if q.enabled.Some? then q.enabled else p.enabled,
                  if q.expirationAlerts.Some? then q.expirationAlerts else p.expirationAlerts,
                  if q.daysBeforeExpiration.Some? then q.daysBeforeExpiration else p.daysBeforeExpiration)
  }

  /** Applying a patch twice is applying it once. */
  lemma MergeIdempotent(s: Settings, p: SettingsPatch)
    ensures Merge(Merge(s, p), p) == Merge(s, p)
  {
  }

  /** Two updates in a row are one update with the later values winning. */
  lemma MergeThen(s: Settings, p: SettingsPatch, q: SettingsPatch)
    ensures Merge(Merge(s, p), q) == Merge(s, Then(p, q))
  {
  }

  /** A patch that supplies every field replaces the settings outright. */
  lemma FullPatchReplaces(s: Settings, t: Settings)
    ensures Merge(s, SettingsPatch(Some(t.enabled), Some(t.expirationAlerts), Some(t.daysBeforeExpiration))) == t
  {
  }

  /** The settings a page load starts from: stored ones when readable, else the defaults. */
  function Load(saved: Saved): (r: Settings)
    ensures saved.Stored? ==> r == saved.settings
    ensures !saved.Stored? ==> r == DefaultSettings
  {
    match saved
    case Stored(s) => s
    case _ => DefaultSettings
  }

  /**
   * The hook after mounting in a browser that `supported` says has
   * notifications, whose current permission is `browser`, with `saved` in
   * storage.
   */
  function Mount(supported: bool, browser: Permission, saved: Saved): (h: Hook)
    ensures h.supported == supported && h.saved == saved && h.settings == Load(saved)
    ensures h.permission == if supported then browser else Default
  {
    Hook(Load(saved), if supported then browser else Default, supported, saved)
  }

  /** Updating settings: merge the patch and store the result. */
  function UpdateSettings(h: Hook, p: SettingsPatch): (r: Hook)
    ensures r.settings == Merge(h.settings, p) && r.saved == Stored(r.settings)
    ensures r.permission == h.permission && r.supported == h.supported
  {
    var s := Merge(h.settings, p);
    h.(settings := s, saved := Stored(s))
  }

  /** Updated settings survive a reload. */
  lemma UpdateSurvivesReload(h: Hook, p: SettingsPatch, supported: bool, browser: Permission)
    ensures Mount(supported, browser, UpdateSettings(h, p).saved).settings == UpdateSettings(h, p).settings
  {
  }

  /** What a request and the hook's state answer together. */
  datatype Answer = Answer(hook: Hook, ok: bool)

  /**
   * Asking the browser for permission; `answer` is the user's choice, or
   * `None` when the request throws.
   */
  function RequestPermission(h: Hook, answer: Option<Permission>): (r: Answer)
    ensures r.ok <==> h.supported && answer == Some(Granted)
    ensures r.hook.settings == h.settings && r.hook.saved == h.saved && r.hook.supported == h.supported
    ensures r.hook.permission == if h.supported && answer.Some? then answer.value else h.permission
  {
    if !h.supported then Answer(h, false)
    else
      match answer
      case None => Answer(h, false)
      case Some(p) => Answer(h.(permission := p), p == Granted)
  }

  /**
   * Turning notifications on: asks for permission unless it is already
   * granted, and switches the setting on only when permission is granted.
   */
  function EnableNotifications(h: Hook, answer: Option<Permission>): (r: Answer)
    ensures r.ok <==> h.supported && (h.permission == Granted || answer == Some(Granted))
    ensures r.ok ==> r.hook.settings == h.settings.(enabled := true) && r.hook.saved == Stored(r.hook.settings)
    ensures r.ok ==> r.hook.permission == Granted
    ensures !r.ok ==> r.hook.settings == h.settings && r.hook.saved == h.saved
  {
    if !h.supported then Answer(h, false)
    else
      var asked := if h.permission != Granted then RequestPermission(h, answer) else Answer(h, true);
      if !asked.ok then asked
      else Answer(UpdateSettings(asked.hook, SettingsPatch(Some(true), None, None)), true)
  }

  /** Turning notifications off changes the enabled flag and nothing else. */
  function DisableNotifications(h: Hook): (r: Hook)
    ensures r.settings == h.settings.(enabled := false) && r.saved == Stored(r.settings)
    ensures r.permission == h.permission && r.supported == h.supported
  {
    UpdateSettings(h, SettingsPatch(Some(false), None, None))
  }

  /** Turning notifications off after turning them on leaves them as they were before, but stored. */
  lemma EnableThenDisable(h: Hook, answer: Option<Permission>)
    requires !h.settings.enabled
    ensures DisableNotifications(EnableNotifications(h, answer).hook).settings == h.settings
  {
  }

  const DefaultIcon: string := "/icons/icon-192.png"

  /** The options a caller may pass with a notification; absent ones take the hook's defaults. */
  datatype Options = Options(icon: Option<string>, badge: Option<string>, body: Option<string>, tag: Option<string>, requireInteraction: Option<bool>)

  /** A notification the browser shows. */
  datatype Shown = Shown(title: string, icon: string, badge: string, body: Option<string>, tag: Option<string>, requireInteraction: Option<bool>)

  /** The hook may show notifications. */
  predicate MayNotify(h: Hook) {
    h.supported && h.permission == Granted && h.settings.enabled
  }

  /**
   * Showing a notification; `constructs` says whether the browser's
   * constructor succeeds. Nothing is shown unless notifications are
   * supported, permitted and enabled.
   */
  function SendNotification(h: Hook, title: string, options: Options, constructs: bool): (r: Option<Shown>)
    ensures r.Some? <==> MayNotify(h) && constructs
    ensures r.Some? ==> r.value.title == title && r.value.body == options.body && r.value.tag == options.tag
    ensures r.Some? ==> r.value.requireInteraction == options.requireInteraction
    ensures r.Some? ==> (options.icon.None? ==> r.value.icon == DefaultIcon) && (options.badge.None? ==> r.value.badge == DefaultIcon)
    ensures r.Some? ==> (options.icon.Some? ==> r.value.icon == options.icon.value) && (options.badge.Some? ==> r.value.badge == options.badge.value)
  {
    if !h.supported || h.permission != Granted || !h.settings.enabled then None
    else if !constructs then None
    else Some(Shown(title, options.icon.GetOr(DefaultIcon), options.badge.GetOr(DefaultIcon),
                    options.body, options.tag, options.requireInteraction))
  }

  const AlertTagPrefix: string := "expiration-"

  /** The tag of an alert, one per item name so a newer alert replaces an older one. */
  function AlertTag(itemName: string): (r: string)
    ensures StartsWith(r, AlertTagPrefix) && r[|AlertTagPrefix|..] == itemName
  {
    AlertTagPrefix + itemName
  }

  /** Alerts for different item names carry different tags. */
  lemma AlertTagInjective(a: string, b: string)
    requires AlertTag(a) == AlertTag(b)
    ensures a == b
  {
    assert a == AlertTag(a)[|AlertTagPrefix|..];
  }

  /**
   * The alert for an item `days` days from expiry. It is worded like the
   * server's threshold alerts and asks for interaction from one day out.
   */
  function SendExpirationAlert(h: Hook, itemName: string, days: int, constructs: bool): (r: Option<Shown>)
    ensures r.Some? <==> h.settings.expirationAlerts && MayNotify(h) && constructs
    ensures r.Some? ==> && r.value.title == ThresholdJob.AlertTitle
                        && r.value.body == Some(ThresholdJob.Body(itemName, days))
                        && r.value.tag == Some(AlertTag(itemName))
                        && r.value.requireInteraction == Some(days <= 1)
                        && r.value.icon == DefaultIcon && r.value.badge == DefaultIcon
  {
    if !h.settings.expirationAlerts then None
    else
      var body := if days <= 0 then itemName + " has expired!"
        else if days == 1 then itemName + " expires tomorrow!"
        else itemName + " expires in " + IntToDecimal(days) + " days";
      SendNotification(h, "Expiration Alert", Options(None, None, Some(body), Some(AlertTag(itemName)), Some(days <= 1)), constructs)
  }

  /**
   * Two alerts shown for one item with the same text are for the same
   * day-count, or both for an item already expired.
   */
  lemma AlertsTellDaysApart(h: Hook, itemName: string, d1: int, d2: int)
    requires SendExpirationAlert(h, itemName, d1, true).Some?
    requires SendExpirationAlert(h, itemName, d1, true) == SendExpirationAlert(h, itemName, d2, true)
    ensures d1 == d2 || (d1 <= 0 && d2 <= 0)
  {
    ThresholdJob.BodyInjective(itemName, d1, d2);
  }
}
