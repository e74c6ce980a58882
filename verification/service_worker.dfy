/**
 * The push service worker: it turns a push message into a system
 * notification branded with the app's name, and a click on one into a
 * navigation of an open app window or a new window.
 */
module PushWorker {
  import opened Wrappers
  import opened Text
  import Delivery

  const AppName: string := "Prepper"
  const TitlePrefix: string := "Prepper: "
  const WorkerIcon: string := "/icon.png"
  const DefaultUrl: string := "/"
  const DefaultTag: string := "default"

  /** The vibration pattern of every notification, in milliseconds. */
  const Vibration: seq<nat> := [200, 100, 200]

  /** A button on a notification. */
  datatype Action = Action(action: string, title: string)

  /** The fields of a push message's JSON; any of them may be missing. */
  datatype PushData = PushData(
    title: Option<string>, body: Option<string>, url: Option<string>,
    actions: Option<seq<Action>>, tag: Option<string>, requireInteraction: Option<bool>)

  /** A notification as the worker shows it. */
  datatype Shown = Shown(
    title: string, body: Option<string>, icon: string, badge: string, vibrate: seq<nat>,
    url: string, actions: seq<Action>, tag: string, requireInteraction: bool, silent: bool)

  /** The title shown: the message's own when it already names the app, else prefixed with the app's name. */
  function DisplayTitle(title: string): (r: string)
    ensures StartsWith(r, AppName)
    ensures |title| <= |r| && r[|r| - |title|..] == title
    ensures StartsWith(title, AppName) <==> r == title
  {
    if StartsWith(title, AppName) then title
    else
      assert (TitlePrefix + title)[..|AppName|] == AppName;
      TitlePrefix + title
  }

  /** Branding twice is branding once. */
  lemma DisplayTitleIdempotent(title: string)
    ensures DisplayTitle(DisplayTitle(title)) == DisplayTitle(title)
  {
  }

  /** JavaScript's `s || d` on an optional string. */
  function OrDefault(s: Option<string>, d: string): (r: string)
    ensures Truthy(s) ==> r == s.value
    ensures !Truthy(s) ==> r == d
  {
    if Truthy(s) then s.value else d
  }

  /**
   * Handling a push event whose payload is `data` (`None` when the event
   * carries none). A message without a title makes the handler fail, so
   * nothing is shown then either.
   */
  function OnPush(data: Option<PushData>): (r: Option<Shown>)
    ensures r.Some? <==> data.Some? && data.value.title.Some?
    ensures r.Some? ==>
      && r.value.title == DisplayTitle(data.value.title.value)
      && r.value.body == data.value.body
      && (Truthy(data.value.url) ==> r.value.url == data.value.url.value)
      && (!Truthy(data.value.url) ==> r.value.url == DefaultUrl)
      && (Truthy(data.value.tag) ==> r.value.tag == data.value.tag.value)
      && (!Truthy(data.value.tag) ==> r.value.tag == DefaultTag)
      && r.value.actions == data.value.actions.GetOr([])
      && (r.value.requireInteraction <==> data.value.requireInteraction == Some(true))
      && !r.value.silent
  {
    match data
    case None => None
    case Some(d) =>
      match d.title
      case None => None
      case Some(t) =>
        Some(Shown(DisplayTitle(t), d.body, WorkerIcon, WorkerIcon, Vibration, OrDefault(d.url, DefaultUrl),
                   d.actions.GetOr([]), OrDefault(d.tag, DefaultTag), d.requireInteraction.GetOr(false), false))
  }

  /** The JSON the server sends for a payload. */
  function Message(p: Delivery.Payload): PushData {
    PushData(Some(p.title), Some(p.body), Some(p.url), None, Some(p.tag), p.requireInteraction)
  }

  /**
   * Every payload the server sends is shown: branded, with its own body,
   * and with its url and tag unless those are empty.
   */
  lemma ServerPayloadShown(p: Delivery.Payload)
    ensures OnPush(Some(Message(p))).Some?
    ensures var s := OnPush(Some(Message(p))).value;
      && s.title == DisplayTitle(p.title) && s.body == Some(p.body)
      && s.url == (if p.url == "" then DefaultUrl else p.url)
      && s.tag == (if p.tag == "" then DefaultTag else p.tag)
      && (s.requireInteraction <==> p.requireInteraction == Some(true))
  {
  }

  /** A client window: its url and whether it can take focus. */
  datatype Window = Window(url: string, focusable: bool)

  /** What a click does: navigate the open window at `index`, open a new one, or nothing. */
  datatype ClickEffect = Navigate(index: nat, url: string) | OpenWindow(url: string) | NoEffect

  /** The window belongs to the app: its url contains the worker's origin and it can take focus. */
  predicate AppWindow(w: Window, origin: string) {
    w.focusable && exists i :: 0 <= i <= |w.url| && OccursAt(w.url, origin, i)
  }

  /** The index of the first app window, if any. */
  function FirstAppWindow(windows: seq<Window>, origin: string): (r: Option<nat>)
    ensures r.Some? ==> r.value < |windows| && AppWindow(windows[r.value], origin)
    ensures r.Some? ==> forall k :: 0 <= k < r.value ==> !AppWindow(windows[k], origin)
    ensures r.None? ==> forall k :: 0 <= k < |windows| ==> !AppWindow(windows[k], origin)
  {
    if |windows| == 0 then None
    else if AppWindow(windows[0], origin) then Some(0)
    else
      match FirstAppWindow(windows[1..], origin)
      case None => None
      case Some(k) => Some(k + 1)
  }

  /** The url a click leads to: the notification's own, or the app's root. */
  function ClickUrl(url: Option<string>): (r: string)
    ensures r != ""
    ensures Truthy(url) ==> r == url.value
  {
    OrDefault(url, DefaultUrl)
  }

  /**
   * A click on a notification carrying `url`: the first open app window is
   * navigated there and focused; failing that a new window opens when the
   * platform can open one.
   */
  function OnClick(url: Option<string>, windows: seq<Window>, origin: string, canOpen: bool): (r: ClickEffect)
    ensures r.Navigate? ==> r.index < |windows| && AppWindow(windows[r.index], origin)
    ensures r.Navigate? ==> forall k :: 0 <= k < r.index ==> !AppWindow(windows[k], origin)
    ensures r.Navigate? <==> exists k :: 0 <= k < |windows| && AppWindow(windows[k], origin)
    ensures r.OpenWindow? <==> canOpen && forall k :: 0 <= k < |windows| ==> !AppWindow(windows[k], origin)
    ensures !r.NoEffect? ==> r.url == ClickUrl(url)
  {
    match FirstAppWindow(windows, origin)
    case Some(k) => Navigate(k, ClickUrl(url))
    case None => if canOpen then OpenWindow(ClickUrl(url)) else NoEffect
  }

  /** Clicking a shown notification leads to its url, which is never empty. */
  lemma ClickFollowsShownUrl(data: PushData, windows: seq<Window>, origin: string, canOpen: bool)
    requires OnPush(Some(data)).Some?
    ensures var e := OnClick(Some(OnPush(Some(data)).value.url), windows, origin, canOpen);
      !e.NoEffect? ==> e.url == OnPush(Some(data)).value.url && e.url != ""
  {
  }
}
