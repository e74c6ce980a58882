/**
 * The browser side of push subscriptions: the hook's state through
 * checking, subscribing and unsubscribing, and the two conversions it
 * needs, from the server's base64url public key to bytes and from a
 * subscription key's bytes to base64.
 */
module PushClient {
  import opened Wrappers

  /** A value of a `Uint8Array` cell. */
  type Byte = b: int | 0 <= b < 256

  // ---------------------------------------------------------------------
  // Key conversions
  // ---------------------------------------------------------------------

  /** The `=` characters that bring a base64url string's length to a multiple of four. */
  function Padding(s: string): (pad: string)
    ensures |pad| < 4 && (|s| + |pad|) % 4 == 0
    ensures forall k :: 0 <= k < |pad| ==> pad[k] == '='
  {
    var n := (4 - |s| % 4) % 4;
    seq(n, _ => '=')
  }

  /** A padded string needs no more padding. */
  lemma PaddingSettles(s: string)
    ensures Padding(s + Padding(s)) == ""
  {
  }

  /** A base64url character in the standard alphabet: `-` becomes `+` and `_` becomes `/`. */
  function StandardChar(c: char): char {
    if c == '-' then '+' else if c == '_' then '/' else c
  }

  /** A standard-alphabet character in the url-safe alphabet. */
  function UrlSafeChar(c: char): char {
    if c == '+' then '-' else if c == '/' then '_' else c
  }

  /** The string in the standard base64 alphabet. */
  function ToStandard(s: string): (r: string)
    ensures |r| == |s|
    ensures forall k :: 0 <= k < |r| ==> r[k] != '-' && r[k] != '_'
    ensures forall k :: 0 <= k < |r| ==> r[k] == s[k] || (s[k] == '-' && r[k] == '+') || (s[k] == '_' && r[k] == '/')
  {
    seq(|s|, k requires 0 <= k < |s| => StandardChar(s[k]))
  }

  /** The string in the url-safe base64 alphabet. */
  function ToUrlSafe(s: string): (r: string)
    ensures |r| == |s|
    ensures forall k :: 0 <= k < |r| ==> r[k] != '+' && r[k] != '/'
  {
    seq(|s|, k requires 0 <= k < |s| => UrlSafeChar(s[k]))
  }

  /** The string uses the url-safe alphabet only: it holds neither `+` nor `/`. */
  predicate UrlSafe(s: string) {
    forall k :: 0 <= k < |s| ==> s[k] != '+' && s[k] != '/'
  }

  /** Switching a url-safe string to the standard alphabet and back gives it back. */
  lemma AlphabetRoundTrip(s: string)
    requires UrlSafe(s)
    ensures ToUrlSafe(ToStandard(s)) == s
  {
    var r := ToUrlSafe(ToStandard(s));
    forall k | 0 <= k < |s|
      ensures r[k] == s[k]
    {
      assert s[k] != '+' && s[k] != '/';
    }
  }

  /** The text `atob` decodes for a base64url key: padded, then in the standard alphabet. */
  function AtobInput(key: string): (r: string)
    ensures |r| % 4 == 0 && |key| <= |r| < |key| + 4
    ensures forall k :: 0 <= k < |r| ==> r[k] != '-' && r[k] != '_'
  {
    ToStandard(key + Padding(key))
  }

  /** A `Uint8Array` cell stores a number modulo 256. */
  function ToUint8(n: nat): (b: Byte)
    ensures n < 256 ==> b == n
  {
    n % 256
  }

  /**
   * The bytes of the decoded key text: one per character, its character
   * code taken modulo 256.
   */
  method CharCodes(raw: string) returns (out: seq<Byte>)
    ensures |out| == |raw|
    ensures forall i :: 0 <= i < |raw| ==> out[i] == (raw[i] as int) % 256
  {
    out := [];
    var i := 0;
    while i < |raw|
      invariant 0 <= i <= |raw| && |out| == i
      invariant forall k :: 0 <= k < i ==> out[k] == (raw[k] as int) % 256
    {
      out := out + [ToUint8(raw[i] as int)];
      i := i + 1;
    }
  }

  /** `binary` holds one character per byte of `bytes`, whose code is that byte. */
  predicate Spells(binary: string, bytes: seq<Byte>) {
    |binary| == |bytes| && forall i :: 0 <= i < |bytes| ==> binary[i] as int == bytes[i]
  }

  /** The binary string of a key's bytes: one character per byte, of that code. */
  method BinaryString(bytes: seq<Byte>) returns (binary: string)
    ensures Spells(binary, bytes)
  {
    binary := "";
    var i := 0;
    while i < |bytes|
      invariant 0 <= i <= |bytes| && |binary| == i
      invariant forall k :: 0 <= k < i ==> binary[k] as int == bytes[k]
    {
      binary := binary + [bytes[i] as char];
      i := i + 1;
    }
  }

  /**
   * The base64 text of a subscription key: empty when the browser has no
   * such key, else `btoa` of the binary string.
   */
  method KeyToBase64(buffer: Option<seq<Byte>>, btoa: string -> string) returns (r: string)
    ensures buffer.None? ==> r == ""
    ensures buffer.Some? ==> exists binary :: Spells(binary, buffer.value) && r == btoa(binary)
  {
    match buffer
    case None => r := "";
    case Some(bytes) =>
      var binary := BinaryString(bytes);
      r := btoa(binary);
  }

  /** Bytes turned into a binary string and read back are the same bytes. */
  method BytesRoundTrip(bytes: seq<Byte>) returns (back: seq<Byte>)
    ensures back == bytes
  {
    var binary := BinaryString(bytes);
    back := CharCodes(binary);
  }

  // ---------------------------------------------------------------------
  // Subscription state
  // ---------------------------------------------------------------------

  datatype Permission = Default | Granted | Denied

  /** What the settings page shows about push. */
  datatype PushState = PushState(supported: bool, subscribed: bool, loading: bool, permission: Permission, error: Option<string>)

  /** The state before the first check. */
  const Initial: PushState := PushState(false, false, true, Default, None)

  const StatusFailedMessage: string := "Failed to check notification status"
  const PermissionDeniedMessage: string := "Notification permission denied"
  const SubscribeFailedMessage: string := "Failed to subscribe"
  const UnsubscribeFailedMessage: string := "Failed to unsubscribe"
  const TestFailedMessage: string := "Failed to send test notification"

  /** A step that threw: the `Error`'s message, or `None` for a thrown non-`Error` value. */
  datatype Thrown = Thrown(message: Option<string>)

  /** A state and the boolean an action resolves to. */
  datatype Outcome = Outcome(state: PushState, ok: bool)

  /**
   * The check on mount. `supported` says whether the browser has service
   * workers, push and notifications; `status` is the current permission
   * and whether a subscription exists, or `Err` when looking it up threw.
   */
  function CheckSupport(s: PushState, supported: bool, status: Result<(Permission, bool), Thrown>): (r: PushState)
    ensures !r.loading && r.supported == supported
    ensures !supported ==> r == s.(supported := false, loading := false)
    ensures supported && status.Ok? ==> r.subscribed == status.value.1 && r.permission == status.value.0 && r.error == None
    ensures supported && status.Err? ==> r.subscribed == s.subscribed && r.error == Some(StatusFailedMessage)
  {
    if !supported then s.(supported := false, loading := false)
    else
      match status
      case Ok((p, subscribed)) => PushState(true, subscribed, false, p, None)
      case Err(_) => s.(supported := true, loading := false, error := Some(StatusFailedMessage))
  }

  /**
   * Subscribing: `answer` is the permission the user gives (or what the
   * request threw); `rest` is what registering the worker, fetching the
   * server's key, subscribing and saving the subscription threw, if
   * anything.
   */
  function Subscribe(s: PushState, answer: Result<Permission, Thrown>, rest: Option<Thrown>): (r: Outcome)
    ensures r.ok <==> answer == Ok(Granted) && rest.None?
    ensures r.ok ==> r.state == PushState(true, true, false, Granted, None)
    ensures !r.ok ==> && r.state.subscribed == s.subscribed && r.state.supported == s.supported
                      && !r.state.loading && r.state.error.Some?
    ensures answer.Ok? && answer.value != Granted ==>
      r.state.permission == answer.value && r.state.error == Some(PermissionDeniedMessage)
  {
    var busy := s.(loading := true, error := None);
    match answer
    case Err(t) => Outcome(busy.(loading := false, error := Some(t.message.GetOr(SubscribeFailedMessage))), false)
    case Ok(p) =>
      if p != Granted then
        Outcome(busy.(loading := false, permission := p, error := Some(PermissionDeniedMessage)), false)
      else
        match rest
        case Some(t) => Outcome(busy.(loading := false, error := Some(t.message.GetOr(SubscribeFailedMessage))), false)
        case None => Outcome(PushState(true, true, false, Granted, None), true)
  }

  /**
   * Unsubscribing: `failure` is what dropping the subscription or telling
   * the server threw, if anything.
   */
  function Unsubscribe(s: PushState, failure: Option<Thrown>): (r: Outcome)
    ensures r.ok <==> failure.None?
    ensures r.ok ==> r.state == s.(subscribed := false, loading := false, error := None)
    ensures !r.ok ==> r.state.subscribed == s.subscribed && !r.state.loading && r.state.error.Some?
    ensures r.state.permission == s.permission && r.state.supported == s.supported
  {
    var busy := s.(loading := true, error := None);
    match failure
    case None => Outcome(busy.(subscribed := false, loading := false, error := None), true)
    case Some(t) => Outcome(busy.(loading := false, error := Some(t.message.GetOr(UnsubscribeFailedMessage))), false)
  }

  /** A test send: `failure` carries the server's error text, if it refused. */
  function SendTestNotification(s: PushState, failure: Option<Thrown>): (r: Outcome)
    ensures r.ok <==> failure.None?
    ensures r.ok ==> r.state == s
    ensures !r.ok ==> r.state == s.(error := Some(failure.value.message.GetOr(TestFailedMessage)))
  {
    match failure
    case None => Outcome(s, true)
    case Some(t) => Outcome(s.(error := Some(t.message.GetOr(TestFailedMessage))), false)
  }

  /** A refused permission never subscribes and never unsubscribes. */
  lemma RefusalKeepsSubscription(s: PushState, p: Permission, rest: Option<Thrown>)
    requires p != Granted
    ensures !Subscribe(s, Ok(p), rest).ok && Subscribe(s, Ok(p), rest).state.subscribed == s.subscribed
  {
  }

  /** Unsubscribing after a successful subscribe leaves no subscription and no error. */
  lemma SubscribeThenUnsubscribe(s: PushState)
    ensures var after := Unsubscribe(Subscribe(s, Ok(Granted), None).state, None);
      after.ok && !after.state.subscribed && after.state.error.None? && after.state.permission == Granted
  {
  }
}
