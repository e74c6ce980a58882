/**
 * The photo capture dialog. In single-step mode it takes one picture; in
 * two-step mode it takes the front of a product and then, optionally, its
 * expiration date, moving from the front slot to the expiration slot by
 * itself. Pictures are data URLs; the dialog hands on each picture's
 * base64 payload.
 */
module Camera {
  import opened Wrappers
  import opened Text

  datatype Slot = Front | Expiration

  /**
   * The dialog's state: the pictures held, the slot the next picture goes
   * to, whether the camera runs (`started`, and `streaming` for the media
   * stream itself), the error shown and whether a confirm is under way.
   */
  datatype Capture = Capture(
    front: Option<string>, expiration: Option<string>, captured: Option<string>, slot: Slot,
    started: bool, streaming: bool, error: Option<string>, processing: bool)

  /** The translation keys of the two error texts. */
  const CameraErrorKey: string := "camera.error"
  const ProcessingErrorKey: string := "camera.processingError"

  /** Clearing the dialog: no pictures, front slot, camera not started, no error; the stream is left alone. */
  function ResetState(s: Capture): (r: Capture)
    ensures r.front.None? && r.expiration.None? && r.captured.None?
    ensures r.slot == Front && !r.started && r.error.None? && !r.processing
    ensures r.streaming == s.streaming
  {
    Capture(None, None, None, Front, false, s.streaming, None, false)
  }

  /** Stopping the camera; the pictures stay. */
  function StopCamera(s: Capture): (r: Capture)
    ensures !r.started && !r.streaming
    ensures r == s.(started := false, streaming := false)
  {
    s.(started := false, streaming := false)
  }

  /** Starting the camera; `granted` says whether the browser handed over a stream. */
  function StartCamera(s: Capture, granted: bool): (r: Capture)
    ensures granted ==> r == s.(started := true, streaming := true, error := None)
    ensures !granted ==> r == s.(error := Some(CameraErrorKey))
  {
    if granted then s.(started := true, streaming := true, error := None)
    else s.(error := Some(CameraErrorKey))
  }

  /** Storing a new picture: the front moves on to the expiration slot, the expiration picture ends the session. */
  function Store(s: Capture, twoStep: bool, picture: string, stops: bool): (r: Capture)
    ensures twoStep && s.slot == Front ==> r == s.(front := Some(picture), slot := Expiration)
    ensures twoStep && s.slot == Expiration ==> r == StopCamera(s.(expiration := Some(picture)))
    ensures !twoStep && stops ==> r == StopCamera(s.(captured := Some(picture)))
    ensures !twoStep && !stops ==> r == s.(captured := Some(picture))
  {
    if twoStep then
      if s.slot == Front then s.(front := Some(picture), slot := Expiration)
      else StopCamera(s.(expiration := Some(picture)))
    else if stops then StopCamera(s.(captured := Some(picture)))
    else s.(captured := Some(picture))
  }

  /**
   * Taking a picture from the video; `picture` is the frame as a data URL,
   * or `None` when the video or canvas is not ready. A single-step picture
   * stops the camera.
   */
  function CapturePhoto(s: Capture, twoStep: bool, picture: Option<string>): (r: Capture)
    ensures picture.None? ==> r == s
    ensures picture.Some? ==> r == Store(s, twoStep, picture.value, true)
  {
    match picture
    case None => s
    case Some(p) => Store(s, twoStep, p, true)
  }

  /**
   * Choosing a file instead; `picture` is the file read as a data URL, or
   * `None` when no file was chosen. A single-step upload leaves the camera
   * running.
   */
  function UploadFile(s: Capture, twoStep: bool, picture: Option<string>): (r: Capture)
    ensures picture.None? ==> r == s
    ensures picture.Some? ==> r == Store(s, twoStep, picture.value, false)
  {
    match picture
    case None => s
    case Some(p) => Store(s, twoStep, p, false)
  }

  /** Two pictures in a row in two-step mode fill both slots and stop the camera. */
  lemma TwoStepFillsBothSlots(s: Capture, first: string, second: string)
    requires s.slot == Front
    ensures var r := CapturePhoto(CapturePhoto(s, true, Some(first)), true, Some(second));
      r.front == Some(first) && r.expiration == Some(second) && !r.started && !r.streaming && r.slot == Expiration
  {
  }

  /**
   * Retaking the picture of `slot`: only that picture is cleared, the slot
   * becomes active, and the camera is started if it is not streaming;
   * `granted` is the browser's answer then.
   */
  function RetakeSlot(s: Capture, slot: Slot, granted: bool): (r: Capture)
    ensures r.slot == slot && r.captured == s.captured
    ensures slot == Front ==> r.front.None? && r.expiration == s.expiration
    ensures slot == Expiration ==> r.expiration.None? && r.front == s.front
    ensures s.streaming ==> r.streaming && r.started == s.started && r.error == s.error
  {
    var cleared := if slot == Front then s.(front := None, slot := slot) else s.(expiration := None, slot := slot);
    if s.streaming then cleared else StartCamera(cleared, granted)
  }

  /** Skipping the expiration picture stops the camera and keeps the pictures. */
  function SkipExpiration(s: Capture): (r: Capture)
    ensures !r.started && !r.streaming
    ensures r.front == s.front && r.expiration == s.expiration && r.captured == s.captured && r.slot == s.slot
  {
    StopCamera(s)
  }

  /** A picture is held for the mode: the front in two-step mode, the single one otherwise. */
  predicate CanSubmit(s: Capture, twoStep: bool) {
    if twoStep then Truthy(s.front) else Truthy(s.captured)
  }

  /** A data URL's payload: JavaScript's `url.split(",")[1]`, absent when there is no comma. */
  function Payload(url: string): (r: Option<string>)
    ensures r.Some? <==> ',' in url
    ensures r.Some? ==> ',' !in r.value
  {
    var parts := Split(url, ',');
    if |parts| > 1 then Some(parts[1])
    else
      JoinSplit(url, ',');
      assert url == parts[0];
      None
  }

  /** For a data URL `<header>,<payload>` whose header and payload hold no comma, the payload is handed on. */
  lemma PayloadOfDataUrl(header: string, payload: string)
    requires ',' !in header && ',' !in payload
    ensures Payload(header + "," + payload) == Some(payload)
  {
    SplitJoin([header, payload], ',');
    assert Join([header, payload], ',') == header + "," + payload;
  }

  /** What the dialog hands to the page: the front (or single) payload, and the expiration payload if any. */
  datatype Handoff = Handoff(payload: Option<string>, expirationPayload: Option<string>)

  /** A confirm's result: the new state, what was handed on, and whether the dialog closes. */
  datatype Confirmed = Confirmed(state: Capture, handoff: Option<Handoff>, closes: bool)

  /**
   * Confirming. `prepared` says whether reading the pictures back into
   * files resolved, `handled` whether the page's handler then resolved.
   * Without a picture nothing is handed on. The payloads are handed on only
   * once the files are prepared; when both steps resolve the dialog is
   * cleared and closed, otherwise it shows an error and keeps the pictures.
   */
  function Confirm(s: Capture, twoStep: bool, prepared: bool, handled: bool): (r: Confirmed)
    ensures !CanSubmit(s, twoStep) ==> r == Confirmed(s.(processing := false), None, false)
    ensures CanSubmit(s, twoStep) && !prepared ==> r.handoff.None?
    ensures CanSubmit(s, twoStep) && prepared && twoStep ==>
      r.handoff == Some(Handoff(Payload(s.front.value), if Truthy(s.expiration) then Payload(s.expiration.value) else None))
    ensures CanSubmit(s, twoStep) && prepared && !twoStep ==> r.handoff == Some(Handoff(Payload(s.captured.value), None))
    ensures CanSubmit(s, twoStep) && prepared && handled ==> r.state == ResetState(s) && r.closes
    ensures CanSubmit(s, twoStep) && !(prepared && handled) ==>
      r.state == s.(error := Some(ProcessingErrorKey), processing := false) && !r.closes
  {
    if !CanSubmit(s, twoStep) then Confirmed(s.(processing := false), None, false)
    else if !prepared then Confirmed(s.(error := Some(ProcessingErrorKey), processing := false), None, false)
    else
      var handoff := if twoStep
        then Handoff(Payload(s.front.value), if Truthy(s.expiration) then Payload(s.expiration.value) else None)
        else Handoff(Payload(s.captured.value), None);
      if handled then Confirmed(ResetState(s), Some(handoff), true)
      else Confirmed(s.(error := Some(ProcessingErrorKey), processing := false), Some(handoff), false)
  }

  /** Closing the dialog stops the camera and clears everything. */
  function Close(s: Capture): (r: Capture)
    ensures r.front.None? && r.expiration.None? && r.captured.None? && r.slot == Front
    ensures !r.started && !r.streaming && r.error.None? && !r.processing
  {
    ResetState(StopCamera(s))
  }

  /**
   * The dialog opening or closing: an opened dialog with no picture and
   * no stream starts the camera (`granted` is the browser's answer); a
   * closed one stops the stream and clears everything.
   */
  function SetOpen(s: Capture, open: bool, granted: bool): (r: Capture)
    ensures !open ==> r == Close(s)
    ensures open && !s.streaming && !Truthy(s.front) && !Truthy(s.captured) ==> r == StartCamera(s, granted)
    ensures open && (s.streaming || Truthy(s.front) || Truthy(s.captured)) ==> r == s
  {
    if !open then Close(s)
    else if !s.streaming && !Truthy(s.front) && !Truthy(s.captured) then StartCamera(s, granted)
    else s
  }

  /** After closing, the dialog offers nothing to confirm in either mode. */
  lemma ClosedCannotSubmit(s: Capture, twoStep: bool)
    ensures !CanSubmit(Close(s), twoStep)
    ensures Confirm(Close(s), twoStep, true, true).handoff.None?
  {
  }
}
