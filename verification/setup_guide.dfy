/**
 * The first-run setup guide: a short checklist of account, app install
 * (only where the platform supports installing) and push notifications,
 * which the user can dismiss and bring back.
 */
module SetupGuide {
  import opened Wrappers
  import opened Collections

  datatype StepId = Account | Install | Notifications

  /** One line of the guide. */
  datatype Step = Step(id: StepId, complete: bool, loading: bool)

  /** What the guide is built from: the platform's install status and the push subscription status. */
  datatype Status = Status(pwaSupported: bool, installed: bool, pwaLoading: bool, subscribed: bool, notificationsLoading: bool)

  /** The guide's steps: account, then install where supported, then notifications. */
  function Steps(st: Status): (r: seq<Step>)
    ensures |r| == if st.pwaSupported then 3 else 2
    ensures r[0] == Step(Account, true, false)
    ensures r[|r| - 1] == Step(Notifications, st.subscribed, st.notificationsLoading)
    ensures st.pwaSupported ==> r[1] == Step(Install, st.installed, st.pwaLoading)
    ensures (exists k :: 0 <= k < |r| && r[k].id == Install) <==> st.pwaSupported
  {
    [Step(Account, true, false)]
      + (if st.pwaSupported then [Step(Install, st.installed, st.pwaLoading)] else [])
      + [Step(Notifications, st.subscribed, st.notificationsLoading)]
  }

  function IsComplete(s: Step): bool {
    s.complete
  }

  /** The guide's summary. */
  datatype Summary = Summary(completedCount: nat, totalCount: nat, isComplete: bool, showInstallStep: bool)

  /** Counting the completed steps; the guide is complete when all are. */
  function Summarize(st: Status): (r: Summary)
    ensures r.totalCount == |Steps(st)| && (r.totalCount == 2 || r.totalCount == 3)
    ensures 1 <= r.completedCount <= r.totalCount
    ensures r.isComplete <==> forall k :: 0 <= k < |Steps(st)| ==> Steps(st)[k].complete
    ensures r.isComplete <==> st.subscribed && (st.pwaSupported ==> st.installed)
    ensures r.showInstallStep <==> st.pwaSupported && !st.installed
  {
    var steps := Steps(st);
    var done := Count(steps, IsComplete);
    CountAll(steps);
    Summary(done, |steps|, done == |steps|, st.pwaSupported && !st.installed)
  }

  /** All steps count as complete exactly when each is. */
  lemma {:induction false} CountAll(steps: seq<Step>)
    requires |steps| > 0 && steps[0].complete
    ensures 1 <= Count(steps, IsComplete)
    ensures Count(steps, IsComplete) == |steps| <==> forall k :: 0 <= k < |steps| ==> steps[k].complete
  {
    CountAllFrom(steps);
    assert Count(steps, IsComplete) == 1 + Count(steps[1..], IsComplete);
  }

  lemma {:induction false} CountAllFrom(steps: seq<Step>)
    ensures Count(steps, IsComplete) == |steps| <==> forall k :: 0 <= k < |steps| ==> steps[k].complete
  {
    if |steps| > 0 {
      CountAllFrom(steps[1..]);
      assert forall k :: 0 < k < |steps| ==> steps[k] == steps[1..][k - 1];
    }
  }

  /** The guide's loading flag: the dismissal state is not read yet, or either status is loading. */
  function Loading(initialized: bool, st: Status): (r: bool)
    ensures !r <==> initialized && !st.pwaLoading && !st.notificationsLoading
  {
    !initialized || st.pwaLoading || st.notificationsLoading
  }

  /** The dismissal flag and the storage entry that remembers it (`Some("true")` once dismissed). */
  datatype Dismissal = Dismissal(dismissed: bool, initialized: bool, stored: Option<string>)

  const DismissedValue: string := "true"

  /** Before storage is read the guide counts as dismissed, so it does not flash up. */
  function Initial(stored: Option<string>): (d: Dismissal)
    ensures d.dismissed && !d.initialized && d.stored == stored
  {
    Dismissal(true, false, stored)
  }

  /** Reading storage: dismissed exactly when the stored text is `true`. */
  function Load(d: Dismissal): (r: Dismissal)
    ensures r.initialized && r.stored == d.stored
    ensures r.dismissed <==> d.stored == Some(DismissedValue)
  {
    Dismissal(d.stored == Some(DismissedValue), true, d.stored)
  }

  function Dismiss(d: Dismissal): (r: Dismissal)
    ensures r.dismissed && r.initialized == d.initialized
  {
    Dismissal(true, d.initialized, Some(DismissedValue))
  }

  function Reset(d: Dismissal): (r: Dismissal)
    ensures !r.dismissed && r.initialized == d.initialized
  {
    Dismissal(false, d.initialized, None)
  }

  /** A dismissal, and a reset, each survive a reload. */
  lemma DismissalSurvivesReload(d: Dismissal)
    ensures Load(Initial(Dismiss(d).stored)).dismissed
    ensures !Load(Initial(Reset(d).stored)).dismissed
  {
  }
}
