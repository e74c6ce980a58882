/**
 * The page-wide stash selection: the caller's stashes as the stash list
 * endpoint returns them, the stash currently worked in, and the id of
 * that stash remembered in local storage across reloads.
 */
module StashContext {
  import opened Wrappers
  import opened Collections
  import opened Store
  import StashesRoute

  type Stash = StashesRoute.StashSummary

  /** The context's state and the remembered stash id. */
  datatype Context = Context(stashes: seq<Stash>, current: Option<Stash>, loading: bool, savedId: Option<Id>)

  /** The state before the first fetch. */
  const Initial: Context := Context([], None, true, None)

  /** The stash is the one remembered. */
  predicate IsSaved(savedId: Option<Id>, s: Stash) {
    savedId == Some(s.id)
  }

  /**
   * Fetching the caller's stashes. `signedIn` says whether there is a
   * session; `response` is the list the endpoint returned, or `None` when
   * the request failed. The remembered stash is selected when it is in the
   * list; otherwise the first stash is selected and remembered.
   */
  function Fetch(c: Context, signedIn: bool, response: Option<seq<Stash>>): (r: Context)
    ensures !r.loading
    ensures !signedIn ==> r == Context([], None, false, c.savedId)
    ensures signedIn && response.None? ==> r == c.(loading := false)
    ensures signedIn && response.Some? ==> r.stashes == response.value
    ensures signedIn && response.Some? && |response.value| > 0 ==> r.current.Some? && r.current.value in response.value
    ensures signedIn && response.Some? && |response.value| > 0 ==> r.savedId == Some(r.current.value.id)
    ensures signedIn && response.Some? && (exists k :: 0 <= k < |response.value| && IsSaved(c.savedId, response.value[k])) ==>
      r.savedId == c.savedId && r.current.Some? && IsSaved(c.savedId, r.current.value)
    ensures signedIn && response.Some? && |response.value| == 0 ==> r.current == c.current && r.savedId == c.savedId
  {
    if !signedIn then Context([], None, false, c.savedId)
    else
      match response
      case None => c.(loading := false)
      case Some(data) =>
        match FirstIndex(data, (s: Stash) => IsSaved(c.savedId, s))
        case Some(k) => Context(data, Some(data[k]), false, c.savedId)
        case None =>
          if |data| > 0 then Context(data, Some(data[0]), false, Some(data[0].id))
          else Context(data, c.current, false, c.savedId)
  }

  /** Fetching the same list twice selects the same stash as fetching it once. */
  lemma FetchSettles(c: Context, data: seq<Stash>)
    ensures Fetch(Fetch(c, true, Some(data)), true, Some(data)) == Fetch(c, true, Some(data))
  {
    var once := Fetch(c, true, Some(data));
    match FirstIndex(data, (s: Stash) => IsSaved(c.savedId, s))
    case Some(k) =>
      assert IsSaved(once.savedId, data[k]);
      var k' := FirstIndex(data, (s: Stash) => IsSaved(once.savedId, s)).value;
      assert k' == k by {
        assert forall s :: IsSaved(once.savedId, s) <==> IsSaved(c.savedId, s);
      }
    case None =>
      if |data| > 0 {
        assert IsSaved(once.savedId, data[0]);
        assert FirstIndex(data, (s: Stash) => IsSaved(once.savedId, s)) == Some(0);
      }
  }

  /** Choosing a stash selects and remembers it. */
  function SetCurrentStash(c: Context, s: Stash): (r: Context)
    ensures r.current == Some(s) && IsSaved(r.savedId, s)
    ensures r.stashes == c.stashes && r.loading == c.loading
  {
    c.(current := Some(s), savedId := Some(s.id))
  }

  /** The ids of the stashes are pairwise distinct. */
  predicate DistinctIds(data: seq<Stash>) {
    forall i, j :: 0 <= i < j < |data| ==> data[i].id != data[j].id
  }

  /** A chosen stash stays selected when the list is fetched again, as long as it is still listed. */
  lemma ChoiceSurvivesRefresh(c: Context, s: Stash, data: seq<Stash>)
    requires s in data && DistinctIds(data)
    ensures Fetch(SetCurrentStash(c, s), true, Some(data)).current == Some(s)
  {
    var chosen := SetCurrentStash(c, s);
    var i :| 0 <= i < |data| && data[i] == s;
    var k := FirstIndex(data, (x: Stash) => IsSaved(chosen.savedId, x)).value;
    assert IsSaved(chosen.savedId, data[k]);
    assert data[k].id == data[i].id;
  }

  /**
   * Creating a stash; `created` is the stash the endpoint returned, or
   * `None` when the request failed. A new stash is appended and selected.
   */
  function CreateStash(c: Context, created: Option<Stash>): (r: (Context, Option<Stash>))
    ensures r.1 == created
    ensures created.None? ==> r.0 == c
    ensures created.Some? ==> r.0.stashes == c.stashes + [created.value]
    ensures created.Some? ==> r.0.current == created && IsSaved(r.0.savedId, created.value)
  {
    match created
    case None => (c, None)
    case Some(s) => (SetCurrentStash(c.(stashes := c.stashes + [s]), s), Some(s))
  }

  /**
   * The selection is consistent: when the list is non-empty, the current
   * stash is one of the listed ones.
   */
  predicate Consistent(c: Context) {
    |c.stashes| > 0 ==> c.current.Some? && c.current.value in c.stashes
  }

  /** A fetch, a creation, and a choice among the listed stashes keep the selection consistent. */
  lemma OperationsKeepConsistent(c: Context, signedIn: bool, response: Option<seq<Stash>>, created: Option<Stash>, s: Stash)
    requires Consistent(c)
    ensures Consistent(Fetch(c, signedIn, response))
    ensures Consistent(CreateStash(c, created).0)
    ensures s in c.stashes ==> Consistent(SetCurrentStash(c, s))
  {
  }
}
