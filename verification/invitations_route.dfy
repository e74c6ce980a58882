/**
 * The caller's open invitations: those still pending and not yet expired
 * that are addressed to the caller's account or, when the session knows
 * the caller's address, to that address; newest first, each with the
 * name of the stash it is for.
 */
module InvitationsRoute {
  import opened Wrappers
  import opened Text
  import opened Collections
  import opened Ordering
  import opened Store
  import StashesRoute

  const FetchFailedMessage: string := "Failed to fetch invitations"

  /** An invitation as the listing shows it. */
  datatype InvitationView = InvitationView(id: Id, stashId: Id, stashName: string, createdAt: int, expiresAt: int)

  /** The invitation is addressed to the user `userId` whose session address is `email`. */
  predicate AddressedTo(inv: Invitation, userId: Id, email: Option<string>) {
    inv.userId == Some(userId) || (Truthy(email) && inv.email == Some(Lower(email.value)))
  }

  /** The invitation is open at time `now` for that user. */
  predicate Open(inv: Invitation, userId: Id, email: Option<string>, now: int) {
    inv.status == Pending && inv.expiresAt > now && AddressedTo(inv, userId, email)
  }

  /** The open invitations, in table order. */
  function OpenInvitations(db: Db, userId: Id, email: Option<string>, now: int): (r: seq<Invitation>)
    ensures forall inv :: inv in r <==> inv in db.invitations && Open(inv, userId, email, now)
  {
    Filter(db.invitations, (inv: Invitation) => Open(inv, userId, email, now))
  }

  /** Newest first. */
  predicate NewerOrSame(a: Invitation, b: Invitation) {
    a.createdAt >= b.createdAt
  }

  lemma NewerOrSameTotal()
    ensures TotalPreorder(NewerOrSame)
  {
  }

  /** The listing entry of an invitation, when its stash exists. */
  function View(db: Db, inv: Invitation): (r: Option<InvitationView>)
    ensures r.Some? <==> StashesRoute.StashById(db, inv.stashId).Some?
    ensures r.Some? ==> r.value == InvitationView(inv.id, inv.stashId, StashesRoute.StashById(db, inv.stashId).value.name, inv.createdAt, inv.expiresAt)
  {
    match StashesRoute.StashById(db, inv.stashId)
    case None => None
    case Some(s) => Some(InvitationView(inv.id, inv.stashId, s.name, inv.createdAt, inv.expiresAt))
  }

  /** The entries of the invitations, in order; one whose stash is missing fails the listing. */
  function Views(db: Db, invs: seq<Invitation>): (r: Option<seq<InvitationView>>)
    ensures r.Some? <==> forall k :: 0 <= k < |invs| ==> View(db, invs[k]).Some?
    ensures r.Some? ==> |r.value| == |invs| && forall k :: 0 <= k < |invs| ==> r.value[k] == View(db, invs[k]).value
  {
    if |invs| == 0 then Some([])
    else
      match (View(db, invs[0]), Views(db, invs[1..]))
      case (Some(v), Some(rest)) =>
        assert forall k :: 0 < k < |invs| ==> invs[k] == invs[1..][k - 1];
        Some([v] + rest)
      case (None, _) => None
      case (_, None) =>
        assert forall k :: 0 < k < |invs| ==> invs[k] == invs[1..][k - 1];
        None
  }

  /** The open invitations, newest first; the order among equally old ones is the database's. */
  function Ordered(db: Db, userId: Id, email: Option<string>, now: int): (r: seq<Invitation>)
    ensures multiset(r) == multiset(OpenInvitations(db, userId, email, now))
    ensures SortedBy(r, NewerOrSame)
  {
    NewerOrSameTotal();
    SortBy(OpenInvitations(db, userId, email, now), NewerOrSame)
  }

  /**
   * Listing the caller's open invitations at time `now`: exactly the open
   * ones, newest first, projected to id, stash, stash name and the two
   * dates.
   */
  function ListInvitations(db: Db, session: Option<SessionUser>, now: int): (r: Result<seq<InvitationView>, HttpError>)
    ensures SignedIn(session).None? ==> r == Err(Unauthorized)
    ensures r.Err? && SignedIn(session).Some? ==> r.error == ServerError(FetchFailedMessage)
    ensures r.Ok? ==> SignedIn(session).Some? && Views(db, Ordered(db, SignedIn(session).value, session.value.email, now)) == Some(r.value)
    ensures r.Ok? ==> forall i, j :: 0 <= i < j < |r.value| ==> r.value[i].createdAt >= r.value[j].createdAt
  {
    match SignedIn(session)
    case None => Err(Unauthorized)
    case Some(userId) =>
      var invs := Ordered(db, userId, session.value.email, now);
      match Views(db, invs)
      case None => Err(ServerError(FetchFailedMessage))
      case Some(vs) =>
        assert forall i, j :: 0 <= i < j < |invs| ==> NewerOrSame(invs[i], invs[j]);
        Ok(vs)
  }

  /**
   * An invitation is listed exactly when it is pending, unexpired and
   * addressed to the caller.
   */
  lemma ListedIffOpen(db: Db, session: Option<SessionUser>, now: int, inv: Invitation)
    requires ListInvitations(db, session, now).Ok?
    requires inv in db.invitations
    ensures var invs := Ordered(db, SignedIn(session).value, session.value.email, now);
      inv in invs <==> Open(inv, SignedIn(session).value, session.value.email, now)
  {
    var invs := Ordered(db, SignedIn(session).value, session.value.email, now);
    assert inv in invs <==> inv in multiset(invs);
    assert inv in OpenInvitations(db, SignedIn(session).value, session.value.email, now)
      <==> inv in multiset(OpenInvitations(db, SignedIn(session).value, session.value.email, now));
  }
}
