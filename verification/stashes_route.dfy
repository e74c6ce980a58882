/**
 * The stash collection endpoint: listing the stashes the caller belongs
 * to, one entry per membership with its role and the stash's member
 * count, and creating a stash whose only member is its creator as owner.
 */
module StashesRoute {
  import opened Wrappers
  import opened Text
  import opened Domain
  import opened Collections
  import opened Store

  const NameRequiredMessage: string := "Name is required"
  const FetchFailedMessage: string := "Failed to fetch stashes"

  /** A stash as the listing shows it to one member. */
  datatype StashSummary = StashSummary(id: Id, name: string, role: Role, memberCount: nat)

  /** The memberships of `userId`, in table order. */
  function MembershipsOf(db: Db, userId: Id): (r: seq<Membership>)
    ensures forall m :: m in r <==> m in db.members && m.userId == userId
  {
    MembershipsWhere(db, (m: Membership) => m.userId == userId)
  }

  /** The number of members of stash `stashId`. */
  function MemberCount(db: Db, stashId: Id): (n: nat)
    ensures n == 0 <==> forall k :: 0 <= k < |db.members| ==> db.members[k].stashId != stashId
  {
    Count(db.members, (m: Membership) => m.stashId == stashId)
  }

  /** A new membership row adds one to its own stash's count and nothing to the others'. */
  lemma MemberCountSnoc(db: Db, m: Membership, stashId: Id)
    ensures MemberCount(db.(members := db.members + [m]), stashId) == MemberCount(db, stashId) + (if m.stashId == stashId then 1 else 0)
  {
    CountSnoc(db.members, m, (x: Membership) => x.stashId == stashId);
  }

  /** The first stash row with id `stashId`. */
  function StashById(db: Db, stashId: Id): (r: Option<Stash>)
    ensures r.Some? ==> r.value in db.stashes && r.value.id == stashId
    ensures r.None? ==> forall k :: 0 <= k < |db.stashes| ==> db.stashes[k].id != stashId
  {
    Find(db.stashes, (s: Stash) => s.id == stashId)
  }

  /** The listing entry of one membership, when its stash exists. */
  function Summary(db: Db, m: Membership): (r: Option<StashSummary>)
    ensures r.Some? <==> StashById(db, m.stashId).Some?
    ensures r.Some? ==> r.value == StashSummary(m.stashId, StashById(db, m.stashId).value.name, m.role, MemberCount(db, m.stashId))
  {
    match StashById(db, m.stashId)
    case None => None
    case Some(s) => Some(StashSummary(s.id, s.name, m.role, MemberCount(db, s.id)))
  }

  /** The entries of the memberships, in order; a membership whose stash is missing fails the listing. */
  function Summaries(db: Db, ms: seq<Membership>): (r: Option<seq<StashSummary>>)
    ensures r.Some? <==> forall k :: 0 <= k < |ms| ==> Summary(db, ms[k]).Some?
    ensures r.Some? ==> |r.value| == |ms| && forall k :: 0 <= k < |ms| ==> r.value[k] == Summary(db, ms[k]).value
  {
    if |ms| == 0 then Some([])
    else
      match (Summary(db, ms[0]), Summaries(db, ms[1..]))
      case (Some(s), Some(rest)) =>
        assert forall k :: 0 < k < |ms| ==> ms[k] == ms[1..][k - 1];
        Some([s] + rest)
      case (None, _) => None
      case (_, None) =>
        assert forall k :: 0 < k < |ms| ==> ms[k] == ms[1..][k - 1];
        None
  }

  /**
   * The caller's stashes: one entry per membership of theirs, in
   * membership order, carrying that membership's role.
   */
  function ListStashes(db: Db, session: Option<SessionUser>): (r: Result<seq<StashSummary>, HttpError>)
    ensures SignedIn(session).None? ==> r == Err(Unauthorized)
    ensures SignedIn(session).Some? ==>
      var ms := MembershipsOf(db, SignedIn(session).value);
      && (r.Ok? <==> forall k :: 0 <= k < |ms| ==> StashById(db, ms[k].stashId).Some?)
      && (r.Err? ==> r.error == ServerError(FetchFailedMessage))
      && (r.Ok? ==> |r.value| == |ms| && forall k :: 0 <= k < |ms| ==>
            && r.value[k].id == ms[k].stashId && r.value[k].role == ms[k].role
            && r.value[k].name == StashById(db, ms[k].stashId).value.name
            && r.value[k].memberCount == MemberCount(db, ms[k].stashId))
  {
    match SignedIn(session)
    case None => Err(Unauthorized)
    case Some(userId) =>
      match Summaries(db, MembershipsOf(db, userId))
      case None => Err(ServerError(FetchFailedMessage))
      case Some(r) => Ok(r)
  }

  /** The listing has an entry for stash `stashId` with role `role`. */
  predicate Lists(r: seq<StashSummary>, stashId: Id, role: Role) {
    exists k :: 0 <= k < |r| && r[k].id == stashId && r[k].role == role
  }

  /** Every stash the caller belongs to appears in their listing with their role there. */
  lemma EveryMembershipListed(db: Db, session: Option<SessionUser>, m: Membership)
    requires ListStashes(db, session).Ok? && SignedIn(session).Some?
    requires m in db.members && m.userId == SignedIn(session).value
    ensures Lists(ListStashes(db, session).value, m.stashId, m.role)
  {
    var ms := MembershipsOf(db, m.userId);
    var k :| 0 <= k < |ms| && ms[k] == m;
    assert ListStashes(db, session).value[k].id == m.stashId;
  }

  /** What a creation answers and the database afterwards. */
  datatype CreateReply = CreateReply(result: Result<StashSummary, HttpError>, db: Db)

  /**
   * Creating a stash named `name` (`None` for a missing or non-string
   * value): the trimmed name is stored, the creator becomes its owner, and
   * the answer carries the new stash's member count. `id` is the new row id
   * and `now` the clock.
   */
  function CreateStash(db: Db, session: Option<SessionUser>, name: Option<string>, id: Id, now: int): (r: CreateReply)
    ensures r.result.Err? ==> r.db == db
    ensures SignedIn(session).None? ==> r.result == Err(Unauthorized)
    ensures SignedIn(session).Some? ==>
      (r.result == Err(BadRequest(NameRequiredMessage)) <==> name.None? || Trim(name.value) == "")
    ensures r.result.Ok? ==>
      && SignedIn(session).Some? && name.Some? && Trim(name.value) != ""
      && r.db == db.(stashes := db.stashes + [Stash(id, Trim(name.value), now)],
                     members := db.members + [Membership(id, SignedIn(session).value, Owner)])
      && r.result.value == StashSummary(id, Trim(name.value), Owner, MemberCount(r.db, id))
  {
    match SignedIn(session)
    case None => CreateReply(Err(Unauthorized), db)
    case Some(userId) =>
      if name.None? || Trim(name.value) == "" then CreateReply(Err(BadRequest(NameRequiredMessage)), db)
      else
        var db' := db.(stashes := db.stashes + [Stash(id, Trim(name.value), now)],
                       members := db.members + [Membership(id, userId, Owner)]);
        CreateReply(Ok(StashSummary(id, Trim(name.value), Owner, MemberCount(db', id))), db')
  }

  /**
   * A stash created under a new id has exactly one member, its creator,
   * who is its owner; the creator now lists it.
   */
  lemma CreatorIsSoleOwner(db: Db, session: Option<SessionUser>, name: Option<string>, id: Id, now: int)
    requires forall k :: 0 <= k < |db.members| ==> db.members[k].stashId != id
    ensures var r := CreateStash(db, session, name, id, now);
      r.result.Ok? ==>
        && r.result.value.memberCount == 1
        && (forall m :: m in r.db.members && m.stashId == id ==> m == Membership(id, SignedIn(session).value, Owner))
  {
    var r := CreateStash(db, session, name, id, now);
    if r.result.Ok? {
      var m := Membership(id, SignedIn(session).value, Owner);
      var stashes := db.stashes + [Stash(id, Trim(name.value), now)];
      MemberCountSnoc(db.(stashes := stashes), m, id);
      assert forall x :: x in db.members ==> x.stashId != id;
    }
  }
}
