/**
 * The persistent state the request handlers read and write: one table per
 * entity, the session of the caller, and the error responses the handlers
 * return. Identifiers, timestamps and generated values (ids, uuids, tokens,
 * password hashes) are plain values supplied by the caller.
 */
module Store {
  import opened Wrappers
  import opened Domain
  import opened Vision
  import opened Collections

  /** A row identifier (a database id, a token or a key). */
  type Id = string

  datatype User = User(id: Id, email: string, name: Option<string>, passwordHash: string, createdAt: int)

  datatype Stash = Stash(id: Id, name: string, createdAt: int)

  /** A user's membership of a stash; the pair is unique. */
  datatype Membership = Membership(stashId: Id, userId: Id, role: Role)

  /** An inventory item. `owner` is the nullable creator column; `expiry` is in milliseconds. */
  datatype Item = Item(
    id: Id,
    stashId: Id,
    owner: Option<Id>,
    name: string,
    description: Option<string>,
    category: Category,
    quantity: int,
    expiry: Option<int>,
    aiExtracted: bool,
    createdAt: int)

  /** A stored product photo and the analysis recorded for it. */
  datatype Photo = Photo(
    id: Id,
    itemId: Id,
    key: string,
    originalName: string,
    mimeType: string,
    size: nat,
    aiAnalysis: Option<Analysis>)

  /** One line of a stash's preparedness checklist. */
  datatype ChecklistEntry = ChecklistEntry(
    id: Id,
    stashId: Id,
    name: string,
    category: Category,
    isChecked: bool,
    isDefault: bool,
    linkedItemId: Option<Id>)

  datatype InvitationStatus = Pending | Accepted | Declined | Lapsed

  /** An invitation to a stash, addressed by email or to a known user. */
  datatype Invitation = Invitation(
    id: Id,
    stashId: Id,
    email: Option<string>,
    userId: Option<Id>,
    status: InvitationStatus,
    expiresAt: int,
    createdAt: int)

  datatype ResetToken = ResetToken(token: string, userId: Id, expiresAt: int)

  /** A browser push endpoint registered by a user. */
  datatype Subscription = Subscription(id: Id, userId: Id, endpoint: string, p256dh: string, auth: string)

  /** The whole database: every table in row order. */
  datatype Db = Db(
    users: seq<User>,
    stashes: seq<Stash>,
    members: seq<Membership>,
    items: seq<Item>,
    photos: seq<Photo>,
    checklist: seq<ChecklistEntry>,
    invitations: seq<Invitation>,
    tokens: seq<ResetToken>,
    subscriptions: seq<Subscription>)

  /** The signed-in user as the session reports it. */
  datatype SessionUser = SessionUser(id: string, email: Option<string>)

  /** `session?.user?.id`, when it is truthy: the caller is signed in as that user. */
  function SignedIn(session: Option<SessionUser>): (r: Option<Id>)
    ensures r.Some? <==> session.Some? && session.value.id != ""
    ensures r.Some? ==> r.value == session.value.id
  {
    match session
    case Some(u) => if u.id != "" then Some(u.id) else None
    case None => None
  }

  /** The error responses of the handlers. */
  datatype HttpError =
    | Unauthorized
    | BadRequest(message: string)
    | Forbidden
    | NotFound
    | Conflict
    | ServerError(message: string)

  /** The HTTP status code of each error response. */
  function StatusCode(e: HttpError): (code: nat)
    ensures 400 <= code < 600
    ensures code == 500 <==> e.ServerError?
  {
    match e
    case BadRequest(_) => 400
    case Unauthorized => 401
    case Forbidden => 403
    case NotFound => 404
    case Conflict => 409
    case ServerError(_) => 500
  }

  /** `userId` is a member of stash `stashId`. */
  predicate IsMember(db: Db, stashId: Id, userId: Id) {
    exists k :: 0 <= k < |db.members| && db.members[k].stashId == stashId && db.members[k].userId == userId
  }

  /** The subscriptions registered by `userId`, in table order. */
  function SubscriptionsOf(db: Db, userId: Id): (r: seq<Subscription>)
    ensures |r| <= |db.subscriptions|
    ensures forall k :: 0 <= k < |r| ==> r[k] in db.subscriptions && r[k].userId == userId
    ensures forall s :: s in db.subscriptions && s.userId == userId ==> s in r
  {
    Filter(db.subscriptions, (s: Subscription) => s.userId == userId)
  }

  /** The subscription table with every row whose id is not in `keep` deleted. */
  function KeepSubscriptions(db: Db, keep: set<Id>): (r: Db)
    ensures forall k :: 0 <= k < |r.subscriptions| ==> r.subscriptions[k] in db.subscriptions && r.subscriptions[k].id in keep
    ensures forall s :: s in db.subscriptions && s.id in keep ==> s in r.subscriptions
    ensures r == db.(subscriptions := r.subscriptions) && |r.subscriptions| <= |db.subscriptions|
  {
    db.(subscriptions := Filter(db.subscriptions, (s: Subscription) => s.id in keep))
  }

  /** The membership rows that pass `p`, in table order. */
  function MembershipsWhere(db: Db, p: Membership -> bool): (r: seq<Membership>)
    ensures forall m :: m in r <==> m in db.members && p(m)
  {
    Filter(db.members, p)
  }

  /** A row stays exactly when its id is kept. */
  lemma KeptIff(db: Db, keep: set<Id>)
    ensures forall s :: s in KeepSubscriptions(db, keep).subscriptions <==> s in db.subscriptions && s.id in keep
  {
    var r := KeepSubscriptions(db, keep);
    forall s | s in r.subscriptions ensures s in db.subscriptions && s.id in keep {
      var k :| 0 <= k < |r.subscriptions| && r.subscriptions[k] == s;
    }
  }

  /** Keeping a set of existing ids leaves exactly those ids in the table. */
  lemma KeptIds(db: Db, keep: set<Id>)
    requires keep <= SubscriptionIds(db)
    ensures SubscriptionIds(KeepSubscriptions(db, keep)) == keep
  {
    var r := KeepSubscriptions(db, keep);
    KeptIff(db, keep);
    forall id | id in SubscriptionIds(r) ensures id in keep {
      var k :| 0 <= k < |r.subscriptions| && r.subscriptions[k].id == id;
    }
    forall id | id in keep ensures id in SubscriptionIds(r) {
      var k :| 0 <= k < |db.subscriptions| && db.subscriptions[k].id == id;
      assert db.subscriptions[k] in r.subscriptions;
    }
  }

  /** The ids of all subscription rows. */
  function SubscriptionIds(db: Db): (r: set<Id>)
    ensures forall s :: s in db.subscriptions ==> s.id in r
    ensures forall id :: id in r ==> exists k :: 0 <= k < |db.subscriptions| && db.subscriptions[k].id == id
  {
    set k | 0 <= k < |db.subscriptions| :: db.subscriptions[k].id
  }

  /** Row `id` of the subscription table belongs to `userId`. */
  predicate OwnsSubscription(db: Db, userId: Id, id: Id) {
    exists k :: 0 <= k < |db.subscriptions| && db.subscriptions[k].userId == userId && db.subscriptions[k].id == id
  }

  /** A row of `userId`'s is one they own. */
  lemma RowIsOwned(db: Db, userId: Id, s: Subscription)
    requires s in db.subscriptions && s.userId == userId
    ensures OwnsSubscription(db, userId, s.id)
  {
    var k :| 0 <= k < |db.subscriptions| && db.subscriptions[k] == s;
  }

  /** Keeping every id keeps the table as it is. */
  lemma KeepAll(db: Db)
    ensures KeepSubscriptions(db, SubscriptionIds(db)) == db
  {
    FilterAll(db.subscriptions, (s: Subscription) => s.id in SubscriptionIds(db));
  }
}
