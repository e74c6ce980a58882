/**
 * The inventory endpoint of a stash: listing the stash's items, narrowed
 * by category, a case-insensitive search and an expiring-soon window and
 * ordered by expiry date, and creating an item with defaults for the
 * fields the client left out. Both require the caller to be a member of
 * the stash.
 */
module ItemsRoute {
  import opened Wrappers
  import opened Text
  import opened Domain
  import opened Collections
  import opened Ordering
  import opened Expiration
  import opened Store

  const StashRequiredMessage: string := "stashId is required"
  const NameRequiredMessage: string := "Name is required"
  const FetchFailedMessage: string := "Failed to fetch items"
  const CreateFailedMessage: string := "Failed to create item"

  /** How far ahead the expiring-soon window reaches: seven days. */
  const SoonWindowMs: int := 7 * DayMs

  /** The query-string parameters of a listing; `None` is an absent parameter. */
  datatype ItemQuery = ItemQuery(
    stashId: Option<string>,
    category: Option<string>,
    search: Option<string>,
    expiringSoon: Option<string>)

  /** The conditions of a listing: the stash always, the others only when asked for. */
  datatype ItemFilter = ItemFilter(
    stashId: Id,
    category: Option<Category>,
    search: Option<string>,
    window: Option<(int, int)>)

  /** `q` occurs in `s` when both are lowercased. */
  predicate ContainsIgnoringCase(s: string, q: string) {
    exists i :: 0 <= i <= |s| && OccursAt(Lower(s), Lower(q), i)
  }

  /** The item satisfies every condition of the filter. */
  predicate Matches(f: ItemFilter, it: Item) {
    && it.stashId == f.stashId
    && (f.category.Some? ==> it.category == f.category.value)
    && (f.search.Some? ==>
          ContainsIgnoringCase(it.name, f.search.value)
          || (it.description.Some? && ContainsIgnoringCase(it.description.value, f.search.value)))
    && (f.window.Some? ==> it.expiry.Some? && f.window.value.0 <= it.expiry.value <= f.window.value.1)
  }

  /**
   * The filter a listing of stash `stashId` builds from its query at time
   * `now`; a category that is not an enum name makes the query fail.
   */
  function BuildFilter(stashId: Id, q: ItemQuery, now: int): (r: Option<ItemFilter>)
    ensures r.None? <==> Truthy(q.category) && ParseCategory(q.category.value).None?
    ensures r.Some? ==> r.value.stashId == stashId
    ensures r.Some? ==> (r.value.category.Some? <==> Truthy(q.category))
    ensures r.Some? && r.value.category.Some? ==> CategoryName(r.value.category.value) == q.category.value
    ensures r.Some? ==> r.value.search == (if Truthy(q.search) then q.search else None)
    ensures r.Some? ==> (r.value.window.Some? <==> q.expiringSoon == Some("true"))
    ensures r.Some? && r.value.window.Some? ==> r.value.window.value == (now, now + SoonWindowMs)
  {
    var window := if q.expiringSoon == Some("true") then Some((now, now + SoonWindowMs)) else None;
    var search := if Truthy(q.search) then q.search else None;
    if Truthy(q.category) then
      match ParseCategory(q.category.value)
      case None => None
      case Some(c) => Some(ItemFilter(stashId, Some(c), search, window))
    else Some(ItemFilter(stashId, None, search, window))
  }

  /** The items the filter selects, in table order. */
  function Selected(db: Db, f: ItemFilter): (r: seq<Item>)
    ensures forall it :: it in r <==> it in db.items && Matches(f, it)
  {
    Filter(db.items, (it: Item) => Matches(f, it))
  }

  /**
   * The listing order: expiry date ascending with undated items last, then
   * newest first.
   */
  predicate ItemLe(a: Item, b: Item) {
    match (a.expiry, b.expiry)
    case (Some(x), Some(y)) => x < y || (x == y && a.createdAt >= b.createdAt)
    case (Some(_), None) => true
    case (None, Some(_)) => false
    case (None, None) => a.createdAt >= b.createdAt
  }

  lemma ItemLeTotal()
    ensures TotalPreorder(ItemLe)
  {
  }

  /** An item together with its photos, as a listing returns it. */
  datatype ItemView = ItemView(item: Item, photos: seq<Photo>)

  /** The photos of item `itemId`, in table order. */
  function PhotosOf(db: Db, itemId: Id): (r: seq<Photo>)
    ensures forall p :: p in r <==> p in db.photos && p.itemId == itemId
  {
    Filter(db.photos, (p: Photo) => p.itemId == itemId)
  }

  /** The items of a listing, without their photos. */
  function ItemsOf(vs: seq<ItemView>): (r: seq<Item>)
    ensures |r| == |vs| && forall k :: 0 <= k < |vs| ==> r[k] == vs[k].item
  {
    Map(vs, (v: ItemView) => v.item)
  }

  /**
   * Listing the items of a stash at time `now`: the checks run in the order
   * session, stash parameter, membership, and the listing holds exactly the
   * matching items of the stash, dated ones first by expiry, each with its
   * photos.
   */
  function ListItems(db: Db, session: Option<SessionUser>, q: ItemQuery, now: int): (r: Result<seq<ItemView>, HttpError>)
    ensures SignedIn(session).None? ==> r == Err(Unauthorized)
    ensures SignedIn(session).Some? && !Truthy(q.stashId) ==> r == Err(BadRequest(StashRequiredMessage))
    ensures SignedIn(session).Some? && Truthy(q.stashId) && !IsMember(db, q.stashId.value, SignedIn(session).value) ==>
      r == Err(Forbidden)
    ensures SignedIn(session).Some? && Truthy(q.stashId) && IsMember(db, q.stashId.value, SignedIn(session).value) ==>
      (r.Err? <==> BuildFilter(q.stashId.value, q, now).None?)
    ensures r.Err? && r.error.ServerError? ==> r.error.message == FetchFailedMessage
    ensures r.Ok? ==>
      var f := BuildFilter(q.stashId.value, q, now).value;
      && multiset(ItemsOf(r.value)) == multiset(Selected(db, f))
      && SortedBy(ItemsOf(r.value), ItemLe)
      && (forall k :: 0 <= k < |r.value| ==> r.value[k].photos == PhotosOf(db, r.value[k].item.id))
  {
    match SignedIn(session)
    case None => Err(Unauthorized)
    case Some(userId) =>
      if !Truthy(q.stashId) then Err(BadRequest(StashRequiredMessage))
      else if !IsMember(db, q.stashId.value, userId) then Err(Forbidden)
      else
        match BuildFilter(q.stashId.value, q, now)
        case None => Err(ServerError(FetchFailedMessage))
        case Some(f) =>
          ItemLeTotal();
          var sorted := SortBy(Selected(db, f), ItemLe);
          var views := Map(sorted, (it: Item) => ItemView(it, PhotosOf(db, it.id)));
          assert ItemsOf(views) == sorted;
          Ok(views)
  }

  /** In an ordered listing, undated items come after every dated one and dated ones by ascending expiry. */
  lemma ListingOrder(items: seq<Item>)
    requires SortedBy(items, ItemLe)
    ensures forall i, j :: 0 <= i < j < |items| && items[i].expiry.None? ==> items[j].expiry.None?
    ensures forall i, j :: 0 <= i < j < |items| && items[i].expiry.Some? && items[j].expiry.Some? ==>
      items[i].expiry.value <= items[j].expiry.value
  {
    forall i, j | 0 <= i < j < |items| && items[i].expiry.None? ensures items[j].expiry.None? {
      assert ItemLe(items[i], items[j]);
    }
    forall i, j | 0 <= i < j < |items| && items[i].expiry.Some? && items[j].expiry.Some?
      ensures items[i].expiry.value <= items[j].expiry.value
    {
      assert ItemLe(items[i], items[j]);
    }
  }

  /** With no category, search or window, a member's listing holds every item of the stash. */
  lemma PlainListingIsWholeStash(db: Db, session: Option<SessionUser>, q: ItemQuery, now: int, it: Item)
    requires !Truthy(q.category) && !Truthy(q.search) && q.expiringSoon != Some("true")
    requires ListItems(db, session, q, now).Ok?
    requires it in db.items && it.stashId == q.stashId.value
    ensures it in ItemsOf(ListItems(db, session, q, now).value)
  {
    var f := BuildFilter(q.stashId.value, q, now).value;
    var listed := ItemsOf(ListItems(db, session, q, now).value);
    assert it in Selected(db, f);
    assert it in multiset(Selected(db, f));
    assert it in multiset(listed);
  }

  /** The JSON body of an item creation; `None` is a missing or `null` field. */
  datatype NewItemBody = NewItemBody(
    name: Option<string>,
    description: Option<string>,
    category: Option<string>,
    quantity: Option<int>,
    expirationDate: Option<string>,
    stashId: Option<string>)

  /** What a creation answers and the database afterwards. */
  datatype CreateReply = CreateReply(result: Result<Item, HttpError>, db: Db)

  /** The stored quantity: the one given, unless it is missing or zero. */
  function DefaultQuantity(q: Option<int>): (n: int)
    ensures n != 0
    ensures q.Some? && q.value != 0 ==> n == q.value
    ensures q.None? || q.value == 0 ==> n == 1
  {
    if q.Some? && q.value != 0 then q.value else 1
  }

  /**
   * Creating an item as user-supplied fields plus defaults: category
   * `Other` when none is given, quantity 1 when it is missing or zero, no
   * expiry when no date is given. An unknown category name or an
   * unparseable date fails in the database. The new row records no
   * creator. `id` is the new row id, `now` the clock and `parseDate` the
   * date constructor.
   */
  function NewItem(body: NewItemBody, id: Id, now: int, parseDate: string -> Option<int>): (r: Option<Item>)
    requires Truthy(body.name) && Truthy(body.stashId)
    ensures r.None? <==>
      (Truthy(body.category) && ParseCategory(body.category.value).None?)
      || (Truthy(body.expirationDate) && parseDate(body.expirationDate.value).None?)
    ensures r.Some? ==>
      && r.value.id == id && r.value.stashId == body.stashId.value && r.value.owner.None?
      && r.value.name == body.name.value && r.value.description == body.description
      && r.value.quantity == DefaultQuantity(body.quantity)
      && (r.value.category == Other <==> !Truthy(body.category) || body.category.value == CategoryName(Other))
      && (Truthy(body.category) ==> CategoryName(r.value.category) == body.category.value)
      && (r.value.expiry.Some? <==> Truthy(body.expirationDate))
      && (r.value.expiry.Some? ==> r.value.expiry == parseDate(body.expirationDate.value))
      && !r.value.aiExtracted && r.value.createdAt == now
  {
    var category := if Truthy(body.category) then ParseCategory(body.category.value) else Some(Other);
    var expiry := if Truthy(body.expirationDate) then Some(parseDate(body.expirationDate.value)) else None;
    if category.None? || (expiry.Some? && expiry.value.None?) then None
    else
      Some(Item(
        id, body.stashId.value, None, body.name.value, body.description, category.value,
        DefaultQuantity(body.quantity), if expiry.Some? then expiry.value else None, false, now))
  }

  /**
   * Creating an item: the checks run in the order session, name, stash
   * parameter, membership; a created item is appended and returned.
   */
  function CreateItem(db: Db, session: Option<SessionUser>, body: NewItemBody, id: Id, now: int, parseDate: string -> Option<int>): (r: CreateReply)
    ensures r.result.Err? ==> r.db == db
    ensures SignedIn(session).None? ==> r.result == Err(Unauthorized)
    ensures SignedIn(session).Some? && !Truthy(body.name) ==> r.result == Err(BadRequest(NameRequiredMessage))
    ensures SignedIn(session).Some? && Truthy(body.name) && !Truthy(body.stashId) ==>
      r.result == Err(BadRequest(StashRequiredMessage))
    ensures SignedIn(session).Some? && Truthy(body.name) && Truthy(body.stashId) ==>
      (!IsMember(db, body.stashId.value, SignedIn(session).value) ==> r.result == Err(Forbidden))
      && (IsMember(db, body.stashId.value, SignedIn(session).value) && NewItem(body, id, now, parseDate).None? ==>
            r.result == Err(ServerError(CreateFailedMessage)))
    ensures r.result.Ok? ==>
      && SignedIn(session).Some? && Truthy(body.name) && Truthy(body.stashId)
      && IsMember(db, body.stashId.value, SignedIn(session).value)
      && NewItem(body, id, now, parseDate) == Some(r.result.value)
      && r.db == db.(items := db.items + [r.result.value])
  {
    match SignedIn(session)
    case None => CreateReply(Err(Unauthorized), db)
    case Some(userId) =>
      if !Truthy(body.name) then CreateReply(Err(BadRequest(NameRequiredMessage)), db)
      else if !Truthy(body.stashId) then CreateReply(Err(BadRequest(StashRequiredMessage)), db)
      else if !IsMember(db, body.stashId.value, userId) then CreateReply(Err(Forbidden), db)
      else
        match NewItem(body, id, now, parseDate)
        case None => CreateReply(Err(ServerError(CreateFailedMessage)), db)
        case Some(it) => CreateReply(Ok(it), db.(items := db.items + [it]))
  }
}
