/**
 * The preparedness checklist of a stash: the first read of an empty
 * checklist seeds it with the default entries, reads list the entries by
 * category and name, members add their own entries, tick entries off or
 * link them to an item, and delete them.
 */
module ChecklistRoute {
  import opened Wrappers
  import opened Text
  import opened Domain
  import opened Collections
  import opened Ordering
  import opened Store

  const StashRequiredMessage: string := "stashId is required"
  const NameAndCategoryRequiredMessage: string := "Name and category are required"
  const IdRequiredMessage: string := "ID is required"
  const CreateFailedMessage: string := "Failed to create checklist item"
  const UpdateFailedMessage: string := "Failed to update checklist item"

  /** What a checklist request answers and the database afterwards. */
  datatype Reply<T> = Reply(result: Result<T, HttpError>, db: Db)

  /** The entries of stash `stashId`, in table order. */
  function EntriesOf(db: Db, stashId: Id): (r: seq<ChecklistEntry>)
    ensures forall e :: e in r <==> e in db.checklist && e.stashId == stashId
  {
    Filter(db.checklist, (e: ChecklistEntry) => e.stashId == stashId)
  }

  /** The checklist order: by category in enum order, then by name. */
  predicate EntryLe(a: ChecklistEntry, b: ChecklistEntry) {
    CategoryRank(a.category) < CategoryRank(b.category)
    || (CategoryRank(a.category) == CategoryRank(b.category) && LexLe(a.name, b.name))
  }

  lemma EntryLeTotal()
    ensures TotalPreorder(EntryLe)
  {
    forall a: ChecklistEntry, b: ChecklistEntry ensures EntryLe(a, b) || EntryLe(b, a) {
      LexLeTotal(a.name, b.name);
    }
    forall a: ChecklistEntry, b: ChecklistEntry, c: ChecklistEntry | EntryLe(a, b) && EntryLe(b, c) ensures EntryLe(a, c) {
      if CategoryRank(a.category) == CategoryRank(b.category) == CategoryRank(c.category) {
        LexLeTransitive(a.name, b.name, c.name);
      }
    }
  }

  /** The default entries of stash `stashId`, the `k`-th under id `newId(k)`. */
  function Defaults(stashId: Id, newId: nat -> Id): (r: seq<ChecklistEntry>)
    ensures |r| == |DefaultChecklist|
    ensures forall k :: 0 <= k < |r| ==>
      r[k] == ChecklistEntry(newId(k), stashId, DefaultChecklist[k].name, DefaultChecklist[k].category, false, true, None)
  {
    seq(|DefaultChecklist|, k requires 0 <= k < |DefaultChecklist| =>
      ChecklistEntry(newId(k), stashId, DefaultChecklist[k].name, DefaultChecklist[k].category, false, true, None))
  }

  /** The database after a read of stash `stashId`: seeded with the defaults exactly when the stash has no entries. */
  function Seeded(db: Db, stashId: Id, newId: nat -> Id): (r: Db)
    ensures |EntriesOf(db, stashId)| > 0 ==> r == db
    ensures |EntriesOf(db, stashId)| == 0 ==> r == db.(checklist := db.checklist + Defaults(stashId, newId))
  {
    if |EntriesOf(db, stashId)| == 0 then db.(checklist := db.checklist + Defaults(stashId, newId)) else db
  }

  /** Seeding leaves a stash with at least the 28 defaults when it was empty. */
  lemma SeededIsNonEmpty(db: Db, stashId: Id, newId: nat -> Id)
    ensures |EntriesOf(Seeded(db, stashId, newId), stashId)| > 0
  {
    if |EntriesOf(db, stashId)| == 0 {
      var d := Defaults(stashId, newId);
      DefaultChecklistShape();
      assert d[0] in Seeded(db, stashId, newId).checklist;
      assert d[0] in EntriesOf(Seeded(db, stashId, newId), stashId);
    }
  }

  /**
   * Reading the checklist of a stash: the checks run in the order session,
   * stash parameter, membership; an empty checklist is seeded first, and
   * the answer is the stash's entries by category and name. `newId` gives
   * the row ids of seeded entries.
   */
  function ReadChecklist(db: Db, session: Option<SessionUser>, stashId: Option<string>, newId: nat -> Id): (r: Reply<seq<ChecklistEntry>>)
    ensures r.result.Err? ==> r.db == db
    ensures SignedIn(session).None? ==> r.result == Err(Unauthorized)
    ensures SignedIn(session).Some? && !Truthy(stashId) ==> r.result == Err(BadRequest(StashRequiredMessage))
    ensures SignedIn(session).Some? && Truthy(stashId) ==>
      (r.result.Ok? <==> IsMember(db, stashId.value, SignedIn(session).value))
    ensures r.result.Err? && SignedIn(session).Some? && Truthy(stashId) ==> r.result.error == Forbidden
    ensures r.result.Ok? ==>
      && r.db == Seeded(db, stashId.value, newId)
      && multiset(r.result.value) == multiset(EntriesOf(r.db, stashId.value))
      && SortedBy(r.result.value, EntryLe)
      && |r.result.value| > 0
  {
    match SignedIn(session)
    case None => Reply(Err(Unauthorized), db)
    case Some(userId) =>
      if !Truthy(stashId) then Reply(Err(BadRequest(StashRequiredMessage)), db)
      else if !IsMember(db, stashId.value, userId) then Reply(Err(Forbidden), db)
      else
        var db' := Seeded(db, stashId.value, newId);
        EntryLeTotal();
        SeededIsNonEmpty(db, stashId.value, newId);
        Reply(Ok(SortBy(EntriesOf(db', stashId.value), EntryLe)), db')
  }

  /** A second read seeds nothing: the database is left as the first read left it. */
  lemma SecondReadAddsNothing(db: Db, session: Option<SessionUser>, stashId: Option<string>, newId: nat -> Id, newId2: nat -> Id)
    requires ReadChecklist(db, session, stashId, newId).result.Ok?
    ensures var first := ReadChecklist(db, session, stashId, newId);
      ReadChecklist(first.db, session, stashId, newId2).db == first.db
  {
    var first := ReadChecklist(db, session, stashId, newId);
    SeededIsNonEmpty(db, stashId.value, newId);
    var userId := SignedIn(session).value;
    var k :| 0 <= k < |db.members| && db.members[k].stashId == stashId.value && db.members[k].userId == userId;
    assert first.db.members[k] == db.members[k];
  }

  /** Seeding adds exactly the defaults, each marked as a default and unticked, and changes nothing else. */
  lemma SeedingAddsDefaults(db: Db, stashId: Id, newId: nat -> Id)
    requires |EntriesOf(db, stashId)| == 0
    ensures var s := Seeded(db, stashId, newId);
      && s == db.(checklist := s.checklist)
      && |s.checklist| == |db.checklist| + 28
      && (forall k :: 0 <= k < |db.checklist| ==> s.checklist[k] == db.checklist[k])
      && (forall k :: |db.checklist| <= k < |s.checklist| ==>
            s.checklist[k].isDefault && !s.checklist[k].isChecked && s.checklist[k].stashId == stashId)
  {
    DefaultChecklistShape();
  }

  /** The JSON body of an entry creation; `None` is a missing field. */
  datatype NewEntryBody = NewEntryBody(name: Option<string>, category: Option<string>, stashId: Option<string>)

  /**
   * Adding an entry: the checks run in the order session, name and
   * category, stash parameter, membership; a category that is not an enum
   * name fails in the database. The new entry is the caller's own, not a
   * default, unticked and unlinked.
   */
  function AddEntry(db: Db, session: Option<SessionUser>, body: NewEntryBody, id: Id): (r: Reply<ChecklistEntry>)
    ensures r.result.Err? ==> r.db == db
    ensures SignedIn(session).None? ==> r.result == Err(Unauthorized)
    ensures SignedIn(session).Some? && (!Truthy(body.name) || !Truthy(body.category)) ==>
      r.result == Err(BadRequest(NameAndCategoryRequiredMessage))
    ensures SignedIn(session).Some? && Truthy(body.name) && Truthy(body.category) && !Truthy(body.stashId) ==>
      r.result == Err(BadRequest(StashRequiredMessage))
    ensures SignedIn(session).Some? && Truthy(body.name) && Truthy(body.category) && Truthy(body.stashId) ==>
      && (!IsMember(db, body.stashId.value, SignedIn(session).value) ==> r.result == Err(Forbidden))
      && (IsMember(db, body.stashId.value, SignedIn(session).value) && ParseCategory(body.category.value).None? ==>
            r.result == Err(ServerError(CreateFailedMessage)))
    ensures r.result.Ok? ==>
      && IsMember(db, body.stashId.value, SignedIn(session).value)
      && ParseCategory(body.category.value).Some?
      && r.result.value == ChecklistEntry(id, body.stashId.value, body.name.value, ParseCategory(body.category.value).value, false, false, None)
      && r.db == db.(checklist := db.checklist + [r.result.value])
  {
    match SignedIn(session)
    case None => Reply(Err(Unauthorized), db)
    case Some(userId) =>
      if !Truthy(body.name) || !Truthy(body.category) then Reply(Err(BadRequest(NameAndCategoryRequiredMessage)), db)
      else if !Truthy(body.stashId) then Reply(Err(BadRequest(StashRequiredMessage)), db)
      else if !IsMember(db, body.stashId.value, userId) then Reply(Err(Forbidden), db)
      else
        match ParseCategory(body.category.value)
        case None => Reply(Err(ServerError(CreateFailedMessage)), db)
        case Some(c) =>
          var e := ChecklistEntry(id, body.stashId.value, body.name.value, c, false, false, None);
          Reply(Ok(e), db.(checklist := db.checklist + [e]))
  }

  /** A body field that may be left out; `Given(None)` is an explicit `null`. */
  datatype Field<T> = Absent | Given(value: T)

  /** The JSON body of an update; `id` is `None` when missing. */
  datatype PatchBody = PatchBody(id: Option<string>, isChecked: Field<Option<bool>>, linkedItemId: Field<Option<Id>>)

  /** The first entry with id `id`. */
  function EntryById(db: Db, id: Id): (r: Option<ChecklistEntry>)
    ensures r.Some? ==> r.value in db.checklist && r.value.id == id
    ensures r.None? ==> forall k :: 0 <= k < |db.checklist| ==> db.checklist[k].id != id
  {
    Find(db.checklist, (e: ChecklistEntry) => e.id == id)
  }

  /**
   * The checks an update and a deletion share, in order: session, id,
   * entry exists, caller belongs to the entry's stash. The entry when all pass.
   */
  function Authorize(db: Db, session: Option<SessionUser>, id: Option<string>): (r: Result<ChecklistEntry, HttpError>)
    ensures SignedIn(session).None? ==> r == Err(Unauthorized)
    ensures SignedIn(session).Some? && !Truthy(id) ==> r == Err(BadRequest(IdRequiredMessage))
    ensures SignedIn(session).Some? && Truthy(id) && EntryById(db, id.value).None? ==> r == Err(NotFound)
    ensures SignedIn(session).Some? && Truthy(id) && EntryById(db, id.value).Some? ==>
      && (!IsMember(db, EntryById(db, id.value).value.stashId, SignedIn(session).value) ==> r == Err(Forbidden))
      && (IsMember(db, EntryById(db, id.value).value.stashId, SignedIn(session).value) ==> r == Ok(EntryById(db, id.value).value))
  {
    match SignedIn(session)
    case None => Err(Unauthorized)
    case Some(userId) =>
      if !Truthy(id) then Err(BadRequest(IdRequiredMessage))
      else
        match EntryById(db, id.value)
        case None => Err(NotFound)
        case Some(e) => if IsMember(db, e.stashId, userId) then Ok(e) else Err(Forbidden)
  }

  /** The entry with the supplied fields applied; `None` when a tick is set to `null`, which the database refuses. */
  function Apply(e: ChecklistEntry, body: PatchBody): (r: Option<ChecklistEntry>)
    ensures r.None? <==> body.isChecked == Given(None)
    ensures r.Some? ==>
      && r.value == e.(isChecked := r.value.isChecked, linkedItemId := r.value.linkedItemId)
      && (body.isChecked.Absent? ==> r.value.isChecked == e.isChecked)
      && (body.isChecked.Given? ==> Some(r.value.isChecked) == body.isChecked.value)
      && (body.linkedItemId.Absent? ==> r.value.linkedItemId == e.linkedItemId)
      && (body.linkedItemId.Given? ==> r.value.linkedItemId == body.linkedItemId.value)
  {
    if body.isChecked == Given(None) then None
    else
      var checked := if body.isChecked.Given? then body.isChecked.value.value else e.isChecked;
      var linked := if body.linkedItemId.Given? then body.linkedItemId.value else e.linkedItemId;
      Some(e.(isChecked := checked, linkedItemId := linked))
  }

  /** The checklist with the entry `id` replaced. */
  function ReplaceEntry(entries: seq<ChecklistEntry>, id: Id, e: ChecklistEntry): (r: seq<ChecklistEntry>)
    ensures |r| == |entries|
    ensures forall k :: 0 <= k < |entries| ==> r[k] == (if entries[k].id == id then e else entries[k])
  {
    Map(entries, (x: ChecklistEntry) => if x.id == id then e else x)
  }

  /**
   * Updating an entry: after the shared checks, only the tick and the
   * linked item change, and only those the body supplies.
   */
  function UpdateEntry(db: Db, session: Option<SessionUser>, body: PatchBody): (r: Reply<ChecklistEntry>)
    ensures r.result.Err? ==> r.db == db
    ensures Authorize(db, session, body.id).Err? ==> r.result == Err(Authorize(db, session, body.id).error)
    ensures Authorize(db, session, body.id).Ok? && body.isChecked == Given(None) ==> r.result == Err(ServerError(UpdateFailedMessage))
    ensures r.result.Ok? ==>
      var e := Authorize(db, session, body.id).value;
      && Apply(e, body) == Some(r.result.value)
      && |r.db.checklist| == |db.checklist| && r.db == db.(checklist := r.db.checklist)
      && (forall k :: 0 <= k < |db.checklist| && db.checklist[k].id != e.id ==> r.db.checklist[k] == db.checklist[k])
      && (forall k :: 0 <= k < |db.checklist| && db.checklist[k].id == e.id ==> r.db.checklist[k] == r.result.value)
  {
    match Authorize(db, session, body.id)
    case Err(err) => Reply(Err(err), db)
    case Ok(e) =>
      match Apply(e, body)
      case None => Reply(Err(ServerError(UpdateFailedMessage)), db)
      case Some(e') => Reply(Ok(e'), db.(checklist := ReplaceEntry(db.checklist, e.id, e')))
  }

  /** An update that supplies neither field leaves the entry as it was. */
  lemma EmptyPatchChangesNothing(db: Db, session: Option<SessionUser>, id: Option<string>)
    requires Authorize(db, session, id).Ok?
    requires forall i, j :: 0 <= i < j < |db.checklist| ==> db.checklist[i].id != db.checklist[j].id
    ensures UpdateEntry(db, session, PatchBody(id, Absent, Absent)).db == db
  {
    var e := Authorize(db, session, id).value;
    var r := UpdateEntry(db, session, PatchBody(id, Absent, Absent));
    assert r.result.value == e;
    forall k | 0 <= k < |db.checklist| && db.checklist[k].id == e.id ensures db.checklist[k] == e {
      var j :| 0 <= j < |db.checklist| && db.checklist[j] == e;
      assert j == k;
    }
    assert r.db.checklist == db.checklist;
  }

  /** Deleting an entry: after the shared checks, every row with its id goes and the rest stay in order. */
  function DeleteEntry(db: Db, session: Option<SessionUser>, id: Option<string>): (r: Reply<()>)
    ensures Authorize(db, session, id).Err? ==> r == Reply(Err(Authorize(db, session, id).error), db)
    ensures Authorize(db, session, id).Ok? ==>
      && r.result.Ok?
      && r.db == db.(checklist := r.db.checklist)
      && (forall e :: e in r.db.checklist <==> e in db.checklist && e.id != id.value)
  {
    match Authorize(db, session, id)
    case Err(err) => Reply(Err(err), db)
    case Ok(e) => Reply(Ok(()), db.(checklist := Filter(db.checklist, (x: ChecklistEntry) => x.id != e.id)))
  }
}
