/**
 * The photo upload endpoint: a signed-in user sends a file for an item;
 * the file goes to object storage under a key derived from the user, the
 * item, a random uuid and the file's extension, and a photo row records
 * it.
 */
module UploadRoute {
  import opened Wrappers
  import opened Text
  import opened Collections
  import opened Store
  import ItemsRoute

  const MissingFieldsMessage: string := "Missing file or itemId"
  const UploadFailedMessage: string := "Failed to upload photo"

  /** The extension used when the file name ends in a dot or is empty. */
  const DefaultExtension: string := "jpg"

  /** An uploaded file as the form delivers it. */
  datatype Upload = Upload(name: string, mimeType: string, size: nat)

  /** What an upload answers and the database afterwards. */
  datatype UploadReply = UploadReply(result: Result<Photo, HttpError>, db: Db)

  /** `seg` is what follows the last dot of `s`, or all of `s` when it has no dot. */
  predicate LastSegment(s: string, seg: string) {
    && '.' !in seg
    && |seg| <= |s| && s[|s| - |seg|..] == seg
    && (|seg| == |s| || s[|s| - |seg| - 1] == '.')
  }

  /**
   * The file's extension: what follows the last dot, the whole name when
   * there is no dot, and `jpg` when that is empty.
   */
  function Extension(fileName: string): (ext: string)
    ensures ext != "" && '.' !in ext
    ensures LastSegment(fileName, ext) || (ext == DefaultExtension && LastSegment(fileName, ""))
  {
    var last := match LastIndexOf(fileName, '.') case None => fileName case Some(i) => fileName[i + 1..];
    if last != "" then last else DefaultExtension
  }

  /** The storage key of an upload: `<user>/<item>/<uuid>.<extension>`. */
  function StorageKey(userId: Id, itemId: Id, uuid: string, fileName: string): (key: string)
    ensures key == Join([userId, itemId, uuid + "." + Extension(fileName)], '/')
  {
    var file := uuid + "." + Extension(fileName);
    var parts := [userId, itemId, file];
    assert parts[1..][1..] == [file];
    assert Join(parts[1..], '/') == itemId + "/" + file;
    assert Join(parts, '/') == userId + "/" + (itemId + "/" + file);
    userId + "/" + itemId + "/" + uuid + "." + Extension(fileName)
  }

  /** A key whose parts hold no slash splits back into the user, the item and the stored file name. */
  lemma StorageKeyParts(userId: Id, itemId: Id, uuid: string, fileName: string)
    requires '/' !in userId && '/' !in itemId && '/' !in uuid && '/' !in fileName
    ensures Split(StorageKey(userId, itemId, uuid, fileName), '/') == [userId, itemId, uuid + "." + Extension(fileName)]
  {
    var ext := Extension(fileName);
    if ext != DefaultExtension {
      assert forall k :: 0 <= k < |ext| ==> ext[k] == fileName[|fileName| - |ext| + k];
    }
    assert '/' !in uuid + "." + ext;
    SplitJoin([userId, itemId, uuid + "." + ext], '/');
  }

  /** The first item row with id `itemId`. */
  function ItemById(db: Db, itemId: Id): (r: Option<Item>)
    ensures r.Some? ==> r.value in db.items && r.value.id == itemId
    ensures r.None? ==> forall k :: 0 <= k < |db.items| ==> db.items[k].id != itemId
  {
    Find(db.items, (it: Item) => it.id == itemId)
  }

  /**
   * The upload with the permission test `allowed` applied to the caller
   * and the item. `photoId` is the new row id, `uuid` the random part of
   * the key and `stored` whether object storage accepted the file.
   */
  function UploadWith(
    db: Db, session: Option<SessionUser>, file: Option<Upload>, itemId: Option<string>,
    allowed: (Id, Item) -> bool, photoId: Id, uuid: string, stored: bool): (r: UploadReply)
    ensures r.result.Err? ==> r.db == db
    ensures SignedIn(session).None? ==> r.result == Err(Unauthorized)
    ensures SignedIn(session).Some? && (file.None? || !Truthy(itemId)) ==> r.result == Err(BadRequest(MissingFieldsMessage))
    ensures SignedIn(session).Some? && file.Some? && Truthy(itemId) ==>
      match ItemById(db, itemId.value)
      case None => r.result == Err(NotFound)
      case Some(it) =>
        && (!allowed(SignedIn(session).value, it) ==> r.result == Err(Forbidden))
        && (allowed(SignedIn(session).value, it) && !stored ==> r.result == Err(ServerError(UploadFailedMessage)))
        && (allowed(SignedIn(session).value, it) && stored ==>
              var p := Photo(photoId, itemId.value, StorageKey(SignedIn(session).value, itemId.value, uuid, file.value.name),
                             file.value.name, file.value.mimeType, file.value.size, None);
              r == UploadReply(Ok(p), db.(photos := db.photos + [p])))
  {
    match SignedIn(session)
    case None => UploadReply(Err(Unauthorized), db)
    case Some(userId) =>
      if file.None? || !Truthy(itemId) then UploadReply(Err(BadRequest(MissingFieldsMessage)), db)
      else
        match ItemById(db, itemId.value)
        case None => UploadReply(Err(NotFound), db)
        case Some(it) =>
          if !allowed(userId, it) then UploadReply(Err(Forbidden), db)
          else if !stored then UploadReply(Err(ServerError(UploadFailedMessage)), db)
          else
            var p := Photo(photoId, itemId.value, StorageKey(userId, itemId.value, uuid, file.value.name),
                           file.value.name, file.value.mimeType, file.value.size, None);
            UploadReply(Ok(p), db.(photos := db.photos + [p]))
  }

  /** The permission test as written: the caller must be the item's recorded creator. */
  predicate CreatorOnly(userId: Id, it: Item) {
    it.owner == Some(userId)
  }

  /**
   * The permission test of the single-photo endpoint
   * (src/app/api/photos/[id]/route.ts:7-11): the caller must belong to the
   * item's stash. The single-item endpoints use the creator test instead.
   */
  function MemberOfStash(db: Db): (allowed: (Id, Item) -> bool)
    ensures forall userId, it :: allowed(userId, it) <==> IsMember(db, it.stashId, userId)
  {
    (userId: Id, it: Item) => IsMember(db, it.stashId, userId)
  }

  /** The upload as written. */
  function UploadAsWritten(
    db: Db, session: Option<SessionUser>, file: Option<Upload>, itemId: Option<string>,
    photoId: Id, uuid: string, stored: bool): (r: UploadReply)
    ensures r.result.Err? ==> r.db == db
    ensures SignedIn(session).Some? && file.Some? && Truthy(itemId) && ItemById(db, itemId.value).Some? ==>
      (r.result == Err(Forbidden) <==> ItemById(db, itemId.value).value.owner != Some(SignedIn(session).value))
    ensures r.result.Ok? ==>
      && SignedIn(session).Some? && itemId.Some? && ItemById(db, itemId.value).Some?
      && ItemById(db, itemId.value).value.owner == Some(SignedIn(session).value)
  {
    UploadWith(db, session, file, itemId, CreatorOnly, photoId, uuid, stored)
  }

  /** The upload admitting every member of the item's stash. */
  function UploadPhoto(
    db: Db, session: Option<SessionUser>, file: Option<Upload>, itemId: Option<string>,
    photoId: Id, uuid: string, stored: bool): (r: UploadReply)
    ensures r.result.Err? ==> r.db == db
    ensures SignedIn(session).Some? && file.Some? && Truthy(itemId) && ItemById(db, itemId.value).Some? ==>
      (r.result == Err(Forbidden) <==> !IsMember(db, ItemById(db, itemId.value).value.stashId, SignedIn(session).value))
    ensures r.result.Ok? ==>
      && SignedIn(session).Some? && itemId.Some? && ItemById(db, itemId.value).Some?
      && IsMember(db, ItemById(db, itemId.value).value.stashId, SignedIn(session).value)
  {
    UploadWith(db, session, file, itemId, MemberOfStash(db), photoId, uuid, stored)
  }

  /** An item appended under an id no row has yet is the one found by that id. */
  lemma AppendedItemFound(db: Db, it: Item)
    requires forall k :: 0 <= k < |db.items| ==> db.items[k].id != it.id
    ensures ItemById(db.(items := db.items + [it]), it.id) == Some(it)
  {
    var items := db.items + [it];
    assert items[|db.items|] == it;
    assert forall x :: x in db.items ==> x.id != it.id;
    assert ItemById(db.(items := items), it.id).value in db.items + [it];
  }

  /**
   * As written, no photo can be uploaded for an item created through the
   * items endpoint, not even by its creator: the new row records no
   * creator, so the creator test fails.
   */
  lemma CreatedItemRefusesUpload(
    db: Db, session: Option<SessionUser>, body: ItemsRoute.NewItemBody, id: Id, now: int,
    parseDate: string -> Option<int>, file: Upload, photoId: Id, uuid: string, stored: bool)
    requires forall k :: 0 <= k < |db.items| ==> db.items[k].id != id
    requires id != ""
    ensures var created := ItemsRoute.CreateItem(db, session, body, id, now, parseDate);
      created.result.Ok? ==>
        UploadAsWritten(created.db, session, Some(file), Some(id), photoId, uuid, stored).result == Err(Forbidden)
  {
    var created := ItemsRoute.CreateItem(db, session, body, id, now, parseDate);
    if created.result.Ok? {
      AppendedItemFound(db, created.result.value);
    }
  }

  /** Admitting stash members, the creator of an item can upload its photos once storage accepts the file. */
  lemma CreatedItemAcceptsUpload(
    db: Db, session: Option<SessionUser>, body: ItemsRoute.NewItemBody, id: Id, now: int,
    parseDate: string -> Option<int>, file: Upload, photoId: Id, uuid: string)
    requires forall k :: 0 <= k < |db.items| ==> db.items[k].id != id
    requires id != ""
    ensures var created := ItemsRoute.CreateItem(db, session, body, id, now, parseDate);
      created.result.Ok? ==>
        UploadPhoto(created.db, session, Some(file), Some(id), photoId, uuid, true).result.Ok?
  {
    var created := ItemsRoute.CreateItem(db, session, body, id, now, parseDate);
    if created.result.Ok? {
      AppendedItemFound(db, created.result.value);
      var userId := SignedIn(session).value;
      assert IsMember(db, body.stashId.value, userId);
      var k :| 0 <= k < |db.members| && db.members[k].stashId == body.stashId.value && db.members[k].userId == userId;
      assert created.db.members[k] == db.members[k];
      assert IsMember(created.db, created.result.value.stashId, userId);
    }
  }
}
