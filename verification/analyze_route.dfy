/**
 * The photo-analysis endpoint: a signed-in user posts a front image, an
 * optional expiration-date image and optionally the photo record it
 * belongs to; the images go to the vision model, and when the photo's item
 * belongs to the caller the analysis is stored on the photo and fills in
 * the item's empty fields.
 */
module AnalyzeRoute {
  import opened Wrappers
  import opened Text
  import opened Domain
  import opened Collections
  import opened Translations
  import opened Store
  import opened Vision

  /** The JSON body fields the endpoint reads; `None` is a missing or `null` field. */
  datatype AnalyzeBody = AnalyzeBody(
    photoId: Option<string>,
    imageBase64: Option<string>,
    mimeType: Option<string>,
    expirationImageBase64: Option<string>,
    expirationMimeType: Option<string>,
    language: Option<string>)

  const MissingImageMessage: string := "Image data and mime type are required"

  /** The runtime's message when the photo's item cannot be read. */
  const NullItemMessage: string := "Cannot read properties of null (reading 'userId')"

  /** The database's complaint about a date that did not parse. */
  const InvalidDateMessage: string := "Invalid Date"

  /** What the endpoint answers and the database afterwards. */
  datatype Reply = Reply(result: Result<Analysis, HttpError>, db: Db)

  /** The front image, when both its data and its media type are present and non-empty. */
  function FrontImage(body: AnalyzeBody): (r: Option<Image>)
    ensures r.Some? <==> Truthy(body.imageBase64) && Truthy(body.mimeType)
    ensures r.Some? ==> r.value == Image(body.imageBase64.value, body.mimeType.value)
  {
    if Truthy(body.imageBase64) && Truthy(body.mimeType) then Some(Image(body.imageBase64.value, body.mimeType.value)) else None
  }

  /** The date image, sent only when both its data and its media type are present and non-empty. */
  function DateImage(body: AnalyzeBody): (r: Option<Image>)
    ensures r.Some? <==> Truthy(body.expirationImageBase64) && Truthy(body.expirationMimeType)
    ensures r.Some? ==> r.value == Image(body.expirationImageBase64.value, body.expirationMimeType.value)
  {
    if Truthy(body.expirationImageBase64) && Truthy(body.expirationMimeType)
    then Some(Image(body.expirationImageBase64.value, body.expirationMimeType.value))
    else None
  }

  /** The answer language the client asked for: Danish exactly for `"da"`, English otherwise. */
  function RequestedLanguage(body: AnalyzeBody): (lang: Lang)
    ensures lang == Da <==> body.language == Some("da")
  {
    if body.language == Some("da") then Da else En
  }

  /** The language the endpoint as written analyzes in: the analysis helper's default, whatever the body says. */
  function LanguageAsWritten(body: AnalyzeBody): Lang {
    En
  }

  /**
   * The model's values written into the item, each only where the item
   * has none: the name when the item's is empty, the description when it
   * has none, the expiry date when it has none (a date that does not
   * parse makes the update fail), and the category when the item is filed
   * under `Other` and the upper-cased answer names a category. The item is
   * marked as AI-extracted.
   */
  function Enrich(it: Item, a: Analysis, parseDate: string -> Option<int>): (r: Result<Item, HttpError>)
    ensures r.Err? <==> Truthy(a.expirationDate) && it.expiry.None? && parseDate(a.expirationDate.value).None?
    ensures r.Ok? ==> r.value.aiExtracted
    ensures r.Ok? ==> r.value == it.(name := r.value.name, description := r.value.description,
      expiry := r.value.expiry, category := r.value.category, aiExtracted := true)
    ensures r.Ok? && it.name != "" ==> r.value.name == it.name
    ensures r.Ok? && Truthy(it.description) ==> r.value.description == it.description
    ensures r.Ok? && it.expiry.Some? ==> r.value.expiry == it.expiry
    ensures r.Ok? && it.category != Other ==> r.value.category == it.category
  {
    var name := if Truthy(a.name) && it.name == "" then a.name.value else it.name;
    var description := if Truthy(a.description) && !Truthy(it.description) then a.description else it.description;
    var category :=
      if Truthy(a.category) && it.category == Other then ParseCategory(Upper(a.category.value)).GetOr(it.category)
      else it.category;
    if Truthy(a.expirationDate) && it.expiry.None? then
      match parseDate(a.expirationDate.value)
      case None => Err(ServerError(InvalidDateMessage))
      case Some(e) => Ok(it.(name := name, description := description, expiry := Some(e), category := category, aiExtracted := true))
    else
      Ok(it.(name := name, description := description, category := category, aiExtracted := true))
  }

  /**
   * Enrichment fills only empty fields with non-empty values, so applying
   * the same analysis a second time changes nothing.
   */
  lemma EnrichIdempotent(it: Item, a: Analysis, parseDate: string -> Option<int>)
    requires Enrich(it, a, parseDate).Ok?
    ensures Enrich(Enrich(it, a, parseDate).value, a, parseDate) == Enrich(it, a, parseDate)
  {
    var once := Enrich(it, a, parseDate).value;
    if Truthy(a.category) && it.category == Other {
      match ParseCategory(Upper(a.category.value))
      case None =>
      case Some(c) =>
        if c != Other {
          assert once.category != Other;
        }
    }
  }

  /** Enrichment picks up the model's name when the item had none. */
  lemma EnrichFillsName(it: Item, a: Analysis, parseDate: string -> Option<int>)
    requires Enrich(it, a, parseDate).Ok? && it.name == "" && Truthy(a.name)
    ensures Enrich(it, a, parseDate).value.name == a.name.value
  {
  }

  /** The photo table with the analysis recorded on the photo `photoId`. */
  function RecordAnalysis(photos: seq<Photo>, photoId: Id, a: Analysis): (r: seq<Photo>)
    ensures |r| == |photos|
    ensures forall k :: 0 <= k < |photos| ==>
      r[k] == (if photos[k].id == photoId then photos[k].(aiAnalysis := Some(a)) else photos[k])
  {
    Map(photos, (p: Photo) => if p.id == photoId then p.(aiAnalysis := Some(a)) else p)
  }

  /** The item table with the row `id` replaced. */
  function ReplaceItem(items: seq<Item>, id: Id, it: Item): (r: seq<Item>)
    ensures |r| == |items|
    ensures forall k :: 0 <= k < |items| ==> r[k] == (if items[k].id == id then it else items[k])
  {
    Map(items, (x: Item) => if x.id == id then it else x)
  }

  /** Some item row with id `id` was created by `userId`. */
  predicate OwnsItemId(db: Db, userId: Id, id: Id) {
    exists j :: 0 <= j < |db.items| && db.items[j].id == id && db.items[j].owner == Some(userId)
  }

  /** The item id of the first photo row with id `photoId`, if there is one. */
  function PhotoItemId(db: Db, photoId: Id): Option<Id> {
    match Find(db.photos, (p: Photo) => p.id == photoId)
    case None => None
    case Some(photo) => Some(photo.itemId)
  }

  /**
   * The stored effect of an analysis on photo `photoId`: nothing when the
   * photo is missing or its item is not the caller's; otherwise the
   * analysis recorded on the photo and the item enriched. When the item
   * update fails the photo keeps the analysis, as the two writes are
   * separate.
   */
  function SaveAnalysis(db: Db, userId: Id, photoId: Id, a: Analysis, parseDate: string -> Option<int>): (r: Reply)
    ensures r.result.Ok? ==> r.result.value == a
    ensures r.db == db.(photos := r.db.photos, items := r.db.items)
    ensures |r.db.photos| == |db.photos| && |r.db.items| == |db.items|
    ensures forall k :: 0 <= k < |db.photos| && r.db.photos[k] != db.photos[k] ==>
      db.photos[k].id == photoId && r.db.photos[k] == db.photos[k].(aiAnalysis := Some(a))
    ensures forall k :: 0 <= k < |db.items| && r.db.items[k] != db.items[k] ==> OwnsItemId(db, userId, db.items[k].id)
    ensures r.db != db ==> PhotoItemId(db, photoId).Some? && OwnsItemId(db, userId, PhotoItemId(db, photoId).value)
  {
    match Find(db.photos, (p: Photo) => p.id == photoId)
    case None => Reply(Ok(a), db)
    case Some(photo) =>
      match Find(db.items, (it: Item) => it.id == photo.itemId)
      case None => Reply(Err(ServerError(NullItemMessage)), db)
      case Some(it) =>
        if it.owner != Some(userId) then Reply(Ok(a), db)
        else
          var db1 := db.(photos := RecordAnalysis(db.photos, photoId, a));
          match Enrich(it, a, parseDate)
          case Err(e) => Reply(Err(e), db1)
          case Ok(it') => Reply(Ok(a), db1.(items := ReplaceItem(db.items, it.id, it')))
  }

  /**
   * The endpoint analyzing in language `lang`. `today` is the date the
   * prompt names, `call` the model API, `parse` `JSON.parse` and
   * `parseDate` the date constructor.
   */
  function Handle(
    db: Db, session: Option<SessionUser>, body: AnalyzeBody, lang: Lang, today: string,
    call: Request -> Result<seq<Block>, string>, parse: string -> Option<Analysis>,
    parseDate: string -> Option<int>): (r: Reply)
    ensures SignedIn(session).None? ==> r == Reply(Err(Unauthorized), db)
    ensures SignedIn(session).Some? && FrontImage(body).None? ==> r == Reply(Err(BadRequest(MissingImageMessage)), db)
    ensures SignedIn(session).Some? && FrontImage(body).Some? ==>
      var analysis := AnalyzeImages(FrontImage(body).value, DateImage(body), lang, today, call, parse);
      && (analysis.Err? ==> r == Reply(Err(ServerError(FailureMessage(analysis.error))), db))
      && (analysis.Ok? && !Truthy(body.photoId) ==> r == Reply(Ok(analysis.value), db))
      && (analysis.Ok? && Truthy(body.photoId) ==>
           r == SaveAnalysis(db, SignedIn(session).value, body.photoId.value, analysis.value, parseDate))
  {
    match SignedIn(session)
    case None => Reply(Err(Unauthorized), db)
    case Some(userId) =>
      match FrontImage(body)
      case None => Reply(Err(BadRequest(MissingImageMessage)), db)
      case Some(front) =>
        match AnalyzeImages(front, DateImage(body), lang, today, call, parse)
        case Err(f) => Reply(Err(ServerError(FailureMessage(f))), db)
        case Ok(a) =>
          if Truthy(body.photoId) then SaveAnalysis(db, userId, body.photoId.value, a, parseDate) else Reply(Ok(a), db)
  }

  /** The endpoint as written: the body's `language` is never passed on. */
  function AnalyzeAsWritten(
    db: Db, session: Option<SessionUser>, body: AnalyzeBody, today: string,
    call: Request -> Result<seq<Block>, string>, parse: string -> Option<Analysis>,
    parseDate: string -> Option<int>): (r: Reply)
    ensures r == Handle(db, session, body, En, today, call, parse, parseDate)
  {
    Handle(db, session, body, LanguageAsWritten(body), today, call, parse, parseDate)
  }

  /** The endpoint with the client's language passed on to the analysis. */
  function Analyze(
    db: Db, session: Option<SessionUser>, body: AnalyzeBody, today: string,
    call: Request -> Result<seq<Block>, string>, parse: string -> Option<Analysis>,
    parseDate: string -> Option<int>): (r: Reply)
    ensures r == Handle(db, session, body, RequestedLanguage(body), today, call, parse, parseDate)
  {
    Handle(db, session, body, RequestedLanguage(body), today, call, parse, parseDate)
  }

  /** The request the model receives for a body that names a front image, in language `lang`. */
  function SentRequest(body: AnalyzeBody, lang: Lang, today: string): (r: Request)
    requires FrontImage(body).Some?
  {
    BuildRequest(FrontImage(body).value, DateImage(body), lang, today)
  }

  /**
   * A client asking for Danish gets the English instruction from the
   * endpoint as written, and the Danish one once the language is passed on.
   */
  lemma DanishRequestIgnored(body: AnalyzeBody, today: string)
    requires FrontImage(body).Some? && body.language == Some("da")
    ensures SentRequest(body, LanguageAsWritten(body), today).languageInstruction == EnglishInstruction
    ensures SentRequest(body, RequestedLanguage(body), today).languageInstruction == DanishInstruction
  {
  }

  /** With the language passed on, the instruction follows the client's choice in both directions. */
  lemma LanguageFollowsClient(body: AnalyzeBody, today: string)
    requires FrontImage(body).Some?
    ensures SentRequest(body, RequestedLanguage(body), today).languageInstruction == DanishInstruction
        <==> body.language == Some("da")
  {
  }
}
