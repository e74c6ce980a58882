# Prepper Helper — a verified model of its core rules

Prepper Helper keeps track of emergency supplies. Users sign in, belong to
one or more *stashes* (shared with other members as owner, admin or member),
and record *items* with a category, a quantity and an optional expiration
date. Items can be photographed and analysed by an AI vision model. Each
stash also keeps a preparedness *checklist*. The app warns members before
supplies expire, in two ways: with badges in the interface, and with web push
notifications sent by two scheduled jobs.

This project models the rules underneath that app as pure Dafny functions
over immutable data, and proves what those rules promise.

- **Expiration arithmetic** (`Expiration`, `ExpirationBadge`):
  - the day count is the integer ceiling of the time left over one day;
  - the four-way status classifier;
  - the badge's label and days text.
- **Notification synthesis**:
  - the daily cron job (`CronJob`, `Alerts`), which groups items per user into expired, tomorrow and soon buckets and builds at most one message per bucket;
  - the threshold job (`ThresholdJob`);
  - the test sender (`TestPush`).
  - Delivery goes through the push helper, modelled as an oracle (`Delivery`). It tallies sent and removed counters and deletes subscriptions the push service reports gone. The three handlers use the helper as written, which also reports a subscription gone when push keys are not configured.
- **Request handlers** as validators and state transitions over an abstract store (`Store`):
  - items, checklist, stashes, invitations, registration, password reset, photo upload and AI analysis (`ItemsRoute`, `ChecklistRoute`, `StashesRoute`, `InvitationsRoute`, `AuthRoutes`, `UploadRoute`, `AnalyzeRoute`);
  - each handler's status-code order, its defaults and partial updates, and what it leaves unchanged.
- **String rules** (`Text`, `Vision`, `Translations`, `LanguageContext`, `PushClient`, `PushWorker`, `Header`):
  - JSON extraction from the model's reply;
  - base64url decoding;
  - translation lookup with its fallbacks;
  - category and role keys;
  - avatar initials;
  - the service worker's title prefix.
- **Client state machines**:
  - notification settings (`Notifications`);
  - push subscription (`PushClient`);
  - current-stash selection (`StashContext`);
  - the setup guide (`SetupGuide`);
  - the photo lightbox (`Lightbox`);
  - the scan-verify dialog (`ScanDialog`);
  - the item form (`ItemForm`);
  - the two-slot camera (`Camera`);
  - the animated logo, including its Fisher–Yates shuffle (`Logo`).

The following become parameters:
- the database, as an immutable `Store` value;
- the session, as an optional user id;
- the clock, as integer milliseconds;
- random ids and tokens;
- the push service's answer, the vision model's reply and the JSON parser's verdict.

Shared pieces:
- `Wrappers` holds `Option` and `Result`.
- `Collections` holds filtering and counting over sequences.
- `Ordering` holds a sorting function over any total preorder, used for the `orderBy` clauses.
- `Domain` holds the entities and enumerations.

A non-member gets 403, not 404, from the items, checklist and photo-upload handlers, so these handlers do not hide whether a stash exists.

These edge behaviours are kept as written:
- **An item expiring at this instant.** Its day count is 0. The classifier calls that danger, but both jobs count it as expired. `CronJob.DayZeroDisagreement` states this.
- **A name of nothing but spaces.** It yields empty avatar initials, not the fallback letter (`Header.SpacesOnlyName`).
- **An empty stash list.** When a fetch returns an empty list, the previous selection is left in place (`StashContext.Fetch`).
- **Resetting the item form.** Reset returns to the values the form was last opened with (`ItemForm.SetOpen`).
- **Default checklist names.** The checklist row translates names that start with `checklist.item.` (src/components/checklist/checklist-item.tsx:40-42), but the translation table has no such key. Every default checklist entry is therefore shown as its raw key, in both languages (`LanguageContext.DefaultNamesUntranslated`).

## Model

| member | source | states |
|---|---|---|
| Domain.ParseCategory | src/components/items/item-form.tsx:33 | a text is accepted as a category exactly when it is one of the eight enum names, and then names that category |
| Domain.ParseCategoryName | src/components/items/item-form.tsx:33 | every category's enum name parses back to that category |
| Domain.CategoryRank | src/app/api/checklist/route.ts:56-57 | the sort rank of a category is its position in the enum's declaration order |
| Domain.CategoryLabelsTotalAndDistinct | src/types/index.ts:65-74 | every category has a non-empty English label and no two categories share one |
| Domain.DefaultChecklistShape | src/types/index.ts:78-107 | the default checklist has 28 entries, each named by a `checklist.item.` key, and no two share a name |
| Domain.DefaultChecklistCategories | src/types/index.ts:78-107 | the default checklist covers every category except other |
| Translations.TableEntry | src/lib/translations.ts:3-1338 | every transcribed entry has a Danish and an English text |
| Translations.CategoryEntry | src/lib/translations.ts:329-360 | each `category.*` entry's English text is the category's label |
| Translations.GetCategoryKey | src/lib/translations.ts:1352-1354 | the key is the category text under the `category.` prefix |
| Translations.CategoryKeyInjective | src/lib/translations.ts:1352-1354 | the category is recovered from its key: different categories get different keys |
| Translations.CategoryKeysCovered | src/lib/translations.ts:329-360 | the key of every enum category is in the table, with the category's label as its English text |
| Translations.GetRoleKey | src/lib/translations.ts:1362-1364 | the key is the lower-cased role under the `stash.role.` prefix |
| Translations.RoleKeyIgnoresCase | src/lib/translations.ts:1362-1364 | upper-casing the role name first gives the same key |
| Translations.RoleKeys | src/lib/translations.ts:1362-1364 | the three stored role names map to `stash.role.owner`, `.admin` and `.member` |
| Translations.RoleKeysCovered | src/lib/translations.ts:1225-1236 | each of the three role keys is in the table |
| Translations.NoChecklistItemKeys | src/lib/translations.ts:3-1338 | the table holds no `checklist.item.` key |
| LanguageContext.LangCode | src/lib/language-context.tsx:21 | a language is stored as its two-letter code |
| LanguageContext.ParseLang | src/lib/language-context.tsx:21 | a stored value names a language exactly when it is one of the two codes |
| LanguageContext.Mount | src/lib/language-context.tsx:17-24 | the provider starts in Danish and adopts a stored language only when it is valid |
| LanguageContext.SetLanguage | src/lib/language-context.tsx:26-31 | switching sets the language and stores its code |
| LanguageContext.SetLanguageSurvivesReload | src/lib/language-context.tsx:17-31 | a language chosen before a reload is the language after it |
| LanguageContext.Resolve | src/lib/language-context.tsx:35-40 | a missing entry gives the key back; the result is empty only for an empty key |
| LanguageContext.T | src/lib/language-context.tsx:33-43 | a key the table lacks comes back unchanged; a key it holds gives the current language's non-empty text |
| LanguageContext.CategoryLabelsTranslated | src/lib/language-context.tsx:33-43 | looking up any category's key never yields an empty text, and in English yields the label |
| LanguageContext.DefaultNamesUntranslated | src/lib/language-context.tsx:33-43 | each default checklist name comes back as the raw `checklist.item.` key in either language |
| Expiration.DaysUntil | src/types/index.ts:54-57 | the day count is `Math.ceil` of the time left over one day: `d - 1` whole days are strictly less than the time left and `d` days cover it |
| Expiration.DaysUntilAtMost | src/types/index.ts:55-57 | the count is at most `k` exactly when the expiry lies no more than `k` days after now |
| Expiration.DaysUntilMonotonic | src/types/index.ts:55-57 | a later expiry never yields fewer days |
| Expiration.ClassifyMonotonic | src/types/index.ts:59-62 | the status thresholds (below 0 expired, up to 3 danger, up to 7 warning) never make more days more urgent |
| Expiration.GetExpirationStatus | src/types/index.ts:51-63 | no date is safe; otherwise each status holds exactly on its window of the time left: expired once a full day has passed, danger up to three days ahead, warning up to seven, safe beyond |
| Expiration.StatusMonotonic | src/types/index.ts:51-63 | a later expiry date never gives a more urgent status |
| Expiration.ExpiringNowIsDanger | src/types/index.ts:55-60 | an item expiring at this instant is zero days away and classified danger, not expired |
| ExpirationBadge.StatusLabelKey | src/components/items/expiration-badge.tsx:40-51 | each status's label is an `expiration.` key |
| ExpirationBadge.StatusLabelsTotalAndInjective | src/components/items/expiration-badge.tsx:40-51 | every status label is in the table, and distinct statuses get distinct keys and distinct English labels |
| ExpirationBadge.GetDaysText | src/components/items/expiration-badge.tsx:53-63 | negative counts read as a positive number of days ago, 0 as today, 1 as tomorrow, larger counts as that many days; each case exactly on its range |
| ExpirationBadge.Render | src/components/items/expiration-badge.tsx:20-70 | an undated item shows the no-expiration caption; a dated one shows the status label and, in parentheses, the days text for the same day count |
| ExpirationBadge.BadgeConsistent | src/components/items/expiration-badge.tsx:31-67 | the label and the days text never contradict: days ago exactly with expired, today and tomorrow only with danger, and counts of days with danger, warning or OK by range |
| ExpirationBadge.ExpiringNowBadge | src/components/items/expiration-badge.tsx:31-67 | an item expiring at this instant reads "Expires Soon! (Today)" in English |
| Vision.LanguageInstruction | src/lib/anthropic.ts:56-58 | the Danish instruction is sent exactly for Danish, the English one exactly for English |
| Vision.BuildRequest | src/lib/anthropic.ts:32-54 | the front image goes first and the expiration image second when given; the two-image prompt is used exactly when there is an expiration image; model `claude-haiku-4-5` with 1024 tokens |
| Vision.FirstText | src/lib/anthropic.ts:122-126 | nothing exactly when the reply has no text block; otherwise the text of the first text block |
| Vision.FencedContent | src/lib/anthropic.ts:133-137 | a code block is found exactly when the text has a fence and a later closing fence; its content comes back trimmed |
| Vision.BraceSpan | src/lib/anthropic.ts:141-144 | the span runs from the first `{` to the last `}` and occurs in the text; there is none exactly when no `}` follows the first `{` |
| Vision.Interpret | src/lib/anthropic.ts:122-156 | no text block gives the no-text failure; otherwise the result is the parser's verdict on the extracted JSON text, a parse failure when it rejects it |
| Vision.AnalyzeImages | src/lib/anthropic.ts:101-156 | a thrown API error becomes a failure with its message; otherwise the reply to the built request is interpreted |
| Vision.AnalyzeImageSendsOneImage | src/lib/anthropic.ts:160-162 | the single-image entry point sends only the front image with the one-image prompt |
| Vision.BareJsonUnchanged | src/lib/anthropic.ts:131-145 | a reply that already is a trimmed JSON object without fences is parsed as it is |
| Vision.NoFence | src/lib/anthropic.ts:134 | text with no backquote has no code block |
| Vision.FencedJsonUnwrapped | src/lib/anthropic.ts:131-145 | a JSON object inside a `json` code block, with prose around it, is unwrapped to exactly the object |
| Vision.ExtractFromFenced | src/lib/anthropic.ts:133-145 | a code block whose content opens with `{` is what gets parsed |
| Vision.FencePositions | src/lib/anthropic.ts:134-136 | the code block found in a fenced reply is the trimmed text between its two fences |
| Vision.EmbeddedJsonCutOut | src/lib/anthropic.ts:139-145 | an object embedded in prose without fences is cut out from its first `{` to its last `}` |
| Vision.EmbeddedBraceSpan | src/lib/anthropic.ts:141-143 | the brace span of an embedded object is the object itself |
| Vision.ExtractFromUnfenced | src/lib/anthropic.ts:139-145 | an unfenced reply that does not open with `{` is cut down to its brace span |
| AnalyzeRoute.FrontImage | src/app/api/ai/analyze/route.ts:29-35 | a front image exists exactly when both its data and its media type are non-empty |
| AnalyzeRoute.DateImage | src/app/api/ai/analyze/route.ts:41-43 | the date image is passed on exactly when both its data and its media type are non-empty |
| AnalyzeRoute.RequestedLanguage | src/lib/anthropic.ts:23 | Danish is asked for exactly by the code `"da"`; anything else means English |
| AnalyzeRoute.Enrich | src/app/api/ai/analyze/route.ts:61-84 | the item is marked AI-extracted and only its empty fields are filled: a name it lacks, a description it lacks, a date it lacks (an unparseable one fails the update), and a category only over other; nothing else changes |
| AnalyzeRoute.EnrichIdempotent | src/app/api/ai/analyze/route.ts:61-84 | enriching an enriched item again with the same analysis changes nothing |
| AnalyzeRoute.EnrichFillsName | src/app/api/ai/analyze/route.ts:65-67 | an item without a name takes the model's name |
| AnalyzeRoute.RecordAnalysis | src/app/api/ai/analyze/route.ts:55-58 | the photo with the id gains the analysis and every other photo is kept |
| AnalyzeRoute.ReplaceItem | src/app/api/ai/analyze/route.ts:81-84 | the row with the id is replaced and every other row is kept |
| AnalyzeRoute.SaveAnalysis | src/app/api/ai/analyze/route.ts:48-86 | only photos and items can change; a changed photo is the one named, gaining only the analysis; a changed item belongs to the caller; nothing changes unless the photo's item was created by the caller |
| AnalyzeRoute.Handle | src/app/api/ai/analyze/route.ts:8-100 | 401 without a session, 400 without a front image, 500 with the analysis failure's message; a given photo id has the analysis saved; otherwise the analysis is the answer and the database is untouched |
| AnalyzeRoute.AnalyzeAsWritten | src/app/api/ai/analyze/route.ts:39-44 | the endpoint as written analyzes in English whatever the body's language |
| AnalyzeRoute.Analyze | src/app/api/ai/analyze/route.ts:39-44 | the corrected endpoint analyzes in the language the client asked for |
| AnalyzeRoute.DanishRequestIgnored | src/app/api/ai/analyze/route.ts:39-44 | for a Danish request, the endpoint as written sends the English instruction, the corrected one the Danish instruction |
| AnalyzeRoute.LanguageFollowsClient | src/app/api/ai/analyze/route.ts:39-44 | with the language passed on, the Danish instruction is sent exactly when the client asked for Danish |
| Delivery.Step | src/app/api/cron/check-expiring/route.ts:149-168 | a success adds one to the sent count; a refusal deletes the subscription row and counts it when the row is still there (a second delete of the same row throws and is swallowed); a thrown send changes nothing |
| Delivery.RunCounts | src/app/api/cron/check-expiring/route.ts:147-170 | after all attempts the sent count is the number of successes, at most one count per attempt, deletions only shrink the rows, and a row is deleted only when some attempt to it was refused |
| Delivery.DeliverAll | src/app/api/cron/check-expiring/route.ts:147-170 | the send loop computes the same counters and remaining rows as the attempt-by-attempt tally; sent is the number of successes and removed the number of rows deleted |
| Delivery.Deliver | src/app/api/cron/check-expiring/route.ts:147-170 | applied to the subscription table, the send loop counts the successes, counts as removed the number of row ids that disappear, touches no other table, and deletes exactly the rows whose id some send reported gone |
| Delivery.SendPushAsWritten | src/lib/web-push.ts:38-60 | the helper as written: a send succeeds exactly when the keys are configured and the service accepts; it reports the subscription gone when the keys are missing or the service answers 410 |
| Delivery.SendPush | src/lib/web-push.ts:38-60 | the corrected helper reports the subscription gone only on a 410 answer with keys configured, and otherwise agrees with the helper as written |
| Delivery.Outcomes | src/lib/web-push.ts:28-61 | the outcome of each send is the corrected helper's verdict on that send's answer |
| Delivery.OutcomesAsWritten | src/lib/web-push.ts:28-61 | the outcome of each send is the helper-as-written's verdict on that send's answer |
| Delivery.AllGone | src/app/api/cron/check-expiring/route.ts:158-165 | when every send reports the subscription gone, exactly the targeted rows are deleted |
| Delivery.NoneGone | src/app/api/cron/check-expiring/route.ts:158-165 | when no send reports the subscription gone, no row is deleted |
| Delivery.UnconfiguredKeysPurge | src/lib/web-push.ts:38-41 | with the helper as written and no keys, nothing is sent and every targeted subscription is deleted |
| Delivery.UnconfiguredKeysKeep | src/lib/web-push.ts:38-41 | with the corrected helper and no keys, nothing is sent and no subscription is deleted |
| Delivery.UnconfiguredGoneIffTargeted | src/lib/web-push.ts:38-41 | with the helper as written and no keys, nothing succeeds and a subscription is reported gone exactly when some send targets it |
| Delivery.SuccessesAreDeliveries | src/lib/web-push.ts:43-51 | with keys set, the number of successful sends is the number of sends the push service accepted |
| Delivery.NoSuccesses | src/app/api/cron/check-expiring/route.ts:158-159 | outcomes without a success count no successes |
| CronJob.ConfiguredSecret | src/app/api/cron/check-expiring/route.ts:12 | the job's secret is the first environment variable that is set and non-empty, falling back to the second |
| CronJob.Admitted | src/app/api/cron/check-expiring/route.ts:10-20 | with no secret configured every request runs; with one, a request runs exactly when its authorization header is that secret as a bearer token or its API-key header equals it |
| CronJob.DueItems | src/app/api/cron/check-expiring/route.ts:25-49 | the fetched items are items of the database, each with an expiry date at most seven days ahead, and every such item is fetched |
| CronJob.MembersOf | src/app/api/cron/check-expiring/route.ts:66 | the members visited for a stash are exactly that stash's memberships |
| CronJob.ItemMentions | src/app/api/cron/check-expiring/route.ts:66-92 | one item is visited once for each member of its stash, in membership order, carrying the item's name and its days left |
| CronJob.DatedItemMentions | src/app/api/cron/check-expiring/route.ts:59-64 | an item without an expiry date is skipped; a dated one is visited for every member of its stash with its whole days left |
| CronJob.Mentions | src/app/api/cron/check-expiring/route.ts:59-93 | every pair of a dated fetched item and a member of its stash is visited |
| CronJob.MentionsWithinWeek | src/app/api/cron/check-expiring/route.ts:25-33 | since every fetched item is at most seven days away, so is every visited pair |
| CronJob.File | src/app/api/cron/check-expiring/route.ts:85-91 | an item name is appended to exactly the bucket its days left select (expired at zero or less, tomorrow at one, soon from two to seven) and the other buckets are unchanged |
| CronJob.GroupIsPerUser | src/app/api/cron/check-expiring/route.ts:52-93 | the per-user map has one entry per visited user and no user twice, and each bucket of an entry holds exactly that user's item names of that bucket in visiting order |
| CronJob.RecordKeepsGrouping | src/app/api/cron/check-expiring/route.ts:67-92 | updating an existing entry or adding a new one for a visited pair keeps the per-user grouping invariant |
| CronJob.EveryMentionFiledOnce | src/app/api/cron/check-expiring/route.ts:85-91 | every pair at most seven days away lands in exactly one of the three buckets, so the bucket sizes add up to the user's number of visits |
| CronJob.Kinds | src/app/api/cron/check-expiring/route.ts:104-144 | an alert is prepared for a bucket exactly when it is non-empty, at most three, in the order expired, tomorrow, soon |
| CronJob.Notice | src/app/api/cron/check-expiring/route.ts:105-143 | every alert carries the Danish title and the bucket's body; it links to the expired filter exactly for the expired bucket and stays on screen exactly for the expired and tomorrow buckets |
| CronJob.Notifications | src/app/api/cron/check-expiring/route.ts:102-144 | a user's alerts are one notice per non-empty bucket, in bucket order |
| CronJob.Fanout | src/app/api/cron/check-expiring/route.ts:147-148 | each alert goes to each subscription, giving alerts times subscriptions sends, each of a given alert to a given subscription |
| CronJob.RecipientAttempts | src/app/api/cron/check-expiring/route.ts:99-148 | a user without subscriptions is skipped; otherwise each of the user's alerts goes to each of the user's own subscriptions |
| CronJob.Plan | src/app/api/cron/check-expiring/route.ts:99-170 | the job's sends, user by user, number the sum of alerts times subscriptions and each sends one of a user's alerts to one of that user's subscriptions |
| CronJob.CheckExpiring | src/app/api/cron/check-expiring/route.ts:7-188 | an unauthorized request gets 401 and changes nothing. Otherwise the report counts the fetched items; the sent count is the number of sends the service accepted, and sends plus removals never exceed the planned sends. The job deletes exactly the subscriptions some send reported gone, counts their ids as removed, and changes no other table. With push keys missing, nothing is sent and every subscription the job targets is deleted |
| CronJob.DayZeroDisagreement | src/app/api/cron/check-expiring/route.ts:85-86 | an item expiring at this very moment is filed as expired by the job although the status badge calls it danger |
| Alerts.Rank | src/app/api/cron/check-expiring/route.ts:104-144 | the three buckets are alerted in a fixed order, expired first and soon last |
| Alerts.BucketFor | src/app/api/cron/check-expiring/route.ts:85-91 | zero or fewer days left means expired, exactly one means tomorrow, two to seven means soon, and more than seven means no bucket |
| Alerts.AlertBody | src/app/api/cron/check-expiring/route.ts:105-136 | a single item is named in the body; several are counted instead, followed by the word for items and the bucket's phrase |
| Alerts.AlertBodyCount | src/app/api/cron/check-expiring/route.ts:120-122 | a body for several items opens with the item count in decimal digits, which reads back as that count |
| ThresholdJob.KeyAdmitted | src/app/api/push/check-expiring/route.ts:10-15 | without a configured key every request is refused; with one, a request runs exactly when its API-key header equals the key |
| ThresholdJob.UnsetKeyContrast | src/app/api/push/check-expiring/route.ts:13 | with no key configured this job refuses every request, while the daily job with no secret admits every request |
| ThresholdJob.Body | src/app/api/push/check-expiring/route.ts:63-69 | the body opens with the item's name and says it has expired at zero or fewer days, expires tomorrow at one, and expires in so many days above one |
| ThresholdJob.BodyInjective | src/app/api/push/check-expiring/route.ts:63-69 | two day-counts with the same body for one item are equal, except that all counts of zero or less read alike |
| ThresholdJob.BodyInjectiveAboveOne | src/app/api/push/check-expiring/route.ts:68 | above one day the decimal day-count in the body determines the count |
| ThresholdJob.ExpiredNotTomorrow | src/app/api/push/check-expiring/route.ts:63-66 | the expired body differs from the tomorrow body |
| ThresholdJob.BodyEndings | src/app/api/push/check-expiring/route.ts:63-69 | a body for one day or fewer never equals a body for more than one day |
| ThresholdJob.Tag | src/app/api/push/check-expiring/route.ts:84 | the tag starts with the job's prefix |
| ThresholdJob.TagInjective | src/app/api/push/check-expiring/route.ts:84 | distinct items or distinct day-counts get distinct tags, so one alert per item and day is kept on a device |
| ThresholdJob.Notice | src/app/api/push/check-expiring/route.ts:60-86 | the alert carries the English title, the item's body and tag, links to the expiring page, and stays on screen exactly from one day before expiry on |
| ThresholdJob.MemberAttempts | src/app/api/push/check-expiring/route.ts:73 | one payload goes to each subscription of the member, and only to the member's own subscriptions |
| ThresholdJob.MembersAttempts | src/app/api/push/check-expiring/route.ts:72-73 | one payload goes to each subscription of each member, and every send goes to some member's subscription |
| ThresholdJob.AnnouncedDays | src/app/api/push/check-expiring/route.ts:51-58 | a dated item is announced exactly when its whole days left is 7, 3, 1 or 0, and then with that count |
| ThresholdJob.ItemAttempts | src/app/api/push/check-expiring/route.ts:50-102 | an item off the announced days gets no sends; otherwise its alert goes to every subscription of every member of its stash and nowhere else |
| ThresholdJob.Plan | src/app/api/push/check-expiring/route.ts:50-103 | every send of the job carries the alert of a fetched item on one of its announced days; the number of sends is, summed over the items, the subscription count of the item's stash members on an announced day; each item on an announced day sends its alert to every subscription of every member of its stash |
| ThresholdJob.PlanReaches | src/app/api/push/check-expiring/route.ts:50-103 | the first item's sends followed by the others' reach every subscription that either part reaches |
| ThresholdJob.PlanOnlyOnThresholds | src/app/api/push/check-expiring/route.ts:57-58 | every payload the job sends belongs to a fetched dated item that is exactly 7, 3, 1 or 0 days away |
| ThresholdJob.CheckExpiring | src/app/api/push/check-expiring/route.ts:7-118 | a request without the configured key gets 401 and changes nothing. Otherwise the report counts the fetched items; the sent count is the number of sends the service accepted, and sends plus removals never exceed the planned sends. Exactly the subscriptions some send reported gone are deleted, and no other table changes. With push keys missing, nothing is sent and every targeted subscription is deleted |
| TestPush.StashIdsOf | src/app/api/push/test/route.ts:29-34 | the stashes looked up are exactly those the user is a member of |
| TestPush.Candidates | src/app/api/push/test/route.ts:38-45 | the items considered are exactly the items of the user's stashes with an expiry date at most seven days ahead |
| TestPush.Ordered | src/app/api/push/test/route.ts:46 | the considered items are put in order of expiry date, soonest first, none lost or added |
| TestPush.Message | src/app/api/push/test/route.ts:49-75 | with any expired item the message is the Danish expired alert for those items; otherwise with any item due soon it is the Danish soon alert; otherwise it is the placeholder test message; always with the test tag |
| TestPush.ExpiredSoonPartition | src/app/api/push/test/route.ts:54-61 | items at most seven days away are each either expired or due soon, never both |
| TestPush.CandidatesPartition | src/app/api/push/test/route.ts:38-61 | every considered item is counted in exactly one of the expired and soon groups |
| TestPush.BodyIgnoresOrder | src/app/api/push/test/route.ts:65-73 | a group's body depends on its items only through their number and, for a single item, its name |
| TestPush.MessageIgnoresOrder | src/app/api/push/test/route.ts:46-75 | the message is the same for any order of the same items, so ties in expiry date do not matter |
| TestPush.SendTest | src/app/api/push/test/route.ts:8-107 | without a session the request is unauthorized; without subscriptions it is a bad request with the fixed message; both change nothing. Otherwise the total is the user's subscription count, and the sent count is the number of sends the service accepted (zero exactly when it accepted none). A subscription answered 410 is deleted. With push keys missing nothing is sent and all of the user's subscriptions are deleted. Other users' subscriptions survive |
| TestPush.SendToAll | src/app/api/push/test/route.ts:77-101 | one message goes to each of the user's subscriptions. The sent count is the number of sends the service accepted. A subscription answered 410 is deleted. With push keys missing nothing is sent and every subscription of the user is deleted. Only the user's own rows can be deleted |
| TestPush.NoSuccessIff | src/app/api/push/test/route.ts:94-101 | with push keys set, the success count is zero exactly when the service delivered to no subscription |
| TestPush.DeletedWereTargeted | src/app/api/push/test/route.ts:89-92 | a subscription row disappears only if some send targeted it |
| TestPush.GoneRowsDeleted | src/app/api/push/test/route.ts:89-92 | a subscription whose send was reported gone is deleted |
| TestPush.UnconfiguredDeletesAll | src/lib/web-push.ts:38-41 | with the helper as written and no push keys, the test send deletes every subscription of the user |
| TestPush.OthersKept | src/app/api/push/test/route.ts:77-99 | the test send never deletes another user's subscription |
| Store.SignedIn | src/app/api/push/test/route.ts:10-14 | a caller is signed in exactly when the session has a user with a non-empty id, and then as that user |
| AuthRoutes.UserByEmail | src/app/api/auth/forgot-password/route.ts:20-22 | an account is found only with exactly the given address, and none is found when no account has it |
| AuthRoutes.TokensOf | src/app/api/auth/forgot-password/route.ts:30-32 | the tokens of an account are exactly the reset-token rows issued to it |
| AuthRoutes.Greeting | src/app/api/auth/forgot-password/route.ts:47-64 | the reset mail greets the account's name, else its address, never with an empty name |
| AuthRoutes.ForgotPassword | src/app/api/auth/forgot-password/route.ts:8-66 | a missing address is a bad request that changes nothing; an unknown address succeeds without a mail or a change; a known one (looked up lowercased) gets a mail carrying a fresh token valid for one hour in the requested language, and only that account's tokens change |
| AuthRoutes.ResetLeavesOneToken | src/app/api/auth/forgot-password/route.ts:30-44 | after a reset request the account holds exactly one token, the new one, expiring an hour later |
| AuthRoutes.Public | src/app/api/auth/register/route.ts:30-43 | a registration answers with the account's id, address, name and creation time, not its password hash |
| AuthRoutes.CreateAccount | src/app/api/auth/register/route.ts:18-45 | an address already taken is a conflict that changes nothing; otherwise one account with the hashed password is appended and returned |
| AuthRoutes.RegisterAsWritten | src/app/api/auth/register/route.ts:8-45 | registration as written: a missing address or password is a bad request; an address already stored exactly as typed is a conflict; otherwise the account is stored with the address as typed; errors change nothing |
| AuthRoutes.Register | src/app/api/auth/register/route.ts:8-45 | the corrected registration: the same answers, with the address lowercased before it is compared and stored |
| AuthRoutes.StillUnknown | src/app/api/auth/forgot-password/route.ts:20-22 | adding an account with another address leaves an unknown address unknown |
| AuthRoutes.NowKnown | src/app/api/auth/forgot-password/route.ts:20-22 | adding an account with an unknown address makes that account the one found for it |
| AuthRoutes.MixedCaseAccountCannotReset | src/app/api/auth/register/route.ts:18-35 | an account registered with capital letters in its address can never get a reset mail, even when the address is typed exactly as registered |
| AuthRoutes.RegisteredAccountCanReset | src/app/api/auth/forgot-password/route.ts:20-44 | with the address lowercased at registration, a reset request with any letter case of the address mails a token and leaves the new account exactly that token |
| AuthRoutes.CaseVariantConflicts | src/app/api/auth/register/route.ts:18-27 | with the address lowercased, registering the same address again in another letter case is a conflict |
| ItemsRoute.BuildFilter | src/app/api/items/route.ts:40-62 | the listing always restricts to the stash; to the category only when one is given (an unknown category is an error); to the search term only when non-empty; and to the next seven days only when expiringSoon is the string true |
| ItemsRoute.Selected | src/app/api/items/route.ts:64-68 | the items selected are exactly the database's items that meet every condition of the filter |
| ItemsRoute.ItemLeTotal | src/app/api/items/route.ts:69-72 | the listing order, by expiry date ascending with undated items last and newer items first among equal dates, is a total preorder |
| ItemsRoute.PhotosOf | src/app/api/items/route.ts:66-68 | the photos listed with an item are exactly that item's photo rows |
| ItemsRoute.ListItems | src/app/api/items/route.ts:12-82 | without a session 401, without a stash 400, for a non-member 403; otherwise the listing holds exactly the items the filter selects, each with its photos, in the listing order |
| ItemsRoute.ListingOrder | src/app/api/items/route.ts:69-72 | in a listing every undated item comes after all dated ones, and dated items appear by ascending expiry date |
| ItemsRoute.PlainListingIsWholeStash | src/app/api/items/route.ts:40-42 | with no category, search or window, a member's listing holds every item of the stash |
| ItemsRoute.DefaultQuantity | src/app/api/items/route.ts:121 | the stored quantity is the one given unless it is missing or zero, in which case it is one |
| ItemsRoute.NewItem | src/app/api/items/route.ts:115-129 | the created item belongs to the given stash with no owner, keeps name and description, falls back to Other without a category and to no expiry date without one, is not marked as recognised, and fails on an unknown category or an unreadable date |
| ItemsRoute.CreateItem | src/app/api/items/route.ts:85-137 | without a session 401, without a name or stash 400, for a non-member 403, a rejected row 500, each changing nothing; otherwise exactly the new item is appended and returned |
| UploadRoute.Extension | src/app/api/photos/upload/route.ts:40 | the extension is the text after the file name's last dot (the whole name when it has none), or jpg when that text is empty; it is never empty and holds no dot |
| UploadRoute.StorageKey | src/app/api/photos/upload/route.ts:41 | the storage key joins the user, the item and the random name with the extension by slashes |
| UploadRoute.StorageKeyParts | src/app/api/photos/upload/route.ts:41 | a key made of parts without slashes splits back into the user, the item and the stored file name |
| UploadRoute.ItemById | src/app/api/photos/upload/route.ts:27-29 | the item found has the requested id, and none is found when no item has it |
| UploadRoute.UploadWith | src/app/api/photos/upload/route.ts:8-72 | without a session 401, without a file or item id 400, an unknown item 404, a refused caller 403, a failed store 500, each changing nothing; otherwise exactly one photo row with the storage key, name, type and size of the file is added and returned |
| UploadRoute.MemberOfStash | src/app/api/items/route.ts:35-38 | the corrected permission admits a caller exactly when they belong to the item's stash |
| UploadRoute.UploadAsWritten | src/app/api/photos/upload/route.ts:35-37 | as written, an upload for an existing item is forbidden exactly when the caller is not the item's recorded creator |
| UploadRoute.UploadPhoto | src/app/api/photos/upload/route.ts:35-37 | corrected, an upload for an existing item is forbidden exactly when the caller is not a member of the item's stash |
| UploadRoute.AppendedItemFound | src/app/api/items/route.ts:115-127 | an item created under a new id is the one found by that id |
| UploadRoute.CreatedItemRefusesUpload | src/app/api/items/route.ts:115-123 | as written, no photo can ever be uploaded for an item created through the items endpoint, since it records no creator |
| UploadRoute.CreatedItemAcceptsUpload | src/app/api/photos/upload/route.ts:35-63 | admitting stash members, the caller who created an item can upload its photo once storage accepts the file |
| StashesRoute.MembershipsOf | src/app/api/stashes/route.ts:14-24 | the memberships listed are exactly the caller's |
| StashesRoute.MemberCount | src/app/api/stashes/route.ts:25-30 | a stash's member count is zero exactly when it has no membership row |
| StashesRoute.MemberCountSnoc | src/app/api/stashes/route.ts:61-74 | a new membership adds one to its own stash's count and nothing to any other |
| StashesRoute.StashById | src/app/api/stashes/route.ts:14-24 | the stash found has the requested id, and none is found when no stash has it |
| StashesRoute.Summary | src/app/api/stashes/route.ts:25-30 | a membership shows its stash's id and name, the caller's role and the member count |
| StashesRoute.Summaries | src/app/api/stashes/route.ts:25-30 | the listing has one entry per membership, in order, and fails when a stash is missing |
| StashesRoute.ListStashes | src/app/api/stashes/route.ts:7-40 | without a session 401; otherwise one entry per membership of the caller, with the stash's name, the caller's role and the member count |
| StashesRoute.EveryMembershipListed | src/app/api/stashes/route.ts:14-30 | every stash the caller belongs to is listed with their role in it |
| StashesRoute.CreateStash | src/app/api/stashes/route.ts:43-91 | without a session 401; a missing or blank name 400; otherwise a stash with the trimmed name is created and the caller joined as its owner; errors change nothing |
| StashesRoute.CreatorIsSoleOwner | src/app/api/stashes/route.ts:61-84 | a new stash has exactly one member, the caller, as owner |
| InvitationsRoute.OpenInvitations | src/app/api/invitations/route.ts:14-27 | the invitations listed are exactly those pending, not yet expired, and addressed to the caller's id or session address |
| InvitationsRoute.NewerOrSameTotal | src/app/api/invitations/route.ts:28 | newest-first by creation time is a total preorder |
| InvitationsRoute.View | src/app/api/invitations/route.ts:31-39 | an invitation shows its id, stash id, stash name, creation and expiry time, and only when its stash exists |
| InvitationsRoute.Views | src/app/api/invitations/route.ts:31-39 | one entry per invitation, in order; a missing stash fails the listing |
| InvitationsRoute.Ordered | src/app/api/invitations/route.ts:14-29 | the open invitations, none lost or added, newest first |
| InvitationsRoute.ListInvitations | src/app/api/invitations/route.ts:8-47 | without a session 401; otherwise the caller's open invitations, newest first |
| InvitationsRoute.ListedIffOpen | src/app/api/invitations/route.ts:14-27 | an invitation is listed exactly when it is open for the caller |
| ChecklistRoute.EntriesOf | src/app/api/checklist/route.ts:38-40 | the entries read for a stash are exactly that stash's checklist rows |
| ChecklistRoute.EntryLeTotal | src/app/api/checklist/route.ts:56-59 | ordering by category in declaration order and then by name is a total preorder |
| ChecklistRoute.Defaults | src/app/api/checklist/route.ts:44-51 | the seeded rows are the default checklist in order, each in the stash, marked as a default and unticked |
| ChecklistRoute.Seeded | src/app/api/checklist/route.ts:37-52 | a stash with entries is left alone; an empty one gets the defaults appended |
| ChecklistRoute.SeededIsNonEmpty | src/app/api/checklist/route.ts:42-52 | after seeding every stash has at least one entry |
| ChecklistRoute.ReadChecklist | src/app/api/checklist/route.ts:15-70 | without a session 401, without a stash 400, a non-member 403, each changing nothing; a member reads the stash's entries, seeded when empty, never empty, in checklist order |
| ChecklistRoute.SecondReadAddsNothing | src/app/api/checklist/route.ts:42 | seeding happens at most once: a second read leaves the database as the first read left it |
| ChecklistRoute.SeedingAddsDefaults | src/app/api/checklist/route.ts:44-51 | seeding appends exactly the 28 defaults, unticked and marked as defaults, and keeps every existing row |
| ChecklistRoute.AddEntry | src/app/api/checklist/route.ts:72-119 | without a session 401, without a name or category 400, without a stash 400, a non-member 403, an unknown category 500, each changing nothing; otherwise an unticked non-default entry is appended and returned |
| ChecklistRoute.EntryById | src/app/api/checklist/route.ts:135-141 | the entry found has the requested id, and none is found when no entry has it |
| ChecklistRoute.Authorize | src/app/api/checklist/route.ts:123-147 | the shared checks of update and delete: 401 without a session, 400 without an id, 404 for an unknown id, 403 for a non-member of the entry's stash, otherwise the entry |
| ChecklistRoute.Apply | src/app/api/checklist/route.ts:149-157 | only the supplied fields change: the tick when given, the linked item when given (null unlinks); a null tick is refused |
| ChecklistRoute.ReplaceEntry | src/app/api/checklist/route.ts:149-152 | the updated entry takes the place of every row with its id, and the other rows stay as they are |
| ChecklistRoute.UpdateEntry | src/app/api/checklist/route.ts:121-165 | after the shared checks the entry is replaced by its patched version in place, every other row unchanged; errors change nothing |
| ChecklistRoute.EmptyPatchChangesNothing | src/app/api/checklist/route.ts:149-157 | an update that supplies neither field leaves the database as it was |
| ChecklistRoute.DeleteEntry | src/app/api/checklist/route.ts:167-207 | after the shared checks the entry is deleted and every other row stays; errors change nothing |
| Notifications.Merge | src/hooks/use-notifications.ts:56-62 | every field supplied by the update takes its new value and every other field keeps its old one |
| Notifications.MergeIdempotent | src/hooks/use-notifications.ts:56-62 | applying the same update twice is applying it once |
| Notifications.MergeThen | src/hooks/use-notifications.ts:56-62 | two updates in a row are one update in which the later values win |
| Notifications.FullPatchReplaces | src/hooks/use-notifications.ts:56-62 | an update supplying every field replaces the settings outright |
| Notifications.Load | src/hooks/use-notifications.ts:13-17 | a page load starts from the stored settings when they can be read, else from notifications off, alerts on, seven days ahead |
| Notifications.Mount | src/hooks/use-notifications.ts:24-42 | on mount the hook records whether notifications are supported, takes the browser's permission only when they are, and loads the settings |
| Notifications.UpdateSettings | src/hooks/use-notifications.ts:56-62 | an update merges the supplied fields and stores the result, touching nothing else |
| Notifications.UpdateSurvivesReload | src/hooks/use-notifications.ts:34-37 | settings stored by an update are the ones a reload starts from |
| Notifications.RequestPermission | src/hooks/use-notifications.ts:44-54 | asking succeeds exactly when notifications are supported and the browser grants them; the browser's answer becomes the permission, and settings are untouched |
| Notifications.EnableNotifications | src/hooks/use-notifications.ts:64-74 | enabling succeeds exactly when notifications are supported and permission was already granted or is granted on asking; only then is the enabled flag set and stored |
| Notifications.DisableNotifications | src/hooks/use-notifications.ts:76-78 | disabling clears the enabled flag, stores it, and changes nothing else |
| Notifications.EnableThenDisable | src/hooks/use-notifications.ts:64-78 | disabling after enabling returns the settings to what they were |
| Notifications.SendNotification | src/hooks/use-notifications.ts:80-97 | a notification is shown exactly when supported, permitted and enabled (and the browser constructs it), with the given title and options and the app icon for any icon or badge not given |
| Notifications.AlertTag | src/hooks/use-notifications.ts:114 | an alert's tag is the prefix followed by the item name |
| Notifications.AlertTagInjective | src/hooks/use-notifications.ts:114 | alerts for different item names carry different tags |
| Notifications.SendExpirationAlert | src/hooks/use-notifications.ts:99-119 | an alert is shown exactly when expiry alerts are on and a notification may be shown; it carries the English title and body of the API-key job, the item's tag, and stays on screen from one day before expiry on |
| Notifications.AlertsTellDaysApart | src/hooks/use-notifications.ts:103-116 | two shown alerts for one item that look the same are for the same day-count, except that all expired counts look alike |
| PushWorker.DisplayTitle | public/push-sw.js:11 | the shown title starts with the app's name and ends with the message's title, and equals it exactly when the message's title already names the app |
| PushWorker.DisplayTitleIdempotent | public/push-sw.js:11 | branding a title twice is branding it once |
| PushWorker.OrDefault | public/push-sw.js:19-22 | a missing or empty field takes its default, any other keeps its value |
| PushWorker.OnPush | public/push-sw.js:3-30 | a message without data or a title shows nothing; otherwise the branded title, the body, the url or the root, the actions or none, the tag or the default tag, staying on screen only when asked, never silent |
| PushWorker.ServerPayloadShown | public/push-sw.js:3-30 | every alert the server sends is shown with its branded title, body, url, tag and on-screen flag |
| PushWorker.FirstAppWindow | public/push-sw.js:41-46 | the window chosen is the first one that belongs to the app and can take focus, and none is chosen when no such window is open |
| PushWorker.ClickUrl | public/push-sw.js:35 | a click leads to the notification's url, or the root when it has none |
| PushWorker.OnClick | public/push-sw.js:32-53 | a click navigates the first open app window when there is one, else opens a new window when that is possible, else does nothing; the target is the notification's url |
| PushWorker.ClickFollowsShownUrl | public/push-sw.js:19-35 | clicking a shown notification leads to the url it was shown with, never an empty one |
| PushClient.Padding | src/hooks/use-push-notifications.ts:208 | the padding is fewer than four `=` characters and brings the key's length to a multiple of four |
| PushClient.PaddingSettles | src/hooks/use-push-notifications.ts:208 | a padded key needs no further padding |
| PushClient.ToStandard | src/hooks/use-push-notifications.ts:209 | every `-` becomes `+` and every `_` becomes `/`, all other characters unchanged |
| PushClient.ToUrlSafe | src/hooks/use-push-notifications.ts:209 | the url-safe spelling holds no `+` or `/` |
| PushClient.AlphabetRoundTrip | src/hooks/use-push-notifications.ts:209 | switching a url-safe key to the standard alphabet loses nothing: switching back gives the key again |
| PushClient.AtobInput | src/hooks/use-push-notifications.ts:207-210 | the text decoded is the key padded to a multiple of four, at most three characters longer, in the standard alphabet |
| PushClient.ToUint8 | src/hooks/use-push-notifications.ts:213 | a byte cell keeps any value below 256 as it is |
| PushClient.CharCodes | src/hooks/use-push-notifications.ts:211-215 | the key's bytes are the decoded characters' codes, one per character, reduced modulo 256 |
| PushClient.BinaryString | src/hooks/use-push-notifications.ts:221-224 | the binary string holds one character per byte, each the character of that byte's code |
| PushClient.KeyToBase64 | src/hooks/use-push-notifications.ts:218-226 | a missing key is the empty string; otherwise the result is the base64 encoding of the key's binary string |
| PushClient.BytesRoundTrip | src/hooks/use-push-notifications.ts:211-224 | turning bytes into a binary string and reading its character codes back gives the same bytes |
| PushClient.CheckSupport | src/hooks/use-push-notifications.ts:23-69 | the check always ends loading; unsupported browsers only record that; otherwise the subscription status and permission are taken on success, or an error message is set on failure |
| PushClient.Subscribe | src/hooks/use-push-notifications.ts:71-139 | subscribing succeeds exactly when permission is granted and every later step succeeds, ending subscribed with no error; a refusal records the browser's answer and the denial message; any failure keeps the old subscription status and sets an error |
| PushClient.Unsubscribe | src/hooks/use-push-notifications.ts:141-178 | unsubscribing succeeds exactly when no step fails, ending unsubscribed with no error; a failure keeps the subscription status and sets an error; support and permission never change |
| PushClient.SendTestNotification | src/hooks/use-push-notifications.ts:180-196 | a test send succeeds exactly when nothing failed and then changes nothing; a failure sets the server's error text, or the fixed message |
| PushClient.RefusalKeepsSubscription | src/hooks/use-push-notifications.ts:76-85 | a refused permission neither subscribes nor unsubscribes |
| PushClient.SubscribeThenUnsubscribe | src/hooks/use-push-notifications.ts:71-178 | unsubscribing after a successful subscribe leaves no subscription and no error, with permission granted |
| StashContext.Fetch | src/lib/stash-context.tsx:32-62 | signed out, the list and selection are cleared; a failed fetch keeps the old state; otherwise the list is the response, the remembered stash is selected when listed, else the first one is selected and remembered; an empty list keeps the old selection; loading always ends |
| StashContext.FetchSettles | src/lib/stash-context.tsx:32-62 | fetching the same list again selects the same stash |
| StashContext.SetCurrentStash | src/lib/stash-context.tsx:69-72 | choosing a stash selects and remembers it, list unchanged |
| StashContext.ChoiceSurvivesRefresh | src/lib/stash-context.tsx:48-52 | a chosen stash stays selected after a refresh as long as it is still listed |
| StashContext.CreateStash | src/lib/stash-context.tsx:79-97 | a created stash is appended to the list, selected and remembered; a failed creation changes nothing |
| StashContext.OperationsKeepConsistent | src/lib/stash-context.tsx:32-97 | fetching, creating, and choosing a listed stash keep the selected stash the remembered one whenever a stash is selected |
| SetupGuide.Steps | src/hooks/use-setup-guide.ts:63-84 | the guide lists the account step, always complete, then the install step exactly when the platform supports installing, then the notifications step, complete when subscribed |
| SetupGuide.Summarize | src/hooks/use-setup-guide.ts:61-88 | two or three steps with at least one complete; the guide is complete exactly when every step is, that is when subscribed and, where installing is supported, installed; the install hint shows exactly when installing is supported but not done |
| SetupGuide.CountAll | src/hooks/use-setup-guide.ts:86-88 | with the account step complete at least one step counts, and the count reaches the total exactly when every step is complete |
| SetupGuide.CountAllFrom | src/hooks/use-setup-guide.ts:86-88 | the completed count equals the number of steps exactly when every step is complete |
| SetupGuide.Loading | src/hooks/use-setup-guide.ts:89 | the guide is loading until storage has been read and both statuses have loaded |
| SetupGuide.Initial | src/hooks/use-setup-guide.ts:31-32 | before storage is read the guide counts as dismissed, so it does not flash up |
| SetupGuide.Load | src/hooks/use-setup-guide.ts:37-44 | after reading storage the guide is dismissed exactly when the stored text is true |
| SetupGuide.Dismiss | src/hooks/use-setup-guide.ts:46-51 | dismissing hides the guide |
| SetupGuide.Reset | src/hooks/use-setup-guide.ts:53-58 | resetting shows the guide again |
| SetupGuide.DismissalSurvivesReload | src/hooks/use-setup-guide.ts:37-58 | a dismissal is still in force after a reload, and a reset is too |
| Lightbox.Open | src/components/items/item-lightbox.tsx:39-40 | the viewer opens on the requested photo with no load failure |
| Lightbox.PreviousIndex | src/components/items/item-lightbox.tsx:46-49 | stepping back from any photo but the first goes to the one before |
| Lightbox.NextIndex | src/components/items/item-lightbox.tsx:51-54 | stepping forward from any photo but the last goes to the one after |
| Lightbox.StepsStayInRange | src/components/items/item-lightbox.tsx:46-54 | both steps stay among the photos and wrap around at the ends, as steps modulo the number of photos |
| Lightbox.StepsInverse | src/components/items/item-lightbox.tsx:46-54 | stepping forward undoes stepping back and the other way round |
| Lightbox.ForwardAdd | src/components/items/item-lightbox.tsx:51-54 | a steps forward then b steps forward are a plus b steps forward |
| Lightbox.ForwardBelow | src/components/items/item-lightbox.tsx:51-54 | short of the last photo, k steps forward are k places on |
| Lightbox.FullTurnReturns | src/components/items/item-lightbox.tsx:51-54 | going forward once round all the photos returns to the photo shown |
| Lightbox.GoToPrevious | src/components/items/item-lightbox.tsx:46-49 | the back arrow clears a failed load and stays among the photos, at the photo whose next is the one shown |
| Lightbox.GoToNext | src/components/items/item-lightbox.tsx:51-54 | the forward arrow clears a failed load and stays among the photos, at the photo whose previous is the one shown |
| Lightbox.PhotoUrl | src/components/items/item-lightbox.tsx:42-43 | the viewer has an address to load exactly when the index names a photo |
| Lightbox.Render | src/components/items/item-lightbox.tsx:44-121 | arrows and the position counter appear only for several photos, the counter shows the one-based position out of the total, and the image shows exactly when there is an address and no load failure |
| ScanDialog.NonEmpty | src/components/items/scan-verify-dialog.tsx:85-91 | empty text is handed on as absent, other text as it is |
| ScanDialog.SetOpen | src/components/items/scan-verify-dialog.tsx:75-83 | opening the dialog loads every proposed field, absent text as empty; closing changes no field |
| ScanDialog.GetFormData | src/components/items/scan-verify-dialog.tsx:85-91 | the fields are handed on as held, with an empty description or date handed on as absent |
| ScanDialog.UneditedRoundTrip | src/components/items/scan-verify-dialog.tsx:75-91 | saving without edits hands on exactly the fields proposed, when none of them is empty text |
| ScanDialog.Decrement | src/components/items/scan-verify-dialog.tsx:113-115 | the minus button lowers the quantity by one only above one and changes nothing else |
| ScanDialog.Increment | src/components/items/scan-verify-dialog.tsx:117-119 | the plus button raises the quantity by one and changes nothing else |
| ScanDialog.StepperKeepsPositive | src/components/items/scan-verify-dialog.tsx:113-119 | the buttons keep a positive quantity positive, and minus undoes plus |
| ScanDialog.Confirm | src/components/items/scan-verify-dialog.tsx:93-101 | saving always ends the save; the dialog closes exactly when the save handler succeeded, and the fields are kept |
| ScanDialog.ConfirmAndAddNew | src/components/items/scan-verify-dialog.tsx:103-111 | saving and adding another leaves the dialog open with its fields; without that handler nothing happens |
| ItemForm.Errors | src/components/items/item-form.tsx:30-36 | the form reports a missing name exactly when the name is empty, an invalid category exactly when the text is not a category name, and a too-small quantity exactly when it is below one |
| ItemForm.Validate | src/components/items/item-form.tsx:30-36 | the schema accepts exactly a non-empty name, a known category and a quantity of at least one, keeping every value; otherwise it reports the field errors |
| ItemForm.CategoryOptions | src/components/items/item-form.tsx:140 | the category select offers the eight category names in declaration order |
| ItemForm.OptionsAccepted | src/components/items/item-form.tsx:33-140 | every category the select offers is one the schema accepts |
| Text.OrEmpty | src/components/items/item-form.tsx:72-76 | a missing prefilled text becomes the empty string, a present one stays |
| ItemForm.ResetValues | src/components/items/item-form.tsx:60-77 | opening fills each field from the prefill or its default (empty texts, category other, quantity one for a missing or zero quantity) |
| ItemForm.OpenedValuesValid | src/components/items/item-form.tsx:69-79 | a form opened from a named item with a non-negative quantity, or none, passes the schema |
| ItemForm.ReadQuantity | src/components/items/item-form.tsx:163 | a typed quantity that does not parse, or parses to zero, is read as one; any other is kept |
| ItemForm.SetOpen | src/components/items/item-form.tsx:69-79 | opening resets the values to the prefilled ones, which a later bare reset returns to; closing keeps them |
| ItemForm.Submit | src/components/items/item-form.tsx:81-90 | a form the schema rejects is not submitted and does not change; an accepted one hands its validated values on, then closes and resets to the last opening values on success, or stays open on failure |
| Camera.ResetState | src/components/photos/camera-capture.tsx:44-52 | clearing removes every picture, returns to the front slot, marks the camera not started, and clears the error and the processing flag; the stream is left alone |
| Camera.StopCamera | src/components/photos/camera-capture.tsx:68-74 | stopping releases the stream and marks the camera stopped, keeping the pictures |
| Camera.StartCamera | src/components/photos/camera-capture.tsx:54-66 | a granted camera starts streaming with the error cleared; a refused one records the camera error and changes nothing else |
| Camera.Store | src/components/photos/camera-capture.tsx:108-121 | in two-step mode the first picture fills the front and moves to the expiration slot, the second fills the expiration slot and stops the camera; in single mode the picture is held, stopping the camera when taken from it |
| Camera.CapturePhoto | src/components/photos/camera-capture.tsx:97-124 | a frame taken from the camera is stored and in single mode stops the camera; without a frame nothing changes |
| Camera.UploadFile | src/components/photos/camera-capture.tsx:126-147 | a chosen file is stored like a frame except that in single mode the camera keeps running; without a file nothing changes |
| Camera.TwoStepFillsBothSlots | src/components/photos/camera-capture.tsx:108-117 | two pictures in a row in two-step mode fill the front and the expiration slot and stop the camera |
| Camera.RetakeSlot | src/components/photos/camera-capture.tsx:149-159 | retaking clears only the chosen slot's picture and moves to that slot; a running stream is kept |
| Camera.SkipExpiration | src/components/photos/camera-capture.tsx:161-163 | skipping the expiration picture stops the camera and keeps all pictures |
| Camera.Payload | src/components/photos/camera-capture.tsx:174 | a data URL's payload exists exactly when the URL has a comma, and holds no comma |
| Camera.PayloadOfDataUrl | src/components/photos/camera-capture.tsx:174-193 | for a data URL of a header and a payload without commas, the payload handed on is exactly the payload |
| Camera.Confirm | src/components/photos/camera-capture.tsx:165-205 | without a picture nothing is handed on. Once the pictures are read back into files, the front (or single) payload is handed on, with the expiration payload if one was taken; if reading them fails nothing is handed on. When the page's handler also resolves the dialog is cleared and closed; otherwise it records the processing error and stays open |
| Camera.Close | src/components/photos/camera-capture.tsx:207-211 | closing stops the camera and clears every picture, the slot, the error and the processing flag |
| Camera.SetOpen | src/components/photos/camera-capture.tsx:84-95 | opening starts the camera only when it has no stream and no picture is held; closing stops and clears everything |
| Camera.ClosedCannotSubmit | src/components/photos/camera-capture.tsx:207-213 | after closing there is nothing to confirm in either mode |
| Header.FirstChars | src/components/layout/header.tsx:27-28 | one first character per non-empty part, in order; empty parts contribute nothing |
| Header.Initials | src/components/layout/header.tsx:24-30 | with a name, at most one initial per space-separated part; without one, the upper-cased first character of the email; without either, U |
| Header.InitialsOfWords | src/components/layout/header.tsx:24-29 | a name of words separated by single spaces gives exactly the upper-cased first letter of each word |
| Header.SpacesOnlyName | src/components/layout/header.tsx:24-29 | a name made only of spaces gives empty initials, and the email and U fallbacks are not used |
| Logo.AllCells | src/components/ui/animated-logo.tsx:36-50 | the cells are the 64 grid positions row by row, each primary exactly when the grid marks it |
| Logo.KeysDistinct | src/components/ui/animated-logo.tsx:43 | different cells have different keys |
| Logo.FourteenPrimaries | src/components/ui/animated-logo.tsx:7-16 | the letter P is drawn by fourteen cells |
| Logo.PickIndex | src/components/ui/animated-logo.tsx:55 | a random draw in [0, 1) picks an index from zero up to the current position |
| Logo.Shuffle | src/components/ui/animated-logo.tsx:52-59 | the shuffle returns a permutation of its input, making one swap per position from the last down to the second, each with a position at or before it |
| Logo.ShuffledCellsKeepLetter | src/components/ui/animated-logo.tsx:36-59 | however the cells are shuffled, fourteen of them draw the letter |
| Text.Trim | src/app/api/stashes/route.ts:53-63 | the trimmed name is a stretch of the original with only whitespace cut from either end, and it neither starts nor ends with whitespace |
| Text.TrimOfTrimmed | src/app/api/stashes/route.ts:63 | trimming a trimmed name changes nothing |
| Text.Lower | src/app/api/auth/forgot-password/route.ts:21 | lowercasing keeps the length and lowers each letter in place |
| Text.Upper | src/components/layout/header.tsx:29 | uppercasing keeps the length and raises each letter in place |
| Text.Split | src/components/layout/header.tsx:26 | splitting at a character gives at least one part, none holding that character, and the whole string when it does not occur |
| Text.JoinSplit | src/components/layout/header.tsx:26 | joining the parts of a split with the same character gives the string back |
| Text.SplitJoin | src/components/layout/header.tsx:26 | splitting a join of parts without the separator gives the parts back |
| Text.IndexOf | src/lib/anthropic.ts:141 | the first occurrence of a character: it is there and nowhere before, or it is nowhere at all |
| Text.LastIndexOf | src/app/api/photos/upload/route.ts:40 | the last occurrence of a character: it is there and nowhere after, or it is nowhere at all |
| Text.NatToDecimal | src/app/api/cron/check-expiring/route.ts:108 | a count is written with at least one decimal digit, and with exactly one below ten |
| Text.DecimalRoundTrip | src/app/api/cron/check-expiring/route.ts:108 | the digits written for a count read back as that count |
| Text.NatToDecimalInjective | src/app/api/push/check-expiring/route.ts:84 | different counts are written differently |
| Text.IntToDecimal | src/app/api/push/check-expiring/route.ts:84 | a negative number is written as a minus sign followed by its magnitude, any other as its digits |
| Expiration.CeilDiv | src/types/index.ts:55-56 | the rounded-up quotient is the least whole number whose multiple of the divisor reaches the dividend |
| Expiration.CeilDivMonotonic | src/types/index.ts:55-56 | a larger time left never rounds up to fewer days |
| Ordering.SortBy | src/app/api/items/route.ts:69-72 | ordering a query's rows keeps exactly the same rows and puts them in the requested order |
| Ordering.LexLeTotal | src/app/api/checklist/route.ts:58 | ordering by name compares any two names |
| Ordering.LexLeTransitive | src/app/api/checklist/route.ts:58 | ordering by name is transitive |
| Ordering.LexLeAntisymmetric | src/app/api/checklist/route.ts:58 | two names each ordered before the other are the same name |
| Delivery.Successes | src/app/api/push/test/route.ts:101 | the number of successful sends is at most the number of sends |
| Store.SubscriptionsOf | src/app/api/push/test/route.ts:17-19 | the subscriptions found for a user are exactly the rows registered by that user |
| Store.KeepSubscriptions | src/app/api/cron/check-expiring/route.ts:161-163 | deleting subscription rows keeps exactly the rows whose ids are kept and touches no other table |
| Store.KeptIff | src/app/api/cron/check-expiring/route.ts:161-163 | a row stays exactly when it was in the table and its id is kept |
| Store.KeptIds | src/app/api/cron/check-expiring/route.ts:161-163 | keeping a set of existing ids leaves exactly those ids in the table |

## Left out

- Database, ORM and sessions. The database becomes an immutable `Store` of tables and the session an optional user id. Query failures, transactions and foreign-key checks are not modelled, so the generic 500 answer appears only where a handler calls an outside service that is given as a parameter.
- Database text search. Prisma's case-insensitive `contains` filter is modelled as an ASCII case-folded substring test; SQL wildcards and collation are not modelled.
- Sort tie order. The name and date orderings follow code-point ("C" collation) order. Rows that compare equal come out in no particular order, because the database promises none.
- Clock and calendar. Times are integer milliseconds. The seven-day window is a fixed 7 × 86 400 000 ms, so the daylight-saving shift of a calendar-day `setDate` is not modelled.
- Expiration.DaysUntil: the day count is the exact integer ceiling of the time left over one day. JavaScript divides in floating point before `Math.ceil`, and that rounding is not modelled.
- Text.Trim, Text.Lower, Text.Upper: whitespace and case mapping cover ASCII only; JavaScript's Unicode tables are not modelled.
- Translations.TableEntry: only the entries the modelled components look up are transcribed. These are the application name, the eight categories, the three roles and the expiration-badge strings. The statement that every entry has both texts covers those entries only, because the rest of the 1 300-line table is plain data.
- Randomness. `randomBytes`, `randomUUID`, `Math.random` and bcrypt hashing are parameters, and the Fisher–Yates shuffle takes its draws as a function.
- Browser and platform APIs. `atob`, `btoa`, `FileReader`, canvas, `getUserMedia`, `localStorage`, the Notification API and the service-worker `clients` API are parameters or recorded as effects. `atob` is taken as already applied to well-formed input.
- Push encryption. VAPID signing and payload encryption in src/lib/web-push.ts are replaced by an oracle that answers each send with success, 410 Gone or another error.
- The vision model. The Anthropic SDK call and `JSON.parse` are parameters: the model's reply blocks and the parser's verdict are inputs.
- Outside services. Object storage (src/lib/minio.ts) and the email service (src/lib/resend.ts) are parameters answering success or failure. The HTML email templates in src/lib/emails.ts are not part of this model, because their only variable content is locale date formatting.
- Settings storage. `localStorage` settings are read back whole. A stored settings object with missing fields is not modelled.
- Concurrency. The test sender sends with `Promise.all`, and the model runs its sends one after another. The outcome counts are the same, because each send's outcome is independent of the others. Re-runs of the scheduled jobs are not modelled either.
- Client environment detection and animation. src/hooks/use-pwa-status.ts (user-agent and media-query sniffing) is left out, along with the logo's timers, shimmer intervals and per-cell delays.
- Rendering and configuration. Layout components, navigation configuration and providers hold no logic beyond one-line conditionals.
- Other handlers. The handlers under `[id]` paths (single items, photos, stashes, members, invitations) are not part of this model.

## Findings

| source | as written | input that shows it | evidently intended | confidence | as-written member | corrected member |
|---|---|---|---|---|---|---|
| src/lib/web-push.ts:38-41 | without configured keys, the push helper answers "subscription gone". Both expiry jobs and the test sender then delete every subscription they try (src/app/api/cron/check-expiring/route.ts:158-163, src/app/api/push/check-expiring/route.ts:89-97, src/app/api/push/test/route.ts:89-92) | any run of a job or a test send while the keys are unset | report a failed send and keep the subscription | high, not executed | Delivery.UnconfiguredKeysPurge | Delivery.UnconfiguredKeysKeep |
| src/app/api/ai/analyze/route.ts:39-44 | the handler never passes the client's `language` on, so the vision prompt is always in English | a request with `language: "da"` | answer in the language the client asked for | high, not executed | AnalyzeRoute.DanishRequestIgnored | AnalyzeRoute.LanguageFollowsClient |
| src/app/api/auth/register/route.ts:18-33 | registration stores and compares the email as typed, but password reset looks it up lower-cased | registering `Ann@x.dk`, then asking for a reset for the same address | one account per address regardless of case, reachable by reset | medium, not executed | AuthRoutes.MixedCaseAccountCannotReset | AuthRoutes.RegisteredAccountCanReset |
| src/app/api/photos/upload/route.ts:35-37 | the upload handler admits only the item's recorded creator, but the items handler (src/app/api/items/route.ts:115-123) never records one | any item created through the items endpoint, then a photo upload for it by its creator | admit the members of the item's stash, as the single-photo endpoint does (src/app/api/photos/[id]/route.ts:7-11). Another reading is just as plausible: the items handler should record the creator's `userId`, which the single-item endpoints (src/app/api/items/[id]/route.ts:28, 64, 116) also test | medium, not executed | UploadRoute.CreatedItemRefusesUpload | UploadRoute.CreatedItemAcceptsUpload |
