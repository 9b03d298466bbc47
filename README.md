# wpp-dashboard core, modelled in Dafny

wpp-dashboard is a WhatsApp Business console. Operators chat with contacts, tag and assign
conversations, and send template campaigns to a CSV list of numbers. The provider's webhook
stores every inbound message and status.

This project models the logic of that core and proves what it promises:

- the contact resolver (exact, suffix, prefix-strip with upgrade, create);
- the webhook handler (handshake, opt-out keywords, contact upsert, find-or-create of the
  conversation, the message upsert on its provider id, the summary update, first reply wins,
  status overwrite);
- the tags and campaigns API routes (name normalisation, validation, the write sequence, the
  replied count);
- the campaign page's helpers (CSV parsing, template variable extraction, recipient building,
  the partial-send count);
- the pure list updates of the chat window, the conversation list and the dashboard;
- conversation formatting, the message bubble, and the route guard.

## Layout

| file | module | models |
|---|---|---|
| wrappers.dfy | Wrappers | `Option` |
| text.dfy | Text | ASCII whitespace, `trim`, `replace(/\s+/g, " ")`, `toLowerCase`, decimal rendering |
| lists.dfy | Lists | filter, toggle and subsequence facts shared by the UI modules |
| types.dfy | Types | the UI-side records (conversation, message, tag) |
| store.dfy | Store | the database. The `Tables` snapshot holds one `seq` of rows per table, a shared id counter and the set of failing tables. `Db` is the class whose fields the handlers update; it also holds the tag and template upserts. |
| contacts.dfy | Contacts | `findOrCreateContact` (lib/contacts.ts) |
| webhook.dfy | Webhook | GET and POST of app/api/webhook/route.ts |
| tags_route.dfy | TagsRoute | app/api/tags/route.ts |
| campaigns_route.dfy | CampaignsRoute | app/api/campaigns/route.ts |
| campaigns_page.dfy | CampaignsPage | the page's helpers: `parseCSV`, `extractAllTemplateVars`, `buildRecipients`, `handleSend` and the count clamp |
| chat_window.dfy | ChatWindow | components/ChatWindow.tsx |
| conversation_list.dfy | ConversationList | components/ConversationList.tsx |
| dashboard_page.dfy | DashboardPage | app/dashboard/page.tsx |
| conversations_lib.dfy | ConversationsLib | lib/conversations.ts |
| message_bubble.dfy | MessageBubble | components/MessageBubble.tsx |
| middleware.dfy | Middleware | middleware.ts |

The imperative handlers are modelled as methods on `Store.Db`:

- `FindOrCreateContact` keeps the strip loop;
- `Webhook.Post` keeps the nested loops over entries, changes, messages and statuses;
- `TagsRoute.Post` and `CampaignsRoute.Post` keep the early returns;
- `CampaignsPage.ExtractAllTemplateVars` keeps its loops and the set of seen numbers.

Each method is proved equal to a function on the table snapshot. The lemmas state their
properties about that function.

A failing table (a member of `down`) behaves as follows:

- a select on it finds nothing;
- an unchecked write does nothing;
- a checked write returns an error.

This models the paths where the handlers `continue` or answer 500.

## Model

| member | source | states |
|---|---|---|
| Contacts.FindOrCreateContact | lib/contacts.ts:16-81 | The table, the counter and the returned contact after the tier queries, the strip loop over 2, 3, 1 and the insert are those of the resolution of the old table. A failing table returns null and changes nothing. The store's constraints hold afterwards. |
| Contacts.ExactQuery | lib/contacts.ts:22-26 | With unique phones the exact query matches a single row exactly when some row holds the phone. |
| Contacts.LookupCases | lib/contacts.ts:22-71 | Which row each tier finds, and that every earlier tier missed. |
| Contacts.ExactMatchWins | lib/contacts.ts:22-34 | A stored phone equal to the given one is returned whatever else is stored. No phone changes, and the name is written only when one is given and the stored one is blank. |
| Contacts.UniqueSuffixMatch | lib/contacts.ts:38-50 | With no exact match, the single row whose phone ends with the given one is returned. It keeps its longer phone, and only a blank name is filled. |
| Contacts.AmbiguousSuffixFallsThrough | lib/contacts.ts:38-50 | Two stored phones ending with the given one make the suffix tier find nothing. |
| Contacts.StripSearchFinds | lib/contacts.ts:55-71 | The strip search returns the first length in order whose remainder is longer than six characters and is held by one row. Every earlier length missed. A miss means every length missed. |
| Contacts.StrippedTier | lib/contacts.ts:55-71 | On a strip hit the stored row's phone becomes the given phone. The returned row carries it, a present name is kept, and no row is added. |
| Contacts.CreatesOnlyWhenNothingMatches | lib/contacts.ts:74-80 | A contact is inserted exactly when every tier misses. It has the given phone and name (null when none) and the next id, and it is appended. |
| Contacts.ResolveCases | lib/contacts.ts:16-81 | After any resolution the table is the old one with one row updated in place, or the old one with the new row appended. |
| Contacts.ResolveKeepsContacts | lib/contacts.ts:29-80 | No contact is lost or reordered and at most one is added. A stored name is never overwritten and the opt-out flag is untouched. A phone changes only by the strip upgrade. |
| Contacts.ResolvedContact | lib/contacts.ts:16-80 | The returned contact is the stored row, and its phone equals the given phone or ends with it. |
| Contacts.ResolveKeepsTableValid | lib/contacts.ts:16-81 | Ids and phones stay unique and below the counter, and the counter never goes back. |
| Contacts.ResolveTwice | lib/contacts.ts:16-81 | A second resolution of the same number returns the contact the first one returned and adds nothing. |
| Contacts.UpgradeExample | lib/contacts.ts:11-13 | The header comment's example: stored "1167910548" and WhatsApp "541167910548" upgrade the stored phone. |
| Contacts.SuffixExample | lib/contacts.ts:11 | The header comment's example: stored "541167910548" is found by the CSV number "1167910548". |
| Contacts.ShortStoredNotFound | lib/contacts.ts:55-70 | Stored "67910548" is a suffix of "541167910548", yet the lookup misses it: the prefix loop drops only 2, 3 or 1 leading digits. A second contact is created. |
| Webhook.HandshakeAccepts | app/api/webhook/route.ts:22-33 | The challenge is echoed with 200 exactly for mode "subscribe" and a token equal to the configured one. Otherwise the answer is 403 "Forbidden". |
| Webhook.KeywordSetsDisjoint | app/api/webhook/route.ts:4-10 | No keyword is both an opt-out and an opt-in keyword. |
| Webhook.DetectOptChangeMeaning | app/api/webhook/route.ts:12-17 | A text opts out exactly when its trimmed lowercase form is an opt-out keyword. It opts in exactly when that form is an opt-in keyword, and anything else is no change. |
| Webhook.DetectIgnoresPadding | app/api/webhook/route.ts:13 | Surrounding whitespace does not change the outcome. |
| Webhook.DetectIgnoresCase | app/api/webhook/route.ts:13 | Letter case does not change the outcome. |
| Webhook.DetectExample | app/api/webhook/route.ts:5-14 | The text "Stop" is an opt-out. |
| Webhook.ProfileNameFindsFirst | app/api/webhook/route.ts:49-51 | The name comes from the first contact entry whose wa_id is the sender. With no such entry it is null. |
| Webhook.UpsertContactEffect | app/api/webhook/route.ts:54-70 | The row holding the literal phone is replaced in place, keeping its id. It takes the profile name (null erasing a stored name), and an opt-out or opt-in sets its flag while no change keeps it. An unknown phone is appended under the next id, and nothing else changes. |
| Webhook.WebhookKeepsLiteralPhones | app/api/webhook/route.ts:59-70 | A stored short number gets a second contact for the full number: the upsert does not resolve prefixes. |
| Webhook.ConversationQuery | app/api/webhook/route.ts:78-82 | With one conversation per contact, the query matches exactly the contact's conversation when there is one, and nothing otherwise. |
| Webhook.OpenConversation | app/api/webhook/route.ts:78-92 | The store and the conversation after the lookup equal those of find-or-open on the old snapshot. |
| Webhook.PreviewShape | app/api/webhook/route.ts:95-103 | A text previews as its body, or "" when it has none. An image previews as its non-empty caption, else "[Image]". Audio and video preview as "[Audio]" and "[Video]". A document previews as "[Document: name]" with its file name, or "[Document: file]" without one. Any other type t previews as "[t]". |
| Webhook.UpsertInboundEffect | app/api/webhook/route.ts:105-118 | The message upsert keeps ids and provider ids unique. An existing provider id is overwritten in place. |
| Webhook.RecordInbound | app/api/webhook/route.ts:105-146 | Steps 4 to 6 (message upsert, summary, recipient) leave the store as the record function of the old snapshot. |
| Webhook.HandleMessage | app/api/webhook/route.ts:48-147 | One inbound message leaves the store as the message-processing function of the old snapshot. |
| Webhook.HandleStatus | app/api/webhook/route.ts:150-155 | One status update leaves the store as the status function of the old snapshot. |
| Webhook.Post | app/api/webhook/route.ts:36-166 | The store after the nested loops equals the event function of the old snapshot, and its constraints still hold. The answer is always ok. |
| Webhook.MessageToKnownContact | app/api/webhook/route.ts:122-146 | A message from a stored number lands on that contact's conversation as one more unread (null counting as 0), with the preview and time updated. It is unarchived only when archived and campaign-linked, and then the recipient is marked replied. |
| Webhook.MessageFromNewNumber | app/api/webhook/route.ts:54-92 | The first message from an unknown number appends its contact. The name comes from the profile, and it is opted out only by an opt-out keyword. A fresh conversation is also appended: not archived, one unread message, recipients untouched. |
| Webhook.FirstReplyWins | app/api/webhook/route.ts:138-146 | Only the campaign's unreplied rows for the contact get the reply time and status "replied". A row that already has a reply time is left as it is, and so is every other row. |
| Webhook.LaterReplyChangesNothing | app/api/webhook/route.ts:145 | A later reply from the same contact to the same campaign changes nothing. |
| Webhook.StatusOverwrites | app/api/webhook/route.ts:150-155 | A status update rewrites only the status, only of the rows with that provider id, whatever the old status was. |
| Webhook.LastStatusWins | app/api/webhook/route.ts:150-155 | Of two status updates for one message the later wins, even one that moves the status backwards. |
| Webhook.ProcessMessageKeepsValid | app/api/webhook/route.ts:48-147 | Every step of the handler keeps the store's uniqueness and reference constraints. |
| Webhook.StatusKeepsValid | app/api/webhook/route.ts:150-155 | A status update keeps the constraints and the counter, since it rewrites status fields only. |
| Webhook.MessagesKeepValid | app/api/webhook/route.ts:47-148 | The loop over a change's messages keeps the constraints. |
| Webhook.StatusesKeepValid | app/api/webhook/route.ts:150-156 | The loop over a change's statuses keeps the constraints. |
| Webhook.ChangesKeepValid | app/api/webhook/route.ts:42-157 | The loop over an entry's changes keeps the constraints, whether or not it stops. |
| Webhook.EntriesKeepValid | app/api/webhook/route.ts:41-158 | The loop over the entries keeps the constraints. |
| Webhook.HandleEventsKeepsValid | app/api/webhook/route.ts:36-165 | Every POST, whatever its payload, including a body that is not JSON, leaves the constraints holding. |
| Webhook.OtherFieldsSkipped | app/api/webhook/route.ts:43 | A list of changes none of whose fields is "messages" changes nothing and does not stop the run. |
| Webhook.ChangesAppend | app/api/webhook/route.ts:42-157 | Two lists of changes run one after the other, and the second runs only if the first did not stop. |
| Webhook.MissingValueStops | app/api/webhook/route.ts:43-48 | A "messages" change without a value, after skipped changes, stops the run with the store untouched, and no later change runs. |
| Webhook.StoppedRunEnds | app/api/webhook/route.ts:41-158 | Once an entry stops the run, no later entry is applied. |
| Webhook.ProcessMessageKeepsOne | app/api/webhook/route.ts:78-91 | The handler never gives a contact a second conversation. |
| Webhook.MessageIsStoredOnce | app/api/webhook/route.ts:105-118 | After any inbound message its provider id is held by exactly one row, inbound and "delivered". That row is in a conversation of a contact whose phone is the sender's. |
| Webhook.RedeliveryAddsNoRows | app/api/webhook/route.ts:105-136 | A redelivered message adds no contact, conversation or message row. The summary update runs again, so the unread count rises by one. |
| CampaignsRoute.RepliesCounted | app/api/webhook/route.ts:139-146 | Marking a reply raises the campaign's replied count by exactly the contact's unreplied rows and leaves every other campaign's count alone. |
| TagsRoute.NormalizeTagName | app/api/tags/route.ts:5-7 | The normalised name has no surrounding whitespace and no run of two whitespace characters. |
| TagsRoute.NormalizeTagKey | app/api/tags/route.ts:9-11 | The key is trimmed, single-spaced and holds no upper-case letter. |
| TagsRoute.NameKeepsWords | app/api/tags/route.ts:5-7 | Normalising keeps every non-whitespace character of the name, in order. Two trimmed parts with any whitespace run between them come out joined by exactly one space. |
| Text.CollapseSingleSpaced | app/api/tags/route.ts:6 | After the whitespace replacement every whitespace character is a single space, never next to another. |
| Text.CollapseKeepsNonSpace | app/api/tags/route.ts:6 | The whitespace replacement keeps every non-whitespace character, in order. |
| Text.TrimKeepsNonSpace | app/api/tags/route.ts:6 | `trim` keeps every non-whitespace character, in order. |
| Text.CollapseWordBreak | app/api/tags/route.ts:6 | Two words with a whitespace run between them come out as the two words joined by one space. |
| Text.ToLowerCollapse | app/api/campaigns/route.ts:15 | Lowercasing commutes with the whitespace replacement. |
| TagsRoute.NameIdempotent | app/api/tags/route.ts:5-7 | Normalising a normalised name changes nothing. |
| TagsRoute.KeyIdempotent | app/api/tags/route.ts:9-11 | A key is its own key. |
| TagsRoute.KeyIgnoresCase | app/api/tags/route.ts:9-11 | Names that lowercase to the same text get the same key. |
| TagsRoute.KeyIgnoresSpacing | app/api/tags/route.ts:9-11 | Names with the same normalised form get the same key, and a name has the key of its normalised form. |
| TagsRoute.BlankNames | app/api/tags/route.ts:38-40 | A name normalises to "" exactly when it is empty or all whitespace. |
| TagsRoute.RequestedColor | app/api/tags/route.ts:39 | A string colour is kept, and anything else becomes "#00a884". |
| TagsRoute.Post | app/api/tags/route.ts:30-61 | The reply and the tags table after the early returns and the upsert equal those of the POST function on the old snapshot. A body that is not JSON gets the framework's 500. Nothing else changes, and the store's constraints still hold. |
| TagsRoute.RejectedBeforeWrite | app/api/tags/route.ts:35-40 | No user gives 401. With a user, a body that is not JSON gives the 500 of the throwing `request.json()`. A name that is absent, not a string, empty or all whitespace gives 400. Every refusal leaves the table and the counter untouched. |
| TagsRoute.PostKeepsValid | app/api/tags/route.ts:30-61 | Whatever the request, the store's constraints hold after the POST. |
| TagsRoute.SavedTag | app/api/tags/route.ts:42-60 | A saved tag carries the normalised name, the key, the colour and the user, and it is the only tag with its key. An existing key keeps its id and at most one tag is added. |
| TagsRoute.SameKeySameTag | app/api/tags/route.ts:42-57 | Posting a name that differs from a saved one only in case or spacing updates that tag, adding none. |
| Store.UpsertTagEffect | app/api/tags/route.ts:45-57 | The upsert on the key keeps the constraints and at most one tag per key. Nothing else changes. |
| CampaignsRoute.KeysAgree | app/api/campaigns/route.ts:14-16 | This route's key (trim, lowercase, collapse) equals the tags route's key on every name. |
| CampaignsRoute.SameNameSameKey | app/api/campaigns/route.ts:94 | A campaign named like a tag up to case and spacing looks the tag up under its key. |
| CampaignsRoute.RequestedName | app/api/campaigns/route.ts:57 | A string name is trimmed, and anything else becomes "". |
| CampaignsRoute.BlankName | app/api/campaigns/route.ts:57-66 | The name is refused exactly when it is not a string, or is empty or all whitespace. |
| CampaignsRoute.TemplateColumns | app/api/campaigns/route.ts:75-82 | The template row has the given name and meta id and status "APPROVED". Language "es_AR", no category and no components are the defaults when not given. |
| CampaignsRoute.NewCampaign | app/api/campaigns/route.ts:111-119 | A new campaign is a draft with zero sent, delivered and read counts. |
| CampaignsRoute.Post | app/api/campaigns/route.ts:51-128 | The reply and the store after validation and the three writes equal those of the POST function on the old snapshot. A body that is not JSON gets the framework's 500. `pick` stands for the random colour. The store's constraints still hold afterwards. |
| CampaignsRoute.Write | app/api/campaigns/route.ts:72-127 | The writes with their early returns equal the write function. |
| CampaignsRoute.ValidationWritesNothing | app/api/campaigns/route.ts:54-67 | No user gives 401. With a user, a body that is not JSON gives the 500 of the throwing `request.json()`. A blank name or a missing template name gives 400, and nothing is written. |
| CampaignsRoute.PostKeepsValid | app/api/campaigns/route.ts:51-128 | Whatever the request, the store's constraints hold after the POST. |
| CampaignsRoute.FailureStopsLaterSteps | app/api/campaigns/route.ts:88-125 | Each failed write answers 500 and no later step runs. What was written before stays, since there is no rollback. |
| CampaignsRoute.CreatedDraft | app/api/campaigns/route.ts:72-127 | A created campaign is appended as a draft with zero counts and the given name, and the reply's replied count is 0. It points at the only template with the requested name and at the only tag with the name's key. |
| CampaignsRoute.ReusesStoredTag | app/api/campaigns/route.ts:95-102 | A tag already stored under the key keeps its id, and no tag is added. |
| CampaignsRoute.WritesKeepValid | app/api/campaigns/route.ts:72-125 | The writes keep the store's constraints, whichever step fails. |
| CampaignsRoute.ListCampaigns | app/api/campaigns/route.ts:19-47 | No user gives 401, and a failing campaigns table gives 500. Otherwise there is one entry per campaign, and entry i carries campaign i. |
| CampaignsRoute.ListedCounts | app/api/campaigns/route.ts:34-44 | Entry i is campaign i with the number of its recipient rows whose `replied_at` is set. That is at most the campaign's recipients, and 0 for every campaign when the count query fails. |
| CampaignsRoute.RepliedCountIsIndices | app/api/campaigns/route.ts:34-40 | The count query's result is the number of positions holding a replied row of the campaign. |
| CampaignsPage.SplitJoin | app/dashboard/campaigns/page.tsx:45 | Joining the split pieces with the separator gives the text back. |
| CampaignsPage.SplitLinesPlain | app/dashboard/campaigns/page.tsx:43 | On text without carriage returns, line splitting is splitting on "\n". |
| CampaignsPage.ParsedLines | app/dashboard/campaigns/page.tsx:43 | Every line the parser reads is non-empty and holds no line break. |
| CampaignsPage.BlankCsv | app/dashboard/campaigns/page.tsx:43-44 | Empty or blank text parses to no headers and no rows. |
| CampaignsPage.CsvRows | app/dashboard/campaigns/page.tsx:45-52 | The headers are the cells of the first line. There is one row per later line, in order, built from that line's cells. |
| CampaignsPage.RowKeys | app/dashboard/campaigns/page.tsx:48-49 | The keys of a parsed row are exactly the headers. |
| CampaignsPage.RowValues | app/dashboard/campaigns/page.tsx:47-49 | Each header takes the value in its column, or "" when the line is shorter. Extra values are dropped. |
| CampaignsPage.PlaceholderOfNumber | app/dashboard/campaigns/page.tsx:64-65 | A lone `{{n}}` written with a number scans back as that number. |
| CampaignsPage.NoPlaceholders | app/dashboard/campaigns/page.tsx:64 | Text without "{{" has no placeholders. |
| CampaignsPage.DedupShape | app/dashboard/campaigns/page.tsx:63-66 | Keeping each number once keeps every number and only those, and orders them by first occurrence. |
| CampaignsPage.ExtractAllTemplateVars | app/dashboard/campaigns/page.tsx:56-94 | The loop over the components yields the template's variables, component by component. |
| CampaignsPage.CollectNumbered | app/dashboard/campaigns/page.tsx:63-67 | The loop with a set of seen numbers yields one variable per distinct number, in first-occurrence order. |
| CampaignsPage.CollectButtons | app/dashboard/campaigns/page.tsx:79-89 | The `forEach` yields the variables of the dynamic URL buttons, in order. |
| CampaignsPage.TextComponentVars | app/dashboard/campaigns/page.tsx:62-76 | A TEXT-format header or a body with text yields one variable per distinct `{{n}}`, in first-occurrence order. Its key is `header_n` or `body_n`, and keys are distinct. |
| CampaignsPage.NumberedKeysDiffer | app/dashboard/campaigns/page.tsx:66 | Different numbers give different keys. |
| CampaignsPage.ButtonComponentVars | app/dashboard/campaigns/page.tsx:78-90 | A BUTTONS component yields one variable (number 1, key `button_idx_1`, index its position) for each dynamic URL button, in declaration order, and none for the other buttons. |
| CampaignsPage.DynamicUrlCases | app/dashboard/campaigns/page.tsx:81-85 | A button is dynamic exactly when it is a URL button and its url type is DYNAMIC, or it has an example array, or its url holds "{{". |
| CampaignsPage.OtherComponentVars | app/dashboard/campaigns/page.tsx:59-91 | A component of any other type yields no variables. |
| CampaignsPage.SortShape | app/dashboard/campaigns/page.tsx:268-269 | The sort orders by number and is a permutation. |
| CampaignsPage.GroupShape | app/dashboard/campaigns/page.tsx:268-270 | Every variable lands in exactly one group. The header and body groups are sorted by number, and the button group keeps its order. |
| CampaignsPage.RecipientsOfRows | app/dashboard/campaigns/page.tsx:272-302 | The recipients are the rows with a phone, in order, one each. |
| CampaignsPage.RecipientPhones | app/dashboard/campaigns/page.tsx:274-275 | Every recipient's phone is non-empty and all digits: the digits of its row's phone cell. |
| CampaignsPage.RowWithoutPhone | app/dashboard/campaigns/page.tsx:274-275 | A row whose phone cell holds no digit adds no recipient. |
| CampaignsPage.BlocksShape | app/dashboard/campaigns/page.tsx:277-300 | The components are absent exactly when there are no variables. Otherwise they are a header block, then a body block (each only when it has variables), then one block per button variable in order. |
| CampaignsPage.ComponentsPresence | app/dashboard/campaigns/page.tsx:263-300 | A template without variables sends no components. One with variables sends them to every recipient. |
| CampaignsPage.ClampSendCount | app/dashboard/campaigns/page.tsx:730 | With rows, the count lies between 1 and the row count. An input in range is kept, a larger one becomes the row count, and a missing, zero or negative one becomes 1. |
| CampaignsPage.RowsToSend | app/dashboard/campaigns/page.tsx:311 | The rows sent are exactly the first ones, as many as the count the page shows. |
| CampaignsPage.SendRequestShape | app/dashboard/campaigns/page.tsx:306-318 | A request goes out exactly when the guard passes, naming the campaign and the mode. It holds one recipient per row with a phone among the first rows counted, in order. |
| ChatWindow.UpsertAppendsNew | components/ChatWindow.tsx:20-24 | With no match `next` is appended: one more element, `next` last, the others untouched. |
| ChatWindow.UpsertReplacesFirstMatch | components/ChatWindow.tsx:25-27 | With a match the first matching position is replaced, and nothing else moves. |
| ChatWindow.UpsertWithoutWamid | components/ChatWindow.tsx:22 | A message without a provider id can only match by id. |
| ChatWindow.UpsertIdempotent | components/ChatWindow.tsx:20-28 | Delivering the same realtime insert twice leaves the list as after the first. |
| ChatWindow.RealMessageDoesNotReplacePlaceholder | components/ChatWindow.tsx:20-28 | The realtime copy of a sent message is appended beside the optimistic placeholder, not in its place. |
| ChatWindow.NextTagsSelectsById | components/ChatWindow.tsx:75-79 | The optimistic tags are the known tags, in their order, whose id was selected. |
| Lists.ToggleTwice | components/ChatWindow.tsx:75-78 | Toggling an id twice restores the same set of ids, and the same list when the id was absent. |
| ChatWindow.ApplyUpdateReplacesById | components/ChatWindow.tsx:152-155 | A realtime update replaces exactly the messages with the payload's id. |
| ChatWindow.MarkFailedOnlyTouchesPlaceholder | components/ChatWindow.tsx:201-203 | A failed send marks only the placeholder "failed". |
| ChatWindow.CleanupKeeps | components/ChatWindow.tsx:211-213 | The cleanup keeps, in order, exactly the messages that are not the still-sending placeholder. |
| ChatWindow.SendThenCleanupRestores | components/ChatWindow.tsx:211-213 | A send with nothing interleaved leaves the list as before once cleaned up. |
| ChatWindow.FailedPlaceholderSurvivesCleanup | components/ChatWindow.tsx:201-213 | A failed placeholder survives the cleanup. |
| ConversationList.FilteredIsOrderedSelection | components/ConversationList.tsx:70-86 | The shown list is the input with the hidden conversations left out, in order. |
| ConversationList.ArchiveTabsPartition | components/ConversationList.tsx:71-72 | The two archive tabs partition the conversations that pass the other filters. |
| ConversationList.MineShowsOwn | components/ConversationList.tsx:73 | "Mine" shows only conversations assigned to the signed-in user. |
| ConversationList.TagFilterRequiresAll | components/ConversationList.tsx:75-78 | Every shown conversation carries all selected tags, and an empty selection hides nothing. |
| ConversationList.SearchSemantics | components/ConversationList.tsx:79-85 | An empty search hides nothing. Otherwise a conversation shows only if its lowercased name or last message, or its phone, contains the query. |
| Lists.ToggleEffect | components/ConversationList.tsx:62-68 | The toggle behind the tag filter, the tag ids and the assignees: a present id is removed and every other one kept in its order, and an absent one is appended. |
| DashboardPage.ReplaceAbsentPrepends | app/dashboard/page.tsx:24-25 | An unlisted conversation is prepended. |
| DashboardPage.ReplacePresentInPlace | app/dashboard/page.tsx:26 | A listed conversation is replaced in place: length and order kept. |
| DashboardPage.SelectResetsUnread | app/dashboard/page.tsx:85-92 | Selecting resets the unread count to 0 only when it was positive. |
| DashboardPage.DeleteRemovesEverywhere | app/dashboard/page.tsx:115-123 | A successful delete removes the tag from the list and from every conversation, and keeps every other tag in order. |
| DashboardPage.FailedDeleteRestores | app/dashboard/page.tsx:115-132 | A failed delete restores both snapshots exactly. |
| DashboardPage.CreateTagOutcome | app/dashboard/page.tsx:95-112 | With a fresh temporary id, a create ends with the server tag appended, or with the list unchanged. |
| ConversationsLib.PresentTagsInOrder | lib/conversations.ts:20-24 | A tag is in the output exactly when some entry holds that tag, normalised. There are no more tags than entries, and as many when no entry is null. |
| ConversationsLib.PresentTagsAppend | lib/conversations.ts:20-24 | The tags of two runs of entries are the first run's tags followed by the second's. |
| ConversationsLib.PresentTagsSplit | lib/conversations.ts:20-24 | An entry between two runs contributes its normalised tag, or nothing when it is null, exactly between the two runs' tags. |
| ConversationsLib.TagColors | lib/conversations.ts:11-16 | Every tag has a non-empty colour: a falsy one becomes "#00a884", and a non-empty one is kept. |
| ConversationsLib.FormatDefaults | lib/conversations.ts:18-33 | Absent assignees, archived and campaign become [], false and null. Present values, false included, are kept, and every other field is copied. |
| MessageBubble.TextFallbacks | components/MessageBubble.tsx:10-13 | A text shows its text body, then the flat body, then "". |
| MessageBubble.NonTextIsBracketed | components/MessageBubble.tsx:14-22 | An image shows "[Image]", audio "[Audio]", video "[Video]" and a document "[Document]". Any other type t except a template shows "[t]". |
| MessageBubble.TemplateLabel | components/MessageBubble.tsx:18-21 | A template shows "[Template: name]" for a non-empty name, and "[Template]" otherwise. |
| MessageBubble.TickCounts | components/MessageBubble.tsx:32-39 | Read and delivered show two ticks, sent one, others none, and only outbound bubbles show any. |
| Middleware.AnonymousAccess | middleware.ts:36-46 | Without a user the guard redirects to "/login" exactly on non-public paths, and passes public ones. |
| Middleware.SignedInAccess | middleware.ts:49-55 | With a user only exactly "/login" redirects, to "/dashboard". |
| Middleware.LoginSubpathPasses | middleware.ts:37-55 | Sub-paths of "/login" are public and pass for a signed-in user. |
| Middleware.RedirectIsFinal | middleware.ts:36-53 | A redirect target is never redirected again under the same user state. |

## Left out

- The campaign send route (app/api/campaigns/[id]/send/route.ts) is not part of this model. Only the request the page builds for it is modelled.
- lib/whatsapp.ts and the routes that relay provider calls (templates, templates/send, messages/send, media) are not part of this model. They are thin wrappers around HTTP calls.
- The remaining query routes (conversations, users, archive, assignees, the per-conversation tags route, campaign by id and its recipients, tag delete) and the Supabase clients are not part of this model. The store is abstract: a table's rows are a sequence, in insertion order.
- Concurrency is not modelled: the check-then-insert races of contact and conversation creation, the realtime channels, and the `Promise.all` of the campaigns GET. Every handler runs sequentially.
- Time, randomness and locale are parameters:
  - `now` is the clock reading the webhook writes as `replied_at`;
  - `sentAt` is the message timestamp already rendered as a date, so the `parseInt(timestamp) * 1000` conversion is not modelled;
  - `updated_at` is not stored;
  - `pick` is the index `Math.random` chooses into the eight tag colours.
- Regex and Unicode are ASCII only. Whitespace is space, tab, line feed, carriage return, vertical tab and form feed. `toLowerCase` maps A-Z.
- Phones in `LIKE '%phone'` are literal: the wildcards `%` and `_` inside a phone are not modelled.
- The `{{n}}` number is read as an unbounded natural, so `parseInt` precision loss on long digit runs is not modelled.
- The template fields are typed options. A non-string `text` or a non-array `buttons` in the provider's JSON is not modelled.
- JSON objects are maps from strings, so JavaScript prototype keys such as `__proto__` as CSV headers are not modelled.
- CampaignsRoute.ListCampaigns: keeps store order rather than `created_at` descending, and does not model the joined template and tag columns.
- The localeCompare sort after a tag is created (app/dashboard/page.tsx:98) is not modelled. The list keeps insertion order.
- The automatic phone-column guess (app/dashboard/campaigns/page.tsx:235-240) and the page's React state are not modelled.
- All JSX rendering, the `formatTime` helpers, the settings, templates and login pages, and LoginForm, Sidebar, TemplateCard and SendTemplateModal are not modelled. They are presentation only.
- The cookie-sync callback of the middleware (middleware.ts:11-25) is not modelled. It only copies cookies.
- Middleware.Guard: covers only the paths the matcher (middleware.ts:58-62) lets through. The framework does not run the middleware on `_next/static`, `_next/image`, `favicon.ico` or paths ending in .svg, .png, .jpg, .jpeg, .gif or .webp. So an anonymous request for "/logo.png" is not redirected, although Guard would redirect it.
- The conversation the webhook inserts (app/api/webhook/route.ts:87) sets only `contact_id`. The model gives it the column defaults the handler relies on: not archived, unread count 0 and no campaign. The schema holding those defaults is not part of this model.
- A timestamp that does not parse makes `toISOString` throw at app/api/webhook/route.ts:129-131. That ends the request after the message row is written. The model takes the time as an already rendered value and processes every message.
- Error message texts are not modelled. Replies carry only their kind and status.
- CampaignsPage.SortShape: states sorted and a permutation; the stability of `Array.prototype.sort` is not proved.

Behaviour of the code worth knowing:

- Only an archived conversation with a campaign is unarchived by an inbound message. An archived conversation without one stays archived.
- The webhook upserts the contact on the literal `from` phone and always overwrites the name with the profile name or null. It does not use the resolver, so a stored short number gets a second contact (Webhook.WebhookKeepsLiteralPhones).
- The conversation lookup uses `maybeSingle`: when a contact has two conversations, none is found and a third is inserted. The store does not rule this out. The proofs assume at most one conversation per contact and show that the handler keeps that.
- The campaign tag upsert overwrites the name, colour and creator of a manual tag with the same key.
- The header comment of lib/contacts.ts:12-13 promises a match whenever the given phone ends with the stored one. The code only drops 2, 3 or 1 leading digits, so a shorter stored number is missed and a second contact is created (Contacts.ShortStoredNotFound).
- The comment at components/ChatWindow.tsx:208-209 says the realtime copy replaces the optimistic message through the wamid match. The placeholder's wamid is null, so the copy is appended beside it and only the timer removes the placeholder (ChatWindow.RealMessageDoesNotReplacePlaceholder).
- app/dashboard/page.tsx:140-143 passes `selectedTagId`, a single id, while components/ConversationList.tsx:12 declares `selectedTagIds: string[]`. Read as written, the `selectedTagIds.length` at line 75 reads a property of an undefined value. The model gives the list the array its props declare.
