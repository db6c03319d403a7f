# GodakPin core, modelled in Dafny

GodakPin is a community giving marketplace. Sellers list items they give away, members request them, and the two sides chat. This project models the logic behind that and proves properties of it. The parts modelled are:

- **Chat.** The conversation key; the message schema and its key-filling hooks; the `/chat` routes (the conversation list, threads, sending, mark-read, unread count, typing); the server-sent-event registry; and the client context that keeps the conversation list, the open thread and the typing flags.
- **Items.** The `Item` schema with its slug hook, and the item routes (listing, creation, requests).
- **Payments.** The PayHere boost payments.
- **Front-end helpers.** The district and city tables, the locale provider, and the item card's formatters.
- **Server and admin.** The server's CORS policy, and the admin summary, report list and report status update.

Modelling choices:

- **Module layout.** One module follows each source file. The shared helpers are `Wrappers`, `Strings`, `Sorting` and `Json`.
- **Stores.** The database collections become sequences held by classes: `ChatRoutes.MessageStore`, `ItemRoutes.ItemStore`, `Payments.BoostDesk` and `Admin.ReportStore`.
- **Handlers and hooks.** Request handlers are methods that return the status code. Mongoose hooks are methods of document classes: `ChatModel.ChatDoc` and `ItemModel.ItemDocument`.
- **Client state.** Client-side state updates are functions from the old state to the new one.
- **Missing values.** A missing string is `""`, and `undefined` is `None`.
- **Time.** Times are integer milliseconds.
- **Abstract operations.** `JSON.stringify`, `md5` and `ObjectId.isValid` are left uninterpreted and passed as parameters or constants.

## Model

| member | source | states |
|---|---|---|
| ConversationKey.BuildConversationId | backend/src/routes/chatRoutes.js:11-15 | null exactly when either id is missing; otherwise the two ids in default string order joined by `:` |
| ConversationKey.Symmetric | backend/src/routes/chatRoutes.js:11-15 | the key is the same whichever participant comes first |
| ConversationKey.SplitRecoversParticipants | backend/src/models/Chat.js:5-9 | for ids without `:`, splitting the key on `:` gives back the sorted pair |
| ConversationKey.KeyIdentifiesPair | frontend/src/context/ChatContext.jsx:15-19 | for ids without `:`, two pairs share a key exactly when they are the same unordered pair |
| ChatModel.ChatDoc.PreValidate | backend/src/models/Chat.js:25-32 | a present key is kept; a missing one is filled from the two ids when both exist; nothing else changes |
| ChatModel.ChatDoc.PreSave | backend/src/models/Chat.js:34-39 | a key still missing is set from the two ids; nothing else changes |
| ChatModel.Create | backend/src/models/Chat.js:11-39 | creation fails exactly when an id is missing or the content is blank; otherwise the message has the fresh id, trimmed content, the current time, `read_status` false unless given, and a non-empty filled key |
| ChatModel.FilledKeyIgnoresDirection | backend/src/models/Chat.js:25-39 | a message without a supplied key gets the same key in either direction |
| ChatModel.FilledKey | backend/src/models/Chat.js:25-39 | the key the two save hooks leave on a message: the supplied key, else the key of the two ids; pinned down by `FilledKeyIgnoresDirection` and the `Create` ensures |
| ChatQueries.Thread | backend/src/routes/chatRoutes.js:187 | exactly the messages with the key, as a permutation of those in the store, in non-decreasing timestamp order |
| ChatQueries.LatestWhere | backend/src/routes/chatRoutes.js:188-194 | a matching message with the greatest timestamp, or none exactly when nothing matches |
| ChatQueries.LatestListing | backend/src/routes/chatRoutes.js:188-197 | the listing of the latest message in the conversation that names one |
| ChatQueries.MarkedReadClears | backend/src/routes/chatRoutes.js:268-275 | after marking, nothing in the conversation is unread by the caller, so a second call updates 0 |
| ChatQueries.MarkedReadIdempotent | backend/src/routes/chatRoutes.js:268-275 | marking twice is marking once |
| ChatQueries.MarkedReadUnreadTotal | backend/src/routes/chatRoutes.js:268-284 | the caller's global unread count drops by exactly the number of messages marked |
| ChatQueries.MarkedReadOthers | backend/src/routes/chatRoutes.js:268-275 | nobody else's unread count changes |
| ChatQueries.AggregateSummarises | backend/src/routes/chatRoutes.js:71-98 | the `$group` stage gives one row per key, holding that key's latest message and the user's unread count under it |
| ChatQueries.AggregateTotal | backend/src/routes/chatRoutes.js:79-97 | the rows' unread counts add up to the user's unread messages |
| ChatQueries.GroupsSpec | backend/src/routes/chatRoutes.js:71-100 | one row for each conversation the user takes part in: its latest message and its unread count, with distinct keys |
| ChatQueries.GroupsTotal | backend/src/routes/chatRoutes.js:71-100 | the rows' unread counts add up to the user's global unread count |
| ChatQueries.MarkedRead | backend/src/routes/chatRoutes.js:268-275 | the `updateMany` on the message log; pinned down by `MarkedReadClears`, `MarkedReadIdempotent`, `MarkedReadUnreadTotal` and `MarkedReadOthers` |
| ChatQueries.Aggregate | backend/src/routes/chatRoutes.js:71-98 | the `$match`/`$sort`/`$group` pipeline; pinned down by `AggregateSummarises` and `AggregateTotal` |
| ChatQueries.Groups | backend/src/routes/chatRoutes.js:71-100 | the aggregation over the whole log; pinned down by `GroupsSpec` and `GroupsTotal` |
| ChatQueries.UnreadTotal | backend/src/routes/chatRoutes.js:282-289 | the `countDocuments` of the user's unread messages; pinned down by `MarkedReadUnreadTotal`, `GroupsTotal` and `MessageStore.UnreadCount` |
| ChatRoutes.MessageJsonFields | backend/src/routes/chatRoutes.js:17-25 | each wire field holds the message's value, with `listing_id` null when absent |
| ChatRoutes.MessageJsonRoundTrip | backend/src/routes/chatRoutes.js:17-25 | the wire form reads back to the message, given its key |
| ChatRoutes.PartnerJson | backend/src/routes/chatRoutes.js:27-31 | an object whose `_id` is the user's id, or `""` without a user |
| ChatRoutes.ListingJson | backend/src/routes/chatRoutes.js:33-41 | null exactly without a listing; otherwise an object whose `id` is the listing's id |
| ChatRoutes.BuildRows | backend/src/routes/chatRoutes.js:153-170 | a row for every group whose partner is known, and only for those |
| ChatRoutes.ConversationListSorted | backend/src/routes/chatRoutes.js:171 | the list is most recent first |
| ChatRoutes.ConversationRowSound | backend/src/routes/chatRoutes.js:153-169 | each row shows the latest message of one of the user's conversations, with its unread count, its partner and its latest listing |
| ChatRoutes.ConversationRowComplete | backend/src/routes/chatRoutes.js:153-170 | a conversation of the user has a row unless its partner is unknown |
| ChatRoutes.ConversationRowsDistinct | backend/src/routes/chatRoutes.js:79-170 | no two rows share a conversation |
| ChatRoutes.ConversationTotal | backend/src/routes/chatRoutes.js:173 | the total never exceeds the global unread count, and equals it when every partner is known |
| ChatRoutes.ConversationUpdateSpec | backend/src/routes/chatRoutes.js:43-58 | one event to the target, sent exactly when the partner is known, carrying the key, the last message, the target's unread count, the partner's public fields and the listing summary |
| ChatRoutes.SendEventsSpec | backend/src/routes/chatRoutes.js:236-253 | `chat:new_message` goes to the receiver with the receiver's unread count; each side gets a conversation update exactly when its partner is known |
| ChatRoutes.SendEventsPayload | backend/src/routes/chatRoutes.js:242-253 | the new-message data carries the key, the formatted message, the sender's public fields and the listing summary; each conversation update carries the key, the formatted message as the last message, the listing summary and the target's partner |
| ChatRoutes.MessageJson | backend/src/routes/chatRoutes.js:17-25 | `formatMessage`; pinned down by `MessageJsonFields` and `MessageJsonRoundTrip` |
| ChatRoutes.ConversationList | backend/src/routes/chatRoutes.js:153-171 | the rows of `GET /conversations`; pinned down by `ConversationListSorted`, `ConversationRowSound`, `ConversationRowComplete`, `ConversationRowsDistinct` and `ConversationTotal` |
| ChatRoutes.ConversationUpdate | backend/src/routes/chatRoutes.js:43-58 | `sendConversationUpdate`; pinned down by `ConversationUpdateSpec` |
| ChatRoutes.SendEvents | backend/src/routes/chatRoutes.js:236-253 | the events a posted message sends; pinned down by `SendEventsSpec` and `ChatClient.NewMessageFields` |
| ChatRoutes.SameKeyEitherDirection | backend/src/routes/chatRoutes.js:221-228 | two stored messages between the same two people, in either direction, share one key |
| ChatRoutes.MessageStore.UnreadCount | backend/src/routes/chatRoutes.js:282-289 | the number of the user's unread messages |
| ChatRoutes.MessageStore.Conversations | backend/src/routes/chatRoutes.js:68-178 | the rows of the conversation list and their unread total, which is at most the global count |
| ChatRoutes.MessageStore.FetchThread | backend/src/routes/chatRoutes.js:180-206 | 400 exactly for a missing or malformed partner id; otherwise the thread oldest first and the latest listing |
| ChatRoutes.MessageStore.Typing | backend/src/routes/chatRoutes.js:291-307 | 400 exactly for a missing or malformed partner id; otherwise one `chat:typing` event to the partner; the store is untouched |
| ChatRoutes.MessageStore.MarkRead | backend/src/routes/chatRoutes.js:261-280 | 400 changes nothing; otherwise the caller's unread messages in the conversation are marked and counted |
| ChatRoutes.MessageStore.UpdateMany | backend/src/routes/chatRoutes.js:268-276 | the log becomes the marked log and the count is the number of matching messages |
| ChatRoutes.MarkAll | backend/src/routes/chatRoutes.js:268-276 | one pass over the collection marks exactly the matching messages read and counts them |
| ChatRoutes.MessageStore.Persist | backend/src/routes/chatRoutes.js:208-229 | 400 for a missing receiver or blank content, 400 for a malformed id, 404 for an unknown receiver, none changing the store; 201 appends one keyed message with trimmed content that is unread |
| ChatRoutes.MessageStore.PostMessage | backend/src/routes/chatRoutes.js:208-259 | a failure changes nothing and sends nothing; on success the message is stored and the new-message event and the two conversation updates follow |
| ChatStream.Without | backend/src/utils/chatStream.js:37 | the list without the entry, every other entry kept in order |
| ChatStream.RemovedEffect | backend/src/utils/chatStream.js:34-49 | unregistering removes exactly that entry, keeps every other user's list and leaves no empty list |
| ChatStream.RemovedIdempotent | backend/src/utils/chatStream.js:34-49 | a second unregistration changes nothing |
| ChatStream.Removed | backend/src/utils/chatStream.js:36-40 | the client map after an unregistration; pinned down by `RemovedEffect` and `RemovedIdempotent` |
| ChatStream.Channel.Write | backend/src/utils/chatStream.js:12-19 | a write to a live stream is appended; a broken stream throws and records nothing |
| ChatStream.Registry.Register | backend/src/utils/chatStream.js:22-33 | without a user or stream nothing happens; otherwise the entry joins the end of the user's list and the opening frames are written |
| ChatStream.Registry.Release | backend/src/utils/chatStream.js:34-49 | the heartbeat stops, the entry leaves its user's list, and the key goes when the list is empty |
| ChatStream.Registry.Tick | backend/src/utils/chatStream.js:3-5 | one heartbeat writes the `:ok` comment to a live stream; on a broken stream the unguarded write throws out of the callback, and nothing is written |
| ChatStream.Registry.SendEvent | backend/src/utils/chatStream.js:7-20 | each of the user's live streams gets the event and data lines once, in order; broken streams are skipped |
| ChatStream.Registry.SendBatch | backend/src/utils/chatStream.js:7-20 | each stream gets the frames of every call addressed to its user, in call order |
| ChatStream.Registry.BroadcastToUsers | backend/src/utils/chatStream.js:52-54 | a user's streams get the event once for each time the user is listed |
| ChatClient.MergeSpec | frontend/src/context/ChatContext.jsx:65-70 | the merged list is sorted most recent first, holds the new entry and nothing else with its id, keeps every other entry, and grows only for a new id |
| ChatClient.Merge | frontend/src/context/ChatContext.jsx:65-70 | the replace-or-prepend and re-sort of the list; pinned down by `MergeSpec` |
| Sorting.SortByStable | frontend/src/context/ChatContext.jsx:70 | the sort is stable: the entries with any one key come out in their input order, as `Array.prototype.sort` keeps them |
| ChatClient.UpsertSpec | frontend/src/context/ChatContext.jsx:47-72 | without an id the list is unchanged; otherwise the merged entry replaces or joins, as in MergeSpec |
| ChatClient.UpsertIdempotent | frontend/src/context/ChatContext.jsx:47-72 | upserting the same payload twice is the same as once |
| ChatClient.UpsertListingOnly | frontend/src/context/ChatContext.jsx:116-121 | the listing-only upsert sets the listing and keeps partner, message, count and activity |
| ChatClient.UpsertTotal | frontend/src/context/ChatContext.jsx:47-72 | the badge changes by the new count minus the old count of that entry |
| ChatClient.Upsert | frontend/src/context/ChatContext.jsx:47-72 | `upsertConversation`; pinned down by `UpsertSpec`, `UpsertIdempotent`, `UpsertTotal` and `UpsertSetsEntry` |
| ChatClient.MarkAsReadSpec | frontend/src/context/ChatContext.jsx:90-103 | only the partner's entries change, and their counts become 0 |
| ChatClient.MarkAsReadKeepsOrder | frontend/src/context/ChatContext.jsx:94-98 | the order and ids of the list are untouched |
| ChatClient.MarkAsReadIdempotent | frontend/src/context/ChatContext.jsx:94-98 | marking twice is marking once |
| ChatClient.MarkAsReadTotal | frontend/src/context/ChatContext.jsx:94-98 | the badge drops by exactly the partner's unread counts |
| ChatClient.TotalUnread | frontend/src/context/ChatContext.jsx:340 | the unread badge, the sum of the entries' counts; pinned down by `UpsertTotal` and `MarkAsReadTotal` |
| ChatClient.MarkAsRead | frontend/src/context/ChatContext.jsx:90-103 | `markAsRead`; pinned down by `MarkAsReadSpec`, `MarkAsReadKeepsOrder`, `MarkAsReadIdempotent` and `MarkAsReadTotal` |
| ChatClient.SendRequestPassesServerCheck | frontend/src/context/ChatContext.jsx:157-163 | a request that is made has a partner and trimmed, non-blank content, so it passes the server's check |
| ChatClient.SendMessageUnchanged | frontend/src/context/ChatContext.jsx:155-192 | with no request made or a failed request, nothing changes and null is returned |
| ChatClient.SendMessageSuccess | frontend/src/context/ChatContext.jsx:164-184 | on success the message is appended and returned; its conversation takes it as last message and its time as activity, keeping its count |
| ChatClient.SendMessage | frontend/src/context/ChatContext.jsx:155-192 | `sendMessage`; pinned down by `SendMessageUnchanged`, `SendMessageSuccess` and `SendRequestPassesServerCheck` |
| ChatClient.OnNewMessageAppend | frontend/src/context/ChatContext.jsx:216-238 | the thread grows by one exactly for the open conversation, and then the partner is marked read |
| ChatClient.OnNewMessage | frontend/src/context/ChatContext.jsx:216-238 | `handleNewMessage`; pinned down by `OnNewMessageAppend`, `OnNewMessageUpserts` and `ReceiverSeesServerCount` |
| ChatClient.OnConversationUpdateSpec | frontend/src/context/ChatContext.jsx:240-261 | a conversation update leaves the thread and the selection alone, upserts the event's summary with `lastMessage` as its message, and marks the partner read exactly when the update is for the open conversation; missing or unparsable data changes nothing |
| ChatClient.OnConversationUpdate | frontend/src/context/ChatContext.jsx:240-261 | `handleConversationUpdate`; pinned down by `OnConversationUpdateSpec` |
| ChatClient.NewMessageFields | backend/src/routes/chatRoutes.js:242-248 | the server's new-message data carries the key, the formatted message and the receiver's count |
| ChatClient.UpsertSetsEntry | frontend/src/context/ChatContext.jsx:53-64 | a payload with a message and a numeric count sets that count, message and time |
| ChatClient.OnNewMessageUpserts | frontend/src/context/ChatContext.jsx:221-227 | the list a new-message event leaves is the upsert of its payload |
| ChatClient.ReceiverSeesServerCount | frontend/src/context/ChatContext.jsx:216-238 | the receiver's list shows the server's unread count, with the message as last message and its time as activity |
| ChatClient.TypingTracker.HandleTyping | frontend/src/context/ChatContext.jsx:263-288 | the flag is `Boolean(isTyping)`; a true event replaces the key's timer with a fresh one; a false event clears and forgets it |
| ChatClient.TypingOnStep | frontend/src/context/ChatContext.jsx:263-283 | after a true event the key has exactly one pending timer, the fresh one, and every other key's timers are untouched |
| ChatClient.TypingOffStep | frontend/src/context/ChatContext.jsx:263-288 | after a false event the key has no pending timer and every other key's timers are untouched |
| ChatClient.TypingTracker.Fire | frontend/src/context/ChatContext.jsx:273-279 | a timer still pending deletes its key's flag; a cleared timer does nothing |
| ChatClient.TypingTracker.Reset | frontend/src/context/ChatContext.jsx:43-44 | every pending timer is cancelled |
| Payments.ParseFormatAmount | backend/src/routes/paymentRoutes.js:13 | a formatted amount reads back as the same number of cents |
| Payments.FormatAmountInjective | backend/src/routes/paymentRoutes.js:160-164 | two amounts format alike exactly when they are equal |
| Payments.ParseAmountDefaults | backend/src/routes/paymentRoutes.js:10-13 | blank text is 0 and `"800"` is 80000 cents |
| Payments.FormatAmount | backend/src/routes/paymentRoutes.js:13 | `formatAmount`; pinned down by `ParseFormatAmount` and `FormatAmountInjective` |
| Payments.ParseAmount | backend/src/routes/paymentRoutes.js:10-13 | `Number(text)` in hundredths; pinned down by `ParseAmountDefaults` and `ParseFormatAmount` |
| Payments.HashSecret | backend/src/routes/paymentRoutes.js:15-20 | the upper-cased digest of the merchant secret; pinned down through `CheckoutHash`, `NotifyHash` and `NotifyHashExtendsCheckout` |
| Payments.CheckoutHash | backend/src/routes/paymentRoutes.js:22-29 | the checkout signature is in upper case |
| Payments.NotifyHash | backend/src/routes/paymentRoutes.js:31-38 | the notification signature is in upper case |
| Payments.NotifyHashExtendsCheckout | backend/src/routes/paymentRoutes.js:22-38 | with an empty status code the two signatures coincide |
| Payments.LoadConfig | backend/src/routes/paymentRoutes.js:9-10 | without `BOOST_PRICE_LKR` the price is 800.00; without a merchant id the id is empty |
| Payments.OrderIdsDiffer | backend/src/routes/paymentRoutes.js:74 | order ids for one item are equal exactly when their instants are |
| Payments.OrderId | backend/src/routes/paymentRoutes.js:74 | `boost-<item>-<ms>`; pinned down by `OrderIdsDiffer` |
| Payments.Configured | backend/src/routes/paymentRoutes.js:61 | merchant id and secret both present; pinned down by `NotifyVerdict`'s and `BoostDesk.CreateBoost`'s 500 case |
| Payments.CheckoutFor | backend/src/routes/paymentRoutes.js:74-108 | the order id, amount, currency, merchant, custom fields and signature of the checkout |
| Payments.NewPayment | backend/src/routes/paymentRoutes.js:110-121 | a pending payment in LKR for the boost price under the order id |
| Payments.NotifyAccepted | backend/src/routes/paymentRoutes.js:132-165 | a notification passes exactly when configured, correctly signed, from our merchant, for a known order, with its amount and currency |
| Payments.NotifyVerdictOrder | backend/src/routes/paymentRoutes.js:135-165 | a rejection's status follows the order of the checks |
| Payments.NotifyVerdict | backend/src/routes/paymentRoutes.js:132-165 | the checks of the notify handler; pinned down by its own ensures, `NotifyAccepted` and `NotifyVerdictOrder` |
| Payments.StatusFor | backend/src/routes/paymentRoutes.js:173-185 | 2 is paid, -1 cancelled, anything else failed; pinned down by the `Settle` ensures and `SettleKeeps` |
| Payments.SettleKeeps | backend/src/routes/paymentRoutes.js:167-186 | settling changes only the gateway fields and the status the code leads to |
| Payments.SettleIdempotent | backend/src/routes/paymentRoutes.js:167-186 | a repeated notification settles the same way |
| Payments.Settle | backend/src/routes/paymentRoutes.js:167-186 | the payment after an accepted notification with a numeric status code (a non-numeric one never reaches it: `BoostDesk.Notify` answers 500); pinned down by its own ensures, `SettleKeeps` and `SettleIdempotent` |
| Payments.BoostEndBounds | backend/src/routes/paymentRoutes.js:40-49 | a boost ends at least one day from now, and never earlier than one day past an unexpired end |
| Payments.BoostStacks | backend/src/routes/paymentRoutes.js:40-49 | two paid notifications at one instant stack two days |
| Payments.BoostEnd | backend/src/routes/paymentRoutes.js:40-49 | `extendBoost` as intended; pinned down by `BoostEndBounds` and `BoostStacks` |
| Payments.BoostEndAsWritten | backend/src/routes/paymentRoutes.js:40-49 | `extendBoost` as written against the item schema; pinned down by `BoostDoesNotStackAsWritten` |
| Payments.BoostDoesNotStackAsWritten | backend/src/models/Item.js:12-40 | as written, the second boost ends at the same time as the first |
| Payments.BoostDesk.ExtendBoost | backend/src/routes/paymentRoutes.js:40-49 | as intended (see Findings; as written: `Payments.BoostEndAsWritten`): none for an unknown item; otherwise the new end is returned and stored |
| Payments.BoostDesk.CreateBoost | backend/src/routes/paymentRoutes.js:58-127 | 500 unconfigured, 404 unknown item, 403 not the owner, 500 for a taken order id, none changing state; otherwise a pending payment is recorded and the reply carries the configured checkout URL and the checkout payload |
| Payments.BoostDesk.Notify | backend/src/routes/paymentRoutes.js:130-191 | a rejection changes nothing; a signed notification whose status code `Number` reads as `NaN` fails the save and gets 500 with nothing stored; otherwise an accepted notification settles the payment, and a paid one extends the boost as intended (see Findings; as written: `Payments.BoostEndAsWritten`) and reports whether it was already paid |
| ItemModel.SlugifyAlnum | backend/src/models/Item.js:44-52 | the letters and digits of a slug are those of the input, lower-cased |
| ItemModel.SlugifyIsSlug | backend/src/models/Item.js:44-52 | a slug holds only lower-case letters, digits and single dashes, with no dash at either end |
| ItemModel.SlugifyEmpty | backend/src/models/Item.js:44-60 | the slug is empty exactly when the input has no letter or digit |
| ItemModel.SlugifyIdempotent | backend/src/models/Item.js:44-52 | slugifying a slug changes nothing |
| ItemModel.Slugify | backend/src/models/Item.js:44-52 | `slugify`; pinned down by `SlugifyAlnum`, `SlugifyIsSlug`, `SlugifyEmpty` and `SlugifyIdempotent` |
| ItemModel.BuildSlugShape | backend/src/models/Item.js:59-62 | the slug is the slugified base, or `item` without letters or digits, then `-` and the last six id characters |
| ItemModel.NoLatinSlug | backend/src/models/Item.js:59-62 | a title, city and district without Latin letters or digits give `item-` plus the id suffix |
| ItemModel.SlugBaseAlnum | backend/src/models/Item.js:59 | the joined base has a letter or digit exactly when the title, the city or the district has one |
| ItemModel.SlugBase | backend/src/models/Item.js:59 | the present parts of title, city and district joined by spaces; pinned down by `SlugBaseAlnum` and `BuildSlugShape` |
| ItemModel.BuildSlug | backend/src/models/Item.js:59-62 | the slug the hook builds; pinned down by `BuildSlugShape` and `NoLatinSlug` |
| ItemModel.SlugOnSaveStable | backend/src/models/Item.js:54-65 | a save gives a non-empty slug, and a later save that touches none of title, city or district keeps it |
| ItemModel.SlugOnSave | backend/src/models/Item.js:54-65 | the slug after a save; pinned down by `SlugOnSaveStable` and `ItemDocument.BuildSlugHook` |
| ItemModel.ParseStatus | backend/src/models/Item.js:27-32 | the three enum names parse back to their status and nothing else does |
| ItemModel.ParseStatusName | backend/src/models/Item.js:27-32 | every status's name parses back to that status |
| ItemModel.ItemDocument.BuildSlugHook | backend/src/models/Item.js:54-65 | the slug becomes the hook's value for the modified paths; nothing else changes |
| ItemRoutes.ListItemsSpec | backend/src/routes/itemRoutes.js:10-24 | exactly the stored items matching each supplied filter, each as often as it is stored, newest first; with no filter, a permutation of all items |
| ItemRoutes.ListItems | backend/src/routes/itemRoutes.js:10-24 | `Item.find(query).sort({ createdAt: -1 })`; pinned down by `ListCounts`, `ListNewestFirst` and `ListItemsSpec` |
| ItemRoutes.ListCounts | backend/src/routes/itemRoutes.js:11-23 | each stored item appears in the listing as often as it is stored when it matches the query, and not at all otherwise |
| ItemRoutes.ListNewestFirst | backend/src/routes/itemRoutes.js:23 | the listing is in non-increasing `createdAt` order |
| ItemRoutes.NormalizedImages | backend/src/routes/itemRoutes.js:52-55 | one image per url in order, primary exactly at the given index; none without a non-empty list |
| ItemRoutes.NormalizedImagesPrimary | backend/src/routes/itemRoutes.js:52-55 | at most one image is primary |
| ItemRoutes.FindPrimary | backend/src/routes/itemRoutes.js:58 | a primary image if there is one, and none exactly when no image is primary |
| ItemRoutes.PrimaryImageChoice | backend/src/routes/itemRoutes.js:57-61 | the chosen url is never empty: the primary url, else the first, else the given url, else the placeholder |
| ItemRoutes.PrimaryImage | backend/src/routes/itemRoutes.js:57-61 | the item's `imageUrl`; pinned down by `PrimaryImageChoice` |
| ItemRoutes.NewItemFields | backend/src/routes/itemRoutes.js:63-75 | the created item has the trimmed title, the request fields, the owner, default status, no requests and the hook's slug |
| ItemRoutes.NewItem | backend/src/routes/itemRoutes.js:63-75 | the created item; pinned down by `NewItemFields` |
| ItemRoutes.ItemStore.CreateItem | backend/src/routes/itemRoutes.js:44-81 | 400 for a missing field, 500 for a blank title or a taken slug, none changing the store; 201 appends the new item |
| ItemRoutes.ItemStore.RequestItem | backend/src/routes/itemRoutes.js:84-107 | 404 unknown, 400 already requested, each unchanged; otherwise the request is appended once and only that item changes |
| ItemRoutes.RequestRecordedOnce | backend/src/routes/itemRoutes.js:91-100 | after a request the user counts as having requested, so a repeat is refused |
| LocationData.AllCitiesSpec | frontend/src/utils/locationData.js:113 | a city is listed exactly when some district has it, with no repeats, in first-occurrence order |
| LocationData.AllCities | frontend/src/utils/locationData.js:113 | every city of every district once, in order of first occurrence; pinned down by `AllCitiesSpec` |
| LocationData.DistrictNamesOf | frontend/src/utils/locationData.js:115 | the names of the districts in table order |
| LocationData.DistrictNames | frontend/src/utils/locationData.js:115 | the district names; pinned down by `DistrictNamesOf` |
| LocationData.FindDistrict | frontend/src/utils/locationData.js:119 | the first district with the name, or none exactly when no district has it |
| LocationData.CitiesForDistrictSpec | frontend/src/utils/locationData.js:117-121 | an empty or unknown district gives all cities; a known one gives its cities |
| LocationData.CitiesForDistrictWithinAll | frontend/src/utils/locationData.js:117-121 | every city offered for a district is among all cities |
| LocationData.GetCitiesForDistrict | frontend/src/utils/locationData.js:117-121 | `getCitiesForDistrict`; pinned down by `CitiesForDistrictSpec` and `CitiesForDistrictWithinAll` |
| Locale.CookieFromFirst | frontend/src/context/LocaleContext.jsx:20 | a captured cookie value comes from the first `gp_lang=` match that starts the cookie or follows a space |
| Locale.CookieFromNone | frontend/src/context/LocaleContext.jsx:20 | the pattern fails exactly when no position starts a match |
| Locale.CookieValueShape | frontend/src/context/LocaleContext.jsx:20 | a captured value is non-empty and has no `;` |
| Locale.CookieLangWritten | frontend/src/context/LocaleContext.jsx:59 | the cookie the provider writes reads back as its language |
| Locale.CookieFrom | frontend/src/context/LocaleContext.jsx:20 | the first match of the cookie pattern from a position; pinned down by `CookieFromFirst` and `CookieFromNone` |
| Locale.CookieLang | frontend/src/context/LocaleContext.jsx:20 | the captured language cookie; pinned down by `CookieValueShape` and `CookieLangWritten` |
| Locale.LoadInitialLanguage | frontend/src/context/LocaleContext.jsx:16-23 | the starting language is always supported |
| Locale.LoadInitialLanguageOrder | frontend/src/context/LocaleContext.jsx:16-23 | a supported stored value wins; otherwise a supported cookie value; otherwise `si` |
| Locale.WalkUndefined | frontend/src/context/LocaleContext.jsx:29 | once the walk leaves the dictionary it stays undefined |
| Locale.WalkAppend | frontend/src/context/LocaleContext.jsx:29 | walking two paths in turn is walking their concatenation |
| Locale.GetValueDotted | frontend/src/context/LocaleContext.jsx:27-30 | `a.b` is `b` looked up in the value at `a` |
| Locale.GetValueSingle | frontend/src/context/LocaleContext.jsx:27-30 | a single segment is a plain property lookup |
| Locale.GetValue | frontend/src/context/LocaleContext.jsx:27-30 | `getValue`; pinned down by `GetValueDotted`, `GetValueSingle`, `WalkUndefined` and `WalkAppend` |
| Locale.FormatNoOptions | frontend/src/context/LocaleContext.jsx:38-44 | without options a string is returned as it is |
| Locale.FormatOnePlaceholder | frontend/src/context/LocaleContext.jsx:38-44 | one placeholder occurrence is replaced by its option's text and nothing else changes |
| Locale.Format | frontend/src/context/LocaleContext.jsx:38-44 | `format`; pinned down by `FormatNoOptions` and `FormatOnePlaceholder` |
| Locale.TChain | frontend/src/context/LocaleContext.jsx:45-49 | the current string if found, else the Sinhala string, each formatted; a non-string gives `''`; with neither, the fallback or the key |
| Locale.T | frontend/src/context/LocaleContext.jsx:45-49 | `t`; pinned down by `TChain` |
| Locale.LocaleProvider.SetLanguage | frontend/src/context/LocaleContext.jsx:54-68 | an unsupported code is ignored; a supported one becomes the language and is written to storage, cookie and document |
| Locale.ReloadKeepsLanguage | frontend/src/context/LocaleContext.jsx:16-23 | after the effect has run, a reload starts in the persisted language, from storage or from the cookie alone |
| Cors.NormalizeOriginSpec | backend/server.js:14 | one appended `/` is removed and only one; an origin without a trailing `/`, the empty one included, is unchanged |
| Cors.NormalizeOrigin | backend/server.js:14 | `normalizeOrigin`; pinned down by `NormalizeOriginSpec` |
| Cors.OriginPartsSpec | backend/server.js:18-21 | every part is non-empty, trimmed and comma-free, and every non-blank comma-separated piece is included, trimmed |
| Cors.OriginParts | backend/server.js:18-21 | the comma-separated configured origins; pinned down by `OriginPartsSpec` |
| Cors.AllowedOriginsSpec | backend/server.js:16-29 | an origin is allowed exactly when it is the normal form of a non-blank candidate |
| Cors.LocalOriginsAllowed | backend/server.js:24-25 | the two local Vite origins are always allowed |
| Cors.ConfiguredOriginAllowed | backend/server.js:18-28 | each configured part is allowed in normal form |
| Cors.AppUrlsAllowed | backend/server.js:22-23 | `APP_URL` and `CLIENT_URL`, when set, are allowed |
| Cors.AllowedOrigins | backend/server.js:16-29 | the allowed-origin set; pinned down by `AllowedOriginsSpec`, `LocalOriginsAllowed`, `ConfiguredOriginAllowed` and `AppUrlsAllowed` |
| Cors.DecideSpec | backend/server.js:33-39 | allowed exactly without an origin or when its normal form is listed; a refusal is 403 naming the origin |
| Cors.TrailingSlashAllowed | backend/server.js:35-36 | a listed origin sent with a trailing `/` is still allowed |
| Cors.Decide | backend/server.js:33-39 | the `origin` callback; pinned down by `DecideSpec` and `TrailingSlashAllowed` |
| Admin.StatusMapSpec | backend/src/routes/adminRoutes.js:21 | keys are exactly the labels (`unknown` for null); each label maps to the count of its last group |
| Admin.StatusMap | backend/src/routes/adminRoutes.js:21 | the status counts as an object; pinned down by `StatusMapSpec` |
| Admin.ListReportsSpec | backend/src/routes/adminRoutes.js:36-40 | at most 50 matching stored reports, newest first; a matching report left out is no newer than the last row, and only a full page leaves one out |
| Admin.ListReports | backend/src/routes/adminRoutes.js:36-40 | the reports listing; pinned down by `ListReportsSpec` |
| Admin.FindReport | backend/src/routes/adminRoutes.js:55 | a report with the id, or -1 exactly when none has it |
| Admin.ReportStore.SetStatus | backend/src/routes/adminRoutes.js:49-63 | 400 for a status other than `open`/`resolved` and 404 for an unknown report, both unchanged; otherwise only that report takes the status, which is returned |
| ItemCard.TimeAgoSpec | frontend/src/components/ItemCard.jsx:8-15 | a day or more shows whole days; an hour or more, whole hours; otherwise whole minutes but at least 1, with the plural only above one |
| ItemCard.TimeAgoMissing | frontend/src/components/ItemCard.jsx:5 | the text is empty exactly when the creation time is missing |
| ItemCard.FormatTimeAgo | frontend/src/components/ItemCard.jsx:4-16 | `formatTimeAgo`; pinned down by `TimeAgoSpec` and `TimeAgoMissing` |
| ItemCard.SnippetSpec | frontend/src/components/ItemCard.jsx:18-21 | empty exactly for a missing or empty description; the whole text up to 110 characters; otherwise its first 110 and `…` |
| ItemCard.Snippet | frontend/src/components/ItemCard.jsx:18-21 | `descriptionSnippet`; pinned down by `SnippetSpec` |

## Left out

- All I/O is left out: MongoDB, Express, HTTP, authentication middleware (handlers take the signed-in user), `populate`, `lean`, index creation and the database connection.
- `ObjectId.isValid` is an abstract predicate of the message store. A malformed id given to `findById` raises a `CastError` (status 500), which is not modelled; item and report lookups treat every id as well-formed.
- ChatRoutes.MessageStore.Persist, ChatRoutes.MessageStore.UnreadCount, ChatRoutes.MessageStore.MarkRead, ChatQueries.UnreadTo, ChatQueries.UnreadInKey: user ids are taken to be in canonical form (lower-case hex). Mongoose casts `receiver_id` to an `ObjectId`, so another valid spelling of an id (upper-case hex, say) is stored, matched and echoed by `formatMessage` in canonical form. The model stores and compares the request's string as given, so such a message is not counted or marked for its receiver. The conversation key is built from the raw string in both the source and the model.
- The `$text` search of the item list is a predicate parameter. Text indexing and stemming are not modelled.
- `JSON.stringify`, `JSON.parse` and `md5` are uninterpreted. Dates are integer milliseconds, and `toISOString` is a tagged value.
- Timers (`setInterval`, `setTimeout`) become explicit events: `ChatStream.Registry.Tick` and `ChatClient.TypingTracker.Fire`.
- Concurrency, `Promise.all` interleavings and the `EventSource` reconnection are not modelled. Handlers run one at a time.
- Payments.ParseAmount: `Number()` accepts only blank text or an optional minus, digits and at most two decimals. Exponents, hex, `Infinity` and longer fractions are read as `NaN`, and floating-point rounding in `toFixed(2)` is not modelled. A signed notification whose status code is written in one of those forms is therefore answered 500 by `Payments.BoostDesk.Notify` (as a `NaN` code is), where the source settles it.
- `BOOST_PRICE_LKR` is read with the same grammar.
- Notification fields that are absent from the body are empty strings.
- ItemModel.Slugify: `normalize('NFKD')` is the identity, and `\w`/`\s` follow JavaScript's ASCII word set and white-space set. A non-ASCII letter is dropped rather than decomposed.
- Strings.ToLower: case mapping covers ASCII letters only (JavaScript `toLowerCase` maps every Unicode letter).
- Strings.ToUpper: case mapping covers ASCII letters only (JavaScript `toUpperCase` maps every Unicode letter); it is used for the signature upper-casing and the currency comparison.
- Strings.LexLe: strings are compared by code point. JavaScript's default `sort` compares UTF-16 code units, and the two orders differ only for characters above U+FFFF (which hex ids never contain).
- ItemRoutes.ItemStore.RequestItem: the slug hook runs again on a request save with only `requests` modified, which keeps the slug. A duplicate-slug failure there (500) is modelled, but request timestamps are not.
- Locale: the cookie jar is a single `gp_lang` value, not the full `document.cookie` string the browser keeps.
- Locale.FormatOnePlaceholder: option names are taken literally. Regular-expression metacharacters in a name and `$` patterns in a replacement are not interpreted.
- Locale.GetValue: properties inherited from `Object.prototype` are not looked up.
- Locale: the dictionaries are parameters; their contents are not part of this model.
- ItemCard.TimeAgoSpec: an unparsable date (`NaN`, which shows `NaN min ago`) is not modelled; the creation time is either missing or a number.
- ItemCard.SnippetSpec: lengths count characters, not UTF-16 code units, so an astral character counts once.
- The chat client's `selectConversation`, `fetchConversations` and `fetchMessages` loading flags are not modelled, apart from the listing-only upsert of `fetchMessages` (ChatClient.UpsertListingOnly).
- The admin counts (`countDocuments`) are database calls, so only the `statusMap` reduction of `/stats` is modelled.

## Findings

| source | as written | input that shows it | evidently intended | confidence | as-written member | corrected member |
|---|---|---|---|---|---|---|
| backend/src/routes/paymentRoutes.js:40-49 with backend/src/models/Item.js:12-40 | `extendBoost` reads and writes `item.boostedUntil`, but the item schema has no such path. The value read back is always `undefined` and the assignment is not saved, so every boost ends 24 hours after the latest payment. | two paid notifications for one item at the same instant: both report the same end | a second paid boost extends the first by another 24 hours | medium, not executed | Payments.BoostDoesNotStackAsWritten | Payments.BoostStacks |
