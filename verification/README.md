# EKERA lunch bot, modelled in Dafny

The lunch bot is a LINE chat bot with a small web back office. A LINE group (or a
one-to-one chat, or a room) keeps a list of *offices*. Each office has *bindings* to
restaurants of a shared catalogue, and one office is the group's *current office*.
Chat commands do four things:

- list and switch offices;
- list the current office's restaurants;
- add or remove a binding;
- *draw* a random active restaurant of the current office.

The draw is announced with a LINE Flex bubble. The web API serves the same four
collections: restaurants, office bindings, group settings and draw history. The
client's group store edits the office list, the bindings and a restaurant's menu images.

This project models these parts, one Dafny module each:

- `JsText`: the JavaScript string and array built-ins the code relies on. This covers
  `trim`, `split(' ')` and its missing parts, `startsWith`, `splice`, `filter`, `||`
  defaults, truthiness, and the case-insensitive name search.
- `Schema`: the four Mongoose schemas under server/models. It gives their defaults, the
  `required` rule and the unique indexes.
- `Collections`: one class per MongoDB collection. Each holds its documents in natural
  order and refuses writes that fail validation or a unique index. Beside them are the
  queries the handlers issue.
- `Draw`: both copies of `drawRestaurant`. The *current* copy in
  server/utils/restaurantUtils.js filters on `isActiveInOffice`. The *legacy* copy, the one
  every handler calls, does not.
- `Flex`: `createRestaurantFlexMessage`, with its field defaults and the rules for which
  footer buttons appear.
- `Commands`: what the two chat handlers share. This covers event shapes, the group id,
  replies, the read-only commands, and the effects of the writing commands as relations
  between the collections before and after.
- `Webhook`: `handleEvent` of server/routes/webhookRouter.js.
- `LegacyBot`: the older `handleEvent` of index.js.
- The routers, one module each: `RandomRouter`, `BindingRouter`, `SettingRouter`,
  `RestaurantRouter` and `HistoryRouter`.
- `GroupStore`: the client store client/src/stores/group.js, as a class whose methods
  update its fields.

Where the code and its documentation disagree, the model follows the code:

- the (name, address) unique index on restaurants is global, not per group;
- deleting a restaurant or a binding cascades nowhere;
- no route checks that a group's `currentOffice` is one of its `officeOption`;
- no handler writes draw history;
- every handler draws with the legacy copy, which ignores `isActiveInOffice`.

Randomness is passed in as a parameter:

- `$sample` picks candidate `sample % n` of the `n` candidates;
- the theme roll is `roll < |ThemeList|`;
- `new Date(…)` and `setHours(23, 59, 59, 999)` are the functions `parseDate` and `endOfDay`;
- `encodeURIComponent` is `encode`.

## Model

| member | source | states |
|---|---|---|
| JsText.TrimIdempotent | client/src/stores/group.js:106 | trimming an already trimmed string changes nothing |
| JsText.TrimDropsOnlySpace | server/routes/webhookRouter.js:83 | `trim` returns an infix of the text, and everything it drops on either side is white space |
| JsText.TrimEmptyIffAllSpace | server/utils/restaurantUtils.js:99 | a string trims to "" exactly when it is all white space |
| JsText.TrimPadded | server/routes/webhookRouter.js:83 | a space on each side of a text with no white space at its ends is exactly what `trim` removes |
| JsText.JoinSplit | server/routes/webhookRouter.js:140 | joining the parts of `split(' ')` with ' ' gives back the message |
| JsText.SplitCount | server/routes/webhookRouter.js:140 | `split(' ')` yields one more part than there are spaces |
| JsText.Arg | server/routes/webhookRouter.js:214-216 | an argument never holds a space, and one past the last space reads as "" (as `undefined` does) |
| JsText.SpliceOne | client/src/stores/group.js:307 | `splice(index, 1)` for any integer index: the kept list and the removed list partition the input, negative indexes counting from the end |
| JsText.RemoveAllAppend | client/src/stores/group.js:120 | `filter(o => o !== x)` distributes over concatenation |
| JsText.ContainsIgnoringCaseOfLower | server/routes/restaurantRouter.js:42 | lower-casing both the name and the keyword changes no answer of the case-insensitive match |
| JsText.ContainsLowerKeyword | server/routes/restaurantRouter.js:42 | a keyword and its lower-case form match the same names |
| JsText.EmptyKeywordMatchesAll | server/routes/restaurantRouter.js:41-42 | the empty pattern matches every name |
| Schema.NewRestaurant | server/models/Restaurant.js:3-17 | a document exists iff the name is non-empty; address, phone and tags take the given value or their default; menu is empty; active; no group |
| Schema.NewBinding | server/models/GroupRestaurant.js:3-14 | a document exists iff group, office and restaurant are given; `isActiveInOffice` defaults to true |
| Schema.NewGroupSetting | server/models/GroupSetting.js:3-13 | a document exists iff the group id is non-empty and the office is not an explicit ""; office defaults to 'default', options to [], notification to false |
| Schema.NewDrawRecord | server/models/DrawHistory.js:3-17 | a record exists iff restaurant and group are given; `drawnAt` defaults to the creation time |
| Schema.BindingIndexRemove | server/models/GroupRestaurant.js:15 | removing a document keeps the unique triple index |
| Collections.FirstPos | server/routes/restaurantRouter.js:77-85 | the position `findById` and `findOne` find: the first document the filter accepts, none before it, or the length when there is none; `RestaurantPos`, `NamePos`, `BindingPos` and `TriplePos` (webhookRouter.js:228-232) are its instances |
| Collections.FindRestaurant | server/routes/restaurantRouter.js:77-85 | some restaurant has the id iff one is returned, and the returned one has it |
| Collections.FindRestaurantByName | server/routes/webhookRouter.js:224 | `findOne({ name })` returns a restaurant of that name iff one exists |
| Collections.DistinctOffices | server/routes/webhookRouter.js:124 | an office is listed iff some binding of the group names it |
| Collections.OfficeBindings | server/routes/webhookRouter.js:192-195 | exactly the bindings of the group and office, each as often as stored |
| Collections.RestaurantCollection.Create | server/models/Restaurant.js:3-17 | validation error iff no name; duplicate iff the (name, address) key is taken; otherwise the new document is appended |
| Collections.RestaurantCollection.Replace | server/routes/restaurantRouter.js:197-206 | the replacement is written iff no other document holds its key; the index is kept |
| Collections.BindingCollection.Create | server/models/GroupRestaurant.js:3-16 | validation error iff a required field is missing; duplicate iff the triple is bound; otherwise appended |
| Collections.BindingCollection.Replace | server/routes/groupRestaurantRouter.js:51 | the update is written iff no other binding holds its triple |
| Collections.BindingCollection.RemoveAt | server/routes/groupRestaurantRouter.js:64-74 | exactly the document at the position goes, the rest keep their order, the index is kept |
| Collections.SettingCollection.Create | server/models/GroupSetting.js:3-13 | validation error iff `NewGroupSetting` fails; duplicate iff the group already has settings; otherwise stored under the group |
| Collections.SettingCollection.Save | server/routes/webhookRouter.js:156 | the group's settings become the given ones, every other group's are kept |
| Draw.BoundIds | server/utils/restaurantUtils.js:9-13 | an id is collected iff a selected binding of the office points to it |
| Draw.Matching | server/utils/restaurantUtils.js:21-31 | a restaurant is kept iff its id is among the ids and it is active |
| Draw.Candidates | server/utils/restaurantUtils.js:9-31 | the candidates are exactly the drawable restaurants |
| Draw.DrawRestaurant | server/utils/restaurantUtils.js:7-43 | null iff no restaurant is drawable; otherwise the result is drawable; null when no binding is selected |
| Draw.DrawPicks | server/utils/restaurantUtils.js:33-36 | the draw is candidate `sample % n` |
| Draw.MatchingDistinct | server/models/Restaurant.js:16 | with distinct ids at rest, the candidates have distinct ids |
| Draw.EachCandidateOneSample | server/utils/restaurantUtils.js:21-36 | every drawable restaurant is drawn by exactly one sample below n, so all are equally likely under a uniform `$sample` |
| Draw.CurrentWithinLegacy | server/routes/webhookRouter.js:317-326 | what the current copy may draw, the legacy copy may draw too |
| Draw.LegacyDrawsPausedBinding | server/routes/webhookRouter.js:317-326 | for all inputs: a restaurant paused on every binding of the office is never drawn by the current copy; an active bound restaurant is drawable by the legacy copy, whose draw then succeeds |
| Draw.SoftDeletedNeverDrawn | server/utils/restaurantUtils.js:21-31 | for all inputs: a soft-deleted restaurant is not drawable and never drawn, by either copy |
| Flex.HeroImage | server/utils/restaurantUtils.js:95 | the first menu image when it is non-empty, else the fallback |
| Flex.CreateRestaurantFlexMessage | server/utils/restaurantUtils.js:79-290 | title, theme, name, address, phone and image take their defaults; alt text is the prefix plus the name; the map button appears iff enabled and the address is not blank; the call button appears iff enabled and the trimmed phone fits the pattern; the layout is horizontal iff both buttons appear; otherwise the footer is the title text |
| Flex.DefaultPhoneNotCallable | server/utils/restaurantUtils.js:94 | the default phone text never gets a call button |
| Flex.NonPhoneStartNotCallable | server/utils/restaurantUtils.js:113 | a phone text starting with a character outside the pattern gets no call button |
| Flex.NoPhoneNoCall | server/utils/restaurantUtils.js:94-125 | a missing or empty phone gets no call button |
| Flex.BlankAddressNoMap | server/utils/restaurantUtils.js:99-111 | a blank address gets no map button |
| Flex.PaddedPhoneCallable | server/utils/restaurantUtils.js:113-122 | any number that fits the pattern, padded with a space on each side, gets the call button, and its `tel:` link drops the spaces |
| Commands.GroupIdOf | server/routes/webhookRouter.js:72-81 | the records key is the user's id in a one-to-one chat, else the group's or room's id |
| Commands.OfficeListReply | server/routes/webhookRouter.js:123-136 | "no offices" iff the group has no binding; otherwise the distinct offices, a non-empty set |
| Commands.AllRestaurantsReply | server/routes/webhookRouter.js:164-177 | "none" iff the catalogue is empty; otherwise every restaurant's name, each as often as stored |
| Commands.CurrentListReply | server/routes/webhookRouter.js:180-210 | "no current office" iff the group has none; for a current office: "empty" iff it has no binding, a failure iff a binding's restaurant is gone, and otherwise exactly the names of all the office's bindings, whatever their flags |
| Commands.EatReply | server/routes/webhookRouter.js:290-312 | "not configured" iff the group has no settings; a drawn name is that of a drawable restaurant of the current office; "nothing to draw" iff none is drawable |
| Commands.InitialSetting | server/routes/webhookRouter.js:86-100 | the settings a new group gets pass validation and list their current office |
| Commands.AddRestaurant | server/routes/webhookRouter.js:213-249 | the collections change exactly as `AddEffect` relates them |
| Commands.AddKeepsRestaurants | server/routes/webhookRouter.js:213-249 | adding only appends, at most one restaurant and one binding |
| Commands.AddBinds | server/routes/webhookRouter.js:224-244 | after the command the office holds a binding to a restaurant of that name |
| Commands.AddTwice | server/routes/webhookRouter.js:224-238 | repeating the command changes nothing and reports the binding as already there |
| Commands.AddThenDelete | server/routes/webhookRouter.js:252-287 | deleting right after a successful add restores the bindings |
| Commands.DeleteRemovesAtMostOne | server/routes/webhookRouter.js:270-281 | a delete removes at most one binding, and removes one iff it reports a deletion |
| Commands.DeleteUnbinds | server/routes/webhookRouter.js:270-274 | after a reported deletion no binding of the triple remains |
| Commands.SwitchLandsOnBoundOffice | server/routes/webhookRouter.js:139-161 | a successful switch lands on an office some binding names; other groups and the option list are untouched |
| Commands.SwitchToBoundOffice | server/routes/webhookRouter.js:148-156 | a switch to an office that a binding names always succeeds |
| Webhook.Classify | server/routes/webhookRouter.js:86-290 | each command iff its exact text or prefix; arguments are parts 1 and 2 of `split(' ')` |
| Webhook.ReadOnlyOutcome | server/routes/webhookRouter.js:104-314 | null iff the setup command or no command; the eat command always replies with a draw or "nothing to draw" |
| Webhook.SwitchOfficeCommand | server/routes/webhookRouter.js:139-161 | the settings change exactly as `SwitchEffect` relates them |
| Webhook.DeleteRestaurantCommand | server/routes/webhookRouter.js:252-287 | the bindings change exactly as `DeleteEffect` relates them |
| Webhook.HandleEvent | server/routes/webhookRouter.js:68-315 | non-text events are ignored; setup creates the settings of a new group; every other command of an unknown group answers "not configured"; read-only commands change nothing; each writing command has its effect; the catalogue only grows |
| Webhook.RunCommand | server/routes/webhookRouter.js:115-314 | for a configured group, the read-only commands change nothing and reply as `ReadOnlyOutcome` says; each writing command has its effect |
| Webhook.SetupOnConfiguredGroupIgnored | server/routes/webhookRouter.js:86-100 | for every text that trims to the setup command, a configured group's message resolves to null |
| Webhook.PaddedSetupIgnored | server/routes/webhookRouter.js:86-100 | the setup command padded with a space on each side is one such text |
| Webhook.TwoWords | server/routes/webhookRouter.js:214-216 | a command with two space-free words splits into "", name and office |
| Webhook.AddCommandArguments | server/routes/webhookRouter.js:213-216 | a well-formed add command yields its two words |
| Webhook.DoubleSpaceIsUsage | server/routes/webhookRouter.js:253-261 | two spaces after the command make the name empty |
| LegacyBot.LegacyClassify | index.js:54-189 | each command iff its test holds and no earlier test does; the draw command compares the untrimmed text |
| LegacyBot.RelocateCommand | index.js:57-74 | the settings change exactly as `RelocateEffect` relates them |
| LegacyBot.LegacyReadOnlyOutcome | index.js:76-190 | null iff no command |
| LegacyBot.LegacyHandleEvent | index.js:40-191 | non-text events are ignored; each command has its effect or its read-only reply; the catalogue only grows |
| LegacyBot.RelocateUnchecked | index.js:61-70 | relocation always lands on the requested office and creates missing settings; other groups are untouched |
| LegacyBot.RelocateVersusSwitch | index.js:57-74 | for an office no binding names, the newer switch refuses while the older relocation goes through |
| LegacyBot.LotteryNeedsExactText | index.js:167 | " 抽獎" trims to the draw command yet is no command; "抽獎" is |
| RandomRouter.GetRandomRestaurant | server/routes/randomRestaurantRouter.js:40-67 | status 200 iff a restaurant is picked, 400 otherwise; the 400s are a missing group id, a group without settings and nothing drawable; a picked name is a drawable restaurant of the current office |
| RandomRouter.AgreesWithChatDraw | server/routes/randomRestaurantRouter.js:54-63 | for the same sample the route and the chat draw agree on result and failure |
| RandomRouter.PausedBindingServed | server/routes/randomRestaurantRouter.js:70-82 | a restaurant paused in its office is still served |
| BindingRouter.GroupBindings | server/routes/groupRestaurantRouter.js:6-14 | exactly the group's bindings, each as often as stored |
| BindingRouter.PostBinding | server/routes/groupRestaurantRouter.js:16-35 | the bindings change exactly as `PostEffect` relates them |
| BindingRouter.PostTwice | server/routes/groupRestaurantRouter.js:22-27 | a second identical POST is refused with 400 and changes nothing |
| BindingRouter.PostNeedsTriple | server/routes/groupRestaurantRouter.js:18-20 | 201 iff one binding is added, which needs all three required fields; otherwise 400 and no change |
| BindingRouter.Patched | server/routes/groupRestaurantRouter.js:39-44 | the present fields are set, the others and the identity are kept |
| BindingRouter.PatchIdempotent | server/routes/groupRestaurantRouter.js:39-51 | patching twice is patching once; an empty patch changes nothing |
| BindingRouter.PutBinding | server/routes/groupRestaurantRouter.js:37-62 | the bindings change exactly as `PutEffect` (the code as written) relates them |
| BindingRouter.ToggleRefusedButWritten | server/routes/groupRestaurantRouter.js:47-55 | a patch without an office is answered 400 and written all the same |
| BindingRouter.PutMissingIdFails | server/routes/groupRestaurantRouter.js:45-51 | a PUT on an unknown id is answered 500 and writes nothing |
| BindingRouter.PutBindingIntended | server/routes/groupRestaurantRouter.js:37-62 | the bindings change exactly as `IntendedPutEffect` relates them |
| BindingRouter.IntendedPutKeepsOffices | server/routes/groupRestaurantRouter.js:45-57 | under the corrected PUT a refusal writes nothing, and a write puts in a listed office when the patch names one |
| BindingRouter.DeleteBinding | server/routes/groupRestaurantRouter.js:64-74 | the bindings change exactly as `DeleteEffect` relates them |
| BindingRouter.DeleteRemovesId | server/routes/groupRestaurantRouter.js:64-74 | 404 iff no binding has the id; after 200 it is gone and every other binding remains |
| SettingRouter.GetSetting | server/routes/groupSettingRouter.js:153-164 | 200 with the group's settings iff it has some, else 404 |
| SettingRouter.PostSetting | server/routes/groupSettingRouter.js:167-187 | the settings change exactly as `PostEffect` relates them |
| SettingRouter.PostStoresAsGiven | server/routes/groupSettingRouter.js:167-187 | a created group stores the given office and options, with the notification off; a second POST is refused |
| SettingRouter.PostWithoutMembership | server/routes/groupSettingRouter.js:176-182 | a group whose office is not among its options can be created |
| SettingRouter.PutSetting | server/routes/groupSettingRouter.js:190-213 | the settings change exactly as `PutEffect` relates them |
| SettingRouter.PutThenGet | server/routes/groupSettingRouter.js:190-213 | a PUT keeps the groups and the others' settings; a GET afterwards returns what was put; 404 for an unknown group |
| SettingRouter.PutIdempotent | server/routes/groupSettingRouter.js:195-204 | repeating a PUT changes nothing more |
| RestaurantRouter.NameMatches | server/routes/restaurantRouter.js:42-43 | exactly the restaurants whose name contains the keyword, ignoring case, each as often as stored |
| RestaurantRouter.Search | server/routes/restaurantRouter.js:39-48 | without a keyword every restaurant; otherwise exactly the name matches of the keyword |
| RestaurantRouter.SearchIgnoresCase | server/routes/restaurantRouter.js:42 | a keyword and its lower-case form give the same answer |
| RestaurantRouter.GetRestaurant | server/routes/restaurantRouter.js:77-85 | 404 iff no restaurant has the id; otherwise 200 with it |
| RestaurantRouter.AddRestaurant | server/routes/restaurantRouter.js:130-139 | the catalogue changes exactly as `AddEffect` relates it |
| RestaurantRouter.AddTwiceFails | server/routes/restaurantRouter.js:130-139 | the first add stores an active restaurant without menu; a second identical add fails with 500 |
| RestaurantRouter.Patched | server/routes/restaurantRouter.js:199-201 | the present fields are overwritten, the others are kept |
| RestaurantRouter.PutRestaurant | server/routes/restaurantRouter.js:197-206 | the catalogue changes exactly as `PutEffect` relates it |
| RestaurantRouter.Deactivated | server/routes/restaurantRouter.js:237 | the restaurant is switched off and otherwise kept |
| RestaurantRouter.DeactivateKeyFree | server/routes/restaurantRouter.js:235-243 | switching a restaurant off never clashes with the unique index |
| RestaurantRouter.DeleteRestaurant | server/routes/restaurantRouter.js:235-243 | the catalogue changes exactly as `DeleteEffect` relates it |
| RestaurantRouter.DeleteSoftAndIdempotent | server/routes/restaurantRouter.js:235-243 | a DELETE keeps every record, switching off only the deleted one; a second DELETE changes nothing |
| RestaurantRouter.DeletedNeverDrawn | server/routes/restaurantRouter.js:237 | a deleted restaurant is never drawn again |
| HistoryRouter.BuildQuery | server/routes/drawHistoryRouter.js:80-92 | each bound is present iff its date is given; the upper bound is the end of that day |
| HistoryRouter.Find | server/routes/drawHistoryRouter.js:94 | exactly the matching records, each as often as stored |
| HistoryRouter.Insert | server/routes/drawHistoryRouter.js:96 | inserting into a newest-first list keeps it newest first and adds exactly the record |
| HistoryRouter.SortNewestFirst | server/routes/drawHistoryRouter.js:96 | the result is newest first and a permutation of the input |
| HistoryRouter.GetHistory | server/routes/drawHistoryRouter.js:72-103 | 400 iff no group id; otherwise 200 with the group's records in the window, each as often as stored, newest first |
| HistoryRouter.NoDatesWholeGroup | server/routes/drawHistoryRouter.js:80-96 | without dates every record of the group comes back, each as often as stored |
| HistoryRouter.NarrowerWindowFewerRecords | server/routes/drawHistoryRouter.js:82-92 | a window never adds records to the unbounded answer |
| GroupStore.AddedOffice | client/src/stores/group.js:105-112 | the trimmed name is appended unless it is blank or already listed |
| GroupStore.AddOfficeKeepsList | client/src/stores/group.js:105-112 | adding keeps the list duplicate-free and trimmed; adding twice is adding once |
| GroupStore.RemoveOfficeKeepsOthers | client/src/stores/group.js:120 | removal drops every occurrence and keeps the other offices in order |
| GroupStore.FindBinding | client/src/stores/group.js:191 | the first binding of the office and restaurant, none, or the error of a null restaurant met first |
| GroupStore.FindResolved | client/src/stores/group.js:191-195 | with every restaurant present the search cannot fail, and it finds a binding iff the office has the restaurant |
| GroupStore.ImageFiles | client/src/stores/group.js:328-339 | only image files are kept, and never more files than given |
| GroupStore.ImageFilesCounts | client/src/stores/group.js:328-339 | every image of the batch is kept as often as it was chosen, and no other file |
| GroupStore.Store.SaveRequest | client/src/stores/group.js:76-103 | one PUT of the whole setting iff the group is known |
| GroupStore.Store.SaveGroupSetting | client/src/stores/group.js:76-103 | the PUT is recorded and nothing else changes |
| GroupStore.Store.AddOffice | client/src/stores/group.js:105-112 | the list becomes `AddedOffice`; a save goes out iff it changed; every other field, both dialogs included, stays |
| GroupStore.Store.RemoveOffice | client/src/stores/group.js:114-123 | the current office is refused; any other waits for confirmation; the list, the bindings, the edit dialog and the other setting fields stay |
| GroupStore.Store.HandleConfirm | client/src/stores/group.js:385-397 | a pending removal removes the office and saves; the dialog closes; the bindings, the edit dialog and the other setting fields stay |
| GroupStore.Store.CloseConfirmModal | client/src/stores/group.js:376-383 | the dialog is closed and reset; the setting, the bindings and the edit dialog stay |
| GroupStore.Store.SetDefaultOffice | client/src/stores/group.js:125-128 | any office becomes current and is saved; every other field stays |
| GroupStore.Store.DropRestaurant | client/src/stores/group.js:188-211 | skipped iff no group or no restaurant; posted iff the office lacks the restaurant; a null restaurant met first fails; nothing but `sent` changes |
| GroupStore.Store.ToggleOfficeRestaurant | client/src/stores/group.js:213-224 | the flipped flag is sent; the page flips its copy only when accepted; the setting and both dialogs stay |
| GroupStore.Store.RemoveEditImage | client/src/stores/group.js:305-312 | the image at the index moves from the menu to the deletion list; nothing outside these two lists changes |
| GroupStore.Store.HandleEditFileChange | client/src/stores/group.js:314-340 | a crash without a restaurant; refused over five images; otherwise the new-file list is the batch's images in order and the previews restart; nothing else changes |
| GroupStore.Store.PreviewLoaded | client/src/stores/group.js:331-333 | the preview is appended; nothing else changes |
| GroupStore.Store.RemoveNewEditImage | client/src/stores/group.js:342-352 | no index clears both lists; an index removes that position from both; nothing else changes |
| GroupStore.Store.CloseEditModal | client/src/stores/group.js:262-273 | the dialog and its lists are reset; the setting, the bindings, the confirmation dialog and `sent` stay |
| GroupStore.RemoveImageKeepsTotal | client/src/stores/group.js:305-312 | removing an image keeps the total of kept and to-be-deleted images |
| GroupStore.RemoveNewKeepsPairs | client/src/stores/group.js:342-352 | removing the same position from both lists keeps files and previews paired |
| GroupStore.AcceptedBatchWithinCap | client/src/stores/group.js:316-323 | an accepted batch stays within five images |

## Left out

- Sending LINE messages (`sendLineMessage`, the reply API), email, and the LINE signature middleware: these are I/O. Replies are modelled by kind, not by wording.
- Randomness: the theme roll, `$sample` and `Math.random` are parameters. Whether `$sample` is uniform is a property of the database, not of this code.
- `encodeURIComponent` is an opaque parameter of the flex message. The constant parts of the bubble (sizes, icons, labels) are not represented.
- `new RegExp(keyword, 'i')`: the keyword is matched as literal text. Regular-expression metacharacters and full Unicode case folding are not modelled; only ASCII letters are folded.
- Dates: `new Date(text)` and the server's time zone are the parameters `parseDate` and `endOfDay`. Invalid dates are not modelled.
- Timestamps (`createdAt`, `updatedAt`) are not represented on any document.
- The client store's network answers, toasts, the `FileReader` data URLs, focus, body style, `isLoading` and the refetches after each action. `saveGroupSetting`'s fallback POST, used when the PUT is answered 404, is not modelled.
- The client's confirmation dialogs for deleting a restaurant or a binding: only the office removal is modelled.
- The flex module's awaited call outside an async function (server/utils/restaurantUtils.js:287): the module as written does not parse. The model treats the function as if the call were not there.
- Every `catch` path on a database or cast failure (an ill-formed object id, a lost connection): these are 500s caused by the environment.
- The name sort of `/全部餐廳`: the reply is modelled as a multiset of names.
- `populate` in the GET routes: these return the stored documents.
- The projection `.select('restaurantId office isActiveInOffice note')` of `GET /group-restaurant/:groupId` (server/routes/groupRestaurantRouter.js:9): `BindingRouter.GroupBindings` returns whole bindings, `groupId` included, where the route's answer leaves `groupId` out.
- SettingRouter.PutEffect, RestaurantRouter.Patched and RestaurantRouter.PutEffect keep a field the request leaves undefined. This assumes a Mongoose version (7 or later) that drops undefined keys from an update; the repository pins no version, and an older one without `omitUndefined` would write null instead.
- The unresolved merge in server/routes/webhookRouter.js: the `dev` side is modelled as `Webhook`, and the other side as `LegacyBot`, the index.js handler it matches.
- Concurrency between requests: every handler runs to completion on its own.
- The schemas under the root models directory, which the index.js handler was written against: `LegacyBot` uses the current schemas with the fields the old ones lack at their defaults.
- The aliasing in `toggleOfficeRestaurant`, which mutates the binding object the page holds: it is modelled by the binding's index.
- Ties in `sort({ drawnAt: -1 })`: the order among records drawn at the same instant is not specified.
- `addedBy`, which some writes pass, is not in the binding schema and is dropped.
- Draw history is only read. No handler in the repository writes it, so the model has no write either.
- Ids are natural numbers, fresh from a counter, not object ids.

## Findings

| source | as written | input that shows it | evidently intended | confidence | as-written member | corrected member |
|---|---|---|---|---|---|---|
| server/routes/groupRestaurantRouter.js:47-51 | the office check sends 400 but does not return, so the update is written anyway; a patch without `office` always fails the check, so the client's toggle is stored while the page, seeing 400, keeps the old state | the client's toggle, a PUT with body `{ isActiveInOffice: false }` on an existing binding | a refused update writes nothing, and the office is checked only when one is given | not executed | BindingRouter.ToggleRefusedButWritten | BindingRouter.IntendedPutKeepsOffices |
| server/routes/groupRestaurantRouter.js:45-55 | a missing binding is dereferenced before the 404 branch, so the answer is 500 | a PUT on an id no binding has | 404 for a missing binding | not executed | BindingRouter.PutMissingIdFails | BindingRouter.PutBindingIntended |
