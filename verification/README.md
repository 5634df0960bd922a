# Digital-goods shop bot: catalog, admin conversation and payments

A Dafny model of the logic of `telegram_bot.py`, a Telegram bot that sells digital files for
Bitcoin. It has four parts:

- **The catalog.** `CATEGORIES` maps a category key to an ordered list of item keys. It is a
  Python dict, so its keys also have an insertion order. `ITEMS` maps an item key to a record
  `{name, price_btc, file_path}`.
  - `Catalog` holds the two tables as a value (`Tables`), with each admin mutation written as a
    function.
  - `Store` holds them as a class whose methods update its fields in place. Each method is
    proved to produce exactly what the matching `Catalog` function describes, and to keep the
    key order consistent with the map.
- **The admin conversation.** It has sixteen states (`Sessions.State`), per-user edit buffers
  and one handler per admin step (`AdminFlow`). Each handler is a `Step` function from the
  catalog and buffers before to the catalog, buffers and returned state after, and a method
  that updates the store and the session exactly as that function says. Invalid input returns
  the same state and changes nothing. A handler that raises leaves the state where it was. Three
  text handlers raise right after a successful update, because the screen they close with
  needs a pressed button, so their update stays and the state does not advance.
- **The pending payment.** A Buy press records one pending payment. `/confirm` delivers the
  file and clears the payment only after a covering balance and a successful send
  (`Payments`).
- **Callback payloads.** Buttons carry colon-separated strings, which the routers take apart
  with `split(":")`, `split(":", n)` and prefix tests (`Text`, `Callbacks`, `Router`).

The gateway, the filesystem, float parsing and the file send are inputs to the model. Text
handling is over ASCII.

## Model

| member | source | states |
|---|---|---|
| Text.Lower | telegram_bot.py:342 | `str.lower()` keeps the length and lower-cases each ASCII capital, leaving other characters alone |
| Text.TrimLeft | telegram_bot.py:342 | the leading-whitespace half of `strip()`: the result is a suffix, does not start with whitespace, and only whitespace was dropped |
| Text.TrimRight | telegram_bot.py:342 | the trailing half of `strip()`: a prefix that does not end with whitespace, only whitespace dropped |
| Text.Strip | telegram_bot.py:342 | `str.strip()`: defined as TrimRight of TrimLeft; StripIdempotent is proved about it |
| Text.Normalize | telegram_bot.py:342 | `text.strip().lower()`, how every typed key is read; LowerKeepsKeys is proved about it |
| Text.IsAlnum | telegram_bot.py:343 | `str.isalnum()` over ASCII: non-empty and made of letters and digits only; AlnumHasNoColon is proved about it |
| Text.StripIdempotent | telegram_bot.py:342 | stripping an already stripped text changes nothing |
| Text.LowerKeepsKeys | telegram_bot.py:342-343 | lower-casing neither makes nor breaks an alphanumeric key, and leaves no capital behind |
| Text.AlnumHasNoColon | telegram_bot.py:343 | a key accepted by the `isalnum` check never contains the payload delimiter `:` |
| Text.SplitAll | telegram_bot.py:366 | `split(":")` gives at least one part and no part contains `:` |
| Text.SplitN | telegram_bot.py:172 | `split(":", n)` gives between 1 and n+1 parts; joined with `:` they give the text back; all but the last are colon-free, and the last is too when fewer than n+1 parts come out |
| Text.JoinSplitAll | telegram_bot.py:366 | joining the parts of `split(":")` with `:` gives back the payload |
| Text.SplitAllJoin | telegram_bot.py:366 | splitting colon-free parts joined with `:` gives back the parts |
| Text.SplitNJoin | telegram_bot.py:172 | `split(":", n)` of n+1 joined parts, the first n colon-free, gives back the parts |
| Text.SplitAllHead | telegram_bot.py:537 | the first part is the whole text exactly when the text holds no `:` |
| Text.SplitAllPartsShorter | telegram_bot.py:537 | no part is longer than the text; every part is strictly shorter when the text holds a `:` |
| Callbacks.CategoryPayloadRoundTrip | telegram_bot.py:162-168 | a category button (`cat:` + key, built at line 117) decodes to that category, for every key |
| Callbacks.ItemPayloadRoundTrip | telegram_bot.py:171-179 | `item:c:i` (built at line 126) decodes to category c and item i exactly when c has no `:` |
| Callbacks.BuyPayloadRoundTrip | telegram_bot.py:182-184 | `buy:c:i` (built at line 132) decodes to a Buy of (c, i) exactly when c has no `:` |
| Callbacks.ThreeParts | telegram_bot.py:172 | the three-name unpacking of `split(":", 2)`: the last two parts when there are exactly three, `None` when the unpacking raises |
| Callbacks.DecodeUser | telegram_bot.py:143-192 | callback_router in source order; a payload is forwarded to admin_callback_router exactly when it starts with `admin:` and is not `admin:open`, and is then routed as AdminRoute says |
| Callbacks.AdminPrefixExcludes | telegram_bot.py:149-186 | an `admin:` payload matches none of the `nav:categories`, `cat:`, `item:` and `buy:` tests made before the admin test |
| Callbacks.TwoWordPayloadMalformed | telegram_bot.py:171-184 | `item:` or `buy:` followed by a colon-free word splits into two parts, so the unpacking raises |
| Callbacks.AdminRoute | telegram_bot.py:306-316 | admin_callback_router: the second part `categories` or `items` picks that screen; anything else opens the panel |
| Callbacks.DecodeAdmin | telegram_bot.py:627-662 | generic_admin_callback_dispatch as written, its exact matches and prefix tests in source order; AssignPrefixFallsThrough is proved about it |
| Callbacks.ArgAt3 | telegram_bot.py:366-370 | `parts[3]` of `split(":")`, `None` when there are fewer than four parts; ArgAt3RoundTrip is proved about it |
| Callbacks.LastArg | telegram_bot.py:537-538 | `split(":")[-1]`; LastArgRoundTrip is proved about it |
| Callbacks.AssignArg | telegram_bot.py:494 | the third name of `split(":", 2)`, `None` when the unpacking raises; AssignPayloadArg is proved about it |
| Callbacks.CategoryEditPayloadDispatch | telegram_bot.py:633-634 | every category edit button (line 327) reaches admin_cat_edit_start |
| Callbacks.CategoryDeletePayloadDispatch | telegram_bot.py:635-636 | every category delete button (line 328) reaches admin_cat_delete_confirm |
| Callbacks.ItemEditPayloadDispatch | telegram_bot.py:644-645 | every item edit button (line 432) reaches admin_item_edit_start |
| Callbacks.ItemDeletePayloadDispatch | telegram_bot.py:646-647 | every item delete button (line 433) reaches admin_item_delete_confirm |
| Callbacks.FieldPayloadDispatch | telegram_bot.py:651-652 | every field button reaches admin_item_field_select |
| Callbacks.MovePayloadDispatch | telegram_bot.py:653-654 | every move button (line 542) reaches admin_item_move_category |
| Callbacks.SplitAfterThreeWords | telegram_bot.py:366 | `split(":")` of three colon-free words and a key is those words followed by the key's own parts |
| Callbacks.ArgAt3RoundTrip | telegram_bot.py:366-370 | the fourth part of a four-word payload is the key exactly when the key has no `:` |
| Callbacks.LastArgRoundTrip | telegram_bot.py:537-538 | the last part of a four-word payload is the key exactly when the key has no `:` |
| Callbacks.CategoryEditArg | telegram_bot.py:366-370 | `parts[3]` of a category edit payload is the category key, iff the key has no `:` |
| Callbacks.CategoryDeleteArg | telegram_bot.py:399-400 | `parts[3]` of a category delete payload is the category key, iff the key has no `:` |
| Callbacks.ItemEditArg | telegram_bot.py:514-518 | `parts[3]` of an item edit payload is the item key, iff the key has no `:` |
| Callbacks.ItemDeleteArg | telegram_bot.py:596-597 | `parts[3]` of an item delete payload is the item key, iff the key has no `:` |
| Callbacks.FieldArg | telegram_bot.py:537-538 | `parts[-1]` of a field payload is the field name, iff it has no `:` |
| Callbacks.MoveArg | telegram_bot.py:580-581 | `parts[-1]` of a move payload is the target category, iff it has no `:` |
| Callbacks.AssignPrefixFallsThrough | telegram_bot.py:627-662 | as written, every `admin:assign_cat:` payload falls through both admin routers to the panel |
| Callbacks.AssignNotRouted | telegram_bot.py:306-316 | admin_callback_router sends a category-assignment press to the panel |
| Callbacks.DecodeAdminRouted | telegram_bot.py:627-662 | the corrected dispatch differs from the written one exactly on `admin:assign_cat:` payloads |
| Callbacks.AssignPayloadArg | telegram_bot.py:494 | a category-assignment button (line 482) yields its category and, under the corrected dispatch, reaches the commit handler |
| Catalog.RemoveFirst | telegram_bot.py:586 | `list.remove`: no change when the key is absent, one element shorter when present |
| Catalog.RemoveFirstCount | telegram_bot.py:586 | exactly one occurrence of the key is lost (when there is one), and no other element |
| Catalog.RemoveFirstSplices | telegram_bot.py:586 | the removed occurrence is the first one and the rest keep their order |
| Catalog.RemoveFirstDistinct | telegram_bot.py:620 | removing from a list without duplicates leaves none and removes the key altogether |
| Catalog.SetCategoryWellFormed | telegram_bot.py:349 | dict assignment keeps key order and key set in step |
| Catalog.PopCategoryWellFormed | telegram_bot.py:420 | `dict.pop` keeps key order and key set in step |
| Catalog.AddCategory | telegram_bot.py:349 | `CATEGORIES[text] = []`; AddCategoryEffect is proved about it |
| Catalog.RenameCategory | telegram_bot.py:391 | `CATEGORIES[new_key] = CATEGORIES.pop(old_key)`; RenameCategoryEffect is proved about it |
| Catalog.DeleteCategory | telegram_bot.py:420 | `CATEGORIES.pop(key, None)`; DeleteCategoryEffect is proved about it |
| Catalog.AppendToCategory | telegram_bot.py:504 | `CATEGORIES.setdefault(cat, []).append(key)`: a new key goes last in the order |
| Catalog.AddItem | telegram_bot.py:503-504 | record stored, then the key appended to the category; AddItemEffect is proved about it |
| Catalog.PutItem | telegram_bot.py:565-572 | `ITEMS[key]` replaced by the edited record |
| Catalog.RemoveEverywhere | telegram_bot.py:584-586 | the first occurrence of the key removed from every list; RemoveEverywhereEffect is proved about it |
| Catalog.MoveItem | telegram_bot.py:584-588 | removal everywhere, then `setdefault(new_cat, []).append(key)`; MoveItemEffect is proved about it |
| Catalog.DeleteItem | telegram_bot.py:617-620 | `ITEMS.pop(key)`, then removal everywhere; DeleteItemEffect is proved about it |
| Catalog.AddCategoryEffect | telegram_bot.py:349 | one new empty category, last in the order; all other categories and ITEMS unchanged |
| Catalog.RenameCategoryEffect | telegram_bot.py:391 | old key gone; new key holds the old list in order and comes last in the key order; other categories and ITEMS unchanged |
| Catalog.DeleteCategoryEffect | telegram_bot.py:420 | only that key is removed, from the map and from the key order; absent key is a no-op; ITEMS untouched so listed items survive as orphans |
| Catalog.AddItemEffect | telegram_bot.py:503-504 | ITEMS gains the record; the key ends the chosen list, which is created (last in order) when absent; nothing else changes |
| Catalog.RepeatedCommitDuplicates | telegram_bot.py:503-504 | committing the same buffers twice lists the key twice in the category |
| Catalog.RemoveEverywhereEffect | telegram_bot.py:584-586 | every list loses its first occurrence of the key; order, key set and ITEMS unchanged |
| Catalog.RemoveEverywhereClears | telegram_bot.py:584-586 | without duplicates, no list holds the key afterwards and none gains a duplicate |
| Catalog.RemoveEverywhereShrinks | telegram_bot.py:584-586 | removal never adds a key to a list |
| Catalog.MoveItemEffect | telegram_bot.py:584-588 | each list loses the first occurrence, then the target ends with the key; the key order gains the target at the end only when it is new; ITEMS unchanged |
| Catalog.MoveItemSingleHome | telegram_bot.py:584-588 | without duplicates beforehand, the target is the only category listing the item, and still no duplicates |
| Catalog.MoveItemReferenced | telegram_bot.py:577-589 | moving an existing item keeps every listed key in ITEMS |
| Catalog.DeleteItemEffect | telegram_bot.py:617-620 | the key leaves ITEMS, other items unchanged, each list loses the first occurrence, the key order is unchanged |
| Catalog.DeleteItemClearsReferences | telegram_bot.py:617-620 | without duplicates, no category lists the deleted key and referential integrity is kept |
| Catalog.DeleteItemLeavesDuplicate | telegram_bot.py:618-620 | with a duplicate, a category still lists the deleted key, so integrity is lost |
| Catalog.DefaultsConsistent | telegram_bot.py:80-102 | the default catalog is well formed, every listed key is an item, no duplicates, all prices positive |
| Store.CatalogStore.constructor | telegram_bot.py:105-106 | the store starts from the loaded tables |
| Store.CatalogStore.AddCategory | telegram_bot.py:349 | in-place `CATEGORIES[key] = []` yields Catalog.AddCategory and keeps the store consistent |
| Store.CatalogStore.RenameCategory | telegram_bot.py:391 | pop-then-assign yields Catalog.RenameCategory |
| Store.CatalogStore.DeleteCategory | telegram_bot.py:420 | `pop(key, None)` yields Catalog.DeleteCategory |
| Store.CatalogStore.AppendToCategory | telegram_bot.py:504 | `setdefault(cat, []).append(key)` yields Catalog.AppendToCategory |
| Store.CatalogStore.AddItem | telegram_bot.py:503-504 | record stored then key appended: Catalog.AddItem |
| Store.CatalogStore.SetPrice | telegram_bot.py:565 | only that item's price changes |
| Store.CatalogStore.SetTextField | telegram_bot.py:570-572 | only that item's named text field changes |
| Store.CatalogStore.RemoveEverywhere | telegram_bot.py:584-586 | the remove loop over the categories yields Catalog.RemoveEverywhere |
| Store.RemoveFromLists | telegram_bot.py:618-620 | the loop visiting each category once gives every list minus its first occurrence of the key |
| Store.CatalogStore.MoveItem | telegram_bot.py:584-588 | loop then append: Catalog.MoveItem |
| Store.CatalogStore.DeleteItem | telegram_bot.py:617-620 | pop then loop: Catalog.DeleteItem |
| Sessions.Code | telegram_bot.py:48-66 | each state has a code below 16 |
| Sessions.FromCode | telegram_bot.py:48-66 | every code in `range(16)` names the state with that code |
| Sessions.CodesDistinct | telegram_bot.py:48-66 | two states share a code only if they are the same state |
| Sessions.CodeRoundTrip | telegram_bot.py:48-66 | decoding a state's code gives the state back |
| Sessions.IsAdminUser | telegram_bot.py:109-111 | true exactly when a user is present and its id is 7260656020 |
| Sessions.TextTableInjective | telegram_bot.py:685-693 | each text handler is registered for exactly one state |
| Sessions.FieldValueOnlyState | telegram_bot.py:693 | only ITEM_EDIT_FIELD_VALUE hands text to the field-value handler |
| Sessions.FieldValueUnreachable | telegram_bot.py:545-548 | as written, the state after choosing any field accepts no text |
| Sessions.FieldSelectState | telegram_bot.py:534-548 | corrected: the next state accepts the typed value exactly when the field is not `category` |
| Payments.Recorded | telegram_bot.py:224-242 | the pending payment changes only when the item exists and an address was issued, and then holds that item, address and price |
| Payments.BuyRequest | telegram_bot.py:224-242 | the Buy handler updates the pending payment as Recorded says, and nothing else |
| Payments.Settle | telegram_bot.py:251-281 | the `/confirm` decision in the handler's order of checks; DeliveredExactly is proved about it |
| Payments.PendingAfter | telegram_bot.py:277-279 | after a `/confirm` no payment is pending exactly when none was or the file was delivered; otherwise the same payment stays |
| Payments.Confirm | telegram_bot.py:251-281 | `/confirm` ends as Settle says and leaves the pending payment as PendingAfter says; the state and buffers are untouched |
| Payments.DeliveredExactly | telegram_bot.py:251-277 | delivery happens exactly when a payment is pending, the balance reaches amount minus 1e-12, the item and its file exist, and the send succeeds |
| Payments.ShortfallKeepsPending | telegram_bot.py:263-281 | a balance short by more than the tolerance ends in a shortfall and the payment stays pending |
| Payments.PurchaseCompletes | telegram_bot.py:238-277 | after a successful Buy, paying the price with the file present and sent delivers |
| Payments.AmountFixedAtBuy | telegram_bot.py:241 | the recorded amount is the price at Buy time; whatever price the item gets later, `/confirm` settles exactly as under the old price, and paying the old price delivers |
| Payments.NoSecondDelivery | telegram_bot.py:253-256 | after a delivery, the next `/confirm` finds nothing pending, whatever the catalog, balance, files and send then are |
| AdminFlow.CatAddReceiveStep | telegram_bot.py:341-360 | a refused key (not alphanumeric once normalised, or already a category) stays in CATEGORY_ADD with nothing changed; the buffers are never touched; a change to the catalog always ends in the raise from the stand-in query (lines 354-359), so the state does not advance |
| AdminFlow.CatAddReceive | telegram_bot.py:341-360 | updates the store in place exactly as CatAddReceiveStep says and returns its state: Catalog.AddCategory for a fresh alphanumeric key, then `None` |
| AdminFlow.CatEditStartStep | telegram_bot.py:362-376 | never changes the catalog and never raises; remembers the key only when the payload has a fourth part naming an existing category |
| AdminFlow.CatEditStart | telegram_bot.py:362-376 | updates the buffers exactly as CatEditStartStep says and returns CATEGORY_EDIT_KEY or CATEGORY_MENU |
| AdminFlow.CatEditReceiveStep | telegram_bot.py:378-394 | a refused new key stays in CATEGORY_EDIT_KEY with nothing changed; the buffers are never touched; a rename always ends in the raise of admin_show_categories without a pressed button (line 394), and so does a missing or vanished category (line 383) |
| AdminFlow.CatEditReceive | telegram_bot.py:378-394 | updates the store exactly as CatEditReceiveStep says: Catalog.RenameCategory of the remembered category to a fresh alphanumeric key, else no change |
| AdminFlow.CatDeleteConfirmStep | telegram_bot.py:396-410 | never changes the catalog and never raises; remembers only a non-empty existing category key |
| AdminFlow.CatDeleteConfirm | telegram_bot.py:396-410 | updates the buffers exactly as CatDeleteConfirmStep says |
| AdminFlow.CatDeleteExecuteStep | telegram_bot.py:412-423 | never touches the buffers; always CATEGORY_MENU |
| AdminFlow.CatDeleteExecute | telegram_bot.py:412-423 | updates the store exactly as CatDeleteExecuteStep says: Catalog.DeleteCategory of a remembered non-empty key, else no change |
| AdminFlow.ItemAddKeyReceivedStep | telegram_bot.py:446-456 | never changes the catalog; a refused key (not alphanumeric, or already an item) stays in ITEM_ADD_KEY with the buffers unchanged |
| AdminFlow.ItemAddKeyReceived | telegram_bot.py:446-456 | updates the buffers exactly as ItemAddKeyReceivedStep says |
| AdminFlow.ItemAddNameReceivedStep | telegram_bot.py:458-461 | never changes the catalog and always moves on to ITEM_ADD_PRICE |
| AdminFlow.ItemAddNameReceived | telegram_bot.py:458-461 | buffers the stripped text as the name, as ItemAddNameReceivedStep says |
| AdminFlow.ItemAddPriceReceivedStep | telegram_bot.py:463-473 | never changes the catalog; a price that does not parse or is not positive stays in ITEM_ADD_PRICE with the buffers unchanged |
| AdminFlow.ItemAddPriceReceived | telegram_bot.py:463-473 | updates the buffers exactly as ItemAddPriceReceivedStep says |
| AdminFlow.ItemAddPathReceivedStep | telegram_bot.py:475-485 | never changes the catalog; a path that does not exist stays in ITEM_ADD_PATH with the buffers unchanged |
| AdminFlow.ItemAddPathReceived | telegram_bot.py:475-485 | updates the buffers exactly as ItemAddPathReceivedStep says |
| AdminFlow.ItemAddCategorySelectedStep | telegram_bot.py:487-508 | never touches the buffers; raises exactly when the payload is not `admin:cat:add` and its `split(":", 2)` does not unpack into three names |
| AdminFlow.ItemAddCategorySelected | telegram_bot.py:487-508 | updates the store exactly as ItemAddCategorySelectedStep says: Catalog.AddItem of the buffered record only when all four buffers are truthy, without re-checking the key |
| AdminFlow.CommitStep | telegram_bot.py:495-508 | with all four buffers truthy, a payload that unpacks commits the buffered record under the buffered key into the named category and shows ITEM_MENU |
| AdminFlow.ItemEditStartStep | telegram_bot.py:510-532 | never changes the catalog and never raises; remembers the key only when the payload names an existing item |
| AdminFlow.ItemEditStart | telegram_bot.py:510-532 | updates the buffers exactly as ItemEditStartStep says |
| AdminFlow.ItemFieldSelectStep | telegram_bot.py:534-548 | never changes the catalog and never raises; remembers the field named by the last part |
| AdminFlow.ItemFieldSelect | telegram_bot.py:534-548 | updates the buffers as ItemFieldSelectStep says; under the corrected next state, the state it returns accepts the value as text exactly when the field is not `category` |
| AdminFlow.ItemFieldValueReceivedStep | telegram_bot.py:550-575 | a bad price or a missing path stays in ITEM_EDIT_FIELD_VALUE with nothing changed; the buffers are never touched; an update to the item always ends in the raise of admin_show_items without a pressed button (line 575) |
| AdminFlow.ItemFieldValueReceived | telegram_bot.py:550-575 | updates the store exactly as ItemFieldValueReceivedStep says: only the remembered field of the remembered item, and only while that item exists |
| AdminFlow.ItemMoveCategoryStep | telegram_bot.py:577-591 | never touches the buffers; always ITEM_MENU |
| AdminFlow.ItemMoveCategory | telegram_bot.py:577-591 | updates the store exactly as ItemMoveCategoryStep says: Catalog.MoveItem of the remembered item to the last payload part |
| AdminFlow.ItemDeleteConfirmStep | telegram_bot.py:593-607 | never changes the catalog and never raises; remembers only a non-empty existing item key |
| AdminFlow.ItemDeleteConfirm | telegram_bot.py:593-607 | updates the buffers exactly as ItemDeleteConfirmStep says |
| AdminFlow.ItemDeleteExecuteStep | telegram_bot.py:609-624 | never touches the buffers; always ITEM_MENU |
| AdminFlow.ItemDeleteExecute | telegram_bot.py:609-624 | updates the store exactly as ItemDeleteExecuteStep says: Catalog.DeleteItem of a remembered key still in ITEMS, else no change |
| AdminFlow.CatAddReceiveKeeps | telegram_bot.py:349 | adding a category keeps the key order consistent, every listed item existing, and no list holding a key twice |
| AdminFlow.CatEditReceiveKeeps | telegram_bot.py:391 | renaming keeps the same three invariants |
| AdminFlow.ItemFieldValueReceivedKeeps | telegram_bot.py:565-572 | a field edit leaves CATEGORIES and the set of item keys as they were |
| AdminFlow.CatDeleteExecuteKeeps | telegram_bot.py:420 | deleting a category keeps the three invariants |
| AdminFlow.ItemDeleteExecuteKeeps | telegram_bot.py:617-620 | deleting an item keeps the key order consistent and, when no list held a key twice, every listed item existing |
| AdminFlow.ItemMoveCategoryKeeps | telegram_bot.py:584-588 | moving an item keeps the key order consistent |
| AdminFlow.ItemAddCategorySelectedKeeps | telegram_bot.py:503-504 | committing an item keeps the key order consistent and every listed item existing |
| AdminFlow.AddItemConversation | telegram_bot.py:446-508 | a fresh alphanumeric key, a non-empty name, a positive price, an existing non-empty path and a category button go through ITEM_ADD_NAME, ITEM_ADD_PRICE, ITEM_ADD_PATH and ITEM_ADD_CATEGORY to ITEM_MENU, and commit exactly that record under that key into that category |
| AdminFlow.AddItemSteps | telegram_bot.py:446-485 | each of the four accepted text steps fills its buffer and moves to the next state |
| AdminFlow.RenameConversation | telegram_bot.py:362-394 | the edit button of an existing non-empty category and a fresh alphanumeric key rename exactly that category; the state then stays |
| AdminFlow.DeleteCategoryConversation | telegram_bot.py:396-423 | the delete button of an existing non-empty category and then "Yes" delete exactly that category |
| AdminFlow.DeleteItemConversation | telegram_bot.py:593-624 | the delete button of an existing non-empty item and then "Yes" delete exactly that item |
| AdminFlow.EditFieldConversation | telegram_bot.py:510-575 | under the corrected field-select state, the edit button of an item, a text field button and a value (an existing path for `file_path`) set exactly that field of exactly that item |
| Router.OnText | telegram_bot.py:685-693 | text outside the conversation or in a state with no text handler changes nothing; otherwise the catalog and buffers end as the state's handler step says and its returned state becomes the state, which stays when the handler raised |
| Router.RejectedTextChangesNothing | telegram_bot.py:685-693 | text refused by a state's handler leaves the user in that state with the catalog and buffers unchanged |
| Router.TextEffects | telegram_bot.py:341-575 | a text step changes the catalog or the buffers, never both; only the category-add, category-rename and field-value handlers change the catalog, and each then raises |
| Router.TextKeepsWellFormed | telegram_bot.py:341-575 | every text step keeps the key order consistent, every listed item existing, and no list holding a key twice |
| Router.OnAdminPress | telegram_bot.py:627-662 | under the corrected dispatch, the catalog and buffers end as the dispatched handler's step says, and its returned state becomes the state unless it raised; no admin check |
| Router.PressEffects | telegram_bot.py:627-662 | a screen button changes only the state; only the two delete confirmations, the move and the category assignment change the catalog; only the start, confirm and field-select buttons change the buffers; only a malformed assignment payload raises |
| Router.PressKeepsWellFormed | telegram_bot.py:627-662 | every admin button keeps the key order of CATEGORIES consistent with its keys |
| Router.AssignCommits | telegram_bot.py:482-508 | with the four buffers filled, the button for a category reaches the add-item category handler under the corrected dispatch and commits the buffered record into that category |
| Router.OnUserPress | telegram_bot.py:143-192 | never touches the catalog or buffers; an `admin:` payload other than `admin:open` sets the screen admin_callback_router picks; `admin:open` opens the panel only for the admin; only Buy touches the pending payment |
| Router.OnCancel | telegram_bot.py:696 | `/cancel` leaves the user with no registered state |
| Router.OnAdminCommand | telegram_bot.py:682 | `/admin` opens the panel for the admin; anyone else is left with no registered state |

## Left out

- Telegram transport and rendering: keyboards, message texts, Markdown and `query.answer`.
  Screens that only display (`/start`, `nav:categories`, a category or item press) change no
  state and have no member.
- Handler registration and precedence (telegram_bot.py:665-706) are not modelled. All the
  handlers are added to the same group, and the framework gives an update to the first one
  that matches. As registered, `callback_router` (line 674) takes every button press, including
  the `admin:` presses that `generic_admin_callback_dispatch` (line 704) would take. The no-op
  `admin_text_handler` (lines 678 and 709-715) takes every text message before the conversation
  (line 699) sees it. The return value of a handler outside the conversation is not a
  conversation state. The model instead takes the state each handler returns as the user's next
  state, and it has two press entry points, `Router.OnUserPress` for `callback_router` and
  `Router.OnAdminPress` for `generic_admin_callback_dispatch`.
- Gateway HTTP calls (telegram_bot.py:195-222) become inputs. `AddressReply` covers a raised
  error or the reply's `address` field. An optional real stands for the balance, with `None` for
  a raised error. The satoshi-to-BTC conversion is left out.
- JSON persistence (telegram_bot.py:69-77 and 720-721): the store starts from given tables, and
  the saves are not modelled.
- Filesystem checks and the file send become inputs: a set of existing paths and a send-success
  flag.
- `float(text)` becomes an input function returning an optional real. Prices and the `1e-12`
  tolerance are exact reals, so float rounding is not modelled. Python's `float("nan")` also
  passes the `<= 0` tests at telegram_bot.py:466 and 560, so a price of nan can be stored, and
  no balance ever reaches it. The model's reals have no nan or infinity, so that path is not
  modelled.
- Unicode behaviour of `isalnum`, `lower` and `strip`: the model works over ASCII plus the
  ASCII control characters that `str.strip` removes. Non-ASCII whitespace such as U+0085 and
  U+00A0, and non-ASCII letters and digits, are not modelled.
- The display order of ITEMS (telegram_bot.py:429) is not modelled. CATEGORIES order is
  modelled.
- Async execution and process start-up (telegram_bot.py:716-730).
- List objects are held by value. Aliasing between a list in CATEGORIES and other references to
  it is not modelled; the handlers create no such alias.
- A handler that raises has `None` as its next state, and the conversation state then stays as
  it was. Updates the handler made to the catalog before the raise are kept. This is the case
  for `AdminFlow.CatAddReceive`, `AdminFlow.CatEditReceive` and
  `AdminFlow.ItemFieldValueReceived`, which call a screen that reads the pressed button after
  a text message. The framework's error reporting is not modelled.
- AdminFlow.ItemMoveCategory: with no item remembered, Python appends `None` to the target list.
  The model leaves the catalog unchanged in that case, because item lists hold strings only.
- Router.OnAdminCommand: for a non-admin, the `/admin` entry returns the reply message object
  where a state is expected. No handler is registered for that object, so the model sets no
  state. `Router.OnCancel` treats the `/cancel` fallback (telegram_bot.py:696) the same way.
- AdminFlow.ItemFieldSelect: states its next state under the corrected behaviour recorded
  under Findings. The code as written is modelled by `Sessions.FieldSelectStateAsWritten` and
  shown unable to reach the value handler by `Sessions.FieldValueUnreachable`.
- Router.OnAdminPress: dispatches with the corrected `Callbacks.DecodeAdminRouted`, which sends
  `admin:assign_cat:` payloads to the add-item category handler. The dispatch as written is
  `Callbacks.DecodeAdmin`, and `Callbacks.AssignPrefixFallsThrough` shows it never reaching that
  handler.

## Findings

| source | as written | input that shows it | evidently intended | confidence | as-written member | corrected member |
|---|---|---|---|---|---|---|
| telegram_bot.py:545-548 | `admin_item_field_select` returns ITEM_EDIT_FIELD_SELECT in both branches, but the conversation hands text to the field-value handler only in ITEM_EDIT_FIELD_VALUE (line 693) | press `admin:item:field:name`, then type a new name: no text handler is registered for the state, so the value is never applied | return ITEM_EDIT_FIELD_VALUE when the field is not `category` | not executed | Sessions.FieldValueUnreachable | Sessions.FieldSelectState |
| telegram_bot.py:627-662 | the category buttons of the add-item flow carry `admin:assign_cat:<k>` (line 482), but neither admin router maps that payload to `admin_item_add_category_selected` (lines 487-508); both fall back to the admin panel | press `admin:assign_cat:ebooks` after sending the file path: the panel is shown and the item is never committed | dispatch `admin:assign_cat:` payloads to `admin_item_add_category_selected` | not executed | Callbacks.AssignPrefixFallsThrough | Callbacks.DecodeAdminRouted |
