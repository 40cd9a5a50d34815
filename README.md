# Café kiosk ordering core, modelled in Dafny

This project models the in-memory logic of a self-service café kiosk: a Next.js
shop front with an admin back office. On the shop side it covers:

- the customer's cart store, with its two insertion policies (append, and merge by
  variant) and its derived totals;
- the vending grid, which expands a menu's required option groups into one card per
  combination;
- the option picker modal;
- the server-side order pricing route, which recomputes every price from menu data and
  numbers the order.

On the translation side it covers:

- message lookup with `{name}` placeholder substitution, and the translation-map
  fallback;
- the AI translation route's work list and per-language merge;
- the settings page's count of missing translations and its language toggle;
- the translation editor's item list and save-time merge;
- the UI-message translation script, with its missing keys, batches of 50, merge and
  ordered output.

On the admin side it covers the category manager (adding, renaming, drag reordering and
the reference image gallery) and the menu form (option-group editing, reference-image
de-duplication, prompts, and the save-time plan of menu, group and option requests).

Translation maps stored as JSON text are modelled as `Option<map<string, string>>`, where
`None` stands for text that does not parse. Data the code fetches (menus, categories,
settings, the last order, message files) enters as parameters. The requests and writes it
sends leave as returned values. Each source file is one module:

| module | file |
|---|---|
| `Base` | shared helpers: `Option`, whitespace trimming, joining, decimal digits, `padStart`, sums |
| `Catalog` | `src/types/index.ts` |
| `Cart` | `src/stores/cartStore.ts` |
| `Vending` | `src/components/shop/VendingGrid.tsx` |
| `OptionModal` | `src/components/shop/OptionModal.tsx` |
| `Orders` | `src/app/api/orders/route.ts` |
| `I18n` | `src/lib/i18n.ts` |
| `TranslateRoute` | `src/app/api/translate/route.ts` |
| `SettingsForm` | `src/components/admin/SettingsForm.tsx` |
| `TranslationManager` | `src/components/admin/TranslationManager.tsx` |
| `CategoryManager` | `src/components/admin/CategoryManager.tsx` |
| `MenuForm` | `src/components/admin/MenuForm.tsx` |
| `TranslateUi` | `scripts/translate-ui.ts` |

The modelled Dafny form follows the source:

- Stores and components whose handlers replace state are classes, with `modifies`
  clauses on their methods: `Cart.CartStore`, `OptionModal.Picker`, `CategoryManager.Page`
  and `MenuForm.Form`.
- Each loop of the source is a method with invariants. The method is proved equal to a
  specification function, and lemmas about that function carry the properties.
- Pure lookups and folds are functions.

## Model

| member | source | states |
|---|---|---|
| Base.TrimStart | src/components/admin/CategoryManager.tsx:53 | the result is a suffix of the input, everything cut off is whitespace, and the result does not start with whitespace |
| Base.TrimEnd | src/components/admin/CategoryManager.tsx:53 | the result is a prefix of the input, everything cut off is whitespace, and the result does not end with whitespace |
| Base.Trim | src/components/admin/CategoryManager.tsx:55 | `trim()` returns the slice between the leading and trailing whitespace runs, with no whitespace at either end |
| Base.TrimEmptyIffBlank | src/components/admin/CategoryManager.tsx:53 | a string trims to "" exactly when it is all whitespace (a falsy `trim()`) |
| Base.Join | src/components/shop/VendingGrid.tsx:69 | joining a single part gives that part |
| Base.JoinLength | src/components/shop/VendingGrid.tsx:69 | the joined length is the sum of the part lengths plus one separator between each pair |
| Base.JoinSnoc | src/components/admin/MenuForm.tsx:175 | joining with one more part appends the separator and that part |
| Base.Digits | src/app/api/orders/route.ts:31 | `String(n)` of a natural number is all digits, with no leading zero |
| Base.ParseDigitsRoundTrip | src/app/api/orders/route.ts:31 | reading back the decimal digits of `n` gives `n` |
| Base.ParseDigitsLeadingZeros | src/app/api/orders/route.ts:31 | zeros padded on the left do not change the value the digits denote |
| Base.PadStart | src/app/api/orders/route.ts:31 | `padStart(width, c)` has length `max(|s|, width)` and is `s` preceded by copies of `c` |
| Base.IntString | src/components/admin/TranslationManager.tsx:81 | the decimal text of an integer id, with a minus sign for negatives |
| Base.RemoveAt | src/stores/cartStore.ts:48 | filtering out index `k` drops exactly that element and keeps the others in order; an out-of-range `k` changes nothing |
| Base.SumOfAppend | src/stores/cartStore.ts:106-108 | a `reduce` sum over a concatenation is the sum of the two parts |
| Base.SumOfUpdate | src/stores/cartStore.ts:52-64 | replacing one element moves the sum by the difference of the two values |
| Base.SumOfRemoveAt | src/stores/cartStore.ts:46-50 | removing one element subtracts its value from the sum |
| Catalog.GetTranslation | src/types/index.ts:77-88 | returns the map's entry for the language when it is present and non-empty; otherwise (absent, empty, or malformed JSON) returns the fallback |
| Catalog.FindGroup | src/app/api/orders/route.ts:49 | `find` by id: a result exists iff some group has the id, and it is the first such group |
| Catalog.FindOption | src/app/api/orders/route.ts:50 | `find` by id among a group's options: a result exists iff some option has the id, and it is the first such option |
| Catalog.Resolve | src/app/api/orders/route.ts:49-51 | a selection resolves to a (group, option) pair with the given ids, where the option belongs to the group; when it does not resolve, the group or the option was not found |
| Cart.Pairs | src/stores/cartStore.ts:8 | the key projection keeps exactly the (groupId, optionId) pair of each option, in order |
| Cart.InsertPairSorted | src/stores/cartStore.ts:7 | inserting into a sorted list keeps it sorted and adds exactly that pair |
| Cart.SortPairsSorted | src/stores/cartStore.ts:7 | the comparator sort yields a sorted permutation |
| Cart.OptionsKeySorted | src/stores/cartStore.ts:6-9 | the option key is the sorted permutation of the (groupId, optionId) pairs |
| Cart.OptionsKey | src/stores/cartStore.ts:6-9 | the variant key of a line: its (groupId, optionId) pairs sorted; OptionsKeySorted and OptionsKeyMatch state what it is |
| Cart.SortedUnique | src/stores/cartStore.ts:7 | two sorted lists holding the same pairs are equal |
| Cart.OptionsKeyMatch | src/stores/cartStore.ts:6-9 | two option lists have equal keys iff they hold the same multiset of (groupId, optionId) pairs, whatever their order, names or modifiers |
| Cart.WithQuantity | src/stores/cartStore.ts:26-32 | setting the quantity recomputes the subtotal as `(unitPrice + sum of modifiers) * quantity` and changes no other field |
| Cart.CalcSubtotal | src/stores/cartStore.ts:26-32 | `(unitPrice + sum of modifiers) * quantity`; WithQuantity, IncrementSubtotal and AddedSubtotalIsTotalPrice state what it gives |
| Cart.IncrementSubtotal | src/stores/cartStore.ts:76-81 | one more unit adds exactly one unit price to a consistent line's subtotal |
| Cart.FindMatch | src/stores/cartStore.ts:71-73 | `findIndex` returns the first line of the variant, or -1 when no line matches |
| Cart.ItemCount | src/stores/cartStore.ts:98-104 | the count is the quantity of the first matching line, or 0 when none matches |
| Cart.SetQuantity | src/stores/cartStore.ts:52-64 | an absent index leaves the list unchanged; otherwise only that line changes: its quantity becomes `q` (zero allowed) and its subtotal is recomputed |
| Cart.AddOrIncrementShape | src/stores/cartStore.ts:68-87 | either the first line of the variant gets quantity + 1 and a recomputed subtotal in place (same length, every other line untouched), or one line with quantity 1 is appended |
| Cart.AddOrIncrement | src/stores/cartStore.ts:68-87 | bump the first line of the variant or append a quantity-1 line; the AddOrIncrement lemmas state its shape, counts and totals |
| Cart.AddOrIncrementCount | src/stores/cartStore.ts:68-87 | merging raises the variant's count by exactly 1 |
| Cart.AddOrIncrementOtherCount | src/stores/cartStore.ts:68-87 | merging leaves the count of every other variant unchanged |
| Cart.AddOrIncrementItems | src/stores/cartStore.ts:68-87 | merging raises the total item count by 1 |
| Cart.AddOrIncrementAmount | src/stores/cartStore.ts:68-87 | merging raises the total amount by one unit price of the bumped or appended line |
| Cart.AppendAmount | src/stores/cartStore.ts:84-85 | appending a quantity-1 line adds its unit price to the total |
| Cart.BumpAmount | src/stores/cartStore.ts:74-82 | bumping a consistent line adds its unit price to the total |
| Cart.AddOrIncrementDistinct | src/stores/cartStore.ts:68-87 | merging keeps at most one line per variant |
| Cart.RemoveMatchingNone | src/stores/cartStore.ts:89-96 | after `removeByMatch` every remaining line came from the cart and none is of the variant, so its count is 0 |
| Cart.RemoveMatching | src/stores/cartStore.ts:92-94 | drop every line of the variant; RemoveMatchingNone, RemoveMatchingKeeps, RemoveMatchingAppend and RemoveMatchingNoOp state it |
| Cart.RemoveMatchingAppend | src/stores/cartStore.ts:92-94 | the filter distributes over concatenation, so the kept lines stay in their original order |
| Cart.RemoveMatchingNoOp | src/stores/cartStore.ts:92-94 | removing a variant that is not in the cart changes nothing |
| Cart.RemoveMatchingKeeps | src/stores/cartStore.ts:92-94 | every line of another variant is kept |
| Cart.RemoveMatchingDistinct | src/stores/cartStore.ts:92-94 | when the cart holds at most one line per variant, removing by variant equals removing that line's index |
| Cart.SetQuantityTotals | src/stores/cartStore.ts:52-64 | changing one line's quantity keeps the length and moves the item count by the difference |
| Cart.RemoveAtTotals | src/stores/cartStore.ts:46-50 | removing a line subtracts its quantity and subtotal from the totals |
| Cart.CartStore.constructor | src/stores/cartStore.ts:35-37 | the store starts with no lines and no order type |
| Cart.CartStore.SetOrderType | src/stores/cartStore.ts:36 | sets the order type and leaves the lines alone |
| Cart.CartStore.AddItem | src/stores/cartStore.ts:39-44 | appends exactly one line with a computed subtotal and leaves every existing line unchanged, even one of the same variant |
| Cart.CartStore.RemoveItem | src/stores/cartStore.ts:46-50 | the new lines are the old ones without index `i` (unchanged when `i` is out of range) |
| Cart.CartStore.UpdateQuantity | src/stores/cartStore.ts:52-64 | the new lines are `SetQuantity` of the old lines, so every line's subtotal stays consistent |
| Cart.CartStore.ClearCart | src/stores/cartStore.ts:66 | empties the lines and resets the order type |
| Cart.CartStore.AddOrIncrementItem | src/stores/cartStore.ts:68-87 | the new lines are `AddOrIncrement` of the old lines, the merge policy whose shape and totals are proved above |
| Cart.CartStore.RemoveByMatch | src/stores/cartStore.ts:89-96 | the new lines are the old ones without every line of the variant |
| Cart.CartStore.GetItemCount | src/stores/cartStore.ts:98-104 | the scan returns the quantity of the first matching line, or 0 |
| Cart.CartStore.TotalAmount | src/stores/cartStore.ts:106 | the sum of the subtotals, which is 0 for an empty cart |
| Cart.CartStore.TotalItems | src/stores/cartStore.ts:108 | the sum of the quantities, which is 0 for an empty cart |
| Vending.RequiredGroups | src/components/shop/VendingGrid.tsx:25 | every kept group is required and from the list, and every required group is kept; RequiredGroupsSingle and RequiredGroupsAppend give the order and multiplicity |
| Vending.RequiredGroupsSingle | src/components/shop/VendingGrid.tsx:25 | one group is kept iff it is required |
| Vending.RequiredGroupsAppend | src/components/shop/VendingGrid.tsx:25 | the filter distributes over concatenation, so the required groups are kept once each, in their order |
| Vending.ExtendOne | src/components/shop/VendingGrid.tsx:47-63 | extending one combination gives one combination per option of the group, in option order |
| Vending.OptionLabels | src/components/shop/VendingGrid.tsx:69 | one localized label per selected option |
| Vending.BuildCombinations | src/components/shop/VendingGrid.tsx:24-81 | the nested push loops build exactly the specified card list |
| Vending.NoRequiredGroupsOneCard | src/components/shop/VendingGrid.tsx:29-42 | a menu without required groups gives exactly one card, with no options, an empty label and the base price |
| Vending.AllCards | src/components/shop/VendingGrid.tsx:101-110 | the loop over categories and menus builds exactly the specified card list |
| Vending.Chunks | src/components/shop/VendingGrid.tsx:112-119 | the rows concatenate to the cards, there are ceil(n/4) of them, every row except the last is full, and each row has `4 - length` empty slots, always fewer than 4 |
| Vending.GetCount | src/components/shop/VendingGrid.tsx:121-136 | a card's badge is the cart's count for its menu and sorted option key |
| Vending.ExtendLength | src/components/shop/VendingGrid.tsx:45-65 | each group multiplies the number of combinations by its option count |
| Vending.CombosCount | src/components/shop/VendingGrid.tsx:44-65 | the number of combinations is the product of the required groups' option counts |
| Vending.Combos | src/components/shop/VendingGrid.tsx:44-65 | the Cartesian product of the required groups' options; CombosCount, CombosIndex, CombosPick and CombosComplete state it |
| Vending.ProductZero | src/components/shop/VendingGrid.tsx:44-65 | that product is 0 iff some group has no options |
| Vending.ExtendIndex | src/components/shop/VendingGrid.tsx:47-63 | combination `i` with option `j` lands at position `i * |options| + j`, so later groups vary fastest |
| Vending.CombosIndex | src/components/shop/VendingGrid.tsx:44-65 | the nested order, stated for the whole product |
| Vending.ExtendMembers | src/components/shop/VendingGrid.tsx:47-63 | each extended combination is an earlier combination plus one option of the group |
| Vending.CombosPick | src/components/shop/VendingGrid.tsx:44-65 | every combination picks exactly one option of each required group, in group order |
| Vending.CombosComplete | src/components/shop/VendingGrid.tsx:44-65 | every such pick appears among the combinations |
| Vending.MenuCardsShape | src/components/shop/VendingGrid.tsx:24-81 | a menu's cards number the product, each card is a pick from the required groups, and every pick has a card |
| Vending.CardsOf | src/components/shop/VendingGrid.tsx:24-81 | one card per combination of a menu; MenuCardsShape and CardPrices state the cards |
| Vending.CardPrices | src/components/shop/VendingGrid.tsx:67-80 | each card has the menu id, `unitPrice` = menu price, `totalPrice` = price + the sum of its modifiers (the cart's unit price of that line), and its label is the option names joined by " / " |
| Vending.MenuCardsActive | src/components/shop/VendingGrid.tsx:105 | every card comes from an active menu |
| Vending.MenuCardsAppend | src/components/shop/VendingGrid.tsx:104-109 | cards follow menu order |
| Vending.CategoryCardsAppend | src/components/shop/VendingGrid.tsx:101-110 | cards follow category order |
| Vending.TapRaisesCount | src/components/shop/VendingGrid.tsx:170-171 | tapping a card raises its badge by exactly 1 |
| Vending.RemoveClearsCount | src/components/shop/VendingGrid.tsx:190-192 | the remove button clears the card's badge to 0 |
| OptionModal.OrderedTail | src/components/shop/OptionModal.tsx:39-53 | the tail of a selection object sorted by group id is still sorted |
| OptionModal.PutSpec | src/components/shop/OptionModal.tsx:51 | setting a group's selection keeps the object ordered and changes only that group's entry |
| OptionModal.RemoveSpec | src/components/shop/OptionModal.tsx:45-47 | deleting a group's selection keeps the object ordered and clears only that group |
| OptionModal.Picker.constructor | src/components/shop/OptionModal.tsx:18-27 | the modal opens with the preselection and quantity 1 |
| OptionModal.Picker.SelectOption | src/components/shop/OptionModal.tsx:39-53 | the selection becomes the toggled selection, and the quantity is unchanged |
| OptionModal.Picker.Decrement | src/components/shop/OptionModal.tsx:176 | the quantity decreases by 1 but never below 1 |
| OptionModal.Picker.Increment | src/components/shop/OptionModal.tsx:185 | the quantity increases by exactly 1 |
| OptionModal.Picker.AddToCart | src/components/shop/OptionModal.tsx:55-85 | callable only once every required group is selected, as the add button is disabled otherwise; appends one line through the append path, with the base unit price, the chosen quantity and the resolvable selections |
| OptionModal.CollectOptions | src/components/shop/OptionModal.tsx:56-69 | the collecting loop yields exactly the chosen options: one per selection whose group and option both resolve, in selection order |
| OptionModal.PreselectSpec | src/components/shop/OptionModal.tsx:18-27 | exactly the required groups with at least one option are preselected, each to its first option |
| OptionModal.Preselect | src/components/shop/OptionModal.tsx:18-27 | the initial selection; PreselectSpec and PreselectComplete state it |
| OptionModal.PreselectComplete | src/components/shop/OptionModal.tsx:83-85 | the preselection is complete iff every required group has an option |
| OptionModal.AllRequiredSelected | src/components/shop/OptionModal.tsx:83-85 | every required group has a selection; PreselectComplete and SelectKeepsAllRequired state when it holds, and Picker.AddToCart requires it |
| OptionModal.SelectToggleSpec | src/components/shop/OptionModal.tsx:39-53 | choosing a new option sets it; re-choosing the current option clears it in an optional group and changes nothing in a required group; other groups are untouched |
| OptionModal.SelectToggle | src/components/shop/OptionModal.tsx:39-53 | the selection after a tap; SelectToggleSpec and SelectKeepsAllRequired state it |
| OptionModal.SelectKeepsAllRequired | src/components/shop/OptionModal.tsx:41-49 | once complete, no toggle makes the selection incomplete |
| OptionModal.ChosenOptionsSound | src/components/shop/OptionModal.tsx:57-70 | every emitted option comes from a selection that resolves |
| OptionModal.ChosenOptions | src/components/shop/OptionModal.tsx:56-69 | the cart options of a selection; ChosenOptionsSound, ChosenOptionsComplete and ChosenOptionsOrdered state them |
| OptionModal.ChosenOptionsComplete | src/components/shop/OptionModal.tsx:57-70 | every resolvable selection is emitted |
| OptionModal.ChosenOptionsOrdered | src/components/shop/OptionModal.tsx:57-70 | at most one option per group is emitted, in increasing group id |
| OptionModal.OptionsPriceIsCartPrice | src/components/shop/OptionModal.tsx:32-36 | the modal's options price equals the sum of the emitted modifiers; unresolvable selections add 0 |
| OptionModal.OptionsPrice | src/components/shop/OptionModal.tsx:31-36 | the modifiers of the selections that resolve, summed; OptionsPriceIsCartPrice equates it with the modifiers of the emitted cart options |
| OptionModal.TotalPrice | src/components/shop/OptionModal.tsx:37 | `(price + optionsPrice) * quantity`; AddedSubtotalIsTotalPrice shows the cart line's subtotal equals it |
| OptionModal.AddedSubtotalIsTotalPrice | src/components/shop/OptionModal.tsx:37 | the cart line's subtotal equals the modal's displayed `(price + options) * quantity` |
| Orders.NextNumber | src/app/api/orders/route.ts:30 | the next number is at least 1 |
| Orders.OrderLanguage | src/app/api/orders/route.ts:78 | the language defaults to "ko" when missing or empty |
| Orders.PriceLine | src/app/api/orders/route.ts:45-71 | the inner loop over selections prices one line as specified |
| Orders.PlaceOrder | src/app/api/orders/route.ts:16-85 | the request is rejected iff `items` is missing or empty; otherwise the order is the specified one, and its total is the sum of its subtotals |
| Orders.ExpectedOrder | src/app/api/orders/route.ts:27-85 | the stored order: number, language, priced known lines and their total; PlaceOrder, PriceItemsKnown and StoredSumMatches state it |
| Orders.DigitsShort | src/app/api/orders/route.ts:31 | numbers below 1000 have at most 3 digits |
| Orders.OrderNumberFormat | src/app/api/orders/route.ts:27-31 | the order number is "A" followed by at least 3 digits, which denote the next number; exactly 3 digits below 1000 |
| Orders.OrderNumber | src/app/api/orders/route.ts:27-31 | "A" and the zero-padded next number; OrderNumberFormat and OrderNumberInjective state it |
| Orders.OrderNumberInjective | src/app/api/orders/route.ts:31 | different next numbers give different order numbers |
| Orders.KnownRequests | src/app/api/orders/route.ts:43 | the kept requests are those whose menu exists |
| Orders.PriceItemsPrepend | src/app/api/orders/route.ts:36-72 | a request with an unknown menu is skipped, and a known one adds exactly its priced line |
| Orders.PriceItemsKnown | src/app/api/orders/route.ts:36-72 | the order lines are the priced lines of the known requests, in request order |
| Orders.ItemPrice | src/app/api/orders/route.ts:45-59 | the menu price plus the modifiers of the resolvable selections; PriceLine, StoredSumMatches and ServerAgreesWithCart state it |
| Orders.PriceItem | src/app/api/orders/route.ts:45-71 | one priced order line with subtotal `itemPrice * quantity`; PriceItemsKnown and ServerAgreesWithCart state it |
| Orders.NoKnownMenuEmptyOrder | src/app/api/orders/route.ts:43 | when no menu is found the order has no lines and a total of 0 |
| Orders.NoneKnown | src/app/api/orders/route.ts:43 | when no menu is found no request is kept |
| Orders.UnresolvedIgnored | src/app/api/orders/route.ts:49-58 | a selection that does not resolve changes neither the stored options nor the price |
| Orders.Refs | src/app/api/orders/route.ts:48 | the request carries each cart option's (groupId, optionId) in order |
| Orders.StoredSumMatches | src/app/api/orders/route.ts:48-59 | when the menu's modifiers are current, the server's modifier sum equals the cart's |
| Orders.ModifiersCurrentInit | src/app/api/orders/route.ts:48-59 | currency of modifiers holds for every prefix |
| Orders.ServerAgreesWithCart | src/app/api/orders/route.ts:61-71 | with current prices, the server's unit price and subtotal equal the cart's |
| I18n.Message | src/lib/i18n.ts:26 | lookup falls back from the language to Korean to the key itself, and "" counts as missing |
| I18n.T | src/lib/i18n.ts:21-29 | the looked-up message, substituted only when params are given; Message and NoParamsUnchanged state it |
| I18n.Subst | src/lib/i18n.ts:28 | the left-to-right `{word}` replacement; SubstPlain, SubstPlaceholder, NoPlaceholderUnchanged, SubstEmptyParams and FillOne state it |
| I18n.WordPrefix | src/lib/i18n.ts:28 | the longest prefix of `\w` characters |
| I18n.PlaceholderName | src/lib/i18n.ts:28 | a recognised placeholder is `{`, a non-empty word, `}` |
| I18n.NoParamsUnchanged | src/lib/i18n.ts:27 | without params the message is returned unchanged |
| I18n.SubstNoBrace | src/lib/i18n.ts:28 | text without a brace passes through substitution unchanged |
| I18n.SubstPlain | src/lib/i18n.ts:28 | text in which no placeholder starts, literal braces included, passes through unchanged |
| I18n.NoPlaceholderUnchanged | src/lib/i18n.ts:28 | a message in which no placeholder starts is identical after substitution, even when params are given and even when it holds braces |
| I18n.SubstPlaceholder | src/lib/i18n.ts:28 | a `{word}` placeholder becomes its param when defined and stays verbatim when absent |
| I18n.WordPrefixOf | src/lib/i18n.ts:28 | the word is recognised up to the first non-word character |
| I18n.SubstEmptyParams | src/lib/i18n.ts:28 | with no params every placeholder is kept verbatim |
| I18n.FillOne | src/lib/i18n.ts:28 | a message with one placeholder has it filled, and the text around it is kept, braces that form no placeholder included |
| I18n.LiteralBracesKept | src/lib/i18n.ts:28 | "{ }" holds no placeholder and comes back unchanged whatever the params |
| TranslateRoute.HasTrans | src/app/api/translate/route.ts:24-31 | true iff the JSON parses and has a non-blank entry for the language |
| TranslateRoute.QueueAppend | src/app/api/translate/route.ts:33-54 | the work list of concatenated candidates is the concatenation, so entity order is kept |
| TranslateRoute.QueueSingle | src/app/api/translate/route.ts:34-35 | one candidate is queued unless `onlyMissing` and already translated |
| TranslateRoute.Queue | src/app/api/translate/route.ts:33-50 | the work items of a candidate list; QueueSingle, QueueAppend, QueueAll and QueueMissing state it |
| TranslateRoute.QueueCategories | src/app/api/translate/route.ts:33-36 | the category loop builds the specified list |
| TranslateRoute.QueueMenus | src/app/api/translate/route.ts:37-46 | the menu loop builds the specified list: name, then a non-empty description |
| TranslateRoute.QueueMenu | src/app/api/translate/route.ts:38-45 | one menu queues its name unless skipped, then its description when non-empty and not skipped, exactly as the specified queue of that menu's candidates |
| TranslateRoute.QueueGroups | src/app/api/translate/route.ts:47-50 | the option-group loop builds the specified list |
| TranslateRoute.QueueOptions | src/app/api/translate/route.ts:51-54 | the option loop builds the specified list |
| TranslateRoute.BuildQueue | src/app/api/translate/route.ts:33-54 | the whole work list is categories, then menus, then groups, then options |
| TranslateRoute.FindCategory | src/app/api/translate/route.ts:64 | `find` by id returns the first category with that id, or nothing iff none has it |
| TranslateRoute.FindMenu | src/app/api/translate/route.ts:74 | `find` by id returns the first menu with that id, or nothing iff none has it |
| TranslateRoute.ApplyResults | src/app/api/translate/route.ts:62-113 | the result loop applies every translation in order |
| TranslateRoute.Translate | src/app/api/translate/route.ts:5-127 | a missing language gives 400 with nothing written; an empty queue gives count 0 and no service call; a failing service gives 502; otherwise the results are applied and the count is the number of translations |
| TranslateRoute.QueueAll | src/app/api/translate/route.ts:33-54 | without `onlyMissing` every candidate is queued, in order |
| TranslateRoute.QueueMissing | src/app/api/translate/route.ts:33-54 | with `onlyMissing` exactly the untranslated candidates are queued |
| TranslateRoute.MenuCandidatesDescriptions | src/app/api/translate/route.ts:41 | menu candidates never carry an empty description |
| TranslateRoute.OtherCandidatesKinds | src/app/api/translate/route.ts:33-54 | category, group and option candidates carry their kind and the `name` field |
| TranslateRoute.CategoryKinds | src/app/api/translate/route.ts:35 | category candidates are category names |
| TranslateRoute.GroupKinds | src/app/api/translate/route.ts:49 | group candidates are group names |
| TranslateRoute.OptionKinds | src/app/api/translate/route.ts:53 | option candidates are option names |
| TranslateRoute.QueueFrom | src/app/api/translate/route.ts:33-54 | every queued item comes from a candidate |
| TranslateRoute.NoEmptyDescription | src/app/api/translate/route.ts:41 | an empty menu description is never queued |
| TranslateRoute.ApplyCategory | src/app/api/translate/route.ts:63-72 | an unknown category id is ignored; a known one gets only the target-language entry set, every other language kept, and no other row or table changed |
| TranslateRoute.ApplyMenu | src/app/api/translate/route.ts:73-91 | the same for a menu's name or description map; other fields are ignored |
| TranslateRoute.ApplyGroup | src/app/api/translate/route.ts:92-101 | an unknown option-group id is ignored; a known one gets only the target-language entry set, every other row and table kept |
| TranslateRoute.ApplyOption | src/app/api/translate/route.ts:102-111 | the same for an option |
| TranslateRoute.ApplyOne | src/app/api/translate/route.ts:62-112 | one write of the loop; ApplyCategory, ApplyMenu, ApplyGroup, ApplyOption and ApplyUnknownKind state it |
| TranslateRoute.ApplyUnknownKind | src/app/api/translate/route.ts:62-112 | a result of unknown kind changes nothing |
| TranslateRoute.ApplyAllStops | src/app/api/translate/route.ts:62-113 | a stored map that does not parse aborts the remaining writes (caught as 502) and keeps the ones before it |
| TranslateRoute.ApplyAll | src/app/api/translate/route.ts:62-113 | the writes in order, stopping at a malformed map; ApplyAllStops and ApplyResults state it |
| SettingsForm.InitialLanguages | src/components/admin/SettingsForm.tsx:23-37 | the languages default to ["ko"] when the setting is absent |
| SettingsForm.Without | src/components/admin/SettingsForm.tsx:113 | filtering out a code removes every copy and keeps all other codes |
| SettingsForm.ToggleLanguage | src/components/admin/SettingsForm.tsx:110-115 | "ko" never changes the list; a present code is removed; an absent code is appended |
| SettingsForm.UntranslatedAppend | src/components/admin/SettingsForm.tsx:56-77 | the missing count over concatenated entries is the sum of the parts |
| SettingsForm.PairCountAppend | src/components/admin/SettingsForm.tsx:56-77 | the same holds for the (entry, language) count |
| SettingsForm.LangCountSnoc | src/components/admin/SettingsForm.tsx:60-76 | one more entry adds its row of missing languages |
| SettingsForm.PairCountIsLangCount | src/components/admin/SettingsForm.tsx:56-77 | counting entry by entry equals counting language by language |
| SettingsForm.LangCountEmpty | src/components/admin/SettingsForm.tsx:56 | no entries, no missing translations |
| SettingsForm.PairCountSingle | src/components/admin/SettingsForm.tsx:61-62 | a single entry counts its missing languages |
| SettingsForm.CountGroup | src/components/admin/SettingsForm.tsx:69-74 | the group loop counts the group name and each option name |
| SettingsForm.CountMenu | src/components/admin/SettingsForm.tsx:66-74 | the menu loop counts the name, a non-empty description, and its groups |
| SettingsForm.CountCategories | src/components/admin/SettingsForm.tsx:60-64 | the category loop counts category names for every non-Korean language |
| SettingsForm.CountMenus | src/components/admin/SettingsForm.tsx:65-76 | the menu loop counts menu entries for every non-Korean language |
| SettingsForm.CheckMissingTranslations | src/components/admin/SettingsForm.tsx:45-81 | the count equals the specified missing count |
| SettingsForm.LangCountEmptyLangs | src/components/admin/SettingsForm.tsx:47 | no languages, no missing translations |
| SettingsForm.OnlyKoreanNothingMissing | src/components/admin/SettingsForm.tsx:46-47 | when only Korean is supported the count is 0 |
| SettingsForm.WithoutAll | src/components/admin/SettingsForm.tsx:46 | filtering a list of only that code leaves nothing |
| SettingsForm.DefaultNothingMissing | src/components/admin/SettingsForm.tsx:23-47 | with the default setting nothing is missing |
| SettingsForm.UntranslatedZeroIff | src/components/admin/SettingsForm.tsx:58 | a language has no missing entry iff every entry has a non-blank translation |
| SettingsForm.LangCountZeroIff | src/components/admin/SettingsForm.tsx:56-77 | the total is 0 iff it is 0 for every language |
| SettingsForm.MissingZeroIff | src/components/admin/SettingsForm.tsx:45-81 | the missing count is 0 iff every entry is translated into every non-Korean language |
| SettingsForm.MissingCount | src/components/admin/SettingsForm.tsx:45-81 | the number of missing translations; MissingZeroIff and CheckMissingTranslations state it |
| SettingsForm.MalformedMissingEverywhere | src/components/admin/SettingsForm.tsx:57-58 | malformed JSON counts as missing in every language |
| SettingsForm.ToggleTwice | src/components/admin/SettingsForm.tsx:112-114 | toggling an absent code twice restores the list |
| SettingsForm.WithoutAbsent | src/components/admin/SettingsForm.tsx:113 | removing a code that occurs once cuts out exactly that position |
| SettingsForm.ToggleKeepsOrder | src/components/admin/SettingsForm.tsx:112-114 | toggling a present code removes it, keeps the order of the rest, and shortens the list |
| SettingsForm.WithoutShrinks | src/components/admin/SettingsForm.tsx:113 | removing a present code shortens the list |
| TranslationManager.SafeParse | src/components/admin/TranslationManager.tsx:30-36 | gives the parsed map, or an empty map for malformed input |
| TranslationManager.EditableLanguages | src/components/admin/TranslationManager.tsx:52-55 | the editable languages are the non-"ko" ones, and the first of them, if any, is selected |
| TranslationManager.Shown | src/components/admin/TranslationManager.tsx:80-81 | the shown text is the existing translation or "" |
| TranslationManager.MakeItem | src/components/admin/TranslationManager.tsx:75-82 | an item's key is `type-id-field`, and it carries the original and the shown translation |
| TranslationManager.CollectOptions | src/components/admin/TranslationManager.tsx:119-130 | the option loop builds the specified items |
| TranslationManager.GroupItemsSnoc | src/components/admin/TranslationManager.tsx:108-131 | each group contributes its item, followed by its options' items |
| TranslationManager.CollectGroups | src/components/admin/TranslationManager.tsx:108-131 | the group loop builds the specified items |
| TranslationManager.MenusItemsSnoc | src/components/admin/TranslationManager.tsx:85-131 | each menu contributes its own items, followed by its groups' items |
| TranslationManager.CategoryItemsSnoc | src/components/admin/TranslationManager.tsx:73-84 | each category contributes one item |
| TranslationManager.CollectCategories | src/components/admin/TranslationManager.tsx:73-84 | the category loop builds the specified items |
| TranslationManager.CollectMenus | src/components/admin/TranslationManager.tsx:85-131 | the menu loop builds the specified items |
| TranslationManager.FetchTranslations | src/components/admin/TranslationManager.tsx:60-135 | no language loads nothing; otherwise the list is categories, then each menu's name, non-empty description and groups with their options |
| TranslationManager.AllItems | src/components/admin/TranslationManager.tsx:60-135 | the editor's item list; FetchTranslations and EditorListsCountedTexts state it |
| TranslationManager.UpdateTranslation | src/components/admin/TranslationManager.tsx:191-197 | only items with the key change, and only their translated text; the length is kept |
| TranslationManager.LastValue | src/components/admin/TranslationManager.tsx:217-218 | the value written is the last matching item's text, and none exists iff no item matches |
| TranslationManager.FirstItem | src/components/admin/TranslationManager.tsx:255-257 | `find` returns the first matching item, or nothing iff none matches |
| TranslationManager.SetLang | src/components/admin/TranslationManager.tsx:216-218 | setting the selected language's entry preserves every other language |
| TranslationManager.CategoryWriteOf | src/components/admin/TranslationManager.tsx:210-225 | a category is written iff it has an item; the selected language's entry becomes the last such item's text, and no other entry changes |
| TranslationManager.MenuColumn | src/components/admin/TranslationManager.tsx:235-243 | a menu column is rebuilt iff an item of that field exists; the selected language's entry becomes the last such item's text, and no other entry changes |
| TranslationManager.MenuWriteOf | src/components/admin/TranslationManager.tsx:229-251 | a menu is written iff it has an item, and its name and description maps are the rebuilt columns |
| TranslationManager.OptItems | src/components/admin/TranslationManager.tsx:260-264 | the option items are exactly those whose id is among the group's options |
| TranslationManager.FirstWithId | src/components/admin/TranslationManager.tsx:274 | `find` by id returns the first item with that id, or nothing iff none has it |
| TranslationManager.UpdatedOptions | src/components/admin/TranslationManager.tsx:273-285 | rebuilt options keep name, modifier and sort order; an option with an item gets that item's text for the selected language and no other change; one without keeps its stored map |
| TranslationManager.GroupWriteOf | src/components/admin/TranslationManager.tsx:254-298 | a group is saved iff it has a group item or an option item; its name map gets the group item's text for the selected language (or stays as stored without one), and its options are the rebuilt options |
| TranslationManager.LastValueSnoc | src/components/admin/TranslationManager.tsx:217-218 | a later matching item overrides an earlier one |
| TranslationManager.MergeCategory | src/components/admin/TranslationManager.tsx:211-219 | the category loop finds whether an item exists and merges its last value |
| TranslationManager.SaveCategories | src/components/admin/TranslationManager.tsx:210-225 | the category loop produces the specified writes |
| TranslationManager.MenuColumns | src/components/admin/TranslationManager.tsx:228-243 | the menu loop computes the specified name and description maps |
| TranslationManager.SaveGroups | src/components/admin/TranslationManager.tsx:254-298 | the group loop produces the specified writes |
| TranslationManager.SaveMenus | src/components/admin/TranslationManager.tsx:228-298 | the menu loop produces the specified writes |
| TranslationManager.SaveTranslations | src/components/admin/TranslationManager.tsx:199-306 | the whole save produces the specified writes |
| TranslationManager.SaveWrites | src/components/admin/TranslationManager.tsx:199-306 | the writes of a save, categories first, then each menu followed by its groups; SaveTranslations, the WriteOf members and the EditReaches lemmas state which rows are written and with which texts |
| TranslationManager.KeyInjective | src/components/admin/TranslationManager.tsx:81 | keys of the same type and field with different ids differ |
| TranslationManager.NameDescriptionKeysDiffer | src/components/admin/TranslationManager.tsx:93-104 | a name key never equals a description key |
| TranslationManager.UpdateKeepsKeys | src/components/admin/TranslationManager.tsx:191-197 | editing keeps every key |
| TranslationManager.UpdateLastWins | src/components/admin/TranslationManager.tsx:191-197 | the second edit of a key overrides the first |
| TranslationManager.UpdateCommutes | src/components/admin/TranslationManager.tsx:191-197 | edits of different keys commute |
| TranslationManager.SaveUneditedCategory | src/components/admin/TranslationManager.tsx:210-225 | saving an unedited category writes back its stored map, with the shown value for the selected language |
| TranslationManager.EditReachesCategory | src/components/admin/TranslationManager.tsx:191-225 | an edit of a category's item is what gets saved for that category and language |
| TranslationManager.EditReachesMenu | src/components/admin/TranslationManager.tsx:229-251 | an edit of a menu's name or description item is what gets saved in that column for the selected language |
| TranslationManager.EditReachesGroup | src/components/admin/TranslationManager.tsx:254-270 | an edit of a group's item is what gets saved in the group's name map for the selected language |
| TranslationManager.EditReachesOption | src/components/admin/TranslationManager.tsx:254-285 | an edit of an option's item is what gets saved in that option's name map for the selected language |
| TranslationManager.TranslatedsAppend | src/components/admin/TranslationManager.tsx:73-131 | the translated column distributes over concatenation |
| TranslationManager.ShownAllAppend | src/components/admin/TranslationManager.tsx:73-131 | so do the shown translations of the entries |
| TranslationManager.OneShown | src/components/admin/TranslationManager.tsx:80-81 | one item shows its entry's translation |
| TranslationManager.OptionsShown | src/components/admin/TranslationManager.tsx:119-130 | option items show the translations of the option entries the settings page counts |
| TranslationManager.GroupsShown | src/components/admin/TranslationManager.tsx:108-131 | the same for the group entries |
| TranslationManager.MenuShown | src/components/admin/TranslationManager.tsx:85-131 | the same for one menu's entries |
| TranslationManager.MenusShown | src/components/admin/TranslationManager.tsx:85-131 | the same for all menus |
| TranslationManager.CategoriesShown | src/components/admin/TranslationManager.tsx:73-84 | the same for the categories |
| TranslationManager.EditorListsCountedTexts | src/components/admin/TranslationManager.tsx:73-131 | the editor lists exactly the texts, in the same order, that the settings page counts as missing or present |
| CategoryManager.NextSortOrder | src/components/admin/CategoryManager.tsx:54-58 | the new sort order exceeds every existing one and is the maximum plus 1, or 0 for an empty list |
| CategoryManager.Insert | src/components/admin/CategoryManager.tsx:220 | `splice(to, 0, x)` puts `x` at `to` and shifts the rest |
| CategoryManager.Move | src/components/admin/CategoryManager.tsx:218-220 | the moved list has the same length, with the dragged element at the target |
| CategoryManager.Renumber | src/components/admin/CategoryManager.tsx:222 | each category's sort order becomes its index, and nothing else changes |
| CategoryManager.SpliceIsMove | src/components/admin/CategoryManager.tsx:218-220 | removing then reinserting is the move |
| CategoryManager.SortOrderRequests | src/components/admin/CategoryManager.tsx:228-234 | one sort-order request per category, in order |
| CategoryManager.Reorder | src/components/admin/CategoryManager.tsx:218-222 | the in-place splice and renumber loop produce the renumbered move |
| CategoryManager.PersistSortOrders | src/components/admin/CategoryManager.tsx:228-234 | the persist loop sends the specified requests |
| CategoryManager.Page.constructor | src/components/admin/CategoryManager.tsx:24-32 | the page starts with the fetched list and empty editing and drag state |
| CategoryManager.Page.AddCategory | src/components/admin/CategoryManager.tsx:52-62 | a blank name sends nothing; otherwise one create request with the trimmed name and the next sort order, and the input is cleared |
| CategoryManager.Page.StartEdit | src/components/admin/CategoryManager.tsx:64-67 | starts editing the category with its name |
| CategoryManager.Page.SaveEdit | src/components/admin/CategoryManager.tsx:69-78 | nothing happens when the name is blank or nothing is being edited; otherwise one rename with the trimmed name, and editing ends |
| CategoryManager.Page.OpenGallery | src/components/admin/CategoryManager.tsx:87-88 | opens the gallery of the category |
| CategoryManager.Page.SelectGalleryImage | src/components/admin/CategoryManager.tsx:176-183 | with a gallery open, sends one PUT that selects the image for that category and sets its reference image; with none open, sends nothing and changes nothing |
| CategoryManager.Page.DeleteGalleryImage | src/components/admin/CategoryManager.tsx:185-197 | sends one delete, and clears the reference image exactly when it was the deleted one |
| CategoryManager.Page.HandleDragStart | src/components/admin/CategoryManager.tsx:204-207 | records the dragged index |
| CategoryManager.Page.HandleDragEnter | src/components/admin/CategoryManager.tsx:209-211 | records the target index |
| CategoryManager.Page.HandleDragEnd | src/components/admin/CategoryManager.tsx:213-235 | with either index unset or both equal nothing changes; otherwise the list becomes the renumbered move, one request per category is sent, and the drag state is reset |
| CategoryManager.DropRow | src/components/admin/CategoryManager.tsx:218-234 | the reordered list is the renumbered move, and the requests are one sort-order update per row of it |
| CategoryManager.Page.Drop | src/components/admin/CategoryManager.tsx:218-227 | `Dropped`: the page's list becomes the renumbered move and one sort-order update per row is sent in the new order; the drag state is cleared, and the form fields are unchanged |
| CategoryManager.MovePermutes | src/components/admin/CategoryManager.tsx:218-220 | a move is a permutation |
| CategoryManager.MoveKeepsOthers | src/components/admin/CategoryManager.tsx:218-220 | without the moved element, the others are in their original relative order |
| CategoryManager.MoveIndex | src/components/admin/CategoryManager.tsx:218-220 | the position of every element after the move |
| CategoryManager.MoveBack | src/components/admin/CategoryManager.tsx:218-220 | moving back restores the list |
| CategoryManager.NextAfterRenumber | src/components/admin/CategoryManager.tsx:54-58 | after a reorder, the next sort order is the list length |
| MenuForm.Siblings | src/components/admin/MenuForm.tsx:160-173 | the siblings are the other menus with an image |
| MenuForm.CategoryRefImage | src/components/admin/MenuForm.tsx:177-178 | the reference image exists only for a chosen category with a non-empty reference URL |
| MenuForm.UrlsSnoc | src/components/admin/MenuForm.tsx:180-199 | adding an option adds its URL to the used set |
| MenuForm.DedupUrls | src/components/admin/MenuForm.tsx:180-199 | de-duplication keeps every URL once, and no URL twice |
| MenuForm.Dedup | src/components/admin/MenuForm.tsx:180-199 | the reference options without repeated URLs; DedupUrls, DedupSnoc, DedupFirstWins and DedupPrefix state it |
| MenuForm.FirstIndex | src/components/admin/MenuForm.tsx:180-199 | the first candidate with a given URL |
| MenuForm.ReferenceOptions | src/components/admin/MenuForm.tsx:180-199 | the loops with a used-URL set build the de-duplicated candidate list |
| MenuForm.AddSiblings | src/components/admin/MenuForm.tsx:187-192 | the sibling loop extends the de-duplicated list |
| MenuForm.AddGallery | src/components/admin/MenuForm.tsx:193-199 | the gallery loop extends the de-duplicated list |
| MenuForm.DedupSnoc | src/components/admin/MenuForm.tsx:180-199 | a candidate whose URL was already used is skipped, and otherwise appended |
| MenuForm.DedupFirstWins | src/components/admin/MenuForm.tsx:180-199 | each kept option is the first candidate with its URL, so the first label wins |
| MenuForm.FirstIndexAppend | src/components/admin/MenuForm.tsx:180-199 | later candidates do not change the first occurrence |
| MenuForm.DedupPrefix | src/components/admin/MenuForm.tsx:180-199 | earlier sources come first in the output |
| MenuForm.ReferenceOrder | src/components/admin/MenuForm.tsx:180-199 | the category reference comes first; then sibling images, then gallery images |
| MenuForm.DefaultPrompt | src/components/admin/MenuForm.tsx:175 | name and description joined by " - ", with empty parts dropped |
| MenuForm.FinalPrompt | src/components/admin/MenuForm.tsx:202-203 | the trimmed custom prompt, else the default prompt; there is none iff all three are empty |
| MenuForm.CanSubmitIff | src/components/admin/MenuForm.tsx:297-300 | submit is allowed iff the category is set, the name is not blank and the price is not 0 |
| MenuForm.MenuBodyOf | src/components/admin/MenuForm.tsx:323-329 | the body has the trimmed name and sends the image URL iff it is set and is not a `blob:` URL |
| MenuForm.ValidOptionsMembers | src/components/admin/MenuForm.tsx:362 | exactly the options with non-blank names are kept |
| MenuForm.OptionPayloads | src/components/admin/MenuForm.tsx:374-378 | one payload per kept option |
| MenuForm.OptionPayloadsIndex | src/components/admin/MenuForm.tsx:374-378 | options carry the trimmed name, the modifier and their new index from 0 |
| MenuForm.NonBlankIndices | src/components/admin/MenuForm.tsx:359-361 | exactly the indices of groups with non-blank names, in increasing order |
| MenuForm.Deletions | src/components/admin/MenuForm.tsx:346-357 | a server group is deleted iff its id is no longer in the form |
| MenuForm.Form.constructor | src/components/admin/MenuForm.tsx:43-96 | the form starts with the given fields and groups |
| MenuForm.Form.AddOptionGroup | src/components/admin/MenuForm.tsx:247-252 | appends a blank optional group with one blank option, and nothing else changes |
| MenuForm.Form.RemoveOptionGroup | src/components/admin/MenuForm.tsx:254-256 | removes only the given group |
| MenuForm.Form.UpdateGroup | src/components/admin/MenuForm.tsx:258-267 | changes exactly one field of one group |
| MenuForm.Form.AddOption | src/components/admin/MenuForm.tsx:269-273 | appends a blank option to one group only |
| MenuForm.Form.RemoveOption | src/components/admin/MenuForm.tsx:275-281 | removes only the given option of the given group |
| MenuForm.Form.UpdateOption | src/components/admin/MenuForm.tsx:283-293 | changes exactly one field of one option |
| MenuForm.Form.Submit | src/components/admin/MenuForm.tsx:295-428 | rejected iff validation fails; otherwise the specified body, PUT iff editing, and the specified group plan |
| MenuForm.GroupPlan | src/components/admin/MenuForm.tsx:346-418 | the option-group requests of a save; Deletions, GroupRequestsByIndex and Form.Submit state it |
| MenuForm.DeleteMissing | src/components/admin/MenuForm.tsx:350-357 | the delete loop sends the specified deletions |
| MenuForm.WriteGroups | src/components/admin/MenuForm.tsx:359-398 | the group loop sends the specified requests |
| MenuForm.GroupRequestsSnoc | src/components/admin/MenuForm.tsx:359-361 | a blank-named group is skipped, and any other group adds its request |
| MenuForm.WriteGroup | src/components/admin/MenuForm.tsx:362-418 | one group's request is built as specified |
| MenuForm.ValidOptionsLoop | src/components/admin/MenuForm.tsx:362-378 | the option loop builds the specified payloads |
| MenuForm.GroupRequestsByIndex | src/components/admin/MenuForm.tsx:359-398 | the requests are the non-blank groups' requests, in form order, each with its form index |
| MenuForm.PayloadShape | src/components/admin/MenuForm.tsx:370-379 | a group's payload has its trimmed non-empty name, its form index as sort order, its `required` flag, and non-empty option names |
| MenuForm.KeptGroupsNotDeleted | src/components/admin/MenuForm.tsx:346-357 | a group still in the form is never deleted |
| MenuForm.AddedGroupNotSent | src/components/admin/MenuForm.tsx:247-252 | a freshly added blank group sends nothing |
| MenuForm.AddedOptionNotSent | src/components/admin/MenuForm.tsx:269-273 | a freshly added blank option sends nothing |
| MenuForm.ValidOptionsAppend | src/components/admin/MenuForm.tsx:362 | option filtering distributes over concatenation |
| MenuForm.RemoveBlankOption | src/components/admin/MenuForm.tsx:275-281 | removing a blank option does not change what is sent |
| TranslateUi.Replace | scripts/translate-ui.ts:87 | overwriting a key keeps every key and its position |
| TranslateUi.HasKeyIndex | scripts/translate-ui.ts:43-51 | a key is present iff some entry has it |
| TranslateUi.LookupAt | scripts/translate-ui.ts:43-51 | in an object with distinct keys, each entry is found by its key |
| TranslateUi.LookupAppend | scripts/translate-ui.ts:87 | in a concatenation, a key from the later part wins |
| TranslateUi.ReplaceLookup | scripts/translate-ui.ts:87 | overwriting changes only that key's value |
| TranslateUi.PutLookup | scripts/translate-ui.ts:87 | assigning sets one key: a new key goes at the end, and an existing key keeps its position |
| TranslateUi.PutDistinct | scripts/translate-ui.ts:87 | assigning keeps keys distinct |
| TranslateUi.AssignLookup | scripts/translate-ui.ts:87 | `Object.assign` takes the reply's value where it has the key, and keeps the existing value otherwise |
| TranslateUi.AssignDistinct | scripts/translate-ui.ts:87 | `Object.assign` keeps keys distinct |
| TranslateUi.MissingKeysMembers | scripts/translate-ui.ts:49-51 | a key is missing iff it is a source key, not skipped, and has no truthy target value |
| TranslateUi.MissingKeys | scripts/translate-ui.ts:49-51 | the keys still to translate; MissingKeysMembers states them |
| TranslateUi.BatchStart | scripts/translate-ui.ts:61 | batch `j` exists iff it starts before the end |
| TranslateUi.BatchAt | scripts/translate-ui.ts:62 | each batch holds between 1 and 50 keys |
| TranslateUi.CoveredPrefix | scripts/translate-ui.ts:61-62 | the first `j` batches are the first `50 j` keys |
| TranslateUi.BatchesCover | scripts/translate-ui.ts:61-62 | the batches concatenate to the missing keys exactly once, in order |
| TranslateUi.ToTranslateLookup | scripts/translate-ui.ts:64-66 | the request maps exactly the batch's keys to their source texts |
| TranslateUi.MergeLookup | scripts/translate-ui.ts:77-91 | after the batches, a key holds the latest successful reply's value, or its existing value |
| TranslateUi.Merge | scripts/translate-ui.ts:61-92 | the target's messages after the batches; MergeLookup, AllFailedUnchanged and MergeDistinct state it |
| TranslateUi.AllFailedUnchanged | scripts/translate-ui.ts:81-91 | when every batch fails, the map is unchanged |
| TranslateUi.MergeDistinct | scripts/translate-ui.ts:87 | merging keeps keys distinct |
| TranslateUi.TranslateBatches | scripts/translate-ui.ts:61-92 | the batch loop sends one request per batch and merges the replies as specified |
| TranslateUi.RequestsSpec | scripts/translate-ui.ts:61-70 | the j-th request of the batch loop carries the untranslated entries of the j-th slice of missing keys |
| TranslateUi.BuildRequest | scripts/translate-ui.ts:64-66 | the request loop builds the specified request |
| TranslateUi.SortOutput | scripts/translate-ui.ts:95-102 | the two output loops build the specified ordered object |
| TranslateUi.PickedLookup | scripts/translate-ui.ts:96-98 | the first pass picks exactly the source keys with truthy values, with the merged values |
| TranslateUi.OthersLookup | scripts/translate-ui.ts:99-101 | the second pass adds exactly the merged keys not yet written, with their values |
| TranslateUi.FirstPassIsPicked | scripts/translate-ui.ts:96-98 | the first pass is the picked keys, in source order |
| TranslateUi.SecondPassAppends | scripts/translate-ui.ts:99-101 | the second pass appends the other keys in their existing order |
| TranslateUi.SecondPassStep | scripts/translate-ui.ts:99-101 | one step of the second pass |
| TranslateUi.SortedShape | scripts/translate-ui.ts:95-102 | the output is the picked keys, then the remaining existing keys |
| TranslateUi.SortedOutput | scripts/translate-ui.ts:95-102 | the written object; SortedShape and SortedLookup state it |
| TranslateUi.SortedLookup | scripts/translate-ui.ts:95-102 | the output has the same keys and values as the merged map |
| TranslateUi.TranslateLanguage | scripts/translate-ui.ts:41-106 | no file is written iff nothing is missing; otherwise one request per batch, and the written output is the specified one |
| TranslateUi.OutputLookup | scripts/translate-ui.ts:87-104 | every key of the written file holds the latest successful reply's value, or its existing value |
| TranslateUi.WritesLangs | scripts/translate-ui.ts:41-106 | each language's write is that language's output |
| TranslateUi.WriteLangs | scripts/translate-ui.ts:41-106 | the per-language loop produces the specified writes, one per target language in order |
| TranslateUi.TranslateAll | scripts/translate-ui.ts:23-106 | a missing or empty API key stops the run; otherwise every target language is processed |

## Left out

- HTTP plumbing and persistence (request parsing, responses, database reads and writes)
  are not modelled. Fetched data enters as parameters, and writes and requests leave as
  returned values. The server list refresh after category requests is also left out.
- Calls to the Gemini AI service are not modelled; their replies enter as parameters.
  This covers the translation route's `translateTexts`, the script's batch calls and the
  menu form's image generation. The route's exception path is modelled as one
  `ServiceError` outcome.
- JSON parsing and serialisation are not modelled:
  - a translation map is `Option<map<string, string>>`, with `None` for text that does
    not parse;
  - JSON that parses to a non-object, or to non-string values, is not distinguished;
  - prototype keys and the integer-like key ordering of JavaScript objects are not
    modelled, except for the option modal's selection object, whose integer keys
    enumerate in ascending order. That object is modelled as a list sorted by group id.
- Number formatting (`toLocaleString`, `formatPrice`) is not modelled. `String(number)`
  is modelled only for integers.
- Prices and ids are unbounded integers. `Number()` conversion, `NaN` and floating point
  are not modelled.
- The image upload paths, the multipart new-menu request carrying `window.__menuImageFile`,
  and the gallery's image-list fetch, generation and upload are not modelled; the select
  PUT and the delete request are returned, but the refetches that follow them are not.
  `deleteCategory` and `closeGallery` are not modelled either: each is one request or
  reset with no logic.
- The settings page's `prefillMissing` and the translation editor's `translateAll` and
  `prefillAll` are not modelled: they only call the translation route, which is modelled.
- I18n.T: parameter values are modelled as strings only. The source also accepts numbers
  and converts them with `String(...)`, and a parameter present with a null or undefined
  value falls back to the placeholder text through `??`; neither is modelled.
- MenuForm.Form.UpdateGroup: requires an index in range. The source dereferences
  `updated[idx]` and throws outside it.
- MenuForm.Form.AddOption: requires an index in range, for the same reason.
- MenuForm.Form.RemoveOption: requires an index in range, for the same reason.
- MenuForm.Form.UpdateOption: requires both indices in range, for the same reason.
- CategoryManager.Page.HandleDragStart: requires an index within the list. The browser
  only reports rendered rows.
- CategoryManager.Page.HandleDragEnter: requires an index within the list, for the same
  reason.
- MenuForm.Form.Submit: groups are values, so the aliasing between the form's group
  objects and the shallow-copied array is not captured.
- The translation script's console output is not modelled. An absent message file is an
  empty object, and `ko.json` enters already parsed.
- The model follows the code:
  - `removeByMatch` removes every matching line, not only the first;
  - `updateQuantity` accepts a quantity of 0;
  - the cart key compares multisets of (groupId, optionId) pairs, so duplicates count.
