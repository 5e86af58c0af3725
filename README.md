# Cloud kitchen storefront: a Dafny model of its order, catalogue and admin rules

This project models the rules of a small cloud-kitchen storefront that sells
two cuisines, Chinese and biryani. It covers:

- the order message sent to the kitchen over a WhatsApp deep-link, and the
  rupee currency format (`lib/utils.ts`);
- the browser-local store of orders and admin settings
  (`lib/data/adminData.ts`);
- the catalogue with its built-in seed menu and storage fallback
  (`lib/data/menuData.ts`);
- the domain records (`types/index.ts`);
- the record that checkout inserts into the remote orders table
  (`lib/data/orderService.ts`);
- the admin dashboard and orders page: per-status counts, revenue, the
  recent five, the short id, and the status selector and update
  (`app/admin/page.tsx`, `app/admin/orders/page.tsx`);
- the menu editor: save validation, insert defaults, the availability
  toggle, cancel, and grouping by cuisine and category
  (`app/admin/menu/page.tsx`);
- the admin sign-in state machine, which both auth providers share
  (`contexts/AdminAuthContext.tsx`, `contexts/AuthContext.tsx`);
- the admin route guard (`app/admin/layout.tsx`).

Modules follow the source files:

| Dafny module | Source |
|---|---|
| `Types` | `types/index.ts` |
| `Decimal` | decimal printing of integers (template literals and `toFixed(0)`), with its own inverse `DecimalValue`/`ParseInt`, used only to state round-trips |
| `Storage` | a storage key holding nothing, unparsable text or a value |
| `Utils` | `lib/utils.ts` |
| `AdminData` | `lib/data/adminData.ts` |
| `MenuData` | `lib/data/menuData.ts` |
| `OrderService` | `lib/data/orderService.ts` |
| `Dashboard` | `app/admin/page.tsx` |
| `OrdersPage` | `app/admin/orders/page.tsx` |
| `MenuAdmin` | `app/admin/menu/page.tsx` |
| `Auth` | both auth contexts |
| `AdminLayout` | `app/admin/layout.tsx` |
| `SeqFacts` | sequence helpers |

Modelling choices:

- Prices, totals and quantities are integers (rupees).
- A storage key is a `Slot`: `Empty` (missing or empty), `Unparsable`, or
  `Parsed(value)`. A `hasWindow` flag says whether browser storage exists
  at all (it does not during server rendering).
- State that the source updates in place is a class:
  - the local store is `AdminData.LocalStore`;
  - each auth provider is an `Auth.AuthProvider` over a shared
    `Auth.SessionStorage`.
- `formatOrderSummary` builds its message step by step, so it is a method
  with a loop. It is proved equal to the specification function
  `Utils.OrderSummary`.
- The menu page's `grouped` reduce is the method `MenuAdmin.GroupItems`. It
  is proved against the functions `KeyOrder` and `Members`. These and the
  lemmas about them take any list and any key function; the page applies
  them to menu items with `GroupKey`.
- `getMenuItemById` and `getAllMenuItems` are `MenuData.GetMenuItemById` and
  `MenuData.GetAllMenuItems`, over `StoredMenuItems`; the search itself is
  `MenuData.FindItem`.
- The constants `AdminData.DefaultAdminSettings` (`lib/data/adminData.ts`,
  lines 8-13) and `MenuAdmin.DefaultForm` (`app/admin/menu/page.tsx`, lines
  22-30) carry the source's values unchanged.
- Things the model cannot see become parameters:
  - the clock is a millisecond reading, plus an ISO timestamp string;
  - `encodeURIComponent` is a function `encode`;
  - the remote insert is a function returning a `Result`;
  - the remote fetch is a function on the table;
  - the presence of the password environment variable is an `Option`.
- The orders page is modelled as the list of effects that a status choice
  issues (update, then reload). The effects run against a page state that
  holds the remote table and the shown list.

## Model

| member | source | states |
|---|---|---|
| Types.StatusesExhaustive | types/index.ts:7 | every order status is one of exactly four distinct values (new, accepted, preparing, completed); there is no other state |
| Types.NamesInjective | types/index.ts:1-7 | the stored names of statuses and cuisines identify the value |
| Types.WithQuantity | types/index.ts:20-22 | a cart line carries every menu item field unchanged, plus the quantity |
| Types.CartItem.AsMenuItem | types/index.ts:20-22 | the menu-item part of a cart line, with the same quantity, rebuilds the line |
| Types.MenuItemRoundTrip | types/index.ts:9-22 | a line made from an item gives back exactly that item |
| Decimal.NatToDecimal | lib/utils.ts:21 | a whole number prints as at least one digit, only digits, with no leading zero unless it is 0 |
| Decimal.DecimalRoundTrip | lib/utils.ts:21 | reading printed digits back gives the number |
| Decimal.DecimalInjective | lib/data/orderService.ts:4 | distinct numbers print differently |
| Decimal.IntRoundTrip | lib/utils.ts:21 | a negative integer prints as '-' and digits; every integer reads back from its text |
| Decimal.DecimalLength | app/admin/page.tsx:108 | a number of at least 10^k has more than k digits |
| Decimal.DecimalSplit | app/admin/page.tsx:108 | the last k digits of a digit string read as the number modulo 10^k, and the rest as the quotient |
| Storage.ReadOr | lib/data/adminData.ts:15-27 | a stored key yields its parsed value; with no window, nothing stored or unparsable text, it yields the fallback |
| Utils.FormatCurrency | lib/utils.ts:20-22 | "₹" followed by the amount's decimal digits (with '-' when negative), which read back to the amount |
| Utils.FormatCurrencyExample | lib/utils.ts:20-22 | 350 formats as "₹350" |
| Utils.OrderTypeText | lib/utils.ts:31 | "Delivery" exactly when the order type is "delivery", otherwise "Pickup" |
| Utils.PaymentText | lib/utils.ts:32 | "Cash on Delivery" exactly when the method is "COD", otherwise "Online Payment" |
| Utils.ItemBlocks | lib/utils.ts:38-41 | one block per item line; the blocks are empty exactly when there are no items |
| Utils.OrderSummary | lib/utils.ts:24-50 | the message as a function of the five parameters: header, one block per item, footer; it has no contract of its own, and the rows below state its properties |
| Utils.FormatOrderSummary | lib/utils.ts:24-50 | the string built line by line equals the message fixed by the five parameters alone |
| Utils.RuleIsThirtyEquals | lib/utils.ts:36 | the rule is exactly thirty '=' characters |
| Utils.SummaryStartsWithHeader | lib/utils.ts:34-36 | the message opens with the kitchen name between '*', the ORDER SUMMARY line and the rule |
| Utils.SummaryEndsWithClosing | lib/utils.ts:47 | the message always ends with the confirmation request |
| Utils.ItemBlocksConcat | lib/utils.ts:38-41 | each item adds one block, in input order: the items of a concatenation give the blocks of each part in turn |
| Utils.TotalIsNotRecomputed | lib/utils.ts:43-44 | after the item blocks comes a footer built from the total, type and payment alone, opening with the rule and the total line of the total argument; nothing is recomputed from the items |
| Utils.TotalLineReadsBack | lib/utils.ts:44 | the amount on the total line reads back to the total argument |
| Utils.DigitsOnly | lib/utils.ts:54 | the phone filter keeps only digit characters and never lengthens the number; DigitsOnlyChar and DigitsOnlyCounts state which characters it removes |
| Utils.DigitsOnlyConcat | lib/utils.ts:54 | the filter works character by character, keeping digits in their original order |
| Utils.DigitsOnlyFixpoint | lib/utils.ts:54 | the filter leaves a string unchanged exactly when it holds only digits |
| Utils.DigitsOnlyChar | lib/utils.ts:54 | a single character is kept when it is a digit and removed otherwise |
| Utils.DigitsOnlyCounts | lib/utils.ts:54 | each digit occurs in the result as often as in the phone, and no other character occurs at all |
| Utils.DigitsOnlyIdempotent | lib/utils.ts:54 | filtering twice equals filtering once |
| Utils.WhatsAppURL | lib/utils.ts:52-55 | the link is the wa.me host, then exactly the phone's digits, then "?text=" and the encoded message |
| AdminData.FindOrderIndex | lib/data/adminData.ts:60 | -1 exactly when no order has the id; otherwise the index of the first order that has it |
| AdminData.WithStatus | lib/data/adminData.ts:59-63 | only the first order with the id changes, and only its status and updatedAt; with no match the list is unchanged |
| AdminData.LocalStore.GetAdminSettings | lib/data/adminData.ts:15-27 | stored settings when present; the defaults with no window, nothing stored or unparsable text |
| AdminData.LocalStore.SaveAdminSettings | lib/data/adminData.ts:29-32 | with a window, the settings key holds the settings and reading them back returns them; with none, nothing changes |
| AdminData.LocalStore.GetOrders | lib/data/adminData.ts:34-46 | the stored list when present; the empty list with no window, nothing stored or unparsable text |
| AdminData.LocalStore.SaveOrder | lib/data/adminData.ts:48-54 | the stored list becomes the old list with the order appended, one longer; with no window nothing changes |
| AdminData.LocalStore.UpdateOrderStatus | lib/data/adminData.ts:56-66 | the stored list becomes the first-match status update of the old list, the same length; with no window or no match the slot is untouched |
| AdminData.FindAppended | lib/data/adminData.ts:48-60 | an appended order with a fresh id is found at the end of the list |
| AdminData.SaveThenUpdate | lib/data/adminData.ts:48-66 | updating a just-saved order changes only that last entry, and leaves earlier orders as they were |
| AdminData.WithStatusIdempotent | lib/data/adminData.ts:56-66 | setting the same status and time twice is the same as once |
| MenuData.StoredMenuItems | lib/data/menuData.ts:171-182 | the stored catalogue when present; the seed list with no window, nothing stored or unparsable text |
| MenuData.AvailableOf | lib/data/menuData.ts:184-187 | the filter never lengthens the list, and every item it keeps has the cuisine and is available |
| MenuData.GetMenuItemsByCuisine | lib/data/menuData.ts:184-187 | at most as many items as the stored catalogue, each of the cuisine and available |
| MenuData.GetMenuItemById | lib/data/menuData.ts:189-192 | None exactly when no stored item has the id; otherwise the first stored item with that id |
| MenuData.GetAllMenuItems | lib/data/menuData.ts:194-196 | the stored catalogue with a window and a parsed key; the seed list otherwise |
| MenuData.AvailableOfMembers | lib/data/menuData.ts:184-187 | an item passes the cuisine filter exactly when it is in the list, has the cuisine and is available |
| MenuData.CuisineMenuExactly | lib/data/menuData.ts:184-187 | a cuisine's menu holds exactly the catalogue items of that cuisine that are available |
| MenuData.AvailableOfConcat | lib/data/menuData.ts:184-187 | the filter keeps stored order: the filtered concatenation is the concatenation of the filtered parts |
| MenuData.AvailableOfAllShown | lib/data/menuData.ts:184-187 | a list whose items all pass the filter is kept whole |
| MenuData.AvailableOfNoneShown | lib/data/menuData.ts:184-187 | a list none of whose items passes is filtered to nothing |
| MenuData.FindItem | lib/data/menuData.ts:189-192 | the first item with the id, or None exactly when no item has it |
| MenuData.SeedIdsDistinct | lib/data/menuData.ts:3-167 | the sixteen seed ids are pairwise distinct |
| MenuData.SeedIdPrefixes | lib/data/menuData.ts:3-167 | each seed id starts with "ch-" for a Chinese dish and "bi-" for a biryani dish |
| MenuData.SeedPricesPositive | lib/data/menuData.ts:3-167 | every seed price is positive |
| MenuData.ChineseSeedShape | lib/data/menuData.ts:4-85 | eight Chinese seed dishes; the first seven are shown and the last is not |
| MenuData.ChineseSeedIds | lib/data/menuData.ts:76-84 | the unavailable eighth Chinese dish is ch-008, and no shown dish has that id |
| MenuData.SeedCuisines | lib/data/menuData.ts:3-167 | no Chinese seed dish is on the biryani menu; every biryani seed dish is on the biryani menu and not on the Chinese one |
| MenuData.ChineseSeedFiltered | lib/data/menuData.ts:4-85 | filtering the Chinese seed for Chinese keeps the first seven dishes |
| MenuData.FallbackMenu | lib/data/menuData.ts:171-187 | without stored items, a cuisine's menu is the filtered Chinese seed followed by the filtered biryani seed |
| MenuData.SeedChineseMenu | lib/data/menuData.ts:3-187 | without stored items the Chinese menu is the first seven Chinese seed dishes |
| MenuData.SeedChineseMenuExcludesDuck | lib/data/menuData.ts:76-84 | without stored items the Chinese menu never contains ch-008 |
| MenuData.SeedBiryaniMenu | lib/data/menuData.ts:86-187 | without stored items the biryani menu is the whole biryani seed, every dish available |
| OrderService.OrderId | lib/data/orderService.ts:4 | "ORD-" followed by digits that read back to the millisecond reading |
| OrderService.OrderIdInjective | lib/data/orderService.ts:4 | orders placed at different milliseconds get different ids |
| OrderService.NewOrderRow | lib/data/orderService.ts:4-17 | the inserted row has status new and an id of "ORD-" and digits that read back to the clock reading |
| OrderService.CreateOrder | lib/data/orderService.ts:3-28 | an insert error is passed on as the failure, with no record; on success the stored row is returned |
| OrderService.NewRowFields | lib/data/orderService.ts:4-17 | every new row has status new and the id of its reading; items, total, type, payment and phone are copied unchanged |
| OrderService.NameAndAddressDropped | lib/data/orderService.ts:9-17 | the customer's name and address never reach the row |
| OrderService.RowDeterminesDraft | lib/data/orderService.ts:9-17 | the row fixes every field of the draft except name and address |
| OrderService.CreateOrderEcho | lib/data/orderService.ts:19-27 | a store that echoes the insert makes createOrder return the built row |
| Dashboard.WithStatus | app/admin/page.tsx:33-38 | the status filter keeps only orders in that status and never lengthens the list |
| Dashboard.Statuses | app/admin/page.tsx:33-36 | the statuses of the orders, position by position |
| Dashboard.ComputeStats | app/admin/page.tsx:32-40 | each count is the number of orders in that status, the four counts sum to the number of orders, and an empty list has revenue 0 |
| Dashboard.WithStatusConcat | app/admin/page.tsx:33-38 | the filter keeps list order over a concatenation |
| Dashboard.WithStatusMembers | app/admin/page.tsx:33-38 | an order is counted under a status exactly when it is in the list with that status |
| Dashboard.CountIsMultiplicity | app/admin/page.tsx:33-36 | a status count is the multiplicity of that status among the orders |
| Dashboard.StatusCountsPartition | app/admin/page.tsx:33-36 | the four counts add up to the number of orders |
| Dashboard.SumTotals | app/admin/page.tsx:37-39 | the sum of no orders is 0, and totals that are all non-negative sum to a non-negative amount |
| Dashboard.SumTotalsConcat | app/admin/page.tsx:37-39 | summing totals over a concatenation adds the two sums |
| Dashboard.RevenueConcat | app/admin/page.tsx:37-39 | revenue adds up over a split of the list |
| Dashboard.RevenueAddsCompleted | app/admin/page.tsx:37-39 | adding a completed order adds exactly its total to the revenue |
| Dashboard.RevenueIgnoresAppended | app/admin/page.tsx:37-39 | adding an order that is not completed leaves the revenue unchanged |
| Dashboard.RevenueIgnoresReplaced | app/admin/page.tsx:37-39 | changing an order that is not completed into another that is not completed leaves the revenue unchanged |
| Dashboard.RevenueAfterStatusChange | app/admin/page.tsx:37-39 | the local status update between non-completed statuses leaves the revenue unchanged |
| Dashboard.Recent | app/admin/page.tsx:101 | the recent list is the first min(5, n) orders |
| Dashboard.RecentStableAfterFive | app/admin/page.tsx:101 | the list is built by appending saves, so once five orders exist a new order does not enter the recent list; before that it does |
| Dashboard.ShortId | app/admin/page.tsx:108 | the last min(6, n) characters of the id, which end it |
| Dashboard.ShortIdOfOrderId | app/admin/page.tsx:108 | for a reading of at least 100000 ms the short id is six digits worth the reading modulo 10^6 |
| OrdersPage.ParseStatus | app/admin/orders/page.tsx:110-124 | an option value names a status exactly when it is that status's stored name |
| OrdersPage.SelectorOptions | app/admin/orders/page.tsx:110-124 | the selector lists the four statuses in order, whatever the current status |
| OrdersPage.AnyStatusSelectable | app/admin/orders/page.tsx:110-124 | from any status every status can be chosen; there is no transition guard |
| OrdersPage.Step | app/admin/orders/page.tsx:24-30 | an update touches only the table, never its length, and a rejected one changes nothing; a reload leaves the table and shows the fetch of it |
| OrdersPage.Run | app/admin/orders/page.tsx:24-30 | running effects never adds or removes a row; with a rejected update, or reloads only, the table is unchanged |
| OrdersPage.HandleStatusUpdate | app/admin/orders/page.tsx:24-30 | a choice issues exactly one update of that order to that status, then one reload |
| OrdersPage.RemoteUpdate | lib/data/adminOrderService.ts:24-39 | every row with the id takes the status and time, the others are unchanged; after a store error the table is unchanged |
| OrdersPage.StatusUpdateReflected | app/admin/orders/page.tsx:24-30 | after a successful choice the page shows the fetched table, in which the order has the chosen status and every other row is unchanged |
| OrdersPage.FailedUpdateOnlyReloads | app/admin/orders/page.tsx:24-30 | after a rejected update the page still reloads and shows the unchanged table |
| OrdersPage.WithStatusMultiset | app/admin/orders/page.tsx:33-38 | filtering by status keeps each order's multiplicity when it has the status, and drops it otherwise |
| OrdersPage.SumTotalsPermutation | app/admin/orders/page.tsx:37-39 | totals sum to the same amount in any order |
| OrdersPage.WithStatusPermutation | app/admin/orders/page.tsx:33-38 | filtering a reordered list gives a reordering of the filtered list |
| OrdersPage.StatsOrderIndependent | app/admin/orders/page.tsx:32-40 | the figures over the newest-first list equal those over any ordering of the same orders |
| MenuAdmin.NewItemId | app/admin/menu/page.tsx:85 | "ch-" for Chinese and "bi-" otherwise, then digits that read back to the millisecond reading |
| MenuAdmin.InsertRecord | app/admin/menu/page.tsx:84-95 | the inserted item takes the form's fields; an empty image becomes the placeholder and unset availability becomes true |
| MenuAdmin.HandleSave | app/admin/menu/page.tsx:57-105 | save is rejected exactly when name or category is empty or the price is 0; otherwise it updates the edited item with the form or inserts the new record |
| MenuAdmin.ApplyPatch | app/admin/menu/page.tsx:65-76 | an update writes the form's fields as given, with no defaults; only a field left undefined keeps the stored value |
| MenuAdmin.CanSave | app/admin/menu/page.tsx:58-61 | save needs a non-empty name, a price other than 0 and a non-empty category; it has no contract of its own, see the next row |
| MenuAdmin.PriceTruthiness | app/admin/menu/page.tsx:58-61 | with a name and a category, a form can be saved exactly when its price is not 0: 0 is refused, 1 and -1 both pass |
| MenuAdmin.FormOf | app/admin/menu/page.tsx:129-133 | the form filled from an item writes the item back unchanged when applied to it, and has availability set |
| MenuAdmin.HandleEdit | app/admin/menu/page.tsx:129-133 | editing opens the form on the item, and saving that form unchanged would write the item back as it was |
| MenuAdmin.HandleCancel | app/admin/menu/page.tsx:135-147 | cancel clears the edited item, hides the form and restores the default form, which cannot be saved |
| MenuAdmin.AfterSave | app/admin/menu/page.tsx:57-105 | a rejected save or a store error leaves the editor as it was; a stored save resets it as cancel does |
| MenuAdmin.EditThenSaveUnchanged | app/admin/menu/page.tsx:57-133 | saving an edited item without changes issues an update that leaves the item unchanged |
| MenuAdmin.EditThenCancel | app/admin/menu/page.tsx:129-147 | cancelling after an edit is the same as cancelling |
| MenuAdmin.InsertedIdPrefix | app/admin/menu/page.tsx:84-85 | an accepted new item's id starts with its cuisine's seed prefix |
| MenuAdmin.UpdateHasNoDefaults | app/admin/menu/page.tsx:63-93 | an empty image or unset availability is kept as it is on update but defaulted on insert |
| MenuAdmin.ToggleAvailability | app/admin/menu/page.tsx:120-127 | the table keeps its length; when the store accepts the update, every row with the item's id gets the negation of the item's availability and other rows are unchanged; when it reports an error, the table is unchanged |
| MenuAdmin.ToggleTwiceRestores | app/admin/menu/page.tsx:120-127 | when the item's availability matches its rows, two accepted toggles (the second of the reloaded item) restore the table |
| MenuAdmin.GroupKey | app/admin/menu/page.tsx:153 | the key `cuisine-category`; it has no contract of its own, see the next row |
| MenuAdmin.GroupKeyShape | app/admin/menu/page.tsx:153 | a key is the cuisine's name, then '-', then the category, so it always contains '-' |
| MenuAdmin.KeyOrder | app/admin/menu/page.tsx:152-157 | the keys in order of first appearance; it has no contract of its own, see KeyOrderShape, KeyOrderDistinct and EachItemInItsGroup |
| MenuAdmin.KeyOrderShape | app/admin/menu/page.tsx:152-157 | no more keys than items, each some item's key, the first being the first item's key |
| MenuAdmin.Members | app/admin/menu/page.tsx:152-157 | a group holds only items of the list that have its key |
| MenuAdmin.GroupItems | app/admin/menu/page.tsx:152-157 | the reduce yields the keys in first-appearance order, and under each key that key's items in list order |
| MenuAdmin.MembersOfAbsentKey | app/admin/menu/page.tsx:152-157 | a key that never appears has no items |
| MenuAdmin.KeyOrderDistinct | app/admin/menu/page.tsx:152-157 | each key appears once among the groups |
| MenuAdmin.EachKeyListed | app/admin/menu/page.tsx:152-157 | every item's key is among the keys |
| MenuAdmin.EachItemInGroup | app/admin/menu/page.tsx:152-157 | every item is among the members of its own key |
| MenuAdmin.EachItemInItsGroup | app/admin/menu/page.tsx:152-157 | every item's key has a group, which contains the item |
| MenuAdmin.OnlyInItsGroup | app/admin/menu/page.tsx:152-157 | an item in a group has that group's key and comes from the list, so it is in no other group |
| MenuAdmin.MembersConcat | app/admin/menu/page.tsx:152-157 | grouping keeps list order within each group |
| MenuAdmin.SumSizesSnoc | app/admin/menu/page.tsx:152-157 | one more item adds one to the group sizes when its key is among the keys |
| MenuAdmin.GroupSizesSum | app/admin/menu/page.tsx:152-157 | the group sizes sum to the number of items |
| MenuAdmin.Split | app/admin/menu/page.tsx:296 | splitting on '-' always gives at least one segment |
| MenuAdmin.FirstSegment | app/admin/menu/page.tsx:296 | a string without '-' splits into itself; with a '-' its first segment is shorter |
| MenuAdmin.SplitAtFirstDash | app/admin/menu/page.tsx:296 | a string splits at its first '-' into the part before it and the split of the rest |
| MenuAdmin.Heading | app/admin/menu/page.tsx:296 | a key without '-' heads its group on its own, with an empty second part; the first part is never longer than the key |
| MenuAdmin.HeadingOfGroup | app/admin/menu/page.tsx:296 | the heading shows the cuisine and the category's first segment, which is the whole category exactly when it has no '-' |
| Auth.AdminPassword | contexts/AdminAuthContext.tsx:15 | the environment's password when it is set and not empty, otherwise "admin123" |
| Auth.AuthProvider.constructor | contexts/AdminAuthContext.tsx:18-20 | a provider starts signed out and loading |
| Auth.AuthProvider.Mount | contexts/AdminAuthContext.tsx:19-31 | after mounting the provider stops loading and is signed in exactly when the session flag is exactly "true" |
| Auth.AuthProvider.Login | contexts/AdminAuthContext.tsx:33-42 | login succeeds exactly when the attempt is the password; success signs in and stores the flag; failure changes neither state nor storage |
| Auth.AuthProvider.Logout | contexts/AdminAuthContext.tsx:44-49 | logout signs out and removes the flag |
| Auth.MountFresh | contexts/AuthContext.tsx:18-30 | a freshly mounted provider is no longer loading and is signed in exactly when the flag restores it |
| Auth.RestoreAcrossProviders | contexts/AuthContext.tsx:14-48 | both providers use one session key: a login through the admin provider is restored by a later mount of the other, and after a logout it is not |
| Auth.WrongPasswordKeepsSignedOut | contexts/AdminAuthContext.tsx:33-42 | a wrong password on a fresh provider leaves it signed out and the session unchanged |
| AdminLayout.Decide | app/admin/layout.tsx:17-54 | loading shows only the loading screen; the login page shows bare children; otherwise signed in shows the navbar and children, and signed out renders nothing and redirects |
| AdminLayout.ProtectedChildrenNeedSignIn | app/admin/layout.tsx:43-54 | children appear outside the login page only when signed in and loaded |
| AdminLayout.RedirectOnlyBlank | app/admin/layout.tsx:17-46 | the login page never redirects, and a redirect always comes with an empty screen |
| AdminLayout.GuardAfterMount | app/admin/layout.tsx:17-54 | once mounted, a protected page redirects exactly when the session flag does not restore sign-in, and otherwise shows navbar and children |

## Left out

- Cart operations: `contexts/CartContext` is not part of this model, and the
  cart component only forwards calls to it.
- The remote-store wrappers (menu, order and settings services). Only their
  effects appear, as parameters:
  - the insert of `createOrder`;
  - the status update, with its `eq` match modelled by `RemoteUpdate`;
  - the fetch, as a function on the table. Its newest-first sort is not
    modelled; the dashboard figures are shown not to depend on order.
- The settings page: loading, saving and the QR upload are remote calls.
- The menu page's `loadMenu` and `handleDelete` are remote calls and a
  confirm dialog. After a save or a toggle the model takes the reload as
  reading back the table.
- JSON encoding and decoding. A key that parses to a value of the wrong
  shape is not modelled. It is taken to be either unparsable or a value of
  the right type.
- `localStorage` and `sessionStorage` are modelled as slots and as a map
  from key to string. Quota errors and other tabs are not modelled.
- Utils.FormatCurrency: does not model `toFixed(0)` rounding of fractional
  amounts, `NaN` or the width of JavaScript numbers, because prices and
  totals are whole rupees.
- MenuAdmin.HandleSave: the price check is JavaScript truthiness on an
  integer price (0 is rejected and a negative price passes). A `NaN` price
  is not modelled.
- `encodeURIComponent` is an arbitrary `encode` function, so the model says
  nothing about the encoded text.
- `Date.now()` and `toISOString()` are parameters. Order ids are therefore
  distinct only for distinct clock readings.
- Dashboard.ShortIdOfOrderId: the short id of a reading below 100000 ms is
  not characterised, because it then contains part of the "ORD-" prefix.
- Asynchronous loading flags, timers, alerts, confirm dialogs and router
  navigation are left out. A redirect is a boolean in the guard's decision.
- Presentation components, the site layout and the `cuisineThemes` colour
  table are pure rendering.
- No security claim is made about the static password. Only the sign-in
  state machine is modelled.
- A React provider is modelled as an object whose fields the provider's
  callbacks update. Re-rendering and effect scheduling are not modelled.
- MenuAdmin.GroupItems: the heading order assumes that `Object.entries`
  lists keys in insertion order. That holds because a group key always
  contains '-' and so is never an integer-like key.
