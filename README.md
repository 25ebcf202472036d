# Inventory app — a Dafny model of its core

The inventory app lets a small team track stock. Its state lives in a document database with three collections: inventory items, an append-only transaction log, and loans. A client-side store holds the current item list.

This project models:

- **The client store** (`InventoryStore`). Its actions replace the item list, and its selectors read it.
- **The field validator and sanitiser** (`Validation`). This covers `validateField`, `validateForm`, the preset rules and `sanitizeInput`.
- **The database** (`Services`), reduced to its state: `Database` holds the items keyed by id, the log and the loans.
- **The six dialogs**, each a class whose fields are the form state:
  - add item (`AddItem`);
  - edit item (`EditItem`);
  - stock adjustment (`EditStock`);
  - stock entry (`Entry`);
  - withdrawal or loan (`Checkout`);
  - delete (`DeleteItem`).

  Each submit handler is a method on a `Database`. Its contract gives the new database and dialog state for every outcome of every call it makes.
- **The loans, dashboard and history pages.** These cover their sorts, filters, counters, overdue figures, category histogram, bar widths, relative-time labels and quantity signs.

Shared pieces:

- `Collections`: Option, filter, count, a stable sort (largest key first) and subsequences.
- `Text`: ASCII trim, lower-casing, substring search, and integer printing and parsing.
- `InventoryTypes`: the records, the partial update `{ ...item, ...patch }` and the transaction type names.

Modelling conventions:

- Every database call takes an `Outcome` parameter (`Completes` or `Throws(message)`). Network and permission failures are decided outside the program, so the caller chooses the outcome.
- The clock is a parameter: `now` in milliseconds and `serverTime` in seconds. The id the database assigns on create is also a parameter.
- Dates are integers: milliseconds since the epoch for loans, seconds for transaction timestamps.

## Model

| member | source | states |
|---|---|---|
| InventoryTypes.WithId | src/store/inventoryStore.ts:27-30 | the new item carries the given id and every field of the data |
| InventoryTypes.ApplyPatch | src/store/inventoryStore.ts:48 | `{ ...item, ...updates }`: each field the patch carries replaces the item's; the id and the other fields are kept |
| InventoryStore.Store.constructor | src/store/inventoryStore.ts:20 | the store starts with an empty inventory |
| InventoryStore.Store.SetInventory | src/store/inventoryStore.ts:22-24 | the inventory becomes exactly the given list |
| InventoryStore.Store.AddItem | src/store/inventoryStore.ts:26-37 | appends one item with the given fields and an id not yet in the store, and returns it |
| InventoryStore.Removed | src/store/inventoryStore.ts:39-43 | no item with the id remains; every other item stays in order, each copy as often as before; an unknown id changes nothing |
| InventoryStore.Store.RemoveItem | src/store/inventoryStore.ts:39-43 | the inventory becomes `Removed` of the old one |
| InventoryStore.Updated | src/store/inventoryStore.ts:45-51 | same ids in the same order; matching items patched, others untouched |
| InventoryStore.Store.UpdateItem | src/store/inventoryStore.ts:45-51 | the inventory becomes `Updated` of the old one |
| InventoryStore.StockSet | src/store/inventoryStore.ts:53-59 | same ids; matching items get the new stock, others untouched |
| InventoryStore.Store.UpdateStock | src/store/inventoryStore.ts:53-59 | the inventory becomes `StockSet` of the old one |
| InventoryStore.StockIncremented | src/store/inventoryStore.ts:61-68 | same ids; matching items gain the quantity, others untouched |
| InventoryStore.Store.IncrementStock | src/store/inventoryStore.ts:61-68 | a non-positive quantity changes nothing; otherwise the inventory becomes `StockIncremented` |
| InventoryStore.StockDecremented | src/store/inventoryStore.ts:70-81 | matching items get `max(0, stock - quantity)`, which is never negative; others untouched |
| InventoryStore.Store.DecrementStock | src/store/inventoryStore.ts:70-81 | a non-positive quantity changes nothing; otherwise the inventory becomes `StockDecremented` |
| InventoryStore.DecrementKeepsStockNonNegative | src/store/inventoryStore.ts:70-81 | decrementing keeps every stock of a non-negative store non-negative |
| InventoryStore.GetItemById | src/store/inventoryStore.ts:83-85 | none exactly when no item has the id; otherwise the first item with it |
| InventoryStore.AddThenFind | src/store/inventoryStore.ts:26-37 | after adding, looking up the new id finds the new item, and other lookups answer as before |
| InventoryStore.RemoveThenFind | src/store/inventoryStore.ts:39-43 | after removing an id, looking it up finds nothing |
| InventoryStore.GetLowStockItems | src/store/inventoryStore.ts:87-89 | exactly the items with `stock <= minStock`, with their multiplicities, in store order |
| InventoryStore.GetItemsByCategory | src/store/inventoryStore.ts:91-96 | 'Todas' gives the whole inventory; any other category exactly its items, each copy as often as in the store, in store order |
| Validation.EmailMatchesShape | src/utils/validation.ts:40 | the e-mail test accepts exactly: local part, '@', domain containing a '.' with text on both sides, no spaces and no second '@' |
| Validation.EmailAccepts | src/utils/validation.ts:40 | "test@example.com" is accepted |
| Validation.EmailRejects | src/utils/validation.ts:40 | "invalid", "test@", "@example.com" and "test @example.com" are rejected |
| Text.NumberOfString | src/utils/validation.ts:48 | `Number(String(n))` is `n` for every integer |
| Validation.ValidateField | src/utils/validation.ts:19-111 | a missing required value gives "<name> es requerido"; a falsy optional value is valid; every error starts with the field name |
| Validation.ValidateFieldIsFirstFailure | src/utils/validation.ts:36-110 | past the two early returns, the field is valid exactly when none of the nine rules fails; otherwise the message is that of the first failing rule in source order (email, numeric, positive, min, max, minLength, maxLength, pattern, custom) |
| Validation.NumberBoundsInclusive | src/utils/validation.ts:63-76 | `min` and `max` are inclusive bounds on the number |
| Validation.LengthBoundsInclusive | src/utils/validation.ts:78-95 | `minLength` and `maxLength` are inclusive bounds on the length |
| Validation.ZeroSkipsRules | src/utils/validation.ts:31-34 | an optional 0 is valid even against `min: 1` |
| Validation.ValidateForm | src/utils/validation.ts:113-132 | errors only for ruled fields; each is that field's message; every invalid field has one; valid exactly when there are none |
| Validation.MissingFieldIsRequired | src/utils/validation.ts:119-121 | a ruled, required field absent from the form data is reported as required |
| Validation.StockRuleRejectsNegative | src/utils/validation.ts:146-150 | the stock rule rejects every negative number with "stock debe ser mayor o igual a 0" |
| Validation.StockRuleAcceptsNonNegative | src/utils/validation.ts:146-150 | the stock rule accepts every number from 0 up |
| Validation.QuantityRuleAdmitsZero | src/utils/validation.ts:160-164 | the quantity rule called 'positive' accepts 0 |
| Validation.NameRuleBounds | src/utils/validation.ts:136-140 | a name is valid exactly when its length is between 2 and 100 |
| Validation.ReplaceAll | src/utils/validation.ts:173 | after replacing a character by an entity without it, the character is gone; a string without it is unchanged |
| Validation.Escape | src/utils/validation.ts:171-178 | the per-character escape leaves none of `< > " ' /` |
| Validation.SanitizeIsEscape | src/utils/validation.ts:171-178 | the five successive replacements equal escaping each character once |
| Validation.SanitizeRemovesSpecials | src/utils/validation.ts:171-178 | the output holds none of `< > " ' /` |
| Validation.SanitizePlainText | src/utils/validation.ts:171-178 | text without those characters is returned unchanged |
| Validation.SanitizeIdempotent | src/utils/validation.ts:171-178 | sanitising twice is sanitising once |
| Services.ErrorText | src/components/modals/AddItemModal.tsx:77 | the shown error is the thrown message, or the handler's fallback when there is none |
| Services.Stamp | src/lib/firestore.ts:115-121 | the stored transaction is the entry with the server timestamp added |
| Services.UpdateResult | src/lib/firestore.ts:66-72 | an update completes exactly when the call does and the document exists |
| Services.Database.constructor | src/lib/firestore.ts:56-64 | starts from items keyed by their ids, an empty log and no loans |
| Services.Database.Update | src/lib/firestore.ts:66-72 | on completion the stored item is patched; on failure nothing changes; log and loans untouched; items stay keyed by id |
| Services.Database.Create | src/lib/firestore.ts:56-64 | on completion the item is stored under the new id, which is returned; log and loans untouched |
| Services.Database.Delete | src/lib/firestore.ts:74-76 | on completion the id is removed (a missing id too); log and loans untouched |
| Services.Database.AppendTransaction | src/lib/firestore.ts:115-123 | on completion the log gains exactly the stamped entry; items and loans untouched |
| Services.Database.AddLoan | src/lib/firestore.ts:161-164 | on completion the loans gain exactly the record; items and log untouched |
| EditStock.CalculateNewStock | src/components/modals/EditStockModal.tsx:35-48 | no item gives 0; 'set' gives the amount; 'add' adds it; 'subtract' subtracts it, and gives exactly 0 when the amount exceeds the stock |
| EditStock.OnlySetOrAddGoNegative | src/components/modals/EditStockModal.tsx:54-59 | the new stock is negative exactly for a negative 'set' amount or an 'add' that overdraws |
| EditStock.AdjustmentEntry | src/components/modals/EditStockModal.tsx:67-77 | 'Ajuste +' exactly when the stock rises, else 'Ajuste -'; quantity the absolute difference; the default note |
| EditStock.AdjustmentEntryReplays | src/components/modals/EditStockModal.tsx:67-77 | replaying the entry's signed quantity on the old stock gives the new stock |
| EditStock.EditStockModal.constructor | src/components/modals/EditStockModal.tsx:17-21 | the form starts at 'set', 0, no notes, no error |
| EditStock.EditStockModal.ResetForm | src/components/modals/EditStockModal.tsx:23-28 | the form returns to its initial values and the error is cleared |
| EditStock.EditStockModal.HandleClose | src/components/modals/EditStockModal.tsx:30-33 | resets the form, then closes |
| EditStock.EditStockModal.HandleSubmit | src/components/modals/EditStockModal.tsx:50-86 | no item: nothing; negative result: the message and no writes; otherwise the stock write, then the log entry; each failure stops with its message; success closes with a reset form |
| Checkout.Rejection | src/components/modals/CheckoutModal.tsx:41-51 | too large a quantity first, then a loan with a blank borrower; accepted exactly when neither holds |
| Checkout.LoanRecord | src/components/modals/CheckoutModal.tsx:61-70 | the loan: item, quantity, trimmed borrower and notes, loan date now, the optional return date, not returned |
| Checkout.LendingEntry | src/components/modals/CheckoutModal.tsx:72-79 | a 'Préstamo' entry with the note 'Préstamo a ' and the trimmed borrower |
| Checkout.WithdrawalEntry | src/components/modals/CheckoutModal.tsx:81-88 | a 'Salida' entry; blank notes become 'Salida de stock' |
| Checkout.RemainingStock | src/components/modals/CheckoutModal.tsx:188 | the preview is stock minus quantity when that is not negative, and 0 when the quantity exceeds the stock |
| Checkout.RemainingStockIsWritten | src/components/modals/CheckoutModal.tsx:57 | for an accepted checkout, the preview equals the stock that is written |
| Checkout.CheckoutModal.constructor | src/components/modals/CheckoutModal.tsx:17-23 | the form starts as a withdrawal of 1, no borrower, no date, no notes |
| Checkout.CheckoutModal.ResetForm | src/components/modals/CheckoutModal.tsx:25-32 | the form returns to its initial values and the error is cleared |
| Checkout.CheckoutModal.HandleClose | src/components/modals/CheckoutModal.tsx:34-37 | resets the form, then closes |
| Checkout.CheckoutModal.HandleSubmit | src/components/modals/CheckoutModal.tsx:39-98 | a rejection shows its message with no writes; otherwise stock minus quantity, then for a loan the loan record and a 'Préstamo' entry, for a withdrawal a 'Salida' entry; each failure stops with its message; success closes |
| Checkout.CheckoutModal.RecordLending | src/components/modals/CheckoutModal.tsx:60-79 | the loan record is appended, then the log entry; a failing loan write leaves the log alone and shows its error; a failing log write keeps the loan and shows its error; success closes with a reset form |
| Checkout.CheckoutModal.RecordLog | src/components/modals/CheckoutModal.tsx:72-94 | the entry is appended with the server time and the dialog closes with a reset form, or on failure nothing is appended and the error is shown |
| Entry.EntryLog | src/components/modals/EntryModal.tsx:42-49 | an 'Entrada' entry for the quantity; blank notes become 'Entrada de stock' |
| Entry.EntryModal.constructor | src/components/modals/EntryModal.tsx:15-18 | the form starts at quantity 1, no notes, no error |
| Entry.EntryModal.ResetForm | src/components/modals/EntryModal.tsx:20-24 | the form returns to its initial values and the error is cleared |
| Entry.EntryModal.HandleClose | src/components/modals/EntryModal.tsx:26-29 | resets the form, then closes |
| Entry.EntryModal.HandleSubmit | src/components/modals/EntryModal.tsx:31-58 | stock plus quantity, then the 'Entrada' entry; each failure stops with its message; success closes |
| DeleteItem.DeletionEntry | src/components/modals/DeleteItemModal.tsx:25-32 | an 'Eliminación' entry for the whole stock with the fixed note |
| DeleteItem.DeleteItemModal.constructor | src/components/modals/DeleteItemModal.tsx:15-16 | no error, not closed |
| DeleteItem.DeleteItemModal.HandleDelete | src/components/modals/DeleteItemModal.tsx:18-43 | logs first, then deletes; a failed log leaves the item; a failed delete leaves the log entry; success closes |
| AddItem.CreationEntry | src/components/modals/AddItemModal.tsx:66-73 | a 'Creación' entry under the assigned id for the initial stock; blank notes become 'Artículo creado' |
| AddItem.NewItemData | src/components/modals/AddItemModal.tsx:56-62 | the new item has the trimmed description and every other field as entered |
| AddItem.AddItemModal.constructor | src/components/modals/AddItemModal.tsx:26-33 | the form starts at its defaults ('Electrónica', 'pza', zeros) |
| AddItem.AddItemModal.ResetForm | src/components/modals/AddItemModal.tsx:35-43 | the form returns to its defaults and the error is cleared |
| AddItem.AddItemModal.HandleClose | src/components/modals/AddItemModal.tsx:45-48 | resets the form, then closes |
| AddItem.AddItemModal.HandleSubmit | src/components/modals/AddItemModal.tsx:50-82 | creates the item, then logs under the returned id; a failure stops, keeps a created item and shows the message; success closes with a reset form |
| EditItem.MetadataPatch | src/components/modals/EditItemModal.tsx:59-64 | the patch carries the trimmed description, category, minimum and unit, and no stock |
| EditItem.MetadataPatchKeepsStock | src/components/modals/EditItemModal.tsx:59-66 | applying the edit keeps the id and the stock and sets the four fields |
| EditItem.ModificationEntry | src/components/modals/EditItemModal.tsx:68-75 | a 'Modificación' entry with quantity 0 and the new trimmed description; blank notes become 'Artículo modificado' |
| EditItem.SeededForm | src/components/modals/EditItemModal.tsx:37-42 | the form takes the item's description, category, minimum and unit, and empty notes |
| EditItem.EditItemModal.constructor | src/components/modals/EditItemModal.tsx:28-34 | the form starts at its defaults |
| EditItem.EditItemModal.SeedFrom | src/components/modals/EditItemModal.tsx:36-45 | a selected item seeds the form and clears the error; none changes nothing |
| EditItem.EditItemModal.HandleClose | src/components/modals/EditItemModal.tsx:47-49 | closes without resetting the form |
| EditItem.EditItemModal.HandleSubmit | src/components/modals/EditItemModal.tsx:51-84 | patches the metadata (stock unchanged), then logs the edit; each failure stops with its message; the form is kept |
| LoansPage.SortLoans | app/loans/page.tsx:17-19 | sorted by loan date, newest first; a permutation of the input |
| LoansPage.FilteredLoans | app/loans/page.tsx:27-38 | exactly the loans passing the status and text tests, each copy as often as in the list, in order; 'all' with a blank query keeps the list |
| LoansPage.StatusFiltersSplit | app/loans/page.tsx:27-38 | with a blank query, 'active' and 'returned' split the list, and 'active' lists as many as the active counter |
| LoansPage.CeilDiv | app/loans/page.tsx:67 | `Math.ceil(a / b)`: the least r with a <= r*b |
| LoansPage.DaysOverdue | app/loans/page.tsx:62-69 | 0 without a date or when not past it; otherwise the elapsed days rounded up |
| LoansPage.OverdueIffDaysPositive | app/loans/page.tsx:57-69 | a loan still out is overdue exactly when its days overdue are positive |
| LoansPage.ActiveCount | app/loans/page.tsx:71 | at most the number of loans |
| LoansPage.CountsAreConsistent | app/loans/page.tsx:71-73 | active plus returned is the total, and overdue is at most active |
| DashboardPage.RecentActivity | app/dashboard/page.tsx:25-27 | at most ten transactions, newest first, drawn from the input |
| DashboardPage.RecentActivityIsNewest | app/dashboard/page.tsx:25-27 | nothing left out is newer than anything kept |
| DashboardPage.Categories | app/dashboard/page.tsx:44 | at most one category per item, and at least one when there are items |
| DashboardPage.CategoriesMembers | app/dashboard/page.tsx:44 | a category is counted exactly when some item carries it |
| DashboardPage.DashboardStats | app/dashboard/page.tsx:41-44 | item count; low-stock count plus the items exactly at their minimum equals the store's low-stock list; active plus returned loans is the loan count; category count, zero exactly when there are no items |
| DashboardPage.LowStockStricterThanSelector | app/dashboard/page.tsx:42 | the dashboard's strict `<` never counts more than the store's `<=` selector, and an item at its minimum differs |
| DashboardPage.FrequencyPositive | app/dashboard/page.tsx:105-109 | a category has a positive count exactly when some item carries it |
| DashboardPage.CountByCategory | app/dashboard/page.tsx:105-109 | the loop's map and key order are `Tally` and `FirstSeen` of the inventory |
| DashboardPage.TallyCounts | app/dashboard/page.tsx:105-109 | the map's keys are exactly the categories, each listed once in first-seen order, each with its exact frequency |
| DashboardPage.TopFive | app/dashboard/page.tsx:111-113 | sorted by count, largest first; five entries or fewer; drawn from the input |
| DashboardPage.TopFiveCounts | app/dashboard/page.tsx:104-114 | every bar is a real category with its true, positive count |
| DashboardPage.TopFiveDistinct | app/dashboard/page.tsx:104-114 | no category appears twice |
| DashboardPage.TopFiveOmitted | app/dashboard/page.tsx:111-113 | a category left out is no more frequent than any kept |
| DashboardPage.CategoryData | app/dashboard/page.tsx:104-114 | min(5, categories) entries, largest first, distinct, exact counts; nothing omitted outranks a kept one |
| DashboardPage.MaxCount | app/dashboard/page.tsx:117 | at least 1, at least every count, and equal to one of them unless it is 1 |
| DashboardPage.PercentageBounds | app/dashboard/page.tsx:234 | a count between 1 and the maximum gives a width in (0, 100], and the maximum gives 100 |
| DashboardPage.BarsWithinRange | app/dashboard/page.tsx:234 | every histogram bar is in (0, 100] and the first is 100 |
| DashboardPage.FormatDate | app/dashboard/page.tsx:46-65 | no timestamp gives the empty label; otherwise under a minute, floored minutes, hours or days in their ranges, and a date from a week on |
| DashboardPage.FormatDateMonotone | app/dashboard/page.tsx:52-59 | an older timestamp never gets a finer label |
| HistoryPage.SortTransactions | app/history/page.tsx:18-20 | sorted by timestamp, newest first; a permutation of the input |
| HistoryPage.FilterTransactions | app/history/page.tsx:29-46 | the two filter steps equal one filter by both tests: exactly the matching transactions, in order; 'Todos' with a blank query keeps the list |
| HistoryPage.SignOf | app/history/page.tsx:237-245 | '+' exactly for Entrada, Ajuste Positivo and Devolución; '-' exactly for Salida, Ajuste Negativo and Préstamo |
| HistoryPage.LoggedSigns | app/history/page.tsx:243-244 | entries show '+', withdrawals and loans '-', and stock adjustments ('Ajuste +', 'Ajuste -') no sign |
| HistoryPage.TypeCount | app/history/page.tsx:176 | at most the filtered total |
| HistoryPage.TypeCountsWithinTotal | app/history/page.tsx:166-198 | Entradas + Salidas + Préstamos is at most the total |
| HistoryPage.TypeFilterCounts | app/history/page.tsx:32-34 | filtering by one type makes that counter equal the total and the others zero |

## Left out

- The database SDK: listeners, the subscriptions' own ordering, and ids of transactions and loans. Subscriptions are modelled as the list they deliver; ids as a parameter.
- Authentication and the login page. The service worker, the AI assistant endpoint and the inventory table component. Layout, icons and all other JSX.
- `isLoading` flags. Every handler ends with the flag false, and nothing modelled reads it.
- The 300 ms debounce of search inputs.
- Floating point. Quantities, stocks and `Number(...)` are integers: `Number` parses an optional sign and decimal digits after trimming, the empty string is 0, and anything else is NaN.
- Unicode. Trimming, lower-casing and white space are ASCII only.
- Validation.LengthBoundsInclusive: a string's length is its number of characters (Unicode scalar values), whereas JavaScript's `length` counts UTF-16 code units, so `minLength` and `maxLength` differ from the source for characters outside the Basic Multilingual Plane such as emoji.
- Validation.NameRuleBounds: the 2 to 100 bounds are on the character count, not on UTF-16 code units, for the same reason.
- Validation.ValidateField: the field name has no default value (`'Field'` in the source); every caller in the model passes one.
- The optional item fields of `InventoryItem` (name, code, location, supplier, notes, isReturnable, image, barcode, tags and lastRestockDate). No modelled operation reads them, so `Item` leaves them out, and the model does not show that `{ ...item, ...updates }` and the database's partial update carry them over unchanged.
- Locale date text (`toLocaleDateString`). The calendar-date label is a tag.
- Dates as ISO strings. Loan and return dates are milliseconds, the form's return date an optional number, and string parsing is not modelled.
- Pending server timestamps (`null` until the write is acknowledged). Every transaction has a timestamp.
- Marking a loan returned (`markReturned`, `returnedAt`), `getById` and the transaction `delete`. No modelled operation calls them.
- Services.Database.Update: a failed update's message is approximated as "No document to update".
- JavaScript's `sort` on equal keys. The model's sort is stable, which matches current engines; no property relies on the order of ties.
- EditStock.CalculateNewStock: the `default` branch of the adjustment switch is not modelled, because the adjustment type has only three values.
- `validateField`'s `pattern` and `custom` rules take any predicate. Regular expressions other than the e-mail test are not modelled.
