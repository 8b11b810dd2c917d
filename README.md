# MINIPAY core in Dafny

MINIPAY is an offline point-of-sale web app for a small shop. It keeps a
catalogue of articles, a cart and a checkout that records each sale, lowers
stock and prints a receipt on a Bluetooth thermal printer in ESC/POS. It
also has a dashboard of sales figures, a sales report by period and an
inventory page with an edit form. Everything is stored in IndexedDB in the
browser.

This project models the logic of that app:

- **thermal_print.dfy** (`lib/thermalPrint.ts`): `cleanForPrint`; the
  ticket string `printViaBluetooth` builds, piece by piece as the source
  does; the UTF-8 bytes; and the 20-byte write loop.
- **db.dfy** (`lib/db.ts`): the three object stores in a class `Database`.
  The articles and sales stores are sequences in ascending key order, each
  with its auto-increment generator. The settings store is a map with the
  record under `'config'`. The two loops `updateStockApresVente` and
  `cleanOldVentes` are methods with invariants, proved against
  specification functions.
- **ventes.dfy** (`app/ventes/page.tsx`): the cart operations as
  functions, and the page state as a class `Checkout`. `validerVente` is a
  method over that state. The database faults and the Bluetooth outcome
  are inputs.
- **dashboard.dfy** and **tally.dfy** (`app/page.tsx`): revenue, the
  low-stock count, stock per category and sales per product, built by the
  `forEach` loops. Also the stable sort by quantity, the top five, and the
  quick-add and recent-sales lists.
- **rapports.dfy** (`app/rapports/page.tsx`): `parseVenteDate`, the
  period filter, the period's best sellers and its revenue.
- **catalogue.dfy** and **inventaire.dfy** (`app/inventaire/page.tsx`):
  the case-insensitive search, the category list, and the page state
  (modal, dirty form, two confirmations) as a class `InventoryPage`.
- **Helper modules:**
  - records.dfy: the stored records;
  - store.dfy: an ordered key-value store;
  - seqs.dfy: filter, sum, distinct, subsequence;
  - text.dfy: JavaScript's `parseInt`, `split`, `\s`, number-to-text and
    `TextEncoder`.

Prices, quantities and stock are integers. NFD normalisation and
`toLowerCase` are function parameters (`nfd`, `lower`). JavaScript's
`Date` is a parameter too (`parseDate`, `Calendar`). Where a property
depends on one of these, it says what it assumes in a `requires`: for
example, that NFD leaves ASCII text unchanged, or that lowercasing the
empty string gives the empty string.

The checkout has no stock floor. It saves the sale and lowers the stock
in two separate awaited calls (`app/ventes/page.tsx:95-96`), so a failure
while lowering the stock leaves the sale saved. `Db.StockMayGoNegative`
and `Ventes.RecordSale` model this. `isPrinting` is set to true at the
start of `validerVente` and to false in its `finally`.

## Model

| member | source | states |
|---|---|---|
| ThermalPrint.CleanForPrint | lib/thermalPrint.ts:3-10 | empty text gives ""; the result is always ASCII whose only white space is the blank (no newline, no tab) |
| ThermalPrint.SpacesForWhitespace | lib/thermalPrint.ts:8 | every character matched by `\s` becomes exactly one blank, so the length is kept |
| ThermalPrint.CleanCharwise | lib/thermalPrint.ts:5-9 | cleanForPrint of non-empty text is the character-by-character image of its NFD form: combining marks dropped, white space to ' ', non-ASCII dropped |
| ThermalPrint.CleanKeepsPrintable | lib/thermalPrint.ts:5-9 | printable ASCII passes through unchanged, for an NFD that leaves ASCII as it is |
| ThermalPrint.CleanIdempotent | lib/thermalPrint.ts:3-10 | cleanForPrint applied to its own output changes nothing |
| ThermalPrint.NameText | lib/thermalPrint.ts:48 | the printed name is the prefix of the cleaned name of length min(15, its length) |
| ThermalPrint.RowShape | lib/thermalPrint.ts:50-53 | a row is the quantity, the name, at least one blank, then the price, and is exactly max(32, L + 1) long |
| ThermalPrint.RowChars | lib/thermalPrint.ts:53 | a row built from ASCII parts without newline is ASCII without newline |
| ThermalPrint.RowLayout | lib/thermalPrint.ts:45-54 | the row of a cart line: `{qte}x `, name of at most 15 characters, padding of at least one blank, `{prix*qte} F`, length max(32, L + 1), ASCII without newline |
| ThermalPrint.NamePrintable | lib/thermalPrint.ts:48 | the truncated cleaned name is ASCII without newline |
| ThermalPrint.NumbersPrintable | lib/thermalPrint.ts:46-47 | the quantity and price texts are ASCII without newline |
| ThermalPrint.RowBodies | lib/thermalPrint.ts:45-54 | one row body per cart line |
| ThermalPrint.BuildRow | lib/thermalPrint.ts:46-53 | the body of `cart.forEach` computes the row of that line |
| ThermalPrint.AppendRows | lib/thermalPrint.ts:45-54 | the `forEach` loop appends the row of each cart line, in cart order, to what came before |
| ThermalPrint.BuildTicket | lib/thermalPrint.ts:36-62 | the `cmds +=` sequence builds exactly the ticket: init, header, rule, rows, rule, total, thanks, feed |
| ThermalPrint.LinesAppend | lib/thermalPrint.ts:45-54 | the rows of two runs of lines are the rows of each, concatenated |
| ThermalPrint.LinesSplit | lib/thermalPrint.ts:53 | splitting the joined rows on newlines gives back each row, and an empty tail |
| ThermalPrint.RowsSplit | lib/thermalPrint.ts:44-57 | the rows section splits into exactly one row per cart line, in cart order |
| ThermalPrint.LinesAscii | lib/thermalPrint.ts:53 | rows of ASCII text joined with newlines are ASCII |
| ThermalPrint.RowsAscii | lib/thermalPrint.ts:45-54 | the rows section is ASCII |
| ThermalPrint.TotalLineReadsBack | lib/thermalPrint.ts:56-58 | the total line starts with `TOTAL: ` and the number after it reads back as the total |
| ThermalPrint.TicketStart | lib/thermalPrint.ts:36-39 | the ticket opens with ESC @ and then the centred, bold, double-height shop-name line |
| ThermalPrint.TicketEnd | lib/thermalPrint.ts:61-62 | the ticket ends with the centred thank-you line and four newlines |
| ThermalPrint.TicketHeading | lib/thermalPrint.ts:36-41 | split on newlines, the ticket's first three lines are the shop-name line, the address line and the rule's dashes |
| ThermalPrint.TicketRows | lib/thermalPrint.ts:41-57 | split on newlines, the lines after the first rule are exactly the cart's row bodies in cart order and then the second rule, the first of them behind the left-align codes |
| ThermalPrint.TicketTotal | lib/thermalPrint.ts:56-58 | split on newlines, the line after the second rule is the centred, bold total of the cart |
| ThermalPrint.TicketLayoutReady | lib/thermalPrint.ts:36-62 | the ticket is its heading lines, then the left-align codes, the row lines and the rule, then the total line and the closing; none of these lines holds a newline |
| ThermalPrint.SplitLinesThen | lib/thermalPrint.ts:53 | split on newlines, whole lines come back one by one, followed by the pieces of what comes after them |
| ThermalPrint.LinesLayout | lib/thermalPrint.ts:36-62 | text laid out as three heading lines, a block of lines and a total line splits into exactly those lines, in order |
| ThermalPrint.MiddleLines | lib/thermalPrint.ts:44-57 | a prefix without newline joins the first of the row lines, and the others come back alone |
| ThermalPrint.HeadingLines | lib/thermalPrint.ts:39-41 | the heading is three whole lines: the size reset moves to the front of the address line |
| ThermalPrint.RowsThenRule | lib/thermalPrint.ts:53-57 | the rows and the second rule are the lines of the row bodies followed by the dashes |
| ThermalPrint.TicketAsLines | lib/thermalPrint.ts:36-62 | the ticket regrouped as its heading lines followed by the rows block and the closing |
| ThermalPrint.DashesLine | lib/thermalPrint.ts:41 | the rule is 32 dashes and a newline, and the dashes hold no newline |
| ThermalPrint.MiddleNoNewline | lib/thermalPrint.ts:53 | no row body and no rule holds a newline |
| ThermalPrint.ShopNameFallback | lib/thermalPrint.ts:39 | a missing or empty shop name prints MINIPAY; any other shop name is the one printed |
| ThermalPrint.AddressFallback | lib/thermalPrint.ts:40 | a missing or empty address prints ABIDJAN; any other address is the one printed |
| ThermalPrint.ConstantsAscii | lib/thermalPrint.ts:28-34 | the ESC/POS control sequences and fixed texts are ASCII |
| ThermalPrint.TitleAscii | lib/thermalPrint.ts:39-40 | the header lines are ASCII |
| ThermalPrint.TotalAscii | lib/thermalPrint.ts:58 | the total block is ASCII |
| ThermalPrint.TicketBytes | lib/thermalPrint.ts:64 | the ticket is ASCII, so its UTF-8 encoding has one byte per character, each equal to its code |
| ThermalPrint.ChunksLayout | lib/thermalPrint.ts:64-69 | ⌈n/20⌉ chunks of 1 to 20 bytes, all but the last exactly 20, which concatenate back to the bytes |
| ThermalPrint.ChunksStep | lib/thermalPrint.ts:67-68 | the chunks from offset i are `bytes.slice(i, i + 20)` followed by the chunks from i + 20 |
| ThermalPrint.WriteStep | lib/thermalPrint.ts:67-68 | one `writeValue` moves the next chunk from the chunks still to write to the chunks written |
| ThermalPrint.WriteChunks | lib/thermalPrint.ts:67-69 | the loop writes the chunks in order; it stops at the first failed write, and has written all chunks if and only if none failed |
| ThermalPrint.PrintViaBluetooth | lib/thermalPrint.ts:12-79 | no printer reached: nothing written; otherwise a prefix of the ticket's chunks, all of them unless a write fails; success if and only if every write and the disconnect succeed |
| Text.Utf8Char | lib/thermalPrint.ts:64 | one to four bytes; a single byte equal to the code for ASCII, only bytes of 0x80 and above otherwise |
| Text.Utf8EncodeAscii | lib/thermalPrint.ts:64 | `TextEncoder.encode` of ASCII text is one byte per character, equal to its code |
| Text.Repeat | lib/thermalPrint.ts:51 | `" ".repeat(n)` is n blanks |
| Text.IntToString | lib/thermalPrint.ts:47 | the decimal text of an integer is non-empty ASCII without newline |
| Text.ParseIntOfIntToString | lib/thermalPrint.ts:58 | `parseInt` reads back the decimal text of any integer, also when non-digit text follows it |
| Text.ParseIntNegative | lib/thermalPrint.ts:58 | `parseInt` of '-' and the digits of m, then a non-digit, is -m |
| Text.MinusSign | lib/thermalPrint.ts:58 | a leading '-' in `parseInt` negates the unsigned value after it |
| Text.ParseIntNonNegative | app/rapports/page.tsx:26 | `parseInt` of the digits of m followed by a non-digit is m |
| Text.ParseIntOfNat | app/rapports/page.tsx:26 | `parseInt` reads back the decimal text of a natural number |
| Text.Pad2 | app/rapports/page.tsx:25 | a day or month as the locale writes it: at least two characters, all digits |
| Text.DigitsValueOfPad2 | app/rapports/page.tsx:26 | the two-digit text has the number's value, the leading zero adding nothing |
| Text.ParseUnsignedPad2 | app/rapports/page.tsx:26 | the digits of a zero-padded number read back as the number when no digit or 'x' follows |
| Text.DigitStart | app/rapports/page.tsx:26 | `parseInt` of text that starts with a digit skips no blank and no sign |
| Text.ParseIntPad2 | app/rapports/page.tsx:26 | `parseInt` reads back a zero-padded day or month, also with other text after it |
| Text.ParseIntOfPad2 | app/rapports/page.tsx:26 | `parseInt` reads back a zero-padded day or month on its own |
| Text.LeadingDigitsStop | app/rapports/page.tsx:26 | the run of digits `parseInt` reads stops where the digits stop |
| Text.DigitsValueOfNatToString | app/rapports/page.tsx:26 | the value of the decimal digits of n is n |
| Text.Split | app/rapports/page.tsx:24-25 | `split` gives at least one part, the first being the text before the first separator, and no part holds the separator |
| Text.JoinSplit | app/rapports/page.tsx:24-25 | joining the split parts with the separator gives back the text |
| Text.SplitPrefixed | app/rapports/page.tsx:25 | a field without the separator, the separator, then more: the field is the first part |
| Text.TakeUntilPrefixed | app/rapports/page.tsx:24 | the text before the first ',' of a comma-free prefix followed by more is that prefix and what precedes ',' in the rest |
| Db.ApplyMissing | lib/db.ts:49-50 | a line whose article is not in the store leaves the store unchanged |
| Db.ApplyPresent | lib/db.ts:49-52 | a line whose article is stored writes back that record with its stock lowered by qte |
| Db.ApplySaleLineEffect | lib/db.ts:48-53 | after one line, the named article has lost qte units and every other key reads as before |
| Db.ApplySaleLineKeepsOrder | lib/db.ts:52 | a `put` keeps the store in key order and below its generator |
| Db.DecrementedTwice | lib/db.ts:48-54 | lowering stock by p, then by q, is lowering it by p + q: repeated ids add up |
| Db.StockAfterSaleEffect | lib/db.ts:44-56 | after the loop every stored article has lost exactly the summed qte of the lines naming it; missing ids stay missing |
| Db.StockAfterSaleStep | lib/db.ts:48-54 | the loop over the first i + 1 lines is the loop over i lines and then line i |
| Db.UnreferencedArticleUnchanged | lib/db.ts:48-54 | an article named by no line keeps its record |
| Db.QtyForAbsent | lib/db.ts:48-54 | an article named by no line loses nothing |
| Db.StockMayGoNegative | lib/db.ts:51 | there is no floor: selling two units of an article that has one leaves stock -1 |
| Db.DecrementOne | lib/db.ts:49-53 | `get`, `stock -= qte`, `put` for one line is one step of the sale |
| Db.DecrementStock | lib/db.ts:44-56 | the loop over the items gives the store after the sale, kept in key order |
| Db.RetainedExactly | lib/db.ts:65-73 | a sale is kept if and only if its date does not parse or now - date ≤ 90 days in ms, in store order |
| Db.SweepStep | lib/db.ts:68-74 | one turn of the sweep deletes the expired sale, or keeps the retained one, and keeps the key order |
| Db.Sweep | lib/db.ts:68-74 | the loop over the `getAll` snapshot leaves exactly the retained sales, in key order |
| Db.Database.constructor | lib/db.ts:29-37 | a new database: empty stores, both generators at 1 |
| Db.Database.AddArticle | lib/db.ts:40 | the article gets the generator's key, which was unused, and goes last; the generator moves on; other stores untouched |
| Db.Database.UpdateArticle | lib/db.ts:41 | `put` under the article's id: that key reads back the article, every other key as before; the generator moves past an explicit key |
| Db.Database.DeleteArticle | lib/db.ts:42 | the key reads as missing afterwards, every other key as before; deleting a missing key changes nothing |
| Db.Database.UpdateStockApresVente | lib/db.ts:44-56 | the articles store becomes the store after the sale; the sales and settings untouched |
| Db.Database.SaveVente | lib/db.ts:78 | the sale gets the generator's unused key and goes last; the articles untouched |
| Db.Database.CleanOldVentes | lib/db.ts:59-76 | the sales store becomes exactly the retained sales; the articles and settings untouched |
| Db.Database.SaveSettings | lib/db.ts:80-81 | `getSettings` then returns the saved record; only the key 'config' changes |
| Ventes.ModifierQte | app/ventes/page.tsx:68-76 | the cart length and each line's article are unchanged |
| Ventes.AddToCart | app/ventes/page.tsx:60-66 | exactly one more unit of the article, ids stay unique, quantities positive, every other article's units unchanged |
| Ventes.AddToExistingLine | app/ventes/page.tsx:62-63 | an article already in the cart: only its line's qte grows by 1, in place |
| Ventes.AddNewLine | app/ventes/page.tsx:64 | a new article: a line with qte 1 is appended, and the total grows by its price |
| Ventes.ChangeQty | app/ventes/page.tsx:68-76 | the line's qte becomes qte + delta exactly when that is positive; otherwise, and for every other line, nothing changes; ids stay unique |
| Ventes.CartQtyIsLineQty | app/ventes/page.tsx:60-76 | with unique ids, an article's units are the qte of its line, or 0 when it has none |
| Ventes.RemoveFromCart | app/ventes/page.tsx:185 | exactly the line with the id is dropped, the others kept in order, ids still unique |
| Ventes.RemoveOneLine | app/ventes/page.tsx:185 | removing the only line with the id is the cart without that position |
| Ventes.SubsequenceKeepsUnique | app/ventes/page.tsx:185 | filtering a cart with unique ids keeps the ids unique |
| Ventes.Checkout.constructor | app/ventes/page.tsx:15-25 | the first render: empty lists, no message, not printing, no last sale |
| Ventes.Checkout.Load | app/ventes/page.tsx:42-46 | the articles and the settings come from the database; the cart untouched |
| Ventes.Checkout.SetSearch | app/ventes/page.tsx:152 | the search text is replaced; nothing else changes |
| Ventes.Checkout.Filtered | app/ventes/page.tsx:124-127 | exactly the articles whose lowercased name or category contains the lowercased search, in catalogue order |
| Ventes.Checkout.Add | app/ventes/page.tsx:158 | the cart becomes `ajouterAuPanier` of it: one more unit of the article |
| Ventes.Checkout.ChangeQuantity | app/ventes/page.tsx:182-184 | the cart becomes `modifierQte` of it and stays valid |
| Ventes.Checkout.RemoveLine | app/ventes/page.tsx:185 | the cart loses the line with the id and stays valid |
| Ventes.Checkout.ValiderVente | app/ventes/page.tsx:80-122 | ignored exactly when the cart is empty or a checkout is running; a save or stock failure keeps the cart and alerts; otherwise the sale is recorded before the stock update, the ticket goes out by Bluetooth or the system print, the cart is cleared and success is shown; `isPrinting` is false on every path |
| Ventes.Checkout.Begin | app/ventes/page.tsx:81-96 | busy flag on, snapshot of the cart and its total as the last sale, then the sale saved and the stock lowered; on failure an alert and the busy flag off, cart kept |
| Ventes.Checkout.Complete | app/ventes/page.tsx:98-120 | the ticket goes out on one of the two paths, then the cart is cleared with the success message and the busy flag off |
| Ventes.Checkout.FinishSale | app/ventes/page.tsx:111-120 | cart cleared, success message, articles reloaded (or an alert when the reload fails), busy flag off |
| Ventes.RecordSale | app/ventes/page.tsx:95-96 | the sale is saved first; a save failure changes nothing, a stock failure leaves the saved sale; success if and only if both calls succeed |
| Ventes.SendTicket | app/ventes/page.tsx:98-108 | Bluetooth when `printViaBluetooth` succeeds, the system print otherwise, with the chunks the printer received |
| Dashboard.AllLinesSnoc | app/page.tsx:35-39 | the lines of the sales plus one sale are the lines so far then that sale's lines |
| Dashboard.BuildCategoryStock | app/page.tsx:28-31 | the `forEach` fills `catStock` as the counting dictionary of (category, stock) |
| Dashboard.CategoryStockSpec | app/page.tsx:28-31 | one entry per category, in first-appearance order; each its articles' summed stock; all entries summing to the total stock |
| Dashboard.BuildSalesByProduct | app/page.tsx:34-39 | the nested `forEach` fills `salesByProduct` as the counting dictionary of (name, qte) |
| Dashboard.SalesByProductSpec | app/page.tsx:34-39 | one entry per name sold, in order of first sale, each the summed qte of the lines with that name |
| Dashboard.TopProductsSpec | app/page.tsx:40-43 | min(5, names) entries, distinct names, qty non-increasing, each that name's aggregate, none left out sold more than one shown |
| Dashboard.LowStockSpec | app/page.tsx:25 | exactly the articles with stock ≤ 10, in their order, and the stat counts exactly those, whatever the sales |
| Dashboard.TurnoverOfRecordedSales | app/page.tsx:24 | when each sale's total is its lines' sum, the turnover is the sum of prix × qte over every line sold |
| Dashboard.TurnoverAppend | app/page.tsx:24-45 | turnover and sale count of two runs of sales add up |
| Dashboard.QuickAddSpec | app/page.tsx:118 | the first min(4, n) articles in stock, in store order |
| Dashboard.RecentSalesSpec | app/page.tsx:140 | the last min(4, n) sales, newest first |
| Dashboard.LoadData | app/page.tsx:15-48 | the view holds both stores, the stats, the category stock and the best sellers of that data |
| Tally.CountSpec | app/page.tsx:34-39 | `d[k] = (d[k] \|\| 0) + q` over the pairs holds each key once in first-appearance order, with its summed quantity |
| Tally.CountNames | app/page.tsx:34-39 | the dictionary's keys are the distinct names, in first-appearance order |
| Tally.CountQty | app/page.tsx:34-39 | each entry holds the sum of its name's quantities |
| Tally.CountUnique | app/page.tsx:34-39 | no key appears twice |
| Tally.CountKeepsSum | app/page.tsx:28-31 | counting loses no quantity: the entries sum to the pairs' sum |
| Tally.PairsOfQty | app/page.tsx:34-39 | what the pairs give a name is the sum of the value over the elements with that key |
| Tally.BumpPresent | app/page.tsx:37 | bumping an existing key updates that entry in place |
| Tally.SortByQtySpec | app/page.tsx:42 | `sort((a, b) => b.qty - a.qty)`: non-increasing, a permutation, and stable for equal quantities |
| Tally.SortSorted | app/page.tsx:42 | the sorted entries are non-increasing |
| Tally.SortPermutes | app/page.tsx:42 | the sorted entries are a permutation |
| Tally.SortStable | app/page.tsx:42 | the entries of each quantity keep their relative order |
| Tally.InsertSorted | app/page.tsx:42 | inserting into a non-increasing list keeps it non-increasing |
| Tally.InsertPermutes | app/page.tsx:42 | insertion adds exactly the entry |
| Tally.InsertStable | app/page.tsx:42 | insertion puts the entry after those of equal quantity |
| Tally.SortKeepsUnique | app/page.tsx:42 | unique names stay unique through the sort |
| Tally.TopFiveSpec | app/page.tsx:40-43 | `slice(0, 5)` of the sort: min(5, n) entries, non-increasing, unique, from the dictionary, none left out above one shown |
| Catalogue.FilterArticlesExactly | app/inventaire/page.tsx:69-73 | exactly the articles whose lowercased name or category contains the lowercased search at some position, in original order |
| Catalogue.EmptySearchKeepsAll | app/inventaire/page.tsx:69-73 | an empty search keeps every article |
| Catalogue.CategoriesOf | app/inventaire/page.tsx:57 | one category per article |
| Catalogue.CategoriesExistantesSpec | app/inventaire/page.tsx:56-58 | distinct categories, every article's category present, nothing else, in first-occurrence order |
| Inventaire.InventoryPage.constructor | app/inventaire/page.tsx:28-38 | the first render: no articles, no modal, no dialog, clean form |
| Inventaire.InventoryPage.LoadData | app/inventaire/page.tsx:51-54 | the articles come from the store; the modal state untouched |
| Inventaire.InventoryPage.ApplyCategoryFilter | app/inventaire/page.tsx:45-49 | a non-empty `cat` parameter becomes the search; otherwise nothing changes |
| Inventaire.InventoryPage.SetSearch | app/inventaire/page.tsx:104-112 | the search becomes the typed text, or "" for the clear button; nothing else changes |
| Inventaire.InventoryPage.Filtered | app/inventaire/page.tsx:69-73 | exactly the matching articles in order; all of them for an empty search |
| Inventaire.InventoryPage.Categories | app/inventaire/page.tsx:56-58 | distinct categories, every article's category and only those |
| Inventaire.InventoryPage.OpenNew | app/inventaire/page.tsx:88-91 | modal open on an empty form, formDirty reset |
| Inventaire.InventoryPage.OpenEdit | app/inventaire/page.tsx:163-166 | modal open on the article, formDirty reset |
| Inventaire.InventoryPage.FormChanged | app/inventaire/page.tsx:195 | the form becomes dirty |
| Inventaire.InventoryPage.HandleCloseModal | app/inventaire/page.tsx:60-67 | dirty: the confirmation opens and the modal stays; clean: the modal closes and currentArticle is cleared |
| Inventaire.InventoryPage.Abandon | app/inventaire/page.tsx:361-365 | confirmation and modal closed, formDirty reset |
| Inventaire.InventoryPage.Continue | app/inventaire/page.tsx:371 | only the confirmation closes |
| Inventaire.InventoryPage.Submit | app/inventaire/page.tsx:196-210 | editing an article with an id: `put` under that id; otherwise `add` under the next key; then the modal closes and the list is reloaded |
| Inventaire.InventoryPage.RequestDelete | app/inventaire/page.tsx:173 | the delete dialog asks about the article's id |
| Inventaire.InventoryPage.ConfirmDelete | app/inventaire/page.tsx:324-328 | the article is gone from the store, everything else stays, the dialog closes and the list is reloaded |
| Inventaire.InventoryPage.CancelDelete | app/inventaire/page.tsx:334-335 | the dialog closes, nothing deleted |
| Inventaire.CloseDirtyForm | app/inventaire/page.tsx:60-67 | after edits, closing asks first: "Abandonner" discards and closes, "Continuer" returns to the still-dirty form |
| Rapports.DatePartOf | app/rapports/page.tsx:24 | the text before the first ',' of "date, time" is the date |
| Rapports.SplitDayMonthYear | app/rapports/page.tsx:25 | "d/m/y" splits on '/' into its three fields |
| Rapports.ParseVenteDateOfLocale | app/rapports/page.tsx:22-27 | "d/m/y" followed by nothing or ", time" reads as year `parseInt(y)`, month index `parseInt(m) - 1`, day `parseInt(d)` |
| Rapports.ParseVenteDateBlank | app/rapports/page.tsx:22-27 | "d/m/y time" without ',' reads the year from "y time" |
| Rapports.ParseVenteDateRoundTrip | app/rapports/page.tsx:22-27 | the stamp "dd/mm/y" written by `toLocaleString` (two-digit day and month, zero-padded below ten), with or without a time after it, reads back as that year, month - 1 and day |
| Rapports.RoundTripComma | app/rapports/page.tsx:22-27 | the round trip of the zero-padded stamp when nothing or ", time" follows the year |
| Rapports.RoundTripBlank | app/rapports/page.tsx:22-27 | the round trip of the zero-padded stamp when " time" follows the year |
| Rapports.CivilOfFields | app/rapports/page.tsx:22-27 | fields that read as numbers give the civil date they spell |
| Rapports.CivilOfBlankFields | app/rapports/page.tsx:22-27 | the same when a blank and a time follow the year |
| Rapports.DigitsOnly | app/rapports/page.tsx:23-24 | text made of digits holds no '/' and no ',', so the split on ',' and on '/' leaves the fields whole |
| Rapports.NoCommaInDate | app/rapports/page.tsx:24 | "d/m/y" of comma-free fields is its own first ','-part |
| Rapports.ParseVenteDateOther | app/rapports/page.tsx:28 | text without '/' goes to `new Date(text)` |
| Rapports.FilteredVentesSpec | app/rapports/page.tsx:31-52 | an order-preserving subsequence of the sales, holding exactly those the filter callback keeps |
| Rapports.TousKeepsAll | app/rapports/page.tsx:32 | 'tous' keeps every sale |
| Rapports.JourAndMois | app/rapports/page.tsx:33-50 | 'jour' keeps a sale if and only if both dates parse and their midnights are equal; 'mois' if and only if both parse and the month and the year of the two midnights match |
| Rapports.InvalidDatesOnlyUnderTous | app/rapports/page.tsx:33-50 | outside 'tous', a kept sale has a valid date and so does the search date |
| Rapports.TotalPeriodeSpec | app/rapports/page.tsx:66 | the revenue of the kept sales plus that of the dropped ones is the whole revenue, and 'tous' gives the dashboard's revenue |
| Rapports.PeriodTopSpec | app/rapports/page.tsx:55-64 | the period's best sellers: at most 5, non-increasing, distinct names, each qty aggregated over the kept sales only |
| Rapports.BuildReport | app/rapports/page.tsx:55-66 | the render's nested `forEach` and reductions give the filtered sales, their best sellers and their revenue |

## Left out

- Web Bluetooth (`requestDevice`, `gatt.connect`, the service and characteristic look-ups, `writeValue`, `disconnect`) is device I/O. Its result is the input `BtOutcome`: no printer, a failing write at a given chunk, a failing disconnect, or success. The model keeps the chunks written.
- `window.print` and the `setTimeout` calls are host printing and timers. The fallback print is the outcome `SystemPrint`. The 3-second clearing of the success message is not modelled.
- IndexedDB through `idb` is not modelled: `openDB`, the schema upgrade and promises. The stores are in-memory sequences in key order, and `getArticles`/`getVentes` are reads of the store fields. Only the checkout's awaited calls may reject: saving the sale, lowering the stock and reloading the articles after the sale. They are the input `DbFault` of Ventes.RecordSale, Ventes.Checkout.ValiderVente and Ventes.Checkout.Begin, and Ventes.Checkout.FinishSale takes the reload's outcome as `reloadFails`. A rejected `updateStockApresVente` transaction is taken to abort as a whole, as IndexedDB rolls back its puts.
- Inventaire.InventoryPage.Submit, Inventaire.InventoryPage.ConfirmDelete, Inventaire.InventoryPage.LoadData, Dashboard.LoadData and Ventes.Checkout.Load: their store calls are taken to succeed. In the source, a rejected `updateArticle` or `addArticle` skips `setIsModalOpen(false)` and `loadData()` (`app/inventaire/page.tsx:205-209`), and a rejected `deleteArticle` skips `setShowDeleteConfirm(null)` (`app/inventaire/page.tsx:326-328`), so the modal or the dialog stays open. The model does not cover those paths.
- NFD normalisation and `toLowerCase` are library functions, taken as the parameters `nfd` and `lower`.
- JavaScript `Date` is not modelled: locale formatting and parsing, `setHours`, time zones, the Monday-to-Sunday week arithmetic, `Date.now()` and the ticket number of the printed preview. Its results are the parameters `Clock`, `parseDate` and `Calendar`, with the week bounds as `Calendar.week`.
- Rapports.ParseVenteDateRoundTrip: it covers stamps in a day/month/year locale (as fr-FR and en-GB write them). A month/day/year locale such as en-US writes the fields in another order, and `parseVenteDate` then reads the day as the month.
- Prices, quantities and stock are integers. Floating point, `Number(...)` of form fields (NaN included) and `toLocaleString` number display are not modelled.
- Dashboard.CategoryStockSpec, Dashboard.SalesByProductSpec and Tally.CountNames: they state first-appearance order, but `Object.entries` lists integer-like keys (a category or a product named "12") first, in ascending numeric order, and only then the other keys in insertion order. With such keys, the order of `categoryStock` and the four categories `slice(0, 4)` shows (`app/page.tsx:73`) differ from the model.
- Dashboard.TopProductsSpec, Tally.TopFiveSpec and Rapports.PeriodTopSpec: for the same reason, the stable sort can see entries tied on quantity in another order, which changes which of the entries tied at fifth place `slice(0, 5)` keeps.
- Names equal to a member of `Object.prototype` are not modelled. The dictionaries are plain `{}` objects (`app/page.tsx:28-30`, `app/page.tsx:34-37`, `app/rapports/page.tsx:55-58`), so for a name such as "constructor" or "toString" the lookup `d[k] || 0` finds the inherited function instead of 0, and a key "__proto__" is not stored. `Tally.Count` models a dictionary that starts empty.
- React rendering, hooks and async interleavings are not modelled: each handler runs to completion. The HTML receipt preview and the report's lists are rendering only.
- The online/offline listeners, the URL `autoplay` add with its `useRef` guard and the `console` calls are not modelled.
- `loadVentes` in the report page (`Array.isArray(data) ? data : []`) is a plain read of the sales store. The report's functions take that sequence as an argument.
- The final `return true` of the report filter cannot be reached with the four filter types, so it is not modelled.
- The report's filter-type and date pickers are not modelled as state setters: `BuildReport` takes the chosen filter and date as arguments.
- Reachability through the UI is stated as `requires`. Examples: the close button sits inside the open modal; the page buttons lie under the quit confirmation while it is shown; the delete dialog exists only while an id is pending.
- `cleanForPrint` of `null`/`undefined`: text is a string here, and absent text is the empty string, for which `!text` holds.
- ThermalPrint.CleanKeepsPrintable, ThermalPrint.CleanIdempotent, ThermalPrint.ShopNameFallback and ThermalPrint.AddressFallback assume that NFD leaves ASCII text unchanged, which Unicode guarantees but the parameter does not.
- Catalogue.EmptySearchKeepsAll and Inventaire.InventoryPage.Filtered: the empty-search case assumes that lowercasing "" gives "".
